/** The doubly linked list of I/O handlers, and the pass that calls them while they change it. */
module Handlers {
  import opened Sequences

  /** What a handler serves: the server's listening socket, the client in a slot, or something else */
  datatype Role = Listener | Client(slot: nat) | Other

  class Handler {
    var fd: int
    const role: Role
    var prev: Handler?
    var next: Handler?

    constructor (fd: int, role: Role)
      ensures this.fd == fd && this.role == role && prev == null && next == null
    {
      this.fd, this.role := fd, role;
      prev, next := null, null;
    }
  }

  function Head(nodes: seq<Handler>, end: Handler?): Handler? {
    if nodes == [] then end else nodes[0]
  }

  function Last(nodes: seq<Handler>, before: Handler?): Handler? {
    if nodes == [] then before else nodes[|nodes| - 1]
  }

  /** The nodes point at each other both ways, the first back to `before` and the last on to `end`. */
  ghost predicate Linked(nodes: seq<Handler>, before: Handler?, end: Handler?)
    reads nodes`prev, nodes`next
  {
    nodes == [] ||
    (nodes[0].prev == before && nodes[0].next == Head(nodes[1..], end) && Linked(nodes[1..], nodes[0], end))
  }

  lemma {:induction false} LinkedConcat(a: seq<Handler>, b: seq<Handler>, before: Handler?, end: Handler?)
    ensures Linked(a + b, before, end) <==> Linked(a, before, Head(b, end)) && Linked(b, Last(a, before), end)
  {
    if a == [] {
      assert a + b == b;
    } else {
      assert (a + b)[1..] == a[1..] + b;
      LinkedConcat(a[1..], b, a[0], end);
    }
  }

  lemma NoneLinked(before: Handler?, end: Handler?)
    ensures Linked([], before, end)
  {}

  /** handler->next = next, for the last of a chain */
  method SetNext(handler: Handler, next: Handler?,
                 ghost nodes: seq<Handler>, ghost before: Handler?, ghost end: Handler?)
    requires nodes != [] && handler == nodes[|nodes| - 1] && Distinct(nodes) && Linked(nodes, before, end)
    modifies handler`next
    ensures handler.next == next && Linked(nodes, before, next)
  {
    ghost var init := nodes[..|nodes| - 1];
    assert nodes == init + [handler];
    DistinctConcat(init, [handler]);
    LinkedConcat(init, [handler], before, end);
    assert handler in [handler] && handler !in init;
    handler.next := next;
    LinkedConcat(init, [handler], before, next);
  }

  /** handler->prev = prev, for the first of a chain */
  method SetPrev(handler: Handler, prev: Handler?,
                 ghost nodes: seq<Handler>, ghost before: Handler?, ghost end: Handler?)
    requires nodes != [] && handler == nodes[0] && Distinct(nodes) && Linked(nodes, before, end)
    modifies handler`prev
    ensures handler.prev == prev && Linked(nodes, prev, end)
  {
    handler.prev := prev;
  }

  /** What lies before and behind a node of a list */
  lemma Around(nodes: seq<Handler>, i: nat)
    requires i < |nodes| && Distinct(nodes) && Linked(nodes, null, null)
    ensures var a, h, b := nodes[..i], nodes[i], nodes[i + 1..];
            && h !in a && h !in b && Disjoint(a, b) && Distinct(a) && Distinct(b) && Distinct(a + b)
            && h.prev == Last(a, null) && h.next == Head(b, null)
            && Linked(a, null, h) && Linked(b, h, null)
  {
    var a, h, b := nodes[..i], nodes[i], nodes[i + 1..];
    assert nodes == a + ([h] + b);
    LinkedConcat(a, [h] + b, null, null);
    DistinctConcat(a, [h] + b);
    DistinctConcat([h], b);
    assert h in [h] && h in [h] + b && forall n :: n in b ==> n in [h] + b;
    DistinctConcat(a, b);
  }

  lemma NextOf(nodes: seq<Handler>, i: nat)
    requires i < |nodes| && Distinct(nodes) && Linked(nodes, null, null)
    ensures nodes[i].next == Head(nodes[i + 1..], null)
  {
    Around(nodes, i);
  }

  lemma NewApart(earlier: seq<Handler>, news: seq<Handler>, known: set<Handler>)
    requires forall h :: h in earlier ==> h in known
    requires forall h :: h in news ==> h !in known
    ensures Disjoint(earlier, news)
  {}

  /** What the k-th handler of a poll pass has to do: nothing, when its descriptor is closed or not ready, or a
      callback */
  datatype Action = Idle | Called(unregister: bool, appends: nat)

  predicate Unregisters(action: Action) {
    action.Called? && action.unregister
  }

  function Appends(action: Action): nat {
    if action.Called? then action.appends else 0
  }

  function ActionAt(script: seq<Action>, k: nat): Action {
    if k < |script| then script[k] else Idle
  }

  /** The handlers that the callbacks from the k-th on will still register */
  function StillToCome(script: seq<Action>, k: nat): nat
    decreases |script| - k
  {
    if k >= |script| then 0 else Appends(script[k]) + StillToCome(script, k + 1)
  }

  /** By how much the first n callbacks lengthen the list */
  function Gain(script: seq<Action>, n: nat): int {
    if n == 0 then 0
    else
      var action := ActionAt(script, n - 1);
      Gain(script, n - 1) + Appends(action) - if Unregisters(action) then 1 else 0
  }

  /** How many handlers a pass visits with `ahead` of them still ahead: one registered while the last is served is
      not reached. */
  function Visits(ahead: nat, script: seq<Action>, k: nat): nat
    decreases ahead + StillToCome(script, k)
  {
    StillToComeStep(script, k);
    if ahead <= 1 then ahead else 1 + Visits(ahead - 1 + Appends(ActionAt(script, k)), script, k + 1)
  }

  lemma StillToComeStep(script: seq<Action>, k: nat)
    ensures StillToCome(script, k) == Appends(ActionAt(script, k)) + StillToCome(script, k + 1)
  {}

  /** How far a pass has come: the handlers visited and those ahead are distinct and start with those registered at
      its start; of the visited, exactly those are still registered that did not unregister themselves. */
  ghost predicate Reached(start: seq<Handler>, visited: seq<Handler>, kept: seq<Handler>, ahead: seq<Handler>,
                          script: seq<Action>) {
    && Distinct(visited + ahead) && start <= visited + ahead
    && forall k :: 0 <= k < |visited| ==> (visited[k] in kept <==> !Unregisters(ActionAt(script, k)))
  }

  /** ... and how many visits are still to come */
  ghost predicate Progress(start: seq<Handler>, visited: seq<Handler>, kept: seq<Handler>, ahead: seq<Handler>,
                           script: seq<Action>) {
    && Reached(start, visited, kept, ahead, script)
    && |visited| + Visits(|ahead|, script, |visited|) == Visits(|start|, script, 0)
  }

  lemma PassStart(nodes: seq<Handler>, script: seq<Action>)
    requires Distinct(nodes)
    ensures Progress(nodes, [], [], nodes, script)
  {
    assert [] + nodes == nodes;
  }

  /** Of the visited handlers and the one at hand, those are kept that did not unregister themselves; none is new. */
  lemma StillRegistered(visited: seq<Handler>, kept: seq<Handler>, ahead: seq<Handler>, news: seq<Handler>,
                        script: seq<Action>)
    requires ahead != [] && Disjoint(kept, ahead) && Disjoint(visited, ahead) && Disjoint(visited + ahead, news)
    requires forall k :: 0 <= k < |visited| ==> (visited[k] in kept <==> !Unregisters(ActionAt(script, k)))
    ensures var left := kept + if Unregisters(ActionAt(script, |visited|)) then [] else [ahead[0]];
            var seen := visited + [ahead[0]];
            forall k :: 0 <= k < |seen| ==>
              seen[k] !in news && (seen[k] in left <==> !Unregisters(ActionAt(script, k)))
  {
    var seen := visited + [ahead[0]];
    assert ahead[0] in ahead;
    forall k | 0 <= k < |seen|
      ensures seen[k] !in news && (k < |visited| ==> seen[k] != ahead[0])
    {
      assert seen[k] in visited + ahead;
      if k < |visited| {
        assert visited[k] in visited;
      }
    }
  }

  /** One turn of a pass: handlers registered by the callback are ahead only if another one already was. */
  lemma {:induction false} ReachStep(start: seq<Handler>, visited: seq<Handler>, kept: seq<Handler>,
                                     ahead: seq<Handler>, news: seq<Handler>, script: seq<Action>)
    returns (kept': seq<Handler>, ahead': seq<Handler>)
    requires Reached(start, visited, kept, ahead, script) && ahead != [] && Distinct(kept + ahead)
    requires Distinct(news) && Disjoint(visited + ahead, news) && Disjoint(kept + ahead, news)
    ensures Reached(start, visited + [ahead[0]], kept', ahead', script)
    ensures kept' + ahead'
         == kept + (if Unregisters(ActionAt(script, |visited|)) then [] else [ahead[0]]) + ahead[1..] + news
    ensures ahead' == if |ahead| == 1 then [] else ahead[1..] + news
  {
    hide Distinct;
    var h, tail, action := ahead[0], ahead[1..], ActionAt(script, |visited|);
    var left := kept + if Unregisters(action) then [] else [h];
    assert visited + ahead == visited + [h] + tail && ahead == [h] + tail;
    DistinctConcat(kept, ahead);
    DistinctConcat(visited, ahead);
    DistinctConcat(visited + ahead, news);
    assert (visited + ahead) + news == (visited + [h]) + (tail + news);
    StillRegistered(visited, kept, ahead, news, script);
    if tail == [] {
      assert (visited + [h]) + [] == visited + ahead;
      kept', ahead' := left + news, [];
    } else {
      kept', ahead' := left, tail + news;
    }
  }

  lemma {:induction false} PassStep(start: seq<Handler>, visited: seq<Handler>, kept: seq<Handler>, ahead: seq<Handler>,
                                    news: seq<Handler>, script: seq<Action>)
    returns (kept': seq<Handler>, ahead': seq<Handler>)
    requires Progress(start, visited, kept, ahead, script) && ahead != [] && Distinct(kept + ahead)
    requires Distinct(news) && Disjoint(visited + ahead, news) && Disjoint(kept + ahead, news)
    requires |news| == Appends(ActionAt(script, |visited|))
    ensures Progress(start, visited + [ahead[0]], kept', ahead', script)
    ensures kept' + ahead'
         == kept + (if Unregisters(ActionAt(script, |visited|)) then [] else [ahead[0]]) + ahead[1..] + news
    ensures Head(ahead', null) == Head(ahead[1..], null)
    ensures |ahead'| + StillToCome(script, |visited| + 1) < |ahead| + StillToCome(script, |visited|)
  {
    StillToComeStep(script, |visited|);
    hide Distinct, Disjoint, StillToCome, Reached;
    kept', ahead' := ReachStep(start, visited, kept, ahead, news, script);
  }

  lemma {:induction false} PassEnd(start: seq<Handler>, visited: seq<Handler>, kept: seq<Handler>, script: seq<Action>)
    requires Progress(start, visited, kept, [], script)
    ensures Distinct(visited) && start <= visited && |visited| == Visits(|start|, script, 0)
    ensures forall k :: 0 <= k < |visited| ==> (visited[k] in kept <==> !Unregisters(ActionAt(script, k)))
  {
    ReachEnd(start, visited, kept, script);
  }

  lemma ReachEnd(start: seq<Handler>, visited: seq<Handler>, kept: seq<Handler>, script: seq<Action>)
    requires Reached(start, visited, kept, [], script)
    ensures Distinct(visited) && start <= visited
    ensures forall k :: 0 <= k < |visited| ==> (visited[k] in kept <==> !Unregisters(ActionAt(script, k)))
  {
    assert visited + [] == visited;
  }

  /** What is reached does not depend on callbacks not made yet. */
  lemma ReachedSoFar(start: seq<Handler>, visited: seq<Handler>, kept: seq<Handler>, ahead: seq<Handler>,
                     script: seq<Action>, action: Action)
    requires Reached(start, visited, kept, ahead, script) && |script| == |visited|
    ensures Reached(start, visited, kept, ahead, script + [action])
  {
    assert forall k :: 0 <= k < |visited| ==> ActionAt(script + [action], k) == ActionAt(script, k);
  }

  class HandlerList {
    var first: Handler?
    var last: Handler?
    ghost var nodes: seq<Handler>
    ghost var repr: set<Handler> // the handlers ever registered

    ghost predicate Valid()
      reads this, repr`prev, repr`next
    {
      && (forall h :: h in nodes ==> h in repr)
      && Distinct(nodes) && Linked(nodes, null, null)
      && first == Head(nodes, null) && last == Last(nodes, null)
    }

    constructor ()
      ensures Valid() && nodes == [] && repr == {}
    {
      first, last, nodes, repr := null, null, [], {};
    }

    method Push(handler: Handler)
      requires Valid() && handler !in repr && handler.prev == null && handler.next == null
      modifies this, repr`next, handler`prev
      ensures Valid() && nodes == old(nodes) + [handler] && repr == old(repr) + {handler}
    {
      ghost var mine := nodes;
      assert Disjoint(mine, [handler]);
      DistinctConcat(mine, [handler]);
      if first != null {
        assert last in mine;
        SetNext(last, handler, mine, null, null);
        handler.prev := last;
      }
      assert Linked(mine, null, handler) && Linked([handler], Last(mine, null), null);
      LinkedConcat(mine, [handler], null, null);
      if first == null {
        first := handler;
      }
      last, nodes, repr := handler, mine + [handler], repr + {handler};
    }

    /** Unlinks a handler, whose own pointers stay as they were. */
    method Remove(handler: Handler, ghost i: nat)
      requires Valid() && i < |nodes| && nodes[i] == handler
      modifies this, repr`prev, repr`next
      ensures Valid() && nodes == old(nodes)[..i] + old(nodes)[i + 1..] && handler !in nodes && repr == old(repr)
      ensures handler.prev == old(handler.prev) && handler.next == old(handler.next)
    {
      hide Distinct, Linked;
      ghost var a, b := nodes[..i], nodes[i + 1..];
      Around(nodes, i);
      if handler.next != null {
        assert b[0] in b;
        SetPrev(handler.next, handler.prev, b, handler, null);
      }
      if handler.prev != null {
        assert a[|a| - 1] in a;
        SetNext(handler.prev, handler.next, a, null, handler);
      }
      assert Linked(a + b, null, null) by {
        NoneLinked(Last(a, null), null);
        NoneLinked(null, Head(b, null));
        LinkedConcat(a, b, null, null);
      }
      if handler == first {
        first := handler.next;
      }
      if handler == last {
        last := handler.prev;
      }
      nodes := a + b;
    }

    // ---------- The poll pass ----------

    /** Registers n new handlers. */
    method RegisterNew(n: nat) returns (ghost news: seq<Handler>)
      requires Valid()
      modifies this, repr`next
      ensures Valid() && nodes == old(nodes) + news && Distinct(news) && |news| == n
      ensures forall h :: h in news ==> h.role == Other
      ensures old(repr) <= repr && fresh(repr - old(repr)) && forall h :: h in news ==> h in repr && h !in old(repr)
    {
      hide Linked;
      news := [];
      for i := 0 to n
        invariant Valid() && nodes == old(nodes) + news && |news| == i && Distinct(news)
        invariant forall h :: h in news ==> h.role == Other
        invariant old(repr) <= repr && fresh(repr - old(repr)) && forall h :: h in news ==> h in repr && h !in old(repr)
      {
        var added := new Handler(0, Other);
        assert Disjoint(news, [added]);
        DistinctConcat(news, [added]);
        Push(added);
        news := news + [added];
      }
    }

    /** What a callback does to the list: it may unregister its own handler, and it may register new ones. */
    method Callback(handler: Handler, action: Action, ghost i: nat) returns (ghost news: seq<Handler>)
      requires Valid() && i < |nodes| && nodes[i] == handler
      modifies this, repr`prev, repr`next
      ensures Valid() && Distinct(news) && |news| == Appends(action) && forall h :: h in news ==> h.role == Other
      ensures old(repr) <= repr && fresh(repr - old(repr)) && forall h :: h in news ==> h in repr && h !in old(repr)
      ensures nodes == old(nodes)[..i] + (if Unregisters(action) then [] else [handler]) + old(nodes)[i + 1..] + news
    {
      hide Linked;
      ghost var before := nodes;
      assert before == before[..i] + [handler] + before[i + 1..];
      if Unregisters(action) {
        Remove(handler, i);
      }
      news := RegisterNew(Appends(action));
    }

    /** One pass over the registered handlers: the next one is saved before a callback may change the list. */
    method PollPass(script: seq<Action>) returns (visited: seq<Handler>)
      requires Valid()
      modifies this, repr`prev, repr`next
      ensures Valid() && old(repr) <= repr && fresh(repr - old(repr))
      ensures Distinct(visited) && old(nodes) <= visited
      ensures |visited| == Visits(|old(nodes)|, script, 0)
      ensures |nodes| == |old(nodes)| + Gain(script, |visited|)
      ensures forall k :: 0 <= k < |visited| ==> (visited[k] in nodes <==> !Unregisters(ActionAt(script, k)))
    {
      hide Linked, Distinct, Disjoint, StillToCome, Visits, Reached, Progress;
      visited := [];
      var handler := first;
      ghost var kept: seq<Handler>, ahead := [], nodes;
      PassStart(nodes, script);
      while handler != null
        invariant Valid() && nodes == kept + ahead && handler == Head(ahead, null)
        invariant Progress(old(nodes), visited, kept, ahead, script)
        invariant |nodes| == |old(nodes)| + Gain(script, |visited|)
        invariant old(repr) <= repr && fresh(repr - old(repr)) && forall h :: h in visited ==> h in repr
        decreases |ahead| + StillToCome(script, |visited|)
      {
        NextOf(nodes, |kept|);
        assert nodes[..|kept|] == kept && nodes[|kept| + 1..] == ahead[1..];
        var next := handler.next;
        var action := ActionAt(script, |visited|);
        ghost var known := repr;
        ghost var news := Callback(handler, action, |kept|);
        NewApart(visited + ahead, news, known);
        NewApart(kept + ahead, news, known);
        kept, ahead := PassStep(old(nodes), visited, kept, ahead, news, script);
        visited := visited + [handler];
        handler := next;
      }
      assert nodes == kept;
      PassEnd(old(nodes), visited, kept, script);
    }
  }
}
