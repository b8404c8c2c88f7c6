/** The server's ten client slots, tied one to one to the client handlers registered with the agent. */
module Servers {
  import opened Handlers
  import opened Numbers
  import opened Sequences

  const MAX_CLIENTS: nat := 10
  const INACTIVE := -1

  // ---------- Counting ----------

  function Active(sockets: seq<int>): nat {
    if sockets == [] then 0 else One(sockets[0] != INACTIVE) + Active(sockets[1..])
  }

  /** How many handlers serve the client in a slot */
  function Serving(nodes: seq<Handler>, slot: nat): nat {
    if nodes == [] then 0 else One(nodes[0].role == Client(slot)) + Serving(nodes[1..], slot)
  }

  function ClientHandlers(nodes: seq<Handler>): nat {
    if nodes == [] then 0 else One(nodes[0].role.Client?) + ClientHandlers(nodes[1..])
  }

  lemma {:induction false} ActiveUpdate(sockets: seq<int>, i: nat, v: int)
    requires i < |sockets|
    ensures Active(sockets[i := v]) + One(sockets[i] != INACTIVE) == Active(sockets) + One(v != INACTIVE)
  {
    if i > 0 {
      assert sockets[i := v][1..] == sockets[1..][i - 1 := v];
      ActiveUpdate(sockets[1..], i - 1, v);
    } else {
      assert sockets[i := v][1..] == sockets[1..];
    }
  }

  lemma {:induction false} ActiveBound(sockets: seq<int>)
    ensures Active(sockets) <= |sockets|
    ensures Active(sockets) == |sockets| <==> forall i :: 0 <= i < |sockets| ==> sockets[i] != INACTIVE
  {
    if sockets != [] {
      ActiveBound(sockets[1..]);
      assert (forall i :: 0 <= i < |sockets| ==> sockets[i] != INACTIVE)
        <==> sockets[0] != INACTIVE && (forall i :: 0 <= i < |sockets[1..]| ==> sockets[1..][i] != INACTIVE) by {
        assert forall i :: 0 < i < |sockets| ==> sockets[i] == sockets[1..][i - 1];
      }
    }
  }

  lemma {:induction false} ServingConcat(a: seq<Handler>, b: seq<Handler>, slot: nat)
    ensures Serving(a + b, slot) == Serving(a, slot) + Serving(b, slot)
  {
    if a == [] {
      assert a + b == b;
    } else {
      assert (a + b)[1..] == a[1..] + b;
      ServingConcat(a[1..], b, slot);
    }
  }

  lemma {:induction false} ServingRemove(nodes: seq<Handler>, i: nat, slot: nat)
    requires i < |nodes|
    ensures Serving(nodes, slot)
         == Serving(nodes[..i] + nodes[i + 1..], slot) + One(nodes[i].role == Client(slot))
  {
    assert nodes == nodes[..i] + ([nodes[i]] + nodes[i + 1..]);
    ServingConcat(nodes[..i], [nodes[i]] + nodes[i + 1..], slot);
    ServingConcat([nodes[i]], nodes[i + 1..], slot);
    ServingConcat(nodes[..i], nodes[i + 1..], slot);
  }

  /** Slots and client handlers are in bijection. */
  ghost predicate Matched(sockets: seq<int>, nodes: seq<Handler>) {
    && (forall slot :: 0 <= slot < |sockets| ==> Serving(nodes, slot) == One(sockets[slot] != INACTIVE))
    && (forall h :: h in nodes && h.role.Client? ==> h.role.slot < |sockets|)
  }

  /** The handlers of the first k slots */
  function ServingBelow(nodes: seq<Handler>, k: nat): nat {
    if k == 0 then 0 else ServingBelow(nodes, k - 1) + Serving(nodes, k - 1)
  }

  lemma {:induction false} ServingBelowHead(nodes: seq<Handler>, k: nat)
    requires nodes != []
    ensures ServingBelow(nodes, k)
         == ServingBelow(nodes[1..], k) + One(nodes[0].role.Client? && nodes[0].role.slot < k)
  {
    if k > 0 {
      ServingBelowHead(nodes, k - 1);
    }
  }

  lemma {:induction false} ServingBelowNone(k: nat)
    ensures ServingBelow([], k) == 0
  {
    if k > 0 {
      ServingBelowNone(k - 1);
    }
  }

  lemma {:induction false} AllServed(nodes: seq<Handler>, k: nat)
    requires forall h :: h in nodes && h.role.Client? ==> h.role.slot < k
    ensures ServingBelow(nodes, k) == ClientHandlers(nodes)
  {
    if nodes == [] {
      ServingBelowNone(k);
    } else {
      AllServed(nodes[1..], k);
      ServingBelowHead(nodes, k);
      assert nodes[0] in nodes;
    }
  }

  lemma {:induction false} ActiveBelow(sockets: seq<int>, nodes: seq<Handler>, k: nat)
    requires k <= |sockets|
    requires forall slot :: 0 <= slot < |sockets| ==> Serving(nodes, slot) == One(sockets[slot] != INACTIVE)
    ensures ServingBelow(nodes, k) == Active(sockets[..k])
  {
    if k == 0 {
      assert sockets[..0] == [];
    } else {
      ActiveBelow(sockets, nodes, k - 1);
      assert sockets[..k] == sockets[..k - 1] + [sockets[k - 1]];
      ActiveConcat(sockets[..k - 1], [sockets[k - 1]]);
    }
  }

  lemma {:induction false} ActiveConcat(a: seq<int>, b: seq<int>)
    ensures Active(a + b) == Active(a) + Active(b)
  {
    if a == [] {
      assert a + b == b;
    } else {
      assert (a + b)[1..] == a[1..] + b;
      ActiveConcat(a[1..], b);
    }
  }

  /** There are as many client handlers as active slots. */
  lemma MatchedCounts(sockets: seq<int>, nodes: seq<Handler>)
    requires Matched(sockets, nodes)
    ensures ClientHandlers(nodes) == Active(sockets)
  {
    AllServed(nodes, |sockets|);
    ActiveBelow(sockets, nodes, |sockets|);
    assert sockets[..|sockets|] == sockets;
  }

  /** A free slot and a new handler for it keep the match ... */
  lemma MatchedAdd(sockets: seq<int>, nodes: seq<Handler>, i: nat, socket: int, handler: Handler)
    requires Matched(sockets, nodes) && i < |sockets| && sockets[i] == INACTIVE && socket != INACTIVE
    requires handler.role == Client(i)
    ensures Matched(sockets[i := socket], nodes + [handler])
  {
    forall slot | 0 <= slot < |sockets|
      ensures Serving(nodes + [handler], slot) == One(sockets[i := socket][slot] != INACTIVE)
    {
      ServingConcat(nodes, [handler], slot);
    }
  }

  /** ... and so do a slot freed and its handler removed, which is the one handler it had. */
  lemma MatchedRemove(sockets: seq<int>, nodes: seq<Handler>, i: nat)
    requires Matched(sockets, nodes) && i < |nodes| && nodes[i].role.Client?
    ensures nodes[i].role.slot < |sockets| && sockets[nodes[i].role.slot] != INACTIVE
    ensures Matched(sockets[nodes[i].role.slot := INACTIVE], nodes[..i] + nodes[i + 1..])
  {
    var mine, rest := nodes[i].role.slot, nodes[..i] + nodes[i + 1..];
    assert nodes[i] in nodes && forall h :: h in rest ==> h in nodes;
    forall slot | 0 <= slot < |sockets|
      ensures Serving(rest, slot) == One(sockets[mine := INACTIVE][slot] != INACTIVE)
      ensures slot == mine ==> sockets[slot] != INACTIVE
    {
      ServingRemove(nodes, i, slot);
    }
  }

  /** What other handlers do to the list leaves the match alone: one of them may go, and new ones may come. */
  lemma MatchedOthers(sockets: seq<int>, nodes: seq<Handler>, i: nat, gone: bool, news: seq<Handler>)
    requires Matched(sockets, nodes) && i < |nodes| && !nodes[i].role.Client?
    requires forall h :: h in news ==> !h.role.Client?
    ensures Matched(sockets, nodes[..i] + (if gone then [] else [nodes[i]]) + nodes[i + 1..] + news)
  {
    var a, h, b := nodes[..i], nodes[i], nodes[i + 1..];
    var rest := a + (if gone then [] else [h]) + b;
    assert nodes == a + [h] + b && forall x :: x in a || x in b ==> x in nodes;
    assert !gone ==> rest == nodes;
    assert gone ==> rest == a + b;
    forall slot | 0 <= slot < |sockets|
      ensures Serving(rest + news, slot) == One(sockets[slot] != INACTIVE)
    {
      ServingRemove(nodes, i, slot);
      ServingConcat(rest, news, slot);
      NoneServing(news, slot);
    }
  }

  // ---------- A poll pass with the server's callbacks ----------

  type socket = n: int | -1 <= n witness -1

  /** What a ready handler meets: what accept4 returns, whether a handler can be allocated, whether a client's list
      arrives complete, and what a handler that is not the server's does to the list */
  datatype Readiness = Idle | Ready(accepted: socket, canAllocate: bool, complete: bool, other: Action)

  function ReadyAt(script: seq<Readiness>, k: nat): Readiness {
    if k < |script| then script[k] else Readiness.Idle
  }

  function OtherAppends(ready: Readiness): nat {
    if ready.Ready? then Appends(ready.other) else 0
  }

  function Budget(script: seq<Readiness>, k: nat): nat
    decreases |script| - k
  {
    if k >= |script| then 0 else OtherAppends(script[k]) + Budget(script, k + 1)
  }

  function Listeners(nodes: seq<Handler>): nat {
    if nodes == [] then 0 else One(nodes[0].role.Listener?) + Listeners(nodes[1..])
  }

  lemma {:induction false} ListenersConcat(a: seq<Handler>, b: seq<Handler>)
    ensures Listeners(a + b) == Listeners(a) + Listeners(b)
  {
    if a == [] {
      assert a + b == b;
    } else {
      assert (a + b)[1..] == a[1..] + b;
      ListenersConcat(a[1..], b);
    }
  }

  lemma {:induction false} NoListeners(nodes: seq<Handler>)
    requires forall h :: h in nodes ==> !h.role.Listener?
    ensures Listeners(nodes) == 0
  {
    if nodes != [] {
      assert nodes[0] in nodes;
      NoListeners(nodes[1..]);
    }
  }

  /** A ready listener connects a client. */
  predicate Connects(nClients: int, ready: Readiness) {
    ready.Ready? && nClients < MAX_CLIENTS && ready.accepted != -1 && ready.canAllocate
  }

  function ClientsNext(nClients: int, role: Role, ready: Readiness): int {
    match role
    case Listener => nClients + One(Connects(nClients, ready))
    case Client(_) => nClients - One(ready.Ready?)
    case Other => nClients
  }

  /** By how much serving a handler lengthens the list */
  function Gained(nClients: int, role: Role, ready: Readiness): int {
    match role
    case Listener => One(Connects(nClients, ready))
    case Client(_) => if ready.Ready? then -1 else 0
    case Other => OtherAppends(ready) - One(ready.Ready? && Unregisters(ready.other))
  }

  function AllGained(nClients: int, visited: seq<Handler>, script: seq<Readiness>): int {
    if visited == [] then 0
    else
      var k := |visited| - 1;
      AllGained(nClients, visited[..k], script)
      + Gained(ClientsAfter(nClients, visited[..k], script), visited[k].role, ReadyAt(script, k))
  }

  /** The number of clients once these handlers were served, one after the other */
  function ClientsAfter(nClients: int, visited: seq<Handler>, script: seq<Readiness>): int {
    if visited == [] then nClients
    else
      var k := |visited| - 1;
      ClientsNext(ClientsAfter(nClients, visited[..k], script), visited[k].role, ReadyAt(script, k))
  }

  lemma ClientsStep(nClients: int, visited: seq<Handler>, script: seq<Readiness>, handler: Handler)
    ensures ClientsAfter(nClients, visited + [handler], script)
         == ClientsNext(ClientsAfter(nClients, visited, script), handler.role, ReadyAt(script, |visited|))
    ensures AllGained(nClients, visited + [handler], script)
         == AllGained(nClients, visited, script)
            + Gained(ClientsAfter(nClients, visited, script), handler.role, ReadyAt(script, |visited|))
  {
    assert (visited + [handler])[..|visited|] == visited;
  }

  /** What serving a handler may do to the list of handlers, by its role */
  ghost predicate Serves(role: Role, ready: Readiness, action: Action, news: seq<Handler>) {
    && (ready.Idle? ==> action == Action.Idle && news == [])
    && (role.Client? ==> news == [] && (Unregisters(action) <==> ready.Ready?))
    && (role.Listener? ==> !Unregisters(action) && |news| <= 1)
    && (role.Other? ==>
          |news| == OtherAppends(ready) && (Unregisters(action) <==> ready.Ready? && Unregisters(ready.other)))
    && (forall h :: h in news ==> !h.role.Listener?)
  }

  /** A pass ends: an accept adds a handler but uses up a listener, and the others have only so many to register. */
  lemma PassShrinks(ahead: seq<Handler>, news: seq<Handler>, script: seq<Readiness>, k: nat, action: Action)
    requires ahead != [] && Serves(ahead[0].role, ReadyAt(script, k), action, news)
    ensures var ahead' := if |ahead| == 1 then [] else ahead[1..] + news;
            |ahead'| + Listeners(ahead') + Budget(script, k + 1) < |ahead| + Listeners(ahead) + Budget(script, k)
  {
    NoListeners(news);
    ListenersConcat(ahead[1..], news);
  }

  /** Every visited handler did what its role lets it do. */
  predicate Served(visited: seq<Handler>, script: seq<Readiness>, actions: seq<Action>) {
    && |actions| == |visited|
    && forall k :: 0 <= k < |visited| ==>
         && (visited[k].role.Client? ==> (Unregisters(actions[k]) <==> ReadyAt(script, k).Ready?))
         && (visited[k].role.Listener? ==> !Unregisters(actions[k]))
         && (visited[k].role.Other? ==>
               (Unregisters(actions[k]) <==> ReadyAt(script, k).Ready? && Unregisters(ReadyAt(script, k).other)))
  }

  lemma ServedStep(visited: seq<Handler>, script: seq<Readiness>, actions: seq<Action>, handler: Handler,
                   action: Action, news: seq<Handler>)
    requires Served(visited, script, actions) && Serves(handler.role, ReadyAt(script, |visited|), action, news)
    ensures Served(visited + [handler], script, actions + [action])
  {}

  lemma {:induction false} NoneActive(sockets: seq<int>)
    requires forall i :: 0 <= i < |sockets| ==> sockets[i] == INACTIVE
    ensures Active(sockets) == 0
  {
    if sockets != [] {
      NoneActive(sockets[1..]);
    }
  }

  lemma {:induction false} NoneServing(nodes: seq<Handler>, slot: nat)
    requires forall h :: h in nodes ==> !h.role.Client?
    ensures Serving(nodes, slot) == 0
  {
    if nodes != [] {
      assert nodes[0] in nodes;
      NoneServing(nodes[1..], slot);
    }
  }

  // ---------- The server ----------

  class Server {
    const sockets: array<int>     // clients[i].socket
    const handlers: HandlerList   // the agent's handlers, the clients' among them
    var nClients: nat

    ghost predicate Valid()
      reads this, sockets, handlers, handlers.repr
    {
      && sockets.Length == MAX_CLIENTS && handlers.Valid()
      && Matched(sockets[..], handlers.nodes)
      && nClients == Active(sockets[..])
    }

    /** The slots' counter is the number of active slots and of client handlers, and never above the ten there are. */
    lemma Counted()
      requires Valid()
      ensures nClients == ClientHandlers(handlers.nodes) == Active(sockets[..]) && nClients <= 10
    {
      MatchedCounts(sockets[..], handlers.nodes);
      ActiveBound(sockets[..]);
    }

    /** No slot is in use, and no handler serves one. */
    constructor (handlers: HandlerList)
      requires handlers.Valid() && forall h :: h in handlers.nodes ==> !h.role.Client?
      ensures Valid() && this.handlers == handlers && nClients == 0 && fresh(sockets)
    {
      this.handlers := handlers;
      sockets := new int[MAX_CLIENTS];
      nClients := 0;
      new;
      for i := 0 to MAX_CLIENTS
        invariant forall k :: 0 <= k < i ==> sockets[k] == INACTIVE
        modifies sockets
      {
        sockets[i] := INACTIVE;
      }
      NoneActive(sockets[..]);
      forall slot: nat {
        NoneServing(handlers.nodes, slot);
      }
    }

    /** What accept4 returns and whether the handler can be allocated come from outside. The last return of the source,
        after the loop, is never reached: with a client fewer than slots, one of them is free. */
    method HandleConnection(accepted: int, canAllocate: bool) returns (r: int)
      requires Valid() && accepted >= -1
      modifies this`nClients, sockets, handlers, handlers.repr`next
      ensures Valid() && (r == 0 || r == -1)
      ensures old(handlers.repr) <= handlers.repr && fresh(handlers.repr - old(handlers.repr))
      ensures r == 0 <==> old(nClients) < MAX_CLIENTS && accepted != -1 && canAllocate
      ensures r != 0 ==> nClients == old(nClients) && sockets[..] == old(sockets[..])
                         && handlers.nodes == old(handlers.nodes)
      ensures r == 0 ==> nClients == old(nClients) + 1 && |handlers.nodes| == |old(handlers.nodes)| + 1
                         && handlers.nodes[..|old(handlers.nodes)|] == old(handlers.nodes)
      ensures r == 0 ==> var h := handlers.nodes[|old(handlers.nodes)|];
                         && fresh(h) && h.role.Client? && h.role.slot < MAX_CLIENTS && h.fd == accepted
                         && old(sockets[..])[h.role.slot] == INACTIVE
                         && (forall k :: 0 <= k < h.role.slot ==> old(sockets[..])[k] != INACTIVE)
                         && sockets[..] == old(sockets[..])[h.role.slot := accepted]
    {
      ActiveBound(sockets[..]);
      if nClients >= MAX_CLIENTS {
        return -1;
      }
      var i := 0;
      while i < MAX_CLIENTS && sockets[i] != INACTIVE
        invariant i <= MAX_CLIENTS && forall k :: 0 <= k < i ==> sockets[k] != INACTIVE
      {
        i := i + 1;
      }
      if i == MAX_CLIENTS {
        return 1;
      }
      if accepted == -1 || !canAllocate {
        sockets[i] := INACTIVE; // what accept4 returned, or client_init once the connection is closed
        assert sockets[..] == old(sockets[..]);
        return -1;
      }
      var handler := new Handler(accepted, Client(i));
      MatchedAdd(sockets[..], handlers.nodes, i, accepted, handler);
      ActiveUpdate(sockets[..], i, accepted);
      sockets[i] := accepted;
      assert sockets[..] == old(sockets[..])[i := accepted];
      handlers.Push(handler);
      nClients := nClients + 1;
      return 0;
    }

    /** The slot is free again and its handler gone. */
    method Disconnect(handler: Handler, ghost i: nat)
      requires Valid() && i < |handlers.nodes| && handlers.nodes[i] == handler && handler.role.Client?
      modifies this`nClients, sockets, handlers, handlers.repr`prev, handlers.repr`next
      ensures Valid() && nClients == old(nClients) - 1 && handlers.repr == old(handlers.repr)
      ensures handlers.nodes == old(handlers.nodes)[..i] + old(handlers.nodes)[i + 1..]
      ensures sockets[..] == old(sockets[..])[handler.role.slot := INACTIVE]
    {
      var slot := handler.role.slot;
      MatchedRemove(sockets[..], handlers.nodes, i);
      ActiveUpdate(sockets[..], slot, INACTIVE);
      sockets[slot] := INACTIVE;
      assert sockets[..] == old(sockets[..])[slot := INACTIVE];
      nClients := nClients - 1;
      handlers.Remove(handler, i);
    }

    /** Whether the client's list arrives complete or not, its connection ends with it. */
    method HandleClient(handler: Handler, complete: bool, ghost i: nat) returns (r: int)
      requires Valid() && i < |handlers.nodes| && handlers.nodes[i] == handler && handler.role.Client?
      modifies this`nClients, sockets, handlers, handlers.repr`prev, handlers.repr`next
      ensures Valid() && nClients == old(nClients) - 1 && r == if complete then 0 else -1
      ensures handlers.repr == old(handlers.repr)
      ensures handlers.nodes == old(handlers.nodes)[..i] + old(handlers.nodes)[i + 1..]
      ensures sockets[..] == old(sockets[..])[handler.role.slot := INACTIVE]
    {
      Disconnect(handler, i);
      r := if complete then 0 else -1;
    }

    /** monikor_server_handle_any, or the callback of a handler that is not the server's */
    method Serve(handler: Handler, ready: Readiness, ghost i: nat)
      returns (ghost action: Action, ghost news: seq<Handler>)
      requires Valid() && i < |handlers.nodes| && handlers.nodes[i] == handler
      modifies this`nClients, sockets, handlers, handlers.repr`prev, handlers.repr`next
      ensures Valid() && Serves(handler.role, ready, action, news) && Distinct(news)
      ensures nClients == ClientsNext(old(nClients), handler.role, ready)
      ensures |handlers.nodes| == |old(handlers.nodes)| + Gained(old(nClients), handler.role, ready)
      ensures handler.role.Listener? ==>
                && |news| == One(Connects(old(nClients), ready))
                && forall h :: h in news ==> h.role.Client? && h.fd == ready.accepted
      ensures old(handlers.repr) <= handlers.repr && fresh(handlers.repr - old(handlers.repr))
      ensures forall h :: h in news ==> h in handlers.repr && h !in old(handlers.repr)
      ensures handlers.nodes == old(handlers.nodes)[..i] + (if Unregisters(action) then [] else [handler])
                                + old(handlers.nodes)[i + 1..] + news
    {
      hide Linked, Matched;
      ghost var before := handlers.nodes;
      assert before == before[..i] + [handler] + before[i + 1..] + [];
      action, news := Action.Idle, [];
      if ready.Idle? {
        return;
      }
      match handler.role
      case Listener =>
        var r := HandleConnection(ready.accepted, ready.canAllocate);
        if r == 0 {
          news := [handlers.nodes[|before|]];
          assert handlers.nodes == before + news;
        }
      case Client(slot) =>
        var r := HandleClient(handler, ready.complete, i);
        action := Called(true, 0);
      case Other =>
        action := ready.other;
        assert handler.role == Other;
        news := handlers.Callback(handler, ready.other, i);
        MatchedOthers(sockets[..], before, i, Unregisters(action), news);
    }

    /** Where a pass stands: who was visited, who of them is still registered, who is ahead */
    ghost predicate Passing(start: seq<Handler>, visited: seq<Handler>, kept: seq<Handler>, ahead: seq<Handler>,
                            script: seq<Readiness>, actions: seq<Action>)
      reads this, sockets, handlers, handlers.repr
    {
      && Valid() && handlers.nodes == kept + ahead
      && Reached(start, visited, kept, ahead, actions) && Served(visited, script, actions)
      && forall h :: h in visited ==> h in handlers.repr
    }

    /** One turn of a pass: the next handler is saved before this one's callback may change the list. */
    method PassTurn(handler: Handler, script: seq<Readiness>, ghost start: seq<Handler>, visited: seq<Handler>,
                    ghost kept: seq<Handler>, ghost ahead: seq<Handler>, ghost actions: seq<Action>)
      returns (next: Handler?, ghost action: Action, ghost kept': seq<Handler>, ghost ahead': seq<Handler>)
      requires Passing(start, visited, kept, ahead, script, actions) && ahead != [] && handler == ahead[0]
      modifies this`nClients, sockets, handlers, handlers.repr`prev, handlers.repr`next
      ensures Passing(start, visited + [handler], kept', ahead', script, actions + [action])
      ensures next == Head(ahead', null)
      ensures nClients == ClientsNext(old(nClients), handler.role, ReadyAt(script, |visited|))
      ensures |handlers.nodes|
           == |old(handlers.nodes)| + Gained(old(nClients), handler.role, ReadyAt(script, |visited|))
      ensures old(handlers.repr) <= handlers.repr && fresh(handlers.repr - old(handlers.repr))
      ensures |ahead'| + Listeners(ahead') + Budget(script, |visited| + 1)
              < |ahead| + Listeners(ahead) + Budget(script, |visited|)
    {
      hide *;
      KnownInPass(start, visited, kept, ahead, script, actions);
      next := handler.next;
      ghost var known := handlers.repr;
      ghost var news;
      action, news := Serve(handler, ReadyAt(script, |visited|), |kept|);
      NewApart(visited + ahead, news, known);
      NewApart(kept + ahead, news, known);
      PassShrinks(ahead, news, script, |visited|, action);
      ServedStep(visited, script, actions, handler, action, news);
      ReachedSoFar(start, visited, kept, ahead, actions, action);
      ghost var more := actions + [action];
      ActionAdded(actions, action);
      kept', ahead' := ReachStep(start, visited, kept, ahead, news, more);
      HeadIsFirst(ahead[1..]);
      HeadIsFirst(ahead');
      KeepPassing(start, visited + [handler], kept', ahead', script, more);
    }

    /** What a turn of a pass needs to know of the list */
    lemma KnownInPass(start: seq<Handler>, visited: seq<Handler>, kept: seq<Handler>, ahead: seq<Handler>,
                      script: seq<Readiness>, actions: seq<Action>)
      requires Passing(start, visited, kept, ahead, script, actions) && ahead != []
      ensures Valid() && |kept| < |handlers.nodes| && handlers.nodes[|kept|] == ahead[0]
      ensures handlers.nodes[..|kept|] == kept && handlers.nodes[|kept| + 1..] == ahead[1..]
      ensures Distinct(kept + ahead) && ahead[0].next == Head(ahead[1..], null)
      ensures Reached(start, visited, kept, ahead, actions)
      ensures Served(visited, script, actions) && |actions| == |visited|
      ensures forall h :: h in visited + ahead || h in kept + ahead ==> h in handlers.repr
    {
      hide Linked, Distinct, Matched, Reached;
      NextOf(handlers.nodes, |kept|);
    }

    lemma KeepPassing(start: seq<Handler>, visited: seq<Handler>, kept: seq<Handler>, ahead: seq<Handler>,
                      script: seq<Readiness>, actions: seq<Action>)
      requires Valid() && handlers.nodes == kept + ahead
      requires Reached(start, visited, kept, ahead, actions) && Served(visited, script, actions)
      requires forall h :: h in visited ==> h in handlers.repr
      ensures Passing(start, visited, kept, ahead, script, actions)
    {}

    /** One poll pass over all handlers, the server's own callbacks among them, which connect and disconnect clients
        while it goes on. */
    method PollPass(script: seq<Readiness>) returns (visited: seq<Handler>, ghost actions: seq<Action>)
      requires Valid()
      modifies this`nClients, sockets, handlers, handlers.repr`prev, handlers.repr`next
      ensures Valid() && Served(visited, script, actions)
      ensures nClients == ClientsAfter(old(nClients), visited, script)
      ensures |handlers.nodes| == |old(handlers.nodes)| + AllGained(old(nClients), visited, script)
      ensures Distinct(visited) && old(handlers.nodes) <= visited
      ensures forall k :: 0 <= k < |visited| ==> (visited[k] in handlers.nodes <==> !Unregisters(actions[k]))
    {
      hide *;
      visited, actions := [], [];
      var handler := handlers.first;
      ghost var start := handlers.nodes;
      ghost var kept: seq<Handler>, ahead := [], start;
      StartPassing(script);
      while handler != null
        invariant Passing(start, visited, kept, ahead, script, actions) && handler == Head(ahead, null)
        invariant nClients == ClientsAfter(old(nClients), visited, script)
        invariant |handlers.nodes| == |start| + AllGained(old(nClients), visited, script)
        invariant old(handlers.repr) <= handlers.repr && fresh(handlers.repr - old(handlers.repr))
        decreases |ahead| + Listeners(ahead) + Budget(script, |visited|)
      {
        HeadIsFirst(ahead);
        ClientsStep(old(nClients), visited, script, handler);
        ghost var action;
        var next;
        next, action, kept, ahead := PassTurn(handler, script, start, visited, kept, ahead, actions);
        visited, actions := visited + [handler], actions + [action];
        handler := next;
      }
      HeadIsFirst(ahead);
      EndPassing(start, visited, kept, script, actions);
    }

    lemma StartPassing(script: seq<Readiness>)
      requires Valid()
      ensures Passing(handlers.nodes, [], [], handlers.nodes, script, [])
      ensures handlers.first == Head(handlers.nodes, null)
      ensures nClients == ClientsAfter(nClients, [], script) && AllGained(nClients, [], script) == 0
    {
      assert [] + handlers.nodes == handlers.nodes;
    }

    lemma EndPassing(start: seq<Handler>, visited: seq<Handler>, kept: seq<Handler>, script: seq<Readiness>,
                     actions: seq<Action>)
      requires Passing(start, visited, kept, [], script, actions)
      ensures Valid() && Served(visited, script, actions)
      ensures Distinct(visited) && start <= visited && |actions| == |visited|
      ensures forall k :: 0 <= k < |visited| ==> (visited[k] in handlers.nodes <==> !Unregisters(actions[k]))
    {
      assert handlers.nodes == kept;
      ReachEnd(start, visited, kept, actions);
    }
  }

  lemma ActionAdded(actions: seq<Action>, action: Action)
    ensures ActionAt(actions + [action], |actions|) == action
  {}

  lemma HeadIsFirst(nodes: seq<Handler>)
    ensures Head(nodes, null) == if nodes == [] then null else nodes[0]
  {}
}
