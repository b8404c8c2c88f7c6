/** The singly linked list of metrics, with its `size`, `dataSize` and `last` bookkeeping.

  Every operation is proved against the sequence `contents` the list refines.
*/
module MetricLists {
  import opened Wrappers
  import opened Metrics
  import opened Sequences

  /** The records a predicate keeps, in order */
  function Kept(ms: seq<Metric>, drop: Metric -> bool): seq<Metric> {
    if ms == [] then []
    else if drop(ms[0]) then Kept(ms[1..], drop)
    else [ms[0]] + Kept(ms[1..], drop)
  }

  lemma {:induction false} KeptMembers(ms: seq<Metric>, drop: Metric -> bool)
    ensures forall m :: m in Kept(ms, drop) <==> m in ms && !drop(m)
  {
    if ms != [] {
      KeptMembers(ms[1..], drop);
    }
  }

  function Removed(ms: seq<Metric>, drop: Metric -> bool): seq<Metric> {
    Kept(ms, m => !drop(m))
  }

  /** One step of a walk that keeps or drops: what was kept so far and what is ahead still add up. */
  lemma KeptStep(kept: seq<Metric>, ahead: seq<Metric>, drop: Metric -> bool)
    requires ahead != []
    ensures kept + Kept(ahead, drop) == (if drop(ahead[0]) then kept else kept + [ahead[0]]) + Kept(ahead[1..], drop)
  {}

  /** The index of the first record satisfying `p`, or the length when there is none */
  function FirstIndex(ms: seq<Metric>, p: Metric -> bool): (i: nat)
    ensures i <= |ms| && (i < |ms| ==> p(ms[i]))
    ensures forall j :: 0 <= j < i ==> !p(ms[j])
  {
    if ms == [] || p(ms[0]) then 0 else 1 + FirstIndex(ms[1..], p)
  }

  /** How many records the batch loop takes, having taken n: it stops when none is left or the batch is big enough. */
  function Taken(ms: seq<Metric>, maxSize: nat, n: nat): (r: nat)
    requires n <= |ms|
    ensures n <= r <= |ms| && (r < |ms| ==> DataSize(ms[..r]) >= maxSize)
    ensures r > n ==> DataSize(ms[..r - 1]) < maxSize
    decreases |ms| - n
  {
    if n < |ms| && DataSize(ms[..n]) < maxSize then Taken(ms, maxSize, n + 1) else n
  }

  function BatchLength(ms: seq<Metric>, maxSize: nat): (n: nat)
    ensures n <= |ms|
  {
    Taken(ms, maxSize, 0)
  }

  lemma {:induction false} DataSizePrefix(ms: seq<Metric>, i: nat, j: nat)
    requires i <= j <= |ms|
    ensures DataSize(ms[..i]) + NODE_BASE * (j - i) <= DataSize(ms[..j])
    decreases j - i
  {
    if i < j {
      DataSizePrefix(ms, i, j - 1);
      assert ms[..j] == ms[..j - 1] + [ms[j - 1]];
      DataSizeConcat(ms[..j - 1], [ms[j - 1]]);
      assert NODE_BASE * (j - i) == NODE_BASE * (j - 1 - i) + NODE_BASE;
    }
  }

  lemma DataSizeMonotone(ms: seq<Metric>, i: nat, j: nat)
    requires i <= j <= |ms|
    ensures DataSize(ms[..i]) <= DataSize(ms[..j])
  {
    assert ms[..j] == ms[..i] + ms[i..j];
    DataSizeConcat(ms[..i], ms[i..j]);
  }

  /** A batch is the shortest prefix that reaches the size wanted, or everything; no other length is. */
  lemma BatchIsShortest(ms: seq<Metric>, maxSize: nat, n: nat)
    requires n <= |ms|
    ensures n == BatchLength(ms, maxSize) <==>
              && (n == |ms| || DataSize(ms[..n]) >= maxSize)
              && (n > 0 ==> DataSize(ms[..n - 1]) < maxSize)
  {
    var r := BatchLength(ms, maxSize);
    if n < r {
      DataSizeMonotone(ms, n, r - 1);
    } else if r < n {
      DataSizeMonotone(ms, r, n - 1);
    }
  }

  lemma PrefixStep(ms: seq<Metric>, n: nat)
    requires n < |ms|
    ensures ms[..n + 1] == ms[..n] + [ms[n]] && ms[n..][1..] == ms[n + 1..]
  {}

  class Node {
    var next: Node?
    var metric: Metric

    constructor (metric: Metric)
      ensures this.metric == metric && next == null
    {
      this.metric := metric;
      next := null;
    }
  }

  /** The nodes hold these records, one each, in order. */
  ghost predicate Holds(nodes: seq<Node>, ms: seq<Metric>)
    reads nodes`metric
  {
    |nodes| == |ms| && forall i :: 0 <= i < |nodes| ==> nodes[i].metric == ms[i]
  }

  function Head(nodes: seq<Node>, end: Node?): Node? {
    if nodes == [] then end else nodes[0]
  }

  function Last(nodes: seq<Node>): Node? {
    if nodes == [] then null else nodes[|nodes| - 1]
  }

  /** Each node points to the following one, and the last one to `end`. */
  ghost predicate Chain(nodes: seq<Node>, end: Node?)
    reads nodes`next
  {
    nodes == [] || (nodes[0].next == Head(nodes[1..], end) && Chain(nodes[1..], end))
  }

  lemma {:induction false} ChainConcat(a: seq<Node>, b: seq<Node>, end: Node?)
    ensures Chain(a + b, end) <==> Chain(a, Head(b, end)) && Chain(b, end)
  {
    if a == [] {
      assert a + b == b;
    } else {
      assert (a + b)[1..] == a[1..] + b;
      ChainConcat(a[1..], b, end);
    }
  }

  /** node.next = next, for the last node of a chain */
  method Relink(node: Node, next: Node?, ghost nodes: seq<Node>, ghost end: Node?)
    requires nodes != [] && node == Last(nodes) && Distinct(nodes) && Chain(nodes, end)
    modifies node`next
    ensures node.next == next && Chain(nodes, next)
  {
    ghost var init := nodes[..|nodes| - 1];
    assert nodes == init + [node];
    DistinctConcat(init, [node]);
    ChainConcat(init, [node], end);
    assert node in [node] && node !in init;
    node.next := next;
    ChainConcat(init, [node], next);
  }

  class MetricList {
    var size: nat
    var dataSize: nat
    var first: Node?
    var last: Node?
    ghost var nodes: seq<Node>
    ghost var contents: seq<Metric>
    ghost var repr: set<Node> // the nodes this list owns

    ghost predicate Owns(nodes: seq<Node>)
      reads this
    {
      forall n :: n in nodes ==> n in repr
    }

    ghost predicate Valid()
      reads this, repr
    {
      && Owns(nodes)
      && Distinct(nodes)
      && Chain(nodes, null)
      && first == Head(nodes, null)
      && last == Last(nodes)
      && size == |nodes|
      && Holds(nodes, contents)
      && dataSize == DataSize(contents)
    }

    /** `size` counts the nodes, and `dataSize` the bytes of nodes, names and strings. */
    lemma SizesTell()
      requires Valid()
      ensures size == |contents| && dataSize == NODE_BASE * size + NameBytes(contents) + StringBytes(contents)
    {
      DataSizeIs(contents);
    }

    constructor ()
      ensures Valid() && nodes == [] && contents == [] && repr == {}
    {
      size, dataSize, first, last := 0, 0, null, null;
      nodes, contents, repr := [], [], {};
    }

    /** The writes of one operation to the four fields of the list, in one step */
    method SetHeader(first: Node?, last: Node?, size: nat, dataSize: nat,
                     ghost nodes: seq<Node>, ghost contents: seq<Metric>, ghost repr: set<Node>)
      modifies this
      ensures this.first == first && this.last == last && this.size == size && this.dataSize == dataSize
      ensures this.nodes == nodes && this.contents == contents && this.repr == repr
    {
      this.first, this.last, this.size, this.dataSize := first, last, size, dataSize;
      this.nodes, this.contents, this.repr := nodes, contents, repr;
    }

    method Init()
      modifies this
      ensures Valid() && nodes == [] && contents == [] && repr == {}
    {
      SetHeader(null, null, 0, 0, [], [], {});
    }

    /** monikor_metric_list_empty: the walk that frees the nodes leaves nothing to observe but the reset. */
    method Empty()
      requires Valid()
      modifies this
      ensures Valid() && nodes == [] && contents == [] && repr == {}
    {
      var cur := first;
      ghost var rest := nodes;
      while cur != null
        invariant Chain(rest, null) && cur == Head(rest, null)
        decreases |rest|
      {
        cur := cur.next;
        rest := rest[1..];
      }
      Init();
    }

    method PushNode(node: Node)
      requires Valid() && node !in repr && node.next == null
      modifies this, repr`next
      ensures Valid() && nodes == old(nodes) + [node] && repr == old(repr) + {node}
      ensures contents == old(contents) + [node.metric]
      ensures dataSize == old(dataSize) + NODE_BASE + |node.metric.name|
                          + if node.metric.value.Text? then |node.metric.value.s| else 0
    {
      ghost var mine, records := nodes, contents + [node.metric];
      assert Disjoint(mine, [node]);
      DistinctConcat(mine, [node]);
      DataSizeConcat(contents, [node.metric]);
      var newFirst := node;
      if size > 0 {
        newFirst := first;
        Relink(last, node, mine, null);
      }
      assert Chain(mine, node) && Chain([node], null);
      ChainConcat(mine, [node], null);
      assert newFirst == Head(mine + [node], null) && Holds(mine + [node], records);
      SetHeader(newFirst, node, size + 1, dataSize + NodeSize(node.metric), mine + [node], records, repr + {node});
    }

    method Push(metric: Metric)
      requires Valid()
      modifies this, repr`next
      ensures Valid() && old(repr) <= repr && fresh(repr - old(repr))
      ensures contents == old(contents) + [metric]
    {
      var node := new Node(metric);
      PushNode(node);
    }

    /** The walk shared by the store's lookups: the first node whose record satisfies `p` */
    method Find(p: Metric -> bool) returns (node: Node?, ghost i: nat)
      requires Valid()
      ensures i == FirstIndex(contents, p)
      ensures node == if FirstIndex(contents, p) < |nodes| then nodes[FirstIndex(contents, p)] else null
    {
      node, i := first, 0;
      ghost var rest := nodes;
      while node != null && !p(node.metric)
        invariant i <= |nodes| && rest == nodes[i..] && Chain(rest, null) && node == Head(rest, null)
        invariant FirstIndex(contents, p) == i + FirstIndex(contents[i..], p)
        decreases |rest|
      {
        assert contents[i..][1..] == contents[i + 1..];
        node, rest, i := node.next, rest[1..], i + 1;
      }
    }

    /** node->metric = metric, for a node of this list and a record of the same size */
    method SetMetric(node: Node, metric: Metric, ghost i: nat)
      requires Valid() && i < |nodes| && node == nodes[i] && NodeSize(metric) == NodeSize(contents[i])
      modifies this`contents, node`metric
      ensures Valid() && contents == old(contents)[i := metric]
    {
      DataSizeUpdate(contents, i, metric);
      forall j | 0 <= j < |nodes| && j != i
        ensures nodes[j] != node
      {
        if j < i { DistinctAt(nodes, j, i); } else { DistinctAt(nodes, i, j); }
      }
      node.metric := metric;
      contents := contents[i := metric];
    }

    method Pop() returns (metric: Option<Metric>)
      requires Valid()
      modifies this
      ensures Valid() && repr == old(repr)
      ensures old(nodes) == [] ==> metric == None && nodes == [] && contents == []
      ensures old(nodes) != [] ==> nodes == old(nodes)[1..] && metric == Some(old(contents)[0])
      ensures old(nodes) != [] ==> contents == old(contents)[1..]
    {
      if first == null {
        return None;
      }
      var node := first;
      var newLast := if node == last then null else last;
      SetHeader(node.next, newLast, size - 1, dataSize - NodeSize(node.metric), nodes[1..], contents[1..], repr);
      return Some(node.metric);
    }

    /** Puts a chain of nodes, given by its ends and its totals, behind this list's nodes. */
    method Append(chainFirst: Node?, chainLast: Node?, chainSize: nat, chainDataSize: nat,
                  ghost chain: seq<Node>, ghost records: seq<Metric>, ghost owned: set<Node>)
      requires Valid() && Distinct(chain) && Chain(chain, null) && Holds(chain, records)
      requires repr !! owned && forall n :: n in chain ==> n in owned
      requires chainFirst == Head(chain, null) && chainLast == Last(chain)
      requires chainSize == |chain| && chainDataSize == DataSize(records)
      modifies this, repr`next
      ensures Valid() && nodes == old(nodes) + chain && contents == old(contents) + records
      ensures repr == old(repr) + owned
    {
      hide Distinct, DataSize;
      ghost var mine, joined, all := nodes, nodes + chain, contents + records;
      var newFirst, newLast := first, last;
      if size > 0 && chainSize > 0 {
        assert last in mine;
        Relink(last, chainFirst, mine, null);
        newLast := chainLast;
      } else if chainSize > 0 {
        newFirst, newLast := chainFirst, chainLast;
      }
      assert Chain(joined, null) && Distinct(joined) by {
        assert Chain(mine, chainFirst) && Chain(chain, null);
        ChainConcat(mine, chain, null);
        DistinctConcat(mine, chain);
      }
      assert DataSize(all) == dataSize + chainDataSize by {
        DataSizeConcat(contents, records);
      }
      assert newFirst == Head(joined, null) && newLast == Last(joined) && Holds(joined, all);
      SetHeader(newFirst, newLast, size + chainSize, dataSize + chainDataSize, joined, all, repr + owned);
    }

    /** Moves every node of `tail` behind this list's nodes and leaves `tail` empty. */
    method Concat(tail: MetricList)
      requires Valid() && tail.Valid() && tail != this && repr !! tail.repr
      modifies this, repr`next, tail
      ensures Valid() && nodes == old(nodes) + old(tail.nodes)
      ensures contents == old(contents) + old(tail.contents)
      ensures tail.Valid() && tail.nodes == [] && tail.contents == []
      ensures repr == old(repr) + old(tail.repr) && tail.repr == {}
    {
      Append(tail.first, tail.last, tail.size, tail.dataSize, tail.nodes, tail.contents, tail.repr);
      tail.Init();
    }

    /** The list is the chain `kept` already walked over, holding `km`, then the chain `rest` ahead, holding `rm`. */
    ghost predicate Split(kept: seq<Node>, rest: seq<Node>, km: seq<Metric>, rm: seq<Metric>)
      reads this, kept, rest
    {
      && Distinct(kept) && Distinct(rest) && Disjoint(kept, rest)
      && Chain(kept, Head(rest, null)) && Chain(rest, null)
      && first == Head(kept, Head(rest, null))
      && last == (if rest == [] then Last(kept) else Last(rest))
      && Holds(kept, km) && Holds(rest, rm)
      && size == |kept| + |rest|
      && dataSize == DataSize(km) + DataSize(rm)
    }

    lemma SplitAdvance(kept: seq<Node>, rest: seq<Node>, km: seq<Metric>, rm: seq<Metric>)
      requires Split(kept, rest, km, rm) && rest != []
      ensures Split(kept + [rest[0]], rest[1..], km + [rm[0]], rm[1..])
    {
      assert Disjoint(kept, [rest[0]]);
      DistinctConcat(kept, [rest[0]]);
      DataSizeConcat(km, [rm[0]]);
      ChainConcat(kept, [rest[0]], Head(rest[1..], null));
    }

    /** Takes the first node ahead out of the list. */
    method Unlink(prev: Node?, node: Node,
                  ghost kept: seq<Node>, ghost rest: seq<Node>, ghost km: seq<Metric>, ghost rm: seq<Metric>)
      requires Split(kept, rest, km, rm) && rest != [] && node == rest[0] && prev == Last(kept)
      modifies this, kept`next
      ensures Split(kept, rest[1..], km, rm[1..]) && repr == old(repr)
    {
      assert node in rest && node !in kept;
      if prev != null {
        assert prev in kept && kept[0] in kept;
        Relink(prev, node.next, kept, node);
      }
      assert Chain(kept, Head(rest[1..], null)) && Chain(rest, null);
      SetHeader(if node == first then node.next else first, if node == last then prev else last,
                size - 1, dataSize - NodeSize(node.metric), nodes, contents, repr);
    }

    /** The walk is over: what was kept is the list. */
    ghost method Settle(kept: seq<Node>, km: seq<Metric>)
      requires Split(kept, [], km, []) && Owns(kept)
      modifies this`nodes, this`contents
      ensures Valid() && nodes == kept && contents == km
    {
      nodes, contents := kept, km;
    }

    /** Unlinks, in one walk, every node whose record satisfies `drop`, and counts them. */
    method RemoveIf(drop: Metric -> bool) returns (n: nat)
      requires Valid()
      modifies this, repr`next
      ensures Valid() && repr == old(repr)
      ensures contents == Kept(old(contents), drop)
      ensures n == |old(contents)| - |contents|
    {
      n := 0;
      var prev: Node? := null;
      var node := first;
      ghost var kept: seq<Node>, rest := [], nodes;
      ghost var km: seq<Metric>, rm := [], contents;
      while node != null
        invariant Split(kept, rest, km, rm) && node == Head(rest, null) && prev == Last(kept)
        invariant repr == old(repr) && Owns(kept) && Owns(rest)
        invariant km + Kept(rm, drop) == Kept(old(contents), drop)
        invariant n + size == |old(contents)|
        decreases |rest|
      {
        var next := node.next;
        ghost var km' := if drop(rm[0]) then km else km + [rm[0]];
        assert km' + Kept(rm[1..], drop) == Kept(old(contents), drop) by {
          KeptStep(km, rm, drop);
        }
        if drop(node.metric) {
          Unlink(prev, node, kept, rest, km, rm);
          n := n + 1;
        } else {
          SplitAdvance(kept, rest, km, rm);
          prev, kept := node, kept + [rest[0]];
        }
        rest, km, rm := rest[1..], km', rm[1..];
        node := next;
      }
      Settle(kept, km);
    }

    /** This list holds the first n of these records, `source` the others. */
    ghost predicate Shares(source: MetricList, all: seq<Metric>, n: nat)
      reads this, repr, source, source.repr
    {
      && Valid() && source.Valid() && source != this && repr !! source.repr
      && n <= |all| && contents == all[..n] && source.contents == all[n..]
    }

    /** One record popped from `source` and pushed here, in a node of its own */
    method TakeFrom(source: MetricList, ghost all: seq<Metric>, ghost n: nat)
      requires Shares(source, all, n) && n < |all|
      modifies this, repr`next, source
      ensures Shares(source, all, n + 1) && source.repr == old(source.repr)
      ensures old(repr) <= repr && fresh(repr - old(repr))
    {
      PrefixStep(all, n);
      var metric := source.Pop();
      Push(metric.value);
    }

    /** Takes records from `source` until it has none left or this list is big enough. */
    method FillFrom(source: MetricList, maxSize: nat)
      requires Valid() && contents == [] && repr == {} && source.Valid() && source != this
      modifies this, source
      ensures Valid() && fresh(repr) && source.Valid() && source.repr == old(source.repr)
      ensures var all := old(source.contents);
              var n := BatchLength(all, maxSize);
              contents == all[..n] && source.contents == all[n..]
      ensures source.contents != [] ==> NODE_BASE * size + NameBytes(contents) + StringBytes(contents) >= maxSize
    {
      hide Distinct, Chain, DataSize, BatchLength;
      ghost var all, n := source.contents, 0;
      while source.size > 0 && dataSize < maxSize
        invariant Shares(source, all, n) && source.repr == old(source.repr) && fresh(repr)
        invariant n > 0 ==> DataSize(all[..n - 1]) < maxSize
        decreases |all| - n
      {
        TakeFrom(source, all, n);
        n := n + 1;
      }
      assert n == BatchLength(all, maxSize) by {
        assert n == |all| || DataSize(all[..n]) >= maxSize;
        BatchIsShortest(all, maxSize, n);
      }
      SizesTell();
    }
  }
}
