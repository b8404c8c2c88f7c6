/** The metric store over its three linked lists, each operation proved against StoreSpec. */
module MetricStores {
  import opened Metrics
  import opened MetricLists
  import opened Sequences
  import Spec = StoreSpec

  /** What the search of `delta` tells about a DELTA push */
  lemma SampleAt(delta: seq<Metric>, metric: Metric, next: nat, i: nat)
    requires i == FirstIndex(delta, Spec.CachedBy(metric))
    ensures i == |delta| ==> Spec.Sample(delta, metric, next) == Spec.First
    ensures i < |delta| ==>
              && delta[i].clock != metric.clock
              && (match ComputeDelta(delta[i], metric, next)
                  case None => Spec.Sample(delta, metric, next) == Spec.Unusable
                  case Some(d) => Spec.Sample(delta, metric, next) == Spec.Next(i, d)
                                  && NodeSize(metric) == NodeSize(delta[i]))
  {}

  class MetricStore {
    const current: MetricList
    const delta: MetricList
    const cache: MetricList
    var next: nat // the identity of the next allocated record

    ghost var repr: set<Node> // the nodes of the three lists

    ghost function Lists(): set<MetricList> {
      {current, delta, cache}
    }

    ghost predicate Valid()
      reads this, Lists(), repr
    {
      && current.repr <= repr && delta.repr <= repr && cache.repr <= repr
      && current.Valid() && delta.Valid() && cache.Valid()
      && current != delta && current != cache && delta != cache
      && current.repr !! delta.repr && current.repr !! cache.repr && delta.repr !! cache.repr
    }

    ghost function State(): Spec.Store
      reads this, Lists()
    {
      Spec.Store(current.contents, delta.contents, cache.contents, next)
    }

    constructor ()
      ensures Valid() && fresh(Lists()) && repr == {}
      ensures State() == Spec.Store([], [], [], 0)
    {
      current := new MetricList();
      delta := new MetricList();
      cache := new MetricList();
      next, repr := 0, {};
    }

    method AppendCurrent(metric: Metric)
      requires Valid()
      modifies this`repr, current, repr
      ensures Valid() && old(repr) <= repr && fresh(repr - old(repr))
      ensures State() == old(State()).(current := old(current.contents) + [metric])
    {
      current.Push(metric);
      repr := repr + current.repr;
    }

    method AppendDelta(metric: Metric)
      requires Valid()
      modifies this`repr, delta, repr
      ensures Valid() && old(repr) <= repr && fresh(repr - old(repr))
      ensures State() == old(State()).(delta := old(delta.contents) + [metric])
    {
      delta.Push(metric);
      repr := repr + delta.repr;
    }

    /** node->metric = metric, for a node of `delta`; the difference computed beside it used up one record. */
    method ReplaceDelta(node: Node, metric: Metric, ghost i: nat)
      requires Valid() && i < |delta.nodes| && node == delta.nodes[i]
      requires NodeSize(metric) == NodeSize(delta.contents[i])
      modifies this`next, delta, repr
      ensures Valid() && State() == old(State()).(delta := old(delta.contents)[i := metric], next := old(next) + 1)
    {
      next := next + 1;
      delta.SetMetric(node, metric, i);
    }

    /** node->metric = metric, for a node of `current` */
    method ReplaceCurrent(node: Node, metric: Metric, ghost i: nat)
      requires Valid() && i < |current.nodes| && node == current.nodes[i]
      requires NodeSize(metric) == NodeSize(current.contents[i])
      modifies current, repr
      ensures Valid() && State() == old(State()).(current := old(current.contents)[i := metric])
    {
      current.SetMetric(node, metric, i);
    }

    method PushDelta(metric: Metric) returns (ok: bool)
      requires Valid()
      modifies this, Lists(), repr
      ensures Valid() && old(repr) <= repr && fresh(repr - old(repr))
      ensures var o := Spec.PushDelta(old(State()), metric); State() == o.store && ok == o.ok
      decreases true, 0
    {
      hide Spec.Push, Spec.Sample, Spec.CachedBy, FirstIndex, NodeSize, ComputeDelta, Distinct;
      ghost var before := State();
      var node, i := delta.Find(Spec.CachedBy(metric));
      SampleAt(delta.contents, metric, next, i);
      if node != null {
        var difference := ComputeDelta(node.metric, metric, next);
        if difference.None? {
          return false;
        }
        ReplaceDelta(node, metric, i);
        ghost var outcome, inner := Spec.PushDelta(before, metric), Spec.Push(State(), difference.value);
        assert outcome.store == inner.store && outcome.ok == inner.ok;
        ok := Push(difference.value);
        return ok;
      }
      AppendDelta(metric);
      return true;
    }

    method PushAggregate(metric: Metric) returns (ok: bool)
      requires Valid()
      modifies this, Lists(), repr
      ensures Valid() && old(repr) <= repr && fresh(repr - old(repr))
      ensures var o := Spec.PushAggregate(old(State()), metric); State() == o.store && ok == o.ok
    {
      var node, i := current.Find(Spec.Absorbs(metric));
      if node != null {
        var sum := Sum(node.metric.value, metric.value);
        ReplaceCurrent(node, node.metric.(value := sum.value), i);
        return true;
      }
      AppendCurrent(metric);
      return true;
    }

    method Push(metric: Metric) returns (ok: bool)
      requires Valid()
      modifies this, Lists(), repr
      ensures Valid() && old(repr) <= repr && fresh(repr - old(repr))
      ensures var o := Spec.Push(old(State()), metric); State() == o.store && ok == o.ok
      decreases metric.IsDelta(), 1
    {
      if metric.IsDelta() {
        ok := PushDelta(metric);
      } else if metric.IsAggregate() {
        ok := PushAggregate(metric);
      } else {
        AppendCurrent(metric);
        ok := true;
      }
    }

    /** One turn of Lpush's loop: pop the first record, push it */
    method PushFirst(metrics: MetricList) returns (ok: bool)
      requires Valid() && metrics.Valid() && metrics !in Lists() && metrics.repr !! repr && metrics.contents != []
      modifies this, Lists(), repr, metrics
      ensures Valid() && old(repr) <= repr && fresh(repr - old(repr))
      ensures metrics.Valid() && metrics.repr !! repr && metrics.contents == old(metrics.contents)[1..]
      ensures var o := Spec.Push(old(State()), old(metrics.contents)[0]); State() == o.store && ok == o.ok
    {
      var metric := metrics.Pop();
      ok := Push(metric.value);
    }

    /** Empties `metrics` into the store; fails when any of its records was refused. */
    method Lpush(metrics: MetricList) returns (ok: bool)
      requires Valid() && metrics.Valid() && metrics !in Lists() && metrics.repr !! repr
      modifies this, Lists(), repr, metrics
      ensures Valid() && old(repr) <= repr && fresh(repr - old(repr))
      ensures metrics.Valid() && metrics.contents == []
      ensures var o := Spec.Lpush(old(State()), old(metrics.contents)); State() == o.store && ok == o.ok
    {
      ok := true;
      ghost var whole := Spec.Lpush(State(), metrics.contents);
      while metrics.first != null
        invariant Valid() && metrics.Valid() && metrics.repr !! repr
        invariant old(repr) <= repr && fresh(repr - old(repr))
        invariant var o := Spec.Lpush(State(), metrics.contents); o.store == whole.store && (ok && o.ok) == whole.ok
        decreases |metrics.contents|
      {
        var accepted := PushFirst(metrics);
        ok := ok && accepted;
      }
    }

    method EvictCache(maxSize: nat) returns (n: nat)
      requires Valid()
      modifies cache
      ensures Valid()
      ensures State() == Spec.EvictCache(old(State()), maxSize).store
      ensures n == |old(cache.contents)| - |cache.contents|
      ensures NODE_BASE * |cache.contents| + NameBytes(cache.contents) + StringBytes(cache.contents) <= maxSize
    {
      n := 0;
      while cache.dataSize > maxSize
        invariant Valid() && cache.repr == old(cache.repr)
        invariant n <= |old(cache.contents)| && cache.contents == old(cache.contents)[n..]
        invariant Spec.Overflow(old(cache.contents), maxSize) == n + Spec.Overflow(cache.contents, maxSize)
        decreases |cache.contents|
      {
        assert cache.contents[1..] == old(cache.contents)[n + 1..];
        var dropped := cache.Pop();
        n := n + 1;
      }
      cache.SizesTell();
    }

    method EvictDelta(horizon: Timeval) returns (n: nat)
      requires Valid()
      modifies delta, repr
      ensures Valid()
      ensures State() == Spec.EvictDelta(old(State()), horizon).store
      ensures n == |old(delta.contents)| - |delta.contents|
    {
      n := delta.RemoveIf(Spec.Stale(horizon));
    }

    method Flush()
      requires Valid()
      modifies current
      ensures Valid() && State() == old(State()).(current := [])
    {
      current.Empty();
    }

    method FlushAll()
      requires Valid()
      modifies Lists()
      ensures Valid() && State() == Spec.FlushAll(old(State())).store
    {
      current.Empty();
      delta.Empty();
      cache.Empty();
    }

    method Cache()
      requires Valid()
      modifies current, cache, repr
      ensures Valid()
      ensures State() == old(State()).(cache := old(cache.contents) + old(current.contents), current := [])
    {
      cache.Concat(current);
    }

    /** Two concatenations keep the older, cached records in front. */
    method Uncache()
      requires Valid()
      modifies current, cache, repr
      ensures Valid()
      ensures State() == old(State()).(current := old(cache.contents) + old(current.contents), cache := [])
    {
      Cache();
      current.Concat(cache);
    }

    /** A new list takes records of `current` until it is big enough. */
    method TakeBatch(maxSize: nat) returns (batch: MetricList)
      requires Valid()
      modifies current
      ensures Valid() && batch.Valid() && fresh(batch) && fresh(batch.repr)
      ensures var all := old(current.contents); var n := BatchLength(all, maxSize);
              batch.contents == all[..n] && State() == old(State()).(current := all[n..])
    {
      batch := new MetricList();
      batch.FillFrom(current, maxSize);
    }

    /** The records of a batch go behind the cached ones, nodes and all. */
    method Recache(metrics: MetricList)
      requires Valid() && metrics.Valid() && metrics !in Lists() && metrics.repr !! repr
      modifies this`repr, cache, repr, metrics
      ensures Valid() && repr == old(repr) + old(metrics.repr)
      ensures State() == old(State()).(cache := old(cache.contents) + old(metrics.contents))
    {
      hide Distinct, Holds, DataSize;
      repr := repr + metrics.repr;
      cache.Concat(metrics);
    }
  }
}
