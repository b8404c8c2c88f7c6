/** What the metric store computes, as functions over three sequences of records.

  Every record that leaves the store does so through one logged exit; the ledger is built on that log.
*/
module StoreSpec {
  import opened Metrics
  import opened MetricLists

  /** The ways a record stops being held by the agent */
  datatype Fate =
    | Merged      // added into a record already in `current`
    | Superseded  // replaced in `delta` by a newer sample
    | Refused     // push returned -1
    | Evicted
    | Flushed
    | Delivered   // the server answered 200
    | Rejected    // the server answered 4xx
    | Dropped     // any other answer below 500

  datatype Exit = Exit(fate: Fate, rec: nat)

  function ExitsOf(fate: Fate, ms: seq<Metric>): seq<Exit> {
    if ms == [] then [] else [Exit(fate, ms[0].rec)] + ExitsOf(fate, ms[1..])
  }

  /** `next` is the identity the next allocated record will get. */
  datatype Store = Store(current: seq<Metric>, delta: seq<Metric>, cache: seq<Metric>, next: nat)

  datatype Outcome = Outcome(store: Store, ok: bool, exits: seq<Exit>)

  // ---------- Pushing ----------

  predicate IsCached(metric: Metric, cached: Metric) {
    metric.Key() == cached.Key() && TimeCmp(metric.clock, cached.clock) != 0
  }

  function CachedBy(metric: Metric): Metric -> bool {
    (cached: Metric) => IsCached(metric, cached)
  }

  function Absorbs(metric: Metric): Metric -> bool {
    (held: Metric) => held.Key() == metric.Key() && Sum(held.value, metric.value).Some?
  }

  /** What a DELTA push does to the samples, and the difference it computes */
  datatype Sampled = First | Unusable | Next(index: nat, difference: Metric)

  function Sample(delta: seq<Metric>, metric: Metric, rec: nat): (r: Sampled)
    ensures r.Next? ==> r.index < |delta| && IsCached(metric, delta[r.index]) && !r.difference.IsDelta()
  {
    var i := FirstIndex(delta, CachedBy(metric));
    if i == |delta| then First
    else match ComputeDelta(delta[i], metric, rec)
      case None => Unusable
      case Some(d) => Next(i, d)
  }

  function PushDelta(s: Store, metric: Metric): Outcome
    decreases true, 0
  {
    match Sample(s.delta, metric, s.next)
    case First => Outcome(s.(delta := s.delta + [metric]), true, [])
    case Unusable => Outcome(s, false, [Exit(Refused, metric.rec)])
    case Next(i, d) =>
      var o := Push(s.(delta := s.delta[i := metric], next := s.next + 1), d);
      o.(exits := [Exit(Superseded, s.delta[i].rec)] + o.exits)
  }

  function PushAggregate(s: Store, metric: Metric): Outcome {
    var i := FirstIndex(s.current, Absorbs(metric));
    if i == |s.current| then Outcome(s.(current := s.current + [metric]), true, [])
    else
      var held := s.current[i].(value := Sum(s.current[i].value, metric.value).value);
      Outcome(s.(current := s.current[i := held]), true, [Exit(Merged, metric.rec)])
  }

  function Push(s: Store, metric: Metric): Outcome
    decreases metric.IsDelta(), 1
  {
    if metric.IsDelta() then PushDelta(s, metric)
    else if metric.IsAggregate() then PushAggregate(s, metric)
    else Outcome(s.(current := s.current + [metric]), true, [])
  }

  function Lpush(s: Store, ms: seq<Metric>): Outcome
    decreases |ms|
  {
    if ms == [] then Outcome(s, true, [])
    else
      var o := Push(s, ms[0]);
      var rest := Lpush(o.store, ms[1..]);
      Outcome(rest.store, o.ok && rest.ok, o.exits + rest.exits)
  }

  // ---------- Evicting and flushing ----------

  /** How many of the oldest cached records must go for the rest to fit */
  function Overflow(cache: seq<Metric>, maxSize: nat): (n: nat)
    ensures n <= |cache|
  {
    if DataSize(cache) <= maxSize then 0 else 1 + Overflow(cache[1..], maxSize)
  }

  function EvictCache(s: Store, maxSize: nat): Outcome {
    var n := Overflow(s.cache, maxSize);
    Outcome(s.(cache := s.cache[n..]), true, ExitsOf(Evicted, s.cache[..n]))
  }

  function Stale(horizon: Timeval): Metric -> bool {
    (m: Metric) => TimeCmp(m.clock, horizon) < 0
  }

  function EvictDelta(s: Store, horizon: Timeval): Outcome {
    Outcome(s.(delta := Kept(s.delta, Stale(horizon))), true, ExitsOf(Evicted, Removed(s.delta, Stale(horizon))))
  }

  function FlushAll(s: Store): Outcome {
    Outcome(s.(current := [], delta := [], cache := []), true,
            ExitsOf(Flushed, s.current) + ExitsOf(Flushed, s.delta) + ExitsOf(Flushed, s.cache))
  }
}
