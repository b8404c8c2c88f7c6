/** Aggregates over every run: what the one record of a key holds. */
module Aggregates {
  import opened Metrics
  import opened StoreSpec
  import opened AgentSpec
  import opened Counters
  import opened KeyRuns
  import opened SampleMap
  import opened Effects
  import Backoffs

  function IntTotal(h: seq<Metric>): nat {
    if h == [] then 0
    else IntTotal(h[..|h| - 1]) + if h[|h| - 1].value.Integer? then h[|h| - 1].value.n else 0
  }

  function FloatTotal(h: seq<Metric>): real {
    if h == [] then 0.0
    else FloatTotal(h[..|h| - 1]) + if h[|h| - 1].value.Float? then h[|h| - 1].value.x else 0.0
  }

  /** The record is the first of these but for its value, which is the sum of them all. */
  predicate MergedFrom(r: Metric, h: seq<Metric>) {
    && h != [] && r.(value := h[0].value) == h[0]
    && match h[0].value
       case Integer(_) => r.value == Integer(IntTotal(h) % TWO_64)
       case Float(_) => r.value == Float(FloatTotal(h))
       case Text(_) => false
  }

  /** `current` holds for k the one record that these have been merged into, and none if there are none. */
  predicate HoldsMerged(current: seq<Metric>, h: seq<Metric>, k: Key) {
    if h == [] then OfKey(current, k) == [] else |OfKey(current, k)| == 1 && MergedFrom(OfKey(current, k)[0], h)
  }

  /** All these are aggregates of key k, of the numeric type of v. */
  predicate AllLike(h: seq<Metric>, k: Key, v: Value) {
    forall m :: m in h ==> m.Key() == k && m.IsAggregate() && !m.IsDelta() && SameType(m.value, v)
  }

  lemma MergeOne(m: Metric)
    requires !m.value.Text?
    ensures MergedFrom(m, [m])
  {
    assert [m][..0] == [];
    assert IntTotal([m]) == IntTotal([]) + if m.value.Integer? then m.value.n else 0;
    assert FloatTotal([m]) == FloatTotal([]) + if m.value.Float? then m.value.x else 0.0;
  }

  lemma ModStep(total: nat, n: nat)
    ensures (total % TWO_64 + n) % TWO_64 == (total + n) % TWO_64
  {
    var q := total / TWO_64;
    assert total % TWO_64 + n + q * TWO_64 == total + n;
    CarryTotal(total + n, total % TWO_64 + n, q);
  }

  lemma MergeNext(r: Metric, h: seq<Metric>, m: Metric, after: Metric)
    requires MergedFrom(r, h) && SameType(m.value, h[0].value) && after.(value := r.value) == r
    requires m.value.Integer? ==> r.value.Integer? && after.value == Integer((r.value.n + m.value.n) % TWO_64)
    requires m.value.Float? ==> r.value.Float? && after.value == Float(r.value.x + m.value.x)
    ensures MergedFrom(after, h + [m])
  {
    assert (h + [m])[..|h|] == h && (h + [m])[0] == h[0];
    ModStep(IntTotal(h), if m.value.Integer? then m.value.n else 0);
  }

  /** The first aggregate of key k pushed */
  lemma PushFirstOf(s: Store, m: Metric)
    requires OfKey(s.current, m.Key()) == [] && m.IsAggregate() && !m.IsDelta() && !m.value.Text?
    ensures HoldsMerged(Push(s, m).store.current, [m], m.Key())
  {
    hide Push, MergedFrom;
    var i := AggregatePush(s, m);
    OfKeyConcat(s.current, [m], m.Key());
    if i < |s.current| {
      OfKeyMember(s.current, m.Key(), s.current[i]);
    }
    assert OfKey([m], m.Key()) == [m];
    MergeOne(m);
  }

  /** The one record of a key is where a mergeable aggregate goes. */
  lemma HeldIsFound(current: seq<Metric>, held: Metric, m: Metric, i: nat)
    requires OfKey(current, m.Key()) == [held] && Combinable(held.value, m.value) && i <= |current|
    requires forall j :: 0 <= j < i ==> !Mergeable(current[j], m)
    requires i < |current| ==> current[i].Key() == m.Key()
    ensures i < |current| && current[i] == held
  {
    hide Combinable;
    OfKeyMember(current, m.Key(), held);
    var j :| 0 <= j < |current| && current[j] == held;
    assert Mergeable(current[j], m);
    OfKeyMember(current, m.Key(), current[i]);
  }

  /** A further one */
  lemma PushNextOf(s: Store, m: Metric, h: seq<Metric>, held: Metric)
    requires OfKey(s.current, m.Key()) == [held] && MergedFrom(held, h) && held.Key() == m.Key()
    requires m.IsAggregate() && !m.IsDelta() && !m.value.Text? && SameType(m.value, h[0].value)
    ensures HoldsMerged(Push(s, m).store.current, h + [m], m.Key())
  {
    var i := AggregatePush(s, m);
    var after := Push(s, m).store.current;
    HeldIsFound(s.current, held, m, i);
    hide Push, IntTotal, FloatTotal;
    assert after == s.current[i := after[i]] && after[i].Key() == held.Key();
    MergeNext(held, h, m, after[i]);
    hide MergedFrom;
    OfKeyUpdate(s.current, i, after[i], m.Key());
    SingleAt(OfKey(s.current[..i], m.Key()), held, OfKey(s.current[i + 1..], m.Key()));
    assert OfKey(after, m.Key()) == [] + [after[i]] + [];
  }

  lemma SingleAt(a: seq<Metric>, m: Metric, b: seq<Metric>)
    requires |a + [m] + b| == 1
    ensures a == [] && b == []
  {}

  /** One aggregate of key k pushed */
  lemma PushMerges(s: Store, m: Metric, h: seq<Metric>, k: Key, v: Value)
    requires HoldsMerged(s.current, h, k) && AllLike(h + [m], k, v) && !v.Text?
    ensures HoldsMerged(Push(s, m).store.current, h + [m], k)
  {
    hide Push, MergedFrom, OfKey;
    assert m in h + [m];
    if h == [] {
      PushFirstOf(s, m);
      assert h + [m] == [m];
    } else {
      var held := OfKey(s.current, k)[0];
      assert h[0] in h + [m] && held in OfKey(s.current, k) && OfKey(s.current, k) == [held];
      OfKeyMember(s.current, k, held);
      PushNextOf(s, m, h, held);
    }
  }

  /** Any list of pushes, other keys among them */
  lemma {:induction false} LpushMerges(s: Store, ms: seq<Metric>, h: seq<Metric>, k: Key, v: Value)
    requires HoldsMerged(s.current, h, k) && AllLike(h, k, v) && !v.Text? && AggregatesLike(ms, k, v)
    ensures HoldsMerged(Lpush(s, ms).store.current, h + OfKey(ms, k), k) && AllLike(h + OfKey(ms, k), k, v)
    decreases |ms|
  {
    hide Push, HoldsMerged;
    if ms == [] {
      assert h + [] == h;
    } else {
      var t, rest := Push(s, ms[0]).store, OfKey(ms[1..], k);
      assert ms[0] in ms && forall m :: m in ms[1..] ==> m in ms;
      if ms[0].Key() == k {
        PushMerges(s, ms[0], h, k, v);
        LpushMerges(t, ms[1..], h + [ms[0]], k, v);
        assert h + [ms[0]] + rest == h + ([ms[0]] + rest);
      } else {
        OtherKeepsMerged(s, ms[0], h, k);
        LpushMerges(t, ms[1..], h, k, v);
      }
    }
  }

  lemma OtherKeepsMerged(s: Store, m: Metric, h: seq<Metric>, k: Key)
    requires HoldsMerged(s.current, h, k) && m.Key() != k
    ensures HoldsMerged(Push(s, m).store.current, h, k)
  {
    hide Push, MergedFrom;
    PushOther(s, m, k);
  }

  // ---------- Runs ----------

  /** The event takes everything out of `current`: a send, by an update or a signal, or a flush, by a signal
      or backoff. */
  predicate Empties(cfg: Config, a: Agent, ev: Event) {
    match ev
    case Sends(_) => true
    case Flushes => true
    case Updates(_, _, _) => Backoffs.Performs(cfg, a, ev)
    case Answered(_, _, _) => Backoffs.Rejects(a, ev) && a.backoffCount > 0
    case _ => false
  }

  /** The records of k pushed since `current` was last emptied */
  function Since(cfg: Config, a: Agent, evs: seq<Event>, k: Key): seq<Metric> {
    if evs == [] then []
    else
      var n := |evs| - 1;
      var b := Run(cfg, a, evs[..n]);
      if Empties(cfg, b, evs[n]) then [] else Since(cfg, a, evs[..n], k) + OfKey(Pushes(b, evs[n]), k)
  }

  lemma EventMerges(cfg: Config, a: Agent, ev: Event, h: seq<Metric>, k: Key, v: Value)
    requires HoldsMerged(a.store.current, h, k) && AllLike(h, k, v) && !v.Text? && AggregatesLike(MetricsOf(ev), k, v)
    ensures var since := if Empties(cfg, a, ev) then [] else h + OfKey(Pushes(a, ev), k);
            HoldsMerged(Step(cfg, a, ev).store.current, since, k) && AllLike(since, k, v)
  {
    hide HoldsMerged, Lpush, SendAll, Evict, Allocated, OfKey, AllLike;
    var records, more := Pushes(a, ev), OfKey(Pushes(a, ev), k);
    NoneMerged(k, v);
    if ev.Pushed? || ev.Received? {
      AllocatedLike(a.store.next, MetricsOf(ev), k, v);
      LpushMerges(a.store.(next := a.store.next + |MetricsOf(ev)|), records, h, k, v);
    } else {
      NonePushed(a, ev, k);
      assert h + [] == h;
      match ev
      case Sends(attempt) => SendEmptiesCurrent(cfg, a, attempt);
      case Updates(clock, now, attempt) => SendEmptiesCurrent(cfg, Evict(cfg, a.(lastUpdate := clock), now), attempt);
      case _ =>
    }
  }

  lemma NoneMerged(k: Key, v: Value)
    ensures HoldsMerged([], [], k) && AllLike([], k, v)
  {}

  lemma NonePushed(a: Agent, ev: Event, k: Key)
    requires !ev.Pushed? && !ev.Received?
    ensures OfKey(Pushes(a, ev), k) == []
  {}

  /** In every run in which a key is only pushed as an aggregate of one numeric type, `current` holds after every event
      one record of it if any was pushed since `current` was last emptied, and none otherwise: the first of those
      pushed, with its own clock, flags and identity, and the sum of all their values, modulo 2^64 for integers. */
  lemma {:induction false} RunMerges(cfg: Config, now: Timeval, evs: seq<Event>, k: Key, v: Value)
    requires !v.Text? && AggregatesLike(PushedBy(evs), k, v)
    ensures var since := Since(cfg, Start(now), evs, k);
            HoldsMerged(Run(cfg, Start(now), evs).store.current, since, k) && AllLike(since, k, v)
  {
    hide HoldsMerged, AllLike, Step, Empties, Pushes, OfKey, MetricsOf;
    if evs == [] {
      NoneMerged(k, v);
    } else {
      var n := |evs| - 1;
      var before, ms := PushedBy(evs[..n]), MetricsOf(evs[n]);
      assert forall m :: m in before || m in ms ==> m in before + ms;
      RunMerges(cfg, now, evs[..n], k, v);
      EventMerges(cfg, Run(cfg, Start(now), evs[..n]), evs[n], Since(cfg, Start(now), evs[..n], k), k, v);
    }
  }
}
