/** What a counter emits over every run, whatever is sent, answered, evicted or flushed between its samples. */
module Emissions {
  import opened Metrics
  import opened Sequences
  import opened StoreSpec
  import opened AgentSpec
  import opened Counters
  import opened KeyRuns

  predicate IsPush(ev: Event) {
    ev.Pushed? || ev.Received?
  }

  predicate Every(segments: seq<seq<Metric>>, p: Metric -> bool) {
    forall i :: 0 <= i < |segments| ==> forall m :: m in segments[i] ==> p(m)
  }

  lemma EveryBefore(cfg: Config, a: Agent, ev: Event, segments: seq<seq<Metric>>, k: Key, p: Metric -> bool)
    requires segments != [] && Every(NextSegments(cfg, a, ev, segments, k), p)
    ensures Every(segments, p) && forall m :: m in Longer(Current(segments), a, ev, k) ==> p(m)
  {
    hide Drops, Pushes;
    var after, h := NextSegments(cfg, a, ev, segments, k), Current(segments);
    var n := |segments| - 1;
    if Ends(cfg, a, ev, h) {
      DropsPushNothing(cfg, a, ev, h, k);
    }
    assert after[n] == Longer(h, a, ev, k);
    forall i, m | 0 <= i < |segments| && m in segments[i]
      ensures p(m)
    {
      assert i < n ==> after[i] == segments[i];
      assert i == n ==> m in Longer(h, a, ev, k);
    }
  }

  /** What an event pushes behind the segment under way, seen by the store as a list of pushes */
  lemma EventPushes(a: Agent, ev: Event, h: seq<Metric>, k: Key) returns (s: Store)
    requires IsPush(ev) && OfKey(a.store.delta, k) == Latest(h) && GoodSamples(Longer(h, a, ev, k))
    ensures Regular(s, Pushes(a, ev), k) && HistoryOf(s, Pushes(a, ev), k) == Latest(h) + OfKey(Pushes(a, ev), k)
    ensures s.current == a.store.current
    ensures forall cfg :: Step(cfg, a, ev).store == Lpush(s, Pushes(a, ev)).store
    ensures forall m :: m in HistoryOf(s, Pushes(a, ev), k) ==> m in Longer(h, a, ev, k)
  {
    hide Lpush, Allocated, GoodSamples, Regular;
    var ms := MetricsOf(ev);
    s := Receiving(a, ms);
    PushIsRegular(s, Pushes(a, ev), h, k);
  }

  /** Where a steady run stands before its last event */
  lemma SteadyEvent(cfg: Config, a: Agent, evs: seq<Event>, k: Key)
    requires evs != [] && Steady(cfg, a, evs, k)
    ensures var n := |evs| - 1; var h, b := Current(Segments(cfg, a, evs[..n], k)), Run(cfg, a, evs[..n]);
            && Steady(cfg, a, evs[..n], k)
            && OfKey(b.store.delta, k) == Latest(h) && GoodSamples(Longer(h, b, evs[n], k))
  {
    hide GoodSamples, Run, Drops, Pushes;
    var n := |evs| - 1;
    GoodBefore(cfg, Run(cfg, a, evs[..n]), evs[n], Segments(cfg, a, evs[..n], k), k);
    RunKeepsLatest(cfg, a, evs[..n], k);
  }

  // ---------- Integer counters ----------

  /** By how much the pushes of an event raise the sum of a key's integers in `current` */
  function Emission(cfg: Config, a: Agent, ev: Event, k: Key): int {
    if IsPush(ev) then IntSum(Step(cfg, a, ev).store.current, k) - IntSum(a.store.current, k) else 0
  }

  /** ... and those of a run, whatever its other events take out of `current` */
  function Emitted(cfg: Config, a: Agent, evs: seq<Event>, k: Key): int {
    if evs == [] then 0
    else
      var n := |evs| - 1;
      Emitted(cfg, a, evs[..n], k) + Emission(cfg, Run(cfg, a, evs[..n]), evs[n], k)
  }

  /** What the samples of all segments rose by */
  function AllIncrements(segments: seq<seq<Metric>>): nat {
    if segments == [] then 0 else AllIncrements(segments[..|segments| - 1]) + Increments(segments[|segments| - 1])
  }

  lemma {:induction false} IncrementsSplit(h: seq<Metric>, more: seq<Metric>)
    ensures Increments(h + more) == Increments(h) + Increments(Latest(h) + more)
  {
    if |h| < 2 {
      assert Latest(h) + more == h + more;
    } else {
      assert (h + more)[1..] == h[1..] + more && Latest(h[1..]) == Latest(h);
      IncrementsSplit(h[1..], more);
    }
  }

  lemma NextIncrements(cfg: Config, a: Agent, ev: Event, segments: seq<seq<Metric>>, k: Key)
    requires segments != []
    ensures AllIncrements(NextSegments(cfg, a, ev, segments, k))
         == AllIncrements(segments) + Increments(Latest(Current(segments)) + OfKey(Pushes(a, ev), k))
  {
    hide Drops, Pushes;
    var n, h, more := |segments| - 1, Current(segments), OfKey(Pushes(a, ev), k);
    IncrementsSplit(h, more);
    if Ends(cfg, a, ev, h) {
      DropsPushNothing(cfg, a, ev, h, k);
      assert (segments + [[]])[..n + 1] == segments && h + more == h;
    } else {
      assert Extend(segments, more)[..n] == segments[..n];
    }
  }

  predicate IntegerDelta(m: Metric) {
    m.value.Integer? && !m.IsTimeDelta()
  }

  lemma EventCounts(cfg: Config, a: Agent, ev: Event, h: seq<Metric>, k: Key) returns (carries: nat)
    requires OfKey(a.store.delta, k) == Latest(h) && GoodSamples(Longer(h, a, ev, k))
    requires forall m :: m in Longer(h, a, ev, k) ==> IntegerDelta(m)
    ensures Emission(cfg, a, ev, k) + carries * TWO_64 == Increments(Latest(h) + OfKey(Pushes(a, ev), k))
    ensures (forall m :: m in Longer(h, a, ev, k) ==> Unaggregated(m)) ==> carries == 0
  {
    hide GoodSamples, Lpush, Step, Regular, HistoryOf;
    carries := 0;
    if IsPush(ev) {
      var s := EventPushes(a, ev, h, k);
      carries := CounterSum(s, Pushes(a, ev), k);
    }
  }

  /** In every steady run an integer counter emits, in differences, the sum of max(0, v[i+1] - v[i]) over the samples of
      each segment, up to carries out of 64 bits if it is aggregated. */
  lemma {:induction false} RunCounts(cfg: Config, a: Agent, evs: seq<Event>, k: Key) returns (carries: nat)
    requires Steady(cfg, a, evs, k) && Every(Segments(cfg, a, evs, k), IntegerDelta)
    ensures Emitted(cfg, a, evs, k) + carries * TWO_64 == AllIncrements(Segments(cfg, a, evs, k))
    ensures Every(Segments(cfg, a, evs, k), Unaggregated) ==> carries == 0
  {
    hide Steady, GoodSamples, Run, Every, Drops, Pushes;
    if evs == [] {
      carries := 0;
      assert AllIncrements([]) == 0 && [OfKey(a.store.delta, k)][..0] == [];
      SteadyStart(cfg, a, k);
    } else {
      var n := |evs| - 1;
      var b, segments := Run(cfg, a, evs[..n]), Segments(cfg, a, evs[..n], k);
      SteadyEvent(cfg, a, evs, k);
      EveryBefore(cfg, b, evs[n], segments, k, IntegerDelta);
      if Every(Segments(cfg, a, evs, k), Unaggregated) {
        EveryBefore(cfg, b, evs[n], segments, k, Unaggregated);
      }
      var before := RunCounts(cfg, a, evs[..n], k);
      var more := EventCounts(cfg, b, evs[n], Current(segments), k);
      NextIncrements(cfg, b, evs[n], segments, k);
      carries := before + more;
      assert carries * TWO_64 == before * TWO_64 + more * TWO_64;
    }
  }

  lemma SteadyStart(cfg: Config, a: Agent, k: Key)
    requires Steady(cfg, a, [], k)
    ensures |OfKey(a.store.delta, k)| <= 1
  {}

  predicate Rising(h: seq<Metric>) {
    Integers(h) && forall i :: 0 < i < |h| ==> h[i - 1].value.n <= h[i].value.n
  }

  /** Without a drop, a counter that never decreases emits its last sample less its first. */
  lemma RunTelescopes(cfg: Config, a: Agent, evs: seq<Event>, k: Key, h: seq<Metric>) returns (carries: nat)
    requires Steady(cfg, a, evs, k) && Segments(cfg, a, evs, k) == [h]
    requires h != [] && Rising(h) && PlainDeltas(h)
    ensures h[0] in h && h[|h| - 1] in h
    ensures Emitted(cfg, a, evs, k) + carries * TWO_64 == h[|h| - 1].value.n - h[0].value.n
    ensures NotAggregated(h) ==> carries == 0
  {
    hide Steady, Segments, Emitted;
    carries := RunCounts(cfg, a, evs, k);
    assert [h][..0] == [] && AllIncrements([h]) == AllIncrements([]) + Increments(h);
    IncrementsOfRising(h);
  }

  // ---------- Float counters ----------

  function FloatEmission(cfg: Config, a: Agent, ev: Event, k: Key): real {
    if IsPush(ev) then FloatSum(Step(cfg, a, ev).store.current, k) - FloatSum(a.store.current, k) else 0.0
  }

  function FloatEmitted(cfg: Config, a: Agent, evs: seq<Event>, k: Key): real {
    if evs == [] then 0.0
    else
      var n := |evs| - 1;
      FloatEmitted(cfg, a, evs[..n], k) + FloatEmission(cfg, Run(cfg, a, evs[..n]), evs[n], k)
  }

  /** The last sample of every segment less its first */
  function AllChanges(segments: seq<seq<Metric>>): real {
    if segments == [] then 0.0 else AllChanges(segments[..|segments| - 1]) + Change(segments[|segments| - 1])
  }

  lemma NextChanges(cfg: Config, a: Agent, ev: Event, segments: seq<seq<Metric>>, k: Key)
    requires segments != [] && forall m :: m in Longer(Current(segments), a, ev, k) ==> FloatDelta(m)
    ensures AllChanges(NextSegments(cfg, a, ev, segments, k))
         == AllChanges(segments) + Change(Latest(Current(segments)) + OfKey(Pushes(a, ev), k))
  {
    hide Drops, Pushes;
    var n, h, more := |segments| - 1, Current(segments), OfKey(Pushes(a, ev), k);
    if Ends(cfg, a, ev, h) {
      DropsPushNothing(cfg, a, ev, h, k);
      assert (segments + [[]])[..n + 1] == segments && more == [];
    } else {
      assert Extend(segments, more)[..n] == segments[..n] && Longer(h, a, ev, k) == h + more;
      ChangeSplit(h, more);
    }
  }

  lemma ChangeSplit(h: seq<Metric>, more: seq<Metric>)
    requires Floats(h + more)
    ensures Change(h + more) == Change(h) + Change(Latest(h) + more)
  {
    if h != [] {
      var all := h + more;
      assert all[0] in all && all[|h| - 1] in all && all[|all| - 1] in all;
    } else {
      assert h + more == more && Latest(h) + more == more;
    }
  }

  predicate FloatDelta(m: Metric) {
    m.value.Float? && !m.IsTimeDelta()
  }

  lemma EventChanges(cfg: Config, a: Agent, ev: Event, h: seq<Metric>, k: Key)
    requires OfKey(a.store.delta, k) == Latest(h) && GoodSamples(Longer(h, a, ev, k))
    requires forall m :: m in Longer(h, a, ev, k) ==> FloatDelta(m)
    ensures FloatEmission(cfg, a, ev, k) == Change(Latest(h) + OfKey(Pushes(a, ev), k))
  {
    hide GoodSamples, Lpush, Step, Regular, HistoryOf;
    if IsPush(ev) {
      var s := EventPushes(a, ev, h, k);
      FloatsTelescope(s, Pushes(a, ev), k);
    }
  }

  /** In every steady run the differences a float counter emits, negative ones among them, telescope over each
      segment. */
  lemma {:induction false} RunChanges(cfg: Config, a: Agent, evs: seq<Event>, k: Key)
    requires Steady(cfg, a, evs, k) && Every(Segments(cfg, a, evs, k), FloatDelta)
    ensures FloatEmitted(cfg, a, evs, k) == AllChanges(Segments(cfg, a, evs, k))
  {
    hide Steady, GoodSamples, Run, Every, Drops, Pushes;
    if evs == [] {
      assert AllChanges([]) == 0.0 && [OfKey(a.store.delta, k)][..0] == [];
      SteadyStart(cfg, a, k);
    } else {
      var n := |evs| - 1;
      var b, segments := Run(cfg, a, evs[..n]), Segments(cfg, a, evs[..n], k);
      SteadyEvent(cfg, a, evs, k);
      EveryBefore(cfg, b, evs[n], segments, k, FloatDelta);
      RunChanges(cfg, a, evs[..n], k);
      EventChanges(cfg, b, evs[n], Current(segments), k);
      NextChanges(cfg, b, evs[n], segments, k);
    }
  }

  // ---------- The records themselves ----------

  /** What pushing put behind what was there */
  function Behind(before: seq<Metric>, after: seq<Metric>): seq<Metric> {
    if |before| <= |after| then after[|before|..] else []
  }

  /** The records of a key that the pushes of an event add to `current` */
  function EmittedBy(cfg: Config, a: Agent, ev: Event, k: Key): seq<Metric> {
    if IsPush(ev) then Behind(OfKey(a.store.current, k), OfKey(Step(cfg, a, ev).store.current, k)) else []
  }

  function EmittedRecords(cfg: Config, a: Agent, evs: seq<Event>, k: Key): seq<Metric> {
    if evs == [] then []
    else
      var n := |evs| - 1;
      EmittedRecords(cfg, a, evs[..n], k) + EmittedBy(cfg, Run(cfg, a, evs[..n]), evs[n], k)
  }

  predicate Unaggregated(m: Metric) {
    !m.IsAggregate()
  }

  lemma EventRecords(cfg: Config, a: Agent, ev: Event, h: seq<Metric>, k: Key)
    requires OfKey(a.store.delta, k) == Latest(h) && GoodSamples(Longer(h, a, ev, k))
    requires forall m :: m in Longer(h, a, ev, k) ==> Unaggregated(m)
    ensures AreDifferences(Latest(h) + OfKey(Pushes(a, ev), k), EmittedBy(cfg, a, ev, k))
    ensures IsPush(ev) ==>
              OfKey(Step(cfg, a, ev).store.current, k) == OfKey(a.store.current, k) + EmittedBy(cfg, a, ev, k)
  {
    hide GoodSamples, Lpush, Step, Regular, HistoryOf;
    if IsPush(ev) {
      var s := EventPushes(a, ev, h, k);
      var d := CounterRecords(s, Pushes(a, ev), k);
      assert Behind(OfKey(a.store.current, k), OfKey(a.store.current, k) + d) == d;
    }
  }

  lemma DifferencesJoin(h: seq<Metric>, more: seq<Metric>, d: seq<Metric>, e: seq<Metric>)
    requires AreDifferences(h, d) && AreDifferences(Latest(h) + more, e)
    ensures AreDifferences(h + more, d + e)
  {
    forall i | 0 <= i < |d + e|
      ensures IsDifference((h + more)[i], (h + more)[i + 1], (d + e)[i])
    {
      if i < |d| {
        assert IsDifference(h[i], h[i + 1], d[i]);
      } else {
        assert IsDifference((Latest(h) + more)[i - |d|], (Latest(h) + more)[i - |d| + 1], e[i - |d|]);
      }
    }
  }

  /** These are the differences of these segments, one sequence a segment. */
  predicate DifferencesOf(segments: seq<seq<Metric>>, ds: seq<seq<Metric>>) {
    |ds| == |segments| && forall i :: 0 <= i < |ds| ==> AreDifferences(segments[i], ds[i])
  }

  lemma DifferencesAppend(segments: seq<seq<Metric>>, ds: seq<seq<Metric>>, h: seq<Metric>, d: seq<Metric>)
    requires DifferencesOf(segments, ds) && AreDifferences(h, d)
    ensures DifferencesOf(segments + [h], ds + [d]) && Flatten(ds + [d]) == Flatten(ds) + d
  {
    hide AreDifferences;
    FlattenAppend(ds, d);
  }

  lemma DifferencesFront(segments: seq<seq<Metric>>, ds: seq<seq<Metric>>)
    requires DifferencesOf(segments, ds) && ds != []
    ensures var n := |segments| - 1;
            && DifferencesOf(segments[..n], ds[..n]) && AreDifferences(segments[n], ds[n])
            && Flatten(ds) == Flatten(ds[..n]) + ds[n]
  {
    hide AreDifferences;
  }

  lemma NextDifferences(cfg: Config, a: Agent, ev: Event, segments: seq<seq<Metric>>, k: Key,
                        before: seq<seq<Metric>>, e: seq<Metric>) returns (ds: seq<seq<Metric>>)
    requires segments != [] && DifferencesOf(segments, before)
    requires AreDifferences(Latest(Current(segments)) + OfKey(Pushes(a, ev), k), e)
    ensures DifferencesOf(NextSegments(cfg, a, ev, segments, k), ds) && Flatten(ds) == Flatten(before) + e
  {
    hide Drops, Pushes, IsDifference, Flatten;
    var n, h, more := |segments| - 1, Current(segments), OfKey(Pushes(a, ev), k);
    if Ends(cfg, a, ev, h) {
      DropsPushNothing(cfg, a, ev, h, k);
      assert more == [] && e == [];
      ds := before + [[]];
      DifferencesAppend(segments, before, [], []);
    } else {
      DifferencesFront(segments, before);
      DifferencesJoin(h, more, before[n], e);
      ds := before[..n] + [before[n] + e];
      DifferencesAppend(segments[..n], before[..n], h + more, before[n] + e);
      assert Flatten(before[..n]) + (before[n] + e) == Flatten(before[..n]) + before[n] + e;
    }
  }

  /** In every steady run a counter that is not aggregated emits, in order, one record per pair of consecutive samples
      of each segment: their difference. */
  lemma {:induction false} RunRecords(cfg: Config, a: Agent, evs: seq<Event>, k: Key) returns (ds: seq<seq<Metric>>)
    requires Steady(cfg, a, evs, k) && Every(Segments(cfg, a, evs, k), Unaggregated)
    ensures DifferencesOf(Segments(cfg, a, evs, k), ds) && Flatten(ds) == EmittedRecords(cfg, a, evs, k)
  {
    hide Steady, GoodSamples, Run, Every, Drops, Pushes, IsDifference;
    if evs == [] {
      SteadyStart(cfg, a, k);
      ds := [[]];
      assert ds[..0] == [] && Flatten(ds) == [];
    } else {
      var n := |evs| - 1;
      var b, segments := Run(cfg, a, evs[..n]), Segments(cfg, a, evs[..n], k);
      SteadyEvent(cfg, a, evs, k);
      EveryBefore(cfg, b, evs[n], segments, k, Unaggregated);
      var before := RunRecords(cfg, a, evs[..n], k);
      EventRecords(cfg, b, evs[n], Current(segments), k);
      ds := NextDifferences(cfg, b, evs[n], segments, k, before, EmittedBy(cfg, b, evs[n], k));
    }
  }

  predicate TimeDelta(m: Metric) {
    m.IsTimeDelta() && !m.IsAggregate()
  }

  /** The rates a TIMEDELTA counter emits in a steady run are never negative, and weighted by their intervals they add
      up, segment by segment, to what its samples rose by. */
  lemma RunRates(cfg: Config, a: Agent, evs: seq<Event>, k: Key) returns (ds: seq<seq<Metric>>)
    requires Steady(cfg, a, evs, k) && Every(Segments(cfg, a, evs, k), TimeDelta)
    ensures |ds| == |Segments(cfg, a, evs, k)| && Flatten(ds) == EmittedRecords(cfg, a, evs, k)
    ensures forall i :: 0 <= i < |ds| ==>
              var h := Segments(cfg, a, evs, k)[i];
              if h == [] then ds[i] == []
              else
                && (forall r :: r in ds[i] ==> r.value.Float? && r.value.x >= 0.0)
                && |h| == |ds[i]| + 1 && RateSum(h, ds[i]) == Rises(h)
  {
    hide Segments, EmittedRecords, RateSum, Rises, IsDifference, Follows;
    ds := RunRecords(cfg, a, evs, k);
    var segments := Segments(cfg, a, evs, k);
    forall i | 0 <= i < |ds|
      ensures segments[i] == [] ==> ds[i] == []
      ensures segments[i] != [] ==>
                && (forall r :: r in ds[i] ==> r.value.Float? && r.value.x >= 0.0)
                && |segments[i]| == |ds[i]| + 1 && RateSum(segments[i], ds[i]) == Rises(segments[i])
    {
      assert AreDifferences(segments[i], ds[i]) && GoodSamples(segments[i]);
      if segments[i] != [] {
        RatesAddUp(segments[i], ds[i]);
      }
    }
  }

  // ---------- Segments and pushes ----------

  /** The same metric, whatever record holds it */
  predicate SameMetric(a: Metric, b: Metric) {
    a.(rec := 0) == b.(rec := 0)
  }

  predicate SameMetrics(a: seq<Metric>, b: seq<Metric>) {
    |a| == |b| && forall i :: 0 <= i < |a| ==> SameMetric(a[i], b[i])
  }

  lemma {:induction false} AllocatedSame(next: nat, ms: seq<Metric>, k: Key)
    ensures SameMetrics(OfKey(Allocated(next, ms), k), OfKey(ms, k))
    decreases |ms|
  {
    if ms != [] {
      var m, rest := ms[0].(rec := next), Allocated(next + 1, ms[1..]);
      AllocatedSame(next + 1, ms[1..], k);
      assert Allocated(next, ms) == [m] + rest && ([m] + rest)[1..] == rest;
      assert OfKey([m] + rest, k) == if m.Key() == k then [m] + OfKey(rest, k) else OfKey(rest, k);
    }
  }

  /** In every run the segments of a key are, one after the other, all its samples pushed. */
  lemma {:induction false} SegmentsPartition(cfg: Config, now: Timeval, evs: seq<Event>, k: Key)
    ensures SameMetrics(Flatten(Segments(cfg, Start(now), evs, k)), OfKey(PushedBy(evs), k))
  {
    var a := Start(now);
    if evs == [] {
      assert [OfKey(a.store.delta, k)][..0] == [] && Flatten<Metric>([]) == [];
    } else {
      hide Run, NextSegments, Allocated, Flatten, OfKey, MetricsOf;
      var n := |evs| - 1;
      var b, segments := Run(cfg, a, evs[..n]), Segments(cfg, a, evs[..n], k);
      SegmentsPartition(cfg, now, evs[..n], k);
      var ms := MetricsOf(evs[n]);
      OfKeyConcat(PushedBy(evs[..n]), ms, k);
      AllocatedSame(b.store.next, ms, k);
      NextPartition(cfg, b, evs[n], segments, k);
    }
  }

  lemma NextPartition(cfg: Config, a: Agent, ev: Event, segments: seq<seq<Metric>>, k: Key)
    requires segments != []
    ensures Flatten(NextSegments(cfg, a, ev, segments, k)) == Flatten(segments) + OfKey(Pushes(a, ev), k)
  {
    hide Drops, Pushes;
    var n, h, more := |segments| - 1, Current(segments), OfKey(Pushes(a, ev), k);
    if Ends(cfg, a, ev, h) {
      DropsPushNothing(cfg, a, ev, h, k);
      assert more == [];
      FlattenAppend(segments, []);
    } else {
      FlattenAppend(segments[..n], h + more);
      FlattenAppend(segments[..n], h);
      assert segments == segments[..n] + [h];
    }
  }

  lemma SameGood(a: seq<Metric>, b: seq<Metric>)
    requires SameMetrics(a, b) && GoodSamples(b)
    ensures GoodSamples(a)
  {
    forall i | 0 < i < |a|
      ensures Follows(a[i - 1], a[i])
    {
      assert SameMetric(a[i - 1], b[i - 1]) && SameMetric(a[i], b[i]) && Follows(b[i - 1], b[i]);
    }
    forall m | m in a
      ensures m.IsDelta()
    {
      var i :| 0 <= i < |a| && a[i] == m;
      assert SameMetric(a[i], b[i]) && b[i] in b;
    }
  }

  /** A run whose samples of a key all follow one another is steady for it, and what holds of every sample pushed,
      whatever record holds it, holds throughout the segments. */
  lemma PushedSteady(cfg: Config, now: Timeval, evs: seq<Event>, k: Key, p: Metric -> bool)
    requires GoodSamples(OfKey(PushedBy(evs), k))
    requires forall m, r: nat :: m in OfKey(PushedBy(evs), k) ==> p(m.(rec := r))
    ensures Steady(cfg, Start(now), evs, k) && Every(Segments(cfg, Start(now), evs, k), p)
  {
    hide GoodSamples, Segments, PushedBy;
    var segments, pushed := Segments(cfg, Start(now), evs, k), OfKey(PushedBy(evs), k);
    var all := Flatten(segments);
    SegmentsPartition(cfg, now, evs, k);
    SameGood(all, pushed);
    forall i | 0 <= i < |segments|
      ensures GoodSamples(segments[i])
      ensures forall m :: m in segments[i] ==> p(m)
    {
      var offset := FlattenPart(segments, i);
      GoodPart(all, offset, offset + |segments[i]|);
      forall j | 0 <= j < |segments[i]|
        ensures p(segments[i][j])
      {
        assert segments[i][j] == all[offset + j] && SameMetric(all[offset + j], pushed[offset + j]);
        assert all[offset + j] == pushed[offset + j].(rec := all[offset + j].rec);
      }
    }
  }

  /** So, from the start of the agent, an integer DELTA counter whose samples follow one another emits the sum of its
      non-negative increments over the segments between drops. */
  lemma CounterEmits(cfg: Config, now: Timeval, evs: seq<Event>, k: Key) returns (carries: nat)
    requires var pushed := OfKey(PushedBy(evs), k); GoodSamples(pushed) && Integers(pushed) && PlainDeltas(pushed)
    ensures Emitted(cfg, Start(now), evs, k) + carries * TWO_64 == AllIncrements(Segments(cfg, Start(now), evs, k))
    ensures NotAggregated(OfKey(PushedBy(evs), k)) ==> carries == 0
    ensures SameMetrics(Flatten(Segments(cfg, Start(now), evs, k)), OfKey(PushedBy(evs), k))
  {
    hide GoodSamples, Segments, PushedBy, Emitted, Steady;
    SegmentsPartition(cfg, now, evs, k);
    PushedSteady(cfg, now, evs, k, IntegerDelta);
    if NotAggregated(OfKey(PushedBy(evs), k)) {
      PushedSteady(cfg, now, evs, k, Unaggregated);
    }
    carries := RunCounts(cfg, Start(now), evs, k);
  }
}
