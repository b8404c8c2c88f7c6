/** What every run of the agent keeps and emits, key by key. */
module KeyRuns {
  import opened Metrics
  import opened MetricLists
  import opened StoreSpec
  import opened AgentSpec
  import opened Counters
  import Backoffs

  /** The metrics an event pushes */
  function MetricsOf(ev: Event): seq<Metric> {
    match ev
    case Pushed(m) => [m]
    case Received(ms) => ms
    case _ => []
  }

  /** ... and those a run pushes, in order */
  function PushedBy(evs: seq<Event>): seq<Metric> {
    if evs == [] then [] else PushedBy(evs[..|evs| - 1]) + MetricsOf(evs[|evs| - 1])
  }

  // ---------- Segments ----------

  /** The records that hold them */
  function Pushes(a: Agent, ev: Event): seq<Metric> {
    Allocated(a.store.next, MetricsOf(ev))
  }

  /** The event takes a stored sample out of `delta` without another one to replace it: a flush, a 4xx answer that is
      not the first, or an update that finds it stale. */
  predicate Drops(cfg: Config, a: Agent, ev: Event, sample: Metric) {
    match ev
    case Flushes => true
    case Answered(_, _, _) => Backoffs.Rejects(a, ev) && a.backoffCount > 0
    case Updates(_, now, _) =>
      Backoffs.Performs(cfg, a, ev) && Stale(now.(sec := now.sec - 3 * cfg.pollInterval))(sample)
    case _ => false
  }

  function Latest(h: seq<Metric>): seq<Metric> {
    if h == [] then [] else [h[|h| - 1]]
  }

  /** The segment under way */
  function Current(segments: seq<seq<Metric>>): seq<Metric>
    requires segments != []
  {
    segments[|segments| - 1]
  }

  function Extend(segments: seq<seq<Metric>>, more: seq<Metric>): (r: seq<seq<Metric>>)
    requires segments != []
    ensures r != []
  {
    segments[..|segments| - 1] + [Current(segments) + more]
  }

  /** One event drops the latest sample and so ends the segment under way, or pushes behind it. */
  predicate Ends(cfg: Config, a: Agent, ev: Event, h: seq<Metric>) {
    h != [] && Drops(cfg, a, ev, h[|h| - 1])
  }

  function NextSegments(cfg: Config, a: Agent, ev: Event, segments: seq<seq<Metric>>, k: Key): (r: seq<seq<Metric>>)
    requires segments != []
    ensures r != []
  {
    if Ends(cfg, a, ev, Current(segments)) then segments + [[]] else Extend(segments, OfKey(Pushes(a, ev), k))
  }

  /** The samples of a key in a run, those stored at its start included, cut wherever an event drops the latest one */
  function Segments(cfg: Config, a: Agent, evs: seq<Event>, k: Key): (r: seq<seq<Metric>>)
    ensures r != []
  {
    if evs == [] then [OfKey(a.store.delta, k)]
    else
      var n := |evs| - 1;
      NextSegments(cfg, Run(cfg, a, evs[..n]), evs[n], Segments(cfg, a, evs[..n], k), k)
  }

  /** The samples of k follow one another: DELTA metrics of one type and flags with rising clocks. */
  predicate GoodSamples(h: seq<Metric>) {
    History(h) && forall m :: m in h ==> m.IsDelta()
  }

  predicate All(segments: seq<seq<Metric>>, p: seq<Metric> -> bool) {
    forall i :: 0 <= i < |segments| ==> p(segments[i])
  }

  /** At most one sample of k is stored at the start, and the samples of every segment follow one another. */
  predicate Steady(cfg: Config, a: Agent, evs: seq<Event>, k: Key) {
    |OfKey(a.store.delta, k)| <= 1 && All(Segments(cfg, a, evs, k), GoodSamples)
  }

  lemma GoodPart(h: seq<Metric>, i: nat, j: nat)
    requires GoodSamples(h) && i <= j <= |h|
    ensures GoodSamples(h[i..j])
  {
    forall n | 0 < n < j - i
      ensures Follows(h[i..j][n - 1], h[i..j][n])
    {
      assert Follows(h[i + n - 1], h[i + n]);
    }
  }

  /** What an event pushes of k, behind the segment under way */
  function Longer(h: seq<Metric>, a: Agent, ev: Event, k: Key): seq<Metric> {
    h + OfKey(Pushes(a, ev), k)
  }

  /** If the segments are good after an event, they were before, and so is the one under way with what it pushes. */
  lemma GoodBefore(cfg: Config, a: Agent, ev: Event, segments: seq<seq<Metric>>, k: Key)
    requires segments != [] && All(NextSegments(cfg, a, ev, segments, k), GoodSamples)
    ensures All(segments, GoodSamples) && GoodSamples(Longer(Current(segments), a, ev, k))
  {
    hide GoodSamples, Drops;
    var after, h := NextSegments(cfg, a, ev, segments, k), Current(segments);
    var n := |segments| - 1;
    forall i | 0 <= i < n
      ensures GoodSamples(segments[i])
    {
      assert after[i] == segments[i];
    }
    if Ends(cfg, a, ev, h) {
      assert after[n] == h && Longer(h, a, ev, k) == h by {
        DropsPushNothing(cfg, a, ev, h, k);
      }
    } else {
      var longer := Longer(h, a, ev, k);
      assert after[n] == longer && longer[0..|h|] == h;
      GoodPart(longer, 0, |h|);
    }
  }

  lemma DropsPushNothing(cfg: Config, a: Agent, ev: Event, h: seq<Metric>, k: Key)
    requires Ends(cfg, a, ev, h)
    ensures Longer(h, a, ev, k) == h
  {}

  // ---------- The stored sample ----------

  lemma {:induction false} OfKeyKept(ms: seq<Metric>, drop: Metric -> bool, k: Key)
    ensures OfKey(Kept(ms, drop), k) == Kept(OfKey(ms, k), drop)
  {
    if ms != [] {
      OfKeyKept(ms[1..], drop, k);
    }
  }

  /** The store as a list of metrics comes in, and the records pushed to it */
  function Receiving(a: Agent, ms: seq<Metric>): Store {
    a.store.(next := a.store.next + |ms|)
  }

  /** Pushing samples behind a good segment is pushing a regular list. */
  lemma PushIsRegular(s: Store, records: seq<Metric>, h: seq<Metric>, k: Key)
    requires OfKey(s.delta, k) == Latest(h) && GoodSamples(h + OfKey(records, k))
    ensures Regular(s, records, k) && HistoryOf(s, records, k) == Latest(h) + OfKey(records, k)
  {
    var all := h + OfKey(records, k);
    var i := if h == [] then 0 else |h| - 1;
    GoodPart(all, i, |all|);
    assert all[i..|all|] == Latest(h) + OfKey(records, k);
  }

  lemma ReceiveKeepsLatest(a: Agent, ms: seq<Metric>, h: seq<Metric>, k: Key)
    requires OfKey(a.store.delta, k) == Latest(h) && GoodSamples(h + OfKey(Allocated(a.store.next, ms), k))
    ensures OfKey(Receive(a, ms).store.delta, k) == Latest(h + OfKey(Allocated(a.store.next, ms), k))
  {
    hide Lpush, Allocated, GoodSamples, Regular;
    var records := Allocated(a.store.next, ms);
    PushIsRegular(Receiving(a, ms), records, h, k);
    LatestSample(Receiving(a, ms), records, k);
  }

  lemma UpdateKeepsLatest(cfg: Config, a: Agent, clock: Timeval, now: Timeval, attempt: Attempt, h: seq<Metric>, k: Key)
    requires OfKey(a.store.delta, k) == Latest(h)
    ensures OfKey(Update(cfg, a, clock, now, attempt).store.delta, k)
         == if Ends(cfg, a, Updates(clock, now, attempt), h) then [] else Latest(h)
  {
    hide SendAll, TimeCmp;
    OfKeyKept(a.store.delta, Stale(now.(sec := now.sec - 3 * cfg.pollInterval)), k);
    SendEmptiesCurrent(cfg, Evict(cfg, a.(lastUpdate := clock), now), attempt);
  }

  lemma StepKeepsLatest(cfg: Config, a: Agent, ev: Event, h: seq<Metric>, k: Key)
    requires OfKey(a.store.delta, k) == Latest(h) && GoodSamples(Longer(h, a, ev, k))
    ensures OfKey(Step(cfg, a, ev).store.delta, k) == if Ends(cfg, a, ev, h) then [] else Latest(Longer(h, a, ev, k))
  {
    hide GoodSamples, Receive, SendAll, Update;
    match ev
    case Pushed(m) => ReceiveKeepsLatest(a, [m], h, k);
    case Received(ms) => ReceiveKeepsLatest(a, ms, h, k);
    case Updates(clock, now, attempt) => UpdateKeepsLatest(cfg, a, clock, now, attempt, h, k);
    case Ticks(_, _) =>
    case Sends(attempt) => SendEmptiesCurrent(cfg, a, attempt);
    case Flushes =>
    case Answered(_, _, _) =>
  }

  /** In every steady run `delta` holds for the key the latest sample of the segment under way and no other: it holds
      none exactly when no sample was pushed since the last one was dropped. */
  lemma {:induction false} RunKeepsLatest(cfg: Config, a: Agent, evs: seq<Event>, k: Key)
    requires Steady(cfg, a, evs, k)
    ensures OfKey(Run(cfg, a, evs).store.delta, k) == Latest(Current(Segments(cfg, a, evs, k)))
  {
    hide GoodSamples, Step, Drops, Pushes;
    if evs != [] {
      var n := |evs| - 1;
      var b, segments := Run(cfg, a, evs[..n]), Segments(cfg, a, evs[..n], k);
      GoodBefore(cfg, b, evs[n], segments, k);
      RunKeepsLatest(cfg, a, evs[..n], k);
      StepKeepsLatest(cfg, b, evs[n], Current(segments), k);
    }
  }

  // ---------- Aggregates ----------

  /** Metrics of key k are pure aggregates of the numeric type of v. */
  predicate AggregatesLike(ms: seq<Metric>, k: Key, v: Value) {
    forall m :: m in ms && m.Key() == k ==> m.IsAggregate() && !m.IsDelta() && SameType(m.value, v)
  }

  /** At most one record of k in `current`, of the type of v, and none in `delta` */
  predicate SingleRecord(s: Store, k: Key, v: Value) {
    && OfKey(s.delta, k) == []
    && |OfKey(s.current, k)| <= 1
    && (OfKey(s.current, k) != [] ==> SameType(OfKey(s.current, k)[0].value, v))
  }

  lemma AbsorbFound(current: seq<Metric>, m: Metric)
    requires OfKey(current, m.Key()) != [] && SameType(OfKey(current, m.Key())[0].value, m.value) && !m.value.Text?
    ensures FirstIndex(current, Absorbs(m)) < |current|
  {
    var held := OfKey(current, m.Key())[0];
    OfKeyMember(current, m.Key(), held);
    var j :| 0 <= j < |current| && current[j] == held;
    assert Absorbs(m)(current[j]);
  }

  lemma PushKeepsSingle(s: Store, m: Metric, k: Key, v: Value)
    requires SingleRecord(s, k, v) && !v.Text? && AggregatesLike([m], k, v)
    ensures SingleRecord(Push(s, m).store, k, v)
  {
    if m.Key() != k {
      PushOther(s, m, k);
    } else {
      assert m in [m];
      OfKeyConcat(s.current, [m], k);
      if OfKey(s.current, k) != [] {
        AbsorbFound(s.current, m);
      }
      var i := FirstIndex(s.current, Absorbs(m));
      if i < |s.current| {
        OfKeyUpdate(s.current, i, s.current[i].(value := Sum(s.current[i].value, m.value).value), k);
      }
    }
  }

  lemma {:induction false} LpushKeepsSingle(s: Store, ms: seq<Metric>, k: Key, v: Value)
    requires SingleRecord(s, k, v) && !v.Text? && AggregatesLike(ms, k, v)
    ensures SingleRecord(Lpush(s, ms).store, k, v)
    decreases |ms|
  {
    if ms != [] {
      assert AggregatesLike([ms[0]], k, v) && AggregatesLike(ms[1..], k, v);
      PushKeepsSingle(s, ms[0], k, v);
      LpushKeepsSingle(Push(s, ms[0]).store, ms[1..], k, v);
    }
  }

  lemma {:induction false} AllocatedLike(next: nat, ms: seq<Metric>, k: Key, v: Value)
    requires AggregatesLike(ms, k, v)
    ensures AggregatesLike(Allocated(next, ms), k, v)
    decreases |ms|
  {
    if ms != [] {
      assert ms[0] in ms && forall m :: m in ms[1..] ==> m in ms;
      AllocatedLike(next + 1, ms[1..], k, v);
    }
  }

  lemma SendEmptiesCurrent(cfg: Config, a: Agent, attempt: Attempt)
    ensures SendAll(cfg, a, attempt).store.current == []
    ensures SendAll(cfg, a, attempt).store.delta == a.store.delta
  {}

  lemma ReceiveKeepsSingle(a: Agent, ms: seq<Metric>, k: Key, v: Value)
    requires SingleRecord(a.store, k, v) && !v.Text? && AggregatesLike(ms, k, v)
    ensures SingleRecord(Receive(a, ms).store, k, v)
  {
    AllocatedLike(a.store.next, ms, k, v);
    LpushKeepsSingle(a.store.(next := a.store.next + |ms|), Allocated(a.store.next, ms), k, v);
  }

  lemma StepKeepsSingle(cfg: Config, a: Agent, ev: Event, k: Key, v: Value)
    requires SingleRecord(a.store, k, v) && !v.Text?
    requires ev.Pushed? ==> AggregatesLike([ev.metric], k, v)
    requires ev.Received? ==> AggregatesLike(ev.metrics, k, v)
    ensures SingleRecord(Step(cfg, a, ev).store, k, v)
  {
    match ev
    case Pushed(m) => ReceiveKeepsSingle(a, [m], k, v);
    case Received(ms) => ReceiveKeepsSingle(a, ms, k, v);
    case Updates(clock, now, attempt) =>
      OfKeyKept(a.store.delta, Stale(now.(sec := now.sec - 3 * cfg.pollInterval)), k);
      SendEmptiesCurrent(cfg, Evict(cfg, a.(lastUpdate := clock), now), attempt);
    case Ticks(_, _) =>
    case Sends(attempt) => SendEmptiesCurrent(cfg, a, attempt);
    case Flushes =>
    case Answered(_, _, _) =>
  }

  /** If every metric of k is an aggregate of one numeric type, `current` never holds two records of k:
      every event that moves records out of `current` leaves it empty. */
  lemma {:induction false} RunKeepsSingle(cfg: Config, start: Timeval, evs: seq<Event>, k: Key, v: Value)
    requires !v.Text? && AggregatesLike(PushedBy(evs), k, v)
    ensures SingleRecord(Run(cfg, Start(start), evs).store, k, v)
  {
    if evs != [] {
      var n := |evs| - 1;
      var before, ms := PushedBy(evs[..n]), MetricsOf(evs[n]);
      assert forall m :: m in before || m in ms ==> m in before + ms;
      RunKeepsSingle(cfg, start, evs[..n], k, v);
      StepKeepsSingle(cfg, Run(cfg, Start(start), evs[..n]), evs[n], k, v);
    }
  }
}
