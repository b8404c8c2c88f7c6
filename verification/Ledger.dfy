/** Conservation: over every run, each record is in exactly one place. */
module Ledger {
  import opened Metrics
  import opened Numbers
  import opened MetricLists
  import opened StoreSpec
  import opened AgentSpec

  /** How often the record r occurs in a list */
  function Count(ms: seq<Metric>, r: nat): nat {
    if ms == [] then 0 else One(ms[0].rec == r) + Count(ms[1..], r)
  }

  function BatchCount(batches: seq<seq<Metric>>, r: nat): nat {
    if batches == [] then 0 else Count(batches[0], r) + BatchCount(batches[1..], r)
  }

  function ExitCount(exits: seq<Exit>, r: nat): nat {
    if exits == [] then 0 else One(exits[0].rec == r) + ExitCount(exits[1..], r)
  }

  function StoreCount(s: Store, r: nat): nat {
    Count(s.current, r) + Count(s.delta, r) + Count(s.cache, r)
  }

  /** Every place a record can be in: the three lists, the requests in flight, and the log of exits */
  function Places(a: Agent, r: nat): nat {
    StoreCount(a.store, r) + BatchCount(a.inFlight, r) + ExitCount(a.exits, r)
  }

  /** Each record ever allocated is in exactly one place, and no other record is anywhere. */
  ghost predicate Balanced(a: Agent) {
    forall r: nat :: Places(a, r) == One(r < a.store.next)
  }

  // ---------- Counting ----------

  lemma {:induction false} CountConcat(a: seq<Metric>, b: seq<Metric>, r: nat)
    ensures Count(a + b, r) == Count(a, r) + Count(b, r)
  {
    if a == [] {
      assert a + b == b;
    } else {
      assert (a + b)[1..] == a[1..] + b;
      CountConcat(a[1..], b, r);
    }
  }

  lemma CountSplit(ms: seq<Metric>, n: nat, r: nat)
    requires n <= |ms|
    ensures Count(ms, r) == Count(ms[..n], r) + Count(ms[n..], r)
  {
    assert ms == ms[..n] + ms[n..];
    CountConcat(ms[..n], ms[n..], r);
  }

  lemma {:induction false} CountUpdate(ms: seq<Metric>, i: nat, m: Metric, r: nat)
    requires i < |ms|
    ensures Count(ms[i := m], r) + One(ms[i].rec == r) == Count(ms, r) + One(m.rec == r)
  {
    if i > 0 {
      assert ms[i := m][1..] == ms[1..][i - 1 := m];
      CountUpdate(ms[1..], i - 1, m, r);
    } else {
      assert ms[i := m][1..] == ms[1..];
    }
  }

  lemma {:induction false} CountKept(ms: seq<Metric>, drop: Metric -> bool, r: nat)
    ensures Count(Kept(ms, drop), r) + Count(Removed(ms, drop), r) == Count(ms, r)
  {
    if ms != [] {
      CountKept(ms[1..], drop, r);
      CountConcat([ms[0]], Kept(ms[1..], drop), r);
      CountConcat([ms[0]], Removed(ms[1..], drop), r);
    }
  }

  lemma {:induction false} BatchCountConcat(a: seq<seq<Metric>>, b: seq<seq<Metric>>, r: nat)
    ensures BatchCount(a + b, r) == BatchCount(a, r) + BatchCount(b, r)
  {
    if a == [] {
      assert a + b == b;
    } else {
      assert (a + b)[1..] == a[1..] + b;
      BatchCountConcat(a[1..], b, r);
    }
  }

  lemma BatchCountRemove(batches: seq<seq<Metric>>, i: nat, r: nat)
    requires i < |batches|
    ensures BatchCount(batches, r) == BatchCount(batches[..i] + batches[i + 1..], r) + Count(batches[i], r)
  {
    assert batches == batches[..i] + batches[i..];
    BatchCountConcat(batches[..i], batches[i..], r);
    BatchCountConcat(batches[..i], batches[i + 1..], r);
  }

  lemma {:induction false} ExitCountConcat(a: seq<Exit>, b: seq<Exit>, r: nat)
    ensures ExitCount(a + b, r) == ExitCount(a, r) + ExitCount(b, r)
  {
    if a == [] {
      assert a + b == b;
    } else {
      assert (a + b)[1..] == a[1..] + b;
      ExitCountConcat(a[1..], b, r);
    }
  }

  lemma {:induction false} ExitCountOf(fate: Fate, ms: seq<Metric>, r: nat)
    ensures ExitCount(ExitsOf(fate, ms), r) == Count(ms, r)
  {
    if ms != [] {
      ExitCountOf(fate, ms[1..], r);
      ExitCountConcat([Exit(fate, ms[0].rec)], ExitsOf(fate, ms[1..]), r);
    }
  }

  lemma LogCounts(exits: seq<Exit>, fate: Fate, ms: seq<Metric>, r: nat)
    ensures ExitCount(exits + ExitsOf(fate, ms), r) == ExitCount(exits, r) + Count(ms, r)
  {
    ExitCountOf(fate, ms, r);
    ExitCountConcat(exits, ExitsOf(fate, ms), r);
  }

  lemma {:induction false} CountAllocated(next: nat, ms: seq<Metric>, r: nat)
    ensures |Allocated(next, ms)| == |ms|
    ensures Count(Allocated(next, ms), r) == One(next <= r < next + |ms|)
    decreases |ms|
  {
    if ms != [] {
      CountAllocated(next + 1, ms[1..], r);
      CountConcat([ms[0].(rec := next)], Allocated(next + 1, ms[1..]), r);
    }
  }

  // ---------- Each store operation ----------

  /** An operation given `given` copies of the record r accounts for them and for the records it allocated. */
  predicate Accounts(before: Store, given: nat, o: Outcome, r: nat) {
    && before.next <= o.store.next
    && StoreCount(o.store, r) + ExitCount(o.exits, r)
       == StoreCount(before, r) + given + One(before.next <= r < o.store.next)
  }

  lemma {:induction false} PushAccounts(s: Store, metric: Metric, r: nat)
    ensures Accounts(s, One(metric.rec == r), Push(s, metric), r)
    decreases metric.IsDelta(), 1
  {
    CountConcat(s.current, [metric], r);
    if metric.IsDelta() {
      PushDeltaAccounts(s, metric, r);
    } else if metric.IsAggregate() {
      PushAggregateAccounts(s, metric, r);
    }
  }

  lemma PushAggregateAccounts(s: Store, metric: Metric, r: nat)
    ensures Accounts(s, One(metric.rec == r), PushAggregate(s, metric), r)
  {
    CountConcat(s.current, [metric], r);
    var i := FirstIndex(s.current, Absorbs(metric));
    if i < |s.current| {
      CountUpdate(s.current, i, s.current[i].(value := Sum(s.current[i].value, metric.value).value), r);
    }
  }

  lemma {:induction false} PushDeltaAccounts(s: Store, metric: Metric, r: nat)
    ensures Accounts(s, One(metric.rec == r), PushDelta(s, metric), r)
    decreases true, 0
  {
    CountConcat(s.delta, [metric], r);
    match Sample(s.delta, metric, s.next)
    case First =>
    case Unusable =>
    case Next(i, d) =>
      var mid := s.(delta := s.delta[i := metric], next := s.next + 1);
      var superseded := [Exit(Superseded, s.delta[i].rec)];
      var o := Push(mid, d);
      assert PushDelta(s, metric) == o.(exits := superseded + o.exits);
      assert StoreCount(mid, r) + One(s.delta[i].rec == r) == StoreCount(s, r) + One(metric.rec == r) by {
        CountUpdate(s.delta, i, metric, r);
      }
      PushAccounts(mid, d, r);
      ExitCountConcat(superseded, o.exits, r);
  }

  lemma {:induction false} LpushAccounts(s: Store, ms: seq<Metric>, r: nat)
    ensures Accounts(s, Count(ms, r), Lpush(s, ms), r)
    decreases |ms|
  {
    if ms != [] {
      var o := Push(s, ms[0]);
      PushAccounts(s, ms[0], r);
      LpushAccounts(o.store, ms[1..], r);
      ExitCountConcat(o.exits, Lpush(o.store, ms[1..]).exits, r);
    }
  }

  lemma FlushAccounts(s: Store, r: nat)
    ensures Accounts(s, 0, FlushAll(s), r)
  {
    ExitCountOf(Flushed, s.current, r);
    ExitCountOf(Flushed, s.delta, r);
    ExitCountOf(Flushed, s.cache, r);
    ExitCountConcat(ExitsOf(Flushed, s.current), ExitsOf(Flushed, s.delta), r);
    ExitCountConcat(ExitsOf(Flushed, s.current) + ExitsOf(Flushed, s.delta), ExitsOf(Flushed, s.cache), r);
  }

  lemma EvictDeltaAccounts(s: Store, horizon: Timeval, r: nat)
    ensures Accounts(s, 0, EvictDelta(s, horizon), r)
  {
    CountKept(s.delta, Stale(horizon), r);
    ExitCountOf(Evicted, Removed(s.delta, Stale(horizon)), r);
  }

  lemma EvictCacheAccounts(s: Store, maxSize: nat, r: nat)
    ensures Accounts(s, 0, EvictCache(s, maxSize), r)
  {
    var n := Overflow(s.cache, maxSize);
    CountSplit(s.cache, n, r);
    ExitCountOf(Evicted, s.cache[..n], r);
  }

  // ---------- Each event ----------

  /** A step moves records between places and only adds the ones it allocates. */
  predicate Conserves(a: Agent, b: Agent, r: nat) {
    a.store.next <= b.store.next && Places(b, r) == Places(a, r) + One(a.store.next <= r < b.store.next)
  }

  lemma SendConserves(cfg: Config, a: Agent, attempt: Attempt, r: nat)
    ensures Conserves(a, SendAll(cfg, a, attempt), r)
  {
    var all := a.store.cache + a.store.current;
    var n := BatchLength(all, cfg.maxSendSize);
    CountConcat(a.store.cache, a.store.current, r);
    CountSplit(all, n, r);
    BatchCountConcat(a.inFlight, [all[..n]], r);
  }

  lemma BackoffConserves(cfg: Config, a: Agent, r: nat)
    ensures Conserves(a, Backoff(cfg, a), r)
  {
    FlushAccounts(a.store, r);
    ExitCountConcat(a.exits, FlushAll(a.store).exits, r);
  }

  lemma AnswerConserves(cfg: Config, a: Agent, i: nat, transferred: bool, code: int, r: nat)
    requires i < |a.inFlight|
    ensures Conserves(a, Answer(cfg, a, i, transferred, code), r)
  {
    var batch := a.inFlight[i];
    var b := a.(inFlight := a.inFlight[..i] + a.inFlight[i + 1..]);
    BatchCountRemove(a.inFlight, i, r);
    if !transferred || code >= 500 {
      CountConcat(b.store.cache, batch, r);
    } else if code >= 400 {
      BackoffConserves(cfg, b, r);
      LogCounts(Backoff(cfg, b).exits, Rejected, batch, r);
    } else if code == 200 {
      LogCounts(b.exits, Delivered, batch, r);
    } else {
      LogCounts(b.exits, Dropped, batch, r);
    }
  }

  lemma EvictConserves(cfg: Config, a: Agent, now: Timeval, r: nat)
    ensures Conserves(a, Evict(cfg, a, now), r)
  {
    hide EvictDelta, EvictCache, StoreCount, BatchCount, ExitCount;
    var horizon := now.(sec := now.sec - 3 * cfg.pollInterval);
    var b := After(a, EvictDelta(a.store, horizon));
    EvictDeltaAccounts(a.store, horizon, r);
    EvictCacheAccounts(b.store, cfg.cacheMaxSize, r);
    ExitCountConcat(a.exits, EvictDelta(a.store, horizon).exits, r);
    ExitCountConcat(b.exits, EvictCache(b.store, cfg.cacheMaxSize).exits, r);
  }

  lemma ReceiveConserves(a: Agent, ms: seq<Metric>, r: nat)
    ensures Conserves(a, Receive(a, ms), r)
  {
    hide Lpush, Allocated, ExitCount, BatchCount;
    var s := a.store.(next := a.store.next + |ms|);
    CountAllocated(a.store.next, ms, r);
    LpushAccounts(s, Allocated(a.store.next, ms), r);
    ExitCountConcat(a.exits, Lpush(s, Allocated(a.store.next, ms)).exits, r);
  }

  lemma UpdateConserves(cfg: Config, a: Agent, clock: Timeval, now: Timeval, attempt: Attempt, r: nat)
    ensures Conserves(a, Update(cfg, a, clock, now, attempt), r)
  {
    var b := a.(lastUpdate := clock);
    EvictConserves(cfg, b, now, r);
    SendConserves(cfg, Evict(cfg, b, now), attempt, r);
  }

  lemma FlushConserves(a: Agent, r: nat)
    ensures Conserves(a, After(a, FlushAll(a.store)), r)
  {
    FlushAccounts(a.store, r);
    ExitCountConcat(a.exits, FlushAll(a.store).exits, r);
  }

  lemma StepConserves(cfg: Config, a: Agent, ev: Event, r: nat)
    ensures Conserves(a, Step(cfg, a, ev), r)
  {
    match ev
    case Ticks(_, _) =>
    case Pushed(m) => ReceiveConserves(a, [m], r);
    case Received(ms) => ReceiveConserves(a, ms, r);
    case Updates(clock, now, attempt) => UpdateConserves(cfg, a, clock, now, attempt, r);
    case Sends(attempt) => SendConserves(cfg, a, attempt, r);
    case Flushes => FlushConserves(a, r);
    case Answered(i, transferred, code) =>
      if Known(a, ev) {
        AnswerConserves(cfg, a, i, transferred, code, r);
      }
  }

  // ---------- Every run ----------

  /** Whatever the interleaving, every record allocated so far is in exactly one of `current`, `delta`, `cache`,
      one request in flight, or the log of exits, and it is there once. */
  lemma {:induction false} RunBalances(cfg: Config, now: Timeval, evs: seq<Event>)
    ensures Balanced(Run(cfg, Start(now), evs))
  {
    if evs != [] {
      var n := |evs| - 1;
      var a := Run(cfg, Start(now), evs[..n]);
      RunBalances(cfg, now, evs[..n]);
      forall r: nat
        ensures Places(Run(cfg, Start(now), evs), r) == One(r < Run(cfg, Start(now), evs).store.next)
      {
        StepConserves(cfg, a, evs[n], r);
      }
    }
  }
}
