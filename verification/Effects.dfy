/** What each push and each event does to an agent, and what it leaves alone. */
module Effects {
  import opened Metrics
  import opened MetricLists
  import opened StoreSpec
  import opened AgentSpec
  import opened SampleMap
  import opened Sending

  /** These exits are one per record, in order, all of one fate. */
  predicate Logs(exits: seq<Exit>, fate: Fate, ms: seq<Metric>) {
    |exits| == |ms| && forall n :: 0 <= n < |ms| ==> exits[n] == Exit(fate, ms[n].rec)
  }

  lemma {:induction false} ExitsLog(fate: Fate, ms: seq<Metric>)
    ensures Logs(ExitsOf(fate, ms), fate, ms)
  {
    if ms != [] {
      ExitsLog(fate, ms[1..]);
    }
  }

  // ---------- Pushes ----------

  /** Two records an aggregate can merge: of one key and one numeric type */
  predicate Mergeable(held: Metric, m: Metric) {
    held.Key() == m.Key() && Combinable(held.value, m.value)
  }

  /** A metric that is neither a sample nor an aggregate goes behind `current`, and nothing else happens. */
  lemma PlainPush(s: Store, m: Metric)
    requires Plain(m)
    ensures Push(s, m) == Outcome(s.(current := s.current + [m]), true, [])
  {}

  /** An aggregate goes behind `current`, or into the first record there it can merge with: of that record its value
      alone changes, and no other record does. */
  lemma AggregatePush(s: Store, m: Metric) returns (i: nat)
    requires m.IsAggregate() && !m.IsDelta()
    ensures i <= |s.current| && forall j :: 0 <= j < i ==> !Mergeable(s.current[j], m)
    ensures var o := Push(s, m); var after := o.store.current;
            && o.ok && o.store == s.(current := after)
            && (i == |s.current| ==> after == s.current + [m] && o.exits == [])
            && (i < |s.current| ==>
                  && Mergeable(s.current[i], m) && o.exits == [Exit(Merged, m.rec)]
                  && |after| == |s.current| && (forall j :: 0 <= j < |after| && j != i ==> after[j] == s.current[j])
                  && after[i].(value := s.current[i].value) == s.current[i]
                  && (m.value.Integer? ==>
                        after[i].value == Integer((s.current[i].value.n + m.value.n) % 0x1_0000_0000_0000_0000))
                  && (m.value.Float? ==> after[i].value == Float(s.current[i].value.x + m.value.x)))
  {
    i := FirstIndex(s.current, Absorbs(m));
    forall j | 0 <= j < i
      ensures !Mergeable(s.current[j], m)
    {
      assert !Absorbs(m)(s.current[j]);
    }
  }

  /** A sample is looked up among the stored ones of its key with another clock. Without one it is stored. With one it
      cannot be subtracted from it is refused, and nothing changes. Else it takes that one's place, and their
      difference, in the next record, is pushed. */
  lemma SamplePush(s: Store, m: Metric) returns (i: nat, d: Metric)
    requires m.IsDelta()
    ensures i <= |s.delta| && forall j :: 0 <= j < i ==> !IsCached(m, s.delta[j])
    ensures i == |s.delta| ==> Push(s, m) == Outcome(s.(delta := s.delta + [m]), true, [])
    ensures i < |s.delta| ==>
              var p := s.delta[i];
              && p.Key() == m.Key() && TimeCmp(m.clock, p.clock) != 0 && p.clock != m.clock
              && (!Combinable(p.value, m.value) ==> Push(s, m) == Outcome(s, false, [Exit(Refused, m.rec)]))
              && (Combinable(p.value, m.value) ==>
                    && ComputeDelta(p, m, s.next).Some? && d == ComputeDelta(p, m, s.next).value && !d.IsDelta()
                    && var o := Push(s.(delta := s.delta[i := m], next := s.next + 1), d);
                       Push(s, m) == o.(exits := [Exit(Superseded, p.rec)] + o.exits) && o.ok)
  {
    i, d := FirstIndex(s.delta, CachedBy(m)), m;
    forall j | 0 <= j < i
      ensures !IsCached(m, s.delta[j])
    {
      assert !CachedBy(m)(s.delta[j]);
    }
    if i < |s.delta| {
      assert CachedBy(m)(s.delta[i]);
      match ComputeDelta(s.delta[i], m, s.next)
      case None =>
      case Some(difference) => d := difference;
    }
  }

  // ---------- Lists of pushes ----------

  /** Pushing a list is pushing its records one after the other. */
  lemma {:induction false} LpushFolds(s: Store, ms: seq<Metric>, m: Metric)
    ensures var front := Lpush(s, ms); var o := Push(front.store, m);
            Lpush(s, ms + [m]) == Outcome(o.store, front.ok && o.ok, front.exits + o.exits)
    ensures Lpush(s, []) == Outcome(s, true, [])
    decreases |ms|
  {
    hide Push;
    if ms == [] {
      var o := Push(s, m);
      assert [] + [m] == [m] && [m][1..] == [] && o.exits + [] == o.exits && [] + o.exits == o.exits;
    } else {
      var first := Push(s, ms[0]);
      assert (ms + [m])[1..] == ms[1..] + [m];
      LpushFolds(first.store, ms[1..], m);
      var front := Lpush(first.store, ms[1..]);
      var o := Push(front.store, m);
      assert first.exits + (front.exits + o.exits) == first.exits + front.exits + o.exits;
    }
  }

  predicate PushFate(e: Exit) {
    e.fate == Merged || e.fate == Superseded || e.fate == Refused
  }

  lemma PushLeaves(s: Store, m: Metric)
    ensures var o := Push(s, m);
            && o.store.cache == s.cache && s.next <= o.store.next
            && (forall e :: e in o.exits ==> PushFate(e)) && (o.ok <==> forall e :: e in o.exits ==> e.fate != Refused)
  {
    if m.IsDelta() {
      var i, d := SamplePush(s, m);
      if i < |s.delta| {
        if Combinable(s.delta[i].value, m.value) {
          PlainLeaves(s.(delta := s.delta[i := m], next := s.next + 1), d);
        } else {
          assert Exit(Refused, m.rec) in Push(s, m).exits;
        }
      }
    } else {
      PlainLeaves(s, m);
    }
  }

  lemma PlainLeaves(s: Store, m: Metric)
    requires !m.IsDelta()
    ensures var o := Push(s, m);
            && o.store.cache == s.cache && s.next == o.store.next && o.ok
            && (forall e :: e in o.exits ==> e.fate == Merged)
  {}

  /** Pushing a list leaves the cache alone, lets records go in no other way than pushes do, and fails if and only if
      one was refused. */
  lemma {:induction false} LpushLeaves(s: Store, ms: seq<Metric>)
    ensures var o := Lpush(s, ms);
            && o.store.cache == s.cache && s.next <= o.store.next
            && (forall e :: e in o.exits ==> PushFate(e)) && (o.ok <==> forall e :: e in o.exits ==> e.fate != Refused)
    decreases |ms|
  {
    hide Push, PushFate;
    if ms != [] {
      var first := Push(s, ms[0]);
      PushLeaves(s, ms[0]);
      LpushLeaves(first.store, ms[1..]);
    }
  }

  // ---------- Events ----------

  lemma {:induction false} AllocatedAt(next: nat, ms: seq<Metric>)
    ensures |Allocated(next, ms)| == |ms|
    ensures forall i :: 0 <= i < |ms| ==> Allocated(next, ms)[i] == ms[i].(rec := next + i)
    decreases |ms|
  {
    if ms != [] {
      AllocatedAt(next + 1, ms[1..]);
      forall i | 0 <= i < |ms|
        ensures Allocated(next, ms)[i] == ms[i].(rec := next + i)
      {
        if i > 0 {
          assert Allocated(next, ms)[i] == Allocated(next + 1, ms[1..])[i - 1] && ms[i] == ms[1..][i - 1];
        }
      }
    }
  }

  /** Receiving metrics pushes them in order, in the next records, and touches nothing but the store and the log: not
      the cache, not the requests, not the pace. */
  lemma ReceiveEffect(cfg: Config, a: Agent, ms: seq<Metric>) returns (records: seq<Metric>)
    ensures |records| == |ms| && forall i :: 0 <= i < |ms| ==> records[i] == ms[i].(rec := a.store.next + i)
    ensures var b := Step(cfg, a, Received(ms));
            var o := Lpush(a.store.(next := a.store.next + |ms|), records);
            && b == a.(store := o.store, exits := a.exits + o.exits)
            && b.store.cache == a.store.cache && forall e :: e in o.exits ==> PushFate(e)
    ensures |ms| == 1 ==> Step(cfg, a, Pushed(ms[0])) == Step(cfg, a, Received(ms))
  {
    records := Allocated(a.store.next, ms);
    AllocatedAt(a.store.next, ms);
    LpushLeaves(a.store.(next := a.store.next + |ms|), records);
    assert |ms| == 1 ==> ms == [ms[0]];
  }

  /** A send touches nothing but `current`, the cache and the requests: it leaves in flight the shortest prefix of what
      is cached and then current that reaches `maxSendSize`, or all of it, and caches the rest; or it caches all. */
  lemma SendEffect(cfg: Config, a: Agent, attempt: Attempt)
    ensures var b := Step(cfg, a, Sends(attempt));
            var all := a.store.cache + a.store.current;
            && b == a.(store := a.store.(current := [], cache := b.store.cache), inFlight := b.inFlight)
            && (!attempt.Accepted? || all == [] ==> b.inFlight == a.inFlight && b.store.cache == all)
            && (attempt.Accepted? && all != [] ==>
                  && |b.inFlight| == |a.inFlight| + 1 && b.inFlight[..|a.inFlight|] == a.inFlight
                  && var batch := b.inFlight[|a.inFlight|];
                     && batch + b.store.cache == all
                     && (b.store.cache == [] || DataSize(batch) >= cfg.maxSendSize)
                     && forall n :: 0 <= n < |batch| ==> DataSize(batch[..n]) < cfg.maxSendSize)
  {
    hide BatchLength, DataSize;
    var all := a.store.cache + a.store.current;
    var n := BatchLength(all, cfg.maxSendSize);
    BatchIsShortest(all, cfg.maxSendSize, n);
    forall m | 0 <= m < n
      ensures DataSize(all[..n][..m]) < cfg.maxSendSize
    {
      DataSizeMonotone(all, m, n - 1);
      assert all[..n][..m] == all[..m];
    }
    assert all == [] ==> a.store.cache == [] && a.store.current == [];
  }

  /** A flush empties the store, logs each record as flushed, and touches nothing else. */
  lemma FlushEffect(cfg: Config, a: Agent)
    ensures var b := Step(cfg, a, Flushes);
            && b == a.(store := Store([], [], [], a.store.next), exits := b.exits)
            && |a.exits| <= |b.exits| && b.exits[..|a.exits|] == a.exits
            && Logs(b.exits[|a.exits|..], Flushed, a.store.current + a.store.delta + a.store.cache)
  {
    hide Logs, ExitsOf;
    FlushLogs(a.store);
    var logged := FlushAll(a.store).exits;
    assert (a.exits + logged)[|a.exits|..] == logged;
  }

  /** Batch i alone is no longer in flight. */
  predicate Settled(before: seq<seq<Metric>>, after: seq<seq<Metric>>, i: nat) {
    && |after| + 1 == |before|
    && forall j :: 0 <= j < |after| ==> after[j] == before[if j < i then j else j + 1]
  }

  /** An answer of no other kind than 4xx touches no record but those of its batch: they are cached, behind the others,
      if the transfer failed or the code is 500 or more, and logged, one by one, otherwise. */
  lemma AnswerEffect(cfg: Config, a: Agent, i: nat, transferred: bool, code: int)
    requires i < |a.inFlight| && !(transferred && 400 <= code < 500)
    ensures var b := Step(cfg, a, Answered(i, transferred, code));
            && Settled(a.inFlight, b.inFlight, i)
            && b.lastUpdate == a.lastUpdate && b.nextUpdate == a.nextUpdate
            && b.backoffCount == (if transferred && code < 500 && code != 200 then a.backoffCount else 0)
            && (!transferred || code >= 500 ==>
                  b.store == a.store.(cache := a.store.cache + a.inFlight[i]) && b.exits == a.exits)
            && (transferred && code < 400 ==>
                  && b.store == a.store
                  && |a.exits| <= |b.exits| && b.exits[..|a.exits|] == a.exits
                  && Logs(b.exits[|a.exits|..], if code == 200 then Delivered else Dropped, a.inFlight[i]))
  {
    ExitsLog(Delivered, a.inFlight[i]);
    ExitsLog(Dropped, a.inFlight[i]);
  }

  /** A 4xx answer logs its batch as rejected. The first since a reset does nothing else but count; a later one empties
      the store, logging each record as flushed, and puts the next update off by a power of two of the interval. */
  lemma RejectionEffect(cfg: Config, a: Agent, i: nat, code: int)
    requires i < |a.inFlight| && 400 <= code < 500
    ensures var b := Step(cfg, a, Answered(i, true, code));
            var flushed := if a.backoffCount == 0 then [] else a.store.current + a.store.delta + a.store.cache;
            && Settled(a.inFlight, b.inFlight, i) && b.lastUpdate == a.lastUpdate
            && b.backoffCount == (if a.backoffCount < 15 then a.backoffCount + 1 else a.backoffCount)
            && (a.backoffCount == 0 ==> b.store == a.store && b.nextUpdate == a.nextUpdate)
            && (a.backoffCount > 0 ==>
                  && b.store == Store([], [], [], a.store.next)
                  && b.nextUpdate == a.nextUpdate + cfg.updateInterval * Pow2(a.backoffCount))
            && |b.exits| == |a.exits| + |flushed| + |a.inFlight[i]| && b.exits[..|a.exits|] == a.exits
            && Logs(b.exits[|a.exits|..|a.exits| + |flushed|], Flushed, flushed)
            && Logs(b.exits[|a.exits| + |flushed|..], Rejected, a.inFlight[i])
  {
    hide ExitsOf, Logs;
    var flushed := if a.backoffCount == 0 then [] else a.store.current + a.store.delta + a.store.cache;
    RejectionLogs(cfg, a, i, code);
    ExitsLog(Rejected, a.inFlight[i]);
    FlushLogs(a.store);
    NoLogs();
    LogsBehind(a.exits, FlushedBy(a), Flushed, flushed, ExitsOf(Rejected, a.inFlight[i]), Rejected, a.inFlight[i]);
  }

  /** What a 4xx answer flushes, as it is logged */
  function FlushedBy(a: Agent): seq<Exit> {
    if a.backoffCount == 0 then [] else FlushAll(a.store).exits
  }

  lemma FlushLogs(s: Store)
    ensures Logs(FlushAll(s).exits, Flushed, s.current + s.delta + s.cache)
  {
    hide ExitsOf;
    ExitsLog(Flushed, s.current);
    ExitsLog(Flushed, s.delta);
    ExitsLog(Flushed, s.cache);
  }

  lemma NoLogs()
    ensures Logs([], Flushed, [])
  {}

  lemma LogsBehind(before: seq<Exit>, x: seq<Exit>, f: Fate, xs: seq<Metric>, y: seq<Exit>, g: Fate, ys: seq<Metric>)
    requires Logs(x, f, xs) && Logs(y, g, ys)
    ensures var all := before + x + y;
            && |all| == |before| + |xs| + |ys| && all[..|before|] == before
            && Logs(all[|before|..|before| + |xs|], f, xs) && Logs(all[|before| + |xs|..], g, ys)
  {
    var all := before + x + y;
    assert all[|before|..|before| + |xs|] == x && all[|before| + |xs|..] == y;
  }

  lemma RejectionLogs(cfg: Config, a: Agent, i: nat, code: int)
    requires i < |a.inFlight| && 400 <= code < 500
    ensures Step(cfg, a, Answered(i, true, code)).exits == a.exits + FlushedBy(a) + ExitsOf(Rejected, a.inFlight[i])
  {
    hide ExitsOf;
  }

  /** An answer to no request in flight is ignored. */
  lemma StrayAnswer(cfg: Config, a: Agent, i: nat, transferred: bool, code: int)
    requires i >= |a.inFlight|
    ensures Step(cfg, a, Answered(i, transferred, code)) == a
  {}

  /** A turn of the main loop moves the next update on, and to the clock if it is behind, and nothing else. */
  lemma TickEffect(cfg: Config, a: Agent, tick: nat, second: int)
    ensures var b := Step(cfg, a, Ticks(tick, second));
            b == a.(nextUpdate := b.nextUpdate)
            && b.nextUpdate >= second && b.nextUpdate >= a.nextUpdate + tick
            && (b.nextUpdate == second || b.nextUpdate == a.nextUpdate + tick)
  {}

  /** An update that is due lets records go only as evicted, one for each sample or cached record it evicts, and leaves
      the pace and the earlier requests alone. */
  lemma UpdateLeaves(cfg: Config, a: Agent, clock: Timeval, now: Timeval, attempt: Attempt)
    ensures var b := Step(cfg, a, Updates(clock, now, attempt));
            && b == a.(store := b.store, inFlight := b.inFlight, exits := b.exits, lastUpdate := b.lastUpdate)
            && b.store.next == a.store.next
            && |a.inFlight| <= |b.inFlight| && b.inFlight[..|a.inFlight|] == a.inFlight
            && |a.exits| <= |b.exits| && b.exits[..|a.exits|] == a.exits
            && (forall e :: e in b.exits[|a.exits|..] ==> e.fate == Evicted)
            && (|b.inFlight| > |a.inFlight| ==>
                  var batch := b.inFlight[|a.inFlight|];
                  && |b.inFlight| == |a.inFlight| + 1
                  && (b.store.cache == [] || DataSize(batch) >= cfg.maxSendSize)
                  && forall n :: 0 <= n < |batch| ==> DataSize(batch[..n]) < cfg.maxSendSize)
  {
    hide Kept, Removed, Overflow, BatchLength, TimeCmp, SendAll;
    SendEffect(cfg, Evict(cfg, a.(lastUpdate := clock), now), attempt);
    var horizon := now.(sec := now.sec - 3 * cfg.pollInterval);
    ExitsLog(Evicted, Removed(a.store.delta, Stale(horizon)));
    ExitsLog(Evicted, a.store.cache[..Overflow(a.store.cache, cfg.cacheMaxSize)]);
  }
}
