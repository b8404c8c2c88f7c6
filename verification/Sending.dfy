/** What a send takes, what an answer settles, and what the cache keeps. */
module Sending {
  import opened Metrics
  import opened Numbers
  import opened Sequences
  import opened MetricLists
  import opened StoreSpec
  import opened AgentSpec
  import opened Ledger

  const COUNT_MAX := 0xFFFF // the list header counts its records in 16 bits

  // ---------- Batches ----------

  lemma BatchNonEmpty(ms: seq<Metric>, maxSize: nat)
    ensures BatchLength(ms, maxSize) > 0 <==> ms != [] && maxSize > 0
  {
    assert ms[..0] == [];
    if ms != [] {
      BatchIsShortest(ms, maxSize, 0);
    }
  }

  lemma BaseMonotone(x: int, y: int)
    ensures x <= y <==> NODE_BASE * x <= NODE_BASE * y
  {
    assert NODE_BASE * y - NODE_BASE * x == NODE_BASE * (y - x);
  }

  /** A batch of a size bounded this way can be counted in 16 bits. */
  lemma BatchFitsCount(ms: seq<Metric>, maxSize: nat)
    requires maxSize <= NODE_BASE * COUNT_MAX
    ensures BatchLength(ms, maxSize) <= COUNT_MAX
  {
    var n := BatchLength(ms, maxSize);
    if n > 0 {
      DataSizePrefix(ms, 0, n - 1);
      assert DataSize(ms[..n - 1]) < maxSize;
      BaseMonotone(COUNT_MAX, n - 1);
    }
  }

  predicate OfSize(ms: seq<Metric>, size: nat) {
    forall m :: m in ms ==> NodeSize(m) == size
  }

  lemma {:induction false} EqualSizes(ms: seq<Metric>, size: nat)
    requires OfSize(ms, size)
    ensures DataSize(ms) == size * |ms|
  {
    if ms != [] {
      assert ms[0] in ms && forall m :: m in ms[1..] ==> m in ms;
      EqualSizes(ms[1..], size);
      Distribute(size, |ms| - 1, 1);
    }
  }

  /** The bound is exact: above it, any list of more than 65535 of the smallest records overflows the 16-bit count. */
  lemma BatchOverflowsCount(ms: seq<Metric>, maxSize: nat)
    requires maxSize > NODE_BASE * COUNT_MAX && |ms| > COUNT_MAX && OfSize(ms, NODE_BASE)
    ensures BatchLength(ms, maxSize) > COUNT_MAX
  {
    hide BatchLength;
    var r := BatchLength(ms, maxSize);
    BatchIsShortest(ms, maxSize, r);
    assert forall m :: m in ms[..r] ==> m in ms;
    EqualSizes(ms[..r], NODE_BASE);
    BaseMonotone(r, COUNT_MAX);
  }

  // ---------- One send ----------

  /** A send keeps every record and their order: what it hands over, then what is cached, is what was cached and
      then current; `current` ends empty; a send that fails keeps it all in the cache. */
  lemma SendKeepsOrder(cfg: Config, a: Agent, attempt: Attempt)
    ensures var b := SendAll(cfg, a, attempt);
            var all := a.store.cache + a.store.current;
            && b.store.current == [] && b.store.delta == a.store.delta && b.exits == a.exits
            && (attempt.Accepted? && all != [] ==>
                  && |b.inFlight| == |a.inFlight| + 1 && b.inFlight[..|a.inFlight|] == a.inFlight
                  && b.inFlight[|a.inFlight|] + b.store.cache == all
                  && (cfg.maxSendSize > 0 ==> b.inFlight[|a.inFlight|] != []))
            && (!attempt.Accepted? || all == [] ==> b.inFlight == a.inFlight && b.store.cache == all)
  {
    BatchNonEmpty(a.store.cache + a.store.current, cfg.maxSendSize);
  }

  function SendRounds(cfg: Config, a: Agent, n: nat): Agent
    decreases n
  {
    if n == 0 then a else SendRounds(cfg, SendAll(cfg, a, Accepted), n - 1)
  }

  /** As many accepted sends as there are records hand over every one of them, in order. */
  lemma {:induction false} SendsDrain(cfg: Config, a: Agent, n: nat)
    requires cfg.maxSendSize > 0 && n >= |a.store.cache + a.store.current|
    ensures var b := SendRounds(cfg, a, n);
            && b.store.cache == [] && b.store.current == []
            && Flatten(b.inFlight) == Flatten(a.inFlight) + (a.store.cache + a.store.current)
    decreases n
  {
    hide BatchLength, SendAll;
    var all := a.store.cache + a.store.current;
    if n > 0 {
      var b := SendAll(cfg, a, Accepted);
      SendKeepsOrder(cfg, a, Accepted);
      if all != [] {
        var batch := b.inFlight[|a.inFlight|];
        assert b.inFlight == a.inFlight + [batch] && Flatten(b.inFlight) == Flatten(a.inFlight) + batch;
        assert batch + (b.store.cache + b.store.current) == all;
        assert Flatten(b.inFlight) + (b.store.cache + b.store.current) == Flatten(a.inFlight) + all;
      }
      SendsDrain(cfg, b, n - 1);
    }
  }

  // ---------- Batches of a run ----------

  predicate BatchesFit(a: Agent) {
    forall i :: 0 <= i < |a.inFlight| ==> |a.inFlight[i]| <= COUNT_MAX
  }

  lemma StepFits(cfg: Config, a: Agent, ev: Event)
    requires cfg.maxSendSize <= NODE_BASE * COUNT_MAX && BatchesFit(a)
    ensures BatchesFit(Step(cfg, a, ev))
  {
    hide BatchLength, Evict, Receive;
    match ev
    case Updates(clock, now, attempt) =>
      var b := Evict(cfg, a.(lastUpdate := clock), now);
      EvictEffect(cfg, a.(lastUpdate := clock), now);
      BatchFitsCount(b.store.cache + b.store.current, cfg.maxSendSize);
    case Sends(attempt) => BatchFitsCount(a.store.cache + a.store.current, cfg.maxSendSize);
    case Pushed(m) => ReceiveKeepsFlight(a, [m]);
    case Received(ms) => ReceiveKeepsFlight(a, ms);
    case _ =>
  }

  lemma ReceiveKeepsFlight(a: Agent, ms: seq<Metric>)
    ensures Receive(a, ms).inFlight == a.inFlight
  {}

  lemma {:induction false} RunFits(cfg: Config, a: Agent, evs: seq<Event>)
    requires cfg.maxSendSize <= NODE_BASE * COUNT_MAX && BatchesFit(a)
    ensures BatchesFit(Run(cfg, a, evs))
  {
    hide Step;
    if evs != [] {
      RunFits(cfg, a, evs[..|evs| - 1]);
      StepFits(cfg, Run(cfg, a, evs[..|evs| - 1]), evs[|evs| - 1]);
    }
  }

  predicate Plain(m: Metric) {
    !m.IsDelta() && !m.IsAggregate()
  }

  /** Metrics that are neither DELTA nor AGGREGATE go behind `current` as they come. */
  lemma {:induction false} PlainPushes(s: Store, ms: seq<Metric>)
    requires forall m :: m in ms ==> Plain(m)
    ensures Lpush(s, ms).store == s.(current := s.current + ms)
    decreases |ms|
  {
    if ms == [] {
      assert s.current + [] == s.current;
    } else {
      assert ms[0] in ms && ms == [ms[0]] + ms[1..] && forall m :: m in ms[1..] ==> m in ms;
      PlainPushes(Push(s, ms[0]).store, ms[1..]);
      assert s.current + [ms[0]] + ms[1..] == s.current + ms;
    }
  }

  lemma {:induction false} AllocatedAll(next: nat, ms: seq<Metric>, p: Metric -> bool)
    requires forall m, r: nat :: m in ms ==> p(m.(rec := r))
    ensures |Allocated(next, ms)| == |ms| && forall m :: m in Allocated(next, ms) ==> p(m)
    decreases |ms|
  {
    if ms != [] {
      assert ms[0] in ms && forall m :: m in ms[1..] ==> m in ms;
      AllocatedAll(next + 1, ms[1..], p);
    }
  }

  /** A list received by a new agent, then sent: its batch is a prefix of the list, in records of its own. */
  lemma ReceivedThenSent(cfg: Config, now: Timeval, ms: seq<Metric>)
    requires ms != [] && forall m :: m in ms ==> Plain(m)
    ensures var all := Allocated(0, ms);
            |all| == |ms|
            && Run(cfg, Start(now), [Received(ms), Sends(Accepted)]).inFlight
               == [all[..BatchLength(all, cfg.maxSendSize)]]
  {
    hide Lpush, BatchLength, Allocated;
    var a, evs, all := Start(now), [Received(ms), Sends(Accepted)], Allocated(0, ms);
    AllocatedAll(0, ms, Plain);
    PlainPushes(a.store.(next := |ms|), all);
    assert [] + all == all && evs[..1] == [Received(ms)] && evs[..1][..0] == [];
    assert Run(cfg, a, evs[..1][..0]) == a;
    assert Run(cfg, a, evs[..1]) == Receive(a, ms);
    assert Receive(a, ms).store.current == all && Receive(a, ms).store.cache + all == all;
  }

  /** Above the bound there is a run with a batch that overflows its count. */
  lemma RunOverflows(cfg: Config, now: Timeval) returns (evs: seq<Event>)
    requires cfg.maxSendSize > NODE_BASE * COUNT_MAX
    ensures !BatchesFit(Run(cfg, Start(now), evs))
  {
    hide Run, BatchLength, Allocated;
    var n := COUNT_MAX + 1;
    var ms := seq(n, _ => Metric(0, [], 0, Timeval(0, 0), 0, Integer(0)));
    evs := [Received(ms), Sends(Accepted)];
    var smallest := (m: Metric) => NodeSize(m) == NODE_BASE;
    AllocatedAll(0, ms, smallest);
    assert forall m :: m in Allocated(0, ms) ==> smallest(m);
    ReceivedThenSent(cfg, now, ms);
    BatchOverflowsCount(Allocated(0, ms), cfg.maxSendSize);
    assert |Run(cfg, Start(now), evs).inFlight[0]| > COUNT_MAX;
  }

  /** In every run every batch in flight fits its 16-bit count if and only if `maxSendSize` is at most 65535 times the
      smallest node. */
  lemma CountsFit(cfg: Config, now: Timeval)
    ensures (forall evs :: BatchesFit(Run(cfg, Start(now), evs))) <==> cfg.maxSendSize <= NODE_BASE * COUNT_MAX
  {
    hide Run, BatchesFit;
    if cfg.maxSendSize <= NODE_BASE * COUNT_MAX {
      forall evs: seq<Event>
        ensures BatchesFit(Run(cfg, Start(now), evs))
      {
        StartFits(now);
        RunFits(cfg, Start(now), evs);
      }
    } else {
      var evs := RunOverflows(cfg, now);
    }
  }

  lemma StartFits(now: Timeval)
    ensures BatchesFit(Start(now))
  {}

  // ---------- One answer ----------

  lemma {:induction false} CountMember(ms: seq<Metric>, r: nat)
    ensures Count(ms, r) > 0 <==> exists m :: m in ms && m.rec == r
  {
    if ms != [] {
      CountMember(ms[1..], r);
    }
  }

  lemma {:induction false} ExitMember(exits: seq<Exit>, fate: Fate, r: nat)
    requires Exit(fate, r) in exits
    ensures ExitCount(exits, r) > 0
  {
    if exits[0].rec != r {
      ExitMember(exits[1..], fate, r);
    }
  }

  lemma {:induction false} ExitsOfMember(fate: Fate, ms: seq<Metric>, r: nat)
    ensures Exit(fate, r) in ExitsOf(fate, ms) <==> Count(ms, r) > 0
    ensures forall e :: e in ExitsOf(fate, ms) ==> e.fate == fate
  {
    if ms != [] {
      ExitsOfMember(fate, ms[1..], r);
    }
  }

  function FateOf(code: int): Fate {
    if code == 200 then Delivered else if code >= 400 then Rejected else Dropped
  }

  /** A record in flight goes back to the cache exactly when the transfer failed or the server answered 500 or more;
      otherwise it leaves the agent for good, with the fate the answer gives it and no other. */
  lemma AnswerSettles(cfg: Config, a: Agent, i: nat, transferred: bool, code: int, r: nat)
    requires Balanced(a) && i < |a.inFlight| && Count(a.inFlight[i], r) > 0
    ensures var b := Answer(cfg, a, i, transferred, code);
            && (Count(b.store.cache, r) > 0 <==> !transferred || code >= 500)
            && (forall fate :: Exit(fate, r) in b.exits <==>
                  transferred && code < 500 && fate == FateOf(code))
  {
    var batch := a.inFlight[i];
    var b := Answer(cfg, a, i, transferred, code);
    assert Places(a, r) == 1 && Count(batch, r) == 1 && ExitCount(a.exits, r) == 0 && Count(a.store.cache, r) == 0 by {
      assert Places(a, r) == One(r < a.store.next);
      BatchCountRemove(a.inFlight, i, r);
    }
    AnswerConserves(cfg, a, i, transferred, code, r);
    CountConcat(a.store.cache, batch, r);
    if transferred && code < 500 {
      ExitsOfMember(FateOf(code), batch, r);
      assert Exit(FateOf(code), r) in b.exits;
      assert Places(b, r) <= 1;
      SoleExit(b.exits, FateOf(code), r);
    }
    forall fate | !transferred || code >= 500
      ensures Exit(fate, r) !in b.exits
    {
      if Exit(fate, r) in a.exits {
        ExitMember(a.exits, fate, r);
        assert false;
      }
    }
  }

  lemma {:induction false} SoleExit(exits: seq<Exit>, fate: Fate, r: nat)
    requires Exit(fate, r) in exits && ExitCount(exits, r) <= 1
    ensures forall other :: Exit(other, r) in exits ==> other == fate
  {
    var rest := exits[1..];
    if exits[0].rec == r {
      forall other | Exit(other, r) in rest
        ensures false
      {
        ExitMember(rest, other, r);
      }
    } else {
      SoleExit(rest, fate, r);
    }
  }

  // ---------- The cache ----------

  /** Eviction drops the least number of oldest records that makes the rest fit. */
  lemma {:induction false} OverflowIsLeast(cache: seq<Metric>, maxSize: nat)
    ensures var n := Overflow(cache, maxSize);
            && DataSize(cache[n..]) <= maxSize
            && forall k :: 0 <= k < n ==> DataSize(cache[k..]) > maxSize
  {
    if DataSize(cache) > maxSize {
      var n := Overflow(cache[1..], maxSize);
      OverflowIsLeast(cache[1..], maxSize);
      assert cache[1..][n..] == cache[n + 1..];
      forall k | 0 <= k < n + 1
        ensures DataSize(cache[k..]) > maxSize
      {
        if k == 0 {
          assert cache[0..] == cache;
        } else {
          assert cache[1..][k - 1..] == cache[k..];
        }
      }
    } else {
      assert cache[0..] == cache;
    }
  }

  // ---------- The periodic update ----------

  lemma EvictEffect(cfg: Config, a: Agent, now: Timeval)
    ensures var b := Evict(cfg, a, now);
            && b.inFlight == a.inFlight && b.store.current == a.store.current && b.lastUpdate == a.lastUpdate
            && (forall m :: m in b.store.delta <==>
                  m in a.store.delta && TimeCmp(m.clock, now.(sec := now.sec - 3 * cfg.pollInterval)) >= 0)
            && b.store.cache == a.store.cache[Overflow(a.store.cache, cfg.cacheMaxSize)..]
            && DataSize(b.store.cache) <= cfg.cacheMaxSize
  {
    hide Kept, Overflow;
    KeptMembers(a.store.delta, Stale(now.(sec := now.sec - 3 * cfg.pollInterval)));
    OverflowIsLeast(a.store.cache, cfg.cacheMaxSize);
  }

  /** An update that is not due does nothing. One that is restarts the period, leaves nothing in `current` and no stale
      sample, keeps the order of all it does not evict, and brings the cache back to its limit: only what was current
      can exceed it. */
  lemma UpdateEffect(cfg: Config, a: Agent, clock: Timeval, now: Timeval, attempt: Attempt)
    ensures var b := Update(cfg, a, clock, now, attempt);
            var all := a.store.cache[Overflow(a.store.cache, cfg.cacheMaxSize)..] + a.store.current;
            if a.lastUpdate.sec + cfg.updateInterval > clock.sec then b == a
            else
              && b.lastUpdate == clock && b.store.current == []
              && (forall m :: m in b.store.delta <==>
                    m in a.store.delta && TimeCmp(m.clock, now.(sec := now.sec - 3 * cfg.pollInterval)) >= 0)
              && DataSize(b.store.cache) <= cfg.cacheMaxSize + DataSize(a.store.current)
              && (if attempt.Accepted? && all != []
                  then |b.inFlight| == |a.inFlight| + 1 && b.inFlight[|a.inFlight|] + b.store.cache == all
                  else b.inFlight == a.inFlight && b.store.cache == all)
  {
    hide Evict, Overflow, TimeCmp;
    if a.lastUpdate.sec + cfg.updateInterval <= clock.sec {
      var restarted := a.(lastUpdate := clock);
      var mid := Evict(cfg, restarted, now);
      EvictEffect(cfg, restarted, now);
      SendKeepsOrder(cfg, mid, attempt);
      DataSizeConcat(mid.store.cache, a.store.current);
      var b := SendAll(cfg, mid, attempt);
      if attempt.Accepted? && mid.store.cache + a.store.current != [] {
        DataSizeConcat(b.inFlight[|a.inFlight|], b.store.cache);
      }
    }
  }
}
