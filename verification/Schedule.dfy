/** When modules are polled, and why their samples outlive the wait for the next poll. */
module Schedule {
  import opened Metrics
  import opened Numbers
  import opened MetricLists
  import opened StoreSpec
  import opened AgentSpec
  import opened Backoffs
  import opened Counters
  import opened KeyRuns
  import opened Emissions
  import opened Turns

  // ---------- Modules ----------

  /** The "interval" entry of a module's configuration */
  datatype Setting = Absent | Malformed | Seconds(n: int)

  /** One module, as one main-loop turn at second t sees it: polled or not, and its last clock after */
  predicate Due(last: int, interval: nat, t: int) {
    last + interval <= t
  }

  function Next(last: int, interval: nat, t: int): int {
    if Due(last, interval, t) then last + interval else last
  }

  class Module {
    var interval: nat
    var lastClock: Timeval

    /** An interval that is missing, wrong, negative or above the global one becomes the global one; the last clock
        is set back by the interval, so that the first turn polls the module. */
    constructor (setting: Setting, global: nat, now: Timeval)
      ensures interval <= global && lastClock == now.(sec := now.sec - interval)
      ensures interval == if setting.Seconds? && 0 <= setting.n <= global then setting.n else global
      ensures Due(lastClock.sec, interval, now.sec)
    {
      var chosen: nat := global;
      if setting.Seconds? && setting.n >= 0 && !(setting.n > global) {
        chosen := setting.n;
      }
      interval := chosen;
      lastClock := now.(sec := now.sec - chosen);
    }
  }

  /** How many of the first n modules failed, among those polled */
  function Failures(polled: seq<bool>, answers: seq<int>, n: nat): nat
    requires n <= |polled| && n <= |answers|
  {
    if n == 0 then 0 else Failures(polled, answers, n - 1) + if polled[n - 1] && answers[n - 1] == -1 then 1 else 0
  }

  /** `answers` are what the modules' poll functions would return. */
  method PollModules(modules: seq<Module>, clock: Timeval, answers: seq<int>) returns (err: nat, polled: seq<bool>)
    requires |answers| == |modules|
    requires forall i, j :: 0 <= i < j < |modules| ==> modules[i] != modules[j]
    modifies modules
    ensures |polled| == |modules| && err == Failures(polled, answers, |modules|)
    ensures err == |set i | 0 <= i < |modules| && polled[i] && answers[i] == -1|
    ensures forall i :: 0 <= i < |modules| ==>
              && polled[i] == (old(modules[i].lastClock.sec) + old(modules[i].interval) <= clock.sec)
              && modules[i].lastClock.sec
                 == old(modules[i].lastClock.sec) + if polled[i] then old(modules[i].interval) else 0
    ensures forall i :: 0 <= i < |modules| ==>
              && polled[i] == Due(old(modules[i].lastClock.sec), old(modules[i].interval), clock.sec)
              && modules[i].interval == old(modules[i].interval)
              && modules[i].lastClock == old(modules[i].lastClock).(
                   sec := Next(old(modules[i].lastClock.sec), old(modules[i].interval), clock.sec))
  {
    err, polled := 0, [];
    for i := 0 to |modules|
      invariant |polled| == i && err == Failures(polled, answers, i)
      invariant forall k :: i <= k < |modules| ==>
                  && modules[k].lastClock == old(modules[k].lastClock)
                  && modules[k].interval == old(modules[k].interval)
      invariant forall k :: 0 <= k < i ==>
                  && polled[k] == Due(old(modules[k].lastClock.sec), old(modules[k].interval), clock.sec)
                  && modules[k].interval == old(modules[k].interval)
                  && modules[k].lastClock == old(modules[k].lastClock).(
                       sec := Next(old(modules[k].lastClock.sec), old(modules[k].interval), clock.sec))
    {
      var nextUpdate := modules[i].lastClock.sec + modules[i].interval;
      ghost var before := polled;
      if nextUpdate <= clock.sec {
        if answers[i] == -1 {
          err := err + 1;
        }
        modules[i].lastClock := modules[i].lastClock.(sec := nextUpdate);
        polled := polled + [true];
      } else {
        polled := polled + [false];
      }
      FailuresPrefix(before, polled, answers, i);
    }
    FailuresCount(polled, answers, |modules|);
  }

  /** As many failures as there are modules that were polled and answered -1 */
  lemma {:induction false} FailuresCount(polled: seq<bool>, answers: seq<int>, n: nat)
    requires n <= |polled| && n <= |answers|
    ensures Failures(polled, answers, n) == |set i | 0 <= i < n && polled[i] && answers[i] == -1|
  {
    var failed := set i | 0 <= i < n && polled[i] && answers[i] == -1;
    if n == 0 {
      assert failed == {};
    } else {
      FailuresCount(polled, answers, n - 1);
      var before := set i | 0 <= i < n - 1 && polled[i] && answers[i] == -1;
      assert failed == if polled[n - 1] && answers[n - 1] == -1 then before + {n - 1} else before;
    }
  }

  lemma {:induction false} FailuresPrefix(a: seq<bool>, b: seq<bool>, answers: seq<int>, n: nat)
    requires n <= |a| <= |b| && n <= |answers| && forall k :: 0 <= k < n ==> a[k] == b[k]
    ensures Failures(a, answers, n) == Failures(b, answers, n)
  {
    if n > 0 {
      FailuresPrefix(a, b, answers, n - 1);
    }
  }

  /** The smallest of the global intervals and the modules' own */
  method TickInterval(updateInterval: nat, pollInterval: nat, modules: seq<Module>) returns (tick: nat)
    ensures tick <= updateInterval && tick <= pollInterval
    ensures forall m :: m in modules ==> tick <= m.interval
    ensures tick == updateInterval || tick == pollInterval || exists m :: m in modules && m.interval == tick
  {
    tick := if updateInterval < pollInterval then updateInterval else pollInterval;
    for i := 0 to |modules|
      invariant tick <= updateInterval && tick <= pollInterval
      invariant forall k :: 0 <= k < i ==> tick <= modules[k].interval
      invariant tick == updateInterval || tick == pollInterval || exists m :: m in modules && m.interval == tick
    {
      if modules[i].interval < tick {
        tick := modules[i].interval;
      }
    }
  }

  // ---------- Runs of turns ----------

  /** A module's last clock after turns at these seconds */
  function LastAfter(last: int, interval: nat, turns: seq<int>): int {
    if turns == [] then last
    else Next(LastAfter(last, interval, turns[..|turns| - 1]), interval, turns[|turns| - 1])
  }

  function Polls(last: int, interval: nat, turns: seq<int>): nat {
    if turns == [] then 0
    else
      Polls(last, interval, turns[..|turns| - 1])
      + if Due(LastAfter(last, interval, turns[..|turns| - 1]), interval, turns[|turns| - 1]) then 1 else 0
  }

  /** Polling never drifts: k polls after being loaded at second L, the last clock is L + (k - 1) * I exactly. */
  lemma {:induction false} NoDrift(loaded: int, interval: nat, turns: seq<int>)
    ensures LastAfter(loaded - interval, interval, turns)
         == loaded + interval * (Polls(loaded - interval, interval, turns) - 1)
  {
    if turns != [] {
      var n := |turns| - 1;
      NoDrift(loaded, interval, turns[..n]);
      Distribute(interval, Polls(loaded - interval, interval, turns[..n]) - 1, 1);
    }
  }

  /** Turns come in time order, none before the module was loaded. */
  predicate Ordered(loaded: int, turns: seq<int>) {
    && (forall i :: 0 <= i < |turns| ==> loaded <= turns[i])
    && (forall i :: 0 < i < |turns| ==> turns[i - 1] <= turns[i])
  }

  /** The first turn comes within an interval, and no gap between turns is longer. */
  predicate Frequent(loaded: int, interval: nat, turns: seq<int>) {
    && (turns != [] ==> turns[0] < loaded + interval)
    && (forall i :: 0 < i < |turns| ==> turns[i] <= turns[i - 1] + interval)
  }

  /** The last clock never passes the turn it was set in; with frequent turns it is never an interval behind. */
  lemma {:induction false} LastClockBounds(loaded: int, interval: pos, turns: seq<int>)
    requires Ordered(loaded, turns) && turns != []
    ensures var last := LastAfter(loaded - interval, interval, turns);
            && last <= turns[|turns| - 1]
            && (Frequent(loaded, interval, turns) ==> turns[|turns| - 1] < last + interval)
  {
    if |turns| > 1 {
      LastClockBounds(loaded, interval, turns[..|turns| - 1]);
    }
  }

  /** By the second t of the last turn, a module of interval I loaded at L was polled at most (t - L) / I + 1 times,
      and exactly that often when turns are frequent enough. */
  lemma PollCount(loaded: int, interval: pos, turns: seq<int>)
    requires Ordered(loaded, turns) && turns != []
    ensures var bound := (turns[|turns| - 1] - loaded) / interval + 1;
            && Polls(loaded - interval, interval, turns) <= bound
            && (Frequent(loaded, interval, turns) ==> Polls(loaded - interval, interval, turns) == bound)
  {
    var k, x := Polls(loaded - interval, interval, turns), turns[|turns| - 1] - loaded;
    NoDrift(loaded, interval, turns);
    LastClockBounds(loaded, interval, turns);
    Distribute(interval, k - 1, 1);
    FloorDivision(x, interval, k - 1);
  }

  // ---------- The eviction horizon ----------

  function Seconds(turns: seq<Timeval>): (r: seq<int>)
    ensures |r| == |turns| && forall i :: 0 <= i < |r| ==> r[i] == turns[i].sec
  {
    if turns == [] then [] else Seconds(turns[..|turns| - 1]) + [turns[|turns| - 1].sec]
  }

  /** The last clock of a module, loaded at second `loaded`, as turn i begins */
  function LastBefore(loaded: int, interval: nat, turns: seq<Timeval>, i: nat): int
    requires i <= |turns|
  {
    LastAfter(loaded - interval, interval, Seconds(turns[..i]))
  }

  /** Turn i polls the module. */
  predicate PolledAt(loaded: int, interval: nat, turns: seq<Timeval>, i: nat)
    requires i < |turns|
  {
    Due(LastBefore(loaded, interval, turns, i), interval, turns[i].sec)
  }

  /** Turn i polls the module, and none does from there up to turn j. */
  predicate WaitsFrom(loaded: int, interval: nat, turns: seq<Timeval>, i: nat, j: nat) {
    && i < j < |turns| && PolledAt(loaded, interval, turns, i)
    && forall k :: i < k < j ==> !PolledAt(loaded, interval, turns, k)
  }

  /** Turns come in time order, at most an interval apart. */
  predicate CloseTurns(interval: nat, turns: seq<Timeval>) {
    forall k :: 0 < k < |turns| ==>
      Micros(turns[k - 1]) <= Micros(turns[k]) <= Micros(turns[k - 1]) + 1_000_000 * interval
  }

  lemma LastStep(loaded: int, interval: nat, turns: seq<Timeval>, i: nat)
    requires i < |turns|
    ensures LastBefore(loaded, interval, turns, i + 1)
         == Next(LastBefore(loaded, interval, turns, i), interval, turns[i].sec)
  {
    var seconds := Seconds(turns[..i + 1]);
    assert turns[..i + 1][..i] == turns[..i];
    assert seconds[..|seconds| - 1] == Seconds(turns[..i]) && seconds[|seconds| - 1] == turns[i].sec;
  }

  /** While the module waits its clock stays where the poll put it. */
  lemma {:induction false} LastWaits(loaded: int, interval: nat, turns: seq<Timeval>, i: nat, j: nat)
    requires WaitsFrom(loaded, interval, turns, i, j)
    ensures LastBefore(loaded, interval, turns, j) == LastBefore(loaded, interval, turns, i) + interval
    decreases j
  {
    hide LastAfter, Seconds;
    LastStep(loaded, interval, turns, j - 1);
    if i + 1 < j {
      LastWaits(loaded, interval, turns, i, j - 1);
      assert !PolledAt(loaded, interval, turns, j - 1);
    }
  }

  /** The next poll comes less than two intervals after this one. */
  lemma NextPollIsNear(loaded: int, interval: pos, turns: seq<Timeval>, i: nat, j: nat)
    requires WaitsFrom(loaded, interval, turns, i, j) && CloseTurns(interval, turns)
    ensures Micros(turns[j]) < Micros(turns[i]) + 2_000_000 * interval
  {
    hide LastAfter, Seconds;
    assert Micros(turns[j]) <= Micros(turns[j - 1]) + 1_000_000 * interval;
    if i < j - 1 {
      LastWaits(loaded, interval, turns, i, j - 1);
      assert !PolledAt(loaded, interval, turns, j - 1);
    }
  }

  /** The periodic eviction keeps exactly the samples that are at most three global poll intervals old. */
  lemma EvictionHorizon(cfg: Config, a: Agent, sample: Metric, now: Timeval)
    requires Near(sample.clock, now.(sec := now.sec - 3 * cfg.pollInterval))
    ensures sample in Evict(cfg, a, now).store.delta
       <==> sample in a.store.delta && Micros(sample.clock) >= Micros(now) - 3_000_000 * cfg.pollInterval
  {
    var horizon := now.(sec := now.sec - 3 * cfg.pollInterval);
    TimeCmpOrders(sample.clock, horizon);
    KeptMembers(a.store.delta, Stale(horizon));
    assert Evict(cfg, a, now).store.delta == Kept(a.store.delta, Stale(horizon));
  }

  /** The event empties the store: a flush, or a 4xx answer that is not the first. */
  predicate FlushesStore(a: Agent, ev: Event) {
    ev.Flushes? || (Rejects(a, ev) && a.backoffCount > 0)
  }

  /** The event neither pushes a metric of the key nor empties the store; if it is an update, it evicts at a time that
      the 32-bit comparison can tell from the sample's, and no later than `until`. */
  predicate Spares(cfg: Config, a: Agent, ev: Event, sample: Metric, until: Timeval) {
    && !FlushesStore(a, ev)
    && OfKey(MetricsOf(ev), sample.Key()) == []
    && (ev.Updates? ==>
          Micros(ev.now) <= Micros(until) && Near(sample.clock, ev.now.(sec := ev.now.sec - 3 * cfg.pollInterval)))
  }

  lemma SparedStep(cfg: Config, a: Agent, ev: Event, sample: Metric, until: Timeval)
    requires sample.IsDelta() && OfKey(a.store.delta, sample.Key()) == [sample] && Spares(cfg, a, ev, sample, until)
    requires Micros(until) <= Micros(sample.clock) + 3_000_000 * cfg.pollInterval
    ensures OfKey(Step(cfg, a, ev).store.delta, sample.Key()) == [sample]
  {
    hide Step, Receive;
    var k := sample.Key();
    assert OfKey(Pushes(a, ev), k) == [] by {
      AllocatedSame(a.store.next, MetricsOf(ev), k);
    }
    assert Longer([sample], a, ev, k) == [sample];
    if ev.Updates? {
      TimeCmpOrders(sample.clock, ev.now.(sec := ev.now.sec - 3 * cfg.pollInterval));
    }
    StepKeepsLatest(cfg, a, ev, [sample], k);
  }

  /** A sample taken in turn i, at its clock or later, stays in `delta` through every run of events up to the module's
      next poll in turn j, sends, answers and evictions among them, unless the store is flushed: the module's interval
      is at most the global one, and turns are at most that interval apart. */
  lemma {:induction false} SampleOutlivesWait(cfg: Config, a: Agent, evs: seq<Event>, loaded: int, interval: pos,
                                              turns: seq<Timeval>, i: nat, j: nat, sample: Metric)
    requires WaitsFrom(loaded, interval, turns, i, j) && CloseTurns(interval, turns) && interval <= cfg.pollInterval
    requires sample.IsDelta() && Micros(turns[i]) <= Micros(sample.clock)
    requires OfKey(a.store.delta, sample.Key()) == [sample]
    requires forall n :: 0 <= n < |evs| ==> Spares(cfg, Run(cfg, a, evs[..n]), evs[n], sample, turns[j])
    ensures OfKey(Run(cfg, a, evs).store.delta, sample.Key()) == [sample]
    decreases |evs|
  {
    hide Spares, Step;
    if evs != [] {
      var n := |evs| - 1;
      forall m | 0 <= m < n
        ensures Spares(cfg, Run(cfg, a, evs[..n][..m]), evs[..n][m], sample, turns[j])
      {
        assert evs[..n][..m] == evs[..m] && evs[..n][m] == evs[m];
      }
      SampleOutlivesWait(cfg, a, evs[..n], loaded, interval, turns, i, j, sample);
      NextPollIsNear(loaded, interval, turns, i, j);
      assert Spares(cfg, Run(cfg, a, evs[..n]), evs[n], sample, turns[j]);
      SparedStep(cfg, Run(cfg, a, evs[..n]), evs[n], sample, turns[j]);
    }
  }

  // ---------- Samples in the main loop ----------

  /** When the turns of a loop begin */
  function Nows(turns: seq<Turn>): (r: seq<Timeval>)
    ensures |r| == |turns| && forall t :: 0 <= t < |r| ==> r[t] == turns[t].now
  {
    if turns == [] then [] else Nows(turns[..|turns| - 1]) + [turns[|turns| - 1].now]
  }

  /** Some turns in the middle of a loop, and when they evict */
  lemma MiddleTurns(turns: seq<Turn>, i: nat, j: nat)
    requires Loop(turns) && i < j < |turns|
    ensures Loop(turns[i..j]) && EvictWithin(turns[i..j], turns[i].now, turns[j].now)
  {
    var middle := turns[i..j];
    forall t | 0 < t < |middle|
      ensures InOrder(middle[t - 1], middle[t])
    {
      assert InOrder(turns[i + t - 1], turns[i + t]);
    }
    forall t | 0 <= t < |middle|
      ensures Quiet(middle[t]) && Micros(turns[i].now) <= Micros(middle[t].evictAt) <= Micros(turns[j].now)
    {
      assert Quiet(turns[i + t]) && InOrder(turns[i + t], turns[i + t + 1]);
      ClockChain(turns, i, i + t);
      ClockChain(turns, i + t + 1, j);
    }
  }

  /** The event neither pushes a metric of the key nor empties the store. */
  predicate LeavesAlone(a: Agent, ev: Event, k: Key) {
    !FlushesStore(a, ev) && OfKey(MetricsOf(ev), k) == []
  }

  /** A sample that turn i of the main loop takes stays in `delta` through everything the loop serves up to turn j, in
      which its module is polled next: through the loop's own updates, whose evictions read the clock in between, unless
      the store is flushed. */
  lemma SampleOutlivesLoop(cfg: Config, a: Agent, tick: nat, turns: seq<Turn>, loaded: int, interval: pos,
                           i: nat, j: nat, sample: Metric)
    requires Loop(turns) && WaitsFrom(loaded, interval, Nows(turns), i, j) && CloseTurns(interval, Nows(turns))
    requires interval <= cfg.pollInterval && 5 * cfg.pollInterval < 0x8000_0000
    requires sample.IsDelta() && Micros(turns[i].now) <= Micros(sample.clock) <= Micros(turns[j].now)
    requires OfKey(a.store.delta, sample.Key()) == [sample]
    requires var evs := AfterPolls(cfg, a, tick, turns[i..j]);
             forall n :: 0 <= n < |evs| ==> LeavesAlone(Run(cfg, a, evs[..n]), evs[n], sample.Key())
    ensures AfterPolls(cfg, a, tick, turns[i..j]) <= AfterPolls(cfg, a, tick, turns[i..])
    ensures OfKey(Run(cfg, a, AfterPolls(cfg, a, tick, turns[i..j])).store.delta, sample.Key()) == [sample]
  {
    hide Run, AfterPolls, LeavesAlone, MetricsOf, OfKey, WaitsFrom, Loop;
    var nows := Nows(turns);
    WaitsInside(loaded, interval, nows, i, j);
    var evs := AfterPolls(cfg, a, tick, turns[i..j]);
    assert turns[i..][..j - i] == turns[i..j];
    PollsPrefix(cfg, a, tick, turns[i..], j - i);
    MiddleTurns(turns, i, j);
    PollsUpdate(cfg, a, tick, turns[i..j], turns[i].now, turns[j].now);
    NextPollIsNear(loaded, interval, nows, i, j);
    forall n | 0 <= n < |evs|
      ensures Spares(cfg, Run(cfg, a, evs[..n]), evs[n], sample, nows[j])
    {
      assert evs[n] in evs && UpdateWithin(evs[n], turns[i].now, turns[j].now);
      SparedByLoop(cfg, Run(cfg, a, evs[..n]), evs[n], sample, turns[i].now, turns[j].now, interval);
    }
    SampleOutlivesWait(cfg, a, evs, loaded, interval, nows, i, j, sample);
  }

  lemma WaitsInside(loaded: int, interval: nat, turns: seq<Timeval>, i: nat, j: nat)
    requires WaitsFrom(loaded, interval, turns, i, j)
    ensures i < j < |turns|
  {}

  lemma SparedByLoop(cfg: Config, a: Agent, ev: Event, sample: Metric, from: Timeval, until: Timeval, interval: pos)
    requires LeavesAlone(a, ev, sample.Key()) && UpdateWithin(ev, from, until)
    requires interval <= cfg.pollInterval && 5 * cfg.pollInterval < 0x8000_0000
    requires Micros(from) <= Micros(sample.clock) <= Micros(until) < Micros(from) + 2_000_000 * interval
    ensures Spares(cfg, a, ev, sample, until)
  {}
}
