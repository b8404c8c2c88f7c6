/** The pace of the main loop over whole runs: backoff, the next update, and the periodic gate. */
module Backoffs {
  import opened Metrics
  import opened Numbers
  import opened AgentSpec

  function Min(a: nat, b: nat): nat {
    if a < b then a else b
  }

  predicate Rejects(a: Agent, ev: Event) {
    ev.Answered? && Known(a, ev) && ev.transferred && 400 <= ev.code < 500
  }

  predicate Resets(a: Agent, ev: Event) {
    ev.Answered? && Known(a, ev) && (!ev.transferred || ev.code >= 500 || ev.code == 200)
  }

  predicate Performs(cfg: Config, a: Agent, ev: Event) {
    ev.Updates? && a.lastUpdate.sec + cfg.updateInterval <= ev.clock.sec
  }

  /** How many 4xx answers came since the last reset */
  function Streak(cfg: Config, a: Agent, evs: seq<Event>): nat {
    if evs == [] then 0
    else
      var n := |evs| - 1;
      var b := Run(cfg, a, evs[..n]);
      if Rejects(b, evs[n]) then Streak(cfg, a, evs[..n]) + 1
      else if Resets(b, evs[n]) then 0
      else Streak(cfg, a, evs[..n])
  }

  /** The delay a 4xx answer adds after `streak` others: none for the first, then powers of two of the interval */
  function Delay(interval: nat, streak: nat): nat {
    interval * Factor(BACKOFF_COUNT_MAX, streak)
  }

  function Factor(cap: nat, streak: nat): nat {
    if streak == 0 then 0 else Pow2(Min(cap, streak))
  }

  lemma FactorCapped(cap: pos, streak: nat)
    ensures Factor(cap, Min(cap, streak)) == Factor(cap, streak)
  {}

  /** All the delays of a run */
  function Delays(cfg: Config, a: Agent, evs: seq<Event>): nat {
    if evs == [] then 0
    else
      var n := |evs| - 1;
      Delays(cfg, a, evs[..n])
      + if Rejects(Run(cfg, a, evs[..n]), evs[n]) then Delay(cfg.updateInterval, Streak(cfg, a, evs[..n])) else 0
  }

  /** All the ticks of a run */
  function TickSum(evs: seq<Event>): nat {
    if evs == [] then 0
    else TickSum(evs[..|evs| - 1]) + if evs[|evs| - 1].Ticks? then evs[|evs| - 1].tick else 0
  }

  /** What rebasing the next update onto the clock adds, when the process had been stopped */
  function Shift(a: Agent, ev: Event): nat {
    if ev.Ticks? && a.nextUpdate + ev.tick < ev.second then ev.second - (a.nextUpdate + ev.tick) else 0
  }

  function Shifts(cfg: Config, a: Agent, evs: seq<Event>): nat {
    if evs == [] then 0
    else Shifts(cfg, a, evs[..|evs| - 1]) + Shift(Run(cfg, a, evs[..|evs| - 1]), evs[|evs| - 1])
  }

  /** In every run the backoff count is the number of 4xx answers since the last reset, up to 15. */
  lemma {:induction false} CountIsStreak(cfg: Config, a: Agent, evs: seq<Event>)
    requires a.backoffCount == 0
    ensures Run(cfg, a, evs).backoffCount == Min(15, Streak(cfg, a, evs))
  {
    if evs != [] {
      CountIsStreak(cfg, a, evs[..|evs| - 1]);
    }
  }

  lemma StepNextUpdate(cfg: Config, a: Agent, ev: Event)
    requires a.backoffCount <= BACKOFF_COUNT_MAX
    ensures Step(cfg, a, ev).nextUpdate == a.nextUpdate
              + (if ev.Ticks? then ev.tick else 0)
              + (if Rejects(a, ev) then cfg.updateInterval * Factor(BACKOFF_COUNT_MAX, a.backoffCount) else 0)
              + Shift(a, ev)
  {}

  /** In every run the next update is the start plus all ticks, all backoff delays and all rebasing shifts: it is
      never earlier than the ticks and the delays make it. */
  lemma {:induction false} NextUpdateAccounts(cfg: Config, a: Agent, evs: seq<Event>)
    requires a.backoffCount == 0
    ensures Run(cfg, a, evs).nextUpdate
         == a.nextUpdate + TickSum(evs) + Delays(cfg, a, evs) + Shifts(cfg, a, evs)
  {
    if evs != [] {
      var n := |evs| - 1;
      NextUpdateAccounts(cfg, a, evs[..n]);
      CountIsStreak(cfg, a, evs[..n]);
      StepNextUpdate(cfg, Run(cfg, a, evs[..n]), evs[n]);
      FactorCapped(BACKOFF_COUNT_MAX, Streak(cfg, a, evs[..n]));
    }
  }

  /** The main loop begins a turn, but for the first, only once the clock has reached the next update. */
  predicate Paced(cfg: Config, a: Agent, evs: seq<Event>) {
    forall n :: 0 <= n < |evs| && evs[n].Ticks? && TickCount(evs[..n]) > 0 ==>
      evs[n].second >= Run(cfg, a, evs[..n]).nextUpdate
  }

  function TickCount(evs: seq<Event>): nat {
    if evs == [] then 0 else TickCount(evs[..|evs| - 1]) + if evs[|evs| - 1].Ticks? then 1 else 0
  }

  /** So a turn never begins before the start plus every tick and every delay so far. */
  lemma TurnsArePaced(cfg: Config, a: Agent, evs: seq<Event>, n: nat)
    requires a.backoffCount == 0 && Paced(cfg, a, evs)
    requires n < |evs| && evs[n].Ticks? && TickCount(evs[..n]) > 0
    ensures evs[n].second >= a.nextUpdate + TickSum(evs[..n]) + Delays(cfg, a, evs[..n])
  {
    NextUpdateAccounts(cfg, a, evs[..n]);
  }

  lemma RejectionStep(cfg: Config, a: Agent, ev: Event)
    requires Rejects(a, ev)
    ensures var s := Step(cfg, a, ev).store;
            if a.backoffCount > 0 then s.current == [] && s.delta == [] && s.cache == [] else s == a.store
  {}

  /** After a 4xx answer that is not the first since the last reset the store is empty; the first leaves it alone. */
  lemma RejectionFlushes(cfg: Config, a: Agent, evs: seq<Event>)
    requires a.backoffCount == 0 && evs != []
    requires var n := |evs| - 1; Rejects(Run(cfg, a, evs[..n]), evs[n])
    ensures var n := |evs| - 1; var before, s := Run(cfg, a, evs[..n]).store, Run(cfg, a, evs).store;
            if Streak(cfg, a, evs[..n]) > 0 then s.current == [] && s.delta == [] && s.cache == [] else s == before
  {
    hide Step, Rejects;
    var n := |evs| - 1;
    CountIsStreak(cfg, a, evs[..n]);
    RejectionStep(cfg, Run(cfg, a, evs[..n]), evs[n]);
  }

  // ---------- The closed form ----------

  /** The delay of k 4xx answers without a reset, in update intervals */
  function TotalFactor(cap: nat, k: nat): nat {
    if k == 0 then 0 else TotalFactor(cap, k - 1) + Factor(cap, k - 1)
  }

  /** It is 2^k - 2 until the exponent reaches its cap, and grows by 2^cap an answer from there. */
  lemma {:induction false} TotalFactorClosedForm(cap: pos, k: nat)
    ensures k <= 1 ==> TotalFactor(cap, k) == 0
    ensures 2 <= k <= cap + 1 ==> TotalFactor(cap, k) == Pow2(k) - 2
    ensures k > cap + 1 ==> TotalFactor(cap, k) == Pow2(cap + 1) - 2 + (k - cap - 1) * Pow2(cap)
  {
    if k > 0 {
      TotalFactorClosedForm(cap, k - 1);
    }
    if k == 2 {
      assert TotalFactor(cap, 2) == TotalFactor(cap, 1) + Factor(cap, 1) && Pow2(1) == 2 && Pow2(2) == 4;
    }
    if k > cap + 1 {
      assert (k - cap - 1) * Pow2(cap) == (k - 1 - cap - 1) * Pow2(cap) + Pow2(cap);
    }
  }

  /** In a run without resets, the delays are those of its 4xx answers. */
  lemma {:induction false} DelaysWithoutReset(cfg: Config, a: Agent, evs: seq<Event>)
    requires forall n :: 0 <= n < |evs| ==> !Resets(Run(cfg, a, evs[..n]), evs[n])
    ensures Delays(cfg, a, evs) == cfg.updateInterval * TotalFactor(BACKOFF_COUNT_MAX, Streak(cfg, a, evs))
  {
    hide Run, Factor, Resets, Rejects;
    if evs != [] {
      var n := |evs| - 1;
      var front := evs[..n];
      forall i | 0 <= i < n
        ensures !Resets(Run(cfg, a, front[..i]), front[i])
      {
        assert front[..i] == evs[..i] && front[i] == evs[i];
      }
      DelaysWithoutReset(cfg, a, front);
      assert !Resets(Run(cfg, a, evs[..n]), evs[n]);
      var k := Streak(cfg, a, front);
      Distribute(cfg.updateInterval, TotalFactor(BACKOFF_COUNT_MAX, k), Factor(BACKOFF_COUNT_MAX, k));
    }
  }

  /** ... in figures: none after one 4xx answer, 2^k - 2 update intervals after k of them up to 16, and 2^15 more for
      each one beyond. */
  lemma DelaysInFigures(cfg: Config, a: Agent, evs: seq<Event>)
    requires forall n :: 0 <= n < |evs| ==> !Resets(Run(cfg, a, evs[..n]), evs[n])
    ensures var k := Streak(cfg, a, evs);
            Delays(cfg, a, evs) == cfg.updateInterval * (if k <= 1 then 0
                                                         else if k <= 16 then Pow2(k) - 2
                                                         else 65534 + (k - 16) * 32768)
  {
    DelaysWithoutReset(cfg, a, evs);
    TotalFactorClosedForm(BACKOFF_COUNT_MAX, Streak(cfg, a, evs));
    PowersOfTwo();
  }

  lemma PowersOfTwo()
    ensures Pow2(15) == 32768 && Pow2(16) == 65536
  {
    assert Pow2(4) == 16 && Pow2(8) == 256 && Pow2(12) == 4096 && Pow2(15) == 32768;
  }

  // ---------- The periodic gate ----------

  function Performed(cfg: Config, a: Agent, evs: seq<Event>): nat {
    if evs == [] then 0
    else
      var n := |evs| - 1;
      Performed(cfg, a, evs[..n]) + if Performs(cfg, Run(cfg, a, evs[..n]), evs[n]) then 1 else 0
  }

  lemma StepSpacing(cfg: Config, a: Agent, ev: Event)
    ensures Step(cfg, a, ev).lastUpdate.sec
            >= a.lastUpdate.sec + if Performs(cfg, a, ev) then cfg.updateInterval else 0
  {}

  /** Updates are at least an interval apart, so by any time no more are performed than intervals have passed. */
  lemma {:induction false} UpdatesAreSpaced(cfg: Config, a: Agent, evs: seq<Event>)
    ensures a.lastUpdate.sec + cfg.updateInterval * Performed(cfg, a, evs) <= Run(cfg, a, evs).lastUpdate.sec
  {
    if evs != [] {
      var n := |evs| - 1;
      UpdatesAreSpaced(cfg, a, evs[..n]);
      StepSpacing(cfg, Run(cfg, a, evs[..n]), evs[n]);
      Distribute(cfg.updateInterval, Performed(cfg, a, evs[..n]), 1);
    }
  }
}
