/** The main loop as it runs, over a clock and a poll that serve what they like. */
module MainLoops {
  import opened Wrappers
  import opened Metrics
  import opened MetricLists
  import opened Agents
  import opened AgentSpec
  import opened Backoffs
  import opened Sequences
  import opened Turns

  // ---------- One event ----------

  /** A list of records of its own, for metrics that come in together */
  method NewList(ms: seq<Metric>, rec: nat) returns (list: MetricList)
    ensures fresh(list) && fresh(list.repr) && list.Valid() && list.contents == Allocated(rec, ms)
  {
    hide MetricList.Valid, Allocated;
    list := new MetricList();
    assert ms[0..] == ms && list.contents + Allocated(rec, ms) == Allocated(rec, ms);
    for i := 0 to |ms|
      invariant fresh(list) && fresh(list.repr) && list.Valid()
      invariant list.contents + Allocated(rec + i, ms[i..]) == Allocated(rec, ms)
    {
      AllocatedStep(list.contents, rec, ms, i);
      list.Push(ms[i].(rec := rec + i));
    }
    assert ms[|ms|..] == [];
    AllocatedStep(list.contents, rec, ms, |ms|);
  }

  lemma AllocatedStep(done: seq<Metric>, rec: nat, ms: seq<Metric>, i: nat)
    requires i <= |ms|
    ensures done + Allocated(rec + i, ms[i..])
         == if i == |ms| then done else done + [ms[i].(rec := rec + i)] + Allocated(rec + i + 1, ms[i + 1..])
  {
    if i < |ms| {
      assert ms[i..][1..] == ms[i + 1..];
    }
  }

  lemma {:induction false} AllocatedTwice(next: nat, ms: seq<Metric>)
    ensures |Allocated(next, ms)| == |ms| && Allocated(next, Allocated(next, ms)) == Allocated(next, ms)
    decreases |ms|
  {
    if ms != [] {
      AllocatedTwice(next + 1, ms[1..]);
      assert Allocated(next, ms)[1..] == Allocated(next + 1, ms[1..]);
    }
  }

  /** A list comes in as a list of pushes does. */
  lemma ReceiveAllocated(a: Agent, ms: seq<Metric>)
    ensures Receive(a, Allocated(a.store.next, ms)) == Receive(a, ms)
  {
    AllocatedTwice(a.store.next, ms);
  }

  method ReceiveList(agent: Monikor, ms: seq<Metric>)
    requires agent.Valid()
    modifies agent`exits, agent.metrics, agent.metrics.Lists(), agent.metrics.repr
    ensures fresh(agent.metrics.repr - old(agent.metrics.repr))
    ensures agent.Valid() && agent.State() == Receive(old(agent.State()), ms)
  {
    hide Receive, Allocated, Flight;
    AllocatedTwice(agent.metrics.next, ms);
    ReceiveAllocated(agent.State(), ms);
    var list := NewList(ms, agent.metrics.next);
    agent.LpushRecords(list, |ms|);
  }

  /** The agent serves one event. */
  method Serve(agent: Monikor, ev: Event)
    requires agent.Valid()
    modifies agent, agent.metrics, agent.metrics.Lists(), agent.metrics.repr, agent.owned, agent.nodes
    ensures fresh(agent.owned - old(agent.owned)) && fresh(agent.nodes - old(agent.nodes))
    ensures fresh(agent.metrics.repr - old(agent.metrics.repr + agent.nodes))
    ensures agent.Valid() && agent.State() == Step(agent.config, old(agent.State()), ev)
  {
    hide Receive, SendAll, Update, Answer, Flight;
    match ev
    case Ticks(tick, second) => agent.Tick(tick, second);
    case Pushed(m) => var n := agent.PushMetric(Some(m));
    case Received(ms) => ReceiveList(agent, ms);
    case Updates(clock, now, attempt) => agent.Update(clock, now, attempt);
    case Sends(attempt) => agent.SendAllMetrics(attempt);
    case Flushes => agent.FlushAll();
    case Answered(i, transferred, code) =>
      InFlight(agent);
      if i < |agent.inFlight| {
        agent.HandleServerResponse(i, transferred, code);
      }
  }

  lemma InFlight(agent: Monikor)
    requires agent.Valid()
    ensures |agent.inFlight| == |agent.batches|
  {}

  // ---------- The loop ----------

  method ServeAll(agent: Monikor, evs: seq<Event>)
    requires agent.Valid()
    modifies agent, agent.metrics, agent.metrics.Lists(), agent.metrics.repr, agent.owned, agent.nodes
    ensures fresh(agent.owned - old(agent.owned)) && fresh(agent.nodes - old(agent.nodes))
    ensures fresh(agent.metrics.repr - old(agent.metrics.repr + agent.nodes))
    ensures agent.Valid() && agent.State() == Run(agent.config, old(agent.State()), evs)
  {
    hide Step, Monikor.Valid, Monikor.State;
    for i := 0 to |evs|
      invariant fresh(agent.owned - old(agent.owned)) && fresh(agent.nodes - old(agent.nodes))
      invariant fresh(agent.metrics.repr - old(agent.metrics.repr + agent.nodes))
      invariant agent.Valid() && agent.State() == Run(agent.config, old(agent.State()), evs[..i])
    {
      assert evs[..i + 1][..i] == evs[..i];
      Serve(agent, evs[i]);
    }
    assert evs[..|evs|] == evs;
  }

  /** The do-while of the main loop, for as many rounds as there are */
  method Wait(agent: Monikor, rounds: seq<Round>) returns (over: bool, ghost evs: seq<Event>, ghost n: nat)
    requires agent.Valid()
    modifies agent, agent.metrics, agent.metrics.Lists(), agent.metrics.repr, agent.owned, agent.nodes
    ensures fresh(agent.owned - old(agent.owned)) && fresh(agent.nodes - old(agent.nodes))
    ensures fresh(agent.metrics.repr - old(agent.metrics.repr + agent.nodes))
    ensures (over, evs) == Waited(agent.config, old(agent.State()), rounds)
    ensures WaitOf(agent.config, old(agent.State()), rounds, n, over) && evs == ServedIn(rounds[..n])
    ensures agent.Valid() && agent.State() == Run(agent.config, old(agent.State()), evs)
  {
    hide Run, Waited, WaitOf, ServedIn, Monikor.Valid, Monikor.State;
    evs := [];
    ghost var start := agent.State();
    n := WaitedTells(agent.config, start, rounds);
    RunNone(agent.config, start);
    LaterNone(Waited(agent.config, start, rounds));
    assert rounds[0..] == rounds;
    for i := 0 to |rounds|
      invariant fresh(agent.owned - old(agent.owned)) && fresh(agent.nodes - old(agent.nodes))
      invariant fresh(agent.metrics.repr - old(agent.metrics.repr + agent.nodes))
      invariant agent.Valid() && agent.State() == Run(agent.config, start, evs)
      invariant Waited(agent.config, start, rounds) == Later(evs, Waited(agent.config, agent.State(), rounds[i..]))
    {
      var second := rounds[i].second;
      WaitedStep(agent.config, agent.State(), rounds, i, evs);
      RunConcat(agent.config, start, evs, rounds[i].served);
      ServeAll(agent, rounds[i].served);
      NextUpdateOf(agent);
      evs := evs + rounds[i].served;
      if !(second < agent.nextUpdate) {
        return true, evs, n;
      }
    }
    WaitedNone(agent.config, agent.State(), evs);
    assert rounds[|rounds|..] == [];
    return false, evs, n;
  }

  /** What is served later, behind what was served already */
  function Later(evs: seq<Event>, w: (bool, seq<Event>)): (bool, seq<Event>) {
    (w.0, evs + w.1)
  }

  lemma WaitedStep(cfg: Config, a: Agent, rounds: seq<Round>, i: nat, evs: seq<Event>)
    requires i < |rounds|
    ensures var b := Run(cfg, a, rounds[i].served);
            Later(evs, Waited(cfg, a, rounds[i..]))
            == if rounds[i].second < b.nextUpdate
               then Later(evs + rounds[i].served, Waited(cfg, b, rounds[i + 1..]))
               else (true, evs + rounds[i].served)
  {
    hide Run;
    var b := Run(cfg, a, rounds[i].served);
    var rest := Waited(cfg, b, rounds[i + 1..]).1;
    assert rounds[i..][1..] == rounds[i + 1..];
    assert evs + (rounds[i].served + rest) == evs + rounds[i].served + rest;
  }

  lemma LaterNone(w: (bool, seq<Event>))
    ensures Later([], w) == w
  {
    assert [] + w.1 == w.1;
  }

  lemma WaitedNone(cfg: Config, a: Agent, evs: seq<Event>)
    ensures Later(evs, Waited(cfg, a, [])) == (false, evs)
  {
    assert evs + [] == evs;
  }

  lemma NextUpdateOf(agent: Monikor)
    ensures agent.State().nextUpdate == agent.nextUpdate
  {}

  /** The head of a turn: the tick, what the modules push, the update */
  method Begin(agent: Monikor, tick: nat, turn: Turn)
    requires agent.Valid()
    modifies agent, agent.metrics, agent.metrics.Lists(), agent.metrics.repr, agent.owned, agent.nodes
    ensures fresh(agent.owned - old(agent.owned)) && fresh(agent.nodes - old(agent.nodes))
    ensures fresh(agent.metrics.repr - old(agent.metrics.repr + agent.nodes))
    ensures agent.Valid()
    ensures var cfg := agent.config;
            var polled := Run(cfg, Step(cfg, old(agent.State()), Ticks(tick, turn.now.sec)), turn.polled);
            agent.State() == Step(cfg, polled, Updates(turn.now, turn.evictAt, turn.attempt))
    ensures agent.State() == Run(agent.config, old(agent.State()), Begins(tick, turn) + Updating(turn))
  {
    hide Run, Step, Monikor.Valid, Monikor.State;
    ghost var a, cfg := agent.State(), agent.config;
    ghost var ticks, updates := Ticks(tick, turn.now.sec), Updates(turn.now, turn.evictAt, turn.attempt);
    RunOne(cfg, a, ticks);
    RunConcat(cfg, a, [ticks], turn.polled);
    RunConcat(cfg, a, Begins(tick, turn), Updating(turn));
    RunOne(cfg, Run(cfg, a, Begins(tick, turn)), updates);
    Serve(agent, Ticks(tick, turn.now.sec));
    ServeAll(agent, turn.polled);
    Serve(agent, Updates(turn.now, turn.evictAt, turn.attempt));
  }

  /** One turn of the main loop, its wait included */
  method TakeTurn(agent: Monikor, tick: nat, turn: Turn) returns (over: bool, ghost evs: seq<Event>, ghost n: nat)
    requires agent.Valid()
    modifies agent, agent.metrics, agent.metrics.Lists(), agent.metrics.repr, agent.owned, agent.nodes
    ensures fresh(agent.owned - old(agent.owned)) && fresh(agent.nodes - old(agent.nodes))
    ensures fresh(agent.metrics.repr - old(agent.metrics.repr + agent.nodes))
    ensures (over, evs) == OneTurn(agent.config, old(agent.State()), tick, turn)
    ensures n <= |turn.rounds|
    ensures evs == [Ticks(tick, turn.now.sec)] + turn.polled + [Updates(turn.now, turn.evictAt, turn.attempt)]
                   + ServedIn(turn.rounds[..n])
    ensures over <==> GoesOn(agent.State(), turn, n)
    ensures agent.Valid() && agent.State() == Run(agent.config, old(agent.State()), evs)
  {
    hide Run, Waited, WaitOf, ServedIn, Begins, Updating, Monikor.Valid, Monikor.State;
    ghost var front := Begins(tick, turn) + Updating(turn);
    n := OneTurnTells(agent.config, agent.State(), tick, turn);
    Begin(agent, tick, turn);
    ghost var waited, m;
    over, waited, m := Wait(agent, turn.rounds);
    RunConcat(agent.config, old(agent.State()), front, waited);
    evs := front + waited;
  }

  /** monikor_run, for as many turns as the clock gives it: it serves exactly what the turns say, as a run of the agent,
      and because of its wait no turn but the first begins before the start plus every tick and every backoff delay. */
  method RunTurns(agent: Monikor, tick: nat, turns: seq<Turn>)
    returns (ghost evs: seq<Event>, ghost parts: seq<seq<Event>>, ghost ns: seq<nat>)
    requires agent.Valid()
    modifies agent, agent.metrics, agent.metrics.Lists(), agent.metrics.repr, agent.owned, agent.nodes
    ensures evs == LoopEvents(agent.config, old(agent.State()), tick, turns) == Flatten(parts)
    ensures |parts| == |ns| <= |turns| && (turns != [] ==> parts != [])
    ensures forall t :: 0 <= t < |parts| ==>
              && ns[t] <= |turns[t].rounds|
              && parts[t] == [Ticks(tick, turns[t].now.sec)] + turns[t].polled
                             + [Updates(turns[t].now, turns[t].evictAt, turns[t].attempt)]
                             + ServedIn(turns[t].rounds[..ns[t]])
    ensures Reaches(agent.config, old(agent.State()), turns, parts, ns)
    ensures agent.Valid() && agent.State() == Run(agent.config, old(agent.State()), evs)
    ensures Loop(turns) ==> Paced(agent.config, old(agent.State()), evs)
    ensures Loop(turns) && old(agent.State()).backoffCount == 0 ==>
              forall n :: 0 <= n < |evs| && evs[n].Ticks? && TickCount(evs[..n]) > 0 ==>
                evs[n].second >= old(agent.State()).nextUpdate + TickSum(evs[..n])
                                 + Delays(agent.config, old(agent.State()), evs[..n])
  {
    hide *;
    evs := [];
    ghost var cfg, start := agent.config, agent.State();
    parts, ns := LoopServes(cfg, start, tick, turns);
    ServeTurnsTell(tick, turns, parts, ns);
    RunNone(cfg, start);
    if Loop(turns) {
      LoopIsPaced(cfg, start, tick, turns);
    }
    assert turns[0..] == turns && [] + LoopEvents(cfg, start, tick, turns) == LoopEvents(cfg, start, tick, turns);
    for t := 0 to |turns|
      invariant fresh(agent.owned - old(agent.owned)) && fresh(agent.nodes - old(agent.nodes))
      invariant fresh(agent.metrics.repr - old(agent.metrics.repr + agent.nodes))
      invariant agent.Valid() && agent.State() == Run(cfg, start, evs)
      invariant LoopEvents(cfg, start, tick, turns) == evs + LoopEvents(cfg, agent.State(), tick, turns[t..])
    {
      ghost var a, rest := agent.State(), turns[t..];
      LoopStep(cfg, a, tick, rest);
      var over;
      ghost var turned, n;
      over, turned, n := TakeTurn(agent, tick, turns[t]);
      RunConcat(cfg, start, evs, turned);
      LoopLater(cfg, agent.State(), tick, turns, t, evs, turned, over);
      evs := evs + turned;
      if !over {
        return;
      }
    }
    LoopNone(cfg, agent.State(), tick, evs);
    assert turns[|turns|..] == [];
  }

  lemma ServeTurnsTell(tick: nat, turns: seq<Turn>, parts: seq<seq<Event>>, ns: seq<nat>)
    requires ServeTurns(tick, turns, parts, ns)
    ensures |parts| == |ns| <= |turns| && (turns != [] ==> parts != [])
    ensures forall t :: 0 <= t < |parts| ==>
              && ns[t] <= |turns[t].rounds|
              && parts[t] == [Ticks(tick, turns[t].now.sec)] + turns[t].polled
                             + [Updates(turns[t].now, turns[t].evictAt, turns[t].attempt)]
                             + ServedIn(turns[t].rounds[..ns[t]])
  {}

  lemma LoopLater(cfg: Config, b: Agent, tick: nat, turns: seq<Turn>, t: nat, evs: seq<Event>, turned: seq<Event>,
                  over: bool)
    requires t < |turns|
    ensures turns[t..][1..] == turns[t + 1..]
    ensures var later := LoopEvents(cfg, b, tick, turns[t + 1..]);
            evs + (turned + if over then later else []) == if over then evs + turned + later else evs + turned
  {
    var later := LoopEvents(cfg, b, tick, turns[t + 1..]);
    assert evs + (turned + later) == evs + turned + later && evs + (turned + []) == evs + turned;
  }

  lemma LoopNone(cfg: Config, a: Agent, tick: nat, evs: seq<Event>)
    ensures evs + LoopEvents(cfg, a, tick, []) == evs
  {
    assert evs + [] == evs;
  }
}
