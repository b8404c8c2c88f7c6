/** The main loop as a list of events, determined by what the clock reads and what is polled and served. */
module Turns {
  import opened Metrics
  import opened Sequences
  import opened AgentSpec
  import opened Backoffs

  /** One round of the wait: what the clock reads, then what the poll serves */
  datatype Round = Round(second: int, served: seq<Event>)

  /** One turn: what the clock reads as it begins, what the modules push when polled, when the eviction reads the clock
      and how its send goes, and the rounds of its wait */
  datatype Turn = Turn(now: Timeval, polled: seq<Event>, evictAt: Timeval, attempt: Attempt, rounds: seq<Round>)

  function Begins(tick: nat, turn: Turn): seq<Event> {
    [Ticks(tick, turn.now.sec)] + turn.polled
  }

  function Updating(turn: Turn): seq<Event> {
    [Updates(turn.now, turn.evictAt, turn.attempt)]
  }

  /** Whether the wait is over after these rounds, and what it served: it reads the clock, then polls, until what it
      read has reached the next update. */
  function Waited(cfg: Config, a: Agent, rounds: seq<Round>): (bool, seq<Event>)
    decreases |rounds|
  {
    if rounds == [] then (false, [])
    else
      var b := Run(cfg, a, rounds[0].served);
      if rounds[0].second < b.nextUpdate then
        var rest := Waited(cfg, b, rounds[1..]);
        (rest.0, rounds[0].served + rest.1)
      else (true, rounds[0].served)
  }

  /** The first of these turns from its update on, and the others; a wait that is not over ends the list. */
  function AfterPolls(cfg: Config, a: Agent, tick: nat, turns: seq<Turn>): seq<Event>
    requires turns != []
    decreases |turns|, 0
  {
    var b := Run(cfg, a, Updating(turns[0]));
    var w := Waited(cfg, b, turns[0].rounds);
    Updating(turns[0]) + w.1 + if w.0 then LoopEvents(cfg, Run(cfg, b, w.1), tick, turns[1..]) else []
  }

  function LoopEvents(cfg: Config, a: Agent, tick: nat, turns: seq<Turn>): seq<Event>
    decreases |turns|, 1
  {
    if turns == [] then []
    else
      var begins := Begins(tick, turns[0]);
      begins + AfterPolls(cfg, Run(cfg, a, begins), tick, turns)
  }

  // ---------- Runs put together ----------

  lemma {:induction false} RunConcat(cfg: Config, a: Agent, x: seq<Event>, y: seq<Event>)
    ensures Run(cfg, a, x + y) == Run(cfg, Run(cfg, a, x), y)
  {
    if y == [] {
      assert x + y == x;
    } else {
      var n := |y| - 1;
      RunConcat(cfg, a, x, y[..n]);
      assert (x + y)[..|x + y| - 1] == x + y[..n] && (x + y)[|x + y| - 1] == y[n];
    }
  }

  lemma RunOne(cfg: Config, a: Agent, ev: Event)
    ensures Run(cfg, a, [ev]) == Step(cfg, a, ev)
  {
    assert [ev][..0] == [] && Run(cfg, a, [ev][..0]) == a;
  }

  lemma RunNone(cfg: Config, a: Agent)
    ensures Run(cfg, a, []) == a
  {}

  /** The first turns of a loop serve what begins the events of the whole loop. */
  lemma {:induction false} PollsPrefix(cfg: Config, a: Agent, tick: nat, turns: seq<Turn>, n: pos)
    requires n <= |turns|
    ensures AfterPolls(cfg, a, tick, turns[..n]) <= AfterPolls(cfg, a, tick, turns)
    decreases |turns|, 0
  {
    hide Run, Waited;
    var b := Run(cfg, a, Updating(turns[0]));
    var w := Waited(cfg, b, turns[0].rounds);
    assert turns[..n][1..] == turns[1..][..n - 1];
    if w.0 {
      LoopPrefix(cfg, Run(cfg, b, w.1), tick, turns[1..], n - 1);
    }
  }

  lemma {:induction false} LoopPrefix(cfg: Config, a: Agent, tick: nat, turns: seq<Turn>, n: nat)
    requires n <= |turns|
    ensures LoopEvents(cfg, a, tick, turns[..n]) <= LoopEvents(cfg, a, tick, turns)
    decreases |turns|, 1
  {
    hide Run;
    if n > 0 {
      PollsPrefix(cfg, Run(cfg, a, Begins(tick, turns[0])), tick, turns, n);
    }
  }

  // ---------- What is served ----------

  /** What the polls of these rounds serve */
  function ServedIn(rounds: seq<Round>): seq<Event> {
    if rounds == [] then [] else rounds[0].served + ServedIn(rounds[1..])
  }

  /** A wait of n rounds: each of them but the last read a clock before the next update, which the events it served may
      have moved; the last one too, if the wait is not over. */
  predicate WaitOf(cfg: Config, a: Agent, rounds: seq<Round>, n: nat, over: bool) {
    && n <= |rounds| && (if over then n > 0 else n == |rounds|)
    && forall i :: 0 <= i < n ==>
         (rounds[i].second < Run(cfg, a, ServedIn(rounds[..i + 1])).nextUpdate <==> i < n - 1 || !over)
  }

  lemma ServedCons(rounds: seq<Round>, i: nat)
    requires i < |rounds|
    ensures ServedIn(rounds[..i + 1]) == rounds[0].served + ServedIn(rounds[1..][..i])
  {
    assert rounds[..i + 1][1..] == rounds[1..][..i];
  }

  /** A wait serves its rounds, in order, up to the first whose reading has reached the next update. */
  lemma {:induction false} WaitedTells(cfg: Config, a: Agent, rounds: seq<Round>) returns (n: nat)
    ensures var w := Waited(cfg, a, rounds);
            WaitOf(cfg, a, rounds, n, w.0) && w.1 == ServedIn(rounds[..n])
    decreases |rounds|
  {
    hide Run;
    n := 0;
    if rounds != [] {
      var first, rest := rounds[0].served, rounds[1..];
      var b := Run(cfg, a, first);
      ServedCons(rounds, 0);
      assert first + [] == first;
      n := 1;
      if rounds[0].second < b.nextUpdate {
        var m := WaitedTells(cfg, b, rest);
        n := m + 1;
        ServedCons(rounds, m);
        forall i | 0 <= i < n
          ensures rounds[i].second < Run(cfg, a, ServedIn(rounds[..i + 1])).nextUpdate
             <==> i < n - 1 || !Waited(cfg, a, rounds).0
        {
          ServedCons(rounds, i);
          if i > 0 {
            RunConcat(cfg, a, first, ServedIn(rest[..i]));
            assert rest[..i - 1 + 1] == rest[..i] && rounds[i] == rest[i - 1];
          }
        }
      }
    }
  }

  /** These events, one sequence a turn, are what the turns reached serve: a tick, what the modules push, the update,
      and then what is served in so many rounds of the wait. */
  predicate ServeTurns(tick: nat, turns: seq<Turn>, parts: seq<seq<Event>>, ns: seq<nat>) {
    && |parts| == |ns| <= |turns| && (turns != [] ==> parts != [])
    && forall t :: 0 <= t < |parts| ==>
         && ns[t] <= |turns[t].rounds|
         && parts[t] == [Ticks(tick, turns[t].now.sec)] + turns[t].polled
                        + [Updates(turns[t].now, turns[t].evictAt, turns[t].attempt)]
                        + ServedIn(turns[t].rounds[..ns[t]])
  }

  /** After n rounds of this turn's wait, the last of them read a clock that had reached the next update. */
  predicate GoesOn(a: Agent, turn: Turn, n: nat) {
    0 < n <= |turn.rounds| && turn.rounds[n - 1].second >= a.nextUpdate
  }

  /** A turn is reached if and only if the wait of the one before it is over. */
  predicate Reaches(cfg: Config, a: Agent, turns: seq<Turn>, parts: seq<seq<Event>>, ns: seq<nat>) {
    && |parts| == |ns| <= |turns|
    && forall t :: 0 <= t < |parts| && t + 1 < |turns| ==>
         (t + 1 < |parts| <==> GoesOn(Run(cfg, a, Flatten(parts[..t + 1])), turns[t], ns[t]))
  }

  /** One turn, in these terms */
  lemma OneTurnTells(cfg: Config, a: Agent, tick: nat, turn: Turn) returns (n: nat)
    ensures var one := OneTurn(cfg, a, tick, turn);
            && n <= |turn.rounds|
            && one.1 == [Ticks(tick, turn.now.sec)] + turn.polled + [Updates(turn.now, turn.evictAt, turn.attempt)]
                        + ServedIn(turn.rounds[..n])
            && (one.0 <==> n > 0 && turn.rounds[n - 1].second >= Run(cfg, a, one.1).nextUpdate)
  {
    hide Run, Waited;
    var front := Begins(tick, turn) + Updating(turn);
    var b := Run(cfg, a, front);
    n := WaitedTells(cfg, b, turn.rounds);
    RunConcat(cfg, a, front, ServedIn(turn.rounds[..n]));
    if n > 0 {
      assert turn.rounds[..n - 1 + 1] == turn.rounds[..n];
    }
  }

  /** What the loop serves, turn by turn */
  lemma {:induction false} LoopServes(cfg: Config, a: Agent, tick: nat, turns: seq<Turn>)
    returns (parts: seq<seq<Event>>, ns: seq<nat>)
    ensures LoopEvents(cfg, a, tick, turns) == Flatten(parts)
    ensures ServeTurns(tick, turns, parts, ns) && Reaches(cfg, a, turns, parts, ns)
    decreases |turns|
  {
    hide Run, OneTurn;
    parts, ns := [], [];
    if turns != [] {
      var one := OneTurn(cfg, a, tick, turns[0]);
      LoopStep(cfg, a, tick, turns);
      var n := OneTurnTells(cfg, a, tick, turns[0]);
      parts, ns := [one.1], [n];
      FlattenHead(parts);
      assert parts[1..] == [] && one.1 + [] == one.1 && parts[..1] == parts;
      if one.0 {
        var b, rest := Run(cfg, a, one.1), turns[1..];
        var later, ms := LoopServes(cfg, b, tick, rest);
        parts, ns := [one.1] + later, [n] + ms;
        FlattenHead(parts);
        assert parts[1..] == later;
        ServeCons(tick, turns, one.1, n, later, ms);
        ReachesCons(cfg, a, turns, one.1, n, later, ms);
      }
    }
  }

  lemma ServeCons(tick: nat, turns: seq<Turn>, first: seq<Event>, n: nat, later: seq<seq<Event>>, ms: seq<nat>)
    requires turns != [] && ServeTurns(tick, turns, [first], [n]) && ServeTurns(tick, turns[1..], later, ms)
    ensures ServeTurns(tick, turns, [first] + later, [n] + ms)
  {
    hide ServedIn;
    var parts, ns := [first] + later, [n] + ms;
    forall t | 0 <= t < |parts|
      ensures ns[t] <= |turns[t].rounds|
      ensures parts[t] == [Ticks(tick, turns[t].now.sec)] + turns[t].polled
                          + [Updates(turns[t].now, turns[t].evictAt, turns[t].attempt)]
                          + ServedIn(turns[t].rounds[..ns[t]])
    {
      if t == 0 {
        assert [first][0] == first && [n][0] == n;
      } else {
        assert parts[t] == later[t - 1] && ns[t] == ms[t - 1] && turns[t] == turns[1..][t - 1];
      }
    }
  }

  lemma ReachesCons(cfg: Config, a: Agent, turns: seq<Turn>, first: seq<Event>, n: nat, later: seq<seq<Event>>,
                    ms: seq<nat>)
    requires turns != [] && Reaches(cfg, Run(cfg, a, first), turns[1..], later, ms) && (|turns| > 1 ==> later != [])
    requires GoesOn(Run(cfg, a, first), turns[0], n)
    ensures Reaches(cfg, a, turns, [first] + later, [n] + ms)
  {
    SameLengths(cfg, Run(cfg, a, first), turns[1..], later, ms);
    forall t | 0 <= t < |[first] + later| && t + 1 < |turns|
      ensures t + 1 < |[first] + later|
         <==> GoesOn(Run(cfg, a, Flatten(([first] + later)[..t + 1])), turns[t], ([n] + ms)[t])
    {
      ReachesAt(cfg, a, turns, first, n, later, ms, t);
    }
  }

  lemma SameLengths(cfg: Config, a: Agent, turns: seq<Turn>, parts: seq<seq<Event>>, ns: seq<nat>)
    requires Reaches(cfg, a, turns, parts, ns)
    ensures |parts| == |ns| <= |turns|
  {}

  lemma ReachesAt(cfg: Config, a: Agent, turns: seq<Turn>, first: seq<Event>, n: nat, later: seq<seq<Event>>,
                  ms: seq<nat>, t: nat)
    requires turns != [] && Reaches(cfg, Run(cfg, a, first), turns[1..], later, ms) && (|turns| > 1 ==> later != [])
    requires GoesOn(Run(cfg, a, first), turns[0], n) && t <= |later| && t + 1 < |turns| && |later| == |ms|
    ensures t + 1 < |[first] + later|
       <==> GoesOn(Run(cfg, a, Flatten(([first] + later)[..t + 1])), turns[t], ([n] + ms)[t])
  {
    hide *;
    LaterParts(cfg, a, first, later, t);
    if t > 0 {
      ReachesLater(cfg, Run(cfg, a, first), turns[1..], later, ms, t);
      assert ([n] + ms)[t] == ms[t - 1] && turns[1..][t - 1] == turns[t];
    }
  }

  lemma ReachesLater(cfg: Config, a: Agent, turns: seq<Turn>, parts: seq<seq<Event>>, ns: seq<nat>, t: nat)
    requires Reaches(cfg, a, turns, parts, ns) && 0 < t <= |parts| && t < |turns|
    ensures t < |parts| <==> GoesOn(Run(cfg, a, Flatten(parts[..t])), turns[t - 1], ns[t - 1])
  {
    hide Run, Flatten, GoesOn;
    var u := t - 1;
    assert parts[..u + 1] == parts[..t];
  }

  lemma LaterParts(cfg: Config, a: Agent, first: seq<Event>, later: seq<seq<Event>>, t: nat)
    requires t <= |later|
    ensures Run(cfg, a, Flatten(([first] + later)[..t + 1])) == Run(cfg, Run(cfg, a, first), Flatten(later[..t]))
    ensures t == 0 ==> Run(cfg, a, Flatten(([first] + later)[..t + 1])) == Run(cfg, a, first)
  {
    hide Run;
    var parts := ([first] + later)[..t + 1];
    FlattenHead(parts);
    assert parts[1..] == later[..t];
    RunConcat(cfg, a, first, Flatten(later[..t]));
    assert t == 0 ==> later[..t] == [] && first + [] == first;
  }

  // ---------- Pace ----------

  /** What polls serve: neither a new turn nor its update, which are the main loop's own */
  predicate Served(evs: seq<Event>) {
    forall ev :: ev in evs ==> !ev.Ticks? && !ev.Updates?
  }

  predicate Quiet(turn: Turn) {
    Served(turn.polled) && forall i :: 0 <= i < |turn.rounds| ==> Served(turn.rounds[i].served)
  }

  predicate ReadBy(rounds: seq<Round>, second: int) {
    forall i :: 0 <= i < |rounds| ==> rounds[i].second <= second
  }

  /** The clock does not run backwards within a turn or from there to the next. */
  predicate InOrder(turn: Turn, next: Turn) {
    Micros(turn.now) <= Micros(turn.evictAt) <= Micros(next.now) && ReadBy(turn.rounds, next.now.sec)
  }

  predicate ClockRises(turns: seq<Turn>) {
    forall t :: 0 < t < |turns| ==> InOrder(turns[t - 1], turns[t])
  }

  predicate Loop(turns: seq<Turn>) {
    ClockRises(turns) && forall t :: 0 <= t < |turns| ==> Quiet(turns[t])
  }

  lemma LoopTail(turns: seq<Turn>)
    requires Loop(turns) && turns != []
    ensures Loop(turns[1..])
  {
    forall t | 0 < t < |turns[1..]|
      ensures InOrder(turns[1..][t - 1], turns[1..][t])
    {
      assert InOrder(turns[t], turns[t + 1]);
    }
    assert forall t :: 0 <= t < |turns[1..]| ==> turns[1..][t] == turns[t + 1];
  }

  /** A wait that is over ended at a reading that had reached the next update, backoff delays served in it included. */
  lemma {:induction false} WaitedEnds(cfg: Config, a: Agent, rounds: seq<Round>)
    requires forall i :: 0 <= i < |rounds| ==> Served(rounds[i].served)
    ensures var w := Waited(cfg, a, rounds);
            && Served(w.1)
            && (w.0 ==> exists i :: 0 <= i < |rounds| && rounds[i].second >= Run(cfg, a, w.1).nextUpdate)
    decreases |rounds|
  {
    hide Run;
    if rounds != [] {
      var b := Run(cfg, a, rounds[0].served);
      if rounds[0].second < b.nextUpdate {
        var w := Waited(cfg, b, rounds[1..]);
        WaitedEnds(cfg, b, rounds[1..]);
        RunConcat(cfg, a, rounds[0].served, w.1);
        if w.0 {
          var i :| 0 <= i < |rounds[1..]| && rounds[1..][i].second >= Run(cfg, b, w.1).nextUpdate;
          assert rounds[i + 1].second >= Run(cfg, a, rounds[0].served + w.1).nextUpdate;
        }
      }
    }
  }

  lemma {:induction false} ClockChain(turns: seq<Turn>, p: nat, q: nat)
    requires Loop(turns) && p <= q < |turns|
    ensures Micros(turns[p].now) <= Micros(turns[q].now)
    decreases q
  {
    if p < q {
      ClockChain(turns, p, q - 1);
      assert InOrder(turns[q - 1], turns[q]);
    }
  }

  /** These turns evict between two instants. */
  predicate EvictWithin(turns: seq<Turn>, from: Timeval, until: Timeval) {
    forall t :: 0 <= t < |turns| ==> Micros(from) <= Micros(turns[t].evictAt) <= Micros(until)
  }

  predicate UpdateWithin(ev: Event, from: Timeval, until: Timeval) {
    ev.Updates? ==> Micros(from) <= Micros(ev.now) <= Micros(until)
  }

  /** The only updates of a loop are its turns' own. */
  lemma {:induction false} PollsUpdate(cfg: Config, a: Agent, tick: nat, turns: seq<Turn>,
                                       from: Timeval, until: Timeval)
    requires Loop(turns) && turns != [] && EvictWithin(turns, from, until)
    ensures forall ev :: ev in AfterPolls(cfg, a, tick, turns) ==> UpdateWithin(ev, from, until)
    decreases |turns|, 0
  {
    hide Run, Waited;
    var b := Run(cfg, a, Updating(turns[0]));
    var w := Waited(cfg, b, turns[0].rounds);
    assert Quiet(turns[0]);
    WaitedEnds(cfg, b, turns[0].rounds);
    LoopTail(turns);
    LoopUpdates(cfg, Run(cfg, b, w.1), tick, turns[1..], from, until);
  }

  lemma {:induction false} LoopUpdates(cfg: Config, a: Agent, tick: nat, turns: seq<Turn>,
                                       from: Timeval, until: Timeval)
    requires Loop(turns) && EvictWithin(turns, from, until)
    ensures forall ev :: ev in LoopEvents(cfg, a, tick, turns) ==> UpdateWithin(ev, from, until)
    decreases |turns|, 1
  {
    hide Run;
    if turns != [] {
      assert Quiet(turns[0]);
      PollsUpdate(cfg, Run(cfg, a, Begins(tick, turns[0])), tick, turns, from, until);
    }
  }

  predicate NoTicks(evs: seq<Event>) {
    forall ev :: ev in evs ==> !ev.Ticks?
  }

  /** Events that begin no turn leave the pace alone. */
  lemma PacedConcat(cfg: Config, a: Agent, x: seq<Event>, y: seq<Event>)
    requires Paced(cfg, a, x) && NoTicks(y)
    ensures Paced(cfg, a, x + y)
  {
    hide Run;
    forall n | 0 <= n < |x + y| && (x + y)[n].Ticks? && TickCount((x + y)[..n]) > 0
      ensures (x + y)[n].second >= Run(cfg, a, (x + y)[..n]).nextUpdate
    {
      if n < |x| {
        assert (x + y)[..n] == x[..n];
      } else {
        LaterIsNoTick(x, y, n);
      }
    }
  }

  lemma LaterIsNoTick(x: seq<Event>, y: seq<Event>, n: nat)
    requires NoTicks(y) && |x| <= n < |x + y|
    ensures !(x + y)[n].Ticks?
  {
    assert (x + y)[n] in y;
  }

  lemma {:induction false} PacedTick(cfg: Config, a: Agent, x: seq<Event>, tick: nat, second: int)
    requires Paced(cfg, a, x) && (x == [] || second >= Run(cfg, a, x).nextUpdate)
    ensures Paced(cfg, a, x + [Ticks(tick, second)])
  {
    hide Run;
    var all := x + [Ticks(tick, second)];
    forall n | 0 <= n < |all| && all[n].Ticks? && TickCount(all[..n]) > 0
      ensures all[n].second >= Run(cfg, a, all[..n]).nextUpdate
    {
      assert all[..n] == x[..n] && x[..|x|] == x;
    }
  }

  /** The turns may go on behind x: the first of them begins at the next update or later. */
  predicate MayBegin(cfg: Config, a: Agent, x: seq<Event>, turns: seq<Turn>) {
    x == [] || turns == [] || turns[0].now.sec >= Run(cfg, a, x).nextUpdate
  }

  /** What one turn serves, up to the end of its wait */
  function OneTurn(cfg: Config, a: Agent, tick: nat, turn: Turn): (bool, seq<Event>) {
    var front := Begins(tick, turn) + Updating(turn);
    var w := Waited(cfg, Run(cfg, a, front), turn.rounds);
    (w.0, front + w.1)
  }

  lemma LoopStep(cfg: Config, a: Agent, tick: nat, turns: seq<Turn>)
    requires turns != []
    ensures var one := OneTurn(cfg, a, tick, turns[0]);
            LoopEvents(cfg, a, tick, turns)
            == one.1 + if one.0 then LoopEvents(cfg, Run(cfg, a, one.1), tick, turns[1..]) else []
  {
    hide Run, Waited, Begins, Updating;
    var begins, updating := Begins(tick, turns[0]), Updating(turns[0]);
    var b := Run(cfg, a, begins);
    var c := Run(cfg, b, updating);
    var w := Waited(cfg, c, turns[0].rounds);
    RunConcat(cfg, a, begins, updating);
    RunConcat(cfg, a, begins + updating, w.1);
    var rest := if w.0 then LoopEvents(cfg, Run(cfg, c, w.1), tick, turns[1..]) else [];
    assert begins + (updating + w.1 + rest) == begins + updating + w.1 + rest;
  }

  /** One turn keeps the pace, and the next one may begin once its wait is over. */
  lemma TurnIsPaced(cfg: Config, a: Agent, x: seq<Event>, tick: nat, turns: seq<Turn>)
    requires Loop(turns) && turns != [] && Paced(cfg, a, x) && MayBegin(cfg, a, x, turns)
    ensures var one := OneTurn(cfg, Run(cfg, a, x), tick, turns[0]);
            && Paced(cfg, a, x + one.1) && (one.0 ==> MayBegin(cfg, a, x + one.1, turns[1..]))
            && Run(cfg, a, x + one.1) == Run(cfg, Run(cfg, a, x), one.1)
  {
    hide Run, Paced, Waited;
    var turn := turns[0];
    var ticks, front := [Ticks(tick, turn.now.sec)], Begins(tick, turn) + Updating(turn);
    var rest := turn.polled + Updating(turn);
    var b := Run(cfg, a, x);
    var w := Waited(cfg, Run(cfg, b, front), turn.rounds);
    assert Quiet(turn);
    PacedTick(cfg, a, x, tick, turn.now.sec);
    PacedConcat(cfg, a, x + ticks, rest);
    assert x + ticks + rest == x + front;
    WaitedEnds(cfg, Run(cfg, b, front), turn.rounds);
    PacedConcat(cfg, a, x + front, w.1);
    assert x + front + w.1 == x + (front + w.1);
    RunConcat(cfg, a, x, front + w.1);
    RunConcat(cfg, b, front, w.1);
    if w.0 && |turns| > 1 {
      assert InOrder(turns[0], turns[1]);
    }
  }

  lemma {:induction false} LoopIsPacedFrom(cfg: Config, a: Agent, x: seq<Event>, tick: nat, turns: seq<Turn>)
    requires Loop(turns) && Paced(cfg, a, x) && MayBegin(cfg, a, x, turns)
    ensures Paced(cfg, a, x + LoopEvents(cfg, Run(cfg, a, x), tick, turns))
    decreases |turns|
  {
    hide Run, Paced, OneTurn, MayBegin, Loop;
    if turns == [] {
      assert x + [] == x;
    } else {
      var b := Run(cfg, a, x);
      var one := OneTurn(cfg, b, tick, turns[0]);
      TurnIsPaced(cfg, a, x, tick, turns);
      LoopStep(cfg, b, tick, turns);
      if one.0 {
        LoopTail(turns);
        LoopIsPacedFrom(cfg, a, x + one.1, tick, turns[1..]);
        var rest := LoopEvents(cfg, Run(cfg, b, one.1), tick, turns[1..]);
        assert x + one.1 + rest == x + (one.1 + rest);
      } else {
        assert one.1 + [] == one.1;
      }
    }
  }

  /** Whatever the clock reads, as long as it does not run backwards, no turn of the loop but the first begins before
      the start plus every tick and every backoff delay so far. */
  lemma LoopIsPaced(cfg: Config, a: Agent, tick: nat, turns: seq<Turn>)
    requires Loop(turns)
    ensures var evs := LoopEvents(cfg, a, tick, turns);
            && Paced(cfg, a, evs)
            && (a.backoffCount == 0 ==>
                  forall n :: 0 <= n < |evs| && evs[n].Ticks? && TickCount(evs[..n]) > 0 ==>
                    evs[n].second >= a.nextUpdate + TickSum(evs[..n]) + Delays(cfg, a, evs[..n]))
  {
    hide Run, Delays, TickSum, TickCount, LoopEvents;
    var evs := LoopEvents(cfg, a, tick, turns);
    RunNone(cfg, a);
    LoopIsPacedFrom(cfg, a, [], tick, turns);
    assert [] + evs == evs;
    if a.backoffCount == 0 {
      forall n | 0 <= n < |evs| && evs[n].Ticks? && TickCount(evs[..n]) > 0
        ensures evs[n].second >= a.nextUpdate + TickSum(evs[..n]) + Delays(cfg, a, evs[..n])
      {
        TurnsArePaced(cfg, a, evs, n);
      }
    }
  }
}
