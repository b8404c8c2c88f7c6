/** The agent as a state machine: one step per event the main loop can serve. */
module AgentSpec {
  import opened Metrics
  import opened MetricLists
  import opened StoreSpec

  datatype Config = Config(updateInterval: nat, pollInterval: nat, maxSendSize: nat, cacheMaxSize: nat)

  const BACKOFF_COUNT_MAX := 15

  function Pow2(n: nat): pos {
    if n == 0 then 1 else 2 * Pow2(n - 1)
  }

  /** `inFlight` holds one batch per request without an answer; `exits` logs every record let go. */
  datatype Agent = Agent(
    store: Store,
    inFlight: seq<seq<Metric>>,
    exits: seq<Exit>,
    lastUpdate: Timeval,
    nextUpdate: int,
    backoffCount: nat)

  function Start(now: Timeval): Agent {
    Agent(Store([], [], [], 0), [], [], now, now.sec, 0)
  }

  /** The agent after an operation on its store */
  function After(a: Agent, o: Outcome): Agent {
    a.(store := o.store, exits := a.exits + o.exits)
  }

  // ---------- Sending ----------

  /** Whether a send can allocate its batch list, and whether the request can be set up */
  datatype Attempt = Accepted | Refusal | NoMemory

  function SendAll(cfg: Config, a: Agent, attempt: Attempt): Agent {
    var all := a.store.cache + a.store.current;
    var n := BatchLength(all, cfg.maxSendSize);
    if all == [] then a
    else if attempt.Accepted? then
      a.(store := a.store.(cache := all[n..], current := []), inFlight := a.inFlight + [all[..n]])
    else a.(store := a.store.(cache := all, current := []))
  }

  // ---------- Answers and backoff ----------

  function Backoff(cfg: Config, a: Agent): Agent {
    var b := if a.backoffCount == 0 then a else
               After(a, FlushAll(a.store)).(
                 nextUpdate := a.nextUpdate + cfg.updateInterval * Pow2(a.backoffCount));
    if b.backoffCount < BACKOFF_COUNT_MAX then b.(backoffCount := b.backoffCount + 1) else b
  }

  /** An answer to request i: its transfer failed, or it ended with an HTTP code. */
  function Answer(cfg: Config, a: Agent, i: nat, transferred: bool, code: int): Agent
    requires i < |a.inFlight|
  {
    var batch := a.inFlight[i];
    var b := a.(inFlight := a.inFlight[..i] + a.inFlight[i + 1..]);
    if !transferred || code >= 500 then
      b.(store := b.store.(cache := b.store.cache + batch), backoffCount := 0)
    else if code >= 400 then
      var c := Backoff(cfg, b);
      c.(exits := c.exits + ExitsOf(Rejected, batch))
    else if code == 200 then b.(exits := b.exits + ExitsOf(Delivered, batch), backoffCount := 0)
    else b.(exits := b.exits + ExitsOf(Dropped, batch))
  }

  // ---------- The periodic update ----------

  function Evict(cfg: Config, a: Agent, now: Timeval): Agent {
    var b := After(a, EvictDelta(a.store, now.(sec := now.sec - 3 * cfg.pollInterval)));
    After(b, EvictCache(b.store, cfg.cacheMaxSize))
  }

  function Update(cfg: Config, a: Agent, clock: Timeval, now: Timeval, attempt: Attempt): Agent {
    if a.lastUpdate.sec + cfg.updateInterval > clock.sec then a
    else SendAll(cfg, Evict(cfg, a.(lastUpdate := clock), now), attempt)
  }

  function Tick(a: Agent, tick: nat, now: int): Agent {
    a.(nextUpdate := if a.nextUpdate + tick < now then now else a.nextUpdate + tick)
  }

  // ---------- Events ----------

  /** Newly allocated records: the identities from `next` on */
  function Allocated(next: nat, ms: seq<Metric>): seq<Metric>
    decreases |ms|
  {
    if ms == [] then [] else [ms[0].(rec := next)] + Allocated(next + 1, ms[1..])
  }

  function Receive(a: Agent, ms: seq<Metric>): Agent {
    After(a, Lpush(a.store.(next := a.store.next + |ms|), Allocated(a.store.next, ms)))
  }

  datatype Event =
    | Ticks(tick: nat, second: int)                             // a new turn of the main loop
    | Pushed(metric: Metric)                                    // a module pushes one metric
    | Received(metrics: seq<Metric>)                            // a local client sends a list
    | Updates(clock: Timeval, now: Timeval, attempt: Attempt)   // monikor_update
    | Sends(attempt: Attempt)                                   // SIGUSR1
    | Flushes                                                   // SIGUSR2
    | Answered(index: nat, transferred: bool, code: int)        // a request ends

  predicate Known(a: Agent, ev: Event) {
    ev.Answered? ==> ev.index < |a.inFlight|
  }

  /** An answer to no known request is ignored. */
  function Step(cfg: Config, a: Agent, ev: Event): Agent {
    match ev
    case Ticks(tick, second) => Tick(a, tick, second)
    case Pushed(m) => Receive(a, [m])
    case Received(ms) => Receive(a, ms)
    case Updates(clock, now, attempt) => Update(cfg, a, clock, now, attempt)
    case Sends(attempt) => SendAll(cfg, a, attempt)
    case Flushes => After(a, FlushAll(a.store))
    case Answered(i, transferred, code) =>
      if Known(a, ev) then Answer(cfg, a, i, transferred, code) else a
  }

  function Run(cfg: Config, a: Agent, evs: seq<Event>): Agent {
    if evs == [] then a else Step(cfg, Run(cfg, a, evs[..|evs| - 1]), evs[|evs| - 1])
  }
}
