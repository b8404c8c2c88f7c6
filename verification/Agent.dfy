/** The agent over its store and its requests in flight, each operation proved against AgentSpec. */
module Agents {
  import opened Wrappers
  import opened Metrics
  import opened MetricLists
  import opened Sequences
  import opened MetricStores
  import Store = StoreSpec
  import Spec = AgentSpec

  // ---------- Requests in flight ----------

  /** These lists, taken from `owned`, hold these batches; no two share a node, and all nodes are in `nodes`. */
  ghost predicate Flight(lists: seq<MetricList>, batches: seq<seq<Metric>>, owned: set<MetricList>, nodes: set<Node>)
    reads owned, nodes
  {
    && |lists| == |batches|
    && (lists == [] ||
        (lists[0] in owned && lists[0].repr <= nodes && lists[0].Valid() && lists[0].contents == batches[0] &&
         Flight(lists[1..], batches[1..], owned - {lists[0]}, nodes - lists[0].repr)))
  }

  lemma {:induction false} FlightAppend(lists: seq<MetricList>, batches: seq<seq<Metric>>,
                                        owned: set<MetricList>, nodes: set<Node>, batch: MetricList)
    requires Flight(lists, batches, owned, nodes) && batch.Valid() && batch !in owned && batch.repr !! nodes
    ensures Flight(lists + [batch], batches + [batch.contents], owned + {batch}, nodes + batch.repr)
    decreases |lists|
  {
    if lists != [] {
      FlightAppend(lists[1..], batches[1..], owned - {lists[0]}, nodes - lists[0].repr, batch);
      assert (lists + [batch])[1..] == lists[1..] + [batch];
      assert (batches + [batch.contents])[1..] == batches[1..] + [batch.contents];
      assert owned + {batch} - {lists[0]} == owned - {lists[0]} + {batch};
      assert nodes + batch.repr - lists[0].repr == nodes - lists[0].repr + batch.repr;
    }
  }

  lemma {:induction false} FlightRemove(lists: seq<MetricList>, batches: seq<seq<Metric>>,
                                        owned: set<MetricList>, nodes: set<Node>, i: nat)
    requires Flight(lists, batches, owned, nodes) && i < |lists|
    ensures |lists| == |batches|
    ensures lists[i] in owned && lists[i].repr <= nodes && lists[i].Valid() && lists[i].contents == batches[i]
    ensures Flight(lists[..i] + lists[i + 1..], batches[..i] + batches[i + 1..],
                   owned - {lists[i]}, nodes - lists[i].repr)
    decreases |lists|
  {
    if i == 0 {
      assert lists[..0] + lists[1..] == lists[1..] && batches[..0] + batches[1..] == batches[1..];
    } else {
      var head, rest, others := lists[0], lists[1..], batches[1..];
      FlightRemove(rest, others, owned - {head}, nodes - head.repr, i - 1);
      assert (lists[..i] + lists[i + 1..])[1..] == rest[..i - 1] + rest[i..];
      assert (batches[..i] + batches[i + 1..])[1..] == others[..i - 1] + others[i..];
      assert owned - {lists[i]} - {head} == owned - {head} - {lists[i]};
      assert nodes - lists[i].repr - head.repr == nodes - head.repr - lists[i].repr;
    }
  }

  lemma SplitAt(ms: seq<Metric>, n: nat)
    requires n <= |ms|
    ensures [] + ms[..n] + ms[n..] == ms
  {}

  /** What a send comes to, by its attempt */
  lemma SendCases(config: Spec.Config, a: Spec.Agent, attempt: Spec.Attempt)
    ensures var all := a.store.cache + a.store.current; var n := BatchLength(all, config.maxSendSize);
            Spec.SendAll(config, a, attempt) ==
            if a.store.cache == [] && a.store.current == [] then a
            else if attempt == Spec.Accepted then
              a.(store := a.store.(cache := all[n..], current := []), inFlight := a.inFlight + [all[..n]])
            else a.(store := a.store.(cache := all, current := []))
  {}

  lemma NoRecords(list: MetricList)
    requires list.Valid()
    ensures list.size == 0 <==> list.contents == []
  {}

  // ---------- The agent ----------

  class Monikor {
    const config: Spec.Config
    const metrics: MetricStore
    var inFlight: seq<MetricList> // the batch of each request without an answer
    var lastUpdate: Timeval
    var nextUpdate: int
    var backoffCount: nat
    ghost var exits: seq<Store.Exit>
    ghost var batches: seq<seq<Metric>> // what the requests carry
    ghost var owned: set<MetricList>    // the lists in flight
    ghost var nodes: set<Node>          // and their nodes

    ghost predicate Valid()
      reads this, metrics, metrics.Lists(), metrics.repr, owned, nodes
    {
      && metrics.Valid()
      && owned !! metrics.Lists() && nodes !! metrics.repr
      && Flight(inFlight, batches, owned, nodes)
    }

    /** A list of its own, sharing nothing with the agent */
    ghost predicate Apart(batch: MetricList)
      reads this, metrics, metrics.Lists(), batch, batch.repr
    {
      && batch.Valid() && batch !in owned && batch !in metrics.Lists()
      && batch.repr !! nodes && batch.repr !! metrics.repr
    }

    ghost function State(): Spec.Agent
      reads this, metrics, metrics.Lists()
    {
      Spec.Agent(metrics.State(), batches, exits, lastUpdate, nextUpdate, backoffCount)
    }

    constructor (config: Spec.Config, now: Timeval)
      ensures Valid() && fresh(metrics) && fresh(metrics.Lists())
      ensures this.config == config && State() == Spec.Start(now)
      ensures State() == Spec.Agent(Store.Store([], [], [], 0), [], [], now, now.sec, 0)
    {
      this.config := config;
      metrics := new MetricStore();
      inFlight, batches, exits, owned, nodes := [], [], [], {}, {};
      lastUpdate, nextUpdate, backoffCount := now, now.sec, 0;
    }

    /** Fills a new batch from `current` until it is big enough. */
    method TakeBatch() returns (batch: MetricList)
      requires Valid()
      modifies metrics.current
      ensures Valid() && Apart(batch) && fresh(batch) && fresh(batch.repr)
      ensures var all := old(metrics.current.contents);
              var n := BatchLength(all, config.maxSendSize);
              batch.contents == all[..n]
              && State() == old(State()).(store := old(metrics.State()).(current := all[n..]))
    {
      batch := metrics.TakeBatch(config.maxSendSize);
    }

    /** store_cache: what is current goes behind what is cached. */
    method Cache()
      requires Valid()
      modifies metrics.current, metrics.cache, metrics.repr
      ensures Valid() && metrics.repr == old(metrics.repr)
      ensures var s := old(metrics.State());
              State() == old(State()).(store := s.(cache := s.cache + s.current, current := []))
    {
      metrics.Cache();
    }

    method Uncache()
      requires Valid()
      modifies metrics.current, metrics.cache, metrics.repr
      ensures Valid()
      ensures var s := old(metrics.State());
              State() == old(State()).(store := s.(current := s.cache + s.current, cache := []))
    {
      metrics.Uncache();
    }

    method Recache(batch: MetricList)
      requires Valid() && Apart(batch)
      modifies metrics`repr, metrics.cache, metrics.repr, batch
      ensures Valid() && metrics.repr == old(metrics.repr) + old(batch.repr)
      ensures State() == old(State()).(store := old(metrics.State()).(
                           cache := old(metrics.cache.contents) + old(batch.contents)))
    {
      metrics.Recache(batch);
    }

    /** The request is set up: its batch waits for an answer. */
    method Post(batch: MetricList)
      requires Valid() && Apart(batch)
      modifies this`inFlight, this`batches, this`owned, this`nodes
      ensures Valid() && State() == old(State()).(inFlight := old(batches) + [batch.contents])
      ensures owned == old(owned) + {batch} && nodes == old(nodes) + batch.repr
    {
      FlightAppend(inFlight, batches, owned, nodes, batch);
      inFlight, batches := inFlight + [batch], batches + [batch.contents];
      owned, nodes := owned + {batch}, nodes + batch.repr;
    }

    /** The rest of a send, once everything is in `current`: cut a batch, post it or take it back, cache the others. */
    method SendCurrent(accepted: bool)
      requires Valid() && metrics.cache.contents == []
      modifies this, metrics, metrics.Lists(), metrics.repr
      ensures fresh(owned - old(owned)) && fresh(nodes - old(nodes)) && fresh(metrics.repr - old(metrics.repr))
      ensures Valid()
      ensures var all := old(metrics.current.contents); var n := BatchLength(all, config.maxSendSize);
              var s := old(metrics.State()).(current := []);
              State() == if accepted
                         then old(State()).(store := s.(cache := all[n..]), inFlight := old(batches) + [all[..n]])
                         else old(State()).(store := s.(cache := all))
    {
      hide Flight, BatchLength, Distinct, Chain, Holds;
      ghost var all := metrics.current.contents;
      var batch := TakeBatch();
      if accepted {
        Post(batch);
      } else {
        SplitAt(all, BatchLength(all, config.maxSendSize));
        Recache(batch);
      }
      Cache();
    }

    /** A send once there is something to send and a list to put it in */
    method SendHeld(accepted: bool)
      requires Valid()
      modifies this, metrics, metrics.Lists(), metrics.repr
      ensures fresh(owned - old(owned)) && fresh(nodes - old(nodes)) && fresh(metrics.repr - old(metrics.repr))
      ensures Valid()
      ensures var all := old(metrics.cache.contents) + old(metrics.current.contents);
              var n := BatchLength(all, config.maxSendSize);
              var s := old(metrics.State()).(current := []);
              State() == if accepted
                         then old(State()).(store := s.(cache := all[n..]), inFlight := old(batches) + [all[..n]])
                         else old(State()).(store := s.(cache := all))
    {
      hide Flight, BatchLength, Distinct, Chain, Holds;
      Uncache();
      SendCurrent(accepted);
    }

    /** `attempt` stands for what the source leaves to the outside: whether the batch list can be allocated, and
        whether its request can be set up. */
    method SendAllMetrics(attempt: Spec.Attempt)
      requires Valid()
      modifies this, metrics, metrics.Lists(), metrics.repr
      ensures fresh(owned - old(owned)) && fresh(nodes - old(nodes)) && fresh(metrics.repr - old(metrics.repr))
      ensures Valid() && State() == Spec.SendAll(config, old(State()), attempt)
    {
      hide Flight, BatchLength, Distinct, Chain, Holds, Spec.SendAll;
      SendCases(config, State(), attempt);
      NoRecords(metrics.current);
      NoRecords(metrics.cache);
      if metrics.current.size == 0 && metrics.cache.size == 0 {
        return;
      }
      if attempt == Spec.NoMemory {
        Cache();
      } else {
        SendHeld(attempt == Spec.Accepted);
      }
    }

    ghost method Log(more: seq<Store.Exit>)
      requires Valid()
      modifies this`exits
      ensures Valid() && State() == old(State()).(exits := old(exits) + more)
    {
      exits := exits + more;
    }

    // ---------- Answers ----------

    /** The request leaves the list of handlers; its batch is the callback's. */
    method Settle(i: nat) returns (batch: MetricList)
      requires Valid() && i < |inFlight|
      modifies this`inFlight, this`batches, this`owned, this`nodes
      ensures Valid() && Apart(batch) && batch in old(owned) && batch.repr <= old(nodes)
      ensures batch.contents == old(batches)[i] && owned <= old(owned) && nodes <= old(nodes)
      ensures State() == old(State()).(inFlight := old(batches)[..i] + old(batches)[i + 1..])
    {
      hide Flight, Distinct, Chain, Holds, DataSize;
      FlightRemove(inFlight, batches, owned, nodes, i);
      batch := inFlight[i];
      inFlight, batches := inFlight[..i] + inFlight[i + 1..], batches[..i] + batches[i + 1..];
      owned, nodes := owned - {batch}, nodes - batch.repr;
    }

    method FlushAll()
      requires Valid()
      modifies this`exits, metrics.Lists()
      ensures Valid()
      ensures State() == Spec.After(old(State()), Store.FlushAll(old(metrics.State())))
    {
      Log(Store.FlushAll(metrics.State()).exits);
      metrics.FlushAll();
    }

    method Delay()
      requires Valid()
      modifies this`nextUpdate
      ensures Valid() && State() == old(State()).(
                           nextUpdate := old(nextUpdate) + config.updateInterval * Spec.Pow2(backoffCount))
    {
      nextUpdate := nextUpdate + config.updateInterval * Spec.Pow2(backoffCount);
    }

    method UpdateBackoff()
      requires Valid()
      modifies this`exits, this`nextUpdate, this`backoffCount, metrics.Lists()
      ensures Valid() && State() == Spec.Backoff(config, old(State()))
    {
      if backoffCount > 0 {
        Delay();
        FlushAll();
      }
      if backoffCount < Spec.BACKOFF_COUNT_MAX {
        SetBackoffCount(backoffCount + 1);
      }
    }

    method SetBackoffCount(n: nat)
      requires Valid()
      modifies this`backoffCount
      ensures Valid() && State() == old(State()).(backoffCount := n)
    {
      backoffCount := n;
    }

    method UpdateSuccess()
      requires Valid()
      modifies this`backoffCount
      ensures Valid() && State() == old(State()).(backoffCount := 0)
    {
      SetBackoffCount(0);
    }

    method HandleServerResponse(i: nat, transferred: bool, code: int)
      requires Valid() && i < |inFlight|
      modifies this, metrics, metrics.Lists(), metrics.repr, owned, nodes
      ensures owned <= old(owned) && nodes <= old(nodes) && metrics.repr <= old(metrics.repr + nodes)
      ensures Valid() && State() == Spec.Answer(config, old(State()), i, transferred, code)
    {
      var batch := Settle(i);
      if transferred && code == 200 {
        UpdateSuccess();
      }
      if !transferred || code >= 500 {
        Recache(batch);
        UpdateSuccess();
      } else if code >= 400 {
        UpdateBackoff();
        Log(Store.ExitsOf(Store.Rejected, batch.contents)); // the batch is freed
      } else if code == 200 {
        Log(Store.ExitsOf(Store.Delivered, batch.contents)); // the batch is freed
      } else {
        Log(Store.ExitsOf(Store.Dropped, batch.contents)); // the batch is freed
      }
    }

    // ---------- The periodic update ----------

    method EvictDelta(horizon: Timeval) returns (n: nat)
      requires Valid()
      modifies this`exits, metrics.delta, metrics.repr
      ensures Valid() && n == |old(metrics.delta.contents)| - |metrics.delta.contents|
      ensures State() == Spec.After(old(State()), Store.EvictDelta(old(metrics.State()), horizon))
    {
      Log(Store.EvictDelta(metrics.State(), horizon).exits);
      n := metrics.EvictDelta(horizon);
    }

    method EvictCache() returns (n: nat)
      requires Valid()
      modifies this`exits, metrics.cache
      ensures Valid() && n == |old(metrics.cache.contents)| - |metrics.cache.contents|
      ensures State() == Spec.After(old(State()), Store.EvictCache(old(metrics.State()), config.cacheMaxSize))
    {
      Log(Store.EvictCache(metrics.State(), config.cacheMaxSize).exits);
      n := metrics.EvictCache(config.cacheMaxSize);
    }

    method EvictMetrics(now: Timeval) returns (n: nat)
      requires Valid()
      modifies this`exits, metrics.delta, metrics.cache, metrics.repr
      ensures Valid() && State() == Spec.Evict(config, old(State()), now)
      ensures n == |old(metrics.delta.contents)| - |metrics.delta.contents|
                   + |old(metrics.cache.contents)| - |metrics.cache.contents|
    {
      hide Store.EvictDelta, Store.EvictCache, Flight;
      var horizon := now.(sec := now.sec - 3 * config.pollInterval);
      n := EvictDelta(horizon);
      var fromCache := EvictCache();
      n := n + fromCache;
    }

    method SetLastUpdate(clock: Timeval)
      requires Valid()
      modifies this`lastUpdate
      ensures Valid() && State() == old(State()).(lastUpdate := clock)
    {
      lastUpdate := clock;
    }

    method Update(clock: Timeval, now: Timeval, attempt: Spec.Attempt)
      requires Valid()
      modifies this, metrics, metrics.Lists(), metrics.repr
      ensures fresh(owned - old(owned)) && fresh(nodes - old(nodes)) && fresh(metrics.repr - old(metrics.repr))
      ensures Valid() && State() == Spec.Update(config, old(State()), clock, now, attempt)
    {
      hide Flight, Spec.SendAll, Spec.Evict, Distinct, Chain, Holds;
      if lastUpdate.sec + config.updateInterval > clock.sec {
        return;
      }
      ghost var before := State();
      SetLastUpdate(clock);
      var evicted := EvictMetrics(now);
      assert State() == Spec.Evict(config, before.(lastUpdate := clock), now);
      SendAllMetrics(attempt);
    }

    /** The head of a main-loop turn: the next update moves on by a tick, and up to the clock if it lags behind. */
    method Tick(tick: nat, now: int)
      requires Valid()
      modifies this`nextUpdate
      ensures Valid() && State() == Spec.Tick(old(State()), tick, now)
    {
      nextUpdate := nextUpdate + tick;
      if nextUpdate < now {
        nextUpdate := now;
      }
    }

    // ---------- Metrics coming in ----------

    /** A record of its own for a metric made by a module */
    method Allocate(metric: Metric) returns (record: Metric)
      requires Valid()
      modifies metrics`next
      ensures Valid() && record == metric.(rec := old(metrics.next))
      ensures State() == old(State()).(store := old(metrics.State()).(next := old(metrics.next) + 1))
    {
      record := metric.(rec := metrics.next);
      metrics.next := metrics.next + 1;
    }

    method StorePush(record: Metric) returns (accepted: bool)
      requires Valid()
      modifies this`exits, metrics, metrics.Lists(), metrics.repr
      ensures fresh(metrics.repr - old(metrics.repr))
      ensures Valid()
      ensures var o := Store.Push(old(metrics.State()), record);
              State() == Spec.After(old(State()), o) && accepted == o.ok
    {
      hide Flight, Store.Push, Distinct, Holds;
      Log(Store.Push(metrics.State(), record).exits);
      accepted := metrics.Push(record);
    }

    /** What the store answers is ignored: a refused record stays out, and is not freed. */
    method PushRecord(metric: Metric)
      requires Valid()
      modifies this`exits, metrics, metrics.Lists(), metrics.repr
      ensures fresh(metrics.repr - old(metrics.repr))
      ensures Valid() && State() == Spec.Receive(old(State()), [metric])
    {
      ghost var before := State();
      var record := Allocate(metric);
      ghost var s := metrics.State();
      var accepted := StorePush(record);
      ReceiveOne(before, metric, s, record);
    }

    /** monikor_metric_push, of a metric that its constructor may have failed to make: the number of metrics pushed */
    method PushMetric(metric: Option<Metric>) returns (n: int)
      requires Valid()
      modifies this`exits, metrics, metrics.Lists(), metrics.repr
      ensures fresh(metrics.repr - old(metrics.repr))
      ensures Valid() && n == if metric.None? then 0 else 1
      ensures State() == if metric.None? then old(State()) else Spec.Receive(old(State()), [metric.value])
    {
      if metric.None? {
        return 0;
      }
      PushRecord(metric.value);
      return 1;
    }

    /** A list whose n records were taken from the agent's own goes into the store; it is emptied. */
    method LpushRecords(list: MetricList, n: nat)
      requires Valid() && Apart(list) && n == |list.contents|
      requires Spec.Allocated(metrics.next, list.contents) == list.contents
      modifies this`exits, metrics, metrics.Lists(), metrics.repr, list
      ensures fresh(metrics.repr - old(metrics.repr))
      ensures Valid() && State() == Spec.Receive(old(State()), old(list.contents))
    {
      hide Flight, Store.Lpush, Spec.Allocated, Spec.Receive, Spec.After, Distinct, Holds;
      ghost var before, ms := State(), list.contents;
      TakeRecords(n);
      ghost var s := metrics.State();
      ReceiveAll(before, ms, s);
      var accepted := StoreLpush(list);
    }

    method TakeRecords(n: nat)
      requires Valid()
      modifies metrics`next
      ensures Valid() && State() == old(State()).(store := old(metrics.State()).(next := old(metrics.next) + n))
    {
      metrics.next := metrics.next + n;
    }

    method StoreLpush(list: MetricList) returns (accepted: bool)
      requires Valid() && Apart(list)
      modifies this`exits, metrics, metrics.Lists(), metrics.repr, list
      ensures fresh(metrics.repr - old(metrics.repr))
      ensures Valid()
      ensures var o := Store.Lpush(old(metrics.State()), old(list.contents));
              State() == Spec.After(old(State()), o) && accepted == o.ok
    {
      hide Flight, Store.Lpush, Distinct, Holds;
      Log(Store.Lpush(metrics.State(), list.contents).exits);
      accepted := metrics.Lpush(list);
    }
  }

  lemma ReceiveAll(a: Spec.Agent, ms: seq<Metric>, s: Store.Store)
    requires s == a.store.(next := a.store.next + |ms|) && Spec.Allocated(a.store.next, ms) == ms
    ensures Spec.Receive(a, ms) == Spec.After(a.(store := s), Store.Lpush(s, ms))
  {
    hide Store.Lpush, Spec.Allocated;
  }

  lemma ReceiveOne(a: Spec.Agent, metric: Metric, s: Store.Store, record: Metric)
    requires s == a.store.(next := a.store.next + 1) && record == metric.(rec := a.store.next)
    ensures Spec.Receive(a, [metric]) == Spec.After(a, Store.Push(s, record))
  {
    assert Spec.Allocated(a.store.next, [metric]) == [record];
    var o := Store.Push(s, record);
    assert [record][1..] == [] && Store.Lpush(s, [record]) == Store.Outcome(o.store, o.ok, o.exits + []);
    assert o.exits + [] == o.exits;
  }
}
