# Monikor: a verified model

Monikor is a monitoring agent: modules push metrics, local clients send lists of them over a socket, and the agent sends
batches of them to a server. This project models in Dafny what the agent does with them, and proves what it promises.

- **The metric pipeline.** `MetricList.dfy` is the hand-made linked list with its `size`, `data_size` and `last`;
  `MetricStore.dfy` the store over its three lists `current`, `delta` and `cache`; `Agent.dfy` the agent with its
  requests in flight. All are classes over nodes on the heap, and each method is proved to refine a function over
  sequences of records: those of `StoreSpec.dfy` and `AgentSpec.dfy`. The latter is an event machine, one step for each
  thing the main loop can serve, in any order. About its runs, `Ledger.dfy` proves that no record is lost or duplicated,
  `KeyRuns.dfy` and `Emissions.dfy` what becomes of the samples of a key and what they emit, built on `SampleMap.dfy` and
  `Counters.dfy` for one push and one list of pushes, `Aggregates.dfy` what the one record of an aggregate holds,
  `Effects.dfy` what each push and each event changes and what it leaves alone, `Sending.dfy` what batches, answers,
  evictions and updates do to the order and the number of records, and `Backoff.dfy` how the loop is paced. `Turns.dfy`
  says what the main loop serves, given what the clock reads and what is polled, and `MainLoop.dfy` is the loop itself,
  served by the agent on the heap.
- **The wire format.** `ByteOrder.dfy` has the byte-order conversions on both kinds of host, `Wire.dfy` the format and
  its round trips, `Codec.dfy` the encoder writing at offsets of an array and the decoder with its cursor.
  `Delivery.dfy` and `Reception.dfy` join it to the pipeline on the sending and on the receiving side.
- **The scheduler.** `Schedule.dfy`: module polling without drift, and the eviction horizon.
- **The rest.** `Config.dfy`: the configuration parser and the lookup by path. `Handlers.dfy` and `Server.dfy`: the doubly
  linked handler list, the pass that calls handlers while they change it, and the server's ten slots. `Command.dfy`: the
  two-event completion of child commands.

`Sequences.dfy`, `Numbers.dfy` and `Wrappers.dfy` hold what they share. `dafny verify dfyconfig.toml` checks it all.

## How to read the model

- A record is a value held by one list node. Its field `rec` is its identity: the heap record the C code points to. The
  store's `next` is the identity the next allocated record gets, and every record that stops being held is logged, with
  its fate, in `exits`. The ledger counts identities.
- Clocks are normalised by their type. `_timecmp` is modelled with its 32-bit wrap-around; properties that need two
  clocks to be less than 2^31 seconds apart say so (`Near`).
- Integer values are 64-bit and wrap; floats are reals, so what is proved about their sums and rates is about the real
  arithmetic. On the wire a float is its opaque 32-bit pattern (`FloatCodec`).
- `NODE_BASE`, the size of a node with its record, is an arbitrary positive constant.
- `backoff_count` starts at 0, which `src/core/update.c:20-23` leaves to whoever allocates the agent.
- The id of a metric is not on the wire, and the decoder leaves it as the new record happens to have it
  (`lib/monikor/src/metrics/metric_list_unserialize.c:27-55`): decoding takes it from a parameter `ids`, and a round trip
  is one but for the record and the id. What the decoder would read beyond its buffer, or a clock that is not
  normalised, makes decoding undefined; `DecodeList` says so, and the round trips prove that it never happens on what
  the encoder wrote.
- What comes from outside is a parameter: the clock, a server's answer, whether a batch list can be allocated and a
  request set up (`Attempt`), what `accept4` returns, whether a handler can be allocated, what a module's poll returns,
  the chunks a read gives, what a poll callback does to the handler list.

## What the code does not promise

Each of these is a theorem of the model, not a remark.

- Two DELTA samples of a key with the same clock, or clocks a multiple of 2^32 seconds apart, leave two nodes for the key
  in `delta` (`SampleMap.PushRefinesUpdate`, both directions).
- The default `max_send_size` is too large for the 16-bit count of a list: a batch of 65536 small metrics is announced as
  empty (`Delivery.DefaultRunLosesBatch`; the exact bound over all runs is `Sending.CountsFit`).
- With `max_send_size` 0 a send posts empty batches (`Sending.BatchNonEmpty`).
- A batch answered with a code below 400 other than 200 is dropped (`Effects.AnswerEffect`), and the backoff count
  neither grows nor is reset: `Backoffs.CountIsStreak`, where such an answer neither `Rejects` nor `Resets`.
- A DELTA sample of another type than the stored one, or of strings, is refused, exactly then
  (`SampleMap.PushRefinesUpdate`), and is neither stored nor freed: it is in the log alone (`Ledger.PushDeltaAccounts`).
- If a read of a command's output fails after the command has exited, its callback is never called
  (`Commands.CallbackOnce`).

## Model

| member | source | states |
|---|---|---|
| Ledger.RunBalances | src/core/send.c:93-106 | In every run, whatever the interleaving of pushes, lists received, sends, answers, updates, ticks and flushes, every record ever allocated is in exactly one of `current`, `delta`, `cache`, one request in flight or the log of exits, once; no other record is anywhere |
| Ledger.StepConserves | src/core/control.c:9-16 | Each single event keeps the count of every record, and adds exactly the records it allocates |
| Ledger.PushDeltaAccounts | lib/monikor/src/metrics/metric_store.c:50-62 | A DELTA push accounts for the pushed record, the sample it replaces (superseded), and the one new record of the difference |
| Ledger.PushAggregateAccounts | lib/monikor/src/metrics/metric_store.c:64-74 | An aggregate either stays in `current` or is logged as merged, never both |
| Ledger.LpushAccounts | lib/monikor/src/metrics/metric_store.c:85-93 | A whole list pushed: every record of it ends in the store or in the log, refused ones included |
| Ledger.SendConserves | src/core/send.c:139-160 | A send, accepted, refused or out of memory, loses and duplicates nothing |
| Ledger.AnswerConserves | src/core/send.c:73-107 | An answer moves every record of its batch to the cache or to the log, and backoff logs every record it flushes |
| Ledger.EvictConserves | src/core/evict.c:5-14 | Every evicted sample and cached record is logged exactly once |
| Effects.AnswerEffect | src/core/send.c:73-107 | An answer of another kind than 4xx touches no record but those of its batch, and takes that request alone out of flight: on a failed transfer or a code of 500 or more the batch goes behind the cache and nothing is logged; on a transferred code below 400 the store is as it was, and exactly one exit per record is logged, delivered for 200 and dropped otherwise |
| Effects.RejectionEffect | src/core/update.c:25-42 | A 4xx answer logs its batch as rejected; the first since a reset changes only the count besides, a later one empties the store, logs each record once as flushed, and adds 2^count update intervals to `next_update` |
| Effects.StrayAnswer | src/core/send.c:73-107 | An answer to no request in flight changes nothing |
| Effects.SendEffect | src/core/send.c:139-160 | A send changes `current`, the cache and the requests alone: earlier requests stay, and cached then current records are the new batch, the shortest prefix that reaches `max_send_size`, followed by the cache, or all cached |
| Effects.UpdateLeaves | src/core/update.c:11-18 | An update lets records go only as evicted, leaves the pace, the count and earlier requests alone, and sends at most one batch, the shortest that reaches `max_send_size` |
| Effects.ReceiveEffect | src/server/handle.c:67-69 | Metrics received are pushed in order, in the next records, and nothing but the store and the log changes, the cache not either; a metric pushed is a list of one |
| Effects.FlushEffect | src/core/control.c:9-12 | A flush empties the three lists, logs each of their records once, and changes nothing else |
| Effects.TickEffect | src/core/run.c:38-44 | A turn changes `next_update` alone: to the later of the clock and one tick more |
| Effects.PlainPush | lib/monikor/src/metrics/metric_store.c:76-83 | A metric that is neither a sample nor an aggregate goes behind `current` and nothing else happens |
| Effects.AggregatePush | lib/monikor/src/metrics/metric_store.c:64-74 | An aggregate merges into the first record of its key and numeric type in `current`, of which the value alone changes, not clock, flags or identity, and no other record does; without one it goes behind `current` |
| Effects.SamplePush | lib/monikor/src/metrics/metric_store.c:50-62 | A sample takes the place of the first stored one of its key with another clock, and exactly their difference is pushed, in the next record; it is stored last if there is none, and refused, with nothing changed, if the two cannot be subtracted |
| Effects.LpushFolds | lib/monikor/src/metrics/metric_store.c:85-93 | Pushing a list is pushing its metrics one after the other; it fails if one of them did |
| Effects.LpushLeaves | lib/monikor/src/metrics/metric_store.c:85-93 | Pushing a list leaves the cache alone, lets records go only as merged, superseded or refused, and fails if and only if one was refused |
| Sending.AnswerSettles | src/core/send.c:93-106 | In a balanced agent a record in flight is re-cached if and only if the transfer failed or the code is 500 or more; otherwise it leaves for good with exactly one fate: delivered for 200, rejected for 4xx, dropped for any other code below 400 |
| Sending.SendKeepsOrder | src/core/send.c:139-160 | An accepted batch followed by the new cache is the old cache followed by the old `current`; a refused send keeps all of it in the cache in that order; `current` ends empty, `delta` and earlier requests are untouched, and the batch is not empty when `max_send_size` is positive |
| Sending.SendsDrain | src/core/send.c:139-160 | As many accepted sends as there are records hand over all of them, in order, and leave `cache` and `current` empty |
| MetricLists.BatchIsShortest | src/core/send.c:152-154 | The batch length is the only one such that the prefix reaches `max_send_size` or is everything, and no shorter prefix does |
| Sending.BatchNonEmpty | src/core/send.c:152-154 | A batch is empty if and only if there is nothing to send or `max_send_size` is 0 |
| Sending.BatchFitsCount | lib/monikor/src/metrics/metric_list_serialize.c:48 | With `max_send_size` at most 65535 times the smallest node, the size of every batch fits the 16-bit count |
| Sending.BatchOverflowsCount | lib/monikor/src/metrics/metric_list_serialize.c:48 | That bound is exact: above it, any list of more than 65535 of the smallest records makes a batch that does not fit |
| Sending.CountsFit | lib/monikor/src/metrics/metric_list_serialize.c:48 | In every run from the start every batch in flight fits its 16-bit count if and only if `max_send_size` is at most 65535 times the smallest node |
| Sending.RunOverflows | src/core/send.c:152-154 | Above that bound there is a run, of one list received and one send, with a batch in flight that does not fit |
| Sending.ReceivedThenSent | src/core/send.c:139-160 | A list of plain metrics received by a new agent and sent is in flight as its shortest sufficient prefix, in records of its own |
| Sending.OverflowIsLeast | lib/monikor/src/metrics/metric_store.c:95-101 | Cache eviction drops the least number of oldest records after which the rest fits: the longest suffix that fits stays |
| Sending.EvictEffect | src/core/evict.c:5-14 | One eviction leaves `current` and the requests alone, keeps exactly the samples not older than the horizon, and the fitting suffix of the cache |
| Sending.UpdateEffect | src/core/update.c:11-18 | An update that is not due changes nothing; one that is restarts the period, leaves no stale sample and nothing in `current`, keeps the order of all it does not evict, and lets only what was current exceed the cache limit |
| MetricLists.MetricList.PushNode | lib/monikor/src/metrics/metric_list.c:85-96 | The list refines its sequence with one more record at the end; `size`, `data_size`, `last` and the chain of unshared nodes still agree, and `data_size` has grown by a node, the name and, for a string, its value |
| MetricLists.MetricList.SizesTell | lib/monikor/src/metrics/metric_list.c:76-96 | `size` counts the nodes, and `data_size` is a node each and the bytes of all names and of all strings |
| MetricLists.MetricList.Push | lib/monikor/src/metrics/metric_list.c:68-74 | The same, with a new node that no other list has |
| MetricLists.MetricList.Pop | lib/monikor/src/metrics/metric_list.c:98-113 | The first record is returned and the rest is the list; an empty list returns none and stays as it was |
| MetricLists.MetricList.Empty | lib/monikor/src/metrics/metric_list.c:36-52 | The walk ends, and the list is empty |
| MetricLists.MetricList.RemoveIf | lib/monikor/src/metrics/metric_list.c:120-148 | One walk leaves exactly the records that do not satisfy the predicate, in order, with all the bookkeeping right, and returns how many went |
| MetricLists.MetricList.Concat | lib/monikor/src/metrics/metric_list.c:156-167 | Every node of the tail follows the head's, the very nodes and in order, and the tail is empty; any of the two may be empty |
| MetricLists.MetricList.FillFrom | src/core/send.c:152-154 | The batch loop takes the shortest sufficient prefix and leaves the rest; unless that is everything, the nodes, names and strings it takes come to `max_send_size` or more |
| MetricLists.MetricList.Find | lib/monikor/src/metrics/metric_store.c:50-62 | The walk stops at the first matching node |
| MetricLists.MetricList.SetMetric | lib/monikor/src/metrics/metric_store.c:56-57 | Replacing a node's record by one of the same size keeps the accounting and changes that record alone |
| MetricLists.KeptMembers | lib/monikor/src/metrics/metric_list.c:120-148 | What a removal keeps is exactly what does not satisfy the predicate |
| Metrics.DataSizeUpdate | lib/monikor/src/metrics/metric_list.c:76-83 | Replacing a record by one of the same size leaves the sum of sizes as it was |
| Metrics.DataSizeIs | lib/monikor/src/metrics/metric_list.c:76-83 | The sum of sizes is a node for each record, and the bytes of all names and of all string values |
| Wire.SizeOnWire | lib/monikor/src/metrics/metric_list_serialize.c:8-15 | What a list accounts for in memory and what it takes on the wire differ exactly by its nodes, 28 bytes a header, and 8 or 4 bytes a number |
| Metrics.FlagBits | lib/monikor/include/metric.h:20-22 | DELTA, TIMEDELTA and AGGREGATE are the bits 0, 0 and 1, and 2 of the flags |
| Metrics.IntervalIsTime | lib/monikor/src/metrics/metric_compute.c:6-12 | The interval of a rate is the time between the clocks, in seconds |
| MetricStores.MetricStore.constructor | lib/monikor/src/metrics/metric_store.c:7-22 | A new store holds nothing, in three lists of its own |
| MetricStores.MetricStore.PushDelta | lib/monikor/src/metrics/metric_store.c:50-62 | The three lists refine the specification of a DELTA push, with the same success or failure; the recursion goes at most one level deep |
| MetricStores.MetricStore.PushAggregate | lib/monikor/src/metrics/metric_store.c:64-74 | They refine the specification of an aggregate push |
| MetricStores.MetricStore.Push | lib/monikor/src/metrics/metric_store.c:76-83 | They refine the specification of a push |
| MetricStores.MetricStore.Lpush | lib/monikor/src/metrics/metric_store.c:85-93 | The list given is emptied in order into the store, and the result is a failure exactly when some record was refused |
| MetricStores.MetricStore.EvictCache | lib/monikor/src/metrics/metric_store.c:95-101 | Ends without popping an empty list, leaves the specified suffix, whose nodes, names and strings come to at most the limit, and returns exactly the number dropped |
| MetricStores.MetricStore.EvictDelta | lib/monikor/src/metrics/metric_store.c:103-109 | Removes the stale samples and returns their number |
| MetricStores.MetricStore.Flush | lib/monikor/src/metrics/metric_store.c:111-113 | `current` is empty, the rest untouched |
| MetricStores.MetricStore.FlushAll | lib/monikor/src/metrics/metric_store.c:128-132 | All three lists are empty |
| MetricStores.MetricStore.Cache | lib/monikor/src/metrics/metric_store.c:115-117 | What was current follows what was cached |
| MetricStores.MetricStore.Uncache | lib/monikor/src/metrics/metric_store.c:123-126 | Everything is in `current`, the older, cached records in front |
| MetricStores.MetricStore.TakeBatch | src/core/send.c:146-154 | A new list, sharing no node with the store, takes the batch from `current` |
| MetricStores.MetricStore.Recache | src/core/send.c:97 | The records of a batch, nodes and all, follow the cached ones |
| Agents.Monikor.constructor | src/core/update.c:20-23 | The start state of every run |
| Agents.Monikor.SendAllMetrics | src/core/send.c:139-160 | The heap refines the specification of a send: lists in flight share no node with each other or with the store |
| Agents.Monikor.SendCurrent | src/core/send.c:152-159 | Cut a batch, post it or take it back, cache the rest |
| Agents.Monikor.Post | src/core/send.c:129-136 | The batch waits in flight, last of the requests |
| Agents.Monikor.HandleServerResponse | src/core/send.c:73-107 | The heap refines the specification of an answer to any request in flight, in any order |
| Agents.Monikor.Settle | src/io_handler/poll.c:59-66 | The answered request leaves the list of requests, and its batch is no longer anyone else's |
| Agents.Monikor.UpdateBackoff | src/core/update.c:25-42 | The heap refines the specification of a backoff: delay, flush and count |
| Agents.Monikor.UpdateSuccess | src/core/update.c:44-46 | The backoff count is 0 and nothing else changes |
| Agents.Monikor.EvictMetrics | src/core/evict.c:5-14 | The heap refines the specification of an eviction |
| Agents.Monikor.Update | src/core/update.c:11-18 | The heap refines the specification of an update |
| Agents.Monikor.Tick | src/core/run.c:38-44 | `next_update` moves on by a tick and up to the clock |
| Agents.Monikor.FlushAll | src/core/control.c:9-12 | All three lists are emptied, every record logged as flushed |
| Agents.Monikor.PushMetric | src/core/metrics.c:3-8 | A NULL metric is 0 pushed and changes nothing; any other is 1, in a record of its own, and what the store answers is ignored |
| Agents.Monikor.LpushRecords | src/server/handle.c:67-69 | A received list, whose records are the next ones, is pushed whole |
| SampleMap.PushRefinesUpdate | lib/monikor/src/metrics/metric_store.c:40-62 | `delta` refines a map from (name, id) to the latest sample: a DELTA push is refused if and only if the stored value is of another type or a string, which changes nothing, and is the map update otherwise; the list keeps one node per key if and only if the clock differs from the stored one as far as `_timecmp` can tell |
| SampleMap.EvictRefinesFilter | lib/monikor/src/metrics/metric_store.c:103-109 | Eviction removes from the map exactly the samples older than the horizon and keeps one node per key |
| Metrics.TimeCmpOrders | lib/monikor/src/metrics/metric_store.c:33-38 | Within 2^31 seconds `_timecmp` orders clocks by time |
| Metrics.TimeCmpZero | lib/monikor/src/metrics/metric_store.c:33-38 | For all clocks it returns 0 if and only if they are equal or their seconds differ by a multiple of 2^32 |
| KeyRuns.RunKeepsLatest | lib/monikor/src/metrics/metric_store.c:40-62 | In every run whose samples of a key follow one another since the last drop, `delta` holds for that key exactly the latest sample pushed; it holds none if and only if none was pushed since a flush, a backoff or an eviction of a stale sample dropped the last one |
| KeyRuns.StepKeepsLatest | lib/monikor/src/metrics/metric_store.c:103-132 | Each event drops the stored sample exactly under those conditions, and otherwise stores the latest one it pushes |
| KeyRuns.RunKeepsSingle | lib/monikor/src/metrics/metric_store.c:64-83 | In every run where a key is only pushed as an aggregate of one numeric type, `current` holds at most one record of it after every event |
| KeyRuns.StepKeepsSingle | src/core/send.c:142-159 | Each event that takes records out of `current` leaves none of the key there |
| Aggregates.RunMerges | lib/monikor/src/metrics/metric_store.c:64-74 | In every run in which a key is only pushed as an aggregate of one numeric type, after every event `current` holds one record of it if any was pushed since `current` was last emptied, and none otherwise: the first of those, with its own clock, flags and identity, and the sum of all their values, modulo 2^64 for integers |
| Aggregates.LpushMerges | lib/monikor/src/metrics/metric_store.c:85-93 | The same for one list of pushes of any length, other keys among them |
| Counters.LatestSample | lib/monikor/src/metrics/metric_store.c:50-62 | After any one list of pushes regular for a key, mixed with any others, `delta` holds the latest sample of the key and no other |
| Emissions.RunCounts | lib/monikor/src/metrics/metric_compute.c:25-39 | In every run, whatever is sent, answered, evicted or flushed between the samples, an integer DELTA counter emits the sum of max(0, v[i+1] - v[i]) over the samples of each segment between two drops, exactly if it is not aggregated, and up to carries out of 64 bits if it is |
| Emissions.CounterEmits | lib/monikor/src/metrics/metric_compute.c:25-39 | The same from the start of the agent, for every run whose samples of a key follow one another; the segments are all of them, in order |
| Emissions.RunTelescopes | lib/monikor/src/metrics/metric_compute.c:34-37 | In every run without a drop a counter that never decreases emits its last sample less its first, exactly if it is not aggregated and up to carries if it is |
| Emissions.RunChanges | lib/monikor/src/metrics/metric_compute.c:14-16 | In every run the differences a float counter emits, negative ones included, telescope over each segment |
| Emissions.RunRecords | lib/monikor/src/metrics/metric_compute.c:41-61 | In every run a counter that is not aggregated emits, in order, one record per pair of consecutive samples of each segment: their difference, with the clock and the key of the older and neither DELTA bit |
| Emissions.RunRates | lib/monikor/src/metrics/metric_compute.c:6-39 | In every run the rates of a TIMEDELTA counter that is not aggregated are not negative, and weighted by their intervals they add up, segment by segment, to what its samples rose by |
| Emissions.SegmentsPartition | lib/monikor/src/metrics/metric_store.c:50-62 | In every run the segments of a key, one after the other, are exactly its samples pushed |
| Emissions.PushedSteady | lib/monikor/src/metrics/metric_store.c:50-62 | A run whose samples of a key all follow one another meets the hypotheses of these theorems |
| Counters.CounterTotal | lib/monikor/src/metrics/metric_compute.c:25-39 | For one list of pushes, the 64-bit total of an integer DELTA counter in `current` rises by the sum of max(0, v[i+1] - v[i]) over its samples, modulo 2^64, aggregated or not |
| Counters.CounterSum | lib/monikor/src/metrics/metric_store.c:50-74 | For one list of pushes, the same over the integers, up to carries out of 64 bits |
| Counters.IncrementsOfRising | lib/monikor/src/metrics/metric_compute.c:34-37 | For a counter that never decreases that sum is its last sample less its first |
| Counters.FloatsTelescope | lib/monikor/src/metrics/metric_compute.c:14-16 | For one list of pushes the float differences telescope: the key's sum rises by the last sample less the first, decreases included |
| Counters.CounterRecords | lib/monikor/src/metrics/metric_compute.c:41-61 | For one list of pushes, a counter that is not aggregated leaves in `current` one record per pair of consecutive samples: their difference |
| Counters.RateOfDifference | lib/monikor/src/metrics/metric_compute.c:6-39 | The interval dividing a rate is positive, the rate is not negative, and rate times interval is what the counter rose by, integer or float |
| Counters.RatesAddUp | lib/monikor/src/metrics/metric_compute.c:6-39 | Rates of consecutive samples, weighted by their intervals, add up to the sum of the non-negative increments |
| Counters.RisesOfIntegers | lib/monikor/src/metrics/metric_compute.c:30-37 | For integer samples that real sum is the integer one |
| Counters.PushRaisesTotal | lib/monikor/src/metrics/metric_store.c:64-83 | An integer push raises the total of its key in `current` by its value modulo 2^64, whichever path it takes |
| Counters.PushRaisesSum | lib/monikor/src/metrics/metric_compute.c:63-73 | The same over the integers with its carry |
| Counters.PushRaisesFloat | lib/monikor/src/metrics/metric_compute.c:63-73 | A float push raises the real sum of its key by exactly its value |
| Counters.PushOther | lib/monikor/src/metrics/metric_store.c:50-83 | A push touches no record of another key, in `current` or in `delta` |
| Counters.PushNext | lib/monikor/src/metrics/metric_store.c:52-58 | A sample following the stored one takes its place, and exactly their difference is pushed |
| Counters.PushFirst | lib/monikor/src/metrics/metric_store.c:61 | The first sample of a key is stored and nothing is emitted |
| Metrics.DifferenceTells | lib/monikor/src/metrics/metric_compute.c:6-61 | A difference exists if and only if both values are of one numeric type; it has the key, the clock and the other flags of the older sample and neither DELTA bit; added to the older value it gives the newer, or the larger of two integers; for TIMEDELTA it is a float that over the interval amounts to that, or to 0 after a decrease |
| Wire.WholeListRoundTrip | lib/monikor/src/metrics/metric_list_serialize.c:45-67 | An encoded list decodes to the same names, clocks, types, flags and values in order if and only if it has at most 65535 metrics and every name is below 65536 bytes |
| Wire.ListRoundTrip | lib/monikor/src/metrics/metric_list_unserialize.c:65-83 | With short names the first (size mod 65536) metrics come back, in order |
| Wire.BodyRoundTrip | lib/monikor/src/metrics/metric_list_unserialize.c:74-81 | The announced number of metrics comes back, in order |
| Wire.BodyDecodes | lib/monikor/src/metrics/metric_list_unserialize.c:74-81 | Before every metric the cursor stands at the sum of the encoded sizes of those before it: whatever follows the bytes of some metrics they come back in order, and decoding goes on right behind them |
| Wire.LargeCountDecodes | lib/monikor/src/metrics/metric_list_unserialize.c:74 | A count that announces more metrics than the size holds does no harm, whatever follows them |
| Wire.UnknownTypeEnds | lib/monikor/src/metrics/metric_list_unserialize.c:74-77 | A metric of an unknown type ends decoding, and those before it come back |
| Wire.MetricLayout | lib/monikor/src/metrics/metric_list_serialize.c:33-43 | The bytes of a metric at their places: clock, name size, data size, type 0, 1 or 2, flags, name and value, numbers in network order, a negative second in two's complement |
| Wire.ListLayout | lib/monikor/src/metrics/metric_list_serialize.c:45-67 | The bytes of a list: version 1, count, the size of what follows, and the metrics one after the other |
| Wire.CStringTells | lib/monikor/src/metrics/metric_list_unserialize.c:44 | A string read back ends before its first NUL |
| Wire.MetricRoundTrip | lib/monikor/src/metrics/metric_list_unserialize.c:27-55 | A metric followed by anything decodes to itself but for the record and the id |
| Wire.LongNameIsCut | lib/monikor/src/metrics/metric_list_serialize.c:36 | A name of 65536 bytes or more comes back cut to its length modulo 65536, or the metric not at all |
| Wire.HeaderRoundTrip | lib/monikor/src/metrics/metric_list_unserialize.c:34-39 | The header fields the decoder reads are those the encoder wrote, at the same offsets |
| Wire.HeaderFields | lib/monikor/include/metric.h:68-74 | The six fields stand at the documented offsets |
| Wire.ListHeaderFields | lib/monikor/include/metric.h:83-86 | Version, count and data size stand at the documented offsets of the list header, and the body follows it |
| Wire.BodyNamesShort | lib/monikor/src/metrics/metric_list_unserialize.c:65-83 | If every metric came back, the list was short enough and no name was cut |
| Codec.Serialize | lib/monikor/src/metrics/metric_list_serialize.c:54-67 | The encoder fills exactly the bytes it allocated, with the encoding of the list, on hosts of either byte order |
| Codec.SerializedListSize | lib/monikor/src/metrics/metric_list_serialize.c:8-15 | The size computed is the length of the encoding |
| Codec.SerializeMetric | lib/monikor/src/metrics/metric_list_serialize.c:33-43 | Writes the encoding of one metric at an offset, leaves what precedes it, and returns its length |
| Codec.SerializeNameAndData | lib/monikor/src/metrics/metric_list_serialize.c:17-31 | Writes name and value without terminators |
| Codec.SerializeListHeader | lib/monikor/src/metrics/metric_list_serialize.c:45-52 | Writes the 11 bytes of the list header |
| Codec.Unserialize | lib/monikor/src/metrics/metric_list_unserialize.c:65-83 | The cursor loop, bounded by count and data size, builds the list the decoding function describes, stops at an unknown type, and returns its length |
| Codec.MetricFromSerialized | lib/monikor/src/metrics/metric_list_unserialize.c:27-55 | One metric at the cursor, or none for an unknown type |
| Codec.ListHeaderUnserialize | lib/monikor/src/metrics/metric_list_unserialize.c:57-63 | Reads the list header on hosts of either byte order |
| Codec.ValueFromSerialized | lib/monikor/src/metrics/metric_list_unserialize.c:8-25 | Reads a value of the type given |
| ByteOrder.StoreNetworkOrder64 | lib/monikor/src/utils/serialize.c:14-19 | `htonll` stores any 64-bit integer in network order on either kind of host, though it swaps halves |
| ByteOrder.LoadNetworkOrder64 | lib/monikor/src/utils/serialize.c:21-26 | `ntohll` reads any 8 bytes as network order on either kind of host |
| ByteOrder.StoreNetworkOrder | lib/monikor/src/utils/serialize.c:39-47 | The same for the 16-bit and 32-bit conversions, which floats use |
| ByteOrder.LoadNetworkOrder | lib/monikor/src/utils/serialize.c:29-37 | And for reading them |
| ByteOrder.HostTest | lib/monikor/src/utils/serialize.c:5-12 | The host's test of its own byte order is right |
| ByteOrder.FirstWeighsMost | lib/monikor/src/utils/serialize.c:14-26 | In network order the first byte weighs most |
| Delivery.BatchArrives | src/core/send.c:109-137 | A batch posted by a send decodes whole if and only if it has at most 65535 records |
| Delivery.SmallBatchArrives | src/core/send.c:152-154 | It always does when `max_send_size` is at most 65535 times the smallest node |
| Delivery.DefaultBatchIsLost | include/config.h:19 | It does not under the default: with 72 bytes a node, any 65536 integers with 8-byte names make exactly one batch, whose count is 0, and it decodes to nothing |
| Delivery.DefaultRunLosesBatch | include/config.h:19 | So an agent that receives such metrics and sends has in flight one batch of 65536 records that decodes to nothing |
| Reception.HandleClient | src/server/handle.c:41-78 | A client whose header and body arrive complete, in any pieces, has its list pushed whole and is disconnected; one in error is disconnected and nothing is pushed; while its body is awaited nothing changes |
| Reception.ReadList | src/server/handle.c:47-69 | The handler up to its disconnection: header, allocation, read loop, decoding and pushes |
| Reception.ReadClient | src/server/handle.c:56-66 | The read loop ends with exactly the bytes the header announced, or at a read error, and waits as long as neither comes, at an early end of file too |
| Reception.PiecesComplete | src/server/handle.c:57-64 | A body that arrives in any number of non-empty pieces is read whole |
| Reception.PiecesAwaited | src/server/handle.c:56-66 | Pieces short of the body leave the handler waiting, and a read error after them ends it |
| Reception.ClientIsServed | src/server/handle.c:41-78 | A list as an encoder writes it, its body in any non-empty pieces, is served, and exactly the metrics its count announces are pushed, in order, in the receiver's next records |
| Reception.ClientPushesNothing | src/server/handle.c:41-66 | A short header, a failed allocation, a read error or a body still awaited pushes nothing, and the return tells the last from the others |
| Reception.HandleClientData | src/server/handle.c:67-68 | The bytes of a client become exactly the pushes, in order, of the metrics they decode to |
| Reception.Relay | src/server/handle.c:67-68 | From one agent's list to another's store, between hosts of any byte orders: the receiver pushes exactly the metrics the list's count announces |
| Schedule.PollModules | src/core/poll.c:23-35 | Exactly the modules that are due are polled, each of their clocks moves by its own interval and no other, and the result is the number of those polled that answered -1 |
| Schedule.FailuresCount | src/core/poll.c:23-35 | The failures counted are the modules that were polled and answered -1 |
| Schedule.TickInterval | src/core/run.c:10-19 | The smallest of the two global intervals and all modules' own |
| Schedule.Module.constructor | src/modules/load_all_modules.c:8-28 | A missing, malformed, negative or too large interval becomes the global one, and the first turn polls the module |
| Schedule.NoDrift | src/core/poll.c:23-35 | After k polls of a module loaded at L with interval I the last clock is exactly L + (k - 1) * I, however irregular the turns |
| Schedule.LastClockBounds | src/core/poll.c:27-31 | The last clock never passes the turn; with turns at most I apart it is never I behind |
| Schedule.PollCount | src/core/poll.c:23-35 | By time t at most floor((t - L) / I) + 1 polls happened, and exactly that many when turns are frequent enough |
| Schedule.LastWaits | src/core/poll.c:27-31 | From one poll up to the next the last clock stays where the poll put it |
| Schedule.NextPollIsNear | src/core/poll.c:27-31 | With turns at most I apart the next poll comes less than two intervals after this one |
| Schedule.EvictionHorizon | src/core/evict.c:9-12 | Eviction keeps exactly the samples at most three global poll intervals old |
| Schedule.SampleOutlivesLoop | src/core/evict.c:9-12 | In the main loop, with turns at most I apart, I at most the global interval and that below 2^31 / 5 seconds, a sample taken in one turn stays in `delta` through all the loop serves up to the turn that polls its module next, the loop's own evictions among it, unless the store is flushed |
| Schedule.SampleOutlivesWait | src/core/evict.c:9-12 | The same for every run of events whose evictions read the clock no later than that next turn |
| Backoffs.CountIsStreak | src/core/send.c:87-102 | In every run the backoff count is the number of 4xx answers since the last reset, and at most 15 |
| Backoffs.NextUpdateAccounts | src/core/run.c:39-44 | In every run `next_update` is the start plus all ticks, all backoff delays and all rebasing shifts |
| MainLoops.RunTurns | src/core/run.c:25-59 | The loop runs the agent on the heap through, for every turn it reaches, one tick, everything the modules push, one update, and the rounds waited, in that order; it reaches the next turn if and only if a reading had come to the `next_update` that then held; if the clock does not run backwards, no turn but the first begins before the start plus every tick and every backoff delay so far |
| Turns.LoopIsPaced | src/core/run.c:32-57 | The same of the events themselves: the wait makes every loop a paced run |
| Turns.LoopServes | src/core/run.c:32-57 | The events of every loop are, turn by turn, the tick, what was polled, the update and the rounds waited, for exactly the turns that are reached |
| Turns.OneTurnTells | src/core/run.c:38-56 | The same of one turn, and when it is over |
| Turns.WaitedTells | src/core/run.c:49-56 | A wait serves its rounds up to the first whose reading has reached the next update: all before it had not |
| Turns.WaitedEnds | src/core/run.c:49-56 | A wait that is over ended at a reading that had reached `next_update`, the backoff delays served meanwhile included |
| Turns.TurnIsPaced | src/core/run.c:38-56 | One turn with its wait keeps the pace, and the next one may begin |
| Turns.LoopPrefix | src/core/run.c:32-57 | The first turns of a loop serve what begins the events of the whole loop |
| Turns.LoopUpdates | src/core/update.c:11-18 | The only updates of a loop are its turns' own, and evict when those read the clock |
| MainLoops.Wait | src/core/run.c:49-56 | The do-while serves exactly what its rounds poll up to and with the first whose reading is not before the `next_update` that holds after its poll, or all of them if there is none, and says whether there was one |
| MainLoops.TakeTurn | src/core/run.c:38-56 | One turn serves exactly its tick, what the modules push, its update and the rounds it waits, in that order, and is over if and only if the last reading had reached `next_update` |
| MainLoops.Begin | src/core/run.c:38-48 | The state is that after the tick, then every push of the modules, then the update |
| MainLoops.Serve | src/core/sig.c:43-48 | The agent on the heap performs every event of the machine, in any order: a refinement step by step |
| Backoffs.TurnsArePaced | src/core/run.c:49-56 | The bound itself, for every run in which turns begin once the clock has reached `next_update` |
| Backoffs.TotalFactorClosedForm | src/core/update.c:27-41 | The delays of k 4xx answers without a reset come to 0 for k <= 1, 2^k - 2 up to k = 16 and 2^16 - 2 + (k - 16) * 2^15 beyond, in update intervals, for the cap of 15 |
| Backoffs.DelaysWithoutReset | src/core/update.c:25-42 | In every run without a reset the delays are that many update intervals |
| Backoffs.DelaysInFigures | src/core/update.c:25-42 | In figures: k such answers put the next update off by nothing for k <= 1, 2^k - 2 intervals up to k = 16, and 65534 and 32768 for each further one |
| Backoffs.RejectionFlushes | src/core/update.c:27-37 | In every run the first 4xx answer since a reset leaves the store alone and every later one leaves it empty |
| Backoffs.UpdatesAreSpaced | src/core/update.c:12-14 | In every run updates are at least an update interval apart |
| Config.ValueRoundTrip | src/config/config_parse_key.c:8-50 | Parsing the events of any value, whatever follows, gives that value back and consumes exactly those events |
| Config.EntriesRoundTrip | src/config/config_parse_mapping.c:6-39 | The same for any mapping, empty ones included |
| Config.ItemsRoundTrip | src/config/config_parse_list.c:7-34 | And for any sequence of scalars |
| Config.ValueOnly | src/config/config_parse_key.c:8-50 | Conversely, the parser accepts nothing but the events of a value |
| Config.EntriesOnly | src/config/config_parse_mapping.c:6-39 | And nothing but the events of a mapping |
| Config.ItemsOnly | src/config/config_parse_list.c:7-34 | And nothing but the events of a sequence |
| Config.Parser.ConfigParseMapping | src/config/config_parse_mapping.c:6-39 | The loop fails exactly when the grammar does; otherwise it builds the nodes of the mapping, the untouched node for an empty one, and consumes the same events; it ends by events remaining |
| Config.Parser.ConfigParseKey | src/config/config_parse_key.c:8-50 | The same for a value, mutually recursive |
| Config.Parser.ConfigParseList | src/config/config_parse_list.c:7-34 | The same for a sequence |
| Config.SplitJoin | src/utils/strl.c:121-139 | Splitting non-empty, dot-free keys joined with dots gives the keys back |
| Config.TokensAreKeys | src/utils/strl.c:121-139 | Whatever is split, the tokens are non-empty and dot-free |
| Config.TokensTell | src/utils/strl.c:121-139 | The tokens of any string: of a run without dots itself, if not empty, and then those of what follows its dot |
| Config.StrlFromSeparatedString | src/utils/strl.c:121-139 | The tokenising loop computes the tokens |
| Config.WalkRefinesLookup | src/config/config_dict.c:43-59 | The walk through parsed nodes is the recursive first-match lookup in the tree; the keyless node of an empty mapping matches nothing |
| Config.GetSubdict | src/config/config_dict.c:43-59 | The two nested loops compute the walk, NULL included |
| Config.GetDict | src/config/config_dict.c:61-73 | The node found, if it is a mapping |
| Config.GetList | src/config/config_dict.c:75-87 | The list found, if it is one |
| Config.GetScalar | src/config/config_dict.c:89-101 | The scalar found, if it is one |
| Config.ParseThenGetScalar | src/config/config_dict.c:89-101 | Parsing the events of any mapping and getting a scalar by its joined path finds exactly the scalar the tree has there |
| Config.ParseThenGetList | src/config/config_dict.c:75-87 | And getting a list exactly the list, in order |
| Config.ParseThenGetDict | src/config/config_dict.c:61-73 | And getting a dictionary exactly the mapping: a node under the last key with every key and value of it, at all depths |
| Config.NoKeysFindRoot | src/config/config_dict.c:43-59 | A path of dots alone, or none, finds the root |
| Handlers.HandlerList.Push | src/io_handler/list.c:17-25 | The handlers, linked both ways, are the old ones and the new one last |
| Handlers.HandlerList.Remove | src/io_handler/list.c:27-36 | The handlers are the others in order, still linked both ways; the removed one keeps its own pointers |
| Handlers.HandlerList.PollPass | src/io_handler/poll.c:93-104 | One pass ends, visits every handler registered at its start first, in order, and none twice, while callbacks unregister their own handler or register new ones; how many it visits and how many are left is stated exactly, and those left registered are those that did not unregister |
| Handlers.ReachStep | src/io_handler/poll.c:93-104 | With the next handler saved beforehand, one registered during the last callback is not reached |
| Servers.Server.constructor | src/server/init.c:83-90 | No slot is used and no handler serves one |
| Servers.Server.HandleConnection | src/server/handle.c:14-39 | Succeeds exactly when a slot is free, the accept works and the handler can be allocated; then the first free slot is taken by one new handler; otherwise nothing changes; it never returns 1 |
| Servers.Server.Disconnect | src/server/disconnect.c:7-18 | The slot is free, its handler gone and no other, and the client count one less |
| Servers.Server.PollPass | src/io_handler/poll.c:93-104 | A pass with the server's own callbacks, which connect and disconnect clients while it goes on, ends, visits every handler registered at its start first, in order, and none twice, and leaves slots and client handlers in bijection; the clients are then the old ones, less those served, plus one for each ready listener that had a free slot, a connection and a handler, and the handlers are as many more or fewer |
| Servers.Server.Serve | src/server/handle.c:80-88 | Serving a handler keeps the bijection; a ready listener registers one client handler for the accepted socket exactly when a slot is free and accept and allocation succeed, a ready client goes, and others leave the clients alone |
| Servers.MatchedOthers | src/io_handler/list.c:17-36 | Handlers that serve no client come and go without touching the bijection |
| Servers.Server.HandleClient | src/server/handle.c:70-77 | Complete or not, a client's connection ends with its list |
| Servers.MatchedCounts | src/server/handle.c:32-33 | Slots and client handlers in bijection are equally many |
| Servers.Server.Counted | src/server/handle.c:17-19 | `n_clients` is the number of active slots and of client handlers, and at most 10 |
| Servers.MatchedRemove | src/server/disconnect.c:7-18 | Freeing a handler's slot and removing the handler keeps the bijection |
| Servers.MatchedAdd | src/server/handle.c:20-33 | So does taking a free slot with a new handler |
| Commands.CallbackOnce | src/utils/command.c:11-60 | In every run with at most one exit the callback is called at most once, exactly when the process has exited, a read has ended the output, and that read did not fail after the exit; it sees both bits, and the final state and output |
| Commands.BitsTell | src/utils/command.c:19-60 | In every run the descriptor is open if and only if no read so far found the end of the output or failed, and the bits say: exited; output ended; and FAILED exactly when the read that ended the output failed or an exit was not clean |
| Commands.OutputIsAllRead | src/utils/command.c:19-49 | In every run the output is the bytes of every read up to the first that found the end or failed, or nothing if that one failed |
| Commands.CommandExec.HandleCommandOutput | src/utils/command.c:19-49 | The chunked read loop refines one readable event; the descriptor stays open if and only if the last read gave some bytes |
| Commands.CommandExec.HandleProcessExit | src/utils/command.c:51-60 | The exit handler refines one exit event |

## Left out

- Metrics.ComputeDelta: does not model the IEEE rounding of 32-bit floats (rates, float differences and float sums are those of the reals), nor the failure of the clone's allocation.
- MetricStores.MetricStore.Push: does not model the failure of a node's allocation; every list push succeeds.
- MetricLists.MetricList.Empty: does not model the release of nodes and records; the ledger's log of exits stands for it.
- MetricLists.MetricList.FillFrom: `size` and `data_size` are unbounded, while size_t could wrap on more data than memory holds.
- Agents.Monikor.Tick: times and intervals are unbounded integers; overflow of time_t is not modelled.
- MainLoops.RunTurns: is paced if the clock does not run backwards; the tick does not change, since reload is left out, and the loop ends where the given turns do.
- Schedule.Module.constructor: the parsing of the interval's digits is not modelled, only its outcome.
- Schedule.PollModules: what a module pushes while it is polled is a separate event of the agent.
- Codec.MetricFromSerialized: input that the encoder did not write and that is shorter than it claims, where the source reads beyond its buffer, or that has a clock of a million microseconds or more, which the source decodes as it is, is outside its precondition.
- Codec.Unserialize: has the same precondition, for every metric of the list; clocks are normalised throughout the model.
- Reception.HandleClientData: has the same precondition, for the bytes of a client.
- Reception.ReadList: has it for a body that arrives complete.
- Reception.HandleClient: has it too, and waiting for more bytes, for ever after an early end of file, is the result None, where the source does not return.
- Config.Parser.ConfigParseMapping: the linked nodes of a dictionary, and those of a string list, are sequences of values, so the in-place linking is not captured; the events come from the YAML parser, which is not modelled.
- Config.GetSubdict: what it returns is the sequence of nodes from the one found on, where the source returns a pointer to it.
- Servers.Server.PollPass: serving a client is its disconnection; the pushes of its list are in Reception.HandleClient.
- Handlers.HandlerList.PollPass: which descriptors are ready comes from outside; callbacks that unregister other handlers are not modelled.
- Servers.Server.HandleClient: whether the client's list arrives complete comes from outside; how it is read and what its bytes become is in Reception.HandleClient.
- Commands.CallbackOnce: a process is assumed to be reaped at most once; starting the child is not modelled.
- curl, select, sockets, signals, forking, dynamic loading, logging, HTTP headers and file reading: foreign calls that appear only as events and parameters.
- The walk over process handlers in `src/io_handler/monikor.c:43-48`, whose callback may free the node at hand.
- The list of curl handlers, which has the same push and remove as the list of I/O handlers; requests in flight are a sequence.
- Reload (`src/core/reload.c`), which replaces the store and the modules wholesale.
- The metric modules, which scrape text and matter only as sources of pushes.
- Number parsing of the configuration (`src/config/setup_config.c`): intervals and sizes are non-negative parameters.
