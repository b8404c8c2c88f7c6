/** From one agent's batch to another's store: what the 16-bit count on the wire lets through. */
module Delivery {
  import opened Metrics
  import opened MetricLists
  import opened AgentSpec
  import opened Sending
  import opened Wire

  /** A batch handed over by a send arrives whole exactly when it has at most 65535 records. */
  lemma {:induction false} BatchArrives(cfg: Config, a: Agent, fc: FloatCodec, rec: nat, ids: nat -> uint16)
    requires var all := a.store.cache + a.store.current;
             all != [] && AllHoldable(fc, all) && ShortNames(all) && BodySize(all) < TWO_64
    ensures var batch := SendAll(cfg, a, Accepted).inFlight[|a.inFlight|];
            DecodeList(fc, EncodeList(fc, batch), rec, ids) == Decoded(Restored(batch, rec, ids), true)
            <==> |batch| <= COUNT_MAX
  {
    hide DecodeList, EncodeList;
    var all := a.store.cache + a.store.current;
    var n := BatchLength(all, cfg.maxSendSize);
    BodySizePrefix(all, n);
    assert forall m :: m in all[..n] ==> m in all;
    WholeListRoundTrip(fc, all[..n], rec, ids);
  }

  lemma {:induction false} BodySizePrefix(ms: seq<Metric>, n: nat)
    requires n <= |ms|
    ensures BodySize(ms[..n]) <= BodySize(ms)
  {
    if n > 0 {
      BodySizePrefix(ms[1..], n - 1);
      assert ms[..n][1..] == ms[1..][..n - 1];
    }
  }

  /** It always does when the size wanted of a batch is small enough for the platform. */
  lemma {:induction false} SmallBatchArrives(cfg: Config, a: Agent, fc: FloatCodec, rec: nat, ids: nat -> uint16)
    requires var all := a.store.cache + a.store.current;
             all != [] && AllHoldable(fc, all) && ShortNames(all) && BodySize(all) < TWO_64
    requires cfg.maxSendSize <= NODE_BASE * COUNT_MAX
    ensures var batch := SendAll(cfg, a, Accepted).inFlight[|a.inFlight|];
            DecodeList(fc, EncodeList(fc, batch), rec, ids) == Decoded(Restored(batch, rec, ids), true)
  {
    hide DecodeList, EncodeList;
    BatchArrives(cfg, a, fc, rec, ids);
    BatchFitsCount(a.store.cache + a.store.current, cfg.maxSendSize);
  }

  const DEFAULT_MAX_SEND_SIZE := 5 * 1024 * 1024

  /** An integer with a name of 8 bytes */
  predicate EightByteNamed(m: Metric) {
    |m.name| == 8 && m.value.Integer? && Clocked(m)
  }

  lemma {:induction false} EqualBodies(ms: seq<Metric>)
    requires forall m :: m in ms ==> EightByteNamed(m)
    ensures BodySize(ms) == (METRIC_HDR_SIZE + 16) * |ms|
  {
    if ms != [] {
      assert ms[0] in ms && forall m :: m in ms[1..] ==> m in ms;
      EqualBodies(ms[1..]);
    }
  }

  /** It does not under the default size: where a node with its record takes 72 bytes, any 65536 such integers make one
      batch, whose count wraps to 0, and the receiver gets none of them. */
  lemma DefaultBatchIsLost(ms: seq<Metric>, fc: FloatCodec, rec: nat, ids: nat -> uint16)
    requires NODE_BASE == 72 && |ms| == 0x1_0000 && forall m :: m in ms ==> EightByteNamed(m)
    ensures BatchLength(ms, DEFAULT_MAX_SEND_SIZE) == |ms|
    ensures DecodeList(fc, EncodeList(fc, ms), rec, ids) == Decoded([], true)
  {
    hide DecodeList, EncodeList, BatchLength;
    var n := |ms|;
    assert ms[..n] == ms && forall m :: m in ms[..n - 1] ==> m in ms;
    EqualSizes(ms, 80);
    EqualSizes(ms[..n - 1], 80);
    BatchIsShortest(ms, DEFAULT_MAX_SEND_SIZE, n);
    EqualBodies(ms);
    ListRoundTrip(fc, ms, rec, ids);
  }

  /** So an agent that receives 65536 of them and sends under the default size has in flight one batch, of all of them,
      that decodes to nothing. */
  lemma DefaultRunLosesBatch(cfg: Config, now: Timeval, ms: seq<Metric>, fc: FloatCodec, rec: nat, ids: nat -> uint16)
    requires NODE_BASE == 72 && cfg.maxSendSize == DEFAULT_MAX_SEND_SIZE
    requires |ms| == 0x1_0000 && forall m :: m in ms ==> EightByteNamed(m) && Plain(m)
    ensures var batches := Run(cfg, Start(now), [Received(ms), Sends(Accepted)]).inFlight;
            |batches| == 1 && |batches[0]| == 0x1_0000
            && DecodeList(fc, EncodeList(fc, batches[0]), rec, ids) == Decoded([], true)
  {
    hide DecodeList, EncodeList, BatchLength, Run, Allocated;
    var all := Allocated(0, ms);
    AllocatedAll(0, ms, EightByteNamed);
    ReceivedThenSent(cfg, now, ms);
    DefaultBatchIsLost(all, fc, rec, ids);
    assert all[..|all|] == all;
  }
}
