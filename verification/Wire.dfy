/** The wire format of a metric list: what the encoder writes, what the decoder reads, and that they undo each other. */
module Wire {
  import opened Wrappers
  import opened Metrics
  import opened ByteOrder
  import opened Sequences

  const METRIC_HDR_SIZE := 28
  const LIST_HDR_SIZE := 11
  const VERSION := 1

  const SEC_OFF := 0
  const USEC_OFF := 8
  const NAME_SIZE_OFF := 16
  const DATA_SIZE_OFF := 18
  const TYPE_OFF := 26
  const FLAGS_OFF := 27

  /** The 32-bit pattern of a float, and the float of a pattern */
  datatype FloatCodec = FloatCodec(pattern: real -> uint32, float: uint32 -> real)

  // ---------- Encoding ----------

  /** The conversion of a signed field to uint64_t, and back to time_t */
  function Unsigned(n: int): uint64 {
    n % TWO_64
  }

  function Signed(n: uint64): int {
    if n < 0x8000_0000_0000_0000 then n else n - TWO_64
  }

  function TypeCode(v: Value): byte {
    match v
    case Integer(_) => 0
    case Float(_) => 1
    case Text(_) => 2
  }

  function ValueBytes(fc: FloatCodec, v: Value): (r: seq<byte>)
    ensures |r| == ValueSize(v)
  {
    match v
    case Integer(n) => Big(8, n)
    case Float(x) => Big(4, fc.pattern(x))
    case Text(s) => s
  }

  function Header(m: Metric): (r: seq<byte>)
    ensures |r| == METRIC_HDR_SIZE
  {
    Big(8, Unsigned(m.clock.sec)) + Big(8, Unsigned(m.clock.usec)) + Big(2, |m.name| % 0x1_0000)
    + Big(8, ValueSize(m.value) % TWO_64) + [TypeCode(m.value), m.flags]
  }

  function EncodedSize(m: Metric): nat {
    METRIC_HDR_SIZE + |m.name| + ValueSize(m.value)
  }

  function EncodeMetric(fc: FloatCodec, m: Metric): (r: seq<byte>)
    ensures |r| == EncodedSize(m)
  {
    Header(m) + m.name + ValueBytes(fc, m.value)
  }

  function BodySize(ms: seq<Metric>): nat {
    if ms == [] then 0 else EncodedSize(ms[0]) + BodySize(ms[1..])
  }

  function Body(fc: FloatCodec, ms: seq<Metric>): (r: seq<byte>)
    ensures |r| == BodySize(ms)
  {
    if ms == [] then [] else EncodeMetric(fc, ms[0]) + Body(fc, ms[1..])
  }

  /** The bytes of all numbers: 8 for an integer, 4 for a float */
  function NumberBytes(ms: seq<Metric>): nat {
    if ms == [] then 0
    else NumberBytes(ms[1..]) + match ms[0].value case Integer(_) => 8 case Float(_) => 4 case Text(_) => 0
  }

  /** What a list accounts for in memory and what it takes on the wire differ by its nodes, headers and numbers. */
  lemma {:induction false} SizeOnWire(fc: FloatCodec, ms: seq<Metric>)
    ensures |Body(fc, ms)| + NODE_BASE * |ms| == DataSize(ms) + 28 * |ms| + NumberBytes(ms)
  {
    hide EncodeMetric, Body;
    if ms != [] {
      SizeOnWire(fc, ms[1..]);
      assert |Body(fc, ms)| == BodySize(ms) == EncodedSize(ms[0]) + BodySize(ms[1..]);
      assert NODE_BASE * |ms| == NODE_BASE * |ms[1..]| + NODE_BASE;
    }
  }

  function ListHeader(ms: seq<Metric>): (r: seq<byte>)
    ensures |r| == LIST_HDR_SIZE
  {
    [VERSION] + Big(2, |ms| % 0x1_0000) + Big(8, BodySize(ms) % TWO_64)
  }

  function EncodeList(fc: FloatCodec, ms: seq<Metric>): (r: seq<byte>)
    ensures |r| == LIST_HDR_SIZE + BodySize(ms)
  {
    ListHeader(ms) + Body(fc, ms)
  }

  // ---------- Decoding ----------

  /** strndup: the bytes up to the first NUL */
  function CString(bytes: seq<byte>): cstring {
    if bytes == [] || bytes[0] == 0 then [] else [bytes[0]] + CString(bytes[1..])
  }

  lemma {:induction false} CStringTells(bytes: seq<byte>)
    ensures var s := CString(bytes); s <= bytes && (|s| < |bytes| ==> bytes[|s|] == 0)
  {
    if bytes != [] && bytes[0] != 0 {
      CStringTells(bytes[1..]);
    }
  }

  /** A metric, or NULL for an unknown type; Undefined when bytes beyond the buffer would be read or the clock is
      not a normalised one, which never happens on what the encoder wrote. */
  datatype Parsed = Got(metric: Metric) | Null | Undefined

  function DecodeValue(fc: FloatCodec, code: byte, data: seq<byte>, dataSize: nat): Option<Value>
    requires code <= 2
  {
    match code
    case 0 =>
      if |data| < 8 then None
      else
        Pow256Four();
        FromBigBound(data[..8]);
        Some(Integer(FromBig(data[..8])))
    case 1 =>
      if |data| < 4 then None
      else
        Pow256Four();
        FromBigBound(data[..4]);
        Some(Float(fc.float(FromBig(data[..4]))))
    case _ => if |data| < dataSize then None else Some(Text(CString(data[..dataSize])))
  }

  datatype MetricHdr = MetricHdr(sec: int, usec: int, nameSize: nat, dataSize: nat, code: byte, flags: uint8)

  function ReadHeader(data: seq<byte>): MetricHdr
    requires |data| >= METRIC_HDR_SIZE
  {
    MetricHdr(FieldSigned(data[SEC_OFF..USEC_OFF]), FieldSigned(data[USEC_OFF..NAME_SIZE_OFF]),
              FromBig(data[NAME_SIZE_OFF..DATA_SIZE_OFF]), FromBig(data[DATA_SIZE_OFF..TYPE_OFF]),
              data[TYPE_OFF], data[FLAGS_OFF])
  }

  /** The metric at the start of `data`, in the record `rec`; its id is what that record happened to hold. */
  function DecodeMetric(fc: FloatCodec, data: seq<byte>, rec: nat, id: uint16): Parsed {
    if |data| < METRIC_HDR_SIZE then Undefined
    else DecodeAfter(fc, ReadHeader(data), data[METRIC_HDR_SIZE..], rec, id)
  }

  function DecodeAfter(fc: FloatCodec, h: MetricHdr, data: seq<byte>, rec: nat, id: uint16): Parsed {
    if !(0 <= h.usec < 1_000_000) || |data| < h.nameSize then Undefined
    else if h.code > 2 then Null
    else match DecodeValue(fc, h.code, data[h.nameSize..], h.dataSize)
      case None => Undefined
      case Some(v) => Got(Metric(rec, CString(data[..h.nameSize]), id, Timeval(h.sec, h.usec), h.flags, v))
  }

  function FieldSigned(bytes: seq<byte>): int
    requires |bytes| == 8
  {
    Pow256Four();
    FromBigBound(bytes);
    Signed(FromBig(bytes))
  }

  datatype Decoded = Decoded(metrics: seq<Metric>, defined: bool)

  /** The decoder's loop at offset `pos` of the body `data`, with `count` metrics still announced; `ids(i)` is what
      the i-th record it allocates happens to hold as its id. */
  function DecodeBody(fc: FloatCodec, data: seq<byte>, pos: nat, limit: nat, count: nat, rec: nat, ids: nat -> uint16)
    : Decoded
    decreases count
  {
    if count == 0 || pos >= limit then Decoded([], true)
    else if pos > |data| then Decoded([], false)
    else match DecodeMetric(fc, data[pos..], rec, ids(rec))
      case Null => Decoded([], true)
      case Undefined => Decoded([], false)
      case Got(m) =>
        var rest := DecodeBody(fc, data, pos + EncodedSize(m), limit, count - 1, rec + 1, ids);
        Decoded([m] + rest.metrics, rest.defined)
  }

  function DecodeList(fc: FloatCodec, bytes: seq<byte>, rec: nat, ids: nat -> uint16): Decoded
    requires |bytes| >= LIST_HDR_SIZE
  {
    DecodeBody(fc, bytes[LIST_HDR_SIZE..], 0, FromBig(bytes[3..11]), FromBig(bytes[1..3]), rec, ids)
  }

  // ---------- Round trips ----------

  lemma {:induction false} CStringOfText(s: cstring, n: nat)
    requires n <= |s|
    ensures CString(s[..n]) == s[..n]
  {
    if n > 0 {
      var bytes: seq<byte> := s[..n];
      assert bytes[1..] == s[1..][..n - 1];
      CStringOfText(s[1..], n - 1);
    }
  }

  /** The fields of a header, back */
  lemma HeaderFields(m: Metric, data: seq<byte>)
    requires |data| >= METRIC_HDR_SIZE && data[..METRIC_HDR_SIZE] == Header(m)
    ensures data[SEC_OFF..USEC_OFF] == Big(8, Unsigned(m.clock.sec))
    ensures data[USEC_OFF..NAME_SIZE_OFF] == Big(8, Unsigned(m.clock.usec))
    ensures data[NAME_SIZE_OFF..DATA_SIZE_OFF] == Big(2, |m.name| % 0x1_0000)
    ensures data[DATA_SIZE_OFF..TYPE_OFF] == Big(8, ValueSize(m.value) % TWO_64)
    ensures data[TYPE_OFF] == TypeCode(m.value) && data[FLAGS_OFF] == m.flags
  {
    hide Big;
    var h := Header(m);
    SliceOfPrefix(data, METRIC_HDR_SIZE, SEC_OFF, USEC_OFF);
    SliceOfPrefix(data, METRIC_HDR_SIZE, USEC_OFF, NAME_SIZE_OFF);
    SliceOfPrefix(data, METRIC_HDR_SIZE, NAME_SIZE_OFF, DATA_SIZE_OFF);
    SliceOfPrefix(data, METRIC_HDR_SIZE, DATA_SIZE_OFF, TYPE_OFF);
    assert data[TYPE_OFF] == h[TYPE_OFF] && data[FLAGS_OFF] == h[FLAGS_OFF];
  }

  lemma UnsignedTells(m: Metric)
    requires Clocked(m)
    ensures Unsigned(m.clock.sec) == if m.clock.sec < 0 then m.clock.sec + TWO_64 else m.clock.sec
    ensures Unsigned(m.clock.usec) == m.clock.usec
  {}

  lemma MetricParts(fc: FloatCodec, m: Metric)
    ensures var b, n := EncodeMetric(fc, m), |m.name|;
            |b| >= 28 + n && b[..28] == Header(m) && b[28..28 + n] == m.name && b[28 + n..] == ValueBytes(fc, m.value)
  {
    hide Header, ValueBytes;
  }

  lemma ValueLayout(fc: FloatCodec, v: Value)
    ensures match v
            case Integer(i) => ValueSize(v) == 8 && TypeCode(v) == 0 && ValueBytes(fc, v) == Big(8, i)
            case Float(x) => ValueSize(v) == 4 && TypeCode(v) == 1 && ValueBytes(fc, v) == Big(4, fc.pattern(x))
            case Text(s) => ValueSize(v) == |s| && TypeCode(v) == 2 && ValueBytes(fc, v) == s
  {
    hide Big;
  }

  /** The bytes of a metric: clock, sizes, type, flags, name and value, at fixed places and in network order */
  lemma MetricLayout(fc: FloatCodec, m: Metric)
    requires Clocked(m) && ValueSize(m.value) < TWO_64
    ensures var b, n := EncodeMetric(fc, m), |m.name|;
            && |b| >= 28 + n
            && b[0..8] == Big(8, if m.clock.sec < 0 then m.clock.sec + TWO_64 else m.clock.sec)
            && b[8..16] == Big(8, m.clock.usec) && b[16..18] == Big(2, n % 0x1_0000)
            && b[27] == m.flags && b[28..28 + n] == m.name
            && match m.value
               case Integer(i) => b[18..26] == Big(8, 8) && b[26] == 0 && b[28 + n..] == Big(8, i)
               case Float(x) => b[18..26] == Big(8, 4) && b[26] == 1 && b[28 + n..] == Big(4, fc.pattern(x))
               case Text(s) => b[18..26] == Big(8, |s|) && b[26] == 2 && b[28 + n..] == s
  {
    hide Big, EncodeMetric, Header, ValueBytes, TypeCode, ValueSize, Unsigned, Clocked;
    UnsignedTells(m);
    MetricParts(fc, m);
    HeaderFields(m, EncodeMetric(fc, m));
    ValueLayout(fc, m.value);
  }

  /** The bytes of a list: version, count, the size of what follows, and the metrics one after the other */
  lemma ListLayout(fc: FloatCodec, ms: seq<Metric>)
    requires BodySize(ms) < TWO_64
    ensures var b := EncodeList(fc, ms);
            && |b| >= 11 && b[0] == 1 && b[1..3] == Big(2, |ms| % 0x1_0000) && b[3..11] == Big(8, |b| - 11)
            && b[11..] == Body(fc, ms)
    ensures ms != [] ==> Body(fc, ms) == EncodeMetric(fc, ms[0]) + Body(fc, ms[1..])
  {
    BodyFirst(fc, ms);
    hide Big, Body, BodySize;
    var b, h := EncodeList(fc, ms), ListHeader(ms);
    assert b[..11] == h && b[11..] == Body(fc, ms);
    assert h[1..3] == Big(2, |ms| % 0x1_0000) && h[3..11] == Big(8, BodySize(ms));
    SliceOfPrefix(b, 11, 1, 3);
    SliceOfPrefix(b, 11, 3, 11);
    assert b[0] == h[0];
  }

  lemma BodyFirst(fc: FloatCodec, ms: seq<Metric>)
    ensures ms != [] ==> Body(fc, ms) == EncodeMetric(fc, ms[0]) + Body(fc, ms[1..])
  {
    hide EncodeMetric, EncodedSize;
  }

  predicate Clocked(m: Metric) {
    -0x8000_0000_0000_0000 <= m.clock.sec < 0x8000_0000_0000_0000
  }

  /** The metric is one the C types can hold: a 64-bit clock, a float that is a 32-bit one, sizes in 64 bits. */
  predicate Holdable(fc: FloatCodec, m: Metric) {
    && Clocked(m)
    && (m.value.Float? ==> fc.float(fc.pattern(m.value.x)) == m.value.x)
    && ValueSize(m.value) < TWO_64
  }

  lemma SignedRoundTrip(n: int)
    requires -0x8000_0000_0000_0000 <= n < 0x8000_0000_0000_0000
    ensures Signed(Unsigned(n)) == n && FieldSigned(Big(8, Unsigned(n))) == n
  {
    Pow256Four();
    BigRoundTrip(8, Unsigned(n));
  }

  /** The value, back, whatever follows it */
  lemma ValueRoundTrip(fc: FloatCodec, m: Metric, data: seq<byte>)
    requires Holdable(fc, m) && |data| >= ValueSize(m.value) && data[..ValueSize(m.value)] == ValueBytes(fc, m.value)
    ensures DecodeValue(fc, TypeCode(m.value), data, ValueSize(m.value)) == Some(m.value)
  {
    Pow256Four();
    match m.value
    case Integer(n) => BigRoundTrip(8, n);
    case Float(x) => BigRoundTrip(4, fc.pattern(x));
    case Text(s) =>
      CStringOfText(s, |s|);
      assert s[..|s|] == s;
  }

  /** The header the decoder reads is the one the encoder wrote. */
  lemma HeaderRoundTrip(m: Metric, data: seq<byte>)
    requires Clocked(m) && |data| >= METRIC_HDR_SIZE && data[..METRIC_HDR_SIZE] == Header(m)
    ensures ReadHeader(data) == MetricHdr(m.clock.sec, m.clock.usec, |m.name| % 0x1_0000,
                                          ValueSize(m.value) % TWO_64, TypeCode(m.value), m.flags)
  {
    HeaderFields(m, data);
    SignedRoundTrip(m.clock.sec);
    SignedRoundTrip(m.clock.usec);
    Pow256Four();
    BigRoundTrip(2, |m.name| % 0x1_0000);
    BigRoundTrip(8, ValueSize(m.value) % TWO_64);
  }

  /** What follows the header, in an encoded metric and the rest of the buffer */
  lemma AfterHeader(fc: FloatCodec, m: Metric, rest: seq<byte>)
    ensures var data := EncodeMetric(fc, m) + rest;
            data[..METRIC_HDR_SIZE] == Header(m)
            && data[METRIC_HDR_SIZE..] == m.name + ValueBytes(fc, m.value) + rest
  {}

  lemma AfterRoundTrip(fc: FloatCodec, m: Metric, h: MetricHdr, data: seq<byte>, rest: seq<byte>, rec: nat, id: uint16)
    requires Holdable(fc, m) && data == m.name + ValueBytes(fc, m.value) + rest
    requires h == MetricHdr(m.clock.sec, m.clock.usec, |m.name|, ValueSize(m.value), TypeCode(m.value), m.flags)
    ensures DecodeAfter(fc, h, data, rec, id) == Got(m.(rec := rec, id := id))
  {
    assert data[..|m.name|] == m.name && CString(m.name) == m.name by {
      CStringOfText(m.name, |m.name|);
      assert m.name[..|m.name|] == m.name;
    }
    assert DecodeValue(fc, TypeCode(m.value), data[|m.name|..], ValueSize(m.value)) == Some(m.value) by {
      assert data[|m.name|..] == ValueBytes(fc, m.value) + rest;
      ValueRoundTrip(fc, m, data[|m.name|..]);
    }
  }

  /** Decoding an encoded metric gives it back, but for the record and the id, if its name is below 65536 bytes. */
  lemma MetricRoundTrip(fc: FloatCodec, m: Metric, rest: seq<byte>, rec: nat, id: uint16)
    requires Holdable(fc, m) && |m.name| < 0x1_0000
    ensures DecodeMetric(fc, EncodeMetric(fc, m) + rest, rec, id) == Got(m.(rec := rec, id := id))
  {
    hide ReadHeader, DecodeAfter, Header, ValueBytes, EncodeMetric;
    var data, body := EncodeMetric(fc, m) + rest, m.name + ValueBytes(fc, m.value) + rest;
    AfterHeader(fc, m, rest);
    HeaderRoundTrip(m, data);
    assert DecodeMetric(fc, data, rec, id) == DecodeAfter(fc, ReadHeader(data), body, rec, id);
    AfterRoundTrip(fc, m, ReadHeader(data), body, rest, rec, id);
  }

  /** A longer name comes back cut, or not at all. */
  lemma LongNameIsCut(fc: FloatCodec, m: Metric, rest: seq<byte>, rec: nat, id: uint16)
    requires Clocked(m)
    ensures var p := DecodeMetric(fc, EncodeMetric(fc, m) + rest, rec, id);
            p.Got? ==> p.metric.name == m.name[..|m.name| % 0x1_0000]
  {
    hide ReadHeader, DecodeValue, Header, ValueBytes, EncodeMetric;
    AfterHeader(fc, m, rest);
    HeaderRoundTrip(m, EncodeMetric(fc, m) + rest);
    var n := |m.name| % 0x1_0000;
    assert (m.name + ValueBytes(fc, m.value) + rest)[..n] == m.name[..n];
    CStringOfText(m.name, n);
  }

  /** The metrics as the decoder stores them: in records of its own, with the ids it found there */
  function Restored(ms: seq<Metric>, rec: nat, ids: nat -> uint16): (r: seq<Metric>)
    ensures |r| == |ms|
    decreases |ms|
  {
    if ms == [] then [] else [ms[0].(rec := rec, id := ids(rec))] + Restored(ms[1..], rec + 1, ids)
  }

  lemma {:induction false} RestoredAt(ms: seq<Metric>, rec: nat, ids: nat -> uint16, i: nat)
    requires i < |ms|
    ensures Restored(ms, rec, ids)[i] == ms[i].(rec := rec + i, id := ids(rec + i))
    decreases |ms|
  {
    if i > 0 {
      RestoredAt(ms[1..], rec + 1, ids, i - 1);
    }
  }

  predicate AllHoldable(fc: FloatCodec, ms: seq<Metric>) {
    forall m :: m in ms ==> Holdable(fc, m)
  }

  predicate ShortNames(ms: seq<Metric>) {
    forall m :: m in ms ==> |m.name| < 0x1_0000
  }

  lemma BodySuffix(fc: FloatCodec, ms: seq<Metric>, data: seq<byte>, pos: nat, rest: seq<byte>)
    requires ms != [] && pos <= |data| && data[pos..] == Body(fc, ms) + rest
    ensures var next := pos + EncodedSize(ms[0]);
            next <= |data| && data[next..] == Body(fc, ms[1..]) + rest
            && data[pos..] == EncodeMetric(fc, ms[0]) + (Body(fc, ms[1..]) + rest)
  {
    BodyFirst(fc, ms);
    hide Body, EncodeMetric, EncodedSize;
    SuffixStep(data, pos, EncodeMetric(fc, ms[0]), Body(fc, ms[1..]), rest);
  }

  /** One turn of the decoder's loop */
  lemma DecodeTurn(fc: FloatCodec, data: seq<byte>, pos: nat, limit: nat, count: nat, rec: nat, ids: nat -> uint16,
                   m: Metric)
    requires count > 0 && pos < limit && pos <= |data|
    requires DecodeMetric(fc, data[pos..], rec, ids(rec)) == Got(m)
    ensures var rest := DecodeBody(fc, data, pos + EncodedSize(m), limit, count - 1, rec + 1, ids);
            DecodeBody(fc, data, pos, limit, count, rec, ids) == Decoded([m] + rest.metrics, rest.defined)
  {
    hide DecodeMetric;
  }

  /** ... which ends when no metric or no byte is left, or at an unknown type. */
  lemma DecodeEnd(fc: FloatCodec, data: seq<byte>, pos: nat, limit: nat, count: nat, rec: nat, ids: nat -> uint16)
    requires count == 0 || pos >= limit || (pos <= |data| && DecodeMetric(fc, data[pos..], rec, ids(rec)).Null?)
    ensures DecodeBody(fc, data, pos, limit, count, rec, ids) == Decoded([], true)
  {
    hide DecodeMetric;
  }

  /** The cursor of a defined run is inside the buffer, and so is the metric it stands at. */
  lemma DecodeInside(fc: FloatCodec, data: seq<byte>, pos: nat, limit: nat, count: nat, rec: nat, ids: nat -> uint16)
    requires count > 0 && pos < limit && DecodeBody(fc, data, pos, limit, count, rec, ids).defined
    ensures pos <= |data| && !DecodeMetric(fc, data[pos..], rec, ids(rec)).Undefined?
  {
    hide DecodeMetric;
  }

  /** The decoder's cursor stands, before each metric, at the sum of the sizes of the metrics before it: whatever
      follows the bytes of some metrics, they come back in order, and decoding goes on behind them. */
  lemma {:induction false} BodyDecodes(fc: FloatCodec, ms: seq<Metric>, data: seq<byte>, pos: nat, limit: nat,
                                       count: nat, rec: nat, ids: nat -> uint16, rest: seq<byte>)
    requires AllHoldable(fc, ms) && ShortNames(ms) && |ms| <= count
    requires pos <= |data| && data[pos..] == Body(fc, ms) + rest && pos + BodySize(ms) <= limit
    ensures var after := DecodeBody(fc, data, pos + BodySize(ms), limit, count - |ms|, rec + |ms|, ids);
            DecodeBody(fc, data, pos, limit, count, rec, ids)
            == Decoded(Restored(ms, rec, ids) + after.metrics, after.defined)
    decreases |ms|
  {
    hide DecodeMetric, EncodeMetric, Body, EncodedSize, Holdable, DecodeBody;
    if ms == [] {
      assert BodySize(ms) == 0;
    } else {
      var m, tail, m' := ms[0], ms[1..], ms[0].(rec := rec, id := ids(rec));
      BodySuffix(fc, ms, data, pos, rest);
      assert m in ms && forall x :: x in tail ==> x in ms;
      MetricRoundTrip(fc, m, Body(fc, tail) + rest, rec, ids(rec));
      SizeIgnores(m, rec, ids(rec));
      DecodeTurn(fc, data, pos, limit, count, rec, ids, m');
      BodyDecodes(fc, tail, data, pos + EncodedSize(m), limit, count - 1, rec + 1, ids, rest);
      var after := DecodeBody(fc, data, pos + BodySize(ms), limit, count - |ms|, rec + |ms|, ids);
      assert [m'] + (Restored(tail, rec + 1, ids) + after.metrics) == Restored(ms, rec, ids) + after.metrics;
    }
  }

  lemma {:induction false} BodyConcat(fc: FloatCodec, a: seq<Metric>, b: seq<Metric>)
    ensures Body(fc, a + b) == Body(fc, a) + Body(fc, b)
  {
    hide EncodeMetric;
    if a == [] {
      assert a + b == b;
    } else {
      assert (a + b)[1..] == a[1..] + b;
      BodyConcat(fc, a[1..], b);
    }
  }

  /** The announced number of metrics comes back in order. */
  lemma BodyRoundTrip(fc: FloatCodec, ms: seq<Metric>, count: nat, rec: nat, ids: nat -> uint16)
    requires AllHoldable(fc, ms) && ShortNames(ms) && count <= |ms|
    ensures DecodeBody(fc, Body(fc, ms), 0, BodySize(ms), count, rec, ids)
         == Decoded(Restored(ms[..count], rec, ids), true)
  {
    hide Holdable, DecodeBody, Body, BodySize, Restored;
    var data, front := Body(fc, ms), ms[..count];
    BodyConcat(fc, front, ms[count..]);
    assert ms == front + ms[count..] && data[0..] == data;
    assert forall m :: m in front ==> m in ms;
    BodyDecodes(fc, front, data, 0, BodySize(ms), count, rec, ids, Body(fc, ms[count..]));
    DecodeEnd(fc, data, BodySize(front), BodySize(ms), 0, rec + count, ids);
  }

  /** A count that announces too many does no harm: decoding ends where the size announced does. */
  lemma LargeCountDecodes(fc: FloatCodec, ms: seq<Metric>, rest: seq<byte>, count: nat, rec: nat, ids: nat -> uint16)
    requires AllHoldable(fc, ms) && ShortNames(ms) && |ms| <= count
    ensures DecodeBody(fc, Body(fc, ms) + rest, 0, BodySize(ms), count, rec, ids)
         == Decoded(Restored(ms, rec, ids), true)
  {
    hide Holdable, DecodeBody, Body, BodySize, Restored;
    var data := Body(fc, ms) + rest;
    assert data[0..] == data;
    BodyDecodes(fc, ms, data, 0, BodySize(ms), count, rec, ids, rest);
    DecodeEnd(fc, data, BodySize(ms), BodySize(ms), count - |ms|, rec + |ms|, ids);
  }

  predicate OfUnknownType(b: seq<byte>) {
    |b| >= 28 && b[26] > 2 && |b| >= 28 + FromBig(b[16..18]) && 0 <= FieldSigned(b[8..16]) < 1_000_000
  }

  lemma UnknownTypeIsNull(fc: FloatCodec, b: seq<byte>, rec: nat, id: uint16)
    requires OfUnknownType(b)
    ensures DecodeMetric(fc, b, rec, id).Null?
  {
    hide FieldSigned, FromBig;
  }

  /** A metric of an unknown type ends decoding, and those before it come back. */
  lemma UnknownTypeEnds(fc: FloatCodec, ms: seq<Metric>, b: seq<byte>, limit: nat, count: nat, rec: nat,
                        ids: nat -> uint16)
    requires AllHoldable(fc, ms) && ShortNames(ms) && |ms| <= count && BodySize(ms) <= limit
    requires OfUnknownType(b)
    ensures DecodeBody(fc, Body(fc, ms) + b, 0, limit, count, rec, ids) == Decoded(Restored(ms, rec, ids), true)
  {
    hide Holdable, DecodeBody, DecodeMetric, Body, BodySize, Restored, OfUnknownType;
    UnknownTypeIsNull(fc, b, rec + |ms|, ids(rec + |ms|));
    var data := Body(fc, ms) + b;
    assert data[0..] == data && data[BodySize(ms)..] == b;
    BodyDecodes(fc, ms, data, 0, limit, count, rec, ids, b);
    DecodeEnd(fc, data, BodySize(ms), limit, count - |ms|, rec + |ms|, ids);
  }

  lemma ListHeaderFields(fc: FloatCodec, ms: seq<Metric>)
    requires BodySize(ms) < TWO_64
    ensures var bytes := EncodeList(fc, ms);
            && bytes[0] == VERSION && FromBig(bytes[1..3]) == |ms| % 0x1_0000 && FromBig(bytes[3..11]) == BodySize(ms)
            && bytes[LIST_HDR_SIZE..] == Body(fc, ms)
  {
    hide Big, FromBig, Body, BodySize;
    var bytes, h := EncodeList(fc, ms), ListHeader(ms);
    assert bytes[..LIST_HDR_SIZE] == h && bytes[LIST_HDR_SIZE..] == Body(fc, ms);
    assert h[1..3] == Big(2, |ms| % 0x1_0000) && h[3..11] == Big(8, BodySize(ms));
    SliceOfPrefix(bytes, LIST_HDR_SIZE, 1, 3);
    SliceOfPrefix(bytes, LIST_HDR_SIZE, 3, 11);
    Pow256Four();
    BigRoundTrip(2, |ms| % 0x1_0000);
    BigRoundTrip(8, BodySize(ms));
  }

  /** What a list's decoder runs on is the body the encoder wrote. */
  lemma {:induction false} DecodeListIs(fc: FloatCodec, ms: seq<Metric>, rec: nat, ids: nat -> uint16)
    requires BodySize(ms) < TWO_64
    ensures DecodeList(fc, EncodeList(fc, ms), rec, ids)
         == DecodeBody(fc, Body(fc, ms), 0, BodySize(ms), |ms| % 0x1_0000, rec, ids)
  {
    hide DecodeBody, EncodeList, Body, BodySize;
    ListHeaderFields(fc, ms);
  }

  /** The metrics that the 16-bit count of a list announces: the first (size mod 65536) */
  function Announced(ms: seq<Metric>): seq<Metric> {
    ms[..|ms| % 0x1_0000]
  }

  /** Decoding an encoded list gives back, in order, the metrics its count announces. */
  lemma {:induction false} ListRoundTrip(fc: FloatCodec, ms: seq<Metric>, rec: nat, ids: nat -> uint16)
    requires AllHoldable(fc, ms) && ShortNames(ms) && BodySize(ms) < TWO_64
    ensures DecodeList(fc, EncodeList(fc, ms), rec, ids) == Decoded(Restored(Announced(ms), rec, ids), true)
  {
    hide DecodeBody, DecodeList, EncodeList, Body, BodySize, Restored;
    DecodeListIs(fc, ms, rec, ids);
    BodyRoundTrip(fc, ms, |ms| % 0x1_0000, rec, ids);
  }

  /** If the decoder gave every metric back, no name was cut. */
  lemma {:induction false} BodyNamesShort(fc: FloatCodec, ms: seq<Metric>, data: seq<byte>, pos: nat, limit: nat,
                                          count: nat, rec: nat, ids: nat -> uint16, rest: seq<byte>)
    requires AllHoldable(fc, ms) && pos <= |data| && data[pos..] == Body(fc, ms) + rest
    requires DecodeBody(fc, data, pos, limit, count, rec, ids).metrics == Restored(ms, rec, ids)
    ensures |ms| <= count && ShortNames(ms)
    decreases |ms|
  {
    hide DecodeMetric, EncodeMetric, Body, EncodedSize;
    if ms != [] {
      var tail := ms[1..];
      BodySuffix(fc, ms, data, pos, rest);
      assert ms[0] in ms && forall m :: m in tail ==> m in ms;
      var parsed := DecodeMetric(fc, data[pos..], rec, ids(rec));
      assert parsed.Got? && parsed.metric == Restored(ms, rec, ids)[0];
      LongNameIsCut(fc, ms[0], Body(fc, tail) + rest, rec, ids(rec));
      assert EncodedSize(parsed.metric) == EncodedSize(ms[0]) by { SizeIgnores(ms[0], rec, ids(rec)); }
      DecodeTurn(fc, data, pos, limit, count, rec, ids, parsed.metric);
      var after := DecodeBody(fc, data, pos + EncodedSize(ms[0]), limit, count - 1, rec + 1, ids);
      assert Restored(ms, rec, ids)[1..] == Restored(tail, rec + 1, ids);
      assert ([parsed.metric] + after.metrics)[1..] == after.metrics;
      BodyNamesShort(fc, tail, data, pos + EncodedSize(ms[0]), limit, count - 1, rec + 1, ids, rest);
    }
  }

  /** A metric takes as many bytes whatever its record and id. */
  lemma SizeIgnores(m: Metric, rec: nat, id: uint16)
    ensures EncodedSize(m.(rec := rec, id := id)) == EncodedSize(m) > 0
  {}

  /** A list comes back whole exactly when it has at most 65535 metrics and every name is below 65536 bytes. */
  lemma {:induction false} WholeListRoundTrip(fc: FloatCodec, ms: seq<Metric>, rec: nat, ids: nat -> uint16)
    requires AllHoldable(fc, ms) && BodySize(ms) < TWO_64
    ensures DecodeList(fc, EncodeList(fc, ms), rec, ids) == Decoded(Restored(ms, rec, ids), true)
       <==> |ms| <= 0xFFFF && ShortNames(ms)
  {
    hide DecodeBody, DecodeList, EncodeList, Body, BodySize;
    var data, n := Body(fc, ms), |ms| % 0x1_0000;
    DecodeListIs(fc, ms, rec, ids);
    assert data[0..] == data + [] && ms[..|ms|] == ms;
    if |ms| <= 0xFFFF && ShortNames(ms) {
      BodyRoundTrip(fc, ms, n, rec, ids);
    }
    if DecodeBody(fc, data, 0, |data|, n, rec, ids) == Decoded(Restored(ms, rec, ids), true) {
      BodyNamesShort(fc, ms, data, 0, |data|, n, rec, ids, []);
    }
  }
}
