/** The encoder and the decoder as they run: writes at offsets of a buffer, and a cursor moving over one. */
module Codec {
  import opened Wrappers
  import opened Metrics
  import opened MetricLists
  import opened Sequences
  import opened ByteOrder
  import opened Wire

  // ---------- Writing ----------

  /** strncpy, or the bytes of a native store */
  method Write(a: array<byte>, off: nat, bytes: seq<byte>)
    requires off + |bytes| <= a.Length
    modifies a
    ensures a[..off + |bytes|] == old(a[..off]) + bytes
  {
    for i := 0 to |bytes|
      invariant a[..off] == old(a[..off]) && a[off..off + i] == bytes[..i]
    {
      a[off + i] := bytes[i];
      assert a[off..off + i + 1] == a[off..off + i] + [bytes[i]];
      assert bytes[..i + 1] == bytes[..i] + [bytes[i]];
    }
    assert a[..off + |bytes|] == a[..off] + a[off..off + |bytes|];
  }

  /** *((uint64_t *)(a + off)) = htonll(v) */
  method Put64(a: array<byte>, off: nat, host: Host, v: uint64)
    requires off + 8 <= a.Length
    modifies a
    ensures a[..off + 8] == old(a[..off]) + Big(8, v)
  {
    StoreNetworkOrder64(host, v);
    Write(a, off, InMemory(host, 8, Htonll(host, v)));
  }

  /** *((uint16_t *)(a + off)) = htons(v) */
  method Put16(a: array<byte>, off: nat, host: Host, v: uint16)
    requires off + 2 <= a.Length
    modifies a
    ensures a[..off + 2] == old(a[..off]) + Big(2, v)
  {
    Pow256Four();
    StoreNetworkOrder(host, 2, v);
    Write(a, off, InMemory(host, 2, Hton(host, 2, v)));
  }

  /** *((uint32_t *)(a + off)) = htonf(x): the float's own bits, converted like an integer */
  method PutFloat(a: array<byte>, off: nat, host: Host, fc: FloatCodec, x: real)
    requires off + 4 <= a.Length
    modifies a
    ensures a[..off + 4] == old(a[..off]) + Big(4, fc.pattern(x))
  {
    Pow256Four();
    StoreNetworkOrder(host, 4, fc.pattern(x));
    Write(a, off, InMemory(host, 4, Hton(host, 4, fc.pattern(x))));
  }

  method SerializeHeader(a: array<byte>, off: nat, host: Host, m: Metric)
    requires off + METRIC_HDR_SIZE <= a.Length
    modifies a
    ensures a[..off + METRIC_HDR_SIZE] == old(a[..off]) + Header(m)
  {
    hide Big;
    Put64(a, off + SEC_OFF, host, Unsigned(m.clock.sec));
    Put64(a, off + USEC_OFF, host, Unsigned(m.clock.usec));
    Put16(a, off + NAME_SIZE_OFF, host, |m.name| % 0x1_0000);
    Put64(a, off + DATA_SIZE_OFF, host, ValueSize(m.value) % TWO_64);
    Write(a, off + TYPE_OFF, [TypeCode(m.value)]);
    Write(a, off + FLAGS_OFF, [m.flags]);
  }

  method SerializeNameAndData(a: array<byte>, off: nat, host: Host, fc: FloatCodec, m: Metric)
    requires off + |m.name| + ValueSize(m.value) <= a.Length
    modifies a
    ensures a[..off + |m.name| + ValueSize(m.value)] == old(a[..off]) + m.name + ValueBytes(fc, m.value)
  {
    Write(a, off, m.name);
    match m.value
    case Integer(n) => Put64(a, off + |m.name|, host, n);
    case Float(x) => PutFloat(a, off + |m.name|, host, fc, x);
    case Text(s) => Write(a, off + |m.name|, s);
  }

  method SerializeMetric(a: array<byte>, off: nat, host: Host, fc: FloatCodec, m: Metric) returns (n: nat)
    requires off + EncodedSize(m) <= a.Length
    modifies a
    ensures n == EncodedSize(m) && a[..off + n] == old(a[..off]) + EncodeMetric(fc, m)
  {
    hide Header, ValueBytes;
    SerializeHeader(a, off, host, m);
    SerializeNameAndData(a, off + METRIC_HDR_SIZE, host, fc, m);
    n := ValueSize(m.value) + |m.name| + METRIC_HDR_SIZE;
  }

  method SerializeListHeader(a: array<byte>, host: Host, size: nat, total: nat, ghost ms: seq<Metric>)
    requires LIST_HDR_SIZE <= a.Length && size == |ms| && total == LIST_HDR_SIZE + BodySize(ms)
    modifies a
    ensures a[..LIST_HDR_SIZE] == ListHeader(ms)
  {
    hide Big, BodySize;
    Write(a, 0, [VERSION]);
    Put16(a, 1, host, size % 0x1_0000);
    Put64(a, 3, host, (total - LIST_HDR_SIZE) % TWO_64);
  }

  /** The bytes the whole list will take, counted node by node */
  method SerializedListSize(list: MetricList) returns (size: nat)
    requires list.Valid()
    ensures size == LIST_HDR_SIZE + BodySize(list.contents)
  {
    size := 0;
    var node := list.first;
    ghost var rest, left := list.nodes, list.contents;
    while node != null
      invariant Chain(rest, null) && node == Head(rest, null) && Holds(rest, left)
      invariant size + BodySize(left) == BodySize(list.contents)
      decreases |rest|
    {
      size := size + (ValueSize(node.metric.value) + |node.metric.name| + METRIC_HDR_SIZE);
      node, rest, left := node.next, rest[1..], left[1..];
    }
    size := size + LIST_HDR_SIZE;
  }

  /** One turn of the encoder's loop, and its end */
  lemma BodyTurn(fc: FloatCodec, done: seq<byte>, left: seq<Metric>)
    ensures left == [] ==> BodySize(left) == 0 && done + Body(fc, left) == done
    ensures left != [] ==>
              && BodySize(left) == EncodedSize(left[0]) + BodySize(left[1..])
              && done + Body(fc, left) == (done + EncodeMetric(fc, left[0])) + Body(fc, left[1..])
  {
    hide EncodeMetric;
  }

  /** monikor_metric_list_serialize: the encoder fills exactly the bytes it asked for. */
  method Serialize(list: MetricList, host: Host, fc: FloatCodec) returns (data: array<byte>)
    requires list.Valid()
    ensures fresh(data) && data[..] == EncodeList(fc, list.contents)
  {
    hide Body, BodySize, EncodeMetric, ListHeader, EncodedSize, Distinct, DataSize, NodeSize;
    var total := SerializedListSize(list);
    data := new byte[total];
    SerializeListHeader(data, host, list.size, total, list.contents);
    var off: nat := LIST_HDR_SIZE;
    var node := list.first;
    ghost var rest, left := list.nodes, list.contents;
    while node != null
      invariant Chain(rest, null) && node == Head(rest, null) && Holds(rest, left)
      invariant off + BodySize(left) == data.Length
      invariant data[..off] + Body(fc, left) == EncodeList(fc, list.contents)
      decreases |rest|
    {
      BodyTurn(fc, data[..off], left);
      var n := SerializeMetric(data, off, host, fc, node.metric);
      off := off + n;
      node, rest, left := node.next, rest[1..], left[1..];
    }
    BodyTurn(fc, data[..off], left);
    assert data[..] == data[..off];
  }

  // ---------- Reading ----------

  /** ntohll(*((uint64_t *)data)) */
  method Get64(data: seq<byte>, host: Host) returns (v: uint64)
    requires |data| >= 8
    ensures v == FromBig(data[..8])
  {
    LoadNetworkOrder64(host, data[..8]);
    Pow256Four();
    FromBigBound(data[..8]);
    v := Ntohll(host, Loaded(host, data[..8]));
  }

  method Get16(data: seq<byte>, host: Host) returns (v: uint16)
    requires |data| >= 2
    ensures v == FromBig(data[..2])
  {
    LoadNetworkOrder(host, data[..2]);
    Pow256Four();
    FromBigBound(data[..2]);
    v := Ntoh(host, 2, Loaded(host, data[..2]));
  }

  /** ntohf(*((uint32_t *)data)) */
  method GetFloat(data: seq<byte>, host: Host, fc: FloatCodec) returns (x: real)
    requires |data| >= 4
    ensures FromBig(data[..4]) < TWO_32 && x == fc.float(FromBig(data[..4]))
  {
    LoadNetworkOrder(host, data[..4]);
    Pow256Four();
    FromBigBound(data[..4]);
    x := fc.float(Ntoh(host, 4, Loaded(host, data[..4])));
  }

  /** strndup */
  method StrNDup(data: seq<byte>, n: nat) returns (s: cstring)
    requires n <= |data|
    ensures s == CString(data[..n])
  {
    s := [];
    var i := 0;
    assert data[..n][0..] == data[..n];
    while i < n && data[i] != 0
      invariant i <= n && s + CString(data[..n][i..]) == CString(data[..n])
    {
      assert data[..n][i..][1..] == data[..n][i + 1..];
      s := s + [data[i]];
      i := i + 1;
    }
  }

  /** monikor_metric_list_header_unserialize */
  method ListHeaderUnserialize(data: seq<byte>, host: Host) returns (version: byte, count: uint16, dataSize: uint64)
    requires |data| >= LIST_HDR_SIZE
    ensures version == data[0] && count == FromBig(data[1..3]) && dataSize == FromBig(data[3..11])
  {
    version := data[0];
    count := Get16(data[1..], host);
    dataSize := Get64(data[3..], host);
    assert data[1..][..2] == data[1..3] && data[3..][..8] == data[3..11];
  }

  /** The value part of a metric; None is the source's failure return for an unknown type. */
  method ValueFromSerialized(data: seq<byte>, dataSize: nat, code: byte, host: Host, fc: FloatCodec)
    returns (v: Option<Value>)
    requires code <= 2 ==> DecodeValue(fc, code, data, dataSize).Some?
    ensures v == if code <= 2 then DecodeValue(fc, code, data, dataSize) else None
  {
    if code == 0 {
      var n := Get64(data, host);
      v := Some(Integer(n));
    } else if code == 1 {
      var x := GetFloat(data, host, fc);
      v := Some(Float(x));
    } else if code == 2 {
      var s := StrNDup(data, dataSize);
      v := Some(Text(s));
    } else {
      v := None;
    }
  }

  method HeaderFromSerialized(data: seq<byte>, host: Host) returns (h: MetricHdr)
    requires |data| >= METRIC_HDR_SIZE
    ensures h == ReadHeader(data)
  {
    hide FromBig;
    var sec := Get64(data[SEC_OFF..], host);
    var usec := Get64(data[USEC_OFF..], host);
    var nameSize := Get16(data[NAME_SIZE_OFF..], host);
    var dataSize := Get64(data[DATA_SIZE_OFF..], host);
    assert data[SEC_OFF..][..8] == data[SEC_OFF..USEC_OFF] && data[USEC_OFF..][..8] == data[USEC_OFF..NAME_SIZE_OFF];
    assert data[NAME_SIZE_OFF..][..2] == data[NAME_SIZE_OFF..DATA_SIZE_OFF];
    assert data[DATA_SIZE_OFF..][..8] == data[DATA_SIZE_OFF..TYPE_OFF];
    h := MetricHdr(Signed(sec), Signed(usec), nameSize, dataSize, data[TYPE_OFF], data[FLAGS_OFF]);
  }

  /** One metric at the cursor. The source trusts its input: what it cannot read is not asked of it. */
  method MetricFromSerialized(data: seq<byte>, host: Host, fc: FloatCodec, rec: nat, id: uint16)
    returns (metric: Option<Metric>)
    requires !DecodeMetric(fc, data, rec, id).Undefined?
    ensures DecodeMetric(fc, data, rec, id) == if metric.Some? then Got(metric.value) else Null
  {
    hide ReadHeader, DecodeValue;
    var h := HeaderFromSerialized(data, host);
    var body := data[METRIC_HDR_SIZE..];
    var name := StrNDup(body, h.nameSize);
    var v := ValueFromSerialized(body[h.nameSize..], h.dataSize, h.code, host, fc);
    metric := if v.None? then None else Some(Metric(rec, name, id, Timeval(h.sec, h.usec), h.flags, v.value));
  }

  /** monikor_metric_list_unserialize: `i` counts the metrics decoded before the count, the bytes or a NULL ended it. */
  method Unserialize(data: seq<byte>, count: uint16, dataSize: uint64, host: Host, fc: FloatCodec,
                     rec: nat, ids: nat -> uint16) returns (i: nat, metrics: MetricList)
    requires DecodeBody(fc, data, 0, dataSize, count, rec, ids).defined
    ensures fresh(metrics) && fresh(metrics.repr) && metrics.Valid()
    ensures metrics.contents == DecodeBody(fc, data, 0, dataSize, count, rec, ids).metrics && i == |metrics.contents|
  {
    hide DecodeMetric, DecodeBody, Chain, Distinct, Holds, DataSize, NodeSize;
    metrics := new MetricList();
    i := 0;
    var pos: nat := 0;
    ghost var whole := DecodeBody(fc, data, 0, dataSize, count, rec, ids);
    ghost var rest := whole;
    while i < count && pos < dataSize
      invariant i <= count && i == |metrics.contents|
      invariant metrics.Valid() && fresh(metrics) && fresh(metrics.repr)
      invariant rest == DecodeBody(fc, data, pos, dataSize, count - i, rec + i, ids)
      invariant rest.defined && metrics.contents + rest.metrics == whole.metrics
    {
      DecodeInside(fc, data, pos, dataSize, count - i, rec + i, ids);
      var metric := MetricFromSerialized(data[pos..], host, fc, rec + i, ids(rec + i));
      if metric.None? {
        DecodeEnd(fc, data, pos, dataSize, count - i, rec + i, ids);
        return;
      }
      DecodeTurn(fc, data, pos, dataSize, count - i, rec + i, ids, metric.value);
      metrics.Push(metric.value);
      pos := pos + (METRIC_HDR_SIZE + |metric.value.name| + ValueSize(metric.value.value));
      i := i + 1;
      rest := DecodeBody(fc, data, pos, dataSize, count - i, rec + i, ids);
    }
    DecodeEnd(fc, data, pos, dataSize, count - i, rec + i, ids);
  }
}
