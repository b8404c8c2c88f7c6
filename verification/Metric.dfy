/** The metric record of libmonikor, its clock, and the arithmetic done on two records.

  A record is a value carrying `rec`, the identity of the heap record the C code holds a pointer to;
  two records with the same contents are still told apart by it.
*/
module Metrics {
  import opened Wrappers

  type byte = b: int | 0 <= b < 0x100
  type cbyte = b: int | 0 < b < 0x100 witness 1 // a byte of a C string: never NUL
  type uint8 = n: int | 0 <= n < 0x100
  type uint16 = n: int | 0 <= n < 0x1_0000
  type uint32 = n: int | 0 <= n < 0x1_0000_0000
  type uint64 = n: int | 0 <= n < 0x1_0000_0000_0000_0000
  type pos = n: int | 0 < n witness 1
  type cstring = seq<cbyte>

  const TWO_32 := 0x1_0000_0000
  const TWO_64 := 0x1_0000_0000_0000_0000

  /** sizeof(node) + sizeof(metric), which depends on the platform */
  const NODE_BASE: pos

  // ---------- Clocks ----------

  type usecs = n: int | 0 <= n < 1_000_000

  datatype Timeval = Timeval(sec: int, usec: usecs)

  function Micros(t: Timeval): int {
    1_000_000 * t.sec + t.usec
  }

  predicate Before(a: Timeval, b: Timeval) {
    Micros(a) < Micros(b)
  }

  /** The conversion of a time_t difference to the 32-bit int that _timecmp returns */
  function ToInt32(n: int): int {
    (n + 0x8000_0000) % TWO_32 - 0x8000_0000
  }

  function TimeCmp(a: Timeval, b: Timeval): int {
    if a.sec != b.sec then ToInt32(a.sec - b.sec) else a.usec - b.usec
  }

  predicate Near(a: Timeval, b: Timeval) {
    -0x8000_0000 < a.sec - b.sec < 0x8000_0000
  }

  /** Within 2^31 seconds _timecmp orders clocks by time. */
  lemma TimeCmpOrders(a: Timeval, b: Timeval)
    requires Near(a, b)
    ensures TimeCmp(a, b) < 0 <==> Before(a, b)
    ensures TimeCmp(a, b) == 0 <==> a == b
    ensures TimeCmp(a, b) > 0 <==> Before(b, a)
  {}

  /** It calls two clocks equal exactly when they are, or when whole seconds wrapped around 32 bits. */
  lemma TimeCmpZero(a: Timeval, b: Timeval)
    ensures TimeCmp(a, b) == 0 <==> a == b || (a.sec != b.sec && (a.sec - b.sec) % TWO_32 == 0)
  {}

  // ---------- Records ----------

  datatype Value = Integer(n: uint64) | Float(x: real) | Text(s: cstring)

  predicate SameType(a: Value, b: Value) {
    (a.Integer? <==> b.Integer?) && (a.Float? <==> b.Float?)
  }

  datatype Metric = Metric(rec: nat, name: cstring, id: uint16, clock: Timeval, flags: uint8, value: Value) {
    predicate IsDelta() { flags % 2 == 1 }
    predicate IsTimeDelta() { flags % 4 == 3 }
    predicate IsAggregate() { flags / 4 % 2 == 1 }
    function Key(): (cstring, uint16) { (name, id) }
  }

  /** The bytes a value takes on the wire */
  function ValueSize(v: Value): nat {
    match v
    case Integer(_) => 8
    case Float(_) => 4
    case Text(s) => |s|
  }

  /** The memory a list node accounts for */
  function NodeSize(m: Metric): pos {
    NODE_BASE + |m.name| + if m.value.Text? then |m.value.s| else 0
  }

  function DataSize(ms: seq<Metric>): nat {
    if ms == [] then 0 else NodeSize(ms[0]) + DataSize(ms[1..])
  }

  /** The bytes of all names */
  function NameBytes(ms: seq<Metric>): nat {
    if ms == [] then 0 else |ms[0].name| + NameBytes(ms[1..])
  }

  /** ... and of all string values */
  function StringBytes(ms: seq<Metric>): nat {
    if ms == [] then 0
    else match ms[0].value
      case Text(s) => |s| + StringBytes(ms[1..])
      case _ => StringBytes(ms[1..])
  }

  /** What a list accounts for: its nodes, its names and its strings */
  lemma {:induction false} DataSizeIs(ms: seq<Metric>)
    ensures DataSize(ms) == NODE_BASE * |ms| + NameBytes(ms) + StringBytes(ms)
  {
    if ms != [] {
      DataSizeIs(ms[1..]);
      assert NODE_BASE * |ms| == NODE_BASE * |ms[1..]| + NODE_BASE;
    }
  }

  lemma {:induction false} DataSizeConcat(a: seq<Metric>, b: seq<Metric>)
    ensures DataSize(a + b) == DataSize(a) + DataSize(b)
  {
    if a == [] {
      assert a + b == b;
    } else {
      assert (a + b)[1..] == a[1..] + b;
      DataSizeConcat(a[1..], b);
    }
  }

  lemma {:induction false} DataSizeSplit(ms: seq<Metric>, i: nat)
    requires i <= |ms|
    ensures DataSize(ms) == DataSize(ms[..i]) + DataSize(ms[i..])
  {
    assert ms == ms[..i] + ms[i..];
    DataSizeConcat(ms[..i], ms[i..]);
  }

  /** Replacing a node's record by one of the same size leaves the list's accounting right. */
  lemma DataSizeUpdate(ms: seq<Metric>, i: nat, m: Metric)
    requires i < |ms| && NodeSize(m) == NodeSize(ms[i])
    ensures DataSize(ms[i := m]) == DataSize(ms)
  {
    var ns := ms[i := m];
    DataSizeSplit(ms, i);
    DataSizeSplit(ns, i);
    DataSizeSplit(ms[i..], 1);
    DataSizeSplit(ns[i..], 1);
    assert ns[..i] == ms[..i] && ns[i..][..1] == [m] && ms[i..][..1] == [ms[i]];
    assert ns[i..][1..] == ms[i..][1..];
  }

  /** The three flags are bits 0, 1 and 2 of the byte, and TIMEDELTA is both of the first two. */
  lemma FlagBits(m: Metric, bits: bv8)
    requires m.flags == bits as int
    ensures m.IsDelta() <==> bits & 1 == 1
    ensures m.IsTimeDelta() <==> bits & 3 == 3
    ensures m.IsAggregate() <==> bits & 4 == 4
  {
    LowBits(bits);
  }

  lemma LowBits(bits: bv8)
    ensures bits as int % 2 == 1 <==> bits & 1 == 1
    ensures bits as int % 4 == 3 <==> bits & 3 == 3
    ensures bits as int / 4 % 2 == 1 <==> bits & 4 == 4
  {
    assert (bits % 2) as int == bits as int % 2;
    assert (bits % 4) as int == bits as int % 4;
    assert (bits / 4 % 2) as int == bits as int / 4 % 2;
  }

  // ---------- Differences, rates and sums ----------

  /** Seconds from a to b */
  function Interval(a: Timeval, b: Timeval): real {
    (1_000_000 * (b.sec - a.sec) + (b.usec - a.usec)) as real / 1_000_000.0
  }

  lemma IntervalSign(a: Timeval, b: Timeval)
    ensures Interval(a, b) == 0.0 <==> a == b
    ensures Interval(a, b) > 0.0 <==> Before(a, b)
  {}

  /** In seconds, whatever the signs */
  lemma IntervalIsTime(a: Timeval, b: Timeval)
    ensures Interval(a, b) * 1_000_000.0 == (Micros(b) - Micros(a)) as real
  {}

  function IntDelta(a: uint64, b: uint64): uint64 {
    if b < a then 0 else b - a
  }

  /** What two samples of one metric become: their difference, or its rate for a TIMEDELTA metric.
      The flags of the older sample decide. */
  function DeltaValue(a: Metric, b: Metric): Option<Value>
    requires a.clock != b.clock
  {
    IntervalSign(a.clock, b.clock);
    match (a.value, b.value)
    case (Integer(x), Integer(y)) =>
      if !a.IsTimeDelta() then Some(Integer(IntDelta(x, y)))
      else Some(Float(IntDelta(x, y) as real / Interval(a.clock, b.clock)))
    case (Float(x), Float(y)) =>
      if !a.IsTimeDelta() then Some(Float(y - x))
      else Some(Float(if y < x then 0.0 else (y - x) / Interval(a.clock, b.clock)))
    case _ => None
  }

  /** A clone of the older sample, in the new heap record `rec`, holding the difference and neither DELTA bit */
  function ComputeDelta(a: Metric, b: Metric, rec: nat): (r: Option<Metric>)
    requires a.clock != b.clock
    ensures r.Some? <==> SameType(a.value, b.value) && !a.value.Text?
    ensures r.Some? ==> !r.value.IsDelta() && !r.value.value.Text? && r.value.Key() == a.Key()
    ensures r.Some? ==> (r.value.IsAggregate() <==> a.IsAggregate())
  {
    match DeltaValue(a, b)
    case None => None
    case Some(v) => Some(Metric(rec, a.name, a.id, a.clock, a.flags - a.flags % 4, v))
  }

  /** The difference is what must be added to the older value to get the newer, or the larger of two integers; a
      TIMEDELTA metric gets a float that over the interval amounts to that, or to 0 after a decrease. */
  lemma DifferenceTells(a: Metric, b: Metric, rec: nat)
    requires a.clock != b.clock
    ensures var r := ComputeDelta(a, b, rec);
            && (r.Some? <==> (a.value.Integer? && b.value.Integer?) || (a.value.Float? && b.value.Float?))
            && (r.Some? ==>
                  var d := r.value;
                  && d.rec == rec && d.Key() == a.Key() && d.clock == a.clock
                  && d.flags % 4 == 0 && d.flags / 4 == a.flags / 4
                  && (match (a.value, b.value)
                      case (Integer(x), Integer(y)) =>
                        var rise := if x < y then y - x else 0;
                        if a.IsTimeDelta() then d.value.Float? && d.value.x * Interval(a.clock, b.clock) == rise as real
                        else d.value == Integer(rise)
                      case (Float(x), Float(y)) =>
                        if a.IsTimeDelta()
                        then d.value.Float? && d.value.x * Interval(a.clock, b.clock) == if x < y then y - x else 0.0
                        else d.value.Float? && x + d.value.x == y
                      case _ => true))
  {
    hide Interval;
    IntervalSign(a.clock, b.clock);
    var interval := Interval(a.clock, b.clock);
    match (a.value, b.value)
    case (Integer(x), Integer(y)) =>
      QuotientTimes(IntDelta(x, y) as real, interval);
    case (Float(x), Float(y)) =>
      QuotientTimes(y - x, interval);
    case _ =>
  }

  lemma QuotientTimes(x: real, d: real)
    requires d != 0.0
    ensures x / d * d == x
  {}

  /** monikor_metric_add: the new value of dst, or None when the types cannot be added */
  function Sum(dst: Value, src: Value): Option<Value> {
    match (dst, src)
    case (Integer(x), Integer(y)) => Some(Integer((x + y) % TWO_64))
    case (Float(x), Float(y)) => Some(Float(x + y))
    case _ => None
  }
}
