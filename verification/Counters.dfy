/** The life of one metric key: its samples in `delta`, and what they add up to in `current`. */
module Counters {
  import opened Wrappers
  import opened Metrics
  import opened MetricLists
  import opened StoreSpec

  type Key = (cstring, uint16)

  /** The records of one key, in order */
  function OfKey(ms: seq<Metric>, k: Key): seq<Metric> {
    if ms == [] then []
    else if ms[0].Key() == k then [ms[0]] + OfKey(ms[1..], k)
    else OfKey(ms[1..], k)
  }

  lemma {:induction false} OfKeyConcat(a: seq<Metric>, b: seq<Metric>, k: Key)
    ensures OfKey(a + b, k) == OfKey(a, k) + OfKey(b, k)
  {
    if a == [] {
      assert a + b == b;
    } else {
      assert (a + b)[1..] == a[1..] + b;
      OfKeyConcat(a[1..], b, k);
    }
  }

  lemma {:induction false} OfKeyMember(ms: seq<Metric>, k: Key, m: Metric)
    ensures m in OfKey(ms, k) <==> m in ms && m.Key() == k
  {
    if ms != [] {
      OfKeyMember(ms[1..], k, m);
    }
  }

  lemma OfKeySplit(ms: seq<Metric>, i: nat, k: Key)
    requires i < |ms|
    ensures OfKey(ms, k) == OfKey(ms[..i], k) + OfKey([ms[i]], k) + OfKey(ms[i + 1..], k)
  {
    assert ms == ms[..i] + [ms[i]] + ms[i + 1..];
    OfKeyConcat(ms[..i] + [ms[i]], ms[i + 1..], k);
    OfKeyConcat(ms[..i], [ms[i]], k);
  }

  /** Replacing a record by one of the same key changes that key's records alone. */
  lemma OfKeyUpdate(ms: seq<Metric>, i: nat, m: Metric, k: Key)
    requires i < |ms| && ms[i].Key() == m.Key()
    ensures m.Key() != k ==> OfKey(ms[i := m], k) == OfKey(ms, k)
    ensures m.Key() == k ==> OfKey(ms[i := m], k) == OfKey(ms[..i], k) + [m] + OfKey(ms[i + 1..], k)
    ensures m.Key() == k ==> OfKey(ms, k) == OfKey(ms[..i], k) + [ms[i]] + OfKey(ms[i + 1..], k)
  {
    OfKeySplit(ms, i, k);
    OfKeySplit(ms[i := m], i, k);
    assert ms[i := m][..i] == ms[..i] && ms[i := m][i + 1..] == ms[i + 1..];
  }

  // ---------- One push ----------

  lemma PushLeavesDelta(s: Store, m: Metric)
    requires !m.IsDelta()
    ensures Push(s, m).store.delta == s.delta
  {}

  lemma PushPlainOther(s: Store, m: Metric, k: Key)
    requires !m.IsDelta() && m.Key() != k
    ensures OfKey(Push(s, m).store.current, k) == OfKey(s.current, k)
  {
    OfKeyConcat(s.current, [m], k);
    var i := FirstIndex(s.current, Absorbs(m));
    if m.IsAggregate() && i < |s.current| {
      OfKeyUpdate(s.current, i, s.current[i].(value := Sum(s.current[i].value, m.value).value), k);
    }
  }

  /** Pushing a metric touches no record of another key. */
  lemma PushOther(s: Store, m: Metric, k: Key)
    requires m.Key() != k
    ensures OfKey(Push(s, m).store.current, k) == OfKey(s.current, k)
    ensures OfKey(Push(s, m).store.delta, k) == OfKey(s.delta, k)
  {
    if m.IsDelta() {
      OfKeyConcat(s.delta, [m], k);
      match Sample(s.delta, m, s.next)
      case First =>
      case Unusable =>
      case Next(i, d) =>
        OfKeyUpdate(s.delta, i, m, k);
        var mid := s.(delta := s.delta[i := m], next := s.next + 1);
        assert Push(s, m).store == Push(mid, d).store;
        PushPlainOther(mid, d, k);
        PushLeavesDelta(mid, d);
    } else {
      PushLeavesDelta(s, m);
      PushPlainOther(s, m, k);
    }
  }

  /** m is a usable next sample after p. */
  predicate Follows(p: Metric, m: Metric) {
    && m.Key() == p.Key() && m.flags == p.flags && SameType(p.value, m.value) && !m.value.Text?
    && Before(p.clock, m.clock) && Near(p.clock, m.clock)
  }

  lemma FollowsIsCached(p: Metric, m: Metric)
    requires Follows(p, m)
    ensures IsCached(m, p) && p.clock != m.clock && Interval(p.clock, m.clock) > 0.0
  {
    TimeCmpOrders(m.clock, p.clock);
    IntervalSign(p.clock, m.clock);
  }

  /** The first sample of a key is stored. */
  lemma PushFirst(s: Store, m: Metric)
    requires m.IsDelta() && OfKey(s.delta, m.Key()) == []
    ensures Push(s, m).store == s.(delta := s.delta + [m])
    ensures OfKey(Push(s, m).store.delta, m.Key()) == [m]
  {
    var i := FirstIndex(s.delta, CachedBy(m));
    if i < |s.delta| {
      OfKeyMember(s.delta, m.Key(), s.delta[i]);
    }
    OfKeyConcat(s.delta, [m], m.Key());
  }

  /** The search of `delta` stops at the stored sample of the key. */
  lemma SampleFound(delta: seq<Metric>, p: Metric, m: Metric)
    requires OfKey(delta, m.Key()) == [p] && Follows(p, m)
    ensures var i := FirstIndex(delta, CachedBy(m)); i < |delta| && delta[i] == p
  {
    FollowsIsCached(p, m);
    var i := FirstIndex(delta, CachedBy(m));
    OfKeyMember(delta, m.Key(), p);
    var j :| 0 <= j < |delta| && delta[j] == p;
    assert CachedBy(m)(delta[j]);
    OfKeyMember(delta, m.Key(), delta[i]);
  }

  /** A following sample takes the stored one's place, and their difference is pushed. */
  lemma {:induction false} PushNext(s: Store, p: Metric, m: Metric) returns (mid: Store, d: Metric)
    requires m.IsDelta() && OfKey(s.delta, m.Key()) == [p] && Follows(p, m)
    ensures p.clock != m.clock && ComputeDelta(p, m, s.next) == Some(d)
    ensures Push(s, m).store == Push(mid, d).store
    ensures mid.current == s.current && OfKey(Push(s, m).store.delta, m.Key()) == [m]
  {
    FollowsIsCached(p, m);
    SampleFound(s.delta, p, m);
    var i := FirstIndex(s.delta, CachedBy(m));
    d := ComputeDelta(p, m, s.next).value;
    mid := s.(delta := s.delta[i := m], next := s.next + 1);
    assert Sample(s.delta, m, s.next) == Next(i, d);
    assert OfKey(mid.delta, m.Key()) == [m] by {
      OfKeyUpdate(s.delta, i, m, m.Key());
    }
    PushLeavesDelta(mid, d);
  }

  // ---------- Totals ----------

  /** The sum of the integer records of a key */
  function IntSum(ms: seq<Metric>, k: Key): nat {
    if ms == [] then 0
    else (if ms[0].Key() == k && ms[0].value.Integer? then ms[0].value.n else 0) + IntSum(ms[1..], k)
  }

  /** The total of a key as the 64-bit values of the agent can express it */
  function Total(ms: seq<Metric>, k: Key): uint64 {
    IntSum(ms, k) % TWO_64
  }

  lemma {:induction false} IntSumConcat(a: seq<Metric>, b: seq<Metric>, k: Key)
    ensures IntSum(a + b, k) == IntSum(a, k) + IntSum(b, k)
  {
    if a == [] {
      assert a + b == b;
    } else {
      assert (a + b)[1..] == a[1..] + b;
      IntSumConcat(a[1..], b, k);
    }
  }

  lemma IntSumUpdate(ms: seq<Metric>, i: nat, n: uint64, k: Key)
    requires i < |ms| && ms[i].Key() == k && ms[i].value.Integer?
    ensures IntSum(ms[i := ms[i].(value := Integer(n))], k) == IntSum(ms, k) - ms[i].value.n + n
  {
    var m := ms[i].(value := Integer(n));
    var rest := ms[i + 1..];
    assert ms == ms[..i] + [ms[i]] + rest && ms[i := m] == ms[..i] + [m] + rest;
    IntSumConcat(ms[..i] + [ms[i]], rest, k);
    IntSumConcat(ms[..i], [ms[i]], k);
    IntSumConcat(ms[..i] + [m], rest, k);
    IntSumConcat(ms[..i], [m], k);
  }

  /** Equal up to multiples of 2^64 */
  lemma {:induction false} CarryTotal(before: nat, after: nat, carry: nat)
    requires after + carry * TWO_64 == before
    ensures after % TWO_64 == before % TWO_64
    decreases carry
  {
    if carry > 0 {
      CarryTotal(before - TWO_64, after, carry - 1);
      assert before % TWO_64 == (before - TWO_64) % TWO_64;
    }
  }

  /** Pushing an integer that is no DELTA sample raises the sum of its key by exactly its value, up to a carry out
      of 64 bits, whether it is aggregated into a record already there or becomes a record of its own. */
  lemma PushRaisesSum(s: Store, m: Metric) returns (carry: nat)
    requires !m.IsDelta() && m.value.Integer?
    ensures IntSum(Push(s, m).store.current, m.Key()) + carry * TWO_64 == IntSum(s.current, m.Key()) + m.value.n
    ensures !m.IsAggregate() ==> carry == 0
  {
    var i := FirstIndex(s.current, Absorbs(m));
    if m.IsAggregate() && i < |s.current| {
      var sum := s.current[i].value.n + m.value.n;
      carry := sum / TWO_64;
      IntSumUpdate(s.current, i, sum % TWO_64, m.Key());
    } else {
      carry := 0;
      assert Push(s, m).store.current == s.current + [m];
      IntSumConcat(s.current, [m], m.Key());
    }
  }

  lemma PushRaisesTotal(s: Store, m: Metric)
    requires !m.IsDelta() && m.value.Integer?
    ensures Total(Push(s, m).store.current, m.Key()) == (IntSum(s.current, m.Key()) + m.value.n) % TWO_64
  {
    hide Push, IntSum;
    var carry := PushRaisesSum(s, m);
    CarryTotal(IntSum(s.current, m.Key()) + m.value.n, IntSum(Push(s, m).store.current, m.Key()), carry);
  }

  lemma {:induction false} IntSumOfKey(ms: seq<Metric>, k: Key)
    ensures IntSum(ms, k) == IntSum(OfKey(ms, k), k)
  {
    if ms != [] {
      IntSumOfKey(ms[1..], k);
      IntSumConcat([ms[0]], OfKey(ms[1..], k), k);
    }
  }

  /** The sum of the float records of a key */
  function FloatSum(ms: seq<Metric>, k: Key): real {
    if ms == [] then 0.0
    else (if ms[0].Key() == k && ms[0].value.Float? then ms[0].value.x else 0.0) + FloatSum(ms[1..], k)
  }

  lemma {:induction false} FloatSumConcat(a: seq<Metric>, b: seq<Metric>, k: Key)
    ensures FloatSum(a + b, k) == FloatSum(a, k) + FloatSum(b, k)
  {
    if a == [] {
      assert a + b == b;
    } else {
      assert (a + b)[1..] == a[1..] + b;
      FloatSumConcat(a[1..], b, k);
    }
  }

  lemma FloatSumUpdate(ms: seq<Metric>, i: nat, x: real, k: Key)
    requires i < |ms| && ms[i].Key() == k && ms[i].value.Float?
    ensures FloatSum(ms[i := ms[i].(value := Float(x))], k) == FloatSum(ms, k) - ms[i].value.x + x
  {
    var m := ms[i].(value := Float(x));
    var rest := ms[i + 1..];
    assert ms == ms[..i] + [ms[i]] + rest && ms[i := m] == ms[..i] + [m] + rest;
    FloatSumConcat(ms[..i] + [ms[i]], rest, k);
    FloatSumConcat(ms[..i], [ms[i]], k);
    FloatSumConcat(ms[..i] + [m], rest, k);
    FloatSumConcat(ms[..i], [m], k);
  }

  /** Pushing a float that is no DELTA sample raises the sum of its key by exactly its value, either way. */
  lemma PushRaisesFloat(s: Store, m: Metric)
    requires !m.IsDelta() && m.value.Float?
    ensures FloatSum(Push(s, m).store.current, m.Key()) == FloatSum(s.current, m.Key()) + m.value.x
  {
    var i := FirstIndex(s.current, Absorbs(m));
    if m.IsAggregate() && i < |s.current| {
      FloatSumUpdate(s.current, i, s.current[i].value.x + m.value.x, m.Key());
    } else {
      assert Push(s, m).store.current == s.current + [m];
      FloatSumConcat(s.current, [m], m.Key());
    }
  }

  lemma {:induction false} FloatSumOfKey(ms: seq<Metric>, k: Key)
    ensures FloatSum(ms, k) == FloatSum(OfKey(ms, k), k)
  {
    if ms != [] {
      FloatSumOfKey(ms[1..], k);
      FloatSumConcat([ms[0]], OfKey(ms[1..], k), k);
    }
  }

  // ---------- A list of pushes ----------

  /** A usable history of one key: every sample follows the one before. */
  predicate History(h: seq<Metric>) {
    forall i :: 0 < i < |h| ==> Follows(h[i - 1], h[i])
  }

  function Increment(p: Value, m: Value): nat {
    if p.Integer? && m.Integer? then IntDelta(p.n, m.n) else 0
  }

  /** What the samples of an integer counter rose by, a decrease counting for nothing */
  function Increments(h: seq<Metric>): nat {
    if |h| < 2 then 0 else Increment(h[0].value, h[1].value) + Increments(h[1..])
  }

  /** The samples of a key: the one stored, then the ones pushed */
  function HistoryOf(s: Store, ms: seq<Metric>, k: Key): seq<Metric> {
    OfKey(s.delta, k) + OfKey(ms, k)
  }

  /** Every metric of key k pushed is a DELTA sample following the last, and at most one is stored already. */
  predicate Regular(s: Store, ms: seq<Metric>, k: Key) {
    && |OfKey(s.delta, k)| <= 1
    && History(HistoryOf(s, ms, k))
    && (forall m :: m in HistoryOf(s, ms, k) ==> m.IsDelta())
  }

  /** How the history moves on when the first metric pushed, if of key k, becomes the stored sample */
  lemma HistoryStep(s: Store, t: Store, ms: seq<Metric>, k: Key)
    requires ms != [] && Regular(s, ms, k)
    requires OfKey(t.delta, k) == if ms[0].Key() == k then [ms[0]] else OfKey(s.delta, k)
    ensures Regular(t, ms[1..], k)
    ensures var h := HistoryOf(s, ms, k);
            HistoryOf(t, ms[1..], k) == if ms[0].Key() == k && OfKey(s.delta, k) != [] then h[1..] else h
  {
    var h, stored, rest := HistoryOf(s, ms, k), OfKey(s.delta, k), OfKey(ms[1..], k);
    if ms[0].Key() != k {
      assert OfKey(ms, k) == [] + rest;
      assert HistoryOf(t, ms[1..], k) == h;
    } else if stored == [] {
      assert HistoryOf(t, ms[1..], k) == h;
    } else {
      assert h == [stored[0]] + ([ms[0]] + rest);
      assert HistoryOf(t, ms[1..], k) == h[1..];
      HistoryTail(h);
    }
  }

  /** The sample in front of a regular run */
  lemma RegularHead(s: Store, ms: seq<Metric>, k: Key)
    requires ms != [] && Regular(s, ms, k) && ms[0].Key() == k
    ensures ms[0].IsDelta()
    ensures OfKey(s.delta, k) != [] ==>
              var h := HistoryOf(s, ms, k);
              |h| >= 2 && OfKey(s.delta, k) == [h[0]] && h[1] == ms[0] && Follows(h[0], h[1])
  {
    var h, stored := HistoryOf(s, ms, k), OfKey(s.delta, k);
    assert h == stored + ([ms[0]] + OfKey(ms[1..], k));
    assert ms[0] in h;
  }

  lemma HistoryTail(h: seq<Metric>)
    requires h != [] && History(h)
    ensures History(h[1..])
  {
    forall i | 0 < i < |h[1..]|
      ensures Follows(h[1..][i - 1], h[1..][i])
    {
      assert Follows(h[i], h[i + 1]);
    }
  }

  predicate IsDifference(p: Metric, m: Metric, d: Metric) {
    && p.clock != m.clock && DeltaValue(p, m) == Some(d.value)
    && d.Key() == p.Key() && d.clock == p.clock && d.flags == p.flags - p.flags % 4
  }

  /** The first metric of the run is a sample of k that has a predecessor. */
  predicate Advances(s: Store, ms: seq<Metric>, k: Key) {
    ms != [] && ms[0].Key() == k && OfKey(s.delta, k) != []
  }

  /** What pushing the first metric of a regular run does to key k when it has no predecessor */
  lemma TurnQuiet(s: Store, ms: seq<Metric>, k: Key)
    requires ms != [] && Regular(s, ms, k) && !Advances(s, ms, k)
    ensures var t := Push(s, ms[0]).store;
            && OfKey(t.delta, k) == (if ms[0].Key() == k then [ms[0]] else OfKey(s.delta, k))
            && OfKey(t.current, k) == OfKey(s.current, k)
  {
    if ms[0].Key() != k {
      PushOther(s, ms[0], k);
    } else {
      RegularHead(s, ms, k);
      PushFirst(s, ms[0]);
    }
  }

  /** ... and when it has one */
  lemma TurnAdvance(s: Store, ms: seq<Metric>, k: Key) returns (d: Metric, carry: nat)
    requires Regular(s, ms, k) && Advances(s, ms, k)
    ensures var t := Push(s, ms[0]).store; var p := OfKey(s.delta, k)[0];
            && OfKey(t.delta, k) == [ms[0]]
            && IsDifference(p, ms[0], d)
            && (d.value.Integer? ==> IntSum(t.current, k) + carry * TWO_64 == IntSum(s.current, k) + d.value.n)
            && (d.value.Float? ==> FloatSum(t.current, k) == FloatSum(s.current, k) + d.value.x)
            && (!p.IsAggregate() ==> carry == 0 && OfKey(t.current, k) == OfKey(s.current, k) + [d])
  {
    RegularHead(s, ms, k);
    var mid;
    mid, d := PushNext(s, OfKey(s.delta, k)[0], ms[0]);
    carry := 0;
    if d.value.Integer? {
      carry := PushRaisesSum(mid, d);
    } else {
      PushRaisesFloat(mid, d);
    }
    OfKeyConcat(mid.current, [d], k);
  }

  /** One turn of Lpush over a regular run */
  lemma {:induction false} Turn(s: Store, ms: seq<Metric>, k: Key) returns (t: Store, d: seq<Metric>, carry: nat)
    requires ms != [] && Regular(s, ms, k)
    ensures Lpush(s, ms).store == Lpush(t, ms[1..]).store && Regular(t, ms[1..], k)
    ensures !Advances(s, ms, k) ==>
              && d == [] && carry == 0 && OfKey(t.current, k) == OfKey(s.current, k)
              && HistoryOf(t, ms[1..], k) == HistoryOf(s, ms, k)
    ensures Advances(s, ms, k) ==>
              var h := HistoryOf(s, ms, k);
              && |h| >= 2 && |d| == 1 && IsDifference(h[0], h[1], d[0])
              && (d[0].value.Integer? ==>
                    IntSum(t.current, k) + carry * TWO_64 == IntSum(s.current, k) + d[0].value.n)
              && (d[0].value.Float? ==> FloatSum(t.current, k) == FloatSum(s.current, k) + d[0].value.x)
              && (!h[0].IsAggregate() ==> carry == 0 && OfKey(t.current, k) == OfKey(s.current, k) + d)
              && HistoryOf(t, ms[1..], k) == h[1..]
  {
    t, d, carry := Push(s, ms[0]).store, [], 0;
    if Advances(s, ms, k) {
      RegularHead(s, ms, k);
      var difference;
      difference, carry := TurnAdvance(s, ms, k);
      d := [difference];
    } else {
      TurnQuiet(s, ms, k);
    }
    HistoryStep(s, t, ms, k);
  }

  // ---------- What a list adds up to ----------

  /** After pushing a regular list, `delta` holds the latest sample of the key and no other. */
  lemma {:induction false} LatestSample(s: Store, ms: seq<Metric>, k: Key)
    requires Regular(s, ms, k)
    ensures var h := HistoryOf(s, ms, k);
            OfKey(Lpush(s, ms).store.delta, k) == if h == [] then [] else [h[|h| - 1]]
    decreases |ms|
  {
    if ms != [] {
      var t, _, _ := Turn(s, ms, k);
      LatestSample(t, ms[1..], k);
    }
  }

  predicate Integers(h: seq<Metric>) {
    forall m :: m in h ==> m.value.Integer?
  }

  predicate PlainDeltas(h: seq<Metric>) {
    forall m :: m in h ==> !m.IsTimeDelta()
  }

  /** The integer differences of a list of pushes raise the key's sum by what its samples rose by, up to carries. */
  lemma {:induction false} CounterSum(s: Store, ms: seq<Metric>, k: Key) returns (carries: nat)
    requires Regular(s, ms, k)
    requires Integers(HistoryOf(s, ms, k)) && PlainDeltas(HistoryOf(s, ms, k))
    ensures IntSum(Lpush(s, ms).store.current, k) + carries * TWO_64
         == IntSum(s.current, k) + Increments(HistoryOf(s, ms, k))
    ensures NotAggregated(HistoryOf(s, ms, k)) ==> carries == 0
    decreases |ms|
  {
    var h := HistoryOf(s, ms, k);
    if ms == [] {
      assert h == OfKey(s.delta, k);
      carries := 0;
    } else {
      var t, d, carry := Turn(s, ms, k);
      var rest := CounterSum(t, ms[1..], k);
      if Advances(s, ms, k) {
        assert h[0] in h && h[1] in h;
        var rise := IntDelta(h[0].value.n, h[1].value.n);
        assert d[0].value == Integer(rise) && Increments(h) == rise + Increments(h[1..]);
        carries := rest + carry;
      } else {
        IntSumOfKey(s.current, k);
        IntSumOfKey(t.current, k);
        carries := rest;
      }
    }
  }

  /** The total of an integer counter in `current`, aggregated or not, rises by what its samples rose by. */
  lemma CounterTotal(s: Store, ms: seq<Metric>, k: Key)
    requires Regular(s, ms, k)
    requires Integers(HistoryOf(s, ms, k)) && PlainDeltas(HistoryOf(s, ms, k))
    ensures Total(Lpush(s, ms).store.current, k)
         == (IntSum(s.current, k) + Increments(HistoryOf(s, ms, k))) % TWO_64
  {
    hide Lpush, IntSum, Increments, HistoryOf, Regular;
    var carries := CounterSum(s, ms, k);
    CarryTotal(IntSum(s.current, k) + Increments(HistoryOf(s, ms, k)), IntSum(Lpush(s, ms).store.current, k), carries);
  }

  /** A counter that never decreases rose by its last sample less its first. */
  lemma {:induction false} IncrementsOfRising(h: seq<Metric>)
    requires h != [] && Integers(h)
    requires forall i :: 0 < i < |h| ==> h[i - 1].value.n <= h[i].value.n
    ensures h[0].value.n <= h[|h| - 1].value.n
    ensures Increments(h) == h[|h| - 1].value.n - h[0].value.n
  {
    if |h| > 1 {
      forall i | 0 < i < |h[1..]|
        ensures h[1..][i - 1].value.n <= h[1..][i].value.n
      {
        assert h[i].value.n <= h[i + 1].value.n;
      }
      IncrementsOfRising(h[1..]);
    }
  }

  predicate Floats(h: seq<Metric>) {
    forall m :: m in h ==> m.value.Float?
  }

  /** The last float sample of a history less its first */
  function Change(h: seq<Metric>): real {
    if h != [] && h[0].value.Float? && h[|h| - 1].value.Float? then h[|h| - 1].value.x - h[0].value.x else 0.0
  }

  lemma ChangeStep(h: seq<Metric>)
    requires |h| >= 2 && Floats(h)
    ensures h[0].value.Float? && h[1].value.Float? && Floats(h[1..])
    ensures Change(h) == h[1].value.x - h[0].value.x + Change(h[1..])
  {
    assert h[0] in h && h[1] in h && h[|h| - 1] in h;
  }

  /** The float differences of a list of pushes, negative ones among them, telescope: they raise the key's sum by its
      last sample less its first. */
  lemma {:induction false} FloatsTelescope(s: Store, ms: seq<Metric>, k: Key)
    requires Regular(s, ms, k)
    requires Floats(HistoryOf(s, ms, k)) && PlainDeltas(HistoryOf(s, ms, k))
    ensures FloatSum(Lpush(s, ms).store.current, k) == FloatSum(s.current, k) + Change(HistoryOf(s, ms, k))
    decreases |ms|
  {
    hide Change, Floats, Follows;
    var h := HistoryOf(s, ms, k);
    if ms == [] {
      ShortChange(s, k);
      assert h == OfKey(s.delta, k);
    } else {
      var t, d, _ := Turn(s, ms, k);
      if Advances(s, ms, k) {
        ChangeStep(h);
        assert !h[0].IsTimeDelta() && d[0].value == Float(h[1].value.x - h[0].value.x);
      } else {
        FloatSumOfKey(s.current, k);
        FloatSumOfKey(t.current, k);
      }
      FloatsTelescope(t, ms[1..], k);
    }
  }

  lemma ShortChange(s: Store, k: Key)
    requires |OfKey(s.delta, k)| <= 1
    ensures Change(OfKey(s.delta, k)) == 0.0
  {}

  /** The records d are the differences of the samples h, in order. */
  predicate AreDifferences(h: seq<Metric>, d: seq<Metric>) {
    && |d| == (if h == [] then 0 else |h| - 1)
    && forall i :: 0 <= i < |d| ==> IsDifference(h[i], h[i + 1], d[i])
  }

  lemma DifferencesCons(h: seq<Metric>, first: Metric, rest: seq<Metric>)
    requires |h| >= 2 && IsDifference(h[0], h[1], first) && AreDifferences(h[1..], rest)
    ensures AreDifferences(h, [first] + rest)
  {
    var d := [first] + rest;
    forall i | 0 <= i < |d|
      ensures IsDifference(h[i], h[i + 1], d[i])
    {
      if i > 0 {
        assert IsDifference(h[1..][i - 1], h[1..][i], rest[i - 1]);
      }
    }
  }

  predicate NotAggregated(h: seq<Metric>) {
    forall m :: m in h ==> !m.IsAggregate()
  }

  /** A list of samples that are not aggregated leaves in `current`, after what was there, one record per
      pair of consecutive samples: their difference. */
  lemma {:induction false} CounterRecords(s: Store, ms: seq<Metric>, k: Key) returns (d: seq<Metric>)
    requires Regular(s, ms, k) && NotAggregated(HistoryOf(s, ms, k))
    ensures AreDifferences(HistoryOf(s, ms, k), d)
    ensures OfKey(Lpush(s, ms).store.current, k) == OfKey(s.current, k) + d
    decreases |ms|
  {
    var h := HistoryOf(s, ms, k);
    if ms == [] {
      assert h == OfKey(s.delta, k);
      d := [];
    } else {
      var t, first, _ := Turn(s, ms, k);
      var rest := CounterRecords(t, ms[1..], k);
      if Advances(s, ms, k) {
        assert h[0] in h;
        d := [first[0]] + rest;
        DifferencesCons(h, first[0], rest);
        assert OfKey(s.current, k) + first + rest == OfKey(s.current, k) + d;
      } else {
        d := rest;
      }
    }
  }

  /** What a counter rose by from one sample to the next, a decrease counting for nothing */
  function Rise(p: Value, m: Value): real {
    match (p, m)
    case (Integer(x), Integer(y)) => IntDelta(x, y) as real
    case (Float(x), Float(y)) => if y < x then 0.0 else y - x
    case _ => 0.0
  }

  function Rises(h: seq<Metric>): real {
    if |h| < 2 then 0.0 else Rise(h[0].value, h[1].value) + Rises(h[1..])
  }

  lemma {:induction false} RisesOfIntegers(h: seq<Metric>)
    requires Integers(h)
    ensures Rises(h) == Increments(h) as real
  {
    if |h| > 1 {
      assert h[0] in h && h[1] in h;
      RisesOfIntegers(h[1..]);
    }
  }

  /** The rates of consecutive samples, weighted by their intervals */
  function RateSum(h: seq<Metric>, d: seq<Metric>): real
    requires |h| == |d| + 1 && forall r :: r in d ==> r.value.Float?
  {
    if d == [] then 0.0
    else d[0].value.x * Interval(h[0].clock, h[1].clock) + RateSum(h[1..], d[1..])
  }

  lemma RateOfDifference(p: Metric, m: Metric, d: Metric)
    requires Follows(p, m) && IsDifference(p, m, d) && p.IsTimeDelta()
    ensures d.value.Float? && d.value.x >= 0.0
    ensures d.value.x * Interval(p.clock, m.clock) == Rise(p.value, m.value)
  {
    FollowsIsCached(p, m);
    hide Interval;
    var rise, interval := Rise(p.value, m.value), Interval(p.clock, m.clock);
    assert rise >= 0.0;
    assert d.value.x == rise / interval;
    assert rise / interval * interval == rise;
  }

  /** The rates of a TIMEDELTA counter, integer or float, are never negative, and weighted by their intervals they add
      up to what its samples rose by. */
  lemma {:induction false} RatesAddUp(h: seq<Metric>, d: seq<Metric>)
    requires h != [] && History(h) && AreDifferences(h, d)
    requires forall m :: m in h ==> m.IsTimeDelta()
    ensures forall r :: r in d ==> r.value.Float? && r.value.x >= 0.0
    ensures RateSum(h, d) == Rises(h)
  {
    hide Interval, DeltaValue, Rise, Near, Before;
    if d != [] {
      assert Follows(h[0], h[1]) && IsDifference(h[0], h[1], d[0]) && h[0] in h;
      RateOfDifference(h[0], h[1], d[0]);
      HistoryTail(h);
      forall i | 0 <= i < |d[1..]|
        ensures IsDifference(h[1..][i], h[1..][i + 1], d[1..][i])
      {
        assert IsDifference(h[i + 1], h[i + 2], d[i + 1]);
      }
      RatesAddUp(h[1..], d[1..]);
      assert d == [d[0]] + d[1..];
    }
  }
}
