/** The `delta` list refines a map from (name, id) to the latest sample. */
module SampleMap {
  import opened Metrics
  import opened MetricLists
  import opened StoreSpec
  import opened Counters

  predicate OnePerKey(ms: seq<Metric>) {
    forall i, j :: 0 <= i < j < |ms| ==> ms[i].Key() != ms[j].Key()
  }

  function AsMap(ms: seq<Metric>): map<Key, Metric> {
    if ms == [] then map[] else AsMap(ms[..|ms| - 1])[ms[|ms| - 1].Key() := ms[|ms| - 1]]
  }

  lemma {:induction false} AsMapKeys(ms: seq<Metric>, k: Key)
    ensures k in AsMap(ms) <==> exists i :: 0 <= i < |ms| && ms[i].Key() == k
  {
    if ms != [] {
      var n := |ms| - 1;
      AsMapKeys(ms[..n], k);
      if exists i :: 0 <= i < n && ms[..n][i].Key() == k {
        var i :| 0 <= i < n && ms[..n][i].Key() == k;
        assert ms[i].Key() == k;
      }
      if exists i :: 0 <= i < |ms| && ms[i].Key() == k {
        var i :| 0 <= i < |ms| && ms[i].Key() == k;
        assert i == n || ms[..n][i].Key() == k;
      }
    }
  }

  lemma {:induction false} AsMapAt(ms: seq<Metric>, i: nat)
    requires OnePerKey(ms) && i < |ms|
    ensures ms[i].Key() in AsMap(ms) && AsMap(ms)[ms[i].Key()] == ms[i]
  {
    var n := |ms| - 1;
    if i < n {
      AsMapAt(ms[..n], i);
      assert ms[..n][i] == ms[i];
    }
  }

  lemma {:induction false} AsMapUpdate(ms: seq<Metric>, i: nat, m: Metric)
    requires OnePerKey(ms) && i < |ms| && ms[i].Key() == m.Key()
    ensures OnePerKey(ms[i := m]) && AsMap(ms[i := m]) == AsMap(ms)[m.Key() := m]
  {
    var n := |ms| - 1;
    if i < n {
      AsMapUpdate(ms[..n], i, m);
      assert ms[i := m][..n] == ms[..n][i := m];
      assert ms[n].Key() != m.Key();
    } else {
      assert ms[i := m][..n] == ms[..n];
    }
  }

  lemma AsMapAppend(ms: seq<Metric>, m: Metric)
    ensures AsMap(ms + [m]) == AsMap(ms)[m.Key() := m]
  {
    assert (ms + [m])[..|ms|] == ms;
  }

  /** Two samples whose difference can be computed */
  predicate Combinable(a: Value, b: Value) {
    SameType(a, b) && !a.Text?
  }

  /** The sample stored for a key meets a new one of the same instant, as far as _timecmp can tell. */
  predicate Clashes(stored: map<Key, Metric>, m: Metric) {
    m.Key() in stored && TimeCmp(m.clock, stored[m.Key()].clock) == 0
  }

  predicate Mismatches(stored: map<Key, Metric>, m: Metric) {
    && m.Key() in stored && TimeCmp(m.clock, stored[m.Key()].clock) != 0
    && !Combinable(stored[m.Key()].value, m.value)
  }

  /** Where the search of `delta` stops, in terms of the map */
  lemma SearchIsLookup(delta: seq<Metric>, m: Metric)
    requires OnePerKey(delta)
    ensures var i := FirstIndex(delta, CachedBy(m));
            if m.Key() in AsMap(delta) && !Clashes(AsMap(delta), m)
            then i < |delta| && delta[i] == AsMap(delta)[m.Key()] else i == |delta|
  {
    var i := FirstIndex(delta, CachedBy(m));
    AsMapKeys(delta, m.Key());
    if i < |delta| {
      AsMapAt(delta, i);
    } else if m.Key() in AsMap(delta) {
      var j :| 0 <= j < |delta| && delta[j].Key() == m.Key();
      AsMapAt(delta, j);
      assert !CachedBy(m)(delta[j]);
    }
  }

  /** Pushing a DELTA sample is the map update, unless it is refused, which changes nothing; the list keeps one
      sample per key exactly when the new sample does not clash with the stored one. */
  lemma PushRefinesUpdate(s: Store, m: Metric)
    requires OnePerKey(s.delta) && m.IsDelta()
    ensures var o := Push(s, m); var stored := AsMap(s.delta);
            && (o.ok <==> !Mismatches(stored, m))
            && (!o.ok ==> o.store == s)
            && (o.ok ==> AsMap(o.store.delta) == stored[m.Key() := m])
            && (OnePerKey(o.store.delta) <==> !Clashes(stored, m))
  {
    hide FirstIndex, AsMap;
    var stored := AsMap(s.delta);
    SearchIsLookup(s.delta, m);
    AsMapAppend(s.delta, m);
    AsMapKeys(s.delta, m.Key());
    match Sample(s.delta, m, s.next)
    case First =>
      var t := s.delta + [m];
      assert Push(s, m).store.delta == t;
      if m.Key() in stored {
        var j :| 0 <= j < |s.delta| && s.delta[j].Key() == m.Key();
        assert t[j].Key() == t[|s.delta|].Key();
      }
    case Unusable =>
    case Next(i, d) =>
      AsMapUpdate(s.delta, i, m);
      PushLeavesDelta(s.(delta := s.delta[i := m], next := s.next + 1), d);
  }

  /** Eviction removes from the map exactly the samples older than the horizon. */
  lemma {:induction false} EvictRefinesFilter(delta: seq<Metric>, drop: Metric -> bool)
    requires OnePerKey(delta)
    ensures OnePerKey(Kept(delta, drop))
    ensures forall m :: m in Kept(delta, drop) <==> m in delta && !drop(m)
    ensures AsMap(Kept(delta, drop)) == map k | k in AsMap(delta) && !drop(AsMap(delta)[k]) :: AsMap(delta)[k]
  {
    KeptMembers(delta, drop);
    KeptOnePerKey(delta, drop);
    var kept := Kept(delta, drop);
    forall k
      ensures k in AsMap(kept) <==> k in AsMap(delta) && !drop(AsMap(delta)[k])
      ensures k in AsMap(kept) ==> AsMap(kept)[k] == AsMap(delta)[k]
    {
      AsMapKeys(kept, k);
      AsMapKeys(delta, k);
      if k in AsMap(kept) {
        var i :| 0 <= i < |kept| && kept[i].Key() == k;
        AsMapAt(kept, i);
        assert kept[i] in delta;
        var j :| 0 <= j < |delta| && delta[j] == kept[i];
        AsMapAt(delta, j);
      }
      if k in AsMap(delta) && !drop(AsMap(delta)[k]) {
        var j :| 0 <= j < |delta| && delta[j].Key() == k;
        AsMapAt(delta, j);
        assert delta[j] in kept;
        var i :| 0 <= i < |kept| && kept[i] == delta[j];
      }
    }
  }

  lemma {:induction false} KeptOnePerKey(ms: seq<Metric>, drop: Metric -> bool)
    requires OnePerKey(ms)
    ensures OnePerKey(Kept(ms, drop))
  {
    if ms != [] {
      KeptOnePerKey(ms[1..], drop);
      KeptMembers(ms[1..], drop);
      var rest := Kept(ms[1..], drop);
      forall j | 0 <= j < |rest|
        ensures rest[j].Key() != ms[0].Key()
      {
        assert rest[j] in ms[1..];
      }
    }
  }
}
