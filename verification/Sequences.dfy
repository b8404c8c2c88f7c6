/** Sequences without repetition, as the nodes of a linked structure are, and sequences of sequences. */
module Sequences {
  predicate Distinct<T(==)>(xs: seq<T>) {
    xs == [] || (xs[0] !in xs[1..] && Distinct(xs[1..]))
  }

  predicate Disjoint<T(==)>(a: seq<T>, b: seq<T>) {
    forall x :: x in a ==> x !in b
  }

  lemma {:induction false} DistinctAt<T>(xs: seq<T>, i: nat, j: nat)
    requires Distinct(xs) && i < j < |xs|
    ensures xs[i] != xs[j]
  {
    if i > 0 {
      DistinctAt(xs[1..], i - 1, j - 1);
    } else {
      assert xs[j] == xs[1..][j - 1];
    }
  }

  lemma {:induction false} DistinctConcat<T>(a: seq<T>, b: seq<T>)
    ensures Distinct(a + b) <==> Distinct(a) && Distinct(b) && Disjoint(a, b)
  {
    if a == [] {
      assert a + b == b;
    } else {
      assert (a + b)[1..] == a[1..] + b;
      assert a == [a[0]] + a[1..];
      assert a[0] in (a + b)[1..] <==> a[0] in a[1..] || a[0] in b;
      DistinctConcat(a[1..], b);
    }
  }

  lemma SliceOfPrefix<T>(xs: seq<T>, n: nat, i: nat, j: nat)
    requires i <= j <= n <= |xs|
    ensures xs[..n][i..j] == xs[i..j]
  {}

  lemma SuffixStep<T>(xs: seq<T>, pos: nat, a: seq<T>, b: seq<T>, c: seq<T>)
    requires pos <= |xs| && xs[pos..] == a + b + c
    ensures pos + |a| <= |xs| && xs[pos + |a|..] == b + c && xs[pos..] == a + (b + c)
  {
    assert xs[pos + |a|..] == xs[pos..][|a|..];
  }

  /** What follows the first element of a sequence put together from parts */
  lemma BehindFirst<T>(first: T, a: seq<T>, b: seq<T>, c: seq<T>)
    ensures ([first] + a + b + c)[0] == first && ([first] + a + b + c)[1..] == a + (b + c)
  {}

  function Flatten<T>(parts: seq<seq<T>>): seq<T> {
    if parts == [] then [] else Flatten(parts[..|parts| - 1]) + parts[|parts| - 1]
  }

  lemma FlattenAppend<T>(parts: seq<seq<T>>, part: seq<T>)
    ensures Flatten(parts + [part]) == Flatten(parts) + part
  {
    assert (parts + [part])[..|parts|] == parts;
  }

  lemma {:induction false} FlattenHead<T>(parts: seq<seq<T>>)
    requires parts != []
    ensures Flatten(parts) == parts[0] + Flatten(parts[1..])
  {
    var n := |parts| - 1;
    if n > 0 {
      FlattenHead(parts[..n]);
      assert parts[..n][1..] == parts[1..][..n - 1] && parts[1..][n - 1] == parts[n];
    } else {
      assert parts[..0] == [];
    }
  }

  /** Each part is a stretch of the whole. */
  lemma {:induction false} FlattenPart<T>(parts: seq<seq<T>>, i: nat) returns (offset: nat)
    requires i < |parts|
    ensures offset + |parts[i]| <= |Flatten(parts)|
    ensures Flatten(parts)[offset..offset + |parts[i]|] == parts[i]
  {
    var n := |parts| - 1;
    if i < n {
      offset := FlattenPart(parts[..n], i);
    } else {
      offset := |Flatten(parts[..n])|;
    }
  }
}
