/** Counting and a little arithmetic that the solver is told rather than left to find. */
module Numbers {
  import opened Metrics

  function One(b: bool): nat {
    if b then 1 else 0
  }

  lemma Distribute(i: int, x: int, y: int)
    ensures i * (x + y) == i * x + i * y
  {}

  lemma {:induction false} FloorDivision(x: int, d: pos, q: int)
    ensures d * q <= x ==> q <= x / d
    ensures x < d * (q + 1) ==> x / d <= q
  {
    var r := x / d;
    assert d * r <= x < d * (r + 1) by {
      assert x == d * r + x % d;
      Distribute(d, r, 1);
    }
    Distribute(d, r, q - r);
    Distribute(d, q, 1);
    Monotone(d, r + 1, q);
    Monotone(d, q + 1, r);
  }

  lemma Monotone(d: pos, x: int, y: int)
    ensures x <= y ==> d * x <= d * y
  {
    Distribute(d, x, y - x);
  }
}
