/** Rounding to multiples. */
module Alignment {
  lemma MulStep(a: int, d: int)
    requires a > 0
    ensures d >= 1 ==> a * d >= a
    ensures d <= -1 ==> a * d <= -a
  {
  }

  lemma BlockIs(x: nat, a: nat, q: nat)
    requires a > 0 && a * q <= x < a * q + a
    ensures x / a == q
  {
    assert a * (x / a - q) == a * (x / a) - a * q;
    MulStep(a, x / a - q);
  }

  lemma MultipleIs(a: nat, q: nat)
    requires a > 0
    ensures (a * q) % a == 0
  {
    BlockIs(a * q, a, q);
  }

  function AlignDown(x: nat, a: nat): (r: nat)
    requires a > 0
    ensures r <= x < r + a && r % a == 0
  {
    MultipleIs(a, x / a);
    a * (x / a)
  }

  function AlignUp(x: nat, a: nat): (r: nat)
    requires a > 0
    ensures x <= r < x + a && r % a == 0
  {
    if x % a == 0 then x else AlignDownNext(x, a)
  }

  /** The multiple above the one that `x` is rounded down to. */
  function AlignDownNext(x: nat, a: nat): (r: nat)
    requires a > 0
    ensures x < r <= x + a && r % a == 0 && r == AlignDown(x, a) + a
  {
    MultipleIs(a, x / a + 1);
    a * (x / a + 1)
  }

  /** What lies between a number and its roundings is in the same block. */
  lemma SameBlock(x: nat, y: nat, a: nat)
    requires a > 0 && AlignDown(x, a) <= y < AlignDown(x, a) + a
    ensures y / a == x / a
  {
    BlockIs(y, a, x / a);
  }

  /** A multiple of the alignment separates blocks. */
  lemma Separates(x: nat, lo: nat, y: nat, a: nat)
    requires a > 0 && lo % a == 0 && x < lo <= y
    ensures x / a < lo / a <= y / a
  {
    assert a * (lo / a - x / a) == lo - a * (x / a);
    assert a * (y / a - lo / a) == a * (y / a) - lo;
    MulStep(a, lo / a - x / a);
    MulStep(a, y / a - lo / a);
  }

  lemma ModAdd(x: nat, y: nat, a: nat)
    requires a > 0 && x % a == 0 && y % a == 0
    ensures (x + y) % a == 0
  {
    assert x + y == a * (x / a + y / a);
    BlockIs(x + y, a, x / a + y / a);
  }

  lemma NoMultiple(x: nat, len: nat, a: nat)
    requires a > 0 && x % a == 0 && len <= a
    ensures forall i :: x < i < x + len ==> i % a != 0
  {
    forall i | x < i < x + len && i % a == 0 ensures false {
      Separates(x, i, i, a);
      assert x == a * (x / a);
      BlockIs(i, a, x / a);
    }
  }

  lemma TailShort(x: nat, a: nat, t: nat)
    requires a > 0 && x % a == 0 && t < a
    ensures (x + t) % a == t
  {
    assert x + t == a * (x / a) + t;
    BlockIs(x + t, a, x / a);
  }

  lemma ModSub(x: nat, y: nat, a: nat)
    requires a > 0 && x % a == 0 && y % a == 0 && y <= x
    ensures (x - y) % a == 0
  {
    MulStep(a, x / a - y / a);
    assert x - y == a * (x / a - y / a);
    BlockIs(x - y, a, x / a - y / a);
  }
}
