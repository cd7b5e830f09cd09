/**
 * Python's built-in `round` on exact reals: to the nearest integer, ties to the even one.
 * The packing plan uses it for the contribution percentage (`round(x, 2)`) and for the packet
 * estimate (`2 * round(x / 2)`).
 */
module Rounding {
  import opened Wrappers

  function Abs(x: real): real {
    if x < 0.0 then -x else x
  }

  /** The distance from `y` to the integer `n`. */
  function Dist(y: real, n: int): real {
    Abs(y - n as real)
  }

  /** `round(y)`: the integer nearest to `y`; when `y` lies exactly half-way, the even one. */
  function RoundHalfEven(y: real): int {
    var f := y.Floor;
    var d := y - f as real;
    if d < 0.5 then f
    else if d > 0.5 then f + 1
    else if f % 2 == 0 then f
    else f + 1
  }

  /** The result is within one half of `y`, no integer is nearer, and a tie goes to the even
      neighbour. */
  lemma RoundHalfEvenNearest(y: real)
    ensures Dist(y, RoundHalfEven(y)) <= 0.5
    ensures forall n: int :: Dist(y, RoundHalfEven(y)) <= Dist(y, n)
    ensures y - y.Floor as real == 0.5 ==> RoundHalfEven(y) % 2 == 0
  {
    var f := y.Floor;
    var r := RoundHalfEven(y);
    assert f as real <= y < f as real + 1.0;
    forall n: int ensures Dist(y, r) <= Dist(y, n) {
      if n <= f {
        assert Abs(y - n as real) >= y - f as real;
      } else {
        assert Abs(y - n as real) >= f as real + 1.0 - y;
      }
    }
  }

  /** `round(x, 2)` on an exact value: the nearest hundredth, ties to an even last digit. */
  function Round2(x: real): real {
    RoundHalfEven(x * 100.0) as real / 100.0
  }

  lemma Round2Error(x: real)
    ensures Abs(Round2(x) - x) <= 0.005
  {
    RoundHalfEvenNearest(x * 100.0);
    var r := RoundHalfEven(x * 100.0) as real;
    assert Round2(x) - x == (r - x * 100.0) / 100.0;
  }

  /** `round_to_nearest_2(x)`: `int(2 * round(x / 2))`, or None for a missing value. */
  function RoundToNearest2(x: Option<real>): Option<int> {
    match x
    case None => None
    case Some(v) => Some(2 * RoundHalfEven(v / 2.0))
  }

  lemma DistHalved(v: real, m: int)
    ensures Dist(v, 2 * m) == 2.0 * Dist(v / 2.0, m)
  {
    assert v - (2 * m) as real == 2.0 * (v / 2.0 - m as real);
  }

  /** `2 * round(v / 2)` is no farther from `v` than any even integer. */
  lemma NearestEven(v: real, n: int)
    requires n % 2 == 0
    ensures Dist(v, 2 * RoundHalfEven(v / 2.0)) <= Dist(v, n)
  {
    var h := RoundHalfEven(v / 2.0);
    var m := n / 2;
    RoundHalfEvenNearest(v / 2.0);
    DistHalved(v, h);
    DistHalved(v, m);
    assert 2 * m == n;
    assert Dist(v / 2.0, h) <= Dist(v / 2.0, m);
  }

  /** A present value goes to an even integer within 1 of it, and no even integer is nearer;
      a missing one stays missing. */
  lemma RoundToNearest2Spec(x: Option<real>)
    ensures RoundToNearest2(x).None? <==> x.None?
    ensures x.Some? ==> RoundToNearest2(x).value % 2 == 0
    ensures x.Some? ==> Dist(x.value, RoundToNearest2(x).value) <= 1.0
    ensures x.Some? ==> forall n: int :: n % 2 == 0 ==> Dist(x.value, RoundToNearest2(x).value) <= Dist(x.value, n)
  {
    if x.Some? {
      var v := x.value;
      var h := RoundHalfEven(v / 2.0);
      RoundHalfEvenNearest(v / 2.0);
      DistHalved(v, h);
      forall n: int | n % 2 == 0 ensures Dist(v, 2 * h) <= Dist(v, n) {
        NearestEven(v, n);
      }
    }
  }

  /** Ties go to the multiple of 4: 1 becomes 0, 3 becomes 4, 5 becomes 4. */
  lemma RoundToNearest2Ties()
    ensures RoundToNearest2(Some(1.0)) == Some(0)
    ensures RoundToNearest2(Some(3.0)) == Some(4)
    ensures RoundToNearest2(Some(5.0)) == Some(4)
  {
    assert (0.5).Floor == 0;
    assert (1.5).Floor == 1;
    assert (2.5).Floor == 2;
  }

  /** Every odd integer lies half-way between two even ones and is rounded to the multiple of 4. */
  lemma RoundToNearest2Odd(k: int)
    ensures RoundToNearest2(Some((2 * k + 1) as real)).value % 4 == 0
  {
    var y := (2 * k + 1) as real / 2.0;
    assert y == k as real + 0.5;
    assert y.Floor == k;
    if k % 2 == 0 {
      assert RoundHalfEven(y) == k;
      assert 2 * k == 4 * (k / 2);
    } else {
      assert RoundHalfEven(y) == k + 1;
      assert 2 * (k + 1) == 4 * ((k + 1) / 2);
    }
  }
}
