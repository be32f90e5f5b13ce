/**
  Round-to-nearest-even, first to an integer and then to a p-bit binary
  significand (section 4.3.1 of IEEE 754-2019), with an unbounded exponent.
 */
module Rounding {

  // ----- Scaling by powers of two -----

  /** x * 2^k, for k of either sign. */
  function Scale(x: real, k: int): real
    decreases if k < 0 then -k else k
  {
    if k == 0 then x else if k > 0 then 2.0 * Scale(x, k - 1) else Scale(x, k + 1) / 2.0
  }

  function Pow2(k: int): real { Scale(1.0, k) }

  lemma ScaleNext(x: real, k: int)
    ensures Scale(x, k + 1) == 2.0 * Scale(x, k)
  {}

  lemma {:induction false} ScaleScale(x: real, a: int, b: int)
    ensures Scale(Scale(x, a), b) == Scale(x, a + b)
    decreases if b < 0 then -b else b
  {
    if b > 0 {
      ScaleScale(x, a, b - 1);
      ScaleNext(x, a + b - 1);
    } else if b < 0 {
      ScaleScale(x, a, b + 1);
      ScaleNext(x, a + b);
    }
  }

  lemma {:induction false} ScaleLinear(x: real, y: real, k: int)
    ensures Scale(x - y, k) == Scale(x, k) - Scale(y, k)
    ensures x < y ==> Scale(x, k) < Scale(y, k)
    ensures x <= y ==> Scale(x, k) <= Scale(y, k)
    decreases if k < 0 then -k else k
  {
    if k > 0 { ScaleLinear(x, y, k - 1); } else if k < 0 { ScaleLinear(x, y, k + 1); }
  }

  lemma {:induction false} ScaleZero(k: int)
    ensures Scale(0.0, k) == 0.0
    decreases if k < 0 then -k else k
  {
    if k > 0 { ScaleZero(k - 1); } else if k < 0 { ScaleZero(k + 1); }
  }

  lemma ScalePositive(x: real, k: int)
    ensures x > 0.0 <==> Scale(x, k) > 0.0
    ensures x >= 0.0 <==> Scale(x, k) >= 0.0
  {
    ScaleZero(k);
    ScaleLinear(0.0, x, k);
    ScaleLinear(x, 0.0, k);
  }

  lemma {:induction false} ScaleMonotone(x: real, a: int, b: int)
    requires x > 0.0 && a <= b
    ensures Scale(x, a) <= Scale(x, b)
    ensures a < b ==> Scale(x, a) < Scale(x, b)
    decreases b - a
  {
    if a < b {
      ScaleMonotone(x, a, b - 1);
      ScaleNext(x, b - 1);
      ScalePositive(x, b - 1);
    }
  }

  lemma Pow2Strict(a: int, b: int)
    requires Pow2(a) < Pow2(b)
    ensures a < b
  {
    if b <= a { ScaleMonotone(1.0, b, a); }
  }

  ghost predicate Whole(s: real) { s == s.Floor as real }

  lemma {:induction false} ScaleWhole(x: real, k: int)
    requires Whole(x) && k >= 0
    ensures Whole(Scale(x, k))
  {
    if k > 0 {
      ScaleWhole(x, k - 1);
      assert Scale(x, k) == (2 * Scale(x, k - 1).Floor) as real;
    }
  }

  // ----- Rounding to an integer -----

  /** The integer nearest to x; of two equally near ones, the even one. */
  function RoundEven(x: real): (n: int)
    ensures -0.5 <= x - n as real <= 0.5
  {
    var f := x.Floor;
    var d := x - f as real;
    if d < 0.5 || (d == 0.5 && f % 2 == 0) then f else f + 1
  }

  /** RoundEven is the only function that picks a nearest integer and breaks ties to even. */
  lemma RoundEvenUnique(x: real, n: int)
    requires -0.5 <= x - n as real <= 0.5
    requires x - n as real == 0.5 || n as real - x == 0.5 ==> n % 2 == 0
    ensures RoundEven(x) == n
  {
    var f := x.Floor;
    assert f == n || f == n - 1;
  }

  lemma RoundEvenTie(x: real)
    ensures var n := RoundEven(x);
            x - n as real == 0.5 || n as real - x == 0.5 ==> n % 2 == 0
  {}

  lemma RoundEvenMonotone(x: real, y: real)
    requires x <= y
    ensures RoundEven(x) <= RoundEven(y)
  {
    RoundEvenTie(x);
    RoundEvenTie(y);
  }

  /** Shifting by an even integer commutes with rounding, ties included. */
  lemma RoundEvenShift(x: real, k: int)
    requires k % 2 == 0
    ensures RoundEven(x + k as real) == RoundEven(x) + k
  {
    RoundEvenTie(x);
    RoundEvenUnique(x + k as real, RoundEven(x) + k);
  }

  lemma RoundEvenNegate(x: real)
    ensures RoundEven(-x) == -RoundEven(x)
  {
    RoundEvenTie(x);
    RoundEvenUnique(-x, -RoundEven(x));
  }

  lemma RoundBetween(s: real, lo: real, hi: real)
    requires Whole(lo) && Whole(hi) && lo <= s <= hi
    ensures lo <= RoundEven(s) as real <= hi
  {
    RoundEvenMonotone(lo, s);
    RoundEvenMonotone(s, hi);
    RoundEvenUnique(lo, lo.Floor);
    RoundEvenUnique(hi, hi.Floor);
  }

  function Gap(x: real, y: real): real { if x <= y then y - x else x - y }

  lemma NearestIntegerBest(s: real, t: real)
    requires Whole(t)
    ensures Gap(s, RoundEven(s) as real) <= Gap(s, t)
  {
    var n := t.Floor;
    if n != RoundEven(s) {
      assert Gap(s, n as real) >= 0.5;
    }
  }

  // ----- Rounding to p significant bits -----

  /** The binary exponent of a positive real: 2^e <= x < 2^(e+1). */
  function Exponent(x: real): (e: int)
    requires x > 0.0
    ensures Pow2(e) <= x < Pow2(e + 1)
    decreases x < 1.0, if x < 1.0 then (1.0 / x).Floor else x.Floor
  {
    if x >= 2.0 then
      assert (x / 2.0).Floor < x.Floor;
      var e := Exponent(x / 2.0);
      ScaleNext(1.0, e); ScaleNext(1.0, e + 1);
      e + 1
    else if x < 1.0 then
      ReciprocalShrinks(x);
      var e := Exponent(x * 2.0);
      ScaleNext(1.0, e - 1); ScaleNext(1.0, e);
      e - 1
    else
      assert Pow2(1) == 2.0;
      0
  }

  lemma ReciprocalShrinks(x: real)
    requires 0.0 < x < 1.0
    ensures x * 2.0 < 1.0 ==> (1.0 / (x * 2.0)).Floor < (1.0 / x).Floor
  {
    var r := 1.0 / x;
    assert r * x == 1.0;
    if x * 2.0 < 1.0 {
      var q := 1.0 / (x * 2.0);
      assert q * (x * 2.0) == 1.0;
      assert (q * 2.0 - r) * x == 0.0;
      assert q * 2.0 == r;
      assert q > 1.0;
    }
  }

  lemma ExponentUnique(x: real, e: int)
    requires Pow2(e) <= x < Pow2(e + 1)
    ensures x > 0.0 && Exponent(x) == e
  {
    ScalePositive(1.0, e);
    Pow2Strict(e, Exponent(x) + 1);
    Pow2Strict(Exponent(x), e + 1);
  }

  /** The exponent of the last of p significant bits of x. */
  function Ulp(p: int, x: real): int
    requires x > 0.0
  {
    Exponent(x) - p + 1
  }

  /** x counted in units of its last place. */
  function InUlps(p: int, x: real): real
    requires x > 0.0
  {
    Scale(x, -Ulp(p, x))
  }

  /** Counted in its last place, x has p bits before the point; rounding keeps that, or gives 2^p. */
  lemma InUlpsRange(p: int, x: real)
    requires p >= 1 && x > 0.0
    ensures Pow2(p - 1) <= InUlps(p, x) < Pow2(p)
    ensures Pow2(p - 1) <= RoundEven(InUlps(p, x)) as real <= Pow2(p)
    ensures Scale(InUlps(p, x), Ulp(p, x)) == x
  {
    hide Scale, RoundEven;
    var e, u := Exponent(x), Ulp(p, x);
    ScaleScale(1.0, e, -u);
    ScaleScale(1.0, e + 1, -u);
    ScaleLinear(Pow2(e), x, -u);
    ScaleLinear(x, Pow2(e + 1), -u);
    ScaleBack(x, u);
    Pow2Whole(p - 1);
    Pow2Whole(p);
    RoundBetween(InUlps(p, x), Pow2(p - 1), Pow2(p));
  }

  lemma ScaleBack(x: real, u: int)
    ensures Scale(Scale(x, -u), u) == x
  {
    ScaleScale(x, -u, u);
  }

  lemma Pow2Whole(k: int)
    requires k >= 0
    ensures Whole(Pow2(k))
  {
    ScaleWhole(1.0, k);
  }

  /** The p-bit binary value nearest to x, ties to even. */
  function Nearest(p: int, x: real): (y: real)
    requires p >= 1 && x >= 0.0
    ensures y >= 0.0
  {
    if x == 0.0 then 0.0 else
      InUlpsRange(p, x);
      ScalePositive(1.0, p - 1);
      ScalePositive(RoundEven(InUlps(p, x)) as real, Ulp(p, x));
      Scale(RoundEven(InUlps(p, x)) as real, Ulp(p, x))
  }

  /** The result stays between the two powers of two that enclose x. */
  lemma NearestRange(p: int, x: real)
    requires p >= 1 && x > 0.0
    ensures Pow2(Exponent(x)) <= Nearest(p, x) <= Pow2(Exponent(x) + 1)
  {
    hide Scale, RoundEven;
    var u, n := Ulp(p, x), RoundEven(InUlps(p, x)) as real;
    InUlpsRange(p, x);
    ScaleScale(1.0, p - 1, u);
    ScaleScale(1.0, p, u);
    ScaleLinear(Pow2(p - 1), n, u);
    ScaleLinear(n, Pow2(p), u);
  }

  lemma ScaleGap(a: real, b: real, k: int)
    ensures Gap(Scale(a, k), Scale(b, k)) == Scale(Gap(a, b), k)
  {
    hide Scale;
    ScaleLinear(a, b, k);
    ScaleLinear(b, a, k);
  }

  /** Half a unit in the last place, hence a relative error of at most 2^-p. */
  lemma NearestError(p: int, x: real)
    requires p >= 1 && x >= 0.0
    ensures Gap(x, Nearest(p, x)) <= Scale(x, -p)
    ensures x > 0.0 ==> Gap(x, Nearest(p, x)) <= Pow2(Exponent(x) - p)
  {
    hide Scale, RoundEven;
    if x == 0.0 {
      ScaleZero(-p);
    } else {
      var e, u, s := Exponent(x), Ulp(p, x), InUlps(p, x);
      InUlpsRange(p, x);
      ScaleGap(s, RoundEven(s) as real, u);
      ScaleLinear(Gap(s, RoundEven(s) as real), 0.5, u);
      HalfScale(u);
      ScaleScale(1.0, e, -p);
      ScaleLinear(Pow2(e), x, -p);
    }
  }

  lemma HalfScale(u: int)
    ensures Scale(0.5, u) == Pow2(u - 1)
  {
    ScaleScale(1.0, -1, u);
  }

  lemma NearestMonotone(p: int, x: real, y: real)
    requires p >= 1 && 0.0 <= x <= y
    ensures Nearest(p, x) <= Nearest(p, y)
  {
    hide Scale, RoundEven;
    if x > 0.0 {
      var e, f := Exponent(x), Exponent(y);
      if e == f {
        var u := Ulp(p, x);
        ScaleLinear(x, y, -u);
        RoundEvenMonotone(InUlps(p, x), InUlps(p, y));
        ScaleLinear(RoundEven(InUlps(p, x)) as real, RoundEven(InUlps(p, y)) as real, u);
      } else {
        Pow2Strict(e, f + 1);
        ScaleMonotone(1.0, e + 1, f);
        NearestRange(p, x);
        NearestRange(p, y);
      }
    } else if y > 0.0 {
      NearestRange(p, y);
      ScalePositive(1.0, Exponent(y));
    }
  }

  // ----- Representable values -----

  /** x == m * 2^e with a significand of fewer than p bits. */
  ghost predicate Decomposes(p: int, x: real, m: int, e: int) {
    -Pow2(p) < m as real < Pow2(p) && x == Scale(m as real, e)
  }

  ghost predicate Representable(p: int, x: real) {
    exists m, e :: Decomposes(p, x, m, e)
  }

  lemma PowerRepresentable(p: int, e: int)
    requires p >= 1
    ensures Representable(p, Pow2(e))
  {
    ScaleMonotone(1.0, 0, p);
    assert Decomposes(p, Pow2(e), 1, e);
  }

  lemma NearestRepresentable(p: int, x: real)
    requires p >= 1 && x >= 0.0
    ensures Representable(p, Nearest(p, x))
  {
    hide Scale, RoundEven;
    if x == 0.0 {
      ScaleZero(0);
      ScalePositive(1.0, p);
      assert Decomposes(p, 0.0, 0, 0);
    } else {
      var u, n := Ulp(p, x), RoundEven(InUlps(p, x));
      InUlpsRange(p, x);
      if n as real < Pow2(p) {
        ScalePositive(1.0, p - 1);
        assert Decomposes(p, Nearest(p, x), n, u);
      } else {
        ScaleScale(1.0, p, u);
        PowerRepresentable(p, p + u);
      }
    }
  }

  /** Above 2^Exponent(x), p-bit values lie on the grid that Nearest rounds x to. */
  lemma OnGrid(p: int, x: real, y: real, m: int, e: int)
    requires p >= 1 && x > 0.0
    requires Decomposes(p, y, m, e) && y >= Pow2(Exponent(x))
    ensures Whole(Scale(y, -Ulp(p, x)))
  {
    hide Scale;
    var u := Ulp(p, x);
    ScaleLinear(m as real, Pow2(p), e);
    ScaleScale(1.0, p, e);
    Pow2Strict(Exponent(x), p + e);
    ScaleScale(m as real, e, -u);
    ScaleWhole(m as real, e - u);
  }

  /** Among grid points none is nearer to x. */
  lemma NearestBestOnGrid(p: int, x: real, z: real)
    requires p >= 1 && x > 0.0 && Whole(Scale(z, -Ulp(p, x)))
    ensures Gap(x, Nearest(p, x)) <= Gap(x, z)
  {
    hide Scale, RoundEven;
    var u := Ulp(p, x);
    var s, t := InUlps(p, x), Scale(z, -u);
    NearestIntegerBest(s, t);
    InUlpsRange(p, x);
    ScaleBack(z, u);
    ScaleLinear(Gap(s, RoundEven(s) as real), Gap(s, t), u);
    ScaleGap(s, RoundEven(s) as real, u);
    ScaleGap(s, t, u);
  }

  /** No p-bit value is nearer to x than Nearest(p, x). */
  lemma NearestBest(p: int, x: real, y: real)
    requires p >= 1 && x >= 0.0 && Representable(p, y)
    ensures Gap(x, Nearest(p, x)) <= Gap(x, y)
  {
    hide Scale;
    if x > 0.0 {
      var e, u := Exponent(x), Ulp(p, x);
      if y >= Pow2(e) {
        var m, k :| Decomposes(p, y, m, k);
        OnGrid(p, x, y, m, k);
        NearestBestOnGrid(p, x, y);
      } else {
        ScaleScale(1.0, e, -u);
        Pow2Whole(p - 1);
        NearestBestOnGrid(p, x, Pow2(e));
      }
    }
  }

  lemma NearestFixed(p: int, x: real)
    requires p >= 1 && x >= 0.0 && Representable(p, x)
    ensures Nearest(p, x) == x
  {
    NearestBest(p, x, x);
  }

  // ----- Ties -----

  /**
    The nearest multiple of the last place, and of two equally near ones the even one: this
    determines Nearest.
   */
  lemma NearestUnique(p: int, x: real, m: int)
    requires p >= 1 && x > 0.0
    requires Gap(x, Scale(m as real, Ulp(p, x))) <= Pow2(Ulp(p, x) - 1)
    requires Gap(x, Scale(m as real, Ulp(p, x))) == Pow2(Ulp(p, x) - 1) ==> m % 2 == 0
    ensures Nearest(p, x) == Scale(m as real, Ulp(p, x))
  {
    hide Scale, RoundEven;
    var u, s := Ulp(p, x), InUlps(p, x);
    InUlpsRange(p, x);
    ScaleGap(s, m as real, u);
    HalfScale(u);
    var d := Gap(s, m as real);
    if d > 0.5 { ScaleLinear(0.5, d, u); }
    if d < 0.5 { ScaleLinear(d, 0.5, u); }
    RoundEvenUnique(s, m);
  }

  /** Half way between two multiples of the last place, the even one is taken. */
  lemma NearestTie(p: int, x: real)
    requires p >= 1 && x > 0.0 && Gap(x, Nearest(p, x)) == Pow2(Ulp(p, x) - 1)
    ensures exists m: int :: m % 2 == 0 && Nearest(p, x) == Scale(m as real, Ulp(p, x))
  {
    hide Scale, RoundEven;
    var u, s := Ulp(p, x), InUlps(p, x);
    var n := RoundEven(s);
    InUlpsRange(p, x);
    ScaleGap(s, n as real, u);
    HalfScale(u);
    var d := Gap(s, n as real);
    if d > 0.5 { ScaleLinear(0.5, d, u); }
    if d < 0.5 { ScaleLinear(d, 0.5, u); }
    RoundEvenTie(s);
  }
}
