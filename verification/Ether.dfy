/**
  Conversions between wei and ether (internal/utils/ether.go).
 */
module Ether {
  import opened Rounding

  const WEI_PER_ETHER: int := 1_000_000_000_000_000_000

  /** A finite binary64 value; the exponent range is left unbounded. */
  ghost predicate Binary64(x: real) { Representable(53, x) }

  /** Wei to ether: quotient at 236 bits of precision, then rounded to binary64. */
  function ToEther(wei: nat): real {
    Nearest(53, Nearest(236, Nearest(236, wei as real) / 1_000_000_000_000_000_000.0))
  }

  function Truncate(x: real): int { if x >= 0.0 then x.Floor else -(-x).Floor }

  function Magnitude(x: real): real { if x >= 0.0 then x else -x }

  /** |x| printed with 18 decimals, as one integer: the digits without the point. */
  function Printed18(x: real): (n: nat) {
    RoundEvenMonotone(0.0, Magnitude(x) * 1_000_000_000_000_000_000.0);
    RoundEven(Magnitude(x) * 1_000_000_000_000_000_000.0)
  }

  /** The last k decimal digits of n, zero-padded on the left. */
  function Digits(n: nat, k: nat): seq<nat> {
    if k == 0 then [] else Digits(n / 10, k - 1) + [n % 10]
  }

  /** Reads decimal digits, most significant first. */
  function Parse(digits: seq<nat>): nat {
    if digits == [] then 0 else Parse(digits[..|digits| - 1]) * 10 + digits[|digits| - 1]
  }

  /** Ether to wei: truncated integer part plus the printed fraction digits. */
  function ToWei(x: real): int {
    Truncate(x) * WEI_PER_ETHER + Parse(Digits(Printed18(x), 18))
  }

  function Pow10(k: nat): nat { if k == 0 then 1 else 10 * Pow10(k - 1) }

  lemma {:induction false} ParseDigits(n: nat, k: nat)
    ensures Pow10(k) > 0 && Parse(Digits(n, k)) == n % Pow10(k)
  {
    if k > 0 {
      ParseDigits(n / 10, k - 1);
      var p, q := Pow10(k - 1), n / 10;
      assert Digits(n, k)[..|Digits(n, k)| - 1] == Digits(q, k - 1);
      SplitDigit(n, p);
    }
  }

  lemma SplitDigit(n: nat, p: nat)
    requires p > 0
    ensures n % (10 * p) == (n / 10 % p) * 10 + n % 10
  {
    var q := n / 10;
    var c, r := q / p, q % p;
    assert q == c * p + r;
    assert n == c * (10 * p) + (r * 10 + n % 10);
    RemainderUnique(n, 10 * p, c, r * 10 + n % 10);
  }

  lemma RemainderUnique(n: nat, d: nat, c: nat, r: nat)
    requires d > 0 && n == c * d + r && r < d
    ensures n % d == r && n / d == c
  {
    var c', r' := n / d, n % d;
    assert n == c' * d + r';
    assert (c - c') * d == r' - r;
    if c > c' { AtLeastOne(c - c', d); }
    if c < c' { AtLeastOne(c' - c, d); }
  }

  lemma AtLeastOne(a: nat, d: nat)
    requires a >= 1
    ensures a * d >= d
  {
    assert a * d == d + (a - 1) * d;
  }

  lemma FractionDigits(x: real)
    ensures Parse(Digits(Printed18(x), 18)) == Printed18(x) % WEI_PER_ETHER
  {
    ParseDigits(Printed18(x), 18);
    assert Pow10(6) == 1_000_000;
    assert Pow10(12) == 1_000_000_000_000;
    assert Pow10(18) == WEI_PER_ETHER;
  }

  // ----- Some powers of two -----

  lemma Kilo(k: int)
    ensures Pow2(k + 10) == 1024.0 * Pow2(k)
  {
    ScaleNext(1.0, k); ScaleNext(1.0, k + 1); ScaleNext(1.0, k + 2); ScaleNext(1.0, k + 3); ScaleNext(1.0, k + 4);
    ScaleNext(1.0, k + 5); ScaleNext(1.0, k + 6); ScaleNext(1.0, k + 7); ScaleNext(1.0, k + 8); ScaleNext(1.0, k + 9);
  }

  lemma SmallPowers()
    ensures Pow2(2) == 4.0 && Pow2(9) == 512.0 && Pow2(-1) == 0.5 && Pow2(0) == 1.0
  {
    assert Pow2(5) == 32.0;
  }

  lemma Pow2Values()
    ensures Pow2(42) == 4398046511104.0
    ensures Pow2(52) == 4503599627370496.0
    ensures Pow2(53) == 9007199254740992.0
    ensures Pow2(59) == 576460752303423488.0
    ensures 9007199254740992.0 * Pow2(-53) == 1.0
    ensures 4398046511104.0 * Pow2(-42) == 1.0
  {
    hide Scale, Pow2;
    SmallPowers();
    Kilo(2); Kilo(12); Kilo(22); Kilo(32); Kilo(42);
    Kilo(-1); Kilo(9); Kilo(19); Kilo(29); Kilo(39); Kilo(49);
    NextPower(52);
    Kilo(-10); Kilo(-20); Kilo(-30); Kilo(-40); Kilo(-50);
    NextPower(-53); NextPower(-52); NextPower(-51);
    Kilo(-42); Kilo(-32); Kilo(-22); Kilo(-12); NextPower(-2);
  }

  lemma NextPower(k: int)
    ensures Pow2(k + 1) == 2.0 * Pow2(k)
  {}

  // ----- ToWei rounds correctly -----

  /** A binary64 value is never within 2^-53 below the next integer. */
  lemma FractionGap(x: real)
    requires Binary64(x) && x >= 0.0
    ensures x - x.Floor as real <= 1.0 - Pow2(-53)
  {
    hide Scale;
    var m, e :| Decomposes(53, x, m, e);
    ScaleMonotone(1.0, -53, -1);
    SmallPowers();
    if e >= 0 {
      ScaleWhole(m as real, e);
    } else if e < -53 {
      ScaleLinear(m as real, Pow2(53), e);
      ScaleScale(1.0, 53, e);
      ScaleMonotone(1.0, 53 + e, -1);
    } else {
      FractionGapOnGrid(x, m, -e);
      ScaleMonotone(1.0, -53, e);
    }
  }

  lemma WholeDifference(a: real, b: real, c: real)
    requires Whole(a) && Whole(b) && Whole(c) && a - b < c
    ensures a - b <= c - 1.0
  {
    var i, j, k := a.Floor, b.Floor, c.Floor;
    assert (i - j) as real < k as real;
    assert i - j <= k - 1;
  }

  lemma FractionGapOnGrid(x: real, m: int, k: int)
    requires k >= 0 && x == Scale(m as real, -k) && x >= 0.0
    ensures x - x.Floor as real <= 1.0 - Pow2(-k)
  {
    hide Scale;
    var f := x.Floor as real;
    var d := x - f;
    ScaleBack(m as real, k);
    ScaleLinear(x, f, k);
    ScaleWhole(f, k);
    Pow2Whole(k);
    ScaleLinear(d, 1.0, k);
    WholeDifference(m as real, Scale(f, k), Pow2(k));
    ScaleLinear(Scale(d, k), Pow2(k) - 1.0, -k);
    ScaleLinear(Pow2(k), 1.0, -k);
    ScaleBack(1.0, -k);
    ScaleBack(d, -k);
  }

  lemma FractionInWei(x: real, y: real)
    requires Binary64(x) && x >= 0.0 && y == (x - x.Floor as real) * 1_000_000_000_000_000_000.0
    ensures 0.0 <= y < 999_999_999_999_999_999.0
  {
    hide Binary64, Pow2;
    FractionGap(x);
    Pow2Values();
  }

  lemma RoundedFraction(y: real)
    requires 0.0 <= y < 999_999_999_999_999_999.0
    ensures 0 <= RoundEven(y) < WEI_PER_ETHER
  {
    hide RoundEven;
    RoundEvenMonotone(0.0, y);
    RoundEvenUnique(0.0, 0);
  }

  lemma SplitWei(x: real, f: int, y: real)
    requires y == (x - f as real) * 1_000_000_000_000_000_000.0
    ensures y + (f * WEI_PER_ETHER) as real == x * 1_000_000_000_000_000_000.0
  {}

  /** Rounding the printed fraction never carries into the integer part. */
  lemma NoCarry(x: real)
    requires Binary64(x) && x >= 0.0
    ensures Printed18(x) == RoundEven(x * 1_000_000_000_000_000_000.0)
    ensures Printed18(x) / WEI_PER_ETHER == x.Floor
  {
    hide Binary64, RoundEven;
    var f := x.Floor;
    var y := (x - f as real) * 1_000_000_000_000_000_000.0;
    FractionInWei(x, y);
    RoundedFraction(y);
    RoundEvenShift(y, f * WEI_PER_ETHER);
    SplitWei(x, f, y);
    RemainderUnique(Printed18(x), WEI_PER_ETHER, f, RoundEven(y));
  }

  lemma NegativeRepresentable(x: real)
    requires Binary64(x)
    ensures Binary64(-x)
  {
    var m, e :| Decomposes(53, x, m, e);
    ScaleZero(e);
    ScaleLinear(0.0, m as real, e);
    assert Decomposes(53, -x, -m, e);
  }

  lemma WholeAndFraction(p: nat, f: nat)
    requires p / WEI_PER_ETHER == f
    ensures f * WEI_PER_ETHER + p % WEI_PER_ETHER == p
  {}

  lemma NegativePrinted(x: real)
    requires Binary64(x) && x < 0.0
    ensures RoundEven(x * 1_000_000_000_000_000_000.0) + Printed18(x) == 0
    ensures Printed18(x) / WEI_PER_ETHER == (-x).Floor
  {
    hide RoundEven, Binary64;
    NegativeRepresentable(x);
    NoCarry(-x);
    RoundEvenNegate(-x * 1_000_000_000_000_000_000.0);
    assert -(-x * 1_000_000_000_000_000_000.0) == x * 1_000_000_000_000_000_000.0;
  }

  /**
    ToWei is correct rounding to the nearest wei for every non-negative binary64 value, and for
    a negative one exactly when its printed fraction is all zeros; otherwise it is too large by
    twice that fraction.
   */
  lemma ToWeiRounds(x: real)
    requires Binary64(x)
    ensures ToWei(x) == RoundEven(x * 1_000_000_000_000_000_000.0)
            <==> x >= 0.0 || Printed18(x) % WEI_PER_ETHER == 0
    ensures x < 0.0 ==> ToWei(x) == RoundEven(x * 1_000_000_000_000_000_000.0) + 2 * (Printed18(x) % WEI_PER_ETHER)
  {
    hide Binary64, RoundEven, Printed18, Parse, Digits;
    FractionDigits(x);
    if x >= 0.0 {
      NoCarry(x);
      WholeAndFraction(Printed18(x), x.Floor);
    } else {
      NegativePrinted(x);
      WholeAndFraction(Printed18(x), (-x).Floor);
    }
  }

  /** The negative case does fail: ToWei(-1.5) is minus half an ether. */
  lemma ToWeiNegativeExample()
    ensures Binary64(-1.5)
    ensures ToWei(-1.5) == -500_000_000_000_000_000
    ensures RoundEven(-1.5 * 1_000_000_000_000_000_000.0) == -1_500_000_000_000_000_000
  {
    Pow2Values();
    assert Scale(-3.0, -1) == -1.5;
    assert Decomposes(53, -1.5, -3, -1);
    FractionDigits(-1.5);
    assert Printed18(-1.5) == 1_500_000_000_000_000_000;
  }

  lemma ToWeiMonotone(x: real, y: real)
    requires Binary64(x) && Binary64(y) && 0.0 <= x <= y
    ensures ToWei(x) <= ToWei(y)
  {
    hide Scale, RoundEven;
    ToWeiRounds(x);
    ToWeiRounds(y);
    RoundEvenMonotone(x * 1_000_000_000_000_000_000.0, y * 1_000_000_000_000_000_000.0);
  }

  lemma ToEtherMonotone(v: nat, w: nat)
    requires v <= w
    ensures ToEther(v) <= ToEther(w)
  {
    hide Nearest;
    NearestMonotone(236, v as real, w as real);
    NearestMonotone(236, Nearest(236, v as real) / 1_000_000_000_000_000_000.0,
                         Nearest(236, w as real) / 1_000_000_000_000_000_000.0);
    NearestMonotone(53, Nearest(236, Nearest(236, v as real) / 1_000_000_000_000_000_000.0),
                        Nearest(236, Nearest(236, w as real) / 1_000_000_000_000_000_000.0));
  }

  // ----- The round trip wei -> ether -> wei -----

  lemma {:induction false} ScaleWei(x: real, k: int)
    ensures Scale(1_000_000_000_000_000_000.0 * x, k) == 1_000_000_000_000_000_000.0 * Scale(x, k)
    decreases if k < 0 then -k else k
  {
    if k > 0 { ScaleWei(x, k - 1); } else if k < 0 { ScaleWei(x, k + 1); }
  }

  /** One rounding step, with the value measured in wei. */
  lemma StepError(p: int, x: real, wei: real)
    requires p >= 1 && x >= 0.0 && wei == 1_000_000_000_000_000_000.0 * x
    ensures Gap(wei, 1_000_000_000_000_000_000.0 * Nearest(p, x)) <= Scale(wei, -p)
  {
    hide Scale, Nearest;
    NearestError(p, x);
    ScaleWei(x, -p);
  }

  /** Three roundings cost barely more than the last one alone. */
  lemma ToEtherError(w: nat)
    ensures ToEther(w) >= 0.0
    ensures Gap(w as real, 1_000_000_000_000_000_000.0 * ToEther(w)) <= Scale(w as real, -53) + Scale(w as real, -233)
  {
    hide Scale, Nearest;
    var x := w as real;
    var a := Nearest(236, x);
    var q := a / 1_000_000_000_000_000_000.0;
    var b := Nearest(236, q);
    var n := 1_000_000_000_000_000_000.0 * b;
    NearestError(236, x);
    StepError(236, q, a);
    StepError(53, b, n);
    Halvings(x);
    ScaleLinear(a, x + x, -236);
    ScaleLinear(n, x + Scale(x, -234), -53);
    ScaleSum(x, x, -236);
    ScaleSum(x, Scale(x, -234), -53);
    ScaleScale(x, -234, -53);
  }

  lemma ScaleSum(x: real, y: real, k: int)
    ensures Scale(x + y, k) == Scale(x, k) + Scale(y, k)
  {
    hide Scale;
    ScaleLinear(x + y, y, k);
  }

  lemma Halvings(x: real)
    requires x >= 0.0
    ensures 0.0 <= Scale(x, -236) <= x
    ensures Scale(x, -236) + Scale(x, -236) == Scale(x, -235)
    ensures Scale(x, -235) + Scale(x, -236) <= Scale(x, -234)
    ensures Scale(x, -234) + Scale(x, -287) <= Scale(x, -233)
    ensures Scale(x, -53) + Scale(x, -233) <= Scale(x, -52)
  {
    hide Scale;
    ScalePositive(x, -236); ScalePositive(x, -235);
    ScaleNext(x, -236); ScaleNext(x, -235); ScaleNext(x, -234); ScaleNext(x, -53);
    if x > 0.0 {
      ScaleMonotone(x, -236, 0); ScaleMonotone(x, -287, -234); ScaleMonotone(x, -233, -53);
    } else {
      ScaleZero(-236); ScaleZero(-287); ScaleZero(-234); ScaleZero(-233); ScaleZero(-53); ScaleZero(-52);
    }
    AtZero(x);
  }

  lemma AtZero(x: real)
    ensures Scale(x, 0) == x
  {}

  lemma ToEtherBinary64(w: nat)
    ensures Binary64(ToEther(w))
  {
    hide Nearest;
    NearestRepresentable(53, Nearest(236, Nearest(236, w as real) / 1_000_000_000_000_000_000.0));
  }

  /** Wei to ether and back is off by at most w * 2^-52, plus half a wei of rounding. */
  lemma RoundTripError(w: nat)
    ensures Gap(w as real, ToWei(ToEther(w)) as real) <= Scale(w as real, -52) + 0.5
  {
    hide Scale, RoundEven, ToEther, ToWei;
    ToEtherError(w);
    ToEtherBinary64(w);
    ToWeiRounds(ToEther(w));
    Halvings(w as real);
  }

  // ----- 236 bits are enough: the intermediate rounding never changes the result -----

  const FIVE_18: real := 3_814_697_265_625.0

  lemma {:induction false} ScaleFive(x: real, k: int)
    ensures Scale(FIVE_18 * x, k) == FIVE_18 * Scale(x, k)
    decreases if k < 0 then -k else k
  {
    if k > 0 { ScaleFive(x, k - 1); } else if k < 0 { ScaleFive(x, k + 1); }
  }

  lemma Eighteen(x: real)
    ensures FIVE_18 * x == Scale(1_000_000_000_000_000_000.0 * x, -18)
  {
    var y := 1_000_000_000_000_000_000.0 * x;
    assert Scale(y, -6) == y / 64.0;
    assert Scale(y / 64.0, -6) == y / 4096.0;
    assert Scale(y / 4096.0, -6) == y / 262144.0;
    ScaleScale(y, -6, -6);
    ScaleScale(y, -12, -6);
  }

  lemma WholeGap(a: real, b: real)
    requires Whole(a) && Whole(b) && Gap(a, b) < 1.0
    ensures a == b
  {
    var i, j := a.Floor, b.Floor;
    assert i == j || i <= j - 1 || i >= j + 1;
  }

  /**
    A quotient w / 10^18, counted in units of its 53rd bit, is either exactly half way
    between two integers or more than 2^-184 away from it.
   */
  lemma MidpointGap(w: nat, v: real, e: int, h: int)
    requires v == w as real / 1_000_000_000_000_000_000.0
    requires e <= 176
    requires Gap(Scale(v, 52 - e), h as real + 0.5) <= Pow2(-184)
    ensures Scale(v, 52 - e) == h as real + 0.5
  {
    hide Scale;
    var s := Scale(v, 52 - e);
    var k := if e >= 34 then e - 34 else 0;
    // Both sides, multiplied by 5^18 * 2^k, become integers.
    var left := Scale(FIVE_18 * s, k);
    ScaleFive(v, 52 - e);
    Eighteen(v);
    ScaleScale(w as real, -18, 52 - e);
    ScaleScale(w as real, 34 - e, k);
    ScaleWhole(w as real, 34 - e + k);
    assert Whole(left);
    var mid := h as real + 0.5;
    if e > 34 {
      MidpointWhole(h, k);
      ScaleFive(mid, k);
      ScaleGap(FIVE_18 * s, FIVE_18 * mid, k);
      DistanceBound(k, Gap(s, mid));
      GapFive(s, mid);
      WholeGap(left, Scale(FIVE_18 * mid, k));
      ScaleBack(FIVE_18 * s, -k);
      ScaleBack(FIVE_18 * mid, -k);
    } else {
      AtZero(FIVE_18 * s);
      Pow2Values();
      ScaleMonotone(1.0, -184, -53);
      HalfOdd(left, s, h);
    }
  }

  lemma HalfOdd(left: real, s: real, h: int)
    requires left == FIVE_18 * s && Whole(left)
    ensures Gap(s, h as real + 0.5) > 0.0000000000001
  {
    // 2 * 5^18 * s is an even integer, 5^18 * (2 * h + 1) an odd one: they differ by at least 1.
    var i, j := left.Floor, 3_814_697_265_625 * h + 1_907_348_632_812;
    assert FIVE_18 * (h as real + 0.5) == j as real + 0.5;
    assert i <= j || i >= j + 1;
    assert Gap(left, j as real + 0.5) >= 0.5;
  }

  lemma MidpointWhole(h: int, k: int)
    requires k >= 1
    ensures Whole(Scale(FIVE_18 * (h as real + 0.5), k))
  {
    hide Scale;
    var n := 2 * (3_814_697_265_625 * h + 1_907_348_632_812) + 1;
    OneUp(n as real / 2.0);
    ScaleScale(n as real / 2.0, 1, k - 1);
    ScaleWhole(n as real, k - 1);
    assert FIVE_18 * (h as real + 0.5) == n as real / 2.0;
  }

  lemma OneUp(x: real)
    ensures Scale(x, 1) == 2.0 * x
  {}

  lemma GapFive(a: real, b: real)
    ensures Gap(FIVE_18 * a, FIVE_18 * b) == FIVE_18 * Gap(a, b)
  {}

  lemma DistanceBound(k: int, g: real)
    requires 0.0 <= g <= Pow2(-184) && k <= 142
    ensures Scale(FIVE_18 * g, k) < 1.0
  {
    hide Scale;
    ScaleFive(g, k);
    ScaleLinear(g, Pow2(-184), k);
    ScaleScale(1.0, -184, k);
    ScaleMonotone(1.0, k - 184, -42);
    Pow2Values();
  }

  /** Two reals that round to different integers have a midpoint between them. */
  lemma CrossedMidpoint(s: real, t: real) returns (h: int)
    requires RoundEven(s) != RoundEven(t)
    ensures Gap(s, h as real + 0.5) <= Gap(s, t)
    ensures s == h as real + 0.5 ==> s != t
  {
    var m, n := RoundEven(s), RoundEven(t);
    if s <= t {
      RoundEvenMonotone(s, t);
      h := m;
    } else {
      RoundEvenMonotone(t, s);
      h := m - 1;
    }
  }

  lemma MidpointRepresentable(v: real, e: int, h: int)
    requires v > 0.0 && e == Exponent(v) && Scale(v, 52 - e) == h as real + 0.5
    ensures Representable(236, v)
  {
    hide Scale;
    var n := 2 * h + 1;
    ScaleBack(v, e - 52);
    OneUp(h as real + 0.5);
    ScaleScale(v, 52 - e, 1);
    ScaleBack(v, e - 53);
    InUlpsRange(53, v);
    ScaleMonotone(1.0, 54, 236);
    ScaleNext(1.0, 53);
    ScalePositive(v, 52 - e);
    assert Decomposes(236, v, n, e - 53);
  }

  lemma QuotientExponent(w: nat, v: real)
    requires 0 < w && w as real < Pow2(236) && v == w as real / 1_000_000_000_000_000_000.0
    ensures v > 0.0 && Exponent(v) <= 176
  {
    hide Scale;
    var e := Exponent(v);
    Pow2Values();
    ScaleWei(1.0, e);
    ScaleLinear(Pow2(59), 1_000_000_000_000_000_000.0, e);
    ScaleScale(1.0, 59, e);
    Pow2Strict(59 + e, 236);
  }

  /** Rounding the quotient to 236 bits first cannot change its rounding to 53 bits. */
  lemma DoubleRounding(w: nat, v: real)
    requires 0 < w && w as real < Pow2(236) && v == w as real / 1_000_000_000_000_000_000.0
    ensures Nearest(53, Nearest(236, v)) == Nearest(53, v)
  {
    hide Scale, RoundEven;
    QuotientExponent(w, v);
    var e, u := Exponent(v), Nearest(236, v);
    var s, t := Scale(v, 52 - e), Scale(u, 52 - e);
    NearestError(236, v);
    ScaleGap(v, u, 52 - e);
    ScaleLinear(Gap(v, u), Pow2(e - 236), 52 - e);
    ScaleScale(1.0, e - 236, 52 - e);
    if RoundEven(s) != RoundEven(t) {
      var h := CrossedMidpoint(s, t);
      MidpointGap(w, v, e, h);
      MidpointRepresentable(v, e, h);
      NearestFixed(236, v);
      assert false;
    }
    NearestRange(236, v);
    if u < Pow2(e + 1) {
      ExponentUnique(u, e);
    } else {
      PowerRepresentable(53, e + 1);
      ScalePositive(1.0, e + 1);
      NearestFixed(53, u);
      ScaleScale(1.0, e + 1, 52 - e);
      Pow2Whole(53);
      RoundBetween(t, Pow2(53), Pow2(53));
      ScaleScale(1.0, 53, e - 52);
    }
  }

  /** ToEther is the correctly rounded quotient: the binary64 value nearest to w / 10^18. */
  lemma ToEtherCorrectlyRounded(w: nat)
    requires w as real < Pow2(236)
    ensures ToEther(w) == Nearest(53, w as real / 1_000_000_000_000_000_000.0)
  {
    hide Scale, Nearest;
    AtZero(w as real);
    ScalePositive(1.0, 236);
    assert Decomposes(236, w as real, w, 0);
    NearestFixed(236, w as real);
    if w > 0 {
      DoubleRounding(w, w as real / 1_000_000_000_000_000_000.0);
    } else {
      ZeroFixed();
    }
  }

  lemma ZeroFixed()
    ensures Nearest(236, 0.0) == 0.0 && Nearest(53, 0.0) == 0.0
  {}

  // ----- Exactly which wei amounts survive the round trip -----

  lemma GapWei(a: real, b: real)
    ensures Gap(1_000_000_000_000_000_000.0 * a, 1_000_000_000_000_000_000.0 * b) == 1_000_000_000_000_000_000.0 * Gap(a, b)
  {}

  lemma TieToWei(w: int, a: real, b: real)
    requires RoundEven(a) == w && Gap(w as real, b) <= Gap(w as real, a)
    ensures RoundEven(b) == w
  {
    RoundEvenTie(a);
    RoundEvenUnique(b, w);
  }

  /**
    A wei amount survives the round trip exactly when some binary64 amount of
    ether denotes it at all; ToEther then finds such an amount.
   */
  lemma RoundTripIff(w: nat)
    requires w as real < Pow2(236)
    ensures ToWei(ToEther(w)) == w <==> exists x :: Binary64(x) && x >= 0.0 && ToWei(x) == w
  {
    hide Scale, RoundEven, Nearest, ToWei, ToEther;
    var y := ToEther(w);
    ToEtherBinary64(w);
    ToEtherError(w);
    if x :| Binary64(x) && x >= 0.0 && ToWei(x) == w {
      ToEtherCorrectlyRounded(w);
      NearestBest(53, w as real / 1_000_000_000_000_000_000.0, x);
      GapWei(w as real / 1_000_000_000_000_000_000.0, x);
      GapWei(w as real / 1_000_000_000_000_000_000.0, y);
      ToWeiRounds(x);
      ToWeiRounds(y);
      TieToWei(w, 1_000_000_000_000_000_000.0 * x, 1_000_000_000_000_000_000.0 * y);
    }
  }

  /**
    Seen from the amount alone: it survives exactly when the nearest multiple of the binary64
    spacing is less than half a wei away, or just half a wei and the amount is even.
   */
  lemma RoundTripNear(w: nat)
    requires w as real < Pow2(236)
    ensures var d := Gap(w as real, 1_000_000_000_000_000_000.0 * Nearest(53, w as real / 1_000_000_000_000_000_000.0));
            ToWei(ToEther(w)) == w <==> d < 0.5 || (d == 0.5 && w % 2 == 0)
  {
    hide Scale, RoundEven, Nearest, ToWei, ToEther;
    var x := 1_000_000_000_000_000_000.0 * ToEther(w);
    ToEtherCorrectlyRounded(w);
    ToEtherBinary64(w);
    ToEtherError(w);
    ToWeiRounds(ToEther(w));
    RoundEvenTie(x);
    if Gap(w as real, x) < 0.5 || (Gap(w as real, x) == 0.5 && w % 2 == 0) {
      RoundEvenUnique(x, w);
    }
  }

  /** Distinct binary64 values at or above 2^e are at least 2^(e-52) apart. */
  lemma Spacing(x: real, y: real, e: int)
    requires Binary64(x) && Binary64(y) && x >= Pow2(e) && y >= Pow2(e)
    requires Gap(x, y) < Pow2(e - 52)
    ensures x == y
  {
    hide Scale;
    var p := Pow2(e);
    ScaleMonotone(1.0, e, e + 1);
    ExponentUnique(p, e);
    var m, i :| Decomposes(53, x, m, i);
    var n, j :| Decomposes(53, y, n, j);
    OnGrid(53, p, x, m, i);
    OnGrid(53, p, y, n, j);
    ScaleGap(x, y, 52 - e);
    ScaleLinear(Gap(x, y), Pow2(e - 52), 52 - e);
    ScaleBack(1.0, 52 - e);
    WholeGap(Scale(x, 52 - e), Scale(y, 52 - e));
    ScaleBack(x, e - 52);
    ScaleBack(y, e - 52);
  }

  /** One wei above one ether is lost: the round trip is not the identity. */
  lemma RoundTripExample()
    ensures ToEther(1_000_000_000_000_000_001) == 1.0
    ensures ToWei(ToEther(1_000_000_000_000_000_001)) == 1_000_000_000_000_000_000
  {
    hide Scale, RoundEven, Nearest, ToEther, ToWei;
    var w := 1_000_000_000_000_000_001;
    var x := w as real;
    SmallPowers();
    Pow2Values();
    PowerRepresentable(53, 0);
    ToEtherMonotone(1_000_000_000_000_000_000, w);
    OneEther();
    ToEtherError(w);
    ToEtherBinary64(w);
    // w < 2^60, so the error is below 2^7 + 1 wei, less than the spacing of 2^-52 ether.
    NextPower(59);
    ScaleLinear(x, Pow2(60), -53);
    ScaleScale(1.0, 60, -53);
    ScaleLinear(x, Pow2(60), -233);
    ScaleScale(1.0, 60, -233);
    ScaleMonotone(1.0, -173, 0);
    Seventh();
    NextPower(-53);
    Spacing(1.0, ToEther(w), 0);
    ToWeiRounds(1.0);
    RoundEvenUnique(1_000_000_000_000_000_000.0, 1_000_000_000_000_000_000);
  }

  lemma Seventh()
    ensures Pow2(7) == 128.0
  {
    assert Pow2(4) == 16.0;
  }

  lemma OneEther()
    ensures ToEther(1_000_000_000_000_000_000) == 1.0
  {
    hide Scale, RoundEven, Nearest, ToEther;
    SmallPowers();
    Pow2Values();
    ScaleMonotone(1.0, 59, 236);
    NextPower(59);
    ScaleMonotone(1.0, 60, 236);
    ToEtherCorrectlyRounded(1_000_000_000_000_000_000);
    PowerRepresentable(53, 0);
    NearestFixed(53, 1.0);
  }

  /** The other direction: from 2^-7 ether up, ether to wei and back is the identity. */
  lemma FloatRoundTrip(x: real)
    requires Binary64(x) && x >= Pow2(-7)
    requires ToWei(x) as real < Pow2(236)
    ensures ToWei(x) >= 0 && ToEther(ToWei(x)) == x
  {
    hide Scale, RoundEven, Nearest, ToEther, ToWei;
    ScalePositive(1.0, -7);
    PowerRepresentable(53, -7);
    ToWeiRounds(x);
    ToWeiMonotone(Pow2(-7), x);
    Smallest();
    var w := ToWei(x);
    var v := w as real / 1_000_000_000_000_000_000.0;
    var y := ToEther(w);
    ToEtherCorrectlyRounded(w);
    ToEtherBinary64(w);
    NearestFixed(53, Pow2(-7));
    NearestMonotone(53, Pow2(-7), v);
    NearestBest(53, v, x);
    Spacing(x, y, -7);
  }

  lemma Smallest()
    ensures ToWei(Pow2(-7)) == 7_812_500_000_000_000
    ensures 128.0 * Pow2(-7) == 1.0
    ensures Pow2(-59) > 0.000_000_000_000_000_001
  {
    hide RoundEven, ToWei;
    assert Pow2(-4) == 0.0625;
    PowerRepresentable(53, -7);
    ToWeiRounds(Pow2(-7));
    RoundEvenUnique(7_812_500_000_000_000.0, 7_812_500_000_000_000);
    Pow2Values();
    ScaleSixth();
  }

  lemma ScaleSixth()
    ensures 64.0 * Pow2(-59) == Pow2(-53)
  {
    NextPower(-59); NextPower(-58); NextPower(-57); NextPower(-56); NextPower(-55); NextPower(-54);
  }

  // ----- Where the round trip stops being the identity -----

  /** 2^-7 ether: above it neighbouring binary64 amounts are more than one wei apart. */
  const LAST_EXACT: nat := 7_812_500_000_000_000

  lemma SpacingInWei()
    ensures 128.0 * Pow2(-7) == 1.0 && 64.0 * Pow2(-59) == Pow2(-53) && 9007199254740992.0 * Pow2(-53) == 1.0
    ensures Pow2(-60) == Pow2(-59) / 2.0 && Pow2(-61) == Pow2(-59) / 4.0
  {
    Smallest();
    Pow2Values();
    ScaleSixth();
    NextPower(-60);
    NextPower(-61);
  }

  /** Below 2^-7 ether a rounding error is less than half a wei. */
  lemma SmallError(v: real, y: real)
    requires 0.0 < v < Pow2(-7) && y == Nearest(53, v)
    ensures Gap(1_000_000_000_000_000_000.0 * v, 1_000_000_000_000_000_000.0 * y) < 0.5
  {
    hide Scale, Nearest;
    NearestError(53, v);
    var e := Exponent(v);
    Pow2Strict(e, -7);
    ScaleMonotone(1.0, e - 53, -61);
    SpacingInWei();
    GapWei(v, y);
  }

  /** Up to 2^-7 ether nothing is lost. */
  lemma RoundTripExact(w: nat)
    requires w <= LAST_EXACT
    ensures ToWei(ToEther(w)) == w
  {
    hide Scale, RoundEven, Nearest, ToEther, ToWei;
    var v := w as real / 1_000_000_000_000_000_000.0;
    var y := ToEther(w);
    Below236(w);
    ToEtherCorrectlyRounded(w);
    ToEtherBinary64(w);
    SpacingInWei();
    if w == 0 {
      ZeroFixed();
    } else if w == LAST_EXACT {
      PowerRepresentable(53, -7);
      NearestFixed(53, v);
    } else {
      SmallError(v, y);
    }
    assert Gap(w as real, 1_000_000_000_000_000_000.0 * y) < 0.5;
    ToEtherError(w);
    ToWeiRounds(y);
    RoundEvenUnique(1_000_000_000_000_000_000.0 * y, w);
  }

  lemma Below236(w: nat)
    requires w <= LAST_EXACT + 1
    ensures w as real < Pow2(236)
  {
    Pow2Values();
    ScaleMonotone(1.0, 59, 236);
  }

  /** The binary64 value after 2^-7. */
  lemma NextValue()
    ensures Binary64(Pow2(-7) + Pow2(-59))
  {
    hide Scale;
    Pow2Values();
    NextPower(52);
    ScaleScale(1.0, 52, -59);
    ScaleSum(Pow2(52), 1.0, -59);
    assert Decomposes(53, Pow2(-7) + Pow2(-59), 4503599627370497, -59);
  }

  /** The next wei is nearer to the next binary64 amount, which is printed as one wei more. */
  lemma LostAbove()
    ensures ToWei(ToEther(LAST_EXACT + 1)) == LAST_EXACT + 2
  {
    hide Scale, RoundEven, Nearest, ToEther, ToWei;
    var w := LAST_EXACT + 1;
    var v, y, g := w as real / 1_000_000_000_000_000_000.0, ToEther(w), Pow2(-7) + Pow2(-59);
    SpacingInWei();
    Below236(w);
    ToEtherCorrectlyRounded(w);
    ToEtherBinary64(w);
    NextValue();
    NearestBest(53, v, g);
    PowerRepresentable(53, -7);
    NearestFixed(53, Pow2(-7));
    NearestMonotone(53, Pow2(-7), v);
    Spacing(y, g, -7);
    ToWeiRounds(g);
    RoundEvenUnique(1_000_000_000_000_000_000.0 * g, LAST_EXACT + 2);
  }

  /** All amounts up to a limit survive the round trip exactly when the limit is at most 2^-7 ether. */
  lemma RoundTripUpTo(limit: nat)
    ensures (forall w: nat :: w <= limit ==> ToWei(ToEther(w)) == w) <==> limit <= LAST_EXACT
  {
    hide ToEther, ToWei;
    if limit <= LAST_EXACT {
      forall w: nat | w <= limit ensures ToWei(ToEther(w)) == w { RoundTripExact(w); }
    } else {
      LostAbove();
    }
  }
}
