/**
  The amount of one drip: Faucet.calMetisDrip (internal/services/faucet.go) on
  binary64 values, with the infinities and NaN that a zero price produces.
 */
module Rebate {
  import opened Rounding
  import opened Ether

  datatype Float = Finite(v: real) | PosInf | NegInf | NaN

  /** Rounding to binary64, symmetric around zero. */
  function Round64(x: real): real { if x >= 0.0 then Nearest(53, x) else -Nearest(53, -x) }

  /** The binary64 product of two finite values. */
  function Product64(a: real, b: real): real { Round64(a * b) }

  /** Rounding to binary64 is off by at most a relative 2^-53. */
  lemma Round64Error(x: real)
    ensures Gap(x, Round64(x)) <= Scale(Magnitude(x), -53)
  {
    hide Scale, Nearest;
    NearestError(53, Magnitude(x));
  }

  lemma Round64Monotone(x: real, y: real)
    requires 0.0 <= x <= y
    ensures 0.0 <= Round64(x) <= Round64(y)
  {
    hide Scale, Nearest;
    NearestMonotone(53, x, y);
  }

  /** Whole numbers below 2^53 are exact. */
  lemma Round64Whole(n: nat)
    requires n < 9007199254740992
    ensures Round64(n as real) == n as real
  {
    hide Scale, Nearest;
    Pow2Values();
    AtZero(n as real);
    assert Decomposes(53, n as real, n, 0);
    NearestFixed(53, n as real);
  }

  function Div(a: real, b: real): Float {
    if b != 0.0 then Finite(Round64(a / b))
    else if a > 0.0 then PosInf else if a < 0.0 then NegInf else NaN
  }

  /** a * b for a finite b. */
  function Mul(a: Float, b: real): Float {
    match a
    case Finite(v) => Finite(Product64(v, b))
    case PosInf => if b > 0.0 then PosInf else if b < 0.0 then NegInf else NaN
    case NegInf => if b > 0.0 then NegInf else if b < 0.0 then PosInf else NaN
    case NaN => NaN
  }

  predicate Exceeds(a: Float, limit: real) {
    a.PosInf? || (a.Finite? && a.v > limit)
  }

  datatype Amount = Wei(wei: int) | Failed | Panic

  /** Price of the L2 token, in ether and in US dollars. */
  datatype Price = Price(inEther: real, inUSD: real)

  /** The gas-fee amount in ether: the gas spent, capped at maxUSD. */
  function GasFeeEther(gasCost: real, price: Price, maxUSD: real): Float {
    var amount := Div(gasCost, price.inEther);
    if Exceeds(Mul(amount, price.inUSD), maxUSD) then Div(maxUSD, price.inUSD) else amount
  }

  /** big.NewFloat panics on NaN, and an infinite big.Float has no integer part. */
  function ToWeiChecked(x: Float): Amount {
    if x.Finite? then Wei(ToWei(x.v)) else Panic
  }

  /**
    The conversion to wei fails exactly on a zero price in ether, unless the infinite amount is
    capped after all, or on a zero dollar price under a negative cap.
   */
  lemma PanicsIff(gasCost: real, price: Price, maxUSD: real)
    ensures ToWeiChecked(GasFeeEther(gasCost, price, maxUSD)).Panic?
            <==> if price.inEther == 0.0
                 then gasCost == 0.0 || price.inUSD == 0.0 || (gasCost > 0.0) != (price.inUSD > 0.0)
                 else price.inUSD == 0.0 && maxUSD < 0.0
  {
    hide Nearest, ToWei;
    if price.inEther != 0.0 {
      var v := Round64(gasCost / price.inEther);
      assert Div(gasCost, price.inEther) == Finite(v);
      if price.inUSD == 0.0 {
        assert v * price.inUSD == 0.0;
        ZeroFixed();
      }
    }
  }

  lemma {:induction false} ScaleProduct(x: real, y: real, k: int)
    ensures Scale(x * y, k) == Scale(x, k) * y
    decreases if k < 0 then -k else k
  {
    if k > 0 {
      ScaleProduct(x, y, k - 1);
    } else if k < 0 {
      ScaleProduct(x, y, k + 1);
    }
  }

  /** If x rounds to at most max, x is at most max * (1 + 2^-52). */
  lemma RoundedBelow(x: real, max: real)
    requires x >= 0.0 && max >= 0.0 && Nearest(53, x) <= max
    ensures x <= max + Scale(max, -52)
  {
    hide Scale, Nearest;
    NearestError(53, x);
    var b := max + Scale(max, -52);
    if x > b {
      ScaleSum(max, Scale(max, -52), -53);
      ScaleScale(max, -52, -53);
      ScaleLinear(x, b, -53);
      SmallerScale(x - b);
      ScaleNext(max, -53);
      ScalePositive(max, -53);
      if max > 0.0 { ScaleMonotone(max, -105, -53); } else { ScaleZero(-105); ScaleZero(-53); }
      assert false;
    }
  }

  lemma SmallerScale(d: real)
    requires d > 0.0
    ensures Scale(d, -53) < d
  {
    ScaleMonotone(d, -53, 0);
  }

  lemma CappedAmount(max: real, usd: real)
    requires max >= 0.0 && usd > 0.0
    ensures max / usd >= 0.0
    ensures Nearest(53, max / usd) * usd <= max + Scale(max, -52)
  {
    hide Scale, Nearest;
    var q := max / usd;
    assert q * usd == max;
    NearestError(53, q);
    ScaleProduct(q, usd, -53);
    ScaleNext(max, -53);
    ScalePositive(max, -53);
    ProductMonotone(Nearest(53, q), q + Scale(q, -53), usd);
  }

  lemma ProductMonotone(a: real, b: real, c: real)
    requires a <= b && c > 0.0
    ensures a * c <= b * c
  {}

  /**
    The cap on a gas-fee rebate survives every rounding: the paid wei are worth
    at most maxUSD * (1 + 2^-52), plus half a wei, whichever branch was taken.
   */
  lemma CapSurvivesRounding(gasCost: real, price: Price, maxUSD: real)
    requires gasCost >= 0.0 && price.inEther > 0.0 && price.inUSD > 0.0 && maxUSD >= 0.0
    ensures var r := ToWeiChecked(GasFeeEther(gasCost, price, maxUSD));
            r.Wei? && 0 <= r.wei &&
            r.wei as real * price.inUSD
              <= 1_000_000_000_000_000_000.0 * (maxUSD + Scale(maxUSD, -52)) + price.inUSD / 2.0
  {
    hide Scale, Nearest, ToWei, RoundEven;
    var usd := price.inUSD;
    var q := gasCost / price.inEther;
    QuotientSign(gasCost, price.inEther);
    var a := Nearest(53, q);
    ProductSign(a, usd);
    CappedAmount(maxUSD, usd);
    var paid := if Nearest(53, a * usd) > maxUSD then Nearest(53, maxUSD / usd) else a;
    if Nearest(53, a * usd) <= maxUSD { RoundedBelow(a * usd, maxUSD); }
    FloatOps(gasCost, price.inEther, q);
    FloatOps(maxUSD, usd, maxUSD / usd);
    FloatProduct(a, usd, a * usd);
    assert GasFeeEther(gasCost, price, maxUSD) == Finite(paid);
    NearestRepresentable(53, q);
    NearestRepresentable(53, maxUSD / usd);
    ToWeiRounds(paid);
    WorthOf(ToWei(paid), paid, usd, maxUSD + Scale(maxUSD, -52));
  }

  lemma FloatOps(a: real, b: real, q: real)
    requires b > 0.0 && q == a / b && q >= 0.0
    ensures Div(a, b) == Finite(Nearest(53, q))
  {
    hide Nearest;
  }

  lemma FloatProduct(a: real, b: real, z: real)
    requires b >= 0.0 && z == a * b && z >= 0.0
    ensures Mul(Finite(a), b) == Finite(Nearest(53, z))
  {
    hide Nearest;
  }

  lemma QuotientSign(a: real, b: real)
    requires a >= 0.0 && b > 0.0
    ensures a / b >= 0.0
  {}

  lemma ProductSign(a: real, b: real)
    requires a >= 0.0 && b > 0.0
    ensures a * b >= 0.0
  {}

  lemma WorthOf(wei: int, paid: real, usd: real, bound: real)
    requires paid >= 0.0 && usd > 0.0 && paid * usd <= bound
    requires wei == RoundEven(paid * 1_000_000_000_000_000_000.0)
    ensures wei >= 0
    ensures wei as real * usd <= 1_000_000_000_000_000_000.0 * bound + usd / 2.0
  {
    hide RoundEven;
    RoundEvenMonotone(0.0, paid * 1_000_000_000_000_000_000.0);
    RoundEvenUnique(0.0, 0);
    ProductMonotone(wei as real, paid * 1_000_000_000_000_000_000.0 + 0.5, usd);
    Distribute(paid, usd);
  }

  lemma Distribute(paid: real, usd: real)
    ensures (paid * 1_000_000_000_000_000_000.0 + 0.5) * usd == 1_000_000_000_000_000_000.0 * (paid * usd) + usd / 2.0
  {}

  // ----- The amount is the lesser of gas and cap -----

  lemma Fraction53(x: real)
    ensures 9007199254740992.0 * Scale(x, -53) == x
    ensures Scale(x, -52) == 2.0 * Scale(x, -53) && Scale(x, -51) == 4.0 * Scale(x, -53)
  {
    hide Scale;
    AtOne(x);
    ScaleProduct(1.0, x, -53);
    Pow2Values();
    TimesOne(Pow2(-53), x);
    ScaleNext(x, -53);
    ScaleNext(x, -52);
  }

  lemma AtOne(x: real)
    ensures 1.0 * x == x
  {}

  lemma TimesOne(e: real, x: real)
    requires 9007199254740992.0 * e == 1.0
    ensures 9007199254740992.0 * (e * x) == x
  {
    assert 9007199254740992.0 * (e * x) == (9007199254740992.0 * e) * x;
  }

  function Lesser(a: real, b: real): real { if a <= b then a else b }

  /** Rounding errors in the comparison only matter where both amounts nearly agree. */
  lemma LesserAmount(gas: real, cap: real, a: real, b: real, capped: bool)
    requires gas >= 0.0 && cap >= 0.0
    requires Gap(gas, a) <= Scale(gas, -53) && Gap(cap, b) <= Scale(cap, -53)
    requires if capped then a + Scale(a, -53) >= cap else a <= cap + Scale(cap, -52)
    ensures Gap(if capped then b else a, Lesser(gas, cap)) <= Scale(Lesser(gas, cap), -51)
  {
    hide Scale;
    Fraction53(gas);
    Fraction53(cap);
    Fraction53(a);
  }

  lemma DivideBound(x: real, bound: real, c: real)
    requires c > 0.0 && x * c <= bound * c
    ensures x <= bound
  {
    assert (x - bound) * c == x * c - bound * c;
  }

  /** What the comparison in dollars says about the amounts in ether. */
  lemma Compared(a: real, usd: real, max: real, cap: real)
    requires a >= 0.0 && usd > 0.0 && max >= 0.0 && cap * usd == max
    ensures Nearest(53, a * usd) <= max ==> a <= cap + Scale(cap, -52)
    ensures Nearest(53, a * usd) > max ==> cap <= a + Scale(a, -53)
  {
    hide Scale, Nearest;
    ProductSign(a, usd);
    var z := a * usd;
    if Nearest(53, z) <= max {
      RoundedBelow(z, max);
      ScaleProduct(cap, usd, -52);
      DivideBound(a, cap + Scale(cap, -52), usd);
    } else {
      NearestError(53, z);
      ScalePositive(z, -53);
      assert max <= z + Scale(z, -53);
      ScaleProduct(a, usd, -53);
      Sum(a, Scale(a, -53), usd);
      DivideBound(cap, a + Scale(a, -53), usd);
    }
  }

  lemma Sum(a: real, b: real, c: real)
    ensures (a + b) * c == a * c + b * c
  {}

  lemma RoundedWei(paid: real, wei: int, lesser: real)
    requires wei == RoundEven(paid * 1_000_000_000_000_000_000.0)
    requires Gap(paid, lesser) <= Scale(lesser, -51)
    ensures Gap(wei as real, 1_000_000_000_000_000_000.0 * lesser)
            <= 1_000_000_000_000_000_000.0 * Scale(lesser, -51) + 0.5
  {
    hide Scale;
  }

  /**
    The gas rebate is the lesser of the gas spent and the cap, both in the L2 coin, with a
    relative error of at most 2^-51 and half a wei.
   */
  lemma RebateIsLesser(gasCost: real, price: Price, maxUSD: real)
    requires gasCost >= 0.0 && price.inEther > 0.0 && price.inUSD > 0.0 && maxUSD >= 0.0
    ensures var r := ToWeiChecked(GasFeeEther(gasCost, price, maxUSD));
            var lesser := Lesser(gasCost / price.inEther, maxUSD / price.inUSD);
            r.Wei? && Gap(r.wei as real, 1_000_000_000_000_000_000.0 * lesser)
                      <= 1_000_000_000_000_000_000.0 * Scale(lesser, -51) + 0.5
  {
    hide Scale, Nearest, ToWei, RoundEven, Lesser;
    var usd := price.inUSD;
    var gas, cap := gasCost / price.inEther, maxUSD / usd;
    QuotientSign(gasCost, price.inEther);
    QuotientSign(maxUSD, usd);
    var a, b := Nearest(53, gas), Nearest(53, cap);
    ProductSign(a, usd);
    FloatOps(gasCost, price.inEther, gas);
    FloatOps(maxUSD, usd, cap);
    FloatProduct(a, usd, a * usd);
    var capped := Nearest(53, a * usd) > maxUSD;
    var paid := if capped then b else a;
    assert GasFeeEther(gasCost, price, maxUSD) == Finite(paid);
    NearestError(53, gas);
    NearestError(53, cap);
    assert cap * usd == maxUSD;
    Compared(a, usd, maxUSD, cap);
    LesserAmount(gas, cap, a, b, capped);
    NearestRepresentable(53, gas);
    NearestRepresentable(53, cap);
    ToWeiRounds(paid);
    RoundedWei(paid, ToWei(paid), Lesser(gas, cap));
  }

  /** The cap replaces the quotient exactly when the rounded dollar value is above it, not when it is equal. */
  lemma CapExactly(gasCost: real, price: Price, maxUSD: real)
    requires price.inEther != 0.0 && price.inUSD != 0.0
    ensures var gas, cap := Round64(gasCost / price.inEther), Round64(maxUSD / price.inUSD);
            && (Product64(gas, price.inUSD) <= maxUSD ==> GasFeeEther(gasCost, price, maxUSD) == Finite(gas))
            && (Product64(gas, price.inUSD) > maxUSD ==> GasFeeEther(gasCost, price, maxUSD) == Finite(cap))
  {
    hide Round64;
  }
}
