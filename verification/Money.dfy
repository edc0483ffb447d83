/** The fee split, the schema's money checks and base units (src/a2a/fees.js, src/a2a/schemas/selectedOffer.js,
    src/sui/stablecoin.js). Human amounts are exact reals. */
module Money {
  import opened Units
  import opened Rounding

  datatype FeeSplit = FeeSplit(planPrice: real, platformFee: real, providerAmount: real, amount: real)

  /** The fee on a plan price; the schema expects the same rounding. */
  function Fee(planPrice: real, percent: real): real {
    Round2(planPrice * (percent / 100.0))
  }

  function ComputeFeeSplit(planPrice: real, percent: real): FeeSplit {
    var fee := Fee(planPrice, percent);
    FeeSplit(Round2(planPrice), fee, Round2(planPrice), Round2(planPrice + fee))
  }

  /** The tolerance of the schema. */
  predicate SameMoney(a: real, b: real) {
    -0.005 < a - b < 0.005
  }

  /** The four money checks, for the price of the selected provider. */
  predicate MoneyChecks(s: FeeSplit, percent: real, price: real) {
    && SameMoney(s.planPrice, price)
    && SameMoney(s.platformFee, Fee(s.planPrice, percent))
    && SameMoney(s.providerAmount, s.planPrice)
    && SameMoney(s.amount, s.planPrice + s.platformFee)
  }

  function Cents(c: int): real {
    c as real / 100.0
  }

  /** The fee on a price of c cents, in cents. */
  function FeeCents(c: int, percent: real): int {
    Round(Cents(c) * (percent / 100.0) * 100.0)
  }

  lemma Round2OfCents(c: int)
    ensures Round2(Cents(c)) == Cents(c)
  {
    assert Cents(c) * 100.0 == c as real;
    RoundsTo(c as real, c);
  }

  /** On the cent grid the split is exact: the customer pays price plus fee, to the cent, and the schema agrees. */
  lemma SplitOfCents(c: int, percent: real)
    ensures var s := ComputeFeeSplit(Cents(c), percent);
            var fee := FeeCents(c, percent);
            && s == FeeSplit(Cents(c), Cents(fee), Cents(c), Cents(c + fee))
            && s.amount == s.providerAmount + s.platformFee
            && MoneyChecks(s, percent, Cents(c))
  {
    var fee := FeeCents(c, percent);
    Round2OfCents(c);
    Round2OfCents(c + fee);
    assert Cents(c) + Cents(fee) == Cents(c + fee);
  }

  /** The fee on any price is the whole number of cents next to that part of it, half a cent counting upwards. */
  lemma FeeIsTheNearestCent(planPrice: real, percent: real)
    ensures var cents := ComputeFeeSplit(planPrice, percent).platformFee * 100.0;
            cents.Floor as real == cents && cents - 0.5 <= planPrice * percent < cents + 0.5
  {
    var part := planPrice * (percent / 100.0);
    assert part * 100.0 == planPrice * percent;
    assert Round2(part) * 100.0 == Round(part * 100.0) as real;
  }

  /** The fee comes to at least a cent exactly when price times percentage reaches half a cent. */
  lemma FeeIsPositiveIff(c: nat, percent: real)
    requires percent >= 0.0
    ensures FeeCents(c, percent) >= 0
    ensures FeeCents(c, percent) >= 1 <==> c as real * percent >= 50.0
  {
    var x, p := c as real, percent / 100.0;
    assert Cents(c) * p * 100.0 == x * p;
    assert x * percent == x * p * 100.0;
    assert x * percent >= 0.0;
    FloorOf(Cents(c) * p * 100.0 + 0.5, 1);
    FloorOf(Cents(c) * p * 100.0 + 0.5, 0);
  }

  // ---- The tolerance ------------------------------------------------------------------------

  /** Between amounts on the cent grid the tolerance is equality. */
  lemma ToleranceIsEqualityOnCents(a: int, b: int)
    ensures SameMoney(Cents(a), Cents(b)) <==> a == b
  {
    assert Cents(a) - Cents(b) == (a - b) as real / 100.0;
  }

  /** An agreement on the cent grid passes the checks exactly when it is the computed split. */
  lemma CheckedCentsAreExact(plan: int, fee: int, provider: int, amount: int, percent: real, price: int)
    ensures MoneyChecks(FeeSplit(Cents(plan), Cents(fee), Cents(provider), Cents(amount)), percent, Cents(price))
       <==> plan == price && fee == FeeCents(plan, percent) && provider == plan && amount == plan + fee
  {
    ToleranceIsEqualityOnCents(plan, price);
    ToleranceIsEqualityOnCents(fee, FeeCents(plan, percent));
    ToleranceIsEqualityOnCents(provider, plan);
    assert Cents(plan) + Cents(fee) == Cents(plan + fee);
    ToleranceIsEqualityOnCents(amount, plan + fee);
  }

  /** Off the grid the split may fail its own check: in exact arithmetic a price passes exactly when rounding moves it
      by less than the tolerance, and 0.125 is moved by the whole of it. */
  lemma HalfCentPricesFail()
    ensures !MoneyChecks(ComputeFeeSplit(0.125, 5.0), 5.0, 0.125)
  {
    RoundsTo(12.5, 13);
    assert Round2(0.125) == 0.13;
  }

  /** The amount lies half way between two cents. */
  predicate HalfWay(x: real) {
    var y := x * 100.0 + 0.5;
    y == y.Floor as real
  }

  lemma PriceCheckIff(price: real, percent: real)
    ensures SameMoney(ComputeFeeSplit(price, percent).planPrice, price) <==> !HalfWay(price)
  {
    var y := price * 100.0 + 0.5;
    assert Round2(price) - price == (y.Floor as real - y + 0.5) / 100.0;
  }

  // ---- Base units ---------------------------------------------------------------------------

  function Pow10(d: nat): nat
    ensures Pow10(d) >= 1
  {
    if d == 0 then 1 else 10 * Pow10(d - 1)
  }

  const MAX_SAFE: int := 0x1F_FFFF_FFFF_FFFF

  /** The whole number next to a scaled amount; None when it is too far off or too large. */
  function Integral(scaled: real): (base: Option<nat>)
    requires scaled >= 0.0
    ensures base.Some? ==> base.value == Round(scaled) && base.value <= MAX_SAFE
    ensures base.Some? ==> -0.000001 <= scaled - base.value as real <= 0.000001
  {
    var base := Round(scaled);
    if scaled - base as real > 0.000001 || base as real - scaled > 0.000001 || base > MAX_SAFE then None
    else
      assert base >= 0 by { FloorOf(scaled + 0.5, 0); }
      Some(base)
  }

  function Times(p: nat, x: real): (r: real)
    ensures x > 0.0 ==> r >= 0.0
  {
    ScaleLe(0.0, if x > 0.0 then x else 0.0, p as real);
    p as real * x
  }

  function Scaled(human: real, decimals: nat): (scaled: real)
    ensures human > 0.0 ==> scaled >= 0.0
  {
    Times(Pow10(decimals), human)
  }

  /** `toBaseUnits`; None where it throws. */
  function ToBaseUnits(human: real, decimals: nat): (base: Option<nat>)
    ensures base.Some? ==> human > 0.0 && base.value <= MAX_SAFE
  {
    if human <= 0.0 then None else Integral(Scaled(human, decimals))
  }

  /** A positive amount below a millionth of a base unit is not refused: it converts to zero. */
  lemma DustIsZeroIff(human: real, decimals: nat)
    requires human > 0.0
    ensures ToBaseUnits(human, decimals) == Some(0) <==> Scaled(human, decimals) <= 0.000001
  {
    IntegralIsZeroIff(Scaled(human, decimals));
  }

  lemma IntegralIsZeroIff(scaled: real)
    requires scaled >= 0.0
    ensures Integral(scaled) == Some(0) <==> scaled <= 0.000001
  {
    if scaled <= 0.000001 {
      RoundsTo(scaled, 0);
    }
  }

  /** A whole number of base units converts to itself. */
  lemma WholeConverts(human: real, decimals: nat, n: nat)
    requires human > 0.0 && Scaled(human, decimals) == n as real && n <= MAX_SAFE
    ensures ToBaseUnits(human, decimals) == Some(n)
  {
    WholeIsIntegral(n);
  }

  lemma WholeIsIntegral(n: nat)
    requires n <= MAX_SAFE
    ensures Integral(n as real) == Some(n)
  {
    RoundsTo(n as real, n);
  }

  /** With two decimals or more every positive amount of cents converts, exactly. */
  lemma CentsConvert(c: nat, decimals: nat)
    requires c > 0 && decimals >= 2 && c * Pow10(decimals - 2) <= MAX_SAFE
    ensures ToBaseUnits(Cents(c), decimals) == Some(c * Pow10(decimals - 2))
  {
    HundredthsScale(c, Pow10(decimals - 2));
    TwoMore(decimals);
    assert Scaled(Cents(c), decimals) == (c * Pow10(decimals - 2)) as real;
    WholeConverts(Cents(c), decimals, c * Pow10(decimals - 2));
  }

  lemma TwoMore(decimals: nat)
    requires decimals >= 2
    ensures Pow10(decimals) == 100 * Pow10(decimals - 2)
  {
    assert Pow10(decimals) == 10 * Pow10(decimals - 1);
    assert Pow10(decimals - 1) == 10 * Pow10(decimals - 2);
  }

  lemma HundredthsScale(c: nat, p: nat)
    ensures (100 * p) as real * Cents(c) == (c * p) as real
  {
    assert (100 * p) as real == 100.0 * p as real;
    assert (c * p) as real == c as real * p as real;
    var r := p as real;
    assert (100.0 * r) * Cents(c) == c as real * r;
  }

  /** At two decimals the tolerance leaves no room: amounts that convert and are the same money are the same
      base units. */
  lemma TwoDecimalsAgree(a: real, b: real)
    requires ToBaseUnits(a, 2).Some? && ToBaseUnits(b, 2).Some? && SameMoney(a, b)
    ensures ToBaseUnits(a, 2) == ToBaseUnits(b, 2)
  {
    assert Pow10(2) == 100 by { assert Pow10(1) == 10 * Pow10(0); }
    var x, y := Round(a * 100.0), Round(b * 100.0);
    assert -0.51 < (x - y) as real < 0.51;
  }

  /** The same for a sum: at two decimals the signed total is the sum of its converted parts. */
  lemma TwoDecimalsAdd(total: real, a: real, b: real)
    requires ToBaseUnits(a, 2).Some? && ToBaseUnits(b, 2).Some? && ToBaseUnits(total, 2).Some? && SameMoney(total, a + b)
    ensures ToBaseUnits(total, 2).value == ToBaseUnits(a, 2).value + ToBaseUnits(b, 2).value
  {
    assert Pow10(2) == 100 by { assert Pow10(1) == 10 * Pow10(0); }
    var x, y, z := Round(a * 100.0), Round(b * 100.0), Round(total * 100.0);
    assert -0.51 < (z - (x + y)) as real < 0.51;
  }

  /** At six decimals it leaves room: these two amounts are the same money and different base units. */
  lemma SixDecimalsDiffer()
    ensures SameMoney(1.0, 1.001) && ToBaseUnits(1.0, 6) == Some(1000000) && ToBaseUnits(1.001, 6) == Some(1001000)
  {
    assert Pow10(6) == 1000000 by {
      assert Pow10(1) == 10 && Pow10(2) == 100 && Pow10(3) == 1000;
      assert Pow10(4) == 10000 && Pow10(5) == 100000;
    }
    RoundsTo(1000000.0, 1000000);
    RoundsTo(1001000.0, 1001000);
  }
}
