/** Printing base units and reading them back (`formatAmount` and `toBaseUnits` in src/sui/stablecoin.js). */
module Amounts {
  import opened Units
  import opened Digits
  import opened Money

  /** `n * 10^k` */
  function Shift(n: nat, k: nat): nat {
    if k == 0 then n else 10 * Shift(n, k - 1)
  }

  lemma {:induction false} ShiftIsTimes(n: nat, k: nat)
    ensures Shift(n, k) == n * Pow10(k)
  {
    if k > 0 {
      ShiftIsTimes(n, k - 1);
      TimesTen(n, Pow10(k - 1));
    }
  }

  lemma {:induction false} ShiftAdds(m: nat, n: nat, k: nat)
    ensures Shift(m + n, k) == Shift(m, k) + Shift(n, k)
  {
    if k > 0 {
      ShiftAdds(m, n, k - 1);
    }
  }

  lemma {:induction false} ShiftTwice(n: nat, j: nat, k: nat)
    ensures Shift(Shift(n, j), k) == Shift(n, j + k)
  {
    if k > 0 {
      ShiftTwice(n, j, k - 1);
    }
  }

  predicate AllDigit(t: Text) {
    forall i :: 0 <= i < |t| ==> IsDigit(t[i])
  }

  /** Quotient and remainder. */
  function Split(base: nat, p: nat): (r: (nat, nat))
    requires p >= 1
    ensures base == r.0 * p + r.1 && r.1 < p
  {
    (base / p, base % p)
  }

  /** `(base / 10 ** decimals).toFixed(decimals)` */
  function Fixed(base: nat, decimals: nat): Text {
    if decimals == 0 then NatText(base)
    else
      var parts := Split(base, Pow10(decimals));
      Pointed(parts.0, parts.1, decimals)
  }

  function Pointed(whole: nat, rest: nat, decimals: nat): Text {
    NatText(whole) + [DOT] + PadStart(NatText(rest), decimals)
  }

  function StripZeros(t: Text): (r: Text)
    ensures r <= t
    ensures r != [] ==> r[|r| - 1] != ZERO
    ensures forall i :: |r| <= i < |t| ==> t[i] == ZERO
  {
    if t != [] && t[|t| - 1] == ZERO then StripZeros(t[..|t| - 1]) else t
  }

  function StripPoint(t: Text): Text {
    if t != [] && t[|t| - 1] == DOT then t[..|t| - 1] else t
  }

  function FormatAmount(base: nat, decimals: nat): Text {
    Tidy(Fixed(base, decimals))
  }

  function Tidy(fixed: Text): Text {
    if DOT in fixed then StripPoint(StripZeros(fixed)) else fixed
  }

  /** A decimal numeral: digits, or digits, a point and digits. Its value is `digits / 10^places`. */
  datatype Decimal = Decimal(digits: nat, places: nat)

  function PointAt(t: Text): (i: nat)
    ensures i <= |t| && (i < |t| ==> t[i] == DOT) && forall j :: 0 <= j < i ==> t[j] != DOT
  {
    if t == [] || t[0] == DOT then 0 else 1 + PointAt(t[1..])
  }

  /** `Number(text)` on such a numeral. */
  function ReadDecimal(t: Text): Option<Decimal> {
    var i := PointAt(t);
    if i == |t| then (if AllDigit(t) && t != [] then Some(Decimal(ReadDigits(t), 0)) else None)
    else FromHalves(t[..i], t[i + 1..])
  }

  function FromHalves(w: Text, fraction: Text): Option<Decimal> {
    if AllDigit(w) && w != [] && AllDigit(fraction)
    then Some(Decimal(Shift(ReadDigits(w), |fraction|) + ReadDigits(fraction), |fraction|)) else None
  }

  function Quotient(n: nat, p: nat): real
    requires p > 0
  {
    n as real / p as real
  }

  function ValueOf(d: Decimal): real {
    Quotient(d.digits, Pow10(d.places))
  }

  /** The value in units of `10^-decimals`. */
  function Lifted(d: Decimal, decimals: nat): nat
    requires d.places <= decimals
  {
    Shift(d.digits, decimals - d.places)
  }

  // ---- The shape of the printed text ----------------------------------------------------------

  lemma DigitIsNoPoint(t: Text)
    requires AllDigit(t)
    ensures DOT !in t
  {}

  lemma PaddedDigits(n: nat, width: nat)
    ensures AllDigit(PadStart(NatText(n), width)) && ReadDigits(PadStart(NatText(n), width)) == n
  {
    var t := NatText(n);
    NatRoundTrip(n);
    assert AllDigit(t) && ReadDigits(t) == n;
    if |t| < width {
      ReadLeadingZeros(width - |t|, t);
    }
  }

  lemma {:induction false} NatTextLength(n: nat, width: nat)
    requires n < Pow10(width) && width > 0
    ensures |NatText(n)| <= width
  {
    if n >= 10 {
      assert Pow10(width) == 10 * Pow10(width - 1) && Pow10(0) == 1;
      NatTextLength(n / 10, width - 1);
    }
  }

  lemma StripZerosStops(a: Text, f: Text)
    ensures StripZeros(a + [DOT] + f) == a + [DOT] + StripZeros(f)
  {
    var t := a + [DOT] + f;
    if f == [] {
      assert t == a + [DOT];
    } else if f[|f| - 1] == ZERO {
      assert t[..|t| - 1] == a + [DOT] + f[..|f| - 1];
      StripZerosStops(a, f[..|f| - 1]);
    }
  }

  lemma TidyPointed(w: Text, padded: Text)
    ensures Tidy(w + [DOT] + padded) == StripPoint(w + [DOT] + StripZeros(padded))
  {
    assert (w + [DOT] + padded)[|w|] == DOT;
    StripZerosStops(w, padded);
  }

  lemma PointIsStripped(w: Text)
    ensures StripPoint(w + [DOT] + []) == w
  {
    assert w + [DOT] + [] == w + [DOT] && (w + [DOT])[..|w|] == w;
  }

  lemma PointStays(w: Text, fraction: Text)
    requires fraction != [] && fraction[|fraction| - 1] != DOT
    ensures StripPoint(w + [DOT] + fraction) == w + [DOT] + fraction
  {
    var t := w + [DOT] + fraction;
    assert t[|t| - 1] == fraction[|fraction| - 1];
  }

  lemma StrippedDigits(f: Text)
    requires AllDigit(f)
    ensures AllDigit(StripZeros(f))
  {}

  lemma LastIsDigit(f: Text)
    requires AllDigit(f) && f != []
    ensures f[|f| - 1] != DOT
  {}

  /** The parts of the printed amount: the whole part, and the fraction without its trailing zeros. */
  lemma TidyParts(whole: nat, rest: nat, decimals: nat)
    ensures var fraction := StripZeros(PadStart(NatText(rest), decimals));
            Tidy(Pointed(whole, rest, decimals)) == if fraction == [] then NatText(whole) else NatText(whole) + [DOT] + fraction
  {
    var w, padded := NatText(whole), PadStart(NatText(rest), decimals);
    var fraction := StripZeros(padded);
    TidyPointed(w, padded);
    PaddedDigits(rest, decimals);
    StrippedDigits(padded);
    if fraction == [] {
      PointIsStripped(w);
    } else {
      LastIsDigit(fraction);
      PointStays(w, fraction);
    }
  }

  lemma {:induction false} StrippedValue(f: Text)
    requires AllDigit(f)
    ensures ReadDigits(f) == Shift(ReadDigits(StripZeros(f)), |f| - |StripZeros(f)|)
  {
    if f != [] && f[|f| - 1] == ZERO {
      StrippedValue(f[..|f| - 1]);
    }
  }

  lemma TimesTen(a: nat, p: nat)
    ensures a * p * 10 == a * (10 * p)
  {}

  lemma PointAfterDigits(a: Text, b: Text)
    requires AllDigit(a)
    ensures PointAt(a + [DOT] + b) == |a|
    ensures PointAt(a) == |a|
  {
    var t := a + [DOT] + b;
    assert t[|a|] == DOT;
    assert forall i :: 0 <= i < |a| ==> t[i] == a[i] && t[i] != DOT;
  }

  lemma PowAdd(m: nat, n: nat)
    ensures Pow10(m + n) == Pow10(m) * Pow10(n)
  {
    if m > 0 {
      PowAdd(m - 1, n);
      assert Pow10(m + n) == 10 * Pow10(m + n - 1);
      TimesTen(Pow10(n), Pow10(m - 1));
    }
  }

  lemma Halves(w: Text, fraction: Text)
    ensures var t := w + [DOT] + fraction;
            t[..|w|] == w && t[|w| + 1..] == fraction && |t| == |w| + 1 + |fraction|
  {}

  lemma ReadPointed(w: Text, fraction: Text)
    requires AllDigit(w) && w != [] && AllDigit(fraction)
    ensures ReadDecimal(w + [DOT] + fraction) == FromHalves(w, fraction)
  {
    PointAfterDigits(w, fraction);
    Halves(w, fraction);
  }

  lemma ReadWhole(w: Text)
    requires AllDigit(w) && w != []
    ensures ReadDecimal(w) == Some(Decimal(ReadDigits(w), 0))
  {
    PointAfterDigits(w, []);
  }

  lemma PointedValue(whole: nat, f: nat, k: nat, rest: nat, decimals: nat)
    requires k <= decimals && rest == Shift(f, decimals - k)
    ensures Lifted(Decimal(Shift(whole, k) + f, k), decimals) == Shift(whole, decimals) + rest
  {
    ShiftAdds(Shift(whole, k), f, decimals - k);
    ShiftTwice(whole, k, decimals - k);
  }

  /** The decimal stands for this many units of `10^-decimals`. */
  predicate StandsFor(d: Option<Decimal>, decimals: nat, base: nat) {
    d.Some? && d.value.places <= decimals && Lifted(d.value, decimals) == base
  }

  lemma HalvesStandFor(whole: nat, fraction: Text, rest: nat, decimals: nat)
    requires AllDigit(fraction) && |fraction| <= decimals && rest == Shift(ReadDigits(fraction), decimals - |fraction|)
    ensures StandsFor(FromHalves(NatText(whole), fraction), decimals, Shift(whole, decimals) + rest)
  {
    NatRoundTrip(whole);
    PointedValue(whole, ReadDigits(fraction), |fraction|, rest, decimals);
  }

  lemma WholeStandsFor(whole: nat, decimals: nat)
    ensures StandsFor(ReadDecimal(NatText(whole)), decimals, Shift(whole, decimals))
  {
    NatRoundTrip(whole);
    ReadWhole(NatText(whole));
  }

  /** What the text of a whole part and a remainder reads as. */
  lemma TidyReadsBack(whole: nat, rest: nat, decimals: nat)
    requires decimals > 0 && rest < Pow10(decimals)
    ensures StandsFor(ReadDecimal(Tidy(Pointed(whole, rest, decimals))), decimals, Shift(whole, decimals) + rest)
  {
    var padded := PadStart(NatText(rest), decimals);
    var fraction := StripZeros(padded);
    TidyParts(whole, rest, decimals);
    FractionValue(rest, decimals);
    if fraction == [] {
      WholeStandsFor(whole, decimals);
    } else {
      ReadPointed(NatText(whole), fraction);
      HalvesStandFor(whole, fraction, rest, decimals);
    }
  }

  lemma FractionValue(rest: nat, decimals: nat)
    requires decimals > 0 && rest < Pow10(decimals)
    ensures var fraction := StripZeros(PadStart(NatText(rest), decimals));
            && AllDigit(fraction) && |fraction| <= decimals
            && rest == Shift(ReadDigits(fraction), decimals - |fraction|)
            && (fraction == [] ==> rest == 0)
  {
    var padded := PadStart(NatText(rest), decimals);
    PaddedDigits(rest, decimals);
    NatTextLength(rest, decimals);
    StrippedValue(padded);
    ShiftOfZero(0, decimals);
  }

  /** The printed text, read as a number and brought to the full number of decimals, is the base amount. */
  lemma ReadsBack(base: nat, decimals: nat)
    ensures StandsFor(ReadDecimal(FormatAmount(base, decimals)), decimals, base)
  {
    if decimals == 0 {
      NatRoundTrip(base);
      DigitIsNoPoint(NatText(base));
      ReadWhole(NatText(base));
    } else {
      var parts := Split(base, Pow10(decimals));
      TidyReadsBack(parts.0, parts.1, decimals);
      ShiftIsTimes(parts.0, decimals);
    }
  }

  /** Reading back the printed amount gives the same base units, at every decimals setting. */
  lemma PrintedAmountsConvertBack(base: nat, decimals: nat)
    requires 0 < base <= MAX_SAFE
    ensures ReadDecimal(FormatAmount(base, decimals)).Some?
    ensures ToBaseUnits(ValueOf(ReadDecimal(FormatAmount(base, decimals)).value), decimals) == Some(base)
  {
    ReadsBack(base, decimals);
    DecimalConverts(ReadDecimal(FormatAmount(base, decimals)).value, base, decimals);
  }

  lemma DecimalConverts(d: Decimal, base: nat, decimals: nat)
    requires 0 < base <= MAX_SAFE && d.places <= decimals && Lifted(d, decimals) == base
    ensures ToBaseUnits(ValueOf(d), decimals) == Some(base)
  {
    ScaledValue(d, decimals);
    ShiftOfZero(d.digits, decimals - d.places);
    PositiveQuotient(d.digits, Pow10(d.places));
    WholeConverts(ValueOf(d), decimals, base);
  }

  lemma PositiveQuotient(digits: nat, p: nat)
    requires p > 0 && digits > 0
    ensures Quotient(digits, p) > 0.0
  {}

  lemma {:induction false} ShiftOfZero(n: nat, k: nat)
    ensures Shift(n, k) == 0 <==> n == 0
  {
    if k > 0 {
      ShiftOfZero(n, k - 1);
    }
  }

  lemma ScaledValue(d: Decimal, decimals: nat)
    requires d.places <= decimals
    ensures Scaled(ValueOf(d), decimals) == Lifted(d, decimals) as real
  {
    ShiftIsTimes(d.digits, decimals - d.places);
    PowAdd(d.places, decimals - d.places);
    QuotientScale(d.digits, Pow10(d.places), Pow10(decimals - d.places), Pow10(decimals));
  }

  lemma QuotientScale(digits: nat, q: nat, z: nat, p: nat)
    requires q > 0 && p == q * z
    ensures Times(p, Quotient(digits, q)) == (digits * z) as real
  {
    var places, ds, r := q as real, digits as real, z as real;
    assert p as real == places * r && (digits * z) as real == ds * r;
    assert places * (ds / places) == ds;
    assert (places * r) * (ds / places) == r * (places * (ds / places));
  }

  /** Different amounts print differently. */
  lemma PrintedAmountsDiffer(a: nat, b: nat, decimals: nat)
    requires FormatAmount(a, decimals) == FormatAmount(b, decimals)
    ensures a == b
  {
    ReadsBack(a, decimals);
    ReadsBack(b, decimals);
  }

  /** No trailing point, and no trailing zero after a point. */
  lemma PrintedTidily(base: nat, decimals: nat)
    ensures var t := FormatAmount(base, decimals);
            t != [] && t[|t| - 1] != DOT && (DOT in t ==> t[|t| - 1] != ZERO)
  {
    if decimals == 0 {
      DigitIsNoPoint(NatText(base));
    } else {
      var parts := Split(base, Pow10(decimals));
      TidyParts(parts.0, parts.1, decimals);
      PaddedDigits(parts.1, decimals);
      DigitIsNoPoint(NatText(parts.0));
    }
  }
}
