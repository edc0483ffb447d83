/** Decimal text of natural numbers, as JavaScript prints and reads integers. */
module Digits {
  import opened Units
  import opened Json

  function NatText(n: nat): (t: Text)
    ensures t != []
    ensures forall i :: 0 <= i < |t| ==> IsDigit(t[i])
  {
    if n < 10 then [ZERO + n] else NatText(n / 10) + [ZERO + n % 10]
  }

  function ReadDigits(t: Text): nat
    requires forall i :: 0 <= i < |t| ==> IsDigit(t[i])
  {
    if t == [] then 0 else
      assert IsDigit(t[|t| - 1]);
      ReadDigits(t[..|t| - 1]) * 10 + (t[|t| - 1] - ZERO)
  }

  /** `Number(token)` where the token is a run of digits. */
  function ReadNat(t: Text): Option<nat> {
    if AllDigits(t) then Some(ReadDigits(t)) else None
  }

  lemma {:induction false} NatRoundTrip(n: nat)
    ensures ReadNat(NatText(n)) == Some(n)
    ensures IntPart(NatText(n))
    ensures n > 0 ==> NatText(n)[0] != ZERO
  {
    var t := NatText(n);
    if n < 10 {
      assert t[..0] == [];
      assert ReadDigits(t[..0]) == 0;
    } else {
      NatRoundTrip(n / 10);
      assert t[..|t| - 1] == NatText(n / 10);
    }
  }

  lemma NatTextIsNumber(n: nat)
    ensures IsNumber(NatText(n))
  {
    var t := NatText(n);
    NatRoundTrip(n);
    assert t[..|t|] == t;
    assert NumberShape(t, |t|, |t|);
  }

  const MINUS: CodeUnit := 0x2D

  function IntText(n: int): Text {
    if n < 0 then [MINUS] + NatText(-n) else NatText(n)
  }

  function ReadInt(t: Text): Option<int> {
    var negative := t != [] && t[0] == MINUS;
    var magnitude := ReadNat(if negative then t[1..] else t);
    if magnitude.None? then None
    else
      var n: int := magnitude.value;
      Some(if negative then -n else n)
  }

  lemma IntRoundTrip(n: int)
    ensures ReadInt(IntText(n)) == Some(n) && IsNumber(IntText(n))
  {
    var magnitude: nat := if n < 0 then -n else n;
    NatRoundTrip(magnitude);
    NatTextIsNumber(magnitude);
    var digits := NatText(magnitude);
    assert digits[0] != MINUS;
    if n < 0 {
      assert IntText(n)[1..] == digits;
      NumberShapeOfDigits(digits);
      assert NumberShape(IntText(n)[1..], |digits|, |digits|);
    }
  }

  lemma NumberShapeOfDigits(t: Text)
    requires IntPart(t)
    ensures NumberShape(t, |t|, |t|)
  {
    assert t[..|t|] == t;
  }

  function Zeros(n: nat): (t: Text)
    ensures |t| == n && forall i :: 0 <= i < n ==> t[i] == ZERO
  {
    seq(n, _ => ZERO)
  }

  /** `text.padStart(width, "0")` */
  function PadStart(t: Text, width: nat): (r: Text)
    ensures |r| >= |t|
  {
    if |t| >= width then t else Zeros(width - |t|) + t
  }

  lemma {:induction false} ReadLeadingZeros(k: nat, t: Text)
    requires forall i :: 0 <= i < |t| ==> IsDigit(t[i])
    ensures ReadDigits(Zeros(k) + t) == ReadDigits(t)
    decreases k + |t|
  {
    var z := Zeros(k) + t;
    if t != [] {
      assert z[..|z| - 1] == Zeros(k) + t[..|t| - 1];
      ReadLeadingZeros(k, t[..|t| - 1]);
    } else if k > 0 {
      assert z[..|z| - 1] == Zeros(k - 1) + t;
      ReadLeadingZeros(k - 1, t);
    }
  }

  /** Padding a number never makes two numbers look alike. */
  lemma PadStartInjective(m: nat, n: nat, width: nat)
    requires PadStart(NatText(m), width) == PadStart(NatText(n), width)
    ensures m == n
  {
    NatRoundTrip(m);
    NatRoundTrip(n);
    ReadLeadingZeros(if |NatText(m)| >= width then 0 else width - |NatText(m)|, NatText(m));
    ReadLeadingZeros(if |NatText(n)| >= width then 0 else width - |NatText(n)|, NatText(n));
    assert Zeros(0) + NatText(m) == NatText(m) && Zeros(0) + NatText(n) == NatText(n);
  }
}
