/** `Buffer.from(text, "utf8")`: the bytes that are hashed and signed. */
module Utf8 {
  import opened Units

  type Byte = b: int | 0 <= b < 256

  predicate Paired(t: Text) {
    |t| > 1 && IsHigh(t[0]) && IsLow(t[1])
  }

  /** UTF-8; a lone surrogate becomes the replacement character. */
  function Encode(t: Text): seq<Byte> {
    if t == [] then []
    else if Paired(t) then Quad(t[0] - 0xD800, t[1] - 0xDC00) + Encode(t[2..])
    else Short(MendedUnit(t[0])) + Encode(t[1..])
  }

  function MendedUnit(u: CodeUnit): CodeUnit {
    if IsHigh(u) || IsLow(u) then 0xFFFD else u
  }

  /** Bytes of one unit that is no surrogate. */
  function Short(u: CodeUnit): (r: seq<Byte>)
    ensures 1 <= |r| <= 3
  {
    if u < 0x80 then [u]
    else if u < 0x800 then [0xC0 + u / 64, 0x80 + u % 64]
    else [0xE0 + u / 4096, 0x80 + u / 64 % 64, 0x80 + u % 64]
  }

  /** Bytes of the code point 0x10000 + 1024 * high + low. */
  function Quad(high: nat, low: nat): (r: seq<Byte>)
    requires high < 1024 && low < 1024
    ensures |r| == 4
  {
    var top := high + 64;
    [0xF0 + top / 256, 0x80 + top / 4 % 64, 0x80 + top % 4 * 16 + low / 64, 0x80 + low % 64]
  }

  /** Reads back what `Encode` writes; anything else ends the text. */
  function Decode(b: seq<Byte>): Text {
    if b == [] then []
    else if b[0] < 0x80 then [b[0]] + Decode(b[1..])
    else if 0xC0 <= b[0] < 0xE0 && |b| >= 2 && 0x80 <= b[1] < 0xC0 then
      [(b[0] - 0xC0) * 64 + (b[1] - 0x80)] + Decode(b[2..])
    else if 0xE0 <= b[0] < 0xF0 && |b| >= 3 && 0x80 <= b[1] < 0xC0 && 0x80 <= b[2] < 0xC0 then
      [(b[0] - 0xE0) * 4096 + (b[1] - 0x80) * 64 + (b[2] - 0x80)] + Decode(b[3..])
    else if 0xF0 <= b[0] < 0xF5 && |b| >= 4 && 0x80 <= b[1] < 0xC0 && 0x80 <= b[2] < 0xC0 && 0x80 <= b[3] < 0xC0 then
      var lead: int, second: int, third: int, last: int := b[0] - 0xF0, b[1] - 0x80, b[2] - 0x80, b[3] - 0x80;
      var top := lead * 256 + second * 4 + third / 16;
      if 64 <= top < 1088 then [0xD800 + top - 64, 0xDC00 + third % 16 * 64 + last] + Decode(b[4..]) else []
    else []
  }

  lemma DecodeShort(u: CodeUnit, rest: seq<Byte>)
    ensures Decode(Short(u) + rest) == [u] + Decode(rest)
  {
    var b := Short(u) + rest;
    assert b[|Short(u)|..] == rest;
    if u >= 0x800 {
      assert u / 64 == u / 4096 * 64 + u / 64 % 64;
    }
  }

  lemma DecodeQuad(high: nat, low: nat, rest: seq<Byte>)
    requires high < 1024 && low < 1024
    ensures Decode(Quad(high, low) + rest) == [0xD800 + high, 0xDC00 + low] + Decode(rest)
  {
    var q := Quad(high, low);
    var b := q + rest;
    assert b[4..] == rest;
    assert b[0] == q[0] && b[1] == q[1] && b[2] == q[2] && b[3] == q[3];
    var top := high + 64;
    assert top == top / 256 * 256 + top / 4 % 64 * 4 + top % 4;
    var third := top % 4 * 16 + low / 64;
    assert third / 16 == top % 4 && third % 16 == low / 64;
  }

  /** Well-formed text survives the trip through bytes. */
  lemma {:induction false} Utf8RoundTrip(t: Text)
    requires WellFormed(t)
    ensures Decode(Encode(t)) == t
  {
    if t == [] {
    } else if Paired(t) {
      Utf8RoundTrip(t[2..]);
      DecodeQuad(t[0] - 0xD800, t[1] - 0xDC00, Encode(t[2..]));
      assert t == [t[0], t[1]] + t[2..];
    } else {
      Utf8RoundTrip(t[1..]);
      DecodeShort(t[0], Encode(t[1..]));
      assert t == [t[0]] + t[1..];
    }
  }

  /** The text with every lone surrogate replaced by the replacement character. */
  function Mended(t: Text): Text {
    if t == [] then []
    else if Paired(t) then [t[0], t[1]] + Mended(t[2..])
    else [MendedUnit(t[0])] + Mended(t[1..])
  }

  /** Any text comes back from its bytes with its lone surrogates mended. */
  lemma {:induction false} BytesMend(t: Text)
    ensures Decode(Encode(t)) == Mended(t)
  {
    if t == [] {
    } else if Paired(t) {
      BytesMend(t[2..]);
      DecodeQuad(t[0] - 0xD800, t[1] - 0xDC00, Encode(t[2..]));
    } else {
      BytesMend(t[1..]);
      DecodeShort(MendedUnit(t[0]), Encode(t[1..]));
    }
  }

  /** So it comes back unchanged exactly when it is well-formed. */
  lemma {:induction false} MendedIffBroken(t: Text)
    ensures Mended(t) == t <==> WellFormed(t)
  {
    if t != [] {
      if Paired(t) {
        MendedIffBroken(t[2..]);
        assert t == [t[0], t[1]] + t[2..];
        assert Mended(t)[2..] == Mended(t[2..]);
      } else {
        MendedIffBroken(t[1..]);
        assert t == [t[0]] + t[1..];
        assert Mended(t)[0] == MendedUnit(t[0]) && Mended(t)[1..] == Mended(t[1..]);
      }
    }
  }

  /** Distinct well-formed texts have distinct bytes. */
  lemma Utf8Injective(s: Text, t: Text)
    requires WellFormed(s) && WellFormed(t) && Encode(s) == Encode(t)
    ensures s == t
  {
    Utf8RoundTrip(s);
    Utf8RoundTrip(t);
  }
}
