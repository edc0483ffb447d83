/** JSON values as the runtime prints and reads them: `JSON.stringify` without spacing
    and the grammar of RFC 8259. A number is represented by its token, because
    the shortest decimal text JavaScript prints for a number determines that number. */
module Json {
  import opened Units

  datatype Json =
    | Null
    | Bool(b: bool)
    | Num(token: Text)
    | Str(s: Text)
    | Arr(items: seq<Json>)
    | Obj(members: seq<Member>)

  datatype Member = Member(key: Text, value: Json)

  // ---- Numbers -----------------------------------------------------------------

  predicate NumberUnit(u: CodeUnit) {
    IsDigit(u) || u == 0x2B || u == 0x2D || u == DOT || u == 0x45 || u == 0x65
  }

  predicate AllDigits(t: Text) {
    t != [] && forall i :: 0 <= i < |t| ==> IsDigit(t[i])
  }

  predicate IntPart(t: Text) {
    AllDigits(t) && (|t| > 1 ==> t[0] != ZERO)
  }

  /** `-? int frac? exp?` of section 6 of RFC 8259, with the parts cut at `dot` and `exp`. */
  predicate NumberShape(t: Text, dot: nat, exp: nat) {
    && dot <= exp <= |t|
    && IntPart(t[..dot])
    && (dot < exp ==> t[dot] == DOT && AllDigits(t[dot + 1..exp]))
    && (exp < |t| ==>
          && t[exp] in {0x45, 0x65}
          && var digits := if exp + 1 < |t| && t[exp + 1] in {0x2B, 0x2D} then t[exp + 2..] else t[exp + 1..];
          AllDigits(digits))
  }

  predicate IsNumber(t: Text) {
    && (forall i :: 0 <= i < |t| ==> NumberUnit(t[i]))
    && var unsigned := if t != [] && t[0] == 0x2D then t[1..] else t;
    exists dot, exp :: 0 <= dot <= exp <= |unsigned| && NumberShape(unsigned, dot, exp)
  }

  lemma NumberIsNotEmpty(t: Text)
    requires IsNumber(t)
    ensures t != [] && (IsDigit(t[0]) || t[0] == 0x2D)
  {
    var unsigned := if t != [] && t[0] == 0x2D then t[1..] else t;
    var dot, exp :| 0 <= dot <= exp <= |unsigned| && NumberShape(unsigned, dot, exp);
    assert NumberShape(unsigned, dot, exp);
    assert IntPart(unsigned[..dot]);
    assert AllDigits(unsigned[..dot]);
    assert IsDigit(unsigned[..dot][0]);
  }

  /** Length of the longest run of number units at the front of `t`. */
  function NumberRun(t: Text): (n: nat)
    ensures n <= |t|
  {
    if t != [] && NumberUnit(t[0]) then 1 + NumberRun(t[1..]) else 0
  }

  lemma {:induction false} NumberRunStops(token: Text, rest: Text)
    requires forall i :: 0 <= i < |token| ==> NumberUnit(token[i])
    requires rest == [] || !NumberUnit(rest[0])
    ensures NumberRun(token + rest) == |token|
  {
    if token == [] {
      assert token + rest == rest;
    } else {
      assert (token + rest)[1..] == token[1..] + rest;
      NumberRunStops(token[1..], rest);
    }
  }

  // ---- Strings -----------------------------------------------------------------

  function HexDigit(n: nat): CodeUnit
    requires n < 16
  {
    if n < 10 then 0x30 + n else 0x61 + n - 10
  }

  function HexValue(u: CodeUnit): (r: Option<nat>)
    ensures r.Some? ==> r.value < 16
  {
    if IsDigit(u) then Some(u - 0x30)
    else if 0x61 <= u <= 0x66 then Some(u - 0x61 + 10)
    else if 0x41 <= u <= 0x46 then Some(u - 0x41 + 10)
    else None
  }

  /** `\uXXXX`, lower-case hex. */
  function HexEscape(u: CodeUnit): (r: Text)
    ensures |r| == 6
  {
    [BACKSLASH, 0x75, HexDigit(u / 4096), HexDigit(u / 256 % 16), HexDigit(u / 16 % 16), HexDigit(u % 16)]
  }

  /** The two-unit escapes, by the unit they stand for. */
  function ShortEscape(u: CodeUnit): (r: Option<CodeUnit>)
    ensures r.Some? ==> ShortMeaning(r.value) == Some(u)
  {
    if u == QUOTE || u == BACKSLASH then Some(u)
    else if u == 0x08 then Some(0x62)
    else if u == 0x09 then Some(0x74)
    else if u == 0x0A then Some(0x6E)
    else if u == 0x0C then Some(0x66)
    else if u == 0x0D then Some(0x72)
    else None
  }

  function ShortMeaning(u: CodeUnit): Option<CodeUnit> {
    if u == QUOTE || u == BACKSLASH || u == 0x2F then Some(u)
    else if u == 0x62 then Some(0x08)
    else if u == 0x74 then Some(0x09)
    else if u == 0x6E then Some(0x0A)
    else if u == 0x66 then Some(0x0C)
    else if u == 0x72 then Some(0x0D)
    else None
  }

  /** String body: quotes, backslashes, controls and lone surrogates are escaped. */
  function Escape(s: Text): Text {
    if s == [] then []
    else if ShortEscape(s[0]).Some? then [BACKSLASH, ShortEscape(s[0]).value] + Escape(s[1..])
    else if IsHigh(s[0]) && |s| > 1 && IsLow(s[1]) then [s[0], s[1]] + Escape(s[2..])
    else if s[0] < 0x20 || IsHigh(s[0]) || IsLow(s[0]) then HexEscape(s[0]) + Escape(s[1..])
    else [s[0]] + Escape(s[1..])
  }

  /** Reads a string body up to its closing quote; returns the string and what follows. */
  function ParseChars(t: Text): (r: Option<(Text, Text)>)
    ensures r.Some? ==> |r.value.1| < |t|
  {
    if t == [] || t[0] < 0x20 then None
    else if t[0] == QUOTE then Some(([], t[1..]))
    else if t[0] != BACKSLASH then Prepend(t[0], ParseChars(t[1..]))
    else if |t| < 2 then None
    else if t[1] == 0x75 then
      if |t| < 6 then None
      else
        var a, b, c, d := HexValue(t[2]), HexValue(t[3]), HexValue(t[4]), HexValue(t[5]);
        if a.Some? && b.Some? && c.Some? && d.Some? then
          Prepend(a.value * 4096 + b.value * 256 + c.value * 16 + d.value, ParseChars(t[6..]))
        else None
    else if ShortMeaning(t[1]).Some? then Prepend(ShortMeaning(t[1]).value, ParseChars(t[2..]))
    else None
  }

  function Prepend(u: CodeUnit, r: Option<(Text, Text)>): Option<(Text, Text)> {
    if r.Some? then Some(([u] + r.value.0, r.value.1)) else None
  }

  lemma HexDigitRoundTrip(n: nat)
    requires n < 16
    ensures HexValue(HexDigit(n)) == Some(n)
  {}

  lemma HexRecompose(u: CodeUnit)
    ensures u / 4096 < 16
    ensures u / 4096 * 4096 + u / 256 % 16 * 256 + u / 16 % 16 * 16 + u % 16 == u
  {
    assert u / 256 == u / 4096 * 16 + u / 256 % 16;
    assert u / 16 == u / 256 * 16 + u / 16 % 16;
  }

  lemma ShortStep(u: CodeUnit, t: Text)
    requires ShortEscape(u).Some?
    ensures ParseChars([BACKSLASH, ShortEscape(u).value] + t) == Prepend(u, ParseChars(t))
  {
    assert ([BACKSLASH, ShortEscape(u).value] + t)[2..] == t;
  }

  lemma HexStep(u: CodeUnit, t: Text)
    ensures ParseChars(HexEscape(u) + t) == Prepend(u, ParseChars(t))
  {
    var w := HexEscape(u) + t;
    var a, b, c, d := u / 4096, u / 256 % 16, u / 16 % 16, u % 16;
    HexRecompose(u);
    HexDigitRoundTrip(a);
    HexDigitRoundTrip(b);
    HexDigitRoundTrip(c);
    HexDigitRoundTrip(d);
    assert w == [BACKSLASH, 0x75, HexDigit(a), HexDigit(b), HexDigit(c), HexDigit(d)] + t;
    assert w[6..] == t;
  }

  lemma RawStep(u: CodeUnit, t: Text)
    requires u >= 0x20 && u != QUOTE && u != BACKSLASH
    ensures ParseChars([u] + t) == Prepend(u, ParseChars(t))
  {
    assert ([u] + t)[1..] == t;
  }

  /** Units of `s` that its first escape stands for. */
  function HeadLength(s: Text): (n: nat)
    requires s != []
    ensures 0 < n <= |s|
  {
    if ShortEscape(s[0]).None? && IsHigh(s[0]) && |s| > 1 && IsLow(s[1]) then 2 else 1
  }

  function HeadEscape(s: Text): Text
    requires s != []
  {
    if ShortEscape(s[0]).Some? then [BACKSLASH, ShortEscape(s[0]).value]
    else if HeadLength(s) == 2 then s[..2]
    else if s[0] < 0x20 || IsHigh(s[0]) || IsLow(s[0]) then HexEscape(s[0])
    else [s[0]]
  }

  lemma EscapeHead(s: Text, x: Text)
    requires s != []
    ensures Escape(s) + x == HeadEscape(s) + (Escape(s[HeadLength(s)..]) + x)
  {
    assert Escape(s) == HeadEscape(s) + Escape(s[HeadLength(s)..]);
  }

  lemma HeadStep(s: Text, t: Text, back: Text, rest: Text)
    requires s != [] && ParseChars(t) == Some((back, rest))
    ensures ParseChars(HeadEscape(s) + t) == Some((s[..HeadLength(s)] + back, rest))
  {
    assert s[..1] == [s[0]];
    if ShortEscape(s[0]).Some? {
      ShortStep(s[0], t);
    } else if HeadLength(s) == 2 {
      RawStep(s[1], t);
      RawStep(s[0], [s[1]] + t);
      assert s[..2] + t == [s[0]] + ([s[1]] + t);
      assert s[..2] + back == [s[0]] + ([s[1]] + back);
    } else if s[0] < 0x20 || IsHigh(s[0]) || IsLow(s[0]) {
      HexStep(s[0], t);
    } else {
      RawStep(s[0], t);
    }
  }

  lemma {:induction false} CharsRoundTrip(s: Text, rest: Text)
    ensures ParseChars(Escape(s) + [QUOTE] + rest) == Some((s, rest))
  {
    var x := [QUOTE] + rest;
    assert Escape(s) + [QUOTE] + rest == Escape(s) + x;
    if s == [] {
      assert Escape(s) + x == x && x[1..] == rest;
    } else {
      var n := HeadLength(s);
      CharsRoundTrip(s[n..], rest);
      assert Escape(s[n..]) + [QUOTE] + rest == Escape(s[n..]) + x;
      EscapeHead(s, x);
      HeadStep(s, Escape(s[n..]) + x, s[n..], rest);
      assert s[..n] + s[n..] == s;
    }
  }

  // ---- Values ------------------------------------------------------------------

  const NULL_TEXT: Text := [0x6E, 0x75, 0x6C, 0x6C]
  const TRUE_TEXT: Text := [0x74, 0x72, 0x75, 0x65]
  const FALSE_TEXT: Text := [0x66, 0x61, 0x6C, 0x73, 0x65]

  function StrText(s: Text): Text {
    [QUOTE] + Escape(s) + [QUOTE]
  }

  /** `JSON.stringify` with the members in their own order. */
  function Stringify(v: Json): Text
    decreases v, 1
  {
    match v
    case Null => NULL_TEXT
    case Bool(b) => if b then TRUE_TEXT else FALSE_TEXT
    case Num(token) => token
    case Str(s) => StrText(s)
    case Arr(items) => [LBRACKET] + ItemsText(items) + [RBRACKET]
    case Obj(members) => [LBRACE] + MembersText(members) + [RBRACE]
  }

  function ItemsText(items: seq<Json>): Text
    decreases items, 0
  {
    if items == [] then []
    else if |items| == 1 then Stringify(items[0])
    else Stringify(items[0]) + [COMMA] + ItemsText(items[1..])
  }

  function MembersText(members: seq<Member>): Text
    decreases members, 0
  {
    if members == [] then []
    else
      var first := StrText(members[0].key) + [COLON] + Stringify(members[0].value);
      if |members| == 1 then first else first + [COMMA] + MembersText(members[1..])
  }

  /** Numbers carry number tokens, all the way down. */
  predicate Valid(v: Json) {
    match v
    case Num(token) => IsNumber(token)
    case Arr(items) => forall i :: 0 <= i < |items| ==> Valid(items[i])
    case Obj(members) => forall i :: 0 <= i < |members| ==> Valid(members[i].value)
    case _ => true
  }

  predicate Space(u: CodeUnit) {
    u == 0x20 || u == 0x09 || u == 0x0A || u == 0x0D
  }

  function SkipSpace(t: Text): (r: Text)
    ensures |r| <= |t|
    ensures r != [] ==> !Space(r[0])
  {
    if t != [] && Space(t[0]) then SkipSpace(t[1..]) else t
  }

  function Rest<T>(r: Option<(T, Text)>): Text
    requires r.Some?
  {
    r.value.1
  }

  /** One JSON value, spaces allowed before it; returns the value and what follows. */
  function ParseValue(t: Text): (r: Option<(Json, Text)>)
    ensures r.Some? ==> |Rest(r)| < |t|
    decreases |t|, 3
  {
    var u := SkipSpace(t);
    if u == [] then None
    else if u[0] == QUOTE then
      var s := ParseChars(u[1..]);
      if s.Some? then Some((Str(s.value.0), Rest(s))) else None
    else if u[0] == LBRACE then
      var w := SkipSpace(u[1..]);
      if w != [] && w[0] == RBRACE then Some((Obj([]), w[1..]))
      else
        var ms := ParseMembers(u[1..]);
        if ms.Some? then Some((Obj(ms.value.0), Rest(ms))) else None
    else if u[0] == LBRACKET then
      var w := SkipSpace(u[1..]);
      if w != [] && w[0] == RBRACKET then Some((Arr([]), w[1..]))
      else
        var vs := ParseItems(u[1..]);
        if vs.Some? then Some((Arr(vs.value.0), Rest(vs))) else None
    else ParseAtom(u)
  }

  function ParseAtom(u: Text): (r: Option<(Json, Text)>)
    ensures r.Some? ==> |Rest(r)| < |u|
  {
    if NULL_TEXT <= u then Some((Null, u[4..]))
    else if TRUE_TEXT <= u then Some((Bool(true), u[4..]))
    else if FALSE_TEXT <= u then Some((Bool(false), u[5..]))
    else
      var n := NumberRun(u);
      if n > 0 && IsNumber(u[..n]) then Some((Num(u[..n]), u[n..])) else None
  }

  /** One or more `key : value` separated by commas, then the closing brace. */
  function ParseMembers(t: Text): (r: Option<(seq<Member>, Text)>)
    ensures r.Some? ==> |Rest(r)| < |t|
    decreases |t|, 2
  {
    var u := SkipSpace(t);
    if u == [] || u[0] != QUOTE then None
    else
      var key := ParseChars(u[1..]);
      if key.None? then None
      else
        var w := SkipSpace(Rest(key));
        if w == [] || w[0] != COLON then None
        else
          var value := ParseValue(w[1..]);
          if value.None? then None
          else
            var first := Member(key.value.0, value.value.0);
            var next := SkipSpace(Rest(value));
            if next == [] then None
            else if next[0] == RBRACE then Some(([first], next[1..]))
            else if next[0] != COMMA then None
            else
              var more := ParseMembers(next[1..]);
              if more.Some? then Some(([first] + more.value.0, Rest(more))) else None
  }

  function ParseItems(t: Text): (r: Option<(seq<Json>, Text)>)
    ensures r.Some? ==> |Rest(r)| < |t|
    decreases |t|, 4
  {
    var value := ParseValue(t);
    if value.None? then None
    else
      var next := SkipSpace(Rest(value));
      if next == [] then None
      else if next[0] == RBRACKET then Some(([value.value.0], next[1..]))
      else if next[0] != COMMA then None
      else
        var more := ParseItems(next[1..]);
        if more.Some? then Some(([value.value.0] + more.value.0, Rest(more))) else None
  }

  /** `JSON.parse`: None where it throws. */
  function Parse(t: Text): Option<Json> {
    var v := ParseValue(t);
    if v.Some? && SkipSpace(Rest(v)) == [] then Some(v.value.0) else None
  }

  // ---- Printing is undone by parsing --------------------------------------------

  /** What may follow a value: nothing that could lengthen a number. */
  predicate Ends(rest: Text) {
    rest == [] || !NumberUnit(rest[0])
  }

  lemma FirstUnit(v: Json)
    requires Valid(v)
    ensures var t := Stringify(v); t != [] && !Space(t[0]) && t[0] != RBRACE && t[0] != RBRACKET
  {
    if v.Num? {
      NumberIsNotEmpty(v.token);
    }
  }

  lemma {:induction false} AtomRoundTrip(v: Json, rest: Text)
    requires Valid(v) && (v.Null? || v.Bool? || v.Num?) && Ends(rest)
    ensures ParseAtom(Stringify(v) + rest) == Some((v, rest))
  {
    var t := Stringify(v) + rest;
    match v
    case Null =>
      assert t[4..] == rest && t[..4] == NULL_TEXT;
    case Bool(b) =>
      if b {
        assert t[4..] == rest && t[..4] == TRUE_TEXT && t[0] != NULL_TEXT[0];
      } else {
        assert t[5..] == rest && t[..5] == FALSE_TEXT && t[0] != NULL_TEXT[0] && t[0] != TRUE_TEXT[0];
      }
    case Num(token) =>
      NumberIsNotEmpty(token);
      NumberRunStops(token, rest);
      assert t[..|token|] == token && t[|token|..] == rest;
      assert t[0] != NULL_TEXT[0] && t[0] != TRUE_TEXT[0] && t[0] != FALSE_TEXT[0];
  }

  lemma StrStep(s: Text, rest: Text)
    ensures ParseValue(StrText(s) + rest) == Some((Str(s), rest))
  {
    var t := StrText(s) + rest;
    CharsRoundTrip(s, rest);
    assert t[0] == QUOTE && t[1..] == Escape(s) + [QUOTE] + rest;
    assert SkipSpace(t) == t;
  }

  lemma OpenArr(contents: Text)
    requires contents != [] && !Space(contents[0]) && contents[0] != RBRACKET
    ensures ParseValue([LBRACKET] + contents) ==
            (var r := ParseItems(contents); if r.Some? then Some((Arr(r.value.0), Rest(r))) else None)
  {
    var t := [LBRACKET] + contents;
    assert SkipSpace(t) == t && t[1..] == contents;
  }

  lemma OpenObj(contents: Text)
    requires contents != [] && !Space(contents[0]) && contents[0] != RBRACE
    ensures ParseValue([LBRACE] + contents) ==
            (var r := ParseMembers(contents); if r.Some? then Some((Obj(r.value.0), Rest(r))) else None)
  {
    var t := [LBRACE] + contents;
    assert SkipSpace(t) == t && t[1..] == contents;
  }

  lemma EmptyStep(rest: Text)
    ensures ParseValue([LBRACKET] + [RBRACKET] + rest) == Some((Arr([]), rest))
    ensures ParseValue([LBRACE] + [RBRACE] + rest) == Some((Obj([]), rest))
  {
    var t := [LBRACKET] + [RBRACKET] + rest;
    assert SkipSpace(t) == t && t[1..][0] == RBRACKET && t[1..][1..] == rest;
    var u := [LBRACE] + [RBRACE] + rest;
    assert SkipSpace(u) == u && u[1..][0] == RBRACE && u[1..][1..] == rest;
  }

  lemma ItemLast(v: Json, t: Text, rest: Text)
    requires ParseValue(t) == Some((v, [RBRACKET] + rest))
    ensures ParseItems(t) == Some(([v], rest))
  {
    assert ([RBRACKET] + rest)[1..] == rest;
  }

  lemma ItemMore(v: Json, t: Text, x: Text, more: seq<Json>, rest: Text)
    requires ParseValue(t) == Some((v, [COMMA] + x)) && ParseItems(x) == Some((more, rest))
    ensures ParseItems(t) == Some(([v] + more, rest))
  {
    assert ([COMMA] + x)[1..] == x;
  }

  /** `w` starts with the printed `key`, a colon and then `t`. */
  predicate Keyed(w: Text, key: Text, t: Text) {
    w != [] && w[0] == QUOTE && ParseChars(w[1..]) == Some((key, [COLON] + t))
  }

  lemma MemberLast(m: Member, w: Text, t: Text, rest: Text)
    requires Keyed(w, m.key, t) && ParseValue(t) == Some((m.value, [RBRACE] + rest))
    ensures ParseMembers(w) == Some(([m], rest))
  {
    assert SkipSpace(w) == w;
    assert ([COLON] + t)[1..] == t && ([RBRACE] + rest)[1..] == rest;
  }

  lemma MemberMore(m: Member, w: Text, t: Text, x: Text, more: seq<Member>, rest: Text)
    requires Keyed(w, m.key, t) && ParseValue(t) == Some((m.value, [COMMA] + x))
    requires ParseMembers(x) == Some((more, rest))
    ensures ParseMembers(w) == Some(([m] + more, rest))
  {
    assert SkipSpace(w) == w;
    assert ([COLON] + t)[1..] == t && ([COMMA] + x)[1..] == x;
  }

  lemma KeyStep(key: Text, t: Text)
    ensures Keyed(StrText(key) + [COLON] + t, key, t)
  {
    var w := StrText(key) + [COLON] + t;
    CharsRoundTrip(key, [COLON] + t);
    assert w[1..] == Escape(key) + [QUOTE] + ([COLON] + t);
  }

  /** A printed, non-empty array after its opening bracket, followed by `rest`. */
  function ItemsFrom(items: seq<Json>, rest: Text): Text
    requires items != []
    decreases items, 0
  {
    Stringify(items[0]) + (if |items| == 1 then [RBRACKET] + rest else [COMMA] + ItemsFrom(items[1..], rest))
  }

  /** A printed, non-empty object after its opening brace, followed by `rest`. */
  function MembersFrom(members: seq<Member>, rest: Text): Text
    requires members != []
    decreases members, 0
  {
    StrText(members[0].key) + [COLON]
    + (Stringify(members[0].value) + (if |members| == 1 then [RBRACE] + rest else [COMMA] + MembersFrom(members[1..], rest)))
  }

  lemma Regroup(a: Text, b: Text, c: Text, d: Text)
    ensures a + b + c + d == a + (b + c + d)
    ensures a + b + c + d == a + (b + (c + d))
  {}

  lemma {:induction false} ItemsFromText(items: seq<Json>, rest: Text)
    requires items != []
    ensures ItemsText(items) + [RBRACKET] + rest == ItemsFrom(items, rest)
    decreases items, 0
  {
    var first := Stringify(items[0]);
    if |items| == 1 {
      Regroup(first, [RBRACKET], rest, []);
    } else {
      ItemsFromText(items[1..], rest);
      Regroup(first, [COMMA] + ItemsText(items[1..]), [RBRACKET], rest);
      Regroup([COMMA], ItemsText(items[1..]), [RBRACKET], rest);
      Regroup(first, [COMMA], ItemsText(items[1..]), []);
    }
  }

  lemma {:induction false} MembersFromText(members: seq<Member>, rest: Text)
    requires members != []
    ensures MembersText(members) + [RBRACE] + rest == MembersFrom(members, rest)
    decreases members, 0
  {
    var key, value := StrText(members[0].key) + [COLON], Stringify(members[0].value);
    if |members| == 1 {
      Regroup(key, value, [RBRACE], rest);
    } else {
      var more := MembersText(members[1..]);
      MembersFromText(members[1..], rest);
      Regroup(key, value, [COMMA], more);
      Regroup(key, value + ([COMMA] + more), [RBRACE], rest);
      Regroup(value, [COMMA] + more, [RBRACE], rest);
      Regroup([COMMA], more, [RBRACE], rest);
    }
  }

  lemma ContainerText(v: Json, rest: Text)
    ensures v.Arr? && v.items != [] ==> Stringify(v) + rest == [LBRACKET] + ItemsFrom(v.items, rest)
    ensures v.Obj? && v.members != [] ==> Stringify(v) + rest == [LBRACE] + MembersFrom(v.members, rest)
  {
    if v.Arr? && v.items != [] {
      ItemsFromText(v.items, rest);
      Regroup([LBRACKET], ItemsText(v.items), [RBRACKET], rest);
    } else if v.Obj? && v.members != [] {
      MembersFromText(v.members, rest);
      Regroup([LBRACE], MembersText(v.members), [RBRACE], rest);
    }
  }

  lemma FirstItemUnit(items: seq<Json>, rest: Text)
    requires items != [] && Valid(items[0])
    ensures var t := ItemsFrom(items, rest); t != [] && !Space(t[0]) && t[0] != RBRACKET
  {
    FirstUnit(items[0]);
  }

  lemma ArrStep(items: seq<Json>, rest: Text)
    requires items != [] && Valid(items[0])
    requires ParseItems(ItemsFrom(items, rest)) == Some((items, rest))
    ensures ParseValue(Stringify(Arr(items)) + rest) == Some((Arr(items), rest))
  {
    FirstItemUnit(items, rest);
    ContainerText(Arr(items), rest);
    OpenArr(ItemsFrom(items, rest));
  }

  lemma ObjStep(members: seq<Member>, rest: Text)
    requires members != []
    requires ParseMembers(MembersFrom(members, rest)) == Some((members, rest))
    ensures ParseValue(Stringify(Obj(members)) + rest) == Some((Obj(members), rest))
  {
    assert MembersFrom(members, rest)[0] == QUOTE;
    ContainerText(Obj(members), rest);
    OpenObj(MembersFrom(members, rest));
  }

  lemma {:induction false} ValueRoundTrip(v: Json, rest: Text)
    requires Valid(v) && Ends(rest)
    ensures ParseValue(Stringify(v) + rest) == Some((v, rest))
    decreases v, 1
  {
    match v
    case Str(s) =>
      StrStep(s, rest);
    case Arr(items) =>
      if items == [] {
        EmptyStep(rest);
        assert Stringify(v) + rest == [LBRACKET] + [RBRACKET] + rest;
      } else {
        ItemsRoundTrip(items, rest);
        ArrStep(items, rest);
      }
    case Obj(members) =>
      if members == [] {
        EmptyStep(rest);
        assert Stringify(v) + rest == [LBRACE] + [RBRACE] + rest;
      } else {
        MembersRoundTrip(members, rest);
        ObjStep(members, rest);
      }
    case _ =>
      AtomStep(v, rest);
  }

  lemma AtomStep(v: Json, rest: Text)
    requires Valid(v) && (v.Null? || v.Bool? || v.Num?) && Ends(rest)
    ensures ParseValue(Stringify(v) + rest) == Some((v, rest))
  {
    FirstUnit(v);
    if v.Num? {
      NumberIsNotEmpty(v.token);
    }
    AtomRoundTrip(v, rest);
    var t := Stringify(v) + rest;
    assert t[0] == Stringify(v)[0];
    assert SkipSpace(t) == t;
  }

  lemma HeadAndTail<T>(xs: seq<T>)
    requires xs != []
    ensures xs == [xs[0]] + xs[1..]
    ensures |xs| == 1 ==> xs == [xs[0]]
  {}

  predicate AllItemsValid(items: seq<Json>) {
    forall i :: 0 <= i < |items| ==> Valid(items[i])
  }

  predicate AllMembersValid(members: seq<Member>) {
    forall i :: 0 <= i < |members| ==> Valid(members[i].value)
  }

  lemma ItemsHeadAndTail(items: seq<Json>)
    requires items != [] && AllItemsValid(items)
    ensures Valid(items[0]) && AllItemsValid(items[1..])
  {}

  lemma MembersHeadAndTail(members: seq<Member>)
    requires members != [] && AllMembersValid(members)
    ensures Valid(members[0].value) && AllMembersValid(members[1..])
  {}

  lemma {:induction false} ItemsRoundTrip(items: seq<Json>, rest: Text)
    requires items != [] && AllItemsValid(items)
    ensures ParseItems(ItemsFrom(items, rest)) == Some((items, rest))
    decreases items, 0
  {
    var v, t := items[0], ItemsFrom(items, rest);
    HeadAndTail(items);
    ItemsHeadAndTail(items);
    if |items| == 1 {
      ValueRoundTrip(v, [RBRACKET] + rest);
      ItemLast(v, t, rest);
    } else {
      var x := ItemsFrom(items[1..], rest);
      ValueRoundTrip(v, [COMMA] + x);
      ItemsRoundTrip(items[1..], rest);
      ItemMore(v, t, x, items[1..], rest);
    }
  }

  lemma LastMember(m: Member, rest: Text)
    requires ParseValue(Stringify(m.value) + ([RBRACE] + rest)) == Some((m.value, [RBRACE] + rest))
    ensures ParseMembers(MembersFrom([m], rest)) == Some(([m], rest))
  {
    var t := Stringify(m.value) + ([RBRACE] + rest);
    KeyStep(m.key, t);
    MemberLast(m, StrText(m.key) + [COLON] + t, t, rest);
  }

  lemma PrintedMember(m: Member, x: Text, more: seq<Member>, rest: Text)
    requires ParseValue(Stringify(m.value) + ([COMMA] + x)) == Some((m.value, [COMMA] + x))
    requires ParseMembers(x) == Some((more, rest))
    ensures ParseMembers(StrText(m.key) + [COLON] + (Stringify(m.value) + ([COMMA] + x))) == Some(([m] + more, rest))
  {
    var t := Stringify(m.value) + ([COMMA] + x);
    KeyStep(m.key, t);
    MemberMore(m, StrText(m.key) + [COLON] + t, t, x, more, rest);
  }

  lemma {:induction false} MembersRoundTrip(members: seq<Member>, rest: Text)
    requires members != [] && AllMembersValid(members)
    ensures ParseMembers(MembersFrom(members, rest)) == Some((members, rest))
    decreases members, 0
  {
    var m := members[0];
    HeadAndTail(members);
    MembersHeadAndTail(members);
    if |members| == 1 {
      ValueRoundTrip(m.value, [RBRACE] + rest);
      LastMember(m, rest);
    } else {
      var x := MembersFrom(members[1..], rest);
      ValueRoundTrip(m.value, [COMMA] + x);
      MembersRoundTrip(members[1..], rest);
      PrintedMember(m, x, members[1..], rest);
    }
  }

  /** `JSON.parse(JSON.stringify(v))` is `v`. */
  lemma RoundTrip(v: Json)
    requires Valid(v)
    ensures Parse(Stringify(v)) == Some(v)
  {
    ValueRoundTrip(v, []);
    assert Stringify(v) + [] == Stringify(v);
  }

  // ---- Units of printed text -------------------------------------------------------

  /** No control units, so no line breaks. */
  predicate NoControls(t: Text) {
    forall i :: 0 <= i < |t| ==> t[i] >= 0x20
  }

  predicate NoSurrogates(t: Text) {
    forall i :: 0 <= i < |t| ==> !IsHigh(t[i]) && !IsLow(t[i])
  }

  lemma {:induction false} PlainWellFormed(t: Text)
    requires NoSurrogates(t)
    ensures WellFormed(t)
  {
    if t != [] {
      PlainWellFormed(t[1..]);
    }
  }

  predicate Clean(t: Text) {
    NoControls(t) && WellFormed(t)
  }

  lemma CleanConcat(a: Text, b: Text)
    requires Clean(a) && Clean(b)
    ensures Clean(a + b)
  {
    WellFormedConcat(a, b);
  }

  lemma CleanBetween(open: CodeUnit, t: Text, close: CodeUnit)
    requires Clean(t) && Clean([open]) && Clean([close])
    ensures Clean([open] + t + [close])
  {
    CleanConcat([open], t);
    CleanConcat([open] + t, [close]);
  }

  lemma HeadUnits(s: Text)
    requires s != []
    ensures Clean(HeadEscape(s))
  {
    if HeadLength(s) == 2 {
      assert s[..2][2..] == [];
    } else {
      PlainWellFormed(HeadEscape(s));
    }
  }

  lemma {:induction false} EscapeUnits(s: Text)
    ensures Clean(Escape(s))
  {
    if s != [] {
      var n := HeadLength(s);
      EscapeUnits(s[n..]);
      HeadUnits(s);
      EscapeHead(s, []);
      assert Escape(s) + [] == Escape(s) && Escape(s[n..]) + [] == Escape(s[n..]);
      CleanConcat(HeadEscape(s), Escape(s[n..]));
    }
  }

  lemma StrUnits(s: Text)
    ensures Clean(StrText(s))
  {
    EscapeUnits(s);
    CleanBetween(QUOTE, Escape(s), QUOTE);
  }

  /** Printed JSON is well-formed UTF-16 on one line. */
  lemma {:induction false} StringifyUnits(v: Json)
    requires Valid(v)
    ensures Clean(Stringify(v))
    decreases v, 1
  {
    match v
    case Str(s) => StrUnits(s);
    case Arr(items) =>
      ItemsUnits(items);
      CleanBetween(LBRACKET, ItemsText(items), RBRACKET);
    case Obj(members) =>
      MembersUnits(members);
      CleanBetween(LBRACE, MembersText(members), RBRACE);
    case _ => PlainWellFormed(Stringify(v));
  }

  lemma {:induction false} ItemsUnits(items: seq<Json>)
    requires forall i :: 0 <= i < |items| ==> Valid(items[i])
    ensures Clean(ItemsText(items))
    decreases items, 0
  {
    if items != [] {
      StringifyUnits(items[0]);
      if |items| > 1 {
        ItemsUnits(items[1..]);
        CleanConcat(Stringify(items[0]), [COMMA]);
        CleanConcat(Stringify(items[0]) + [COMMA], ItemsText(items[1..]));
      }
    }
  }

  lemma {:induction false} MembersUnits(members: seq<Member>)
    requires forall i :: 0 <= i < |members| ==> Valid(members[i].value)
    ensures Clean(MembersText(members))
    decreases members, 0
  {
    if members != [] {
      var key, value := StrText(members[0].key), Stringify(members[0].value);
      StrUnits(members[0].key);
      StringifyUnits(members[0].value);
      CleanConcat(key, [COLON]);
      CleanConcat(key + [COLON], value);
      if |members| > 1 {
        MembersUnits(members[1..]);
        CleanConcat(key + [COLON] + value, [COMMA]);
        CleanConcat(key + [COLON] + value + [COMMA], MembersText(members[1..]));
      }
    }
  }
}
