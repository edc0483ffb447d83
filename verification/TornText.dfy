/** Why a torn ledger line never parses: a scanner that every accepted object text must
    drive from its start to its end, and that no cut or glued text can bring to its end. */
module TornText {
  import opened Units
  import opened Json

  datatype Mode = Out | After | InStr | Esc | Hex(left: nat)

  /** Bracket depth and string mode; `End` once the outermost object has closed. */
  datatype Scan = Dead | End | At(depth: nat, mode: Mode)

  const START: Scan := At(0, Out)

  function Close(depth: nat): Scan {
    if depth <= 1 then End else At(depth - 1, After)
  }

  function Step(s: Scan, u: CodeUnit): Scan {
    match s
    case Dead => Dead
    case End => if Space(u) then End else Dead
    case At(d, m) =>
      if d == 0 then (if u == LBRACE && m == Out then At(1, Out) else Dead)
      else
        match m
        case Out =>
          if u == LBRACE || u == LBRACKET then At(d + 1, Out)
          else if u == RBRACE || u == RBRACKET then Close(d)
          else if u == QUOTE then At(d, InStr)
          else s
        case After =>
          if u == COMMA || u == COLON then At(d, Out)
          else if u == RBRACE || u == RBRACKET then Close(d)
          else if Space(u) then s
          else Dead
        case InStr =>
          if u == QUOTE then At(d, After)
          else if u == BACKSLASH then At(d, Esc)
          else if u < 0x20 then Dead
          else s
        case Esc =>
          if u == 0x75 then At(d, Hex(4))
          else if ShortMeaning(u).Some? then At(d, InStr)
          else Dead
        case Hex(left) =>
          if HexValue(u).None? then Dead
          else if left <= 1 then At(d, InStr)
          else At(d, Hex(left - 1))
  }

  function Run(s: Scan, t: Text): Scan
    decreases |t|
  {
    if t == [] then s else Run(Step(s, t[0]), t[1..])
  }

  lemma {:induction false} RunConcat(s: Scan, a: Text, b: Text)
    ensures Run(s, a + b) == Run(Run(s, a), b)
    decreases |a|
  {
    if a == [] {
      assert a + b == b;
    } else {
      assert (a + b)[1..] == a[1..] + b;
      RunConcat(Step(s, a[0]), a[1..], b);
    }
  }

  // ---- Whatever parses drives the scanner through ----------------------------------

  lemma {:induction false} SpaceScan(t: Text, s: Scan)
    requires s == End || (s.At? && s.depth > 0 && (s.mode == Out || s.mode == After))
    ensures Run(s, t) == Run(s, SkipSpace(t))
  {
    if t != [] && Space(t[0]) {
      SpaceScan(t[1..], s);
    }
  }

  lemma {:induction false} CharsScan(t: Text, d: nat)
    requires d > 0 && ParseChars(t).Some?
    ensures Run(At(d, InStr), t) == Run(At(d, After), Rest(ParseChars(t)))
  {
    if t[0] == QUOTE {
    } else if t[0] != BACKSLASH {
      CharsScan(t[1..], d);
    } else if t[1] == 0x75 {
      HexScan(t, d);
      CharsScan(t[6..], d);
    } else {
      assert t[1..][1..] == t[2..];
      assert Run(At(d, InStr), t) == Run(At(d, InStr), t[2..]);
      CharsScan(t[2..], d);
    }
  }

  lemma HexScan(t: Text, d: nat)
    requires d > 0 && |t| >= 6 && t[0] == BACKSLASH && t[1] == 0x75
    requires HexValue(t[2]).Some? && HexValue(t[3]).Some? && HexValue(t[4]).Some? && HexValue(t[5]).Some?
    ensures Run(At(d, InStr), t) == Run(At(d, InStr), t[6..])
  {
    var s := At(d, InStr);
    assert t == [t[0], t[1], t[2], t[3], t[4], t[5]] + t[6..];
    RunConcat(s, [t[0], t[1], t[2], t[3], t[4], t[5]], t[6..]);
    RunConcat(s, [t[0], t[1]], [t[2], t[3], t[4], t[5]]);
    assert [t[0], t[1]] + [t[2], t[3], t[4], t[5]] == [t[0], t[1], t[2], t[3], t[4], t[5]];
    RunConcat(At(d, Hex(4)), [t[2], t[3]], [t[4], t[5]]);
    assert [t[2], t[3]] + [t[4], t[5]] == [t[2], t[3], t[4], t[5]];
    RunTwo(s, t[0], t[1]);
    RunTwo(At(d, Hex(4)), t[2], t[3]);
    RunTwo(At(d, Hex(2)), t[4], t[5]);
  }

  lemma RunTwo(s: Scan, u: CodeUnit, v: CodeUnit)
    ensures Run(s, [u, v]) == Step(Step(s, u), v)
  {
    assert [u, v][1..] == [v] && [v][1..] == [];
    assert Run(Step(Step(s, u), v), []) == Step(Step(s, u), v);
    assert Run(Step(s, u), [v]) == Step(Step(s, u), v);
  }

  /** Units that leave the scanner where it is outside strings. */
  predicate Inert(u: CodeUnit) {
    u !in {LBRACE, RBRACE, LBRACKET, RBRACKET, QUOTE}
  }

  lemma {:induction false} InertScan(t: Text, n: nat, d: nat)
    requires d > 0 && n <= |t| && forall i :: 0 <= i < n ==> Inert(t[i])
    ensures Run(At(d, Out), t) == Run(At(d, Out), t[n..])
  {
    if n > 0 {
      InertScan(t[1..], n - 1, d);
      assert t[1..][n - 1..] == t[n..];
    }
  }

  lemma {:induction false} NumberRunUnits(t: Text)
    ensures forall i :: 0 <= i < NumberRun(t) ==> NumberUnit(t[i])
  {
    if t != [] && NumberUnit(t[0]) {
      NumberRunUnits(t[1..]);
      assert forall i :: 1 <= i < NumberRun(t) ==> t[i] == t[1..][i - 1];
    }
  }

  lemma AtomScan(u: Text, d: nat)
    requires d > 0 && ParseAtom(u).Some?
    ensures Run(At(d, Out), u) == Run(At(d, Out), Rest(ParseAtom(u)))
  {
    if NULL_TEXT <= u {
      InertScan(u, 4, d);
    } else if TRUE_TEXT <= u {
      InertScan(u, 4, d);
    } else if FALSE_TEXT <= u {
      InertScan(u, 5, d);
    } else {
      NumberRunUnits(u);
      InertScan(u, NumberRun(u), d);
    }
  }

  lemma {:induction false} ValueScan(t: Text, d: nat) returns (m: Mode)
    requires d > 0 && ParseValue(t).Some?
    ensures m == Out || m == After
    ensures Run(At(d, Out), t) == Run(At(d, m), Rest(ParseValue(t)))
    decreases |t|, 3
  {
    var u := SkipSpace(t);
    SpaceScan(t, At(d, Out));
    m := After;
    if u[0] == QUOTE {
      CharsScan(u[1..], d);
    } else if u[0] == LBRACE {
      SpaceScan(u[1..], At(d + 1, Out));
      var w := SkipSpace(u[1..]);
      if !(w != [] && w[0] == RBRACE) {
        MembersScan(u[1..], d + 1);
      }
    } else if u[0] == LBRACKET {
      SpaceScan(u[1..], At(d + 1, Out));
      var w := SkipSpace(u[1..]);
      if !(w != [] && w[0] == RBRACKET) {
        ItemsScan(u[1..], d + 1);
      }
    } else {
      AtomScan(u, d);
      m := Out;
    }
  }

  /** The text behind a member's key and colon. */
  function BehindKey(t: Text): (rest: Text)
    requires ParseMembers(t).Some?
    ensures |rest| < |t| && ParseValue(rest).Some?
  {
    var key := ParseChars(SkipSpace(t)[1..]);
    SkipSpace(Rest(key))[1..]
  }

  lemma KeyScan(t: Text, d: nat)
    requires d > 0 && ParseMembers(t).Some?
    ensures Run(At(d, Out), t) == Run(At(d, Out), BehindKey(t))
  {
    var u := SkipSpace(t);
    SpaceScan(t, At(d, Out));
    CharsScan(u[1..], d);
    SpaceScan(Rest(ParseChars(u[1..])), At(d, After));
  }

  /** A comma behind a value leads on to the next one, a closing bracket up to the level above. */
  lemma SeparatorScan(t: Text, d: nat, m: Mode)
    requires d > 0 && (m == Out || m == After) && SkipSpace(t) != []
    ensures var next := SkipSpace(t);
            && (next[0] == RBRACE || next[0] == RBRACKET ==> Run(At(d, m), t) == Run(Close(d), next[1..]))
            && (next[0] == COMMA ==> Run(At(d, m), t) == Run(At(d, Out), next[1..]))
  {
    SpaceScan(t, At(d, m));
  }

  lemma {:induction false} MembersScan(t: Text, d: nat)
    requires d > 0 && ParseMembers(t).Some?
    ensures Run(At(d, Out), t) == Run(Close(d), Rest(ParseMembers(t)))
    decreases |t|, 2
  {
    KeyScan(t, d);
    var m := ValueScan(BehindKey(t), d);
    var after := Rest(ParseValue(BehindKey(t)));
    SeparatorScan(after, d, m);
    if SkipSpace(after)[0] != RBRACE {
      MembersScan(SkipSpace(after)[1..], d);
    }
  }

  lemma {:induction false} ItemsScan(t: Text, d: nat)
    requires d > 0 && ParseItems(t).Some?
    ensures Run(At(d, Out), t) == Run(Close(d), Rest(ParseItems(t)))
    decreases |t|, 4
  {
    var m := ValueScan(t, d);
    var after := Rest(ParseValue(t));
    SeparatorScan(after, d, m);
    if SkipSpace(after)[0] != RBRACKET {
      ItemsScan(SkipSpace(after)[1..], d);
    }
  }

  /** Every object text that `JSON.parse` accepts brings the scanner to its end. */
  lemma AcceptedEnds(t: Text)
    requires t != [] && t[0] == LBRACE && Parse(t).Some?
    ensures Run(START, t) == End
  {
    assert SkipSpace(t) == t;
    var w := SkipSpace(t[1..]);
    SpaceScan(t[1..], At(1, Out));
    if !(w != [] && w[0] == RBRACE) {
      MembersScan(t[1..], 1);
    }
    SpaceScan(Rest(ParseValue(t)), End);
  }

  // ---- Cut and glued texts ---------------------------------------------------------

  /** A state from which the text so far is not a complete object. */
  predicate Broken(s: Scan) {
    s == Dead || (s.At? && s.depth > 0)
  }

  lemma {:induction false} DeadStays(t: Text)
    ensures Run(Dead, t) == Dead
  {
    if t != [] {
      DeadStays(t[1..]);
    }
  }

  lemma {:induction false} EndNeedsSpace(t: Text)
    requires t != [] && Run(End, t) == End
    ensures Space(t[|t| - 1])
  {
    if !Space(t[0]) {
      DeadStays(t[1..]);
    } else if |t| > 1 {
      EndNeedsSpace(t[1..]);
    }
  }

  /** The shape every ledger row has: an object text whose first key starts with a letter. */
  predicate RowLike(e: Text) {
    && |e| >= 3 && e[0] == LBRACE && e[1] == QUOTE && e[2] == 0x73
    && e[|e| - 1] == RBRACE
    && Run(START, e) == End
  }

  lemma TakeStep(s: Scan, e: Text, k: nat)
    requires 0 < k <= |e|
    ensures Run(s, e[..k]) == Step(Run(s, e[..k - 1]), e[k - 1])
  {
    assert e[..k] == e[..k - 1] + [e[k - 1]];
    RunConcat(s, e[..k - 1], [e[k - 1]]);
    assert [e[k - 1]][1..] == [];
  }

  lemma {:induction false} PrefixDepth(e: Text, k: nat)
    requires RowLike(e) && 0 < k < |e|
    ensures Run(START, e[..k]).At? && Run(START, e[..k]).depth > 0
  {
    var s := Run(START, e[..k]);
    assert e == e[..k] + e[k..];
    RunConcat(START, e[..k], e[k..]);
    assert e[k..][|e[k..]| - 1] == e[|e| - 1];
    if s == Dead {
      DeadStays(e[k..]);
    } else if s == End {
      EndNeedsSpace(e[k..]);
    }
    TakeStep(START, e, k);
    if k > 1 {
      PrefixDepth(e, k - 1);
    } else {
      assert e[..0] == [];
    }
  }

  /** Inside another object a row is read as a nested value: everything moves `d` deeper. */
  lemma {:induction false} NestedPrefix(e: Text, k: nat, d: nat)
    requires RowLike(e) && 0 < k <= |e| && d > 0
    ensures Broken(Run(At(d, Out), e[..k]))
    ensures k < |e| ==> var s := Run(START, e[..k]); s.At? && Run(At(d, Out), e[..k]) == At(d + s.depth, s.mode)
  {
    TakeStep(At(d, Out), e, k);
    TakeStep(START, e, k);
    if k < |e| {
      PrefixDepth(e, k);
    }
    if k > 1 {
      NestedPrefix(e, k - 1, d);
      PrefixDepth(e, k - 1);
    } else {
      assert e[..0] == [];
    }
  }

  lemma FirstTwo(s: Scan, e: Text, k: nat)
    requires 0 < k <= |e|
    ensures Run(s, e[..k]) == Run(Step(s, e[0]), e[..k][1..])
    ensures k > 2 ==> Run(s, e[..k]) == Run(Step(Step(Step(s, e[0]), e[1]), e[2]), e[3..k])
  {
    if k > 2 {
      assert e[..k][1..][1..][1..] == e[3..k];
      assert e[..k][1..][0] == e[1] && e[..k][1..][1..][0] == e[2];
    }
  }

  /** Gluing a row, or the start of one, onto a broken or a finished text leaves it broken. */
  lemma GlueBreaks(s: Scan, e: Text, k: nat)
    requires RowLike(e) && 0 < k <= |e| && (Broken(s) || s == End)
    ensures Broken(Run(s, e[..k]))
  {
    FirstTwo(s, e, k);
    if s.At? && s.mode == Out {
      NestedPrefix(e, k, s.depth);
    } else if s.At? && s.mode == InStr {
      if k > 2 {
        DeadStays(e[3..k]);
      } else if k == 2 {
        assert e[..k] == [e[0], e[1]];
        RunTwo(s, e[0], e[1]);
      } else {
        assert e[..k][1..] == [];
      }
    } else {
      DeadStays(e[..k][1..]);
    }
  }

  lemma CutBreaks(e: Text, k: nat)
    requires RowLike(e) && 0 < k < |e|
    ensures Broken(Run(START, e[..k]))
  {
    PrefixDepth(e, k);
  }

  /** A broken line is what `JSON.parse` throws on. */
  lemma BrokenDoesNotParse(t: Text)
    requires t != [] && t[0] == LBRACE && Broken(Run(START, t))
    ensures Parse(t).None?
  {
    if Parse(t).Some? {
      AcceptedEnds(t);
    }
  }
}
