/** Finding the last JSON object in a model's answer (`extractLastJsonObject` in src/a2a/gonkaRanker.js and
    src/a2a/claimAgent.js). `parse` stands for `JSON.parse`, None where it throws. */
module ExtractJson {
  import opened Units

  /** `LoopsForever`: the outer loop keeps visiting the same brace. */
  datatype Outcome<T> = Found(value: T) | Nothing | LoopsForever

  /** `lastIndexOf("}", pos)`; a position below 0 counts as 0, and -1 is no brace at all. */
  function LastBrace(content: Text, pos: int): (end: int)
    ensures -1 <= end < |content|
    ensures end >= 0 ==> content[end] == RBRACE && end <= (if pos < 0 then 0 else pos)
    ensures forall i :: end < i < |content| && i <= (if pos < 0 then 0 else pos) ==> content[i] != RBRACE
    decreases if pos < 0 then 1 else pos + 2, if pos < 0 then 1 else 0
  {
    if content == [] then -1
    else if pos < 0 then (if content[0] == RBRACE then 0 else -1)
    else if pos < |content| && content[pos] == RBRACE then pos
    else if pos == 0 then -1
    else LastBrace(content, pos - 1)
  }

  /** The backward scan: brace depth, and whether it is inside a string or behind a backslash. */
  function ScanBack(content: Text, start: int, depth: nat, inString: bool, escaped: bool): (open: Option<nat>)
    requires start < |content|
    ensures open.Some? ==> open.value <= start && content[open.value] == LBRACE
    decreases if start < 0 then 0 else start + 1
  {
    if start < 0 then None
    else
      var ch := content[start];
      if inString then
        if escaped then ScanBack(content, start - 1, depth, true, false)
        else if ch == BACKSLASH then ScanBack(content, start - 1, depth, true, true)
        else ScanBack(content, start - 1, depth, ch != QUOTE, false)
      else if ch == RBRACE then ScanBack(content, start - 1, depth + 1, false, false)
      else if ch == LBRACE then
        if depth <= 1 then Some(start) else ScanBack(content, start - 1, depth - 1, false, false)
      else ScanBack(content, start - 1, depth, ch == QUOTE, false)
  }

  /** The opening brace matched with the closing brace at `end`. */
  function MatchOf(content: Text, end: nat): (open: Option<nat>)
    requires end < |content|
    ensures open.Some? ==> open.value <= end && content[open.value] == LBRACE
  {
    ScanBack(content, end, 0, false, false)
  }

  function ParseAt<T>(content: Text, end: nat, parse: Text -> Option<T>): Option<T>
    requires end < |content|
  {
    var open := MatchOf(content, end);
    if open.Some? then parse(content[open.value..end + 1]) else None
  }

  /** A closing brace whose matched slice parses. */
  predicate Good<T>(content: Text, end: nat, parse: Text -> Option<T>) {
    end < |content| && content[end] == RBRACE && ParseAt(content, end, parse).Some?
  }

  /** The inner loop. */
  method FindOpen(content: Text, end: nat) returns (open: Option<nat>)
    requires end < |content| && content[end] == RBRACE
    ensures open == MatchOf(content, end)
  {
    var depth, inString, escaped := 0, false, false;
    var start := end as int;
    while start >= 0
      invariant -1 <= start <= end && depth >= 0 && (escaped ==> inString)
      invariant if start == end then depth == 0 && !inString else depth >= 1
      invariant ScanBack(content, start, depth, inString, escaped) == MatchOf(content, end)
      decreases start
    {
      var ch := content[start];
      if inString {
        if escaped {
          escaped := false;
        } else if ch == BACKSLASH {
          escaped := true;
        } else if ch == QUOTE {
          inString := false;
        }
      } else if ch == RBRACE {
        depth := depth + 1;
      } else if ch == LBRACE {
        depth := depth - 1;
        if depth == 0 {
          return Some(start);
        }
      } else if ch == QUOTE {
        inString := true;
      }
      start := start - 1;
    }
    return None;
  }

  /** The object found is the parse of the brace-matched slice that ends at the rightmost closing brace whose slice
      parses. When there is none the answer is null, unless the text starts with a closing brace: then, and only
      then, the loop never ends. */
  method ExtractLastJsonObject<T>(content: Text, parse: Text -> Option<T>) returns (r: Outcome<T>)
    ensures r.Found? ==> exists end: nat :: Good(content, end, parse) && ParseAt(content, end, parse) == Some(r.value)
                                            && forall later: nat :: end < later ==> !Good(content, later, parse)
    ensures r.Nothing? || r.LoopsForever? ==> forall end: nat :: !Good(content, end, parse)
    ensures r.LoopsForever? <==> content != [] && content[0] == RBRACE && forall end: nat :: !Good(content, end, parse)
  {
    var end := LastBrace(content, |content| as int);
    while end != -1
      invariant -1 <= end < |content| && (end >= 0 ==> content[end] == RBRACE)
      invariant end == -1 ==> content == [] || content[0] != RBRACE
      invariant forall later: nat :: end < later ==> !Good(content, later, parse)
      decreases end
    {
      var open := FindOpen(content, end);
      if open.Some? {
        var value := parse(content[open.value..end + 1]);
        if value.Some? {
          assert Good(content, end, parse);
          return Found(value.value);
        }
      }
      assert !Good(content, end, parse);
      var next := LastBrace(content, end - 1);
      if next == end {
        // Nothing in the loop depends on anything but `end`: it comes back here for ever.
        NextOfZero(content);
        return LoopsForever;
      }
      end := next;
    }
    return Nothing;
  }

  /** One such text is a closing brace alone: nothing in it parses, and it starts with a closing brace. */
  lemma LoneBraceLoops<T>(parse: Text -> Option<T>)
    ensures var content := [RBRACE]; content[0] == RBRACE && forall end: nat :: !Good(content, end, parse)
  {
    var content := [RBRACE];
    assert ScanBack(content, -1, 1, false, false) == None;
    assert MatchOf(content, 0) == None;
  }

  lemma NextOfZero(content: Text)
    requires content != []
    ensures LastBrace(content, -1) == if content[0] == RBRACE then 0 else -1
  {}

  /** The brace the outer loop visits at its n-th turn, when nothing parses. */
  function Visited(content: Text, n: nat): int {
    if n == 0 then LastBrace(content, |content| as int) else LastBrace(content, Visited(content, n - 1) - 1)
  }

  /** A text that starts with a closing brace is never run through to the end. */
  lemma {:induction false} NeverRunsOut(content: Text, n: nat)
    requires content != [] && content[0] == RBRACE
    ensures Visited(content, n) >= 0
  {
    if n > 0 {
      NeverRunsOut(content, n - 1);
    }
  }

  /** Any other text is run through within its length. */
  lemma {:induction false} RunsOut(content: Text, n: nat)
    requires content == [] || content[0] != RBRACE
    ensures Visited(content, n) <= |content| - 1 - n || Visited(content, n) == -1
  {
    if n > 0 {
      RunsOut(content, n - 1);
    }
  }

  // ---- Texts without quotes -----------------------------------------------------------------------

  predicate QuoteFree(content: Text) {
    forall i :: 0 <= i < |content| ==> content[i] != QUOTE
  }

  /** Closing braces less opening braces from `start` to `end`. */
  function Depth(content: Text, start: nat, end: nat): int
    requires start <= end + 1 <= |content|
    decreases end + 1 - start
  {
    if start == end + 1 then 0
    else Depth(content, start + 1, end) + (if content[start] == RBRACE then 1 else if content[start] == LBRACE then -1 else 0)
  }

  /** Without quotes the scan is plain brace matching: it finds the nearest place from which the braces up to `end`
      balance. */
  lemma {:induction false} ScanIsMatching(content: Text, start: int, end: nat)
    requires QuoteFree(content) && -1 <= start <= end < |content| && content[end] == RBRACE
    requires forall t: nat :: start < t <= end ==> Depth(content, t, end) > 0
    ensures var open := ScanBack(content, start, Depth(content, start + 1, end), false, false);
            && (open.Some? ==> Depth(content, open.value, end) == 0 && forall t: nat :: open.value < t <= end ==> Depth(content, t, end) > 0)
            && (open.None? ==> forall t: nat :: t <= end ==> Depth(content, t, end) > 0)
    decreases start + 1
  {
    if start >= 0 {
      assert Depth(content, start, end) == Depth(content, start + 1, end)
        + if content[start] == RBRACE then 1 else if content[start] == LBRACE then -1 else 0;
      if content[start] != LBRACE || Depth(content, start + 1, end) > 1 {
        ScanIsMatching(content, start - 1, end);
      }
    }
  }

  /** On a quote-free text the matched slice is the shortest balanced one that ends at the brace, if there is one. */
  lemma QuoteFreeMatch(content: Text, end: nat)
    requires QuoteFree(content) && end < |content| && content[end] == RBRACE
    ensures var open := MatchOf(content, end);
            && (open.Some? ==> Depth(content, open.value, end) == 0 && forall t: nat :: open.value < t <= end ==> Depth(content, t, end) > 0)
            && (open.None? <==> forall t: nat :: t <= end ==> Depth(content, t, end) > 0)
  {
    ScanIsMatching(content, end, end);
  }
}
