/**
 The lexers the fidelity checks run first: they blank comments and literals so that positions
 stay put and only code is left to match against.
 */
module Masking {
  import opened Wrappers

  /** Same length, newlines where they were, and every other character kept or turned into a space. */
  ghost predicate Masks(text: string, out: string) {
    |out| == |text| && forall k :: 0 <= k < |text| ==>
      out[k] == text[k] || (out[k] == ' ' && text[k] != '\n')
  }

  function Blanked(s: string): (r: string)
    ensures |r| == |s| && forall k :: 0 <= k < |s| ==> r[k] == if s[k] == '\n' then '\n' else ' '
  {
    seq(|s|, k requires 0 <= k < |s| => if s[k] == '\n' then '\n' else ' ')
  }

  predicate StartsWith(text: string, i: nat, prefix: string) {
    i + |prefix| <= |text| && text[i..i + |prefix|] == prefix
  }

  /** Python's `find`: the first position from `i` on where `what` starts. */
  function Find(text: string, what: string, i: nat): (r: Option<nat>)
    ensures r.Some? ==> i <= r.value && StartsWith(text, r.value, what) && forall k :: i <= k < r.value ==> !StartsWith(text, k, what)
    ensures r.None? ==> forall k: nat :: i <= k ==> !StartsWith(text, k, what)
    decreases |text| + 1 - i
  {
    if i > |text| then None
    else if StartsWith(text, i, what) then Some(i)
    else Find(text, what, i + 1)
  }

  /** The end of the line `i` is on. */
  function LineEnd(text: string, i: nat): (j: nat)
    requires i <= |text|
    ensures i <= j <= |text|
  {
    var r := Find(text, "\n", i);
    if r.Some? then r.value else |text|
  }

  /** The index past the first `what` from `i` on, or the end of the text. */
  function Past(text: string, what: string, i: nat): (j: nat)
    requires i <= |text|
    ensures i <= j <= |text|
    ensures forall k :: i <= k && k + |what| < j ==> !StartsWith(text, k, what)
  {
    var r := Find(text, what, i);
    if r.Some? then r.value + |what| else |text|
  }

  // ----- nested comments and quoted strings ------------------------------------------

  /** Where `depth` open comments are all closed again, reading from `j`. */
  function BlockEnd(text: string, open: string, close: string, j: nat, depth: nat): (e: nat)
    requires j <= |text| && |open| == |close| == 2
    ensures j <= e <= |text|
    decreases |text| - j
  {
    if j >= |text| || depth == 0 then j
    else if StartsWith(text, j, open) then BlockEnd(text, open, close, j + 2, depth + 1)
    else if StartsWith(text, j, close) then BlockEnd(text, open, close, j + 2, depth - 1)
    else BlockEnd(text, open, close, j + 1, depth)
  }

  /** The openers less the closers in `text[j..k]`, read from the left, and `depth` more. */
  function DepthAt(text: string, open: string, close: string, j: nat, k: nat, depth: int): int
    requires |open| == |close| == 2
    decreases k - j
  {
    if j >= k then depth
    else if j + 2 <= k && StartsWith(text, j, open) then DepthAt(text, open, close, j + 2, k, depth + 1)
    else if j + 2 <= k && StartsWith(text, j, close) then DepthAt(text, open, close, j + 2, k, depth - 1)
    else DepthAt(text, open, close, j + 1, k, depth)
  }

  /** A comment is open at every position before its end, and closed there unless the text ends. */
  lemma {:induction false} BlockEndsWhereBalanced(text: string, open: string, close: string, j: nat, depth: nat)
    requires j <= |text| && |open| == |close| == 2 && depth > 0
    ensures var e := BlockEnd(text, open, close, j, depth);
      && (forall k :: j <= k < e ==> DepthAt(text, open, close, j, k, depth) > 0)
      && (DepthAt(text, open, close, j, e, depth) == 0 || (e == |text| && DepthAt(text, open, close, j, e, depth) > 0))
    decreases |text| - j
  {
    if j < |text| {
      if StartsWith(text, j, open) {
        BlockEndsWhereBalanced(text, open, close, j + 2, depth + 1);
        MarkIsWhole(text, open, close, j, depth);
      } else if StartsWith(text, j, close) {
        if depth > 1 {
          BlockEndsWhereBalanced(text, open, close, j + 2, depth - 1);
        }
        MarkIsWhole(text, open, close, j, depth);
      } else {
        BlockEndsWhereBalanced(text, open, close, j + 1, depth);
      }
    }
  }

  /** A mark counts from its second character on. */
  lemma MarkIsWhole(text: string, open: string, close: string, j: nat, depth: int)
    requires |open| == |close| == 2
    ensures DepthAt(text, open, close, j, j, depth) == DepthAt(text, open, close, j, j + 1, depth) == depth
  {
  }

  /** Where the string whose content starts at `j` ends. */
  function StringEnd(text: string, j: nat): (e: nat)
    ensures e <= |text| && (j <= |text| ==> j <= e) && (j < |text| ==> j < e)
    decreases |text| - j
  {
    if j >= |text| then |text|
    else if text[j] == '\\' then StringEnd(text, j + 2)
    else if text[j] == '"' then j + 1
    else StringEnd(text, j + 1)
  }

  /** How many backslashes in a row stand right before `k`, not counting those before `a`. */
  function Backslashes(text: string, a: nat, k: nat): nat
    requires k <= |text|
  {
    if k <= a || text[k - 1] != '\\' then 0 else 1 + Backslashes(text, a, k - 1)
  }

  /** A quote at `k` that no backslash from `a` on escapes. */
  predicate Closes(text: string, a: nat, k: nat) {
    k < |text| && text[k] == '"' && Backslashes(text, a, k) % 2 == 0
  }

  /** `e` is right past a closing quote, or at the end of a text that has none from `j` on. */
  predicate ClosedOrOpen(text: string, a: nat, j: nat, e: nat) {
    (e > 0 && Closes(text, a, e - 1)) || (e == |text| && forall k :: j <= k < |text| ==> !Closes(text, a, k))
  }

  lemma {:induction false} FirstUnescaped(text: string, a: nat, j: nat)
    requires a <= j && (j <= |text| ==> Backslashes(text, a, j) % 2 == 0)
    ensures forall k :: j <= k < StringEnd(text, j) - 1 ==> !Closes(text, a, k)
    ensures j < |text| ==> ClosedOrOpen(text, a, j, StringEnd(text, j))
    decreases |text| - j
  {
    if j < |text| {
      if text[j] == '\\' {
        if j + 1 < |text| {
          assert Backslashes(text, a, j + 1) == 1 + Backslashes(text, a, j);
          assert !Closes(text, a, j + 1);
          if j + 2 <= |text| {
            assert text[j + 1] == '\\' ==> Backslashes(text, a, j + 2) == 1 + Backslashes(text, a, j + 1);
          }
        }
        FirstUnescaped(text, a, j + 2);
      } else if text[j] != '"' {
        FirstUnescaped(text, a, j + 1);
      }
    }
  }

  /**
   A string ends right after the first quote an even number of backslashes stands before, or
   with the text if there is none.
   */
  lemma StringEndsAtFirstUnescaped(text: string, a: nat)
    requires a < |text|
    ensures forall k :: a <= k < StringEnd(text, a) - 1 ==> !Closes(text, a, k)
    ensures ClosedOrOpen(text, a, a, StringEnd(text, a))
  {
    FirstUnescaped(text, a, a);
  }

  // ----- Rust: what is blanked -------------------------------------------------------

  function Hashes(n: nat): (s: string)
    ensures |s| == n
  {
    seq(n, _ => '#')
  }

  function CountHashes(text: string, i: nat, end: nat): (n: nat)
    requires end <= |text|
    ensures i <= end ==> i + n <= end
    decreases end - i
  {
    if i < end && text[i] == '#' then 1 + CountHashes(text, i + 1, end) else 0
  }

  /** The end of the raw (byte) string that starts at `i`, if one does. */
  function RawEnd(text: string, i: nat): (r: Option<nat>)
    requires i < |text|
    ensures r.Some? ==> i < r.value <= |text|
  {
    var p := if text[i] == 'b' then i + 1 else i;
    if p >= |text| || text[p] != 'r' then None
    else
      var n := CountHashes(text, p + 1, |text|);
      if p + 1 + n >= |text| || text[p + 1 + n] != '"' then None
      else Some(Past(text, "\"" + Hashes(n), p + n + 2))
  }

  predicate IsHex(c: char) {
    '0' <= c <= '9' || 'a' <= c <= 'f' || 'A' <= c <= 'F'
  }

  /** How many characters of `text` from `i` on are hex digits or underscores, `limit` at most. */
  function HexRun(text: string, i: nat, limit: nat): (n: nat)
    ensures n <= limit && (n > 0 ==> i + n <= |text|)
    decreases limit
  {
    if limit == 0 || i >= |text| || !(IsHex(text[i]) || text[i] == '_') then 0
    else 1 + HexRun(text, i + 1, limit - 1)
  }

  /** The length of a character literal at `i`, or 0: a lifetime has no closing quote. */
  function CharLiteral(text: string, i: nat): (n: nat)
    ensures i + n <= |text| || n == 0
  {
    if !(i + 2 < |text| && text[i] == '\'') then 0
    else if text[i + 1] != '\'' && text[i + 1] != '\\' && text[i + 1] != '\n' then
      if text[i + 2] == '\'' then 3 else 0
    else if text[i + 1] == '\\' then
      if text[i + 2] != 'u' && text[i + 2] != '\n' then
        if i + 3 < |text| && text[i + 3] == '\'' then 4 else 0
      else if text[i + 2] == 'u' && i + 3 < |text| && text[i + 3] == '{' then
        var n := HexRun(text, i + 4, 6);
        if n >= 1 && i + 5 + n < |text| && text[i + 4 + n] == '}' && text[i + 5 + n] == '\'' then 6 + n else 0
      else 0
    else 0
  }

  /** The end of the comment or literal at `i`, if one starts there. */
  function RustToken(text: string, i: nat): (r: Option<nat>)
    requires i < |text|
    ensures r.Some? ==> i < r.value <= |text|
  {
    var c, next := text[i], if i + 1 < |text| then [text[i + 1]] else "";
    if c == '/' && next == "/" then Some(LineEnd(text, i + 2))
    else if c == '/' && next == "*" then Some(BlockEnd(text, "/*", "*/", i + 2, 1))
    else if (c == 'r' || c == 'b') && RawEnd(text, i).Some? then RawEnd(text, i)
    else if c == 'b' && next == "\"" then Some(StringEnd(text, i + 2))
    else if c == '"' then Some(StringEnd(text, i + 1))
    else if CharLiteral(text, i) > 0 then Some(i + CharLiteral(text, i))
    else None
  }

  /** `text` from `i` on, with its comments and literals blanked. */
  function RustMasked(text: string, i: nat): string
    requires i <= |text|
    decreases |text| - i
  {
    if i == |text| then ""
    else
      var r := RustToken(text, i);
      if r.Some? then Blanked(text[i..r.value]) + RustMasked(text, r.value)
      else [text[i]] + RustMasked(text, i + 1)
  }

  lemma {:induction false} RustMaskedMasks(text: string, i: nat)
    requires i <= |text|
    ensures Masks(text[i..], RustMasked(text, i))
    decreases |text| - i
  {
    if i < |text| {
      var r := RustToken(text, i);
      var j := if r.Some? then r.value else i + 1;
      RustMaskedMasks(text, j);
      assert text[i..] == text[i..j] + text[j..];
    }
  }

  /** A quote, or the slash that opens a comment. */
  ghost predicate Opens(s: string, k: nat) {
    k < |s| && (s[k] == '"' || (k + 1 < |s| && s[k] == '/' && (s[k + 1] == '/' || s[k + 1] == '*')))
  }

  lemma BlankedThen(b: string, tail: string)
    requires forall k: nat :: !Opens(tail, k)
    ensures forall k: nat :: !Opens(Blanked(b) + tail, k)
  {
    forall k: nat
      ensures !Opens(Blanked(b) + tail, k)
    {
      if k >= |b| {
        assert !Opens(tail, k - |b|);
      }
    }
  }

  lemma KeptThen(c: char, tail: string)
    requires forall k: nat :: !Opens(tail, k)
    requires c != '"' && (c == '/' && tail != "" ==> tail[0] != '/' && tail[0] != '*')
    ensures forall k: nat :: !Opens([c] + tail, k)
  {
    forall k: nat
      ensures !Opens([c] + tail, k)
    {
      if k > 0 {
        assert !Opens(tail, k - 1);
      }
    }
  }

  lemma {:induction false} RustMaskedIsCode(text: string, i: nat)
    requires i <= |text|
    ensures forall k: nat :: !Opens(RustMasked(text, i), k)
    decreases |text| - i
  {
    if i < |text| {
      var r := RustToken(text, i);
      if r.Some? {
        RustMaskedIsCode(text, r.value);
        BlankedThen(text[i..r.value], RustMasked(text, r.value));
      } else {
        RustMaskedIsCode(text, i + 1);
        NoTokenFollows(text, i);
        KeptThen(text[i], RustMasked(text, i + 1));
      }
    }
  }

  /** What is kept is no quote, and no slash before what would make it a comment. */
  lemma NoTokenFollows(text: string, i: nat)
    requires i < |text| && RustToken(text, i).None?
    ensures text[i] != '"'
    ensures var tail := RustMasked(text, i + 1);
      text[i] == '/' && tail != "" ==> tail[0] != '/' && tail[0] != '*'
  {
    RustMaskedMasks(text, i + 1);
    if i + 1 < |text| {
      assert text[i + 1..][0] == text[i + 1];
      assert text[i] == '/' ==> [text[i + 1]] != "/" && [text[i + 1]] != "*";
    }
  }

  // ----- Rust: masking twice ---------------------------------------------------------

  predicate SameAt(a: string, i: nat, b: string, j: nat, x: nat) {
    i + x < |a| && j + x < |b| && a[i + x] == b[j + x]
  }

  /** The same `n` characters stand in `a` from `i` on and in `b` from `j` on. */
  ghost predicate SameFor(a: string, i: nat, b: string, j: nat, n: nat) {
    forall x: nat :: x < n ==> SameAt(a, i, b, j, x)
  }

  lemma SameLater(a: string, i: nat, b: string, j: nat, n: nat, skip: nat)
    requires SameFor(a, i, b, j, n) && skip <= n
    ensures SameFor(a, i + skip, b, j + skip, n - skip)
  {
    var i', j' := i + skip, j + skip;
    forall x: nat | x < n - skip
      ensures SameAt(a, i', b, j', x)
    {
      assert SameAt(a, i, b, j, skip + x);
    }
  }

  lemma {:induction false} HexRunAgrees(a: string, i: nat, b: string, j: nat, limit: nat)
    requires SameFor(a, i, b, j, HexRun(a, i, limit) + 1)
    ensures HexRun(a, i, limit) == HexRun(b, j, limit)
    decreases limit
  {
    if limit > 0 {
      assert SameAt(a, i, b, j, 0);
      if IsHex(a[i]) || a[i] == '_' {
        SameLater(a, i, b, j, HexRun(a, i, limit) + 1, 1);
        HexRunAgrees(a, i + 1, b, j + 1, limit - 1);
      }
    }
  }

  /** A character literal is one wherever the same characters stand. */
  lemma LiteralAgrees(a: string, i: nat, b: string, j: nat)
    requires CharLiteral(a, i) > 0 && SameFor(a, i, b, j, CharLiteral(a, i))
    ensures CharLiteral(b, j) == CharLiteral(a, i)
  {
    var n := CharLiteral(a, i);
    assert SameAt(a, i, b, j, 0) && SameAt(a, i, b, j, 1) && SameAt(a, i, b, j, 2);
    if n > 3 {
      assert SameAt(a, i, b, j, 3);
    }
    if n > 6 {
      var run := HexRun(a, i + 4, 6);
      assert SameAt(a, i, b, j, 4 + run) && SameAt(a, i, b, j, 5 + run);
      SameLater(a, i, b, j, n, 4);
      HexRunAgrees(a, i + 4, b, j + 4, 6);
    }
  }

  /** A comment or literal is at least two characters long, or ends the text. */
  lemma TokensAreWide(text: string, i: nat)
    requires i < |text| && RustToken(text, i).Some?
    ensures RustToken(text, i).value >= i + 2 || RustToken(text, i).value == |text|
  {
  }

  predicate IsBlank(c: char) {
    c == ' ' || c == '\n'
  }

  /** The first character of what is masked was kept, or the first two are blank. */
  lemma FirstMasked(text: string, i: nat)
    requires i < |text|
    ensures var masked := RustMasked(text, i);
      && |masked| == |text| - i
      && (RustToken(text, i).None? ==> masked[0] == text[i] && masked[1..] == RustMasked(text, i + 1))
      && (RustToken(text, i).Some? ==> IsBlank(masked[0]) && (|masked| > 1 ==> IsBlank(masked[1])))
  {
    RustMaskedMasks(text, i);
    if RustToken(text, i).Some? {
      TokensAreWide(text, i);
    }
  }

  /** Where nothing was blanked, the same characters stand as before. */
  lemma NonBlankKept(text: string, i: nat, k: nat)
    requires i <= |text| && k < |RustMasked(text, i)| && !IsBlank(RustMasked(text, i)[k])
    ensures i + k < |text| && RustMasked(text, i)[k] == text[i + k]
  {
    RustMaskedMasks(text, i);
  }

  /** Where the character after a kept one is not blanked with another one, it was kept as well. */
  lemma SecondKept(text: string, i: nat)
    requires i < |text| && RustToken(text, i).None? && |RustMasked(text, i)| > 2
    requires !IsBlank(RustMasked(text, i)[2])
    ensures i + 1 < |text| && RustMasked(text, i)[1] == text[i + 1] && RustToken(text, i + 1).None?
  {
    FirstMasked(text, i);
    FirstMasked(text, i + 1);
    assert RustMasked(text, i)[1] == RustMasked(text, i + 1)[0] && RustMasked(text, i)[2] == RustMasked(text, i + 1)[1];
  }

  lemma ThirdKept(text: string, i: nat)
    requires i < |text| && RustToken(text, i).None? && |RustMasked(text, i)| > 3
    requires !IsBlank(RustMasked(text, i)[1]) && !IsBlank(RustMasked(text, i)[3])
    ensures i + 2 < |text| && RustMasked(text, i)[1] == text[i + 1] && RustMasked(text, i)[2] == text[i + 2]
  {
    FirstMasked(text, i);
    FirstMasked(text, i + 1);
    var masked, rest := RustMasked(text, i), RustMasked(text, i + 1);
    assert masked[1] == rest[0] && masked[2] == rest[1] && masked[3] == rest[2];
    SecondKept(text, i + 1);
  }

  /** The first three characters of what a literal would be were there before masking. */
  lemma LiteralStartKept(text: string, i: nat)
    requires i < |text| && RustToken(text, i).None? && CharLiteral(RustMasked(text, i), 0) > 0
    ensures SameFor(RustMasked(text, i), 0, text, i, 3)
  {
    var masked := RustMasked(text, i);
    FirstMasked(text, i);
    LiteralCharacters(masked, CharLiteral(masked, 0));
    if CharLiteral(masked, 0) > 3 {
      ThirdKept(text, i);
    } else {
      SecondKept(text, i);
      NonBlankKept(text, i, 2);
    }
  }

  /** A literal that masking would have to leave behind was one before. */
  lemma NoNewLiteral(text: string, i: nat)
    requires i < |text| && RustToken(text, i).None?
    ensures CharLiteral(RustMasked(text, i), 0) == 0
  {
    var masked := RustMasked(text, i);
    var n := CharLiteral(masked, 0);
    if n > 0 {
      LiteralCharacters(masked, n);
      LiteralStartKept(text, i);
      forall x: nat | x < n
        ensures SameAt(masked, 0, text, i, x)
      {
        if x >= 3 {
          NonBlankKept(text, i, x);
        }
      }
      LiteralAgrees(masked, 0, text, i);
    }
  }

  /** What a character literal at the start looks like: beyond the third character nothing blank. */
  lemma LiteralCharacters(s: string, n: nat)
    requires n == CharLiteral(s, 0) > 0
    ensures 3 <= n <= |s|
    ensures n == 3 ==> !IsBlank(s[2]) && s[1] != '\n'
    ensures n > 3 ==> !IsBlank(s[1]) && !IsBlank(s[3])
    ensures forall x :: 3 <= x < n ==> !IsBlank(s[x])
  {
    if n > 4 {
      HexRunIsHex(s, 4, 6);
    }
  }

  lemma {:induction false} HexRunIsHex(s: string, i: nat, limit: nat)
    ensures forall x :: i <= x < i + HexRun(s, i, limit) ==> x < |s| && (IsHex(s[x]) || s[x] == '_')
    decreases limit
  {
    if HexRun(s, i, limit) > 0 {
      HexRunIsHex(s, i + 1, limit - 1);
    }
  }

  lemma RawStringHasQuote(s: string, k: nat)
    requires k < |s|
    ensures RawEnd(s, k).Some? ==> exists x: nat :: Opens(s, x)
  {
    var p := if s[k] == 'b' then k + 1 else k;
    if RawEnd(s, k).Some? {
      assert Opens(s, p + 1 + CountHashes(s, p + 1, |s|));
    }
  }

  /** Code that opens nothing can only be read as a character literal. */
  lemma OnlyLiterals(s: string, k: nat)
    requires k < |s| && (forall x: nat :: !Opens(s, x)) && CharLiteral(s, k) == 0
    ensures RustToken(s, k).None?
  {
    assert !Opens(s, k) && !Opens(s, k + 1);
    RawStringHasQuote(s, k);
  }

  /** Dropping what comes before changes no literal. */
  lemma LiteralLater(s: string, rest: string, d: nat, k: nat)
    requires d <= k && d <= |s| && rest == s[d..] && CharLiteral(rest, k - d) == 0
    ensures CharLiteral(s, k) == 0
  {
    var k' := k - d;
    if CharLiteral(s, k) > 0 {
      forall x: nat | x < CharLiteral(s, k)
        ensures SameAt(s, k, rest, k', x)
      {
        assert rest[k' + x] == s[d + (k' + x)];
      }
      LiteralAgrees(s, k, rest, k');
    }
  }

  /** What follows the first token or character is masked by itself. */
  lemma TailMasked(text: string, i: nat)
    requires i < |text|
    ensures var j := if RustToken(text, i).Some? then RustToken(text, i).value else i + 1;
      j - i <= |RustMasked(text, i)| && RustMasked(text, i)[j - i..] == RustMasked(text, j)
  {
  }

  lemma {:induction false} NoLiteralLeft(text: string, i: nat, k: nat)
    requires i <= |text| && k < |RustMasked(text, i)|
    ensures CharLiteral(RustMasked(text, i), k) == 0
    decreases |text| - i
  {
    var r := RustToken(text, i);
    var j := if r.Some? then r.value else i + 1;
    if k >= j - i {
      TailMasked(text, i);
      RustMaskedMasks(text, i);
      NoLiteralLeft(text, j, k - (j - i));
      LiteralLater(RustMasked(text, i), RustMasked(text, j), j - i, k);
    } else if r.None? {
      NoNewLiteral(text, i);
    } else {
      assert IsBlank(RustMasked(text, i)[k]);
    }
  }

  lemma {:induction false} NothingToMask(s: string, k: nat)
    requires k <= |s| && forall x :: 0 <= x < |s| ==> RustToken(s, x).None?
    ensures RustMasked(s, k) == s[k..]
    decreases |s| - k
  {
    if k < |s| {
      NothingToMask(s, k + 1);
    }
  }

  /** Masking twice is masking once. */
  lemma MaskingIsIdempotent(text: string)
    ensures RustMasked(RustMasked(text, 0), 0) == RustMasked(text, 0)
  {
    var masked := RustMasked(text, 0);
    RustMaskedIsCode(text, 0);
    forall k | 0 <= k < |masked|
      ensures RustToken(masked, k).None?
    {
      NoLiteralLeft(text, 0, k);
      OnlyLiterals(masked, k);
    }
    NothingToMask(masked, 0);
  }

  // ----- Rust: the program -----------------------------------------------------------

  /** The index past a raw (byte) string starting at `i`, or 0 if there is none. */
  method RawStringAt(text: string, i: nat) returns (j: nat)
    requires i < |text|
    ensures j == if RawEnd(text, i).Some? then RawEnd(text, i).value else 0
  {
    var p := i;
    if text[p] == 'b' {
      p := p + 1;
    }
    if p >= |text| || text[p] != 'r' {
      return 0;
    }
    p := p + 1;
    ghost var first := p;
    var hashes := 0;
    while p < |text| && text[p] == '#'
      invariant p == first + hashes <= |text|
      invariant CountHashes(text, first, |text|) == hashes + CountHashes(text, p, |text|)
    {
      hashes := hashes + 1;
      p := p + 1;
    }
    if p >= |text| || text[p] != '"' {
      return 0;
    }
    j := Past(text, "\"" + Hashes(hashes), p + 1);
  }

  /** The index past the string opened by the quote at `i`, honouring backslashes. */
  method SkipQuoted(text: string, i: nat) returns (j: nat)
    requires i < |text|
    ensures j == StringEnd(text, i + 1)
  {
    j := i + 1;
    while j < |text|
      invariant StringEnd(text, j) == StringEnd(text, i + 1)
      decreases |text| - j
    {
      if text[j] == '\\' {
        j := j + 2;
      } else if text[j] == '"' {
        return j + 1;
      } else {
        j := j + 1;
      }
    }
    j := |text|;
  }

  /** The end of the nested block comment opened at `i`. */
  method BlockCommentEnd(text: string, i: nat, open: string, close: string) returns (j: nat)
    requires i + 2 <= |text| && |open| == |close| == 2
    ensures j == BlockEnd(text, open, close, i + 2, 1)
  {
    var depth := 1;
    j := i + 2;
    while j < |text| && depth > 0
      invariant j <= |text|
      invariant BlockEnd(text, open, close, j, depth) == BlockEnd(text, open, close, i + 2, 1)
      decreases |text| - j
    {
      if StartsWith(text, j, open) {
        depth, j := depth + 1, j + 2;
      } else if StartsWith(text, j, close) {
        depth, j := depth - 1, j + 2;
      } else {
        j := j + 1;
      }
    }
  }

  /** `blank(a, b)`: spaces from `a` to `b`, line breaks kept. */
  method Blank(out: array<char>, a: nat, b: nat)
    requires a <= b <= out.Length
    modifies out
    ensures out[..] == old(out[..])[..a] + Blanked(old(out[..])[a..b]) + old(out[..])[b..]
  {
    for k := a to b
      invariant forall x :: 0 <= x < out.Length ==>
        out[x] == if a <= x < k && old(out[x]) != '\n' then ' ' else old(out[x])
    {
      if out[k] != '\n' {
        out[k] := ' ';
      }
    }
  }

  /** The end of the comment or literal at `i`, or 0 if none starts there. */
  method TokenEnd(text: string, i: nat) returns (j: nat)
    requires i < |text|
    ensures j == if RustToken(text, i).Some? then RustToken(text, i).value else 0
  {
    var c, next := text[i], if i + 1 < |text| then [text[i + 1]] else "";
    if c == '/' && next == "/" {
      return LineEnd(text, i + 2);
    } else if c == '/' && next == "*" {
      j := BlockCommentEnd(text, i, "/*", "*/");
      return;
    } else if c == 'r' || c == 'b' {
      j := RawStringAt(text, i);
      if j > 0 {
        return;
      }
    }
    if c == 'b' && next == "\"" {
      j := SkipQuoted(text, i + 1);
    } else if c == '"' {
      j := SkipQuoted(text, i);
    } else {
      j := if CharLiteral(text, i) > 0 then i + CharLiteral(text, i) else 0;
    }
  }

  /**
   `mask_rust`: blanks exactly the comments and literals, in place. Positions never move, and in
   what is left no string opens and no comment begins anywhere, so a search sees code only.
   */
  method MaskRust(text: string) returns (masked: string)
    ensures masked == RustMasked(text, 0)
    ensures Masks(text, masked) && forall k: nat :: !Opens(masked, k)
  {
    var out := new char[|text|](k requires 0 <= k < |text| => text[k]);
    var i, n := 0, |text|;
    ghost var done := "";
    assert out[..] == text;
    while i < n
      invariant i <= n == out.Length && Progress(text, done, i, out[..])
      decreases n - i
    {
      var j := TokenEnd(text, i);
      if j > 0 {
        BlankToken(text, done, i, out[..]);
        Blank(out, i, j);
        done := done + Blanked(text[i..j]);
        i := j;
      } else {
        KeepOne(text, done, i, out[..]);
        done := done + [text[i]];
        i := i + 1;
      }
    }
    masked := out[..];
    assert masked == done && RustMasked(text, 0) == done;
    assert text[0..] == text;
    RustMaskedMasks(text, 0);
    RustMaskedIsCode(text, 0);
  }

  /** The text is masked up to `i`, as `done`, and untouched from there. */
  ghost predicate Progress(text: string, done: string, i: nat, all: seq<char>) {
    i == |done| <= |text| && all == done + text[i..] && RustMasked(text, 0) == done + RustMasked(text, i)
  }

  lemma Splice(text: string, done: string, i: nat, j: nat)
    requires i == |done| <= j <= |text|
    ensures var all := done + text[i..]; all[..i] == done && all[i..j] == text[i..j] && all[j..] == text[j..]
  {
  }

  lemma Join(a: string, b: string, c: string)
    ensures a + (b + c) == a + b + c
  {
  }

  lemma BlankToken(text: string, done: string, i: nat, all: seq<char>)
    requires i < |text| && Progress(text, done, i, all) && RustToken(text, i).Some?
    ensures |all| == |text|
    ensures var j := RustToken(text, i).value;
      Progress(text, done + Blanked(text[i..j]), j, all[..i] + Blanked(all[i..j]) + all[j..])
  {
    var j := RustToken(text, i).value;
    Splice(text, done, i, j);
    Join(done, Blanked(text[i..j]), RustMasked(text, j));
  }

  lemma KeepOne(text: string, done: string, i: nat, all: seq<char>)
    requires i < |text| && Progress(text, done, i, all) && RustToken(text, i).None?
    ensures Progress(text, done + [text[i]], i + 1, all)
  {
    assert text[i..] == [text[i]] + text[i + 1..];
    Join(done, [text[i]], text[i + 1..]);
    Join(done, [text[i]], RustMasked(text, i + 1));
  }

  // ----- Lean: what is blanked -------------------------------------------------------

  /** The number of `#` between an `r` at `i` and a quote, if the quote lies before `end`. */
  function RawHashes(src: string, i: nat, end: nat): (r: Option<nat>)
    requires end <= |src|
    ensures r.Some? ==> i + 1 + r.value < end
  {
    if !(i < end && src[i] == 'r') then None
    else
      var n := CountHashes(src, i + 1, end);
      if i + 1 + n < end && src[i + 1 + n] == '"' then Some(n) else None
  }

  function CountHex(src: string, i: nat, end: nat): nat
    requires end <= |src|
    decreases end - i
  {
    if i < end && IsHex(src[i]) then 1 + CountHex(src, i + 1, end) else 0
  }

  /** The character at `i` is `c`, before `end`. */
  predicate At(src: string, i: nat, end: nat, c: char)
    requires end <= |src|
  {
    i < end && src[i] == c
  }

  /** The length of a Lean character literal at `i` that ends before `end`, or 0. */
  function LeanChar(src: string, i: nat, end: nat): (n: nat)
    requires end <= |src|
    ensures n > 0 ==> i + n <= end
  {
    if !(i + 2 < end && src[i] == '\'') then 0
    else if src[i + 1] == '\\' then
      var h := CountHex(src, i + 4, end);
      if src[i + 2] == 'x' && i + 4 < end && IsHex(src[i + 3]) && IsHex(src[i + 4]) && At(src, i + 5, end, '\'') then 6
      else if src[i + 2] == 'u' && At(src, i + 3, end, '{') && h >= 1 &&
              At(src, i + 4 + h, end, '}') && At(src, i + 5 + h, end, '\'') then 6 + h
      else if src[i + 2] != '\n' && At(src, i + 3, end, '\'') then 4
      else 0
    else if src[i + 1] != '\'' && src[i + 1] != '\n' && src[i + 2] == '\'' then 3
    else 0
  }

  function MinNat(a: nat, b: nat): nat {
    if a < b then a else b
  }

  predicate IdentChar(alnum: char -> bool, c: char) {
    alnum(c) || c == '_' || c == '\'' || c == '!' || c == '?'
  }

  /**
   Whether what comes before `i` counts as an identifier character. At the very start the
   previous character is the empty string, which Python finds in every string: it counts.
   */
  predicate AfterIdent(src: string, alnum: char -> bool, i: nat)
    requires i <= |src|
  {
    i == 0 || IdentChar(alnum, src[i - 1])
  }

  /** A stretch that is kept or blanked as a whole. */
  datatype Piece = Piece(end: nat, kept: bool)

  /** The raw string at `i`, unless an identifier ends before it. */
  function RawPiece(src: string, alnum: char -> bool, i: nat): (r: Option<Piece>)
    requires i < |src|
    ensures r.Some? ==> i < r.value.end <= |src| && !r.value.kept
  {
    var raw := RawHashes(src, i, MinNat(|src|, i + 300));
    if !AfterIdent(src, alnum, i) && raw.Some? then
      Some(Piece(Past(src, "\"" + Hashes(raw.value), i + 2 + raw.value), false))
    else None
  }

  /** The character literal at `i`, unless an identifier ends before it. */
  function CharPiece(src: string, alnum: char -> bool, i: nat): (r: Option<Piece>)
    requires i < |src|
    ensures r.Some? ==> i < r.value.end <= |src| && !r.value.kept
  {
    var n := LeanChar(src, i, MinNat(|src|, i + 16));
    if !AfterIdent(src, alnum, i) && n > 0 then Some(Piece(i + n, false)) else None
  }

  /** The comment, quoted identifier, raw string or character literal at `i`, if there is one. */
  function LeanPiece(src: string, alnum: char -> bool, i: nat): (r: Option<Piece>)
    requires i < |src|
    ensures r.Some? ==> i < r.value.end <= |src|
  {
    if StartsWith(src, i, "--") then Some(Piece(LineEnd(src, i + 2), false))
    else if StartsWith(src, i, "/-") then Some(Piece(BlockEnd(src, "/-", "-/", i + 2, 1), false))
    else if src[i] == '«' then Some(Piece(Past(src, "»", i + 1), true))
    else if src[i] == 'r' then RawPiece(src, alnum, i)
    else if src[i] == '\'' then CharPiece(src, alnum, i)
    else None
  }

  function PieceText(src: string, i: nat, p: Piece): string
    requires i <= p.end <= |src|
  {
    if p.kept then src[i..p.end] else Blanked(src[i..p.end])
  }

  /** What looks like a raw string is one exactly if a character stands before it that is no identifier's. */
  lemma RawStringIff(src: string, alnum: char -> bool, i: nat)
    requires i < |src| && RawHashes(src, i, MinNat(|src|, i + 300)).Some?
    ensures LeanPiece(src, alnum, i).Some? <==> i > 0 && !IdentChar(alnum, src[i - 1])
  {
    StartsApart(src, i);
  }

  /** The same of a character literal. */
  lemma CharLiteralIff(src: string, alnum: char -> bool, i: nat)
    requires i < |src| && LeanChar(src, i, MinNat(|src|, i + 16)) > 0
    ensures LeanPiece(src, alnum, i).Some? <==> i > 0 && !IdentChar(alnum, src[i - 1])
  {
    StartsApart(src, i);
  }

  lemma StartsApart(src: string, i: nat)
    requires i < |src| && src[i] != '-' && src[i] != '/'
    ensures !StartsWith(src, i, "--") && !StartsWith(src, i, "/-")
  {
    if i + 2 <= |src| {
      assert src[i..i + 2][0] == src[i];
    }
  }

  /** An identifier ending in `!` right before the quote makes the string interpolated. */
  predicate Interpolated(src: string, alnum: char -> bool, i: nat)
    requires i <= |src|
  {
    i >= 2 && src[i - 1] == '!' && IdentChar(alnum, src[i - 2])
  }

  /** What starts where in a source: the pieces, and whether a string is interpolated. */
  datatype Lexicon = Lexicon(pieceAt: nat -> Option<Piece>, interpolatedAt: nat -> bool)

  ghost predicate Fits(src: string, lex: Lexicon) {
    forall i: nat :: i < |src| && lex.pieceAt(i).Some? ==>
      i < lex.pieceAt(i).value.end <= |src| && (lex.pieceAt(i).value.kept ==> Guillemets(src, i, lex.pieceAt(i).value.end))
  }

  /** A guillemet opens at `g`, and none closes before the character at `end - 1`. */
  ghost predicate Guillemets(src: string, g: nat, end: nat) {
    g < end <= |src| && src[g] == '«' && forall x :: g < x < end - 1 ==> src[x] != '»'
  }

  /** A guillemet opens at `g`, and none closes between there and `k`. */
  ghost predicate Encloses(src: string, g: nat, k: nat) {
    g < k < |src| && src[g] == '«' && forall x :: g < x < k ==> src[x] != '»'
  }

  /** Of `src` from `i` on, `out` keeps a guillemet at `g` and all that follows it up to `k`, none closing. */
  ghost predicate KeptFrom(src: string, i: nat, out: string, g: nat, k: nat) {
    g <= k < |out| && Encloses(src, i + g, i + k) && forall x :: g <= x <= k ==> out[x] == src[i + x]
  }

  /** The character at `k` of `out` is part of an identifier in guillemets that is kept. */
  ghost predicate InGuillemets(src: string, i: nat, out: string, k: nat) {
    exists g :: KeptFrom(src, i, out, g, k)
  }

  lemma KeptInGuillemets(src: string, alnum: char -> bool, i: nat)
    requires i < |src| && LeanPiece(src, alnum, i).Some? && LeanPiece(src, alnum, i).value.kept
    ensures Guillemets(src, i, LeanPiece(src, alnum, i).value.end)
  {
    forall x | i < x < Past(src, "»", i + 1) - 1
      ensures src[x] != '»'
    {
      assert !StartsWith(src, x, "»");
      assert src[x..x + 1] == [src[x]];
    }
  }

  lemma LexiconFits(src: string, alnum: char -> bool)
    ensures forall i: nat :: i < |src| && LeanPiece(src, alnum, i).Some? && LeanPiece(src, alnum, i).value.kept ==>
      Guillemets(src, i, LeanPiece(src, alnum, i).value.end)
  {
    forall i: nat | i < |src| && LeanPiece(src, alnum, i).Some? && LeanPiece(src, alnum, i).value.kept
      ensures Guillemets(src, i, LeanPiece(src, alnum, i).value.end)
    {
      KeptInGuillemets(src, alnum, i);
    }
  }

  function LexiconOf(src: string, alnum: char -> bool): (lex: Lexicon)
    ensures Fits(src, lex)
  {
    LexiconFits(src, alnum);
    Lexicon((i: nat) => if i < |src| then LeanPiece(src, alnum, i) else None,
            (i: nat) => i <= |src| && Interpolated(src, alnum, i))
  }

  // ----- Lean: how code and strings nest ---------------------------------------------

  /** What lexing has written, and where it has stopped. */
  datatype Lexed = Lexed(out: string, i: nat)

  function Prepend(s: string, r: Lexed): Lexed {
    Lexed(s + r.out, r.i)
  }

  /** Code from `i` on with `depth` braces open; a hole ends before the brace that closes it. */
  function CodeFrom(src: string, lex: Lexicon, i: nat, depth: nat, inHole: bool): (r: Lexed)
    requires i <= |src| && Fits(src, lex)
    ensures i <= r.i <= |src|
    decreases |src| - i, 3
  {
    if i == |src| then Lexed("", i)
    else
      var t := Token(src, lex, i);
      if t.Some? then Prepend(t.value.out, CodeFrom(src, lex, t.value.i, depth, inHole))
      else if inHole && src[i] == '}' && depth == 0 then Lexed("", i)
      else Prepend([src[i]], CodeFrom(src, lex, i + 1, BraceDepth(src[i], depth), inHole))
  }

  function BraceDepth(c: char, depth: nat): nat {
    if c == '{' then depth + 1 else if c == '}' && depth > 0 then depth - 1 else depth
  }

  /** The piece or string at `i`, if one starts there. */
  function Token(src: string, lex: Lexicon, i: nat): (r: Option<Lexed>)
    requires i < |src| && Fits(src, lex)
    ensures r.Some? ==> i < r.value.i <= |src|
    decreases |src| - i, 2
  {
    var p := lex.pieceAt(i);
    if p.Some? then Some(Lexed(PieceText(src, i, p.value), p.value.end))
    else if src[i] == '"' then Some(Prepend(" ", Inside(src, lex, i + 1, lex.interpolatedAt(i))))
    else None
  }

  /** The rest of a string, up to and with its closing quote. */
  function Inside(src: string, lex: Lexicon, i: nat, interpolated: bool): (r: Lexed)
    requires i <= |src| && Fits(src, lex)
    ensures i <= r.i <= |src|
    decreases |src| - i, 1
  {
    if i == |src| then Lexed("", i)
    else if src[i] == '"' then Lexed(" ", i + 1)
    else
      var s := Segment(src, lex, i, interpolated);
      Prepend(s.out, Inside(src, lex, s.i, interpolated))
  }

  /** One segment of a string: an escape, a hole that is code, or a blanked character. */
  function Segment(src: string, lex: Lexicon, i: nat, interpolated: bool): (r: Lexed)
    requires i < |src| && Fits(src, lex)
    ensures i < r.i <= |src|
    decreases |src| - i, 0
  {
    if src[i] == '\\' then
      var j := MinNat(i + 2, |src|);
      Lexed(Blanked(src[i..j]), j)
    else if src[i] == '{' && interpolated then
      CloseHole(src, CodeFrom(src, lex, i + 1, 0, true))
    else if src[i] == '{' && PlainHole(src, i + 1).Some? then
      var j := PlainHole(src, i + 1).value;
      Lexed(src[i..j], j)
    else Lexed(Blanked(src[i..i + 1]), i + 1)
  }

  /** A hole with its braces; the closing one may be missing at the end. */
  function CloseHole(src: string, hole: Lexed): Lexed
    requires hole.i <= |src|
  {
    if hole.i == |src| then Prepend("{", hole) else Lexed("{" + hole.out + [src[hole.i]], hole.i + 1)
  }

  /** The end of a hole without quotes, braces or backslashes that opens at `j - 1`, if it closes. */
  function PlainHole(src: string, j: nat): (r: Option<nat>)
    requires j <= |src|
    ensures r.Some? ==> j < r.value <= |src| && forall k :: j <= k < r.value ==> src[k] != '"'
    decreases |src| - j
  {
    if j == |src| || src[j] == '"' || src[j] == '{' || src[j] == '\\' then None
    else if src[j] == '}' then Some(j + 1)
    else PlainHole(src, j + 1)
  }

  /** A raw string that holds a backslash, and code after it. */
  const RAW_THEN_CODE := "r\"\\\"x"

  /** At the start of a source the raw string is not seen, and the code is lost with it. */
  lemma StartHidesCode(alnum: char -> bool)
    ensures CodeFrom(RAW_THEN_CODE, LexiconOf(RAW_THEN_CODE, alnum), 0, 0, false).out == "r    "
  {
    var src, lex := RAW_THEN_CODE, LexiconOf(RAW_THEN_CODE, alnum);
    StartsApart(src, 0);
    StartsApart(src, 1);
    assert lex.pieceAt(0) == LeanPiece(src, alnum, 0) == None;
    assert lex.pieceAt(1) == LeanPiece(src, alnum, 1) == None && !lex.interpolatedAt(1);
    assert Segment(src, lex, 4, false) == Lexed(Blanked(src[4..5]), 5);
    assert Segment(src, lex, 2, false) == Lexed(Blanked(src[2..4]), 4);
    assert Inside(src, lex, 4, false) == Lexed(" ", 5);
    assert Inside(src, lex, 2, false) == Lexed("   ", 5);
    assert " " + "   " == "    ";
    assert Token(src, lex, 1) == Some(Lexed("    ", 5));
    assert CodeFrom(src, lex, 1, 0, false) == Lexed("    ", 5);
  }

  /** One character later it is seen, and the code is kept. */
  lemma SpaceShowsCode(alnum: char -> bool)
    requires !alnum(' ')
    ensures CodeFrom(" " + RAW_THEN_CODE, LexiconOf(" " + RAW_THEN_CODE, alnum), 0, 0, false).out == "     x"
  {
    var src, lex := " " + RAW_THEN_CODE, LexiconOf(" " + RAW_THEN_CODE, alnum);
    StartsApart(src, 0);
    StartsApart(src, 1);
    StartsApart(src, 5);
    assert lex.pieceAt(0) == LeanPiece(src, alnum, 0) == None;
    assert CountHashes(src, 2, 6) == 0;
    assert RawHashes(src, 1, 6) == Some(0);
    assert src[3..4] == [src[3]] && src[4..5] == [src[4]];
    assert StartsWith(src, 4, "\"") && !StartsWith(src, 3, "\"");
    assert "\"" + Hashes(0) == "\"" && Find(src, "\"", 3) == Some(4);
    assert Past(src, "\"" + Hashes(0), 3) == 5;
    assert lex.pieceAt(1) == LeanPiece(src, alnum, 1) == Some(Piece(5, false));
    assert lex.pieceAt(5) == LeanPiece(src, alnum, 5) == None;
    assert CodeFrom(src, lex, 5, 0, false) == Lexed("x", 6);
    assert Token(src, lex, 1) == Some(Lexed(Blanked(src[1..5]), 5));
    assert CodeFrom(src, lex, 1, 0, false) == Lexed("    x", 6);
  }

  // ----- Lean: what that leaves ------------------------------------------------------

  /** `r` masks `src` from `i` on, and the only string quotes it has are in guillemets it keeps. */
  ghost predicate Clean(src: string, i: nat, r: Lexed) {
    && i <= r.i <= |src| && |r.out| == r.i - i
    && (forall k :: 0 <= k < |r.out| ==> r.out[k] == src[i + k] || (r.out[k] == ' ' && src[i + k] != '\n'))
    && (forall k :: 0 <= k < |r.out| && r.out[k] == '"' ==> InGuillemets(src, i, r.out, k))
  }

  lemma CleanJoin(src: string, i: nat, a: Lexed, b: Lexed)
    requires Clean(src, i, a) && Clean(src, a.i, b)
    ensures Clean(src, i, Prepend(a.out, b))
  {
    var out, n := a.out + b.out, |a.out|;
    forall k | 0 <= k < |out| && out[k] == '"'
      ensures InGuillemets(src, i, out, k)
    {
      if k < n {
        var g :| KeptFrom(src, i, a.out, g, k);
        assert KeptFrom(src, i, out, g, k);
      } else {
        var g :| KeptFrom(src, a.i, b.out, g, k - n);
        KeptLater(src, i, a.out, b.out, g, k - n);
      }
    }
  }

  lemma KeptLater(src: string, i: nat, a: string, b: string, g: nat, k: nat)
    requires KeptFrom(src, i + |a|, b, g, k)
    ensures KeptFrom(src, i, a + b, |a| + g, |a| + k)
  {
    forall x | |a| + g <= x <= |a| + k
      ensures (a + b)[x] == src[i + x]
    {
      assert b[x - |a|] == src[i + |a| + (x - |a|)];
    }
  }

  /** Lexing code moves nothing and leaves no quote, however holes and strings nest. */
  lemma {:induction false} CodeIsClean(src: string, lex: Lexicon, i: nat, depth: nat, inHole: bool)
    requires i <= |src| && Fits(src, lex)
    ensures Clean(src, i, CodeFrom(src, lex, i, depth, inHole))
    decreases |src| - i, 3
  {
    if i < |src| {
      var t := Token(src, lex, i);
      if t.Some? {
        TokenIsClean(src, lex, i);
        CodeIsClean(src, lex, t.value.i, depth, inHole);
        CleanJoin(src, i, t.value, CodeFrom(src, lex, t.value.i, depth, inHole));
      } else if !(inHole && src[i] == '}' && depth == 0) {
        CodeIsClean(src, lex, i + 1, BraceDepth(src[i], depth), inHole);
        CleanJoin(src, i, Lexed([src[i]], i + 1), CodeFrom(src, lex, i + 1, BraceDepth(src[i], depth), inHole));
      }
    }
  }

  lemma PieceIsClean(src: string, i: nat, p: Piece)
    requires i < p.end <= |src| && (p.kept ==> Guillemets(src, i, p.end))
    ensures Clean(src, i, Lexed(PieceText(src, i, p), p.end))
  {
    var out := PieceText(src, i, p);
    forall k | 0 <= k < |out| && out[k] == '"'
      ensures InGuillemets(src, i, out, k)
    {
      assert KeptFrom(src, i, out, 0, k);
    }
  }

  lemma {:induction false} TokenIsClean(src: string, lex: Lexicon, i: nat)
    requires i < |src| && Fits(src, lex) && Token(src, lex, i).Some?
    ensures Clean(src, i, Token(src, lex, i).value)
    decreases |src| - i, 2
  {
    var p := lex.pieceAt(i);
    if p.Some? {
      PieceIsClean(src, i, p.value);
    } else {
      var rest := Inside(src, lex, i + 1, lex.interpolatedAt(i));
      InsideIsClean(src, lex, i + 1, lex.interpolatedAt(i));
      CleanJoin(src, i, Lexed(" ", i + 1), rest);
    }
  }

  lemma {:induction false} InsideIsClean(src: string, lex: Lexicon, i: nat, interpolated: bool)
    requires i <= |src| && Fits(src, lex)
    ensures Clean(src, i, Inside(src, lex, i, interpolated))
    decreases |src| - i, 1
  {
    if i < |src| && src[i] != '"' {
      var s := Segment(src, lex, i, interpolated);
      SegmentIsClean(src, lex, i, interpolated);
      InsideIsClean(src, lex, s.i, interpolated);
      CleanJoin(src, i, s, Inside(src, lex, s.i, interpolated));
    }
  }

  lemma {:induction false} SegmentIsClean(src: string, lex: Lexicon, i: nat, interpolated: bool)
    requires i < |src| && Fits(src, lex) && src[i] != '"'
    ensures Clean(src, i, Segment(src, lex, i, interpolated))
    decreases |src| - i, 0
  {
    if src[i] == '\\' {
      BlankedIsClean(src, i, MinNat(i + 2, |src|));
    } else if src[i] == '{' && interpolated {
      CodeIsClean(src, lex, i + 1, 0, true);
      HoleEnd(src, lex, i + 1, 0);
      HoleIsClean(src, i, CodeFrom(src, lex, i + 1, 0, true));
    } else if src[i] == '{' && PlainHole(src, i + 1).Some? {
      PlainHoleIsClean(src, i, PlainHole(src, i + 1).value);
    } else {
      BlankedIsClean(src, i, i + 1);
    }
  }

  lemma BlankedIsClean(src: string, i: nat, j: nat)
    requires i <= j <= |src|
    ensures Clean(src, i, Lexed(Blanked(src[i..j]), j))
  {
  }

  lemma PlainHoleIsClean(src: string, i: nat, j: nat)
    requires i <= j <= |src| && forall k :: i <= k < j ==> src[k] != '"'
    ensures Clean(src, i, Lexed(src[i..j], j))
  {
  }

  lemma HoleIsClean(src: string, i: nat, hole: Lexed)
    requires i < |src| && src[i] == '{' && Clean(src, i + 1, hole) && (hole.i < |src| ==> src[hole.i] == '}')
    ensures Clean(src, i, CloseHole(src, hole))
  {
    CleanJoin(src, i, Lexed("{", i + 1), hole);
    if hole.i < |src| {
      CleanJoin(src, i, Prepend("{", hole), Lexed([src[hole.i]], hole.i + 1));
    }
  }

  /** A hole ends with the text or before the brace that closes it. */
  lemma {:induction false} HoleEnd(src: string, lex: Lexicon, i: nat, depth: nat)
    requires i <= |src| && Fits(src, lex)
    ensures var r := CodeFrom(src, lex, i, depth, true); r.i < |src| ==> src[r.i] == '}'
    decreases |src| - i
  {
    if i < |src| {
      var t := Token(src, lex, i);
      if t.Some? {
        HoleEnd(src, lex, t.value.i, depth);
      } else if !(src[i] == '}' && depth == 0) {
        HoleEnd(src, lex, i + 1, BraceDepth(src[i], depth));
      }
    }
  }

  /** Outside a hole the lexer reads everything. */
  lemma {:induction false} CodeReadsAll(src: string, lex: Lexicon, i: nat, depth: nat)
    requires i <= |src| && Fits(src, lex)
    ensures CodeFrom(src, lex, i, depth, false).i == |src|
    decreases |src| - i
  {
    if i < |src| {
      var t := Token(src, lex, i);
      if t.Some? {
        CodeReadsAll(src, lex, t.value.i, depth);
      } else {
        CodeReadsAll(src, lex, i + 1, BraceDepth(src[i], depth));
      }
    }
  }

  // ----- Lean: the program -----------------------------------------------------------

  lemma PrependJoin(a: string, b: string, r: Lexed)
    ensures Prepend(a, Prepend(b, r)) == Prepend(a + b, r)
  {
    assert a + (b + r.out) == a + b + r.out;
  }

  lemma HoleJoin(src: string, a: string, hole: Lexed)
    requires hole.i <= |src|
    ensures hole.i == |src| ==> Prepend(a, CloseHole(src, hole)) == Prepend(a + "{", hole)
    ensures hole.i < |src| ==>
      Prepend(a, CloseHole(src, hole)) == Lexed(a + "{" + hole.out + [src[hole.i]], hole.i + 1)
  {
    assert a + ("{" + hole.out) == a + "{" + hole.out;
    if hole.i < |src| {
      assert a + ("{" + hole.out + [src[hole.i]]) == a + "{" + hole.out + [src[hole.i]];
    }
  }

  /** `_Lexer`: `out` is what it has made of `src` up to `i`. */
  class LeanLexer {
    const src: string
    const lex: Lexicon
    var i: nat
    var out: string

    /** `alnum` says which characters Python's `isalnum` accepts. */
    constructor (src: string, alnum: char -> bool)
      ensures this.src == src && lex == LexiconOf(src, alnum) && i == 0 && out == ""
    {
      this.src, lex := src, LexiconOf(src, alnum);
      i, out := 0, "";
    }

    method BlankTo(j: nat)
      requires i <= j <= |src|
      modifies this
      ensures i == j && out == old(out) + Blanked(src[old(i)..j])
    {
      out := out + Blanked(src[i..j]);
      i := j;
    }

    method KeepTo(j: nat)
      requires i <= j <= |src|
      modifies this
      ensures i == j && out == old(out) + src[old(i)..j]
    {
      out := out + src[i..j];
      i := j;
    }

    method KeepOne()
      requires i < |src|
      modifies this
      ensures i == old(i) + 1 && out == old(out) + [src[old(i)]]
    {
      KeepTo(i + 1);
    }

    /** Appends the lexed code; inside an interpolation hole, stops before the brace that closes it. */
    method Code(inHole: bool)
      requires i <= |src| && Fits(src, lex)
      modifies this
      ensures Lexed(out, i) == Prepend(old(out), CodeFrom(src, lex, old(i), 0, inHole))
      decreases |src| - i, 4
    {
      var depth := 0;
      while i < |src|
        invariant old(i) <= i <= |src|
        invariant Prepend(out, CodeFrom(src, lex, i, depth, inHole)) == Prepend(old(out), CodeFrom(src, lex, old(i), 0, inHole))
        decreases |src| - i
      {
        ghost var t, before, c := Token(src, lex, i), out, src[i];
        var taken := TakeToken();
        if taken {
          PrependJoin(before, t.value.out, CodeFrom(src, lex, i, depth, inHole));
          continue;
        }
        if inHole && src[i] == '}' && depth == 0 {
          return;
        }
        depth := BraceDepth(src[i], depth);
        KeepOne();
        PrependJoin(before, [c], CodeFrom(src, lex, i, depth, inHole));
      }
    }

    /** Appends the piece or string that starts here, if one does. */
    method TakeToken() returns (taken: bool)
      requires i < |src| && Fits(src, lex)
      modifies this
      ensures taken <==> Token(src, lex, old(i)).Some?
      ensures taken ==> Lexed(out, i) == Prepend(old(out), Token(src, lex, old(i)).value)
      ensures !taken ==> i == old(i) && out == old(out)
      decreases |src| - i, 3
    {
      var piece := lex.pieceAt(i);
      taken := piece.Some? || src[i] == '"';
      if piece.Some? && piece.value.kept {
        KeepTo(piece.value.end);
      } else if piece.Some? {
        BlankTo(piece.value.end);
      } else if src[i] == '"' {
        String(lex.interpolatedAt(i));
      }
    }

    /** Blanks a string; the holes that are code are lexed or kept. */
    method String(interpolated: bool)
      requires i < |src| && src[i] == '"' && Fits(src, lex)
      modifies this
      ensures Lexed(out, i) == Prepend(old(out), Prepend(" ", Inside(src, lex, old(i) + 1, interpolated)))
      decreases |src| - i, 2
    {
      ghost var goal := Prepend(out, Prepend(" ", Inside(src, lex, i + 1, interpolated)));
      PrependJoin(out, " ", Inside(src, lex, i + 1, interpolated));
      BlankOne();
      while i < |src|
        invariant old(i) < i <= |src|
        invariant Prepend(out, Inside(src, lex, i, interpolated)) == goal
        decreases |src| - i
      {
        if src[i] == '"' {
          BlankOne();
          return;
        }
        ghost var before, s := out, Segment(src, lex, i, interpolated);
        TakeSegment(interpolated);
        PrependJoin(before, s.out, Inside(src, lex, i, interpolated));
      }
    }

    method BlankOne()
      requires i < |src| && src[i] == '"'
      modifies this
      ensures i == old(i) + 1 && out == old(out) + " "
    {
      BlankTo(i + 1);
    }

    method TakeHole()
      requires i < |src| && src[i] == '{' && Fits(src, lex)
      modifies this
      ensures Lexed(out, i) == Prepend(old(out), CloseHole(src, CodeFrom(src, lex, old(i) + 1, 0, true)))
      decreases |src| - i, 0
    {
      ghost var hole := CodeFrom(src, lex, i + 1, 0, true);
      HoleJoin(src, out, hole);
      KeepOne();
      Code(true);
      if i < |src| {
        KeepOne();
      }
    }

    method TakeSegment(interpolated: bool)
      requires i < |src| && src[i] != '"' && Fits(src, lex)
      modifies this
      ensures Lexed(out, i) == Prepend(old(out), Segment(src, lex, old(i), interpolated))
      decreases |src| - i, 1
    {
      if src[i] == '\\' {
        BlankTo(MinNat(i + 2, |src|));
      } else if src[i] == '{' && interpolated {
        TakeHole();
      } else if src[i] == '{' && PlainHole(src, i + 1).Some? {
        KeepTo(PlainHole(src, i + 1).value);
      } else {
        BlankTo(i + 1);
      }
    }
  }

  /**
   `strip`: the lexer ends on every source, however holes and strings nest, moves nothing, and
   leaves no string quote outside an identifier in guillemets that it keeps.
   */
  method Strip(src: string, alnum: char -> bool) returns (masked: string)
    ensures masked == CodeFrom(src, LexiconOf(src, alnum), 0, 0, false).out
    ensures Masks(src, masked)
    ensures forall k :: 0 <= k < |masked| && masked[k] == '"' ==> InGuillemets(src, 0, masked, k)
  {
    var lexer := new LeanLexer(src, alnum);
    lexer.Code(false);
    masked := lexer.out;
    CodeReadsAll(src, lexer.lex, 0, 0);
    CodeIsClean(src, lexer.lex, 0, 0, false);
  }
}
