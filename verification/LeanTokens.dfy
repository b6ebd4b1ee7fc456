/**
 The comments, quoted names and literals of a Lean source as relations on its characters, and
 what the lexer does in these terms: where it blanks, what it keeps, and where a hole ends.
 */
module LeanTokens {
  import opened Masking
  import opened RustTokens
  import opened Wrappers

  // ----- the relations ---------------------------------------------------------------

  /** A character stands before `i`, and no identifier can end with it. */
  predicate Apart(src: string, alnum: char -> bool, i: nat) {
    0 < i <= |src| && !alnum(src[i - 1]) && src[i - 1] != '_' && src[i - 1] != '\'' && src[i - 1] != '!' && src[i - 1] != '?'
  }

  /** From a guillemet to the first one that closes, or to the end of the source. */
  ghost predicate QuotedName(src: string, i: nat, e: nat) {
    && i < e <= |src| && src[i] == '«'
    && (forall k :: i < k < e - 1 ==> src[k] != '»')
    && (e == |src| || (i + 1 < e && src[e - 1] == '»'))
  }

  /** An `r`, hashes and a quote within the first 300 characters, up to that quote and hashes again. */
  ghost predicate LeanRaw(src: string, i: nat, e: nat) {
    i < |src| && src[i] == 'r' && exists n: nat :: LeanRawWith(src, i, n, e)
  }

  ghost predicate LeanRawWith(src: string, i: nat, n: nat, e: nat) {
    Delimits(src, i + 1, n) && n + 1 < 300 && Closed(src, i + n + 2, n, e)
  }

  predicate Hex(c: char) {
    '0' <= c <= '9' || 'a' <= c <= 'f' || 'A' <= c <= 'F'
  }

  ghost predicate CodePoint(src: string, i: nat, n: nat) {
    && 1 <= n && 6 + n <= 16 && i + 6 + n <= |src|
    && src[i] == '\'' && src[i + 1] == '\\' && src[i + 2] == 'u' && src[i + 3] == '{'
    && (forall k :: i + 4 <= k < i + 4 + n ==> Hex(src[k]))
    && src[i + 4 + n] == '}' && src[i + 5 + n] == '\''
  }

  predicate HexByte(src: string, i: nat) {
    && i + 6 <= |src| && src[i] == '\'' && src[i + 1] == '\\' && src[i + 2] == 'x'
    && Hex(src[i + 3]) && Hex(src[i + 4]) && src[i + 5] == '\''
  }

  predicate Escape(src: string, i: nat) {
    i + 4 <= |src| && src[i] == '\'' && src[i + 1] == '\\' && src[i + 2] != '\n' && src[i + 3] == '\''
  }

  /** A character, an escape, two hex digits or a code point, in quotes. */
  ghost predicate LeanCharacter(src: string, i: nat, e: nat) {
    || (e == i + 3 && PlainCharacter(src, i))
    || (e == i + 4 && Escape(src, i))
    || (e == i + 6 && HexByte(src, i))
    || (i + 6 < e && CodePoint(src, i, e - i - 6))
  }

  /** What is kept or blanked as a whole. */
  ghost predicate LeanLexeme(src: string, alnum: char -> bool, i: nat, e: nat, kept: bool) {
    if kept then QuotedName(src, i, e)
    else
      || LineComment(src, i, e, '-', '-')
      || BlockComment(src, i, e, "/-", "-/")
      || (Apart(src, alnum, i) && LeanRaw(src, i, e))
      || (Apart(src, alnum, i) && LeanCharacter(src, i, e))
  }

  // ----- each is what the lexer finds ------------------------------------------------

  lemma NameIff(src: string, i: nat, e: nat)
    requires i < |src| && src[i] == '«'
    ensures QuotedName(src, i, e) <==> e == Past(src, "»", i + 1)
  {
    forall k: nat
      ensures StartsWith(src, k, "»") <==> k < |src| && src[k] == '»'
    {
      OneMark(src, k, '»');
    }
    var end := Past(src, "»", i + 1);
    assert QuotedName(src, i, end);
  }

  lemma {:induction false} CountWithin(src: string, i: nat, end: nat)
    requires i <= end <= |src|
    ensures CountHashes(src, i, end) == if i + CountHashes(src, i, |src|) < end then CountHashes(src, i, |src|) else end - i
    decreases end - i
  {
    if i < end && src[i] == '#' {
      CountWithin(src, i + 1, end);
    }
  }

  lemma RawHashesIff(src: string, i: nat, n: nat)
    requires i < |src| && src[i] == 'r'
    ensures RawHashes(src, i, MinNat(|src|, i + 300)) == Some(n) <==> Delimits(src, i + 1, n) && n + 1 < 300
  {
    HashesCounted(src, i + 1, n);
    CountWithin(src, i + 1, MinNat(|src|, i + 300));
  }

  lemma RawPieceIff(src: string, alnum: char -> bool, i: nat, e: nat)
    requires i < |src| && src[i] == 'r'
    ensures RawPiece(src, alnum, i) == Some(Piece(e, false)) <==> Apart(src, alnum, i) && LeanRaw(src, i, e)
  {
    var raw := RawHashes(src, i, MinNat(|src|, i + 300));
    if raw.Some? {
      RawHashesIff(src, i, raw.value);
      ClosedIff(src, i + 2 + raw.value, raw.value, e);
      assert LeanRaw(src, i, e) <== LeanRawWith(src, i, raw.value, e);
    }
    if n: nat :| LeanRawWith(src, i, n, e) {
      RawHashesIff(src, i, n);
    }
  }

  lemma {:induction false} CountHexIff(src: string, i: nat, n: nat, end: nat)
    requires end <= |src| && i + n < end && !Hex(src[i + n])
    ensures (forall k :: i <= k < i + n ==> Hex(src[k])) <==> n == CountHex(src, i, end)
    decreases n
  {
    if n > 0 {
      CountHexIff(src, i + 1, n - 1, end);
    }
  }

  predicate CodePointStart(src: string, i: nat) {
    i + 3 < |src| && src[i] == '\'' && src[i + 1] == '\\' && src[i + 2] == 'u' && src[i + 3] == '{'
  }

  lemma CodePointIff(src: string, i: nat, n: nat)
    requires CodePointStart(src, i)
    ensures var end := MinNat(|src|, i + 16);
      CodePoint(src, i, n) <==>
        n == CountHex(src, i + 4, end) && n >= 1 && At(src, i + 4 + n, end, '}') && At(src, i + 5 + n, end, '\'')
  {
    var end := MinNat(|src|, i + 16);
    if At(src, i + 4 + n, end, '}') {
      CountHexIff(src, i + 4, n, end);
    }
  }

  lemma LongIff(src: string, i: nat, e: nat)
    requires CodePointStart(src, i)
    ensures var n := LeanChar(src, i, MinNat(|src|, i + 16));
      (e == i + 4 && Escape(src, i)) || (i + 6 < e && CodePoint(src, i, e - i - 6)) <==> n > 0 && e == i + n
  {
    CodePointIff(src, i, CountHex(src, i + 4, MinNat(|src|, i + 16)));
    if e > i + 6 {
      CodePointIff(src, i, e - i - 6);
    }
  }

  lemma ShortIff(src: string, i: nat)
    requires i < |src| && !CodePointStart(src, i)
    ensures LeanChar(src, i, MinNat(|src|, i + 16)) ==
      if PlainCharacter(src, i) then 3 else if HexByte(src, i) then 6 else if Escape(src, i) then 4 else 0
  {
  }

  lemma CharPieceIff(src: string, alnum: char -> bool, i: nat, e: nat)
    requires i < |src|
    ensures CharPiece(src, alnum, i) == Some(Piece(e, false)) <==> Apart(src, alnum, i) && LeanCharacter(src, i, e)
  {
    if CodePointStart(src, i) {
      LongIff(src, i, e);
    } else {
      ShortIff(src, i);
    }
  }

  lemma MarksIff(src: string, i: nat)
    ensures StartsWith(src, i, "--") <==> Two(src, i, '-', '-')
    ensures StartsWith(src, i, "/-") <==> Two(src, i, '/', '-')
  {
    if i + 2 <= |src| {
      assert src[i..i + 2] == [src[i], src[i + 1]];
    }
  }

  lemma CommentIff(src: string, alnum: char -> bool, i: nat, e: nat)
    requires i < |src| && (Two(src, i, '-', '-') || Two(src, i, '/', '-'))
    ensures LeanPiece(src, alnum, i) == Some(Piece(e, false)) <==>
      LineComment(src, i, e, '-', '-') || BlockComment(src, i, e, "/-", "-/")
    ensures LeanPiece(src, alnum, i) != Some(Piece(e, true))
  {
    MarksIff(src, i);
    if Two(src, i, '-', '-') {
      LineEndIff(src, i, e, '-', '-');
    } else {
      BlockEndIff(src, i, e, "/-", "-/");
    }
  }

  lemma PieceByFirst(src: string, alnum: char -> bool, i: nat)
    requires i < |src| && !Two(src, i, '-', '-') && !Two(src, i, '/', '-')
    ensures LeanPiece(src, alnum, i) ==
      if src[i] == '«' then Some(Piece(Past(src, "»", i + 1), true))
      else if src[i] == 'r' then RawPiece(src, alnum, i)
      else if src[i] == '\'' then CharPiece(src, alnum, i)
      else None
  {
    MarksIff(src, i);
  }

  lemma LexemeByStart(src: string, alnum: char -> bool, i: nat, e: nat, kept: bool)
    requires i < |src|
    ensures LeanLexeme(src, alnum, i, e, kept) <==>
      if Two(src, i, '-', '-') || Two(src, i, '/', '-') then
        !kept && (LineComment(src, i, e, '-', '-') || BlockComment(src, i, e, "/-", "-/"))
      else if src[i] == '«' then kept && QuotedName(src, i, e)
      else if src[i] == 'r' then !kept && Apart(src, alnum, i) && LeanRaw(src, i, e)
      else if src[i] == '\'' then !kept && Apart(src, alnum, i) && LeanCharacter(src, i, e)
      else false
  {
  }

  /** The lexer takes for a piece exactly what is one, with exactly its end. */
  lemma LeanPieceIff(src: string, alnum: char -> bool, i: nat, e: nat, kept: bool)
    requires i < |src|
    ensures LeanPiece(src, alnum, i) == Some(Piece(e, kept)) <==> LeanLexeme(src, alnum, i, e, kept)
  {
    LexemeByStart(src, alnum, i, e, kept);
    if Two(src, i, '-', '-') || Two(src, i, '/', '-') {
      CommentIff(src, alnum, i, e);
    } else {
      PieceByFirst(src, alnum, i);
      if src[i] == '«' {
        NameIff(src, i, e);
      } else if src[i] == 'r' {
        RawPieceIff(src, alnum, i, e);
      } else if src[i] == '\'' {
        CharPieceIff(src, alnum, i, e);
      }
    }
  }

  // ----- strings ---------------------------------------------------------------------

  /** A brace at `k` that no backslash from `a` on escapes. */
  predicate Braces(src: string, a: nat, k: nat) {
    k < |src| && src[k] == '{' && Backslashes(src, a, k) % 2 == 0
  }

  ghost predicate NoBraces(src: string, a: nat, e: nat) {
    forall k :: a <= k < e ==> !Braces(src, a, k)
  }

  lemma {:induction false} InsidePlain(src: string, lex: Lexicon, a: nat, i: nat, interpolated: bool)
    requires a <= i <= |src| && Fits(src, lex) && Backslashes(src, a, i) % 2 == 0
    requires NoBraces(src, a, StringEnd(src, i))
    ensures Inside(src, lex, i, interpolated) == Lexed(Blanked(src[i..StringEnd(src, i)]), StringEnd(src, i))
    decreases |src| - i
  {
    if i < |src| && src[i] != '"' {
      assert !Braces(src, a, i);
      var j := if src[i] == '\\' then MinNat(i + 2, |src|) else i + 1;
      assert Segment(src, lex, i, interpolated) == Lexed(Blanked(src[i..j]), j);
      if src[i] == '\\' && i + 2 <= |src| {
        assert Backslashes(src, a, i + 1) == 1 + Backslashes(src, a, i);
        assert src[i + 1] == '\\' ==> Backslashes(src, a, i + 2) == 1 + Backslashes(src, a, i + 1);
      }
      if j < i + 2 && src[i] == '\\' {
        assert j == |src| && StringEnd(src, i) == |src|;
      } else {
        InsidePlain(src, lex, a, j, interpolated);
        BlankedJoin(src, i, j, StringEnd(src, i));
      }
    } else if i < |src| {
      assert src[i..i + 1] == [src[i]];
    }
  }

  lemma BlankedJoin(src: string, i: nat, j: nat, e: nat)
    requires i <= j <= e <= |src|
    ensures Blanked(src[i..e]) == Blanked(src[i..j]) + Blanked(src[j..e])
  {
  }

  /** A string with no hole is blanked up to the end every string has: its first unescaped quote. */
  lemma PlainStringIsBlanked(src: string, lex: Lexicon, q: nat, e: nat)
    requires Fits(src, lex) && StringLiteral(src, q, e) && lex.pieceAt(q).None?
    requires NoBraces(src, q + 1, e)
    ensures Token(src, lex, q) == Some(Lexed(Blanked(src[q..e]), e))
  {
    StringEndIff(src, q, e);
    InsidePlain(src, lex, q + 1, q + 1, lex.interpolatedAt(q));
    BlankedJoin(src, q, q + 1, e);
    assert Blanked(src[q..q + 1]) == " ";
  }

  /** From a brace to the one that closes it, with no quote, brace or backslash between. */
  ghost predicate Hole(src: string, i: nat, e: nat) {
    && i + 1 < e <= |src| && src[i] == '{' && src[e - 1] == '}'
    && forall k :: i < k < e - 1 ==> src[k] != '"' && src[k] != '{' && src[k] != '}' && src[k] != '\\'
  }

  lemma {:induction false} HoleEndIff(src: string, j: nat, e: nat)
    requires j <= |src|
    ensures PlainHole(src, j) == Some(e) <==>
      j < e <= |src| && src[e - 1] == '}' &&
      forall k :: j <= k < e - 1 ==> src[k] != '"' && src[k] != '{' && src[k] != '}' && src[k] != '\\'
    decreases |src| - j
  {
    if j < |src| && src[j] != '"' && src[j] != '{' && src[j] != '}' && src[j] != '\\' {
      HoleEndIff(src, j + 1, e);
    }
  }

  lemma HoleIff(src: string, i: nat, e: nat)
    requires i < |src| && src[i] == '{'
    ensures Hole(src, i, e) <==> PlainHole(src, i + 1) == Some(e)
  {
    HoleEndIff(src, i + 1, e);
  }

  /** An identifier and `!` stand right before the quote. */
  lemma InterpolatedIff(src: string, alnum: char -> bool, i: nat)
    requires i <= |src|
    ensures LexiconOf(src, alnum).interpolatedAt(i) <==> i >= 2 && src[i - 1] == '!' && !Apart(src, alnum, i - 1)
  {
  }

  // ----- code ------------------------------------------------------------------------

  /** A character at which neither a piece nor a string starts. */
  predicate Ordinary(src: string, lex: Lexicon, c: nat) {
    c < |src| && lex.pieceAt(c).None? && src[c] != '"'
  }

  /** A piece as it is, a string as it is lexed, or an ordinary character. */
  ghost predicate CodeTile(src: string, lex: Lexicon, c: nat, d: nat, out: string)
    requires Fits(src, lex)
  {
    c < d <= |src| &&
    match lex.pieceAt(c)
    case Some(p) => d == p.end && out == if p.kept then src[c..d] else Blanked(src[c..d])
    case None =>
      if src[c] == '"' then d == Inside(src, lex, c + 1, lex.interpolatedAt(c)).i && Token(src, lex, c) == Some(Lexed(out, d))
      else d == c + 1 && out == [src[c]]
  }

  /** The braces open after the first `n` tiles, `depth` to begin with; a closing one too many does not count. */
  ghost function OpenBraces(src: string, lex: Lexicon, cuts: seq<nat>, depth: nat, n: nat): nat
    requires n <= |cuts|
  {
    if n == 0 then depth
    else
      var before, c := OpenBraces(src, lex, cuts, depth, n - 1), cuts[n - 1];
      if !Ordinary(src, lex, c) then before
      else if src[c] == '{' then before + 1
      else if src[c] == '}' && before > 0 then before - 1
      else before
  }

  /** A closing brace at tile `j` closes one that is open. */
  ghost predicate StaysOpen(src: string, lex: Lexicon, cuts: seq<nat>, depth: nat, j: nat)
    requires j < |cuts|
  {
    Ordinary(src, lex, cuts[j]) && src[cuts[j]] == '}' ==> OpenBraces(src, lex, cuts, depth, j) > 0
  }

  /** No brace among the tiles closes the hole, and where the code ends before the source does one would. */
  ghost predicate Balanced(src: string, lex: Lexicon, cuts: seq<nat>, depth: nat, inHole: bool)
    requires cuts != []
  {
    var n := |cuts| - 1;
    && (inHole ==> forall j: nat :: j < n ==> StaysOpen(src, lex, cuts, depth, j))
    && (cuts[n] == |src| || (inHole && Ordinary(src, lex, cuts[n]) && src[cuts[n]] == '}' && OpenBraces(src, lex, cuts, depth, n) == 0))
  }

  function Flat(outs: seq<string>): string {
    if outs == [] then "" else outs[0] + Flat(outs[1..])
  }

  ghost predicate CodeTiles(src: string, lex: Lexicon, cuts: seq<nat>, outs: seq<string>)
    requires Fits(src, lex)
  {
    && |cuts| == |outs| + 1
    && forall j {:trigger outs[j]} :: 0 <= j < |outs| ==> CodeTile(src, lex, cuts[j], cuts[j + 1], outs[j])
  }

  /** A tile in front, with its brace counted beforehand. */
  lemma {:induction false} OpenBracesLater(src: string, lex: Lexicon, c: nat, cuts: seq<nat>, depth: nat, n: nat)
    requires n <= |cuts|
    ensures OpenBraces(src, lex, [c] + cuts, depth, n + 1) == OpenBraces(src, lex, cuts, After(src, lex, c, depth), n)
  {
    if n == 0 {
      assert OpenBraces(src, lex, [c] + cuts, depth, 0) == depth;
    } else {
      OpenBracesLater(src, lex, c, cuts, depth, n - 1);
    }
  }

  /** The depth after an ordinary character or another tile at `c`. */
  function After(src: string, lex: Lexicon, c: nat, depth: nat): nat {
    if Ordinary(src, lex, c) then BraceDepth(src[c], depth) else depth
  }

  lemma StaysOpenLater(src: string, lex: Lexicon, c: nat, cuts: seq<nat>, depth: nat, j: nat)
    requires j < |cuts| && StaysOpen(src, lex, cuts, After(src, lex, c, depth), j)
    ensures StaysOpen(src, lex, [c] + cuts, depth, j + 1)
  {
    OpenBracesLater(src, lex, c, cuts, depth, j);
  }

  lemma BalancedLater(src: string, lex: Lexicon, c: nat, cuts: seq<nat>, depth: nat, inHole: bool)
    requires cuts != [] && c < |src|
    requires inHole && Ordinary(src, lex, c) && src[c] == '}' ==> depth > 0
    requires Balanced(src, lex, cuts, After(src, lex, c, depth), inHole)
    ensures Balanced(src, lex, [c] + cuts, depth, inHole)
  {
    var all, n := [c] + cuts, |cuts| - 1;
    OpenBracesLater(src, lex, c, cuts, depth, n);
    forall j: nat | inHole && j < n + 1
      ensures StaysOpen(src, lex, all, depth, j)
    {
      if j > 0 {
        assert StaysOpen(src, lex, cuts, After(src, lex, c, depth), j - 1);
        StaysOpenLater(src, lex, c, cuts, depth, j - 1);
      }
    }
  }

  lemma TileFirst(src: string, lex: Lexicon, c: nat, cuts: seq<nat>, out: string, outs: seq<string>)
    requires Fits(src, lex) && CodeTiles(src, lex, cuts, outs) && CodeTile(src, lex, c, cuts[0], out)
    ensures CodeTiles(src, lex, [c] + cuts, [out] + outs) && Flat([out] + outs) == out + Flat(outs)
  {
    var allCuts, allOuts := [c] + cuts, [out] + outs;
    forall j | 0 <= j < |allOuts|
      ensures CodeTile(src, lex, allCuts[j], allCuts[j + 1], allOuts[j])
    {
      if j > 0 {
        assert allOuts[j] == outs[j - 1];
      }
    }
    assert allOuts[1..] == outs;
  }

  /** Where the code from `i` on goes with its first tile. */
  lemma FirstCodeTile(src: string, lex: Lexicon, i: nat, depth: nat, inHole: bool) returns (d: nat, out: string)
    requires i < |src| && Fits(src, lex) && !(inHole && Ordinary(src, lex, i) && src[i] == '}' && depth == 0)
    ensures CodeTile(src, lex, i, d, out)
    ensures CodeFrom(src, lex, i, depth, inHole) ==
      Prepend(out, CodeFrom(src, lex, d, After(src, lex, i, depth), inHole))
  {
    var t := Token(src, lex, i);
    if t.Some? {
      d, out := t.value.i, t.value.out;
    } else {
      d, out := i + 1, [src[i]];
    }
  }

  /**
   Code falls into pieces, strings and ordinary characters; what is left of it is what is left
   of these, one after the other; and a hole ends where its braces balance.
   */
  lemma {:induction false} CodeIsTiled(src: string, lex: Lexicon, i: nat, depth: nat, inHole: bool)
    returns (cuts: seq<nat>, outs: seq<string>)
    requires i <= |src| && Fits(src, lex)
    ensures var r := CodeFrom(src, lex, i, depth, inHole);
      && CodeTiles(src, lex, cuts, outs) && Flat(outs) == r.out
      && cuts[0] == i && cuts[|cuts| - 1] == r.i
      && Balanced(src, lex, cuts, depth, inHole)
    decreases |src| - i
  {
    if i == |src| || (inHole && Ordinary(src, lex, i) && src[i] == '}' && depth == 0) {
      cuts, outs := [i], [];
    } else {
      var d, out := FirstCodeTile(src, lex, i, depth, inHole);
      var restCuts, restOuts := CodeIsTiled(src, lex, d, After(src, lex, i, depth), inHole);
      TileFirst(src, lex, i, restCuts, out, restOuts);
      BalancedLater(src, lex, i, restCuts, depth, inHole);
      cuts, outs := [i] + restCuts, [out] + restOuts;
    }
  }

  /** What `strip` leaves of a source. */
  lemma StrippedIsTiled(src: string, alnum: char -> bool) returns (cuts: seq<nat>, outs: seq<string>)
    ensures CodeTiles(src, LexiconOf(src, alnum), cuts, outs)
    ensures cuts[0] == 0 && cuts[|cuts| - 1] == |src|
    ensures Flat(outs) == CodeFrom(src, LexiconOf(src, alnum), 0, 0, false).out
  {
    cuts, outs := CodeIsTiled(src, LexiconOf(src, alnum), 0, 0, false);
    CodeReadsAll(src, LexiconOf(src, alnum), 0, 0);
  }

  // ----- what a string leaves --------------------------------------------------------

  /** An escape or another character, blanked; code in an interpolation hole; or a plain hole as it is. */
  ghost predicate StringTile(src: string, lex: Lexicon, interpolated: bool, c: nat, d: nat, out: string)
    requires Fits(src, lex)
  {
    c < d <= |src| && src[c] != '"' &&
    if src[c] == '{' && interpolated then
      var hole := CodeFrom(src, lex, c + 1, 0, true);
      d == (if hole.i < |src| then hole.i + 1 else |src|) && out == "{" + hole.out + src[hole.i..d]
    else if src[c] == '{' && Hole(src, c, d) then out == src[c..d]
    else
      && out == Blanked(src[c..d])
      && (src[c] == '{' ==> forall e: nat :: !Hole(src, c, e))
      && d == if src[c] == '\\' && c + 2 <= |src| then c + 2 else c + 1
  }

  ghost predicate StringTiles(src: string, lex: Lexicon, interpolated: bool, cuts: seq<nat>, outs: seq<string>)
    requires Fits(src, lex)
  {
    && |cuts| == |outs| + 1
    && forall j {:trigger outs[j]} :: 0 <= j < |outs| ==> StringTile(src, lex, interpolated, cuts[j], cuts[j + 1], outs[j])
  }

  lemma SegmentIsTile(src: string, lex: Lexicon, i: nat, interpolated: bool)
    requires i < |src| && Fits(src, lex) && src[i] != '"'
    ensures var s := Segment(src, lex, i, interpolated); StringTile(src, lex, interpolated, i, s.i, s.out)
  {
    if src[i] == '{' && !interpolated {
      var hole := PlainHole(src, i + 1);
      forall e: nat
        ensures Hole(src, i, e) <==> hole == Some(e)
      {
        HoleIff(src, i, e);
      }
    } else if src[i] == '{' {
      var hole := CodeFrom(src, lex, i + 1, 0, true);
      if hole.i < |src| {
        assert src[hole.i..hole.i + 1] == [src[hole.i]];
      }
    }
  }

  lemma TileFirstOfString(src: string, lex: Lexicon, interpolated: bool, c: nat, cuts: seq<nat>, out: string, outs: seq<string>)
    requires Fits(src, lex) && StringTiles(src, lex, interpolated, cuts, outs) && StringTile(src, lex, interpolated, c, cuts[0], out)
    ensures StringTiles(src, lex, interpolated, [c] + cuts, [out] + outs) && Flat([out] + outs) == out + Flat(outs)
  {
    var allCuts, allOuts := [c] + cuts, [out] + outs;
    forall j | 0 <= j < |allOuts|
      ensures StringTile(src, lex, interpolated, allCuts[j], allCuts[j + 1], allOuts[j])
    {
      if j > 0 {
        assert allOuts[j] == outs[j - 1];
      }
    }
    assert allOuts[1..] == outs;
  }

  /** A string ends with the source or at the first quote outside its tiles, which is blanked. */
  lemma {:induction false} StringIsTiled(src: string, lex: Lexicon, i: nat, interpolated: bool)
    returns (cuts: seq<nat>, outs: seq<string>)
    requires i <= |src| && Fits(src, lex)
    ensures StringTiles(src, lex, interpolated, cuts, outs) && cuts[0] == i
    ensures var r, e := Inside(src, lex, i, interpolated), cuts[|cuts| - 1];
      if e < |src| then src[e] == '"' && r == Lexed(Flat(outs) + " ", e + 1) else e == |src| && r == Lexed(Flat(outs), e)
    decreases |src| - i
  {
    if i == |src| || src[i] == '"' {
      cuts, outs := [i], [];
    } else {
      var s := Segment(src, lex, i, interpolated);
      SegmentIsTile(src, lex, i, interpolated);
      var restCuts, restOuts := StringIsTiled(src, lex, s.i, interpolated);
      TileFirstOfString(src, lex, interpolated, i, restCuts, s.out, restOuts);
      cuts, outs := [i] + restCuts, [s.out] + restOuts;
      assert s.out + (Flat(restOuts) + " ") == s.out + Flat(restOuts) + " ";
    }
  }
}
