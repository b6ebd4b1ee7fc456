/**
 The comments and literals of a Rust text as relations on its characters, and what the masker
 does in these terms: it blanks exactly these, and keeps every other character.
 */
module RustTokens {
  import opened Masking
  import opened Wrappers

  // ----- the relations ---------------------------------------------------------------

  predicate Two(text: string, i: nat, a: char, b: char) {
    i + 1 < |text| && text[i] == a && text[i + 1] == b
  }

  /** From two marks to the end of the line. */
  ghost predicate LineComment(text: string, i: nat, e: nat, a: char, b: char) {
    && Two(text, i, a, b) && i + 2 <= e <= |text|
    && (forall k :: i + 2 <= k < e ==> text[k] != '\n')
    && (e == |text| || text[e] == '\n')
  }

  /** Reading from `from` on, one comment at least is open everywhere before `e`. */
  ghost predicate OpenUpTo(text: string, open: string, close: string, from: nat, e: nat)
    requires |open| == |close| == 2
  {
    forall k :: from <= k < e ==> DepthAt(text, open, close, from, k, 1) > 0
  }

  /** From an opener to where the closers balance the openers, or to the end of the text. */
  ghost predicate BlockComment(text: string, i: nat, e: nat, open: string, close: string) {
    && |open| == |close| == 2 && Two(text, i, open[0], open[1]) && i + 2 <= e <= |text|
    && OpenUpTo(text, open, close, i + 2, e)
    && (e == |text| || DepthAt(text, open, close, i + 2, e, 1) == 0)
  }

  ghost predicate NoneCloses(text: string, a: nat, e: nat) {
    forall k :: a <= k < e ==> !Closes(text, a, k)
  }

  /** From a quote to the first one that no backslash escapes, or to the end of the text. */
  ghost predicate StringLiteral(text: string, q: nat, e: nat) {
    && q < |text| && text[q] == '"' && q < e <= |text|
    && NoneCloses(text, q + 1, e - 1)
    && ((q + 1 < e && Closes(text, q + 1, e - 1)) || (e == |text| && NoneCloses(text, q + 1, e)))
  }

  ghost predicate HashesAt(text: string, i: nat, n: nat) {
    i + n <= |text| && forall k :: i <= k < i + n ==> text[k] == '#'
  }

  /** A quote followed by `n` hashes. */
  ghost predicate Delimiter(text: string, k: nat, n: nat) {
    k < |text| && text[k] == '"' && HashesAt(text, k + 1, n)
  }

  /** Right past the first delimiter from `i` on, or the end of the text. */
  ghost predicate Closed(text: string, i: nat, n: nat, e: nat) {
    || (i + n < e <= |text| && Delimiter(text, e - n - 1, n) && forall k :: i <= k < e - n - 1 ==> !Delimiter(text, k, n))
    || (e == |text| && forall k :: i <= k < |text| ==> !Delimiter(text, k, n))
  }

  ghost predicate RawBody(text: string, p: nat, n: nat, e: nat) {
    p < |text| && text[p] == 'r' && Delimits(text, p + 1, n) && Closed(text, p + n + 2, n, e)
  }

  /** `n` hashes and a quote. */
  ghost predicate Delimits(text: string, i: nat, n: nat) {
    HashesAt(text, i, n) && i + n < |text| && text[i + n] == '"'
  }

  ghost predicate RawFrom(text: string, p: nat, e: nat) {
    exists n: nat :: RawBody(text, p, n, e)
  }

  ghost predicate RawString(text: string, i: nat, e: nat) {
    i < |text| && RawFrom(text, if text[i] == 'b' then i + 1 else i, e)
  }

  predicate HexDigit(c: char) {
    '0' <= c <= '9' || 'a' <= c <= 'f' || 'A' <= c <= 'F' || c == '_'
  }

  ghost predicate HexEscape(text: string, i: nat, n: nat) {
    && 1 <= n <= 6 && i + 6 + n <= |text|
    && text[i] == '\'' && text[i + 1] == '\\' && text[i + 2] == 'u' && text[i + 3] == '{'
    && (forall k :: i + 4 <= k < i + 4 + n ==> HexDigit(text[k]))
    && text[i + 4 + n] == '}' && text[i + 5 + n] == '\''
  }

  ghost predicate PlainCharacter(text: string, i: nat) {
    && i + 3 <= |text| && text[i] == '\'' && text[i + 2] == '\''
    && text[i + 1] != '\'' && text[i + 1] != '\\' && text[i + 1] != '\n'
  }

  ghost predicate EscapedCharacter(text: string, i: nat) {
    && i + 4 <= |text| && text[i] == '\'' && text[i + 1] == '\\' && text[i + 3] == '\''
    && text[i + 2] != 'u' && text[i + 2] != '\n'
  }

  /** One character, one escaped character, or up to six hex digits of a code point, in quotes. */
  ghost predicate CharacterLiteral(text: string, i: nat, e: nat) {
    || (e == i + 3 && PlainCharacter(text, i))
    || (e == i + 4 && EscapedCharacter(text, i))
    || (i + 6 < e && HexEscape(text, i, e - i - 6))
  }

  /** A comment, or a string, byte string, raw string or character literal. */
  ghost predicate Lexeme(text: string, i: nat, e: nat) {
    || LineComment(text, i, e, '/', '/')
    || BlockComment(text, i, e, "/*", "*/")
    || RawString(text, i, e)
    || (i < |text| && text[i] == 'b' && StringLiteral(text, i + 1, e))
    || StringLiteral(text, i, e)
    || CharacterLiteral(text, i, e)
  }

  // ----- each end is the one the masker finds ----------------------------------------

  lemma OneMark(text: string, k: nat, c: char)
    ensures StartsWith(text, k, [c]) <==> k < |text| && text[k] == c
  {
    if k < |text| {
      assert text[k..k + 1] == [text[k]];
    }
  }

  lemma LineEndIff(text: string, i: nat, e: nat, a: char, b: char)
    requires Two(text, i, a, b)
    ensures LineComment(text, i, e, a, b) <==> e == LineEnd(text, i + 2)
  {
    forall k: nat
      ensures StartsWith(text, k, "\n") <==> k < |text| && text[k] == '\n'
    {
      OneMark(text, k, '\n');
    }
    var end := LineEnd(text, i + 2);
    assert LineComment(text, i, end, a, b);
  }

  lemma BlockEndIff(text: string, i: nat, e: nat, open: string, close: string)
    requires |open| == |close| == 2 && Two(text, i, open[0], open[1])
    ensures BlockComment(text, i, e, open, close) <==> e == BlockEnd(text, open, close, i + 2, 1)
  {
    BlockEndsWhereBalanced(text, open, close, i + 2, 1);
  }

  lemma StringEndIff(text: string, q: nat, e: nat)
    requires q < |text| && text[q] == '"'
    ensures StringLiteral(text, q, e) <==> e == StringEnd(text, q + 1)
  {
    if q + 1 < |text| {
      StringEndsAtFirstUnescaped(text, q + 1);
    }
    var end := StringEnd(text, q + 1);
    assert StringLiteral(text, q, end);
  }

  lemma FirstHash(text: string, i: nat, n: nat)
    ensures HashesAt(text, i, n) && n > 0 ==> i < |text| && text[i] == '#'
  {
  }

  lemma {:induction false} HashesCounted(text: string, i: nat, n: nat)
    requires i <= |text|
    ensures Delimits(text, i, n) <==>
      n == CountHashes(text, i, |text|) && i + n < |text| && text[i + n] == '"'
    decreases |text| - i
  {
    if i < |text| && text[i] == '#' {
      if n > 0 {
        HashesCounted(text, i + 1, n - 1);
        assert HashesAt(text, i, n) <==> HashesAt(text, i + 1, n - 1);
      }
    } else {
      FirstHash(text, i, n);
    }
  }

  lemma DelimiterIff(text: string, k: nat, n: nat)
    ensures Delimiter(text, k, n) <==> StartsWith(text, k, "\"" + Hashes(n))
  {
    var mark := "\"" + Hashes(n);
    if Delimiter(text, k, n) {
      assert text[k..k + n + 1] == mark;
    }
    if StartsWith(text, k, mark) {
      forall x | k + 1 <= x < k + 1 + n
        ensures text[x] == '#'
      {
        assert text[k..k + n + 1][x - k] == mark[x - k];
      }
      assert text[k..k + n + 1][0] == mark[0];
    }
  }

  lemma ClosedIff(text: string, i: nat, n: nat, e: nat)
    requires i <= |text|
    ensures Closed(text, i, n, e) <==> e == Past(text, "\"" + Hashes(n), i)
  {
    forall k: nat
      ensures Delimiter(text, k, n) <==> StartsWith(text, k, "\"" + Hashes(n))
    {
      DelimiterIff(text, k, n);
    }
    var found := Find(text, "\"" + Hashes(n), i);
    if found.Some? {
      assert Delimiter(text, found.value, n);
    }
    assert Closed(text, i, n, Past(text, "\"" + Hashes(n), i));
  }

  /** The end of a raw string whose `r` stands at `p`. */
  lemma RawFromIff(text: string, p: nat, n: nat, e: nat)
    requires p < |text| && text[p] == 'r' && n == CountHashes(text, p + 1, |text|)
    ensures RawFrom(text, p, e) <==> Delimits(text, p + 1, n) && Closed(text, p + n + 2, n, e)
  {
    if m: nat :| RawBody(text, p, m, e) {
      HashesCounted(text, p + 1, m);
    }
    if Delimits(text, p + 1, n) && Closed(text, p + n + 2, n, e) {
      assert RawBody(text, p, n, e);
    }
  }

  lemma RawFromEnd(text: string, p: nat, n: nat, e: nat)
    requires p < |text| && text[p] == 'r' && n == CountHashes(text, p + 1, |text|)
    ensures RawFrom(text, p, e) <==>
      p + 1 + n < |text| && text[p + 1 + n] == '"' && e == Past(text, "\"" + Hashes(n), p + n + 2)
  {
    RawFromIff(text, p, n, e);
    HashesCounted(text, p + 1, n);
    if Delimits(text, p + 1, n) {
      ClosedIff(text, p + n + 2, n, e);
    }
  }

  lemma RawEndOf(text: string, i: nat, p: nat, n: nat)
    requires i < |text| && p == (if text[i] == 'b' then i + 1 else i)
    requires p < |text| && text[p] == 'r' && n == CountHashes(text, p + 1, |text|)
    ensures RawEnd(text, i) ==
      if p + 1 + n < |text| && text[p + 1 + n] == '"' then Some(Past(text, "\"" + Hashes(n), p + n + 2)) else None
  {
  }

  lemma NoRawEnd(text: string, i: nat, p: nat)
    requires i < |text| && p == (if text[i] == 'b' then i + 1 else i) && (p >= |text| || text[p] != 'r')
    ensures RawEnd(text, i).None? && forall e: nat :: !RawFrom(text, p, e)
  {
  }

  lemma RawEndIff(text: string, i: nat, e: nat)
    requires i < |text|
    ensures RawString(text, i, e) <==> RawEnd(text, i) == Some(e)
  {
    var p := if text[i] == 'b' then i + 1 else i;
    if p < |text| && text[p] == 'r' {
      var n := CountHashes(text, p + 1, |text|);
      RawFromEnd(text, p, n, e);
      RawEndOf(text, i, p, n);
    } else {
      NoRawEnd(text, i, p);
    }
  }

  lemma {:induction false} HexRunIff(text: string, i: nat, n: nat, limit: nat)
    requires n <= limit && i + n < |text| && !HexDigit(text[i + n])
    ensures (forall k :: i <= k < i + n ==> HexDigit(text[k])) <==> n == HexRun(text, i, limit)
    decreases limit
  {
    if n > 0 {
      HexRunIff(text, i + 1, n - 1, limit - 1);
    }
  }

  lemma HexEscapeIff(text: string, i: nat, n: nat)
    requires i + 3 < |text| && text[i] == '\'' && text[i + 1] == '\\' && text[i + 2] == 'u' && text[i + 3] == '{'
    ensures HexEscape(text, i, n) <==>
      n == HexRun(text, i + 4, 6) && 1 <= n && i + 5 + n < |text| && text[i + 4 + n] == '}' && text[i + 5 + n] == '\''
  {
    if n <= 6 && i + 4 + n < |text| && text[i + 4 + n] == '}' {
      HexRunIff(text, i + 4, n, 6);
    }
  }

  ghost predicate HexStart(text: string, i: nat) {
    i + 3 < |text| && text[i] == '\'' && text[i + 1] == '\\' && text[i + 2] == 'u' && text[i + 3] == '{'
  }

  lemma ShortLiteralIff(text: string, i: nat)
    requires i < |text| && !HexStart(text, i)
    ensures CharLiteral(text, i) == if PlainCharacter(text, i) then 3 else if EscapedCharacter(text, i) then 4 else 0
  {
  }

  lemma HexLiteralIff(text: string, i: nat, e: nat)
    requires HexStart(text, i)
    ensures i + 6 < e && HexEscape(text, i, e - i - 6) <==> CharLiteral(text, i) > 0 && e == i + CharLiteral(text, i)
  {
    HexEscapeIff(text, i, HexRun(text, i + 4, 6));
    if e > i + 6 {
      HexEscapeIff(text, i, e - i - 6);
    }
  }

  lemma CharLiteralEndIff(text: string, i: nat, e: nat)
    requires i < |text|
    ensures CharacterLiteral(text, i, e) <==> CharLiteral(text, i) > 0 && e == i + CharLiteral(text, i)
  {
    if HexStart(text, i) {
      HexLiteralIff(text, i, e);
    } else {
      ShortLiteralIff(text, i);
    }
  }

  lemma SlashIff(text: string, i: nat, e: nat)
    requires i < |text| && text[i] == '/'
    ensures RustToken(text, i) == Some(e) <==> LineComment(text, i, e, '/', '/') || BlockComment(text, i, e, "/*", "*/")
  {
    if Two(text, i, '/', '/') {
      LineEndIff(text, i, e, '/', '/');
    }
    if Two(text, i, '/', '*') {
      BlockEndIff(text, i, e, "/*", "*/");
    }
  }

  lemma LetterIff(text: string, i: nat, e: nat)
    requires i < |text| && (text[i] == 'r' || text[i] == 'b')
    ensures RustToken(text, i) == Some(e) <==> RawString(text, i, e) || (text[i] == 'b' && StringLiteral(text, i + 1, e))
  {
    RawEndIff(text, i, e);
    if Two(text, i, 'b', '"') {
      StringEndIff(text, i + 1, e);
      assert RawEnd(text, i).None?;
    }
  }

  lemma QuoteIff(text: string, i: nat, e: nat)
    requires i < |text| && text[i] == '"'
    ensures RustToken(text, i) == Some(e) <==> StringLiteral(text, i, e)
  {
    StringEndIff(text, i, e);
  }

  lemma OtherToken(text: string, i: nat)
    requires i < |text| && text[i] != '/' && text[i] != 'r' && text[i] != 'b' && text[i] != '"'
    ensures RustToken(text, i) == if CharLiteral(text, i) > 0 then Some(i + CharLiteral(text, i)) else None
  {
  }

  lemma OtherIff(text: string, i: nat, e: nat)
    requires i < |text| && text[i] != '/' && text[i] != 'r' && text[i] != 'b' && text[i] != '"'
    ensures RustToken(text, i) == Some(e) <==> CharacterLiteral(text, i, e)
  {
    OtherToken(text, i);
    CharLiteralEndIff(text, i, e);
  }

  /** What may start with a character. */
  lemma LexemeByFirst(text: string, i: nat, e: nat)
    requires i < |text|
    ensures Lexeme(text, i, e) <==>
      if text[i] == '/' then LineComment(text, i, e, '/', '/') || BlockComment(text, i, e, "/*", "*/")
      else if text[i] == 'r' || text[i] == 'b' then RawString(text, i, e) || (text[i] == 'b' && StringLiteral(text, i + 1, e))
      else if text[i] == '"' then StringLiteral(text, i, e)
      else CharacterLiteral(text, i, e)
  {
  }

  /** The masker takes for a comment or literal exactly what is one, with exactly its end. */
  lemma RustTokenIff(text: string, i: nat, e: nat)
    requires i < |text|
    ensures RustToken(text, i) == Some(e) <==> Lexeme(text, i, e)
  {
    LexemeByFirst(text, i, e);
    if text[i] == '/' {
      SlashIff(text, i, e);
    } else if text[i] == 'r' || text[i] == 'b' {
      LetterIff(text, i, e);
    } else if text[i] == '"' {
      QuoteIff(text, i, e);
    } else {
      OtherIff(text, i, e);
    }
  }

  // ----- the masked text -------------------------------------------------------------

  /** A lexeme, blanked but for its line breaks, or one character at which none starts, kept. */
  ghost predicate Tile(text: string, masked: string, c: nat, d: nat) {
    c < d <= |text| == |masked| &&
    ((Lexeme(text, c, d) && forall k :: c <= k < d ==> masked[k] == if text[k] == '\n' then '\n' else ' ') ||
     (d == c + 1 && masked[c] == text[c] && forall e: nat :: !Lexeme(text, c, e)))
  }

  /** The text cut into lexemes and other characters, read from the left. */
  ghost predicate Tiled(text: string, masked: string, from: nat, cuts: seq<nat>) {
    && cuts != [] && cuts[0] == from && cuts[|cuts| - 1] == |text|
    && forall j {:trigger cuts[j]} :: 0 <= j < |cuts| - 1 ==> Tile(text, masked, cuts[j], cuts[j + 1])
  }

  lemma FirstTile(text: string, masked: string, i: nat)
    requires i < |text| == |masked| && masked[i..] == RustMasked(text, i)
    ensures var d := if RustToken(text, i).Some? then RustToken(text, i).value else i + 1;
      Tile(text, masked, i, d) && masked[d..] == RustMasked(text, d)
  {
    var r := RustToken(text, i);
    var d := if r.Some? then r.value else i + 1;
    var head := if r.Some? then Blanked(text[i..d]) else [text[i]];
    assert masked[i..] == head + RustMasked(text, d);
    assert masked[i..][..d - i] == head;
    forall k | i <= k < d
      ensures masked[k] == head[k - i]
    {
      assert masked[k] == masked[i..][k - i];
    }
    assert masked[d..] == masked[i..][d - i..];
    RustTokenIff(text, i, d);
    forall e: nat
      ensures r.None? ==> !Lexeme(text, i, e)
    {
      RustTokenIff(text, i, e);
    }
  }

  lemma {:induction false} TileFrom(text: string, masked: string, i: nat) returns (cuts: seq<nat>)
    requires i <= |text| == |masked| && masked[i..] == RustMasked(text, i)
    ensures Tiled(text, masked, i, cuts)
    decreases |text| - i
  {
    if i == |text| {
      cuts := [i];
    } else {
      var d := if RustToken(text, i).Some? then RustToken(text, i).value else i + 1;
      FirstTile(text, masked, i);
      var rest := TileFrom(text, masked, d);
      cuts := [i] + rest;
    }
  }

  /**
   What `mask_rust` leaves: the text falls into lexemes and other characters, and exactly the
   lexemes are blanked.
   */
  lemma MaskedIsTiled(text: string)
    ensures exists cuts :: Tiled(text, RustMasked(text, 0), 0, cuts)
  {
    RustMaskedMasks(text, 0);
    assert text[0..] == text;
    var masked := RustMasked(text, 0);
    assert masked[0..] == masked;
    var cuts := TileFrom(text, masked, 0);
  }

  /** So a character that is changed is part of a comment or literal. */
  lemma ChangedIsLexeme(text: string, k: nat)
    requires k < |text| == |RustMasked(text, 0)| && RustMasked(text, 0)[k] != text[k]
    ensures exists c: nat, e: nat :: c <= k < e && Lexeme(text, c, e)
  {
    var masked := RustMasked(text, 0);
    MaskedIsTiled(text);
    var cuts :| Tiled(text, masked, 0, cuts);
    var j := 0;
    while cuts[j + 1] <= k
      invariant 0 <= j < |cuts| - 1 && cuts[j] <= k
      decreases |cuts| - j
    {
      j := j + 1;
    }
    TileChanged(text, masked, cuts[j], cuts[j + 1], k);
  }

  lemma TileChanged(text: string, masked: string, c: nat, d: nat, k: nat)
    requires Tile(text, masked, c, d) && c <= k < d && masked[k] != text[k]
    ensures Lexeme(text, c, d)
  {
  }
}
