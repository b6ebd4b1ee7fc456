/**
 What the Lean lexer makes of a source is the same after a space, unless a raw string or a
 character literal stands at its very start.
 */
module LeanStart {
  import opened Masking
  import opened Wrappers

  predicate SameLater(src: string, s: string, i: nat) {
    i < |src| && i + 1 < |s| && s[i + 1] == src[i]
  }

  /** `s` is the source one character later, after a space. */
  ghost predicate IsLater(src: string, s: string) {
    |s| == |src| + 1 && s[0] == ' ' && forall i: nat :: i < |src| ==> SameLater(src, s, i)
  }

  lemma SpacedIsLater(src: string)
    ensures IsLater(src, " " + src)
  {
  }

  function Moved(r: Option<nat>): Option<nat> {
    if r.Some? then Some(r.value + 1) else None
  }

  lemma SliceLater(src: string, s: string, i: nat, j: nat)
    requires IsLater(src, s)
    requires i <= j <= |src|
    ensures s[i + 1..j + 1] == src[i..j]
  {
    forall k | 0 <= k < j - i
      ensures s[i + 1..j + 1][k] == src[i..j][k]
    {
      assert SameLater(src, s, i + k);
    }
  }

  // ----- what starts where -----------------------------------------------------------

  lemma StartsLater(src: string, s: string, i: nat, what: string)
    requires IsLater(src, s)
    ensures StartsWith(s, i + 1, what) <==> StartsWith(src, i, what)
  {
    if i + |what| <= |src| {
      SliceLater(src, s, i, i + |what|);
    }
  }

  lemma {:induction false} FindLater(src: string, s: string, what: string, i: nat)
    requires IsLater(src, s)
    ensures Find(s, what, i + 1) == Moved(Find(src, what, i))
    decreases |src| + 1 - i
  {
    StartsLater(src, s, i, what);
    if i <= |src| {
      FindLater(src, s, what, i + 1);
    }
  }

  lemma {:induction false} BlockEndLater(src: string, s: string, open: string, close: string, j: nat, depth: nat)
    requires IsLater(src, s)
    requires j <= |src| && |open| == |close| == 2
    ensures BlockEnd(s, open, close, j + 1, depth) == BlockEnd(src, open, close, j, depth) + 1
    decreases |src| - j
  {
    if j < |src| && depth > 0 {
      StartsLater(src, s, j, open);
      StartsLater(src, s, j, close);
      var opens, closes := StartsWith(src, j, open), StartsWith(src, j, close);
      BlockEndLater(src, s, open, close, if opens || closes then j + 2 else j + 1,
                    if opens then depth + 1 else if closes then depth - 1 else depth);
    }
  }

  lemma {:induction false} CountHashesLater(src: string, s: string, i: nat, end: nat)
    requires IsLater(src, s)
    requires end <= |src|
    ensures CountHashes(s, i + 1, end + 1) == CountHashes(src, i, end)
    decreases end - i
  {
    assert i < end ==> SameLater(src, s, i);
    if i < end && src[i] == '#' {
      CountHashesLater(src, s, i + 1, end);
    }
  }

  lemma {:induction false} CountHexLater(src: string, s: string, i: nat, end: nat)
    requires IsLater(src, s)
    requires end <= |src|
    ensures CountHex(s, i + 1, end + 1) == CountHex(src, i, end)
    decreases end - i
  {
    assert i < end ==> SameLater(src, s, i);
    if i < end && IsHex(src[i]) {
      CountHexLater(src, s, i + 1, end);
    }
  }

  lemma RawHashesLater(src: string, s: string, i: nat, end: nat)
    requires IsLater(src, s)
    requires end <= |src|
    ensures RawHashes(s, i + 1, end + 1) == RawHashes(src, i, end)
  {
    CountHashesLater(src, s, i + 1, end);
    var n := CountHashes(src, i + 1, end);
    assert i < end ==> SameLater(src, s, i);
    assert i + 1 + n < end ==> SameLater(src, s, i + 1 + n);
  }

  lemma AtLater(src: string, s: string, i: nat, end: nat, c: char)
    requires IsLater(src, s)
    requires end <= |src|
    ensures At(s, i + 1, end + 1, c) == At(src, i, end, c)
  {
    assert i < end ==> SameLater(src, s, i);
  }

  lemma LeanCharLater(src: string, s: string, i: nat, end: nat)
    requires IsLater(src, s)
    requires end <= |src|
    ensures LeanChar(s, i + 1, end + 1) == LeanChar(src, i, end)
  {
    if i + 2 < end {
      assert SameLater(src, s, i) && SameLater(src, s, i + 1) && SameLater(src, s, i + 2);
      assert i + 3 < end ==> SameLater(src, s, i + 3);
      assert i + 4 < end ==> SameLater(src, s, i + 4);
      var h := CountHex(src, i + 4, end);
      CountHexLater(src, s, i + 4, end);
      AtLater(src, s, i + 3, end, '{');
      AtLater(src, s, i + 3, end, '\'');
      AtLater(src, s, i + 5, end, '\'');
      AtLater(src, s, i + 4 + h, end, '}');
      AtLater(src, s, i + 5 + h, end, '\'');
    }
  }

  function MovedPiece(p: Option<Piece>): Option<Piece> {
    if p.Some? then Some(Piece(p.value.end + 1, p.value.kept)) else None
  }

  /** A raw string or a character literal stands right at the start. */
  predicate StartsWithLiteral(src: string) {
    RawHashes(src, 0, MinNat(|src|, 300)).Some? || LeanChar(src, 0, MinNat(|src|, 16)) > 0
  }

  lemma PastLater(src: string, s: string, what: string, i: nat)
    requires IsLater(src, s)
    requires i <= |src|
    ensures Past(s, what, i + 1) == Past(src, what, i) + 1
  {
    FindLater(src, s, what, i);
  }

  lemma AfterIdentLater(src: string, s: string, alnum: char -> bool, i: nat)
    requires IsLater(src, s)
    requires 0 < i <= |src|
    ensures AfterIdent(s, alnum, i + 1) <==> AfterIdent(src, alnum, i)
  {
    assert SameLater(src, s, i - 1);
  }

  lemma RawHashesWithin(src: string, s: string, i: nat)
    requires IsLater(src, s)
    requires i < |src|
    ensures RawHashes(s, i + 1, MinNat(|s|, i + 301)) == RawHashes(src, i, MinNat(|src|, i + 300))
  {
    RawHashesLater(src, s, i, MinNat(|src|, i + 300));
  }

  lemma RawEndLater(src: string, s: string, i: nat, n: nat)
    requires IsLater(src, s)
    requires i + 2 + n <= |src|
    ensures Past(s, "\"" + Hashes(n), i + 3 + n) == Past(src, "\"" + Hashes(n), i + 2 + n) + 1
  {
    PastLater(src, s, "\"" + Hashes(n), i + 2 + n);
  }

  lemma SomeRawPiece(src: string, alnum: char -> bool, i: nat, n: nat)
    requires i < |src| && RawHashes(src, i, MinNat(|src|, i + 300)) == Some(n) && !AfterIdent(src, alnum, i)
    ensures RawPiece(src, alnum, i) == Some(Piece(Past(src, "\"" + Hashes(n), i + 2 + n), false))
  {
  }

  lemma NoRawPieceLater(src: string, s: string, alnum: char -> bool, i: nat)
    requires IsLater(src, s)
    requires i < |src| && (RawHashes(src, i, MinNat(|src|, i + 300)).None? || (i > 0 && AfterIdent(src, alnum, i)))
    ensures RawPiece(s, alnum, i + 1) == RawPiece(src, alnum, i) == None
  {
    RawHashesWithin(src, s, i);
    if i > 0 {
      AfterIdentLater(src, s, alnum, i);
    }
  }

  lemma SomeRawPieceLater(src: string, s: string, alnum: char -> bool, i: nat, n: nat)
    requires IsLater(src, s)
    requires 0 < i < |src| && RawHashes(src, i, MinNat(|src|, i + 300)) == Some(n) && !AfterIdent(src, alnum, i)
    ensures RawPiece(s, alnum, i + 1) == MovedPiece(RawPiece(src, alnum, i))
  {
    RawHashesWithin(src, s, i);
    AfterIdentLater(src, s, alnum, i);
    RawEndLater(src, s, i, n);
    SomeRawPiece(src, alnum, i, n);
    SomeRawPiece(s, alnum, i + 1, n);
  }

  lemma RawPieceLater(src: string, s: string, alnum: char -> bool, i: nat)
    requires IsLater(src, s)
    requires i < |src| && (i == 0 ==> RawHashes(src, 0, MinNat(|src|, 300)).None?)
    ensures RawPiece(s, alnum, i + 1) == MovedPiece(RawPiece(src, alnum, i))
  {
    var raw := RawHashes(src, i, MinNat(|src|, i + 300));
    if raw.Some? && !AfterIdent(src, alnum, i) {
      SomeRawPieceLater(src, s, alnum, i, raw.value);
    } else {
      NoRawPieceLater(src, s, alnum, i);
    }
  }

  lemma LeanCharWithin(src: string, s: string, i: nat)
    requires IsLater(src, s)
    requires i < |src|
    ensures LeanChar(s, i + 1, MinNat(|s|, i + 17)) == LeanChar(src, i, MinNat(|src|, i + 16))
  {
    LeanCharLater(src, s, i, MinNat(|src|, i + 16));
  }

  lemma CharPieceLater(src: string, s: string, alnum: char -> bool, i: nat)
    requires IsLater(src, s)
    requires i < |src| && (i == 0 ==> LeanChar(src, 0, MinNat(|src|, 16)) == 0)
    ensures CharPiece(s, alnum, i + 1) == MovedPiece(CharPiece(src, alnum, i))
  {
    LeanCharWithin(src, s, i);
    if i > 0 {
      AfterIdentLater(src, s, alnum, i);
    }
  }

  lemma LineCommentLater(src: string, s: string, alnum: char -> bool, i: nat)
    requires IsLater(src, s)
    requires i < |src| && StartsWith(src, i, "--")
    ensures LeanPiece(s, alnum, i + 1) == MovedPiece(LeanPiece(src, alnum, i))
  {
    StartsLater(src, s, i, "--");
    FindLater(src, s, "\n", i + 2);
  }

  lemma BlockCommentLater(src: string, s: string, alnum: char -> bool, i: nat)
    requires IsLater(src, s)
    requires i < |src| && !StartsWith(src, i, "--") && StartsWith(src, i, "/-")
    ensures LeanPiece(s, alnum, i + 1) == MovedPiece(LeanPiece(src, alnum, i))
  {
    StartsLater(src, s, i, "--");
    StartsLater(src, s, i, "/-");
    BlockEndLater(src, s, "/-", "-/", i + 2, 1);
  }

  lemma NamePieceLater(src: string, s: string, alnum: char -> bool, i: nat)
    requires IsLater(src, s)
    requires i < |src| && src[i] == '«'
    ensures LeanPiece(s, alnum, i + 1) == MovedPiece(LeanPiece(src, alnum, i))
  {
    assert SameLater(src, s, i);
    StartsApart(src, i);
    StartsApart(s, i + 1);
    PastLater(src, s, "»", i + 1);
  }

  lemma OtherPieceLater(src: string, s: string, alnum: char -> bool, i: nat)
    requires IsLater(src, s)
    requires i < |src| && src[i] != '«' && src[i] != 'r' && src[i] != '\''
    requires !StartsWith(src, i, "--") && !StartsWith(src, i, "/-")
    ensures LeanPiece(s, alnum, i + 1) == LeanPiece(src, alnum, i) == None
  {
    assert SameLater(src, s, i);
    StartsLater(src, s, i, "--");
    StartsLater(src, s, i, "/-");
  }

  lemma RawStringLater(src: string, s: string, alnum: char -> bool, i: nat)
    requires IsLater(src, s)
    requires i < |src| && src[i] == 'r'
    requires RawPiece(s, alnum, i + 1) == MovedPiece(RawPiece(src, alnum, i))
    ensures LeanPiece(s, alnum, i + 1) == MovedPiece(LeanPiece(src, alnum, i))
  {
    assert SameLater(src, s, i);
    StartsApart(src, i);
    StartsApart(s, i + 1);
  }

  lemma CharLiteralLater(src: string, s: string, alnum: char -> bool, i: nat)
    requires IsLater(src, s)
    requires i < |src| && src[i] == '\''
    requires CharPiece(s, alnum, i + 1) == MovedPiece(CharPiece(src, alnum, i))
    ensures LeanPiece(s, alnum, i + 1) == MovedPiece(LeanPiece(src, alnum, i))
  {
    assert SameLater(src, s, i);
    StartsApart(src, i);
    StartsApart(s, i + 1);
  }

  lemma PieceLater(src: string, s: string, alnum: char -> bool, i: nat)
    requires IsLater(src, s)
    requires i < |src| && (i == 0 ==> !StartsWithLiteral(src))
    ensures LeanPiece(s, alnum, i + 1) == MovedPiece(LeanPiece(src, alnum, i))
  {
    if StartsWith(src, i, "--") {
      LineCommentLater(src, s, alnum, i);
    } else if StartsWith(src, i, "/-") {
      BlockCommentLater(src, s, alnum, i);
    } else if src[i] == '«' {
      NamePieceLater(src, s, alnum, i);
    } else if src[i] == 'r' {
      RawPieceLater(src, s, alnum, i);
      RawStringLater(src, s, alnum, i);
    } else if src[i] == '\'' {
      CharPieceLater(src, s, alnum, i);
      CharLiteralLater(src, s, alnum, i);
    } else {
      OtherPieceLater(src, s, alnum, i);
    }
  }

  lemma InterpolatedLater(src: string, s: string, alnum: char -> bool, i: nat)
    requires IsLater(src, s)
    requires i <= |src| && !alnum(' ')
    ensures Interpolated(s, alnum, i + 1) <==> Interpolated(src, alnum, i)
  {
    assert i > 0 ==> SameLater(src, s, i - 1);
    assert i > 1 ==> SameLater(src, s, i - 2);
  }

  // ----- code and strings ------------------------------------------------------------

  predicate MovedAt(lex: Lexicon, later: Lexicon, i: nat) {
    later.pieceAt(i + 1) == MovedPiece(lex.pieceAt(i)) && later.interpolatedAt(i + 1) == lex.interpolatedAt(i)
  }

  /** `later` says of the spaced source what `lex` says of the source. */
  ghost predicate Moves(src: string, s: string, lex: Lexicon, later: Lexicon) {
    Fits(src, lex) && Fits(s, later) && forall i: nat :: i < |src| ==> MovedAt(lex, later, i)
  }

  function Later(r: Lexed): Lexed {
    Lexed(r.out, r.i + 1)
  }

  lemma AfterToken(src: string, s: string, lex: Lexicon, later: Lexicon, i: nat, depth: nat, inHole: bool, t: Lexed)
    requires IsLater(src, s)
    requires i < |src| && Fits(src, lex) && Fits(s, later)
    requires Token(src, lex, i) == Some(t) && Token(s, later, i + 1) == Some(Later(t))
    requires CodeFrom(s, later, t.i + 1, depth, inHole) == Later(CodeFrom(src, lex, t.i, depth, inHole))
    ensures CodeFrom(s, later, i + 1, depth, inHole) == Later(CodeFrom(src, lex, i, depth, inHole))
  {
  }

  lemma AfterCharacter(src: string, s: string, lex: Lexicon, later: Lexicon, i: nat, depth: nat, inHole: bool)
    requires IsLater(src, s)
    requires i < |src| && Fits(src, lex) && Fits(s, later) && Token(src, lex, i) == Token(s, later, i + 1) == None
    requires !(inHole && src[i] == '}' && depth == 0) ==> var d := BraceDepth(src[i], depth);
      CodeFrom(s, later, i + 2, d, inHole) == Later(CodeFrom(src, lex, i + 1, d, inHole))
    ensures CodeFrom(s, later, i + 1, depth, inHole) == Later(CodeFrom(src, lex, i, depth, inHole))
  {
    assert SameLater(src, s, i);
  }

  lemma {:induction false} CodeLater(src: string, s: string, lex: Lexicon, later: Lexicon, i: nat, depth: nat, inHole: bool)
    requires IsLater(src, s)
    requires i <= |src| && Moves(src, s, lex, later)
    ensures CodeFrom(s, later, i + 1, depth, inHole) == Later(CodeFrom(src, lex, i, depth, inHole))
    decreases |src| - i, 3
  {
    if i < |src| {
      TokenLater(src, s, lex, later, i);
      var t := Token(src, lex, i);
      if t.Some? {
        CodeLater(src, s, lex, later, t.value.i, depth, inHole);
        AfterToken(src, s, lex, later, i, depth, inHole, t.value);
      } else {
        if !(inHole && src[i] == '}' && depth == 0) {
          CodeLater(src, s, lex, later, i + 1, BraceDepth(src[i], depth), inHole);
        }
        AfterCharacter(src, s, lex, later, i, depth, inHole);
      }
    }
  }

  lemma PieceTextLater(src: string, s: string, i: nat, p: Piece)
    requires IsLater(src, s)
    requires i <= p.end <= |src|
    ensures PieceText(s, i + 1, Piece(p.end + 1, p.kept)) == PieceText(src, i, p)
  {
    SliceLater(src, s, i, p.end);
  }

  lemma PieceTokenLater(src: string, s: string, lex: Lexicon, later: Lexicon, i: nat)
    requires IsLater(src, s)
    requires i < |src| && Moves(src, s, lex, later) && lex.pieceAt(i).Some?
    ensures Token(s, later, i + 1) == Some(Later(Token(src, lex, i).value))
  {
    assert MovedAt(lex, later, i);
    PieceTextLater(src, s, i, lex.pieceAt(i).value);
  }

  lemma StringTokenLater(src: string, s: string, lex: Lexicon, later: Lexicon, i: nat)
    requires IsLater(src, s)
    requires i < |src| && Moves(src, s, lex, later) && lex.pieceAt(i).None?
    requires src[i] == '"' ==> var interpolated := lex.interpolatedAt(i);
      Inside(s, later, i + 2, interpolated) == Later(Inside(src, lex, i + 1, interpolated))
    ensures var t := Token(src, lex, i);
      Token(s, later, i + 1) == if t.Some? then Some(Later(t.value)) else None
  {
    assert SameLater(src, s, i);
    assert MovedAt(lex, later, i);
  }

  lemma {:induction false} TokenLater(src: string, s: string, lex: Lexicon, later: Lexicon, i: nat)
    requires IsLater(src, s)
    requires i < |src| && Moves(src, s, lex, later)
    ensures var t := Token(src, lex, i);
      Token(s, later, i + 1) == if t.Some? then Some(Later(t.value)) else None
    decreases |src| - i, 2
  {
    if lex.pieceAt(i).Some? {
      PieceTokenLater(src, s, lex, later, i);
    } else {
      if src[i] == '"' {
        InsideLater(src, s, lex, later, i + 1, lex.interpolatedAt(i));
      }
      StringTokenLater(src, s, lex, later, i);
    }
  }

  lemma {:induction false} InsideLater(src: string, s: string, lex: Lexicon, later: Lexicon, i: nat, interpolated: bool)
    requires IsLater(src, s)
    requires i <= |src| && Moves(src, s, lex, later)
    ensures Inside(s, later, i + 1, interpolated) == Later(Inside(src, lex, i, interpolated))
    decreases |src| - i, 1
  {
    assert i < |src| ==> SameLater(src, s, i);
    if i < |src| && src[i] != '"' {
      SegmentLater(src, s, lex, later, i, interpolated);
      InsideLater(src, s, lex, later, Segment(src, lex, i, interpolated).i, interpolated);
    }
  }

  lemma {:induction false} SegmentLater(src: string, s: string, lex: Lexicon, later: Lexicon, i: nat, interpolated: bool)
    requires IsLater(src, s)
    requires i < |src| && Moves(src, s, lex, later)
    ensures Segment(s, later, i + 1, interpolated) == Later(Segment(src, lex, i, interpolated))
    decreases |src| - i, 0
  {
    assert SameLater(src, s, i);
    SliceLater(src, s, i, MinNat(i + 2, |src|));
    SliceLater(src, s, i, i + 1);
    if src[i] == '{' && interpolated {
      CodeLater(src, s, lex, later, i + 1, 0, true);
      CloseHoleLater(src, s, CodeFrom(src, lex, i + 1, 0, true));
    } else if src[i] == '{' {
      PlainHoleLater(src, s, i + 1);
      if PlainHole(src, i + 1).Some? {
        SliceLater(src, s, i, PlainHole(src, i + 1).value);
      }
    }
  }

  lemma CloseHoleLater(src: string, s: string, hole: Lexed)
    requires IsLater(src, s)
    requires hole.i <= |src|
    ensures CloseHole(s, Later(hole)) == Later(CloseHole(src, hole))
  {
    assert hole.i < |src| ==> SameLater(src, s, hole.i);
  }

  lemma {:induction false} PlainHoleLater(src: string, s: string, j: nat)
    requires IsLater(src, s)
    requires j <= |src|
    ensures PlainHole(s, j + 1) == Moved(PlainHole(src, j))
    decreases |src| - j
  {
    assert j < |src| ==> SameLater(src, s, j);
    if j < |src| {
      PlainHoleLater(src, s, j + 1);
    }
  }

  // ----- the start of a source -------------------------------------------------------

  function Stripped(src: string, alnum: char -> bool): string {
    CodeFrom(src, LexiconOf(src, alnum), 0, 0, false).out
  }

  lemma LexiconMovesAt(src: string, s: string, alnum: char -> bool, i: nat)
    requires IsLater(src, s)
    requires i < |src| && !alnum(' ') && !StartsWithLiteral(src)
    ensures MovedAt(LexiconOf(src, alnum), LexiconOf(s, alnum), i)
  {
    PieceLater(src, s, alnum, i);
    InterpolatedLater(src, s, alnum, i);
  }

  lemma LexiconMoves(src: string, s: string, alnum: char -> bool)
    requires IsLater(src, s)
    requires !alnum(' ') && !StartsWithLiteral(src)
    ensures Moves(src, s, LexiconOf(src, alnum), LexiconOf(s, alnum))
  {
    var lex, later := LexiconOf(src, alnum), LexiconOf(s, alnum);
    forall i: nat | i < |src|
      ensures MovedAt(lex, later, i)
    {
      LexiconMovesAt(src, s, alnum, i);
    }
  }

  /** A character that starts nothing is kept. */
  lemma FirstIsKept(src: string, alnum: char -> bool)
    requires src != "" && src[0] != '"' && LeanPiece(src, alnum, 0).None? && BraceDepth(src[0], 0) == 0
    ensures Stripped(src, alnum) == [src[0]] + CodeFrom(src, LexiconOf(src, alnum), 1, 0, false).out
  {
    assert Token(src, LexiconOf(src, alnum), 0) == None;
  }

  lemma NoPieceAtSpace(src: string, s: string, alnum: char -> bool)
    requires IsLater(src, s)
    ensures LeanPiece(s, alnum, 0).None?
  {
    StartsApart(s, 0);
  }

  lemma NoPieceAtStart(src: string, alnum: char -> bool)
    requires StartsWithLiteral(src)
    ensures src[0] in {'r', '\''} && LeanPiece(src, alnum, 0).None?
  {
    StartsApart(src, 0);
  }

  /** At the start the first character of a literal is kept. */
  lemma StartIsKept(src: string, alnum: char -> bool)
    requires StartsWithLiteral(src)
    ensures |Stripped(src, alnum)| > 0 && Stripped(src, alnum)[0] != ' '
  {
    NoPieceAtStart(src, alnum);
    FirstIsKept(src, alnum);
  }

  lemma LiteralLaterOn(src: string, s: string, alnum: char -> bool)
    requires IsLater(src, s)
    requires !alnum(' ') && StartsWithLiteral(src)
    ensures var p := LeanPiece(s, alnum, 1); p.Some? && !p.value.kept
  {
    assert SameLater(src, s, 0);
    StartsApart(s, 1);
    if RawHashes(src, 0, MinNat(|src|, 300)).Some? {
      RawHashesLater(src, s, 0, MinNat(|src|, 300));
      RawStringIff(s, alnum, 1);
    } else {
      LeanCharLater(src, s, 0, MinNat(|src|, 16));
      CharLiteralIff(s, alnum, 1);
    }
  }

  /** After a space it is blanked. */
  lemma LaterIsBlanked(src: string, s: string, alnum: char -> bool)
    requires IsLater(src, s)
    requires !alnum(' ') && StartsWithLiteral(src)
    ensures |Stripped(s, alnum)| > 1 && Stripped(s, alnum)[1] == ' '
  {
    NoPieceAtSpace(src, s, alnum);
    FirstIsKept(s, alnum);
    NoPieceAtStart(src, alnum);
    LiteralLaterOn(src, s, alnum);
    assert SameLater(src, s, 0);
    PieceIsBlank(s, alnum, 1);
  }

  lemma PieceIsBlank(src: string, alnum: char -> bool, i: nat)
    requires i < |src| && src[i] != '\n' && LeanPiece(src, alnum, i).Some? && !LeanPiece(src, alnum, i).value.kept
    ensures var out := CodeFrom(src, LexiconOf(src, alnum), i, 0, false).out; |out| > 0 && out[0] == ' '
  {
    var p := LeanPiece(src, alnum, i).value;
    assert Token(src, LexiconOf(src, alnum), i) == Some(Lexed(PieceText(src, i, p), p.end));
  }

  /**
   A space put before a source changes nothing in what is left of it, if and only if the source
   does not start with a raw string or a character literal.
   */
  lemma SpaceChangesNothingIff(src: string, alnum: char -> bool)
    requires !alnum(' ')
    ensures Stripped(" " + src, alnum) == " " + Stripped(src, alnum) <==> !StartsWithLiteral(src)
  {
    var s := " " + src;
    SpacedIsLater(src);
    if StartsWithLiteral(src) {
      StartIsKept(src, alnum);
      LaterIsBlanked(src, s, alnum);
    } else {
      SpaceIsKept(src, s, alnum);
    }
  }

  lemma SpaceIsKept(src: string, s: string, alnum: char -> bool)
    requires IsLater(src, s)
    requires !alnum(' ') && !StartsWithLiteral(src)
    ensures Stripped(s, alnum) == " " + Stripped(src, alnum)
  {
    NoPieceAtSpace(src, s, alnum);
    FirstIsKept(s, alnum);
    LexiconMoves(src, s, alnum);
    CodeLater(src, s, LexiconOf(src, alnum), LexiconOf(s, alnum), 0, 0, false);
  }
}
