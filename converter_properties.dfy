// What Converter::processLine (src/PGN-converter/pgn_converter.h) promises:
// the tag-block reset, the result and FEN tags, comment mode, the scores it
// reads, and the records it appends.

module ConverterProperties {
  import opened Definitions
  import opened Wrappers
  import opened PgnPosition
  import opened PgnFen
  import opened PgnMoves
  import opened TrainingRecords
  import opened PgnConverter
  import opened FenRoundTrip

  // ---------------------------------------------------------------------
  // Blank lines and tags
  // ---------------------------------------------------------------------

  /** A blank line outside a tag block changes nothing. */
  lemma BlankLineOutsideBlock(c: Conv)
    requires !c.isTagPair
    ensures ProcessLine(c, "") == Some(c)
  {
  }

  /** A blank line after a tag block clears both flags and keeps the records; the position
      is kept after a FEN tag and is the start position otherwise. */
  lemma BlankLineEndsBlock(c: Conv)
    requires c.isTagPair && ProcessLine(c, "").Some?
    ensures var r := ProcessLine(c, "").value;
            !r.isTagPair && !r.foundFEN && r.buffer == c.buffer && r.fen == c.fen &&
            r.gameResult == c.gameResult && r.score == c.score && r.isComment == c.isComment &&
            (c.foundFEN ==> r.position == c.position) &&
            (!c.foundFEN ==> ParseFen(START_FEN) == Some(r.position))
  {
  }

  /** A tag line must end with ']'. */
  lemma TagNeedsBracket(c: Conv, line: string)
    requires |line| > 0 && line[0] == '[' && line[|line| - 1] != ']'
    ensures ProcessLine(c, line).None?
  {
  }

  /** The Result tag sets the game result from the character at offset 11 and nothing else. */
  lemma ResultTag(c: Conv, line: string)
    requires |line| >= 14 && line[0] == '[' && line[|line| - 1] == ']' && line[1..7] == "Result"
    ensures ProcessLine(c, line) == Some(c.(gameResult := ResultCode(line[11]), isTagPair := true))
  {
  }

  /** The three results of the PGN standard: "1-0" is +1, "0-1" is -1, "1/2-1/2" is 0. */
  lemma ResultTagValues(c: Conv)
    ensures ProcessLine(c, "[Result \"1-0\"]") == Some(c.(gameResult := 1, isTagPair := true))
    ensures ProcessLine(c, "[Result \"0-1\"]") == Some(c.(gameResult := -1, isTagPair := true))
    ensures ProcessLine(c, "[Result \"1/2-1/2\"]") == Some(c.(gameResult := 0, isTagPair := true))
  {
    ResultTag(c, "[Result \"1-0\"]");
    ResultTag(c, "[Result \"0-1\"]");
    ResultTag(c, "[Result \"1/2-1/2\"]");
  }

  /** The FEN tag parses the position from offset 6 (the parser stops at the closing quote)
      and marks the block as carrying a FEN. */
  lemma FenTag(c: Conv, line: string)
    requires |line| >= 6 && line[0] == '[' && line[|line| - 1] == ']' && line[1..4] == "FEN"
    requires !(|line| >= 14 && line[1..7] == "Result")
    requires ProcessLine(c, line).Some?
    ensures var r := ProcessLine(c, line).value;
            r == c.(foundFEN := true, position := r.position, isTagPair := true) &&
            ParseFen(line[6..]) == Some(r.position)
  {
    assert Substr(line, 6, |line| - 3) == line[6..];
  }

  /** Any other tag only marks the tag block. */
  lemma OtherTag(c: Conv, line: string)
    requires |line| > 0 && line[0] == '[' && line[|line| - 1] == ']'
    requires !(|line| >= 14 && line[1..7] == "Result") && !(|line| >= 6 && line[1..4] == "FEN")
    ensures ProcessLine(c, line) == Some(c.(isTagPair := true))
  {
  }

  // ---------------------------------------------------------------------
  // Scores
  // ---------------------------------------------------------------------

  /** `+Mn/d` is a mate found in n: `MATE_SCORE - n`; `-Mn/d` is `-MATE_SCORE + n`. */
  lemma MateScore(line: string, idx: nat, n: int)
    requires idx + 2 < |line| && (line[idx + 1] == '+' || line[idx + 1] == '-') && line[idx + 2] == 'M'
    requires Stoi(ScoreText(line, idx, idx + 3)) == Some(n)
    requires 0 <= n <= MATE_SCORE
    ensures ScoreAnnotation(line, idx) ==
            Some(Some(if line[idx + 1] == '+' then MATE_SCORE - n else -MATE_SCORE + n))
  {
  }

  /** A token whose second character is not a sign carries no score. */
  lemma NoScore(line: string, idx: nat)
    requires idx + 1 < |line| && line[idx + 1] != '+' && line[idx + 1] != '-'
    ensures ScoreAnnotation(line, idx) == Some(None)
  {
  }

  /** `+x.yz/d` and `-x.yz/d` read `x.yz` pawns as ±100 times that many centipawns. */
  lemma PawnScore(line: string, idx: nat, cp: int)
    requires idx + 2 < |line| && (line[idx + 1] == '+' || line[idx + 1] == '-') && line[idx + 2] != 'M'
    requires Centipawns(ScoreText(line, idx, idx + 2)) == cp
    requires IsInt16(cp) && IsInt16(-cp)
    ensures ScoreAnnotation(line, idx) == Some(Some(if line[idx + 1] == '+' then cp else -cp))
  {
  }

  /** The digits of a two-decimal pawn value give exactly its centipawns. */
  lemma CentipawnsOfDecimal(n: nat, d1: nat, d2: nat, rest: string)
    requires d1 < 10 && d2 < 10 && (|rest| == 0 || !IsDigit(rest[0]))
    ensures Centipawns(Decimal(n) + "." + [DigitChar(d1), DigitChar(d2)] + rest) == 100 * n + 10 * d1 + d2
  {
    var s := Decimal(n) + "." + [DigitChar(d1), DigitChar(d2)] + rest;
    var ds := Decimal(n);
    DecimalValue(n);
    var k := |ds|;
    assert s[..k] == ds && s[0..k] == ds;
    assert s[k] == '.';
    assert IsDigit(s[0]) by { assert s[0] == ds[0]; }
    DigitRunExact(s, 0, k);
    assert s[k + 1] == DigitChar(d1) && s[k + 2] == DigitChar(d2);
    DigitRunCount(s, k + 1, d1, d2);
    CentipawnsPlain(s, k);
  }

  /** An unsigned value of `k` digits, a dot and at least two more digits. */
  lemma CentipawnsPlain(s: string, k: nat)
    requires 0 < k && k + 2 < |s| && IsDigit(s[0]) && DigitRun(s, 0) == k && s[k] == '.'
    requires DigitRun(s, k + 1) >= 2
    ensures Centipawns(s) == 100 * DigitsValue(s[0..k]) + 10 * DigitValue(s[k + 1]) + DigitValue(s[k + 2])
  {
    assert SkipSpaces(s, 0) == 0;
  }

  lemma DigitRunCount(s: string, i: nat, d1: nat, d2: nat)
    requires d1 < 10 && d2 < 10 && i + 2 <= |s| && s[i] == DigitChar(d1) && s[i + 1] == DigitChar(d2)
    ensures DigitRun(s, i) >= 2 && DigitValue(s[i]) == d1 && DigitValue(s[i + 1]) == d2
  {
  }

  // ---------------------------------------------------------------------
  // Tokens
  // ---------------------------------------------------------------------

  /** Comment mode opens on a token starting with '{' and closes on a token ending with '}';
      otherwise it carries over from token to token. */
  lemma CommentMode(c: Conv, line: string, idx: nat, len: nat)
    requires idx < |line| && idx + len <= |line| && Token(c, line, idx, len).Some?
    ensures Token(c, line, idx, len).value.isComment ==
            ((c.isComment || line[idx] == '{') && line[idx + len - 1] != '}')
  {
  }

  /** Outside comments, move numbers and results are skipped. */
  lemma SkippedToken(c: Conv, line: string, idx: nat, len: nat)
    requires idx < |line| && idx + len <= |line| && 0 < idx + len
    requires !c.isComment && line[idx] != '{' && !IsMoveToken(line, idx, len)
    ensures Token(c, line, idx, len) == Some(c)
  {
  }

  /** Every other token outside comments keeps the FEN before the move, then plays it. */
  lemma MoveTokenPlays(c: Conv, line: string, idx: nat, len: nat)
    requires idx < |line| && idx + len <= |line| && 0 < idx + len
    requires !c.isComment && line[idx] != '{' && IsMoveToken(line, idx, len)
    requires Token(c, line, idx, len).Some?
    ensures var r := Token(c, line, idx, len).value;
            Some(r.fen) == FenText(c.position) &&
            Some(r.position) == ApplyMove(c.position, line[idx..idx + len]) &&
            r == c.(fen := r.fen, position := r.position)
  {
  }

  /** A scored comment token (the form InComment gives every token in comment mode)
      appends one record holding the FEN before the last move, the score and the result
      from the view of the side to move in that FEN; the bytes before it are kept, and
      comment mode ends when the token ends with '}'. */
  lemma ScoredToken(c: Conv, line: string, idx: nat, len: nat, v: int)
    requires idx < |line| && idx + len <= |line| && 0 < idx + len
    requires ScoreAnnotation(line, idx) == Some(Some(v)) && |c.fen| <= 255
    ensures CommentToken(c, line, idx, len) ==
            Some(c.(isComment := if line[idx + len - 1] == '}' then false else c.isComment, score := v,
                    buffer := c.buffer + Record(TextBytes(c.fen), v, RelativeResult(c))))
  {
    CommentScored(c, line, idx, len, v);
  }

  /** In comment mode a token is read as a comment. */
  lemma InComment(c: Conv, line: string, idx: nat, len: nat)
    requires idx < |line| && idx + len <= |line|
    requires c.isComment || line[idx] == '{'
    ensures Token(c, line, idx, len) == CommentToken(c.(isComment := true), line, idx, len)
  {
    if c.isComment {
      assert c.(isComment := true) == c;
    }
  }

  /** A comment token with a score stores that score and appends its record. */
  lemma CommentScored(c: Conv, line: string, idx: nat, len: nat, v: int)
    requires idx + len <= |line| && 0 < idx + len && |c.fen| <= 255
    ensures CommentWith(c, line, idx, len, Some(Some(v))) ==
            Some(c.(isComment := if line[idx + len - 1] == '}' then false else c.isComment, score := v,
                    buffer := c.buffer + Record(TextBytes(c.fen), v, RelativeResult(c))))
  {
    var c1 := c.(score := v);
    assert CommentWith(c, line, idx, len, Some(Some(v))) == CommentEnd(c1, line, idx, len, true);
    CommentEndScored(c1, line, idx, len);
    assert RelativeResult(c1) == RelativeResult(c);
  }

  /** The end of a scored comment token appends the record of the FEN and the score. */
  lemma CommentEndScored(c: Conv, line: string, idx: nat, len: nat)
    requires idx + len <= |line| && 0 < idx + len && |c.fen| <= 255
    ensures CommentEnd(c, line, idx, len, true) ==
            Some(c.(isComment := if line[idx + len - 1] == '}' then false else c.isComment,
                    buffer := c.buffer + Record(TextBytes(c.fen), c.score, RelativeResult(c))))
  {
    var c1 := c.(isComment := if line[idx + len - 1] == '}' then false else c.isComment);
    assert RelativeResult(c1) == RelativeResult(c);
  }

  /** A scored comment token with a FEN longer than 255 characters fails the size assert. */
  lemma LongFenFails(c: Conv, line: string, idx: nat, len: nat, v: int)
    requires idx < |line| && idx + len <= |line| && 0 < idx + len
    requires c.isComment || line[idx] == '{'
    requires ScoreAnnotation(line, idx) == Some(Some(v)) && |c.fen| > 255
    ensures Token(c, line, idx, len).None?
  {
    InComment(c, line, idx, len);
  }

  /** For a result of -1, 0 or 1 the stored result is the game result when black is to move
      after the move (white moved, from the view of the FEN stored), its negation otherwise. */
  lemma ResultRelative(c: Conv)
    requires -1 <= c.gameResult <= 1
    ensures RelativeResult(c) == if c.position.stm == BLACK then c.gameResult else -c.gameResult
  {
  }

  // ---------------------------------------------------------------------
  // The buffer
  // ---------------------------------------------------------------------

  /** A token never changes bytes already in the buffer. */
  lemma TokenKeepsBuffer(c: Conv, line: string, idx: nat, len: nat)
    requires idx < |line| && idx + len <= |line| && Token(c, line, idx, len).Some?
    ensures c.buffer <= Token(c, line, idx, len).value.buffer
  {
  }

  lemma {:induction false} TokensKeepBuffer(c: Conv, line: string, idx: nat)
    requires Tokens(c, line, idx).Some?
    ensures c.buffer <= Tokens(c, line, idx).value.buffer
    decreases |line| - idx
  {
    if idx < |line| {
      var len := TokenLength(line, idx);
      var c1 := Token(c, line, idx, len).value;
      var t := Tokens(c1, line, idx + len + 1);
      assert Tokens(c, line, idx) == t;
      TokenKeepsBuffer(c, line, idx, len);
      TokensKeepBuffer(c1, line, idx + len + 1);
      PrefixTransitive(c.buffer, c1.buffer, t.value.buffer);
    }
  }

  lemma PrefixTransitive(a: seq<Byte>, b: seq<Byte>, c: seq<Byte>)
    requires a <= b && b <= c
    ensures a <= c
  {
    assert a == b[..|a|] && b == c[..|b|];
    assert a == c[..|a|];
  }

  /** processLine only appends to the buffer. */
  lemma LineKeepsBuffer(c: Conv, line: string)
    requires ProcessLine(c, line).Some?
    ensures c.buffer <= ProcessLine(c, line).value.buffer
  {
    if |line| > 0 && line[0] != '[' {
      TokensKeepBuffer(c, line, 0);
    }
  }

  /** ... and so does a run of lines. */
  lemma {:induction false} LinesKeepBuffer(c: Conv, lines: seq<string>)
    requires ProcessLines(c, lines).Some?
    ensures c.buffer <= ProcessLines(c, lines).value.buffer
    decreases |lines|
  {
    if |lines| > 0 {
      var c1 := ProcessLine(c, lines[0]).value;
      LineKeepsBuffer(c, lines[0]);
      LinesKeepBuffer(c1, lines[1..]);
    }
  }
}
