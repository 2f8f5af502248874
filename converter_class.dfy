// The Converter struct of src/PGN-converter/pgn_converter.h as an object whose
// methods update its fields in place, each proved against the functions of
// module PgnConverter. The position is held by value, as in the source.

module ConverterObject {
  import opened Definitions
  import opened Wrappers
  import opened PgnPosition
  import opened PgnFen
  import opened PgnMoves
  import opened TrainingRecords
  import opened PgnConverter

  class Converter {
    var buffer: seq<Byte>
    var position: State
    var fen: string
    var gameResult: int
    var score: int
    var isComment: bool
    var foundFEN: bool
    var isTagPair: bool

    function Snapshot(): Conv
      reads this
    {
      Conv(buffer, position, fen, gameResult, score, isComment, foundFEN, isTagPair)
    }

    /** The constructor sets only the two paths; the position, result and score start as
        whatever they were given, the buffer and FEN text empty. */
    constructor(position0: State, gameResult0: int, score0: int)
      ensures Snapshot() == Conv([], position0, "", gameResult0, score0, false, false, false)
    {
      buffer := [];
      position := position0;
      fen := "";
      gameResult := gameResult0;
      score := score0;
      isComment := false;
      foundFEN := false;
      isTagPair := false;
    }

    /** convert() without the file reading and writing: reset, then one processLine per line. */
    method Convert(lines: seq<string>) returns (ok: bool)
      modifies this
      ensures ok == ProcessLines(Started(old(Snapshot())), lines).Some?
      ensures ok ==> Snapshot() == ProcessLines(Started(old(Snapshot())), lines).value
    {
      buffer := [];
      isComment := false;
      isTagPair := true;
      foundFEN := false;
      var i := 0;
      while i < |lines|
        invariant 0 <= i <= |lines|
        invariant ProcessLines(Started(old(Snapshot())), lines) == ProcessLines(Snapshot(), lines[i..])
      {
        assert lines[i..][1..] == lines[i + 1..];
        ok := ProcessLine(lines[i]);
        if !ok {
          return;
        }
        i := i + 1;
      }
      ok := true;
    }

    method ProcessLine(line: string) returns (ok: bool)
      modifies this
      ensures ok == PgnConverter.ProcessLine(old(Snapshot()), line).Some?
      ensures ok ==> Snapshot() == PgnConverter.ProcessLine(old(Snapshot()), line).value
    {
      if |line| == 0 {
        ok := BlankLine();
        return;
      }
      if line[0] == '[' {
        ok := TagLine(line);
        return;
      }
      ok := TokenLoop(line);
    }

    /** A blank line: the end of a tag block. */
    method BlankLine() returns (ok: bool)
      modifies this
      ensures ok == PgnConverter.BlankLine(old(Snapshot())).Some?
      ensures ok ==> Snapshot() == PgnConverter.BlankLine(old(Snapshot())).value
    {
      if isTagPair {
        if !foundFEN {
          var start := ParseFen(START_FEN);
          if start.None? {
            return false;
          }
          position := start.value;
        }
        isTagPair := false;
        foundFEN := false;
      }
      ok := true;
    }

    /** The movetext loop over the blank-separated tokens of a line. */
    method TokenLoop(line: string) returns (ok: bool)
      modifies this
      ensures ok == Tokens(old(Snapshot()), line, 0).Some?
      ensures ok ==> Snapshot() == Tokens(old(Snapshot()), line, 0).value
    {
      var idx := 0;
      while idx < |line|
        invariant Tokens(old(Snapshot()), line, 0) == Tokens(Snapshot(), line, idx)
        decreases |line| - idx
      {
        ghost var before := Snapshot();
        var spaceIdx := FindFirst(line, ' ', idx);
        var len := if spaceIdx == NPOS then |line| - idx else spaceIdx - idx;
        assert len == TokenLength(line, idx);
        ghost var t := Token(before, line, idx, len);
        assert Tokens(before, line, idx) == if t.None? then None else Tokens(t.value, line, idx + len + 1);
        ok := ReadToken(line, idx, len);
        if !ok {
          return;
        }
        idx := idx + len + 1;
      }
      ok := true;
    }

    /** A tag pair: the result tag, the FEN tag, or any other. */
    method TagLine(line: string) returns (ok: bool)
      requires |line| > 0
      modifies this
      ensures ok == PgnConverter.TagLine(old(Snapshot()), line).Some?
      ensures ok ==> Snapshot() == PgnConverter.TagLine(old(Snapshot()), line).value
    {
      if line[|line| - 1] != ']' {
        return false;
      }
      if |line| >= 14 && line[1..7] == "Result" {
        var c := line[11];
        if c == '1' {
          gameResult := -1;
        } else if c == '0' {
          gameResult := 1;
        } else {
          gameResult := 0;
        }
      } else if |line| >= 6 && line[1..4] == "FEN" {
        foundFEN := true;
        var parsed := ParseFen(Substr(line, 6, |line| - 3));
        if parsed.None? {
          return false;
        }
        position := parsed.value;
      }
      isTagPair := true;
      ok := true;
    }

    /** The body of the token loop for the token at `idx` of length `len`. */
    method ReadToken(line: string, idx: nat, len: nat) returns (ok: bool)
      requires idx < |line| && idx + len <= |line|
      modifies this
      ensures ok == Token(old(Snapshot()), line, idx, len).Some?
      ensures ok ==> Snapshot() == Token(old(Snapshot()), line, idx, len).value
    {
      if line[idx] == '{' {
        isComment := true;
      }
      if isComment {
        ok := CommentStep(line, idx, len);
      } else {
        ok := MoveStep(line, idx, len);
      }
    }

    /** A comment token: the score after '+' or '-', the closing '}', the record. */
    method CommentStep(line: string, idx: nat, len: nat) returns (ok: bool)
      requires idx < |line| && idx + len <= |line|
      modifies this
      ensures ok == CommentToken(old(Snapshot()), line, idx, len).Some?
      ensures ok ==> Snapshot() == CommentToken(old(Snapshot()), line, idx, len).value
    {
      var foundScore;
      ok, foundScore := ReadScore(line, idx);
      if !ok {
        return;
      }
      ok := CommentEndStep(line, idx, len, foundScore);
    }

    method CommentEndStep(line: string, idx: nat, len: nat, foundScore: bool) returns (ok: bool)
      requires idx + len <= |line|
      modifies this
      ensures ok == CommentEnd(old(Snapshot()), line, idx, len, foundScore).Some?
      ensures ok ==> Snapshot() == CommentEnd(old(Snapshot()), line, idx, len, foundScore).value
    {
      if idx + len == 0 {
        return false;
      }
      if line[idx + len - 1] == '}' {
        isComment := false;
      }
      if foundScore {
        if |fen| > 255 {
          return false;
        }
        var relativeGameResult := I8(if position.stm then gameResult else -gameResult);
        buffer := buffer + Record(TextBytes(fen), score, relativeGameResult);
      }
      ok := true;
    }

    /** The score of a comment token: `+Mn` and `-Mn` through std::stoi, other values
        through atof. */
    method ReadScore(line: string, idx: nat) returns (ok: bool, foundScore: bool)
      requires idx < |line|
      modifies this
      ensures ok == ScoreAnnotation(line, idx).Some?
      ensures ok ==> foundScore == ScoreAnnotation(line, idx).value.Some? &&
                     Snapshot() == old(Snapshot()).(score := if foundScore then ScoreAnnotation(line, idx).value.value else old(score))
    {
      foundScore := false;
      if CharAt(line, idx + 1) == '+' {
        foundScore := true;
        if CharAt(line, idx + 2) == 'M' {
          var n := Stoi(ScoreText(line, idx, idx + 3));
          if n.None? || MATE_SCORE - n.value > INT_MAX {
            return false, true;
          }
          score := I16(MATE_SCORE - n.value);
        } else {
          var v := Centipawns(ScoreText(line, idx, idx + 2));
          if !IsInt16(v) {
            return false, true;
          }
          score := v;
        }
      } else if CharAt(line, idx + 1) == '-' {
        foundScore := true;
        if CharAt(line, idx + 2) == 'M' {
          var n := Stoi(ScoreText(line, idx, idx + 3));
          if n.None? || -MATE_SCORE + n.value < INT_MIN {
            return false, true;
          }
          score := I16(-MATE_SCORE + n.value);
        } else {
          var v := -Centipawns(ScoreText(line, idx, idx + 2));
          if !IsInt16(v) {
            return false, true;
          }
          score := v;
        }
      }
      ok := true;
    }

    /** A token outside comments: skip move numbers and results, otherwise keep the FEN and
        play the move. */
    method MoveStep(line: string, idx: nat, len: nat) returns (ok: bool)
      requires idx + len <= |line|
      modifies this
      ensures ok == MoveToken(old(Snapshot()), line, idx, len).Some?
      ensures ok ==> Snapshot() == MoveToken(old(Snapshot()), line, idx, len).value
    {
      if idx + len == 0 {
        return false;
      }
      var token := line[idx..idx + len];
      if line[idx + len - 1] != '.' && token != "1-0" && token != "0-1" && token != "1/2-1/2" {
        var text := FenText(position);
        if text.None? {
          return false;
        }
        fen := text.value;
        var next := ApplyMove(position, token);
        if next.None? {
          return false;
        }
        position := next.value;
      }
      ok := true;
    }
  }
}
