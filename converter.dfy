// Converter::processLine of src/PGN-converter/pgn_converter.h: the line and
// token state machine that turns annotated game text into training records.
// `Conv` holds the converter's fields as a value; the functions below say what
// one line does to them, and the class `Converter` runs the source's loop.

module PgnConverter {
  import opened Definitions
  import opened Wrappers
  import opened PgnPosition
  import opened PgnFen
  import opened PgnMoves
  import opened TrainingRecords

  /** The fields of Converter that processLine reads and writes. */
  datatype Conv = Conv(
    buffer: seq<Byte>,
    position: State,
    fen: string,
    gameResult: int,
    score: int,
    isComment: bool,
    foundFEN: bool,
    isTagPair: bool)

  /** `size_t` arithmetic wraps modulo 2^64. */
  function SizeT(x: int): nat {
    x % 0x1_0000_0000_0000_0000
  }

  /** `line[i]` for `i <= size()`: the view is built on a std::string, whose character at
      `size()` is its terminating NUL. */
  function CharAt(line: string, i: nat): char
    requires i <= |line|
  {
    if i < |line| then line[i] else 0 as char
  }

  // ---------------------------------------------------------------------
  // Blank lines and tag pairs
  // ---------------------------------------------------------------------

  /** A blank line ends a tag block: without a FEN tag the position restarts from
      `Position::startPosition()`. Outside a tag block it does nothing. */
  function BlankLine(c: Conv): Option<Conv> {
    if !c.isTagPair then Some(c)
    else if c.foundFEN then Some(c.(isTagPair := false, foundFEN := false))
    else
      match ParseFen(START_FEN)
      case None => None
      case Some(st) => Some(c.(position := st, isTagPair := false, foundFEN := false))
  }

  /** The result tag's character at offset 11: '0' ends "1-0", '1' ends "0-1". */
  function ResultCode(ch: char): int {
    if ch == '1' then -1 else if ch == '0' then 1 else 0
  }

  /** A line starting with '['; it must end with ']'. */
  function TagLine(c: Conv, line: string): Option<Conv>
    requires |line| > 0
  {
    if line[|line| - 1] != ']' then None
    else if |line| >= 14 && line[1..7] == "Result" then
      Some(c.(gameResult := ResultCode(line[11]), isTagPair := true))
    else if |line| >= 6 && line[1..4] == "FEN" then
      match ParseFen(Substr(line, 6, |line| - 3))
      case None => None
      case Some(st) => Some(c.(foundFEN := true, position := st, isTagPair := true))
    else Some(c.(isTagPair := true))
  }

  // ---------------------------------------------------------------------
  // Scores
  // ---------------------------------------------------------------------

  /** The value of a decimal digit. */
  function DigitValue(ch: char): nat
    requires IsDigit(ch)
  {
    ch as int - 48
  }

  /** `100 * atof(s)` truncated toward zero, for the decimal forms `[+-]digits[.digits]`
      after leading white space; 0 when there is no number at the start. */
  function Centipawns(s: string): int {
    var i := SkipSpaces(s, 0);
    var negative := i < |s| && s[i] == '-';
    var j := if i < |s| && (s[i] == '+' || s[i] == '-') then i + 1 else i;
    var n := DigitRun(s, j);
    var dot := j + n < |s| && s[j + n] == '.';
    var m := if dot then DigitRun(s, j + n + 1) else 0;
    if n + m == 0 then 0
    else
      var d1 := if m >= 1 then DigitValue(s[j + n + 1]) else 0;
      var d2 := if m >= 2 then DigitValue(s[j + n + 2]) else 0;
      var magnitude := 100 * DigitsValue(s[j..j + n]) + 10 * d1 + d2;
      if negative then -magnitude else magnitude
  }

  /** The text of a score after its sign (and 'M'), from `from` up to the first '/' after
      `idx`, whose index is narrowed to a `uint8_t`; the count `slashIdx - from` wraps as a
      `size_t`. */
  function ScoreText(line: string, idx: nat, from: nat): string
    requires from <= |line|
  {
    Substr(line, from, SizeT(U8(FindFirst(line, '/', idx)) - from))
  }

  /** `±MATE_SCORE ∓ std::stoi(...)`: `None` where std::stoi throws or the int overflows. */
  function MateValue(sign: char, n: Option<int>): Option<Option<int>> {
    match n
    case None => None
    case Some(n) =>
      var v := if sign == '+' then MATE_SCORE - n else -MATE_SCORE + n;
      if v < INT_MIN || v > INT_MAX then None else Some(Some(I16(v)))
  }

  /** `±100 * atof(...)` stored in the int16 `score`: `None` where it does not fit. */
  function PawnValue(sign: char, cp: int): Option<Option<int>> {
    var v := if sign == '+' then cp else -cp;
    if IsInt16(v) then Some(Some(v)) else None
  }

  /** The score a comment token starting at `idx` carries: `Some(None)` when its second
      character is neither '+' nor '-'. */
  function ScoreAnnotation(line: string, idx: nat): Option<Option<int>>
    requires idx < |line|
  {
    var sign := CharAt(line, idx + 1);
    if sign != '+' && sign != '-' then Some(None)
    else if CharAt(line, idx + 2) == 'M' then MateValue(sign, Stoi(ScoreText(line, idx, idx + 3)))
    else PawnValue(sign, Centipawns(ScoreText(line, idx, idx + 2)))
  }

  // ---------------------------------------------------------------------
  // Movetext tokens
  // ---------------------------------------------------------------------

  /** The length of the token at `idx`: up to the next blank or the end of the line. */
  function TokenLength(line: string, idx: nat): (len: nat)
    requires idx < |line|
    ensures idx + len <= |line|
  {
    var space := FindFirst(line, ' ', idx);
    if space == NPOS then |line| - idx else space - idx
  }

  /** `position.stm ? gameResult : -gameResult` narrowed to the `int8_t` written. */
  function RelativeResult(c: Conv): int {
    I8(if c.position.stm then c.gameResult else -c.gameResult)
  }

  /** A token in comment mode: read a score, leave comment mode on a closing '}', and
      store a record for a score. */
  function CommentToken(c: Conv, line: string, idx: nat, len: nat): Option<Conv>
    requires idx < |line| && idx + len <= |line|
  {
    CommentWith(c, line, idx, len, ScoreAnnotation(line, idx))
  }

  /** A comment token whose score annotation reads as `annotation`. */
  function CommentWith(c: Conv, line: string, idx: nat, len: nat, annotation: Option<Option<int>>): Option<Conv>
    requires idx + len <= |line|
  {
    match annotation
    case None => None
    case Some(found) =>
      CommentEnd(c.(score := if found.Some? then found.value else c.score), line, idx, len, found.Some?)
  }

  /** The rest of a comment token once its score is read. */
  function CommentEnd(c: Conv, line: string, idx: nat, len: nat, foundScore: bool): Option<Conv>
    requires idx + len <= |line|
  {
    if idx + len == 0 then None
    else
      var c1 := c.(isComment := if line[idx + len - 1] == '}' then false else c.isComment);
      if !foundScore then Some(c1)
      else if |c1.fen| > 255 then None
      else Some(c1.(buffer := c1.buffer + Record(TextBytes(c1.fen), c1.score, RelativeResult(c1))))
  }

  /** A movetext token that is neither a move number nor a result. */
  predicate IsMoveToken(line: string, idx: nat, len: nat)
    requires idx + len <= |line| && idx + len > 0
  {
    var tok := line[idx..idx + len];
    line[idx + len - 1] != '.' && tok != "1-0" && tok != "0-1" && tok != "1/2-1/2"
  }

  /** A token outside a comment: remember the FEN before the move, then play the move. */
  function MoveToken(c: Conv, line: string, idx: nat, len: nat): Option<Conv>
    requires idx + len <= |line|
  {
    if idx + len == 0 then None
    else if !IsMoveToken(line, idx, len) then Some(c)
    else
      match FenText(c.position)
      case None => None
      case Some(f) =>
        match ApplyMove(c.position, line[idx..idx + len])
        case None => None
        case Some(p) => Some(c.(fen := f, position := p))
  }

  /** One token: '{' opens comment mode, which lasts until a token ending with '}'. */
  function Token(c: Conv, line: string, idx: nat, len: nat): Option<Conv>
    requires idx < |line| && idx + len <= |line|
  {
    var c1 := if line[idx] == '{' then c.(isComment := true) else c;
    if c1.isComment then CommentToken(c1, line, idx, len) else MoveToken(c1, line, idx, len)
  }

  /** The token loop from offset `idx`. */
  function Tokens(c: Conv, line: string, idx: nat): Option<Conv>
    decreases |line| - idx
  {
    if idx >= |line| then Some(c)
    else
      var len := TokenLength(line, idx);
      match Token(c, line, idx, len)
      case None => None
      case Some(c1) => Tokens(c1, line, idx + len + 1)
  }

  /** processLine: `None` where the source fails an assert, throws, or reads outside the line. */
  function ProcessLine(c: Conv, line: string): Option<Conv> {
    if |line| == 0 then BlankLine(c)
    else if line[0] == '[' then TagLine(c, line)
    else Tokens(c, line, 0)
  }

  /** The lines of a file, one processLine each. */
  function ProcessLines(c: Conv, lines: seq<string>): Option<Conv>
    decreases |lines|
  {
    if |lines| == 0 then Some(c)
    else
      match ProcessLine(c, lines[0])
      case None => None
      case Some(c1) => ProcessLines(c1, lines[1..])
  }

  /** The fields convert() sets before its first line. */
  function Started(c: Conv): Conv {
    c.(buffer := [], isComment := false, isTagPair := true, foundFEN := false)
  }
}
