// The Python writer of the training records, class PGN_Converter of
// src/pgn_to_td.py: `game_result`, `score`, `write_entry` and the loop of
// `process_game` over the nodes of one game. Every Python exception the
// code can raise (IndexError, ValueError, NameError, AssertionError,
// OverflowError) is a `None`; a Python `None` returned by `score` is
// `Some(None)`.

module PgnToTd {
  import opened Definitions
  import opened Wrappers
  import opened PgnFen
  import opened TrainingRecords

  /** MAX_EVAL_SCORE of src/constants.py. */
  const MAX_EVAL_SCORE: int := 30000

  /** game_result: the value of the Result header from White's view; it asserts on "*". */
  function GameResult(tag: string): Option<int> {
    if tag == "0-1" then Some(-1)
    else if tag == "1/2-1/2" then Some(0)
    else if tag == "1-0" then Some(1)
    else None
  }

  // ---------------------------------------------------------------------
  // Python's str.find, str.split, int() and float()
  // ---------------------------------------------------------------------

  /** str.find(ch, i): the first index of `ch` at or after `i`, or -1. */
  function PyFind(s: string, ch: char, i: nat): (r: int)
    ensures r == -1 || (i <= r < |s| && s[r] == ch)
    decreases |s| - i
  {
    if i >= |s| then -1 else if s[i] == ch then i else PyFind(s, ch, i + 1)
  }

  /** str.split(ch)[0]: the text before the first `ch`, or all of it. */
  function SplitHead(s: string, ch: char): (r: string)
    ensures |r| <= |s|
  {
    var i := PyFind(s, ch, 0);
    if i < 0 then s else s[..i]
  }

  /** str.isspace() for one character: the characters whose bidirectional class is
      WS, B or S, or whose category is Zs. */
  predicate PyIsSpace(ch: char) {
    ('\t' <= ch <= '\r') || ((28 as char) <= ch <= ' ') || ch == (0x85 as char) ||
    ch == (0xA0 as char) || ch == (0x1680 as char) || ((0x2000 as char) <= ch <= (0x200A as char)) ||
    ch == (0x2028 as char) || ch == (0x2029 as char) || ch == (0x202F as char) ||
    ch == (0x205F as char) || ch == (0x3000 as char)
  }

  function StripStart(s: string): (r: string)
    ensures |r| <= |s|
  {
    if |s| > 0 && PyIsSpace(s[0]) then StripStart(s[1..]) else s
  }

  function StripEnd(s: string): (r: string)
    ensures |r| <= |s|
  {
    if |s| > 0 && PyIsSpace(s[|s| - 1]) then StripEnd(s[..|s| - 1]) else s
  }

  /** The white space int() and float() ignore around a number. */
  function Strip(s: string): string {
    StripEnd(StripStart(s))
  }

  /** The text after an optional sign. */
  function Unsigned(t: string): string {
    if |t| > 0 && (t[0] == '+' || t[0] == '-') then t[1..] else t
  }

  /** int(s) in base 10: an optional sign and decimal digits, with white space around. */
  function PyInt(s: string): Option<int> {
    var t := Strip(s);
    var body := Unsigned(t);
    if |body| == 0 || !AllDigits(body) then None
    else if t[0] == '-' then Some(-(DigitsValue(body) as int))
    else Some(DigitsValue(body))
  }

  /** A number float() accepts, as its sign and its two runs of digits. */
  datatype PyDecimal = PyDecimal(negative: bool, whole: string, fraction: string)

  /** float(s) for the decimal forms `[sign]digits[.digits]` and `[sign].digits`, with
      white space around; `None` is the ValueError raised for other text. */
  function PyFloat(s: string): (r: Option<PyDecimal>)
    ensures r.Some? ==> AllDigits(r.value.whole) && AllDigits(r.value.fraction)
  {
    var t := Strip(s);
    var body := Unsigned(t);
    var n := DigitRun(body, 0);
    if n == |body| then
      if n == 0 then None else Some(PyDecimal(t[0] == '-', body, ""))
    else if body[n] != '.' || !AllDigits(body[n + 1..]) || |body| == 1 then None
    else Some(PyDecimal(t[0] == '-', body[..n], body[n + 1..]))
  }

  /** `float(s) == 0` */
  predicate IsZero(d: PyDecimal)
    requires AllDigits(d.whole) && AllDigits(d.fraction)
  {
    DigitsValue(d.whole) == 0 && DigitsValue(d.fraction) == 0
  }

  /** `int(100 * float(s))`, with the product taken exactly: truncated toward zero. */
  function Hundredfold(d: PyDecimal): int
    requires AllDigits(d.whole) && AllDigits(d.fraction)
  {
    var f1 := if |d.fraction| >= 1 then d.fraction[0] as int - 48 else 0;
    var f2 := if |d.fraction| >= 2 then d.fraction[1] as int - 48 else 0;
    var magnitude := 100 * DigitsValue(d.whole) + 10 * f1 + f2;
    if d.negative then -magnitude else magnitude
  }

  // ---------------------------------------------------------------------
  // score
  // ---------------------------------------------------------------------

  /** score(str): `Some(None)` where it returns None, `None` where it raises. */
  function Score(comment: string): Option<Option<int>> {
    if |comment| == 0 then None
    else
      var s := if comment[0] == '\n' then comment[1..] else comment;
      if PyFind(s, '/', 0) == 0 then Some(None)
      else ScoreValue(SplitHead(s, '/'))
  }

  /** The rest of score(str) for `score_str`, the text before the first '/': a signed text,
      or an unsigned number that is zero. */
  function ScoreValue(scoreStr: string): Option<Option<int>> {
    if |scoreStr| == 0 then None
    else if scoreStr[0] == '+' || scoreStr[0] == '-' then SignedScore(scoreStr)
    else
      match PyFloat(scoreStr)
      case None => None
      case Some(d) => if IsZero(d) then SignedScore(scoreStr) else Some(None)
  }

  /** The value of a score text once its first character is accepted: a mate distance after
      'M', else a number of pawns, negated after '-'. */
  function SignedScore(scoreStr: string): Option<Option<int>>
    requires |scoreStr| > 0
  {
    if |scoreStr| < 2 then None
    else
      var v :=
        if scoreStr[1] == 'M' then
          match PyInt(scoreStr[2..])
          case None => None
          case Some(n) => Some(MATE_SCORE - n)
        else
          match PyFloat(scoreStr[1..])
          case None => None
          case Some(d) => Some(Hundredfold(d));
      match v
      case None => None
      case Some(v) => Some(Some(if scoreStr[0] == '-' then -v else v))
  }

  // ---------------------------------------------------------------------
  // write_entry
  // ---------------------------------------------------------------------

  /** bytes(s, 'utf-8') for one character. */
  function Utf8Char(ch: char): (r: seq<Byte>)
    ensures 1 <= |r| <= 4
  {
    var c := ch as int;
    if c < 0x80 then [c]
    else if c < 0x800 then [0xC0 + c / 64, 0x80 + c % 64]
    else if c < 0x10000 then [0xE0 + c / 4096, 0x80 + (c / 64) % 64, 0x80 + c % 64]
    else [0xF0 + c / 262144, 0x80 + (c / 4096) % 64, 0x80 + (c / 64) % 64, 0x80 + c % 64]
  }

  /** bytes(s, 'utf-8') */
  function Utf8(s: string): (r: seq<Byte>)
    ensures |r| >= |s|
  {
    if |s| == 0 then [] else Utf8(s[..|s| - 1]) + Utf8Char(s[|s| - 1])
  }

  /** The three `to_bytes` calls of write_entry succeed, i.e. none raises OverflowError. */
  predicate EntryFits(fen: string, score: int, result: int) {
    |fen| <= 255 && IsInt16(score) && IsInt8(result)
  }

  /** The bytes write_entry appends: the length of `fen` in characters, its UTF-8 bytes, the
      score as a little-endian int16 and the result as an int8. */
  function Entry(fen: string, score: int, result: int): (r: seq<Byte>)
    requires EntryFits(fen, score, result)
    ensures |r| == 1 + |Utf8(fen)| + 2 + 1
  {
    [|fen|] + Utf8(fen) + Int16Bytes(score) + [U8(result)]
  }

  // ---------------------------------------------------------------------
  // process_game
  // ---------------------------------------------------------------------

  /** One node of game.mainline(): its comment, and the FEN and side to move of the board
      before its move. */
  datatype Node = Node(comment: string, parentFen: string, parentWhite: bool)

  /** The score test of process_game for a score that is not None: a score above
      MAX_EVAL_SCORE evaluates the undefined name MIN_MATE_SCORE, which raises NameError. */
  predicate InRange(v: int) {
    -MAX_EVAL_SCORE <= v <= MAX_EVAL_SCORE
  }

  /** `b` in front of the bytes of an outcome. */
  function Prepend(b: seq<Byte>, r: Option<(seq<Byte>, bool)>): Option<(seq<Byte>, bool)> {
    match r
    case None => None
    case Some((rest, abandoned)) => Some((b + rest, abandoned))
  }

  /** One node of process_game's loop: the bytes of its record, `Some(None)` where its
      score is None and the game is abandoned, `None` where it raises. */
  function NodeEntry(gr: int, node: Node): Option<Option<seq<Byte>>> {
    match Score(node.comment)
    case None => None
    case Some(None) => Some(None)
    case Some(Some(v)) =>
      var result := if node.parentWhite then gr else -gr;
      if !InRange(v) || !EntryFits(node.parentFen, v, result) then None
      else Some(Some(Entry(node.parentFen, v, result)))
  }

  lemma PrependNothing(r: Option<(seq<Byte>, bool)>)
    ensures Prepend([], r) == r
  {
    if r.Some? {
      assert [] + r.value.0 == r.value.0;
    }
  }

  lemma PrependTwice(a: seq<Byte>, b: seq<Byte>, r: Option<(seq<Byte>, bool)>)
    ensures Prepend(a, Prepend(b, r)) == Prepend(a + b, r)
  {
    if r.Some? {
      assert a + (b + r.value.0) == (a + b) + r.value.0;
    }
  }

  /** What processing one node leads to: its record, `Some(None)` to abandon the game,
      `None` to raise. */
  type NodeOutcome = Option<Option<seq<Byte>>>

  /** The loop of process_game over the outcomes of its nodes: the bytes it writes and
      whether it abandoned the game at an invalid score; `None` where it raises. */
  function Outcome(es: seq<NodeOutcome>): Option<(seq<Byte>, bool)>
    decreases |es|
  {
    if |es| == 0 then Some(([], false))
    else
      match es[0]
      case None => None
      case Some(None) => Some(([], true))
      case Some(Some(b)) => Prepend(b, Outcome(es[1..]))
  }

  /** The outcome of the loop from node `i` on, given the outcome of node `i`. */
  lemma OutcomeAt(es: seq<NodeOutcome>, i: nat)
    requires i < |es|
    ensures Outcome(es[i..]) ==
            match es[i]
            case None => None
            case Some(None) => Some(([], true))
            case Some(Some(b)) => Prepend(b, Outcome(es[i + 1..]))
  {
    assert es[i..][1..] == es[i + 1..];
  }

  /** The outcome of every node. */
  function NodeEntries(gr: int, nodes: seq<Node>): (es: seq<NodeOutcome>)
    ensures |es| == |nodes|
  {
    if |nodes| == 0 then [] else [NodeEntry(gr, nodes[0])] + NodeEntries(gr, nodes[1..])
  }

  lemma {:induction false} NodeEntriesAt(gr: int, nodes: seq<Node>, i: nat)
    requires i < |nodes|
    ensures NodeEntries(gr, nodes)[i] == NodeEntry(gr, nodes[i])
  {
    if i > 0 {
      NodeEntriesAt(gr, nodes[1..], i - 1);
    }
  }

  /** process_game's loop over `nodes` for the game result `gr`. */
  function GameEntries(gr: int, nodes: seq<Node>): Option<(seq<Byte>, bool)> {
    Outcome(NodeEntries(gr, nodes))
  }

  /** The PGN_Converter object without its file handles: the output buffer and the count of
      games abandoned at an invalid score. */
  class TdWriter {
    var buffer: seq<Byte>
    var numInvalidScores: nat

    constructor()
      ensures buffer == [] && numInvalidScores == 0
    {
      buffer := [];
      numInvalidScores := 0;
    }

    /** write_entry: four `extend` calls; `false` where a `to_bytes` raises, with the bytes
        of the calls before it already appended. */
    method WriteEntry(fen: string, score: int, result: int) returns (ok: bool)
      modifies this
      ensures ok == EntryFits(fen, score, result)
      ensures ok ==> buffer == old(buffer) + Entry(fen, score, result)
      ensures |old(buffer)| <= |buffer| && buffer[..|old(buffer)|] == old(buffer)
      ensures numInvalidScores == old(numInvalidScores)
    {
      if |fen| > 255 {
        return false;
      }
      buffer := buffer + [|fen|];
      buffer := buffer + Utf8(fen);
      if !IsInt16(score) {
        return false;
      }
      buffer := buffer + Int16Bytes(score);
      if !IsInt8(result) {
        return false;
      }
      buffer := buffer + [U8(result)];
      ok := true;
    }

    /** process_game for a game with Result header `tag` and main line `nodes`. */
    method ProcessGame(tag: string, nodes: seq<Node>) returns (ok: bool)
      modifies this
      ensures ok == (GameResult(tag).Some? && GameEntries(GameResult(tag).value, nodes).Some?)
      ensures ok ==> buffer == old(buffer) + GameEntries(GameResult(tag).value, nodes).value.0 &&
                     numInvalidScores == old(numInvalidScores) +
                                         (if GameEntries(GameResult(tag).value, nodes).value.1 then 1 else 0)
    {
      var gr := GameResult(tag);
      if gr.None? {
        return false;
      }
      ok := PlayGame(gr.value, nodes);
    }

    /** The loop of process_game over the main line, for the game result `gr`. */
    method PlayGame(gr: int, nodes: seq<Node>) returns (ok: bool)
      modifies this
      ensures ok == GameEntries(gr, nodes).Some?
      ensures ok ==> buffer == old(buffer) + GameEntries(gr, nodes).value.0 &&
                     numInvalidScores == old(numInvalidScores) + (if GameEntries(gr, nodes).value.1 then 1 else 0)
    {
      ghost var written: seq<Byte> := [];
      ghost var es := NodeEntries(gr, nodes);
      assert es[0..] == es;
      PrependNothing(Outcome(es));
      var i := 0;
      while i < |nodes|
        invariant 0 <= i <= |nodes|
        invariant buffer == old(buffer) + written && numInvalidScores == old(numInvalidScores)
        invariant Outcome(es) == Prepend(written, Outcome(es[i..]))
      {
        var abandoned;
        ghost var before := buffer;
        ok, abandoned := VisitAt(gr, nodes, i, es);
        OutcomeAt(es, i);
        if !ok || abandoned {
          return;
        }
        ghost var b := es[i].value.value;
        PrependTwice(written, b, Outcome(es[i + 1..]));
        assert buffer == old(buffer) + (written + b);
        written := written + b;
        i := i + 1;
      }
      ok := true;
    }

    /** The body of process_game's loop for node `i`, whose outcome is `es[i]`. */
    method VisitAt(gr: int, nodes: seq<Node>, i: nat, ghost es: seq<NodeOutcome>) returns (ok: bool, abandoned: bool)
      requires i < |nodes| && es == NodeEntries(gr, nodes)
      modifies this
      ensures ok == es[i].Some?
      ensures ok && abandoned ==> es[i] == Some(None) && buffer == old(buffer) &&
                                  numInvalidScores == old(numInvalidScores) + 1
      ensures ok && !abandoned ==> es[i].value.Some? && buffer == old(buffer) + es[i].value.value &&
                                   numInvalidScores == old(numInvalidScores)
    {
      NodeEntriesAt(gr, nodes, i);
      ok, abandoned := VisitNode(gr, nodes[i]);
    }

    /** The body of process_game's loop for one node. */
    method VisitNode(gr: int, node: Node) returns (ok: bool, abandoned: bool)
      modifies this
      ensures ok == NodeEntry(gr, node).Some?
      ensures ok && abandoned ==> NodeEntry(gr, node).value.None? && buffer == old(buffer) &&
                                  numInvalidScores == old(numInvalidScores) + 1
      ensures ok && !abandoned ==> NodeEntry(gr, node).value.Some? &&
                                   buffer == old(buffer) + NodeEntry(gr, node).value.value &&
                                   numInvalidScores == old(numInvalidScores)
    {
      abandoned := false;
      var score := Score(node.comment);
      if score.None? {
        return false, false;
      }
      if score.value.None? {
        numInvalidScores := numInvalidScores + 1;
        return true, true;
      }
      var v := score.value.value;
      if !InRange(v) {
        return false, false;
      }
      var result := if node.parentWhite then gr else -gr;
      ok := WriteEntry(node.parentFen, v, result);
    }
  }
}
