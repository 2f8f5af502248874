// Properties of the Python record writer: the Result header read back, the
// scores of the annotations engines write, the '/' test that only rejects a
// leading '/', the bytes of one entry equal to the record the C++ converter
// writes, and a game abandoned at its first invalid score.

module PgnToTdProperties {
  import opened Definitions
  import opened Wrappers
  import opened PgnFen
  import opened FenRoundTrip
  import opened TrainingRecords
  import opened PgnToTd

  // ---------------------------------------------------------------------
  // game_result
  // ---------------------------------------------------------------------

  /** The Result header of PGN for a result from White's view. */
  function ResultTag(v: int): string
    requires -1 <= v <= 1
  {
    if v == 1 then "1-0" else if v == -1 then "0-1" else "1/2-1/2"
  }

  /** game_result gives `v` exactly for the header of result `v`; every other header, "*"
      among them, raises. */
  lemma GameResultTag(tag: string, v: int)
    ensures GameResult(tag) == Some(v) <==> -1 <= v <= 1 && tag == ResultTag(v)
  {
    if GameResult(tag) == Some(v) {
      assert tag == "0-1" || tag == "1/2-1/2" || tag == "1-0";
    }
  }

  lemma GameResultUnfinished()
    ensures GameResult("*") == None
  {
    assert "*" != "0-1" && "*" != "1-0" && "*" != "1/2-1/2";
  }

  // ---------------------------------------------------------------------
  // int() and float() of printed numbers
  // ---------------------------------------------------------------------

  lemma PyIntDecimal(n: nat)
    ensures PyInt(Decimal(n)) == Some(n)
  {
    var t := Decimal(n);
    assert !PyIsSpace(t[0]) && !PyIsSpace(t[|t| - 1]);
    assert StripStart(t) == t;
    assert Strip(t) == t;
    assert Unsigned(t) == t;
    DecimalValue(n);
  }

  /** float() of `n.d1d2`, and 100 times it. */
  lemma PyFloatDecimal(n: nat, d1: nat, d2: nat)
    requires d1 < 10 && d2 < 10
    ensures var t := Decimal(n) + "." + [DigitChar(d1), DigitChar(d2)];
            var d := PyDecimal(false, Decimal(n), [DigitChar(d1), DigitChar(d2)]);
            PyFloat(t) == Some(d) && Hundredfold(d) == 100 * n + 10 * d1 + d2
  {
    var ds := Decimal(n);
    var frac := [DigitChar(d1), DigitChar(d2)];
    var t := ds + "." + frac;
    assert t[0] == ds[0];
    assert !PyIsSpace(t[0]) && !PyIsSpace(t[|t| - 1]);
    assert StripStart(t) == t;
    assert Strip(t) == t;
    assert Unsigned(t) == t;
    assert t[0..|ds|] == ds;
    DigitRunExact(t, 0, |ds|);
    assert t[..|ds|] == ds && t[|ds|] == '.' && t[|ds| + 1..] == frac;
    PyFloatPlain(t, ds, frac);
    DecimalValue(n);
    HundredfoldDigits(ds, d1, d2);
  }

  /** float() of an unsigned, unspaced `whole.fraction`. */
  lemma PyFloatPlain(t: string, whole: string, fraction: string)
    requires 0 < |whole| && Strip(t) == t && Unsigned(t) == t && AllDigits(fraction)
    requires DigitRun(t, 0) == |whole| < |t| && t[..|whole|] == whole && t[|whole|] == '.'
    requires t[|whole| + 1..] == fraction
    ensures PyFloat(t) == Some(PyDecimal(false, whole, fraction))
  {
    assert t[0] != '-' by { assert t[0] == whole[0]; }
  }

  /** 100 times `whole.d1d2`. */
  lemma HundredfoldDigits(whole: string, d1: nat, d2: nat)
    requires d1 < 10 && d2 < 10 && AllDigits(whole)
    ensures Hundredfold(PyDecimal(false, whole, [DigitChar(d1), DigitChar(d2)])) ==
            100 * DigitsValue(whole) + 10 * d1 + d2
  {
  }

  // ---------------------------------------------------------------------
  // score
  // ---------------------------------------------------------------------

  lemma {:induction false} PyFindAt(s: string, ch: char, i: nat, j: nat)
    requires i <= j < |s| && s[j] == ch
    requires forall k :: i <= k < j ==> s[k] != ch
    ensures PyFind(s, ch, i) == j
    decreases j - i
  {
    if i < j {
      PyFindAt(s, ch, i + 1, j);
    }
  }

  lemma {:induction false} PyFindNone(s: string, ch: char, i: nat)
    requires i <= |s|
    requires forall k :: i <= k < |s| ==> s[k] != ch
    ensures PyFind(s, ch, i) == -1
    decreases |s| - i
  {
    if i < |s| {
      PyFindNone(s, ch, i + 1);
    }
  }

  /** The comment up to its first '/' is the score text, and a comment without any '/' is
      read whole: `str.find` is -1 there, and only a '/' at index 0 makes score None. */
  lemma ScoreOfText(head: string, tail: string)
    requires |head| > 0 && head[0] != '\n' && forall k :: 0 <= k < |head| ==> head[k] != '/'
    requires |tail| == 0 || tail[0] == '/'
    ensures Score(head + tail) == ScoreValue(head)
  {
    var c := head + tail;
    if |tail| == 0 {
      assert c == head;
      PyFindNone(c, '/', 0);
    } else {
      PyFindAt(c, '/', 0, |head|);
      assert c[..|head|] == head;
    }
    assert c[0] == head[0];
  }

  /** A leading newline is dropped before the comment is read. */
  lemma ScoreAfterNewline(c: string)
    requires |c| == 0 || c[0] != '\n'
    ensures Score(['\n'] + c) == Score(c)
  {
    assert (['\n'] + c)[1..] == c;
  }

  /** A comment whose first character is '/' (after a leading newline) has no score. */
  lemma ScoreOfSlash(rest: string)
    ensures Score("/" + rest) == Some(None)
  {
    assert ("/" + rest)[0] == '/';
  }

  /** `+n.d1d2` and `-n.d1d2`, with or without `/depth` after them, give 100 times the value,
      negated after '-'. */
  lemma PawnScore(sign: char, n: nat, d1: nat, d2: nat, tail: string)
    requires (sign == '+' || sign == '-') && d1 < 10 && d2 < 10
    requires |tail| == 0 || tail[0] == '/'
    ensures var cp := 100 * n + 10 * d1 + d2;
            Score([sign] + Decimal(n) + "." + [DigitChar(d1), DigitChar(d2)] + tail) ==
            Some(Some(if sign == '-' then -cp else cp))
  {
    var number := Decimal(n) + "." + [DigitChar(d1), DigitChar(d2)];
    var head := [sign] + number;
    assert [sign] + Decimal(n) + "." + [DigitChar(d1), DigitChar(d2)] + tail == head + tail;
    NumberText(n, d1, d2, number);
    assert head[0] == sign && head[1..] == number;
    ScoreOfText(head, tail);
    SignedPawn(sign, n, d1, d2, number, head);
  }

  /** The text `n.d1d2` holds no '/' and starts with a digit. */
  lemma NumberText(n: nat, d1: nat, d2: nat, number: string)
    requires d1 < 10 && d2 < 10 && number == Decimal(n) + "." + [DigitChar(d1), DigitChar(d2)]
    ensures IsDigit(number[0]) && forall k :: 0 <= k < |number| ==> number[k] != '/'
  {
    assert forall k :: 0 <= k < |Decimal(n)| ==> number[k] == Decimal(n)[k];
  }

  lemma SignedPawn(sign: char, n: nat, d1: nat, d2: nat, number: string, head: string)
    requires (sign == '+' || sign == '-') && d1 < 10 && d2 < 10
    requires number == Decimal(n) + "." + [DigitChar(d1), DigitChar(d2)] && IsDigit(number[0])
    requires |head| > 1 && head[0] == sign && head[1..] == number
    ensures var cp := 100 * n + 10 * d1 + d2;
            ScoreValue(head) == Some(Some(if sign == '-' then -cp else cp))
  {
    PyFloatDecimal(n, d1, d2);
    var d := PyDecimal(false, Decimal(n), [DigitChar(d1), DigitChar(d2)]);
    SignedNumber(head, d);
  }

  /** A signed text whose second character is not 'M' scores 100 times the number after the
      sign. */
  lemma SignedNumber(head: string, d: PyDecimal)
    requires |head| > 1 && (head[0] == '+' || head[0] == '-') && head[1] != 'M'
    requires PyFloat(head[1..]) == Some(d)
    ensures ScoreValue(head) == Some(Some(if head[0] == '-' then -Hundredfold(d) else Hundredfold(d)))
  {
  }

  /** `+Mn` and `-Mn` give MATE_SCORE - n, negated after '-'. */
  lemma MateScore(sign: char, n: nat, tail: string)
    requires sign == '+' || sign == '-'
    requires |tail| == 0 || tail[0] == '/'
    ensures Score([sign, 'M'] + Decimal(n) + tail) ==
            Some(Some(if sign == '-' then -(MATE_SCORE - n) else MATE_SCORE - n))
  {
    var head := [sign, 'M'] + Decimal(n);
    assert forall k :: 2 <= k < |head| ==> head[k] == Decimal(n)[k - 2];
    ScoreOfText(head, tail);
    SignedMate(sign, n, head);
  }

  lemma SignedMate(sign: char, n: nat, head: string)
    requires (sign == '+' || sign == '-') && head == [sign, 'M'] + Decimal(n)
    ensures ScoreValue(head) == Some(Some(if sign == '-' then -(MATE_SCORE - n) else MATE_SCORE - n))
  {
    assert head[2..] == Decimal(n);
    PyIntDecimal(n);
  }

  /** An unsigned number is no score unless it is zero, which scores 0. */
  lemma UnsignedScore(n: nat, d1: nat, d2: nat, tail: string)
    requires d1 < 10 && d2 < 10
    requires |tail| == 0 || tail[0] == '/'
    ensures Score(Decimal(n) + "." + [DigitChar(d1), DigitChar(d2)] + tail) ==
            if n == 0 && d1 == 0 && d2 == 0 then Some(Some(0)) else Some(None)
  {
    var head := Decimal(n) + "." + [DigitChar(d1), DigitChar(d2)];
    NumberText(n, d1, d2, head);
    ScoreOfText(head, tail);
    UnsignedValue(n, d1, d2, head);
  }

  lemma UnsignedValue(n: nat, d1: nat, d2: nat, head: string)
    requires d1 < 10 && d2 < 10 && head == Decimal(n) + "." + [DigitChar(d1), DigitChar(d2)]
    requires IsDigit(head[0])
    ensures ScoreValue(head) == if n == 0 && d1 == 0 && d2 == 0 then Some(Some(0)) else Some(None)
  {
    PyFloatDecimal(n, d1, d2);
    DecimalValue(n);
    TwoDigits(d1, d2);
    if n == 0 && d1 == 0 && d2 == 0 {
      assert head == "0.00";
      ZeroScore();
    }
  }

  lemma TwoDigits(d1: nat, d2: nat)
    requires d1 < 10 && d2 < 10
    ensures DigitsValue([DigitChar(d1), DigitChar(d2)]) == 10 * d1 + d2
  {
    var frac := [DigitChar(d1), DigitChar(d2)];
    var first := [DigitChar(d1)];
    assert frac[..1] == first && first[..0] == [];
    assert DigitsValue(first) == d1;
    assert DigitsValue(frac) == 10 * DigitsValue(first) + d2;
  }

  lemma ZeroScore()
    ensures SignedScore("0.00") == Some(Some(0))
  {
    var t := ".00";
    assert "0.00"[1..] == t;
    assert StripStart(t) == t && StripEnd(t) == t;
    assert Unsigned(t) == t;
    assert DigitRun(t, 0) == 0;
    assert t[1..] == "00";
    assert PyFloat(t) == Some(PyDecimal(false, "", "00"));
  }

  /** An empty comment raises IndexError. */
  lemma EmptyComment()
    ensures Score("") == None
  {
  }

  // ---------------------------------------------------------------------
  // write_entry and process_game
  // ---------------------------------------------------------------------

  lemma {:induction false} Utf8Ascii(s: string)
    requires IsAscii(s)
    ensures Utf8(s) == TextBytes(s)
  {
    if |s| > 0 {
      var p := s[..|s| - 1];
      assert forall k :: 0 <= k < |p| ==> p[k] == s[k];
      assert IsAscii(p);
      Utf8Ascii(s[..|s| - 1]);
      assert s[|s| - 1] as int < 128;
      assert TextBytes(s) == TextBytes(s[..|s| - 1]) + [CharByte(s[|s| - 1])];
    }
  }

  /** For an ASCII FEN, write_entry appends exactly the record the C++ converter appends. */
  lemma EntryIsRecord(fen: string, score: int, result: int)
    requires IsAscii(fen) && EntryFits(fen, score, result)
    ensures |TextBytes(fen)| <= 255 && Entry(fen, score, result) == Record(TextBytes(fen), score, result)
  {
    Utf8Ascii(fen);
  }

  lemma {:induction false} NodeEntriesPrefix(gr: int, nodes: seq<Node>, k: nat)
    requires k <= |nodes|
    ensures NodeEntries(gr, nodes[..k]) == NodeEntries(gr, nodes)[..k]
  {
    if k > 0 {
      assert nodes[..k][1..] == nodes[1..][..k - 1];
      assert nodes[..k][0] == nodes[0];
      NodeEntriesPrefix(gr, nodes[1..], k - 1);
    }
  }

  lemma {:induction false} OutcomeAbandon(es: seq<NodeOutcome>, k: nat, b: seq<Byte>)
    requires k < |es| && Outcome(es[..k]) == Some((b, false)) && es[k] == Some(None)
    ensures Outcome(es) == Some((b, true))
  {
    if k > 0 {
      assert es[..k][0] == es[0] && es[..k][1..] == es[1..][..k - 1];
      var b0 := es[0].value.value;
      var rest := Outcome(es[1..][..k - 1]).value.0;
      OutcomeAbandon(es[1..], k - 1, rest);
    }
  }

  /** A game whose node `k` has no score keeps the records of the nodes before it and ends
      there, whatever follows. */
  lemma GameAbandoned(gr: int, nodes: seq<Node>, k: nat, b: seq<Byte>)
    requires k < |nodes| && GameEntries(gr, nodes[..k]) == Some((b, false))
    requires Score(nodes[k].comment) == Some(None)
    ensures GameEntries(gr, nodes) == Some((b, true))
  {
    NodeEntriesPrefix(gr, nodes, k);
    NodeEntriesAt(gr, nodes, k);
    OutcomeAbandon(NodeEntries(gr, nodes), k, b);
  }

  /** The first record of a game reads back as the parent board's FEN, the score of the
      node's comment, and the game result from the view of the side to move on that board. */
  lemma FirstRecord(gr: int, nodes: seq<Node>, v: int)
    requires |nodes| > 0 && Score(nodes[0].comment) == Some(Some(v)) && IsAscii(nodes[0].parentFen)
    requires GameEntries(gr, nodes).Some?
    ensures var fen := nodes[0].parentFen;
            var w := GameEntries(gr, nodes).value.0;
            |w| >= 4 + |fen| && w[0] == |fen| && BytesText(w[1..1 + |fen|]) == fen &&
            Int16At(w[1 + |fen|], w[2 + |fen|]) == v &&
            Int8At(w[3 + |fen|]) == if nodes[0].parentWhite then gr else -gr
  {
    var node := nodes[0];
    var fen := node.parentFen;
    var result := if node.parentWhite then gr else -gr;
    NodeEntriesAt(gr, nodes, 0);
    assert InRange(v) && EntryFits(fen, v, result);
    var e := Entry(fen, v, result);
    var w := GameEntries(gr, nodes).value.0;
    assert w[..|e|] == e;
    EntryIsRecord(fen, v, result);
    RecordFields(TextBytes(fen), v, result);
    assert w[1..1 + |fen|] == e[1..1 + |fen|];
    TextBytesRoundTrip(fen);
  }
}
