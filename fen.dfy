// The FEN constructor `Position(std::string_view fen)` and `Position::fen()`
// of src/PGN-converter/pgn_position.h, as functions on text and on the
// position value. The parser follows the source's `uint16_t` cursor step by
// step; every read the source makes outside the text, every table index out
// of range and every exception `std::stoi` throws is a `None`.

module PgnFen {
  import opened Bits
  import opened Definitions
  import opened Bitboards
  import opened Wrappers
  import opened PgnPosition

  // ---------------------------------------------------------------------
  // Decimal numbers: `ss << n` and `std::stoi`
  // ---------------------------------------------------------------------

  predicate IsDigit(ch: char) {
    '0' <= ch <= '9'
  }

  predicate AllDigits(s: string) {
    forall i :: 0 <= i < |s| ==> IsDigit(s[i])
  }

  function DigitChar(d: int): char
    requires 0 <= d < 10
  {
    (48 + d) as char
  }

  /** The decimal text of a non-negative number, as a stream prints it. */
  function Decimal(n: nat): (r: string)
    ensures 1 <= |r| && AllDigits(r)
  {
    if n < 10 then [DigitChar(n)] else Decimal(n / 10) + [DigitChar(n % 10)]
  }

  /** The value of a run of decimal digits. */
  function DigitsValue(ds: string): nat
    requires AllDigits(ds)
  {
    if |ds| == 0 then 0 else 10 * DigitsValue(ds[..|ds| - 1]) + (ds[|ds| - 1] as int - 48)
  }

  /** The number of digits starting at offset `i`. */
  function DigitRun(s: string, i: nat): (n: nat)
    requires i <= |s|
    ensures i + n <= |s| && AllDigits(s[i..i + n])
    ensures i + n < |s| ==> !IsDigit(s[i + n])
    decreases |s| - i
  {
    if i < |s| && IsDigit(s[i]) then
      var n := DigitRun(s, i + 1);
      assert s[i..i + 1 + n] == [s[i]] + s[i + 1..i + 1 + n];
      1 + n
    else 0
  }

  /** isspace in the "C" locale. */
  predicate IsSpace(ch: char) {
    ch == ' ' || ch == '\t' || ch == '\n' || ch == '\r' || ch as int == 11 || ch as int == 12
  }

  function SkipSpaces(s: string, i: nat): (j: nat)
    requires i <= |s|
    ensures i <= j <= |s|
    decreases |s| - i
  {
    if i < |s| && IsSpace(s[i]) then SkipSpaces(s, i + 1) else i
  }

  const INT_MIN: int := -0x8000_0000
  const INT_MAX: int := 0x7fff_ffff

  /** std::stoi: leading white space, an optional sign, decimal digits.
      `None` stands for std::invalid_argument (no digits) and std::out_of_range. */
  function Stoi(s: string): Option<int> {
    var i := SkipSpaces(s, 0);
    var negative := i < |s| && s[i] == '-';
    var j := if i < |s| && (s[i] == '+' || s[i] == '-') then i + 1 else i;
    var n := DigitRun(s, j);
    if n == 0 then None
    else
      var magnitude: int := DigitsValue(s[j..j + n]);
      var v := if negative then -magnitude else magnitude;
      if v < INT_MIN || v > INT_MAX then None else Some(v)
  }

  /** std::string_view::npos */
  const NPOS: int := 0xFFFF_FFFF_FFFF_FFFF

  /** find_first_of(ch, i): the first `ch` at or after `i`, or npos. */
  function FindFirst(s: string, ch: char, i: nat): (r: int)
    ensures r == NPOS || (i <= r < |s| && s[r] == ch)
    decreases |s| - i
  {
    if i >= |s| then NPOS else if s[i] == ch then i else FindFirst(s, ch, i + 1)
  }

  /** substr(pos, count) for `pos <= size()`: at most `count` characters. */
  function Substr(s: string, pos: nat, count: nat): string
    requires pos <= |s|
  {
    if count < |s| - pos then s[pos..pos + count] else s[pos..]
  }

  // ---------------------------------------------------------------------
  // Parsing: Position::Position(std::string_view fen)
  // ---------------------------------------------------------------------

  /** The piece-placement loop from offset `idx`, square `sq`; ends at the first blank. */
  function PlacementLoop(fen: string, idx: nat, sq: Byte, st: State): Option<(nat, State)>
    decreases |fen| - idx
  {
    if idx < |fen| && fen[idx] != ' ' then
      if !InTable(fen[idx]) then None
      else
        var e := FenTable(fen[idx]);
        FenTablePieces(fen[idx]);
        if e.setPiece && sq >= 64 then None
        else PlacementLoop(fen, idx + 1, U8(sq + e.skip), if e.setPiece then SetPiece(st, sq, e.piece) else st)
    else Some((idx, st))
  }

  /** `castlingRights.data |= flag` */
  function AddCastling(data: Byte, flag: Byte): Byte {
    assert Pow2(8) == 256;
    OrBound(data, flag, 8);
    Or(data, flag)
  }

  /** The castling loop: each of K, Q, k, q adds its flag, every other character is ignored. */
  function CastlingLoop(fen: string, idx: nat, data: Byte): (r: (nat, Byte))
    ensures idx <= r.0
    decreases |fen| - idx
  {
    if idx < |fen| && fen[idx] != ' ' then
      var next :=
        if fen[idx] == 'K' then AddCastling(data, WHITE_KING_SIDE)
        else if fen[idx] == 'Q' then AddCastling(data, WHITE_QUEEN_SIDE)
        else if fen[idx] == 'k' then AddCastling(data, BLACK_KING_SIDE)
        else if fen[idx] == 'q' then AddCastling(data, BLACK_QUEEN_SIDE)
        else data;
      CastlingLoop(fen, idx + 1, next)
    else (idx, data)
  }

  /** Placement, side to move and castling; returns the cursor at the en-passant field. */
  function ParseHead(fen: string): Option<(nat, State)> {
    AfterPlacement(fen, PlacementLoop(fen, 0, A8, Cleared()))
  }

  /** The side-to-move and castling fields, read after the placement loop has returned `placed`. */
  function AfterPlacement(fen: string, placed: Option<(nat, State)>): Option<(nat, State)> {
    match placed
    case None => None
    case Some((i0, st)) =>
      var i1 := U16(i0 + 1);
      if i1 >= |fen| then None
      else
        var castling := CastlingLoop(fen, U16(i1 + 2), NO_CASTLING);
        var st1: State := st.(stm := if fen[i1] == 'w' then WHITE else BLACK, castling := castling.1);
        Some((U16(castling.0 + 1), st1))
  }

  /** square::make(file::fromChar(f), rank::fromChar(r)) */
  function SquareOf(f: char, r: char): Byte {
    MakeSquare(I8(FileFromChar(f)), I8(RankFromChar(r)))
  }

  /** The en-passant field as intended, with both defects of the source corrected: the square
      is decoded from the letters `fen[idx]`, `fen[idx + 1]` (not from the offsets), and the
      cursor moves three characters, onto the rule-50 field (not four). */
  function EpField(fen: string, idx: nat, st: State): Option<(nat, State)> {
    if idx >= |fen| then None
    else if fen[idx] != '-' then
      if idx + 1 >= |fen| then None
      else
        var st1: State := st.(ep := SquareOf(fen[idx], fen[idx + 1]));
        Some((U16(idx + 3), st1))
    else Some((U16(idx + 2), st))
  }

  /** The en-passant field as written: `file::CHAR_IDENTIFYERS[idx++]` and
      `rank::CHAR_IDENTIFYERS[idx++]` index the 8-entry letter tables with the text
      offset (arguments taken left to right). */
  function EpFieldAsWritten(fen: string, idx: nat, st: State): Option<(nat, State)> {
    if idx >= |fen| then None
    else if fen[idx] != '-' then
      if idx + 1 >= 8 then None
      else
        var st1: State := st.(ep := MakeSquare(CharCode(FILE_CHARS[idx]), CharCode(RANK_CHARS[idx + 1])));
        Some((U16(idx + 4), st1))
    else Some((U16(idx + 2), st))
  }

  /** The en-passant field with only the letter lookup corrected: the square is decoded from
      `fen[idx]` and `fen[idx + 1]`, but the two `idx++` and then `idx += 2` still leave the
      cursor one character into the rule-50 field. */
  function EpFieldLettersOnly(fen: string, idx: nat, st: State): Option<(nat, State)> {
    if idx >= |fen| then None
    else if fen[idx] != '-' then
      if idx + 1 >= |fen| then None
      else
        var st1: State := st.(ep := SquareOf(fen[idx], fen[idx + 1]));
        Some((U16(idx + 4), st1))
    else Some((U16(idx + 2), st))
  }

  /** The number field read by `std::stoi(std::string(fen.substr(idx, len)))`, and the
      cursor `idx = len - 1` it leaves. */
  function NumberField(fen: string, idx: nat): Option<(int, nat)>
    requires idx < |fen|
  {
    var len := FindFirst(fen, ' ', idx);
    match Stoi(Substr(fen, idx, len))
    case None => None
    case Some(v) => Some((v, U16(len - 1)))
  }

  /** The half-move clock: `rule50Cnt = numeric` narrows to a byte. */
  function Rule50Field(fen: string, idx: nat, st: State): Option<(nat, State)> {
    if idx >= |fen| then None
    else if fen[idx] != '-' then Rule50Value(NumberField(fen, idx), st)
    else Some((idx, st))
  }

  /** The half-move clock from the number field's outcome `num`. */
  function Rule50Value(num: Option<(int, nat)>, st: State): Option<(nat, State)> {
    match num
    case None => None
    case Some((v, next)) =>
      var st1: State := st.(rule50 := U8(v));
      Some((next, st1))
  }

  /** The move number: `ply = 2 * (numeric - 1) + stm` (an `int` overflow there is undefined). */
  function MoveField(fen: string, idx: nat, st: State): Option<State> {
    if idx >= |fen| then None
    else if fen[idx] != '-' then MoveValue(NumberField(fen, idx), st)
    else Some(st)
  }

  /** The ply from the number field's outcome `num`. */
  function MoveValue(num: Option<(int, nat)>, st: State): Option<State> {
    match num
    case None => None
    case Some((v, _)) =>
      var w := 2 * (v - 1) + ColorIndex(st.stm);
      if w < INT_MIN || w > INT_MAX then None
      else
        var st1: State := st.(ply := U16(w));
        Some(st1)
  }

  /** The clock fields from the cursor the en-passant field leaves. */
  function ParseCounters(fen: string, idx: nat, st: State): Option<State> {
    AfterRule50(fen, Rule50Field(fen, idx, st))
  }

  /** The move-number field, read after the half-move clock field has returned `r`. */
  function AfterRule50(fen: string, r: Option<(nat, State)>): Option<State> {
    match r
    case None => None
    case Some((i, st1)) => MoveField(fen, U16(i + 2), st1)
  }

  /** The clock fields, read after the en-passant field has returned `r`. */
  function AfterEp(fen: string, r: Option<(nat, State)>): Option<State> {
    match r
    case None => None
    case Some((j, st1)) => ParseCounters(fen, j, st1)
  }

  /** Position(fen), with the en-passant field decoded as intended. */
  function ParseFen(fen: string): Option<State> {
    match ParseHead(fen)
    case None => None
    case Some((i, st)) => AfterEp(fen, EpField(fen, i, st))
  }

  /** Position(fen) with the letter lookup corrected and the cursor left as written. */
  function ParseFenLettersOnly(fen: string): Option<State> {
    match ParseHead(fen)
    case None => None
    case Some((i, st)) => AfterEp(fen, EpFieldLettersOnly(fen, i, st))
  }

  /** Position(fen) as written. */
  function ParseFenAsWritten(fen: string): Option<State> {
    match ParseHead(fen)
    case None => None
    case Some((i, st)) => AfterEp(fen, EpFieldAsWritten(fen, i, st))
  }

  // ---------------------------------------------------------------------
  // Printing: Position::fen()
  // ---------------------------------------------------------------------

  /** `emptyCount` after files `0..f-1` of rank `r`. */
  function EmptyRun(b: seq<Piece>, r: int, f: int): (n: nat)
    requires |b| == 64 && 0 <= r < 8 && 0 <= f <= 8
    ensures n <= f
  {
    if f == 0 then 0
    else if b[8 * r + f - 1] != NO_PIECE then 0
    else EmptyRun(b, r, f - 1) + 1
  }

  /** The pending empty count, printed before a piece or at the end of a rank. */
  function EmptyText(n: nat): string {
    if n != 0 then Decimal(n) else ""
  }

  /** The text printed for files `0..f-1` of rank `r`. */
  function RankPrefix(b: seq<Piece>, r: int, f: int): string
    requires Cells(b) && 0 <= r < 8 && 0 <= f <= 8
  {
    if f == 0 then ""
    else
      var pc := b[8 * r + f - 1];
      assert CellOk(b, 8 * r + f - 1);
      RankPrefix(b, r, f - 1) +
        (if pc != NO_PIECE then EmptyText(EmptyRun(b, r, f - 1)) + [PieceToChar(pc)] else "")
  }

  function RankText(b: seq<Piece>, r: int): string
    requires Cells(b) && 0 <= r < 8
  {
    RankPrefix(b, r, 8) + EmptyText(EmptyRun(b, r, 8))
  }

  /** The text of the top `k` ranks (8 down to `9 - k`), each but rank 1 followed by '/'. */
  function PlacementText(b: seq<Piece>, k: int): string
    requires Cells(b) && 0 <= k <= 8
  {
    if k == 0 then ""
    else PlacementText(b, k - 1) + RankText(b, 8 - k) + (if 8 - k != 0 then "/" else "")
  }

  /** KQkq in that order for the rights held, '-' when there are none. */
  function CastlingText(p: State): string {
    (if CanCastle(p, WHITE_KING_SIDE) then "K" else "") +
    (if CanCastle(p, WHITE_QUEEN_SIDE) then "Q" else "") +
    (if CanCastle(p, BLACK_KING_SIDE) then "k" else "") +
    (if CanCastle(p, BLACK_QUEEN_SIDE) then "q" else "") +
    (if !CanCastleAny(p) then "-" else "")
  }

  /** C++ integer division, which truncates toward zero. */
  function CDiv(a: int, b: int): int
    requires b > 0
  {
    if a >= 0 then a / b else -((-a) / b)
  }

  /** `1 + (ply - stm) / 2` */
  function MoveNumber(p: State): int {
    1 + CDiv(p.ply - ColorIndex(p.stm), 2)
  }

  lemma MoveNumberPositive(p: State)
    ensures MoveNumber(p) >= 1
  {}

  /** square::toString of the en-passant square, '-' for none. */
  function EpText(ep: Square): string {
    if ep != NO_SQUARE then SquareName(ep) else "-"
  }

  /** fen(); `None` when `epSquare` is off the board, where toString reads past its tables. */
  function FenText(p: State): Option<string> {
    if p.ep >= 64 then None
    else
      MoveNumberPositive(p);
      Some(PlacementText(p.board, 8) + " " + [if p.stm then 'b' else 'w'] + " " + CastlingText(p) +
           " " + EpText(p.ep) + " " + Decimal(p.rule50) +
           " " + Decimal(MoveNumber(p)))
  }
}
