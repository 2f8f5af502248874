// Position::applyMove and Position::readMove<pt> (src/PGN-converter/pgn_position.h)
// as functions on position values. A result of None stands for a token on which
// the source reads outside the token or the board, fails one of its asserts, or
// asks for the square of a missing king.

module PgnMoves {
  import opened Bits
  import opened Definitions
  import opened Bitboards
  import opened Attacks
  import opened PgnPosition
  import opened PgnFen
  import opened Wrappers

  // ---------------------------------------------------------------------
  // Small pieces of the move code
  // ---------------------------------------------------------------------

  /** `to - pawnPush`, stored back into a `Square` (uint8_t). */
  function Behind(to: Byte, c: Color): Byte {
    U8(to - PawnPush(c))
  }

  /** `std::tolower` on the letters A-Z. */
  function ToLower(ch: char): char {
    if 'A' <= ch <= 'Z' then (ch as int + 32) as char else ch
  }

  /** The promotion letter as looked up in fenTable: lower-cased for black. */
  function PromotionChar(c: Color, ch: char): char {
    if c then ToLower(ch) else ch
  }

  /** `castlingRights.data &= ~...` for a rook standing on (or captured on) relative A8 or H8,
      as both move paths write it: the mover's own queen-side or king-side flag. */
  function RookCaptureRights(p: State, to: Square): Byte {
    if TypeOf(p.board[to]) == ROOK then
      if to == Relative(p.stm, A8) then ClearCastling(p.castling, QueenSide(p.stm))
      else if to == Relative(p.stm, H8) then ClearCastling(p.castling, KingSide(p.stm))
      else p.castling
    else p.castling
  }

  /** A rook leaving relative A1 or H1 gives up the mover's right on that side. */
  function RookLeaveRights(data: Byte, c: Color, from: Square): Byte {
    if from == Relative(c, A1) then ClearCastling(data, QueenSide(c))
    else if from == Relative(c, H1) then ClearCastling(data, KingSide(c))
    else data
  }

  /** The end of a move: the other side to move, the new en-passant square, `++ply`. */
  function Finish(p: State, newEp: Byte): State {
    p.(stm := !p.stm, ep := newEp, ply := U16(p.ply + 1))
  }

  // ---------------------------------------------------------------------
  // Pawn moves
  // ---------------------------------------------------------------------

  /** A pawn token is a capture (`exd5`, or `exd8=Q` when longer than five characters), a
      promotion (`e8=Q`) or a push (`e4`). */
  predicate IsPawnCapture(sv: string) {
    |sv| >= 2 && sv[1] == 'x' && |sv| <= 5
  }

  predicate IsPromotion(sv: string) {
    |sv| >= 2 && !IsPawnCapture(sv) && |sv| >= 4 && (sv[2] == '=' || sv[1] == 'x')
  }

  predicate IsPawnPush(sv: string) {
    |sv| >= 2 && !IsPawnCapture(sv) && !IsPromotion(sv)
  }

  /** (En passant) capture: `to` from sv[2..4]; the captured piece stands on `to`, or behind it
      when `to` is the en-passant square; the pawn comes from file sv[0], one rank back. */
  function PawnCapture(p: State, sv: string): Option<State>
    requires IsPawnCapture(sv)
  {
    if |sv| < 4 then None
    else
      var to := SquareOf(sv[2], sv[3]);
      var capSq := if p.ep != NO_SQUARE && to == p.ep then Behind(to, p.stm) else to;
      var from := MakeSquare(I8(FileFromChar(sv[0])), RankOf(Behind(to, p.stm)));
      if to >= 64 || capSq >= 64 || from >= 64 then None
      else Some(MovePiece(RemovePiece(p, capSq), from, to))
  }

  /** Promotion, with (sv[1] == 'x') or without capture: the promoted piece is fenTable's
      piece for the letter sv[5] (capture) or sv[3] (push), lower-cased for black. */
  function Promotion(p: State, sv: string): Option<State>
    requires IsPromotion(sv)
  {
    if sv[1] == 'x' then
      var to := SquareOf(sv[2], sv[3]);
      var from := MakeSquare(I8(FileFromChar(sv[0])), RankOf(Behind(to, p.stm)));
      var ch := PromotionChar(p.stm, sv[5]);
      if to >= 64 || from >= 64 || !InTable(ch) then None
      else
        FenTablePieces(ch);
        Some(RemovePiece(SetPiece(RemovePiece(p, to), to, FenTable(ch).piece), from))
    else
      var to := SquareOf(sv[0], sv[1]);
      var from := Behind(to, p.stm);
      var ch := PromotionChar(p.stm, sv[3]);
      if to >= 64 || from >= 64 || !InTable(ch) then None
      else
        FenTablePieces(ch);
        Some(RemovePiece(SetPiece(p, to, FenTable(ch).piece), from))
  }

  /** (Double) push: the pawn comes from one square back, or from two squares back when the
      square one back is empty, and then that skipped square is the new en-passant square. */
  function PawnPushMove(p: State, sv: string): Option<(State, Byte)>
    requires IsPawnPush(sv)
  {
    var to := SquareOf(sv[0], sv[1]);
    var from := Behind(to, p.stm);
    if to >= 64 || from >= 64 then None
    else if p.board[from] == NO_PIECE then
      var from2 := Behind(from, p.stm);
      if from2 >= 64 then None else Some((MovePiece(p, from2, to), from))
    else Some((MovePiece(p, from, to), NO_SQUARE))
  }

  /** The pawn branch of applyMove: the board change and the new en-passant square. */
  function PawnMove(p: State, sv: string): (r: Option<(State, Byte)>)
  {
    if |sv| < 2 then None
    else if IsPawnCapture(sv) then
      match PawnCapture(p, sv)
      case None => None
      case Some(q) => Some((q, NO_SQUARE))
    else if IsPromotion(sv) then
      match Promotion(p, sv)
      case None => None
      case Some(q) => Some((q, NO_SQUARE))
    else PawnPushMove(p, sv)
  }

  // ---------------------------------------------------------------------
  // King moves
  // ---------------------------------------------------------------------

  predicate IsQueenSideCastle(sv: string) {
    |sv| >= 5 && sv[..5] == "O-O-O"
  }

  predicate IsKingSideCastle(sv: string) {
    !IsQueenSideCastle(sv) && |sv| >= 3 && sv[..3] == "O-O"
  }

  /** The king branch of applyMove: give up both own rights, then move the king from its
      square. */
  function KingMove(p: State, sv: string): Option<State> {
    if !HasKing(p, p.stm) || |sv| < 2 then None
    else KingMoveFrom(p.(castling := ClearCastling(p.castling, BothSides(p.stm))), sv, KingSquare(p, p.stm))
  }

  /** The king branch once the rights are given up: capture (the rook check runs before the
      capture), castle (rook first, relative to the mover), or step. */
  function KingMoveFrom(q: State, sv: string, from: Square): Option<State>
    requires |sv| >= 2
  {
    var c := q.stm;
    if sv[1] == 'x' then
      if |sv| < 4 then None
      else
        var to := SquareOf(sv[2], sv[3]);
        if to >= 64 then None
        else Some(MovePiece(RemovePiece(q.(castling := RookCaptureRights(q, to)), to), from, to))
    else if IsQueenSideCastle(sv) then
      RelativeFlipsRank(A1);
      RelativeFlipsRank(C1);
      RelativeFlipsRank(D1);
      Some(MovePiece(MovePiece(q, Relative(c, A1), Relative(c, D1)), from, Relative(c, C1)))
    else if IsKingSideCastle(sv) then
      RelativeFlipsRank(H1);
      RelativeFlipsRank(G1);
      RelativeFlipsRank(F1);
      Some(MovePiece(MovePiece(q, Relative(c, H1), Relative(c, F1)), from, Relative(c, G1)))
    else if |sv| < 3 then None
    else
      var to := SquareOf(sv[1], sv[2]);
      if to >= 64 then None else Some(MovePiece(q, from, to))
  }

  // ---------------------------------------------------------------------
  // readMove<pt>: knight, bishop, rook and queen moves
  // ---------------------------------------------------------------------

  /** attacks::knightAttacks[to] or attacks::attacks<pt>(to, occupied). */
  function PieceAttacks(pt: PieceType, to: Square, occ: U64): U64 {
    if pt == KNIGHT then KnightAttacks(to)
    else if pt == BISHOP then BishopAttacks(to, occ)
    else if pt == ROOK then RookAttacks(to, occ)
    else QueenAttacks(to, occ)
  }

  /** The target square, whether the move captures, and `end`, the index where the
      disambiguation characters stop; a trailing '+' or '#' is skipped. */
  datatype MoveText = MoveText(to: Byte, isCapture: bool, end: Byte)

  function ReadMoveText(sv: string): Option<MoveText> {
    var n := |sv|;
    if n < 3 then None
    else if sv[n - 1] == '+' || sv[n - 1] == '#' then
      if n < 4 then None
      else
        var to := SquareOf(sv[n - 3], sv[n - 2]);
        if sv[n - 4] == 'x' then Some(MoveText(to, true, U8(n - 4))) else Some(MoveText(to, false, U8(n - 3)))
    else
      var to := SquareOf(sv[n - 2], sv[n - 1]);
      if sv[n - 3] == 'x' then Some(MoveText(to, true, U8(n - 3))) else Some(MoveText(to, false, U8(n - 2)))
  }

  /** The file and rank hints of sv[1..end): each digit sets the rank, any other character the
      file; the last of each kind wins. */
  datatype Hints = Hints(file: Option<Byte>, rank: Option<Byte>)

  function HintsLoop(sv: string, idx: nat, end: nat, h: Hints): Hints
    requires end <= |sv|
    decreases end - idx
  {
    if idx >= end then h
    else if IsDigit(sv[idx]) then HintsLoop(sv, idx + 1, end, h.(rank := Some(RankFromChar(sv[idx]))))
    else HintsLoop(sv, idx + 1, end, h.(file := Some(FileFromChar(sv[idx]))))
  }

  /** `targets &= attacks::files[file]` and `&= attacks::ranks[rank]` for the hints given
      (None when a hint does not index the eight-entry tables). */
  function ApplyHints(targets: U64, h: Hints): Option<U64> {
    var f := if h.file.Some? then I8(h.file.value) else 0;
    var r := if h.rank.Some? then I8(h.rank.value) else 0;
    if !(0 <= f < 8 && 0 <= r < 8) then None
    else
      var t1 := if h.file.Some? then Intersection(targets, FileBB(f)) else targets;
      Some(if h.rank.Some? then Intersection(t1, RankBB(r)) else t1)
  }

  /** The pin test of readMove: a pinned piece may still move along the line from the king
      through its square when `to` lies on that line too (same file, same rank, or the same
      slope). */
  predicate OnPinLine(ksq: Square, from: Square, to: Square) {
    var dxFrom, dyFrom := FileOf(from) - FileOf(ksq), RankOf(from) - RankOf(ksq);
    var dxTo, dyTo := FileOf(to) - FileOf(ksq), RankOf(to) - RankOf(ksq);
    if dxFrom == 0 || dxTo == 0 then dxFrom == dxTo
    else if dyFrom == 0 || dyTo == 0 then dyFrom == dyTo
    else dxFrom * dyTo == dyFrom * dxTo
  }

  /** A candidate the `for (;;)` loop accepts. */
  predicate Acceptable(pt: PieceType, pinned: U64, ksq: Square, from: Square, to: Square) {
    !IsSet(pinned, from) || (pt != KNIGHT && OnPinLine(ksq, from, to))
  }

  /** The `for (;;)` loop: pop the lowest candidate until one is acceptable (None when the
      candidates run out, where the source's assert fails). */
  function SelectSource(pt: PieceType, pinned: U64, ksq: Square, to: Square, targets: U64): Option<Square>
    decreases PopCount(targets)
  {
    if targets == 0 then None
    else
      var from := LSB(targets);
      PopLowestSquares(targets, 0);
      if Acceptable(pt, pinned, ksq, from, to) then Some(from)
      else SelectSource(pt, pinned, ksq, to, PopLowest(targets))
  }

  /** The pieces of type `pt` of the side to move that attack `to`. */
  function Candidates(p: State, pt: PieceType, to: Square): U64
    requires KNIGHT <= pt <= QUEEN
  {
    Intersection(PieceAttacks(pt, to, p.occupied), Pieces(p, p.stm, pt))
  }

  /** The source square readMove picks: the only candidate, or else the first acceptable one
      among the candidates that match the hints. */
  function ReadSource(p: State, sv: string, pt: PieceType, t: MoveText): Option<Square>
    requires KNIGHT <= pt <= QUEEN && t.to < 64 && t.end <= |sv|
  {
    var targets := Candidates(p, pt, t.to);
    if targets == 0 then None
    else if PopCount(targets) == 1 then Some(LSB(targets))
    else
      match ApplyHints(targets, HintsLoop(sv, 1, t.end, Hints(None, None)))
      case None => None
      case Some(filtered) =>
        if !HasKing(p, p.stm) then None
        else SelectSource(pt, Pinned(p), KingSquare(p, p.stm), t.to, filtered)
  }

  /** The board change of readMove<pt> once the source square is known. */
  function ReadMoveFrom(p: State, pt: PieceType, t: MoveText, from: Square): State
    requires t.to < 64
  {
    var q: State := if t.isCapture then RemovePiece(p, t.to) else p;
    var q2: State := if t.isCapture then q.(castling := RookCaptureRights(q, t.to)) else q;
    var q3: State := MovePiece(q2, from, t.to);
    if pt == ROOK then q3.(castling := RookLeaveRights(q3.castling, p.stm, from)) else q3
  }

  /** readMove<pt>: capture (the rook check reads the square after the capture emptied it),
      move the piece, and a rook leaving its corner drops that right. */
  function ReadMove(p: State, sv: string, pt: PieceType): Option<State>
    requires KNIGHT <= pt <= QUEEN
  {
    match ReadMoveText(sv)
    case None => None
    case Some(t) =>
      if t.to >= 64 || t.end > |sv| then None
      else
        match ReadSource(p, sv, pt, t)
        case None => None
        case Some(from) => Some(ReadMoveFrom(p, pt, t, from))
  }

  // ---------------------------------------------------------------------
  // applyMove
  // ---------------------------------------------------------------------

  /** The moving piece type, from sv[0]; NO_PIECE_TYPE fails the source's assert. */
  function MovingType(sv: string): PieceType {
    if |sv| == 0 || !InTable(sv[0]) then NO_PIECE_TYPE else CharToPieceType(sv[0])
  }

  /** `++rule50Cnt` on its uint8_t. */
  function CountHalfMove(p: State): State {
    p.(rule50 := U8(p.rule50 + 1))
  }

  /** The board change of applyMove before the final three assignments, with the new
      en-passant square; `++rule50Cnt` has been done, and pawn and king moves reset it. */
  function MoveBody(p: State, sv: string): Option<(State, Byte)> {
    var pt := MovingType(sv);
    var q := CountHalfMove(p);
    if pt == PAWN then PawnMove(q.(rule50 := 0), sv)
    else if KNIGHT <= pt <= QUEEN then
      match ReadMove(q, sv, pt)
      case None => None
      case Some(r) => Some((r, NO_SQUARE))
    else if pt == KING then
      match KingMove(q.(rule50 := 0), sv)
      case None => None
      case Some(r) => Some((r, NO_SQUARE))
    else None
  }

  /** applyMove(sv) */
  function ApplyMove(p: State, sv: string): Option<State> {
    match MoveBody(p, sv)
    case None => None
    case Some((q, newEp)) => Some(Finish(q, newEp))
  }
}
