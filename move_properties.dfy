// What applyMove and readMove<pt> promise: the turn and ply advance, the en-passant
// square comes only from a double push, the half-move clock, castling rights that are
// only ever given up, the squares a capture, a promotion or a castle changes, and how
// readMove chooses the piece to move.

module MoveProperties {
  import opened Bits
  import opened Definitions
  import opened Bitboards
  import opened Attacks
  import opened PgnPosition
  import opened PgnFen
  import opened Wrappers
  import opened PgnMoves

  // ---------------------------------------------------------------------
  // Castling rights
  // ---------------------------------------------------------------------

  /** Every right held after is held before (the flags are bits 0..7 of a byte). */
  predicate RightsKept(before: Byte, after: Byte) {
    forall k: nat :: k < 8 && IsSet(after, k) ==> IsSet(before, k)
  }

  lemma ClearCastlingKept(d: Byte, m: Byte)
    ensures RightsKept(d, ClearCastling(d, m))
  {
    forall k: nat | k < 8
      ensures IsSet(ClearCastling(d, m), k) ==> IsSet(d, k)
    {
      ClearCastlingBits(d, m, k);
    }
  }

  lemma RookCaptureRightsKept(p: State, to: Square)
    ensures RightsKept(p.castling, RookCaptureRights(p, to))
  {
    ClearCastlingKept(p.castling, QueenSide(p.stm));
    ClearCastlingKept(p.castling, KingSide(p.stm));
  }

  lemma RookLeaveRightsKept(d: Byte, c: Color, from: Square)
    ensures RightsKept(d, RookLeaveRights(d, c, from))
  {
    ClearCastlingKept(d, QueenSide(c));
    ClearCastlingKept(d, KingSide(c));
  }

  /** The bits of the flags: bit 0 white queen side, 1 white king side, 2 black queen side,
      3 black king side. */
  lemma FlagBits(c: Color, k: nat)
    ensures IsSet(QueenSide(c), k) == (k == if c then 2 else 0)
    ensures IsSet(KingSide(c), k) == (k == if c then 3 else 1)
    ensures IsSet(BothSides(c), k) == (k == 2 * ColorIndex(c) || k == 2 * ColorIndex(c) + 1)
  {
    assert QueenSide(c) == Pow2(if c then 2 else 0);
    assert KingSide(c) == Pow2(if c then 3 else 1);
    Pow2Bits(if c then 2 else 0, k);
    Pow2Bits(if c then 3 else 1, k);
    if k >= 4 {
      assert Pow2(4) == 16;
      HighClear(BothSides(c), 4, k);
    }
  }

  /** Once both own rights are cleared, clearing one of them again changes nothing. */
  lemma OwnRightsClearedTwice(d: Byte, c: Color, m: Byte)
    requires m == QueenSide(c) || m == KingSide(c)
    ensures ClearCastling(ClearCastling(d, BothSides(c)), m) == ClearCastling(d, BothSides(c))
  {
    var q := ClearCastling(d, BothSides(c));
    forall k: nat | k < 8
      ensures IsSet(ClearCastling(q, m), k) == IsSet(q, k)
    {
      ClearCastlingBits(q, m, k);
      ClearCastlingBits(d, BothSides(c), k);
      FlagBits(c, k);
    }
    assert Pow2(8) == 256;
    Extensionality(ClearCastling(q, m), q, 8);
  }

  /** As written, the rook check after readMove's capture reads the square the capture has
      just emptied, so it never clears a right. */
  lemma RookCaptureCheckDead(p: State, to: Square)
    ensures RookCaptureRights(RemovePiece(p, to), to) == p.castling
  {
    assert RemovePiece(p, to).board[to] == NO_PIECE;
  }

  /** As written, both rook-capture tests clear only the mover's own flags, so no right of
      the opponent is ever revoked by a capture. */
  lemma CaptureKeepsOpponentRights(p: State, to: Square, k: nat)
    requires k == 2 * ColorIndex(!p.stm) || k == 2 * ColorIndex(!p.stm) + 1
    ensures IsSet(RookCaptureRights(p, to), k) == IsSet(p.castling, k)
  {
    ClearCastlingBits(p.castling, QueenSide(p.stm), k);
    ClearCastlingBits(p.castling, KingSide(p.stm), k);
    FlagBits(p.stm, k);
  }

  /** The rook-capture test as evidently intended: read on the board before the capture, a
      rook on the mover's relative a8 or h8 (the opponent's corners) costs the opponent the
      right on that side. */
  function RookCaptureRightsIntended(p: State, to: Square): Byte {
    if TypeOf(p.board[to]) == ROOK then
      if to == Relative(p.stm, A8) then ClearCastling(p.castling, QueenSide(!p.stm))
      else if to == Relative(p.stm, H8) then ClearCastling(p.castling, KingSide(!p.stm))
      else p.castling
    else p.castling
  }

  /** Capturing a rook on the opponent's a-side (h-side) home corner clears exactly the
      opponent's queen-side (king-side) right. */
  lemma CaptureRevokesOpponentRight(p: State, to: Square, k: nat)
    requires TypeOf(p.board[to]) == ROOK
    requires to == Relative(!p.stm, A1) || to == Relative(!p.stm, H1)
    ensures var lost := 2 * ColorIndex(!p.stm) + if to == Relative(!p.stm, A1) then 0 else 1;
            IsSet(RookCaptureRightsIntended(p, to), k) == (IsSet(p.castling, k) && k != lost)
  {
    assert Relative(!p.stm, A1) == Relative(p.stm, A8) != Relative(p.stm, H8) == Relative(!p.stm, H1);
    var r := RookCaptureRightsIntended(p, to);
    if to == Relative(!p.stm, A1) {
      assert r == ClearCastling(p.castling, QueenSide(!p.stm));
      ClearCastlingBits(p.castling, QueenSide(!p.stm), k);
    } else {
      assert r == ClearCastling(p.castling, KingSide(!p.stm));
      ClearCastlingBits(p.castling, KingSide(!p.stm), k);
    }
    FlagBits(!p.stm, k);
  }

  // ---------------------------------------------------------------------
  // The three move paths
  // ---------------------------------------------------------------------

  /** The fields a move path leaves to the end of applyMove. */
  predicate SameCounters(a: State, b: State) {
    a.stm == b.stm && a.ep == b.ep && a.rule50 == b.rule50 && a.ply == b.ply
  }

  /** The en-passant square a pawn token leaves: the skipped square of a double push. */
  function SkippedSquare(p: State, sv: string): Byte {
    if IsPawnPush(sv) && SquareOf(sv[0], sv[1]) < 64 && Behind(SquareOf(sv[0], sv[1]), p.stm) < 64 &&
       p.board[Behind(SquareOf(sv[0], sv[1]), p.stm)] == NO_PIECE
    then Behind(SquareOf(sv[0], sv[1]), p.stm)
    else NO_SQUARE
  }

  /** A pawn move changes only the board and the bitboards, and reports a new en-passant
      square only for a push over an empty square, which is then that square. */
  lemma PawnMoveKeeps(p: State, sv: string)
    requires PawnMove(p, sv).Some?
    ensures SameCounters(PawnMove(p, sv).value.0, p)
    ensures PawnMove(p, sv).value.0.castling == p.castling
    ensures PawnMove(p, sv).value.1 == SkippedSquare(p, sv)
  {
  }

  /** A king move changes no counter. */
  lemma KingMoveCounters(p: State, sv: string)
    requires KingMove(p, sv).Some?
    ensures SameCounters(KingMove(p, sv).value, p)
  {
    var q: State := p.(castling := ClearCastling(p.castling, BothSides(p.stm)));
    assert SameCounters(q, p);
    if sv[1] == 'x' {
    } else if IsQueenSideCastle(sv) {
    } else if IsKingSideCastle(sv) {
    }
  }

  /** A king move gives up exactly the mover's two rights: the rook check of the capture path
      only clears rights already given up. */
  lemma KingMoveRights(p: State, sv: string)
    requires KingMove(p, sv).Some?
    ensures KingMove(p, sv).value.castling == ClearCastling(p.castling, BothSides(p.stm))
  {
    var c := p.stm;
    var q: State := p.(castling := ClearCastling(p.castling, BothSides(c)));
    var from := KingSquare(p, c);
    var r := KingMove(p, sv).value;
    assert KingMoveFrom(q, sv, from) == Some(r);
    KingMoveFromRights(q, sv, from, r);
    OwnRightsClearedTwice(p.castling, c, QueenSide(c));
    OwnRightsClearedTwice(p.castling, c, KingSide(c));
  }

  /** After the king gives up its rights, a king path leaves them alone or clears one of the
      mover's sides. */
  lemma KingMoveFromRights(q: State, sv: string, from: Square, r: State)
    requires |sv| >= 2 && KingMoveFrom(q, sv, from) == Some(r)
    ensures r.castling == q.castling || r.castling == ClearCastling(q.castling, QueenSide(q.stm)) ||
            r.castling == ClearCastling(q.castling, KingSide(q.stm))
  {
  }

  /** readMove changes no counter, and its castling rights are those before, less the
      rook's own side when a rook leaves relative A1 or H1. */
  lemma ReadMoveKeeps(p: State, sv: string, pt: PieceType)
    requires KNIGHT <= pt <= QUEEN && ReadMove(p, sv, pt).Some?
    ensures SameCounters(ReadMove(p, sv, pt).value, p)
    ensures RightsKept(p.castling, ReadMove(p, sv, pt).value.castling)
    ensures pt != ROOK ==> ReadMove(p, sv, pt).value.castling == p.castling
  {
    var t := ReadMoveText(sv).value;
    var from := ReadSource(p, sv, pt, t).value;
    if t.isCapture {
      RookCaptureCheckDead(p, t.to);
    }
    RookLeaveRightsKept(p.castling, p.stm, from);
  }

  // ---------------------------------------------------------------------
  // applyMove
  // ---------------------------------------------------------------------

  /** The three paths of the move body, by the moving piece type: a pawn move starts from a
      cleared clock, a piece move from the advanced one, a king move from a cleared one. */
  lemma MoveBodyPawn(p: State, sv: string)
    requires MovingType(sv) == PAWN
    ensures MoveBody(p, sv) == PawnMove(p.(rule50 := 0), sv)
  {
  }

  lemma MoveBodyPiece(p: State, sv: string)
    requires KNIGHT <= MovingType(sv) <= QUEEN
    ensures var r := ReadMove(CountHalfMove(p), sv, MovingType(sv));
            MoveBody(p, sv) == if r.Some? then Some((r.value, NO_SQUARE)) else None
  {
  }

  lemma MoveBodyKing(p: State, sv: string)
    requires MovingType(sv) == KING
    ensures var r := KingMove(p.(rule50 := 0), sv);
            MoveBody(p, sv) == if r.Some? then Some((r.value, NO_SQUARE)) else None
  {
  }

  /** Only a token that names a piece type moves anything. */
  lemma MoveBodyType(p: State, sv: string)
    requires MoveBody(p, sv).Some?
    ensures PAWN <= MovingType(sv) <= KING
  {
  }

  /** The counters after the move body: the side to move and the ply are untouched, the
      half-move clock is reset by pawn and king moves and advanced (as a uint8_t) by the others,
      and only a pawn move can leave an en-passant square. */
  lemma MoveBodyCounters(p: State, sv: string)
    requires MoveBody(p, sv).Some?
    ensures var r := MoveBody(p, sv).value;
            r.0.stm == p.stm && r.0.ply == p.ply &&
            r.0.rule50 == (if MovingType(sv) == PAWN || MovingType(sv) == KING then 0 else (p.rule50 + 1) % 256) &&
            r.1 == (if MovingType(sv) == PAWN then SkippedSquare(p, sv) else NO_SQUARE)
  {
    MoveBodyType(p, sv);
    var pt := MovingType(sv);
    var r := MoveBody(p, sv).value;
    if pt == PAWN {
      PawnBodyCounters(p, sv, r);
    } else if pt == KING {
      KingBodyCounters(p, sv, r);
    } else {
      PieceBodyCounters(p, sv, pt, r);
    }
  }

  lemma PawnBodyCounters(p: State, sv: string, r: (State, Byte))
    requires MovingType(sv) == PAWN && MoveBody(p, sv) == Some(r)
    ensures SameCounters(r.0, p.(rule50 := 0)) && r.1 == SkippedSquare(p, sv)
  {
    var q0: State := p.(rule50 := 0);
    MoveBodyPawn(p, sv);
    PawnMoveKeeps(q0, sv);
    assert SkippedSquare(q0, sv) == SkippedSquare(p, sv);
  }

  lemma KingBodyCounters(p: State, sv: string, r: (State, Byte))
    requires MovingType(sv) == KING && MoveBody(p, sv) == Some(r)
    ensures SameCounters(r.0, p.(rule50 := 0)) && r.1 == NO_SQUARE
  {
    MoveBodyKing(p, sv);
    KingMoveCounters(p.(rule50 := 0), sv);
  }

  lemma PieceBodyCounters(p: State, sv: string, pt: PieceType, r: (State, Byte))
    requires KNIGHT <= pt <= QUEEN && pt == MovingType(sv) && MoveBody(p, sv) == Some(r)
    ensures SameCounters(r.0, CountHalfMove(p)) && r.1 == NO_SQUARE
  {
    MoveBodyPiece(p, sv);
    ReadMoveKeeps(CountHalfMove(p), sv, pt);
  }

  /** `++ply` on a uint16_t flips its parity, as 65536 is even. */
  lemma PlyParity(ply: nat, c: Color)
    ensures ply % 2 == ColorIndex(c) ==> U16(ply + 1) % 2 == ColorIndex(!c)
  {
  }

  /** After every applyMove the other side is to move and the ply has advanced by one (as a
      uint16_t), so `ply % 2 == stm` is kept. */
  lemma ApplyMoveTurn(p: State, sv: string)
    requires ApplyMove(p, sv).Some?
    ensures var r := ApplyMove(p, sv).value;
            r.stm == !p.stm && r.ply == U16(p.ply + 1) &&
            (p.ply % 2 == ColorIndex(p.stm) ==> r.ply % 2 == ColorIndex(r.stm))
  {
    MoveBodyCounters(p, sv);
    var b := MoveBody(p, sv).value;
    FinishTurn(p, b.0, b.1, ApplyMove(p, sv).value);
  }

  /** The last three assignments of applyMove hand the turn over. */
  lemma FinishTurn(p: State, q: State, newEp: Byte, r: State)
    requires r == Finish(q, newEp) && q.stm == p.stm && q.ply == p.ply
    ensures r.stm == !p.stm && r.ply == U16(p.ply + 1) &&
            (p.ply % 2 == ColorIndex(p.stm) ==> r.ply % 2 == ColorIndex(r.stm))
  {
    PlyParity(p.ply, p.stm);
  }

  /** After every applyMove the half-move clock is 0 after a pawn or king move and one more (as
      a uint8_t) after any other, and the en-passant square is the square a double push
      skipped, or NO_SQUARE. */
  lemma ApplyMoveClock(p: State, sv: string)
    requires ApplyMove(p, sv).Some?
    ensures var r := ApplyMove(p, sv).value;
            r.rule50 == (if MovingType(sv) == PAWN || MovingType(sv) == KING then 0 else (p.rule50 + 1) % 256) &&
            r.ep == (if MovingType(sv) == PAWN then SkippedSquare(p, sv) else NO_SQUARE)
  {
    MoveBodyCounters(p, sv);
    var b := MoveBody(p, sv).value;
    assert ApplyMove(p, sv).value == Finish(b.0, b.1);
  }

  /** The castling rights after the move body, by path. */
  lemma MoveBodyRights(p: State, sv: string)
    requires MoveBody(p, sv).Some?
    ensures var r := MoveBody(p, sv).value.0;
            RightsKept(p.castling, r.castling) &&
            (MovingType(sv) == KING ==> r.castling == ClearCastling(p.castling, BothSides(p.stm))) &&
            (MovingType(sv) != KING && MovingType(sv) != ROOK ==> r.castling == p.castling)
  {
    MoveBodyType(p, sv);
    var pt := MovingType(sv);
    var q0: State := p.(rule50 := 0);
    if pt == PAWN {
      MoveBodyPawn(p, sv);
      PawnMoveKeeps(q0, sv);
    } else if pt == KING {
      MoveBodyKing(p, sv);
      KingMoveRights(q0, sv);
      ClearCastlingKept(p.castling, BothSides(p.stm));
    } else {
      MoveBodyPiece(p, sv);
      ReadMoveKeeps(CountHalfMove(p), sv, pt);
    }
  }

  /** applyMove never grants a castling right; a king move takes away both of the mover's, and
      only a king or rook move changes them at all. */
  lemma ApplyMoveRights(p: State, sv: string)
    requires ApplyMove(p, sv).Some?
    ensures var r := ApplyMove(p, sv).value;
            RightsKept(p.castling, r.castling) &&
            (MovingType(sv) == KING ==> r.castling == ClearCastling(p.castling, BothSides(p.stm))) &&
            (MovingType(sv) != KING && MovingType(sv) != ROOK ==> r.castling == p.castling)
  {
    MoveBodyRights(p, sv);
    var b := MoveBody(p, sv).value;
    assert ApplyMove(p, sv).value == Finish(b.0, b.1);
  }

  /** After a king move the mover can castle on neither side. */
  lemma KingMoveEndsCastling(p: State, sv: string)
    requires ApplyMove(p, sv).Some? && MovingType(sv) == KING
    ensures !CanCastle(ApplyMove(p, sv).value, QueenSide(p.stm))
    ensures !CanCastle(ApplyMove(p, sv).value, KingSide(p.stm))
  {
    ApplyMoveRights(p, sv);
    var r := ApplyMove(p, sv).value;
    var kq, kk := if p.stm then 2 else 0, if p.stm then 3 else 1;
    CanCastleBit(r, kq);
    CanCastleBit(r, kk);
    ClearCastlingBits(p.castling, BothSides(p.stm), kq);
    ClearCastlingBits(p.castling, BothSides(p.stm), kk);
    FlagBits(p.stm, kq);
    FlagBits(p.stm, kk);
  }

  // ---------------------------------------------------------------------
  // What the board looks like afterwards
  // ---------------------------------------------------------------------

  /** The board after the piece on `from` moves to `to` (and `from` is left empty). */
  function Moved(b: seq<Piece>, from: Square, to: Square): (r: seq<Piece>)
    requires |b| == 64
    ensures |r| == 64 && r[from] == NO_PIECE && (from != to ==> r[to] == b[from])
    ensures forall j :: 0 <= j < 64 && j != from && j != to ==> r[j] == b[j]
  {
    b[to := b[from]][from := NO_PIECE]
  }

  lemma MovePieceBoard(p: State, from: Square, to: Square)
    ensures MovePiece(p, from, to).board == Moved(p.board, from, to)
  {
  }

  /** The squares of the back rank, relative to a side. */
  lemma RelativeHome(c: Color, s: Square)
    requires s < 8
    ensures Relative(c, s) == s + (if c then 56 else 0)
  {
  }

  /** `to - pawnPush`, when both are squares, is the plain difference. */
  lemma BehindExact(to: Byte, c: Color)
    requires to < 64 && Behind(to, c) < 64
    ensures Behind(to, c) == to - PawnPush(c)
  {
  }

  /** The source square of a pawn capture from file `f`: one rank behind `to`. */
  lemma CaptureSource(to: Byte, c: Color, f: int, b: Byte, from: Byte)
    requires to < 64 && 0 <= f < 8 && b == Behind(to, c) && from == MakeSquare(f, RankOf(b)) && from < 64
    ensures b == to - PawnPush(c) && from == to - PawnPush(c) + (f - FileOf(to))
  {
  }

  /** A square written as a file letter and a rank digit. */
  lemma SquareOfLetters(f: char, r: char)
    requires 'a' <= f <= 'h' && '1' <= r <= '8'
    ensures SquareOf(f, r) == 8 * (r as int - '1' as int) + (f as int - 'a' as int)
    ensures FileOf(SquareOf(f, r)) == f as int - 'a' as int && RankOf(SquareOf(f, r)) == r as int - '1' as int
    ensures I8(FileFromChar(f)) == f as int - 'a' as int
  {
    var fv := f as int - 'a' as int;
    var rv := r as int - '1' as int;
    I8Fits(f as int);
    I8Fits(r as int);
    U8Fits(fv);
    U8Fits(rv);
    I8Fits(fv);
    I8Fits(rv);
    assert CharCode(f) == f as int && CharCode(r) == r as int;
    assert FileFromChar(f) == fv && RankFromChar(r) == rv;
    U8Fits(rv * 8 + fv);
    FileRankFromSquare(fv, rv);
  }

  /** The pawn-capture path with its squares named. */
  lemma PawnCaptureIs(p: State, sv: string, to: Byte, capSq: Byte, from: Byte)
    requires IsPawnCapture(sv) && PawnCapture(p, sv).Some? && |sv| >= 4 && to == SquareOf(sv[2], sv[3])
    requires capSq == (if p.ep != NO_SQUARE && to == p.ep then Behind(to, p.stm) else to)
    requires from == MakeSquare(I8(FileFromChar(sv[0])), RankOf(Behind(to, p.stm)))
    ensures to < 64 && capSq < 64 && from < 64
    ensures PawnCapture(p, sv).value.board == Moved(p.board[capSq := NO_PIECE], from, to)
  {
    var q := RemovePiece(p, capSq);
    assert q.board == p.board[capSq := NO_PIECE];
    MovePieceBoard(q, from, to);
  }

  /** A push: the pawn arrives on `to` from one square back, or from two squares back when the
      square one back is empty, and then that skipped square is the new en-passant square. */
  lemma PawnPushBoard(p: State, sv: string)
    requires IsPawnPush(sv) && PawnPushMove(p, sv).Some?
    ensures var to := SquareOf(sv[0], sv[1]);
            var one := to - PawnPush(p.stm);
            var r := PawnPushMove(p, sv).value;
            to < 64 && 0 <= one < 64 &&
            (p.board[one] != NO_PIECE ==> r.1 == NO_SQUARE && r.0.board == Moved(p.board, one, to)) &&
            (p.board[one] == NO_PIECE ==> r.1 == one && 0 <= one - PawnPush(p.stm) < 64 &&
                                          r.0.board == Moved(p.board, one - PawnPush(p.stm), to))
  {
    var to := SquareOf(sv[0], sv[1]);
    BehindExact(to, p.stm);
    var one := Behind(to, p.stm);
    if p.board[one] == NO_PIECE {
      BehindExact(one, p.stm);
    }
  }

  /** The source square of a pawn capture `exd5` (or `exd8=Q`): file sv[0], one rank behind
      `to`, which is neither `to` nor the square behind it. */
  lemma CaptureFrom(sv: string, c: Color, to: Byte, from: Byte)
    requires |sv| >= 4 && 'a' <= sv[0] <= 'h' && 'a' <= sv[2] <= 'h' && '1' <= sv[3] <= '8'
    requires to == SquareOf(sv[2], sv[3]) && from == MakeSquare(I8(FileFromChar(sv[0])), RankOf(Behind(to, c)))
    requires from < 64
    ensures to < 64 && Behind(to, c) == to - PawnPush(c)
    ensures from == to - PawnPush(c) + (sv[0] as int - sv[2] as int)
    ensures from != to && (sv[0] != sv[2] ==> from != to - PawnPush(c))
  {
    SquareOfLetters(sv[2], sv[3]);
    SquareOfLetters(sv[0], sv[3]);
    CaptureSource(to, c, I8(FileFromChar(sv[0])), Behind(to, c), from);
  }

  /** The square arithmetic of a pawn capture: the captured square is `to`, or the square behind
      it when `to` is the en-passant square, and the source square lies on file sv[0] one rank
      back; the two differ because the pawn changes file. */
  lemma CaptureSquares(sv: string, c: Color, ep: Byte, to: Byte, capSq: Byte, fromSq: Byte, cap: int, from: int)
    requires |sv| >= 4 && 'a' <= sv[0] <= 'h' && 'a' <= sv[2] <= 'h' && '1' <= sv[3] <= '8' && sv[0] != sv[2]
    requires to == SquareOf(sv[2], sv[3]) && fromSq == MakeSquare(I8(FileFromChar(sv[0])), RankOf(Behind(to, c)))
    requires capSq == (if ep != NO_SQUARE && to == ep then Behind(to, c) else to)
    requires cap == (if ep != NO_SQUARE && to == ep then to - PawnPush(c) else to)
    requires from == to - PawnPush(c) + (sv[0] as int - sv[2] as int)
    requires fromSq < 64
    ensures cap == capSq as int && from == fromSq as int && fromSq != capSq
  {
    CaptureFrom(sv, c, to, fromSq);
  }

  /** A pawn capture `exd5` removes the piece on cap, which is `to` or, when `to` is the
      en-passant square, the square one behind it, and moves the pawn from file sv[0], one rank
      back, to `to`. */
  lemma PawnCaptureBoard(p: State, sv: string, to: Byte, cap: int, from: int)
    requires IsPawnCapture(sv) && PawnCapture(p, sv).Some?
    requires 'a' <= sv[0] <= 'h' && 'a' <= sv[2] <= 'h' && '1' <= sv[3] <= '8' && sv[0] != sv[2]
    requires to == SquareOf(sv[2], sv[3])
    requires cap == (if p.ep != NO_SQUARE && to == p.ep then to - PawnPush(p.stm) else to)
    requires from == to - PawnPush(p.stm) + (sv[0] as int - sv[2] as int)
    ensures 0 <= cap < 64 && 0 <= from < 64 && from != cap
    ensures PawnCapture(p, sv).value.board == Moved(p.board[cap := NO_PIECE], from, to)
  {
    var capSq := if p.ep != NO_SQUARE && to == p.ep then Behind(to, p.stm) else to;
    var fromSq := MakeSquare(I8(FileFromChar(sv[0])), RankOf(Behind(to, p.stm)));
    PawnCaptureIs(p, sv, to, capSq, fromSq);
    CaptureSquares(sv, p.stm, p.ep, to, capSq, fromSq, cap, from);
  }

  /** The promotion letters of a SAN token, looked up as the source does, give a piece of the
      mover's colour of the named type. */
  lemma PromotionPiece(c: Color, ch: char)
    requires ch in "NBRQ"
    ensures InTable(PromotionChar(c, ch)) && IsPiece(FenTable(PromotionChar(c, ch)).piece)
    ensures FenTable(PromotionChar(c, ch)).piece == MakePiece(c, CharToPieceType(ch))
  {
  }

  /** A promotion `e8=Q` puts the promoted piece of the mover's colour on `to` and removes the
      pawn from one square back. */
  lemma PromotionPushBoard(p: State, sv: string)
    requires IsPromotion(sv) && sv[1] != 'x' && sv[3] in "NBRQ" && Promotion(p, sv).Some?
    ensures var to := SquareOf(sv[0], sv[1]);
            var from := to - PawnPush(p.stm);
            to < 64 && 0 <= from < 64 &&
            Promotion(p, sv).value.board ==
              p.board[to := MakePiece(p.stm, CharToPieceType(sv[3]))][from := NO_PIECE]
  {
    BehindExact(SquareOf(sv[0], sv[1]), p.stm);
    PromotionPiece(p.stm, sv[3]);
  }

  /** The capturing promotion path with its squares named. */
  lemma PromotionCaptureIs(p: State, sv: string, to: Byte, from: Byte, ch: char)
    requires IsPromotion(sv) && sv[1] == 'x' && Promotion(p, sv).Some? && to == SquareOf(sv[2], sv[3])
    requires from == MakeSquare(I8(FileFromChar(sv[0])), RankOf(Behind(to, p.stm)))
    requires ch == PromotionChar(p.stm, sv[5])
    ensures to < 64 && from < 64 && InTable(ch)
    ensures Promotion(p, sv).value.board == p.board[to := FenTable(ch).piece][from := NO_PIECE]
  {
  }

  /** A capturing promotion `exd8=Q` puts the promoted piece of the mover's colour on `to` (in
      place of the captured piece) and removes the pawn from file sv[0], one rank back. */
  lemma PromotionCaptureBoard(p: State, sv: string, to: Byte, from: int)
    requires IsPromotion(sv) && sv[1] == 'x' && sv[5] in "NBRQ" && Promotion(p, sv).Some?
    requires 'a' <= sv[0] <= 'h' && 'a' <= sv[2] <= 'h' && '1' <= sv[3] <= '8'
    requires to == SquareOf(sv[2], sv[3])
    requires from == to - PawnPush(p.stm) + (sv[0] as int - sv[2] as int)
    ensures to < 64 && 0 <= from < 64 && from != to
    ensures Promotion(p, sv).value.board ==
              p.board[to := MakePiece(p.stm, CharToPieceType(sv[5]))][from := NO_PIECE]
  {
    var fromSq := MakeSquare(I8(FileFromChar(sv[0])), RankOf(Behind(to, p.stm)));
    var ch := PromotionChar(p.stm, sv[5]);
    PromotionCaptureIs(p, sv, to, fromSq, ch);
    CaptureFrom(sv, p.stm, to, fromSq);
    PromotionPiece(p.stm, sv[5]);
  }

  /** The king-side castling path with the king's square named. */
  lemma KingSideCastleIs(p: State, sv: string, k: Square)
    requires IsKingSideCastle(sv) && HasKing(p, p.stm) && k == KingSquare(p, p.stm)
    ensures var q: State := p.(castling := ClearCastling(p.castling, BothSides(p.stm)));
            KingMove(p, sv) == Some(MovePiece(MovePiece(q, Relative(p.stm, H1), Relative(p.stm, F1)), k, Relative(p.stm, G1)))
  {
    assert sv[1] == sv[..3][1] == '-';
    RelativeFlipsRank(H1);
    RelativeFlipsRank(G1);
    RelativeFlipsRank(F1);
  }

  /** The queen-side castling path with the king's square named. */
  lemma QueenSideCastleIs(p: State, sv: string, k: Square)
    requires IsQueenSideCastle(sv) && HasKing(p, p.stm) && k == KingSquare(p, p.stm)
    ensures var q: State := p.(castling := ClearCastling(p.castling, BothSides(p.stm)));
            KingMove(p, sv) == Some(MovePiece(MovePiece(q, Relative(p.stm, A1), Relative(p.stm, D1)), k, Relative(p.stm, C1)))
  {
    assert sv[1] == sv[..5][1] == '-';
    RelativeFlipsRank(A1);
    RelativeFlipsRank(C1);
    RelativeFlipsRank(D1);
  }

  /** The board after the two moves of a castle, once the mover's rights are cleared. */
  lemma CastleBoard(p: State, k: Square, rook: Square, rookTo: Square, kingTo: Square, r: State)
    requires r == MovePiece(MovePiece(p.(castling := ClearCastling(p.castling, BothSides(p.stm))), rook, rookTo), k, kingTo)
    ensures r.board == Moved(Moved(p.board, rook, rookTo), k, kingTo)
  {
    var q: State := p.(castling := ClearCastling(p.castling, BothSides(p.stm)));
    MovePieceBoard(q, rook, rookTo);
    MovePieceBoard(MovePiece(q, rook, rookTo), k, kingTo);
  }

  /** `O-O` moves the rook from relative h1 to f1, then the king from its square to g1. */
  lemma KingSideCastleBoard(p: State, sv: string, k: Square)
    requires IsKingSideCastle(sv) && HasKing(p, p.stm) && k == KingSquare(p, p.stm)
    ensures KingMove(p, sv).Some?
    ensures KingMove(p, sv).value.board ==
              Moved(Moved(p.board, Relative(p.stm, H1), Relative(p.stm, F1)), k, Relative(p.stm, G1))
  {
    KingSideCastleIs(p, sv, k);
    RelativeHome(p.stm, H1);
    RelativeHome(p.stm, F1);
    RelativeHome(p.stm, G1);
    CastleBoard(p, k, Relative(p.stm, H1), Relative(p.stm, F1), Relative(p.stm, G1), KingMove(p, sv).value);
  }

  /** `O-O-O` moves the rook from relative a1 to d1, then the king from its square to c1. */
  lemma QueenSideCastleBoard(p: State, sv: string, k: Square)
    requires IsQueenSideCastle(sv) && HasKing(p, p.stm) && k == KingSquare(p, p.stm)
    ensures KingMove(p, sv).Some?
    ensures KingMove(p, sv).value.board ==
              Moved(Moved(p.board, Relative(p.stm, A1), Relative(p.stm, D1)), k, Relative(p.stm, C1))
  {
    QueenSideCastleIs(p, sv, k);
    RelativeHome(p.stm, A1);
    RelativeHome(p.stm, D1);
    RelativeHome(p.stm, C1);
    CastleBoard(p, k, Relative(p.stm, A1), Relative(p.stm, D1), Relative(p.stm, C1), KingMove(p, sv).value);
  }

  /** Two moves of a castle onto empty squares, after the rights are cleared, keep the board and
      the bitboards in agreement and leave the king and the rook on their new squares. */
  lemma CastleMovesConsistent(p: State, k: Square, rook: Square, rookTo: Square, kingTo: Square)
    requires Consistent(p) && p.board[k] == MakePiece(p.stm, KING) && p.board[rook] == MakePiece(p.stm, ROOK)
    requires p.board[rookTo] == NO_PIECE && p.board[kingTo] == NO_PIECE
    requires rook != k && rookTo != k && rookTo != kingTo
    ensures var q: State := p.(castling := ClearCastling(p.castling, BothSides(p.stm)));
            var r := MovePiece(MovePiece(q, rook, rookTo), k, kingTo);
            Consistent(r) && r.board[kingTo] == p.board[k] && r.board[rookTo] == p.board[rook] &&
            r.board[k] == NO_PIECE && (rook != kingTo ==> r.board[rook] == NO_PIECE)
  {
    PieceCodes(MakePiece(p.stm, KING));
    PieceCodes(MakePiece(p.stm, ROOK));
    MakePieceUnpacks(p.stm, KING);
    MakePieceUnpacks(p.stm, ROOK);
    var q: State := p.(castling := ClearCastling(p.castling, BothSides(p.stm)));
    MovePieceConsistent(q, rook, rookTo);
    MovePieceConsistent(MovePiece(q, rook, rookTo), k, kingTo);
  }

  /** With the king on relative e1, the rook on relative h1 and f1, g1 empty, `O-O` leaves the
      king on g1 and the rook on f1, empties e1 and h1, and the board and the bitboards still
      agree. */
  lemma KingSideCastleConsistent(p: State, sv: string)
    requires Consistent(p) && IsKingSideCastle(sv) && HasKing(p, p.stm) && KingSquare(p, p.stm) == Relative(p.stm, 4)
    requires p.board[Relative(p.stm, H1)] == MakePiece(p.stm, ROOK)
    requires p.board[Relative(p.stm, F1)] == NO_PIECE && p.board[Relative(p.stm, G1)] == NO_PIECE
    ensures KingMove(p, sv).Some?
    ensures var r := KingMove(p, sv).value;
            Consistent(r) &&
            r.board[Relative(p.stm, G1)] == MakePiece(p.stm, KING) && r.board[Relative(p.stm, F1)] == MakePiece(p.stm, ROOK) &&
            r.board[Relative(p.stm, 4)] == NO_PIECE && r.board[Relative(p.stm, H1)] == NO_PIECE
  {
    var c := p.stm;
    var k := KingSquare(p, c);
    KingSideCastleIs(p, sv, k);
    KingSquareHoldsKing(p, c, 0);
    RelativeHome(c, H1);
    RelativeHome(c, F1);
    RelativeHome(c, G1);
    RelativeHome(c, 4);
    CastleMovesConsistent(p, k, Relative(c, H1), Relative(c, F1), Relative(c, G1));
  }

  /** With the king on relative e1, the rook on relative a1 and d1, c1 empty, `O-O-O` leaves the
      king on c1 and the rook on d1, empties e1 and a1, and the board and the bitboards still
      agree (b1 is not looked at). */
  lemma QueenSideCastleConsistent(p: State, sv: string)
    requires Consistent(p) && IsQueenSideCastle(sv) && HasKing(p, p.stm) && KingSquare(p, p.stm) == Relative(p.stm, 4)
    requires p.board[Relative(p.stm, A1)] == MakePiece(p.stm, ROOK)
    requires p.board[Relative(p.stm, D1)] == NO_PIECE && p.board[Relative(p.stm, C1)] == NO_PIECE
    ensures KingMove(p, sv).Some?
    ensures var r := KingMove(p, sv).value;
            Consistent(r) &&
            r.board[Relative(p.stm, C1)] == MakePiece(p.stm, KING) && r.board[Relative(p.stm, D1)] == MakePiece(p.stm, ROOK) &&
            r.board[Relative(p.stm, 4)] == NO_PIECE && r.board[Relative(p.stm, A1)] == NO_PIECE
  {
    var c := p.stm;
    var k := KingSquare(p, c);
    QueenSideCastleIs(p, sv, k);
    KingSquareHoldsKing(p, c, 0);
    RelativeHome(c, A1);
    RelativeHome(c, D1);
    RelativeHome(c, C1);
    RelativeHome(c, 4);
    CastleMovesConsistent(p, k, Relative(c, A1), Relative(c, D1), Relative(c, C1));
  }

  // ---------------------------------------------------------------------
  // readMove<pt>: which piece moves
  // ---------------------------------------------------------------------

  /** The `for (;;)` loop takes the lowest acceptable candidate, and it fails only when no
      candidate is acceptable. */
  lemma {:induction false} SelectSourceSpec(pt: PieceType, pinned: U64, ksq: Square, to: Square, targets: U64, j: Square)
    ensures var r := SelectSource(pt, pinned, ksq, to, targets);
            (r.Some? ==> IsSet(targets, r.value) && Acceptable(pt, pinned, ksq, r.value, to) &&
                         (j < r.value && IsSet(targets, j) ==> !Acceptable(pt, pinned, ksq, j, to))) &&
            (r.None? ==> IsSet(targets, j) ==> !Acceptable(pt, pinned, ksq, j, to))
    decreases PopCount(targets)
  {
    if targets == 0 {
      ZeroClear(j);
    } else {
      var from := LSB(targets);
      LSBIsLowest(targets, j);
      PopLowestSquares(targets, j);
      if !Acceptable(pt, pinned, ksq, from, to) {
        var rest := PopLowest(targets);
        SelectSourceSpec(pt, pinned, ksq, to, rest, j);
        var r := SelectSource(pt, pinned, ksq, to, rest);
        if r.Some? {
          PopLowestSquares(targets, r.value);
        }
      }
    }
  }

  /** A square agrees with the file and rank hints given. */
  predicate MatchesHints(h: Hints, j: Square) {
    (h.file.Some? ==> FileOf(j) == I8(h.file.value)) && (h.rank.Some? ==> RankOf(j) == I8(h.rank.value))
  }

  /** The hints keep exactly the candidates on the hinted file and rank. */
  lemma ApplyHintsSquares(targets: U64, h: Hints, j: Square)
    requires ApplyHints(targets, h).Some?
    ensures IsSet(ApplyHints(targets, h).value, j) == (IsSet(targets, j) && MatchesHints(h, j))
  {
    var f := if h.file.Some? then I8(h.file.value) else 0;
    var r := if h.rank.Some? then I8(h.rank.value) else 0;
    var t1 := if h.file.Some? then Intersection(targets, FileBB(f)) else targets;
    IntersectionSquares(targets, FileBB(f), j);
    FileSquares(f, j);
    IntersectionSquares(t1, RankBB(r), j);
    RankSquares(r, j);
  }

  /** The last digit of sv[idx..end) gives the rank hint, and the last other character the
      file hint. */
  lemma {:induction false} HintsLoopLast(sv: string, idx: nat, end: nat, h: Hints, i: nat)
    requires idx <= i < end <= |sv|
    ensures IsDigit(sv[i]) && (forall k :: i < k < end ==> !IsDigit(sv[k])) ==>
              HintsLoop(sv, idx, end, h).rank == Some(RankFromChar(sv[i]))
    ensures !IsDigit(sv[i]) && (forall k :: i < k < end ==> IsDigit(sv[k])) ==>
              HintsLoop(sv, idx, end, h).file == Some(FileFromChar(sv[i]))
    decreases end - idx
  {
    var h1 := if IsDigit(sv[idx]) then h.(rank := Some(RankFromChar(sv[idx]))) else h.(file := Some(FileFromChar(sv[idx])));
    if idx < i {
      HintsLoopLast(sv, idx + 1, end, h1, i);
    } else {
      HintsLoopKeeps(sv, idx + 1, end, h1);
    }
  }

  /** A kind of character that does not occur in sv[idx..end) leaves its hint as it was. */
  lemma {:induction false} HintsLoopKeeps(sv: string, idx: nat, end: nat, h: Hints)
    requires end <= |sv|
    ensures (forall k :: idx <= k < end ==> !IsDigit(sv[k])) ==> HintsLoop(sv, idx, end, h).rank == h.rank
    ensures (forall k :: idx <= k < end ==> IsDigit(sv[k])) ==> HintsLoop(sv, idx, end, h).file == h.file
    decreases end - idx
  {
    if idx < end {
      var h1 := if IsDigit(sv[idx]) then h.(rank := Some(RankFromChar(sv[idx]))) else h.(file := Some(FileFromChar(sv[idx])));
      HintsLoopKeeps(sv, idx + 1, end, h1);
    }
  }

  /** The moving piece is one of the mover's pieces of type `pt` attacking `to`: the only one,
      or, among several, the lowest acceptable one of those the hints keep. */
  lemma ReadSourceChoice(p: State, sv: string, pt: PieceType, t: MoveText, j: Square)
    requires KNIGHT <= pt <= QUEEN && t.to < 64 && t.end <= |sv| && ReadSource(p, sv, pt, t).Some?
    ensures var from := ReadSource(p, sv, pt, t).value;
            var cands := Candidates(p, pt, t.to);
            var h := HintsLoop(sv, 1, t.end, Hints(None, None));
            IsSet(cands, from) &&
            (PopCount(cands) == 1 ==> (IsSet(cands, j) <==> j == from)) &&
            (PopCount(cands) != 1 ==>
               MatchesHints(h, from) && HasKing(p, p.stm) &&
               Acceptable(pt, Pinned(p), KingSquare(p, p.stm), from, t.to) &&
               (j < from && IsSet(cands, j) && MatchesHints(h, j) ==>
                  !Acceptable(pt, Pinned(p), KingSquare(p, p.stm), j, t.to)))
  {
    var cands := Candidates(p, pt, t.to);
    var from := ReadSource(p, sv, pt, t).value;
    if PopCount(cands) == 1 {
      SingleBit(cands, j);
      SingleBit(cands, from);
      LSBIsLowest(cands, 0);
    } else {
      var h := HintsLoop(sv, 1, t.end, Hints(None, None));
      var filtered := ApplyHints(cands, h).value;
      SelectSourceSpec(pt, Pinned(p), KingSquare(p, p.stm), t.to, filtered, j);
      ApplyHintsSquares(cands, h, j);
      ApplyHintsSquares(cands, h, from);
    }
  }

  /** The candidates are exactly the mover's pieces of type `pt` that attack `to`; none stands
      on `to` itself. */
  lemma CandidateSquares(p: State, pt: PieceType, to: Square, j: Square)
    requires KNIGHT <= pt <= QUEEN && Consistent(p)
    ensures IsSet(Candidates(p, pt, to), j) ==
            (p.board[j] == MakePiece(p.stm, pt) && IsSet(PieceAttacks(pt, to, p.occupied), j))
    ensures IsSet(Candidates(p, pt, to), j) ==> j != to
  {
    IntersectionSquares(PieceAttacks(pt, to, p.occupied), Pieces(p, p.stm, pt), j);
    PiecesSquares(p, p.stm, pt, j);
    if pt == KNIGHT {
      KnightAttacksSquares(to, j);
    } else if pt == BISHOP {
      BishopAttacksSquares(to, p.occupied, j);
    } else if pt == ROOK {
      RookAttacksSquares(to, p.occupied, j);
    } else {
      QueenAttacksSquares(to, p.occupied, j);
    }
  }

  /** Changing the castling rights does not touch the board or the bitboards. */
  lemma CastlingConsistent(p: State, d: Byte)
    requires Consistent(p)
    ensures Consistent(p.(castling := d))
  {
  }

  /** readMove<pt> with its target and source named. */
  lemma ReadMoveIs(p: State, sv: string, pt: PieceType, t: MoveText, from: Square)
    requires KNIGHT <= pt <= QUEEN && ReadMoveText(sv) == Some(t)
    requires t.to < 64 && t.end <= |sv| && ReadSource(p, sv, pt, t) == Some(from)
    ensures ReadMove(p, sv, pt).Some?
    ensures var q: State := if t.isCapture then RemovePiece(p, t.to) else p;
            var q2 := MovePiece(q.(castling := ReadMove(p, sv, pt).value.castling), from, t.to);
            ReadMove(p, sv, pt).value == q2
  {
  }

  /** The board after a move of the piece on `from` to `to`, with an optional capture. */
  lemma ReadMoveIsBoard(p: State, t: MoveText, from: Square, r: State)
    requires t.to < 64 && from != t.to
    requires r == MovePiece((if t.isCapture then RemovePiece(p, t.to) else p).(castling := r.castling), from, t.to)
    ensures r.board == Moved(p.board, from, t.to)
  {
    var q: State := if t.isCapture then RemovePiece(p, t.to) else p;
    var q2: State := q.(castling := r.castling);
    MovePieceBoard(q2, from, t.to);
    assert Moved(q2.board, from, t.to) == Moved(p.board, from, t.to);
  }

  /** readMove<pt> moves one of the mover's pieces of type `pt` to `to`, replacing what stood
      there, and changes no other square. */
  lemma ReadMoveBoard(p: State, sv: string, pt: PieceType, t: MoveText)
    requires KNIGHT <= pt <= QUEEN && Consistent(p) && ReadMove(p, sv, pt).Some? && ReadMoveText(sv) == Some(t)
    ensures t.to < 64 && t.end <= |sv| && ReadSource(p, sv, pt, t).Some?
    ensures var from := ReadSource(p, sv, pt, t).value;
            p.board[from] == MakePiece(p.stm, pt) && from != t.to &&
            ReadMove(p, sv, pt).value.board == Moved(p.board, from, t.to)
  {
    var from := ReadSource(p, sv, pt, t).value;
    ReadSourceChoice(p, sv, pt, t, 0);
    CandidateSquares(p, pt, t.to, from);
    ReadMoveIs(p, sv, pt, t, from);
    ReadMoveIsBoard(p, t, from, ReadMove(p, sv, pt).value);
  }

  /** A move of one of the mover's pieces onto `to`, which is empty or is cleared first, keeps
      the board and the bitboards in agreement. */
  lemma ReadMoveIsConsistent(p: State, pt: PieceType, t: MoveText, from: Square, r: State)
    requires KNIGHT <= pt <= QUEEN && Consistent(p) && t.to < 64 && from != t.to
    requires p.board[from] == MakePiece(p.stm, pt) && (t.isCapture || p.board[t.to] == NO_PIECE)
    requires r == MovePiece((if t.isCapture then RemovePiece(p, t.to) else p).(castling := r.castling), from, t.to)
    ensures Consistent(r)
  {
    var q: State := if t.isCapture then RemovePiece(p, t.to) else p;
    if t.isCapture {
      RemovePieceConsistent(p, t.to);
    }
    var q2: State := q.(castling := r.castling);
    CastlingConsistent(q, r.castling);
    PieceCodes(MakePiece(p.stm, pt));
    MakePieceUnpacks(p.stm, pt);
    MovePieceConsistent(q2, from, t.to);
  }

  /** When `to` was empty or the move captures, the board and the bitboards still agree after
      readMove<pt>. */
  lemma ReadMoveConsistent(p: State, sv: string, pt: PieceType, t: MoveText)
    requires KNIGHT <= pt <= QUEEN && Consistent(p) && ReadMove(p, sv, pt).Some? && ReadMoveText(sv) == Some(t)
    requires t.isCapture || (t.to < 64 && p.board[t.to] == NO_PIECE)
    ensures Consistent(ReadMove(p, sv, pt).value)
  {
    var from := ReadSource(p, sv, pt, t).value;
    ReadSourceChoice(p, sv, pt, t, 0);
    CandidateSquares(p, pt, t.to, from);
    ReadMoveIs(p, sv, pt, t, from);
    ReadMoveIsConsistent(p, pt, t, from, ReadMove(p, sv, pt).value);
  }
}
