// struct chess::pgn::Position (src/PGN-converter/pgn_position.h) as an object
// whose arrays and fields its methods update in place. Every method is proved
// against the value-level functions of PgnPosition, PgnFen and PgnMoves: the
// object's Snapshot() after the call is the function applied to the Snapshot()
// before it, so the properties proved about those functions carry over.

module PositionObject {
  import opened Bits
  import opened Definitions
  import opened Bitboards
  import opened Attacks
  import opened Wrappers
  import opened PgnPosition
  import opened PgnFen
  import opened PgnMoves
  import opened MoveProperties

  class Position {
    const board: array<Piece>
    const byType: array<U64>
    const byColor: array<U64>
    var occupied: U64
    var stm: Color
    var castling: Byte
    var ep: Byte
    var rule50: Byte
    var ply: int

    /** The fields as a position value. */
    function View(): PositionState
      reads this, board, byType, byColor
    {
      PositionState(board[..], occupied, byType[..], byColor[..], stm, castling, ep, rule50, ply)
    }

    /** The arrays have their declared sizes, the two bitboard arrays are distinct, `ply`
        fits its `uint16_t`, and every square holds a piece code or nothing. */
    predicate Valid()
      reads this, board, byType, byColor
    {
      byType != byColor && Shaped(View())
    }

    function Snapshot(): State
      requires Valid()
      reads this, board, byType, byColor
    {
      View()
    }

    /** `std::memset(this, 0, sizeof(Position))`: the empty board, white to move, no rights. */
    constructor()
      ensures Valid() && Snapshot() == Cleared()
      ensures fresh(board) && fresh(byType) && fresh(byColor)
    {
      board := new Piece[64](_ => NO_PIECE);
      byType := new U64[7](_ => 0);
      byColor := new U64[2](_ => 0);
      occupied, stm, castling, ep, rule50, ply := 0, WHITE, NO_CASTLING, NO_SQUARE, 0, 0;
      new;
      assert board[..] == seq(64, _ => NO_PIECE);
      assert byType[..] == seq(7, _ => 0);
      assert byColor[..] == seq(2, _ => 0);
    }

    /** setPiece(s, pc) */
    method SetPiece(s: Square, pc: Piece)
      requires Valid() && (pc == NO_PIECE || IsPiece(pc))
      modifies this, board, byType, byColor
      ensures Valid() && Snapshot() == PgnPosition.SetPiece(old(Snapshot()), s, pc)
    {
      BoardWrite(board[..], s, pc);
      board[s] := pc;
      var t := TypeOf(pc);
      byType[t] := SetBit(byType[t], s);
      var c := ColorIndex(ColorOf(pc));
      byColor[c] := SetBit(byColor[c], s);
      occupied := SetBit(occupied, s);
    }

    /** removePiece(s) */
    method RemovePiece(s: Square)
      requires Valid()
      modifies this, board, byType, byColor
      ensures Valid() && Snapshot() == PgnPosition.RemovePiece(old(Snapshot()), s)
    {
      CellOf(Snapshot(), s);
      BoardWrite(board[..], s, NO_PIECE);
      var t := TypeOf(board[s]);
      byType[t] := ClearBit(byType[t], s);
      var c := ColorIndex(ColorOf(board[s]));
      byColor[c] := ClearBit(byColor[c], s);
      board[s] := NO_PIECE;
      occupied := ClearBit(occupied, s);
    }

    /** movePiece(from, to) */
    method MovePiece(from: Square, to: Square)
      requires Valid()
      modifies this, board, byType, byColor
      ensures Valid() && Snapshot() == PgnPosition.MovePiece(old(Snapshot()), from, to)
    {
      CellOf(Snapshot(), from);
      SetPiece(to, board[from]);
      RemovePiece(from);
    }

    /** pinned(): pop the enemy sliders aiming at the king one by one and mark each sole own
        blocker between them and the king. */
    method Pinned() returns (pinned: U64)
      requires Valid() && HasKing(Snapshot(), stm)
      ensures pinned == PgnPosition.Pinned(Snapshot())
    {
      var ksq := LSB(Intersection(byColor[ColorIndex(stm)], byType[KING]));
      var ourTeam := byColor[ColorIndex(stm)];
      var theirTeam := byColor[ColorIndex(!stm)];
      var sliderAttackers :=
        Intersection(theirTeam,
          Union(Intersection(BishopAttacks(ksq, theirTeam), Union(byType[BISHOP], byType[QUEEN])),
                Intersection(RookAttacks(ksq, theirTeam), Union(byType[ROOK], byType[QUEEN]))));
      ghost var p := Snapshot();
      assert ksq == KingSquare(p, p.stm) && sliderAttackers == SliderAttackers(p, ksq);
      pinned := 0;
      while sliderAttackers != 0
        invariant PinnedLoop(p, ksq, sliderAttackers, pinned) == PgnPosition.Pinned(p)
        decreases PopCount(sliderAttackers)
      {
        var s := LSB(sliderAttackers);
        PopLowestSquares(sliderAttackers, 0);
        sliderAttackers := Intersection(sliderAttackers, sliderAttackers - 1);
        var blockers := Intersection(InBetweenSquares(ksq, s), ourTeam);
        assert blockers == Blockers(p, ksq, s);
        PopCountZero(blockers);
        if PopCount(blockers) == 1 {
          pinned := SetBit(pinned, LSB(blockers));
        }
      }
    }

    /** The source square readMove<pt> settles on, or None where one of its asserts fails or
        it indexes a table or asks for a king square out of range. */
    method FindSource(sv: string, pt: PieceType, t: MoveText) returns (r: Option<Square>)
      requires Valid() && KNIGHT <= pt <= QUEEN && t.to < 64 && t.end <= |sv|
      ensures r == ReadSource(Snapshot(), sv, pt, t)
    {
      ghost var p := Snapshot();
      var to := t.to;
      var own := Intersection(byColor[ColorIndex(stm)], byType[pt]);
      var targets: U64;
      if pt == KNIGHT { targets := Intersection(KnightAttacks(to), own); }
      else if pt == BISHOP { targets := Intersection(BishopAttacks(to, occupied), own); }
      else if pt == ROOK { targets := Intersection(RookAttacks(to, occupied), own); }
      else { targets := Intersection(QueenAttacks(to, occupied), own); }
      assert targets == Candidates(p, pt, to);
      if targets == 0 {
        return None;
      }
      if PopCount(targets) == 1 {
        return Some(LSB(targets));
      }
      var h := ReadHints(sv, t.end);
      var filtered := FilterByHints(targets, h);
      if filtered.None? {
        return None;
      }
      targets := filtered.value;
      if Intersection(byColor[ColorIndex(stm)], byType[KING]) == 0 {
        ReadSourceNoKing(p, sv, pt, t);
        return None;
      }
      var pinned := Pinned();
      var ksq := LSB(Intersection(byColor[ColorIndex(stm)], byType[KING]));
      r := SelectFrom(pt, pinned, ksq, to, targets);
      ReadSourceFiltered(p, sv, pt, t, targets, r);
    }

    /** `removePiece(to)` and the rook-capture test of readMove, which reads board[to] after
        the capture emptied it and so never fires. */
    method CaptureOn(to: Square)
      requires Valid()
      modifies this, board, byType, byColor
      ensures Valid()
      ensures Snapshot() == PgnPosition.RemovePiece(old(Snapshot()), to).(castling := RookCaptureRights(PgnPosition.RemovePiece(old(Snapshot()), to), to))
    {
      RemovePiece(to);
      castling := RookCaptureRights(Snapshot(), to);
    }

    /** A rook leaving relative a1 or h1 clears the mover's right on that side. */
    method RookLeaves(from: Square)
      requires Valid()
      modifies this
      ensures Valid() && Snapshot() == old(Snapshot()).(castling := RookLeaveRights(old(castling), stm, from))
    {
      if from == Relative(stm, A1) {
        castling := ClearCastling(castling, QueenSide(stm));
      } else if from == Relative(stm, H1) {
        castling := ClearCastling(castling, KingSide(stm));
      }
    }

    /** (En passant) pawn capture `exd5`: remove the piece on `to`, or behind it when `to` is
        the en-passant square, then move the pawn from file sv[0], one rank back. */
    method PawnCaptureStep(sv: string) returns (ok: bool)
      requires Valid() && IsPawnCapture(sv)
      modifies this, board, byType, byColor
      ensures Valid()
      ensures ok == PawnCapture(old(Snapshot()), sv).Some?
      ensures ok ==> Snapshot() == PawnCapture(old(Snapshot()), sv).value
    {
      if |sv| < 4 {
        return false;
      }
      var to := SquareOf(sv[2], sv[3]);
      var capSq := if ep != NO_SQUARE && to == ep then Behind(to, stm) else to;
      var from := MakeSquare(I8(FileFromChar(sv[0])), RankOf(Behind(to, stm)));
      if to >= 64 || capSq >= 64 || from >= 64 {
        return false;
      }
      RemovePiece(capSq);
      MovePiece(from, to);
      ok := true;
    }

    /** Promotion `e8=Q` or `exd8=Q`: (capture on `to`,) put the promoted piece of the
        mover's colour on `to`, and remove the pawn. */
    method PromotionStep(sv: string) returns (ok: bool)
      requires Valid() && IsPromotion(sv)
      modifies this, board, byType, byColor
      ensures Valid()
      ensures ok == Promotion(old(Snapshot()), sv).Some?
      ensures ok ==> Snapshot() == Promotion(old(Snapshot()), sv).value
    {
      var to, from, ch;
      if sv[1] == 'x' {
        to := SquareOf(sv[2], sv[3]);
        from := MakeSquare(I8(FileFromChar(sv[0])), RankOf(Behind(to, stm)));
        ch := PromotionChar(stm, sv[5]);
        if to >= 64 || from >= 64 || !InTable(ch) {
          return false;
        }
        RemovePiece(to);
      } else {
        to := SquareOf(sv[0], sv[1]);
        from := Behind(to, stm);
        ch := PromotionChar(stm, sv[3]);
        if to >= 64 || from >= 64 || !InTable(ch) {
          return false;
        }
      }
      FenTablePieces(ch);
      SetPiece(to, FenTable(ch).piece);
      RemovePiece(from);
      ok := true;
    }

    /** (Double) pawn push `e4`: from one square back, or from two back when the square one
        back is empty, which then becomes the new en-passant square. */
    method PawnPushStep(sv: string) returns (ok: bool, newEp: Byte)
      requires Valid() && IsPawnPush(sv)
      modifies this, board, byType, byColor
      ensures Valid()
      ensures ok == PawnPushMove(old(Snapshot()), sv).Some?
      ensures ok ==> (Snapshot(), newEp) == PawnPushMove(old(Snapshot()), sv).value
    {
      var to := SquareOf(sv[0], sv[1]);
      var from := Behind(to, stm);
      if to >= 64 || from >= 64 {
        return false, NO_SQUARE;
      }
      newEp := NO_SQUARE;
      if board[from] == NO_PIECE {
        newEp := from;
        from := Behind(from, stm);
        if from >= 64 {
          return false, NO_SQUARE;
        }
      }
      MovePiece(from, to);
      ok := true;
    }

    /** The pawn branch of applyMove. */
    method PawnStep(sv: string) returns (ok: bool, newEp: Byte)
      requires Valid()
      modifies this, board, byType, byColor
      ensures Valid()
      ensures ok == PawnMove(old(Snapshot()), sv).Some?
      ensures ok ==> (Snapshot(), newEp) == PawnMove(old(Snapshot()), sv).value
    {
      if |sv| < 2 {
        return false, NO_SQUARE;
      }
      newEp := NO_SQUARE;
      if IsPawnCapture(sv) {
        ok := PawnCaptureStep(sv);
      } else if IsPromotion(sv) {
        ok := PromotionStep(sv);
      } else {
        ok, newEp := PawnPushStep(sv);
      }
    }

    /** The king branch of applyMove: give up both of the mover's rights, then move the
        king from its square. */
    method KingStep(sv: string) returns (ok: bool)
      requires Valid()
      modifies this, board, byType, byColor
      ensures Valid()
      ensures ok == KingMove(old(Snapshot()), sv).Some?
      ensures ok ==> Snapshot() == KingMove(old(Snapshot()), sv).value
    {
      if Intersection(byColor[ColorIndex(stm)], byType[KING]) == 0 || |sv| < 2 {
        return false;
      }
      var from := LSB(Intersection(byColor[ColorIndex(stm)], byType[KING]));
      castling := ClearCastling(castling, BothSides(stm));
      ok := KingFromStep(sv, from);
    }

    /** A king capture on `to`: a rook standing on the opponent's relative a8 or h8 takes
        away the mover's own right on that side (as written), then the piece is removed. */
    method KingCapture(to: Square)
      requires Valid()
      modifies this, board, byType, byColor
      ensures Valid()
      ensures Snapshot() == PgnPosition.RemovePiece(old(Snapshot()).(castling := RookCaptureRights(old(Snapshot()), to)), to)
    {
      if TypeOf(board[to]) == ROOK {
        if to == Relative(stm, A8) {
          castling := ClearCastling(castling, QueenSide(stm));
        } else if to == Relative(stm, H8) {
          castling := ClearCastling(castling, KingSide(stm));
        }
      }
      RemovePiece(to);
    }

    /** The king branch once the rights are given up: capture (the rook test here runs
        before the capture), castle (rook first), or step. */
    method KingFromStep(sv: string, from: Square) returns (ok: bool)
      requires Valid() && |sv| >= 2
      modifies this, board, byType, byColor
      ensures Valid()
      ensures ok == KingMoveFrom(old(Snapshot()), sv, from).Some?
      ensures ok ==> Snapshot() == KingMoveFrom(old(Snapshot()), sv, from).value
    {
      var to: Square;
      if sv[1] == 'x' {
        if |sv| < 4 || SquareOf(sv[2], sv[3]) >= 64 {
          return false;
        }
        to := SquareOf(sv[2], sv[3]);
        KingCapture(to);
      } else if IsQueenSideCastle(sv) {
        RelativeFlipsRank(A1);
        RelativeFlipsRank(C1);
        RelativeFlipsRank(D1);
        to := Relative(stm, C1);
        MovePiece(Relative(stm, A1), Relative(stm, D1));
      } else if IsKingSideCastle(sv) {
        RelativeFlipsRank(H1);
        RelativeFlipsRank(G1);
        RelativeFlipsRank(F1);
        to := Relative(stm, G1);
        MovePiece(Relative(stm, H1), Relative(stm, F1));
      } else {
        if |sv| < 3 || SquareOf(sv[1], sv[2]) >= 64 {
          return false;
        }
        to := SquareOf(sv[1], sv[2]);
      }
      MovePiece(from, to);
      ok := true;
    }

    /** applyMove(sv): look up the moving piece type from sv[0], count the half move, run the
        pawn, piece or king branch, then hand the move to the other side, set the new
        en-passant square and advance the ply. False where the source fails an assert or
        reads outside the token, the board or a table. */
    method ApplyMove(sv: string) returns (ok: bool)
      requires Valid()
      modifies this, board, byType, byColor
      ensures Valid()
      ensures ok == PgnMoves.ApplyMove(old(Snapshot()), sv).Some?
      ensures ok ==> Snapshot() == PgnMoves.ApplyMove(old(Snapshot()), sv).value
    {
      ghost var p := Snapshot();
      var newEp;
      ok, newEp := MoveBodyStep(sv);
      if !ok {
        ApplyMoveFails(p, sv);
        return false;
      }
      ApplyMoveIs(p, sv, Snapshot(), newEp);
      FinishStep(newEp);
    }

    /** The last three assignments of applyMove: the other side moves, the new en-passant
        square is set and the ply advances as a uint16_t. */
    method FinishStep(newEp: Byte)
      requires Valid()
      modifies this
      ensures Valid() && Snapshot() == Finish(old(Snapshot()), newEp)
    {
      stm := !stm;
      ep := newEp;
      ply := U16(ply + 1);
    }

    /** applyMove up to its last three assignments: `++rule50Cnt`, then the pawn (clock reset),
        piece or king (clock reset) branch. */
    method MoveBodyStep(sv: string) returns (ok: bool, newEp: Byte)
      requires Valid()
      modifies this, board, byType, byColor
      ensures Valid()
      ensures ok == MoveBody(old(Snapshot()), sv).Some?
      ensures ok ==> (Snapshot(), newEp) == MoveBody(old(Snapshot()), sv).value
    {
      ghost var p := Snapshot();
      var pt := MovingType(sv);
      if pt == NO_PIECE_TYPE || KING < pt {
        return false, NO_SQUARE;
      }
      newEp := NO_SQUARE;
      rule50 := U8(rule50 + 1);
      assert Snapshot() == CountHalfMove(p);
      if pt == PAWN {
        rule50 := 0;
        assert Snapshot() == p.(rule50 := 0);
        MoveBodyPawn(p, sv);
        ok, newEp := PawnStep(sv);
      } else if KNIGHT <= pt <= QUEEN {
        MoveBodyPiece(p, sv);
        ok := ReadMove(sv, pt);
      } else {
        rule50 := 0;
        assert Snapshot() == p.(rule50 := 0);
        MoveBodyKing(p, sv);
        ok := KingStep(sv);
      }
    }

    /** The moving part of readMove<pt>: capture on `to`, move the piece, and drop the right
        of a rook leaving its corner. */
    method Relocate(pt: PieceType, t: MoveText, from: Square)
      requires Valid() && t.to < 64
      modifies this, board, byType, byColor
      ensures Valid() && Snapshot() == ReadMoveFrom(old(Snapshot()), pt, t, from)
    {
      ghost var p := Snapshot();
      if t.isCapture {
        CaptureOn(t.to);
      }
      ghost var q2 := Snapshot();
      MovePiece(from, t.to);
      ghost var q3 := Snapshot();
      if pt == ROOK {
        RookLeaves(from);
      }
      ReadMoveFromSteps(p, pt, t, from, q2, q3, Snapshot());
    }

    /** readMove<pt>(sv): parse the target and the capture mark, find the source, capture,
        move, and drop the right of a rook leaving its corner. False where the source fails
        an assert or reads outside the token or a table. */
    method ReadMove(sv: string, pt: PieceType) returns (ok: bool)
      requires Valid() && KNIGHT <= pt <= QUEEN
      modifies this, board, byType, byColor
      ensures Valid()
      ensures ok == PgnMoves.ReadMove(old(Snapshot()), sv, pt).Some?
      ensures ok ==> Snapshot() == PgnMoves.ReadMove(old(Snapshot()), sv, pt).value
    {
      ghost var p := Snapshot();
      var text := ReadMoveText(sv);
      if text.None? || text.value.to >= 64 || text.value.end as int > |sv| {
        return false;
      }
      var t := text.value;
      var source := FindSource(sv, pt, t);
      if source.None? {
        return false;
      }
      Relocate(pt, t, source.value);
      ok := true;
    }
  }

  /** The `for (idx = 1; idx < end; ++idx)` loop of readMove: a digit sets the rank hint, any
      other character the file hint. */
  method ReadHints(sv: string, end: nat) returns (h: Hints)
    requires end <= |sv|
    ensures h == HintsLoop(sv, 1, end, Hints(None, None))
  {
    var useFile, useRank := false, false;
    var file, rank: Byte := 0, 0;
    var idx := 1;
    while idx < end
      invariant 1 <= idx && (end >= 1 ==> idx <= end)
      invariant HintsLoop(sv, idx, end, Hints(if useFile then Some(file) else None, if useRank then Some(rank) else None)) ==
                HintsLoop(sv, 1, end, Hints(None, None))
    {
      if IsDigit(sv[idx]) {
        useRank := true;
        rank := RankFromChar(sv[idx]);
      } else {
        useFile := true;
        file := FileFromChar(sv[idx]);
      }
      idx := idx + 1;
    }
    h := Hints(if useFile then Some(file) else None, if useRank then Some(rank) else None);
  }

  /** `targets &= attacks::files[file]` and `targets &= attacks::ranks[rank]` for the hints
      read; None where a hint does not index the eight-entry tables. */
  method FilterByHints(candidates: U64, h: Hints) returns (r: Option<U64>)
    ensures r == ApplyHints(candidates, h)
  {
    var f := if h.file.Some? then I8(h.file.value) else 0;
    var rk := if h.rank.Some? then I8(h.rank.value) else 0;
    if !(0 <= f < 8 && 0 <= rk < 8) {
      return None;
    }
    var targets := candidates;
    if h.file.Some? {
      targets := Intersection(targets, FileBB(f));
    }
    if h.rank.Some? {
      targets := Intersection(targets, RankBB(rk));
    }
    return Some(targets);
  }

  /** The `for (;;)` loop of readMove: pop the lowest candidate; take it when it is not pinned,
      or, for a slider, when `to` lies on the line from the king through it. None where the
      candidates run out and `assert(targets)` fails. */
  method SelectFrom(pt: PieceType, pinned: U64, ksq: Square, to: Square, candidates: U64) returns (r: Option<Square>)
    ensures r == SelectSource(pt, pinned, ksq, to, candidates)
  {
    var targets := candidates;
    while targets != 0
      invariant SelectSource(pt, pinned, ksq, to, targets) == SelectSource(pt, pinned, ksq, to, candidates)
      decreases PopCount(targets)
    {
      ghost var before := targets;
      var from := LSB(targets);
      PopLowestSquares(targets, 0);
      assert SelectSource(pt, pinned, ksq, to, before) ==
        if Acceptable(pt, pinned, ksq, from, to) then Some(from) else SelectSource(pt, pinned, ksq, to, PopLowest(before));
      targets := Intersection(targets, targets - 1);
      if !IsSet(pinned, from) {
        return Some(from);
      }
      if pt != KNIGHT {
        var dxFrom, dyFrom := FileOf(from) - FileOf(ksq), RankOf(from) - RankOf(ksq);
        var dxTo, dyTo := FileOf(to) - FileOf(ksq), RankOf(to) - RankOf(ksq);
        if dxFrom == 0 || dxTo == 0 {
          if dxFrom == dxTo {
            return Some(from);
          }
        } else if dyFrom == 0 || dyTo == 0 {
          if dyFrom == dyTo {
            return Some(from);
          }
        } else if dxFrom * dyTo == dyFrom * dxTo {
          return Some(from);
        }
      }
    }
    return None;
  }

  /** applyMove fails exactly where its move body does. */
  lemma ApplyMoveFails(p: State, sv: string)
    requires MoveBody(p, sv).None?
    ensures ApplyMove(p, sv).None?
  {
  }

  /** applyMove is the move body followed by its last three assignments. */
  lemma ApplyMoveIs(p: State, sv: string, q: State, newEp: Byte)
    requires MoveBody(p, sv) == Some((q, newEp))
    ensures ApplyMove(p, sv) == Some(Finish(q, newEp))
  {
  }

  /** ReadMoveFrom as its three steps. */
  lemma ReadMoveFromSteps(p: State, pt: PieceType, t: MoveText, from: Square, q2: State, q3: State, r: State)
    requires t.to < 64
    requires q2 == (if t.isCapture then RemovePiece(p, t.to).(castling := RookCaptureRights(RemovePiece(p, t.to), t.to)) else p)
    requires q3 == PgnPosition.MovePiece(q2, from, t.to)
    requires r == (if pt == ROOK then q3.(castling := RookLeaveRights(q3.castling, p.stm, from)) else q3)
    ensures r == ReadMoveFrom(p, pt, t, from)
  {
  }

  /** The last step of readMove's source choice, when there are several candidates. */
  lemma ReadSourceFiltered(p: State, sv: string, pt: PieceType, t: MoveText, filtered: U64, r: Option<Square>)
    requires KNIGHT <= pt <= QUEEN && t.to < 64 && t.end <= |sv|
    requires Candidates(p, pt, t.to) != 0 && PopCount(Candidates(p, pt, t.to)) != 1
    requires ApplyHints(Candidates(p, pt, t.to), HintsLoop(sv, 1, t.end, Hints(None, None))) == Some(filtered)
    requires HasKing(p, p.stm) && r == SelectSource(pt, Pinned(p), KingSquare(p, p.stm), t.to, filtered)
    ensures r == ReadSource(p, sv, pt, t)
  {
  }

  /** Several candidates but no king to compute the pins from. */
  lemma ReadSourceNoKing(p: State, sv: string, pt: PieceType, t: MoveText)
    requires KNIGHT <= pt <= QUEEN && t.to < 64 && t.end <= |sv|
    requires Candidates(p, pt, t.to) != 0 && PopCount(Candidates(p, pt, t.to)) != 1
    requires ApplyHints(Candidates(p, pt, t.to), HintsLoop(sv, 1, t.end, Hints(None, None))).Some?
    requires !HasKing(p, p.stm)
    ensures ReadSource(p, sv, pt, t) == None
  {
  }
}
