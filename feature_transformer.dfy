// Namespace FeatureTransformer of src/training_data_loader.cpp: the lookup
// table `pieceIndices`, the loops of `init` that fill it (one method per loop
// level, each stating which cells it writes, exactly the tuples init does not
// skip with the number module FeatureIndex gives them, and that every other
// cell keeps its value), and fillFeatures, which reads the table for one
// position and appends its sorted feature list to a sparse batch.

module FeatureTransformer {
  import opened Definitions
  import opened Bits
  import opened Bitboards
  import opened PgnPosition
  import opened FeatureIndex
  import opened Sorting
  import opened FeatureLists

  /** `(RANK_1_BB | RANK_8_BB).isSet(psq)` holds exactly on the first and last ranks. */
  lemma BackRankMask(psq: Square)
    ensures IsSet(Union(RankBB(0), RankBB(7)), psq) == BackRank(psq)
  {
    UnionSquares(RankBB(0), RankBB(7), psq);
    RankSquares(0, psq);
    RankSquares(7, psq);
  }

  /** `uint16_t pieceIndices[N_COLORS][N_SQUARES][N_PIECES][N_SQUARES]`, indexed by the
      perspective as 0 or 1. */
  class FeatureTable {
    const pieceIndices: array4<int>

    predicate Shaped() {
      pieceIndices.Length0 == 2 && pieceIndices.Length1 == 64 &&
      pieceIndices.Length2 == 15 && pieceIndices.Length3 == 64
    }

    /** Every cell holds what init stores there, and 0 (static storage) where it stores
        nothing. */
    predicate Initialized()
      reads pieceIndices
    {
      Shaped() &&
      forall i, j, k, l :: 0 <= i < 2 && 0 <= j < 64 && 0 <= k < 15 && 0 <= l < 64 ==>
        pieceIndices[i, j, k, l] == TableValue(i == 1, j, k, l)
    }

    /** The zero-initialised global table, then `init()`. */
    constructor()
      ensures Initialized() && fresh(pieceIndices)
    {
      pieceIndices := new int[2, 64, 15, 64]((_, _, _, _) => 0);
      new;
      Init();
    }

    /** init(): both perspectives. */
    method Init()
      requires Shaped()
      modifies pieceIndices
      ensures forall i, j, k, l :: 0 <= i < 2 && 0 <= j < 64 && 0 <= k < 15 && 0 <= l < 64 ==>
        pieceIndices[i, j, k, l] ==
          if Assigned(i == 1, j, k, l) then TableValue(i == 1, j, k, l)
          else old(pieceIndices[i, j, k, l])
    {
      for side := 0 to 2
        invariant forall i, j, k, l :: 0 <= i < 2 && 0 <= j < 64 && 0 <= k < 15 && 0 <= l < 64 ==>
          pieceIndices[i, j, k, l] ==
            if i < side && Assigned(i == 1, j, k, l) then TableValue(i == 1, j, k, l)
            else old(pieceIndices[i, j, k, l])
      {
        FillPerspective(side == 1);
      }
    }

    /** The body of the colour loop: `idx = 0`, the king-square loop, and the final assert. */
    method FillPerspective(c: Color)
      requires Shaped()
      modifies pieceIndices
      ensures forall i, j, k, l :: 0 <= i < 2 && 0 <= j < 64 && 0 <= k < 15 && 0 <= l < 64 ==>
        pieceIndices[i, j, k, l] ==
          if i == Side(c) && Assigned(c, j, k, l) then TableValue(c, j, k, l)
          else old(pieceIndices[i, j, k, l])
    {
      var idx := 0;
      for ksq := 0 to 64
        invariant idx == KsqCount(c, ksq)
        invariant forall i, j, k, l :: 0 <= i < 2 && 0 <= j < 64 && 0 <= k < 15 && 0 <= l < 64 ==>
          pieceIndices[i, j, k, l] ==
            if i == Side(c) && j < ksq && Assigned(c, j, k, l) then TableValue(c, j, k, l)
            else old(pieceIndices[i, j, k, l])
      {
        idx := FillKing(c, ksq, idx);
      }
      assert idx == PIECE_INPUT_SIZE by {
        TotalSlots(c);
      }
    }

    /** The body of the king-square loop: the colour loop `{WHITE, BLACK}`. */
    method FillKing(c: Color, ksq: Square, idx0: nat) returns (idx: nat)
      requires Shaped() && idx0 == KsqCount(c, ksq)
      modifies pieceIndices
      ensures idx == KsqCount(c, ksq + 1)
      ensures forall i, j, k, l :: 0 <= i < 2 && 0 <= j < 64 && 0 <= k < 15 && 0 <= l < 64 ==>
        pieceIndices[i, j, k, l] ==
          if i == Side(c) && j == ksq && Assigned(c, ksq, k, l) then TableValue(c, ksq, k, l)
          else old(pieceIndices[i, j, k, l])
    {
      idx := idx0;
      for side := 0 to 2
        invariant idx == KsqCount(c, ksq) + ColorCount(c, ksq, side)
        invariant forall i, j, k, l :: 0 <= i < 2 && 0 <= j < 64 && 0 <= k < 15 && 0 <= l < 64 ==>
          pieceIndices[i, j, k, l] ==
            if i == Side(c) && j == ksq && Side(CellColor(k)) < side && Assigned(c, ksq, k, l)
            then TableValue(c, ksq, k, l)
            else old(pieceIndices[i, j, k, l])
      {
        idx := FillColor(c, ksq, side == 1, idx);
      }
    }

    /** The cells `pieceIndices[i][j][..][..]` as a value. */
    ghost function Row(i: nat, j: nat): (r: seq<seq<int>>)
      requires Shaped() && i < 2 && j < 64
      reads pieceIndices
      ensures |r| == 15 && forall k :: 0 <= k < 15 ==> |r[k]| == 64
      ensures forall k, l :: 0 <= k < 15 && 0 <= l < 64 ==> r[k][l] == pieceIndices[i, j, k, l]
    {
      seq(15, k reads pieceIndices requires 0 <= k < 15 =>
        seq(64, l reads pieceIndices requires 0 <= l < 64 => pieceIndices[i, j, k, l]))
    }

    /** The piece-type loop PAWN..KING for one colour: the codes `8 * Side(c_) + pt`. */
    method FillColor(c: Color, ksq: Square, c_: Color, idx0: nat) returns (idx: nat)
      requires Shaped() && idx0 == KsqCount(c, ksq) + ColorCount(c, ksq, Side(c_))
      modifies pieceIndices
      ensures idx == idx0 + TypeCount(c, ksq, c_, 6)
      ensures forall i, j, k, l :: 0 <= i < 2 && 0 <= j < 64 && 0 <= k < 15 && 0 <= l < 64 ==>
        pieceIndices[i, j, k, l] ==
          if i == Side(c) && j == ksq && CellColor(k) == c_ && Assigned(c, ksq, k, l)
          then TableValue(c, ksq, k, l)
          else old(pieceIndices[i, j, k, l])
    {
      ghost var row := Row(Side(c), ksq);
      idx := idx0;
      for pt := PAWN to N_PIECE_TYPES
        invariant idx == idx0 + TypeCount(c, ksq, c_, pt - 1)
        invariant forall i, j, k, l ::
          0 <= i < 2 && 0 <= j < 64 && 0 <= k < 15 && 0 <= l < 64 && (i != Side(c) || j != ksq) ==>
          pieceIndices[i, j, k, l] == old(pieceIndices[i, j, k, l])
        invariant ColorFilled(c, ksq, c_, pt, row)
      {
        idx := FillType(c, ksq, c_, pt, idx0, idx, row);
      }
      forall i, j, k, l | 0 <= i < 2 && 0 <= j < 64 && 0 <= k < 15 && 0 <= l < 64
        ensures pieceIndices[i, j, k, l] ==
          if i == Side(c) && j == ksq && CellColor(k) == c_ && Assigned(c, ksq, k, l)
          then TableValue(c, ksq, k, l)
          else old(pieceIndices[i, j, k, l])
      {
        if i == Side(c) && j == ksq {
          assert Assigned(c, ksq, k, l) ==> CellType(k) < N_PIECE_TYPES;
        }
      }
    }

    /** The row of king square `ksq` once the piece types of colour `c_` below `pt` are
        written: their assigned cells hold TableValue, every other cell its value in `row`. */
    ghost predicate ColorFilled(c: Color, ksq: Square, c_: Color, pt: int, row: seq<seq<int>>)
      requires Shaped()
      reads pieceIndices
    {
      |row| == 15 && (forall k :: 0 <= k < 15 ==> |row[k]| == 64) &&
      forall k, l :: 0 <= k < 15 && 0 <= l < 64 ==>
        pieceIndices[Side(c), ksq, k, l] ==
          if CellColor(k) == c_ && CellType(k) < pt && Assigned(c, ksq, k, l)
          then TableValue(c, ksq, k, l)
          else row[k][l]
    }

    /** The body of the piece-type loop: the block of `pt` starts where the types before
        it end, ends where the types up to `pt` end, and fills the cells of `pt`. */
    method FillType(c: Color, ksq: Square, c_: Color, pt: PieceType, idx0: nat, idx1: nat,
                    ghost row: seq<seq<int>>) returns (idx: nat)
      requires Shaped() && PAWN <= pt <= KING && idx0 == KsqCount(c, ksq) + ColorCount(c, ksq, Side(c_))
      requires idx1 == idx0 + TypeCount(c, ksq, c_, pt - 1)
      requires ColorFilled(c, ksq, c_, pt, row)
      modifies pieceIndices
      ensures idx == idx0 + TypeCount(c, ksq, c_, pt)
      ensures ColorFilled(c, ksq, c_, pt + 1, row)
      ensures forall i, j, k, l ::
        0 <= i < 2 && 0 <= j < 64 && 0 <= k < 15 && 0 <= l < 64 && (i != Side(c) || j != ksq) ==>
        pieceIndices[i, j, k, l] == old(pieceIndices[i, j, k, l])
    {
      assert idx1 == BlockStart(c, ksq, c_, pt);
      idx := FillBlock(c, ksq, c_, pt, idx1);
      forall k, l | 0 <= k < 15 && 0 <= l < 64
        ensures pieceIndices[Side(c), ksq, k, l] ==
          if CellColor(k) == c_ && CellType(k) < pt + 1 && Assigned(c, ksq, k, l)
          then TableValue(c, ksq, k, l)
          else row[k][l]
      {
        assert old(pieceIndices[Side(c), ksq, k, l]) ==
          if CellColor(k) == c_ && CellType(k) < pt && Assigned(c, ksq, k, l)
          then TableValue(c, ksq, k, l)
          else row[k][l];
      }
    }

    /** The piece-square loop for one (ksq, c_, pt): the `continue` test and `idx++`. */
    method FillBlock(c: Color, ksq: Square, c_: Color, pt: PieceType, idx0: nat) returns (idx: nat)
      requires Shaped() && PAWN <= pt <= KING && idx0 == BlockStart(c, ksq, c_, pt)
      modifies pieceIndices
      ensures idx == idx0 + PsqCount(c, ksq, c_, pt, 64)
      ensures forall i, j, k, l :: 0 <= i < 2 && 0 <= j < 64 && 0 <= k < 15 && 0 <= l < 64 ==>
        pieceIndices[i, j, k, l] ==
          if i == Side(c) && j == ksq && CellColor(k) == c_ && CellType(k) == pt && Assigned(c, ksq, k, l)
          then TableValue(c, ksq, k, l)
          else old(pieceIndices[i, j, k, l])
    {
      idx := idx0;
      var pc := MakePiece(c_, pt);
      CellCodes(c_, pt);
      for psq := 0 to 64
        invariant idx == idx0 + PsqCount(c, ksq, c_, pt, psq)
        invariant forall i, j, k, l :: 0 <= i < 2 && 0 <= j < 64 && 0 <= k < 15 && 0 <= l < 64 ==>
          pieceIndices[i, j, k, l] ==
            if i == Side(c) && j == ksq && k == pc && l < psq && Assigned(c, ksq, k, l)
            then TableValue(c, ksq, k, l)
            else old(pieceIndices[i, j, k, l])
      {
        var skip := SkipTest(c, ksq, c_, pt, psq);
        PieceCell(c, ksq, c_, pt, psq);
        label before:
        // `if (skip) continue;`
        if !skip {
          pieceIndices[Side(c), ksq, pc, psq] := idx;
          idx := idx + 1;
        }
        forall i, j, k, l | 0 <= i < 2 && 0 <= j < 64 && 0 <= k < 15 && 0 <= l < 64
          ensures pieceIndices[i, j, k, l] ==
            if i == Side(c) && j == ksq && k == pc && l < psq + 1 && Assigned(c, ksq, k, l)
            then TableValue(c, ksq, k, l)
            else old(pieceIndices[i, j, k, l])
        {
          assert old@before(pieceIndices[i, j, k, l]) ==
            if i == Side(c) && j == ksq && k == pc && l < psq && Assigned(c, ksq, k, l)
            then TableValue(c, ksq, k, l)
            else old(pieceIndices[i, j, k, l]);
        }
      }
    }

    /** fillFeatures(i, e, c, featureIndices, featureValues, numActiveFeatures) on the
        position `p`, with `n0` for numActiveFeatures: the sorted feature list of perspective
        `c` is appended as the pairs `(i, index)` at slots `2n, 2n+1` and the values 1 at
        slot `n`. `ok` is false where the source is undefined (no king of colour `c`, or more
        than MAX_ACTIVE_FEATURES indices for `active`); nothing is written then. */
    method FillFeatures(i: nat, p: State, c: Color, featureIndices: array<nat>,
                        featureValues: array<real>, n0: nat) returns (ok: bool, n: nat)
      requires Initialized()
      requires 2 * (n0 + MAX_ACTIVE_FEATURES) <= featureIndices.Length
      requires n0 + MAX_ACTIVE_FEATURES <= featureValues.Length
      modifies featureIndices, featureValues
      ensures ok == (HasKing(p, c) && |Collected(p, c)| <= MAX_ACTIVE_FEATURES)
      ensures !ok ==> n == n0 && unchanged(featureIndices) && unchanged(featureValues)
      ensures ok ==> n == n0 + |ActiveFeatures(p, c)|
      ensures ok ==> forall k :: 2 * n0 <= k < 2 * n ==>
        featureIndices[k] == if k % 2 == 0 then i else ActiveFeatures(p, c)[k / 2 - n0]
      ensures forall k :: n0 <= k < n ==> featureValues[k] == 1.0
      ensures forall k :: 0 <= k < featureIndices.Length && !(2 * n0 <= k < 2 * n) ==>
        featureIndices[k] == old(featureIndices[k])
      ensures forall k :: 0 <= k < featureValues.Length && !(n0 <= k < n) ==>
        featureValues[k] == old(featureValues[k])
    {
      var active := new nat[MAX_ACTIVE_FEATURES];
      var size: nat;
      ok, size := Collect(p, c, active);
      if !ok {
        return false, n0;
      }
      SortPrefix(active, size);
      n := WriteFeatures(i, active[..size], featureIndices, featureValues, n0);
    }

    /** The part of fillFeatures before the sort: the king square of `c`, then the list
        `active[..size]` in the order the source collects it. */
    method Collect(p: State, c: Color, active: array<nat>) returns (ok: bool, size: nat)
      requires Initialized() && active.Length == MAX_ACTIVE_FEATURES
      modifies active
      ensures ok == (HasKing(p, c) && |Collected(p, c)| <= MAX_ACTIVE_FEATURES)
      ensures ok ==> (size <= active.Length && active[..size] == Collected(p, c))
    {
      var kings := Pieces(p, c, KING);
      if kings == 0 {
        return false, 0;
      }
      var ksq := LSB(kings);
      ok, size := CollectPieces(p, c, ksq, active);
      if !ok {
        return;
      }
      ok, size := CollectMisc(p, ksq, active, size);
    }

    /** `pieceIndices[c][ksq][pc][psq]` of an initialised table. */
    function Lookup(c: Color, ksq: Square, pc: Piece, psq: Square): (v: nat)
      requires Initialized() && pc < 15
      reads pieceIndices
      ensures v == TableValue(c, ksq, pc, psq)
    {
      pieceIndices[Side(c), ksq, pc, psq]
    }

    /** One turn of the popLSB loop: `active[size++] = pieceIndices[c][ksq][board[s]][s]`
        for the lowest square s, which is popped. */
    method PushSquare(p: State, c: Color, ksq: Square, occupied: U64, active: array<nat>, size: nat)
      returns (rest: U64)
      requires Initialized() && occupied != 0 && size < active.Length
      modifies active
      ensures rest == PopLowest(occupied)
      ensures active[..size + 1] ==
        old(active[..size]) + [TableValue(c, ksq, p.board[LSB(occupied)], LSB(occupied))]
    {
      var s := LSB(occupied);
      rest := PopLowest(occupied);
      CellOf(p, s);
      active[size] := Lookup(c, ksq, p.board[s], s);
    }

    /** The popLSB loop over `occupied & ~ksq`: the table entry of each square, into
        `active`. `ok` is false when they do not fit. */
    method CollectPieces(p: State, c: Color, ksq: Square, active: array<nat>) returns (ok: bool, size: nat)
      requires Initialized() && active.Length == MAX_ACTIVE_FEATURES
      modifies active
      ensures ok == (|PieceFeatures(p, c, ksq, Minus(p.occupied, Bit(ksq)))| <= MAX_ACTIVE_FEATURES)
      ensures ok ==> (size <= active.Length &&
        active[..size] == PieceFeatures(p, c, ksq, Minus(p.occupied, Bit(ksq))))
    {
      // `occupied` is a local Bitboard value; popLSB is LSB followed by `data &= data - 1`.
      var occupied := Minus(p.occupied, Bit(ksq));
      ghost var all := PieceFeatures(p, c, ksq, occupied);
      size := 0;
      while occupied != 0
        invariant size <= MAX_ACTIVE_FEATURES
        invariant active[..size] + PieceFeatures(p, c, ksq, occupied) == all
        decreases PopCount(occupied)
      {
        PopLowestSquares(occupied, 0);
        ghost var next := PieceFeatures(p, c, ksq, PopLowest(occupied));
        assert PieceFeatures(p, c, ksq, occupied) ==
          [TableValue(c, ksq, p.board[LSB(occupied)], LSB(occupied))] + next;
        if size == MAX_ACTIVE_FEATURES {
          return false, size;
        }
        occupied := PushSquare(p, c, ksq, occupied, active, size);
        size := size + 1;
        assert active[..size] + next == all;
      }
      assert active[..size] == all;
      return true, size;
    }
  }

  /** The `continue` test of init, with the two rank masks. */
  method SkipTest(c: Color, ksq: Square, c_: Color, pt: PieceType, psq: Square) returns (skip: bool)
    requires PAWN <= pt <= KING
    ensures skip == Skipped(c, ksq, c_, pt, psq)
  {
    BackRankMask(psq);
    var pc := MakePiece(c_, pt);
    skip := pc == MakePiece(c, KING) ||
            psq == ksq ||
            (pc == MakePiece(!c, KING) && Distance(psq, ksq) == 1) ||
            (pt == PAWN && IsSet(Union(RankBB(0), RankBB(7)), psq));
  }

  /** `if (cond) active[size++] = v;`: `ok` is false when `active` is full. */
  method PushIf(active: array<nat>, size0: nat, cond: bool, v: nat) returns (ok: bool, size: nat)
    requires size0 <= active.Length
    modifies active
    ensures ok == (size0 + (if cond then 1 else 0) <= active.Length)
    ensures ok ==> size == size0 + (if cond then 1 else 0)
    ensures ok ==> active[..size] == old(active[..size0]) + (if cond then [v] else [])
  {
    if !cond {
      return true, size0;
    }
    if size0 == active.Length {
      return false, size0;
    }
    active[size0] := v;
    return true, size0 + 1;
  }

  /** Two consecutive castling tests of fillFeatures, for the rights `flag1` and `flag2`,
      appending `v` and `v + 1`. */
  method PushCastlingPair(p: State, flag1: Byte, flag2: Byte, v: nat, active: array<nat>, size0: nat)
    returns (ok: bool, size: nat)
    requires size0 <= active.Length
    modifies active
    ensures ok == (size0 + |IfCastle(p, flag1, v) + IfCastle(p, flag2, v + 1)| <= active.Length)
    ensures ok ==> size == size0 + |IfCastle(p, flag1, v) + IfCastle(p, flag2, v + 1)|
    ensures ok ==> active[..size] == old(active[..size0]) + (IfCastle(p, flag1, v) + IfCastle(p, flag2, v + 1))
  {
    ghost var base := active[..size0];
    ok, size := PushIf(active, size0, CanCastle(p, flag1), v);
    if !ok {
      return;
    }
    ghost var mid := active[..size];
    ok, size := PushIf(active, size, CanCastle(p, flag2), v + 1);
    if ok {
      assert active[..size] == base + IfCastle(p, flag1, v) + IfCastle(p, flag2, v + 1);
    }
  }

  /** The castling part of fillFeatures, appended to `active[..size0]`. */
  method CollectCastling(p: State, ksq: Square, active: array<nat>, size0: nat) returns (ok: bool, size: nat)
    requires size0 <= active.Length
    modifies active
    ensures ok == (size0 + |CastlingFeatures(p, ksq)| <= active.Length)
    ensures ok ==> size == size0 + |CastlingFeatures(p, ksq)|
    ensures ok ==> active[..size] == old(active[..size0]) + CastlingFeatures(p, ksq)
  {
    if p.castling == 0 {
      return true, size0;
    }
    var offset := PIECE_INPUT_SIZE + ksq * MISC_SIZE;
    ghost var base := active[..size0];
    ghost var white := IfCastle(p, WHITE_QUEEN_SIDE, offset) + IfCastle(p, WHITE_KING_SIDE, offset + 1);
    ghost var black := IfCastle(p, BLACK_QUEEN_SIDE, offset + 2) + IfCastle(p, BLACK_KING_SIDE, offset + 3);
    CastlingHalves(p, ksq);
    ok, size := PushCastlingPair(p, WHITE_QUEEN_SIDE, WHITE_KING_SIDE, offset, active, size0);
    if !ok {
      return;
    }
    ghost var mid := active[..size];
    ok, size := PushCastlingPair(p, BLACK_QUEEN_SIDE, BLACK_KING_SIDE, offset + 2, active, size);
    if ok {
      assert active[..size] == base + white + black;
    }
  }

  lemma CastlingHalves(p: State, ksq: Square)
    requires p.castling != 0
    ensures var offset := PIECE_INPUT_SIZE + ksq * MISC_SIZE;
      CastlingFeatures(p, ksq) ==
      (IfCastle(p, WHITE_QUEEN_SIDE, offset) + IfCastle(p, WHITE_KING_SIDE, offset + 1)) +
      (IfCastle(p, BLACK_QUEEN_SIDE, offset + 2) + IfCastle(p, BLACK_KING_SIDE, offset + 2 + 1))
  {
  }

  /** The castling and en-passant part of fillFeatures, appended to `active[..size0]`. */
  method CollectMisc(p: State, ksq: Square, active: array<nat>, size0: nat) returns (ok: bool, size: nat)
    requires size0 <= active.Length
    modifies active
    ensures ok == (size0 + |MiscFeatures(p, ksq)| <= active.Length)
    ensures ok ==> size == size0 + |MiscFeatures(p, ksq)|
    ensures ok ==> active[..size] == old(active[..size0]) + MiscFeatures(p, ksq)
  {
    ok, size := CollectCastling(p, ksq, active, size0);
    if !ok {
      return;
    }
    ghost var mid := active[..size];
    ok, size := PushIf(active, size, p.ep != NO_SQUARE, PIECE_INPUT_SIZE + ksq * MISC_SIZE + CASTLING_SIZE + FileOf(p.ep));
  }

  /** `std::sort(active, active + size)`: the prefix is replaced by its ascending
      permutation (unique by Sorting.SortedUnique). */
  method SortPrefix(active: array<nat>, size: nat)
    requires size <= active.Length
    modifies active
    ensures active[..size] == Sort(old(active[..size]))
  {
    var sorted := Sort(active[..size]);
    forall k | 0 <= k < size {
      active[k] := sorted[k];
    }
  }

  /** The output loop of fillFeatures over the sorted list `active`: pair `(i, active[j])`
      at slots `2n, 2n+1` and value 1 at slot `n`, for `n` from `n0` on; every other slot
      keeps its value. */
  method WriteFeatures(i: nat, active: seq<nat>, featureIndices: array<nat>,
                       featureValues: array<real>, n0: nat) returns (n: nat)
    requires 2 * (n0 + |active|) <= featureIndices.Length && n0 + |active| <= featureValues.Length
    modifies featureIndices, featureValues
    ensures n == n0 + |active|
    ensures forall k :: 2 * n0 <= k < 2 * n ==>
      featureIndices[k] == if k % 2 == 0 then i else active[k / 2 - n0]
    ensures forall k :: n0 <= k < n ==> featureValues[k] == 1.0
    ensures forall k :: 0 <= k < featureIndices.Length && !(2 * n0 <= k < 2 * n) ==>
      featureIndices[k] == old(featureIndices[k])
    ensures forall k :: 0 <= k < featureValues.Length && !(n0 <= k < n) ==>
      featureValues[k] == old(featureValues[k])
  {
    n := n0;
    for j := 0 to |active|
      invariant n == n0 + j
      invariant forall k :: 2 * n0 <= k < 2 * n ==>
        featureIndices[k] == if k % 2 == 0 then i else active[k / 2 - n0]
      invariant forall k :: n0 <= k < n ==> featureValues[k] == 1.0
      invariant forall k :: 0 <= k < featureIndices.Length && !(2 * n0 <= k < 2 * n) ==>
        featureIndices[k] == old(featureIndices[k])
      invariant forall k :: 0 <= k < featureValues.Length && !(n0 <= k < n) ==>
        featureValues[k] == old(featureValues[k])
    {
      var idx := 2 * n;
      featureIndices[idx] := i;
      featureIndices[idx + 1] := active[j];
      featureValues[n] := 1.0;
      n := n + 1;
    }
  }
}
