// The piece-square index map of FeatureTransformer::init in
// src/training_data_loader.cpp, as functions: for each perspective `c` the
// tuples (king square, piece colour, piece type, piece square) are numbered
// from 0 in loop order, skipping the tuples init leaves out. `SlotIndex` is
// the number a tuple receives; the lemmas count the tuples (41916 per
// perspective) and show that the numbering is strictly increasing in loop
// order and onto [0, 41916).

module FeatureIndex {
  import opened Definitions

  const MAX_ACTIVE_FEATURES: int := 37
  const CASTLING_SIZE: int := 4
  const EN_PASSANT_SIZE: int := 8
  const MISC_SIZE: int := CASTLING_SIZE + EN_PASSANT_SIZE
  const PIECE_INPUT_SIZE: int := 41916
  const MISC_INPUT_SIZE: int := N_SQUARES * MISC_SIZE
  const NUM_FEATURES: int := PIECE_INPUT_SIZE + MISC_INPUT_SIZE

  /** ceilToMultiple(n, r): `(n + r - 1) / r * r`; for the non-negative values it is used
      on, C's truncating division and Dafny's agree. */
  function CeilToMultiple(n: nat, r: nat): int
    requires r > 0
  {
    (n + r - 1) / r * r
  }

  const PADDED_NUM_FEATURES: int := CeilToMultiple(NUM_FEATURES, 16)

  /** Rounding up: at least `n` and less than `r` above it. */
  lemma CeilToMultipleIsLeast(n: nat, r: nat)
    requires r > 0
    ensures n <= CeilToMultiple(n, r) < n + r
  {
    var q, m := (n + r - 1) / r, (n + r - 1) % r;
    assert n + r - 1 == q * r + m && 0 <= m < r;
  }

  /** The padded input width: 42684 features rounded up to 42688, a multiple of 16. */
  lemma PaddedSize()
    ensures NUM_FEATURES == 42684
    ensures PADDED_NUM_FEATURES == 42688 && PADDED_NUM_FEATURES % 16 == 0
  {}

  // ---------------------------------------------------------------------
  // The tuples init skips
  // ---------------------------------------------------------------------

  /** `(RANK_1_BB | RANK_8_BB).isSet(psq)`, in terms of the square number. */
  predicate BackRank(psq: Square) {
    psq < 8 || psq >= 56
  }

  /** The `continue` condition of init for perspective `c`. */
  predicate Skipped(c: Color, ksq: Square, c_: Color, pt: PieceType, psq: Square) {
    var pc := MakePiece(c_, pt);
    pc == MakePiece(c, KING) ||
    psq == ksq ||
    (pc == MakePiece(!c, KING) && Distance(psq, ksq) == 1) ||
    (pt == PAWN && BackRank(psq))
  }

  /** A square within one file and one rank of `ksq`, `ksq` itself included. */
  predicate Near(psq: Square, ksq: Square) {
    Abs(FileOf(psq) - FileOf(ksq)) <= 1 && Abs(RankOf(psq) - RankOf(ksq)) <= 1
  }

  /** The four kinds of skipped tuple: the perspective's own king, the king square, the
      enemy king next to the king, and a pawn on the first or last rank. */
  lemma SkippedCases(c: Color, ksq: Square, c_: Color, pt: PieceType, psq: Square)
    requires PAWN <= pt <= KING
    ensures Skipped(c, ksq, c_, pt, psq) ==
      ((c_ == c && pt == KING) ||
       psq == ksq ||
       (c_ != c && pt == KING && Near(psq, ksq)) ||
       (pt == PAWN && BackRank(psq)))
  {
    DistanceMetric(psq, ksq);
  }

  // ---------------------------------------------------------------------
  // Counting in loop order
  // ---------------------------------------------------------------------

  /** The number of piece squares below `n` that init numbers in block (ksq, c_, pt). */
  function PsqCount(c: Color, ksq: Square, c_: Color, pt: PieceType, n: nat): nat
    requires n <= 64
  {
    if n == 0 then 0
    else PsqCount(c, ksq, c_, pt, n - 1) + (if Skipped(c, ksq, c_, pt, n - 1) then 0 else 1)
  }

  /** The tuples numbered for colour `c_` over the first `k` piece types PAWN.. */
  function TypeCount(c: Color, ksq: Square, c_: Color, k: nat): nat
    requires k <= 6
  {
    if k == 0 then 0 else TypeCount(c, ksq, c_, k - 1) + PsqCount(c, ksq, c_, k, 64)
  }

  /** The colour loop `{WHITE, BLACK}`: 0 for WHITE, 1 for BLACK. */
  function Side(c: Color): nat {
    if c then 1 else 0
  }

  /** The tuples numbered for king square `ksq` over the first `j` piece colours. */
  function ColorCount(c: Color, ksq: Square, j: nat): nat
    requires j <= 2
  {
    if j == 0 then 0
    else if j == 1 then TypeCount(c, ksq, WHITE, 6)
    else TypeCount(c, ksq, WHITE, 6) + TypeCount(c, ksq, BLACK, 6)
  }

  /** The tuples numbered for the king squares below `n`. */
  function KsqCount(c: Color, n: nat): nat
    requires n <= 64
  {
    if n == 0 then 0 else KsqCount(c, n - 1) + ColorCount(c, n - 1, 2)
  }

  /** The value of `idx` when init starts block (ksq, c_, pt). */
  function BlockStart(c: Color, ksq: Square, c_: Color, pt: PieceType): nat
    requires PAWN <= pt <= KING
  {
    KsqCount(c, ksq) + ColorCount(c, ksq, Side(c_)) + TypeCount(c, ksq, c_, pt - 1)
  }

  /** The value of `idx` when init reaches the tuple: the number it stores there. */
  function SlotIndex(c: Color, ksq: Square, c_: Color, pt: PieceType, psq: Square): nat
    requires PAWN <= pt <= KING
  {
    BlockStart(c, ksq, c_, pt) + PsqCount(c, ksq, c_, pt, psq)
  }

  /** color::make and pieceType::make on the codes of the table, `pc < 16`, written
      without the shift and the mask. */
  function CellColor(pc: Piece): Color {
    pc >= 8
  }

  function CellType(pc: Piece): PieceType {
    if pc >= 8 then pc - 8 else pc
  }

  lemma CellDecode(pc: Piece)
    requires pc < 16
    ensures ColorOf(pc) == CellColor(pc) && TypeOf(pc) == CellType(pc)
    ensures IsPiece(pc) ==> pc == MakePiece(CellColor(pc), CellType(pc))
  {}

  /** The table codes of colour `c_` and type `pt` are exactly `make(c_, pt)`. */
  lemma CellCodes(c_: Color, pt: PieceType)
    requires PAWN <= pt <= KING
    ensures forall k :: 0 <= k < 16 ==> (CellColor(k) == c_ && CellType(k) == pt <==> k == MakePiece(c_, pt))
  {
    U8Fits((if c_ then 8 else 0) + pt);
  }

  /** The cell of `make(c_, pt)` at `psq` is written unless the tuple is skipped, with the
      number SlotIndex gives it. */
  lemma PieceCell(c: Color, ksq: Square, c_: Color, pt: PieceType, psq: Square)
    requires PAWN <= pt <= KING
    ensures var pc := MakePiece(c_, pt);
            (Assigned(c, ksq, pc, psq) <==> !Skipped(c, ksq, c_, pt, psq)) &&
            (Assigned(c, ksq, pc, psq) ==> TableValue(c, ksq, pc, psq) == SlotIndex(c, ksq, c_, pt, psq))
  {
    U8Fits((if c_ then 8 else 0) + pt);
  }

  /** A table cell init writes: the code of a piece whose tuple is not skipped. */
  predicate Assigned(c: Color, ksq: Square, pc: Piece, psq: Square) {
    IsPiece(pc) && !Skipped(c, ksq, CellColor(pc), CellType(pc), psq)
  }

  /** The table after init, starting from static (zero) storage. */
  function TableValue(c: Color, ksq: Square, pc: Piece, psq: Square): nat {
    if Assigned(c, ksq, pc, psq) then SlotIndex(c, ksq, CellColor(pc), CellType(pc), psq) else 0
  }

  // ---------------------------------------------------------------------
  // The number of tuples
  // ---------------------------------------------------------------------

  /** The squares within one step of coordinate `x` along a file or rank (0..7). */
  function Reach(x: int): nat {
    if x == 0 || x == 7 then 2 else 3
  }

  /** Coordinates `f < n` within one step of `x`. */
  function LineNear(x: int, n: nat): nat {
    if n == 0 then 0 else LineNear(x, n - 1) + (if Abs(n - 1 - x) <= 1 then 1 else 0)
  }

  lemma {:induction false} LineNearSpan(x: int, n: nat)
    requires 0 <= x < 8 && n <= 8
    ensures LineNear(x, n) == Clip(Min(n, x + 2) - Max(0, x - 1))
  {
    if n > 0 {
      LineNearSpan(x, n - 1);
    }
  }

  function Min(a: int, b: int): int {
    if a < b then a else b
  }

  function Max(a: int, b: int): int {
    if a < b then b else a
  }

  function Clip(a: int): nat {
    if a < 0 then 0 else a
  }

  lemma LineNearAll(x: int)
    requires 0 <= x < 8
    ensures LineNear(x, 8) == Reach(x)
  {
    LineNearSpan(x, 8);
  }

  /** The squares below `n` near `ksq`. */
  function NearCount(ksq: Square, n: nat): nat
    requires n <= 64
  {
    if n == 0 then 0 else NearCount(ksq, n - 1) + (if Near(n - 1, ksq) then 1 else 0)
  }

  lemma SquareParts(r: nat, f: nat)
    requires r < 8 && f < 8
    ensures 8 * r + f < 64 && FileOf(8 * r + f) == f && RankOf(8 * r + f) == r
  {}

  /** Within rank `r` the near squares are the near files, when `r` is a near rank. */
  lemma {:induction false} NearCountInRank(ksq: Square, r: nat, f: nat)
    requires r < 8 && f <= 8
    ensures NearCount(ksq, 8 * r + f) ==
      NearCount(ksq, 8 * r) + (if Abs(r - RankOf(ksq)) <= 1 then LineNear(FileOf(ksq), f) else 0)
  {
    if f > 0 {
      NearCountInRank(ksq, r, f - 1);
      SquareParts(r, f - 1);
    }
  }

  lemma {:induction false} NearCountByRanks(ksq: Square, r: nat)
    requires r <= 8
    ensures NearCount(ksq, 8 * r) == LineNear(RankOf(ksq), r) * Reach(FileOf(ksq))
  {
    if r > 0 {
      var x, y := RankOf(ksq), Reach(FileOf(ksq));
      NearCountByRanks(ksq, r - 1);
      NearCountInRank(ksq, r - 1, 8);
      LineNearAll(FileOf(ksq));
      assert 8 * (r - 1) + 8 == 8 * r;
      var a, d := LineNear(x, r - 1), if Abs(r - 1 - x) <= 1 then 1 else 0;
      assert LineNear(x, r) == a + d;
      assert (a + d) * y == a * y + d * y;
    }
  }

  lemma NearCountAll(ksq: Square)
    ensures NearCount(ksq, 64) == Reach(FileOf(ksq)) * Reach(RankOf(ksq))
  {
    var f, r := FileOf(ksq), RankOf(ksq);
    NearCountByRanks(ksq, 8);
    LineNearAll(r);
    assert NearCount(ksq, 64) == Reach(r) * Reach(f);
  }

  /** The perspective's own king: every square skipped. */
  lemma {:induction false} OwnKingBlock(c: Color, ksq: Square, n: nat)
    requires n <= 64
    ensures PsqCount(c, ksq, c, KING, n) == 0
  {
    if n > 0 {
      OwnKingBlock(c, ksq, n - 1);
      SkippedCases(c, ksq, c, KING, n - 1);
    }
  }

  /** The enemy king: every square but the king square's neighbourhood. */
  lemma {:induction false} EnemyKingBlock(c: Color, ksq: Square, n: nat)
    requires n <= 64
    ensures PsqCount(c, ksq, !c, KING, n) == n - NearCount(ksq, n)
  {
    if n > 0 {
      EnemyKingBlock(c, ksq, n - 1);
      SkippedCases(c, ksq, !c, KING, n - 1);
      assert Near(ksq, ksq);
    }
  }

  /** The squares of ranks 2..7 below `n`. */
  function MiddleBelow(n: int): int {
    if n <= 8 then 0 else if n <= 56 then n - 8 else 48
  }

  /** Pawns: the squares of ranks 2..7 except the king square. */
  lemma {:induction false} PawnBlock(c: Color, ksq: Square, c_: Color, n: nat)
    requires n <= 64
    ensures PsqCount(c, ksq, c_, PAWN, n) ==
      MiddleBelow(n) - (if ksq < n && !BackRank(ksq) then 1 else 0)
  {
    if n > 0 {
      PawnBlock(c, ksq, c_, n - 1);
      SkippedCases(c, ksq, c_, PAWN, n - 1);
    }
  }

  /** Knights, bishops, rooks and queens: every square but the king square. */
  lemma {:induction false} PieceBlock(c: Color, ksq: Square, c_: Color, pt: PieceType, n: nat)
    requires KNIGHT <= pt <= QUEEN && n <= 64
    ensures PsqCount(c, ksq, c_, pt, n) == n - (if ksq < n then 1 else 0)
  {
    if n > 0 {
      PieceBlock(c, ksq, c_, pt, n - 1);
      SkippedCases(c, ksq, c_, pt, n - 1);
    }
  }

  /** TypeCount over all six piece types, block by block. */
  lemma TypeCountSum(c: Color, ksq: Square, c_: Color)
    ensures TypeCount(c, ksq, c_, 6) ==
      PsqCount(c, ksq, c_, PAWN, 64) + PsqCount(c, ksq, c_, KNIGHT, 64) +
      PsqCount(c, ksq, c_, BISHOP, 64) + PsqCount(c, ksq, c_, ROOK, 64) +
      PsqCount(c, ksq, c_, QUEEN, 64) + PsqCount(c, ksq, c_, KING, 64)
  {
    assert TypeCount(c, ksq, c_, 1) == PsqCount(c, ksq, c_, PAWN, 64);
    assert TypeCount(c, ksq, c_, 2) == TypeCount(c, ksq, c_, 1) + PsqCount(c, ksq, c_, KNIGHT, 64);
    assert TypeCount(c, ksq, c_, 3) == TypeCount(c, ksq, c_, 2) + PsqCount(c, ksq, c_, BISHOP, 64);
    assert TypeCount(c, ksq, c_, 4) == TypeCount(c, ksq, c_, 3) + PsqCount(c, ksq, c_, ROOK, 64);
    assert TypeCount(c, ksq, c_, 5) == TypeCount(c, ksq, c_, 4) + PsqCount(c, ksq, c_, QUEEN, 64);
    assert TypeCount(c, ksq, c_, 6) == TypeCount(c, ksq, c_, 5) + PsqCount(c, ksq, c_, KING, 64);
  }

  /** All six blocks of one colour for king square `ksq`. */
  lemma ColorBlocks(c: Color, ksq: Square, c_: Color)
    ensures TypeCount(c, ksq, c_, 6) ==
      (if BackRank(ksq) then 48 else 47) + 4 * 63 +
      (if c_ == c then 0 else 64 - Reach(FileOf(ksq)) * Reach(RankOf(ksq)))
  {
    TypeCountSum(c, ksq, c_);
    PawnBlock(c, ksq, c_, 64);
    PieceBlock(c, ksq, c_, KNIGHT, 64);
    PieceBlock(c, ksq, c_, BISHOP, 64);
    PieceBlock(c, ksq, c_, ROOK, 64);
    PieceBlock(c, ksq, c_, QUEEN, 64);
    if c_ == c {
      OwnKingBlock(c, ksq, 64);
    } else {
      EnemyKingBlock(c, ksq, 64);
      NearCountAll(ksq);
    }
  }

  /** The tuples numbered for one king square. */
  function KingTotal(ksq: Square): int {
    664 - (if BackRank(ksq) then 0 else 2) - Reach(FileOf(ksq)) * Reach(RankOf(ksq))
  }

  lemma KingBlocks(c: Color, ksq: Square)
    ensures ColorCount(c, ksq, 2) == KingTotal(ksq)
  {
    ColorBlocks(c, ksq, WHITE);
    ColorBlocks(c, ksq, BLACK);
  }

  /** Reach summed over the coordinates below `f`. */
  function FileReach(f: nat): nat {
    if f == 0 then 0 else FileReach(f - 1) + Reach(f - 1)
  }

  /** KingTotal summed over the squares below `n`. */
  function SquaresTotal(n: nat): int
    requires n <= 64
  {
    if n == 0 then 0 else SquaresTotal(n - 1) + KingTotal(n - 1)
  }

  /** Each king square adds its KingTotal to KsqCount. */
  lemma {:induction false} KsqCountTotal(c: Color, n: nat)
    requires n <= 64
    ensures KsqCount(c, n) == SquaresTotal(n)
  {
    if n > 0 {
      KsqCountTotal(c, n - 1);
      KingBlocks(c, n - 1);
    }
  }

  /** The files below `f` of rank `r` add 664 (back ranks) or 662 tuples each, less the
      Reach of the file times the Reach of the rank. */
  lemma {:induction false} RankKingTotals(r: nat, f: nat)
    requires r < 8 && f <= 8
    ensures SquaresTotal(8 * r + f) == SquaresTotal(8 * r) +
      if r == 0 || r == 7 then 664 * f - 2 * FileReach(f) else 662 * f - 3 * FileReach(f)
  {
    if f > 0 {
      var k := 8 * r + (f - 1);
      RankKingTotals(r, f - 1);
      SquareParts(r, f - 1);
      assert SquaresTotal(k + 1) == SquaresTotal(k) + KingTotal(k);
      if r == 0 || r == 7 {
        assert KingTotal(k) == 664 - 2 * Reach(f - 1);
      } else {
        assert KingTotal(k) == 662 - 3 * Reach(f - 1);
      }
    }
  }

  lemma {:induction false} SquaresByRanks(r: nat)
    requires r <= 8
    ensures SquaresTotal(8 * r) ==
      5312 * r - 16 * MiddleRanks(r) - 22 * FileReach(r)
  {
    if r > 0 {
      var q := r - 1;
      SquaresByRanks(q);
      RankKingTotals(q, 8);
      assert FileReach(8) == 22;
      assert 8 * q + 8 == 8 * r;
      assert FileReach(r) == FileReach(q) + Reach(q);
      assert MiddleRanks(r) == MiddleRanks(q) + (if q == 0 || q == 7 then 0 else 1);
    }
  }

  /** The ranks 2..7 below rank `r`. */
  function MiddleRanks(r: nat): nat {
    if r <= 1 then 0 else if r <= 7 then r - 1 else 6
  }

  /** init's `assert(idx == PIECE_INPUT_SIZE)`: 41916 tuples per perspective. */
  lemma TotalSlots(c: Color)
    ensures KsqCount(c, 64) == PIECE_INPUT_SIZE
  {
    KsqCountByRanks(c, 8);
    assert FileReach(8) == 22;
  }

  /** KsqCount over the first `r` ranks of king squares. */
  lemma KsqCountByRanks(c: Color, r: nat)
    requires r <= 8
    ensures KsqCount(c, 8 * r) == 5312 * r - 16 * MiddleRanks(r) - 22 * FileReach(r)
  {
    KsqCountTotal(c, 8 * r);
    SquaresByRanks(r);
  }

  // ---------------------------------------------------------------------
  // Order, range and coverage of the numbering
  // ---------------------------------------------------------------------

  lemma {:induction false} PsqCountMonotone(c: Color, ksq: Square, c_: Color, pt: PieceType, a: nat, b: nat)
    requires a <= b <= 64
    ensures PsqCount(c, ksq, c_, pt, a) <= PsqCount(c, ksq, c_, pt, b)
  {
    if a < b {
      PsqCountMonotone(c, ksq, c_, pt, a, b - 1);
    }
  }

  lemma {:induction false} TypeCountMonotone(c: Color, ksq: Square, c_: Color, a: nat, b: nat)
    requires a <= b <= 6
    ensures TypeCount(c, ksq, c_, a) <= TypeCount(c, ksq, c_, b)
  {
    if a < b {
      TypeCountMonotone(c, ksq, c_, a, b - 1);
    }
  }

  lemma {:induction false} KsqCountMonotone(c: Color, a: nat, b: nat)
    requires a <= b <= 64
    ensures KsqCount(c, a) <= KsqCount(c, b)
  {
    if a < b {
      KsqCountMonotone(c, a, b - 1);
    }
  }

  /** A numbered tuple lies in its block (ksq, c_, pt) of the numbering. */
  lemma SlotInBlock(c: Color, ksq: Square, c_: Color, pt: PieceType, psq: Square)
    requires PAWN <= pt <= KING && !Skipped(c, ksq, c_, pt, psq)
    ensures KsqCount(c, ksq) + ColorCount(c, ksq, Side(c_)) + TypeCount(c, ksq, c_, pt - 1) <=
            SlotIndex(c, ksq, c_, pt, psq) <
            KsqCount(c, ksq) + ColorCount(c, ksq, Side(c_)) + TypeCount(c, ksq, c_, pt)
  {
    PsqCountMonotone(c, ksq, c_, pt, psq + 1, 64);
  }

  /** ... and in the range of its king square. */
  lemma SlotInKing(c: Color, ksq: Square, c_: Color, pt: PieceType, psq: Square)
    requires PAWN <= pt <= KING && !Skipped(c, ksq, c_, pt, psq)
    ensures KsqCount(c, ksq) <= SlotIndex(c, ksq, c_, pt, psq) < KsqCount(c, ksq + 1)
  {
    SlotInBlock(c, ksq, c_, pt, psq);
    TypeCountMonotone(c, ksq, c_, pt, 6);
  }

  /** Every number init stores is below PIECE_INPUT_SIZE. */
  lemma SlotBound(c: Color, ksq: Square, c_: Color, pt: PieceType, psq: Square)
    requires PAWN <= pt <= KING && !Skipped(c, ksq, c_, pt, psq)
    ensures SlotIndex(c, ksq, c_, pt, psq) < PIECE_INPUT_SIZE
  {
    SlotInKing(c, ksq, c_, pt, psq);
    KsqCountMonotone(c, ksq + 1, 64);
    TotalSlots(c);
  }

  /** The loop order of init: king square, then colour (WHITE first), then type, then
      piece square. */
  predicate Earlier(ksq1: Square, c1: Color, pt1: PieceType, psq1: Square,
                    ksq2: Square, c2: Color, pt2: PieceType, psq2: Square) {
    ksq1 < ksq2 ||
    (ksq1 == ksq2 &&
     (Side(c1) < Side(c2) ||
      (c1 == c2 && (pt1 < pt2 || (pt1 == pt2 && psq1 < psq2)))))
  }

  /** The numbers grow strictly in loop order: `idx++` for each tuple not skipped. */
  lemma SlotOrder(c: Color, ksq1: Square, c1: Color, pt1: PieceType, psq1: Square,
                  ksq2: Square, c2: Color, pt2: PieceType, psq2: Square)
    requires PAWN <= pt1 <= KING && !Skipped(c, ksq1, c1, pt1, psq1)
    requires PAWN <= pt2 <= KING && !Skipped(c, ksq2, c2, pt2, psq2)
    requires Earlier(ksq1, c1, pt1, psq1, ksq2, c2, pt2, psq2)
    ensures SlotIndex(c, ksq1, c1, pt1, psq1) < SlotIndex(c, ksq2, c2, pt2, psq2)
  {
    if ksq1 < ksq2 {
      OrderAcrossKings(c, ksq1, c1, pt1, psq1, ksq2, c2, pt2, psq2);
    } else if Side(c1) < Side(c2) {
      OrderAcrossColors(c, ksq1, pt1, psq1, pt2, psq2);
    } else if pt1 < pt2 {
      OrderAcrossTypes(c, ksq1, c1, pt1, psq1, pt2, psq2);
    } else {
      PsqCountMonotone(c, ksq1, c1, pt1, psq1 + 1, psq2);
    }
  }

  lemma OrderAcrossKings(c: Color, ksq1: Square, c1: Color, pt1: PieceType, psq1: Square,
                         ksq2: Square, c2: Color, pt2: PieceType, psq2: Square)
    requires PAWN <= pt1 <= KING && !Skipped(c, ksq1, c1, pt1, psq1)
    requires PAWN <= pt2 <= KING && ksq1 < ksq2
    ensures SlotIndex(c, ksq1, c1, pt1, psq1) < SlotIndex(c, ksq2, c2, pt2, psq2)
  {
    SlotInKing(c, ksq1, c1, pt1, psq1);
    KsqCountMonotone(c, ksq1 + 1, ksq2);
  }

  lemma OrderAcrossColors(c: Color, ksq: Square, pt1: PieceType, psq1: Square, pt2: PieceType, psq2: Square)
    requires PAWN <= pt1 <= KING && !Skipped(c, ksq, WHITE, pt1, psq1)
    requires PAWN <= pt2 <= KING
    ensures SlotIndex(c, ksq, WHITE, pt1, psq1) < SlotIndex(c, ksq, BLACK, pt2, psq2)
  {
    SlotInBlock(c, ksq, WHITE, pt1, psq1);
    TypeCountMonotone(c, ksq, WHITE, pt1, 6);
  }

  lemma OrderAcrossTypes(c: Color, ksq: Square, c_: Color, pt1: PieceType, psq1: Square, pt2: PieceType, psq2: Square)
    requires PAWN <= pt1 < pt2 <= KING && !Skipped(c, ksq, c_, pt1, psq1)
    ensures SlotIndex(c, ksq, c_, pt1, psq1) < SlotIndex(c, ksq, c_, pt2, psq2)
  {
    SlotInBlock(c, ksq, c_, pt1, psq1);
    TypeCountMonotone(c, ksq, c_, pt1, pt2 - 1);
  }

  /** No two tuples share a number. */
  lemma SlotInjective(c: Color, ksq1: Square, c1: Color, pt1: PieceType, psq1: Square,
                      ksq2: Square, c2: Color, pt2: PieceType, psq2: Square)
    requires PAWN <= pt1 <= KING && !Skipped(c, ksq1, c1, pt1, psq1)
    requires PAWN <= pt2 <= KING && !Skipped(c, ksq2, c2, pt2, psq2)
    requires SlotIndex(c, ksq1, c1, pt1, psq1) == SlotIndex(c, ksq2, c2, pt2, psq2)
    ensures ksq1 == ksq2 && c1 == c2 && pt1 == pt2 && psq1 == psq2
  {
    if Earlier(ksq1, c1, pt1, psq1, ksq2, c2, pt2, psq2) {
      SlotOrder(c, ksq1, c1, pt1, psq1, ksq2, c2, pt2, psq2);
    } else if Earlier(ksq2, c2, pt2, psq2, ksq1, c1, pt1, psq1) {
      SlotOrder(c, ksq2, c2, pt2, psq2, ksq1, c1, pt1, psq1);
    }
  }

  lemma {:induction false} LocateKsq(c: Color, v: nat, n: nat) returns (ksq: Square)
    requires n <= 64 && v < KsqCount(c, n)
    ensures ksq < n && KsqCount(c, ksq) <= v < KsqCount(c, ksq + 1)
  {
    if v >= KsqCount(c, n - 1) {
      ksq := n - 1;
    } else {
      ksq := LocateKsq(c, v, n - 1);
    }
  }

  lemma {:induction false} LocateType(c: Color, ksq: Square, c_: Color, v: nat, k: nat) returns (pt: PieceType)
    requires k <= 6 && v < TypeCount(c, ksq, c_, k)
    ensures PAWN <= pt <= k && TypeCount(c, ksq, c_, pt - 1) <= v < TypeCount(c, ksq, c_, pt)
  {
    if v >= TypeCount(c, ksq, c_, k - 1) {
      pt := k;
    } else {
      pt := LocateType(c, ksq, c_, v, k - 1);
    }
  }

  lemma {:induction false} LocatePsq(c: Color, ksq: Square, c_: Color, pt: PieceType, v: nat, n: nat)
    returns (psq: Square)
    requires n <= 64 && v < PsqCount(c, ksq, c_, pt, n)
    ensures psq < n && !Skipped(c, ksq, c_, pt, psq) && PsqCount(c, ksq, c_, pt, psq) == v
  {
    if v >= PsqCount(c, ksq, c_, pt, n - 1) {
      psq := n - 1;
    } else {
      psq := LocatePsq(c, ksq, c_, pt, v, n - 1);
    }
  }

  /** Every number below PIECE_INPUT_SIZE is given to some tuple. */
  lemma SlotOnto(c: Color, v: nat) returns (ksq: Square, c_: Color, pt: PieceType, psq: Square)
    requires v < PIECE_INPUT_SIZE
    ensures PAWN <= pt <= KING && !Skipped(c, ksq, c_, pt, psq)
    ensures SlotIndex(c, ksq, c_, pt, psq) == v
  {
    TotalSlots(c);
    ksq := LocateKsq(c, v, 64);
    c_, pt, psq := LocateAtKing(c, ksq, v);
  }

  lemma LocateAtKing(c: Color, ksq: Square, v: nat) returns (c_: Color, pt: PieceType, psq: Square)
    requires KsqCount(c, ksq) <= v < KsqCount(c, ksq + 1)
    ensures PAWN <= pt <= KING && !Skipped(c, ksq, c_, pt, psq)
    ensures SlotIndex(c, ksq, c_, pt, psq) == v
  {
    c_, pt, psq := LocateInKing(c, ksq, v - KsqCount(c, ksq));
  }

  /** Within the range of one king square: the colour, then the type, then the square. */
  lemma LocateInKing(c: Color, ksq: Square, w: nat) returns (c_: Color, pt: PieceType, psq: Square)
    requires w < ColorCount(c, ksq, 2)
    ensures PAWN <= pt <= KING && !Skipped(c, ksq, c_, pt, psq)
    ensures ColorCount(c, ksq, Side(c_)) + TypeCount(c, ksq, c_, pt - 1) + PsqCount(c, ksq, c_, pt, psq) == w
  {
    c_ := w >= ColorCount(c, ksq, 1);
    var w2 := w - ColorCount(c, ksq, Side(c_));
    pt := LocateType(c, ksq, c_, w2, 6);
    psq := LocatePsq(c, ksq, c_, pt, w2 - TypeCount(c, ksq, c_, pt - 1), 64);
  }
}
