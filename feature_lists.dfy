// The list of active features fillFeatures collects for one perspective `c`
// (src/training_data_loader.cpp:98-122), as functions of the position: one
// table entry per occupied square other than the king square, in popLSB
// order, then one index per castling right, then one for an en-passant
// square, sorted ascending. The lemmas bound every index by NUM_FEATURES,
// count the list, and show that it has no repeated index when every piece on
// the board has a table slot.

module FeatureLists {
  import opened Definitions
  import opened Bits
  import opened Bitboards
  import opened PgnPosition
  import opened FeatureIndex
  import opened Sorting

  // ---------------------------------------------------------------------
  // The squares of a bitboard in popLSB order
  // ---------------------------------------------------------------------

  /** The squares `while (b) b.popLSB()` visits. */
  function SquaresOf(b: U64): (r: seq<Square>)
    decreases PopCount(b)
  {
    if b == 0 then []
    else
      PopLowestSquares(b, 0);
      [LSB(b)] + SquaresOf(PopLowest(b))
  }

  /** popLSB visits every square of `b` once, in ascending order. */
  lemma {:induction false} SquaresOfOrder(b: U64)
    ensures |SquaresOf(b)| == PopCount(b)
    ensures forall s: Square :: s in SquaresOf(b) <==> IsSet(b, s)
    ensures forall i, j :: 0 <= i < j < |SquaresOf(b)| ==> SquaresOf(b)[i] < SquaresOf(b)[j]
    decreases PopCount(b)
  {
    if b == 0 {
      forall s: Square
        ensures !IsSet(b, s)
      {
        ZeroClear(s);
      }
    } else {
      var rest := SquaresOf(PopLowest(b));
      PopLowestSquares(b, 0);
      SquaresOfOrder(PopLowest(b));
      assert SquaresOf(b) == [LSB(b)] + rest;
      forall s: Square
        ensures (s in SquaresOf(b)) == IsSet(b, s)
        ensures s in rest ==> LSB(b) < s
      {
        PopLowestSquares(b, s);
        LSBIsLowest(b, s);
      }
      forall i, j | 0 <= i < j < |SquaresOf(b)|
        ensures SquaresOf(b)[i] < SquaresOf(b)[j]
      {
        assert SquaresOf(b)[j] == rest[j - 1] && rest[j - 1] in rest;
        if i > 0 {
          assert SquaresOf(b)[i] == rest[i - 1];
        }
      }
    }
  }

  // ---------------------------------------------------------------------
  // The feature list
  // ---------------------------------------------------------------------

  /** `pieceIndices[c][ksq][pos.piece(s)][s]` for the squares popLSB takes from `b`. */
  function PieceFeatures(p: State, c: Color, ksq: Square, b: U64): (r: seq<nat>)
    decreases PopCount(b)
  {
    if b == 0 then []
    else
      var s := LSB(b);
      PopLowestSquares(b, 0);
      [TableValue(c, ksq, p.board[s], s)] + PieceFeatures(p, c, ksq, PopLowest(b))
  }

  /** Entry `k` of the piece features belongs to the `k`-th square popLSB visits. */
  lemma {:induction false} PieceFeaturesAt(p: State, c: Color, ksq: Square, b: U64)
    ensures |PieceFeatures(p, c, ksq, b)| == |SquaresOf(b)|
    ensures forall k :: 0 <= k < |SquaresOf(b)| ==>
      PieceFeatures(p, c, ksq, b)[k] == TableValue(c, ksq, p.board[SquaresOf(b)[k]], SquaresOf(b)[k])
    decreases PopCount(b)
  {
    if b != 0 {
      PopLowestSquares(b, 0);
      PieceFeaturesAt(p, c, ksq, PopLowest(b));
    }
  }

  /** `PIECE_INPUT_SIZE + ksq * MISC_SIZE`: the first misc index of king square `ksq`. */
  function MiscOffset(ksq: Square): (r: nat) {
    PIECE_INPUT_SIZE + ksq * MISC_SIZE
  }

  /** `if (pos.canCastle(flag)) active[size++] = v;` */
  function IfCastle(p: State, flag: Byte, v: nat): (r: seq<nat>) {
    if CanCastle(p, flag) then [v] else []
  }

  /** The castling indices: offset + 0..3 for WQ, WK, BQ, BK, only when any right is left. */
  function CastlingFeatures(p: State, ksq: Square): (r: seq<nat>) {
    if !CanCastleAny(p) then []
    else
      var offset := MiscOffset(ksq);
      IfCastle(p, WHITE_QUEEN_SIDE, offset) + (IfCastle(p, WHITE_KING_SIDE, offset + 1) +
      (IfCastle(p, BLACK_QUEEN_SIDE, offset + 2) + IfCastle(p, BLACK_KING_SIDE, offset + 3)))
  }

  /** The en-passant index `offset + CASTLING_SIZE + file(ep)`, when `epSquare` is not 0. */
  function EpFeatures(p: State, ksq: Square): (r: seq<nat>) {
    if p.ep != NO_SQUARE then [MiscOffset(ksq) + CASTLING_SIZE + FileOf(p.ep)] else []
  }

  /** The castling and en-passant indices, in the order fillFeatures appends them. */
  function MiscFeatures(p: State, ksq: Square): (r: seq<nat>) {
    CastlingFeatures(p, ksq) + EpFeatures(p, ksq)
  }

  /** `active[0..size)` before the sort. */
  function Collected(p: State, c: Color): (r: seq<nat>)
    requires HasKing(p, c)
  {
    var ksq := KingSquare(p, c);
    PieceFeatures(p, c, ksq, Minus(p.occupied, Bit(ksq))) + MiscFeatures(p, ksq)
  }

  /** `active[0..size)` after `std::sort`. */
  function ActiveFeatures(p: State, c: Color): (r: seq<nat>)
    requires HasKing(p, c)
  {
    Sort(Collected(p, c))
  }

  // ---------------------------------------------------------------------
  // Counting
  // ---------------------------------------------------------------------

  /** A four-bit value has as many set bits as its bits 0..3 say. */
  lemma FourBitCount(x: nat)
    requires x < 16
    ensures PopCount(x) ==
      (if IsSet(x, 0) then 1 else 0) + (if IsSet(x, 1) then 1 else 0) +
      (if IsSet(x, 2) then 1 else 0) + (if IsSet(x, 3) then 1 else 0)
  {
    var x1 := x / 2;
    var x2 := x1 / 2;
    var x3 := x2 / 2;
    assert x3 < 2 && x3 / 2 == 0;
    assert PopCount(x3) == x3 % 2;
    assert IsSet(x, 3) == IsSet(x1, 2) == IsSet(x2, 1) == IsSet(x3, 0);
    assert IsSet(x, 2) == IsSet(x1, 1) == IsSet(x2, 0);
    assert IsSet(x, 1) == IsSet(x1, 0);
  }

  /** One castling index per castling right held (the rights use bits 0..3). */
  lemma CastlingCount(p: State, ksq: Square)
    requires p.castling < 16
    ensures |CastlingFeatures(p, ksq)| == PopCount(p.castling)
  {
    FourBitCount(p.castling);
    CanCastleBit(p, 0);
    CanCastleBit(p, 1);
    CanCastleBit(p, 2);
    CanCastleBit(p, 3);
    if p.castling == 0 {
      assert !IsSet(0, 0) && !IsSet(0, 1) && !IsSet(0, 2) && !IsSet(0, 3);
    }
  }

  /** One index per occupied square other than the king's, one per castling right, and one
      for an en-passant square; in a consistent position the first part is one less than the
      number of occupied squares. */
  lemma CollectedCount(p: State, c: Color)
    requires HasKing(p, c)
    ensures |Collected(p, c)| ==
      PopCount(Minus(p.occupied, Bit(KingSquare(p, c)))) + |CastlingFeatures(p, KingSquare(p, c))| +
      (if p.ep != NO_SQUARE then 1 else 0)
    ensures Consistent(p) ==>
      |PieceFeatures(p, c, KingSquare(p, c), Minus(p.occupied, Bit(KingSquare(p, c))))| ==
      PopCount(p.occupied) - 1
  {
    var ksq := KingSquare(p, c);
    var b := Minus(p.occupied, Bit(ksq));
    PieceFeaturesAt(p, c, ksq, b);
    SquaresOfOrder(b);
    if Consistent(p) {
      KingSquareHoldsKing(p, c, ksq);
      MakePieceUnpacks(c, KING);
      assert IsSet(p.occupied, ksq);
      ClearBitCount(p.occupied, ksq);
    }
  }

  // ---------------------------------------------------------------------
  // Bounds
  // ---------------------------------------------------------------------

  /** An assigned table entry is a piece-square index; the others are 0. */
  lemma TableValueBound(c: Color, ksq: Square, pc: Piece, psq: Square)
    ensures TableValue(c, ksq, pc, psq) < PIECE_INPUT_SIZE
  {
    if Assigned(c, ksq, pc, psq) {
      SlotBound(c, ksq, CellColor(pc), CellType(pc), psq);
    }
  }

  /** Every piece feature is below PIECE_INPUT_SIZE. */
  lemma PieceFeaturesBound(p: State, c: Color, ksq: Square, b: U64)
    ensures forall k :: 0 <= k < |PieceFeatures(p, c, ksq, b)| ==>
      PieceFeatures(p, c, ksq, b)[k] < PIECE_INPUT_SIZE
  {
    PieceFeaturesAt(p, c, ksq, b);
    forall k | 0 <= k < |PieceFeatures(p, c, ksq, b)|
      ensures PieceFeatures(p, c, ksq, b)[k] < PIECE_INPUT_SIZE
    {
      var s := SquaresOf(b)[k];
      TableValueBound(c, ksq, p.board[s], s);
    }
  }

  /** At most one value `v` in front of an ascending list of values above `v`. */
  lemma PrependBelow(x: seq<nat>, s: seq<nat>, v: nat, hi: nat)
    requires x == [] || x == [v]
    requires v < hi && StrictlyAscending(s) && forall k :: 0 <= k < |s| ==> v < s[k] < hi
    ensures StrictlyAscending(x + s)
    ensures forall k :: 0 <= k < |x + s| ==> v <= (x + s)[k] < hi
  {
    if x == [v] {
      forall i, j | 0 <= i < j < |x + s|
        ensures (x + s)[i] < (x + s)[j]
      {
        assert (x + s)[j] == s[j - 1];
        if i > 0 {
          assert (x + s)[i] == s[i - 1];
        }
      }
    } else {
      assert x + s == s;
    }
  }

  /** Lists of at most one element each, at increasing values from `o`, concatenate to an
      ascending list within [o, o + 4). */
  lemma OptionalsAscending(a: seq<nat>, b: seq<nat>, d: seq<nat>, e: seq<nat>, o: nat)
    requires a == [] || a == [o]
    requires b == [] || b == [o + 1]
    requires d == [] || d == [o + 2]
    requires e == [] || e == [o + 3]
    ensures StrictlyAscending(a + (b + (d + e)))
    ensures forall k :: 0 <= k < |a + (b + (d + e))| ==> o <= (a + (b + (d + e)))[k] < o + 4
  {
    PrependBelow(e, [], o + 3, o + 4);
    assert e + [] == e;
    PrependBelow(d, e, o + 2, o + 4);
    PrependBelow(b, d + e, o + 1, o + 4);
    PrependBelow(a, b + (d + e), o, o + 4);
  }

  /** A strictly ascending list has no repeats. */
  lemma StrictlyAscendingDistinct(s: seq<nat>)
    requires StrictlyAscending(s)
    ensures Distinct(s)
  {}

  /** The castling indices are distinct and lie in the four castling slots of `ksq`. */
  lemma CastlingBounds(p: State, ksq: Square)
    ensures Distinct(CastlingFeatures(p, ksq))
    ensures forall k :: 0 <= k < |CastlingFeatures(p, ksq)| ==>
      MiscOffset(ksq) <= CastlingFeatures(p, ksq)[k] < MiscOffset(ksq) + CASTLING_SIZE
  {
    var offset := MiscOffset(ksq);
    if CanCastleAny(p) {
      OptionalsAscending(IfCastle(p, WHITE_QUEEN_SIDE, offset), IfCastle(p, WHITE_KING_SIDE, offset + 1),
                         IfCastle(p, BLACK_QUEEN_SIDE, offset + 2), IfCastle(p, BLACK_KING_SIDE, offset + 3),
                         offset);
      StrictlyAscendingDistinct(CastlingFeatures(p, ksq));
    }
  }

  /** The misc indices of king square `ksq` lie in its twelve slots
      [MiscOffset(ksq), MiscOffset(ksq) + MISC_SIZE), castling before en passant. */
  lemma MiscBounds(p: State, ksq: Square)
    ensures forall k :: 0 <= k < |CastlingFeatures(p, ksq)| ==>
      MiscOffset(ksq) <= CastlingFeatures(p, ksq)[k] < MiscOffset(ksq) + CASTLING_SIZE
    ensures forall k :: 0 <= k < |EpFeatures(p, ksq)| ==>
      MiscOffset(ksq) + CASTLING_SIZE <= EpFeatures(p, ksq)[k] < MiscOffset(ksq) + MISC_SIZE
    ensures forall k :: 0 <= k < |MiscFeatures(p, ksq)| ==>
      MiscOffset(ksq) <= MiscFeatures(p, ksq)[k] < MiscOffset(ksq) + MISC_SIZE
    ensures MiscOffset(ksq) + MISC_SIZE <= NUM_FEATURES
  {
    CastlingBounds(p, ksq);
    var cf, ef := CastlingFeatures(p, ksq), EpFeatures(p, ksq);
    forall k | 0 <= k < |cf + ef|
      ensures MiscOffset(ksq) <= (cf + ef)[k] < MiscOffset(ksq) + MISC_SIZE
    {
      if k < |cf| {
        assert (cf + ef)[k] == cf[k];
      } else {
        assert (cf + ef)[k] == ef[k - |cf|];
      }
    }
  }

  /** Every collected index is below NUM_FEATURES, pieces below PIECE_INPUT_SIZE and the
      misc indices from PIECE_INPUT_SIZE on. */
  lemma CollectedBound(p: State, c: Color)
    requires HasKing(p, c)
    ensures forall k :: 0 <= k < |Collected(p, c)| ==> Collected(p, c)[k] < NUM_FEATURES
  {
    var ksq := KingSquare(p, c);
    var pf := PieceFeatures(p, c, ksq, Minus(p.occupied, Bit(ksq)));
    var mf := MiscFeatures(p, ksq);
    PieceFeaturesBound(p, c, ksq, Minus(p.occupied, Bit(ksq)));
    MiscBounds(p, ksq);
    forall k | 0 <= k < |pf + mf|
      ensures (pf + mf)[k] < NUM_FEATURES
    {
      if k < |pf| {
        assert (pf + mf)[k] == pf[k];
      } else {
        assert (pf + mf)[k] == mf[k - |pf|];
      }
    }
  }

  /** The sorted list holds the collected indices, ascending, each below NUM_FEATURES. */
  lemma ActiveFeaturesBound(p: State, c: Color)
    requires HasKing(p, c)
    ensures |ActiveFeatures(p, c)| == |Collected(p, c)|
    ensures multiset(ActiveFeatures(p, c)) == multiset(Collected(p, c))
    ensures Ascending(ActiveFeatures(p, c))
    ensures forall k :: 0 <= k < |ActiveFeatures(p, c)| ==> ActiveFeatures(p, c)[k] < NUM_FEATURES
  {
    var r, s := ActiveFeatures(p, c), Collected(p, c);
    CollectedBound(p, c);
    forall k | 0 <= k < |r|
      ensures r[k] < NUM_FEATURES
    {
      assert r[k] in multiset(s);
    }
  }

  // ---------------------------------------------------------------------
  // Distinct indices
  // ---------------------------------------------------------------------

  /** Every piece on the board other than the perspective's king square has a table slot:
      no second king of the perspective, no enemy king next to it, no pawn on a back rank. */
  predicate AllAssigned(p: State, c: Color)
    requires HasKing(p, c)
  {
    var ksq := KingSquare(p, c);
    forall s: Square :: IsSet(p.occupied, s) && s != ksq ==> Assigned(c, ksq, p.board[s], s)
  }

  /** Two assigned entries of one king square are equal only on the same cell. */
  lemma TableValueInjective(c: Color, ksq: Square, pc1: Piece, psq1: Square, pc2: Piece, psq2: Square)
    requires Assigned(c, ksq, pc1, psq1) && Assigned(c, ksq, pc2, psq2)
    requires TableValue(c, ksq, pc1, psq1) == TableValue(c, ksq, pc2, psq2)
    ensures psq1 == psq2 && pc1 == pc2
  {
    SlotInjective(c, ksq, CellColor(pc1), CellType(pc1), psq1, ksq, CellColor(pc2), CellType(pc2), psq2);
  }

  /** With every piece assigned, the piece features have no repeated index. */
  lemma PieceFeaturesDistinct(p: State, c: Color)
    requires HasKing(p, c) && AllAssigned(p, c)
    ensures Distinct(PieceFeatures(p, c, KingSquare(p, c), Minus(p.occupied, Bit(KingSquare(p, c)))))
  {
    var ksq := KingSquare(p, c);
    var b := Minus(p.occupied, Bit(ksq));
    var pf, sq := PieceFeatures(p, c, ksq, b), SquaresOf(b);
    PieceFeaturesAt(p, c, ksq, b);
    SquaresOfOrder(b);
    forall i, j | 0 <= i < j < |pf|
      ensures pf[i] != pf[j]
    {
      var s1, s2 := sq[i], sq[j];
      assert s1 in sq && s2 in sq;
      MinusSquares(p.occupied, Bit(ksq), s1);
      MinusSquares(p.occupied, Bit(ksq), s2);
      BitSquares(ksq, s1);
      BitSquares(ksq, s2);
      if pf[i] == pf[j] {
        TableValueInjective(c, ksq, p.board[s1], s1, p.board[s2], s2);
        assert false;
      }
    }
  }

  /** The misc indices are distinct, castling rights in WQ, WK, BQ, BK order. */
  lemma MiscDistinct(p: State, ksq: Square)
    ensures Distinct(MiscFeatures(p, ksq))
  {
    CastlingBounds(p, ksq);
    MiscBounds(p, ksq);
    DistinctConcat(CastlingFeatures(p, ksq), EpFeatures(p, ksq), MiscOffset(ksq) + CASTLING_SIZE);
  }

  /** Distinct piece features followed by the misc indices have no repeats. */
  lemma JoinDistinct(p: State, c: Color, ksq: Square, b: U64)
    requires Distinct(PieceFeatures(p, c, ksq, b))
    ensures Distinct(PieceFeatures(p, c, ksq, b) + MiscFeatures(p, ksq))
  {
    MiscDistinct(p, ksq);
    PieceFeaturesBound(p, c, ksq, b);
    MiscBounds(p, ksq);
    DistinctConcat(PieceFeatures(p, c, ksq, b), MiscFeatures(p, ksq), PIECE_INPUT_SIZE);
  }

  /** With every piece assigned, the collected list has no repeated index. */
  lemma CollectedDistinct(p: State, c: Color)
    requires HasKing(p, c) && AllAssigned(p, c)
    ensures Distinct(Collected(p, c))
  {
    var ksq := KingSquare(p, c);
    var b := Minus(p.occupied, Bit(ksq));
    PieceFeaturesDistinct(p, c);
    JoinDistinct(p, c, ksq, b);
  }

  /** With every piece assigned, the sorted list is strictly ascending: the sparse rows
      fillFeatures writes never repeat a column. */
  lemma ActiveFeaturesDistinct(p: State, c: Color)
    requires HasKing(p, c) && AllAssigned(p, c)
    ensures StrictlyAscending(ActiveFeatures(p, c))
  {
    CollectedDistinct(p, c);
    SortDistinct(Collected(p, c));
  }
}
