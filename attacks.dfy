// The attack tables the move reader and the pin finder consult
// (`attacks::knightAttacks`, `attacks::attacks<BISHOP/ROOK/QUEEN>`,
// `attacks::inBetweenSquares`, `attacks::files`, `attacks::ranks`).
// src/chess/attacks.h is not part of this model: these are specification
// functions stated with board geometry, not a rendering of its tables.

module Attacks {
  import opened Bits
  import opened Definitions
  import opened Bitboards

  /** The bitboard of the squares of `S` that lie on the board. */
  function SquaresBB(S: set<int>): U64 {
    Pow2Of64();
    BuildBound(S, 64);
    Build(S, 64)
  }

  /** The bits `k < n` of `S`. */
  function Build(S: set<int>, n: nat): nat {
    if n == 0 then 0 else Build(S, n - 1) + (if n - 1 in S then Pow2(n - 1) else 0)
  }

  lemma {:induction false} BuildBound(S: set<int>, n: nat)
    ensures Build(S, n) < Pow2(n)
  {
    if n > 0 {
      BuildBound(S, n - 1);
    }
  }

  lemma {:induction false} BuildBits(S: set<int>, n: nat, j: nat)
    ensures IsSet(Build(S, n), j) == (j < n && j in S)
  {
    if n == 0 {
      ZeroClear(j);
    } else {
      var c := if n - 1 in S then 1 else 0;
      BuildBound(S, n - 1);
      assert Build(S, n) == Build(S, n - 1) + Pow2(n - 1) * c;
      Split(Build(S, n - 1), c, n - 1, j);
      if j < n - 1 {
        BuildBits(S, n - 1, j);
      } else {
        OneBits(j - (n - 1));
        ZeroClear(j - (n - 1));
      }
    }
  }

  lemma SquaresBBBits(S: set<int>, j: nat)
    ensures IsSet(SquaresBB(S), j) == (j < 64 && j in S)
  {
    BuildBits(S, 64, j);
  }

  /** The larger of the file and rank distances. */
  function Chebyshev(a: Square, b: Square): nat {
    var df, dr := Abs(FileOf(b) - FileOf(a)), Abs(RankOf(b) - RankOf(a));
    if df < dr then dr else df
  }

  function Sign(x: int): int {
    if x > 0 then 1 else if x < 0 then -1 else 0
  }

  /** `k` steps along a unit direction of sign `sign`. */
  function Along(sign: int, k: int): int {
    if sign > 0 then k else if sign < 0 then -k else 0
  }

  /** `a` and `b` share a diagonal. */
  predicate Diagonal(a: Square, b: Square) {
    a != b && Abs(FileOf(b) - FileOf(a)) == Abs(RankOf(b) - RankOf(a))
  }

  /** `a` and `b` share a file or a rank. */
  predicate Orthogonal(a: Square, b: Square) {
    a != b && (FileOf(b) == FileOf(a) || RankOf(b) == RankOf(a))
  }

  /** `u` lies strictly between `a` and `b` on the line they share. */
  predicate Between(a: Square, b: Square, u: Square) {
    (Diagonal(a, b) || Orthogonal(a, b)) &&
    var k := Chebyshev(a, u);
    0 < k < Chebyshev(a, b) &&
    FileOf(u) - FileOf(a) == Along(Sign(FileOf(b) - FileOf(a)), k) &&
    RankOf(u) - RankOf(a) == Along(Sign(RankOf(b) - RankOf(a)), k)
  }

  /** No square of `occ` stands between `a` and `b`. */
  predicate Unblocked(a: Square, b: Square, occ: U64) {
    forall u: Square :: Between(a, b, u) ==> !IsSet(occ, u)
  }

  predicate KnightStep(a: Square, b: Square) {
    var df, dr := Abs(FileOf(b) - FileOf(a)), Abs(RankOf(b) - RankOf(a));
    (df == 1 && dr == 2) || (df == 2 && dr == 1)
  }

  /** attacks::knightAttacks[s] */
  function KnightAttacks(s: Square): U64 {
    SquaresBB(set t: int | 0 <= t < 64 && KnightStep(s, t))
  }

  /** attacks::attacks<BISHOP>(s, occ): each diagonal up to and including its first piece. */
  function BishopAttacks(s: Square, occ: U64): U64 {
    SquaresBB(set t: int | 0 <= t < 64 && Diagonal(s, t) && Unblocked(s, t, occ))
  }

  /** attacks::attacks<ROOK>(s, occ) */
  function RookAttacks(s: Square, occ: U64): U64 {
    SquaresBB(set t: int | 0 <= t < 64 && Orthogonal(s, t) && Unblocked(s, t, occ))
  }

  /** attacks::attacks<QUEEN>(s, occ): the bishop and the rook rays together. */
  function QueenAttacks(s: Square, occ: U64): U64 {
    Union(BishopAttacks(s, occ), RookAttacks(s, occ))
  }

  /** attacks::inBetweenSquares[a][b]: empty unless `a` and `b` share a line. */
  function InBetweenSquares(a: Square, b: Square): U64 {
    SquaresBB(set u: int | 0 <= u < 64 && Between(a, b, u))
  }

  // ---------------------------------------------------------------------
  // What the tables hold
  // ---------------------------------------------------------------------

  lemma KnightAttacksSquares(s: Square, t: Square)
    ensures IsSet(KnightAttacks(s), t) == KnightStep(s, t)
  {
    SquaresBBBits((set t: int | 0 <= t < 64 && KnightStep(s, t)), t);
  }

  lemma BishopAttacksSquares(s: Square, occ: U64, t: Square)
    ensures IsSet(BishopAttacks(s, occ), t) == (Diagonal(s, t) && Unblocked(s, t, occ))
  {
    SquaresBBBits((set t: int | 0 <= t < 64 && Diagonal(s, t) && Unblocked(s, t, occ)), t);
  }

  lemma RookAttacksSquares(s: Square, occ: U64, t: Square)
    ensures IsSet(RookAttacks(s, occ), t) == (Orthogonal(s, t) && Unblocked(s, t, occ))
  {
    SquaresBBBits((set t: int | 0 <= t < 64 && Orthogonal(s, t) && Unblocked(s, t, occ)), t);
  }

  lemma QueenAttacksSquares(s: Square, occ: U64, t: Square)
    ensures IsSet(QueenAttacks(s, occ), t) == ((Diagonal(s, t) || Orthogonal(s, t)) && Unblocked(s, t, occ))
  {
    UnionSquares(BishopAttacks(s, occ), RookAttacks(s, occ), t);
    BishopAttacksSquares(s, occ, t);
    RookAttacksSquares(s, occ, t);
  }

  lemma InBetweenSquaresSquares(a: Square, b: Square, u: Square)
    ensures IsSet(InBetweenSquares(a, b), u) == Between(a, b, u)
  {
    SquaresBBBits((set u: int | 0 <= u < 64 && Between(a, b, u)), u);
  }

  /** A square between two others differs from both. */
  lemma BetweenIsInside(a: Square, b: Square, u: Square)
    requires Between(a, b, u)
    ensures u != a && u != b
  {}

  /** The knight relation is symmetric, so the table read at the target square lists the sources. */
  lemma KnightStepSymmetric(a: Square, b: Square)
    ensures KnightStep(a, b) == KnightStep(b, a)
  {}
}
