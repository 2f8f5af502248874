// The 64-bit board set of src/chess/bitboard.h. A `uint64_t` is a natural
// below 2^64 whose bit `s` stands for square `s`; the operators are the
// digit-wise functions of module Bits, and each is characterised by the
// squares it contains. The in-place mutators are the methods of class
// `Bitboard`.

module Bitboards {
  import opened Bits
  import opened Definitions

  const TWO_64: nat := 0x1_0000_0000_0000_0000

  /** A `uint64_t` value. */
  type U64 = b: nat | b < TWO_64

  /** `(uint64_t)1 << sq` (Bitboard::fromSquare) */
  function Bit(sq: Square): U64 {
    Pow2Of64();
    Pow2Below(sq, 64);
    Pow2(sq)
  }

  /** `b << k` on a 64-bit word: the bits shifted past bit 63 are lost. */
  function ShiftLeft(b: U64, k: nat): U64
    requires k < 64
  {
    LowBound64(Shl(b, k));
    Low(Shl(b, k), 64)
  }

  lemma LowBound64(x: nat)
    ensures Low(x, 64) < TWO_64
  {
    Pow2Of64();
    LowBound(x, 64);
  }

  /** `b >> k` */
  function ShiftRight(b: U64, k: nat): U64
    requires k < 64
  {
    Pow2Of64();
    ShrBound(b, k, 64);
    Shr(b, k)
  }

  /** `a | b` */
  function Union(a: U64, b: U64): U64 {
    Pow2Of64();
    OrBound(a, b, 64);
    Or(a, b)
  }

  /** `a & b` */
  function Intersection(a: U64, b: U64): U64 {
    Pow2Of64();
    AndBound(a, b, 64);
    And(a, b)
  }

  /** `a ^ b` */
  function SymmetricDifference(a: U64, b: U64): U64 {
    Pow2Of64();
    XorBound(a, b, 64);
    Xor(a, b)
  }

  /** `~a` */
  function Not(a: U64): U64 {
    Pow2Of64();
    ComplementValue(a, 64);
    Complement(a, 64)
  }

  /** `a - b`, written `a & ~b` in the source. */
  function Minus(a: U64, b: U64): U64 {
    Intersection(a, Not(b))
  }

  /** Bitboard::isSet: `data & 1 << sq`, converted to `bool`. */
  predicate Contains(b: U64, sq: Square) {
    Intersection(b, Bit(sq)) != 0
  }

  /** Bitboard::set: `data |= 1 << sq` */
  function SetBit(b: U64, sq: Square): U64 {
    Union(b, Bit(sq))
  }

  /** Bitboard::clear: `data &= ~(1 << sq)` */
  function ClearBit(b: U64, sq: Square): U64 {
    Intersection(b, Not(Bit(sq)))
  }

  /** Bitboard::toggle: `data ^= 1 << sq` */
  function ToggleBit(b: U64, sq: Square): U64 {
    SymmetricDifference(b, Bit(sq))
  }

  /** `data & (data - 1)`: the statement popLSB and popMSB both end with. */
  function PopLowest(b: U64): U64
    requires b != 0
  {
    Intersection(b, b - 1)
  }

  /** Bitboard::LSB, the count of trailing zeros (undefined on 0). */
  function LSB(b: U64): Square
    requires b != 0
  {
    Pow2Of64();
    LowestBelowHighest(b);
    HighestFits(b, 64);
    Lowest(b)
  }

  /** Bitboard::MSB, `clz ^ 63` (undefined on 0). */
  function MSB(b: U64): Square
    requires b != 0
  {
    Pow2Of64();
    HighestFits(b, 64);
    Highest(b)
  }

  // The masks of the three swaps of Bitboard::mirror (the non-MSVC path).
  const K1: U64 := 0x00ff00ff00ff00ff
  const K2: U64 := 0x0000ffff0000ffff

  function SwapBytes(b: U64): U64 {
    Union(Intersection(ShiftRight(b, 8), K1), ShiftLeft(Intersection(b, K1), 8))
  }

  function SwapWords(b: U64): U64 {
    Union(Intersection(ShiftRight(b, 16), K2), ShiftLeft(Intersection(b, K2), 16))
  }

  function SwapHalves(b: U64): U64 {
    Union(ShiftRight(b, 32), ShiftLeft(b, 32))
  }

  /** Bitboard::mirror / mirrored: the board with its ranks in reverse order. */
  function Mirrored(b: U64): U64 {
    SwapHalves(SwapWords(SwapBytes(b)))
  }

  const FILE_A_BB: U64 := 0x0101010101010101
  const RANK_1_BB: U64 := 0xff
  const DIAG_C2_H7: U64 := 0x0080402010080400

  /** FILE_x_BB: `FILE_A_BB << f` */
  function FileBB(f: nat): U64
    requires f < 8
  {
    ShiftLeft(FILE_A_BB, f)
  }

  /** RANK_r_BB: `RANK_1_BB << 8 * r` */
  function RankBB(r: nat): U64
    requires r < 8
  {
    ShiftLeft(RANK_1_BB, 8 * r)
  }

  /** Bitboard::shift<d> */
  function Shift(b: U64, d: int): U64 {
    if d == NORTH then ShiftLeft(b, 8)
    else if d == SOUTH then ShiftRight(b, 8)
    else if d == 2 * NORTH then ShiftLeft(b, 16)
    else if d == 2 * SOUTH then ShiftRight(b, 16)
    else if d == NORTHEAST then Minus(ShiftLeft(b, 9), FILE_A_BB)
    else if d == NORTHWEST then Minus(ShiftLeft(b, 7), FileBB(7))
    else if d == SOUTHEAST then Minus(ShiftRight(b, 7), FILE_A_BB)
    else if d == SOUTHWEST then Minus(ShiftRight(b, 9), FileBB(7))
    else 0
  }

  /** The directions shift<d> knows. */
  predicate IsShiftDirection(d: int) {
    d == NORTH || d == SOUTH || d == 2 * NORTH || d == 2 * SOUTH ||
    d == NORTHEAST || d == NORTHWEST || d == SOUTHEAST || d == SOUTHWEST
  }

  /** The square `j` is reached from `j - d` by one step `d` that stays on the board. */
  predicate StepOnBoard(j: int, d: int) {
    0 <= j < 64 && 0 <= j - d < 64 && Abs(j % 8 - (j - d) % 8) <= 1
  }

  /** The square a rank mirror sends `s` to: `s ^ 56`. */
  function MirrorSquare(s: Square): Square {
    8 * (7 - s / 8) + s % 8
  }

  // ---------------------------------------------------------------------
  // The squares of the operators
  // ---------------------------------------------------------------------

  lemma BitSquares(sq: Square, j: nat)
    ensures IsSet(Bit(sq), j) == (j == sq)
  {
    Pow2Bits(sq, j);
  }

  /** isSet reads exactly bit `sq`. */
  lemma ContainsBit(b: U64, sq: Square)
    ensures Contains(b, sq) == IsSet(b, sq)
  {
    var m := Intersection(b, Bit(sq));
    AndBits(b, Bit(sq), sq);
    BitSquares(sq, sq);
    if IsSet(b, sq) {
      ZeroClear(sq);
    } else {
      forall k: nat | k < 64
        ensures IsSet(m, k) == IsSet(0, k)
      {
        AndBits(b, Bit(sq), k);
        BitSquares(sq, k);
        ZeroClear(k);
      }
      Pow2Of64();
      Extensionality(m, 0, 64);
    }
  }

  lemma UnionSquares(a: U64, b: U64, j: nat)
    ensures IsSet(Union(a, b), j) == (IsSet(a, j) || IsSet(b, j))
  {
    OrBits(a, b, j);
  }

  lemma IntersectionSquares(a: U64, b: U64, j: nat)
    ensures IsSet(Intersection(a, b), j) == (IsSet(a, j) && IsSet(b, j))
  {
    AndBits(a, b, j);
  }

  lemma SymmetricDifferenceSquares(a: U64, b: U64, j: nat)
    ensures IsSet(SymmetricDifference(a, b), j) == (IsSet(a, j) != IsSet(b, j))
  {
    XorBits(a, b, j);
  }

  /** `~a` holds the squares `a` does not, and nothing beyond bit 63. */
  lemma NotSquares(a: U64, j: nat)
    ensures IsSet(Not(a), j) == (j < 64 && !IsSet(a, j))
  {
    ComplementBits(a, 64, j);
  }

  /** `a - b` is set difference. */
  lemma MinusSquares(a: U64, b: U64, j: nat)
    ensures IsSet(Minus(a, b), j) == (IsSet(a, j) && !IsSet(b, j))
  {
    AndBits(a, Not(b), j);
    NotSquares(b, j);
    if j >= 64 {
      Pow2Of64();
      HighClear(a, 64, j);
    }
  }

  /** set(sq) adds `sq` and changes no other square. */
  lemma SetBitSquares(b: U64, sq: Square, j: nat)
    ensures IsSet(SetBit(b, sq), j) == (j == sq || IsSet(b, j))
  {
    OrBits(b, Bit(sq), j);
    BitSquares(sq, j);
  }

  /** clear(sq) removes `sq` and changes no other square. */
  lemma ClearBitSquares(b: U64, sq: Square, j: nat)
    ensures IsSet(ClearBit(b, sq), j) == (j != sq && IsSet(b, j))
  {
    AndBits(b, Not(Bit(sq)), j);
    NotSquares(Bit(sq), j);
    BitSquares(sq, j);
    if j >= 64 {
      Pow2Of64();
      HighClear(b, 64, j);
    }
  }

  /** toggle(sq) flips `sq` and changes no other square. */
  lemma ToggleBitSquares(b: U64, sq: Square, j: nat)
    ensures IsSet(ToggleBit(b, sq), j) == ((j == sq) != IsSet(b, j))
  {
    XorBits(b, Bit(sq), j);
    BitSquares(sq, j);
  }

  /** LSB is the lowest square of a non-empty board. */
  lemma LSBIsLowest(b: U64, j: nat)
    requires b != 0
    ensures IsSet(b, LSB(b))
    ensures j < LSB(b) ==> !IsSet(b, j)
  {
    LowestBits(b, j);
  }

  /** MSB is the highest square of a non-empty board. */
  lemma MSBIsHighest(b: U64, j: nat)
    requires b != 0
    ensures IsSet(b, MSB(b))
    ensures j > MSB(b) ==> !IsSet(b, j)
  {
    HighestBits(b);
    if j > MSB(b) {
      Pow2Monotone(Highest(b) + 1, j);
      HighClear(b, Highest(b) + 1, j);
    }
  }

  /** `data &= data - 1` removes exactly the lowest square and one from the count. */
  lemma PopLowestSquares(b: U64, j: nat)
    requires b != 0
    ensures IsSet(PopLowest(b), j) == (IsSet(b, j) && j != LSB(b))
    ensures PopCount(PopLowest(b)) == PopCount(b) - 1
  {
    ClearLowestBits(b, j);
    PopCountClearLowest(b);
  }

  /** Two bitboards with the same squares are equal. */
  lemma SameSquares(a: U64, b: U64)
    requires forall j: nat :: j < 64 ==> IsSet(a, j) == IsSet(b, j)
    ensures a == b
  {
    Pow2Of64();
    Extensionality(a, b, 64);
  }

  /** The only bitboard without squares is 0. */
  lemma EmptySquares(b: U64)
    requires forall j: nat :: j < 64 ==> !IsSet(b, j)
    ensures b == 0
  {
    forall j: nat | j < 64
      ensures IsSet(b, j) == IsSet(0, j)
    {
      ZeroClear(j);
    }
    SameSquares(b, 0);
  }

  lemma ClearBitValue(b: U64, sq: Square)
    requires IsSet(b, sq)
    ensures b >= Pow2(sq) && ClearBit(b, sq) == b - Pow2(sq)
  {
    SetBitBound(b, sq);
    forall k: nat | k < 64
      ensures IsSet(ClearBit(b, sq), k) == IsSet(b - Pow2(sq), k)
    {
      ClearBitSquares(b, sq, k);
      RemoveBit(b, sq, k);
    }
    Pow2Of64();
    Extensionality(ClearBit(b, sq), b - Pow2(sq), 64);
  }

  /** Clearing a set square lowers the count by one. */
  lemma ClearBitCount(b: U64, sq: Square)
    requires IsSet(b, sq)
    ensures PopCount(ClearBit(b, sq)) == PopCount(b) - 1
  {
    ClearBitValue(b, sq);
    RemoveBitCount(b, sq);
  }

  // ---------------------------------------------------------------------
  // Mirror
  // ---------------------------------------------------------------------

  lemma K1Bytes()
    ensures K1 == FromBytes([255, 0, 255, 0, 255, 0, 255, 0])
  {}

  lemma K2Bytes()
    ensures K2 == FromBytes([255, 255, 0, 0, 255, 255, 0, 0])
  {}

  lemma FileABytes()
    ensures FILE_A_BB == FromBytes(Repeat(1, 8))
  {}

  lemma DiagonalBytes()
    ensures DIAG_C2_H7 == FromBytes([0, 4, 8, 16, 32, 64, 128, 0])
  {}

  lemma K1Squares(j: nat)
    ensures IsSet(K1, j) == (j < 64 && (j / 8) % 2 == 0)
  {
    K1Bytes();
    FromBytesBits([255, 0, 255, 0, 255, 0, 255, 0], j);
    if j < 64 {
      assert Pow2(8) == 256;
      OnesBits(8, j % 8);
      ZeroClear(j % 8);
    }
  }

  lemma K2Squares(j: nat)
    ensures IsSet(K2, j) == (j < 64 && (j / 16) % 2 == 0)
  {
    K2Bytes();
    FromBytesBits([255, 255, 0, 0, 255, 255, 0, 0], j);
    if j < 64 {
      assert Pow2(8) == 256;
      OnesBits(8, j % 8);
      ZeroClear(j % 8);
    }
  }

  lemma SwapBytesSquares(b: U64, j: nat)
    requires j < 64
    ensures IsSet(SwapBytes(b), j) == IsSet(b, if (j / 8) % 2 == 0 then j + 8 else j - 8)
  {
    var hi, lo := Intersection(ShiftRight(b, 8), K1), Intersection(b, K1);
    OrBits(hi, ShiftLeft(lo, 8), j);
    assert IsSet(hi, j) == (IsSet(b, j + 8) && IsSet(K1, j)) by {
      AndBits(ShiftRight(b, 8), K1, j);
      ShrBits(b, 8, j);
    }
    assert IsSet(ShiftLeft(lo, 8), j) == (j >= 8 && IsSet(b, j - 8) && IsSet(K1, j - 8)) by {
      LowBits(Shl(lo, 8), 64, j);
      ShlBits(lo, 8, j);
      if j >= 8 {
        AndBits(b, K1, j - 8);
      }
    }
    K1Squares(j);
    if j >= 8 {
      K1Squares(j - 8);
      assert (j - 8) / 8 == j / 8 - 1;
    }
  }

  lemma SwapWordsSquares(b: U64, j: nat)
    requires j < 64
    ensures IsSet(SwapWords(b), j) == IsSet(b, if (j / 16) % 2 == 0 then j + 16 else j - 16)
  {
    var hi, lo := Intersection(ShiftRight(b, 16), K2), Intersection(b, K2);
    OrBits(hi, ShiftLeft(lo, 16), j);
    assert IsSet(hi, j) == (IsSet(b, j + 16) && IsSet(K2, j)) by {
      AndBits(ShiftRight(b, 16), K2, j);
      ShrBits(b, 16, j);
    }
    assert IsSet(ShiftLeft(lo, 16), j) == (j >= 16 && IsSet(b, j - 16) && IsSet(K2, j - 16)) by {
      LowBits(Shl(lo, 16), 64, j);
      ShlBits(lo, 16, j);
      if j >= 16 {
        AndBits(b, K2, j - 16);
      }
    }
    K2Squares(j);
    if j >= 16 {
      K2Squares(j - 16);
      assert (j - 16) / 16 == j / 16 - 1;
    }
  }

  lemma SwapHalvesSquares(b: U64, j: nat)
    requires j < 64
    ensures IsSet(SwapHalves(b), j) == IsSet(b, if j < 32 then j + 32 else j - 32)
  {
    OrBits(ShiftRight(b, 32), ShiftLeft(b, 32), j);
    ShrBits(b, 32, j);
    LowBits(Shl(b, 32), 64, j);
    ShlBits(b, 32, j);
    if j >= 32 {
      Pow2Of64();
      HighClear(b, 64, j + 32);
    }
  }

  /** The three swaps together send rank `r` to rank `7 - r`, through squares `j3` and `j2`. */
  lemma MirrorIndex(j: Square, j3: int, j2: int)
    requires j3 == if j < 32 then j + 32 else j - 32
    requires j2 == if (j3 / 16) % 2 == 0 then j3 + 16 else j3 - 16
    ensures 0 <= j3 < 64 && 0 <= j2 < 64
    ensures (if (j2 / 8) % 2 == 0 then j2 + 8 else j2 - 8) == MirrorSquare(j)
  {}

  /** mirror moves the contents of square `j ^ 56` to square `j`. */
  lemma MirroredSquares(b: U64, j: Square)
    ensures IsSet(Mirrored(b), j) == IsSet(b, MirrorSquare(j))
  {
    var j3 := if j < 32 then j + 32 else j - 32;
    var j2 := if (j3 / 16) % 2 == 0 then j3 + 16 else j3 - 16;
    MirrorIndex(j, j3, j2);
    SwapHalvesSquares(SwapWords(SwapBytes(b)), j);
    SwapWordsSquares(SwapBytes(b), j3);
    SwapBytesSquares(b, j2);
  }

  lemma MirroredTwice(b: U64, k: Square)
    ensures IsSet(Mirrored(Mirrored(b)), k) == IsSet(b, k)
  {
    MirroredSquares(Mirrored(b), k);
    MirroredSquares(b, MirrorSquare(k));
    MirrorSquareTwice(k);
  }

  lemma MirrorSquareTwice(k: Square)
    ensures MirrorSquare(MirrorSquare(k)) == k
  {}

  /** Mirroring twice gives the board back. */
  lemma MirroredInvolution(b: U64)
    ensures Mirrored(Mirrored(b)) == b
  {
    forall k: nat | k < 64
      ensures IsSet(Mirrored(Mirrored(b)), k) == IsSet(b, k)
    {
      MirroredTwice(b, k);
    }
    Pow2Of64();
    Extensionality(Mirrored(Mirrored(b)), b, 64);
  }

  // ---------------------------------------------------------------------
  // Masks
  // ---------------------------------------------------------------------

  lemma FileASquares(j: nat)
    ensures IsSet(FILE_A_BB, j) == (j < 64 && j % 8 == 0)
  {
    FileABytes();
    FromBytesBits(Repeat(1, 8), j);
    if j < 64 {
      OneBits(j % 8);
    }
  }

  lemma FileOffset(j: nat, f: nat)
    requires f < 8 && j >= f
    ensures ((j - f) % 8 == 0) == (j % 8 == f)
  {}

  /** FILE_x_BB holds the eight squares of file `f`. */
  lemma FileSquares(f: nat, j: nat)
    requires f < 8
    ensures IsSet(FileBB(f), j) == (j < 64 && j % 8 == f)
  {
    ShiftLeftSquares(FILE_A_BB, f, j);
    if j >= f {
      FileASquares(j - f);
      FileOffset(j, f);
    }
  }

  lemma RankOffset(j: nat, r: nat)
    requires r < 8 && j >= 8 * r
    ensures (j - 8 * r < 8) == (j / 8 == r)
  {}

  /** RANK_r_BB holds the eight squares of rank `r`. */
  lemma RankSquares(r: nat, j: nat)
    requires r < 8
    ensures IsSet(RankBB(r), j) == (j < 64 && j / 8 == r)
  {
    ShiftLeftSquares(RANK_1_BB, 8 * r, j);
    if j >= 8 * r {
      assert Pow2(8) == 256;
      OnesBits(8, j - 8 * r);
      RankOffset(j, r);
    }
  }

  lemma FileCount(f: nat)
    requires f < 8
    ensures PopCount(FileBB(f)) == 8
  {
    var bs := Repeat(Pow2(f), 8);
    Pow2Below(f, 8);
    assert Pow2(8) == 256;
    forall k: nat | k < 64
      ensures IsSet(FileBB(f), k) == IsSet(FromBytes(bs), k)
    {
      FileSquares(f, k);
      FromBytesBits(bs, k);
      Pow2Bits(f, k % 8);
    }
    FromBytesBound(bs);
    Pow2Of64();
    Extensionality(FileBB(f), FromBytes(bs), 64);
    PopCountPow2(f);
    PopCountRepeat(Pow2(f), 8);
  }

  lemma RankCount(r: nat)
    requires r < 8
    ensures PopCount(RankBB(r)) == 8
  {
    assert Pow2(8) == 256;
    ShlValue(RANK_1_BB, 8 * r);
    Pow2Sum(8 * r, 8);
    Pow2Monotone(8 * r + 8, 64);
    Pow2Of64();
    LowFits(Shl(RANK_1_BB, 8 * r), 64);
    PopCountSplit(0, RANK_1_BB, 8 * r);
    OnesPopCount(8);
  }

  /** Distinct files share no square, nor do distinct ranks. */
  lemma MasksDisjoint(a: nat, b: nat)
    requires a < 8 && b < 8 && a != b
    ensures Intersection(FileBB(a), FileBB(b)) == 0
    ensures Intersection(RankBB(a), RankBB(b)) == 0
  {
    forall k: nat | k < 64
      ensures IsSet(Intersection(FileBB(a), FileBB(b)), k) == IsSet(0, k)
      ensures IsSet(Intersection(RankBB(a), RankBB(b)), k) == IsSet(0, k)
    {
      AndBits(FileBB(a), FileBB(b), k);
      AndBits(RankBB(a), RankBB(b), k);
      FileSquares(a, k);
      FileSquares(b, k);
      RankSquares(a, k);
      RankSquares(b, k);
      ZeroClear(k);
    }
    Pow2Of64();
    Extensionality(Intersection(FileBB(a), FileBB(b)), 0, 64);
    Pow2Of64();
    Extensionality(Intersection(RankBB(a), RankBB(b)), 0, 64);
  }

  lemma DiagonalByteBits(r: nat, k: nat)
    requires r < 8 && k < 8
    ensures IsSet([0, 4, 8, 16, 32, 64, 128, 0][r], k) == (1 <= r <= 6 && k == r + 1)
  {
    var bs := [0, 4, 8, 16, 32, 64, 128, 0];
    if r == 0 || r == 7 {
      ZeroClear(k);
    } else {
      assert Pow2(2) == 4 && Pow2(3) == 8 && Pow2(4) == 16;
      assert Pow2(5) == 32 && Pow2(6) == 64 && Pow2(7) == 128;
      assert bs[r] == Pow2(r + 1);
      Pow2Bits(r + 1, k);
    }
  }

  /** DIAG_C2_H7 holds the six squares c2, d3, e4, f5, g6 and h7. */
  lemma DiagonalSquares(j: nat)
    ensures IsSet(DIAG_C2_H7, j) == (j < 64 && 2 <= j % 8 && j / 8 == j % 8 - 1)
  {
    DiagonalBytes();
    FromBytesBits([0, 4, 8, 16, 32, 64, 128, 0], j);
    if j < 64 {
      DiagonalByteBits(j / 8, j % 8);
    }
  }

  // ---------------------------------------------------------------------
  // shift<d>
  // ---------------------------------------------------------------------

  lemma ShiftLeftSquares(b: U64, k: nat, j: nat)
    requires k < 64
    ensures IsSet(ShiftLeft(b, k), j) == (j < 64 && j >= k && IsSet(b, j - k))
  {
    LowBits(Shl(b, k), 64, j);
    ShlBits(b, k, j);
  }

  lemma ShiftRightSquares(b: U64, k: nat, j: nat)
    requires k < 64
    ensures IsSet(ShiftRight(b, k), j) == (j + k < 64 && IsSet(b, j + k))
  {
    ShrBits(b, k, j);
    if j + k >= 64 {
      Pow2Of64();
      HighClear(b, 64, j + k);
    }
  }

  lemma VerticalStep(j: int, d: int)
    requires d == 8 || d == 16 || d == -8 || d == -16
    ensures StepOnBoard(j, d) == (0 <= j < 64 && 0 <= j - d < 64)
  {}

  lemma DiagonalStep(j: int, d: int)
    requires d == 9 || d == 7 || d == -7 || d == -9
    requires 0 <= j < 64 && 0 <= j - d < 64
    ensures StepOnBoard(j, d) == if d == 9 || d == -7 then j % 8 != 0 else j % 8 != 7
  {}

  lemma ShiftNorthSquares(b: U64, d: int, j: nat)
    requires d == NORTH || d == 2 * NORTH
    ensures IsSet(Shift(b, d), j) == (StepOnBoard(j, d) && IsSet(b, j - d))
  {
    ShiftLeftSquares(b, d, j);
    VerticalStep(j, d);
  }

  lemma ShiftSouthSquares(b: U64, d: int, j: nat)
    requires d == SOUTH || d == 2 * SOUTH
    ensures IsSet(Shift(b, d), j) == (StepOnBoard(j, d) && IsSet(b, j - d))
  {
    ShiftRightSquares(b, -d, j);
    VerticalStep(j, d);
  }

  lemma ShiftNorthEastSquares(b: U64, j: nat)
    ensures IsSet(Shift(b, NORTHEAST), j) == (StepOnBoard(j, NORTHEAST) && IsSet(b, j - NORTHEAST))
  {
    MinusSquares(ShiftLeft(b, 9), FILE_A_BB, j);
    ShiftLeftSquares(b, 9, j);
    FileASquares(j);
    if 9 <= j < 64 {
      DiagonalStep(j, 9);
    }
  }

  lemma ShiftNorthWestSquares(b: U64, j: nat)
    ensures IsSet(Shift(b, NORTHWEST), j) == (StepOnBoard(j, NORTHWEST) && IsSet(b, j - NORTHWEST))
  {
    MinusSquares(ShiftLeft(b, 7), FileBB(7), j);
    ShiftLeftSquares(b, 7, j);
    FileSquares(7, j);
    if 7 <= j < 64 {
      DiagonalStep(j, 7);
    }
  }

  lemma ShiftSouthEastSquares(b: U64, j: nat)
    ensures IsSet(Shift(b, SOUTHEAST), j) == (StepOnBoard(j, SOUTHEAST) && IsSet(b, j - SOUTHEAST))
  {
    MinusSquares(ShiftRight(b, 7), FILE_A_BB, j);
    ShiftRightSquares(b, 7, j);
    FileASquares(j);
    if j + 7 < 64 {
      DiagonalStep(j, -7);
    }
  }

  lemma ShiftSouthWestSquares(b: U64, j: nat)
    ensures IsSet(Shift(b, SOUTHWEST), j) == (StepOnBoard(j, SOUTHWEST) && IsSet(b, j - SOUTHWEST))
  {
    MinusSquares(ShiftRight(b, 9), FileBB(7), j);
    ShiftRightSquares(b, 9, j);
    FileSquares(7, j);
    if j + 9 < 64 {
      DiagonalStep(j, -9);
    }
  }

  /** Any other direction gives the empty board. */
  lemma ShiftOtherIsEmpty(b: U64, d: int)
    requires !IsShiftDirection(d)
    ensures Shift(b, d) == 0
  {}

  // ---------------------------------------------------------------------
  // The mutable struct
  // ---------------------------------------------------------------------

  /** struct Bitboard: one `uint64_t` updated in place. */
  class Bitboard {
    var data: U64

    constructor(d: U64)
      ensures data == d
    {
      data := d;
    }

    method Set(sq: Square)
      modifies this
      ensures data == SetBit(old(data), sq)
    {
      data := Union(data, Bit(sq));
    }

    method Clear(sq: Square)
      modifies this
      ensures data == ClearBit(old(data), sq)
    {
      data := Intersection(data, Not(Bit(sq)));
    }

    method Toggle(sq: Square)
      modifies this
      ensures data == ToggleBit(old(data), sq)
    {
      data := SymmetricDifference(data, Bit(sq));
    }

    method PopLSB() returns (s: Square)
      requires data != 0
      modifies this
      ensures s == LSB(old(data)) && data == PopLowest(old(data))
    {
      s := LSB(data);
      data := Intersection(data, data - 1);
    }

    /** As written: returns the highest square but clears the lowest. */
    method PopMSB() returns (s: Square)
      requires data != 0
      modifies this
      ensures s == MSB(old(data)) && data == PopLowest(old(data))
    {
      s := MSB(data);
      data := Intersection(data, data - 1);
    }

    /** popMSB as evidently intended: clears the square it returns. */
    method PopMSBCorrected() returns (s: Square)
      requires data != 0
      modifies this
      ensures s == MSB(old(data)) && data == ClearBit(old(data), s)
    {
      s := MSB(data);
      data := ClearBit(data, s);
    }

    method Mirror()
      modifies this
      ensures data == Mirrored(old(data))
    {
      var k1, k2 := K1, K2;
      data := Union(Intersection(ShiftRight(data, 8), k1), ShiftLeft(Intersection(data, k1), 8));
      data := Union(Intersection(ShiftRight(data, 16), k2), ShiftLeft(Intersection(data, k2), 16));
      data := Union(ShiftRight(data, 32), ShiftLeft(data, 32));
    }

    method UnionWith(other: U64)
      modifies this
      ensures data == Union(old(data), other)
    {
      data := Union(data, other);
    }

    method IntersectWith(other: U64)
      modifies this
      ensures data == Intersection(old(data), other)
    {
      data := Intersection(data, other);
    }

    method SymmetricDifferenceWith(other: U64)
      modifies this
      ensures data == SymmetricDifference(old(data), other)
    {
      data := SymmetricDifference(data, other);
    }

    method Subtract(other: U64)
      modifies this
      ensures data == Minus(old(data), other)
    {
      data := Intersection(data, Not(other));
    }
  }

  /** popMSB keeps the square it returns whenever the board has two or more. */
  lemma PopMSBKeepsReturnedSquare(b: U64)
    requires PopCount(b) >= 2
    ensures b != 0 && IsSet(PopLowest(b), MSB(b))
  {
    PopCountZero(b);
    PopLowestSquares(b, MSB(b));
    MSBIsHighest(b, MSB(b));
    if MSB(b) == LSB(b) {
      PopCountZero(PopLowest(b));
      var c := PopLowest(b);
      assert c != 0;
      PopLowestSquares(b, LSB(c));
      LSBIsLowest(c, LSB(c));
      MSBIsHighest(b, LSB(c));
      LSBIsLowest(b, LSB(c));
      assert false;
    }
  }

  /** Concretely: on {a1, b1} popMSB returns b1 and leaves b1 on the board. */
  lemma PopMSBCounterexample(b: U64)
    requires b == 3
    ensures MSB(b) == 1 && PopLowest(b) == 2 && IsSet(PopLowest(b), MSB(b))
  {}

  /** The corrected popMSB removes exactly the highest square. */
  lemma PopMSBCorrectedSquares(b: U64, j: nat)
    requires b != 0
    ensures IsSet(ClearBit(b, MSB(b)), j) == (IsSet(b, j) && j != MSB(b))
    ensures PopCount(ClearBit(b, MSB(b))) == PopCount(b) - 1
  {
    ClearBitSquares(b, MSB(b), j);
    MSBIsHighest(b, j);
    ClearBitCount(b, MSB(b));
  }
}
