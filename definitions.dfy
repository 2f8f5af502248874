// Basic chess vocabulary: colours, piece codes, squares, files, ranks and
// directions, with the packing functions that convert between them.
// C++ `uint8_t` values are `Byte`s and `int8_t` values are `int`s in
// -128..127; every implicit narrowing conversion of the source is written
// out with `U8` or `I8`.

module Definitions {

  type Byte = b: int | 0 <= b < 256

  /** `Color` is a `bool`: WHITE is false, BLACK is true. */
  type Color = bool
  const WHITE: Color := false
  const BLACK: Color := true

  type PieceType = Byte
  type Piece = Byte
  /** A `uint8_t` square value that lies on the board. */
  type Square = s: int | 0 <= s < 64

  const NO_PIECE_TYPE: PieceType := 0
  const PAWN: PieceType := 1
  const KNIGHT: PieceType := 2
  const BISHOP: PieceType := 3
  const ROOK: PieceType := 4
  const QUEEN: PieceType := 5
  const KING: PieceType := 6
  const N_PIECE_TYPES: PieceType := 7

  const NO_PIECE: Piece := 0
  const WHITE_PAWN: Piece := 1
  const WHITE_KNIGHT: Piece := 2
  const WHITE_BISHOP: Piece := 3
  const WHITE_ROOK: Piece := 4
  const WHITE_QUEEN: Piece := 5
  const WHITE_KING: Piece := 6
  const BLACK_PAWN: Piece := 9
  const BLACK_KNIGHT: Piece := 10
  const BLACK_BISHOP: Piece := 11
  const BLACK_ROOK: Piece := 12
  const BLACK_QUEEN: Piece := 13
  const BLACK_KING: Piece := 14
  const N_PIECES: Piece := 15

  const A1: Square := 0
  const C1: Square := 2
  const D1: Square := 3
  const F1: Square := 5
  const G1: Square := 6
  const H1: Square := 7
  const A8: Square := 56
  const H8: Square := 63
  /** "No square" shares the code of a1. */
  const NO_SQUARE: Square := 0
  const N_SQUARES: int := 64

  const NORTH: int := 8
  const EAST: int := 1
  const SOUTH: int := -8
  const WEST: int := -1
  const NORTHEAST: int := 9
  const NORTHWEST: int := 7
  const SOUTHEAST: int := -7
  const SOUTHWEST: int := -9

  const MATE_SCORE: int := 32000

  /** Conversion of an `int` to `uint8_t` (arithmetic modulo 256). */
  function U8(x: int): Byte {
    x % 256
  }

  /** Conversion of an `int` to `int8_t` (two's complement wrap-around). */
  function I8(x: int): int {
    (x + 128) % 256 - 128
  }

  /** Conversion of an `int` to `uint16_t`. */
  function U16(x: int): nat {
    x % 65536
  }

  /** Conversion of an `int` to `int16_t`. */
  function I16(x: int): int {
    (x + 32768) % 65536 - 32768
  }

  /** The value of a C++ `char` holding the low byte of `ch` (signed). */
  function CharCode(ch: char): int {
    I8(ch as int)
  }

  /** The pieces that appear on a board: 1..6 white, 9..14 black. */
  predicate IsPiece(pc: int) {
    1 <= pc <= 6 || 9 <= pc <= 14
  }

  /** color::make: `pc >> 3`, converted to `bool`. */
  function ColorOf(pc: Piece): Color {
    pc / 8 != 0
  }

  /** pieceType::make: `pc & 7`. */
  function TypeOf(pc: Piece): PieceType {
    pc % 8
  }

  /** piece::make: `(c << 3) + pt`, narrowed to a byte. */
  function MakePiece(c: Color, pt: PieceType): Piece {
    U8((if c then 8 else 0) + pt)
  }

  const PIECE_TO_CHAR: string := " PNBRQK  pnbrqk"

  function PieceToChar(pc: Piece): char
    requires pc < 15
  {
    PIECE_TO_CHAR[pc]
  }

  /** file::make: `sq & 7`. */
  function FileOf(sq: Byte): int {
    sq % 8
  }

  /** rank::make: `sq >> 3`. */
  function RankOf(sq: Byte): int {
    sq / 8
  }

  /** file::fromChar: `c - 'a'` narrowed to a byte. */
  function FileFromChar(ch: char): Byte {
    U8(CharCode(ch) - 97)
  }

  /** rank::fromChar: `c - '1'` narrowed to a byte. */
  function RankFromChar(ch: char): Byte {
    U8(CharCode(ch) - 49)
  }

  const FILE_CHARS: string := "abcdefgh"
  const RANK_CHARS: string := "12345678"

  /** square::make(file, rank): `(rank << 3) + file` narrowed to a byte. */
  function MakeSquare(f: int, r: int): Byte {
    U8(r * 8 + f)
  }

  /** square::make on the first two characters of a text. */
  function SquareFromText(sv: string): Byte
    requires |sv| >= 2
  {
    MakeSquare(I8(CharCode(sv[0]) - 97), I8(CharCode(sv[1]) - 49))
  }

  /** square::toString */
  function SquareName(sq: Square): string {
    [FILE_CHARS[FileOf(sq)], RANK_CHARS[RankOf(sq)]]
  }

  /** square::isValid */
  predicate IsValidSquare(sq: Byte) {
    sq <= 63
  }

  function Abs(x: int): nat {
    if x < 0 then -x else x
  }

  /** square::distance: the larger of the file and rank differences. */
  function Distance(s1: Byte, s2: Byte): Byte {
    var df := Abs(FileOf(s1) - FileOf(s2));
    var dr := Abs(RankOf(s1) - RankOf(s2));
    U8(if df < dr then dr else df)
  }

  /** square::relative: `sq ^ A8` for BLACK, which flips bits 3..5 (the rank). */
  function Relative(c: Color, sq: Byte): Byte {
    if c then sq + 56 - 16 * (sq / 8 % 8) else sq
  }

  /** direction::pawnPush */
  function PawnPush(c: Color): int {
    if c then SOUTH else NORTH
  }

  // ---------------------------------------------------------------------
  // Properties
  // ---------------------------------------------------------------------

  lemma MakePieceUnpacks(c: Color, pt: PieceType)
    requires pt < 8
    ensures ColorOf(MakePiece(c, pt)) == c && TypeOf(MakePiece(c, pt)) == pt
  {}

  lemma PieceCodes(pc: Piece)
    ensures IsPiece(pc) <==> pc == MakePiece(ColorOf(pc), TypeOf(pc)) && PAWN <= TypeOf(pc) <= KING
  {}

  lemma PieceToCharLetters(pt: PieceType)
    requires PAWN <= pt <= KING
    ensures PieceToChar(MakePiece(WHITE, pt)) == "PNBRQK"[pt - 1]
    ensures PieceToChar(MakePiece(BLACK, pt)) == "pnbrqk"[pt - 1]
  {}

  lemma SquareFromFileRank(s: Square)
    ensures MakeSquare(FileOf(s), RankOf(s)) == s
  {}

  lemma FileRankFromSquare(f: int, r: int)
    requires 0 <= f < 8 && 0 <= r < 8
    ensures MakeSquare(f, r) < 64
    ensures FileOf(MakeSquare(f, r)) == f && RankOf(MakeSquare(f, r)) == r
  {}

  lemma RelativeFlipsRank(s: Square)
    ensures Relative(BLACK, s) < 64
    ensures FileOf(Relative(BLACK, s)) == FileOf(s)
    ensures RankOf(Relative(BLACK, s)) == 7 - RankOf(s)
    ensures Relative(BLACK, Relative(BLACK, s)) == s
    ensures Relative(WHITE, s) == s
  {}

  lemma DistanceMetric(s1: Square, s2: Square)
    ensures Distance(s1, s2) == Distance(s2, s1)
    ensures Distance(s1, s2) == 0 <==> s1 == s2
    ensures Distance(s1, s2) <= 7
  {
    var df, dr := Abs(FileOf(s1) - FileOf(s2)), Abs(RankOf(s1) - RankOf(s2));
    assert df <= 7 && dr <= 7;
    U8Fits(if df < dr then dr else df);
    assert Abs(FileOf(s2) - FileOf(s1)) == df && Abs(RankOf(s2) - RankOf(s1)) == dr;
    SquareFromFileRank(s1);
    SquareFromFileRank(s2);
  }

  lemma NoSquareIsA1()
    ensures NO_SQUARE == A1 && A1 == MakeSquare(0, 0)
  {}

  lemma U8Fits(x: int)
    requires 0 <= x < 256
    ensures U8(x) == x
  {}

  lemma U16Fits(x: int)
    requires 0 <= x < 65536
    ensures U16(x) == x
  {}

  lemma I8Fits(x: int)
    requires -128 <= x < 128
    ensures I8(x) == x
  {}

  lemma FileCharValue(f: int)
    requires 0 <= f < 8
    ensures FILE_CHARS[f] as int == 97 + f
  {
    if f < 4 {
      if f == 0 {} else if f == 1 {} else if f == 2 {} else {}
    } else {
      if f == 4 {} else if f == 5 {} else if f == 6 {} else {}
    }
  }

  lemma RankCharValue(r: int)
    requires 0 <= r < 8
    ensures RANK_CHARS[r] as int == 49 + r
  {
    if r < 4 {
      if r == 0 {} else if r == 1 {} else if r == 2 {} else {}
    } else {
      if r == 4 {} else if r == 5 {} else if r == 6 {} else {}
    }
  }

  lemma FileCharRoundTrip(f: int)
    requires 0 <= f < 8
    ensures FileFromChar(FILE_CHARS[f]) == f
  {
    FileCharValue(f);
    I8Fits(97 + f);
  }

  lemma RankCharRoundTrip(r: int)
    requires 0 <= r < 8
    ensures RankFromChar(RANK_CHARS[r]) == r
  {
    RankCharValue(r);
    I8Fits(49 + r);
  }

  /** On a letter and a digit, square::make computes `8 * rank + file`. */
  lemma SquareFromLetters(sv: string)
    requires |sv| >= 2 && 'a' <= sv[0] <= 'h' && '1' <= sv[1] <= '8'
    ensures SquareFromText(sv) == 8 * (sv[1] as int - 49) + (sv[0] as int - 97)
  {
    var f := sv[0] as int - 97;
    var r := sv[1] as int - 49;
    I8Fits(sv[0] as int);
    I8Fits(sv[1] as int);
    I8Fits(f);
    I8Fits(r);
    U8Fits(r * 8 + f);
  }

  lemma SquareNameRoundTrip(s: Square)
    ensures SquareFromText(SquareName(s)) == s
  {
    var f, r := FileOf(s), RankOf(s);
    FileCharValue(f);
    RankCharValue(r);
    SquareFromLetters(SquareName(s));
  }

  lemma SquareTextRoundTrip(sv: string)
    requires |sv| == 2 && 'a' <= sv[0] <= 'h' && '1' <= sv[1] <= '8'
    ensures SquareFromText(sv) < 64 && SquareName(SquareFromText(sv)) == sv
  {
    SquareFromLetters(sv);
    var s := SquareFromText(sv);
    FileCharValue(s % 8);
    RankCharValue(s / 8);
    assert SquareName(s) == [sv[0], sv[1]];
  }

  lemma PawnPushValues()
    ensures PawnPush(WHITE) == NORTH == 8 && PawnPush(BLACK) == SOUTH == -8
  {}
}
