// Properties of the FEN parser and printer: `fen()` followed by the
// constructor gives back the position, field by field, and the en-passant
// branch as written cannot read back any square fen() prints.

module FenRoundTrip {
  import opened Bits
  import opened Definitions
  import opened Bitboards
  import opened Wrappers
  import opened PgnPosition
  import opened PgnFen

  // ---------------------------------------------------------------------
  // Numbers
  // ---------------------------------------------------------------------

  lemma {:induction false} DecimalValue(n: nat)
    ensures DigitsValue(Decimal(n)) == n
  {
    var d := Decimal(n);
    if n >= 10 {
      assert d[..|d| - 1] == Decimal(n / 10);
      DecimalValue(n / 10);
    }
  }

  lemma {:induction false} DecimalLength(n: nat, k: nat)
    requires 1 <= k && n < Pow10(k)
    ensures |Decimal(n)| <= k
  {
    if n >= 10 {
      assert Pow10(1) == 10;
      DecimalLength(n / 10, k - 1);
    }
  }

  function Pow10(k: nat): nat {
    if k == 0 then 1 else 10 * Pow10(k - 1)
  }

  lemma {:induction false} DigitRunExact(s: string, i: nat, k: nat)
    requires i + k <= |s| && AllDigits(s[i..i + k])
    requires i + k == |s| || !IsDigit(s[i + k])
    ensures DigitRun(s, i) == k
    decreases k
  {
    if k > 0 {
      assert IsDigit(s[i..i + k][0]);
      assert s[i + 1..i + k] == s[i..i + k][1..];
      DigitRunExact(s, i + 1, k - 1);
    }
  }

  /** std::stoi reads back a printed number that is followed by a non-digit or the end. */
  lemma StoiDecimal(s: string, n: nat)
    requires n <= INT_MAX
    requires |Decimal(n)| <= |s| && s[..|Decimal(n)|] == Decimal(n)
    requires |s| == |Decimal(n)| || !IsDigit(s[|Decimal(n)|])
    ensures Stoi(s) == Some(n)
  {
    var d := Decimal(n);
    assert IsDigit(s[0]) by {
      assert s[0] == d[0];
    }
    assert SkipSpaces(s, 0) == 0;
    assert s[0..|d|] == d;
    DigitRunExact(s, 0, |d|);
    DecimalValue(n);
  }

  lemma {:induction false} FindFirstAt(s: string, ch: char, i: nat, j: nat)
    requires i <= j < |s| && s[j] == ch
    requires forall k :: i <= k < j ==> s[k] != ch
    ensures FindFirst(s, ch, i) == j
    decreases j - i
  {
    if i < j {
      FindFirstAt(s, ch, i + 1, j);
    }
  }

  lemma {:induction false} FindFirstNone(s: string, ch: char, i: nat)
    requires i <= |s|
    requires forall k :: i <= k < |s| ==> s[k] != ch
    ensures FindFirst(s, ch, i) == NPOS
    decreases |s| - i
  {
    if i < |s| {
      FindFirstNone(s, ch, i + 1);
    }
  }

  // ---------------------------------------------------------------------
  // Table entries of the characters fen() prints
  // ---------------------------------------------------------------------

  lemma PieceCharEntry(pc: Piece)
    requires IsPiece(pc)
    ensures InTable(PieceToChar(pc)) && FenTable(PieceToChar(pc)) == FenTableEntry(true, pc, EAST)
    ensures PieceToChar(pc) != ' ' && PieceToChar(pc) != '/'
  {
    if pc <= 6 {
      if pc == 1 {} else if pc == 2 {} else if pc == 3 {} else if pc == 4 {} else if pc == 5 {} else {}
    } else {
      if pc == 9 {} else if pc == 10 {} else if pc == 11 {} else if pc == 12 {} else if pc == 13 {} else {}
    }
  }

  lemma DigitEntry(e: nat)
    requires 1 <= e <= 8
    ensures Decimal(e) == [DigitChar(e)]
    ensures InTable(DigitChar(e)) && FenTable(DigitChar(e)) == FenTableEntry(false, NO_PIECE, e)
  {}

  // ---------------------------------------------------------------------
  // Piece placement
  // ---------------------------------------------------------------------

  /** The state after setting, file by file, the pieces `b` has on files `0..f-1` of rank `r`. */
  function Fill(st: State, b: seq<Piece>, r: int, f: int): State
    requires Cells(b) && 0 <= r < 8 && 0 <= f <= 8
  {
    if f == 0 then st
    else
      var s := Fill(st, b, r, f - 1);
      assert CellOk(b, 8 * r + f - 1);
      if b[8 * r + f - 1] != NO_PIECE then SetPiece(s, 8 * r + f - 1, b[8 * r + f - 1]) else s
  }

  /** Two positions agree on every field but the board and its bitboards. */
  predicate SameScalars(a: State, b: State) {
    a.stm == b.stm && a.castling == b.castling && a.ep == b.ep && a.rule50 == b.rule50 && a.ply == b.ply
  }

  /** Setting pieces on empty squares keeps the board consistent and copies them in. */
  lemma {:induction false} FillFacts(st: State, b: seq<Piece>, r: int, f: int)
    requires Cells(b) && 0 <= r < 8 && 0 <= f <= 8
    requires Consistent(st) && forall j :: 8 * r <= j < 8 * r + f ==> st.board[j] == NO_PIECE
    ensures Consistent(Fill(st, b, r, f))
    ensures forall j :: 0 <= j < 64 ==> Fill(st, b, r, f).board[j] == if 8 * r <= j < 8 * r + f then b[j] else st.board[j]
    ensures SameScalars(Fill(st, b, r, f), st)
  {
    if f > 0 {
      FillFacts(st, b, r, f - 1);
      var s := Fill(st, b, r, f - 1);
      var sq := 8 * r + f - 1;
      assert CellOk(b, sq);
      if b[sq] != NO_PIECE {
        assert Fill(st, b, r, f) == SetPiece(s, sq, b[sq]);
        SetPieceConsistent(s, sq, b[sq]);
      } else {
        assert Fill(st, b, r, f) == s;
      }
    }
  }

  /** Splitting a slice of `fen` that spells `s + t`. */
  lemma SliceSplit(fen: string, i: nat, s: string, t: string)
    requires i + |s + t| <= |fen| && fen[i..i + |s + t|] == s + t
    ensures fen[i..i + |s|] == s && fen[i + |s|..i + |s| + |t|] == t
  {
    assert fen[i..i + |s|] == (s + t)[..|s|];
    assert fen[i + |s|..i + |s| + |t|] == (s + t)[|s|..];
  }

  /** One digit of the placement field skips that many squares. */
  lemma SkipStep(fen: string, idx: nat, sq: Byte, st: State, e: nat)
    requires 1 <= e <= 8 && sq + e < 256 && idx < |fen| && fen[idx] == DigitChar(e)
    ensures PlacementLoop(fen, idx, sq, st) == PlacementLoop(fen, idx + 1, sq + e, st)
  {
    DigitEntry(e);
  }

  /** One piece letter of the placement field sets that piece and moves one square east. */
  lemma PieceStep(fen: string, idx: nat, sq: Byte, st: State, pc: Piece)
    requires IsPiece(pc) && sq < 64 && idx < |fen| && fen[idx] == PieceToChar(pc)
    ensures PlacementLoop(fen, idx, sq, st) == PlacementLoop(fen, idx + 1, sq + 1, SetPiece(st, sq, pc))
  {
    PieceCharEntry(pc);
  }

  /** A '/' of the placement field moves from one past the end of a rank to the start of the next lower one. */
  lemma SlashStep(fen: string, idx: nat, sq: Byte, sq1: Byte, st: State)
    requires 16 <= sq && sq1 == sq - 16 && idx < |fen| && fen[idx] == '/'
    ensures PlacementLoop(fen, idx, sq, st) == PlacementLoop(fen, idx + 1, sq1, st)
  {
  }

  /** What fen() appends to a rank's text for file `f - 1`. */
  function RankChunk(b: seq<Piece>, r: int, f: int): string
    requires Cells(b) && 0 <= r < 8 && 1 <= f <= 8
  {
    var pc := b[8 * r + f - 1];
    assert CellOk(b, 8 * r + f - 1);
    if pc != NO_PIECE then EmptyText(EmptyRun(b, r, f - 1)) + [PieceToChar(pc)] else ""
  }

  /** The placement loop reads the chunk of file `f - 1`, from index `i` to index `j`. */
  lemma RankChunkParse(fen: string, i: nat, j: nat, b: seq<Piece>, r: int, f: int, sq0: Byte, sq1: Byte, st0: State)
    requires Cells(b) && 0 <= r < 8 && 1 <= f <= 8
    requires j == i + |RankChunk(b, r, f)| <= |fen| && fen[i..j] == RankChunk(b, r, f)
    requires sq0 == 8 * r + (f - 1) - EmptyRun(b, r, f - 1) && sq1 == 8 * r + f - EmptyRun(b, r, f)
    ensures PlacementLoop(fen, i, sq0, Fill(st0, b, r, f - 1)) == PlacementLoop(fen, j, sq1, Fill(st0, b, r, f))
  {
    var pc := b[8 * r + f - 1];
    assert CellOk(b, 8 * r + f - 1);
    var e := EmptyRun(b, r, f - 1);
    var S0 := Fill(st0, b, r, f - 1);
    if pc != NO_PIECE {
      var chunk := RankChunk(b, r, f);
      if e > 0 {
        DigitEntry(e);
        assert fen[i] == chunk[0];
        SkipStep(fen, i, sq0, S0, e);
      }
      var i2 := i + |EmptyText(e)|;
      assert fen[i2] == chunk[|EmptyText(e)|];
      PieceStep(fen, i2, 8 * r + f - 1, S0, pc);
    }
  }

  /** The text of files `0..f-1` is that of files `0..f-2` followed by the chunk of file `f - 1`. */
  lemma RankPrefixSplit(fen: string, idx0: nat, b: seq<Piece>, r: int, f: int)
    requires Cells(b) && 0 <= r < 8 && 1 <= f <= 8
    requires idx0 + |RankPrefix(b, r, f)| <= |fen|
    requires fen[idx0..idx0 + |RankPrefix(b, r, f)|] == RankPrefix(b, r, f)
    ensures idx0 + |RankPrefix(b, r, f - 1)| + |RankChunk(b, r, f)| == idx0 + |RankPrefix(b, r, f)|
    ensures fen[idx0..idx0 + |RankPrefix(b, r, f - 1)|] == RankPrefix(b, r, f - 1)
    ensures fen[idx0 + |RankPrefix(b, r, f - 1)|..idx0 + |RankPrefix(b, r, f)|] == RankChunk(b, r, f)
  {
    var pre, chunk := RankPrefix(b, r, f - 1), RankChunk(b, r, f);
    assert RankPrefix(b, r, f) == pre + chunk by { RankPrefixStep(b, r, f); }
    SliceSplit(fen, idx0, pre, chunk);
  }

  lemma RankPrefixStep(b: seq<Piece>, r: int, f: int)
    requires Cells(b) && 0 <= r < 8 && 1 <= f <= 8
    ensures RankPrefix(b, r, f) == RankPrefix(b, r, f - 1) + RankChunk(b, r, f)
  {
  }

  /** The placement loop reads the text fen() prints for files `0..f-1` of rank `r`, ending at index `j` and square `sq`. */
  lemma {:induction false} RankPrefixParse(fen: string, idx0: nat, j: nat, sq: Byte, b: seq<Piece>, r: int, f: int, st0: State)
    requires Cells(b) && 0 <= r < 8 && 0 <= f <= 8
    requires j == idx0 + |RankPrefix(b, r, f)| <= |fen| && fen[idx0..j] == RankPrefix(b, r, f)
    requires sq == 8 * r + f - EmptyRun(b, r, f)
    ensures PlacementLoop(fen, idx0, 8 * r, st0) == PlacementLoop(fen, j, sq, Fill(st0, b, r, f))
    decreases f
  {
    if f > 0 {
      RankPrefixSplit(fen, idx0, b, r, f);
      var i1 := idx0 + |RankPrefix(b, r, f - 1)|;
      var sq1 := 8 * r + (f - 1) - EmptyRun(b, r, f - 1);
      RankPrefixParse(fen, idx0, i1, sq1, b, r, f - 1, st0);
      RankChunkParse(fen, i1, j, b, r, f, sq1, sq, st0);
    } else {
      assert j == idx0 && sq == 8 * r;
      assert Fill(st0, b, r, f) == st0;
    }
  }

  /** The placement loop reads a whole rank of fen()'s text, from square `sq0` and index `idx0` to square `sq1` and index `j`. */
  lemma RankParse(fen: string, idx0: nat, j: nat, sq0: Byte, sq1: Byte, b: seq<Piece>, r: int, st0: State)
    requires Cells(b) && 0 <= r < 8 && sq0 == 8 * r && sq1 == 8 * r + 8
    requires j == idx0 + |RankText(b, r)| <= |fen| && fen[idx0..j] == RankText(b, r)
    ensures PlacementLoop(fen, idx0, sq0, st0) == PlacementLoop(fen, j, sq1, Fill(st0, b, r, 8))
  {
    var pre := RankPrefix(b, r, 8);
    var e := EmptyRun(b, r, 8);
    SliceSplit(fen, idx0, pre, EmptyText(e));
    var i1 := idx0 + |pre|;
    RankPrefixParse(fen, idx0, i1, 8 * r + 8 - e, b, r, 8, st0);
    if e > 0 {
      DigitEntry(e);
      assert fen[i1] == EmptyText(e)[0];
      SkipStep(fen, i1, 8 * r + 8 - e, Fill(st0, b, r, 8), e);
    }
  }

  /** The position built from the top `k` ranks of `b`. */
  function FillTop(b: seq<Piece>, k: int): State
    requires Cells(b) && 0 <= k <= 8
  {
    if k == 0 then Cleared() else Fill(FillTop(b, k - 1), b, 8 - k, 8)
  }

  lemma {:induction false} FillTopFacts(b: seq<Piece>, k: int)
    requires Cells(b) && 0 <= k <= 8
    ensures Consistent(FillTop(b, k))
    ensures forall j :: 0 <= j < 64 ==> FillTop(b, k).board[j] == if j >= 8 * (8 - k) then b[j] else NO_PIECE
    ensures SameScalars(FillTop(b, k), Cleared())
  {
    if k == 0 {
      ClearedConsistent();
    } else {
      FillTopFacts(b, k - 1);
      FillFacts(FillTop(b, k - 1), b, 8 - k, 8);
      assert FillTop(b, k) == Fill(FillTop(b, k - 1), b, 8 - k, 8);
    }
  }

  /** The text of the top `k` ranks is that of the top `k - 1`, rank `8 - k` and, but for rank 1, a '/'. */
  lemma PlacementSplit(fen: string, i1: nat, i2: nat, j: nat, b: seq<Piece>, k: int)
    requires Cells(b) && 1 <= k <= 8
    requires j == |PlacementText(b, k)| <= |fen| && fen[..j] == PlacementText(b, k)
    requires i1 == |PlacementText(b, k - 1)| && i2 == i1 + |RankText(b, 8 - k)|
    ensures fen[..i1] == PlacementText(b, k - 1)
    ensures i2 <= j && fen[i1..i2] == RankText(b, 8 - k)
    ensures if k < 8 then j == i2 + 1 && fen[i2] == '/' else j == i2
  {
    var pre := PlacementText(b, k - 1);
    var rank := RankText(b, 8 - k);
    var sep := if 8 - k != 0 then "/" else "";
    assert PlacementText(b, k) == pre + (rank + sep);
    assert fen[0..j] == fen[..j];
    SliceSplit(fen, 0, pre, rank + sep);
    assert fen[..|pre|] == fen[0..|pre|];
    SliceSplit(fen, |pre|, rank, sep);
    if k < 8 {
      assert fen[|pre| + |rank|] == sep[0];
    }
  }

  /** The placement loop reads rank `8 - k` and the '/' after it. */
  lemma PlacementRankStep(fen: string, i1: nat, j: nat, sq1: Byte, sq: Byte, b: seq<Piece>, k: int)
    requires Cells(b) && 1 <= k <= 8
    requires j == |PlacementText(b, k)| <= |fen| && fen[..j] == PlacementText(b, k)
    requires i1 == |PlacementText(b, k - 1)| && sq1 == 64 - 8 * k && sq == if k == 8 then 8 else 56 - 8 * k
    ensures PlacementLoop(fen, i1, sq1, FillTop(b, k - 1)) == PlacementLoop(fen, j, sq, FillTop(b, k))
  {
    var i2 := i1 + |RankText(b, 8 - k)|;
    PlacementSplit(fen, i1, i2, j, b, k);
    var S := FillTop(b, k);
    assert S == Fill(FillTop(b, k - 1), b, 8 - k, 8);
    RankParse(fen, i1, i2, sq1, sq1 + 8, b, 8 - k, FillTop(b, k - 1));
    if k < 8 {
      SlashStep(fen, i2, sq1 + 8, sq, S);
      assert i2 + 1 == j;
    } else {
      assert i2 == j && sq1 + 8 == sq;
    }
  }

  /** The placement loop reads the top `k` ranks of fen()'s text, ending at index `j` and square `sq`. */
  lemma {:induction false} PlacementPrefixParse(fen: string, j: nat, sq: Byte, b: seq<Piece>, k: int)
    requires Cells(b) && 0 <= k <= 8
    requires j == |PlacementText(b, k)| <= |fen| && fen[..j] == PlacementText(b, k)
    requires sq == if k == 8 then 8 else 56 - 8 * k
    ensures PlacementLoop(fen, 0, A8, Cleared()) == PlacementLoop(fen, j, sq, FillTop(b, k))
  {
    if k > 0 {
      var i1 := |PlacementText(b, k - 1)|;
      PlacementSplit(fen, i1, i1 + |RankText(b, 8 - k)|, j, b, k);
      PlacementPrefixParse(fen, i1, 64 - 8 * k, b, k - 1);
      PlacementRankStep(fen, i1, j, 64 - 8 * k, sq, b, k);
    } else {
      assert j == 0 && sq == A8 && FillTop(b, k) == Cleared();
    }
  }

  /** The placement loop reads the whole placement field fen() prints. */
  lemma PlacementRoundTrip(fen: string, b: seq<Piece>)
    requires Cells(b)
    requires |PlacementText(b, 8)| < |fen| && fen[..|PlacementText(b, 8)|] == PlacementText(b, 8)
    requires fen[|PlacementText(b, 8)|] == ' '
    ensures PlacementLoop(fen, 0, A8, Cleared()) == Some((|PlacementText(b, 8)|, FillTop(b, 8)))
    ensures Consistent(FillTop(b, 8)) && FillTop(b, 8).board == b
  {
    PlacementPrefixParse(fen, |PlacementText(b, 8)|, 8, b, 8);
    FillTopFacts(b, 8);
    assert FillTop(b, 8).board == b;
  }

  // ---------------------------------------------------------------------
  // Castling field
  // ---------------------------------------------------------------------

  /** `data |= flag` when the right is `held`. */
  function AddIf(data: Byte, held: bool, flag: Byte): Byte {
    if held then AddCastling(data, flag) else data
  }

  /** What the castling loop collects from the letters fen() prints, K, Q, k, q in turn. */
  function CastlingCollected(p: State): Byte {
    var d1 := AddIf(NO_CASTLING, CanCastle(p, WHITE_KING_SIDE), WHITE_KING_SIDE);
    var d2 := AddIf(d1, CanCastle(p, WHITE_QUEEN_SIDE), WHITE_QUEEN_SIDE);
    var d3 := AddIf(d2, CanCastle(p, BLACK_KING_SIDE), BLACK_KING_SIDE);
    AddIf(d3, CanCastle(p, BLACK_QUEEN_SIDE), BLACK_QUEEN_SIDE)
  }

  lemma AddIfBits(data: Byte, held: bool, n: nat, flag: Byte, k: nat)
    requires flag == Pow2(n)
    ensures IsSet(AddIf(data, held, flag), k) == (IsSet(data, k) || (held && k == n))
  {
    if held {
      OrBits(data, flag, k);
      Pow2Bits(n, k);
    }
  }

  lemma CastlingCollectedBit(p: State, k: nat)
    ensures IsSet(CastlingCollected(p), k) == (k < 4 && IsSet(p.castling, k))
  {
    assert Pow2(0) == 1 && Pow2(1) == 2 && Pow2(2) == 4 && Pow2(3) == 8;
    var d1 := AddIf(NO_CASTLING, CanCastle(p, WHITE_KING_SIDE), WHITE_KING_SIDE);
    var d2 := AddIf(d1, CanCastle(p, WHITE_QUEEN_SIDE), WHITE_QUEEN_SIDE);
    var d3 := AddIf(d2, CanCastle(p, BLACK_KING_SIDE), BLACK_KING_SIDE);
    AddIfBits(NO_CASTLING, CanCastle(p, WHITE_KING_SIDE), 1, WHITE_KING_SIDE, k);
    AddIfBits(d1, CanCastle(p, WHITE_QUEEN_SIDE), 0, WHITE_QUEEN_SIDE, k);
    AddIfBits(d2, CanCastle(p, BLACK_KING_SIDE), 3, BLACK_KING_SIDE, k);
    AddIfBits(d3, CanCastle(p, BLACK_QUEEN_SIDE), 2, BLACK_QUEEN_SIDE, k);
    ZeroClear(k);
    CanCastleBit(p, 0);
    CanCastleBit(p, 1);
    CanCastleBit(p, 2);
    CanCastleBit(p, 3);
  }

  /** The letters fen() prints give back every right held whenever no bit beyond the four rights is set. */
  lemma CastlingCollectedRights(p: State)
    requires p.castling < 16
    ensures CastlingCollected(p) == p.castling
  {
    assert Pow2(4) == 16 && Pow2(8) == 256;
    forall k: nat | k < 8
      ensures IsSet(CastlingCollected(p), k) == IsSet(p.castling, k)
    {
      CastlingCollectedBit(p, k);
      if k >= 4 {
        HighClear(p.castling, 4, k);
      }
    }
    Extensionality(CastlingCollected(p), p.castling, 8);
  }

  /** One optional letter of the castling field. */
  lemma CastlingLetter(fen: string, idx: nat, next: nat, data: Byte, data1: Byte, held: bool, ch: char, flag: Byte)
    requires (ch == 'K' && flag == WHITE_KING_SIDE) || (ch == 'Q' && flag == WHITE_QUEEN_SIDE) ||
             (ch == 'k' && flag == BLACK_KING_SIDE) || (ch == 'q' && flag == BLACK_QUEEN_SIDE)
    requires held ==> idx < |fen| && fen[idx] == ch
    requires next == (if held then idx + 1 else idx) && data1 == AddIf(data, held, flag)
    ensures CastlingLoop(fen, idx, data) == CastlingLoop(fen, next, data1)
  {
  }

  /** The castling loop reads fen()'s castling field, from `i0` to the blank at `j`. */
  lemma CastlingParse(fen: string, i0: nat, j: nat, p: State)
    requires j == i0 + |CastlingText(p)| < |fen| && fen[i0..j] == CastlingText(p) && fen[j] == ' '
    ensures CastlingLoop(fen, i0, NO_CASTLING) == (j, CastlingCollected(p))
  {
    var t := CastlingText(p);
    var hK, hQ, hk, hq := CanCastle(p, WHITE_KING_SIDE), CanCastle(p, WHITE_QUEEN_SIDE),
      CanCastle(p, BLACK_KING_SIDE), CanCastle(p, BLACK_QUEEN_SIDE);
    var a, b, c, d, e := (if hK then "K" else ""), (if hQ then "Q" else ""), (if hk then "k" else ""),
      (if hq then "q" else ""), (if !CanCastleAny(p) then "-" else "");
    assert t == a + b + c + d + e;
    var i1 := i0 + |a|;
    var i2 := i1 + |b|;
    var i3 := i2 + |c|;
    var i4 := i3 + |d|;
    assert hK ==> fen[i0] == t[0];
    assert hQ ==> fen[i1] == t[|a|];
    assert hk ==> fen[i2] == t[|a| + |b|];
    assert hq ==> fen[i3] == t[|a| + |b| + |c|];
    var d1 := AddIf(NO_CASTLING, hK, WHITE_KING_SIDE);
    var d2 := AddIf(d1, hQ, WHITE_QUEEN_SIDE);
    var d3 := AddIf(d2, hk, BLACK_KING_SIDE);
    var d4 := AddIf(d3, hq, BLACK_QUEEN_SIDE);
    CastlingLetter(fen, i0, i1, NO_CASTLING, d1, hK, 'K', WHITE_KING_SIDE);
    CastlingLetter(fen, i1, i2, d1, d2, hQ, 'Q', WHITE_QUEEN_SIDE);
    CastlingLetter(fen, i2, i3, d2, d3, hk, 'k', BLACK_KING_SIDE);
    CastlingLetter(fen, i3, i4, d3, d4, hq, 'q', BLACK_QUEEN_SIDE);
    if !CanCastleAny(p) {
      assert fen[i4] == t[|a| + |b| + |c| + |d|];
      assert i4 + 1 == j;
      assert CastlingLoop(fen, i4, d4) == CastlingLoop(fen, j, d4);
    } else {
      assert i4 == j;
    }
    assert CastlingLoop(fen, j, d4) == (j, d4);
  }

  // ---------------------------------------------------------------------
  // En-passant and clock fields
  // ---------------------------------------------------------------------

  /** square::make(file::fromChar, rank::fromChar) reads back square::toString. */
  lemma SquareOfName(s: Square)
    ensures SquareOf(SquareName(s)[0], SquareName(s)[1]) == s
  {
    FileCharRoundTrip(s % 8);
    RankCharRoundTrip(s / 8);
    I8Fits(s % 8);
    I8Fits(s / 8);
    U8Fits(s / 8 * 8 + s % 8);
  }

  /** The intended en-passant decode reads fen()'s en-passant field, which ends before `end`,
      leaving the cursor at `next`. */
  lemma EpParse(fen: string, i: nat, end: nat, next: nat, st: State, ep: Square, st1: State)
    requires st.ep == NO_SQUARE && st1 == st.(ep := ep)
    requires end == i + |EpText(ep)| && next == end + 1 < 65536 && next <= |fen| && fen[i..end] == EpText(ep)
    ensures EpField(fen, i, st) == Some((next, st1))
  {
    assert fen[i] == EpText(ep)[0];
    if ep != NO_SQUARE {
      assert fen[i + 1] == EpText(ep)[1];
      SquareOfName(ep);
    }
    U16Fits(next);
  }

  /** The number field std::stoi reads from `i` up to the blank at `q`. */
  lemma NumberBeforeBlank(fen: string, i: nat, q: nat, last: nat, n: nat)
    requires 0 < i && n <= INT_MAX && q == i + |Decimal(n)| < |fen| && q < 65536 && last + 1 == q
    requires fen[i..q] == Decimal(n) && fen[q] == ' '
    ensures fen[i] != '-' && NumberField(fen, i) == Some((n, last))
  {
    var d := Decimal(n);
    assert fen[i] == d[0];
    forall k | i <= k < q
      ensures fen[k] != ' '
    {
      assert fen[k] == d[k - i];
    }
    FindFirstAt(fen, ' ', i, q);
    var s := Substr(fen, i, q);
    assert s[..|d|] == d;
    assert s[|d|] == fen[q];
    StoiDecimal(s, n);
    U16Fits(last);
  }

  /** The number field std::stoi reads from `i` to the end of the text. */
  lemma NumberAtEnd(fen: string, i: nat, n: nat)
    requires n <= INT_MAX && i < |fen| < 65536 && fen[i..] == Decimal(n)
    ensures fen[i] != '-' && NumberField(fen, i).Some? && NumberField(fen, i).value.0 == n
  {
    var d := Decimal(n);
    assert fen[i] == d[0];
    forall k | i <= k < |fen|
      ensures fen[k] != ' '
    {
      assert fen[k] == d[k - i];
    }
    FindFirstNone(fen, ' ', i);
    assert Substr(fen, i, NPOS) == d;
    StoiDecimal(d, n);
  }

  /** The half-move clock field holding `n` sets the clock to `n`. */
  lemma Rule50Parse(fen: string, i: nat, next: nat, st: State, n: Byte, st1: State)
    requires i < |fen| && fen[i] != '-' && NumberField(fen, i) == Some((n, next))
    requires st1 == st.(rule50 := n)
    ensures Rule50Field(fen, i, st) == Some((next, st1))
  {
    U8Fits(n);
  }

  /** The move-number field holding `n` sets the ply to `w == 2 * (n - 1) + stm`. */
  lemma MoveParse(fen: string, i: nat, st: State, n: nat, w: nat, st1: State)
    requires i < |fen| && fen[i] != '-' && NumberField(fen, i).Some? && NumberField(fen, i).value.0 == n
    requires 1 <= n && w == 2 * (n - 1) + ColorIndex(st.stm) < 65536 && st1 == st.(ply := w)
    ensures MoveField(fen, i, st) == Some(st1)
  {
    U16Fits(w);
  }

  /** The move number fen() prints gives back the ply through `2 * (numeric - 1) + stm`. */
  lemma MoveNumberPly(p: State)
    requires p.ply % 2 == ColorIndex(p.stm)
    ensures 2 * (MoveNumber(p) - 1) + ColorIndex(p.stm) == p.ply
    ensures MoveNumber(p) <= 32768
  {
  }

  // ---------------------------------------------------------------------
  // Lengths and layout of fen()'s text
  // ---------------------------------------------------------------------

  lemma EmptyTextLength(n: nat)
    requires n < 10
    ensures |EmptyText(n)| == if n == 0 then 0 else 1
  {
  }

  /** A rank prefix prints at most one character per file, and at least one for a non-empty prefix. */
  lemma {:induction false} RankPrefixLength(b: seq<Piece>, r: int, f: int)
    requires Cells(b) && 0 <= r < 8 && 0 <= f <= 8
    ensures |RankPrefix(b, r, f)| + |EmptyText(EmptyRun(b, r, f))| <= f
    ensures f > 0 ==> 1 <= |RankPrefix(b, r, f)| + |EmptyText(EmptyRun(b, r, f))|
  {
    if f > 0 {
      RankPrefixLength(b, r, f - 1);
      EmptyTextLength(EmptyRun(b, r, f - 1));
      EmptyTextLength(EmptyRun(b, r, f));
      assert RankPrefix(b, r, f) == RankPrefix(b, r, f - 1) + RankChunk(b, r, f);
    }
  }

  lemma RankTextLength(b: seq<Piece>, r: int)
    requires Cells(b) && 0 <= r < 8
    ensures 1 <= |RankText(b, r)| <= 8
  {
    RankPrefixLength(b, r, 8);
  }

  lemma {:induction false} PlacementTextLength(b: seq<Piece>, k: int)
    requires Cells(b) && 0 <= k <= 8
    ensures k <= |PlacementText(b, k)| <= 9 * k
  {
    if k > 0 {
      PlacementTextLength(b, k - 1);
      RankTextLength(b, 8 - k);
    }
  }

  lemma CastlingTextLength(p: State)
    ensures |CastlingText(p)| <= 5
  {
  }

  /** Where each field of a text of six blank-separated fields starts and ends. */
  lemma FieldLayout(fen: string, P: string, s: char, C: string, E: string, R: string, M: string,
                    nP: nat, c: nat, e: nat, q: nat)
    requires fen == P + " " + [s] + " " + C + " " + E + " " + R + " " + M
    requires nP == |P| && c == nP + 3 + |C| && e == c + 1 + |E| && q == e + 1 + |R|
    ensures |fen| == q + 1 + |M|
    ensures fen[..nP] == P && fen[nP] == ' ' && fen[nP + 1] == s && fen[nP + 2] == ' '
    ensures fen[nP + 3..c] == C && fen[c] == ' '
    ensures fen[c + 1..e] == E && fen[e] == ' '
    ensures fen[e + 1..q] == R && fen[q] == ' '
    ensures fen[q + 1..] == M
  {
    var a4 := P + " " + [s] + " ";
    var a6 := a4 + C + " ";
    var a8 := a6 + E + " ";
    var a10 := a8 + R + " ";
    assert fen == a10 + M;
    assert fen[..|a10|] == a10;
    assert a10[..|a8|] == a8;
    assert a8[..|a6|] == a6;
    assert a6[..|a4|] == a4;
    assert fen[..|P|] == a4[..|P|];
    assert fen[|a4|..|a4| + |C|] == a6[|a4|..|a4| + |C|];
    assert fen[|a6|..|a6| + |E|] == a8[|a6|..|a6| + |E|];
    assert fen[|a8|..|a8| + |R|] == a10[|a8|..|a8| + |R|];
  }

  /** Where fen()'s fields start and end: the placement ends at the blank at `nP`, the
      side-to-move letter is at `s`, the castling field runs from `c0` to the blank at `c`, the
      en-passant field from `ep0` to the blank at `e`, the half-move clock from `r0` to the
      blank at `q`, and the move number from `m0` to the end. */
  predicate FenIndices(p: State, nP: nat, s: nat, c0: nat, c: nat, ep0: nat, e: nat, r0: nat, q: nat, m0: nat) {
    p.ep < 64 && nP == |PlacementText(p.board, 8)| && s == nP + 1 && c0 == nP + 3 && c == c0 + |CastlingText(p)| &&
    ep0 == c + 1 && e == ep0 + |EpText(p.ep)| && r0 == e + 1 && q == r0 + |Decimal(p.rule50)| && m0 == q + 1
  }

  /** Where each field of fen()'s text starts and ends. */
  lemma FenLayout(p: State, fen: string, nP: nat, s: nat, c0: nat, c: nat, ep0: nat, e: nat, r0: nat, q: nat, m0: nat)
    requires p.ep < 64 && FenText(p).Some? && fen == FenText(p).value
    requires FenIndices(p, nP, s, c0, c, ep0, e, r0, q, m0)
    ensures |fen| == m0 + |Decimal(MoveNumber(p))|
    ensures fen[..nP] == PlacementText(p.board, 8) && fen[nP] == ' '
    ensures fen[s] == if p.stm then 'b' else 'w'
    ensures fen[c0..c] == CastlingText(p) && fen[c] == ' '
    ensures fen[ep0..e] == EpText(p.ep) && fen[e] == ' '
    ensures fen[r0..q] == Decimal(p.rule50) && fen[q] == ' '
    ensures fen[m0..] == Decimal(MoveNumber(p))
  {
    FieldLayout(fen, PlacementText(p.board, 8), if p.stm then 'b' else 'w', CastlingText(p), EpText(p.ep),
      Decimal(p.rule50), Decimal(MoveNumber(p)), nP, c, e, q);
  }

  // ---------------------------------------------------------------------
  // The round trip
  // ---------------------------------------------------------------------

  /** Setting a consistent position's pieces onto a cleared position gives it back, but for
      the fields the placement field does not carry. */
  lemma PlacedState(p: State)
    requires Consistent(p)
    ensures FillTop(p.board, 8) == p.(stm := WHITE, castling := NO_CASTLING, ep := NO_SQUARE, rule50 := 0, ply := 0)
  {
    var b := p.board;
    FillTopFacts(b, 8);
    var st := FillTop(b, 8);
    assert st.board == b;
    ConsistentUnique(st, p);
  }

  /** fen() prints fewer than 100 characters. */
  lemma FenTextLength(p: State)
    requires p.ep < 64 && p.ply % 2 == ColorIndex(p.stm)
    ensures FenText(p).Some? && |FenText(p).value| < 100
  {
    PlacementTextLength(p.board, 8);
    CastlingTextLength(p);
    assert Pow10(3) == 1000 && Pow10(5) == 100000;
    DecimalLength(p.rule50, 3);
    MoveNumberPly(p);
    DecimalLength(MoveNumber(p), 5);
  }

  /** What the placement and castling loops return on fen()'s text. */
  lemma HeadText(p: State, fen: string, nP: nat, s: nat, c0: nat, c: nat, ep0: nat, e: nat, r0: nat, q: nat, m0: nat)
    requires p.ep < 64 && p.ply % 2 == ColorIndex(p.stm) && FenText(p).Some? && fen == FenText(p).value
    requires FenIndices(p, nP, s, c0, c, ep0, e, r0, q, m0)
    ensures c0 <= c < |fen| < 65536
    ensures PlacementLoop(fen, 0, A8, Cleared()) == Some((nP, FillTop(p.board, 8)))
    ensures fen[s] == if p.stm then 'b' else 'w'
    ensures CastlingLoop(fen, c0, NO_CASTLING) == (c, CastlingCollected(p))
  {
    FenTextLength(p);
    FenLayout(p, fen, nP, s, c0, c, ep0, e, r0, q, m0);
    PlacementRoundTrip(fen, p.board);
    CastlingParse(fen, c0, c, p);
  }

  /** What the en-passant field of fen()'s text reads. */
  lemma EpFieldText(p: State, fen: string, nP: nat, s: nat, c0: nat, c: nat, ep0: nat, e: nat, r0: nat, q: nat, m0: nat,
                    st: State, st1: State)
    requires p.ep < 64 && p.ply % 2 == ColorIndex(p.stm) && FenText(p).Some? && fen == FenText(p).value
    requires FenIndices(p, nP, s, c0, c, ep0, e, r0, q, m0)
    requires st == p.(ep := NO_SQUARE, rule50 := 0, ply := 0) && st1 == p.(rule50 := 0, ply := 0)
    ensures EpField(fen, ep0, st) == Some((r0, st1))
  {
    FenTextLength(p);
    FenLayout(p, fen, nP, s, c0, c, ep0, e, r0, q, m0);
    EpParse(fen, ep0, e, r0, st, p.ep, st1);
  }

  /** What the two number fields of fen()'s text read; `r1` is the last index of the
      half-move clock. */
  lemma CountersText(p: State, fen: string, nP: nat, s: nat, c0: nat, c: nat, ep0: nat, e: nat, r0: nat, q: nat, m0: nat,
                     r1: nat)
    requires p.ep < 64 && p.ply % 2 == ColorIndex(p.stm) && FenText(p).Some? && fen == FenText(p).value
    requires FenIndices(p, nP, s, c0, c, ep0, e, r0, q, m0) && r1 + 1 == q
    ensures r0 < |fen| && m0 < |fen| < 65536
    ensures fen[r0] != '-' && NumberField(fen, r0) == Some((p.rule50, r1))
    ensures fen[m0] != '-' && NumberField(fen, m0).Some? && NumberField(fen, m0).value.0 == MoveNumber(p)
  {
    FenTextLength(p);
    FenLayout(p, fen, nP, s, c0, c, ep0, e, r0, q, m0);
    NumberBeforeBlank(fen, r0, q, r1, p.rule50);
    MoveNumberPly(p);
    NumberAtEnd(fen, m0, MoveNumber(p));
  }

  /** The side-to-move and castling fields from what the castling loop returns. */
  lemma AfterPlacementStep(fen: string, i0: nat, i1: nat, i3: nat, st: State, c: nat, c1: nat, d: Byte, st1: State)
    requires i1 == i0 + 1 && i3 == i0 + 3 && c1 == c + 1
    requires i3 <= c < |fen| < 65536 && CastlingLoop(fen, i3, NO_CASTLING) == (c, d)
    requires st1 == st.(stm := if fen[i1] == 'w' then WHITE else BLACK, castling := d)
    ensures AfterPlacement(fen, Some((i0, st))) == Some((c1, st1))
  {
    U16Fits(i1);
    U16Fits(i3);
    U16Fits(c1);
  }

  /** ParseHead from what its placement loop returns. */
  lemma HeadStep(fen: string, i0: nat, st: State, r: Option<(nat, State)>)
    requires PlacementLoop(fen, 0, A8, Cleared()) == Some((i0, st)) && AfterPlacement(fen, Some((i0, st))) == r
    ensures ParseHead(fen) == r
  {
  }

  /** ParseHead rebuilds the board, the side to move and the castling rights. */
  lemma HeadBridge(p: State, fen: string, nP: nat, s: nat, c0: nat, c: nat, ep0: nat, st: State)
    requires Consistent(p) && p.castling < 16 && s == nP + 1 && c0 == nP + 3 && ep0 == c + 1
    requires c0 <= c < |fen| < 65536
    requires PlacementLoop(fen, 0, A8, Cleared()) == Some((nP, FillTop(p.board, 8)))
    requires fen[s] == if p.stm then 'b' else 'w'
    requires CastlingLoop(fen, c0, NO_CASTLING) == (c, CastlingCollected(p))
    requires st == p.(ep := NO_SQUARE, rule50 := 0, ply := 0)
    ensures ParseHead(fen) == Some((ep0, st))
  {
    var placed := FillTop(p.board, 8);
    assert st == placed.(stm := if fen[s] == 'w' then WHITE else BLACK, castling := p.castling) by {
      PlacedState(p);
    }
    CastlingCollectedRights(p);
    AfterPlacementStep(fen, nP, s, c0, placed, c, ep0, p.castling, st);
    HeadStep(fen, nP, placed, Some((ep0, st)));
  }

  /** ParseCounters from what its two fields return. */
  lemma CountersStep(fen: string, i: nat, st: State, next: nat, j: nat, st1: State, st2: State)
    requires j == next + 2 < 65536
    requires Rule50Field(fen, i, st) == Some((next, st1)) && MoveField(fen, j, st1) == Some(st2)
    ensures ParseCounters(fen, i, st) == Some(st2)
  {
    U16Fits(j);
    var r := Rule50Field(fen, i, st);
    assert ParseCounters(fen, i, st) == AfterRule50(fen, r);
    assert AfterRule50(fen, r) == MoveField(fen, j, st1);
  }

  /** ParseCounters rebuilds the half-move clock and the ply from a field holding `p`'s clock
      and a move number `n` that gives back `p`'s ply; `mid` is the state between the two. */
  lemma CountersBridge(p: State, fen: string, r0: nat, r1: nat, m0: nat, n: nat, st: State, mid: State)
    requires m0 == r1 + 2 && r0 < |fen| && m0 < |fen| < 65536
    requires 1 <= n && 2 * (n - 1) + ColorIndex(p.stm) == p.ply
    requires fen[r0] != '-' && NumberField(fen, r0) == Some((p.rule50, r1))
    requires fen[m0] != '-' && NumberField(fen, m0).Some? && NumberField(fen, m0).value.0 == n
    requires st == p.(rule50 := 0, ply := 0) && mid == p.(ply := 0)
    ensures ParseCounters(fen, r0, st) == Some(p)
  {
    Rule50Parse(fen, r0, r1, st, p.rule50, mid);
    MoveParse(fen, m0, mid, n, p.ply, p);
    CountersStep(fen, r0, st, r1, m0, mid, p);
  }

  /** ParseFen from what its first two stages return. */
  lemma FenStep(fen: string, i: nat, st: State, j: nat, st1: State)
    requires ParseHead(fen) == Some((i, st)) && EpField(fen, i, st) == Some((j, st1))
    ensures ParseFen(fen) == ParseCounters(fen, j, st1)
  {
  }

  /** Position(fen()) rebuilds the position: every consistent position whose en-passant square
      is on the board, whose castling byte holds only the four rights, and whose ply parity
      matches the side to move. */
  lemma FenRoundTrip(p: State)
    requires Consistent(p) && p.ep < 64 && p.castling < 16 && p.ply % 2 == ColorIndex(p.stm)
    ensures FenText(p).Some? && ParseFen(FenText(p).value) == Some(p)
  {
    var fen := FenText(p).value;
    var nP := |PlacementText(p.board, 8)|;
    var s, c0 := nP + 1, nP + 3;
    var c := c0 + |CastlingText(p)|;
    var ep0 := c + 1;
    var e := ep0 + |EpText(p.ep)|;
    var r0 := e + 1;
    var q := r0 + |Decimal(p.rule50)|;
    var r1, m0 := q - 1, q + 1;
    var st: State := p.(ep := NO_SQUARE, rule50 := 0, ply := 0);
    var st1: State := p.(rule50 := 0, ply := 0);
    var mid: State := p.(ply := 0);
    HeadText(p, fen, nP, s, c0, c, ep0, e, r0, q, m0);
    EpFieldText(p, fen, nP, s, c0, c, ep0, e, r0, q, m0, st, st1);
    CountersText(p, fen, nP, s, c0, c, ep0, e, r0, q, m0, r1);
    HeadBridge(p, fen, nP, s, c0, c, ep0, st);
    MoveNumberPly(p);
    CountersBridge(p, fen, r0, r1, m0, MoveNumber(p), st1, mid);
    FenStep(fen, ep0, st, r0, st1);
  }

  // ---------------------------------------------------------------------
  // The en-passant field as written
  // ---------------------------------------------------------------------

  /** The en-passant field starts with `-` exactly when there is no en-passant square. */
  lemma EpTextStart(ep: Square)
    ensures |EpText(ep)| > 0 && (EpText(ep)[0] == '-' <==> ep == NO_SQUARE)
  {
    if ep != NO_SQUARE {
      assert EpText(ep)[0] == FILE_CHARS[FileOf(ep)];
    }
  }

  /** Where fen()'s en-passant field starts and what it starts with. */
  lemma EpStartText(p: State, fen: string, nP: nat, s: nat, c0: nat, c: nat, ep0: nat, e: nat, r0: nat, q: nat, m0: nat)
    requires p.ep < 64 && FenText(p).Some? && fen == FenText(p).value
    requires FenIndices(p, nP, s, c0, c, ep0, e, r0, q, m0)
    ensures 8 <= ep0 < |fen|
    ensures fen[ep0] == '-' <==> p.ep == NO_SQUARE
  {
    FenLayout(p, fen, nP, s, c0, c, ep0, e, r0, q, m0);
    PlacementTextLength(p.board, 8);
    EpTextStart(p.ep);
    assert fen[ep0] == EpText(p.ep)[0];
  }

  /** The as-written decode gives up on a square name that starts past the eighth character. */
  lemma EpAsWrittenFails(fen: string, i: nat, st: State)
    requires 8 <= i < |fen| && fen[i] != '-'
    ensures EpFieldAsWritten(fen, i, st) == None
  {
  }

  /** The as-written decode agrees with the intended one on a `-` field. */
  lemma EpAsWrittenDash(fen: string, i: nat, st: State)
    requires i < |fen| && fen[i] == '-'
    ensures EpFieldAsWritten(fen, i, st) == EpField(fen, i, st)
  {
  }

  /** The as-written Position(fen) once ParseHead has read the first three fields. */
  lemma AsWrittenStep(fen: string, i: nat, st: State, r: Option<(nat, State)>)
    requires ParseHead(fen) == Some((i, st)) && EpFieldAsWritten(fen, i, st) == r
    ensures ParseFenAsWritten(fen) == AfterEp(fen, r)
  {
  }

  /** On any text whose en-passant field is `-`, Position(fen) as written and as intended
      build the same position, or both fail. */
  lemma DashAgrees(fen: string)
    requires ParseHead(fen).Some? && ParseHead(fen).value.0 < |fen|
    requires fen[ParseHead(fen).value.0] == '-'
    ensures ParseFenAsWritten(fen) == ParseFen(fen)
  {
    var (i, st) := ParseHead(fen).value;
    EpAsWrittenDash(fen, i, st);
  }

  /** As written, Position(fen()) fails on every position with an en-passant square: the
      square name sits after the at least eight characters of the placement field, and the
      decode uses that offset to index the eight file and rank letters. */
  lemma FenAsWrittenLosesEp(p: State)
    requires Consistent(p) && p.ep < 64 && p.castling < 16 && p.ply % 2 == ColorIndex(p.stm)
    requires p.ep != NO_SQUARE
    ensures FenText(p).Some? && ParseFenAsWritten(FenText(p).value) == None
  {
    var fen := FenText(p).value;
    var nP := |PlacementText(p.board, 8)|;
    var s, c0 := nP + 1, nP + 3;
    var c := c0 + |CastlingText(p)|;
    var ep0 := c + 1;
    var e := ep0 + |EpText(p.ep)|;
    var r0 := e + 1;
    var q := r0 + |Decimal(p.rule50)|;
    var m0 := q + 1;
    var st: State := p.(ep := NO_SQUARE, rule50 := 0, ply := 0);
    HeadText(p, fen, nP, s, c0, c, ep0, e, r0, q, m0);
    HeadBridge(p, fen, nP, s, c0, c, ep0, st);
    EpStartText(p, fen, nP, s, c0, c, ep0, e, r0, q, m0);
    EpAsWrittenFails(fen, ep0, st);
    AsWrittenStep(fen, ep0, st, None);
  }

  /** Without an en-passant square the as-written Position(fen()) rebuilds the position. */
  lemma FenAsWrittenWithoutEp(p: State)
    requires Consistent(p) && p.castling < 16 && p.ply % 2 == ColorIndex(p.stm)
    requires p.ep == NO_SQUARE
    ensures FenText(p).Some? && ParseFenAsWritten(FenText(p).value) == Some(p)
  {
    var fen := FenText(p).value;
    var nP := |PlacementText(p.board, 8)|;
    var s, c0 := nP + 1, nP + 3;
    var c := c0 + |CastlingText(p)|;
    var ep0 := c + 1;
    var e := ep0 + |EpText(p.ep)|;
    var r0 := e + 1;
    var q := r0 + |Decimal(p.rule50)|;
    var m0 := q + 1;
    var st: State := p.(ep := NO_SQUARE, rule50 := 0, ply := 0);
    FenRoundTrip(p);
    HeadText(p, fen, nP, s, c0, c, ep0, e, r0, q, m0);
    HeadBridge(p, fen, nP, s, c0, c, ep0, st);
    EpStartText(p, fen, nP, s, c0, c, ep0, e, r0, q, m0);
    EpAsWrittenDash(fen, ep0, st);
    AsWrittenStep(fen, ep0, st, EpField(fen, ep0, st));
  }

  /** `std::stoi` of a lone digit. */
  lemma StoiDigit(d: char)
    requires IsDigit(d)
    ensures Stoi([d]) == Some(d as int - 48)
  {
    var t := [d];
    assert SkipSpaces(t, 0) == 0 && !(d == '+' || d == '-');
    assert DigitRun(t, 0) == 1 && t[0..1] == t && t[..0] == [];
    assert DigitsValue(t) == d as int - 48;
  }

  /** `std::stoi` stops at the blank after a digit. */
  lemma StoiDigitBlank(d: char, d2: char)
    requires IsDigit(d)
    ensures Stoi([d, ' ', d2]) == Some(d as int - 48)
  {
    var t := [d, ' ', d2];
    assert DigitRun(t, 1) == 0;
    assert SkipSpaces(t, 0) == 0 && !(d == '+' || d == '-');
    assert DigitRun(t, 0) == 1 && t[0..1] == [d] && [d][..0] == [];
    assert DigitsValue([d]) == d as int - 48;
  }

  /** `std::stoi` skips a leading blank. */
  lemma StoiBlankDigit(d: char)
    requires IsDigit(d)
    ensures Stoi([' ', d]) == Some(d as int - 48)
  {
    var t := [' ', d];
    assert SkipSpaces(t, 0) == 1;
    assert DigitRun(t, 1) == 1 && t[1..2] == [d] && [d][..0] == [];
    assert DigitsValue([d]) == d as int - 48;
  }

  /** The characters of the last three fields "d6 0 3" starting at `e`. */
  lemma ClockText(fen: string, e: nat)
    requires e + 6 == |fen| && fen[e..] == "d6 0 3"
    ensures fen[e] == 'd' && fen[e + 1] == '6' && fen[e + 2] == ' '
    ensures fen[e + 3] == '0' && fen[e + 4] == ' ' && fen[e + 5] == '3'
  {
    var t := fen[e..];
    assert fen[e] == t[0] && fen[e + 1] == t[1] && fen[e + 2] == t[2];
    assert fen[e + 3] == t[3] && fen[e + 4] == t[4] && fen[e + 5] == t[5];
  }

  /** The move number "3" at the end of the text, read from `e + 5`. */
  lemma LastNumberThree(fen: string, e: nat, st: State)
    requires e + 6 == |fen| && fen[e + 5] == '3'
    ensures MoveField(fen, e + 5, st).Some? && MoveField(fen, e + 5, st).value.rule50 == st.rule50
  {
    var t := Substr(fen, e + 5, FindFirst(fen, ' ', e + 5));
    assert FindFirst(fen, ' ', e + 5) == NPOS;
    assert t == fen[e + 5..] == ['3'];
    StoiDigit('3');
  }

  /** A clock field at `i` reading `v` and ending before the last blank of "… 3":
      rule50Cnt becomes `v` and the move number still reads. */
  lemma ClockFrom(fen: string, e: nat, i: nat, st: State, v: Byte)
    requires e + 6 == |fen| < 65536 && fen[e + 5] == '3'
    requires i < |fen| && fen[i] != '-'
    requires NumberField(fen, i).Some? && NumberField(fen, i).value == (v as int, e + 3)
    ensures ParseCounters(fen, i, st).Some? && ParseCounters(fen, i, st).value.rule50 == v
  {
    var st1: State := st.(rule50 := v);
    Rule50Parse(fen, i, e + 3, st, v, st1);
    LastNumberThree(fen, e, st1);
    CountersStep(fen, i, st, e + 3, e + 5, st1, MoveField(fen, e + 5, st1).value);
  }

  /** From the cursor the intended decode leaves on "d6 0 3", the clock reads 0. */
  lemma ClockIntended(fen: string, e: nat, st: State)
    requires e + 6 == |fen| < 65536 && fen[e..] == "d6 0 3"
    ensures AfterEp(fen, EpField(fen, e, st)).Some? && AfterEp(fen, EpField(fen, e, st)).value.rule50 == 0
  {
    ClockText(fen, e);
    U16Fits(e + 3);
    var r := EpField(fen, e, st);
    assert r.Some? && r.value.0 == e + 3;
    assert FindFirst(fen, ' ', e + 3) == e + 4;
    var t := Substr(fen, e + 3, e + 4);
    assert t == fen[e + 3..] == ['0', ' ', '3'];
    StoiDigitBlank('0', '3');
    assert NumberField(fen, e + 3).value == (0, e + 3);
    ClockFrom(fen, e, e + 3, r.value.1, 0);
  }

  /** From the cursor the letters-only decode leaves on "d6 0 3", the clock reads 3: the
      number field starts at the blank, `std::stoi` skips it and reads the move number. */
  lemma ClockLettersOnly(fen: string, e: nat, st: State)
    requires e + 6 == |fen| < 65536 && fen[e..] == "d6 0 3"
    ensures AfterEp(fen, EpFieldLettersOnly(fen, e, st)).Some?
    ensures AfterEp(fen, EpFieldLettersOnly(fen, e, st)).value.rule50 == 3
  {
    ClockText(fen, e);
    U16Fits(e + 4);
    var r := EpFieldLettersOnly(fen, e, st);
    assert r.Some? && r.value.0 == e + 4;
    assert FindFirst(fen, ' ', e + 4) == e + 4;
    var t := Substr(fen, e + 4, e + 4);
    assert t == fen[e + 4..] == [' ', '3'];
    StoiBlankDigit('3');
    U16Fits(e + 3);
    assert NumberField(fen, e + 4).value == (3, e + 3);
    ClockFrom(fen, e, e + 4, r.value.1, 3);
  }

  /** Correcting only the letter lookup would still misread the clock: on a FEN ending in
      "d6 0 3" (the position after 1. e4 e6 2. e5 d5, say) the letters-only parser sets
      rule50Cnt to 3, the move number, where the intended parser sets it to 0. */
  lemma ClockMisread(fen: string, e: nat, st: State)
    requires ParseHead(fen) == Some((e, st))
    requires e + 6 == |fen| < 65536 && fen[e..] == "d6 0 3"
    ensures ParseFenLettersOnly(fen).Some? && ParseFenLettersOnly(fen).value.rule50 == 3
    ensures ParseFen(fen).Some? && ParseFen(fen).value.rule50 == 0
  {
    ClockLettersOnly(fen, e, st);
    ClockIntended(fen, e, st);
  }
}
