// The state of a `chess::pgn::Position` (src/PGN-converter/pgn_position.h)
// as a value, the lookup tables `init` fills, the three board mutators
// (`setPiece`, `removePiece`, `movePiece`) stated as functions on that
// value, the accessors, and `pinned`.

module PgnPosition {
  import opened Bits
  import opened Definitions
  import opened Bitboards
  import opened Attacks

  // CastlingRights::Flags
  const NO_CASTLING: Byte := 0
  const WHITE_QUEEN_SIDE: Byte := 1
  const WHITE_KING_SIDE: Byte := 2
  const BLACK_QUEEN_SIDE: Byte := 4
  const BLACK_KING_SIDE: Byte := 8
  const WHITE_CASTLING: Byte := 3
  const BLACK_CASTLING: Byte := 12

  const START_FEN: string := "rnbqkbnr/pppppppp/8/8/8/8/PPPPPPPP/RNBQKBNR w KQkq - 0 1"

  // ---------------------------------------------------------------------
  // The tables filled by init()
  // ---------------------------------------------------------------------

  datatype FenTableEntry = FenTableEntry(setPiece: bool, piece: Piece, skip: int)

  /** A character that indexes the 128-entry tables (a non-negative `char`). */
  predicate InTable(ch: char) {
    ch as int < 128
  }

  /** fenTable[ch]: pieces set a piece and step east, digits skip, '/' drops a rank. */
  function FenTable(ch: char): FenTableEntry
    requires InTable(ch)
  {
    match ch
    case 'P' => FenTableEntry(true, WHITE_PAWN, EAST)
    case 'N' => FenTableEntry(true, WHITE_KNIGHT, EAST)
    case 'B' => FenTableEntry(true, WHITE_BISHOP, EAST)
    case 'R' => FenTableEntry(true, WHITE_ROOK, EAST)
    case 'Q' => FenTableEntry(true, WHITE_QUEEN, EAST)
    case 'K' => FenTableEntry(true, WHITE_KING, EAST)
    case 'p' => FenTableEntry(true, BLACK_PAWN, EAST)
    case 'n' => FenTableEntry(true, BLACK_KNIGHT, EAST)
    case 'b' => FenTableEntry(true, BLACK_BISHOP, EAST)
    case 'r' => FenTableEntry(true, BLACK_ROOK, EAST)
    case 'q' => FenTableEntry(true, BLACK_QUEEN, EAST)
    case 'k' => FenTableEntry(true, BLACK_KING, EAST)
    case '/' => FenTableEntry(false, NO_PIECE, 2 * SOUTH)
    case _ =>
      if '1' <= ch <= '8' then FenTableEntry(false, NO_PIECE, (ch as int - '0' as int) * EAST)
      else FenTableEntry(false, NO_PIECE, 0)
  }

  /** charToPieceType[ch]: file letters are pawns, 'O' (castling) is the king. */
  function CharToPieceType(ch: char): PieceType
    requires InTable(ch)
  {
    if 'a' <= ch <= 'h' then PAWN
    else match ch
      case 'N' => KNIGHT
      case 'B' => BISHOP
      case 'R' => ROOK
      case 'Q' => QUEEN
      case 'K' => KING
      case 'O' => KING
      case _ => NO_PIECE_TYPE
  }

  lemma FenTablePieces(ch: char)
    requires InTable(ch)
    ensures FenTable(ch).setPiece <==> ch in "PNBRQKpnbrqk"
    ensures FenTable(ch).setPiece ==> IsPiece(FenTable(ch).piece) && FenTable(ch).skip == EAST
    ensures FenTable(ch).setPiece ==> PieceToChar(FenTable(ch).piece) == ch
    ensures !FenTable(ch).setPiece ==> FenTable(ch).piece == NO_PIECE
    ensures '1' <= ch <= '8' ==> FenTable(ch).skip == ch as int - '0' as int
  {}

  lemma CharToPieceTypeLetters(ch: char)
    requires InTable(ch)
    ensures CharToPieceType(ch) != NO_PIECE_TYPE <==> ('a' <= ch <= 'h' || ch in "NBRQKO")
    ensures CharToPieceType(ch) == PAWN <==> 'a' <= ch <= 'h'
    ensures CharToPieceType(ch) == KING <==> ch == 'K' || ch == 'O'
  {}

  // ---------------------------------------------------------------------
  // The state
  // ---------------------------------------------------------------------

  datatype PositionState = PositionState(
    board: seq<Piece>,
    occupied: U64,
    byType: seq<U64>,
    byColor: seq<U64>,
    stm: Color,
    castling: Byte,
    ep: Byte,
    rule50: Byte,
    ply: int)

  /** The array sizes, the `uint16_t` range of `ply`, and a board holding only pieces. */
  predicate Shaped(p: PositionState) {
    |p.board| == 64 && |p.byType| == 7 && |p.byColor| == 2 && 0 <= p.ply < 65536 &&
    forall s :: 0 <= s < 64 ==> CellOk(p.board, s)
  }

  /** 64 squares, each holding a piece code or nothing. */
  predicate Cells(b: seq<Piece>) {
    |b| == 64 && forall s :: 0 <= s < 64 ==> CellOk(b, s)
  }

  /** Square `s` of `b` holds a piece code or nothing. */
  predicate CellOk(b: seq<Piece>, s: int)
    requires 0 <= s < |b|
  {
    b[s] == NO_PIECE || IsPiece(b[s])
  }

  lemma CellOf(p: State, s: Square)
    ensures p.board[s] == NO_PIECE || IsPiece(p.board[s])
  {
    assert CellOk(p.board, s);
  }

  /** Every square of a well-formed board holds a code below N_PIECES. */
  lemma CellsBounded(b: seq<Piece>)
    requires Cells(b)
    ensures forall s :: 0 <= s < 64 ==> b[s] < 15
  {
    forall s | 0 <= s < 64
      ensures b[s] < 15
    {
      assert CellOk(b, s);
    }
  }

  /** Storing a piece code or nothing keeps every square of the board well formed. */
  lemma BoardWrite(b: seq<Piece>, s: Square, pc: Piece)
    requires Cells(b) && (pc == NO_PIECE || IsPiece(pc))
    ensures Cells(b[s := pc])
  {
    var nb := b[s := pc];
    forall k | 0 <= k < 64
      ensures CellOk(nb, k)
    {
      assert CellOk(b, k);
    }
  }

  type State = p: PositionState | Shaped(p)
    witness PositionState(seq(64, _ => 0), 0, seq(7, _ => 0), seq(2, _ => 0), false, 0, 0, 0, 0)

  /** The position after `std::memset(this, 0, sizeof(Position))`. */
  function Cleared(): State {
    PositionState(seq(64, _ => NO_PIECE), 0, seq(7, _ => 0), seq(2, _ => 0), WHITE, NO_CASTLING, NO_SQUARE, 0, 0)
  }

  /** `byColor` is indexed by the colour converted to an integer. */
  function ColorIndex(c: Color): nat {
    if c then 1 else 0
  }

  // ---------------------------------------------------------------------
  // Board mutators
  // ---------------------------------------------------------------------

  /** setPiece: store `pc` and set square `s` in its type, colour and occupancy boards. */
  function SetPiece(p: State, s: Square, pc: Piece): State
    requires pc == NO_PIECE || IsPiece(pc)
  {
    var t, c := TypeOf(pc), ColorIndex(ColorOf(pc));
    assert Cells(p.board[s := pc]) by { BoardWrite(p.board, s, pc); }
    p.(board := p.board[s := pc],
       byType := p.byType[t := SetBit(p.byType[t], s)],
       byColor := p.byColor[c := SetBit(p.byColor[c], s)],
       occupied := SetBit(p.occupied, s))
  }

  /** removePiece: clear `s` in the boards of the piece standing there, then empty it. */
  function RemovePiece(p: State, s: Square): State {
    var pc := p.board[s];
    assert TypeOf(pc) < 7 by { CellOf(p, s); }
    var t, c := TypeOf(pc), ColorIndex(ColorOf(pc));
    assert Cells(p.board[s := NO_PIECE]) by { BoardWrite(p.board, s, NO_PIECE); }
    p.(byType := p.byType[t := ClearBit(p.byType[t], s)],
       byColor := p.byColor[c := ClearBit(p.byColor[c], s)],
       board := p.board[s := NO_PIECE],
       occupied := ClearBit(p.occupied, s))
  }

  /** movePiece: `setPiece(to, board[from])`, then `removePiece(from)`. */
  function MovePiece(p: State, from: Square, to: Square): State {
    assert CellOk(p.board, from);
    RemovePiece(SetPiece(p, to, p.board[from]), from)
  }

  // ---------------------------------------------------------------------
  // Accessors
  // ---------------------------------------------------------------------

  /** pieces(c, pt): `byColor[c] & byPieceType[pt]` */
  function Pieces(p: State, c: Color, pt: PieceType): U64
    requires pt < 7
  {
    Intersection(p.byColor[ColorIndex(c)], p.byType[pt])
  }

  /** canCastle(flag): `castlingRights.data & flag` is non-zero. */
  predicate CanCastle(p: State, flag: Byte) {
    And(p.castling, flag) != 0
  }

  /** canCastle(): any right at all. */
  predicate CanCastleAny(p: State) {
    p.castling != 0
  }

  predicate HasKing(p: State, c: Color) {
    Pieces(p, c, KING) != 0
  }

  /** kingSquare(c): the lowest square of `pieces(c, KING)` (undefined when there is none). */
  function KingSquare(p: State, c: Color): Square
    requires HasKing(p, c)
  {
    LSB(Pieces(p, c, KING))
  }

  /** `castlingRights.data &= ~mask` on the 8-bit field. */
  function ClearCastling(data: Byte, mask: Byte): Byte {
    assert Pow2(8) == 256;
    AndBound(data, Complement(mask, 8), 8);
    And(data, Complement(mask, 8))
  }

  /** The own-side queen-side and king-side flags. */
  function QueenSide(c: Color): Byte {
    if c then BLACK_QUEEN_SIDE else WHITE_QUEEN_SIDE
  }

  function KingSide(c: Color): Byte {
    if c then BLACK_KING_SIDE else WHITE_KING_SIDE
  }

  function BothSides(c: Color): Byte {
    if c then BLACK_CASTLING else WHITE_CASTLING
  }

  // ---------------------------------------------------------------------
  // The board invariant
  // ---------------------------------------------------------------------

  /** `board[]` agrees with the occupancy, per-type and per-colour bitboards. */
  predicate Consistent(p: State) {
    (forall s: Square :: IsSet(p.occupied, s) == (p.board[s] != NO_PIECE)) &&
    (forall s: Square, t :: 0 <= t < 7 ==>
       IsSet(p.byType[t], s) == (p.board[s] != NO_PIECE && TypeOf(p.board[s]) == t)) &&
    (forall s: Square, c: Color ::
       IsSet(p.byColor[ColorIndex(c)], s) == (p.board[s] != NO_PIECE && ColorOf(p.board[s]) == c))
  }

  lemma SetPieceConsistent(p: State, s: Square, pc: Piece)
    requires Consistent(p) && p.board[s] == NO_PIECE && IsPiece(pc)
    ensures Consistent(SetPiece(p, s, pc))
    ensures SetPiece(p, s, pc).board[s] == pc
    ensures forall j: Square :: j != s ==> SetPiece(p, s, pc).board[j] == p.board[j]
  {
    var q := SetPiece(p, s, pc);
    forall j: Square
      ensures IsSet(q.occupied, j) == (q.board[j] != NO_PIECE)
    {
      SetBitSquares(p.occupied, s, j);
    }
    forall j: Square, t | 0 <= t < 7
      ensures IsSet(q.byType[t], j) == (q.board[j] != NO_PIECE && TypeOf(q.board[j]) == t)
    {
      SetBitSquares(p.byType[t], s, j);
    }
    forall j: Square, c: Color
      ensures IsSet(q.byColor[ColorIndex(c)], j) == (q.board[j] != NO_PIECE && ColorOf(q.board[j]) == c)
    {
      SetBitSquares(p.byColor[ColorIndex(c)], s, j);
    }
  }

  lemma RemovePieceConsistent(p: State, s: Square)
    requires Consistent(p)
    ensures Consistent(RemovePiece(p, s))
    ensures RemovePiece(p, s).board[s] == NO_PIECE
    ensures forall j: Square :: j != s ==> RemovePiece(p, s).board[j] == p.board[j]
  {
    var q := RemovePiece(p, s);
    forall j: Square
      ensures IsSet(q.occupied, j) == (q.board[j] != NO_PIECE)
    {
      ClearBitSquares(p.occupied, s, j);
    }
    forall j: Square, t | 0 <= t < 7
      ensures IsSet(q.byType[t], j) == (q.board[j] != NO_PIECE && TypeOf(q.board[j]) == t)
    {
      ClearBitSquares(p.byType[t], s, j);
    }
    forall j: Square, c: Color
      ensures IsSet(q.byColor[ColorIndex(c)], j) == (q.board[j] != NO_PIECE && ColorOf(q.board[j]) == c)
    {
      ClearBitSquares(p.byColor[ColorIndex(c)], s, j);
    }
  }

  lemma MovePieceConsistent(p: State, from: Square, to: Square)
    requires Consistent(p) && IsPiece(p.board[from]) && p.board[to] == NO_PIECE
    ensures Consistent(MovePiece(p, from, to))
    ensures MovePiece(p, from, to).board[to] == p.board[from]
    ensures MovePiece(p, from, to).board[from] == NO_PIECE
    ensures forall j: Square :: j != from && j != to ==> MovePiece(p, from, to).board[j] == p.board[j]
  {
    SetPieceConsistent(p, to, p.board[from]);
    RemovePieceConsistent(SetPiece(p, to, p.board[from]), from);
  }

  /** A consistent position's bitboards are determined by its board. */
  lemma ConsistentUnique(p: State, q: State)
    requires Consistent(p) && Consistent(q) && p.board == q.board
    ensures p.occupied == q.occupied && p.byType == q.byType && p.byColor == q.byColor
  {
    SameSquares(p.occupied, q.occupied);
    forall t | 0 <= t < 7
      ensures p.byType[t] == q.byType[t]
    {
      forall j: nat | j < 64
        ensures IsSet(p.byType[t], j) == IsSet(q.byType[t], j)
      {
        var sq: Square := j;
        assert IsSet(p.byType[t], sq) == (p.board[sq] != NO_PIECE && TypeOf(p.board[sq]) == t);
        assert IsSet(q.byType[t], sq) == (q.board[sq] != NO_PIECE && TypeOf(q.board[sq]) == t);
      }
      SameSquares(p.byType[t], q.byType[t]);
    }
    forall c: Color
      ensures p.byColor[ColorIndex(c)] == q.byColor[ColorIndex(c)]
    {
      forall j: nat | j < 64
        ensures IsSet(p.byColor[ColorIndex(c)], j) == IsSet(q.byColor[ColorIndex(c)], j)
      {
        var sq: Square := j;
        assert IsSet(p.byColor[ColorIndex(c)], sq) == (p.board[sq] != NO_PIECE && ColorOf(p.board[sq]) == c);
        assert IsSet(q.byColor[ColorIndex(c)], sq) == (q.board[sq] != NO_PIECE && ColorOf(q.board[sq]) == c);
      }
      SameSquares(p.byColor[ColorIndex(c)], q.byColor[ColorIndex(c)]);
    }
    assert p.byColor[0] == q.byColor[ColorIndex(WHITE)];
    assert p.byColor[1] == q.byColor[ColorIndex(BLACK)];
  }

  lemma ClearedConsistent()
    ensures Consistent(Cleared())
  {
    forall j: nat
      ensures !IsSet(0, j)
    {
      ZeroClear(j);
    }
  }

  // ---------------------------------------------------------------------
  // Accessor properties
  // ---------------------------------------------------------------------

  /** In a consistent position `pieces(c, pt)` holds exactly the squares of piece `(c, pt)`. */
  lemma PiecesSquares(p: State, c: Color, pt: PieceType, j: Square)
    requires Consistent(p) && PAWN <= pt <= KING
    ensures IsSet(Pieces(p, c, pt), j) == (p.board[j] == MakePiece(c, pt))
  {
    IntersectionSquares(p.byColor[ColorIndex(c)], p.byType[pt], j);
    CellOf(p, j);
    PieceCodes(p.board[j]);
    MakePieceUnpacks(c, pt);
  }

  lemma KingSquareHoldsKing(p: State, c: Color, j: Square)
    requires Consistent(p) && HasKing(p, c)
    ensures p.board[KingSquare(p, c)] == MakePiece(c, KING)
    ensures j < KingSquare(p, c) ==> p.board[j] != MakePiece(c, KING)
  {
    LSBIsLowest(Pieces(p, c, KING), j);
    PiecesSquares(p, c, KING, KingSquare(p, c));
    PiecesSquares(p, c, KING, j);
  }

  /** canCastle on a one-bit flag reads that bit. */
  lemma CanCastleBit(p: State, k: nat)
    requires k < 4
    ensures CanCastle(p, [1, 2, 4, 8][k]) == IsSet(p.castling, k)
  {
    var flag: nat := [1, 2, 4, 8][k];
    assert flag == Pow2(k);
    var m := And(p.castling, flag);
    forall j: nat
      ensures IsSet(m, j) == (j == k && IsSet(p.castling, k))
    {
      AndBits(p.castling, flag, j);
      Pow2Bits(k, j);
    }
    if m == 0 {
      ZeroClear(k);
    } else {
      assert exists j: nat :: IsSet(m, j) by {
        LowestBits(m, 0);
      }
    }
  }

  lemma ClearCastlingBits(data: Byte, mask: Byte, k: nat)
    ensures IsSet(ClearCastling(data, mask), k) == (IsSet(data, k) && !IsSet(mask, k))
  {
    AndBits(data, Complement(mask, 8), k);
    ComplementBits(mask, 8, k);
    if k >= 8 {
      assert Pow2(8) == 256;
      HighClear(data, 8, k);
    }
  }

  // ---------------------------------------------------------------------
  // pinned()
  // ---------------------------------------------------------------------

  /** The enemy bishops, rooks and queens aiming at `ksq` through our pieces. */
  function SliderAttackers(p: State, ksq: Square): U64 {
    var theirTeam := p.byColor[ColorIndex(!p.stm)];
    Intersection(theirTeam,
      Union(Intersection(BishopAttacks(ksq, theirTeam), Union(p.byType[BISHOP], p.byType[QUEEN])),
            Intersection(RookAttacks(ksq, theirTeam), Union(p.byType[ROOK], p.byType[QUEEN]))))
  }

  /** Our pieces between the king and a slider. */
  function Blockers(p: State, ksq: Square, s: Square): U64 {
    Intersection(InBetweenSquares(ksq, s), p.byColor[ColorIndex(p.stm)])
  }

  /** `u` is the only one of our pieces between the king and `s`. */
  predicate SoleBlocker(p: State, ksq: Square, s: Square, u: Square) {
    PopCount(Blockers(p, ksq, s)) == 1 && IsSet(Blockers(p, ksq, s), u)
  }

  /** The `while (sliderAttackers)` loop of pinned(), from a given accumulator. */
  function PinnedLoop(p: State, ksq: Square, attackers: U64, pinned: U64): U64
    decreases PopCount(attackers)
  {
    if attackers == 0 then pinned
    else
      var s := LSB(attackers);
      var blockers := Blockers(p, ksq, s);
      PopLowestSquares(attackers, 0);
      PopCountZero(blockers);
      var next := if PopCount(blockers) == 1 then SetBit(pinned, LSB(blockers)) else pinned;
      PinnedLoop(p, ksq, PopLowest(attackers), next)
  }

  /** pinned() */
  function Pinned(p: State): U64
    requires HasKing(p, p.stm)
  {
    var ksq := KingSquare(p, p.stm);
    PinnedLoop(p, ksq, SliderAttackers(p, ksq), 0)
  }

  /** The loop adds to its accumulator exactly the sole blockers of the attackers it pops. */
  lemma {:induction false} PinnedLoopSquares(p: State, ksq: Square, attackers: U64, pinned: U64, u: Square)
    ensures IsSet(PinnedLoop(p, ksq, attackers, pinned), u) <==>
            IsSet(pinned, u) || exists s: Square :: IsSet(attackers, s) && SoleBlocker(p, ksq, s, u)
    decreases PopCount(attackers)
  {
    if attackers == 0 {
      forall s: Square
        ensures !IsSet(attackers, s)
      {
        ZeroClear(s);
      }
    } else {
      var s0 := LSB(attackers);
      var blockers := Blockers(p, ksq, s0);
      PopLowestSquares(attackers, 0);
      PopCountZero(blockers);
      var next := if PopCount(blockers) == 1 then SetBit(pinned, LSB(blockers)) else pinned;
      var rest := PopLowest(attackers);
      PinnedLoopSquares(p, ksq, rest, next, u);
      assert IsSet(next, u) <==> IsSet(pinned, u) || SoleBlocker(p, ksq, s0, u) by {
        if PopCount(blockers) == 1 {
          SetBitSquares(pinned, LSB(blockers), u);
          SingleBit(blockers, u);
        }
      }
      LSBIsLowest(attackers, 0);
      forall s: Square
        ensures IsSet(attackers, s) == (IsSet(rest, s) || s == s0)
      {
        PopLowestSquares(attackers, s);
      }
    }
  }

  /** Every square of pinned() is the sole own blocker between the king and an enemy slider. */
  lemma PinnedSquares(p: State, u: Square)
    requires HasKing(p, p.stm)
    ensures IsSet(Pinned(p), u) <==>
            exists s: Square :: IsSet(SliderAttackers(p, KingSquare(p, p.stm)), s) &&
                                SoleBlocker(p, KingSquare(p, p.stm), s, u)
  {
    var ksq := KingSquare(p, p.stm);
    PinnedLoopSquares(p, ksq, SliderAttackers(p, ksq), 0, u);
    ZeroClear(u);
  }

  /** What a sole blocker is, in board terms: one of ours, strictly between, and alone there. */
  lemma SoleBlockerMeaning(p: State, ksq: Square, s: Square, u: Square)
    requires SoleBlocker(p, ksq, s, u)
    ensures Between(ksq, s, u) && IsSet(p.byColor[ColorIndex(p.stm)], u)
    ensures forall v: Square :: Between(ksq, s, v) && IsSet(p.byColor[ColorIndex(p.stm)], v) ==> v == u
  {
    var ours := p.byColor[ColorIndex(p.stm)];
    IntersectionSquares(InBetweenSquares(ksq, s), ours, u);
    InBetweenSquaresSquares(ksq, s, u);
    forall v: Square | Between(ksq, s, v) && IsSet(ours, v)
      ensures v == u
    {
      InBetweenSquaresSquares(ksq, s, v);
      IntersectionSquares(InBetweenSquares(ksq, s), ours, v);
      SingleBit(Blockers(p, ksq, s), v);
      SingleBit(Blockers(p, ksq, s), u);
    }
  }

  /** The attackers pinned() starts from are enemy sliders on a line to the king. */
  lemma SliderAttackersMeaning(p: State, ksq: Square, s: Square)
    requires Consistent(p)
    ensures IsSet(SliderAttackers(p, ksq), s) <==>
            p.board[s] != NO_PIECE && ColorOf(p.board[s]) == !p.stm &&
            Unblocked(ksq, s, p.byColor[ColorIndex(!p.stm)]) &&
            ((Diagonal(ksq, s) && (TypeOf(p.board[s]) == BISHOP || TypeOf(p.board[s]) == QUEEN)) ||
             (Orthogonal(ksq, s) && (TypeOf(p.board[s]) == ROOK || TypeOf(p.board[s]) == QUEEN)))
  {
    var theirTeam := p.byColor[ColorIndex(!p.stm)];
    var diag := Intersection(BishopAttacks(ksq, theirTeam), Union(p.byType[BISHOP], p.byType[QUEEN]));
    var orth := Intersection(RookAttacks(ksq, theirTeam), Union(p.byType[ROOK], p.byType[QUEEN]));
    IntersectionSquares(theirTeam, Union(diag, orth), s);
    UnionSquares(diag, orth, s);
    IntersectionSquares(BishopAttacks(ksq, theirTeam), Union(p.byType[BISHOP], p.byType[QUEEN]), s);
    IntersectionSquares(RookAttacks(ksq, theirTeam), Union(p.byType[ROOK], p.byType[QUEEN]), s);
    UnionSquares(p.byType[BISHOP], p.byType[QUEEN], s);
    UnionSquares(p.byType[ROOK], p.byType[QUEEN], s);
    BishopAttacksSquares(ksq, theirTeam, s);
    RookAttacksSquares(ksq, theirTeam, s);
  }
}
