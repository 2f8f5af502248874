# ChessEngine-training: a verified model of the data pipeline

This project models the part of the ChessEngine-training repository that turns games into
training batches for the network:

- **Chess core.** The packed pieces, squares, files and ranks of `src/chess/defenitions.h`.
  The 64-bit `Bitboard` of `src/chess/bitboard.h`, written out over unbounded naturals.
  The attack sets that `attacks.h` supplies, defined by ray walking.
- **Position.** The position of `src/PGN-converter/pgn_position.h`:
  - the FEN constructor and `fen()`;
  - `applyMove` and `readMove<pt>` for SAN tokens;
  - `setPiece`, `removePiece` and `movePiece`, which keep the board and the bitboards in step;
  - `pinned()`.
- **Converter.** The line- and token-driven converter `Converter::processLine` of
  `src/PGN-converter/pgn_converter.h`. It writes records of the form
  `[len][fen][int16 score][int8 result]`.
- **Python writer.** The second writer of the same records, `src/pgn_to_td.py`:
  `game_result`, `score`, `write_entry` and the loop of `process_game`.
- **Loader.** The loader of `src/training_data_loader.cpp`:
  - the `FeatureTransformer::init` index table, with exactly 41916 slots per perspective;
  - `fillFeatures`;
  - `SparseBatch(entries)` and `fillEntry`;
  - `SparseBatchStream::readEntry<skip>` and `next`.
- **Synthetic batch.** The fixed-pattern `SparseBatch()` of the top-level
  `training_data_loader.cpp`.

**Form of the model.**
- Pure code becomes functions on values.
- Every in-place object becomes a class whose methods are proved against those functions:
  - `Bitboard`;
  - `Position` (board array plus per-type, per-colour and occupancy bitboards);
  - `Converter` (a growable byte buffer);
  - the Python converter;
  - the feature table (a four-dimensional array);
  - `SparseBatch` (its seven arrays);
  - `SparseBatchStream` (cursor, stop flag, entries).

**Failure paths.** Where the source runs on trusted input and would hit an `assert`,
undefined behaviour or an exception, the model returns `None` or `ok == false`. It never
requires the input to be well formed. Fixed-width integers are explicit:
- `uint8_t`, `int8_t`, `uint16_t` and `int16_t` narrowing goes through `U8`, `I8`, `U16` and
  `I16`;
- the 64-bit bitboards are naturals below 2^64.

Module layout (one file per module):

| file | module | source |
|---|---|---|
| bits.dfy | Bits | the unsigned 64-bit operators used by bitboard.h |
| definitions.dfy | Definitions | src/chess/defenitions.h |
| bitboard.dfy | Bitboards | src/chess/bitboard.h |
| attacks.dfy | Attacks | the attack tables used by pgn_position.h |
| position.dfy, position_class.dfy | PgnPosition, PositionObject | the Position struct, its mutators and `pinned()` |
| fen.dfy, fen_roundtrip.dfy | PgnFen, FenRoundTrip | `Position(fen)` and `fen()` |
| moves.dfy, move_properties.dfy | PgnMoves, MoveProperties | `applyMove` and `readMove<pt>` |
| converter.dfy, converter_class.dfy, converter_properties.dfy | PgnConverter, ConverterObject, ConverterProperties | `Converter::processLine` |
| records.dfy | TrainingRecords | the record layout shared by both writers and the loader |
| pgn_to_td.dfy, pgn_to_td_properties.dfy | PgnToTd, PgnToTdProperties | src/pgn_to_td.py |
| feature_index.dfy, feature_transformer.dfy, feature_lists.dfy, sorting.dfy | FeatureIndex, FeatureTransformer, FeatureLists, Sorting | `FeatureTransformer::init` and `fillFeatures` |
| batch.dfy | SparseBatches | `SparseBatch(entries)` and `fillEntry` |
| stream.dfy | BatchStream | `SparseBatchStream` |
| synthetic.dfy | SyntheticBatches | the top-level training_data_loader.cpp |
| wrappers.dfy | Wrappers | Option |

## Model

| member | source | states |
|---|---|---|
| Bits.OrBits | src/chess/bitboard.h:111-113 | bit k of `a \| b` is set iff it is set in a or in b |
| Bits.AndBits | src/chess/bitboard.h:115-117 | bit k of `a & b` is set iff it is set in both |
| Bits.XorBits | src/chess/bitboard.h:119-121 | bit k of `a ^ b` is set iff it is set in exactly one |
| Bits.ComplementBits | src/chess/bitboard.h:151-153 | bit k of the n-bit complement is set iff k < n and it is clear in a |
| Bits.ShlBits | src/chess/bitboard.h:103-105 | bit j of `b << k` is bit j-k of b, and clear below k |
| Bits.ShrBits | src/chess/bitboard.h:99-101 | bit j of `b >> k` is bit j+k of b |
| Bits.ClearLowestBits | src/chess/bitboard.h:87-91 | `b & (b-1)` has exactly the bits of b except the lowest |
| Bits.PopCountClearLowest | src/chess/bitboard.h:87-91 | `b & (b-1)` has one set bit fewer than b |
| Bits.LowestBits | src/chess/bitboard.h:65-67 | the lowest index is set and nothing below it is |
| Bits.HighestBits | src/chess/bitboard.h:69-71 | the highest index is set and the value is below the next power of two |
| Bits.PopCountZero | src/chess/bitboard.h:61-63 | a population count of zero means the empty board, and conversely |
| Bits.FromBytesBits | src/chess/bitboard.h:160-178 | bit k of a little-endian byte string is bit k mod 8 of byte k/8, so the hexadecimal mask constants have the squares of their bytes |
| Sorting.Sort | src/training_data_loader.cpp:122 | `std::sort` there is this sort, whose result is ascending and a permutation of its input |
| Definitions.MakePieceUnpacks | src/chess/defenitions.h:104-118 | `color::make` and `pieceType::make` recover c and pt from `piece::make(c, pt)` for pt in 0..7 |
| Definitions.PieceCodes | src/chess/defenitions.h:33-48 | a code is a piece exactly when it is `piece::make` of its own colour and a type PAWN..KING |
| Definitions.PieceToCharLetters | src/chess/defenitions.h:120 | PIECE_TO_CHAR maps white pieces to `PNBRQK` and black pieces to `pnbrqk` |
| Definitions.SquareFromFileRank | src/chess/defenitions.h:124-150 | `square::make(file::make(s), rank::make(s)) == s` |
| Definitions.FileRankFromSquare | src/chess/defenitions.h:124-150 | for files and ranks in 0..7, `square::make` is on the board and its file and rank are recovered |
| Definitions.RelativeFlipsRank | src/chess/defenitions.h:171-173 | `relative(BLACK, ·)` keeps the file, mirrors the rank and is an involution; `relative(WHITE, ·)` is the identity |
| Definitions.DistanceMetric | src/chess/defenitions.h:164-169 | `distance` is symmetric, zero exactly on equal squares, and at most 7 |
| Definitions.NoSquareIsA1 | src/chess/defenitions.h:51-59 | NO_SQUARE, A1 and `square::make(0, 0)` are the same square, so an a1 en-passant square reads as none |
| Definitions.FileCharRoundTrip | src/chess/defenitions.h:128-132 | `file::fromChar(CHAR_IDENTIFYERS[f]) == f` |
| Definitions.RankCharRoundTrip | src/chess/defenitions.h:140-144 | `rank::fromChar(CHAR_IDENTIFYERS[r]) == r` |
| Definitions.SquareFromLetters | src/chess/defenitions.h:152-154 | `square::make(sv)` of a name "a1".."h8" is 8·rank + file |
| Definitions.SquareNameRoundTrip | src/chess/defenitions.h:152-159 | `square::make(toString(s)) == s` for every square |
| Definitions.SquareTextRoundTrip | src/chess/defenitions.h:152-159 | `toString(square::make(sv)) == sv` for every name "a1".."h8" |
| Definitions.PawnPushValues | src/chess/defenitions.h:177-179 | `pawnPush(WHITE) == NORTH == 8` and `pawnPush(BLACK) == SOUTH == -8` |
| Bitboards.BitSquares | src/chess/bitboard.h:15-17 | `fromSquare(sq)` holds exactly the square sq |
| Bitboards.ContainsBit | src/chess/bitboard.h:19-21 | `isSet(sq)` is the bit sq of the data |
| Bitboards.UnionSquares | src/chess/bitboard.h:111-113 | `\|` is set union on the 64 squares |
| Bitboards.IntersectionSquares | src/chess/bitboard.h:115-117 | `&` is set intersection |
| Bitboards.SymmetricDifferenceSquares | src/chess/bitboard.h:119-121 | `^` is symmetric difference |
| Bitboards.NotSquares | src/chess/bitboard.h:151-153 | `~` complements within the 64 squares |
| Bitboards.MinusSquares | src/chess/bitboard.h:123-125 | `a - b` is `a & ~b`, the set difference |
| Bitboards.SetBitSquares | src/chess/bitboard.h:23-25 | `set(sq)` adds square sq and changes no other square |
| Bitboards.ClearBitSquares | src/chess/bitboard.h:27-29 | `clear(sq)` removes square sq and changes no other square |
| Bitboards.ToggleBitSquares | src/chess/bitboard.h:31-33 | `toggle(sq)` flips square sq and changes no other square |
| Bitboards.LSBIsLowest | src/chess/bitboard.h:65-67 | on a non-empty board `LSB()` is a set square with no set square below it |
| Bitboards.MSBIsHighest | src/chess/bitboard.h:69-71 | on a non-empty board `MSB()` is a set square with no set square above it |
| Bitboards.PopLowestSquares | src/chess/bitboard.h:87-91 | `data &= data - 1` removes exactly the lowest square and lowers the count by one |
| Bitboards.SameSquares | src/chess/bitboard.h:15-33 | two boards with the same squares are equal |
| Bitboards.EmptySquares | src/chess/bitboard.h:15-33 | a board with no square set is zero |
| Bitboards.ClearBitCount | src/chess/bitboard.h:27-29 | clearing a set square lowers the population count by one |
| Bitboards.MirroredSquares | src/chess/bitboard.h:81-85 | square j of the mirrored board is square `j ^ 56` of the original: ranks reversed, files kept |
| Bitboards.MirroredInvolution | src/chess/bitboard.h:73-85 | mirroring twice gives the original board |
| Bitboards.MirroredTwice | src/chess/bitboard.h:73-85 | square k of the twice-mirrored board is square k of the original |
| Bitboards.MirrorSquareTwice | src/chess/bitboard.h:73-85 | the rank mirror of a square is an involution |
| Bitboards.FileASquares | src/chess/bitboard.h:160 | FILE_A_BB holds exactly the squares of file a |
| Bitboards.FileSquares | src/chess/bitboard.h:160-167 | `FILE_A_BB << f` holds exactly the squares of file f |
| Bitboards.RankSquares | src/chess/bitboard.h:169-176 | `RANK_1_BB << 8r` holds exactly the squares of rank r |
| Bitboards.FileCount | src/chess/bitboard.h:160-167 | every file mask has 8 squares |
| Bitboards.RankCount | src/chess/bitboard.h:169-176 | every rank mask has 8 squares |
| Bitboards.MasksDisjoint | src/chess/bitboard.h:160-176 | distinct file masks and distinct rank masks are disjoint |
| Bitboards.DiagonalSquares | src/chess/bitboard.h:178 | DIAG_C2_H7 holds exactly the squares c2, d3, ..., h7 |
| Bitboards.ShiftLeftSquares | src/chess/bitboard.h:103-105 | `<<` moves square j-k to j and drops what leaves the board |
| Bitboards.ShiftRightSquares | src/chess/bitboard.h:99-101 | `>>` moves square j+k to j |
| Bitboards.ShiftNorthSquares | src/chess/bitboard.h:180-192 | `shift<NORTH>` and `shift<2*NORTH>` move every square up without leaving the board |
| Bitboards.ShiftSouthSquares | src/chess/bitboard.h:180-192 | `shift<SOUTH>` and `shift<2*SOUTH>` move every square down |
| Bitboards.ShiftNorthEastSquares | src/chess/bitboard.h:180-192 | `shift<NORTHEAST>` moves a square up and right and nothing wraps from file h to file a |
| Bitboards.ShiftNorthWestSquares | src/chess/bitboard.h:180-192 | `shift<NORTHWEST>` moves up and left and nothing wraps from file a to file h |
| Bitboards.ShiftSouthEastSquares | src/chess/bitboard.h:180-192 | `shift<SOUTHEAST>` moves down and right without wrapping |
| Bitboards.ShiftSouthWestSquares | src/chess/bitboard.h:180-192 | `shift<SOUTHWEST>` moves down and left without wrapping |
| Bitboards.ShiftOtherIsEmpty | src/chess/bitboard.h:180-192 | any other direction gives the empty board |
| Bitboards.Bitboard.constructor | src/chess/bitboard.h:10-13 | the board holds the given data |
| Bitboards.Bitboard.Set | src/chess/bitboard.h:23-25 | `set(sq)` in place: the new data is the old data with bit sq set |
| Bitboards.Bitboard.Clear | src/chess/bitboard.h:27-29 | `clear(sq)` in place: bit sq cleared |
| Bitboards.Bitboard.Toggle | src/chess/bitboard.h:31-33 | `toggle(sq)` in place: bit sq flipped |
| Bitboards.Bitboard.PopLSB | src/chess/bitboard.h:87-91 | returns the lowest set square and removes it |
| Bitboards.Bitboard.PopMSB | src/chess/bitboard.h:93-97 | as written: returns the highest set square but removes the lowest one |
| Bitboards.Bitboard.PopMSBCorrected | src/chess/bitboard.h:93-97 | returns the highest set square and removes that square |
| Bitboards.Bitboard.Mirror | src/chess/bitboard.h:73-79 | the data becomes its rank mirror |
| Bitboards.Bitboard.UnionWith | src/chess/bitboard.h:131-133 | `\|=` in place |
| Bitboards.Bitboard.IntersectWith | src/chess/bitboard.h:135-137 | `&=` in place |
| Bitboards.Bitboard.SymmetricDifferenceWith | src/chess/bitboard.h:139-141 | `^=` in place |
| Bitboards.Bitboard.Subtract | src/chess/bitboard.h:143-145 | `-=` in place: set difference |
| Bitboards.PopMSBKeepsReturnedSquare | src/chess/bitboard.h:93-97 | on a board of two or more squares, the square popMSB returns is still on the board afterwards |
| Bitboards.PopMSBCounterexample | src/chess/bitboard.h:93-97 | on {a1, b1} popMSB returns b1 and leaves {b1} |
| Bitboards.PopMSBCorrectedSquares | src/chess/bitboard.h:93-97 | the corrected pop removes exactly the highest square and lowers the count by one |
| Attacks.SquaresBBBits | src/PGN-converter/pgn_position.h:394-397 | the board built from a set of squares holds exactly those squares |
| Attacks.KnightAttacksSquares | src/PGN-converter/pgn_position.h:394 | `knightAttacks[s]` holds exactly the squares a knight's step away |
| Attacks.BishopAttacksSquares | src/PGN-converter/pgn_position.h:395 | `attacks<BISHOP>(s, occ)` holds the diagonal squares with no occupied square strictly between |
| Attacks.RookAttacksSquares | src/PGN-converter/pgn_position.h:396 | `attacks<ROOK>(s, occ)` holds the orthogonal squares with no occupied square strictly between |
| Attacks.QueenAttacksSquares | src/PGN-converter/pgn_position.h:397 | `attacks<QUEEN>` is the union of the two |
| Attacks.InBetweenSquaresSquares | src/PGN-converter/pgn_position.h:507 | `inBetweenSquares[a][b]` holds exactly the squares strictly between a and b on a shared line |
| Attacks.BetweenIsInside | src/PGN-converter/pgn_position.h:507 | a square between a and b is neither end |
| Attacks.KnightStepSymmetric | src/PGN-converter/pgn_position.h:394 | the knight step relation is symmetric |
| PgnPosition.FenTablePieces | src/PGN-converter/pgn_position.h:99-126 | `fenTable` places a piece exactly for the twelve piece letters, the piece it places prints back as that letter, and a digit skips that many files |
| PgnPosition.CharToPieceTypeLetters | src/PGN-converter/pgn_position.h:128-137 | `charToPieceType` gives a type exactly for a..h, N, B, R, Q, K and O: PAWN for the files, KING for K and O |
| PgnPosition.CellOf | src/PGN-converter/pgn_position.h:40 | every board cell of a position holds NO_PIECE or a piece |
| PgnPosition.SetPieceConsistent | src/PGN-converter/pgn_position.h:475-480 | `setPiece` on an empty square keeps board and bitboards consistent, puts pc on s and changes no other cell |
| PgnPosition.RemovePieceConsistent | src/PGN-converter/pgn_position.h:482-487 | `removePiece` keeps consistency, empties s and changes no other cell |
| PgnPosition.MovePieceConsistent | src/PGN-converter/pgn_position.h:489-492 | `movePiece` onto an empty square keeps consistency, moves the piece and changes no other cell |
| PgnPosition.ConsistentUnique | src/PGN-converter/pgn_position.h:40-43 | in a consistent position the bitboards are determined by the board array |
| PgnPosition.ClearedConsistent | src/PGN-converter/pgn_position.h:142 | the zeroed position is consistent |
| PgnPosition.PiecesSquares | src/PGN-converter/pgn_position.h:80-82 | `pieces(c, pt)` holds exactly the squares holding that piece |
| PgnPosition.KingSquareHoldsKing | src/PGN-converter/pgn_position.h:88-90 | `kingSquare(c)` holds c's king and no lower square does |
| PgnPosition.CanCastleBit | src/PGN-converter/pgn_position.h:64-66 | `canCastle(flag)` for each of the four flags is the matching bit of the rights |
| PgnPosition.ClearCastlingBits | src/PGN-converter/pgn_position.h:311-312 | `data &= ~mask` clears the bits of mask and keeps the rest |
| PgnPosition.PinnedLoopSquares | src/PGN-converter/pgn_position.h:505-512 | the loop over slider attackers marks exactly the sole own blockers of the attackers it pops |
| PgnPosition.PinnedSquares | src/PGN-converter/pgn_position.h:494-514 | a square is in `pinned()` iff it is the sole own piece between the king and an enemy slider attacking it |
| PgnPosition.SoleBlockerMeaning | src/PGN-converter/pgn_position.h:507-511 | a sole blocker is an own piece between king and slider, and the only one |
| PgnPosition.SliderAttackersMeaning | src/PGN-converter/pgn_position.h:501-503 | a slider attacker is an enemy bishop or queen on an open diagonal, or an enemy rook or queen on an open line, counting only enemy pieces as blockers |
| PositionObject.Position.constructor | src/PGN-converter/pgn_position.h:140-142 | the zeroed position, consistent, with fresh arrays |
| PositionObject.Position.SetPiece | src/PGN-converter/pgn_position.h:475-480 | the arrays and bitboards change as `setPiece` on the position value says |
| PositionObject.Position.RemovePiece | src/PGN-converter/pgn_position.h:482-487 | as `removePiece` on the value |
| PositionObject.Position.MovePiece | src/PGN-converter/pgn_position.h:489-492 | as `movePiece` on the value |
| PositionObject.Position.Pinned | src/PGN-converter/pgn_position.h:494-514 | the loop computes `pinned()` of the position |
| PositionObject.Position.FindSource | src/PGN-converter/pgn_position.h:393-455 | the source square readMove settles on, or none where it would assert |
| PositionObject.Position.CaptureOn | src/PGN-converter/pgn_position.h:456-463 | the capture in readMove, followed by a rook test that reads the emptied square |
| PositionObject.Position.RookLeaves | src/PGN-converter/pgn_position.h:466-472 | a rook leaving relative a1 or h1 drops that right |
| PositionObject.Position.PawnCaptureStep | src/PGN-converter/pgn_position.h:257-265 | the (en passant) pawn capture, as the value function states it |
| PositionObject.Position.PromotionStep | src/PGN-converter/pgn_position.h:267-284 | promotion with or without capture |
| PositionObject.Position.PawnPushStep | src/PGN-converter/pgn_position.h:286-296 | the (double) pawn push and the new en-passant square |
| PositionObject.Position.PawnStep | src/PGN-converter/pgn_position.h:254-297 | the pawn branch of applyMove |
| PositionObject.Position.KingStep | src/PGN-converter/pgn_position.h:304-348 | the king branch of applyMove |
| PositionObject.Position.KingCapture | src/PGN-converter/pgn_position.h:315-326 | the king capture with its rook test run before the capture |
| PositionObject.Position.KingFromStep | src/PGN-converter/pgn_position.h:314-347 | the king's capture, castling or step once both rights are given up |
| PositionObject.Position.ApplyMove | src/PGN-converter/pgn_position.h:244-353 | ok exactly when applyMove on the position value is defined, and the object then holds its result; ok is false where the source would assert or read outside an array |
| PositionObject.Position.FinishStep | src/PGN-converter/pgn_position.h:350-352 | side to move flips, the en-passant square is replaced, ply advances as uint16 |
| PositionObject.Position.MoveBodyStep | src/PGN-converter/pgn_position.h:245-348 | applyMove up to its last three assignments |
| PositionObject.Position.Relocate | src/PGN-converter/pgn_position.h:456-472 | capture, move and rook-corner rights of readMove |
| PositionObject.Position.ReadMove | src/PGN-converter/pgn_position.h:355-473 | ok exactly when `readMove<pt>` on the value is defined, and the object then holds its result |
| PositionObject.ReadHints | src/PGN-converter/pgn_position.h:405-418 | the hint loop: the last digit sets the rank, the last other character the file |
| PositionObject.FilterByHints | src/PGN-converter/pgn_position.h:420-424 | the candidates are narrowed by the file and rank masks of the hints |
| PositionObject.SelectFrom | src/PGN-converter/pgn_position.h:426-454 | the `for (;;)` loop's result is the reference choice SelectSource |
| PositionObject.ApplyMoveFails | src/PGN-converter/pgn_position.h:244-353 | applyMove fails exactly where its move body fails |
| PositionObject.ApplyMoveIs | src/PGN-converter/pgn_position.h:244-353 | applyMove is its move body followed by the turn change |
| PositionObject.ReadSourceFiltered | src/PGN-converter/pgn_position.h:404-454 | with several candidates and a king, the source is the pin-aware choice among the hint-filtered candidates |
| PositionObject.ReadSourceNoKing | src/PGN-converter/pgn_position.h:426-433 | with several candidates and no own king, readMove has no source |
| MoveProperties.ClearCastlingKept | src/PGN-converter/pgn_position.h:311-312 | clearing rights never adds a right |
| MoveProperties.RookCaptureRightsKept | src/PGN-converter/pgn_position.h:318-324 | the king-capture rook test only clears rights |
| MoveProperties.RookLeaveRightsKept | src/PGN-converter/pgn_position.h:466-472 | a rook leaving its corner only clears rights |
| MoveProperties.FlagBits | src/PGN-converter/pgn_position.h:12-23 | the queen-side, king-side and both-sides masks of each colour are the right bits |
| MoveProperties.OwnRightsClearedTwice | src/PGN-converter/pgn_position.h:311-323 | after the king move cleared both rights, the rook test in a king capture changes nothing more |
| MoveProperties.RookCaptureCheckDead | src/PGN-converter/pgn_position.h:456-463 | readMove's rook-capture test reads board[to] after removePiece(to), so it never changes the rights |
| MoveProperties.CaptureKeepsOpponentRights | src/PGN-converter/pgn_position.h:318-323 | the rook-capture test clears only the mover's own flags, so the opponent's two rights are never revoked by a capture |
| MoveProperties.CaptureRevokesOpponentRight | src/PGN-converter/pgn_position.h:318-323 | the intended test: a rook taken on the opponent's a-side or h-side home corner clears exactly the opponent's right on that side |
| MoveProperties.PawnMoveKeeps | src/PGN-converter/pgn_position.h:254-297 | a pawn move keeps the counters and the rights, and yields the skipped square as new en-passant square |
| MoveProperties.KingMoveCounters | src/PGN-converter/pgn_position.h:304-348 | a king move keeps side to move, ply and en-passant square |
| MoveProperties.KingMoveRights | src/PGN-converter/pgn_position.h:304-348 | every king move clears both of the mover's castling rights and nothing else |
| MoveProperties.KingMoveFromRights | src/PGN-converter/pgn_position.h:314-347 | after the king itself moves, the rights are kept or lose one own side, as the rook test of a king capture decides |
| MoveProperties.ReadMoveKeeps | src/PGN-converter/pgn_position.h:355-473 | a piece move keeps the counters, only clears rights, and keeps them for non-rooks |
| MoveProperties.MoveBodyPawn | src/PGN-converter/pgn_position.h:251-255 | a pawn move resets the clock and then runs the pawn branch |
| MoveProperties.MoveBodyPiece | src/PGN-converter/pgn_position.h:299-302 | a knight to queen move counts the clock up and runs `readMove<pt>`, with no new en-passant square |
| MoveProperties.MoveBodyKing | src/PGN-converter/pgn_position.h:304-306 | a king move resets the clock and runs the king branch, with no new en-passant square |
| MoveProperties.MoveBodyCounters | src/PGN-converter/pgn_position.h:251-306 | the clock is 0 after a pawn or king move and old+1 mod 256 otherwise, captures included; the new en-passant square is the skipped square after a pawn move and none otherwise |
| MoveProperties.ApplyMoveTurn | src/PGN-converter/pgn_position.h:350-352 | stm flips, ply advances, and `ply % 2 == stm` is preserved |
| MoveProperties.ApplyMoveClock | src/PGN-converter/pgn_position.h:251-352 | the rule-50 clock and en-passant square after applyMove, as in MoveBodyCounters |
| MoveProperties.MoveBodyRights | src/PGN-converter/pgn_position.h:304-472 | rights are only cleared; a king move clears both of the mover's; only king and rook moves change them |
| MoveProperties.ApplyMoveRights | src/PGN-converter/pgn_position.h:244-472 | the same for the whole applyMove |
| MoveProperties.KingMoveEndsCastling | src/PGN-converter/pgn_position.h:310-312 | after a king move the mover can castle on neither side |
| MoveProperties.MovePieceBoard | src/PGN-converter/pgn_position.h:489-492 | movePiece empties `from`, puts its piece on `to` and changes no other cell |
| MoveProperties.PawnCaptureBoard | src/PGN-converter/pgn_position.h:257-265 | the pawn capture removes the piece on `to`, or on `to - pawnPush` when `to` is the en-passant square, then moves the pawn from the file given, one rank back |
| MoveProperties.PawnPushBoard | src/PGN-converter/pgn_position.h:286-296 | a push moves the pawn one square, or two when the square one back is empty, which becomes the en-passant square |
| MoveProperties.PromotionPiece | src/PGN-converter/pgn_position.h:276-281 | the promoted piece has the mover's colour and the type of the letter |
| MoveProperties.PromotionPushBoard | src/PGN-converter/pgn_position.h:278-283 | a quiet promotion puts the new piece on `to` and removes the pawn |
| MoveProperties.PromotionCaptureBoard | src/PGN-converter/pgn_position.h:272-283 | a capturing promotion replaces the piece on `to` by the new piece and removes the pawn |
| MoveProperties.KingSideCastleIs | src/PGN-converter/pgn_position.h:337-347 | `O-O` clears both rights, moves the rook from relative h1 to f1 and the king to relative g1 |
| MoveProperties.QueenSideCastleIs | src/PGN-converter/pgn_position.h:329-347 | `O-O-O` moves the rook from relative a1 to d1 and the king to relative c1 |
| MoveProperties.KingSideCastleBoard | src/PGN-converter/pgn_position.h:337-347 | the board after `O-O` in terms of the two moves |
| MoveProperties.QueenSideCastleBoard | src/PGN-converter/pgn_position.h:329-347 | the board after `O-O-O` |
| MoveProperties.KingSideCastleConsistent | src/PGN-converter/pgn_position.h:337-347 | from the home squares, `O-O` keeps consistency and leaves king on g1, rook on f1, e1 and h1 empty |
| MoveProperties.QueenSideCastleConsistent | src/PGN-converter/pgn_position.h:329-347 | the same for `O-O-O` with c1, d1, e1 and a1 |
| MoveProperties.SelectSourceSpec | src/PGN-converter/pgn_position.h:426-454 | the chosen source is the lowest candidate that is unpinned, or a pinned non-knight on the king's line through `to`; none means no candidate qualifies |
| MoveProperties.ApplyHintsSquares | src/PGN-converter/pgn_position.h:420-424 | a filtered candidate is a candidate matching the file and rank hints |
| MoveProperties.HintsLoopLast | src/PGN-converter/pgn_position.h:409-418 | the last digit decides the rank hint and the last non-digit the file hint |
| MoveProperties.HintsLoopKeeps | src/PGN-converter/pgn_position.h:409-418 | a hint no character sets stays as it was |
| MoveProperties.ReadSourceChoice | src/PGN-converter/pgn_position.h:393-454 | the source is a candidate; a single candidate is taken directly; otherwise it matches the hints, is acceptable for the pins, and no lower matching candidate is |
| MoveProperties.CandidateSquares | src/PGN-converter/pgn_position.h:393-397 | a candidate is an own piece of type pt attacking `to`, and is never `to` itself |
| MoveProperties.CastlingConsistent | src/PGN-converter/pgn_position.h:45 | the rights play no part in board consistency |
| MoveProperties.ReadMoveIs | src/PGN-converter/pgn_position.h:456-472 | readMove is capture, then movePiece from the chosen source, with the rights it computes |
| MoveProperties.ReadMoveBoard | src/PGN-converter/pgn_position.h:355-473 | the board after readMove: the own piece of type pt moves from its source to `to` |
| MoveProperties.ReadMoveConsistent | src/PGN-converter/pgn_position.h:355-473 | readMove keeps board and bitboards consistent |
| PgnFen.Decimal | src/PGN-converter/pgn_position.h:238-239 | the printed number is a non-empty run of digits |
| PgnFen.DigitRun | src/PGN-converter/pgn_position.h:194 | the run of digits `std::stoi` reads: all digits, ended by a non-digit or the end |
| PgnFen.FindFirst | src/PGN-converter/pgn_position.h:193 | `find_first_of` gives npos or an index at or after i holding the character |
| PgnFen.MoveNumberPositive | src/PGN-converter/pgn_position.h:239 | the printed move number is at least 1 |
| FenRoundTrip.DecimalValue | src/PGN-converter/pgn_position.h:238-239 | the printed digits have the value printed |
| FenRoundTrip.StoiDecimal | src/PGN-converter/pgn_position.h:194 | `std::stoi` of a printed number followed by a non-digit returns that number |
| FenRoundTrip.FindFirstAt | src/PGN-converter/pgn_position.h:193 | `find_first_of` finds the first occurrence |
| FenRoundTrip.FindFirstNone | src/PGN-converter/pgn_position.h:193 | `find_first_of` gives npos when there is none |
| FenRoundTrip.PlacementRoundTrip | src/PGN-converter/pgn_position.h:146-153 | the placement loop over the printed placement rebuilds exactly the board, consistently |
| FenRoundTrip.CastlingCollectedRights | src/PGN-converter/pgn_position.h:163-180 | the rights read back from their printed letters are the rights printed |
| FenRoundTrip.CastlingParse | src/PGN-converter/pgn_position.h:163-180 | the castling loop over `KQkq` order (or `-`) collects the printed rights |
| FenRoundTrip.EpParse | src/PGN-converter/pgn_position.h:184-189 | the corrected en-passant branch reads the square from its two letters |
| FenRoundTrip.Rule50Parse | src/PGN-converter/pgn_position.h:191-197 | the halfmove field sets rule50Cnt to the number read |
| FenRoundTrip.MoveParse | src/PGN-converter/pgn_position.h:201-207 | the move field sets `ply = 2*(n-1) + stm` |
| FenRoundTrip.MoveNumberPly | src/PGN-converter/pgn_position.h:239 | when ply has the parity of stm, `2*(1 + (ply-stm)/2 - 1) + stm == ply` |
| FenRoundTrip.FenTextLength | src/PGN-converter/pgn_position.h:210-242 | `fen()` is defined and shorter than 100 characters, so its offsets fit the uint16 cursor |
| FenRoundTrip.FenRoundTrip | src/PGN-converter/pgn_position.h:140-242 | parsing `fen()` of a consistent position (en-passant square on the board, rights in 4 bits, ply of stm's parity) gives back the same position |
| FenRoundTrip.EpAsWrittenFails | src/PGN-converter/pgn_position.h:186 | as written, an en-passant field other than `-` indexes the eight-entry file table by the string offset, at 8 or beyond |
| FenRoundTrip.EpAsWrittenDash | src/PGN-converter/pgn_position.h:185 | with `-` the as-written branch agrees with the corrected one |
| FenRoundTrip.FenAsWrittenLosesEp | src/PGN-converter/pgn_position.h:186 | the parser as written fails on the FEN of every position with an en-passant square |
| FenRoundTrip.FenAsWrittenWithoutEp | src/PGN-converter/pgn_position.h:140-208 | without an en-passant square the parser as written is a faithful decoder of `fen()` |
| FenRoundTrip.DashAgrees | src/PGN-converter/pgn_position.h:184-189 | on any text whose en-passant field is `-`, the parser as written and as intended give the same result |
| FenRoundTrip.ClockMisread | src/PGN-converter/pgn_position.h:184-198 | with only the letter lookup corrected, the cursor left after the square lands inside the clock field: on a FEN ending `d6 0 3` rule50Cnt reads 3, where the intended parser reads 0 |
| PgnConverter.TokenLength | src/PGN-converter/pgn_converter.h:89-90 | the token runs to the next space or to the end of the line |
| ConverterObject.Converter.constructor | src/PGN-converter/pgn_converter.h:29-33 | an empty buffer and the given position, result and score |
| ConverterObject.Converter.Convert | src/PGN-converter/pgn_converter.h:35-52 | the fields are reset and every line is processed in order, as ProcessLines states |
| ConverterObject.Converter.ProcessLine | src/PGN-converter/pgn_converter.h:54-155 | the fields change as the value function ProcessLine says, or the line would assert |
| ConverterObject.Converter.BlankLine | src/PGN-converter/pgn_converter.h:55-63 | the blank-line branch |
| ConverterObject.Converter.TokenLoop | src/PGN-converter/pgn_converter.h:86-153 | the movetext loop over the tokens of a line |
| ConverterObject.Converter.TagLine | src/PGN-converter/pgn_converter.h:66-82 | the tag-pair branch |
| ConverterObject.Converter.ReadToken | src/PGN-converter/pgn_converter.h:89-152 | one movetext token |
| ConverterObject.Converter.CommentStep | src/PGN-converter/pgn_converter.h:95-141 | one token inside a comment |
| ConverterObject.Converter.CommentEndStep | src/PGN-converter/pgn_converter.h:120-140 | closing the comment and emitting the record |
| ConverterObject.Converter.ReadScore | src/PGN-converter/pgn_converter.h:96-118 | the score annotation read, if any |
| ConverterObject.Converter.MoveStep | src/PGN-converter/pgn_converter.h:143-150 | a move token: snapshot the FEN, then apply the move |
| ConverterProperties.BlankLineOutsideBlock | src/PGN-converter/pgn_converter.h:55-62 | a blank line outside a tag block changes nothing |
| ConverterProperties.BlankLineEndsBlock | src/PGN-converter/pgn_converter.h:55-63 | a blank line ending a tag block clears `isTagPair` and `foundFEN`, keeps the position if a FEN tag came and resets it to the start position otherwise |
| ConverterProperties.TagNeedsBracket | src/PGN-converter/pgn_converter.h:66-67 | a tag line not ending in `]` fails the assert |
| ConverterProperties.ResultTag | src/PGN-converter/pgn_converter.h:68-74 | the Result tag sets gameResult from `line[11]` and marks the block, nothing else |
| ConverterProperties.ResultTagValues | src/PGN-converter/pgn_converter.h:68-74 | "1-0" gives +1, "0-1" gives -1 and "1/2-1/2" gives 0 |
| ConverterProperties.FenTag | src/PGN-converter/pgn_converter.h:76-81 | the FEN tag sets foundFEN and the position the intended Position(fen) parses from offset 6, and marks the block |
| ConverterProperties.OtherTag | src/PGN-converter/pgn_converter.h:66-82 | any other tag only marks the block |
| ConverterProperties.MateScore | src/PGN-converter/pgn_converter.h:98-115 | `+Mn` gives MATE_SCORE - n and `-Mn` gives -MATE_SCORE + n |
| ConverterProperties.NoScore | src/PGN-converter/pgn_converter.h:95-109 | a comment token without a sign carries no score |
| ConverterProperties.PawnScore | src/PGN-converter/pgn_converter.h:105-117 | `+x` gives 100x and `-x` gives -100x |
| ConverterProperties.CentipawnsOfDecimal | src/PGN-converter/pgn_converter.h:106 | a decimal with two fraction digits converts to its exact centipawn value |
| ConverterProperties.CommentMode | src/PGN-converter/pgn_converter.h:92-121 | after a token, comment mode is on iff it was on or the token opens with `{`, and the token does not close with `}` |
| ConverterProperties.SkippedToken | src/PGN-converter/pgn_converter.h:143-146 | move numbers and results outside comments change nothing |
| ConverterProperties.MoveTokenPlays | src/PGN-converter/pgn_converter.h:143-150 | any other token stores `position.fen()` and then applies the move, nothing else |
| ConverterProperties.ScoredToken | src/PGN-converter/pgn_converter.h:95-140 | a comment token whose score reads as `v` stores `v`, keeps the old bytes and appends the record of fen, `v` and the relative result (`1 + |fen| + 2 + 1` bytes by Record's contract), leaving comment mode on a closing `}` |
| ConverterProperties.InComment | src/PGN-converter/pgn_converter.h:92-95 | a token starting with `{` or read in comment mode is a comment token |
| ConverterProperties.CommentScored | src/PGN-converter/pgn_converter.h:119-140 | once its score `v` is read, a comment token stores `v` and appends its record after the old bytes |
| ConverterProperties.LongFenFails | src/PGN-converter/pgn_converter.h:125 | a scored token with a FEN over 255 characters fails the assert |
| ConverterProperties.ResultRelative | src/PGN-converter/pgn_converter.h:127 | the result byte is gameResult when black is to move after the move, and -gameResult otherwise |
| ConverterProperties.TokenKeepsBuffer | src/PGN-converter/pgn_converter.h:88-153 | a token never changes bytes already written |
| ConverterProperties.TokensKeepBuffer | src/PGN-converter/pgn_converter.h:88-153 | the token loop only appends |
| ConverterProperties.LineKeepsBuffer | src/PGN-converter/pgn_converter.h:54-155 | a line only appends |
| ConverterProperties.LinesKeepBuffer | src/PGN-converter/pgn_converter.h:44-48 | the whole conversion only appends |
| TrainingRecords.TextBytes | src/PGN-converter/pgn_converter.h:135 | the FEN bytes are its characters one by one |
| TrainingRecords.Int16Bytes | src/PGN-converter/pgn_converter.h:137 | an int16 score is written as two bytes |
| TrainingRecords.BytesText | src/training_data_loader.cpp:265 | the loader reads the bytes back as characters one by one |
| TrainingRecords.TextBytesRoundTrip | src/training_data_loader.cpp:265 | reading back the bytes of an ASCII text gives the text |
| TrainingRecords.Int16RoundTrip | src/training_data_loader.cpp:274 | an int16 written as two little-endian bytes reads back as itself |
| TrainingRecords.Int8RoundTrip | src/training_data_loader.cpp:276 | an int8 written as a byte reads back as itself |
| TrainingRecords.Record | src/PGN-converter/pgn_converter.h:129-139 | a record of a FEN of length n has `1 + n + 2 + 1` bytes |
| TrainingRecords.RecordFields | src/PGN-converter/pgn_converter.h:129-139 | a record starts with the length, then the FEN bytes, the score and the result |
| PgnToTd.PyFind | src/pgn_to_td.py:79 | `str.find` gives -1 or an index holding the character |
| PgnToTd.PyFloat | src/pgn_to_td.py:84 | a parsed decimal has digits only in its parts |
| PgnToTd.Utf8 | src/pgn_to_td.py:55 | UTF-8 text is at least as long as the string |
| PgnToTd.Entry | src/pgn_to_td.py:53-57 | write_entry appends `1 + len(utf8 fen) + 2 + 1` bytes |
| PgnToTd.TdWriter.constructor | src/pgn_to_td.py:11-16 | an empty buffer and no invalid scores |
| PgnToTd.TdWriter.WriteEntry | src/pgn_to_td.py:53-57 | appends the entry when no `to_bytes` raises, and never changes bytes already written |
| PgnToTd.TdWriter.ProcessGame | src/pgn_to_td.py:39-51 | writes the records of the game and counts an abandoned game once |
| PgnToTd.TdWriter.PlayGame | src/pgn_to_td.py:43-51 | the loop over the mainline |
| PgnToTd.TdWriter.VisitNode | src/pgn_to_td.py:44-51 | one node: its record, or the abandonment |
| PgnToTd.TdWriter.VisitAt | src/pgn_to_td.py:44-51 | the node at index i, as its entry in NodeEntries says: its record, the abandonment, or the exception |
| PgnToTd.NodeEntries | src/pgn_to_td.py:43-51 | one outcome per mainline node |
| PgnToTdProperties.GameResultTag | src/pgn_to_td.py:63-72 | game_result is +1, 0 or -1 exactly for "1-0", "1/2-1/2" and "0-1" |
| PgnToTdProperties.GameResultUnfinished | src/pgn_to_td.py:72 | an unfinished game "*" fails the assert |
| PgnToTdProperties.PyIntDecimal | src/pgn_to_td.py:90 | `int` of a decimal gives the number |
| PgnToTdProperties.PyFloatDecimal | src/pgn_to_td.py:93 | `float` of a two-digit decimal has the exact hundredfold value |
| PgnToTdProperties.PyFindAt | src/pgn_to_td.py:79 | `str.find` finds the first occurrence |
| PgnToTdProperties.PyFindNone | src/pgn_to_td.py:79 | `str.find` gives -1 when there is none |
| PgnToTdProperties.ScoreOfText | src/pgn_to_td.py:79-98 | the score is that of the text before the first `/` |
| PgnToTdProperties.ScoreAfterNewline | src/pgn_to_td.py:76-77 | a leading newline is dropped |
| PgnToTdProperties.ScoreOfSlash | src/pgn_to_td.py:79-80 | a comment starting with `/` has no score (find returns 0, which is falsy) |
| PgnToTdProperties.PawnScore | src/pgn_to_td.py:82-98 | `±x.yz/...` gives ±(100x + 10y + z) |
| PgnToTdProperties.MateScore | src/pgn_to_td.py:87-98 | `±Mn/...` gives ±(MATE_SCORE - n) |
| PgnToTdProperties.UnsignedScore | src/pgn_to_td.py:84-85 | an unsigned score is 0 when it is zero and None otherwise |
| PgnToTdProperties.ZeroScore | src/pgn_to_td.py:84-98 | "0.00" scores 0 |
| PgnToTdProperties.EmptyComment | src/pgn_to_td.py:76 | an empty comment raises IndexError |
| PgnToTdProperties.Utf8Ascii | src/pgn_to_td.py:55 | the UTF-8 bytes of an ASCII FEN are its characters |
| PgnToTdProperties.EntryIsRecord | src/pgn_to_td.py:53-57 | for an ASCII FEN, write_entry appends the same record as the C++ converter |
| PgnToTdProperties.OutcomeAbandon | src/pgn_to_td.py:46-48 | the first invalid score abandons the game and keeps what was written |
| PgnToTdProperties.GameAbandoned | src/pgn_to_td.py:43-48 | records written before the first invalid score stay in the buffer, and the game counts as abandoned |
| PgnToTdProperties.FirstRecord | src/pgn_to_td.py:43-57 | the first record holds the parent FEN, the score, and the result negated when black is to move |
| FeatureIndex.CeilToMultipleIsLeast | src/training_data_loader.cpp:38-40 | `ceilToMultiple(n, r)` lies in `n .. n + r - 1`, so it is the multiple of r nearest above n |
| FeatureIndex.PaddedSize | src/training_data_loader.cpp:44-51 | NUM_FEATURES is 42684 and PADDED_NUM_FEATURES 42688, a multiple of 16 |
| FeatureIndex.SkippedCases | src/training_data_loader.cpp:73-77 | init skips exactly the own king, psq == ksq, the enemy king at distance 1, and pawns on ranks 1 and 8 |
| FeatureIndex.CellDecode | src/training_data_loader.cpp:71 | a table cell code decodes to its colour and type |
| FeatureIndex.NearCountAll | src/training_data_loader.cpp:75 | the squares within distance 1 of ksq, ksq included, form a 2-3 by 2-3 block |
| FeatureIndex.OwnKingBlock | src/training_data_loader.cpp:73 | the own king gets no slot |
| FeatureIndex.EnemyKingBlock | src/training_data_loader.cpp:74-75 | the enemy king gets a slot on every square farther than 1 from ksq |
| FeatureIndex.PawnBlock | src/training_data_loader.cpp:74-76 | pawns get the 48 middle squares except ksq |
| FeatureIndex.PieceBlock | src/training_data_loader.cpp:74 | knights to queens get every square except ksq |
| FeatureIndex.ColorBlocks | src/training_data_loader.cpp:67-82 | one colour under one king square gets 47 or 48 pawn slots, 63 for each of knight to queen, and for the enemy king every square outside the 3x3 block around ksq |
| FeatureIndex.KingBlocks | src/training_data_loader.cpp:66-83 | one king square gets 664 slots, less 2 when ksq is off the back ranks, less the squares within distance 1 of it |
| FeatureIndex.TotalSlots | src/training_data_loader.cpp:84 | init assigns exactly PIECE_INPUT_SIZE = 41916 slots per perspective |
| FeatureIndex.SlotInKing | src/training_data_loader.cpp:79 | a slot lies in its king square's range |
| FeatureIndex.SlotBound | src/training_data_loader.cpp:79 | every slot is below PIECE_INPUT_SIZE |
| FeatureIndex.SlotOrder | src/training_data_loader.cpp:64-79 | slots grow in (ksq, colour, type, psq) loop order |
| FeatureIndex.OrderAcrossKings | src/training_data_loader.cpp:66 | a lower king square has lower slots |
| FeatureIndex.OrderAcrossColors | src/training_data_loader.cpp:67 | white pieces come before black ones |
| FeatureIndex.OrderAcrossTypes | src/training_data_loader.cpp:68 | lower types come first |
| FeatureIndex.SlotInjective | src/training_data_loader.cpp:61-85 | distinct tuples that are not skipped get distinct slots |
| FeatureIndex.SlotOnto | src/training_data_loader.cpp:61-85 | every index below PIECE_INPUT_SIZE is the slot of some tuple that is not skipped |
| FeatureTransformer.BackRankMask | src/training_data_loader.cpp:76 | `RANK_1_BB \| RANK_8_BB` holds exactly the back-rank squares |
| FeatureTransformer.FeatureTable.constructor | src/training_data_loader.cpp:59-86 | the table is allocated and holds every slot init assigns |
| FeatureTransformer.FeatureTable.Init | src/training_data_loader.cpp:61-86 | every tuple that is not skipped holds its slot, and the other cells are unchanged |
| FeatureTransformer.FeatureTable.FillPerspective | src/training_data_loader.cpp:64-85 | one perspective's cells |
| FeatureTransformer.FeatureTable.FillKing | src/training_data_loader.cpp:66-83 | one king square's cells; the counter ends at the next king square's start |
| FeatureTransformer.FeatureTable.FillColor | src/training_data_loader.cpp:67-82 | the piece-type loop of one colour: every assigned cell of that colour holds its table value, the counter advances by the number of tuples of that colour, every other cell is unchanged |
| FeatureTransformer.FeatureTable.FillType | src/training_data_loader.cpp:67-81 | one turn of the piece-type loop: the cells of the types up to `pt` are filled and the rest of the row keeps its value from before the loop; the counter ends where the next type starts |
| FeatureTransformer.FeatureTable.FillBlock | src/training_data_loader.cpp:68-81 | the piece-square loop of one piece type: exactly the assigned cells of that piece code hold their table value, the skipped ones and every other cell are unchanged, and the counter advances by the number of squares not skipped |
| FeatureTransformer.SkipTest | src/training_data_loader.cpp:73-77 | the skip condition |
| FeatureTransformer.FeatureTable.FillFeatures | src/training_data_loader.cpp:88-130 | writes pairs (i, active[j]) at slots 2n and 2n+1 and value 1 at slot n for the sorted feature list; other slots untouched; fails without a king or with more than 37 features |
| FeatureTransformer.FeatureTable.Collect | src/training_data_loader.cpp:98-119 | the active list before sorting: pieces, castling, en passant |
| FeatureTransformer.FeatureTable.CollectPieces | src/training_data_loader.cpp:98-107 | one index for each occupied square but the king's |
| FeatureTransformer.FeatureTable.PushSquare | src/training_data_loader.cpp:104-107 | one turn of the popLSB loop: the table value of the lowest square is appended and that square is popped |
| FeatureTransformer.FeatureTable.Lookup | src/training_data_loader.cpp:106 | reading the initialised table gives the slot init assigned, or 0 for a cell init skips |
| FeatureTransformer.PushIf | src/training_data_loader.cpp:112-119 | `active[size++] = v` when the condition holds |
| FeatureTransformer.PushCastlingPair | src/training_data_loader.cpp:112-115 | two of the castling pushes |
| FeatureTransformer.CollectCastling | src/training_data_loader.cpp:109-116 | the castling indices in WQ, WK, BQ, BK order |
| FeatureTransformer.CastlingHalves | src/training_data_loader.cpp:109-116 | the castling list in two halves |
| FeatureTransformer.CollectMisc | src/training_data_loader.cpp:109-119 | castling and en-passant indices |
| FeatureTransformer.SortPrefix | src/training_data_loader.cpp:122 | the first `size` indices are sorted in place |
| FeatureTransformer.WriteFeatures | src/training_data_loader.cpp:124-129 | the pairs and values of a list written after slot n0, nothing else touched |
| FeatureLists.SquaresOfOrder | src/training_data_loader.cpp:104-105 | the popLSB loop visits exactly the set squares, in ascending order |
| FeatureLists.PieceFeaturesAt | src/training_data_loader.cpp:104-107 | the k-th piece index is the table value of the k-th square |
| FeatureLists.CastlingCount | src/training_data_loader.cpp:109-116 | one castling index per right held |
| FeatureLists.CollectedCount | src/training_data_loader.cpp:98-119 | one index per occupied square other than the king's, one per right, one for an en-passant square |
| FeatureLists.TableValueBound | src/training_data_loader.cpp:106 | a table value is below PIECE_INPUT_SIZE |
| FeatureLists.PieceFeaturesBound | src/training_data_loader.cpp:104-107 | every piece index is below PIECE_INPUT_SIZE |
| FeatureLists.CastlingBounds | src/training_data_loader.cpp:111-115 | the castling indices are distinct and within `offset .. offset+3` |
| FeatureLists.MiscBounds | src/training_data_loader.cpp:109-119 | castling indices lie in the first four misc slots of ksq, the en-passant index in the rest of its misc block, and every misc index is below NUM_FEATURES |
| FeatureLists.CollectedBound | src/training_data_loader.cpp:98-119 | every collected index is below NUM_FEATURES |
| FeatureLists.ActiveFeaturesBound | src/training_data_loader.cpp:122 | the sorted list is an ascending permutation of the collected one, below NUM_FEATURES |
| FeatureLists.TableValueInjective | src/training_data_loader.cpp:79 | under one king square, the table maps distinct assigned (piece, square) to distinct indices |
| FeatureLists.PieceFeaturesDistinct | src/training_data_loader.cpp:104-107 | the piece indices are distinct when every piece has a slot |
| FeatureLists.MiscDistinct | src/training_data_loader.cpp:109-119 | the castling and en-passant indices are distinct |
| FeatureLists.CollectedDistinct | src/training_data_loader.cpp:98-119 | the whole list is distinct when every piece has a slot |
| FeatureLists.ActiveFeaturesDistinct | src/training_data_loader.cpp:122 | after the sort the list is strictly ascending |
| Sorting.SortedUnique | src/training_data_loader.cpp:122 | two ascending lists with the same multiset are equal, so any correct sort gives Sort's result |
| Sorting.SortDistinct | src/training_data_loader.cpp:122 | sorting a list without repeats gives a strictly ascending one |
| Sorting.Insert | src/training_data_loader.cpp:122 | inserting into an ascending list keeps it ascending and adds exactly one copy of x |
| SparseBatches.Features | src/training_data_loader.cpp:88-130 | the features of an entry are at most MAX_ACTIVE_FEATURES = 37 |
| SparseBatches.ResultValue | src/training_data_loader.cpp:180 | `(result + 1) / 2` maps -1, 0, 1 to 0, 0.5, 1 |
| SparseBatches.Lists | src/training_data_loader.cpp:163-164 | one feature list per entry |
| SparseBatches.AppendRow | src/training_data_loader.cpp:124-129 | writing a row's pairs after the matrix so far gives the matrix with that row |
| SparseBatches.AppendValues | src/training_data_loader.cpp:128 | the values stay all ones |
| SparseBatches.MatrixSize | src/training_data_loader.cpp:158-161 | the matrix of rows of at most m columns has at most m times the rows, so `size * 37` slots suffice |
| SparseBatches.MatrixRowsOrdered | src/training_data_loader.cpp:163-164 | the rows of the coordinate matrix are below the count and non-decreasing |
| SparseBatches.MatrixColumnsAscending | src/training_data_loader.cpp:122-129 | within a row the columns strictly increase when each list does |
| SparseBatches.MatrixColumnsBound | src/training_data_loader.cpp:124-129 | the columns keep the bound of the lists |
| SparseBatches.SparseProperties | src/training_data_loader.cpp:148-183 | the batch matrix fits the capacity, has ordered rows, rows below the size, columns below NUM_FEATURES, and strictly increasing columns within a row |
| SparseBatches.SparseBatch.constructor | src/training_data_loader.cpp:148-165 | every sample and both perspectives' matrices are filled from the entries |
| SparseBatches.SparseBatch.FillEntry | src/training_data_loader.cpp:177-183 | the sample i is filled and both perspectives' matrices grow by its rows |
| SparseBatches.FillSample | src/training_data_loader.cpp:178-180 | stm, score and `(result+1)/2` of sample i, nothing else |
| SparseBatches.AppendEntry | src/training_data_loader.cpp:181-182 | one perspective's features of sample i |
| BatchStream.ReadAt | src/training_data_loader.cpp:257-278 | a read succeeds only inside the buffer and advances the cursor by `1 + fenSize + 3` |
| BatchStream.SkipAt | src/training_data_loader.cpp:243-255 | the skipping read never moves the cursor back |
| BatchStream.ReadOrSkip | src/training_data_loader.cpp:234-236 | either read never moves the cursor back |
| BatchStream.ReadAtFields | src/training_data_loader.cpp:262-277 | the entry read is the position of the FEN bytes, the int16 score and the int8 result |
| BatchStream.ReadRecordOf | src/training_data_loader.cpp:257-278 | reading a record written by the converter, followed by at least one byte, gives back its position, score and result |
| BatchStream.ReadDropsFinalRecord | src/training_data_loader.cpp:268-271 | a record ending exactly at the end of the buffer is dropped and the stream stops |
| BatchStream.ReadIsRecord | src/training_data_loader.cpp:262-277 | every successful read consumed exactly one record |
| BatchStream.I16Bytes | src/training_data_loader.cpp:274 | two bytes read as int16 write back as the same bytes |
| BatchStream.I8Byte | src/training_data_loader.cpp:276 | a byte read as int8 writes back as the same byte |
| BatchStream.SkipJumpsRecord | src/training_data_loader.cpp:243-255 | the skipping read jumps over one whole record and then reads the next |
| BatchStream.Resize | src/training_data_loader.cpp:230 | `entries.resize(batchSize)` keeps the old entries and pads with the value-initialised entry |
| BatchStream.ReadStep | src/training_data_loader.cpp:232-236 | one step of next keeps the batch length and never clears the stop flag |
| BatchStream.NextLoop | src/training_data_loader.cpp:229-239 | the loop of next keeps the batch length and only moves the cursor forward |
| BatchStream.ReadBatch | src/training_data_loader.cpp:229-239 | the reference reading of a batch: batchSize entries read or skipped in order, or none |
| BatchStream.NextLoopReadsBatch | src/training_data_loader.cpp:229-239 | the reference reads no batch exactly when the loop returns null or ends with stop set; otherwise the loop holds the reference's entries and cursor |
| BatchStream.StoppedStaysNull | src/training_data_loader.cpp:231-232 | once stopped, next returns null and changes nothing |
| BatchStream.NextCheckedIsReadBatch | src/training_data_loader.cpp:229-239 | the corrected next returns a batch iff the reference reads one, and the same entries |
| BatchStream.OneReadLoop | src/training_data_loader.cpp:229-239 | with batch size 1 the loop never returns null: it leaves the outcome of its one read, and the reference reads no batch exactly when that read stops |
| BatchStream.TwoRecordReads | src/training_data_loader.cpp:257-278 | on a file of two records the first reads back as its fields and the read of the second stops, one byte past its FEN |
| BatchStream.ReadThenStop | src/training_data_loader.cpp:229-239 | with batch size 1, when the first read succeeds and the next stops, neither call returns null and the second keeps the first call's entry, where the reference reads no batch |
| BatchStream.FirstOfTwoRecords | src/training_data_loader.cpp:229-239 | the first `next` with batch size 1 on a file of two records holds the first record, with the cursor after it and the stream running |
| BatchStream.StaleEntryBatch | src/training_data_loader.cpp:229-239 | as written, the second `next` with batch size 1 on a file of two records ends with `stop` set and still holds the first record, so it is not null, while the reference reads no batch from that cursor |
| BatchStream.SparseBatchStream.constructor | src/training_data_loader.cpp:202-223 | cursor at 0, not stopped, the given buffer and batch size |
| BatchStream.SparseBatchStream.ReadEntry | src/training_data_loader.cpp:257-278 | `readEntry<false>`: state after one step as ReadStep says |
| BatchStream.SparseBatchStream.SkipEntry | src/training_data_loader.cpp:243-255 | `readEntry<true>`: the skipping step |
| BatchStream.SparseBatchStream.Next | src/training_data_loader.cpp:229-239 | ends in the state NextLoop gives; returns null when the loop saw stop; otherwise a fresh batch of batchSize entries filled from them (ok is false when an entry has no king or too many features) |
| SyntheticBatches.RowColumns | training_data_loader.cpp:48-51 | ten columns 0, 1000, ..., 9000 |
| SyntheticBatches.Uniform | training_data_loader.cpp:48-56 | n rows of those columns |
| SyntheticBatches.UniformMatrix | training_data_loader.cpp:48-51 | pair k of the matrix is `(k/10, 1000*(k%10))` |
| SyntheticBatches.SyntheticIsMatrix | training_data_loader.cpp:48-56 | the written index arrays hold the coordinate matrix, laid out as the real batch's |
| SyntheticBatches.SyntheticProperties | training_data_loader.cpp:48-56 | rows non-decreasing and below n, columns below NUM_FEATURES and strictly increasing within a row |
| SyntheticBatches.FillParity | training_data_loader.cpp:40-42 | `stm[i] = i % 2` |
| SyntheticBatches.FillConstant | training_data_loader.cpp:44-46 | every cell gets the value |
| SyntheticBatches.FillPairs | training_data_loader.cpp:48-51 | pair i is `(i/10, 1000*(i%10))` |
| SyntheticBatches.SyntheticBatch.constructor | training_data_loader.cpp:29-65 | size 2048, 20480 features per perspective, stm alternating, score 0, the index pattern, every value 1 |

## Left out

- Floating point. The batch arrays are `real`. The `atof` and `float()` conversions of
  scores are exact decimal arithmetic truncated to an integer; float rounding is not
  modelled. In the source `100 * 0.29` is 28.999999999999996 in binary floating point and
  truncates to 28, where ConverterProperties.CentipawnsOfDecimal and
  PgnToTdProperties.PyFloatDecimal state the exact value 29.
- PgnToTd.PyFloat reads only `[sign]digits[.digits]` between white space. Python's `float()`
  also accepts exponents (`1e2`), `inf`, `nan` and `_` between digits. PyFloat reports those
  texts as the ValueError that `float()` raises on other text. So an unsigned `inf`, `nan` or
  `1e2`, which the test at src/pgn_to_td.py:84 turns into a None score, and a `+1e2`, which
  src/pgn_to_td.py:93 reads as 10000, are an exception in the model. Exponent forms are left
  out because `float()` rounds them, for example `1e-400` to 0.0.
- PgnConverter.Centipawns reads the same decimal forms only. C's `atof` also reads exponents,
  hexadecimal floats, `inf` and `nan`. Centipawns stops at the `e` of `1e2` and gives 100
  centipawns, where the source gives 10000.
- PgnConverter.TagLine parses the `[FEN` tag with the intended Position(fen) (PgnFen.ParseFen),
  not the constructor as written. The constructor as written has undefined behaviour on every
  FEN with an en-passant square (FenRoundTrip.FenAsWrittenLosesEp and the first row of
  "## Findings"). With the intended parser, the converter goes on with the position the tag
  names. On a tag whose en-passant field is `-`, the two parsers agree
  (FenRoundTrip.DashAgrees).
- ConverterObject.Converter.TagLine parses the tag with the intended parser in the same way.
- ConverterProperties.FenTag states the position built by this intended parser.
- BatchStream.EntryOf builds the position of a loaded record with the same intended parser
  (PgnFen.ParseFen). In its place src/training_data_loader.cpp would run the
  src/PGN-converter/pgn_position.h constructor as written, which the model puts in place of
  the src/chess/position.h stub (see the src/chess/position.h line below), and which is
  undefined on every record whose FEN has an en-passant square. The two agree on a `-` field
  (FenRoundTrip.DashAgrees).
- BatchStream.SparseBatchStream.ReadEntry reads records through EntryOf, with the same
  intended parser.
- python-chess. PgnToTd.Node stands for one node of `game.mainline()`. It holds that node's
  `comment`, `node.parent.board().fen()` and `node.parent.turn() == chess.WHITE` as given
  values, so PGN parsing, board replay and FEN printing by python-chess are not modelled.
  `game.board()` is unused by the source.
- `convert()` of src/pgn_to_td.py is not modelled. It counts the games with
  `chess.pgn.read_game`, reopens the file, calls `process_game` on each game and prints a
  warning. PgnToTd.TdWriter.ProcessGame models one call of `process_game`.
- File and process I/O:
  - `Converter::convert` is modelled from the lines on;
  - the stream constructor's whole-file read becomes a given byte sequence;
  - `write` and `main` of src/pgn_to_td.py;
  - src/PGN-converter/main.cpp, which names a type that does not exist.
- Randomness. `std::bernoulli_distribution` over `mt19937_64` is replaced by an input
  sequence of skip decisions, one per batch slot.
- The C ABI. The `extern "C"` exports of src/training_data_loader.cpp are left out. So are the
  Python consumers that load the library through ctypes: dataset.py and src/dataset.py.
- `src/chess/position.h` is a stub. `fillEntry` reads `e.pos.sideToMove` from it, so the
  loader is modelled on the position of pgn_position.h, whose side to move is `stm`.
- Uninitialised fields. `Converter` leaves `gameResult` and `score` uninitialised. Here they
  are constructor parameters.
- Text is ASCII. The byte of a character is its code below 256. UTF-8 is modelled for the
  Python writer only, and EntryIsRecord connects the two writers for ASCII FENs.
- `BatchStream.SparseBatchStream.Next` returns `ok == false` instead of a batch when an
  entry has no king or more than 37 features. In the source, `fillFeatures` then has
  undefined behaviour.
- `FeatureTransformer.FeatureTable.FillFeatures` likewise reports `ok == false` for a
  position without the perspective's king or with more than 37 active features. In the
  source these read outside the table or overflow `active`.
- The size assert `size * MAX_ACTIVE_FEATURES * 2 <= max` at src/training_data_loader.cpp:150
  reads `size` before assigning it. It is not modelled.
- `uint16_t pieceIndices`: every slot is below 41916, so no stored value is narrowed.
- `MIN_MATE_SCORE` is undefined in src/pgn_to_td.py. A score above MAX_EVAL_SCORE raises
  NameError, which the model represents as `None`.
- `write_entry` can fail part-way. `PgnToTd.TdWriter.WriteEntry` models this as written: when
  the score's or the result's `to_bytes` raises, the length byte and the UTF-8 FEN (and the
  score) already appended stay in the buffer.
- `applyMove` and `readMove<pt>` keep the rook-capture tests as written. The intended test,
  MoveProperties.RookCaptureRightsIntended, is stated beside them and not used by the move
  functions. So the model, like the source, never revokes a right when a rook is captured.
- `mirrored()` is modelled on its non-MSVC path only.
- `attacks.h` is not part of this model. Its tables are defined by ray walking.
- Not modelled:
  - the `operator<<` pretty-printer of Position;
  - `Position::startPosition` beyond parsing START_FEN;
  - the training scripts, model and serializer in Python.

## Findings

| source | as written | input that shows it | evidently intended | confidence | as-written member | corrected member |
|---|---|---|---|---|---|---|
| src/PGN-converter/pgn_position.h:186 | the en-passant square is `square::make(file::CHAR_IDENTIFYERS[idx++], rank::CHAR_IDENTIFYERS[idx++])`, indexing eight-entry tables by the string offset | any FEN with an en-passant square, e.g. `rnbqkbnr/ppp1pppp/8/3pP3/8/8/PPPP1PPP/RNBQKBNR w KQkq d6 0 3`, where the offset is far beyond 7 | decode the file and rank letters `fen[idx]`, `fen[idx+1]` | high (not executed) | FenRoundTrip.FenAsWrittenLosesEp | FenRoundTrip.FenRoundTrip |
| src/PGN-converter/pgn_position.h:184-189 | after the square, the two `idx++` and then `idx += 2` leave the cursor one character into the half-move clock field, where `std::stoi` starts reading | with the letter lookup corrected, a FEN ending `w KQkq d6 0 3` (after 1. e4 e6 2. e5 d5): the clock field is read from the blank before the move number, so rule50Cnt becomes 3 instead of 0 | leave the cursor on the clock field, three characters after the start of the square | high (not executed) | FenRoundTrip.ClockMisread | FenRoundTrip.FenRoundTrip |
| src/PGN-converter/pgn_position.h:318-323 | the king's rook-capture test clears `stm ? BLACK_... : WHITE_...`, the mover's own flag, which the king move has just cleared | white's king takes the rook on h8 while black still holds `k`: black keeps its king-side right | clear the opponent's right on the side where its rook was taken | medium (not executed) | MoveProperties.CaptureKeepsOpponentRights | MoveProperties.CaptureRevokesOpponentRight |
| src/PGN-converter/pgn_position.h:456-463 | readMove's rook-capture test runs after `removePiece(to)`, so it reads the emptied square and never fires; it also names the mover's own flags | a knight takes the rook on h8 while black still holds `k`: black keeps its king-side right | test the captured piece before removing it and clear the opponent's right | medium (not executed) | MoveProperties.RookCaptureCheckDead | MoveProperties.CaptureRevokesOpponentRight |
| src/chess/bitboard.h:93-97 | `popMSB` returns `MSB()` and then does `data &= data - 1`, clearing the lowest bit | the board {a1, b1} (data 3): it returns b1 and leaves {b1} | clear the bit it returns | high (not executed) | Bitboards.PopMSBCounterexample | Bitboards.PopMSBCorrectedSquares |
| src/training_data_loader.cpp:229-239 | `next` tests `stop` only at the start of each iteration, so when the last read of the loop sets `stop` it still returns a batch, holding the default-constructed or stale entry in that slot | a file of two records and batch size 1: the first call returns the first record; in the second call the only read stops on the second record, which ends at the end of the file, and the loop ends, so the first record is returned a second time | return null when any read of the batch stopped | medium (not executed) | BatchStream.StaleEntryBatch | BatchStream.NextCheckedIsReadBatch |
