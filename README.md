# A verified model of a Python chess engine's rules and search

This project models the core of a small Python chess program: the FEN position reader, the 8x8 integer board with its move generators and legality filter, the check and checkmate queries, the material evaluation, and the alpha-beta minimax the computer player uses. Pieces are the integers 0..12:
- 0 is an empty square;
- odd codes are white and even codes are black;
- the codes come in pairs: king 1/2, queen 3/4, bishop 5/6, knight 7/8, rook 9/10, pawn 11/12.

Rank 0 is the top of the board (black's back rank).

The Dafny modules follow the program's files.

| module | file | what it holds |
|---|---|---|
| `Chessboard` | chessboard.dfy | The shared vocabulary: `Grid` (`seq<seq<int>>`, 8x8, cells 0..12), squares, moves, `MoveResult` (the copy-and-move used by move_piece and get_board_from_move), `Flip` (the side-to-move toggle), and the `Option`/`Result` wrappers. |
| `Pieces` | pieces.dfy | pieces.py: the letter-to-code table and the code-to-glyph tables. |
| `Board` | board.dfy | board.py: FEN splitting, the placement parser with its error path, and the `BoardState` class of that file (placement grid and side-to-move letter). |
| `MoveGen` | movegen.dfy | The piece move generators of model.py as functions of the grid: sliding rays, knight and king jumps, pawn steps and captures, and get_psuedolegal_moves. |
| `Legality` | legality.dfy | find_king, the opponent replies verify_move collects, the legal-move filters, get_all_legal_moves, in_check and in_checkmate, as functions of the grid. |
| `Model` | model.dfy | model.py's `BoardState` class: mutable `board` and `currentMove` fields, and one method per source method. Each method is proved to compute the `MoveGen`/`Legality` function of the grid it reads, or to leave the state that function describes. |
| `Evaluation` | evaluation.dfy | evaluate's material count and its check and mate adjustments, as functions. |
| `Search` | search.dfy | minimax with alpha-beta pruning over any position type, beside the unpruned minimax value it is proved to agree with inside the search window. |
| `Ai` | ai.dfy | ai.py's functions as methods over `Model.BoardState` objects: evaluate, get_board_from_move, get_next_moves and minimax. They are proved equal to `Evaluation.Evaluate`, `Model.AfterMovePiece`, the successor list and `Search.Minimax`. |

The imperative code (the classes and every loop) is modelled as methods with loop invariants. Each method is proved against a specification function, and the properties of the program are proved as lemmas about those functions.

## Behaviour modelled as written

In each of these places the code's behaviour is easy to misread. The model follows the code.
- **evaluate** (ai.py:29-36):
  - the check test looks at white first;
  - a checkmated white scores +10000 and a checkmated black -10000;
  - black's check is consulted only when white is not in check.
- **in_checkmate** (model.py:341-342):
  - it turns its colour into 1 or 0 and passes that integer to get_all_legal_moves;
  - get_all_legal_moves maps every argument other than the letter 'w' to black, so it always searches black's moves;
  - each resulting board is then tested with in_check of the integer colour;
  - `Legality.InCheckmateBlackMoves` and `Legality.AllLegalMovesParityIsBlack` state this.
- **Pawn double step** (model.py:104, model.py:125): it checks only that the destination is empty, not the square jumped over.
- **Missing king:**
  - in_check returns true when there is no king (model.py:331-334);
  - verify_move accepts a move after which the mover has no king (model.py:323-326).
- **FEN side to move:**
  - model.py stores 1 for the token "w" and 0 for any other token;
  - board.py stores the token verbatim;
  - a FEN with a single space-separated field raises IndexError in both files.
- **Invalid placement:** parse_board returns (not raises) a ValueError object, and model.py keeps it in its board field. The model gives that state the empty grid, so no method of the class can be called on it.

## Model

| member | source | states |
|---|---|---|
| Chessboard.Flip | model.py:96 | The new side to move is 0 or 1, and it is the other side whenever the old one was 0 or 1. |
| Chessboard.MoveResult | model.py:93-95 | The moved piece is on the destination, the origin is empty when it differs from the destination, and every other square is unchanged. |
| Chessboard.MoveResultSameSquare | model.py:93-95 | Moving a piece onto its own square leaves the grid unchanged (the null move in_check relies on). |
| Pieces.LetterCode | pieces.py:20-25 | Every character maps to a code in 0..12. |
| Pieces.SanToInt | pieces.py:20-25 | The table scan returns exactly the code `LetterCode` gives. |
| Pieces.LetterCodeRange | pieces.py:21-25 | A character gets a non-zero code exactly when it is one of the twelve piece letters. |
| Pieces.LetterCodeColours | pieces.py:2-16 | Upper-case (white) letters get odd codes, and the lower-case letter of the same piece gets the next (black) code. |
| Pieces.LetterCodeIndexed | pieces.py:21 | The i-th letter of the table gets code i + 1. |
| Pieces.LetterCodeInjective | pieces.py:21 | Distinct piece letters get distinct codes. |
| Pieces.Symbol | pieces.py:27-38 | The result is an error exactly for codes outside 0..12, with the message "That is an invalid piece"; code 0 is the blank. |
| Pieces.GetSymbol | pieces.py:27-38 | The table scan returns exactly `Symbol`'s answer. |
| Pieces.SymbolInverted | pieces.py:30-34 | With inverted colours a piece gets the glyph its opposite-colour partner has normally. |
| Pieces.InvertedIsPartnerGlyph | pieces.py:30-34 | Entry by entry, the inverted table holds the partner's normal glyph. |
| Pieces.SymbolInjective | pieces.py:30-37 | Distinct pieces get distinct glyphs in either table. |
| Board.Split | board.py:39 | Splitting gives at least one field, and no field contains the separator. |
| Board.SplitJoin | board.py:39 | Joining the fields of a split with the separator gives back the original string. |
| Board.JoinSplit | board.py:44 | Splitting a join of separator-free fields gives back the fields. |
| Board.SplitNoSeparator | board.py:39 | A string without the separator splits into itself alone. |
| Board.SplitField | board.py:44 | A separator-free field followed by the separator splits off as the first field. |
| Board.IsPieceLetterMembership | board.py:51 | The piece-letter test is membership in "PRNBKQprnbkq", which is the letter table. |
| Board.IsRunDigitMembership | board.py:53 | The run test is the digit test of the source, and its value is 1..8. |
| Board.Zeros | board.py:54-55 | A run of n empty squares has length n and holds only zeros. |
| Board.ParseBoard | board.py:43-65 | The rank and character loops compute `ParsePlacement`: the codes of each rank, or the ValueError. |
| Board.ParseRankErrorIff | board.py:50-57 | A rank fails exactly when one of its characters is neither a piece letter nor a run digit; the failure is the ValueError. |
| Board.ParseRankPrefixError | board.py:56-57 | One bad character makes the whole rank fail. |
| Board.ParseRanksErrorIff | board.py:46-59 | The placement fails exactly when one of its ranks fails. |
| Board.ParseRanksPrefixError | board.py:46-59 | One failing rank makes the whole placement fail. |
| Board.ParseRankLength | board.py:50-55 | A parsed rank has one cell per letter plus the sum of the run digits. |
| Board.ParseRankCodes | board.py:51-55 | Every parsed cell is a code in 0..12. |
| Board.ParseRanksRows | board.py:44-59 | A parsed placement has one row per field, each row the parse of its field. |
| Board.ParseRankLetters | board.py:51-52 | A rank of letters only parses to one code per letter, in order. |
| Board.ParseRanksAll | board.py:46-59 | Fields that each parse to a row give the rows, in order. |
| Board.LetterRank | board.py:51-52 | A rank of piece letters parses to their codes. |
| Board.JoinAppend | board.py:39 | Proof helper. Joining two non-empty runs of fields is joining each, with the separator between the two. |
| Board.StartFront | board.py:37 | Proof helper. The first four rank fields join to "rnbqkbnr/pppppppp/8/8". |
| Board.StartWhite | board.py:37 | Proof helper. The last two rank fields join to "PPPPPPPP/RNBQKBNR". |
| Board.StartBack | board.py:37 | Proof helper. The last four rank fields join to "8/8/PPPPPPPP/RNBQKBNR". |
| Board.StartPlacementLiteral | board.py:37 | The joined rank fields spell the placement of the starting FEN, rnbqkbnr/pppppppp/8/8/8/8/PPPPPPPP/RNBQKBNR. |
| Board.StartSplit | board.py:37 | The start placement splits into its eight rank fields. |
| Board.StartBlackBackRank | board.py:37 | "rnbqkbnr" parses to 10 8 6 4 2 6 8 10. |
| Board.StartWhiteBackRank | board.py:37 | "RNBQKBNR" parses to 9 7 5 3 1 5 7 9. |
| Board.StartPawnRanks | board.py:37 | The pawn ranks parse to eight 12s and eight 11s. |
| Board.StartEmptyRank | board.py:53-55 | "8" parses to eight empty squares. |
| Board.StartRanks | board.py:37 | Every field of the start placement parses to its row. |
| Board.StartPosition | board.py:37 | The start placement parses to the standard initial grid. |
| Board.BoardState.constructor | board.py:6-7 | The placement and side-to-move attributes start as None. |
| Board.BoardState.FenToBoardState | board.py:35-41 | The board becomes the parse of the first field. It raises exactly when there is no second field; otherwise the side to move is that field verbatim. |
| MoveGen.Ray | model.py:151-163 | Every square of a slide is on the board. |
| MoveGen.RayShape | model.py:151-163 | A slide runs over empty squares, ends on a capturable piece or an empty square, and then stops at the edge or at a blocker. |
| MoveGen.RayOpen | model.py:153-154 | Every square of a slide before its last one is empty. |
| MoveGen.RayEnd | model.py:155-160 | A slide that ends on a piece ends on one the mover may capture. |
| MoveGen.RayStop | model.py:152-162 | A slide ending on an empty square is followed by the edge or by a square that stops it. |
| MoveGen.RaySquares | model.py:151-163 | A slide is consecutive squares in its direction from the piece. |
| MoveGen.CapturableOpposite | model.py:155-160 | A capturable code has the parity opposite to the mover's. |
| MoveGen.RayNoFriendly | model.py:151-163 | No slide lands on a piece of the mover's own colour. |
| MoveGen.Jumps | model.py:278-292 | Every knight or king jump listed is on the board. |
| MoveGen.JumpsMember | model.py:281-290 | A square is listed exactly when it is the piece plus some offset, on the board, and empty or capturable. |
| MoveGen.JumpsNoFriendly | model.py:281-290 | No jump lands on a piece of the mover's own colour. |
| MoveGen.KnightGeometry | model.py:278-292 | Knight destinations are exactly the on-board (2,1)/(1,2) leaps to empty or capturable squares. |
| MoveGen.KingGeometry | model.py:294-309 | King destinations are exactly the on-board neighbouring squares that are empty or capturable. |
| MoveGen.PawnMoves | model.py:98-145 | The ValueError is returned exactly for a colour other than 'w' and 'b'; otherwise every destination is on the board. |
| MoveGen.WhitePawnTargets | model.py:102-120 | White pawn destinations are exactly these: from rank 6 the double step to an empty (4, f); the empty square ahead; and the diagonals forward holding black pieces. |
| MoveGen.BlackPawnTargets | model.py:123-141 | The mirror image for black: from rank 1 the double step to an empty (3, f); the empty square below; and diagonals holding white pieces. |
| MoveGen.PawnNoFriendly | model.py:98-145 | No pawn move lands on a piece of the pawn's own colour. |
| MoveGen.RookNoFriendly | model.py:147-210 | No rook move lands on a piece of the rook's own colour. |
| MoveGen.BishopNoFriendly | model.py:212-276 | No bishop move lands on a piece of the bishop's own colour. |
| MoveGen.AllNotFriendlyConcat4 | model.py:147-210 | Proof helper. Four direction lists free of own pieces concatenate to one free of them. |
| MoveGen.PseudoLegal | model.py:359-396 | Every pseudo-legal destination is on the board. |
| MoveGen.PseudoLegalNoFriendly | model.py:359-396 | No pseudo-legal move of any piece lands on a piece of its own colour. |
| MoveGen.PseudoLegalDispatch | model.py:386-396 | An empty square has no moves, and a queen gets the rook moves followed by the bishop moves. |
| Legality.FindFrom | model.py:351-357 | A square found from (r, f) on is on the board and holds the code. |
| Legality.FindFromFirst | model.py:353-357 | The square found is the first in row-major order holding the code; when none is found, no square from there on holds it. |
| Legality.KingSquare | model.py:351-357 | A king found for 'w'/1 or 'b'/0 stands on the board and is that colour's king. |
| Legality.KingSquareFirst | model.py:353-357 | find_king returns the first king in row-major order; when it finds none, the board has none. |
| Legality.ResponsesInRankIncludes | model.py:318-321 | Every pseudo-legal move of an opponent piece in a rank is among the collected replies. |
| Legality.ResponsesInRanksIncludes | model.py:318-321 | Every pseudo-legal move of an opponent piece anywhere in the scanned ranks is collected. |
| Legality.ResponsesAttacked | model.py:318-321 | A square is among the replies exactly when some opponent piece has a pseudo-legal move to it. |
| Legality.VerifyMoveIff | model.py:311-328 | A move is rejected exactly when, after it, the mover's king exists and an opponent piece attacks it; with no king the move is accepted. |
| Legality.Filter | model.py:398-404 | A filter keeps at most its input's elements, and only elements of the input. |
| Legality.FilterMember | model.py:398-404 | An element is kept exactly when it is in the input and passes the test. |
| Legality.LegalAmong | model.py:401-403 | The kept destinations are among the candidates. |
| Legality.LegalAmongSnoc | model.py:401-403 | Proof helper for the filter loop. One more candidate is appended exactly when verify_move accepts it. |
| Legality.LegalMoves | model.py:398-404 | Every legal destination is on the board. |
| Legality.LegalMovesMember | model.py:398-404 | The legal destinations are exactly the pseudo-legal ones verify_move accepts, and there are no more of them than pseudo-legal ones. |
| Legality.Tag | model.py:415 | Tagging keeps the count and pairs each destination with the origin. |
| Legality.TagMember | model.py:415 | A tagged move is exactly the origin paired with one of the destinations. |
| Legality.SquareMoves | model.py:413-416 | Every move listed for a square is on the board. |
| Legality.SquareMovesMember | model.py:413-416 | A square contributes exactly its piece's legal moves, when the piece has the wanted parity. |
| Legality.AllInRank | model.py:412-416 | Every move collected in a rank is on the board. |
| Legality.AllInRankMember | model.py:412-416 | A move is collected in a rank exactly when it starts at a piece of the wanted parity in that rank and goes to a legal destination. |
| Legality.AllInRanks | model.py:411-416 | Every move collected over the ranks is on the board. |
| Legality.AllInRanksMember | model.py:411-416 | A move is collected over the first k ranks exactly when it starts at a piece of the wanted parity there and goes to a legal destination. |
| Legality.AllLegalMoves | model.py:406-418 | Every listed move is on the board. |
| Legality.AllLegalMovesMember | model.py:406-418 | A move is listed exactly when it starts at a piece of the colour's parity (only 'w' gives white) and goes to one of that piece's legal destinations. |
| Legality.AllLegalMovesParityIsBlack | model.py:410 | get_all_legal_moves of any integer colour is black's move list. |
| Legality.InCheckIff | model.py:330-335 | A side is in check exactly when its king is missing or some opponent piece attacks it. |
| Legality.InCheckmateBlackMoves | model.py:337-349 | in_checkmate asks whether every move of black's list leaves the tested colour in check; with no such move it answers true. |
| Legality.InCheckmateEvery | model.py:344-349 | When in_checkmate holds, every one of those moves leaves the colour in check. |
| Legality.InCheckmateEscape | model.py:344-347 | One move that leaves the colour out of check makes in_checkmate false. |
| Legality.AllUpToIff | model.py:344-349 | The early-exit test over the first k moves holds exactly when each of them passes. |
| Legality.AllUpToAt | model.py:344-349 | When the early-exit test holds, each of its first k moves passes. |
| Legality.AllUpToFails | model.py:345-347 | One failing move among the first k makes the early-exit test false. |
| Model.SideToMove | model.py:67 | The stored side is 0 or 1, and it is 1 exactly for the token "w". |
| Model.AfterMovePiece | model.py:91-96 | move_piece on a value keeps the grid an 8x8 board. |
| Model.BoardState.constructor | model.py:423 | A state holds exactly the given grid and side to move: the field copy that deepcopy makes (also at ai.py:42), and the object FromFen builds. |
| Model.BoardState.FromFen | model.py:49-50 | __init__ yields no object exactly when the FEN has a single field. Otherwise it yields a fresh state whose board is the parsed placement and whose side is 1 exactly for "w". |
| Model.BoardState.FenToBoardState | model.py:61-67 | The board becomes the parsed placement. It raises exactly when there is no second field, and otherwise the side is `SideToMove` of it. |
| Model.BoardState.MovePiece | model.py:91-96 | A legal destination moves the piece and flips the side; any other leaves board and side unchanged. The new state is `AfterMovePiece` of the old. |
| Model.BoardState.Relocate | model.py:93-96 | The grid becomes `MoveResult` of the old grid and the side flips. |
| Model.BoardState.LegalPawnMoves | model.py:98-145 | Returns exactly `PawnMoves` of the current grid, error included. |
| Model.BoardState.SlideRay | model.py:151-163 | One direction's loop returns exactly that direction's `Ray` from the piece. |
| Model.BoardState.LegalRookMoves | model.py:147-210 | Returns the four orthogonal rays in the source's order. |
| Model.BoardState.LegalBishopMoves | model.py:212-276 | Returns the four diagonal rays in the source's order. |
| Model.BoardState.OffsetMoves | model.py:281-290 | The offset loop returns exactly `Jumps` of those offsets. |
| Model.BoardState.LegalKnightMoves | model.py:278-292 | Returns exactly `KnightMoves`. |
| Model.BoardState.LegalKingMoves | model.py:294-309 | Returns exactly `KingMoves`. |
| Model.BoardState.GetPseudoLegalMoves | model.py:359-396 | Returns exactly `PseudoLegal` of the current grid. |
| Model.BoardState.CollectResponses | model.py:318-321 | The nested reply loops collect exactly `Responses` of the grid. |
| Model.BoardState.RankReplies | model.py:319-321 | One rank's file loop collects exactly that rank's replies. |
| Model.BoardState.RepliesAt | model.py:320-321 | One square appends its opponent piece's pseudo-legal moves, or nothing. |
| Model.BoardState.VerifyMove | model.py:311-328 | Returns exactly `Legality.VerifyMove`, characterised by `VerifyMoveIff`. |
| Model.BoardState.InCheck | model.py:330-335 | Returns exactly `Legality.InCheck`, characterised by `InCheckIff`. |
| Model.BoardState.InCheckmate | model.py:337-349 | The early-exit loop returns exactly `Legality.InCheckmate`. |
| Model.BoardState.CheckAfterMove | model.py:345-346 | Whether a move made on a copy leaves the colour in check. |
| Model.BoardState.GetLegalMoves | model.py:398-404 | The filter loop returns exactly `LegalMoves`, characterised by `LegalMovesMember`. |
| Model.BoardState.GetAllLegalMoves | model.py:406-418 | The nested scan returns exactly `AllLegalMoves`, characterised by `AllLegalMovesMember`. |
| Model.BoardState.RankLegalMoves | model.py:412-416 | One rank's file loop returns exactly `AllInRank` of that rank. |
| Model.BoardState.LegalMovesAt | model.py:413-416 | One square contributes exactly `SquareMoves`. |
| Model.GetBoardFromMove | model.py:422-427 | Returns a fresh copy with the piece moved unconditionally and the side to move unchanged. |
| Evaluation.ValuesListed | ai.py:22 | The comprehension yields no more values than the table has entries. |
| Evaluation.PieceValueListed | ai.py:14 | Each code 3..12 appears in piece_values exactly once, with its value. |
| Evaluation.CellScoreSides | ai.py:19-26 | A square adds its black value minus its white value. |
| Evaluation.RankSides | ai.py:18-26 | A rank's score is black's material in it minus white's. |
| Evaluation.RanksSides | ai.py:17-26 | The score of the first k ranks is black's material there minus white's. |
| Evaluation.MaterialDifference | ai.py:17-26 | The material term is black's total piece value minus white's, with kings counting nothing. |
| Evaluation.RankUpdate | ai.py:17-26 | Changing one square changes its rank's score by the difference of the two cells. |
| Evaluation.RanksUpdate | ai.py:17-26 | Changing one square changes the scanned ranks' score by the difference when it lies in them. |
| Evaluation.MaterialUpdate | ai.py:17-26 | Changing one square changes the material by the difference of its old and new value. |
| Evaluation.MaterialAfterMove | ai.py:17-26 | A move changes the material only by removing the captured piece's score. |
| Evaluation.CellHundreds | ai.py:14 | Every square's score is a multiple of 100. |
| Evaluation.RankHundreds | ai.py:17-26 | Every rank's score is a multiple of 100. |
| Evaluation.RanksHundreds | ai.py:17-26 | The material is a multiple of 100. |
| Evaluation.AdjustedMateScores | ai.py:29-36 | For a multiple of 100, the adjustment reaches exactly +10000 and -10000 only through a mate flag or through that material. |
| Evaluation.EvaluateMateScores | ai.py:29-36 | evaluate returns 10000 exactly when white is checkmated (or the material is 10000 with neither side in check); -10000 is symmetric for black. |
| Evaluation.EvaluateCheckBonus | ai.py:29-36 | A white check that is not mate adds 30. A black check that is not mate, with white not in check, subtracts 30. Otherwise the score is the material. |
| Evaluation.SideInRankSquares | ai.py:18-26 | One side's material in a rank is the sum over its eight squares. |
| Evaluation.SideMaterialRanks | ai.py:17-26 | One side's material is the sum over the eight ranks. |
| Evaluation.StartGrid | board.py:37 | The initial grid is an 8x8 board. |
| Evaluation.StartBlackMaterial | ai.py:14 | Black starts with 3900 in material. |
| Evaluation.StartWhiteMaterial | ai.py:14 | White starts with 3900 in material. |
| Evaluation.StartMaterial | ai.py:17-26 | The initial position evaluates to 0 material. |
| Search.Max | ai.py:89 | The maximum is one of its arguments and at least both. |
| Search.Min | ai.py:103 | The minimum is one of its arguments and at most both. |
| Search.MaxLoopAtLeast | ai.py:81-92 | The maximiser's loop never ends below its running best. |
| Search.MinLoopAtMost | ai.py:98-108 | The minimiser's loop never ends above its running best. |
| Search.MinimaxWindow | ai.py:68-108 | Within the window -10001 <= alpha < beta <= 10001, the pruned search agrees with the unpruned minimax value. Inside the window they are equal; at or below alpha, or at or above beta, both lie on the same side. |
| Search.MaxLoopWindow | ai.py:81-92 | The maximiser's pruned loop agrees with the maximum of its children's values within the window. |
| Search.MinLoopWindow | ai.py:98-108 | The minimiser's pruned loop agrees with the minimum of its children's values within the window. |
| Search.MinimaxRoot | ai.py:68-108 | From the root window (-10001, 10001), the score is exactly the unpruned minimax value whenever that value is strictly inside the window. |
| Search.MinimaxTerminal | ai.py:70-73 | At depth 0 or at a mate score the search returns the evaluation and the board itself. |
| Search.MinimaxNoMoves | ai.py:76-108 | With no successors the search returns -10001 (maximiser) or 10001 (minimiser) and no board. |
| Search.MaxSeen | ai.py:81-91 | The scores the maximiser's loop sees, one per child it examines, up to and including the child after which the cutoff stops it. |
| Search.MinSeen | ai.py:98-105 | The scores the minimiser's loop sees, one per examined child, up to and including the child at the cutoff. |
| Search.MaximumShift | ai.py:86-88 | Proof helper. Putting a score no larger than the maximum in front of the examined scores keeps the same last child attaining it. |
| Search.MaximumFront | ai.py:86-88 | Proof helper. A score above every later one, put in front, is the last one attaining the maximum. |
| Search.MinimumShift | ai.py:100-102 | Proof helper. The mirror of MaximumShift for the minimum. |
| Search.MinimumFront | ai.py:100-102 | Proof helper. The mirror of MaximumFront for the minimum. |
| Search.MaxLoopKeeps | ai.py:81-92 | If no examined score reaches the starting best's score, the maximiser's loop returns that best unchanged. |
| Search.MinLoopKeeps | ai.py:98-108 | If no examined score reaches down to the starting best's score, the minimiser's loop returns that best unchanged. |
| Search.MaxLoopLast | ai.py:81-92 | If some examined score reaches the starting best's score, the loop returns the largest examined score, paired with the last examined child that obtains it. |
| Search.MinLoopLast | ai.py:98-108 | If some examined score reaches down to the starting best's score, the loop returns the smallest examined score, paired with the last examined child that obtains it. |
| Search.MaxLoopBest | ai.py:81-92 | If no examined score reaches the starting best, the loop returns that best unchanged. Otherwise it returns the largest examined score, paired with the last examined child that obtains it (the `>=` update). Children after the cutoff are never chosen. |
| Search.MinLoopBest | ai.py:98-108 | The mirror image with the `<=` update: the smallest examined score, paired with the last examined child that obtains it, or the starting best when no examined score reaches it. |
| Search.MinimaxBest | ai.py:68-108 | The chosen board is the position itself or one of its successors; below a terminal position it is a successor. |
| Search.TieBreakAfterCutoff | ai.py:86-88 | On a concrete three-level tree the search as written reports 5 but returns a successor whose unpruned value is 3, while the root's value is 5 (see Findings). |
| Search.MaxLoopFirstBest | ai.py:81-92 | With a strict `>` update the loop computes the same score as the `>=` loop. The board it keeps is an examined child whose unpruned value is the score, whenever the score is strictly inside the node's window. |
| Search.MinLoopFirstBest | ai.py:98-108 | With a strict `<` update the loop computes the same score as the `<=` loop. The board it keeps has the score as its unpruned value, whenever the score is strictly inside the window. |
| Search.MinimaxFirstBest | ai.py:68-108 | The corrected search reports the same score. Below a non-terminal position, its board is a successor whose unpruned value equals the score whenever the score lies strictly inside the window. |
| Ai.Successors | ai.py:62-64 | One successor per move. |
| Ai.NextMovesMoved | ai.py:46-66 | The i-th successor is the i-th legal move made: a piece of the player's colour moves and the side to move flips. |
| Ai.NextMovesListed | ai.py:55-64 | The successors are the player's legal moves, each made on a copy, in order. |
| Ai.ChildOfAgrees | ai.py:41-44 | Proof helper. The successor function is get_board_from_move on every move. |
| Ai.ChildAgreesAt | ai.py:41-44 | Proof helper. Agreement gives `AfterMovePiece` of the position for each move. |
| Ai.DecisionRoot | ai.py:68-108 | The computer's score from the root window is the plain minimax value of the chess position whenever that value is strictly between -10001 and 10001. |
| Ai.DecisionBest | ai.py:76-108 | From a non-terminal position, the board the computer returns is one of its successors. |
| Ai.LookUpPieceValue | ai.py:22 | The comprehension yields exactly the one value of the piece. |
| Ai.CountMaterial | ai.py:16-26 | The double loop computes exactly the material term. |
| Ai.CheckAdjustment | ai.py:29-36 | It reports the check, and gives the material when there is no check, the mate score when mated, and the material plus the bonus otherwise. |
| Ai.Evaluate | ai.py:4-38 | Returns exactly `Evaluation.Evaluate` of the board. |
| Ai.GetBoardFromMove | ai.py:41-44 | Returns a fresh state equal to `AfterMovePiece` of the given one: move_piece applied to a copy. |
| Ai.GetNextMoves | ai.py:46-66 | Returns fresh states, one per successor of the position, in order. |
| Ai.BoardsFromMoves | ai.py:61-64 | The loop builds one fresh state per move, each the successor for that move. |
| Ai.EvaluateAs | ai.py:70 | Proof helper, a wrapper over `Ai.Evaluate`. Evaluates a state as the given evaluation function does. |
| Ai.GetNextMovesAs | ai.py:81 | Proof helper, a wrapper over `Ai.GetNextMoves`. Builds the successors the given successor function lists. |
| Ai.Minimax | ai.py:68-108 | Returns exactly the score and best board of `Search.Minimax` with evaluate and get_next_moves. |
| Ai.AlphaBeta | ai.py:68-108 | The recursive search over objects computes exactly `Search.Minimax` of the position. |
| Ai.MaxChildren | ai.py:76-92 | The maximiser's loop over child states computes exactly `Search.MaxLoop`, with the >= tie-break and the cutoff. |
| Ai.MinChildren | ai.py:95-108 | The minimiser's loop over child states computes exactly `Search.MinLoop`, with the <= tie-break and the cutoff. |

## Left out

- printb, the pygame view, controller, game_logic, gui and main are not part of this model. The only thing taken from controller.py is the starting window (-10001, 10001) of the root search.
- numpy is not modelled. Arrays are `seq<seq<int>>`, and `np.where` is a row-major scan (`Legality.FindFrom`). np.array's treatment of ragged rank lists is not modelled: `Board.ParseBoard` returns the list of rows as parsed.
- `copy.deepcopy` is modelled as building a fresh `Model.BoardState` with the copied fields. Attributes that are never read (castling, en passant, the clocks, the check and mate flags) are not modelled.
- Castling, en passant and promotion: the source does not implement them, so neither does the model.
- The eight copy-pasted direction loops of legal_rook_moves and legal_bishop_moves are modelled as one method, `Model.BoardState.SlideRay`, parameterised by the direction and called four times each, in the source's order.
- The ValueError grid: when model.py's parse_board fails, the object holds a ValueError object in its board field. `Model.PlacementGrid` gives that state the empty grid. No method that reads the board accepts it, because reading it in Python raises. The same holds for a placement that parses without being 8x8: such a state does not satisfy `Valid`, and the move methods are not modelled on it.
- The IndexError of a FEN with one field is modelled as a `raised` flag (`FenToBoardState` in both classes), and as `None` for the constructor (`Model.BoardState.FromFen`).
- model.py's copies of SAN_to_int and get_symbol (model.py:6-24) are identical to pieces.py's and are modelled once, in `Pieces`.
- Legality.KingSquare: find_king with an argument other than 'w', 'b', 1 or 0 falls through and returns None, so the caller's unpacking raises TypeError. That case is excluded by `ValidColor` in `Model.BoardState.InCheck`. Every caller in the source passes a valid colour.
- The helpers `RankReplies`, `RepliesAt`, `RankLegalMoves`, `LegalMovesAt`, `CheckAfterMove`, `Relocate`, `CountMaterial`, `LookUpPieceValue`, `CheckAdjustment`, `BoardsFromMoves`, `MaxChildren` and `MinChildren` are loop bodies or inner loops of the source, split into methods of their own. They are not separate operations of the program.
- Ai.AlphaBeta takes the evaluation and the successor function as ghost parameters. `Ai.Minimax` instantiates them with evaluate and get_next_moves.
- Ai.Minimax: depth is a natural number. A negative depth in Python never reaches the depth == 0 base case and recurses until another base case stops it; no caller passes one.
- Search.MaxLoop and Search.MinLoop define the alpha update, the tie-break and the `beta <= alpha` cutoff directly. There is no separate lemma that alpha only grows. The score's consequences are the window lemmas, and the board's are `MaxLoopBest` and `MinLoopBest`.
- Model.BoardState.MovePiece requires on-board squares. numpy wraps a negative index around to the other end of the board, and the model does not capture that. Every caller in the program passes squares in 0..7, derived from window positions in an 800-pixel board divided by 100 (controller.py:26-29).
- Model.BoardState.GetLegalMoves requires an on-board square, for the same reason (no negative-index wrap-around).
- Model.BoardState.GetPseudoLegalMoves requires an on-board square, for the same reason. The generator methods it calls (`LegalPawnMoves`, `SlideRay`, `LegalRookMoves`, `LegalBishopMoves`) require one too.
- Ai.Minimax follows the code as written, with the `>=`/`<=` tie-break described under Findings. The corrected search (`Search.MinimaxFirst`) stands beside it, and its property is proved, but the computer player's model keeps the program's behaviour.

## Findings

| source | as written | input that shows it | evidently intended | confidence | as-written member | corrected member |
|---|---|---|---|---|---|---|
| ai.py:86-88 | The maximiser replaces its best board on `>=`, and the minimiser (ai.py:100-102) on `<=`. After a cutoff a child's score is only a bound, so a pruned child that ties the best score displaces a child that really obtains it. | Searched two plies deep from the root window, position 0 has successors 1 and 2. Position 1 leads to 5; position 2 leads to 3 and 4. Every position evaluates to 5 except position 4, which evaluates to 3. The search reports 5 and returns position 2, whose unpruned value is 3; position 1 obtains 5. | The returned board obtains the reported score: with a strict `>`/`<` update, the board below a non-terminal node has unpruned value equal to the score whenever the score is strictly inside the window. At the root this is the minimax value. | high (not executed) | Search.TieBreakAfterCutoff | Search.MinimaxFirstBest |
