/**
 * The BoardState class of model.py: the grid and the side to move as mutable
 * fields, the loops that generate, filter and collect moves, and the guarded
 * in-place move. Every method is proved to compute the MoveGen / Legality
 * function of the grid it reads, so the properties proved there are properties
 * of these methods.
 */
module Model {
  import opened Chessboard
  import opened MoveGen
  import opened Legality
  import Board

  /** The value of a BoardState: its grid and its side to move (1 white, 0 black). */
  datatype Position = Position(grid: Grid, currentMove: int)

  /** The grid fen_to_board_state stores for a FEN string: the parse of its first
      space-separated field, or [] where the source stores the returned ValueError. */
  function PlacementGrid(fen: string): Grid {
    match Board.ParsePlacement(Board.Split(fen, ' ')[0])
    case Ok(rows) => rows
    case Err(_) => []
  }

  /** The side-to-move flag of model.py: 1 exactly for the token "w", 0 for any other. */
  function SideToMove(token: string): (side: int)
    ensures side == 0 || side == 1
    ensures side == 1 <==> token == "w"
  {
    if token == "w" then 1 else 0
  }

  /** The position move_piece leaves behind: the piece moved and the side to move flipped
      when (r2, f2) is one of the legal destinations from (r1, f1), otherwise the same. */
  function AfterMovePiece(p: Position, r1: int, f1: int, r2: int, f2: int): (q: Position)
    requires IsGrid(p.grid) && OnBoard(r1, f1)
    ensures IsGrid(q.grid)
  {
    if Square(r2, f2) in LegalMoves(p.grid, r1, f1) then
      Position(MoveResult(p.grid, r1, f1, r2, f2), Flip(p.currentMove))
    else p
  }

  class BoardState {
    var board: Grid
    var currentMove: int

    /** The grid is a real position: 8 rows of 8 codes in 0..12. */
    predicate Valid()
      reads this
    {
      IsGrid(board)
    }

    function State(): Position
      reads this
    {
      Position(board, currentMove)
    }

    /** A state with the given fields (the deep copy of get_board_from_move builds one). */
    constructor (grid: Grid, side: int)
      ensures board == grid && currentMove == side
    {
      board := grid;
      currentMove := side;
    }

    /** __init__: fen_to_board_state on a fresh object. When the FEN has a single token
        the IndexError escapes __init__ and no object is made (None). */
    static method FromFen(fen: string) returns (state: Option<BoardState>)
      ensures state.None? <==> |Board.Split(fen, ' ')| < 2
      ensures state.Some? ==> fresh(state.value)
      ensures state.Some? ==> state.value.board == PlacementGrid(fen)
      ensures state.Some? ==> state.value.currentMove == SideToMove(Board.Split(fen, ' ')[1])
    {
      var s := new BoardState([], 0);
      var raised := s.FenToBoardState(fen);
      if raised {
        return None;
      }
      return Some(s);
    }

    /** fen_to_board_state: the board is stored first; then the second token sets the side
        to move, or IndexError is raised (`raised`) and current_move keeps its value. */
    method FenToBoardState(fen: string) returns (raised: bool)
      modifies this
      ensures board == PlacementGrid(fen)
      ensures raised <==> |Board.Split(fen, ' ')| < 2
      ensures currentMove == if raised then old(currentMove) else SideToMove(Board.Split(fen, ' ')[1])
    {
      var placement := Board.Split(fen, ' ')[0];
      var parsed := Board.ParseBoard(placement);
      match parsed {
        case Ok(rows) => board := rows;
        case Err(_) => board := [];
      }
      var tokens := Board.Split(fen, ' ');
      if |tokens| < 2 {
        return true;
      }
      currentMove := if tokens[1] == "w" then 1 else 0;
      raised := false;
    }

    /** move_piece: when (r2, f2) is among get_legal_moves(r1, f1) the piece is moved and
        the side to move flips; otherwise nothing changes. Whose turn it is is never
        consulted. */
    method MovePiece(r1: int, f1: int, r2: int, f2: int)
      requires Valid() && OnBoard(r1, f1)
      modifies this
      ensures Valid()
      ensures Square(r2, f2) in LegalMoves(old(board), r1, f1) ==>
        OnBoard(r2, f2) && board == MoveResult(old(board), r1, f1, r2, f2) && currentMove == Flip(old(currentMove))
      ensures Square(r2, f2) !in LegalMoves(old(board), r1, f1) ==>
        board == old(board) && currentMove == old(currentMove)
      ensures State() == AfterMovePiece(old(State()), r1, f1, r2, f2)
    {
      var legal := GetLegalMoves(r1, f1);
      if Square(r2, f2) in legal {
        Relocate(r1, f1, r2, f2);
      }
    }

    /** The legal branch of move_piece: the piece lifted from (r1, f1), the origin cleared,
        the piece put on (r2, f2), and the other side to move. */
    method Relocate(r1: int, f1: int, r2: int, f2: int)
      requires Valid() && OnBoard(r1, f1) && OnBoard(r2, f2)
      modifies this
      ensures Valid()
      ensures board == MoveResult(old(board), r1, f1, r2, f2)
      ensures currentMove == Flip(old(currentMove))
    {
      var piece := board[r1][f1];
      board := board[r1 := board[r1][f1 := 0]];
      board := board[r2 := board[r2][f2 := piece]];
      currentMove := if currentMove == 0 then 1 else 0;
    }

    /** legal_pawn_moves: the four guarded appends of the colour's branch, and the returned
        ValueError for a colour other than 'w' and 'b'. */
    method LegalPawnMoves(color: char, rank: int, file: int) returns (result: Result<seq<Square>, ValueError>)
      requires Valid() && OnBoard(rank, file)
      ensures result == PawnMoves(board, color, rank, file)
    {
      var legalMoves: seq<Square> := [];
      if color == 'w' {
        ghost var double := if rank == 6 && board[4][file] == 0 then [Square(4, file)] else [];
        ghost var single := if rank - 1 > -1 && board[rank - 1][file] == 0 then [Square(rank - 1, file)] else [];
        ghost var right := if OnBoard(rank - 1, file + 1) && board[rank - 1][file + 1] != 0 && board[rank - 1][file + 1] % 2 == 0
          then [Square(rank - 1, file + 1)] else [];
        if rank == 6 && board[4][file] == 0 {
          legalMoves := legalMoves + [Square(4, file)];
        }
        assert legalMoves == double;
        if rank - 1 > -1 {
          if board[rank - 1][file] == 0 {
            legalMoves := legalMoves + [Square(rank - 1, file)];
          }
        }
        assert legalMoves == double + single;
        if rank - 1 > -1 && rank - 1 < 8 && file + 1 > -1 && file + 1 < 8 {
          if board[rank - 1][file + 1] != 0 && board[rank - 1][file + 1] % 2 == 0 {
            legalMoves := legalMoves + [Square(rank - 1, file + 1)];
          }
        }
        assert legalMoves == double + single + right;
        if rank - 1 > -1 && rank - 1 < 8 && file - 1 > -1 && file - 1 < 8 {
          if board[rank - 1][file - 1] != 0 && board[rank - 1][file - 1] % 2 == 0 {
            legalMoves := legalMoves + [Square(rank - 1, file - 1)];
          }
        }
        assert legalMoves == WhitePawnMoves(board, rank, file);
      } else if color == 'b' {
        ghost var double := if rank == 1 && board[3][file] == 0 then [Square(3, file)] else [];
        ghost var single := if rank + 1 < 8 && board[rank + 1][file] == 0 then [Square(rank + 1, file)] else [];
        ghost var right := if OnBoard(rank + 1, file + 1) && board[rank + 1][file + 1] != 0 && board[rank + 1][file + 1] % 2 == 1
          then [Square(rank + 1, file + 1)] else [];
        if rank == 1 && board[3][file] == 0 {
          legalMoves := legalMoves + [Square(3, file)];
        }
        assert legalMoves == double;
        if rank + 1 < 8 {
          if board[rank + 1][file] == 0 {
            legalMoves := legalMoves + [Square(rank + 1, file)];
          }
        }
        assert legalMoves == double + single;
        if rank + 1 > -1 && rank + 1 < 8 && file + 1 > -1 && file + 1 < 8 {
          if board[rank + 1][file + 1] != 0 && board[rank + 1][file + 1] % 2 == 1 {
            legalMoves := legalMoves + [Square(rank + 1, file + 1)];
          }
        }
        assert legalMoves == double + single + right;
        if rank + 1 > -1 && rank + 1 < 8 && file - 1 > -1 && file - 1 < 8 {
          if board[rank + 1][file - 1] != 0 && board[rank + 1][file - 1] % 2 == 1 {
            legalMoves := legalMoves + [Square(rank + 1, file - 1)];
          }
        }
        assert legalMoves == BlackPawnMoves(board, rank, file);
      } else {
        return Err(ValueError("wrong color argument"));
      }
      return Ok(legalMoves);
    }

    /** One of the eight ray loops of legal_rook_moves and legal_bishop_moves: walk from
        (rank, file) in direction (dr, df), appending empty squares, appending and stopping
        at a capturable occupant, stopping at any other occupant or at the edge. */
    method SlideRay(color: char, rank: int, file: int, dr: int, df: int) returns (moves: seq<Square>)
      requires Valid() && OnBoard(rank, file) && IsDirection(dr, df)
      ensures moves == Ray(board, color, Square(rank, file), dr, df)
    {
      moves := [];
      var prev := Square(rank, file);
      while OnBoardSquare(Next(prev, dr, df))
        invariant OnBoardSquare(prev)
        invariant moves + Ray(board, color, prev, dr, df) == Ray(board, color, Square(rank, file), dr, df)
        decreases Reach(prev.rank, dr) + Reach(prev.file, df)
      {
        var s := Next(prev, dr, df);
        var v := board[s.rank][s.file];
        RayStep(board, color, prev, dr, df);
        if v == 0 {
          AppendAssoc(moves, [s], Ray(board, color, s, dr, df));
          moves := moves + [s];
        } else if color == 'w' && v % 2 == 0 {
          moves := moves + [s];
          break;
        } else if color == 'b' && v % 2 == 1 {
          moves := moves + [s];
          break;
        } else {
          break;
        }
        prev := s;
      }
    }

    /** legal_rook_moves: the rays down, up, right and left. */
    method LegalRookMoves(color: char, rank: int, file: int) returns (legalMoves: seq<Square>)
      requires Valid() && OnBoard(rank, file)
      ensures legalMoves == RookMoves(board, color, rank, file)
    {
      var down := SlideRay(color, rank, file, 1, 0);
      var up := SlideRay(color, rank, file, -1, 0);
      var right := SlideRay(color, rank, file, 0, 1);
      var left := SlideRay(color, rank, file, 0, -1);
      legalMoves := down + up + right + left;
    }

    /** legal_bishop_moves: the diagonals top-left, top-right, bottom-left (towards higher
        rank and file) and bottom-right, as the source's comments name them. */
    method LegalBishopMoves(color: char, rank: int, file: int) returns (legalMoves: seq<Square>)
      requires Valid() && OnBoard(rank, file)
      ensures legalMoves == BishopMoves(board, color, rank, file)
    {
      var a := SlideRay(color, rank, file, -1, -1);
      var b := SlideRay(color, rank, file, -1, 1);
      var c := SlideRay(color, rank, file, 1, 1);
      var d := SlideRay(color, rank, file, 1, -1);
      legalMoves := a + b + c + d;
    }

    /** The offset loop shared by legal_knight_moves and legal_king_moves. */
    method OffsetMoves(color: char, rank: int, file: int, offsets: seq<(int, int)>) returns (legalMoves: seq<Square>)
      requires Valid()
      ensures legalMoves == Jumps(board, color, rank, file, offsets)
    {
      legalMoves := [];
      for i := 0 to |offsets|
        invariant legalMoves == Jumps(board, color, rank, file, offsets[..i])
      {
        var (x, y) := offsets[i];
        assert offsets[..i + 1][..i] == offsets[..i];
        if rank + x > -1 && rank + x < 8 && file + y > -1 && file + y < 8 {
          var v := board[rank + x][file + y];
          if v == 0 {
            legalMoves := legalMoves + [Square(rank + x, file + y)];
          } else if color == 'w' && v % 2 == 0 {
            legalMoves := legalMoves + [Square(rank + x, file + y)];
          } else if color == 'b' && v % 2 == 1 {
            legalMoves := legalMoves + [Square(rank + x, file + y)];
          }
        }
      }
      assert offsets[..|offsets|] == offsets;
    }

    method LegalKnightMoves(color: char, rank: int, file: int) returns (legalMoves: seq<Square>)
      requires Valid()
      ensures legalMoves == KnightMoves(board, color, rank, file)
    {
      var offsets := [(2, 1), (2, -1), (1, -2), (1, 2), (-1, 2), (-1, -2), (-2, 1), (-2, -1)];
      legalMoves := OffsetMoves(color, rank, file, offsets);
    }

    method LegalKingMoves(color: char, rank: int, file: int) returns (legalMoves: seq<Square>)
      requires Valid()
      ensures legalMoves == KingMoves(board, color, rank, file)
    {
      var offsets := [(-1, 0), (-1, 1), (0, 1), (1, 1), (1, 0), (1, -1), (0, -1), (-1, -1)];
      legalMoves := OffsetMoves(color, rank, file, offsets);
    }

    /** get_psuedolegal_moves: the generator of the piece on (rank, file), called with
        'b' for an even code and 'w' for an odd one. */
    method GetPseudoLegalMoves(rank: int, file: int) returns (moves: seq<Square>)
      requires Valid() && OnBoard(rank, file)
      ensures moves == PseudoLegal(board, rank, file)
    {
      var piece := board[rank][file];
      var color := if piece % 2 == 0 then 'b' else 'w';
      if piece == 11 || piece == 12 {
        var pawn := LegalPawnMoves(color, rank, file);
        moves := pawn.value;
      } else if piece == 9 || piece == 10 {
        moves := LegalRookMoves(color, rank, file);
      } else if piece == 7 || piece == 8 {
        moves := LegalKnightMoves(color, rank, file);
      } else if piece == 5 || piece == 6 {
        moves := LegalBishopMoves(color, rank, file);
      } else if piece == 3 || piece == 4 {
        moves := LegalRookMoves(color, rank, file);
        var diagonal := LegalBishopMoves(color, rank, file);
        moves := moves + diagonal;
      } else if piece == 1 || piece == 2 {
        moves := LegalKingMoves(color, rank, file);
      } else {
        moves := [];
      }
    }

    /** The reply-collection loops of verify_move, run on the copied board: every
        pseudo-legal destination of each piece whose parity differs from color, rank by
        rank and file by file. */
    method CollectResponses(color: int) returns (opponentResponses: seq<Square>)
      requires Valid()
      ensures opponentResponses == Responses(board, color)
    {
      opponentResponses := [];
      for rank := 0 to 8
        invariant opponentResponses == ResponsesInRanks(board, color, rank)
      {
        var replies := RankReplies(color, rank);
        opponentResponses := opponentResponses + replies;
      }
    }

    /** The file loop of the reply collection on one rank. */
    method RankReplies(color: int, rank: int) returns (replies: seq<Square>)
      requires Valid() && 0 <= rank < 8
      ensures replies == ResponsesInRank(board, color, rank, 8)
    {
      replies := [];
      for file := 0 to 8
        invariant replies == ResponsesInRank(board, color, rank, file)
      {
        var here := RepliesAt(color, rank, file);
        replies := replies + here;
      }
    }

    /** One square of the reply scan: the pseudo-legal destinations of the piece there
        when its parity differs from color, and nothing otherwise. */
    method RepliesAt(color: int, rank: int, file: int) returns (replies: seq<Square>)
      requires Valid() && 0 <= rank < 8 && 0 <= file < 8
      ensures ResponsesInRank(board, color, rank, file + 1) == ResponsesInRank(board, color, rank, file) + replies
    {
      replies := [];
      if board[rank][file] != 0 && board[rank][file] % 2 != color {
        replies := GetPseudoLegalMoves(rank, file);
      }
    }

    /** verify_move: the mover's colour is the parity of the piece on (r1, f1); on a copy
        with the move made the opponent's replies are collected, and the move passes when
        the mover's king is absent or not among them. */
    method VerifyMove(r1: int, f1: int, r2: int, f2: int) returns (ok: bool)
      requires Valid() && OnBoard(r1, f1) && OnBoard(r2, f2)
      ensures ok == Legality.VerifyMove(board, r1, f1, r2, f2)
    {
      var color := board[r1][f1] % 2;
      assert ValidColor(Parity(color));
      var resulting := GetBoardFromMove(this, r1, f1, r2, f2);
      ghost var h := resulting.board;
      assert h == MoveResult(board, r1, f1, r2, f2);
      var opponentResponses := resulting.CollectResponses(color);
      assert resulting.board == h && opponentResponses == Responses(h, color);
      var king := KingSquare(resulting.board, Parity(color));
      if king.None? {
        return true;
      }
      return king.value !in opponentResponses;
    }

    /** in_check: true when find_king finds no king, else the null move of the king must
        fail verify_move. */
    method InCheck(color: ColorArg) returns (check: bool)
      requires Valid() && ValidColor(color)
      ensures check == Legality.InCheck(board, color)
    {
      var king := KingSquare(board, color);
      if king.None? {
        return true;
      }
      var ok := VerifyMove(king.value.rank, king.value.file, king.value.rank, king.value.file);
      return !ok;
    }

    /** in_checkmate: the colour becomes a parity, black's moves are listed (the parity is
        handed to get_all_legal_moves), and the first move after which colour c is not in
        check answers False. */
    method InCheckmate(color: ColorArg) returns (mate: bool)
      requires Valid()
      ensures mate == Legality.InCheckmate(board, color)
    {
      var c := if color == Letter('w') then 1 else 0;
      assert ValidColor(Parity(c));
      var moves := GetAllLegalMoves(Parity(c));
      for i := 0 to |moves|
        invariant AllUpTo(LeavesInCheck(board, Parity(c)), moves, i)
      {
        var check := CheckAfterMove(moves[i], Parity(c));
        if !check {
          AllUpToFails(LeavesInCheck(board, Parity(c)), moves, |moves|, i);
          return false;
        }
      }
      return true;
    }

    /** The body of in_checkmate's loop: the move made on a copy, and in_check asked of
        the colour on that copy. */
    method CheckAfterMove(move: Move, color: ColorArg) returns (check: bool)
      requires Valid() && OnBoardMove(move) && ValidColor(color)
      ensures check == LeavesInCheck(board, color)(move)
    {
      var newBoard := GetBoardFromMove(this, move.from.rank, move.from.file, move.to.rank, move.to.file);
      check := newBoard.InCheck(color);
    }

    /** get_legal_moves: the pseudo-legal destinations kept by verify_move, in order. */
    method GetLegalMoves(rank: int, file: int) returns (legalMoves: seq<Square>)
      requires Valid() && OnBoard(rank, file)
      ensures legalMoves == LegalMoves(board, rank, file)
    {
      var pseudo := GetPseudoLegalMoves(rank, file);
      legalMoves := [];
      for i := 0 to |pseudo|
        invariant legalMoves == LegalAmong(board, rank, file, pseudo[..i])
      {
        var move := pseudo[i];
        PrefixStep(pseudo, i);
        LegalAmongSnoc(board, rank, file, pseudo[..i], move);
        var ok := VerifyMove(rank, file, move.rank, move.file);
        if ok {
          legalMoves := legalMoves + [move];
        }
      }
      assert pseudo[..|pseudo|] == pseudo;
    }

    /** get_all_legal_moves: for each square in row-major order holding a piece of the
        parity (1 for the letter 'w', 0 for anything else), its legal moves tagged with
        the origin. */
    method GetAllLegalMoves(color: ColorArg) returns (allLegalMoves: seq<Move>)
      requires Valid()
      ensures allLegalMoves == AllLegalMoves(board, color)
    {
      allLegalMoves := [];
      var c := if color == Letter('w') then 1 else 0;
      for rank := 0 to 8
        invariant allLegalMoves == AllInRanks(board, c, rank)
      {
        var inRank := RankLegalMoves(c, rank);
        allLegalMoves := allLegalMoves + inRank;
      }
    }

    /** The file loop of get_all_legal_moves on one rank. */
    method RankLegalMoves(c: int, rank: int) returns (moves: seq<Move>)
      requires Valid() && 0 <= rank < 8
      ensures moves == AllInRank(board, c, rank, 8)
    {
      moves := [];
      for file := 0 to 8
        invariant moves == AllInRank(board, c, rank, file)
      {
        var block := LegalMovesAt(c, rank, file);
        moves := moves + block;
      }
    }

    /** One square of the get_all_legal_moves scan: the legal moves of the piece there,
        tagged with its square, when it has parity c, and nothing otherwise. */
    method LegalMovesAt(c: int, rank: int, file: int) returns (block: seq<Move>)
      requires Valid() && 0 <= rank < 8 && 0 <= file < 8
      ensures block == SquareMoves(board, c, Square(rank, file))
    {
      block := [];
      if board[rank][file] != 0 && board[rank][file] % 2 == c {
        var legal := GetLegalMoves(rank, file);
        block := Tag(Square(rank, file), legal);
      }
    }
  }

  /** get_board_from_move of model.py: a deep copy with the piece moved and the origin
      cleared; the side to move is copied unchanged and the input is left as it was. */
  method GetBoardFromMove(state: BoardState, r1: int, f1: int, r2: int, f2: int) returns (copy: BoardState)
    requires state.Valid() && OnBoard(r1, f1) && OnBoard(r2, f2)
    ensures fresh(copy) && copy.Valid()
    ensures copy.board == MoveResult(state.board, r1, f1, r2, f2)
    ensures copy.currentMove == state.currentMove
  {
    copy := new BoardState(state.board, state.currentMove);
    var piece := copy.board[r1][f1];
    copy.board := copy.board[r1 := copy.board[r1][f1 := 0]];
    copy.board := copy.board[r2 := copy.board[r2][f2 := piece]];
  }
}
