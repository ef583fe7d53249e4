/**
 * The board representation shared by every component: an 8x8 grid of
 * integer piece codes (0 = empty, odd = white, even = black), squares,
 * moves, and the two-cell write that simulates a move on a copy.
 * Rank 0 is the top row of the display (chess rank 8), file 0 is the a-file.
 */
module Chessboard {

  datatype Option<T> = None | Some(value: T)

  datatype Result<T, E> = Ok(value: T) | Err(error: E)

  /** The ValueError objects that parse_board and get_symbol return (not raise). */
  datatype ValueError = ValueError(message: string)

  /** Rows of piece codes; a real position always has 8 rows of 8 cells. */
  type Grid = seq<seq<int>>

  datatype Square = Square(rank: int, file: int)

  /** A move as returned by get_all_legal_moves: ((rank, file), (rank, file)). */
  datatype Move = Move(from: Square, to: Square)

  predicate OnBoard(rank: int, file: int) {
    0 <= rank < 8 && 0 <= file < 8
  }

  predicate OnBoardSquare(s: Square) {
    OnBoard(s.rank, s.file)
  }

  /** 8 rows of 8 cells, every cell a piece code in 0..12. */
  predicate IsGrid(g: Grid) {
    |g| == 8 &&
    forall r :: 0 <= r < 8 ==> |g[r]| == 8 && forall f :: 0 <= f < 8 ==> 0 <= g[r][f] <= 12
  }

  /** The side-to-move flip of move_piece: 0 (black) becomes 1 (white), anything else becomes 0. */
  function Flip(currentMove: int): (next: int)
    ensures next == 0 || next == 1
    ensures (currentMove == 0 || currentMove == 1) ==> next == 1 - currentMove
  {
    if currentMove == 0 then 1 else 0
  }

  /** The grid after the piece on (r1, f1) is written onto (r2, f2) and (r1, f1) is cleared
      (in that order, so a move onto its own square leaves the grid as it was). */
  function MoveResult(g: Grid, r1: int, f1: int, r2: int, f2: int): (h: Grid)
    requires IsGrid(g) && OnBoard(r1, f1) && OnBoard(r2, f2)
    ensures IsGrid(h)
    ensures h[r2][f2] == g[r1][f1]
    ensures (r1, f1) != (r2, f2) ==> h[r1][f1] == 0
    ensures forall r, f :: OnBoard(r, f) && (r, f) != (r1, f1) && (r, f) != (r2, f2) ==> h[r][f] == g[r][f]
  {
    var piece := g[r1][f1];
    var cleared := g[r1 := g[r1][f1 := 0]];
    cleared[r2 := cleared[r2][f2 := piece]]
  }

  /** Moving a piece onto its own square is the identity, which is what makes
      verify_move(k, k, k, k) a test of the position as it stands. */
  lemma MoveResultSameSquare(g: Grid, r: int, f: int)
    requires IsGrid(g) && OnBoard(r, f)
    ensures MoveResult(g, r, f, r, f) == g
  {
    var h := MoveResult(g, r, f, r, f);
    forall i | 0 <= i < 8
      ensures h[i] == g[i]
    {
      assert |h[i]| == |g[i]| == 8;
      forall j | 0 <= j < 8
        ensures h[i][j] == g[i][j]
      {
      }
    }
  }
}
