/**
 * ai.py: the evaluation, successor generation and alpha-beta minimax over
 * BoardState objects. Each method is proved to compute the Evaluation or Search
 * function of the position it is given; the search is instantiated with the
 * chess evaluation and with get_next_moves, so the Search module's theorems
 * about pruning apply to it.
 */
module Ai {
  import opened Chessboard
  import opened Legality
  import opened MoveGen
  import Board
  import Model
  import Evaluation
  import Search

  /** A position whose grid is a real board. */
  type ValidPosition = p: Model.Position | IsGrid(p.grid) witness Model.Position(Board.StartRows, 1)

  /** get_next_moves' colour: black when maximising, white otherwise. */
  function PlayerColor(maxing: bool): ColorArg {
    Letter(if maxing then 'b' else 'w')
  }

  /** get_board_from_move's result as a position: move_piece applied to a copy. */
  function Child(p: ValidPosition, m: Move): ValidPosition
    requires OnBoardMove(m)
  {
    Model.AfterMovePiece(p, m.from.rank, m.from.file, m.to.rank, m.to.file)
  }

  /** The positions get_board_from_move produces for a list of moves, in order. */
  function Successors(p: ValidPosition, moves: seq<Move>): (kids: seq<ValidPosition>)
    requires forall i :: 0 <= i < |moves| ==> OnBoardMove(moves[i])
    ensures |kids| == |moves|
  {
    seq(|moves|, i requires 0 <= i < |moves| => Child(p, moves[i]))
  }

  /** get_next_moves: one position per legal move of the player, in the order
      get_all_legal_moves lists them. */
  function NextMoves(p: ValidPosition, maxing: bool): (kids: seq<ValidPosition>)
  {
    Successors(p, AllLegalMoves(p.grid, PlayerColor(maxing)))
  }

  /** evaluate on a position. */
  function Score(p: ValidPosition): int {
    Evaluation.Evaluate(p.grid)
  }

  /** minimax on positions: the generic search with the chess evaluation and successors. */
  function Decision(p: ValidPosition, depth: nat, alpha: int, beta: int, maxing: bool): Search.Outcome<ValidPosition> {
    Search.Minimax<ValidPosition>(Score, NextMoves, p, depth, alpha, beta, maxing)
  }

  /** Every successor is the listed move actually made: its piece, of the player's colour,
      moves to a legal destination and the side to move flips. */
  lemma NextMovesMoved(p: ValidPosition, maxing: bool, i: int)
    requires 0 <= i < |AllLegalMoves(p.grid, PlayerColor(maxing))|
    ensures var m := AllLegalMoves(p.grid, PlayerColor(maxing))[i];
      At(p.grid, m.from) != 0 && At(p.grid, m.from) % 2 == (if maxing then 0 else 1) &&
      NextMoves(p, maxing)[i] ==
        Model.Position(MoveResult(p.grid, m.from.rank, m.from.file, m.to.rank, m.to.file), Flip(p.currentMove))
  {
    var moves := AllLegalMoves(p.grid, PlayerColor(maxing));
    AllLegalMovesMember(p.grid, PlayerColor(maxing), moves[i]);
  }

  /** At the window the search is started with, the score the AI computes is the plain
      minimax value of the position whenever that value is not one of the two bounds. */
  lemma DecisionRoot(p: ValidPosition, depth: nat, maxing: bool)
    requires -10001 < Search.Value(Score, NextMoves, p, depth, maxing) < 10001
    ensures Decision(p, depth, -10001, 10001, maxing).score == Search.Value(Score, NextMoves, p, depth, maxing)
  {
    Search.MinimaxRoot(Score, NextMoves, p, depth, maxing);
  }

  /** The board the AI returns from a non-terminal position is one of its successors:
      the result of one legal move of the player to move. */
  lemma DecisionBest(p: ValidPosition, depth: nat, alpha: int, beta: int, maxing: bool)
    requires !Search.Terminal(Score, p, depth)
    ensures var r := Decision(p, depth, alpha, beta, maxing);
      r.best.Some? ==> r.best.value in NextMoves(p, maxing)
  {
    Search.MinimaxBest(Score, NextMoves, p, depth, alpha, beta, maxing);
  }

  /** evaluate's lookup of a piece's value: the values listed against the piece's code in
      piece_values, of which there is exactly one. */
  method LookUpPieceValue(piece: int) returns (pieceValue: seq<int>)
    requires 3 <= piece <= 12
    ensures pieceValue == [Evaluation.PieceValue(piece)]
  {
    pieceValue := Evaluation.ValuesListed(Evaluation.PieceValues, piece, 0);
    Evaluation.PieceValueListed(piece);
  }

  /** The material loop of evaluate: black pieces add their value, white pieces subtract
      it, each value looked up in piece_values. */
  method CountMaterial(state: Model.BoardState) returns (score: int)
    requires state.Valid()
    ensures score == Evaluation.Material(state.board)
  {
    var g := state.board;
    score := 0;
    for rank := 0 to 8
      invariant score == Evaluation.MaterialInRanks(g, rank)
    {
      for file := 0 to 8
        invariant score == Evaluation.MaterialInRanks(g, rank) + Evaluation.MaterialInRank(g, rank, file)
      {
        var v := g[rank][file];
        ghost var before := score;
        if v != 0 {
          if v > 2 {
            var pieceValue := LookUpPieceValue(v);
            if v % 2 == 1 {
              score := score - pieceValue[0];
            } else {
              score := score + pieceValue[0];
            }
          }
        }
        assert score == before + Evaluation.CellScore(v);
      }
    }
  }

  /** One branch of evaluate's check test, for the side `color`: if that side is in
      check, `bonus` (30 for white, -30 for black) is added to the material, and the
      whole score becomes `mateScore` (10000 for white, -10000 for black) if the side is
      also checkmated; otherwise the material is left as it is. */
  method CheckAdjustment(state: Model.BoardState, ghost g: Grid, color: ColorArg, bonus: int, mateScore: int, material: int)
    returns (score: int, check: bool)
    requires state.Valid() && state.board == g && ValidColor(color)
    ensures check == InCheck(g, color)
    ensures !check ==> score == material
    ensures check && InCheckmate(g, color) ==> score == mateScore
    ensures check && !InCheckmate(g, color) ==> score == material + bonus
  {
    score := material;
    check := state.InCheck(color);
    if check {
      score := score + bonus;
      var mate := state.InCheckmate(color);
      if mate {
        score := mateScore;
      }
    }
  }

  /** evaluate: the material, then the check and mate adjustments, white first; black is
      looked at only when white is not in check. */
  method Evaluate(state: Model.BoardState) returns (score: int)
    requires state.Valid()
    ensures score == Evaluation.Evaluate(state.board)
  {
    ghost var g := state.board;
    score := CountMaterial(state);
    var whiteCheck;
    score, whiteCheck := CheckAdjustment(state, g, Letter('w'), 30, 10000, score);
    if !whiteCheck {
      var blackCheck;
      score, blackCheck := CheckAdjustment(state, g, Letter('b'), -30, -10000, score);
      assert score == Evaluation.Evaluate(g);
    } else {
      assert score == Evaluation.Evaluate(g);
    }
  }

  /** get_board_from_move: a deep copy on which move_piece is called; the original is
      left as it was. */
  method GetBoardFromMove(state: Model.BoardState, r1: int, f1: int, r2: int, f2: int) returns (copy: Model.BoardState)
    requires state.Valid() && OnBoard(r1, f1)
    ensures fresh(copy) && copy.Valid()
    ensures copy.State() == Model.AfterMovePiece(state.State(), r1, f1, r2, f2)
  {
    copy := new Model.BoardState(state.board, state.currentMove);
    copy.MovePiece(r1, f1, r2, f2);
  }

  /** get_next_moves: a new board for each legal move of black (player true) or white. */
  method GetNextMoves(state: Model.BoardState, player: bool) returns (boards: seq<Model.BoardState>)
    requires state.Valid()
    ensures |boards| == |NextMoves(state.State(), player)|
    ensures forall i :: 0 <= i < |boards| ==>
      fresh(boards[i]) && boards[i].Valid() && boards[i].State() == NextMoves(state.State(), player)[i]
  {
    ghost var p: ValidPosition := state.State();
    var color := if player then 'b' else 'w';
    var allLegalMoves := state.GetAllLegalMoves(Letter(color));
    assert allLegalMoves == AllLegalMoves(p.grid, PlayerColor(player));
    ChildOfAgrees(p);
    boards := BoardsFromMoves(state, p, allLegalMoves, ChildOf(p));
    NextMovesListed(p, player, allLegalMoves);
  }

  /** Child with the position fixed, as a function of the move (any position for a move
      off the board, which no listed move is). */
  function ChildOf(p: ValidPosition): Move -> ValidPosition {
    (m: Move) => if OnBoardMove(m) then Child(p, m) else p
  }

  /** get_next_moves' successors listed one by one: the i-th is the i-th legal move made. */
  lemma NextMovesListed(p: ValidPosition, player: bool, moves: seq<Move>)
    requires moves == AllLegalMoves(p.grid, PlayerColor(player))
    ensures |NextMoves(p, player)| == |moves|
    ensures forall i :: 0 <= i < |moves| ==> NextMoves(p, player)[i] == ChildOf(p)(moves[i])
  {
    var kids := Successors(p, moves);
    assert NextMoves(p, player) == kids;
    forall i | 0 <= i < |moves|
      ensures kids[i] == ChildOf(p)(moves[i])
    {
      assert kids[i] == Child(p, moves[i]);
    }
  }

  /** A function that agrees with Child on the moves of one position. */
  ghost predicate ChildAgrees(p: ValidPosition, child: Move -> ValidPosition) {
    forall m {:trigger Child(p, m)} :: OnBoardMove(m) ==> child(m) == Child(p, m)
  }

  /** ChildOf is such a function. */
  lemma ChildOfAgrees(p: ValidPosition)
    ensures ChildAgrees(p, ChildOf(p))
  {
  }

  /** An agreeing function gives move_piece's position for each move. */
  lemma ChildAgreesAt(p: ValidPosition, child: Move -> ValidPosition, m: Move)
    requires ChildAgrees(p, child) && OnBoardMove(m)
    ensures child(m) == Model.AfterMovePiece(p, m.from.rank, m.from.file, m.to.rank, m.to.file)
  {
    assert child(m) == Child(p, m);
  }

  /** A board that holds the position q. */
  ghost predicate Holds(b: Model.BoardState, q: ValidPosition)
    reads b
  {
    b.Valid() && b.State() == q
  }

  /** get_next_moves' loop: get_board_from_move for each move in turn, the boards kept in
      the order of the moves. `child` is any function that agrees with Child on the
      board's position. */
  method BoardsFromMoves(state: Model.BoardState, ghost p: ValidPosition, moves: seq<Move>, ghost child: Move -> ValidPosition)
    returns (boards: seq<Model.BoardState>)
    requires state.Valid() && state.State() == p && ChildAgrees(p, child)
    requires forall j :: 0 <= j < |moves| ==> OnBoardMove(moves[j])
    ensures |boards| == |moves|
    ensures forall j :: 0 <= j < |moves| ==> fresh(boards[j]) && Holds(boards[j], child(moves[j]))
  {
    boards := [];
    for i := 0 to |moves|
      invariant |boards| == i
      invariant forall j :: 0 <= j < i ==> fresh(boards[j]) && Holds(boards[j], child(moves[j]))
    {
      var move := moves[i];
      var newBoard := GetBoardFromMove(state, move.from.rank, move.from.file, move.to.rank, move.to.file);
      ChildAgreesAt(p, child, move);
      assert forall j :: 0 <= j < i ==> newBoard != boards[j] && Holds(boards[j], child(moves[j]));
      boards := boards + [newBoard];
    }
  }

  /** An evaluation function that agrees with evaluate everywhere. The agreement is used
      only where a Score term is present, which keeps the search proofs below from
      unfolding the evaluation of every successor. */
  ghost predicate ScoresAs(eval: ValidPosition -> int) {
    forall q {:trigger Score(q)} :: eval(q) == Score(q)
  }

  /** A successor function that agrees with get_next_moves everywhere. */
  ghost predicate MovesAs(next: (ValidPosition, bool) -> seq<ValidPosition>) {
    forall q, maxing {:trigger NextMoves(q, maxing)} :: next(q, maxing) == NextMoves(q, maxing)
  }

  /** evaluate, stated through an evaluation function that agrees with it. */
  method EvaluateAs(state: Model.BoardState, ghost eval: ValidPosition -> int) returns (score: int)
    requires state.Valid() && ScoresAs(eval)
    ensures score == eval(state.State())
  {
    score := Evaluate(state);
    assert score == Score(state.State());
  }

  /** get_next_moves, stated through a successor function that agrees with it. */
  method GetNextMovesAs(state: Model.BoardState, ghost next: (ValidPosition, bool) -> seq<ValidPosition>, player: bool)
    returns (boards: seq<Model.BoardState>)
    requires state.Valid() && MovesAs(next)
    ensures |boards| == |next(state.State(), player)|
    ensures forall i :: 0 <= i < |boards| ==>
      fresh(boards[i]) && boards[i].Valid() && boards[i].State() == next(state.State(), player)[i]
  {
    boards := GetNextMoves(state, player);
    assert next(state.State(), player) == NextMoves(state.State(), player);
  }

  /** minimax(board, depth, alpha, beta, maximizing_player): the outcome Decision
      describes, with the best board returned as a BoardState; no board that existed
      before the call is changed. */
  method Minimax(state: Model.BoardState, depth: nat, alpha: int, beta: int, maximizingPlayer: bool)
    returns (score: int, best: Option<Model.BoardState>)
    requires state.Valid()
    ensures var r := Decision(state.State(), depth, alpha, beta, maximizingPlayer);
      score == r.score && (best.None? <==> r.best.None?) &&
      (best.Some? ==> best.value.Valid() && best.value.State() == r.best.value)
  {
    score, best := AlphaBeta(state, Score, NextMoves, depth, alpha, beta, maximizingPlayer);
  }

  /** The body of minimax, proved against the generic search for any evaluation and
      successor function that agree with the chess ones: the evaluation decides terminal
      positions; otherwise the successors are searched with the window narrowed as they
      return, and the scan is cut off once beta <= alpha. */
  method AlphaBeta(state: Model.BoardState, ghost eval: ValidPosition -> int, ghost next: (ValidPosition, bool) -> seq<ValidPosition>,
                depth: nat, alpha: int, beta: int, maximizingPlayer: bool)
    returns (score: int, best: Option<Model.BoardState>)
    requires state.Valid() && ScoresAs(eval) && MovesAs(next)
    ensures var r := Search.Minimax<ValidPosition>(eval, next, state.State(), depth, alpha, beta, maximizingPlayer);
      score == r.score && (best.None? <==> r.best.None?) &&
      (best.Some? ==> best.value.Valid() && best.value.State() == r.best.value)
    decreases depth, 1
  {
    ghost var p: ValidPosition := state.State();
    score := EvaluateAs(state, eval);
    if depth == 0 || score == -10000 || score == 10000 {
      return score, Some(state);
    }
    var children := GetNextMovesAs(state, next, maximizingPlayer);
    ghost var kids := next(p, maximizingPlayer);
    if maximizingPlayer {
      score, best := MaxChildren(children, kids, eval, next, depth - 1, alpha, beta);
    } else {
      score, best := MinChildren(children, kids, eval, next, depth - 1, alpha, beta);
    }
  }

  /** The maximising branch of minimax: max_eval from -10001, best_board the last child
      whose score is at least the best so far, alpha raised to each score. */
  method MaxChildren(children: seq<Model.BoardState>, ghost kids: seq<ValidPosition>,
                     ghost eval: ValidPosition -> int, ghost next: (ValidPosition, bool) -> seq<ValidPosition>,
                     d: nat, alpha: int, beta: int)
    returns (maxEval: int, bestBoard: Option<Model.BoardState>)
    requires |children| == |kids| && ScoresAs(eval) && MovesAs(next)
    requires forall j :: 0 <= j < |children| ==> children[j].Valid() && children[j].State() == kids[j]
    ensures var r := Search.MaxLoop<ValidPosition>(eval, next, kids, 0, d, alpha, beta, Search.Outcome(-10001, None));
      maxEval == r.score && (bestBoard.None? <==> r.best.None?) &&
      (bestBoard.Some? ==> bestBoard.value.Valid() && bestBoard.value.State() == r.best.value)
    decreases d + 1, 0
  {
    maxEval := -10001;
    bestBoard := None;
    ghost var acc: Search.Outcome<ValidPosition> := Search.Outcome(-10001, None);
    ghost var goal := Search.MaxLoop<ValidPosition>(eval, next, kids, 0, d, alpha, beta, acc);
    var a := alpha;
    var i := 0;
    while i < |children|
      invariant 0 <= i <= |children|
      invariant forall j :: 0 <= j < |children| ==> children[j].Valid() && children[j].State() == kids[j]
      invariant acc.score == maxEval && (bestBoard.None? <==> acc.best.None?)
      invariant bestBoard.Some? ==> bestBoard.value.Valid() && bestBoard.value.State() == acc.best.value
      invariant Search.MaxLoop<ValidPosition>(eval, next, kids, i, d, a, beta, acc) == goal
      decreases |children| - i
    {
      var e, _ := AlphaBeta(children[i], eval, next, d, a, beta, false);
      if e >= maxEval {
        maxEval := e;
        bestBoard := Some(children[i]);
        acc := Search.Outcome(e, Some(kids[i]));
      }
      a := Search.Max(a, e);
      if beta <= a {
        return;
      }
      i := i + 1;
    }
  }

  /** The minimising branch of minimax: min_eval from 10001, best_board the last child
      whose score is at most the best so far, beta lowered to each score. */
  method MinChildren(children: seq<Model.BoardState>, ghost kids: seq<ValidPosition>,
                     ghost eval: ValidPosition -> int, ghost next: (ValidPosition, bool) -> seq<ValidPosition>,
                     d: nat, alpha: int, beta: int)
    returns (minEval: int, bestBoard: Option<Model.BoardState>)
    requires |children| == |kids| && ScoresAs(eval) && MovesAs(next)
    requires forall j :: 0 <= j < |children| ==> children[j].Valid() && children[j].State() == kids[j]
    ensures var r := Search.MinLoop<ValidPosition>(eval, next, kids, 0, d, alpha, beta, Search.Outcome(10001, None));
      minEval == r.score && (bestBoard.None? <==> r.best.None?) &&
      (bestBoard.Some? ==> bestBoard.value.Valid() && bestBoard.value.State() == r.best.value)
    decreases d + 1, 0
  {
    minEval := 10001;
    bestBoard := None;
    ghost var acc: Search.Outcome<ValidPosition> := Search.Outcome(10001, None);
    ghost var goal := Search.MinLoop<ValidPosition>(eval, next, kids, 0, d, alpha, beta, acc);
    var b := beta;
    var i := 0;
    while i < |children|
      invariant 0 <= i <= |children|
      invariant forall j :: 0 <= j < |children| ==> children[j].Valid() && children[j].State() == kids[j]
      invariant acc.score == minEval && (bestBoard.None? <==> acc.best.None?)
      invariant bestBoard.Some? ==> bestBoard.value.Valid() && bestBoard.value.State() == acc.best.value
      invariant Search.MinLoop<ValidPosition>(eval, next, kids, i, d, alpha, b, acc) == goal
      decreases |children| - i
    {
      var e, _ := AlphaBeta(children[i], eval, next, d, alpha, b, true);
      if e <= minEval {
        minEval := e;
        bestBoard := Some(children[i]);
        acc := Search.Outcome(e, Some(kids[i]));
      }
      b := Search.Min(b, e);
      if b <= alpha {
        return;
      }
      i := i + 1;
    }
  }
}
