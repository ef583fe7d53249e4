/**
 * The static evaluation of ai.py as functions of the grid: the material count
 * (black material minus white material) and the check bonus and mate override
 * that replace or adjust it. Positive scores favour black, the side the search
 * maximises.
 */
module Evaluation {
  import opened Chessboard
  import opened Legality
  import Board

  /** piece_values: (code, value) pairs; kings are not listed. */
  const PieceValues: seq<(int, int)> :=
    [(3, 900), (4, 900), (5, 300), (6, 300), (7, 300), (8, 300), (9, 500), (10, 500), (11, 100), (12, 100)]

  /** The comprehension that looks a code up: the values of the entries, from index i on,
      whose code is code. */
  function ValuesListed(table: seq<(int, int)>, code: int, i: nat): (values: seq<int>)
    requires i <= |table|
    ensures |values| <= |table| - i
    decreases |table| - i
  {
    if i == |table| then []
    else (if table[i].0 == code then [table[i].1] else []) + ValuesListed(table, code, i + 1)
  }

  /** The value of a piece of either colour: queen 900, bishop and knight 300, rook 500,
      pawn 100, and 0 for kings and empty squares. */
  function PieceValue(code: int): int {
    if code == 3 || code == 4 then 900
    else if 5 <= code <= 8 then 300
    else if code == 9 || code == 10 then 500
    else if code == 11 || code == 12 then 100
    else 0
  }

  /** Every non-king code is listed exactly once, with its value. */
  lemma PieceValueListed(code: int)
    requires 3 <= code <= 12
    ensures ValuesListed(PieceValues, code, 0) == [PieceValue(code)]
  {
    var t := PieceValues;
    assert ValuesListed(t, code, 10) == [];
    assert ValuesListed(t, code, 9) == (if code == 12 then [100] else []);
    assert ValuesListed(t, code, 8) == (if code == 11 then [100] else []) + ValuesListed(t, code, 9);
    assert ValuesListed(t, code, 7) == (if code == 10 then [500] else []) + ValuesListed(t, code, 8);
    assert ValuesListed(t, code, 6) == (if code == 9 then [500] else []) + ValuesListed(t, code, 7);
    assert ValuesListed(t, code, 5) == (if code == 8 then [300] else []) + ValuesListed(t, code, 6);
    assert ValuesListed(t, code, 4) == (if code == 7 then [300] else []) + ValuesListed(t, code, 5);
    assert ValuesListed(t, code, 3) == (if code == 6 then [300] else []) + ValuesListed(t, code, 4);
    assert ValuesListed(t, code, 2) == (if code == 5 then [300] else []) + ValuesListed(t, code, 3);
    assert ValuesListed(t, code, 1) == (if code == 4 then [900] else []) + ValuesListed(t, code, 2);
    assert ValuesListed(t, code, 0) == (if code == 3 then [900] else []) + ValuesListed(t, code, 1);
  }

  /** What one square adds to the score: a white piece (odd) counts against, a black
      piece (even) for, and codes 0, 1 and 2 nothing. */
  function CellScore(v: int): int {
    if v != 0 && v > 2 then (if v % 2 == 1 then -PieceValue(v) else PieceValue(v)) else 0
  }

  /** The score of the first n squares of a rank. */
  function MaterialInRank(g: Grid, rank: int, n: int): int
    requires IsGrid(g) && 0 <= rank < 8 && 0 <= n <= 8
    decreases n
  {
    if n == 0 then 0 else MaterialInRank(g, rank, n - 1) + CellScore(g[rank][n - 1])
  }

  /** The score of the first k ranks. */
  function MaterialInRanks(g: Grid, k: int): int
    requires IsGrid(g) && 0 <= k <= 8
    decreases k
  {
    if k == 0 then 0 else MaterialInRanks(g, k - 1) + MaterialInRank(g, k - 1, 8)
  }

  /** The material term of evaluate. */
  function Material(g: Grid): int
    requires IsGrid(g)
  {
    MaterialInRanks(g, 8)
  }

  /** evaluate: the material, then +30 if white is in check (replaced by 10000 if white
      is checkmated), else -30 if black is in check (replaced by -10000 if black is
      checkmated). */
  function Evaluate(g: Grid): int
    requires IsGrid(g)
  {
    Adjusted(Material(g), InCheck(g, Letter('w')), InCheckmate(g, Letter('w')),
      InCheck(g, Letter('b')), InCheckmate(g, Letter('b')))
  }

  /** The check and mate adjustments of evaluate applied to a material count. */
  function Adjusted(material: int, whiteCheck: bool, whiteMate: bool, blackCheck: bool, blackMate: bool): int {
    if whiteCheck then (if whiteMate then 10000 else material + 30)
    else if blackCheck then (if blackMate then -10000 else material - 30)
    else material
  }

  /** With a material count that is a multiple of 100, the adjustment reaches a mate score
      only through the mate flag or through the material itself. */
  lemma AdjustedMateScores(material: int, units: int, whiteCheck: bool, whiteMate: bool, blackCheck: bool, blackMate: bool)
    requires material == 100 * units
    ensures Adjusted(material, whiteCheck, whiteMate, blackCheck, blackMate) == 10000 <==>
      (whiteCheck && whiteMate) || (!whiteCheck && !blackCheck && material == 10000)
    ensures Adjusted(material, whiteCheck, whiteMate, blackCheck, blackMate) == -10000 <==>
      (!whiteCheck && blackCheck && blackMate) || (!whiteCheck && !blackCheck && material == -10000)
  {
    assert 100 * units + 30 != 10000 && 100 * units + 30 != -10000;
    assert 100 * units - 30 != 10000 && 100 * units - 30 != -10000;
  }

  /** The value of a square to one side: the piece's value if it has that parity. */
  function SideValue(v: int, parity: int): int {
    if v != 0 && v % 2 == parity then PieceValue(v) else 0
  }

  function SideInRank(g: Grid, parity: int, rank: int, n: int): int
    requires IsGrid(g) && 0 <= rank < 8 && 0 <= n <= 8
    decreases n
  {
    if n == 0 then 0 else SideInRank(g, parity, rank, n - 1) + SideValue(g[rank][n - 1], parity)
  }

  function SideInRanks(g: Grid, parity: int, k: int): int
    requires IsGrid(g) && 0 <= k <= 8
    decreases k
  {
    if k == 0 then 0 else SideInRanks(g, parity, k - 1) + SideInRank(g, parity, k - 1, 8)
  }

  /** The total value of the pieces of one parity (0 black, 1 white). */
  function SideMaterial(g: Grid, parity: int): int
    requires IsGrid(g)
  {
    SideInRanks(g, parity, 8)
  }

  lemma CellScoreSides(v: int)
    requires 0 <= v <= 12
    ensures CellScore(v) == SideValue(v, 0) - SideValue(v, 1)
  {
  }

  lemma {:induction false} RankSides(g: Grid, rank: int, n: int)
    requires IsGrid(g) && 0 <= rank < 8 && 0 <= n <= 8
    ensures MaterialInRank(g, rank, n) == SideInRank(g, 0, rank, n) - SideInRank(g, 1, rank, n)
    decreases n
  {
    if n > 0 {
      RankSides(g, rank, n - 1);
      CellScoreSides(g[rank][n - 1]);
    }
  }

  lemma {:induction false} RanksSides(g: Grid, k: int)
    requires IsGrid(g) && 0 <= k <= 8
    ensures MaterialInRanks(g, k) == SideInRanks(g, 0, k) - SideInRanks(g, 1, k)
    decreases k
  {
    if k > 0 {
      RanksSides(g, k - 1);
      RankSides(g, k - 1, 8);
    }
  }

  /** The material term is black's material minus white's, kings counting for nothing. */
  lemma MaterialDifference(g: Grid)
    requires IsGrid(g)
    ensures Material(g) == SideMaterial(g, 0) - SideMaterial(g, 1)
    ensures SideValue(1, 1) == 0 && SideValue(2, 0) == 0
  {
    RanksSides(g, 8);
  }

  /** Writing v into (r, f) changes a rank's partial score only if f is among its first
      n squares, and then by the difference of the two squares' scores. */
  lemma {:induction false} RankUpdate(g: Grid, r: int, f: int, v: int, rank: int, n: int)
    requires IsGrid(g) && OnBoard(r, f) && 0 <= v <= 12 && 0 <= rank < 8 && 0 <= n <= 8
    ensures IsGrid(g[r := g[r][f := v]])
    ensures MaterialInRank(g[r := g[r][f := v]], rank, n) ==
      MaterialInRank(g, rank, n) + (if rank == r && f < n then CellScore(v) - CellScore(g[r][f]) else 0)
    decreases n
  {
    if n > 0 {
      RankUpdate(g, r, f, v, rank, n - 1);
    }
  }

  lemma {:induction false} RanksUpdate(g: Grid, r: int, f: int, v: int, k: int)
    requires IsGrid(g) && OnBoard(r, f) && 0 <= v <= 12 && 0 <= k <= 8
    ensures IsGrid(g[r := g[r][f := v]])
    ensures MaterialInRanks(g[r := g[r][f := v]], k) ==
      MaterialInRanks(g, k) + (if r < k then CellScore(v) - CellScore(g[r][f]) else 0)
    decreases k
  {
    RankUpdate(g, r, f, v, 0, 0);
    if k > 0 {
      RanksUpdate(g, r, f, v, k - 1);
      RankUpdate(g, r, f, v, k - 1, 8);
    }
  }

  /** Changing one square changes the material by the difference of its two scores. */
  lemma MaterialUpdate(g: Grid, r: int, f: int, v: int)
    requires IsGrid(g) && OnBoard(r, f) && 0 <= v <= 12
    ensures IsGrid(g[r := g[r][f := v]])
    ensures Material(g[r := g[r][f := v]]) == Material(g) - CellScore(g[r][f]) + CellScore(v)
  {
    RanksUpdate(g, r, f, v, 8);
  }

  /** A move changes the material only by removing whatever stood on the destination: a
      capture of a black piece lowers it by that piece's value, a capture of a white piece
      raises it, and a move to an empty square or onto its own square leaves it. */
  lemma MaterialAfterMove(g: Grid, r1: int, f1: int, r2: int, f2: int)
    requires IsGrid(g) && OnBoard(r1, f1) && OnBoard(r2, f2)
    ensures (r1, f1) != (r2, f2) ==> Material(MoveResult(g, r1, f1, r2, f2)) == Material(g) - CellScore(g[r2][f2])
    ensures (r1, f1) == (r2, f2) ==> Material(MoveResult(g, r1, f1, r2, f2)) == Material(g)
  {
    if (r1, f1) == (r2, f2) {
      MoveResultSameSquare(g, r1, f1);
    } else {
      var piece := g[r1][f1];
      var cleared := g[r1 := g[r1][f1 := 0]];
      MaterialUpdate(g, r1, f1, 0);
      assert cleared[r2][f2] == g[r2][f2];
      MaterialUpdate(cleared, r2, f2, piece);
      assert MoveResult(g, r1, f1, r2, f2) == cleared[r2 := cleared[r2][f2 := piece]];
    }
  }

  /** Every square's score is a whole number of hundreds. */
  lemma CellHundreds(v: int) returns (units: int)
    ensures CellScore(v) == 100 * units
  {
    units := CellScore(v) / 100;
  }

  lemma {:induction false} RankHundreds(g: Grid, rank: int, n: int) returns (units: int)
    requires IsGrid(g) && 0 <= rank < 8 && 0 <= n <= 8
    ensures MaterialInRank(g, rank, n) == 100 * units
    decreases n
  {
    if n == 0 {
      units := 0;
    } else {
      var before := RankHundreds(g, rank, n - 1);
      var cell := CellHundreds(g[rank][n - 1]);
      units := before + cell;
    }
  }

  lemma {:induction false} RanksHundreds(g: Grid, k: int) returns (units: int)
    requires IsGrid(g) && 0 <= k <= 8
    ensures MaterialInRanks(g, k) == 100 * units
    decreases k
  {
    if k == 0 {
      units := 0;
    } else {
      var before := RanksHundreds(g, k - 1);
      var rank := RankHundreds(g, k - 1, 8);
      units := before + rank;
    }
  }

  /** Every piece value is a multiple of 100, so the check bonus of 30 can never produce
      one of the two mate scores: evaluate returns 10000 exactly when white is in check
      and checkmated, or when neither side is in check and the material is 10000; and
      symmetrically for -10000 and black (consulted only when white is not in check). */
  lemma EvaluateMateScores(g: Grid)
    requires IsGrid(g)
    ensures Evaluate(g) == 10000 <==>
      (InCheck(g, Letter('w')) && InCheckmate(g, Letter('w'))) ||
      (!InCheck(g, Letter('w')) && !InCheck(g, Letter('b')) && Material(g) == 10000)
    ensures Evaluate(g) == -10000 <==>
      (!InCheck(g, Letter('w')) && InCheck(g, Letter('b')) && InCheckmate(g, Letter('b'))) ||
      (!InCheck(g, Letter('w')) && !InCheck(g, Letter('b')) && Material(g) == -10000)
  {
    var units := RanksHundreds(g, 8);
    AdjustedMateScores(Material(g), units, InCheck(g, Letter('w')), InCheckmate(g, Letter('w')),
      InCheck(g, Letter('b')), InCheckmate(g, Letter('b')));
  }

  /** The check adjustments: +30 when white is in check and not mated, -30 when only
      black is in check and not mated, nothing when neither is in check. */
  lemma EvaluateCheckBonus(g: Grid)
    requires IsGrid(g)
    ensures InCheck(g, Letter('w')) && !InCheckmate(g, Letter('w')) ==> Evaluate(g) == Material(g) + 30
    ensures !InCheck(g, Letter('w')) && InCheck(g, Letter('b')) && !InCheckmate(g, Letter('b')) ==>
      Evaluate(g) == Material(g) - 30
    ensures !InCheck(g, Letter('w')) && !InCheck(g, Letter('b')) ==> Evaluate(g) == Material(g)
  {
  }

  /** A rank's value to one side, written out square by square. */
  lemma SideInRankSquares(g: Grid, parity: int, rank: int)
    requires IsGrid(g) && 0 <= rank < 8
    ensures SideInRank(g, parity, rank, 8) ==
      SideValue(g[rank][0], parity) + SideValue(g[rank][1], parity) + SideValue(g[rank][2], parity) +
      SideValue(g[rank][3], parity) + SideValue(g[rank][4], parity) + SideValue(g[rank][5], parity) +
      SideValue(g[rank][6], parity) + SideValue(g[rank][7], parity)
  {
  }

  /** One side's material, written out rank by rank. */
  lemma SideMaterialRanks(g: Grid, parity: int)
    requires IsGrid(g)
    ensures SideMaterial(g, parity) ==
      SideInRank(g, parity, 0, 8) + SideInRank(g, parity, 1, 8) + SideInRank(g, parity, 2, 8) +
      SideInRank(g, parity, 3, 8) + SideInRank(g, parity, 4, 8) + SideInRank(g, parity, 5, 8) +
      SideInRank(g, parity, 6, 8) + SideInRank(g, parity, 7, 8)
  {
  }

  lemma StartGrid()
    ensures IsGrid(Board.StartRows)
  {
  }

  /** Black material in the starting position: eight pawns, two rooks, knights and bishops
      and a queen. */
  lemma StartBlackMaterial()
    ensures IsGrid(Board.StartRows) && SideMaterial(Board.StartRows, 0) == 3900
  {
    var g := Board.StartRows;
    StartGrid();
    SideInRankSquares(g, 0, 0);
    assert SideInRank(g, 0, 0, 8) == 3100;
    SideInRankSquares(g, 0, 1);
    assert SideInRank(g, 0, 1, 8) == 800;
    SideInRankSquares(g, 0, 2);
    assert SideInRank(g, 0, 2, 8) == 0;
    SideInRankSquares(g, 0, 3);
    assert SideInRank(g, 0, 3, 8) == 0;
    SideInRankSquares(g, 0, 4);
    assert SideInRank(g, 0, 4, 8) == 0;
    SideInRankSquares(g, 0, 5);
    assert SideInRank(g, 0, 5, 8) == 0;
    SideInRankSquares(g, 0, 6);
    assert SideInRank(g, 0, 6, 8) == 0;
    SideInRankSquares(g, 0, 7);
    assert SideInRank(g, 0, 7, 8) == 0;
    SideMaterialRanks(g, 0);
  }

  /** White material in the starting position: eight pawns, two rooks, knights and bishops
      and a queen. */
  lemma StartWhiteMaterial()
    ensures IsGrid(Board.StartRows) && SideMaterial(Board.StartRows, 1) == 3900
  {
    var g := Board.StartRows;
    StartGrid();
    SideInRankSquares(g, 1, 0);
    assert SideInRank(g, 1, 0, 8) == 0;
    SideInRankSquares(g, 1, 1);
    assert SideInRank(g, 1, 1, 8) == 0;
    SideInRankSquares(g, 1, 2);
    assert SideInRank(g, 1, 2, 8) == 0;
    SideInRankSquares(g, 1, 3);
    assert SideInRank(g, 1, 3, 8) == 0;
    SideInRankSquares(g, 1, 4);
    assert SideInRank(g, 1, 4, 8) == 0;
    SideInRankSquares(g, 1, 5);
    assert SideInRank(g, 1, 5, 8) == 0;
    SideInRankSquares(g, 1, 6);
    assert SideInRank(g, 1, 6, 8) == 800;
    SideInRankSquares(g, 1, 7);
    assert SideInRank(g, 1, 7, 8) == 3100;
    SideMaterialRanks(g, 1);
  }

  /** The starting position is materially level. */
  lemma StartMaterial()
    ensures IsGrid(Board.StartRows) && Material(Board.StartRows) == 0
  {
    StartBlackMaterial();
    StartWhiteMaterial();
    MaterialDifference(Board.StartRows);
  }
}
