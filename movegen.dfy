/**
 * Pseudo-legal move generation (model.py:98-309 and the dispatch at 359-396) as
 * functions of the grid. A generator receives the mover's colour as the letter
 * 'w' or 'b' and lists destination squares in the order the source appends them.
 * A "capturable" occupant is one of the colour the letter does not name: for 'w'
 * an even code, for 'b' an odd code.
 */
module MoveGen {
  import opened Chessboard

  /** The cell at a square of a grid. */
  function At(g: Grid, s: Square): int
    requires IsGrid(g) && OnBoardSquare(s)
  {
    g[s.rank][s.file]
  }

  /** The branch of every generator that adds a non-empty square: the occupant has the
      parity the colour letter does not name. */
  predicate Capturable(color: char, v: int) {
    (color == 'w' && v % 2 == 0) || (color == 'b' && v % 2 == 1)
  }

  /** The eight king-step directions used by the sliding pieces. */
  predicate IsDirection(dr: int, df: int) {
    -1 <= dr <= 1 && -1 <= df <= 1 && (dr != 0 || df != 0)
  }

  /** One step from s in direction (dr, df). */
  function Next(s: Square, dr: int, df: int): Square {
    Square(s.rank + dr, s.file + df)
  }

  /** How many more steps direction d allows along one coordinate before leaving the board. */
  function Reach(x: int, d: int): int {
    if d == 1 then 8 - x else if d == -1 then x + 1 else 0
  }

  /** The squares of one ray beyond the square from, in direction (dr, df): empty squares
      are added and the walk goes on, a capturable occupant is added and ends the walk,
      any other occupant or the edge of the board ends it. */
  function Ray(g: Grid, color: char, from: Square, dr: int, df: int): (moves: seq<Square>)
    requires IsGrid(g) && OnBoardSquare(from) && IsDirection(dr, df)
    ensures forall i :: 0 <= i < |moves| ==> OnBoardSquare(moves[i])
    decreases Reach(from.rank, dr) + Reach(from.file, df)
  {
    var s := Next(from, dr, df);
    if !OnBoardSquare(s) then []
    else if At(g, s) == 0 then [s] + Ray(g, color, s, dr, df)
    else if Capturable(color, At(g, s)) then [s]
    else []
  }

  /** One step of a ray seen from inside the board: the next square decides. */
  lemma RayStep(g: Grid, color: char, from: Square, dr: int, df: int)
    requires IsGrid(g) && OnBoardSquare(from) && IsDirection(dr, df)
    requires OnBoardSquare(Next(from, dr, df))
    ensures var s := Next(from, dr, df);
      var ray := Ray(g, color, from, dr, df);
      (At(g, s) == 0 ==> ray == [s] + Ray(g, color, s, dr, df)) &&
      (At(g, s) != 0 && Capturable(color, At(g, s)) ==> ray == [s]) &&
      (At(g, s) != 0 && !Capturable(color, At(g, s)) ==> ray == [])
  {
  }

  /** legal_rook_moves: the rays down, up, right and left, in that order. */
  function RookMoves(g: Grid, color: char, r: int, f: int): (moves: seq<Square>)
    requires IsGrid(g) && OnBoard(r, f)
  {
    Ray(g, color, Square(r, f), 1, 0) + Ray(g, color, Square(r, f), -1, 0) +
    Ray(g, color, Square(r, f), 0, 1) + Ray(g, color, Square(r, f), 0, -1)
  }

  /** legal_bishop_moves: the diagonals up-left, up-right, down-right, down-left. */
  function BishopMoves(g: Grid, color: char, r: int, f: int): (moves: seq<Square>)
    requires IsGrid(g) && OnBoard(r, f)
  {
    Ray(g, color, Square(r, f), -1, -1) + Ray(g, color, Square(r, f), -1, 1) +
    Ray(g, color, Square(r, f), 1, 1) + Ray(g, color, Square(r, f), 1, -1)
  }

  const KnightOffsets: seq<(int, int)> := [(2, 1), (2, -1), (1, -2), (1, 2), (-1, 2), (-1, -2), (-2, 1), (-2, -1)]
  const KingOffsets: seq<(int, int)> := [(-1, 0), (-1, 1), (0, 1), (1, 1), (1, 0), (1, -1), (0, -1), (-1, -1)]

  /** Whether the jump by offset o from (r, f) is listed: on the board and onto an empty
      or capturable square. */
  predicate JumpListed(g: Grid, color: char, r: int, f: int, o: (int, int))
    requires IsGrid(g)
  {
    OnBoard(r + o.0, f + o.1) && (g[r + o.0][f + o.1] == 0 || Capturable(color, g[r + o.0][f + o.1]))
  }

  /** The offset loop of legal_knight_moves and legal_king_moves, over a prefix of the offsets. */
  function Jumps(g: Grid, color: char, r: int, f: int, offsets: seq<(int, int)>): (moves: seq<Square>)
    requires IsGrid(g)
    ensures forall i :: 0 <= i < |moves| ==> OnBoardSquare(moves[i])
    decreases |offsets|
  {
    if offsets == [] then []
    else
      var o := offsets[|offsets| - 1];
      Jumps(g, color, r, f, offsets[..|offsets| - 1]) +
      (if JumpListed(g, color, r, f, o) then [Square(r + o.0, f + o.1)] else [])
  }

  function KnightMoves(g: Grid, color: char, r: int, f: int): seq<Square>
    requires IsGrid(g)
  {
    Jumps(g, color, r, f, KnightOffsets)
  }

  function KingMoves(g: Grid, color: char, r: int, f: int): seq<Square>
    requires IsGrid(g)
  {
    Jumps(g, color, r, f, KingOffsets)
  }

  /** legal_pawn_moves for 'w': the double step to (4, f) from rank 6 when (4, f) is
      empty, the single step when the square in front is empty, and the captures onto
      a non-empty even code to the right and then to the left. */
  function WhitePawnMoves(g: Grid, r: int, f: int): seq<Square>
    requires IsGrid(g) && OnBoard(r, f)
  {
    (if r == 6 && g[4][f] == 0 then [Square(4, f)] else []) +
    (if r - 1 > -1 && g[r - 1][f] == 0 then [Square(r - 1, f)] else []) +
    (if OnBoard(r - 1, f + 1) && g[r - 1][f + 1] != 0 && g[r - 1][f + 1] % 2 == 0 then [Square(r - 1, f + 1)] else []) +
    (if OnBoard(r - 1, f - 1) && g[r - 1][f - 1] != 0 && g[r - 1][f - 1] % 2 == 0 then [Square(r - 1, f - 1)] else [])
  }

  /** The 'b' branch: mirrored with rank + 1, the double step to (3, f) from rank 1, and
      captures onto odd codes. */
  function BlackPawnMoves(g: Grid, r: int, f: int): seq<Square>
    requires IsGrid(g) && OnBoard(r, f)
  {
    (if r == 1 && g[3][f] == 0 then [Square(3, f)] else []) +
    (if r + 1 < 8 && g[r + 1][f] == 0 then [Square(r + 1, f)] else []) +
    (if OnBoard(r + 1, f + 1) && g[r + 1][f + 1] != 0 && g[r + 1][f + 1] % 2 == 1 then [Square(r + 1, f + 1)] else []) +
    (if OnBoard(r + 1, f - 1) && g[r + 1][f - 1] != 0 && g[r + 1][f - 1] % 2 == 1 then [Square(r + 1, f - 1)] else [])
  }

  /** legal_pawn_moves, whose third branch returns (not raises) a ValueError. */
  function PawnMoves(g: Grid, color: char, r: int, f: int): (result: Result<seq<Square>, ValueError>)
    requires IsGrid(g) && OnBoard(r, f)
    ensures result.Err? <==> color != 'w' && color != 'b'
    ensures result.Ok? ==> forall i :: 0 <= i < |result.value| ==> OnBoardSquare(result.value[i])
  {
    if color == 'w' then Ok(WhitePawnMoves(g, r, f))
    else if color == 'b' then Ok(BlackPawnMoves(g, r, f))
    else Err(ValueError("wrong color argument"))
  }

  /** The colour letter get_psuedolegal_moves derives from a code: 'b' for even codes. */
  function ColorOf(piece: int): char {
    if piece % 2 == 0 then 'b' else 'w'
  }

  /** get_psuedolegal_moves: the generator for the piece on (r, f); a queen gets the rook
      moves followed by the bishop moves, and an empty square gets nothing. */
  function PseudoLegal(g: Grid, r: int, f: int): (moves: seq<Square>)
    requires IsGrid(g) && OnBoard(r, f)
    ensures forall i :: 0 <= i < |moves| ==> OnBoardSquare(moves[i])
  {
    var piece := g[r][f];
    var color := ColorOf(piece);
    if piece == 11 || piece == 12 then PawnMoves(g, color, r, f).value
    else if piece == 9 || piece == 10 then RookMoves(g, color, r, f)
    else if piece == 7 || piece == 8 then KnightMoves(g, color, r, f)
    else if piece == 5 || piece == 6 then BishopMoves(g, color, r, f)
    else if piece == 3 || piece == 4 then RookMoves(g, color, r, f) + BishopMoves(g, color, r, f)
    else if piece == 1 || piece == 2 then KingMoves(g, color, r, f)
    else []
  }

  /** A destination that does not hold a piece of the mover's colour (the parity of p). */
  predicate NotFriendly(g: Grid, s: Square, p: int)
    requires IsGrid(g) && OnBoardSquare(s)
  {
    At(g, s) == 0 || At(g, s) % 2 != p % 2
  }

  /** A ray is exactly the walk the loop performs: every square but the last is empty, a
      non-empty last square is capturable, and the walk could not have gone one further
      (the next square is off the board or holds an uncapturable piece) unless it ended
      on a capture. */
  /** The walk cannot go on to s: s is off the board or holds a piece it may not take. */
  predicate Blocked(g: Grid, color: char, s: Square)
    requires IsGrid(g)
  {
    !OnBoardSquare(s) || (At(g, s) != 0 && !Capturable(color, At(g, s)))
  }

  /** The square a walk has reached: its last square, or its start if it has none. */
  function LastOf(from: Square, ray: seq<Square>): Square {
    if |ray| == 0 then from else ray[|ray| - 1]
  }

  lemma RayShape(g: Grid, color: char, from: Square, dr: int, df: int)
    requires IsGrid(g) && OnBoardSquare(from) && IsDirection(dr, df)
    ensures var ray := Ray(g, color, from, dr, df);
      (forall i :: 0 <= i < |ray| - 1 ==> At(g, ray[i]) == 0) &&
      (|ray| > 0 && At(g, LastOf(from, ray)) != 0 ==> Capturable(color, At(g, LastOf(from, ray)))) &&
      (|ray| == 0 || At(g, LastOf(from, ray)) == 0 ==> Blocked(g, color, Next(LastOf(from, ray), dr, df)))
  {
    var ray := Ray(g, color, from, dr, df);
    forall i | 0 <= i < |ray| - 1
      ensures At(g, ray[i]) == 0
    {
      RayOpen(g, color, from, dr, df, i);
    }
    RayEnd(g, color, from, dr, df);
    RayStop(g, color, from, dr, df);
  }

  /** A square of the ray before its last is empty. */
  lemma {:induction false} RayOpen(g: Grid, color: char, from: Square, dr: int, df: int, i: int)
    requires IsGrid(g) && OnBoardSquare(from) && IsDirection(dr, df)
    requires 0 <= i < |Ray(g, color, from, dr, df)| - 1
    ensures At(g, Ray(g, color, from, dr, df)[i]) == 0
    decreases Reach(from.rank, dr) + Reach(from.file, df)
  {
    var s := Next(from, dr, df);
    var rest := Ray(g, color, s, dr, df);
    assert Ray(g, color, from, dr, df) == [s] + rest;
    if i > 0 {
      RayOpen(g, color, s, dr, df, i - 1);
    }
  }

  /** An occupied last square holds a capturable piece. */
  lemma {:induction false} RayEnd(g: Grid, color: char, from: Square, dr: int, df: int)
    requires IsGrid(g) && OnBoardSquare(from) && IsDirection(dr, df)
    ensures var ray := Ray(g, color, from, dr, df);
      |ray| > 0 && At(g, LastOf(from, ray)) != 0 ==> Capturable(color, At(g, LastOf(from, ray)))
    decreases Reach(from.rank, dr) + Reach(from.file, df)
  {
    var s := Next(from, dr, df);
    if OnBoardSquare(s) && At(g, s) == 0 {
      RayEnd(g, color, s, dr, df);
      var rest := Ray(g, color, s, dr, df);
      assert Ray(g, color, from, dr, df) == [s] + rest;
      assert |rest| > 0 ==> LastOf(from, [s] + rest) == LastOf(s, rest);
    }
  }

  /** A ray that does not end on a capture could not have gone one square further. */
  lemma {:induction false} RayStop(g: Grid, color: char, from: Square, dr: int, df: int)
    requires IsGrid(g) && OnBoardSquare(from) && IsDirection(dr, df)
    ensures var ray := Ray(g, color, from, dr, df);
      |ray| == 0 || At(g, LastOf(from, ray)) == 0 ==> Blocked(g, color, Next(LastOf(from, ray), dr, df))
    decreases Reach(from.rank, dr) + Reach(from.file, df)
  {
    var s := Next(from, dr, df);
    if OnBoardSquare(s) && At(g, s) == 0 {
      RayStop(g, color, s, dr, df);
      var rest := Ray(g, color, s, dr, df);
      assert Ray(g, color, from, dr, df) == [s] + rest;
      assert LastOf(from, [s] + rest) == LastOf(s, rest);
    } else if OnBoardSquare(s) && Capturable(color, At(g, s)) {
      assert Ray(g, color, from, dr, df) == [s];
    } else {
      assert Ray(g, color, from, dr, df) == [];
    }
  }

  /** The ray's squares are consecutive steps outward from the square it starts beside. */
  lemma {:induction false} RaySquares(g: Grid, color: char, from: Square, dr: int, df: int)
    requires IsGrid(g) && OnBoardSquare(from) && IsDirection(dr, df)
    ensures var ray := Ray(g, color, from, dr, df);
      (|ray| > 0 ==> ray[0] == Next(from, dr, df)) &&
      forall i :: 0 <= i < |ray| - 1 ==> ray[i + 1] == Next(ray[i], dr, df)
    decreases Reach(from.rank, dr) + Reach(from.file, df)
  {
    var s := Next(from, dr, df);
    if OnBoardSquare(s) && At(g, s) == 0 {
      RaySquares(g, color, s, dr, df);
      var rest := Ray(g, color, s, dr, df);
      assert forall i :: 1 <= i < 1 + |rest| ==> ([s] + rest)[i] == rest[i - 1];
    }
  }

  /** Capturable occupants have the other parity from a piece whose letter is ColorOf. */
  lemma CapturableOpposite(p: int, v: int)
    requires Capturable(ColorOf(p), v)
    ensures v % 2 != p % 2
  {
  }

  lemma RayNoFriendly(g: Grid, r: int, f: int, dr: int, df: int)
    requires IsGrid(g) && OnBoard(r, f) && IsDirection(dr, df)
    ensures AllNotFriendly(g, Ray(g, ColorOf(g[r][f]), Square(r, f), dr, df), g[r][f])
  {
    var p := g[r][f];
    var ray := Ray(g, ColorOf(p), Square(r, f), dr, df);
    RayShape(g, ColorOf(p), Square(r, f), dr, df);
    forall i | 0 <= i < |ray|
      ensures OnBoardSquare(ray[i]) && NotFriendly(g, ray[i], p)
    {
      if i == |ray| - 1 && At(g, ray[i]) != 0 {
        CapturableOpposite(p, At(g, ray[i]));
      }
    }
  }

  /** A jump is listed exactly when one of the offsets leads to it and passes the test. */
  lemma {:induction false} JumpsMember(g: Grid, color: char, r: int, f: int, offsets: seq<(int, int)>, s: Square)
    requires IsGrid(g)
    ensures s in Jumps(g, color, r, f, offsets) <==>
      exists i :: 0 <= i < |offsets| && s == Square(r + offsets[i].0, f + offsets[i].1) &&
        JumpListed(g, color, r, f, offsets[i])
    decreases |offsets|
  {
    if offsets != [] {
      var init := offsets[..|offsets| - 1];
      JumpsMember(g, color, r, f, init, s);
      assert forall i :: 0 <= i < |init| ==> init[i] == offsets[i];
    }
  }

  lemma JumpsNoFriendly(g: Grid, r: int, f: int, offsets: seq<(int, int)>)
    requires IsGrid(g) && OnBoard(r, f)
    ensures AllNotFriendly(g, Jumps(g, ColorOf(g[r][f]), r, f, offsets), g[r][f])
  {
    var moves := Jumps(g, ColorOf(g[r][f]), r, f, offsets);
    forall i | 0 <= i < |moves|
      ensures NotFriendly(g, moves[i], g[r][f])
    {
      JumpsMember(g, ColorOf(g[r][f]), r, f, offsets, moves[i]);
    }
  }

  /** A knight reaches exactly the on-board squares two-and-one away that are empty or capturable. */
  lemma KnightGeometry(g: Grid, color: char, r: int, f: int, s: Square)
    requires IsGrid(g)
    ensures s in KnightMoves(g, color, r, f) <==>
      OnBoardSquare(s) && (At(g, s) == 0 || Capturable(color, At(g, s))) &&
      ((Abs(s.rank - r) == 2 && Abs(s.file - f) == 1) || (Abs(s.rank - r) == 1 && Abs(s.file - f) == 2))
  {
    JumpsMember(g, color, r, f, KnightOffsets, s);
    if OnBoardSquare(s) && (At(g, s) == 0 || Capturable(color, At(g, s))) &&
      ((Abs(s.rank - r) == 2 && Abs(s.file - f) == 1) || (Abs(s.rank - r) == 1 && Abs(s.file - f) == 2)) {
      var o := (s.rank - r, s.file - f);
      var i := 0;
      if o == (2, 1) {
        i := 0;
      } else if o == (2, -1) {
        i := 1;
      } else if o == (1, -2) {
        i := 2;
      } else if o == (1, 2) {
        i := 3;
      } else if o == (-1, 2) {
        i := 4;
      } else if o == (-1, -2) {
        i := 5;
      } else if o == (-2, 1) {
        i := 6;
      } else if o == (-2, -1) {
        i := 7;
      }
      assert KnightOffsets[i] == o;
      assert s == Square(r + KnightOffsets[i].0, f + KnightOffsets[i].1);
    }
  }

  /** A king reaches exactly the on-board neighbouring squares that are empty or capturable. */
  lemma KingGeometry(g: Grid, color: char, r: int, f: int, s: Square)
    requires IsGrid(g)
    ensures s in KingMoves(g, color, r, f) <==>
      OnBoardSquare(s) && (At(g, s) == 0 || Capturable(color, At(g, s))) &&
      Abs(s.rank - r) <= 1 && Abs(s.file - f) <= 1 && s != Square(r, f)
  {
    JumpsMember(g, color, r, f, KingOffsets, s);
    if OnBoardSquare(s) && (At(g, s) == 0 || Capturable(color, At(g, s))) &&
      Abs(s.rank - r) <= 1 && Abs(s.file - f) <= 1 && s != Square(r, f) {
      var o := (s.rank - r, s.file - f);
      var i := 0;
      if o == (-1, 0) {
        i := 0;
      } else if o == (-1, 1) {
        i := 1;
      } else if o == (0, 1) {
        i := 2;
      } else if o == (1, 1) {
        i := 3;
      } else if o == (1, 0) {
        i := 4;
      } else if o == (1, -1) {
        i := 5;
      } else if o == (0, -1) {
        i := 6;
      } else if o == (-1, -1) {
        i := 7;
      }
      assert KingOffsets[i] == o;
      assert s == Square(r + KingOffsets[i].0, f + KingOffsets[i].1);
    }
  }

  function Abs(x: int): int {
    if x < 0 then -x else x
  }

  /** A white pawn's destinations: the single step onto an empty square, the double step
      from rank 6 onto an empty (4, f) whatever stands on (5, f), and diagonal captures of
      black pieces, all one rank up except the double step. */
  lemma WhitePawnTargets(g: Grid, r: int, f: int, s: Square)
    requires IsGrid(g) && OnBoard(r, f)
    ensures s in WhitePawnMoves(g, r, f) <==>
      OnBoardSquare(s) &&
      ((r == 6 && s == Square(4, f) && At(g, s) == 0) ||
       (s == Square(r - 1, f) && At(g, s) == 0) ||
       (s.rank == r - 1 && Abs(s.file - f) == 1 && At(g, s) != 0 && At(g, s) % 2 == 0))
  {
  }

  /** The black mirror image: one rank down, double step from rank 1 to (3, f), odd captures. */
  lemma BlackPawnTargets(g: Grid, r: int, f: int, s: Square)
    requires IsGrid(g) && OnBoard(r, f)
    ensures s in BlackPawnMoves(g, r, f) <==>
      OnBoardSquare(s) &&
      ((r == 1 && s == Square(3, f) && At(g, s) == 0) ||
       (s == Square(r + 1, f) && At(g, s) == 0) ||
       (s.rank == r + 1 && Abs(s.file - f) == 1 && At(g, s) != 0 && At(g, s) % 2 == 1))
  {
  }

  lemma PawnNoFriendly(g: Grid, r: int, f: int)
    requires IsGrid(g) && OnBoard(r, f)
    ensures AllNotFriendly(g, PawnMoves(g, ColorOf(g[r][f]), r, f).value, g[r][f])
  {
    var moves := PawnMoves(g, ColorOf(g[r][f]), r, f).value;
    forall i | 0 <= i < |moves|
      ensures NotFriendly(g, moves[i], g[r][f])
    {
      if ColorOf(g[r][f]) == 'w' {
        WhitePawnTargets(g, r, f, moves[i]);
      } else {
        BlackPawnTargets(g, r, f, moves[i]);
      }
    }
  }

  lemma RookNoFriendly(g: Grid, r: int, f: int)
    requires IsGrid(g) && OnBoard(r, f)
    ensures AllNotFriendly(g, RookMoves(g, ColorOf(g[r][f]), r, f), g[r][f])
  {
    RayNoFriendly(g, r, f, 1, 0);
    RayNoFriendly(g, r, f, -1, 0);
    RayNoFriendly(g, r, f, 0, 1);
    RayNoFriendly(g, r, f, 0, -1);
    AllNotFriendlyConcat4(g, g[r][f],
      Ray(g, ColorOf(g[r][f]), Square(r, f), 1, 0), Ray(g, ColorOf(g[r][f]), Square(r, f), -1, 0),
      Ray(g, ColorOf(g[r][f]), Square(r, f), 0, 1), Ray(g, ColorOf(g[r][f]), Square(r, f), 0, -1));
  }

  lemma BishopNoFriendly(g: Grid, r: int, f: int)
    requires IsGrid(g) && OnBoard(r, f)
    ensures AllNotFriendly(g, BishopMoves(g, ColorOf(g[r][f]), r, f), g[r][f])
  {
    RayNoFriendly(g, r, f, -1, -1);
    RayNoFriendly(g, r, f, -1, 1);
    RayNoFriendly(g, r, f, 1, 1);
    RayNoFriendly(g, r, f, 1, -1);
    AllNotFriendlyConcat4(g, g[r][f],
      Ray(g, ColorOf(g[r][f]), Square(r, f), -1, -1), Ray(g, ColorOf(g[r][f]), Square(r, f), -1, 1),
      Ray(g, ColorOf(g[r][f]), Square(r, f), 1, 1), Ray(g, ColorOf(g[r][f]), Square(r, f), 1, -1));
  }

  predicate AllNotFriendly(g: Grid, moves: seq<Square>, p: int)
    requires IsGrid(g)
  {
    forall i :: 0 <= i < |moves| ==> OnBoardSquare(moves[i]) && NotFriendly(g, moves[i], p)
  }

  lemma AllNotFriendlyConcat4(g: Grid, p: int, a: seq<Square>, b: seq<Square>, c: seq<Square>, d: seq<Square>)
    requires IsGrid(g)
    requires AllNotFriendly(g, a, p) && AllNotFriendly(g, b, p) && AllNotFriendly(g, c, p) && AllNotFriendly(g, d, p)
    ensures AllNotFriendly(g, a + b + c + d, p)
  {
    var s := a + b + c + d;
    forall i | 0 <= i < |s|
      ensures OnBoardSquare(s[i]) && NotFriendly(g, s[i], p)
    {
      if i < |a| {
        assert s[i] == a[i];
      } else if i < |a| + |b| {
        assert s[i] == b[i - |a|];
      } else if i < |a| + |b| + |c| {
        assert s[i] == c[i - |a| - |b|];
      } else {
        assert s[i] == d[i - |a| - |b| - |c|];
      }
    }
  }

  /** No generator lists a square holding a piece of the mover's own colour. */
  lemma PseudoLegalNoFriendly(g: Grid, r: int, f: int)
    requires IsGrid(g) && OnBoard(r, f)
    ensures AllNotFriendly(g, PseudoLegal(g, r, f), g[r][f])
  {
    var piece := g[r][f];
    if piece == 11 || piece == 12 {
      PawnNoFriendly(g, r, f);
    } else if piece == 9 || piece == 10 {
      RookNoFriendly(g, r, f);
    } else if piece == 7 || piece == 8 {
      JumpsNoFriendly(g, r, f, KnightOffsets);
    } else if piece == 5 || piece == 6 {
      BishopNoFriendly(g, r, f);
    } else if piece == 3 || piece == 4 {
      RookNoFriendly(g, r, f);
      BishopNoFriendly(g, r, f);
      AllNotFriendlyConcat4(g, piece, RookMoves(g, ColorOf(piece), r, f), BishopMoves(g, ColorOf(piece), r, f), [], []);
      assert RookMoves(g, ColorOf(piece), r, f) + BishopMoves(g, ColorOf(piece), r, f) + [] + [] ==
        RookMoves(g, ColorOf(piece), r, f) + BishopMoves(g, ColorOf(piece), r, f);
    } else if piece == 1 || piece == 2 {
      JumpsNoFriendly(g, r, f, KingOffsets);
    }
  }

  /** The dispatch: an empty square (or any code outside 1..12) has no moves, and a queen
      moves as a rook followed by a bishop. */
  lemma PseudoLegalDispatch(g: Grid, r: int, f: int)
    requires IsGrid(g) && OnBoard(r, f)
    ensures g[r][f] == 0 ==> PseudoLegal(g, r, f) == []
    ensures g[r][f] == 3 || g[r][f] == 4 ==>
      PseudoLegal(g, r, f) == RookMoves(g, ColorOf(g[r][f]), r, f) + BishopMoves(g, ColorOf(g[r][f]), r, f)
  {
  }
}
