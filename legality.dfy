/**
 * The legality layer of model.py (311-418) as functions of the grid: find_king,
 * the opponent replies verify_move collects, the legal-move filters, and the check
 * and checkmate queries. Colour arguments are passed in two forms in the source, the
 * letters 'w'/'b' and the parities 1/0, and the functions distinguish them exactly
 * as the source's comparisons do.
 */
module Legality {
  import opened Chessboard
  import opened MoveGen

  /** A colour argument as the source passes it: a letter or an integer parity. */
  datatype ColorArg = Letter(letter: char) | Parity(parity: int)

  /** The arguments find_king answers: 'w' or 1 for white, 'b' or 0 for black. */
  predicate ValidColor(color: ColorArg) {
    color == Letter('w') || color == Letter('b') || color == Parity(0) || color == Parity(1)
  }

  /** The king code find_king looks for. */
  function KingCode(color: ColorArg): int
    requires ValidColor(color)
  {
    if color == Letter('w') || color == Parity(1) then 1 else 2
  }

  /** `1 if color == 'w' else 0`, the conversion at the head of get_all_legal_moves and
      in_checkmate: only the letter 'w' gives 1. */
  function ParityOf(color: ColorArg): int {
    if color == Letter('w') then 1 else 0
  }

  /** The first square at or after (r, f) in row-major order holding code, if any
      (f = 8 stands for the start of the next rank). */
  function FindFrom(g: Grid, code: int, r: int, f: int): (found: Option<Square>)
    requires IsGrid(g) && 0 <= r <= 8 && 0 <= f <= 8
    ensures found.Some? ==> OnBoardSquare(found.value) && At(g, found.value) == code
    decreases 8 - r, 8 - f
  {
    if r == 8 then None
    else if f == 8 then FindFrom(g, code, r + 1, 0)
    else if g[r][f] == code then Some(Square(r, f))
    else FindFrom(g, code, r, f + 1)
  }

  /** find_king: the first square in row-major order holding the king of that colour;
      None stands for the IndexError raised when there is none. */
  function KingSquare(g: Grid, color: ColorArg): (king: Option<Square>)
    requires IsGrid(g) && ValidColor(color)
    ensures king.Some? ==> OnBoardSquare(king.value) && At(g, king.value) == KingCode(color)
  {
    FindFrom(g, KingCode(color), 0, 0)
  }

  /** Whether the occupant of s is a piece whose replies verify_move collects against a
      mover of parity color. */
  predicate Opponent(g: Grid, color: int, s: Square)
    requires IsGrid(g) && OnBoardSquare(s)
  {
    At(g, s) != 0 && At(g, s) % 2 != color
  }

  /** The replies collected on one rank, over its first n files: the pseudo-legal
      destinations of each opposing piece, in file order. */
  function ResponsesInRank(g: Grid, color: int, rank: int, n: int): (replies: seq<Square>)
    requires IsGrid(g) && 0 <= rank < 8 && 0 <= n <= 8
    decreases n
  {
    if n == 0 then []
    else
      var s := Square(rank, n - 1);
      ResponsesInRank(g, color, rank, n - 1) + (if Opponent(g, color, s) then PseudoLegal(g, rank, n - 1) else [])
  }

  /** opponent_responses after the first k ranks of the scan. */
  function ResponsesInRanks(g: Grid, color: int, k: int): (replies: seq<Square>)
    requires IsGrid(g) && 0 <= k <= 8
    decreases k
  {
    if k == 0 then [] else ResponsesInRanks(g, color, k - 1) + ResponsesInRank(g, color, k - 1, 8)
  }

  /** opponent_responses: the destinations of every opposing piece in row-major order. */
  function Responses(g: Grid, color: int): seq<Square>
    requires IsGrid(g)
  {
    ResponsesInRanks(g, color, 8)
  }

  /** Square t is a pseudo-legal destination of some piece of parity other than color. */
  ghost predicate Attacked(g: Grid, color: int, t: Square)
    requires IsGrid(g)
  {
    exists s :: OnBoardSquare(s) && Opponent(g, color, s) && t in PseudoLegal(g, s.rank, s.file)
  }

  /** verify_move: on the grid after the move, the mover's king (mover colour = parity of
      the piece on the origin) must not be among the opponent's replies; with no such
      king the move passes. */
  function VerifyMove(g: Grid, r1: int, f1: int, r2: int, f2: int): bool
    requires IsGrid(g) && OnBoard(r1, f1) && OnBoard(r2, f2)
  {
    var color := g[r1][f1] % 2;
    var h := MoveResult(g, r1, f1, r2, f2);
    match KingSquare(h, Parity(color))
    case None => true
    case Some(king) => king !in Responses(h, color)
  }

  /** Appending in two steps is appending once: the accumulator loops rely on it. */
  lemma AppendAssoc<T>(a: seq<T>, b: seq<T>, c: seq<T>)
    ensures (a + b) + c == a + (b + c)
  {
  }

  /** A prefix one longer is the prefix with the next element appended. */
  lemma PrefixStep<T>(xs: seq<T>, i: int)
    requires 0 <= i < |xs|
    ensures xs[..i + 1] == xs[..i] + [xs[i]]
  {
  }

  /** The order-preserving filter of get_legal_moves: the elements that pass keep. */
  function Filter<T>(keep: T -> bool, xs: seq<T>): (kept: seq<T>)
    ensures |kept| <= |xs|
    ensures forall i :: 0 <= i < |kept| ==> kept[i] in xs
    decreases |xs|
  {
    if xs == [] then []
    else Filter(keep, xs[..|xs| - 1]) + (if keep(xs[|xs| - 1]) then [xs[|xs| - 1]] else [])
  }

  /** The test get_legal_moves applies to a destination of the piece on (r, f). */
  predicate Passes(g: Grid, r: int, f: int, t: Square)
    requires IsGrid(g) && OnBoard(r, f)
  {
    OnBoardSquare(t) && VerifyMove(g, r, f, t.rank, t.file)
  }

  /** The destinations among ts that pass verify_move for the piece on (r, f), in order. */
  function LegalAmong(g: Grid, r: int, f: int, ts: seq<Square>): (kept: seq<Square>)
    requires IsGrid(g) && OnBoard(r, f)
    ensures forall i :: 0 <= i < |kept| ==> kept[i] in ts
  {
    Filter(t => Passes(g, r, f, t), ts)
  }

  /** get_legal_moves: the pseudo-legal destinations that pass verify_move, in order. */
  function LegalMoves(g: Grid, r: int, f: int): (legal: seq<Square>)
    requires IsGrid(g) && OnBoard(r, f)
    ensures forall i :: 0 <= i < |legal| ==> OnBoardSquare(legal[i])
  {
    LegalAmong(g, r, f, PseudoLegal(g, r, f))
  }

  /** One more destination: it is appended exactly when it passes. */
  lemma LegalAmongSnoc(g: Grid, r: int, f: int, ts: seq<Square>, t: Square)
    requires IsGrid(g) && OnBoard(r, f)
    ensures LegalAmong(g, r, f, ts + [t]) ==
      LegalAmong(g, r, f, ts) + (if Passes(g, r, f, t) then [t] else [])
  {
    assert (ts + [t])[..|ts|] == ts;
  }

  /** Each destination tagged with its origin square. */
  function Tag(from: Square, dests: seq<Square>): (moves: seq<Move>)
    ensures |moves| == |dests|
    ensures forall i :: 0 <= i < |moves| ==> moves[i] == Move(from, dests[i])
  {
    seq(|dests|, i requires 0 <= i < |dests| => Move(from, dests[i]))
  }

  /** Whether a move's two squares are on the board. */
  predicate OnBoardMove(m: Move) {
    OnBoardSquare(m.from) && OnBoardSquare(m.to)
  }

  /** The moves get_all_legal_moves collects at square s: the legal moves of the piece
      there tagged with s when it has parity p, none otherwise. */
  function SquareMoves(g: Grid, p: int, s: Square): (moves: seq<Move>)
    requires IsGrid(g) && OnBoardSquare(s)
    ensures forall i :: 0 <= i < |moves| ==> OnBoardMove(moves[i])
  {
    if At(g, s) != 0 && At(g, s) % 2 == p then Tag(s, LegalMoves(g, s.rank, s.file)) else []
  }

  /** The moves collected on one rank over its first n files, for pieces of parity p. */
  function AllInRank(g: Grid, p: int, rank: int, n: int): (moves: seq<Move>)
    requires IsGrid(g) && 0 <= rank < 8 && 0 <= n <= 8
    ensures forall i :: 0 <= i < |moves| ==> OnBoardMove(moves[i])
    decreases n
  {
    if n == 0 then [] else AllInRank(g, p, rank, n - 1) + SquareMoves(g, p, Square(rank, n - 1))
  }

  /** all_legal_moves after the first k ranks of the scan. */
  function AllInRanks(g: Grid, p: int, k: int): (moves: seq<Move>)
    requires IsGrid(g) && 0 <= k <= 8
    ensures forall i :: 0 <= i < |moves| ==> OnBoardMove(moves[i])
    decreases k
  {
    if k == 0 then [] else AllInRanks(g, p, k - 1) + AllInRank(g, p, k - 1, 8)
  }

  /** get_all_legal_moves: every legal move of every piece of the requested colour, the
      origins in row-major order. */
  function AllLegalMoves(g: Grid, color: ColorArg): (moves: seq<Move>)
    requires IsGrid(g)
    ensures forall i :: 0 <= i < |moves| ==> OnBoardMove(moves[i])
  {
    AllInRanks(g, ParityOf(color), 8)
  }

  /** in_check: true when the king is missing, otherwise whether the null move of the king
      onto its own square fails verify_move. */
  function InCheck(g: Grid, color: ColorArg): bool
    requires IsGrid(g) && ValidColor(color)
  {
    match KingSquare(g, color)
    case None => true
    case Some(king) => !VerifyMove(g, king.rank, king.file, king.rank, king.file)
  }

  /** Whether each of the first k elements passes keep. */
  predicate AllUpTo<T>(keep: T -> bool, xs: seq<T>, k: int)
    requires 0 <= k <= |xs|
    decreases k
  {
    k == 0 || (AllUpTo(keep, xs, k - 1) && keep(xs[k - 1]))
  }

  /** The test in_checkmate applies to one move: made on a copy of g, it leaves colour
      color in check. */
  function LeavesInCheck(g: Grid, color: ColorArg): Move -> bool
    requires IsGrid(g) && ValidColor(color)
  {
    m => OnBoardMove(m) && InCheck(MoveResult(g, m.from.rank, m.from.file, m.to.rank, m.to.file), color)
  }

  /** in_checkmate: the colour is turned into a parity c, get_all_legal_moves(c) is asked
      for the moves (and turns any integer into black), and the answer is whether every
      one of them, made on a copy, leaves colour c in check. */
  function InCheckmate(g: Grid, color: ColorArg): bool
    requires IsGrid(g)
  {
    var c := ParityOf(color);
    var moves := AllLegalMoves(g, Parity(c));
    AllUpTo(LeavesInCheck(g, Parity(c)), moves, |moves|)
  }

  /** The recursive test is the test of every one of the first k elements. */
  lemma {:induction false} AllUpToIff<T>(keep: T -> bool, xs: seq<T>, k: int)
    requires 0 <= k <= |xs|
    ensures AllUpTo(keep, xs, k) <==> forall i :: 0 <= i < k ==> keep(xs[i])
    decreases k
  {
    if k > 0 {
      AllUpToIff(keep, xs, k - 1);
    }
  }

  /** When the first k elements pass, so does each of them. */
  lemma AllUpToAt<T>(keep: T -> bool, xs: seq<T>, k: int, i: int)
    requires 0 <= i < k <= |xs| && AllUpTo(keep, xs, k)
    ensures keep(xs[i])
  {
    AllUpToIff(keep, xs, k);
  }

  /** One failing element among the first k fails the test. */
  lemma AllUpToFails<T>(keep: T -> bool, xs: seq<T>, k: int, i: int)
    requires 0 <= i < k <= |xs| && !keep(xs[i])
    ensures !AllUpTo(keep, xs, k)
  {
    AllUpToIff(keep, xs, k);
  }

  /** The position of a square in the row-major scan. */
  function IndexOf(s: Square): int {
    s.rank * 8 + s.file
  }

  /** The scan from (r, f) finds the first occurrence at or after that square, and
      nothing when there is none. */
  lemma {:induction false} FindFromFirst(g: Grid, code: int, r: int, f: int)
    requires IsGrid(g) && 0 <= r <= 8 && 0 <= f <= 8
    ensures match FindFrom(g, code, r, f)
      case Some(s) => r * 8 + f <= IndexOf(s) &&
        forall t :: OnBoardSquare(t) && r * 8 + f <= IndexOf(t) < IndexOf(s) ==> At(g, t) != code
      case None => forall t :: OnBoardSquare(t) && r * 8 + f <= IndexOf(t) ==> At(g, t) != code
    decreases 8 - r, 8 - f
  {
    if r < 8 {
      if f == 8 {
        FindFromFirst(g, code, r + 1, 0);
      } else if g[r][f] != code {
        FindFromFirst(g, code, r, f + 1);
        forall t | OnBoardSquare(t) && IndexOf(t) == r * 8 + f
          ensures t == Square(r, f)
        {
        }
      }
    }
  }

  /** find_king returns the first matching square in row-major order, and reports absence
      only when no square holds the king. */
  lemma KingSquareFirst(g: Grid, color: ColorArg)
    requires IsGrid(g) && ValidColor(color)
    ensures match KingSquare(g, color)
      case Some(k) => forall s :: OnBoardSquare(s) && IndexOf(s) < IndexOf(k) ==> At(g, s) != KingCode(color)
      case None => forall s :: OnBoardSquare(s) ==> At(g, s) != KingCode(color)
  {
    FindFromFirst(g, KingCode(color), 0, 0);
  }

  /** A reply of an opposing piece on file f of a rank is collected once the scan of the
      rank has passed f. */
  lemma {:induction false} ResponsesInRankIncludes(g: Grid, color: int, rank: int, n: int, f: int, t: Square)
    requires IsGrid(g) && 0 <= rank < 8 && 0 <= f < n <= 8
    requires Opponent(g, color, Square(rank, f)) && t in PseudoLegal(g, rank, f)
    ensures t in ResponsesInRank(g, color, rank, n)
    decreases n
  {
    if f < n - 1 {
      ResponsesInRankIncludes(g, color, rank, n - 1, f, t);
    }
  }

  /** The file of an opposing piece that contributed a collected reply. */
  ghost function ReplyFile(g: Grid, color: int, rank: int, n: int, t: Square): (f: int)
    requires IsGrid(g) && 0 <= rank < 8 && 0 <= n <= 8
    requires t in ResponsesInRank(g, color, rank, n)
    ensures 0 <= f < n && Opponent(g, color, Square(rank, f)) && t in PseudoLegal(g, rank, f)
    decreases n
  {
    if t in ResponsesInRank(g, color, rank, n - 1) then ReplyFile(g, color, rank, n - 1, t) else n - 1
  }

  lemma {:induction false} ResponsesInRanksIncludes(g: Grid, color: int, k: int, s: Square, t: Square)
    requires IsGrid(g) && 0 <= k <= 8 && OnBoardSquare(s) && s.rank < k
    requires Opponent(g, color, s) && t in PseudoLegal(g, s.rank, s.file)
    ensures t in ResponsesInRanks(g, color, k)
    decreases k
  {
    if s.rank < k - 1 {
      ResponsesInRanksIncludes(g, color, k - 1, s, t);
    } else {
      ResponsesInRankIncludes(g, color, s.rank, 8, s.file, t);
    }
  }

  /** The square of an opposing piece that contributed a collected reply. */
  ghost function ReplySquare(g: Grid, color: int, k: int, t: Square): (s: Square)
    requires IsGrid(g) && 0 <= k <= 8
    requires t in ResponsesInRanks(g, color, k)
    ensures OnBoardSquare(s) && s.rank < k && Opponent(g, color, s) && t in PseudoLegal(g, s.rank, s.file)
    decreases k
  {
    if t in ResponsesInRanks(g, color, k - 1) then ReplySquare(g, color, k - 1, t)
    else Square(k - 1, ReplyFile(g, color, k - 1, 8, t))
  }

  /** opponent_responses holds exactly the squares some opposing piece attacks. */
  lemma ResponsesAttacked(g: Grid, color: int, t: Square)
    requires IsGrid(g)
    ensures t in Responses(g, color) <==> Attacked(g, color, t)
  {
    if t in Responses(g, color) {
      var s := ReplySquare(g, color, 8, t);
    }
    if Attacked(g, color, t) {
      var s :| OnBoardSquare(s) && Opponent(g, color, s) && t in PseudoLegal(g, s.rank, s.file);
      ResponsesInRanksIncludes(g, color, 8, s, t);
    }
  }

  /** verify_move rejects a move exactly when, after it, the king of the mover's parity
      exists and some piece of the other parity attacks its square. */
  lemma VerifyMoveIff(g: Grid, r1: int, f1: int, r2: int, f2: int)
    requires IsGrid(g) && OnBoard(r1, f1) && OnBoard(r2, f2)
    ensures var color := g[r1][f1] % 2;
      var h := MoveResult(g, r1, f1, r2, f2);
      !VerifyMove(g, r1, f1, r2, f2) <==>
        KingSquare(h, Parity(color)).Some? && Attacked(h, color, KingSquare(h, Parity(color)).value)
    ensures var h := MoveResult(g, r1, f1, r2, f2);
      KingSquare(h, Parity(g[r1][f1] % 2)).None? ==> VerifyMove(g, r1, f1, r2, f2)
  {
    var color := g[r1][f1] % 2;
    var h := MoveResult(g, r1, f1, r2, f2);
    if KingSquare(h, Parity(color)).Some? {
      ResponsesAttacked(h, color, KingSquare(h, Parity(color)).value);
    }
  }

  /** The filter keeps exactly the elements that pass, and only elements of the input. */
  lemma {:induction false} FilterMember<T>(keep: T -> bool, xs: seq<T>)
    ensures forall t :: t in Filter(keep, xs) <==> t in xs && keep(t)
    decreases |xs|
  {
    if xs != [] {
      var init := xs[..|xs| - 1];
      FilterMember(keep, init);
      assert xs == init + [xs[|xs| - 1]];
    }
  }

  /** get_legal_moves is a sub-list of the pseudo-legal moves: a destination is legal
      exactly when it is pseudo-legal and passes verify_move. */
  lemma LegalMovesMember(g: Grid, r: int, f: int, t: Square)
    requires IsGrid(g) && OnBoard(r, f)
    ensures |LegalMoves(g, r, f)| <= |PseudoLegal(g, r, f)|
    ensures t in LegalMoves(g, r, f) <==> t in PseudoLegal(g, r, f) && VerifyMove(g, r, f, t.rank, t.file)
  {
    FilterMember(t => Passes(g, r, f, t), PseudoLegal(g, r, f));
    assert LegalMoves(g, r, f) == Filter(t => Passes(g, r, f, t), PseudoLegal(g, r, f));
  }

  /** A move is listed for the first n files of a rank exactly when its origin is one
      of them, holds a piece of parity p, and its destination is legal for that piece. */
  lemma {:induction false} AllInRankMember(g: Grid, p: int, rank: int, n: int, m: Move)
    requires IsGrid(g) && 0 <= rank < 8 && 0 <= n <= 8
    ensures m in AllInRank(g, p, rank, n) <==>
      m.from.rank == rank && 0 <= m.from.file < n && At(g, m.from) != 0 && At(g, m.from) % 2 == p &&
      m.to in LegalMoves(g, rank, m.from.file)
    decreases n
  {
    if n > 0 {
      var s := Square(rank, n - 1);
      AllInRankMember(g, p, rank, n - 1, m);
      SquareMovesMember(g, p, s, m);
      if m.from.rank == rank && m.from.file == n - 1 {
        assert m.from == s;
      }
    }
  }

  /** A move is collected at s exactly when it starts there, the piece on s has parity p
      and the destination is legal for it. */
  lemma SquareMovesMember(g: Grid, p: int, s: Square, m: Move)
    requires IsGrid(g) && OnBoardSquare(s)
    ensures m in SquareMoves(g, p, s) <==>
      m.from == s && At(g, s) != 0 && At(g, s) % 2 == p && m.to in LegalMoves(g, s.rank, s.file)
  {
    TagMember(s, LegalMoves(g, s.rank, s.file), m);
  }

  /** The same over the first k ranks. */
  lemma {:induction false} AllInRanksMember(g: Grid, p: int, k: int, m: Move)
    requires IsGrid(g) && 0 <= k <= 8
    ensures m in AllInRanks(g, p, k) <==>
      OnBoardSquare(m.from) && m.from.rank < k && At(g, m.from) != 0 && At(g, m.from) % 2 == p &&
      m.to in LegalMoves(g, m.from.rank, m.from.file)
    decreases k
  {
    if k > 0 {
      AllInRanksMember(g, p, k - 1, m);
      AllInRankMember(g, p, k - 1, 8, m);
    }
  }

  lemma TagMember(from: Square, dests: seq<Square>, m: Move)
    ensures m in Tag(from, dests) <==> m.from == from && m.to in dests
  {
    var tagged := Tag(from, dests);
    if m.from == from && m.to in dests {
      var i :| 0 <= i < |dests| && dests[i] == m.to;
      assert tagged[i] == m;
    }
  }

  /** get_all_legal_moves(color) lists exactly the legal moves of the pieces whose parity
      is 1 for the letter 'w' and 0 for anything else. */
  lemma AllLegalMovesMember(g: Grid, color: ColorArg, m: Move)
    requires IsGrid(g)
    ensures m in AllLegalMoves(g, color) <==>
      OnBoardSquare(m.from) && At(g, m.from) != 0 && At(g, m.from) % 2 == ParityOf(color) &&
      m.to in LegalMoves(g, m.from.rank, m.from.file)
  {
    AllInRanksMember(g, ParityOf(color), 8, m);
  }

  /** An integer colour, even 1, selects black's moves. */
  lemma AllLegalMovesParityIsBlack(g: Grid, c: int)
    requires IsGrid(g)
    ensures AllLegalMoves(g, Parity(c)) == AllLegalMoves(g, Letter('b'))
    ensures ParityOf(Letter('w')) == 1 && ParityOf(Parity(1)) == 0
  {
  }

  /** in_check holds exactly when the king is missing or some piece of the other parity
      attacks its square as the position stands. */
  lemma InCheckIff(g: Grid, color: ColorArg)
    requires IsGrid(g) && ValidColor(color)
    ensures InCheck(g, color) <==>
      KingSquare(g, color).None? || Attacked(g, KingCode(color) % 2, KingSquare(g, color).value)
  {
    match KingSquare(g, color)
    case None =>
    case Some(k) =>
      MoveResultSameSquare(g, k.rank, k.file);
      var c := KingCode(color) % 2;
      assert g[k.rank][k.file] % 2 == c;
      assert KingCode(Parity(c)) == KingCode(color);
      VerifyMoveIff(g, k.rank, k.file, k.rank, k.file);
  }

  /** in_checkmate(color) tests black's moves whatever the colour, and holds vacuously when
      black has none. */
  lemma InCheckmateBlackMoves(g: Grid, color: ColorArg)
    requires IsGrid(g)
    ensures var moves := AllLegalMoves(g, Letter('b'));
      InCheckmate(g, color) == AllUpTo(LeavesInCheck(g, Parity(ParityOf(color))), moves, |moves|)
    ensures AllLegalMoves(g, Letter('b')) == [] ==> InCheckmate(g, color)
  {
    AllLegalMovesParityIsBlack(g, ParityOf(color));
  }

  /** When in_checkmate(color) holds, every move of black's, made on a copy, leaves the
      colour's parity in check. */
  lemma InCheckmateEvery(g: Grid, color: ColorArg, i: int)
    requires IsGrid(g) && InCheckmate(g, color)
    requires 0 <= i < |AllLegalMoves(g, Letter('b'))|
    ensures var m := AllLegalMoves(g, Letter('b'))[i];
      InCheck(MoveResult(g, m.from.rank, m.from.file, m.to.rank, m.to.file), Parity(ParityOf(color)))
  {
    var moves := AllLegalMoves(g, Letter('b'));
    InCheckmateBlackMoves(g, color);
    AllUpToAt(LeavesInCheck(g, Parity(ParityOf(color))), moves, |moves|, i);
  }

  /** One move of black's after which the colour's parity is not in check makes
      in_checkmate(color) false. */
  lemma InCheckmateEscape(g: Grid, color: ColorArg, i: int)
    requires IsGrid(g) && 0 <= i < |AllLegalMoves(g, Letter('b'))|
    requires var m := AllLegalMoves(g, Letter('b'))[i];
      !InCheck(MoveResult(g, m.from.rank, m.from.file, m.to.rank, m.to.file), Parity(ParityOf(color)))
    ensures !InCheckmate(g, color)
  {
    var moves := AllLegalMoves(g, Letter('b'));
    InCheckmateBlackMoves(g, color);
    AllUpToFails(LeavesInCheck(g, Parity(ParityOf(color))), moves, |moves|, i);
  }
}
