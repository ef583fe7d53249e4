/**
 * The FEN subset parser of board.py: the placement field becomes a list of
 * rows of piece codes (letters through SanToInt, a digit d in 1..8 as d empty
 * squares), and the second space-separated token is the side to move.
 * model.py:69-89 is a verbatim copy of ParseBoard; the model uses this one.
 */
module Board {
  import opened Chessboard
  import Pieces

  const InvalidFen := ValueError("The FEN string may be invalid")

  /** Python's str.split with an explicit one-character separator: every occurrence
      of sep ends a field, so the result always has at least one (possibly empty) field. */
  function Split(s: string, sep: char): (fields: seq<string>)
    ensures |fields| >= 1
    ensures forall i :: 0 <= i < |fields| ==> sep !in fields[i]
    decreases |s|
  {
    if s == [] then [""]
    else
      var rest := Split(s[1..], sep);
      if s[0] == sep then [""] + rest
      else [[s[0]] + rest[0]] + rest[1..]
  }

  /** The inverse of Split: the fields glued back together with the separator. */
  function Join(fields: seq<string>, sep: char): string
    requires |fields| >= 1
    decreases |fields|
  {
    if |fields| == 1 then fields[0] else fields[0] + [sep] + Join(fields[1..], sep)
  }

  lemma {:induction false} SplitJoin(s: string, sep: char)
    ensures Join(Split(s, sep), sep) == s
    decreases |s|
  {
    if s != [] {
      SplitJoin(s[1..], sep);
      var rest := Split(s[1..], sep);
      if s[0] != sep {
        if |rest| == 1 {
        } else {
          assert ([[s[0]] + rest[0]] + rest[1..])[1..] == rest[1..];
        }
      } else {
        assert ([""] + rest)[1..] == rest;
      }
    }
  }

  /** `piece in "PRNBKQprnbkq"`, written as the twelve comparisons (see IsPieceLetterMembership). */
  predicate IsPieceLetter(c: char) {
    c == 'P' || c == 'R' || c == 'N' || c == 'B' || c == 'K' || c == 'Q' ||
    c == 'p' || c == 'r' || c == 'n' || c == 'b' || c == 'k' || c == 'q'
  }

  /** int(c) for a decimal digit character. */
  function DigitValue(c: char): int {
    c as int - '0' as int
  }

  /** The run-length branch of parse_board, `piece in "12345678" and 0 < int(piece) < 9`:
      the digits '1' to '8' (see IsRunDigitMembership). */
  predicate IsRunDigit(c: char) {
    '1' <= c <= '8'
  }

  lemma IsPieceLetterMembership(c: char)
    ensures IsPieceLetter(c) <==> c in "PRNBKQprnbkq"
    ensures IsPieceLetter(c) <==> c in Pieces.PieceLetters
  {
  }

  /** The digit test's comparisons are implied by membership, so only the membership decides. */
  lemma IsRunDigitMembership(c: char)
    ensures IsRunDigit(c) <==> (c in "12345678" && DigitValue(c) > 0 && DigitValue(c) < 9)
    ensures IsRunDigit(c) ==> 1 <= DigitValue(c) <= 8
  {
  }

  function Zeros(n: nat): (z: seq<int>)
    ensures |z| == n && forall i :: 0 <= i < n ==> z[i] == 0
  {
    seq(n, _ => 0)
  }

  /** The cells one rank descriptor produces (letters through SAN_to_int), or the ValueError at its first bad character. */
  function ParseRank(rank: string): Result<seq<int>, ValueError>
    decreases |rank|
  {
    if rank == [] then Ok([])
    else
      match ParseRank(rank[..|rank| - 1])
      case Err(e) => Err(e)
      case Ok(cells) =>
        var c := rank[|rank| - 1];
        if IsPieceLetter(c) then Ok(cells + [Pieces.LetterCode(c)])
        else if IsRunDigit(c) then Ok(cells + Zeros(DigitValue(c)))
        else Err(InvalidFen)
  }

  /** One row per rank descriptor, in order, or the ValueError of the first bad descriptor. */
  function ParseRanks(ranks: seq<string>): Result<seq<seq<int>>, ValueError>
    decreases |ranks|
  {
    if ranks == [] then Ok([])
    else
      match ParseRanks(ranks[..|ranks| - 1])
      case Err(e) => Err(e)
      case Ok(rows) =>
        match ParseRank(ranks[|ranks| - 1])
        case Err(e) => Err(e)
        case Ok(cells) => Ok(rows + [cells])
  }

  /** What parse_board returns for a placement string. */
  function ParsePlacement(placement: string): Result<seq<seq<int>>, ValueError> {
    ParseRanks(Split(placement, '/'))
  }

  /** parse_board: nested loops that append codes and runs of zeros, returning the
      ValueError as soon as a character is neither a piece letter nor a digit 1..8. */
  method ParseBoard(placement: string) returns (result: Result<seq<seq<int>>, ValueError>)
    ensures result == ParsePlacement(placement)
  {
    var fenRanks := Split(placement, '/');
    var intRanks: seq<seq<int>> := [];
    for i := 0 to |fenRanks|
      invariant ParseRanks(fenRanks[..i]) == Ok(intRanks)
    {
      var rank := fenRanks[i];
      var intRank: seq<int> := [];
      for j := 0 to |rank|
        invariant ParseRank(rank[..j]) == Ok(intRank)
      {
        var piece := rank[j];
        assert rank[..j + 1][..j] == rank[..j];
        if IsPieceLetter(piece) {
          var code := Pieces.SanToInt(piece);
          intRank := intRank + [code];
        } else if IsRunDigit(piece) {
          ghost var before := intRank;
          for k := 0 to DigitValue(piece)
            invariant intRank == before + Zeros(k)
          {
            intRank := intRank + [0];
          }
        } else {
          ParseRankPrefixError(rank, j + 1);
          ParseRanksPrefixError(fenRanks, i + 1);
          assert fenRanks[..i + 1][..i] == fenRanks[..i];
          assert fenRanks[..|fenRanks|] == fenRanks;
          return Err(InvalidFen);
        }
      }
      assert rank[..|rank|] == rank;
      assert fenRanks[..i + 1][..i] == fenRanks[..i];
      intRanks := intRanks + [intRank];
    }
    assert fenRanks[..|fenRanks|] == fenRanks;
    result := Ok(intRanks);
  }

  /** A descriptor is rejected exactly when one of its characters is neither a piece
      letter nor a digit 1..8; there is no other error (in particular no length check). */
  lemma {:induction false} ParseRankErrorIff(rank: string)
    ensures ParseRank(rank).Err? <==>
      exists i :: 0 <= i < |rank| && !IsPieceLetter(rank[i]) && !IsRunDigit(rank[i])
    ensures ParseRank(rank).Err? ==> ParseRank(rank).error == InvalidFen
    decreases |rank|
  {
    if rank != [] {
      var init := rank[..|rank| - 1];
      ParseRankErrorIff(init);
      assert forall i :: 0 <= i < |init| ==> init[i] == rank[i];
    }
  }

  lemma ParseRankPrefixError(rank: string, n: int)
    requires 0 < n <= |rank| && !IsPieceLetter(rank[n - 1]) && !IsRunDigit(rank[n - 1])
    ensures ParseRank(rank) == Err(InvalidFen)
  {
    ParseRankErrorIff(rank);
  }

  lemma {:induction false} ParseRanksErrorIff(ranks: seq<string>)
    ensures ParseRanks(ranks).Err? <==> exists i :: 0 <= i < |ranks| && ParseRank(ranks[i]).Err?
    ensures ParseRanks(ranks).Err? ==> ParseRanks(ranks).error == InvalidFen
    decreases |ranks|
  {
    if ranks != [] {
      var init := ranks[..|ranks| - 1];
      var last := ranks[|ranks| - 1];
      ParseRanksErrorIff(init);
      ParseRankErrorIff(last);
      assert forall i :: 0 <= i < |init| ==> init[i] == ranks[i];
      if ParseRanks(init).Err? {
        var i :| 0 <= i < |init| && ParseRank(init[i]).Err?;
        assert ParseRank(ranks[i]).Err?;
      } else if ParseRank(last).Err? {
        assert ParseRank(ranks[|ranks| - 1]).Err?;
      } else {
        assert ParseRanks(ranks).Ok?;
        forall i | 0 <= i < |ranks|
          ensures ParseRank(ranks[i]).Ok?
        {
          if i < |init| {
            assert ranks[i] == init[i];
          }
        }
      }
    }
  }

  lemma ParseRanksPrefixError(ranks: seq<string>, n: int)
    requires 0 < n <= |ranks| && ParseRank(ranks[n - 1]).Err?
    ensures ParseRanks(ranks) == Err(InvalidFen)
  {
    ParseRanksErrorIff(ranks);
  }

  /** The number of piece letters in a descriptor. */
  function LetterCount(rank: string): nat
    decreases |rank|
  {
    if rank == [] then 0
    else LetterCount(rank[..|rank| - 1]) + (if IsPieceLetter(rank[|rank| - 1]) then 1 else 0)
  }

  /** The sum of the run-length digits in a descriptor. */
  function DigitSum(rank: string): int
    decreases |rank|
  {
    if rank == [] then 0
    else DigitSum(rank[..|rank| - 1]) + (if IsRunDigit(rank[|rank| - 1]) then DigitValue(rank[|rank| - 1]) else 0)
  }

  /** A parsed row has one cell per letter plus d cells per digit d; nothing checks
      that this adds up to 8. */
  lemma {:induction false} ParseRankLength(rank: string)
    requires ParseRank(rank).Ok?
    ensures |ParseRank(rank).value| == LetterCount(rank) + DigitSum(rank)
    decreases |rank|
  {
    if rank != [] {
      ParseRankLength(rank[..|rank| - 1]);
    }
  }

  /** Every parsed cell is a piece code in 0..12. */
  lemma {:induction false} ParseRankCodes(rank: string)
    requires ParseRank(rank).Ok?
    ensures forall k :: 0 <= k < |ParseRank(rank).value| ==> 0 <= ParseRank(rank).value[k] <= 12
    decreases |rank|
  {
    if rank != [] {
      var init := rank[..|rank| - 1];
      var c := rank[|rank| - 1];
      ParseRankCodes(init);
      var cells := ParseRank(init).value;
      if IsPieceLetter(c) {
        assert ParseRank(rank).value == cells + [Pieces.LetterCode(c)];
      } else {
        assert ParseRank(rank).value == cells + Zeros(DigitValue(c));
      }
    }
  }

  /** One row per '/'-separated field, top rank first, each the parse of its field. */
  lemma {:induction false} ParseRanksRows(ranks: seq<string>)
    requires ParseRanks(ranks).Ok?
    ensures |ParseRanks(ranks).value| == |ranks|
    ensures forall i :: 0 <= i < |ranks| ==>
      ParseRank(ranks[i]).Ok? && ParseRanks(ranks).value[i] == ParseRank(ranks[i]).value
    decreases |ranks|
  {
    if ranks != [] {
      var init := ranks[..|ranks| - 1];
      ParseRanksRows(init);
      assert forall i :: 0 <= i < |init| ==> init[i] == ranks[i];
    }
  }

  const StartRows: seq<seq<int>> := [
    [10, 8, 6, 4, 2, 6, 8, 10],
    [12, 12, 12, 12, 12, 12, 12, 12],
    [0, 0, 0, 0, 0, 0, 0, 0],
    [0, 0, 0, 0, 0, 0, 0, 0],
    [0, 0, 0, 0, 0, 0, 0, 0],
    [0, 0, 0, 0, 0, 0, 0, 0],
    [11, 11, 11, 11, 11, 11, 11, 11],
    [9, 7, 5, 3, 1, 5, 7, 9]]

  lemma {:induction false} SplitNoSeparator(s: string, sep: char)
    requires sep !in s
    ensures Split(s, sep) == [s]
    decreases |s|
  {
    if s != [] {
      assert sep !in s[1..] && s[0] != sep;
      SplitNoSeparator(s[1..], sep);
      assert [s[0]] + s[1..] == s;
    }
  }

  lemma {:induction false} SplitField(a: string, sep: char, b: string)
    requires sep !in a
    ensures Split(a + [sep] + b, sep) == [a] + Split(b, sep)
    decreases |a|
  {
    if a == [] {
      assert ([sep] + b)[1..] == b;
    } else {
      var t := a + [sep] + b;
      assert t[0] == a[0] != sep;
      assert t[1..] == a[1..] + [sep] + b;
      assert sep !in a[1..];
      SplitField(a[1..], sep, b);
      var rest := Split(t[1..], sep);
      assert rest == [a[1..]] + Split(b, sep);
      assert [a[0]] + a[1..] == a;
      assert Split(t, sep) == [[a[0]] + rest[0]] + rest[1..];
    }
  }

  /** A descriptor made only of piece letters parses to their codes, one cell per letter. */
  lemma {:induction false} ParseRankLetters(rank: string)
    requires forall i :: 0 <= i < |rank| ==> IsPieceLetter(rank[i])
    ensures ParseRank(rank).Ok? && |ParseRank(rank).value| == |rank|
    ensures forall i :: 0 <= i < |rank| ==> ParseRank(rank).value[i] == Pieces.LetterCode(rank[i])
    decreases |rank|
  {
    if rank != [] {
      var init := rank[..|rank| - 1];
      assert forall i :: 0 <= i < |init| ==> init[i] == rank[i];
      ParseRankLetters(init);
      assert ParseRank(rank).value == ParseRank(init).value + [Pieces.LetterCode(rank[|rank| - 1])];
    }
  }

  /** Parsing a list of descriptors that each parse gives their rows in order. */
  lemma {:induction false} ParseRanksAll(ranks: seq<string>, rows: seq<seq<int>>)
    requires |ranks| == |rows|
    requires forall i :: 0 <= i < |ranks| ==> ParseRank(ranks[i]) == Ok(rows[i])
    ensures ParseRanks(ranks) == Ok(rows)
    decreases |ranks|
  {
    if ranks != [] {
      var n := |ranks| - 1;
      assert forall i :: 0 <= i < n ==> ranks[..n][i] == ranks[i] && rows[..n][i] == rows[i];
      ParseRanksAll(ranks[..n], rows[..n]);
      assert rows[..n] + [rows[n]] == rows;
    }
  }

  /** The rank fields of the starting placement, black's back rank first. */
  const StartFields: seq<string> := ["rnbqkbnr", "pppppppp", "8", "8", "8", "8", "PPPPPPPP", "RNBQKBNR"]

  /** The placement field of the starting FEN, rnbqkbnr/pppppppp/8/8/8/8/PPPPPPPP/RNBQKBNR:
      the fields above joined by '/'. */
  const StartPlacement := Join(StartFields, '/')

  /** Joining two non-empty runs of fields is joining each and putting the separator
      between them. */
  lemma {:induction false} JoinAppend(a: seq<string>, b: seq<string>, sep: char)
    requires |a| >= 1 && |b| >= 1
    ensures Join(a + b, sep) == Join(a, sep) + [sep] + Join(b, sep)
    decreases |a|
  {
    if |a| > 1 {
      assert (a + b)[1..] == a[1..] + b;
      JoinAppend(a[1..], b, sep);
    }
  }

  /** Front half of the starting placement: black's two ranks and two empty ones. */
  lemma StartFront()
    ensures Join(StartFields[..4], '/') == "rnbqkbnr/pppppppp/8/8"
  {
    var F := StartFields[..4];
    assert F[3..] == ["8"] && F[2..][1..] == F[3..] && F[2] == "8";
    assert Join(F[2..], '/') == "8/8";
    assert F[1..][1..] == F[2..] && F[1] == "pppppppp";
    assert Join(F[1..], '/') == "pppppppp/8/8";
    assert F[1..] == F[0..][1..] && F[0..] == F;
  }

  /** White's two ranks, the last two fields of the starting placement. */
  lemma StartWhite()
    ensures Join(StartFields[6..], '/') == "PPPPPPPP/RNBQKBNR"
  {
    var F := StartFields[6..];
    assert F[1..] == ["RNBQKBNR"] && F[0] == "PPPPPPPP";
    assert "PPPPPPPP" + ['/'] + "RNBQKBNR" == "PPPPPPPP/RNBQKBNR";
  }

  /** Back half of the starting placement: two empty ranks and white's two. */
  lemma StartBack()
    ensures Join(StartFields[4..], '/') == "8/8/PPPPPPPP/RNBQKBNR"
  {
    assert StartFields[4..] == ["8", "8"] + StartFields[6..];
    JoinAppend(["8", "8"], StartFields[6..], '/');
    assert ["8", "8"][1..] == ["8"];
    StartWhite();
    assert "8" + ['/'] + "8" + ['/'] + "PPPPPPPP/RNBQKBNR" == "8/8/PPPPPPPP/RNBQKBNR";
  }

  /** The joined fields spell the placement field of the starting FEN. */
  lemma StartPlacementLiteral()
    ensures StartPlacement == "rnbqkbnr/pppppppp/8/8/8/8/PPPPPPPP/RNBQKBNR"
  {
    assert StartFields == StartFields[..4] + StartFields[4..];
    JoinAppend(StartFields[..4], StartFields[4..], '/');
    StartFront();
    StartBack();
  }

  /** The other half of the round trip: fields free of the separator come back from
      their join unchanged. */
  lemma {:induction false} JoinSplit(fields: seq<string>, sep: char)
    requires |fields| >= 1
    requires forall i :: 0 <= i < |fields| ==> sep !in fields[i]
    ensures Split(Join(fields, sep), sep) == fields
    decreases |fields|
  {
    if |fields| == 1 {
      SplitNoSeparator(fields[0], sep);
    } else {
      assert forall i :: 0 <= i < |fields| - 1 ==> fields[1..][i] == fields[i + 1];
      JoinSplit(fields[1..], sep);
      SplitField(fields[0], sep, Join(fields[1..], sep));
      assert [fields[0]] + fields[1..] == fields;
    }
  }

  /** The starting placement has the eight '/'-separated fields above. */
  lemma StartSplit()
    ensures Split(StartPlacement, '/') == StartFields
  {
    assert forall i :: 0 <= i < 8 ==> forall k :: 0 <= k < |StartFields[i]| ==> StartFields[i][k] != '/';
    JoinSplit(StartFields, '/');
  }

  /** A descriptor of piece letters parses to the row of their codes. */
  lemma LetterRank(rank: string, row: seq<int>)
    requires |rank| == |row|
    requires forall i :: 0 <= i < |rank| ==> IsPieceLetter(rank[i]) && Pieces.LetterCode(rank[i]) == row[i]
    ensures ParseRank(rank) == Ok(row)
  {
    ParseRankLetters(rank);
    var cells := ParseRank(rank).value;
    assert forall i :: 0 <= i < |cells| ==> cells[i] == row[i];
    assert cells == row;
  }

  lemma StartBlackBackRank()
    ensures ParseRank(StartFields[0]) == Ok(StartRows[0])
  {
    var rank, row := "rnbqkbnr", [10, 8, 6, 4, 2, 6, 8, 10];
    assert rank[0] == 'r' && rank[1] == 'n' && rank[2] == 'b' && rank[3] == 'q';
    assert rank[4] == 'k' && rank[5] == 'b' && rank[6] == 'n' && rank[7] == 'r';
    LetterRank(rank, row);
  }

  lemma StartWhiteBackRank()
    ensures ParseRank(StartFields[7]) == Ok(StartRows[7])
  {
    var rank, row := "RNBQKBNR", [9, 7, 5, 3, 1, 5, 7, 9];
    assert rank[0] == 'R' && rank[1] == 'N' && rank[2] == 'B' && rank[3] == 'Q';
    assert rank[4] == 'K' && rank[5] == 'B' && rank[6] == 'N' && rank[7] == 'R';
    LetterRank(rank, row);
  }

  lemma StartPawnRanks()
    ensures ParseRank(StartFields[1]) == Ok(StartRows[1])
    ensures ParseRank(StartFields[6]) == Ok(StartRows[6])
  {
    LetterRank("pppppppp", StartRows[1]);
    LetterRank("PPPPPPPP", StartRows[6]);
  }

  lemma StartEmptyRank()
    ensures ParseRank("8") == Ok([0, 0, 0, 0, 0, 0, 0, 0])
  {
    var rank := "8";
    assert rank[0] == '8' && rank[..|rank| - 1] == [];
    assert ParseRank(rank[..|rank| - 1]) == Ok([]);
    assert DigitValue('8') == 8;
    assert ParseRank(rank) == Ok([] + Zeros(8));
    assert [] + Zeros(8) == Zeros(8) == [0, 0, 0, 0, 0, 0, 0, 0];
  }

  lemma StartRanks(i: int)
    requires 0 <= i < 8
    ensures ParseRank(StartFields[i]) == Ok(StartRows[i])
  {
    if i == 0 {
      StartBlackBackRank();
    } else if i == 7 {
      StartWhiteBackRank();
    } else if i == 1 || i == 6 {
      StartPawnRanks();
    } else {
      assert StartFields[i] == "8" && StartRows[i] == [0, 0, 0, 0, 0, 0, 0, 0];
      StartEmptyRank();
    }
  }

  /** The starting FEN's placement parses to the standard initial array. */
  lemma StartPosition()
    ensures ParsePlacement(StartPlacement) == Ok(StartRows)
  {
    StartSplit();
    forall i | 0 <= i < 8
      ensures ParseRank(StartFields[i]) == Ok(StartRows[i])
    {
      StartRanks(i);
    }
    ParseRanksAll(StartFields, StartRows);
  }

  /** The fields of board.py's BoardState that fen_to_board_state assigns. `None` stands
      for the class attributes' initial None. Castling, en-passant and the clocks are
      declared and never set, so they are not modelled. */
  class BoardState {
    var board: Option<Result<seq<seq<int>>, ValueError>>
    var nextMove: Option<string>

    constructor ()
      ensures board == None && nextMove == None
    {
      board := None;
      nextMove := None;
    }

    /** fen_to_board_state (and __init__, which only calls it): the placement's parse,
        ValueError value included, is stored first; then the second space-separated token is
        stored verbatim, or IndexError is raised (`raised`) and next_move keeps its value. */
    method FenToBoardState(fen: string) returns (raised: bool)
      modifies this
      ensures board == Some(ParsePlacement(Split(fen, ' ')[0]))
      ensures raised <==> |Split(fen, ' ')| < 2
      ensures nextMove == if raised then old(nextMove) else Some(Split(fen, ' ')[1])
    {
      var placement := Split(fen, ' ')[0];
      var parsed := ParseBoard(placement);
      board := Some(parsed);
      var tokens := Split(fen, ' ');
      if |tokens| < 2 {
        return true;
      }
      nextMove := Some(tokens[1]);
      raised := false;
    }
  }
}
