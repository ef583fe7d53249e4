/**
 * Piece codes and the two lookup tables of the Pieces class: the FEN letter
 * table used by the position parser and the display-symbol table.
 * model.py carries verbatim copies of both lookups (model.py:6-24); they are
 * the same functions and are modelled once, here.
 */
module Pieces {
  import opened Chessboard

  const Empty := 0
  const WhiteKing := 1
  const BlackKing := 2
  const WhiteQueen := 3
  const BlackQueen := 4
  const WhiteBishop := 5
  const BlackBishop := 6
  const WhiteKnight := 7
  const BlackKnight := 8
  const WhiteRook := 9
  const BlackRook := 10
  const WhitePawn := 11
  const BlackPawn := 12

  /** The twelve FEN piece letters, in the order the table lists them. */
  const SanTable: seq<(int, char)> :=
    [(1, 'K'), (2, 'k'), (3, 'Q'), (4, 'q'), (5, 'B'), (6, 'b'),
     (7, 'N'), (8, 'n'), (9, 'R'), (10, 'r'), (11, 'P'), (12, 'p')]

  const UpperLetters := "KQBNRP"
  const PieceLetters := "KkQqBbNnRrPp"

  /** The code each FEN piece letter stands for, 0 for any other character: the table
      above read as a case analysis. */
  function LetterCode(c: char): (code: int)
    ensures 0 <= code <= 12
  {
    if c == 'K' then 1 else if c == 'k' then 2
    else if c == 'Q' then 3 else if c == 'q' then 4
    else if c == 'B' then 5 else if c == 'b' then 6
    else if c == 'N' then 7 else if c == 'n' then 8
    else if c == 'R' then 9 else if c == 'r' then 10
    else if c == 'P' then 11 else if c == 'p' then 12
    else 0
  }

  /** SAN_to_int: a scan of the table that returns the code of the first entry whose
      letter is c, and 0 when the scan finds none. */
  method SanToInt(c: char) returns (code: int)
    ensures code == LetterCode(c)
  {
    var pieces := SanTable;
    for i := 0 to |pieces|
      invariant forall j :: 0 <= j < i ==> pieces[j].1 != c
    {
      if c == pieces[i].1 {
        return pieces[i].0;
      }
    }
    assert forall j :: 0 <= j < |pieces| ==> pieces[j].1 == PieceLetters[j];
    LetterCodeRange(c);
    return 0;
  }

  /** Exactly the twelve piece letters have a non-zero code; every other character is 0. */
  lemma LetterCodeRange(c: char)
    ensures c in PieceLetters <==> LetterCode(c) != 0
  {
  }

  /** The lowercase partner of an uppercase letter. */
  function Lower(c: char): char
    requires 'A' <= c <= 'Z'
  {
    (c as int + 32) as char
  }

  /** Uppercase letters are white (odd) codes, and each lowercase letter is its uppercase
      partner's code plus one (black, even). */
  lemma LetterCodeColours(c: char)
    requires c in UpperLetters
    ensures LetterCode(c) % 2 == 1 && LetterCode(Lower(c)) == LetterCode(c) + 1
  {
  }

  /** The i-th letter of "KkQqBbNnRrPp" has code i + 1. */
  lemma LetterCodeIndexed()
    ensures forall i :: 0 <= i < |PieceLetters| ==> LetterCode(PieceLetters[i]) == i + 1
  {
  }

  /** The table is one-to-one on the twelve letters. */
  lemma LetterCodeInjective(c1: char, c2: char)
    requires c1 in PieceLetters && c2 in PieceLetters && LetterCode(c1) == LetterCode(c2)
    ensures c1 == c2
  {
    LetterCodeIndexed();
    var i :| 0 <= i < |PieceLetters| && PieceLetters[i] == c1;
    var j :| 0 <= j < |PieceLetters| && PieceLetters[j] == c2;
  }

  /** The display glyphs: white pieces hollow, black pieces filled. */
  const NormalGlyphs: seq<(int, char)> :=
    [(1, '\U{2654}'), (2, '\U{265A}'), (3, '\U{2655}'), (4, '\U{265B}'), (5, '\U{2657}'), (6, '\U{265D}'),
     (7, '\U{2658}'), (8, '\U{265E}'), (9, '\U{2656}'), (10, '\U{265C}'), (11, '\U{2659}'), (12, '\U{265F}')]

  /** The glyphs used when the display inverts colours. */
  const InvertedGlyphs: seq<(int, char)> :=
    [(1, '\U{265A}'), (2, '\U{2654}'), (3, '\U{265B}'), (4, '\U{2655}'), (5, '\U{265D}'), (6, '\U{2657}'),
     (7, '\U{265E}'), (8, '\U{2658}'), (9, '\U{265C}'), (10, '\U{2656}'), (11, '\U{265F}'), (12, '\U{2659}')]

  /** The symbol of a piece code: ' ' for an empty square, the glyph of codes 1..12 (the
      tables list the codes in order), and the ValueError value for anything else. */
  function Symbol(piece: int, invertColors: bool): (r: Result<char, ValueError>)
    ensures r.Err? <==> piece != 0 && !(1 <= piece <= 12)
    ensures r.Err? ==> r.error == ValueError("That is an invalid piece")
    ensures piece == 0 ==> r == Ok(' ')
  {
    if piece == 0 then Ok(' ')
    else if 1 <= piece <= 12 then
      Ok((if invertColors then InvertedGlyphs else NormalGlyphs)[piece - 1].1)
    else Err(ValueError("That is an invalid piece"))
  }

  /** get_symbol: ' ' for an empty square, else a scan of the (normal or inverted) table
      for the first entry whose code is piece; the ValueError is returned, not raised. */
  method GetSymbol(piece: int, invertColors: bool) returns (r: Result<char, ValueError>)
    ensures r == Symbol(piece, invertColors)
  {
    if piece == 0 {
      return Ok(' ');
    }
    var pieces := NormalGlyphs;
    if invertColors {
      pieces := InvertedGlyphs;
    }
    assert forall j :: 0 <= j < 12 ==> pieces[j].0 == j + 1;
    for i := 0 to |pieces|
      invariant forall j :: 0 <= j < i ==> pieces[j].0 != piece
    {
      if piece == pieces[i].0 {
        return Ok(pieces[i].1);
      }
    }
    return Err(ValueError("That is an invalid piece"));
  }

  /** The same kind of piece in the other colour. */
  function Partner(piece: int): int {
    if piece % 2 == 1 then piece + 1 else piece - 1
  }

  /** With invert_colors a piece gets the normal glyph of the same kind in the other colour,
      and both tables cover every code 1..12. */
  lemma {:induction false} SymbolInverted(piece: int)
    requires 1 <= piece <= 12
    ensures Symbol(piece, true).Ok? && Symbol(piece, false).Ok?
    ensures Symbol(piece, true) == Symbol(Partner(piece), false)
  {
    InvertedIsPartnerGlyph(piece - 1);
  }

  lemma InvertedIsPartnerGlyph(j: int)
    requires 0 <= j < 12
    ensures InvertedGlyphs[j].1 == NormalGlyphs[Partner(j + 1) - 1].1
  {
  }

  /** Each table gives the twelve codes twelve different glyphs. */
  lemma SymbolInjective(invertColors: bool)
    ensures forall p, q :: 1 <= p <= 12 && 1 <= q <= 12 && p != q ==>
      Symbol(p, invertColors) != Symbol(q, invertColors)
  {
  }
}
