/** Board coordinates and their two-character algebraic notation
    (src/core/Position.cpp). Row 0 is rank 8, column 0 is file a. */
module Positions {
  import opened ChessTypes

  /** A (row, column) pair; the default constructor gives the invalid (-1, -1). */
  datatype Pos = Pos(row: int := -1, col: int := -1)

  /** The "no square" sentinel used for the en-passant target and for a missing king. */
  const NoPos: Pos := Pos()

  /** isValid, with the default 8x8 bounds. */
  predicate IsValid(p: Pos, maxRows: int := 8, maxCols: int := 8)
  {
    p.row >= 0 && p.row < maxRows && p.col >= 0 && p.col < maxCols
  }

  /** operator==: the two coordinates compared one by one, which is value equality. */
  function Equals(p: Pos, q: Pos): (r: bool)
    ensures r <==> p == q
  {
    p.row == q.row && p.col == q.col
  }

  /** operator!=: the negation of operator==. */
  function NotEquals(p: Pos, q: Pos): (r: bool)
    ensures r <==> p != q
    ensures r == !Equals(p, q)
  {
    !Equals(p, q)
  }

  const InvalidAlgebraic: string := "??"
  const LengthMessage: string := "Algebraic notation must be 2 characters long."
  const CharactersMessage: string := "Invalid algebraic notation characters."

  /** toAlgebraic: "??" off the 8x8 board, otherwise file letter then rank digit. */
  function ToAlgebraic(p: Pos): (s: string)
    ensures |s| == 2
    ensures !IsValid(p) ==> s == InvalidAlgebraic
    ensures IsValid(p) ==> 'a' <= s[0] <= 'h' && '1' <= s[1] <= '8'
    ensures IsValid(p) ==> (p.row == 0 <==> s[1] == '8') && (p.col == 0 <==> s[0] == 'a')
  {
    if !IsValid(p) then InvalidAlgebraic
    else
      var file := ('a' as int + p.col) as char;
      var rank := ('1' as int + (7 - p.row)) as char;
      [file, rank]
  }

  /** fromAlgebraic: throws invalid_argument unless the text is a file a..h
      followed by a rank 1..8. */
  function FromAlgebraic(s: string): (r: Result<Pos>)
    ensures r.Ok? <==> |s| == 2 && 'a' <= s[0] <= 'h' && '1' <= s[1] <= '8'
    ensures |s| != 2 ==> r == Err(InvalidArgument(LengthMessage))
    ensures |s| == 2 && r.Err? ==> r == Err(InvalidArgument(CharactersMessage))
    ensures r.Ok? ==> IsValid(r.value)
    ensures r.Ok? ==> r.value.col == s[0] as int - 'a' as int && r.value.row == 7 - (s[1] as int - '1' as int)
  {
    if |s| != 2 then Err(InvalidArgument(LengthMessage))
    else
      var file := s[0];
      var rank := s[1];
      if file < 'a' || file > 'h' || rank < '1' || rank > '8' then Err(InvalidArgument(CharactersMessage))
      else
        var c := file as int - 'a' as int;
        var r := 7 - (rank as int - '1' as int);
        Ok(Pos(r, c))
  }

  /** Reading back the notation of a square on the 8x8 board gives that square. */
  lemma FromToAlgebraic(p: Pos)
    requires IsValid(p)
    ensures FromAlgebraic(ToAlgebraic(p)) == Ok(p)
  {
  }

  /** Every accepted notation is reproduced by writing its square back. */
  lemma ToFromAlgebraic(s: string)
    requires FromAlgebraic(s).Ok?
    ensures ToAlgebraic(FromAlgebraic(s).value) == s
  {
    var t := ToAlgebraic(FromAlgebraic(s).value);
    assert t[0] == s[0] && t[1] == s[1];
  }

  /** The notation is one-to-one on the board: distinct squares have distinct names. */
  lemma AlgebraicInjective(p: Pos, q: Pos)
    requires IsValid(p) && IsValid(q) && ToAlgebraic(p) == ToAlgebraic(q)
    ensures p == q
  {
    FromToAlgebraic(p);
    FromToAlgebraic(q);
  }
}
