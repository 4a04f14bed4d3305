/** The value of a board (the fields of src/core/Board.h): the grid of optional
    pieces, the four castling flags, the en-passant square, the last move and
    the id counter for pieces the board creates. The move generators read a
    board through this value, as they read a `const Board&`. */
module BoardStates {
  import opened ChessTypes
  import opened Positions
  import opened Moves
  import opened Pieces

  datatype BoardState = BoardState(
    rows: int,
    cols: int,
    grid: seq<seq<Option<Piece>>>,
    whiteKingside: bool,
    whiteQueenside: bool,
    blackKingside: bool,
    blackQueenside: bool,
    enPassantTarget: Pos,
    lastMove: Option<Move>,
    nextPieceId: int)

  /** The grid has the board's dimensions. */
  predicate WellFormed(b: BoardState)
  {
    b.rows >= 0 && b.cols >= 0 && |b.grid| == b.rows &&
    forall r :: 0 <= r < |b.grid| ==> |b.grid[r]| == b.cols
  }

  predicate OnBoard(b: BoardState, p: Pos)
  {
    IsValid(p, b.rows, b.cols)
  }

  /** getPieceAt: nothing off the board, otherwise the square's occupant. */
  function PieceAt(b: BoardState, p: Pos): (r: Option<Piece>)
    requires WellFormed(b)
    ensures !OnBoard(b, p) ==> r == None
    ensures OnBoard(b, p) ==> r == b.grid[p.row][p.col]
  {
    if !OnBoard(b, p) then None else b.grid[p.row][p.col]
  }

  /** Every piece records the square it stands on. */
  predicate Consistent(b: BoardState)
    requires WellFormed(b)
  {
    forall r, c :: 0 <= r < b.rows && 0 <= c < b.cols && b.grid[r][c].Some? ==> b.grid[r][c].value.pos == Pos(r, c)
  }

  /** A square a piece of colour `c` may move to: empty or held by the other colour. */
  predicate CanLand(b: BoardState, p: Pos, c: Color)
    requires WellFormed(b)
  {
    PieceAt(b, p).None? || PieceAt(b, p).value.color != c
  }

  /** The board with one on-board square overwritten. */
  function SetSquare(b: BoardState, p: Pos, v: Option<Piece>): (r: BoardState)
    requires WellFormed(b) && OnBoard(b, p)
    ensures WellFormed(r)
    ensures PieceAt(r, p) == v
    ensures forall q :: q != p ==> PieceAt(r, q) == PieceAt(b, q)
    ensures r == b.(grid := r.grid)
  {
    b.(grid := b.grid[p.row := b.grid[p.row][p.col := v]])
  }

  /** Two well-formed boards of the same size with the same pieces on every
      square have the same grid. */
  lemma GridExt(a: BoardState, b: BoardState)
    requires WellFormed(a) && WellFormed(b) && a.rows == b.rows && a.cols == b.cols
    requires forall q :: PieceAt(a, q) == PieceAt(b, q)
    ensures a.grid == b.grid
  {
    forall r | 0 <= r < a.rows
      ensures a.grid[r] == b.grid[r]
    {
      forall c | 0 <= c < a.cols
        ensures a.grid[r][c] == b.grid[r][c]
      {
        assert PieceAt(a, Pos(r, c)) == PieceAt(b, Pos(r, c));
      }
    }
  }
}
