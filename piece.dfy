/** A piece on the board (src/core/Piece.cpp). The piece is kept by value in
    the board's grid, so its setters are functional updates; the id counter
    it draws from lives on the board (see Boards.Board.NewPiece). */
module Pieces {
  import opened ChessTypes
  import opened Positions

  /** The kinds a piece can have: every piece type except EMPTY. */
  type PieceKind = t: PieceType | t != Empty witness Pawn

  datatype Piece = Piece(kind: PieceKind, color: Color, pos: Pos, hasMoved: bool, id: int)

  /** The constructor: a piece that has not moved yet, with the given id. */
  function NewPiece(kind: PieceKind, color: Color, pos: Pos, id: int): (p: Piece)
    ensures !p.hasMoved
    ensures p.kind == kind && p.color == color && p.pos == pos && p.id == id
  {
    Piece(kind, color, pos, false, id)
  }

  /** getSymbol: one upper-case letter per kind, blank for anything else. */
  function Symbol(t: PieceType): (ch: char)
    ensures ch == ' ' <==> t == Empty
    ensures t != Empty ==> 'A' <= ch <= 'Z'
  {
    match t
    case Pawn => 'P'
    case Rook => 'R'
    case Knight => 'N'
    case Bishop => 'B'
    case Queen => 'Q'
    case King => 'K'
    case Empty => ' '
  }

  /** Distinct kinds have distinct symbols. */
  lemma SymbolInjective(s: PieceType, t: PieceType)
    requires Symbol(s) == Symbol(t)
    ensures s == t
  {
  }

  /** setPosition: only the square changes. */
  function WithPosition(p: Piece, newPos: Pos): (q: Piece)
    ensures q.pos == newPos
    ensures q.kind == p.kind && q.color == p.color && q.hasMoved == p.hasMoved && q.id == p.id
  {
    p.(pos := newPos)
  }

  /** setHasMoved: only the flag changes. */
  function WithHasMoved(p: Piece, moved: bool): (q: Piece)
    ensures q.hasMoved == moved
    ensures q.kind == p.kind && q.color == p.color && q.pos == p.pos && q.id == p.id
  {
    p.(hasMoved := moved)
  }

  /** The getters return the last value set, whatever was set before. */
  lemma SettersOverwrite(p: Piece, a: Pos, b: Pos, m: bool, n: bool)
    ensures WithPosition(WithPosition(p, a), b) == WithPosition(p, b)
    ensures WithHasMoved(WithHasMoved(p, m), n) == WithHasMoved(p, n)
    ensures WithHasMoved(WithPosition(p, a), m) == WithPosition(WithHasMoved(p, m), a)
  {
  }
}
