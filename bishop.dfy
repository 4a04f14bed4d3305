/** Bishop move generation (src/core/Bishop.cpp): the sliding walk over the
    four diagonal directions. */
module Bishops {
  import opened ChessTypes
  import opened Positions
  import opened Moves
  import opened Pieces
  import opened BoardStates
  import opened Seqs
  import opened Sliding

  const BishopDirs: seq<Dir> := [Dir(1, 1), Dir(1, -1), Dir(-1, 1), Dir(-1, -1)]

  /** The moves Bishop::getPossibleMoves returns, in order. */
  function BishopMoves(b: BoardState, p: Piece): seq<Move>
    requires WellFormed(b)
  {
    Slide(b, p.pos, p.color, BishopDirs)
  }

  /** Bishop::getPossibleMoves. */
  method GetBishopMoves(b: BoardState, p: Piece) returns (moves: seq<Move>)
    requires WellFormed(b)
    ensures moves == BishopMoves(b, p)
    ensures forall m :: m in moves ==> m.from == p.pos && Plain(m)
  {
    moves := SlideMoves(b, p.pos, p.color, BishopDirs);
    forall m | m in moves
      ensures m.from == p.pos && Plain(m)
    {
      SlidePlain(b, p.pos, p.color, BishopDirs, m);
    }
  }

  /** A bishop moves to another on-board square of one of its diagonals
      (|row change| == |column change| >= 1), every square in between being
      empty and the target empty or enemy-held; it emits every such move. */
  lemma BishopMovesIff(b: BoardState, p: Piece, m: Move)
    requires WellFormed(b) && OnBoard(b, p.pos)
    ensures m in BishopMoves(b, p) <==>
      m == Move(p.pos, m.to) && OnBoard(b, m.to) &&
      Abs(m.to.row - p.pos.row) == Abs(m.to.col - p.pos.col) >= 1 &&
      CanLand(b, m.to, p.color) && LineClear(b, p.pos, m.to)
  {
    SlideTargets(b, p.pos, p.color, BishopDirs, m);
  }

  lemma BishopMovesNoDups(b: BoardState, p: Piece)
    requires WellFormed(b) && OnBoard(b, p.pos)
    ensures NoDups(BishopMoves(b, p))
  {
    SlideNoDups(b, p.pos, p.color, BishopDirs);
  }
}
