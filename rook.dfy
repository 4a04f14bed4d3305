/** Rook move generation (src/core/Rook.cpp): the sliding walk over the four
    orthogonal directions right, left, down, up. */
module Rooks {
  import opened ChessTypes
  import opened Positions
  import opened Moves
  import opened Pieces
  import opened BoardStates
  import opened Seqs
  import opened Sliding

  const RookDirs: seq<Dir> := [Dir(0, 1), Dir(0, -1), Dir(1, 0), Dir(-1, 0)]

  /** The moves Rook::getPossibleMoves returns, in order. */
  function RookMoves(b: BoardState, p: Piece): seq<Move>
    requires WellFormed(b)
  {
    Slide(b, p.pos, p.color, RookDirs)
  }

  /** Rook::getPossibleMoves. */
  method GetRookMoves(b: BoardState, p: Piece) returns (moves: seq<Move>)
    requires WellFormed(b)
    ensures moves == RookMoves(b, p)
    ensures forall m :: m in moves ==> m.from == p.pos && Plain(m)
  {
    moves := SlideMoves(b, p.pos, p.color, RookDirs);
    forall m | m in moves
      ensures m.from == p.pos && Plain(m)
    {
      SlidePlain(b, p.pos, p.color, RookDirs, m);
    }
  }

  /** A rook moves to another on-board square of its rank or file, every square
      in between being empty and the target empty or enemy-held; it emits
      every such move, always a plain one. */
  lemma RookMovesIff(b: BoardState, p: Piece, m: Move)
    requires WellFormed(b) && OnBoard(b, p.pos)
    ensures m in RookMoves(b, p) <==>
      m == Move(p.pos, m.to) && m.to != p.pos && OnBoard(b, m.to) &&
      (m.to.row == p.pos.row || m.to.col == p.pos.col) &&
      CanLand(b, m.to, p.color) && LineClear(b, p.pos, m.to)
  {
    SlideTargets(b, p.pos, p.color, RookDirs, m);
  }

  /** No rook move is emitted twice. */
  lemma RookMovesNoDups(b: BoardState, p: Piece)
    requires WellFormed(b) && OnBoard(b, p.pos)
    ensures NoDups(RookMoves(b, p))
  {
    SlideNoDups(b, p.pos, p.color, RookDirs);
  }

  /** At most max(rows, cols) - 1 moves per direction. */
  lemma RookMovesBound(b: BoardState, p: Piece)
    requires WellFormed(b) && Reach(b) >= 1
    ensures |RookMoves(b, p)| <= 4 * (Reach(b) - 1)
  {
    SlideBound(b, p.pos, p.color, RookDirs);
  }
}
