/** Queen move generation (src/core/Queen.cpp): the sliding walk over the
    rook's four directions followed by the bishop's four. */
module Queens {
  import opened ChessTypes
  import opened Positions
  import opened Moves
  import opened Pieces
  import opened BoardStates
  import opened Seqs
  import opened Sliding
  import opened Rooks
  import opened Bishops

  const QueenDirs: seq<Dir> := [Dir(0, 1), Dir(0, -1), Dir(1, 0), Dir(-1, 0),
                                Dir(1, 1), Dir(1, -1), Dir(-1, 1), Dir(-1, -1)]

  /** The moves Queen::getPossibleMoves returns, in order. */
  function QueenMoves(b: BoardState, p: Piece): seq<Move>
    requires WellFormed(b)
  {
    Slide(b, p.pos, p.color, QueenDirs)
  }

  /** Queen::getPossibleMoves. */
  method GetQueenMoves(b: BoardState, p: Piece) returns (moves: seq<Move>)
    requires WellFormed(b)
    ensures moves == QueenMoves(b, p)
    ensures forall m :: m in moves ==> m.from == p.pos && Plain(m)
  {
    moves := SlideMoves(b, p.pos, p.color, QueenDirs);
    forall m | m in moves
      ensures m.from == p.pos && Plain(m)
    {
      SlidePlain(b, p.pos, p.color, QueenDirs, m);
    }
  }

  /** The queen's moves are the rook's moves followed by the bishop's moves
      from the same square. */
  lemma QueenIsRookThenBishop(b: BoardState, p: Piece)
    requires WellFormed(b)
    ensures QueenMoves(b, p) == RookMoves(b, p) + BishopMoves(b, p)
  {
    assert QueenDirs == RookDirs + BishopDirs;
    SlideAppend(b, p.pos, p.color, RookDirs, BishopDirs);
  }

  /** A queen moves to another on-board square of its rank, file or diagonals,
      every square in between being empty and the target empty or enemy-held;
      it emits every such move. */
  lemma QueenMovesIff(b: BoardState, p: Piece, m: Move)
    requires WellFormed(b) && OnBoard(b, p.pos)
    ensures m in QueenMoves(b, p) <==>
      m == Move(p.pos, m.to) && m.to != p.pos && OnBoard(b, m.to) && OnLine(p.pos, m.to) &&
      CanLand(b, m.to, p.color) && LineClear(b, p.pos, m.to)
  {
    SlideTargets(b, p.pos, p.color, QueenDirs, m);
    if m.to != p.pos && OnLine(p.pos, m.to) {
      OffsetOfLine(p.pos, m.to);
    }
  }

  lemma QueenMovesNoDups(b: BoardState, p: Piece)
    requires WellFormed(b) && OnBoard(b, p.pos)
    ensures NoDups(QueenMoves(b, p))
  {
    SlideNoDups(b, p.pos, p.color, QueenDirs);
  }

  /** At most 8 * (max(rows, cols) - 1) moves. */
  lemma QueenMovesBound(b: BoardState, p: Piece)
    requires WellFormed(b) && Reach(b) >= 1
    ensures |QueenMoves(b, p)| <= 8 * (Reach(b) - 1)
  {
    SlideBound(b, p.pos, p.color, QueenDirs);
  }
}
