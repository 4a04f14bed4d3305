/** Knight move generation (src/core/Knight.cpp): eight fixed jumps. */
module Knights {
  import opened ChessTypes
  import opened Positions
  import opened Moves
  import opened Pieces
  import opened BoardStates
  import opened Seqs
  import opened Sliding
  import opened Stepping

  const KnightOffsets: seq<Dir> := [Dir(2, 1), Dir(2, -1), Dir(-2, 1), Dir(-2, -1),
                                    Dir(1, 2), Dir(1, -2), Dir(-1, 2), Dir(-1, -2)]

  /** Two squares a knight's jump apart: two rows and one column, or one row and two columns. */
  predicate KnightJump(from: Pos, to: Pos)
  {
    var dr := Abs(to.row - from.row);
    var dc := Abs(to.col - from.col);
    (dr == 2 && dc == 1) || (dr == 1 && dc == 2)
  }

  /** The moves Knight::getPossibleMoves returns, in order. */
  function KnightMoves(b: BoardState, p: Piece): seq<Move>
    requires WellFormed(b)
  {
    Steps(b, p.pos, p.color, KnightOffsets)
  }

  /** Knight::getPossibleMoves. */
  method GetKnightMoves(b: BoardState, p: Piece) returns (moves: seq<Move>)
    requires WellFormed(b)
    ensures moves == KnightMoves(b, p)
  {
    moves := StepMoves(b, p.pos, p.color, KnightOffsets);
  }

  /** A knight emits exactly the plain moves to on-board, empty or enemy-held
      squares a knight's jump away. */
  lemma KnightMovesIff(b: BoardState, p: Piece, m: Move)
    requires WellFormed(b)
    ensures m in KnightMoves(b, p) <==>
      m == Move(p.pos, m.to) && OnBoard(b, m.to) && KnightJump(p.pos, m.to) && CanLand(b, m.to, p.color)
  {
    StepsMember(b, p.pos, p.color, KnightOffsets, m);
    if m == Move(p.pos, m.to) && KnightJump(p.pos, m.to) {
      var d := Dir(m.to.row - p.pos.row, m.to.col - p.pos.col);
      assert d in KnightOffsets;
      assert m == Move(p.pos, Shift(p.pos, d));
    }
  }

  /** At most eight moves, none repeated, in the order of the offset table. */
  lemma KnightMovesShape(b: BoardState, p: Piece)
    requires WellFormed(b)
    ensures |KnightMoves(b, p)| <= 8
    ensures NoDups(KnightMoves(b, p))
    ensures IsSubseq(KnightMoves(b, p), Targets(p.pos, KnightOffsets))
  {
    KnightOffsetsDistinct();
    StepsNoDups(b, p.pos, p.color, KnightOffsets);
    StepsOrder(b, p.pos, p.color, KnightOffsets);
  }

  lemma KnightOffsetsDistinct()
    ensures NoDups(KnightOffsets) && |KnightOffsets| == 8
  {
  }
}
