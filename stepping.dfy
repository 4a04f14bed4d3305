/** The fixed-offset generator shared by the knight and the king's ordinary
    steps (src/core/Knight.cpp, src/core/King.cpp): for each offset of a
    table, the target square is emitted when it is on the board and empty or
    enemy-held. */
module Stepping {
  import opened ChessTypes
  import opened Positions
  import opened Moves
  import opened Pieces
  import opened BoardStates
  import opened Seqs
  import opened Sliding

  function Shift(p: Pos, d: Dir): Pos
  {
    Pos(p.row + d.dr, p.col + d.dc)
  }

  /** The move one offset contributes: none, or the plain move to its target. */
  function Step(b: BoardState, from: Pos, color: Color, d: Dir): seq<Move>
    requires WellFormed(b)
  {
    var t := Shift(from, d);
    if OnBoard(b, t) && CanLand(b, t, color) then [Move(from, t)] else []
  }

  /** The moves of an offset table, in table order. */
  function Steps(b: BoardState, from: Pos, color: Color, offs: seq<Dir>): seq<Move>
    requires WellFormed(b)
    decreases |offs|
  {
    if offs == [] then []
    else Steps(b, from, color, offs[..|offs| - 1]) + Step(b, from, color, offs[|offs| - 1])
  }

  /** Every move the table could produce on an empty, unbounded board, in table order. */
  function Targets(from: Pos, offs: seq<Dir>): (r: seq<Move>)
    ensures |r| == |offs|
    ensures forall i :: 0 <= i < |offs| ==> r[i] == Move(from, Shift(from, offs[i]))
    decreases |offs|
  {
    if offs == [] then []
    else Targets(from, offs[..|offs| - 1]) + [Move(from, Shift(from, offs[|offs| - 1]))]
  }

  /** The moves emitted are exactly the plain moves to on-board, empty or
      enemy-held squares one offset away. */
  lemma {:induction false} StepsMember(b: BoardState, from: Pos, color: Color, offs: seq<Dir>, m: Move)
    requires WellFormed(b)
    ensures m in Steps(b, from, color, offs) <==>
      exists d :: d in offs && m == Move(from, Shift(from, d)) && OnBoard(b, m.to) && CanLand(b, m.to, color)
    decreases |offs|
  {
    if offs != [] {
      var pre := offs[..|offs| - 1];
      var last := offs[|offs| - 1];
      StepsMember(b, from, color, pre, m);
      assert offs == pre + [last];
      if exists d :: d in offs && m == Move(from, Shift(from, d)) && OnBoard(b, m.to) && CanLand(b, m.to, color) {
        var d :| d in offs && m == Move(from, Shift(from, d)) && OnBoard(b, m.to) && CanLand(b, m.to, color);
        if d != last {
          assert d in pre;
        }
      }
    }
  }

  /** The emitted moves keep the table's order: they are a subsequence of the
      table's targets. */
  lemma {:induction false} StepsOrder(b: BoardState, from: Pos, color: Color, offs: seq<Dir>)
    requires WellFormed(b)
    ensures IsSubseq(Steps(b, from, color, offs), Targets(from, offs))
    decreases |offs|
  {
    if offs != [] {
      var pre := offs[..|offs| - 1];
      var last := offs[|offs| - 1];
      StepsOrder(b, from, color, pre);
      var s := Steps(b, from, color, pre);
      var t := Targets(from, pre);
      if Step(b, from, color, last) == [] {
        assert Steps(b, from, color, offs) == s;
        SubseqExtend(s, t, Move(from, Shift(from, last)));
      } else {
        SubseqBoth(s, t, Move(from, Shift(from, last)));
      }
    }
  }

  /** A table without repeated offsets yields no repeated move, and no more
      moves than it has offsets. */
  lemma StepsNoDups(b: BoardState, from: Pos, color: Color, offs: seq<Dir>)
    requires WellFormed(b) && NoDups(offs)
    ensures NoDups(Steps(b, from, color, offs))
    ensures |Steps(b, from, color, offs)| <= |offs|
  {
    var t := Targets(from, offs);
    forall i, j | 0 <= i < j < |t|
      ensures t[i] != t[j]
    {
      assert offs[i] != offs[j];
    }
    StepsOrder(b, from, color, offs);
    SubseqNoDups(Steps(b, from, color, offs), t);
    SubseqLength(Steps(b, from, color, offs), t);
  }

  /** The loop of src/core/Knight.cpp:24-31 and src/core/King.cpp:24-35. */
  method StepMoves(b: BoardState, from: Pos, color: Color, offs: seq<Dir>) returns (moves: seq<Move>)
    requires WellFormed(b)
    ensures moves == Steps(b, from, color, offs)
  {
    moves := [];
    var k := 0;
    while k < |offs|
      invariant 0 <= k <= |offs|
      invariant moves == Steps(b, from, color, offs[..k])
    {
      var d := offs[k];
      var next := Pos(from.row + d.dr, from.col + d.dc);
      var step: seq<Move> := [];
      if IsValid(next, b.rows, b.cols) {
        var target := PieceAt(b, next);
        if target.None? || target.value.color != color {
          step := [Move(from, next)];
        }
      }
      StepsPush(b, from, color, offs, k, moves, step);
      moves := moves + step;
      k := k + 1;
    }
    assert offs[..k] == offs;
  }

  lemma StepsPush(b: BoardState, from: Pos, color: Color, offs: seq<Dir>, k: int, acc: seq<Move>, step: seq<Move>)
    requires WellFormed(b) && 0 <= k < |offs|
    requires acc == Steps(b, from, color, offs[..k]) && step == Step(b, from, color, offs[k])
    ensures acc + step == Steps(b, from, color, offs[..k + 1])
  {
    assert offs[..k + 1][..k] == offs[..k];
  }
}
