/** The rules src/core/Game.cpp applies to a board: the pseudo-legal moves of
    a side, the legality filter that simulates each move on a copy, the check
    test and the decision table of updateGameState, as functions on a board's
    value. */
module GameRules {
  import opened ChessTypes
  import opened Positions
  import opened Moves
  import opened Pieces
  import opened BoardStates
  import opened BoardRules
  import opened BoardQueries
  import opened MoveGen
  import opened Kings
  import opened Seqs
  import opened Scans

  // ---------------------------------------------------------------------------
  // generatePseudoLegalMoves

  /** The moves a square contributes: those of its occupant when it is of the colour. */
  function SquareMoves(b: BoardState, color: Color, q: Pos): seq<Move>
    requires WellFormed(b)
  {
    var sq := PieceAt(b, q);
    if sq.Some? && sq.value.color == color then PossibleMoves(b, sq.value) else []
  }

  /** The per-square contribution as a function of the square. */
  function SquareGen(b: BoardState, color: Color): Pos -> seq<Move>
    requires WellFormed(b)
  {
    q => SquareMoves(b, color, q)
  }

  /** generatePseudoLegalMoves: the moves of the colour's pieces, square by
      square in row-major order. */
  function PseudoLegalMoves(b: BoardState, color: Color): seq<Move>
    requires WellFormed(b)
  {
    GridScan(SquareGen(b, color), b.rows, b.cols)
  }

  /** A move is pseudo-legal for a colour exactly when some square holds a
      piece of that colour that generates it. */
  lemma PseudoLegalMember(b: BoardState, color: Color, m: Move)
    requires WellFormed(b)
    ensures m in PseudoLegalMoves(b, color) <==> exists q :: m in SquareMoves(b, color, q)
  {
    GridScanMember(SquareGen(b, color), b.rows, b.cols, m);
    if exists q :: m in SquareMoves(b, color, q) {
      var q :| m in SquareMoves(b, color, q);
      assert PieceAt(b, q).Some?;
      assert m in SquareGen(b, color)(q);
    }
  }

  /** On a board whose pieces record their squares, every pseudo-legal move
      starts on a square holding a piece of the colour that generates it. */
  lemma PseudoLegalOrigin(b: BoardState, color: Color, m: Move)
    requires WellFormed(b) && Consistent(b) && m in PseudoLegalMoves(b, color)
    ensures PieceAt(b, m.from).Some? && PieceAt(b, m.from).value.color == color
    ensures m in PossibleMoves(b, PieceAt(b, m.from).value)
  {
    PseudoLegalMember(b, color, m);
    var q :| m in SquareMoves(b, color, q);
    ConsistentAt(b);
    PossibleMovesShape(b, PieceAt(b, q).value, m);
  }

  // ---------------------------------------------------------------------------
  // getLegalMovesForColor

  /** The square the king passes when castling towards m.to. */
  function Intermediate(m: Move): Pos
  {
    if m.to.col > m.from.col then Pos(m.from.row, m.from.col + 1) else Pos(m.from.row, m.from.col - 1)
  }

  /** The simulation of one move on a copy of the board (which has no last
      move): the mover's king must not be attacked afterwards, and a castling
      move also needs the king's square and the square it passes unattacked
      on the board itself. A move whose origin is empty is skipped, and so
      is one whose simulation throws. */
  predicate Keep(b: BoardState, color: Color, m: Move)
    requires WellFormed(b)
  {
    var temp := b.(lastMove := None);
    PieceAt(temp, m.from).Some? &&
    var after := PerformMoveSpec(temp, m);
    after.captured.Ok? && SafeAfter(b, after.board, color, m)
  }

  /** The checks made once the simulation has succeeded, on the board before
      and the copy after it. */
  predicate SafeAfter(b: BoardState, after: BoardState, color: Color, m: Move)
    requires WellFormed(b) && WellFormed(after)
  {
    !SquareAttacked(after, FindKing(after, color), Opponent(color)) &&
    (m.isCastling ==>
      !SquareAttacked(b, m.from, Opponent(color)) && !SquareAttacked(b, Intermediate(m), Opponent(color)))
  }

  /** The moves of a sequence that pass the filter, in order. */
  function LegalAmong(b: BoardState, color: Color, ms: seq<Move>): seq<Move>
    requires WellFormed(b)
  {
    if ms == [] then []
    else LegalAmong(b, color, ms[..|ms| - 1]) + (if Keep(b, color, ms[|ms| - 1]) then [ms[|ms| - 1]] else [])
  }

  function LegalMoves(b: BoardState, color: Color): seq<Move>
    requires WellFormed(b)
  {
    LegalAmong(b, color, PseudoLegalMoves(b, color))
  }

  /** One more move through the filter: kept or dropped. */
  lemma LegalAmongPush(b: BoardState, color: Color, ms: seq<Move>, i: int, acc: seq<Move>)
    requires WellFormed(b) && 0 <= i < |ms| && acc == LegalAmong(b, color, ms[..i])
    ensures LegalAmong(b, color, ms[..i + 1]) == if Keep(b, color, ms[i]) then acc + [ms[i]] else acc
  {
    assert ms[..i + 1][..i] == ms[..i];
  }

  lemma {:induction false} LegalAmongSpec(b: BoardState, color: Color, ms: seq<Move>)
    requires WellFormed(b)
    ensures IsSubseq(LegalAmong(b, color, ms), ms)
    ensures forall m :: m in LegalAmong(b, color, ms) <==> m in ms && Keep(b, color, m)
    decreases |ms|
  {
    if ms != [] {
      var init, x := ms[..|ms| - 1], ms[|ms| - 1];
      assert ms == init + [x];
      assert forall m :: m in ms <==> m in init || m == x;
      LegalAmongSpec(b, color, init);
      if Keep(b, color, x) {
        SubseqBoth(LegalAmong(b, color, init), init, x);
      } else {
        assert LegalAmong(b, color, ms) == LegalAmong(b, color, init);
        SubseqExtend(LegalAmong(b, color, init), init, x);
      }
    }
  }

  /** The legal moves are an order-preserving subsequence of the pseudo-legal
      ones, and a move is legal exactly when it is pseudo-legal and passes the
      simulation. */
  lemma LegalMovesSpec(b: BoardState, color: Color)
    requires WellFormed(b)
    ensures IsSubseq(LegalMoves(b, color), PseudoLegalMoves(b, color))
    ensures forall m :: m in LegalMoves(b, color) <==> m in PseudoLegalMoves(b, color) && Keep(b, color, m)
  {
    LegalAmongSpec(b, color, PseudoLegalMoves(b, color));
  }

  // ---------------------------------------------------------------------------
  // Boards a game can reach, on which the simulation never throws

  /** Every king that has not moved stands on column 4, where the default
      setup puts it. */
  ghost predicate HomeKings(b: BoardState)
    requires WellFormed(b)
  {
    forall q :: PieceAt(b, q).Some? && PieceAt(b, q).value.kind == King && !PieceAt(b, q).value.hasMoved ==> q.col == 4
  }

  /** Every piece of `after` that has not moved stood on the same square in `before`. */
  ghost predicate UnmovedStayed(before: BoardState, after: BoardState)
    requires WellFormed(before) && WellFormed(after)
  {
    forall q :: PieceAt(after, q).Some? && !PieceAt(after, q).value.hasMoved ==> PieceAt(after, q) == PieceAt(before, q)
  }

  /** Putting a piece down and marking it moved creates no unmoved piece. */
  lemma PlaceKeepsUnmoved(b: BoardState, piece: Option<Piece>, p: Pos)
    requires WellFormed(b) && OnBoard(b, p)
    ensures UnmovedStayed(b, MarkMoved(AddSpec(b, piece, p).value, p))
  {
  }

  lemma CastleRookKeepsUnmoved(b: BoardState, m: Move, mover: Piece)
    requires WellFormed(b)
    ensures UnmovedStayed(b, CastleRook(b, m, mover).board)
  {
    if m.isCastling && mover.kind == King && PieceAt(b, RookFrom(b, m)).Some? {
      var lifted := RemoveSpec(b, RookFrom(b, m));
      if OnBoard(b, RookTo(m)) {
        PlaceKeepsUnmoved(lifted.board, lifted.removed, RookTo(m));
      }
    }
  }

  lemma FinishKeepsUnmoved(b: BoardState, m: Move, mover: Piece)
    requires WellFormed(b) && OnBoard(b, m.to)
    ensures UnmovedStayed(b, Finish(b, m, mover).board)
  {
    var promoted := Promote(b, m, mover);
    CastleRookKeepsUnmoved(promoted, m, mover);
    var castled := CastleRook(promoted, m, mover);
    if castled.outcome.Done? {
      assert forall q :: PieceAt(Finish(b, m, mover).board, q) == PieceAt(castled.board, q);
    }
  }

  /** performMove only ever puts down pieces marked as moved, so every piece
      still unmoved afterwards stood on its square before, even when it throws. */
  lemma PerformMoveKeepsUnmoved(b: BoardState, m: Move)
    requires WellFormed(b)
    ensures UnmovedStayed(b, PerformMoveSpec(b, m).board)
  {
    if PieceAt(b, m.from).Some? {
      var mover := PieceAt(b, m.from).value;
      var lifted := RemoveSpec(b, m.from).board;
      var taken := TakeCapture(lifted, m, mover);
      if OnBoard(b, m.to) {
        PlaceKeepsUnmoved(taken.board, Some(mover), m.to);
        var moved := MarkMoved(AddSpec(taken.board, Some(mover), m.to).value, m.to);
        FinishKeepsUnmoved(moved, m, mover);
      }
    }
  }

  lemma HomeKingsStay(before: BoardState, after: BoardState)
    requires WellFormed(before) && WellFormed(after) && HomeKings(before) && UnmovedStayed(before, after)
    ensures HomeKings(after)
  {
  }

  /** On a board whose pieces record their squares and whose unmoved kings
      stand on column 4, no pseudo-legal move makes the simulation throw: the
      filter skipping a throwing move never differs there from the source,
      where the exception would escape getLegalMovesForColor. */
  lemma SimulationNeverThrows(b: BoardState, color: Color, m: Move)
    requires WellFormed(b) && Consistent(b) && HomeKings(b) && m in PseudoLegalMoves(b, color)
    ensures PieceAt(b, m.from).Some?
    ensures PerformMoveSpec(b.(lastMove := None), m).captured.Ok?
  {
    PseudoLegalNeverThrows(b, color, m);
    PerformMoveIgnoresHistory(b, m, b.enPassantTarget, None);
    assert WithHistory(b, b.enPassantTarget, None) == b.(lastMove := None);
  }

  /** The same on the board as it stands, before the history is cleared. */
  lemma PseudoLegalNeverThrows(b: BoardState, color: Color, m: Move)
    requires WellFormed(b) && Consistent(b) && HomeKings(b) && m in PseudoLegalMoves(b, color)
    ensures PieceAt(b, m.from).Some?
    ensures PerformMoveSpec(b, m).captured.Ok?
  {
    PseudoLegalOrigin(b, color, m);
    var p := PieceAt(b, m.from).value;
    ConsistentAt(b);
    assert p.pos == m.from;
    PossibleMovesShape(b, p, m);
    PerformMoveErrors(b, m);
    if m.isCastling && p.kind == King {
      CastlingNeverThrows(b, p, m);
    }
  }

  lemma CastlingNeverThrows(b: BoardState, p: Piece, m: Move)
    requires WellFormed(b) && PieceAt(b, m.from) == Some(p) && p.kind == King && p.pos == m.from
    requires m in PossibleMoves(b, p) && m.isCastling && m.from.col == 4
    ensures PerformMoveSpec(b, m).captured.Ok?
  {
    PossibleMovesShape(b, p, m);
    KingMovesIff(b, p, m);
    assert OnBoard(b, m.to);
    assert m.to.col == 6 || m.to.col == 2;
    assert OnBoard(b, RookTo(m));
    PerformMoveCastlingThrows(b, m);
  }

  // ---------------------------------------------------------------------------
  // isKingInCheck and updateGameState

  /** isKingInCheck: false when the colour has no king (findKing gives a square
      off the board), otherwise whether the opponent attacks the king's square. */
  predicate InCheck(b: BoardState, color: Color)
    requires WellFormed(b)
  {
    var k := FindKing(b, color);
    OnBoard(b, k) && SquareAttacked(b, k, Opponent(color))
  }

  /** With no king of the colour there is no check; otherwise check means the
      first king of the colour in row-major order is attacked. */
  lemma InCheckSpec(b: BoardState, color: Color)
    requires WellFormed(b) && Consistent(b)
    ensures (forall q :: !IsKingOf(b, q, color)) ==> !InCheck(b, color)
    ensures forall k :: IsKingOf(b, k, color) && (forall q :: Before(q, k) ==> !IsKingOf(b, q, color)) ==>
                        (InCheck(b, color) <==> SquareAttacked(b, k, Opponent(color)))
  {
    FindKingSpec(b, color);
    var f := FindKing(b, color);
    forall k | IsKingOf(b, k, color) && (forall q :: Before(q, k) ==> !IsKingOf(b, q, color))
      ensures f == k
    {
      assert f != NoPos;
    }
  }

  /** The decision table of updateGameState, in priority order. */
  function Decide(inCheck: bool, canMove: bool, halfMoveClock: int, side: Color): (s: GameState)
    ensures (s == CheckmateBlackWins || s == CheckmateWhiteWins) <==> inCheck && !canMove
    ensures s == CheckmateBlackWins <==> inCheck && !canMove && side == White
    ensures s == Stalemate <==> !inCheck && !canMove
    ensures s == DrawHalfMoveRule <==> canMove && halfMoveClock >= 100
    ensures s == Check <==> canMove && halfMoveClock < 100 && inCheck
    ensures s == Playing <==> canMove && halfMoveClock < 100 && !inCheck
  {
    if inCheck && !canMove then (if side == White then CheckmateBlackWins else CheckmateWhiteWins)
    else if !inCheck && !canMove then Stalemate
    else if halfMoveClock >= 100 then DrawHalfMoveRule
    else if inCheck then Check
    else Playing
  }

  /** The state updateGameState gives the side to move. */
  function StateFor(b: BoardState, side: Color, halfMoveClock: int): GameState
    requires WellFormed(b)
  {
    Decide(InCheck(b, side), LegalMoves(b, side) != [], halfMoveClock, side)
  }
}
