/** Pawn move generation (src/core/Pawn.cpp): the single push, the double
    push nested inside it, then for each capture offset -1 and +1 the
    diagonal capture and the en-passant capture read off the board's last
    move. A push or capture onto the first or last row fans out into four
    promotions. */
module Pawns {
  import opened ChessTypes
  import opened Positions
  import opened Moves
  import opened Pieces
  import opened BoardStates
  import opened Seqs

  /** White pawns move towards row 0, Black pawns towards the last row. */
  function Direction(c: Color): (d: int)
    ensures d == -1 || d == 1
    ensures (d == -1) <==> c == White
  {
    if c == White then -1 else 1
  }

  predicate PromotionRow(b: BoardState, to: Pos)
  {
    to.row == 0 || to.row == b.rows - 1
  }

  /** A move onto a square: on a promotion row, the four promotions in the
      order queen, rook, bishop, knight; elsewhere one plain move. */
  function Advance(b: BoardState, from: Pos, to: Pos): seq<Move>
  {
    if PromotionRow(b, to) then
      [Move(from, to, Queen), Move(from, to, Rook), Move(from, to, Bishop), Move(from, to, Knight)]
    else [Move(from, to)]
  }

  function OneStep(p: Piece): Pos
  {
    Pos(p.pos.row + Direction(p.color), p.pos.col)
  }

  function TwoSteps(p: Piece): Pos
  {
    Pos(p.pos.row + 2 * Direction(p.color), p.pos.col)
  }

  function CapturePos(p: Piece, o: int): Pos
  {
    Pos(p.pos.row + Direction(p.color), p.pos.col + o)
  }

  /** The single push and, nested in it, the double push of an unmoved pawn. */
  function Pushes(b: BoardState, p: Piece): seq<Move>
    requires WellFormed(b)
  {
    var one := OneStep(p);
    if OnBoard(b, one) && PieceAt(b, one).None? then
      Advance(b, p.pos, one) +
      (var two := TwoSteps(p);
       if !p.hasMoved && OnBoard(b, two) && PieceAt(b, two).None? then [Move(p.pos, two)] else [])
    else []
  }

  /** Both rank tests of the en-passant code: the general one on rows / 2 and
      the one fixed to an 8-row board. */
  predicate EnPassantRank(b: BoardState, p: Piece)
  {
    ((p.color == White && p.pos.row == b.rows / 2 - 1) || (p.color == Black && p.pos.row == b.rows / 2)) &&
    ((p.color == White && p.pos.row == 3 && b.rows == 8) || (p.color == Black && p.pos.row == 4 && b.rows == 8))
  }

  /** The last move ended beside the pawn, at column offset o, spanning two
      rows, and an enemy pawn stands there. */
  predicate EnPassantVictim(b: BoardState, p: Piece, o: int)
    requires WellFormed(b)
  {
    var side := Pos(p.pos.row, p.pos.col + o);
    b.lastMove.Some? && b.lastMove.value.to == side &&
    PieceAt(b, side).Some? && PieceAt(b, side).value.kind == Pawn && PieceAt(b, side).value.color != p.color &&
    Abs(b.lastMove.value.to.row - b.lastMove.value.from.row) == 2
  }

  /** What one capture offset contributes. */
  function Capture(b: BoardState, p: Piece, o: int): seq<Move>
    requires WellFormed(b)
  {
    var cap := CapturePos(p, o);
    if !OnBoard(b, cap) then []
    else
      (if PieceAt(b, cap).Some? && PieceAt(b, cap).value.color != p.color then Advance(b, p.pos, cap) else []) +
      (if EnPassantVictim(b, p, o) && EnPassantRank(b, p) then [Move(p.pos, cap, Empty, false, true)] else [])
  }

  function Captures(b: BoardState, p: Piece, offs: seq<int>): seq<Move>
    requires WellFormed(b)
    decreases |offs|
  {
    if offs == [] then [] else Captures(b, p, offs[..|offs| - 1]) + Capture(b, p, offs[|offs| - 1])
  }

  const CaptureOffsets: seq<int> := [-1, 1]

  /** The moves Pawn::getPossibleMoves returns, in order. */
  function PawnMoves(b: BoardState, p: Piece): seq<Move>
    requires WellFormed(b)
  {
    Pushes(b, p) + Captures(b, p, CaptureOffsets)
  }

  /** The push part of Pawn::getPossibleMoves (src/core/Pawn.cpp:30-50). */
  method GetPushes(b: BoardState, p: Piece) returns (moves: seq<Move>)
    requires WellFormed(b)
    ensures moves == Pushes(b, p)
  {
    var direction := if p.color == White then -1 else 1;
    var currentPos := p.pos;
    moves := [];
    var oneStep := Pos(currentPos.row + direction, currentPos.col);
    if IsValid(oneStep, b.rows, b.cols) && PieceAt(b, oneStep).None? {
      if oneStep.row == 0 || oneStep.row == b.rows - 1 {
        moves := moves + [Move(currentPos, oneStep, Queen)];
        moves := moves + [Move(currentPos, oneStep, Rook)];
        moves := moves + [Move(currentPos, oneStep, Bishop)];
        moves := moves + [Move(currentPos, oneStep, Knight)];
      } else {
        moves := moves + [Move(currentPos, oneStep)];
      }
      if !p.hasMoved {
        var twoSteps := Pos(currentPos.row + 2 * direction, currentPos.col);
        if IsValid(twoSteps, b.rows, b.cols) && PieceAt(b, twoSteps).None? {
          moves := moves + [Move(currentPos, twoSteps)];
        }
      }
    }
  }

  /** One pass of the capture loop (src/core/Pawn.cpp:55-106), appending to `moves`. */
  method AddCaptures(b: BoardState, p: Piece, offset: int, moves0: seq<Move>) returns (moves: seq<Move>)
    requires WellFormed(b)
    ensures moves == moves0 + Capture(b, p, offset)
  {
    moves := moves0;
    var direction := if p.color == White then -1 else 1;
    var currentPos := p.pos;
    var capturePos := Pos(currentPos.row + direction, currentPos.col + offset);
    if IsValid(capturePos, b.rows, b.cols) {
      var targetPiece := PieceAt(b, capturePos);
      if targetPiece.Some? && targetPiece.value.color != p.color {
        if capturePos.row == 0 || capturePos.row == b.rows - 1 {
          moves := moves + [Move(currentPos, capturePos, Queen), Move(currentPos, capturePos, Rook),
                            Move(currentPos, capturePos, Bishop), Move(currentPos, capturePos, Knight)];
        } else {
          moves := moves + [Move(currentPos, capturePos)];
        }
      }
      ghost var afterCapture := moves;
      var opponentPawnSquare := Pos(currentPos.row, currentPos.col + offset);
      var lastMove := b.lastMove;
      if lastMove.Some? && lastMove.value.to == opponentPawnSquare {
        var lastMovedPiece := PieceAt(b, opponentPawnSquare);
        if lastMovedPiece.Some? && lastMovedPiece.value.kind == Pawn && lastMovedPiece.value.color != p.color &&
           Abs(lastMove.value.to.row - lastMove.value.from.row) == 2 {
          if (p.color == White && currentPos.row == b.rows / 2 - 1) || (p.color == Black && currentPos.row == b.rows / 2) {
            if (p.color == White && currentPos.row == 3 && b.rows == 8) || (p.color == Black && currentPos.row == 4 && b.rows == 8) {
              moves := moves + [Move(currentPos, capturePos, Empty, false, true)];
            }
          }
        }
      }
      assert moves == afterCapture +
        (if EnPassantVictim(b, p, offset) && EnPassantRank(b, p) then [Move(p.pos, capturePos, Empty, false, true)] else []);
    }
  }

  /** Pawn::getPossibleMoves: the pushes, then the loop over the capture offsets. */
  method GetPawnMoves(b: BoardState, p: Piece) returns (moves: seq<Move>)
    requires WellFormed(b)
    ensures moves == PawnMoves(b, p)
  {
    moves := GetPushes(b, p);
    var captureOffsets := [-1, 1];
    for i := 0 to 2
      invariant moves == Pushes(b, p) + Captures(b, p, captureOffsets[..i])
    {
      moves := AddCaptures(b, p, captureOffsets[i], moves);
      assert captureOffsets[..i + 1] == captureOffsets[..i] + [captureOffsets[i]];
    }
    assert captureOffsets[..2] == CaptureOffsets;
  }

  /** On a board of 8 rows the two rank tests agree: White on row 3, Black on row 4. */
  lemma EnPassantRankOn8(b: BoardState, p: Piece)
    ensures EnPassantRank(b, p) <==>
      b.rows == 8 && ((p.color == White && p.pos.row == 3) || (p.color == Black && p.pos.row == 4))
  {
  }

  /** The promotion a move onto `to` may carry: one of the four pieces on a
      promotion row, none elsewhere. */
  predicate PromotionFits(b: BoardState, to: Pos, t: PieceType)
  {
    if PromotionRow(b, to) then t in {Queen, Rook, Bishop, Knight} else t == Empty
  }

  lemma AdvanceMember(b: BoardState, from: Pos, to: Pos, m: Move)
    ensures m in Advance(b, from, to) <==>
      m.from == from && m.to == to && PromotionFits(b, to, m.promotion) && !m.isCastling && !m.isEnPassant
  {
  }

  /** The fan-out of one push or capture: four moves on a promotion row, one
      elsewhere, all between the same two squares and none repeated. With
      AdvanceMember, each of the four promotions appears exactly once. */
  lemma AdvanceShape(b: BoardState, from: Pos, to: Pos)
    ensures |Advance(b, from, to)| == if PromotionRow(b, to) then 4 else 1
    ensures NoDups(Advance(b, from, to))
    ensures forall m :: m in Advance(b, from, to) ==> m.from == from && m.to == to && !m.isEnPassant
  {
  }

  /** A capture of the enemy piece diagonally ahead at column offset o. */
  predicate DiagonalCapture(b: BoardState, p: Piece, o: int, m: Move)
    requires WellFormed(b)
  {
    m.to == CapturePos(p, o) && OnBoard(b, m.to) &&
    PieceAt(b, m.to).Some? && PieceAt(b, m.to).value.color != p.color &&
    PromotionFits(b, m.to, m.promotion) && !m.isEnPassant
  }

  /** An en-passant capture of the pawn beside at column offset o. */
  predicate EnPassantCapture(b: BoardState, p: Piece, o: int, m: Move)
    requires WellFormed(b)
  {
    m.to == CapturePos(p, o) && OnBoard(b, m.to) &&
    EnPassantVictim(b, p, o) && EnPassantRank(b, p) && m.promotion == Empty && m.isEnPassant
  }

  /** Every pawn move, by kind: a single push to the empty square ahead, a
      double push of an unmoved pawn over two empty squares, a diagonal
      capture of an enemy piece, or an en-passant capture; none castles. */
  lemma {:induction false} PawnMovesIff(b: BoardState, p: Piece, m: Move)
    requires WellFormed(b)
    ensures m in PawnMoves(b, p) <==>
      m.from == p.pos && !m.isCastling &&
      (
        // single push
        (m.to == OneStep(p) && OnBoard(b, m.to) && PieceAt(b, m.to).None? &&
         PromotionFits(b, m.to, m.promotion) && !m.isEnPassant) ||
        // double push
        (m.to == TwoSteps(p) && !p.hasMoved && OnBoard(b, OneStep(p)) && PieceAt(b, OneStep(p)).None? &&
         OnBoard(b, m.to) && PieceAt(b, m.to).None? && m.promotion == Empty && !m.isEnPassant) ||
        (exists o :: o in CaptureOffsets && DiagonalCapture(b, p, o, m)) ||
        (exists o :: o in CaptureOffsets && EnPassantCapture(b, p, o, m))
      )
  {
    PushesMember(b, p, m);
    CaptureMember(b, p, -1, m);
    CaptureMember(b, p, 1, m);
    assert CaptureOffsets[..1] == [-1];
    assert Captures(b, p, CaptureOffsets) == Capture(b, p, -1) + Capture(b, p, 1);
    if exists o :: o in CaptureOffsets && DiagonalCapture(b, p, o, m) {
      var o :| o in CaptureOffsets && DiagonalCapture(b, p, o, m);
      assert o == -1 || o == 1;
    }
    if exists o :: o in CaptureOffsets && EnPassantCapture(b, p, o, m) {
      var o :| o in CaptureOffsets && EnPassantCapture(b, p, o, m);
      assert o == -1 || o == 1;
    }
  }

  lemma PushesMember(b: BoardState, p: Piece, m: Move)
    requires WellFormed(b)
    ensures m in Pushes(b, p) <==>
      m.from == p.pos && !m.isCastling &&
      ((m.to == OneStep(p) && OnBoard(b, m.to) && PieceAt(b, m.to).None? &&
        PromotionFits(b, m.to, m.promotion) && !m.isEnPassant) ||
       (m.to == TwoSteps(p) && !p.hasMoved && OnBoard(b, OneStep(p)) && PieceAt(b, OneStep(p)).None? &&
        OnBoard(b, m.to) && PieceAt(b, m.to).None? && m.promotion == Empty && !m.isEnPassant))
  {
    AdvanceMember(b, p.pos, OneStep(p), m);
  }

  lemma CaptureMember(b: BoardState, p: Piece, o: int, m: Move)
    requires WellFormed(b)
    ensures m in Capture(b, p, o) <==>
      m.from == p.pos && !m.isCastling && (DiagonalCapture(b, p, o, m) || EnPassantCapture(b, p, o, m))
  {
    AdvanceMember(b, p.pos, CapturePos(p, o), m);
  }

  /** With no last move on the board there is no en-passant move. */
  lemma NoLastMoveNoEnPassant(b: BoardState, p: Piece, m: Move)
    requires WellFormed(b) && b.lastMove.None? && m in PawnMoves(b, p)
    ensures !m.isEnPassant
  {
    PawnMovesIff(b, p, m);
  }

  /** No pawn move is emitted twice: pushes keep the column while captures
      change it, the two offsets reach different columns, the single and
      double push reach different rows, and a diagonal capture differs from
      the en-passant move in its flag. */
  lemma PawnMovesNoDups(b: BoardState, p: Piece)
    requires WellFormed(b)
    ensures NoDups(PawnMoves(b, p))
  {
    var pushes := Pushes(b, p);
    var left := Capture(b, p, -1);
    var right := Capture(b, p, 1);
    PushesNoDups(b, p);
    CaptureNoDups(b, p, -1);
    CaptureNoDups(b, p, 1);
    assert CaptureOffsets[..1] == [-1];
    assert Captures(b, p, CaptureOffsets) == left + right;
    forall m | m in left ensures m !in right {
      CaptureColumn(b, p, -1, m);
    }
    NoDupsConcat(left, right);
    forall m | m in pushes ensures m !in left + right {
      PushesMember(b, p, m);
      if m in left { CaptureColumn(b, p, -1, m); }
      if m in right { CaptureColumn(b, p, 1, m); }
    }
    NoDupsConcat(pushes, left + right);
  }

  lemma PushesNoDups(b: BoardState, p: Piece)
    requires WellFormed(b)
    ensures NoDups(Pushes(b, p))
  {
    var one := OneStep(p);
    if OnBoard(b, one) && PieceAt(b, one).None? {
      AdvanceShape(b, p.pos, one);
      var two := TwoSteps(p);
      var double := if !p.hasMoved && OnBoard(b, two) && PieceAt(b, two).None? then [Move(p.pos, two)] else [];
      assert one != two;
      NoDupsConcat(Advance(b, p.pos, one), double);
    }
  }

  /** A capture at offset o lands on the column o away from the pawn. */
  lemma CaptureColumn(b: BoardState, p: Piece, o: int, m: Move)
    requires WellFormed(b) && m in Capture(b, p, o)
    ensures m.to == CapturePos(p, o)
  {
    CaptureMember(b, p, o, m);
  }

  lemma CaptureNoDups(b: BoardState, p: Piece, o: int)
    requires WellFormed(b)
    ensures NoDups(Capture(b, p, o))
  {
    var cap := CapturePos(p, o);
    if OnBoard(b, cap) {
      AdvanceShape(b, p.pos, cap);
      var diag := if PieceAt(b, cap).Some? && PieceAt(b, cap).value.color != p.color then Advance(b, p.pos, cap) else [];
      var ep := if EnPassantVictim(b, p, o) && EnPassantRank(b, p) then [Move(p.pos, cap, Empty, false, true)] else [];
      NoDupsConcat(diag, ep);
    }
  }

  /** A pawn on the board emits at most 12 moves: four promotions for the
      push and for each of the two captures. A promoting push has no double
      push behind it, and an en-passant capture never lands on a promotion row. */
  lemma PawnMovesBound(b: BoardState, p: Piece)
    requires WellFormed(b) && OnBoard(b, p.pos)
    ensures |PawnMoves(b, p)| <= 12
  {
    AdvanceShape(b, p.pos, OneStep(p));
    AdvanceShape(b, p.pos, CapturePos(p, -1));
    AdvanceShape(b, p.pos, CapturePos(p, 1));
    assert CaptureOffsets[..1] == [-1];
    assert Captures(b, p, CaptureOffsets) == Capture(b, p, -1) + Capture(b, p, 1);
  }
}
