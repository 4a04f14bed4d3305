/** King move generation (src/core/King.cpp): eight single steps, then the
    kingside and queenside castling intents. Whether the king passes through
    an attacked square is left to the legality filter (GameRules.Keep). */
module Kings {
  import opened ChessTypes
  import opened Positions
  import opened Moves
  import opened Pieces
  import opened BoardStates
  import opened Seqs
  import opened Sliding
  import opened Stepping

  /** Orthogonal steps, then diagonal steps. */
  const KingSteps: seq<Dir> := [Dir(0, 1), Dir(0, -1), Dir(1, 0), Dir(-1, 0),
                                Dir(1, 1), Dir(1, -1), Dir(-1, 1), Dir(-1, -1)]

  /** Squares (row, lo) .. (row, hi - 1) are all empty. */
  predicate PathClear(b: BoardState, row: int, lo: int, hi: int)
    requires WellFormed(b)
  {
    forall c :: lo <= c < hi ==> PieceAt(b, Pos(row, c)).None?
  }

  /** A rook of colour `color` that has never moved stands on `p`. */
  predicate UnmovedRook(b: BoardState, p: Pos, color: Color)
    requires WellFormed(b)
  {
    PieceAt(b, p).Some? && PieceAt(b, p).value.kind == Rook &&
    PieceAt(b, p).value.color == color && !PieceAt(b, p).value.hasMoved
  }

  function KingsideCastleMove(k: Piece): Move
  {
    Move(k.pos, Pos(k.pos.row, k.pos.col + 2), Empty, true)
  }

  function QueensideCastleMove(k: Piece): Move
  {
    Move(k.pos, Pos(k.pos.row, k.pos.col - 2), Empty, true)
  }

  /** Castling is considered only for a king that has not moved, on an 8x8 board. */
  predicate MayCastle(b: BoardState, k: Piece)
  {
    !k.hasMoved && b.rows == 8 && b.cols == 8
  }

  /** Kingside: the rook in the last column of the king's row is an unmoved
      rook of the king's colour and the squares between them are empty. */
  predicate KingsideReady(b: BoardState, k: Piece)
    requires WellFormed(b)
  {
    UnmovedRook(b, Pos(k.pos.row, b.cols - 1), k.color) && PathClear(b, k.pos.row, k.pos.col + 1, b.cols - 1)
  }

  /** Queenside: the same with the rook in column 0. */
  predicate QueensideReady(b: BoardState, k: Piece)
    requires WellFormed(b)
  {
    UnmovedRook(b, Pos(k.pos.row, 0), k.color) && PathClear(b, k.pos.row, 1, k.pos.col)
  }

  function Castles(b: BoardState, k: Piece): seq<Move>
    requires WellFormed(b)
  {
    if !MayCastle(b, k) then []
    else
      (if KingsideReady(b, k) then [KingsideCastleMove(k)] else []) +
      (if QueensideReady(b, k) then [QueensideCastleMove(k)] else [])
  }

  /** The moves King::getPossibleMoves returns, in order. */
  function KingMoves(b: BoardState, k: Piece): seq<Move>
    requires WellFormed(b)
  {
    Steps(b, k.pos, k.color, KingSteps) + Castles(b, k)
  }

  /** The kingside column loop (src/core/King.cpp:48-54): columns from `lo`
      up to `hi` - 1, stopping at the first occupied square. */
  method ScanRight(b: BoardState, row: int, lo: int, hi: int) returns (pathClear: bool)
    requires WellFormed(b)
    ensures pathClear <==> PathClear(b, row, lo, hi)
  {
    pathClear := true;
    var c := lo;
    while c < hi
      invariant lo <= c
      invariant PathClear(b, row, lo, c)
    {
      if PieceAt(b, Pos(row, c)).Some? {
        pathClear := false;
        break;
      }
      c := c + 1;
    }
  }

  /** The queenside column loop (src/core/King.cpp:66-71): columns from
      `start` down to `stop` + 1, stopping at the first occupied square. */
  method ScanLeft(b: BoardState, row: int, start: int, stop: int) returns (pathClear: bool)
    requires WellFormed(b)
    ensures pathClear <==> PathClear(b, row, stop + 1, start + 1)
  {
    pathClear := true;
    var c := start;
    while c > stop
      invariant c <= start
      invariant PathClear(b, row, c + 1, start + 1)
    {
      if PieceAt(b, Pos(row, c)).Some? {
        pathClear := false;
        break;
      }
      c := c - 1;
    }
  }

  /** King::getPossibleMoves: the step loop, then the two castling checks. */
  method GetKingMoves(b: BoardState, k: Piece) returns (moves: seq<Move>)
    requires WellFormed(b)
    ensures moves == KingMoves(b, k)
  {
    moves := StepMoves(b, k.pos, k.color, KingSteps);
    ghost var steps := moves;
    if !k.hasMoved && b.rows == 8 && b.cols == 8 {
      var row := k.pos.row;
      var kingsideRookPos := Pos(row, b.cols - 1);
      var kRook := PieceAt(b, kingsideRookPos);
      if kRook.Some? && kRook.value.kind == Rook && kRook.value.color == k.color && !kRook.value.hasMoved {
        var pathClear := ScanRight(b, row, k.pos.col + 1, kingsideRookPos.col);
        if pathClear {
          moves := moves + [Move(k.pos, Pos(row, k.pos.col + 2), Empty, true)];
        }
      }
      assert moves == steps + (if KingsideReady(b, k) then [KingsideCastleMove(k)] else []);
      ghost var afterKingside := moves;
      var queensideRookPos := Pos(row, 0);
      var qRook := PieceAt(b, queensideRookPos);
      if qRook.Some? && qRook.value.kind == Rook && qRook.value.color == k.color && !qRook.value.hasMoved {
        var pathClear := ScanLeft(b, row, k.pos.col - 1, queensideRookPos.col);
        if pathClear {
          moves := moves + [Move(k.pos, Pos(row, k.pos.col - 2), Empty, true)];
        }
      }
      assert moves == afterKingside + (if QueensideReady(b, k) then [QueensideCastleMove(k)] else []);
    }
  }

  /** The ordinary steps are exactly the plain moves to the on-board
      neighbours (Chebyshev distance 1) that are empty or enemy-held. */
  lemma KingStepsIff(b: BoardState, k: Piece, m: Move)
    requires WellFormed(b)
    ensures m in Steps(b, k.pos, k.color, KingSteps) <==>
      m == Move(k.pos, m.to) && Dist(k.pos, m.to) == 1 && OnBoard(b, m.to) && CanLand(b, m.to, k.color)
  {
    StepsMember(b, k.pos, k.color, KingSteps, m);
    if m == Move(k.pos, m.to) && Dist(k.pos, m.to) == 1 {
      var d := Dir(m.to.row - k.pos.row, m.to.col - k.pos.col);
      assert d in KingSteps;
      assert m == Move(k.pos, Shift(k.pos, d));
    }
  }

  /** A king move is an ordinary step (a plain move to a neighbour) or one of
      the two castling intents, each emitted exactly when its conditions hold. */
  lemma KingMovesIff(b: BoardState, k: Piece, m: Move)
    requires WellFormed(b)
    ensures m in KingMoves(b, k) <==>
      (m == Move(k.pos, m.to) && Dist(k.pos, m.to) == 1 && OnBoard(b, m.to) && CanLand(b, m.to, k.color)) ||
      (m == KingsideCastleMove(k) && MayCastle(b, k) && KingsideReady(b, k)) ||
      (m == QueensideCastleMove(k) && MayCastle(b, k) && QueensideReady(b, k))
  {
    KingStepsIff(b, k, m);
  }

  /** Castling intents carry no promotion and no en-passant flag; ordinary
      steps carry no flag at all; at most ten moves, none repeated. */
  lemma KingMovesShape(b: BoardState, k: Piece)
    requires WellFormed(b)
    ensures forall m :: m in KingMoves(b, k) ==> m.from == k.pos && m.promotion == Empty && !m.isEnPassant
    ensures forall m :: m in KingMoves(b, k) && !m.isCastling ==> Plain(m) && Dist(k.pos, m.to) == 1
    ensures |KingMoves(b, k)| <= 10
    ensures NoDups(KingMoves(b, k))
  {
    forall m | m in KingMoves(b, k)
      ensures m.from == k.pos && m.promotion == Empty && !m.isEnPassant
      ensures !m.isCastling ==> Plain(m) && Dist(k.pos, m.to) == 1
    {
      KingMovesIff(b, k, m);
    }
    StepsNoDups(b, k.pos, k.color, KingSteps);
    var s := Steps(b, k.pos, k.color, KingSteps);
    var c := Castles(b, k);
    var t := s + c;
    forall i, j | 0 <= i < j < |t|
      ensures t[i] != t[j]
    {
      if j >= |s| {
        assert t[j] in c;
        if i < |s| {
          assert t[i] in s;
          KingStepsIff(b, k, t[i]);
        }
      }
    }
  }
}
