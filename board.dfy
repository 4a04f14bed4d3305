/** The board object of src/core/Board.cpp: its fields are updated in place
    by the methods below, each proved to leave the state its specification in
    BoardRules or BoardQueries gives. */
module Boards {
  import opened ChessTypes
  import opened Positions
  import opened Moves
  import opened Pieces
  import opened BoardStates
  import opened BoardRules
  import opened BoardQueries
  import opened MoveGen

  class Board {
    const rows: int
    const cols: int
    var grid: seq<seq<Option<Piece>>>
    var whiteKingside: bool
    var whiteQueenside: bool
    var blackKingside: bool
    var blackQueenside: bool
    var enPassantTarget: Pos
    var lastMove: Option<Move>
    /** The id the next piece made for this board takes. */
    var nextPieceId: int

    /** The board's value, as the move generators and rules read it. */
    function State(): BoardState
      reads this
    {
      BoardState(rows, cols, grid, whiteKingside, whiteQueenside, blackKingside, blackQueenside,
                 enPassantTarget, lastMove, nextPieceId)
    }

    /** The grid has the board's dimensions. */
    predicate Valid()
      reads this
    {
      WellFormed(State())
    }

    /** Board(rows, cols): an empty board with all rights and no history. */
    constructor(rows: int, cols: int)
      requires rows >= 0 && cols >= 0
      ensures Valid()
      ensures State() == EmptyBoard(BoardState(rows, cols, [], false, false, false, false, NoPos, None, 0))
    {
      this.rows := rows;
      this.cols := cols;
      nextPieceId := 0;
      new;
      InitializeEmptyBoard();
    }

    /** The copy constructor: every field copied except the last move, which
        the copy does not share. */
    constructor Copy(other: Board)
      requires other.Valid()
      ensures Valid()
      ensures State() == other.State().(lastMove := None)
    {
      rows := other.rows;
      cols := other.cols;
      grid := other.grid;
      whiteKingside := other.whiteKingside;
      whiteQueenside := other.whiteQueenside;
      blackKingside := other.blackKingside;
      blackQueenside := other.blackQueenside;
      enPassantTarget := other.enPassantTarget;
      lastMove := None;
      nextPieceId := other.nextPieceId;
    }

    method InitializeEmptyBoard()
      requires rows >= 0 && cols >= 0
      modifies this
      ensures Valid()
      ensures State() == EmptyBoard(old(State()))
    {
      var g: seq<seq<Option<Piece>>> := [];
      var r := 0;
      while r < rows
        invariant 0 <= r <= rows && |g| == r
        invariant forall i :: 0 <= i < r ==> g[i] == seq(cols, c => None)
      {
        g := g + [seq(cols, c => None)];
        r := r + 1;
      }
      assert g == EmptyGrid(rows, cols);
      grid := g;
      lastMove := None;
      whiteKingside, whiteQueenside, blackKingside, blackQueenside := true, true, true, true;
      enPassantTarget := Pos(-1, -1);
    }

    /** A new piece, taking the next id. */
    method NewPiece(kind: PieceKind, color: Color, pos: Pos) returns (p: Piece)
      modifies this
      ensures p == Pieces.NewPiece(kind, color, pos, old(nextPieceId))
      ensures State() == old(State()).(nextPieceId := old(nextPieceId) + 1)
    {
      p := Pieces.NewPiece(kind, color, pos, nextPieceId);
      nextPieceId := nextPieceId + 1;
    }

    /** One row of the default setup, column 0 to 7. */
    method PlaceSetupRow(r: int, ghost base: int)
      requires Valid() && rows == 8 && cols == 8 && SetupRow(r) && nextPieceId == base + RowStart(r)
      modifies this
      ensures Valid()
      ensures State() == old(State()).(grid := old(grid)[r := seq(8, c => DefaultSquare(r, c, base))],
                                       nextPieceId := old(nextPieceId) + 8)
    {
      var row := MakeSetupRow(r, base);
      grid := grid[r := row];
    }

    /** The eight pieces of a setup row, each taking the next id. */
    method MakeSetupRow(r: int, ghost base: int) returns (row: seq<Option<Piece>>)
      requires SetupRow(r) && nextPieceId == base + RowStart(r)
      modifies this
      ensures row == seq(8, c => DefaultSquare(r, c, base))
      ensures State() == old(State()).(nextPieceId := old(nextPieceId) + 8)
    {
      ghost var s0 := State();
      row := [];
      var c := 0;
      while c < 8
        invariant 0 <= c <= 8 && |row| == c && nextPieceId == base + RowStart(r) + c
        invariant forall j :: 0 <= j < c ==> row[j] == DefaultSquare(r, j, base)
        invariant State() == s0.(nextPieceId := nextPieceId)
      {
        var piece := NewPiece(SetupKind(r, c), SetupColor(r), Pos(r, c));
        row := row + [Some(piece)];
        c := c + 1;
      }
    }

    /** initializeDefaultSetup: empties the board, throws unless it is 8x8,
        then places the 32 pieces. */
    method InitializeDefaultSetup() returns (outcome: Outcome)
      requires Valid()
      modifies this
      ensures Valid()
      ensures State() == DefaultSetup(old(State())).board
      ensures outcome == DefaultSetup(old(State())).outcome
    {
      InitializeEmptyBoard();
      if rows != 8 || cols != 8 {
        return Failed(RuntimeError(SetupMessage));
      }
      ghost var base := nextPieceId;
      PlaceSetupRow(0, base);
      PlaceSetupRow(1, base);
      PlaceSetupRow(6, base);
      PlaceSetupRow(7, base);
      whiteKingside, whiteQueenside, blackKingside, blackQueenside := true, true, true, true;
      enPassantTarget := Pos(-1, -1);
      lastMove := None;
      forall i | 0 <= i < 8
        ensures grid[i] == DefaultGrid(base)[i]
      {
        if !SetupRow(i) {
          assert grid[i] == seq(8, c => None);
          assert DefaultGrid(base)[i] == seq(8, c => None);
        }
      }
      assert grid == DefaultGrid(base);
      outcome := Done;
    }

    /** addPiece: throws out_of_range off the board, otherwise stores the
        piece (or nothing) on the square. */
    method AddPiece(piece: Option<Piece>, p: Pos) returns (outcome: Outcome)
      requires Valid()
      modifies this
      ensures Valid()
      ensures var r := AddSpec(old(State()), piece, p);
        if r.Err? then outcome == Failed(r.error) && State() == old(State())
        else outcome == Done && State() == r.value
    {
      if !IsValid(p, rows, cols) {
        return Failed(OutOfRange(AddMessage));
      }
      if piece.Some? {
        var placed := WithPosition(piece.value, p);
        grid := grid[p.row := grid[p.row][p.col := Some(placed)]];
      } else {
        grid := grid[p.row := grid[p.row][p.col := None]];
      }
      outcome := Done;
    }

    /** removePiece: nothing for an off-board or empty square; otherwise the
        occupant, leaving the square empty. */
    method RemovePiece(p: Pos) returns (removed: Option<Piece>)
      requires Valid()
      modifies this
      ensures Valid()
      ensures State() == RemoveSpec(old(State()), p).board
      ensures removed == RemoveSpec(old(State()), p).removed
    {
      if !IsValid(p, rows, cols) || grid[p.row][p.col].None? {
        return None;
      }
      removed := grid[p.row][p.col];
      grid := grid[p.row := grid[p.row][p.col := None]];
    }

    /** setHasMoved(true) on the piece standing on an on-board square. */
    method MarkMovedAt(p: Pos)
      requires Valid() && OnBoard(State(), p)
      modifies this
      ensures Valid()
      ensures State() == MarkMoved(old(State()), p)
    {
      var sq := grid[p.row][p.col];
      if sq.Some? {
        grid := grid[p.row := grid[p.row][p.col := Some(WithHasMoved(sq.value, true))]];
      }
    }

    /** The promotion stage of performMove. */
    method PromoteAt(m: Move, mover: Piece)
      requires Valid() && OnBoard(State(), m.to)
      modifies this
      ensures Valid()
      ensures State() == Promote(old(State()), m, mover)
    {
      ghost var s0 := State();
      if m.promotion != Empty && mover.kind == Pawn {
        var atPromotionRank := (mover.color == White && m.to.row == 0) ||
                               (mover.color == Black && m.to.row == rows - 1);
        if atPromotionRank && m.promotion in {Queen, Rook, Bishop, Knight} {
          var promoted := NewPiece(m.promotion, mover.color, m.to);
          promoted := WithHasMoved(promoted, true);
          assert PromotedPiece(s0, m, mover) == Some(promoted);
          var placed := AddPiece(Some(promoted), m.to);
          return;
        }
      }
      assert PromotedPiece(s0, m, mover).None?;
    }

    /** The rook hop of performMove for a castling-flagged king move. */
    method HopRook(m: Move, mover: Piece) returns (outcome: Outcome)
      requires Valid()
      modifies this
      ensures Valid()
      ensures State() == CastleRook(old(State()), m, mover).board
      ensures outcome == CastleRook(old(State()), m, mover).outcome
    {
      if !(m.isCastling && mover.kind == King) {
        return Done;
      }
      var rookFromPos, rookToPos;
      if m.to.col > m.from.col {
        rookFromPos := Pos(m.from.row, cols - 1);
        rookToPos := Pos(m.from.row, m.to.col - 1);
      } else {
        rookFromPos := Pos(m.from.row, 0);
        rookToPos := Pos(m.from.row, m.to.col + 1);
      }
      if PieceAt(State(), rookFromPos).None? {
        return Done;
      }
      var rook := RemovePiece(rookFromPos);
      outcome := AddPiece(rook, rookToPos);
      if outcome.Done? {
        MarkMovedAt(rookToPos);
      }
    }

    /** The capture stage of performMove, after the mover has been lifted. */
    method TakeCaptureFor(m: Move, mover: Piece) returns (capturedPiece: Option<Piece>)
      requires Valid()
      modifies this
      ensures Valid()
      ensures State() == TakeCapture(old(State()), m, mover).board
      ensures capturedPiece == TakeCapture(old(State()), m, mover).removed
    {
      capturedPiece := None;
      if m.isEnPassant && mover.kind == Pawn {
        var capturedPawnPos := Pos(m.from.row, m.to.col);
        if IsValid(capturedPawnPos, rows, cols) {
          capturedPiece := RemovePiece(capturedPawnPos);
        }
      } else if PieceAt(State(), m.to).Some? {
        capturedPiece := RemovePiece(m.to);
      }
    }

    /** The stages of performMove after the mover has landed. */
    method FinishMove(m: Move, mover: Piece) returns (outcome: Outcome)
      requires Valid() && OnBoard(State(), m.to)
      modifies this
      ensures Valid()
      ensures State() == Finish(old(State()), m, mover).board
      ensures outcome == Finish(old(State()), m, mover).outcome
    {
      PromoteAt(m, mover);
      outcome := HopRook(m, mover);
      if outcome.Failed? {
        return;
      }
      UpdateCastlingRights(m, Some(mover));
    }

    /** performMove. */
    method PerformMove(m: Move) returns (captured: Result<Option<Piece>>)
      requires Valid()
      modifies this
      ensures Valid()
      ensures State() == PerformMoveSpec(old(State()), m).board
      ensures captured == PerformMoveSpec(old(State()), m).captured
    {
      var moving := PieceAt(State(), m.from);
      if moving.None? {
        return Err(NoPieceError(m.from));
      }
      var mover := moving.value;
      var pieceFromSource := RemovePiece(m.from);
      var capturedPiece := TakeCaptureFor(m, mover);
      var added := AddPiece(pieceFromSource, m.to);
      if added.Failed? {
        return Err(added.error);
      }
      MarkMovedAt(m.to);
      var finished := FinishMove(m, mover);
      if finished.Failed? {
        return Err(finished.error);
      }
      captured := Ok(capturedPiece);
    }

    /** updateCastlingRights: nothing without a piece; a king drops both
        rights of its colour, a rook leaving a corner of its own back rank on
        an 8-row board drops that side's right. */
    method UpdateCastlingRights(m: Move, mover: Option<Piece>)
      modifies this
      ensures mover.None? ==> State() == old(State())
      ensures mover.Some? ==> State() == BoardRules.UpdateCastlingRights(old(State()), m, mover.value)
    {
      if mover.None? {
        return;
      }
      var originalPos := m.from;
      var pieceColor := mover.value.color;
      var pieceType := mover.value.kind;
      var whiteBackRank := if rows == 8 then 7 else -1;
      var blackBackRank := if rows == 8 then 0 else -1;
      var queenSideCol := 0;
      var kingSideCol := if cols == 8 then 7 else -1;
      if pieceType == King {
        if pieceColor == White {
          whiteKingside, whiteQueenside := false, false;
        } else {
          blackKingside, blackQueenside := false, false;
        }
      } else if pieceType == Rook {
        if pieceColor == White && originalPos.row == whiteBackRank {
          if originalPos.col == queenSideCol {
            whiteQueenside := false;
          } else if originalPos.col == kingSideCol {
            whiteKingside := false;
          }
        } else if pieceColor == Black && originalPos.row == blackBackRank {
          if originalPos.col == queenSideCol {
            blackQueenside := false;
          } else if originalPos.col == kingSideCol {
            blackKingside := false;
          }
        }
      }
    }

    /** setCastlingRights: both rights of one colour set, the other colour's
        kept. */
    method SetCastlingRights(color: Color, kingside: bool, queenside: bool)
      modifies this
      ensures CanCastleKingside(State(), color) == kingside && CanCastleQueenside(State(), color) == queenside
      ensures CanCastleKingside(State(), Opponent(color)) == CanCastleKingside(old(State()), Opponent(color))
      ensures CanCastleQueenside(State(), Opponent(color)) == CanCastleQueenside(old(State()), Opponent(color))
      ensures State() == old(State()).(whiteKingside := whiteKingside, whiteQueenside := whiteQueenside,
                                       blackKingside := blackKingside, blackQueenside := blackQueenside)
    {
      if color == White {
        whiteKingside, whiteQueenside := kingside, queenside;
      } else {
        blackKingside, blackQueenside := kingside, queenside;
      }
    }

    method SetEnPassantTargetSquare(p: Pos)
      modifies this
      ensures State() == old(State()).(enPassantTarget := p)
    {
      enPassantTarget := p;
    }

    method ClearEnPassantTargetSquare()
      modifies this
      ensures State() == old(State()).(enPassantTarget := NoPos)
    {
      enPassantTarget := Pos(-1, -1);
    }

    method SetLastMove(m: Option<Move>)
      modifies this
      ensures State() == old(State()).(lastMove := m)
      ensures Valid() == old(Valid())
    {
      lastMove := m;
    }

    /** findPieces: a row-major scan collecting the matching pieces. */
    method FindPieces(color: Color, t: PieceType) returns (found: seq<Piece>)
      requires Valid()
      ensures found == BoardQueries.FindPieces(State(), color, t)
    {
      found := [];
      var r := 0;
      while r < rows
        invariant 0 <= r <= rows
        invariant found == Matching(State(), color, t, r)
      {
        var c := 0;
        while c < cols
          invariant 0 <= c <= cols
          invariant found == Matching(State(), color, t, r) + RowMatching(State(), color, t, r, c)
        {
          var p := grid[r][c];
          if p.Some? && p.value.color == color {
            if t == Empty || p.value.kind == t {
              found := found + [p.value];
            }
          }
          c := c + 1;
        }
        r := r + 1;
      }
    }

    /** findKing: the recorded square of the first king of the colour in
        row-major order, or (-1, -1). */
    method FindKing(color: Color) returns (pos: Pos)
      requires Valid()
      ensures pos == BoardQueries.FindKing(State(), color)
    {
      var r := 0;
      while r < rows
        invariant 0 <= r <= rows
        invariant KingFrom(State(), color, r, 0) == KingFrom(State(), color, 0, 0)
      {
        var c := 0;
        while c < cols
          invariant 0 <= c <= cols
          invariant KingFrom(State(), color, r, c) == KingFrom(State(), color, 0, 0)
        {
          var p := grid[r][c];
          if p.Some? && p.value.color == color && p.value.kind == King {
            return p.value.pos;
          }
          c := c + 1;
        }
        r := r + 1;
      }
      return Pos(-1, -1);
    }

    /** The loop of isSquareAttacked over one attacker's pseudo-legal moves. */
    method AttacksFrom(p: Piece, square: Pos) returns (hit: bool)
      requires Valid()
      ensures hit == PieceAttacks(State(), p, square)
    {
      var moves := GetPossibleMoves(State(), p);
      var i := 0;
      while i < |moves|
        invariant 0 <= i <= |moves|
        invariant forall k :: 0 <= k < i ==> !Hits(p, moves[k], square)
      {
        var move := moves[i];
        if p.kind == Pawn {
          var direction := if p.color == White then -1 else 1;
          var currentPawnPos := p.pos;
          if square.row == currentPawnPos.row + direction {
            if square.col == currentPawnPos.col + 1 || square.col == currentPawnPos.col - 1 {
              assert Hits(p, moves[i], square);
              return true;
            }
          }
        } else if move.to == square {
          assert Hits(p, moves[i], square);
          return true;
        }
        i := i + 1;
      }
      return false;
    }

    /** The body of isSquareAttacked's scan for one on-board square. */
    method AttackerAt(q: Pos, square: Pos, attackerColor: Color) returns (hit: bool)
      requires Valid() && OnBoard(State(), q)
      ensures hit == AttackerOn(State(), q, square, attackerColor)
    {
      var p := grid[q.row][q.col];
      hit := false;
      if p.Some? && p.value.color == attackerColor {
        hit := AttacksFrom(p.value, square);
      }
    }

    /** isSquareAttacked: false off the board; otherwise a row-major scan of
        the attacker's pieces and, for each, of its pseudo-legal moves. */
    method IsSquareAttacked(square: Pos, attackerColor: Color) returns (attacked: bool)
      requires Valid()
      ensures attacked == SquareAttacked(State(), square, attackerColor)
    {
      if !IsValid(square, rows, cols) {
        return false;
      }
      ghost var s := State();
      var r := 0;
      while r < rows
        invariant 0 <= r <= rows
        invariant forall i, j :: 0 <= i < r && 0 <= j < cols ==> !AttackerOn(s, Pos(i, j), square, attackerColor)
      {
        var c := 0;
        while c < cols
          invariant 0 <= c <= cols
          invariant forall i, j :: 0 <= i < r && 0 <= j < cols ==> !AttackerOn(s, Pos(i, j), square, attackerColor)
          invariant forall j :: 0 <= j < c ==> !AttackerOn(s, Pos(r, j), square, attackerColor)
        {
          var hit := AttackerAt(Pos(r, c), square, attackerColor);
          if hit {
            return true;
          }
          c := c + 1;
        }
        forall i, j | 0 <= i < r + 1 && 0 <= j < cols
          ensures !AttackerOn(s, Pos(i, j), square, attackerColor)
        {
          if i == r {
            assert !AttackerOn(s, Pos(r, j), square, attackerColor);
          }
        }
        r := r + 1;
      }
      return false;
    }
  }
}
