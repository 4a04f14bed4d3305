/** What the mutating operations of src/core/Board.cpp do to a board, as
    functions on its value. The class Boards.Board is proved to follow them. */
module BoardRules {
  import opened ChessTypes
  import opened Positions
  import opened Moves
  import opened Pieces
  import opened BoardStates

  /** A board with every square empty. */
  function EmptyGrid(rows: nat, cols: nat): (g: seq<seq<Option<Piece>>>)
    ensures |g| == rows && forall r :: 0 <= r < rows ==> |g[r]| == cols
    ensures forall r, c :: 0 <= r < rows && 0 <= c < cols ==> g[r][c] == None
  {
    seq(rows, r => seq(cols, c => None))
  }

  /** initializeEmptyBoard: the grid emptied, all four castling rights
      granted, no en-passant square and no last move. */
  function EmptyBoard(b: BoardState): (r: BoardState)
    requires b.rows >= 0 && b.cols >= 0
  {
    b.(grid := EmptyGrid(b.rows, b.cols),
       whiteKingside := true, whiteQueenside := true, blackKingside := true, blackQueenside := true,
       enPassantTarget := NoPos, lastMove := None)
  }

  lemma EmptyBoardShape(b: BoardState, q: Pos)
    requires b.rows >= 0 && b.cols >= 0
    ensures WellFormed(EmptyBoard(b)) && PieceAt(EmptyBoard(b), q) == None
    ensures var e := EmptyBoard(b);
      e.whiteKingside && e.whiteQueenside && e.blackKingside && e.blackQueenside &&
      e.enPassantTarget == Pos(-1, -1) && e.lastMove == None &&
      e.rows == b.rows && e.cols == b.cols && e.nextPieceId == b.nextPieceId
  {
  }

  // ---------------------------------------------------------------------------
  // The default setup

  /** The back rank from column 0: R N B Q K B N R. */
  function BackRank(c: int): PieceKind
  {
    if c == 0 || c == 7 then Rook
    else if c == 1 || c == 6 then Knight
    else if c == 2 || c == 5 then Bishop
    else if c == 3 then Queen
    else King
  }

  /** The setup rows: 0 and 1 are Black's, 6 and 7 White's. */
  predicate SetupRow(r: int)
  {
    r == 0 || r == 1 || r == 6 || r == 7
  }

  function SetupKind(r: int, c: int): PieceKind
  {
    if r == 1 || r == 6 then Pawn else BackRank(c)
  }

  function SetupColor(r: int): Color
  {
    if r <= 1 then Black else White
  }

  /** How many pieces initializeDefaultSetup has made before row r: it fills
      row 0, row 1, row 6 and row 7, in that order. */
  function RowStart(r: int): int
  {
    if r == 0 then 0 else if r == 1 then 8 else if r == 6 then 16 else 24
  }

  /** The piece initializeDefaultSetup puts on (r, c) when the id counter
      started at `base`: each piece takes the next id. */
  function DefaultSquare(r: int, c: int, base: int): Option<Piece>
  {
    if SetupRow(r) then Some(NewPiece(SetupKind(r, c), SetupColor(r), Pos(r, c), base + RowStart(r) + c))
    else None
  }

  function DefaultGrid(base: int): (g: seq<seq<Option<Piece>>>)
    ensures |g| == 8 && forall r :: 0 <= r < 8 ==> |g[r]| == 8
    ensures forall r, c :: 0 <= r < 8 && 0 <= c < 8 ==> g[r][c] == DefaultSquare(r, c, base)
  {
    seq(8, r => seq(8, c => DefaultSquare(r, c, base)))
  }

  const SetupMessage: string := "Default setup is designed for 8x8 board."

  datatype Setup = Setup(board: BoardState, outcome: Outcome)

  /** initializeDefaultSetup: the board is emptied first; a board that is not
      8x8 then throws, otherwise the 32 pieces are placed. */
  function DefaultSetup(b: BoardState): Setup
    requires b.rows >= 0 && b.cols >= 0
  {
    var e := EmptyBoard(b);
    if b.rows != 8 || b.cols != 8 then Setup(e, Failed(RuntimeError(SetupMessage)))
    else Setup(e.(grid := DefaultGrid(b.nextPieceId), nextPieceId := b.nextPieceId + 32), Done)
  }

  predicate IsKingOf(b: BoardState, q: Pos, color: Color)
    requires WellFormed(b)
  {
    PieceAt(b, q).Some? && PieceAt(b, q).value.kind == King && PieceAt(b, q).value.color == color
  }

  /** The default setup fails exactly off 8x8. On 8x8 it is the standard
      opening position: Black on rows 0 and 1, White on rows 6 and 7, rows 2
      to 5 empty, every piece unmoved and recording its own square, exactly one
      king of each colour on column 4, all four castling rights granted. */
  lemma DefaultSetupShape(b: BoardState)
    requires b.rows >= 0 && b.cols >= 0
    ensures DefaultSetup(b).outcome.Failed? <==> !(b.rows == 8 && b.cols == 8)
    ensures DefaultSetup(b).outcome.Failed? ==>
      DefaultSetup(b).board == EmptyBoard(b) && DefaultSetup(b).outcome.error == RuntimeError(SetupMessage)
    ensures var s := DefaultSetup(b).board;
      DefaultSetup(b).outcome.Done? ==>
        WellFormed(s) && Consistent(s) &&
        s.whiteKingside && s.whiteQueenside && s.blackKingside && s.blackQueenside &&
        s.enPassantTarget == NoPos && s.lastMove == None &&
        (forall q: Pos :: 2 <= q.row <= 5 ==> PieceAt(s, q) == None) &&
        (forall q: Pos :: OnBoard(s, q) && (q.row <= 1 || q.row >= 6) ==>
          PieceAt(s, q).Some? && !PieceAt(s, q).value.hasMoved &&
          (PieceAt(s, q).value.color == Black <==> q.row <= 1) &&
          (PieceAt(s, q).value.kind == Pawn <==> q.row == 1 || q.row == 6)) &&
        (forall q :: IsKingOf(s, q, White) <==> q == Pos(7, 4)) &&
        (forall q :: IsKingOf(s, q, Black) <==> q == Pos(0, 4))
  {
    if b.rows == 8 && b.cols == 8 {
      var s := DefaultSetup(b).board;
      DefaultPlacement(b, s);
      DefaultKings(b, s);
    }
  }

  /** Where the pieces of the set-up board stand, and that they record their squares. */
  lemma DefaultPlacement(b: BoardState, s: BoardState)
    requires b.rows == 8 && b.cols == 8 && s == DefaultSetup(b).board
    ensures WellFormed(s) && Consistent(s)
    ensures forall q: Pos :: 2 <= q.row <= 5 ==> PieceAt(s, q) == None
    ensures forall q: Pos :: OnBoard(s, q) && (q.row <= 1 || q.row >= 6) ==>
          PieceAt(s, q).Some? && !PieceAt(s, q).value.hasMoved &&
          (PieceAt(s, q).value.color == Black <==> q.row <= 1) &&
          (PieceAt(s, q).value.kind == Pawn <==> q.row == 1 || q.row == 6)
  {
    DefaultSquares(b, s);
  }

  /** The set-up board has one king of each colour, on column 4 of its back rank. */
  lemma DefaultKings(b: BoardState, s: BoardState)
    requires b.rows == 8 && b.cols == 8 && s == DefaultSetup(b).board
    ensures WellFormed(s)
    ensures forall q :: IsKingOf(s, q, White) <==> q == Pos(7, 4)
    ensures forall q :: IsKingOf(s, q, Black) <==> q == Pos(0, 4)
  {
    DefaultSquares(b, s);
  }

  /** Each square of the set-up board holds its default piece. */
  lemma DefaultSquares(b: BoardState, s: BoardState)
    requires b.rows == 8 && b.cols == 8 && s == DefaultSetup(b).board
    ensures WellFormed(s) && s.rows == 8 && s.cols == 8
    ensures forall q: Pos :: PieceAt(s, q) == if OnBoard(s, q) then DefaultSquare(q.row, q.col, b.nextPieceId) else None
  {
  }

  /** The ids of the setup pieces are distinct, increasing in construction order. */
  lemma DefaultSetupIds(base: int, r1: int, c1: int, r2: int, c2: int)
    requires SetupRow(r1) && SetupRow(r2) && 0 <= c1 < 8 && 0 <= c2 < 8
    requires r1 < r2 || (r1 == r2 && c1 < c2)
    ensures DefaultSquare(r1, c1, base).value.id < DefaultSquare(r2, c2, base).value.id
  {
  }

  /** Consistency stated square by square. */
  ghost predicate ConsistentSquares(b: BoardState)
    requires WellFormed(b)
  {
    forall q :: PieceAt(b, q).Some? ==> PieceAt(b, q).value.pos == q
  }

  lemma ConsistentAt(b: BoardState)
    requires WellFormed(b)
    ensures Consistent(b) <==> ConsistentSquares(b)
  {
    if Consistent(b) {
      forall q | PieceAt(b, q).Some?
        ensures PieceAt(b, q).value.pos == q
      {
        assert b.grid[q.row][q.col].Some?;
      }
    }
    if ConsistentSquares(b) {
      forall r, c | 0 <= r < b.rows && 0 <= c < b.cols && b.grid[r][c].Some?
        ensures b.grid[r][c].value.pos == Pos(r, c)
      {
        assert PieceAt(b, Pos(r, c)).Some?;
      }
    }
  }

  // ---------------------------------------------------------------------------
  // Adding and removing pieces

  datatype Removal = Removal(board: BoardState, removed: Option<Piece>)

  /** removePiece: the occupant of an on-board square is taken off and returned;
      an off-board or empty square gives nothing and changes nothing. */
  function RemoveSpec(b: BoardState, p: Pos): (r: Removal)
    requires WellFormed(b)
    ensures WellFormed(r.board) && r.board == b.(grid := r.board.grid)
    ensures r.removed == PieceAt(b, p)
    ensures PieceAt(r.board, p) == None
    ensures forall q :: q != p ==> PieceAt(r.board, q) == PieceAt(b, q)
    ensures ConsistentSquares(b) ==> ConsistentSquares(r.board)
  {
    if !OnBoard(b, p) || PieceAt(b, p).None? then Removal(b, None)
    else Removal(SetSquare(b, p, None), PieceAt(b, p))
  }

  const AddMessage: string := "Position out of board bounds in addPiece."

  /** addPiece: throws out_of_range off the board; otherwise stores the piece,
      its recorded square set to `p`, or empties the square when given none. */
  function AddSpec(b: BoardState, piece: Option<Piece>, p: Pos): (r: Result<BoardState>)
    requires WellFormed(b)
    ensures r.Err? <==> !OnBoard(b, p)
    ensures r.Err? ==> r.error == OutOfRange(AddMessage)
    ensures r.Ok? ==> WellFormed(r.value) && r.value == b.(grid := r.value.grid)
    ensures r.Ok? ==> PieceAt(r.value, p) == (if piece.Some? then Some(WithPosition(piece.value, p)) else None)
    ensures r.Ok? ==> forall q :: q != p ==> PieceAt(r.value, q) == PieceAt(b, q)
    ensures r.Ok? && ConsistentSquares(b) ==> ConsistentSquares(r.value)
  {
    if !OnBoard(b, p) then Err(OutOfRange(AddMessage))
    else if piece.Some? then Ok(SetSquare(b, p, Some(WithPosition(piece.value, p))))
    else Ok(SetSquare(b, p, None))
  }

  /** setHasMoved(true) on whatever stands on an on-board square. */
  function MarkMoved(b: BoardState, p: Pos): (r: BoardState)
    requires WellFormed(b) && OnBoard(b, p)
    ensures WellFormed(r) && r == b.(grid := r.grid)
    ensures PieceAt(r, p) == (if PieceAt(b, p).Some? then Some(WithHasMoved(PieceAt(b, p).value, true)) else None)
    ensures forall q :: q != p ==> PieceAt(r, q) == PieceAt(b, q)
    ensures ConsistentSquares(b) ==> ConsistentSquares(r)
  {
    if PieceAt(b, p).Some? then SetSquare(b, p, Some(WithHasMoved(PieceAt(b, p).value, true))) else b
  }

  // ---------------------------------------------------------------------------
  // performMove, stage by stage

  function NoPieceError(from: Pos): Error
  {
    RuntimeError("performMove: No piece at source square " + ToAlgebraic(from))
  }

  /** The square whose occupant the move captures: beside the pawn, on the
      origin row and the target column, for a pawn move flagged en passant;
      the target otherwise. */
  function VictimSquare(m: Move, mover: Piece): Pos
  {
    if m.isEnPassant && mover.kind == Pawn then Pos(m.from.row, m.to.col) else m.to
  }

  /** The capture stage, after the mover has left its square. */
  function TakeCapture(b: BoardState, m: Move, mover: Piece): (r: Removal)
    requires WellFormed(b)
    ensures r == RemoveSpec(b, VictimSquare(m, mover))
  {
    if m.isEnPassant && mover.kind == Pawn then
      var victim := Pos(m.from.row, m.to.col);
      if OnBoard(b, victim) then RemoveSpec(b, victim) else Removal(b, None)
    else if PieceAt(b, m.to).Some? then RemoveSpec(b, m.to)
    else Removal(b, None)
  }

  /** A pawn reaching the far row: row 0 for White, the last row for Black. */
  predicate AtPromotionRank(b: BoardState, m: Move, color: Color)
  {
    (color == White && m.to.row == 0) || (color == Black && m.to.row == b.rows - 1)
  }

  /** The piece a promotion creates, if any: only a pawn move with a queen,
      rook, bishop or knight promotion that reaches the far row; it takes the
      next id and counts as having moved. */
  function PromotedPiece(b: BoardState, m: Move, mover: Piece): (r: Option<Piece>)
    ensures r.Some? ==> r.value.kind == m.promotion && r.value.color == mover.color &&
                        r.value.pos == m.to && r.value.hasMoved && r.value.id == b.nextPieceId
  {
    if m.promotion != Empty && mover.kind == Pawn && AtPromotionRank(b, m, mover.color) &&
       m.promotion in {Queen, Rook, Bishop, Knight}
    then Some(WithHasMoved(NewPiece(m.promotion, mover.color, m.to, b.nextPieceId), true))
    else None
  }

  function Promote(b: BoardState, m: Move, mover: Piece): (r: BoardState)
    requires WellFormed(b) && OnBoard(b, m.to)
    ensures WellFormed(r) && r == b.(grid := r.grid, nextPieceId := r.nextPieceId)
    ensures PromotedPiece(b, m, mover).None? ==> r == b
    ensures PromotedPiece(b, m, mover).Some? ==>
      PieceAt(r, m.to) == PromotedPiece(b, m, mover) && r.nextPieceId == b.nextPieceId + 1
    ensures forall q :: q != m.to ==> PieceAt(r, q) == PieceAt(b, q)
    ensures ConsistentSquares(b) ==> ConsistentSquares(r)
  {
    match PromotedPiece(b, m, mover)
    case None => b
    case Some(q) => SetSquare(b, m.to, Some(q)).(nextPieceId := b.nextPieceId + 1)
  }

  /** Where a castling move takes the rook from and to: from the last column to
      the square left of the king's target when the king goes right, from
      column 0 to the square right of it otherwise. */
  function RookFrom(b: BoardState, m: Move): Pos
  {
    if m.to.col > m.from.col then Pos(m.from.row, b.cols - 1) else Pos(m.from.row, 0)
  }

  function RookTo(m: Move): Pos
  {
    if m.to.col > m.from.col then Pos(m.from.row, m.to.col - 1) else Pos(m.from.row, m.to.col + 1)
  }

  /** The rook hop of a castling-flagged king move. */
  function CastleRook(b: BoardState, m: Move, mover: Piece): (r: Setup)
    requires WellFormed(b)
    ensures WellFormed(r.board) && r.board == b.(grid := r.board.grid)
    ensures forall q :: q != RookFrom(b, m) && q != RookTo(m) ==> PieceAt(r.board, q) == PieceAt(b, q)
    ensures ConsistentSquares(b) ==> ConsistentSquares(r.board)
  {
    if !(m.isCastling && mover.kind == King) then Setup(b, Done)
    else
      var rookFrom := RookFrom(b, m);
      if PieceAt(b, rookFrom).None? then Setup(b, Done)
      else
        var lifted := RemoveSpec(b, rookFrom);
        match AddSpec(lifted.board, lifted.removed, RookTo(m))
        case Err(e) => Setup(lifted.board, Failed(e))
        case Ok(placed) => Setup(MarkMoved(placed, RookTo(m)), Done)
  }

  /** updateCastlingRights: a king gives up both rights of its colour; on an
      8-row board a rook leaving column 0 or column 7 (when the board has 8
      columns) of its own back rank gives up that side's right. */
  function UpdateCastlingRights(b: BoardState, m: Move, mover: Piece): (r: BoardState)
    ensures r == b.(whiteKingside := r.whiteKingside, whiteQueenside := r.whiteQueenside,
                    blackKingside := r.blackKingside, blackQueenside := r.blackQueenside)
  {
    var whiteBackRank := if b.rows == 8 then 7 else -1;
    var blackBackRank := if b.rows == 8 then 0 else -1;
    var kingSideCol := if b.cols == 8 then 7 else -1;
    if mover.kind == King then
      if mover.color == White then b.(whiteKingside := false, whiteQueenside := false)
      else b.(blackKingside := false, blackQueenside := false)
    else if mover.kind == Rook then
      if mover.color == White && m.from.row == whiteBackRank then
        if m.from.col == 0 then b.(whiteQueenside := false)
        else if m.from.col == kingSideCol then b.(whiteKingside := false)
        else b
      else if mover.color == Black && m.from.row == blackBackRank then
        if m.from.col == 0 then b.(blackQueenside := false)
        else if m.from.col == kingSideCol then b.(blackKingside := false)
        else b
      else b
    else b
  }

  /** The stages after the mover has landed: promotion, the rook hop, and the
      castling rights (skipped when the rook hop throws). */
  function Finish(b: BoardState, m: Move, mover: Piece): (r: Setup)
    requires WellFormed(b) && OnBoard(b, m.to)
    ensures WellFormed(r.board) && r.board.rows == b.rows && r.board.cols == b.cols
    ensures ConsistentSquares(b) ==> ConsistentSquares(r.board)
  {
    var promoted := Promote(b, m, mover);
    var castled := CastleRook(promoted, m, mover);
    if castled.outcome.Failed? then castled
    else
      var r := UpdateCastlingRights(castled.board, m, mover);
      assert forall q :: PieceAt(r, q) == PieceAt(castled.board, q);
      Setup(r, Done)
  }

  /** canCastleKingside / canCastleQueenside: the flag of the colour. */
  function CanCastleKingside(b: BoardState, color: Color): bool
  {
    if color == White then b.whiteKingside else b.blackKingside
  }

  function CanCastleQueenside(b: BoardState, color: Color): bool
  {
    if color == White then b.whiteQueenside else b.blackQueenside
  }

  datatype MoveResult = MoveResult(board: BoardState, captured: Result<Option<Piece>>)

  /** performMove: lift the mover, take the captured piece, put the mover on
      the target and mark it moved, replace a promoting pawn, hop the rook of
      a castling king, then lower the castling rights. An exception leaves
      the board as far as it got. */
  function PerformMoveSpec(b: BoardState, m: Move): (r: MoveResult)
    requires WellFormed(b)
    ensures WellFormed(r.board) && r.board.rows == b.rows && r.board.cols == b.cols
    ensures ConsistentSquares(b) ==> ConsistentSquares(r.board)
  {
    match PieceAt(b, m.from)
    case None => MoveResult(b, Err(NoPieceError(m.from)))
    case Some(mover) =>
      var lifted := RemoveSpec(b, m.from).board;
      var taken := TakeCapture(lifted, m, mover);
      match AddSpec(taken.board, Some(mover), m.to)
      case Err(e) => MoveResult(taken.board, Err(e))
      case Ok(placed) =>
        var finished := Finish(MarkMoved(placed, m.to), m, mover);
        MoveResult(finished.board, if finished.outcome.Failed? then Err(finished.outcome.error) else Ok(taken.removed))
  }

  // ---------------------------------------------------------------------------
  // Properties of performMove

  /** Castling rights only ever go from granted to withdrawn. */
  predicate RightsNotRegained(before: BoardState, after: BoardState)
  {
    (after.whiteKingside ==> before.whiteKingside) && (after.whiteQueenside ==> before.whiteQueenside) &&
    (after.blackKingside ==> before.blackKingside) && (after.blackQueenside ==> before.blackQueenside)
  }

  /** Which rights a move withdraws: both of the king's colour for a king move;
      on 8x8, a rook leaving a corner of its own back rank withdraws the
      right of that corner; nothing else withdraws anything. */
  lemma UpdateCastlingRightsEffect(b: BoardState, m: Move, mover: Piece)
    ensures var r := UpdateCastlingRights(b, m, mover);
      RightsNotRegained(b, r) &&
      (mover.kind == King ==>
        if mover.color == White then !r.whiteKingside && !r.whiteQueenside &&
                                     r.blackKingside == b.blackKingside && r.blackQueenside == b.blackQueenside
        else !r.blackKingside && !r.blackQueenside &&
             r.whiteKingside == b.whiteKingside && r.whiteQueenside == b.whiteQueenside) &&
      (mover.kind != King && mover.kind != Rook ==> r == b) &&
      (mover.kind == Rook && b.rows == 8 && b.cols == 8 ==>
        r.whiteQueenside == (b.whiteQueenside && !(mover.color == White && m.from == Pos(7, 0))) &&
        r.whiteKingside == (b.whiteKingside && !(mover.color == White && m.from == Pos(7, 7))) &&
        r.blackQueenside == (b.blackQueenside && !(mover.color == Black && m.from == Pos(0, 0))) &&
        r.blackKingside == (b.blackKingside && !(mover.color == Black && m.from == Pos(0, 7)))) &&
      (mover.kind == Rook && b.rows != 8 && 0 <= m.from.row ==> r == b)
  {
  }

  /** On a board of 8 rows but not 8 columns the back ranks keep their rows
      and the queenside corner its column 0, while the kingside column is the
      sentinel -1, which no square on the board has. So a rook leaving (7,0)
      or (0,0) still withdraws its colour's queenside right, and a rook
      leaving a square of the board never withdraws a kingside right. */
  lemma RookRightsOffEightColumns(b: BoardState, m: Move, mover: Piece)
    requires mover.kind == Rook && b.rows == 8 && b.cols != 8 && 0 <= m.from.col
    ensures var r := UpdateCastlingRights(b, m, mover);
      r.whiteQueenside == (b.whiteQueenside && !(mover.color == White && m.from == Pos(7, 0))) &&
      r.blackQueenside == (b.blackQueenside && !(mover.color == Black && m.from == Pos(0, 0))) &&
      r.whiteKingside == b.whiteKingside && r.blackKingside == b.blackKingside
  {
  }

  /** performMove throws exactly when the origin is empty (runtime_error, board
      untouched) or the target is off the board (out_of_range), or when a
      castling rook cannot be put down. */
  lemma PerformMoveErrors(b: BoardState, m: Move)
    requires WellFormed(b)
    ensures PieceAt(b, m.from).None? ==>
      PerformMoveSpec(b, m) == MoveResult(b, Err(NoPieceError(m.from)))
    ensures PieceAt(b, m.from).Some? && !OnBoard(b, m.to) ==>
      PerformMoveSpec(b, m).captured == Err(OutOfRange(AddMessage))
    ensures PieceAt(b, m.from).Some? && OnBoard(b, m.to) && !(m.isCastling && PieceAt(b, m.from).value.kind == King) ==>
      PerformMoveSpec(b, m).captured.Ok?
  {
  }

  /** The one other exception: a castling-flagged king move whose corner holds
      a piece that would hop to a square off the board. */
  lemma PerformMoveCastlingThrows(b: BoardState, m: Move)
    requires WellFormed(b) && PieceAt(b, m.from).Some? && PieceAt(b, m.from).value.kind == King
    requires OnBoard(b, m.to) && m.from != m.to && m.isCastling
    ensures PerformMoveSpec(b, m).captured.Err? <==>
      PieceAt(b, RookFrom(b, m)).Some? && RookFrom(b, m) != m.from && !OnBoard(b, RookTo(m))
  {
    var mover := PieceAt(b, m.from).value;
    var lifted := RemoveSpec(b, m.from).board;
    var taken := TakeCapture(lifted, m, mover);
    assert taken == RemoveSpec(lifted, m.to);
    var placed := AddSpec(taken.board, Some(mover), m.to).value;
    var moved := MarkMoved(placed, m.to);
    var rookFrom := RookFrom(b, m);
    assert RookFrom(moved, m) == rookFrom;
    assert PromotedPiece(moved, m, mover).None?;
    assert Promote(moved, m, mover) == moved;
    var corner := PieceAt(moved, rookFrom);
    assert Finish(moved, m, mover).outcome.Failed? <==> corner.Some? && !OnBoard(b, RookTo(m));
    if rookFrom == m.to {
      assert OnBoard(b, RookTo(m));
    } else if rookFrom == m.from {
      assert corner == None;
    } else {
      assert corner == PieceAt(b, rookFrom);
    }
  }

  /** An ordinary move of an on-board piece (not castling, not a promotion
      that creates a piece): the origin is emptied, the target holds the mover
      marked as moved, the captured piece is what stood on the victim square,
      and every other square is unchanged. */
  lemma PerformMovePlain(b: BoardState, m: Move)
    requires WellFormed(b) && PieceAt(b, m.from).Some? && OnBoard(b, m.to) && m.to != m.from
    requires !m.isCastling || PieceAt(b, m.from).value.kind != King
    requires PromotedPiece(b, m, PieceAt(b, m.from).value).None?
    ensures var mover := PieceAt(b, m.from).value;
      var r := PerformMoveSpec(b, m);
      var victim := VictimSquare(m, mover);
      r.captured == Ok(if victim == m.from then None else PieceAt(b, victim)) &&
      PieceAt(r.board, m.from) == None &&
      PieceAt(r.board, m.to) == Some(mover.(pos := m.to, hasMoved := true)) &&
      (forall q :: q != m.from && q != m.to && q != victim ==> PieceAt(r.board, q) == PieceAt(b, q)) &&
      (victim != m.to ==> PieceAt(r.board, victim) == None) &&
      r.board.enPassantTarget == b.enPassantTarget && r.board.lastMove == b.lastMove &&
      r.board.nextPieceId == b.nextPieceId && RightsNotRegained(b, r.board)
  {
    var mover := PieceAt(b, m.from).value;
    UpdateCastlingRightsEffect(PerformMoveSpec(b, m).board, m, mover);
    var lifted := RemoveSpec(b, m.from).board;
    var taken := TakeCapture(lifted, m, mover);
    var placed := AddSpec(taken.board, Some(mover), m.to).value;
    var moved := MarkMoved(placed, m.to);
    assert Promote(moved, m, mover) == moved;
    assert CastleRook(moved, m, mover) == Setup(moved, Done);
    UpdateCastlingRightsEffect(moved, m, mover);
  }

  /** A promotion: the target holds a new piece of the promotion kind and the
      pawn's colour, marked as moved and taking the next id; the pawn is gone. */
  lemma PerformMovePromotion(b: BoardState, m: Move)
    requires WellFormed(b) && PieceAt(b, m.from).Some? && OnBoard(b, m.to) && m.to != m.from
    requires PromotedPiece(b, m, PieceAt(b, m.from).value).Some?
    ensures var mover := PieceAt(b, m.from).value;
      var r := PerformMoveSpec(b, m);
      mover.kind == Pawn && m.promotion in {Queen, Rook, Bishop, Knight} &&
      r.captured.Ok? && PieceAt(r.board, m.from) == None &&
      PieceAt(r.board, m.to) == Some(Piece(m.promotion, mover.color, m.to, true, b.nextPieceId)) &&
      r.board.nextPieceId == b.nextPieceId + 1 &&
      (forall q :: q != m.from && q != m.to && q != VictimSquare(m, mover) ==> PieceAt(r.board, q) == PieceAt(b, q))
  {
    var mover := PieceAt(b, m.from).value;
    var lifted := RemoveSpec(b, m.from).board;
    var taken := TakeCapture(lifted, m, mover);
    var placed := AddSpec(taken.board, Some(mover), m.to).value;
    var moved := MarkMoved(placed, m.to);
    var promoted := Promote(moved, m, mover);
    assert PromotedPiece(moved, m, mover) == PromotedPiece(b, m, mover);
    assert CastleRook(promoted, m, mover) == Setup(promoted, Done);
    assert UpdateCastlingRights(promoted, m, mover) == promoted;
  }

  /** The rook hop on its own: whatever stands on the corner moves to the
      square beside the king's target and is marked as moved. */
  lemma CastleRookHop(b: BoardState, m: Move, mover: Piece)
    requires WellFormed(b) && m.isCastling && mover.kind == King
    requires OnBoard(b, RookTo(m)) && RookFrom(b, m) != RookTo(m)
    ensures var r := CastleRook(b, m, mover);
      var corner := PieceAt(b, RookFrom(b, m));
      r.outcome == Done &&
      PieceAt(r.board, RookTo(m)) == (if corner.Some? then Some(corner.value.(pos := RookTo(m), hasMoved := true)) else PieceAt(b, RookTo(m))) &&
      (corner.Some? ==> PieceAt(r.board, RookFrom(b, m)) == None)
  {
  }

  /** A castling-flagged king move two columns along its row: the king lands
      on the target marked as moved, and whatever stood on the corner on that
      side lands beside it, on the square the king passed, marked as moved. */
  lemma PerformMoveCastling(b: BoardState, m: Move)
    requires WellFormed(b) && PieceAt(b, m.from).Some? && PieceAt(b, m.from).value.kind == King
    requires m.isCastling && OnBoard(b, m.to) && m.to.row == m.from.row
    requires m.to.col == m.from.col + 2 || m.to.col == m.from.col - 2
    requires RookFrom(b, m) != m.from && RookFrom(b, m) != m.to && PieceAt(b, m.to).None?
    ensures var king := PieceAt(b, m.from).value;
      var r := PerformMoveSpec(b, m);
      var rookTo := RookTo(m);
      var corner := PieceAt(b, RookFrom(b, m));
      r.captured == Ok(None) &&
      PieceAt(r.board, m.from) == None &&
      PieceAt(r.board, m.to) == Some(king.(pos := m.to, hasMoved := true)) &&
      PieceAt(r.board, rookTo) == (if corner.Some? then Some(corner.value.(pos := rookTo, hasMoved := true)) else PieceAt(b, rookTo)) &&
      (corner.Some? ==> PieceAt(r.board, RookFrom(b, m)) == None) &&
      (forall q :: q != m.from && q != m.to && q != rookTo && q != RookFrom(b, m) ==> PieceAt(r.board, q) == PieceAt(b, q)) &&
      (if king.color == White then !r.board.whiteKingside && !r.board.whiteQueenside
       else !r.board.blackKingside && !r.board.blackQueenside)
  {
    var king := PieceAt(b, m.from).value;
    var rookFrom, rookTo := RookFrom(b, m), RookTo(m);
    var moved := CastlingKingLands(b, m);
    assert Promote(moved, m, king) == moved;
    assert RookFrom(moved, m) == rookFrom;
    var castled := CastleRook(moved, m, king);
    CastleRookHop(moved, m, king);
    FinishStages(moved, m, king);
    PerformMoveStages(b, m);
    UpdateCastlingRightsEffect(castled.board, m, king);
    var finished := Finish(moved, m, king);
    assert forall q :: PieceAt(finished.board, q) == PieceAt(castled.board, q);
  }

  /** The first stages of a castling move: the king lands on its target,
      marked as moved, nothing is captured and no other square changes. */
  lemma CastlingKingLands(b: BoardState, m: Move) returns (moved: BoardState)
    requires WellFormed(b) && PieceAt(b, m.from).Some? && PieceAt(b, m.from).value.kind == King
    requires m.isCastling && OnBoard(b, m.to) && m.to.row == m.from.row
    requires m.to.col == m.from.col + 2 || m.to.col == m.from.col - 2
    requires RookFrom(b, m) != m.from && RookFrom(b, m) != m.to && PieceAt(b, m.to).None?
    ensures var king := PieceAt(b, m.from).value;
      var taken := TakeCapture(RemoveSpec(b, m.from).board, m, king);
      taken.removed == None &&
      AddSpec(taken.board, Some(king), m.to).Ok? &&
      moved == MarkMoved(AddSpec(taken.board, Some(king), m.to).value, m.to) &&
      WellFormed(moved) && moved == b.(grid := moved.grid) &&
      PieceAt(moved, m.from) == None &&
      PieceAt(moved, m.to) == Some(king.(pos := m.to, hasMoved := true)) &&
      PromotedPiece(moved, m, king).None? &&
      OnBoard(moved, RookTo(m)) && RookTo(m) != m.to && RookTo(m) != m.from &&
      forall q :: q != m.from && q != m.to ==> PieceAt(moved, q) == PieceAt(b, q)
  {
    var king := PieceAt(b, m.from).value;
    var lifted := RemoveSpec(b, m.from).board;
    var taken := TakeCapture(lifted, m, king);
    assert taken.board == lifted && taken.removed == None;
    var placed := AddSpec(taken.board, Some(king), m.to).value;
    moved := MarkMoved(placed, m.to);
  }

  /** performMove keeps every piece recording the square it stands on. */
  lemma PerformMoveConsistent(b: BoardState, m: Move)
    requires WellFormed(b) && Consistent(b)
    ensures Consistent(PerformMoveSpec(b, m).board)
  {
    ConsistentAt(b);
    ConsistentAt(PerformMoveSpec(b, m).board);
  }

  /** The board with another en-passant square and last move. */
  function WithHistory(b: BoardState, ep: Pos, last: Option<Move>): BoardState
  {
    b.(enPassantTarget := ep, lastMove := last)
  }

  lemma RemoveIgnoresHistory(b: BoardState, p: Pos, ep: Pos, last: Option<Move>)
    requires WellFormed(b)
    ensures RemoveSpec(WithHistory(b, ep, last), p) ==
            Removal(WithHistory(RemoveSpec(b, p).board, ep, last), RemoveSpec(b, p).removed)
  {
  }

  lemma AddIgnoresHistory(b: BoardState, piece: Option<Piece>, p: Pos, ep: Pos, last: Option<Move>)
    requires WellFormed(b) && OnBoard(b, p)
    ensures AddSpec(WithHistory(b, ep, last), piece, p) == Ok(WithHistory(AddSpec(b, piece, p).value, ep, last))
  {
  }

  lemma CastleRookIgnoresHistory(b: BoardState, m: Move, mover: Piece, ep: Pos, last: Option<Move>)
    requires WellFormed(b)
    ensures CastleRook(WithHistory(b, ep, last), m, mover) ==
            Setup(WithHistory(CastleRook(b, m, mover).board, ep, last), CastleRook(b, m, mover).outcome)
  {
    var h := WithHistory(b, ep, last);
    var rookFrom := RookFrom(b, m);
    assert RookFrom(h, m) == rookFrom && PieceAt(h, rookFrom) == PieceAt(b, rookFrom);
    if m.isCastling && mover.kind == King && PieceAt(b, rookFrom).Some? {
      RemoveIgnoresHistory(b, rookFrom, ep, last);
      var lifted := RemoveSpec(b, rookFrom);
      if OnBoard(b, RookTo(m)) {
        AddIgnoresHistory(lifted.board, lifted.removed, RookTo(m), ep, last);
        var placed := AddSpec(lifted.board, lifted.removed, RookTo(m)).value;
        assert MarkMoved(WithHistory(placed, ep, last), RookTo(m)) == WithHistory(MarkMoved(placed, RookTo(m)), ep, last);
      }
    }
  }

  lemma PromoteIgnoresHistory(b: BoardState, m: Move, mover: Piece, ep: Pos, last: Option<Move>)
    requires WellFormed(b) && OnBoard(b, m.to)
    ensures Promote(WithHistory(b, ep, last), m, mover) == WithHistory(Promote(b, m, mover), ep, last)
  {
    assert PromotedPiece(WithHistory(b, ep, last), m, mover) == PromotedPiece(b, m, mover);
  }

  lemma RightsIgnoreHistory(b: BoardState, m: Move, mover: Piece, ep: Pos, last: Option<Move>)
    ensures UpdateCastlingRights(WithHistory(b, ep, last), m, mover) ==
            WithHistory(UpdateCastlingRights(b, m, mover), ep, last)
  {
    RightsReadRights(b, WithHistory(b, ep, last), m, mover);
  }

  /** The rights after a move depend on the board only through its size and
      its rights before. */
  lemma RightsReadRights(b: BoardState, c: BoardState, m: Move, mover: Piece)
    requires b.rows == c.rows && b.cols == c.cols
    requires b.whiteKingside == c.whiteKingside && b.whiteQueenside == c.whiteQueenside
    requires b.blackKingside == c.blackKingside && b.blackQueenside == c.blackQueenside
    ensures var rb, rc := UpdateCastlingRights(b, m, mover), UpdateCastlingRights(c, m, mover);
      rb.whiteKingside == rc.whiteKingside && rb.whiteQueenside == rc.whiteQueenside &&
      rb.blackKingside == rc.blackKingside && rb.blackQueenside == rc.blackQueenside
  {
  }

  /** The three stages of Finish, one after the other. */
  lemma FinishStages(b: BoardState, m: Move, mover: Piece)
    requires WellFormed(b) && OnBoard(b, m.to)
    ensures var castled := CastleRook(Promote(b, m, mover), m, mover);
      Finish(b, m, mover) ==
        if castled.outcome.Failed? then castled
        else Setup(UpdateCastlingRights(castled.board, m, mover), Done)
  {
  }

  lemma FinishIgnoresHistory(b: BoardState, m: Move, mover: Piece, ep: Pos, last: Option<Move>)
    requires WellFormed(b) && OnBoard(b, m.to)
    ensures Finish(WithHistory(b, ep, last), m, mover) ==
            Setup(WithHistory(Finish(b, m, mover).board, ep, last), Finish(b, m, mover).outcome)
  {
    var h := WithHistory(b, ep, last);
    PromoteIgnoresHistory(b, m, mover, ep, last);
    var promoted := Promote(b, m, mover);
    CastleRookIgnoresHistory(promoted, m, mover, ep, last);
    var castled := CastleRook(promoted, m, mover);
    RightsIgnoreHistory(castled.board, m, mover, ep, last);
    FinishStages(b, m, mover);
    FinishStages(h, m, mover);
  }

  /** The stages of performMove for an origin that holds a piece. */
  lemma PerformMoveStages(b: BoardState, m: Move)
    requires WellFormed(b) && PieceAt(b, m.from).Some?
    ensures var mover := PieceAt(b, m.from).value;
      var taken := TakeCapture(RemoveSpec(b, m.from).board, m, mover);
      PerformMoveSpec(b, m) ==
        match AddSpec(taken.board, Some(mover), m.to)
        case Err(e) => MoveResult(taken.board, Err(e))
        case Ok(placed) =>
          var finished := Finish(MarkMoved(placed, m.to), m, mover);
          MoveResult(finished.board, if finished.outcome.Failed? then Err(finished.outcome.error) else Ok(taken.removed))
  {
  }

  lemma MarkMovedIgnoresHistory(b: BoardState, p: Pos, ep: Pos, last: Option<Move>)
    requires WellFormed(b) && OnBoard(b, p)
    ensures MarkMoved(WithHistory(b, ep, last), p) == WithHistory(MarkMoved(b, p), ep, last)
  {
  }

  /** performMove reads neither the en-passant square nor the last move, and
      leaves both as they were. */
  lemma PerformMoveIgnoresHistory(b: BoardState, m: Move, ep: Pos, last: Option<Move>)
    requires WellFormed(b)
    ensures var r := PerformMoveSpec(WithHistory(b, ep, last), m);
      r.captured == PerformMoveSpec(b, m).captured &&
      r.board == WithHistory(PerformMoveSpec(b, m).board, ep, last)
  {
    var h := WithHistory(b, ep, last);
    assert PieceAt(h, m.from) == PieceAt(b, m.from);
    if PieceAt(b, m.from).Some? {
      var mover := PieceAt(b, m.from).value;
      RemoveIgnoresHistory(b, m.from, ep, last);
      var lifted := RemoveSpec(b, m.from).board;
      RemoveIgnoresHistory(lifted, VictimSquare(m, mover), ep, last);
      var taken := TakeCapture(lifted, m, mover);
      PerformMoveStages(b, m);
      PerformMoveStages(h, m);
      if OnBoard(b, m.to) {
        AddIgnoresHistory(taken.board, Some(mover), m.to, ep, last);
        var placed := AddSpec(taken.board, Some(mover), m.to).value;
        MarkMovedIgnoresHistory(placed, m.to, ep, last);
        FinishIgnoresHistory(MarkMoved(placed, m.to), m, mover, ep, last);
      }
    }
  }
}
