/** What Game::makeMove does to a game, as a function on the game's value,
    and the invariant every game keeps. The class Games.Game is proved to
    follow it. */
module GameSpec {
  import opened ChessTypes
  import opened Positions
  import opened Moves
  import opened Pieces
  import opened BoardStates
  import opened BoardRules
  import opened Pawns
  import opened GameRules
  import opened PositionHash

  /** The fields of a Game that the rules read and write (the players are
      not part of the model). */
  datatype GameValue = GameValue(
    board: BoardState,
    current: Color,
    state: GameState,
    history: seq<Move>,
    halfMoveClock: int,
    fullMoveCounter: int,
    record: map<Stamp, nat>,
    hash: bv64)

  /** The last move of a history, as the board refers to it. */
  function LastOf(history: seq<Move>): (r: Option<Move>)
    ensures r.None? <==> history == []
    ensures r.Some? ==> r.value == history[|history| - 1]
  {
    if history == [] then None else Some(history[|history| - 1])
  }

  /** The boards a game goes through: 8x8, every piece recording its square,
      every unmoved king on column 4. */
  ghost predicate GameBoard(b: BoardState)
  {
    WellFormed(b) && b.rows == 8 && b.cols == 8 && Consistent(b) && HomeKings(b)
  }

  /** What holds between the public operations of a game: the board is a game
      board whose last move is the last of the history, and the stored hash
      is that of the current position, already recorded at least once. */
  ghost predicate Invariant(g: GameValue)
  {
    GameBoard(g.board) && g.board.lastMove == LastOf(g.history) &&
    g.hash == Hash(g.board, g.current) && Count(g.record, g.hash) >= 1
  }

  /** The game the constructor builds: the default setup on a fresh 8x8
      board, White to move, playing, with the opening position recorded once. */
  function InitialBoard(): BoardState
  {
    DefaultSetup(EmptyBoard(BoardState(8, 8, [], false, false, false, false, NoPos, None, 0))).board
  }

  function InitialGame(): GameValue
  {
    var b := InitialBoard();
    var h := Hash(b, White);
    GameValue(b, White, Playing, [], 0, 1, Record(map[], h), h)
  }

  /** A fresh game satisfies the invariant, and it is the opening position. */
  lemma InitialGameValid()
    ensures Invariant(InitialGame())
    ensures var b := InitialGame().board;
      (forall q :: IsKingOf(b, q, White) <==> q == Pos(7, 4)) &&
      (forall q :: IsKingOf(b, q, Black) <==> q == Pos(0, 4))
  {
    InitialBoardShape();
    var g := InitialGame();
    assert g.board == InitialBoard();
    assert Count(g.record, g.hash) == 1;
  }

  /** The opening board is a game board with the two kings on their squares. */
  lemma InitialBoardShape()
    ensures GameBoard(InitialBoard())
    ensures var b := InitialBoard();
      (forall q :: IsKingOf(b, q, White) <==> q == Pos(7, 4)) &&
      (forall q :: IsKingOf(b, q, Black) <==> q == Pos(0, 4))
  {
    DefaultSetupShape(EmptyBoard(BoardState(8, 8, [], false, false, false, false, NoPos, None, 0)));
    var b := InitialBoard();
    forall q | PieceAt(b, q).Some? && PieceAt(b, q).value.kind == King && !PieceAt(b, q).value.hasMoved
      ensures q.col == 4
    {
      assert IsKingOf(b, q, PieceAt(b, q).value.color);
    }
  }

  // ---------------------------------------------------------------------------
  // makeMove

  /** The guards of makeMove: the game is still on, the origin holds a piece
      of the side to move, and the proposal equals a legal move in all five
      fields. */
  predicate Accepts(g: GameValue, m: Move)
    requires WellFormed(g.board)
  {
    (g.state == Playing || g.state == Check) &&
    PieceAt(g.board, m.from).Some? && PieceAt(g.board, m.from).value.color == g.current &&
    m in LegalMoves(g.board, g.current)
  }

  /** The half-move clock after a move: back to 0 after a pawn move or a move
      onto an occupied square, one more otherwise. */
  function ClockAfter(b: BoardState, m: Move, clock: int): int
    requires WellFormed(b)
  {
    if (PieceAt(b, m.from).Some? && PieceAt(b, m.from).value.kind == Pawn) || PieceAt(b, m.to).Some? then 0
    else clock + 1
  }

  /** The en-passant square after a move: the square a pawn skipped with a
      two-row move, none otherwise. */
  function EnPassantAfter(b: BoardState, m: Move, side: Color): Pos
    requires WellFormed(b)
  {
    if PieceAt(b, m.from).Some? && PieceAt(b, m.from).value.kind == Pawn && Abs(m.to.row - m.from.row) == 2
    then Pos(m.from.row + Direction(side), m.from.col)
    else NoPos
  }

  datatype MoveOutcome = MoveOutcome(accepted: bool, game: GameValue)

  /** What an accepted move does to a game: the clock and the en-passant
      square are updated, the move is performed, appended to the history and
      made the board's last move, Black's move is counted, the turn passes,
      the state is re-evaluated, and the new position is recorded, its third
      occurrence drawing the game. */
  function Played(g: GameValue, m: Move): (n: GameValue)
    requires WellFormed(g.board)
    ensures WellFormed(n.board) && n.board.rows == g.board.rows && n.board.cols == g.board.cols
  {
    var clock := ClockAfter(g.board, m, g.halfMoveClock);
    var ep := EnPassantAfter(g.board, m, g.current);
    var moved := PerformMoveSpec(g.board.(enPassantTarget := ep), m).board.(lastMove := Some(m));
    var next := Opponent(g.current);
    var h := Hash(moved, next);
    var record := Record(g.record, h);
    var state := if Count(record, h) >= 3 then DrawThreefoldRepetition else StateFor(moved, next, clock);
    var full := if g.current == Black then g.fullMoveCounter + 1 else g.fullMoveCounter;
    GameValue(moved, next, state, g.history + [m], clock, full, record, h)
  }

  /** The three stages of an accepted move, as Game::makeMove runs them: the
      clock and the en-passant square first, then the move and its history,
      then the end of the turn. */
  function Prepared(g: GameValue, m: Move): (n: GameValue)
    requires WellFormed(g.board)
    ensures WellFormed(n.board) && n.board.rows == g.board.rows && n.board.cols == g.board.cols
  {
    g.(halfMoveClock := ClockAfter(g.board, m, g.halfMoveClock),
       board := g.board.(enPassantTarget := EnPassantAfter(g.board, m, g.current)))
  }

  function MovePlayed(g: GameValue, m: Move): (n: GameValue)
    requires WellFormed(g.board)
    ensures WellFormed(n.board) && n.board.rows == g.board.rows && n.board.cols == g.board.cols
  {
    g.(board := PerformMoveSpec(g.board, m).board.(lastMove := Some(m)),
       history := g.history + [m],
       fullMoveCounter := if g.current == Black then g.fullMoveCounter + 1 else g.fullMoveCounter)
  }

  function TurnFinished(g: GameValue): (n: GameValue)
    requires WellFormed(g.board)
    ensures WellFormed(n.board) && n.board.rows == g.board.rows && n.board.cols == g.board.cols
  {
    var b := g.board.(lastMove := LastOf(g.history));
    var next := Opponent(g.current);
    var h := Hash(b, next);
    var record := Record(g.record, h);
    g.(board := b, current := next, hash := h, record := record,
       state := if Count(record, h) >= 3 then DrawThreefoldRepetition else StateFor(g.board, next, g.halfMoveClock))
  }

  /** Running the three stages one after the other plays the move. */
  lemma PlayedStages(g: GameValue, m: Move)
    requires WellFormed(g.board)
    ensures TurnFinished(MovePlayed(Prepared(g, m), m)) == Played(g, m)
  {
    var q := MovePlayed(Prepared(g, m), m);
    assert LastOf(q.history) == Some(m);
  }

  /** makeMove: a rejected proposal leaves the game as it was; an accepted one
      is played. */
  function MakeMoveSpec(g: GameValue, m: Move): (r: MoveOutcome)
    requires WellFormed(g.board)
    ensures WellFormed(r.game.board) && r.game.board.rows == g.board.rows && r.game.board.cols == g.board.cols
  {
    if !Accepts(g, m) then MoveOutcome(false, g) else MoveOutcome(true, Played(g, m))
  }

  /** An accepted move: the move itself cannot make performMove throw; the
      history gains exactly that move; the clock, the en-passant square and
      the move counter follow the rules; the other side is to move; the new
      position's count went up by one and no count went down; and a third
      occurrence is a draw, overriding the state updateGameState chose. */
  lemma MakeMoveEffects(g: GameValue, m: Move)
    requires WellFormed(g.board) && Accepts(g, m)
    ensures var r := MakeMoveSpec(g, m); var n := r.game;
      var ep := EnPassantAfter(g.board, m, g.current);
      r.accepted &&
      PerformMoveSpec(g.board.(enPassantTarget := ep), m).captured.Ok? &&
      n.history == g.history + [m] &&
      n.halfMoveClock == ClockAfter(g.board, m, g.halfMoveClock) &&
      n.board.enPassantTarget == ep && n.board.lastMove == Some(m) &&
      n.fullMoveCounter == (if g.current == Black then g.fullMoveCounter + 1 else g.fullMoveCounter) &&
      n.current == Opponent(g.current) &&
      n.hash == Hash(n.board, n.current) &&
      Count(n.record, n.hash) == Count(g.record, n.hash) + 1 &&
      (forall k :: Count(n.record, k) >= Count(g.record, k)) &&
      n.state == (if Count(n.record, n.hash) >= 3 then DrawThreefoldRepetition
                  else StateFor(n.board, n.current, n.halfMoveClock))
  {
    AcceptedNeverThrows(g, m);
    assert MakeMoveSpec(g, m) == MoveOutcome(true, Played(g, m));
    PlayedEffects(g, m);
  }

  /** An accepted move passed the simulation, so performing it on the real
      board does not throw either. */
  lemma AcceptedNeverThrows(g: GameValue, m: Move)
    requires WellFormed(g.board) && Accepts(g, m)
    ensures PerformMoveSpec(g.board.(enPassantTarget := EnPassantAfter(g.board, m, g.current)), m).captured.Ok?
  {
    var ep := EnPassantAfter(g.board, m, g.current);
    var temp := g.board.(lastMove := None);
    LegalMovesSpec(g.board, g.current);
    assert Keep(g.board, g.current, m);
    PerformMoveIgnoresHistory(temp, m, ep, g.board.lastMove);
    assert WithHistory(temp, ep, g.board.lastMove) == g.board.(enPassantTarget := ep);
  }

  lemma PlayedEffects(g: GameValue, m: Move)
    requires WellFormed(g.board)
    ensures var n := Played(g, m);
      var ep := EnPassantAfter(g.board, m, g.current);
      n.history == g.history + [m] &&
      n.halfMoveClock == ClockAfter(g.board, m, g.halfMoveClock) &&
      n.board.enPassantTarget == ep && n.board.lastMove == Some(m) &&
      n.fullMoveCounter == (if g.current == Black then g.fullMoveCounter + 1 else g.fullMoveCounter) &&
      n.current == Opponent(g.current) &&
      n.hash == Hash(n.board, n.current) &&
      Count(n.record, n.hash) == Count(g.record, n.hash) + 1 &&
      (forall k :: Count(n.record, k) >= Count(g.record, k)) &&
      n.state == (if Count(n.record, n.hash) >= 3 then DrawThreefoldRepetition
                  else StateFor(n.board, n.current, n.halfMoveClock))
  {
    var ep := EnPassantAfter(g.board, m, g.current);
    PerformMoveIgnoresHistory(g.board, m, ep, g.board.lastMove);
    assert WithHistory(g.board, ep, g.board.lastMove) == g.board.(enPassantTarget := ep);
  }

  /** makeMove rejects exactly the proposals the guards refuse, and a
      rejected proposal changes nothing. */
  lemma MakeMoveRejects(g: GameValue, m: Move)
    requires WellFormed(g.board)
    ensures MakeMoveSpec(g, m).accepted <==> Accepts(g, m)
    ensures !Accepts(g, m) ==> MakeMoveSpec(g, m).game == g
    ensures g.state != Playing && g.state != Check ==> !MakeMoveSpec(g, m).accepted
    ensures PieceAt(g.board, m.from).None? ==> !MakeMoveSpec(g, m).accepted
    ensures PieceAt(g.board, m.from).Some? && PieceAt(g.board, m.from).value.color != g.current ==>
              !MakeMoveSpec(g, m).accepted
    ensures m !in LegalMoves(g.board, g.current) ==> !MakeMoveSpec(g, m).accepted
  {
  }

  /** The en-passant square and the last move do not matter to a game board. */
  lemma GameBoardIgnoresHistory(b: BoardState, ep: Pos, last: Option<Move>)
    requires GameBoard(b)
    ensures GameBoard(WithHistory(b, ep, last))
  {
    var h := WithHistory(b, ep, last);
    assert forall q :: PieceAt(h, q) == PieceAt(b, q);
    ConsistentAt(b);
    ConsistentAt(h);
  }

  /** performMove takes a game board to a game board. */
  lemma GameBoardAfterMove(b: BoardState, m: Move)
    requires GameBoard(b)
    ensures GameBoard(PerformMoveSpec(b, m).board)
  {
    PerformMoveConsistent(b, m);
    PerformMoveKeepsUnmoved(b, m);
    HomeKingsStay(b, PerformMoveSpec(b, m).board);
  }

  /** Every game keeps the invariant across makeMove. */
  lemma MakeMoveKeepsInvariant(g: GameValue, m: Move)
    requires Invariant(g)
    ensures Invariant(MakeMoveSpec(g, m).game)
  {
    if Accepts(g, m) {
      MakeMoveEffects(g, m);
      var ep := EnPassantAfter(g.board, m, g.current);
      GameBoardIgnoresHistory(g.board, ep, g.board.lastMove);
      assert WithHistory(g.board, ep, g.board.lastMove) == g.board.(enPassantTarget := ep);
      var b2 := PerformMoveSpec(g.board.(enPassantTarget := ep), m).board;
      GameBoardAfterMove(g.board.(enPassantTarget := ep), m);
      GameBoardIgnoresHistory(b2, b2.enPassantTarget, Some(m));
      var n := MakeMoveSpec(g, m).game;
      assert WithHistory(b2, b2.enPassantTarget, Some(m)) == n.board;
      assert GameBoard(n.board);
      assert n.board.lastMove == LastOf(n.history);
      assert n.hash == Hash(n.board, n.current);
      assert Count(n.record, n.hash) >= 1;
    }
  }
}
