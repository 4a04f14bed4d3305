/** The game object of src/core/Game.cpp: it owns a board, whose state its
    methods change in place, the side to move, the game state, the history,
    the two clocks and the repetition table. Each method is proved to do what
    GameRules, PositionHash and GameSpec say. */
module Games {
  import opened ChessTypes
  import opened Positions
  import opened Moves
  import opened Pieces
  import opened BoardStates
  import opened BoardRules
  import opened BoardQueries
  import opened MoveGen
  import opened Pawns
  import opened Scans
  import opened GameRules
  import opened PositionHash
  import opened GameSpec
  import opened Boards

  class Game {
    const board: Board
    var current: Color
    var state: GameState
    var history: seq<Move>
    var halfMoveClock: int
    var fullMoveCounter: int
    var record: map<Stamp, nat>
    var hash: bv64

    function Value(): GameValue
      reads this, board
    {
      GameValue(board.State(), current, state, history, halfMoveClock, fullMoveCounter, record, hash)
    }

    ghost predicate Valid()
      reads this, board
    {
      board.Valid() && Invariant(Value())
    }

    /** Game(): the default setup on an 8x8 board, White to move, playing,
        and the opening position recorded. */
    constructor()
      ensures Valid()
      ensures Value() == InitialGame()
      ensures fresh(board)
    {
      var b := NewGameBoard();
      board := b;
      current := White;
      state := Playing;
      history := [];
      halfMoveClock := 0;
      fullMoveCounter := 1;
      record := map[];
      new;
      RecordGameState();
      assert Value() == InitialGame();
      InitialGameValid();
    }

    /** The board a game is built on: 8x8, in the default setup. */
    static method NewGameBoard() returns (b: Board)
      ensures fresh(b) && b.Valid() && b.State() == InitialBoard()
    {
      b := new Board(8, 8);
      var outcome := b.InitializeDefaultSetup();
    }

    method SwitchPlayer()
      modifies this
      ensures Value() == old(Value()).(current := Opponent(old(current)))
    {
      current := if current == White then Black else White;
    }

    method IsKingInCheck(color: Color) returns (inCheck: bool)
      requires board.Valid()
      ensures inCheck == InCheck(board.State(), color)
    {
      var kingPos := board.FindKing(color);
      if !IsValid(kingPos, board.rows, board.cols) {
        return false;
      }
      inCheck := board.IsSquareAttacked(kingPos, Opponent(color));
    }

    /** What one square adds to the pseudo-legal moves. */
    method MovesAt(color: Color, q: Pos) returns (pieceMoves: seq<Move>)
      requires board.Valid()
      ensures pieceMoves == SquareGen(board.State(), color)(q)
    {
      var piece := PieceAt(board.State(), q);
      if piece.Some? && piece.value.color == color {
        pieceMoves := GetPossibleMoves(board.State(), piece.value);
      } else {
        pieceMoves := [];
      }
    }

    /** The moves of one row's pieces of the given colour, column by column. */
    method RowMoves(color: Color, r: int) returns (rowMoves: seq<Move>)
      requires board.Valid() && 0 <= r
      ensures rowMoves == RowScan(SquareGen(board.State(), color), r, board.cols)
    {
      ghost var f := SquareGen(board.State(), color);
      var cols := board.cols;
      rowMoves := [];
      var c := 0;
      while c < cols
        invariant 0 <= c <= cols
        invariant rowMoves == RowScan(f, r, c)
      {
        var pieceMoves := MovesAt(color, Pos(r, c));
        RowScanPush(f, r, c, rowMoves, pieceMoves);
        rowMoves := rowMoves + pieceMoves;
        c := c + 1;
      }
    }

    /** generatePseudoLegalMoves: every move of every piece of the colour, in
        row-major order of the squares. */
    method GeneratePseudoLegalMoves(color: Color) returns (allMoves: seq<Move>)
      requires board.Valid()
      ensures allMoves == PseudoLegalMoves(board.State(), color)
    {
      ghost var f := SquareGen(board.State(), color);
      var rows, cols := board.rows, board.cols;
      allMoves := [];
      var r := 0;
      while r < rows
        invariant 0 <= r <= rows
        invariant allMoves == GridScan(f, r, cols)
      {
        var rowMoves := RowMoves(color, r);
        GridScanPush(f, r, cols, allMoves, rowMoves);
        allMoves := allMoves + rowMoves;
        r := r + 1;
      }
    }

    /** One pass of the filter: the simulation on a copy of the board. */
    method Simulate(color: Color, m: Move) returns (keep: bool)
      requires board.Valid()
      ensures keep == Keep(board.State(), color, m)
    {
      var tempBoard := new Board.Copy(board);
      var movingPiece := PieceAt(tempBoard.State(), m.from);
      if movingPiece.None? {
        return false;
      }
      var captured := tempBoard.PerformMove(m);
      if captured.Err? {
        return false;
      }
      keep := CheckAfter(tempBoard, color, m);
    }

    /** The checks on the copy once the move has been made on it. */
    method CheckAfter(tempBoard: Board, color: Color, m: Move) returns (keep: bool)
      requires board.Valid() && tempBoard.Valid()
      ensures keep == SafeAfter(board.State(), tempBoard.State(), color, m)
    {
      var kingPos := tempBoard.FindKing(color);
      var kingAttacked := tempBoard.IsSquareAttacked(kingPos, Opponent(color));
      if kingAttacked {
        return false;
      }
      if m.isCastling {
        var canCastle := true;
        var fromAttacked := board.IsSquareAttacked(m.from, Opponent(color));
        if fromAttacked {
          canCastle := false;
        }
        var passAttacked := board.IsSquareAttacked(Intermediate(m), Opponent(color));
        if passAttacked {
          canCastle := false;
        }
        keep := canCastle;
      } else {
        keep := true;
      }
    }

    method GetLegalMovesForColor(color: Color) returns (legalMoves: seq<Move>)
      requires board.Valid()
      ensures legalMoves == LegalMoves(board.State(), color)
    {
      var pseudoLegalMoves := GeneratePseudoLegalMoves(color);
      ghost var b := board.State();
      legalMoves := [];
      var i := 0;
      while i < |pseudoLegalMoves|
        invariant 0 <= i <= |pseudoLegalMoves|
        invariant legalMoves == LegalAmong(b, color, pseudoLegalMoves[..i])
      {
        var m := pseudoLegalMoves[i];
        var keep := Simulate(color, m);
        LegalAmongPush(b, color, pseudoLegalMoves, i, legalMoves);
        if keep {
          legalMoves := legalMoves + [m];
        }
        i := i + 1;
      }
      assert pseudoLegalMoves[..i] == pseudoLegalMoves;
    }

    method HasLegalMoves(color: Color) returns (canMove: bool)
      requires board.Valid()
      ensures canMove <==> LegalMoves(board.State(), color) != []
    {
      var legal := GetLegalMovesForColor(color);
      canMove := legal != [];
    }

    /** The decision table of updateGameState for the side to move. */
    method DecideState() returns (newState: GameState)
      requires board.Valid()
      ensures newState == StateFor(board.State(), current, halfMoveClock)
    {
      var inCheck := IsKingInCheck(current);
      var canMove := HasLegalMoves(current);
      if inCheck && !canMove {
        newState := if current == White then CheckmateBlackWins else CheckmateWhiteWins;
      } else if !inCheck && !canMove {
        newState := Stalemate;
      } else if halfMoveClock >= 100 {
        newState := DrawHalfMoveRule;
      } else if inCheck {
        newState := Check;
      } else {
        newState := Playing;
      }
    }

    /** updateGameState: the decision table for the side to move, then the
        board's last move pointed at the end of the history. */
    method UpdateGameState()
      requires board.Valid()
      modifies this, board
      ensures board.Valid()
      ensures Value() == old(Value()).(state := StateFor(old(board.State()), current, halfMoveClock),
                                       board := old(board.State()).(lastMove := LastOf(history)))
    {
      state := DecideState();
      board.SetLastMove(if history == [] then None else Some(history[|history| - 1]));
    }

    /** What the square at (r, c) contributes to the hash, if it is occupied. */
    method SquareHash(r: int, c: int) returns (occupied: bool, term: bv64)
      requires board.Valid()
      ensures TermGen(board.State(), Key(current))(Pos(r, c)) == if occupied then [term] else []
    {
      var piece := PieceAt(board.State(), Pos(r, c));
      if piece.None? {
        return false, 0;
      }
      var key := if current == White then WhiteKey else BlackKey;
      assert key == Key(current);
      var val := TypeOrdinal(piece.value.kind) + ColorOrdinal(piece.value.color) + r + c;
      term := ToWord(val * key);
      occupied := true;
    }

    /** The XOR of one row's terms, column by column. */
    method RowHash(r: int) returns (rowHash: bv64)
      requires board.Valid() && 0 <= r
      ensures rowHash == XorFold(RowScan(TermGen(board.State(), Key(current)), r, board.cols))
    {
      ghost var f := TermGen(board.State(), Key(current));
      var cols := board.cols;
      rowHash := 0;
      var c := 0;
      while c < cols
        invariant 0 <= c <= cols
        invariant rowHash == XorFold(RowScan(f, r, c))
      {
        var occupied, term := SquareHash(r, c);
        RowHashStep(f, r, c, occupied, term);
        if occupied {
          rowHash := Xor(rowHash, term);
        }
        c := c + 1;
      }
    }

    /** The loop of hashGameState: the XOR over the occupied squares,
        scanned row by row. */
    method BoardHash() returns (h: bv64)
      requires board.Valid()
      ensures h == Hash(board.State(), current)
    {
      ghost var f := TermGen(board.State(), Key(current));
      var rows, cols := board.rows, board.cols;
      h := 0;
      var r := 0;
      while r < rows
        invariant 0 <= r <= rows
        invariant h == XorFold(GridScan(f, r, cols))
      {
        var rowHash := RowHash(r);
        XorRow(f, r, cols, h, rowHash);
        h := Xor(h, rowHash);
        r := r + 1;
      }
    }

    /** hashGameState: the stored hash becomes that of the position. */
    method HashGameState()
      requires board.Valid()
      modifies this
      ensures Value() == old(Value()).(hash := Hash(board.State(), current))
    {
      hash := BoardHash();
    }

    method RecordGameState()
      requires board.Valid()
      modifies this
      ensures Value() == old(Value()).(hash := Hash(board.State(), current),
                                       record := Record(old(record), Hash(board.State(), current)))
    {
      HashGameState();
      record := record[Stamp(hash) := Count(record, hash) + 1];
    }

    method GetGameStateCount() returns (n: nat)
      ensures n == Count(record, hash)
    {
      n := if Stamp(hash) in record then record[Stamp(hash)] else 0;
    }

    /** The legality test of makeMove: the proposal is compared, in all five
        fields, with every legal move of the side to move. */
    method IsProposedMoveLegal(proposedMove: Move) returns (isProposedMoveLegal: bool)
      requires board.Valid()
      ensures isProposedMoveLegal <==> proposedMove in LegalMoves(board.State(), current)
    {
      var legalMoves := GetLegalMovesForColor(current);
      isProposedMoveLegal := false;
      var i := 0;
      while i < |legalMoves| && !isProposedMoveLegal
        invariant 0 <= i <= |legalMoves|
        invariant isProposedMoveLegal <==> proposedMove in legalMoves[..i]
      {
        assert legalMoves[..i + 1] == legalMoves[..i] + [legalMoves[i]];
        if legalMoves[i] == proposedMove {
          isProposedMoveLegal := true;
        }
        i := i + 1;
      }
      assert !isProposedMoveLegal ==> legalMoves[..i] == legalMoves;
    }

    /** The half-move clock: back to 0 after a pawn move or a capture, one
        more otherwise. */
    method UpdateHalfMoveClock(proposedMove: Move)
      requires board.Valid()
      modifies this
      ensures Value() == old(Value()).(halfMoveClock := ClockAfter(board.State(), proposedMove, old(halfMoveClock)))
    {
      var pieceToMove := PieceAt(board.State(), proposedMove.from);
      if (pieceToMove.Some? && pieceToMove.value.kind == Pawn) || PieceAt(board.State(), proposedMove.to).Some? {
        halfMoveClock := 0;
      } else {
        halfMoveClock := halfMoveClock + 1;
      }
    }

    /** The en-passant square: cleared, then set behind a two-row pawn move. */
    method UpdateEnPassant(proposedMove: Move)
      requires board.Valid()
      modifies board
      ensures board.Valid()
      ensures board.State() == old(board.State()).(enPassantTarget := EnPassantAfter(old(board.State()), proposedMove, current))
    {
      var pieceToMove := PieceAt(board.State(), proposedMove.from);
      board.ClearEnPassantTargetSquare();
      if pieceToMove.Some? && pieceToMove.value.kind == Pawn && Abs(proposedMove.to.row - proposedMove.from.row) == 2 {
        var direction := if current == White then -1 else 1;
        board.SetEnPassantTargetSquare(Pos(proposedMove.from.row + direction, proposedMove.from.col));
      }
    }

    /** The move itself: performed on the board, appended to the history,
        pointed at by the board's last move, and counted when Black made it. */
    method PlayMove(proposedMove: Move)
      requires board.Valid()
      modifies this, board
      ensures board.Valid()
      ensures board.State() == PerformMoveSpec(old(board.State()), proposedMove).board.(lastMove := Some(proposedMove))
      ensures history == old(history) + [proposedMove]
      ensures fullMoveCounter == if old(current) == Black then old(fullMoveCounter) + 1 else old(fullMoveCounter)
      ensures current == old(current) && state == old(state) && halfMoveClock == old(halfMoveClock)
      ensures record == old(record) && hash == old(hash)
    {
      var captured := board.PerformMove(proposedMove);
      history := history + [proposedMove];
      board.SetLastMove(Some(proposedMove));
      if current == Black {
        fullMoveCounter := fullMoveCounter + 1;
      }
    }

    /** The end of a turn: the other side to move, the state re-evaluated, the
        position recorded, and its third occurrence a draw. */
    method FinishTurn()
      requires board.Valid()
      modifies this, board
      ensures board.Valid()
      ensures var b := old(board.State()).(lastMove := LastOf(old(history)));
              var next := Opponent(old(current));
              var h := Hash(b, next);
              var record := Record(old(record), h);
              Value() == old(Value()).(
                board := b, current := next, hash := h, record := record,
                state := if Count(record, h) >= 3 then DrawThreefoldRepetition
                         else StateFor(old(board.State()), next, old(halfMoveClock)))
    {
      SwitchPlayer();
      UpdateGameState();
      RecordGameState();
      var count := GetGameStateCount();
      if count >= 3 {
        state := DrawThreefoldRepetition;
      }
    }

    /** What makeMove does once the proposal passed the guards. */
    method Play(proposedMove: Move)
      requires board.Valid()
      modifies this, board
      ensures board.Valid()
      ensures Value() == Played(old(Value()), proposedMove)
    {
      ghost var g := Value();
      UpdateHalfMoveClock(proposedMove);
      UpdateEnPassant(proposedMove);
      ghost var p := Value();
      assert p == Prepared(g, proposedMove);
      PlayMove(proposedMove);
      ghost var q := Value();
      assert q == MovePlayed(p, proposedMove);
      FinishTurn();
      assert Value() == TurnFinished(q);
      PlayedStages(g, proposedMove);
    }

    /** makeMove: guarded, then the clocks, the en-passant square, the move,
        the history, the turn, the state and the repetition table. */
    method MakeMove(proposedMove: Move) returns (accepted: bool)
      requires Valid()
      modifies this, board
      ensures Valid()
      ensures accepted == MakeMoveSpec(old(Value()), proposedMove).accepted
      ensures Value() == MakeMoveSpec(old(Value()), proposedMove).game
    {
      ghost var g := Value();
      if state != Playing && state != Check {
        assert !Accepts(g, proposedMove);
        return false;
      }
      var pieceToMove := PieceAt(board.State(), proposedMove.from);
      if pieceToMove.None? || pieceToMove.value.color != current {
        assert !Accepts(g, proposedMove);
        return false;
      }
      var isProposedMoveLegal := IsProposedMoveLegal(proposedMove);
      if !isProposedMoveLegal {
        assert !Accepts(g, proposedMove);
        return false;
      }
      assert Accepts(g, proposedMove);
      MakeMoveKeepsInvariant(g, proposedMove);
      Play(proposedMove);
      return true;
    }
  }
}
