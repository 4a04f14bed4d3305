# NeoChess rules engine in Dafny

This project models the chess rules engine of NeoChess, a C++ console chess
program. The model covers these parts:

- **Coordinates and moves.** `Position` checks bounds and converts to and
  from algebraic notation. `Move` is a five-field value with a text form.
- **Pieces.** Each piece has a kind, a colour, a square, a `hasMoved` flag
  and an id.
- **Move generators.** There are six pseudo-legal generators: the sliding
  rook, bishop and queen; the stepping knight and king, with the king's
  castling intent; and the pawn, with pushes, captures, promotion fan-out
  and en passant.
- **The board.** The `Board` class owns a grid of optional pieces, four
  castling rights, an en-passant square and a last move. Its methods change
  the grid in place: `performMove` handles captures, en passant, promotion,
  the castling rook hop and the lowering of castling rights.
- **The game.** The `Game` class filters the pseudo-legal moves into legal
  ones by simulating each on a copy of the board. It guards `makeMove`,
  keeps the half-move clock, the move counter and the history, chooses the
  game state from a decision table, and keeps a repetition table keyed by a
  64-bit XOR hash of the position.
- **The engine wrapper.** This is the move ordering of the AI and the
  non-search logic of `findBestMove`.

The model has three layers:

- **Values.** `Pos`, `Move` and `Piece` are datatypes. `BoardState` and
  `GameValue` are the values of a board and of a game.
- **Specifications.** Each source operation has a specification function
  over those values. The lemmas about each function state what the source
  promises.
- **Imperative code.** It keeps the source's own form. The generators are
  methods with the source's loops. `Boards.Board` and `Games.Game` are
  classes whose methods update fields in place. Each method is proved to
  produce exactly what its specification function computes.

Two invariants hold between the public operations of a game:

- the board is 8×8, every piece records its own square, and every unmoved
  king stands on column 4;
- the last move is the end of the history, and the stored hash is the hash
  of the current position, which has been recorded at least once.

`GameSpec.MakeMoveKeepsInvariant` proves that every move keeps them.
`GameRules.SimulationNeverThrows` uses them to show that the legality
filter never meets a throwing `performMove`.

Exceptions are values. `Result`/`Outcome` carry `invalid_argument`,
`out_of_range` and `runtime_error` with their messages. A `performMove`
that throws part-way leaves the board as far as it got, as the C++ does.

## Model

| member | source | states |
|---|---|---|
| ChessTypes.Opponent | src/core/Game.cpp:35-37 | the opponent of a colour is the other colour |
| ChessTypes.TypeOrdinal | src/core/ChessTypes.h:16-24 | the enum ordinal of a piece type, between 0 and 6 |
| Positions.Equals | src/core/Position.cpp:10-12 | `==` holds exactly when row and column agree (value equality) |
| Positions.NotEquals | src/core/Position.cpp:14-16 | `!=` is exactly the negation of `==` |
| Positions.ToAlgebraic | src/core/Position.cpp:18-25 | always two characters; "??" off the 8×8 board; otherwise a file a..h and a rank 1..8, with column 0 as 'a' and row 0 as rank '8' |
| Positions.FromAlgebraic | src/core/Position.cpp:27-41 | accepts exactly a length-2 string with file a..h and rank 1..8; throws invalid_argument with the length message or the character message; an accepted result has col = file−'a' and row = 7−(rank−'1') and is valid on 8×8 |
| Positions.FromToAlgebraic | src/core/Position.cpp:18-41 | reading back the notation of any valid square gives that square |
| Positions.ToFromAlgebraic | src/core/Position.cpp:18-41 | writing the square of any accepted notation reproduces the text |
| Positions.AlgebraicInjective | src/core/Position.cpp:18-25 | distinct valid squares have distinct names |
| Moves.PlainByDefault | src/core/Move.cpp:3-4 | a move built from two squares has no promotion, no castling flag and no en-passant flag |
| Moves.Equals | src/core/Move.cpp:6-12 | `==` holds exactly when all five fields agree, so moves that differ only in promotion are unequal |
| Moves.PromotionSuffix | src/core/Move.cpp:18-25 | one letter exactly for a queen, rook, bishop or knight promotion, none otherwise |
| Moves.ToString | src/core/Move.cpp:14-27 | 4 or 5 characters: the two squares' notations, then a promotion letter q/r/b/n exactly when there is such a promotion |
| Moves.NullMoveString | src/core/Move.cpp:14-27 | the sentinel (−1,−1)→(−1,−1) renders as "????" |
| Moves.ToStringInjective | src/core/Move.cpp:14-27 | between board squares, and without special flags, different moves have different texts |
| Pieces.NewPiece | src/core/Piece.cpp:6-7 | a new piece has not moved and carries the given kind, colour, square and id |
| Pieces.Symbol | src/core/Piece.cpp:10-20 | blank exactly for EMPTY, an upper-case letter for each real kind |
| Pieces.SymbolInjective | src/core/Piece.cpp:10-20 | different kinds have different symbols |
| Pieces.WithPosition | src/core/Piece.cpp:30-32 | setPosition changes the square and no other field |
| Pieces.WithHasMoved | src/core/Piece.cpp:46-48 | setHasMoved changes the flag and no other field |
| Pieces.SettersOverwrite | src/core/Piece.cpp:22-48 | the getters return the last value set; the two setters commute |
| Rooks.GetRookMoves | src/core/Rook.cpp:14-39 | the direction and distance loops return the rook's move sequence; every move starts on the rook's square and carries no flag |
| Rooks.RookMovesIff | src/core/Rook.cpp:19-37 | a rook move goes to another on-board square in the same row or column, with every square in between empty and the target empty or enemy-held; every such move is emitted |
| Rooks.RookMovesNoDups | src/core/Rook.cpp:21-37 | no rook move is emitted twice |
| Rooks.RookMovesBound | src/core/Rook.cpp:21-37 | at most 4·(max(rows, cols)−1) moves |
| Bishops.GetBishopMoves | src/core/Bishop.cpp:14-39 | the loops return the bishop's move sequence; every move starts on the bishop's square and carries no flag |
| Bishops.BishopMovesIff | src/core/Bishop.cpp:19-37 | a bishop move goes to an on-board square with \|Δrow\| = \|Δcol\| ≥ 1, with every square in between empty and the target empty or enemy-held; every such move is emitted |
| Bishops.BishopMovesNoDups | src/core/Bishop.cpp:21-37 | no bishop move is emitted twice |
| Queens.GetQueenMoves | src/core/Queen.cpp:16-45 | the loops over the eight directions return the queen's move sequence, all plain and from the queen's square |
| Queens.QueenIsRookThenBishop | src/core/Queen.cpp:22-25 | the queen's sequence is the rook's sequence followed by the bishop's sequence |
| Queens.QueenMovesIff | src/core/Queen.cpp:22-43 | a queen move goes to another on-board square on a line or diagonal, with every square in between empty and the target empty or enemy-held; every such move is emitted |
| Queens.QueenMovesNoDups | src/core/Queen.cpp:26-43 | no queen move is emitted twice |
| Queens.QueenMovesBound | src/core/Queen.cpp:27-28 | at most 8·(max(rows, cols)−1) moves |
| Knights.GetKnightMoves | src/core/Knight.cpp:14-34 | the offset loop returns the knight's move sequence |
| Knights.KnightMovesIff | src/core/Knight.cpp:19-32 | the knight emits exactly the plain moves to on-board squares a knight's jump away that are empty or enemy-held |
| Knights.KnightMovesShape | src/core/Knight.cpp:19-32 | at most 8 moves, no duplicates, in the order of the offset table |
| Kings.ScanRight | src/core/King.cpp:48-55 | the kingside column loop reports a clear path exactly when every square between king and rook is empty |
| Kings.ScanLeft | src/core/King.cpp:65-72 | the queenside column loop reports a clear path exactly when every square between rook and king is empty |
| Kings.GetKingMoves | src/core/King.cpp:14-79 | the step loop and the two castling checks return the king's move sequence |
| Kings.KingStepsIff | src/core/King.cpp:19-35 | the steps are exactly the plain moves to on-board neighbours at Chebyshev distance 1 that are empty or enemy-held |
| Kings.KingMovesIff | src/core/King.cpp:24-77 | a king move is such a step, or the kingside or queenside castling intent. Each intent is emitted exactly when the king is unmoved on an 8×8 board, an unmoved rook of its colour stands in the corner, and the squares between are empty |
| Kings.KingMovesShape | src/core/King.cpp:24-77 | no move carries a promotion or an en-passant flag; non-castling moves are plain steps; at most 10 moves, no duplicates |
| Pawns.Direction | src/core/Pawn.cpp:17-23 | the direction is −1 exactly for White and +1 for Black |
| Pawns.GetPushes | src/core/Pawn.cpp:30-50 | the push code returns the single push and the nested double push |
| Pawns.AddCaptures | src/core/Pawn.cpp:53-106 | one pass of the offset loop appends that offset's diagonal capture and en-passant capture |
| Pawns.GetPawnMoves | src/core/Pawn.cpp:15-110 | the pushes and the capture loop return the pawn's move sequence |
| Pawns.EnPassantRankOn8 | src/core/Pawn.cpp:76-84 | the two rank tests together mean an 8-row board with White on row 3 or Black on row 4 |
| Pawns.AdvanceMember | src/core/Pawn.cpp:33-39 | a move onto a promotion row comes in the four promotions, otherwise as one unpromoted move |
| Pawns.PawnMovesIff | src/core/Pawn.cpp:15-110 | every pawn move is one of four kinds: a single push to an empty square; a double push of an unmoved pawn over two empty squares; a diagonal capture of an enemy piece; or an en-passant capture beside the last move's two-row enemy pawn. The promotions are those of the landing row and no move castles |
| Pawns.PushesMember | src/core/Pawn.cpp:30-50 | the pushes are exactly the single push to an empty square and the double push of an unmoved pawn whose first square is also empty |
| Pawns.CaptureMember | src/core/Pawn.cpp:55-104 | an offset contributes exactly its diagonal capture and its en-passant capture |
| Pawns.NoLastMoveNoEnPassant | src/core/Pawn.cpp:76-78 | with no last move there is no en-passant move |
| Pawns.AdvanceShape | src/core/Pawn.cpp:33-39 | a push or capture onto a promotion row fans out into exactly four moves, one per promotion and none repeated; elsewhere it is a single move |
| Pawns.PawnMovesNoDups | src/core/Pawn.cpp:15-110 | no pawn move is emitted twice |
| Pawns.PawnMovesBound | src/core/Pawn.cpp:15-110 | a pawn on the board emits at most 12 moves |
| MoveGen.GetPossibleMoves | src/core/Piece.h:30 | dispatch on the piece kind to its generator |
| MoveGen.PossibleMovesShape | src/core/King.cpp:41-77 | every move starts on the piece's square; only kings castle; only pawns promote or capture en passant; every non-castling target is on the board |
| BoardStates.PieceAt | src/core/Board.cpp:176-188 | nothing off the board, the occupant otherwise |
| BoardRules.EmptyBoardShape | src/core/Board.cpp:107-125 | after emptying, every square is empty, all four rights are granted, the en-passant square is (−1,−1) and there is no last move |
| BoardRules.DefaultSetupShape | src/core/Board.cpp:134-173 | throws (on an emptied board) exactly off 8×8. On 8×8 it gives Black on rows 0–1 and White on rows 6–7, pawns on rows 1 and 6, rows 2–5 empty, every piece unmoved, and exactly one king of each colour on column 4 |
| BoardRules.DefaultSetupIds | src/core/Piece.cpp:4-7 | setup pieces take strictly increasing ids in construction order |
| BoardRules.RemoveSpec | src/core/Board.cpp:202-207 | removePiece returns the occupant and empties the square; off-board or empty squares give nothing and change nothing |
| BoardRules.AddSpec | src/core/Board.cpp:190-200 | addPiece throws out_of_range exactly off the board; otherwise the piece is stored with its square set, and nothing else changes |
| BoardRules.Promote | src/core/Board.cpp:232-250 | a promoting pawn is replaced by a new piece of the promotion kind, taking the next id; no other square changes |
| BoardRules.UpdateCastlingRightsEffect | src/core/Board.cpp:303-333 | rights only go from granted to withdrawn. A king withdraws both of its colour. On 8×8, a rook leaving a corner of its back rank withdraws that corner's right. Off 8 rows, a rook on the board withdraws nothing. No other piece withdraws anything |
| BoardRules.RookRightsOffEightColumns | src/core/Board.cpp:310-331 | on 8 rows but not 8 columns, a rook leaving (7,0) or (0,0) still withdraws its colour's queenside right, and no rook on the board withdraws a kingside right |
| BoardRules.PerformMoveErrors | src/core/Board.cpp:209-275 | an empty origin throws runtime_error and leaves the board untouched; an off-board target throws out_of_range; anything else but a castling king move succeeds |
| BoardRules.PerformMoveCastlingThrows | src/core/Board.cpp:252-270 | a castling king move throws exactly when a corner piece would hop off the board |
| BoardRules.PerformMovePlain | src/core/Board.cpp:209-230 | the origin is emptied and the target holds the mover marked as moved. The captured piece is the target's occupant, or the one beside it for an en-passant pawn move. No other square changes and no right is regained |
| BoardRules.PerformMovePromotion | src/core/Board.cpp:232-250 | a pawn reaching the far row with a Q/R/B/N promotion leaves a new moved piece of that kind and colour on the target |
| BoardRules.PerformMoveCastling | src/core/Board.cpp:252-272 | the king lands on the target and the corner piece lands on the square the king passed, both marked moved; nothing else changes and the king's colour loses both rights |
| BoardRules.PerformMoveConsistent | src/core/Board.cpp:209-275 | every piece still records the square it stands on |
| BoardRules.PerformMoveIgnoresHistory | src/core/Board.cpp:209-275 | performMove neither reads nor changes the en-passant square or the last move |
| BoardQueries.FindPiecesMember | src/core/Board.cpp:353-366 | findPieces returns exactly the pieces of the colour (and of the type, unless EMPTY) on the board |
| BoardQueries.FindPiecesByType | src/core/Board.cpp:353-366 | asking for a type filters the colour's pieces, keeping their order |
| BoardQueries.FindKingSpec | src/core/Board.cpp:368-378 | findKing gives the first king of the colour in row-major order, or (−1,−1) exactly when there is none |
| BoardQueries.PieceAttacksIff | src/core/Board.cpp:380-408 | a pawn attacks its two forward diagonals only when it has some move; any other piece attacks exactly its move targets, castling targets included |
| Boards.Board.constructor | src/core/Board.cpp:14-19 | a new board is empty, with all rights, no en-passant square and no last move |
| Boards.Board.Copy | src/core/Board.cpp:22-42 | a copy has every field but the last move, which it resets |
| Boards.Board.InitializeEmptyBoard | src/core/Board.cpp:107-125 | the board becomes the emptied board |
| Boards.Board.InitializeDefaultSetup | src/core/Board.cpp:134-173 | the board and the outcome are those of the default setup |
| Boards.Board.AddPiece | src/core/Board.cpp:190-200 | the board follows addPiece, and is unchanged when it throws |
| Boards.Board.RemovePiece | src/core/Board.cpp:202-207 | the board and the returned piece follow removePiece |
| Boards.Board.PerformMove | src/core/Board.cpp:209-275 | the board and the captured piece (or exception) follow performMove |
| Boards.Board.UpdateCastlingRights | src/core/Board.cpp:303-333 | nothing without a piece; otherwise the rights are lowered as the rule says |
| Boards.Board.SetCastlingRights | src/core/Board.cpp:335-343 | one colour's two rights are set and the other colour's kept |
| Boards.Board.SetEnPassantTargetSquare | src/core/Board.cpp:286-288 | only the en-passant square changes |
| Boards.Board.ClearEnPassantTargetSquare | src/core/Board.cpp:290-292 | the en-passant square becomes (−1,−1), nothing else changes |
| Boards.Board.SetLastMove | src/core/Board.cpp:349-351 | only the last move changes |
| Boards.Board.FindPieces | src/core/Board.cpp:353-366 | the scan returns the matching pieces in row-major order |
| Boards.Board.FindKing | src/core/Board.cpp:368-378 | the scan returns the first king's square, or (−1,−1) |
| Boards.Board.IsSquareAttacked | src/core/Board.cpp:380-408 | false off the board; otherwise whether some attacker piece's move loop counts the square |
| GameRules.PseudoLegalMember | src/core/Game.cpp:49-61 | a move is pseudo-legal exactly when some square of the colour generates it |
| GameRules.PseudoLegalOrigin | src/core/Game.cpp:49-61 | every pseudo-legal move starts on a piece of the colour that generates it |
| GameRules.LegalMovesSpec | src/core/Game.cpp:63-105 | the legal moves are an order-preserving subsequence of the pseudo-legal ones. A move is kept exactly when the mover's king is unattacked after the simulation. A castling move also needs its king's square and the passed square unattacked on the real board |
| GameRules.SimulationNeverThrows | src/core/Game.cpp:69-76 | on a game board no pseudo-legal move makes the simulated performMove throw |
| GameRules.PerformMoveKeepsUnmoved | src/core/Board.cpp:209-275 | every piece still unmoved after performMove stood on that square before |
| GameRules.InCheckSpec | src/core/Game.cpp:39-47 | no king means no check; otherwise check is an attack on the first king of the colour by the opponent |
| GameRules.Decide | src/core/Game.cpp:117-133 | the decision table in priority order: checkmate (won by the other colour), stalemate, the fifty-move draw, check, playing; each state holds exactly when its row applies |
| PositionHash.XorFoldPermutation | src/core/Game.cpp:375-388 | the XOR fold depends only on the multiset of terms |
| PositionHash.HashScanOrder | src/core/Game.cpp:379-387 | the hash is the same for any visiting order of the occupied squares |
| PositionHash.HashEmpty | src/core/Game.cpp:377-387 | an empty board hashes to 0 for either side |
| PositionHash.HashReadsGrid | src/core/Game.cpp:379-387 | the hash reads only the grid and the side to move |
| PositionHash.Record | src/core/Game.cpp:369-373 | recordGameState adds one to the current hash's count, leaves every other count alone, and never lowers a count |
| GameSpec.InitialGameValid | src/core/Game.cpp:9-29 | a new game keeps the invariant, with White's king on (7,4) and Black's on (0,4) |
| GameSpec.MakeMoveEffects | src/core/Game.cpp:181-211 | an accepted move is made as follows. performMove succeeds and the history gains exactly that move. The clock is reset by a pawn move or capture and otherwise advances. The en-passant square is set behind a two-row pawn move and cleared otherwise. The full-move counter rises after Black. The turn passes. The new position's count rises by one and no count falls. A third occurrence overrides the state with a draw |
| GameSpec.MakeMoveRejects | src/core/Game.cpp:156-180 | makeMove accepts exactly when the game is on, the origin holds a piece of the side to move and the proposal equals a legal move; a rejection changes nothing |
| GameSpec.MakeMoveKeepsInvariant | src/core/Game.cpp:156-215 | every call to makeMove keeps the game invariant |
| Games.Game.constructor | src/core/Game.cpp:9-29 | the default setup on 8×8, White to move, playing, with the opening position recorded once |
| Games.Game.SwitchPlayer | src/core/Game.cpp:35-37 | only the side to move changes, to the opponent |
| Games.Game.IsKingInCheck | src/core/Game.cpp:39-47 | the result is the check predicate of the board |
| Games.Game.GeneratePseudoLegalMoves | src/core/Game.cpp:49-61 | the row-major scan returns the pseudo-legal move sequence |
| Games.Game.Simulate | src/core/Game.cpp:69-101 | the simulation on a copy decides whether the move is kept |
| Games.Game.GetLegalMovesForColor | src/core/Game.cpp:63-105 | the filter loop returns the legal move sequence |
| Games.Game.HasLegalMoves | src/core/Game.cpp:113-115 | true exactly when there is a legal move |
| Games.Game.UpdateGameState | src/core/Game.cpp:117-135 | the state becomes the decision table's for the side to move; the board's last move becomes the end of the history |
| Games.Game.HashGameState | src/core/Game.cpp:375-388 | the stored hash becomes the hash of the current position |
| Games.Game.RecordGameState | src/core/Game.cpp:369-373 | the hash is recomputed and its count raised by one |
| Games.Game.GetGameStateCount | src/core/Game.cpp:361-367 | the count of the stored hash, 0 when never recorded |
| Games.Game.IsProposedMoveLegal | src/core/Game.cpp:168-180 | true exactly when the proposal equals a legal move of the side to move |
| GameSpec.PlayedStages | src/core/Game.cpp:181-211 | the clock and en-passant stage, then the move stage, then the end of the turn, run in that order, give exactly the played game |
| Games.Game.UpdateHalfMoveClock | src/core/Game.cpp:182-187 | only the clock changes: 0 after a pawn move or onto an occupied square, one more otherwise |
| Games.Game.UpdateEnPassant | src/core/Game.cpp:189-194 | only the en-passant square changes: the skipped square after a two-row pawn move, none otherwise |
| Games.Game.PlayMove | src/core/Game.cpp:196-204 | the board becomes performMove's board with this move as its last move, the history gains the move, the counter rises after Black, and nothing else changes |
| Games.Game.FinishTurn | src/core/Game.cpp:206-209 | the other side moves, the board's last move is the end of the history, the new position is hashed and recorded, and the state is the rules' verdict unless the count reached 3 |
| Games.Game.Play | src/core/Game.cpp:181-211 | the new game is the played game of the makeMove specification |
| Games.Game.MakeMove | src/core/Game.cpp:156-215 | keeps the invariant, and the result and the new game are those of the makeMove specification |
| Engine.CaptureCountPermutation | src/ai/EvaluationEngine.cpp:25-40 | reordering moves keeps the number of captures |
| Engine.OrderedSplit | src/ai/EvaluationEngine.cpp:27-36 | any permutation with captures first puts exactly the input's captures in the leading block |
| Engine.OrderMoves | src/ai/EvaluationEngine.cpp:25-40 | the result is a permutation of the input (same length, same multiset) in which every move onto an occupied square comes before every move onto an empty square |
| Engine.EffectiveDepth | src/ai/EvaluationEngine.cpp:278 | a depth of 0 or below becomes 1; a positive depth is kept |
| Engine.FindBestMove | src/ai/EvaluationEngine.cpp:277-322 | the null move when the side to move has no legal move, whatever the search answered; otherwise the search's answer at the clamped depth |
| Engine.NullMoveNeverLegal | src/ai/EvaluationEngine.cpp:316-319 | the null move is never legal |
| Engine.FindBestMoveSentinel | src/ai/EvaluationEngine.cpp:316-319 | given a search that answers with legal moves, the answer is the null move exactly when there is no legal move |

## Left out

- Console rendering, the players, stdin/stdout and `main` are not part of
  this model.
- `EvaluationEngine::staticEvaluate` and `EvaluationEngine::search` work on
  floats. The search is a function parameter of `Engine.FindBestMove`, and
  the float alpha/beta bounds it receives are not modelled.
- Engine.FindBestMove: the search receives the game's value, not a
  `clone()` of the game object. So it does not model that the clone starts
  a fresh repetition table.
- Engine.OrderMoves: `std::sort` leaves the order within the capture and
  non-capture blocks unspecified. The model partitions from both ends and
  promises only the permutation and the capture split.
- `Game::unmakeMove` is an unfinished stub, so it is not part of this
  model. `Board::performUnmove` is declared but never defined.
- The copy and move constructors and assignments of `Board` and `Game`,
  `Game::clone`, and `unique_ptr` ownership are modelled as value copies.
  `Boards.Board.Copy` keeps the one observable effect: the copy has no last
  move.
- Piece values (floats) and `Color::NONE` are not modelled, since no piece
  ever has them.
- Pieces.WithPosition, Pieces.WithHasMoved: `setPosition` and `setHasMoved`
  mutate a heap piece in the source. Here a piece is a value held by its
  square, so the setters return the updated piece. The board writes it back
  into its grid, and no piece is reachable from two places.
- Pieces.NewPiece: the id counter is a process-wide static in the source.
  Here it is a field of each board (`nextPieceId`), advanced by every
  construction on that board. The ids therefore differ from the source's.
  In the source, the promotions simulated on board copies by the legality
  filter and the default setup run by `Game::clone` also advance the one
  counter, so later pieces get larger ids there. This changes no rule,
  because `getId` has no caller.
- Boards.Board.constructor: negative dimensions are excluded by its
  precondition. In the source, resizing the grid to a negative size throws
  `std::length_error`, and the model does not carry that exception.
- Games.Game.constructor: the board is fixed at 8×8. The source takes the
  dimensions as parameters, but only 8×8 gets past the default setup.
- PositionHash.PieceWord: the source multiplies a 32-bit `int` by the
  64-bit key. The model reduces the exact product modulo 2^64, which is
  the same word for the small non-negative values a board produces.
- GameRules.Keep drops a move whose simulated `performMove` would throw,
  where the source would let the exception escape.
  `GameRules.SimulationNeverThrows` proves this cannot happen on the boards
  a game reaches.
- BoardRules.Finish: after a promotion has replaced the pawn
  (src/core/Board.cpp:247), the source reads the moving piece through a
  pointer to the destroyed pawn for the castling test and for
  `updateCastlingRights`. The model reads the pawn it lifted, which is what
  the code evidently means: not a king, so no rook hop and no change of
  rights. The undefined behaviour of that read is not modelled.
- The castling-rights flags are written but never read by move generation
  in the source (`canCastleKingside`/`canCastleQueenside` have no caller
  among the generators). The model keeps them as data with their update
  rules.
- The trivial getters (`getColor`, `getDimensions`, `getGameState` and
  the like) are field reads of the values and are not separate members.
