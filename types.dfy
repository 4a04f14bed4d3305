/** The enumerations shared by the whole engine (src/core/ChessTypes.h) and the
    small Option/Result wrappers used for nullable pointers and thrown exceptions. */
module ChessTypes {

  /** Colour of a piece or player. The source's third value NONE is never given
      to a piece or a player, so the model keeps the two real colours. */
  datatype Color = White | Black

  function Opponent(c: Color): (o: Color)
    ensures o != c
  {
    if c == White then Black else White
  }

  /** Piece types in declaration order; EMPTY doubles as "no promotion" and as
      the wildcard of findPieces. */
  datatype PieceType = Pawn | Rook | Knight | Bishop | Queen | King | Empty

  /** The ordinal `static_cast<int>` gives each enumerator. */
  function TypeOrdinal(t: PieceType): (n: int)
    ensures 0 <= n <= 6
  {
    match t
    case Pawn => 0
    case Rook => 1
    case Knight => 2
    case Bishop => 3
    case Queen => 4
    case King => 5
    case Empty => 6
  }

  function ColorOrdinal(c: Color): (n: int)
    ensures 0 <= n <= 1
  {
    if c == White then 0 else 1
  }

  datatype GameState =
    | Playing
    | Check
    | CheckmateWhiteWins
    | CheckmateBlackWins
    | Stalemate
    | DrawHalfMoveRule
    | DrawThreefoldRepetition
    | DrawInsufficientMaterial
    | DrawAgreement

  /** A nullable pointer or an absent value. */
  datatype Option<T> = None | Some(value: T)

  /** The exceptions the core throws, with their messages. */
  datatype Error =
    | InvalidArgument(message: string)
    | OutOfRange(message: string)
    | RuntimeError(message: string)

  /** A value, or the exception that replaced it. */
  datatype Result<T> = Ok(value: T) | Err(error: Error)

  /** A void operation that completed, or the exception it threw. */
  datatype Outcome = Done | Failed(error: Error)

  function Abs(x: int): int
  {
    if x < 0 then -x else x
  }

  function Max(x: int, y: int): int
  {
    if x < y then y else x
  }
}
