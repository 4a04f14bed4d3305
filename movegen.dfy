/** The virtual getPossibleMoves of src/core/Piece.h, dispatched on the
    closed set of piece kinds. */
module MoveGen {
  import opened ChessTypes
  import opened Positions
  import opened Moves
  import opened Pieces
  import opened BoardStates
  import opened Seqs
  import opened Sliding
  import opened Stepping
  import opened Rooks
  import opened Bishops
  import opened Queens
  import opened Knights
  import opened Kings
  import opened Pawns

  /** The pseudo-legal moves of one piece on a board. */
  function PossibleMoves(b: BoardState, p: Piece): seq<Move>
    requires WellFormed(b)
  {
    match p.kind
    case Pawn => PawnMoves(b, p)
    case Rook => RookMoves(b, p)
    case Knight => KnightMoves(b, p)
    case Bishop => BishopMoves(b, p)
    case Queen => QueenMoves(b, p)
    case King => KingMoves(b, p)
  }

  method GetPossibleMoves(b: BoardState, p: Piece) returns (moves: seq<Move>)
    requires WellFormed(b)
    ensures moves == PossibleMoves(b, p)
  {
    match p.kind {
      case Pawn => moves := GetPawnMoves(b, p);
      case Rook => moves := GetRookMoves(b, p);
      case Knight => moves := GetKnightMoves(b, p);
      case Bishop => moves := GetBishopMoves(b, p);
      case Queen => moves := GetQueenMoves(b, p);
      case King => moves := GetKingMoves(b, p);
    }
  }

  /** Every move starts on the piece's square; only a king castles, only a
      pawn promotes or captures en passant; every move but a castling intent
      lands on the board, and so does a castling intent of a king standing
      on column 4 of an 8x8 board. */
  lemma PossibleMovesShape(b: BoardState, p: Piece, m: Move)
    requires WellFormed(b) && OnBoard(b, p.pos) && m in PossibleMoves(b, p)
    ensures m.from == p.pos
    ensures m.isCastling ==> p.kind == King && MayCastle(b, p)
    ensures m.promotion != Empty || m.isEnPassant ==> p.kind == Pawn
    ensures !m.isCastling ==> OnBoard(b, m.to)
    ensures m.isCastling && p.pos.col == 4 ==> OnBoard(b, m.to)
  {
    match p.kind {
      case Pawn => PawnMovesIff(b, p, m);
      case Rook => RookMovesIff(b, p, m);
      case Knight => KnightMovesIff(b, p, m);
      case Bishop => BishopMovesIff(b, p, m);
      case Queen => QueenMovesIff(b, p, m);
      case King => KingMovesIff(b, p, m);
    }
  }
}
