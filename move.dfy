/** A move: origin, destination and the three special-move flags
    (src/core/Move.cpp). */
module Moves {
  import opened ChessTypes
  import opened Positions

  /** The constructor's defaults: no promotion, not castling, not en passant. */
  datatype Move = Move(from: Pos, to: Pos, promotion: PieceType := Empty,
                       isCastling: bool := false, isEnPassant: bool := false)

  /** The "no move" the engine returns when there is nothing to play. */
  const NullMove: Move := Move(Pos(-1, -1), Pos(-1, -1))

  /** A move built from its two squares alone carries no special flag. */
  predicate Plain(m: Move)
  {
    m.promotion == Empty && !m.isCastling && !m.isEnPassant
  }

  lemma PlainByDefault(f: Pos, t: Pos)
    ensures Plain(Move(f, t))
    ensures Move(f, t) == Move(f, t, Empty, false, false)
  {
  }

  /** operator==: all five fields compared, which is value equality of moves. */
  function Equals(a: Move, b: Move): (r: bool)
    ensures r <==> a == b
    ensures r ==> a.promotion == b.promotion
  {
    Positions.Equals(a.from, b.from) && Positions.Equals(a.to, b.to) &&
    a.promotion == b.promotion && a.isCastling == b.isCastling && a.isEnPassant == b.isEnPassant
  }

  /** The letter toString appends for a promotion piece, if any. */
  function PromotionSuffix(t: PieceType): (s: string)
    ensures |s| <= 1
    ensures |s| == 1 <==> t in {Queen, Rook, Bishop, Knight}
  {
    match t
    case Queen => "q"
    case Rook => "r"
    case Bishop => "b"
    case Knight => "n"
    case _ => ""
  }

  /** toString: both squares in algebraic notation, then the promotion letter. */
  function ToString(m: Move): (s: string)
    ensures |s| == 4 || |s| == 5
    ensures s[..2] == ToAlgebraic(m.from) && s[2..4] == ToAlgebraic(m.to)
    ensures |s| == 5 <==> m.promotion in {Queen, Rook, Bishop, Knight}
    ensures |s| == 5 ==> s[4] in {'q', 'r', 'b', 'n'}
  {
    ToAlgebraic(m.from) + ToAlgebraic(m.to) + PromotionSuffix(m.promotion)
  }

  lemma NullMoveString()
    ensures ToString(NullMove) == "????"
  {
  }

  /** Moves between board squares whose promotion is one the text can show
      (none, or one of the four letters) and which carry no castling or
      en-passant flag are told apart by their text. */
  lemma ToStringInjective(a: Move, b: Move)
    requires IsValid(a.from) && IsValid(a.to) && IsValid(b.from) && IsValid(b.to)
    requires a.promotion in {Empty, Queen, Rook, Bishop, Knight}
    requires b.promotion in {Empty, Queen, Rook, Bishop, Knight}
    requires !a.isCastling && !a.isEnPassant && !b.isCastling && !b.isEnPassant
    requires ToString(a) == ToString(b)
    ensures a == b
  {
    var s := ToString(a);
    assert s[..2] == ToString(b)[..2];
    assert s[2..4] == ToString(b)[2..4];
    AlgebraicInjective(a.from, b.from);
    AlgebraicInjective(a.to, b.to);
    if |s| == 5 {
      assert s[4] == ToString(b)[4];
    }
  }
}
