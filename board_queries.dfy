/** The read-only scans of src/core/Board.cpp: findPieces, findKing and
    isSquareAttacked, each a row-major walk over the grid, specified here on
    the board's value. */
module BoardQueries {
  import opened ChessTypes
  import opened Positions
  import opened Moves
  import opened Pieces
  import opened BoardStates
  import opened BoardRules
  import opened MoveGen
  import opened Pawns

  // ---------------------------------------------------------------------------
  // findPieces

  /** A square holding a piece of the colour and, unless the type is EMPTY
      (the wildcard), of the type. */
  predicate Matches(sq: Option<Piece>, color: Color, t: PieceType)
  {
    sq.Some? && sq.value.color == color && (t == Empty || sq.value.kind == t)
  }

  /** The matching pieces of row r, columns 0 to c - 1, left to right. */
  function RowMatching(b: BoardState, color: Color, t: PieceType, r: int, c: int): seq<Piece>
    requires WellFormed(b) && 0 <= r < b.rows && 0 <= c <= b.cols
    decreases c
  {
    if c == 0 then []
    else RowMatching(b, color, t, r, c - 1) +
         (if Matches(b.grid[r][c - 1], color, t) then [b.grid[r][c - 1].value] else [])
  }

  /** The matching pieces of rows 0 to r - 1, in row-major order. */
  function Matching(b: BoardState, color: Color, t: PieceType, r: int): seq<Piece>
    requires WellFormed(b) && 0 <= r <= b.rows
  {
    if r == 0 then [] else Matching(b, color, t, r - 1) + RowMatching(b, color, t, r - 1, b.cols)
  }

  function FindPieces(b: BoardState, color: Color, t: PieceType): seq<Piece>
    requires WellFormed(b)
  {
    Matching(b, color, t, b.rows)
  }

  lemma {:induction false} RowMatchingMember(b: BoardState, color: Color, t: PieceType, r: int, c: int, x: Piece)
    requires WellFormed(b) && 0 <= r < b.rows && 0 <= c <= b.cols
    ensures x in RowMatching(b, color, t, r, c) <==>
            exists j :: 0 <= j < c && b.grid[r][j] == Some(x) && Matches(b.grid[r][j], color, t)
    decreases c
  {
    if c > 0 {
      RowMatchingMember(b, color, t, r, c - 1, x);
    }
  }

  lemma {:induction false} MatchingMember(b: BoardState, color: Color, t: PieceType, r: int, x: Piece)
    requires WellFormed(b) && 0 <= r <= b.rows
    ensures x in Matching(b, color, t, r) <==>
            exists q: Pos :: 0 <= q.row < r && OnBoard(b, q) && PieceAt(b, q) == Some(x) && Matches(PieceAt(b, q), color, t)
  {
    if r > 0 {
      MatchingMember(b, color, t, r - 1, x);
      RowMatchingMember(b, color, t, r - 1, b.cols, x);
      if x in RowMatching(b, color, t, r - 1, b.cols) {
        var j :| 0 <= j < b.cols && b.grid[r - 1][j] == Some(x) && Matches(b.grid[r - 1][j], color, t);
        assert PieceAt(b, Pos(r - 1, j)) == Some(x);
      }
      if exists q: Pos :: 0 <= q.row < r && OnBoard(b, q) && PieceAt(b, q) == Some(x) && Matches(PieceAt(b, q), color, t) {
        var q: Pos :| 0 <= q.row < r && OnBoard(b, q) && PieceAt(b, q) == Some(x) && Matches(PieceAt(b, q), color, t);
        if q.row == r - 1 {
          assert b.grid[r - 1][q.col] == Some(x);
        }
      }
    }
  }

  /** findPieces returns exactly the pieces of the colour (and of the type,
      unless the type is EMPTY) standing on the board. */
  lemma FindPiecesMember(b: BoardState, color: Color, t: PieceType, x: Piece)
    requires WellFormed(b)
    ensures x in FindPieces(b, color, t) <==>
            exists q :: PieceAt(b, q) == Some(x) && x.color == color && (t == Empty || x.kind == t)
  {
    MatchingMember(b, color, t, b.rows, x);
  }

  /** Asking for one type gives the pieces of that type among those of the colour. */
  lemma {:induction false} FindPiecesByType(b: BoardState, color: Color, t: PieceType, r: int)
    requires WellFormed(b) && 0 <= r <= b.rows
    ensures Matching(b, color, t, r) == Filter(Matching(b, color, Empty, r), t)
  {
    if r > 0 {
      FindPiecesByType(b, color, t, r - 1);
      RowByType(b, color, t, r - 1, b.cols);
      FilterAppend(Matching(b, color, Empty, r - 1), RowMatching(b, color, Empty, r - 1, b.cols), t);
    }
  }

  /** The pieces of a sequence that have type t, in order (all of them for EMPTY). */
  function Filter(s: seq<Piece>, t: PieceType): (r: seq<Piece>)
    ensures |r| <= |s|
  {
    if s == [] then []
    else Filter(s[..|s| - 1], t) + (if t == Empty || s[|s| - 1].kind == t then [s[|s| - 1]] else [])
  }

  lemma {:induction false} FilterAppend(s: seq<Piece>, u: seq<Piece>, t: PieceType)
    ensures Filter(s + u, t) == Filter(s, t) + Filter(u, t)
    decreases |u|
  {
    if u == [] {
      assert s + u == s;
    } else {
      assert (s + u)[..|s + u| - 1] == s + u[..|u| - 1];
      FilterAppend(s, u[..|u| - 1], t);
    }
  }

  lemma {:induction false} RowByType(b: BoardState, color: Color, t: PieceType, r: int, c: int)
    requires WellFormed(b) && 0 <= r < b.rows && 0 <= c <= b.cols
    ensures RowMatching(b, color, t, r, c) == Filter(RowMatching(b, color, Empty, r, c), t)
    decreases c
  {
    if c > 0 {
      RowByType(b, color, t, r, c - 1);
      var sq := b.grid[r][c - 1];
      var all := if Matches(sq, color, Empty) then [sq.value] else [];
      var typed := if Matches(sq, color, t) then [sq.value] else [];
      assert RowMatching(b, color, Empty, r, c) == RowMatching(b, color, Empty, r, c - 1) + all;
      assert RowMatching(b, color, t, r, c) == RowMatching(b, color, t, r, c - 1) + typed;
      FilterAppend(RowMatching(b, color, Empty, r, c - 1), all, t);
      if all != [] {
        FilterSingle(sq.value, t);
      }
    }
  }

  lemma FilterSingle(p: Piece, t: PieceType)
    ensures Filter([p], t) == if t == Empty || p.kind == t then [p] else []
  {
    assert [p][..0] == [];
  }

  // ---------------------------------------------------------------------------
  // findKing

  predicate KingSquare(sq: Option<Piece>, color: Color)
  {
    sq.Some? && sq.value.color == color && sq.value.kind == King
  }

  /** The recorded square of the first king of the colour met from (r, c)
      onwards in row-major order, or (-1, -1) when there is none. */
  function KingFrom(b: BoardState, color: Color, r: int, c: int): Pos
    requires WellFormed(b) && 0 <= r && 0 <= c <= b.cols
    decreases b.rows - r, b.cols - c
  {
    if r >= b.rows then NoPos
    else if c == b.cols then KingFrom(b, color, r + 1, 0)
    else if KingSquare(b.grid[r][c], color) then b.grid[r][c].value.pos
    else KingFrom(b, color, r, c + 1)
  }

  function FindKing(b: BoardState, color: Color): Pos
    requires WellFormed(b)
  {
    KingFrom(b, color, 0, 0)
  }

  /** Square q comes at or after (r, c) in row-major order. */
  predicate AtOrAfter(q: Pos, r: int, c: int)
  {
    q.row > r || (q.row == r && q.col >= c)
  }

  /** Square q comes strictly before square p in row-major order. */
  predicate Before(q: Pos, p: Pos)
  {
    q.row < p.row || (q.row == p.row && q.col < p.col)
  }

  lemma {:induction false} KingFromSpec(b: BoardState, color: Color, r: int, c: int)
    requires WellFormed(b) && Consistent(b) && 0 <= r && 0 <= c <= b.cols
    ensures var k := KingFrom(b, color, r, c);
      if exists q :: AtOrAfter(q, r, c) && IsKingOf(b, q, color) then
        AtOrAfter(k, r, c) && IsKingOf(b, k, color) &&
        forall q :: AtOrAfter(q, r, c) && Before(q, k) ==> !IsKingOf(b, q, color)
      else k == NoPos
    decreases b.rows - r, b.cols - c
  {
    if r >= b.rows {
    } else if c == b.cols {
      KingFromSpec(b, color, r + 1, 0);
      assert forall q :: AtOrAfter(q, r, c) && IsKingOf(b, q, color) ==> AtOrAfter(q, r + 1, 0);
    } else if KingSquare(b.grid[r][c], color) {
      assert IsKingOf(b, Pos(r, c), color);
    } else {
      KingFromSpec(b, color, r, c + 1);
      assert !IsKingOf(b, Pos(r, c), color);
      assert forall q :: AtOrAfter(q, r, c) && IsKingOf(b, q, color) ==> AtOrAfter(q, r, c + 1);
    }
  }

  /** On a board whose pieces record their squares, findKing gives the first
      square in row-major order holding a king of the colour, and (-1, -1)
      exactly when there is none. */
  lemma FindKingSpec(b: BoardState, color: Color)
    requires WellFormed(b) && Consistent(b)
    ensures var k := FindKing(b, color);
      ((exists q :: IsKingOf(b, q, color)) <==> k != NoPos) &&
      (k != NoPos ==> IsKingOf(b, k, color) && forall q :: Before(q, k) ==> !IsKingOf(b, q, color))
  {
    KingFromSpec(b, color, 0, 0);
    assert forall q :: IsKingOf(b, q, color) ==> AtOrAfter(q, 0, 0);
    assert !IsKingOf(b, NoPos, color);
  }

  // ---------------------------------------------------------------------------
  // isSquareAttacked

  /** The two squares diagonally ahead of a pawn, from its recorded square. */
  predicate PawnHits(p: Piece, sq: Pos)
  {
    sq.row == p.pos.row + Direction(p.color) && (sq.col == p.pos.col + 1 || sq.col == p.pos.col - 1)
  }

  /** One pass of the inner loop: a pawn counts for its diagonal squares
      whatever the move is; any other piece counts when the move lands on sq. */
  predicate Hits(p: Piece, m: Move, sq: Pos)
  {
    if p.kind == Pawn then PawnHits(p, sq) else m.to == sq
  }

  /** A piece attacks sq when some pass of the loop over its pseudo-legal
      moves counts it; so a pawn with no move attacks nothing. */
  predicate PieceAttacks(b: BoardState, p: Piece, sq: Pos)
    requires WellFormed(b)
  {
    var moves := PossibleMoves(b, p);
    exists i :: 0 <= i < |moves| && Hits(p, moves[i], sq)
  }

  predicate AttackerOn(b: BoardState, q: Pos, sq: Pos, color: Color)
    requires WellFormed(b)
  {
    PieceAt(b, q).Some? && PieceAt(b, q).value.color == color && PieceAttacks(b, PieceAt(b, q).value, sq)
  }

  predicate SquareAttacked(b: BoardState, sq: Pos, color: Color)
    requires WellFormed(b)
  {
    OnBoard(b, sq) && exists r, c :: 0 <= r < b.rows && 0 <= c < b.cols && AttackerOn(b, Pos(r, c), sq, color)
  }

  /** The two readings of the attack test: a pawn attacks its two forward
      diagonals when it has at least one move, and any other piece attacks
      exactly the targets of its moves, castling targets included. */
  lemma PieceAttacksIff(b: BoardState, p: Piece, sq: Pos)
    requires WellFormed(b)
    ensures p.kind == Pawn ==> (PieceAttacks(b, p, sq) <==> |PossibleMoves(b, p)| > 0 && PawnHits(p, sq))
    ensures p.kind != Pawn ==> (PieceAttacks(b, p, sq) <==> exists m :: m in PossibleMoves(b, p) && m.to == sq)
  {
    var moves := PossibleMoves(b, p);
    if p.kind == Pawn && |moves| > 0 && PawnHits(p, sq) {
      assert Hits(p, moves[0], sq);
    }
    if p.kind != Pawn && exists m :: m in moves && m.to == sq {
      var m :| m in moves && m.to == sq;
      var i :| 0 <= i < |moves| && moves[i] == m;
      assert Hits(p, moves[i], sq);
    }
  }
}
