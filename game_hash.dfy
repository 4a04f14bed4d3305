/** The position hash and the repetition table of src/core/Game.cpp: a 64-bit
    XOR over the occupied squares, and a map from hashes to the number of
    times each was recorded. */
module PositionHash {
  import opened ChessTypes
  import opened Positions
  import opened Pieces
  import opened BoardStates
  import opened Scans
  import opened Seqs

  /** The two 64-bit multipliers, as the unsigned values they denote. */
  const WhiteKey: nat := 0x9e37_79b9_7f4a_7c15
  const BlackKey: nat := 0xfedc_ba98_7654_3210

  /** The multiplier: one constant with White to move, the other with Black. */
  function Key(side: Color): nat
  {
    if side == White then WhiteKey else BlackKey
  }

  /** The conversion of an int to a 64-bit unsigned value: the value modulo 2^64. */
  function ToWord(v: int): bv64
  {
    (v % 0x1_0000_0000_0000_0000) as bv64
  }

  /** The term of a piece on a square: (type ordinal + colour ordinal + row +
      column) times the key, modulo 2^64. The int is converted to the key's
      unsigned 64-bit type before the product, which wraps modulo 2^64, so
      reducing the exact product once gives the same word. */
  function PieceWord(p: Piece, q: Pos, key: nat): bv64
  {
    ToWord((TypeOrdinal(p.kind) + ColorOrdinal(p.color) + q.row + q.col) * key)
  }

  /** What a square contributes: nothing when empty, its piece's term otherwise. */
  function SquareTerm(sq: Option<Piece>, q: Pos, key: nat): seq<bv64>
  {
    match sq
    case None => []
    case Some(p) => [PieceWord(p, q, key)]
  }

  function TermGen(b: BoardState, key: nat): Pos -> seq<bv64>
    requires WellFormed(b)
  {
    q => SquareTerm(PieceAt(b, q), q, key)
  }

  /** The terms of the occupied squares, in the row-major order of the loop. */
  function Terms(b: BoardState, side: Color): seq<bv64>
    requires WellFormed(b)
  {
    GridScan(TermGen(b, Key(side)), b.rows, b.cols)
  }

  /** The XOR of two words. Every fact the fold lemmas need about it is one of
      the three small lemmas below. */
  function Xor(a: bv64, b: bv64): bv64
  {
    a ^ b
  }

  lemma XorAssoc(a: bv64, b: bv64, c: bv64)
    ensures Xor(Xor(a, b), c) == Xor(a, Xor(b, c))
  {
    assert (a ^ b) ^ c == a ^ (b ^ c);
  }

  lemma XorComm(a: bv64, b: bv64)
    ensures Xor(a, b) == Xor(b, a)
  {
  }

  lemma XorZero(a: bv64)
    ensures Xor(a, 0) == a
  {
  }

  /** The XOR of a sequence, folded from the left starting at 0. */
  function XorFold(s: seq<bv64>): bv64
  {
    if s == [] then 0 else Xor(XorFold(s[..|s| - 1]), s[|s| - 1])
  }

  /** hashGameState: the XOR of the terms of all occupied squares. */
  function Hash(b: BoardState, side: Color): bv64
    requires WellFormed(b)
  {
    XorFold(Terms(b, side))
  }

  lemma {:induction false} XorFoldAppend(s: seq<bv64>, t: seq<bv64>)
    ensures XorFold(s + t) == Xor(XorFold(s), XorFold(t))
    decreases |t|
  {
    if t == [] {
      assert s + t == s;
      XorZero(XorFold(s));
    } else {
      var t', x := t[..|t| - 1], t[|t| - 1];
      var st := s + t;
      assert st[..|st| - 1] == s + t' && st[|st| - 1] == x;
      XorFoldAppend(s, t');
      XorAssoc(XorFold(s), XorFold(t'), x);
    }
  }

  /** One more term: the fold so far, XORed with it. */
  lemma XorFoldPush(s: seq<bv64>, x: bv64)
    ensures XorFold(s + [x]) == Xor(XorFold(s), x)
  {
    assert (s + [x])[..|s + [x]| - 1] == s;
  }

  /** One square of the scan: its term, if any, XORed into the row's fold. */
  lemma RowHashStep(f: Pos -> seq<bv64>, r: int, c: nat, occupied: bool, term: bv64)
    requires f(Pos(r, c)) == if occupied then [term] else []
    ensures XorFold(RowScan(f, r, c + 1)) ==
            if occupied then Xor(XorFold(RowScan(f, r, c)), term) else XorFold(RowScan(f, r, c))
  {
    if occupied {
      XorFoldPush(RowScan(f, r, c), term);
    } else {
      assert RowScan(f, r, c + 1) == RowScan(f, r, c);
    }
  }

  /** One row of the scan: its fold XORed into the fold of the rows before. */
  lemma GridHashStep(f: Pos -> seq<bv64>, r: nat, cols: nat)
    ensures XorFold(GridScan(f, r + 1, cols)) == Xor(XorFold(GridScan(f, r, cols)), XorFold(RowScan(f, r, cols)))
  {
    XorFoldAppend(GridScan(f, r, cols), RowScan(f, r, cols));
  }

  lemma XorRow(f: Pos -> seq<bv64>, r: nat, cols: nat, h: bv64, rowHash: bv64)
    requires h == XorFold(GridScan(f, r, cols)) && rowHash == XorFold(RowScan(f, r, cols))
    ensures Xor(h, rowHash) == XorFold(GridScan(f, r + 1, cols))
  {
    GridHashStep(f, r, cols);
  }

  /** Taking one element out: the fold of the rest, XORed with it. */
  lemma XorFoldRemove(s: seq<bv64>, i: int)
    requires 0 <= i < |s|
    ensures XorFold(s) == Xor(XorFold(s[..i] + s[i + 1..]), s[i])
  {
    var pre, x, post := s[..i], s[i], s[i + 1..];
    SplitAt(s, i);
    XorFoldAppend(pre + [x], post);
    XorFoldPush(pre, x);
    XorFoldAppend(pre, post);
    XorRotate(XorFold(pre), x, XorFold(post));
  }

  lemma XorRotate(a: bv64, b: bv64, c: bv64)
    ensures Xor(Xor(a, b), c) == Xor(Xor(a, c), b)
  {
    XorAssoc(a, b, c);
    XorComm(b, c);
    XorAssoc(a, c, b);
  }

  /** The fold depends only on the multiset of the terms: any order of visiting
      the squares gives the same hash. */
  lemma {:induction false} XorFoldPermutation(s: seq<bv64>, t: seq<bv64>)
    requires multiset(s) == multiset(t)
    ensures XorFold(s) == XorFold(t)
    decreases |s|
  {
    if s != [] {
      var i := MatchLast(s, t);
      var s', t' := s[..|s| - 1], t[..i] + t[i + 1..];
      XorFoldPermutation(s', t');
      XorFoldRemove(t, i);
    } else {
      assert |t| == |multiset(t)|;
    }
  }

  /** The hash is the same for every enumeration of the occupied squares' terms. */
  lemma HashScanOrder(b: BoardState, side: Color, order: seq<bv64>)
    requires WellFormed(b) && multiset(order) == multiset(Terms(b, side))
    ensures Hash(b, side) == XorFold(order)
  {
    XorFoldPermutation(Terms(b, side), order);
  }

  /** A board with no piece on it hashes to 0, whoever is to move. */
  lemma HashEmpty(b: BoardState, side: Color)
    requires WellFormed(b) && forall q :: PieceAt(b, q) == None
    ensures Hash(b, side) == 0
  {
    var f := TermGen(b, Key(side));
    assert forall q: Pos :: f(q) == [];
    GridScanEmpty(f, b.rows, b.cols);
  }

  /** The hash reads only the grid: the castling rights, the en-passant
      square, the last move and the id counter do not enter it. */
  lemma HashReadsGrid(b: BoardState, c: BoardState, side: Color)
    requires WellFormed(b) && WellFormed(c) && b.rows == c.rows && b.cols == c.cols && b.grid == c.grid
    ensures Hash(b, side) == Hash(c, side)
  {
    var f, g := TermGen(b, Key(side)), TermGen(c, Key(side));
    forall q: Pos
      ensures f(q) == g(q)
    {
      assert PieceAt(b, q) == PieceAt(c, q);
    }
    GridScanExt(f, g, b.rows, b.cols);
  }

  // ---------------------------------------------------------------------------
  // The repetition table

  /** A hash as a key of the repetition table. */
  datatype Stamp = Stamp(hash: bv64)

  /** getGameStateCount: the count recorded for a hash, 0 for one never seen. */
  function Count(record: map<Stamp, nat>, h: bv64): nat
  {
    if Stamp(h) in record then record[Stamp(h)] else 0
  }

  /** recordGameState: the count of the hash goes up by one, every other
      count stays, so no count ever goes down. */
  function Record(record: map<Stamp, nat>, h: bv64): (r: map<Stamp, nat>)
    ensures Count(r, h) == Count(record, h) + 1
    ensures forall k :: k != h ==> Count(r, k) == Count(record, k)
    ensures forall k :: Count(r, k) >= Count(record, k)
  {
    record[Stamp(h) := Count(record, h) + 1]
  }
}
