/** The two pieces of src/ai/EvaluationEngine.cpp that are not the search:
    the move ordering, which puts the moves onto an occupied square first,
    and the wrapper around the search, which clamps the depth and answers
    the null move when there is nothing to play. The search itself is a
    parameter. */
module Engine {
  import opened ChessTypes
  import opened Positions
  import opened Moves
  import opened BoardStates
  import opened Seqs
  import opened GameRules
  import opened GameSpec

  // ---------------------------------------------------------------------------
  // orderMoves

  /** The capture test of the ordering: the target square is occupied. An
      en-passant capture lands on an empty square and so does not count. */
  predicate IsCapture(b: BoardState, m: Move)
    requires WellFormed(b)
  {
    PieceAt(b, m.to).Some?
  }

  /** No non-capture comes before a capture. */
  predicate CapturesFirst(b: BoardState, s: seq<Move>)
    requires WellFormed(b)
  {
    forall i, j :: 0 <= i < j < |s| && IsCapture(b, s[j]) ==> IsCapture(b, s[i])
  }

  /** How many moves of a sequence are captures. */
  function CaptureCount(b: BoardState, s: seq<Move>): (n: nat)
    requires WellFormed(b)
    ensures n <= |s|
  {
    if s == [] then 0
    else CaptureCount(b, s[..|s| - 1]) + (if IsCapture(b, s[|s| - 1]) then 1 else 0)
  }

  /** Taking one move out of a sequence takes its capture out of the count. */
  lemma CaptureCountRemove(b: BoardState, s: seq<Move>, i: int)
    requires WellFormed(b) && 0 <= i < |s|
    ensures CaptureCount(b, s) == CaptureCount(b, s[..i] + s[i + 1..]) + (if IsCapture(b, s[i]) then 1 else 0)
  {
    assert s == s[..i] + [s[i]] + s[i + 1..];
    CaptureCountAppend(b, s[..i] + [s[i]], s[i + 1..]);
    CaptureCountAppend(b, s[..i], [s[i]]);
    CaptureCountAppend(b, s[..i], s[i + 1..]);
    assert [s[i]][..0] == [];
  }

  lemma {:induction false} CaptureCountAppend(b: BoardState, s: seq<Move>, t: seq<Move>)
    requires WellFormed(b)
    ensures CaptureCount(b, s + t) == CaptureCount(b, s) + CaptureCount(b, t)
    decreases |t|
  {
    if t == [] {
      assert s + t == s;
    } else {
      assert (s + t)[..|s + t| - 1] == s + t[..|t| - 1];
      CaptureCountAppend(b, s, t[..|t| - 1]);
    }
  }

  /** Reordering the moves does not change how many of them are captures. */
  lemma {:induction false} CaptureCountPermutation(b: BoardState, s: seq<Move>, t: seq<Move>)
    requires WellFormed(b) && multiset(s) == multiset(t)
    ensures CaptureCount(b, s) == CaptureCount(b, t)
    decreases |s|
  {
    if s != [] {
      var i := MatchLast(s, t);
      CaptureCountPermutation(b, s[..|s| - 1], t[..i] + t[i + 1..]);
      CaptureCountRemove(b, t, i);
    } else {
      assert |t| == |multiset(t)|;
    }
  }

  /** A sequence with the captures first is a block of captures followed by a
      block of non-captures, the first as long as the number of captures. */
  lemma {:induction false} CapturesFirstSplit(b: BoardState, s: seq<Move>)
    requires WellFormed(b) && CapturesFirst(b, s)
    ensures forall i :: 0 <= i < |s| ==> (IsCapture(b, s[i]) <==> i < CaptureCount(b, s))
    decreases |s|
  {
    if s != [] {
      var s' := s[..|s| - 1];
      assert CapturesFirst(b, s');
      CapturesFirstSplit(b, s');
      if IsCapture(b, s[|s| - 1]) {
        assert forall i :: 0 <= i < |s'| ==> IsCapture(b, s'[i]);
      }
    }
  }

  /** Whatever order the in-place sort leaves, the result of orderMoves is
      determined up to the order within the two blocks: its first
      CaptureCount(moves) entries are exactly the captures of the input. */
  lemma OrderedSplit(b: BoardState, moves: seq<Move>, ordered: seq<Move>)
    requires WellFormed(b) && multiset(ordered) == multiset(moves) && CapturesFirst(b, ordered)
    ensures forall i :: 0 <= i < |ordered| ==> (IsCapture(b, ordered[i]) <==> i < CaptureCount(b, moves))
  {
    CaptureCountPermutation(b, ordered, moves);
    CapturesFirstSplit(b, ordered);
  }

  /** orderMoves: the moves copied and sorted in place so that every capture
      comes before every non-capture. The order within each block is left
      to the sort; this one partitions from both ends. */
  method OrderMoves(moves: seq<Move>, b: BoardState) returns (ordered: seq<Move>)
    requires WellFormed(b)
    ensures multiset(ordered) == multiset(moves)
    ensures |ordered| == |moves|
    ensures CapturesFirst(b, ordered)
  {
    var a := new Move[|moves|](i requires 0 <= i < |moves| => moves[i]);
    assert a[..] == moves;
    var lo, hi := 0, a.Length;
    while lo < hi
      invariant 0 <= lo <= hi <= a.Length
      invariant multiset(a[..]) == multiset(moves)
      invariant forall k :: 0 <= k < lo ==> IsCapture(b, a[k])
      invariant forall k :: hi <= k < a.Length ==> !IsCapture(b, a[k])
    {
      if IsCapture(b, a[lo]) {
        lo := lo + 1;
      } else {
        hi := hi - 1;
        Swap(a, lo, hi);
      }
    }
    ordered := a[..];
    PartitionedCapturesFirst(b, ordered, lo);
    assert |multiset(ordered)| == |multiset(moves)|;
  }

  /** Exchanges two entries of the array, keeping its contents as a multiset. */
  method Swap(a: array<Move>, i: int, j: int)
    requires 0 <= i < a.Length && 0 <= j < a.Length
    modifies a
    ensures a[..] == old(a[..])[i := old(a[j])][j := old(a[i])]
    ensures multiset(a[..]) == multiset(old(a[..]))
  {
    a[i], a[j] := a[j], a[i];
  }

  /** A sequence whose captures are exactly the entries before some index has
      its captures first. */
  lemma PartitionedCapturesFirst(b: BoardState, s: seq<Move>, n: int)
    requires WellFormed(b) && 0 <= n <= |s|
    requires forall k :: 0 <= k < n ==> IsCapture(b, s[k])
    requires forall k :: n <= k < |s| ==> !IsCapture(b, s[k])
    ensures CapturesFirst(b, s)
  {
  }

  // ---------------------------------------------------------------------------
  // findBestMove

  /** The depth the search is run at: a depth of zero or below becomes 1. */
  function EffectiveDepth(depth: int): (d: int)
    ensures d >= 1
    ensures depth >= 1 ==> d == depth
    ensures depth <= 0 ==> d == 1
  {
    if depth <= 0 then 1 else depth
  }

  /** The search, as the wrapper calls it: the game, the depth, whether the
      side to move is White (the maximising side), and the side to move. */
  type Search = (GameValue, int, bool, Color) -> Move

  /** findBestMove: the search's move, run at the clamped depth, unless the
      side to move has no legal move, when the null move is the answer
      whatever the search returned. */
  function FindBestMove(g: GameValue, depth: int, search: Search): (best: Move)
    requires WellFormed(g.board)
    ensures LegalMoves(g.board, g.current) == [] ==> best == NullMove
    ensures LegalMoves(g.board, g.current) != [] ==>
              best == search(g, EffectiveDepth(depth), g.current == White, g.current)
  {
    var d := EffectiveDepth(depth);
    var result := search(g, d, g.current == White, g.current);
    if LegalMoves(g.board, g.current) == [] then NullMove else result
  }

  /** The null move is never a legal move, so a caller can tell the answer
      "nothing to play" apart from every real answer. */
  lemma NullMoveNeverLegal(b: BoardState, color: Color)
    requires WellFormed(b)
    ensures NullMove !in LegalMoves(b, color)
  {
    LegalMovesSpec(b, color);
    assert !OnBoard(b.(lastMove := None), NullMove.from);
  }

  /** The answer of findBestMove is the null move exactly when there is
      nothing to play, given a search that answers with a legal move. */
  lemma FindBestMoveSentinel(g: GameValue, depth: int, search: Search)
    requires WellFormed(g.board)
    requires forall d, w :: search(g, d, w, g.current) in LegalMoves(g.board, g.current) ||
                           LegalMoves(g.board, g.current) == []
    ensures FindBestMove(g, depth, search) == NullMove <==> LegalMoves(g.board, g.current) == []
  {
    NullMoveNeverLegal(g.board, g.current);
  }
}
