/** The sliding walk shared by the rook, the bishop and the queen
    (src/core/Rook.cpp, src/core/Bishop.cpp, src/core/Queen.cpp): for each
    direction of a table, step i = 1, 2, ... squares away, stopping at the
    edge, after an empty square continuing, and at an occupied square
    emitting a capture of an enemy piece and stopping. */
module Sliding {
  import opened ChessTypes
  import opened Positions
  import opened Moves
  import opened Pieces
  import opened BoardStates
  import opened Seqs

  /** A direction (row step, column step). */
  datatype Dir = Dir(dr: int, dc: int)

  /** A king-step direction: each component in -1..1 and not both zero. */
  predicate Unit(d: Dir)
  {
    -1 <= d.dr <= 1 && -1 <= d.dc <= 1 && d != Dir(0, 0)
  }

  predicate AllUnit(dirs: seq<Dir>)
  {
    forall i :: 0 <= i < |dirs| ==> Unit(dirs[i])
  }

  /** The square k steps away in direction d. */
  function Offset(p: Pos, d: Dir, k: int): Pos
  {
    Pos(p.row + d.dr * k, p.col + d.dc * k)
  }

  function Sign(x: int): (s: int)
    ensures -1 <= s <= 1
    ensures (s == 0 <==> x == 0) && (s == 1 <==> x > 0)
  {
    if x > 0 then 1 else if x < 0 then -1 else 0
  }

  /** Chebyshev distance: the number of king steps between two squares. */
  function Dist(p: Pos, q: Pos): (n: int)
    ensures n >= 0
    ensures n == 0 <==> p == q
  {
    Max(Abs(q.row - p.row), Abs(q.col - p.col))
  }

  /** Every square strictly between `from` and `to`, walking in the direction
      that points from one to the other, is empty. */
  predicate LineClear(b: BoardState, from: Pos, to: Pos)
    requires WellFormed(b)
  {
    var d := Dir(Sign(to.row - from.row), Sign(to.col - from.col));
    forall j :: 1 <= j < Dist(from, to) ==> PieceAt(b, Offset(from, d, j)).None?
  }

  /** The longest walk the source tries: i runs from 1 to max(rows, cols) - 1. */
  function Reach(b: BoardState): int
  {
    Max(b.rows, b.cols)
  }

  /** The walk in one direction, starting at distance i. */
  function Ray(b: BoardState, from: Pos, color: Color, d: Dir, i: int): seq<Move>
    requires WellFormed(b)
    decreases Reach(b) - i
  {
    if i >= Reach(b) then []
    else
      var next := Offset(from, d, i);
      if !OnBoard(b, next) then []
      else if PieceAt(b, next).None? then [Move(from, next)] + Ray(b, from, color, d, i + 1)
      else if PieceAt(b, next).value.color != color then [Move(from, next)]
      else []
  }

  /** The walks of a direction table, in table order. */
  function Slide(b: BoardState, from: Pos, color: Color, dirs: seq<Dir>): seq<Move>
    requires WellFormed(b)
    decreases |dirs|
  {
    if dirs == [] then []
    else Slide(b, from, color, dirs[..|dirs| - 1]) + Ray(b, from, color, dirs[|dirs| - 1], 1)
  }

  /** The j-th move of a walk started at distance i is the plain move to the
      square at distance i + j, on the board and empty or enemy-held; every
      move but the last goes to an empty square; the walk stays short of
      max(rows, cols). */
  lemma {:induction false} RayShape(b: BoardState, from: Pos, color: Color, d: Dir, i: int)
    requires WellFormed(b)
    ensures var r := Ray(b, from, color, d, i);
      (r == [] || i + |r| <= Reach(b)) &&
      (forall j :: 0 <= j < |r| ==>
        r[j] == Move(from, Offset(from, d, i + j)) && OnBoard(b, r[j].to) && CanLand(b, r[j].to, color)) &&
      (forall j :: 0 <= j < |r| - 1 ==> PieceAt(b, r[j].to).None?)
    decreases Reach(b) - i
  {
    if i < Reach(b) {
      var next := Offset(from, d, i);
      if OnBoard(b, next) && PieceAt(b, next).None? {
        RayShape(b, from, color, d, i + 1);
        var r := Ray(b, from, color, d, i);
        var rest := Ray(b, from, color, d, i + 1);
        assert r == [Move(from, next)] + rest;
        forall j | 1 <= j < |r|
          ensures r[j] == Move(from, Offset(from, d, i + j))
        {
          assert r[j] == rest[j - 1];
          assert i + 1 + (j - 1) == i + j;
        }
      }
    }
  }

  /** A walk started at distance i reaches the square at distance k when every
      square from i up to k is empty and that square is on the board, within
      reach, and empty or enemy-held. */
  lemma {:induction false} RayComplete(b: BoardState, from: Pos, color: Color, d: Dir, i: int, k: int)
    requires WellFormed(b) && Unit(d) && OnBoard(b, from)
    requires 0 <= i <= k < Reach(b)
    requires OnBoard(b, Offset(from, d, k)) && CanLand(b, Offset(from, d, k), color)
    requires forall j :: i <= j < k ==> PieceAt(b, Offset(from, d, j)).None?
    ensures Move(from, Offset(from, d, k)) in Ray(b, from, color, d, i)
    decreases k - i
  {
    if i < k {
      Between(b, from, d, i, k);
      RayComplete(b, from, color, d, i + 1, k);
    }
  }

  /** On a straight line, squares between two on-board squares are on the board. */
  lemma Between(b: BoardState, from: Pos, d: Dir, j: int, k: int)
    requires WellFormed(b) && Unit(d) && OnBoard(b, from) && OnBoard(b, Offset(from, d, k))
    requires 0 <= j <= k
    ensures OnBoard(b, Offset(from, d, j))
  {
    if d.dr == 1 { assert Offset(from, d, j).row == from.row + j; }
    else if d.dr == -1 { assert Offset(from, d, j).row == from.row - j; }
    if d.dc == 1 { assert Offset(from, d, j).col == from.col + j; }
    else if d.dc == -1 { assert Offset(from, d, j).col == from.col - j; }
  }

  /** Walking k >= 1 unit steps: the direction and the count can be read back
      from the two squares. */
  lemma UnitGeometry(from: Pos, d: Dir, k: int)
    requires Unit(d) && k >= 1
    ensures var t := Offset(from, d, k);
      Sign(t.row - from.row) == d.dr && Sign(t.col - from.col) == d.dc && Dist(from, t) == k
  {
    var t := Offset(from, d, k);
    if d.dr == 1 { assert t.row - from.row == k; }
    else if d.dr == -1 { assert t.row - from.row == -k; }
    else { assert t.row - from.row == 0; }
    if d.dc == 1 { assert t.col - from.col == k; }
    else if d.dc == -1 { assert t.col - from.col == -k; }
    else { assert t.col - from.col == 0; }
  }

  /** Distinct (direction, distance) pairs reach distinct squares. */
  lemma OffsetInjective(from: Pos, d1: Dir, k1: int, d2: Dir, k2: int)
    requires Unit(d1) && Unit(d2) && k1 >= 1 && k2 >= 1
    requires Offset(from, d1, k1) == Offset(from, d2, k2)
    ensures d1 == d2 && k1 == k2
  {
    UnitGeometry(from, d1, k1);
    UnitGeometry(from, d2, k2);
  }

  /** The squares passed on the way to distance k are exactly those LineClear inspects. */
  lemma LineClearOffset(b: BoardState, from: Pos, d: Dir, k: int)
    requires WellFormed(b) && Unit(d) && k >= 1
    ensures LineClear(b, from, Offset(from, d, k)) <==>
      forall j :: 1 <= j < k ==> PieceAt(b, Offset(from, d, j)).None?
  {
    UnitGeometry(from, d, k);
  }

  /** A move the walk in direction d reaches at distance k. */
  predicate Reaches(b: BoardState, from: Pos, color: Color, d: Dir, k: int)
    requires WellFormed(b)
  {
    1 <= k < Reach(b) && OnBoard(b, Offset(from, d, k)) && CanLand(b, Offset(from, d, k), color) &&
    forall j :: 1 <= j < k ==> PieceAt(b, Offset(from, d, j)).None?
  }

  /** Every move of a walk from distance 1 is reached by it. */
  lemma RaySound(b: BoardState, from: Pos, color: Color, d: Dir, m: Move)
    requires WellFormed(b) && m in Ray(b, from, color, d, 1)
    ensures exists k :: m == Move(from, Offset(from, d, k)) && Reaches(b, from, color, d, k)
  {
    RayShape(b, from, color, d, 1);
    var r := Ray(b, from, color, d, 1);
    var j :| 0 <= j < |r| && r[j] == m;
    forall j' | 1 <= j' < 1 + j
      ensures PieceAt(b, Offset(from, d, j')).None?
    {
      assert r[j' - 1].to == Offset(from, d, j');
    }
    assert m == Move(from, Offset(from, d, 1 + j)) && Reaches(b, from, color, d, 1 + j);
  }

  /** Membership in the walks of a direction table, in both directions. */
  lemma {:induction false} SlideMember(b: BoardState, from: Pos, color: Color, dirs: seq<Dir>, m: Move)
    requires WellFormed(b) && AllUnit(dirs) && OnBoard(b, from)
    ensures m in Slide(b, from, color, dirs) <==>
      exists d, k :: d in dirs && m == Move(from, Offset(from, d, k)) && Reaches(b, from, color, d, k)
    decreases |dirs|
  {
    if dirs != [] {
      var pre := dirs[..|dirs| - 1];
      var last := dirs[|dirs| - 1];
      assert AllUnit(pre) by {
        forall i | 0 <= i < |pre| ensures pre[i] == dirs[i] { }
      }
      SlideMember(b, from, color, pre, m);
      assert dirs == pre + [last];
      if m in Slide(b, from, color, dirs) {
        if m in Ray(b, from, color, last, 1) {
          RaySound(b, from, color, last, m);
        } else {
          var d, k :| d in pre && m == Move(from, Offset(from, d, k)) && Reaches(b, from, color, d, k);
          assert d in dirs;
        }
      }
      if exists d, k :: d in dirs && m == Move(from, Offset(from, d, k)) && Reaches(b, from, color, d, k) {
        var d, k :| d in dirs && m == Move(from, Offset(from, d, k)) && Reaches(b, from, color, d, k);
        if d == last {
          RayComplete(b, from, color, d, 1, k);
        } else {
          assert d in pre;
        }
      }
    }
  }

  /** A walk in one unit direction never repeats a move. */
  lemma RayNoDups(b: BoardState, from: Pos, color: Color, d: Dir)
    requires WellFormed(b) && Unit(d)
    ensures NoDups(Ray(b, from, color, d, 1))
  {
    RayShape(b, from, color, d, 1);
    var r := Ray(b, from, color, d, 1);
    forall i, j | 0 <= i < j < |r|
      ensures r[i] != r[j]
    {
      if r[i] == r[j] {
        OffsetInjective(from, d, 1 + i, d, 1 + j);
      }
    }
  }

  /** The walk in a direction not in the table shares no move with the
      walks of the table. */
  lemma SlideRayDisjoint(b: BoardState, from: Pos, color: Color, dirs: seq<Dir>, last: Dir, m: Move)
    requires WellFormed(b) && AllUnit(dirs) && Unit(last) && last !in dirs && OnBoard(b, from)
    requires m in Slide(b, from, color, dirs)
    ensures m !in Ray(b, from, color, last, 1)
  {
    SlideMember(b, from, color, dirs, m);
    var d, k :| d in dirs && m == Move(from, Offset(from, d, k)) && Reaches(b, from, color, d, k);
    if m in Ray(b, from, color, last, 1) {
      RaySound(b, from, color, last, m);
      var k' :| m == Move(from, Offset(from, last, k')) && Reaches(b, from, color, last, k');
      var n :| 0 <= n < |dirs| && dirs[n] == d;
      OffsetInjective(from, d, k, last, k');
    }
  }

  /** The walks of a table of distinct unit directions never repeat a move. */
  lemma {:induction false} SlideNoDups(b: BoardState, from: Pos, color: Color, dirs: seq<Dir>)
    requires WellFormed(b) && AllUnit(dirs) && NoDups(dirs) && OnBoard(b, from)
    ensures NoDups(Slide(b, from, color, dirs))
    decreases |dirs|
  {
    if dirs != [] {
      var pre := dirs[..|dirs| - 1];
      var last := dirs[|dirs| - 1];
      assert NoDups(pre) && AllUnit(pre) && last !in pre by {
        forall i | 0 <= i < |pre| ensures pre[i] == dirs[i] { }
      }
      SlideNoDups(b, from, color, pre);
      RayNoDups(b, from, color, last);
      var s := Slide(b, from, color, pre);
      var r := Ray(b, from, color, last, 1);
      forall m | m in s
        ensures m !in r
      {
        SlideRayDisjoint(b, from, color, pre, last, m);
      }
      NoDupsConcat(s, r);
    }
  }

  /** The walks of two tables one after the other are the walks of the joined table. */
  lemma {:induction false} SlideAppend(b: BoardState, from: Pos, color: Color, xs: seq<Dir>, ys: seq<Dir>)
    requires WellFormed(b)
    ensures Slide(b, from, color, xs + ys) == Slide(b, from, color, xs) + Slide(b, from, color, ys)
    decreases |ys|
  {
    if ys == [] {
      assert xs + ys == xs;
    } else {
      var pre := ys[..|ys| - 1];
      var zs := xs + ys;
      var r := Ray(b, from, color, ys[|ys| - 1], 1);
      SlideAppend(b, from, color, xs, pre);
      assert zs[..|zs| - 1] == xs + pre && zs[|zs| - 1] == ys[|ys| - 1];
      assert Slide(b, from, color, zs) == Slide(b, from, color, xs + pre) + r;
      assert Slide(b, from, color, ys) == Slide(b, from, color, pre) + r;
    }
  }

  /** No walk holds more than max(rows, cols) - 1 moves, so a table of n
      directions yields at most n * (max(rows, cols) - 1). */
  lemma {:induction false} SlideBound(b: BoardState, from: Pos, color: Color, dirs: seq<Dir>)
    requires WellFormed(b) && Reach(b) >= 1
    ensures |Slide(b, from, color, dirs)| <= |dirs| * (Reach(b) - 1)
    decreases |dirs|
  {
    if dirs != [] {
      var pre := dirs[..|dirs| - 1];
      SlideBound(b, from, color, pre);
      RayLength(b, from, color, dirs[|dirs| - 1]);
      MulSucc(|pre|, Reach(b) - 1);
    }
  }

  lemma RayLength(b: BoardState, from: Pos, color: Color, d: Dir)
    requires WellFormed(b) && Reach(b) >= 1
    ensures |Ray(b, from, color, d, 1)| <= Reach(b) - 1
  {
    RayShape(b, from, color, d, 1);
  }

  lemma MulSucc(n: int, m: int)
    ensures (n + 1) * m == n * m + m
  {
  }

  /** Every move a walk emits is a plain move from the walking piece's square. */
  lemma {:induction false} SlidePlain(b: BoardState, from: Pos, color: Color, dirs: seq<Dir>, m: Move)
    requires WellFormed(b) && m in Slide(b, from, color, dirs)
    ensures m.from == from && Plain(m)
    decreases |dirs|
  {
    var pre := dirs[..|dirs| - 1];
    if m in Slide(b, from, color, pre) {
      SlidePlain(b, from, color, pre, m);
    } else {
      RaySound(b, from, color, dirs[|dirs| - 1], m);
    }
  }

  /** Two squares on one rank, file or diagonal. */
  predicate OnLine(from: Pos, to: Pos)
  {
    to.row == from.row || to.col == from.col || Abs(to.row - from.row) == Abs(to.col - from.col)
  }

  /** The unit direction pointing from one square to another. */
  function Heading(from: Pos, to: Pos): Dir
  {
    Dir(Sign(to.row - from.row), Sign(to.col - from.col))
  }

  /** A square on a line through `from` is reached by walking its distance in its heading. */
  lemma OffsetOfLine(from: Pos, to: Pos)
    requires OnLine(from, to) && to != from
    ensures Unit(Heading(from, to)) && Offset(from, Heading(from, to), Dist(from, to)) == to
  {
    var d := Heading(from, to);
    var k := Dist(from, to);
    var dr := to.row - from.row;
    var dc := to.col - from.col;
    if dr == 0 {
      assert k == Abs(dc);
      if dc > 0 { assert d.dc * k == dc; } else { assert d.dc * k == dc; }
    } else if dc == 0 {
      assert k == Abs(dr);
      if dr > 0 { assert d.dr * k == dr; } else { assert d.dr * k == dr; }
    } else {
      assert Abs(dr) == Abs(dc) == k;
      if dr > 0 { assert d.dr * k == dr; } else { assert d.dr * k == dr; }
      if dc > 0 { assert d.dc * k == dc; } else { assert d.dc * k == dc; }
    }
  }

  /** Every unit walk stays on a line through its origin. */
  lemma OffsetOnLine(from: Pos, d: Dir, k: int)
    requires Unit(d) && k >= 1
    ensures OnLine(from, Offset(from, d, k)) && Heading(from, Offset(from, d, k)) == d
  {
    UnitGeometry(from, d, k);
    var t := Offset(from, d, k);
    if d.dr == 1 { assert t.row - from.row == k; }
    else if d.dr == -1 { assert t.row - from.row == -k; }
    if d.dc == 1 { assert t.col - from.col == k; }
    else if d.dc == -1 { assert t.col - from.col == -k; }
  }

  /** Two on-board squares are fewer than max(rows, cols) king steps apart. */
  lemma DistWithinReach(b: BoardState, p: Pos, q: Pos)
    requires WellFormed(b) && OnBoard(b, p) && OnBoard(b, q)
    ensures Dist(p, q) < Reach(b)
  {
  }

  /** What a direction table's walks emit, stated on the board: exactly the
      plain moves from `from` to another on-board square on a line whose
      heading is in the table, with every square in between empty and the
      target empty or enemy-held. */
  lemma SlideTargets(b: BoardState, from: Pos, color: Color, dirs: seq<Dir>, m: Move)
    requires WellFormed(b) && AllUnit(dirs) && OnBoard(b, from)
    ensures m in Slide(b, from, color, dirs) <==>
      m == Move(from, m.to) && m.to != from && OnBoard(b, m.to) && OnLine(from, m.to) &&
      Heading(from, m.to) in dirs && CanLand(b, m.to, color) && LineClear(b, from, m.to)
  {
    SlideMember(b, from, color, dirs, m);
    if m in Slide(b, from, color, dirs) {
      var d, k :| d in dirs && m == Move(from, Offset(from, d, k)) && Reaches(b, from, color, d, k);
      var n :| 0 <= n < |dirs| && dirs[n] == d;
      assert Unit(d);
      UnitGeometry(from, d, k);
      OffsetOnLine(from, d, k);
      LineClearOffset(b, from, d, k);
    }
    if m == Move(from, m.to) && m.to != from && OnBoard(b, m.to) && OnLine(from, m.to) &&
       Heading(from, m.to) in dirs && CanLand(b, m.to, color) && LineClear(b, from, m.to) {
      var d := Heading(from, m.to);
      var k := Dist(from, m.to);
      OffsetOfLine(from, m.to);
      DistWithinReach(b, from, m.to);
      LineClearOffset(b, from, d, k);
      assert Reaches(b, from, color, d, k);
    }
  }

  /** The walk of src/core/Rook.cpp:21-37 (and of Bishop.cpp and Queen.cpp):
      nested loops over the direction table and the distance, appending to
      `moves` and leaving the inner loop at the edge or at a blocker. */
  method SlideMoves(b: BoardState, from: Pos, color: Color, dirs: seq<Dir>) returns (moves: seq<Move>)
    requires WellFormed(b)
    ensures moves == Slide(b, from, color, dirs)
  {
    moves := [];
    var k := 0;
    while k < |dirs|
      invariant 0 <= k <= |dirs|
      invariant moves == Slide(b, from, color, dirs[..k])
    {
      var d := dirs[k];
      ghost var before := moves;
      var i := 1;
      while i < Max(b.rows, b.cols)
        invariant 1 <= i
        invariant moves + Ray(b, from, color, d, i) == before + Ray(b, from, color, d, 1)
        decreases Max(b.rows, b.cols) - i
      {
        var next := Pos(from.row + d.dr * i, from.col + d.dc * i);
        if !IsValid(next, b.rows, b.cols) {
          break;
        }
        var target := PieceAt(b, next);
        if target.None? {
          moves := moves + [Move(from, next)];
        } else {
          if target.value.color != color {
            moves := moves + [Move(from, next)];
          }
          break;
        }
        i := i + 1;
      }
      assert moves == before + Ray(b, from, color, d, 1);
      assert dirs[..k + 1] == dirs[..k] + [d];
      k := k + 1;
    }
    assert dirs[..k] == dirs;
  }
}
