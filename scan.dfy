/** The row-major scan shared by the loops of src/core/Game.cpp that visit
    every square and append what each square contributes. */
module Scans {
  import opened Positions

  /** What squares (r, 0) to (r, c - 1) contribute, left to right. */
  function RowScan<T>(f: Pos -> seq<T>, r: int, c: nat): seq<T>
  {
    if c == 0 then [] else RowScan(f, r, c - 1) + f(Pos(r, c - 1))
  }

  /** What rows 0 to r - 1 contribute, in row-major order. */
  function GridScan<T>(f: Pos -> seq<T>, r: nat, cols: nat): seq<T>
  {
    if r == 0 then [] else GridScan(f, r - 1, cols) + RowScan(f, r - 1, cols)
  }

  lemma {:induction false} RowScanMember<T>(f: Pos -> seq<T>, r: int, c: nat, x: T)
    ensures x in RowScan(f, r, c) <==> exists j :: 0 <= j < c && x in f(Pos(r, j))
  {
    if c > 0 {
      RowScanMember(f, r, c - 1, x);
    }
  }

  /** An element comes out of the scan exactly when some square of the
      rows x cols rectangle contributes it. */
  lemma {:induction false} GridScanMember<T>(f: Pos -> seq<T>, r: nat, cols: nat, x: T)
    ensures x in GridScan(f, r, cols) <==> exists q: Pos :: 0 <= q.row < r && 0 <= q.col < cols && x in f(q)
  {
    if r > 0 {
      GridScanMember(f, r - 1, cols, x);
      RowScanMember(f, r - 1, cols, x);
      if exists q: Pos :: 0 <= q.row < r && 0 <= q.col < cols && x in f(q) {
        var q: Pos :| 0 <= q.row < r && 0 <= q.col < cols && x in f(q);
        if q.row == r - 1 {
          assert q == Pos(r - 1, q.col);
        }
      }
    }
  }

  /** When no square contributes anything, the scan is empty. */
  lemma {:induction false} GridScanEmpty<T>(f: Pos -> seq<T>, r: nat, cols: nat)
    requires forall q: Pos :: f(q) == []
    ensures GridScan(f, r, cols) == []
  {
    if r > 0 {
      GridScanEmpty(f, r - 1, cols);
      RowScanEmpty(f, r - 1, cols);
    }
  }

  lemma {:induction false} RowScanEmpty<T>(f: Pos -> seq<T>, r: int, c: nat)
    requires forall q: Pos :: f(q) == []
    ensures RowScan(f, r, c) == []
  {
    if c > 0 {
      RowScanEmpty(f, r, c - 1);
    }
  }

  /** Two contributions that agree on every square give the same scan. */
  lemma {:induction false} GridScanExt<T>(f: Pos -> seq<T>, g: Pos -> seq<T>, r: nat, cols: nat)
    requires forall q: Pos :: f(q) == g(q)
    ensures GridScan(f, r, cols) == GridScan(g, r, cols)
  {
    if r > 0 {
      GridScanExt(f, g, r - 1, cols);
      RowScanExt(f, g, r - 1, cols);
    }
  }

  lemma {:induction false} RowScanExt<T>(f: Pos -> seq<T>, g: Pos -> seq<T>, r: int, c: nat)
    requires forall q: Pos :: f(q) == g(q)
    ensures RowScan(f, r, c) == RowScan(g, r, c)
  {
    if c > 0 {
      RowScanExt(f, g, r, c - 1);
    }
  }

  /** One more square of a row: its contribution appended to the scan so far. */
  lemma RowScanPush<T>(f: Pos -> seq<T>, r: int, c: nat, acc: seq<T>, x: seq<T>)
    requires acc == RowScan(f, r, c) && x == f(Pos(r, c))
    ensures acc + x == RowScan(f, r, c + 1)
  {
  }

  /** One more row: its scan appended to the rows before. */
  lemma GridScanPush<T>(f: Pos -> seq<T>, r: nat, cols: nat, acc: seq<T>, x: seq<T>)
    requires acc == GridScan(f, r, cols) && x == RowScan(f, r, cols)
    ensures acc + x == GridScan(f, r + 1, cols)
  {
  }
}
