/** The board as a value: rows of cells, each 0 (empty), 1 (player 1) or 2 (player 2). */
module Grids {

  type Grid = seq<seq<int>>

  /** g has exactly n rows of exactly n cells. */
  predicate IsSquare(g: Grid, n: nat) {
    |g| == n && forall i :: 0 <= i < n ==> |g[i]| == n
  }

  /** Number of cells of s holding v. */
  function Occurrences(s: seq<int>, v: int): nat {
    if |s| == 0 then 0
    else Occurrences(s[..|s| - 1], v) + (if s[|s| - 1] == v then 1 else 0)
  }

  /** Number of cells of g holding v. */
  function GridOccurrences(g: Grid, v: int): nat {
    if |g| == 0 then 0
    else GridOccurrences(g[..|g| - 1], v) + Occurrences(g[|g| - 1], v)
  }

  /** No cell of g holds v. */
  predicate Lacks(g: Grid, v: int) {
    forall i, j :: 0 <= i < |g| && 0 <= j < |g[i]| ==> g[i][j] != v
  }

  /** g with cell (i, j) set to x. */
  function Place(g: Grid, i: nat, j: nat, x: int): Grid
    requires i < |g| && j < |g[i]|
  {
    g[i := g[i][j := x]]
  }

  /** The n by n grid whose every cell holds v. */
  function Filled(n: nat, v: int): (g: Grid)
    ensures IsSquare(g, n)
    ensures forall i, j :: 0 <= i < n && 0 <= j < n ==> g[i][j] == v
  {
    seq(n, _ => seq(n, _ => v))
  }

  /** Two square grids that agree on every cell are equal. */
  lemma GridExtensionality(g: Grid, h: Grid, n: nat)
    requires IsSquare(g, n) && IsSquare(h, n)
    requires forall i, j :: 0 <= i < n && 0 <= j < n ==> g[i][j] == h[i][j]
    ensures g == h
  {
    forall i | 0 <= i < n
      ensures g[i] == h[i]
    {
      assert |g[i]| == |h[i]| == n;
    }
  }

  lemma {:induction false} OccurrencesZeroIff(s: seq<int>, v: int)
    ensures Occurrences(s, v) == 0 <==> forall k :: 0 <= k < |s| ==> s[k] != v
  {
    if |s| > 0 {
      var m := |s| - 1;
      OccurrencesZeroIff(s[..m], v);
      assert forall k :: 0 <= k < m ==> s[..m][k] == s[k];
    }
  }

  /** A grid has no cell holding v exactly when it counts no v. */
  lemma {:induction false} GridOccurrencesZeroIff(g: Grid, v: int)
    ensures GridOccurrences(g, v) == 0 <==> Lacks(g, v)
  {
    if |g| > 0 {
      var m := |g| - 1;
      GridOccurrencesZeroIff(g[..m], v);
      OccurrencesZeroIff(g[m], v);
      assert forall i :: 0 <= i < m ==> g[..m][i] == g[i];
    }
  }

  lemma {:induction false} OccurrencesUpdate(s: seq<int>, j: nat, x: int, v: int)
    requires j < |s| && s[j] == v && x != v
    ensures Occurrences(s[j := x], v) == Occurrences(s, v) - 1
  {
    var m := |s| - 1;
    if j == m {
      assert s[j := x][..m] == s[..m];
    } else {
      assert s[j := x][..m] == s[..m][j := x];
      OccurrencesUpdate(s[..m], j, x, v);
    }
  }

  /** Overwriting one cell that held v with another mark removes exactly one v. */
  lemma {:induction false} PlaceOccurrences(g: Grid, i: nat, j: nat, x: int, v: int)
    requires i < |g| && j < |g[i]| && g[i][j] == v && x != v
    ensures GridOccurrences(Place(g, i, j, x), v) == GridOccurrences(g, v) - 1
  {
    var m := |g| - 1;
    if i == m {
      assert Place(g, i, j, x)[..m] == g[..m];
      OccurrencesUpdate(g[i], j, x, v);
    } else {
      assert Place(g, i, j, x)[..m] == Place(g[..m], i, j, x);
      PlaceOccurrences(g[..m], i, j, x, v);
    }
  }

  lemma {:induction false} OccurrencesConstant(c: nat, v: int)
    ensures Occurrences(seq(c, _ => v), v) == c
  {
    if c > 0 {
      assert seq(c, _ => v)[..c - 1] == seq(c - 1, _ => v);
      OccurrencesConstant(c - 1, v);
    }
  }

  lemma {:induction false} GridOccurrencesRepeated(r: nat, row: seq<int>, v: int)
    ensures GridOccurrences(seq(r, _ => row), v) == r * Occurrences(row, v)
  {
    if r > 0 {
      assert seq(r, _ => row)[..r - 1] == seq(r - 1, _ => row);
      GridOccurrencesRepeated(r - 1, row, v);
    }
  }

  /** A fresh n by n board of v holds n * n cells equal to v. */
  lemma FilledOccurrences(n: nat, v: int)
    ensures GridOccurrences(Filled(n, v), v) == n * n
  {
    OccurrencesConstant(n, v);
    GridOccurrencesRepeated(n, seq(n, _ => v), v);
  }
}
