/** Properties of the end-of-game scan defined in Scoring. */
module ScoringFacts {
  import opened Grids
  import opened Scoring

  // ----- Counting principles -----

  /** Every start cell is counted for (g1, f1) exactly when it is for (g2, f2). */
  ghost predicate SameCounted(g1: Grid, f1: Filter, g2: Grid, f2: Filter, n: nat, w: int)
    requires IsSquare(g1, n) && IsSquare(g2, n)
  {
    forall d: nat, i, j :: d < 4 && 0 <= i < n && 0 <= j < n ==>
      (Counted(g1, n, w, i, j, d, f1) <==> Counted(g2, n, w, i, j, d, f2))
  }

  lemma {:induction false} RowSame(g1: Grid, f1: Filter, g2: Grid, f2: Filter, n: nat, w: int, d: nat, i: int, j: nat)
    requires IsSquare(g1, n) && IsSquare(g2, n) && SameCounted(g1, f1, g2, f2, n, w)
    requires d < 4 && 0 <= i < n && j <= n
    ensures CountRow(g1, n, w, d, i, j, f1) == CountRow(g2, n, w, d, i, j, f2)
  {
    if j > 0 {
      RowSame(g1, f1, g2, f2, n, w, d, i, j - 1);
    }
  }

  lemma {:induction false} DirSame(g1: Grid, f1: Filter, g2: Grid, f2: Filter, n: nat, w: int, d: nat, i: nat)
    requires IsSquare(g1, n) && IsSquare(g2, n) && SameCounted(g1, f1, g2, f2, n, w)
    requires d < 4 && i <= n
    ensures CountDir(g1, n, w, d, i, f1) == CountDir(g2, n, w, d, i, f2)
  {
    if i > 0 {
      DirSame(g1, f1, g2, f2, n, w, d, i - 1);
      RowSame(g1, f1, g2, f2, n, w, d, i - 1, n);
    }
  }

  /** Counts agree when the counted start cells agree. */
  lemma {:induction false} TotalSame(g1: Grid, f1: Filter, g2: Grid, f2: Filter, n: nat, w: int, d: nat)
    requires IsSquare(g1, n) && IsSquare(g2, n) && SameCounted(g1, f1, g2, f2, n, w)
    requires d <= 4
    ensures CountDirs(g1, n, w, d, f1) == CountDirs(g2, n, w, d, f2)
  {
    if d > 0 {
      TotalSame(g1, f1, g2, f2, n, w, d - 1);
      DirSame(g1, f1, g2, f2, n, w, d - 1, n);
    }
  }

  /** No start cell is counted for (g, f). */
  ghost predicate NeverCounted(g: Grid, f: Filter, n: nat, w: int)
    requires IsSquare(g, n)
  {
    forall d: nat, i, j :: d < 4 && 0 <= i < n && 0 <= j < n ==> !Counted(g, n, w, i, j, d, f)
  }

  lemma {:induction false} RowNone(g: Grid, f: Filter, n: nat, w: int, d: nat, i: int, j: nat)
    requires IsSquare(g, n) && NeverCounted(g, f, n, w)
    requires d < 4 && 0 <= i < n && j <= n
    ensures CountRow(g, n, w, d, i, j, f) == 0
  {
    if j > 0 {
      RowNone(g, f, n, w, d, i, j - 1);
    }
  }

  lemma {:induction false} DirNone(g: Grid, f: Filter, n: nat, w: int, d: nat, i: nat)
    requires IsSquare(g, n) && NeverCounted(g, f, n, w)
    requires d < 4 && i <= n
    ensures CountDir(g, n, w, d, i, f) == 0
  {
    if i > 0 {
      DirNone(g, f, n, w, d, i - 1);
      RowNone(g, f, n, w, d, i - 1, n);
    }
  }

  /** A count is zero when no start cell is counted. */
  lemma {:induction false} TotalNone(g: Grid, f: Filter, n: nat, w: int, d: nat)
    requires IsSquare(g, n) && NeverCounted(g, f, n, w)
    requires d <= 4
    ensures CountDirs(g, n, w, d, f) == 0
  {
    if d > 0 {
      TotalNone(g, f, n, w, d - 1);
      DirNone(g, f, n, w, d - 1, n);
    }
  }

  /** A total is the sum of its four direction counts. */
  lemma AllDirections(g: Grid, n: nat, w: int, f: Filter)
    requires IsSquare(g, n)
    ensures CountDirs(g, n, w, 4, f)
         == CountDir(g, n, w, 0, n, f) + CountDir(g, n, w, 1, n, f)
          + CountDir(g, n, w, 2, n, f) + CountDir(g, n, w, 3, n, f)
  {
    assert CountDirs(g, n, w, 1, f) == CountDir(g, n, w, 0, n, f);
    assert CountDirs(g, n, w, 2, f) == CountDirs(g, n, w, 1, f) + CountDir(g, n, w, 1, n, f);
    assert CountDirs(g, n, w, 3, f) == CountDirs(g, n, w, 2, f) + CountDir(g, n, w, 2, n, f);
  }

  // ----- One window, at most one player -----

  /** A window of at least one cell begins at its start cell. */
  lemma WindowStart(g: Grid, n: nat, w: int, i: int, j: int, d: nat)
    requires IsSquare(g, n) && d < 4 && 0 <= i < n && 0 <= j < n
    requires 1 <= w && StartOk(n, w, i, j, d)
    ensures |Window(g, n, w, i, j, d)| == w && Window(g, n, w, i, j, d)[0] == g[i][j]
  {
  }

  /** A scanned window of at least one cell adds to at most one player's
      score, and every window that adds to a score is a window of the scan. */
  lemma OneMarkPerWindow(g: Grid, n: nat, w: int, i: int, j: int, d: nat, p: int, q: int)
    requires IsSquare(g, n) && d < 4 && 0 <= i < n && 0 <= j < n
    requires 1 <= w && p != q
    ensures !(Counted(g, n, w, i, j, d, Mark(p)) && Counted(g, n, w, i, j, d, Mark(q)))
    ensures Counted(g, n, w, i, j, d, Mark(p)) ==> Counted(g, n, w, i, j, d, Any)
  {
    if StartOk(n, w, i, j, d) {
      WindowStart(g, n, w, i, j, d);
    }
  }

  lemma {:induction false} RowExclusive(g: Grid, n: nat, w: int, d: nat, i: int, j: nat, p: int, q: int)
    requires IsSquare(g, n) && d < 4 && 0 <= i < n && j <= n
    requires 1 <= w && p != q
    ensures CountRow(g, n, w, d, i, j, Mark(p)) + CountRow(g, n, w, d, i, j, Mark(q))
         <= CountRow(g, n, w, d, i, j, Any)
  {
    if j > 0 {
      RowExclusive(g, n, w, d, i, j - 1, p, q);
      OneMarkPerWindow(g, n, w, i, j - 1, d, p, q);
      OneMarkPerWindow(g, n, w, i, j - 1, d, q, p);
    }
  }

  lemma {:induction false} DirExclusive(g: Grid, n: nat, w: int, d: nat, i: nat, p: int, q: int)
    requires IsSquare(g, n) && d < 4 && i <= n
    requires 1 <= w && p != q
    ensures CountDir(g, n, w, d, i, Mark(p)) + CountDir(g, n, w, d, i, Mark(q))
         <= CountDir(g, n, w, d, i, Any)
  {
    if i > 0 {
      DirExclusive(g, n, w, d, i - 1, p, q);
      RowExclusive(g, n, w, d, i - 1, n, p, q);
    }
  }

  lemma {:induction false} TotalExclusive(g: Grid, n: nat, w: int, d: nat, p: int, q: int)
    requires IsSquare(g, n) && d <= 4
    requires 1 <= w && p != q
    ensures CountDirs(g, n, w, d, Mark(p)) + CountDirs(g, n, w, d, Mark(q))
         <= CountDirs(g, n, w, d, Any)
  {
    if d > 0 {
      TotalExclusive(g, n, w, d - 1, p, q);
      DirExclusive(g, n, w, d - 1, n, p, q);
    }
  }

  /** With windows of at least one cell, the two scores together never exceed
      the number of windows scanned: no window is credited to both players. */
  lemma ScoresExclusive(g: Grid, n: nat, w: int)
    requires IsSquare(g, n) && 1 <= w
    ensures Score(g, n, w, 1) + Score(g, n, w, 2) <= WindowCount(g, n, w)
  {
    TotalExclusive(g, n, w, 4, 1, 2);
  }

  /** With w <= 0 every window is empty, so it is credited to BOTH players:
      each score equals the number of start cells that pass the guard. */
  lemma EmptyWindowsCountForBoth(g: Grid, n: nat, w: int, p: int)
    requires IsSquare(g, n) && w <= 0
    ensures Score(g, n, w, p) == WindowCount(g, n, w)
  {
    forall d: nat, i, j | d < 4 && 0 <= i < n && 0 <= j < n
      ensures Counted(g, n, w, i, j, d, Mark(p)) <==> Counted(g, n, w, i, j, d, Any)
    {
      if StartOk(n, w, i, j, d) {
        assert Window(g, n, w, i, j, d) == [];
      }
    }
    TotalSame(g, Mark(p), g, Any, n, w, 4);
  }

  /** Windows longer than the board side fit nowhere: nothing is scanned and
      both players score 0. */
  lemma TooLongScoresZero(g: Grid, n: nat, w: int, p: int)
    requires IsSquare(g, n) && w > n
    ensures WindowCount(g, n, w) == 0
    ensures Score(g, n, w, p) == 0
  {
    assert NeverCounted(g, Any, n, w);
    assert NeverCounted(g, Mark(p), n, w);
    TotalNone(g, Any, n, w, 4);
    TotalNone(g, Mark(p), n, w, 4);
  }

  /** A mark that appears nowhere on the board scores 0 (for w >= 1). */
  lemma AbsentMarkScoresZero(g: Grid, n: nat, w: int, q: int)
    requires IsSquare(g, n) && 1 <= w && Lacks(g, q)
    ensures Score(g, n, w, q) == 0
  {
    forall d: nat, i, j | d < 4 && 0 <= i < n && 0 <= j < n
      ensures !Counted(g, n, w, i, j, d, Mark(q))
    {
      if StartOk(n, w, i, j, d) {
        WindowStart(g, n, w, i, j, d);
        assert Window(g, n, w, i, j, d)[0] != q;
      }
    }
    TotalNone(g, Mark(q), n, w, 4);
  }

  // ----- Symmetry between the players -----

  /** Exchanging the marks of the two players exchanges their scores. */
  lemma SwapSwapsScores(g: Grid, n: nat, w: int, p: int)
    requires IsSquare(g, n)
    ensures IsSquare(SwapMarks(g), n)
    ensures Score(SwapMarks(g), n, w, p) == Score(g, n, w, SwapMark(p))
  {
    var h := SwapMarks(g);
    assert IsSquare(h, n);
    forall d: nat, i, j | d < 4 && 0 <= i < n && 0 <= j < n
      ensures Counted(h, n, w, i, j, d, Mark(p)) <==> Counted(g, n, w, i, j, d, Mark(SwapMark(p)))
    {
      if StartOk(n, w, i, j, d) {
        var a, b := Window(h, n, w, i, j, d), Window(g, n, w, i, j, d);
        assert |a| == |b|;
        assert forall k :: 0 <= k < |a| ==> a[k] == SwapMark(b[k]);
      }
    }
    TotalSame(h, Mark(p), g, Mark(SwapMark(p)), n, w, 4);
  }

  /** Exchanging the marks of the two players exchanges the announced winner. */
  lemma SwapMirrorsVerdict(g: Grid, n: nat, w: int)
    requires IsSquare(g, n)
    ensures IsSquare(SwapMarks(g), n)
    ensures Decide(Score(SwapMarks(g), n, w, 1), Score(SwapMarks(g), n, w, 2))
         == Mirror(Decide(Score(g, n, w, 1), Score(g, n, w, 2)))
  {
    SwapSwapsScores(g, n, w, 1);
    SwapSwapsScores(g, n, w, 2);
  }

  // ----- Closed forms -----

  /** Columns c < j whose window along d stays within the columns of the board
      (for 1 <= w <= n). */
  function Span(n: int, w: int, d: nat, j: int): int {
    if d == 1 then j
    else if d == 3 then (if j < w - 1 then 0 else j - (w - 1))
    else (if j < n - w + 1 then j else n - w + 1)
  }

  lemma {:induction false} RowWindows(g: Grid, n: nat, w: int, d: nat, i: int, j: nat)
    requires IsSquare(g, n) && 1 <= w <= n && d < 4 && 0 <= i < n && j <= n
    ensures CountRow(g, n, w, d, i, j, Any) == if d == 0 || i + w - 1 < n then Span(n, w, d, j) else 0
  {
    if j > 0 {
      RowWindows(g, n, w, d, i, j - 1);
    }
  }

  lemma {:induction false} DirWindows(g: Grid, n: nat, w: int, d: nat, i: nat)
    requires IsSquare(g, n) && 1 <= w <= n && d < 4 && i <= n
    ensures CountDir(g, n, w, d, i, Any)
         == (if d == 0 || i <= n - w + 1 then i else n - w + 1) * (if d == 1 then n else n - w + 1)
  {
    if i > 0 {
      DirWindows(g, n, w, d, i - 1);
      RowWindows(g, n, w, d, i - 1, n);
      var width := if d == 1 then n else n - w + 1;
      assert Span(n, w, d, n) == width;
      if d == 0 || i <= n - w + 1 {
        assert CountRow(g, n, w, d, i - 1, n, Any) == width;
        assert CountDir(g, n, w, d, i, Any) == (i - 1) * width + width == i * width;
      } else {
        assert CountRow(g, n, w, d, i - 1, n, Any) == 0;
        assert CountDir(g, n, w, d, i, Any) == (n - w + 1) * width;
      }
    }
  }

  /** The arithmetic that adds up the four directions. */
  lemma SumOfLines(n: int, w: int, a: int, b: int, c: int, e: int)
    requires 1 <= w <= n
    requires a == n * (n - w + 1)
    requires b == (if n <= n - w + 1 then n else n - w + 1) * n
    requires c == (if n <= n - w + 1 then n else n - w + 1) * (n - w + 1)
    requires e == c
    ensures a + b + c + e == 2 * n * (n - w + 1) + 2 * (n - w + 1) * (n - w + 1)
  {
    var m := n - w + 1;
    assert (if n <= m then n else m) == m;
    assert b == m * n == n * m;
    assert c == m * m;
  }

  /** With m = n - w + 1 start positions per line, the scan looks at
      n * m horizontal, m * n vertical and m * m windows on each diagonal. */
  lemma WindowCountClosedForm(g: Grid, n: nat, w: int)
    requires IsSquare(g, n) && 1 <= w <= n
    ensures WindowCount(g, n, w) == 2 * n * (n - w + 1) + 2 * (n - w + 1) * (n - w + 1)
  {
    DirWindows(g, n, w, 0, n);
    DirWindows(g, n, w, 1, n);
    DirWindows(g, n, w, 2, n);
    DirWindows(g, n, w, 3, n);
    AllDirections(g, n, w, Any);
    SumOfLines(n, w, CountDir(g, n, w, 0, n, Any), CountDir(g, n, w, 1, n, Any),
               CountDir(g, n, w, 2, n, Any), CountDir(g, n, w, 3, n, Any));
  }

  /** On a board filled by player p, every window scanned counts for p and
      none for any other mark. */
  lemma UniformBoardScores(n: nat, w: int, p: int, q: int)
    requires 1 <= w <= n && q != p
    ensures Score(Filled(n, p), n, w, p) == 2 * n * (n - w + 1) + 2 * (n - w + 1) * (n - w + 1)
    ensures Score(Filled(n, p), n, w, q) == 0
  {
    var g := Filled(n, p);
    forall d: nat, i, j | d < 4 && 0 <= i < n && 0 <= j < n
      ensures Counted(g, n, w, i, j, d, Mark(p)) <==> Counted(g, n, w, i, j, d, Any)
    {
    }
    TotalSame(g, Mark(p), g, Any, n, w, 4);
    WindowCountClosedForm(g, n, w);
    AbsentMarkScoresZero(g, n, w, q);
  }

  /** A board filled by one player, scored with winLength equal to the side,
      gives that player its n rows, n columns and two diagonals. */
  lemma FullBoardOneMark(n: nat, p: int, q: int)
    requires 1 <= n && q != p
    ensures Score(Filled(n, p), n, n, p) == 2 * n + 2
    ensures Score(Filled(n, p), n, n, q) == 0
  {
    UniformBoardScores(n, n, p, q);
  }

  /** A 5 by 5 board of player 2 with winLength 5: twelve lines to none. */
  lemma FiveByFiveOfPlayerTwo()
    ensures Score(Filled(5, 2), 5, 5, 2) == 12
    ensures Score(Filled(5, 2), 5, 5, 1) == 0
  {
    FullBoardOneMark(5, 2, 1);
  }

  // ----- winLength 1 -----

  lemma {:induction false} RowSingles(g: Grid, n: nat, d: nat, i: int, j: nat, p: int)
    requires IsSquare(g, n) && d < 4 && 0 <= i < n && j <= n
    ensures CountRow(g, n, 1, d, i, j, Mark(p)) == Occurrences(g[i][..j], p)
  {
    if j > 0 {
      RowSingles(g, n, d, i, j - 1, p);
      var cells := g[i][..j];
      assert cells[..j - 1] == g[i][..j - 1];
      assert Occurrences(cells, p) == Occurrences(g[i][..j - 1], p) + (if g[i][j - 1] == p then 1 else 0);
      assert StartOk(n, 1, i, j - 1, d);
      var line := Window(g, n, 1, i, j - 1, d);
      assert line == [g[i][j - 1]];
      assert line[0] == g[i][j - 1];
      assert Counted(g, n, 1, i, j - 1, d, Mark(p)) <==> g[i][j - 1] == p;
    }
  }

  lemma {:induction false} DirSingles(g: Grid, n: nat, d: nat, i: nat, p: int)
    requires IsSquare(g, n) && d < 4 && i <= n
    ensures CountDir(g, n, 1, d, i, Mark(p)) == GridOccurrences(g[..i], p)
  {
    if i > 0 {
      DirSingles(g, n, d, i - 1, p);
      RowSingles(g, n, d, i - 1, n, p);
      assert g[..i][..i - 1] == g[..i - 1];
      assert g[i - 1][..n] == g[i - 1];
    }
  }

  /** With winLength 1 every cell of player p is credited once per direction. */
  lemma SingleCellWindows(g: Grid, n: nat, p: int)
    requires IsSquare(g, n)
    ensures Score(g, n, 1, p) == 4 * GridOccurrences(g, p)
  {
    DirSingles(g, n, 0, n, p);
    DirSingles(g, n, 1, n, p);
    DirSingles(g, n, 2, n, p);
    DirSingles(g, n, 3, n, p);
    assert g[..n] == g;
    AllDirections(g, n, 1, Mark(p));
  }

  // ----- Unbroken runs in a row -----

  /** In row i, where p occupies exactly the columns a .. a + len - 1, the
      horizontal window at column s counts for p exactly when it lies inside
      the run. */
  lemma RunWindow(g: Grid, n: nat, w: int, i: int, s: int, p: int, a: int, len: int)
    requires IsSquare(g, n) && 0 <= i < n && 0 <= s < n
    requires 0 <= a && a + len <= n && 1 <= w <= len
    requires forall c :: 0 <= c < n ==> (g[i][c] == p <==> a <= c < a + len)
    ensures Counted(g, n, w, i, s, 0, Mark(p)) <==> a <= s && s + w <= a + len
  {
    if StartOk(n, w, i, s, 0) {
      var line := Window(g, n, w, i, s, 0);
      if a <= s && s + w <= a + len {
        assert forall k :: 0 <= k < w ==> line[k] == g[i][s + k];
      } else {
        var k := if s < a || s >= a + len then 0 else a + len - s;
        assert line[k] == g[i][s + k] != p;
      }
    }
  }

  /** Horizontal windows inside the run a .. a + len - 1 that start before column j. */
  function RunWindows(j: int, w: int, a: int, len: int): int {
    if j <= a then 0 else if j - a < len - w + 1 then j - a else len - w + 1
  }

  lemma RunWindowsStep(j: int, w: int, a: int, len: int)
    requires 1 <= j && 1 <= w <= len
    ensures RunWindows(j, w, a, len)
         == RunWindows(j - 1, w, a, len) + if a <= j - 1 && j - 1 + w <= a + len then 1 else 0
  {
  }

  lemma {:induction false} RunPrefix(g: Grid, n: nat, w: int, i: int, j: nat, p: int, a: int, len: int)
    requires IsSquare(g, n) && 0 <= i < n && j <= n
    requires 0 <= a && a + len <= n && 1 <= w <= len
    requires forall c :: 0 <= c < n ==> (g[i][c] == p <==> a <= c < a + len)
    ensures CountRow(g, n, w, 0, i, j, Mark(p)) == RunWindows(j, w, a, len)
  {
    if j > 0 {
      RunPrefix(g, n, w, i, j - 1, p, a, len);
      RunWindow(g, n, w, i, j - 1, p, a, len);
      RunWindowsStep(j, w, a, len);
    }
  }

  /** A run of len >= w marks of p that are p's only cells in row i gives p
      exactly len - w + 1 horizontal windows in that row. */
  lemma RunInRow(g: Grid, n: nat, w: int, i: int, p: int, a: int, len: int)
    requires IsSquare(g, n) && 0 <= i < n
    requires 0 <= a && a + len <= n && 1 <= w <= len
    requires forall c :: 0 <= c < n ==> (g[i][c] == p <==> a <= c < a + len)
    ensures CountRow(g, n, w, 0, i, n, Mark(p)) == len - w + 1
  {
    RunPrefix(g, n, w, i, n, p, a, len);
  }

  // ----- A worked board -----

  /** A scanned window of three cells counts for p exactly when its three
      cells hold p. */
  lemma TripleCounted(g: Grid, n: nat, i: int, j: int, d: nat, p: int)
    requires IsSquare(g, n) && d < 4 && 0 <= i < n && 0 <= j < n && StartOk(n, 3, i, j, d)
    ensures Counted(g, n, 3, i, j, d, Mark(p))
        <==> g[RowOf(d, i, 0)][ColOf(d, j, 0)] == p && g[RowOf(d, i, 1)][ColOf(d, j, 1)] == p
             && g[RowOf(d, i, 2)][ColOf(d, j, 2)] == p
  {
    var line := Window(g, n, 3, i, j, d);
    assert line[0] == g[RowOf(d, i, 0)][ColOf(d, j, 0)];
    assert line[1] == g[RowOf(d, i, 1)][ColOf(d, j, 1)];
    assert line[2] == g[RowOf(d, i, 2)][ColOf(d, j, 2)];
  }

  /** The count of one row of start cells on a 3 by 3 board, cell by cell. */
  lemma RowOfThree(g: Grid, w: int, d: nat, i: int, f: Filter)
    requires IsSquare(g, 3) && d < 4 && 0 <= i < 3
    ensures CountRow(g, 3, w, d, i, 3, f)
         == (if Counted(g, 3, w, i, 0, d, f) then 1 else 0) + (if Counted(g, 3, w, i, 1, d, f) then 1 else 0)
          + (if Counted(g, 3, w, i, 2, d, f) then 1 else 0)
  {
    assert CountRow(g, 3, w, d, i, 1, f) == if Counted(g, 3, w, i, 0, d, f) then 1 else 0;
    assert CountRow(g, 3, w, d, i, 2, f)
        == (if Counted(g, 3, w, i, 0, d, f) then 1 else 0) + (if Counted(g, 3, w, i, 1, d, f) then 1 else 0);
  }

  /** The counts of one direction on a 3 by 3 board, start cell by start cell. */
  lemma DirOfThree(g: Grid, w: int, d: nat, f: Filter)
    requires IsSquare(g, 3) && d < 4
    ensures CountDir(g, 3, w, d, 3, f)
         == (if Counted(g, 3, w, 0, 0, d, f) then 1 else 0) + (if Counted(g, 3, w, 0, 1, d, f) then 1 else 0)
          + (if Counted(g, 3, w, 0, 2, d, f) then 1 else 0) + (if Counted(g, 3, w, 1, 0, d, f) then 1 else 0)
          + (if Counted(g, 3, w, 1, 1, d, f) then 1 else 0) + (if Counted(g, 3, w, 1, 2, d, f) then 1 else 0)
          + (if Counted(g, 3, w, 2, 0, d, f) then 1 else 0) + (if Counted(g, 3, w, 2, 1, d, f) then 1 else 0)
          + (if Counted(g, 3, w, 2, 2, d, f) then 1 else 0)
  {
    RowOfThree(g, w, d, 0, f);
    RowOfThree(g, w, d, 1, f);
    RowOfThree(g, w, d, 2, f);
    assert CountDir(g, 3, w, d, 1, f) == CountRow(g, 3, w, d, 0, 3, f);
    assert CountDir(g, 3, w, d, 2, f) == CountRow(g, 3, w, d, 0, 3, f) + CountRow(g, 3, w, d, 1, 3, f);
  }

  /** The board of the worked example: all 1 except a 2 in the corner (2, 2). */
  const Corner: Grid := [[1, 1, 1], [1, 1, 1], [1, 1, 2]]

  lemma CornerHorizontal()
    ensures IsSquare(Corner, 3)
    ensures CountDir(Corner, 3, 3, 0, 3, Mark(1)) == 2 && CountDir(Corner, 3, 3, 0, 3, Mark(2)) == 0
  {
    assert IsSquare(Corner, 3);
    TripleCounted(Corner, 3, 0, 0, 0, 1);
    TripleCounted(Corner, 3, 0, 0, 0, 2);
    TripleCounted(Corner, 3, 1, 0, 0, 1);
    TripleCounted(Corner, 3, 1, 0, 0, 2);
    TripleCounted(Corner, 3, 2, 0, 0, 1);
    TripleCounted(Corner, 3, 2, 0, 0, 2);
    DirOfThree(Corner, 3, 0, Mark(1));
    DirOfThree(Corner, 3, 0, Mark(2));
  }

  lemma CornerVertical()
    ensures IsSquare(Corner, 3)
    ensures CountDir(Corner, 3, 3, 1, 3, Mark(1)) == 2 && CountDir(Corner, 3, 3, 1, 3, Mark(2)) == 0
  {
    assert IsSquare(Corner, 3);
    TripleCounted(Corner, 3, 0, 0, 1, 1);
    TripleCounted(Corner, 3, 0, 0, 1, 2);
    TripleCounted(Corner, 3, 0, 1, 1, 1);
    TripleCounted(Corner, 3, 0, 1, 1, 2);
    TripleCounted(Corner, 3, 0, 2, 1, 1);
    TripleCounted(Corner, 3, 0, 2, 1, 2);
    DirOfThree(Corner, 3, 1, Mark(1));
    DirOfThree(Corner, 3, 1, Mark(2));
  }

  lemma CornerDiagonal()
    ensures IsSquare(Corner, 3)
    ensures CountDir(Corner, 3, 3, 2, 3, Mark(1)) == 0 && CountDir(Corner, 3, 3, 2, 3, Mark(2)) == 0
  {
    assert IsSquare(Corner, 3);
    TripleCounted(Corner, 3, 0, 0, 2, 1);
    TripleCounted(Corner, 3, 0, 0, 2, 2);
    DirOfThree(Corner, 3, 2, Mark(1));
    DirOfThree(Corner, 3, 2, Mark(2));
  }

  lemma CornerAntiDiagonal()
    ensures IsSquare(Corner, 3)
    ensures CountDir(Corner, 3, 3, 3, 3, Mark(1)) == 1 && CountDir(Corner, 3, 3, 3, 3, Mark(2)) == 0
  {
    assert IsSquare(Corner, 3);
    TripleCounted(Corner, 3, 0, 2, 3, 1);
    TripleCounted(Corner, 3, 0, 2, 3, 2);
    DirOfThree(Corner, 3, 3, Mark(1));
    DirOfThree(Corner, 3, 3, Mark(2));
  }

  /** On Corner with winLength 3, rows 0 and 1, columns 0 and 1 and the
      anti-diagonal count for player 1, and nothing counts for player 2. */
  lemma CornerBoard()
    ensures IsSquare(Corner, 3)
    ensures Score(Corner, 3, 3, 1) == 5
    ensures Score(Corner, 3, 3, 2) == 0
  {
    CornerHorizontal();
    CornerVertical();
    CornerDiagonal();
    CornerAntiDiagonal();
    AllDirections(Corner, 3, 3, Mark(1));
    AllDirections(Corner, 3, 3, Mark(2));
  }

  // ----- The declined resize -----

  /** After a 10 by 10 game is declined a resize to 15, the scan runs with
      boardSize 15: with winLength 5 the guard admits the horizontal window at
      (10, 0), whose first cell lies in row 10, past the last row of the
      10 by 10 board that is still in place. */
  lemma DeclinedResizeReadsMissingRow()
    ensures StartOk(15, 5, 10, 0, 0)
    ensures RowOf(0, 10, 0) == 10 && !(RowOf(0, 10, 0) < 10)
  {
  }
}
