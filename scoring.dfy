/**
 * End-of-game scoring: every window of winLength cells along one of the four
 * scan directions, starting at any cell whose window stays on the board, is
 * counted for player p when all of its cells hold p. Overlapping windows and
 * windows in different directions are counted separately.
 */
module Scoring {
  import opened Grids

  /** The scan directions as (row step, column step): horizontal, vertical,
      down-right diagonal, down-left diagonal. */
  const Directions: seq<(int, int)> := [(0, 1), (1, 0), (1, 1), (1, -1)]

  /** Row of the k-th cell of a window starting in row i along direction d. */
  function RowOf(d: nat, i: int, k: int): int
    requires d < 4
  {
    if d == 0 then i else i + k
  }

  /** Column of the k-th cell of a window starting in column j along direction d. */
  function ColOf(d: nat, j: int, k: int): int
    requires d < 4
  {
    if d == 1 then j else if d == 3 then j - k else j + k
  }

  /** RowOf and ColOf are the source's  i + dx * k  and  j + dy * k. */
  lemma StepMatchesDirection(d: nat, i: int, j: int, k: int)
    requires d < 4
    ensures RowOf(d, i, k) == i + Directions[d].0 * k
    ensures ColOf(d, j, k) == j + Directions[d].1 * k
  {
  }

  /** The scan's guard: the last cell of the window lies on the board. */
  predicate StartOk(n: int, w: int, i: int, j: int, d: nat)
    requires d < 4
  {
    RowOf(d, i, w - 1) < n && 0 <= ColOf(d, j, w - 1) < n
  }

  /** Behind the guard, every cell i + dx * k, j + dy * k with 0 <= k < w that
      the scan reads lies on the board. */
  lemma GuardKeepsWindowOnBoard(n: int, w: int, i: int, j: int, d: nat, k: int)
    requires d < 4 && 0 <= i < n && 0 <= j < n && StartOk(n, w, i, j, d) && 0 <= k < w
    ensures 0 <= i + Directions[d].0 * k < n && 0 <= j + Directions[d].1 * k < n
  {
    StepMatchesDirection(d, i, j, k);
    StepMatchesDirection(d, i, j, w - 1);
  }

  /** The marks of the window of w cells starting at (i, j) along direction d
      (empty when w <= 0, as the source's inner loop then does nothing). */
  function Window(g: Grid, n: nat, w: int, i: int, j: int, d: nat): seq<int>
    requires IsSquare(g, n) && d < 4 && 0 <= i < n && 0 <= j < n
    requires StartOk(n, w, i, j, d)
  {
    if w <= 0 then []
    else seq(w, k requires 0 <= k < w => g[RowOf(d, i, k)][ColOf(d, j, k)])
  }

  /** Every cell of the window holds p. */
  predicate AllAre(line: seq<int>, p: int) {
    forall k :: 0 <= k < |line| ==> line[k] == p
  }

  /** What a count tallies: the windows all of mark p, or every window. */
  datatype Filter = Mark(p: int) | Any

  predicate Accepts(f: Filter, line: seq<int>) {
    match f
    case Mark(p) => AllAre(line, p)
    case Any => true
  }

  /** The window at (i, j) along d is scanned and passes f. */
  predicate Counted(g: Grid, n: nat, w: int, i: int, j: int, d: nat, f: Filter)
    requires IsSquare(g, n) && d < 4 && 0 <= i < n && 0 <= j < n
  {
    StartOk(n, w, i, j, d) && Accepts(f, Window(g, n, w, i, j, d))
  }

  /** Windows counted along d starting in row i at columns 0 .. j - 1. */
  function CountRow(g: Grid, n: nat, w: int, d: nat, i: int, j: nat, f: Filter): nat
    requires IsSquare(g, n) && d < 4 && 0 <= i < n && j <= n
  {
    if j == 0 then 0
    else CountRow(g, n, w, d, i, j - 1, f) + (if Counted(g, n, w, i, j - 1, d, f) then 1 else 0)
  }

  /** Windows counted along d starting in rows 0 .. i - 1. */
  function CountDir(g: Grid, n: nat, w: int, d: nat, i: nat, f: Filter): nat
    requires IsSquare(g, n) && d < 4 && i <= n
  {
    if i == 0 then 0
    else CountDir(g, n, w, d, i - 1, f) + CountRow(g, n, w, d, i - 1, n, f)
  }

  /** Windows counted along the first d directions. */
  function CountDirs(g: Grid, n: nat, w: int, d: nat, f: Filter): nat
    requires IsSquare(g, n) && d <= 4
  {
    if d == 0 then 0
    else CountDirs(g, n, w, d - 1, f) + CountDir(g, n, w, d - 1, n, f)
  }

  /** The score of player p on board g with window length w. */
  function Score(g: Grid, n: nat, w: int, p: int): nat
    requires IsSquare(g, n)
  {
    CountDirs(g, n, w, 4, Mark(p))
  }

  /** The number of windows the scan looks at, whatever their marks. */
  function WindowCount(g: Grid, n: nat, w: int): nat
    requires IsSquare(g, n)
  {
    CountDirs(g, n, w, 4, Any)
  }

  /** Outcome announced at the end of the game. */
  datatype Verdict = Player1Wins | Player2Wins | Draw

  /** The announcement made from the two scores. */
  function Decide(score1: int, score2: int): (v: Verdict)
    ensures v == Player1Wins <==> score1 > score2
    ensures v == Player2Wins <==> score2 > score1
    ensures v == Draw <==> score1 == score2
  {
    if score1 > score2 then Player1Wins
    else if score2 > score1 then Player2Wins
    else Draw
  }

  /** The verdict with the roles of the two players exchanged. */
  function Mirror(v: Verdict): Verdict {
    match v
    case Player1Wins => Player2Wins
    case Player2Wins => Player1Wins
    case Draw => Draw
  }

  /** Exchanges the marks of the two players and leaves empty cells alone. */
  function SwapMark(c: int): int {
    if c == 1 then 2 else if c == 2 then 1 else c
  }

  /** The board with every 1 turned into 2 and every 2 into 1. */
  function SwapMarks(g: Grid): (h: Grid)
    ensures |h| == |g|
    ensures forall i :: 0 <= i < |g| ==> |h[i]| == |g[i]|
    ensures forall i, j :: 0 <= i < |g| && 0 <= j < |g[i]| ==> h[i][j] == SwapMark(g[i][j])
  {
    seq(|g|, i requires 0 <= i < |g| => seq(|g[i]|, j requires 0 <= j < |g[i]| => SwapMark(g[i][j])))
  }
}
