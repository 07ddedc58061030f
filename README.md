# Gomoku room game: state engine and end-of-game scoring

This project models the game engine of a browser game for two players. The
players take turns placing marks on a square board:

- each cell holds 0 (empty), 1 (player 1) or 2 (player 2);
- a click is refused when the game is over, when no room is joined, when the
  cell is taken, or when it is not this seat's turn;
- no line is detected during play. The game ends only when the board is full.
  The scan then scores it and the two totals decide the winner.

The scan looks at four directions: horizontal, vertical, and the two
diagonals. For each start cell whose window of `winLength` cells stays on the
board, it counts the window for player 1 when every cell holds 1, and for
player 2 when every cell holds 2. Overlapping windows are counted separately,
and so are windows in different directions.

Modules:

- `Grids`: the board as a value (`seq<seq<int>>`). It counts cells holding a
  mark, writes one cell, and builds uniform boards.
- `Scoring`: the scan as a specification. It defines the window of each start
  cell and direction, and `CountRow`, `CountDir` and `CountDirs`, which count
  the windows passing a filter over start cells, rows and directions. It also
  defines the scores, the verdict and the exchange of the two marks.
- `ScoringFacts`: what the scan promises, proved about that specification.
- `Engine`: the class `Game`. It keeps the board in an `array2<int>` together
  with the source's global state. Its methods update that state in place, as
  the source does. The scan is written with the source's nested loops and its
  `i + dx * k` indexing, and is proved equal to `Scoring.Score`.

Invariants kept by every operation except `UpdateBoardSizeAsWritten`, which
models the source's declined resize (see Findings):

- `Game.WellFormed()`: the board is `boardSize` by `boardSize`, every cell
  holds 0, 1 or 2, and the player to move is 1 or 2.
- `Game.Valid()`: `WellFormed()`, and the game is over exactly when the board
  is full.

A fresh board has `boardSize * boardSize` empty cells (`Reset`). Every
accepted move removes exactly one, and `MakeMove` states that an accepted move
ends the game exactly when the board had one empty cell before it. Together
these state that a new game ends on its `boardSize²`-th accepted move.

The engine proves its results for any integer `winLength`, not only
`winLength >= 1`. Behind the source's guard the scan never reads outside the
board, whatever `winLength` is. When `winLength <= 0` every window is empty,
so each scanned start cell counts for both players.

Inputs that come from outside the engine are parameters:

- the room identifier typed in;
- whether the user created the room;
- the user's answer to a confirmation dialog;
- the board size and window length chosen in the form.

## Model

| member | source | states |
|---|---|---|
| Engine.Game.constructor | script.js.js:2-10 | The page starts with a 10 by 10 empty board, winLength 5, player 1 to move, no room and no seat, in a valid state. |
| Engine.NewBoard | script.js.js:99 | A new n by n array in which every cell is 0. |
| Engine.BlankSnapshot | script.js.js:99 | An all-zero n by n array is the empty grid, and it has n * n empty cells. |
| Engine.Game.Reset | script.js.js:305-311 | A new game: a fresh empty board of the requested size with n * n empty cells, player 1 to move, the game not over. The room, the seat and winLength are kept. |
| Engine.Game.UpdateBoardSizeAsWritten | script.js.js:288-297 | The source's order of steps. The size is stored first, so declining the reset in a running game keeps the old board under the new size, and the state is no longer well formed when the size changed. |
| Engine.Game.UpdateBoardSize | script.js.js:288-297 | Corrected: a declined reset changes nothing, and any other choice starts a new game of the new size. The state stays valid in both cases. |
| Engine.Game.UpdateWinLength | script.js.js:300-302 | Only winLength changes, to the new value, and the state stays valid. Board, turn and game-over flag are untouched, so nothing is rescored. |
| Engine.Game.JoinRoom | script.js.js:32-41 | An empty room identifier is refused and leaves the room state as it was. Any other identifier joins a room. The state stays valid. |
| Engine.Game.TakeSeat | script.js.js:56 | The room's creator takes seat 1 and anyone else takes seat 2. The state stays valid. |
| Engine.Game.LeaveRoom | script.js.js:326-338 | With a room joined and the user confirming, the seat is given up and a new empty game of the same size starts. Otherwise nothing changes. |
| Engine.Refusal | script.js.js:122-128 | A click is refused for exactly one reason, in the source's order: game over, then no room, then cell taken, then not this seat's turn. It is accepted exactly when none of them holds. |
| Engine.Game.PutMark | script.js.js:134 | Writing the mover's mark into an empty cell changes that one cell and no other. It removes exactly one empty cell, and every cell still holds 0, 1 or 2. |
| Engine.Game.FinishTurn | script.js.js:138-147 | After a placed mark, a board with no empty cell ends the game with the scan's scores and verdict, and the player is unchanged. Any other board passes the turn to the other player (3 - p). |
| Engine.Game.MakeMove | script.js.js:121-148 | A refused move reports its reason and leaves board, player and game-over flag unchanged. An accepted move writes the mover's mark into (row, col) only and removes one empty cell. It then either ends and scores the game, exactly when no empty cell is left (the board had one before the move), or passes the turn. Validity is kept in every case. |
| Engine.Game.IsBoardFull | script.js.js:200-202 | The board is full when no cell of it holds 0; it is the only end-of-game test. |
| Engine.Game.FullIffNoEmptyCell | script.js.js:200-202 | The board is full exactly when its count of empty cells is 0. |
| Grids.GridOccurrencesZeroIff | script.js.js:200-202 | A grid counts no v exactly when none of its cells holds v. |
| Grids.PlaceOccurrences | script.js.js:134 | Overwriting a cell that held v with another mark lowers the count of v by exactly one. |
| Grids.FilledOccurrences | script.js.js:99 | A uniform n by n board of v has n * n cells holding v. |
| Grids.Filled | script.js.js:99 | The n by n grid in which every cell holds v. |
| Grids.GridExtensionality | script.js.js:134 | Proof helper: two n by n grids that agree on every cell are equal. |
| Engine.Game.EndGame | script.js.js:205-208 | Ending a full board sets the game over, keeps the state valid, and returns the scan's two scores and their verdict. |
| Engine.Game.CalculateScores | script.js.js:211-240 | The nested scan over directions, start rows and start columns returns exactly Score(board, boardSize, winLength, 1) and Score(..., 2). |
| Engine.Game.ScanRow | script.js.js:225-238 | The scan of one row of start cells in one direction counts exactly CountRow for each player. |
| Engine.Game.CollectWindow | script.js.js:230-233 | The collected line is the window of winLength cells from (i, j) along the direction, read with the source's i + dx * k and j + dy * k indexing. Every read stays on the board. |
| Scoring.StepMatchesDirection | script.js.js:215-223 | The window's k-th cell is (i + dx * k, j + dy * k) for the four direction vectors (0,1), (1,0), (1,1), (1,-1). |
| Scoring.StartOk | script.js.js:226-228 | The scan's guard: the row of the window's last cell is below boardSize, and its column is between 0 and boardSize - 1. |
| Scoring.GuardKeepsWindowOnBoard | script.js.js:226-232 | When the guard admits a start cell, every cell the inner loop reads, for 0 <= k < winLength, lies on the board. |
| ScoringFacts.DeclinedResizeReadsMissingRow | script.js.js:224-232 | The scan after a declined 10 to 15 resize: with boardSize 15 and winLength 5, the guard admits start cell (10, 0) horizontally, so line 232 reads row 10, which a 10 by 10 board does not have. |
| Scoring.Decide | script.js.js:255-273 | Player 1 wins exactly when score1 > score2, player 2 exactly when score2 > score1, and it is a draw exactly when they are equal. |
| Scoring.SwapMarks | script.js.js:235-236 | The board with marks 1 and 2 exchanged cell by cell and empty cells kept. |
| ScoringFacts.OneMarkPerWindow | script.js.js:235-236 | A window of at least one cell counts for at most one player, and every counted window is a scanned one. |
| ScoringFacts.ScoresExclusive | script.js.js:222-240 | For winLength >= 1 the two scores together never exceed the number of scanned windows. |
| ScoringFacts.EmptyWindowsCountForBoth | script.js.js:226-236 | For winLength <= 0 each player's score equals the number of start cells the guard admits, since an empty line passes both tests. |
| ScoringFacts.TooLongScoresZero | script.js.js:224-236 | A winLength longer than the side admits no start cell, so nothing is scanned and both scores are 0. |
| ScoringFacts.AbsentMarkScoresZero | script.js.js:235-236 | A mark that is nowhere on the board scores 0 when winLength >= 1. |
| ScoringFacts.SwapSwapsScores | script.js.js:222-240 | Exchanging the two players' marks exchanges their scores. |
| ScoringFacts.SwapMirrorsVerdict | script.js.js:255-273 | Exchanging the two players' marks exchanges the announced winner, and a draw stays a draw. |
| ScoringFacts.AllDirections | script.js.js:222 | Proof helper: a total is the sum of the counts of the four directions. |
| ScoringFacts.DirWindows | script.js.js:224-228 | The number of start cells admitted in the first i rows of one direction, in closed form. |
| ScoringFacts.WindowCountClosedForm | script.js.js:222-240 | For 1 <= winLength <= n, with m = n - winLength + 1, the scan looks at 2nm + 2m² windows. |
| ScoringFacts.UniformBoardScores | script.js.js:222-240 | A board filled by one player scores every scanned window (2nm + 2m²) for that player and 0 for any other mark. |
| ScoringFacts.FullBoardOneMark | script.js.js:222-240 | A board filled by one player, with winLength equal to the side n, scores 2n + 2 (rows, columns, two diagonals) for that player and 0 for the other. |
| ScoringFacts.FiveByFiveOfPlayerTwo | script.js.js:222-240 | A 5 by 5 board of 2s with winLength 5 scores 12 for player 2 and 0 for player 1. |
| ScoringFacts.SingleCellWindows | script.js.js:222-240 | With winLength 1 every cell of player p is counted once per direction, so the score is 4 times the number of p's cells. |
| ScoringFacts.RunWindow | script.js.js:230-235 | In a row where p occupies exactly the columns a .. a + len - 1, the horizontal window at column s counts for p exactly when it lies inside the run. |
| ScoringFacts.RunPrefix | script.js.js:225-235 | The horizontal windows counted for p among the first j start columns of such a row, in closed form. |
| ScoringFacts.RunInRow | script.js.js:222-240 | In a row where p holds exactly the columns a .. a + len - 1 and no other cell of that row, with len >= winLength, p gets exactly len - winLength + 1 horizontal windows in that row. |
| ScoringFacts.TripleCounted | script.js.js:230-236 | Proof helper: a scanned window of three cells counts for p exactly when its three cells hold p. |
| ScoringFacts.DirOfThree | script.js.js:224-225 | Proof helper: on a 3 by 3 board the count of one direction is the sum over its nine start cells. |
| ScoringFacts.CornerBoard | script.js.js:222-240 | The 3 by 3 board of 1s with a 2 at (2, 2), scored with winLength 3, gives 5 to 0. Two rows, two columns and the anti-diagonal count for player 1. |

## Left out

- DOM rendering and wiring are not modelled because they are display only: updateBoard, updateStatus, updatePlayersList, the result HTML in showResult, the score text fields and the click listeners.
- generatePlayerId and createRoom are not modelled because they only draw random identifiers. The creator flag that createRoom passes on is the isCreator parameter of TakeSeat.
- The simulated socket connection, its timers, and the console stubs for sending moves, results and resets are not modelled. There is no transport; joining and the seat are plain state (JoinRoom, TakeSeat).
- Alert and confirm dialogs are not modelled. A confirm answer is the confirmed parameter.
- parseInt of the form fields is not modelled; sizes are integers the caller supplies. A NaN board size or window length is therefore not modelled.
- Engine.Game.JoinRoom: the room identifier's trim and upper-casing are not modelled. The identifier is taken as already normalised, and only its emptiness matters.
- A board size below 1 is not modelled: sizes are taken to be at least 1 (the requires of Reset, UpdateBoardSize and UpdateBoardSizeAsWritten). The script does not check the field after parseInt at script.js.js:289: 0 gives an empty board at line 99, and a negative size or NaN makes createBoard throw at line 99 after resetGame has already set currentPlayer and gameOver.
- Clicks outside the board are not modelled: a click comes only from a generated cell (script.js.js:101-111), so a move's row and column are on the board.
- The scan is proved by the ghost grid Engine.Snapshot of the array, taken when the scan starts. The source reads the array in place, and nothing writes to it during the scan.

## Findings

| source | as written | input that shows it | evidently intended | confidence | as-written member | corrected member |
|---|---|---|---|---|---|---|
| script.js.js:288-293 | boardSize is assigned from the form before the user is asked to confirm the reset, and declining leaves the old board in place | a 10 by 10 game in progress in a room: choose 15 and decline. boardSize is 15 but the board is still 10 by 10, so the end-of-game scan reads the missing row board[10] | declining keeps the game, its size included, unchanged | medium, not executed | Engine.Game.UpdateBoardSizeAsWritten | Engine.Game.UpdateBoardSize |
