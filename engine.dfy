/**
 * The game state and its operations: the board, whose turn it is, whether
 * the game is over, the room and seat of this browser, moving, resetting and
 * the end-of-game scan.
 */
module Engine {
  import opened Grids
  import opened Scoring

  /** Why a move was refused. The first three are refused silently by the
      source, the last one with a warning dialog. */
  datatype Rejection = GameIsOver | NotInRoom | CellTaken | NotYourTurn

  datatype Option<T> = None | Some(value: T)

  /** The checks a click goes through before a mark is placed, in the order
      the source makes them: the game is over, no room is joined, the cell is
      taken, the seat is not the player to move. */
  function Refusal(over: bool, inRoom: bool, cell: int, seat: int, toMove: int): (e: Option<Rejection>)
    ensures e == Some(GameIsOver) <==> over
    ensures e == Some(NotInRoom) <==> !over && !inRoom
    ensures e == Some(CellTaken) <==> !over && inRoom && cell != 0
    ensures e == Some(NotYourTurn) <==> !over && inRoom && cell == 0 && seat != toMove
    ensures e == None <==> !over && inRoom && cell == 0 && seat == toMove
  {
    if over then Some(GameIsOver)
    else if !inRoom then Some(NotInRoom)
    else if cell != 0 then Some(CellTaken)
    else if seat != toMove then Some(NotYourTurn)
    else None
  }

  /** What a move did: nothing, placed a mark and passed the turn, or placed
      the last mark and ended the game with the two scores and the verdict. */
  datatype MoveResult =
    | Rejected(reason: Rejection)
    | Placed
    | Finished(score1: nat, score2: nat, verdict: Verdict)

  /** The contents of a two-dimensional array as a grid value. */
  ghost function Snapshot(a: array2<int>): Grid
    reads a
  {
    seq(a.Length0, i requires 0 <= i < a.Length0 reads a =>
      seq(a.Length1, j requires 0 <= j < a.Length1 reads a => a[i, j]))
  }

  /** A board whose every cell is 0 is the empty grid, with n * n empty cells. */
  lemma BlankSnapshot(a: array2<int>, n: nat)
    requires a.Length0 == n && a.Length1 == n
    requires forall i, j :: 0 <= i < n && 0 <= j < n ==> a[i, j] == 0
    ensures Snapshot(a) == Filled(n, 0)
    ensures GridOccurrences(Snapshot(a), 0) == n * n
  {
    GridExtensionality(Snapshot(a), Filled(n, 0), n);
    FilledOccurrences(n, 0);
  }

  /** A new n by n array of empty cells. */
  method NewBoard(n: nat) returns (a: array2<int>)
    ensures fresh(a) && a.Length0 == n && a.Length1 == n
    ensures forall i, j :: 0 <= i < n && 0 <= j < n ==> a[i, j] == 0
  {
    a := new int[n, n]((i, j) => 0);
  }

  class Game {
    var board: array2<int>
    var boardSize: nat
    var winLength: int
    var currentPlayer: int
    var gameOver: bool
    /** A room has been joined (the source's currentRoom is not null). */
    var joined: bool
    /** The seat of this browser: 0 before one is assigned, else 1 or 2. */
    var playerNumber: int

    /** The board is boardSize by boardSize, every cell holds 0, 1 or 2, and
        the player to move is 1 or 2. */
    ghost predicate WellFormed()
      reads this, board
    {
      1 <= boardSize && board.Length0 == boardSize && board.Length1 == boardSize
      && (currentPlayer == 1 || currentPlayer == 2)
      && forall i, j :: 0 <= i < boardSize && 0 <= j < boardSize ==> 0 <= board[i, j] <= 2
    }

    /** Besides being well formed, the game is over exactly when the board is full. */
    ghost predicate Valid()
      reads this, board
    {
      WellFormed() && (gameOver <==> IsBoardFull())
    }

    /** The board's contents as a grid value. */
    ghost function Cells(): (g: Grid)
      reads this`board, this`boardSize, board
      requires board.Length0 == boardSize && board.Length1 == boardSize
      ensures IsSquare(g, boardSize) && g == Snapshot(board)
    {
      Snapshot(board)
    }

    /** No cell of the board is empty. */
    predicate IsBoardFull()
      reads this`board, board
    {
      forall i, j :: 0 <= i < board.Length0 && 0 <= j < board.Length1 ==> board[i, j] != 0
    }

    /** The board is full exactly when it has no empty cell left to count. */
    lemma FullIffNoEmptyCell()
      requires WellFormed()
      ensures IsBoardFull() <==> GridOccurrences(Cells(), 0) == 0
    {
      var g := Cells();
      assert forall i, j :: 0 <= i < boardSize && 0 <= j < boardSize ==> g[i][j] == board[i, j];
      GridOccurrencesZeroIff(g, 0);
    }

    /** The state of a page that has just loaded: a 10 by 10 empty board,
        winLength 5, player 1 to move, no room and no seat. */
    constructor ()
      ensures Valid() && fresh(board)
      ensures boardSize == 10 && winLength == 5
      ensures currentPlayer == 1 && !gameOver && !joined && playerNumber == 0
      ensures Cells() == Filled(10, 0)
    {
      boardSize, winLength := 10, 5;
      currentPlayer, gameOver := 1, false;
      joined, playerNumber := false, 0;
      var blank := NewBoard(10);
      board := blank;
      new;
      BlankSnapshot(board, 10);
      assert board[0, 0] == 0;
    }

    /** Starts a new game on an empty newSize by newSize board with player 1
        to move; the room, the seat and winLength are kept. */
    method Reset(newSize: nat)
      requires 1 <= newSize
      modifies this
      ensures Valid() && fresh(board)
      ensures boardSize == newSize && currentPlayer == 1 && !gameOver
      ensures winLength == old(winLength) && joined == old(joined) && playerNumber == old(playerNumber)
      ensures Cells() == Filled(newSize, 0)
      ensures GridOccurrences(Cells(), 0) == newSize * newSize
    {
      currentPlayer, gameOver := 1, false;
      boardSize := newSize;
      board := NewBoard(newSize);
      BlankSnapshot(board, newSize);
      assert board[0, 0] == 0;
    }

    /** A new board size chosen while the game is running, as the source
        writes it: the size is stored before the user is asked, so declining
        the reset leaves boardSize out of step with the board. */
    method UpdateBoardSizeAsWritten(newSize: nat, confirmed: bool)
      requires Valid() && 1 <= newSize
      modifies this
      ensures boardSize == newSize
      ensures joined == old(joined) && playerNumber == old(playerNumber) && winLength == old(winLength)
      ensures old(joined) && !old(gameOver) && !confirmed ==>
        board == old(board) && currentPlayer == old(currentPlayer) && gameOver == old(gameOver)
      ensures old(joined) && !old(gameOver) && !confirmed && newSize != old(boardSize) ==> !WellFormed()
      ensures !(old(joined) && !old(gameOver) && !confirmed) ==>
        Valid() && fresh(board) && currentPlayer == 1 && !gameOver && Cells() == Filled(newSize, 0)
    {
      boardSize := newSize;
      if joined && !gameOver {
        if confirmed {
          Reset(boardSize);
        }
      } else {
        Reset(boardSize);
      }
    }

    /** A new board size: a game in progress in a room is reset only when the
        user confirms, and a declined reset keeps the game, its size included,
        as it was. */
    method UpdateBoardSize(newSize: nat, confirmed: bool)
      requires Valid() && 1 <= newSize
      modifies this
      ensures Valid()
      ensures joined == old(joined) && playerNumber == old(playerNumber) && winLength == old(winLength)
      ensures old(joined) && !old(gameOver) && !confirmed ==> unchanged(this)
      ensures !(old(joined) && !old(gameOver) && !confirmed) ==>
        boardSize == newSize && fresh(board) && currentPlayer == 1 && !gameOver && Cells() == Filled(newSize, 0)
    {
      if joined && !gameOver {
        if confirmed {
          Reset(newSize);
        }
      } else {
        Reset(newSize);
      }
    }

    /** Sets the window length for the next scan; nothing is rescored. */
    method UpdateWinLength(newWinLength: int)
      requires Valid()
      modifies this`winLength
      ensures Valid()
      ensures winLength == newWinLength
    {
      winLength := newWinLength;
    }

    /** Enters the room with the given identifier; an empty one is refused. */
    method JoinRoom(roomId: string) returns (ok: bool)
      requires Valid()
      modifies this`joined
      ensures Valid()
      ensures ok == (roomId != [])
      ensures joined == (ok || old(joined))
    {
      ok := roomId != [];
      if ok {
        joined := true;
      }
    }

    /** The seat handed out once the room answers: 1 for its creator, else 2. */
    method TakeSeat(isCreator: bool)
      requires Valid()
      modifies this`playerNumber
      ensures Valid()
      ensures playerNumber == if isCreator then 1 else 2
    {
      playerNumber := if isCreator then 1 else 2;
    }

    /** Leaves the room when one is joined and the user confirms: the seat is
        given up and a new game starts on a board of the same size. */
    method LeaveRoom(confirmed: bool)
      requires Valid()
      modifies this
      ensures Valid()
      ensures old(joined) && confirmed ==>
        !joined && playerNumber == 0 && fresh(board)
        && boardSize == old(boardSize) && winLength == old(winLength)
        && currentPlayer == 1 && !gameOver && Cells() == Filled(boardSize, 0)
      ensures !(old(joined) && confirmed) ==> unchanged(this)
    {
      if joined && confirmed {
        joined, playerNumber := false, 0;
        Reset(boardSize);
      }
    }

    /** The marks of the window of winLength cells starting at (i, j) along
        direction d, collected one cell at a time. */
    method CollectWindow(ghost g: Grid, d: nat, i: int, j: int) returns (line: seq<int>)
      requires WellFormed() && g == Cells() && d < 4 && 0 <= i < boardSize && 0 <= j < boardSize
      requires StartOk(boardSize, winLength, i, j, d)
      ensures line == Window(g, boardSize, winLength, i, j, d)
    {
      ghost var window := Window(g, boardSize, winLength, i, j, d);
      var dx, dy := Directions[d].0, Directions[d].1;
      line := [];
      var k := 0;
      while k < winLength
        invariant 0 <= k <= |window|
        invariant line == window[..k]
      {
        StepMatchesDirection(d, i, j, k);
        line := line + [board[i + dx * k, j + dy * k]];
        k := k + 1;
      }
    }

    /** The scan of the start cells of row i along direction d: the windows
        that stay on the board are collected and counted for the player
        holding all of their cells. */
    method ScanRow(ghost g: Grid, d: nat, i: int) returns (count1: nat, count2: nat)
      requires WellFormed() && g == Cells() && d < 4 && 0 <= i < boardSize
      ensures count1 == CountRow(g, boardSize, winLength, d, i, boardSize, Mark(1))
      ensures count2 == CountRow(g, boardSize, winLength, d, i, boardSize, Mark(2))
    {
      var n, w := boardSize, winLength;
      var dx, dy := Directions[d].0, Directions[d].1;
      count1, count2 := 0, 0;
      for j := 0 to n
        invariant count1 == CountRow(g, n, w, d, i, j, Mark(1))
        invariant count2 == CountRow(g, n, w, d, i, j, Mark(2))
      {
        var lastRow, lastCol := i + dx * (w - 1), j + dy * (w - 1);
        assert lastRow == RowOf(d, i, w - 1) && lastCol == ColOf(d, j, w - 1) by {
          StepMatchesDirection(d, i, j, w - 1);
        }
        if lastRow < n && lastCol >= 0 && lastCol < n {
          var line := CollectWindow(g, d, i, j);
          assert AllAre(line, 1) == Counted(g, n, w, i, j, d, Mark(1));
          assert AllAre(line, 2) == Counted(g, n, w, i, j, d, Mark(2));
          if AllAre(line, 1) {
            count1 := count1 + 1;
          }
          if AllAre(line, 2) {
            count2 := count2 + 1;
          }
        } else {
          assert !StartOk(n, w, i, j, d);
        }
      }
    }

    /** The end-of-game scan: for each direction and each start cell whose
        window stays on the board, the window of winLength cells is collected
        and counted for the player holding all of its cells. */
    method CalculateScores() returns (score1: nat, score2: nat)
      requires WellFormed()
      ensures score1 == Score(Cells(), boardSize, winLength, 1)
      ensures score2 == Score(Cells(), boardSize, winLength, 2)
    {
      ghost var g := Cells();
      var n, w := boardSize, winLength;
      score1, score2 := 0, 0;
      for d := 0 to 4
        invariant score1 == CountDirs(g, n, w, d, Mark(1))
        invariant score2 == CountDirs(g, n, w, d, Mark(2))
      {
        for i := 0 to n
          invariant score1 == CountDirs(g, n, w, d, Mark(1)) + CountDir(g, n, w, d, i, Mark(1))
          invariant score2 == CountDirs(g, n, w, d, Mark(2)) + CountDir(g, n, w, d, i, Mark(2))
        {
          var row1, row2 := ScanRow(g, d, i);
          score1, score2 := score1 + row1, score2 + row2;
        }
      }
    }

    /** Ends the game on a full board and scores it. */
    method EndGame() returns (score1: nat, score2: nat, verdict: Verdict)
      requires WellFormed() && IsBoardFull()
      modifies this`gameOver
      ensures Valid() && gameOver
      ensures score1 == Score(Cells(), boardSize, winLength, 1)
      ensures score2 == Score(Cells(), boardSize, winLength, 2)
      ensures verdict == Decide(score1, score2)
    {
      gameOver := true;
      score1, score2 := CalculateScores();
      verdict := Decide(score1, score2);
    }

    /** Writes the mark of the player to move into the empty cell (row, col). */
    method PutMark(row: int, col: int)
      requires WellFormed() && 0 <= row < boardSize && 0 <= col < boardSize && board[row, col] == 0
      modifies board
      ensures WellFormed()
      ensures Cells() == Place(old(Cells()), row, col, currentPlayer)
      ensures GridOccurrences(Cells(), 0) == GridOccurrences(old(Cells()), 0) - 1
    {
      ghost var before := Cells();
      board[row, col] := currentPlayer;
      GridExtensionality(Cells(), Place(before, row, col, currentPlayer), boardSize);
      PlaceOccurrences(before, row, col, currentPlayer, 0);
    }

    /** What follows a placed mark: a full board ends and scores the game,
        any other board passes the turn to the other player. */
    method FinishTurn() returns (r: MoveResult)
      requires WellFormed() && !gameOver
      modifies this`currentPlayer, this`gameOver
      ensures Valid()
      ensures r.Finished? <==> GridOccurrences(Cells(), 0) == 0
      ensures r.Placed? <==> GridOccurrences(Cells(), 0) != 0
      ensures r.Placed? ==> !gameOver && currentPlayer == 3 - old(currentPlayer)
      ensures r.Finished? ==>
        gameOver && currentPlayer == old(currentPlayer)
        && r.score1 == Score(Cells(), boardSize, winLength, 1)
        && r.score2 == Score(Cells(), boardSize, winLength, 2)
        && r.verdict == Decide(r.score1, r.score2)
    {
      FullIffNoEmptyCell();
      if IsBoardFull() {
        var score1, score2, verdict := EndGame();
        r := Finished(score1, score2, verdict);
      } else {
        currentPlayer := if currentPlayer == 1 then 2 else 1;
        r := Placed;
      }
    }

    /** A click on cell (row, col). The move is refused, leaving everything
        as it was, when the game is over, no room is joined, the cell is taken
        or it is not this seat's turn. Otherwise the mover's mark goes into
        that one cell; a full board then ends and scores the game, and any
        other board passes the turn to the other player. */
    method MakeMove(row: int, col: int) returns (r: MoveResult)
      requires Valid()
      requires 0 <= row < boardSize && 0 <= col < boardSize
      modifies this`currentPlayer, this`gameOver, board
      ensures Valid()
      ensures match Refusal(old(gameOver), joined, old(board[row, col]), playerNumber, old(currentPlayer))
        case Some(e) => r == Rejected(e)
        case None => !r.Rejected?
      ensures r.Rejected? ==>
        unchanged(board) && currentPlayer == old(currentPlayer) && gameOver == old(gameOver)
      ensures !r.Rejected? ==> Cells() == Place(old(Cells()), row, col, old(currentPlayer))
      ensures !r.Rejected? ==> GridOccurrences(Cells(), 0) == GridOccurrences(old(Cells()), 0) - 1
      ensures !r.Rejected? ==> (r.Finished? <==> GridOccurrences(Cells(), 0) == 0)
      ensures !r.Rejected? ==> (r.Finished? <==> GridOccurrences(old(Cells()), 0) == 1)
      ensures r.Placed? ==> !gameOver && currentPlayer == 3 - old(currentPlayer)
      ensures r.Finished? ==>
        gameOver && currentPlayer == old(currentPlayer)
        && r.score1 == Score(Cells(), boardSize, winLength, 1)
        && r.score2 == Score(Cells(), boardSize, winLength, 2)
        && r.verdict == Decide(r.score1, r.score2)
    {
      var refusal := Refusal(gameOver, joined, board[row, col], playerNumber, currentPlayer);
      if refusal.Some? {
        return Rejected(refusal.value);
      }
      PutMark(row, col);
      r := FinishTurn();
    }
  }
}
