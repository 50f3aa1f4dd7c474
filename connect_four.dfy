/**
 * town/games/ConnectFourGame.js: the rules of Connect Four on top of the Game base.
 *
 * The state changes of `_join`, `startGame`, `_leave` and `applyMove` are the functions
 * Joined, Started, Left and Moved of the old state; the class ConnectFourGame applies them to
 * its Game object.  The win check `checkForWin` is the imperative method CheckForWin, which
 * fills a 6 x 7 board and scans it, proved equal to the declarative predicate HasWin.
 */
module ConnectFour {
  import opened Wrappers
  import opened Errors
  import opened Models
  import opened Games

  const Rows: int := 6
  const Columns: int := 7
  /** A full board; `checkForTie` compares the move count with this. */
  const BoardSize: int := 42

  /** `getOtherPlayerColor`. */
  function OtherColor(c: Color): (r: Color)
    ensures r != c
  {
    if c == Yellow then Red else Yellow
  }

  /**
   * The state a new game starts in, given the prior game's first player (if it was created
   * from one): nobody seated, no moves, and the first player flipped from the prior game,
   * or Red when there is none.
   */
  function InitialState(priorFirst: Option<Color>): (s: ConnectFourGameState)
    ensures s.moves == [] && s.status == WaitingForPlayers && s.winner.None?
    ensures s.red.None? && s.yellow.None? && !s.redReady && !s.yellowReady
    ensures priorFirst.None? ==> s.firstPlayer == Red
    ensures priorFirst.Some? ==> s.firstPlayer != priorFirst.value
  {
    ConnectFourGameState(
      [], WaitingForPlayers,
      OtherColor(if priorFirst.Some? then priorFirst.value else Yellow),
      None, None, false, false, None)
  }

  predicate Seated(s: ConnectFourGameState, player: PlayerID)
  {
    s.red == Some(player) || s.yellow == Some(player)
  }

  /**
   * `_join`.  A seated player and a full game are refused.  Otherwise the player takes the
   * seat held in the prior game if it is free, else Red, else Yellow; the game waits for
   * players until both seats are taken, and is then ready to start.
   */
  function Joined(s: ConnectFourGameState, preferredRed: Option<PlayerID>,
                   preferredYellow: Option<PlayerID>, player: PlayerID)
    : (r: Result<ConnectFourGameState, Error>)
    ensures Seated(s, player) ==> r == Failure(PlayerAlreadyInGame)
    ensures !Seated(s, player) && s.red.Some? && s.yellow.Some? ==> r == Failure(GameFull)
    ensures r.Success? <==> !Seated(s, player) && (s.red.None? || s.yellow.None?)
    ensures r.Success? ==>
      var t := r.value;
      // exactly one free seat is filled, with this player, and nothing else changes
      && ((s.red.None? && t.red == Some(player) && t.yellow == s.yellow)
          || (s.yellow.None? && t.yellow == Some(player) && t.red == s.red))
      && t == s.(red := t.red, yellow := t.yellow, status := t.status)
      // a preferred free seat is honoured; otherwise Red comes before Yellow
      && (t.yellow != s.yellow ==>
            s.red.Some? || (preferredYellow == Some(player) && preferredRed != Some(player)))
      && (t.red != s.red ==>
            preferredRed == Some(player) || !(preferredYellow == Some(player) && s.yellow.None?))
      // ready to start exactly when both seats are filled
      && t.status == (if t.red.Some? && t.yellow.Some? then WaitingToStart else WaitingForPlayers)
  {
    if s.yellow == Some(player) || s.red == Some(player) then Failure(PlayerAlreadyInGame)
    else
      var seated :=
        if preferredRed == Some(player) && s.red.None? then
          Success(s.(status := WaitingForPlayers, red := Some(player)))
        else if preferredYellow == Some(player) && s.yellow.None? then
          Success(s.(status := WaitingForPlayers, yellow := Some(player)))
        else if s.red.None? then
          Success(s.(status := WaitingForPlayers, red := Some(player)))
        else if s.yellow.None? then
          Success(s.(status := WaitingForPlayers, yellow := Some(player)))
        else
          Failure(GameFull);
      match seated
      case Failure(e) => Failure(e)
      case Success(t) =>
        Success(if t.red.Some? && t.yellow.Some? then t.(status := WaitingToStart) else t)
  }

  /**
   * `startGame`.  Only a game waiting to start can be started, and only by a seated player.
   * The caller's ready flag is set, nothing else of the seats changes, and the game is in
   * progress exactly when both flags are set.  The first player is reset to Red when neither
   * seat is held by the player who held it in the prior game.
   */
  function Started(s: ConnectFourGameState, preferredRed: Option<PlayerID>,
                   preferredYellow: Option<PlayerID>, player: PlayerID)
    : (r: Result<ConnectFourGameState, Error>)
    ensures s.status != WaitingToStart ==> r == Failure(GameNotStartable)
    ensures s.status == WaitingToStart && !Seated(s, player) ==> r == Failure(PlayerNotInGame)
    ensures r.Success? <==> s.status == WaitingToStart && Seated(s, player)
    ensures r.Success? ==>
      var t := r.value;
      && t.redReady == (s.redReady || s.red == Some(player))
      && t.yellowReady == (s.yellowReady || s.yellow == Some(player))
      && t.moves == s.moves && t.red == s.red && t.yellow == s.yellow && t.winner == s.winner
      && (t.status == InProgress <==> t.redReady && t.yellowReady)
      && (t.status != InProgress ==> t.status == WaitingToStart)
      && (preferredRed == s.red || preferredYellow == s.yellow ==> t.firstPlayer == s.firstPlayer)
      && (preferredRed != s.red && preferredYellow != s.yellow ==> t.firstPlayer == Red)
  {
    if s.status != WaitingToStart then Failure(GameNotStartable)
    else if s.red != Some(player) && s.yellow != Some(player) then Failure(PlayerNotInGame)
    else
      var s1 := if s.red == Some(player) then s.(redReady := true) else s;
      var s2 := if s1.yellow == Some(player) then s1.(yellowReady := true) else s1;
      var s3 := if !(preferredRed == s2.red || preferredYellow == s2.yellow)
                then s2.(firstPlayer := Red) else s2;
      Success(s3.(status := if s3.redReady && s3.yellowReady then InProgress else WaitingToStart))
  }

  /**
   * `_leave`.  A finished game is left as it is.  Otherwise the leaver's seat and ready flag
   * are cleared (an unseated player is refused); a game that had not started waits for players
   * again, and a game in progress is over, won by whoever holds the other seat.
   */
  function Left(s: ConnectFourGameState, player: PlayerID): (r: Result<ConnectFourGameState, Error>)
    ensures s.status == Over ==> r == Success(s)
    ensures r.Failure? <==> s.status != Over && !Seated(s, player)
    ensures r.Failure? ==> r.error == PlayerNotInGame
    ensures s.status != Over && r.Success? ==>
      var t := r.value;
      && t.moves == s.moves && t.firstPlayer == s.firstPlayer
      && (if s.red == Some(player)
          then t.red.None? && !t.redReady && t.yellow == s.yellow && t.yellowReady == s.yellowReady
          else t.yellow.None? && !t.yellowReady && t.red == s.red && t.redReady == s.redReady)
      && (s.status == InProgress ==>
            t.status == Over && t.winner == (if s.red == Some(player) then s.yellow else s.red))
      && (s.status != InProgress ==> t.status == WaitingForPlayers && t.winner == s.winner)
  {
    if s.status == Over then Success(s)
    else
      match RemovePlayer(s, player)
      case Failure(e) => Failure(e)
      case Success((t, color)) =>
        match t.status
        case WaitingToStart => Success(t.(status := WaitingForPlayers))
        case WaitingForPlayers => Success(t.(status := WaitingForPlayers))
        case InProgress =>
          Success(t.(status := Over, winner := if color == Red then t.yellow else t.red))
  }

  /** `removePlayer` inside `_leave`: clear the player's seat and report its colour. */
  function RemovePlayer(s: ConnectFourGameState, player: PlayerID)
    : Result<(ConnectFourGameState, Color), Error>
  {
    if s.red == Some(player) then Success((s.(red := None, redReady := false), Red))
    else if s.yellow == Some(player) then Success((s.(yellow := None, yellowReady := false), Yellow))
    else Failure(PlayerNotInGame)
  }

  // ----- Moves -------------------------------------------------------------------------

  /** Whose turn it is: the first player on an even number of moves, the other on an odd one. */
  function NextPlayer(s: ConnectFourGameState): (c: Color)
    ensures |s.moves| % 2 == 0 ==> c == s.firstPlayer
    ensures |s.moves| % 2 == 1 ==> c == OtherColor(s.firstPlayer)
  {
    match s.firstPlayer
    case Red => if |s.moves| % 2 == 0 then Red else Yellow
    case Yellow => if |s.moves| % 2 == 0 then Yellow else Red
  }

  /** The number of moves made in column `col` (`moves.filter(m => m.col === col).length`). */
  function MovesInColumn(moves: seq<ConnectFourMove>, col: int): (n: nat)
    ensures n == multiset(ColumnsOf(moves))[col]
    ensures n <= |moves|
    ensures n == |moves| ==> forall i :: 0 <= i < |moves| ==> moves[i].col == col
    decreases |moves|
  {
    if moves == [] then 0
    else
      var k := |moves| - 1;
      assert ColumnsOf(moves) == ColumnsOf(moves[..k]) + [moves[k].col];
      MovesInColumn(moves[..k], col) + (if moves[k].col == col then 1 else 0)
  }

  /** The column of each move, in order. */
  function ColumnsOf(moves: seq<ConnectFourMove>): (cols: seq<int>)
  {
    seq(|moves|, i requires 0 <= i < |moves| => moves[i].col)
  }

  /** `_validateMove` exactly as written: the column itself is never checked. */
  function ValidateMoveAsWritten(s: ConnectFourGameState, move: ConnectFourMove): (r: Outcome<Error>)
    ensures r.Pass? <==>
      move.gamePiece == NextPlayer(s) && MovesInColumn(s.moves, move.col) != Rows
      && move.row == Rows - 1 - MovesInColumn(s.moves, move.col)
  {
    if move.gamePiece != NextPlayer(s) then Fail(MoveNotYourTurn)
    else
      var inColumn := MovesInColumn(s.moves, move.col);
      if inColumn == 6 then Fail(BoardPositionNotValid)
      else if move.row != 5 - inColumn then Fail(BoardPositionNotValid)
      else Pass
  }

  /**
   * `_validateMove` with the column bound it evidently intends: the piece must be the one
   * whose turn it is, and it must drop into the lowest free row of a column on the board that
   * is not full.
   */
  function ValidateMove(s: ConnectFourGameState, move: ConnectFourMove): (r: Outcome<Error>)
    ensures r.Pass? <==>
      move.gamePiece == NextPlayer(s) && 0 <= move.col < Columns
      && MovesInColumn(s.moves, move.col) != Rows
      && move.row == Rows - 1 - MovesInColumn(s.moves, move.col)
    ensures r.Fail? ==>
      r.error == (if move.gamePiece != NextPlayer(s) then MoveNotYourTurn else BoardPositionNotValid)
  {
    if move.gamePiece != NextPlayer(s) then Fail(MoveNotYourTurn)
    else if !(0 <= move.col < 7) then Fail(BoardPositionNotValid)
    else
      var inColumn := MovesInColumn(s.moves, move.col);
      if inColumn == 6 then Fail(BoardPositionNotValid)
      else if move.row != 5 - inColumn then Fail(BoardPositionNotValid)
      else Pass
  }

  predicate OnBoard(m: ConnectFourMove)
  {
    0 <= m.row < Rows && 0 <= m.col < Columns
  }

  predicate AllOnBoard(moves: seq<ConnectFourMove>)
  {
    forall i :: 0 <= i < |moves| ==> OnBoard(moves[i])
  }

  /** The move drops into its column on the board, into the lowest row `before` leaves free. */
  predicate DropsInto(before: seq<ConnectFourMove>, m: ConnectFourMove)
  {
    && 0 <= m.col < Columns
    && MovesInColumn(before, m.col) < Rows
    && m.row == Rows - 1 - MovesInColumn(before, m.col)
  }

  /** The invariant of every game: each move was a legal drop when it was made. */
  predicate Stacked(moves: seq<ConnectFourMove>)
  {
    forall i :: 0 <= i < |moves| ==> DropsInto(moves[..i], moves[i])
  }

  lemma StackedOnBoard(moves: seq<ConnectFourMove>)
    requires Stacked(moves)
    ensures AllOnBoard(moves)
  {
    forall i | 0 <= i < |moves| ensures OnBoard(moves[i]) {
      assert DropsInto(moves[..i], moves[i]);
    }
  }

  lemma StackedExtend(moves: seq<ConnectFourMove>, m: ConnectFourMove)
    requires Stacked(moves) && DropsInto(moves, m)
    ensures Stacked(moves + [m])
  {
    var ms := moves + [m];
    forall i | 0 <= i < |ms| ensures DropsInto(ms[..i], ms[i]) {
      if i < |moves| {
        assert ms[..i] == moves[..i];
      } else {
        assert ms[..i] == moves;
      }
    }
  }

  lemma StackedPrefix(moves: seq<ConnectFourMove>)
    requires Stacked(moves) && moves != []
    ensures Stacked(moves[..|moves| - 1])
  {
    var p := moves[..|moves| - 1];
    forall i | 0 <= i < |p| ensures DropsInto(p[..i], p[i]) {
      assert p[..i] == moves[..i];
    }
  }

  /** No column of a game ever holds more than six pieces. */
  lemma {:induction false} ColumnsNeverOverfill(moves: seq<ConnectFourMove>, col: int)
    requires Stacked(moves)
    ensures MovesInColumn(moves, col) <= Rows
    decreases |moves|
  {
    if moves != [] {
      var p := moves[..|moves| - 1];
      StackedPrefix(moves);
      ColumnsNeverOverfill(p, col);
      assert moves[..|moves| - 1] == p;
      assert DropsInto(p, moves[|moves| - 1]);
    }
  }

  /**
   * In a column holding n pieces, the rows above the lowest n are empty: the pieces of a game
   * fill each column from the bottom, and a legal drop never lands on an occupied cell.
   */
  lemma {:induction false} FreeAboveStack(moves: seq<ConnectFourMove>, row: int, col: int)
    requires Stacked(moves)
    requires row < Rows - MovesInColumn(moves, col)
    ensures Cell(moves, row, col).None?
    decreases |moves|
  {
    if moves != [] {
      var p := moves[..|moves| - 1];
      var last := moves[|moves| - 1];
      StackedPrefix(moves);
      assert DropsInto(p, last);
      if last.col == col {
        assert last.row == Rows - MovesInColumn(moves, col);
      }
      FreeAboveStack(p, row, col);
    }
  }

  /**
   * `applyMove`.  Only a game in progress takes moves, and only from a seated player, whose
   * seat decides the piece.  A legal move is appended; four in a line ends the game with the
   * mover as winner, and a full board without one ends it with no winner.
   */
  ghost function Moved(s: ConnectFourGameState, player: PlayerID, row: int, col: int)
    : (r: Result<ConnectFourGameState, Error>)
    ensures s.status != InProgress ==> r == Failure(GameNotInProgress)
    ensures s.status == InProgress && !Seated(s, player) ==> r == Failure(PlayerNotInGame)
    ensures s.status == InProgress && Seated(s, player) ==>
      var move := ConnectFourMove(if s.red == Some(player) then Red else Yellow, row, col);
      match ValidateMove(s, move)
      case Fail(e) => r == Failure(e)
      case Pass =>
        && r.Success?
        && r.value.moves == s.moves + [move]
        && r.value == s.(moves := r.value.moves, status := r.value.status, winner := r.value.winner)
        && (HasWin(r.value.moves) ==> r.value.status == Over && r.value.winner == Some(player))
        && (!HasWin(r.value.moves) && |r.value.moves| == BoardSize ==>
              r.value.status == Over && r.value.winner.None?)
        && (!HasWin(r.value.moves) && |r.value.moves| != BoardSize ==> r.value.status == InProgress)
    ensures Stacked(s.moves) && r.Success? ==> Stacked(r.value.moves)
  {
    if s.status != InProgress then Failure(GameNotInProgress)
    else if !Seated(s, player) then Failure(PlayerNotInGame)
    else
      var piece := if s.red == Some(player) then Red else Yellow;
      var move := ConnectFourMove(piece, row, col);
      match ValidateMove(s, move)
      case Fail(e) => Failure(e)
      case Pass =>
        if Stacked(s.moves) then
          ColumnsNeverOverfill(s.moves, col);
          StackedExtend(s.moves, move);
          Success(AfterMove(s, move, HasWin(s.moves + [move])))
        else Success(AfterMove(s, move, HasWin(s.moves + [move])))
  }

  /** `_applyMove`, given the outcome of `checkForWin` on the extended move list. */
  function AfterMove(s: ConnectFourGameState, move: ConnectFourMove, won: bool): ConnectFourGameState
  {
    var newMoves := s.moves + [move];
    if won then
      s.(moves := newMoves, status := Over,
         winner := if move.gamePiece == Red then s.red else s.yellow)
    else if |newMoves| == 42 then
      s.(moves := newMoves, winner := None, status := Over)
    else
      s.(moves := newMoves)
  }

  // ----- The board and four in a line --------------------------------------------------

  /** The piece on a cell: that of the last move made there, as the board is filled in order. */
  function Cell(moves: seq<ConnectFourMove>, row: int, col: int): (p: Option<Color>)
    decreases |moves|
  {
    if moves == [] then None
    else
      var last := moves[|moves| - 1];
      if last.row == row && last.col == col then Some(last.gamePiece)
      else Cell(moves[..|moves| - 1], row, col)
  }

  /** A move made on the cell at (row, col). */
  predicate On(m: ConnectFourMove, row: int, col: int)
  {
    m.row == row && m.col == col
  }

  /** A cell is empty iff no move was made on it. */
  lemma {:induction false} CellEmptyIffUntouched(moves: seq<ConnectFourMove>, row: int, col: int)
    ensures Cell(moves, row, col).None? <==> forall i :: 0 <= i < |moves| ==> !On(moves[i], row, col)
    decreases |moves|
  {
    if moves != [] {
      var k := |moves| - 1;
      CellEmptyIffUntouched(moves[..k], row, col);
      assert forall i :: 0 <= i < k ==> moves[..k][i] == moves[i];
    }
  }

  /** A cell that is not empty holds the piece of the last move made on it. */
  lemma {:induction false} CellIsLastMove(moves: seq<ConnectFourMove>, row: int, col: int)
    ensures Cell(moves, row, col).Some? ==>
      exists i :: 0 <= i < |moves| && moves[i] == ConnectFourMove(Cell(moves, row, col).value, row, col) &&
        forall j :: i < j < |moves| ==> !On(moves[j], row, col)
    decreases |moves|
  {
    if moves != [] {
      var k := |moves| - 1;
      var prefix := moves[..k];
      if On(moves[k], row, col) {
        assert moves[k] == ConnectFourMove(Cell(moves, row, col).value, row, col);
      } else if Cell(prefix, row, col).Some? {
        CellIsLastMove(prefix, row, col);
        var i :| 0 <= i < |prefix| && prefix[i] == ConnectFourMove(Cell(prefix, row, col).value, row, col) &&
          forall j :: i < j < |prefix| ==> !On(prefix[j], row, col);
        assert moves[i] == prefix[i];
        assert forall j :: i < j < k ==> moves[j] == prefix[j];
      }
    }
  }

  datatype Direction = Horizontal | Vertical | DownRight | DownLeft

  function RowStep(d: Direction): int
  {
    match d
    case Horizontal => 0
    case Vertical => 1
    case DownRight => 1
    case DownLeft => 1
  }

  function ColumnStep(d: Direction): int
  {
    match d
    case Horizontal => 1
    case Vertical => 0
    case DownRight => 1
    case DownLeft => -1
  }

  predicate InGrid(row: int, col: int)
  {
    0 <= row < Rows && 0 <= col < Columns
  }

  /** Four equal pieces on the board, starting at (row, col) and stepping in direction d. */
  predicate FourFrom(moves: seq<ConnectFourMove>, row: int, col: int, d: Direction)
  {
    var dr, dc := RowStep(d), ColumnStep(d);
    && InGrid(row, col) && InGrid(row + 3 * dr, col + 3 * dc)
    && Cell(moves, row, col).Some?
    && Cell(moves, row + dr, col + dc) == Cell(moves, row, col)
    && Cell(moves, row + 2 * dr, col + 2 * dc) == Cell(moves, row, col)
    && Cell(moves, row + 3 * dr, col + 3 * dc) == Cell(moves, row, col)
  }

  /** Someone has four in a row horizontally, vertically or on either diagonal. */
  ghost predicate HasWin(moves: seq<ConnectFourMove>)
  {
    exists row, col, d :: FourFrom(moves, row, col, d)
  }

  /** A board array holding, on every cell, the piece Cell gives for `moves`. */
  ghost predicate Filled(board: array2<Option<Color>>, moves: seq<ConnectFourMove>)
    reads board
  {
    && board.Length0 == Rows && board.Length1 == Columns
    && forall r, c :: 0 <= r < Rows && 0 <= c < Columns ==> board[r, c] == Cell(moves, r, c)
  }

  /** `checkForWin`: fill the board from the moves, then scan it line by line. */
  method CheckForWin(moves: seq<ConnectFourMove>) returns (won: bool)
    requires AllOnBoard(moves)
    ensures won <==> HasWin(moves)
  {
    var board := FillBoard(moves);
    won := ScanRows(board, moves);
    if won { return; }
    won := ScanColumns(board, moves);
    if won { return; }
    won := ScanDownRight(board, moves);
    if won { return; }
    won := ScanDownLeft(board, moves);
    if won { return; }
    forall row, col, d | FourFrom(moves, row, col, d) ensures false {
      match d
      case Horizontal =>
      case Vertical =>
      case DownRight =>
      case DownLeft =>
    }
  }

  /** The board conversion: each move, in order, writes its piece on its cell. */
  method FillBoard(moves: seq<ConnectFourMove>) returns (board: array2<Option<Color>>)
    requires AllOnBoard(moves)
    ensures fresh(board) && Filled(board, moves)
  {
    board := new Option<Color>[6, 7]((_, _) => None);
    var i := 0;
    while i < |moves|
      invariant 0 <= i <= |moves|
      invariant board.Length0 == Rows && board.Length1 == Columns
      invariant forall r, c :: 0 <= r < Rows && 0 <= c < Columns ==> board[r, c] == Cell(moves[..i], r, c)
    {
      assert moves[..i + 1][..i] == moves[..i];
      board[moves[i].row, moves[i].col] := Some(moves[i].gamePiece);
      i := i + 1;
    }
    assert moves[..i] == moves;
  }

  /** The length of the run of equal pieces ending at (row, col), read leftwards. */
  ghost function RunLeft(moves: seq<ConnectFourMove>, row: int, col: nat): (n: nat)
    ensures 1 <= n <= col + 1
  {
    if col == 0 then 1
    else if Cell(moves, row, col).Some? && Cell(moves, row, col) == Cell(moves, row, col - 1)
    then RunLeft(moves, row, col - 1) + 1
    else 1
  }

  /** The length of the run of equal pieces ending at (row, col), read upwards. */
  ghost function RunUp(moves: seq<ConnectFourMove>, row: nat, col: int): (n: nat)
    ensures 1 <= n <= row + 1
  {
    if row == 0 then 1
    else if Cell(moves, row, col).Some? && Cell(moves, row, col) == Cell(moves, row - 1, col)
    then RunUp(moves, row - 1, col) + 1
    else 1
  }

  /** A run of four ends at (row, col) exactly when four in a row start three cells left. */
  lemma RunLeftFour(moves: seq<ConnectFourMove>, row: int, col: int)
    requires 0 <= row < Rows && 3 <= col < Columns
    ensures RunLeft(moves, row, col) >= 4 <==> FourFrom(moves, row, col - 3, Horizontal)
  {
    if RunLeft(moves, row, col) >= 4 {
      assert RunLeft(moves, row, col - 1) >= 3;
      assert RunLeft(moves, row, col - 2) >= 2;
    }
    if FourFrom(moves, row, col - 3, Horizontal) {
      assert RunLeft(moves, row, col - 2) >= 2;
      assert RunLeft(moves, row, col - 1) >= 3;
    }
  }

  /** A run of four ends at (row, col) exactly when four in a column start three cells up. */
  lemma RunUpFour(moves: seq<ConnectFourMove>, row: int, col: int)
    requires 3 <= row < Rows && 0 <= col < Columns
    ensures RunUp(moves, row, col) >= 4 <==> FourFrom(moves, row - 3, col, Vertical)
  {
    if RunUp(moves, row, col) >= 4 {
      assert RunUp(moves, row - 1, col) >= 3;
      assert RunUp(moves, row - 2, col) >= 2;
    }
    if FourFrom(moves, row - 3, col, Vertical) {
      assert RunUp(moves, row - 2, col) >= 2;
      assert RunUp(moves, row - 1, col) >= 3;
    }
  }

  /** "Check for win in a row": a `numInARow` counter along each row. */
  method ScanRows(board: array2<Option<Color>>, ghost moves: seq<ConnectFourMove>) returns (found: bool)
    requires Filled(board, moves)
    ensures found <==> exists row, col :: FourFrom(moves, row, col, Horizontal)
  {
    var row := 0;
    while row < 6
      invariant 0 <= row <= Rows
      invariant forall r, c :: r < row ==> !FourFrom(moves, r, c, Horizontal)
    {
      var numInARow := 1;
      var col := 1;
      while col < 7
        invariant 1 <= col <= Columns
        invariant 1 <= numInARow <= 3 && numInARow == RunLeft(moves, row, col - 1)
        invariant forall c :: c + 3 < col ==> !FourFrom(moves, row, c, Horizontal)
      {
        if board[row, col].Some? && board[row, col] == board[row, col - 1] {
          numInARow := numInARow + 1;
        } else {
          numInARow := 1;
        }
        if col >= 3 {
          RunLeftFour(moves, row, col);
        }
        if numInARow == 4 {
          return true;
        }
        col := col + 1;
      }
      row := row + 1;
    }
    return false;
  }

  /** "Check for a win in a column": the same counter down each column. */
  method ScanColumns(board: array2<Option<Color>>, ghost moves: seq<ConnectFourMove>) returns (found: bool)
    requires Filled(board, moves)
    ensures found <==> exists row, col :: FourFrom(moves, row, col, Vertical)
  {
    var col := 0;
    while col < 7
      invariant 0 <= col <= Columns
      invariant forall r, c :: c < col ==> !FourFrom(moves, r, c, Vertical)
    {
      var numInARow := 1;
      var row := 1;
      while row < 6
        invariant 1 <= row <= Rows
        invariant 1 <= numInARow <= 3 && numInARow == RunUp(moves, row - 1, col)
        invariant forall r :: r + 3 < row ==> !FourFrom(moves, r, col, Vertical)
      {
        if board[row, col].Some? && board[row, col] == board[row - 1, col] {
          numInARow := numInARow + 1;
        } else {
          numInARow := 1;
        }
        if row >= 3 {
          RunUpFour(moves, row, col);
        }
        if numInARow == 4 {
          return true;
        }
        row := row + 1;
      }
      col := col + 1;
    }
    return false;
  }

  /** "Check for a win in a diagonal from top left to bottom right". */
  method ScanDownRight(board: array2<Option<Color>>, ghost moves: seq<ConnectFourMove>) returns (found: bool)
    requires Filled(board, moves)
    ensures found <==> exists row, col :: FourFrom(moves, row, col, DownRight)
  {
    var row := 0;
    while row < 6
      invariant 0 <= row <= Rows
      invariant forall r, c :: r < row ==> !FourFrom(moves, r, c, DownRight)
    {
      var col := 0;
      while col < 7
        invariant 0 <= col <= Columns
        invariant forall r, c :: (r < row || (r == row && c < col)) ==> !FourFrom(moves, r, c, DownRight)
      {
        if row + 3 < 6 && col + 3 < 7 && board[row, col].Some?
           && board[row, col] == board[row + 1, col + 1]
           && board[row, col] == board[row + 2, col + 2]
           && board[row, col] == board[row + 3, col + 3]
        {
          assert FourFrom(moves, row, col, DownRight);
          return true;
        }
        col := col + 1;
      }
      row := row + 1;
    }
    return false;
  }

  /** "Check for a win in a diagonal from bottom left to top right". */
  method ScanDownLeft(board: array2<Option<Color>>, ghost moves: seq<ConnectFourMove>) returns (found: bool)
    requires Filled(board, moves)
    ensures found <==> exists row, col :: FourFrom(moves, row, col, DownLeft)
  {
    var row := 0;
    while row < 6
      invariant 0 <= row <= Rows
      invariant forall r, c :: r < row ==> !FourFrom(moves, r, c, DownLeft)
    {
      var col := 0;
      while col < 7
        invariant 0 <= col <= Columns
        invariant forall r, c :: (r < row || (r == row && c < col)) ==> !FourFrom(moves, r, c, DownLeft)
      {
        if row + 3 < 6 && col - 3 >= 0 && board[row, col].Some?
           && board[row, col] == board[row + 1, col - 1]
           && board[row, col] == board[row + 2, col - 2]
           && board[row, col] == board[row + 3, col - 3]
        {
          assert FourFrom(moves, row, col, DownLeft);
          return true;
        }
        col := col + 1;
      }
      row := row + 1;
    }
    return false;
  }

  // ----- The game object ----------------------------------------------------------------

  /** A Connect Four game: its Game base, and the seats the prior game's players held. */
  class ConnectFourGame {
    const base: Game<ConnectFourGameState>
    const preferredRed: Option<PlayerID>
    const preferredYellow: Option<PlayerID>

    ghost predicate Valid()
      reads this, base
    {
      Stacked(base.state.moves)
    }

    /**
     * A new game, linked to `prior` when there is one: the first player is flipped from the
     * prior game's, and the prior game's Red and Yellow keep their colours if they join.
     */
    constructor(id: GameID, prior: ConnectFourGame?)
      ensures fresh(base) && Valid()
      ensures base.id == id && base.players == []
      ensures base.state == InitialState(if prior == null then None else Some(prior.base.state.firstPlayer))
      ensures preferredRed == (if prior == null then None else prior.base.state.red)
      ensures preferredYellow == (if prior == null then None else prior.base.state.yellow)
    {
      var priorFirst := if prior == null then None else Some(prior.base.state.firstPlayer);
      base := new Game(id, InitialState(priorFirst));
      preferredRed := if prior == null then None else prior.base.state.red;
      preferredYellow := if prior == null then None else prior.base.state.yellow;
    }

    /** `startGame`: the state becomes Started of the old one, or the call throws unchanged. */
    method StartGame(player: PlayerID) returns (r: Outcome<Error>)
      requires Valid()
      modifies base`state
      ensures Valid()
      ensures match Started(old(base.state), preferredRed, preferredYellow, player)
        case Success(t) => r == Pass && base.state == t
        case Failure(e) => r == Fail(e) && base.state == old(base.state)
    {
      match Started(base.state, preferredRed, preferredYellow, player)
      case Failure(e) =>
        r := Fail(e);
      case Success(t) =>
        base.SetState(t);
        r := Pass;
    }

    /** `join` with the `_join` hook: seat the player as Joined says, then list the player. */
    method Join(player: PlayerID) returns (r: Outcome<Error>)
      requires Valid()
      modifies base
      ensures Valid()
      ensures match Joined(old(base.state), preferredRed, preferredYellow, player)
        case Success(t) =>
          r == Pass && base.state == t && base.players == old(base.players) + [player]
        case Failure(e) =>
          r == Fail(e) && base.state == old(base.state) && base.players == old(base.players)
    {
      r := base.Join(player, HookOf(Joined(base.state, preferredRed, preferredYellow, player), base.state));
    }

    /** `leave` with the `_leave` hook: unseat the player as Left says, then unlist the player. */
    method Leave(player: PlayerID) returns (r: Outcome<Error>)
      requires Valid()
      modifies base
      ensures Valid()
      ensures match Left(old(base.state), player)
        case Success(t) =>
          r == Pass && base.state == t && base.players == Without(old(base.players), player)
        case Failure(e) =>
          r == Fail(e) && base.state == old(base.state) && base.players == old(base.players)
    {
      r := base.Leave(player, HookOf(Left(base.state, player), base.state));
    }

    /**
     * `applyMove` (with `_validateMove` and `_applyMove`): the piece comes from the caller's
     * seat, and the client's piece in `move` is ignored.  The new state is Moved of the old.
     */
    method ApplyMove(player: PlayerID, move: MoveCommand) returns (r: Outcome<Error>)
      requires Valid()
      modifies base`state
      ensures Valid()
      ensures match Moved(old(base.state), player, move.row, move.col)
        case Success(t) => r == Pass && base.state == t
        case Failure(e) => r == Fail(e) && base.state == old(base.state)
    {
      var s := base.state;
      if s.status != InProgress {
        return Fail(GameNotInProgress);
      }
      var piece;
      if s.red == Some(player) {
        piece := Red;
      } else if s.yellow == Some(player) {
        piece := Yellow;
      } else {
        return Fail(PlayerNotInGame);
      }
      var newMove := ConnectFourMove(piece, move.row, move.col);
      var valid := ValidateMove(s, newMove);
      if valid.Fail? {
        return valid;
      }
      ColumnsNeverOverfill(s.moves, move.col);
      StackedExtend(s.moves, newMove);
      StackedOnBoard(s.moves + [newMove]);
      var won := CheckForWin(s.moves + [newMove]);
      base.SetState(AfterMove(s, newMove, won));
      r := Pass;
    }
  }

  // ----- Properties ---------------------------------------------------------------------

  /** Reporting ready a second time, while the game still waits, changes nothing. */
  lemma StartAgainChangesNothing(s: ConnectFourGameState, preferredRed: Option<PlayerID>,
                                 preferredYellow: Option<PlayerID>, player: PlayerID)
    requires Started(s, preferredRed, preferredYellow, player).Success?
    requires Started(s, preferredRed, preferredYellow, player).value.status == WaitingToStart
    ensures var t := Started(s, preferredRed, preferredYellow, player).value;
      Started(t, preferredRed, preferredYellow, player) == Success(t)
  {
  }

  /**
   * A forfeit: leaving a game in progress ends it, the other seat's player wins, and the
   * leaver's seat is already empty in the final state.
   */
  lemma ForfeitLeavesOneSeat(s: ConnectFourGameState, player: PlayerID)
    requires s.status == InProgress && Seated(s, player)
    ensures Left(s, player).Success?
    ensures var t := Left(s, player).value;
      && t.status == Over
      && !(t.red.Some? && t.yellow.Some?)
      && t.winner == (if s.red == Some(player) then s.yellow else s.red)
  {
  }

  /** A legal move was the mover's turn, and after it the turn passes to the other colour. */
  lemma TurnsAlternate(s: ConnectFourGameState, player: PlayerID, row: int, col: int)
    requires Moved(s, player, row, col).Success?
    ensures var t := Moved(s, player, row, col).value;
      && t.moves[|t.moves| - 1].gamePiece == NextPlayer(s)
      && NextPlayer(t) == OtherColor(NextPlayer(s))
  {
    var move := ConnectFourMove(if s.red == Some(player) then Red else Yellow, row, col);
    assert ValidateMove(s, move).Pass?;
    var t := Moved(s, player, row, col).value;
    assert t.moves == s.moves + [move] && t.firstPlayer == s.firstPlayer;
  }

  /** A legal drop always lands on an empty cell, so no piece is ever overwritten. */
  lemma LegalDropLandsOnEmptyCell(s: ConnectFourGameState, move: ConnectFourMove)
    requires Stacked(s.moves) && ValidateMove(s, move).Pass?
    ensures OnBoard(move) && Cell(s.moves, move.row, move.col).None?
  {
    ColumnsNeverOverfill(s.moves, move.col);
    FreeAboveStack(s.moves, move.row, move.col);
  }

  /**
   * `_validateMove` as written admits a column off the board: Red's first move into column 7
   * passes it, while the bounded check refuses it.
   */
  lemma OffBoardColumnAccepted()
    ensures var s := ConnectFourGameState([], InProgress, Red, Some("r"), Some("y"), true, true, None);
      var move := ConnectFourMove(Red, 5, 7);
      && ValidateMoveAsWritten(s, move) == Pass
      && ValidateMove(s, move) == Fail(BoardPositionNotValid)
      && !OnBoard(move)
  {
  }
}
