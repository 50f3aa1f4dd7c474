/**
 * town/games/ConnectFourGameArea.js: a game area hosting one Connect Four game at a time.
 * Commands are routed to the game; a command that fails changes nothing and broadcasts
 * nothing, and one that succeeds records a finished game in the history and broadcasts the
 * area once.
 */
module ConnectFourGameAreas {
  import opened Wrappers
  import opened Errors
  import opened Models
  import opened Players
  import opened Games
  import opened ConnectFour
  import opened InteractableAreas
  import opened GameAreas

  /** What the area's commands depend on in its current game. */
  datatype GameView = GameView(
    id: GameID, state: ConnectFourGameState, players: seq<PlayerID>,
    preferredRed: Option<PlayerID>, preferredYellow: Option<PlayerID>)

  /**
   * A command that succeeded: the response, the game's state before the command, the game
   * after it, and whether the command opened a new game.
   */
  datatype Handled = Handled(
    response: CommandResponse, before: ConnectFourGameState, after: GameView, created: bool)

  /** The game `new ConnectFourGame(prior)` makes, with `id` as its nanoid. */
  function NewGame(prior: Option<GameView>, id: GameID): (g: GameView)
    ensures g.id == id && g.players == [] && g.state.status == WaitingForPlayers
    ensures g.preferredRed == (if prior.None? then None else prior.value.state.red)
    ensures g.preferredYellow == (if prior.None? then None else prior.value.state.yellow)
  {
    var priorFirst := if prior.None? then None else Some(prior.value.state.firstPlayer);
    GameView(id, InitialState(priorFirst), [],
             if prior.None? then None else prior.value.state.red,
             if prior.None? then None else prior.value.state.yellow)
  }

  /**
   * `handleCommand` on values: the outcome of `command`, sent by `player`, when the area's
   * game is `current`; `newGameID` is the id a new game would draw.
   */
  ghost function Handle(command: InteractableCommand, current: Option<GameView>, player: PlayerID,
                        newGameID: GameID): (r: Result<Handled, Error>)
    ensures !(command.JoinGame? || command.LeaveGame? || command.StartGame? || command.GameMove?)
      ==> r == Failure(InvalidCommand)
    ensures (command.LeaveGame? || command.StartGame? || command.GameMove?) && current.None?
      ==> r == Failure(GameNotInProgress)
    ensures ((command.LeaveGame? || command.StartGame? || command.GameMove?) && current.Some? &&
             current.value.id != command.gameID) ==> r == Failure(GameIdMismatch)
    ensures command.JoinGame? && (current.None? || current.value.state.status == Over) ==>
      && r.Success? && r.value.created && r.value.after.id == newGameID
      && r.value.response == JoinedGame(newGameID) && r.value.after.players == [player]
    ensures r.Success? && !r.value.created ==> current.Some? && r.value.after.id == current.value.id
    ensures r.Success? && !r.value.created ==> r.value.before == current.value.state
    ensures r.Success? ==> (r.value.response == JoinedGame(r.value.after.id) <==> command.JoinGame?)
    ensures r.Success? && !command.JoinGame? ==> r.value.response == NoResponse
    ensures r.Success? && (current.None? || Stacked(current.value.state.moves)) ==> Stacked(r.value.after.state.moves)
    // the piece check comes before the game sees the move
    ensures command.GameMove? && current.Some? && current.value.id == command.gameID
      && command.move.gamePiece != "Red" && command.move.gamePiece != "Yellow"
      ==> r == Failure(InvalidGamePiece)
    // a new game is opened exactly by a join when there is no game or it is over
    ensures r.Success? ==> (r.value.created <==> command.JoinGame? && (current.None? || current.value.state.status == Over))
    ensures r.Success? && r.value.created ==>
      var g := NewGame(current, newGameID);
      && r.value.before == g.state
      && r.value.after == g.(state := r.value.after.state, players := [player])
      && Joined(g.state, g.preferredRed, g.preferredYellow, player) == Success(r.value.after.state)
    ensures r.Success? && command.JoinGame? ==> Seated(r.value.after.state, player)
    // otherwise each command applies its rule to the current game
    ensures (command.GameMove? && current.Some? && current.value.id == command.gameID
             && (command.move.gamePiece == "Red" || command.move.gamePiece == "Yellow")) ==>
      var m := Moved(current.value.state, player, command.move.row, command.move.col);
      && (r.Failure? <==> m.Failure?)
      && (m.Failure? ==> r.error == m.error)
      && (m.Success? ==> r.value.after == current.value.(state := m.value))
    ensures (command.LeaveGame? && current.Some? && current.value.id == command.gameID) ==>
      var l := Left(current.value.state, player);
      && (r.Failure? <==> l.Failure?)
      && (l.Failure? ==> r.error == l.error)
      && (l.Success? ==> r.value.after == current.value.(state := l.value, players := Without(current.value.players, player)))
    ensures (command.StartGame? && current.Some? && current.value.id == command.gameID) ==>
      var g := current.value;
      var t := Started(g.state, g.preferredRed, g.preferredYellow, player);
      && (r.Failure? <==> t.Failure?)
      && (t.Failure? ==> r.error == t.error)
      && (t.Success? ==> r.value.after == g.(state := t.value))
    ensures (command.JoinGame? && current.Some? && current.value.state.status != Over) ==>
      var g := current.value;
      var j := Joined(g.state, g.preferredRed, g.preferredYellow, player);
      && (r.Failure? <==> j.Failure?)
      && (j.Failure? ==> r.error == j.error)
      && (j.Success? ==> r.value.after == g.(state := j.value, players := g.players + [player]))
  {
    match command
    case GameMove(gameID, move) =>
      if current.None? then Failure(GameNotInProgress)
      else if current.value.id != gameID then Failure(GameIdMismatch)
      else if move.gamePiece != "Red" && move.gamePiece != "Yellow" then Failure(InvalidGamePiece)
      else
        var g := current.value;
        var m := Moved(g.state, player, move.row, move.col);
        if m.Failure? then Failure(m.error)
        else Success(Handled(NoResponse, g.state, g.(state := m.value), false))
    case JoinGame =>
      if current.None? || current.value.state.status == Over then
        var g := NewGame(current, newGameID);
        // nobody is seated in a new game, so this join cannot fail
        var t := Joined(g.state, g.preferredRed, g.preferredYellow, player).value;
        Success(Handled(JoinedGame(newGameID), g.state, g.(state := t, players := [player]), true))
      else
        var g := current.value;
        var j := Joined(g.state, g.preferredRed, g.preferredYellow, player);
        if j.Failure? then Failure(j.error)
        else Success(Handled(JoinedGame(g.id), g.state, g.(state := j.value, players := g.players + [player]), false))
    case LeaveGame(gameID) =>
      if current.None? then Failure(GameNotInProgress)
      else if current.value.id != gameID then Failure(GameIdMismatch)
      else
        var g := current.value;
        var l := Left(g.state, player);
        if l.Failure? then Failure(l.error)
        else Success(Handled(NoResponse, g.state, g.(state := l.value, players := Without(g.players, player)), false))
    case StartGame(gameID) =>
      if current.None? then Failure(GameNotInProgress)
      else if current.value.id != gameID then Failure(GameIdMismatch)
      else
        var g := current.value;
        var t := Started(g.state, g.preferredRed, g.preferredYellow, player);
        if t.Failure? then Failure(t.error)
        else Success(Handled(NoResponse, g.state, g.(state := t.value), false))
    case ViewingAreaUpdate(_) => Failure(InvalidCommand)
    case OtherCommand(_) => Failure(InvalidCommand)
  }

  /**
   * The recording step of `_stateUpdated` as written: it scores the seats of the state after
   * the command, so a player who forfeits by leaving has already lost the seat.
   */
  function RecordedAsWritten(history: seq<GameResult>, gameID: GameID, after: ConnectFourGameState,
                             occupants: seq<Player>): (r: seq<GameResult>)
    ensures r != history <==>
      after.status == Over && !HasResult(history, gameID) && after.red.Some? && after.yellow.Some?
    ensures UniqueIds(history) ==> UniqueIds(r)
  {
    RecordOutcome(history, gameID, after.status == Over, after.red, after.yellow, after.winner, occupants)
  }

  /**
   * The recording step as the model makes it: a game that is over is scored against the seats
   * held before the command that ended it, so a forfeit is recorded like a win.
   */
  function Recorded(history: seq<GameResult>, gameID: GameID, before: ConnectFourGameState,
                    after: ConnectFourGameState, occupants: seq<Player>): (r: seq<GameResult>)
    ensures r != history <==>
      after.status == Over && !HasResult(history, gameID) && before.red.Some? && before.yellow.Some?
    ensures UniqueIds(history) ==> UniqueIds(r)
  {
    RecordOutcome(history, gameID, after.status == Over, before.red, before.yellow, after.winner, occupants)
  }

  /**
   * As written, a player who leaves a game in progress ends it and hands the other player the
   * win, but the area records nothing: the leaver's seat is already empty.
   */
  lemma ForfeitRecordsNothingAsWritten(s: ConnectFourGameState, player: PlayerID,
                                       history: seq<GameResult>, gameID: GameID, occupants: seq<Player>)
    requires s.status == InProgress && Seated(s, player)
    ensures Left(s, player).Success? && Left(s, player).value.status == Over
    ensures RecordedAsWritten(history, gameID, Left(s, player).value, occupants) == history
  {
  }

  /**
   * At the level of the area, as written: a LeaveGame from a seated player of a game in
   * progress succeeds and ends the game, and the history `HandleCommand` keeps is unchanged.
   */
  lemma ForfeitCommandRecordsNothing(g: GameView, player: PlayerID, newGameID: GameID,
                                     history: seq<GameResult>, occupants: seq<Player>)
    requires g.state.status == InProgress && Seated(g.state, player)
    ensures var r := Handle(LeaveGame(g.id), Some(g), player, newGameID);
      && r.Success? && r.value.after.state.status == Over
      && RecordedAsWritten(history, r.value.after.id, r.value.after.state, occupants) == history
  {
    ForfeitRecordsNothingAsWritten(g.state, player, history, g.id, occupants);
  }

  /** With the seats held before the command, a forfeit adds one entry won by the other seat. */
  lemma ForfeitRecordsWinner(s: ConnectFourGameState, player: PlayerID,
                             history: seq<GameResult>, gameID: GameID, occupants: seq<Player>)
    requires s.status == InProgress && s.red.Some? && s.yellow.Some? && Seated(s, player)
    requires !HasResult(history, gameID)
    ensures var t := Left(s, player).value;
      && t.winner == (if s.red == Some(player) then s.yellow else s.red)
      && Recorded(history, gameID, s, t, occupants)
           == history + [GameResult(gameID, Scores(occupants, s.red.value, s.yellow.value, t.winner))]
  {
  }

  /** ConnectFourGame.leave throws only PLAYER_NOT_IN_GAME, which GameArea.remove swallows. */
  lemma LeaveErrorsAreSwallowed(s: ConnectFourGameState, player: PlayerID)
    ensures Left(s, player).Failure? ==> AfterLeave(Some(Left(s, player).error)) == Pass
  {
  }

  class ConnectFourGameArea {
    const area: InteractableArea
    var game: ConnectFourGame?
    var history: seq<GameResult>

    /** A new area has no game and no history. */
    constructor(id: string, box: BoundingBox, emitter: Emitter)
      ensures fresh(area) && area.id == id && area.Box() == box && area.emitter == emitter
      ensures area.occupants == [] && game == null && history == []
      ensures Valid()
    {
      area := new InteractableArea(id, box, emitter);
      game := null;
      history := [];
    }

    /** The objects of the current game. */
    ghost function Footprint(): set<object>
      reads this
    {
      if game == null then {} else {game, game.base}
    }

    /** The current game keeps its board invariant, and no game is in the history twice. */
    ghost predicate Valid()
      reads this, Footprint()
    {
      (game != null ==> game.Valid()) && UniqueIds(history)
    }

    /** The area's current game as a value. */
    function Current(): (v: Option<GameView>)
      reads this, Footprint()
      ensures v.None? <==> game == null
    {
      if game == null then None
      else Some(GameView(game.base.id, game.base.state, game.base.players,
                         game.preferredRed, game.preferredYellow))
    }

    /** `toModel` of GameArea.js, with the 'ConnectFourArea' type. */
    function ToModel(): (m: InteractableModel)
      reads this, area, Footprint()
      ensures m.ConnectFourAreaModel? && m.id == area.id && m.history == history
      ensures m.occupants == area.OccupantsByID()
      ensures m.connectFourGame == if game == null then None else Some(game.base.ToModel())
    {
      ConnectFourAreaModel(area.id, if game == null then None else Some(game.base.ToModel()),
                           history, area.OccupantsByID())
    }

    /** `isActive`: a game area always counts as active. */
    predicate IsActive(): (r: bool)
      ensures r
    {
      true
    }

    /**
     * `_stateUpdated`: record the game if it has just finished, scored against the seats of
     * its state now, then broadcast the area.
     */
    method StateUpdated()
      requires game != null
      modifies this`history, area.emitter`log
      ensures history == RecordedAsWritten(old(history), game.base.id, game.base.state, area.occupants)
      ensures area.emitter.log == old(area.emitter.log) + [InteractableUpdate(ToModel())]
    {
      history := RecordedAsWritten(history, game.base.id, game.base.state, area.occupants);
      area.EmitAreaChanged(ToModel());
    }

    /**
     * `handleCommand`: the outcome is the one Handle gives.  On failure nothing changes and
     * nothing is broadcast; on success the game is Handle's, the history records the game if it
     * is over and both seats are still filled, and the area is broadcast exactly once.
     */
    method HandleCommand(command: InteractableCommand, player: Player, newGameID: GameID)
      returns (r: Result<CommandResponse, Error>)
      requires Valid()
      modifies this`game, this`history, Footprint(), area.emitter`log
      ensures Valid()
      ensures match Handle(command, old(Current()), player.id, newGameID)
        case Failure(e) =>
          && r == Failure(e) && game == old(game) && Current() == old(Current())
          && history == old(history) && area.emitter.log == old(area.emitter.log)
        case Success(h) =>
          && r == Success(h.response) && Current() == Some(h.after)
          && (h.created ==> game != null && fresh(game) && fresh(game.base))
          && (!h.created ==> game == old(game))
          && history == RecordedAsWritten(old(history), h.after.id, h.after.state, area.occupants)
          && area.emitter.log == old(area.emitter.log) + [InteractableUpdate(ToModel())]
    {
      match command
      case JoinGame =>
        r := JoinCommand(command, player, newGameID);
      case GameMove(_, _) =>
        r := GameCommand(command, player, newGameID);
      case LeaveGame(_) =>
        r := GameCommand(command, player, newGameID);
      case StartGame(_) =>
        r := GameCommand(command, player, newGameID);
      case ViewingAreaUpdate(_) =>
        r := Failure(InvalidCommand);
      case OtherCommand(_) =>
        r := Failure(InvalidCommand);
    }

    /** The JoinGame branch of HandleCommand: a new game when there is none or it is over. */
    method JoinCommand(command: InteractableCommand, player: Player, newGameID: GameID)
      returns (r: Result<CommandResponse, Error>)
      requires Valid() && command.JoinGame?
      modifies this`game, this`history, Footprint(), area.emitter`log
      ensures Valid()
      ensures match Handle(command, old(Current()), player.id, newGameID)
        case Failure(e) =>
          && r == Failure(e) && game == old(game) && Current() == old(Current())
          && history == old(history) && area.emitter.log == old(area.emitter.log)
        case Success(h) =>
          && r == Success(h.response) && Current() == Some(h.after)
          && (h.created ==> game != null && fresh(game) && fresh(game.base))
          && (!h.created ==> game == old(game))
          && history == RecordedAsWritten(old(history), h.after.id, h.after.state, area.occupants)
          && area.emitter.log == old(area.emitter.log) + [InteractableUpdate(ToModel())]
    {
      if game == null || game.base.state.status == Over {
        var made := new ConnectFourGame(newGameID, game);
        game := made;
        // Nobody is seated in a new game, so this join cannot throw.
        var joined := made.Join(player.id);
        assert made.base.players == [player.id];
        assert Current() == Some(NewGame(old(Current()), newGameID).(state := made.base.state, players := [player.id]));
        StateUpdated();
        r := Success(JoinedGame(made.base.id));
      } else {
        var joined := game.Join(player.id);
        if joined.Fail? {
          return Failure(joined.error);
        }
        StateUpdated();
        r := Success(JoinedGame(game.base.id));
      }
    }

    /** The branches of HandleCommand that act on the current game, named by its id. */
    method GameCommand(command: InteractableCommand, player: Player, newGameID: GameID)
      returns (r: Result<CommandResponse, Error>)
      requires Valid() && (command.GameMove? || command.LeaveGame? || command.StartGame?)
      modifies this`game, this`history, Footprint(), area.emitter`log
      ensures Valid()
      ensures match Handle(command, old(Current()), player.id, newGameID)
        case Failure(e) =>
          && r == Failure(e) && game == old(game) && Current() == old(Current())
          && history == old(history) && area.emitter.log == old(area.emitter.log)
        case Success(h) =>
          && r == Success(h.response) && Current() == Some(h.after)
          && !h.created && game == old(game)
          && history == RecordedAsWritten(old(history), h.after.id, h.after.state, area.occupants)
          && area.emitter.log == old(area.emitter.log) + [InteractableUpdate(ToModel())]
    {
      ghost var current := Current();
      if game == null {
        return Failure(GameNotInProgress);
      }
      if game.base.id != command.gameID {
        return Failure(GameIdMismatch);
      }
      if command.GameMove? {
        if command.move.gamePiece != "Red" && command.move.gamePiece != "Yellow" {
          return Failure(InvalidGamePiece);
        }
        var moved := game.ApplyMove(player.id, command.move);
        if moved.Fail? {
          return Failure(moved.error);
        }
      } else if command.LeaveGame? {
        var left := game.Leave(player.id);
        if left.Fail? {
          return Failure(left.error);
        }
      } else {
        var started := game.StartGame(player.id);
        if started.Fail? {
          return Failure(started.error);
        }
      }
      assert Handle(command, current, player.id, newGameID)
        == Success(Handled(NoResponse, current.value.state, Current().value, false));
      StateUpdated();
      r := Success(NoResponse);
    }

    /**
     * `remove` of GameArea.js: the player leaves the game first (its only possible error,
     * PLAYER_NOT_IN_GAME, is swallowed), then the area; the broadcast shows the game after the
     * leave.  No history is recorded on this path.
     */
    method Remove(player: Player)
      requires Valid()
      modifies Footprint(), area`occupants, player`location, area.emitter`log
      ensures Valid() && game == old(game) && history == old(history)
      ensures game != null ==>
        match Left(old(game.base.state), player.id)
        case Success(t) => game.base.state == t && game.base.players == Without(old(game.base.players), player.id)
        case Failure(_) => game.base.state == old(game.base.state) && game.base.players == old(game.base.players)
      ensures area.occupants == WithoutPlayer(old(area.occupants), player)
      ensures player.location == old(player.location).(interactableID := None)
      ensures area.emitter.log == old(area.emitter.log)
        + [PlayerMoved(player.ToPlayerModel()), InteractableUpdate(ToModel())]
    {
      if game != null {
        var left := game.Leave(player.id);
      }
      var model := if game == null then None else Some(game.base.ToModel());
      var id, results := area.id, history;
      area.Remove(player, ids => ConnectFourAreaModel(id, model, results, ids));
    }
  }
}
