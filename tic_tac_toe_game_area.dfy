/**
 * town/games/TicTacToeGameArea.js: a game area hosting one Tic-Tac-Toe game at a time.
 * TicTacToeGame.js is not part of this model: what its `join`, `leave` and `applyMove` do to
 * the state is the HookResult the caller passes in.
 */
module TicTacToeGameAreas {
  import opened Wrappers
  import opened Errors
  import opened Models
  import opened Players
  import opened Games
  import opened InteractableAreas
  import opened GameAreas

  type TicTacToeInstance = GameInstance<TicTacToeGameState>

  /**
   * The effect of one command on the area: its result, and the game the area holds
   * afterwards, and whether a new game was opened for it.
   */
  datatype Step = Step(result: Result<CommandResponse, Error>, game: Option<TicTacToeInstance>, created: bool)

  /** The outcome of a game operation: its new state, and the error it threw, if any. */
  function Applied(g: TicTacToeInstance, hook: HookResult<TicTacToeGameState>, players: seq<PlayerID>,
                   response: CommandResponse): (s: Step)
    ensures s.game == Some(GameInstance(hook.after, g.id, if hook.thrown.None? then players else g.players))
    ensures s.result == if hook.thrown.None? then Success(response) else Failure(hook.thrown.value)
    ensures !s.created
  {
    if hook.thrown.None? then Step(Success(response), Some(g.(state := hook.after, players := players)), false)
    else Step(Failure(hook.thrown.value), Some(g.(state := hook.after)), false)
  }

  /**
   * `handleCommand` on values: the step `command`, sent by `player`, takes when the area's
   * game is `current`.  A new game has id `newGameID` and state `initial`; `hook` is what the
   * game operation the command calls does.
   */
  function Handle(command: InteractableCommand, current: Option<TicTacToeInstance>, player: PlayerID,
                  newGameID: GameID, initial: TicTacToeGameState, hook: HookResult<TicTacToeGameState>)
    : (s: Step)
    ensures !(command.JoinGame? || command.LeaveGame? || command.GameMove?) ==>
      s == Step(Failure(InvalidCommand), current, false)
    ensures (command.LeaveGame? || command.GameMove?) && current.None? ==>
      s == Step(Failure(GameNotInProgress), current, false)
    ensures ((command.LeaveGame? || command.GameMove?) && current.Some? &&
             current.value.id != command.gameID) ==> s == Step(Failure(GameIdMismatch), current, false)
    ensures (command.GameMove? && current.Some? && current.value.id == command.gameID &&
             command.move.gamePiece != "X" && command.move.gamePiece != "O") ==>
      s == Step(Failure(InvalidGamePiece), current, false)
    // a join with no game to play opens a new one, which stays even if the join throws
    ensures s.created <==> command.JoinGame? && (current.None? || current.value.state.status == Over)
    ensures s.created ==> s.game.Some? && s.game.value.id == newGameID
    ensures s.created && hook.thrown.None? ==> s.game.value.players == [player]
    // an operation that ran leaves the hook's state behind, whatever it threw
    ensures s.game.Some? && (current.None? || s.game != current) ==> s.game.value.state == hook.after
    ensures s.game.Some? && !s.created ==> current.Some? && s.game.value.id == current.value.id
    ensures s.result.Success? ==> hook.thrown.None? && s.game.Some?
    ensures s.result.Success? ==> (s.result.value == JoinedGame(s.game.value.id) <==> command.JoinGame?)
    ensures s.result.Success? && !command.JoinGame? ==> s.result.value == NoResponse
  {
    match command
    case GameMove(gameID, move) =>
      if current.None? then Step(Failure(GameNotInProgress), current, false)
      else if current.value.id != gameID then Step(Failure(GameIdMismatch), current, false)
      else if move.gamePiece != "X" && move.gamePiece != "O" then Step(Failure(InvalidGamePiece), current, false)
      else Applied(current.value, hook, current.value.players, NoResponse)
    case JoinGame =>
      if current.None? || current.value.state.status == Over then
        var g := GameInstance(initial, newGameID, []);
        Applied(g, hook, [player], JoinedGame(newGameID)).(created := true)
      else
        Applied(current.value, hook, current.value.players + [player], JoinedGame(current.value.id))
    case LeaveGame(gameID) =>
      if current.None? then Step(Failure(GameNotInProgress), current, false)
      else if current.value.id != gameID then Step(Failure(GameIdMismatch), current, false)
      else Applied(current.value, hook, Without(current.value.players, player), NoResponse)
    case StartGame(_) => Step(Failure(InvalidCommand), current, false)
    case ViewingAreaUpdate(_) => Step(Failure(InvalidCommand), current, false)
    case OtherCommand(_) => Step(Failure(InvalidCommand), current, false)
  }

  /**
   * A refused command changes the game only when it was a join that opened a new game: the
   * area then keeps the new game even though the join threw.
   */
  lemma FailedCommandKeepsGameUnlessNew(command: InteractableCommand, current: Option<TicTacToeInstance>,
                                        player: PlayerID, newGameID: GameID, initial: TicTacToeGameState,
                                        hook: HookResult<TicTacToeGameState>)
    // the game operation throws before it changes the state of the game it runs on
    requires current.Some? && !(command.JoinGame? && current.value.state.status == Over) ==>
      hook.after == current.value.state
    requires current.None? || current.value.state.status == Over ==> hook.after == initial
    requires Handle(command, current, player, newGameID, initial, hook).result.Failure?
    ensures var s := Handle(command, current, player, newGameID, initial, hook);
      s.created || s.game == current
    ensures var s := Handle(command, current, player, newGameID, initial, hook);
      s.created ==> s.game == Some(GameInstance(initial, newGameID, []))
  {
  }

  /**
   * The recording step of `_stateUpdated`: a game that is over is scored against its X and O
   * seats, once.
   */
  function Recorded(history: seq<GameResult>, g: TicTacToeInstance, occupants: seq<Player>)
    : (r: seq<GameResult>)
    ensures r != history <==>
      g.state.status == Over && !HasResult(history, g.id) && g.state.x.Some? && g.state.o.Some?
    ensures r != history ==>
      r == history + [GameResult(g.id, Scores(occupants, g.state.x.value, g.state.o.value, g.state.winner))]
    ensures UniqueIds(history) ==> UniqueIds(r)
  {
    RecordOutcome(history, g.id, g.state.status == Over, g.state.x, g.state.o, g.state.winner, occupants)
  }

  /** Telling the area twice about the same finished game records it once. */
  lemma RecordedOnce(history: seq<GameResult>, g: TicTacToeInstance, occupants: seq<Player>)
    ensures Recorded(Recorded(history, g, occupants), g, occupants) == Recorded(history, g, occupants)
  {
    RecordOutcomeIdempotent(history, g.id, g.state.status == Over, g.state.x, g.state.o, g.state.winner, occupants);
  }

  class TicTacToeGameArea {
    const area: InteractableArea
    var game: Game?<TicTacToeGameState>
    var history: seq<GameResult>

    /** A new area has no game and no history. */
    constructor(id: string, box: BoundingBox, emitter: Emitter)
      ensures fresh(area) && area.id == id && area.Box() == box && area.emitter == emitter
      ensures area.occupants == [] && game == null && history == []
    {
      area := new InteractableArea(id, box, emitter);
      game := null;
      history := [];
    }

    /** The objects of the current game. */
    ghost function Footprint(): set<object>
      reads this
    {
      if game == null then {} else {game}
    }

    /** The area's current game as a value. */
    function Current(): (v: Option<TicTacToeInstance>)
      reads this, Footprint()
      ensures v.None? <==> game == null
      ensures v.Some? ==> v.value == game.ToModel()
    {
      if game == null then None else Some(game.ToModel())
    }

    /** `toModel` of GameArea.js, with the 'TicTacToeArea' type. */
    function ToModel(): (m: InteractableModel)
      reads this, area, Footprint()
      ensures m.TicTacToeAreaModel? && m.id == area.id && m.history == history
      ensures m.occupants == area.OccupantsByID() && m.ticTacToeGame == Current()
    {
      TicTacToeAreaModel(area.id, Current(), history, area.OccupantsByID())
    }

    /** `isActive`: a game area always counts as active. */
    predicate IsActive(): (r: bool)
      ensures r
    {
      true
    }

    /** `_stateUpdated`: record the game if it has just finished, then broadcast the area. */
    method StateUpdated()
      requires game != null
      modifies this`history, area.emitter`log
      ensures history == Recorded(old(history), game.ToModel(), area.occupants)
      ensures area.emitter.log == old(area.emitter.log) + [InteractableUpdate(ToModel())]
    {
      history := Recorded(history, game.ToModel(), area.occupants);
      area.EmitAreaChanged(ToModel());
    }

    /**
     * `handleCommand`: the result and the game afterwards are Handle's.  Only a command that
     * succeeds records history and broadcasts the area, once.
     */
    method HandleCommand(command: InteractableCommand, player: Player, newGameID: GameID,
                         initial: TicTacToeGameState, hook: HookResult<TicTacToeGameState>)
      returns (r: Result<CommandResponse, Error>)
      modifies this`game, this`history, Footprint(), area.emitter`log
      ensures var s := Handle(command, old(Current()), player.id, newGameID, initial, hook);
        && r == s.result && Current() == s.game
        && (s.created ==> fresh(game))
        && (!s.created ==> game == old(game))
        && history == (if r.Success? then Recorded(old(history), s.game.value, area.occupants) else old(history))
        && area.emitter.log == old(area.emitter.log) + (if r.Success? then [InteractableUpdate(ToModel())] else [])
    {
      match command
      case GameMove(gameID, move) =>
        if game == null {
          return Failure(GameNotInProgress);
        }
        if game.id != gameID {
          return Failure(GameIdMismatch);
        }
        if move.gamePiece != "X" && move.gamePiece != "O" {
          return Failure(InvalidGamePiece);
        }
        var moved := game.Perform(hook);
        if moved.Fail? {
          return Failure(moved.error);
        }
        StateUpdated();
        r := Success(NoResponse);
      case JoinGame =>
        if game == null || game.state.status == Over {
          game := new Game(newGameID, initial);
        }
        ghost var joinedTo := game.players;
        var joined := game.Join(player.id, hook);
        assert joined.Pass? && joinedTo == [] ==> game.players == [player.id];
        if joined.Fail? {
          return Failure(joined.error);
        }
        StateUpdated();
        r := Success(JoinedGame(game.id));
      case LeaveGame(gameID) =>
        if game == null {
          return Failure(GameNotInProgress);
        }
        if game.id != gameID {
          return Failure(GameIdMismatch);
        }
        var left := game.Leave(player.id, hook);
        if left.Fail? {
          return Failure(left.error);
        }
        StateUpdated();
        r := Success(NoResponse);
      case StartGame(_) =>
        r := Failure(InvalidCommand);
      case ViewingAreaUpdate(_) =>
        r := Failure(InvalidCommand);
      case OtherCommand(_) =>
        r := Failure(InvalidCommand);
    }

    /**
     * `remove` of GameArea.js: the player leaves the game first; if that throws anything but
     * PLAYER_NOT_IN_GAME the error ends the removal and the area is untouched.  Otherwise the
     * player leaves the area and the broadcast shows the game after the leave.
     */
    method Remove(player: Player, hook: HookResult<TicTacToeGameState>) returns (r: Outcome<Error>)
      modifies Footprint(), area`occupants, player`location, area.emitter`log
      ensures game == old(game) && history == old(history)
      ensures r == if game == null then Pass else AfterLeave(hook.thrown)
      ensures game != null ==> game.state == hook.after
      ensures game != null ==>
        game.players == if hook.thrown.None? then Without(old(game.players), player.id) else old(game.players)
      ensures r.Pass? ==>
        && area.occupants == WithoutPlayer(old(area.occupants), player)
        && player.location == old(player.location).(interactableID := None)
        && area.emitter.log == old(area.emitter.log)
             + [PlayerMoved(player.ToPlayerModel()), InteractableUpdate(ToModel())]
      ensures r.Fail? ==>
        && area.occupants == old(area.occupants) && player.location == old(player.location)
        && area.emitter.log == old(area.emitter.log)
    {
      if game != null {
        var left := game.Leave(player.id, hook);
        var caught := AfterLeave(if left.Fail? then Some(left.error) else None);
        if caught.Fail? {
          return caught;
        }
      }
      var id, current, results := area.id, Current(), history;
      area.Remove(player, ids => TicTacToeAreaModel(id, current, results, ids));
      r := Pass;
    }
  }
}
