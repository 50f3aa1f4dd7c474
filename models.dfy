/**
 * The values the town service exchanges with its clients (the shared CoveyTownSocket types,
 * which are not shown as source) and the town's broadcast emitter.
 */
module Models {
  import opened Wrappers

  /**
   * Player and game ids are nanoid strings, which are never empty: a present id is therefore
   * always truthy, and a JavaScript test `!state.red` is exactly `state.red.None?`.
   */
  type PlayerID = s: string | s != "" witness "p"
  type GameID = s: string | s != "" witness "g"

  /** A player's position: the centre of the sprite, plus the area the player is in. */
  datatype PlayerLocation = PlayerLocation(
    x: real, y: real, rotation: string, moving: bool, interactableID: Option<string>)

  datatype PlayerModel = PlayerModel(id: PlayerID, location: PlayerLocation, userName: string)

  /** A rectangle whose (x, y) is the top-left corner. */
  datatype BoundingBox = BoundingBox(x: real, y: real, width: real, height: real)

  /** An object of the Tiled map: its name, position, optional size and custom properties. */
  datatype MapProperty = MapProperty(name: string, value: string)
  datatype MapObject = MapObject(
    name: string, x: real, y: real, width: Option<real>, height: Option<real>,
    properties: seq<MapProperty>)

  datatype GameStatus = WaitingForPlayers | WaitingToStart | InProgress | Over

  datatype Color = Red | Yellow

  datatype ConnectFourMove = ConnectFourMove(gamePiece: Color, row: int, col: int)

  datatype ConnectFourGameState = ConnectFourGameState(
    moves: seq<ConnectFourMove>,
    status: GameStatus,
    firstPlayer: Color,
    red: Option<PlayerID>,
    yellow: Option<PlayerID>,
    redReady: bool,
    yellowReady: bool,
    winner: Option<PlayerID>)

  datatype TicTacToeMove = TicTacToeMove(gamePiece: string, row: int, col: int)

  datatype TicTacToeGameState = TicTacToeGameState(
    moves: seq<TicTacToeMove>,
    status: GameStatus,
    x: Option<PlayerID>,
    o: Option<PlayerID>,
    winner: Option<PlayerID>)

  /** A game as clients see it: its state, id and the ids of its players in join order. */
  datatype GameInstance<S> = GameInstance(state: S, id: GameID, players: seq<PlayerID>)

  /** One finished game in an area's history: the score of each player, keyed by name. */
  datatype GameResult = GameResult(gameID: GameID, scores: map<string, int>)

  /** What an area reports about itself (its `toModel`); the variant is the area's `type`. */
  datatype InteractableModel =
    | ConversationAreaModel(id: string, occupants: seq<PlayerID>, topic: Option<string>)
    | ViewingAreaModel(
        id: string, video: Option<string>, isPlaying: bool, elapsedTimeSec: real,
        occupants: seq<PlayerID>)
    | ConnectFourAreaModel(
        id: string, connectFourGame: Option<GameInstance<ConnectFourGameState>>,
        history: seq<GameResult>, occupants: seq<PlayerID>)
    | TicTacToeAreaModel(
        id: string, ticTacToeGame: Option<GameInstance<TicTacToeGameState>>,
        history: seq<GameResult>, occupants: seq<PlayerID>)

  type ViewingAreaInfo = m: InteractableModel | m.ViewingAreaModel?
    witness ViewingAreaModel("", None, false, 0.0, [])

  /** A move as a client sends it; the piece is whatever string the client chose. */
  datatype MoveCommand = MoveCommand(gamePiece: string, row: int, col: int)

  /** The commands a client can send to an area; `OtherCommand` is any other `type`. */
  datatype InteractableCommand =
    | JoinGame
    | LeaveGame(gameID: string)
    | StartGame(gameID: string)
    | GameMove(gameID: string, move: MoveCommand)
    | ViewingAreaUpdate(update: ViewingAreaInfo)
    | OtherCommand(kind: string)

  /** `undefined`, `{ gameID }` and `{}`. */
  datatype CommandResponse = NoResponse | JoinedGame(gameID: GameID) | EmptyResponse

  /** The two broadcasts areas make: 'playerMoved' and 'interactableUpdate'. */
  datatype Event = PlayerMoved(player: PlayerModel) | InteractableUpdate(area: InteractableModel)

  /** The town's broadcast emitter, shared by all areas of a town; it records what was sent. */
  class Emitter {
    ghost var log: seq<Event>

    constructor()
      ensures log == []
    {
      log := [];
    }
  }
}
