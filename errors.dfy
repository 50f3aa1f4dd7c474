/**
 * The errors the core throws.  The first twelve variants are the messages exported by
 * lib/InvalidParametersError.js; the others are the plain `Error`s (and the one failed
 * assertion) raised by the areas, the factory and the towns store.
 */
module Errors {
  datatype Error =
    | InvalidMove
    | InvalidCommand
    | GameFull
    | GameNotInProgress
    | GameOver
    | GameIdMismatch
    | GameNotStartable
    | BoardPositionNotEmpty
    | MoveNotYourTurn
    | BoardPositionNotValid
    | PlayerNotInGame
    | PlayerAlreadyInGame
    | InvalidGamePiece        // 'Invalid game piece' (game areas)
    | UnknownCommandType      // 'Unknown command type' (conversation and viewing areas)
    | MalformedArea           // 'Malformed viewing area …' (map objects without a size)
    | UnknownGameAreaType     // 'Unknown game area type …' (game area factory)
    | FriendlyNameRequired    // 'FriendlyName must be specified' (towns store)

  /** The message text each error carries. */
  function Message(e: Error): string
  {
    match e
    case InvalidMove => "Invalid move"
    case InvalidCommand => "Invalid command"
    case GameFull => "Game is full"
    case GameNotInProgress => "Game is not in progress"
    case GameOver => "Game is over"
    case GameIdMismatch => "Game ID mismatch"
    case GameNotStartable => "Game is not startable"
    case BoardPositionNotEmpty => "Board position is not empty"
    case MoveNotYourTurn => "Not your turn"
    case BoardPositionNotValid => "Board position is not valid"
    case PlayerNotInGame => "Player is not in this game"
    case PlayerAlreadyInGame => "Player is already in this game"
    case InvalidGamePiece => "Invalid game piece"
    case UnknownCommandType => "Unknown command type"
    case MalformedArea => "Malformed viewing area"
    case UnknownGameAreaType => "Unknown game area type"
    case FriendlyNameRequired => "FriendlyName must be specified"
  }

  /**
   * GameArea.remove recognises the error to swallow by its message alone; no other error
   * carries the PLAYER_NOT_IN_GAME message, so the test is exactly "this is PlayerNotInGame".
   */
  lemma NotInGameMessageIdentifies(e: Error)
    ensures Message(e) == Message(PlayerNotInGame) <==> e == PlayerNotInGame
  {
  }
}
