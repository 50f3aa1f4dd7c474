# Covey.Town town service: areas, games and the towns store

This project models the game and area logic of the Covey.Town server (`townService`). Covey.Town is a
virtual town where players walk about a 2-D map. While they do, they:

- step into **interactable areas** (conversation areas, viewing areas and game areas);
- play **Connect Four** or **Tic-Tac-Toe** inside game areas;
- have their towns kept in a **towns store**.

Each source class becomes a Dafny class with the same fields, and its methods update the fields in
place. The rules behind those updates are pure functions. The methods are proved against those
functions, and lemmas prove what the rules promise.

Modules, one per source file:

| file | module | source |
|---|---|---|
| `wrappers.dfy` | `Wrappers` — Option, Outcome (throws or not), Result | — |
| `errors.dfy` | `Errors` — the error messages the core throws | `lib/InvalidParametersError.js` and the plain errors of the core |
| `models.dfy` | `Models` — the wire types (locations, areas, games, commands, events) and the broadcast `Emitter` | the shared types |
| `player.dfy` | `Players` | `lib/Player.js` |
| `game.dfy` | `Games` — the generic base `Game<S>` | `town/games/Game.js` |
| `connect_four.dfy` | `ConnectFour` — the rules as functions, the imperative `checkForWin`, the `ConnectFourGame` class | `town/games/ConnectFourGame.js` |
| `interactable_area.dfy` | `InteractableAreas` | `town/InteractableArea.js` |
| `conversation_area.dfy` | `ConversationAreas` | `town/ConversationArea.js` |
| `viewing_area.dfy` | `ViewingAreas` | `town/ViewingArea.js` |
| `game_area.dfy` | `GameAreas` — history bookkeeping and the catch in `remove` | `town/games/GameArea.js` and both `_stateUpdated` |
| `connect_four_game_area.dfy` | `ConnectFourGameAreas` | `town/games/ConnectFourGameArea.js` |
| `tic_tac_toe_game_area.dfy` | `TicTacToeGameAreas` | `town/games/TicTacToeGameArea.js` |
| `game_area_factory.dfy` | `GameAreaFactories` | `town/games/GameAreaFactory.js` |
| `towns_store.dfy` | `TownsStores` | `lib/TownsStore.js` |

How the source's JavaScript is rendered in Dafny:

- **Inheritance** becomes composition.
  - A `ConnectFourGame` holds its `Game` base as `base`.
  - Each area holds its `InteractableArea` part as `area`.
  - Where the base code calls an overridden `toModel`, the base method takes a ghost `view`: the subclass's model as a function of the occupant ids.
- **Exceptions** become `Result`/`Outcome` values.
  - A method that throws returns the error.
  - It changes what the source changes before the throw, and nothing more.
- **Broadcasts** (`emit('playerMoved', …)`, `emit('interactableUpdate', …)`) are appended to the ghost log `Emitter.log`.
- **Tic-Tac-Toe** is treated as an abstract game, because `TicTacToeGame.js` is not part of this model. What its `join`, `leave` and `applyMove` do to the state is passed in as a `HookResult` (the state left behind, and the error thrown, if any).
- **Coordinates** are `real`.
- **Random values** (game ids from `nanoid`, player ids and session tokens, town ids and passwords) are parameters.
- **Environment variables** are parameters: `MASTER_TOWN_PASSWORD`, the misspelled `MASTER_TOWN_PASWORD` and `DEMO_TOWN_ID`.

## Model

Source paths are relative to the repository root.

| member | source | states |
|---|---|---|
| Errors.NotInGameMessageIdentifies | townService/buildcjs/src/town/games/GameArea.js:40-47 | comparing messages, as `remove` does, picks out exactly PLAYER_NOT_IN_GAME: no other error carries that message |
| Players.Player.constructor | townService/buildcjs/src/lib/Player.js:8-19 | a new player stands at (0, 0), faces front, is not moving and is in no area; the id and session token are the given values; it has no video token |
| Players.Player.SetVideoToken | townService/buildcjs/src/lib/Player.js:26-31 | after the setter, reading `videoToken` gives the value set |
| Players.Player.ToPlayerModel | townService/buildcjs/src/lib/Player.js:35-41 | the model carries the player's id, current location and user name |
| Games.Without | townService/buildcjs/src/town/games/Game.js:41 | filtering by id removes every entry with that id and keeps every other one; a missing id leaves the list as it is |
| Games.WithoutConcat | townService/buildcjs/src/town/games/Game.js:41 | filtering a concatenation filters each part, so the remaining players keep their join order |
| Games.Game.constructor | townService/buildcjs/src/town/games/Game.js:14-18 | a game starts with the given id and initial state, and with no players |
| Games.Game.SetState | townService/buildcjs/src/town/games/Game.js:19-24 | the setter replaces the whole state; the getter then returns it |
| Games.Game.Join | townService/buildcjs/src/town/games/Game.js:30-33 | the state is whatever the `_join` hook left; the player is appended only if the hook did not throw, and the hook's error is the result |
| Games.Game.Leave | townService/buildcjs/src/town/games/Game.js:39-42 | the state is whatever the `_leave` hook left; if the hook did not throw, every entry for the player is dropped |
| Games.Game.Perform | townService/buildcjs/src/town/games/TicTacToeGameArea.js:97-101 | a game operation Game.js leaves to the subtype changes only the state, and reports the error it threw |
| Games.Game.ToModel | townService/buildcjs/src/town/games/Game.js:43-50 | the model reports the live state, the id and the player ids in join order |
| ConnectFour.OtherColor | townService/buildcjs/src/town/games/ConnectFourGame.js:31-36 | the other colour always differs from the given one |
| ConnectFour.InitialState | townService/buildcjs/src/town/games/ConnectFourGame.js:49-54 | a new game has no moves, no seats, no ready flags and no winner, and waits for players; the first player is Red with no prior game, otherwise the opposite of the prior game's first player |
| ConnectFour.ConnectFourGame.constructor | townService/buildcjs/src/town/games/ConnectFourGame.js:49-57 | the new game starts in InitialState with no players; the preferred Red and Yellow seats are copied from the prior game's seats |
| ConnectFour.Joined | townService/buildcjs/src/town/games/ConnectFourGame.js:109-147 | a seated player gets PLAYER_ALREADY_IN_GAME and a full game gets GAME_FULL, and only these are refused; otherwise exactly one free seat gets the player and nothing else changes; a preferred free seat is honoured, and Red is taken before Yellow; the game is ready to start exactly when both seats are taken |
| ConnectFour.ConnectFourGame.Join | townService/buildcjs/src/town/games/ConnectFourGame.js:109-147 | the new state is Joined of the old one, and the player is appended to the player list exactly when Joined succeeds |
| ConnectFour.Started | townService/buildcjs/src/town/games/ConnectFourGame.js:75-96 | GAME_NOT_STARTABLE unless the game waits to start, and PLAYER_NOT_IN_GAME for an unseated caller; otherwise only the caller's ready flag is added; the game is in progress exactly when both flags are set; the first player resets to Red exactly when neither seat holds its prior-game player |
| ConnectFour.ConnectFourGame.StartGame | townService/buildcjs/src/town/games/ConnectFourGame.js:75-96 | the new state is Started of the old one; a refused start changes nothing |
| ConnectFour.StartAgainChangesNothing | townService/buildcjs/src/town/games/ConnectFourGame.js:82-95 | while the game still waits, reporting ready a second time gives the same state |
| ConnectFour.Left | townService/buildcjs/src/town/games/ConnectFourGame.js:161-202 | a finished game is left unchanged; an unseated player gets PLAYER_NOT_IN_GAME; otherwise exactly the leaver's seat and ready flag are cleared; a game not yet started waits for players again; a game in progress is over, and the other seat's player wins |
| ConnectFour.ConnectFourGame.Leave | townService/buildcjs/src/town/games/ConnectFourGame.js:161-202 | the new state is Left of the old one, and the player leaves the player list exactly when Left succeeds |
| ConnectFour.ForfeitLeavesOneSeat | townService/buildcjs/src/town/games/ConnectFourGame.js:185-196 | leaving a game in progress ends it with the other seat as winner, and the final state's seats are no longer both filled |
| ConnectFour.NextPlayer | townService/buildcjs/src/town/games/ConnectFourGame.js:210-216 | the first player moves on an even move count, the other colour on an odd one |
| ConnectFour.MovesInColumn | townService/buildcjs/src/town/games/ConnectFourGame.js:221 | the count is the number of times the column occurs among the moves' columns; so it is at most the number of moves, and equals it only if every move is in that column |
| ConnectFour.ValidateMoveAsWritten | townService/buildcjs/src/town/games/ConnectFourGame.js:208-229 | as written, a move passes iff it is the mover's turn, its column holds fewer than six pieces, and its row is the lowest free one; the column itself is never bounded |
| ConnectFour.OffBoardColumnAccepted | townService/buildcjs/src/town/games/ConnectFourGame.js:220-228 | a first move by Red into column 7 passes the check as written; the bounded check refuses it |
| ConnectFour.ValidateMove | townService/buildcjs/src/town/games/ConnectFourGame.js:208-229 | a move passes iff it is the mover's turn and it drops into the lowest free row of a column on the board that is not full; a move in the wrong turn gets MOVE_NOT_YOUR_TURN, and every other refusal gets BOARD_POSITION_NOT_VALID |
| ConnectFour.StackedOnBoard | townService/buildcjs/src/town/games/ConnectFourGame.js:237-244 | every move of a game lies on the 6 x 7 board, so filling the board never writes outside it |
| ConnectFour.StackedExtend | townService/buildcjs/src/town/games/ConnectFourGame.js:306-310 | appending a legal drop keeps every move of the game a legal drop |
| ConnectFour.StackedPrefix | townService/buildcjs/src/town/games/ConnectFourGame.js:306-310 | dropping the last move keeps every move of the game a legal drop |
| ConnectFour.ColumnsNeverOverfill | townService/buildcjs/src/town/games/ConnectFourGame.js:221-224 | no column of a game ever holds more than six pieces |
| ConnectFour.FreeAboveStack | townService/buildcjs/src/town/games/ConnectFourGame.js:221-228 | in a column holding n pieces, every row above the lowest n is empty |
| ConnectFour.LegalDropLandsOnEmptyCell | townService/buildcjs/src/town/games/ConnectFourGame.js:220-228 | a move that passes validation lands on the board on an empty cell, so no piece is ever overwritten |
| ConnectFour.Moved | townService/buildcjs/src/town/games/ConnectFourGame.js:338-359 | GAME_NOT_IN_PROGRESS unless the game is in progress, and PLAYER_NOT_IN_GAME for an unseated caller; the piece is the caller's seat colour, whatever the client sent; a valid move is appended and changes nothing but the moves, status and winner; four in a line ends the game with the mover as winner; a full board with no four ends it with no winner; otherwise the game goes on; every move stays a legal drop |
| ConnectFour.TurnsAlternate | townService/buildcjs/src/town/games/ConnectFourGame.js:210-219 | an accepted move was the mover's turn, and after it the turn passes to the other colour |
| ConnectFour.ConnectFourGame.ApplyMove | townService/buildcjs/src/town/games/ConnectFourGame.js:338-359 | the new state is Moved of the old one; a refused move changes nothing |
| ConnectFour.Cell | townService/buildcjs/src/town/games/ConnectFourGame.js:242-244 | a cell's piece comes from a move made on that cell |
| ConnectFour.CellEmptyIffUntouched | townService/buildcjs/src/town/games/ConnectFourGame.js:237-244 | a cell is empty iff no move was made on it |
| ConnectFour.CellIsLastMove | townService/buildcjs/src/town/games/ConnectFourGame.js:237-244 | a filled cell holds the piece of a move made on it after which no move was made on that cell: later moves overwrite earlier ones |
| ConnectFour.FillBoard | townService/buildcjs/src/town/games/ConnectFourGame.js:237-244 | the filled board holds, on each cell, the piece of the last move made there |
| ConnectFour.RunLeftFour | townService/buildcjs/src/town/games/ConnectFourGame.js:246-259 | the row counter reaches four at a cell exactly when four equal pieces end there |
| ConnectFour.RunUpFour | townService/buildcjs/src/town/games/ConnectFourGame.js:261-276 | the column counter reaches four at a cell exactly when four equal pieces end there |
| ConnectFour.ScanRows | townService/buildcjs/src/town/games/ConnectFourGame.js:245-259 | the row scan finds a win iff some row holds four equal pieces side by side |
| ConnectFour.ScanColumns | townService/buildcjs/src/town/games/ConnectFourGame.js:260-276 | the column scan finds a win iff some column holds four equal pieces one above the other |
| ConnectFour.ScanDownRight | townService/buildcjs/src/town/games/ConnectFourGame.js:277-289 | the scan finds a win iff four equal pieces lie on a diagonal running right as it goes down |
| ConnectFour.ScanDownLeft | townService/buildcjs/src/town/games/ConnectFourGame.js:290-302 | the scan finds a win iff four equal pieces lie on a diagonal running left as it goes down |
| ConnectFour.CheckForWin | townService/buildcjs/src/town/games/ConnectFourGame.js:234-305 | `checkForWin` is true iff four equal pieces lie in a line, horizontally, vertically or on either diagonal |
| InteractableAreas.IntervalsMeet | townService/buildcjs/src/town/InteractableArea.js:116 | two non-empty open intervals meet iff each starts before the other ends |
| InteractableAreas.OverlapsIffSharedLocation | townService/buildcjs/src/town/InteractableArea.js:97-118 | two areas overlap iff some location is contained by both, as the comment on `overlaps` promises; touching edges do not count |
| InteractableAreas.TouchesIffSpriteInsideBox | townService/buildcjs/src/town/InteractableArea.js:80-96 | `contains` holds iff the 32 x 64 sprite centred on the location shares an interior point with the area |
| InteractableAreas.RectOf | townService/buildcjs/src/town/ConversationArea.js:58-62 | a missing or zero width or height is refused as malformed; otherwise the rectangle is the object's x, y, width and height |
| InteractableAreas.WithoutPlayer | townService/buildcjs/src/town/InteractableArea.js:65 | filtering by reference removes exactly that player and keeps every other occupant |
| InteractableAreas.WithoutPlayerConcat | townService/buildcjs/src/town/InteractableArea.js:65 | the filter of a concatenation is the concatenation of the filters, so the remaining occupants keep their order |
| InteractableAreas.RemovalKeepsOrder | townService/buildcjs/src/town/InteractableArea.js:64-69 | removing a player who sits once between `before` and `after` leaves exactly `before + after` |
| InteractableAreas.IdsOf | townService/buildcjs/src/town/InteractableArea.js:13-15 | one id per player, in the same order |
| InteractableAreas.Inside | townService/buildcjs/src/town/InteractableArea.js:76-77 | the chosen players are exactly the given players whose location the area contains |
| InteractableAreas.InsideConcat | townService/buildcjs/src/town/InteractableArea.js:76-77 | choosing from a concatenation chooses from each part, in order, and a single player is chosen iff the area contains it; so the chosen players keep the list's order |
| InteractableAreas.InteractableArea.constructor | townService/buildcjs/src/town/InteractableArea.js:28-37 | a new area has the given id, rectangle and emitter, and no occupants |
| InteractableAreas.InteractableArea.OccupantsByID | townService/buildcjs/src/town/InteractableArea.js:13-15 | the occupant ids, one per occupant, in arrival order |
| InteractableAreas.InteractableArea.IsActive | townService/buildcjs/src/town/InteractableArea.js:16-18 | an area is active iff it has at least one occupant |
| InteractableAreas.InteractableArea.EmitAreaChanged | townService/buildcjs/src/town/InteractableArea.js:123-125 | exactly one interactableUpdate carrying the area's model is broadcast |
| InteractableAreas.InteractableArea.Add | townService/buildcjs/src/town/InteractableArea.js:48-53 | the player becomes the last occupant and is placed in this area; the town hears playerMoved with the new location, then the area's new model |
| InteractableAreas.InteractableArea.Remove | townService/buildcjs/src/town/InteractableArea.js:64-69 | the occupants become WithoutPlayer of the old ones, so the player leaves and the others keep their order (RemovalKeepsOrder); the player is in no area; the town hears playerMoved, then the area's new model |
| InteractableAreas.InteractableArea.PlayersWithin | townService/buildcjs/src/town/InteractableArea.js:76-77 | the filter step chooses Inside of the given players |
| InteractableAreas.InteractableArea.AddEach | townService/buildcjs/src/town/InteractableArea.js:78 | the players are appended to the occupants in the given order, and each is placed in the area; the town hears, for each player in turn, its location and then the area with it inside |
| InteractableAreas.InteractableArea.AddPlayersWithinBounds | townService/buildcjs/src/town/InteractableArea.js:75-79 | the occupants gain Inside of the given players at the end: exactly the contained players, in list order (InsideConcat); they are placed in the area, the others are left as they were, and each arrival is broadcast in turn |
| ConversationAreas.ConversationArea.constructor | townService/buildcjs/src/town/ConversationArea.js:20-23 | the area has the given id and topic, and no occupants |
| ConversationAreas.ConversationArea.ToModel | townService/buildcjs/src/town/ConversationArea.js:43-50 | the model is a conversation area with the id, the occupant ids and the topic |
| ConversationAreas.ConversationArea.Add | townService/buildcjs/src/town/InteractableArea.js:48-53 | the inherited add, broadcasting the conversation model |
| ConversationAreas.ConversationArea.Remove | townService/buildcjs/src/town/ConversationArea.js:32-38 | the inherited removal comes first, and its broadcast still shows the topic; if nobody is left, the topic is cleared and one more update is broadcast, otherwise the topic stays |
| ConversationAreas.ConversationArea.HandleCommand | townService/buildcjs/src/town/ConversationArea.js:65-67 | every command is refused with 'Unknown command type' |
| ConversationAreas.FromMapObject | townService/buildcjs/src/town/ConversationArea.js:57-64 | the area is refused exactly when the map object's width or height is missing or zero; otherwise it is named after the object, covers its rectangle, and has no topic and no occupants |
| ViewingAreas.ViewingArea.constructor | townService/buildcjs/src/town/ViewingArea.js:25-30 | the area has the model's id, video, play state and progress, and no occupants |
| ViewingAreas.ViewingArea.ToModel | townService/buildcjs/src/town/ViewingArea.js:60-69 | the model is a viewing area with the id, video, play state, progress and occupant ids |
| ViewingAreas.ViewingArea.Add | townService/buildcjs/src/town/InteractableArea.js:48-53 | the inherited add, broadcasting the viewing model |
| ViewingAreas.ViewingArea.Remove | townService/buildcjs/src/town/ViewingArea.js:39-45 | the inherited removal comes first, and its broadcast still shows the video; if nobody is left, the video is dropped and one more update is broadcast; the play state and progress are kept |
| ViewingAreas.ViewingArea.UpdateModel | townService/buildcjs/src/town/ViewingArea.js:51-55 | the video, play state and progress are taken from the update; the id and occupants do not change |
| ViewingAreas.ViewingArea.HandleCommand | townService/buildcjs/src/town/ViewingArea.js:84-91 | a ViewingAreaUpdate command is applied as by UpdateModel and answered with `{}`; every other command is refused with 'Unknown command type' and changes nothing |
| ViewingAreas.FromMapObject | townService/buildcjs/src/town/ViewingArea.js:76-83 | the area is refused exactly when the width or height is missing or zero; otherwise it is named after the object, is paused at 0 seconds, and has no video and no occupants |
| GameAreas.FindById | townService/buildcjs/src/town/games/ConnectFourGameArea.js:51-52 | the position found is that of the first occupant with the id; there is none iff no occupant has it |
| GameAreas.NameOf | townService/buildcjs/src/town/games/ConnectFourGameArea.js:51-52 | a history name is never empty: it is the user name of an occupant with that id, or the id itself when nobody has it |
| GameAreas.Scores | townService/buildcjs/src/town/games/ConnectFourGameArea.js:53-58 | the scores are keyed by the two display names; the winner scores 1 and anyone else 0; when the names coincide, the second seat's score is kept |
| GameAreas.RecordOutcome | townService/buildcjs/src/town/games/ConnectFourGameArea.js:43-62 | the history changes iff the game is over, has no entry yet and both seats are filled; it then gains exactly one entry at the end; ids stay unique, and afterwards the game has an entry iff it had one or one was just added |
| GameAreas.RecordOutcomeIdempotent | townService/buildcjs/src/town/games/ConnectFourGameArea.js:47 | recording the same game twice adds at most one entry |
| GameAreas.ScoresSumToWins | townService/buildcjs/src/town/games/TicTacToeGameArea.js:54-57 | with two different names, a decided game scores 1 and 0, and a tie scores 0 and 0 |
| GameAreas.AfterLeave | townService/buildcjs/src/town/games/GameArea.js:37-50 | an error from leaving is swallowed iff it is PLAYER_NOT_IN_GAME; any other error is thrown on unchanged |
| ConnectFourGameAreas.NewGame | townService/buildcjs/src/town/games/ConnectFourGameArea.js:110-114 | a new game has the fresh id, no players and waits for players; its preferred seats come from the area's previous game |
| ConnectFourGameAreas.Handle | townService/buildcjs/src/town/games/ConnectFourGameArea.js:88-145 | other commands get INVALID_COMMAND; GameMove, LeaveGame and StartGame get GAME_NOT_IN_PROGRESS without a game and GAME_ID_MISSMATCH on another id; a GameMove whose piece is neither Red nor Yellow gets 'Invalid game piece'; otherwise GameMove, LeaveGame, StartGame and a JoinGame to a running game fail exactly when Moved, Left, Started or Joined does, with its error, and on success leave that rule's state (and, for LeaveGame and JoinGame, the player list without or with the player); a new game is opened iff the command is a JoinGame with no game or a finished one, and it is NewGame with the joiner seated by Joined, answered with the new id; a successful join seats the joiner; moves stay legal drops |
| ConnectFourGameAreas.RecordedAsWritten | townService/buildcjs/src/town/games/ConnectFourGameArea.js:43-62 | as written, a game is recorded iff it is over, unrecorded and both seats of the state after the command are filled |
| ConnectFourGameAreas.ForfeitRecordsNothingAsWritten | townService/buildcjs/src/town/games/ConnectFourGameArea.js:49-50 | as written, a player who leaves a game in progress ends it, but no history entry is recorded for it |
| ConnectFourGameAreas.ForfeitCommandRecordsNothing | townService/buildcjs/src/town/games/ConnectFourGameArea.js:120-131 | a LeaveGame command from a seated player of a game in progress succeeds and ends the game, and the history the area keeps is unchanged |
| ConnectFourGameAreas.Recorded | townService/buildcjs/src/town/games/ConnectFourGameArea.js:43-62 | a game is recorded iff it is over, has no entry yet, and both seats were filled before the command that ended it; ids stay unique |
| ConnectFourGameAreas.ForfeitRecordsWinner | townService/buildcjs/src/town/games/ConnectFourGameArea.js:120-130 | a forfeit adds one history entry, scored for the other seat's player |
| ConnectFourGameAreas.LeaveErrorsAreSwallowed | townService/buildcjs/src/town/games/GameArea.js:37-49 | the only error a Connect Four leave throws is one that `remove` swallows |
| ConnectFourGameAreas.ConnectFourGameArea.constructor | townService/buildcjs/src/town/games/GameArea.js:13-16 | a new area has no game and an empty history |
| ConnectFourGameAreas.ConnectFourGameArea.Current | townService/buildcjs/src/town/games/GameArea.js:17-19 | there is a current game iff the area holds one |
| ConnectFourGameAreas.ConnectFourGameArea.ToModel | townService/buildcjs/src/town/games/GameArea.js:23-32 | the model reports the id, the game's model or none, the history and the occupant ids |
| ConnectFourGameAreas.ConnectFourGameArea.IsActive | townService/buildcjs/src/town/games/GameArea.js:33-35 | a game area is always active |
| ConnectFourGameAreas.ConnectFourGameArea.StateUpdated | townService/buildcjs/src/town/games/ConnectFourGameArea.js:43-64 | the history becomes RecordedAsWritten of the old one (a finished game is scored only when both seats of its state are filled), and the area is broadcast once |
| ConnectFourGameAreas.ConnectFourGameArea.HandleCommand | townService/buildcjs/src/town/games/ConnectFourGameArea.js:88-145 | the outcome is Handle's; a refused command changes no game, history or broadcast; a successful one leaves Handle's game in place (a new object when it opened one), records the game as RecordedAsWritten says, and broadcasts the area exactly once |
| ConnectFourGameAreas.ConnectFourGameArea.Remove | townService/buildcjs/src/town/games/GameArea.js:36-51 | the player leaves the game first, as Left says, and a refusal is swallowed; then the player leaves the area; the broadcast shows the game after the leave; no history is recorded |
| TicTacToeGameAreas.Applied | townService/buildcjs/src/town/games/Game.js:30-42 | an operation that ran leaves the hook's state; the player list changes only if it did not throw, and its error is the result |
| TicTacToeGameAreas.Handle | townService/buildcjs/src/town/games/TicTacToeGameArea.js:86-129 | StartGame and other commands get INVALID_COMMAND; GameMove and LeaveGame get GAME_NOT_IN_PROGRESS without a game and GAME_ID_MISSMATCH on another id, and neither touches the game; a piece other than X or O is refused; JoinGame opens a new game iff there is none or it is over, and that game stays even if the join throws; a success answers JoinGame with the game's id and other commands with nothing |
| TicTacToeGameAreas.FailedCommandKeepsGameUnlessNew | townService/buildcjs/src/town/games/TicTacToeGameArea.js:105-112 | when the game throws before changing its state, a refused command leaves the area's game as it was, unless it was a join that opened a new game, which then stays, empty |
| TicTacToeGameAreas.Recorded | townService/buildcjs/src/town/games/TicTacToeGameArea.js:42-62 | a game is recorded iff it is over, has no entry yet and both X and O are set; it then gains one entry scoring X and O |
| TicTacToeGameAreas.RecordedOnce | townService/buildcjs/src/town/games/TicTacToeGameArea.js:47 | telling the area twice about a finished game records it once |
| TicTacToeGameAreas.TicTacToeGameArea.constructor | townService/buildcjs/src/town/games/GameArea.js:13-16 | a new area has no game and an empty history |
| TicTacToeGameAreas.TicTacToeGameArea.Current | townService/buildcjs/src/town/games/GameArea.js:17-19 | there is a current game iff the area holds one, and it is that game's model |
| TicTacToeGameAreas.TicTacToeGameArea.ToModel | townService/buildcjs/src/town/games/GameArea.js:23-32 | the model reports the id, the current game or none, the history and the occupant ids |
| TicTacToeGameAreas.TicTacToeGameArea.IsActive | townService/buildcjs/src/town/games/GameArea.js:33-35 | a game area is always active |
| TicTacToeGameAreas.TicTacToeGameArea.StateUpdated | townService/buildcjs/src/town/games/TicTacToeGameArea.js:42-63 | the history becomes Recorded of the old one, and the area is broadcast once |
| TicTacToeGameAreas.TicTacToeGameArea.HandleCommand | townService/buildcjs/src/town/games/TicTacToeGameArea.js:86-129 | the result and the game afterwards are Handle's; only a successful command records history and broadcasts the area, exactly once |
| TicTacToeGameAreas.TicTacToeGameArea.Remove | townService/buildcjs/src/town/games/GameArea.js:36-51 | the player leaves the game first; any error other than PLAYER_NOT_IN_GAME is thrown on, and the occupants, the location and the broadcasts are untouched; otherwise the base removal follows |
| GameAreaFactories.TypeProperty | townService/buildcjs/src/town/games/GameAreaFactory.js:22 | the value of the first property named 'type', or none iff no property has that name |
| GameAreaFactories.PrefixDecides | townService/buildcjs/src/town/games/GameAreaFactory.js:22 | once a 'type' property has been found, the properties after it do not matter |
| GameAreaFactories.FirstTypeWins | townService/buildcjs/src/town/games/GameAreaFactory.js:22 | a leading 'type' property decides, and a property inserted after the first 'type' cannot change the result |
| GameAreaFactories.KindOf | townService/buildcjs/src/town/games/GameAreaFactory.js:15-30 | a malformed size is refused before the type is looked at; 'TicTacToe' and 'ConnectFour' pick their game; any other or absent type is refused |
| GameAreaFactories.GameAreaFactory | townService/buildcjs/src/town/games/GameAreaFactory.js:15-30 | the factory fails exactly as KindOf does; otherwise it builds a fresh area of the chosen kind, named after the object, with its rectangle, and with no occupants, game or history |
| TownsStores.Town.constructor | townService/buildcjs/src/lib/TownsStore.js:95 | a town has the name, listing flag, id, password and capacity it was made with, and nobody in it |
| TownsStores.PasswordMatchesAsWritten | townService/buildcjs/src/lib/TownsStore.js:33-41 | as written, the own password always matches, and any other password matches only if it equals the misspelled MASTER_TOWN_PASWORD |
| TownsStores.MasterPasswordRefusedAsWritten | townService/buildcjs/src/lib/TownsStore.js:37 | as written, the master password "m" is refused for a town whose password is "p" when the misspelled variable is unset; the corrected check accepts it |
| TownsStores.PasswordMatches | townService/buildcjs/src/lib/TownsStore.js:33-41 | the own password always matches, and any other password matches only if it is the master password |
| TownsStores.MasterOpensEveryTown | townService/buildcjs/src/lib/TownsStore.js:37 | a master password that is set opens every town |
| TownsStores.NoMasterMeansOwnPassword | townService/buildcjs/src/lib/TownsStore.js:33-41 | with no master password, set or empty, a password matches iff it is the town's own |
| TownsStores.FindTown | townService/buildcjs/src/lib/TownsStore.js:68-70 | the position of the first town with the id; there is none iff no town has it |
| TownsStores.TownsStore.GetTowns | townService/buildcjs/src/lib/TownsStore.js:74-83 | every public town is listed, and every entry is that of a public town |
| TownsStores.TownsStore.GetTownByID | townService/buildcjs/src/lib/TownsStore.js:68-70 | the first registered town with the id, or none iff no town has it |
| TownsStores.Listings | townService/buildcjs/src/lib/TownsStore.js:74-83 | every public town is listed with its id, name, occupancy and capacity, and every entry is that of a public town |
| TownsStores.ListingsSnoc | townService/buildcjs/src/lib/TownsStore.js:74-83 | the list keeps store order: a town registered last is listed last, and only if it is public |
| TownsStores.WithoutTown | townService/buildcjs/src/lib/TownsStore.js:136 | filtering by reference removes exactly that town and keeps the others |
| TownsStores.WithoutTownConcat | townService/buildcjs/src/lib/TownsStore.js:136 | the filter of a concatenation is the concatenation of the filters, so the remaining towns keep their order |
| TownsStores.WithoutDistinct | townService/buildcjs/src/lib/TownsStore.js:136 | removing a town registered once drops exactly one entry, and the store still holds no town twice |
| TownsStores.TownsStore.constructor | townService/buildcjs/src/lib/TownsStore.js:58-61 | a new store has no towns |
| TownsStores.TownsStore.CreateTown | townService/buildcjs/src/lib/TownsStore.js:90-101 | an empty name is refused before anything is made; otherwise exactly one fresh town is appended; its id is the name when the name equals DEMO_TOWN_ID, and the drawn id otherwise; the public list gains it at the end iff it is public |
| TownsStores.TownsStore.UpdateTown | townService/buildcjs/src/lib/TownsStore.js:110-125 | succeeds iff the town exists, the password matches and no empty name is given; a success applies exactly the given fields to that town; a failure changes no town, so there is never a partial update |
| TownsStores.TownsStore.DeleteTown | townService/buildcjs/src/lib/TownsStore.js:133-141 | succeeds iff the town exists and the password matches; then exactly that town leaves the store and its players are disconnected; a failure changes nothing |

## Left out

- `Town.js` is not part of this model. A town carries only the fields the store reads and writes. Its occupancy and all of its player handling are outside this model.
- `disconnectAllPlayers` is recorded in the ghost list `TownsStore.disconnected`, because what it does inside the town belongs to `Town.js`.
- `TicTacToeGame.js` is not part of this model. Its `join`, `leave` and `applyMove` are represented by a `HookResult` parameter, so nothing is proved about the Tic-Tac-Toe rules.
- `TownsStores.TownsStore.CreateTown`:
  - does not read or parse the map file, and does not initialise the town from the map (I/O and `Town.js`);
  - takes the nanoid town id, the town's update password and its capacity as parameters.
- `TownsStore.initializeTownsStore` and `getInstance` are left out. They only manage the process-wide singleton.
- `Player.townEmitter` is left out. It is a socket handle that the core never reads.
- The `result` field of `Game.toModel` is left out. No code in the core ever sets `_result`, so it is always undefined.
- `Players.Player.constructor`: the id and session token are parameters, not the two `nanoid` values.
- `Games.Game.constructor`: the game id is a parameter, not a `nanoid` value.
- `ConnectFourGameAreas.ConnectFourGameArea.HandleCommand` and `TicTacToeGameAreas.TicTacToeGameArea.HandleCommand` take the new game's id as a parameter. The Tic-Tac-Toe one also takes the new game's initial state.
- Broadcasts are modelled as the events they carry, appended to a ghost log. The sockets, and the timing of delivery, are left out.
- Coordinates are mathematical reals, not IEEE doubles, so rounding and NaN are not modelled. JavaScript's `!width` also refuses NaN, which reals cannot express.
- A map object's absent `properties` is modelled as the empty list. A property value is taken to be a string.
- `InteractableArea.add` and `remove` take a ghost `view` for the overridden `toModel`. The subclass wrappers pass their own model as that view.
- `ConnectFourGameAreas.ConnectFourGameArea.Remove` also ignores the result of the game's `leave`. `ConnectFourGameAreas.LeaveErrorsAreSwallowed` proves that the only error that `leave` can throw is one that `GameArea.remove` swallows. The rethrow branch is modelled in the Tic-Tac-Toe area.
- `ConnectFourGameAreas.ConnectFourGameArea.Remove` records no history after a walk-out. `GameArea.remove` never calls `_stateUpdated`, so this matches the source as written.
- The `default` branch of `_leave`, which throws 'Unexpected game status', cannot be reached. Every state that is not OVER is one of the three other statuses, so the model has no such branch.
- `ConnectFourGameAreas.ConnectFourGameArea.StateUpdated` follows the code as written. A game won by a forfeit (a LeaveGame while in progress) gets no history entry, because its final state has only one seat filled. ConnectFourGameArea.test.js:295-315 expects one entry for a LeaveGame win. `Recorded`, with `ForfeitRecordsWinner`, is the corrected rule: it is proved, but the class does not use it (see the last row of Findings).
- Connect Four rows and columns (`ConnectFourMove`, and the move inside `MoveCommand`) are integers. JavaScript accepts any number there; a column such as 2.5 would pass `_validateMove` as written and write to `board[5][2.5]`. Fractional and non-numeric rows and columns are not modelled.

## Findings

| source | as written | input that shows it | evidently intended | confidence | as-written member | corrected member |
|---|---|---|---|---|---|---|
| townService/buildcjs/src/lib/TownsStore.js:37 | the master-password branch checks that MASTER_TOWN_PASSWORD is set, then compares the password with MASTER_TOWN_PASWORD, a different, misspelled variable | MASTER_TOWN_PASSWORD = "m", MASTER_TOWN_PASWORD unset, password "m" for a town whose password is "p": refused | a password equal to MASTER_TOWN_PASSWORD opens every town | high, not executed | TownsStores.MasterPasswordRefusedAsWritten | TownsStores.MasterOpensEveryTown |
| townService/buildcjs/src/town/games/ConnectFourGame.js:220-228 | `_validateMove` counts the moves in the column and checks the row, but never checks that the column is between 0 and 6 | an in-progress game with no moves, Red to move, Red plays row 5, column 7: accepted | a move must be in one of the 7 columns | high, not executed | ConnectFour.OffBoardColumnAccepted | ConnectFour.LegalDropLandsOnEmptyCell |
| townService/buildcjs/src/town/games/ConnectFourGameArea.js:49-50 | `_stateUpdated` scores a finished game only if both seats of the final state are filled, but `_leave` clears the leaver's seat before it ends the game | red "r", yellow "y", in progress; "r" sends LeaveGame: the game is over and Yellow wins, but the history stays empty | a forfeit is recorded like a win, scored with the seats held before the leave (the area's own test of a LeaveGame win expects an entry) | medium, not executed | ConnectFourGameAreas.ForfeitRecordsNothingAsWritten | ConnectFourGameAreas.ForfeitRecordsWinner |

How each correction is used:

- The store calls `PasswordMatches`.
- `ConnectFourGame.ApplyMove` calls `ValidateMove`.
- The Connect Four area's class follows the code and records with `RecordedAsWritten`. `ForfeitCommandRecordsNothing` shows the effect; `Recorded` and `ForfeitRecordsWinner` state the corrected rule.
