/**
 * town/games/GameArea.js, and the history bookkeeping its two subclasses share
 * (`_stateUpdated` of ConnectFourGameArea.js and TicTacToeGameArea.js): the list of finished
 * games, with one entry per game id, scoring each seat's player by display name.
 */
module GameAreas {
  import opened Wrappers
  import opened Errors
  import opened Models
  import opened Players

  /** `occupants.find(p => p.id === id)`: the position of the first occupant with that id. */
  function FindById(occupants: seq<Player>, id: PlayerID): (r: Option<nat>)
    ensures r.Some? ==> r.value < |occupants| && occupants[r.value].id == id
    ensures r.Some? ==> forall j :: 0 <= j < r.value ==> occupants[j].id != id
    ensures r.None? <==> forall j :: 0 <= j < |occupants| ==> occupants[j].id != id
  {
    if occupants == [] then None
    else if occupants[0].id == id then Some(0)
    else match FindById(occupants[1..], id)
      case None => None
      case Some(k) => Some(k + 1)
  }

  /**
   * `find(...)?.userName || id`: the user name of the first occupant with the id, or the id
   * itself when nobody has it or the name is empty.
   */
  function NameOf(occupants: seq<Player>, id: PlayerID): (name: string)
    ensures name != ""
    ensures name == id || exists j :: 0 <= j < |occupants| && occupants[j].id == id && occupants[j].userName == name
    ensures (forall j :: 0 <= j < |occupants| ==> occupants[j].id != id) ==> name == id
  {
    match FindById(occupants, id)
    case None => id
    case Some(k) => if occupants[k].userName == "" then id else occupants[k].userName
  }

  /** `history.find(r => r.gameID === gameID)` is truthy. */
  predicate HasResult(history: seq<GameResult>, gameID: GameID)
  {
    exists i :: 0 <= i < |history| && history[i].gameID == gameID
  }

  /** No game appears twice in the history. */
  predicate UniqueIds(history: seq<GameResult>)
  {
    forall i, j :: 0 <= i < j < |history| ==> history[i].gameID != history[j].gameID
  }

  /** 1 for the winner, 0 for everybody else, including both in a tie. */
  function Point(winner: Option<PlayerID>, seat: PlayerID): int
  {
    if winner == Some(seat) then 1 else 0
  }

  /**
   * The scores object `{ [firstName]: …, [secondName]: … }`: when both players show the same
   * name there is a single key, holding the second seat's score.
   */
  function Scores(occupants: seq<Player>, first: PlayerID, second: PlayerID, winner: Option<PlayerID>)
    : (scores: map<string, int>)
    ensures scores.Keys == {NameOf(occupants, first), NameOf(occupants, second)}
    ensures scores[NameOf(occupants, second)] == Point(winner, second)
    ensures NameOf(occupants, first) != NameOf(occupants, second) ==>
      scores[NameOf(occupants, first)] == Point(winner, first)
  {
    map[NameOf(occupants, first) := Point(winner, first)][NameOf(occupants, second) := Point(winner, second)]
  }

  /**
   * The recording step of `_stateUpdated`: when the game is over, has no entry yet and both
   * seats are filled, one entry is appended; otherwise the history is unchanged.
   */
  function RecordOutcome(history: seq<GameResult>, gameID: GameID, over: bool,
                         first: Option<PlayerID>, second: Option<PlayerID>,
                         winner: Option<PlayerID>, occupants: seq<Player>): (r: seq<GameResult>)
    ensures r != history <==> over && !HasResult(history, gameID) && first.Some? && second.Some?
    ensures r != history ==>
      r == history + [GameResult(gameID, Scores(occupants, first.value, second.value, winner))]
    ensures UniqueIds(history) ==> UniqueIds(r)
    ensures HasResult(r, gameID) <==> HasResult(history, gameID) || r != history
  {
    if over && !HasResult(history, gameID) && first.Some? && second.Some? then
      var r := history + [GameResult(gameID, Scores(occupants, first.value, second.value, winner))];
      assert r[|history|].gameID == gameID;
      r
    else
      history
  }

  /** A finished game is recorded at most once, however often its area is told it changed. */
  lemma RecordOutcomeIdempotent(history: seq<GameResult>, gameID: GameID, over: bool,
                                first: Option<PlayerID>, second: Option<PlayerID>,
                                winner: Option<PlayerID>, occupants: seq<Player>)
    ensures var once := RecordOutcome(history, gameID, over, first, second, winner, occupants);
      RecordOutcome(once, gameID, over, first, second, winner, occupants) == once
  {
  }

  /**
   * An entry scores exactly the winner with 1 when the two names differ: in a tie both get 0,
   * and a decided game has one winner and one loser.
   */
  lemma ScoresSumToWins(occupants: seq<Player>, first: PlayerID, second: PlayerID, winner: Option<PlayerID>)
    requires first != second && NameOf(occupants, first) != NameOf(occupants, second)
    ensures var s := Scores(occupants, first, second, winner);
      s[NameOf(occupants, first)] + s[NameOf(occupants, second)]
        == (if winner == Some(first) || winner == Some(second) then 1 else 0)
  {
  }

  /**
   * The catch in GameArea.remove: an error from leaving the game is swallowed exactly when it
   * carries the PLAYER_NOT_IN_GAME message, and any other error is thrown on.
   */
  function AfterLeave(thrown: Option<Error>): (r: Outcome<Error>)
    ensures r.Pass? <==> thrown.None? || thrown.value == PlayerNotInGame
    ensures r.Fail? ==> r.error == thrown.value
  {
    match thrown
    case None => Pass
    case Some(e) =>
      NotInGameMessageIdentifies(e);
      if Message(e) == Message(PlayerNotInGame) then Pass else Fail(e)
  }
}
