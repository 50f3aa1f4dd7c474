/** lib/Player.js: the record of one connected user. */
module Players {
  import opened Wrappers
  import opened Models

  class Player {
    const id: PlayerID
    const sessionToken: string
    const userName: string
    var location: PlayerLocation
    var videoToken: Option<string>

    /**
     * A new player stands at the origin, facing front, not moving and in no area.
     * The id and session token are the two nanoid values the source draws.
     */
    constructor(userName: string, id: PlayerID, sessionToken: string)
      ensures this.userName == userName && this.id == id && this.sessionToken == sessionToken
      ensures location == PlayerLocation(0.0, 0.0, "front", false, None)
      ensures videoToken == None
    {
      this.userName := userName;
      this.id := id;
      this.sessionToken := sessionToken;
      location := PlayerLocation(0.0, 0.0, "front", false, None);
      videoToken := None;
    }

    /** The `videoToken` setter; reading `videoToken` afterwards gives `token`. */
    method SetVideoToken(token: Option<string>)
      modifies this`videoToken
      ensures videoToken == token
    {
      videoToken := token;
    }

    /** What other clients are told about this player: id, current location and name. */
    function ToPlayerModel(): (m: PlayerModel)
      reads this
      ensures m.id == id && m.userName == userName && m.location == location
    {
      PlayerModel(id, location, userName)
    }
  }
}
