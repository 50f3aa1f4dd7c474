/**
 * town/games/GameAreaFactory.js: builds the game area a map object describes, choosing the
 * game by the object's `type` property.
 */
module GameAreaFactories {
  import opened Wrappers
  import opened Errors
  import opened Models
  import opened InteractableAreas
  import opened ConnectFourGameAreas
  import opened TicTacToeGameAreas

  /** The two kinds of game area a map can hold. */
  datatype GameKind = TicTacToeKind | ConnectFourKind

  /** A game area the factory built. */
  datatype GameAreaRef = TicTacToeRef(tic: TicTacToeGameArea) | ConnectFourRef(four: ConnectFourGameArea)

  /**
   * `properties?.find(p => p.name === 'type')?.value`: the value of the first property named
   * 'type', if there is one (an absent property list is the empty one).
   */
  function TypeProperty(properties: seq<MapProperty>): (r: Option<string>)
    ensures r.None? <==> forall i :: 0 <= i < |properties| ==> properties[i].name != "type"
    ensures r.Some? ==>
      exists i :: 0 <= i < |properties| && properties[i].name == "type" && properties[i].value == r.value &&
                  forall j :: 0 <= j < i ==> properties[j].name != "type"
  {
    if properties == [] then None
    else if properties[0].name == "type" then Some(properties[0].value)
    else
      var r := TypeProperty(properties[1..]);
      if r.Some? then
        ghost var i :| 1 <= i < |properties| && properties[i].name == "type" && properties[i].value == r.value
          && forall j :: 1 <= j < i ==> properties[j].name != "type";
        assert properties[i - 1 + 1] == properties[1..][i - 1];
        r
      else r
  }

  /**
   * What the factory decides for a map object: a malformed size is refused first, then the
   * 'type' property picks the game, and any other or missing type is refused.
   */
  function KindOf(obj: MapObject): (r: Result<GameKind, Error>)
    ensures RectOf(obj).Failure? ==> r == Failure(MalformedArea)
    ensures RectOf(obj).Success? ==>
      r == match TypeProperty(obj.properties)
        case Some("TicTacToe") => Success(TicTacToeKind)
        case Some("ConnectFour") => Success(ConnectFourKind)
        case _ => Failure(UnknownGameAreaType)
  {
    if RectOf(obj).Failure? then Failure(MalformedArea)
    else
      var kind := TypeProperty(obj.properties);
      if kind == Some("TicTacToe") then Success(TicTacToeKind)
      else if kind == Some("ConnectFour") then Success(ConnectFourKind)
      else Failure(UnknownGameAreaType)
  }

  /** Only the first 'type' property counts: a later one cannot change the kind. */
  lemma {:induction false} FirstTypeWins(properties: seq<MapProperty>, value: string, rest: seq<MapProperty>)
    ensures TypeProperty([MapProperty("type", value)] + rest) == Some(value)
    ensures forall q :: TypeProperty(properties + [q] + rest) != TypeProperty(properties + rest) ==>
      TypeProperty(properties) == None
  {
    assert ([MapProperty("type", value)] + rest)[0] == MapProperty("type", value);
    forall q | TypeProperty(properties + [q] + rest) != TypeProperty(properties + rest)
      ensures TypeProperty(properties) == None
    {
      PrefixDecides(properties, [q] + rest, rest);
      assert properties + [q] + rest == properties + ([q] + rest);
    }
  }

  /** A 'type' property found in a prefix fixes the result, whatever comes after it. */
  lemma {:induction false} PrefixDecides(prefix: seq<MapProperty>, a: seq<MapProperty>, b: seq<MapProperty>)
    ensures TypeProperty(prefix).Some? ==> TypeProperty(prefix + a) == TypeProperty(prefix + b)
  {
    if prefix != [] {
      assert (prefix + a)[0] == prefix[0] && (prefix + b)[0] == prefix[0];
      assert (prefix + a)[1..] == prefix[1..] + a;
      assert (prefix + b)[1..] == prefix[1..] + b;
      PrefixDecides(prefix[1..], a, b);
    }
  }

  /**
   * `GameAreaFactory`: the area KindOf picks, named after the map object, covering the
   * object's rectangle, with no occupants, no game and no history.
   */
  method GameAreaFactory(obj: MapObject, emitter: Emitter) returns (r: Result<GameAreaRef, Error>)
    ensures r.Failure? <==> KindOf(obj).Failure?
    ensures r.Failure? ==> r.error == KindOf(obj).error
    ensures r.Success? ==> (r.value.TicTacToeRef? <==> KindOf(obj) == Success(TicTacToeKind))
    ensures r.Success? && r.value.TicTacToeRef? ==>
      var a := r.value.tic;
      && fresh(a) && fresh(a.area) && a.area.id == obj.name && a.area.Box() == RectOf(obj).value
      && a.area.emitter == emitter && a.area.occupants == [] && a.game == null && a.history == []
    ensures r.Success? && r.value.ConnectFourRef? ==>
      var a := r.value.four;
      && fresh(a) && fresh(a.area) && a.area.id == obj.name && a.area.Box() == RectOf(obj).value
      && a.area.emitter == emitter && a.area.occupants == [] && a.game == null && a.history == []
      && a.Valid()
  {
    match RectOf(obj)
    case Failure(e) =>
      r := Failure(e);
    case Success(box) =>
      var kind := TypeProperty(obj.properties);
      if kind == Some("TicTacToe") {
        var a := new TicTacToeGameArea(obj.name, box, emitter);
        r := Success(TicTacToeRef(a));
      } else if kind == Some("ConnectFour") {
        var a := new ConnectFourGameArea(obj.name, box, emitter);
        r := Success(ConnectFourRef(a));
      } else {
        r := Failure(UnknownGameAreaType);
      }
  }
}
