/**
 * town/InteractableArea.js: a rectangle of the town map that players walk into and out of.
 * Every area keeps its occupants and tells the town, through the shared emitter, when a
 * player's area changes and when the area itself changes.
 */
module InteractableAreas {
  import opened Wrappers
  import opened Errors
  import opened Models
  import opened Players

  /** The size of a player's sprite; a location is the centre of the sprite. */
  const PlayerSpriteWidth: real := 32.0
  const PlayerSpriteHeight: real := 64.0

  // ----- Geometry on values ---------------------------------------------------------------

  /**
   * `contains`: some part of a sprite centred at (x, y) lies strictly inside the box, that is,
   * the box widened by half a sprite on every side holds (x, y) in its interior.
   */
  predicate Touches(box: BoundingBox, x: real, y: real)
  {
    && x + PlayerSpriteWidth / 2.0 > box.x
    && x - PlayerSpriteWidth / 2.0 < box.x + box.width
    && y + PlayerSpriteHeight / 2.0 > box.y
    && y - PlayerSpriteHeight / 2.0 < box.y + box.height
  }

  /** `overlaps`: the two boxes, each widened by half a sprite on every side, intersect. */
  predicate Overlaps(a: BoundingBox, b: BoundingBox)
  {
    var ax1 := a.x - PlayerSpriteWidth / 2.0;
    var ax2 := a.x + a.width + PlayerSpriteWidth / 2.0;
    var ay1 := a.y - PlayerSpriteHeight / 2.0;
    var ay2 := a.y + a.height + PlayerSpriteHeight / 2.0;
    var bx1 := b.x - PlayerSpriteWidth / 2.0;
    var bx2 := b.x + b.width + PlayerSpriteWidth / 2.0;
    var by1 := b.y - PlayerSpriteHeight / 2.0;
    var by2 := b.y + b.height + PlayerSpriteHeight / 2.0;
    !(ax1 >= bx2 || bx1 >= ax2 || ay1 >= by2 || by1 >= ay2)
  }

  /** A size that a map rectangle can have: nothing is negative. */
  predicate Sized(box: BoundingBox)
  {
    box.width >= 0.0 && box.height >= 0.0
  }

  predicate Between(lo: real, p: real, hi: real)
  {
    lo < p < hi
  }

  /** Two open intervals that are not empty meet exactly when each starts before the other ends. */
  lemma IntervalsMeet(a1: real, a2: real, b1: real, b2: real)
    requires a1 < a2 && b1 < b2
    ensures (a1 < b2 && b1 < a2) <==> exists p :: Between(a1, p, a2) && Between(b1, p, b2)
  {
    if a1 < b2 && b1 < a2 {
      var lo := if a1 < b1 then b1 else a1;
      var hi := if a2 < b2 then a2 else b2;
      assert Between(a1, (lo + hi) / 2.0, a2) && Between(b1, (lo + hi) / 2.0, b2);
    }
  }

  /**
   * What `overlaps` promises: two areas overlap exactly when one player could stand where
   * both areas contain it.
   */
  lemma OverlapsIffSharedLocation(a: BoundingBox, b: BoundingBox)
    requires Sized(a) && Sized(b)
    ensures Overlaps(a, b) <==> exists x, y :: Touches(a, x, y) && Touches(b, x, y)
  {
    var w := PlayerSpriteWidth / 2.0;
    var h := PlayerSpriteHeight / 2.0;
    IntervalsMeet(a.x - w, a.x + a.width + w, b.x - w, b.x + b.width + w);
    IntervalsMeet(a.y - h, a.y + a.height + h, b.y - h, b.y + b.height + h);
    if Overlaps(a, b) {
      var x :| Between(a.x - w, x, a.x + a.width + w) && Between(b.x - w, x, b.x + b.width + w);
      var y :| Between(a.y - h, y, a.y + a.height + h) && Between(b.y - h, y, b.y + b.height + h);
      assert Touches(a, x, y) && Touches(b, x, y);
    }
    if exists x, y :: Touches(a, x, y) && Touches(b, x, y) {
      var x, y :| Touches(a, x, y) && Touches(b, x, y);
      assert Between(a.x - w, x, a.x + a.width + w) && Between(b.x - w, x, b.x + b.width + w);
      assert Between(a.y - h, y, a.y + a.height + h) && Between(b.y - h, y, b.y + b.height + h);
    }
  }

  /** Does the sprite centred at (x, y) cover the point (px, py), edges excluded? */
  predicate SpriteCovers(x: real, y: real, px: real, py: real)
  {
    Between(x - PlayerSpriteWidth / 2.0, px, x + PlayerSpriteWidth / 2.0)
    && Between(y - PlayerSpriteHeight / 2.0, py, y + PlayerSpriteHeight / 2.0)
  }

  /** Does the box cover the point (px, py), edges excluded? */
  predicate BoxCovers(box: BoundingBox, px: real, py: real)
  {
    Between(box.x, px, box.x + box.width) && Between(box.y, py, box.y + box.height)
  }

  /**
   * What `contains` promises: "any part of the player is within any part of this area".  For a
   * box of positive size, the test holds exactly when sprite and box share an interior point.
   */
  lemma TouchesIffSpriteInsideBox(box: BoundingBox, x: real, y: real)
    requires box.width > 0.0 && box.height > 0.0
    ensures Touches(box, x, y) <==> exists px, py :: SpriteCovers(x, y, px, py) && BoxCovers(box, px, py)
  {
    var w := PlayerSpriteWidth / 2.0;
    var h := PlayerSpriteHeight / 2.0;
    IntervalsMeet(x - w, x + w, box.x, box.x + box.width);
    IntervalsMeet(y - h, y + h, box.y, box.y + box.height);
    if Touches(box, x, y) {
      var px :| Between(x - w, px, x + w) && Between(box.x, px, box.x + box.width);
      var py :| Between(y - h, py, y + h) && Between(box.y, py, box.y + box.height);
      assert SpriteCovers(x, y, px, py) && BoxCovers(box, px, py);
    }
  }

  /**
   * The size check every map-built area makes: a width or height that is missing or zero
   * (falsy in JavaScript) makes the map object malformed.
   */
  function RectOf(obj: MapObject): (r: Result<BoundingBox, Error>)
    ensures r.Failure? <==> obj.width in {None, Some(0.0)} || obj.height in {None, Some(0.0)}
    ensures r.Failure? ==> r.error == MalformedArea
    ensures r.Success? ==> r.value == BoundingBox(obj.x, obj.y, obj.width.value, obj.height.value)
  {
    match (obj.width, obj.height)
    case (Some(w), Some(h)) =>
      if w == 0.0 || h == 0.0 then Failure(MalformedArea) else Success(BoundingBox(obj.x, obj.y, w, h))
    case _ => Failure(MalformedArea)
  }

  // ----- Occupant lists --------------------------------------------------------------------

  /** `occupants.filter(p => p !== player)`: by reference, keeping the others in order. */
  function WithoutPlayer(players: seq<Player>, player: Player): (r: seq<Player>)
    ensures forall i :: 0 <= i < |r| ==> r[i] in players && r[i] != player
    ensures forall i :: 0 <= i < |players| && players[i] != player ==> players[i] in r
    ensures player !in players ==> r == players
    ensures |r| <= |players|
  {
    if players == [] then []
    else if players[0] == player then WithoutPlayer(players[1..], player)
    else [players[0]] + WithoutPlayer(players[1..], player)
  }

  /** The filter works piece by piece, so the remaining occupants keep their order. */
  lemma {:induction false} WithoutPlayerConcat(a: seq<Player>, b: seq<Player>, player: Player)
    ensures WithoutPlayer(a + b, player) == WithoutPlayer(a, player) + WithoutPlayer(b, player)
  {
    if a == [] {
      assert a + b == b;
    } else {
      assert (a + b)[1..] == a[1..] + b;
      WithoutPlayerConcat(a[1..], b, player);
    }
  }

  /** Removing a player seated once between `before` and `after` leaves exactly `before + after`. */
  lemma {:induction false} RemovalKeepsOrder(before: seq<Player>, player: Player, after: seq<Player>)
    requires player !in before && player !in after
    ensures WithoutPlayer(before + [player] + after, player) == before + after
  {
    var single := WithoutPlayer([player], player);
    assert single == [] by {
      assert [player][1..] == [];
    }
    var left := WithoutPlayer(before + [player], player);
    assert left == before by {
      WithoutPlayerConcat(before, [player], player);
    }
    WithoutPlayerConcat(before + [player], after, player);
  }

  /** `occupantsByID`: the ids of the players, in the same order. */
  function IdsOf(players: seq<Player>): (ids: seq<PlayerID>)
    ensures |ids| == |players|
    ensures forall i :: 0 <= i < |players| ==> ids[i] == players[i].id
  {
    if players == [] then [] else IdsOf(players[..|players| - 1]) + [players[|players| - 1].id]
  }

  /** The players whose location the box contains, in their order. */
  function Inside(box: BoundingBox, players: seq<Player>): (r: seq<Player>)
    reads players
    ensures forall i :: 0 <= i < |r| ==> r[i] in players && Touches(box, r[i].location.x, r[i].location.y)
    ensures forall i ::
      0 <= i < |players| && Touches(box, players[i].location.x, players[i].location.y) ==> players[i] in r
    ensures |r| <= |players|
  {
    if players == [] then []
    else
      var rest := Inside(box, players[..|players| - 1]);
      var last := players[|players| - 1];
      assert players == players[..|players| - 1] + [last];
      if Touches(box, last.location.x, last.location.y) then rest + [last] else rest
  }

  /**
   * The players picked from a concatenation are those picked from each part, in the same
   * order; a single player is picked iff the box contains its location.
   */
  lemma {:induction false} InsideConcat(box: BoundingBox, a: seq<Player>, b: seq<Player>)
    ensures Inside(box, a + b) == Inside(box, a) + Inside(box, b)
    ensures forall p :: Inside(box, [p]) == if Touches(box, p.location.x, p.location.y) then [p] else []
    decreases |b|
  {
    forall p ensures Inside(box, [p]) == if Touches(box, p.location.x, p.location.y) then [p] else [] {
      assert [p][..0] == [];
    }
    if b == [] {
      assert a + b == a;
    } else {
      var n := |b| - 1;
      assert (a + b)[..|a + b| - 1] == a + b[..n];
      InsideConcat(box, a, b[..n]);
    }
  }

  lemma IdsOfSnoc(s: seq<Player>, p: Player)
    ensures IdsOf(s + [p]) == IdsOf(s) + [p.id]
  {
    assert (s + [p])[..|s|] == s;
  }

  lemma ModelIdsSnoc(ms: seq<PlayerModel>, j: nat)
    requires j < |ms|
    ensures ModelIds(ms[..j + 1]) == ModelIds(ms[..j]) + [ms[j].id]
  {
    assert ms[..j + 1][..j] == ms[..j];
  }

  lemma ArrivalEventsSnoc(ids: seq<PlayerID>, ms: seq<PlayerModel>, j: nat,
                          view: seq<PlayerID> -> InteractableModel)
    requires j < |ms|
    ensures ArrivalEvents(ids, ms[..j + 1], view) == ArrivalEvents(ids, ms[..j], view)
      + [PlayerMoved(ms[j]), InteractableUpdate(view(ids + ModelIds(ms[..j + 1])))]
  {
    assert ms[..j + 1][..j] == ms[..j];
  }

  /** The ids after one more arrival of a run. */
  lemma IdsStep(ids: seq<PlayerID>, before: seq<Player>, p: Player, ms: seq<PlayerModel>, j: nat)
    requires j < |ms| && p.id == ms[j].id && IdsOf(before) == ids + ModelIds(ms[..j])
    ensures IdsOf(before + [p]) == ids + ModelIds(ms[..j + 1])
  {
    IdsOfSnoc(before, p);
    ModelIdsSnoc(ms, j);
  }

  /** The broadcasts after one more arrival of a run. */
  lemma LogStep(log: seq<Event>, before: seq<Event>, ids: seq<PlayerID>, ms: seq<PlayerModel>, j: nat,
                view: seq<PlayerID> -> InteractableModel)
    requires j < |ms| && before == log + ArrivalEvents(ids, ms[..j], view)
    ensures before + [PlayerMoved(ms[j]), InteractableUpdate(view(ids + ModelIds(ms[..j + 1])))]
      == log + ArrivalEvents(ids, ms[..j + 1], view)
  {
    ArrivalEventsSnoc(ids, ms, j, view);
  }

  /** A run's prefix grows by one player. */
  lemma OccupantsStep(start: seq<Player>, players: seq<Player>, j: nat)
    requires j < |players|
    ensures start + players[..j + 1] == (start + players[..j]) + [players[j]]
  {
    assert players[..j + 1] == players[..j] + [players[j]];
  }

  /** Where a run of `add`s started: the ids, occupants, log, arrival models and locations. */
  datatype Run = Run(ids: seq<PlayerID>, occupants: seq<Player>, log: seq<Event>,
                     models: seq<PlayerModel>, locations: seq<PlayerLocation>)

  /** A player's model once an area has set its `interactableID`. */
  function Arrived(p: PlayerModel, areaID: string): PlayerModel
  {
    p.(location := p.location.(interactableID := Some(areaID)))
  }

  /**
   * The broadcasts of a run of `add`s to an area that held `ids`: for each arrival in order,
   * the player's new location, then the area with the arrivals so far.
   */
  ghost function ArrivalEvents(ids: seq<PlayerID>, arrivals: seq<PlayerModel>,
                               view: seq<PlayerID> -> InteractableModel): (es: seq<Event>)
    ensures |es| == 2 * |arrivals|
  {
    if arrivals == [] then []
    else
      var n := |arrivals| - 1;
      ArrivalEvents(ids, arrivals[..n], view)
        + [PlayerMoved(arrivals[n]), InteractableUpdate(view(ids + ModelIds(arrivals)))]
  }

  /** The ids of player models, in their order: IdsOf for the models a run of `add`s broadcasts. */
  function ModelIds(ms: seq<PlayerModel>): (ids: seq<PlayerID>)
    ensures |ids| == |ms|
    ensures forall i :: 0 <= i < |ms| ==> ids[i] == ms[i].id
  {
    if ms == [] then [] else ModelIds(ms[..|ms| - 1]) + [ms[|ms| - 1].id]
  }

  /** The models of the players, as they were when the run of `add`s began, once arrived. */
  function ArrivalModels(players: seq<Player>, areaID: string): (ms: seq<PlayerModel>)
    reads players
    ensures |ms| == |players|
    ensures forall i :: 0 <= i < |players| ==> ms[i] == Arrived(players[i].ToPlayerModel(), areaID)
  {
    if players == [] then []
    else
      ArrivalModels(players[..|players| - 1], areaID)
        + [Arrived(players[|players| - 1].ToPlayerModel(), areaID)]
  }

  // ----- The area object -------------------------------------------------------------------

  /**
   * The part of every area that InteractableArea.js holds.  Where the source calls the
   * subclass's `toModel` from here, the methods take `view`: the subclass's model as a
   * function of the occupant ids (its other fields do not change during these calls).
   */
  class InteractableArea {
    const id: string
    const x: real
    const y: real
    const width: real
    const height: real
    const emitter: Emitter
    var occupants: seq<Player>

    constructor(id: string, box: BoundingBox, emitter: Emitter)
      ensures this.id == id && Box() == box && this.emitter == emitter
      ensures occupants == []
    {
      this.id := id;
      x := box.x;
      y := box.y;
      width := box.width;
      height := box.height;
      this.emitter := emitter;
      occupants := [];
    }

    /** `boundingBox`: the rectangle the area was made with. */
    function Box(): (b: BoundingBox)
    {
      BoundingBox(x, y, width, height)
    }

    /** `occupantsByID`: one id per occupant, in the order they arrived. */
    function OccupantsByID(): (ids: seq<PlayerID>)
      reads this
      ensures |ids| == |occupants|
      ensures forall i :: 0 <= i < |occupants| ==> ids[i] == occupants[i].id
    {
      IdsOf(occupants)
    }

    /** `isActive` of the base area (and of conversation areas): somebody is inside. */
    predicate IsActive(): (r: bool)
      reads this
      ensures r <==> OccupantsByID() != []
    {
      |occupants| > 0
    }

    /** `contains` on this area's rectangle. */
    predicate Contains(location: PlayerLocation)
    {
      Touches(Box(), location.x, location.y)
    }

    /** `overlaps` with another area. */
    predicate OverlapsWith(other: InteractableArea)
    {
      Overlaps(Box(), other.Box())
    }

    /** A location once this area has set its `interactableID`. */
    function Arrived(location: PlayerLocation): PlayerLocation
    {
      location.(interactableID := Some(id))
    }

    /** `_emitAreaChanged`: broadcast the area's current model. */
    method EmitAreaChanged(ghost model: InteractableModel)
      modifies emitter`log
      ensures emitter.log == old(emitter.log) + [InteractableUpdate(model)]
    {
      emitter.log := emitter.log + [InteractableUpdate(model)];
    }

    /**
     * `add`: the player becomes the last occupant and is placed in this area; the town hears
     * the player's new location and then the area's new model.
     */
    method Add(player: Player, ghost view: seq<PlayerID> -> InteractableModel)
      modifies this`occupants, player`location, emitter`log
      ensures occupants == old(occupants) + [player]
      ensures player.location == old(player.location).(interactableID := Some(id))
      ensures emitter.log == old(emitter.log)
        + [PlayerMoved(player.ToPlayerModel()), InteractableUpdate(view(OccupantsByID()))]
    {
      occupants := occupants + [player];
      player.location := player.location.(interactableID := Some(id));
      emitter.log := emitter.log + [PlayerMoved(player.ToPlayerModel())];
      EmitAreaChanged(view(OccupantsByID()));
    }

    /**
     * `remove`: every occurrence of the player leaves the occupants, the player is in no area,
     * and the town hears the player's location and then the area's new model.
     */
    method Remove(player: Player, ghost view: seq<PlayerID> -> InteractableModel)
      modifies this`occupants, player`location, emitter`log
      ensures occupants == WithoutPlayer(old(occupants), player)
      ensures player.location == old(player.location).(interactableID := None)
      ensures emitter.log == old(emitter.log)
        + [PlayerMoved(player.ToPlayerModel()), InteractableUpdate(view(OccupantsByID()))]
    {
      occupants := WithoutPlayer(occupants, player);
      player.location := player.location.(interactableID := None);
      emitter.log := emitter.log + [PlayerMoved(player.ToPlayerModel())];
      EmitAreaChanged(view(OccupantsByID()));
    }

    /** The `filter` step of `addPlayersWithinBounds`: the given players this area contains. */
    method PlayersWithin(all: seq<Player>) returns (chosen: seq<Player>)
      ensures chosen == Inside(Box(), all)
    {
      chosen := [];
      var i := 0;
      while i < |all|
        invariant 0 <= i <= |all|
        invariant chosen == Inside(Box(), all[..i])
      {
        assert all[..i + 1][..i] == all[..i];
        if Contains(all[i].location) {
          chosen := chosen + [all[i]];
        }
        i := i + 1;
      }
      assert all[..i] == all;
    }

    /**
     * The `forEach(add)` step of `addPlayersWithinBounds`: each player is added in turn, so
     * the town hears, per player, its new location and then the area with it inside.
     */
    method AddEach(players: seq<Player>, ghost view: seq<PlayerID> -> InteractableModel)
      modifies this`occupants, players`location, emitter`log
      ensures occupants == old(occupants) + players
      ensures forall k :: 0 <= k < |players| ==>
        players[k].location == old(players[k].location).(interactableID := Some(id))
      ensures emitter.log == old(emitter.log)
        + ArrivalEvents(old(OccupantsByID()), old(ArrivalModels(players, id)), view)
    {
      ghost var run := Run(OccupantsByID(), occupants, emitter.log, ArrivalModels(players, id),
        seq(|players|, k requires 0 <= k < |players| reads players => players[k].location));
      var j := 0;
      while j < |players|
        invariant 0 <= j <= |players|
        invariant Progress(players, j, run, view)
      {
        AddNext(players, j, run, view);
        j := j + 1;
      }
      assert players[..j] == players;
      assert run.models[..j] == run.models;
    }

    /**
     * How far a run of `add`s has come after `j` of `players`: the first `j` are occupants, each
     * player's location differs from its starting one at most in the area it is in, the first
     * `j` are in this area, and the town has heard the first `j` arrivals.
     */
    ghost predicate Progress(players: seq<Player>, j: nat, run: Run,
                             view: seq<PlayerID> -> InteractableModel)
      reads this, players, emitter
    {
      && j <= |players| == |run.models| == |run.locations|
      && occupants == run.occupants + players[..j]
      && (forall k :: 0 <= k < |players| ==> Arrived(players[k].location) == Arrived(run.locations[k]))
      && (forall k :: 0 <= k < j ==> players[k].location.interactableID == Some(id))
      && (forall k :: 0 <= k < |players| ==>
            run.models[k] == PlayerModel(players[k].id, Arrived(run.locations[k]), players[k].userName))
      && OccupantsByID() == run.ids + ModelIds(run.models[..j])
      && emitter.log == run.log + ArrivalEvents(run.ids, run.models[..j], view)
    }

    /** One `add` of the run. */
    method AddNext(players: seq<Player>, j: nat, ghost run: Run, ghost view: seq<PlayerID> -> InteractableModel)
      requires j < |players| && Progress(players, j, run, view)
      modifies this`occupants, players`location, emitter`log
      ensures Progress(players, j + 1, run, view)
    {
      var p := players[j];
      ghost var arrived := Arrived(p.location);
      IdsStep(run.ids, occupants, p, run.models, j);
      LogStep(run.log, emitter.log, run.ids, run.models, j, view);
      OccupantsStep(run.occupants, players, j);
      Add(p, view);
      assert p.location == arrived;
      assert p.ToPlayerModel() == run.models[j];
    }

    /**
     * `addPlayersWithinBounds`: the players the area contains are chosen first, then added one
     * after the other, in the order given; nobody else moves.
     */
    method AddPlayersWithinBounds(all: seq<Player>, ghost view: seq<PlayerID> -> InteractableModel)
      modifies this`occupants, all`location, emitter`log
      ensures occupants == old(occupants) + old(Inside(Box(), all))
      ensures forall k :: 0 <= k < |all| ==>
        all[k].location == if all[k] in old(Inside(Box(), all))
          then old(all[k].location).(interactableID := Some(id)) else old(all[k].location)
      ensures emitter.log == old(emitter.log)
        + ArrivalEvents(old(OccupantsByID()), old(ArrivalModels(Inside(Box(), all), id)), view)
    {
      var chosen := PlayersWithin(all);
      AddEach(chosen, view);
    }
  }
}
