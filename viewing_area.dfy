/**
 * town/ViewingArea.js: an area where the occupants watch a video together.  Its video, play
 * state and progress are set by the clients' updates; the video is dropped when the last
 * occupant leaves.
 */
module ViewingAreas {
  import opened Wrappers
  import opened Errors
  import opened Models
  import opened Players
  import opened InteractableAreas

  /** The model of a viewing area with the given occupants. */
  function ViewingView(id: string, video: Option<string>, isPlaying: bool, elapsedTimeSec: real)
    : seq<PlayerID> -> InteractableModel
  {
    ids => ViewingAreaModel(id, video, isPlaying, elapsedTimeSec, ids)
  }

  class ViewingArea {
    const area: InteractableArea
    var video: Option<string>
    var isPlaying: bool
    var elapsedTimeSec: real

    /** A new area with the model's id, video, play state and progress. */
    constructor(id: string, isPlaying: bool, elapsedTimeSec: real, video: Option<string>,
                box: BoundingBox, emitter: Emitter)
      ensures fresh(area) && area.id == id && area.Box() == box && area.emitter == emitter
      ensures area.occupants == []
      ensures this.video == video && this.isPlaying == isPlaying && this.elapsedTimeSec == elapsedTimeSec
    {
      area := new InteractableArea(id, box, emitter);
      this.video := video;
      this.elapsedTimeSec := elapsedTimeSec;
      this.isPlaying := isPlaying;
    }

    /** `toModel`: id, video, play state, progress and occupant ids. */
    function ToModel(): (m: InteractableModel)
      reads this, area
      ensures m.ViewingAreaModel? && m.id == area.id && m.occupants == area.OccupantsByID()
      ensures m.video == video && m.isPlaying == isPlaying && m.elapsedTimeSec == elapsedTimeSec
    {
      ViewingAreaModel(area.id, video, isPlaying, elapsedTimeSec, area.OccupantsByID())
    }

    /** The inherited `add`; the area broadcast carries the viewing model. */
    method Add(player: Player)
      modifies area`occupants, player`location, area.emitter`log
      ensures area.occupants == old(area.occupants) + [player]
      ensures player.location == old(player.location).(interactableID := Some(area.id))
      ensures area.emitter.log == old(area.emitter.log)
        + [PlayerMoved(player.ToPlayerModel()), InteractableUpdate(ToModel())]
    {
      area.Add(player, ViewingView(area.id, video, isPlaying, elapsedTimeSec));
    }

    /**
     * `remove`: the inherited removal, broadcasting the model with the video still set; then,
     * if nobody is left, the video is dropped and the area is broadcast once more.  The play
     * state and progress are kept.
     */
    method Remove(player: Player)
      modifies this`video, area`occupants, player`location, area.emitter`log
      ensures area.occupants == WithoutPlayer(old(area.occupants), player)
      ensures player.location == old(player.location).(interactableID := None)
      ensures video == if area.occupants == [] then None else old(video)
      ensures area.emitter.log == old(area.emitter.log)
        + [ PlayerMoved(player.ToPlayerModel()),
            InteractableUpdate(ViewingAreaModel(area.id, old(video), isPlaying, elapsedTimeSec,
                                                area.OccupantsByID()))]
        + (if area.occupants == [] then [InteractableUpdate(ToModel())] else [])
    {
      area.Remove(player, ViewingView(area.id, video, isPlaying, elapsedTimeSec));
      if |area.occupants| == 0 {
        video := None;
        area.EmitAreaChanged(ToModel());
      }
    }

    /** `updateModel`: take the video, play state and progress of the update, nothing else. */
    method UpdateModel(update: ViewingAreaInfo)
      modifies this`video, this`isPlaying, this`elapsedTimeSec
      ensures ToModel() == ViewingAreaModel(area.id, update.video, update.isPlaying, update.elapsedTimeSec,
                                            area.OccupantsByID())
    {
      video := update.video;
      isPlaying := update.isPlaying;
      elapsedTimeSec := update.elapsedTimeSec;
    }

    /**
     * `handleCommand`: a ViewingAreaUpdate is applied and answered with an empty response (no
     * broadcast is made here); any other command is refused and changes nothing.
     */
    method HandleCommand(command: InteractableCommand) returns (r: Result<CommandResponse, Error>)
      modifies this`video, this`isPlaying, this`elapsedTimeSec
      ensures r.Success? <==> command.ViewingAreaUpdate?
      ensures r.Success? ==>
        && r.value == EmptyResponse
        && ToModel() == ViewingAreaModel(area.id, command.update.video, command.update.isPlaying,
                                         command.update.elapsedTimeSec, area.OccupantsByID())
      ensures r.Failure? ==>
        r.error == UnknownCommandType && video == old(video) && isPlaying == old(isPlaying)
        && elapsedTimeSec == old(elapsedTimeSec)
    {
      if command.ViewingAreaUpdate? {
        UpdateModel(command.update);
        return Success(EmptyResponse);
      }
      r := Failure(UnknownCommandType);
    }
  }

  /**
   * `fromMapObject`: an area named after the map object, paused at the start with no video,
   * or MalformedArea when the object has no usable width or height.
   */
  method FromMapObject(obj: MapObject, emitter: Emitter) returns (r: Result<ViewingArea, Error>)
    ensures r.Failure? <==> RectOf(obj).Failure?
    ensures r.Failure? ==> r.error == MalformedArea
    ensures r.Success? ==>
      && fresh(r.value) && fresh(r.value.area)
      && r.value.area.id == obj.name && r.value.area.Box() == RectOf(obj).value
      && r.value.area.emitter == emitter && r.value.area.occupants == []
      && r.value.video == None && !r.value.isPlaying && r.value.elapsedTimeSec == 0.0
  {
    match RectOf(obj)
    case Failure(e) =>
      r := Failure(e);
    case Success(box) =>
      var a := new ViewingArea(obj.name, false, 0.0, None, box, emitter);
      r := Success(a);
  }
}
