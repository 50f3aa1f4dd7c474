/**
 * town/ConversationArea.js: an area with a topic of conversation.  The topic lasts while
 * somebody is inside; when the last occupant leaves it is cleared and the town is told.
 */
module ConversationAreas {
  import opened Wrappers
  import opened Errors
  import opened Models
  import opened Players
  import opened InteractableAreas

  /** The model of a conversation area with the given occupants. */
  function ConversationView(id: string, topic: Option<string>): seq<PlayerID> -> InteractableModel
  {
    ids => ConversationAreaModel(id, ids, topic)
  }

  class ConversationArea {
    const area: InteractableArea
    var topic: Option<string>

    /** A new area with the model's id and topic; the model's occupant list is not used. */
    constructor(id: string, topic: Option<string>, box: BoundingBox, emitter: Emitter)
      ensures fresh(area) && area.id == id && area.Box() == box && area.emitter == emitter
      ensures area.occupants == [] && this.topic == topic
    {
      area := new InteractableArea(id, box, emitter);
      this.topic := topic;
    }

    /** `toModel`: id, occupant ids and topic. */
    function ToModel(): (m: InteractableModel)
      reads this, area
      ensures m.ConversationAreaModel? && m.id == area.id
      ensures m.occupants == area.OccupantsByID() && m.topic == topic
    {
      ConversationAreaModel(area.id, area.OccupantsByID(), topic)
    }

    /** The inherited `add`; the area broadcast carries the conversation model. */
    method Add(player: Player)
      modifies area`occupants, player`location, area.emitter`log
      ensures area.occupants == old(area.occupants) + [player]
      ensures player.location == old(player.location).(interactableID := Some(area.id))
      ensures area.emitter.log == old(area.emitter.log)
        + [PlayerMoved(player.ToPlayerModel()), InteractableUpdate(ToModel())]
    {
      area.Add(player, ConversationView(area.id, topic));
    }

    /**
     * `remove`: the inherited removal, broadcasting the model with the topic still set; then,
     * if nobody is left, the topic is cleared and the emptied area is broadcast once more.
     */
    method Remove(player: Player)
      modifies this`topic, area`occupants, player`location, area.emitter`log
      ensures area.occupants == WithoutPlayer(old(area.occupants), player)
      ensures player.location == old(player.location).(interactableID := None)
      ensures topic == if area.occupants == [] then None else old(topic)
      ensures area.emitter.log == old(area.emitter.log)
        + [ PlayerMoved(player.ToPlayerModel()),
            InteractableUpdate(ConversationAreaModel(area.id, area.OccupantsByID(), old(topic)))]
        + (if area.occupants == [] then [InteractableUpdate(ToModel())] else [])
    {
      area.Remove(player, ConversationView(area.id, topic));
      if |area.occupants| == 0 {
        topic := None;
        area.EmitAreaChanged(ToModel());
      }
    }

    /** `handleCommand`: a conversation area takes no commands. */
    method HandleCommand(command: InteractableCommand) returns (r: Result<CommandResponse, Error>)
      ensures r == Failure(UnknownCommandType)
    {
      r := Failure(UnknownCommandType);
    }
  }

  /**
   * `fromMapObject`: an area named after the map object, with no topic, or MalformedArea when
   * the object has no usable width or height.
   */
  method FromMapObject(obj: MapObject, emitter: Emitter) returns (r: Result<ConversationArea, Error>)
    ensures r.Failure? <==> RectOf(obj).Failure?
    ensures r.Failure? ==> r.error == MalformedArea
    ensures r.Success? ==>
      && fresh(r.value) && fresh(r.value.area)
      && r.value.area.id == obj.name && r.value.area.Box() == RectOf(obj).value
      && r.value.area.emitter == emitter && r.value.area.occupants == [] && r.value.topic == None
  {
    match RectOf(obj)
    case Failure(e) =>
      r := Failure(e);
    case Success(box) =>
      var a := new ConversationArea(obj.name, None, box, emitter);
      r := Success(a);
  }
}
