/** Turning the room engine's zone callbacks into messages for the zone
    listeners (the gateways). A thing that moves through zones is either a
    user or a group (`Movable`); each callback writes one batch holding one
    payload to the listener. */
module ZoneEvents {
  import opened Wrappers
  import opened Messages

  /** A zone of the room's grid, as the engine reports it. */
  datatype Zone = Zone(x: int, y: int)

  /** The protobuf `Zone`. */
  datatype ProtoZone = ProtoZone(x: int, y: int)

  /** A proximity group as the engine reports it; its position is already
      floored to integers. */
  datatype Group = Group(id: nat, x: int, y: int, size: nat)

  datatype Movable = UserThing(user: User) | GroupThing(group: Group)

  /** The `SubToPusherMessage` payloads. A group update from the zone
      snapshot carries no size (`None`). */
  datatype SubToPusher =
    | UserJoinedZone(userId: nat, uuid: string, name: string, characterLayers: seq<string>,
                     position: PositionMessage, fromZone: Option<ProtoZone>,
                     visitCardUrl: Option<string>, companion: Option<string>)
    | UserMoved(userId: nat, position: PositionMessage)
    | UserLeftZone(userId: nat, toZone: Option<ProtoZone>)
    | GroupUpdateZone(groupId: nat, x: int, y: int, groupSize: Option<nat>, fromZone: Option<ProtoZone>)
    | GroupLeftZone(groupId: nat, toZone: Option<ProtoZone>)

  /** One `BatchToPusherMessage` written to one zone listener. */
  datatype ZoneWrite = ZoneWrite(listener: nat, batch: seq<SubToPusher>)

  /** What a payload is about. */
  datatype Subject = AboutUser(userId: nat) | AboutGroup(groupId: nat)

  function SubjectOf(thing: Movable): Subject {
    match thing
    case UserThing(u) => AboutUser(u.id)
    case GroupThing(g) => AboutGroup(g.id)
  }

  function PayloadSubject(p: SubToPusher): Subject {
    match p
    case UserJoinedZone(id, _, _, _, _, _, _, _) => AboutUser(id)
    case UserMoved(id, _) => AboutUser(id)
    case UserLeftZone(id, _) => AboutUser(id)
    case GroupUpdateZone(id, _, _, _, _) => AboutGroup(id)
    case GroupLeftZone(id, _) => AboutGroup(id)
  }

  /** `toProtoZone`: no zone (the engine's null) becomes an absent field. */
  function ToProtoZone(zone: Option<Zone>): (p: Option<ProtoZone>)
    ensures p.Some? <==> zone.Some?
    ensures p.Some? ==> p.value.x == zone.value.x && p.value.y == zone.value.y
  {
    match zone
    case None => None
    case Some(z) => Some(ProtoZone(z.x, z.y))
  }

  /** The visit card URL is set only when it is a non-empty string. */
  function VisitCard(u: User): Option<string> {
    if u.visitCardUrl.Some? && u.visitCardUrl.value != "" then u.visitCardUrl else None
  }

  function UserJoined(u: User, fromZone: Option<ProtoZone>): SubToPusher {
    UserJoinedZone(u.id, u.uuid, u.name, u.characterLayers, u.position, fromZone, VisitCard(u), u.companion)
  }

  /** `emitCreateUpdateGroupEvent`: an update about the group, carrying its
      position, its size and the zone it came from. */
  function GroupUpdate(g: Group, fromZone: Option<Zone>): (p: SubToPusher)
    ensures p.GroupUpdateZone? && PayloadSubject(p) == AboutGroup(g.id)
    ensures p.x == g.x && p.y == g.y && p.groupSize == Some(g.size)
    ensures p.fromZone == ToProtoZone(fromZone)
  {
    GroupUpdateZone(g.id, g.x, g.y, Some(g.size), ToProtoZone(fromZone))
  }

  /** `onZoneEnter`: the thing entered the listener's zone, coming from `fromZone`. */
  function OnZoneEnter(thing: Movable, fromZone: Option<Zone>, listener: nat): (w: ZoneWrite)
    ensures w.listener == listener && |w.batch| == 1
    ensures PayloadSubject(w.batch[0]) == SubjectOf(thing)
    ensures w.batch[0].UserJoinedZone? || w.batch[0].GroupUpdateZone?
    ensures w.batch[0].fromZone == ToProtoZone(fromZone)
  {
    match thing
    case UserThing(u) => ZoneWrite(listener, [UserJoined(u, ToProtoZone(fromZone))])
    case GroupThing(g) => ZoneWrite(listener, [GroupUpdate(g, fromZone)])
  }

  /** `onClientMove`: a user's message carries the user's own current
      position (the callback's position argument is not used); a group's is a
      group update with no zone of origin. */
  function OnClientMove(thing: Movable, position: PositionMessage, listener: nat): (w: ZoneWrite)
    ensures w.listener == listener && |w.batch| == 1
    ensures PayloadSubject(w.batch[0]) == SubjectOf(thing)
    ensures thing.UserThing? ==> w.batch[0] == UserMoved(thing.user.id, thing.user.position)
    ensures thing.GroupThing? ==> w.batch[0].GroupUpdateZone? && w.batch[0].fromZone == None
  {
    match thing
    case UserThing(u) => ZoneWrite(listener, [UserMoved(u.id, u.position)])
    case GroupThing(g) => ZoneWrite(listener, [GroupUpdate(g, None)])
  }

  /** `onClientLeave`: the thing left the listener's zone, heading to `newZone`. */
  function OnClientLeave(thing: Movable, newZone: Option<Zone>, listener: nat): (w: ZoneWrite)
    ensures w.listener == listener && |w.batch| == 1
    ensures PayloadSubject(w.batch[0]) == SubjectOf(thing)
    ensures w.batch[0].UserLeftZone? || w.batch[0].GroupLeftZone?
    ensures w.batch[0].toZone == ToProtoZone(newZone)
  {
    match thing
    case UserThing(u) => ZoneWrite(listener, [UserLeftZone(u.id, ToProtoZone(newZone))])
    case GroupThing(g) => ZoneWrite(listener, [GroupLeftZone(g.id, ToProtoZone(newZone))])
  }

  /** The batch `addZoneListener` writes: one payload per thing in the
      listener's zones, users as joins without a zone of origin, groups as
      updates without a size. */
  function SnapshotBatch(things: seq<Movable>): (batch: seq<SubToPusher>)
    ensures |batch| == |things|
    ensures forall i :: 0 <= i < |things| ==> PayloadSubject(batch[i]) == SubjectOf(things[i])
    ensures forall i :: 0 <= i < |things| ==> batch[i].UserJoinedZone? || batch[i].GroupUpdateZone?
    ensures forall i :: 0 <= i < |things| && batch[i].UserJoinedZone? ==> batch[i].fromZone == None
    ensures forall i :: 0 <= i < |things| && batch[i].GroupUpdateZone? ==>
      batch[i].groupSize == None && batch[i].fromZone == None
    decreases |things|
  {
    if things == [] then []
    else
      var p := match things[0]
        case UserThing(u) => UserJoined(u, None)
        case GroupThing(g) => GroupUpdateZone(g.id, g.x, g.y, None, None);
      [p] + SnapshotBatch(things[1..])
  }
}
