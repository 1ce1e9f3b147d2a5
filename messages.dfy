/** The entities the session orchestrator handles, as plain values: the
    participant (`User`), the protobuf messages it writes to participants'
    sockets, and one socket operation (`Delivery`). */
module Messages {
  import opened Wrappers
  import opened Turn

  /** A position as the protobuf `PositionMessage` carries it. */
  datatype PositionMessage = PositionMessage(x: int, y: int, direction: string, moving: bool)

  /** A participant session. `id` is unique within a room; one `uuid` may have
      several concurrent sessions. Every session owns one socket, so a socket
      is named by the session's id. */
  datatype User = User(
    id: nat,
    uuid: string,
    name: string,
    characterLayers: seq<string>,
    position: PositionMessage,
    visitCardUrl: Option<string>,
    companion: Option<string>)

  /** One entry of a `UserListMessage`. */
  datatype UserInfo = UserInfo(userId: nat, name: string, characterLayerName: string)

  /** The `ServerToClientMessage` payloads this model produces. */
  datatype ServerMessage =
    | WebRtcStart(userId: nat, initiator: bool, credentials: Option<Credentials>)
    | WebRtcDisconnect(userId: nat)
    | WebRtcSignalToClient(userId: nat, signal: string, credentials: Option<Credentials>)
    | SendUser(message: string, kind: string)
    | BanUser(message: string, kind: string)
    | RefreshRoom(roomId: string, versionNumber: nat)
    | UserList(users: seq<UserInfo>)
    | WebexSessionResponse(roomId: string, meetingLink: string)
    | WebexSessionError(message: string, location: string)

  /** One operation on a participant's socket: `socket.write(m)` or `socket.end()`. */
  datatype Delivery = Write(to: nat, message: ServerMessage) | End(to: nat)

  /** No two sessions share an id (the room's user map is keyed by id). */
  predicate UniqueIds(users: seq<User>) {
    forall i, j :: 0 <= i < j < |users| ==> users[i].id != users[j].id
  }

  /** The messages in `ds` written to socket `to`, in order. */
  function WritesTo(ds: seq<Delivery>, to: nat): (ms: seq<ServerMessage>)
    ensures |ms| <= |ds|
    decreases |ds|
  {
    if ds == [] then []
    else
      var last := ds[|ds| - 1];
      WritesTo(ds[..|ds| - 1], to) + (if last.Write? && last.to == to then [last.message] else [])
  }

  /** Writes to one socket are unaffected by what is appended for others. */
  lemma WritesToAppend(ds: seq<Delivery>, d: Delivery, to: nat)
    ensures WritesTo(ds + [d], to) == WritesTo(ds, to) + (if d.Write? && d.to == to then [d.message] else [])
  {
    assert (ds + [d])[..|ds|] == ds;
  }
}
