/** The session orchestrator (`SocketManager`): the registry of rooms being
    created or ready, the Webex meeting map, and every write it makes to
    participants' sockets, recorded in order in `sent`. Callbacks the room
    engine invokes (group joins and leaves) are methods called with the
    engine's arguments; the clock is a parameter. */
module SocketManagerService {
  import opened Wrappers
  import opened Turn
  import opened Messages
  import opened Signaling
  import opened Rooms
  import opened Broadcasts
  import opened Meetings
  import R = Registry

  /** How a best-effort admin operation ended. `AwaitingRoom`: the room is
      still being created; the source awaits it, the model performs nothing. */
  datatype AdminOutcome = RoomNotFound | AwaitingRoom | UserNotFound | Delivered

  class SocketManager {
    /** TURN_STATIC_AUTH_SECRET and the keyed hash. */
    const turn: TurnConfig
    var roomsPromises: map<string, R.Slot<GameRoom>>
    /** The room id of every room creation started, in order. */
    var created: seq<string>
    var webexMeetings: map<string, MeetingData>
    var sent: seq<Delivery>

    function Registry(): R.Registry<GameRoom>
      reads this
    {
      R.Registry(roomsPromises, created)
    }

    /** The rooms whose creation has settled. */
    function ReadyRooms(): set<GameRoom>
      reads this
    {
      set id | id in roomsPromises && roomsPromises[id].Ready? :: roomsPromises[id].room
    }

    /** Every entry stands for a creation of its own id, and a ready room is
        registered under its own URL and keys its sessions by id. */
    ghost predicate Valid()
      reads this, ReadyRooms()
    {
      && R.WellFormed(Registry())
      && (forall id :: id in roomsPromises && roomsPromises[id].Ready? ==> roomsPromises[id].room.roomUrl == id)
      && (forall room :: room in ReadyRooms() ==> room.Valid())
    }

    constructor (turn: TurnConfig)
      ensures Valid() && this.turn == turn
      ensures roomsPromises == map[] && created == [] && webexMeetings == map[] && sent == []
    {
      this.turn := turn;
      roomsPromises := map[];
      created := [];
      webexMeetings := map[];
      sent := [];
    }

    /** The ready room registered under `roomId`, if any. */
    function RoomAt(roomId: string): set<GameRoom>
      reads this
    {
      if roomId in roomsPromises && roomsPromises[roomId].Ready? then {roomsPromises[roomId].room} else {}
    }

    /** `getOrCreateRoom(roomId)`. */
    method GetOrCreateRoom(roomId: string) returns (slot: R.Slot<GameRoom>)
      requires Valid()
      modifies this`roomsPromises, this`created
      ensures Valid()
      ensures (Registry(), slot) == R.GetOrCreate(old(Registry()), roomId)
    {
      if roomId in roomsPromises {
        slot := roomsPromises[roomId];
      } else {
        slot := R.Pending(|created|);
        roomsPromises := roomsPromises[roomId := slot];
        created := created + [roomId];
      }
    }

    /** The room factory's promise for creation `ticket` resolved with `room`. */
    method ResolveCreation(roomId: string, ticket: nat, room: GameRoom)
      requires Valid() && room.roomUrl == roomId && room.Valid()
      modifies this`roomsPromises
      ensures Valid()
      ensures Registry() == R.Resolve(old(Registry()), roomId, ticket, room)
    {
      if roomId in roomsPromises && roomsPromises[roomId].Pending? && roomsPromises[roomId].ticket == ticket {
        roomsPromises := roomsPromises[roomId := R.Ready(ticket, room)];
      }
    }

    /** The room factory's promise for `roomId` rejected: its `.catch` evicts the id. */
    method FailCreation(roomId: string)
      requires Valid()
      modifies this`roomsPromises
      ensures Valid()
      ensures Registry() == R.Fail(old(Registry()), roomId)
    {
      roomsPromises := roomsPromises - {roomId};
    }

    /** The registry step both leave paths end with. */
    method ReleaseIfEmpty(room: GameRoom)
      requires Valid()
      modifies this`roomsPromises
      ensures Valid()
      ensures Registry() == R.ReleaseIfEmpty(old(Registry()), room.roomUrl, room.IsEmpty())
    {
      if room.IsEmpty() {
        roomsPromises := roomsPromises - {room.roomUrl};
      }
    }

    /** One write of `m` to each recipient, in order. */
    method Emit(recipients: seq<User>, m: ServerMessage)
      modifies this`sent
      ensures sent == old(sent) + Broadcast(recipients, m)
    {
      var i := 0;
      while i < |recipients|
        invariant 0 <= i <= |recipients|
        invariant sent == old(sent) + Broadcast(recipients[..i], m)
      {
        assert recipients[..i + 1][..i] == recipients[..i];
        sent := sent + [Write(recipients[i].id, m)];
        i := i + 1;
      }
      assert recipients[..i] == recipients;
    }

    /** The write loop of `updateUserList`: `m` to each writable session, in order. */
    method WriteToWritable(users: seq<User>, writable: set<nat>, m: ServerMessage)
      modifies this`sent
      ensures sent == old(sent) + Broadcast(WritableOnly(users, writable), m)
    {
      var i := 0;
      while i < |users|
        invariant 0 <= i <= |users|
        invariant sent == old(sent) + Broadcast(WritableOnly(users[..i], writable), m)
      {
        WritableBroadcastStep(users, i, writable, m);
        if users[i].id in writable {
          sent := sent + [Write(users[i].id, m)];
        }
        i := i + 1;
      }
      assert users[..i] == users;
    }

    /** `updateUserList(room)`: the list of all sessions, to each writable socket. */
    method UpdateUserList(room: GameRoom, writable: set<nat>)
      modifies this`sent
      ensures sent == old(sent) + UserListBroadcast(room.users, writable)
    {
      WriteToWritable(room.users, writable, UserList(UserInfos(room.users)));
    }

    /** `leaveRoom(room, user)`: the owner's meeting entry goes, the session
        leaves, the remaining writable sessions get the new user list, and
        the registry entry for the room's URL is deleted iff the room is now
        empty. `writable` is the set of sessions whose socket is writable. */
    method LeaveRoom(room: GameRoom, user: User, writable: set<nat>)
      requires Valid() && room.Valid()
      modifies this`webexMeetings, this`sent, this`roomsPromises, room
      ensures Valid() && room.Valid()
      ensures webexMeetings == ReleaseMeeting(old(webexMeetings), room.roomUrl, user.id)
      ensures room.users == DropId(old(room.users), user.id)
      ensures room.admins == old(room.admins) && room.version == old(room.version)
      ensures sent == old(sent) + UserListBroadcast(room.users, writable)
      ensures Registry() == R.ReleaseIfEmpty(old(Registry()), room.roomUrl, room.IsEmpty())
    {
      if room.roomUrl in webexMeetings && webexMeetings[room.roomUrl].userId == user.id {
        webexMeetings := webexMeetings - {room.roomUrl};
      }
      room.Leave(user);
      assert webexMeetings == ReleaseMeeting(old(webexMeetings), room.roomUrl, user.id);
      assert Valid();
      UpdateUserList(room, writable);
      assert Valid();
      ReleaseIfEmpty(room);
    }

    /** `leaveAdminRoom(room, admin)`. */
    method LeaveAdminRoom(room: GameRoom, adminId: nat)
      requires Valid()
      modifies this`roomsPromises, room
      ensures Valid() && (old(room.Valid()) ==> room.Valid())
      ensures room.admins == old(room.admins) - {adminId}
      ensures room.users == old(room.users) && room.version == old(room.version)
      ensures Registry() == R.ReleaseIfEmpty(old(Registry()), room.roomUrl, room.IsEmpty())
    {
      room.AdminLeave(adminId);
      ReleaseIfEmpty(room);
    }

    /** `sendAdminMessage(roomId, uuid, message)`: one message to every
        session of the uuid, nothing at all when the room or the uuid is
        unknown. */
    method SendAdminMessage(roomId: string, uuid: string, message: string) returns (outcome: AdminOutcome)
      requires Valid()
      modifies this`sent
      ensures Valid()
      ensures roomId !in roomsPromises ==> outcome == RoomNotFound && sent == old(sent)
      ensures roomId in roomsPromises && roomsPromises[roomId].Pending? ==> outcome == AwaitingRoom && sent == old(sent)
      ensures roomId in roomsPromises && roomsPromises[roomId].Ready? ==>
        var rs := UsersByUuid(roomsPromises[roomId].room.users, uuid);
        && (rs == [] ==> outcome == UserNotFound && sent == old(sent))
        && (rs != [] ==> outcome == Delivered && sent == old(sent) + Broadcast(rs, SendUser(message, AdminMessageKind)))
    {
      if roomId !in roomsPromises {
        return RoomNotFound;
      }
      match roomsPromises[roomId]
      case Pending(_) =>
        outcome := AwaitingRoom;
      case Ready(_, room) =>
        var recipients := room.GetUsersByUuid(uuid);
        if recipients == [] {
          return UserNotFound;
        }
        Emit(recipients, SendUser(message, AdminMessageKind));
        outcome := Delivered;
    }

    /** The loop of `banUser`: each recipient leaves the room, is sent the
        ban notice and has its socket ended, in order. */
    method BanSessions(room: GameRoom, recipients: seq<User>, message: string)
      modifies this`sent, room
      ensures room.users == DropIds(old(room.users), IdsOf(recipients))
      ensures room.admins == old(room.admins) && room.version == old(room.version)
      ensures sent == old(sent) + BanDeliveries(recipients, message)
      ensures old(room.Valid()) ==> room.Valid()
    {
      ghost var users0 := room.users;
      DropNoIds(users0);
      assert IdsOf(recipients[..0]) == {};
      var i := 0;
      while i < |recipients|
        invariant 0 <= i <= |recipients|
        invariant room.users == DropIds(users0, IdsOf(recipients[..i]))
        invariant room.admins == old(room.admins) && room.version == old(room.version)
        invariant sent == old(sent) + BanDeliveries(recipients[..i], message)
        invariant old(room.Valid()) ==> room.Valid()
      {
        var r := recipients[i];
        LeaveStep(users0, recipients, i);
        BanDeliveriesStep(recipients, i, message);
        ghost var prev := sent;
        room.Leave(r);
        assert room.users == DropIds(users0, IdsOf(recipients[..i + 1]));
        sent := sent + [Write(r.id, ServerMessage.BanUser(message, BannedKind)), End(r.id)];
        assert sent == old(sent) + BanDeliveries(recipients[..i + 1], message) by {
          assert prev == old(sent) + BanDeliveries(recipients[..i], message);
        }
        i := i + 1;
      }
      assert recipients[..i] == recipients;
    }

    /** `banUser(roomId, uuid, message)`: every session of the uuid leaves the
        room, is sent the ban notice and has its socket ended; nothing happens
        when the room or the uuid is unknown. */
    method BanUser(roomId: string, uuid: string, message: string) returns (outcome: AdminOutcome)
      requires Valid()
      modifies this`sent, RoomAt(roomId)
      ensures Valid()
      ensures roomId !in roomsPromises ==> outcome == RoomNotFound && sent == old(sent)
      ensures roomId in roomsPromises && roomsPromises[roomId].Pending? ==> outcome == AwaitingRoom && sent == old(sent)
      ensures roomId in roomsPromises && roomsPromises[roomId].Ready? ==>
        var room := roomsPromises[roomId].room;
        var rs := UsersByUuid(old(room.users), uuid);
        && room.admins == old(room.admins) && room.version == old(room.version)
        && (rs == [] ==> outcome == UserNotFound && sent == old(sent) && room.users == old(room.users))
        && (rs != [] ==> outcome == Delivered && sent == old(sent) + BanDeliveries(rs, message)
                         && room.users == DropUuid(old(room.users), uuid))
    {
      if roomId !in roomsPromises {
        return RoomNotFound;
      }
      match roomsPromises[roomId]
      case Pending(_) =>
        outcome := AwaitingRoom;
      case Ready(_, room) =>
        var recipients := room.GetUsersByUuid(uuid);
        if recipients == [] {
          return UserNotFound;
        }
        assert room in ReadyRooms();
        LeavingAllSessionsOfUuid(room.users, uuid);
        BanSessions(room, recipients, message);
        outcome := Delivered;
    }

    /** `dispatchRoomRefresh(roomId)`: the version is bumped once and that
        same number is sent to every session. */
    method DispatchRoomRefresh(roomId: string) returns (outcome: AdminOutcome)
      requires Valid()
      modifies this`sent, RoomAt(roomId)
      ensures Valid()
      ensures roomId !in roomsPromises ==> outcome == RoomNotFound && sent == old(sent)
      ensures roomId in roomsPromises && roomsPromises[roomId].Pending? ==> outcome == AwaitingRoom && sent == old(sent)
      ensures roomId in roomsPromises && roomsPromises[roomId].Ready? ==>
        var room := roomsPromises[roomId].room;
        && outcome == Delivered
        && room.version == old(room.version) + 1
        && room.users == old(room.users) && room.admins == old(room.admins)
        && sent == old(sent) + Broadcast(room.users, RefreshRoom(roomId, room.version))
    {
      if roomId !in roomsPromises {
        return RoomNotFound;
      }
      match roomsPromises[roomId]
      case Pending(_) =>
        outcome := AwaitingRoom;
      case Ready(_, room) =>
        var versionNumber := room.IncrementVersion();
        Emit(room.users, RefreshRoom(roomId, versionNumber));
        outcome := Delivered;
    }

    /** `joinWebRtcRoom(user, group)`, the engine's callback when `user` joins
        a group whose members are `members`. */
    method JoinWebRtcRoom(user: User, members: seq<User>, nowMs: nat)
      modifies this`sent
      ensures sent == old(sent) + StartMessages(user, members, turn, nowMs)
    {
      var i := 0;
      while i < |members|
        invariant 0 <= i <= |members|
        invariant sent == old(sent) + StartMessages(user, members[..i], turn, nowMs)
      {
        assert members[..i + 1][..i] == members[..i];
        var other := members[i];
        i := i + 1;
        if user == other {
          continue;
        }
        sent := sent + [Write(user.id, WebRtcStart(other.id, true, CredentialsFor(other.id, turn, nowMs)))];
        sent := sent + [Write(other.id, WebRtcStart(user.id, false, CredentialsFor(user.id, turn, nowMs)))];
      }
      assert members[..i] == members;
    }

    /** `disConnectedUser(user, group)`, the engine's callback when `user`
        leaves a group whose members are `members`. */
    method DisconnectedUser(user: User, members: seq<User>)
      modifies this`sent
      ensures sent == old(sent) + StopMessages(user, members)
    {
      var i := 0;
      while i < |members|
        invariant 0 <= i <= |members|
        invariant sent == old(sent) + StopMessages(user, members[..i])
      {
        assert members[..i + 1][..i] == members[..i];
        var other := members[i];
        i := i + 1;
        if user == other {
          continue;
        }
        sent := sent + [Write(other.id, WebRtcDisconnect(user.id))];
        sent := sent + [Write(user.id, WebRtcDisconnect(other.id))];
      }
      assert members[..i] == members;
    }

    /** `emitVideo(room, user, data)`: relays a WebRTC signal to its receiver. */
    method EmitVideo(room: GameRoom, user: User, receiverId: nat, signal: string, nowMs: nat)
      modifies this`sent
      ensures sent == old(sent) + Signaling.EmitVideo(room.users, user, receiverId, signal, turn, nowMs)
    {
      var remote := FindUser(room.users, receiverId);
      if remote.None? {
        return;
      }
      var credentials := CredentialsFor(user.id, turn, nowMs);
      sent := sent + [Write(remote.value.id, WebRtcSignalToClient(user.id, signal, credentials))];
    }

    /** `handleWebexSessionQuery(user, query)` once the provider call, if any,
        has settled with `creation`; `parse` stands for `Date.parse`. The map
        of known meetings is only read. */
    method HandleWebexSessionQuery(user: User, roomId: string, parse: string -> Option<int>, nowMs: int, creation: MeetingCreation)
      modifies this`sent
      ensures sent == old(sent)
        + [Write(user.id, WebexSessionReply(roomId, if roomId in webexMeetings then Some(webexMeetings[roomId]) else None, parse, nowMs, creation))]
    {
      var meet := if roomId in webexMeetings then Some(webexMeetings[roomId]) else None;
      var reply := WebexSessionReply(roomId, meet, parse, nowMs, creation);
      sent := sent + [Write(user.id, reply)];
    }
  }
}
