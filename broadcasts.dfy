/** What the orchestrator writes when it addresses a list of sessions: the
    user list after a departure, admin messages, bans and room refreshes. */
module Broadcasts {
  import opened Messages

  /** The `type` field of an admin message (the source sets "ban"). */
  const AdminMessageKind: string := "ban"
  /** The `type` field of a ban notice. */
  const BannedKind: string := "banned"

  /** One write of `m` to each recipient, in recipient order. */
  function Broadcast(recipients: seq<User>, m: ServerMessage): seq<Delivery>
    decreases |recipients|
  {
    if recipients == [] then []
    else Broadcast(recipients[..|recipients| - 1], m) + [Write(recipients[|recipients| - 1].id, m)]
  }

  /** With distinct session ids, a broadcast reaches every recipient exactly
      once and nobody else at all. */
  lemma {:induction false} BroadcastReachesEachOnce(recipients: seq<User>, m: ServerMessage, id: nat)
    requires UniqueIds(recipients)
    ensures WritesTo(Broadcast(recipients, m), id)
      == if exists u :: u in recipients && u.id == id then [m] else []
    decreases |recipients|
  {
    if recipients != [] {
      var init := recipients[..|recipients| - 1];
      var last := recipients[|recipients| - 1];
      assert recipients == init + [last];
      assert UniqueIds(init) by {
        forall i, j | 0 <= i < j < |init| ensures init[i].id != init[j].id {
          assert init[i] == recipients[i] && init[j] == recipients[j];
        }
      }
      BroadcastReachesEachOnce(init, m, id);
      WritesToAppend(Broadcast(init, m), Write(last.id, m), id);
      if last.id == id {
        forall u | u in init ensures u.id != id {
          var k :| 0 <= k < |init| && init[k] == u;
          assert recipients[k] == u;
        }
      }
    }
  }

  /** A broadcast to one more recipient writes once more, at the end. */
  lemma BroadcastAppend(recipients: seq<User>, u: User, m: ServerMessage)
    ensures Broadcast(recipients + [u], m) == Broadcast(recipients, m) + [Write(u.id, m)]
  {
    assert (recipients + [u])[..|recipients|] == recipients;
  }

  /** The sessions whose socket is still writable (order kept). */
  function WritableOnly(users: seq<User>, writable: set<nat>): seq<User>
    decreases |users|
  {
    if users == [] then []
    else
      var last := users[|users| - 1];
      WritableOnly(users[..|users| - 1], writable) + (if last.id in writable then [last] else [])
  }

  /** Exactly the writable sessions are kept. */
  lemma {:induction false} WritableOnlyMembers(users: seq<User>, writable: set<nat>)
    ensures forall u :: u in WritableOnly(users, writable) <==> u in users && u.id in writable
    decreases |users|
  {
    if users != [] {
      var init := users[..|users| - 1];
      WritableOnlyMembers(init, writable);
      assert users == init + [users[|users| - 1]];
    }
  }

  /** Filtering one more session keeps the earlier result as a prefix. */
  lemma WritableOnlyAppend(users: seq<User>, u: User, writable: set<nat>)
    ensures WritableOnly(users + [u], writable)
      == WritableOnly(users, writable) + (if u.id in writable then [u] else [])
  {
    assert (users + [u])[..|users|] == users;
  }

  /** The user-list writes to the first `i + 1` sessions extend those to the first `i`. */
  lemma WritableBroadcastStep(users: seq<User>, i: nat, writable: set<nat>, m: ServerMessage)
    requires i < |users|
    ensures Broadcast(WritableOnly(users[..i + 1], writable), m)
      == Broadcast(WritableOnly(users[..i], writable), m)
         + (if users[i].id in writable then [Write(users[i].id, m)] else [])
  {
    assert users[..i + 1] == users[..i] + [users[i]];
    WritableOnlyAppend(users[..i], users[i], writable);
    var ws := WritableOnly(users[..i], writable);
    if users[i].id in writable {
      BroadcastAppend(ws, users[i], m);
    } else {
      assert ws + [] == ws;
    }
  }

  lemma {:induction false} WritableOnlyUnique(users: seq<User>, writable: set<nat>)
    requires UniqueIds(users)
    ensures UniqueIds(WritableOnly(users, writable))
    decreases |users|
  {
    if users != [] {
      var init := users[..|users| - 1];
      var last := users[|users| - 1];
      assert UniqueIds(init) by {
        forall i, j | 0 <= i < j < |init| ensures init[i].id != init[j].id {
          assert init[i] == users[i] && init[j] == users[j];
        }
      }
      WritableOnlyUnique(init, writable);
      WritableOnlyMembers(init, writable);
      var r := WritableOnly(init, writable);
      forall u | u in r ensures u.id != last.id {
        var k :| 0 <= k < |init| && init[k] == u;
        assert users[k] == u;
      }
    }
  }

  /** The first character layer's name, or "" for a user without layers. */
  function FirstLayerName(layers: seq<string>): string {
    if |layers| > 0 then layers[0] else ""
  }

  /** The entries of the `UserListMessage` built by `updateUserList`: one per
      session, in room order. */
  function UserInfos(users: seq<User>): (infos: seq<UserInfo>)
    ensures |infos| == |users|
    ensures forall i :: 0 <= i < |users| ==>
      infos[i] == UserInfo(users[i].id, users[i].name, FirstLayerName(users[i].characterLayers))
    decreases |users|
  {
    if users == [] then []
    else [UserInfo(users[0].id, users[0].name, FirstLayerName(users[0].characterLayers))] + UserInfos(users[1..])
  }

  /** `updateUserList(room)`: the list of every session, written to each
      session whose socket is writable. */
  function UserListBroadcast(users: seq<User>, writable: set<nat>): seq<Delivery> {
    Broadcast(WritableOnly(users, writable), UserList(UserInfos(users)))
  }

  /** After a departure, each remaining session with a writable socket gets
      the full list exactly once; every other socket gets nothing. */
  lemma UserListReachesWritable(users: seq<User>, writable: set<nat>, id: nat)
    requires UniqueIds(users)
    ensures WritesTo(UserListBroadcast(users, writable), id)
      == if id in writable && exists u :: u in users && u.id == id then [UserList(UserInfos(users))] else []
  {
    WritableOnlyUnique(users, writable);
    WritableOnlyMembers(users, writable);
    BroadcastReachesEachOnce(WritableOnly(users, writable), UserList(UserInfos(users)), id);
  }

  /** `banUser`'s writes: to each recipient the ban notice, then the end of its socket. */
  function BanDeliveries(recipients: seq<User>, message: string): seq<Delivery>
    decreases |recipients|
  {
    if recipients == [] then []
    else
      var last := recipients[|recipients| - 1];
      BanDeliveries(recipients[..|recipients| - 1], message)
        + [Write(last.id, BanUser(message, BannedKind)), End(last.id)]
  }

  /** Banning one more session appends its notice and the end of its socket. */
  lemma BanDeliveriesStep(recipients: seq<User>, i: nat, message: string)
    requires i < |recipients|
    ensures BanDeliveries(recipients[..i + 1], message)
      == BanDeliveries(recipients[..i], message)
         + [Write(recipients[i].id, BanUser(message, BannedKind)), End(recipients[i].id)]
  {
    assert recipients[..i + 1][..i] == recipients[..i];
  }

  /** Every banned session is told why before its socket is closed, and the
      notices follow the recipient order. */
  lemma {:induction false} BanDeliveriesAt(recipients: seq<User>, message: string, k: nat)
    requires k < |recipients|
    ensures |BanDeliveries(recipients, message)| == 2 * |recipients|
    ensures BanDeliveries(recipients, message)[2 * k] == Write(recipients[k].id, BanUser(message, BannedKind))
    ensures BanDeliveries(recipients, message)[2 * k + 1] == End(recipients[k].id)
    decreases |recipients|
  {
    var init := recipients[..|recipients| - 1];
    BanDeliveriesLength(init, message);
    if k < |init| {
      BanDeliveriesAt(init, message, k);
    }
  }

  lemma {:induction false} BanDeliveriesLength(recipients: seq<User>, message: string)
    ensures |BanDeliveries(recipients, message)| == 2 * |recipients|
    decreases |recipients|
  {
    if recipients != [] {
      BanDeliveriesLength(recipients[..|recipients| - 1], message);
    }
  }
}
