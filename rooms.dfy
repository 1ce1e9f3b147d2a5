/** The room as the orchestrator sees it. The room engine itself (zones,
    proximity groups, items, variables) is not part of this model: a room
    here is its URL, its sessions in join order, its connected admins and its
    version counter, with the operations the orchestrator calls on them. */
module Rooms {
  import opened Messages

  /** The sessions without the one whose id is `id` (order kept). */
  function DropId(users: seq<User>, id: nat): (r: seq<User>)
    ensures |r| <= |users|
    decreases |users|
  {
    if users == [] then []
    else (if users[0].id == id then [] else [users[0]]) + DropId(users[1..], id)
  }

  /** The sessions whose ids are not in `ids` (order kept). */
  function DropIds(users: seq<User>, ids: set<nat>): seq<User>
    decreases |users|
  {
    if users == [] then []
    else (if users[0].id in ids then [] else [users[0]]) + DropIds(users[1..], ids)
  }

  /** Exactly the sessions with another id remain. */
  lemma {:induction false} DropIdMembers(users: seq<User>, id: nat)
    ensures forall u :: u in DropId(users, id) <==> u in users && u.id != id
    decreases |users|
  {
    if users != [] {
      DropIdMembers(users[1..], id);
      assert users == [users[0]] + users[1..];
    }
  }

  /** Exactly the sessions whose id is not dropped remain. */
  lemma {:induction false} DropIdsMembers(users: seq<User>, ids: set<nat>)
    ensures forall u :: u in DropIds(users, ids) <==> u in users && u.id !in ids
    decreases |users|
  {
    if users != [] {
      DropIdsMembers(users[1..], ids);
      assert users == [users[0]] + users[1..];
    }
  }

  /** The sessions of one uuid (order kept), what `getUsersByUuid` returns. */
  function UsersByUuid(users: seq<User>, uuid: string): (r: seq<User>)
    ensures forall u :: u in r <==> u in users && u.uuid == uuid
    decreases |users|
  {
    if users == [] then []
    else (if users[0].uuid == uuid then [users[0]] else []) + UsersByUuid(users[1..], uuid)
  }

  /** The sessions of every other uuid (order kept). */
  function DropUuid(users: seq<User>, uuid: string): (r: seq<User>)
    ensures forall u :: u in r <==> u in users && u.uuid != uuid
    decreases |users|
  {
    if users == [] then []
    else (if users[0].uuid == uuid then [] else [users[0]]) + DropUuid(users[1..], uuid)
  }

  function IdsOf(users: seq<User>): set<nat> {
    set u | u in users :: u.id
  }

  /** Dropping no id keeps every session. */
  lemma {:induction false} DropNoIds(users: seq<User>)
    ensures DropIds(users, {}) == users
    decreases |users|
  {
    if users != [] {
      DropNoIds(users[1..]);
      assert [users[0]] + users[1..] == users;
    }
  }

  /** The ids of the first `i + 1` sessions add one id to those of the first `i`. */
  lemma IdsOfStep(users: seq<User>, i: nat)
    requires i < |users|
    ensures IdsOf(users[..i + 1]) == IdsOf(users[..i]) + {users[i].id}
  {
    assert users[..i + 1] == users[..i] + [users[i]];
  }

  /** Leaving one more session is dropping one more id. */
  lemma {:induction false} DropIdsStep(users: seq<User>, ids: set<nat>, id: nat)
    ensures DropId(DropIds(users, ids), id) == DropIds(users, ids + {id})
    decreases |users|
  {
    if users != [] {
      var h, t := users[0], users[1..];
      DropIdsStep(t, ids, id);
      var ids' := ids + {id};
      if h.id in ids {
        assert DropIds(users, ids) == DropIds(t, ids);
        assert DropIds(users, ids') == DropIds(t, ids');
      } else {
        var x := [h] + DropIds(t, ids);
        assert DropIds(users, ids) == x;
        assert x[0] == h && x[1..] == DropIds(t, ids);
        assert DropId(x, id) == (if h.id == id then [] else [h]) + DropId(DropIds(t, ids), id);
        assert DropIds(users, ids') == (if h.id == id then [] else [h]) + DropIds(t, ids');
      }
    }
  }

  /** Making the `i`-th of `leavers` leave, after the first `i` left. */
  lemma LeaveStep(users: seq<User>, leavers: seq<User>, i: nat)
    requires i < |leavers|
    ensures DropId(DropIds(users, IdsOf(leavers[..i])), leavers[i].id) == DropIds(users, IdsOf(leavers[..i + 1]))
  {
    IdsOfStep(leavers, i);
    DropIdsStep(users, IdsOf(leavers[..i]), leavers[i].id);
  }

  lemma {:induction false} DropIdsAgree(users: seq<User>, ids: set<nat>, uuid: string)
    requires forall u :: u in users ==> (u.id in ids <==> u.uuid == uuid)
    ensures DropIds(users, ids) == DropUuid(users, uuid)
    decreases |users|
  {
    if users != [] {
      assert users[0] in users;
      assert forall u :: u in users[1..] ==> u in users;
      DropIdsAgree(users[1..], ids, uuid);
    }
  }

  /** Making every session of a uuid leave, one by one, removes exactly the
      sessions of that uuid and keeps every other session in order. */
  lemma LeavingAllSessionsOfUuid(users: seq<User>, uuid: string)
    requires UniqueIds(users)
    ensures DropIds(users, IdsOf(UsersByUuid(users, uuid))) == DropUuid(users, uuid)
  {
    var rs := UsersByUuid(users, uuid);
    forall u | u in users ensures u.id in IdsOf(rs) <==> u.uuid == uuid {
      if u.id in IdsOf(rs) {
        var v :| v in rs && v.id == u.id;
        var i :| 0 <= i < |users| && users[i] == u;
        var j :| 0 <= j < |users| && users[j] == v;
        assert i == j;
      }
    }
    DropIdsAgree(users, IdsOf(rs), uuid);
  }

  /** Once an id is dropped, dropping it again changes nothing. */
  lemma {:induction false} DropIdTwice(users: seq<User>, id: nat)
    ensures DropId(DropId(users, id), id) == DropId(users, id)
    decreases |users|
  {
    if users != [] {
      DropIdTwice(users[1..], id);
      var rest := DropId(users[1..], id);
      if users[0].id == id {
        assert DropId(users, id) == [] + rest == rest;
      } else {
        var r := [users[0]] + rest;
        assert DropId(users, id) == r;
        assert r[0] == users[0] && r[1..] == rest;
        assert DropId(r, id) == [users[0]] + DropId(rest, id);
      }
    }
  }

  /** Dropping sessions keeps ids unique. */
  lemma {:induction false} DropIdKeepsUnique(users: seq<User>, id: nat)
    requires UniqueIds(users)
    ensures UniqueIds(DropId(users, id))
    decreases |users|
  {
    if users != [] {
      var tail := users[1..];
      assert UniqueIds(tail) by {
        forall i, j | 0 <= i < j < |tail| ensures tail[i].id != tail[j].id {
          assert tail[i] == users[i + 1] && tail[j] == users[j + 1];
        }
      }
      DropIdKeepsUnique(tail, id);
      DropIdMembers(tail, id);
      var r := DropId(tail, id);
      forall u | u in r ensures u.id != users[0].id {
        var k :| 0 <= k < |tail| && tail[k] == u;
        assert users[k + 1] == u;
      }
    }
  }

  class GameRoom {
    const roomUrl: string
    var users: seq<User>
    var admins: set<nat>
    var version: nat

    /** The room's user map is keyed by session id. */
    ghost predicate Valid()
      reads this
    {
      UniqueIds(users)
    }

    constructor (roomUrl: string, version: nat)
      ensures this.roomUrl == roomUrl && this.version == version
      ensures users == [] && admins == {} && Valid()
    {
      this.roomUrl := roomUrl;
      this.version := version;
      users := [];
      admins := {};
    }

    /** No session and no admin: the registry may reclaim the room. */
    predicate IsEmpty(): (e: bool)
      reads this
      ensures e <==> |users| == 0 && |admins| == 0
    {
      users == [] && admins == {}
    }

    function GetUsersByUuid(uuid: string): (r: seq<User>)
      reads this
      ensures forall u :: u in r <==> u in users && u.uuid == uuid
    {
      UsersByUuid(users, uuid)
    }

    /** `room.leave(user)`: the session leaves (by `DropIdTwice`, leaving
        twice changes nothing). */
    method Leave(user: User)
      modifies this
      ensures users == DropId(old(users), user.id)
      ensures admins == old(admins) && version == old(version)
      ensures old(Valid()) ==> Valid()
    {
      if old(Valid()) {
        DropIdKeepsUnique(users, user.id);
      }
      users := DropId(users, user.id);
    }

    /** `room.adminLeave(admin)`. */
    method AdminLeave(adminId: nat)
      modifies this
      ensures admins == old(admins) - {adminId}
      ensures users == old(users) && version == old(version)
      ensures old(Valid()) ==> Valid()
    {
      admins := admins - {adminId};
    }

    /** `room.incrementVersion()`: bumps the counter and returns the new value. */
    method IncrementVersion() returns (v: nat)
      modifies this
      ensures version == old(version) + 1 && v == version
      ensures users == old(users) && admins == old(admins)
      ensures old(Valid()) ==> Valid()
    {
      version := version + 1;
      v := version;
    }
  }
}
