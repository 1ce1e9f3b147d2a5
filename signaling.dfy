/** The WebRTC mesh signaling the orchestrator performs when the proximity
    engine reports that a user joined or left a group, and the relaying of
    one peer's signal to another. */
module Signaling {
  import opened Wrappers
  import opened Decimal
  import opened Turn
  import opened Messages

  /** The group members other than `user`, in group order (the loops skip
      `user === otherUser`, an identity test, modelled as value equality). */
  function Others(user: User, members: seq<User>): (r: seq<User>)
    ensures |r| <= |members|
    ensures forall o :: o in r <==> o in members && o != user
    decreases |members|
  {
    if members == [] then []
    else
      var last := members[|members| - 1];
      Others(user, members[..|members| - 1]) + (if last == user then [] else [last])
  }

  /** Credentials for the session a signaling message names (`"" + id`). */
  function CredentialsFor(id: nat, config: TurnConfig, nowMs: nat): Option<Credentials> {
    OptionalCredentials(NatToDecimal(id), config, nowMs)
  }

  /** The two start messages for one pair: the joiner is told to initiate
      towards the other member, the other member to answer the joiner. */
  function PairStart(user: User, other: User, config: TurnConfig, nowMs: nat): seq<Delivery> {
    [ Write(user.id, WebRtcStart(other.id, true, CredentialsFor(other.id, config, nowMs))),
      Write(other.id, WebRtcStart(user.id, false, CredentialsFor(user.id, config, nowMs))) ]
  }

  /** Everything `joinWebRtcRoom(user, group)` writes, in order. */
  function StartMessages(user: User, members: seq<User>, config: TurnConfig, nowMs: nat): seq<Delivery>
    decreases |members|
  {
    if members == [] then []
    else
      var last := members[|members| - 1];
      StartMessages(user, members[..|members| - 1], config, nowMs)
        + (if last == user then [] else PairStart(user, last, config, nowMs))
  }

  /** The two disconnect messages for one pair: the other member hears that
      `user` left, and `user` hears about the other member. */
  function PairStop(user: User, other: User): seq<Delivery> {
    [ Write(other.id, WebRtcDisconnect(user.id)), Write(user.id, WebRtcDisconnect(other.id)) ]
  }

  /** Everything `disConnectedUser(user, group)` writes, in order. */
  function StopMessages(user: User, members: seq<User>): seq<Delivery>
    decreases |members|
  {
    if members == [] then []
    else
      var last := members[|members| - 1];
      StopMessages(user, members[..|members| - 1]) + (if last == user then [] else PairStop(user, last))
  }

  /** Start signaling, message by message: two per other member, the first to
      the joiner as initiator naming that member, the second to that member as
      answerer naming the joiner, each with credentials for the session it names. */
  lemma {:induction false} StartMessagesAt(user: User, members: seq<User>, config: TurnConfig, nowMs: nat, k: nat)
    requires k < |Others(user, members)|
    ensures |StartMessages(user, members, config, nowMs)| == 2 * |Others(user, members)|
    ensures var o := Others(user, members)[k];
      && StartMessages(user, members, config, nowMs)[2 * k]
         == Write(user.id, WebRtcStart(o.id, true, CredentialsFor(o.id, config, nowMs)))
      && StartMessages(user, members, config, nowMs)[2 * k + 1]
         == Write(o.id, WebRtcStart(user.id, false, CredentialsFor(user.id, config, nowMs)))
    decreases |members|
  {
    var init := members[..|members| - 1];
    var last := members[|members| - 1];
    var prefix := Others(user, init);
    if k < |prefix| {
      StartMessagesAt(user, init, config, nowMs, k);
    } else {
      StartMessagesLength(user, init, config, nowMs);
    }
    StartMessagesLength(user, members, config, nowMs);
  }

  lemma {:induction false} StartMessagesLength(user: User, members: seq<User>, config: TurnConfig, nowMs: nat)
    ensures |StartMessages(user, members, config, nowMs)| == 2 * |Others(user, members)|
    decreases |members|
  {
    if members != [] {
      StartMessagesLength(user, members[..|members| - 1], config, nowMs);
    }
  }

  /** With session ids unique in the group, nobody is told to start a link
      with themselves, and every start message names a group member. */
  lemma {:induction false} NoSelfStart(user: User, members: seq<User>, config: TurnConfig, nowMs: nat)
    requires forall o :: o in members && o.id == user.id ==> o == user
    ensures forall d :: d in StartMessages(user, members, config, nowMs) ==>
      d.Write? && d.message.WebRtcStart? && d.message.userId != d.to
    decreases |members|
  {
    if members != [] {
      var init := members[..|members| - 1];
      assert forall o :: o in init ==> o in members;
      NoSelfStart(user, init, config, nowMs);
    }
  }

  /** A joiner who belongs to a group of n sessions with distinct ids causes
      exactly 2 * (n - 1) start messages. */
  lemma {:induction false} StartMessagesCount(user: User, members: seq<User>, config: TurnConfig, nowMs: nat)
    requires UniqueIds(members)
    requires user in members
    ensures |StartMessages(user, members, config, nowMs)| == 2 * (|members| - 1)
  {
    StartMessagesLength(user, members, config, nowMs);
    OthersOfMember(user, members);
  }

  lemma {:induction false} OthersOfMember(user: User, members: seq<User>)
    requires UniqueIds(members)
    ensures |Others(user, members)| == if user in members then |members| - 1 else |members|
    decreases |members|
  {
    if members != [] {
      var init := members[..|members| - 1];
      var last := members[|members| - 1];
      assert members == init + [last];
      assert UniqueIds(init) by {
        forall i, j | 0 <= i < j < |init| ensures init[i].id != init[j].id {
          assert init[i] == members[i] && init[j] == members[j];
        }
      }
      OthersOfMember(user, init);
      assert Others(user, members) == Others(user, init) + (if last == user then [] else [last]);
      assert (user in members) == (user in init || user == last);
    }
  }

  /** Stop signaling is symmetric: whoever is told that b disconnected from a,
      b is told in the same call that a disconnected; every stop message goes to
      a pair made of `user` and another group member. */
  lemma {:induction false} StopSymmetric(user: User, members: seq<User>)
    ensures forall d :: d in StopMessages(user, members) ==>
      && d.Write? && d.message.WebRtcDisconnect?
      && Write(d.message.userId, WebRtcDisconnect(d.to)) in StopMessages(user, members)
      && (d.to == user.id || d.message.userId == user.id)
    decreases |members|
  {
    if members != [] {
      StopSymmetric(user, members[..|members| - 1]);
    }
  }

  /** Stop signaling, message by message: two per other member, the first
      telling that member that `user` left, the second telling `user` about
      that member. */
  lemma {:induction false} StopMessagesAt(user: User, members: seq<User>, k: nat)
    requires k < |Others(user, members)|
    ensures |StopMessages(user, members)| == 2 * |Others(user, members)|
    ensures var o := Others(user, members)[k];
      && StopMessages(user, members)[2 * k] == Write(o.id, WebRtcDisconnect(user.id))
      && StopMessages(user, members)[2 * k + 1] == Write(user.id, WebRtcDisconnect(o.id))
    decreases |members|
  {
    var init := members[..|members| - 1];
    if k < |Others(user, init)| {
      StopMessagesAt(user, init, k);
    } else {
      StopMessagesLength(user, init);
    }
    StopMessagesLength(user, members);
  }

  /** With session ids unique in the group, nobody receives a disconnect
      about themselves. */
  lemma {:induction false} NoSelfStop(user: User, members: seq<User>)
    requires forall o :: o in members && o.id == user.id ==> o == user
    ensures forall d :: d in StopMessages(user, members) ==>
      d.Write? && d.message.WebRtcDisconnect? && d.message.userId != d.to
    decreases |members|
  {
    if members != [] {
      var init := members[..|members| - 1];
      assert forall o :: o in init ==> o in members;
      NoSelfStop(user, init);
    }
  }

  lemma {:induction false} StopMessagesLength(user: User, members: seq<User>)
    ensures |StopMessages(user, members)| == 2 * |Others(user, members)|
    decreases |members|
  {
    if members != [] {
      StopMessagesLength(user, members[..|members| - 1]);
    }
  }

  /** The room's session with the given id (`room.getUsers().get(id)`). */
  function FindUser(users: seq<User>, id: nat): (r: Option<User>)
    ensures r.Some? ==> r.value in users && r.value.id == id
    ensures r.None? <==> forall u :: u in users ==> u.id != id
    decreases |users|
  {
    if users == [] then None
    else if users[0].id == id then Some(users[0])
    else FindUser(users[1..], id)
  }

  /** `emitVideo`: the sender's signal goes to the receiver only, and only when
      the receiver is in the room; the message names the sender and carries
      credentials for the sender's id. */
  function EmitVideo(users: seq<User>, sender: User, receiverId: nat, signal: string, config: TurnConfig, nowMs: nat): (ds: seq<Delivery>)
    ensures |ds| <= 1
    ensures ds != [] <==> exists u :: u in users && u.id == receiverId
    ensures ds != [] ==>
      ds[0] == Write(receiverId, WebRtcSignalToClient(sender.id, signal, CredentialsFor(sender.id, config, nowMs)))
  {
    match FindUser(users, receiverId)
    case None => []
    case Some(remote) => [Write(remote.id, WebRtcSignalToClient(sender.id, signal, CredentialsFor(sender.id, config, nowMs)))]
  }
}
