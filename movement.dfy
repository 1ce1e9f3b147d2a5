/** Movement load-shedding in `handleUserMovesMessage`: while the CPU is
    overheating, updates of users still in motion are dropped, so that only
    the resting position is dispatched; malformed updates are rejected. */
module Movement {
  import opened Wrappers
  import opened Messages

  datatype Viewport = Viewport(left: int, top: int, right: int, bottom: int)

  /** A `UserMovesMessage`; either field may be missing. */
  datatype UserMovesMessage = UserMovesMessage(position: Option<PositionMessage>, viewport: Option<Viewport>)

  /** What happens to one update: dropped, rejected with the error it throws,
      or handed to `room.updatePosition`. */
  datatype MoveOutcome = Shed | Rejected(error: string) | UpdatePosition(position: PositionMessage)

  /** The handler's decision. Shedding is tested first, on
      `position?.moving === true`, which is false when there is no position. */
  function HandleUserMoves(overheating: bool, msg: UserMovesMessage): (o: MoveOutcome)
    ensures o.Shed? <==> overheating && msg.position.Some? && msg.position.value.moving
    ensures o.UpdatePosition? ==> msg.position == Some(o.position) && msg.viewport.Some?
    ensures o.Rejected? <==> !o.Shed? && (msg.position.None? || msg.viewport.None?)
  {
    var moving := if msg.position.Some? then Some(msg.position.value.moving) else None;
    if overheating && moving == Some(true) then Shed
    else if msg.position.None? then Rejected("Position not found in message")
    else if msg.viewport.None? then Rejected("Viewport not found in message")
    else UpdatePosition(msg.position.value)
  }

  /** The positions that reach the room, over a stream of updates. */
  function Applied(overheating: seq<bool>, msgs: seq<UserMovesMessage>): (ps: seq<PositionMessage>)
    requires |overheating| == |msgs|
    ensures |ps| <= |msgs|
    decreases |msgs|
  {
    if msgs == [] then []
    else
      var o := HandleUserMoves(overheating[0], msgs[0]);
      (if o.UpdatePosition? then [o.position] else []) + Applied(overheating[1..], msgs[1..])
  }

  /** An update that has a position and a viewport and is not in motion always
      reaches the room, whatever the load. */
  lemma RestingUpdateNeverShed(overheating: bool, msg: UserMovesMessage)
    requires msg.position.Some? && msg.viewport.Some? && !msg.position.value.moving
    ensures HandleUserMoves(overheating, msg) == UpdatePosition(msg.position.value)
  {
  }

  /** Under sustained load, a run of moving updates followed by one resting
      update applies exactly the resting position. */
  lemma {:induction false} OnlyRestingPositionUnderLoad(overheating: seq<bool>, msgs: seq<UserMovesMessage>)
    requires |overheating| == |msgs| && |msgs| >= 1
    requires forall i :: 0 <= i < |overheating| ==> overheating[i]
    requires forall i :: 0 <= i < |msgs| - 1 ==> msgs[i].position.Some? && msgs[i].position.value.moving
    requires var last := msgs[|msgs| - 1];
      last.position.Some? && last.viewport.Some? && !last.position.value.moving
    ensures Applied(overheating, msgs) == [msgs[|msgs| - 1].position.value]
    decreases |msgs|
  {
    if |msgs| > 1 {
      OnlyRestingPositionUnderLoad(overheating[1..], msgs[1..]);
    }
  }

  /** Without load nothing well-formed is shed: every update with a position
      and a viewport is applied, in order. */
  lemma {:induction false} NoSheddingWithoutLoad(overheating: seq<bool>, msgs: seq<UserMovesMessage>)
    requires |overheating| == |msgs|
    requires forall i :: 0 <= i < |overheating| ==> !overheating[i]
    requires forall i :: 0 <= i < |msgs| ==> msgs[i].position.Some? && msgs[i].viewport.Some?
    ensures |Applied(overheating, msgs)| == |msgs|
    ensures forall i :: 0 <= i < |msgs| ==> Applied(overheating, msgs)[i] == msgs[i].position.value
    decreases |msgs|
  {
    if msgs != [] {
      NoSheddingWithoutLoad(overheating[1..], msgs[1..]);
    }
  }
}
