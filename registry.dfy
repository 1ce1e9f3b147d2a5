/** The room registry (`roomsPromises`): at most one in-flight or ready room
    per room id. A promise is modelled by the creation it stands for: creation
    number `ticket` is the `ticket`-th call of the room factory. The promise's
    settlement is an explicit step: `Resolve` (the factory produced a room) or
    `Fail` (the factory rejected, and the `.catch` evicts the id). */
module Registry {
  import opened Wrappers

  datatype Slot<R> = Pending(ticket: nat) | Ready(ticket: nat, room: R)

  /** `entries` is the map; `created[t]` is the room id creation `t` was started for. */
  datatype Registry<R> = Registry(entries: map<string, Slot<R>>, created: seq<string>)

  /** Every entry stands for a creation started for its own id. */
  predicate WellFormed<R>(r: Registry<R>) {
    forall id :: id in r.entries ==> r.entries[id].ticket < |r.created| && r.created[r.entries[id].ticket] == id
  }

  /** How many creations were started for `id`. */
  function Creations<R>(r: Registry<R>, id: string): nat {
    multiset(r.created)[id]
  }

  function Lookup<R>(r: Registry<R>, id: string): Option<Slot<R>> {
    if id in r.entries then Some(r.entries[id]) else None
  }

  /** `getOrCreateRoom(id)`: an existing entry is returned as it is; only when
      there is none is a creation started, stored and returned. No other id is
      touched. */
  function GetOrCreate<R>(r: Registry<R>, id: string): (res: (Registry<R>, Slot<R>))
    ensures Lookup(res.0, id) == Some(res.1)
    ensures id in r.entries ==> res.0 == r && res.1 == r.entries[id]
    ensures id !in r.entries ==> res.1 == Pending(|r.created|) && res.0.created == r.created + [id]
    ensures forall k :: k != id ==> Lookup(res.0, k) == Lookup(r, k)
    ensures WellFormed(r) ==> WellFormed(res.0)
  {
    if id in r.entries then (r, r.entries[id])
    else
      var slot := Pending(|r.created|);
      (Registry(r.entries[id := slot], r.created + [id]), slot)
  }

  /** The creation `ticket` produced `room`. The entry becomes ready only if it
      still stands for that creation; the map's keys never change. */
  function Resolve<R>(r: Registry<R>, id: string, ticket: nat, room: R): (r': Registry<R>)
    ensures r'.created == r.created && r'.entries.Keys == r.entries.Keys
    ensures forall k :: k in r.entries ==> r'.entries[k].ticket == r.entries[k].ticket
    ensures id in r.entries && r.entries[id].Pending? && r.entries[id].ticket == ticket
      ==> r'.entries[id] == Ready(ticket, room)
    ensures forall k :: k != id ==> Lookup(r', k) == Lookup(r, k)
    ensures WellFormed(r) ==> WellFormed(r')
  {
    if id in r.entries && r.entries[id].Pending? && r.entries[id].ticket == ticket
    then Registry(r.entries[id := Ready(ticket, room)], r.created)
    else r
  }

  /** The creation for `id` was rejected: the `.catch` deletes the id's entry. */
  function Fail<R>(r: Registry<R>, id: string): (r': Registry<R>)
    ensures id !in r'.entries && r'.created == r.created
    ensures forall k :: k != id ==> Lookup(r', k) == Lookup(r, k)
    ensures WellFormed(r) ==> WellFormed(r')
  {
    Registry(r.entries - {id}, r.created)
  }

  /** After a room left: its id's entry is deleted exactly when the room is
      empty, and no other entry changes. The entry is deleted whichever
      creation it stands for. */
  function ReleaseIfEmpty<R>(r: Registry<R>, id: string, empty: bool): (r': Registry<R>)
    ensures id in r'.entries <==> id in r.entries && !empty
    ensures r'.created == r.created
    ensures forall k :: k != id ==> Lookup(r', k) == Lookup(r, k)
    ensures !empty ==> r' == r
    ensures WellFormed(r) ==> WellFormed(r')
  {
    if empty then Registry(r.entries - {id}, r.created) else r
  }

  /** A failed creation leaves no trace: the next request for the id starts a
      new creation, distinct from every creation that is still registered. */
  lemma RetryAfterFailure<R>(r: Registry<R>, id: string)
    requires WellFormed(r)
    ensures var (r', slot) := GetOrCreate(Fail(r, id), id);
      && slot == Pending(|r.created|)
      && Creations(r', id) == Creations(r, id) + 1
      && forall k :: k in r.entries ==> r.entries[k].ticket != slot.ticket
  {
    var (r', slot) := GetOrCreate(Fail(r, id), id);
    assert r'.created == r.created + [id];
  }

  /** The registry operations, as a sequence of events. */
  datatype Step<R> =
    | Get(id: string)
    | Settle(id: string, ticket: nat, room: R)
    | Reject(id: string)
    | Release(id: string, empty: bool)

  function Apply<R>(r: Registry<R>, s: Step<R>): Registry<R> {
    match s
    case Get(id) => GetOrCreate(r, id).0
    case Settle(id, ticket, room) => Resolve(r, id, ticket, room)
    case Reject(id) => Fail(r, id)
    case Release(id, empty) => ReleaseIfEmpty(r, id, empty)
  }

  function Run<R>(r: Registry<R>, steps: seq<Step<R>>): Registry<R>
    decreases |steps|
  {
    if steps == [] then r else Run(Apply(r, steps[0]), steps[1..])
  }

  /** The step removes the entry of `id`. */
  predicate Evicts<R>(s: Step<R>, id: string) {
    (s.Reject? && s.id == id) || (s.Release? && s.id == id && s.empty)
  }

  predicate Requests<R>(steps: seq<Step<R>>, id: string) {
    exists i :: 0 <= i < |steps| && steps[i].Get? && steps[i].id == id
  }

  /** De-duplication: over any interleaving of requests, settlements and
      releases that never evicts `id`, at most one creation is started for
      `id` — exactly one if the id had no entry and was requested — and once
      the id has an entry it keeps standing for the same creation, so every
      later request is answered by that creation. */
  lemma {:induction false} OneCreationWhilePresent<R>(r: Registry<R>, steps: seq<Step<R>>, id: string)
    requires forall i :: 0 <= i < |steps| ==> !Evicts(steps[i], id)
    ensures Creations(Run(r, steps), id)
      == Creations(r, id) + (if id !in r.entries && Requests(steps, id) then 1 else 0)
    ensures id in r.entries ==>
      id in Run(r, steps).entries && Run(r, steps).entries[id].ticket == r.entries[id].ticket
    ensures id in Run(r, steps).entries <==> id in r.entries || Requests(steps, id)
    decreases |steps|
  {
    if steps != [] {
      var s := steps[0];
      var r1 := Apply(r, s);
      var rest := steps[1..];
      OneCreationWhilePresent(r1, rest, id);
      assert Creations(r1, id) == Creations(r, id) + (if s.Get? && s.id == id && id !in r.entries then 1 else 0) by {
        if s.Get? && s.id != id && s.id !in r.entries {
          assert r1.created == r.created + [s.id];
        }
        if s.Get? && s.id == id && id !in r.entries {
          assert r1.created == r.created + [id];
        }
      }
      assert (id in r1.entries) <==> (id in r.entries || (s.Get? && s.id == id)) by {
        assert !Evicts(s, id);
      }
      assert id in r.entries ==> r1.entries[id].ticket == r.entries[id].ticket by {
        assert !Evicts(s, id);
      }
      assert Requests(steps, id) <==> (s.Get? && s.id == id) || Requests(rest, id) by {
        if Requests(rest, id) {
          var i :| 0 <= i < |rest| && rest[i].Get? && rest[i].id == id;
          assert steps[i + 1] == rest[i];
        }
        if Requests(steps, id) && !(s.Get? && s.id == id) {
          var i :| 0 <= i < |steps| && steps[i].Get? && steps[i].id == id;
          assert i > 0 && rest[i - 1] == steps[i];
        }
      }
    }
  }

  /** Two requests for an unregistered id, the second made before the first
      creation settles, start one creation and are both answered by it. */
  lemma ConcurrentRequests<R>(r: Registry<R>, id: string)
    requires id !in r.entries
    ensures var (r1, s1) := GetOrCreate(r, id);
      var (r2, s2) := GetOrCreate(r1, id);
      s1 == s2 == Pending(|r.created|) && Creations(r2, id) == Creations(r, id) + 1
  {
    var (r1, s1) := GetOrCreate(r, id);
    assert r1.created == r.created + [id];
  }
}
