/**
 The table of pending op promises (core/00_infra.js): a ring for the last `RING_SIZE` ids and a
 map for older ones.
 */
module PromiseRing {
  import opened Options
  import opened Sequences

  const RING_SIZE := 4 * 1024
  const ID_LIMIT := 0x8000_0000

  type Promise = nat

  datatype Settlement = Settlement(promise: Promise, value: int, isOk: bool)

  /** What an op returns to its async stub. */
  datatype OpResult = Value(v: int) | Throw(err: int) | Undefined

  /** What the stub returns to its caller. */
  datatype StubResult = Resolved(v: int) | Rejected(err: int) | Deferred(id: int, promise: Promise)

  /** `x & 0xffffffff`: a signed 32-bit result. */
  function ToInt32(x: int): int {
    var m := x % 0x1_0000_0000;
    if m < ID_LIMIT then m else m - 0x1_0000_0000
  }

  /** The id in the window of the last `RING_SIZE` ids before `next` that slot `i` belongs to. */
  function Owner(next: int, i: int): int {
    next - 1 - (next - 1 - i) % RING_SIZE
  }

  lemma OwnerInWindow(next: int, i: int)
    requires 0 <= i < RING_SIZE
    ensures next - RING_SIZE <= Owner(next, i) < next && Owner(next, i) % RING_SIZE == i
  {
    var q := (next - 1 - i) / RING_SIZE;
    assert Owner(next, i) == i + q * RING_SIZE;
  }

  lemma SameSlot(a: int, b: int)
    requires a % RING_SIZE == b % RING_SIZE && -RING_SIZE < a - b < RING_SIZE
    ensures a == b
  {
  }

  lemma OwnerOfRecent(next: int, id: int)
    requires next - RING_SIZE <= id < next
    ensures Owner(next, id % RING_SIZE) == id
  {
    OwnerInWindow(next, id % RING_SIZE);
    SameSlot(Owner(next, id % RING_SIZE), id);
  }

  /** Issuing id `next` hands one slot over, from the id that falls out of the window. */
  lemma OwnerShifts(next: int, i: int)
    requires 0 <= i < RING_SIZE
    ensures Owner(next + 1, next % RING_SIZE) == next && Owner(next, next % RING_SIZE) == next - RING_SIZE
    ensures i != next % RING_SIZE ==> Owner(next + 1, i) == Owner(next, i)
  {
    OwnerOfRecent(next + 1, next);
    assert (next - RING_SIZE) % RING_SIZE == next % RING_SIZE;
    OwnerOfRecent(next, next - RING_SIZE);
    if i != next % RING_SIZE {
      OwnerInWindow(next, i);
      OwnerOfRecent(next + 1, Owner(next, i));
    }
  }

  // ---------------------------------------------------------------- the invariant

  function Slot(pending: map<int, Promise>, id: int): Option<Promise> {
    if id in pending then Some(pending[id]) else None
  }

  /** Ring and map together hold exactly the pending promises: a slot that of its owner, the map those
      whose ids have left the window. */
  ghost predicate Inv(next: int, ring: seq<Option<Promise>>, overflow: map<int, Promise>, pending: map<int, Promise>) {
    && 0 <= next < ID_LIMIT
    && |ring| == RING_SIZE
    && (forall id :: id in pending ==> 0 <= id < next)
    && (forall i :: 0 <= i < RING_SIZE ==> ring[i] == Slot(pending, Owner(next, i)))
    && (forall id :: id in overflow <==> id in pending && id < next - RING_SIZE)
    && (forall id :: id in overflow ==> overflow[id] == pending[id])
  }

  /** The id that a lookup of `id` finds: itself if it was issued, and otherwise the issued id that
      shares its slot. */
  function Found(next: int, id: int): int {
    if id < next then id else Owner(next, id % RING_SIZE)
  }

  lemma Lookup(next: int, ring: seq<Option<Promise>>, overflow: map<int, Promise>, pending: map<int, Promise>, id: int)
    requires Inv(next, ring, overflow, pending)
    ensures id < next - RING_SIZE ==> Slot(overflow, id) == Slot(pending, Found(next, id))
    ensures id >= next - RING_SIZE ==> ring[id % RING_SIZE] == Slot(pending, Found(next, id))
                                       && next - RING_SIZE <= Found(next, id) < next
                                       && Found(next, id) % RING_SIZE == id % RING_SIZE
  {
    if id >= next - RING_SIZE {
      if id < next {
        OwnerOfRecent(next, id);
      } else {
        OwnerInWindow(next, id % RING_SIZE);
      }
    }
  }

  lemma Issue(next: int, ring: seq<Option<Promise>>, overflow: map<int, Promise>, pending: map<int, Promise>,
              p: Promise)
    requires Inv(next, ring, overflow, pending) && next + 1 < ID_LIMIT
    ensures var i := next % RING_SIZE;
      && next !in pending
      && ring[i] == Slot(pending, next - RING_SIZE)
      && Inv(next + 1, ring[i := Some(p)],
             if ring[i].Some? then overflow[next - RING_SIZE := ring[i].value] else overflow, pending[next := p])
  {
    var i := next % RING_SIZE;
    var ring' := ring[i := Some(p)];
    OwnerShifts(next, i);
    forall j | 0 <= j < RING_SIZE
      ensures ring'[j] == Slot(pending[next := p], Owner(next + 1, j))
    {
      OwnerShifts(next, j);
      OwnerInWindow(next, j);
    }
  }

  lemma Settle(next: int, ring: seq<Option<Promise>>, overflow: map<int, Promise>, pending: map<int, Promise>, id: int)
    requires Inv(next, ring, overflow, pending) && id in pending
    ensures if id < next - RING_SIZE then Inv(next, ring, overflow - {id}, pending - {id})
            else Inv(next, ring[id % RING_SIZE := None], overflow, pending - {id})
  {
    if id >= next - RING_SIZE {
      OwnerOfRecent(next, id);
    }
    forall j | 0 <= j < RING_SIZE && (id < next - RING_SIZE || j != id % RING_SIZE)
      ensures ring[j] == Slot(pending - {id}, Owner(next, j))
    {
      OwnerInWindow(next, j);
    }
  }

  /** Every promise is pending under one id at most, and once settled it is neither pending nor settled
      again. */
  ghost predicate Identities(pending: map<int, Promise>, settled: seq<Settlement>, nextPromise: Promise) {
    && (forall id :: id in pending ==> pending[id] < nextPromise)
    && (forall a, b :: a in pending && b in pending && pending[a] == pending[b] ==> a == b)
    && (forall i :: 0 <= i < |settled| ==> settled[i].promise < nextPromise)
    && (forall i, id :: 0 <= i < |settled| && id in pending ==> pending[id] != settled[i].promise)
    && (forall i, j :: 0 <= i < j < |settled| ==> settled[i].promise != settled[j].promise)
  }

  datatype Event = Call(result: OpResult) | Resolve(id: int, value: int, isOk: bool)

  /** The plain table that the ring and the map refine: the next id, what is pending, and what was settled. */
  datatype State = State(next: int, nextPromise: Promise, pending: map<int, Promise>, settled: seq<Settlement>)

  ghost predicate Called(v: State, result: OpResult, w: State) {
    w == if result.Undefined? then
           v.(next := v.next + 1, nextPromise := v.nextPromise + 1, pending := v.pending[v.next := v.nextPromise])
         else v
  }

  /** The promise found under an id is settled; under an id that was issued, that is its own one. */
  ghost predicate Settles(v: State, id: int, value: int, isOk: bool, w: State) {
    var t := Found(v.next, id);
    && (id < v.next ==> t == id)
    && w == if t in v.pending then
              v.(pending := v.pending - {t}, settled := v.settled + [Settlement(v.pending[t], value, isOk)])
            else v
  }

  /** One event; at the id limit, ops are not called any more. */
  ghost predicate Step(v: State, e: Event, w: State) {
    match e
    case Call(result) => if v.next + 1 < ID_LIMIT then Called(v, result, w) else w == v
    case Resolve(id, value, isOk) => Settles(v, id, value, isOk, w)
  }

  ghost predicate Runs(v: State, events: seq<Event>, w: State) {
    if events == [] then w == v
    else exists u :: Runs(v, DropLast(events), u) && Step(u, Last(events), w)
  }

  // ---------------------------------------------------------------- the table

  class Table {
    var nextPromiseId: int
    var promiseMap: map<int, Promise>
    const promiseRing: array<Option<Promise>>
    var nextPromise: Promise
    var settled: seq<Settlement>

    ghost var pending: map<int, Promise>

    ghost function View(): State
      reads this
    {
      State(nextPromiseId, nextPromise, pending, settled)
    }

    ghost predicate Valid()
      reads this, promiseRing
    {
      && promiseRing.Length == RING_SIZE
      && Inv(nextPromiseId, promiseRing[..], promiseMap, pending)
      && Identities(pending, settled, nextPromise)
    }

    constructor ()
      ensures Valid() && fresh(promiseRing) && nextPromiseId == 0 && pending == map[] && settled == []
    {
      nextPromiseId, promiseMap, nextPromise, settled := 0, map[], 0, [];
      promiseRing := new Option<Promise>[RING_SIZE](_ => None);
      pending := map[];
    }

    /** An async stub around an op that does not call other stubs. */
    method CallOp(result: OpResult) returns (r: StubResult)
      requires Valid() && nextPromiseId + 1 < ID_LIMIT
      modifies `nextPromiseId, `promiseMap, `nextPromise, `pending, promiseRing
      ensures Valid() && Called(old(View()), result, View())
      ensures r == match result
                   case Value(v) => Resolved(v)
                   case Throw(err) => Rejected(err)
                   case Undefined => Deferred(old(nextPromiseId), old(nextPromise))
      ensures result.Undefined? ==> old(nextPromiseId) !in old(pending)
    {
      var id := nextPromiseId;
      match result
      case Value(v) => r := Resolved(v);
      case Throw(err) => r := Rejected(err);
      case Undefined =>
        nextPromiseId := ToInt32(id + 1);
        var promise := SetPromise(id);
        r := Deferred(id, promise);
    }

    /** `setPromise`, right after its id was issued. */
    method SetPromise(id: int) returns (promise: Promise)
      requires promiseRing.Length == RING_SIZE && nextPromiseId == id + 1 < ID_LIMIT
      requires Inv(id, promiseRing[..], promiseMap, pending)
      requires Identities(pending, settled, nextPromise)
      modifies `promiseMap, `nextPromise, `pending, promiseRing
      ensures Valid() && promise == old(nextPromise) && nextPromise == promise + 1
      ensures id !in old(pending) && pending == old(pending)[id := promise]
    {
      ghost var ring := promiseRing[..];
      promise := nextPromise;
      Issue(id, ring, promiseMap, pending, promise);
      var idx := id % RING_SIZE;
      var oldPromise := promiseRing[idx];
      if oldPromise.Some? {
        promiseMap := promiseMap[id - RING_SIZE := oldPromise.value];
      }
      nextPromise := nextPromise + 1;
      promiseRing[idx] := Some(promise);
      assert promiseRing[..] == ring[idx := Some(promise)];
      pending := pending[id := promise];
    }

    /** `__resolvePromise`; false stands for the exception about a missing promise. */
    method ResolvePromise(id: int, value: int, isOk: bool) returns (found: bool)
      requires Valid()
      modifies `promiseMap, `settled, `pending, promiseRing
      ensures Valid()
      ensures found <==> Found(nextPromiseId, id) in old(pending)
      ensures 0 <= id < nextPromiseId ==> (found <==> id in old(pending))
      ensures Settles(old(View()), id, value, isOk, View())
    {
      ghost var ring, t := promiseRing[..], Found(nextPromiseId, id);
      Lookup(nextPromiseId, ring, promiseMap, pending, id);
      if t in pending {
        Settle(nextPromiseId, ring, promiseMap, pending, t);
      }
      if id < nextPromiseId - RING_SIZE {
        if id !in promiseMap {
          return false;
        }
        var promise := promiseMap[id];
        promiseMap := promiseMap - {id};
        settled := settled + [Settlement(promise, value, isOk)];
      } else {
        var idx := id % RING_SIZE;
        var slot := promiseRing[idx];
        if slot.None? {
          return false;
        }
        promiseRing[idx] := None;
        assert promiseRing[..] == ring[idx := None];
        settled := settled + [Settlement(slot.value, value, isOk)];
      }
      pending := pending - {t};
      return true;
    }

    /** `hasPromise`. */
    method HasPromise(id: int) returns (has: bool)
      requires Valid()
      ensures has <==> Found(nextPromiseId, id) in pending
      ensures id < nextPromiseId ==> (has <==> id in pending)
    {
      Lookup(nextPromiseId, promiseRing[..], promiseMap, pending, id);
      if id < nextPromiseId - RING_SIZE {
        return id in promiseMap;
      }
      return promiseRing[id % RING_SIZE].Some?;
    }

    /** Every run of ops and completions, up to the id limit. */
    method Run(events: seq<Event>)
      requires Valid()
      modifies this, promiseRing
      ensures Valid() && Runs(old(View()), events, View())
    {
      hide Inv, Identities, Step;
      for i := 0 to |events|
        invariant Valid() && Runs(old(View()), events[..i], View())
      {
        Do(events[i]);
        PrefixMore(events, i);
      }
      assert events[..|events|] == events;
    }

    method Do(e: Event)
      requires Valid()
      modifies this, promiseRing
      ensures Valid() && Step(old(View()), e, View())
    {
      hide Inv, Identities;
      match e
      case Call(result) => if nextPromiseId + 1 < ID_LIMIT { var _ := CallOp(result); }
      case Resolve(id, value, isOk) => var _ := ResolvePromise(id, value, isOk);
    }
  }
}
