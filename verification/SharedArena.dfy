/**
 `ArenaShared` and `ArenaRc` (core/arena/shared_arena.rs): reference-counted items in a
 `RawArena` that itself lives until its handle, its items and its reservations are gone. Both
 counts are zero-based: the last owner finds a count of zero.
 */
module SharedArena {
  import opened Options
  import RawArena

  type Ptr = RawArena.Ptr

  /** What owners may do. A clone or drop stands for every form of it: `ArenaRc` values and raw
      pointers made by `into_raw`, `clone_into_raw` and their relatives own a reference alike.
      `DropRef` carries what the item itself does with the arena if it is thereby dropped. */
  datatype Op =
    | Allocate
    | AllocateIfSpace
    | Reserve
    | Complete(p: Ptr)
    | Forget(p: Ptr)
    | CloneRef(p: Ptr)
    | DropRef(p: Ptr, onDrop: seq<Op>)
    | DropHandle

  /** The number of operations, those of dropped items included. */
  function Size(ops: seq<Op>): nat {
    if ops == [] then 0 else OpSize(ops[0]) + Size(ops[1..])
  }

  function OpSize(op: Op): nat {
    1 + match op case DropRef(_, onDrop) => Size(onDrop) case _ => 0
  }

  // ---------------------------------------------------------------- what each operation does

  /** What clients own, the items being dropped, and all drops so far. */
  datatype World = World(
    capacity: nat,
    handle: bool,
    refs: map<Ptr, nat>,
    reservations: set<Ptr>,
    dropping: set<Ptr>,
    dropped: seq<Ptr>)
  {
    ghost predicate Taken(p: Ptr) {
      p in refs || p in reservations || p in dropping
    }

    ghost predicate Full() {
      forall p: Ptr :: p < capacity ==> Taken(p)
    }
  }

  ghost predicate Allocated(v: World, p: Ptr, w: World) {
    !v.Taken(p) && (p >= v.capacity <==> v.Full()) && w == v.(refs := v.refs[p := 1])
  }

  ghost predicate AllocatedIfSpace(v: World, p: Option<Ptr>, w: World) {
    && (p.None? <==> v.Full())
    && if p.Some? then p.value < v.capacity && Allocated(v, p.value, w) else w == v
  }

  ghost predicate Reserved(v: World, p: Option<Ptr>, w: World) {
    && (p.None? <==> v.Full())
    && if p.Some? then
         p.value < v.capacity && !v.Taken(p.value) && w == v.(reservations := v.reservations + {p.value})
       else w == v
  }

  ghost predicate Completed(v: World, p: Ptr, w: World) {
    w == v.(refs := v.refs[p := 1], reservations := v.reservations - {p})
  }

  /** A reference was dropped. With the last one the item was dropped, once, which did `onDrop` while the item
      had its entry still. */
  ghost predicate RefDropped(v: World, p: Ptr, onDrop: seq<Op>, w: World)
    requires p in v.refs
    decreases Size(onDrop), 3
  {
    if v.refs[p] > 1 then w == v.(refs := v.refs[p := v.refs[p] - 1])
    else
      exists u :: Runs(v.(refs := v.refs - {p}, dropping := v.dropping + {p}, dropped := v.dropped + [p]), onDrop, u)
                  && w == u.(dropping := u.dropping - {p})
  }

  /** One operation; one on what nobody owns is skipped. */
  ghost predicate Step(v: World, op: Op, w: World)
    decreases OpSize(op), 1
  {
    match op
    case Allocate => if v.handle then exists p :: Allocated(v, p, w) else w == v
    case AllocateIfSpace => if v.handle then exists p :: AllocatedIfSpace(v, p, w) else w == v
    case Reserve => if v.handle then exists p :: Reserved(v, p, w) else w == v
    case Complete(p) => if v.handle && p in v.reservations then Completed(v, p, w) else w == v
    case Forget(p) =>
      w == if v.handle && p in v.reservations then v.(reservations := v.reservations - {p}) else v
    case CloneRef(p) => w == if p in v.refs then v.(refs := v.refs[p := v.refs[p] + 1]) else v
    case DropRef(p, onDrop) => if p in v.refs then RefDropped(v, p, onDrop, w) else w == v
    case DropHandle => w == v.(handle := false)
  }

  ghost predicate Runs(v: World, ops: seq<Op>, w: World)
    decreases Size(ops), 2
  {
    if ops == [] then w == v
    else exists u :: Step(v, ops[0], u) && Runs(u, ops[1..], w)
  }

  lemma RunsNothing(v: World)
    ensures Runs(v, [], v)
  {
  }

  lemma RunsMore(v: World, ops: seq<Op>, u: World, w: World)
    requires ops != [] && Step(v, ops[0], u) && Runs(u, ops[1..], w)
    ensures Runs(v, ops, w)
  {
  }

  // ---------------------------------------------------------------- the counts

  ghost predicate ItemsCounted(refs: map<Ptr, nat>, counts: map<Ptr, nat>) {
    counts.Keys == refs.Keys && forall p :: p in refs ==> refs[p] == counts[p] + 1
  }

  ghost predicate Partition(whole: set<Ptr>, a: set<Ptr>, b: set<Ptr>, c: set<Ptr>) {
    a !! b !! c && whole == a + b + c
  }

  /** Every item ever created is there, or has been dropped, once. */
  ghost predicate Dropped(created: multiset<Ptr>, dropped: seq<Ptr>, items: set<Ptr>) {
    created == multiset(dropped) + multiset(items)
  }

  /** Everything that is counted: the arena's count, the items' counts, what clients own, and the
      slots the raw arena has given out. */
  datatype Books = Books(
    refCount: nat,
    itemCounts: map<Ptr, nat>,
    freed: bool,
    handle: bool,
    refs: map<Ptr, nat>,
    reservations: set<Ptr>,
    dropping: set<Ptr>,
    slots: set<Ptr>)
  {
    /** An item that is being dropped owns the arena until its entry has been recycled. */
    function Owners(): nat {
      (if handle then 1 else 0) + |refs| + |reservations| + |dropping|
    }

    /** The arena's count is one less than its owners until it is freed, which is when it has none;
        an item's count is one less than its references; and the slots given out are exactly the
        items, the reservations and the items being dropped. */
    ghost predicate Balanced() {
      && (freed <==> Owners() == 0)
      && (!freed ==> refCount + 1 == Owners())
      && ItemsCounted(refs, itemCounts)
      && Partition(slots, refs.Keys, reservations, dropping)
    }

    /** What `Balanced` becomes when an owner has gone and the arena's count has not followed yet. */
    ghost predicate OneOwnerLess() {
      && !freed
      && if refCount == 0 then this.(freed := true).Balanced() && slots == {} && Owners() == 0
         else this.(refCount := refCount - 1).Balanced()
    }
  }

  lemma GrowMap(m: map<Ptr, nat>, p: Ptr, n: nat)
    requires p !in m
    ensures m[p := n].Keys == m.Keys + {p} && |m[p := n]| == |m| + 1
  {
    assert m[p := n].Keys == m.Keys + {p};
  }

  lemma ShrinkMap(m: map<Ptr, nat>, p: Ptr)
    requires p in m
    ensures (m - {p}).Keys == m.Keys - {p} && |m - {p}| == |m| - 1
  {
    assert (m - {p}).Keys == m.Keys - {p};
  }

  lemma CountNew(refs: map<Ptr, nat>, counts: map<Ptr, nat>, p: Ptr)
    requires ItemsCounted(refs, counts) && p !in refs
    ensures ItemsCounted(refs[p := 1], counts[p := 0]) && |refs[p := 1]| == |refs| + 1
    ensures refs[p := 1].Keys == refs.Keys + {p}
  {
    GrowMap(refs, p, 1);
    GrowMap(counts, p, 0);
  }

  lemma PartitionAdd(whole: set<Ptr>, a: set<Ptr>, b: set<Ptr>, c: set<Ptr>, p: Ptr)
    requires Partition(whole, a, b, c) && p !in whole
    ensures p !in a && Partition(whole + {p}, a + {p}, b, c)
    ensures p !in b && Partition(whole + {p}, a, b + {p}, c)
  {
  }

  lemma PartitionMove(whole: set<Ptr>, a: set<Ptr>, b: set<Ptr>, c: set<Ptr>, p: Ptr)
    requires Partition(whole, a, b, c)
    ensures p in a ==> p !in c && Partition(whole, a - {p}, b, c + {p})
    ensures p in b ==> p !in a && Partition(whole, a + {p}, b - {p}, c)
  {
  }

  lemma PartitionRemove(whole: set<Ptr>, a: set<Ptr>, b: set<Ptr>, c: set<Ptr>, p: Ptr)
    requires Partition(whole, a, b, c)
    ensures p in b ==> Partition(whole - {p}, a, b - {p}, c)
    ensures p in c ==> Partition(whole - {p}, a, b, c - {p})
  {
  }

  lemma PartitionEmpty(whole: set<Ptr>, a: set<Ptr>, b: set<Ptr>, c: set<Ptr>)
    requires Partition(whole, a, b, c) && |a| + |b| + |c| == 0
    ensures a == {} && b == {} && c == {} && whole == {}
  {
  }

  lemma DroppedOne(created: multiset<Ptr>, dropped: seq<Ptr>, items: set<Ptr>, p: Ptr)
    requires Dropped(created, dropped, items) && p in items
    ensures Dropped(created, dropped + [p], items - {p})
  {
    assert multiset(items) == multiset(items - {p}) + multiset{p};
  }

  lemma CreatedOne(created: multiset<Ptr>, dropped: seq<Ptr>, items: set<Ptr>, p: Ptr)
    requires Dropped(created, dropped, items) && p !in items
    ensures Dropped(created + multiset{p}, dropped, items + {p})
  {
    assert multiset(items + {p}) == multiset(items) + multiset{p};
  }

  lemma AllocateBalanced(b: Books, p: Ptr)
    requires b.Balanced() && b.handle && p !in b.slots
    ensures p !in b.refs && b.refs[p := 1].Keys == b.refs.Keys + {p}
    ensures b.(refCount := b.refCount + 1, itemCounts := b.itemCounts[p := 0], refs := b.refs[p := 1],
               slots := b.slots + {p}).Balanced()
  {
    hide ItemsCounted, Partition;
    PartitionAdd(b.slots, b.refs.Keys, b.reservations, b.dropping, p);
    CountNew(b.refs, b.itemCounts, p);
  }

  lemma ReserveBalanced(b: Books, p: Ptr)
    requires b.Balanced() && b.handle && p !in b.slots
    ensures b.(refCount := b.refCount + 1, reservations := b.reservations + {p}, slots := b.slots + {p}).Balanced()
  {
    hide ItemsCounted, Partition;
    PartitionAdd(b.slots, b.refs.Keys, b.reservations, b.dropping, p);
  }

  lemma CompleteBalanced(b: Books, p: Ptr)
    requires b.Balanced() && p in b.reservations
    ensures p !in b.refs && b.refs[p := 1].Keys == b.refs.Keys + {p}
    ensures b.(itemCounts := b.itemCounts[p := 0], refs := b.refs[p := 1],
               reservations := b.reservations - {p}).Balanced()
  {
    hide ItemsCounted, Partition;
    PartitionMove(b.slots, b.refs.Keys, b.reservations, b.dropping, p);
    CountNew(b.refs, b.itemCounts, p);
  }

  lemma ForgetBalanced(b: Books, p: Ptr)
    requires b.Balanced() && b.handle && p in b.reservations
    ensures b.refCount > 0
    ensures b.(refCount := b.refCount - 1, reservations := b.reservations - {p}, slots := b.slots - {p}).Balanced()
  {
    hide ItemsCounted, Partition;
    PartitionRemove(b.slots, b.refs.Keys, b.reservations, b.dropping, p);
  }

  lemma ItemCounted(b: Books, p: Ptr)
    requires b.Balanced() && p in b.refs
    ensures p in b.itemCounts && b.refs[p] == b.itemCounts[p] + 1
  {
  }

  lemma RecountBalanced(b: Books, p: Ptr, n: nat)
    requires b.Balanced() && p in b.refs
    ensures p in b.itemCounts && b.(itemCounts := b.itemCounts[p := n], refs := b.refs[p := n + 1]).Balanced()
  {
    assert b.refs[p := n + 1].Keys == b.refs.Keys && b.itemCounts[p := n].Keys == b.itemCounts.Keys;
    assert |b.refs[p := n + 1]| == |b.refs|;
  }

  /** Nobody refers to the item any more, and its drop begins. */
  lemma DeleteBegins(b: Books, p: Ptr)
    requires b.Balanced() && p in b.refs
    ensures p in b.itemCounts && p !in b.dropping
    ensures b.(itemCounts := b.itemCounts - {p}, refs := b.refs - {p}, dropping := b.dropping + {p}).Balanced()
  {
    hide ItemsCounted, Partition;
    PartitionMove(b.slots, b.refs.Keys, b.reservations, b.dropping, p);
    UncountItem(b.refs, b.itemCounts, p);
  }

  /** The item has been dropped and its entry recycled: the arena goes exactly when its count was zero. */
  lemma DeleteBalanced(b: Books, p: Ptr)
    requires b.Balanced() && p in b.dropping
    ensures !b.freed
    ensures b.(dropping := b.dropping - {p}, slots := b.slots - {p}).OneOwnerLess()
  {
    hide ItemsCounted, Partition;
    var c := b.(dropping := b.dropping - {p}, slots := b.slots - {p});
    PartitionRemove(b.slots, b.refs.Keys, b.reservations, b.dropping, p);
    assert |c.dropping| == |b.dropping| - 1;
    if b.refCount == 0 {
      PartitionEmpty(c.slots, c.refs.Keys, c.reservations, c.dropping);
    }
  }

  lemma UncountItem(refs: map<Ptr, nat>, counts: map<Ptr, nat>, p: Ptr)
    requires ItemsCounted(refs, counts) && p in refs
    ensures p in counts && ItemsCounted(refs - {p}, counts - {p})
    ensures (refs - {p}).Keys == refs.Keys - {p} && |refs - {p}| == |refs| - 1
  {
    ShrinkMap(refs, p);
    ShrinkMap(counts, p);
  }

  lemma DropHandleBalanced(b: Books)
    requires b.Balanced() && b.handle
    ensures b.(handle := false).OneOwnerLess()
  {
    hide ItemsCounted, Partition;
    if b.refCount == 0 {
      PartitionEmpty(b.slots, b.refs.Keys, b.reservations, b.dropping);
    }
  }

  lemma LastOwner(b: Books)
    requires b.OneOwnerLess()
    ensures !b.freed
    ensures b.refCount == 0 ==> b.(freed := true).Balanced() && b.slots == {} && b.Owners() == 0
    ensures b.refCount > 0 ==> b.(refCount := b.refCount - 1).Balanced()
  {
  }

  /** Nothing is left of a freed arena, so nobody can free it, or recycle anything in it, again. */
  lemma FreedIsFinal(b: Books)
    requires b.Balanced() && b.freed
    ensures !b.handle && b.refs == map[] && b.reservations == {} && b.dropping == {}
    ensures b.itemCounts == map[] && b.slots == {}
  {
    PartitionEmpty(b.slots, b.refs.Keys, b.reservations, b.dropping);
    assert b.itemCounts.Keys == {};
  }

  class ArenaShared {
    const raw: RawArena.Arena
    var refCount: nat
    var itemCounts: map<Ptr, nat>
    var freed: bool

    // what clients own: the handle, references per item, and open reservations
    var handle: bool
    var refs: map<Ptr, nat>
    var reservations: set<Ptr>

    ghost var dropping: set<Ptr>
    ghost var created: multiset<Ptr>

    ghost function View(): Books
      reads this, raw
    {
      Books(refCount, itemCounts, freed, handle, refs, reservations, dropping, raw.live + raw.blocks)
    }

    ghost function Now(): World
      reads this, raw
    {
      World(raw.capacity, handle, refs, reservations, dropping, raw.dropped)
    }

    ghost predicate Valid()
      reads this, raw, raw.link
    {
      raw.Valid() && View().Balanced() && Dropped(created, raw.dropped, refs.Keys)
    }

    constructor (capacity: nat)
      ensures Valid() && handle && refs == map[] && reservations == {} && dropping == {} && !freed
      ensures created == multiset{}
      ensures fresh(raw) && fresh(raw.link) && raw.capacity == capacity && raw.dropped == []
    {
      raw := new RawArena.Arena(capacity);
      refCount, itemCounts, freed, handle, refs, reservations := 0, map[], false, true, map[], {};
      dropping, created := {}, multiset{};
    }

    /** `allocate`. */
    method Allocate() returns (p: Ptr)
      requires Valid() && handle
      modifies `refCount, `itemCounts, `refs, `created, raw
      ensures Valid() && Allocated(old(Now()), p, Now()) && created == old(created) + multiset{p}
    {
      hide RawArena.Inv, RawArena.Arena.Valid, Books.Balanced, Dropped;
      ghost var b := View();
      SlotsTaken();
      p := raw.Allocate();
      assert raw.live + raw.blocks == b.slots + {p};
      NewItem(p, b);
    }

    /** The item in a newly allocated entry is initialised and counted. */
    method NewItem(p: Ptr, ghost b: Books)
      requires raw.Valid() && b.Balanced() && b.handle && p !in b.slots
      requires b == View().(slots := b.slots) && raw.live + raw.blocks == b.slots + {p}
      requires Dropped(created, raw.dropped, refs.Keys)
      modifies `refCount, `itemCounts, `refs, `created
      ensures Valid() && p !in old(refs)
      ensures refs == old(refs)[p := 1] && created == old(created) + multiset{p}
    {
      hide RawArena.Inv, RawArena.Arena.Valid, Books.Balanced, Dropped;
      AllocateBalanced(b, p);
      CreatedOne(created, raw.dropped, refs.Keys, p);
      refCount, itemCounts, refs, created := refCount + 1, itemCounts[p := 0], refs[p := 1], created + multiset{p};
      assert View() == b.(refCount := b.refCount + 1, itemCounts := b.itemCounts[p := 0], refs := b.refs[p := 1],
                          slots := b.slots + {p});
    }

    /** `allocate_if_space`, which hands the data back when every slot is taken. */
    method AllocateIfSpace() returns (p: Option<Ptr>)
      requires Valid() && handle
      modifies `refCount, `itemCounts, `refs, `created, raw
      ensures Valid() && AllocatedIfSpace(old(Now()), p, Now())
      ensures created == if p.Some? then old(created) + multiset{p.value} else old(created)
    {
      hide RawArena.Inv, RawArena.Arena.Valid, Books.Balanced, Dropped;
      ghost var b := View();
      SlotsTaken();
      p := raw.AllocateIfSpace();
      if p.Some? {
        assert raw.live + raw.blocks == b.slots + {p.value};
        NewItem(p.value, b);
      }
    }

    /** `reserve_space`. */
    method Reserve() returns (p: Option<Ptr>)
      requires Valid() && handle
      modifies `refCount, `reservations, raw
      ensures Valid() && Reserved(old(Now()), p, Now())
    {
      hide RawArena.Inv, RawArena.Arena.Valid, Books.Balanced, Dropped;
      ghost var b := View();
      SlotsTaken();
      p := raw.AllocateIfSpace();
      if p.Some? {
        ReserveBalanced(b, p.value);
        refCount := refCount + 1;
        reservations := reservations + {p.value};
        assert raw.live + raw.blocks == b.slots + {p.value};
      }
    }

    lemma SlotsTaken()
      requires Valid()
      ensures forall q: Ptr :: q in raw.live || q in raw.blocks <==> Now().Taken(q)
      ensures Now().Full() <==> forall q: Ptr :: q < raw.capacity ==> q in raw.live
      ensures forall q: Ptr :: q in raw.live ==> q < raw.capacity
      ensures forall q: Ptr :: q in raw.blocks ==> q >= raw.capacity
    {
      forall q: Ptr ensures q in raw.live || q in raw.blocks <==> q in refs || q in reservations || q in dropping {
        assert q in View().slots <==> q in refs.Keys + reservations + dropping;
      }
      forall q: Ptr | q < raw.capacity ensures q in raw.live <==> Now().Taken(q) {
      }
    }

    /** `complete_reservation`: the slot becomes an item with one reference. */
    method Complete(p: Ptr)
      requires Valid() && handle && p in reservations
      modifies `itemCounts, `refs, `reservations, `created
      ensures Valid() && created == old(created) + multiset{p}
      ensures Completed(old(Now()), p, Now())
    {
      hide RawArena.Inv, RawArena.Arena.Valid, Books.Balanced, Dropped;
      ghost var b := View();
      CompleteBalanced(b, p);
      CreatedOne(created, raw.dropped, refs.Keys, p);
      itemCounts, refs, created := itemCounts[p := 0], refs[p := 1], created + multiset{p};
      reservations := reservations - {p};
      assert View() == b.(itemCounts := b.itemCounts[p := 0], refs := b.refs[p := 1],
                          reservations := b.reservations - {p});
    }

    /** `forget_reservation`: the slot goes back without dropping anything. */
    method Forget(p: Ptr)
      requires Valid() && handle && p in reservations
      modifies `refCount, `reservations, raw, raw.link
      ensures Valid()
      ensures reservations == old(reservations) - {p} && raw.dropped == old(raw.dropped)
    {
      hide RawArena.Inv, RawArena.Arena.Valid, Books.Balanced, Dropped;
      ghost var b := View();
      SlotsTaken();
      ForgetBalanced(b, p);
      refCount := refCount - 1;
      var _ := raw.RecycleWithoutDrop(p);
      reservations := reservations - {p};
      assert raw.live + raw.blocks == b.slots - {p};
    }

    /** Cloning a reference. */
    method CloneRef(p: Ptr)
      requires Valid() && p in refs
      modifies `itemCounts, `refs
      ensures Valid() && refs == old(refs)[p := old(refs)[p] + 1]
    {
      hide RawArena.Inv, RawArena.Arena.Valid, Books.Balanced, Dropped;
      ghost var b := View();
      ItemCounted(b, p);
      RecountBalanced(b, p, itemCounts[p] + 1);
      itemCounts := itemCounts[p := itemCounts[p] + 1];
      refs := refs[p := refs[p] + 1];
      assert View() == b.(itemCounts := itemCounts, refs := refs) && refs.Keys == b.refs.Keys;
    }

    /** Dropping a reference: the last one drops the item, which may use the arena meanwhile, and recycles
        its entry; with the last owner the arena goes. */
    method DropRef(p: Ptr, onDrop: seq<Op>)
      requires Valid() && p in refs
      modifies this, raw, raw.link
      ensures Valid() && RefDropped(old(Now()), p, onDrop, Now())
      ensures dropping == old(dropping) && old(raw.dropped) <= raw.dropped
      decreases Size(onDrop), 6
    {
      hide RawArena.Inv, RawArena.Arena.Valid, Books.Balanced, Dropped, Runs;
      ItemCounted(View(), p);
      if itemCounts[p] == 0 {
        Delete(p, onDrop);
      } else {
        ReleaseRef(p);
      }
    }

    /** A reference that is not the last one goes. */
    method ReleaseRef(p: Ptr)
      requires Valid() && p in refs && refs[p] > 1
      modifies `itemCounts, `refs
      ensures Valid() && refs == old(refs)[p := old(refs)[p] - 1]
    {
      hide RawArena.Inv, RawArena.Arena.Valid, Books.Balanced, Dropped;
      ghost var b := View();
      ItemCounted(b, p);
      RecountBalanced(b, p, itemCounts[p] - 1);
      itemCounts := itemCounts[p := itemCounts[p] - 1];
      refs := refs[p := refs[p] - 1];
      assert View() == b.(itemCounts := itemCounts, refs := refs) && refs.Keys == b.refs.Keys;
    }

    /** `delete`: the item is dropped in place before its entry becomes vacant. */
    method Delete(p: Ptr, onDrop: seq<Op>)
      requires Valid() && p in refs
      modifies this, raw, raw.link
      ensures Valid() && dropping == old(dropping) && old(raw.dropped) + [p] <= raw.dropped
      ensures old(refs)[p] == 1 ==> RefDropped(old(Now()), p, onDrop, Now())
      decreases Size(onDrop), 5
    {
      hide RawArena.Inv, RawArena.Arena.Valid, Books.Balanced, Dropped, Books.OneOwnerLess, Runs;
      SlotsTaken();
      DropItem(p);
      Run(onDrop);
      ghost var u := Now();
      ghost var b := View();
      SlotsTaken();
      DeleteBalanced(b, p);
      var _ := raw.RecycleWithoutDrop(p);
      dropping := dropping - {p};
      assert raw.live + raw.blocks == b.slots - {p};
      LoseOwner();
    }

    /** The first half of `recycle`: drop the item in its entry. */
    method DropItem(p: Ptr)
      requires Valid() && p in refs
      modifies `itemCounts, `refs, `dropping, raw`dropped
      ensures Valid() && refs == old(refs) - {p} && raw.dropped == old(raw.dropped) + [p]
      ensures p !in old(dropping) && dropping == old(dropping) + {p}
    {
      hide RawArena.Inv, RawArena.Arena.Valid, Books.Balanced, Dropped;
      ghost var b := View();
      SlotsTaken();
      DeleteBegins(b, p);
      DroppedOne(created, raw.dropped, refs.Keys, p);
      raw.DropInPlace(p);
      itemCounts := itemCounts - {p};
      refs := refs - {p};
      dropping := dropping + {p};
      assert refs.Keys == b.refs.Keys - {p};
    }

    /** `Drop for ArenaShared`. */
    method DropHandle()
      requires Valid() && handle
      modifies `refCount, `handle, `freed, raw
      ensures Valid() && !handle && raw.dropped == old(raw.dropped)
    {
      hide RawArena.Inv, RawArena.Arena.Valid, Books.Balanced, Dropped, Books.OneOwnerLess;
      DropHandleBalanced(View());
      handle := false;
      LoseOwner();
    }

    /** An owner has gone: the arena is freed if it was the last one. */
    method LoseOwner()
      requires raw.Valid() && View().OneOwnerLess() && Dropped(created, raw.dropped, refs.Keys)
      modifies `refCount, `freed, raw
      ensures Valid() && raw.dropped == old(raw.dropped)
    {
      hide RawArena.Inv, RawArena.Arena.Valid, Books.Balanced, Books.OneOwnerLess, Books.Owners, Dropped;
      ghost var b := View();
      LastOwner(b);
      if refCount == 0 {
        Free();
        assert View() == b.(freed := true);
      } else {
        refCount := refCount - 1;
      }
    }

    /** `drop_data`: nothing is allocated any more, so dropping the raw arena drops no item. */
    method Free()
      requires raw.Valid() && !freed && View().Owners() == 0 && raw.live + raw.blocks == {}
      modifies `freed, raw
      ensures raw.Valid() && freed && raw.live + raw.blocks == {}
      ensures raw.dropped == old(raw.dropped)
    {
      assert raw.live <= raw.live + raw.blocks;
      RawArena.NothingLive(raw.live, raw.max);
      raw.ClearAllocated();
      freed := true;
    }

    /** Every run over what clients own; operations on what nobody owns are skipped. */
    method Run(ops: seq<Op>)
      requires Valid()
      modifies this, raw, raw.link
      ensures Valid() && Runs(old(Now()), ops, Now())
      ensures dropping == old(dropping) && old(raw.dropped) <= raw.dropped
      ensures old(freed) ==> View() == old(View()) && raw.dropped == old(raw.dropped)
      decreases Size(ops), 4
    {
      hide RawArena.Inv, RawArena.Arena.Valid, Books.Balanced, Dropped, Step, Runs;
      ghost var v := Now();
      RunsNothing(v);
      if ops == [] { return; }
      Do(ops[0]);
      ghost var u := Now();
      Run(ops[1..]);
      RunsMore(v, ops, u, Now());
    }

    method Do(op: Op)
      requires Valid()
      modifies this, raw, raw.link
      ensures Valid() && Step(old(Now()), op, Now())
      ensures dropping == old(dropping) && old(raw.dropped) <= raw.dropped
      ensures old(freed) ==> View() == old(View()) && raw.dropped == old(raw.dropped)
      decreases OpSize(op), 3
    {
      hide RawArena.Inv, RawArena.Arena.Valid, Books.Balanced, Dropped, RefDropped, World.Full;
      if freed {
        FreedIsFinal(View());
      }
      match op
      case Allocate => if handle { var _ := Allocate(); }
      case AllocateIfSpace => if handle { var _ := AllocateIfSpace(); }
      case Reserve => if handle { var _ := Reserve(); }
      case Complete(p) => if handle && p in reservations { Complete(p); }
      case Forget(p) => if handle && p in reservations { Forget(p); }
      case CloneRef(p) => if p in refs { CloneRef(p); }
      case DropRef(p, onDrop) => if p in refs { DropRef(p, onDrop); }
      case DropHandle => if handle { DropHandle(); }
    }
  }
}
