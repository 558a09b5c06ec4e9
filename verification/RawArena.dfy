/**
 `RawArena` (core/arena/raw_arena.rs): a fixed block of slots whose vacant entries form an
 intrusive list, and a system allocator to fall back on when the block is full.

 An entry is addressed by its index; indices from `capacity` on stand for blocks of the
 system allocator.
 */
module RawArena {
  import opened Options
  import opened Sequences

  type Ptr = nat

  /** `free` are the slots the vacant list visits, from `next` to the high-water mark `max`. */
  ghost predicate IsFreeList(link: seq<Ptr>, next: Ptr, max: Ptr, free: seq<Ptr>)
    decreases free
  {
    if free == [] then next == max
    else next == free[0] && next < max && next < |link| && IsFreeList(link, link[next], max, free[1..])
  }

  /** Below the high-water mark a slot is live or on the vacant list, which has no cycle and ends
      at the mark; `count` counts the live ones. */
  ghost predicate Inv(link: seq<Ptr>, next: Ptr, max: Ptr, count: nat, live: set<Ptr>, free: seq<Ptr>) {
    && max <= |link|
    && IsFreeList(link, next, max, free)
    && Distinct(free)
    && (forall p :: p in free ==> p < max)
    && (forall p: Ptr :: p in live <==> p < max && p !in free)
    && count == |live|
  }

  lemma {:induction false} LinkElsewhere(link: seq<Ptr>, link': seq<Ptr>, next: Ptr, max: Ptr, free: seq<Ptr>)
    requires IsFreeList(link, next, max, free) && |link'| == |link|
    requires forall p :: p in free && p < |link| ==> link'[p] == link[p]
    ensures IsFreeList(link', next, max, free)
    decreases free
  {
    if free != [] {
      LinkElsewhere(link, link', link[next], max, free[1..]);
    }
  }

  /** Taking the first vacant slot. */
  lemma PopFree(link: seq<Ptr>, next: Ptr, max: Ptr, count: nat, live: set<Ptr>, free: seq<Ptr>)
    requires Inv(link, next, max, count, live, free) && next != max
    ensures free != [] && next == free[0] && next !in live && next < |link|
    ensures Inv(link, link[next], max, count + 1, live + {next}, free[1..])
  {
    assert free == [free[0]] + free[1..];
    assert forall p :: p in free[1..] ==> p in free && p != next;
  }

  /** Raising the high-water mark, when no slot below it is vacant. */
  lemma Extend(link: seq<Ptr>, max: Ptr, count: nat, live: set<Ptr>, free: seq<Ptr>)
    requires Inv(link, max, max, count, live, free) && max < |link|
    ensures free == [] && max !in live && Inv(link, max + 1, max + 1, count + 1, live + {max}, [])
  {
  }

  /** Giving a live slot back: it becomes the first vacant one. */
  lemma PushFree(link: seq<Ptr>, next: Ptr, max: Ptr, count: nat, live: set<Ptr>, free: seq<Ptr>, p: Ptr)
    requires Inv(link, next, max, count, live, free) && p in live
    ensures p < |link| && count > 0
    ensures Inv(link[p := next], p, max, count - 1, live - {p}, [p] + free)
  {
    var link' := link[p := next];
    LinkElsewhere(link, link', next, max, free);
    assert ([p] + free)[1..] == free;
  }

  /** The block is full exactly when every one of its slots is live. */
  lemma FullMeansAllLive(link: seq<Ptr>, next: Ptr, max: Ptr, count: nat, live: set<Ptr>, free: seq<Ptr>)
    requires Inv(link, next, max, count, live, free)
    ensures next == max == |link| <==> forall p: Ptr :: p < |link| ==> p in live
  {
    if next == max == |link| {
      assert free == [];
    } else if next != max {
      assert free[0] in free && free[0] !in live;
    } else {
      assert max !in live;
    }
  }

  lemma {:induction false} LiveBound(live: set<Ptr>, max: Ptr)
    requires forall p :: p in live ==> p < max
    ensures |live| <= max
  {
    if max > 0 {
      LiveBound(live - {max - 1}, max - 1);
    }
  }

  /** The live slots below `n` in ascending order: what `clear_allocated` drops. */
  function Ascending(live: set<Ptr>, n: Ptr): seq<Ptr> {
    if n == 0 then [] else Ascending(live, n - 1) + if n - 1 in live then [n - 1] else []
  }

  lemma {:induction false} AscendingOnce(live: set<Ptr>, n: Ptr)
    ensures forall p: Ptr :: p in Ascending(live, n) <==> p in live && p < n
    ensures Distinct(Ascending(live, n))
  {
    if n > 0 {
      var pre := Ascending(live, n - 1);
      AscendingOnce(live, n - 1);
      assert forall i :: 0 <= i < |pre| ==> pre[i] in pre;
    }
  }

  datatype Op =
    | Allocate
    | AllocateIfSpace
    | Recycle(p: Ptr)
    | RecycleWithoutDrop(p: Ptr)
    | Write(p: Ptr, content: Ptr)
    | ClearAllocated

  /** What clients own, slots and system blocks, and the entries dropped in place so far. */
  datatype World = World(capacity: nat, owned: set<Ptr>, dropped: seq<Ptr>)

  ghost predicate Full(v: World) {
    forall q: Ptr :: q < v.capacity ==> q in v.owned
  }

  /** One operation; one on an entry nobody owns is skipped. */
  ghost predicate Step(v: World, op: Op, w: World) {
    match op
    case Allocate => exists p: Ptr :: p !in v.owned && (p >= v.capacity <==> Full(v)) && w == v.(owned := v.owned + {p})
    case AllocateIfSpace =>
      if Full(v) then w == v
      else exists p: Ptr :: p !in v.owned && p < v.capacity && w == v.(owned := v.owned + {p})
    case Recycle(p) =>
      w == if p in v.owned then v.(owned := v.owned - {p}, dropped := v.dropped + [p]) else v
    case RecycleWithoutDrop(p) => w == v.(owned := v.owned - {p})
    case Write(_, _) => w == v
    case ClearAllocated =>
      exists order :: OnceEach(order, set q | q in v.owned && q < v.capacity)
                      && w == v.(owned := (set q | q in v.owned && q >= v.capacity), dropped := v.dropped + order)
  }

  ghost predicate OnceEach(order: seq<Ptr>, slots: set<Ptr>) {
    Distinct(order) && forall q :: q in order <==> q in slots
  }

  ghost predicate Runs(v: World, ops: seq<Op>, w: World) {
    if ops == [] then w == v
    else exists u :: Runs(v, DropLast(ops), u) && Step(u, Last(ops), w)
  }

  class Arena {
    const capacity: nat
    const link: array<Ptr>
    var max: Ptr
    var next: Ptr
    var count: nat
    var nextBlock: Ptr
    var dropped: seq<Ptr>

    ghost var live: set<Ptr>
    ghost var free: seq<Ptr>
    ghost var blocks: set<Ptr>

    ghost predicate Valid()
      reads this, link
    {
      && link.Length == capacity <= nextBlock
      && (forall b :: b in blocks ==> capacity <= b < nextBlock)
      && Inv(link[..], next, max, count, live, free)
    }

    ghost function Now(): World
      reads this
    {
      World(capacity, live + blocks, dropped)
    }

    constructor (capacity: nat)
      ensures Valid() && fresh(link) && this.capacity == capacity
      ensures max == next == 0 && live == {} && blocks == {} && dropped == []
    {
      this.capacity := capacity;
      link := new Ptr[capacity];
      max, next, count, nextBlock, dropped := 0, 0, 0, capacity, [];
      live, free, blocks := {}, [], {};
    }

    /** `allocate`: a slot that was not live, or a fresh system block when every slot is. */
    method Allocate() returns (p: Ptr)
      requires Valid()
      modifies `max, `next, `count, `nextBlock, `live, `free, `blocks
      ensures Valid()
      ensures p !in old(live) && p !in old(blocks)
      ensures p >= capacity <==> forall q: Ptr :: q < capacity ==> q in old(live)
      ensures if p < capacity then live == old(live) + {p} && blocks == old(blocks)
              else live == old(live) && blocks == old(blocks) + {p}
    {
      FullMeansAllLive(link[..], next, max, count, live, free);
      var slot := AllocateIfSpace();
      match slot
      case Some(q) => p := q;
      case None =>
        p := nextBlock;
        nextBlock := nextBlock + 1;
        blocks := blocks + {p};
    }

    /** `allocate_if_space`, which is also the part `allocate` has in common with it. */
    method AllocateIfSpace() returns (p: Option<Ptr>)
      requires Valid()
      modifies `max, `next, `count, `live, `free
      ensures Valid()
      ensures p.None? <==> forall q: Ptr :: q < capacity ==> q in old(live)
      ensures p.None? ==> live == old(live)
      ensures p.Some? ==> p.value < capacity && p.value !in old(live) && live == old(live) + {p.value}
    {
      FullMeansAllLive(link[..], next, max, count, live, free);
      var slot := next;
      if max == next {
        if max == capacity {
          return None;
        }
        Extend(link[..], max, count, live, free);
        next := max + 1;
        max := max + 1;
        free := [];
      } else {
        PopFree(link[..], next, max, count, live, free);
        next := link[next];
        free := free[1..];
      }
      count := count + 1;
      live := live + {slot};
      return Some(slot);
    }

    /** `recycle_without_drop`. */
    method RecycleWithoutDrop(p: Ptr) returns (emptied: bool)
      requires Valid() && (p in live || p in blocks)
      modifies `next, `count, `live, `free, `blocks, link
      ensures Valid()
      ensures live == old(live) - {p} && blocks == old(blocks) - {p}
      ensures emptied <==> p < capacity && live == {}
    {
      if p < capacity {
        PushFree(link[..], next, max, count, live, free, p);
        ghost var entries := link[..];
        count := count - 1;
        link[p] := next;
        assert link[..] == entries[p := next];
        next := p;
        live, free, blocks := live - {p}, [p] + free, blocks - {p};
        emptied := count == 0;
      } else {
        live, blocks := live - {p}, blocks - {p};
        emptied := false;
      }
    }

    /** `recycle`: the item is dropped in place first. */
    method Recycle(p: Ptr) returns (emptied: bool)
      requires Valid() && (p in live || p in blocks)
      modifies `next, `count, `live, `free, `blocks, `dropped, link
      ensures Valid()
      ensures live == old(live) - {p} && blocks == old(blocks) - {p}
      ensures dropped == old(dropped) + [p]
      ensures emptied <==> p < capacity && live == {}
    {
      DropInPlace(p);
      emptied := RecycleWithoutDrop(p);
    }

    /** The drop of the item in an entry, which leaves the entry allocated. */
    method DropInPlace(p: Ptr)
      requires Valid() && (p in live || p in blocks)
      modifies `dropped
      ensures Valid() && dropped == old(dropped) + [p]
    {
      dropped := dropped + [p];
    }

    method Remaining() returns (n: nat)
      requires Valid()
      ensures n + |live| == capacity
    {
      LiveBound(live, max);
      n := capacity - count;
    }

    /** `clear_allocated`: drop every live slot once and start over. */
    method ClearAllocated()
      requires Valid()
      modifies `max, `next, `count, `dropped, `live, `free
      ensures Valid()
      ensures live == {} && free == [] && max == next == 0 && count == 0
      ensures dropped == old(dropped) + Ascending(old(live), old(max))
    {
      if count > 0 {
        var vacant := Vacancies();
        for i := 0 to max
          modifies `dropped
          invariant dropped == old(dropped) + Ascending(live, i)
        {
          if !vacant[i] {
            dropped := dropped + [i];
          }
        }
      } else {
        NothingLive(live, max);
        assert dropped + [] == dropped;
      }
      max, next, count := 0, 0, 0;
      live, free := {}, [];
    }

    /** Walks the vacant list and marks its slots. */
    method Vacancies() returns (vacant: array<bool>)
      requires Valid()
      ensures fresh(vacant) && vacant.Length == max
      ensures forall p: Ptr :: p < max ==> vacant[p] == (p !in live)
    {
      vacant := new bool[max](_ => false);
      var p := next;
      ghost var rest := free;
      while p != max
        invariant IsFreeList(link[..], p, max, rest)
        invariant forall q :: q in rest ==> q in free
        invariant forall q: Ptr :: q < max ==> vacant[q] == (q in free && q !in rest)
        invariant Distinct(rest)
        decreases rest
      {
        assert rest == [rest[0]] + rest[1..];
        vacant[p] := true;
        p := link[p];
        rest := rest[1..];
      }
    }

    /** A client writes to the item in an entry it owns. A live slot shares its memory with its link; a
        system block is outside the arena. */
    method Write(p: Ptr, content: Ptr)
      requires Valid() && (p in live || p in blocks)
      modifies link
      ensures Valid()
      ensures link[..] == if p < capacity then old(link[..])[p := content] else old(link[..])
    {
      if p < capacity {
        ghost var entries := link[..];
        LinkElsewhere(entries, entries[p := content], next, max, free);
        link[p] := content;
        assert link[..] == entries[p := content];
      }
    }

    /** Every run over the entries that clients own; recycling what nobody owns is skipped. */
    method Run(ops: seq<Op>, owned: set<Ptr>) returns (left: set<Ptr>)
      requires Valid() && owned == live + blocks
      modifies this, link
      ensures Valid() && left == live + blocks && Runs(old(Now()), ops, Now())
    {
      hide Inv, Step;
      left := owned;
      for i := 0 to |ops|
        invariant Valid() && left == live + blocks && Runs(old(Now()), ops[..i], Now())
      {
        left := Do(ops[i], left);
        PrefixMore(ops, i);
      }
      assert ops[..|ops|] == ops;
    }

    method Do(op: Op, owned: set<Ptr>) returns (left: set<Ptr>)
      requires Valid() && owned == live + blocks
      modifies this, link
      ensures Valid() && left == live + blocks && Step(old(Now()), op, Now())
    {
      hide Inv, IsFreeList;
      ghost var v := Now();
      SlotsBelow();
      left := owned;
      match op
      case Allocate =>
        var p := Allocate();
        left := left + {p};
        assert Now() == v.(owned := v.owned + {p});
      case AllocateIfSpace =>
        var p := AllocateIfSpace();
        if p.Some? {
          left := left + {p.value};
          assert Now() == v.(owned := v.owned + {p.value});
        }
      case Recycle(p) =>
        if p in left {
          var _ := Recycle(p);
          left := left - {p};
        }
      case RecycleWithoutDrop(p) =>
        if p in left {
          var _ := RecycleWithoutDrop(p);
          left := left - {p};
        }
        assert Now() == v.(owned := v.owned - {p});
      case Write(p, content) =>
        if p in left { Write(p, content); }
      case ClearAllocated =>
        AscendingOnce(live, max);
        ghost var order := Ascending(live, max);
        ClearAllocated();
        left := set p | p in left && p >= capacity;
        assert OnceEach(order, set q | q in v.owned && q < v.capacity);
        assert Now() == v.(owned := left, dropped := v.dropped + order);
    }

    lemma SlotsBelow()
      requires Valid()
      ensures forall p :: p in live ==> p < max <= capacity
      ensures forall p :: p in blocks ==> p >= capacity
    {
    }
  }

  lemma {:induction false} NothingLive(live: set<Ptr>, n: Ptr)
    requires live == {}
    ensures Ascending(live, n) == []
  {
    if n > 0 {
      NothingLive(live, n - 1);
    }
  }
}
