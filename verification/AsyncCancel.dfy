/**
 `CancelHandle` and `Cancelable` (core/async_cancel.rs): handles and futures may be
 created, polled, cancelled and dropped in any order, and an inner future may do any of
 that to other handles and futures while it is being polled.
 */
module AsyncCancel {
  import opened CancelRing
  import opened Sequences

  type Future = nat

  datatype Registration =
    | WillRegister(head: Ptr)
    | Registered(node: Ptr)
    | Terminated

  datatype PollResult = Pending | Completed | Err

  /** What the environment may do. `Poll` carries what the inner future does while it is
      polled, and whether it is ready afterwards; `Poll` and `DropFuture` carry what the inner
      future does when it is dropped. */
  datatype Op =
    | NewHandle
    | OrCancel(handle: Ptr)
    | Cancel(handle: Ptr)
    | DropHandle(handle: Ptr)
    | Poll(future: Future, waker: Waker, inner: seq<Op>, ready: bool, onDrop: seq<Op>)
    | DropFuture(future: Future, onDrop: seq<Op>)

  /** The number of operations, those of inner futures included. */
  function Size(ops: seq<Op>): nat {
    if ops == [] then 0 else OpSize(ops[0]) + Size(ops[1..])
  }

  function OpSize(op: Op): nat {
    1 + match op
        case Poll(_, _, inner, _, onDrop) => Size(inner) + Size(onDrop)
        case DropFuture(_, onDrop) => Size(onDrop)
        case _ => 0
  }

  /** Memory, live handles and futures, together with five pieces of history: the ring of
      each linked node, the handle each future was created for, the handles on which
      `cancel` has been called, the waker of each future's latest pending poll, and the
      wakers that have been called. */
  datatype World = World(
    mem: Memory,
    next: Ptr,
    handles: set<Ptr>,
    regs: map<Future, Registration>,
    rings: Rings,
    bound: map<Future, Ptr>,
    cancelled: set<Ptr>,
    wakers: map<Future, Waker>,
    woken: seq<Waker>)

  /** A registered future is marked `Canceled` exactly when its handle has been cancelled, and
      while its handle is alive and not cancelled it sits in the ring headed by that handle; as
      long as it is linked it stores the waker of its latest poll. */
  ghost predicate FutureOk(w: World, f: Future)
    requires f in w.regs
  {
    && f in w.bound
    && w.bound[f] < w.next
    && match w.regs[f]
       case WillRegister(h) => h in w.handles && w.bound[f] == h
       case Registered(n) =>
         && n in w.mem
         && n !in w.handles
         && (w.mem[n].Canceled? <==> w.bound[f] in w.cancelled)
         && (w.bound[f] in w.handles && w.bound[f] !in w.cancelled ==> InRingOf(w, n, w.bound[f]))
         && (forall h :: h in w.handles && InRingOf(w, n, h) ==> h == w.bound[f])
         && (w.mem[n].Linked? ==> f in w.wakers && w.mem[n].kind == Item(w.wakers[f]))
       case Terminated => true
  }

  ghost predicate InRingOf(w: World, n: Ptr, h: Ptr) {
    n in w.rings && |w.rings[n]| > 0 && w.rings[n][0] == h
  }

  ghost predicate CellOk(w: World, p: Ptr)
    requires p in w.mem
  {
    && p < w.next
    && (w.mem[p].Linked? ==> (w.mem[p].kind.Head? <==> p in w.handles))
    && (p in w.handles ==> (w.mem[p].Canceled? <==> p in w.cancelled))
  }

  ghost predicate WorldOk(w: World) {
    && RingsOk(w.mem, w.rings)
    && w.handles <= w.mem.Keys
    && (forall p :: p in w.cancelled ==> p < w.next)
    && (forall p :: p in w.mem ==> CellOk(w, p))
    && (forall f :: f in w.regs ==> FutureOk(w, f))
    && (forall f, g :: f in w.regs && g in w.regs && w.regs[f].Registered? && w.regs[f] == w.regs[g] ==> f == g)
  }

  /** What may happen to a world while the futures `busy` are mutably borrowed. */
  ghost predicate Advances(v: World, w: World, busy: set<Future>) {
    && v.cancelled <= w.cancelled
    && (forall f :: f in v.bound ==> f in w.bound && w.bound[f] == v.bound[f])
    && (forall f :: f in busy && f in v.regs ==> f in w.regs && w.regs[f] == v.regs[f])
    && (forall f :: f in busy && f in v.wakers ==> f in w.wakers && w.wakers[f] == v.wakers[f])
  }

  lemma AdvancesNone(v: World, busy: set<Future>)
    ensures Advances(v, v, busy)
  {
  }

  lemma AdvancesTrans(u: World, v: World, w: World, busy: set<Future>, more: set<Future>)
    requires Advances(u, v, more) && Advances(v, w, busy) && busy <= more
    ensures Advances(u, w, busy)
  {
  }

  /** Only the registration and the waker of a future that is not busy changed. */
  lemma AdvancesPast(v: World, w: World, f: Future, busy: set<Future>)
    requires f !in busy && w.cancelled == v.cancelled && w.bound == v.bound
    requires w.regs - {f} == v.regs - {f} && w.wakers - {f} == v.wakers - {f}
    ensures Advances(v, w, busy)
  {
    forall g | g in busy ensures g in v.regs ==> g in w.regs && w.regs[g] == v.regs[g]
                         ensures g in v.wakers ==> g in w.wakers && w.wakers[g] == v.wakers[g] {
      assert g in v.regs <==> g in v.regs - {f};
      assert g in w.regs <==> g in w.regs - {f};
      assert g in v.regs ==> (w.regs - {f})[g] == (v.regs - {f})[g];
      assert g in v.wakers <==> g in v.wakers - {f};
      assert g in w.wakers <==> g in w.wakers - {f};
      assert g in v.wakers ==> (w.wakers - {f})[g] == (v.wakers - {f})[g];
    }
  }

  lemma BoundOf(w: World, f: Future)
    requires WorldOk(w) && f in w.regs
    ensures f in w.bound
  {
    hide RingsOk;
    assert FutureOk(w, f);
  }

  /** What a busy future can rely on. */
  lemma AdvancesFor(v: World, w: World, busy: set<Future>, f: Future)
    requires Advances(v, w, busy) && f in v.bound
    ensures f in w.bound && w.bound[f] == v.bound[f]
    ensures v.bound[f] in v.cancelled ==> w.bound[f] in w.cancelled
    ensures f in busy && f in v.regs ==> f in w.regs && w.regs[f] == v.regs[f]
  {
  }

  // ---------------------------------------------------------------- one step, on worlds

  /** Cell `p` when node `x` goes: unchanged outside the ring of `x`, never cancelled, and of
      the same kind inside it. */
  ghost predicate Spared(v: World, w: World, x: Ptr, p: Ptr) {
    p in v.mem && p in w.mem &&
    if x in v.rings && p in v.rings[x] then
      && v.mem[p].Linked? && !w.mem[p].Canceled?
      && (w.mem[p].Linked? ==> w.mem[p].kind == v.mem[p].kind)
    else
      w.mem[p] == v.mem[p]
  }

  /** Node `x`, at index `i` of its ring if it is linked, has been unlinked and freed. */
  ghost predicate Freed(v: World, w: World, x: Ptr, i: nat) {
    && x in v.mem
    && (forall p :: p in w.mem <==> p in v.mem && p != x)
    && (forall p :: p in w.mem ==> Spared(v, w, x, p))
    && RingsOk(w.mem, w.rings)
    && (x in v.rings ==> i < |v.rings[x]| && v.rings[x][i] == x)
    && w.rings == if x in v.rings then Replace(v.rings, v.rings[x], Shrink(v.rings[x], i)) else v.rings
  }

  /** Freeing a node leaves every other node of its ring behind the same first node (or, if the
      first node went, behind the second), unless the ring dissolves. */
  lemma FreedRing(v: World, w: World, x: Ptr, i: nat, p: Ptr)
    requires RingsOk(v.mem, v.rings) && Freed(v, w, x, i) && p in w.mem
    ensures p in w.rings ==> p in v.rings && p != x && |w.rings[p]| > 0
    ensures p in w.rings && v.rings[p][0] != x ==> w.rings[p][0] == v.rings[p][0]
    ensures p in w.rings && v.rings[p][0] == x ==> w.rings[p][0] == v.rings[p][1]
    ensures p in v.rings && p !in w.rings ==> x in v.rings && v.rings[x] == v.rings[p] && |v.rings[p]| == 2
  {
    if x in v.rings {
      var r := v.rings[x];
      RemoveAtMembers(r, i);
      if p in v.rings && v.rings[p] == r {
        assert p in r;
        if |r| > 2 {
          RemoveAtIndex(r, i, 0);
        }
      }
    }
  }

  /** Terminating or dropping a registered future. */
  lemma FreeItemOk(v: World, w: World, f: Future, i: nat)
    requires WorldOk(v) && f in v.regs && v.regs[f].Registered?
    requires Freed(v, w, v.regs[f].node, i)
    requires w.next == v.next && w.handles == v.handles && w.bound == v.bound && w.cancelled == v.cancelled
    requires w.wakers == v.wakers
    requires w.regs == v.regs - {f} || w.regs == v.regs[f := Terminated]
    ensures WorldOk(w)
  {
    hide IsRing;
    var x := v.regs[f].node;
    assert FutureOk(v, f);
    forall p | p in w.mem ensures CellOk(w, p) {
      assert CellOk(v, p) && Spared(v, w, x, p);
      FreedRing(v, w, x, i, p);
    }
    forall g | g in w.regs ensures FutureOk(w, g) {
      FreeItemFuture(v, w, f, i, g);
    }
  }

  lemma FreeItemFuture(v: World, w: World, f: Future, i: nat, g: Future)
    requires WorldOk(v) && f in v.regs && v.regs[f].Registered?
    requires Freed(v, w, v.regs[f].node, i)
    requires w.next == v.next && w.handles == v.handles && w.bound == v.bound && w.cancelled == v.cancelled
    requires w.wakers == v.wakers
    requires w.regs == v.regs - {f} || w.regs == v.regs[f := Terminated]
    requires g in w.regs
    ensures FutureOk(w, g)
  {
    hide IsRing, RingsOk, Freed, CellOk;
    var x := v.regs[f].node;
    assert FutureOk(v, f) && FutureOk(v, g);
    if w.regs[g].Registered? {
      var n := w.regs[g].node;
      FreedSpares(v, w, x, i, n);
      FreedRing(v, w, x, i, n);
      FirstOfRing(v, n);
      if n in v.rings && n !in w.rings && v.bound[g] in v.handles && v.bound[g] !in v.cancelled {
        // the ring of two was the handle and `n`, so the item `x` was not in it
        PairOfRing(v, x, n, v.bound[g]);
        assert false;
      }
    }
  }

  lemma FreedSpares(v: World, w: World, x: Ptr, i: nat, p: Ptr)
    requires Freed(v, w, x, i) && p in v.mem && p != x
    ensures p in w.mem && Spared(v, w, x, p)
  {
  }

  /** Nodes behind the first of a ring are items. */
  lemma FirstOfRing(v: World, p: Ptr)
    requires WorldOk(v)
    ensures p in v.rings ==> p in v.mem && |v.rings[p]| >= 2 && v.rings[p][0] in v.mem && v.rings[p][1] in v.mem
    ensures p in v.rings ==> v.rings[p][1] !in v.handles
    ensures p in v.rings && v.rings[p][0] != p ==> p !in v.handles
  {
    if p in v.rings {
      var r := v.rings[p];
      assert r[0] in r && r[1] in r;
      assert CellOk(v, r[1]) && CellOk(v, p);
      if p in v.handles {
        HeadIsFirst(v.mem, r, p);
      }
    }
  }

  lemma PairOfRing(v: World, x: Ptr, n: Ptr, h: Ptr)
    requires WorldOk(v) && x in v.rings && n in v.rings && v.rings[x] == v.rings[n] && |v.rings[n]| == 2
    requires v.rings[n][0] == h && h in v.handles
    ensures x == n || x == h || n == h
  {
    var r := v.rings[n];
    assert x in r && n in r && r == [r[0], r[1]];
  }

  /** Dropping a handle no unregistered future still refers to. */
  lemma FreeHandleOk(v: World, w: World, h: Ptr, i: nat)
    requires WorldOk(v) && h in v.handles && Unreferenced(v, h)
    requires Freed(v, w, h, i)
    requires w == v.(mem := w.mem, rings := w.rings, handles := v.handles - {h})
    ensures WorldOk(w)
  {
    hide IsRing, FutureOk;
    forall p | p in w.mem ensures CellOk(w, p) {
      assert CellOk(v, p) && Spared(v, w, h, p);
      FreedRing(v, w, h, i, p);
    }
    forall g | g in w.regs ensures FutureOk(w, g) {
      FreeHandleFuture(v, w, h, i, g);
    }
  }

  lemma FreeHandleFuture(v: World, w: World, h: Ptr, i: nat, g: Future)
    requires WorldOk(v) && h in v.handles && Unreferenced(v, h)
    requires Freed(v, w, h, i) && g in w.regs
    requires w == v.(mem := w.mem, rings := w.rings, handles := v.handles - {h})
    ensures FutureOk(w, g)
  {
    hide IsRing, RingsOk, Freed, CellOk;
    assert FutureOk(v, g);
    if w.regs[g].Registered? {
      var n := w.regs[g].node;
      FreedSpares(v, w, h, i, n);
      FreedRing(v, w, h, i, n);
      FirstOfRing(v, n);
      if n in v.rings && n !in w.rings && v.bound[g] in w.handles && v.bound[g] !in v.cancelled {
        // a ring of two headed by another live handle does not contain `h`
        FirstOfRing(v, h);
        assert false;
      }
    }
  }

  ghost predicate Unreferenced(v: World, h: Ptr) {
    forall f :: f in v.regs ==> v.regs[f] != WillRegister(h)
  }

  /** Cell `p` when the fresh node `n` has joined the ring of handle `h`. */
  ghost predicate Joined(v: World, w: World, n: Ptr, h: Ptr, p: Ptr) {
    && p in w.mem
    && (p == n || (p in v.mem && (w.mem[p].Canceled? <==> v.mem[p].Canceled?)))
    && (w.mem[p].Linked? && p in v.mem && v.mem[p].Linked? ==> w.mem[p].kind == v.mem[p].kind)
    && (w.mem[p].Linked? && p !in {h, n} ==> p in v.mem && v.mem[p].Linked?)
    && (p in v.rings ==> |v.rings[p]| > 0 && InRingOf(w, p, v.rings[p][0]))
    && (p in w.rings && p !in v.rings ==> p in {h, n})
    && (p in {h, n} ==> InRingOf(w, p, h) && w.mem[p].Linked? && (w.mem[p].kind.Head? <==> p == h))
  }

  /** Registering future `f` with its handle, which has not been cancelled. */
  lemma RegisterOk(v: World, w: World, f: Future, waker: Waker)
    requires WorldOk(v) && f in v.regs && v.regs[f].WillRegister? && v.bound[f] !in v.cancelled
    requires RingsOk(w.mem, w.rings)
    requires forall p :: p in w.mem <==> p in v.mem || p == v.next
    requires forall p :: p in w.mem ==> Joined(v, w, v.next, v.bound[f], p)
    requires WokenBy(w, v.next, v.bound[f], waker)
    requires w == v.(mem := w.mem, next := v.next + 1, regs := v.regs[f := Registered(v.next)], rings := w.rings,
                     wakers := v.wakers[f := waker])
    ensures WorldOk(w)
  {
    hide IsRing;
    var n, h := v.next, v.bound[f];
    assert n !in v.mem && n !in v.handles;
    assert FutureOk(v, f) && CellOk(v, h);
    forall p | p in w.mem ensures CellOk(w, p) {
      assert Joined(v, w, n, h, p);
      assert p != n ==> CellOk(v, p);
    }
    assert Joined(v, w, n, h, n);
    forall g | g in w.regs ensures FutureOk(w, g) {
      assert FutureOk(v, g);
      assert w.regs[g].Registered? ==> Joined(v, w, n, h, w.regs[g].node);
      RegisterFutureOk(v, w, f, g, waker);
    }
  }

  lemma RegisterFutureOk(v: World, w: World, f: Future, g: Future, waker: Waker)
    requires f in v.regs && f in v.bound && v.regs[f] == WillRegister(v.bound[f])
    requires g in v.regs && FutureOk(v, f) && FutureOk(v, g) && v.bound[f] !in v.cancelled
    requires v.next !in v.mem && v.next !in v.handles
    requires w == v.(mem := w.mem, next := v.next + 1, regs := v.regs[f := Registered(v.next)], rings := w.rings,
                     wakers := v.wakers[f := waker])
    requires WokenBy(w, v.next, v.bound[f], waker)
    requires w.regs[g].Registered? ==> Joined(v, w, v.next, v.bound[f], w.regs[g].node)
    ensures FutureOk(w, g)
  {
  }

  /** `w` is `v` after handle `h` was cancelled: its ring is marked, or just the handle without one. */
  ghost predicate CancelledFrom(v: World, w: World, h: Ptr) {
    && w == v.(mem := w.mem, rings := w.rings, cancelled := v.cancelled + {h}, woken := w.woken)
    && if h in v.rings then
         && w.mem == CancelAll(v.mem, v.rings[h]) && w.rings == Replace(v.rings, v.rings[h], [])
         && w.woken == v.woken + Wakers(v.mem, v.rings[h])
       else w.mem == v.mem[h := Canceled] && w.rings == v.rings && w.woken == v.woken
  }

  /** Cancelling a handle marks its whole ring, and thereby exactly the futures bound to it. */
  lemma CancelWorldOk(v: World, w: World, h: Ptr)
    requires WorldOk(v) && h in v.handles && CancelledFrom(v, w, h)
    ensures WorldOk(w)
  {
    hide IsRing, CellOk, FutureOk;
    CancelRings(v, w, h);
    forall p | p in w.mem ensures CellOk(w, p) {
      CancelCell(v, w, h, p);
    }
    forall g | g in w.regs ensures FutureOk(w, g) {
      CancelFuture(v, w, h, g);
    }
  }

  lemma CancelRings(v: World, w: World, h: Ptr)
    requires WorldOk(v) && h in v.handles && CancelledFrom(v, w, h)
    ensures RingsOk(w.mem, w.rings) && h < w.next
  {
    hide IsRing;
    assert CellOk(v, h);
    if h in v.rings {
      CancelOk(v.mem, v.rings, h);
    } else {
      OffRingOk(v.mem, v.rings, w.mem);
    }
  }

  lemma CancelCell(v: World, w: World, h: Ptr, p: Ptr)
    requires WorldOk(v) && h in v.handles && CancelledFrom(v, w, h) && p in w.mem
    ensures CellOk(w, p)
  {
    hide IsRing;
    assert CellOk(v, p);
    FirstOfRing(v, h);
    if p in v.handles && h in v.rings && p in v.rings[h] {
      FirstOfRing(v, p);
      assert p == h;
    }
  }

  lemma CancelFuture(v: World, w: World, h: Ptr, g: Future)
    requires WorldOk(v) && h in v.handles && CancelledFrom(v, w, h) && g in w.regs
    ensures FutureOk(w, g)
  {
    hide IsRing;
    assert FutureOk(v, g);
    FirstOfRing(v, h);
    if w.regs[g].Registered? {
      var m := w.regs[g].node;
      assert h in v.rings && m in v.rings[h] ==> InRingOf(v, m, h);
      assert InRingOf(v, m, h) ==> h in v.rings && v.rings[h] == v.rings[m];
    }
  }

  /** The item of future `f` has some place in ring `r`, behind the head, and the waker of its latest poll
      has the corresponding place among the `woken` ones. */
  ghost predicate WokenAt(w: World, f: Future, r: seq<Ptr>, woken: seq<Waker>) {
    && f in w.regs && w.regs[f].Registered? && f in w.wakers
    && |woken| == |r| - 1
    && exists i :: 0 < i < |r| && r[i] == w.regs[f].node && woken[i - 1] == w.wakers[f]
  }

  lemma BoundWoken(v: World, h: Ptr, f: Future)
    requires WorldOk(v) && h in v.handles && h !in v.cancelled
    requires f in v.regs && v.regs[f].Registered? && f in v.bound && v.bound[f] == h
    ensures h in v.rings && WokenAt(v, f, v.rings[h], Wakers(v.mem, v.rings[h]))
  {
    hide RingsOk;
    var n := v.regs[f].node;
    assert FutureOk(v, f) && InRingOf(v, n, h) && CellOk(v, h);
    RingOfItem(v.mem, v.rings, n);
    var r := v.rings[n];
    assert r[0] in r;
    var i :| 0 <= i < |r| && r[i] == n;
    assert i != 0;
    WakersAt(v.mem, r, |r|);
    assert r[..|r|] == r;
  }

  lemma RingOfItem(mem: Memory, rings: Rings, n: Ptr)
    requires RingsOk(mem, rings) && n in rings
    ensures n in rings[n] && |rings[n]| >= 2 && rings[n][0] in rings && rings[rings[n][0]] == rings[n]
    ensures forall p :: p in rings[n] ==> p in mem && mem[p].Linked?
    ensures forall i :: 0 < i < |rings[n]| ==> rings[n][i] in mem && mem[rings[n][i]].Linked?
                                               && mem[rings[n][i]].kind.Item?
  {
    var r := rings[n];
    assert r[0] in r;
    forall i | 0 < i < |r| ensures r[i] in mem && mem[r[i]].Linked? {
      assert r[i] in r;
    }
  }

  /** The memory and rings `unlink` leaves behind when `x`, at index `i` of its ring, was linked. */
  ghost predicate UnlinkedFrom(mem: Memory, rings: Rings, mem': Memory, rings': Rings, x: Ptr, i: nat) {
    && x in rings && i < |rings[x]| && rings[x][i] == x
    && x in mem && mem[x].Linked?
    && mem[x].prev in rings && mem[x].prev in mem && mem[mem[x].prev].Linked? && mem[x].prev != x
    && mem[x].next in rings && mem[x].next in mem && mem[mem[x].next].Linked? && mem[x].next != x
    && mem' == (if mem[x].prev == mem[x].next then UnlinkPair(mem, x) else UnlinkMiddle(mem, x))
    && rings' == Replace(rings, rings[x], Shrink(rings[x], i))
    && RingsOk(mem', rings')
  }

  lemma FreedByUnlink(v: World, mem': Memory, rings': Rings, x: Ptr, i: nat)
    requires RingsOk(v.mem, v.rings) && UnlinkedFrom(v.mem, v.rings, mem', rings', x, i)
    ensures Freed(v, v.(mem := mem' - {x}, rings := rings'), x, i)
  {
    hide IsRing;
    var w := v.(mem := mem' - {x}, rings := rings');
    var r := v.rings[x];
    assert x !in rings' by {
      RingDistinct(v.mem, v.rings, x);
      RemoveAtMembers(r, i);
      assert x in r;
    }
    OffRingOk(mem', rings', w.mem);
    NeighbourMembers(v.mem, v.rings, x);
    forall p | p in w.mem ensures Spared(v, w, x, p) {
      UnlinkSpares(v.mem, mem', r, x, p);
    }
  }

  lemma FreedUnlinked(v: World, x: Ptr, i: nat)
    requires RingsOk(v.mem, v.rings) && x in v.mem && !v.mem[x].Linked?
    ensures Freed(v, v.(mem := v.mem - {x}), x, i)
  {
    hide IsRing;
    OffRingOk(v.mem, v.rings, v.mem - {x});
  }

  lemma UnlinkSpares(mem: Memory, mem': Memory, r: seq<Ptr>, x: Ptr, p: Ptr)
    requires x in mem && mem[x].Linked? && mem[x].prev in r && mem[x].next in r
    requires forall q :: q in r ==> q in mem && mem[q].Linked?
    requires mem[x].prev != x && mem[x].next != x
    requires mem' == if mem[x].prev == mem[x].next then UnlinkPair(mem, x) else UnlinkMiddle(mem, x)
    requires p in mem' && p != x
    ensures p in mem
    ensures p !in r ==> mem'[p] == mem[p]
    ensures p in r ==> !mem'[p].Canceled? && (mem'[p].Linked? ==> mem'[p].kind == mem[p].kind)
  {
  }

  lemma NeighbourMembers(mem: Memory, rings: Rings, x: Ptr)
    requires RingsOk(mem, rings) && x in rings
    ensures mem[x].prev in rings[x] && mem[x].next in rings[x] && mem[x].prev != x && mem[x].next != x
    ensures forall p :: p in rings[x] ==> p in mem && mem[p].Linked?
  {
    var i := Neighbours(mem, rings, x);
  }

  lemma RingOfHead(mem: Memory, rings: Rings, head: Ptr)
    requires RingsOk(mem, rings) && head in mem && mem[head].Linked? && mem[head].kind.Head?
    ensures head in rings && IsRing(mem, rings[head]) && rings[head][0] == head
    ensures mem[head].next == rings[head][1]
    ensures CancelAll(mem, rings[head][..1]) == mem[head := Canceled] && Wakers(mem, rings[head][..1]) == []
  {
    var r := rings[head];
    HeadIsFirst(mem, r, head);
    assert Threaded(mem, r, 0);
    assert r[..1] == [head] && r[..1][..0] == [];
  }

  /** The `k`-th cell of the ring when the cells before it have been cancelled. */
  lemma CancelStep(mem: Memory, r: seq<Ptr>, k: nat)
    requires IsRing(mem, r) && 1 <= k < |r|
    ensures r[k] in mem && r[k] in CancelAll(mem, r[..k]) && CancelAll(mem, r[..k])[r[k]] == mem[r[k]]
    ensures r[k] != r[0] && mem[r[k]].Linked? && mem[r[k]].kind.Item?
    ensures mem[r[k]].next == if k + 1 == |r| then r[0] else r[k + 1]
    ensures CancelAll(mem, r[..k])[r[k] := Canceled] == CancelAll(mem, r[..k + 1])
    ensures Wakers(mem, r[..k + 1]) == Wakers(mem, r[..k]) + [mem[r[k]].kind.waker]
  {
    hide CancelAll, Wakers;
    assert r[0] in r && r[k] in r;
    assert Threaded(mem, r, k) && r[k] !in r[..k];
    CancelOne(mem, r, k);
  }

  lemma CancelFirst(mem: Memory, r: seq<Ptr>)
    requires IsRing(mem, r) && mem[r[0]].kind.Head?
    ensures |r| >= 2 && r[0] in mem && forall k :: 0 < k < |r| ==> r[k] != r[0]
    ensures CancelAll(mem, r[..1]) == mem[r[0] := Canceled] && Wakers(mem, r[..1]) == []
  {
    assert r[0] in r && r[..1] == [r[0]] && r[..1][..0] == [];
  }

  lemma CancelOne(mem: Memory, r: seq<Ptr>, k: nat)
    requires k < |r| && r[k] in mem && r[k] !in r[..k] && mem[r[k]].Linked? && mem[r[k]].kind.Item?
    ensures r[k] in CancelAll(mem, r[..k]) && CancelAll(mem, r[..k])[r[k]] == mem[r[k]]
    ensures CancelAll(mem, r[..k])[r[k] := Canceled] == CancelAll(mem, r[..k + 1])
    ensures Wakers(mem, r[..k + 1]) == Wakers(mem, r[..k]) + [mem[r[k]].kind.waker]
  {
    assert r[..k + 1] == r[..k] + [r[k]];
    assert r[..k + 1][..k] == r[..k];
  }

  lemma CreateHandleOk(v: World, w: World)
    requires WorldOk(v)
    requires w == v.(next := v.next + 1, mem := v.mem[v.next := Unlinked], handles := v.handles + {v.next})
    ensures WorldOk(w)
  {
    hide IsRing;
    var h := v.next;
    assert h !in v.mem by {
      assert h in v.mem ==> CellOk(v, h);
    }
    OffRingOk(v.mem, v.rings, w.mem);
    forall p | p in w.mem ensures CellOk(w, p) {
      assert p != h ==> CellOk(v, p);
    }
    forall g | g in w.regs ensures FutureOk(w, g) {
      assert FutureOk(v, g);
      if w.regs[g].Registered? {
        FirstOfRing(v, w.regs[g].node);
      }
    }
  }

  /** What `link` needs when the node of an unregistered future has been put into place. */
  lemma RegisterReady(v: World, f: Future)
    requires WorldOk(v) && f in v.regs && v.regs[f].WillRegister?
    ensures var n, h := v.next, v.regs[f].head;
      && f in v.bound && v.bound[f] == h && h in v.handles && h in v.mem && h != n && n !in v.mem
      && (v.mem[h].Linked? ==> v.mem[h].kind.Head?)
      && (v.mem[h].Canceled? <==> h in v.cancelled)
      && (forall p :: p in v.mem ==> p <= n)
      && RingsOk(v.mem, v.rings)
      && RingsOk(v.mem[n := Unlinked], v.rings)
  {
    hide IsRing;
    var n := v.next;
    assert FutureOk(v, f) && CellOk(v, v.regs[f].head);
    forall p | p in v.mem ensures p < n {
      assert CellOk(v, p);
    }
    OffRingOk(v.mem, v.rings, v.mem[n := Unlinked]);
  }

  /** The cells of the world `v` that gains node `n`, linked to `h` by `Link`. */
  lemma JoinedByLink(v: World, w: World, n: Ptr, h: Ptr, waker: Waker, p: Ptr)
    requires n !in v.mem && n !in v.rings && LinkEffect(v, w, n, h, waker)
    requires h in v.rings <==> v.mem[h].Linked?
    requires forall q :: q in v.rings ==> q in v.mem && v.mem[q].Linked? && |v.rings[q]| > 0
    requires h in v.rings ==>
               h in v.rings[h] && forall q :: q in v.rings[h] ==> q in v.rings && v.rings[q] == v.rings[h]
    requires p in w.mem
    ensures p in v.mem || p == n
    ensures Joined(v, w, n, h, p)
    ensures p == n ==> WokenBy(w, n, h, waker)
  {
  }

  /** `f` was cancelled while its inner future was polled for the first time: the node `v.next`
      made for it in world `u` is freed again. */
  lemma GiveUpOk(v: World, u: World, w: World, f: Future, i: nat)
    requires WorldOk(v) && f in v.regs && v.regs[f].WillRegister?
    requires u.mem == v.mem[v.next := Unlinked] && u.rings == v.rings
    requires Freed(u, u.(mem := w.mem, rings := w.rings), v.next, i)
    requires w == v.(mem := w.mem, rings := w.rings, next := v.next + 1, regs := v.regs[f := Terminated])
    ensures WorldOk(w)
  {
    hide IsRing, FutureOk;
    GiveUpMemory(v, u, w, i);
    forall g | g in w.regs ensures FutureOk(w, g) {
      hide CellOk, RingsOk;
      KeptFuture(v, w, f, g);
    }
    forall p | p in w.mem ensures CellOk(w, p) {
      assert CellOk(v, p);
    }
  }

  /** The node that was made and freed has left no trace. */
  lemma GiveUpMemory(v: World, u: World, w: World, i: nat)
    requires WorldOk(v) && u.mem == v.mem[v.next := Unlinked] && u.rings == v.rings
    requires Freed(u, u.(mem := w.mem, rings := w.rings), v.next, i)
    ensures w.mem == v.mem && w.rings == v.rings
  {
    hide FutureOk;
    assert v.next !in v.mem by {
      assert v.next in v.mem ==> CellOk(v, v.next);
    }
    assert v.next !in v.rings;
    forall p | p in w.mem ensures p in v.mem && w.mem[p] == v.mem[p] {
      assert Spared(u, u.(mem := w.mem, rings := w.rings), v.next, p);
    }
  }

  /** If node `n` is linked it stores `waker`, and it is linked behind handle `h` if that is alive. */
  ghost predicate WokenBy(w: World, n: Ptr, h: Ptr, waker: Waker) {
    && n in w.mem
    && (w.mem[n].Linked? ==> w.mem[n].kind == Item(waker))
    && (h in w.handles ==> w.mem[n].Linked? && InRingOf(w, n, h))
  }

  /** What `Link` does to the memory and rings of `v` after it has gained the unlinked node `n`. */
  ghost predicate LinkEffect(v: World, w: World, n: Ptr, h: Ptr, waker: Waker) {
    var mem := v.mem[n := Unlinked];
    && h in v.mem && !v.mem[h].Canceled? && h != n
    && (v.mem[h].Unlinked? ==>
          w.mem == LinkPair(mem, n, waker, h) && w.rings == Replace(v.rings, [], [h, n]))
    && (v.mem[h].Linked? ==>
          && v.mem[h].kind.Head? && v.mem[h].prev in mem && mem[v.mem[h].prev].Linked?
          && h in v.rings && |v.rings[h]| > 0 && v.rings[h][0] == h
          && mem[h].Linked? && w.mem == LinkLast(mem, n, waker, h)
          && w.rings == Replace(v.rings, v.rings[h], v.rings[h] + [n]))
  }

  /** `LinkEffect` only speaks about memory and rings. */
  lemma SameEffect(u: World, w: World, u': World, w': World, n: Ptr, h: Ptr, waker: Waker)
    requires LinkEffect(u, w, n, h, waker)
    requires u'.mem == u.mem && u'.rings == u.rings && w'.mem == w.mem && w'.rings == w.rings
    ensures LinkEffect(u', w', n, h, waker)
  {
  }

  lemma LinkJoins(v: World, w: World, n: Ptr, h: Ptr, waker: Waker)
    requires RingsOk(v.mem, v.rings) && n !in v.mem && LinkEffect(v, w, n, h, waker)
    ensures forall p :: p in w.mem <==> p in v.mem || p == n
    ensures forall p :: p in w.mem ==> Joined(v, w, n, h, p)
    ensures WokenBy(w, n, h, waker)
  {
    forall p | p in w.mem ensures (p in v.mem || p == n) && Joined(v, w, n, h, p) {
      JoinedByLink(v, w, n, h, waker, p);
    }
    JoinedByLink(v, w, n, h, waker, n);
  }

  lemma LinkedOk(v: World, w: World, f: Future, waker: Waker)
    requires WorldOk(v) && f in v.regs && v.regs[f].WillRegister? && v.bound[f] !in v.cancelled
    requires LinkEffect(v, w, v.next, v.bound[f], waker) && RingsOk(w.mem, w.rings)
    requires w == v.(mem := w.mem, next := v.next + 1, regs := v.regs[f := Registered(v.next)], rings := w.rings,
                     wakers := v.wakers[f := waker])
    ensures WorldOk(w) && WokenBy(w, v.next, v.bound[f], waker)
  {
    hide IsRing;
    assert v.next in v.mem ==> CellOk(v, v.next);
    LinkJoins(v, w, v.next, v.bound[f], waker);
    RegisterOk(v, w, f, waker);
  }

  lemma RefreshOk(v: World, w: World, f: Future, waker: Waker)
    requires WorldOk(v) && f in v.regs && v.regs[f].Registered? && v.bound[f] !in v.cancelled
    requires v.regs[f].node in v.mem
    requires w == v.(mem := StoreWaker(v.mem, v.regs[f].node, waker), wakers := v.wakers[f := waker])
    ensures WorldOk(w) && WokenBy(w, v.regs[f].node, v.bound[f], waker)
  {
    var n := v.regs[f].node;
    assert FutureOk(v, f) && CellOk(v, n);
    StoreWakerOk(v.mem, v.rings, n, waker);
    forall p | p in w.mem ensures CellOk(w, p) {
      assert CellOk(v, p);
    }
    forall g | g in w.regs ensures FutureOk(w, g) {
      assert FutureOk(v, g);
    }
  }

  /** The node a future looks at, its handle's or its own, is marked exactly if its handle was cancelled. */
  lemma CancelSeen(w: World, f: Future)
    requires WorldOk(w) && f in w.regs && !w.regs[f].Terminated?
    ensures f in w.bound
    ensures var n := if w.regs[f].WillRegister? then w.regs[f].head else w.regs[f].node;
      n in w.mem && (w.mem[n].Canceled? <==> w.bound[f] in w.cancelled)
  {
    hide RingsOk;
    assert FutureOk(w, f);
    assert w.regs[f].WillRegister? ==> CellOk(w, w.regs[f].head);
  }

  /** `w` is `v` without the node of registration `r`, if it has one; handles stay as they are. */
  ghost predicate ReleasedFrom(v: World, w: World, r: Registration, i: nat) {
    && (if r.Registered? then Freed(v, w, r.node, i) else w.mem == v.mem && w.rings == v.rings)
    && w == v.(mem := w.mem, rings := w.rings, regs := w.regs)
  }

  // ---------------------------------------------------------------- what each operation does

  ghost predicate HandleCreated(v: World, w: World) {
    w == v.(next := v.next + 1, mem := v.mem[v.next := Unlinked], handles := v.handles + {v.next})
  }

  ghost predicate FutureBound(v: World, h: Ptr, f: Future, w: World) {
    && f !in v.regs && f !in v.bound
    && w == v.(regs := v.regs[f := WillRegister(h)], bound := v.bound[f := h])
  }

  ghost predicate HandleDropped(v: World, h: Ptr, i: nat, w: World) {
    Freed(v, w, h, i) && w == v.(mem := w.mem, rings := w.rings, handles := v.handles - {h})
  }

  /** The inner future was dropped, which did `onDrop`; then the registration went, and the future itself too
      unless it just terminated. */
  ghost predicate Dropped(v: World, f: Future, onDrop: seq<Op>, busy: set<Future>, stays: bool, w: World)
    decreases Size(onDrop), 3
  {
    exists u, i :: Runs(v, onDrop, busy + {f}, u) && ReleasedTo(u, f, i, stays, w)
  }

  ghost predicate ReleasedTo(u: World, f: Future, i: nat, stays: bool, w: World) {
    && f in u.regs && ReleasedFrom(u, w, u.regs[f], i)
    && w.regs == if stays then u.regs[f := Terminated] else u.regs - {f}
  }

  /** A future that could not register any more gave its node back. */
  ghost predicate GaveUp(v: World, f: Future, w: World)
    requires f in v.regs
  {
    w == if v.regs[f].WillRegister? then v.(next := v.next + 1, regs := v.regs[f := Terminated]) else v
  }

  /** A pending future was registered, or its stored waker refreshed. */
  ghost predicate Pended(v: World, f: Future, waker: Waker, w: World)
    requires f in v.regs
  {
    match v.regs[f]
    case WillRegister(h) =>
      && LinkEffect(v, w, v.next, h, waker)
      && w == v.(mem := w.mem, next := v.next + 1, regs := v.regs[f := Registered(v.next)], rings := w.rings,
                 wakers := v.wakers[f := waker])
    case Registered(n) =>
      n in v.mem && w == v.(mem := StoreWaker(v.mem, n, waker), wakers := v.wakers[f := waker])
    case Terminated => false
  }

  /** A poll with its result: the inner future is polled, and does `inner`, exactly if the handle has not been
      cancelled before. */
  ghost predicate Polled(v: World, f: Future, waker: Waker, inner: seq<Op>, ready: bool, onDrop: seq<Op>,
                         busy: set<Future>, result: PollResult, w: World)
    requires f in v.bound
    decreases Size(inner) + Size(onDrop), 5
  {
    if v.bound[f] in v.cancelled then result == Err && Dropped(v, f, onDrop, busy, true, w)
    else exists u :: Runs(v, inner, busy + {f}, u) && Concluded(u, f, waker, ready, onDrop, busy, result, w)
  }

  /** What happens after the inner future was polled. */
  ghost predicate Concluded(u: World, f: Future, waker: Waker, ready: bool, onDrop: seq<Op>, busy: set<Future>,
                            result: PollResult, w: World)
    decreases Size(onDrop), 4
  {
    && f in u.regs && f in u.bound
    && if ready then result == Completed && Dropped(u, f, onDrop, busy, true, w)
       else if u.bound[f] !in u.cancelled then result == Pending && Pended(u, f, waker, w)
       else result == Err && exists x :: GaveUp(u, f, x) && Dropped(x, f, onDrop, busy, true, w)
  }

  /** One operation, while the futures `busy` are being polled or dropped; one that ownership forbids is
      skipped. */
  ghost predicate Step(v: World, op: Op, busy: set<Future>, w: World)
    decreases OpSize(op), 1
  {
    match op
    case NewHandle => HandleCreated(v, w)
    case OrCancel(h) => if h in v.handles then exists f :: FutureBound(v, h, f, w) else w == v
    case Cancel(h) => if h in v.handles then CancelledFrom(v, w, h) else w == v
    case DropHandle(h) =>
      if h in v.handles && Unreferenced(v, h) then exists i :: HandleDropped(v, h, i, w) else w == v
    case Poll(f, waker, inner, ready, onDrop) =>
      if f in v.regs && !v.regs[f].Terminated? && f !in busy then
        f in v.bound && exists result :: Polled(v, f, waker, inner, ready, onDrop, busy, result, w)
      else w == v
    case DropFuture(f, onDrop) =>
      if f in v.regs && f !in busy then Dropped(v, f, onDrop, busy, false, w) else w == v
  }

  ghost predicate Runs(v: World, ops: seq<Op>, busy: set<Future>, w: World)
    decreases Size(ops), 2
  {
    if ops == [] then w == v
    else exists u :: Step(v, ops[0], busy, u) && Runs(u, ops[1..], busy, w)
  }

  lemma RunsNothing(v: World, busy: set<Future>)
    ensures Runs(v, [], busy, v)
  {
  }

  lemma RunsMore(v: World, ops: seq<Op>, busy: set<Future>, u: World, w: World)
    requires ops != [] && Step(v, ops[0], busy, u) && Runs(u, ops[1..], busy, w)
    ensures Runs(v, ops, busy, w)
  {
  }

  lemma NodeThere(v: World, f: Future)
    requires WorldOk(v) && f in v.regs
    ensures RingsOk(v.mem, v.rings) && (v.regs[f].Registered? ==> v.regs[f].node in v.mem)
  {
    hide RingsOk;
    assert FutureOk(v, f);
  }

  /** Between `v` and `u` the node of future `f` was freed, and in `w` the future is gone or finished. */
  lemma ReleasedOk(v: World, u: World, w: World, f: Future, i: nat)
    requires WorldOk(v) && f in v.regs && ReleasedFrom(v, u, v.regs[f], i)
    requires u == v.(mem := u.mem, rings := u.rings) && w == u.(regs := w.regs)
    requires w.regs == v.regs - {f} || w.regs == v.regs[f := Terminated]
    ensures WorldOk(w) && ReleasedFrom(v, w, v.regs[f], i)
  {
    hide RingsOk, FutureOk;
    if v.regs[f].Registered? {
      FreeItemOk(v, w, f, i);
    } else {
      forall g | g in w.regs ensures FutureOk(w, g) {
        KeptFuture(v, w, f, g);
      }
    }
  }

  lemma KeptFuture(v: World, w: World, f: Future, g: Future)
    requires g in w.regs && g in v.regs && FutureOk(v, g)
    requires w == v.(regs := w.regs, next := w.next) && v.next <= w.next
    requires w.regs[g] == v.regs[g] || w.regs[g] == Terminated
    ensures FutureOk(w, g)
  {
  }

  // ---------------------------------------------------------------- the program

  class Registry {
    var mem: Memory
    var next: Ptr
    var handles: set<Ptr>
    var regs: map<Future, Registration>
    var nextFuture: Future
    var woken: seq<Waker>

    ghost var rings: Rings
    ghost var bound: map<Future, Ptr>
    ghost var cancelled: set<Ptr>
    ghost var wakers: map<Future, Waker>

    ghost function View(): World
      reads this
    {
      World(mem, next, handles, regs, rings, bound, cancelled, wakers, woken)
    }

    ghost predicate Valid()
      reads this
    {
      && WorldOk(View())
      && (forall f :: f in bound ==> f < nextFuture)
    }

    constructor ()
      ensures Valid() && mem == map[] && regs == map[] && handles == {} && woken == []
    {
      mem, next, handles, regs, nextFuture, woken := map[], 0, {}, map[], 0, [];
      rings, bound, cancelled, wakers := map[], map[], {}, map[];
    }

    /** `NodeInner::link`: append `this_` to the ring of `head`. */
    method Link(this_: Ptr, waker: Waker, head: Ptr) returns (ok: bool)
      requires RingsOk(mem, rings)
      requires this_ in mem && mem[this_].Unlinked? && head in mem && head != this_
      requires forall p :: p in mem ==> p <= this_
      requires mem[head].Linked? ==> mem[head].kind.Head?
      modifies `mem, `rings
      ensures RingsOk(mem, rings)
      ensures ok <==> !old(mem)[head].Canceled?
      ensures old(mem)[head].Canceled? ==> mem == old(mem) && rings == old(rings)
      ensures old(mem)[head].Unlinked? ==>
                && mem == LinkPair(old(mem), this_, waker, head)
                && rings == Replace(old(rings), [], [head, this_])
      ensures old(mem)[head].Linked? ==>
                && old(mem)[head].prev in old(mem) && old(mem)[old(mem)[head].prev].Linked?
                && head in old(rings) && |old(rings)[head]| > 0 && old(rings)[head][0] == head
                && mem == LinkLast(old(mem), this_, waker, head)
                && rings == Replace(old(rings), old(rings)[head], old(rings)[head] + [this_])
    {
      match mem[head]
      case Unlinked =>
        LinkPairOk(mem, rings, this_, waker, head);
        mem := mem[head := Linked(Head, this_, this_)];
        mem := mem[this_ := Linked(Item(waker), head, head)];
        rings := Replace(rings, [], [head, this_]);
        ok := true;
      case Linked(Head, prev, _) =>
        LinkLastOk(mem, rings, this_, waker, head);
        match mem[prev] {
          case Linked(Item(_), _, prevNext) =>
            ghost var r := rings[head];
            mem := mem[head := mem[head].(prev := this_)];
            mem := mem[prev := mem[prev].(next := this_)];
            mem := mem[this_ := Linked(Item(waker), prev, prevNext)];
            rings := Replace(rings, r, r + [this_]);
            ok := true;
          case _ =>
            assert false;
        }
      case Canceled =>
        ok := false;
      case Linked(Item(_), _, _) =>
        assert false;
    }

    /** `NodeInner::update_waker`. */
    method UpdateWaker(n: Ptr, waker: Waker) returns (ok: bool)
      requires n in mem && (mem[n].Linked? ==> mem[n].kind.Item?)
      modifies `mem
      ensures ok <==> !old(mem)[n].Canceled?
      ensures mem == StoreWaker(old(mem), n, waker)
    {
      match mem[n]
      case Unlinked =>
        ok := true;
      case Linked(Item(stored), _, _) =>
        if stored != waker {
          mem := mem[n := mem[n].(kind := Item(waker))];
        }
        ok := true;
      case Canceled =>
        ok := false;
      case Linked(Head, _, _) =>
        assert false;
    }

    /** `NodeInner::unlink`: take `x` out of its ring, if it is in one. */
    method Unlink(x: Ptr) returns (ghost i: nat)
      requires x in mem && RingsOk(mem, rings)
      modifies `mem, `rings
      ensures !old(mem)[x].Linked? ==> rings == old(rings) && mem == old(mem)[x := Unlinked]
      ensures old(mem)[x].Linked? ==> UnlinkedFrom(old(mem), old(rings), mem, rings, x, i)
    {
      i := 0;
      match mem[x]
      case Linked(_, prev, next) =>
        i := UnlinkOk(mem, rings, x);
        ghost var r := rings[x];
        mem := mem[x := Unlinked];
        if prev == next {
          mem := mem[prev := Unlinked];
        } else {
          match mem[prev] {
            case Linked(kind, prevPrev, _) => mem := mem[prev := Linked(kind, prevPrev, next)];
            case _ => assert false;
          }
          match mem[next] {
            case Linked(kind, _, nextNext) => mem := mem[next := Linked(kind, prev, nextNext)];
            case _ => assert false;
          }
        }
        rings := Replace(rings, r, Shrink(r, i));
      case _ =>
        mem := mem[x := Unlinked];
    }

    /** `Drop for Node`: unlink the node and release its memory. */
    method FreeNode(x: Ptr) returns (ghost i: nat)
      requires x in mem && RingsOk(mem, rings)
      modifies `mem, `rings
      ensures Freed(old(View()), View(), x, i)
    {
      hide RingsOk;
      ghost var v := View();
      i := Unlink(x);
      if v.mem[x].Linked? {
        FreedByUnlink(v, mem, rings, x, i);
      } else {
        FreedUnlinked(v, x, i);
        assert mem - {x} == v.mem - {x};
      }
      mem := mem - {x};
      assert View() == v.(mem := mem, rings := rings);
    }

    /** `NodeInner::cancel`: mark the head and walk its ring, waking every stored waker. */
    method CancelNode(head: Ptr)
      requires head in mem && RingsOk(mem, rings)
      requires mem[head].Linked? ==> mem[head].kind.Head?
      modifies `mem, `rings, `woken
      ensures !old(mem)[head].Linked? ==>
                mem == old(mem)[head := Canceled] && rings == old(rings) && woken == old(woken)
      ensures old(mem)[head].Linked? ==>
                && head in old(rings) && |old(rings)[head]| > 0 && old(rings)[head][0] == head
                && mem == CancelAll(old(mem), old(rings)[head])
                && rings == Replace(old(rings), old(rings)[head], [])
                && woken == old(woken) + Wakers(old(mem), old(rings)[head])
    {
      match mem[head]
      case Linked(Head, _, next) =>
        RingOfHead(mem, rings, head);
        CancelItems(head, next, mem, rings[head]);
        rings := Replace(rings, rings[head], []);
      case Unlinked =>
        mem := mem[head := Canceled];
      case Canceled =>
        mem := mem[head := Canceled];
      case Linked(Item(_), _, _) =>
        assert false;
    }

    /** The loop of `NodeInner::cancel`, with `mem0` the memory it starts from. */
    method CancelItems(head: Ptr, first: Ptr, ghost mem0: Memory, ghost r: seq<Ptr>)
      requires IsRing(mem0, r) && r[0] == head && r[1] == first
      requires head in mem && mem0 == mem && mem[head].Linked? && mem[head].kind.Head?
      modifies `mem, `woken
      ensures mem == CancelAll(mem0, r)
      ensures woken == old(woken) + Wakers(mem0, r)
    {
      hide IsRing, CancelAll, Wakers;
      CancelFirst(mem0, r);
      mem := mem[head := Canceled];
      var item := first;
      ghost var k := 1;
      while item != head
        invariant 1 <= k <= |r| && item == if k == |r| then head else r[k]
        invariant mem == CancelAll(mem0, r[..k])
        invariant woken == old(woken) + Wakers(mem0, r[..k])
        decreases |r| - k
      {
        CancelStep(mem0, r, k);
        match mem[item] {
          case Linked(Item(waker), _, next) =>
            mem := mem[item := Canceled];
            woken := woken + [waker];
            item := next;
          case _ =>
            assert false;
        }
        k := k + 1;
      }
      assert k == |r| && r[..k] == r;
    }

    // -------------------------------------------------------------- handles and futures

    /** `CancelHandle::new_rc`. */
    method CreateHandle(ghost busy: set<Future>) returns (h: Ptr)
      requires Valid()
      modifies this
      ensures Valid() && Advances(old(View()), View(), busy)
      ensures woken == old(woken)
      ensures HandleCreated(old(View()), View()) && h == old(next) && h !in old(handles) && h !in cancelled
    {
      ghost var v := View();
      h := next;
      next := next + 1;
      mem := mem[h := Unlinked];
      handles := handles + {h};
      CreateHandleOk(v, View());
    }

    /** `or_cancel`: bind a new future to a live handle. */
    method BindFuture(h: Ptr, ghost busy: set<Future>) returns (f: Future)
      requires Valid() && h in handles
      modifies this
      ensures Valid() && Advances(old(View()), View(), busy)
      ensures FutureBound(old(View()), h, f, View()) && woken == old(woken)
    {
      hide RingsOk;
      ghost var v := View();
      assert CellOk(v, h);
      f := nextFuture;
      nextFuture := nextFuture + 1;
      regs := regs[f := WillRegister(h)];
      bound := bound[f := h];
      forall g | g in regs ensures FutureOk(View(), g) {
        assert g != f ==> FutureOk(v, g);
      }
    }

    /** `CancelHandle::cancel`. */
    method CancelHandle(h: Ptr, ghost busy: set<Future>)
      requires Valid() && h in handles
      modifies this
      ensures Valid() && Advances(old(View()), View(), busy)
      // every item in the ring is woken once, in registration order; no other cell is touched
      ensures CancelledFrom(old(View()), View(), h) && old(woken) <= woken
      // each pending future bound to it is woken through the waker of its latest poll, at the
      // place of its node in the ring
      ensures forall f :: f in regs && regs[f].Registered? && bound[f] == h && h !in old(cancelled) ==>
                h in old(rings) && WokenAt(View(), f, old(rings)[h], woken[|old(woken)|..])
    {
      ghost var v := View();
      assert CellOk(v, h);
      CancelNode(h);
      cancelled := cancelled + {h};
      CancelWorldOk(v, View(), h);
      forall f | f in regs && regs[f].Registered? && bound[f] == h && h !in v.cancelled
        ensures h in v.rings && WokenAt(View(), f, v.rings[h], woken[|old(woken)|..])
      {
        BoundWoken(v, h, f);
        assert woken[|old(woken)|..] == Wakers(v.mem, v.rings[h]);
      }
    }

    /** `Drop for CancelHandle`, which needs that no unregistered future refers to it. */
    method DropHandle(h: Ptr, ghost busy: set<Future>) returns (ghost i: nat)
      requires Valid() && h in handles && Unreferenced(View(), h)
      modifies this
      ensures Valid() && Advances(old(View()), View(), busy)
      ensures HandleDropped(old(View()), h, i, View()) && woken == old(woken)
    {
      hide RingsOk;
      ghost var v := View();
      assert CellOk(v, h);
      i := FreeNode(h);
      handles := handles - {h};
      FreeHandleOk(v, View(), h, i);
    }

    /** Dropping a future: the inner future is dropped first, while its node is still registered. */
    method DropFuture(f: Future, onDrop: seq<Op>, busy: set<Future>)
      requires Valid() && f in regs && f !in busy
      modifies this
      ensures Valid() && Advances(old(View()), View(), busy)
      ensures old(woken) <= woken && f !in regs
      ensures Dropped(old(View()), f, onDrop, busy, false, View())
      decreases Size(onDrop), 5
    {
      hide WorldOk, Advances, Runs, ReleasedFrom;
      ghost var u := View();
      Execute(onDrop, busy + {f});
      ghost var v := View();
      BoundOf(u, f);
      AdvancesFor(u, v, busy + {f}, f);
      ghost var i := Forget(f, busy);
      AdvancesTrans(u, v, View(), busy, busy + {f});
      assert ReleasedTo(v, f, i, false, View());
    }

    /** The rest of dropping a future: its registration, and with it its node, goes away. */
    method Forget(f: Future, ghost busy: set<Future>) returns (ghost i: nat)
      requires Valid() && f in regs && f !in busy
      modifies this
      ensures Valid() && Advances(old(View()), View(), busy)
      ensures ReleasedTo(old(View()), f, i, false, View()) && woken == old(woken)
    {
      hide WorldOk, ReleasedFrom, Advances;
      ghost var v := View();
      i := FreeRegistration(f);
      ghost var u := View();
      regs := regs - {f};
      ReleasedOk(v, u, View(), f, i);
      AdvancesPast(v, View(), f, busy);
    }

    /** `Cancelable::poll`: check for cancellation, poll the inner future (which may run the
        operations `inner` on anything but the futures being polled), and if it is still
        pending, register with the handle or refresh the stored waker. */
    method PollFuture(f: Future, waker: Waker, inner: seq<Op>, ready: bool, onDrop: seq<Op>, busy: set<Future>)
      returns (result: PollResult)
      requires Valid() && f in regs && !regs[f].Terminated? && f !in busy
      modifies this
      ensures Valid() && Advances(old(View()), View(), busy)
      ensures old(woken) <= woken
      ensures f in bound && bound[f] == old(bound)[f]
      // cancelled before the poll: the inner future is not polled at all, only dropped
      ensures bound[f] in old(cancelled) ==> result == Err
      ensures bound[f] in old(cancelled) && onDrop == [] ==> cancelled == old(cancelled) && handles == old(handles)
      // otherwise a ready inner future wins, and cancellation during the poll is reported by this poll
      ensures bound[f] !in old(cancelled) && ready ==> result == Completed
      ensures bound[f] !in old(cancelled) && !ready ==>
                result == if bound[f] in cancelled then Err else Pending
      // a pending future is woken through `waker` as long as its handle is alive
      ensures result == Pending ==>
                f in regs && regs[f].Registered? && WokenBy(View(), regs[f].node, bound[f], waker)
                && f in wakers && wakers[f] == waker
      ensures result != Pending ==> f in regs && regs[f] == Terminated
      // and everything it does
      ensures f in old(bound) && Polled(old(View()), f, waker, inner, ready, onDrop, busy, result, View())
      decreases Size(inner) + Size(onDrop), 6
    {
      hide WorldOk, FutureOk, WokenBy, Advances, Runs, Dropped, GaveUp, Pended;
      ghost var u := View();
      CancelSeen(u, f);
      var node := match regs[f] case WillRegister(h) => h case Registered(n) => n case Terminated => 0;
      if mem[node].Canceled? {
        Terminate(f, onDrop, busy);
        AdvancesFor(u, View(), busy, f);
        return Err;
      }
      Execute(inner, busy + {f});
      ghost var v := View();
      AdvancesFor(u, v, busy + {f}, f);
      if ready {
        Terminate(f, onDrop, busy);
        AdvancesFor(v, View(), busy, f);
        AdvancesTrans(u, v, View(), busy, busy + {f});
        assert Concluded(v, f, waker, ready, onDrop, busy, Completed, View());
        return Completed;
      }
      var ok := Settle(f, waker, busy);
      ghost var w := View();
      AdvancesTrans(u, v, w, busy, busy + {f});
      if !ok {
        Terminate(f, onDrop, busy);
        AdvancesFor(w, View(), busy, f);
        AdvancesTrans(u, w, View(), busy, busy);
        assert Concluded(v, f, waker, ready, onDrop, busy, Err, View());
        return Err;
      }
      assert Concluded(v, f, waker, ready, onDrop, busy, Pending, View());
      return Pending;
    }

    /** `Node::register`, when the inner future is pending. */
    method Settle(f: Future, waker: Waker, ghost busy: set<Future>) returns (ok: bool)
      requires Valid() && f in regs && !regs[f].Terminated? && f !in busy
      modifies this
      ensures Valid() && Advances(old(View()), View(), busy) && woken == old(woken)
      ensures f in bound && bound == old(bound) && cancelled == old(cancelled) && f in regs
      ensures ok <==> bound[f] !in cancelled
      ensures ok ==> regs[f].Registered? && WokenBy(View(), regs[f].node, bound[f], waker)
                     && f in wakers && wakers[f] == waker
      ensures if ok then Pended(old(View()), f, waker, View()) else GaveUp(old(View()), f, View())
    {
      hide WorldOk, WokenBy, Advances, LinkEffect, StoreWaker;
      if regs[f].WillRegister? {
        ok := Register(f, waker, busy);
      } else {
        ok := Refresh(f, waker, busy);
      }
    }

    /** `self.set(Cancelable::Terminated)`: the inner future is dropped before its registration. */
    method Terminate(f: Future, onDrop: seq<Op>, busy: set<Future>)
      requires Valid() && f in regs && f !in busy
      modifies this
      ensures Valid() && Advances(old(View()), View(), busy)
      ensures old(woken) <= woken && f in regs && regs[f] == Terminated
      ensures Dropped(old(View()), f, onDrop, busy, true, View())
      ensures onDrop == [] ==> cancelled == old(cancelled) && handles == old(handles)
      decreases Size(onDrop), 5
    {
      hide WorldOk, Advances, Runs, ReleasedFrom;
      ghost var u := View();
      Execute(onDrop, busy + {f});
      ghost var v := View();
      BoundOf(u, f);
      AdvancesFor(u, v, busy + {f}, f);
      ghost var i := Release(f, busy);
      AdvancesTrans(u, v, View(), busy, busy + {f});
      assert ReleasedTo(v, f, i, true, View());
    }

    /** Frees the node of a registered future. */
    method FreeRegistration(f: Future) returns (ghost i: nat)
      requires WorldOk(View()) && f in regs
      modifies `mem, `rings
      ensures ReleasedFrom(old(View()), View(), regs[f], i)
    {
      hide WorldOk, RingsOk, Freed;
      NodeThere(View(), f);
      i := 0;
      match regs[f] {
        case Registered(n) => i := FreeNode(n);
        case _ =>
      }
    }

    /** The rest of `self.set(Cancelable::Terminated)`: the registration is dropped, the future stays. */
    method Release(f: Future, ghost busy: set<Future>) returns (ghost i: nat)
      requires Valid() && f in regs && f !in busy
      modifies this
      ensures Valid() && Advances(old(View()), View(), busy)
      ensures ReleasedTo(old(View()), f, i, true, View()) && woken == old(woken)
      ensures handles == old(handles) && cancelled == old(cancelled)
    {
      hide WorldOk, ReleasedFrom, Advances;
      ghost var v := View();
      i := FreeRegistration(f);
      ghost var u := View();
      regs := regs[f := Terminated];
      ReleasedOk(v, u, View(), f, i);
      AdvancesPast(v, View(), f, busy);
    }

    /** First registration: the node moves into place and is linked to the handle. If the handle
        has been cancelled meanwhile the node, which nobody else refers to, goes at once. */
    method Register(f: Future, waker: Waker, ghost busy: set<Future>) returns (ok: bool)
      requires Valid() && f in regs && regs[f].WillRegister? && f !in busy
      modifies this
      ensures Valid() && Advances(old(View()), View(), busy)
      ensures woken == old(woken)
      ensures f in bound && bound == old(bound) && handles == old(handles) && cancelled == old(cancelled)
      ensures ok <==> bound[f] !in cancelled
      ensures ok ==> regs == old(regs)[f := Registered(old(next))] && WokenBy(View(), old(next), bound[f], waker)
      ensures if ok then Pended(old(View()), f, waker, View()) else GaveUp(old(View()), f, View())
    {
      hide WorldOk, RingsOk, LinkEffect, Advances, WokenBy;
      ghost var v := View();
      RegisterReady(v, f);
      var h := regs[f].head;
      var n := next;
      regs := regs[f := Registered(n)];
      ghost var u := View();
      ok := Attach(n, waker, h);
      if ok {
        ghost var w := View();
        wakers := wakers[f := waker];
        SameEffect(u, w, v, View(), n, h, waker);
        LinkedOk(v, View(), f, waker);
      } else {
        GiveUp(f, n, v);
      }
      AdvancesPast(v, View(), f, busy);
    }

    /** Puts the node of a future into place and links it. */
    method Attach(n: Ptr, waker: Waker, h: Ptr) returns (ok: bool)
      requires n == next && h in mem && h != n && n !in mem && forall p :: p in mem ==> p <= n
      requires mem[h].Linked? ==> mem[h].kind.Head?
      requires RingsOk(mem[n := Unlinked], rings)
      modifies `mem, `rings, `next
      ensures RingsOk(mem, rings) && next == n + 1
      ensures ok <==> !old(mem)[h].Canceled?
      ensures ok ==> LinkEffect(old(View()), View(), n, h, waker)
      ensures !ok ==> mem == old(mem)[n := Unlinked] && rings == old(rings)
    {
      hide RingsOk, LinkLast, LinkPair, Replace;
      next := next + 1;
      mem := mem[n := Unlinked];
      ok := Link(n, waker, h);
    }

    /** The node that could not be linked is freed again. */
    method GiveUp(f: Future, n: Ptr, ghost v: World)
      requires WorldOk(v) && f in v.regs && v.regs[f].WillRegister? && n == v.next
      requires n in mem && RingsOk(mem, rings)
      requires View() == v.(mem := v.mem[n := Unlinked], next := n + 1, regs := v.regs[f := Registered(n)])
      modifies `mem, `rings, `regs
      ensures WorldOk(View()) && GaveUp(v, f, View())
    {
      hide WorldOk, RingsOk, Freed;
      ghost var u := View();
      ghost var i := FreeNode(n);
      regs := regs[f := Terminated];
      GiveUpMemory(v, u, View(), i);
      GiveUpOk(v, u, View(), f, i);
    }

    /** Later polls: only the stored waker changes, unless the node was marked `Canceled`. */
    method Refresh(f: Future, waker: Waker, ghost busy: set<Future>) returns (ok: bool)
      requires Valid() && f in regs && regs[f].Registered? && f !in busy
      modifies this
      ensures Valid() && Advances(old(View()), View(), busy)
      ensures woken == old(woken)
      ensures f in bound && bound == old(bound) && handles == old(handles) && cancelled == old(cancelled)
      ensures ok <==> bound[f] !in cancelled
      ensures !ok ==> View() == old(View())
      ensures ok ==> regs == old(regs) && WokenBy(View(), regs[f].node, bound[f], waker)
      ensures ok ==> Pended(old(View()), f, waker, View())
    {
      hide RingsOk;
      ghost var v := View();
      var n := regs[f].node;
      assert FutureOk(v, f) && CellOk(v, n);
      ok := UpdateWaker(n, waker);
      if ok {
        wakers := wakers[f := waker];
        RefreshOk(v, View(), f, waker);
      }
    }

    /** Runs operations in order, skipping those that ownership forbids: using a dropped handle or
        future, polling a finished future, touching a future that is being polled, or dropping
        a handle that an unregistered future keeps alive. */
    method Execute(ops: seq<Op>, busy: set<Future>)
      requires Valid()
      modifies this
      ensures Valid() && Advances(old(View()), View(), busy)
      ensures old(woken) <= woken
      ensures ops == [] ==> View() == old(View())
      ensures Runs(old(View()), ops, busy, View())
      decreases Size(ops), 4
    {
      hide WorldOk, Advances, Step, Runs;
      ghost var u := View();
      AdvancesNone(u, busy);
      RunsNothing(u, busy);
      if ops == [] { return; }
      Do(ops[0], busy);
      ghost var v := View();
      Execute(ops[1..], busy);
      AdvancesTrans(u, v, View(), busy, busy);
      RunsMore(u, ops, busy, v, View());
    }

    method Do(op: Op, busy: set<Future>)
      requires Valid()
      modifies this
      ensures Valid() && Advances(old(View()), View(), busy) && Step(old(View()), op, busy, View())
      ensures old(woken) <= woken
      decreases OpSize(op), 3
    {
      hide WorldOk, Freed, WokenBy, WokenAt, Advances, Dropped, Polled, HandleCreated, FutureBound, CancelledFrom,
        HandleDropped, Wakers;
      AdvancesNone(View(), busy);
      match op
      case NewHandle =>
        var _ := CreateHandle(busy);
      case OrCancel(h) =>
        if h in handles { var _ := BindFuture(h, busy); }
      case Cancel(h) =>
        if h in handles { CancelHandle(h, busy); }
      case DropHandle(h) =>
        if h in handles && forall f :: f in regs ==> regs[f] != WillRegister(h) {
          ghost var _ := DropHandle(h, busy);
        }
      case Poll(f, waker, inner, ready, onDrop) =>
        if f in regs && !regs[f].Terminated? && f !in busy {
          var _ := PollFuture(f, waker, inner, ready, onDrop, busy);
        }
      case DropFuture(f, onDrop) =>
        if f in regs && f !in busy { DropFuture(f, onDrop, busy); }
    }
  }
}
