/**
 The intrusive ring of `NodeInner` cells behind `CancelHandle` and `Cancelable`
 (core/async_cancel.rs): the memory, the shape every reachable memory has, and
 how linking, unlinking and cancelling transform that shape.

 A pointer is the serial number of the pinned node it addresses; memory is a map
 from pointers to node contents.
 */
module CancelRing {
  import opened Sequences

  type Ptr = nat
  type Waker = nat

  datatype NodeKind = Head | Item(waker: Waker)

  datatype NodeInner =
    | Unlinked
    | Linked(kind: NodeKind, prev: Ptr, next: Ptr)
    | Canceled

  type Memory = map<Ptr, NodeInner>

  /** For every linked node, the ring it belongs to, listed from its head (when it has one)
      in registration order. */
  type Rings = map<Ptr, seq<Ptr>>

  function After(i: nat, n: nat): nat
    requires i < n
  {
    if i + 1 == n then 0 else i + 1
  }

  function Before(i: nat, n: nat): nat
    requires i < n
  {
    if i == 0 then n - 1 else i - 1
  }

  /** Nodes are numbered in the order they register, so a ring whose items are increasing
      lists them in registration order. The head, if any, comes first. */
  ghost predicate Ordered(mem: Memory, r: seq<Ptr>)
    requires forall p :: p in r ==> p in mem && mem[p].Linked?
  {
    && (forall i :: 0 < i < |r| ==> mem[r[i]].kind.Item?)
    && (forall i, j :: 0 <= i < j < |r| && mem[r[i]].kind.Item? ==> r[i] < r[j])
  }

  /** The cell at index `i` points at its successor and its predecessor in `r`. */
  ghost predicate Threaded(mem: Memory, r: seq<Ptr>, i: nat) {
    && i < |r|
    && r[i] in mem
    && mem[r[i]].Linked?
    && mem[r[i]].next == r[After(i, |r|)]
    && mem[r[i]].prev == r[Before(i, |r|)]
  }

  ghost predicate IsRing(mem: Memory, r: seq<Ptr>) {
    && |r| >= 2
    && Distinct(r)
    && (forall p :: p in r ==> p in mem && mem[p].Linked?)
    && (forall i: nat :: i < |r| ==> Threaded(mem, r, i))
    && Ordered(mem, r)
  }

  ghost predicate RingsOk(mem: Memory, rings: Rings) {
    && (forall p :: p in rings <==> p in mem && mem[p].Linked?)
    && (forall p :: p in rings ==> p in rings[p] && IsRing(mem, rings[p]))
    && (forall p, q :: p in rings && q in rings[p] ==> q in rings && rings[q] == rings[p])
  }

  /** Two rings are the same or share no node. */
  lemma RingsDisjoint(mem: Memory, rings: Rings, p: Ptr, q: Ptr)
    requires RingsOk(mem, rings) && p in rings && q in rings
    ensures rings[p] == rings[q] || forall x :: x in rings[p] ==> x !in rings[q]
  {
    if x :| x in rings[p] && x in rings[q] {
      assert rings[x] == rings[p] && rings[x] == rings[q];
    }
  }

  /** A ring none of whose cells changed is still a ring. */
  lemma RingUntouched(mem: Memory, mem': Memory, r: seq<Ptr>)
    requires IsRing(mem, r)
    requires forall p :: p in r ==> p in mem' && mem'[p] == mem[p]
    ensures IsRing(mem', r)
  {
    forall i: nat | i < |r| ensures Threaded(mem', r, i) {
      assert Threaded(mem, r, i) && r[i] in r;
    }
  }

  lemma RingDistinct(mem: Memory, rings: Rings, p: Ptr)
    requires RingsOk(mem, rings) && p in rings
    ensures Distinct(rings[p])
  {
  }

  /** Cells outside the rings may be created, freed or overwritten, as long as they stay unlinked. */
  lemma OffRingOk(mem: Memory, rings: Rings, mem': Memory)
    requires RingsOk(mem, rings)
    requires forall p :: p in rings ==> p in mem' && mem'[p] == mem[p]
    requires forall p :: p in mem' && p !in rings ==> !mem'[p].Linked?
    ensures RingsOk(mem', rings)
  {
    forall p | p in rings ensures IsRing(mem', rings[p]) {
      RingUntouched(mem, mem', rings[p]);
    }
  }

  // ---------------------------------------------------------------- views of a ring change

  /** `rings` after ring `r` has been replaced by `r'` (either may be empty: no ring). */
  function Replace(rings: Rings, r: seq<Ptr>, r': seq<Ptr>): Rings {
    map p | p in (rings.Keys - Members(r)) + Members(r') :: if p in r' then r' else rings[p]
  }

  function Members(r: seq<Ptr>): set<Ptr> {
    set p | p in r
  }

  function RemoveAt(r: seq<Ptr>, i: nat): (s: seq<Ptr>)
    requires i < |r|
  {
    r[..i] + r[i + 1..]
  }

  /** What is left of `r` without the node at index `i`: a ring of two dissolves. */
  function Shrink(r: seq<Ptr>, i: nat): seq<Ptr>
    requires i < |r|
  {
    if |r| == 2 then [] else RemoveAt(r, i)
  }

  /** Ring `r` of `mem` has made way for ring `r'` of `mem'`, and nothing else was written. */
  ghost predicate Replaces(mem: Memory, rings: Rings, mem': Memory, r: seq<Ptr>, r': seq<Ptr>) {
    && (forall p :: p in r ==> p in rings && rings[p] == r)
    && (forall p :: p in r' && p !in r ==> p !in rings)
    && (forall p :: p in r' ==> p in mem' && mem'[p].Linked?)
    && (forall p :: p in mem' && p !in r && p !in r' ==> p in mem)
    && (forall p :: p in mem && p !in r && p !in r' ==> p in mem' && mem'[p] == mem[p])
    && (forall p :: p in r && p !in r' && p in mem' ==> !mem'[p].Linked?)
  }

  /** Replacing one ring keeps the shape, provided no other ring's cells were written. */
  lemma ReplaceOk(mem: Memory, rings: Rings, mem': Memory, r: seq<Ptr>, r': seq<Ptr>)
    requires RingsOk(mem, rings) && Replaces(mem, rings, mem', r, r')
    requires r' == [] || IsRing(mem', r')
    ensures RingsOk(mem', Replace(rings, r, r'))
  {
    hide IsRing, RingsOk, Replaces, Replace;
    var rings' := Replace(rings, r, r');
    forall p ensures p in rings' <==> p in mem' && mem'[p].Linked? {
      ReplaceKey(mem, rings, mem', r, r', p);
    }
    forall p | p in rings'
      ensures p in rings'[p] && IsRing(mem', rings'[p])
      ensures forall q :: q in rings'[p] ==> q in rings' && rings'[q] == rings'[p]
    {
      ReplaceRing(mem, rings, mem', r, r', p);
    }
    assert RingsOk(mem', rings') by { RingsTogether(mem', rings'); }
  }

  lemma RingsTogether(mem: Memory, rings: Rings)
    requires forall p :: p in rings <==> p in mem && mem[p].Linked?
    requires forall p :: p in rings ==> p in rings[p] && IsRing(mem, rings[p])
    requires forall p :: p in rings ==> forall q :: q in rings[p] ==> q in rings && rings[q] == rings[p]
    ensures RingsOk(mem, rings)
  {
  }

  lemma ReplaceKey(mem: Memory, rings: Rings, mem': Memory, r: seq<Ptr>, r': seq<Ptr>, p: Ptr)
    requires RingsOk(mem, rings) && Replaces(mem, rings, mem', r, r')
    ensures p in Replace(rings, r, r') <==> p in mem' && mem'[p].Linked?
  {
    hide IsRing;
  }

  /** A node outside the old and the new ring keeps its ring, which meets neither. */
  lemma ReplaceRing(mem: Memory, rings: Rings, mem': Memory, r: seq<Ptr>, r': seq<Ptr>, p: Ptr)
    requires RingsOk(mem, rings) && Replaces(mem, rings, mem', r, r')
    requires r' == [] || IsRing(mem', r')
    requires p in Replace(rings, r, r')
    ensures var s := Replace(rings, r, r')[p];
      p in s && IsRing(mem', s) && forall q :: q in s ==> q in Replace(rings, r, r') && Replace(rings, r, r')[q] == s
  {
    hide IsRing;
    if p !in r' {
      RingUntouched(mem, mem', rings[p]);
    }
  }

  // ---------------------------------------------------------------- link

  function LinkPair(mem: Memory, this_: Ptr, waker: Waker, head: Ptr): Memory {
    mem[head := Linked(Head, this_, this_)][this_ := Linked(Item(waker), head, head)]
  }

  function LinkLast(mem: Memory, this_: Ptr, waker: Waker, head: Ptr): Memory
    requires head in mem && mem[head].Linked?
    requires mem[head].prev in mem && mem[mem[head].prev].Linked?
  {
    var last := mem[head].prev;
    var mem1 := mem[head := mem[head].(prev := this_)];
    var mem2 := mem1[last := mem1[last].(next := this_)];
    mem2[this_ := Linked(Item(waker), last, head)]
  }

  lemma LinkPairOk(mem: Memory, rings: Rings, this_: Ptr, waker: Waker, head: Ptr)
    requires RingsOk(mem, rings)
    requires head in mem && mem[head].Unlinked? && this_ in mem && mem[this_].Unlinked? && this_ != head
    ensures RingsOk(LinkPair(mem, this_, waker, head), Replace(rings, [], [head, this_]))
  {
    var mem', r := LinkPair(mem, this_, waker, head), [head, this_];
    assert Threaded(mem', r, 0) && Threaded(mem', r, 1);
    ReplaceOk(mem, rings, mem', [], r);
  }

  lemma LinkLastCell(mem: Memory, r: seq<Ptr>, this_: Ptr, waker: Waker, i: nat)
    requires |r| >= 2 && i < |r| && r[0] != r[|r| - 1] && r[i] != this_
    requires Threaded(mem, r, 0) && Threaded(mem, r, |r| - 1) && Threaded(mem, r, i)
    requires r[i] == r[0] <==> i == 0
    requires r[i] == r[|r| - 1] <==> i == |r| - 1
    ensures Threaded(LinkLast(mem, this_, waker, r[0]), r + [this_], i)
  {
  }

  lemma LinkLastRing(mem: Memory, r: seq<Ptr>, this_: Ptr, waker: Waker)
    requires IsRing(mem, r) && mem[r[0]].kind.Head?
    requires forall p :: p in r ==> p < this_
    ensures mem[r[0]].prev == r[|r| - 1] && r[|r| - 1] in r
    ensures IsRing(LinkLast(mem, this_, waker, r[0]), r + [this_])
  {
    var n, s := |r|, r + [this_];
    assert Threaded(mem, r, 0) && Threaded(mem, r, n - 1) && r[n - 1] in r;
    var mem' := LinkLast(mem, this_, waker, r[0]);
    forall i: nat | i < |s| ensures Threaded(mem', s, i) {
      if i < n {
        assert Threaded(mem, r, i) && r[i] in r;
        LinkLastCell(mem, r, this_, waker, i);
      }
    }
    assert forall p :: p in r ==> mem'[p].Linked? && mem'[p].kind == mem[p].kind;
    OrderedByKind(mem, mem', r);
    LastOrdered(mem', r, this_);
  }

  lemma LastOrdered(mem: Memory, r: seq<Ptr>, last: Ptr)
    requires forall p :: p in r ==> p in mem && mem[p].Linked? && p < last
    requires last in mem && mem[last].Linked? && mem[last].kind.Item?
    requires r != [] && Distinct(r) && Ordered(mem, r)
    ensures Distinct(r + [last]) && Ordered(mem, r + [last])
  {
    var s := r + [last];
    forall i, j | 0 <= i < j < |s|
      ensures s[i] != s[j] && mem[s[j]].kind.Item? && (mem[s[i]].kind.Item? ==> s[i] < s[j])
    {
      assert r[i] in r;
    }
  }

  lemma LinkLastOk(mem: Memory, rings: Rings, this_: Ptr, waker: Waker, head: Ptr)
    requires RingsOk(mem, rings)
    requires head in rings && mem[head].kind.Head?
    requires this_ in mem && mem[this_].Unlinked? && forall p :: p in mem ==> p <= this_
    ensures rings[head][0] == head
    ensures var last := mem[head].prev; last in rings && last != head && mem[last].kind.Item? && mem[last].next == head
    ensures RingsOk(LinkLast(mem, this_, waker, head), Replace(rings, rings[head], rings[head] + [this_]))
  {
    var r := rings[head];
    HeadIsFirst(mem, r, head);
    assert Threaded(mem, r, |r| - 1);
    LinkLastRing(mem, r, this_, waker);
    ReplaceOk(mem, rings, LinkLast(mem, this_, waker, head), r, r + [this_]);
  }

  lemma HeadIsFirst(mem: Memory, r: seq<Ptr>, head: Ptr)
    requires IsRing(mem, r) && head in r && mem[head].kind.Head?
    ensures r[0] == head
  {
    var i :| 0 <= i < |r| && r[i] == head;
  }

  // ---------------------------------------------------------------- unlink

  function UnlinkPair(mem: Memory, x: Ptr): Memory
    requires x in mem && mem[x].Linked?
  {
    mem[x := Unlinked][mem[x].prev := Unlinked]
  }

  function UnlinkMiddle(mem: Memory, x: Ptr): Memory
    requires x in mem && mem[x].Linked?
    requires mem[x].prev in mem && mem[mem[x].prev].Linked? && mem[x].prev != x
    requires mem[x].next in mem && mem[mem[x].next].Linked? && mem[x].next != x
  {
    var Linked(_, prev, next) := mem[x];
    var mem1 := mem[x := Unlinked];
    var mem2 := mem1[prev := mem1[prev].(next := next)];
    mem2[next := mem2[next].(prev := prev)]
  }

  /** Both neighbours of a linked node are linked, and they coincide only in a ring of two. */
  lemma Neighbours(mem: Memory, rings: Rings, x: Ptr) returns (i: nat)
    requires RingsOk(mem, rings) && x in rings
    ensures i < |rings[x]| && rings[x][i] == x
    ensures var r := rings[x]; var n := |r|;
      && mem[x].prev == r[Before(i, n)] && mem[x].next == r[After(i, n)]
      && mem[x].prev in rings && mem[x].next in rings && mem[x].prev != x && mem[x].next != x
      && (mem[x].prev == mem[x].next <==> n == 2)
  {
    var r := rings[x];
    i :| 0 <= i < |r| && r[i] == x;
    assert r[Before(i, |r|)] in r && r[After(i, |r|)] in r && Threaded(mem, r, i);
  }

  lemma RemoveAtIndex(r: seq<Ptr>, i: nat, k: nat)
    requires i < |r| && k < |r| - 1
    ensures |RemoveAt(r, i)| == |r| - 1
    ensures RemoveAt(r, i)[k] == r[if k < i then k else k + 1]
  {
  }

  lemma RemoveAtMembers(r: seq<Ptr>, i: nat)
    requires i < |r| && Distinct(r)
    ensures forall p :: p in RemoveAt(r, i) <==> p in r && p != r[i]
  {
    var s := RemoveAt(r, i);
    forall p | p in r && p != r[i] ensures p in s {
      var k :| 0 <= k < |r| && r[k] == p;
      assert s[if k < i then k else k - 1] == p;
    }
  }

  lemma UnlinkMiddleRing(mem: Memory, r: seq<Ptr>, i: nat)
    requires IsRing(mem, r) && |r| > 2 && i < |r|
    requires Threaded(mem, r, i) && Threaded(mem, r, Before(i, |r|)) && Threaded(mem, r, After(i, |r|))
    ensures r[Before(i, |r|)] != r[i] && r[After(i, |r|)] != r[i]
    ensures IsRing(UnlinkMiddle(mem, r[i]), RemoveAt(r, i))
  {
    var s := RemoveAt(r, i);
    UnlinkMiddleThreaded(mem, r, i);
    var mem' := UnlinkMiddle(mem, r[i]);
    RemoveAtOrdered(mem, r, i);
    assert forall p :: p in s ==> p in mem' && mem'[p].Linked? && mem'[p].kind == mem[p].kind by {
      RemoveAtMembers(r, i);
      UnlinkMiddleKinds(mem, r[i]);
    }
    OrderedByKind(mem, mem', s);
  }

  lemma UnlinkMiddleKinds(mem: Memory, x: Ptr)
    requires x in mem && mem[x].Linked?
    requires mem[x].prev in mem && mem[mem[x].prev].Linked? && mem[x].prev != x
    requires mem[x].next in mem && mem[mem[x].next].Linked? && mem[x].next != x
    ensures UnlinkMiddle(mem, x).Keys == mem.Keys
    ensures forall p :: p in mem && p != x && mem[p].Linked? ==>
              UnlinkMiddle(mem, x)[p].Linked? && UnlinkMiddle(mem, x)[p].kind == mem[p].kind
  {
  }

  lemma UnlinkMiddleThreaded(mem: Memory, r: seq<Ptr>, i: nat)
    requires Distinct(r) && |r| > 2 && i < |r|
    requires forall j: nat :: j < |r| ==> Threaded(mem, r, j)
    ensures Threaded(mem, r, i) && Threaded(mem, r, Before(i, |r|)) && Threaded(mem, r, After(i, |r|))
    ensures r[Before(i, |r|)] != r[i] && r[After(i, |r|)] != r[i]
    ensures forall k: nat :: k < |RemoveAt(r, i)| ==> Threaded(UnlinkMiddle(mem, r[i]), RemoveAt(r, i), k)
  {
    assert Threaded(mem, r, i) && Threaded(mem, r, Before(i, |r|)) && Threaded(mem, r, After(i, |r|));
    forall k: nat | k < |RemoveAt(r, i)| ensures Threaded(UnlinkMiddle(mem, r[i]), RemoveAt(r, i), k) {
      var j := if k < i then k else k + 1;
      assert Threaded(mem, r, j);
      UnlinkMiddleCell(mem, r, i, k, j);
    }
  }

  lemma RemoveAtOrdered(mem: Memory, r: seq<Ptr>, i: nat)
    requires forall p :: p in r ==> p in mem && mem[p].Linked?
    requires Distinct(r) && Ordered(mem, r) && i < |r|
    ensures Distinct(RemoveAt(r, i)) && Ordered(mem, RemoveAt(r, i))
  {
    var s := RemoveAt(r, i);
    forall k, m | 0 <= k < m < |s|
      ensures s[k] != s[m] && mem[s[m]].kind.Item? && (mem[s[k]].kind.Item? ==> s[k] < s[m])
    {
      RemoveAtIndex(r, i, k);
      RemoveAtIndex(r, i, m);
    }
  }

  lemma OrderedByKind(mem: Memory, mem': Memory, s: seq<Ptr>)
    requires forall p :: p in s ==> p in mem && mem[p].Linked?
    requires forall p :: p in s ==> p in mem' && mem'[p].Linked? && (mem'[p].kind.Item? <==> mem[p].kind.Item?)
    requires Ordered(mem, s)
    ensures Ordered(mem', s)
  {
    forall i | 0 <= i < |s| ensures mem'[s[i]].kind.Item? <==> mem[s[i]].kind.Item? {
      assert s[i] in s;
    }
  }

  /** The cell now at index `k`, which used to be at index `j`, is threaded into the shorter ring. */
  lemma UnlinkMiddleCell(mem: Memory, r: seq<Ptr>, i: nat, k: nat, j: nat)
    requires |r| > 2 && i < |r| && k < |r| - 1 && j == if k < i then k else k + 1
    requires Threaded(mem, r, i) && Threaded(mem, r, j)
    requires Threaded(mem, r, Before(i, |r|)) && Threaded(mem, r, After(i, |r|))
    requires r[Before(i, |r|)] != r[i] && r[After(i, |r|)] != r[i] && r[j] != r[i]
    requires r[j] == r[Before(i, |r|)] <==> j == Before(i, |r|)
    requires r[j] == r[After(i, |r|)] <==> j == After(i, |r|)
    ensures Threaded(UnlinkMiddle(mem, r[i]), RemoveAt(r, i), k)
  {
    var n := |r|;
    RemoveAtIndex(r, i, k);
    RemoveAtIndex(r, i, After(k, n - 1));
    RemoveAtIndex(r, i, Before(k, n - 1));
  }

  lemma UnlinkOk(mem: Memory, rings: Rings, x: Ptr) returns (i: nat)
    requires RingsOk(mem, rings) && x in rings
    ensures i < |rings[x]| && rings[x][i] == x
    ensures mem[x].prev in rings && mem[x].next in rings && mem[x].prev != x && mem[x].next != x
    ensures mem[x].prev == mem[x].next <==> |rings[x]| == 2
    ensures RingsOk(if mem[x].prev == mem[x].next then UnlinkPair(mem, x) else UnlinkMiddle(mem, x),
                    Replace(rings, rings[x], Shrink(rings[x], i)))
  {
    i := Neighbours(mem, rings, x);
    if |rings[x]| == 2 {
      UnlinkPairOk(mem, rings, x, i);
    } else {
      UnlinkMiddleOk(mem, rings, x, i);
    }
  }

  lemma UnlinkPairOk(mem: Memory, rings: Rings, x: Ptr, i: nat)
    requires RingsOk(mem, rings) && x in rings && |rings[x]| == 2 && i < 2 && rings[x][i] == x
    requires mem[x].prev == rings[x][Before(i, 2)]
    ensures RingsOk(UnlinkPair(mem, x), Replace(rings, rings[x], []))
  {
    var r := rings[x];
    assert Replaces(mem, rings, UnlinkPair(mem, x), r, []) by {
      hide IsRing;
      assert r == [r[0], r[1]];
    }
    ReplaceOk(mem, rings, UnlinkPair(mem, x), r, []);
  }

  lemma UnlinkMiddleOk(mem: Memory, rings: Rings, x: Ptr, i: nat)
    requires RingsOk(mem, rings) && x in rings && i < |rings[x]| && |rings[x]| > 2 && rings[x][i] == x
    requires mem[x].prev == rings[x][Before(i, |rings[x]|)] && mem[x].next == rings[x][After(i, |rings[x]|)]
    requires mem[x].prev in rings && mem[x].next in rings && mem[x].prev != x && mem[x].next != x
    ensures RingsOk(UnlinkMiddle(mem, x), Replace(rings, rings[x], RemoveAt(rings[x], i)))
  {
    hide Replace, RemoveAt;
    var r := rings[x];
    assert Threaded(mem, r, i) && Threaded(mem, r, Before(i, |r|)) && Threaded(mem, r, After(i, |r|));
    UnlinkMiddleRing(mem, r, i);
    RemoveAtMembers(r, i);
    assert Replaces(mem, rings, UnlinkMiddle(mem, x), r, RemoveAt(r, i)) by {
      hide IsRing;
      assert r[Before(i, |r|)] in r && r[After(i, |r|)] in r;
      UnlinkMiddleKinds(mem, x);
    }
    ReplaceOk(mem, rings, UnlinkMiddle(mem, x), r, RemoveAt(r, i));
  }

  // ---------------------------------------------------------------- update_waker

  function StoreWaker(mem: Memory, n: Ptr, waker: Waker): Memory
    requires n in mem
  {
    if mem[n].Linked? then mem[n := mem[n].(kind := Item(waker))] else mem
  }

  lemma StoreWakerOk(mem: Memory, rings: Rings, n: Ptr, waker: Waker)
    requires RingsOk(mem, rings) && n in mem && (mem[n].Linked? ==> mem[n].kind.Item?)
    ensures RingsOk(StoreWaker(mem, n, waker), rings)
  {
    var mem' := StoreWaker(mem, n, waker);
    forall p | p in rings ensures IsRing(mem', rings[p]) {
      var r := rings[p];
      forall i: nat | i < |r| ensures Threaded(mem', r, i) {
        assert Threaded(mem, r, i);
      }
      OrderedByKind(mem, mem', r);
    }
  }

  // ---------------------------------------------------------------- cancel

  /** `mem` after the cells of `r` have been overwritten with `Canceled`. */
  function CancelAll(mem: Memory, r: seq<Ptr>): Memory {
    map p | p in mem :: if p in r then Canceled else mem[p]
  }

  /** The wakers stored in the items of `r`, in order. */
  function Wakers(mem: Memory, r: seq<Ptr>): seq<Waker> {
    if r == [] then [] else Wakers(mem, r[..|r| - 1]) + WakerOf(mem, r[|r| - 1])
  }

  function WakerOf(mem: Memory, p: Ptr): seq<Waker> {
    if p in mem && mem[p].Linked? && mem[p].kind.Item? then [mem[p].kind.waker] else []
  }

  /** Behind a head, the wakers of the first `n` nodes of a ring are those of its items, in place. */
  lemma {:induction false} WakersAt(mem: Memory, r: seq<Ptr>, n: nat)
    requires 1 <= n <= |r| && r[0] in mem && mem[r[0]].Linked? && mem[r[0]].kind.Head?
    requires forall i :: 0 < i < |r| ==> r[i] in mem && mem[r[i]].Linked? && mem[r[i]].kind.Item?
    ensures |Wakers(mem, r[..n])| == n - 1
    ensures forall i :: 0 < i < n ==> Wakers(mem, r[..n])[i - 1] == mem[r[i]].kind.waker
  {
    if n == 1 {
      assert r[..1] == [r[0]] && r[..1][..0] == [];
    } else {
      WakersAt(mem, r, n - 1);
      assert r[..n][..n - 1] == r[..n - 1];
    }
  }

  lemma CancelOk(mem: Memory, rings: Rings, head: Ptr)
    requires RingsOk(mem, rings) && head in rings
    ensures RingsOk(CancelAll(mem, rings[head]), Replace(rings, rings[head], []))
  {
    ReplaceOk(mem, rings, CancelAll(mem, rings[head]), rings[head], []);
  }
}
