/**
 `AsyncRefCell` (core/async_cell.rs): a fair asynchronous reader/writer lock. Futures take
 tickets; a borrow is reserved for a future when it reaches the front of the queue, and
 picked up when that future is next polled.
 */
module AsyncCell {
  import opened Options
  import opened Sequences

  type Ticket = nat
  type Waker = nat

  datatype BorrowMode = Shared | Exclusive

  datatype BorrowCount = SharedBy(refs: nat) | ExclusiveHeld {

    predicate IsEmpty() {
      this == SharedBy(0)
    }

    function TryAdd(mode: BorrowMode): Option<BorrowCount> {
      match (this, mode)
      case (SharedBy(refs), Shared) => Some(SharedBy(refs + 1))
      case (SharedBy(refs), Exclusive) => if refs == 0 then Some(ExclusiveHeld) else None
      case _ => None
    }

    function TryRemove(mode: BorrowMode): Option<BorrowCount> {
      match (this, mode)
      case (SharedBy(refs), Shared) => if refs > 0 then Some(SharedBy(refs - 1)) else None
      case (ExclusiveHeld, Exclusive) => Some(SharedBy(0))
      case _ => None
    }
  }

  /** Adding a borrow and removing one of the same mode undo each other, and nothing else does. */
  lemma AddRemoveInverse(b: BorrowCount, b': BorrowCount, mode: BorrowMode)
    ensures b.TryAdd(mode) == Some(b') <==> b'.TryRemove(mode) == Some(b)
  {
  }

  datatype Waiter = Waiter(mode: BorrowMode, waker: Option<Waker>)

  /** The cell, the clients' live futures (by ticket) and live borrows, and the history of which
      tickets were granted, in order, which were dropped while still waiting, and the wakers woken. */
  datatype State = State(
    borrowCount: BorrowCount,
    waiters: seq<Option<Waiter>>,
    turn: Ticket,
    futures: map<Ticket, BorrowMode>,
    held: multiset<BorrowMode>,
    granted: seq<Ticket>,
    abandoned: set<Ticket>,
    woken: seq<Waker>)

  // ---------------------------------------------------------------- the invariant

  /** The live futures for which a borrow has been reserved but not yet picked up. */
  function Reserved(futures: map<Ticket, BorrowMode>, turn: Ticket, mode: BorrowMode): set<Ticket> {
    set t | t in futures && t < turn && futures[t] == mode
  }

  function Holders(s: State, mode: BorrowMode): nat {
    s.held[mode] + |Reserved(s.futures, s.turn, mode)|
  }

  /** The borrow count is exactly the live borrows plus the reserved ones, and an exclusive
      holder is alone. */
  ghost predicate CountOk(s: State) {
    match s.borrowCount
    case SharedBy(n) => Holders(s, Shared) == n && Holders(s, Exclusive) == 0
    case ExclusiveHeld => Holders(s, Shared) == 0 && Holders(s, Exclusive) == 1
  }

  /** The queue holds the tickets from `turn` on; its holes are the abandoned ones. */
  ghost predicate QueueOk(s: State) {
    && (forall t :: t in s.futures ==> t < s.turn + |s.waiters|)
    && (forall t :: t in s.abandoned ==> t < s.turn + |s.waiters|)
    && (forall i :: 0 <= i < |s.waiters| ==> EntryOk(s, i))
  }

  ghost predicate EntryOk(s: State, i: nat)
    requires i < |s.waiters|
  {
    var t := s.turn + i;
    match s.waiters[i]
    case Some(w) => t in s.futures && s.futures[t] == w.mode && t !in s.abandoned
    case None => t !in s.futures && t in s.abandoned
  }

  /** Everyone before `turn` who did not give up was granted, in ticket order. */
  function Undropped(turn: Ticket, abandoned: set<Ticket>): seq<Ticket> {
    if turn == 0 then []
    else Undropped(turn - 1, abandoned) + if turn - 1 in abandoned then [] else [turn - 1]
  }

  /** The queue is empty, or its front is a waiter that the current borrow blocks. */
  ghost predicate Settled(s: State) {
    |s.waiters| > 0 ==> s.waiters[0].Some? && s.borrowCount.TryAdd(s.waiters[0].value.mode).None?
  }

  ghost predicate Consistent(s: State) {
    CountOk(s) && QueueOk(s) && s.granted == Undropped(s.turn, s.abandoned)
  }

  ghost predicate Inv(s: State) {
    Consistent(s) && Settled(s)
  }

  // ---------------------------------------------------------------- what the invariant gives

  /** An exclusive holder excludes every other holder. */
  lemma ExclusiveAlone(s: State)
    requires Inv(s) && Holders(s, Exclusive) > 0
    ensures Holders(s, Exclusive) == 1 && Holders(s, Shared) == 0 && s.borrowCount == ExclusiveHeld
  {
  }

  /** A queue that is not empty waits for somebody: there is a holder, and it is exclusive or the
      waiter in front wants exclusive access. */
  lemma QueueWaitsForHolder(s: State)
    requires Inv(s) && s.waiters != []
    ensures s.waiters[0].Some? && s.turn in s.futures
    ensures Holders(s, Exclusive) > 0 || (Holders(s, Shared) > 0 && s.futures[s.turn] == Exclusive)
  {
    assert EntryOk(s, 0);
  }

  /** A synchronous borrow is possible exactly when nobody waits and nobody incompatible holds. */
  lemma TryBorrowMeaning(s: State, mode: BorrowMode)
    requires Inv(s)
    ensures s.waiters == [] && s.borrowCount.TryAdd(mode).Some?
      <==> (forall t :: t in s.futures ==> t < s.turn)
           && Holders(s, Exclusive) == 0 && (mode == Exclusive ==> Holders(s, Shared) == 0)
  {
    if s.waiters != [] {
      assert EntryOk(s, 0);
    }
  }

  lemma {:induction false} UndroppedSorted(turn: Ticket, abandoned: set<Ticket>)
    ensures forall t: Ticket :: t in Undropped(turn, abandoned) <==> t < turn && t !in abandoned
    ensures forall i, j :: 0 <= i < j < |Undropped(turn, abandoned)| ==>
              Undropped(turn, abandoned)[i] < Undropped(turn, abandoned)[j]
  {
    if turn > 0 {
      var pre := Undropped(turn - 1, abandoned);
      UndroppedSorted(turn - 1, abandoned);
      forall t: Ticket ensures t in Undropped(turn, abandoned) <==> t < turn && t !in abandoned {
        assert t in pre <==> t < turn - 1 && t !in abandoned;
      }
      assert forall i :: 0 <= i < |pre| ==> pre[i] in pre;
    }
  }

  /** No overtaking: when a ticket is granted, every earlier ticket was granted before it or was
      dropped while waiting. */
  lemma NoOvertaking(s: State, early: Ticket, j: nat)
    requires Inv(s) && j < |s.granted| && early < s.granted[j]
    ensures early in s.abandoned || exists i :: 0 <= i < j && s.granted[i] == early
  {
    UndroppedSorted(s.turn, s.abandoned);
    assert s.granted[j] in s.granted;
    if early !in s.abandoned {
      assert early in s.granted;
      var i :| 0 <= i < |s.granted| && s.granted[i] == early;
      assert i < j;
    }
  }

  // ---------------------------------------------------------------- preservation

  /** Abandoning a ticket that is not below `turn` does not rewrite the history. */
  lemma {:induction false} UndroppedLater(turn: Ticket, abandoned: set<Ticket>, t: Ticket)
    requires turn <= t
    ensures Undropped(turn, abandoned + {t}) == Undropped(turn, abandoned)
  {
    if turn > 0 {
      UndroppedLater(turn - 1, abandoned, t);
    }
  }

  lemma PassFront(s: State, s': State)
    requires QueueOk(s) && s.waiters != []
    requires s'.waiters == s.waiters[1..] && s'.turn == s.turn + 1
    requires s'.futures == s.futures && s'.abandoned == s.abandoned
    ensures EntryOk(s, 0) && QueueOk(s')
  {
    assert EntryOk(s, 0);
    forall i | 0 <= i < |s'.waiters| ensures EntryOk(s', i) {
      assert EntryOk(s, i + 1);
    }
  }

  /** Passing a ticket reserves one more borrow if a live future holds that ticket. */
  lemma ReservedPast(futures: map<Ticket, BorrowMode>, turn: Ticket)
    ensures forall m :: |Reserved(futures, turn + 1, m)| ==
              |Reserved(futures, turn, m)| + if turn in futures && futures[turn] == m then 1 else 0
  {
    forall m ensures |Reserved(futures, turn + 1, m)| ==
                     |Reserved(futures, turn, m)| + if turn in futures && futures[turn] == m then 1 else 0 {
      if turn in futures && futures[turn] == m {
        assert Reserved(futures, turn + 1, m) == Reserved(futures, turn, m) + {turn};
      } else {
        assert Reserved(futures, turn + 1, m) == Reserved(futures, turn, m);
      }
    }
  }

  lemma AnyWoken(s: State, woken: seq<Waker>)
    requires Consistent(s)
    ensures Consistent(s.(woken := woken))
  {
    forall i | 0 <= i < |s.waiters| ensures EntryOk(s.(woken := woken), i) {
      assert EntryOk(s, i);
    }
  }

  /** A hole in front of the queue is passed over. */
  lemma SkipHole(s: State)
    requires Consistent(s) && s.waiters != [] && s.waiters[0].None?
    ensures Consistent(s.(waiters := s.waiters[1..], turn := s.turn + 1))
  {
    PassFront(s, s.(waiters := s.waiters[1..], turn := s.turn + 1));
    ReservedPast(s.futures, s.turn);
  }

  /** A waiter in front of the queue is granted the borrow that `TryAdd` allows. */
  lemma Grant(s: State)
    requires Consistent(s) && s.waiters != [] && s.waiters[0].Some?
    requires s.borrowCount.TryAdd(s.waiters[0].value.mode).Some?
    ensures Consistent(s.(waiters := s.waiters[1..], turn := s.turn + 1, granted := s.granted + [s.turn],
                          borrowCount := s.borrowCount.TryAdd(s.waiters[0].value.mode).value))
  {
    var mode := s.waiters[0].value.mode;
    PassFront(s, s.(waiters := s.waiters[1..], turn := s.turn + 1, granted := s.granted + [s.turn],
                    borrowCount := s.borrowCount.TryAdd(mode).value));
    ReservedPast(s.futures, s.turn);
  }

  /** Without future `t`, exactly its own reservation is missing. */
  lemma Unreserve(futures: map<Ticket, BorrowMode>, turn: Ticket, t: Ticket, m: BorrowMode)
    requires t in futures
    ensures Reserved(futures - {t}, turn, m) == Reserved(futures, turn, m) - {t}
    ensures t in Reserved(futures, turn, m) <==> t < turn && futures[t] == m
    ensures |Reserved(futures - {t}, turn, m)| ==
              |Reserved(futures, turn, m)| - if t < turn && futures[t] == m then 1 else 0
  {
    assert Reserved(futures - {t}, turn, m) == Reserved(futures, turn, m) - {t};
  }

  predicate Stores(w: Option<Waiter>) {
    w.Some? && w.value.waker.Some?
  }

  /** The first `k` places of the queue at which a waker is stored. */
  ghost function Storing(queue: seq<Option<Waiter>>, k: nat): set<nat> {
    set i: nat | i < k && i < |queue| && Stores(queue[i])
  }

  /** From `woken0` to `woken`, exactly the wakers stored in the first `k` entries were woken, once each, in
      queue order. */
  ghost predicate WokenInOrder(queue: seq<Option<Waiter>>, k: nat, woken0: seq<Waker>, woken: seq<Waker>) {
    && woken0 <= woken && |woken| == |woken0| + |Storing(queue, k)|
    && forall i: nat :: i < k && i < |queue| && Stores(queue[i]) ==>
         && |woken0| + |Storing(queue, i)| < |woken|
         && woken[|woken0| + |Storing(queue, i)|] == queue[i].value.waker.value
  }

  lemma WokenNone(queue: seq<Option<Waiter>>, woken: seq<Waker>)
    ensures WokenInOrder(queue, 0, woken, woken)
  {
    assert Storing(queue, 0) == {};
  }

  lemma StoringCount(queue: seq<Option<Waiter>>, i: nat, k: nat)
    requires i <= k < |queue|
    ensures |Storing(queue, i)| <= |Storing(queue, k)|
    ensures |Storing(queue, k + 1)| == |Storing(queue, k)| + if Stores(queue[k]) then 1 else 0
  {
    Subsets(Storing(queue, i), Storing(queue, k));
    assert Storing(queue, k + 1) == Storing(queue, k) + if Stores(queue[k]) then {k} else {};
  }

  lemma Subsets(a: set<nat>, b: set<nat>)
    requires a <= b
    ensures |a| <= |b|
  {
    assert b == a + (b - a);
  }

  /** One entry more is served. */
  lemma WokenMore(queue: seq<Option<Waiter>>, k: nat, woken0: seq<Waker>, woken: seq<Waker>)
    requires k < |queue| && WokenInOrder(queue, k, woken0, woken)
    ensures WokenInOrder(queue, k + 1, woken0, Woken(woken, queue[k]))
    ensures queue[k..][1..] == queue[k + 1..]
  {
    hide Storing;
    StoringCount(queue, k, k);
    var more := Woken(woken, queue[k]);
    forall i: nat | i < k + 1 && i < |queue| && Stores(queue[i])
      ensures |woken0| + |Storing(queue, i)| < |more|
      ensures more[|woken0| + |Storing(queue, i)|] == queue[i].value.waker.value
    {
      StoringCount(queue, i, k);
    }
  }

  /** The wakers woken so far when an entry has been served. */
  function Woken(woken: seq<Waker>, w: Option<Waiter>): (r: seq<Waker>)
    ensures Stores(w) ==> r == woken + [w.value.waker.value]
    ensures !Stores(w) ==> r == woken
  {
    if Stores(w) then woken + [w.value.waker.value] else woken
  }

  /** A new waiter joins at the end of the queue with the next ticket. */
  lemma Enqueue(s: State, mode: BorrowMode)
    requires Inv(s)
    ensures var t := s.turn + |s.waiters|;
      var s' := s.(waiters := s.waiters + [Some(Waiter(mode, None))], futures := s.futures[t := mode]);
      && t !in s.futures && Consistent(s') && (s.waiters != [] ==> Inv(s'))
  {
    var t := s.turn + |s.waiters|;
    var s' := s.(waiters := s.waiters + [Some(Waiter(mode, None))], futures := s.futures[t := mode]);
    forall m ensures Reserved(s'.futures, s.turn, m) == Reserved(s.futures, s.turn, m) {
    }
    forall i | 0 <= i < |s'.waiters| ensures EntryOk(s', i) {
      assert i < |s.waiters| ==> EntryOk(s, i);
    }
  }

  /** Future `t` leaves the queue, and the queue keeps a hole in its place. */
  lemma AbandonOk(s: State, t: Ticket)
    requires Inv(s) && t in s.futures && s.turn <= t
    ensures t - s.turn < |s.waiters| && s.waiters[t - s.turn].Some?
    ensures var s' := s.(futures := s.futures - {t}, waiters := s.waiters[t - s.turn := None],
                         abandoned := s.abandoned + {t});
      Consistent(s') && (t != s.turn ==> Inv(s'))
  {
    assert EntryOk(s, t - s.turn);
    var s' := s.(futures := s.futures - {t}, waiters := s.waiters[t - s.turn := None],
                 abandoned := s.abandoned + {t});
    forall m ensures Reserved(s'.futures, s.turn, m) == Reserved(s.futures, s.turn, m) {
    }
    forall i | 0 <= i < |s'.waiters| ensures EntryOk(s', i) {
      assert EntryOk(s, i);
    }
    UndroppedLater(s.turn, s.abandoned, t);
  }

  /** A reserved borrow becomes a live one. */
  lemma PickUp(s: State, t: Ticket)
    requires Inv(s) && t in s.futures && t < s.turn
    ensures Inv(s.(futures := s.futures - {t}, held := s.held + multiset{s.futures[t]}))
    ensures s.borrowCount.TryRemove(s.futures[t]).Some?
  {
    var s' := s.(futures := s.futures - {t}, held := s.held + multiset{s.futures[t]});
    forall m ensures Holders(s', m) == Holders(s, m) {
      Unreserve(s.futures, s.turn, t, m);
    }
    Unreserve(s.futures, s.turn, t, s.futures[t]);
    forall i | 0 <= i < |s.waiters| ensures EntryOk(s', i) {
      assert EntryOk(s, i);
    }
  }

  /** One holder of the given mode has gone from the clients' side. */
  ghost predicate Released(s: State, s': State, mode: BorrowMode) {
    && s' == s.(held := s'.held, futures := s'.futures)
    && (forall m :: Holders(s', m) == Holders(s, m) - if m == mode then 1 else 0)
    && (forall t :: t >= s.turn ==> (t in s'.futures <==> t in s.futures))
    && (forall t :: t in s'.futures ==> t in s.futures && s'.futures[t] == s.futures[t])
  }

  /** Dropping a future with a reserved borrow releases that borrow. */
  lemma ReleaseReserved(s: State, t: Ticket)
    requires t in s.futures && t < s.turn
    ensures Holders(s, s.futures[t]) > 0 && Released(s, s.(futures := s.futures - {t}), s.futures[t])
  {
    forall m {
      Unreserve(s.futures, s.turn, t, m);
    }
    Unreserve(s.futures, s.turn, t, s.futures[t]);
  }

  lemma ReleaseOk(s: State, s': State, mode: BorrowMode)
    requires Inv(s) && Holders(s, mode) > 0 && Released(s, s', mode)
    ensures s.borrowCount.TryRemove(mode).Some?
    ensures var b := s.borrowCount.TryRemove(mode).value;
      Consistent(s'.(borrowCount := b)) && (!b.IsEmpty() ==> Inv(s'.(borrowCount := b)))
  {
    assert Holders(s', mode) == Holders(s, mode) - 1;
    assert forall m :: m != mode ==> Holders(s', m) == Holders(s, m);
    var s'' := s'.(borrowCount := s.borrowCount.TryRemove(mode).value);
    forall i | 0 <= i < |s.waiters| ensures EntryOk(s'', i) {
      assert EntryOk(s, i);
    }
  }

  /** The first `k` entries of `queue` have left it, and their stored wakers were woken in order. */
  ghost predicate Served(queue: seq<Option<Waiter>>, k: int, waiters: seq<Option<Waiter>>,
                         woken0: seq<Waker>, woken: seq<Waker>) {
    && 0 <= k <= |queue|
    && waiters == queue[k..]
    && WokenInOrder(queue, k, woken0, woken)
  }

  lemma ServedNone(queue: seq<Option<Waiter>>, woken: seq<Waker>)
    ensures Served(queue, 0, queue, woken, woken)
  {
    WokenNone(queue, woken);
  }

  /** What clients may do with the cell and with the futures and borrows they own. */
  datatype Event =
    | Create(mode: BorrowMode)
    | Poll(ticket: Ticket, waker: Waker)
    | DropFuture(ticket: Ticket)
    | DropBorrow(mode: BorrowMode)
    | TryBorrow(mode: BorrowMode)

  // What each operation does to the cell. How far the queue is served follows from the invariant, which
  // holds before and after.

  ghost predicate Created(v: State, mode: BorrowMode, w: State) {
    && ServedTo(v, w, v.waiters + [Some(Waiter(mode, None))])
    && w.futures == v.futures[v.turn + |v.waiters| := mode] && w.held == v.held && w.abandoned == v.abandoned
  }

  ghost predicate Polled(v: State, t: Ticket, waker: Waker, w: State)
    requires t in v.futures
  {
    if t < v.turn then w == v.(futures := v.futures - {t}, held := v.held + multiset{v.futures[t]})
    else
      && t - v.turn < |v.waiters|
      && w == v.(waiters := v.waiters[t - v.turn := Some(Waiter(v.futures[t], Some(waker)))])
  }

  ghost predicate FutureDropped(v: State, t: Ticket, w: State) {
    && w.futures == v.futures - {t} && w.held == v.held
    && if t < v.turn then ServedTo(v, w, v.waiters) && w.abandoned == v.abandoned
       else
         && t - v.turn < |v.waiters|
         && ServedTo(v, w, v.waiters[t - v.turn := None]) && w.abandoned == v.abandoned + {t}
  }

  ghost predicate BorrowDropped(v: State, mode: BorrowMode, w: State) {
    && ServedTo(v, w, v.waiters)
    && w.held == v.held - multiset{mode} && w.futures == v.futures && w.abandoned == v.abandoned
  }

  ghost predicate TriedBorrow(v: State, mode: BorrowMode, w: State) {
    if (forall t :: t in v.futures ==> t < v.turn) && Holders(v, Exclusive) == 0
       && (mode == Exclusive ==> Holders(v, Shared) == 0)
    then w == v.(borrowCount := w.borrowCount, held := v.held + multiset{mode})
    else w == v
  }

  ghost predicate Step(v: State, e: Event, w: State) {
    match e
    case Create(mode) => Created(v, mode, w)
    case Poll(t, waker) => if t in v.futures then Polled(v, t, waker, w) else w == v
    case DropFuture(t) => if t in v.futures then FutureDropped(v, t, w) else w == v
    case DropBorrow(mode) => if v.held[mode] > 0 then BorrowDropped(v, mode, w) else w == v
    case TryBorrow(mode) => TriedBorrow(v, mode, w)
  }

  ghost predicate ServedTo(v: State, w: State, queue: seq<Option<Waiter>>) {
    Served(queue, w.turn - v.turn, w.waiters, v.woken, w.woken)
  }

  ghost predicate Runs(v: State, events: seq<Event>, w: State) {
    if events == [] then w == v
    else exists u :: Runs(v, DropLast(events), u) && Inv(u) && Step(u, Last(events), w)
  }

  // ---------------------------------------------------------------- the cell

  class AsyncRefCell {
    var borrowCount: BorrowCount
    var waiters: seq<Option<Waiter>>
    var turn: Ticket
    var woken: seq<Waker>

    // what the clients own: live futures by ticket, and live borrows
    var futures: map<Ticket, BorrowMode>
    var held: multiset<BorrowMode>

    ghost var granted: seq<Ticket>
    ghost var abandoned: set<Ticket>

    ghost function View(): State
      reads this
    {
      State(borrowCount, waiters, turn, futures, held, granted, abandoned, woken)
    }

    ghost predicate Valid()
      reads this
    {
      Inv(View())
    }

    constructor ()
      ensures Valid()
      ensures futures == map[] && held == multiset{} && borrowCount.IsEmpty() && turn == 0
    {
      borrowCount, waiters, turn, woken := SharedBy(0), [], 0, [];
      futures, held, granted, abandoned := map[], multiset{}, [], {};
    }

    method WakeWaiters()
      requires Consistent(View())
      modifies `borrowCount, `waiters, `turn, `woken, `granted
      ensures Valid()
      ensures Served(old(waiters), turn - old(turn), waiters, old(woken), woken)
    {
      hide Consistent, WokenInOrder;
      var count := borrowCount;
      var t := turn;
      ghost var k, ws := 0, waiters;
      ServedNone(waiters, woken);
      while waiters != []
        invariant k <= |ws| && t == old(turn) + k && waiters == ws[k..]
        invariant Consistent(View().(borrowCount := count, turn := t))
        invariant WokenInOrder(ws, k, old(woken), woken)
        decreases |waiters|
      {
        ghost var s := View().(borrowCount := count, turn := t);
        WokenMore(ws, k, old(woken), woken);
        match waiters[0] {
          case None =>
            SkipHole(s);
            waiters := waiters[1..];
            t := t + 1;
          case Some(waiter) =>
            match count.TryAdd(waiter.mode) {
              case None => break;
              case Some(b) => count := b;
            }
            Grant(s);
            waiters := waiters[1..];
            granted := granted + [t];
            t := t + 1;
            match waiter.waker {
              case Some(waker) =>
                AnyWoken(View().(borrowCount := count, turn := t), woken + [waker]);
                woken := woken + [waker];
              case None =>
            }
        }
        k := k + 1;
      }
      borrowCount := count;
      turn := t;
    }

    method CreateWaiter(mode: BorrowMode) returns (ticket: Ticket)
      requires Valid()
      modifies this
      ensures Valid()
      ensures ticket == old(turn) + |old(waiters)| && ticket !in old(futures)
      ensures Created(old(View()), mode, View())
    {
      hide Inv, Consistent, Served;
      ghost var s := View();
      ticket := turn + |waiters|;
      var first := waiters == [];
      waiters := waiters + [Some(Waiter(mode, None))];
      futures := futures[ticket := mode];
      Enqueue(s, mode);
      ServedNone(waiters, woken);
      if first {
        WakeWaiters();
      }
    }

    /** Polling the future with ticket `t`, whose type fixes `mode`: picks up the borrow reserved for it,
        or stores its waker in the queue. */
    method PollWaiter(t: Ticket, mode: BorrowMode, waker: Waker) returns (ready: bool)
      requires Valid() && t in futures && futures[t] == mode
      modifies this
      ensures Valid()
      ensures ready <==> t < old(turn)
      ensures Polled(old(View()), t, waker, View())
    {
      ghost var s := View();
      if t < turn {
        PickUp(s, t);
        var remaining := borrowCount.TryRemove(mode);
        assert remaining.Some?;
        held := held + multiset{mode};
        futures := futures - {t};
        ready := true;
      } else {
        assert t < turn + |waiters|;
        assert EntryOk(s, t - turn);
        assert t > turn || borrowCount.TryAdd(mode).None?;
        assert waiters[t - turn].Some?;
        waiters := waiters[t - turn := Some(waiters[t - turn].value.(waker := Some(waker)))];
        assert forall i :: 0 <= i < |waiters| ==> EntryOk(s, i) ==> EntryOk(View(), i);
        ready := false;
      }
    }

    /** The end of a borrow of the given mode, whether it was picked up (`held`) or only reserved. */
    method RemoveBorrow(mode: BorrowMode, ghost s: State)
      requires Inv(s) && Holders(s, mode) > 0
      requires s == View().(held := s.held, futures := s.futures)
      requires Released(s, View(), mode)
      modifies `borrowCount, `waiters, `turn, `woken, `granted
      ensures Valid()
      ensures Served(old(waiters), turn - old(turn), waiters, old(woken), woken)
    {
      hide Inv, Consistent, Served, Released, Holders;
      ReleaseOk(s, View(), mode);
      ServedNone(waiters, woken);
      borrowCount := borrowCount.TryRemove(mode).value;
      if borrowCount.IsEmpty() {
        WakeWaiters();
      }
    }

    /** `Drop for AsyncBorrowImpl`. */
    method DropBorrow(mode: BorrowMode)
      requires Valid() && held[mode] > 0
      modifies this
      ensures Valid()
      ensures BorrowDropped(old(View()), mode, View())
    {
      hide Inv, Served;
      ghost var s := View();
      held := held - multiset{mode};
      RemoveBorrow(mode, s);
    }

    /** `Drop for AsyncBorrowFutureImpl`, for a future that never yielded its borrow. */
    method DropWaiter(t: Ticket, mode: BorrowMode)
      requires Valid() && t in futures && futures[t] == mode
      modifies this
      ensures Valid()
      ensures FutureDropped(old(View()), t, View())
    {
      hide Inv, Consistent, WokenInOrder;
      ghost var s := View();
      var turn0 := turn;
      futures := futures - {t};
      if t < turn {
        ReleaseReserved(s, t);
        RemoveBorrow(mode, s);
      } else {
        AbandonOk(s, t);
        assert waiters[t - turn].Some?;
        waiters := waiters[t - turn := None];
        abandoned := abandoned + {t};
        ServedNone(waiters, woken);
      }
      if t == turn0 {
        WakeWaiters();
      }
    }

    /** `borrow_sync`, behind `try_borrow` and `try_borrow_mut`. */
    method TryBorrow(mode: BorrowMode) returns (ok: bool)
      requires Valid()
      modifies this
      ensures Valid()
      ensures ok <==> (forall t :: t in futures ==> t < turn)
                      && old(Holders(View(), Exclusive)) == 0
                      && (mode == Exclusive ==> old(Holders(View(), Shared)) == 0)
      ensures TriedBorrow(old(View()), mode, View())
    {
      ghost var s := View();
      TryBorrowMeaning(s, mode);
      ok := false;
      if waiters == [] {
        match borrowCount.TryAdd(mode) {
          case None =>
          case Some(count) =>
            borrowCount := count;
            held := held + multiset{mode};
            ok := true;
        }
      }
    }

    /** One event; those on things nobody owns are skipped. */
    method Do(e: Event)
      requires Valid()
      modifies this
      ensures Valid() && Step(old(View()), e, View())
    {
      hide Inv, Created, Polled, FutureDropped, BorrowDropped, TriedBorrow, Holders;
      match e
      case Create(mode) => var _ := CreateWaiter(mode);
      case Poll(t, waker) => if t in futures { var _ := PollWaiter(t, futures[t], waker); }
      case DropFuture(t) => if t in futures { DropWaiter(t, futures[t]); }
      case DropBorrow(mode) => if held[mode] > 0 { DropBorrow(mode); }
      case TryBorrow(mode) => var _ := TryBorrow(mode);
    }

    /** Every run: whatever the clients do with what they own, in whatever order, the invariant
        holds and no `unwrap` or assertion fails. */
    method Run(events: seq<Event>)
      requires Valid()
      modifies this
      ensures Valid() && Runs(old(View()), events, View())
    {
      hide Inv, Step;
      for i := 0 to |events|
        invariant Valid() && Runs(old(View()), events[..i], View())
      {
        Do(events[i]);
        PrefixMore(events, i);
      }
      assert events[..|events|] == events;
    }
  }
}
