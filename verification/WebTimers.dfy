/**
 `WebTimers` (core/web_timeout.rs): the scheduler behind `setTimeout` and `setInterval`. A
 tree of keys, in which cancelled timers stay behind as tombstones, next to a map with the
 data of the live ones; one sleep, armed at the earliest key.
 */
module WebTimers {
  import opened Options
  import opened Sequences
  import opened TimerTree

  type Waker = nat

  /** The scheduler only stores and hands back the data of a timer. */
  type Value = int

  const COMPACTION_MINIMUM := 16
  const LOW_RES_TIMER_RESOLUTION := 100

  datatype TimerType = Repeat(interval: nat) | Once

  datatype Info = Info(kind: TimerType, system: bool)

  type Timer = Key<Info>

  datatype TimerData = TimerData(data: Value, unrefd: bool, highRes: bool)

  datatype Fired = Fired(id: Id, kind: TimerType)

  /** When a one-shot timer was queued, and for how long. */
  datatype Queued = Queued(at: nat, ms: nat)

  /** The scheduler's fields, and its history: the fired one-shots whose data has not been taken
      yet, the clock, every one-shot ever queued, the ids of all batches so far, and the timers
      cancelled while their data was there. */
  datatype State = State(
    nextId: Id,
    timers: seq<Timer>,
    data: map<Id, TimerData>,
    unrefdCount: nat,
    lockCount: nat,
    sleep: Option<nat>,
    ready: bool,
    undrained: set<Id>,
    clock: nat,
    queued: map<Id, Queued>,
    log: seq<Id>,
    cancelled: set<Id>)

  // ---------------------------------------------------------------- the plain map it refines

  /** The live timers: the keys that are not tombstones. */
  function Live(timers: seq<Timer>, ids: set<Id>): set<Timer> {
    set k | k in timers && k.id in ids
  }

  /** The key under which a repeating timer that fired at `now` comes back. */
  function Rearmed(k: Timer, now: nat): Timer
    requires k.info.kind.Repeat?
  {
    k.(deadline := now + k.info.kind.interval)
  }

  /** The live timers after a poll at `now`: due one-shots are gone, due repeats come back. */
  function Advance(live: set<Timer>, now: nat): set<Timer> {
    (set k | k in live && k.deadline >= now) +
    (set k | k in live && k.deadline < now && k.info.kind.Repeat? :: Rearmed(k, now))
  }

  /** `batch` lists exactly the live timers due before `now`, by deadline and then by id. */
  ghost predicate IsBatch(batch: seq<Fired>, live: set<Timer>, now: nat) {
    exists keys :: DueInOrder(keys, live, now) && Reports(batch, keys)
  }

  ghost predicate Reports(batch: seq<Fired>, keys: seq<Timer>) {
    |batch| == |keys| && forall i :: 0 <= i < |batch| ==> batch[i] == Fired(keys[i].id, keys[i].info.kind)
  }

  /** The ids of a batch are added to the history. */
  ghost predicate Logged(log: seq<Id>, log': seq<Id>, batch: seq<Fired>) {
    && log <= log' && |log'| == |log| + |batch|
    && forall i :: 0 <= i < |batch| ==> log'[|log| + i] == batch[i].id
  }

  /** What a batch at `now` does to the live timers: those not due stay, due one-shots go, and due repeats
      come back, counting from `now`. */
  ghost predicate Fires(live: set<Timer>, live': set<Timer>, now: nat) {
    && (forall k :: k in live && k.deadline >= now ==> k in live')
    && (forall k :: k in live && k.deadline < now && k.info.kind.Repeat? ==>
          k.info.kind.interval > 0 && Key(now + k.info.kind.interval, k.id, k.info) in live')
    && (forall k, x :: k in live && x in live' && x.id == k.id ==>
          if k.deadline >= now then x == k
          else k.info.kind.Repeat? && x == Key(now + k.info.kind.interval, k.id, k.info))
    && (forall x :: x in live' ==> exists k :: k in live && k.id == x.id)
  }

  lemma AdvanceFires(live: set<Timer>, now: nat)
    requires forall a, b :: a in live && b in live && a.id == b.id ==> a == b
    requires forall k :: k in live && k.info.kind.Repeat? ==> k.info.kind.interval > 0
    ensures Fires(live, Advance(live, now), now)
  {
    forall k | k in live && k.deadline < now && k.info.kind.Repeat?
      ensures Key(now + k.info.kind.interval, k.id, k.info) in Advance(live, now)
    {
      assert Rearmed(k, now) in Advance(live, now);
    }
  }

  ghost predicate DueInOrder(keys: seq<Timer>, live: set<Timer>, now: nat) {
    Sorted(keys) && forall k :: k in keys <==> k in live && k.deadline < now
  }

  function Report(keys: seq<Timer>): (r: seq<Fired>)
    ensures |r| == |keys|
  {
    seq(|keys|, i requires 0 <= i < |keys| => Fired(keys[i].id, keys[i].info.kind))
  }

  function ReportIds(keys: seq<Timer>): (r: seq<Id>)
    ensures |r| == |keys|
  {
    seq(|keys|, i requires 0 <= i < |keys| => keys[i].id)
  }

  // ---------------------------------------------------------------- the invariant

  function Unrefd(data: map<Id, TimerData>): set<Id> {
    set id | id in data && data[id].unrefd
  }

  function HighRes(data: map<Id, TimerData>): set<Id> {
    set id | id in data && data[id].highRes
  }

  ghost predicate TreeOk(timers: seq<Timer>, nextId: Id) {
    && Sorted(timers)
    && UniqueIds(timers)
    && (forall k :: k in timers ==> 0 < k.id <= nextId && (k.info.kind.Repeat? ==> k.info.kind.interval > 0))
  }

  /** A timer's data is there while its key is in the tree, and after a one-shot fired until it is
      taken. */
  ghost predicate DataOk(s: State) {
    && s.undrained <= s.data.Keys
    && (forall id :: id in s.data ==> 0 < id <= s.nextId && (id in Ids(s.timers) <==> id !in s.undrained))
  }

  ghost predicate CountsOk(data: map<Id, TimerData>, unrefdCount: nat, lockCount: nat) {
    unrefdCount == |Unrefd(data)| && lockCount == |HighRes(data)|
  }

  /** The sleep is armed at the first key, and exists only while there is data. */
  ghost predicate SleepOk(s: State) {
    && (s.timers != [] ==> s.sleep == Some(s.timers[0].deadline))
    && (s.sleep.Some? ==> |s.data| > 0)
    && (s.ready ==> s.sleep.Some?)
    && (|s.data| == 0 ==> s.timers == [])
  }

  ghost predicate QueuedOk(s: State) {
    && (forall a :: a in s.queued ==> 0 < a <= s.nextId && s.queued[a].at <= s.clock)
    && (forall a, b :: a in s.queued && b in s.queued && a < b ==> s.queued[a].at <= s.queued[b].at)
    && (forall k :: k in s.timers ==> (k.info.kind.Once? <==> k.id in s.queued))
    && (forall k :: k in s.timers && k.info.kind.Once? ==> k.deadline == s.queued[k.id].at + s.queued[k.id].ms)
    && (forall k :: k in s.timers && k.info.kind.Once? ==> k.id !in s.log)
    && (forall a :: a in s.undrained ==> a in s.queued && a in s.log)
  }

  /** Every one-shot has fired, was cancelled, or is still live. */
  ghost predicate Accounted(s: State) {
    && (forall a :: a in s.queued ==> a in s.log || a in s.cancelled || (a in s.data && a in Ids(s.timers)))
    && (forall a :: a in s.cancelled ==> a !in s.data && a <= s.nextId)
    && (forall a :: a in s.log ==> a <= s.nextId)
  }

  /** No one-shot appears twice in the batches. */
  ghost predicate FiresOnce(queued: map<Id, Queued>, log: seq<Id>) {
    forall i, j :: 0 <= i < j < |log| && log[i] == log[j] ==> log[i] !in queued
  }

  /** Section 8.6 (Timers) of the HTML Standard: a one-shot waits for those started before it with
      a timeout that is no longer. */
  ghost predicate InHtmlOrder(queued: map<Id, Queued>, log: seq<Id>, cancelled: set<Id>) {
    forall a, b, j :: a in queued && b in queued && a < b && queued[a].ms <= queued[b].ms
                      && 0 <= j < |log| && log[j] == b ==>
                        a in cancelled || a in log[..j]
  }

  ghost predicate HistoryOk(s: State) {
    && QueuedOk(s)
    && Accounted(s)
    && FiresOnce(s.queued, s.log)
    && InHtmlOrder(s.queued, s.log, s.cancelled)
  }

  ghost predicate Inv(s: State) {
    && TreeOk(s.timers, s.nextId)
    && DataOk(s)
    && CountsOk(s.data, s.unrefdCount, s.lockCount)
    && SleepOk(s)
    && HistoryOk(s)
  }

  /** The two counters are the exact numbers of unreferenced and of high-resolution timers with data. */
  lemma CountsExact(s: State)
    requires Inv(s)
    ensures s.unrefdCount == |set id | id in s.data && s.data[id].unrefd|
    ensures s.lockCount == |set id | id in s.data && s.data[id].highRes|
  {
    assert Unrefd(s.data) == set id | id in s.data && s.data[id].unrefd;
    assert HighRes(s.data) == set id | id in s.data && s.data[id].highRes;
  }

  // ---------------------------------------------------------------- a batch

  lemma LastIdIsNew(keys: seq<Timer>)
    requires Sorted(keys) && UniqueIds(keys) && keys != []
    ensures Sorted(keys[..|keys| - 1]) && UniqueIds(keys[..|keys| - 1])
    ensures keys[|keys| - 1].id !in Ids(keys[..|keys| - 1])
  {
    var pre, last := keys[..|keys| - 1], keys[|keys| - 1];
    assert keys == pre + [last];
    forall k | k in pre ensures k.id != last.id {
      assert k in keys && last in keys && k != last;
    }
  }

  /** The tree after the live repeats of `split` have been put back into `rest`. */
  function RearmAll(split: seq<Timer>, ids: set<Id>, rest: seq<Timer>, now: nat): seq<Timer> {
    if split == [] then rest
    else
      var last := split[|split| - 1];
      var tree := RearmAll(split[..|split| - 1], ids, rest, now);
      if last.id in ids && last.info.kind.Repeat? then Insert(tree, Rearmed(last, now)) else tree
  }

  ghost predicate IsRearmed(split: seq<Timer>, ids: set<Id>, now: nat, x: Timer) {
    exists k :: k in split && k.id in ids && k.info.kind.Repeat? && x == Rearmed(k, now)
  }

  lemma {:induction false} RearmAllTree(split: seq<Timer>, ids: set<Id>, rest: seq<Timer>, now: nat)
    requires Sorted(split) && UniqueIds(split) && Sorted(rest) && UniqueIds(rest) && Ids(split) !! Ids(rest)
    ensures var tree := RearmAll(split, ids, rest, now);
      && Sorted(tree) && UniqueIds(tree)
      && (forall x :: x in tree <==> x in rest || IsRearmed(split, ids, now, x))
  {
    if split != [] {
      var pre, last := split[..|split| - 1], split[|split| - 1];
      var tree := RearmAll(pre, ids, rest, now);
      assert split == pre + [last];
      RearmAllTree(pre, ids, rest, now);
      LastIdIsNew(split);
      assert last.id !in Ids(rest) && last.id !in Ids(tree) by {
        assert last.id in Ids(split);
      }
      if last.id in ids && last.info.kind.Repeat? {
        InsertSorted(tree, Rearmed(last, now));
      }
      forall x ensures IsRearmed(split, ids, now, x) <==>
                       IsRearmed(pre, ids, now, x) ||
                       (last.id in ids && last.info.kind.Repeat? && x == Rearmed(last, now)) {
        if IsRearmed(pre, ids, now, x) {
          var k :| k in pre && k.id in ids && k.info.kind.Repeat? && x == Rearmed(k, now);
          assert k in split;
        }
        if last.id in ids && last.info.kind.Repeat? && x == Rearmed(last, now) {
          assert last in split;
        }
      }
    }
  }

  /** The one-shots among the keys that fired. */
  ghost function OnceIds(keys: seq<Timer>): set<Id> {
    set k | k in keys && k.info.kind.Once? :: k.id
  }

  function OnceCount(keys: seq<Timer>): nat {
    if keys == [] then 0
    else OnceCount(keys[..|keys| - 1]) + if keys[|keys| - 1].info.kind.Once? then 1 else 0
  }

  lemma {:induction false} OnceCounts(keys: seq<Timer>)
    requires Sorted(keys) && UniqueIds(keys)
    ensures OnceCount(keys) == |OnceIds(keys)|
  {
    if keys != [] {
      var pre, last := keys[..|keys| - 1], keys[|keys| - 1];
      assert keys == pre + [last];
      OnceCounts(pre);
      LastIdIsNew(keys);
      assert OnceIds(keys) == OnceIds(pre) + if last.info.kind.Once? then {last.id} else {};
      assert last.id !in OnceIds(pre);
    }
  }

  /** The keys that fire at `now`, and the tree that is left before any compaction. */
  ghost function FiredKeys(s: State, now: nat): seq<Timer> {
    Retain(s.timers[..Due(s.timers, now)], s.data.Keys)
  }

  ghost function LeftTree(s: State, now: nat): seq<Timer> {
    var n := Due(s.timers, now);
    RearmAll(s.timers[..n], s.data.Keys, s.timers[n..], now)
  }

  /** What the batch contains and what it leaves behind. */
  lemma BatchFacts(s: State, now: nat)
    requires Inv(s)
    ensures var n := Due(s.timers, now);
      && Sorted(s.timers[..n]) && UniqueIds(s.timers[..n]) && Sorted(s.timers[n..]) && UniqueIds(s.timers[n..])
      && Ids(s.timers[..n]) !! Ids(s.timers[n..])
    ensures DueInOrder(FiredKeys(s, now), Live(s.timers, s.data.Keys), now)
    ensures UniqueIds(FiredKeys(s, now))
    ensures Sorted(LeftTree(s, now)) && UniqueIds(LeftTree(s, now))
    ensures forall k :: k in LeftTree(s, now) <==>
              (k in s.timers && k.deadline >= now) || IsRearmed(s.timers[..Due(s.timers, now)], s.data.Keys, now, k)
    ensures Live(LeftTree(s, now), s.data.Keys) == Advance(Live(s.timers, s.data.Keys), now)
  {
    var n := Due(s.timers, now);
    var split, rest := s.timers[..n], s.timers[n..];
    DueSplits(s.timers, now);
    RetainSorted(split, s.data.Keys);
    RearmAllTree(split, s.data.Keys, rest, now);
    LiveAdvances(s.timers, split, s.data.Keys, LeftTree(s, now), now);
  }

  lemma LiveAdvances(timers: seq<Timer>, split: seq<Timer>, ids: set<Id>, tree: seq<Timer>, now: nat)
    requires forall k :: k in split <==> k in timers && k.deadline < now
    requires forall k :: k in tree <==> (k in timers && k.deadline >= now) || IsRearmed(split, ids, now, k)
    ensures Live(tree, ids) == Advance(Live(timers, ids), now)
  {
    var live := Live(timers, ids);
    forall k | k in Live(tree, ids) ensures k in Advance(live, now) {
      if IsRearmed(split, ids, now, k) {
        var x :| x in split && x.id in ids && x.info.kind.Repeat? && k == Rearmed(x, now);
        assert x in live && x.deadline < now;
      }
    }
    forall k | k in Advance(live, now) ensures k in Live(tree, ids) {
      if x :| x in live && x.deadline < now && x.info.kind.Repeat? && Rearmed(x, now) == k {
        assert x in split;
        assert IsRearmed(split, ids, now, k);
      }
    }
  }

  lemma SubsetCount<X>(a: set<X>, b: set<X>)
    requires a <= b
    ensures |a| <= |b| && |b - a| == |b| - |a| && (|a| == |b| ==> a == b)
  {
    assert b == a + (b - a);
  }

  /** The data that is not about to be taken, neither from this batch nor from an earlier one, belongs to
      the live timers of the tree that is left. */
  lemma PendingCount(s: State, now: nat)
    requires Inv(s)
    ensures OnceIds(FiredKeys(s, now)) <= s.data.Keys && OnceIds(FiredKeys(s, now)) !! s.undrained
    ensures |OnceIds(FiredKeys(s, now))| <= |s.data|
    ensures Ids(LeftTree(s, now)) * s.data.Keys == s.data.Keys - s.undrained - OnceIds(FiredKeys(s, now))
    ensures |s.data| - |OnceIds(FiredKeys(s, now))| == |Ids(LeftTree(s, now)) * s.data.Keys| + |s.undrained|
  {
    hide Inv, FiredKeys, LeftTree, OnceIds, DueInOrder, Advance, Live, Ids, Sorted, UniqueIds;
    var fired, ids := OnceIds(FiredKeys(s, now)), s.data.Keys;
    LeftIds(s, now);
    FiredNotUndrained(s, now);
    SubsetCount(fired, ids);
    SubsetCount(s.undrained, ids - fired);
    assert ids - s.undrained - fired == ids - fired - s.undrained;
  }

  lemma LeftIds(s: State, now: nat)
    requires Inv(s)
    ensures OnceIds(FiredKeys(s, now)) <= s.data.Keys
    ensures Ids(LeftTree(s, now)) * s.data.Keys == s.data.Keys - s.undrained - OnceIds(FiredKeys(s, now))
  {
    BatchFacts(s, now);
    forall id | id in s.data
      ensures id in Ids(LeftTree(s, now)) <==> id !in s.undrained && id !in OnceIds(FiredKeys(s, now))
    {
      var live, fired := Live(s.timers, s.data.Keys), FiredKeys(s, now);
      assert id in s.undrained <==> id !in Ids(s.timers);
      assert Live(LeftTree(s, now), s.data.Keys) == Advance(live, now);
      LeftId(s.timers, s.data.Keys, LeftTree(s, now), fired, now, id);
    }
  }

  /** An id with data is left in the tree unless it was not there, or was a one-shot that fired. */
  lemma LeftId(timers: seq<Timer>, ids: set<Id>, tree: seq<Timer>, fired: seq<Timer>, now: nat, id: Id)
    requires UniqueIds(timers) && id in ids
    requires Live(tree, ids) == Advance(Live(timers, ids), now)
    requires forall k :: k in fired <==> k in Live(timers, ids) && k.deadline < now
    ensures id in Ids(tree) <==> id in Ids(timers) && id !in OnceIds(fired)
  {
    var live, left := Live(timers, ids), Live(tree, ids);
    if k :| k in timers && k.id == id {
      assert k in live;
      assert k.deadline >= now ==> k in left;
      assert k.deadline < now ==> k in fired;
      assert k.deadline < now && k.info.kind.Repeat? ==> Rearmed(k, now) in left;
      forall x | x in fired && x.id == id ensures x == k {
      }
      if x :| x in tree && x.id == id {
        assert x in Advance(live, now);
      }
    } else {
      forall x | x in tree ensures x.id != id {
        assert x in Advance(live, now) || x !in left;
      }
    }
  }

  // ---------------------------------------------------------------- when a poll is safe

  /** `poll_timers` subtracts the pending data from the size of the tree, once something has fired; on
      unsigned integers that needs the tree to be no smaller. */
  ghost predicate SubtractionHolds(s: State, now: nat) {
    |LeftTree(s, now)| >= |s.data| - |OnceIds(FiredKeys(s, now))|
  }

  /** The cancelled timers that a batch at `now` leaves in the tree. */
  ghost function Tombstones(s: State, now: nat): set<Id> {
    set k | k in s.timers && k.deadline >= now && k.id !in s.data :: k.id
  }

  ghost predicate SomeDue(s: State, now: nat) {
    exists k :: k in Live(s.timers, s.data.Keys) && k.deadline < now
  }

  /** A batch at `now` needs that no live timer is due, or that there are at least as many tombstones left
      as timers that have fired without being taken. */
  ghost predicate BatchSafe(s: State, now: nat) {
    SomeDue(s, now) ==> |s.undrained| <= |Tombstones(s, now)|
  }

  lemma BatchUnderflow(s: State, now: nat)
    requires Inv(s)
    ensures (FiredKeys(s, now) != [] ==> SubtractionHolds(s, now)) <==> BatchSafe(s, now)
    ensures FiredKeys(s, now) != [] <==> SomeDue(s, now)
  {
    hide Inv, FiredKeys, LeftTree, OnceIds, Advance, Live, Ids, Sorted, UniqueIds, Tombstones;
    var fired, tree := FiredKeys(s, now), LeftTree(s, now);
    PendingCount(s, now);
    LeftTombstones(s, now);
    TreeCount(tree, s.data.Keys);
    if fired != [] {
      assert fired[0] in fired;
    }
  }

  /** A poll goes on to a batch if it finds the ready flag, or if a waker is stored and the clock has
      reached the sleep's deadline. */
  ghost predicate SleepReady(s: State, external: Option<Waker>, check: nat) {
    s.ready || (external.Some? && s.sleep.Some? && check >= s.sleep.value)
  }

  /** What a poll that reads the clock as `check` and then `now` needs of its caller. */
  ghost predicate PollSafe(s: State, external: Option<Waker>, check: nat, now: nat) {
    SleepReady(s, external, check) ==> BatchSafe(s, now)
  }

  /** A poll reaches its subtraction and underflows exactly if it is not `PollSafe`. */
  lemma UndrainedUnderflow(s: State, external: Option<Waker>, check: nat, now: nat)
    requires Inv(s)
    ensures SleepReady(s, external, check) && FiredKeys(s, now) != [] && !SubtractionHolds(s, now) <==>
            !PollSafe(s, external, check, now)
  {
    hide Inv, FiredKeys, SubtractionHolds, BatchSafe, SomeDue;
    BatchUnderflow(s, now);
  }

  lemma TreeCount(tree: seq<Timer>, ids: set<Id>)
    requires Sorted(tree) && UniqueIds(tree)
    ensures |tree| == |Ids(tree) * ids| + |Ids(tree) - ids|
  {
    IdCount(tree);
    SubsetCount(Ids(tree) * ids, Ids(tree));
    assert Ids(tree) - Ids(tree) * ids == Ids(tree) - ids;
  }

  lemma LeftTombstones(s: State, now: nat)
    requires Inv(s)
    ensures Sorted(LeftTree(s, now)) && UniqueIds(LeftTree(s, now))
    ensures DueInOrder(FiredKeys(s, now), Live(s.timers, s.data.Keys), now)
    ensures Ids(LeftTree(s, now)) - s.data.Keys == Tombstones(s, now)
  {
    hide Inv, FiredKeys, LeftTree, DueInOrder, Advance, Live, Sorted, UniqueIds;
    BatchFacts(s, now);
    var tree := LeftTree(s, now);
    forall id | id in Ids(tree) - s.data.Keys ensures id in Tombstones(s, now) {
      var k :| k in tree && k.id == id;
      assert k in s.timers && k.deadline >= now;
    }
    forall k | k in s.timers && k.deadline >= now ensures k.id in Ids(tree) {
      assert k in tree;
    }
  }

  /** With every earlier batch drained, any poll is safe. */
  lemma DrainedIsSafe(s: State, external: Option<Waker>, check: nat, now: nat)
    requires s.undrained == {}
    ensures PollSafe(s, external, check, now)
  {
  }

  lemma FiredNotUndrained(s: State, now: nat)
    requires Inv(s)
    ensures s.undrained <= s.data.Keys && OnceIds(FiredKeys(s, now)) !! s.undrained
  {
    hide HistoryOk, SleepOk, CountsOk, LeftTree;
    BatchFacts(s, now);
    forall k | k in FiredKeys(s, now) ensures k.id !in s.undrained {
      assert k in s.timers && k.id in s.data;
    }
  }

  // ---------------------------------------------------------------- the state after a batch

  /** `w` is `s` after a batch fired at `now`, whatever tombstones were dropped from the tree. */
  ghost predicate AfterBatch(s: State, w: State, now: nat) {
    && s.clock <= now == w.clock && w.nextId == s.nextId && w.data == s.data
    && w.unrefdCount == s.unrefdCount && w.lockCount == s.lockCount
    && w.queued == s.queued && w.cancelled == s.cancelled
    && w.undrained == s.undrained + OnceIds(FiredKeys(s, now))
    && w.log == s.log + ReportIds(FiredKeys(s, now))
    && Sorted(w.timers) && UniqueIds(w.timers)
    && (forall k :: k in w.timers ==> k in LeftTree(s, now))
    && Live(w.timers, s.data.Keys) == Live(LeftTree(s, now), s.data.Keys)
  }

  /** A key left in the tree is an old one that was not due, or a repeat that was re-armed. */
  lemma LeftKey(s: State, now: nat, k: Timer)
    requires Inv(s) && k in LeftTree(s, now)
    ensures 0 < k.id <= s.nextId && (k.info.kind.Repeat? ==> k.info.kind.interval > 0)
    ensures k.info.kind.Once? ==> k in s.timers && k.deadline >= now
    ensures k.info.kind.Once? <==> k.id in s.queued
  {
    BatchFacts(s, now);
    DueSplits(s.timers, now);
  }

  lemma BatchTree(s: State, w: State, now: nat)
    requires Inv(s) && AfterBatch(s, w, now)
    ensures TreeOk(w.timers, w.nextId) && DataOk(w)
  {
    forall k | k in w.timers
      ensures 0 < k.id <= w.nextId && (k.info.kind.Repeat? ==> k.info.kind.interval > 0)
    {
      LeftKey(s, now, k);
    }
    PendingCount(s, now);
    forall id | id in w.data
      ensures 0 < id <= w.nextId && (id in Ids(w.timers) <==> id !in w.undrained)
    {
      LiveId(w.timers, LeftTree(s, now), s.data.Keys, id);
      assert id in Ids(LeftTree(s, now)) * s.data.Keys <==> id in s.data.Keys - w.undrained;
    }
  }

  lemma LiveId(tree: seq<Timer>, tree': seq<Timer>, ids: set<Id>, id: Id)
    requires Live(tree, ids) == Live(tree', ids) && id in ids
    ensures id in Ids(tree) <==> id in Ids(tree')
  {
    if k :| k in tree && k.id == id {
      assert k in Live(tree, ids);
    }
    if k :| k in tree' && k.id == id {
      assert k in Live(tree', ids);
    }
  }

  lemma BatchQueued(s: State, w: State, now: nat)
    requires Inv(s) && AfterBatch(s, w, now)
    ensures QueuedOk(w) && Accounted(w)
  {
    hide *;
    BatchKeys(s, w, now);
    BatchAccounted(s, w, now);
  }

  /** What is left in the tree has not fired, and what fired and is a one-shot was queued. */
  lemma BatchKeys(s: State, w: State, now: nat)
    requires Inv(s) && AfterBatch(s, w, now)
    ensures QueuedOk(w)
  {
    hide TreeOk, DataOk, CountsOk, SleepOk, Accounted, FiresOnce, InHtmlOrder, LeftTree, FiredKeys, IsRearmed, Advance;
    var fired := FiredKeys(s, now);
    BatchFacts(s, now);
    FiredIdsInLog(fired);
    forall k | k in w.timers
      ensures k.info.kind.Once? <==> k.id in w.queued
      ensures k.info.kind.Once? ==> k.deadline == w.queued[k.id].at + w.queued[k.id].ms
      ensures k.info.kind.Once? ==> k.id !in w.log
    {
      LeftNotFired(s, now, k);
    }
    forall a | a in OnceIds(fired) ensures a in w.queued && a in w.log {
      var k :| k in fired && k.info.kind.Once? && k.id == a;
      assert k in s.timers;
    }
  }

  lemma LeftNotFired(s: State, now: nat, k: Timer)
    requires Inv(s) && k in LeftTree(s, now)
    ensures k.info.kind.Once? <==> k.id in s.queued
    ensures k.info.kind.Once? ==> k in s.timers && k.id !in Ids(FiredKeys(s, now))
  {
    LeftKey(s, now, k);
    BatchFacts(s, now);
    forall x | x in FiredKeys(s, now) && k.info.kind.Once? ensures x.id != k.id {
      assert x in s.timers;
    }
  }

  lemma BatchAccounted(s: State, w: State, now: nat)
    requires Inv(s) && AfterBatch(s, w, now)
    ensures Accounted(w)
  {
    hide CountsOk, SleepOk, QueuedOk, FiresOnce, InHtmlOrder, LeftTree, FiredKeys, IsRearmed, Advance;
    var fired := FiredKeys(s, now);
    BatchFacts(s, now);
    FiredIdsInLog(fired);
    forall a | a in w.queued
      ensures a in w.log || a in w.cancelled || (a in w.data && a in Ids(w.timers))
    {
      if a !in s.log && a !in s.cancelled {
        LeftId(s.timers, s.data.Keys, LeftTree(s, now), fired, now, a);
        LiveId(w.timers, LeftTree(s, now), s.data.Keys, a);
      }
    }
    forall k | k in fired ensures k.id <= s.nextId {
      assert k in s.timers;
    }
  }

  lemma FiredIdsInLog(keys: seq<Timer>)
    ensures forall id :: id in ReportIds(keys) <==> id in Ids(keys)
  {
    forall k | k in keys ensures k.id in ReportIds(keys) {
      var i :| 0 <= i < |keys| && keys[i] == k;
      assert ReportIds(keys)[i] == k.id;
    }
  }

  lemma DistinctIds(keys: seq<Timer>, i: nat, j: nat)
    requires Sorted(keys) && UniqueIds(keys) && i < j < |keys|
    ensures keys[i].id != keys[j].id
  {
    assert keys[i] in keys && keys[j] in keys && Less(keys[i], keys[j]);
  }

  lemma BatchOnce(s: State, w: State, now: nat)
    requires Inv(s) && AfterBatch(s, w, now)
    ensures FiresOnce(w.queued, w.log)
  {
    BatchFacts(s, now);
    forall i, j | 0 <= i < j < |w.log| && w.log[i] == w.log[j] ensures w.log[i] !in w.queued {
      NotRepeated(s, w, now, i, j);
    }
  }

  lemma NotRepeated(s: State, w: State, now: nat, i: nat, j: nat)
    requires Inv(s) && w.queued == s.queued && w.log == s.log + ReportIds(FiredKeys(s, now))
    requires i < j < |w.log| && w.log[i] == w.log[j]
    ensures w.log[i] !in w.queued
  {
    hide AfterBatch, HistoryOk, TreeOk, DataOk;
    var fired, n := FiredKeys(s, now), |s.log|;
    assert FiresOnce(s.queued, s.log) by { OnceBefore(s); }
    if j >= n {
      FiredNotLogged(s, now, j - n);
      if i >= n {
        FiredDistinct(s, now, i - n, j - n);
      } else {
        assert w.log[i] in s.log;
      }
    }
  }

  lemma OnceBefore(s: State)
    requires HistoryOk(s)
    ensures FiresOnce(s.queued, s.log)
  {
  }

  lemma FiredDistinct(s: State, now: nat, i: nat, j: nat)
    requires Inv(s) && i < j < |FiredKeys(s, now)|
    ensures FiredKeys(s, now)[i].id != FiredKeys(s, now)[j].id
  {
    BatchFacts(s, now);
    DistinctIds(FiredKeys(s, now), i, j);
  }

  /** A one-shot that fires has not fired before. */
  lemma FiredNotLogged(s: State, now: nat, j: nat)
    requires Inv(s) && j < |FiredKeys(s, now)|
    ensures FiredKeys(s, now)[j].id in s.queued ==> FiredKeys(s, now)[j].id !in s.log
  {
    BatchFacts(s, now);
    var k := FiredKeys(s, now)[j];
    assert k in FiredKeys(s, now) && k in s.timers;
  }

  /** Within a batch, and against earlier batches, one-shots keep the order of the HTML Standard. */
  lemma BatchHtmlOrder(s: State, w: State, now: nat)
    requires Inv(s) && AfterBatch(s, w, now)
    ensures InHtmlOrder(w.queued, w.log, w.cancelled)
  {
    forall a, b, j | a in w.queued && b in w.queued && a < b && w.queued[a].ms <= w.queued[b].ms
                     && 0 <= j < |w.log| && w.log[j] == b && a !in w.cancelled
      ensures a in w.log[..j]
    {
      HtmlOrderAt(s, now, a, b, w.log, j);
    }
  }

  lemma HtmlOrderAt(s: State, now: nat, a: Id, b: Id, log: seq<Id>, j: nat)
    requires Inv(s) && log == s.log + ReportIds(FiredKeys(s, now))
    requires a in s.queued && b in s.queued && a < b && s.queued[a].ms <= s.queued[b].ms
    requires j < |log| && log[j] == b && a !in s.cancelled
    ensures a in log[..j]
  {
    hide TreeOk, DataOk, QueuedOk, Accounted;
    var n := |s.log|;
    if j < n {
      assert log[..j] == s.log[..j];
    } else if a in s.log {
      assert log[..j] == s.log + log[n..j];
    } else {
      var i := EarlierInBatch(s, now, a, b, j - n);
      assert log[..j][n + i] == a;
    }
  }

  lemma EarlierInBatch(s: State, now: nat, a: Id, b: Id, j: nat) returns (i: nat)
    requires Inv(s) && a in s.queued && b in s.queued && a < b && s.queued[a].ms <= s.queued[b].ms
    requires a !in s.cancelled && a !in s.log
    requires j < |FiredKeys(s, now)| && FiredKeys(s, now)[j].id == b
    ensures i < j && FiredKeys(s, now)[i].id == a
  {
    var fired := FiredKeys(s, now);
    BatchFacts(s, now);
    var kb := fired[j];
    assert kb in fired && kb in s.timers;
    var ka :| ka in s.timers && ka.id == a;
    assert ka.deadline <= kb.deadline;
    assert ka in Live(s.timers, s.data.Keys) && ka in fired;
    i :| 0 <= i < |fired| && fired[i] == ka;
    assert Less(ka, kb);
    assert i > j ==> Less(kb, ka);
  }

  lemma BatchOk(s: State, w: State, now: nat)
    requires Inv(s) && AfterBatch(s, w, now) && SleepOk(w)
    ensures Inv(w)
  {
    BatchTree(s, w, now);
    BatchQueued(s, w, now);
    BatchOnce(s, w, now);
    BatchHtmlOrder(s, w, now);
  }

  // ---------------------------------------------------------------- the other operations

  /** The key a new timer gets; a repeat of 0 ms repeats every millisecond. */
  function NewKey(id: Id, repeat: bool, ms: nat, system: bool, now: nat): Timer {
    Key(now + ms, id, Info(if repeat then Repeat(if ms == 0 then 1 else ms) else Once, system))
  }

  predicate ComesFirst(timers: seq<Timer>, deadline: nat) {
    timers == [] || deadline < timers[0].deadline
  }

  /** `w` is `s` after timer `nextId + 1` was queued at `now`. */
  ghost predicate AfterQueue(s: State, w: State, repeat: bool, ms: nat, system: bool, now: nat, d: TimerData) {
    var id := s.nextId + 1;
    && s.clock <= now == w.clock && w.nextId == id
    && !d.unrefd && w.data == s.data[id := d]
    && w.timers == Insert(s.timers, NewKey(id, repeat, ms, system, now))
    && w.unrefdCount == s.unrefdCount && w.lockCount == s.lockCount + (if d.highRes then 1 else 0)
    && w.undrained == s.undrained && w.log == s.log && w.cancelled == s.cancelled
    && w.queued == if repeat then s.queued else s.queued[id := Queued(now, ms)]
  }

  lemma QueueTree(s: State, w: State, repeat: bool, ms: nat, system: bool, now: nat, d: TimerData)
    requires Inv(s) && AfterQueue(s, w, repeat, ms, system, now, d)
    ensures TreeOk(w.timers, w.nextId) && DataOk(w) && s.nextId + 1 !in s.data
    ensures var k := NewKey(s.nextId + 1, repeat, ms, system, now);
      w.timers != [] && w.timers[0] == if s.timers == [] || Less(k, s.timers[0]) then k else s.timers[0]
    ensures Live(w.timers, w.data.Keys) == Live(s.timers, s.data.Keys) + {NewKey(s.nextId + 1, repeat, ms, system, now)}
  {
    hide HistoryOk, SleepOk, CountsOk;
    var k := NewKey(s.nextId + 1, repeat, ms, system, now);
    assert k.id !in Ids(s.timers);
    InsertSorted(s.timers, k);
    InsertIds(s.timers, k);
    QueueLive(s.timers, s.data.Keys, k);
    assert w.data.Keys == s.data.Keys + {k.id};
  }

  lemma InsertIds(timers: seq<Timer>, k: Timer)
    ensures Ids(Insert(timers, k)) == Ids(timers) + {k.id}
  {
    assert k in Insert(timers, k);
    forall x | x in timers ensures x.id in Ids(Insert(timers, k)) {
      assert x in Insert(timers, k);
    }
  }

  lemma QueueLive(timers: seq<Timer>, ids: set<Id>, k: Timer)
    requires k.id !in Ids(timers)
    ensures Live(Insert(timers, k), ids + {k.id}) == Live(timers, ids) + {k}
  {
    assert forall x :: x in timers ==> x.id != k.id;
  }

  lemma QueueCounts(data: map<Id, TimerData>, unrefdCount: nat, lockCount: nat, id: Id, d: TimerData)
    requires CountsOk(data, unrefdCount, lockCount) && id !in data && !d.unrefd
    ensures CountsOk(data[id := d], unrefdCount, lockCount + if d.highRes then 1 else 0)
  {
    assert Unrefd(data[id := d]) == Unrefd(data);
    assert HighRes(data[id := d]) == HighRes(data) + if d.highRes then {id} else {};
  }

  lemma QueueHistory(s: State, w: State, repeat: bool, ms: nat, system: bool, now: nat, d: TimerData)
    requires Inv(s) && AfterQueue(s, w, repeat, ms, system, now, d)
    ensures HistoryOk(w)
  {
    hide TreeOk, DataOk, CountsOk, SleepOk, QueuedOk;
    QueueQueued(s, w, repeat, ms, system, now, d);
    forall a, b, j | a in w.queued && b in w.queued && a < b && w.queued[a].ms <= w.queued[b].ms
                     && 0 <= j < |w.log| && w.log[j] == b
      ensures a in w.cancelled || a in w.log[..j]
    {
      assert b in s.log;
    }
    forall i, j | 0 <= i < j < |w.log| && w.log[i] == w.log[j] ensures w.log[i] !in w.queued {
      assert w.log[i] in s.log;
    }
    InsertIds(s.timers, NewKey(s.nextId + 1, repeat, ms, system, now));
  }

  lemma QueueQueued(s: State, w: State, repeat: bool, ms: nat, system: bool, now: nat, d: TimerData)
    requires Inv(s) && AfterQueue(s, w, repeat, ms, system, now, d)
    ensures QueuedOk(w)
  {
    hide DataOk, CountsOk, SleepOk, FiresOnce, InHtmlOrder, Insert;
    assert forall k :: k in w.timers ==> k in s.timers || k == NewKey(s.nextId + 1, repeat, ms, system, now);
  }

  lemma QueueOk(s: State, w: State, repeat: bool, ms: nat, system: bool, now: nat, d: TimerData)
    requires Inv(s) && AfterQueue(s, w, repeat, ms, system, now, d)
    requires w.sleep == if ComesFirst(s.timers, now + ms) then Some(now + ms) else s.sleep
    requires w.ready ==> s.ready || ComesFirst(s.timers, now + ms)
    ensures Inv(w) && s.nextId + 1 !in s.data
    ensures Live(w.timers, w.data.Keys) == Live(s.timers, s.data.Keys) + {NewKey(s.nextId + 1, repeat, ms, system, now)}
  {
    hide TreeOk, DataOk, HistoryOk, CountsOk;
    QueueTree(s, w, repeat, ms, system, now, d);
    QueueCounts(s.data, s.unrefdCount, s.lockCount, s.nextId + 1, d);
    QueueHistory(s, w, repeat, ms, system, now, d);
    assert s.nextId + 1 in w.data;
  }

  /** `w` is `s` after the data of `id` was removed, by `cancel_timer` or by `take_fired_timer`;
      with the last data everything is cleared. */
  ghost predicate AfterRemove(s: State, w: State, id: Id) {
    && id in s.data && w.data == s.data - {id}
    && w.nextId == s.nextId && w.clock == s.clock && w.queued == s.queued && w.log == s.log
    && w.undrained == s.undrained - {id}
    && (if w.data == map[] then
          w.timers == [] && w.unrefdCount == 0 && w.lockCount == 0 && w.sleep.None? && !w.ready
        else
          && w.timers == s.timers && w.sleep == s.sleep && w.ready == s.ready
          && w.unrefdCount == s.unrefdCount - (if s.data[id].unrefd then 1 else 0)
          && w.lockCount == s.lockCount - if s.data[id].highRes then 1 else 0)
  }

  lemma RemoveCounts(s: State, id: Id)
    requires Inv(s) && id in s.data
    ensures s.data[id].unrefd ==> s.unrefdCount > 0
    ensures s.data[id].highRes ==> s.lockCount > 0
    ensures CountsOk(s.data - {id}, s.unrefdCount - (if s.data[id].unrefd then 1 else 0),
                     s.lockCount - if s.data[id].highRes then 1 else 0)
    ensures s.data - {id} == map[] ==>
              && s.unrefdCount == (if s.data[id].unrefd then 1 else 0)
              && s.lockCount == (if s.data[id].highRes then 1 else 0)
  {
    hide HistoryOk, TreeOk, SleepOk, DataOk;
    var data := s.data - {id};
    assert Unrefd(data) == Unrefd(s.data) - {id};
    assert HighRes(data) == HighRes(s.data) - {id};
    assert id in Unrefd(s.data) <==> s.data[id].unrefd;
    assert id in HighRes(s.data) <==> s.data[id].highRes;
    if data == map[] {
      assert Unrefd(data) == {} && HighRes(data) == {};
    }
  }

  /** Removing data for a one-shot that has fired, or for a timer that is thereby cancelled. */
  lemma RemoveOk(s: State, w: State, id: Id)
    requires Inv(s) && AfterRemove(s, w, id)
    requires w.cancelled == s.cancelled + {id} || (id in s.undrained && w.cancelled == s.cancelled)
    ensures Inv(w)
    ensures Live(w.timers, w.data.Keys) == set k | k in Live(s.timers, s.data.Keys) && k.id != id
  {
    hide Inv, TreeOk, DataOk, HistoryOk, CountsOk, SleepOk;
    RemoveCounts(s, id);
    RemoveShape(s, w, id);
    RemoveHistory(s, w, id);
    RemoveLive(s.timers, s.data.Keys, w.timers, id);
    EmptyCounts(w.data);
    assert Inv(w) by { Together(w); }
  }

  lemma Together(s: State)
    requires TreeOk(s.timers, s.nextId) && DataOk(s) && CountsOk(s.data, s.unrefdCount, s.lockCount)
    requires SleepOk(s) && HistoryOk(s)
    ensures Inv(s)
  {
  }

  lemma EmptyCounts(data: map<Id, TimerData>)
    ensures data == map[] ==> CountsOk(data, 0, 0)
  {
    if data == map[] {
      assert Unrefd(data) == {} && HighRes(data) == {};
    }
  }

  lemma RemoveShape(s: State, w: State, id: Id)
    requires Inv(s) && AfterRemove(s, w, id)
    ensures TreeOk(w.timers, w.nextId) && DataOk(w) && SleepOk(w)
  {
    hide HistoryOk, CountsOk;
    assert |w.data| == 0 <==> w.data == map[];
    assert w.undrained <= w.data.Keys;
  }

  lemma RemoveHistory(s: State, w: State, id: Id)
    requires Inv(s) && AfterRemove(s, w, id)
    requires w.cancelled == s.cancelled + {id} || (id in s.undrained && w.cancelled == s.cancelled)
    ensures HistoryOk(w)
  {
    hide TreeOk, SleepOk, CountsOk;
    forall a | a in w.queued
      ensures a in w.log || a in w.cancelled || (a in w.data && a in Ids(w.timers))
    {
      assert w.data == map[] && a in s.data ==> a == id by {
        assert a != id && a in s.data ==> a in w.data;
      }
    }
  }

  lemma RemoveLive(timers: seq<Timer>, ids: set<Id>, left: seq<Timer>, id: Id)
    requires id in ids && if ids - {id} == {} then left == [] else left == timers
    ensures Live(left, ids - {id}) == set k | k in Live(timers, ids) && k.id != id
  {
    if ids - {id} == {} {
      forall k | k in Live(timers, ids) ensures k.id == id {
        assert k.id in ids && k.id !in ids - {id};
      }
    }
  }

  lemma MissingUndrained(s: State, id: Id)
    requires Inv(s) && id !in s.data
    ensures id !in s.undrained
  {
  }

  /** A cancelled timer has no data, and never will: ids are not reused. */
  lemma CancelledGone(s: State, id: Id)
    requires Inv(s)
    ensures id in s.cancelled ==> id !in s.data
  {
  }

  lemma UndrainedNotLive(s: State, id: Id)
    requires Inv(s) && id in s.undrained
    ensures forall k :: k in Live(s.timers, s.data.Keys) ==> k.id != id
  {
    assert id !in Ids(s.timers);
  }

  lemma TakeOk(s: State, w: State, id: Id)
    requires Inv(s) && AfterRemove(s, w, id) && id in s.undrained && w.cancelled == s.cancelled
    ensures Inv(w) && Live(w.timers, w.data.Keys) == Live(s.timers, s.data.Keys)
  {
    RemoveOk(s, w, id);
    UndrainedNotLive(s, id);
  }

  lemma ReportMore(keys: seq<Timer>, k: Timer)
    ensures Report(keys + [k]) == Report(keys) + [Fired(k.id, k.info.kind)]
    ensures OnceCount(keys + [k]) == OnceCount(keys) + if k.info.kind.Once? then 1 else 0
  {
    assert (keys + [k])[..|keys|] == keys;
  }

  // ---------------------------------------------------------------- poll_timers

  /** Before its sleep's deadline no live timer is due, and a sleep that is ready means data. */
  lemma PollEarly(s: State, check: nat)
    requires Inv(s)
    ensures s.ready || s.sleep.Some? ==> |s.data| > 0
    ensures s.sleep.None? || check < s.sleep.value ==>
              forall k :: k in Live(s.timers, s.data.Keys) ==> k.deadline >= check
  {
    hide HistoryOk, DataOk, CountsOk;
    forall k | k in Live(s.timers, s.data.Keys) ensures k.deadline >= s.timers[0].deadline {
      var i :| 0 <= i < |s.timers| && s.timers[i] == k;
    }
  }

  lemma DueAnyway(s: State, w: State, now: nat)
    requires w == s.(ready := w.ready)
    ensures SomeDue(w, now) <==> SomeDue(s, now)
  {
  }

  lemma SafeAnyway(s: State, w: State, now: nat)
    requires w == s.(ready := w.ready) && BatchSafe(s, now)
    ensures BatchSafe(w, now)
  {
  }

  /** Only the `ready` flag was taken. */
  lemma NotReadyOk(s: State, w: State)
    requires Inv(s) && w == s.(ready := w.ready) && (w.ready ==> s.ready)
    ensures Inv(w)
  {
  }

  lemma BatchReady(s: State, now: nat)
    requires Inv(s)
    ensures Sorted(LeftTree(s, now)) && UniqueIds(LeftTree(s, now))
    ensures IsBatch(Report(FiredKeys(s, now)), Live(s.timers, s.data.Keys), now)
    ensures Logged(s.log, s.log + ReportIds(FiredKeys(s, now)), Report(FiredKeys(s, now)))
    ensures Fires(Live(s.timers, s.data.Keys), Advance(Live(s.timers, s.data.Keys), now), now)
    ensures OnceCount(FiredKeys(s, now)) == |OnceIds(FiredKeys(s, now))| <= |s.data|
  {
    hide Inv, FiredKeys, LeftTree, Live, Advance;
    BatchFacts(s, now);
    PendingCount(s, now);
    OnceCounts(FiredKeys(s, now));
    assert Reports(Report(FiredKeys(s, now)), FiredKeys(s, now));
    LiveFires(s, now);
  }

  lemma LiveFires(s: State, now: nat)
    requires Inv(s)
    ensures Fires(Live(s.timers, s.data.Keys), Advance(Live(s.timers, s.data.Keys), now), now)
  {
    hide HistoryOk, DataOk, CountsOk, SleepOk, Advance, Fires;
    AdvanceFires(Live(s.timers, s.data.Keys), now);
  }

  /** The state right after the loop over the due keys. */
  ghost function Collected(s: State, now: nat): State {
    s.(timers := LeftTree(s, now), ready := false, clock := now,
       undrained := s.undrained + OnceIds(FiredKeys(s, now)),
       log := s.log + ReportIds(FiredKeys(s, now)))
  }

  /** `w` differs from the state after the loop only in its tree and its sleep. */
  ghost predicate Compacted(s: State, w: State, now: nat) {
    w == Collected(s, now).(timers := w.timers, sleep := w.sleep, ready := w.ready)
  }

  /** The trees a successful poll may leave: emptied when nothing is pending, compacted, or as is. */
  lemma LeftVariants(s: State, now: nat)
    requires Inv(s)
    ensures var tree, ids, pending := LeftTree(s, now), s.data.Keys, |s.data| - |OnceIds(FiredKeys(s, now))|;
      && SameLive(tree, tree, ids) && SameLive(Retain(tree, ids), tree, ids)
      && |Retain(tree, ids)| + |s.undrained| == pending
      && (pending == 0 ==> SameLive([], tree, ids))
  {
    hide Inv, FiredKeys, LeftTree, OnceIds, DueInOrder, Advance, Live;
    BatchFacts(s, now);
    PendingCount(s, now);
    Variants(LeftTree(s, now), s.data.Keys);
  }

  lemma Variants(tree: seq<Timer>, ids: set<Id>)
    requires Sorted(tree) && UniqueIds(tree)
    ensures SameLive(tree, tree, ids) && SameLive(Retain(tree, ids), tree, ids)
    ensures |Retain(tree, ids)| == |Ids(tree) * ids|
    ensures |Ids(tree) * ids| == 0 ==> SameLive([], tree, ids)
  {
    RetainSorted(tree, ids);
    IdCount(Retain(tree, ids));
    RetainIds(tree, ids);
    forall k | k in Live(tree, ids) ensures k.id in Ids(tree) * ids {
    }
  }

  lemma RetainIds(tree: seq<Timer>, ids: set<Id>)
    requires Sorted(tree)
    ensures Ids(Retain(tree, ids)) == Ids(tree) * ids
  {
    RetainSorted(tree, ids);
    forall id | id in Ids(tree) * ids ensures id in Ids(Retain(tree, ids)) {
      var k :| k in tree && k.id == id;
      assert k in Retain(tree, ids);
    }
  }

  ghost predicate SameLive(tree': seq<Timer>, tree: seq<Timer>, ids: set<Id>) {
    && Sorted(tree') && UniqueIds(tree')
    && (forall k :: k in tree' ==> k in tree)
    && Live(tree', ids) == Live(tree, ids)
  }

  lemma IneffectiveOk(s: State, w: State, now: nat)
    requires Inv(s) && FiredKeys(s, now) == [] && s.clock <= now && |s.data| > 0
    requires Compacted(s, w, now) && SameLive(w.timers, LeftTree(s, now), s.data.Keys)
    requires (w.timers != [] ==> w.sleep == Some(w.timers[0].deadline)) && (w.ready ==> w.sleep.Some?)
    ensures Inv(w) && w.log == s.log && w.undrained == s.undrained
    ensures Live(w.timers, w.data.Keys) == Live(s.timers, s.data.Keys)
    ensures forall k :: k in Live(w.timers, w.data.Keys) ==> k.deadline >= now
  {
    hide Inv;
    BatchOk(s, w, now);
    BatchFacts(s, now);
    NothingDue(Live(s.timers, s.data.Keys), now);
  }

  lemma NothingDue(live: set<Timer>, now: nat)
    requires DueInOrder([], live, now)
    ensures Advance(live, now) == live && forall k :: k in live ==> k.deadline >= now
  {
    forall k | k in live ensures k.deadline >= now {
      assert k.deadline < now ==> k in [];
    }
  }

  lemma EffectiveOk(s: State, w: State, now: nat)
    requires Inv(s) && s.clock <= now && |s.data| > 0
    requires Compacted(s, w, now) && SameLive(w.timers, LeftTree(s, now), s.data.Keys)
    requires (w.timers != [] ==> w.sleep == Some(w.timers[0].deadline)) && (w.ready ==> w.sleep.Some?)
    ensures Inv(w) && AfterBatch(s, w, now)
    ensures Live(w.timers, w.data.Keys) == Advance(Live(s.timers, s.data.Keys), now)
  {
    hide Inv;
    BatchOk(s, w, now);
    BatchFacts(s, now);
  }

  /** A batch is exactly what was due, in order. It is not empty; due one-shots leave the live
      timers and due repeats are re-armed; and few tombstones remain. */
  ghost predicate BatchDelivered(s: State, w: State, batch: seq<Fired>, now: nat) {
    && batch != [] && IsBatch(batch, Live(s.timers, s.data.Keys), now)
    && batch == Report(FiredKeys(s, now)) && AfterBatch(s, w, now) && Logged(s.log, w.log, batch)
    && Live(w.timers, w.data.Keys) == Advance(Live(s.timers, s.data.Keys), now)
    && Fires(Live(s.timers, s.data.Keys), Live(w.timers, w.data.Keys), now)
    && |w.timers| <= |w.data| - |w.undrained| + |s.undrained| + COMPACTION_MINIMUM
  }

  lemma Delivered(s: State, w: State, now: nat)
    requires Inv(s) && FiredKeys(s, now) != [] && AfterBatch(s, w, now)
    requires Live(w.timers, w.data.Keys) == Advance(Live(s.timers, s.data.Keys), now)
    requires |w.timers| <= |w.data| - |w.undrained| + |s.undrained| + COMPACTION_MINIMUM
    ensures BatchDelivered(s, w, Report(FiredKeys(s, now)), now)
  {
    hide Inv, FiredKeys, LeftTree, Live, Advance, Fires, IsBatch, Logged;
    BatchReady(s, now);
  }

  /** The ready flag plays no part in what a batch contains. */
  lemma SameDelivery(s: State, w: State, batch: Option<seq<Fired>>, now: nat)
    ensures batch.Some? && BatchDelivered(s.(ready := false), w, batch.value, now) ==>
              BatchDelivered(s, w, batch.value, now)
  {
  }

  lemma LogGrows(s: State, w: State, batch: Option<seq<Fired>>, now: nat)
    requires batch.Some? ==> BatchDelivered(s, w, batch.value, now)
    ensures batch.Some? ==> s.log <= w.log
  {
  }

  lemma RefCounts(data: map<Id, TimerData>, id: Id, flag: bool)
    requires id in data && data[id].unrefd != flag
    ensures var data' := data[id := data[id].(unrefd := flag)];
      && |Unrefd(data')| == |Unrefd(data)| + (if flag then 1 else -1)
      && HighRes(data') == HighRes(data)
  {
    var data' := data[id := data[id].(unrefd := flag)];
    if flag {
      assert Unrefd(data') == Unrefd(data) + {id};
    } else {
      assert Unrefd(data) == Unrefd(data') + {id};
    }
  }

  lemma RefHistory(s: State, w: State)
    requires HistoryOk(s) && w.data.Keys == s.data.Keys
    requires w == s.(data := w.data, unrefdCount := w.unrefdCount)
    ensures HistoryOk(w)
  {
  }

  // ---------------------------------------------------------------- runs

  datatype ClientOp =
    | QueueOp(repeat: bool, ms: nat, value: Value, system: bool, elapsed: bool)
    | CancelOp(id: Id)
    | UnrefOp(id: Id, flag: bool)
    | ElapseOp

  datatype Event =
    | Client(delay: nat, op: ClientOp)
    | PollAndDrain(delay: nat, waker: Waker, lag: nat, elapsed: bool, callbacks: seq<seq<ClientOp>>)

  /** The scheduler with its task's waker and the wakers called so far. */
  datatype World = World(s: State, external: Option<Waker>, woken: seq<Waker>)

  function Called(v: World): seq<Waker> {
    if v.external.Some? then v.woken + [v.external.value] else v.woken
  }

  // What each operation does, at a given time.

  ghost predicate QueuedAt(v: World, repeat: bool, ms: nat, value: Value, system: bool, elapsed: bool, time: nat,
                           w: World) {
    var first := ComesFirst(v.s.timers, time + ms);
    && AfterQueue(v.s, w.s, repeat, ms, system, time, TimerData(value, false, ms <= LOW_RES_TIMER_RESOLUTION))
    && w.s.sleep == (if first then Some(time + ms) else v.s.sleep)
    && w.s.ready == (v.s.ready || (elapsed && first))
    && w.external == v.external && w.woken == if elapsed && first then Called(v) else v.woken
  }

  ghost predicate CancelledAt(v: World, id: Id, w: World) {
    && w.external == v.external && w.woken == v.woken
    && if id in v.s.data then AfterRemove(v.s, w.s, id) && w.s.cancelled == v.s.cancelled + {id} else w.s == v.s
  }

  ghost predicate UnrefdAt(v: World, id: Id, flag: bool, w: World) {
    var data := if id in v.s.data then v.s.data[id := v.s.data[id].(unrefd := flag)] else v.s.data;
    w == v.(s := v.s.(data := data, unrefdCount := |Unrefd(data)|))
  }

  ghost predicate Elapsed(v: World, w: World) {
    if v.s.sleep.Some? then w == v.(s := v.s.(ready := true), woken := Called(v)) else w == v
  }

  ghost predicate Taken(v: World, id: Id, kind: TimerType, w: World) {
    && w.external == v.external && w.woken == v.woken
    && if kind.Once? && id in v.s.data then AfterRemove(v.s, w.s, id) && w.s.cancelled == v.s.cancelled else w.s == v.s
  }

  ghost predicate Polled(v: World, waker: Waker, check: nat, now: nat, batch: Option<seq<Fired>>, w: World) {
    && (batch.Some? <==> SleepReady(v.s, v.external, check) && SomeDue(v.s, now))
    && (if batch.Some? then BatchDelivered(v.s, w.s, batch.value, now)
        else
          && Live(w.s.timers, w.s.data.Keys) == Live(v.s.timers, v.s.data.Keys)
          && w.s.data == v.s.data && w.s.undrained == v.s.undrained && w.s.log == v.s.log)
    && w.external == if v.s.ready then v.external else Some(waker)
  }

  // ... and what runs of them do.

  ghost predicate Applied(v: World, op: ClientOp, time: nat, w: World) {
    match op
    case QueueOp(repeat, ms, value, system, elapsed) => QueuedAt(v, repeat, ms, value, system, elapsed, time, w)
    case CancelOp(id) => CancelledAt(v, id, w)
    case UnrefOp(id, flag) => UnrefdAt(v, id, flag, w)
    case ElapseOp => Elapsed(v, w)
  }

  ghost predicate Applies(v: World, ops: seq<ClientOp>, time: nat, w: World) {
    if ops == [] then w == v
    else exists u :: Applies(v, DropLast(ops), time, u) && Applied(u, Last(ops), time, w)
  }

  /** From `v` to `w` every timer of a batch was taken, each followed by what its callback does. */
  ghost predicate Drains(v: World, batch: seq<Fired>, callbacks: seq<seq<ClientOp>>, time: nat, w: World) {
    if batch == [] then w == v
    else
      exists u, x :: Drains(v, DropLast(batch), callbacks, time, u) && Taken(u, Last(batch).id, Last(batch).kind, x)
                     && Applies(x, Nth(callbacks, |DropLast(batch)|), time, w)
  }

  function Nth(callbacks: seq<seq<ClientOp>>, n: nat): seq<ClientOp> {
    if n < |callbacks| then callbacks[n] else []
  }

  ghost predicate Step(v: World, e: Event, time: nat, w: World) {
    match e
    case Client(delay, op) => Applied(v, op, time + delay, w)
    case PollAndDrain(delay, waker, lag, _, callbacks) =>
      PolledAndDrained(v, waker, time + delay, time + delay + lag, callbacks, w)
  }

  ghost predicate PolledAndDrained(v: World, waker: Waker, check: nat, now: nat, callbacks: seq<seq<ClientOp>>,
                                   w: World) {
    exists u, batch :: Polled(v, waker, check, now, batch, u) && Drains(u, Batch(batch), callbacks, now, w)
  }

  function Batch(batch: Option<seq<Fired>>): seq<Fired> {
    if batch.Some? then batch.value else []
  }

  function Lasts(e: Event): nat {
    match e
    case Client(delay, _) => delay
    case PollAndDrain(delay, _, lag, _, _) => delay + lag
  }

  function EndTime(start: nat, events: seq<Event>): nat {
    if events == [] then start else EndTime(start, DropLast(events)) + Lasts(Last(events))
  }

  ghost predicate Runs(v: World, events: seq<Event>, start: nat, w: World) {
    if events == [] then w == v
    else exists u :: Runs(v, DropLast(events), start, u)
                     && Step(u, Last(events), EndTime(start, DropLast(events)), w)
  }

  /** What is left of a batch can be taken: a one-shot in it that still has data waits for that. */
  ghost predicate Drainable(s: State, batch: seq<Fired>) {
    forall i :: 0 <= i < |batch| && batch[i].kind.Once? ==>
      batch[i].id <= s.nextId && (batch[i].id in s.data ==> batch[i].id in s.undrained)
  }

  lemma DrainsNothing(v: World, callbacks: seq<seq<ClientOp>>, time: nat)
    ensures Drains(v, [], callbacks, time, v)
  {
  }

  lemma DrainableNothing(s: State)
    ensures Drainable(s, [])
  {
  }

  lemma DrainableBatch(s: State, w: State, batch: seq<Fired>, now: nat)
    requires Inv(s) && s.undrained == {} && BatchDelivered(s, w, batch, now)
    ensures Drainable(w, batch) && w.clock == now
    ensures forall id :: id in w.undrained ==> exists i :: 0 <= i < |batch| && batch[i] == Fired(id, Once)
  {
    hide Inv, FiredKeys, LeftTree, IsBatch, Live, Advance, OnceIds, Sorted, UniqueIds, Fires, Logged;
    var keys := FiredKeys(s, now);
    assert w.undrained == OnceIds(keys) && w.nextId == s.nextId;
    FiredIdsKnown(s, now);
    forall i | 0 <= i < |batch| && batch[i].kind.Once?
      ensures batch[i].id <= w.nextId && batch[i].id in w.undrained
    {
      assert keys[i] in keys;
      OnceIdOf(keys, keys[i]);
    }
    forall id | id in w.undrained ensures exists i :: 0 <= i < |batch| && batch[i] == Fired(id, Once) {
      var i := OnceAt(keys, id);
      assert batch[i] == Fired(id, Once);
    }
  }

  lemma FiredIdsKnown(s: State, now: nat)
    requires Inv(s)
    ensures forall k :: k in FiredKeys(s, now) ==> k.id <= s.nextId
  {
    hide HistoryOk, DataOk, SleepOk, CountsOk, LeftTree;
    BatchFacts(s, now);
    assert forall k :: k in FiredKeys(s, now) ==> k in s.timers;
  }

  lemma OnceIdOf(keys: seq<Timer>, k: Timer)
    requires k in keys && k.info.kind.Once?
    ensures k.id in OnceIds(keys)
  {
  }

  lemma OnceAt(keys: seq<Timer>, id: Id) returns (i: nat)
    requires id in OnceIds(keys)
    ensures i < |keys| && keys[i].id == id && keys[i].info.kind == Once
  {
    var k :| k in keys && k.info.kind.Once? && k.id == id;
    i :| 0 <= i < |keys| && keys[i] == k;
  }

  /** Section 8.6 (Timers) of the HTML Standard, over the batches of any run: the earlier one-shot with
      no longer timeout comes first, and only once. */
  lemma HtmlOrdering(s: State, a: Id, b: Id, j: nat)
    requires Inv(s) && a in s.queued && b in s.queued && a < b && s.queued[a].ms <= s.queued[b].ms
    requires a !in s.cancelled && j < |s.log| && s.log[j] == b
    ensures exists i :: 0 <= i < j && s.log[i] == a
    ensures forall i :: 0 <= i < |s.log| && s.log[i] == a ==> i < j
  {
    hide TreeOk, DataOk, SleepOk;
    assert a in s.log[..j];
    var i :| 0 <= i < j && s.log[i] == a;
  }

  lemma LiveMeansArmed(s: State)
    requires Inv(s) && Live(s.timers, s.data.Keys) != {}
    ensures s.sleep.Some?
  {
    var k :| k in Live(s.timers, s.data.Keys);
    assert s.timers != [];
  }

  /** A one-shot that fired without being taken, and nothing cancelled: the next batch is not safe. */
  lemma UndrainedUnsafe(s: State, external: Option<Waker>, now: nat)
    requires Inv(s) && s.nextId == 2 && s.data.Keys == {1, 2} && 1 in s.undrained
    requires SomeDue(s, now)
    ensures external.Some? ==> !PollSafe(s, external, now, now)
  {
    PollEarly(s, now);
    assert Tombstones(s, now) == {};
    assert |s.undrained| > 0;
  }

  lemma StillLive(s: State, w: State, batch: seq<Fired>, now: nat, k: Timer)
    requires BatchDelivered(s, w, batch, now) && k in Live(s.timers, s.data.Keys) && k.deadline >= now
    ensures k in Live(w.timers, w.data.Keys)
  {
  }

  lemma FirstUndrained(s: State, w: State, batch: seq<Fired>, now: nat, k: Timer)
    requires Inv(s) && BatchDelivered(s, w, batch, now)
    requires k in Live(s.timers, s.data.Keys) && k.deadline < now && k.info.kind.Once?
    ensures k.id in w.undrained
  {
    hide IsBatch, Live, Advance;
    BatchFacts(s, now);
    assert k in FiredKeys(s, now);
  }

  // ---------------------------------------------------------------- the scheduler

  class Timers {
    var nextId: Id
    var timers: seq<Timer>
    var data: map<Id, TimerData>
    var unrefdCount: nat
    var lockCount: nat

    // `MutableSleep`: the deadline of the reactor's timer, whether it has elapsed, and the waker to call
    var sleep: Option<nat>
    var ready: bool
    var external: Option<Waker>
    var woken: seq<Waker>

    ghost var undrained: set<Id>
    ghost var clock: nat
    ghost var queued: map<Id, Queued>
    ghost var log: seq<Id>
    ghost var cancelled: set<Id>

    ghost function View(): State
      reads this
    {
      State(nextId, timers, data, unrefdCount, lockCount, sleep, ready, undrained, clock, queued, log, cancelled)
    }

    ghost function Now(): World
      reads this
    {
      World(View(), external, woken)
    }

    ghost predicate Valid()
      reads this
    {
      Inv(View())
    }

    /** What a client can observe: the live timers. */
    ghost function LiveTimers(): set<Timer>
      reads this
    {
      Live(timers, data.Keys)
    }

    constructor ()
      ensures Valid() && LiveTimers() == {} && data == map[] && nextId == 0 && undrained == {} && clock == 0
      ensures queued == map[] && log == [] && cancelled == {} && sleep.None? && !ready && external.None? && woken == []
    {
      nextId, timers, data, unrefdCount, lockCount := 0, [], map[], 0, 0;
      sleep, ready, external, woken := None, false, None, [];
      undrained, clock, queued, log, cancelled := {}, 0, map[], [], {};
      new;
      EmptyCounts(data);
    }

    /** `MutableSleepWaker::wake_by_ref`. */
    method WakeSleep()
      modifies `ready, `woken
      ensures ready && woken == if external.Some? then old(woken) + [external.value] else old(woken)
    {
      ready := true;
      if external.Some? {
        woken := woken + [external.value];
      }
    }

    /** The reactor reports that the armed timer elapsed. */
    method SleepElapses()
      requires Valid() && sleep.Some?
      modifies `ready, `woken
      ensures Valid() && ready && woken == if external.Some? then old(woken) + [external.value] else old(woken)
    {
      WakeSleep();
    }

    /** `MutableSleep::change`; `elapsed` says whether the new timer is ready at once. */
    method Change(deadline: nat, elapsed: bool)
      modifies `sleep, `ready, `woken
      ensures sleep == Some(deadline) && ready == (old(ready) || elapsed)
      ensures woken == if elapsed && external.Some? then old(woken) + [external.value] else old(woken)
    {
      sleep := Some(deadline);
      if elapsed {
        WakeSleep();
      }
    }

    /** `MutableSleep::clear`. */
    method Clear()
      modifies `sleep, `ready
      ensures sleep.None? && !ready
    {
      sleep := None;
      ready := false;
    }

    /** `MutableSleep::poll_ready` at time `now`. */
    method PollReady(waker: Waker, now: nat) returns (isReady: bool)
      modifies `ready, `external
      ensures isReady <==> old(ready) || (old(external).Some? && sleep.Some? && now >= sleep.value)
      ensures !ready && external == if old(ready) then old(external) else Some(waker)
    {
      if ready {
        ready := false;
        isReady := true;
      } else if external.Some? {
        external := Some(waker);
        isReady := sleep.Some? && now >= sleep.value;
      } else {
        external := Some(waker);
        isReady := false;
      }
    }

    /** `HighResTimerLock::maybe_lock`. */
    method MaybeLock(ms: nat) returns (highRes: bool)
      modifies `lockCount
      ensures highRes <==> ms <= LOW_RES_TIMER_RESOLUTION
      ensures lockCount == old(lockCount) + if highRes then 1 else 0
    {
      highRes := ms <= LOW_RES_TIMER_RESOLUTION;
      if highRes {
        lockCount := lockCount + 1;
      }
    }

    /** The sleep moves forward if the new deadline is before the first key. */
    method Arm(deadline: nat, elapsed: bool)
      modifies `sleep, `ready, `woken
      ensures sleep == if ComesFirst(timers, deadline) then Some(deadline) else old(sleep)
      ensures ready == (old(ready) || (elapsed && ComesFirst(timers, deadline)))
      ensures woken == if elapsed && ComesFirst(timers, deadline) && external.Some? then old(woken) + [external.value]
                       else old(woken)
    {
      if timers == [] || deadline < timers[0].deadline {
        Change(deadline, elapsed);
      }
    }

    /** `queue_timer_internal` at time `now`: what it writes. */
    method QueueInternal(repeat: bool, ms: nat, value: Value, system: bool, now: nat, elapsed: bool) returns (id: Id)
      requires clock <= now
      modifies `nextId, `timers, `data, `lockCount, `sleep, `ready, `woken, `clock, `queued
      ensures id == old(nextId) + 1
      ensures QueuedAt(old(Now()), repeat, ms, value, system, elapsed, now, Now())
    {
      hide Insert, ComesFirst;
      var highRes := MaybeLock(ms);
      Arm(now + ms, elapsed);
      id := nextId + 1;
      Store(id, NewKey(id, repeat, ms, system, now), TimerData(value, false, highRes), now, ms);
    }

    /** Enters a new timer into the tree and the data map. */
    method Store(id: Id, key: Timer, d: TimerData, ghost now: nat, ghost ms: nat)
      modifies `nextId, `timers, `data, `clock, `queued
      ensures nextId == id && timers == Insert(old(timers), key) && data == old(data)[id := d] && clock == now
      ensures queued == if key.info.kind.Repeat? then old(queued) else old(queued)[id := Queued(now, ms)]
    {
      hide Insert;
      nextId, timers, data := id, Insert(timers, key), data[id := d];
      clock, queued := now, if key.info.kind.Repeat? then queued else queued[id := Queued(now, ms)];
    }

    /** `queue_timer`, `queue_timer_repeat` and `queue_system_timer`. */
    method Queue(repeat: bool, ms: nat, value: Value, system: bool, now: nat, elapsed: bool) returns (id: Id)
      requires Valid() && clock <= now
      modifies `nextId, `timers, `data, `lockCount, `sleep, `ready, `woken, `clock, `queued
      ensures Valid() && id == old(nextId) + 1 && id !in old(data)
      ensures QueuedAt(old(Now()), repeat, ms, value, system, elapsed, now, Now())
      ensures LiveTimers() == old(LiveTimers()) +
              {Key(now + ms, id, Info(if !repeat then Once else if ms > 0 then Repeat(ms) else Repeat(1), system))}
    {
      hide Inv, AfterQueue, Live;
      id := QueueInternal(repeat, ms, value, system, now, elapsed);
      QueueOk(old(View()), View(), repeat, ms, system, now, TimerData(value, false, ms <= LOW_RES_TIMER_RESOLUTION));
    }

    /** The bookkeeping after `id` left the data map, shared by cancelling and taking. */
    method Release(id: Id, removed: TimerData, ghost s: State)
      requires Inv(s) && id in s.data && removed == s.data[id] && data == s.data - {id}
      requires timers == s.timers && unrefdCount == s.unrefdCount && lockCount == s.lockCount
      requires sleep == s.sleep && ready == s.ready
      modifies `timers, `unrefdCount, `lockCount, `sleep, `ready
      ensures if data == map[] then
                timers == [] && unrefdCount == 0 && lockCount == 0 && sleep.None? && !ready
              else
                && timers == s.timers && sleep == s.sleep && ready == s.ready
                && unrefdCount == s.unrefdCount - (if removed.unrefd then 1 else 0)
                && lockCount == s.lockCount - (if removed.highRes then 1 else 0)
    {
      hide Inv;
      RemoveCounts(s, id);
      if data == map[] {
        // the debug assertions of `cancel_timer`
        assert unrefdCount == if removed.unrefd then 1 else 0;
        assert lockCount > 0 <==> removed.highRes;
        lockCount := 0;
        unrefdCount := 0;
        timers := [];
        Clear();
      } else {
        if removed.highRes {
          assert lockCount > 0;
          lockCount := lockCount - 1;
        }
        if removed.unrefd {
          unrefdCount := unrefdCount - 1;
        }
      }
    }

    /** `cancel_timer`. */
    method Cancel(id: Id) returns (value: Option<Value>)
      requires Valid()
      modifies `data, `timers, `unrefdCount, `lockCount, `sleep, `ready, `undrained, `cancelled
      ensures Valid()
      ensures value == if id in old(data) then Some(old(data)[id].data) else None
      ensures CancelledAt(old(Now()), id, Now())
      ensures LiveTimers() == set k | k in old(LiveTimers()) && k.id != id
    {
      hide Inv;
      if id !in data {
        MissingUndrained(View(), id);
        assert data == data - {id} && undrained == undrained - {id};
        return None;
      }
      ghost var s := View();
      var removed := data[id];
      data := data - {id};
      Release(id, removed, s);
      undrained := undrained - {id};
      cancelled := cancelled + {id};
      RemoveOk(s, View(), id);
      return Some(removed.data);
    }

    /** `take_fired_timer`, for an id and type that a batch reported. */
    method TakeFired(id: Id, kind: TimerType) returns (value: Option<Value>)
      requires Valid() && (kind.Once? && id in data ==> id in undrained)
      modifies `data, `timers, `unrefdCount, `lockCount, `sleep, `ready, `undrained
      ensures Valid()
      ensures value == if id in old(data) then Some(old(data)[id].data) else None
      ensures Taken(old(Now()), id, kind, Now())
      ensures data == if kind.Once? then old(data) - {id} else old(data)
      ensures undrained == if kind.Once? then old(undrained) - {id} else old(undrained)
      ensures LiveTimers() == old(LiveTimers())
      ensures id in cancelled ==> value.None?
    {
      hide Inv, Live;
      CancelledGone(View(), id);
      if id !in data {
        MissingUndrained(View(), id);
        assert data == data - {id} && undrained == undrained - {id};
        return None;
      }
      if kind.Repeat? {
        return Some(data[id].data);
      }
      var taken := TakeOnce(id);
      return Some(taken);
    }

    method TakeOnce(id: Id) returns (value: Value)
      requires Valid() && id in data && id in undrained
      modifies `data, `timers, `unrefdCount, `lockCount, `sleep, `ready, `undrained
      ensures Valid() && value == old(data)[id].data
      ensures AfterRemove(old(View()), View(), id) && cancelled == old(cancelled)
      ensures LiveTimers() == old(LiveTimers())
    {
      hide Inv, Live;
      ghost var s := View();
      value := data[id].data;
      var removed := data[id];
      data := data - {id};
      Release(id, removed, s);
      undrained := undrained - {id};
      TakeOk(s, View(), id);
    }

    /** The loop of `poll_timers` over the keys due before `now`. */
    method Collect(now: nat) returns (batch: seq<Fired>, onceCount: nat)
      modifies `timers
      ensures timers == LeftTree(old(View()), now)
      ensures batch == Report(FiredKeys(old(View()), now))
      ensures onceCount == OnceCount(FiredKeys(old(View()), now))
    {
      var n := Due(timers, now);
      var split := timers[..n];
      timers := timers[n..];
      ghost var rest, ids := timers, data.Keys;
      batch, onceCount := [], 0;
      for i := 0 to |split|
        invariant batch == Report(Retain(split[..i], ids))
        invariant onceCount == OnceCount(Retain(split[..i], ids))
        invariant timers == RearmAll(split[..i], ids, rest, now)
      {
        var k := split[i];
        assert split[..i + 1][..i] == split[..i] && split[..i + 1][i] == k;
        if k.id in data {
          if k.info.kind.Repeat? {
            timers := Insert(timers, Rearmed(k, now));
          } else {
            onceCount := onceCount + 1;
          }
          batch := batch + [Fired(k.id, k.info.kind)];
          ReportMore(Retain(split[..i], ids), k);
        } else {
          assert Retain(split[..i + 1], ids) == Retain(split[..i], ids);
        }
      }
      assert split[..|split|] == split;
    }

    /** Pops the tombstones in front of the tree. */
    method CompactFront()
      requires Sorted(timers) && UniqueIds(timers)
      modifies `timers
      ensures Sorted(timers) && UniqueIds(timers)
      ensures forall k :: k in timers ==> k in old(timers)
      ensures Live(timers, data.Keys) == Live(old(timers), data.Keys)
    {
      while timers != [] && timers[0].id !in data
        invariant Sorted(timers) && UniqueIds(timers)
        invariant forall k :: k in timers ==> k in old(timers)
        invariant Live(timers, data.Keys) == Live(old(timers), data.Keys)
        decreases |timers|
      {
        assert timers == [timers[0]] + timers[1..];
        assert Live(timers, data.Keys) == Live(timers[1..], data.Keys);
        timers := timers[1..];
      }
    }

    /** `poll_timers`. The clock is read twice, for the sleep (`check`) and for the batch (`now`);
        `elapsed` says whether the timer armed at the end is ready at once. */
    method Poll(waker: Waker, check: nat, now: nat, elapsed: bool) returns (batch: Option<seq<Fired>>)
      requires Valid() && clock <= check <= now && PollSafe(View(), external, check, now)
      modifies `timers, `sleep, `ready, `woken, `external, `undrained, `clock, `log
      ensures Valid() && clock <= now
      ensures batch.Some? <==> SleepReady(old(View()), old(external), check) && SomeDue(old(View()), now)
      ensures batch.Some? ==> BatchDelivered(old(View()), View(), batch.value, now)
      // without a batch nothing changes for the client, and a registered client has missed nothing
      ensures batch.None? ==> LiveTimers() == old(LiveTimers()) && log == old(log) && undrained == old(undrained)
      ensures batch.None? && old(external).Some? ==> forall k :: k in LiveTimers() ==> k.deadline >= check
      // the waker is stored, except when the ready flag was consumed
      ensures external == if old(ready) then old(external) else Some(waker)
      ensures external.Some? <==> !old(ready) || old(external).Some?
      ensures old(log) <= log && Polled(old(Now()), waker, check, now, batch, Now())
    {
      hide Inv, Live, BatchDelivered, BatchSafe, SomeDue;
      ghost var s := View();
      PollEarly(s, check);
      var isReady := PollReady(waker, check);
      NotReadyOk(s, View());
      if !isReady {
        return None;
      }
      SafeAnyway(s, View(), now);
      DueAnyway(s, View(), now);
      batch := PollDue(now, elapsed);
      SameDelivery(s, View(), batch, now);
      LogGrows(s, View(), batch, now);
    }

    /** `poll_timers` once the sleep is ready. */
    method PollDue(now: nat, elapsed: bool) returns (batch: Option<seq<Fired>>)
      requires Valid() && clock <= now && |data| > 0 && !ready && BatchSafe(View(), now)
      modifies `timers, `sleep, `ready, `woken, `undrained, `clock, `log
      ensures Valid() && clock == now
      ensures batch.Some? <==> SomeDue(old(View()), now)
      ensures batch.Some? ==> BatchDelivered(old(View()), View(), batch.value, now)
      ensures batch.None? ==> LiveTimers() == old(LiveTimers()) && log == old(log) && undrained == old(undrained)
      ensures batch.None? ==> forall k :: k in LiveTimers() ==> k.deadline >= now
    {
      hide Inv, AfterBatch, Live, IsBatch, Advance, BatchDelivered, OnceIds, LeftTree, FiredKeys, BatchSafe, SomeDue,
        SubtractionHolds;
      ghost var s := View();
      BatchReady(s, now);
      BatchUnderflow(s, now);
      var fired, onceCount := Collect(now);
      ghost var keys := FiredKeys(s, now);
      clock, undrained, log := now, undrained + OnceIds(keys), log + ReportIds(keys);
      if fired == [] {
        assert |data| > 0;
        FinishIneffective(elapsed, s, now);
        return None;
      }
      FinishBatch(onceCount, elapsed, s, now);
      Delivered(s, View(), now);
      return Some(fired);
    }

    /** No timer was due: drop the tombstones in front and wait for the first key. */
    method FinishIneffective(elapsed: bool, ghost s: State, ghost now: nat)
      requires Inv(s) && |s.data| > 0 && s.clock <= now && FiredKeys(s, now) == []
      requires View() == Collected(s, now) && !ready
      modifies `timers, `sleep, `ready, `woken
      ensures Valid() && log == s.log && undrained == s.undrained
      ensures LiveTimers() == Live(s.timers, s.data.Keys)
      ensures forall k :: k in LiveTimers() ==> k.deadline >= now
    {
      hide Inv, LeftTree, FiredKeys, Live;
      BatchReady(s, now);
      CompactFront();
      if timers != [] {
        Change(timers[0].deadline, elapsed);
      }
      IneffectiveOk(s, View(), now);
    }

    /** A batch fired: clear or compact the tree and wait for its first key. */
    method FinishBatch(onceCount: nat, elapsed: bool, ghost s: State, ghost now: nat)
      requires Inv(s) && |s.data| > 0 && s.clock <= now && SubtractionHolds(s, now)
      requires View() == Collected(s, now) && !ready && onceCount == OnceCount(FiredKeys(s, now))
      modifies `timers, `sleep, `ready, `woken
      ensures Valid() && AfterBatch(s, View(), now)
      ensures LiveTimers() == Advance(Live(s.timers, s.data.Keys), now)
      ensures |timers| <= |data| - |undrained| + |s.undrained| + COMPACTION_MINIMUM
    {
      hide Inv, LeftTree, FiredKeys, Live, Advance, AfterBatch, OnceIds;
      BatchReady(s, now);
      LeftVariants(s, now);
      assert onceCount <= |data|;
      var pending := |data| - onceCount;
      if pending == 0 {
        timers := [];
        Clear();
      } else {
        assert |timers| >= pending;
        var tombstones := |timers| - pending;
        if tombstones > COMPACTION_MINIMUM {
          timers := Retain(timers, data.Keys);
        }
        if timers != [] {
          Change(timers[0].deadline, elapsed);
        }
      }
      EffectiveOk(s, View(), now);
    }

    /** `unref_timer` (`flag` set) and `ref_timer` (`flag` cleared); unknown ids are ignored. */
    method SetUnrefd(id: Id, flag: bool)
      requires Valid()
      modifies `data, `unrefdCount
      ensures Valid() && LiveTimers() == old(LiveTimers())
      ensures data == if id in old(data) then old(data)[id := old(data)[id].(unrefd := flag)] else old(data)
      ensures UnrefdAt(old(Now()), id, flag, Now())
    {
      hide HistoryOk;
      ghost var s := View();
      if id in data && data[id].unrefd != flag {
        RefCounts(data, id, flag);
        data := data[id := data[id].(unrefd := flag)];
        unrefdCount := if flag then unrefdCount + 1 else unrefdCount - 1;
        RefHistory(s, View());
      } else {
        assert id in data ==> data[id := data[id].(unrefd := flag)] == data;
      }
    }

    /** What application code may do between polls, or in the callback of a timer. */
    method Apply(op: ClientOp, time: nat, ghost batch: seq<Fired>)
      requires Valid() && clock <= time && Drainable(View(), batch)
      modifies this
      ensures Valid() && clock <= time && Drainable(View(), batch) && Applied(old(Now()), op, time, Now())
      ensures old(log) <= log && undrained <= old(undrained)
    {
      hide Inv, NewKey, ComesFirst, Insert;
      match op
      case QueueOp(repeat, ms, value, system, elapsed) =>
        var _ := Queue(repeat, ms, value, system, time, elapsed);
      case CancelOp(id) =>
        var _ := Cancel(id);
      case UnrefOp(id, flag) =>
        SetUnrefd(id, flag);
      case ElapseOp =>
        if sleep.Some? { SleepElapses(); }
    }

    /** Every run: the clock advances by arbitrary amounts, application code runs between polls and in
        the callbacks, and each batch is taken before the next poll. */
    method Run(events: seq<Event>, start: nat)
      requires Valid() && undrained == {} && clock <= start
      modifies this
      ensures Valid() && undrained == {} && old(log) <= log
      ensures Runs(old(Now()), events, start, Now())
    {
      hide Inv, Step, Lasts;
      var time := start;
      for i := 0 to |events|
        invariant Valid() && undrained == {} && clock <= time && old(log) <= log
        invariant time == EndTime(start, events[..i]) && Runs(old(Now()), events[..i], start, Now())
      {
        time := Do(events[i], time);
        PrefixMore(events, i);
      }
      assert events[..|events|] == events;
    }

    method Do(e: Event, start: nat) returns (time: nat)
      requires Valid() && undrained == {} && clock <= start
      modifies this
      ensures Valid() && undrained == {} && old(log) <= log && clock <= time
      ensures time == start + Lasts(e) && Step(old(Now()), e, start, Now())
    {
      hide Inv, PollSafe, BatchDelivered, Drainable, Applied, Polled, Drains;
      DrainableNothing(View());
      match e
      case Client(delay, op) =>
        time := start + delay;
        Apply(op, time, []);
      case PollAndDrain(delay, waker, lag, elapsed, callbacks) =>
        ghost var s := View();
        time := start + delay + lag;
        DrainedIsSafe(s, external, start + delay, time);
        var batch := Poll(waker, start + delay, time, elapsed);
        ghost var u := Now();
        if batch.Some? {
          DrainableBatch(s, View(), batch.value, time);
          Drain(batch.value, callbacks, time);
        } else {
          DrainsNothing(u, callbacks, time);
        }
        assert Polled(old(Now()), waker, start + delay, time, batch, u);
    }

    /** Runs the callbacks of a batch: before each timer's data is taken, earlier callbacks may have
        queued, cancelled or unreferenced anything. */
    method Drain(batch: seq<Fired>, callbacks: seq<seq<ClientOp>>, time: nat)
      requires Valid() && clock <= time && Drainable(View(), batch)
      requires forall id :: id in undrained ==> exists i :: 0 <= i < |batch| && batch[i] == Fired(id, Once)
      modifies this
      ensures Valid() && undrained == {} && clock <= time && old(log) <= log
      ensures Drains(old(Now()), batch, callbacks, time, Now())
    {
      hide Inv, Taken, Applies;
      for i := 0 to |batch|
        invariant old(log) <= log
        invariant Valid() && clock <= time && Drainable(View(), batch[i..])
        invariant forall id :: id in undrained ==> exists j :: i <= j < |batch| && batch[j] == Fired(id, Once)
        invariant Drains(old(Now()), batch[..i], callbacks, time, Now())
      {
        assert batch[i..][0] == batch[i] && batch[i..][1..] == batch[i + 1..];
        ghost var u := Now();
        var _ := TakeFired(batch[i].id, batch[i].kind);
        ghost var x := Now();
        ApplyAll(if i < |callbacks| then callbacks[i] else [], time, batch[i + 1..]);
        PrefixMore(batch, i);
        assert Drains(old(Now()), DropLast(batch[..i + 1]), callbacks, time, u);
      }
      assert batch[..|batch|] == batch;
    }

    method ApplyAll(ops: seq<ClientOp>, time: nat, ghost batch: seq<Fired>)
      requires Valid() && clock <= time && Drainable(View(), batch)
      modifies this
      ensures Valid() && clock <= time && Drainable(View(), batch) && Applies(old(Now()), ops, time, Now())
      ensures old(log) <= log && undrained <= old(undrained)
    {
      hide Inv, Applied, Drainable;
      for i := 0 to |ops|
        invariant Valid() && clock <= time && Drainable(View(), batch) && Applies(old(Now()), ops[..i], time, Now())
        invariant old(log) <= log && undrained <= old(undrained)
      {
        Apply(ops[i], time, batch);
        PrefixMore(ops, i);
      }
      assert ops[..|ops|] == ops;
    }
  }

  /** A one-shot and a second timer, queued at time 0. */
  method TwoTimers(first: nat, repeat: bool, second: nat) returns (t: Timers)
    ensures fresh(t) && t.Valid() && t.nextId == 2 && t.data.Keys == {1, 2} && t.undrained == {} && t.clock == 0
    ensures t.external.None? && !t.ready
    ensures t.LiveTimers() == {NewKey(1, false, first, false, 0), NewKey(2, repeat, second, false, 0)}
  {
    hide Inv, Live, Insert;
    t := new Timers();
    var one := t.Queue(false, first, 0, false, 0, false);
    var two := t.Queue(repeat, second, 0, false, 0, false);
  }

  /** A run after which the next poll underflows: timer 1, a one-shot, fires without being taken, and
      timer 2, which repeats, is the only one left. */
  method UndrainedExample() returns (t: Timers)
    ensures t.Valid() && t.clock <= 6 && !PollSafe(t.View(), t.external, 6, 6)
  {
    hide Inv, PollSafe, BatchDelivered, Live;
    t := TwoTimers(1, true, 5);
    DrainedIsSafe(t.View(), t.external, 0, 0);
    var none := t.Poll(0, 0, 0, false);
    assert none.None?;
    LeaveOneUntaken(t);
  }

  method LeaveOneUntaken(t: Timers)
    requires t.Valid() && t.nextId == 2 && t.data.Keys == {1, 2} && t.undrained == {} && t.clock <= 2
    requires t.external.Some? && t.LiveTimers() == {NewKey(1, false, 1, false, 0), NewKey(2, true, 5, false, 0)}
    modifies t
    ensures t.Valid() && t.clock <= 6 && !PollSafe(t.View(), t.external, 6, 6)
  {
    hide Inv, PollSafe, BatchDelivered, Live;
    DrainedIsSafe(t.View(), t.external, 2, 2);
    ghost var s := t.View();
    ghost var one, two := NewKey(1, false, 1, false, 0), NewKey(2, true, 5, false, 0);
    assert one in t.LiveTimers() && two in t.LiveTimers();
    var batch := t.Poll(0, 2, 2, false);
    FirstUndrained(s, t.View(), batch.value, 2, one);
    StillLive(s, t.View(), batch.value, 2, two);
    UndrainedUnsafe(t.View(), t.external, 6);
  }

  /** A run after which a poll is pending with a live timer and has not stored its waker: the sleep
      elapsed for a timer that was cancelled, before the first poll. */
  method PendingUnwatched(waker: Waker) returns (t: Timers, batch: Option<seq<Fired>>)
    ensures t.Valid() && batch.None? && t.external.None? && t.LiveTimers() != {}
  {
    hide Inv, PollSafe, BatchDelivered, Live, NewKey;
    t := TwoTimers(10, false, 20);
    var _ := t.Cancel(1);
    SecondLeft(t.LiveTimers());
    batch := PollElapsed(t, waker);
  }

  method PollElapsed(t: Timers, waker: Waker) returns (batch: Option<seq<Fired>>)
    requires t.Valid() && t.undrained == {} && t.clock <= 11 && t.external.None?
    requires t.LiveTimers() != {} && forall k :: k in t.LiveTimers() ==> k.deadline == 20
    modifies t
    ensures t.Valid() && batch.None? && t.external.None? && t.LiveTimers() != {}
  {
    hide Inv, PollSafe, BatchDelivered, Live;
    LiveMeansArmed(t.View());
    t.SleepElapses();
    DrainedIsSafe(t.View(), t.external, 11, 11);
    batch := t.Poll(waker, 11, 11, false);
  }

  lemma SecondLeft(live: set<Timer>)
    requires live == set k | k in {NewKey(1, false, 10, false, 0), NewKey(2, false, 20, false, 0)} && k.id != 1
    ensures live != {} && forall k :: k in live ==> k.deadline == 20
  {
    assert NewKey(2, false, 20, false, 0) in live;
  }
}
