/**
 The timers of the libuv-compatible loop (core/uv_compat.rs): an ordered set of keys, a map
 from timer ids to handles, and the handles' own fields, which callbacks may change while
 `run_timers` walks over the expired keys.
 */
module UvTimers {
  import opened Options
  import opened Sequences
  import opened TimerTree

  type Handle = nat
  type TimerKey = Key<()>

  const UV_EINVAL := -22

  /** `uv_timer_t`. */
  datatype TimerHandle = TimerHandle(
    active: bool,
    closing: bool,
    id: Id,
    deadline: nat,
    cb: Option<nat>,
    timeout: nat,
    repeat: nat)

  /** What happened, in order: a key was processed by `run_timers`, or a timer id was stopped. */
  datatype Event = Fired(key: TimerKey, handle: Handle) | Stopped(id: Id)

  datatype State = State(
    timers: seq<TimerKey>,
    nextTimerId: Id,
    timerHandles: map<Id, Handle>,
    handles: map<Handle, TimerHandle>,
    closing: seq<Handle>,
    trace: seq<Event>)

  function KeyOf(t: TimerHandle): TimerKey {
    Key(t.deadline, t.id, ())
  }

  // ---------------------------------------------------------------- the invariant

  /** The two indexes and the active flags agree one to one. */
  ghost predicate Agree(s: State) {
    && (forall id :: id in s.timerHandles ==> IndexOk(s, id))
    && (forall k :: k in s.timers ==> k.id in s.timerHandles && k == KeyOf(s.handles[s.timerHandles[k.id]]))
    && (forall h :: h in s.handles ==> HandleOk(s, h))
  }

  ghost predicate IndexOk(s: State, id: Id)
    requires id in s.timerHandles
  {
    var h := s.timerHandles[id];
    && 0 < id < s.nextTimerId
    && h in s.handles && s.handles[h].active && s.handles[h].id == id
    && KeyOf(s.handles[h]) in s.timers
  }

  ghost predicate HandleOk(s: State, h: Handle)
    requires h in s.handles
  {
    && s.handles[h].id < s.nextTimerId
    && (s.handles[h].active <==> s.handles[h].id in s.timerHandles)
    && (s.handles[h].active ==> s.timerHandles[s.handles[h].id] == h)
  }

  /** A stopped id is never used again. */
  ghost predicate Retired(s: State) {
    forall i :: 0 <= i < |s.trace| && s.trace[i].Stopped? ==>
      s.trace[i].id !in s.timerHandles && s.trace[i].id < s.nextTimerId
  }

  ghost predicate NeverAfterStop(trace: seq<Event>) {
    forall i, j :: 0 <= i < j < |trace| && trace[i].Stopped? && trace[j].Fired? ==> trace[j].key.id != trace[i].id
  }

  ghost predicate Inv(s: State) {
    && s.nextTimerId > 0
    && Sorted(s.timers)
    && Agree(s)
    && Retired(s)
    && NeverAfterStop(s.trace)
  }

  lemma KeysUnique(s: State)
    requires Agree(s)
    ensures UniqueIds(s.timers)
  {
  }

  // ---------------------------------------------------------------- steps

  /** `stop_timer` on a handle that has been started before. */
  function Stop(s: State, h: Handle): State
    requires h in s.handles
  {
    var t := s.handles[h];
    if t.id != 0 then
      s.(timers := Remove(s.timers, KeyOf(t)), timerHandles := s.timerHandles - {t.id},
         handles := s.handles[h := t.(active := false)], trace := s.trace + [Stopped(t.id)])
    else
      s.(handles := s.handles[h := t.(active := false)])
  }

  lemma StopOk(s: State, h: Handle)
    requires Inv(s) && h in s.handles
    ensures Inv(Stop(s, h)) && !Stop(s, h).handles[h].active && (s.handles[h].active ==> s.handles[h].id > 0)
    ensures s.handles[h].id !in Stop(s, h).timerHandles
  {
    var t, w := s.handles[h], Stop(s, h);
    assert HandleOk(s, h);
    StopAgrees(s, h);
    forall i | 0 <= i < |w.trace| && w.trace[i].Stopped?
      ensures w.trace[i].id !in w.timerHandles && w.trace[i].id < w.nextTimerId
    {
      assert i < |s.trace| ==> w.trace[i] == s.trace[i];
    }
  }

  lemma StopAgrees(s: State, h: Handle)
    requires Sorted(s.timers) && Agree(s) && h in s.handles
    ensures Sorted(Stop(s, h).timers) && Agree(Stop(s, h)) && s.handles[h].id !in Stop(s, h).timerHandles
  {
    var t, w := s.handles[h], Stop(s, h);
    RemoveSorted(s.timers, KeyOf(t));
    assert HandleOk(s, h);
    forall id | id in w.timerHandles ensures IndexOk(w, id) {
      assert IndexOk(s, id);
    }
    forall g | g in w.handles ensures HandleOk(w, g) {
      assert HandleOk(s, g);
    }
    forall k | k in w.timers ensures k.id in w.timerHandles && k == KeyOf(w.handles[w.timerHandles[k.id]]) {
      assert IndexOk(s, k.id);
    }
  }

  /** Giving an inactive handle a fresh id and a deadline: the end of `uv_timer_start` and
      `uv_timer_again`. */
  function Schedule(s: State, h: Handle, t: TimerHandle, deadline: nat): State
    requires h in s.handles
  {
    var t' := t.(id := s.nextTimerId, deadline := deadline, active := true);
    s.(timers := Insert(s.timers, KeyOf(t')), nextTimerId := s.nextTimerId + 1,
       timerHandles := s.timerHandles[t'.id := h], handles := s.handles[h := t'])
  }

  lemma ScheduleOk(s: State, h: Handle, t: TimerHandle, deadline: nat)
    requires Inv(s) && h in s.handles && !s.handles[h].active
    ensures Inv(Schedule(s, h, t, deadline)) && s.nextTimerId !in s.timerHandles
  {
    var w, id := Schedule(s, h, t, deadline), s.nextTimerId;
    assert id in s.timerHandles ==> IndexOk(s, id);
    InsertSorted(s.timers, KeyOf(w.handles[h]));
    forall i | i in w.timerHandles ensures IndexOk(w, i) {
      assert i != id ==> IndexOk(s, i);
    }
    forall g | g in w.handles ensures HandleOk(w, g) {
      assert HandleOk(s, g);
    }
    forall k | k in w.timers ensures k.id in w.timerHandles && k == KeyOf(w.handles[w.timerHandles[k.id]]) {
      assert k in s.timers ==> IndexOk(s, k.id);
    }
  }

  /** `run_timers` re-arms a repeating timer under the same id. */
  function Rearm(s: State, k: TimerKey, h: Handle, now: nat): State
    requires h in s.handles
  {
    var t' := s.handles[h].(deadline := now + s.handles[h].repeat);
    s.(timers := Insert(Remove(s.timers, k), KeyOf(t')), handles := s.handles[h := t'],
       trace := s.trace + [Fired(k, h)])
  }

  /** `run_timers` retires a one-shot timer. */
  function Expire(s: State, k: TimerKey, h: Handle): State
    requires h in s.handles
  {
    s.(timers := Remove(s.timers, k), timerHandles := s.timerHandles - {k.id},
       handles := s.handles[h := s.handles[h].(active := false)], trace := s.trace + [Fired(k, h)])
  }

  /** `w` is `s` after key `k` was processed at `now`: a stopped one changes nothing, a repeating timer
      is armed again counting from `now`, and a one-shot is retired. */
  ghost predicate Processed(s: State, w: State, k: TimerKey, now: nat) {
    if k.id !in s.timerHandles then w == s
    else
      var h := s.timerHandles[k.id];
      h in s.handles &&
      var t := s.handles[h];
      && w.trace == s.trace + [Fired(k, h)] && w.nextTimerId == s.nextTimerId && w.closing == s.closing
      && if t.repeat > 0 then
           && w.handles == s.handles[h := t.(deadline := now + t.repeat)] && w.timerHandles == s.timerHandles
           && forall x :: x in w.timers <==> x == Key(now + t.repeat, k.id, ()) || (x in s.timers && x != k)
         else
           && w.handles == s.handles[h := t.(active := false)] && w.timerHandles == s.timerHandles - {k.id}
           && forall x :: x in w.timers <==> x in s.timers && x != k
  }

  /** Whether processing `k` makes a callback. */
  ghost predicate CallsBack(s: State, k: TimerKey) {
    && k.id in s.timerHandles && s.timerHandles[k.id] in s.handles
    && s.handles[s.timerHandles[k.id]].cb.Some?
  }

  lemma RearmProcessed(s: State, k: TimerKey, h: Handle, now: nat)
    requires Sorted(s.timers) && k.id in s.timerHandles && s.timerHandles[k.id] == h && h in s.handles
    requires s.handles[h].id == k.id && s.handles[h].repeat > 0
    ensures Processed(s, Rearm(s, k, h, now), k, now)
  {
    RemoveSorted(s.timers, k);
  }

  lemma ExpireProcessed(s: State, k: TimerKey, h: Handle, now: nat)
    requires Sorted(s.timers) && k.id in s.timerHandles && s.timerHandles[k.id] == h && h in s.handles
    requires s.handles[h].repeat == 0
    ensures Processed(s, Expire(s, k, h), k, now)
  {
    RemoveSorted(s.timers, k);
  }

  lemma RearmOk(s: State, k: TimerKey, now: nat)
    requires Inv(s) && k in s.timers
    ensures var h := s.timerHandles[k.id]; k.id in s.timerHandles && h in s.handles && s.handles[h].active
                                           && s.handles[h].id == k.id && Inv(Rearm(s, k, h, now))
                                           && forall x :: x in s.timers && x != k ==> x in Rearm(s, k, h, now).timers
  {
    assert IndexOk(s, k.id);
    var h := s.timerHandles[k.id];
    var w := Rearm(s, k, h, now);
    RemoveSorted(s.timers, k);
    KeysUnique(s);
    assert k.id !in Ids(Remove(s.timers, k));
    InsertSorted(Remove(s.timers, k), KeyOf(w.handles[h]));
    forall i | i in w.timerHandles ensures IndexOk(w, i) {
      assert IndexOk(s, i);
    }
    forall g | g in w.handles ensures HandleOk(w, g) {
      assert HandleOk(s, g);
    }
    forall x | x in w.timers ensures x.id in w.timerHandles && x == KeyOf(w.handles[w.timerHandles[x.id]]) {
      assert x in s.timers ==> IndexOk(s, x.id);
    }
  }

  lemma ExpireOk(s: State, k: TimerKey)
    requires Inv(s) && k in s.timers
    ensures var h := s.timerHandles[k.id]; k.id in s.timerHandles && h in s.handles && s.handles[h].active
                                           && Inv(Expire(s, k, h))
                                           && forall x :: x in s.timers && x != k ==> x in Expire(s, k, h).timers
  {
    assert IndexOk(s, k.id);
    var h := s.timerHandles[k.id];
    var w := Expire(s, k, h);
    RemoveSorted(s.timers, k);
    forall i | i in w.timerHandles ensures IndexOk(w, i) {
      assert IndexOk(s, i);
    }
    forall g | g in w.handles ensures HandleOk(w, g) {
      assert HandleOk(s, g);
    }
    forall x | x in w.timers ensures x.id in w.timerHandles && x == KeyOf(w.handles[w.timerHandles[x.id]]) {
      assert IndexOk(s, x.id);
    }
  }

  // ---------------------------------------------------------------- a pass

  /** What a callback, or code between passes, may do. `at` is the clock reading it gets. */
  datatype Op =
    | Init(handle: Handle)
    | Start(handle: Handle, cb: nat, timeout: nat, repeat: nat, at: nat)
    | StopOp(handle: Handle)
    | Again(handle: Handle, at: nat)
    | SetRepeat(handle: Handle, repeat: nat)
    | Close(handle: Handle)

  datatype Turn = Between(ops: seq<Op>) | Pass(now: nat, callbacks: seq<seq<Op>>)

  // What each operation does.

  ghost predicate Initialised(v: State, h: Handle, w: State) {
    w == v.(handles := v.handles[h := FRESH_TIMER])
  }

  /** Key and id of handle `h` go, if it was ever started. */
  ghost predicate Forgets(v: State, h: Handle, timers: seq<TimerKey>, timerHandles: map<Id, Handle>, trace: seq<Event>)
    requires h in v.handles
  {
    var t := v.handles[h];
    if t.id == 0 then timers == v.timers && timerHandles == v.timerHandles && trace == v.trace
    else
      && (forall k :: k in timers <==> k in v.timers && k != Key(t.deadline, t.id, ()))
      && timerHandles == v.timerHandles - {t.id} && trace == v.trace + [Stopped(t.id)]
  }

  ghost predicate StoppedAt(v: State, h: Handle, w: State)
    requires h in v.handles
  {
    && Forgets(v, h, w.timers, w.timerHandles, w.trace)
    && w.handles == v.handles[h := v.handles[h].(active := false)]
    && w.nextTimerId == v.nextTimerId && w.closing == v.closing
  }

  /** Handle `h` becomes `t` with a fresh id and the given deadline. */
  ghost predicate Armed(v: State, h: Handle, t: TimerHandle, deadline: nat, w: State) {
    var id := v.nextTimerId;
    && w.handles == v.handles[h := t.(active := true, id := id, deadline := deadline)]
    && w.nextTimerId == id + 1 && w.timerHandles == v.timerHandles[id := h]
    && (forall k :: k in w.timers <==> k in v.timers || k == Key(deadline, id, ()))
    && w.closing == v.closing && w.trace == v.trace
  }

  ghost predicate Started(v: State, h: Handle, cb: nat, timeout: nat, repeat: nat, at: nat, w: State)
    requires h in v.handles
  {
    var t := v.handles[h].(cb := Some(cb), timeout := timeout, repeat := repeat);
    if v.handles[h].active then exists u :: StoppedAt(v, h, u) && Armed(u, h, t, at + timeout, w)
    else Armed(v, h, t, at + timeout, w)
  }

  ghost predicate StartedAgain(v: State, h: Handle, at: nat, w: State)
    requires h in v.handles
  {
    if v.handles[h].repeat == 0 then w == v
    else exists u :: StoppedAt(v, h, u) && Armed(u, h, v.handles[h], at + v.handles[h].repeat, w)
  }

  ghost predicate Closed(v: State, h: Handle, w: State)
    requires h in v.handles
  {
    && Forgets(v, h, w.timers, w.timerHandles, w.trace)
    && w.handles == v.handles[h := v.handles[h].(closing := true, active := false)]
    && w.nextTimerId == v.nextTimerId && w.closing == v.closing + [h]
  }

  // ... and what runs of them do.

  ghost predicate Step(v: State, op: Op, w: State) {
    match op
    case Init(h) => if h in v.handles ==> !v.handles[h].active then Initialised(v, h, w) else w == v
    case Start(h, cb, timeout, repeat, at) =>
      if h in v.handles then Started(v, h, cb, timeout, repeat, at, w) else w == v
    case StopOp(h) => if h in v.handles then StoppedAt(v, h, w) else w == v
    case Again(h, at) => if h in v.handles then StartedAgain(v, h, at, w) else w == v
    case SetRepeat(h, repeat) =>
      w == if h in v.handles then v.(handles := v.handles[h := v.handles[h].(repeat := repeat)]) else v
    case Close(h) => if h in v.handles && !v.handles[h].closing then Closed(v, h, w) else w == v
  }

  ghost predicate Ops(v: State, ops: seq<Op>, w: State) {
    if ops == [] then w == v
    else exists u :: Ops(v, DropLast(ops), u) && Step(u, Last(ops), w)
  }

  /** From `v` to `w` a pass processed the `expired` keys in order, and right after the `n`-th key that has a
      callback, what that callback does; `called` callbacks were made. */
  ghost predicate Passes(v: State, expired: seq<TimerKey>, now: nat, callbacks: seq<seq<Op>>, w: State, called: nat) {
    if expired == [] then w == v && called == 0
    else exists u, n, x :: Passes(v, DropLast(expired), now, callbacks, u, n) && Processed(u, x, Last(expired), now)
                           && CalledBack(CallsBack(u, Last(expired)), x, callbacks, n, w, called)
  }

  ghost predicate CalledBack(calls: bool, x: State, callbacks: seq<seq<Op>>, n: nat, w: State, called: nat) {
    if calls then called == n + 1 && Ops(x, Nth(callbacks, n), w) else called == n && w == x
  }

  function Nth(callbacks: seq<seq<Op>>, n: nat): seq<Op> {
    if n < |callbacks| then callbacks[n] else []
  }

  ghost predicate Passed(v: State, expired: seq<TimerKey>, now: nat, callbacks: seq<seq<Op>>, w: State) {
    exists called :: Passes(v, expired, now, callbacks, w, called)
  }

  ghost predicate Turned(v: State, e: Turn, w: State) {
    match e
    case Between(ops) => Ops(v, ops, w)
    case Pass(now, callbacks) => Passed(v, v.timers[..Due(v.timers, now + 1)], now, callbacks, w)
  }

  ghost predicate Runs(v: State, turns: seq<Turn>, w: State) {
    if turns == [] then w == v
    else exists u :: Runs(v, DropLast(turns), u) && Turned(u, Last(turns), w)
  }

  lemma ScheduleArmed(s: State, h: Handle, t: TimerHandle, deadline: nat)
    requires h in s.handles
    ensures Armed(s, h, t, deadline, Schedule(s, h, t, deadline))
  {
  }

  /** Whether the old fields said active plays no part. */
  lemma SameArmed(s: State, h: Handle, t: TimerHandle, t': TimerHandle, deadline: nat, w: State)
    requires Armed(s, h, t, deadline, w) && t == t'.(active := t.active)
    ensures Armed(s, h, t', deadline, w)
  {
  }

  lemma SkipProcessed(s: State, k: TimerKey, now: nat)
    requires k.id !in s.timerHandles
    ensures Processed(s, s, k, now)
  {
  }

  lemma SortedInv(s: State)
    requires Inv(s)
    ensures Sorted(s.timers)
  {
  }

  /** Queueing a close callback touches no index. */
  lemma CloseOk(s: State, closing: seq<Handle>)
    requires Inv(s)
    ensures Inv(s.(closing := closing)) && OpsBetween(s, s.(closing := closing))
    ensures forall u :: OpsBetween(u, s) ==> OpsBetween(u, s.(closing := closing))
  {
    var w := s.(closing := closing);
    forall i | i in w.timerHandles ensures IndexOk(w, i) {
      assert IndexOk(s, i);
    }
    forall g | g in w.handles ensures HandleOk(w, g) {
      assert HandleOk(s, g);
    }
  }

  lemma StopForgets(s: State, h: Handle)
    requires Sorted(s.timers) && h in s.handles
    ensures StoppedAt(s, h, Stop(s, h))
  {
    RemoveSorted(s.timers, KeyOf(s.handles[h]));
  }

  /** From `v` to `w` only operations happened, no processing of keys: ids that are still in use kept
      their keys, and ids that went away were stopped. */
  ghost predicate OpsBetween(v: State, w: State) {
    && v.nextTimerId <= w.nextTimerId
    && v.trace <= w.trace
    && (forall i :: |v.trace| <= i < |w.trace| ==> w.trace[i].Stopped?)
    && (forall k :: k in v.timers ==> k in w.timers || Stopped(k.id) in w.trace[|v.trace|..])
    && (forall k :: k in w.timers && k.id < v.nextTimerId ==> k in v.timers)
  }

  lemma OpsTrans(u: State, v: State, w: State)
    requires OpsBetween(u, v) && OpsBetween(v, w)
    ensures OpsBetween(u, w)
  {
    assert w.trace[|u.trace|..] == v.trace[|u.trace|..] + w.trace[|v.trace|..];
    assert forall i :: |u.trace| <= i < |v.trace| ==> w.trace[i] == v.trace[i];
  }

  lemma OpsNone(s: State)
    ensures OpsBetween(s, s)
  {
  }

  lemma StopBetween(s: State, h: Handle)
    requires Inv(s) && h in s.handles
    ensures OpsBetween(s, Stop(s, h))
  {
    var t, w := s.handles[h], Stop(s, h);
    RemoveSorted(s.timers, KeyOf(t));
    if t.id != 0 {
      assert w.trace[|s.trace|..] == [Stopped(t.id)];
    }
  }

  lemma ScheduleBetween(s: State, h: Handle, t: TimerHandle, deadline: nat)
    requires Inv(s) && h in s.handles
    ensures OpsBetween(s, Schedule(s, h, t, deadline))
  {
    assert forall k :: k in s.timers ==> IndexOk(s, k.id);
  }

  /** The keys processed in a stretch of the trace. */
  function FiredKeys(events: seq<Event>): seq<TimerKey> {
    if events == [] then []
    else FiredKeys(events[..|events| - 1]) +
         match events[|events| - 1] case Fired(k, _) => [k] case Stopped(_) => []
  }

  lemma {:induction false} FiredNothing(events: seq<Event>, more: seq<Event>)
    requires forall i :: 0 <= i < |more| ==> more[i].Stopped?
    ensures FiredKeys(events + more) == FiredKeys(events)
  {
    if more == [] {
      assert events + more == events;
    } else {
      FiredNothing(events, more[..|more| - 1]);
      assert (events + more)[..|events + more| - 1] == events + more[..|more| - 1];
    }
  }

  /** `pass` is what one call of `run_timers` at `now` may add to the trace when it starts with
      `timers`: expired keys in order, each at most once, and all of them but those stopped first. */
  ghost predicate PassOk(timers: seq<TimerKey>, now: nat, pass: seq<Event>) {
    && Sorted(FiredKeys(pass))
    && (forall k :: k in FiredKeys(pass) ==> k in timers && k.deadline <= now)
    && (forall k :: k in timers && k.deadline <= now ==> k in FiredKeys(pass) || Stopped(k.id) in pass)
  }

  /** The state before the `i`-th expired key is looked at. */
  ghost predicate MidPass(s: State, expired: seq<TimerKey>, i: nat, start: nat)
    requires i <= |expired| && start <= |s.trace|
  {
    var pass := s.trace[start..];
    && Inv(s)
    && Sorted(FiredKeys(pass))
    && (forall k :: k in FiredKeys(pass) ==> k in expired[..i])
    && (forall j :: 0 <= j < i ==> expired[j] in FiredKeys(pass) || Stopped(expired[j].id) in pass)
    && (forall j :: i <= j < |expired| ==> expired[j] in s.timers || Stopped(expired[j].id) in pass)
  }

  /** A key still expected is in the set exactly when its id is still in use. */
  lemma StillThere(s: State, expired: seq<TimerKey>, i: nat, start: nat)
    requires i < |expired| && start <= |s.trace| && MidPass(s, expired, i, start)
    ensures expired[i] in s.timers <==> expired[i].id in s.timerHandles
    ensures expired[i] !in s.timers ==> Stopped(expired[i].id) in s.trace[start..]
  {
    if expired[i] !in s.timers {
      var j :| 0 <= j < |s.trace[start..]| && s.trace[start..][j] == Stopped(expired[i].id);
      assert s.trace[start + j] == Stopped(expired[i].id);
    }
  }

  /** The key was stopped earlier in the pass: nothing happens. */
  lemma SkipStep(s: State, expired: seq<TimerKey>, i: nat, start: nat)
    requires i < |expired| && start <= |s.trace| && MidPass(s, expired, i, start) && expired[i].id !in s.timerHandles
    ensures Remove(s.timers, expired[i]) == s.timers && MidPass(s, expired, i + 1, start)
  {
    StillThere(s, expired, i, start);
    RemoveAbsent(s.timers, expired[i]);
    assert expired[..i + 1] == expired[..i] + [expired[i]];
  }

  lemma {:induction false} RemoveAbsent(timers: seq<TimerKey>, k: TimerKey)
    requires k !in timers
    ensures Remove(timers, k) == timers
  {
    if timers != [] {
      RemoveAbsent(timers[1..], k);
    }
  }

  /** The key fires; the other expected keys stay where they are. */
  lemma FireStep(s: State, w: State, expired: seq<TimerKey>, i: nat, start: nat, h: Handle)
    requires i < |expired| && start <= |s.trace| && MidPass(s, expired, i, start) && Sorted(expired)
    requires Inv(w) && w.trace == s.trace + [Fired(expired[i], h)]
    requires forall k :: k in s.timers && k != expired[i] ==> k in w.timers
    ensures MidPass(w, expired, i + 1, start)
  {
    var pass, pass' := s.trace[start..], w.trace[start..];
    assert pass' == pass + [Fired(expired[i], h)] && pass'[..|pass'| - 1] == pass;
    assert expired[..i + 1] == expired[..i] + [expired[i]];
    assert FiredKeys(pass') == FiredKeys(pass) + [expired[i]];
    forall a | 0 <= a < |FiredKeys(pass)| ensures Less(FiredKeys(pass)[a], expired[i]) {
      assert FiredKeys(pass)[a] in FiredKeys(pass);
    }
    forall j | i < j < |expired| ensures expired[j] in w.timers || Stopped(expired[j].id) in pass' {
      assert Less(expired[i], expired[j]);
    }
  }

  /** Operations in the callback may stop expected keys, but fire none. */
  lemma CallbackStep(s: State, w: State, expired: seq<TimerKey>, i: nat, start: nat)
    requires i <= |expired| && start <= |s.trace| && MidPass(s, expired, i, start)
    requires Inv(w) && OpsBetween(s, w)
    ensures s.trace <= w.trace && MidPass(w, expired, i, start)
  {
    var pass, more := s.trace[start..], w.trace[|s.trace|..];
    assert w.trace[start..] == pass + more;
    FiredNothing(pass, more);
  }

  /** Changing fields of one handle that neither its key nor its activity depends on. */
  lemma FieldsOk(s: State, w: State, h: Handle)
    requires Inv(s) && w == s.(handles := w.handles) && h in w.handles && w.handles == s.handles[h := w.handles[h]]
    requires h in s.handles && s.handles[h].active ==>
               w.handles[h].active && KeyOf(w.handles[h]) == KeyOf(s.handles[h])
    requires h !in s.handles || !s.handles[h].active ==> !w.handles[h].active
    requires !w.handles[h].active ==> w.handles[h].id == 0 || (h in s.handles && w.handles[h].id == s.handles[h].id)
    ensures Inv(w) && OpsBetween(s, w)
  {
    forall i | i in w.timerHandles ensures IndexOk(w, i) {
      assert IndexOk(s, i);
    }
    forall g | g in w.handles ensures HandleOk(w, g) {
      assert g in s.handles ==> HandleOk(s, g);
    }
    forall k | k in w.timers ensures k.id in w.timerHandles && k == KeyOf(w.handles[w.timerHandles[k.id]]) {
      assert IndexOk(s, k.id);
    }
  }

  const FRESH_TIMER := TimerHandle(false, false, 0, 0, None, 0, 0)

  lemma InitExactly(s: State, h: Handle)
    requires Inv(s)
    ensures OpsBetween(s, s.(handles := s.handles[h := FRESH_TIMER]))
    ensures Inv(s.(handles := s.handles[h := FRESH_TIMER])) <==> (h in s.handles ==> !s.handles[h].active)
  {
    var w := s.(handles := s.handles[h := FRESH_TIMER]);
    if h in s.handles && s.handles[h].active {
      assert HandleOk(s, h) && IndexOk(s, s.handles[h].id);
      assert Agree(w) ==> IndexOk(w, s.handles[h].id);
    } else {
      FieldsOk(s, w, h);
    }
  }

  lemma MidPassInv(s: State, expired: seq<TimerKey>, i: nat, start: nat)
    requires i <= |expired| && start <= |s.trace| && MidPass(s, expired, i, start)
    ensures Inv(s)
  {
  }

  lemma PassBegins(s: State, now: nat)
    requires Inv(s)
    ensures var expired := s.timers[..Due(s.timers, now + 1)];
      && Sorted(expired) && (forall k :: k in expired <==> k in s.timers && k.deadline < now + 1)
      && MidPass(s, expired, 0, |s.trace|)
  {
    DueSplits(s.timers, now + 1);
  }

  lemma PassEnds(s: State, timers: seq<TimerKey>, expired: seq<TimerKey>, now: nat, start: nat)
    requires start <= |s.trace| && MidPass(s, expired, |expired|, start)
    requires forall k :: k in expired <==> k in timers && k.deadline < now + 1
    ensures Inv(s) && PassOk(timers, now, s.trace[start..])
  {
    assert expired[..|expired|] == expired;
  }

  // ---------------------------------------------------------------- the loop

  class UvLoop {
    var timers: seq<TimerKey>
    var nextTimerId: Id
    var timerHandles: map<Id, Handle>
    var handles: map<Handle, TimerHandle>
    var closingHandles: seq<Handle>

    ghost var trace: seq<Event>

    ghost function View(): State
      reads this
    {
      State(timers, nextTimerId, timerHandles, handles, closingHandles, trace)
    }

    ghost predicate Valid()
      reads this
    {
      Inv(View())
    }

    constructor ()
      ensures Valid() && timers == [] && handles == map[] && trace == []
    {
      timers, nextTimerId, timerHandles, handles, closingHandles, trace := [], 1, map[], map[], [], [];
    }

    /** `uv_timer_init`. It forgets the id of an active timer, whose key stays behind: the indexes still
        agree exactly if the handle was not active. */
    method TimerInit(h: Handle)
      requires Valid()
      modifies `handles
      ensures Initialised(old(View()), h, View()) && OpsBetween(old(View()), View())
      ensures Valid() <==> (h in old(handles) ==> !old(handles)[h].active)
    {
      InitExactly(View(), h);
      handles := handles[h := FRESH_TIMER];
    }

    /** `stop_timer`. */
    method StopTimer(h: Handle)
      requires h in handles
      modifies `timers, `timerHandles, `handles, `trace
      ensures View() == Stop(old(View()), h)
    {
      var t := handles[h];
      if t.id != 0 {
        timers := Remove(timers, KeyOf(t));
        timerHandles := timerHandles - {t.id};
        trace := trace + [Stopped(t.id)];
      }
      handles := handles[h := t.(active := false)];
    }

    /** `uv_timer_start` at time `at`. */
    method TimerStart(h: Handle, cb: nat, timeout: nat, repeat: nat, at: nat)
      requires Valid() && h in handles
      modifies `timers, `nextTimerId, `timerHandles, `handles, `trace
      ensures Valid() && OpsBetween(old(View()), View())
      ensures Started(old(View()), h, cb, timeout, repeat, at, View())
    {
      hide Inv, OpsBetween, StoppedAt, Armed;
      ghost var s := View();
      OpsNone(s);
      if handles[h].active {
        TimerStop(h);
      }
      ghost var u := View();
      var t := handles[h].(cb := Some(cb), timeout := timeout, repeat := repeat);
      Assign(h, t, at + timeout);
      SameArmed(u, h, t, s.handles[h].(cb := Some(cb), timeout := timeout, repeat := repeat), at + timeout, View());
      OpsTrans(s, u, View());
    }

    /** The end of `uv_timer_start` and `uv_timer_again`: a fresh id, and both indexes updated. */
    method Assign(h: Handle, t: TimerHandle, deadline: nat)
      requires Valid() && h in handles && !handles[h].active
      modifies `timers, `nextTimerId, `timerHandles, `handles
      ensures Valid() && Armed(old(View()), h, t, deadline, View()) && OpsBetween(old(View()), View())
    {
      hide Inv, OpsBetween, Armed, Insert;
      ghost var s := View();
      ScheduleOk(s, h, t, deadline);
      ScheduleBetween(s, h, t, deadline);
      ScheduleArmed(s, h, t, deadline);
      var id := nextTimerId;
      nextTimerId := nextTimerId + 1;
      handles := handles[h := t.(id := id, deadline := deadline, active := true)];
      timers := Insert(timers, Key(deadline, id, ()));
      timerHandles := timerHandles[id := h];
      assert View() == Schedule(s, h, t, deadline);
    }

    /** `uv_timer_stop`. */
    method TimerStop(h: Handle)
      requires Valid() && h in handles
      modifies `timers, `timerHandles, `handles, `trace
      ensures Valid() && StoppedAt(old(View()), h, View()) && OpsBetween(old(View()), View())
      ensures handles == old(handles)[h := old(handles)[h].(active := false)]
    {
      hide Inv, OpsBetween, StoppedAt, Sorted;
      ghost var s := View();
      SortedInv(s);
      StopForgets(s, h);
      StopOk(s, h);
      StopBetween(s, h);
      StopTimer(h);
    }

    /** `uv_timer_again` at time `at`. */
    method TimerAgain(h: Handle, at: nat) returns (status: int)
      requires Valid() && h in handles
      modifies `timers, `nextTimerId, `timerHandles, `handles, `trace
      ensures Valid() && OpsBetween(old(View()), View())
      ensures StartedAgain(old(View()), h, at, View())
      ensures status == if old(handles)[h].repeat == 0 then UV_EINVAL else 0
    {
      hide Inv, OpsBetween, StoppedAt, Armed;
      ghost var s := View();
      OpsNone(s);
      if handles[h].repeat == 0 {
        return UV_EINVAL;
      }
      TimerStop(h);
      ghost var u := View();
      Assign(h, handles[h], at + handles[h].repeat);
      SameArmed(u, h, u.handles[h], s.handles[h], at + s.handles[h].repeat, View());
      OpsTrans(s, u, View());
      return 0;
    }

    /** `uv_timer_set_repeat`. */
    method TimerSetRepeat(h: Handle, repeat: nat)
      requires Valid() && h in handles
      modifies `handles
      ensures Valid() && OpsBetween(old(View()), View())
      ensures handles == old(handles)[h := old(handles)[h].(repeat := repeat)]
    {
      ghost var s := View();
      handles := handles[h := handles[h].(repeat := repeat)];
      FieldsOk(s, View(), h);
    }

    /** `uv_close` on a timer. */
    method Close(h: Handle)
      requires Valid() && h in handles && !handles[h].closing
      modifies `timers, `timerHandles, `handles, `trace, `closingHandles
      ensures Valid() && OpsBetween(old(View()), View())
      ensures Closed(old(View()), h, View()) && h in handles && handles[h].id !in timerHandles
    {
      hide Inv, OpsBetween, Sorted, Remove;
      ghost var s := View();
      SortedInv(s);
      ghost var u := s.(handles := handles[h := handles[h].(closing := true)]);
      FieldsOk(s, u, h);
      StopOk(u, h);
      StopBetween(u, h);
      OpsTrans(s, u, Stop(u, h));
      StopForgets(u, h);
      handles := handles[h := handles[h].(closing := true, active := false)];
      StopTimer(h);
      assert View().handles == Stop(u, h).handles;
      CloseOk(Stop(u, h), closingHandles + [h]);
      closingHandles := closingHandles + [h];
    }

    /** One operation; those that libuv's rules exclude are skipped: on handles that were not initialised,
        closing twice, and re-initialising an active timer. */
    method Do(op: Op)
      requires Valid()
      modifies this
      ensures Valid() && OpsBetween(old(View()), View()) && Step(old(View()), op, View())
    {
      hide Inv, OpsBetween, StoppedAt, Started, StartedAgain, Closed;
      OpsNone(View());
      match op
      case Init(h) => if h in handles ==> !handles[h].active { TimerInit(h); }
      case Start(h, cb, timeout, repeat, at) => if h in handles { TimerStart(h, cb, timeout, repeat, at); }
      case StopOp(h) => if h in handles { TimerStop(h); }
      case Again(h, at) => if h in handles { var _ := TimerAgain(h, at); }
      case SetRepeat(h, repeat) => if h in handles { TimerSetRepeat(h, repeat); }
      case Close(h) => if h in handles && !handles[h].closing { Close(h); }
    }

    method RunOps(ops: seq<Op>)
      requires Valid()
      modifies this
      ensures Valid() && OpsBetween(old(View()), View()) && Ops(old(View()), ops, View())
    {
      hide Inv, OpsBetween, Step;
      ghost var s := View();
      OpsNone(s);
      for i := 0 to |ops|
        invariant Valid() && OpsBetween(s, View()) && Ops(s, ops[..i], View())
      {
        ghost var u := View();
        Do(ops[i]);
        OpsTrans(s, u, View());
        PrefixMore(ops, i);
      }
      assert ops[..|ops|] == ops;
    }

    /** The body of the loop of `run_timers`, up to the callback. */
    method ProcessKey(expired: seq<TimerKey>, i: nat, now: nat, ghost start: nat) returns (called: bool)
      requires i < |expired| && Sorted(expired) && start <= |trace| && MidPass(View(), expired, i, start)
      modifies `timers, `timerHandles, `handles, `trace
      ensures old(trace) <= trace && MidPass(View(), expired, i + 1, start)
      ensures called <==> CallsBack(old(View()), expired[i])
      // it fires exactly if it has not been stopped, under the handle it belongs to
      ensures Processed(old(View()), View(), expired[i], now)
    {
      hide Inv, MidPass, Insert, Remove, Sorted, Processed;
      ghost var s := View();
      MidPassInv(s, expired, i, start);
      SortedInv(s);
      var k := expired[i];
      StillThere(s, expired, i, start);
      timers := Remove(timers, k);
      if k.id !in timerHandles {
        SkipStep(s, expired, i, start);
        SkipProcessed(s, k, now);
        return false;
      }
      RearmOk(s, k, now);
      ExpireOk(s, k);
      var h := timerHandles[k.id];
      var t := handles[h];
      if !t.active {
        assert false;
      }
      if t.repeat > 0 {
        handles := handles[h := t.(deadline := now + t.repeat)];
        timers := Insert(timers, Key(now + t.repeat, k.id, ()));
        trace := trace + [Fired(k, h)];
        assert View() == Rearm(s, k, h, now);
        RearmProcessed(s, k, h, now);
      } else {
        handles := handles[h := t.(active := false)];
        timerHandles := timerHandles - {k.id};
        trace := trace + [Fired(k, h)];
        assert View() == Expire(s, k, h);
        ExpireProcessed(s, k, h, now);
      }
      FireStep(s, View(), expired, i, start, h);
      return t.cb.Some?;
    }

    /** `run_timers` at time `now`; the `n`-th callback that it makes performs `callbacks[n]`. */
    method RunTimers(now: nat, callbacks: seq<seq<Op>>) returns (called: nat)
      requires Valid()
      modifies this
      ensures Valid() && old(trace) <= trace
      ensures PassOk(old(timers), now, trace[|old(trace)|..])
      ensures Passes(old(View()), old(timers)[..Due(old(timers), now + 1)], now, callbacks, View(), called)
    {
      hide Inv, OpsBetween, MidPass, Processed, Ops, CallsBack;
      ghost var v, timers0, start := View(), timers, |trace|;
      PassBegins(View(), now);
      var expired := timers[..Due(timers, now + 1)];
      called := 0;
      for i := 0 to |expired|
        invariant old(trace) <= trace && start <= |trace|
        invariant MidPass(View(), expired, i, start)
        invariant Passes(v, expired[..i], now, callbacks, View(), called)
      {
        ghost var u, n := View(), called;
        var calls := ProcessKey(expired, i, now, start);
        ghost var x := View();
        if calls {
          MidPassInv(x, expired, i + 1, start);
          RunOps(if called < |callbacks| then callbacks[called] else []);
          CallbackStep(x, View(), expired, i + 1, start);
          called := called + 1;
        }
        PrefixMore(expired, i);
        assert Passes(v, DropLast(expired[..i + 1]), now, callbacks, u, n);
        assert CalledBack(CallsBack(u, expired[i]), x, callbacks, n, View(), called);
      }
      assert expired[..|expired|] == expired;
      PassEnds(View(), timers0, expired, now, start);
    }

    /** Every run: operations between passes, passes at any times, and operations in their callbacks. */
    method Run(turns: seq<Turn>)
      requires Valid()
      modifies this
      ensures Valid() && old(trace) <= trace && Runs(old(View()), turns, View())
    {
      hide Inv, PassOk, Turned;
      for i := 0 to |turns|
        invariant Valid() && old(trace) <= trace && Runs(old(View()), turns[..i], View())
      {
        TakeTurn(turns[i]);
        PrefixMore(turns, i);
      }
      assert turns[..|turns|] == turns;
    }

    method TakeTurn(e: Turn)
      requires Valid()
      modifies this
      ensures Valid() && old(trace) <= trace && Turned(old(View()), e, View())
    {
      hide Inv, PassOk, Ops, Passes;
      match e
      case Between(ops) => RunOps(ops);
      case Pass(now, callbacks) => var _ := RunTimers(now, callbacks);
    }
  }
}
