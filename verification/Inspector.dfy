/**
 How the inspector is polled, parked and woken (core/inspector.rs). One thread runs
 `poll_sessions`; any thread may wake it. Every update of the waker happens under its mutex, so
 a run is an interleaving of the atomic steps below, with a program counter for the poller.
 Parking returns only after an unpark.
 */
module Inspector {
  import opened Options
  import opened Sequences

  type Waker = nat

  datatype PollState = Idle | Woken | Polling | Parked | Dropped

  /** Where the polling thread is: not in `poll_sessions`; running the session handlers; or between
      deciding to park and the return of `thread::park`. */
  datatype Pc = Outside | InPass | AtPark

  datatype Event =
    | Wake(from: PollState, interrupt: bool)
    | PassStart
    | EnterIdle
    | EnterParked
    | DropInspector

  datatype State = State(
    pollState: PollState,
    taskWaker: Option<Waker>,
    parkedThread: bool,
    statePtr: bool,
    pc: Pc,
    token: bool,
    interrupts: nat,
    tasksWoken: seq<Waker>,
    trace: seq<Event>)

  // ---------------------------------------------------------------- traces

  /** Somebody woke the inspector and no pass over the session handlers has begun since. */
  function WakePending(trace: seq<Event>): bool {
    trace != [] &&
    match trace[|trace| - 1]
    case Wake(_, _) => true
    case PassStart => false
    case _ => WakePending(trace[..|trace| - 1])
  }

  /** The inspector goes idle or parks only when no wake is pending. */
  ghost predicate NoLostWake(trace: seq<Event>) {
    forall j :: 0 <= j < |trace| && trace[j] in {EnterIdle, EnterParked} ==> !WakePending(trace[..j])
  }

  /** A wake from `Idle` requests an interrupt exactly if the inspector has gone idle by itself before,
      and no other wake requests one. */
  ghost predicate InterruptsOk(trace: seq<Event>) {
    forall j :: 0 <= j < |trace| && trace[j].Wake? ==>
      (trace[j].interrupt <==> trace[j].from == Idle && EnterIdle in trace[..j])
  }

  /** After the inspector is dropped nothing finds it idle, so no interrupt is requested. */
  ghost predicate QuietAfterDrop(trace: seq<Event>) {
    forall i, j :: 0 <= i < j < |trace| && trace[i] == DropInspector ==> trace[j].Wake? && !trace[j].interrupt
  }

  /** `NoLostWake` in terms of positions: between a wake and the next time the inspector goes idle or
      parks, a pass begins. */
  lemma WakeForcesPass(trace: seq<Event>, i: nat, j: nat)
    requires NoLostWake(trace) && i < j < |trace| && trace[i].Wake? && trace[j] in {EnterIdle, EnterParked}
    ensures exists k :: i < k < j && trace[k] == PassStart
  {
    PendingUntilPass(trace[..j], i);
    if k :| i < k < j && trace[..j][k] == PassStart {
      assert trace[k] == PassStart;
    }
  }

  lemma {:induction false} PendingUntilPass(trace: seq<Event>, i: nat)
    requires i < |trace| && trace[i].Wake?
    ensures WakePending(trace) || exists k :: i < k < |trace| && trace[k] == PassStart
  {
    var last := |trace| - 1;
    if i < last && trace[last] != PassStart && !trace[last].Wake? {
      PendingUntilPass(trace[..last], i);
      if k :| i < k < last && trace[..last][k] == PassStart {
        assert trace[k] == PassStart;
      }
    }
  }

  // ---------------------------------------------------------------- the invariant

  ghost predicate Inv(s: State) {
    && (DropInspector in s.trace ==> s.pc == Outside && s.pollState in {Dropped, Woken})
    && (DropInspector !in s.trace ==>
          match s.pc
          case Outside => s.pollState in {Idle, Woken}
          case InPass => s.pollState in {Polling, Woken} && !s.token
          case AtPark => (s.pollState == Parked && s.parkedThread && !s.token) || (s.pollState == Woken && s.token))
    && (s.pc != AtPark ==> !s.token)
    && (WakePending(s.trace) && s.pc != Outside ==> s.pollState == Woken)
    && (s.statePtr ==> EnterIdle in s.trace)
    && (s.pollState == Idle && EnterIdle in s.trace ==> s.statePtr)
    && NoLostWake(s.trace)
    && InterruptsOk(s.trace)
    && QuietAfterDrop(s.trace)
  }

  /** Adding one event keeps the trace properties if it respects them itself. */
  lemma TraceGrows(trace: seq<Event>, e: Event)
    requires NoLostWake(trace) && InterruptsOk(trace) && QuietAfterDrop(trace)
    requires e in {EnterIdle, EnterParked} ==> !WakePending(trace)
    requires e.Wake? ==> (e.interrupt <==> e.from == Idle && EnterIdle in trace)
    requires DropInspector in trace ==> e.Wake? && !e.interrupt
    ensures NoLostWake(trace + [e]) && InterruptsOk(trace + [e]) && QuietAfterDrop(trace + [e])
    ensures WakePending(trace + [e]) ==
            match e case Wake(_, _) => true case PassStart => false case _ => WakePending(trace)
    ensures forall x :: x in trace + [e] <==> x in trace || x == e
  {
    var t := trace + [e];
    assert t[..|trace|] == trace;
    forall j | 0 <= j < |t| ensures t[..j] == (if j < |trace| then trace[..j] else trace) {
    }
    assert forall i :: 0 <= i < |trace| && trace[i] == DropInspector ==> DropInspector in trace;
  }

  // ---------------------------------------------------------------- the atomic steps

  datatype Step =
    | BeginPoll
    | EndPass(shouldBlock: bool, cx: Option<Waker>)
    | ParkReturns
    | WakeByRef(byPoller: bool)
    | DropStep

  /** What one step does; one that its thread cannot take is skipped. */
  ghost predicate Steps(v: State, s: Step, w: State) {
    match s
    case BeginPoll =>
      w == if v.pc == Outside && DropInspector !in v.trace
           then v.(pollState := Polling, pc := InPass, trace := v.trace + [PassStart]) else v
    case EndPass(shouldBlock, cx) =>
      w == if v.pc != InPass then v
           else if v.pollState == Woken then v.(pollState := Polling, trace := v.trace + [PassStart])
           else if shouldBlock then
             v.(pollState := Parked, parkedThread := true, pc := AtPark, trace := v.trace + [EnterParked])
           else
             v.(pollState := Idle, taskWaker := if cx.Some? then cx else v.taskWaker, statePtr := true, pc := Outside,
                trace := v.trace + [EnterIdle])
    case ParkReturns =>
      w == if v.pc == AtPark && v.token then v.(token := false, pc := InPass, trace := v.trace + [PassStart]) else v
    case WakeByRef(byPoller) => if byPoller && v.pc == AtPark then w == v else WokenFrom(v, w)
    case DropStep =>
      w == if v.pc == Outside && DropInspector !in v.trace
           then v.(pollState := Dropped, trace := v.trace + [DropInspector]) else v
  }

  /** A wake takes what it uses: from idle the waker and the interrupt, from parked the thread. */
  ghost predicate WokenFrom(v: State, w: State) {
    var interrupted := v.pollState == Idle && v.statePtr;
    w == v.(
      pollState := Woken,
      taskWaker := if v.pollState == Idle then None else v.taskWaker,
      tasksWoken := v.tasksWoken +
                    (if v.pollState == Idle && v.taskWaker.Some? then [v.taskWaker.value] else []),
      statePtr := v.statePtr && v.pollState != Idle,
      interrupts := v.interrupts + (if interrupted then 1 else 0),
      parkedThread := v.parkedThread && v.pollState != Parked,
      token := v.token || v.pollState == Parked,
      trace := v.trace + [Wake(v.pollState, interrupted)])
  }

  ghost predicate Runs(v: State, schedule: seq<Step>, w: State) {
    if schedule == [] then w == v
    else exists u :: Runs(v, DropLast(schedule), u) && Steps(u, Last(schedule), w)
  }

  class InspectorWaker {
    var pollState: PollState
    var taskWaker: Option<Waker>
    var parkedThread: bool
    var statePtr: bool
    var interrupts: nat
    var tasksWoken: seq<Waker>

    // the polling thread: its program counter and its park token
    var pc: Pc
    var token: bool

    ghost var trace: seq<Event>

    ghost function View(): State
      reads this
    {
      State(pollState, taskWaker, parkedThread, statePtr, pc, token, interrupts, tasksWoken, trace)
    }

    ghost predicate Valid()
      reads this
    {
      Inv(View())
    }

    constructor ()
      ensures Valid() && pollState == Idle && pc == Outside && trace == [] && interrupts == 0
    {
      pollState, taskWaker, parkedThread, statePtr := Idle, None, false, false;
      interrupts, tasksWoken, pc, token, trace := 0, [], Outside, false, [];
    }

    /** Entering `poll_sessions`; refused while it is already running. */
    method Begin() returns (ok: bool)
      requires Valid() && DropInspector !in trace
      modifies `pollState, `pc, `trace
      ensures Valid() && (ok <==> old(pc) == Outside)
      ensures Steps(old(View()), BeginPoll, View())
      ensures !ok ==> View() == old(View())
    {
      hide NoLostWake, InterruptsOk, QuietAfterDrop, WakePending;
      if pc != Outside {
        return false;
      }
      match pollState {
        case Idle => pollState := Polling;
        case Woken => pollState := Polling;
        case _ => assert false;
      }
      TraceGrows(trace, PassStart);
      pc := InPass;
      trace := trace + [PassStart];
      return true;
    }

    /** The end of a pass: poll again, go idle, or park. */
    method End(shouldBlock: bool, cx: Option<Waker>)
      requires Valid() && pc == InPass
      modifies `pollState, `taskWaker, `parkedThread, `statePtr, `pc, `trace
      ensures Valid() && pollState in {Polling, Idle, Parked}
      // a wake since the pass began means another pass
      ensures WakePending(old(trace)) ==> pollState == Polling && pc == InPass
      ensures Steps(old(View()), EndPass(shouldBlock, cx), View())
    {
      hide NoLostWake, InterruptsOk, QuietAfterDrop, WakePending;
      match pollState {
        case Woken =>
          TraceGrows(trace, PassStart);
          pollState := Polling;
          trace := trace + [PassStart];
        case Polling =>
          if !shouldBlock {
            TraceGrows(trace, EnterIdle);
            pollState := Idle;
            if cx.Some? {
              taskWaker := cx;
            }
            statePtr := true;
            pc := Outside;
            trace := trace + [EnterIdle];
          } else {
            TraceGrows(trace, EnterParked);
            pollState := Parked;
            parkedThread := true;
            pc := AtPark;
            trace := trace + [EnterParked];
          }
        case _ => assert false;
      }
    }

    /** `thread::park` returns, which takes the token an unpark left. */
    method Unparked()
      requires Valid() && pc == AtPark && token
      modifies `token, `pc, `trace
      ensures Valid() && pollState == Woken && Steps(old(View()), ParkReturns, View())
    {
      hide NoLostWake, InterruptsOk, QuietAfterDrop, WakePending;
      TraceGrows(trace, PassStart);
      token := false;
      pc := InPass;
      trace := trace + [PassStart];
    }

    /** `wake_by_ref`, from any thread that is not the one being parked. */
    method Wake(byPoller: bool)
      requires Valid() && (byPoller ==> pc != AtPark)
      modifies `pollState, `taskWaker, `parkedThread, `statePtr, `interrupts, `tasksWoken, `token, `trace
      ensures Valid() && pollState == Woken
      ensures interrupts == old(interrupts) + if old(pollState) == Idle && EnterIdle in old(trace) then 1 else 0
      // what was used is taken: neither the waker nor the thread is woken twice for one registration
      ensures WokenFrom(old(View()), View())
      ensures DropInspector in old(trace) ==> interrupts == old(interrupts)
    {
      hide NoLostWake, InterruptsOk, QuietAfterDrop, WakePending;
      ghost var from := pollState;
      ghost var before := interrupts;
      match pollState {
        case Idle =>
          if taskWaker.Some? {
            tasksWoken := tasksWoken + [taskWaker.value];
            taskWaker := None;
          }
          if statePtr {
            statePtr := false;
            interrupts := interrupts + 1;
          }
        case Parked =>
          assert parkedThread;
          assert !byPoller;
          parkedThread := false;
          token := true;
        case _ =>
      }
      pollState := Woken;
      TraceGrows(trace, Event.Wake(from, interrupts > before));
      trace := trace + [Event.Wake(from, interrupts > before)];
    }

    /** `Drop for JsRuntimeInspector`, on its own thread, outside `poll_sessions`. */
    method Drop()
      requires Valid() && pc == Outside && DropInspector !in trace
      modifies `pollState, `trace
      ensures Valid() && Steps(old(View()), DropStep, View())
    {
      hide NoLostWake, InterruptsOk, QuietAfterDrop, WakePending;
      TraceGrows(trace, DropInspector);
      pollState := Dropped;
      trace := trace + [DropInspector];
    }

    /** Every run: any interleaving of the steps, each taken when its thread can take it. */
    method Run(schedule: seq<Step>)
      requires Valid() && DropInspector !in trace
      modifies this
      ensures Valid() && Runs(old(View()), schedule, View())
    {
      hide Inv, Steps;
      var dropped := false;
      for i := 0 to |schedule|
        invariant Valid() && (dropped <==> DropInspector in trace)
        invariant Runs(old(View()), schedule[..i], View())
      {
        dropped := Do(schedule[i], dropped);
        PrefixMore(schedule, i);
      }
      assert schedule[..|schedule|] == schedule;
    }

    method Do(s: Step, wasDropped: bool) returns (dropped: bool)
      requires Valid() && (wasDropped <==> DropInspector in trace)
      modifies this
      ensures Valid() && Steps(old(View()), s, View()) && (dropped <==> DropInspector in trace)
    {
      hide Inv, NoLostWake, InterruptsOk, QuietAfterDrop, WakePending;
      dropped := wasDropped;
      match s
      case BeginPoll => if !dropped { var _ := Begin(); }
      case EndPass(shouldBlock, cx) => if pc == InPass { End(shouldBlock, cx); }
      case ParkReturns => if pc == AtPark && token { Unparked(); }
      case WakeByRef(byPoller) => if byPoller ==> pc != AtPark { Wake(byPoller); }
      case DropStep =>
        if !dropped && pc == Outside {
          Drop();
          assert trace[|trace| - 1] == DropInspector;
          dropped := true;
        }
    }
  }
}
