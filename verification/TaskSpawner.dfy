/**
 The cross-thread task queue (core/tasks.rs). Any number of spawners push a task, set a flag and
 wake the poller, in three separate steps; the poller clears the flag and then takes the
 queue, in two. A run is any interleaving of these steps.
 */
module TaskSpawner {
  import opened Sequences

  type Task = nat
  type ThreadId = nat

  /** Where a spawner is inside `spawn`: it has pushed its task, as number `ticket` of all tasks, or it
      has set the flag as well. */
  datatype SpawnPc = Pushed(ticket: nat) | Flagged

  /** Whether the poller is between its successful exchange and taking the queue. */
  datatype PollPc = Ready | Exchanged

  datatype Step =
    | Push(thread: ThreadId, task: Task)
    | SetFlag(thread: ThreadId)
    | WakePoller(thread: ThreadId)
    | Exchange
    | Take

  datatype State = State(
    tasks: seq<Task>,
    hasTasks: bool,
    spawners: map<ThreadId, SpawnPc>,
    poller: PollPc,
    pushed: seq<Task>,
    batches: seq<seq<Task>>,
    wakes: nat,
    registrations: nat)

  function Concat(batches: seq<seq<Task>>): seq<Task> {
    if batches == [] then [] else Concat(batches[..|batches| - 1]) + batches[|batches| - 1]
  }

  /** Some spawner has pushed task number `n` but not set the flag yet. */
  ghost predicate Held(s: State, n: nat) {
    exists t :: t in s.spawners && s.spawners[t] == Pushed(n)
  }

  function Delivered(s: State): nat {
    |Concat(s.batches)|
  }

  /** What was delivered, followed by what is queued, is what was pushed; and while the flag is clear and
      the poller is not about to take the queue, every queued task is held by its spawner, which is
      about to set the flag. */
  ghost predicate Inv(s: State) {
    && Concat(s.batches) + s.tasks == s.pushed
    && (forall b :: b in s.batches ==> b != [])
    && (!s.hasTasks && s.poller == Ready ==> forall n :: Delivered(s) <= n < |s.pushed| ==> Held(s, n))
    && (forall t :: t in s.spawners && s.spawners[t].Pushed? ==> s.spawners[t].ticket < |s.pushed|)
  }

  /** A queue that is not empty is announced by the flag, or about to be, or about to be taken. */
  lemma QueueAnnounced(s: State)
    requires Inv(s) && s.tasks != []
    ensures s.hasTasks || s.poller == Exchanged || exists t :: t in s.spawners && s.spawners[t].Pushed?
  {
    assert |s.pushed| == Delivered(s) + |s.tasks|;
    if !s.hasTasks && s.poller == Ready {
      assert Held(s, Delivered(s));
    }
  }

  /** The doc comment of `has_pending_tasks` promises that false means no queued tasks. While the poller
      is not between its two steps, that holds exactly if every spawner that has yet to set the flag
      has had its task delivered already, on the flag of another spawner. */
  lemma FalseMeansEmpty(s: State)
    requires Inv(s) && !s.hasTasks && s.poller == Ready
    ensures s.tasks == [] <==>
            forall t :: t in s.spawners && s.spawners[t].Pushed? ==> s.spawners[t].ticket < Delivered(s)
  {
    assert |s.pushed| == Delivered(s) + |s.tasks|;
    if s.tasks != [] {
      assert Held(s, Delivered(s));
    }
  }

  lemma ConcatMore(batches: seq<seq<Task>>, b: seq<Task>)
    ensures Concat(batches + [b]) == Concat(batches) + b
  {
    assert (batches + [b])[..|batches|] == batches;
  }

  /** The batches delivered after the queue was taken: an empty one is not delivered. */
  function Taken(batches: seq<seq<Task>>, queue: seq<Task>): seq<seq<Task>> {
    if queue == [] then batches else batches + [queue]
  }

  /** Counting registrations changes nothing else. */
  lemma RegisteredOk(s: State, registrations: nat)
    requires Inv(s)
    ensures Inv(s.(registrations := registrations))
  {
    var w := s.(registrations := registrations);
    forall n | Held(s, n) ensures Held(w, n) {
      var t :| t in s.spawners && s.spawners[t] == Pushed(n);
      assert t in w.spawners && w.spawners[t] == Pushed(n);
    }
  }

  lemma TakeOk(s: State)
    requires Inv(s)
    ensures Inv(s.(tasks := [], poller := Ready, batches := Taken(s.batches, s.tasks)))
  {
    ConcatMore(s.batches, s.tasks);
    hide Concat;
    assert Concat(s.batches) + [] == Concat(s.batches);
  }

  /** What one step does; one that its thread cannot take is skipped. */
  ghost predicate Steps(v: State, s: Step, w: State) {
    match s
    case Push(t, task) =>
      w == if t in v.spawners then v
           else v.(tasks := v.tasks + [task], pushed := v.pushed + [task],
                   spawners := v.spawners[t := Pushed(|v.pushed|)])
    case SetFlag(t) =>
      w == if t in v.spawners && v.spawners[t].Pushed?
           then v.(hasTasks := true, spawners := v.spawners[t := Flagged]) else v
    case WakePoller(t) =>
      w == if t in v.spawners && v.spawners[t] == Flagged
           then v.(wakes := v.wakes + 1, spawners := v.spawners - {t}) else v
    case Exchange =>
      w == if v.poller != Ready then v
           else if v.hasTasks then v.(hasTasks := false, poller := Exchanged)
           else v.(registrations := v.registrations + 1)
    case Take =>
      w == if v.poller != Exchanged then v
           else if v.tasks == [] then v.(poller := Ready, registrations := v.registrations + 1)
           else v.(poller := Ready, tasks := [], batches := v.batches + [v.tasks])
  }

  ghost predicate Runs(v: State, schedule: seq<Step>, w: State) {
    if schedule == [] then w == v
    else exists u :: Runs(v, DropLast(schedule), u) && Steps(u, Last(schedule), w)
  }

  class Factory {
    var tasks: seq<Task>
    var hasTasks: bool
    var wakes: nat

    // program counters of the threads inside `spawn` and of the poller
    var spawners: map<ThreadId, SpawnPc>
    var poller: PollPc
    var registrations: nat

    // all tasks ever pushed, which numbers them, and the batches delivered
    var pushed: seq<Task>
    ghost var batches: seq<seq<Task>>

    ghost function View(): State
      reads this
    {
      State(tasks, hasTasks, spawners, poller, pushed, batches, wakes, registrations)
    }

    ghost predicate Valid()
      reads this
    {
      Inv(View())
    }

    constructor ()
      ensures Valid() && tasks == [] && !hasTasks && pushed == [] && batches == []
      ensures poller == Ready && spawners == map[]
    {
      tasks, hasTasks, wakes, spawners, poller, registrations := [], false, 0, map[], Ready, 0;
      pushed, batches := [], [];
    }

    /** `spawn`, first step: push under the lock. */
    method PushTask(t: ThreadId, task: Task)
      requires Valid() && t !in spawners
      modifies `tasks, `spawners, `pushed
      ensures Valid() && pushed == old(pushed) + [task] && tasks == old(tasks) + [task]
      ensures spawners == old(spawners)[t := Pushed(|old(pushed)|)]
    {
      ghost var s := View();
      tasks := tasks + [task];
      spawners := spawners[t := Pushed(|pushed|)];
      pushed := pushed + [task];
      assert Concat(batches) + tasks == Concat(batches) + old(tasks) + [task];
      forall n | Held(s, n) || n == |s.pushed| ensures Held(View(), n) {
        if n == |s.pushed| {
          assert spawners[t] == Pushed(n);
        } else {
          var u :| u in s.spawners && s.spawners[u] == Pushed(n);
          assert spawners[u] == Pushed(n);
        }
      }
    }

    /** `spawn`, second step: set the flag. */
    method StoreFlag(t: ThreadId)
      requires Valid() && t in spawners && spawners[t].Pushed?
      modifies `hasTasks, `spawners
      ensures Valid() && hasTasks && spawners == old(spawners)[t := Flagged]
    {
      hasTasks := true;
      spawners := spawners[t := Flagged];
    }

    /** `spawn`, last step: wake the poller and return. */
    method WakeTask(t: ThreadId)
      requires Valid() && t in spawners && spawners[t] == Flagged
      modifies `wakes, `spawners
      ensures Valid() && wakes == old(wakes) + 1 && spawners == old(spawners) - {t}
    {
      ghost var s := View();
      wakes := wakes + 1;
      spawners := spawners - {t};
      forall n | Held(s, n) ensures Held(View(), n) {
        var u :| u in s.spawners && s.spawners[u] == Pushed(n);
        assert u in spawners && spawners[u] == Pushed(n);
      }
    }

    /** `poll_inner`, first step: exchange the flag; without it, register and report pending. */
    method ExchangeFlag() returns (ok: bool)
      requires Valid() && poller == Ready
      modifies `hasTasks, `poller, `registrations
      ensures Valid() && !hasTasks && (ok <==> old(hasTasks))
      ensures poller == (if ok then Exchanged else Ready)
      ensures registrations == old(registrations) + if ok then 0 else 1
    {
      ok := hasTasks;
      if ok {
        hasTasks := false;
        poller := Exchanged;
      } else {
        RegisteredOk(View(), registrations + 1);
        registrations := registrations + 1;
      }
    }

    /** `poll_inner`, second step: take the queue under the lock; if the race was lost and it is empty,
        register and report pending. */
    method TakeTasks() returns (batch: seq<Task>)
      requires Valid() && poller == Exchanged
      modifies `tasks, `poller, `registrations, `batches
      ensures Valid() && poller == Ready && tasks == [] && batch == old(tasks)
      ensures batches == Taken(old(batches), batch)
      ensures registrations == old(registrations) + if batch == [] then 1 else 0
    {
      hide Inv, Taken;
      ghost var s := View();
      TakeOk(s);
      batch := tasks;
      tasks, poller := [], Ready;
      batches := Taken(s.batches, s.tasks);
      RegisteredOk(View(), registrations + 1);
      if batch == [] {
        registrations := registrations + 1;
      }
    }

    /** Every run: any interleaving of the steps of any number of spawners and one poller. */
    method Run(schedule: seq<Step>)
      requires Valid()
      modifies this
      ensures Valid() && Runs(old(View()), schedule, View())
    {
      hide Inv, Steps;
      for i := 0 to |schedule|
        invariant Valid() && Runs(old(View()), schedule[..i], View())
      {
        Do(schedule[i]);
        PrefixMore(schedule, i);
      }
      assert schedule[..|schedule|] == schedule;
    }

    method Do(s: Step)
      requires Valid()
      modifies this
      ensures Valid() && Steps(old(View()), s, View())
    {
      hide Inv;
      match s
      case Push(t, task) => if t !in spawners { PushTask(t, task); }
      case SetFlag(t) => if t in spawners && spawners[t].Pushed? { StoreFlag(t); }
      case WakePoller(t) => if t in spawners && spawners[t] == Flagged { WakeTask(t); }
      case Exchange => if poller == Ready { var _ := ExchangeFlag(); }
      case Take => if poller == Exchanged { var _ := TakeTasks(); }
    }
  }

  /** False while a task is queued: its spawner is between its push and its store. */
  method FalseWhileQueued() returns (f: Factory)
    ensures f.Valid() && !f.hasTasks && f.tasks != [] && f.poller == Ready
  {
    f := new Factory();
    f.PushTask(0, 7);
  }
}
