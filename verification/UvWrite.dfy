/**
 Writing to a TCP stream through the libuv-compatible layer (core/uv_compat.rs): `uv_write`
 tries the socket at once and queues what it does not take; `run_io` drains the queue in
 order. The socket is an oracle: a list of outcomes, after which it would block.
 */
module UvWrite {
  import opened Sequences

  type Byte = bv8
  type Req = nat

  const UV_EAGAIN := -11
  const UV_EBADF := -9
  const UV_EPIPE := -32
  const UV_ENOTCONN := -107

  datatype Outcome = Accept(n: nat) | WouldBlock | Failure

  /** `uv_buf_t`: a null base, or some bytes. */
  datatype Buf = NullBase(len: nat) | Bytes(bytes: seq<Byte>)

  datatype WritePending = WritePending(req: Req, data: seq<Byte>, offset: nat, cb: bool)

  datatype Submission = Submission(req: Req, cb: bool)

  /** A callback that was made, and with which status. */
  datatype Callback = Callback(req: Req, status: int)

  // ---------------------------------------------------------------- what was asked for

  function Content(b: Buf): seq<Byte> {
    match b case NullBase(_) => [] case Bytes(bytes) => bytes
  }

  /** The bytes a list of buffers stands for. */
  function Flatten(bufs: seq<Buf>): seq<Byte> {
    if bufs == [] then [] else Flatten(bufs[..|bufs| - 1]) + Content(bufs[|bufs| - 1])
  }

  /** Flattening is concatenation, in order. */
  lemma {:induction false} FlattenConcat(a: seq<Buf>, b: seq<Buf>)
    ensures Flatten(a + b) == Flatten(a) + Flatten(b)
    ensures forall bytes :: Flatten([Bytes(bytes)]) == bytes
    ensures forall len :: Flatten([NullBase(len)]) == []
  {
    forall x: Buf ensures Flatten([x]) == Content(x) {
      assert [x][..0] == [];
    }
    if b == [] {
      assert a + b == a;
    } else {
      FlattenConcat(a, b[..|b| - 1]);
      assert (a + b)[..|a + b| - 1] == a + b[..|b| - 1];
    }
  }

  /** The part of a queued write that the socket has not taken. */
  function Rest(w: WritePending): seq<Byte> {
    if w.offset <= |w.data| then w.data[w.offset..] else []
  }

  function Remainder(queue: seq<WritePending>): seq<Byte> {
    if queue == [] then [] else Rest(queue[0]) + Remainder(queue[1..])
  }

  function Pending(queue: seq<WritePending>): seq<Submission> {
    if queue == [] then [] else [Submission(queue[0].req, queue[0].cb)] + Pending(queue[1..])
  }

  /** The success callbacks due for a list of submissions. */
  function Due(subs: seq<Submission>): seq<Callback> {
    if subs == [] then []
    else Due(subs[..|subs| - 1]) + if subs[|subs| - 1].cb then [Callback(subs[|subs| - 1].req, 0)] else []
  }

  /** The success callbacks among those made. */
  function Succeeded(callbacks: seq<Callback>): seq<Callback> {
    if callbacks == [] then []
    else
      var last := callbacks[|callbacks| - 1];
      Succeeded(callbacks[..|callbacks| - 1]) + if last.status == 0 then [last] else []
  }

  // ---------------------------------------------------------------- the invariant

  /** The stream's queue, what the socket has accepted, the callbacks made; and the history of what
      was submitted, which submissions were completed, and whether a write has failed. */
  datatype State = State(
    queue: seq<WritePending>,
    accepted: seq<Byte>,
    callbacks: seq<Callback>,
    submitted: seq<Byte>,
    completed: seq<Submission>,
    requests: seq<Submission>,
    failed: bool)

  /** Until a write fails: what the socket accepted followed by what is queued is what was submitted,
      in order; and the requests are the completed ones, called back once each in order, followed
      by the queued ones. */
  ghost predicate Inv(s: State) {
    && (forall w :: w in s.queue ==> w.offset <= |w.data|)
    && (!s.failed ==> Intact(s))
  }

  ghost predicate Intact(s: State) {
    && s.submitted == s.accepted + Remainder(s.queue)
    && s.requests == s.completed + Pending(s.queue)
    && Succeeded(s.callbacks) == Due(s.completed)
  }

  // ---------------------------------------------------------------- steps

  lemma Assoc<X>(a: seq<X>, b: seq<X>, c: seq<X>)
    ensures (a + b) + c == a + (b + c)
  {
  }

  lemma {:induction false} PushRemainder(queue: seq<WritePending>, w: WritePending)
    ensures Remainder(queue + [w]) == Remainder(queue) + Rest(w)
  {
    if queue == [] {
      assert queue + [w] == [w];
    } else {
      PushRemainder(queue[1..], w);
      assert (queue + [w])[1..] == queue[1..] + [w];
      Assoc(Rest(queue[0]), Remainder(queue[1..]), Rest(w));
    }
  }

  lemma {:induction false} PushPending(queue: seq<WritePending>, w: WritePending)
    ensures Pending(queue + [w]) == Pending(queue) + [Submission(w.req, w.cb)]
  {
    if queue == [] {
      assert queue + [w] == [w];
    } else {
      PushPending(queue[1..], w);
      assert (queue + [w])[1..] == queue[1..] + [w];
      Assoc([Submission(queue[0].req, queue[0].cb)], Pending(queue[1..]), [Submission(w.req, w.cb)]);
    }
  }

  /** Calls `cb`, if there is one. */
  function CallBack(callbacks: seq<Callback>, req: Req, cb: bool, status: int): seq<Callback> {
    if cb then callbacks + [Callback(req, status)] else callbacks
  }

  lemma CallBackSucceeds(callbacks: seq<Callback>, completed: seq<Submission>, req: Req, cb: bool)
    requires Succeeded(callbacks) == Due(completed)
    ensures Succeeded(CallBack(callbacks, req, cb, 0)) == Due(completed + [Submission(req, cb)])
  {
    assert (callbacks + [Callback(req, 0)])[..|callbacks|] == callbacks;
    assert (completed + [Submission(req, cb)])[..|completed|] == completed;
  }

  lemma CallBackFails(callbacks: seq<Callback>, req: Req, cb: bool, status: int)
    requires status != 0
    ensures Succeeded(CallBack(callbacks, req, cb, status)) == Succeeded(callbacks)
  {
    assert (callbacks + [Callback(req, status)])[..|callbacks|] == callbacks;
  }

  /** The first queued write after the socket took `n` more of its bytes. */
  lemma FrontBytes(queue: seq<WritePending>, n: nat)
    requires queue != [] && queue[0].offset + n <= |queue[0].data|
    ensures var w := queue[0]; var queue' := queue[0 := w.(offset := w.offset + n)];
      && Remainder(queue) == w.data[w.offset..w.offset + n] + Remainder(queue')
      && Pending(queue') == Pending(queue)
  {
    var w := queue[0];
    var queue' := queue[0 := w.(offset := w.offset + n)];
    assert queue'[1..] == queue[1..];
    assert Rest(w) == w.data[w.offset..w.offset + n] + Rest(queue'[0]);
    Assoc(w.data[w.offset..w.offset + n], Rest(queue'[0]), Remainder(queue[1..]));
  }

  lemma AcceptFront(s: State, n: nat)
    requires Inv(s) && s.queue != [] && s.queue[0].offset + n <= |s.queue[0].data|
    ensures var w := s.queue[0];
      Inv(s.(queue := s.queue[0 := w.(offset := w.offset + n)],
             accepted := s.accepted + w.data[w.offset..w.offset + n]))
  {
    hide Remainder, Pending, Due, Succeeded;
    var w := s.queue[0];
    var queue' := s.queue[0 := w.(offset := w.offset + n)];
    FrontBytes(s.queue, n);
    Assoc(s.accepted, w.data[w.offset..w.offset + n], Remainder(queue'));
    forall x | x in queue' ensures x.offset <= |x.data| {
      var i :| 0 <= i < |queue'| && queue'[i] == x;
      assert i > 0 ==> s.queue[i] in s.queue;
    }
  }

  /** The first queued write is finished: it leaves the queue and is called back. */
  lemma CompleteFront(s: State)
    requires Inv(s) && s.queue != [] && s.queue[0].offset == |s.queue[0].data|
    ensures var w := s.queue[0];
      Inv(s.(queue := s.queue[1..], callbacks := CallBack(s.callbacks, w.req, w.cb, 0),
             completed := s.completed + [Submission(w.req, w.cb)]))
  {
    var w := s.queue[0];
    FinishedFront(s.queue);
    hide Remainder, Pending, Due, Succeeded, CallBack;
    if !s.failed {
      CallBackSucceeds(s.callbacks, s.completed, w.req, w.cb);
      Assoc(s.completed, [Submission(w.req, w.cb)], Pending(s.queue[1..]));
    }
  }

  lemma FinishedFront(queue: seq<WritePending>)
    requires queue != [] && queue[0].offset == |queue[0].data|
    ensures Remainder(queue) == Remainder(queue[1..])
    ensures Pending(queue) == [Submission(queue[0].req, queue[0].cb)] + Pending(queue[1..])
  {
    assert Rest(queue[0]) == [];
  }

  /** A new submission of which the socket has already taken `sent`, possibly nothing; only a stream
      with an empty queue writes directly. */
  lemma EnqueueRest(s: State, w: WritePending, sent: seq<Byte>)
    requires Inv(s) && (s.queue == [] || sent == []) && w.offset == 0
    ensures Inv(s.(queue := s.queue + [w], accepted := s.accepted + sent, submitted := s.submitted + (sent + w.data),
                   requests := s.requests + [Submission(w.req, w.cb)]))
  {
    PushRemainder(s.queue, w);
    PushPending(s.queue, w);
    assert Rest(w) == w.data && (s.queue == [] ==> Remainder(s.queue) == []);
    hide Remainder, Pending, Due, Succeeded, Rest;
    if !s.failed {
      Assoc(s.completed, Pending(s.queue), [Submission(w.req, w.cb)]);
      EnqueueBytes(s.submitted, s.accepted, Remainder(s.queue), sent, w.data);
    }
  }

  lemma EnqueueBytes(submitted: seq<Byte>, accepted: seq<Byte>, rest: seq<Byte>, sent: seq<Byte>, data: seq<Byte>)
    requires submitted == accepted + rest && (rest == [] || sent == [])
    ensures submitted + (sent + data) == (accepted + sent) + (rest + data)
  {
    if rest == [] {
      assert submitted == accepted && rest + data == data;
    } else {
      assert accepted + sent == accepted && sent + data == data;
    }
    Assoc(accepted, sent, data);
    Assoc(accepted, rest, data);
  }

  /** A new submission that the socket took entirely. */
  lemma CompleteNow(s: State, req: Req, cb: bool, sent: seq<Byte>)
    requires Inv(s) && s.queue == []
    ensures Inv(s.(accepted := s.accepted + sent, submitted := s.submitted + sent,
                   callbacks := CallBack(s.callbacks, req, cb, 0),
                   requests := s.requests + [Submission(req, cb)],
                   completed := s.completed + [Submission(req, cb)]))
  {
    if !s.failed {
      CallBackSucceeds(s.callbacks, s.completed, req, cb);
    }
  }

  /** On an intact stream with an empty queue, everything submitted was accepted and called back. */
  lemma Drained(s: State)
    requires Inv(s)
    ensures s.queue == [] && !s.failed ==> s.accepted == s.submitted && Succeeded(s.callbacks) == Due(s.requests)
  {
    if s.queue == [] && !s.failed {
      assert Remainder(s.queue) == [] && Pending(s.queue) == [];
      assert s.accepted + [] == s.accepted && s.completed + [] == s.completed;
    }
  }

  // ---------------------------------------------------------------- what the socket does

  datatype End = Done | Blocked | Failed

  /** How writing some bytes to the socket ends: how many it took, why it ended, and the outcomes left. */
  datatype Push = Push(taken: nat, end: End, rest: seq<Outcome>)

  /** Trying until all of `len` bytes are taken, or the socket blocks or fails. */
  ghost function Pushed(oracle: seq<Outcome>, len: nat): (p: Push)
    ensures p.taken <= len
  {
    if len == 0 then Push(0, Done, oracle)
    else if oracle == [] then Push(0, Blocked, [])
    else
      match oracle[0]
      case WouldBlock => Push(0, Blocked, oracle[1..])
      case Failure => Push(0, Failed, oracle[1..])
      case Accept(n) =>
        if n >= len then Push(len, Done, oracle[1..])
        else var p := Pushed(oracle[1..], len - n); p.(taken := n + p.taken)
  }

  /** Trying once. */
  ghost function Tried(oracle: seq<Outcome>, len: nat): (p: Push)
    ensures p.taken <= len
  {
    if len == 0 then Push(0, Done, oracle)
    else if oracle == [] then Push(0, Blocked, [])
    else
      match oracle[0]
      case WouldBlock => Push(0, Blocked, oracle[1..])
      case Failure => Push(0, Failed, oracle[1..])
      case Accept(n) => if n >= len then Push(len, Done, oracle[1..]) else Push(n, Blocked, oracle[1..])
  }

  ghost function Total(oracle: seq<Outcome>): nat
    requires forall o :: o in oracle ==> o.Accept?
  {
    if oracle == [] then 0 else oracle[0].n + Total(oracle[1..])
  }

  /** `Pushed` in terms of totals: all bytes are taken if the socket accepts enough before it first blocks
      or fails, and otherwise what it accepts up to then. */
  lemma {:induction false} PushedTotals(oracle: seq<Outcome>, len: nat, m: nat)
    requires m <= |oracle| && forall o :: o in oracle[..m] ==> o.Accept?
    ensures Total(oracle[..m]) >= len ==> Pushed(oracle, len).end == Done && Pushed(oracle, len).taken == len
    ensures Total(oracle[..m]) < len && m == |oracle| ==> Pushed(oracle, len) == Push(Total(oracle), Blocked, [])
    ensures Total(oracle[..m]) < len && m < |oracle| && !oracle[m].Accept? ==>
      Pushed(oracle, len) ==
      Push(Total(oracle[..m]), if oracle[m].Failure? then Failed else Blocked, oracle[m + 1..])
  {
    if m == |oracle| {
      assert oracle[..m] == oracle;
    }
    if len > 0 && m > 0 {
      var rest := oracle[1..];
      assert oracle[..m][0] == oracle[0] && oracle[..m][1..] == rest[..m - 1];
      assert oracle[0] in oracle[..m];
      forall o | o in rest[..m - 1] ensures o.Accept? {
        assert o in oracle[..m];
      }
      if oracle[0].n < len {
        PushedTotals(rest, len - oracle[0].n, m - 1);
      }
    }
  }

  /** Trying once is pushing against a socket that has one outcome only. */
  lemma TriedPushed(oracle: seq<Outcome>, len: nat)
    ensures var p, q := Tried(oracle, len), Pushed(oracle[..if oracle == [] then 0 else 1], len);
      p.taken == q.taken && p.end == q.end && p.rest == if len == 0 || oracle == [] then oracle else oracle[1..]
  {
    if len > 0 && oracle != [] {
      assert oracle[..1] == [oracle[0]];
    }
  }

  /** The stream, and what the socket will do. */
  datatype World = World(s: State, connected: bool, oracle: seq<Outcome>)

  /** `bytes` were written to the socket with result `p`. */
  ghost predicate Pushes(v: World, w: World, bytes: seq<Byte>, p: Push) {
    && p.taken <= |bytes|
    && w.connected == v.connected && w.oracle == p.rest
    && w.s.accepted == v.s.accepted + bytes[..p.taken]
    && w.s.failed == (v.s.failed || p.end == Failed)
  }

  ghost predicate Called(v: World, w: World, req: Req, cb: bool, status: int) {
    w.s.callbacks == if cb then v.s.callbacks + [Callback(req, status)] else v.s.callbacks
  }

  /** One drain round: the rest of the first queued write goes to the socket. */
  ghost predicate DrainedFront(v: World, w: World) {
    v.s.queue != [] && v.s.queue[0].offset <= |v.s.queue[0].data| &&
    var front := v.s.queue[0];
    var rest := front.data[front.offset..];
    var p := Pushed(v.oracle, |rest|);
    && Pushes(v, w, rest, p) && w.s.submitted == v.s.submitted && w.s.requests == v.s.requests
    && match p.end
       case Done => w.s.queue == v.s.queue[1..] && Called(v, w, front.req, front.cb, 0)
       case Blocked =>
         && w.s.queue == v.s.queue[0 := front.(offset := front.offset + p.taken)]
         && w.s.callbacks == v.s.callbacks
       case Failed => w.s.queue == v.s.queue[1..] && Called(v, w, front.req, front.cb, UV_EPIPE)
  }

  /** A write of `data`, in one buffer or several. */
  ghost predicate Written(v: World, w: World, req: Req, data: seq<Byte>, single: bool, cb: bool) {
    if !v.connected then
      w == v.(s := v.s.(callbacks := w.s.callbacks)) && Called(v, w, req, cb, UV_ENOTCONN)
    else
      && w.s.requests == v.s.requests + [Submission(req, cb)] && w.s.submitted == v.s.submitted + data
      && if v.s.queue != [] then
           && w.s.queue == v.s.queue + [WritePending(req, data, 0, cb)] && w.connected && w.oracle == v.oracle
           && w.s.accepted == v.s.accepted && w.s.callbacks == v.s.callbacks && w.s.failed == v.s.failed
         else
           var p := if single then Pushed(v.oracle, |data|) else Tried(v.oracle, |data|);
           Pushes(v, w, data, p) && Concluded(v, w, req, data, cb, p)
  }

  ghost predicate Concluded(v: World, w: World, req: Req, data: seq<Byte>, cb: bool, p: Push)
    requires p.taken <= |data|
  {
    match p.end
    case Done => w.s.queue == [] && Called(v, w, req, cb, 0)
    case Blocked => w.s.queue == [WritePending(req, data[p.taken..], 0, cb)] && w.s.callbacks == v.s.callbacks
    case Failed => w.s.queue == [] && Called(v, w, req, cb, UV_EPIPE)
  }

  /** `w` is what a write of `data` on an idle stream `s` leaves when the socket took `taken` bytes. */
  ghost predicate Ended(s: State, w: State, req: Req, data: seq<Byte>, cb: bool, taken: nat, end: End) {
    && taken <= |data| && w.accepted == s.accepted + data[..taken]
    && w.requests == s.requests + [Submission(req, cb)] && w.submitted == s.submitted + data
    && w.failed == (s.failed || end == Failed)
    && match end
       case Done => w.queue == [] && w.callbacks == CallBack(s.callbacks, req, cb, 0)
       case Blocked => w.queue == [WritePending(req, data[taken..], 0, cb)] && w.callbacks == s.callbacks
       case Failed => w.queue == [] && w.callbacks == CallBack(s.callbacks, req, cb, UV_EPIPE)
  }

  lemma EndedWritten(v: World, w: World, req: Req, data: seq<Byte>, single: bool, cb: bool, p: Push)
    requires v.connected && w.connected && v.s.queue == [] && w.oracle == p.rest
    requires p == if single then Pushed(v.oracle, |data|) else Tried(v.oracle, |data|)
    requires Ended(v.s, w.s, req, data, cb, p.taken, p.end)
    ensures Written(v, w, req, data, single, cb)
  {
    hide Pushed, Tried;
  }

  lemma TriedNothing(oracle: seq<Outcome>)
    ensures Tried(oracle, 0) == Push(0, Done, oracle)
  {
  }

  /** Unfolding `Pushed` once. */
  lemma PushedStep(oracle: seq<Outcome>, len: nat)
    ensures len == 0 ==> Pushed(oracle, len) == Push(0, Done, oracle)
    ensures len > 0 && oracle == [] ==> Pushed(oracle, len) == Push(0, Blocked, [])
    ensures len > 0 && oracle != [] && oracle[0].WouldBlock? ==> Pushed(oracle, len) == Push(0, Blocked, oracle[1..])
    ensures len > 0 && oracle != [] && oracle[0].Failure? ==> Pushed(oracle, len) == Push(0, Failed, oracle[1..])
    ensures len > 0 && oracle != [] && oracle[0].Accept? ==>
      var n := if oracle[0].n < len then oracle[0].n else len;
      var p := Pushed(oracle[1..], len - n);
      Pushed(oracle, len) == p.(taken := n + p.taken)
  {
  }

  /** A try-write with its result. */
  ghost predicate TriedWrite(v: World, w: World, data: seq<Byte>, status: int) {
    if v.s.queue != [] then w == v && status == UV_EAGAIN
    else if !v.connected then w == v && status == UV_EBADF
    else if v.oracle == [] then w == v && status == UV_EAGAIN
    else
      match v.oracle[0]
      case Accept(n) =>
        && status == (if n <= |data| then n else |data|)
        && w == v.(oracle := v.oracle[1..], s := v.s.(accepted := v.s.accepted + data[..status],
                                                      submitted := v.s.submitted + data[..status]))
      case WouldBlock => w == v.(oracle := v.oracle[1..]) && status == UV_EAGAIN
      case Failure => w == v.(oracle := v.oracle[1..]) && status == UV_EPIPE
  }

  // ---------------------------------------------------------------- runs

  datatype Call = WriteCall(req: Req, bufs: seq<Buf>, cb: bool) | TryWriteCall(data: seq<Byte>)

  datatype Event = App(call: Call) | DrainRound

  ghost predicate CallStep(v: World, c: Call, w: World) {
    match c
    case WriteCall(req, bufs, cb) => Written(v, w, req, Flatten(bufs), |bufs| == 1, cb)
    case TryWriteCall(data) => exists status :: TriedWrite(v, w, data, status)
  }

  ghost predicate Step(v: World, e: Event, w: World) {
    match e
    case App(c) => CallStep(v, c, w)
    case DrainRound => if v.connected && v.s.queue != [] then DrainedFront(v, w) else w == v
  }

  /** `w` is reached from `v` by these calls. */
  ghost predicate Calls(v: World, calls: seq<Call>, w: World) {
    if calls == [] then w == v
    else exists u :: Calls(v, DropLast(calls), u) && CallStep(u, Last(calls), w)
  }

  ghost predicate Runs(v: World, events: seq<Event>, w: World) {
    if events == [] then w == v
    else exists u :: Runs(v, DropLast(events), u) && Step(u, Last(events), w)
  }

  /** The drain loop from `v` to `w`, when `n` callbacks have been made: rounds until the queue is empty or
      the socket blocks, and after the round with the `n`-th callback the calls that it makes. */
  ghost predicate Drains(v: World, n: nat, callbackCalls: seq<seq<Call>>, w: World)
    decreases if n < |callbackCalls| then |callbackCalls| - n else 0, |v.s.queue|
  {
    if v.s.queue == [] then w == v
    else
      exists u :: DrainedFront(v, u) && (
        if FrontEnd(v) == Blocked then w == u
        else if !v.s.queue[0].cb then Drains(u, n, callbackCalls, w)
        else if n >= |callbackCalls| then Drains(u, n + 1, callbackCalls, w)
        else exists x :: Calls(u, callbackCalls[n], x) && Drains(x, n + 1, callbackCalls, w))
  }

  ghost function FrontEnd(v: World): End
    requires v.s.queue != []
  {
    var front := v.s.queue[0];
    Pushed(v.oracle, if front.offset <= |front.data| then |front.data| - front.offset else 0).end
  }

  /** How a drain round ends, by the result `p` of pushing the rest of the first write. */
  lemma FrontEnded(v: World, w: World, p: Push)
    requires v.s.queue != [] && v.s.queue[0].offset <= |v.s.queue[0].data|
    requires var front := v.s.queue[0];
      var rest := front.data[front.offset..];
      && p == Pushed(v.oracle, |rest|) && w.oracle == p.rest && w.connected == v.connected
      && w.s.accepted == v.s.accepted + rest[..p.taken] && w.s.failed == (v.s.failed || p.end == Failed)
      && w.s.submitted == v.s.submitted && w.s.requests == v.s.requests
      && w.s.queue == (if p.end == Blocked then v.s.queue[0 := front.(offset := front.offset + p.taken)]
                       else v.s.queue[1..])
      && w.s.callbacks == match p.end
                          case Done => CallBack(v.s.callbacks, front.req, front.cb, 0)
                          case Blocked => v.s.callbacks
                          case Failed => CallBack(v.s.callbacks, front.req, front.cb, UV_EPIPE)
    ensures DrainedFront(v, w) && FrontEnd(v) == p.end
  {
    hide Pushed;
  }

  lemma FrontOk(s: State)
    requires Inv(s) && s.queue != []
    ensures s.queue[0].offset <= |s.queue[0].data|
  {
    assert s.queue[0] in s.queue;
  }

  lemma FailedOk(s: State, w: State)
    requires Inv(s) && s.queue != [] && w.failed && w.queue == s.queue[1..]
    ensures Inv(w)
  {
  }

  lemma FrontGone(v: World, w: World)
    requires DrainedFront(v, w)
    ensures v.s.queue != [] && (FrontEnd(v) != Blocked ==> |w.s.queue| < |v.s.queue|)
  {
  }

  // ---------------------------------------------------------------- collecting buffers

  /** `collect_bufs`. */
  method CollectBufs(bufs: seq<Buf>) returns (data: seq<Byte>)
    ensures data == Flatten(bufs)
  {
    data := [];
    for i := 0 to |bufs|
      invariant data == Flatten(bufs[..i])
    {
      assert bufs[..i + 1][..i] == bufs[..i];
      match bufs[i]
      case NullBase(_) =>
      case Bytes(bytes) => if |bytes| > 0 { data := data + bytes; }
    }
    assert bufs[..|bufs|] == bufs;
  }

  function Join(parts: seq<seq<Byte>>): seq<Byte> {
    if parts == [] then [] else Join(parts[..|parts| - 1]) + parts[|parts| - 1]
  }

  /** The non-empty slices handed to a vectored write, and their total length. */
  method IoVecs(bufs: seq<Buf>) returns (iovecs: seq<seq<Byte>>, total: nat)
    ensures Join(iovecs) == Flatten(bufs) && total == |Flatten(bufs)|
  {
    iovecs, total := [], 0;
    for i := 0 to |bufs|
      invariant Join(iovecs) == Flatten(bufs[..i]) && total == |Flatten(bufs[..i])|
    {
      assert bufs[..i + 1][..i] == bufs[..i];
      match bufs[i]
      case NullBase(_) =>
      case Bytes(bytes) =>
        if |bytes| > 0 {
          assert (iovecs + [bytes])[..|iovecs|] == iovecs;
          iovecs := iovecs + [bytes];
          total := total + |bytes|;
        }
    }
    assert bufs[..|bufs|] == bufs;
  }

  /** What is left of the slices after a vectored write took `n` bytes. */
  method Unsent(iovecs: seq<seq<Byte>>, n: nat) returns (data: seq<Byte>)
    requires n <= |Join(iovecs)|
    ensures data == Join(iovecs)[n..]
  {
    data := [];
    var skip := n;
    for i := 0 to |iovecs|
      invariant if |Join(iovecs[..i])| <= n then skip == n - |Join(iovecs[..i])| && data == []
                else skip == 0 && data == Join(iovecs[..i])[n..]
    {
      assert iovecs[..i + 1][..i] == iovecs[..i];
      if skip >= |iovecs[i]| {
        skip := skip - |iovecs[i]|;
      } else {
        data := data + iovecs[i][skip..];
        skip := 0;
      }
    }
    assert iovecs[..|iovecs|] == iovecs;
  }

  // ---------------------------------------------------------------- the stream

  class TcpStream {
    var connected: bool
    var queue: seq<WritePending>
    var oracle: seq<Outcome>
    var callbacks: seq<Callback>

    ghost var accepted: seq<Byte>
    ghost var submitted: seq<Byte>
    ghost var completed: seq<Submission>
    ghost var requests: seq<Submission>
    ghost var failed: bool

    ghost function View(): State
      reads this
    {
      State(queue, accepted, callbacks, submitted, completed, requests, failed)
    }

    ghost function Now(): World
      reads this
    {
      World(View(), connected, oracle)
    }

    ghost predicate Valid()
      reads this
    {
      Inv(View())
    }

    constructor (connected: bool, oracle: seq<Outcome>)
      ensures Valid() && !failed && queue == [] && submitted == [] && accepted == [] && requests == []
    {
      this.connected, this.oracle := connected, oracle;
      queue, callbacks, failed := [], [], false;
      accepted, submitted, completed, requests := [], [], [], [];
    }

    /** The socket's non-blocking write: takes a prefix, or blocks, or fails. */
    method TrySocket(data: seq<Byte>) returns (o: Outcome)
      modifies `oracle, `accepted
      ensures o.Accept? ==> o.n <= |data| && accepted == old(accepted) + data[..o.n]
      ensures !o.Accept? ==> accepted == old(accepted)
      ensures Failure !in old(oracle) ==> !o.Failure? && Failure !in oracle
      ensures oracle == if old(oracle) == [] then [] else old(oracle)[1..]
      ensures o == if old(oracle) == [] then WouldBlock
                   else if old(oracle)[0].Accept? && old(oracle)[0].n > |data| then Accept(|data|)
                   else old(oracle)[0]
    {
      if oracle == [] {
        return WouldBlock;
      }
      assert oracle[0] in oracle;
      o := oracle[0];
      oracle := oracle[1..];
      if o.Accept? {
        o := Accept(if o.n <= |data| then o.n else |data|);
        accepted := accepted + data[..o.n];
      }
    }

    /** `uv_try_write`. */
    method TryWrite(data: seq<Byte>) returns (status: int)
      requires Valid()
      modifies `oracle, `accepted, `submitted
      ensures Valid() && TriedWrite(old(Now()), Now(), data, status)
      ensures Failure !in old(oracle) ==> Failure !in oracle
    {
      if queue != [] {
        return UV_EAGAIN;
      }
      if !connected {
        return UV_EBADF;
      }
      var o := TrySocket(data);
      match o
      case Accept(n) =>
        submitted := submitted + data[..n];
        status := n;
      case WouldBlock =>
        status := UV_EAGAIN;
      case Failure =>
        status := UV_EPIPE;
    }

    /** `uv_write`. */
    method Write(req: Req, bufs: seq<Buf>, cb: bool)
      requires Valid()
      modifies `queue, `oracle, `callbacks, `accepted, `submitted, `completed, `requests, `failed
      ensures Valid() && Written(old(Now()), Now(), req, Flatten(bufs), |bufs| == 1, cb)
      ensures Failure !in old(oracle) ==> failed == old(failed) && Failure !in oracle
      ensures old(accepted) <= accepted
    {
      hide Remainder, Pending, Due, Succeeded, Pushed, Tried;
      if !connected {
        CallBackFails(callbacks, req, cb, UV_ENOTCONN);
        callbacks := CallBack(callbacks, req, cb, UV_ENOTCONN);
        return;
      }
      if queue != [] {
        var data := CollectBufs(bufs);
        Enqueue(req, data, cb, View(), []);
      } else if |bufs| == 1 {
        assert bufs[..0] == [] && Flatten(bufs) == Content(bufs[0]);
        WriteSingle(req, Content(bufs[0]), cb);
      } else {
        WriteVectored(req, bufs, cb);
      }
    }

    /** Queues `data`, after the socket has taken `sent`. */
    method Enqueue(req: Req, data: seq<Byte>, cb: bool, ghost s: State, ghost sent: seq<Byte>)
      requires Inv(s) && View() == s.(accepted := s.accepted + sent) && (s.queue == [] || sent == [])
      modifies `queue, `submitted, `requests
      ensures Valid() && submitted == s.submitted + (sent + data) && requests == s.requests + [Submission(req, cb)]
      ensures queue == old(queue) + [WritePending(req, data, 0, cb)]
      ensures s.queue == [] ==> Ended(s, View(), req, sent + data, cb, |sent|, Blocked)
    {
      hide Inv;
      EnqueueRest(s, WritePending(req, data, 0, cb), sent);
      queue := queue + [WritePending(req, data, 0, cb)];
      submitted := submitted + (sent + data);
      requests := requests + [Submission(req, cb)];
    }

    /** The socket took all of `data`: call back at once. */
    method Finish(req: Req, cb: bool, ghost s: State, ghost data: seq<Byte>)
      requires Inv(s) && View() == s.(accepted := s.accepted + data) && s.queue == []
      modifies `callbacks, `submitted, `requests, `completed
      ensures Valid() && Ended(s, View(), req, data, cb, |data|, Done)
    {
      hide Inv;
      CompleteNow(s, req, cb, data);
      callbacks := CallBack(callbacks, req, cb, 0);
      submitted := submitted + data;
      requests := requests + [Submission(req, cb)];
      completed := completed + [Submission(req, cb)];
    }

    /** The socket failed. */
    method Fail(req: Req, cb: bool, ghost s: State, ghost data: seq<Byte>, ghost taken: nat)
      requires taken <= |data| && View() == s.(accepted := s.accepted + data[..taken]) && s.queue == []
      modifies `callbacks, `submitted, `requests, `failed
      ensures Valid() && Ended(s, View(), req, data, cb, taken, Failed)
    {
      callbacks := CallBack(callbacks, req, cb, UV_EPIPE);
      submitted := submitted + data;
      requests := requests + [Submission(req, cb)];
      failed := true;
    }

    /** `uv_write` of one buffer on an idle stream. */
    method WriteSingle(req: Req, data: seq<Byte>, cb: bool)
      requires Valid() && queue == [] && connected
      modifies `queue, `oracle, `callbacks, `accepted, `submitted, `completed, `requests, `failed
      ensures Valid() && Written(old(Now()), Now(), req, data, true, cb)
      ensures Failure !in old(oracle) ==> failed == old(failed) && Failure !in oracle
      ensures old(accepted) <= accepted
    {
      hide Inv, Written, Ended, Pushed;
      ghost var v, s := Now(), View();
      var taken, end := PushAll(data);
      match end {
        case Done =>
          assert data[..taken] == data;
          Finish(req, cb, s, data);
        case Blocked =>
          Enqueue(req, data[taken..], cb, s, data[..taken]);
          assert data[..taken] + data[taken..] == data;
        case Failed =>
          Fail(req, cb, s, data, taken);
      }
      EndedWritten(v, Now(), req, data, true, cb, Pushed(v.oracle, |data|));
    }

    /** The loop that both `uv_write` and `run_io` use: tries until all bytes are taken, or the socket blocks
        or fails. */
    method PushAll(data: seq<Byte>) returns (taken: nat, end: End)
      modifies `oracle, `accepted
      ensures Pushed(old(oracle), |data|) == Push(taken, end, oracle) && taken <= |data|
      ensures accepted == old(accepted) + data[..taken] && (end == Done ==> taken == |data|)
      ensures Failure !in old(oracle) ==> end != Failed && Failure !in oracle
    {
      hide Pushed;
      ghost var p := Pushed(oracle, |data|);
      taken := 0;
      while taken < |data|
        invariant taken <= |data| && accepted == old(accepted) + data[..taken]
        invariant Failure !in old(oracle) ==> Failure !in oracle
        invariant var q := Pushed(oracle, |data| - taken); p == q.(taken := taken + q.taken)
        decreases |oracle|, |data| - taken
      {
        PushedStep(oracle, |data| - taken);
        var o := TrySocket(data[taken..]);
        match o {
          case Accept(n) =>
            assert data[..taken] + data[taken..][..n] == data[..taken + n];
            taken := taken + n;
          case WouldBlock => return taken, Blocked;
          case Failure => return taken, Failed;
        }
      }
      PushedStep(oracle, 0);
      return taken, Done;
    }

    /** `uv_write` of several buffers, or none, on an idle stream. */
    method WriteVectored(req: Req, bufs: seq<Buf>, cb: bool)
      requires Valid() && queue == [] && connected
      modifies `queue, `oracle, `callbacks, `accepted, `submitted, `completed, `requests, `failed
      ensures Valid() && Written(old(Now()), Now(), req, Flatten(bufs), false, cb)
      ensures Failure !in old(oracle) ==> failed == old(failed) && Failure !in oracle
      ensures old(accepted) <= accepted
    {
      hide Inv, Flatten, Written, Ended, Tried;
      ghost var v, s := Now(), View();
      ghost var data := Flatten(bufs);
      var iovecs, total := IoVecs(bufs);
      if total == 0 {
        assert data == [] && s == s.(accepted := s.accepted + data);
        TriedNothing(oracle);
        Finish(req, cb, s, data);
        EndedWritten(v, Now(), req, data, false, cb, Tried(v.oracle, 0));
        return;
      }
      var o := TryVectored(Join(iovecs));
      match o {
        case Accept(n) =>
          if n >= total {
            assert data[..n] == data;
            Finish(req, cb, s, data);
          } else {
            var rest := Unsent(iovecs, n);
            Enqueue(req, rest, cb, s, data[..n]);
            assert data[..n] + rest == data;
          }
        case WouldBlock =>
          var all := CollectBufs(bufs);
          Enqueue(req, all, cb, s, []);
          assert [] + all == data;
        case Failure =>
          Fail(req, cb, s, data, 0);
      }
      EndedWritten(v, Now(), req, data, false, cb, Tried(v.oracle, |data|));
    }

    /** `try_write_vectored`. */
    method TryVectored(data: seq<Byte>) returns (o: Outcome)
      requires data != []
      modifies `oracle, `accepted
      ensures var taken := if o.Accept? then o.n else 0;
        && taken <= |data| && accepted == old(accepted) + data[..taken]
        && Tried(old(oracle), |data|) ==
           Push(taken, if o.Failure? then Failed else if taken == |data| then Done else Blocked, oracle)
      ensures Failure !in old(oracle) ==> !o.Failure? && Failure !in oracle
    {
      o := TrySocket(data);
    }

    /** One round of the drain loop of `run_io`: push the first queued write to the socket. The caller
        goes on while this returns true; write callbacks may submit more writes in between. */
    method DrainFront() returns (goOn: bool)
      requires Valid() && connected && queue != []
      modifies `queue, `oracle, `callbacks, `accepted, `completed, `failed
      ensures Valid() && DrainedFront(old(Now()), Now())
      ensures goOn <==> FrontEnd(old(Now())) != Blocked
      ensures old(accepted) <= accepted
      ensures Failure !in old(oracle) ==> failed == old(failed) && Failure !in oracle
    {
      hide Inv, Pushed, DrainedFront, FrontEnd;
      ghost var v, s := Now(), View();
      FrontOk(s);
      var w := queue[0];
      var taken, end := PushAll(w.data[w.offset..]);
      assert w.data[w.offset..][..taken] == w.data[w.offset..w.offset + taken];
      AcceptFront(s, taken);
      queue := queue[0 := w.(offset := w.offset + taken)];
      goOn := Conclude(end);
      FrontEnded(v, Now(), Pushed(v.oracle, |w.data[w.offset..]|));
    }

    /** The end of a drain round: a write that is finished or failed leaves the queue and is called back. */
    method Conclude(end: End) returns (goOn: bool)
      requires Valid() && queue != [] && (end == Done ==> queue[0].offset == |queue[0].data|)
      modifies `queue, `callbacks, `completed, `failed
      ensures Valid() && (goOn <==> end != Blocked) && failed == (old(failed) || end == Failed)
      ensures queue == if end == Blocked then old(queue) else old(queue)[1..]
      ensures callbacks == match end
                           case Done => CallBack(old(callbacks), old(queue)[0].req, old(queue)[0].cb, 0)
                           case Blocked => old(callbacks)
                           case Failed => CallBack(old(callbacks), old(queue)[0].req, old(queue)[0].cb, UV_EPIPE)
    {
      hide Inv;
      ghost var s := View();
      var w := queue[0];
      match end {
        case Done =>
          CompleteFront(s);
          queue := queue[1..];
          callbacks := CallBack(callbacks, w.req, w.cb, 0);
          completed := completed + [Submission(w.req, w.cb)];
          return true;
        case Failed =>
          queue := queue[1..];
          callbacks := CallBack(callbacks, w.req, w.cb, UV_EPIPE);
          failed := true;
          FailedOk(s, View());
          return true;
        case Blocked =>
          return false;
      }
    }

    /** The drain loop of `run_io`; the `n`-th callback it makes performs the calls `callbackCalls[n]`. */
    method Drain(callbackCalls: seq<seq<Call>>)
      requires Valid() && connected
      modifies `queue, `oracle, `callbacks, `accepted, `submitted, `completed, `requests, `failed
      ensures Valid() && Drains(old(Now()), 0, callbackCalls, Now())
      ensures Failure !in old(oracle) ==> failed == old(failed) && Failure !in oracle
      ensures queue == [] && !failed ==> accepted == submitted && Succeeded(callbacks) == Due(requests)
    {
      hide Inv, DrainedFront, FrontEnd, Calls;
      ghost var v := Now();
      var n := 0;
      while queue != []
        invariant Valid() && forall w :: Drains(Now(), n, callbackCalls, w) ==> Drains(v, 0, callbackCalls, w)
        invariant Failure !in old(oracle) ==> failed == old(failed) && Failure !in oracle
        decreases if n < |callbackCalls| then |callbackCalls| - n else 0, |queue|
      {
        ghost var before := Now();
        var cb := queue[0].cb;
        var goOn := DrainFront();
        ghost var u := Now();
        FrontGone(before, u);
        if !goOn { break; }
        if cb {
          if n < |callbackCalls| {
            Submit(callbackCalls[n]);
          }
          n := n + 1;
        }
      }
      Drained(View());
    }

    /** Calls that application code makes, without a drain round in between. */
    method Submit(calls: seq<Call>)
      requires Valid()
      modifies `queue, `oracle, `callbacks, `accepted, `submitted, `completed, `requests, `failed
      ensures Valid() && Calls(old(Now()), calls, Now())
      ensures Failure !in old(oracle) ==> failed == old(failed) && Failure !in oracle
    {
      hide Inv, CallStep;
      for i := 0 to |calls|
        invariant Valid() && Calls(old(Now()), calls[..i], Now())
        invariant Failure !in old(oracle) ==> failed == old(failed) && Failure !in oracle
      {
        ghost var u := Now();
        Do(calls[i]);
        PrefixMore(calls, i);
      }
      assert calls[..|calls|] == calls;
    }

    method Do(c: Call)
      requires Valid()
      modifies `queue, `oracle, `callbacks, `accepted, `submitted, `completed, `requests, `failed
      ensures Valid() && CallStep(old(Now()), c, Now())
      ensures Failure !in old(oracle) ==> failed == old(failed) && Failure !in oracle
    {
      hide Inv, Flatten, Written, TriedWrite;
      match c
      case WriteCall(req, bufs, cb) => Write(req, bufs, cb);
      case TryWriteCall(data) =>
        var status := TryWrite(data);
        assert TriedWrite(old(Now()), Now(), data, status);
    }

    /** Every run of calls and drain rounds, in any interleaving. */
    method Run(events: seq<Event>)
      requires Valid()
      modifies this
      ensures Valid() && Runs(old(Now()), events, Now())
      ensures Failure !in old(oracle) ==> failed == old(failed) && Failure !in oracle
    {
      hide Inv, CallStep, DrainedFront;
      for i := 0 to |events|
        invariant Valid() && Runs(old(Now()), events[..i], Now())
        invariant Failure !in old(oracle) ==> failed == old(failed) && Failure !in oracle
      {
        ghost var u := Now();
        match events[i] {
          case App(c) => Do(c);
          case DrainRound => if connected && queue != [] { var _ := DrainFront(); }
        }
        assert Step(u, events[i], Now());
        PrefixMore(events, i);
      }
      assert events[..|events|] == events;
    }
  }
}
