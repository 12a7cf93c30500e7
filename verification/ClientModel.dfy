/**
 The asynchronous client connection of carrot_async_channel.cpp as a state
 machine. Every handler is one atomic step. What the environment decides (error
 codes, allocation results, what was received, when a timer fires) is part of
 the event; what a user callback does is a `Reaction`, a finite tree of further
 calls that it issues before it returns.
 */
module ClientModel {
  import opened Wire
  import opened RpcMessages
  import opened Frames

  /** A request or response parameter: any protobuf message of the user. */
  type Msg(==, !new)

  datatype ErrorCode =
    | EC_SUCCESS | EC_ERROR | EC_FAILED | EC_CONNECTION_FAILED | EC_OOM | EC_SERIALIZATION_ERROR
    | EC_TRANSPORT_ERROR | EC_INVALID_INTERNAL_STATE | EC_METHOD_NOT_FOUND | EC_RPC_TIMEOUT

  const TIMEOUT_NEVER := 0

  /** How `start_call` gets on: it sends the frame, or one of its three failures happens. */
  datatype SendOutcome = Sends | NoMemory | MetaUnprintable | ParamUnprintable

  /** The arguments of one `issue`, with what happens if it has to send, or run its callback, at once. */
  datatype Call = Call(service: bytes, name: bytes, request: Msg, timeout: uint32,
                       send: SendOutcome, reaction: Reaction)

  datatype Reaction = Reaction(calls: seq<Call>, throws: bool)

  /** `call_task` and its controller; a controller is failed when its code is not EC_SUCCESS. */
  datatype Task = Task(id: nat, service: bytes, name: bytes, request: Msg, timeout: uint32,
                       called: bool, code: ErrorCode, response: Option<Msg>, armed: bool)

  /** A handler the event loop still has to run. `Waiting` is one `async_wait`, cancelled or not. */
  datatype Handler =
    | Resolving(k: nat) | Connecting(k: nat) | ReadingHeader | ReadingPayload | Writing(k: nat) | Waiting(k: nat)

  /** One run of a `done` callback: whose, and what its controller and response held. */
  datatype Completion = Completion(k: nat, code: ErrorCode, response: Option<Msg>)

  /** A response frame whose metadata parsed; `param` is None if the parameter did not. */
  datatype Received = Received(id: uint64, status: Status, param: Option<Msg>)

  /**
   `tasks` lists every task ever issued; a `call_task_sptr` is an index into it.
   `log`, `sent` and `received` are histories the code does not keep.
   */
  datatype Conn = Conn(
    id: nat, tasks: seq<Task>, outgoing: map<nat, nat>, connecting: bool, open: bool,
    header: Header, n: nat, pending: multiset<Handler>,
    log: seq<Completion>, sent: seq<nat>, received: seq<Received>)

  const FRESH := Conn(0, [], map[], false, false, Header(0, 0, 0), 0, multiset{}, [], [], [])

  /** If `h` belongs to a task, it is one of the first `n`. */
  predicate TaskBelow(n: nat, h: Handler) {
    (h.Resolving? || h.Connecting? || h.Writing? || h.Waiting?) ==> h.k < n
  }

  predicate TaskIndex(s: Conn, h: Handler) {
    TaskBelow(|s.tasks|, h)
  }

  /** Ids count up with the tasks, and an id in `outgoing` leads to its own task. */
  predicate WellFormed(s: Conn) {
    && s.id == |s.tasks|
    && (forall k | 0 <= k < |s.tasks| :: s.tasks[k].id == k + 1)
    && (forall i | i in s.outgoing :: 1 <= i <= |s.tasks| && s.outgoing[i] == i - 1)
    && (forall h {:trigger TaskBelow(|s.tasks|, h)} | h in s.pending :: TaskBelow(|s.tasks|, h))
    && (forall j | 0 <= j < |s.log| :: s.log[j].k < |s.tasks|)
    && (forall j | 0 <= j < |s.sent| :: s.sent[j] < |s.tasks|)
  }

  predicate Has(s: Conn, k: nat) {
    WellFormed(s) && k < |s.tasks|
  }

  /* Small changes. */

  function SetTask(s: Conn, k: nat, t: Task): (r: Conn)
    requires Has(s, k) && t.id == k + 1
    ensures WellFormed(r) && |r.tasks| == |s.tasks|
  {
    s.(tasks := s.tasks[k := t])
  }

  /** `SetFailed` on the task's controller. */
  function SetFailed(s: Conn, k: nat, code: ErrorCode): (r: Conn)
    requires Has(s, k)
    ensures WellFormed(r) && |r.tasks| == |s.tasks|
  {
    SetTask(s, k, s.tasks[k].(code := code))
  }

  function CancelTimer(s: Conn, k: nat): (r: Conn)
    requires Has(s, k)
    ensures WellFormed(r) && |r.tasks| == |s.tasks|
  {
    SetTask(s, k, s.tasks[k].(armed := false))
  }

  function Await(s: Conn, h: Handler): (r: Conn)
    requires WellFormed(s) && TaskIndex(s, h)
    ensures WellFormed(r) && |r.tasks| == |s.tasks|
  {
    s.(pending := s.pending + multiset{h})
  }

  /** The event loop takes one pending handler to run it. */
  function Fire(s: Conn, h: Handler): (r: Conn)
    requires WellFormed(s)
    ensures WellFormed(r) && |r.tasks| == |s.tasks|
  {
    s.(pending := s.pending - multiset{h})
  }

  /** `setup_task_timer` */
  function SetTimer(s: Conn, k: nat): (r: Conn)
    requires Has(s, k)
    ensures WellFormed(r) && |r.tasks| == |s.tasks|
  {
    if s.tasks[k].timeout == TIMEOUT_NEVER then s
    else Await(SetTask(s, k, s.tasks[k].(armed := true)), Waiting(k))
  }

  /** `std::map::insert`, which leaves an existing entry alone. */
  function Insert(m: map<nat, nat>, i: nat, k: nat): map<nat, nat> {
    if i in m then m else m[i := k]
  }

  /** `outgoing_tasks.insert` for a task about to be sent. */
  function Enter(s: Conn, k: nat): (r: Conn)
    requires Has(s, k)
    ensures WellFormed(r) && |r.tasks| == |s.tasks|
  {
    s.(outgoing := Insert(s.outgoing, s.tasks[k].id, k), sent := s.sent + [k])
  }

  function Erase(s: Conn, id: nat): (r: Conn)
    requires WellFormed(s)
    ensures WellFormed(r) && |r.tasks| == |s.tasks|
  {
    s.(outgoing := s.outgoing - {id})
  }

  function TakeHeader(s: Conn, h: Header): (r: Conn)
    requires WellFormed(s)
    ensures WellFormed(r) && |r.tasks| == |s.tasks|
  {
    s.(header := h, n := PayloadLength(h))
  }

  function Note(s: Conn, a: Received): (r: Conn)
    requires WellFormed(s)
    ensures WellFormed(r) && |r.tasks| == |s.tasks|
  {
    s.(received := s.received + [a])
  }

  function CloseSocket(s: Conn): (r: Conn)
    requires WellFormed(s)
    ensures WellFormed(r) && |r.tasks| == |s.tasks|
  {
    s.(open := false)
  }

  /* Callbacks, and the calls they issue. */

  /** `done->Run()` */
  function RunDone(s: Conn, k: nat, r: Reaction): (s': Conn)
    requires Has(s, k)
    ensures WellFormed(s') && |s'.tasks| >= |s.tasks|
    decreases r, 1
  {
    var s1 := s.(log := s.log + [Completion(k, s.tasks[k].code, s.tasks[k].response)]);
    var s2 := IssueAll(s1, r.calls);
    if r.throws then SetFailed(s2, k, EC_FAILED) else s2
  }

  /** `if (!task->called) { done->Run(); called = true; }` */
  function Complete(s: Conn, k: nat, r: Reaction): (s': Conn)
    requires Has(s, k)
    ensures WellFormed(s') && |s'.tasks| >= |s.tasks|
    decreases r, 2
  {
    if s.tasks[k].called then s
    else
      var s1 := RunDone(s, k, r);
      SetTask(s1, k, s1.tasks[k].(called := true))
  }

  /** `finish_task` */
  function Finish(s: Conn, k: nat, r: Reaction): (s': Conn)
    requires Has(s, k)
    ensures WellFormed(s') && |s'.tasks| >= |s.tasks|
    decreases r, 3
  {
    Complete(CancelTimer(s, k), k, r)
  }

  function StartCall(s: Conn, k: nat, send: SendOutcome, r: Reaction): (s': Conn)
    requires Has(s, k)
    ensures WellFormed(s') && |s'.tasks| >= |s.tasks|
    decreases r, 4
  {
    match send
    case NoMemory => Finish(SetFailed(s, k, EC_OOM), k, r)
    case MetaUnprintable => Finish(SetFailed(s, k, EC_SERIALIZATION_ERROR), k, r)
    case ParamUnprintable => Finish(SetFailed(s, k, EC_SERIALIZATION_ERROR), k, r)
    case Sends => Transmit(s, k)
  }

  function Transmit(s: Conn, k: nat): (s': Conn)
    requires Has(s, k)
    ensures WellFormed(s') && |s'.tasks| == |s.tasks|
  {
    Await(SetTimer(Enter(s, k), k), Writing(k))
  }

  function NewTask(id: nat, c: Call): Task {
    Task(id, c.service, c.name, c.request, c.timeout, false, EC_SUCCESS, None, false)
  }

  function AddTask(s: Conn, c: Call): (s': Conn)
    requires WellFormed(s)
    ensures WellFormed(s') && |s'.tasks| == |s.tasks| + 1
  {
    assert forall h | h in s.pending :: TaskBelow(|s.tasks|, h) && TaskBelow(|s.tasks| + 1, h);
    s.(id := s.id + 1, tasks := s.tasks + [NewTask(s.id + 1, c)])
  }

  function StartResolve(s: Conn, k: nat): (s': Conn)
    requires Has(s, k)
    ensures WellFormed(s') && |s'.tasks| == |s.tasks|
  {
    SetTimer(Await(s, Resolving(k)).(connecting := true), k)
  }

  function Issue(s: Conn, c: Call): (s': Conn)
    requires WellFormed(s)
    ensures WellFormed(s') && |s'.tasks| > |s.tasks|
    decreases c, 5
  {
    var k, s1 := |s.tasks|, AddTask(s, c);
    if s1.open then StartCall(s1, k, c.send, c.reaction)
    else StartResolve(s1, k)
  }

  function IssueAll(s: Conn, cs: seq<Call>): (s': Conn)
    requires WellFormed(s)
    ensures WellFormed(s') && |s'.tasks| >= |s.tasks|
    decreases cs, 0
  {
    if cs == [] then s else IssueAll(Issue(s, cs[0]), cs[1..])
  }

  /** The failure sites: `if (!task->called) { SetFailed; done->Run(); called = true; }` */
  function FailWith(s: Conn, k: nat, code: ErrorCode, r: Reaction): (s': Conn)
    requires Has(s, k)
    ensures WellFormed(s') && |s'.tasks| >= |s.tasks|
  {
    if s.tasks[k].called then s else Complete(SetFailed(s, k, code), k, r)
  }

  /* destroy */

  /** The loop over `outgoing_tasks`, in the key order of `std::map`, from `key` up to `last`. */
  function DestroyTasks(s: Conn, key: nat, last: nat, react: nat -> Reaction): (s': Conn)
    requires WellFormed(s)
    ensures WellFormed(s') && |s'.tasks| >= |s.tasks|
    decreases last + 1 - key, 0
  {
    if key > last then s else DestroyOn(s, key, last, react)
  }

  /** One turn of the loop, and the rest of it. */
  function DestroyOn(s: Conn, key: nat, last: nat, react: nat -> Reaction): (s': Conn)
    requires WellFormed(s) && key <= last
    ensures WellFormed(s') && |s'.tasks| >= |s.tasks|
    decreases last - key, 1
  {
    DestroyTasks(DestroyKey(s, key, react), key + 1, last, react)
  }

  function DestroyKey(s: Conn, key: nat, react: nat -> Reaction): (s': Conn)
    requires WellFormed(s)
    ensures WellFormed(s') && |s'.tasks| >= |s.tasks|
  {
    if key in s.outgoing then DestroyTask(s, s.outgoing[key], react(key)) else s
  }

  function DestroyTask(s: Conn, k: nat, r: Reaction): (s': Conn)
    requires Has(s, k)
    ensures WellFormed(s') && |s'.tasks| >= |s.tasks|
  {
    FailWith(CancelTimer(s, k), k, EC_FAILED, r)
  }

  function Destroy(s: Conn, react: nat -> Reaction): (s': Conn)
    requires WellFormed(s)
    ensures WellFormed(s') && |s'.tasks| >= |s.tasks|
  {
    DestroyTasks(CloseSocket(s), 0, s.id, react).(outgoing := map[])
  }

  /* The handlers. */

  function StartRead(s: Conn, granted: bool, react: nat -> Reaction): (s': Conn)
    requires WellFormed(s)
    ensures WellFormed(s') && |s'.tasks| >= |s.tasks|
  {
    if granted then Await(s, ReadingHeader) else Destroy(s, react)
  }

  function HandleResolve(s: Conn, k: nat, ok: bool, isOpen: bool, react: nat -> Reaction): (s': Conn)
    requires Has(s, k)
    ensures WellFormed(s') && |s'.tasks| >= |s.tasks|
  {
    if ok then Await(s, Connecting(k)).(open := isOpen)
    else Destroy(FailWith(s, k, EC_ERROR, react(k + 1)), react)
  }

  function HandleConnect(s: Conn, k: nat, ok: bool, send: SendOutcome, granted: bool, react: nat -> Reaction): (s': Conn)
    requires Has(s, k)
    ensures WellFormed(s') && |s'.tasks| >= |s.tasks|
  {
    if ok then StartRead(StartCall(s.(connecting := false), k, send, react(k + 1)), granted, react)
    else Destroy(FailWith(s, k, EC_CONNECTION_FAILED, react(k + 1)), react)
  }

  function HandleReadHeader(s: Conn, ok: bool, h: Header, granted: bool, react: nat -> Reaction): (s': Conn)
    requires WellFormed(s)
    ensures WellFormed(s') && |s'.tasks| >= |s.tasks|
  {
    if !ok then Destroy(s, react)
    else
      var s1 := TakeHeader(s, h);
      if granted then Await(s1, ReadingPayload) else Destroy(s1, react)
  }

  /** How the payload read ended: no error, end of file after some bytes, or another error. */
  datatype ReadEnd = NoError | Eof(transferred: nat) | Broken

  predicate WholePayload(s: Conn, end: ReadEnd) {
    end.NoError? || (end.Eof? && end.transferred == s.n)
  }

  /** The switch over the status of a response. */
  function JudgeStatus(s: Conn, k: nat, st: Status): (r: Conn)
    requires Has(s, k)
    ensures WellFormed(r) && |r.tasks| == |s.tasks|
  {
    match st
    case NOT_FOUND => SetFailed(s, k, EC_METHOD_NOT_FOUND)
    case ERROR => SetFailed(s, k, EC_ERROR)
    case FAILED => SetFailed(s, k, EC_FAILED)
    case SUCCESS => s
  }

  /** The controller and the response after both parts of a response frame were looked at. */
  function TakeAnswer(s: Conn, k: nat, st: Status, param: Option<Msg>): (r: Conn)
    requires Has(s, k)
    ensures WellFormed(r) && |r.tasks| == |s.tasks|
  {
    var s1 := JudgeStatus(s, k, st);
    if param.None? then SetFailed(s1, k, EC_SERIALIZATION_ERROR)
    else SetTask(s1, k, s1.tasks[k].(response := param))
  }

  /** `rpc` is what `Response::ParseFromArray` made of the metadata. */
  function HandleReadPayload(s: Conn, end: ReadEnd, rpc: Option<Response>, param: Option<Msg>, granted: bool,
                             react: nat -> Reaction): (s': Conn)
    requires WellFormed(s)
    requires rpc.Some? ==> rpc.value.id.Some? && rpc.value.status.Some?
    ensures WellFormed(s') && |s'.tasks| >= |s.tasks|
  {
    if !WholePayload(s, end) || rpc.None? then Destroy(s, react)
    else TakeResponse(s, rpc.value.id.value, rpc.value.status.value, param, granted, react)
  }

  function TakeResponse(s: Conn, id: uint64, st: Status, param: Option<Msg>, granted: bool, react: nat -> Reaction): (s': Conn)
    requires WellFormed(s)
    ensures WellFormed(s') && |s'.tasks| >= |s.tasks|
  {
    var s1 := Note(s, Received(id, st, param));
    if id !in s1.outgoing then StartRead(s1, granted, react)
    else Answer(s1, s1.outgoing[id], st, param, granted, react)
  }

  /** The response belongs to a call in `outgoing_tasks`: the next read starts, then the call finishes. */
  function Answer(s: Conn, k: nat, st: Status, param: Option<Msg>, granted: bool, react: nat -> Reaction): (s': Conn)
    requires Has(s, k)
    ensures WellFormed(s') && |s'.tasks| >= |s.tasks|
  {
    ReadOn(TakeAnswer(s, k, st, param), k, granted, react)
  }

  function ReadOn(s: Conn, k: nat, granted: bool, react: nat -> Reaction): (s': Conn)
    requires Has(s, k)
    ensures WellFormed(s') && |s'.tasks| >= |s.tasks|
  {
    if !granted then Destroy(s, react)
    else Finish(Erase(Await(s, ReadingHeader), k + 1), k, react(k + 1))
  }

  function HandleWrite(s: Conn, k: nat, ok: bool, react: nat -> Reaction): (s': Conn)
    requires Has(s, k)
    ensures WellFormed(s') && |s'.tasks| >= |s.tasks|
  {
    if ok then s else Destroy(FailWith(s, k, EC_TRANSPORT_ERROR, react(k + 1)), react)
  }

  /** Which wait of the task's timer fires, and how: the armed one, an old one queued with success, or an aborted one. */
  datatype TimerFire = Armed | Stale | Aborted

  function HandleTimeout(s: Conn, k: nat, how: TimerFire, react: nat -> Reaction): (s': Conn)
    requires Has(s, k)
    ensures WellFormed(s') && |s'.tasks| >= |s.tasks|
  {
    if how == Aborted then s
    else
      var s1 := if how == Armed then CancelTimer(s, k) else s;
      var s2 := FailWith(Erase(s1, s1.tasks[k].id), k, EC_RPC_TIMEOUT, react(k + 1));
      if s2.connecting then Destroy(s2, react) else s2
  }

  /* Steps and runs. */

  datatype Event =
    | Called(call: Call)
    | Resolved(k: nat, ok: bool, isOpen: bool, react: nat -> Reaction)
    | NextEndpoint(isOpen: bool)
    | Connected(k: nat, ok: bool, send: SendOutcome, granted: bool, react: nat -> Reaction)
    | HeaderRead(ok: bool, header: Header, granted: bool, react: nat -> Reaction)
    | PayloadRead(end: ReadEnd, rpc: Option<Response>, param: Option<Msg>, granted: bool, react: nat -> Reaction)
    | Written(k: nat, ok: bool, react: nat -> Reaction)
    | TimerFired(k: nat, how: TimerFire, react: nat -> Reaction)

  function HandlerOf(e: Event): Option<Handler> {
    match e
    case Resolved(k, _, _, _) => Some(Resolving(k))
    case Connected(k, _, _, _, _) => Some(Connecting(k))
    case HeaderRead(_, _, _, _) => Some(ReadingHeader)
    case PayloadRead(_, _, _, _, _) => Some(ReadingPayload)
    case Written(k, _, _) => Some(Writing(k))
    case TimerFired(k, _, _) => Some(Waiting(k))
    case _ => None
  }

  /** While `async_connect` tries endpoints it may close and reopen the socket. */
  ghost predicate Enabled(s: Conn, e: Event) {
    && (HandlerOf(e).Some? ==> HandlerOf(e).value in s.pending && TaskIndex(s, HandlerOf(e).value))
    && (e.NextEndpoint? ==> exists k :: Connecting(k) in s.pending)
    && (e.PayloadRead? && e.rpc.Some? ==> e.rpc.value.id.Some? && e.rpc.value.status.Some?)
    && (e.TimerFired? && e.how == Armed ==> s.tasks[e.k].armed)
    && (e.TimerFired? && e.how != Armed && s.tasks[e.k].armed ==> s.pending[Waiting(e.k)] >= 2)
  }

  function Step(s: Conn, e: Event): (s': Conn)
    requires WellFormed(s)
    requires HandlerOf(e).Some? ==> TaskIndex(s, HandlerOf(e).value)
    requires e.PayloadRead? && e.rpc.Some? ==> e.rpc.value.id.Some? && e.rpc.value.status.Some?
    ensures WellFormed(s') && |s'.tasks| >= |s.tasks|
  {
    var s1 := if HandlerOf(e).Some? then Fire(s, HandlerOf(e).value) else s;
    match e
    case Called(c) => Issue(s, c)
    case Resolved(k, ok, isOpen, react) => HandleResolve(s1, k, ok, isOpen, react)
    case NextEndpoint(isOpen) => s.(open := isOpen)
    case Connected(k, ok, send, granted, react) => HandleConnect(s1, k, ok, send, granted, react)
    case HeaderRead(ok, h, granted, react) => HandleReadHeader(s1, ok, h, granted, react)
    case PayloadRead(end, rpc, param, granted, react) => HandleReadPayload(s1, end, rpc, param, granted, react)
    case Written(k, ok, react) => HandleWrite(s1, k, ok, react)
    case TimerFired(k, how, react) => HandleTimeout(s1, k, how, react)
  }

  /** `es` is a run of the connection from `s` to `s'`. */
  ghost predicate Runs(s: Conn, es: seq<Event>, s': Conn)
    requires WellFormed(s)
    ensures Runs(s, es, s') ==> WellFormed(s')
    decreases |es|
  {
    if es == [] then s == s' else Enabled(s, es[0]) && Runs(Step(s, es[0]), es[1..], s')
  }
}
