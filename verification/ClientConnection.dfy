/**
 `RpcClientConnection` and `CarrotAsyncChannel`: `call_task` objects updated in
 place, the map of outgoing ones, and the one buffer that replies are read into.
 Each turn of the event loop is proved to be a step of the machine of
 `ClientModel`, of which the results of `ClientRuns` speak.
 */
module ClientConnection {
  import opened Wire
  import opened RpcMessages
  import opened RpcCodec
  import opened Frames
  import opened Buffers
  import M = ClientModel
  import opened ClientSafety
  import opened ClientRuns
  import opened Dispatch
  import opened CallPackets

  /** What the two parsers make of a reply whose bytes do not lie in the buffer: anything. */
  datatype WildReply = WildReply(rpc: Option<Response>, param: Option<M.Msg>)

  predicate SaneReply(w: WildReply) {
    w.rpc.Some? ==> ResponseInitialized(w.rpc.value)
  }

  /** What the event loop hands to the connection: a call, or the outcome behind a pending handler. */
  datatype Input =
    | Call(call: M.Call)
    | Resolve(task: CallTask, ok: bool, isOpen: bool, react: nat -> M.Reaction)
    | Endpoint(isOpen: bool)
    | Connect(task: CallTask, ok: bool, send: M.SendOutcome, granted: bool, react: nat -> M.Reaction)
    | Header(ok: bool, raw: bytes, granted: bool, react: nat -> M.Reaction)
    | Payload(end: M.ReadEnd, payload: bytes, wild: WildReply, granted: bool, react: nat -> M.Reaction)
    | Write(task: CallTask, ok: bool, react: nat -> M.Reaction)
    | Timeout(task: CallTask, how: M.TimerFire, react: nat -> M.Reaction)

  class RpcClientConnection {
    const cd: Codec
    var id_: nat
    var outgoing: map<nat, CallTask>
    var connecting: bool
    var socketOpen: bool
    /** `p_` and `size_` */
    const buf: PacketBuffer
    var n_: nat
    /** Every task ever issued. */
    ghost var tasks: seq<CallTask>
    /**
     The state of the machine: what the fields and the tasks hold, and what the code
     does not keep, the handlers that the event loop holds and the histories.
     */
    ghost var conn: M.Conn
    /** `start_call` did not come back from `expand_packet`; nothing is said of what comes after. */
    ghost var stuck: bool

    /** `task` is the one issued under its id. */
    ghost predicate Mine(task: CallTask)
      reads this
    {
      1 <= task.id <= |tasks| && tasks[task.id - 1] == task
    }

    ghost predicate Valid()
      reads this, tasks, buf
    {
      M.WellFormed(conn) && FieldsMirrored() && TasksMirrored(0) && Leads(outgoing, conn.outgoing, tasks) && Roomy()
    }

    ghost predicate FieldsMirrored()
      reads this
    {
      conn.id == id_ && conn.connecting == connecting && conn.open == socketOpen && conn.n == n_
    }

    /** The machine's tasks hold what the task objects hold, except for the one under the id `but`. */
    ghost predicate TasksMirrored(but: nat)
      reads this, tasks
    {
      && |conn.tasks| == |tasks|
      && forall k | 0 <= k < |tasks| :: tasks[k].id == k + 1 && (k + 1 != but ==> tasks[k].Value() == conn.tasks[k])
    }

    /** The buffer is never smaller than a header. */
    ghost predicate Roomy()
      reads buf
    {
      buf.Valid() && (buf.size == 0 ==> buf.p == null) && (buf.size == 0 || buf.size >= HEADER_SIZE)
    }

    /** Tasks are only added, as new objects; a thread that is stuck stays so. */
    twostate predicate Extends()
      reads this
    {
      && old(tasks) <= tasks && (forall k | |old(tasks)| <= k < |tasks| :: fresh(tasks[k]))
      && (old(stuck) ==> stuck)
    }

    constructor (cd: Codec)
      ensures Valid() && conn == M.FRESH && Inv(conn) && tasks == [] && fresh(buf) && buf.p == null && !stuck
      ensures this.cd == cd
    {
      this.cd := cd;
      id_, outgoing, connecting, socketOpen := 0, map[], false, false;
      buf := new PacketBuffer();
      n_, tasks, conn, stuck := 0, [], M.FRESH, false;
      new;
      FreshInv();
    }

    /* Small changes. */

    /** A field of `task` was updated. */
    ghost method Mirror(task: CallTask)
      requires M.WellFormed(conn) && FieldsMirrored() && TasksMirrored(task.id) && Leads(outgoing, conn.outgoing, tasks)
      requires Roomy() && Mine(task)
      modifies this`conn
      ensures Valid() && conn == M.SetTask(old(conn), task.id - 1, task.Value())
    {
      conn := M.SetTask(conn, task.id - 1, task.Value());
    }

    /** `task->controller->SetFailed` */
    method SetFailed(task: CallTask, code: M.ErrorCode)
      requires Valid() && Mine(task)
      modifies this`conn, task`code
      ensures Valid() && conn == M.SetFailed(old(conn), task.id - 1, code)
    {
      task.code := code;
      Mirror(task);
    }

    method SetCalled(task: CallTask)
      requires Valid() && Mine(task)
      modifies this`conn, task`called
      ensures Valid() && conn == M.SetTask(old(conn), task.id - 1, old(conn).tasks[task.id - 1].(called := true))
    {
      task.called := true;
      Mirror(task);
    }

    method SetResponse(task: CallTask, response: Option<M.Msg>)
      requires Valid() && Mine(task)
      modifies this`conn, task`response
      ensures Valid()
      ensures conn == M.SetTask(old(conn), task.id - 1, old(conn).tasks[task.id - 1].(response := response))
    {
      task.response := response;
      Mirror(task);
    }

    /** `task->timer.cancel` */
    method CancelTimer(task: CallTask)
      requires Valid() && Mine(task)
      modifies this`conn, task`armed
      ensures Valid() && conn == M.CancelTimer(old(conn), task.id - 1)
    {
      task.armed := false;
      Mirror(task);
    }

    method ArmTimer(task: CallTask)
      requires Valid() && Mine(task)
      modifies this`conn, task`armed
      ensures Valid() && conn == M.SetTask(old(conn), task.id - 1, old(conn).tasks[task.id - 1].(armed := true))
    {
      task.armed := true;
      Mirror(task);
    }

    /** `outgoing_tasks.erase` */
    method EraseTask(id: nat)
      requires Valid()
      modifies this`outgoing, this`conn
      ensures Valid() && conn == M.Erase(old(conn), id)
    {
      ghost var next := M.Erase(conn, id);
      LeadsErase(conn, outgoing, tasks, id);
      outgoing := outgoing - {id};
      conn := next;
    }

    /** `outgoing_tasks.insert` for a task about to be sent. */
    method EnterTask(task: CallTask)
      requires Valid() && Mine(task)
      modifies this`outgoing, this`conn
      ensures Valid() && conn == M.Enter(old(conn), task.id - 1)
    {
      ghost var next := M.Enter(conn, task.id - 1);
      LeadsEnter(conn, outgoing, tasks, task);
      if task.id !in outgoing {
        outgoing := outgoing[task.id := task];
      }
      conn := next;
    }

    /** What the event loop holds, or what was received, changes; the fields do not. */
    ghost method Recorded(next: M.Conn)
      requires Valid() && M.WellFormed(next)
      requires next == conn.(pending := next.pending, received := next.received, log := next.log)
      modifies this`conn
      ensures Valid() && conn == next
    {
      conn := next;
    }

    ghost method Note(a: M.Received)
      requires Valid()
      modifies this`conn
      ensures Valid() && conn == M.Note(old(conn), a)
    {
      Recorded(M.Note(conn, a));
    }

    ghost method Await(h: M.Handler)
      requires Valid() && M.TaskIndex(conn, h)
      modifies this`conn
      ensures Valid() && conn == M.Await(old(conn), h)
    {
      Recorded(M.Await(conn, h));
    }

    ghost method Fire(h: M.Handler)
      requires Valid()
      modifies this`conn
      ensures Valid() && conn == M.Fire(old(conn), h)
    {
      Recorded(M.Fire(conn, h));
    }

    method SetupTaskTimer(task: CallTask)
      requires Valid() && Mine(task)
      modifies this`conn, task`armed
      ensures Valid() && conn == M.SetTimer(old(conn), task.id - 1)
    {
      if task.timeout != M.TIMEOUT_NEVER {
        Rearm(task);
        Await(M.Waiting(task.id - 1));
      }
    }

    /** The old wait is cancelled, and a new one armed. */
    method Rearm(task: CallTask)
      requires Valid() && Mine(task)
      modifies this`conn, task`armed
      ensures Valid() && conn == M.SetTask(old(conn), task.id - 1, old(conn).tasks[task.id - 1].(armed := true))
    {
      TimerRearmed(conn, task.id - 1);
      CancelTimer(task);
      ArmTimer(task);
    }

    /* Callbacks, and the calls they issue. */

    /** What the callback of `task` finds. */
    ghost method Log(task: CallTask)
      requires Valid() && Mine(task)
      modifies this`conn
      ensures Valid() && conn == Entered(old(conn), task.id - 1)
    {
      Recorded(conn.(log := conn.log + [M.Completion(task.id - 1, task.code, task.response)]));
    }

    /** `done->Run()`: the callback issues its calls, and may throw afterwards. */
    method RunDone(task: CallTask, r: M.Reaction)
      requires Valid() && Mine(task)
      modifies this, task`code
      ensures Valid() && Extends() && conn == M.RunDone(old(conn), task.id - 1, r)
      decreases r, 1
    {
      Log(task);
      IssueCalls(r.calls);
      if r.throws {
        SetFailed(task, M.EC_FAILED);
      }
    }

    method IssueCalls(calls: seq<M.Call>)
      requires Valid()
      modifies this
      ensures Valid() && Extends() && conn == M.IssueAll(old(conn), calls)
      decreases calls, 0
    {
      var i := 0;
      while i < |calls|
        invariant 0 <= i <= |calls| && Valid() && Extends()
        invariant M.IssueAll(conn, calls[i..]) == M.IssueAll(old(conn), calls)
      {
        assert calls[i..][1..] == calls[i + 1..];
        Issue(calls[i]);
        i := i + 1;
      }
    }

    /** `if (!task->called) { done->Run(); called = true; }` */
    method Complete(task: CallTask, r: M.Reaction)
      requires Valid() && Mine(task)
      modifies this, task`code, task`called
      ensures Valid() && Extends() && conn == M.Complete(old(conn), task.id - 1, r)
      decreases r, 2
    {
      if !task.called {
        RunDone(task, r);
        SetCalled(task);
      }
    }

    method FinishTask(task: CallTask, r: M.Reaction)
      requires Valid() && Mine(task)
      modifies this, task`armed, task`code, task`called
      ensures Valid() && Extends() && conn == M.Finish(old(conn), task.id - 1, r)
      decreases r, 3, 0
    {
      CancelTimer(task);
      Complete(task, r);
    }

    /** `start_call`: the packet is built in the task, and sent unless that failed. It is stuck if the packet is too long. */
    method StartCall(task: CallTask, send: M.SendOutcome, r: M.Reaction)
      requires Valid() && Mine(task)
      modifies this, task
      ensures Valid() && Extends() && conn == M.StartCall(old(conn), task.id - 1, send, r)
      ensures stuck || task.packet != null
      decreases r, 4
    {
      Prepare(task, send);
      SendPacket(task, send, r);
    }

    /** `start_call` up to the write: the packet holds the frame of the call. */
    method Prepare(task: CallTask, send: M.SendOutcome)
      requires Valid() && Mine(task)
      modifies this`stuck, task`packet
      ensures Valid() && stuck == (old(stuck) || !task.Light(cd)) && (stuck || task.packet != null)
      ensures send == M.Sends && task.Light(cd) ==> task.packet != null
      ensures send == M.Sends && task.Light(cd) ==> Holds(task.packet, CallFrame(cd, task.AsIssued()))
    {
      var returned := task.BuildPacket(cd, send);
      stuck := stuck || !returned;
    }

    /** The rest of `start_call`. */
    method SendPacket(task: CallTask, send: M.SendOutcome, r: M.Reaction)
      requires Valid() && Mine(task)
      modifies this, task`armed, task`code, task`called
      ensures Valid() && Extends() && conn == M.StartCall(old(conn), task.id - 1, send, r)
      ensures send == M.Sends ==> stuck == old(stuck)
      decreases r, 3, 2
    {
      match send {
        case NoMemory => FailCall(task, M.EC_OOM, r);
        case MetaUnprintable => FailCall(task, M.EC_SERIALIZATION_ERROR, r);
        case ParamUnprintable => FailCall(task, M.EC_SERIALIZATION_ERROR, r);
        case Sends => Transmit(task);
      }
    }

    method FailCall(task: CallTask, code: M.ErrorCode, r: M.Reaction)
      requires Valid() && Mine(task)
      modifies this, task`armed, task`code, task`called
      ensures Valid() && Extends()
      ensures conn == M.Finish(M.SetFailed(old(conn), task.id - 1, code), task.id - 1, r)
      decreases r, 3, 1
    {
      SetFailed(task, code);
      FinishTask(task, r);
    }

    /** The end of `start_call`: the call enters `outgoing_tasks` and its packet is handed to `async_write`. */
    method Transmit(task: CallTask)
      requires Valid() && Mine(task)
      modifies this`outgoing, this`conn, task`armed
      ensures Valid() && conn == M.Transmit(old(conn), task.id - 1)
    {
      EnterTask(task);
      SetupTaskTimer(task);
      Await(M.Writing(task.id - 1));
    }

    method Issue(c: M.Call)
      requires Valid()
      modifies this
      ensures Valid() && Extends() && conn == M.Issue(old(conn), c)
      decreases c, 5
    {
      var task := NewTask(c);
      Begin(task, c);
    }

    /** The new task resolves, or is sent if the socket is open. */
    method Begin(task: CallTask, c: M.Call)
      requires Valid() && Mine(task)
      modifies this, task
      ensures Valid() && Extends() && conn == Begun(old(conn), task.id - 1, c)
      decreases c, 4
    {
      if !socketOpen {
        StartResolve(task);
      } else {
        StartCall(task, c.send, c.reaction);
      }
    }

    method NewTask(c: M.Call) returns (task: CallTask)
      requires Valid()
      modifies this`id_, this`tasks, this`conn
      ensures Valid() && conn == M.AddTask(old(conn), c)
      ensures fresh(task) && Mine(task) && tasks == old(tasks) + [task]
    {
      ghost var next := M.AddTask(conn, c);
      task := new CallTask(id_ + 1, c);
      LeadsMore(conn, outgoing, tasks, task, c);
      id_ := id_ + 1;
      tasks := tasks + [task];
      conn := next;
    }

    method StartResolve(task: CallTask)
      requires Valid() && Mine(task)
      modifies this`conn, this`connecting, task`armed
      ensures Valid() && conn == M.StartResolve(old(conn), task.id - 1)
    {
      Await(M.Resolving(task.id - 1));
      SetConnecting(true);
      SetupTaskTimer(task);
    }

    method SetConnecting(value: bool)
      requires Valid()
      modifies this`connecting, this`conn
      ensures Valid() && conn == old(conn).(connecting := value)
    {
      ghost var next := conn.(connecting := value);
      StillGood(conn, next);
      connecting := value;
      conn := next;
    }

    /** The block `if (!task->called) { SetFailed; Run; called = true; }` of every failure site. */
    method FailTask(task: CallTask, code: M.ErrorCode, r: M.Reaction)
      requires Valid() && Mine(task)
      modifies this, task`code, task`called
      ensures Valid() && Extends() && conn == M.FailWith(old(conn), task.id - 1, code, r)
    {
      if !task.called {
        SetFailed(task, code);
        Complete(task, r);
      }
    }

    /* destroy */

    method Destroy(react: nat -> M.Reaction)
      requires Valid()
      modifies this, tasks
      ensures Valid() && Extends() && conn == M.Destroy(old(conn), react)
    {
      CloseTasks(react);
      ClearTasks();
    }

    method CloseTasks(react: nat -> M.Reaction)
      requires Valid()
      modifies this, tasks
      ensures Valid() && Extends() && conn == M.DestroyTasks(M.CloseSocket(old(conn)), 0, old(conn).id, react)
    {
      CloseSocket();
      DestroyTasks(id_, react, M.DestroyTasks(conn, 0, id_, react));
    }

    method CloseSocket()
      requires Valid()
      modifies this`socketOpen, this`conn
      ensures Valid() && conn == M.CloseSocket(old(conn))
    {
      ghost var next := M.CloseSocket(conn);
      StillGood(conn, next);
      socketOpen := false;
      conn := next;
    }

    /** `outgoing_tasks.clear` */
    method ClearTasks()
      requires Valid()
      modifies this`outgoing, this`conn
      ensures Valid() && conn == old(conn).(outgoing := map[])
    {
      ghost var next := conn.(outgoing := map[]);
      NothingLeads(conn, tasks);
      outgoing := map[];
      conn := next;
    }

    method DestroyTasks(last: nat, react: nat -> M.Reaction, ghost goal: M.Conn)
      requires Valid() && goal == M.DestroyTasks(conn, 0, last, react)
      modifies this, tasks
      ensures Valid() && Extends() && conn == goal
    {
      var key := 0;
      while key <= last
        invariant Valid() && Extends() && key <= last + 1
        invariant M.DestroyTasks(conn, key, last, react) == goal
        decreases last + 1 - key
      {
        DestroyNext(key, last, react, goal);
        key := key + 1;
      }
    }

    /** One turn of the loop; `goal` is where the loop ends. */
    method DestroyNext(key: nat, ghost last: nat, react: nat -> M.Reaction, ghost goal: M.Conn)
      requires Valid() && key <= last && M.DestroyTasks(conn, key, last, react) == goal
      modifies this, tasks
      ensures Valid() && Extends() && M.DestroyTasks(conn, key + 1, last, react) == goal
    {
      DestroyKey(key, react);
    }

    method DestroyKey(key: nat, react: nat -> M.Reaction)
      requires Valid()
      modifies this, tasks
      ensures Valid() && Extends() && conn == M.DestroyKey(old(conn), key, react)
    {
      WaitingTask(conn, outgoing, tasks, key);
      if key in outgoing {
        DestroyTask(outgoing[key], react(key));
      }
    }

    method DestroyTask(task: CallTask, r: M.Reaction)
      requires Valid() && Mine(task)
      modifies this, task
      ensures Valid() && Extends() && conn == M.DestroyTask(old(conn), task.id - 1, r)
    {
      CancelTimer(task);
      FailTask(task, M.EC_FAILED, r);
    }

    /** The end of the resolve, connect and write handlers on an error. */
    method FailAndDestroy(task: CallTask, code: M.ErrorCode, react: nat -> M.Reaction)
      requires Valid() && Mine(task)
      modifies this, tasks
      ensures Valid() && Extends()
      ensures conn == M.Destroy(M.FailWith(old(conn), task.id - 1, code, react(task.id)), react)
    {
      FailTask(task, code, react(task.id));
      Destroy(react);
    }

    /* The handlers. */

    /** `expand_packet` on the connection's buffer gives `n` bytes, if `realloc` answers `granted`. */
    ghost predicate Grants(n: uint32, granted: bool)
      reads buf
    {
      granted || !buf.Needs(n)
    }

    method RoomForHeader(granted: bool) returns (ok: bool)
      requires Valid()
      modifies buf
      ensures Valid() && ok == old(Grants(HEADER_SIZE, granted))
    {
      var r := buf.Expand(HEADER_SIZE, granted);
      ok := r.Ready?;
    }

    method StartRead(granted: bool, react: nat -> M.Reaction)
      requires Valid()
      modifies this, tasks, buf
      ensures Valid() && Extends() && conn == M.StartRead(old(conn), old(Grants(HEADER_SIZE, granted)), react)
    {
      var ok := RoomForHeader(granted);
      if ok {
        Await(M.ReadingHeader);
      } else {
        Destroy(react);
      }
    }

    method HandleResolve(task: CallTask, ok: bool, isOpen: bool, react: nat -> M.Reaction)
      requires Valid() && Mine(task)
      modifies this, tasks
      ensures Valid() && Extends()
      ensures var k := task.id - 1;
        conn == M.HandleResolve(M.Fire(old(conn), M.Resolving(k)), k, ok, isOpen, react)
    {
      Fire(M.Resolving(task.id - 1));
      if ok {
        StartConnect(task, isOpen);
      } else {
        FailAndDestroy(task, M.EC_ERROR, react);
      }
    }

    method StartConnect(task: CallTask, isOpen: bool)
      requires Valid() && Mine(task)
      modifies this`conn, this`socketOpen
      ensures Valid() && conn == M.Await(old(conn), M.Connecting(task.id - 1)).(open := isOpen)
    {
      Await(M.Connecting(task.id - 1));
      SetOpen(isOpen);
    }

    method HandleConnect(task: CallTask, ok: bool, send: M.SendOutcome, granted: bool, react: nat -> M.Reaction)
      requires Valid() && Mine(task)
      modifies this, tasks, buf
      ensures Valid() && Extends()
      ensures var k := task.id - 1;
        conn == M.HandleConnect(M.Fire(old(conn), M.Connecting(k)), k, ok, send, old(Grants(HEADER_SIZE, granted)), react)
    {
      Fire(M.Connecting(task.id - 1));
      Connected(task, ok, send, granted, react);
    }

    method Connected(task: CallTask, ok: bool, send: M.SendOutcome, granted: bool, react: nat -> M.Reaction)
      requires Valid() && Mine(task)
      modifies this, tasks, buf
      ensures Valid() && Extends()
      ensures conn == M.HandleConnect(old(conn), task.id - 1, ok, send, old(Grants(HEADER_SIZE, granted)), react)
    {
      if ok {
        CallConnected(task, send, react(task.id));
        StartRead(granted, react);
      } else {
        FailAndDestroy(task, M.EC_CONNECTION_FAILED, react);
      }
    }

    method CallConnected(task: CallTask, send: M.SendOutcome, r: M.Reaction)
      requires Valid() && Mine(task)
      modifies this, task
      ensures Valid() && Extends()
      ensures conn == M.StartCall(old(conn).(connecting := false), task.id - 1, send, r)
    {
      SetConnecting(false);
      StartCall(task, send, r);
    }

    /** The header lands in the buffer and is converted there; `n_` is the sum of its lengths in 32 bits. */
    method TakeHeader(raw: bytes)
      requires Valid() && buf.p != null && |raw| == HEADER_SIZE
      modifies this`n_, this`conn, buf.p
      ensures Valid() && conn == M.TakeHeader(old(conn), ReadHeader(raw))
      ensures HeaderIn() == ReadHeader(raw)
    {
      var h := LandHeader(buf.p, raw);
      SetHeader(h, (h.rpcLen + h.reqLen + h.respLen) % TWO32);
    }

    method SetHeader(ghost h: Frames.Header, n: nat)
      requires Valid() && n == PayloadLength(h)
      modifies this`n_, this`conn
      ensures Valid() && conn == M.TakeHeader(old(conn), h)
    {
      ghost var next := M.TakeHeader(conn, h);
      StillGood(conn, next);
      n_ := n;
      conn := next;
    }

    /** What the buffer's first bytes say, in host order. */
    ghost function HeaderIn(): Frames.Header
      requires buf.p != null && Roomy()
      reads buf, buf.p
    {
      FromMemory(buf.p[..HEADER_SIZE])
    }

    /** The buffer starts with the header `h`, and has room for what it announces. */
    ghost predicate Landed(h: Frames.Header)
      requires Roomy()
      reads buf, buf.p
    {
      buf.p != null && buf.p.Length >= Wanted(h) && HeaderIn() == h
    }

    /** The header of the payload being read is the one in the buffer. */
    ghost predicate InPlace()
      requires Roomy()
      reads this, buf, buf.p
    {
      M.ReadingPayload in conn.pending ==> Landed(conn.header)
    }

    /** The buffer is the same, and its bytes. */
    twostate predicate SameBuffer()
      reads this, buf, buf.p
    {
      buf.p == old(buf.p) && buf.size == old(buf.size) && (buf.p != null ==> buf.p[..] == old(buf.p[..]))
    }

    /** The size `handle_read_header` asks `expand_packet` for, in 32 bits. */
    function Wanted(h: Frames.Header): uint32 {
      (PayloadLength(h) + HEADER_SIZE) % TWO32
    }

    /**
     `raw` is what the read put at the front of the buffer. The handler does not
     return if `expand_packet` does not, or if there is no buffer: another read may
     have lost it.
     */
    method HandleReadHeader(ok: bool, raw: bytes, granted: bool, react: nat -> M.Reaction) returns (returned: bool)
      requires Valid() && |raw| == HEADER_SIZE
      modifies this, tasks, buf, buf.p
      ensures returned <==> (ok ==> old(buf.p) != null && Wanted(ReadHeader(raw)) <= TWO31)
      ensures returned ==> Valid() && Extends()
      ensures returned ==>
        conn == M.HandleReadHeader(M.Fire(old(conn), M.ReadingHeader), ok, ReadHeader(raw),
                                   old(Grants(Wanted(ReadHeader(raw)), granted)), react)
      ensures returned && ok && buf.p != null ==> HeaderIn() == ReadHeader(raw)
      ensures returned && ok && old(Grants(Wanted(ReadHeader(raw)), granted)) ==> Landed(ReadHeader(raw))
    {
      if ok && (buf.p == null || Wanted(ReadHeader(raw)) > TWO31) {
        return false;
      }
      Fire(M.ReadingHeader);
      if ok {
        HeaderRead(raw, granted, react);
      } else {
        Destroy(react);
      }
      return true;
    }

    method HeaderRead(raw: bytes, granted: bool, react: nat -> M.Reaction)
      requires Valid() && buf.p != null && |raw| == HEADER_SIZE && Wanted(ReadHeader(raw)) <= TWO31
      modifies this, tasks, buf, buf.p
      ensures Valid() && Extends()
      ensures var h := ReadHeader(raw);
        conn == M.HandleReadHeader(old(conn), true, h, old(Grants(Wanted(h), granted)), react)
      ensures buf.p != null ==> HeaderIn() == ReadHeader(raw)
      ensures old(Grants(Wanted(ReadHeader(raw)), granted)) ==> Landed(ReadHeader(raw))
    {
      TakeHeader(raw);
      StartPayload(granted, react);
    }

    method StartPayload(granted: bool, react: nat -> M.Reaction)
      requires Valid() && buf.p != null && n_ == PayloadLength(conn.header) && (n_ + HEADER_SIZE) % TWO32 <= TWO31
      modifies this, tasks, buf
      ensures Valid() && Extends()
      ensures conn == if old(Grants((n_ + HEADER_SIZE) % TWO32, granted))
        then M.Await(old(conn), M.ReadingPayload) else M.Destroy(old(conn), react)
      ensures buf.p != null ==> HeaderIn() == old(HeaderIn())
      ensures old(Grants((n_ + HEADER_SIZE) % TWO32, granted)) ==> buf.p != null && buf.p.Length >= (old(n_) + HEADER_SIZE) % TWO32
    {
      ghost var was := buf.p[..];
      var r := buf.Expand((n_ + HEADER_SIZE) % TWO32, granted);
      if r.Ready? {
        assert buf.p[..HEADER_SIZE] == was[..HEADER_SIZE];
        Await(M.ReadingPayload);
      } else {
        Destroy(react);
      }
    }

    /** The payload is all there, between the lengths that the buffer's header gives it. */
    ghost predicate Lies(payload: bytes)
      requires Roomy()
      reads buf, buf.p
    {
      && buf.p != null && buf.p.Length >= HEADER_SIZE + |payload|
      && Total(HeaderIn()) == HEADER_SIZE + |payload|
    }

    /** The metadata and the response parameter of a reply; a request parameter is not expected between them. */
    ghost function ReplyIn(payload: bytes): Option<(bytes, bytes)>
      requires Roomy()
      reads buf, buf.p
    {
      if !Lies(payload) then None
      else
        var h := HeaderIn();
        Some((payload[..h.rpcLen], payload[h.rpcLen..h.rpcLen + h.respLen]))
    }

    ghost function RpcSeen(payload: bytes, wild: WildReply): (rpc: Option<Response>)
      requires Roomy() && SaneReply(wild)
      reads buf, buf.p
      ensures rpc.Some? ==> ResponseInitialized(rpc.value)
    {
      match ReplyIn(payload)
      case None => wild.rpc
      case Some(parts) => ParseResponse(parts.0)
    }

    ghost function ParamSeen(payload: bytes, wild: WildReply): Option<M.Msg>
      requires Roomy()
      reads buf, buf.p
    {
      match ReplyIn(payload)
      case None => wild.param
      case Some(parts) => cd.decode(parts.1)
    }

    /** The payload lands behind the header, and its two parts are found where the header says. */
    method CutReply(payload: bytes) returns (parts: Option<(bytes, bytes)>)
      requires Roomy()
      modifies buf.p
      ensures Roomy() && parts == old(ReplyIn(payload))
    {
      if buf.p == null || buf.p.Length < HEADER_SIZE + |payload| {
        return None;
      }
      CopyInto(buf.p, HEADER_SIZE, payload);
      var h := FromMemory(buf.p[..HEADER_SIZE]);
      if Total(h) != HEADER_SIZE + |payload| {
        return None;
      }
      var data := buf.p[HEADER_SIZE..HEADER_SIZE + |payload|];
      return Some((data[..h.rpcLen], data[h.rpcLen..h.rpcLen + h.respLen]));
    }

    method ParseReply(payload: bytes, wild: WildReply) returns (rpc: Option<Response>, param: Option<M.Msg>)
      requires Roomy() && SaneReply(wild)
      modifies buf.p
      ensures Roomy() && rpc == old(RpcSeen(payload, wild)) && param == old(ParamSeen(payload, wild))
    {
      var parts := CutReply(payload);
      match parts {
        case None => rpc, param := wild.rpc, wild.param;
        case Some(ps) => rpc, param := ParseResponse(ps.0), cd.decode(ps.1);
      }
    }

    method HandleReadPayload(end: M.ReadEnd, payload: bytes, wild: WildReply, granted: bool, react: nat -> M.Reaction)
      requires Valid() && SaneReply(wild)
      modifies this, tasks, buf, buf.p
      ensures Valid() && Extends()
      ensures conn == M.HandleReadPayload(M.Fire(old(conn), M.ReadingPayload), end, old(RpcSeen(payload, wild)),
                                          old(ParamSeen(payload, wild)), old(Grants(HEADER_SIZE, granted)), react)
    {
      var rpc, param := ParseReply(payload, wild);
      Fire(M.ReadingPayload);
      PayloadRead(end, rpc, param, granted, react);
    }

    /** The parse only counts if the payload was read in full. */
    method PayloadRead(end: M.ReadEnd, rpc: Option<Response>, param: Option<M.Msg>, granted: bool, react: nat -> M.Reaction)
      requires Valid() && (rpc.Some? ==> rpc.value.id.Some? && rpc.value.status.Some?)
      modifies this, tasks, buf
      ensures Valid() && Extends()
      ensures conn == M.HandleReadPayload(old(conn), end, rpc, param, old(Grants(HEADER_SIZE, granted)), react)
    {
      if end.NoError? || (end.Eof? && end.transferred == n_) {
        if rpc.None? {
          Destroy(react);
          return;
        }
        TakeResponse(rpc.value.id.value, rpc.value.status.value, param, granted, react);
      } else {
        Destroy(react);
      }
    }

    method TakeResponse(id: uint64, st: Status, param: Option<M.Msg>, granted: bool, react: nat -> M.Reaction)
      requires Valid()
      modifies this, tasks, buf
      ensures Valid() && Extends()
      ensures conn == M.TakeResponse(old(conn), id, st, param, old(Grants(HEADER_SIZE, granted)), react)
    {
      Note(M.Received(id, st, param));
      Deliver(id, st, param, granted, react);
    }

    method Deliver(id: uint64, st: Status, param: Option<M.Msg>, granted: bool, react: nat -> M.Reaction)
      requires Valid()
      modifies this, tasks, buf
      ensures Valid() && Extends()
      ensures conn == if id !in old(conn).outgoing then M.StartRead(old(conn), old(Grants(HEADER_SIZE, granted)), react)
        else M.Answer(old(conn), old(conn).outgoing[id], st, param, old(Grants(HEADER_SIZE, granted)), react)
    {
      WaitingTask(conn, outgoing, tasks, id);
      if id !in outgoing {
        StartRead(granted, react);
      } else {
        AnswerTask(outgoing[id], conn.outgoing[id], st, param, granted, react);
      }
    }

    method AnswerTask(task: CallTask, ghost k: nat, st: Status, param: Option<M.Msg>, granted: bool, react: nat -> M.Reaction)
      requires Valid() && Mine(task) && k == task.id - 1
      modifies this, tasks, buf
      ensures Valid() && Extends()
      ensures conn == M.Answer(old(conn), k, st, param, old(Grants(HEADER_SIZE, granted)), react)
    {
      TakeAnswer(task, k, st, param);
      ReadOn(task, k, granted, react);
    }

    /** The next read starts, and only then the call is finished. */
    method ReadOn(task: CallTask, ghost k: nat, granted: bool, react: nat -> M.Reaction)
      requires Valid() && Mine(task) && k == task.id - 1
      modifies this, tasks, buf
      ensures Valid() && Extends()
      ensures conn == M.ReadOn(old(conn), k, old(Grants(HEADER_SIZE, granted)), react)
    {
      var ok := RoomForHeader(granted);
      if ok {
        FinishAnswer(task, react(task.id));
      } else {
        Destroy(react);
      }
    }

    method FinishAnswer(task: CallTask, r: M.Reaction)
      requires Valid() && Mine(task)
      modifies this, task
      ensures Valid() && Extends()
      ensures conn == M.Finish(M.Erase(M.Await(old(conn), M.ReadingHeader), task.id), task.id - 1, r)
    {
      Await(M.ReadingHeader);
      EraseTask(task.id);
      FinishTask(task, r);
    }

    /** The status switch and the parse of the parameter. */
    method TakeAnswer(task: CallTask, ghost k: nat, st: Status, param: Option<M.Msg>)
      requires Valid() && Mine(task) && k == task.id - 1
      modifies this`conn, task`code, task`response
      ensures Valid() && conn == M.TakeAnswer(old(conn), k, st, param)
    {
      JudgeStatus(task, st);
      TakeParam(task, k, param);
    }

    method TakeParam(task: CallTask, ghost k: nat, param: Option<M.Msg>)
      requires Valid() && Mine(task) && k == task.id - 1
      modifies this`conn, task`code, task`response
      ensures Valid()
      ensures conn == if param.None? then M.SetFailed(old(conn), k, M.EC_SERIALIZATION_ERROR)
        else M.SetTask(old(conn), k, old(conn).tasks[k].(response := param))
    {
      if param.None? {
        SetFailed(task, M.EC_SERIALIZATION_ERROR);
      } else {
        SetResponse(task, param);
      }
    }

    method JudgeStatus(task: CallTask, st: Status)
      requires Valid() && Mine(task)
      modifies this`conn, task`code
      ensures Valid() && conn == M.JudgeStatus(old(conn), task.id - 1, st)
    {
      match st {
        case NOT_FOUND => SetFailed(task, M.EC_METHOD_NOT_FOUND);
        case ERROR => SetFailed(task, M.EC_ERROR);
        case FAILED => SetFailed(task, M.EC_FAILED);
        case SUCCESS =>
      }
    }

    method HandleWrite(task: CallTask, ok: bool, react: nat -> M.Reaction)
      requires Valid() && Mine(task)
      modifies this, tasks
      ensures Valid() && Extends()
      ensures conn == M.HandleWrite(M.Fire(old(conn), M.Writing(task.id - 1)), task.id - 1, ok, react)
    {
      Fire(M.Writing(task.id - 1));
      if !ok {
        FailAndDestroy(task, M.EC_TRANSPORT_ERROR, react);
      }
    }

    method HandleTimeout(task: CallTask, how: M.TimerFire, react: nat -> M.Reaction)
      requires Valid() && Mine(task)
      modifies this, tasks
      ensures Valid() && Extends()
      ensures conn == M.HandleTimeout(M.Fire(old(conn), M.Waiting(task.id - 1)), task.id - 1, how, react)
    {
      Fire(M.Waiting(task.id - 1));
      if how != M.Aborted {
        TimeOut(task, how, react);
      }
    }

    method TimeOut(task: CallTask, how: M.TimerFire, react: nat -> M.Reaction)
      requires Valid() && Mine(task) && how != M.Aborted
      modifies this, tasks
      ensures Valid() && Extends() && conn == M.HandleTimeout(old(conn), task.id - 1, how, react)
    {
      Forget(task, how);
      FailTask(task, M.EC_RPC_TIMEOUT, react(task.id));
      GiveUp(react);
    }

    method GiveUp(react: nat -> M.Reaction)
      requires Valid()
      modifies this, tasks
      ensures Valid() && Extends()
      ensures conn == if old(conn).connecting then M.Destroy(old(conn), react) else old(conn)
    {
      if connecting {
        Destroy(react);
      }
    }

    /** The timer is not armed any more, and the call not outgoing. */
    method Forget(task: CallTask, how: M.TimerFire)
      requires Valid() && Mine(task)
      modifies this, task`armed
      ensures Valid() && Extends() && conn == TimedOut(old(conn), task.id - 1, how)
    {
      if how == M.Armed {
        CancelTimer(task);
      }
      EraseTask(task.id);
    }

    /* One turn of the event loop. */

    /** The machine's event that an input amounts to. */
    ghost function EventOf(i: Input): M.Event
      requires Roomy() && (i.Header? ==> |i.raw| == HEADER_SIZE) && (i.Payload? ==> SaneReply(i.wild))
      requires i.Resolve? || i.Connect? || i.Write? || i.Timeout? ==> i.task.id >= 1
      reads buf, buf.p
    {
      match i
      case Call(c) => M.Called(c)
      case Resolve(task, ok, isOpen, react) => M.Resolved(task.id - 1, ok, isOpen, react)
      case Endpoint(isOpen) => M.NextEndpoint(isOpen)
      case Connect(task, ok, send, granted, react) =>
        M.Connected(task.id - 1, ok, send, Grants(HEADER_SIZE, granted), react)
      case Header(ok, raw, granted, react) =>
        M.HeaderRead(ok, ReadHeader(raw), Grants(Wanted(ReadHeader(raw)), granted), react)
      case Payload(end, payload, wild, granted, react) =>
        M.PayloadRead(end, RpcSeen(payload, wild), ParamSeen(payload, wild), Grants(HEADER_SIZE, granted), react)
      case Write(task, ok, react) => M.Written(task.id - 1, ok, react)
      case Timeout(task, how, react) => M.TimerFired(task.id - 1, how, react)
    }

    ghost predicate InputFits(i: Input)
      reads this
    {
      && (i.Resolve? || i.Connect? || i.Write? || i.Timeout? ==> Mine(i.task))
      && (i.Header? ==> |i.raw| == HEADER_SIZE)
      && (i.Payload? ==> SaneReply(i.wild))
    }

    method ResolveTurn(task: CallTask, ok: bool, isOpen: bool, react: nat -> M.Reaction, ghost k: nat, ghost e: M.Event)
      requires Valid() && Mine(task) && k == task.id - 1 && e == M.Resolved(k, ok, isOpen, react)
      modifies this, tasks
      ensures Valid() && Extends() && conn == M.Step(old(conn), e)
    {
      HandleResolve(task, ok, isOpen, react);
    }

    method ConnectTurn(task: CallTask, ok: bool, send: M.SendOutcome, granted: bool, react: nat -> M.Reaction, ghost k: nat,
                       ghost e: M.Event)
      requires Valid() && Mine(task) && k == task.id - 1
      requires e == M.Connected(k, ok, send, Grants(HEADER_SIZE, granted), react)
      modifies this, tasks, buf
      ensures Valid() && Extends() && conn == M.Step(old(conn), e)
    {
      HandleConnect(task, ok, send, granted, react);
    }

    method WriteTurn(task: CallTask, ok: bool, react: nat -> M.Reaction, ghost k: nat, ghost e: M.Event)
      requires Valid() && Mine(task) && k == task.id - 1 && e == M.Written(k, ok, react)
      modifies this, tasks
      ensures Valid() && Extends() && conn == M.Step(old(conn), e)
    {
      HandleWrite(task, ok, react);
    }

    method TimeoutTurn(task: CallTask, how: M.TimerFire, react: nat -> M.Reaction, ghost k: nat, ghost e: M.Event)
      requires Valid() && Mine(task) && k == task.id - 1 && e == M.TimerFired(k, how, react)
      modifies this, tasks
      ensures Valid() && Extends() && conn == M.Step(old(conn), e)
    {
      HandleTimeout(task, how, react);
    }

    method HeaderTurn(ok: bool, raw: bytes, granted: bool, react: nat -> M.Reaction, ghost e: M.Event) returns (returned: bool)
      requires Valid() && |raw| == HEADER_SIZE
      requires e == M.HeaderRead(ok, ReadHeader(raw), Grants(Wanted(ReadHeader(raw)), granted), react)
      modifies this, tasks, buf, buf.p
      ensures returned <==> (ok ==> old(buf.p) != null && Wanted(ReadHeader(raw)) <= TWO31)
      ensures returned ==> Valid() && Extends() && conn == M.Step(old(conn), e)
      ensures returned && ok && e.granted ==> Landed(ReadHeader(raw))
    {
      returned := HandleReadHeader(ok, raw, granted, react);
    }

    method PayloadTurn(end: M.ReadEnd, payload: bytes, wild: WildReply, granted: bool, react: nat -> M.Reaction, ghost e: M.Event)
      requires Valid() && SaneReply(wild)
      requires e == M.PayloadRead(end, RpcSeen(payload, wild), ParamSeen(payload, wild), Grants(HEADER_SIZE, granted), react)
      modifies this, tasks, buf, buf.p
      ensures Valid() && Extends() && conn == M.Step(old(conn), e)
    {
      HandleReadPayload(end, payload, wild, granted, react);
    }

    method ReadTurn(i: Input, ghost e: M.Event) returns (returned: bool)
      requires Valid() && InputFits(i) && e == EventOf(i) && (i.Header? || i.Payload?)
      modifies this, tasks, buf, buf.p
      ensures returned <==> !old(Loops(i))
      ensures returned ==> Valid() && Extends() && conn == M.Step(old(conn), e)
      ensures returned && e.HeaderRead? && e.ok && e.granted ==> Landed(e.header)
    {
      returned := true;
      match i {
        case Header(ok, raw, granted, react) => returned := HeaderTurn(ok, raw, granted, react, e);
        case Payload(end, payload, wild, granted, react) => PayloadTurn(end, payload, wild, granted, react, e);
      }
    }

    /** The header handler does not come back: `expand_packet` loops, or there is no buffer. */
    ghost predicate Loops(i: Input)
      requires i.Header? ==> |i.raw| == HEADER_SIZE
      reads buf
    {
      i.Header? && i.ok && (buf.p == null || Wanted(ReadHeader(i.raw)) > TWO31)
    }

    method SetOpen(isOpen: bool)
      requires Valid()
      modifies this`socketOpen, this`conn
      ensures Valid() && conn == old(conn).(open := isOpen)
    {
      ghost var next := conn.(open := isOpen);
      StillGood(conn, next);
      socketOpen := isOpen;
      conn := next;
    }

    method TaskTurn(i: Input, ghost e: M.Event)
      requires Valid() && InputFits(i) && e == EventOf(i) && (i.Resolve? || i.Connect? || i.Write? || i.Timeout?)
      modifies this, tasks, buf
      ensures Valid() && Extends() && conn == M.Step(old(conn), e)
      ensures !i.Connect? ==> buf.p == old(buf.p) && buf.size == old(buf.size)
    {
      match i {
        case Resolve(task, ok, isOpen, react) => ResolveTurn(task, ok, isOpen, react, task.id - 1, e);
        case Connect(task, ok, send, granted, react) => ConnectTurn(task, ok, send, granted, react, task.id - 1, e);
        case Write(task, ok, react) => WriteTurn(task, ok, react, task.id - 1, e);
        case Timeout(task, how, react) => TimeoutTurn(task, how, react, task.id - 1, e);
      }
    }

    method PlainTurn(i: Input, ghost e: M.Event)
      requires Valid() && InputFits(i) && e == EventOf(i) && (i.Call? || i.Endpoint?)
      modifies this
      ensures Valid() && Extends() && conn == M.Step(old(conn), e)
    {
      match i {
        case Call(c) => Issue(c);
        case Endpoint(isOpen) => SetOpen(isOpen);
      }
    }

    /**
     A turn that returns is a step of the machine, and the invariant holds after it.
     It returns exactly if no `expand_packet` on the way loops.
     */
    method Handle(i: Input, ghost e: M.Event) returns (ghost returned: bool)
      requires Valid() && Inv(conn) && InputFits(i) && e == EventOf(i) && M.Enabled(conn, e) && !stuck
      modifies this, tasks, buf, buf.p
      ensures returned <==> !old(Loops(i)) && !stuck
      ensures returned ==> Valid() && Extends() && conn == M.Step(old(conn), e) && Inv(conn)
      ensures returned && e.HeaderRead? && e.ok && e.granted ==> Landed(e.header)
      ensures !i.Header? && !i.Payload? && !i.Connect? ==> SameBuffer()
    {
      StepKeeps(conn, e);
      returned := Turn(i, e);
      returned := returned && !stuck;
    }

    method Turn(i: Input, ghost e: M.Event) returns (returned: bool)
      requires Valid() && InputFits(i) && e == EventOf(i)
      modifies this, tasks, buf, buf.p
      ensures returned <==> !old(Loops(i))
      ensures returned ==> Valid() && Extends() && conn == M.Step(old(conn), e)
      ensures returned && e.HeaderRead? && e.ok && e.granted ==> Landed(e.header)
      ensures !i.Header? && !i.Payload? && !i.Connect? ==> SameBuffer()
    {
      returned := true;
      if i.Header? || i.Payload? {
        returned := ReadTurn(i, e);
      } else if i.Call? || i.Endpoint? {
        PlainTurn(i, e);
      } else {
        TaskTurn(i, e);
      }
    }
  }

  /** `CarrotAsyncChannel`: one connection object for each host and service, for good. */
  class CarrotAsyncChannel {
    const cd: Codec
    var conns: map<bytes, RpcClientConnection>

    ghost predicate Distinct()
      reads this
    {
      forall j, k | j in conns && k in conns && j != k :: conns[j] != conns[k]
    }

    constructor (cd: Codec)
      ensures Distinct() && conns == map[]
    {
      this.cd, conns := cd, map[];
    }

    ghost function Under(key: bytes): set<RpcClientConnection>
      reads this
    {
      if key in conns then {conns[key]} else {}
    }

    /** `CallMethod`: the connection under the key, made if there is none, issues the call. */
    method CallMethod(host: bytes, service: bytes, call: M.Call) returns (c: RpcClientConnection)
      requires Distinct() && (Key(host, service) in conns ==> conns[Key(host, service)].Valid())
      modifies this, Under(Key(host, service))
      ensures Distinct() && conns == old(conns)[Key(host, service) := c] && c.Valid()
      ensures forall k | k in conns && k != Key(host, service) :: conns[k].conn == old(conns[k].conn)
      ensures Key(host, service) in old(conns) ==>
        conns == old(conns) && c == conns[Key(host, service)] && c.conn == M.Issue(old(conns[Key(host, service)].conn), call)
      ensures Key(host, service) !in old(conns) ==> fresh(c) && c.conn == M.Issue(M.FRESH, call)
    {
      c := Connection(Key(host, service));
      c.Issue(call);
    }

    method Connection(key: bytes) returns (c: RpcClientConnection)
      requires Distinct() && (key in conns ==> conns[key].Valid())
      modifies this
      ensures Distinct() && conns == old(conns)[key := c] && c.Valid()
      ensures if key in old(conns) then conns == old(conns) && c == conns[key] else fresh(c) && c.conn == M.FRESH
    {
      if key in conns {
        return conns[key];
      }
      c := new RpcClientConnection(cd);
      conns := conns[key := c];
    }

    /** What the connection of that host and service holds; a new one if there is none. */
    ghost function ConnOf(host: bytes, service: bytes): M.Conn
      reads this, Under(Key(host, service))
    {
      if Key(host, service) in conns then conns[Key(host, service)].conn else M.FRESH
    }

    ghost predicate Usable(host: bytes, service: bytes)
      reads this
      reads if Key(host, service) in conns then
        {conns[Key(host, service)], conns[Key(host, service)].buf} + set t | t in conns[Key(host, service)].tasks
      else {}
    {
      Key(host, service) in conns ==> conns[Key(host, service)].Valid()
    }

    /**
     Two calls on one channel, to services (ports) without a colon: they meet on one
     object if and only if host and service are the same; else neither sees the other.
     */
    method CallTwo(host: bytes, service: bytes, call: M.Call, host': bytes, service': bytes, call': M.Call)
      returns (c: RpcClientConnection, c': RpcClientConnection)
      requires Distinct() && Usable(host, service) && Usable(host', service') && 58 !in service && 58 !in service'
      modifies this, Under(Key(host, service)), Under(Key(host', service'))
      ensures Distinct() && (c == c' <==> host == host' && service == service')
      ensures c != c' ==> c.conn == M.Issue(old(ConnOf(host, service)), call) && c'.conn == M.Issue(old(ConnOf(host', service')), call')
      ensures c == c' ==> c.conn == M.Issue(M.Issue(old(ConnOf(host, service)), call), call')
    {
      KeySeparates(host, service, host', service');
      c := CallMethod(host, service, call);
      if Key(host, service) == Key(host', service') {
        c' := CallAgain(host', service', call');
      } else {
        c' := CallOther(host', service', call', Key(host, service));
      }
    }

    /** A call under another key than `key`. */
    method CallOther(host: bytes, service: bytes, call: M.Call, ghost key: bytes) returns (c: RpcClientConnection)
      requires Distinct() && Usable(host, service) && key in conns && key != Key(host, service)
      modifies this, Under(Key(host, service))
      ensures Distinct() && c != old(conns[key]) && old(conns[key]).conn == old(conns[key].conn)
      ensures c.conn == M.Issue(old(ConnOf(host, service)), call)
    {
      c := CallMethod(host, service, call);
    }

    /** A connection destroys itself, and erases its key from the copy that `conns()` returns. */
    method DestroyConnection(key: bytes, react: nat -> M.Reaction)
      requires key in conns && conns[key].Valid()
      modifies conns[key], conns[key].tasks
      ensures conns[key].Valid() && conns[key].conn == M.Destroy(old(conns[key].conn), react)
    {
      conns[key].Destroy(react);
      var copy := conns;
      copy := copy - {key};
    }

    /**
     After its connection was destroyed a call goes to the very same object, under
     an id above all that were ever used on it.
     */
    method CallAfterDestroy(host: bytes, service: bytes, react: nat -> M.Reaction, call: M.Call)
      returns (c: RpcClientConnection)
      requires Distinct() && Key(host, service) in conns && conns[Key(host, service)].Valid()
      modifies this, conns[Key(host, service)], conns[Key(host, service)].tasks
      ensures conns == old(conns) && c == conns[Key(host, service)] && c.Valid()
      ensures Reissued(old(conns[Key(host, service)].conn), react, call, c.conn)
    {
      NextId(conns[Key(host, service)].conn, react, call);
      DestroyConnection(Key(host, service), react);
      c := CallAgain(host, service, call);
    }

    /** A call under a key that is there already. */
    method CallAgain(host: bytes, service: bytes, call: M.Call) returns (c: RpcClientConnection)
      requires Distinct() && Key(host, service) in conns && conns[Key(host, service)].Valid()
      modifies this, conns[Key(host, service)]
      ensures conns == old(conns) && c == conns[Key(host, service)] && c.Valid()
      ensures c.conn == M.Issue(old(conns[Key(host, service)].conn), call)
    {
      c := CallMethod(host, service, call);
    }
  }

  /** Each entry of `outgoing_tasks` is the task of its id, and the machine has the same entries. */
  ghost predicate Leads(outgoing: map<nat, CallTask>, places: map<nat, nat>, tasks: seq<CallTask>) {
    && (forall i :: i in outgoing <==> i in places)
    && (forall i | i in outgoing :: 1 <= i <= |tasks| && outgoing[i] == tasks[i - 1])
  }

  /** `t` has the tasks and the flags of `s`. */
  ghost predicate Like(s: M.Conn, t: M.Conn) {
    t.id == s.id && t.tasks == s.tasks && t.open == s.open && t.connecting == s.connecting && t.n == s.n && M.WellFormed(t)
  }

  lemma LeadsErase(s: M.Conn, outgoing: map<nat, CallTask>, tasks: seq<CallTask>, id: nat)
    requires M.WellFormed(s) && Leads(outgoing, s.outgoing, tasks)
    ensures Like(s, M.Erase(s, id)) && Leads(outgoing - {id}, M.Erase(s, id).outgoing, tasks)
  {
  }

  lemma LeadsEnter(s: M.Conn, outgoing: map<nat, CallTask>, tasks: seq<CallTask>, task: CallTask)
    requires M.WellFormed(s) && Leads(outgoing, s.outgoing, tasks)
    requires |tasks| == |s.tasks| && 1 <= task.id <= |tasks| && tasks[task.id - 1] == task
    ensures var t := M.Enter(s, task.id - 1);
      Like(s, t) && Leads(if task.id in outgoing then outgoing else outgoing[task.id := task], t.outgoing, tasks)
  {
    assert s.tasks[task.id - 1].id == task.id;
  }

  lemma LeadsMore(s: M.Conn, outgoing: map<nat, CallTask>, tasks: seq<CallTask>, task: CallTask, c: M.Call)
    requires M.WellFormed(s) && Leads(outgoing, s.outgoing, tasks)
    ensures var t := M.AddTask(s, c);
      && t == s.(id := s.id + 1, tasks := s.tasks + [M.NewTask(s.id + 1, c)])
      && M.WellFormed(t) && Leads(outgoing, t.outgoing, tasks + [task])
  {
  }

  lemma WaitingTask(s: M.Conn, outgoing: map<nat, CallTask>, tasks: seq<CallTask>, id: nat)
    requires M.WellFormed(s) && Leads(outgoing, s.outgoing, tasks)
    ensures id in outgoing <==> id in s.outgoing
    ensures id in outgoing ==> 1 <= id <= |tasks| && outgoing[id] == tasks[id - 1] && s.outgoing[id] == id - 1
  {
  }

  lemma NothingLeads(s: M.Conn, tasks: seq<CallTask>)
    requires M.WellFormed(s)
    ensures Like(s, s.(outgoing := map[])) && Leads(map[], map[], tasks)
  {
  }

  /** The flags and the header say nothing about tasks. */
  lemma StillGood(s: M.Conn, t: M.Conn)
    requires M.WellFormed(s) && t == s.(connecting := t.connecting, open := t.open, header := t.header, n := t.n)
    ensures M.WellFormed(t) && t.id == s.id && t.tasks == s.tasks && t.outgoing == s.outgoing
  {
  }

  ghost function Entered(s: M.Conn, k: nat): M.Conn
    requires M.Has(s, k)
  {
    s.(log := s.log + [M.Completion(k, s.tasks[k].code, s.tasks[k].response)])
  }

  /** `issue` once the task exists. */
  ghost function Begun(s: M.Conn, k: nat, c: M.Call): M.Conn
    requires M.Has(s, k)
  {
    if s.open then M.StartCall(s, k, c.send, c.reaction) else M.StartResolve(s, k)
  }

  function Key(host: bytes, service: bytes): bytes {
    host + [58] + service
  }

  /** Without a colon in the service the last one in the key ends the host. */
  lemma KeySeparates(host: bytes, service: bytes, host': bytes, service': bytes)
    requires 58 !in service && 58 !in service'
    ensures Key(host, service) == Key(host', service') <==> host == host' && service == service'
  {
    var k, k' := Key(host, service), Key(host', service');
    assert k[|host|] == 58 && k'[|host'|] == 58;
    assert k[..|host|] == host && k'[..|host'|] == host' && k[|host| + 1..] == service && k'[|host'| + 1..] == service';
    if k == k' && |host| < |host'| {
      ColonAfter(host, service, host', service');
    }
    if k == k' && |host'| < |host| {
      ColonAfter(host', service', host, service);
    }
  }

  lemma ColonAfter(host: bytes, service: bytes, host': bytes, service': bytes)
    requires Key(host, service) == Key(host', service') && |host| < |host'|
    ensures 58 in service
  {
    assert Key(host', service')[|host'|] == 58;
    assert Key(host, service)[|host'|] == service[|host'| - |host| - 1];
  }

  /** `s'` is `s` destroyed and called again: the new task comes after all others and has a higher id than any. */
  ghost predicate Reissued(s: M.Conn, react: nat -> M.Reaction, call: M.Call, s': M.Conn)
    requires M.WellFormed(s)
  {
    var s1 := M.Destroy(s, react);
    && s' == M.Issue(s1, call) && s1.id >= s.id
    && |s'.tasks| > s1.id && s'.tasks[s1.id].id == s1.id + 1
  }

  lemma NextId(s: M.Conn, react: nat -> M.Reaction, call: M.Call)
    requires M.WellFormed(s)
    ensures Reissued(s, react, call, M.Issue(M.Destroy(s, react), call))
  {
  }

  lemma TimerRearmed(s: M.Conn, k: nat)
    requires M.Has(s, k)
    ensures M.SetTask(M.CancelTimer(s, k), k, s.tasks[k].(armed := true)) == M.SetTask(s, k, s.tasks[k].(armed := true))
  {
    assert s.tasks[k := s.tasks[k].(armed := false)][k := s.tasks[k].(armed := true)]
        == s.tasks[k := s.tasks[k].(armed := true)];
  }
}
