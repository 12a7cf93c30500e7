/**
 What the client's handlers do to the pending reads, to the header being read
 and to the received frames: nothing, except where a handler says so itself.
 */
module ClientReads {
  import opened Wire
  import opened RpcMessages
  import opened Frames
  import opened ClientModel

  ghost predicate Quiet(s: Conn, s': Conn) {
    && s'.pending[ReadingHeader] == s.pending[ReadingHeader]
    && s'.pending[ReadingPayload] == s.pending[ReadingPayload]
    && (forall k :: s'.pending[Connecting(k)] == s.pending[Connecting(k)])
    && s'.header == s.header && s'.n == s.n && s'.received == s.received && s.sent <= s'.sent
  }

  lemma {:induction false} RunDoneQuiet(s: Conn, k: nat, r: Reaction)
    requires Has(s, k)
    ensures Quiet(s, RunDone(s, k, r))
    decreases r, 1
  {
    IssueAllQuiet(s.(log := s.log + [Completion(k, s.tasks[k].code, s.tasks[k].response)]), r.calls);
  }

  lemma {:induction false} CompleteQuiet(s: Conn, k: nat, r: Reaction)
    requires Has(s, k)
    ensures Quiet(s, Complete(s, k, r))
    decreases r, 2
  {
    if !s.tasks[k].called {
      RunDoneQuiet(s, k, r);
    }
  }

  lemma {:induction false} StartCallQuiet(s: Conn, k: nat, send: SendOutcome, r: Reaction)
    requires Has(s, k)
    ensures Quiet(s, StartCall(s, k, send, r))
    decreases r, 4
  {
    match send
    case Sends => TransmitQuiet(s, k);
    case NoMemory => CompleteQuiet(CancelTimer(SetFailed(s, k, EC_OOM), k), k, r);
    case MetaUnprintable => CompleteQuiet(CancelTimer(SetFailed(s, k, EC_SERIALIZATION_ERROR), k), k, r);
    case ParamUnprintable => CompleteQuiet(CancelTimer(SetFailed(s, k, EC_SERIALIZATION_ERROR), k), k, r);
  }

  lemma TransmitQuiet(s: Conn, k: nat)
    requires Has(s, k)
    ensures Quiet(s, Transmit(s, k))
  {
    assert Quiet(s, Enter(s, k));
    assert Quiet(Enter(s, k), SetTimer(Enter(s, k), k));
  }

  lemma {:induction false} IssueQuiet(s: Conn, c: Call)
    requires WellFormed(s)
    ensures Quiet(s, Issue(s, c))
    decreases c, 5
  {
    var k, s1 := |s.tasks|, AddTask(s, c);
    if s1.open {
      StartCallQuiet(s1, k, c.send, c.reaction);
    } else {
      var s2 := Await(s1, Resolving(k)).(connecting := true);
      assert Quiet(s1, s2) && Quiet(s2, SetTimer(s2, k));
    }
  }

  lemma {:induction false} IssueAllQuiet(s: Conn, cs: seq<Call>)
    requires WellFormed(s)
    ensures Quiet(s, IssueAll(s, cs))
    decreases cs, 0
  {
    if cs != [] {
      IssueQuiet(s, cs[0]);
      IssueAllQuiet(Issue(s, cs[0]), cs[1..]);
    }
  }

  lemma FailWithQuiet(s: Conn, k: nat, code: ErrorCode, r: Reaction)
    requires Has(s, k)
    ensures Quiet(s, FailWith(s, k, code, r))
  {
    if !s.tasks[k].called {
      CompleteQuiet(SetFailed(s, k, code), k, r);
    }
  }

  lemma {:induction false} DestroyTasksQuiet(s: Conn, key: nat, last: nat, react: nat -> Reaction)
    requires WellFormed(s)
    ensures Quiet(s, DestroyTasks(s, key, last, react))
    decreases last + 1 - key
  {
    if key <= last {
      if key in s.outgoing {
        FailWithQuiet(CancelTimer(s, s.outgoing[key]), s.outgoing[key], EC_FAILED, react(key));
        DestroyTasksQuiet(DestroyTask(s, s.outgoing[key], react(key)), key + 1, last, react);
      } else {
        DestroyTasksQuiet(s, key + 1, last, react);
      }
    }
  }

  lemma DestroyQuiet(s: Conn, react: nat -> Reaction)
    requires WellFormed(s)
    ensures Quiet(s, Destroy(s, react))
  {
    DestroyTasksQuiet(CloseSocket(s), 0, s.id, react);
  }

  /** `s'` differs quietly from `s` except that one more reader of kind `h` is pending. */
  ghost predicate QuietPlus(s: Conn, s': Conn, h: Handler) {
    && s'.pending[ReadingHeader] == s.pending[ReadingHeader] + (if h == ReadingHeader then 1 else 0)
    && s'.pending[ReadingPayload] == s.pending[ReadingPayload] + (if h == ReadingPayload then 1 else 0)
    && (forall k :: s'.pending[Connecting(k)] == s.pending[Connecting(k)] + (if h == Connecting(k) then 1 else 0))
    && s'.header == s.header && s'.n == s.n && s'.received == s.received && s.sent <= s'.sent
  }

  lemma StartReadQuiet(s: Conn, granted: bool, react: nat -> Reaction)
    requires WellFormed(s)
    ensures var s' := StartRead(s, granted, react);
      if granted then QuietPlus(s, s', ReadingHeader) else Quiet(s, s')
  {
    if !granted {
      DestroyQuiet(s, react);
    }
  }

  /** Every client step but the two kinds of completed read, and the two connection steps, is quiet. */
  lemma OtherQuiet(s: Conn, e: Event)
    requires WellFormed(s) && Enabled(s, e)
    requires e.Called? || e.NextEndpoint? || e.Written? || e.TimerFired?
    ensures Quiet(s, Step(s, e))
  {
    match e
    case Called(c) => IssueQuiet(s, c);
    case NextEndpoint(_) =>
    case Written(k, ok, react) => WrittenQuiet(s, k, ok, react);
    case TimerFired(k, how, react) => TimerQuiet(s, k, how, react);
  }

  lemma WrittenQuiet(s: Conn, k: nat, ok: bool, react: nat -> Reaction)
    requires Has(s, k)
    ensures Quiet(s, HandleWrite(Fire(s, Writing(k)), k, ok, react))
  {
    var s1 := Fire(s, Writing(k));
    assert Quiet(s, s1);
    if !ok {
      FailDestroyQuiet(s1, k, EC_TRANSPORT_ERROR, react(k + 1), react);
    }
  }

  lemma TimerQuiet(s: Conn, k: nat, how: TimerFire, react: nat -> Reaction)
    requires Has(s, k)
    ensures Quiet(s, HandleTimeout(Fire(s, Waiting(k)), k, how, react))
  {
    assert Quiet(s, Fire(s, Waiting(k)));
    TimeoutQuiet(Fire(s, Waiting(k)), k, how, react);
  }

  lemma FailDestroyQuiet(s: Conn, k: nat, code: ErrorCode, r: Reaction, react: nat -> Reaction)
    requires Has(s, k)
    ensures Quiet(s, Destroy(FailWith(s, k, code, r), react))
  {
    FailWithQuiet(s, k, code, r);
    DestroyQuiet(FailWith(s, k, code, r), react);
  }

  lemma TimeoutQuiet(s: Conn, k: nat, how: TimerFire, react: nat -> Reaction)
    requires Has(s, k)
    ensures Quiet(s, HandleTimeout(s, k, how, react))
  {
    if how != Aborted {
      var s1 := if how == Armed then CancelTimer(s, k) else s;
      var s2 := Erase(s1, s1.tasks[k].id);
      FailWithQuiet(s2, k, EC_RPC_TIMEOUT, react(k + 1));
      DestroyQuiet(FailWith(s2, k, EC_RPC_TIMEOUT, react(k + 1)), react);
    }
  }

  lemma ResolvedQuiet(s: Conn, k: nat, ok: bool, isOpen: bool, react: nat -> Reaction)
    requires Has(s, k)
    ensures var s' := HandleResolve(s, k, ok, isOpen, react);
      if ok then QuietPlus(s, s', Connecting(k)) else Quiet(s, s')
  {
    if !ok {
      FailDestroyQuiet(s, k, EC_ERROR, react(k + 1), react);
    }
  }

  lemma ConnectedQuiet(s: Conn, k: nat, ok: bool, send: SendOutcome, granted: bool, react: nat -> Reaction)
    requires Has(s, k)
    ensures var s' := HandleConnect(s, k, ok, send, granted, react);
      if ok && granted then QuietPlus(s, s', ReadingHeader) else Quiet(s, s')
  {
    if ok {
      var s1 := s.(connecting := false);
      StartCallQuiet(s1, k, send, react(k + 1));
      StartReadQuiet(StartCall(s1, k, send, react(k + 1)), granted, react);
    } else {
      FailDestroyQuiet(s, k, EC_CONNECTION_FAILED, react(k + 1), react);
    }
  }

  lemma HeaderQuiet(s: Conn, ok: bool, h: Header, granted: bool, react: nat -> Reaction)
    requires WellFormed(s)
    ensures var s' := HandleReadHeader(s, ok, h, granted, react);
      if !ok then Quiet(s, s')
      else if granted then QuietPlus(TakeHeader(s, h), s', ReadingPayload) else Quiet(TakeHeader(s, h), s')
  {
    if !ok {
      DestroyQuiet(s, react);
    } else if !granted {
      DestroyQuiet(TakeHeader(s, h), react);
    }
  }

  lemma PayloadQuiet(s: Conn, end: ReadEnd, rpc: Option<Response>, param: Option<Msg>, granted: bool, react: nat -> Reaction)
    requires WellFormed(s)
    requires rpc.Some? ==> rpc.value.id.Some? && rpc.value.status.Some?
    ensures var s' := HandleReadPayload(s, end, rpc, param, granted, react);
      if !WholePayload(s, end) || rpc.None? then Quiet(s, s')
      else
        var s1 := Note(s, Received(rpc.value.id.value, rpc.value.status.value, param));
        if granted then QuietPlus(s1, s', ReadingHeader) else Quiet(s1, s')
  {
    if !WholePayload(s, end) || rpc.None? {
      DestroyQuiet(s, react);
    } else {
      ResponseQuiet(s, rpc.value.id.value, rpc.value.status.value, param, granted, react);
    }
  }

  lemma ResponseQuiet(s: Conn, id: uint64, st: Status, param: Option<Msg>, granted: bool, react: nat -> Reaction)
    requires WellFormed(s)
    ensures var s1, s' := Note(s, Received(id, st, param)), TakeResponse(s, id, st, param, granted, react);
      if granted then QuietPlus(s1, s', ReadingHeader) else Quiet(s1, s')
  {
    var s1 := Note(s, Received(id, st, param));
    if id !in s1.outgoing {
      StartReadQuiet(s1, granted, react);
    } else {
      AnswerQuiet(s1, s1.outgoing[id], st, param, granted, react);
    }
  }

  lemma AnswerQuiet(s: Conn, k: nat, st: Status, param: Option<Msg>, granted: bool, react: nat -> Reaction)
    requires Has(s, k)
    ensures var s' := Answer(s, k, st, param, granted, react);
      if granted then QuietPlus(s, s', ReadingHeader) else Quiet(s, s')
  {
    assert Quiet(s, TakeAnswer(s, k, st, param));
    ReadOnQuiet(TakeAnswer(s, k, st, param), k, granted, react);
  }

  lemma ReadOnQuiet(s: Conn, k: nat, granted: bool, react: nat -> Reaction)
    requires Has(s, k)
    ensures var s' := ReadOn(s, k, granted, react);
      if granted then QuietPlus(s, s', ReadingHeader) else Quiet(s, s')
  {
    if granted {
      var s1 := Erase(Await(s, ReadingHeader), k + 1);
      assert QuietPlus(s, s1, ReadingHeader);
      FinishQuiet(s1, k, react(k + 1));
    } else {
      DestroyQuiet(s, react);
    }
  }

  lemma FinishQuiet(s: Conn, k: nat, r: Reaction)
    requires Has(s, k)
    ensures Quiet(s, Finish(s, k, r))
  {
    CompleteQuiet(CancelTimer(s, k), k, r);
  }
}
