/**
 The invariant over whole runs of the client connection, and what it means for
 a caller.
 */
module ClientRuns {
  import opened Wire
  import opened RpcMessages
  import opened Frames
  import opened ClientModel
  import opened ClientSafety

  /* One handler is taken from the event loop. */

  lemma FireEffect(s: Conn, h: Handler)
    requires Settled(s) && h in s.pending
    ensures var s1 := Fire(s, h);
      && Evolves(s, s1) && s1.log == s.log && LogAnswered(s1)
      && forall k | 0 <= k < |s.tasks| ::
           var v := ViewOf(s, k);
           ViewOf(s1, k) == v.(resolving := if h == Resolving(k) then v.resolving - 1 else v.resolving,
                               connecting := if h == Connecting(k) then v.connecting - 1 else v.connecting,
                               waiting := if h == Waiting(k) then v.waiting - 1 else v.waiting)
  {
    forall j | 0 <= j < |s.log| ensures Answered(Fire(s, h), s.log[j]) {
      assert Answered(s, s.log[j]);
    }
  }

  /** A read or write handler belongs to no task's view. */
  lemma FireKeepsSettled(s: Conn, h: Handler)
    requires Settled(s) && h in s.pending
    requires h.ReadingHeader? || h.ReadingPayload? || h.Writing?
    ensures Settled(Fire(s, h)) && Evolves(s, Fire(s, h))
  {
    FireEffect(s, h);
  }

  predicate TimerStands(t: Task) {
    !t.called && t.timeout != TIMEOUT_NEVER ==> t.armed
  }

  lemma FireTakesTask(s: Conn, h: Handler)
    requires Settled(s) && h in s.pending && (h.Resolving? || h.Connecting?) && TaskIndex(s, h)
    ensures SettledBut(Fire(s, h), {h.k}) && Evolves(s, Fire(s, h)) && Unsent(ViewOf(Fire(s, h), h.k))
    ensures TimerStands(s.tasks[h.k]) && Fire(s, h).tasks == s.tasks
  {
    FireEffect(s, h);
    assert ViewOk(ViewOf(s, h.k));
  }

  lemma DestroySettled(s: Conn, react: nat -> Reaction)
    requires Settled(s)
    ensures TornDown(s, Destroy(s, react))
  {
    SettledDestroyable(s);
    DestroyEffect(s, react);
  }

  /** A task in hand is failed if it still has to be, and then the connection is destroyed. */
  lemma FailThenDestroy(s: Conn, k: nat, code: ErrorCode, r: Reaction, react: nat -> Reaction)
    requires Has(s, k) && SettledBut(s, {k}) && InHand(ViewOf(s, k)) && code != EC_SUCCESS
    ensures var s' := Destroy(FailWith(s, k, code, r), react);
      Inv(s') && Evolves(s, s') && s'.tasks[k].called && OnlyFailures(s, s') && Reports(s, k, code, s')
  {
    FailWithEffect(s, k, code, r);
    var s1 := FailWith(s, k, code, r);
    DestroySettled(s1, react);
    EvolvesTrans(s, s1, Destroy(s1, react));
    CalledStays(s1, Destroy(s1, react), k);
    OnlyFailuresTrans(s, s1, Destroy(s1, react));
  }

  lemma FailWithEffect(s: Conn, k: nat, code: ErrorCode, r: Reaction)
    requires Has(s, k) && SettledBut(s, {k}) && InHand(ViewOf(s, k)) && code != EC_SUCCESS
    ensures var s' := FailWith(s, k, code, r);
      && Settled(s') && Evolves(s, s') && s'.tasks[k].called && OnlyFailures(s, s') && s.pending <= s'.pending
      && Grows(s, s', {k}) && ClosedKeeps(s, s') && Reports(s, k, code, s')
  {
    if !s.tasks[k].called {
      FailInHand(s, k, code, r);
      SettledGrows(s, FailWith(s, k, code, r), k);
    } else {
      assert ViewOk(ViewOf(s, k));
    }
  }

  /** A callback that has run stays recorded, so its task stays called. */
  lemma CalledStays(s: Conn, s': Conn, k: nat)
    requires Settled(s) && Settled(s') && Evolves(s, s') && k < |s.tasks| && s.tasks[k].called
    ensures s'.tasks[k].called
  {
    RunsMonotone(s.log, s'.log, k);
    assert ViewOk(ViewOf(s, k)) && ViewOk(ViewOf(s', k));
  }

  lemma {:induction false} RunsMonotone(log: seq<Completion>, log': seq<Completion>, k: nat)
    requires log <= log'
    ensures RunsOf(log, k) <= RunsOf(log', k)
    decreases |log'|
  {
    if |log| < |log'| {
      assert log <= log'[..|log'| - 1];
      RunsMonotone(log, log'[..|log'| - 1], k);
    } else {
      assert log == log';
    }
  }

  lemma AwaitKeeps(s: Conn, h: Handler)
    requires Settled(s) && (h.ReadingHeader? || h.ReadingPayload?)
    ensures Inv(Await(s, h)) && Evolves(s, Await(s, h))
  {
    var s' := Await(s, h);
    assert forall k | 0 <= k < |s.tasks| :: ViewOf(s', k) == ViewOf(s, k);
    forall j | 0 <= j < |s.log| ensures Answered(s', s.log[j]) {
      assert Answered(s, s.log[j]);
    }
  }

  lemma StartReadKeeps(s: Conn, granted: bool, react: nat -> Reaction)
    requires Settled(s)
    ensures Inv(StartRead(s, granted, react)) && Evolves(s, StartRead(s, granted, react))
  {
    if granted {
      AwaitKeeps(s, ReadingHeader);
    } else {
      DestroySettled(s, react);
    }
  }

  /* Each handler. */

  lemma IssueKeeps(s: Conn, c: Call)
    requires Inv(s)
    ensures Inv(Issue(s, c)) && Evolves(s, Issue(s, c))
  {
    var s' := Issue(s, c);
    IssueEffect(s, c);
    FailuresAnswered(s, s');
    forall k | 0 <= k < |s'.tasks| ensures ViewOk(ViewOf(s', k)) {
      if k < |s.tasks| {
        assert ViewOf(s', k) == ViewOf(s, k);
      }
    }
    ReaderStays(s, s');
  }

  lemma ReaderStays(s: Conn, s': Conn)
    requires s.pending <= s'.pending
    ensures HasReader(s) ==> HasReader(s')
  {
    if HasReader(s) {
      if ReadingHeader in s.pending {
        assert s.pending[ReadingHeader] <= s'.pending[ReadingHeader];
      } else if ReadingPayload in s.pending {
        assert s.pending[ReadingPayload] <= s'.pending[ReadingPayload];
      } else {
        var k :| Connecting(k) in s.pending;
        assert s.pending[Connecting(k)] <= s'.pending[Connecting(k)];
      }
    }
  }

  lemma ResolvedKeeps(s: Conn, k: nat, ok: bool, isOpen: bool, react: nat -> Reaction)
    requires Inv(s) && Resolving(k) in s.pending && k < |s.tasks|
    ensures var s' := HandleResolve(Fire(s, Resolving(k)), k, ok, isOpen, react);
      Inv(s') && Evolves(s, s') && (!ok ==> Reports(s, k, EC_ERROR, s'))
  {
    var s1 := Fire(s, Resolving(k));
    FireTakesTask(s, Resolving(k));
    var s' := HandleResolve(s1, k, ok, isOpen, react);
    if ok {
      var s2 := Await(s1, Connecting(k));
      AwaitEffect(s1, Connecting(k), k);
      SettledGrows(s1, s2, k);
      assert forall i | 0 <= i < |s2.tasks| :: ViewOf(s', i) == ViewOf(s2, i);
      AnsweredStays(s2, s');
      assert Connecting(k) in s'.pending;
    } else {
      FailThenDestroy(s1, k, EC_ERROR, react(k + 1), react);
    }
    EvolvesTrans(s, s1, s');
  }

  lemma AnsweredStays(s: Conn, s': Conn)
    requires LogAnswered(s) && s'.log == s.log && s.received <= s'.received
    ensures LogAnswered(s')
  {
    forall j | 0 <= j < |s.log| ensures Answered(s', s.log[j]) {
      var c := s.log[j];
      assert Answered(s, c);
      if c.code == EC_SUCCESS {
        var i :| 0 <= i < |s.received| && s.received[i].id == c.k + 1 && s.received[i].status == SUCCESS
                   && s.received[i].param == c.response;
        assert s'.received[i] == s.received[i];
      }
    }
  }

  lemma ConnectedKeeps(s: Conn, k: nat, ok: bool, send: SendOutcome, granted: bool, react: nat -> Reaction)
    requires Inv(s) && Connecting(k) in s.pending && k < |s.tasks|
    ensures var s' := HandleConnect(Fire(s, Connecting(k)), k, ok, send, granted, react);
      Inv(s') && Evolves(s, s') && (!ok ==> Reports(s, k, EC_CONNECTION_FAILED, s'))
  {
    var s1 := Fire(s, Connecting(k));
    FireTakesTask(s, Connecting(k));
    if ok {
      StartedKeeps(s1, k, send, granted, react);
    } else {
      FailThenDestroy(s1, k, EC_CONNECTION_FAILED, react(k + 1), react);
    }
    EvolvesTrans(s, s1, HandleConnect(s1, k, ok, send, granted, react));
  }

  lemma StartedKeeps(s: Conn, k: nat, send: SendOutcome, granted: bool, react: nat -> Reaction)
    requires Has(s, k) && SettledBut(s, {k}) && Unsent(ViewOf(s, k))
    ensures var s' := HandleConnect(s, k, true, send, granted, react);
      Inv(s') && Evolves(s, s')
  {
    var s2 := s.(connecting := false);
    assert forall i | 0 <= i < |s.tasks| :: ViewOf(s2, i) == ViewOf(s, i);
    AnsweredStays(s, s2);
    var s3 := StartCall(s2, k, send, react(k + 1));
    StartCallEffect(s2, k, send, react(k + 1));
    SettledGrows(s2, s3, k);
    StartReadKeeps(s3, granted, react);
    EvolvesTrans(s2, s3, StartRead(s3, granted, react));
  }

  lemma HeaderKeeps(s: Conn, ok: bool, h: Header, granted: bool, react: nat -> Reaction)
    requires Inv(s) && ReadingHeader in s.pending
    ensures var s' := HandleReadHeader(Fire(s, ReadingHeader), ok, h, granted, react);
      Inv(s') && Evolves(s, s')
  {
    var s1 := Fire(s, ReadingHeader);
    FireKeepsSettled(s, ReadingHeader);
    var s' := HandleReadHeader(s1, ok, h, granted, react);
    if !ok {
      DestroySettled(s1, react);
    } else {
      var s2 := TakeHeader(s1, h);
      assert forall i | 0 <= i < |s1.tasks| :: ViewOf(s2, i) == ViewOf(s1, i);
      AnsweredStays(s1, s2);
      if granted {
        AwaitKeeps(s2, ReadingPayload);
      } else {
        DestroySettled(s2, react);
      }
    }
    EvolvesTrans(s, s1, s');
  }

  lemma WrittenKeeps(s: Conn, k: nat, ok: bool, react: nat -> Reaction)
    requires Inv(s) && Writing(k) in s.pending && k < |s.tasks|
    ensures var s' := HandleWrite(Fire(s, Writing(k)), k, ok, react);
      Inv(s') && Evolves(s, s') && (!ok ==> Reports(s, k, EC_TRANSPORT_ERROR, s'))
  {
    var s1 := Fire(s, Writing(k));
    FireKeepsSettled(s, Writing(k));
    var s' := HandleWrite(s1, k, ok, react);
    if ok {
      FireKeepsReader(s, Writing(k));
    } else {
      assert ViewOk(ViewOf(s1, k));
      FailThenDestroy(s1, k, EC_TRANSPORT_ERROR, react(k + 1), react);
      EvolvesTrans(s, s1, s');
    }
  }

  lemma FireKeepsReader(s: Conn, h: Handler)
    requires WellFormed(s) && (h.Resolving? || h.Writing? || h.Waiting?)
    ensures HasReader(s) ==> HasReader(Fire(s, h))
  {
    if HasReader(s) && ReadingHeader !in s.pending && ReadingPayload !in s.pending {
      var k :| Connecting(k) in s.pending;
      assert Connecting(k) in Fire(s, h).pending;
    }
  }

  lemma TimeoutKeeps(s: Conn, k: nat, how: TimerFire, react: nat -> Reaction)
    requires Inv(s) && Waiting(k) in s.pending && k < |s.tasks|
    requires how == Armed ==> s.tasks[k].armed
    requires how != Armed && s.tasks[k].armed ==> s.pending[Waiting(k)] >= 2
    ensures var s' := HandleTimeout(Fire(s, Waiting(k)), k, how, react);
      Inv(s') && Evolves(s, s') && (how != Aborted ==> s'.tasks[k].called && Reports(s, k, EC_RPC_TIMEOUT, s'))
  {
    var s1 := Fire(s, Waiting(k));
    FireEffect(s, Waiting(k));
    FireKeepsReader(s, Waiting(k));
    assert ViewOk(ViewOf(s, k));
    if how != Aborted {
      TimeoutFires(s1, k, how, react);
      EvolvesTrans(s, s1, HandleTimeout(s1, k, how, react));
    }
  }

  lemma TimeoutFires(s: Conn, k: nat, how: TimerFire, react: nat -> Reaction)
    requires Has(s, k) && SettledBut(s, {k}) && how != Aborted
    requires s.open || s.outgoing != map[] ==> HasReader(s)
    requires InHand(ViewOf(s, k).(task := s.tasks[k].(armed := false)))
    requires how != Armed ==> InHand(ViewOf(s, k))
    ensures var s' := HandleTimeout(s, k, how, react);
      Inv(s') && Evolves(s, s') && s'.tasks[k].called && Reports(s, k, EC_RPC_TIMEOUT, s')
  {
    var s2 := TimedOut(s, k, how);
    TimedOutEffect(s, k, how);
    assert s2.outgoing != map[] ==> s.outgoing != map[];
    var s3 := FailWith(s2, k, EC_RPC_TIMEOUT, react(k + 1));
    FailWithEffect(s2, k, EC_RPC_TIMEOUT, react(k + 1));
    ReaderStays(s2, s3);
    TimeoutEnds(s2, s3, k, react);
    EvolvesTrans(s, s2, if s3.connecting then Destroy(s3, react) else s3);
  }

  /** The end of `handle_timeout`: a connection still being made is given up. */
  lemma TimeoutEnds(s: Conn, s1: Conn, k: nat, react: nat -> Reaction)
    requires Has(s, k) && Settled(s1) && Evolves(s, s1) && s1.tasks[k].called && Reports(s, k, EC_RPC_TIMEOUT, s1)
    requires !s1.connecting && (s1.open || s1.outgoing != map[]) ==> HasReader(s1)
    ensures var s' := if s1.connecting then Destroy(s1, react) else s1;
      Inv(s') && Evolves(s, s') && s'.tasks[k].called && Reports(s, k, EC_RPC_TIMEOUT, s')
  {
    if s1.connecting {
      DestroySettled(s1, react);
      EvolvesTrans(s, s1, Destroy(s1, react));
      CalledStays(s1, Destroy(s1, react), k);
    }
  }

  /** `handle_timeout` up to its test of `called`. */
  function TimedOut(s: Conn, k: nat, how: TimerFire): Conn
    requires Has(s, k)
  {
    var s1 := if how == Armed then CancelTimer(s, k) else s;
    Erase(s1, s1.tasks[k].id)
  }

  lemma TimedOutEffect(s: Conn, k: nat, how: TimerFire)
    requires Has(s, k) && SettledBut(s, {k})
    requires var v := ViewOf(s, k);
      InHand(v.(task := v.task.(armed := false))) && (how != Armed ==> InHand(v))
    ensures var s' := TimedOut(s, k, how);
      && SettledBut(s', {k}) && InHand(ViewOf(s', k)) && Evolves(s, s')
      && s'.log == s.log && s'.tasks[k].called == s.tasks[k].called && s'.tasks[k].response == s.tasks[k].response
      && s'.open == s.open && s'.connecting == s.connecting && s'.pending == s.pending && s'.outgoing.Keys <= s.outgoing.Keys
      && (forall i | 0 <= i < |s.tasks| && i != k :: ViewOf(s', i) == ViewOf(s, i))
  {
    var s' := TimedOut(s, k, how);
    AnsweredStays(s, s');
    forall i | 0 <= i < |s'.tasks| && i != k ensures ViewOf(s', i) == ViewOf(s, i) {
    }
  }

  /* A response frame. */

  /** The code a caller should see for an answer. */
  function AnswerCode(st: Status, param: Option<Msg>): ErrorCode {
    if param.None? then EC_SERIALIZATION_ERROR
    else match st
      case SUCCESS => EC_SUCCESS
      case ERROR => EC_ERROR
      case NOT_FOUND => EC_METHOD_NOT_FOUND
      case FAILED => EC_FAILED
  }

  lemma TakeAnswerEffect(s: Conn, k: nat, st: Status, param: Option<Msg>)
    requires Has(s, k)
    ensures var s', v, v' := TakeAnswer(s, k, st, param), ViewOf(s, k), ViewOf(TakeAnswer(s, k, st, param), k);
      && s' == s.(tasks := s.tasks[k := s'.tasks[k]])
      && v' == v.(task := v.task.(code := v'.task.code, response := v'.task.response))
      && (forall i | 0 <= i < |s.tasks| && i != k :: ViewOf(s', i) == ViewOf(s, i))
      && (v.task.code == EC_SUCCESS ==> v'.task.code == AnswerCode(st, param))
      && (param.Some? ==> v'.task.response == param)
  {
    var s1 := JudgeStatus(s, k, st);
    assert s1.tasks[k := s1.tasks[k]] == s1.tasks;
    assert s.tasks[k := s.tasks[k]] == s.tasks;
  }

  /** The found task, its answer taken and its entry removed, is finished. */
  lemma AnswerFinished(s: Conn, k: nat, r: Reaction)
    requires Has(s, k) && SettledBut(s, {k}) && InHand(ViewOf(s, k)) && HasReader(s) && k + 1 !in s.outgoing
    requires !s.tasks[k].called && s.tasks[k].code == EC_SUCCESS ==>
      s.tasks[k].response.Some? && HasReceived(s.received, k + 1, SUCCESS, s.tasks[k].response)
    ensures var s' := Finish(s, k, r);
      && Inv(s') && Evolves(s, s') && Retired(s'.tasks[k]) && LogsOwn(CancelTimer(s, k), k, s')
      && (!s.tasks[k].called ==> s'.tasks[k].code == AfterThrow(s.tasks[k].code, r))
  {
    var s1, s' := CancelTimer(s, k), Finish(s, k, r);
    TaskChanged(s, k, s.tasks[k].(armed := false));
    CompleteEffect(s1, k, r);
    GrowsTrans(s, s1, s', {k});
    AnsweredStays(s, s1);
    OwnAnswered(s1, k, s');
    AnswerSound(s, k, s');
  }

  lemma OwnAnswered(s: Conn, k: nat, s': Conn)
    requires Has(s, k) && LogAnswered(s) && LogsOwn(s, k, s') && s'.received == s.received
    requires !s.tasks[k].called && s.tasks[k].code == EC_SUCCESS ==>
      s.tasks[k].response.Some? && HasReceived(s.received, k + 1, SUCCESS, s.tasks[k].response)
    ensures LogAnswered(s') && s.log <= s'.log
  {
    if !s.tasks[k].called {
      var c := Completion(k, s.tasks[k].code, s.tasks[k].response);
      OneMoreAnswered(s, c);
      FailuresAnswered(s.(log := s.log + [c]), s');
    }
  }

  /** With the task in hand done, all are sound again. */
  lemma AnswerSound(s: Conn, k: nat, s': Conn)
    requires Has(s, k) && SettledBut(s, {k}) && HasReader(s) && Grows(s, s', {k}) && LogAnswered(s') && s.log <= s'.log
    requires ViewOk(ViewOf(s', k))
    ensures Inv(s') && Evolves(s, s')
  {
    ReaderStays(s, s');
    forall i | 0 <= i < |s'.tasks| ensures ViewOk(ViewOf(s', i)) {
      if i < |s.tasks| && i != k {
        assert ViewOf(s', i) == ViewOf(s, i);
      }
    }
  }

  lemma OneMoreAnswered(s: Conn, c: Completion)
    requires LogAnswered(s) && Answered(s, c)
    ensures LogAnswered(s.(log := s.log + [c]))
  {
    var s' := s.(log := s.log + [c]);
    forall j | 0 <= j < |s'.log| ensures Answered(s', s'.log[j]) {
      if j < |s.log| {
        assert Answered(s, s.log[j]);
      }
    }
  }

  /** What `handle_read_payload` does with a frame for a call in `outgoing_tasks`, before it finishes the call. */
  function Matched(s: Conn, k: nat, st: Status, param: Option<Msg>): Conn
    requires Has(s, k) && k + 1 < TWO64
  {
    TakeAnswer(Note(s, Received(k + 1, st, param)), k, st, param)
  }

  predicate Answering(s: Conn, k: nat) {
    WellFormed(s) && k + 1 in s.outgoing && k + 1 < TWO64
  }

  lemma MatchedChanges(s: Conn, k: nat, st: Status, param: Option<Msg>)
    requires Answering(s, k)
    ensures var s', v, v' := Matched(s, k, st, param), ViewOf(s, k), ViewOf(Matched(s, k, st, param), k);
      && s' == s.(tasks := s.tasks[k := s'.tasks[k]], received := s.received + [Received(k + 1, st, param)])
      && v' == v.(task := v.task.(code := v'.task.code, response := v'.task.response))
      && (forall i | 0 <= i < |s.tasks| && i != k :: ViewOf(s', i) == ViewOf(s, i))
      && (v.task.code == EC_SUCCESS ==> v'.task.code == AnswerCode(st, param))
      && (param.Some? ==> v'.task.response == param)
  {
    var s1 := Note(s, Received(k + 1, st, param));
    NotedViews(s, Received(k + 1, st, param));
    TakeAnswerEffect(s1, k, st, param);
  }

  lemma NotedViews(s: Conn, a: Received)
    requires WellFormed(s)
    ensures forall i | 0 <= i < |s.tasks| :: ViewOf(Note(s, a), i) == ViewOf(s, i)
  {
  }

  lemma MatchedSettled(s: Conn, k: nat, st: Status, param: Option<Msg>)
    requires Answering(s, k) && Settled(s)
    ensures var s' := Matched(s, k, st, param);
      && Has(s', k) && Destroyable(s') && SettledBut(s', {k}) && InHand(ViewOf(s', k)) && Evolves(s, s')
      && (!s.tasks[k].called ==> s'.tasks[k].code == AnswerCode(st, param))
      && HasReceived(s'.received, k + 1, st, param)
  {
    var s' := Matched(s, k, st, param);
    MatchedChanges(s, k, st, param);
    AnsweredStays(s, s');
    assert ViewOk(ViewOf(s, k));
    assert s'.received[|s.received|] == Received(k + 1, st, param);
    assert forall i | 0 <= i < |s.tasks| && i != k :: ViewOk(ViewOf(s', i));
  }

  /** The rest of `handle_read_payload` for a call found under its id. */
  function Deliver(s: Conn, k: nat, st: Status, param: Option<Msg>, granted: bool, react: nat -> Reaction): Conn
    requires Answering(s, k)
  {
    TakeResponse(s, k + 1, st, param, granted, react)
  }

  lemma DeliverRefused(s: Conn, k: nat, st: Status, param: Option<Msg>, react: nat -> Reaction)
    requires Answering(s, k) && Settled(s)
    ensures var s' := Deliver(s, k, st, param, false, react);
      Inv(s') && Evolves(s, s') && s'.tasks[k].called
  {
    var s1 := Matched(s, k, st, param);
    MatchedSettled(s, k, st, param);
    DestroyEffect(s1, react);
    EvolvesTrans(s, s1, Destroy(s1, react));
    assert s1.outgoing == s.outgoing;
  }

  lemma DeliverReady(s: Conn, k: nat, st: Status, param: Option<Msg>)
    requires Answering(s, k) && Settled(s)
    ensures var s1 := Matched(s, k, st, param);
      var s3 := Erase(Await(s1, ReadingHeader), k + 1);
      && Has(s3, k) && SettledBut(s3, {k}) && InHand(ViewOf(s3, k)) && ReadingHeader in s3.pending
      && s3.tasks == s1.tasks && s3.received == s1.received && s3.log == s1.log && Evolves(s, s3)
  {
    var s1 := Matched(s, k, st, param);
    MatchedSettled(s, k, st, param);
    AwaitReady(s1, k);
    EvolvesTrans(s, s1, Erase(Await(s1, ReadingHeader), k + 1));
  }

  lemma AwaitReady(s: Conn, k: nat)
    requires Has(s, k) && SettledBut(s, {k}) && InHand(ViewOf(s, k))
    ensures var s' := Erase(Await(s, ReadingHeader), k + 1);
      && Has(s', k) && SettledBut(s', {k}) && InHand(ViewOf(s', k)) && ReadingHeader in s'.pending
      && s'.tasks == s.tasks && s'.received == s.received && s'.log == s.log && Evolves(s, s')
  {
    AwaitView(s, k);
    AnsweredStays(s, Erase(Await(s, ReadingHeader), k + 1));
  }

  /**
   The answer to a call still in `outgoing_tasks` completes it in the same step,
   with exactly the code its status and parameter mean, if the next read starts.
   */
  lemma AnswerDelivered(s: Conn, k: nat, st: Status, param: Option<Msg>, react: nat -> Reaction)
    requires Answering(s, k) && Settled(s)
    ensures var s' := Deliver(s, k, st, param, true, react);
      && Inv(s') && Evolves(s, s') && Retired(s'.tasks[k])
      && (!s.tasks[k].called ==>
            && s'.tasks[k].code == AfterThrow(AnswerCode(st, param), react(k + 1))
            && |s'.log| > |s.log| && s'.log[|s.log|].k == k
            && s'.log[|s.log|].code == AnswerCode(st, param)
            && (param.Some? ==> s'.log[|s.log|].response == param))
  {
    var s1 := Matched(s, k, st, param);
    var s3 := Erase(Await(s1, ReadingHeader), k + 1);
    MatchedSettled(s, k, st, param);
    MatchedChanges(s, k, st, param);
    DeliverReady(s, k, st, param);
    AnswerFinished(s3, k, react(k + 1));
    EvolvesTrans(s, s3, Finish(s3, k, react(k + 1)));
    if !s.tasks[k].called {
      OwnEntry(CancelTimer(s3, k), k, Finish(s3, k, react(k + 1)));
    }
  }

  lemma OwnEntry(s: Conn, k: nat, s': Conn)
    requires k < |s.tasks| && !s.tasks[k].called && LogsOwn(s, k, s')
    ensures |s'.log| > |s.log| && s'.log[|s.log|] == Completion(k, s.tasks[k].code, s.tasks[k].response)
  {
  }

  lemma AwaitView(s: Conn, k: nat)
    requires Has(s, k)
    ensures var s' := Erase(Await(s, ReadingHeader), k + 1);
      && ViewOf(s', k) == ViewOf(s, k).(out := false)
      && forall i | 0 <= i < |s.tasks| && i != k :: ViewOf(s', i) == ViewOf(s, i)
  {
  }

  /** A frame for an id that is not in `outgoing_tasks` is dropped and the next read starts. */
  lemma StrangerDropped(s: Conn, id: uint64, st: Status, param: Option<Msg>, granted: bool, react: nat -> Reaction)
    requires Settled(s)
    ensures var s1 := Note(s, Received(id, st, param));
      Inv(StartRead(s1, granted, react)) && Evolves(s, StartRead(s1, granted, react))
  {
    var s1 := Note(s, Received(id, st, param));
    assert forall i | 0 <= i < |s.tasks| :: ViewOf(s1, i) == ViewOf(s, i);
    AnsweredStays(s, s1);
    StartReadKeeps(s1, granted, react);
    EvolvesTrans(s, s1, StartRead(s1, granted, react));
  }

  lemma DeliverKeeps(s: Conn, k: nat, st: Status, param: Option<Msg>, granted: bool, react: nat -> Reaction)
    requires Answering(s, k) && Settled(s)
    ensures var s' := Deliver(s, k, st, param, granted, react);
      Inv(s') && Evolves(s, s')
  {
    if granted {
      AnswerDelivered(s, k, st, param, react);
    } else {
      DeliverRefused(s, k, st, param, react);
    }
  }

  lemma ResponseKeeps(s: Conn, id: uint64, st: Status, param: Option<Msg>, granted: bool, react: nat -> Reaction)
    requires Settled(s)
    ensures var s' := TakeResponse(s, id, st, param, granted, react);
      Inv(s') && Evolves(s, s')
  {
    if id !in s.outgoing {
      StrangerDropped(s, id, st, param, granted, react);
    } else {
      DeliverKeeps(s, id - 1, st, param, granted, react);
    }
  }

  lemma PayloadKeeps(s: Conn, end: ReadEnd, rpc: Option<Response>, param: Option<Msg>, granted: bool,
                     react: nat -> Reaction)
    requires Inv(s) && ReadingPayload in s.pending
    requires rpc.Some? ==> rpc.value.id.Some? && rpc.value.status.Some?
    ensures var s' := HandleReadPayload(Fire(s, ReadingPayload), end, rpc, param, granted, react);
      Inv(s') && Evolves(s, s')
  {
    var s1 := Fire(s, ReadingPayload);
    FireKeepsSettled(s, ReadingPayload);
    if !WholePayload(s1, end) || rpc.None? {
      DestroySettled(s1, react);
    } else {
      ResponseKeeps(s1, rpc.value.id.value, rpc.value.status.value, param, granted, react);
    }
    EvolvesTrans(s, s1, HandleReadPayload(s1, end, rpc, param, granted, react));
  }

  /* Steps and runs. */

  /** The invariant survives every handler, whatever the environment and the callbacks do. */
  lemma StepKeeps(s: Conn, e: Event)
    requires Inv(s) && Enabled(s, e)
    ensures Inv(Step(s, e)) && Evolves(s, Step(s, e))
  {
    match e
    case Called(c) => IssueKeeps(s, c);
    case Resolved(k, ok, isOpen, react) => ResolvedKeeps(s, k, ok, isOpen, react);
    case NextEndpoint(isOpen) => EndpointKeeps(s, isOpen);
    case Connected(k, ok, send, granted, react) => ConnectedKeeps(s, k, ok, send, granted, react);
    case HeaderRead(ok, h, granted, react) => HeaderKeeps(s, ok, h, granted, react);
    case PayloadRead(end, rpc, param, granted, react) => PayloadKeeps(s, end, rpc, param, granted, react);
    case Written(k, ok, react) => WrittenKeeps(s, k, ok, react);
    case TimerFired(k, how, react) => TimeoutKeeps(s, k, how, react);
  }

  lemma EndpointKeeps(s: Conn, isOpen: bool)
    requires Inv(s) && exists k :: Connecting(k) in s.pending
    ensures Inv(s.(open := isOpen)) && Evolves(s, s.(open := isOpen))
  {
    var s' := s.(open := isOpen);
    assert forall i | 0 <= i < |s.tasks| :: ViewOf(s', i) == ViewOf(s, i);
    AnsweredStays(s, s');
    var k :| Connecting(k) in s.pending;
    assert Connecting(k) in s'.pending;
  }

  lemma {:induction false} RunKeeps(s: Conn, es: seq<Event>, s': Conn)
    requires Inv(s) && Runs(s, es, s')
    ensures Inv(s') && Evolves(s, s')
    decreases |es|
  {
    if es != [] {
      StepKeeps(s, es[0]);
      RunKeeps(Step(s, es[0]), es[1..], s');
      EvolvesTrans(s, Step(s, es[0]), s');
    }
  }

  lemma FreshInv()
    ensures Inv(FRESH)
  {
  }

  ghost predicate Reachable(s: Conn)
    ensures Reachable(s) ==> WellFormed(s)
  {
    exists es :: Runs(FRESH, es, s)
  }

  lemma ReachableInv(s: Conn)
    requires Reachable(s)
    ensures Inv(s)
  {
    var es :| Runs(FRESH, es, s);
    FreshInv();
    RunKeeps(FRESH, es, s);
  }

  /* What a caller may rely on. */

  /** No `done` callback ever runs twice. */
  lemma AtMostOnce(s: Conn, k: nat)
    requires Reachable(s) && k < |s.tasks|
    ensures RunsOf(s.log, k) <= 1
    ensures s.tasks[k].called <==> RunsOf(s.log, k) == 1
  {
    ReachableInv(s);
    assert ViewOk(ViewOf(s, k));
  }

  /** A call whose callback has not run is held by a resolve or connect handler, or is in `outgoing_tasks`. */
  lemma NoCallLost(s: Conn, k: nat)
    requires Reachable(s) && k < |s.tasks| && RunsOf(s.log, k) == 0
    ensures Resolving(k) in s.pending || Connecting(k) in s.pending
         || (k + 1 in s.outgoing && s.outgoing[k + 1] == k && HasReader(s))
  {
    ReachableInv(s);
    assert ViewOk(ViewOf(s, k));
  }

  /** An open socket, or a call waiting in `outgoing_tasks`, is always served by a connect or read still to come. */
  lemma ReaderStands(s: Conn)
    requires Reachable(s) && (s.open || s.outgoing != map[])
    ensures HasReader(s)
  {
    ReachableInv(s);
  }

  ghost predicate Quiescent(s: Conn) {
    !HasReader(s) && forall k :: Resolving(k) !in s.pending
  }

  /** With no resolve, connect or read outstanding, every call ever issued has completed exactly once. */
  lemma QuiescentExactlyOnce(s: Conn, k: nat)
    requires Reachable(s) && Quiescent(s) && k < |s.tasks|
    ensures RunsOf(s.log, k) == 1
    ensures s.outgoing == map[] && !s.open
  {
    ReachableInv(s);
    AtMostOnce(s, k);
    if RunsOf(s.log, k) == 0 {
      NoCallLost(s, k);
    }
  }

  /** A callback that saw an unfailed controller had its answer: SUCCESS under its own id, with that parameter. */
  lemma HonestSuccess(s: Conn, j: nat)
    requires Reachable(s) && j < |s.log| && s.log[j].code == EC_SUCCESS
    ensures s.log[j].response.Some?
    ensures HasReceived(s.received, s.tasks[s.log[j].k].id, SUCCESS, s.log[j].response)
  {
    ReachableInv(s);
    assert Answered(s, s.log[j]);
  }

  /** Every uncompleted call with a timeout has an armed timer; that timer firing completes it. */
  lemma TimerCovers(s: Conn, k: nat, react: nat -> Reaction)
    requires Reachable(s) && k < |s.tasks| && RunsOf(s.log, k) == 0 && s.tasks[k].timeout != TIMEOUT_NEVER
    ensures Enabled(s, TimerFired(k, Armed, react))
    ensures RunsOf(Step(s, TimerFired(k, Armed, react)).log, k) == 1
  {
    ReachableInv(s);
    TimerStandsArmed(s, k);
    ArmedMayFire(s, k, react);
    FiringCompletes(s, k, react);
  }

  lemma ArmedMayFire(s: Conn, k: nat, react: nat -> Reaction)
    requires Has(s, k) && s.tasks[k].armed && Waiting(k) in s.pending
    ensures Enabled(s, TimerFired(k, Armed, react))
  {
  }

  lemma FiringCompletes(s: Conn, k: nat, react: nat -> Reaction)
    requires Inv(s) && Waiting(k) in s.pending && k < |s.tasks| && s.tasks[k].armed
    ensures RunsOf(Step(s, TimerFired(k, Armed, react)).log, k) == 1
  {
    TimeoutKeeps(s, k, Armed, react);
    SettledRuns(HandleTimeout(Fire(s, Waiting(k)), k, Armed, react), k);
    TimerStep(s, k, Armed, react);
  }

  lemma TimerStep(s: Conn, k: nat, how: TimerFire, react: nat -> Reaction)
    requires Has(s, k)
    ensures Step(s, TimerFired(k, how, react)) == HandleTimeout(Fire(s, Waiting(k)), k, how, react)
  {
  }

  lemma TimerStandsArmed(s: Conn, k: nat)
    requires Settled(s) && k < |s.tasks| && RunsOf(s.log, k) == 0 && s.tasks[k].timeout != TIMEOUT_NEVER
    ensures s.tasks[k].armed && Waiting(k) in s.pending
  {
    assert ViewOk(ViewOf(s, k));
  }

  lemma SettledRuns(s: Conn, k: nat)
    requires Settled(s) && k < |s.tasks|
    ensures RunsOf(s.log, k) == if s.tasks[k].called then 1 else 0
  {
    assert ViewOk(ViewOf(s, k));
  }

  /** Ids count up over the whole life of the object, across any number of reconnects. */
  lemma IdsIncrease(s: Conn, es: seq<Event>, s': Conn)
    requires Reachable(s) && Runs(s, es, s')
    ensures s.id <= s'.id
    ensures forall k | 0 <= k < |s.tasks| :: s'.tasks[k].id == s.tasks[k].id <= s.id
    ensures forall k | |s.tasks| <= k < |s'.tasks| :: s'.tasks[k].id > s.id
  {
    ReachableInv(s);
    RunKeeps(s, es, s');
  }

  /** Every task is sent, that is, entered in `outgoing_tasks`, at most once, and always under its own id. */
  lemma EnteredOnce(s: Conn)
    requires Reachable(s)
    ensures forall i, j | 0 <= i < j < |s.sent| :: s.sent[i] != s.sent[j]
    ensures forall i | i in s.outgoing :: s.tasks[s.outgoing[i]].id == i && s.outgoing[i] in s.sent
  {
    ReachableInv(s);
    SentDistinct(s);
    OutgoingSent(s);
  }

  lemma OutgoingSent(s: Conn)
    requires Settled(s)
    ensures forall i | i in s.outgoing :: s.tasks[s.outgoing[i]].id == i && s.outgoing[i] in s.sent
  {
    forall i | i in s.outgoing ensures s.tasks[s.outgoing[i]].id == i && s.outgoing[i] in s.sent {
      SentAtMostOnce(s, i - 1);
    }
  }

  lemma SentDistinct(s: Conn)
    requires Settled(s)
    ensures forall i, j | 0 <= i < j < |s.sent| :: s.sent[i] != s.sent[j]
  {
    forall i, j | 0 <= i < j < |s.sent| ensures s.sent[i] != s.sent[j] {
      if s.sent[i] == s.sent[j] {
        TwiceSent(s.sent, i, j);
        SentAtMostOnce(s, s.sent[i]);
      }
    }
  }

  lemma SentAtMostOnce(s: Conn, k: nat)
    requires Settled(s) && k < |s.tasks|
    ensures multiset(s.sent)[k] <= 1
    ensures k + 1 in s.outgoing ==> k in s.sent
  {
    assert ViewOk(ViewOf(s, k));
  }

  lemma TwiceSent(sent: seq<nat>, i: nat, j: nat)
    requires i < j < |sent| && sent[i] == sent[j]
    ensures multiset(sent)[sent[i]] >= 2
  {
    assert sent == sent[..j] + [sent[j]] + sent[j + 1..];
    assert sent[..j][i] == sent[i];
  }

  /** A response under an id that no call waits for changes no call and, memory permitting, leaves a read pending. */
  lemma StrangerChangesNothing(s: Conn, end: ReadEnd, rpc: Response, param: Option<Msg>, react: nat -> Reaction)
    requires WellFormed(s) && ReadingPayload in s.pending && WholePayload(s, end)
    requires rpc.id.Some? && rpc.status.Some? && rpc.id.value !in s.outgoing
    ensures var s' := Step(s, PayloadRead(end, Some(rpc), param, true, react));
      && s' == s.(pending := s.pending - multiset{ReadingPayload} + multiset{ReadingHeader},
                  received := s.received + [Received(rpc.id.value, rpc.status.value, param)])
  {
    StrangerHandled(Fire(s, ReadingPayload), end, rpc, param, react);
  }

  lemma StrangerHandled(s: Conn, end: ReadEnd, rpc: Response, param: Option<Msg>, react: nat -> Reaction)
    requires WellFormed(s) && WholePayload(s, end)
    requires rpc.id.Some? && rpc.status.Some? && rpc.id.value !in s.outgoing
    ensures HandleReadPayload(s, end, Some(rpc), param, true, react)
      == Await(Note(s, Received(rpc.id.value, rpc.status.value, param)), ReadingHeader)
  {
  }
}
