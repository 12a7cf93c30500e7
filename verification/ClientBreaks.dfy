/**
 What ends a client connection, and what goes on: every event that closes the
 socket closes it for all, and the others change what they say they change.
 */
module ClientBreaks {
  import opened Wire
  import opened RpcMessages
  import opened Frames
  import opened ClientModel
  import opened ClientSafety
  import opened ClientRuns
  import opened ClientOutcomes

  /**
   An event after which the connection is given up: a failed resolve, connect or
   write; a header or a payload that did not come, or came short, or does not parse;
   no memory to read on; and a timeout before the connection is made.
   */
  predicate Breaks(s: Conn, e: Event) {
    match e
    case Resolved(_, ok, _, _) => !ok
    case Connected(_, ok, _, granted, _) => !ok || !granted
    case HeaderRead(ok, _, granted, _) => !ok || !granted
    case PayloadRead(end, rpc, _, granted, _) => !granted || rpc.None? || end.Broken? || (end.Eof? && end.transferred != s.n)
    case Written(_, ok, _) => !ok
    case TimerFired(_, how, _) => how != Aborted && s.connecting
    case _ => false
  }

  /** The call that the event itself is about. */
  function Own(e: Event): set<nat> {
    match e
    case Resolved(k, _, _, _) => {k}
    case Connected(k, _, _, _, _) => {k}
    case Written(k, _, _) => {k}
    case TimerFired(k, _, _) => {k}
    case _ => {}
  }

  /** Between `s` and `s'` the callback of task `k` ran and saw EC_FAILED. */
  predicate Failed(s: Conn, s': Conn, k: nat) {
    exists j :: |s.log| <= j < |s'.log| && s'.log[j].k == k && s'.log[j].code == EC_FAILED
  }

  /** The socket is closed, and every other call that waited has failed. */
  ghost predicate Torn(s: Conn, own: set<nat>, s': Conn)
    requires WellFormed(s)
  {
    && !s'.open && s'.outgoing == map[]
    && forall i | i in s.outgoing && i - 1 !in own && !s.tasks[i - 1].called :: Failed(s, s', i - 1)
  }

  /** `x` still has the calls that waited in `s`. */
  ghost predicate Holds(s: Conn, own: set<nat>, x: Conn)
    requires WellFormed(s)
  {
    && |s.tasks| <= |x.tasks| && s.log <= x.log
    && forall i | i in s.outgoing && i - 1 !in own :: i in x.outgoing && x.tasks[i - 1].called == s.tasks[i - 1].called
  }

  lemma TornFrom(s: Conn, own: set<nat>, x: Conn, react: nat -> Reaction)
    requires WellFormed(s) && Destroyable(x) && Holds(s, own, x)
    ensures Torn(s, own, Destroy(x, react))
  {
    DestroyEffect(x, react);
    EachFails(s, own, x, react, Destroy(x, react));
  }

  lemma EachFails(s: Conn, own: set<nat>, x: Conn, react: nat -> Reaction, s': Conn)
    requires WellFormed(s) && Destroyable(x) && Holds(s, own, x) && s' == Destroy(x, react)
    ensures forall i | i in s.outgoing && i - 1 !in own && !s.tasks[i - 1].called :: Failed(s, s', i - 1)
  {
    forall i | i in s.outgoing && i - 1 !in own && !s.tasks[i - 1].called ensures Failed(s, s', i - 1) {
      DestroyFails(x, react, i);
      FailedSoon(s, x, s', i - 1);
    }
  }

  lemma FailedSoon(s: Conn, x: Conn, s': Conn, k: nat)
    requires k < |x.tasks| && |s.log| <= |x.log| && SawFailed(x, s', k)
    ensures Failed(s, s', k)
  {
    var j :| |x.log| <= j < |s'.log| && s'.log[j] == Completion(k, EC_FAILED, x.tasks[k].response);
    assert s'.log[j].k == k && s'.log[j].code == EC_FAILED;
  }

  /** Code that touches one task leaves the others waiting. */
  lemma HoldsOthers(s: Conn, s1: Conn, k: nat, x: Conn)
    requires WellFormed(s) && s1.tasks == s.tasks && s1.outgoing == s.outgoing && s1.log == s.log
    requires Grows(s1, x, {k}) && s1.log <= x.log
    ensures Holds(s, {k}, x)
  {
    forall i | i in s.outgoing && i - 1 !in {k} ensures i in x.outgoing && x.tasks[i - 1].called == s.tasks[i - 1].called {
      assert ViewOf(x, i - 1) == ViewOf(s1, i - 1);
      assert ViewOf(s1, i - 1).out;
    }
  }

  /** `s1` is what `s` is once a handler is fired. */
  ghost predicate Fired(s: Conn, s1: Conn) {
    s1.tasks == s.tasks && s1.outgoing == s.outgoing && s1.log == s.log
  }

  lemma FailedTears(s: Conn, s1: Conn, k: nat, code: ErrorCode, r: Reaction, react: nat -> Reaction)
    requires WellFormed(s) && Fired(s, s1) && Has(s1, k) && SettledBut(s1, {k}) && InHand(ViewOf(s1, k)) && code != EC_SUCCESS
    ensures Torn(s, {k}, Destroy(FailWith(s1, k, code, r), react))
  {
    var x := FailWith(s1, k, code, r);
    FailWithEffect(s1, k, code, r);
    HoldsOthers(s, s1, k, x);
    SettledDestroyable(x);
    TornFrom(s, {k}, x, react);
  }

  lemma ResolveTears(s: Conn, k: nat, isOpen: bool, react: nat -> Reaction)
    requires Settled(s) && Resolving(k) in s.pending && k < |s.tasks|
    ensures Torn(s, {k}, HandleResolve(Fire(s, Resolving(k)), k, false, isOpen, react))
  {
    FireTakesTask(s, Resolving(k));
    FailedTears(s, Fire(s, Resolving(k)), k, EC_ERROR, react(k + 1), react);
  }

  lemma ConnectTears(s: Conn, k: nat, send: SendOutcome, granted: bool, react: nat -> Reaction)
    requires Settled(s) && Connecting(k) in s.pending && k < |s.tasks|
    ensures Torn(s, {k}, HandleConnect(Fire(s, Connecting(k)), k, false, send, granted, react))
  {
    FireTakesTask(s, Connecting(k));
    FailedTears(s, Fire(s, Connecting(k)), k, EC_CONNECTION_FAILED, react(k + 1), react);
  }

  /** Connected, but without memory to read. */
  lemma NoReadTears(s: Conn, k: nat, send: SendOutcome, react: nat -> Reaction)
    requires Settled(s) && Connecting(k) in s.pending && k < |s.tasks|
    ensures Torn(s, {k}, HandleConnect(Fire(s, Connecting(k)), k, true, send, false, react))
  {
    var s1 := Fire(s, Connecting(k));
    FireTakesTask(s, Connecting(k));
    StartTears(s, s1.(connecting := false), k, send, react(k + 1), react);
  }

  lemma StartTears(s: Conn, s1: Conn, k: nat, send: SendOutcome, r: Reaction, react: nat -> Reaction)
    requires WellFormed(s) && Fired(s, s1) && Has(s1, k) && SettledBut(s1, {k}) && Unsent(ViewOf(s1, k))
    ensures Torn(s, {k}, StartRead(StartCall(s1, k, send, r), false, react))
  {
    var x := StartCall(s1, k, send, r);
    StartCallEffect(s1, k, send, r);
    SettledGrows(s1, x, k);
    HoldsOthers(s, s1, k, x);
    SettledDestroyable(x);
    TornFrom(s, {k}, x, react);
  }

  lemma HeaderTears(s: Conn, ok: bool, h: Header, react: nat -> Reaction)
    requires Settled(s) && ReadingHeader in s.pending
    ensures Torn(s, {}, HandleReadHeader(Fire(s, ReadingHeader), false, h, ok, react))
    ensures Torn(s, {}, HandleReadHeader(Fire(s, ReadingHeader), true, h, false, react))
  {
    var s1 := Fire(s, ReadingHeader);
    var s2 := TakeHeader(s1, h);
    FireKeepsSettled(s, ReadingHeader);
    assert forall i | 0 <= i < |s1.tasks| :: ViewOf(s2, i) == ViewOf(s1, i);
    AnsweredStays(s1, s2);
    SettledDestroyable(s1);
    SettledDestroyable(s2);
    TornFrom(s, {}, s1, react);
    TornFrom(s, {}, s2, react);
  }

  lemma WriteTears(s: Conn, k: nat, react: nat -> Reaction)
    requires Settled(s) && Writing(k) in s.pending && k < |s.tasks|
    ensures Torn(s, {k}, HandleWrite(Fire(s, Writing(k)), k, false, react))
  {
    var s1 := Fire(s, Writing(k));
    FireKeepsSettled(s, Writing(k));
    assert ViewOk(ViewOf(s1, k));
    FailedTears(s, s1, k, EC_TRANSPORT_ERROR, react(k + 1), react);
  }

  lemma PayloadTears(s: Conn, end: ReadEnd, rpc: Option<Response>, param: Option<Msg>, granted: bool, react: nat -> Reaction)
    requires Settled(s) && ReadingPayload in s.pending && (rpc.Some? ==> rpc.value.id.Some? && rpc.value.status.Some?)
    requires !granted || rpc.None? || end.Broken? || (end.Eof? && end.transferred != s.n)
    ensures Torn(s, {}, HandleReadPayload(Fire(s, ReadingPayload), end, rpc, param, granted, react))
  {
    var s1 := Fire(s, ReadingPayload);
    FireKeepsSettled(s, ReadingPayload);
    if rpc.None? || end.Broken? || (end.Eof? && end.transferred != s.n) {
      SettledDestroyable(s1);
      TornFrom(s, {}, s1, react);
    } else {
      ResponseTears(s, s1, rpc.value.id.value, rpc.value.status.value, param, react);
    }
  }

  /** The response is taken, but there is no memory to read on. */
  lemma ResponseTears(s: Conn, s1: Conn, id: uint64, st: Status, param: Option<Msg>, react: nat -> Reaction)
    requires WellFormed(s) && Fired(s, s1) && Settled(s1)
    ensures Torn(s, {}, TakeResponse(s1, id, st, param, false, react))
  {
    if id in s1.outgoing {
      MatchedTears(s, s1, id - 1, st, param, react);
    } else {
      StrangerTears(s, s1, Received(id, st, param), react);
    }
  }

  lemma MatchedTears(s: Conn, s1: Conn, k: nat, st: Status, param: Option<Msg>, react: nat -> Reaction)
    requires WellFormed(s) && Fired(s, s1) && Settled(s1) && k + 1 in s1.outgoing && k + 1 < TWO64
    ensures Torn(s, {}, Destroy(Matched(s1, k, st, param), react))
  {
    var x := Matched(s1, k, st, param);
    MatchedSettled(s1, k, st, param);
    MatchedChanges(s1, k, st, param);
    MatchedHolds(s, s1, k, x);
    TornFrom(s, {}, x, react);
  }

  lemma MatchedHolds(s: Conn, s1: Conn, k: nat, x: Conn)
    requires WellFormed(s) && Fired(s, s1) && k < |s.tasks| == |x.tasks| && x.outgoing == s1.outgoing && x.log == s1.log
    requires x.tasks[k].called == s1.tasks[k].called
    requires forall i | 0 <= i < |s1.tasks| && i != k :: ViewOf(x, i) == ViewOf(s1, i)
    ensures Holds(s, {}, x)
  {
    forall i | i in s.outgoing ensures i in x.outgoing && x.tasks[i - 1].called == s.tasks[i - 1].called {
      assert i - 1 != k ==> ViewOf(x, i - 1) == ViewOf(s1, i - 1);
    }
  }

  lemma StrangerTears(s: Conn, s1: Conn, a: Received, react: nat -> Reaction)
    requires WellFormed(s) && Fired(s, s1) && Settled(s1)
    ensures Torn(s, {}, Destroy(Note(s1, a), react))
  {
    var x := Note(s1, a);
    NotedViews(s1, a);
    AnsweredStays(s1, x);
    SettledDestroyable(x);
    TornFrom(s, {}, x, react);
  }

  lemma TimeoutTears(s: Conn, k: nat, how: TimerFire, react: nat -> Reaction)
    requires Settled(s) && k < |s.tasks| && Waiting(k) in s.pending && s.connecting && how != Aborted
    requires how == Armed || (s.tasks[k].armed ==> s.pending[Waiting(k)] >= 2)
    ensures Torn(s, {k}, HandleTimeout(Fire(s, Waiting(k)), k, how, react))
  {
    TimerFireReady(s, k, how);
    TimedOutTears(s, Fire(s, Waiting(k)), k, how, react);
  }

  lemma TimedOutTears(s: Conn, s1: Conn, k: nat, how: TimerFire, react: nat -> Reaction)
    requires WellFormed(s) && Fired(s, s1) && s1.connecting && Has(s1, k) && SettledBut(s1, {k}) && how != Aborted
    requires InHand(ViewOf(s1, k).(task := s1.tasks[k].(armed := false))) && (how != Armed ==> InHand(ViewOf(s1, k)))
    ensures Torn(s, {k}, HandleTimeout(s1, k, how, react))
  {
    var s2 := TimedOut(s1, k, how);
    var x := FailWith(s2, k, EC_RPC_TIMEOUT, react(k + 1));
    TimedOutEffect(s1, k, how);
    FailWithEffect(s2, k, EC_RPC_TIMEOUT, react(k + 1));
    HoldsSince(s, s1, s2, k, x);
    SettledDestroyable(x);
    TornFrom(s, {k}, x, react);
  }

  lemma HoldsSince(s: Conn, s1: Conn, s2: Conn, k: nat, x: Conn)
    requires WellFormed(s) && Fired(s, s1) && |s2.tasks| == |s.tasks| && s2.log == s.log
    requires forall i | 0 <= i < |s.tasks| && i != k :: ViewOf(s2, i) == ViewOf(s1, i)
    requires Grows(s2, x, {k}) && s2.log <= x.log
    ensures Holds(s, {k}, x)
  {
    forall i | i in s.outgoing && i - 1 !in {k} ensures i in x.outgoing && x.tasks[i - 1].called == s.tasks[i - 1].called {
      assert ViewOf(x, i - 1) == ViewOf(s2, i - 1) == ViewOf(s1, i - 1);
      assert ViewOf(s1, i - 1).out;
    }
  }

  /**
   After each of these events the socket is closed and nobody waits any more; every
   other call that waited has completed, and its callback saw EC_FAILED.
   */
  lemma BrokenConnection(s: Conn, e: Event)
    requires Reachable(s) && Enabled(s, e) && Breaks(s, e)
    ensures Torn(s, Own(e), Step(s, e))
  {
    ReachableInv(s);
    match e
    case Resolved(k, _, isOpen, react) => ResolveTears(s, k, isOpen, react);
    case Connected(k, ok, send, granted, react) =>
      if ok { NoReadTears(s, k, send, react); } else { ConnectTears(s, k, send, granted, react); }
    case HeaderRead(_, h, granted, react) => HeaderTears(s, granted, h, react);
    case PayloadRead(end, rpc, param, granted, react) => PayloadTears(s, end, rpc, param, granted, react);
    case Written(k, _, react) => WriteTears(s, k, react);
    case TimerFired(k, how, react) => TimeoutTears(s, k, how, react);
  }

  /* What goes on. */

  /** A resolve, a read header, a write, an aborted wait: exactly this changes. */
  lemma GoesOn(s: Conn, e: Event)
    requires WellFormed(s) && Enabled(s, e)
    ensures e.Resolved? && e.ok ==>
      Step(s, e) == s.(pending := s.pending - multiset{Resolving(e.k)} + multiset{Connecting(e.k)}, open := e.isOpen)
    ensures e.HeaderRead? && e.ok && e.granted ==>
      Step(s, e) == s.(pending := s.pending - multiset{ReadingHeader} + multiset{ReadingPayload}, header := e.header,
                       n := (e.header.rpcLen + e.header.reqLen + e.header.respLen) % 0x1_0000_0000)
    ensures e.Written? && e.ok ==> Step(s, e) == s.(pending := s.pending - multiset{Writing(e.k)})
    ensures e.TimerFired? && e.how == Aborted ==> Step(s, e) == s.(pending := s.pending - multiset{Waiting(e.k)})
    ensures e.NextEndpoint? ==> Step(s, e) == s.(open := e.isOpen)
  {
    if e.HeaderRead? && e.ok && e.granted {
      PayloadFollows(s, e.ok, e.header, e.granted, e.react);
    }
  }

  lemma PayloadFollows(s: Conn, ok: bool, h: Header, granted: bool, react: nat -> Reaction)
    requires WellFormed(s) && ok && granted
    ensures HandleReadHeader(Fire(s, ReadingHeader), ok, h, granted, react)
         == s.(pending := s.pending - multiset{ReadingHeader} + multiset{ReadingPayload}, header := h,
               n := (h.rpcLen + h.reqLen + h.respLen) % 0x1_0000_0000)
  {
  }

  /** The connection is made, and the call of task `k` is the last that was sent on it and waits. */
  ghost predicate Made(s: Conn, k: nat, s': Conn) {
    && !s'.connecting && s'.open == s.open && s'.log == s.log && s'.sent == s.sent + [k]
    && s'.outgoing == s.outgoing[k + 1 := k] && Writing(k) in s'.pending && ReadingHeader in s'.pending
  }

  /** A connect that succeeds: the connection is made, its call sent, even one that has timed out, and read for. */
  lemma Established(s: Conn, k: nat, e: Event)
    requires Reachable(s) && Enabled(s, e) && e.Connected? && e.k == k && e.ok && e.send == Sends && e.granted
    ensures Made(s, k, Step(s, e))
  {
    ReachableInv(s);
    ConnectMakes(s, k, e.ok, e.send, e.granted, e.react);
  }

  lemma ConnectMakes(s: Conn, k: nat, ok: bool, send: SendOutcome, granted: bool, react: nat -> Reaction)
    requires Settled(s) && Connecting(k) in s.pending && k < |s.tasks| && ok && send == Sends && granted
    ensures Made(s, k, HandleConnect(Fire(s, Connecting(k)), k, ok, send, granted, react))
  {
    FireTakesTask(s, Connecting(k));
    NotSentYet(s, k);
    ConnectSends(Fire(s, Connecting(k)), k, ok, send, granted, react);
    SentAndRead(s, Fire(s, Connecting(k)).(connecting := false), k);
  }

  lemma SentAndRead(s: Conn, s1: Conn, k: nat)
    requires Has(s1, k) && k + 1 !in s1.outgoing && !s1.connecting && Fired(s, s1) && s1.open == s.open && s1.sent == s.sent
    ensures Made(s, k, Await(Transmit(s1, k), ReadingHeader))
  {
    Transmitted(s1, k);
  }

  lemma ConnectSends(s: Conn, k: nat, ok: bool, send: SendOutcome, granted: bool, react: nat -> Reaction)
    requires Has(s, k) && ok && send == Sends && granted
    ensures HandleConnect(s, k, ok, send, granted, react) == Await(Transmit(s.(connecting := false), k), ReadingHeader)
  {
  }

  lemma NotSentYet(s: Conn, k: nat)
    requires Settled(s) && Connecting(k) in s.pending && k < |s.tasks|
    ensures k + 1 !in s.outgoing
  {
    assert ViewOk(ViewOf(s, k));
  }

  /** The code that a callback sees for an answer: that of its status, unless the parameter does not parse. */
  predicate Coded(code: ErrorCode, st: Status, param: Option<Msg>) {
    && (param.None? ==> code == EC_SERIALIZATION_ERROR)
    && (param.Some? && st == SUCCESS ==> code == EC_SUCCESS)
    && (param.Some? && st == ERROR ==> code == EC_ERROR)
    && (param.Some? && st == NOT_FOUND ==> code == EC_METHOD_NOT_FOUND)
    && (param.Some? && st == FAILED ==> code == EC_FAILED)
  }

  /** The call is no longer waited for; if it had not completed it has now, and its callback saw the code of the answer. */
  ghost predicate AnsweredNow(s: Conn, k: nat, st: Status, param: Option<Msg>, s': Conn)
    requires k < |s.tasks| <= |s'.tasks|
  {
    && k + 1 !in s'.outgoing && Retired(s'.tasks[k])
    && (!s.tasks[k].called ==>
          && |s'.log| > |s.log| && s'.log[|s.log|].k == k && Coded(s'.log[|s.log|].code, st, param)
          && (param.Some? ==> s'.log[|s.log|].response == param))
  }

  /** A payload read to its end, with memory to read on, answers the call it names. */
  lemma AnswerCompletes(s: Conn, k: nat, e: Event)
    requires Reachable(s) && Enabled(s, e) && Answers(s, k, e)
    ensures AnsweredNow(s, k, e.rpc.value.status.value, e.param, Step(s, e))
  {
    ReachableInv(s);
    FiredAnswers(s, k, e.rpc.value.status.value, e.param, e.granted, e.react);
    PayloadStep(s, k, e);
  }

  predicate Answers(s: Conn, k: nat, e: Event) {
    && k + 1 in s.outgoing && k + 1 < TWO64
    && e.PayloadRead? && e.granted && (e.end == NoError || (e.end.Eof? && e.end.transferred == s.n))
    && e.rpc.Some? && e.rpc.value.id == Some(k + 1) && e.rpc.value.status.Some?
  }

  lemma FiredAnswers(s: Conn, k: nat, st: Status, param: Option<Msg>, granted: bool, react: nat -> Reaction)
    requires Settled(s) && ReadingPayload in s.pending && k + 1 in s.outgoing && k + 1 < TWO64 && granted
    ensures var s' := Deliver(Fire(s, ReadingPayload), k, st, param, granted, react);
      |s'.tasks| >= |s.tasks| && AnsweredNow(s, k, st, param, s')
  {
    var s1 := Fire(s, ReadingPayload);
    FireKeepsSettled(s, ReadingPayload);
    DeliverAnswers(s1, k, st, param, react);
    AnsweredSince(s, s1, k, st, param, Deliver(s1, k, st, param, granted, react));
  }

  lemma AnsweredSince(s: Conn, s1: Conn, k: nat, st: Status, param: Option<Msg>, s': Conn)
    requires k < |s.tasks| <= |s'.tasks| && s1.tasks == s.tasks && s1.log == s.log && AnsweredNow(s1, k, st, param, s')
    ensures AnsweredNow(s, k, st, param, s')
  {
  }

  lemma DeliverAnswers(s: Conn, k: nat, st: Status, param: Option<Msg>, react: nat -> Reaction)
    requires Answering(s, k) && Settled(s)
    ensures var s' := Deliver(s, k, st, param, true, react);
      |s'.tasks| >= |s.tasks| && AnsweredNow(s, k, st, param, s')
  {
    AnswerDelivered(s, k, st, param, react);
    AnswerErased(s, k, st, param, react);
  }

  lemma PayloadStep(s: Conn, k: nat, e: Event)
    requires WellFormed(s) && Answers(s, k, e)
    ensures Step(s, e) == Deliver(Fire(s, ReadingPayload), k, e.rpc.value.status.value, e.param, e.granted, e.react)
  {
    WholeTaken(Fire(s, ReadingPayload), e.end, e.rpc.value, e.param, e.granted, e.react);
  }

  lemma WholeTaken(s: Conn, end: ReadEnd, rpc: Response, param: Option<Msg>, granted: bool, react: nat -> Reaction)
    requires WellFormed(s) && rpc.id.Some? && rpc.status.Some?
    requires end == NoError || (end.Eof? && end.transferred == s.n)
    ensures HandleReadPayload(s, end, Some(rpc), param, granted, react)
         == TakeResponse(s, rpc.id.value, rpc.status.value, param, granted, react)
  {
  }

  lemma AnswerErased(s: Conn, k: nat, st: Status, param: Option<Msg>, react: nat -> Reaction)
    requires Answering(s, k) && Settled(s)
    ensures k + 1 !in Deliver(s, k, st, param, true, react).outgoing
  {
    var s3 := Erase(Await(Matched(s, k, st, param), ReadingHeader), k + 1);
    DeliverReady(s, k, st, param);
    FinishErased(s3, k, react(k + 1));
  }

  lemma FinishErased(s: Conn, k: nat, r: Reaction)
    requires Has(s, k) && k + 1 !in s.outgoing
    ensures k + 1 !in Finish(s, k, r).outgoing
  {
    TaskChanged(s, k, s.tasks[k].(armed := false));
    CompleteEffect(CancelTimer(s, k), k, r);
    assert !ViewOf(Finish(s, k, r), k).out;
  }

  /** A wait that fires, armed or stale, takes its call out of `outgoing_tasks`. */
  lemma TimeoutErases(s: Conn, k: nat, how: TimerFire, react: nat -> Reaction)
    requires Reachable(s) && Enabled(s, TimerFired(k, how, react)) && how != Aborted
    ensures k + 1 !in Step(s, TimerFired(k, how, react)).outgoing
  {
    ReachableInv(s);
    TimerFireReady(s, k, how);
    TimedOutErased(Fire(s, Waiting(k)), k, how, react);
  }

  lemma TimedOutErased(s: Conn, k: nat, how: TimerFire, react: nat -> Reaction)
    requires Has(s, k) && SettledBut(s, {k}) && how != Aborted
    requires InHand(ViewOf(s, k).(task := s.tasks[k].(armed := false))) && (how != Armed ==> InHand(ViewOf(s, k)))
    ensures k + 1 !in HandleTimeout(s, k, how, react).outgoing
  {
    var s2 := TimedOut(s, k, how);
    TimedOutEffect(s, k, how);
    FailedErased(s2, k, react(k + 1));
    var x := FailWith(s2, k, EC_RPC_TIMEOUT, react(k + 1));
    FailWithEffect(s2, k, EC_RPC_TIMEOUT, react(k + 1));
    if x.connecting {
      DestroySettled(x, react);
    }
  }

  lemma FailedErased(s: Conn, k: nat, r: Reaction)
    requires Has(s, k) && k + 1 !in s.outgoing
    ensures k + 1 !in FailWith(s, k, EC_RPC_TIMEOUT, r).outgoing
  {
    var s1 := SetFailed(s, k, EC_RPC_TIMEOUT);
    CompleteEffect(s1, k, r);
    assert !s.tasks[k].called ==> !ViewOf(Complete(s1, k, r), k).out;
  }
}
