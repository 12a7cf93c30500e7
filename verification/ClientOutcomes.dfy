/**
 What single handlers of the client connection do to the call in hand and to
 the others, for every reachable state.
 */
module ClientOutcomes {
  import opened Wire
  import opened ClientModel
  import opened ClientSafety
  import opened ClientRuns

  /* Which error a caller sees. */

  /** A handler of task `k` that ran with an error, or its timer. */
  predicate Fails(e: Event, k: nat) {
    match e
    case Resolved(j, ok, _, _) => j == k && !ok
    case Connected(j, ok, _, _, _) => j == k && !ok
    case Written(j, ok, _) => j == k && !ok
    case TimerFired(j, how, _) => j == k && how != Aborted
    case _ => false
  }

  /** A failing handler completes its own call before any other, and the callback sees that handler's code. */
  lemma FailureReported(s: Conn, e: Event, k: nat)
    requires Reachable(s) && Enabled(s, e) && k < |s.tasks| && RunsOf(s.log, k) == 0 && Fails(e, k)
    ensures var code :=
      match e
      case Resolved(_, _, _, _) => EC_ERROR
      case Connected(_, _, _, _, _) => EC_CONNECTION_FAILED
      case Written(_, _, _) => EC_TRANSPORT_ERROR
      case _ => EC_RPC_TIMEOUT;
      s.log + [Completion(k, code, s.tasks[k].response)] <= Step(s, e).log
  {
    ReachableInv(s);
    SettledRuns(s, k);
    match e
    case Resolved(_, ok, isOpen, react) => ResolvedKeeps(s, k, ok, isOpen, react);
    case Connected(_, ok, send, granted, react) => ConnectedKeeps(s, k, ok, send, granted, react);
    case Written(_, ok, react) => WrittenKeeps(s, k, ok, react);
    case TimerFired(_, how, react) => TimeoutKeeps(s, k, how, react);
  }

  /**
   `issue` resolves first when the socket is closed, and sends when it is open;
   a call that cannot be sent completes before `issue` returns, its timer off.
   */
  lemma IssueOutcome(s: Conn, c: Call)
    requires WellFormed(s)
    ensures var k, s' := |s.tasks|, Issue(s, c);
      && (!s.open ==> s'.connecting && Resolving(k) in s'.pending && s'.outgoing == s.outgoing && s'.log == s.log)
      && (s.open && c.send == Sends ==>
            s'.outgoing == s.outgoing[k + 1 := k] && s'.sent == s.sent + [k] && Writing(k) in s'.pending && s'.log == s.log)
      && (s.open && c.send != Sends ==>
            && Retired(s'.tasks[k])
            && (c.send == NoMemory ==> s.log + [Completion(k, EC_OOM, None)] <= s'.log)
            && (c.send != NoMemory ==> s.log + [Completion(k, EC_SERIALIZATION_ERROR, None)] <= s'.log))
  {
    var k, s1 := |s.tasks|, AddTask(s, c);
    Added(s, c);
    if s.open {
      StartOutcome(s1, k, c.send, c.reaction);
    } else {
      ResolveStarts(s1, k);
    }
  }

  /** The new task is the call: its method, its request, its timeout, and the next id. */
  lemma IssueTakesCall(s: Conn, c: Call)
    requires WellFormed(s)
    ensures var k, s' := |s.tasks|, Issue(s, c);
      var t := s'.tasks[k];
      && t.id == s.id + 1 && t.service == c.service && t.name == c.name && t.request == c.request && t.timeout == c.timeout
      && (c.timeout != 0 && !t.called ==> t.armed && Waiting(k) in s'.pending)
  {
    var k, s1 := |s.tasks|, AddTask(s, c);
    IssueEffect(s, c);
    Added(s, c);
    if s.open {
      StartCallEffect(s1, k, c.send, c.reaction);
    } else {
      ResolveEffect(s1, k);
    }
    assert ViewOk(ViewOf(Issue(s, c), k));
  }

  /** Behind a call issued with a timeout, until it completes, stands a timer that may fire, and completes it. */
  lemma IssuedTimerCovers(s: Conn, c: Call, k: nat, s1: Conn, es: seq<Event>, s': Conn, react: nat -> Reaction)
    requires Reachable(s) && k == |s.tasks| && s1 == Issue(s, c) && Runs(s1, es, s')
    requires c.timeout != 0 && RunsOf(s'.log, k) == 0
    ensures k < |s'.tasks| && s'.tasks[k].timeout == c.timeout
    ensures Enabled(s', TimerFired(k, Armed, react)) && RunsOf(Step(s', TimerFired(k, Armed, react)).log, k) == 1
  {
    ReachableInv(s);
    IssueKeeps(s, c);
    IssueTakesCall(s, c);
    RunKeeps(s1, es, s');
    assert SameCall(s1.tasks[k], s'.tasks[k]);
    TimerCoversNow(s', k, react);
  }

  lemma TimerCoversNow(s: Conn, k: nat, react: nat -> Reaction)
    requires Inv(s) && k < |s.tasks| && RunsOf(s.log, k) == 0 && s.tasks[k].timeout != 0
    ensures Enabled(s, TimerFired(k, Armed, react)) && RunsOf(Step(s, TimerFired(k, Armed, react)).log, k) == 1
  {
    TimerStandsArmed(s, k);
    ArmedMayFire(s, k, react);
    FiringCompletes(s, k, react);
  }

  lemma StartOutcome(s: Conn, k: nat, send: SendOutcome, r: Reaction)
    requires Has(s, k) && InHand(ViewOf(s, k)) && k + 1 !in s.outgoing
    ensures var s' := StartCall(s, k, send, r);
      && (send == Sends ==>
            s'.outgoing == s.outgoing[k + 1 := k] && s'.sent == s.sent + [k] && Writing(k) in s'.pending && s'.log == s.log)
      && (send != Sends ==> Retired(s'.tasks[k]))
      && (send == NoMemory ==> Reports(s, k, EC_OOM, s'))
      && (send == MetaUnprintable || send == ParamUnprintable ==> Reports(s, k, EC_SERIALIZATION_ERROR, s'))
  {
    if send == Sends {
      Transmitted(s, k);
    } else {
      FinishFailed(s, k, if send == NoMemory then EC_OOM else EC_SERIALIZATION_ERROR, r);
    }
  }

  lemma Transmitted(s: Conn, k: nat)
    requires Has(s, k) && k + 1 !in s.outgoing
    ensures var s' := Transmit(s, k);
      && s'.outgoing == s.outgoing[k + 1 := k] && s'.sent == s.sent + [k] && Writing(k) in s'.pending && s'.log == s.log
  {
    SetTimerEffect(Enter(s, k), k);
  }

  lemma ResolveStarts(s: Conn, k: nat)
    requires Has(s, k)
    ensures var s' := SetTimer(Await(s, Resolving(k)).(connecting := true), k);
      s'.connecting && Resolving(k) in s'.pending && s'.outgoing == s.outgoing && s'.log == s.log
  {
  }

  /* The callback. */

  /** The task is the call's. */
  predicate Takes(t: Task, c: Call) {
    t.service == c.service && t.name == c.name && t.request == c.request && t.timeout == c.timeout
  }

  /** From `from` on there is a task for each of these calls, in their order. */
  predicate TookAll(ts: seq<Task>, from: nat, cs: seq<Call>)
    decreases |cs|
  {
    cs == [] || exists m :: from <= m < |ts| && Takes(ts[m], cs[0]) && TookAll(ts, m + 1, cs[1..])
  }

  /**
   A callback runs once, on the code and the response as they stand; the calls it
   makes are issued; and if it throws, its controller has failed.
   */
  lemma CallbackRuns(s: Conn, k: nat, r: Reaction)
    requires Has(s, k) && !s.tasks[k].called
    ensures var s' := Complete(s, k, r);
      && s'.tasks[k].called && s'.tasks[k].response == s.tasks[k].response
      && s'.tasks[k].code == (if r.throws then EC_FAILED else s.tasks[k].code)
      && s.log + [Completion(k, s.tasks[k].code, s.tasks[k].response)] <= s'.log
      && TookAll(s'.tasks, |s.tasks|, r.calls)
  {
    CompleteEffect(s, k, r);
    CallsMade(s, k, r);
  }

  lemma CallsMade(s: Conn, k: nat, r: Reaction)
    requires Has(s, k) && !s.tasks[k].called
    ensures TookAll(Complete(s, k, r).tasks, |s.tasks|, r.calls)
  {
    var s1 := s.(log := s.log + [Completion(k, s.tasks[k].code, s.tasks[k].response)]);
    AllTaken(s1, r.calls);
    OnlyOwnTask(s, k, r, s1);
    TookSame(IssueAll(s1, r.calls).tasks, Complete(s, k, r).tasks, |s.tasks|, r.calls);
  }

  /** Beside its calls a callback changes only its own task. */
  lemma OnlyOwnTask(s: Conn, k: nat, r: Reaction, s1: Conn)
    requires Has(s, k) && !s.tasks[k].called && s1 == s.(log := s.log + [Completion(k, s.tasks[k].code, s.tasks[k].response)])
    ensures var ts, ts' := IssueAll(s1, r.calls).tasks, Complete(s, k, r).tasks;
      |ts| == |ts'| && forall m | |s.tasks| <= m < |ts| :: ts'[m] == ts[m]
  {
  }

  lemma {:induction false} AllTaken(s: Conn, cs: seq<Call>)
    requires WellFormed(s)
    ensures TookAll(IssueAll(s, cs).tasks, |s.tasks|, cs)
    decreases |cs|
  {
    if cs != [] {
      var s1, s' := Issue(s, cs[0]), IssueAll(s, cs);
      IssueTakesCall(s, cs[0]);
      AllTaken(s1, cs[1..]);
      IssueAllEffect(s1, cs[1..]);
      assert SameCall(s1.tasks[|s.tasks|], s'.tasks[|s.tasks|]);
      TookSooner(s'.tasks, |s.tasks| + 1, |s1.tasks|, cs[1..]);
    }
  }

  lemma TookSooner(ts: seq<Task>, from: nat, later: nat, cs: seq<Call>)
    requires from <= later && TookAll(ts, later, cs)
    ensures TookAll(ts, from, cs)
  {
  }

  lemma {:induction false} TookSame(ts: seq<Task>, ts': seq<Task>, from: nat, cs: seq<Call>)
    requires |ts| <= |ts'| && forall m | from <= m < |ts| :: SameCall(ts[m], ts'[m])
    requires TookAll(ts, from, cs)
    ensures TookAll(ts', from, cs)
    decreases |cs|
  {
    if cs != [] {
      var m :| from <= m < |ts| && Takes(ts[m], cs[0]) && TookAll(ts, m + 1, cs[1..]);
      TookSame(ts, ts', m + 1, cs[1..]);
    }
  }

  /* destroy */

  /** Between `s` and `s'` the callback of task `k` ran and saw EC_FAILED. */
  predicate SawFailed(s: Conn, s': Conn, k: nat)
    requires k < |s.tasks|
  {
    exists j :: |s.log| <= j < |s'.log| && s'.log[j] == Completion(k, EC_FAILED, s.tasks[k].response)
  }

  /**
   After `destroy` every call that waited in `outgoing_tasks` has completed, once, and
   its timer is off. If it had not completed before, its callback saw EC_FAILED.
   */
  lemma DestroyCompletesAll(s: Conn, react: nat -> Reaction, i: nat)
    requires Reachable(s) && i in s.outgoing
    ensures var s' := Destroy(s, react);
      && !s'.open && s'.outgoing == map[] && RunsOf(s'.log, i - 1) == 1 && Retired(s'.tasks[i - 1])
      && (RunsOf(s.log, i - 1) == 0 ==> SawFailed(s, s', i - 1))
  {
    ReachableInv(s);
    DestroyCompletesEach(s, react, Destroy(s, react), i);
  }

  lemma DestroyCompletesEach(s: Conn, react: nat -> Reaction, s': Conn, i: nat)
    requires Settled(s) && i in s.outgoing && s' == Destroy(s, react)
    ensures !s'.open && s'.outgoing == map[] && RunsOf(s'.log, i - 1) == 1 && Retired(s'.tasks[i - 1])
    ensures RunsOf(s.log, i - 1) == 0 ==> SawFailed(s, s', i - 1)
  {
    DestroySettled(s, react);
    TornDownCompletes(s, s', i);
    SettledRuns(s, i - 1);
    if RunsOf(s.log, i - 1) == 0 {
      SettledDestroyable(s);
      DestroyFails(s, react, i);
    }
  }

  lemma DestroyFails(s: Conn, react: nat -> Reaction, i: nat)
    requires Destroyable(s) && i in s.outgoing && !s.tasks[i - 1].called
    ensures SawFailed(s, Destroy(s, react), i - 1)
  {
    DestroyStart(s);
    LoopFails(CloseSocket(s), 0, s.id, react, i);
  }

  /** The loop's turn at `key`: the call it finds has failed, the views of the others are as they were. */
  ghost predicate KeyDone(s: Conn, key: nat, s1: Conn)
    requires WellFormed(s)
  {
    && |s.tasks| <= |s1.tasks| && s.log <= s1.log
    && (key in s.outgoing ==> Reports(s, key - 1, EC_FAILED, s1))
    && forall k | 0 <= k < |s.tasks| && k + 1 != key :: ViewOf(s1, k) == ViewOf(s, k)
  }

  lemma KeyDoneNow(s: Conn, key: nat, react: nat -> Reaction)
    requires Destroying(s, key)
    ensures KeyDone(s, key, DestroyKey(s, key, react))
  {
    if key in s.outgoing {
      assert ViewOf(s, key - 1).out;
      TaskDone(s, key, key - 1, react(key));
    } else {
      NothingDone(s, key);
    }
  }

  lemma NothingDone(s: Conn, key: nat)
    requires WellFormed(s) && key !in s.outgoing
    ensures KeyDone(s, key, s)
  {
  }

  lemma TaskDone(s: Conn, key: nat, k: nat, r: Reaction)
    requires Has(s, k) && key == k + 1 && key in s.outgoing && InHand(ViewOf(s, k)) && !s.open
    ensures KeyDone(s, key, DestroyTask(s, k, r))
  {
    DestroyTaskEffect(s, k, r);
    OneFailed(s, key, DestroyTask(s, k, r));
  }

  lemma OneFailed(s: Conn, key: nat, s1: Conn)
    requires WellFormed(s) && key in s.outgoing && Grows(s, s1, {key - 1}) && s.log <= s1.log
    requires Reports(s, key - 1, EC_FAILED, s1)
    ensures KeyDone(s, key, s1)
  {
  }

  lemma {:induction false} LoopFails(s: Conn, key: nat, last: nat, react: nat -> Reaction, i: nat)
    requires Destroying(s, key) && key <= i <= last && i in s.outgoing && !s.tasks[i - 1].called
    requires forall j | j in s.outgoing :: j <= last
    ensures SawFailed(s, DestroyTasks(s, key, last, react), i - 1)
    decreases last + 1 - key
  {
    var s1 := DestroyKey(s, key, react);
    LoopUnfolds(s, key, last, react);
    LoopTurn(s, key, last, react, s1);
    if key < i {
      StillWaits(s, s1, key, i);
      LoopFails(s1, key + 1, last, react, i);
    }
    KeyFails(s, s1, DestroyTasks(s1, key + 1, last, react), key, i);
  }

  lemma LoopTurn(s: Conn, key: nat, last: nat, react: nat -> Reaction, s1: Conn)
    requires Destroying(s, key) && key <= last && s1 == DestroyKey(s, key, react)
    requires forall j | j in s.outgoing :: j <= last
    ensures KeyDone(s, key, s1) && Destroying(s1, key + 1) && s1.outgoing == s.outgoing
    ensures s1.log <= DestroyTasks(s1, key + 1, last, react).log
  {
    KeyDoneNow(s, key, react);
    DestroyKeyEffect(s, key, react);
    LoopRest(s1, key + 1, last, react);
  }

  lemma StillWaits(s: Conn, s1: Conn, key: nat, i: nat)
    requires WellFormed(s) && KeyDone(s, key, s1) && i in s.outgoing && key != i && s1.outgoing == s.outgoing
    ensures i in s1.outgoing && s1.tasks[i - 1] == s.tasks[i - 1]
  {
    assert ViewOf(s1, i - 1) == ViewOf(s, i - 1);
  }

  lemma LoopUnfolds(s: Conn, key: nat, last: nat, react: nat -> Reaction)
    requires WellFormed(s) && key <= last
    ensures DestroyTasks(s, key, last, react) == DestroyTasks(DestroyKey(s, key, react), key + 1, last, react)
  {
  }

  lemma LoopRest(s: Conn, key: nat, last: nat, react: nat -> Reaction)
    requires Destroying(s, key) && key <= last + 1 && forall j | j in s.outgoing :: j <= last
    ensures s.log <= DestroyTasks(s, key, last, react).log
  {
    DestroyTasksEffect(s, key, last, react);
  }

  lemma KeyFails(s: Conn, s1: Conn, s': Conn, key: nat, i: nat)
    requires WellFormed(s) && KeyDone(s, key, s1) && i in s.outgoing && !s.tasks[i - 1].called && s1.log <= s'.log
    requires key == i || SawFailed(s1, s', i - 1)
    ensures SawFailed(s, s', i - 1)
  {
    if key == i {
      FirstEntry(s, s1, s', i - 1);
    } else {
      assert ViewOf(s1, i - 1) == ViewOf(s, i - 1);
      LaterEntry(s, s1, s', i - 1);
    }
  }

  /** Calls that had not completed complete in the order of their ids. */
  lemma DestroyInOrder(s: Conn, react: nat -> Reaction, i: nat, j: nat)
    requires Reachable(s) && i in s.outgoing && j in s.outgoing && i < j
    requires RunsOf(s.log, i - 1) == RunsOf(s.log, j - 1) == 0
    ensures Ordered(s, Destroy(s, react), i - 1, j - 1)
  {
    ReachableInv(s);
    DestroyInOrderFrom(s, react, Destroy(s, react), i, j);
  }

  lemma DestroyInOrderFrom(s: Conn, react: nat -> Reaction, s': Conn, i: nat, j: nat)
    requires Settled(s) && i in s.outgoing && j in s.outgoing && i < j && s' == Destroy(s, react)
    requires RunsOf(s.log, i - 1) == RunsOf(s.log, j - 1) == 0
    ensures Ordered(s, s', i - 1, j - 1)
  {
    SettledRuns(s, i - 1);
    SettledRuns(s, j - 1);
    SettledDestroyable(s);
    LoopInOrderAll(s, react, i, j);
  }

  lemma LoopInOrderAll(s: Conn, react: nat -> Reaction, i: nat, j: nat)
    requires Destroyable(s) && i in s.outgoing && j in s.outgoing && i < j
    requires !s.tasks[i - 1].called && !s.tasks[j - 1].called
    ensures Ordered(s, Destroy(s, react), i - 1, j - 1)
  {
    DestroyStart(s);
    LoopInOrder(CloseSocket(s), 0, s.id, react, i, j);
  }

  predicate Ordered(s: Conn, s': Conn, k: nat, l: nat) {
    exists a, b :: |s.log| <= a < b < |s'.log| && s'.log[a].k == k && s'.log[b].k == l
  }

  lemma {:induction false} LoopInOrder(s: Conn, key: nat, last: nat, react: nat -> Reaction, i: nat, j: nat)
    requires Destroying(s, key) && key <= i < j <= last && i in s.outgoing && j in s.outgoing
    requires !s.tasks[i - 1].called && !s.tasks[j - 1].called && forall m | m in s.outgoing :: m <= last
    ensures Ordered(s, DestroyTasks(s, key, last, react), i - 1, j - 1)
    decreases last + 1 - key
  {
    var s1 := DestroyKey(s, key, react);
    LoopUnfolds(s, key, last, react);
    LoopTurn(s, key, last, react, s1);
    StillWaits(s, s1, key, j);
    if key < i {
      StillWaits(s, s1, key, i);
      LoopInOrder(s1, key + 1, last, react, i, j);
      OrderedSince(s, s1, DestroyTasks(s1, key + 1, last, react), i - 1, j - 1);
    } else {
      LoopFails(s1, key + 1, last, react, j);
      FirstThenLater(s, s1, DestroyTasks(s1, key + 1, last, react), i, j);
    }
  }

  lemma OrderedSince(s: Conn, s1: Conn, s': Conn, k: nat, l: nat)
    requires |s.log| <= |s1.log| && Ordered(s1, s', k, l)
    ensures Ordered(s, s', k, l)
  {
    var a, b :| |s1.log| <= a < b < |s'.log| && s'.log[a].k == k && s'.log[b].k == l;
    assert |s.log| <= a < b < |s'.log| && s'.log[a].k == k && s'.log[b].k == l;
  }

  lemma FirstThenLater(s: Conn, s1: Conn, s': Conn, i: nat, j: nat)
    requires WellFormed(s) && KeyDone(s, i, s1) && i in s.outgoing && !s.tasks[i - 1].called && s1.log <= s'.log
    requires j >= 1 && j - 1 < |s1.tasks| && SawFailed(s1, s', j - 1)
    ensures Ordered(s, s', i - 1, j - 1)
  {
    var c := Completion(i - 1, EC_FAILED, s.tasks[i - 1].response);
    var a := |s.log|;
    assert (s.log + [c])[a] == c && s1.log[a] == c && s'.log[a] == c;
    var b :| |s1.log| <= b < |s'.log| && s'.log[b] == Completion(j - 1, EC_FAILED, s1.tasks[j - 1].response);
    assert a < b && s'.log[b].k == j - 1;
  }

  lemma FirstEntry(s: Conn, s1: Conn, s': Conn, k: nat)
    requires k < |s.tasks| && !s.tasks[k].called && Reports(s, k, EC_FAILED, s1) && s1.log <= s'.log
    ensures SawFailed(s, s', k)
  {
    var c := Completion(k, EC_FAILED, s.tasks[k].response);
    assert (s.log + [c])[|s.log|] == c;
    assert s'.log[|s.log|] == c;
  }

  lemma LaterEntry(s: Conn, s1: Conn, s': Conn, k: nat)
    requires k < |s.tasks| <= |s1.tasks| && s.log <= s1.log && s1.tasks[k].response == s.tasks[k].response
    requires SawFailed(s1, s', k)
    ensures SawFailed(s, s', k)
  {
  }

  lemma TornDownCompletes(s: Conn, s': Conn, i: nat)
    requires TornDown(s, s') && i in s.outgoing
    ensures RunsOf(s'.log, i - 1) == 1 && Retired(s'.tasks[i - 1])
  {
    SettledRuns(s', i - 1);
  }

  lemma {:induction false} DestroyTasksEmpty(s: Conn, key: nat, last: nat, react: nat -> Reaction)
    requires WellFormed(s) && s.outgoing == map[]
    ensures DestroyTasks(s, key, last, react) == s
    decreases last + 1 - key
  {
    if key <= last {
      DestroyTasksEmpty(s, key + 1, last, react);
    }
  }

  /** A second `destroy`, straight after the first, changes nothing. */
  lemma DestroyTwice(s: Conn, react: nat -> Reaction, react': nat -> Reaction)
    requires Reachable(s)
    ensures Destroy(Destroy(s, react), react') == Destroy(s, react)
  {
    ReachableInv(s);
    DestroySettled(s, react);
    DestroyNothing(Destroy(s, react), react');
  }

  lemma DestroyNothing(s: Conn, react: nat -> Reaction)
    requires WellFormed(s) && !s.open && s.outgoing == map[]
    ensures Destroy(s, react) == s
  {
    assert CloseSocket(s) == s;
    DestroyTasksEmpty(s, 0, s.id, react);
  }

  /* Timeouts and the other calls. */

  /** `s'` is torn down if `s` was connecting; if `s` was up, only task `k` changed. */
  predicate Scoped(s: Conn, k: nat, s': Conn)
    requires |s.tasks| <= |s'.tasks|
  {
    if s.connecting then !s'.open && s'.outgoing == map[]
    else s.open ==> s'.open && forall i | 0 <= i < |s.tasks| && i != k :: ViewOf(s', i) == ViewOf(s, i)
  }

  /**
   A timeout while the connection is being made tears the connection down. On a
   connection that is up it completes its own call and touches no other.
   */
  lemma TimeoutScope(s: Conn, k: nat, how: TimerFire, react: nat -> Reaction)
    requires Reachable(s) && Enabled(s, TimerFired(k, how, react)) && how != Aborted
    ensures Scoped(s, k, Step(s, TimerFired(k, how, react)))
  {
    ReachableInv(s);
    TimeoutScopeNow(s, k, how, react, TimerFired(k, how, react));
  }

  lemma TimeoutScopeNow(s: Conn, k: nat, how: TimerFire, react: nat -> Reaction, e: Event)
    requires Settled(s) && e == TimerFired(k, how, react) && Enabled(s, e) && how != Aborted
    ensures Scoped(s, k, Step(s, e))
  {
    TimerFireReady(s, k, how);
    var s1 := Fire(s, Waiting(k));
    TimeoutScopeFired(s1, k, how, react);
    ScopedBefore(s, s1, k, HandleTimeout(s1, k, how, react));
  }

  lemma ScopedBefore(s: Conn, s1: Conn, k: nat, s': Conn)
    requires |s.tasks| == |s1.tasks| <= |s'.tasks| && s1.connecting == s.connecting && s1.open == s.open
    requires forall i | 0 <= i < |s.tasks| && i != k :: ViewOf(s1, i) == ViewOf(s, i)
    requires Scoped(s1, k, s')
    ensures Scoped(s, k, s')
  {
  }

  /** When its timer fires a task is in hand and the others are as they were. */
  lemma TimerFireReady(s: Conn, k: nat, how: TimerFire)
    requires Settled(s) && k < |s.tasks| && Waiting(k) in s.pending
    requires how == Armed || (s.tasks[k].armed ==> s.pending[Waiting(k)] >= 2)
    ensures var s1 := Fire(s, Waiting(k));
      && SettledBut(s1, {k}) && InHand(ViewOf(s1, k).(task := s1.tasks[k].(armed := false)))
      && (how != Armed ==> InHand(ViewOf(s1, k)))
      && forall i | 0 <= i < |s.tasks| && i != k :: ViewOf(s1, i) == ViewOf(s, i)
  {
    FireEffect(s, Waiting(k));
    assert ViewOk(ViewOf(s, k));
  }

  lemma TimeoutScopeFired(s: Conn, k: nat, how: TimerFire, react: nat -> Reaction)
    requires Has(s, k) && SettledBut(s, {k}) && how != Aborted
    requires InHand(ViewOf(s, k).(task := s.tasks[k].(armed := false)))
    requires how != Armed ==> InHand(ViewOf(s, k))
    ensures Scoped(s, k, HandleTimeout(s, k, how, react))
  {
    var s2 := TimedOut(s, k, how);
    TimedOutEffect(s, k, how);
    FailWithEffect(s2, k, EC_RPC_TIMEOUT, react(k + 1));
    ScopedEnd(s2, FailWith(s2, k, EC_RPC_TIMEOUT, react(k + 1)), k, react);
  }

  lemma ScopedEnd(s: Conn, s1: Conn, k: nat, react: nat -> Reaction)
    requires Settled(s1) && Grows(s, s1, {k})
    ensures Scoped(s, k, if s1.connecting then Destroy(s1, react) else s1)
  {
    if s1.connecting {
      DestroySettled(s1, react);
    }
  }
}
