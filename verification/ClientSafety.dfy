/**
 What every run of the client connection keeps: no call is lost, none completes
 twice, success is only reported for a received answer, and an armed timer
 stands behind every call that asked for one.
 */
module ClientSafety {
  import opened Wire
  import opened RpcMessages
  import opened ClientModel

  /* What one task looks like from outside. */

  function RunsOf(log: seq<Completion>, k: nat): nat {
    if log == [] then 0
    else RunsOf(log[..|log| - 1], k) + (if log[|log| - 1].k == k then 1 else 0)
  }

  lemma RunsOfAppend(log: seq<Completion>, c: Completion, k: nat)
    ensures RunsOf(log + [c], k) == RunsOf(log, k) + (if c.k == k then 1 else 0)
  {
    assert (log + [c])[..|log|] == log;
  }

  /** The task, how often its `done` ran, its handlers, whether it is in `outgoing_tasks`, how often it was put there. */
  datatype View = View(task: Task, runs: nat, resolving: nat, connecting: nat, waiting: nat, out: bool, sends: nat)

  function ViewOf(s: Conn, k: nat): View
    requires k < |s.tasks|
  {
    View(s.tasks[k], RunsOf(s.log, k), s.pending[Resolving(k)], s.pending[Connecting(k)], s.pending[Waiting(k)],
         k + 1 in s.outgoing, multiset(s.sent)[k])
  }

  /** What holds of every task between handlers. */
  predicate ViewOk(v: View) {
    && v.runs == (if v.task.called then 1 else 0)
    && (!v.task.called ==> v.resolving + v.connecting >= 1 || v.out)
    && (!v.task.called ==> v.task.code == EC_SUCCESS)
    && (!v.task.called && v.task.timeout != TIMEOUT_NEVER ==> v.task.armed)
    && (v.task.armed ==> v.waiting >= 1)
    && v.resolving + v.connecting + v.sends <= 1
    && (v.out ==> v.sends == 1)
  }

  /** What also holds of a task that the running handler has in its hands. */
  predicate InHand(v: View) {
    && v.runs == (if v.task.called then 1 else 0)
    && (v.task.armed ==> v.waiting >= 1)
    && v.resolving + v.connecting + v.sends <= 1
    && (v.out ==> v.sends == 1)
  }

  /** A task in hand that no handler holds and that was never sent; nor is its controller failed. */
  predicate Unsent(v: View) {
    InHand(v) && v.resolving + v.connecting + v.sends == 0 && (!v.task.called ==> v.task.code == EC_SUCCESS)
  }

  /** Success was recorded only after a matching answer came in. */
  predicate Answered(s: Conn, c: Completion) {
    c.code == EC_SUCCESS ==> c.response.Some? && HasReceived(s.received, c.k + 1, SUCCESS, c.response)
  }

  predicate HasReceived(received: seq<Received>, id: nat, st: Status, param: Option<Msg>) {
    exists i :: 0 <= i < |received| && received[i].id == id && received[i].status == st && received[i].param == param
  }

  ghost predicate HasReader(s: Conn) {
    ReadingHeader in s.pending || ReadingPayload in s.pending || exists k :: Connecting(k) in s.pending
  }

  ghost predicate Settled(s: Conn) {
    && WellFormed(s)
    && (forall k | 0 <= k < |s.tasks| :: ViewOk(ViewOf(s, k)))
    && (forall j | 0 <= j < |s.log| :: Answered(s, s.log[j]))
  }

  ghost predicate Inv(s: Conn) {
    Settled(s) && (s.open || s.outgoing != map[] ==> HasReader(s))
  }

  /* How a piece of handler code may change the state: only `mine` among the older tasks. */

  predicate SameCall(t: Task, t': Task) {
    t'.id == t.id && t'.service == t.service && t'.name == t.name && t'.request == t.request && t'.timeout == t.timeout
  }

  ghost predicate Grows(s: Conn, s': Conn, mine: set<nat>) {
    && WellFormed(s) && WellFormed(s') && |s.tasks| <= |s'.tasks|
    && (forall k | 0 <= k < |s.tasks| :: SameCall(s.tasks[k], s'.tasks[k]))
    && (forall k | 0 <= k < |s.tasks| && k !in mine :: ViewOf(s', k) == ViewOf(s, k))
    && (forall k | |s.tasks| <= k < |s'.tasks| :: ViewOk(ViewOf(s', k)))
    && s.pending <= s'.pending && s.sent <= s'.sent
    && s'.open == s.open && s'.received == s.received
    && s'.header == s.header && s'.n == s.n
    && (s.connecting ==> s'.connecting) && (s.open ==> s'.connecting == s.connecting)
  }

  /** Code run on a closed socket inserts nothing. */
  predicate ClosedKeeps(s: Conn, s': Conn) {
    !s.open ==> s'.outgoing == s.outgoing
  }

  /** Callbacks run on the way all saw a failed controller. */
  predicate OnlyFailures(s: Conn, s': Conn) {
    s.log <= s'.log && forall j | |s.log| <= j < |s'.log| :: s'.log[j].code != EC_SUCCESS
  }

  lemma GrowsTrans(s: Conn, s1: Conn, s2: Conn, mine: set<nat>)
    requires Grows(s, s1, mine) && Grows(s1, s2, mine)
    requires forall k | k in mine :: k < |s.tasks|
    ensures Grows(s, s2, mine)
  {
    assert s.pending <= s1.pending <= s2.pending;
    forall k | |s.tasks| <= k < |s2.tasks| ensures ViewOk(ViewOf(s2, k)) {
      if k < |s1.tasks| {
        assert k !in mine;
        assert ViewOf(s2, k) == ViewOf(s1, k);
      }
    }
  }

  lemma OnlyFailuresTrans(s: Conn, s1: Conn, s2: Conn)
    requires OnlyFailures(s, s1) && OnlyFailures(s1, s2)
    ensures OnlyFailures(s, s2)
  {
  }

  /** A change of one task and nothing else. */
  lemma TaskChanged(s: Conn, k: nat, t: Task)
    requires Has(s, k) && SameCall(s.tasks[k], t)
    ensures Grows(s, SetTask(s, k, t), {k})
    ensures ViewOf(SetTask(s, k, t), k) == ViewOf(s, k).(task := t)
  {
  }

  lemma Logged(s: Conn, k: nat, c: Completion)
    requires Has(s, k) && c.k == k
    ensures var s' := s.(log := s.log + [c]);
      Grows(s, s', {k}) && ViewOf(s', k) == ViewOf(s, k).(runs := ViewOf(s, k).runs + 1)
  {
    forall i: nat ensures RunsOf(s.log + [c], i) == RunsOf(s.log, i) + (if k == i then 1 else 0) {
      RunsOfAppend(s.log, c, i);
    }
  }

  /* A new task. */

  lemma {:induction false} RunsOfNone(log: seq<Completion>, k: nat)
    requires forall j | 0 <= j < |log| :: log[j].k < k
    ensures RunsOf(log, k) == 0
  {
    if log != [] {
      RunsOfNone(log[..|log| - 1], k);
    }
  }

  lemma Added(s: Conn, c: Call)
    requires WellFormed(s)
    ensures var k, s1 := |s.tasks|, AddTask(s, c);
      && ViewOf(s1, k) == View(NewTask(k + 1, c), 0, 0, 0, 0, false, 0)
      && forall i | 0 <= i < k :: ViewOf(s1, i) == ViewOf(s, i)
  {
    var k := |s.tasks|;
    RunsOfNone(s.log, k);
    assert !TaskBelow(k, Resolving(k)) && !TaskBelow(k, Connecting(k)) && !TaskBelow(k, Waiting(k));
  }

  /** Code that only touches the newest task is, seen from before it existed, code that adds a sound task. */
  lemma AddedGrows(s: Conn, c: Call, s': Conn)
    requires WellFormed(s)
    requires Grows(AddTask(s, c), s', {|s.tasks|}) && ViewOk(ViewOf(s', |s.tasks|))
    ensures Grows(s, s', {})
  {
    Added(s, c);
    var s1 := AddTask(s, c);
    forall k | 0 <= k < |s.tasks| ensures ViewOf(s', k) == ViewOf(s, k) && SameCall(s.tasks[k], s'.tasks[k]) {
      assert ViewOf(s', k) == ViewOf(s1, k) == ViewOf(s, k);
      assert SameCall(s1.tasks[k], s'.tasks[k]);
    }
  }

  /* Effects of the pieces. */

  /** What a callback leaves in its controller: an exception fails it. */
  function AfterThrow(code: ErrorCode, r: Reaction): ErrorCode {
    if r.throws then EC_FAILED else code
  }

  /** `v'` is `v` after its callback ran once more. */
  predicate RanOnce(v: View, v': View, r: Reaction) {
    v' == v.(runs := v.runs + 1, task := v.task.(code := AfterThrow(v.task.code, r)))
  }

  lemma {:induction false} RunDoneEffect(s: Conn, k: nat, r: Reaction)
    requires Has(s, k)
    ensures var s' := RunDone(s, k, r);
      && Grows(s, s', {k}) && RanOnce(ViewOf(s, k), ViewOf(s', k), r) && ClosedKeeps(s, s')
      && OnlyFailures(s.(log := s.log + [Completion(k, s.tasks[k].code, s.tasks[k].response)]), s')
    decreases r, 1
  {
    var c := Completion(k, s.tasks[k].code, s.tasks[k].response);
    var s1 := s.(log := s.log + [c]);
    Logged(s, k, c);
    IssueAllEffect(s1, r.calls);
    var s2 := IssueAll(s1, r.calls);
    GrowsMore(s1, s2, k);
    GrowsTrans(s, s1, s2, {k});
    if r.throws {
      TaskChanged(s2, k, s2.tasks[k].(code := EC_FAILED));
      GrowsTrans(s, s2, SetFailed(s2, k, EC_FAILED), {k});
    }
  }

  lemma GrowsMore(s: Conn, s': Conn, k: nat)
    requires Grows(s, s', {})
    ensures Grows(s, s', {k})
    ensures k < |s.tasks| ==> ViewOf(s', k) == ViewOf(s, k)
  {
  }

  /** After `Complete` the callback has run, once if it had not. */
  predicate Completed(v: View, v': View, r: Reaction) {
    if v.task.called then v' == v
    else v' == v.(runs := v.runs + 1, task := v.task.(called := true, code := AfterThrow(v.task.code, r)))
  }

  /** The log after a completion: nothing if it was called, else its own entry first, then failures. */
  predicate LogsOwn(s: Conn, k: nat, s': Conn)
    requires k < |s.tasks|
  {
    if s.tasks[k].called then s' == s
    else OnlyFailures(s.(log := s.log + [Completion(k, s.tasks[k].code, s.tasks[k].response)]), s')
  }

  lemma {:induction false} CompleteEffect(s: Conn, k: nat, r: Reaction)
    requires Has(s, k)
    ensures var s' := Complete(s, k, r);
      && Grows(s, s', {k}) && Completed(ViewOf(s, k), ViewOf(s', k), r)
      && LogsOwn(s, k, s') && ClosedKeeps(s, s')
    decreases r, 2
  {
    if !s.tasks[k].called {
      RunDoneEffect(s, k, r);
      var s1 := RunDone(s, k, r);
      TaskChanged(s1, k, s1.tasks[k].(called := true));
      GrowsTrans(s, s1, Complete(s, k, r), {k});
    }
  }

  /** Completed, and its timer cancelled. */
  predicate Retired(t: Task) {
    t.called && !t.armed
  }

  /** If `k` had not completed it has now: its callback saw `code`. */
  predicate Reports(s: Conn, k: nat, code: ErrorCode, s': Conn)
    requires k < |s.tasks|
  {
    !s.tasks[k].called ==> s.log + [Completion(k, code, s.tasks[k].response)] <= s'.log
  }

  /** A task failed while it is in hand is done with, and its log entry is a failure. */
  lemma {:induction false} FailInHand(s: Conn, k: nat, code: ErrorCode, r: Reaction)
    requires Has(s, k) && InHand(ViewOf(s, k)) && code != EC_SUCCESS
    ensures var s' := Complete(SetFailed(s, k, code), k, r);
      && Grows(s, s', {k}) && OnlyFailures(s, s') && ClosedKeeps(s, s')
      && s'.tasks[k].called && ViewOk(ViewOf(s', k)) && InHand(ViewOf(s', k))
      && Reports(s, k, code, s') && s'.tasks[k].armed == s.tasks[k].armed
    decreases r, 3
  {
    var s1 := SetFailed(s, k, code);
    TaskChanged(s, k, s.tasks[k].(code := code));
    CompleteEffect(s1, k, r);
    GrowsTrans(s, s1, Complete(s1, k, r), {k});
  }

  lemma CancelAndFail(s: Conn, k: nat, code: ErrorCode)
    requires Has(s, k)
    ensures CancelTimer(SetFailed(s, k, code), k) == SetFailed(CancelTimer(s, k), k, code)
  {
    assert CancelTimer(SetFailed(s, k, code), k).tasks == SetFailed(CancelTimer(s, k), k, code).tasks;
  }

  lemma {:induction false} FinishFailed(s: Conn, k: nat, code: ErrorCode, r: Reaction)
    requires Has(s, k) && InHand(ViewOf(s, k)) && code != EC_SUCCESS
    ensures var s' := Finish(SetFailed(s, k, code), k, r);
      && Grows(s, s', {k}) && OnlyFailures(s, s') && ClosedKeeps(s, s') && ViewOk(ViewOf(s', k))
      && Reports(s, k, code, s') && Retired(s'.tasks[k])
    decreases r, 5
  {
    CancelAndFail(s, k, code);
    CancelledFailed(s, CancelTimer(s, k), k, code, r);
  }

  lemma {:induction false} CancelledFailed(s: Conn, s1: Conn, k: nat, code: ErrorCode, r: Reaction)
    requires Has(s, k) && InHand(ViewOf(s, k)) && code != EC_SUCCESS && s1 == CancelTimer(s, k)
    ensures var s' := Complete(SetFailed(s1, k, code), k, r);
      && Grows(s, s', {k}) && OnlyFailures(s, s') && ClosedKeeps(s, s') && ViewOk(ViewOf(s', k))
      && Reports(s, k, code, s') && Retired(s'.tasks[k])
    decreases r, 4
  {
    TaskChanged(s, k, s.tasks[k].(armed := false));
    FailInHand(s1, k, code, r);
    FailedSince(s, s1, Complete(SetFailed(s1, k, code), k, r), k, code);
  }

  /** A change of the task in hand before it was failed makes no difference. */
  lemma FailedSince(s: Conn, s1: Conn, s': Conn, k: nat, code: ErrorCode)
    requires Has(s, k) && Grows(s, s1, {k}) && Grows(s1, s', {k}) && OnlyFailures(s1, s') && ClosedKeeps(s1, s')
    requires s1.log == s.log && s1.outgoing == s.outgoing
    requires s1.tasks[k].called == s.tasks[k].called && s1.tasks[k].response == s.tasks[k].response
    requires Reports(s1, k, code, s')
    ensures Grows(s, s', {k}) && OnlyFailures(s, s') && ClosedKeeps(s, s') && Reports(s, k, code, s')
  {
    GrowsTrans(s, s1, s', {k});
  }

  lemma SetTimerEffect(s: Conn, k: nat)
    requires Has(s, k)
    ensures var s', v, v' := SetTimer(s, k), ViewOf(s, k), ViewOf(SetTimer(s, k), k);
      && Grows(s, s', {k}) && s'.log == s.log
      && v' == v.(waiting := v'.waiting, task := v.task.(armed := v'.task.armed))
      && v'.waiting >= v.waiting
      && (v.task.timeout != TIMEOUT_NEVER ==> v'.task.armed && v'.waiting == v.waiting + 1)
      && (v.task.timeout == TIMEOUT_NEVER ==> s' == s)
  {
    if s.tasks[k].timeout != TIMEOUT_NEVER {
      var s1 := SetTask(s, k, s.tasks[k].(armed := true));
      TaskChanged(s, k, s.tasks[k].(armed := true));
      AwaitEffect(s1, Waiting(k), k);
      GrowsTrans(s, s1, SetTimer(s, k), {k});
    }
  }

  /** A handler of task `k`, or of none, changes no other task's view. */
  lemma AwaitEffect(s: Conn, h: Handler, k: nat)
    requires Has(s, k) && TaskIndex(s, h)
    requires h.ReadingHeader? || h.ReadingPayload? || h.k == k
    ensures var s', v := Await(s, h), ViewOf(s, k);
      && Grows(s, s', {k})
      && ViewOf(s', k) == v.(resolving := if h.Resolving? then v.resolving + 1 else v.resolving,
                             connecting := if h.Connecting? then v.connecting + 1 else v.connecting,
                             waiting := if h.Waiting? then v.waiting + 1 else v.waiting)
  {
  }

  /** A task in hand that was never sent is sent: it is now in `outgoing_tasks`, with its timer set. */
  lemma TransmitEffect(s: Conn, k: nat)
    requires Has(s, k) && Unsent(ViewOf(s, k))
    ensures var s' := Transmit(s, k);
      Grows(s, s', {k}) && s'.log == s.log && ViewOk(ViewOf(s', k))
  {
    InsertEffect(s, k);
    var s1 := Enter(s, k);
    SetTimerEffect(s1, k);
    var s2 := SetTimer(s1, k);
    AwaitEffect(s2, Writing(k), k);
    GrowsTrans(s, s1, s2, {k});
    GrowsTrans(s, s2, Await(s2, Writing(k)), {k});
  }

  lemma InsertEffect(s: Conn, k: nat)
    requires Has(s, k)
    ensures var s1 := Enter(s, k);
      && Grows(s, s1, {k})
      && ViewOf(s1, k) == ViewOf(s, k).(out := true, sends := ViewOf(s, k).sends + 1)
  {
    assert forall i :: multiset(s.sent + [k])[i] == multiset(s.sent)[i] + (if i == k then 1 else 0);
  }

  lemma {:induction false} StartCallEffect(s: Conn, k: nat, send: SendOutcome, r: Reaction)
    requires Has(s, k) && Unsent(ViewOf(s, k))
    ensures var s' := StartCall(s, k, send, r);
      Grows(s, s', {k}) && OnlyFailures(s, s') && ViewOk(ViewOf(s', k))
    decreases r, 6
  {
    match send
    case Sends => TransmitEffect(s, k);
    case NoMemory => FinishFailed(s, k, EC_OOM, r);
    case MetaUnprintable => FinishFailed(s, k, EC_SERIALIZATION_ERROR, r);
    case ParamUnprintable => FinishFailed(s, k, EC_SERIALIZATION_ERROR, r);
  }

  lemma ResolveEffect(s: Conn, k: nat)
    requires Has(s, k) && Unsent(ViewOf(s, k)) && !s.open
    ensures var s' := SetTimer(Await(s, Resolving(k)).(connecting := true), k);
      Grows(s, s', {k}) && s'.log == s.log && s'.outgoing == s.outgoing && ViewOk(ViewOf(s', k))
  {
    AwaitEffect(s, Resolving(k), k);
    var s0 := Await(s, Resolving(k));
    var s1 := s0.(connecting := true);
    assert Grows(s, s1, {k}) && ViewOf(s1, k) == ViewOf(s0, k);
    SetTimerEffect(s1, k);
    GrowsTrans(s, s1, SetTimer(s1, k), {k});
  }

  lemma {:induction false} IssueEffect(s: Conn, c: Call)
    requires WellFormed(s)
    ensures var s' := Issue(s, c);
      Grows(s, s', {}) && OnlyFailures(s, s') && ClosedKeeps(s, s')
    decreases c, 7
  {
    Added(s, c);
    var k, s1 := |s.tasks|, AddTask(s, c);
    if s.open {
      StartCallEffect(s1, k, c.send, c.reaction);
    } else {
      ResolveEffect(s1, k);
    }
    AddedGrows(s, c, Issue(s, c));
  }

  lemma {:induction false} IssueAllEffect(s: Conn, cs: seq<Call>)
    requires WellFormed(s)
    ensures var s' := IssueAll(s, cs);
      Grows(s, s', {}) && OnlyFailures(s, s') && ClosedKeeps(s, s')
    decreases cs, 0
  {
    if cs != [] {
      var s1 := Issue(s, cs[0]);
      IssueEffect(s, cs[0]);
      IssueAllEffect(s1, cs[1..]);
      GrowsTrans(s, s1, IssueAll(s, cs), {});
    }
  }

  /* destroy */

  /** How the state moves over any stretch of a run. */
  predicate Evolves(s: Conn, s': Conn) {
    && |s.tasks| <= |s'.tasks|
    && (forall k | 0 <= k < |s.tasks| :: SameCall(s.tasks[k], s'.tasks[k]))
    && s.sent <= s'.sent && s.received <= s'.received && s.log <= s'.log
  }

  lemma EvolvesTrans(s: Conn, s1: Conn, s2: Conn)
    requires Evolves(s, s1) && Evolves(s1, s2)
    ensures Evolves(s, s2)
  {
  }

  predicate LogAnswered(s: Conn) {
    forall j | 0 <= j < |s.log| :: Answered(s, s.log[j])
  }

  lemma FailuresAnswered(s: Conn, s': Conn)
    requires LogAnswered(s) && OnlyFailures(s, s') && s'.received == s.received
    ensures LogAnswered(s')
  {
    forall j | 0 <= j < |s'.log| ensures Answered(s', s'.log[j]) {
      if j < |s.log| {
        assert Answered(s, s.log[j]) && s'.log[j] == s.log[j];
      }
    }
  }

  /** Settled, except for the tasks in `mine`. */
  ghost predicate SettledBut(s: Conn, mine: set<nat>) {
    && WellFormed(s) && LogAnswered(s)
    && (forall k | 0 <= k < |s.tasks| && k !in mine :: ViewOk(ViewOf(s, k)))
  }

  lemma SettledGrows(s: Conn, s': Conn, k: nat)
    requires Has(s, k) && SettledBut(s, {k}) && Grows(s, s', {k}) && OnlyFailures(s, s')
    requires ViewOk(ViewOf(s', k))
    ensures Settled(s') && Evolves(s, s')
  {
    FailuresAnswered(s, s');
    forall i | 0 <= i < |s'.tasks| ensures ViewOk(ViewOf(s', i)) {
      if i < |s.tasks| && i != k {
        assert ViewOf(s', i) == ViewOf(s, i);
      }
    }
  }

  /** `DestroyTasks` is at `key`: the tasks before it are done, the rest are sound or at least in hand. */
  ghost predicate Destroying(s: Conn, key: nat) {
    && WellFormed(s) && !s.open && LogAnswered(s)
    && (forall k | 0 <= k < |s.tasks| ::
          var v := ViewOf(s, k);
          if v.out && k + 1 >= key then InHand(v) else ViewOk(v) && (v.out ==> Retired(v.task)))
  }

  lemma DestroyTaskEffect(s: Conn, k: nat, r: Reaction)
    requires Has(s, k) && InHand(ViewOf(s, k)) && !s.open
    ensures var s' := DestroyTask(s, k, r);
      && Grows(s, s', {k}) && OnlyFailures(s, s') && s'.outgoing == s.outgoing
      && Retired(s'.tasks[k]) && ViewOk(ViewOf(s', k)) && Reports(s, k, EC_FAILED, s')
  {
    var s1 := CancelTimer(s, k);
    TaskChanged(s, k, s.tasks[k].(armed := false));
    if !s.tasks[k].called {
      FailInHand(s1, k, EC_FAILED, r);
      GrowsTrans(s, s1, DestroyTask(s, k, r), {k});
    }
  }

  lemma DestroyingStep(s: Conn, key: nat, k: nat, s': Conn)
    requires Has(s, k) && Destroying(s, key) && k == key - 1
    requires Grows(s, s', {k}) && OnlyFailures(s, s') && s'.outgoing == s.outgoing
    requires Retired(s'.tasks[k]) && ViewOk(ViewOf(s', k))
    ensures Destroying(s', key + 1) && Evolves(s, s')
  {
    FailuresAnswered(s, s');
    forall i | 0 <= i < |s'.tasks|
      ensures var v := ViewOf(s', i);
        if v.out && i + 1 >= key + 1 then InHand(v) else ViewOk(v) && (v.out ==> Retired(v.task))
    {
      if i < |s.tasks| && i != k {
        assert ViewOf(s', i) == ViewOf(s, i);
      }
    }
  }

  lemma DestroyKeyEffect(s: Conn, key: nat, react: nat -> Reaction)
    requires Destroying(s, key)
    ensures var s' := DestroyKey(s, key, react);
      && Destroying(s', key + 1) && Evolves(s, s') && s'.outgoing == s.outgoing && s.pending <= s'.pending
      && s'.received == s.received && OnlyFailures(s, s') && s'.header == s.header && s'.n == s.n
  {
    if key in s.outgoing {
      var k := s.outgoing[key];
      assert ViewOf(s, k).out;
      DestroyTaskEffect(s, k, react(key));
      DestroyingStep(s, key, k, DestroyTask(s, k, react(key)));
    } else {
      DestroyingSkip(s, key);
    }
  }

  lemma DestroyingSkip(s: Conn, key: nat)
    requires Destroying(s, key) && key !in s.outgoing
    ensures Destroying(s, key + 1)
  {
    assert forall k | 0 <= k < |s.tasks| :: ViewOf(s, k).out ==> k + 1 != key;
  }

  lemma {:induction false} DestroyTasksEffect(s: Conn, key: nat, last: nat, react: nat -> Reaction)
    requires Destroying(s, key) && key <= last + 1
    requires forall i | i in s.outgoing :: i <= last
    ensures var s' := DestroyTasks(s, key, last, react);
      && Destroying(s', last + 1) && Evolves(s, s') && s'.outgoing == s.outgoing && s.pending <= s'.pending
      && s'.received == s.received && OnlyFailures(s, s') && s'.header == s.header && s'.n == s.n
    decreases last + 1 - key
  {
    if key <= last {
      var s1 := DestroyKey(s, key, react);
      DestroyKeyEffect(s, key, react);
      DestroyTasksEffect(s1, key + 1, last, react);
      var s' := DestroyTasks(s1, key + 1, last, react);
      EvolvesTrans(s, s1, s');
      OnlyFailuresTrans(s, s1, s');
      assert s.pending <= s1.pending <= s'.pending;
    }
  }

  /** Ready for `destroy`: sound, but the controllers of calls in `outgoing_tasks` may already be failed. */
  ghost predicate Destroyable(s: Conn) {
    && WellFormed(s) && LogAnswered(s)
    && (forall k | 0 <= k < |s.tasks| ::
          var v := ViewOf(s, k);
          if v.out then InHand(v) else ViewOk(v))
  }

  lemma SettledDestroyable(s: Conn)
    requires Settled(s)
    ensures Destroyable(s)
  {
  }

  /** What `destroy` leaves: a closed, empty, sound connection whose new callbacks all reported failure. */
  ghost predicate TornDown(s: Conn, s': Conn) {
    && WellFormed(s) && Inv(s') && Evolves(s, s') && OnlyFailures(s, s')
    && !s'.open && s'.outgoing == map[]
    && (forall i | i in s.outgoing :: Retired(s'.tasks[i - 1]))
    && s.pending <= s'.pending && s'.received == s.received && s'.header == s.header && s'.n == s.n
  }

  lemma DestroyEffect(s: Conn, react: nat -> Reaction)
    requires Destroyable(s)
    ensures TornDown(s, Destroy(s, react))
  {
    DestroyStart(s);
    DestroyTasksEffect(CloseSocket(s), 0, s.id, react);
    DestroyEnd(DestroyTasks(CloseSocket(s), 0, s.id, react), s.id + 1);
  }

  lemma DestroyStart(s: Conn)
    requires Destroyable(s)
    ensures Destroying(CloseSocket(s), 0)
  {
    var s1 := CloseSocket(s);
    assert forall k | 0 <= k < |s.tasks| :: ViewOf(s1, k) == ViewOf(s, k);
    AnsweredSame(s, s1);
  }

  lemma AnsweredSame(s: Conn, s': Conn)
    requires LogAnswered(s) && s'.log == s.log && s'.received == s.received
    ensures LogAnswered(s')
  {
    forall j | 0 <= j < |s.log| ensures Answered(s', s.log[j]) {
      assert Answered(s, s.log[j]);
    }
  }

  /** After the loop and `outgoing_tasks.clear()`. */
  lemma DestroyEnd(s: Conn, key: nat)
    requires Destroying(s, key) && forall i | i in s.outgoing :: i < key
    ensures Inv(s.(outgoing := map[])) && forall i | i in s.outgoing :: Retired(s.tasks[i - 1])
  {
    var s' := s.(outgoing := map[]);
    AnsweredSame(s, s');
    forall k | 0 <= k < |s'.tasks| ensures ViewOk(ViewOf(s', k)) {
      OutRemoved(s, key, k);
    }
    forall i | i in s.outgoing ensures Retired(s.tasks[i - 1]) {
      assert ViewOf(s, i - 1).out;
    }
  }

  lemma OutRemoved(s: Conn, key: nat, k: nat)
    requires Destroying(s, key) && k < |s.tasks|
    requires forall i | i in s.outgoing :: i < key
    ensures var s' := s.(outgoing := map[]);
      ViewOf(s', k) == ViewOf(s, k).(out := false) && ViewOk(ViewOf(s', k))
  {
  }
}
