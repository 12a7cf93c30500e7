/**
 The other half of `EndToEnd`: a call that its server can answer does get its
 answer, in a run that is given event by event, from any state in which nothing
 else is under way, and from the start.
 */
module SuccessfulCall {
  import opened Wire
  import opened RpcMessages
  import opened RpcCodec
  import opened Frames
  import opened Buffers
  import opened ClientModel
  import opened ClientSafety
  import opened Dispatch
  import opened CallPackets
  import opened ServerModel
  import opened EndToEnd

  /** The method that `c` calls is registered and returns `resp`, unfailed. */
  ghost predicate Answerable(env: Env, c: Call, resp: Msg) {
    && DOT !in c.service && c.service in env.registry && c.name in env.registry[c.service]
    && var ran := env.run(c.service, c.name, c.request);
      ran.Returned? && !ran.failed && ran.resp == resp
  }

  function FrameOf(cd: Codec, id: nat, c: Call): Frame
    requires id < TWO64
  {
    CallFrame(cd, NewTask(id, c))
  }

  function SuccessMeta(id: uint64): Response {
    Response(Some(id), Some(SUCCESS), None, [])
  }

  function Reply(cd: Codec, id: uint64, resp: Msg): Frame {
    ReplyFrame(cd, SuccessMeta(id), Some(resp))
  }

  /** What a buffer of `size` bytes is grown to for a request of `n`. */
  function BufferFor(size: nat, n: nat): nat {
    if size < n then Grown(size, n) else size
  }

  /** The call under `id` and the reply fit their length fields, and the reply fits a buffer that had `size` bytes. */
  ghost predicate Carried(cd: Codec, id: nat, c: Call, resp: Msg, size: nat) {
    && TaskFits(cd, NewTask(id, c)) && Total(HeaderOf(FrameOf(cd, id, c))) <= TWO31
    && FrameFits(Reply(cd, id, resp))
    && |FrameBytes(Reply(cd, id, resp))| <= BufferFor(size, Total(HeaderOf(FrameOf(cd, id, c))))
  }

  /* The client. */

  /** Task `k` is the call `c`, not completed. */
  ghost predicate Fresh(s: Conn, k: nat, c: Call) {
    Has(s, k) && SameCall(NewTask(k + 1, c), s.tasks[k]) && !s.tasks[k].called && s.tasks[k].code == EC_SUCCESS
  }

  /** It was sent and waits for its answer. */
  ghost predicate Waits(s: Conn, k: nat, c: Call) {
    Fresh(s, k, c) && k + 1 in s.outgoing
  }

  lemma FrameAsIssued(cd: Codec, s: Conn, k: nat, c: Call)
    requires Fresh(s, k, c) && TaskFits(cd, NewTask(k + 1, c))
    ensures TaskFits(cd, s.tasks[k]) && CallFrame(cd, s.tasks[k]) == FrameOf(cd, k + 1, c)
  {
    SameFits(cd, NewTask(k + 1, c), s.tasks[k]);
  }

  lemma SameFits(cd: Codec, t: Task, t': Task)
    requires SameCall(t, t') && TaskFits(cd, t)
    ensures TaskFits(cd, t') && CallFrame(cd, t') == CallFrame(cd, t)
  {
    assert RequestOf(t') == RequestOf(t);
  }

  lemma StillFit(cd: Codec, s: Conn, s': Conn)
    requires TasksFit(cd, s) && |s'.tasks| == |s.tasks| && forall k | 0 <= k < |s.tasks| :: SameCall(s.tasks[k], s'.tasks[k])
    ensures TasksFit(cd, s')
  {
    forall k | 0 <= k < |s'.tasks| ensures TaskFits(cd, s'.tasks[k]) {
      SameFits(cd, s.tasks[k], s'.tasks[k]);
    }
  }

  lemma FitsWithNew(cd: Codec, s: Conn, s': Conn, c: Call)
    requires TasksFit(cd, s) && |s'.tasks| == |s.tasks| + 1 && Fresh(s', |s.tasks|, c)
    requires forall k | 0 <= k < |s.tasks| :: SameCall(s.tasks[k], s'.tasks[k])
    requires TaskFits(cd, NewTask(|s.tasks| + 1, c))
    ensures TasksFit(cd, s')
  {
    FrameAsIssued(cd, s', |s.tasks|, c);
    forall k | 0 <= k < |s.tasks| ensures TaskFits(cd, s'.tasks[k]) {
      SameFits(cd, s.tasks[k], s'.tasks[k]);
    }
  }

  /** A call issued on an open socket is sent at once. */
  lemma IssuedOpen(s: Conn, c: Call)
    requires WellFormed(s) && s.open && c.send == Sends
    ensures var k, s' := |s.tasks|, Issue(s, c);
      && Waits(s', k, c) && s'.sent == s.sent + [k] && s'.log == s.log && s.pending <= s'.pending
      && |s'.tasks| == k + 1 && forall i | 0 <= i < k :: SameCall(s.tasks[i], s'.tasks[i])
  {
    TransmitSent(AddTask(s, c), |s.tasks|);
  }

  lemma TransmitSent(s: Conn, k: nat)
    requires Has(s, k)
    ensures var s' := Transmit(s, k);
      && s'.sent == s.sent + [k] && s'.log == s.log && s.pending <= s'.pending && s'.outgoing == Insert(s.outgoing, k + 1, k)
      && |s'.tasks| == |s.tasks| && s'.tasks[k] == s.tasks[k].(armed := s'.tasks[k].armed)
      && forall i | 0 <= i < |s.tasks| && i != k :: s'.tasks[i] == s.tasks[i]
  {
    var s1 := Enter(s, k);
    var s2 := SetTimer(s1, k);
    assert s2.pending == s1.pending || s2.pending == s1.pending + multiset{Waiting(k)};
  }

  /** On a closed one it resolves first. */
  lemma IssuedFirst(c: Call)
    ensures var s := Issue(FRESH, c);
      && Fresh(s, 0, c) && |s.tasks| == 1 && s.sent == [] && s.outgoing == map[] && s.log == []
      && Resolving(0) in s.pending && !HasReader(s)
  {
    var s := Await(AddTask(FRESH, c), Resolving(0)).(connecting := true);
    assert s.pending == multiset{Resolving(0)};
    assert SetTimer(s, 0).pending <= multiset{Resolving(0), Waiting(0)};
  }

  lemma Resolved1(s: Conn, c: Call)
    requires Fresh(s, 0, c) && Resolving(0) in s.pending
    ensures var s' := Step(s, Resolved(0, true, true, SILENT));
      && Fresh(s', 0, c) && s'.tasks == s.tasks && s'.sent == s.sent && s'.outgoing == s.outgoing && s'.log == s.log
      && Connecting(0) in s'.pending && s'.open
  {
  }

  lemma Connected1(s: Conn, c: Call)
    requires Fresh(s, 0, c) && |s.tasks| == 1 && s.sent == [] && s.outgoing == map[] && Connecting(0) in s.pending
    ensures var s' := Step(s, Connected(0, true, Sends, true, SILENT));
      Waits(s', 0, c) && |s'.tasks| == 1 && s'.sent == [0] && s'.log == s.log && ReadingHeader in s'.pending
  {
    TransmitSent(Fire(s, Connecting(0)).(connecting := false), 0);
    ConnectSends(s);
  }

  lemma ConnectSends(s: Conn)
    requires Has(s, 0)
    ensures Step(s, Connected(0, true, Sends, true, SILENT)) ==
      Await(Transmit(Fire(s, Connecting(0)).(connecting := false), 0), ReadingHeader)
  {
  }

  /* Events in a row. */

  lemma Then(cd: Codec, reg: map<bytes, set<bytes>>, s: Sys, e: SysEvent, es: seq<SysEvent>, s': Sys)
    requires s.links != [] && May(cd, reg, s, e) && SysRuns(cd, reg, Move(cd, reg, s, e), es, s')
    ensures SysRuns(cd, reg, s, [e] + es, s')
  {
    assert ([e] + es)[1..] == es;
  }

  lemma NothingSent(cd: Codec, s: Sys, c: Conn)
    requires WellFormed(c) && TasksFit(cd, c) && s.links != []
    ensures SendAll(cd, s, c, |c.sent|) == s.(client := c)
  {
    var last := |s.links| - 1;
    var l := s.links[last];
    assert SentFrames(cd, c, |c.sent|) == [];
    assert l.c2s + [] == l.c2s && l.up + [] == l.up;
    assert s.links[last := l] == s.links;
  }

  /** The last connection, and a system in which it is another. */
  function Last(s: Sys): Link
    requires s.links != []
  {
    s.links[|s.links| - 1]
  }

  function WithLast(s: Sys, l: Link): Sys
    requires s.links != []
  {
    s.(links := s.links[|s.links| - 1 := l])
  }

  lemma CarryingOne(l: Link, f: Frame)
    requires FrameFits(f) && l.c2s == [] && l.up == []
    ensures AllFit([f]) && Carrying(l, [f]) == l.(c2s := FrameBytes(f), up := [f])
  {
    SingleFrame(f);
    assert [] + FrameBytes(f) == FrameBytes(f) && [] + [f] == [f];
  }

  /* The call. */

  /** The frame of task `k`'s call is all there is on the current connection, and both ends wait for a header. */
  ghost predicate Sent(cd: Codec, s: Sys, k: nat, c: Call, size: nat) {
    && TaskFits(cd, NewTask(k + 1, c)) && s.links != [] && s.s2c == [] && s.down == []
    && Waits(s.client, k, c) && TasksFit(cd, s.client) && ReadingHeader in s.client.pending
    && var l, f := Last(s), FrameOf(cd, k + 1, c);
      l.c2s == FrameBytes(f) && l.up == [f] && ServerWaits(l.server, size)
  }

  /** The server's connection waits for a header, with a buffer of `size` bytes. */
  ghost predicate ServerWaits(v: Srv, size: nat) {
    v.pending == multiset{ReadHeaderOp} && v.held && !v.overrun && v.size == size
  }

  /** Nothing is under way on an open socket. */
  ghost predicate Idle(s: Sys, size: nat) {
    Empty(s, size) && s.client.open && ReadingHeader in s.client.pending
  }

  ghost predicate Empty(s: Sys, size: nat) {
    && s.links != [] && s.s2c == [] && s.down == []
    && Last(s).c2s == [] && Last(s).up == [] && ServerWaits(Last(s).server, size)
  }

  /** The client is now `c'`, and has just sent task `k`. */
  lemma OneSent(cd: Codec, s: Sys, c': Conn, k: nat, c: Call, size: nat)
    requires Empty(s, size) && TaskFits(cd, NewTask(k + 1, c))
    requires Waits(c', k, c) && TasksFit(cd, c') && ReadingHeader in c'.pending
    requires |c'.sent| > 0 && c'.sent[|c'.sent| - 1] == k
    ensures Sent(cd, SendAll(cd, s, c', |c'.sent| - 1), k, c, size) && SendAll(cd, s, c', |c'.sent| - 1).client == c'
  {
    var f := FrameOf(cd, k + 1, c);
    FrameAsIssued(cd, c', k, c);
    assert SentFrames(cd, c', |c'.sent| - 1) == [f];
    CarryingOne(Last(s), f);
  }

  /** A call or a connect reads nothing: the streams change by what is sent. */
  lemma MayMove(cd: Codec, s: Sys, e: Event, c': Conn)
    requires s.links != [] && WellFormed(s.client) && Enabled(s.client, e) && (e.Called? || e.Connected?)
    requires c' == Step(s.client, e) && TasksFit(cd, c') && |s.client.sent| <= |c'.sent|
    ensures ClientMay(cd, s, e) && ClientMove(cd, s, e, false) == SendAll(cd, s, c', |s.client.sent|)
  {
  }

  lemma CallMay(cd: Codec, s: Sys, c: Call) returns (e: Event, c': Conn)
    requires WellFormed(s.client) && TasksFit(cd, s.client) && s.client.open && s.links != []
    requires TaskFits(cd, NewTask(|s.client.tasks| + 1, c)) && c.send == Sends
    ensures e == Called(c) && WellFormed(c') && TasksFit(cd, c') && |s.client.sent| <= |c'.sent|
    ensures ClientMay(cd, s, e) && ClientMove(cd, s, e, false) == SendAll(cd, s, c', |s.client.sent|)
    ensures var k := |s.client.tasks|;
      Waits(c', k, c) && c'.sent == s.client.sent + [k] && c'.log == s.client.log && s.client.pending <= c'.pending
  {
    e, c' := Called(c), Issue(s.client, c);
    IssuedOpen(s.client, c);
    FitsWithNew(cd, s.client, c', c);
    MayMove(cd, s, e, c');
  }

  lemma CallStep(cd: Codec, s: Sys, c: Call, size: nat) returns (e: Event, s': Sys)
    requires WellFormed(s.client) && TasksFit(cd, s.client) && Idle(s, size)
    requires TaskFits(cd, NewTask(|s.client.tasks| + 1, c)) && c.send == Sends
    ensures ClientMay(cd, s, e) && s' == ClientMove(cd, s, e, false)
    ensures Sent(cd, s', |s.client.tasks|, c, size) && s'.client.log == s.client.log
  {
    var c', k := s.client, |s.client.tasks|;
    e, c' := CallMay(cd, s, c);
    assert ReadingHeader in c'.pending;
    OneSent(cd, s, c', k, c, size);
    s' := ClientMove(cd, s, e, false);
  }

  /** The first call of the object, not sent yet. */
  ghost predicate Alone(cd: Codec, s: Sys, c: Call) {
    s.links != [] && s.s2c == [] && s.down == [] && AloneAtClient(cd, s.client, c)
  }

  ghost predicate AloneAtClient(cd: Codec, s: Conn, c: Call) {
    Fresh(s, 0, c) && |s.tasks| == 1 && TasksFit(cd, s) && s.sent == [] && s.outgoing == map[] && s.log == []
  }

  lemma FirstCallStep(cd: Codec, c: Call) returns (e: Event, s: Sys)
    requires TaskFits(cd, NewTask(1, c))
    ensures ClientMay(cd, START, e) && s == ClientMove(cd, START, e, false)
    ensures Alone(cd, s, c) && Resolving(0) in s.client.pending && !HasReader(s.client)
  {
    e := Called(c);
    IssuedFirst(c);
    var c1 := Issue(FRESH, c);
    FitsWithNew(cd, FRESH, c1, c);
    MayMove(cd, START, e, c1);
    NothingSent(cd, START, c1);
    s := ClientMove(cd, START, e, false);
  }

  lemma ResolveStep(cd: Codec, s: Sys, c: Call) returns (e: Event, s': Sys)
    requires Alone(cd, s, c) && Resolving(0) in s.client.pending && !HasReader(s.client)
    ensures ClientMay(cd, s, e) && s' == ClientMove(cd, s, e, true)
    ensures Alone(cd, s', c) && Connecting(0) in s'.client.pending && Last(s') == Link(Serve(ACCEPTED, true), [], [])
  {
    e := Resolved(0, true, true, SILENT);
    Resolved1(s.client, c);
    NothingSent(cd, AfterRead(s, e, true), Step(s.client, e));
    s' := ClientMove(cd, s, e, true);
  }

  lemma ConnectMay(cd: Codec, s: Sys, c: Call) returns (e: Event, c': Conn)
    requires s.links != [] && AloneAtClient(cd, s.client, c) && TaskFits(cd, NewTask(1, c)) && Connecting(0) in s.client.pending
    ensures WellFormed(c') && TasksFit(cd, c') && c'.sent == [0]
    ensures ClientMay(cd, s, e) && ClientMove(cd, s, e, false) == SendAll(cd, s, c', 0)
    ensures Waits(c', 0, c) && c'.log == [] && ReadingHeader in c'.pending
  {
    e := Connected(0, true, Sends, true, SILENT);
    Connected1(s.client, c);
    c' := Step(s.client, e);
    FitsWithNew(cd, FRESH, c', c);
    MayMove(cd, s, e, c');
  }

  lemma ConnectStep(cd: Codec, s: Sys, k: nat, c: Call, size: nat) returns (e: Event, s': Sys)
    requires k == 0 && size == Grown(0, HEADER_SIZE) && Alone(cd, s, c) && TaskFits(cd, NewTask(k + 1, c))
    requires Connecting(0) in s.client.pending && Last(s) == Link(Serve(ACCEPTED, true), [], [])
    ensures ClientMay(cd, s, e) && s' == ClientMove(cd, s, e, false)
    ensures Sent(cd, s', k, c, size) && s'.client.log == []
  {
    var c';
    e, c' := ConnectMay(cd, s, c);
    AcceptedWaits();
    assert Empty(s, size);
    OneSent(cd, s, c', k, c, size);
    s' := ClientMove(cd, s, e, false);
  }

  lemma AcceptedWaits()
    ensures ServerWaits(Serve(ACCEPTED, true), Grown(0, HEADER_SIZE))
  {
    assert multiset{} + multiset{ReadHeaderOp} == multiset{ReadHeaderOp};
  }

  /* The server. */

  /** The server's connection waits for the payload of `f`. */
  ghost predicate Reading(v: Srv, f: Frame, size: nat)
    requires FrameFits(f)
  {
    && v.pending == multiset{ReadPayloadOp} && v.held && !v.overrun
    && v.header == HeaderOf(f) && v.n == Total(v.header) && v.size == BufferFor(size, v.n)
  }

  lemma HeaderArrives(v: Srv, f: Frame, size: nat)
    requires FrameFits(f) && Total(HeaderOf(f)) <= TWO31 && ServerWaits(v, size)
    ensures var e := HeaderIn(true, HeaderOf(f), true);
      SrvEnabled(v, e) && Reading(SrvStep(v, e), f, size)
  {
    OnlyOp(v, ReadHeaderOp);
  }

  lemma HeaderStep(cd: Codec, reg: map<bytes, set<bytes>>, s: Sys, f: Frame, size: nat) returns (e: SrvEvent, s': Sys)
    requires FrameFits(f) && Total(HeaderOf(f)) <= TWO31
    requires s.links != [] && ServerWaits(Last(s).server, size) && Last(s).c2s == FrameBytes(f) && Last(s).up == [f]
    ensures ServerMay(cd, reg, s, |s.links| - 1, e) && s' == ServerMove(s, |s.links| - 1, e)
    ensures s' == WithLast(s, Link(Last(s').server, Payload(f), [f])) && Reading(Last(s').server, f, size)
  {
    SingleFrame(f);
    StreamFront([f]);
    assert [f][1..] == [] && Payload(f) + [] == Payload(f);
    HeaderRoundTrip(HeaderOf(f));
    HeaderArrives(Last(s).server, f, size);
    e := HeaderIn(true, HeaderOf(f), true);
    s' := ServerMove(s, |s.links| - 1, e);
  }

  lemma VerdictIsSuccess(cd: Codec, env: Env, id: nat, c: Call, resp: Msg)
    requires RoundTrips(cd) && env.codec == cd && Answerable(env, c, resp) && TaskFits(cd, NewTask(id, c))
    ensures AsyncVerdict(env, FrameOf(cd, id, c).meta, FrameOf(cd, id, c).req) == Respond(SuccessMeta(id), Some(resp))
  {
    RequestParses(cd, NewTask(id, c));
    JoinSplits(c.service, c.name);
    assert cd.decode(cd.encode(c.request)) == Some(c.request);
  }

  const GOOD_LUCK := ReplyLuck(true, true, true)
  const NOT_WILD := Wild(None, None)

  lemma PayloadArrives(cd: Codec, env: Env, v: Srv, id: nat, c: Call, resp: Msg, size: nat) returns (e: SrvEvent)
    requires RoundTrips(cd) && env.codec == cd && Answerable(env, c, resp) && Carried(cd, id, c, resp, size)
    requires Reading(v, FrameOf(cd, id, c), size)
    ensures e.PayloadIn? && e.ok && e.env == env && e.payload == Payload(FrameOf(cd, id, c))
    ensures
      && SrvEnabled(v, e) && !SrvStep(v, e).overrun && |SrvStep(v, e).replied| == |v.replied| + 1
      && Exact(v.header, e.payload) && Cut(v.header, e.payload) == FrameOf(cd, id, c)
  {
    var f := FrameOf(cd, id, c);
    CutPayload(f);
    VerdictIsSuccess(cd, env, id, c, resp);
    RequestParses(cd, NewTask(id, c));
    OnlyOp(v, ReadPayloadOp);
    e := PayloadIn(true, env, Payload(f), NOT_WILD, GOOD_LUCK);
  }

  lemma AnswerStep(cd: Codec, env: Env, s: Sys, id: nat, c: Call, resp: Msg, size: nat) returns (e: SrvEvent, s': Sys)
    requires RoundTrips(cd) && env.codec == cd && Answerable(env, c, resp) && Carried(cd, id, c, resp, size)
    requires s.links != [] && Reading(Last(s).server, FrameOf(cd, id, c), size)
    requires Last(s).c2s == Payload(FrameOf(cd, id, c)) && s.s2c == [] && s.down == []
    ensures ServerMay(cd, env.registry, s, |s.links| - 1, e) && s' == ServerMove(s, |s.links| - 1, e)
    ensures s'.links != [] && s'.client == s.client
    ensures s'.s2c == FrameBytes(Reply(cd, id, resp)) && s'.down == [Reply(cd, id, resp)]
  {
    var f, l := FrameOf(cd, id, c), Last(s);
    e := PayloadArrives(cd, env, l.server, id, c, resp, size);
    VerdictIsSuccess(cd, env, id, c, resp);
    MayTake(cd, env.registry, s, |s.links| - 1, e);
    s' := Moved(s, e, f, Reply(cd, id, resp));
  }

  /** The step of the current connection that sends `reply`. */
  lemma Moved(s: Sys, e: SrvEvent, f: Frame, reply: Frame) returns (s': Sys)
    requires s.links != [] && SrvEnabled(Last(s).server, e) && e.PayloadIn? && e.ok && Last(s).c2s == e.payload
    requires Exact(Last(s).server.header, e.payload) && Cut(Last(s).server.header, e.payload) == f
    requires |SrvStep(Last(s).server, e).replied| != |Last(s).server.replied| && s.s2c == [] && s.down == []
    requires var a := AsyncVerdict(e.env, f.meta, f.req);
      a.Respond? && FrameFits(reply) && reply == ReplyFrame(e.env.codec, a.meta, a.param)
    ensures s' == ServerMove(s, |s.links| - 1, e)
    ensures s'.links != [] && s'.client == s.client && s'.s2c == FrameBytes(reply) && s'.down == [reply]
  {
    var l, l' := Last(s), LinkMove(Last(s), e);
    Answered(WithLast(s, l'), l.server, l'.server, e, f, reply);
    s' := ServerMove(s, |s.links| - 1, e);
  }

  lemma MayTake(cd: Codec, reg: map<bytes, set<bytes>>, s: Sys, j: nat, e: SrvEvent)
    requires j < |s.links| && e.PayloadIn? && e.ok && e.env.codec == cd && e.env.registry == reg
    requires SrvEnabled(s.links[j].server, e) && !SrvStep(s.links[j].server, e).overrun && s.links[j].c2s == e.payload
    ensures ServerMay(cd, reg, s, j, e)
  {
    assert e.payload[..|e.payload|] == e.payload;
  }

  lemma Answered(s: Sys, v: Srv, v': Srv, e: SrvEvent, f: Frame, reply: Frame)
    requires s.links != [] && SrvEnabled(v, e) && e.PayloadIn? && e.ok && s.s2c == [] && s.down == []
    requires Exact(v.header, e.payload) && Cut(v.header, e.payload) == f && |v'.replied| != |v.replied|
    requires var a := AsyncVerdict(e.env, f.meta, f.req);
      a.Respond? && FrameFits(reply) && reply == ReplyFrame(e.env.codec, a.meta, a.param)
    ensures var s' := AfterMove(s, |s.links| - 1, v, v', e);
      s'.links == s.links && s'.client == s.client && s'.s2c == FrameBytes(reply) && s'.down == [reply]
  {
    assert [] + FrameBytes(reply) == FrameBytes(reply);
  }

  /* The client from the reply on. */

  const SILENT: nat -> Reaction := (i: nat) => Reaction([], false)

  /** The client waits for the payload of `r`. */
  ghost predicate ReplyHalf(cd: Codec, s: Sys, k: nat, c: Call, r: Frame)
    requires FrameFits(r)
  {
    && s.links != [] && Waits(s.client, k, c) && TasksFit(cd, s.client) && ReadingPayload in s.client.pending
    && s.client.header == HeaderOf(r) && s.client.n == |Payload(r)| && s.s2c == Payload(r)
  }

  lemma HeaderBack(cd: Codec, s: Sys, k: nat, c: Call, r: Frame) returns (e: Event, s': Sys)
    requires FrameFits(r) && s.links != []
    requires Waits(s.client, k, c) && TasksFit(cd, s.client) && ReadingHeader in s.client.pending
    requires s.s2c == FrameBytes(r) && s.down == [r]
    ensures ClientMay(cd, s, e) && s' == ClientMove(cd, s, e, false)
    ensures ReplyHalf(cd, s', k, c, r) && s'.client.log == s.client.log
  {
    SingleFrame(r);
    StreamFront([r]);
    assert [r][1..] == [] && Payload(r) + [] == Payload(r);
    HeaderRoundTrip(HeaderOf(r));
    CutPayload(r);
    e := HeaderRead(true, HeaderOf(r), true, SILENT);
    StillFit(cd, s.client, Step(s.client, e));
    NothingSent(cd, AfterRead(s, e, false), Step(s.client, e));
    s' := ClientMove(cd, s, e, false);
  }

  /** The event in which the reply's payload is read. */
  function ReplyEvent(id: uint64, resp: Msg): (e: Event)
    ensures e.PayloadRead?
  {
    PayloadRead(NoError, Some(SuccessMeta(id)), Some(resp), true, SILENT)
  }

  lemma Answered1(s: Conn, k: nat, c: Call, resp: Msg)
    requires Waits(s, k, c) && k + 1 < TWO64 && ReadingPayload in s.pending
    ensures var s' := Step(s, ReplyEvent(k + 1, resp));
      && s'.log == s.log + [Completion(k, EC_SUCCESS, Some(resp))] && s'.sent == s.sent
      && |s'.tasks| == |s.tasks| && forall i | 0 <= i < |s.tasks| :: SameCall(s.tasks[i], s'.tasks[i])
  {
    ReplyStep(s, k, SuccessMeta(k + 1), Some(resp), true, SILENT);
    AnsweredSilently(Note(Fire(s, ReadingPayload), Received(k + 1, SUCCESS, Some(resp))), k, resp);
  }

  lemma ReplyStep(s: Conn, k: nat, rpc: Response, param: Option<Msg>, granted: bool, react: nat -> Reaction)
    requires Has(s, k) && k + 1 in s.outgoing && k + 1 < TWO64 && rpc.id == Some(k + 1) && rpc.status.Some?
    ensures Step(s, PayloadRead(NoError, Some(rpc), param, granted, react)) == ClientModel.Answer(
      Note(Fire(s, ReadingPayload), Received(k + 1, rpc.status.value, param)), k, rpc.status.value, param, granted, react)
  {
    ReplyTaken(Fire(s, ReadingPayload), k, rpc.status.value, param, granted, react);
  }

  lemma ReplyTaken(s: Conn, k: nat, st: Status, param: Option<Msg>, granted: bool, react: nat -> Reaction)
    requires Has(s, k) && k + 1 in s.outgoing && k + 1 < TWO64
    ensures TakeResponse(s, k + 1, st, param, granted, react)
         == ClientModel.Answer(Note(s, Received(k + 1, st, param)), k, st, param, granted, react)
  {
    assert s.outgoing[k + 1] == k;
  }

  lemma AnsweredSilently(s: Conn, k: nat, resp: Msg)
    requires Has(s, k) && !s.tasks[k].called && s.tasks[k].code == EC_SUCCESS
    ensures var s' := ClientModel.Answer(s, k, SUCCESS, Some(resp), true, SILENT);
      && s'.log == s.log + [Completion(k, EC_SUCCESS, Some(resp))] && s'.sent == s.sent
      && |s'.tasks| == |s.tasks| && forall i | 0 <= i < |s.tasks| :: SameCall(s.tasks[i], s'.tasks[i])
  {
    var s1 := SetTask(s, k, s.tasks[k].(response := Some(resp)));
    FinishedOnce(Erase(Await(s1, ReadingHeader), k + 1), k);
  }

  lemma FinishedOnce(s: Conn, k: nat)
    requires Has(s, k) && !s.tasks[k].called
    ensures var s' := Finish(s, k, Reaction([], false));
      && s'.log == s.log + [Completion(k, s.tasks[k].code, s.tasks[k].response)] && s'.sent == s.sent
      && |s'.tasks| == |s.tasks| && forall i | 0 <= i < |s.tasks| :: SameCall(s.tasks[i], s'.tasks[i])
  {
  }

  lemma ReplyBack(cd: Codec, s: Sys, k: nat, c: Call, resp: Msg) returns (e: Event, s': Sys)
    requires RoundTrips(cd) && k + 1 < TWO64 && FrameFits(Reply(cd, k + 1, resp))
    requires ReplyHalf(cd, s, k, c, Reply(cd, k + 1, resp))
    ensures ClientMay(cd, s, e) && s' == ClientMove(cd, s, e, false)
    ensures s'.links != [] && s'.client.log == s.client.log + [Completion(k, EC_SUCCESS, Some(resp))]
  {
    e := ReplyEvent(k + 1, resp);
    Answered1(s.client, k, c, resp);
    ReplyMay(cd, s, k, c, resp);
    Moves(cd, s, e, Step(s.client, e));
    s' := ClientMove(cd, s, e, false);
  }

  lemma ReplyMay(cd: Codec, s: Sys, k: nat, c: Call, resp: Msg)
    requires RoundTrips(cd) && k + 1 < TWO64 && FrameFits(Reply(cd, k + 1, resp))
    requires ReplyHalf(cd, s, k, c, Reply(cd, k + 1, resp))
    ensures ClientMay(cd, s, ReplyEvent(k + 1, resp))
  {
    ReplyCut(cd, k + 1, resp, s.client.header, s.s2c);
    StepFits(cd, s.client, k, c, resp);
    var e := ReplyEvent(k + 1, resp);
    MayRead(cd, s, e, Step(s.client, e));
  }

  /** The payload's two parts lie where the header says, and each parses. */
  ghost predicate Cuts(cd: Codec, e: Event, h: Header, n: nat, p: bytes)
    requires e.PayloadRead?
  {
    && |p| >= n >= h.rpcLen + h.respLen
    && e.rpc == ParseResponse(p[..h.rpcLen]) && e.param == cd.decode(p[h.rpcLen..h.rpcLen + h.respLen])
  }

  lemma ReplyCut(cd: Codec, id: uint64, resp: Msg, h: Header, p: bytes)
    requires RoundTrips(cd) && FrameFits(Reply(cd, id, resp))
    requires h == HeaderOf(Reply(cd, id, resp)) && p == Payload(Reply(cd, id, resp))
    ensures Cuts(cd, ReplyEvent(id, resp), h, |p|, p)
  {
    ReplyPayload(cd, id, resp);
    var e, r := ReplyEvent(id, resp), Reply(cd, id, resp);
    assert h.rpcLen == |r.meta| && h.respLen == |r.resp|;
    assert e.rpc == Some(SuccessMeta(id)) && e.param == Some(resp);
  }

  lemma MayRead(cd: Codec, s: Sys, e: Event, c': Conn)
    requires WellFormed(s.client) && e.PayloadRead? && Enabled(s.client, e)
    requires c' == Step(s.client, e) && TasksFit(cd, c') && c'.sent == s.client.sent
    requires Cuts(cd, e, s.client.header, s.client.n, s.s2c)
    ensures ClientMay(cd, s, e)
  {
  }

  lemma StepFits(cd: Codec, s: Conn, k: nat, c: Call, resp: Msg)
    requires Waits(s, k, c) && TasksFit(cd, s) && k + 1 < TWO64 && ReadingPayload in s.pending
    ensures var s' := Step(s, ReplyEvent(k + 1, resp));
      TasksFit(cd, s') && s'.sent == s.sent
  {
    Answered1(s, k, c, resp);
    StillFit(cd, s, Step(s, ReplyEvent(k + 1, resp)));
  }

  lemma Moves(cd: Codec, s: Sys, e: Event, c: Conn)
    requires s.links != [] && ClientMay(cd, s, e) && c == Step(s.client, e) && c.sent == s.client.sent
    ensures ClientMove(cd, s, e, false).client == c && ClientMove(cd, s, e, false).links != []
  {
  }

  /** The two parts of the reply's payload are the metadata and the response. */
  lemma ReplyPayload(cd: Codec, id: uint64, resp: Msg)
    requires RoundTrips(cd) && FrameFits(Reply(cd, id, resp))
    ensures var r, p := Reply(cd, id, resp), Payload(Reply(cd, id, resp));
      && ParseResponse(p[..|r.meta|]) == Some(SuccessMeta(id))
      && cd.decode(p[|r.meta|..|r.meta| + |r.resp|]) == Some(resp)
      && |p| == |r.meta| + |r.resp|
  {
    var r := Reply(cd, id, resp);
    TwoParts(r.meta, r.resp);
    SuccessParses(id);
    assert cd.decode(cd.encode(resp)) == Some(resp);
  }

  lemma TwoParts(a: bytes, b: bytes)
    ensures var p := a + [] + b;
      p[..|a|] == a && p[|a|..|a| + |b|] == b && |p| == |a| + |b|
  {
  }

  lemma SuccessParses(id: uint64)
    ensures ParseResponse(PrintResponse(SuccessMeta(id))) == Some(SuccessMeta(id))
  {
    ResponseRoundTrip(SuccessMeta(id));
  }

  /* The whole way. */

  lemma BeforeClient(cd: Codec, reg: map<bytes, set<bytes>>, s: Sys, e: Event, granted: bool, s1: Sys, es: seq<SysEvent>, s': Sys)
    returns (all: seq<SysEvent>)
    requires s.links != [] && s1.links != [] && ClientMay(cd, s, e) && s1 == ClientMove(cd, s, e, granted)
    requires SysRuns(cd, reg, s1, es, s')
    ensures SysRuns(cd, reg, s, all, s') && |all| == |es| + 1
  {
    Then(cd, reg, s, AtClient(e, granted), es, s');
    all := [AtClient(e, granted)] + es;
  }

  lemma BeforeServer(cd: Codec, reg: map<bytes, set<bytes>>, s: Sys, j: nat, e: SrvEvent, s1: Sys, es: seq<SysEvent>, s': Sys)
    returns (all: seq<SysEvent>)
    requires s.links != [] && s1.links != [] && ServerMay(cd, reg, s, j, e) && s1 == ServerMove(s, j, e)
    requires SysRuns(cd, reg, s1, es, s')
    ensures SysRuns(cd, reg, s, all, s') && |all| == |es| + 1
  {
    Then(cd, reg, s, AtServer(j, e), es, s');
    all := [AtServer(j, e)] + es;
  }

  lemma ReplyReceived(cd: Codec, reg: map<bytes, set<bytes>>, s: Sys, k: nat, c: Call, resp: Msg)
    returns (es: seq<SysEvent>, s': Sys)
    requires RoundTrips(cd) && k + 1 < TWO64 && FrameFits(Reply(cd, k + 1, resp)) && s.links != []
    requires Waits(s.client, k, c) && TasksFit(cd, s.client) && ReadingHeader in s.client.pending
    requires s.s2c == FrameBytes(Reply(cd, k + 1, resp)) && s.down == [Reply(cd, k + 1, resp)]
    ensures SysRuns(cd, reg, s, es, s') && |es| == 2
    ensures s'.client.log == s.client.log + [Completion(k, EC_SUCCESS, Some(resp))]
  {
    var e1, s1 := HeaderBack(cd, s, k, c, Reply(cd, k + 1, resp));
    var e2;
    e2, s' := ReplyBack(cd, s1, k, c, resp);
    es := BeforeClient(cd, reg, s1, e2, false, s', [], s');
    es := BeforeClient(cd, reg, s, e1, false, s1, es, s');
  }

  /** Once its frame is on the stream, the call is answered in four events. */
  lemma RequestAnswered(cd: Codec, env: Env, s: Sys, k: nat, c: Call, resp: Msg, size: nat)
    returns (es: seq<SysEvent>, s': Sys)
    requires RoundTrips(cd) && env.codec == cd && Answerable(env, c, resp) && Carried(cd, k + 1, c, resp, size)
    requires Sent(cd, s, k, c, size)
    ensures SysRuns(cd, env.registry, s, es, s') && |es| == 4
    ensures s'.client.log == s.client.log + [Completion(k, EC_SUCCESS, Some(resp))]
  {
    var e, s1 := HeaderStep(cd, env.registry, s, FrameOf(cd, k + 1, c), size);
    es, s' := PayloadAnswered(cd, env, s1, k, c, resp, size);
    es := BeforeServer(cd, env.registry, s, |s.links| - 1, e, s1, es, s');
  }

  lemma PayloadAnswered(cd: Codec, env: Env, s: Sys, k: nat, c: Call, resp: Msg, size: nat)
    returns (es: seq<SysEvent>, s': Sys)
    requires RoundTrips(cd) && env.codec == cd && Answerable(env, c, resp) && Carried(cd, k + 1, c, resp, size)
    requires s.links != [] && s.s2c == [] && s.down == []
    requires Waits(s.client, k, c) && TasksFit(cd, s.client) && ReadingHeader in s.client.pending
    requires Reading(Last(s).server, FrameOf(cd, k + 1, c), size) && Last(s).c2s == Payload(FrameOf(cd, k + 1, c))
    ensures SysRuns(cd, env.registry, s, es, s') && |es| == 3
    ensures s'.client.log == s.client.log + [Completion(k, EC_SUCCESS, Some(resp))]
  {
    var e, s1 := AnswerStep(cd, env, s, k + 1, c, resp, size);
    es, s' := ReplyReceived(cd, env.registry, s1, k, c, resp);
    es := BeforeServer(cd, env.registry, s, |s.links| - 1, e, s1, es, s');
  }

  /**
   After any run, with whatever calls and failures and reconnects, that leaves the
   socket open and nothing under way on it: any call whose method is registered and
   returns, and whose frames fit, can run to its end. Within five events its
   callback has seen an unfailed controller and the method's own result.
   */
  lemma CallSucceeds(cd: Codec, env: Env, run: seq<SysEvent>, s: Sys, c: Call, resp: Msg, size: nat)
    returns (es: seq<SysEvent>, s': Sys)
    requires RoundTrips(cd) && env.codec == cd && SysRuns(cd, env.registry, START, run, s) && Idle(s, size)
    requires Answerable(env, c, resp) && c.send == Sends && Carried(cd, |s.client.tasks| + 1, c, resp, size)
    ensures s.links != [] && SysRuns(cd, env.registry, s, es, s') && |es| == 5
    ensures s'.client.log == s.client.log + [Completion(|s.client.tasks|, EC_SUCCESS, Some(resp))]
  {
    StartInv(cd, env.registry);
    SysRunKeeps(cd, env.registry, START, run, s);
    var e, s1 := CallStep(cd, s, c, size);
    es, s' := RequestAnswered(cd, env, s1, |s.client.tasks|, c, resp, size);
    es := BeforeClient(cd, env.registry, s, e, false, s1, es, s');
  }

  /** The same for the first call of a connection object, which resolves and connects: seven events. */
  lemma FirstCallSucceeds(cd: Codec, env: Env, c: Call, resp: Msg) returns (es: seq<SysEvent>, s: Sys)
    requires RoundTrips(cd) && env.codec == cd && Answerable(env, c, resp)
    requires Carried(cd, 1, c, resp, Grown(0, HEADER_SIZE))
    ensures SysRuns(cd, env.registry, START, es, s) && |es| == 7
    ensures s.client.log == [Completion(0, EC_SUCCESS, Some(resp))]
  {
    es, s := FromStart(cd, env, START, 0, c, resp, Grown(0, HEADER_SIZE));
  }

  lemma FromStart(cd: Codec, env: Env, s: Sys, k: nat, c: Call, resp: Msg, size: nat) returns (es: seq<SysEvent>, s': Sys)
    requires RoundTrips(cd) && env.codec == cd && Answerable(env, c, resp) && s == START
    requires k == 0 && size == Grown(0, HEADER_SIZE) && Carried(cd, k + 1, c, resp, size)
    ensures SysRuns(cd, env.registry, s, es, s') && |es| == 7
    ensures s'.client.log == [Completion(k, EC_SUCCESS, Some(resp))]
  {
    var e, s1 := FirstCallStep(cd, c);
    es, s' := Resolves(cd, env, s1, k, c, resp, size);
    es := BeforeClient(cd, env.registry, s, e, false, s1, es, s');
  }

  lemma Resolves(cd: Codec, env: Env, s: Sys, k: nat, c: Call, resp: Msg, size: nat) returns (es: seq<SysEvent>, s': Sys)
    requires RoundTrips(cd) && env.codec == cd && Answerable(env, c, resp)
    requires k == 0 && size == Grown(0, HEADER_SIZE) && Carried(cd, k + 1, c, resp, size)
    requires Alone(cd, s, c) && Resolving(0) in s.client.pending && !HasReader(s.client)
    ensures SysRuns(cd, env.registry, s, es, s') && |es| == 6
    ensures s'.client.log == [Completion(k, EC_SUCCESS, Some(resp))]
  {
    var e, s1 := ResolveStep(cd, s, c);
    es, s' := Connects(cd, env, s1, k, c, resp, size);
    es := BeforeClient(cd, env.registry, s, e, true, s1, es, s');
  }

  lemma Connects(cd: Codec, env: Env, s: Sys, k: nat, c: Call, resp: Msg, size: nat) returns (es: seq<SysEvent>, s': Sys)
    requires RoundTrips(cd) && env.codec == cd && Answerable(env, c, resp)
    requires k == 0 && size == Grown(0, HEADER_SIZE) && Carried(cd, k + 1, c, resp, size)
    requires Alone(cd, s, c) && Connecting(0) in s.client.pending && Last(s) == Link(Serve(ACCEPTED, true), [], [])
    ensures SysRuns(cd, env.registry, s, es, s') && |es| == 5
    ensures s'.client.log == [Completion(k, EC_SUCCESS, Some(resp))]
  {
    var e, s1 := ConnectStep(cd, s, k, c, size);
    es, s' := RequestAnswered(cd, env, s1, k, c, resp, size);
    es := BeforeClient(cd, env.registry, s, e, false, s1, es, s');
  }
}
