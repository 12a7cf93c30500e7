/**
 One client connection object and the asynchronous server's connections at the
 other end, together: the one behind the current socket, and those behind sockets
 the client has closed, which go on with what they were sent. A call reported as
 successful holds the response that its own method produced for its own request.
 */
module EndToEnd {
  import opened Wire
  import opened RpcMessages
  import opened RpcCodec
  import opened Frames
  import opened ClientModel
  import opened ClientSafety
  import opened ClientRuns
  import opened ClientReads
  import opened Dispatch
  import opened CallPackets
  import opened ServerModel

  /* What was sent. */

  predicate TasksFit(cd: Codec, c: Conn) {
    forall k | 0 <= k < |c.tasks| :: TaskFits(cd, c.tasks[k])
  }

  /** The frames of the calls sent since `from`. */
  function SentFrames(cd: Codec, c: Conn, from: nat): (fs: seq<Frame>)
    requires WellFormed(c) && TasksFit(cd, c) && from <= |c.sent|
    ensures AllFit(fs)
  {
    seq(|c.sent| - from, i requires 0 <= i < |c.sent| - from => CallFrame(cd, c.tasks[c.sent[from + i]]))
  }

  /* The whole system. */

  /** A reply: the server's environment when it dispatched, the `at`-th request frame taken, and the verdict. */
  datatype Served = Served(env: Env, f: Frame, v: Verdict, at: nat)

  /** A connection at the server; `up` are the frames written to its stream and not yet read in full. */
  datatype Link = Link(server: Srv, c2s: bytes, up: seq<Frame>)

  /**
   The last of `links` belongs to the client's current socket, as do `s2c` and its
   frames `down`. `taken` are the requests that servers took off their streams and
   dispatched.
   */
  datatype Sys = Sys(client: Conn, links: seq<Link>, s2c: bytes, down: seq<Frame>, taken: seq<Frame>, served: seq<Served>)

  const START := Sys(FRESH, [Link(ACCEPTED, [], [])], [], [], [], [])

  function Tail<T>(s: seq<T>): seq<T> {
    if s == [] then [] else s[1..]
  }

  predicate CompleteRead(c: Conn, e: Event) {
    e.PayloadRead? && WholePayload(c, e.end)
  }

  /**
   A client event as the network allows it. Reads deliver the front of the
   stream, whether or not the socket was closed since they completed. A connect
   starts only when no connect and no read is outstanding.
   */
  ghost predicate ClientMay(cd: Codec, s: Sys, e: Event) {
    var c := s.client;
    && WellFormed(c) && Enabled(c, e) && TasksFit(cd, Step(c, e)) && |c.sent| <= |Step(c, e).sent|
    && (e.Resolved? && e.ok ==> !HasReader(c))
    && (e.HeaderRead? && e.ok ==> |s.s2c| >= HEADER_SIZE && e.header == ReadHeader(s.s2c[..HEADER_SIZE]))
    && (CompleteRead(c, e) ==>
          var h := c.header;
          && |s.s2c| >= c.n >= h.rpcLen + h.respLen
          && e.rpc == ParseResponse(s.s2c[..h.rpcLen])
          && e.param == cd.decode(s.s2c[h.rpcLen..h.rpcLen + h.respLen]))
  }

  /** What reading, and connecting anew, do to the streams; `granted` is the new server connection's first allocation. */
  ghost function AfterRead(s: Sys, e: Event, granted: bool): Sys
    requires e.HeaderRead? && e.ok ==> |s.s2c| >= HEADER_SIZE
    requires CompleteRead(s.client, e) ==> |s.s2c| >= s.client.n
  {
    if e.Resolved? && e.ok then
      s.(links := s.links + [Link(Serve(ACCEPTED, granted), [], [])], s2c := [], down := [])
    else if e.HeaderRead? && e.ok then s.(s2c := s.s2c[HEADER_SIZE..])
    else if CompleteRead(s.client, e) then s.(s2c := s.s2c[s.client.n..], down := Tail(s.down))
    else s
  }

  /** The client is now `c`, and each `async_write` it started since `from` landed in the stream whole. */
  ghost function SendAll(cd: Codec, s: Sys, c: Conn, from: nat): Sys
    requires WellFormed(c) && TasksFit(cd, c) && from <= |c.sent| && s.links != []
  {
    var last := |s.links| - 1;
    s.(client := c, links := s.links[last := Carrying(s.links[last], SentFrames(cd, c, from))])
  }

  ghost function Carrying(l: Link, fs: seq<Frame>): Link
    requires AllFit(fs)
  {
    l.(c2s := l.c2s + StreamOf(fs), up := l.up + fs)
  }

  ghost function ClientMove(cd: Codec, s: Sys, e: Event, granted: bool): Sys
    requires ClientMay(cd, s, e) && s.links != []
  {
    SendAll(cd, AfterRead(s, e, granted), Step(s.client, e), |s.client.sent|)
  }

  /** Services are registered before the server runs; what their methods do may change from call to call. */
  ghost predicate LinkMay(cd: Codec, reg: map<bytes, set<bytes>>, l: Link, e: SrvEvent) {
    && SrvEnabled(l.server, e)
    && (e.HeaderIn? && e.ok ==> |l.c2s| >= HEADER_SIZE && e.header == ReadHeader(l.c2s[..HEADER_SIZE]))
    && (e.PayloadIn? ==> e.env.codec == cd && e.env.registry == reg)
    && (e.PayloadIn? && e.ok ==> |l.c2s| >= |e.payload| && e.payload == l.c2s[..|e.payload|])
    && !SrvStep(l.server, e).overrun
  }

  ghost predicate ServerMay(cd: Codec, reg: map<bytes, set<bytes>>, s: Sys, j: nat, e: SrvEvent) {
    j < |s.links| && LinkMay(cd, reg, s.links[j], e)
  }

  /** What a step of the `j`-th connection makes of it. */
  ghost function LinkMove(l: Link, e: SrvEvent): Link
    requires SrvEnabled(l.server, e)
    requires e.HeaderIn? && e.ok ==> |l.c2s| >= HEADER_SIZE
    requires e.PayloadIn? && e.ok ==> |l.c2s| >= |e.payload|
  {
    var l' := l.(server := SrvStep(l.server, e));
    match e
    case HeaderIn(ok, _, _) => if ok then l'.(c2s := l.c2s[HEADER_SIZE..]) else l'
    case ReplyOut(_, _, _) => l'
    case PayloadIn(ok, _, payload, _, _) => if ok then l'.(c2s := l.c2s[|payload|..], up := Tail(l.up)) else l'
  }

  ghost function ServerMove(s: Sys, j: nat, e: SrvEvent): Sys
    requires j < |s.links| && SrvEnabled(s.links[j].server, e)
    requires e.HeaderIn? && e.ok ==> |s.links[j].c2s| >= HEADER_SIZE
    requires e.PayloadIn? && e.ok ==> |s.links[j].c2s| >= |e.payload|
  {
    var l, l' := s.links[j], LinkMove(s.links[j], e);
    AfterMove(s.(links := s.links[j := l']), j, l.server, l'.server, e)
  }

  /** The `j`-th connection has moved from `v` to `v'`; what it dispatched, if anything. */
  ghost function AfterMove(s: Sys, j: nat, v: Srv, v': Srv, e: SrvEvent): Sys
    requires SrvEnabled(v, e)
  {
    if e.PayloadIn? && e.ok && Exact(v.header, e.payload)
    then Dispatched(s, j, e.env, Cut(v.header, e.payload), |v'.replied| != |v.replied|)
    else s
  }

  /** A request was dispatched (its lengths never wrap here), and answered or not; the reply is lost if its socket is closed. */
  ghost function Dispatched(s: Sys, j: nat, env: Env, f: Frame, answered: bool): Sys
    requires ReplyFits(env, AsyncVerdict(env, f.meta, f.req))
  {
    var r := Served(env, f, AsyncVerdict(env, f.meta, f.req), |s.taken|);
    var s1 := s.(taken := s.taken + [f]);
    if answered && r.v.Respond? then Replied(s1, j, r) else s1
  }

  /** The system after the `j`-th connection sent a reply. */
  ghost function Replied(s: Sys, j: nat, r: Served): Sys
    requires r.v.Respond? && FrameFits(ReplyFrame(r.env.codec, r.v.meta, r.v.param))
  {
    var reply := ReplyFrame(r.env.codec, r.v.meta, r.v.param);
    var s1 := s.(served := s.served + [r]);
    if j + 1 == |s.links| then s1.(s2c := s.s2c + FrameBytes(reply), down := s.down + [reply]) else s1
  }

  datatype SysEvent = AtClient(e: Event, granted: bool) | AtServer(j: nat, se: SrvEvent)

  ghost predicate May(cd: Codec, reg: map<bytes, set<bytes>>, s: Sys, e: SysEvent) {
    match e
    case AtClient(ce, _) => ClientMay(cd, s, ce)
    case AtServer(j, se) => ServerMay(cd, reg, s, j, se)
  }

  ghost function Move(cd: Codec, reg: map<bytes, set<bytes>>, s: Sys, e: SysEvent): Sys
    requires May(cd, reg, s, e) && s.links != []
    ensures Move(cd, reg, s, e).links != []
  {
    match e
    case AtClient(ce, granted) => ClientMove(cd, s, ce, granted)
    case AtServer(j, se) => ServerMove(s, j, se)
  }

  ghost predicate SysRuns(cd: Codec, reg: map<bytes, set<bytes>>, s: Sys, es: seq<SysEvent>, s': Sys)
    requires s.links != []
    decreases |es|
  {
    if es == [] then s == s'
    else May(cd, reg, s, es[0]) && SysRuns(cd, reg, Move(cd, reg, s, es[0]), es[1..], s')
  }

  /* The invariant. */

  ghost predicate OneReader(c: Conn) {
    && c.pending[ReadingHeader] + c.pending[ReadingPayload] <= 1
    && (forall k :: c.pending[Connecting(k)] <= 1)
    && (forall k :: Connecting(k) in c.pending ==> ReadingHeader !in c.pending && ReadingPayload !in c.pending)
    && (forall j, k :: Connecting(j) in c.pending && Connecting(k) in c.pending ==> j == k)
  }

  /** Where the reader of a stream stands: inside the first frame, or between frames. */
  ghost predicate InPayload(stream: bytes, fs: seq<Frame>, h: Header) {
    fs != [] && AllFit(fs) && h == HeaderOf(fs[0]) && stream == Payload(fs[0]) + StreamOf(fs[1..])
  }

  ghost predicate BetweenFrames(stream: bytes, fs: seq<Frame>) {
    AllFit(fs) && stream == StreamOf(fs)
  }

  ghost predicate UpAligned(l: Link) {
    && AllFit(l.up)
    && (ReadPayloadOp in l.server.pending ==> InPayload(l.c2s, l.up, l.server.header))
    && (forall op | op in l.server.pending && op != ReadPayloadOp :: BetweenFrames(l.c2s, l.up))
  }

  ghost predicate DownAligned(s: Sys) {
    && AllFit(s.down)
    && (ReadingPayload in s.client.pending ==>
          InPayload(s.s2c, s.down, s.client.header) && s.client.n == |Payload(s.down[0])|)
    && (ReadingHeader in s.client.pending ==> BetweenFrames(s.s2c, s.down))
    && (forall k | Connecting(k) in s.client.pending :: BetweenFrames(s.s2c, s.down))
  }

  ghost predicate OfTask(cd: Codec, c: Conn, f: Frame) {
    exists k :: 0 <= k < |c.tasks| && TaskFits(cd, c.tasks[k]) && f == CallFrame(cd, c.tasks[k])
  }

  ghost predicate AllOfTasks(cd: Codec, c: Conn, fs: seq<Frame>) {
    forall i | 0 <= i < |fs| :: OfTask(cd, c, fs[i])
  }

  ghost predicate ServedOk(cd: Codec, reg: map<bytes, set<bytes>>, c: Conn, r: Served) {
    && r.env.codec == cd && r.env.registry == reg
    && r.v.Respond? && r.v == AsyncVerdict(r.env, r.f.meta, r.f.req)
    && FrameFits(ReplyFrame(cd, r.v.meta, r.v.param))
    && OfTask(cd, c, r.f)
  }

  ghost predicate OfServed(cd: Codec, served: seq<Served>, f: Frame) {
    exists i :: 0 <= i < |served| && served[i].v.Respond? && f == ReplyFrame(cd, served[i].v.meta, served[i].v.param)
  }

  /** A received frame is a reply of the server, status and parameter included. */
  ghost predicate ReceivedOk(served: seq<Served>, a: Received) {
    exists i :: 0 <= i < |served| && served[i].v.Respond?
      && served[i].v.meta.id == Some(a.id) && served[i].v.meta.status == Some(a.status)
      && (served[i].v.param.Some? ==> a.param == served[i].v.param)
  }

  ghost predicate ClientOk(cd: Codec, c: Conn) {
    Inv(c) && OneReader(c) && TasksFit(cd, c)
  }

  /** The stream to the server carries calls of the client. */
  ghost predicate LinkOk(cd: Codec, c: Conn, l: Link) {
    SrvInv(l.server) && !l.server.overrun && UpAligned(l) && AllOfTasks(cd, c, l.up)
  }

  ghost predicate LinksOk(cd: Codec, c: Conn, links: seq<Link>) {
    links != [] && forall j | 0 <= j < |links| :: LinkOk(cd, c, links[j])
  }

  /** The stream to the client carries replies of the server. */
  ghost predicate Downstream(cd: Codec, s: Sys) {
    DownAligned(s) && forall i | 0 <= i < |s.down| :: OfServed(cd, s.served, s.down[i])
  }

  ghost predicate AllServedOk(cd: Codec, reg: map<bytes, set<bytes>>, s: Sys) {
    forall i | 0 <= i < |s.served| :: ServedOk(cd, reg, s.client, s.served[i])
  }

  ghost predicate AllReceivedOk(s: Sys) {
    AllAnswers(s.served, s.client.received)
  }

  ghost predicate AllAnswers(served: seq<Served>, received: seq<Received>) {
    forall i | 0 <= i < |received| :: ReceivedOk(served, received[i])
  }

  ghost predicate SysInv(cd: Codec, reg: map<bytes, set<bytes>>, s: Sys) {
    ClientOk(cd, s.client) && LinksOk(cd, s.client, s.links) && Downstream(cd, s) && AllServedOk(cd, reg, s) && AllReceivedOk(s)
  }

  /* Streams. */

  lemma FrontFrame(stream: bytes, fs: seq<Frame>, h: Header)
    requires BetweenFrames(stream, fs) && |stream| >= HEADER_SIZE && h == ReadHeader(stream[..HEADER_SIZE])
    ensures InPayload(stream[HEADER_SIZE..], fs, h)
  {
    assert fs != [];
    StreamFront(fs);
    HeaderRoundTrip(HeaderOf(fs[0]));
  }

  lemma FramePassed(stream: bytes, fs: seq<Frame>, h: Header, n: nat)
    requires InPayload(stream, fs, h) && n == h.rpcLen + h.reqLen + h.respLen
    ensures |stream| >= n && stream[..n] == Payload(fs[0]) && BetweenFrames(stream[n..], fs[1..])
    ensures Cut(h, stream[..n]) == fs[0] && PayloadLength(h) == n == |Payload(fs[0])|
  {
    CutPayload(fs[0]);
    var p, t := Payload(fs[0]), StreamOf(fs[1..]);
    assert (p + t)[..n] == p && (p + t)[n..] == t;
  }

  lemma BetweenExtended(stream: bytes, fs: seq<Frame>, gs: seq<Frame>)
    requires BetweenFrames(stream, fs) && AllFit(gs)
    ensures BetweenFrames(stream + StreamOf(gs), fs + gs)
  {
    StreamAppends(fs, gs);
  }

  lemma TailAppends(fs: seq<Frame>, gs: seq<Frame>)
    requires fs != [] && AllFit(fs) && AllFit(gs)
    ensures (fs + gs)[0] == fs[0] && (fs + gs)[1..] == fs[1..] + gs
    ensures AllFit(fs + gs) && StreamOf((fs + gs)[1..]) == StreamOf(fs[1..]) + StreamOf(gs)
  {
    assert (fs + gs)[1..] == fs[1..] + gs;
    StreamAppends(fs[1..], gs);
  }

  lemma PayloadExtended(stream: bytes, fs: seq<Frame>, gs: seq<Frame>, h: Header)
    requires InPayload(stream, fs, h) && AllFit(gs)
    ensures InPayload(stream + StreamOf(gs), fs + gs, h)
  {
    TailAppends(fs, gs);
    Regroup(Payload(fs[0]), StreamOf(fs[1..]), StreamOf(gs));
  }

  lemma SingleFrame(f: Frame)
    requires FrameFits(f)
    ensures AllFit([f]) && StreamOf([f]) == FrameBytes(f)
  {
    assert [f][1..] == [];
    assert FrameBytes(f) + [] == FrameBytes(f);
  }

  /* A server step: its connection. */

  /** A step that reads nothing. */
  lemma LinkIdles(cd: Codec, reg: map<bytes, set<bytes>>, c: Conn, l: Link, e: SrvEvent)
    requires LinkOk(cd, c, l) && LinkMay(cd, reg, l, e)
    requires e.ReplyOut? || (e.HeaderIn? && !e.ok) || (e.PayloadIn? && !e.ok)
    ensures LinkOk(cd, c, LinkMove(l, e))
  {
    SrvStepKeeps(l.server, e);
    OnlyOp(l.server, OpOf(e));
  }

  lemma LinkReadsHeader(cd: Codec, reg: map<bytes, set<bytes>>, c: Conn, l: Link, e: SrvEvent)
    requires LinkOk(cd, c, l) && LinkMay(cd, reg, l, e) && e.HeaderIn? && e.ok
    ensures LinkOk(cd, c, LinkMove(l, e))
  {
    HeaderTaken(l.server, e);
    FrontFrame(l.c2s, l.up, e.header);
    HeaderTakenKeeps(cd, c, l, e.header, SrvStep(l.server, e));
  }

  /** After a header only the payload read can be pending. */
  lemma HeaderTaken(s: Srv, e: SrvEvent)
    requires SrvInv(s) && SrvEnabled(s, e) && e.HeaderIn? && e.ok
    ensures var v' := SrvStep(s, e);
      SrvInv(v') && v'.header == e.header && v'.pending <= multiset{ReadPayloadOp}
  {
    SrvStepKeeps(s, e);
    OnlyOp(s, ReadHeaderOp);
    HeaderThenPayload(End(s, ReadHeaderOp), e.header, e.granted);
  }

  lemma HeaderThenPayload(s: Srv, h: Header, granted: bool)
    requires s.pending == multiset{}
    ensures var s' := OnHeader(s, true, h, granted);
      s'.header == h && s'.pending <= multiset{ReadPayloadOp}
  {
    assert multiset{} + multiset{ReadPayloadOp} == multiset{ReadPayloadOp};
  }

  lemma HeaderTakenKeeps(cd: Codec, c: Conn, l: Link, h: Header, v': Srv)
    requires LinkOk(cd, c, l) && |l.c2s| >= HEADER_SIZE && InPayload(l.c2s[HEADER_SIZE..], l.up, h)
    requires SrvInv(v') && !v'.overrun && v'.header == h && v'.pending <= multiset{ReadPayloadOp}
    ensures LinkOk(cd, c, Link(v', l.c2s[HEADER_SIZE..], l.up))
  {
    assert forall op | op in v'.pending :: op == ReadPayloadOp;
  }

  /** The payload the server reads is the rest of the first frame. */
  lemma PayloadIsFrame(cd: Codec, reg: map<bytes, set<bytes>>, c: Conn, l: Link, e: SrvEvent)
    requires LinkOk(cd, c, l) && LinkMay(cd, reg, l, e) && e.PayloadIn? && e.ok
    ensures Exact(l.server.header, e.payload) && l.up != [] && Cut(l.server.header, e.payload) == l.up[0]
    ensures BetweenFrames(l.c2s[|e.payload|..], l.up[1..])
  {
    InPayloadExact(l.c2s, l.up, l.server.header, e.payload);
    FramePassed(l.c2s, l.up, l.server.header, |e.payload|);
  }

  /** The lengths of a frame in the stream never wrap. */
  lemma InPayloadExact(stream: bytes, fs: seq<Frame>, h: Header, payload: bytes)
    requires InPayload(stream, fs, h) && PacketLength(h) == HEADER_SIZE + |payload|
    ensures Exact(h, payload)
  {
    assert FrameFits(fs[0]) && Total(h) < TWO32;
  }

  lemma LinkReadsPayload(cd: Codec, reg: map<bytes, set<bytes>>, c: Conn, l: Link, e: SrvEvent)
    requires LinkOk(cd, c, l) && LinkMay(cd, reg, l, e) && e.PayloadIn? && e.ok
    ensures LinkOk(cd, c, LinkMove(l, e))
  {
    PayloadIsFrame(cd, reg, c, l, e);
    ServerAnswers(l.server, e);
    FrameTaken(cd, c, l, SrvStep(l.server, e), l.c2s[|e.payload|..]);
  }

  lemma FrameTaken(cd: Codec, c: Conn, l: Link, v': Srv, c2s: bytes)
    requires LinkOk(cd, c, l) && l.up != []
    requires SrvInv(v') && !v'.overrun && ReadPayloadOp !in v'.pending && BetweenFrames(c2s, l.up[1..])
    ensures LinkOk(cd, c, Link(v', c2s, l.up[1..]))
  {
  }

  lemma LinkKeeps(cd: Codec, reg: map<bytes, set<bytes>>, c: Conn, l: Link, e: SrvEvent)
    requires LinkOk(cd, c, l) && LinkMay(cd, reg, l, e)
    ensures LinkOk(cd, c, LinkMove(l, e))
  {
    if e.HeaderIn? && e.ok {
      LinkReadsHeader(cd, reg, c, l, e);
    } else if e.PayloadIn? && e.ok {
      LinkReadsPayload(cd, reg, c, l, e);
    } else {
      LinkIdles(cd, reg, c, l, e);
    }
  }

  /** Whether the server's payload step answers, and with what. */
  lemma ServerAnswers(s: Srv, e: SrvEvent)
    requires SrvInv(s) && SrvEnabled(s, e) && e.PayloadIn? && e.ok
    ensures var v', v := SrvStep(s, e), VerdictOn(s.header, e.env, e.payload, e.wild);
      && SrvInv(v') && ReadPayloadOp !in v'.pending
      && (|v'.replied| == |s.replied| <==> v'.pending == multiset{})
      && (|v'.replied| != |s.replied| ==> v.Respond? && |v'.replied| == |s.replied| + 1)
  {
    PayloadStep(s, true, e.env, e.payload, e.wild, e.luck);
    PayloadOutcome(End(s, ReadPayloadOp), e.env, e.payload, e.wild, e.luck);
  }

  /* A server step: the system. */

  lemma LinkChanged(cd: Codec, reg: map<bytes, set<bytes>>, s: Sys, j: nat, l: Link)
    requires SysInv(cd, reg, s) && j < |s.links| && LinkOk(cd, s.client, l)
    ensures SysInv(cd, reg, s.(links := s.links[j := l]))
  {
    OneLink(cd, s.client, s.links, j, l);
    SameDownstream(cd, s, s.(links := s.links[j := l]));
  }

  lemma OneLink(cd: Codec, c: Conn, links: seq<Link>, j: nat, l: Link)
    requires LinksOk(cd, c, links) && j < |links| && LinkOk(cd, c, l)
    ensures LinksOk(cd, c, links[j := l])
  {
    var links' := links[j := l];
    forall i | 0 <= i < |links| ensures LinkOk(cd, c, links'[i]) {
      assert LinkOk(cd, c, links[i]);
    }
  }

  lemma DispatchedKeeps(cd: Codec, reg: map<bytes, set<bytes>>, s: Sys, j: nat, env: Env, f: Frame, answered: bool)
    requires SysInv(cd, reg, s) && env.codec == cd && env.registry == reg && OfTask(cd, s.client, f)
    requires ReplyFits(env, AsyncVerdict(env, f.meta, f.req))
    ensures SysInv(cd, reg, Dispatched(s, j, env, f, answered))
  {
    var r := Served(env, f, AsyncVerdict(env, f.meta, f.req), |s.taken|);
    var s1 := s.(taken := s.taken + [f]);
    SameDownstream(cd, s, s1);
    if answered && r.v.Respond? {
      ReplyAdded(cd, reg, s1, j, r);
    }
  }

  lemma SameDownstream(cd: Codec, s: Sys, s': Sys)
    requires Downstream(cd, s)
    requires s'.client == s.client && s'.s2c == s.s2c && s'.down == s.down && s'.served == s.served
    ensures Downstream(cd, s')
  {
  }

  /** A reply joins the stream to the client, or is lost. */
  lemma ReplyAdded(cd: Codec, reg: map<bytes, set<bytes>>, s: Sys, j: nat, r: Served)
    requires SysInv(cd, reg, s) && ServedOk(cd, reg, s.client, r)
    ensures SysInv(cd, reg, Replied(s, j, r))
  {
    ReplyDownstream(cd, s, j, r);
    ReplyHistory(cd, reg, s, j, r);
  }

  lemma ReplyDownstream(cd: Codec, s: Sys, j: nat, r: Served)
    requires r.env.codec == cd && r.v.Respond? && FrameFits(ReplyFrame(cd, r.v.meta, r.v.param)) && Downstream(cd, s)
    ensures Downstream(cd, Replied(s, j, r))
  {
    DownExtended(s, ReplyFrame(cd, r.v.meta, r.v.param));
    ReplyOfServed(cd, s, r);
  }

  lemma ReplyHistory(cd: Codec, reg: map<bytes, set<bytes>>, s: Sys, j: nat, r: Served)
    requires AllServedOk(cd, reg, s) && AllReceivedOk(s) && ServedOk(cd, reg, s.client, r)
    ensures AllServedOk(cd, reg, Replied(s, j, r)) && AllReceivedOk(Replied(s, j, r))
  {
    var s' := Replied(s, j, r);
    forall i | 0 <= i < |s.client.received| ensures ReceivedOk(s'.served, s'.client.received[i]) {
      ReceivedStays(s.served, r, s.client.received[i]);
    }
  }

  lemma ReplyOfServed(cd: Codec, s: Sys, r: Served)
    requires r.v.Respond? && forall i | 0 <= i < |s.down| :: OfServed(cd, s.served, s.down[i])
    ensures forall f | f in s.down + [ReplyFrame(cd, r.v.meta, r.v.param)] :: OfServed(cd, s.served + [r], f)
  {
    forall f | f in s.down + [ReplyFrame(cd, r.v.meta, r.v.param)] ensures OfServed(cd, s.served + [r], f) {
      if f in s.down {
        ServedStays(cd, s.served, r, f);
      } else {
        assert (s.served + [r])[|s.served|] == r;
      }
    }
  }

  lemma DownExtended(s: Sys, reply: Frame)
    requires DownAligned(s) && FrameFits(reply)
    ensures DownAligned(s.(s2c := s.s2c + FrameBytes(reply), down := s.down + [reply]))
  {
    SingleFrame(reply);
    if ReadingPayload in s.client.pending {
      PayloadExtended(s.s2c, s.down, [reply], s.client.header);
    }
    if BetweenFrames(s.s2c, s.down) {
      BetweenExtended(s.s2c, s.down, [reply]);
    }
  }

  lemma ServedStays(cd: Codec, served: seq<Served>, r: Served, f: Frame)
    requires OfServed(cd, served, f)
    ensures OfServed(cd, served + [r], f)
  {
    var i :| 0 <= i < |served| && served[i].v.Respond? && f == ReplyFrame(cd, served[i].v.meta, served[i].v.param);
    assert (served + [r])[i] == served[i];
  }

  lemma ReceivedStays(served: seq<Served>, r: Served, a: Received)
    requires ReceivedOk(served, a)
    ensures ReceivedOk(served + [r], a)
  {
    var i :| 0 <= i < |served| && served[i].v.Respond?
      && served[i].v.meta.id == Some(a.id) && served[i].v.meta.status == Some(a.status)
      && (served[i].v.param.Some? ==> a.param == served[i].v.param);
    assert (served + [r])[i] == served[i];
  }

  lemma ServerKeeps(cd: Codec, reg: map<bytes, set<bytes>>, s: Sys, j: nat, e: SrvEvent)
    requires SysInv(cd, reg, s) && ServerMay(cd, reg, s, j, e)
    ensures SysInv(cd, reg, ServerMove(s, j, e))
  {
    var l, l' := s.links[j], LinkMove(s.links[j], e);
    LinkKeeps(cd, reg, s.client, l, e);
    LinkChanged(cd, reg, s, j, l');
    if e.PayloadIn? && e.ok {
      PayloadIsFrame(cd, reg, s.client, l, e);
      FirstOfTask(cd, s.client, l);
    }
    AfterMoveKeeps(cd, reg, s.(links := s.links[j := l']), j, l.server, l'.server, e);
  }

  /** The rest of the step once the payload is off the stream. */
  lemma AfterMoveKeeps(cd: Codec, reg: map<bytes, set<bytes>>, s: Sys, j: nat, v: Srv, v': Srv, e: SrvEvent)
    requires SysInv(cd, reg, s) && SrvEnabled(v, e) && (e.PayloadIn? ==> e.env.codec == cd && e.env.registry == reg)
    requires e.PayloadIn? && e.ok ==> Exact(v.header, e.payload) && OfTask(cd, s.client, Cut(v.header, e.payload))
    ensures SysInv(cd, reg, AfterMove(s, j, v, v', e))
  {
    if e.PayloadIn? && e.ok {
      DispatchedKeeps(cd, reg, s, j, e.env, Cut(v.header, e.payload), |v'.replied| != |v.replied|);
    }
  }

  lemma FirstOfTask(cd: Codec, c: Conn, l: Link)
    requires LinkOk(cd, c, l) && l.up != []
    ensures OfTask(cd, c, l.up[0])
  {
  }

  /* A client step: the pending reads. */

  lemma FiredReader(c: Conn, h: Handler)
    requires WellFormed(c) && OneReader(c) && h in c.pending
    requires h.ReadingHeader? || h.ReadingPayload? || h.Connecting?
    ensures !HasReader(Fire(c, h))
  {
  }

  lemma QuietReaders(c: Conn, c': Conn)
    requires Quiet(c, c')
    ensures OneReader(c) ==> OneReader(c')
    ensures !HasReader(c) ==> !HasReader(c')
  {
    assert forall k :: Connecting(k) in c'.pending <==> c'.pending[Connecting(k)] > 0;
    assert forall k :: Connecting(k) in c.pending <==> c.pending[Connecting(k)] > 0;
  }

  /** The only reader, if there is one, is `h`. */
  ghost predicate OnlyReader(c: Conn, h: Handler) {
    && (ReadingHeader in c.pending ==> h == ReadingHeader)
    && (ReadingPayload in c.pending ==> h == ReadingPayload)
    && (forall k :: Connecting(k) in c.pending ==> h == Connecting(k))
    && OneReader(c)
  }

  lemma PlusReaders(c: Conn, c': Conn, h: Handler)
    requires !HasReader(c)
    requires QuietPlus(c, c', h) || Quiet(c, c')
    ensures OnlyReader(c', h)
  {
    assert forall k :: Connecting(k) in c'.pending <==> c'.pending[Connecting(k)] > 0;
    assert forall k :: c.pending[Connecting(k)] == 0;
  }

  function NewlyReceived(c: Conn, e: Event): seq<Received>
    requires e.PayloadRead? && e.rpc.Some? ==> e.rpc.value.id.Some? && e.rpc.value.status.Some?
  {
    if CompleteRead(c, e) && e.rpc.Some? then [Received(e.rpc.value.id.value, e.rpc.value.status.value, e.param)] else []
  }

  /** How the reads of each event go on. */
  ghost predicate NextRead(c: Conn, e: Event, c': Conn) {
    && Enabled(c, e)
    && (e.Called? || e.NextEndpoint? || e.Written? || e.TimerFired? || (e.Resolved? && !e.ok) ==> Quiet(c, c'))
    && (e.Resolved? && e.ok ==> OnlyReader(c', Connecting(e.k)) && c'.received == c.received)
    && (e.Connected? ==> OnlyReader(c', ReadingHeader) && c'.received == c.received)
    && (e.Connected? && !(e.ok && e.granted) ==> !HasReader(c'))
    && (e.HeaderRead? ==> OnlyReader(c', ReadingPayload) && c'.received == c.received)
    && (e.HeaderRead? && !(e.ok && e.granted) ==> !HasReader(c'))
    && (e.HeaderRead? && e.ok ==> c'.header == e.header && c'.n == PayloadLength(e.header))
    && (e.PayloadRead? ==> OnlyReader(c', ReadingHeader))
    && (e.PayloadRead? ==> c'.received == c.received + NewlyReceived(c, e))
    && (e.PayloadRead? && !CompleteRead(c, e) ==> !HasReader(c'))
    && c.sent <= c'.sent
  }

  lemma QuietFire(c: Conn, h: Handler)
    requires WellFormed(c) && (h.Resolving? || h.Writing? || h.Waiting?)
    ensures Quiet(c, Fire(c, h))
  {
  }

  lemma ResolvedReads(c: Conn, e: Event)
    requires WellFormed(c) && Enabled(c, e) && e.Resolved? && (e.ok ==> !HasReader(c))
    ensures NextRead(c, e, Step(c, e))
  {
    var c1 := Fire(c, Resolving(e.k));
    QuietFire(c, Resolving(e.k));
    ResolvedQuiet(c1, e.k, e.ok, e.isOpen, e.react);
    if e.ok {
      QuietReaders(c, c1);
      PlusReaders(c1, Step(c, e), Connecting(e.k));
    }
  }

  lemma ConnectedReads(c: Conn, e: Event)
    requires WellFormed(c) && Enabled(c, e) && OneReader(c) && e.Connected?
    ensures NextRead(c, e, Step(c, e))
  {
    var c1 := Fire(c, Connecting(e.k));
    FiredReader(c, Connecting(e.k));
    ConnectedQuiet(c1, e.k, e.ok, e.send, e.granted, e.react);
    PlusReaders(c1, Step(c, e), ReadingHeader);
    if !(e.ok && e.granted) {
      QuietReaders(c1, Step(c, e));
    }
  }

  lemma HeaderReads(c: Conn, e: Event)
    requires WellFormed(c) && Enabled(c, e) && OneReader(c) && e.HeaderRead?
    ensures NextRead(c, e, Step(c, e))
  {
    var c1 := Fire(c, ReadingHeader);
    FiredReader(c, ReadingHeader);
    HeaderQuiet(c1, e.ok, e.header, e.granted, e.react);
    var c2 := if e.ok then TakeHeader(c1, e.header) else c1;
    PlusReaders(c2, Step(c, e), ReadingPayload);
    if !(e.ok && e.granted) {
      QuietReaders(c2, Step(c, e));
    }
  }

  lemma PayloadReads(c: Conn, e: Event)
    requires WellFormed(c) && Enabled(c, e) && OneReader(c) && e.PayloadRead?
    ensures NextRead(c, e, Step(c, e))
  {
    var c1 := Fire(c, ReadingPayload);
    FiredReader(c, ReadingPayload);
    if WholePayload(c1, e.end) && e.rpc.Some? {
      ReplyReads(c, e, c1, Step(c, e));
    } else {
      PayloadQuiet(c1, e.end, e.rpc, e.param, e.granted, e.react);
      assert c.received + NewlyReceived(c, e) == c.received;
      PlusReaders(c1, Step(c, e), ReadingHeader);
      QuietReaders(c1, Step(c, e));
    }
  }

  lemma ReplyReads(c: Conn, e: Event, c1: Conn, c': Conn)
    requires WellFormed(c) && Enabled(c, e) && OneReader(c) && e.PayloadRead? && CompleteRead(c, e) && e.rpc.Some?
    requires c1 == Fire(c, ReadingPayload) && !HasReader(c1) && c' == Step(c, e)
    ensures NextRead(c, e, c')
  {
    PayloadQuiet(c1, e.end, e.rpc, e.param, e.granted, e.react);
    var c2 := Note(c1, Received(e.rpc.value.id.value, e.rpc.value.status.value, e.param));
    assert c2.received == c.received + NewlyReceived(c, e);
    PlusReaders(c2, c', ReadingHeader);
  }

  lemma StepReads(c: Conn, e: Event)
    requires WellFormed(c) && Enabled(c, e) && OneReader(c) && (e.Resolved? && e.ok ==> !HasReader(c))
    ensures NextRead(c, e, Step(c, e)) && OneReader(Step(c, e))
  {
    if e.Resolved? {
      ResolvedReads(c, e);
    } else if e.Connected? {
      ConnectedReads(c, e);
    } else if e.HeaderRead? {
      HeaderReads(c, e);
    } else if e.PayloadRead? {
      PayloadReads(c, e);
    } else {
      OtherQuiet(c, e);
    }
    if Quiet(c, Step(c, e)) {
      QuietReaders(c, Step(c, e));
    }
  }

  /* A client step: the stream to the client. */

  lemma DownAfterQuiet(s: Sys, c': Conn)
    requires DownAligned(s) && Quiet(s.client, c')
    ensures DownAligned(s.(client := c'))
  {
    assert forall k :: Connecting(k) in c'.pending <==> c'.pending[Connecting(k)] > 0;
    assert forall k :: Connecting(k) in s.client.pending <==> s.client.pending[Connecting(k)] > 0;
  }

  /** The streams after the step, but for what it sends. */
  lemma DownAfterStep(cd: Codec, s: Sys, e: Event, granted: bool)
    requires DownAligned(s) && ClientMay(cd, s, e) && NextRead(s.client, e, Step(s.client, e))
    ensures DownAligned(AfterRead(s, e, granted).(client := Step(s.client, e)))
  {
    var c' := Step(s.client, e);
    if Quiet(s.client, c') && !e.HeaderRead? && !e.PayloadRead? && !(e.Resolved? && e.ok) {
      DownAfterQuiet(s, c');
    } else if e.HeaderRead? && e.ok {
      FrontFrame(s.s2c, s.down, e.header);
      FramePassed(s.s2c[HEADER_SIZE..], s.down, e.header, PayloadOfFirst(s.down));
    } else if CompleteRead(s.client, e) {
      PayloadPassed(s);
    }
  }

  function PayloadOfFirst(fs: seq<Frame>): nat
    requires fs != []
  {
    |Payload(fs[0])|
  }

  lemma PayloadPassed(s: Sys)
    requires DownAligned(s) && ReadingPayload in s.client.pending
    ensures s.down != [] && |s.s2c| >= s.client.n && BetweenFrames(s.s2c[s.client.n..], s.down[1..])
    ensures var h := s.client.header;
      && s.client.n == h.rpcLen + h.reqLen + h.respLen && h == HeaderOf(s.down[0])
      && s.s2c[..s.client.n] == Payload(s.down[0])
  {
    FramePassed(s.s2c, s.down, s.client.header, s.client.n);
  }

  /** The read payload, cut as the client cuts it, is the metadata and the parameter of one reply. */
  lemma ReplyRead(cd: Codec, s: Sys, e: Event)
    requires DownAligned(s) && ReadingPayload in s.client.pending && ClientMay(cd, s, e) && CompleteRead(s.client, e)
    requires s.down != [] && s.down[0].req == []
    ensures e.rpc == ParseResponse(s.down[0].meta) && e.param == cd.decode(s.down[0].resp)
  {
    PayloadPassed(s);
    var h, f, p := s.client.header, s.down[0], s.s2c[..s.client.n];
    assert s.s2c[..h.rpcLen] == p[..h.rpcLen] == f.meta;
    assert s.s2c[h.rpcLen..h.rpcLen + h.respLen] == p[h.rpcLen..] == f.resp;
  }

  lemma MetaFits(cd: Codec, meta: Response, param: Option<Msg>)
    requires FrameFits(ReplyFrame(cd, meta, param)) && meta.unknown == []
    ensures ResponseFits(meta)
  {
  }

  lemma ReplyParses(cd: Codec, r: Served)
    requires r.v.Respond? && r.v == AsyncVerdict(r.env, r.f.meta, r.f.req)
    requires FrameFits(ReplyFrame(cd, r.v.meta, r.v.param))
    ensures ParseResponse(PrintResponse(r.v.meta)) == Some(r.v.meta)
  {
    MetaFits(cd, r.v.meta, r.v.param);
    AsyncReplyParses(r.env, r.f.meta, r.f.req);
  }

  /** A completely read payload is a reply of the server. */
  lemma ReceivedIsServed(cd: Codec, reg: map<bytes, set<bytes>>, s: Sys, e: Event)
    requires RoundTrips(cd) && AllServedOk(cd, reg, s) && Downstream(cd, s)
    requires ReadingPayload in s.client.pending && ClientMay(cd, s, e) && CompleteRead(s.client, e) && e.rpc.Some?
    ensures ReceivedOk(s.served, Received(e.rpc.value.id.value, e.rpc.value.status.value, e.param))
  {
    PayloadPassed(s);
    assert OfServed(cd, s.served, s.down[0]);
    var i := ServedIndex(cd, s.served, s.down[0]);
    assert ServedOk(cd, reg, s.client, s.served[i]);
    ReplyRead(cd, s, e);
    ReplySeen(cd, s.served[i], e.rpc, e.param);
  }

  lemma ServedIndex(cd: Codec, served: seq<Served>, f: Frame) returns (i: nat)
    requires OfServed(cd, served, f)
    ensures i < |served| && served[i].v.Respond? && f == ReplyFrame(cd, served[i].v.meta, served[i].v.param)
  {
    i :| 0 <= i < |served| && served[i].v.Respond? && f == ReplyFrame(cd, served[i].v.meta, served[i].v.param);
  }

  /** What the client's parsers make of a reply. */
  lemma ReplySeen(cd: Codec, r: Served, rpc: Option<Response>, param: Option<Msg>)
    requires RoundTrips(cd) && r.v.Respond? && r.v == AsyncVerdict(r.env, r.f.meta, r.f.req)
    requires var f := ReplyFrame(cd, r.v.meta, r.v.param);
      FrameFits(f) && rpc == ParseResponse(f.meta) && param == cd.decode(f.resp)
    ensures rpc == Some(r.v.meta) && (r.v.param.Some? ==> param == r.v.param)
  {
    ReplyParses(cd, r);
  }

  /* A client step: everything else. */

  lemma OfTaskStays(cd: Codec, c: Conn, c': Conn, f: Frame)
    requires OfTask(cd, c, f) && Evolves(c, c')
    ensures OfTask(cd, c', f)
  {
    var k :| 0 <= k < |c.tasks| && TaskFits(cd, c.tasks[k]) && f == CallFrame(cd, c.tasks[k]);
    assert SameCall(c.tasks[k], c'.tasks[k]);
  }

  lemma SentOfTasks(cd: Codec, c: Conn, from: nat)
    requires WellFormed(c) && TasksFit(cd, c) && from <= |c.sent|
    ensures AllOfTasks(cd, c, SentFrames(cd, c, from))
  {
    forall i | 0 <= i < |SentFrames(cd, c, from)| ensures OfTask(cd, c, SentFrames(cd, c, from)[i]) {
      assert TaskFits(cd, c.tasks[c.sent[from + i]]);
    }
  }

  /** The stream to the server after the sends of a step. */
  lemma UpAfterSend(l: Link, fs: seq<Frame>)
    requires UpAligned(l) && AllFit(fs)
    ensures UpAligned(Carrying(l, fs))
  {
    if ReadPayloadOp in l.server.pending {
      PayloadExtended(l.c2s, l.up, fs, l.server.header);
    }
    if BetweenFrames(l.c2s, l.up) {
      BetweenExtended(l.c2s, l.up, fs);
    }
  }

  /** A new connect starts with empty streams and an accepted server connection. */
  lemma Reconnected(cd: Codec, c: Conn, links: seq<Link>, granted: bool)
    requires LinksOk(cd, c, links)
    ensures LinksOk(cd, c, links + [Link(Serve(ACCEPTED, granted), [], [])])
  {
    var links' := links + [Link(Serve(ACCEPTED, granted), [], [])];
    NewLink(cd, c, granted);
    forall i | 0 <= i < |links'| ensures LinkOk(cd, c, links'[i]) {
      assert i < |links| ==> LinkOk(cd, c, links[i]);
    }
  }

  lemma NewLink(cd: Codec, c: Conn, granted: bool)
    ensures LinkOk(cd, c, Link(Serve(ACCEPTED, granted), [], []))
  {
    ServeKeeps(ACCEPTED, granted);
  }

  lemma AllOfTasksStay(cd: Codec, c: Conn, c': Conn, fs: seq<Frame>)
    requires AllOfTasks(cd, c, fs) && Evolves(c, c')
    ensures AllOfTasks(cd, c', fs)
  {
    forall i | 0 <= i < |fs| ensures OfTask(cd, c', fs[i]) {
      OfTaskStays(cd, c, c', fs[i]);
    }
  }

  lemma LinkStays(cd: Codec, c: Conn, c': Conn, l: Link)
    requires LinkOk(cd, c, l) && Evolves(c, c')
    ensures LinkOk(cd, c', l)
  {
    AllOfTasksStay(cd, c, c', l.up);
  }

  lemma CarryingOk(cd: Codec, c: Conn, l: Link, from: nat)
    requires WellFormed(c) && TasksFit(cd, c) && from <= |c.sent| && LinkOk(cd, c, l)
    ensures LinkOk(cd, c, Carrying(l, SentFrames(cd, c, from)))
  {
    SentOfTasks(cd, c, from);
    UpAfterSend(l, SentFrames(cd, c, from));
  }

  lemma LinksAfterSend(cd: Codec, s: Sys, c: Conn, from: nat)
    requires WellFormed(c) && TasksFit(cd, c) && from <= |c.sent|
    requires LinksOk(cd, s.client, s.links) && Evolves(s.client, c)
    ensures LinksOk(cd, c, SendAll(cd, s, c, from).links)
  {
    forall j | 0 <= j < |s.links| ensures LinkOk(cd, c, s.links[j]) {
      LinkStays(cd, s.client, c, s.links[j]);
    }
    CarryingOk(cd, c, s.links[|s.links| - 1], from);
  }

  lemma ClientLinks(cd: Codec, s: Sys, e: Event, granted: bool)
    requires LinksOk(cd, s.client, s.links) && ClientMay(cd, s, e) && Evolves(s.client, Step(s.client, e))
    ensures LinksOk(cd, Step(s.client, e), ClientMove(cd, s, e, granted).links)
  {
    Reconnected(cd, s.client, s.links, granted);
    LinksAfterSend(cd, AfterRead(s, e, granted), Step(s.client, e), |s.client.sent|);
  }

  lemma SentDownstream(cd: Codec, s: Sys, c: Conn, from: nat)
    requires WellFormed(c) && TasksFit(cd, c) && from <= |c.sent| && s.links != []
    requires Downstream(cd, s.(client := c))
    ensures Downstream(cd, SendAll(cd, s, c, from))
  {
  }

  lemma DownAfterRead(cd: Codec, s: Sys, e: Event, granted: bool)
    requires Downstream(cd, s) && ClientMay(cd, s, e)
    ensures var s1 := AfterRead(s, e, granted);
      s1.served == s.served && forall i | 0 <= i < |s1.down| :: OfServed(cd, s.served, s1.down[i])
  {
  }

  lemma ClientDownstream(cd: Codec, s: Sys, e: Event, granted: bool)
    requires Downstream(cd, s) && s.links != [] && ClientMay(cd, s, e) && NextRead(s.client, e, Step(s.client, e))
    ensures Downstream(cd, ClientMove(cd, s, e, granted))
  {
    DownAfterStep(cd, s, e, granted);
    DownAfterRead(cd, s, e, granted);
    SentDownstream(cd, AfterRead(s, e, granted), Step(s.client, e), |s.client.sent|);
  }

  lemma ClientHistory(cd: Codec, reg: map<bytes, set<bytes>>, s: Sys, e: Event, granted: bool)
    requires RoundTrips(cd) && AllServedOk(cd, reg, s) && AllReceivedOk(s) && Downstream(cd, s) && s.links != []
    requires ClientMay(cd, s, e) && NextRead(s.client, e, Step(s.client, e)) && Evolves(s.client, Step(s.client, e))
    ensures AllServedOk(cd, reg, ClientMove(cd, s, e, granted)) && AllReceivedOk(ClientMove(cd, s, e, granted))
  {
    var c' := Step(s.client, e);
    ServedStill(cd, reg, s, c');
    NewIsServed(cd, reg, s, e);
    ReceivedAfter(s.served, s.client, e, c');
  }

  lemma ServedStill(cd: Codec, reg: map<bytes, set<bytes>>, s: Sys, c: Conn)
    requires AllServedOk(cd, reg, s) && Evolves(s.client, c)
    ensures forall i | 0 <= i < |s.served| :: ServedOk(cd, reg, c, s.served[i])
  {
    forall i | 0 <= i < |s.served| ensures ServedOk(cd, reg, c, s.served[i]) {
      assert ServedOk(cd, reg, s.client, s.served[i]);
      OfTaskStays(cd, s.client, c, s.served[i].f);
    }
  }

  lemma ReceivedAfter(served: seq<Served>, c: Conn, e: Event, c': Conn)
    requires NextRead(c, e, c') && AllAnswers(served, c.received) && AllAnswers(served, NewlyReceived(c, e))
    ensures AllAnswers(served, c'.received)
  {
    ReceivedNext(c, e, c');
  }

  lemma NewIsServed(cd: Codec, reg: map<bytes, set<bytes>>, s: Sys, e: Event)
    requires RoundTrips(cd) && AllServedOk(cd, reg, s) && Downstream(cd, s)
    requires ClientMay(cd, s, e)
    ensures AllAnswers(s.served, NewlyReceived(s.client, e))
  {
    if NewlyReceived(s.client, e) != [] {
      ReceivedIsServed(cd, reg, s, e);
    }
  }

  lemma ReceivedNext(c: Conn, e: Event, c': Conn)
    requires NextRead(c, e, c')
    ensures c'.received == c.received + NewlyReceived(c, e)
  {
    assert c.received + [] == c.received;
  }

  lemma ClientKeeps(cd: Codec, reg: map<bytes, set<bytes>>, s: Sys, e: Event, granted: bool)
    requires RoundTrips(cd) && SysInv(cd, reg, s) && ClientMay(cd, s, e)
    ensures SysInv(cd, reg, ClientMove(cd, s, e, granted))
  {
    StepKeeps(s.client, e);
    StepReads(s.client, e);
    ClientLinks(cd, s, e, granted);
    ClientDownstream(cd, s, e, granted);
    ClientHistory(cd, reg, s, e, granted);
  }

  /* Runs. */

  lemma StartInv(cd: Codec, reg: map<bytes, set<bytes>>)
    ensures SysInv(cd, reg, START)
  {
    FreshInv();
  }

  lemma {:induction false} SysRunKeeps(cd: Codec, reg: map<bytes, set<bytes>>, s: Sys, es: seq<SysEvent>, s': Sys)
    requires RoundTrips(cd) && SysInv(cd, reg, s) && SysRuns(cd, reg, s, es, s')
    ensures SysInv(cd, reg, s')
    decreases |es|
  {
    if es != [] {
      match es[0]
      case AtClient(e, granted) =>
        ClientKeeps(cd, reg, s, e, granted);
        SysRunKeeps(cd, reg, ClientMove(cd, s, e, granted), es[1..], s');
      case AtServer(j, e) =>
        ServerKeeps(cd, reg, s, j, e);
        SysRunKeeps(cd, reg, ServerMove(s, j, e), es[1..], s');
    }
  }

  /* No call is dispatched twice. */

  /** The id a request frame carries. */
  function IdIn(f: Frame): nat {
    var rpc := ParseRequest(f.meta);
    if rpc.Some? && rpc.value.id.Some? then rpc.value.id.value else 0
  }

  const ID_IN: Frame -> nat := (f: Frame) => IdIn(f)

  ghost predicate Distinct(id: Frame -> nat, fs: seq<Frame>) {
    forall i, j | 0 <= i < j < |fs| :: id(fs[i]) != id(fs[j])
  }

  ghost predicate Apart(id: Frame -> nat, fs: seq<Frame>, gs: seq<Frame>) {
    forall i, j | 0 <= i < |fs| && 0 <= j < |gs| :: id(fs[i]) != id(gs[j])
  }

  /** Each of `fs` carries the id of a task that was sent. */
  ghost predicate FromSent(id: Frame -> nat, fs: seq<Frame>, sent: seq<nat>) {
    forall i | 0 <= i < |fs| :: SentId(id(fs[i]), sent)
  }

  ghost predicate SentId(id: nat, sent: seq<nat>) {
    exists m :: 0 <= m < |sent| && id == sent[m] + 1
  }

  /** Replies go, in order, to requests that were taken. */
  ghost predicate InOrder(served: seq<Served>, taken: seq<Frame>) {
    && (forall i | 0 <= i < |served| :: served[i].at < |taken| && served[i].f == taken[served[i].at])
    && (forall i, j | 0 <= i < j < |served| :: served[i].at < served[j].at)
  }

  /** Distinct ids, of tasks that were sent. */
  ghost predicate Proper(id: Frame -> nat, fs: seq<Frame>, sent: seq<nat>) {
    Distinct(id, fs) && FromSent(id, fs, sent)
  }

  /** Requests taken, and those still on the way to any connection, carry different ids. */
  ghost predicate Once(s: Sys) {
    && Proper(ID_IN, s.taken, s.client.sent) && InOrder(s.served, s.taken)
    && WaitingOnce(ID_IN, s.links, s.taken, s.client.sent)
  }

  ghost predicate WaitingOnce(id: Frame -> nat, links: seq<Link>, taken: seq<Frame>, sent: seq<nat>) {
    && (forall j | 0 <= j < |links| :: Proper(id, links[j].up, sent) && Apart(id, taken, links[j].up))
    && (forall i, j | 0 <= i < |links| && 0 <= j < |links| && i != j :: Apart(id, links[i].up, links[j].up))
  }

  /** `fs` are the frames of the tasks sent since `from`. */
  ghost predicate SentSince(id: Frame -> nat, fs: seq<Frame>, sent: seq<nat>, from: nat) {
    |sent| == from + |fs| && forall i | 0 <= i < |fs| :: id(fs[i]) == sent[from + i] + 1
  }

  /** The frames of tasks sent since differ from each other and from all before. */
  lemma SentNew(id: Frame -> nat, past: seq<Frame>, fs: seq<Frame>, sent: seq<nat>, sent': seq<nat>)
    requires FromSent(id, past, sent) && sent <= sent' && SentSince(id, fs, sent', |sent|)
    requires forall i, j | 0 <= i < j < |sent'| :: sent'[i] != sent'[j]
    ensures Proper(id, fs, sent') && Apart(id, past, fs) && FromSent(id, past, sent')
  {
    forall i | 0 <= i < |fs| ensures SentId(id(fs[i]), sent') {
      assert id(fs[i]) == sent'[|sent| + i] + 1;
    }
    forall i | 0 <= i < |past| ensures SentId(id(past[i]), sent') && forall j | 0 <= j < |fs| :: id(past[i]) != id(fs[j]) {
      var m :| 0 <= m < |sent| && id(past[i]) == sent[m] + 1;
      assert sent'[m] == sent[m];
      forall j | 0 <= j < |fs| ensures id(past[i]) != id(fs[j]) {
        assert id(fs[j]) == sent'[|sent| + j] + 1;
      }
    }
  }

  lemma ProperJoin(id: Frame -> nat, fs: seq<Frame>, gs: seq<Frame>, sent: seq<nat>)
    requires Proper(id, fs, sent) && Proper(id, gs, sent) && Apart(id, fs, gs)
    ensures Proper(id, fs + gs, sent)
  {
  }

  lemma ApartJoin(id: Frame -> nat, all: seq<Frame>, fs: seq<Frame>, gs: seq<Frame>)
    requires Apart(id, all, fs) && Apart(id, all, gs)
    ensures Apart(id, all, fs + gs) && Apart(id, fs + gs, all)
  {
  }

  /** New frames join the last connection. */
  lemma WaitingMore(id: Frame -> nat, links: seq<Link>, taken: seq<Frame>, fs: seq<Frame>, sent: seq<nat>, sent': seq<nat>)
    requires links != [] && AllFit(fs) && WaitingOnce(id, links, taken, sent) && FromSent(id, taken, sent)
    requires sent <= sent' && SentSince(id, fs, sent', |sent|)
    requires forall i, j | 0 <= i < j < |sent'| :: sent'[i] != sent'[j]
    ensures WaitingOnce(id, links[|links| - 1 := Carrying(links[|links| - 1], fs)], taken, sent')
  {
    var last := |links| - 1;
    forall j | 0 <= j < |links| ensures Apart(id, links[j].up, fs) && FromSent(id, links[j].up, sent') {
      SentNew(id, links[j].up, fs, sent, sent');
    }
    SentNew(id, taken, fs, sent, sent');
    ProperJoin(id, links[last].up, fs, sent');
    ApartJoin(id, taken, links[last].up, fs);
    forall j | 0 <= j < last ensures Apart(id, links[j].up, links[last].up + fs) && Apart(id, links[last].up + fs, links[j].up) {
      ApartJoin(id, links[j].up, links[last].up, fs);
    }
  }

  lemma SentIds(cd: Codec, c: Conn, from: nat)
    requires WellFormed(c) && TasksFit(cd, c) && from <= |c.sent|
    ensures SentSince(ID_IN, SentFrames(cd, c, from), c.sent, from)
  {
    var fs := SentFrames(cd, c, from);
    forall i | 0 <= i < |fs| ensures ID_IN(fs[i]) == c.sent[from + i] + 1 {
      SentFrameAt(cd, c, from, i);
    }
  }

  lemma SentFrameAt(cd: Codec, c: Conn, from: nat, i: nat)
    requires WellFormed(c) && TasksFit(cd, c) && from <= |c.sent| && i < |SentFrames(cd, c, from)|
    ensures ID_IN(SentFrames(cd, c, from)[i]) == c.sent[from + i] + 1
  {
    var k := c.sent[from + i];
    assert SentFrames(cd, c, from)[i] == CallFrame(cd, c.tasks[k]);
    TaskId(cd, c, k);
  }

  lemma TaskId(cd: Codec, c: Conn, k: nat)
    requires Has(c, k) && TasksFit(cd, c)
    ensures ID_IN(CallFrame(cd, c.tasks[k])) == k + 1
  {
    assert TaskFits(cd, c.tasks[k]) && c.tasks[k].id == k + 1;
    IdOfCall(cd, c.tasks[k]);
  }

  lemma IdOfCall(cd: Codec, t: Task)
    requires TaskFits(cd, t)
    ensures ID_IN(CallFrame(cd, t)) == t.id
  {
    RequestParses(cd, t);
  }

  lemma SendAllOnce(cd: Codec, s: Sys, c: Conn)
    requires WellFormed(c) && TasksFit(cd, c) && s.client.sent <= c.sent && Settled(c) && Once(s) && s.links != []
    ensures Once(SendAll(cd, s, c, |s.client.sent|))
  {
    var from := |s.client.sent|;
    var fs := SentFrames(cd, c, from);
    SentIds(cd, c, from);
    SentDistinct(c);
    SentOnce(s, c, fs);
  }

  lemma SentOnce(s: Sys, c: Conn, fs: seq<Frame>)
    requires Once(s) && s.links != [] && AllFit(fs)
    requires s.client.sent <= c.sent && SentSince(ID_IN, fs, c.sent, |s.client.sent|)
    requires forall i, j | 0 <= i < j < |c.sent| :: c.sent[i] != c.sent[j]
    ensures var last := |s.links| - 1;
      Once(s.(client := c, links := s.links[last := Carrying(s.links[last], fs)]))
  {
    WaitingMore(ID_IN, s.links, s.taken, fs, s.client.sent, c.sent);
    SentNew(ID_IN, s.taken, fs, s.client.sent, c.sent);
  }

  lemma AfterReadOnce(cd: Codec, s: Sys, e: Event, granted: bool)
    requires Once(s) && ClientMay(cd, s, e)
    ensures Once(AfterRead(s, e, granted)) && AfterRead(s, e, granted).client == s.client
  {
    WaitingNew(ID_IN, s.links, Link(Serve(ACCEPTED, granted), [], []), s.taken, s.client.sent);
  }

  lemma WaitingNew(id: Frame -> nat, links: seq<Link>, l: Link, taken: seq<Frame>, sent: seq<nat>)
    requires WaitingOnce(id, links, taken, sent) && l.up == []
    ensures WaitingOnce(id, links + [l], taken, sent)
  {
    forall i, k | 0 <= i < |links| && 0 <= k < |links| && i != k ensures Apart(id, links[i].up, links[k].up) {
    }
  }

  lemma ClientOnce(cd: Codec, s: Sys, e: Event, granted: bool)
    requires Once(s) && s.links != [] && ClientMay(cd, s, e)
    requires Settled(Step(s.client, e)) && Evolves(s.client, Step(s.client, e))
    ensures Once(ClientMove(cd, s, e, granted))
  {
    AfterReadOnce(cd, s, e, granted);
    SendAllOnce(cd, AfterRead(s, e, granted), Step(s.client, e));
  }

  /** The first frame of the `j`-th connection is taken. */
  lemma WaitingTaken(id: Frame -> nat, links: seq<Link>, j: nat, l: Link, taken: seq<Frame>, sent: seq<nat>)
    requires j < |links| && links[j].up != [] && l.up == links[j].up[1..]
    requires Proper(id, taken, sent) && WaitingOnce(id, links, taken, sent)
    ensures var taken' := taken + [links[j].up[0]];
      Proper(id, taken', sent) && WaitingOnce(id, links[j := l], taken', sent)
  {
    var f, links' := links[j].up[0], links[j := l];
    forall i | 0 <= i < |links| ensures Proper(id, links'[i].up, sent) && Apart(id, taken + [f], links'[i].up) {
      if i != j {
        assert Apart(id, links[j].up, links[i].up);
      }
    }
    forall i, k | 0 <= i < |links| && 0 <= k < |links| && i != k ensures Apart(id, links'[i].up, links'[k].up) {
      assert Apart(id, links[i].up, links[k].up);
    }
  }

  lemma DispatchedOrder(s: Sys, j: nat, env: Env, f: Frame, answered: bool)
    requires InOrder(s.served, s.taken) && ReplyFits(env, AsyncVerdict(env, f.meta, f.req))
    ensures InOrder(Dispatched(s, j, env, f, answered).served, s.taken + [f])
  {
  }

  lemma ServerOnce(cd: Codec, reg: map<bytes, set<bytes>>, s: Sys, j: nat, e: SrvEvent)
    requires SysInv(cd, reg, s) && Once(s) && ServerMay(cd, reg, s, j, e)
    ensures Once(ServerMove(s, j, e))
  {
    var l, l' := s.links[j], LinkMove(s.links[j], e);
    if e.PayloadIn? && e.ok {
      PayloadIsFrame(cd, reg, s.client, l, e);
      TakenOnce(s, j, l', e.env, |l'.server.replied| != |l.server.replied|);
    } else {
      SameWaiting(ID_IN, s.links, j, l', s.taken, s.client.sent);
    }
  }

  lemma TakenOnce(s: Sys, j: nat, l: Link, env: Env, answered: bool)
    requires Once(s) && j < |s.links| && s.links[j].up != [] && l.up == s.links[j].up[1..]
    requires ReplyFits(env, AsyncVerdict(env, s.links[j].up[0].meta, s.links[j].up[0].req))
    ensures Once(Dispatched(s.(links := s.links[j := l]), j, env, s.links[j].up[0], answered))
  {
    WaitingTaken(ID_IN, s.links, j, l, s.taken, s.client.sent);
    DispatchedOrder(s.(links := s.links[j := l]), j, env, s.links[j].up[0], answered);
  }

  lemma SameWaiting(id: Frame -> nat, links: seq<Link>, j: nat, l: Link, taken: seq<Frame>, sent: seq<nat>)
    requires j < |links| && l.up == links[j].up && WaitingOnce(id, links, taken, sent)
    ensures WaitingOnce(id, links[j := l], taken, sent)
  {
    var links' := links[j := l];
    forall i, k | 0 <= i < |links| && 0 <= k < |links| && i != k ensures Apart(id, links'[i].up, links'[k].up) {
      assert Apart(id, links[i].up, links[k].up);
    }
  }

  lemma {:induction false} OnceAlong(cd: Codec, reg: map<bytes, set<bytes>>, s: Sys, es: seq<SysEvent>, s': Sys)
    requires RoundTrips(cd) && SysInv(cd, reg, s) && Once(s) && SysRuns(cd, reg, s, es, s')
    ensures Once(s')
    decreases |es|
  {
    if es != [] {
      match es[0]
      case AtClient(e, granted) =>
        ClientKeeps(cd, reg, s, e, granted);
        StepKeeps(s.client, e);
        ClientOnce(cd, s, e, granted);
        OnceAlong(cd, reg, ClientMove(cd, s, e, granted), es[1..], s');
      case AtServer(j, e) =>
        ServerKeeps(cd, reg, s, j, e);
        ServerOnce(cd, reg, s, j, e);
        OnceAlong(cd, reg, ServerMove(s, j, e), es[1..], s');
    }
  }

  lemma StartOnce()
    ensures Once(START)
  {
  }

  lemma OnceDistinct(s: Sys)
    requires Once(s)
    ensures forall i, j | 0 <= i < j < |s.taken| :: IdIn(s.taken[i]) != IdIn(s.taken[j])
    ensures forall i, j | 0 <= i < j < |s.served| :: s.served[i].f != s.served[j].f
  {
    forall i, j | 0 <= i < j < |s.taken| ensures IdIn(s.taken[i]) != IdIn(s.taken[j]) {
      assert ID_IN(s.taken[i]) != ID_IN(s.taken[j]);
    }
  }

  /**
   At most once. In every run, on the current connection and on all that the client
   has left behind, no two requests that were taken off a stream and dispatched
   carry the same id, and no two replies answer the same request.
   */
  lemma DispatchedOnce(cd: Codec, reg: map<bytes, set<bytes>>, es: seq<SysEvent>, s: Sys)
    requires RoundTrips(cd) && SysRuns(cd, reg, START, es, s)
    ensures forall i, j | 0 <= i < j < |s.taken| :: IdIn(s.taken[i]) != IdIn(s.taken[j])
    ensures forall i, j | 0 <= i < j < |s.served| :: s.served[i].f != s.served[j].f
  {
    StartInv(cd, reg);
    StartOnce();
    OnceAlong(cd, reg, START, es, s);
    OnceDistinct(s);
  }

  /** The method that `t` calls produced `resp` for `t`'s own request, and succeeded. */
  ghost predicate Produced(env: Env, t: Task, resp: Option<Msg>) {
    && t.service in env.registry && t.name in env.registry[t.service]
    && match env.run(t.service, t.name, t.request)
       case Returned(r, failed, _) => !failed && resp == Some(r)
       case Threw(_, _) => false
  }

  /** A SUCCESS verdict on a call's frame is what its method produced. */
  lemma SuccessProduced(cd: Codec, env: Env, t: Task)
    requires RoundTrips(cd) && env.codec == cd && TaskFits(cd, t) && DOT !in t.service
    requires var v := AsyncVerdict(env, CallFrame(cd, t).meta, CallFrame(cd, t).req);
      v.Respond? && v.meta.status == Some(SUCCESS)
    ensures Produced(env, t, AsyncVerdict(env, CallFrame(cd, t).meta, CallFrame(cd, t).req).param)
  {
    RequestParses(cd, t);
    JoinSplits(t.service, t.name);
    assert cd.decode(cd.encode(t.request)) == Some(t.request);
  }

  lemma SameIdSameTask(cd: Codec, c: Conn, r: Served, id: nat)
    requires WellFormed(c) && OfTask(cd, c, r.f) && 1 <= id <= |c.tasks|
    requires r.v.Respond? && r.v == AsyncVerdict(r.env, r.f.meta, r.f.req) && r.v.meta.id == Some(id)
    ensures TaskFits(cd, c.tasks[id - 1]) && r.f == CallFrame(cd, c.tasks[id - 1])
  {
    var k :| 0 <= k < |c.tasks| && TaskFits(cd, c.tasks[k]) && r.f == CallFrame(cd, c.tasks[k]);
    VerdictId(r.env, r.f.meta, r.f.req);
    RequestParses(cd, c.tasks[k]);
  }

  /** Behind an unfailed callback there is a SUCCESS reply to the call's own frame, with that parameter. */
  lemma SuccessHasReply(cd: Codec, reg: map<bytes, set<bytes>>, s: Sys, j: nat) returns (i: nat)
    requires j < |s.client.log| && s.client.log[j].code == EC_SUCCESS
    requires WellFormed(s.client) && Answered(s.client, s.client.log[j])
    requires AllServedOk(cd, reg, s) && AllReceivedOk(s)
    ensures i < |s.served| && s.served[i].env.codec == cd && s.served[i].env.registry == reg
    ensures var r, t := s.served[i], s.client.tasks[s.client.log[j].k];
      && TaskFits(cd, t) && r.f == CallFrame(cd, t)
      && r.v.Respond? && r.v == AsyncVerdict(r.env, r.f.meta, r.f.req)
      && r.v.meta.status == Some(SUCCESS)
      && (r.v.param.Some? ==> s.client.log[j].response == r.v.param)
  {
    var done := s.client.log[j];
    var a := AnswerIndex(s.client.received, done.k + 1, done.response);
    assert ReceivedOk(s.served, s.client.received[a]);
    i := ReplyIndex(s.served, s.client.received[a]);
    assert ServedOk(cd, reg, s.client, s.served[i]);
    SameIdSameTask(cd, s.client, s.served[i], done.k + 1);
  }

  lemma AnswerIndex(received: seq<Received>, id: nat, param: Option<Msg>) returns (a: nat)
    requires HasReceived(received, id, SUCCESS, param)
    ensures a < |received| && received[a].id == id && received[a].status == SUCCESS && received[a].param == param
  {
    a :| 0 <= a < |received| && received[a].id == id && received[a].status == SUCCESS && received[a].param == param;
  }

  lemma ReplyIndex(served: seq<Served>, a: Received) returns (i: nat)
    requires ReceivedOk(served, a)
    ensures i < |served| && served[i].v.Respond?
    ensures served[i].v.meta.id == Some(a.id) && served[i].v.meta.status == Some(a.status)
    ensures served[i].v.param.Some? ==> a.param == served[i].v.param
  {
    i :| 0 <= i < |served| && served[i].v.Respond?
      && served[i].v.meta.id == Some(a.id) && served[i].v.meta.status == Some(a.status)
      && (served[i].v.param.Some? ==> a.param == served[i].v.param);
  }

  /** Some served reply is the method's own result for the call behind the `j`-th callback. */
  ghost predicate OwnAnswer(cd: Codec, reg: map<bytes, set<bytes>>, s: Sys, j: nat)
    requires WellFormed(s.client) && TasksFit(cd, s.client) && j < |s.client.log|
  {
    var t := s.client.tasks[s.client.log[j].k];
    exists i :: 0 <= i < |s.served|
      && s.served[i].env.registry == reg && s.served[i].f == CallFrame(cd, t)
      && Produced(s.served[i].env, t, s.client.log[j].response)
  }

  lemma SuccessIsOwn(cd: Codec, reg: map<bytes, set<bytes>>, s: Sys, j: nat)
    requires WellFormed(s.client) && TasksFit(cd, s.client) && RoundTrips(cd)
    requires j < |s.client.log| && s.client.log[j].code == EC_SUCCESS && Answered(s.client, s.client.log[j])
    requires AllServedOk(cd, reg, s) && AllReceivedOk(s)
    requires DOT !in s.client.tasks[s.client.log[j].k].service
    ensures OwnAnswer(cd, reg, s, j)
  {
    var t := s.client.tasks[s.client.log[j].k];
    var i := SuccessHasReply(cd, reg, s, j);
    SuccessProduced(cd, s.served[i].env, t);
    ProducedSome(s.served[i].env, t, s.served[i].v.param);
  }

  lemma ProducedSome(env: Env, t: Task, resp: Option<Msg>)
    requires Produced(env, t, resp)
    ensures resp.Some?
  {
  }

  /**
   End to end. In every run, across reconnects, with any interleaving of the two
   event loops, any errors, timeouts and re-entrant callbacks, and services that
   may answer differently each time: a callback that sees an unfailed controller
   has in its response what the registered method it called returned, without
   failing, for its own request.
   */
  lemma EndToEnd(cd: Codec, reg: map<bytes, set<bytes>>, es: seq<SysEvent>, s: Sys, j: nat)
    requires RoundTrips(cd) && SysRuns(cd, reg, START, es, s)
    requires j < |s.client.log| && s.client.log[j].code == EC_SUCCESS
    ensures WellFormed(s.client) && TasksFit(cd, s.client)
    ensures DOT !in s.client.tasks[s.client.log[j].k].service ==> OwnAnswer(cd, reg, s, j)
  {
    StartInv(cd, reg);
    SysRunKeeps(cd, reg, START, es, s);
    assert Answered(s.client, s.client.log[j]);
    if DOT !in s.client.tasks[s.client.log[j].k].service {
      SuccessIsOwn(cd, reg, s, j);
    }
  }
}
