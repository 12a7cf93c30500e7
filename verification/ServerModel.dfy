/**
 One connection of the asynchronous server, carrot_async_server.cpp, as a state
 machine: read a header, read a payload, answer, and again.
 */
module ServerModel {
  import opened Wire
  import opened RpcMessages
  import opened RpcCodec
  import opened Frames
  import opened ClientModel
  import opened Dispatch
  import opened Buffers

  /** An outstanding operation; a write carries the bytes it was given. */
  datatype Op = ReadHeaderOp | ReadPayloadOp | WriteOp(data: bytes)

  /**
   `size` and `held` describe the one buffer `p_`. `overrun` records that the
   buffer was to be filled past its end, by a reply longer than it or by a read
   without bound; nothing is said of what comes after. `arrived` and `replied`
   are the ids of the requests understood and of the replies sent.
   */
  datatype Srv = Srv(size: nat, held: bool, header: Header, n: nat, open: bool, pending: multiset<Op>,
                     arrived: seq<uint64>, replied: seq<uint64>, overrun: bool)

  const ACCEPTED := Srv(0, false, Header(0, 0, 0), 0, true, multiset{}, [], [], false)

  /** `expand_packet` on the connection's buffer. */
  function ExpandTo(s: Srv, n: nat, granted: bool): Srv {
    if s.size < n || !s.held then s.(size := Grown(s.size, n), held := granted) else s
  }

  function Begin(s: Srv, op: Op): Srv {
    s.(pending := s.pending + multiset{op})
  }

  function End(s: Srv, op: Op): Srv {
    s.(pending := s.pending - multiset{op})
  }

  function Shut(s: Srv): Srv {
    s.(open := false)
  }

  /** `serve`; without memory it throws, and nothing is pending any more. */
  function Serve(s: Srv, granted: bool): Srv {
    var s1 := ExpandTo(s, HEADER_SIZE, granted);
    if s1.held then Begin(s1, ReadHeaderOp) else s1
  }

  function Receive(s: Srv, h: Header): Srv {
    s.(header := h, n := PacketLength(h))
  }

  /** `n_` may have wrapped; below 12 the length of the payload read, `n_ - 12`, wraps too, to almost 2^64. */
  function OnHeader(s: Srv, ok: bool, h: Header, granted: bool): Srv {
    if !ok then Shut(s)
    else
      var s1 := ExpandTo(Receive(s, h), PacketLength(h), granted);
      if !s1.held then s1
      else if s1.n < HEADER_SIZE then s1.(overrun := true)
      else Begin(s1, ReadPayloadOp)
  }

  /** The frame a reply is sent as. */
  function ReplyFrame(codec: Codec, meta: Response, param: Option<Msg>): Frame {
    Frame(PrintResponse(meta), [], if param.Some? then codec.encode(param.value) else [])
  }

  function Understand(s: Srv, id: uint64): Srv {
    s.(arrived := s.arrived + [id])
  }

  /** What of the two serializations and the one allocation goes well. */
  datatype ReplyLuck = ReplyLuck(granted: bool, metaPrints: bool, paramPrints: bool)

  function Send(s: Srv, data: bytes, id: uint64): Srv {
    Begin(s, WriteOp(data)).(replied := s.replied + [id])
  }

  /** `respond_to_client`: the buffer is expanded to the size of the request, `n_`, not of the reply. */
  function RespondToClient(s: Srv, codec: Codec, meta: Response, param: Option<Msg>, luck: ReplyLuck): Srv
    requires FrameFits(ReplyFrame(codec, meta, param)) && meta.id.Some?
  {
    var s1 := ExpandTo(s, s.n, luck.granted);
    var data := FrameBytes(ReplyFrame(codec, meta, param));
    if !s1.held then s1
    else if !luck.metaPrints then Shut(s1)
    else if param.Some? && !luck.paramPrints then Shut(s1)
    else if |data| > s1.size then s1.(overrun := true)
    else Send(s1, data, meta.id.value)
  }

  /**
   What the two parsers make of a request whose lengths wrapped: they look at
   bytes that were not received, so it can be anything.
   */
  datatype Wild = Wild(rpc: Option<Request>, request: Option<Msg>)

  /** The payload has the length that its header's fields add up to. */
  predicate Exact(h: Header, payload: bytes) {
    Total(h) == HEADER_SIZE + |payload|
  }

  predicate Sane(wild: Wild) {
    wild.rpc.Some? ==> RequestInitialized(wild.rpc.value)
  }

  /** The request's metadata as the parser sees it. */
  function SeenRequest(h: Header, payload: bytes, wild: Wild): (rpc: Option<Request>)
    requires Sane(wild)
    ensures rpc.Some? ==> RequestInitialized(rpc.value)
  {
    if Exact(h, payload) then ParseRequest(Cut(h, payload).meta) else wild.rpc
  }

  function VerdictOn(h: Header, env: Env, payload: bytes, wild: Wild): Verdict
    requires Sane(wild)
  {
    if Exact(h, payload) then AsyncVerdict(env, Cut(h, payload).meta, Cut(h, payload).req)
    else AsyncDecide(env, wild.rpc, wild.request)
  }

  /** The reply is small enough for its lengths, which are 32 bits wide. */
  predicate ReplyFits(env: Env, v: Verdict) {
    v.Respond? ==> FrameFits(ReplyFrame(env.codec, v.meta, v.param))
  }

  function OnPayload(s: Srv, ok: bool, env: Env, payload: bytes, wild: Wild, luck: ReplyLuck): Srv
    requires Sane(wild) && ReplyFits(env, VerdictOn(s.header, env, payload, wild))
  {
    if !ok then Shut(s)
    else
      var rpc := SeenRequest(s.header, payload, wild);
      if rpc.None? then Shut(s)
      else
        var s1 := Understand(s, rpc.value.id.value);
        var v := VerdictOn(s.header, env, payload, wild);
        if v.Respond? then RespondToClient(s1, env.codec, v.meta, v.param, luck) else Shut(s1)
  }

  function OnWritten(s: Srv, ok: bool, granted: bool): Srv {
    if ok then Serve(s, granted) else Shut(s)
  }

  datatype SrvEvent =
    | HeaderIn(ok: bool, header: Header, granted: bool)
    | PayloadIn(ok: bool, env: Env, payload: bytes, wild: Wild, luck: ReplyLuck)
    | ReplyOut(data: bytes, ok: bool, granted: bool)

  function OpOf(e: SrvEvent): Op {
    match e
    case HeaderIn(_, _, _) => ReadHeaderOp
    case PayloadIn(_, _, _, _, _) => ReadPayloadOp
    case ReplyOut(data, _, _) => WriteOp(data)
  }

  /** For more than 2^31 bytes `expand_packet` does not return (`DoublingEndsIff`), and there is no step. */
  predicate SrvEnabled(s: Srv, e: SrvEvent) {
    && OpOf(e) in s.pending && !s.overrun
    && (e.HeaderIn? && e.ok ==> PacketLength(e.header) <= TWO31)
    && (e.PayloadIn? ==>
          && s.n == HEADER_SIZE + |e.payload| && Sane(e.wild)
          && ReplyFits(e.env, VerdictOn(s.header, e.env, e.payload, e.wild)))
  }

  function SrvStep(s: Srv, e: SrvEvent): Srv
    requires SrvEnabled(s, e)
  {
    var s1 := End(s, OpOf(e));
    match e
    case HeaderIn(ok, h, granted) => OnHeader(s1, ok, h, granted)
    case PayloadIn(ok, env, payload, wild, luck) => OnPayload(s1, ok, env, payload, wild, luck)
    case ReplyOut(_, ok, granted) => OnWritten(s1, ok, granted)
  }

  predicate SrvRuns(s: Srv, es: seq<SrvEvent>, s': Srv)
    decreases |es|
  {
    if es == [] then s == s' else SrvEnabled(s, es[0]) && SrvRuns(SrvStep(s, es[0]), es[1..], s')
  }

  /* The cycle. */

  /**
   At most one operation; replies follow the requests, and lag by at most the one
   that ended the cycle; the socket is open while there is more to come.
   */
  ghost predicate SrvInv(s: Srv) {
    && |s.pending| <= 1
    && (s.pending != multiset{} ==> s.held && s.size >= HEADER_SIZE && !s.overrun)
    && (ReadPayloadOp in s.pending ==> s.size >= s.n && HEADER_SIZE <= s.n == PacketLength(s.header) <= TWO31)
    && (forall d | WriteOp(d) in s.pending :: |d| <= s.size)
    && s.replied <= s.arrived && |s.arrived| <= |s.replied| + 1
    && (s.pending != multiset{} ==> s.replied == s.arrived)
    && (s.open <==> s.pending != multiset{} || !s.held || s.overrun)
  }

  lemma OnlyOp(s: Srv, op: Op)
    requires |s.pending| <= 1 && op in s.pending
    ensures End(s, op).pending == multiset{}
    ensures forall o :: Begin(End(s, op), o).pending == multiset{o} && |multiset{o}| == 1
  {
    assert s.pending == multiset{op} + (s.pending - multiset{op});
    assert |s.pending - multiset{op}| == 0;
  }

  lemma ServeKeeps(s: Srv, granted: bool)
    requires s.pending == multiset{} && !s.overrun && s.replied == s.arrived && s.open
    ensures SrvInv(Serve(s, granted))
  {
    assert multiset{} + multiset{ReadHeaderOp} == multiset{ReadHeaderOp};
  }

  lemma RespondKeeps(s: Srv, codec: Codec, meta: Response, param: Option<Msg>, luck: ReplyLuck)
    requires FrameFits(ReplyFrame(codec, meta, param)) && meta.id.Some?
    requires s.pending == multiset{} && !s.overrun && s.held && s.size >= HEADER_SIZE && s.size >= s.n && s.open
    requires |s.arrived| == |s.replied| + 1 && s.arrived == s.replied + [meta.id.value]
    ensures SrvInv(RespondToClient(s, codec, meta, param, luck))
  {
    var data := FrameBytes(ReplyFrame(codec, meta, param));
    assert multiset{} + multiset{WriteOp(data)} == multiset{WriteOp(data)};
  }

  lemma VerdictId(env: Env, meta: bytes, req: bytes)
    requires AsyncVerdict(env, meta, req).Respond?
    ensures ParseRequest(meta).Some? && AsyncVerdict(env, meta, req).meta.id == ParseRequest(meta).value.id
  {
  }

  lemma VerdictOnId(h: Header, env: Env, payload: bytes, wild: Wild)
    requires Sane(wild) && VerdictOn(h, env, payload, wild).Respond?
    ensures var rpc := SeenRequest(h, payload, wild);
      rpc.Some? && VerdictOn(h, env, payload, wild).meta.id == rpc.value.id
  {
  }

  lemma HeaderInKeeps(s: Srv, ok: bool, h: Header, granted: bool)
    requires s.pending == multiset{} && !s.overrun && s.held && s.size >= HEADER_SIZE && s.replied == s.arrived && s.open
    requires ok ==> PacketLength(h) <= TWO31
    ensures SrvInv(OnHeader(s, ok, h, granted))
  {
    assert multiset{} + multiset{ReadPayloadOp} == multiset{ReadPayloadOp};
  }

  lemma SrvStepKeeps(s: Srv, e: SrvEvent)
    requires SrvInv(s) && SrvEnabled(s, e)
    ensures SrvInv(SrvStep(s, e))
  {
    OnlyOp(s, OpOf(e));
    var s1 := End(s, OpOf(e));
    match e
    case HeaderIn(ok, h, granted) => HeaderInKeeps(s1, ok, h, granted);
    case PayloadIn(ok, env, payload, wild, luck) => PayloadInKeeps(s1, ok, env, payload, wild, luck);
    case ReplyOut(_, ok, granted) => ReplyOutKeeps(s1, ok, granted);
  }

  lemma ReplyOutKeeps(s: Srv, ok: bool, granted: bool)
    requires s.pending == multiset{} && !s.overrun && s.replied == s.arrived && s.held && s.open
    ensures SrvInv(OnWritten(s, ok, granted))
  {
    if ok {
      ServeKeeps(s, granted);
    }
  }

  lemma PayloadInKeeps(s: Srv, ok: bool, env: Env, payload: bytes, wild: Wild, luck: ReplyLuck)
    requires Sane(wild) && ReplyFits(env, VerdictOn(s.header, env, payload, wild))
    requires s.pending == multiset{} && !s.overrun && s.held && s.size >= HEADER_SIZE && s.size >= s.n
    requires s.replied == s.arrived && s.open
    ensures SrvInv(OnPayload(s, ok, env, payload, wild, luck))
  {
    var v := VerdictOn(s.header, env, payload, wild);
    if v.Respond? {
      VerdictOnId(s.header, env, payload, wild);
      var s1 := Understand(s, v.meta.id.value);
      RespondKeeps(s1, env.codec, v.meta, v.param, luck);
    }
  }

  /** What the payload handler finds when it starts. */
  lemma PayloadStep(s: Srv, ok: bool, env: Env, payload: bytes, wild: Wild, luck: ReplyLuck)
    requires SrvInv(s) && SrvEnabled(s, PayloadIn(ok, env, payload, wild, luck))
    ensures var s1 := End(s, ReadPayloadOp);
      && s1.pending == multiset{} && s.held && s.size >= s.n == HEADER_SIZE + |payload| && s.n <= TWO31
      && s1 == s.(pending := multiset{})
      && SrvStep(s, PayloadIn(ok, env, payload, wild, luck)) == OnPayload(s1, ok, env, payload, wild, luck)
      && SrvInv(OnPayload(s1, ok, env, payload, wild, luck))
  {
    SrvStepKeeps(s, PayloadIn(ok, env, payload, wild, luck));
    OnlyOp(s, ReadPayloadOp);
  }

  /** Either the reply is handed to the write, or nothing is pending and no reply is counted. */
  lemma RespondOutcome(s: Srv, codec: Codec, meta: Response, param: Option<Msg>, luck: ReplyLuck)
    requires FrameFits(ReplyFrame(codec, meta, param)) && meta.id.Some? && s.pending == multiset{}
    ensures var s' := RespondToClient(s, codec, meta, param, luck);
      || (s'.pending == multiset{} && s'.replied == s.replied)
      || (s'.pending == multiset{WriteOp(FrameBytes(ReplyFrame(codec, meta, param)))}
          && s'.replied == s.replied + [meta.id.value])
  {
    var data := FrameBytes(ReplyFrame(codec, meta, param));
    assert multiset{} + multiset{WriteOp(data)} == multiset{WriteOp(data)};
  }

  /** Whether a payload step answered, and with what. */
  lemma PayloadOutcome(s: Srv, env: Env, payload: bytes, wild: Wild, luck: ReplyLuck)
    requires s.pending == multiset{}
    requires Sane(wild) && ReplyFits(env, VerdictOn(s.header, env, payload, wild))
    ensures var s', v := OnPayload(s, true, env, payload, wild, luck), VerdictOn(s.header, env, payload, wild);
      || (s'.pending == multiset{} && s'.replied == s.replied)
      || (v.Respond? && s'.pending == multiset{WriteOp(FrameBytes(ReplyFrame(env.codec, v.meta, v.param)))}
          && |s'.replied| == |s.replied| + 1)
  {
    var v := VerdictOn(s.header, env, payload, wild);
    if v.Respond? {
      VerdictOnId(s.header, env, payload, wild);
      RespondOutcome(Understand(s, v.meta.id.value), env.codec, v.meta, v.param, luck);
    }
  }

  lemma {:induction false} SrvRunKeeps(s: Srv, es: seq<SrvEvent>, s': Srv)
    requires SrvInv(s) && SrvRuns(s, es, s')
    ensures SrvInv(s')
    decreases |es|
  {
    if es != [] {
      SrvStepKeeps(s, es[0]);
      SrvRunKeeps(SrvStep(s, es[0]), es[1..], s');
    }
  }

  /** A connection's cycle, seen from outside. */
  ghost predicate Cycled(s: Srv) {
    && |s.pending| <= 1
    && |s.arrived| - 1 <= |s.replied| <= |s.arrived| && s.replied == s.arrived[..|s.replied|]
    && (|s.replied| < |s.arrived| ==> s.pending == multiset{})
    && (s.pending == multiset{} && s.open ==> !s.held || s.overrun)
    && (s.pending != multiset{} ==> s.open)
  }

  lemma InvCycled(s: Srv)
    requires SrvInv(s)
    ensures Cycled(s)
  {
  }

  /**
   In every run of a connection at most one operation is outstanding, the replies
   sent are the first of the requests understood, in their order, at most one
   each, and only a connection that has stopped leaves one unanswered. A
   connection with nothing left to do is closed, unless memory ran out.
   */
  lemma ServerCycle(granted: bool, es: seq<SrvEvent>, s: Srv)
    requires SrvRuns(Serve(ACCEPTED, granted), es, s)
    ensures Cycled(s)
  {
    ServeKeeps(ACCEPTED, granted);
    SrvRunKeeps(Serve(ACCEPTED, granted), es, s);
    InvCycled(s);
  }

  /* How each step ends. */

  /** Closed, with nothing pending and nothing answered. */
  predicate Stopped(s: Srv, s': Srv) {
    !s'.open && s'.pending == multiset{} && s'.replied == s.replied
  }

  /** A failed operation closes the connection. */
  lemma FailureEnds(s: Srv, e: SrvEvent)
    requires SrvInv(s) && SrvEnabled(s, e) && !e.ok
    ensures Stopped(s, SrvStep(s, e)) && SrvStep(s, e).arrived == s.arrived
  {
    OnlyOp(s, OpOf(e));
  }

  /** A header is followed by the read of its payload: what the three lengths add up to, cut to 32 bits. */
  lemma HeaderEnds(s: Srv, e: SrvEvent)
    requires SrvInv(s) && SrvEnabled(s, e) && e.HeaderIn? && e.ok && e.granted && PacketLength(e.header) >= 12
    ensures var s', h := SrvStep(s, e), e.header;
      && s'.open && s'.pending == multiset{ReadPayloadOp} && s'.header == h && s'.arrived == s.arrived
      && s'.n == (12 + h.rpcLen + h.reqLen + h.respLen) % 0x1_0000_0000
  {
    OnlyOp(s, OpOf(e));
    PayloadFollows(End(s, ReadHeaderOp), e.header, e.ok, e.granted);
  }

  lemma PayloadFollows(s: Srv, h: Header, ok: bool, granted: bool)
    requires s.pending == multiset{} && 12 <= PacketLength(h) <= TWO31 && ok && granted
    ensures var s' := OnHeader(s, ok, h, granted);
      && s'.open == s.open && s'.pending == multiset{ReadPayloadOp} && s'.header == h && s'.arrived == s.arrived
      && s'.n == (12 + h.rpcLen + h.reqLen + h.respLen) % 0x1_0000_0000
  {
    assert multiset{} + multiset{ReadPayloadOp} == multiset{ReadPayloadOp};
  }

  /** A reply that was sent is followed by the read of the next header, and nothing else changes. */
  lemma ReplyEnds(s: Srv, e: SrvEvent)
    requires SrvInv(s) && SrvEnabled(s, e) && e.ReplyOut? && e.ok
    ensures SrvStep(s, e) == s.(pending := multiset{ReadHeaderOp})
  {
    OnlyOp(s, OpOf(e));
    HeaderFollows(End(s, OpOf(e)), e.ok, e.granted);
  }

  lemma HeaderFollows(s: Srv, ok: bool, granted: bool)
    requires s.pending == multiset{} && s.held && s.size >= HEADER_SIZE && ok
    ensures OnWritten(s, ok, granted) == s.(pending := multiset{ReadHeaderOp})
  {
    assert multiset{} + multiset{ReadHeaderOp} == multiset{ReadHeaderOp};
  }

  /** `s'` is `s` after the verdict `v`: closed, or answered under the id if the reply is printed and fits the buffer. */
  ghost predicate Concluded(s: Srv, codec: Codec, v: Verdict, luck: ReplyLuck, s': Srv)
    requires v.Respond? ==> v.meta.id.Some? && FrameFits(ReplyFrame(codec, v.meta, v.param))
  {
    if !v.Respond? then Stopped(s, s')
    else
      var data := FrameBytes(ReplyFrame(codec, v.meta, v.param));
      && (!luck.metaPrints || (v.param.Some? && !luck.paramPrints) ==> Stopped(s, s'))
      && (luck.metaPrints && luck.paramPrints && |data| <= s.size ==>
            s'.open && s'.pending == multiset{WriteOp(data)} && s'.replied == s.replied + [v.meta.id.value])
  }

  /** A payload that was read: an unreadable request closes the connection, any other is answered. */
  lemma RequestEnds(s: Srv, e: SrvEvent)
    requires SrvInv(s) && SrvEnabled(s, e) && e.PayloadIn? && e.ok && Exact(s.header, e.payload)
    ensures var f := Cut(s.header, e.payload);
      var v := AsyncVerdict(e.env, f.meta, f.req);
      && (v.Respond? <==> !Unreadable(e.env, f.meta, f.req))
      && (v.Respond? ==> v.meta.id.Some? && v.meta.id == ParseRequest(f.meta).value.id)
      && Concluded(s, e.env.codec, v, e.luck, SrvStep(s, e))
  {
    var f := Cut(s.header, e.payload);
    RequestJudged(e.env, f);
    PayloadStep(s, true, e.env, e.payload, e.wild, e.luck);
    PayloadEnds(End(s, ReadPayloadOp), e.env, e.payload, e.wild, e.luck);
  }

  lemma RequestJudged(env: Env, f: Frame)
    ensures var v := AsyncVerdict(env, f.meta, f.req);
      && (v.Respond? <==> !Unreadable(env, f.meta, f.req))
      && (v.Respond? ==> ParseRequest(f.meta).Some? && v.meta.id == ParseRequest(f.meta).value.id)
  {
    UnreadableDropped(env, f.meta, f.req);
    if !Unreadable(env, f.meta, f.req) {
      ReadableJudged(env, f.meta, f.req);
    }
  }

  lemma PayloadEnds(s: Srv, env: Env, payload: bytes, wild: Wild, luck: ReplyLuck)
    requires s.pending == multiset{} && s.held && s.size >= s.n && s.open
    requires Sane(wild) && ReplyFits(env, VerdictOn(s.header, env, payload, wild))
    ensures var v := VerdictOn(s.header, env, payload, wild);
      && (v.Respond? ==> v.meta.id.Some?)
      && Concluded(s, env.codec, v, luck, OnPayload(s, true, env, payload, wild, luck))
  {
    var v := VerdictOn(s.header, env, payload, wild);
    if v.Respond? {
      VerdictOnId(s.header, env, payload, wild);
      var data := FrameBytes(ReplyFrame(env.codec, v.meta, v.param));
      assert multiset{} + multiset{WriteOp(data)} == multiset{WriteOp(data)};
    }
  }

  /* The reply and the buffer. */

  function Max(a: nat, b: nat): nat {
    if a < b then b else a
  }

  /** The longest packet announced so far, if it was `top` before `e`. */
  function Announced(e: SrvEvent, top: nat): nat {
    if e.HeaderIn? && e.ok then Max(top, PacketLength(e.header)) else top
  }

  function Longest(es: seq<SrvEvent>, top: nat): nat {
    if es == [] then top else Longest(es[1..], Announced(es[0], top))
  }

  /** A buffer grown for `top` bytes and asked for `n` is as large as one grown for the larger of the two. */
  lemma GrownForBoth(s: Srv, top: nat, n: nat, granted: bool)
    requires s.size == Grown(0, top) && s.held
    ensures ExpandTo(s, n, granted).size == Grown(0, Max(top, n))
  {
    if top <= n {
      GrownTwice(top, n);
    }
  }

  lemma HeaderSize(s: Srv, h: Header, granted: bool, top: nat)
    requires s.size == Grown(0, top) && s.held
    ensures OnHeader(s, true, h, granted).size == Grown(0, Max(top, PacketLength(h)))
  {
    GrownForBoth(Receive(s, h), top, PacketLength(h), granted);
  }

  lemma PayloadSize(s: Srv, ok: bool, env: Env, payload: bytes, wild: Wild, luck: ReplyLuck)
    requires Sane(wild) && ReplyFits(env, VerdictOn(s.header, env, payload, wild))
    requires s.held && s.size >= s.n
    ensures OnPayload(s, ok, env, payload, wild, luck).size == s.size
  {
    if VerdictOn(s.header, env, payload, wild).Respond? {
      VerdictOnId(s.header, env, payload, wild);
    }
  }

  lemma WrittenSize(s: Srv, ok: bool, granted: bool)
    requires s.held && s.size >= HEADER_SIZE
    ensures OnWritten(s, ok, granted).size == s.size
  {
  }

  /** Of all steps only a header makes the buffer grow. */
  lemma StepSize(s: Srv, e: SrvEvent, top: nat)
    requires SrvInv(s) && SrvEnabled(s, e) && s.size == Grown(0, top)
    ensures SrvStep(s, e).size == Grown(0, Announced(e, top))
  {
    var s1 := End(s, OpOf(e));
    match e
    case HeaderIn(ok, h, granted) => if ok { HeaderSize(s1, h, granted, top); }
    case PayloadIn(ok, env, payload, wild, luck) => PayloadSize(s1, ok, env, payload, wild, luck);
    case ReplyOut(_, ok, granted) => WrittenSize(s1, ok, granted);
  }

  lemma {:induction false} SizeAlong(s: Srv, es: seq<SrvEvent>, s': Srv, top: nat)
    requires SrvInv(s) && SrvRuns(s, es, s') && s.size == Grown(0, top)
    ensures s'.size == Grown(0, Longest(es, top))
    decreases |es|
  {
    if es != [] {
      StepSize(s, es[0], top);
      SrvStepKeeps(s, es[0]);
      SizeAlong(SrvStep(s, es[0]), es[1..], s', Announced(es[0], top));
    }
  }

  /** In every run the buffer has the size that the longest packet so far asks for. */
  lemma SizeIsLongest(granted: bool, es: seq<SrvEvent>, s: Srv)
    requires SrvRuns(Serve(ACCEPTED, granted), es, s)
    ensures s.size == Grown(0, Longest(es, HEADER_SIZE))
  {
    ServeKeeps(ACCEPTED, granted);
    SizeAlong(Serve(ACCEPTED, granted), es, s, HEADER_SIZE);
  }

  /**
   In every run, the reply to the next request overruns the buffer exactly when it
   is longer than what the longest packet so far made of the buffer.
   */
  lemma ReplyOverrunsIff(granted: bool, es: seq<SrvEvent>, s: Srv, e: SrvEvent)
    requires SrvRuns(Serve(ACCEPTED, granted), es, s) && SrvEnabled(s, e)
    requires e.PayloadIn? && e.ok && e.luck.metaPrints && e.luck.paramPrints
    ensures var v := VerdictOn(s.header, e.env, e.payload, e.wild);
      SrvStep(s, e).overrun <==>
        v.Respond? && |FrameBytes(ReplyFrame(e.env.codec, v.meta, v.param))| > Grown(0, Longest(es, HEADER_SIZE))
  {
    ServeKeeps(ACCEPTED, granted);
    SrvRunKeeps(Serve(ACCEPTED, granted), es, s);
    SizeIsLongest(granted, es, s);
    PayloadStep(s, true, e.env, e.payload, e.wild, e.luck);
    PayloadOverruns(End(s, ReadPayloadOp), e.env, e.payload, e.wild, e.luck);
  }

  lemma PayloadOverruns(s: Srv, env: Env, payload: bytes, wild: Wild, luck: ReplyLuck)
    requires Sane(wild) && ReplyFits(env, VerdictOn(s.header, env, payload, wild))
    requires s.held && s.size >= s.n && !s.overrun && luck.metaPrints && luck.paramPrints
    ensures var v := VerdictOn(s.header, env, payload, wild);
      OnPayload(s, true, env, payload, wild, luck).overrun <==>
        v.Respond? && |FrameBytes(ReplyFrame(env.codec, v.meta, v.param))| > s.size
  {
    if VerdictOn(s.header, env, payload, wild).Respond? {
      VerdictOnId(s.header, env, payload, wild);
    }
  }

  /* The request and the buffer. */

  /**
   In every run the request lies within the bytes received for it if and only if
   its lengths and the header add up to less than 2^32; otherwise the parsers read on.
   */
  lemma OverReadIff(granted: bool, es: seq<SrvEvent>, s: Srv, e: SrvEvent)
    requires SrvRuns(Serve(ACCEPTED, granted), es, s) && SrvEnabled(s, e) && e.PayloadIn?
    ensures s.header.rpcLen + s.header.reqLen <= |e.payload| <==> Total(s.header) < TWO32
    ensures Exact(s.header, e.payload) <==> Total(s.header) < TWO32
  {
    ServeKeeps(ACCEPTED, granted);
    SrvRunKeeps(Serve(ACCEPTED, granted), es, s);
    ReceivedIff(s.header, e.payload);
  }

  lemma ReceivedIff(h: Header, payload: bytes)
    requires PacketLength(h) == HEADER_SIZE + |payload|
    ensures h.rpcLen + h.reqLen <= |payload| <==> Total(h) < TWO32
    ensures Exact(h, payload) <==> Total(h) < TWO32
  {
    WrappedIff(h);
  }

  /** Lengths that wrap to a packet of 24 bytes, 12 of them payload. */
  const WRAPPED := Header(0x7fff_ffff, 0x7fff_ffff, 14)

  /**
   After that header a connection just accepted has read 12 bytes of payload into
   32 of buffer, and then parses 2^31 - 1 bytes of metadata, whatever they are.
   */
  lemma OverReadMay(env: Env, payload: bytes, wild: Wild, luck: ReplyLuck) returns (s: Srv)
    requires |payload| == 12 && Sane(wild) && ReplyFits(env, AsyncDecide(env, wild.rpc, wild.request))
    ensures SrvRuns(Serve(ACCEPTED, true), [HeaderIn(true, WRAPPED, true)], s)
    ensures SrvEnabled(s, PayloadIn(true, env, payload, wild, luck)) && SeenRequest(s.header, payload, wild) == wild.rpc
    ensures s.header.rpcLen > s.size >= HEADER_SIZE + |payload|
  {
    var s0, e := Serve(ACCEPTED, true), HeaderIn(true, WRAPPED, true);
    assert Total(WRAPPED) == TWO32 + 24 && PacketLength(WRAPPED) == 24;
    GrownTo32();
    assert multiset{} + multiset{ReadHeaderOp} == multiset{ReadHeaderOp};
    OnlyOp(s0, ReadHeaderOp);
    s := SrvStep(s0, e);
    assert [e][1..] == [] && SrvRuns(s, [], s);
  }

  /* The smallest case: a 17-byte request for the identity "a" is refused with 48 bytes. */

  const SMALL_REQUEST := Request(Some(1), Some([97]), [])
  const ALL_WELL := ReplyLuck(true, true, true)

  /** The two events: the request's header arrives, then its payload. */
  function SmallRun(env: Env): seq<SrvEvent> {
    [HeaderIn(true, Header(5, 0, 0), true), PayloadIn(true, env, PrintRequest(SMALL_REQUEST), Wild(None, None), ALL_WELL)]
  }

  lemma SmallRequest(env: Env)
    ensures var meta := PrintRequest(SMALL_REQUEST);
      var v := AsyncVerdict(env, meta, []);
      && |meta| == 5 && Cut(Header(5, 0, 0), meta) == Frame(meta, [], [])
      && v.Respond? && FrameFits(ReplyFrame(env.codec, v.meta, v.param))
      && |FrameBytes(ReplyFrame(env.codec, v.meta, v.param))| == 48
  {
    var meta := PrintRequest(SMALL_REQUEST);
    RequestRoundTrip(SMALL_REQUEST);
    RequestSizeExact(SMALL_REQUEST);
    assert ParseRequest(meta) == Some(SMALL_REQUEST);
    assert DOT !in [97];
    var v := AsyncVerdict(env, meta, []);
    assert v == Refusal(Some(1), INVALID_IDENTITY);
    ResponseSizeExact(v.meta);
    assert meta[..5] == meta;
  }

  /** The state after the header of the small request. */
  const SMALL_READING := Srv(32, true, Header(5, 0, 0), 17, true, multiset{ReadPayloadOp}, [], [], false)

  lemma SmallHeader()
    ensures var s, e := Serve(ACCEPTED, true), HeaderIn(true, Header(5, 0, 0), true);
      SrvEnabled(s, e) && SrvStep(s, e) == SMALL_READING
  {
    GrownTo32();
    assert multiset{} + multiset{ReadHeaderOp} == multiset{ReadHeaderOp};
    OnlyOp(Serve(ACCEPTED, true), ReadHeaderOp);
  }

  lemma GrownTo32()
    ensures Grown(0, HEADER_SIZE) == 16 && Grown(16, 17) == Grown(16, 24) == 32
  {
    assert Grow(16, 17) == Grow(32, 17) == 32;
    assert Grow(16, 24) == Grow(32, 24) == 32;
    assert Grow(4, 12) == Grow(8, 12) == Grow(16, 12) == 16;
    assert Grow(1, 12) == Grow(2, 12) == Grow(4, 12);
  }

  /** A connection just accepted whose first request is that one ends in an overrun, whatever is registered. */
  lemma ReplyMayOverrun(env: Env) returns (s: Srv)
    ensures SrvRuns(Serve(ACCEPTED, true), SmallRun(env), s) && s.overrun
  {
    var es, s1 := SmallRun(env), SMALL_READING;
    SmallRequest(env);
    SmallHeader();
    var e := es[1];
    assert VerdictOn(s1.header, env, e.payload, e.wild) == AsyncVerdict(env, PrintRequest(SMALL_REQUEST), []);
    OnlyOp(s1, ReadPayloadOp);
    PayloadOverruns(End(s1, ReadPayloadOp), env, e.payload, e.wild, e.luck);
    s := SrvStep(s1, e);
    assert es[1..] == [e] && [e][1..] == [];
    assert SrvRuns(s1, [e], s);
  }
}
