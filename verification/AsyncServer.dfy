/**
 `RpcServerConnection` of carrot_async_server.cpp over its one reused buffer,
 proved step by step against `ServerModel`.
 */
module AsyncServer {
  import opened Wire
  import opened RpcMessages
  import opened RpcCodec
  import opened Frames
  import opened ClientModel
  import opened Dispatch
  import opened Buffers
  import opened ServerModel

  class RpcServerConnection {
    const buf: PacketBuffer
    var n_: nat
    var socketOpen: bool
    ghost var header: Header
    ghost var pending: multiset<Op>
    ghost var arrived: seq<uint64>
    ghost var replied: seq<uint64>
    ghost var overrun: bool

    ghost function State(): Srv
      reads this, buf
    {
      Srv(buf.size, buf.p != null, header, n_, socketOpen, pending, arrived, replied, overrun)
    }

    /** The buffer's bytes, for as long as there is one. */
    ghost function Bytes(): bytes
      reads this, buf, buf.p
    {
      if buf.p == null then [] else buf.p[..]
    }

    ghost predicate Valid()
      reads this, buf, buf.p
    {
      buf.Valid() && SrvInv(State()) && InPlace()
    }

    /** The header of a request being read, and the reply being written, lie in the buffer. */
    ghost predicate InPlace()
      reads this, buf, buf.p
    {
      && (ReadPayloadOp in pending ==> |Bytes()| >= HEADER_SIZE && FromMemory(Bytes()[..HEADER_SIZE]) == header)
      && (forall d | WriteOp(d) in pending :: |Bytes()| >= |d| && Bytes()[..|d|] == d)
    }

    constructor (granted: bool)
      ensures Valid() && fresh(buf) && (buf.p != null ==> fresh(buf.p))
      ensures State() == ServerModel.Serve(ACCEPTED, granted)
    {
      buf := new PacketBuffer();
      n_, socketOpen, header := 0, true, Header(0, 0, 0);
      pending, arrived, replied, overrun := multiset{}, [], [], false;
      new;
      ServeKeeps(State(), granted);
      Serve(granted);
    }

    method Destroy()
      modifies this`socketOpen
      ensures State() == Shut(old(State()))
    {
      socketOpen := false;
    }

    ghost method Begun(op: Op)
      modifies this`pending
      ensures State() == Begin(old(State()), op)
    {
      pending := pending + multiset{op};
    }

    ghost method Ended(op: Op)
      modifies this`pending
      ensures State() == End(old(State()), op)
    {
      pending := pending - multiset{op};
    }

    method Serve(granted: bool)
      requires buf.Valid() && pending == multiset{}
      modifies this`pending, buf
      ensures buf.Valid() && State() == ServerModel.Serve(old(State()), granted)
      ensures pending <= multiset{ReadHeaderOp}
      ensures buf.p == old(buf.p) || buf.p == null || fresh(buf.p)
    {
      var r := buf.Expand(HEADER_SIZE, granted);
      if r.Ready? {
        Begun(ReadHeaderOp);
      }
    }

    /** The header lands in the buffer and is converted there. */
    method TakeHeader(raw: bytes)
      requires buf.p != null && buf.p.Length >= HEADER_SIZE && |raw| == HEADER_SIZE
      modifies this`header, this`n_, buf.p
      ensures State() == Receive(old(State()), ReadHeader(raw))
      ensures FromMemory(Bytes()[..HEADER_SIZE]) == header
    {
      var h := LandHeader(buf.p, raw);
      header, n_ := h, (HEADER_SIZE + h.rpcLen + h.reqLen + h.respLen) % TWO32;
    }

    /** Room for `n_` bytes; what was in the buffer stays at its front. */
    method Room(granted: bool) returns (ok: bool)
      requires buf.Valid() && n_ <= TWO31
      modifies buf
      ensures buf.Valid() && ok == (buf.p != null)
      ensures State() == ExpandTo(old(State()), n_, granted)
      ensures ok && old(buf.p) != null ==> old(Bytes()) <= Bytes()
      ensures buf.p == old(buf.p) || buf.p == null || fresh(buf.p)
    {
      var r := buf.Expand(n_, granted);
      ok := r.Ready?;
    }

    /**
     `raw` is what the read put at the front of the buffer. The handler does not
     return if it announces more than 2^31 bytes.
     */
    method HandleReadHeader(ok: bool, raw: bytes, granted: bool) returns (returned: bool)
      requires Valid() && ReadHeaderOp in pending && !overrun && |raw| == HEADER_SIZE
      modifies this, buf, buf.p
      ensures returned <==> (ok ==> PacketLength(ReadHeader(raw)) <= TWO31)
      ensures returned ==> Valid() && State() == SrvStep(old(State()), HeaderIn(ok, ReadHeader(raw), granted))
      ensures buf.p == old(buf.p) || buf.p == null || fresh(buf.p)
    {
      if ok && PacketLength(ReadHeader(raw)) > TWO31 {
        return false;
      }
      SrvStepKeeps(State(), HeaderIn(ok, ReadHeader(raw), granted));
      OnlyOp(State(), ReadHeaderOp);
      Ended(ReadHeaderOp);
      HeaderRead(ok, raw, granted);
      return true;
    }

    method HeaderRead(ok: bool, raw: bytes, granted: bool)
      requires buf.Valid() && buf.p != null && buf.p.Length >= HEADER_SIZE && pending == multiset{}
      requires |raw| == HEADER_SIZE && (ok ==> PacketLength(ReadHeader(raw)) <= TWO31)
      modifies this, buf, buf.p
      ensures buf.Valid() && InPlace() && State() == OnHeader(old(State()), ok, ReadHeader(raw), granted)
      ensures buf.p == old(buf.p) || buf.p == null || fresh(buf.p)
    {
      if !ok {
        Destroy();
        return;
      }
      TakeHeader(raw);
      ghost var front := Bytes();
      var got := Room(granted);
      if !got {
        return;
      }
      assert Bytes()[..HEADER_SIZE] == front[..HEADER_SIZE];
      if n_ < HEADER_SIZE {
        overrun := true;
      } else {
        Begun(ReadPayloadOp);
      }
    }

    /** `payload` is what the read put behind the header. */
    method HandleReadPayload(ok: bool, env: Env, payload: bytes, wild: Wild, luck: ReplyLuck)
      requires Valid() && SrvEnabled(State(), PayloadIn(ok, env, payload, wild, luck))
      modifies this, buf, buf.p
      ensures Valid() && State() == SrvStep(old(State()), PayloadIn(ok, env, payload, wild, luck))
      ensures buf.p == old(buf.p) || buf.p == null || fresh(buf.p)
    {
      PayloadStep(State(), ok, env, payload, wild, luck);
      Ended(ReadPayloadOp);
      PayloadRead(ok, env, payload, wild, luck);
    }

    method PayloadRead(ok: bool, env: Env, payload: bytes, wild: Wild, luck: ReplyLuck)
      requires buf.Valid() && pending == multiset{} && n_ == PacketLength(header) <= TWO31
      requires buf.p != null && buf.p.Length >= HEADER_SIZE + |payload| == n_
      requires FromMemory(Bytes()[..HEADER_SIZE]) == header
      requires Sane(wild) && ReplyFits(env, VerdictOn(header, env, payload, wild))
      modifies this, buf, buf.p
      ensures buf.Valid() && InPlace() && State() == OnPayload(old(State()), ok, env, payload, wild, luck)
      ensures buf.p == old(buf.p) || buf.p == null || fresh(buf.p)
    {
      if !ok {
        Destroy();
        return;
      }
      var rpcReq, request := ParseBuffer(env.codec, payload, wild);
      if rpcReq.None? {
        Destroy();
        return;
      }
      Understood(rpcReq.value.id.value);
      var v := Answer(env, rpcReq.value, request);
      if v.Dropped? {
        Destroy();
        return;
      }
      VerdictOnId(header, env, payload, wild);
      RespondToClient(env.codec, v.meta, v.param, luck);
    }

    /** The payload lands in the buffer; the metadata and the parameter are parsed where the header says they are. */
    method ParseBuffer(codec: Codec, payload: bytes, wild: Wild) returns (rpc: Option<Request>, request: Option<Msg>)
      requires buf.p != null && buf.p.Length >= HEADER_SIZE + |payload| && Sane(wild)
      requires FromMemory(Bytes()[..HEADER_SIZE]) == header && PacketLength(header) == HEADER_SIZE + |payload|
      modifies buf.p
      ensures rpc == SeenRequest(header, payload, wild)
      ensures request == if Exact(header, payload) then codec.decode(Cut(header, payload).req) else wild.request
    {
      CopyInto(buf.p, HEADER_SIZE, payload);
      var h := FromMemory(buf.p[..HEADER_SIZE]);
      if Total(h) != HEADER_SIZE + |payload| {
        return wild.rpc, wild.request;
      }
      var data := buf.p[HEADER_SIZE..HEADER_SIZE + h.rpcLen + h.reqLen + h.respLen];
      assert data == payload;
      var f := Cut(h, data);
      return ParseRequest(f.meta), codec.decode(f.req);
    }

    ghost method Understood(id: uint64)
      modifies this`arrived
      ensures State() == Understand(old(State()), id)
    {
      arrived := arrived + [id];
    }

    /** From the method identity to the reply, with the early returns of the handler. */
    method Answer(env: Env, rpcReq: Request, request: Option<Msg>) returns (v: Verdict)
      requires RequestInitialized(rpcReq)
      ensures v == AsyncDecide(env, Some(rpcReq), request)
    {
      var resp := EMPTY_RESPONSE;
      var identity := rpcReq.identity.value;
      var pos := FirstDot(identity);
      if pos.None? {
        resp := resp.(id := rpcReq.id, status := Some(NOT_FOUND), message := Some(Text(INVALID_IDENTITY)));
        return Respond(resp, None);
      }
      var service, name := identity[..pos.value], identity[pos.value + 1..];
      if service !in env.registry {
        resp := resp.(id := rpcReq.id, status := Some(NOT_FOUND), message := Some(Text(NO_SERVICE)));
        return Respond(resp, None);
      }
      if name !in env.registry[service] {
        resp := resp.(id := rpcReq.id, status := Some(NOT_FOUND), message := Some(Text(NO_METHOD)));
        return Respond(resp, None);
      }
      if request.None? {
        return Dropped;
      }
      var ran := env.run(service, name, request.value);
      var failed, text := false, [];
      match ran {
        case Returned(_, itFailed, itsText) => failed, text := itFailed, itsText;
        case Threw(_, what) => failed, text := true, Text("Server Internal Error ") + what;
      }
      if failed {
        resp := resp.(status := Some(FAILED), message := Some(text));
      } else {
        resp := resp.(status := Some(SUCCESS));
      }
      resp := resp.(id := rpcReq.id);
      return Respond(resp, Some(ran.resp));
    }

    /** The reply overwrites the request in the buffer, then the write starts. */
    method RespondToClient(codec: Codec, meta: Response, param: Option<Msg>, luck: ReplyLuck)
      requires buf.Valid() && n_ <= TWO31 && pending == multiset{} && meta.id.Some?
      requires FrameFits(ReplyFrame(codec, meta, param))
      modifies this, buf, buf.p
      ensures buf.Valid() && State() == ServerModel.RespondToClient(old(State()), codec, meta, param, luck)
      ensures InPlace()
      ensures buf.p == old(buf.p) || buf.p == null || fresh(buf.p)
    {
      var frame := ReplyFrame(codec, meta, param);
      var data := FrameBytes(frame);
      var got := Room(luck.granted);
      if !got {
        return;
      }
      if !luck.metaPrints {
        Destroy();
        return;
      }
      if param.Some? && !luck.paramPrints {
        Destroy();
        return;
      }
      if |data| > buf.p.Length {
        overrun := true;
        return;
      }
      Send(data, meta.id.value);
    }

    method Send(data: bytes, id: uint64)
      requires buf.p != null && |data| <= buf.p.Length
      modifies this`pending, this`replied, buf.p
      ensures State() == ServerModel.Send(old(State()), data, id)
      ensures |Bytes()| >= |data| && Bytes()[..|data|] == data
    {
      CopyInto(buf.p, 0, data);
      assert buf.p[..|data|] == buf.p[0..|data|] == data;
      pending := pending + multiset{WriteOp(data)};
      replied := replied + [id];
    }

    method HandleWriteResponse(ghost data: bytes, ok: bool, granted: bool)
      requires Valid() && WriteOp(data) in pending && !overrun
      modifies this, buf, buf.p
      ensures Valid() && State() == SrvStep(old(State()), ReplyOut(data, ok, granted))
      ensures buf.p == old(buf.p) || buf.p == null || fresh(buf.p)
    {
      SrvStepKeeps(State(), ReplyOut(data, ok, granted));
      OnlyOp(State(), WriteOp(data));
      Ended(WriteOp(data));
      ReplyWritten(ok, granted);
    }

    method ReplyWritten(ok: bool, granted: bool)
      requires buf.Valid() && pending == multiset{}
      modifies this, buf, buf.p
      ensures buf.Valid() && InPlace() && State() == OnWritten(old(State()), ok, granted)
      ensures buf.p == old(buf.p) || buf.p == null || fresh(buf.p)
    {
      if ok {
        Serve(granted);
      } else {
        Destroy();
      }
    }
  }
}
