/**
 `call_task` of carrot_async_channel.h, and the packet that `start_call` builds
 in it.
 */
module CallPackets {
  import opened Wire
  import opened RpcMessages
  import opened RpcCodec
  import opened Frames
  import opened Buffers
  import opened ClientModel
  import opened Dispatch

  /* The frame of a call. */

  function RequestOf(t: Task): Request
    requires t.id < TWO64
  {
    Request(Some(t.id), Some(Join(t.service, t.name)), [])
  }

  /** What `start_call` puts in the packet. */
  function CallFrame(cd: Codec, t: Task): Frame
    requires t.id < TWO64
  {
    Frame(PrintRequest(RequestOf(t)), cd.encode(t.request), [])
  }

  /** The id has 64 bits and the lengths have 32. */
  predicate TaskFits(cd: Codec, t: Task) {
    t.id < TWO64 && |t.service| + 1 + |t.name| < TWO32 && FrameFits(CallFrame(cd, t))
  }

  lemma RequestParses(cd: Codec, t: Task)
    requires TaskFits(cd, t)
    ensures ParseRequest(CallFrame(cd, t).meta) == Some(RequestOf(t))
  {
    RequestRoundTrip(RequestOf(t));
  }

  /** `expand_packet` returns for it. */
  predicate PacketFits(cd: Codec, t: Task) {
    TaskFits(cd, t) && Total(HeaderOf(CallFrame(cd, t))) <= TWO31
  }

  class CallTask {
    const id: nat
    const service: bytes
    const name: bytes
    const request: Msg
    const timeout: uint32
    /** What the caller's controller and response hold. */
    var code: ErrorCode
    var response: Option<Msg>
    var called: bool
    /** Whether a wait of the timer is outstanding that was not cancelled. */
    var armed: bool
    /** `p` and `size`, unset until `start_call` runs, which it does once for a task. */
    var packet: PacketBuffer?

    ghost function Value(): Task
      reads this
    {
      Task(id, service, name, request, timeout, called, code, response, armed)
    }

    constructor (id: nat, c: Call)
      ensures Value() == NewTask(id, c) && packet == null
    {
      this.id, service, name, request, timeout := id, c.service, c.name, c.request, c.timeout;
      code, response, called, armed := EC_SUCCESS, None, false, false;
      packet := null;
    }

    /** The task as it is when it is issued. */
    function AsIssued(): Task {
      Task(id, service, name, request, timeout, false, EC_SUCCESS, None, false)
    }

    /** The task's packet can be built. */
    predicate Light(cd: Codec) {
      PacketFits(cd, AsIssued())
    }

    /**
     `start_call` up to the write. `send` says which of the allocation and the two
     serializations fails. It does not return if `expand_packet` does not.
     */
    method BuildPacket(cd: Codec, send: SendOutcome) returns (returned: bool)
      modifies this`packet
      ensures returned <==> Light(cd)
      ensures returned ==> packet != null
      ensures returned && send == Sends ==> packet != null && Holds(packet, CallFrame(cd, AsIssued()))
    {
      if !Light(cd) {
        return false;
      }
      packet := new PacketBuffer();
      FillPacket(packet, PrintRequest(RequestOf(AsIssued())), cd.encode(request), send);
      return true;
    }
  }

  /** The frame lies at the front of the packet. */
  ghost predicate Holds(packet: PacketBuffer, f: Frame)
    requires FrameFits(f)
    reads packet, packet.p
  {
    packet.p != null && FrameBytes(f) <= packet.p[..]
  }

  method FillPacket(packet: PacketBuffer, meta: bytes, param: bytes, send: SendOutcome)
    requires packet.Valid() && packet.p == null && FrameFits(Frame(meta, param, [])) && HEADER_SIZE + |meta| + |param| <= TWO31
    modifies packet
    ensures packet.Valid()
    ensures send == Sends ==> packet.p != null && FrameBytes(Frame(meta, param, [])) <= packet.p[..]
  {
    var h := Header(|meta|, |param|, 0);
    var r := packet.Expand(HEADER_SIZE + h.rpcLen + h.reqLen, send != NoMemory);
    if !r.Ready? || send == MetaUnprintable {
      return;
    }
    CopyInto(packet.p, HEADER_SIZE, meta);
    if send == ParamUnprintable {
      return;
    }
    AddParam(packet.p, |meta|, meta, param);
    SetHeader(packet.p, h);
    PacketFilled(packet.p[..], h, meta, param);
  }

  /** The parameter is serialized behind the metadata. */
  method AddParam(p: array<byte>, m: nat, ghost meta: bytes, param: bytes)
    requires m == |meta| && p.Length >= HEADER_SIZE + m + |param| && p[HEADER_SIZE..HEADER_SIZE + |meta|] == meta
    modifies p
    ensures p[HEADER_SIZE..][..|meta| + |param|] == meta + param
  {
    ghost var was := p[..];
    var at := HEADER_SIZE + m;
    CopyInto(p, at, param);
    assert p[HEADER_SIZE..at] == was[HEADER_SIZE..at];
    Joined(p[..], HEADER_SIZE, meta, param);
  }

  lemma Joined(p: bytes, at: nat, a: bytes, b: bytes)
    requires |p| >= at + |a| + |b| && p[at..at + |a|] == a && p[at + |a|..at + |a| + |b|] == b
    ensures p[at..][..|a| + |b|] == a + b
  {
  }

  lemma PacketFilled(p: bytes, h: Header, meta: bytes, param: bytes)
    requires |p| >= HEADER_SIZE + |meta| + |param| && FrameFits(Frame(meta, param, []))
    requires h == Header(|meta|, |param|, 0)
    requires p[..HEADER_SIZE] == HeaderBytes(h) && p[HEADER_SIZE..][..|meta| + |param|] == meta + param
    ensures FrameBytes(Frame(meta, param, [])) <= p
  {
    var n := HEADER_SIZE + |meta| + |param|;
    assert p[HEADER_SIZE..n] == p[HEADER_SIZE..][..|meta| + |param|];
    assert p[..n] == HeaderBytes(h) + (meta + param + []);
  }
}
