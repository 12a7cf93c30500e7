/**
 The connection pool and the request handler of carrot_simple_server.cpp.
 Pointers are objects; `delete` is recorded in `freed`.
 */
module SimpleServer {
  import opened Wire
  import opened RpcMessages
  import opened RpcCodec
  import opened Frames
  import opened Buffers
  import opened Transfers
  import opened Dispatch
  import opened ServerModel

  /** The services, and what the allocator, the printer and, if lengths wrapped, the parsers do in one `handle_client`. */
  datatype ClientIo = ClientIo(env: Env, wild: Wild, grantedIn: bool, grantedOut: bool, metaPrints: bool, paramPrints: bool)

  /** What dispatch decides; from whatever the parsers see, if the lengths wrapped. */
  function Decision(h: Header, payload: bytes, io: ClientIo): Verdict
    requires Sane(io.wild)
  {
    if Exact(h, payload) then SimpleVerdict(io.env, Cut(h, payload).meta, Cut(h, payload).req)
    else SimpleDecide(io.env, io.wild.rpc, io.wild.request)
  }

  /* What a client sent: a header `h`, and `b` behind it. */

  /** The rest of a packet, of the length that the code computes. */
  predicate BodyArrived(h: Header, b: bytes) {
    HEADER_SIZE <= PacketLength(h) <= HEADER_SIZE + |b|
  }

  function BodyDecided(h: Header, b: bytes, io: ClientIo): Verdict
    requires BodyArrived(h, b) && Sane(io.wild)
  {
    Decision(h, b[..PacketLength(h) - HEADER_SIZE], io)
  }

  predicate Arrived(s: bytes) {
    |s| >= HEADER_SIZE && BodyArrived(HeaderAt(s), s[HEADER_SIZE..])
  }

  function Decided(s: bytes, io: ClientIo): Verdict
    requires Arrived(s) && Sane(io.wild)
  {
    BodyDecided(HeaderAt(s), s[HEADER_SIZE..], io)
  }

  /** The bytes of a reply; one whose length does not fit 32 bits has none. */
  function ReplyBytes(v: Verdict, io: ClientIo): bytes {
    if v.Respond? && ReplyFits(io.env, v) then FrameBytes(ReplyFrame(io.env.codec, v.meta, v.param)) else []
  }

  /**
   How `handle_client` ends: with an answer; with an exception of the method; with
   `destroy_rpc_connection`; not at all; or outside the buffer, which is not followed.
   */
  datatype Ended = Answered | Escaped | Destroyed | Hangs | Astray

  function EndWith(v: Verdict, io: ClientIo): Ended {
    match v
    case Respond(_, _) => if ReplyFits(io.env, v) then Answered else Astray
    case Raised => Escaped
    case Dropped => Destroyed
  }

  /** How it ends if nothing fails; at the end of the input that depends on `errno`. */
  function BodyEnd(h: Header, b: bytes, eintr: bool, io: ClientIo): Ended
    requires Sane(io.wild)
  {
    if BodyArrived(h, b) then EndWith(BodyDecided(h, b, io), io)
    else if PacketLength(h) < HEADER_SIZE then Astray
    else if eintr then Hangs
    else Destroyed
  }

  function EndOn(s: bytes, eintr: bool, io: ClientIo): Ended
    requires Sane(io.wild)
  {
    if |s| >= HEADER_SIZE then BodyEnd(HeaderAt(s), s[HEADER_SIZE..], eintr, io)
    else if eintr then Hangs
    else Destroyed
  }

  /** What was sent, and what is left to read, fit the end. */
  ghost predicate BodyOutcome(h: Header, b: bytes, io: ClientIo, r: Ended, part: bytes, rest: bytes, eintr: bool)
    requires Sane(io.wild)
  {
    && (if BodyArrived(h, b) then part <= ReplyBytes(BodyDecided(h, b, io), io) else part == [])
    && (r.Answered? || r.Escaped? ==>
          BodyArrived(h, b) && r == EndWith(BodyDecided(h, b, io), io) && rest == b[PacketLength(h) - HEADER_SIZE..])
    && (r.Answered? ==> part == ReplyBytes(BodyDecided(h, b, io), io))
    && (r.Hangs? ==> eintr && !BodyArrived(h, b))
    && (r.Astray? ==> PacketLength(h) < HEADER_SIZE || (BodyArrived(h, b) && EndWith(BodyDecided(h, b, io), io).Astray?))
  }

  ghost predicate RequestOutcome(s: bytes, io: ClientIo, r: Ended, part: bytes, rest: bytes, eintr: bool)
    requires Sane(io.wild)
  {
    if |s| >= HEADER_SIZE then BodyOutcome(HeaderAt(s), s[HEADER_SIZE..], io, r, part, rest, eintr)
    else part == [] && (r.Destroyed? || (r.Hangs? && eintr))
  }

  class RpcConnection {
    var alive: bool
    var p: array?<byte>
    var size: nat

    predicate Fits()
      reads this
    {
      p != null ==> p.Length == size
    }

    constructor ()
      ensures !alive && p == null && size == 0
    {
      alive, p, size := false, null, 0;
    }

    /** `expand_connection_packet`: grown to exactly `n`; a failed `realloc` leaves `size` as it was. */
    method ExpandPacket(n: nat, granted: bool) returns (ok: bool)
      requires Fits()
      modifies this`p, this`size
      ensures Fits()
      ensures ok <==> (old(size) >= n && old(p) != null) || granted
      ensures ok ==> p != null && size == if old(size) < n || old(p) == null then n else old(size)
      ensures !ok ==> p == null && size == old(size)
      ensures ok && old(p) != null ==> old(p.Length) <= p.Length && p[..old(p.Length)] == old(p[..])
      ensures p == old(p) || p == null || fresh(p)
    {
      if size < n || p == null {
        if !granted {
          p := null;
          return false;
        }
        p := Realloc(p, n);
        size := n;
      }
      return true;
    }

    /** The header is stored in host order, and the payload read behind it. */
    method TakePayload(d: Descriptor, h: Header, n: nat) returns (t: Transfer)
      requires p != null && p.Length >= n >= HEADER_SIZE
      modifies d, p
      ensures d.outgoing == old(d.outgoing) && d.Went()
      ensures t.Done? ==> p[HEADER_SIZE..n] + d.incoming == old(d.incoming) && FromMemory(p[..HEADER_SIZE]) == h
      ensures t.Spins? ==> |old(d.incoming)| < n - HEADER_SIZE
      ensures NeverFails(old(d.plan)) ==> (t.Done? <==> n - HEADER_SIZE <= |old(d.incoming)|)
      ensures (t.Broken? ==> !d.eintr) && (t.Spins? ==> d.eintr)
    {
      CopyInto(p, 0, Memory(h));
      assert p[..HEADER_SIZE] == p[0..HEADER_SIZE] == Memory(h);
      MemoryRoundTrip(h);
      t := d.ReadN(p, HEADER_SIZE, n - HEADER_SIZE);
    }

    /** The request is parsed where the header in the buffer says it lies, and dispatched. */
    method Dispatch(n: nat, io: ClientIo) returns (v: Verdict)
      requires p != null && p.Length >= n >= HEADER_SIZE && n == PacketLength(FromMemory(p[..HEADER_SIZE])) && Sane(io.wild)
      ensures v == Decision(FromMemory(p[..HEADER_SIZE]), p[HEADER_SIZE..n], io)
    {
      var h := FromMemory(p[..HEADER_SIZE]);
      if Total(h) != n {
        return SimpleDecide(io.env, io.wild.rpc, io.wild.request);
      }
      var f := Cut(h, p[HEADER_SIZE..n]);
      return SimpleVerdict(io.env, f.meta, f.req);
    }

    /* `handle_client` up to its calls of `destroy_rpc_connection`, which the pool makes. */

    /** The lengths, one by one, then the packet. */
    method HandleRequest(d: Descriptor, io: ClientIo) returns (r: Ended, ghost part: bytes)
      requires Fits() && Sane(io.wild)
      modifies this`p, this`size, p, d
      ensures Fits() && (p == old(p) || p == null || fresh(p)) && d.Went()
      ensures d.outgoing == old(d.outgoing) + part
      ensures RequestOutcome(old(d.incoming), io, r, part, d.incoming, d.eintr)
      ensures NeverFails(old(d.plan)) && AllGoesWell(io) ==> r == EndOn(old(d.incoming), d.eintr, io)
    {
      part := [];
      ghost var plan, eintr := d.plan, d.eintr;
      var t, h := d.ReceiveHeader();
      if t.Done? {
        ghost var plan', eintr' := d.plan, d.eintr;
        r, part := HandleBody(d, h, io);
        PassedTrans(plan, eintr, plan', eintr', d.plan, d.eintr);
      } else {
        r := if t.Spins? then Hangs else Destroyed;
      }
    }

    /** A packet whose header was `h`. */
    method HandleBody(d: Descriptor, h: Header, io: ClientIo) returns (r: Ended, ghost part: bytes)
      requires Fits() && Sane(io.wild)
      modifies this`p, this`size, p, d
      ensures Fits() && (p == old(p) || p == null || fresh(p)) && d.Went()
      ensures d.outgoing == old(d.outgoing) + part
      ensures BodyOutcome(h, old(d.incoming), io, r, part, d.incoming, d.eintr)
      ensures NeverFails(old(d.plan)) && AllGoesWell(io) ==> r == BodyEnd(h, old(d.incoming), d.eintr, io)
    {
      part := [];
      NothingPassed(d.plan, d.eintr);
      var n := (HEADER_SIZE + h.rpcLen + h.reqLen + h.respLen) % TWO32;
      if n < HEADER_SIZE {
        return Astray, [];
      }
      var ok := ExpandPacket(n, io.grantedIn);
      if !ok {
        return Destroyed, [];
      }
      r, part := HandlePayload(d, h, n, io);
    }

    /** The payload is read into the buffer, where there is room for it. */
    method HandlePayload(d: Descriptor, h: Header, n: nat, io: ClientIo) returns (r: Ended, ghost part: bytes)
      requires Fits() && Sane(io.wild) && n == PacketLength(h) >= HEADER_SIZE && p != null && p.Length >= n
      modifies this`p, this`size, p, d
      ensures Fits() && (p == old(p) || p == null || fresh(p)) && d.Went()
      ensures d.outgoing == old(d.outgoing) + part
      ensures BodyOutcome(h, old(d.incoming), io, r, part, d.incoming, d.eintr)
      ensures NeverFails(old(d.plan)) && AllGoesWell(io) ==> r == BodyEnd(h, old(d.incoming), d.eintr, io)
    {
      part := [];
      ghost var b, plan, eintr := d.incoming, d.plan, d.eintr;
      var t := TakePayload(d, h, n);
      if t.Done? {
        SameSplit(p[HEADER_SIZE..n], d.incoming, b[..n - HEADER_SIZE], b[n - HEADER_SIZE..]);
        ghost var plan', eintr' := d.plan, d.eintr;
        var v := Dispatch(n, io);
        r, part := Conclude(d, io, v);
        PassedTrans(plan, eintr, plan', eintr', d.plan, d.eintr);
      } else {
        r := if t.Spins? then Hangs else Destroyed;
      }
    }

    /** After dispatch: an exception escapes, a drop destroys the connection, an answer is written. */
    method Conclude(d: Descriptor, io: ClientIo, v: Verdict) returns (r: Ended, ghost part: bytes)
      requires Fits()
      modifies this`p, this`size, p, d
      ensures Fits() && (p == old(p) || p == null || fresh(p)) && d.Went()
      ensures d.incoming == old(d.incoming) && d.outgoing == old(d.outgoing) + part
      ensures part <= ReplyBytes(v, io) && (r.Answered? ==> part == ReplyBytes(v, io))
      ensures r == EndWith(v, io) || r.Destroyed?
      ensures NeverFails(old(d.plan)) && AllGoesWell(io) ==> r == EndWith(v, io)
    {
      part := [];
      NothingPassed(d.plan, d.eintr);
      match v {
        case Raised => r := Escaped;
        case Dropped => r := Destroyed;
        case Respond(meta, param) =>
          if !ReplyFits(io.env, v) {
            return Astray, [];
          }
          var ok;
          ok, part := RespondToClient(d, io, FrameBytes(ReplyFrame(io.env.codec, meta, param)), param.Some?);
          r := if ok then Answered else Destroyed;
      }
    }

    /**
     `respond_to_client`, with a buffer grown to the reply's own size; `part` is what
     was written from it. If it fails the connection is to be destroyed.
     */
    method RespondToClient(d: Descriptor, io: ClientIo, data: bytes, hasParam: bool) returns (ok: bool, ghost part: bytes)
      requires Fits()
      modifies this`p, this`size, p, d
      ensures Fits() && (p == old(p) || p == null || fresh(p)) && d.Went()
      ensures d.incoming == old(d.incoming) && d.outgoing == old(d.outgoing) + part
      ensures part <= data && (ok ==> part == data && p != null && data <= p[..])
      ensures NeverFails(old(d.plan)) && AllGoesWell(io) ==> ok
    {
      part := [];
      NothingPassed(d.plan, d.eintr);
      ok := ExpandPacket(|data|, io.grantedOut);
      if ok && io.metaPrints && (hasParam ==> io.paramPrints) {
        ok, part := Write(d, data);
      } else {
        ok := false;
      }
    }

    /** The reply is placed in the buffer and written from there. */
    method Write(d: Descriptor, data: bytes) returns (ok: bool, ghost part: bytes)
      requires p != null && |data| <= p.Length
      modifies p, d
      ensures d.Went() && d.incoming == old(d.incoming) && d.outgoing == old(d.outgoing) + part
      ensures part <= data && (ok ==> part == data && data <= p[..])
      ensures NeverFails(old(d.plan)) ==> ok
    {
      CopyInto(p, 0, data);
      assert p[..|data|] == p[0..|data|];
      ok := d.WriteN(p[..|data|]);
      part := d.outgoing[|old(d.outgoing)|..];
    }
  }

  /** No allocation or serialization fails. */
  predicate AllGoesWell(io: ClientIo) {
    io.grantedIn && io.grantedOut && io.metaPrints && io.paramPrints
  }

  class CarrotSimpleServer {
    var connsUnused: seq<RpcConnection>
    var connsInUse: set<RpcConnection>
    /** Every connection ever allocated, and how often each was deleted. */
    ghost var all: set<RpcConnection>
    ghost var freed: multiset<RpcConnection>

    /** Each connection is in use, unused, freed or in `hand`, and in one of these once. */
    ghost predicate Partition(hand: multiset<RpcConnection>)
      reads this
    {
      && (forall c | c in all ::
            (if c in connsInUse then 1 else 0) + multiset(connsUnused)[c] + freed[c] + hand[c] == 1)
      && connsInUse <= all
      && (forall c | c in connsUnused :: c in all)
      && (forall c | c in freed :: c in all)
    }

    ghost predicate Valid()
      reads this, all
    {
      Sound(multiset{})
    }

    ghost predicate Sound(hand: multiset<RpcConnection>)
      reads this, all
    {
      && Partition(hand)
      && (forall c | c in connsInUse :: c.alive)
      && (forall c | c in connsUnused :: !c.alive)
      && (forall c | c in all :: c.Fits())
    }

    constructor ()
      ensures Valid() && all == {} && freed == multiset{}
    {
      connsUnused, connsInUse, all, freed := [], {}, {}, multiset{};
    }

    ghost method Delete(c: RpcConnection)
      modifies this`freed
      ensures freed == old(freed) + multiset{c}
    {
      freed := freed + multiset{c};
    }

    method HandleListenSock(accepted: bool, added: bool) returns (conn: RpcConnection?)
      requires Valid()
      modifies this, all`alive
      ensures Valid()
      ensures forall c | c in all - old(all) :: c.p == null
      ensures old(all) <= all && fresh(all - old(all))
      ensures conn == null <==> !accepted
      ensures conn == null ==> connsInUse == old(connsInUse) && connsUnused == old(connsUnused) && freed == old(freed)
      ensures conn != null && old(connsUnused) != [] ==> connsUnused + [conn] == old(connsUnused) && all == old(all)
      ensures conn != null && old(connsUnused) == [] ==> connsUnused == [] && fresh(conn) && all == old(all) + {conn}
      ensures conn != null && added ==> connsInUse == old(connsInUse) + {conn} && freed == old(freed)
      ensures conn != null && !added ==> connsInUse == old(connsInUse) && freed == old(freed) + multiset{conn}
    {
      if !accepted {
        return null;
      }
      var c := TakeConnection();
      Admit(c, added);
      return c;
    }

    /** The last unused connection, or a new one. */
    method TakeConnection() returns (conn: RpcConnection)
      requires Valid()
      modifies this`connsUnused, this`all
      ensures Sound(multiset{conn}) && conn in all
      ensures forall c | c in all - old(all) :: c.p == null
      ensures old(all) <= all && fresh(all - old(all))
      ensures old(connsUnused) != [] ==> connsUnused + [conn] == old(connsUnused) && all == old(all)
      ensures old(connsUnused) == [] ==> connsUnused == [] && fresh(conn) && all == old(all) + {conn}
    {
      if connsUnused != [] {
        ghost var was := connsUnused;
        conn := connsUnused[|connsUnused| - 1];
        connsUnused := connsUnused[..|connsUnused| - 1];
        assert was == connsUnused + [conn];
      } else {
        conn := new RpcConnection();
        all := all + {conn};
      }
    }

    /** The connection comes alive; if the reactor refuses it, it is deleted. */
    method Admit(conn: RpcConnection, added: bool)
      requires Sound(multiset{conn}) && conn in all
      modifies this`connsInUse, this`freed, conn`alive
      ensures Valid()
      ensures added ==> connsInUse == old(connsInUse) + {conn} && freed == old(freed)
      ensures !added ==> connsInUse == old(connsInUse) && freed == old(freed) + multiset{conn}
    {
      conn.alive := true;
      if !added {
        Delete(conn);
        return;
      }
      connsInUse := connsInUse + {conn};
    }

    method DestroyRpcConnection(c: RpcConnection)
      requires Valid() && c in connsInUse
      modifies this`connsUnused, this`connsInUse, c`alive
      ensures Valid()
      ensures connsUnused == old(connsUnused) + [c] && connsInUse == old(connsInUse) - {c} && !c.alive
    {
      if c.alive {
        c.alive := false;
      }
      connsUnused := connsUnused + [c];
      connsInUse := connsInUse - {c};
    }

    /**
     One request of one connection, read from its descriptor. The reply that dispatch
     chose is written; whatever goes wrong ends in exactly one `destroy_rpc_connection`,
     unless the read never ends.
     */
    method HandleClient(c: RpcConnection, d: Descriptor, io: ClientIo) returns (r: Ended, ghost part: bytes)
      requires Valid() && c in connsInUse && Sane(io.wild)
      modifies this`connsUnused, this`connsInUse, c, c.p, d
      ensures Valid() && (c.p == old(c.p) || c.p == null || fresh(c.p)) && d.Went()
      ensures r.Destroyed? ==> connsInUse == old(connsInUse) - {c} && connsUnused == old(connsUnused) + [c]
      ensures !r.Destroyed? ==> connsInUse == old(connsInUse) && connsUnused == old(connsUnused)
      ensures d.outgoing == old(d.outgoing) + part && RequestOutcome(old(d.incoming), io, r, part, d.incoming, d.eintr)
      ensures NeverFails(old(d.plan)) && AllGoesWell(io) ==> r == EndOn(old(d.incoming), d.eintr, io)
    {
      r, part := c.HandleRequest(d, io);
      Settle(c, r);
    }

    /** After a request: the pool has not changed yet. */
    method Settle(c: RpcConnection, r: Ended)
      requires Valid() && c in connsInUse
      modifies this`connsUnused, this`connsInUse, c`alive
      ensures Valid()
      ensures r.Destroyed? ==> connsInUse == old(connsInUse) - {c} && connsUnused == old(connsUnused) + [c]
      ensures !r.Destroyed? ==> connsInUse == old(connsInUse) && connsUnused == old(connsUnused)
    {
      if r.Destroyed? {
        DestroyRpcConnection(c);
      }
    }

    /** The destructor: it deletes what is unused, then what is in use. */
    method Shutdown()
      requires Valid()
      modifies this`freed
      ensures forall c | c in all :: freed[c] == 1
    {
      DeleteUnused();
      DeleteInUse();
    }

    method DeleteUnused()
      modifies this`freed
      ensures freed == old(freed) + multiset(connsUnused)
    {
      var i := 0;
      while i < |connsUnused|
        invariant 0 <= i <= |connsUnused|
        invariant freed == old(freed) + multiset(connsUnused[..i])
      {
        assert connsUnused[..i + 1] == connsUnused[..i] + [connsUnused[i]];
        Delete(connsUnused[i]);
        i := i + 1;
      }
      assert connsUnused[..i] == connsUnused;
    }

    method DeleteInUse()
      modifies this`freed
      ensures freed == old(freed) + multiset(connsInUse)
    {
      var rest := connsInUse;
      while rest != {}
        invariant rest <= connsInUse
        invariant freed == old(freed) + multiset(connsInUse - rest)
        decreases rest
      {
        var c :| c in rest;
        Delete(c);
        assert connsInUse - (rest - {c}) == (connsInUse - rest) + {c};
        rest := rest - {c};
      }
      assert connsInUse - rest == connsInUse;
    }
  }

  /**
   A readable connection: what its client has sent, how the system calls go, and
   `errno` of the one thread.
   */
  datatype PoolEvent =
    | Accepted(accepted: bool, added: bool)
    | Readable(incoming: bytes, plan: seq<Outcome>, eintr: bool, io: ClientIo)

  /** The input ends inside a packet, or the packet's reply does not fit its length fields. */
  predicate MayStop(s: bytes, io: ClientIo)
    requires Sane(io.wild)
  {
    Arrived(s) ==> EndWith(Decided(s, io), io).Astray?
  }

  /**
   Any run of accepts and requests, then the destructor: every connection ever
   allocated is deleted once. If a request is never done with, or leads out of its
   buffer, the one thread goes no further.
   */
  method RunPool(events: seq<PoolEvent>) returns (server: CarrotSimpleServer, stopped: bool)
    requires forall i | 0 <= i < |events| :: events[i].Readable? ==> Sane(events[i].io.wild)
    ensures !stopped ==> forall c | c in server.all :: server.freed[c] == 1
    ensures stopped ==> exists i :: 0 <= i < |events| && events[i].Readable? && MayStop(events[i].incoming, events[i].io)
  {
    server := new CarrotSimpleServer();
    var i := 0;
    while i < |events|
      invariant 0 <= i <= |events|
      invariant server.Valid() && fresh(server) && fresh(server.all)
      invariant forall c | c in server.all && c.p != null :: fresh(c.p)
    {
      stopped := RunEvent(server, events[i]);
      if stopped {
        return;
      }
      i := i + 1;
    }
    server.Shutdown();
    stopped := false;
  }

  method RunEvent(server: CarrotSimpleServer, e: PoolEvent) returns (stopped: bool)
    requires server.Valid() && (e.Readable? ==> Sane(e.io.wild))
    modifies server, server.all, set c | c in server.all && c.p != null :: c.p
    ensures server.Valid() && old(server.all) <= server.all && fresh(server.all - old(server.all))
    ensures forall c | c in server.all && c.p != null :: fresh(c.p) || (c in old(server.all) && c.p == old(c.p))
    ensures stopped ==> e.Readable? && MayStop(e.incoming, e.io)
  {
    stopped := false;
    match e {
      case Accepted(accepted, added) => var conn := server.HandleListenSock(accepted, added);
      case Readable(incoming, plan, eintr, io) => stopped := RunReadable(server, incoming, plan, eintr, io);
    }
  }

  /** One connection of those in use, if there is one, becomes readable. */
  method RunReadable(server: CarrotSimpleServer, incoming: bytes, plan: seq<Outcome>, eintr: bool, io: ClientIo)
    returns (stopped: bool)
    requires server.Valid() && Sane(io.wild)
    modifies server, server.all, set c | c in server.all && c.p != null :: c.p
    ensures server.Valid() && server.all == old(server.all)
    ensures forall c | c in server.all && c.p != null :: fresh(c.p) || c.p == old(c.p)
    ensures stopped ==> MayStop(incoming, io)
  {
    stopped := false;
    if server.connsInUse != {} {
      var c :| c in server.connsInUse;
      var d := new Descriptor(incoming, plan, eintr);
      var r, part := server.HandleClient(c, d, io);
      stopped := r.Hangs? || r.Astray?;
    }
  }

  /* How a request ends, from its bytes. */

  /** A packet whose lengths add up lies at the front. */
  predicate Framed(s: bytes) {
    |s| >= HEADER_SIZE && Total(HeaderAt(s)) < TWO32 && Total(HeaderAt(s)) <= |s|
  }

  function FrameAt(s: bytes): Frame
    requires Framed(s)
  {
    var h, b := HeaderAt(s), s[HEADER_SIZE..];
    Cut(h, b[..h.rpcLen + h.reqLen + h.respLen])
  }

  lemma FramedDecided(s: bytes, io: ClientIo)
    requires Framed(s) && Sane(io.wild)
    ensures Arrived(s) && Decided(s, io) == SimpleVerdict(io.env, FrameAt(s).meta, FrameAt(s).req)
  {
    BodyJudged(HeaderAt(s), s[HEADER_SIZE..], io);
  }

  lemma BodyJudged(h: Header, b: bytes, io: ClientIo)
    requires Total(h) < TWO32 && Total(h) <= HEADER_SIZE + |b| && Sane(io.wild)
    ensures var f := Cut(h, b[..h.rpcLen + h.reqLen + h.respLen]);
      BodyArrived(h, b) && BodyDecided(h, b, io) == SimpleVerdict(io.env, f.meta, f.req)
  {
    assert PacketLength(h) == Total(h);
    assert PacketLength(h) - HEADER_SIZE == h.rpcLen + h.reqLen + h.respLen;
    PacketJudged(h, b[..h.rpcLen + h.reqLen + h.respLen], io);
  }

  lemma PacketJudged(h: Header, payload: bytes, io: ClientIo)
    requires Exact(h, payload) && Sane(io.wild)
    ensures Decision(h, payload, io) == SimpleVerdict(io.env, Cut(h, payload).meta, Cut(h, payload).req)
  {
  }

  /** The connection of an unreadable request is destroyed, whatever `errno` is. */
  lemma UnreadableDestroyed(s: bytes, eintr: bool, io: ClientIo)
    requires Framed(s) && Sane(io.wild) && Unreadable(io.env, FrameAt(s).meta, FrameAt(s).req)
    ensures EndOn(s, eintr, io) == Destroyed && ReplyBytes(Decided(s, io), io) == []
  {
    var f := FrameAt(s);
    FramedDecided(s, io);
    UnreadableDropped(io.env, f.meta, f.req);
  }

  /** A readable request is answered, with bytes, or its method's exception escapes. */
  lemma ReadableEnds(s: bytes, eintr: bool, io: ClientIo)
    requires Framed(s) && Sane(io.wild) && !Unreadable(io.env, FrameAt(s).meta, FrameAt(s).req)
    requires ReplyFits(io.env, SimpleVerdict(io.env, FrameAt(s).meta, FrameAt(s).req))
    ensures EndOn(s, eintr, io) == if MethodThrows(io.env, FrameAt(s).meta, FrameAt(s).req) then Escaped else Answered
    ensures EndOn(s, eintr, io) == Answered ==>
      var v := SimpleVerdict(io.env, FrameAt(s).meta, FrameAt(s).req);
      v.Respond? && ReplyBytes(Decided(s, io), io) == FrameBytes(ReplyFrame(io.env.codec, v.meta, v.param)) != []
  {
    FramedDecided(s, io);
    ReadableJudged(io.env, FrameAt(s).meta, FrameAt(s).req);
  }

  /** Nothing that has not arrived is answered. */
  lemma ShortEnds(s: bytes, eintr: bool, io: ClientIo)
    requires Sane(io.wild) && (|s| >= HEADER_SIZE ==> |s| < Total(HeaderAt(s)) < TWO32)
    ensures EndOn(s, eintr, io) == if eintr then Hangs else Destroyed
  {
  }

  /** What the blocking client sends: it never sets the id. */
  function BlockingFrame(identity: bytes, req: bytes): Frame {
    Frame(PrintRequest(Request(None, Some(identity), [])), req, [])
  }

  /**
   A request of the blocking client: nothing is written, and its connection is no
   longer in use, whatever the system calls, the allocator and the services do.
   */
  method HandleBlockingRequest(server: CarrotSimpleServer, c: RpcConnection, d: Descriptor, io: ClientIo,
                               ghost identity: bytes, ghost req: bytes, ghost behind: bytes)
    requires server.Valid() && c in server.connsInUse && Sane(io.wild) && |identity| < TWO32
    requires FrameFits(BlockingFrame(identity, req)) && d.incoming == FrameBytes(BlockingFrame(identity, req)) + behind
    modifies server`connsUnused, server`connsInUse, c, c.p, d
    ensures server.Valid() && server.connsInUse == old(server.connsInUse) - {c} && d.outgoing == old(d.outgoing)
  {
    BlockingRequestDropped(io.env, identity, req);
    DroppedOutcome(d.incoming, BlockingFrame(identity, req), behind, io);
    var r, part := server.HandleClient(c, d, io);
  }

  lemma FrontFramed(f: Frame, behind: bytes)
    requires FrameFits(f)
    ensures var s := FrameBytes(f) + behind;
      Framed(s) && FrameAt(s) == f
  {
    var s, h, p := FrameBytes(f) + behind, HeaderBytes(HeaderOf(f)), Payload(f);
    assert s == h + p + behind;
    assert s[..HEADER_SIZE] == h && s[HEADER_SIZE..] == p + behind && (p + behind)[..|p|] == p;
    HeaderRoundTrip(HeaderOf(f));
    CutPayload(f);
  }

  /** Whatever happens to a request that is dropped, it is destroyed and nothing is written. */
  lemma DroppedOutcome(s: bytes, f: Frame, behind: bytes, io: ClientIo)
    requires FrameFits(f) && s == FrameBytes(f) + behind && Sane(io.wild) && SimpleVerdict(io.env, f.meta, f.req) == Dropped
    ensures forall r, part, rest, eintr :: RequestOutcome(s, io, r, part, rest, eintr) ==> r == Destroyed && part == []
  {
    FrontFramed(f, behind);
    FramedDecided(s, io);
  }

  /** A client that closes before or inside a packet while `errno` is EINTR stops the server; else it is dropped. */
  lemma InterruptedServerHangs(s: bytes, io: ClientIo)
    requires Sane(io.wild) && !Arrived(s) && (|s| >= HEADER_SIZE ==> PacketLength(HeaderAt(s)) >= HEADER_SIZE)
    ensures EndOn(s, true, io) == Hangs && EndOn(s, false, io) == Destroyed
  {
  }
}
