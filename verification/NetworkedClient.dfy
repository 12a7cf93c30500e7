/**
 The client's objects over the streams of `EndToEnd`: what the network delivers to
 an object is an event of the system, the object stays the system's client, and so
 what the system's runs keep holds of the object.
 */
module NetworkedClient {
  import opened Wire
  import opened RpcCodec
  import opened Frames
  import opened ClientModel
  import opened ClientSafety
  import opened ClientRuns
  import opened ClientReads
  import opened Dispatch
  import opened ServerModel
  import opened EndToEnd
  import opened ClientConnection

  /** Reads deliver the front of the stream; a connect starts only when no connect and no read is outstanding. */
  ghost predicate Delivers(s: Sys, i: Input) {
    && (i.Resolve? && i.ok ==> !HasReader(s.client))
    && (i.Header? && i.ok ==> |s.s2c| >= HEADER_SIZE && i.raw == s.s2c[..HEADER_SIZE])
    && (i.Payload? && WholePayload(s.client, i.end) ==> |s.s2c| >= s.client.n && i.payload == s.s2c[..s.client.n])
  }

  /** The object is the system's client, and its buffer holds what it is about to read on with. */
  ghost predicate IsClientOf(c: RpcClientConnection, s: Sys)
    reads c, c.tasks, c.buf, c.buf.p
  {
    c.Valid() && c.InPlace() && !c.stuck && s.client == c.conn
  }

  /** The lengths of the reply being read. */
  lemma ReplyLies(s: Sys, payload: bytes)
    requires DownAligned(s) && ReadingPayload in s.client.pending && |s.s2c| >= s.client.n && payload == s.s2c[..s.client.n]
    ensures var h := s.client.header;
      && Total(h) == HEADER_SIZE + |payload| < TWO32 && |payload| >= h.rpcLen + h.respLen
      && payload[..h.rpcLen] == s.s2c[..h.rpcLen]
      && payload[h.rpcLen..h.rpcLen + h.respLen] == s.s2c[h.rpcLen..h.rpcLen + h.respLen]
  {
    PayloadPassed(s);
    assert FrameFits(s.down[0]);
  }

  /** The object parses the payload where the network put it. */
  lemma SeenIsSent(c: RpcClientConnection, s: Sys, payload: bytes, wild: WildReply)
    requires IsClientOf(c, s) && SaneReply(wild) && DownAligned(s) && ReadingPayload in s.client.pending
    requires |s.s2c| >= s.client.n && payload == s.s2c[..s.client.n]
    ensures var h := s.client.header;
      && |s.s2c| >= s.client.n >= h.rpcLen + h.respLen
      && c.RpcSeen(payload, wild) == ParseResponse(s.s2c[..h.rpcLen])
      && c.ParamSeen(payload, wild) == c.cd.decode(s.s2c[h.rpcLen..h.rpcLen + h.respLen])
  {
    ReplyLies(s, payload);
    PartsSeen(c, s, payload);
  }

  lemma PartsSeen(c: RpcClientConnection, s: Sys, payload: bytes)
    requires IsClientOf(c, s) && ReadingPayload in s.client.pending
    requires Total(s.client.header) == HEADER_SIZE + |payload| < TWO32
    ensures var h := s.client.header;
      c.ReplyIn(payload) == Some((payload[..h.rpcLen], payload[h.rpcLen..h.rpcLen + h.respLen]))
  {
    assert c.Wanted(s.client.header) == HEADER_SIZE + |payload|;
    assert c.Lies(payload);
  }

  lemma DeliveredMay(c: RpcClientConnection, reg: map<bytes, set<bytes>>, s: Sys, i: Input, e: Event)
    requires IsClientOf(c, s) && SysInv(c.cd, reg, s) && c.InputFits(i) && Delivers(s, i) && e == c.EventOf(i)
    requires Enabled(s.client, e) && TasksFit(c.cd, Step(s.client, e))
    ensures ClientMay(c.cd, s, e)
  {
    StepKeeps(s.client, e);
    if i.Payload? && WholePayload(s.client, i.end) {
      SeenIsSent(c, s, i.payload, i.wild);
    }
  }

  /** A payload is read on with after its header was read, or after an event that touches no buffer. */
  lemma ReadOnWith(s: Conn, e: Event, s': Conn)
    requires NextRead(s, e, s') && ReadingPayload in s'.pending
    ensures e.HeaderRead? ==> e.ok && e.granted && s'.header == e.header
    ensures !e.HeaderRead? ==>
      !e.PayloadRead? && !e.Connected? && ReadingPayload in s.pending && s'.header == s.header
  {
    if !e.HeaderRead? {
      assert Quiet(s, s');
      assert s'.pending[ReadingPayload] == s.pending[ReadingPayload];
    }
  }

  /**
   One turn of the object's event loop, with what the network delivers. The system
   moves by the event, the object stays its client, and every unfailed callback the
   object ever ran holds the answer of its own method to its own request.
   */
  method Turn(c: RpcClientConnection, i: Input, ghost reg: map<bytes, set<bytes>>, ghost s: Sys, ghost e: Event,
              ghost granted: bool) returns (ghost returned: bool, ghost s': Sys)
    requires RoundTrips(c.cd) && SysInv(c.cd, reg, s) && IsClientOf(c, s)
    requires c.InputFits(i) && Delivers(s, i) && e == c.EventOf(i) && Enabled(s.client, e) && TasksFit(c.cd, Step(s.client, e))
    modifies c, c.tasks, c.buf, c.buf.p
    ensures ClientMay(c.cd, s, e) && (returned <==> !old(c.Loops(i)) && !c.stuck)
    ensures returned ==> s' == ClientMove(c.cd, s, e, granted) && SysInv(c.cd, reg, s') && IsClientOf(c, s')
    ensures returned ==> OwnAnswers(c.cd, reg, s')
  {
    s' := s;
    DeliveredMay(c, reg, s, i, e);
    returned := Handled(c, i, s, e);
    if returned {
      s' := Moved(c.cd, reg, s, e, granted);
    }
  }

  lemma Moved(cd: Codec, reg: map<bytes, set<bytes>>, s: Sys, e: Event, granted: bool) returns (s': Sys)
    requires RoundTrips(cd) && SysInv(cd, reg, s) && ClientMay(cd, s, e)
    ensures s' == ClientMove(cd, s, e, granted) && s'.client == Step(s.client, e)
    ensures SysInv(cd, reg, s') && OwnAnswers(cd, reg, s')
  {
    ClientKeeps(cd, reg, s, e, granted);
    s' := ClientMove(cd, s, e, granted);
    AllOwnAnswers(cd, reg, s');
  }

  method Handled(c: RpcClientConnection, i: Input, ghost s: Sys, ghost e: Event) returns (ghost returned: bool)
    requires IsClientOf(c, s) && Inv(s.client) && OneReader(s.client) && Delivers(s, i)
    requires c.InputFits(i) && e == c.EventOf(i) && Enabled(s.client, e)
    modifies c, c.tasks, c.buf, c.buf.p
    ensures returned <==> !old(c.Loops(i)) && !c.stuck
    ensures returned ==> c.Valid() && c.InPlace() && c.conn == Step(s.client, e)
  {
    StepReads(s.client, e);
    returned := c.Handle(i, e);
    if returned && ReadingPayload in c.conn.pending {
      ReadOnWith(s.client, e, c.conn);
      assert c.Landed(c.conn.header);
    }
  }

  /** Every unfailed callback so far, of a service whose name has no dot. */
  ghost predicate OwnAnswers(cd: Codec, reg: map<bytes, set<bytes>>, s: Sys)
    requires WellFormed(s.client) && TasksFit(cd, s.client)
  {
    forall j | 0 <= j < |s.client.log| && s.client.log[j].code == EC_SUCCESS ::
      DOT !in s.client.tasks[s.client.log[j].k].service ==> OwnAnswer(cd, reg, s, j)
  }

  lemma AllOwnAnswers(cd: Codec, reg: map<bytes, set<bytes>>, s: Sys)
    requires RoundTrips(cd) && SysInv(cd, reg, s)
    ensures OwnAnswers(cd, reg, s)
  {
    forall j | 0 <= j < |s.client.log| && s.client.log[j].code == EC_SUCCESS
      ensures DOT !in s.client.tasks[s.client.log[j].k].service ==> OwnAnswer(cd, reg, s, j)
    {
      assert Answered(s.client, s.client.log[j]);
      if DOT !in s.client.tasks[s.client.log[j].k].service {
        SuccessIsOwn(cd, reg, s, j);
      }
    }
  }

  /** A new object is the client of a system that has just started. */
  method Start(cd: Codec, ghost reg: map<bytes, set<bytes>>) returns (c: RpcClientConnection)
    ensures c.cd == cd && IsClientOf(c, START) && SysInv(cd, reg, START)
  {
    c := new RpcClientConnection(cd);
    StartInv(cd, reg);
  }

  /** A step of a server leaves the object the system's client. */
  lemma ServerTurn(c: RpcClientConnection, reg: map<bytes, set<bytes>>, s: Sys, j: nat, e: SrvEvent)
    requires SysInv(c.cd, reg, s) && IsClientOf(c, s) && ServerMay(c.cd, reg, s, j, e)
    ensures SysInv(c.cd, reg, ServerMove(s, j, e)) && IsClientOf(c, ServerMove(s, j, e))
  {
    ServerKeeps(c.cd, reg, s, j, e);
    SameClient(s, j, e);
  }

  lemma SameClient(s: Sys, j: nat, e: SrvEvent)
    requires j < |s.links| && SrvEnabled(s.links[j].server, e)
    requires e.HeaderIn? && e.ok ==> |s.links[j].c2s| >= HEADER_SIZE
    requires e.PayloadIn? && e.ok ==> |s.links[j].c2s| >= |e.payload|
    ensures ServerMove(s, j, e).client == s.client
  {
  }
}
