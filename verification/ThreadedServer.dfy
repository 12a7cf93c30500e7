/**
 `handle_client` of carrot_threaded_server.cpp: one thread's loop over its
 connection, with `read_n` and `write_n` on the descriptor, one buffer that is
 reused, and the dispatch of each request.
 */
module ThreadedServer {
  import opened Wire
  import opened Frames
  import opened Buffers
  import opened Transfers
  import opened Dispatch
  import opened ServerModel

  /** What the allocator and the printer do in one turn of the loop. */
  datatype Luck = Luck(grantedIn: bool, grantedOut: bool, metaPrints: bool, paramPrints: bool)

  predicate AllGoesWell(l: Luck) {
    l.grantedIn && l.grantedOut && l.metaPrints && l.paramPrints
  }

  /** How a turn ends: the loop goes on, or it is left, or the thread never gets on, or what it does is not followed. */
  datatype Turned = Goes | Leaves | Hangs | Astray

  /** What dispatch answers; None if it drops the request or the method throws. */
  function AnswerTo(env: Env, f: Frame): Option<Frame> {
    match SimpleVerdict(env, f.meta, f.req)
    case Respond(meta, param) => Some(ReplyFrame(env.codec, meta, param))
    case _ => None
  }

  /** The reply a request gets if all goes well: the answer, unless `expand_packet` does not return for it. */
  function ReplyTo(env: Env, f: Frame): (r: Option<Frame>)
    ensures r.Some? ==> Expandable(r.value)
  {
    var a := AnswerTo(env, f);
    if a.Some? && Expandable(a.value) then a else None
  }

  /** How the turn ends for an answer that is not Expandable; the code truncates its length to 32 bits. */
  function TooLong(a: Frame): Turned {
    if Length(a) < TWO32 then Hangs else Astray
  }

  /** How the turn ends for a request that gets no reply. */
  function NoReply(env: Env, f: Frame): Turned {
    var a := AnswerTo(env, f);
    if a.Some? then TooLong(a.value) else Leaves
  }

  /** The dispatcher of a server whose environment may change from turn to turn. */
  function Answers(envs: nat -> Env): (nat, Frame) -> Option<Frame> {
    (i: nat, f: Frame) => ReplyTo(envs(i), f)
  }

  /** The answers owed to the requests `fs`, which start at turn `i`: up to the first that gets none. */
  function Replies(answer: (nat, Frame) -> Option<Frame>, fs: seq<Frame>, i: nat): (r: seq<Frame>)
    ensures |r| <= |fs|
    decreases |fs|
  {
    if fs == [] || answer(i, fs[0]).None? then []
    else [answer(i, fs[0]).value] + Replies(answer, fs[1..], i + 1)
  }

  /** A frame for which `expand_packet` returns. */
  predicate Expandable(f: Frame) {
    Length(f) <= TWO31
  }

  function Length(f: Frame): nat {
    HEADER_SIZE + |f.meta| + |f.req| + |f.resp|
  }

  predicate AllExpandable(fs: seq<Frame>)
    ensures AllExpandable(fs) ==> AllFit(fs)
  {
    forall i | 0 <= i < |fs| :: Expandable(fs[i])
  }

  /** Replies keep the order of the requests, one each, and end before the first request that gets none. */
  lemma {:induction false} RepliesInOrder(answer: (nat, Frame) -> Option<Frame>, fs: seq<Frame>, first: nat)
    ensures var r := Replies(answer, fs, first);
      && (forall i | 0 <= i < |r| :: answer(first + i, fs[i]) == Some(r[i]))
      && (|r| < |fs| ==> answer(first + |r|, fs[|r|]).None?)
    decreases |fs|
  {
    if fs != [] && answer(first, fs[0]).Some? {
      RepliesInOrder(answer, fs[1..], first + 1);
      var r := Replies(answer, fs, first);
      assert r[1..] == Replies(answer, fs[1..], first + 1);
      forall i | 0 <= i < |r| ensures answer(first + i, fs[i]) == Some(r[i]) {
        if i > 0 {
          assert answer(first + 1 + (i - 1), fs[1..][i - 1]) == Some(r[1..][i - 1]);
        }
      }
    }
  }

  /* A stream of bytes as the loop takes it apart. */

  /** A complete request lies at the front. */
  predicate Whole(s: bytes) {
    |s| >= HEADER_SIZE && Total(HeaderAt(s)) <= TWO31 && |s| >= Total(HeaderAt(s))
  }

  function First(s: bytes): Frame
    requires Whole(s)
  {
    Cut(HeaderAt(s), s[HEADER_SIZE..Total(HeaderAt(s))])
  }

  function Beyond(s: bytes): bytes
    requires Whole(s)
  {
    s[Total(HeaderAt(s))..]
  }

  /** The complete requests at the front of a stream, and what is left behind them. */
  function Leading(s: bytes): seq<Frame>
    decreases |s|
  {
    if Whole(s) then [First(s)] + Leading(Beyond(s)) else []
  }

  function Remainder(s: bytes): bytes
    decreases |s|
  {
    if Whole(s) then Remainder(Beyond(s)) else s
  }

  lemma FirstSplits(s: bytes)
    requires Whole(s)
    ensures Expandable(First(s)) && s == FrameBytes(First(s)) + Beyond(s)
  {
    HeaderOfBytes(s[..HEADER_SIZE]);
    FrameSplits(s, HeaderAt(s), s[HEADER_SIZE..Total(HeaderAt(s))]);
  }

  lemma FrameSplits(s: bytes, h: Header, p: bytes)
    requires |s| >= Total(h) && HeaderBytes(h) == s[..HEADER_SIZE] && p == s[HEADER_SIZE..Total(h)] && Total(h) <= TWO31
    ensures Expandable(Cut(h, p)) && s == FrameBytes(Cut(h, p)) + s[Total(h)..]
  {
    ThreeParts(p, h.rpcLen, h.rpcLen + h.reqLen);
    assert HeaderOf(Cut(h, p)) == h;
    assert s == s[..HEADER_SIZE] + p + s[Total(h)..];
  }

  lemma ThreeParts(p: bytes, i: nat, j: nat)
    requires i <= j <= |p|
    ensures p[..i] + p[i..j] + p[j..] == p
  {
  }

  /** Every stream is the frames it starts with, then something that does not start with one. */
  lemma {:induction false} LeadingSplits(s: bytes)
    ensures AllExpandable(Leading(s)) && !Whole(Remainder(s))
    ensures s == StreamOf(Leading(s)) + Remainder(s)
    decreases |s|
  {
    if Whole(s) {
      FirstSplits(s);
      LeadingSplits(Beyond(s));
      FrameBefore(First(s), Leading(Beyond(s)), Remainder(s));
    }
  }

  lemma FrameBefore(f: Frame, fs: seq<Frame>, t: bytes)
    requires Expandable(f) && AllExpandable(fs)
    ensures AllExpandable([f] + fs) && FrameBytes(f) + (StreamOf(fs) + t) == StreamOf([f] + fs) + t
  {
    assert ([f] + fs)[1..] == fs;
    Regroup(FrameBytes(f), StreamOf(fs), t);
  }

  lemma FirstOfStream(f: Frame, t: bytes)
    requires Expandable(f)
    ensures var s := FrameBytes(f) + t; Whole(s) && First(s) == f && Beyond(s) == t
  {
    var s, h, p := FrameBytes(f) + t, HeaderBytes(HeaderOf(f)), Payload(f);
    assert s == h + p + t;
    assert s[..HEADER_SIZE] == h && s[HEADER_SIZE..HEADER_SIZE + |p|] == p && s[HEADER_SIZE + |p|..] == t;
    HeaderRoundTrip(HeaderOf(f));
    CutPayload(f);
  }

  /** Frames sent one after the other are the ones the stream starts with. */
  lemma {:induction false} LeadingOfStream(fs: seq<Frame>, t: bytes)
    requires AllExpandable(fs) && !Whole(t)
    ensures Leading(StreamOf(fs) + t) == fs && Remainder(StreamOf(fs) + t) == t
    decreases |fs|
  {
    if fs == [] {
      assert [] + t == t;
    } else {
      assert [fs[0]] + fs[1..] == fs;
      FrameBefore(fs[0], fs[1..], t);
      LeadingMore(fs[0], StreamOf(fs[1..]) + t);
      LeadingOfStream(fs[1..], t);
    }
  }

  lemma LeadingMore(f: Frame, s: bytes)
    requires Expandable(f)
    ensures Leading(FrameBytes(f) + s) == [f] + Leading(s) && Remainder(FrameBytes(f) + s) == Remainder(s)
  {
    FirstOfStream(f, s);
  }

  /* The thread. */

  /**
   What becomes of the thread when it meets `t`, which does not start with a
   complete request. An end of file is met for ever if `errno` is EINTR. Lengths
   above 2^31 keep `expand_packet` for ever; those that wrap lead out of the buffer.
   */
  function EndOf(t: bytes, eintr: bool): Turned {
    if |t| >= HEADER_SIZE && PacketLength(HeaderAt(t)) > TWO31 then Hangs
    else if |t| >= HEADER_SIZE && Total(HeaderAt(t)) >= TWO32 then Astray
    else if eintr then Hangs
    else Leaves
  }

  /** Reads one request into the buffer and cuts it. */
  method TakeRequest(d: Descriptor, buf: PacketBuffer, granted: bool) returns (r: Turned, f: Frame)
    requires buf.Valid()
    modifies d, buf, buf.p
    ensures buf.Valid() && (buf.p == old(buf.p) || buf.p == null || fresh(buf.p))
    ensures d.outgoing == old(d.outgoing) && d.Went()
    ensures r.Goes? ==> Whole(old(d.incoming)) && f == First(old(d.incoming)) && d.incoming == Beyond(old(d.incoming))
    ensures Whole(old(d.incoming)) ==> r.Goes? || r.Leaves?
    ensures NeverFails(old(d.plan)) && granted ==>
      r == if Whole(old(d.incoming)) then Goes else EndOf(old(d.incoming), d.eintr)
  {
    f := Frame([], [], []);
    ghost var s, plan, eintr := d.incoming, d.plan, d.eintr;
    var t, h := d.ReceiveHeader();
    if !t.Done? {
      return if t.Spins? then Hangs else Leaves, f;
    }
    ghost var plan', eintr' := d.plan, d.eintr;
    r, f := TakeBody(d, buf, h, granted);
    PassedTrans(plan, eintr, plan', eintr', d.plan, d.eintr);
    BodyBehind(s, d.eintr);
  }

  predicate BodyThere(h: Header, avail: nat) {
    Total(h) <= TWO31 && avail >= Total(h) - HEADER_SIZE
  }

  /** How an undisturbed request ends whose header was `h`, with `avail` bytes behind it. */
  function BodyEnd(h: Header, avail: nat, eintr: bool): Turned {
    if BodyThere(h, avail) then Goes
    else if PacketLength(h) > TWO31 then Hangs
    else if Total(h) >= TWO32 then Astray
    else if eintr then Hangs
    else Leaves
  }

  lemma BodyBehind(s: bytes, eintr: bool)
    requires |s| >= HEADER_SIZE
    ensures var h, b := HeaderAt(s), s[HEADER_SIZE..];
      && (Whole(s) <==> BodyThere(h, |b|))
      && (Whole(s) ==>
            First(s) == Cut(h, b[..Total(h) - HEADER_SIZE]) && Beyond(s) == b[Total(h) - HEADER_SIZE..])
      && BodyEnd(h, |b|, eintr) == if Whole(s) then Goes else EndOf(s, eintr)
  {
    var h, b := HeaderAt(s), s[HEADER_SIZE..];
    if Whole(s) {
      assert s[HEADER_SIZE..Total(h)] == b[..Total(h) - HEADER_SIZE];
      assert s[Total(h)..] == b[Total(h) - HEADER_SIZE..];
    }
  }

  /** The rest of a request whose lengths are `h`. */
  method TakeBody(d: Descriptor, buf: PacketBuffer, h: Header, granted: bool) returns (r: Turned, f: Frame)
    requires buf.Valid()
    modifies d, buf, buf.p
    ensures buf.Valid() && (buf.p == old(buf.p) || buf.p == null || fresh(buf.p))
    ensures d.outgoing == old(d.outgoing) && d.Went()
    ensures r.Goes? ==> BodyThere(h, |old(d.incoming)|)
    ensures r.Goes? ==>
      var m := Total(h) - HEADER_SIZE;
      f == Cut(h, old(d.incoming)[..m]) && d.incoming == old(d.incoming)[m..]
    ensures BodyThere(h, |old(d.incoming)|) ==> r.Goes? || r.Leaves?
    ensures NeverFails(old(d.plan)) && granted ==> r == BodyEnd(h, |old(d.incoming)|, d.eintr)
  {
    f := Frame([], [], []);
    NothingPassed(d.plan, d.eintr);
    var n := (HEADER_SIZE + h.rpcLen + h.reqLen + h.respLen) % TWO32;
    var x := buf.Expand(n, granted);
    if !x.Ready? {
      return if x.Endless? then Hangs else Leaves, f;
    }
    if Total(h) >= TWO32 {
      return Astray, f;
    }
    ghost var b := d.incoming;
    var t, data := TakePayload(d, buf, h, n);
    if !t.Done? {
      return if t.Spins? then Hangs else Leaves, f;
    }
    SameSplit(data, d.incoming, b[..n - HEADER_SIZE], b[n - HEADER_SIZE..]);
    f := Cut(h, data);
    r := Goes;
  }

  /** The header is stored in host order, and the payload read behind it. */
  method TakePayload(d: Descriptor, buf: PacketBuffer, h: Header, n: nat) returns (t: Transfer, data: bytes)
    requires buf.Valid() && buf.p != null && buf.p.Length >= n >= HEADER_SIZE
    modifies d, buf.p
    ensures buf.Valid() && d.outgoing == old(d.outgoing) && d.Went()
    ensures t.Done? ==> |data| == n - HEADER_SIZE && data + d.incoming == old(d.incoming)
    ensures t.Spins? ==> |old(d.incoming)| < n - HEADER_SIZE
    ensures NeverFails(old(d.plan)) ==> (t.Done? <==> n - HEADER_SIZE <= |old(d.incoming)|)
    ensures (t.Broken? ==> !d.eintr) && (t.Spins? ==> d.eintr)
  {
    data := [];
    CopyInto(buf.p, 0, Memory(h));
    t := d.ReadN(buf.p, HEADER_SIZE, n - HEADER_SIZE);
    if t.Done? {
      data := buf.p[HEADER_SIZE..n];
    }
  }

  /** The bytes of an answer that can be sent. */
  function Sendable(a: Frame): bytes {
    if Expandable(a) then FrameBytes(a) else []
  }

  /** `respond_to_client`; the loop is left when it closed the descriptor. `part` is what was sent. */
  method RespondToClient(d: Descriptor, buf: PacketBuffer, a: Frame, hasParam: bool, luck: Luck)
    returns (r: Turned, ghost part: bytes)
    requires buf.Valid()
    modifies d, buf, buf.p
    ensures buf.Valid() && (buf.p == old(buf.p) || buf.p == null || fresh(buf.p))
    ensures d.incoming == old(d.incoming) && d.outgoing == old(d.outgoing) + part && d.Went()
    ensures part <= Sendable(a) && (r.Goes? ==> Expandable(a) && part == FrameBytes(a))
    ensures if Expandable(a) then r.Goes? || r.Leaves? else r == TooLong(a)
    ensures NeverFails(old(d.plan)) && AllGoesWell(luck) && Expandable(a) ==> r.Goes?
  {
    part := [];
    NothingPassed(d.plan, d.eintr);
    var n := HEADER_SIZE + |a.meta| + |a.req| + |a.resp|;
    if n >= TWO32 {
      return Astray, [];
    }
    var x := buf.Expand(n, luck.grantedOut);
    if x.Endless? {
      return Hangs, [];
    }
    if x.Ready? && luck.metaPrints && (hasParam ==> luck.paramPrints) {
      var ok;
      ok, part := Write(d, buf.p, FrameBytes(a));
      r := if ok then Goes else Leaves;
    } else {
      r := Leaves;
    }
  }

  /** The reply is placed in the buffer and written from there. */
  method Write(d: Descriptor, p: array<byte>, data: bytes) returns (ok: bool, ghost part: bytes)
    requires |data| <= p.Length
    modifies d, p
    ensures d.incoming == old(d.incoming) && d.outgoing == old(d.outgoing) + part && d.Went()
    ensures part <= data && (ok ==> part == data)
    ensures NeverFails(old(d.plan)) ==> ok
  {
    CopyInto(p, 0, data);
    assert p[0..|data|] == p[..|data|];
    ok := d.WriteN(p[..|data|]);
    part := d.outgoing[|old(d.outgoing)|..];
  }

  /** What a request is owed, as bytes. */
  function Owed(env: Env, f: Frame): bytes {
    if ReplyTo(env, f).Some? then FrameBytes(ReplyTo(env, f).value) else []
  }

  /** How a turn on a complete request ends that nothing disturbs. */
  function Answering(env: Env, f: Frame): Turned {
    if ReplyTo(env, f).Some? then Goes else NoReply(env, f)
  }

  ghost function TurnOn(env: Env, s: bytes, eintr: bool): Turned {
    if Whole(s) then Answering(env, First(s)) else EndOf(s, eintr)
  }

  /** One turn of the loop. It also leaves it where the code closes the descriptor and the next read fails. */
  method Turn(d: Descriptor, buf: PacketBuffer, env: Env, luck: Luck) returns (r: Turned, ghost part: bytes)
    requires buf.Valid()
    modifies d, buf, buf.p
    ensures buf.Valid() && (buf.p == old(buf.p) || buf.p == null || fresh(buf.p))
    ensures d.outgoing == old(d.outgoing) + part && d.Went()
    ensures if Whole(old(d.incoming)) then part <= Owed(env, First(old(d.incoming))) else part == []
    ensures r.Goes? ==> Whole(old(d.incoming)) && ReplyTo(env, First(old(d.incoming))).Some?
    ensures r.Goes? ==> d.incoming == Beyond(old(d.incoming)) && part == Owed(env, First(old(d.incoming)))
    ensures Whole(old(d.incoming)) ==> r.Leaves? || r == Answering(env, First(old(d.incoming)))
    ensures NeverFails(old(d.plan)) && AllGoesWell(luck) ==> r == TurnOn(env, old(d.incoming), d.eintr)
  {
    part := [];
    ghost var plan, eintr := d.plan, d.eintr;
    var f;
    r, f := TakeRequest(d, buf, luck.grantedIn);
    if !r.Goes? { return; }
    ghost var plan', eintr' := d.plan, d.eintr;
    r, part := AnswerRequest(d, buf, env, luck, f);
    PassedTrans(plan, eintr, plan', eintr', d.plan, d.eintr);
  }

  /** From the parse of the request to the end of the turn. */
  method AnswerRequest(d: Descriptor, buf: PacketBuffer, env: Env, luck: Luck, f: Frame)
    returns (r: Turned, ghost part: bytes)
    requires buf.Valid()
    modifies d, buf, buf.p
    ensures buf.Valid() && (buf.p == old(buf.p) || buf.p == null || fresh(buf.p))
    ensures d.incoming == old(d.incoming) && d.outgoing == old(d.outgoing) + part && d.Went()
    ensures part <= Owed(env, f) && (r.Leaves? || r == Answering(env, f))
    ensures r.Goes? ==> ReplyTo(env, f).Some? && part == Owed(env, f)
    ensures NeverFails(old(d.plan)) && AllGoesWell(luck) ==> r == Answering(env, f)
  {
    part := [];
    NothingPassed(d.plan, d.eintr);
    var v := ThreadedTurn(env, f.meta, f.req);
    if !v.Respond? {
      r := Leaves;
      return;
    }
    var a := ReplyFrame(env.codec, v.meta, v.param);
    assert AnswerTo(env, f) == Some(a);
    r, part := RespondToClient(d, buf, a, v.param.Some?, luck);
  }

  /** What is owed for everything the client sends. */
  function OwedFor(envs: nat -> Env, s: bytes): seq<Frame> {
    Replies(Answers(envs), Leading(s), 0)
  }

  lemma OwedExpandable(envs: nat -> Env, s: bytes)
    ensures AllExpandable(OwedFor(envs, s))
  {
    RepliesExpandable(envs, Leading(s), 0);
  }

  lemma {:induction false} RepliesExpandable(envs: nat -> Env, fs: seq<Frame>, i: nat)
    ensures AllExpandable(Replies(Answers(envs), fs, i))
    decreases |fs|
  {
    if fs != [] {
      RepliesExpandable(envs, fs[1..], i + 1);
      assert Answers(envs)(i, fs[0]) == ReplyTo(envs(i), fs[0]);
    }
  }

  /** The stream after `i` requests were taken off it. */
  ghost predicate Taken(s: bytes, i: nat, left: bytes) {
    i <= |Leading(s)| && Leading(left) == Leading(s)[i..] && Remainder(left) == Remainder(s)
  }

  lemma TakenNone(s: bytes)
    ensures Taken(s, 0, s)
  {
    assert Leading(s)[0..] == Leading(s);
  }

  lemma TakenMore(s: bytes, i: nat, left: bytes)
    requires Taken(s, i, left) && Whole(left)
    ensures i < |Leading(s)| && First(left) == Leading(s)[i] && Taken(s, i + 1, Beyond(left))
  {
    assert Leading(left)[0] == First(left) && Leading(left)[1..] == Leading(Beyond(left));
  }

  lemma TakenAll(s: bytes, i: nat, left: bytes)
    requires Taken(s, i, left) && !Whole(left)
    ensures i == |Leading(s)| && left == Remainder(s)
  {
  }

  /** After `base` were sent `whole` of the replies owed, and then `part` of the next. */
  ghost predicate Sent(base: bytes, owed: seq<Frame>, whole: nat, part: bytes, out: bytes)
    requires AllExpandable(owed)
  {
    && whole <= |owed| && out == base + StreamOf(owed[..whole]) + part
    && if whole < |owed| then part <= FrameBytes(owed[whole]) else part == []
  }

  lemma SentNothing(base: bytes, owed: seq<Frame>)
    requires AllExpandable(owed)
    ensures Sent(base, owed, 0, [], base)
  {
    assert owed[..0] == [] && base + [] + [] == base;
  }

  lemma SentPart(base: bytes, owed: seq<Frame>, i: nat, out: bytes, part: bytes)
    requires AllExpandable(owed) && Sent(base, owed, i, [], out)
    requires if i < |owed| then part <= FrameBytes(owed[i]) else part == []
    ensures Sent(base, owed, i, part, out + part)
  {
  }

  lemma SentMore(base: bytes, owed: seq<Frame>, i: nat, out: bytes)
    requires AllExpandable(owed) && i < |owed| && Sent(base, owed, i, FrameBytes(owed[i]), out)
    ensures Sent(base, owed, i + 1, [], out)
  {
    StreamGrows(owed, i);
    Regroup(base, StreamOf(owed[..i]), FrameBytes(owed[i]));
    assert out + [] == out;
  }

  /** The turn at `i`: what it sends is all, or a part, of the `i`-th reply owed. */
  method TurnAt(d: Descriptor, buf: PacketBuffer, envs: nat -> Env, luck: Luck, ghost s: bytes, i: nat)
    returns (r: Turned, ghost part: bytes)
    requires buf.Valid() && AllExpandable(OwedFor(envs, s))
    requires i <= |OwedFor(envs, s)| && Taken(s, i, d.incoming)
    modifies d, buf, buf.p
    ensures buf.Valid() && (buf.p == old(buf.p) || buf.p == null || fresh(buf.p))
    ensures d.outgoing == old(d.outgoing) + part && d.Went()
    ensures if i < |OwedFor(envs, s)| then part <= FrameBytes(OwedFor(envs, s)[i]) else part == [] && !r.Goes?
    ensures r.Goes? ==> part == FrameBytes(OwedFor(envs, s)[i]) && Taken(s, i + 1, d.incoming)
    ensures NeverFails(old(d.plan)) && AllGoesWell(luck) ==> r == EndAt(envs, s, i, d.eintr)
  {
    ghost var left := d.incoming;
    NextOwed(envs, s, i, left);
    r, part := Turn(d, buf, envs(i), luck);
    if Whole(left) {
      TakenMore(s, i, left);
    } else {
      TakenAll(s, i, left);
    }
  }

  /** How the undisturbed turn at `i` ends. */
  ghost function EndAt(envs: nat -> Env, s: bytes, i: nat, eintr: bool): Turned {
    if i < |OwedFor(envs, s)| then Goes
    else if i < |Leading(s)| then NoReply(envs(i), Leading(s)[i])
    else EndOf(Remainder(s), eintr)
  }

  /** The request at turn `i` gets a reply exactly when a reply is owed at `i`. */
  lemma NextOwed(envs: nat -> Env, s: bytes, i: nat, left: bytes)
    requires i <= |OwedFor(envs, s)| && Taken(s, i, left)
    ensures i < |OwedFor(envs, s)| <==> Whole(left) && ReplyTo(envs(i), First(left)).Some?
    ensures i < |OwedFor(envs, s)| ==> ReplyTo(envs(i), First(left)) == Some(OwedFor(envs, s)[i])
  {
    var fs := Leading(s);
    AnswerAt(Answers(envs), fs, i);
    if Whole(left) {
      TakenMore(s, i, left);
      assert Answers(envs)(i, fs[i]) == ReplyTo(envs(i), First(left));
    } else {
      TakenAll(s, i, left);
    }
  }

  lemma AnswerAt(answer: (nat, Frame) -> Option<Frame>, fs: seq<Frame>, i: nat)
    requires i <= |Replies(answer, fs, 0)|
    ensures var r := Replies(answer, fs, 0);
      && (i < |r| <==> i < |fs| && answer(i, fs[i]).Some?)
      && (i < |r| ==> answer(i, fs[i]) == Some(r[i]))
  {
    RepliesInOrder(answer, fs, 0);
    assert i < |Replies(answer, fs, 0)| ==> answer(0 + i, fs[i]) == Some(Replies(answer, fs, 0)[i]);
  }

  /** The turn at `i` of a loop that started with `plan` and `eintr`, and had sent `base` before. */
  method NextTurn(d: Descriptor, buf: PacketBuffer, envs: nat -> Env, luck: Luck, i: nat, ghost s: bytes, ghost owed: seq<Frame>,
                  ghost base: bytes, ghost plan: seq<Outcome>, ghost eintr: bool) returns (r: Turned, ghost part: bytes)
    requires buf.Valid() && owed == OwedFor(envs, s) && AllExpandable(owed)
    requires Taken(s, i, d.incoming) && Sent(base, owed, i, [], d.outgoing)
    requires Passed(plan, eintr, d.plan, d.eintr)
    modifies d, buf, buf.p
    ensures buf.Valid() && (buf.p == old(buf.p) || buf.p == null || fresh(buf.p))
    ensures Passed(plan, eintr, d.plan, d.eintr)
    ensures !r.Goes? ==> Sent(base, owed, i, part, d.outgoing)
    ensures r.Goes? ==> i < |owed| && part == [] && Sent(base, owed, i + 1, [], d.outgoing) && Taken(s, i + 1, d.incoming)
    ensures NeverFails(plan) && AllGoesWell(luck) ==> r == EndAt(envs, s, i, d.eintr) && (r.Goes? <==> i < |owed|)
  {
    ghost var plan', eintr', out := d.plan, d.eintr, d.outgoing;
    r, part := TurnAt(d, buf, envs, luck, s, i);
    PassedTrans(plan, eintr, plan', eintr', d.plan, d.eintr);
    SentPart(base, owed, i, out, part);
    EndGoes(envs, s, i, d.eintr);
    if r.Goes? {
      SentMore(base, owed, i, d.outgoing);
      part := [];
    }
  }

  lemma EndGoes(envs: nat -> Env, s: bytes, i: nat, eintr: bool)
    ensures EndAt(envs, s, i, eintr).Goes? <==> i < |OwedFor(envs, s)|
  {
  }

  /** The loop itself. */
  method Loop(d: Descriptor, buf: PacketBuffer, envs: nat -> Env, stopped: nat -> bool, lucks: nat -> Luck,
              ghost s: bytes, ghost owed: seq<Frame>) returns (r: Turned, whole: nat, ghost part: bytes)
    requires buf.Valid() && s == d.incoming && owed == OwedFor(envs, s) && AllExpandable(owed)
    modifies d, buf, buf.p
    ensures d.Went() && Sent(old(d.outgoing), owed, whole, part, d.outgoing)
    ensures NeverFails(old(d.plan)) && (forall i :: !stopped(i) && AllGoesWell(lucks(i))) ==>
      whole == |owed| && r == EndAt(envs, s, whole, d.eintr)
  {
    ghost var base, plan, eintr := d.outgoing, d.plan, d.eintr;
    r, whole, part := Leaves, 0, [];
    NothingPassed(plan, eintr);
    TakenNone(s);
    SentNothing(base, owed);
    while !stopped(whole)
      invariant buf.Valid() && (buf.p == old(buf.p) || buf.p == null || fresh(buf.p))
      invariant Taken(s, whole, d.incoming) && Sent(base, owed, whole, [], d.outgoing) && part == []
      invariant Passed(plan, eintr, d.plan, d.eintr)
      decreases |owed| - whole
    {
      r, part := NextTurn(d, buf, envs, lucks(whole), whole, s, owed, base, plan, eintr);
      if !r.Goes? {
        return;
      }
      whole := whole + 1;
    }
    r := Leaves;
  }

  /**
   The whole of it, on any bytes at all. However the transfers are cut short,
   interrupted or broken off, what was sent is a number of whole replies, in the
   order they are owed, and then at most a part of the next. If nothing fails and
   the server is not stopped it is all of them; and then the thread ends, or hangs,
   as the rest of the stream and `errno` say. By `Went`, `errno` is EINTR there
   exactly if it was at first, or a call was interrupted.
   */
  method HandleClient(d: Descriptor, envs: nat -> Env, stopped: nat -> bool, lucks: nat -> Luck)
    returns (r: Turned, whole: nat, ghost part: bytes)
    modifies d
    ensures AllExpandable(OwedFor(envs, old(d.incoming)))
    ensures d.Went() && Sent(old(d.outgoing), OwedFor(envs, old(d.incoming)), whole, part, d.outgoing)
    ensures NeverFails(old(d.plan)) && (forall i :: !stopped(i) && AllGoesWell(lucks(i))) ==>
      && whole == |OwedFor(envs, old(d.incoming))|
      && r == EndAt(envs, old(d.incoming), whole, d.eintr)
  {
    var buf := new PacketBuffer();
    OwedExpandable(envs, d.incoming);
    r, whole, part := Loop(d, buf, envs, stopped, lucks, d.incoming, OwedFor(envs, d.incoming));
  }

  /**
   How the undisturbed turn on a complete request ends, from the request: it leaves
   the loop if the request is unreadable or its method throws; else the answer is
   owed, unless it is too long.
   */
  lemma RequestEnds(env: Env, s: bytes, eintr: bool)
    requires Whole(s)
    ensures var f := First(s);
      var v, r := SimpleVerdict(env, f.meta, f.req), TurnOn(env, s, eintr);
      if Unreadable(env, f.meta, f.req) || MethodThrows(env, f.meta, f.req) then r == Leaves && Owed(env, f) == []
      else
        && v.Respond?
        && var a := ReplyFrame(env.codec, v.meta, v.param);
          var n := 12 + |a.meta| + |a.req| + |a.resp|;
          if n <= 0x8000_0000 then r == Goes && Owed(env, f) == FrameBytes(a)
          else r == (if n < 0x1_0000_0000 then Hangs else Astray) && Owed(env, f) == []
  {
    var f := First(s);
    UnreadableDropped(env, f.meta, f.req);
    if !Unreadable(env, f.meta, f.req) {
      ReadableJudged(env, f.meta, f.req);
    }
  }

  /**
   How it ends on what is not a complete request: for ever if the buffer's doubling
   never gets to its length, or if the input ends and `errno` is EINTR.
   */
  lemma RemainderEnds(env: Env, t: bytes, eintr: bool)
    requires !Whole(t) && (|t| >= 12 ==> PacketLength(HeaderAt(t)) > 0x8000_0000 || Total(HeaderAt(t)) < 0x1_0000_0000)
    ensures TurnOn(env, t, eintr) ==
      if eintr || (|t| >= 12 && forall k: nat :: Doubled(FirstSize(0), k) < PacketLength(HeaderAt(t))) then Hangs else Leaves
  {
    if |t| >= 12 {
      EndlessIff(0, PacketLength(HeaderAt(t)));
    }
  }

  /** A peer that closes after an interrupted call, whatever it sent, leaves a thread that never ends. */
  lemma InterruptedThreadHangs(envs: nat -> Env, fs: seq<Frame>)
    requires AllExpandable(fs) && |Replies(Answers(envs), fs, 0)| == |fs|
    ensures EndAt(envs, StreamOf(fs), |fs|, true) == Hangs && EndAt(envs, StreamOf(fs), |fs|, false) == Leaves
  {
    assert StreamOf(fs) + [] == StreamOf(fs);
    LeadingOfStream(fs, []);
  }
}
