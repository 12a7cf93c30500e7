/**
 `read_n` and `write_n` of utils.cpp over a descriptor that may move fewer bytes
 than asked, be interrupted, or fail; and the frame stream carried over them.
 Both loops test `errno` after any call that moved nothing, also after an end of
 file, which leaves `errno` as an earlier call set it.
 */
module Transfers {
  import opened Wire
  import opened Frames
  import opened Buffers

  /** What one system call does: it moves at most `k + 1` bytes, or fails and sets `errno`. */
  datatype Outcome = Moved(k: nat) | Failed(interrupted: bool)

  predicate NeverFails(plan: seq<Outcome>) {
    forall i | 0 <= i < |plan| :: plan[i].Failed? ==> plan[i].interrupted
  }

  function Min(a: nat, b: nat): nat {
    if a < b then a else b
  }

  /* One call; when `plan` is used up, every call moves all it can. */

  function Rest(plan: seq<Outcome>): seq<Outcome> {
    if plan == [] then [] else plan[1..]
  }

  /** How many bytes a call moves that may move `most`. */
  function Bytes(plan: seq<Outcome>, most: nat): (m: nat)
    ensures m <= most
  {
    if plan == [] then most
    else match plan[0]
      case Moved(k) => Min(k + 1, most)
      case Failed(_) => 0
  }

  /** Whether `errno` is EINTR after the call. */
  function ErrnoAfter(plan: seq<Outcome>, eintr: bool): bool {
    if plan != [] && plan[0].Failed? then plan[0].interrupted else eintr
  }

  /* The loop of read_n, turn by turn. */

  /** `left` bytes are still wanted and `avail` are left in the stream. */
  datatype Reading = Reading(left: nat, avail: nat, plan: seq<Outcome>, eintr: bool) | Ended(ok: bool)

  function ReadTurn(s: Reading): Reading {
    match s
    case Ended(_) => s
    case Reading(left, avail, plan, eintr) =>
      if left == 0 then Ended(true)
      else
        var m := Bytes(plan, Min(left, avail));
        if m == 0 && !ErrnoAfter(plan, eintr) then Ended(false)
        else Reading(left - m, avail - m, Rest(plan), ErrnoAfter(plan, eintr))
  }

  function ReadTurns(s: Reading, k: nat): Reading
    decreases k
  {
    if k == 0 then s else ReadTurns(ReadTurn(s), k - 1)
  }

  /** Whether `errno` is EINTR when a call first finds the end of `avail` bytes. */
  function ErrnoAtEnd(avail: nat, plan: seq<Outcome>, eintr: bool): bool
    decreases |plan|
  {
    if plan == [] || (avail == 0 && plan[0].Moved?) then eintr
    else ErrnoAtEnd(avail - Bytes(plan, avail), plan[1..], ErrnoAfter(plan, eintr))
  }

  /** The bytes are there, or a failure other than EINTR comes, or `errno` is not EINTR at the end. */
  predicate Returns(left: nat, avail: nat, plan: seq<Outcome>, eintr: bool) {
    left <= avail || !NeverFails(plan) || !ErrnoAtEnd(avail, plan, eintr)
  }

  lemma NeverFailsRest(plan: seq<Outcome>)
    requires plan != []
    ensures NeverFails(plan) <==> NeverFails(plan[1..]) && (plan[0].Failed? ==> plan[0].interrupted)
  {
    assert plan == [plan[0]] + plan[1..];
  }

  /** Once `errno` is EINTR it stays so while nothing else fails. */
  lemma {:induction false} ErrnoStays(avail: nat, plan: seq<Outcome>)
    requires NeverFails(plan)
    ensures ErrnoAtEnd(avail, plan, true)
    decreases |plan|
  {
    if plan != [] {
      NeverFailsRest(plan);
      if !(avail == 0 && plan[0].Moved?) {
        ErrnoStays(avail - Bytes(plan, avail), plan[1..]);
      }
    }
  }

  /** A turn that goes on changes nothing about whether the loop returns. */
  lemma TurnKeeps(left: nat, avail: nat, plan: seq<Outcome>, eintr: bool)
    requires left > 0
    ensures var s := ReadTurn(Reading(left, avail, plan, eintr));
      if s.Ended? then Returns(left, avail, plan, eintr)
      else Returns(left, avail, plan, eintr) <==> Returns(s.left, s.avail, s.plan, s.eintr)
  {
    if plan != [] {
      NeverFailsRest(plan);
      if plan[0].Moved? && avail == 0 && eintr && NeverFails(plan) {
        ErrnoStays(0, plan[1..]);
      }
    }
  }

  lemma {:induction false} Ends(left: nat, avail: nat, plan: seq<Outcome>, eintr: bool) returns (k: nat)
    requires Returns(left, avail, plan, eintr)
    ensures ReadTurns(Reading(left, avail, plan, eintr), k).Ended?
    decreases |plan|, left
  {
    var s := ReadTurn(Reading(left, avail, plan, eintr));
    if s.Ended? {
      k := 1;
      assert ReadTurns(s, 0).Ended?;
    } else {
      TurnKeeps(left, avail, plan, eintr);
      var j := Ends(s.left, s.avail, s.plan, s.eintr);
      k := j + 1;
    }
  }

  lemma {:induction false} NeverEnds(left: nat, avail: nat, plan: seq<Outcome>, eintr: bool, k: nat)
    requires !Returns(left, avail, plan, eintr)
    ensures !ReadTurns(Reading(left, avail, plan, eintr), k).Ended?
    decreases k
  {
    if k > 0 {
      TurnKeeps(left, avail, plan, eintr);
      var s := ReadTurn(Reading(left, avail, plan, eintr));
      NeverEnds(s.left, s.avail, s.plan, s.eintr, k - 1);
    }
  }

  /**
   `read_n` returns if and only if the bytes are there, or a failure other than
   EINTR comes, or `errno` is not EINTR when the end is reached.
   */
  lemma ReadReturnsIff(left: nat, avail: nat, plan: seq<Outcome>, eintr: bool)
    ensures (exists k: nat :: ReadTurns(Reading(left, avail, plan, eintr), k).Ended?)
      <==> Returns(left, avail, plan, eintr)
  {
    if Returns(left, avail, plan, eintr) {
      var k := Ends(left, avail, plan, eintr);
    } else {
      forall k: nat ensures !ReadTurns(Reading(left, avail, plan, eintr), k).Ended? {
        NeverEnds(left, avail, plan, eintr, k);
      }
    }
  }

  /** One interrupted call, then the end of the file: `read_n` of one byte never returns. */
  lemma ReadMaySpin(k: nat)
    ensures !ReadTurns(Reading(1, 0, [Failed(true)], false), k).Ended?
  {
    var plan := [Failed(true)];
    assert plan[1..] == [];
    NeverEnds(1, 0, plan, false, k);
  }

  /* What the calls made leave of the plan and of errno. */

  predicate Interrupts(plan: seq<Outcome>) {
    exists i :: 0 <= i < |plan| && plan[i].Failed?
  }

  /** Calls were made from the front of `plan`; if none failed otherwise, `errno` is EINTR if it was, or one was interrupted. */
  predicate Passed(plan: seq<Outcome>, eintr: bool, plan': seq<Outcome>, eintr': bool) {
    && |plan'| <= |plan| && plan' == plan[|plan| - |plan'|..]
    && (NeverFails(plan) ==>
          NeverFails(plan') && (eintr' <==> eintr || Interrupts(plan[..|plan| - |plan'|])))
  }

  lemma PassedOne(plan: seq<Outcome>, eintr: bool)
    ensures Passed(plan, eintr, Rest(plan), ErrnoAfter(plan, eintr))
  {
    if plan != [] {
      NeverFailsRest(plan);
      assert plan[..1] == [plan[0]];
    }
  }

  lemma NothingPassed(plan: seq<Outcome>, eintr: bool)
    ensures Passed(plan, eintr, plan, eintr)
  {
  }

  lemma PassedTrans(p: seq<Outcome>, e: bool, p': seq<Outcome>, e': bool, p'': seq<Outcome>, e'': bool)
    requires Passed(p, e, p', e') && Passed(p', e', p'', e'')
    ensures Passed(p, e, p'', e'')
  {
    var a, b := |p| - |p'|, |p'| - |p''|;
    assert p'[..b] == p[a..a + b];
    assert p[..a + b] == p[..a] + p[a..a + b];
    InterruptsJoin(p[..a], p[a..a + b]);
  }

  lemma InterruptsJoin(a: seq<Outcome>, b: seq<Outcome>)
    ensures Interrupts(a + b) <==> Interrupts(a) || Interrupts(b)
  {
    if i :| 0 <= i < |a| && a[i].Failed? {
      assert (a + b)[i].Failed?;
    }
    if i :| 0 <= i < |b| && b[i].Failed? {
      assert (a + b)[|a| + i].Failed?;
    }
  }

  /** All bytes moved, or failure, or a loop that never returns. */
  datatype Transfer = Done | Broken | Spins

  /**
   One end of a byte stream, and `errno` of the thread that uses it. `incoming` is
   all that is still to come; a read while only some of it is there moves no more
   than that.
   */
  class Descriptor {
    var incoming: bytes
    var outgoing: bytes
    var plan: seq<Outcome>
    var eintr: bool

    constructor (incoming: bytes, plan: seq<Outcome>, eintr: bool)
      ensures this.incoming == incoming && this.plan == plan && this.eintr == eintr && outgoing == []
    {
      this.incoming, this.plan, this.eintr, outgoing := incoming, plan, eintr, [];
    }

    /** The rest of every contract: where the plan and `errno` are after the calls. */
    twostate predicate Went()
      reads this
    {
      Passed(old(plan), old(eintr), plan, eintr)
    }

    /** `::read`; only a failing call writes `errno`. */
    method Read(want: nat) returns (got: bytes)
      modifies this
      ensures outgoing == old(outgoing)
      ensures |got| == Bytes(old(plan), Min(want, |old(incoming)|))
      ensures got == old(incoming)[..|got|] && incoming == old(incoming)[|got|..]
      ensures plan == Rest(old(plan)) && eintr == ErrnoAfter(old(plan), old(eintr))
    {
      var m := Bytes(plan, Min(want, |incoming|));
      if plan != [] {
        if plan[0].Failed? {
          eintr := plan[0].interrupted;
        }
        plan := plan[1..];
      }
      got, incoming := incoming[..m], incoming[m..];
    }

    /** `::write` */
    method Write(data: bytes) returns (moved: nat)
      modifies this
      ensures incoming == old(incoming)
      ensures moved == Bytes(old(plan), |data|) && outgoing == old(outgoing) + data[..moved]
      ensures plan == Rest(old(plan)) && eintr == ErrnoAfter(old(plan), old(eintr))
    {
      moved := Bytes(plan, |data|);
      if plan != [] {
        if plan[0].Failed? {
          eintr := plan[0].interrupted;
        }
        plan := plan[1..];
      }
      outgoing := outgoing + data[..moved];
    }

    /** One turn of `read_n`: it goes on, or breaks off, or would repeat this call for ever. */
    method ReadOnce(left: nat) returns (got: bytes, r: Transfer)
      requires 0 < left
      modifies this
      ensures outgoing == old(outgoing) && Went()
      ensures |got| <= left && |got| <= |old(incoming)|
      ensures got == old(incoming)[..|got|] && incoming == old(incoming)[|got|..]
      ensures r.Done? ==> |got| > 0 || |plan| < |old(plan)|
      ensures r.Done? ==>
        (Returns(left - |got|, |incoming|, plan, eintr) <==> Returns(left, |old(incoming)|, old(plan), old(eintr)))
      ensures r.Broken? ==> got == [] && !eintr && Returns(left, |old(incoming)|, old(plan), old(eintr))
      ensures r.Broken? && NeverFails(old(plan)) ==> old(incoming) == []
      ensures r.Spins? ==> got == [] && eintr && !Returns(left, |old(incoming)|, old(plan), old(eintr))
    {
      TurnKeeps(left, |incoming|, plan, eintr);
      PassedOne(plan, eintr);
      var last := plan == [];
      got := Read(left);
      if got == [] && !eintr {
        r := Broken;
      } else if got == [] && last {
        r := Spins;
      } else {
        r := Done;
      }
    }

    /** `read_n`: all `n` bytes, or failure with some prefix consumed. */
    method ReadN(buf: array<byte>, at: nat, n: nat) returns (r: Transfer)
      requires at + n <= buf.Length
      modifies this, buf
      ensures outgoing == old(outgoing) && Went()
      ensures buf[..at] == old(buf[..at]) && buf[at + n..] == old(buf[at + n..])
      ensures r.Done? ==> buf[at..at + n] + incoming == old(incoming)
      ensures !r.Done? ==> exists k: nat :: k < n && k <= |old(incoming)| && incoming == old(incoming)[k..]
      ensures r.Spins? <==> !Returns(n, |old(incoming)|, old(plan), old(eintr))
      ensures NeverFails(old(plan)) ==> (r.Done? <==> n <= |old(incoming)|)
      ensures (r.Broken? ==> !eintr) && (r.Spins? ==> eintr)
    {
      var n0 := 0;
      NothingPassed(plan, eintr);
      while n0 < n
        invariant 0 <= n0 <= n && n0 <= |old(incoming)|
        invariant outgoing == old(outgoing) && Went()
        invariant incoming == old(incoming)[n0..] && buf[at..at + n0] == old(incoming)[..n0]
        invariant buf[..at] == old(buf[..at]) && buf[at + n..] == old(buf[at + n..])
        invariant Returns(n - n0, |incoming|, plan, eintr) <==> Returns(n, |old(incoming)|, old(plan), old(eintr))
        decreases n - n0, |plan|
      {
        ghost var p, e := plan, eintr;
        var got;
        got, r := ReadOnce(n - n0);
        PassedTrans(old(plan), old(eintr), p, e, plan, eintr);
        if !r.Done? {
          return;
        }
        Fill(buf, at, n0, n, got, old(incoming));
        n0 := n0 + |got|;
      }
      return Done;
    }

    /** One turn of `write_n`; a write of some bytes never returns 0. */
    method WriteOnce(data: bytes) returns (moved: nat, ok: bool)
      requires data != []
      modifies this
      ensures incoming == old(incoming) && Went()
      ensures moved <= |data| && outgoing == old(outgoing) + data[..moved]
      ensures ok ==> moved > 0 || |plan| < |old(plan)|
      ensures !ok ==> moved == 0 && !NeverFails(old(plan))
    {
      PassedOne(plan, eintr);
      moved := Write(data);
      ok := moved > 0 || eintr;
    }

    /** `write_n`: all of `data`, or failure with some prefix sent. */
    method WriteN(data: bytes) returns (ok: bool)
      modifies this
      ensures incoming == old(incoming) && Went()
      ensures ok ==> outgoing == old(outgoing) + data
      ensures !ok ==> exists k: nat :: k < |data| && outgoing == old(outgoing) + data[..k]
      ensures NeverFails(old(plan)) ==> ok
    {
      var n0 := 0;
      NothingPassed(plan, eintr);
      while n0 < |data|
        invariant 0 <= n0 <= |data|
        invariant incoming == old(incoming) && Went()
        invariant outgoing == old(outgoing) + data[..n0]
        decreases |data| - n0, |plan|
      {
        ghost var p, e := plan, eintr;
        var moved;
        moved, ok := WriteOnce(data[n0..]);
        PassedTrans(old(plan), old(eintr), p, e, plan, eintr);
        if !ok {
          return;
        }
        assert data[..n0] + data[n0..][..moved] == data[..n0 + moved];
        n0 := n0 + moved;
      }
      assert data[..n0] == data;
      return true;
    }

    /** Three reads of one length each, as the simple and the threaded server do. */
    method ReceiveHeader() returns (r: Transfer, h: Header)
      modifies this
      ensures outgoing == old(outgoing) && Went()
      ensures r.Done? ==> |old(incoming)| >= HEADER_SIZE
      ensures r.Done? ==> h == ReadHeader(old(incoming)[..HEADER_SIZE]) && incoming == old(incoming)[HEADER_SIZE..]
      ensures NeverFails(old(plan)) ==> (r.Done? <==> |old(incoming)| >= HEADER_SIZE)
      ensures (r.Broken? ==> !eintr) && (r.Spins? ==> eintr && |old(incoming)| < HEADER_SIZE)
    {
      h := Header(0, 0, 0);
      ghost var s := incoming;
      var head := new byte[HEADER_SIZE];
      r := ReceiveLengths(head);
      if r.Done? {
        assert s[..HEADER_SIZE] == head[..] && s[HEADER_SIZE..] == incoming;
        h := ReadHeader(head[..]);
      }
    }

    method ReceiveLengths(head: array<byte>) returns (r: Transfer)
      requires head.Length == HEADER_SIZE
      modifies this, head
      ensures outgoing == old(outgoing) && Went()
      ensures r.Done? ==> old(incoming) == head[..] + incoming
      ensures NeverFails(old(plan)) ==> (r.Done? <==> |old(incoming)| >= HEADER_SIZE)
      ensures (r.Broken? ==> !eintr) && (r.Spins? ==> eintr && |old(incoming)| < HEADER_SIZE)
    {
      ghost var s, p, e := incoming, plan, eintr;
      r := ReadN(head, 0, 4);
      if !r.Done? { return; }
      ghost var a, s1, p1, e1 := head[0..4], incoming, plan, eintr;
      r := ReadN(head, 4, 4);
      PassedTrans(p, e, p1, e1, plan, eintr);
      if !r.Done? { return; }
      ghost var b, s2, p2, e2 := head[4..8], incoming, plan, eintr;
      assert head[0..4] == head[..4] == a;
      r := ReadN(head, 8, 4);
      PassedTrans(p, e, p2, e2, plan, eintr);
      if !r.Done? { return; }
      assert head[..8] == a + b;
      assert head[..] == a + b + head[8..12];
      ThreeParts(s, a, s1, b, s2, head[8..12], incoming);
    }

    method ReceivePayload(n: nat) returns (r: Transfer, data: bytes)
      modifies this
      ensures outgoing == old(outgoing) && Went()
      ensures r.Done? ==> |data| == n && data + incoming == old(incoming)
      ensures r.Spins? ==> |old(incoming)| < n
      ensures NeverFails(old(plan)) ==> (r.Done? <==> |old(incoming)| >= n)
    {
      data := [];
      var buf := new byte[n];
      r := ReadN(buf, 0, n);
      if r.Done? {
        data := buf[..];
        assert data == buf[0..n];
      }
    }

    /** One frame off the front of a stream of frames, whatever comes behind them: its lengths, then its payload. */
    method ReceiveFrame(ghost expected: seq<Frame>, ghost behind: bytes) returns (ok: bool, f: Frame)
      requires expected != [] && AllFit(expected) && incoming == StreamOf(expected) + behind
      modifies this
      ensures outgoing == old(outgoing)
      ensures ok ==> f == expected[0] && incoming == StreamOf(expected[1..]) + behind
      ensures NeverFails(old(plan)) ==> ok && NeverFails(plan)
    {
      FrontOf(expected, behind);
      CutPayload(expected[0]);
      f := Frame([], [], []);
      var r, h := ReceiveHeader();
      ok := r.Done?;
      if !ok { return; }
      var data;
      r, data := ReceivePayload(PayloadLength(h));
      ok := r.Done?;
      if !ok { return; }
      SameSplit(data, incoming, Payload(expected[0]), StreamOf(expected[1..]) + behind);
      f := Cut(h, data);
    }
  }

  lemma FrontOf(fs: seq<Frame>, behind: bytes)
    requires fs != [] && AllFit(fs)
    ensures var s := StreamOf(fs) + behind;
      && |s| >= HEADER_SIZE && ReadHeader(s[..HEADER_SIZE]) == HeaderOf(fs[0])
      && s[HEADER_SIZE..] == Payload(fs[0]) + (StreamOf(fs[1..]) + behind)
  {
    StreamFront(fs);
    HeaderRoundTrip(HeaderOf(fs[0]));
    MoreBehind(StreamOf(fs), HeaderBytes(HeaderOf(fs[0])), Payload(fs[0]), StreamOf(fs[1..]), behind);
  }

  lemma MoreBehind(s: bytes, h: bytes, p: bytes, t: bytes, behind: bytes)
    requires |s| >= |h| && s[..|h|] == h && s[|h|..] == p + t
    ensures (s + behind)[..|h|] == h && (s + behind)[|h|..] == p + (t + behind)
  {
  }

  /** What a call read goes behind what is there. */
  method Fill(buf: array<byte>, at: nat, n0: nat, ghost n: nat, got: bytes, ghost stream: bytes)
    requires n0 + |got| <= n && at + n <= buf.Length && n0 + |got| <= |stream|
    requires buf[at..at + n0] == stream[..n0] && got == stream[n0..][..|got|]
    modifies buf
    ensures buf[at..at + n0 + |got|] == stream[..n0 + |got|]
    ensures buf[..at] == old(buf[..at]) && buf[at + n..] == old(buf[at + n..])
  {
    ghost var was := buf[..];
    CopyInto(buf, at + n0, got);
    Filled(was, buf[..], at, n0, |got|, n, stream);
  }

  /** The part of a buffer already read, after one more call. */
  lemma Filled(was: bytes, now: bytes, at: nat, n0: nat, m: nat, n: nat, stream: bytes)
    requires n0 + m <= n && at + n <= |was| == |now| && n0 + m <= |stream|
    requires now[..at + n0] == was[..at + n0] && now[at + n0 + m..] == was[at + n0 + m..]
    requires was[at..at + n0] == stream[..n0] && now[at + n0..at + n0 + m] == stream[n0..][..m]
    ensures now[at..at + n0 + m] == stream[..n0 + m]
    ensures now[..at] == was[..at] && now[at + n..] == was[at + n..]
  {
    assert now[at..at + n0] == now[..at + n0][at..] == was[at..at + n0];
    assert now[at..at + n0 + m] == now[at..at + n0] + now[at + n0..at + n0 + m];
    assert stream[..n0 + m] == stream[..n0] + stream[n0..][..m];
    assert now[..at] == now[..at + n0][..at] && was[..at] == was[..at + n0][..at];
    var d := n - n0 - m;
    assert now[at + n..] == now[at + n0 + m..][d..] && was[at + n..] == was[at + n0 + m..][d..];
  }

  lemma ThreeParts(s: bytes, a: bytes, r: bytes, b: bytes, r': bytes, c: bytes, r'': bytes)
    requires s == a + r && r == b + r' && r' == c + r''
    ensures s == a + b + c + r''
  {
  }

  lemma SameSplit(a: bytes, b: bytes, c: bytes, d: bytes)
    requires a + b == c + d && |a| == |c|
    ensures a == c && b == d
  {
    assert a == (a + b)[..|a|] && b == (a + b)[|a|..];
    assert c == (c + d)[..|c|] && d == (c + d)[|c|..];
  }

  /**
   Frames written with `write_n` and read back with `read_n` arrive as the same
   list, however both sides' calls are cut short or interrupted. If a write breaks
   off, it is the frames written before that one that arrive, whatever was sent of it.
   */
  method CarryFrames(fs: seq<Frame>, writePlan: seq<Outcome>, readPlan: seq<Outcome>, eintr: bool)
    returns (written: nat, got: seq<Frame>)
    requires AllFit(fs)
    ensures written <= |fs| && got <= fs[..written]
    ensures NeverFails(writePlan) ==> written == |fs|
    ensures NeverFails(readPlan) ==> got == fs[..written]
  {
    var stream;
    written, stream := WriteFrames(fs, writePlan);
    ghost var whole := StreamOf(fs[..written]);
    assert stream == whole + stream[|whole|..];
    got := ReadFrames(fs[..written], stream[|whole|..], written, stream, readPlan, eintr);
  }

  method WriteFrames(fs: seq<Frame>, plan: seq<Outcome>) returns (written: nat, stream: bytes)
    requires AllFit(fs)
    ensures written <= |fs| && StreamOf(fs[..written]) <= stream
    ensures written < |fs| ==> |stream| < |StreamOf(fs[..written])| + |FrameBytes(fs[written])|
    ensures written == |fs| ==> stream == StreamOf(fs)
    ensures NeverFails(plan) ==> written == |fs|
  {
    var sender := new Descriptor([], plan, false);
    written := 0;
    while written < |fs|
      invariant 0 <= written <= |fs|
      invariant sender.outgoing == StreamOf(fs[..written])
      invariant NeverFails(plan) ==> NeverFails(sender.plan)
    {
      var ok := sender.WriteN(FrameBytes(fs[written]));
      if !ok {
        return written, sender.outgoing;
      }
      StreamGrows(fs, written);
      written := written + 1;
    }
    assert fs[..written] == fs;
    return written, sender.outgoing;
  }

  /** Reads as many frames as there are. */
  method ReadFrames(ghost fs: seq<Frame>, ghost behind: bytes, count: nat, stream: bytes, plan: seq<Outcome>, eintr: bool)
    returns (got: seq<Frame>)
    requires AllFit(fs) && count == |fs| && stream == StreamOf(fs) + behind
    ensures got <= fs && (NeverFails(plan) ==> got == fs)
  {
    got := [];
    var receiver := new Descriptor(stream, plan, eintr);
    while |got| < count
      invariant |got| <= count && got == fs[..|got|]
      invariant receiver.incoming == StreamOf(fs[|got|..]) + behind
      invariant NeverFails(plan) ==> NeverFails(receiver.plan)
    {
      var ok, f := receiver.ReceiveFrame(fs[|got|..], behind);
      if !ok { return; }
      assert fs[|got|..][1..] == fs[|got| + 1..];
      got := got + [f];
    }
    assert fs[..|got|] == fs;
  }

  lemma StreamGrows(fs: seq<Frame>, i: nat)
    requires i < |fs| && AllFit(fs)
    ensures StreamOf(fs[..i + 1]) == StreamOf(fs[..i]) + FrameBytes(fs[i])
  {
    assert fs[..i + 1] == fs[..i] + [fs[i]];
    StreamAppends(fs[..i], [fs[i]]);
    assert [fs[i]][1..] == [];
    assert FrameBytes(fs[i]) + [] == FrameBytes(fs[i]);
  }
}
