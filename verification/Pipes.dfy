/**
 A frame stream while it is being written: `write_n` at one end and `read_n` at the
 other take turns in any order, each call moving as little as it likes. `Transfers`
 has the two loops; here is what goes on between them.
 */
module Pipes {
  import opened Wire
  import opened Frames
  import opened Transfers

  /** The reader: frames read, the header of the next if it was read, and the part read of what comes after that. */
  datatype Reader = Reader(got: seq<Frame>, head: Option<Header>, part: bytes)

  /** What is still to be written, what was written and not read, and the reader. */
  datatype Pipe = Pipe(left: bytes, fifo: bytes, reader: Reader)

  /** How much the `read_n` that the reader is in still wants: four bytes for each length, then the payload. */
  function Wants(r: Reader): int {
    match r.head
    case None => 4 - |r.part| % 4
    case Some(h) => PayloadLength(h) - |r.part|
  }

  /** What the reader makes of a part it has in full. */
  function Settled(r: Reader): Reader {
    match r.head
    case None =>
      if |r.part| != HEADER_SIZE then r else Served(r.(head := Some(ReadHeader(r.part)), part := []))
    case Some(h) => Served(r)
  }

  /** A payload that is all there, even if it is empty, ends its frame. */
  function Served(r: Reader): Reader
    requires r.head.Some?
  {
    var h := r.head.value;
    if |r.part| == h.rpcLen + h.reqLen + h.respLen then Reader(r.got + [Cut(h, r.part)], None, []) else r
  }

  /** One call at either end; one that is interrupted moves nothing, and a read of an empty stream waits. */
  datatype Turn = Put(m: nat) | Get(m: nat)

  predicate May(s: Pipe, t: Turn) {
    match t
    case Put(m) => m <= |s.left|
    case Get(m) => m <= Wants(s.reader) && m <= |s.fifo|
  }

  function Move(s: Pipe, t: Turn): Pipe
    requires May(s, t)
  {
    match t
    case Put(m) => s.(left := s.left[m..], fifo := s.fifo + s.left[..m])
    case Get(m) => s.(fifo := s.fifo[m..], reader := Settled(s.reader.(part := s.reader.part + s.fifo[..m])))
  }

  predicate Runs(s: Pipe, ts: seq<Turn>, s': Pipe)
    decreases |ts|
  {
    if ts == [] then s == s' else May(s, ts[0]) && Runs(Move(s, ts[0]), ts[1..], s')
  }

  function Begin(fs: seq<Frame>): Pipe
    requires AllFit(fs)
  {
    Pipe(StreamOf(fs), [], Reader([], None, []))
  }

  /* The invariant. */

  /** `rest` are the bytes after those the reader has taken off the stream. */
  ghost predicate ReaderOk(fs: seq<Frame>, r: Reader, rest: bytes)
    requires AllFit(fs)
  {
    && r.got <= fs
    && match r.head
       case None => |r.part| < HEADER_SIZE && r.part + rest == StreamOf(fs[|r.got|..])
       case Some(h) =>
         && |r.got| < |fs| && h == HeaderOf(fs[|r.got|]) && |r.part| < |Payload(fs[|r.got|])|
         && r.part + rest == Payload(fs[|r.got|]) + StreamOf(fs[|r.got| + 1..])
  }

  ghost predicate PipeOk(fs: seq<Frame>, s: Pipe)
    requires AllFit(fs)
  {
    ReaderOk(fs, s.reader, s.fifo + s.left)
  }

  lemma PutKeeps(fs: seq<Frame>, s: Pipe, m: nat)
    requires AllFit(fs) && PipeOk(fs, s) && m <= |s.left|
    ensures PipeOk(fs, Move(s, Put(m)))
  {
    assert s.fifo + s.left[..m] + s.left[m..] == s.fifo + s.left;
  }

  /** The reader took one more part of what its `read_n` wants, and has not looked at it yet. */
  ghost predicate Taken(fs: seq<Frame>, r: Reader, rest: bytes)
    requires AllFit(fs)
  {
    && r.got <= fs
    && match r.head
       case None => |r.part| <= HEADER_SIZE && r.part + rest == StreamOf(fs[|r.got|..])
       case Some(h) =>
         && |r.got| < |fs| && h == HeaderOf(fs[|r.got|]) && |r.part| <= |Payload(fs[|r.got|])|
         && r.part + rest == Payload(fs[|r.got|]) + StreamOf(fs[|r.got| + 1..])
  }

  lemma WantsWithin(fs: seq<Frame>, r: Reader, rest: bytes, m: nat)
    requires AllFit(fs) && ReaderOk(fs, r, rest) && m <= Wants(r) && m <= |rest|
    ensures Taken(fs, r.(part := r.part + rest[..m]), rest[m..])
  {
    assert r.part + rest[..m] + rest[m..] == r.part + rest;
    if r.head.None? {
      assert |r.part| + 4 - |r.part| % 4 <= HEADER_SIZE;
    } else {
      CutPayload(fs[|r.got|]);
    }
  }

  /** A frame's payload is complete, or still lacks something. */
  lemma ServedKeeps(fs: seq<Frame>, r: Reader, rest: bytes)
    requires AllFit(fs) && Taken(fs, r, rest) && r.head.Some?
    ensures ReaderOk(fs, Served(r), rest)
  {
    var k := |r.got|;
    CutPayload(fs[k]);
    if |r.part| == |Payload(fs[k])| {
      SameSplit(r.part, rest, Payload(fs[k]), StreamOf(fs[k + 1..]));
      assert r.got + [fs[k]] == fs[..k + 1];
      assert [] + rest == rest;
    }
  }

  lemma HeaderTaken(fs: seq<Frame>, r: Reader, rest: bytes)
    requires AllFit(fs) && Taken(fs, r, rest) && r.head.None? && |r.part| == HEADER_SIZE
    ensures Taken(fs, r.(head := Some(ReadHeader(r.part)), part := []), rest)
  {
    var gs := fs[|r.got|..];
    StreamFront(gs);
    HeaderRoundTrip(HeaderOf(gs[0]));
    SameSplit(r.part, rest, HeaderBytes(HeaderOf(gs[0])), Payload(gs[0]) + StreamOf(gs[1..]));
    assert gs[1..] == fs[|r.got| + 1..];
    assert [] + rest == rest;
  }

  lemma SettledKeeps(fs: seq<Frame>, r: Reader, rest: bytes)
    requires AllFit(fs) && Taken(fs, r, rest)
    ensures ReaderOk(fs, Settled(r), rest)
  {
    if r.head.None? && |r.part| == HEADER_SIZE {
      HeaderTaken(fs, r, rest);
      ServedKeeps(fs, r.(head := Some(ReadHeader(r.part)), part := []), rest);
    } else if r.head.Some? {
      ServedKeeps(fs, r, rest);
    }
  }

  lemma GetKeeps(fs: seq<Frame>, s: Pipe, m: nat)
    requires AllFit(fs) && PipeOk(fs, s) && May(s, Get(m))
    ensures PipeOk(fs, Move(s, Get(m)))
  {
    var rest := s.fifo + s.left;
    WantsWithin(fs, s.reader, rest, m);
    assert rest[..m] == s.fifo[..m] && rest[m..] == s.fifo[m..] + s.left;
    SettledKeeps(fs, s.reader.(part := s.reader.part + s.fifo[..m]), rest[m..]);
  }

  lemma {:induction false} RunKeeps(fs: seq<Frame>, s: Pipe, ts: seq<Turn>, s': Pipe)
    requires AllFit(fs) && PipeOk(fs, s) && Runs(s, ts, s')
    ensures PipeOk(fs, s')
    decreases |ts|
  {
    if ts != [] {
      match ts[0] {
        case Put(m) => PutKeeps(fs, s, m);
        case Get(m) => GetKeeps(fs, s, m);
      }
      RunKeeps(fs, Move(s, ts[0]), ts[1..], s');
    }
  }

  lemma BeginOk(fs: seq<Frame>)
    requires AllFit(fs)
    ensures PipeOk(fs, Begin(fs))
  {
    assert fs[0..] == fs;
    assert [] + ([] + StreamOf(fs)) == StreamOf(fs);
  }

  /* What it means. */

  /** Bytes still to be moved, counted once for each end. */
  function Work(s: Pipe): nat {
    2 * |s.left| + |s.fifo|
  }

  /** A call that moves something leaves less to do, by what it moved. */
  lemma MovesLess(s: Pipe, t: Turn)
    requires May(s, t)
    ensures Work(Move(s, t)) == Work(s) - t.m
  {
  }

  /** The `read_n` that the reader is in is never over. */
  lemma AlwaysWants(fs: seq<Frame>, s: Pipe)
    requires AllFit(fs) && PipeOk(fs, s)
    ensures Wants(s.reader) > 0
  {
    if s.reader.head.Some? {
      CutPayload(fs[|s.reader.got|]);
    }
  }

  /**
   However the two ends take turns, what has been read is the first frames written,
   unchanged. While any is missing one of the ends can move on; if the writer stops,
   the reader gets all frames that were written whole.
   */
  lemma FramesArrive(fs: seq<Frame>, ts: seq<Turn>, s: Pipe)
    requires AllFit(fs) && Runs(Begin(fs), ts, s)
    ensures s.reader.got <= fs
    ensures s.reader.got != fs ==> May(s, Put(1)) || May(s, Get(1))
    ensures s.fifo == [] && s.reader.got != fs ==> |s.left| > |StreamOf(fs[|s.reader.got| + 1..])|
  {
    BeginOk(fs);
    RunKeeps(fs, Begin(fs), ts, s);
    AlwaysWants(fs, s);
    if s.reader.got != fs {
      MoreToCome(fs, s);
    }
  }

  lemma MoreToCome(fs: seq<Frame>, s: Pipe)
    requires AllFit(fs) && PipeOk(fs, s) && |s.reader.got| < |fs|
    ensures |s.fifo| + |s.left| > |StreamOf(fs[|s.reader.got| + 1..])|
  {
    var k := |s.reader.got|;
    if s.reader.head.None? {
      StreamFront(fs[k..]);
      assert fs[k..][1..] == fs[k + 1..];
      assert |s.reader.part + (s.fifo + s.left)| == |StreamOf(fs[k..])|;
    } else {
      assert |s.reader.part + (s.fifo + s.left)| == |Payload(fs[k])| + |StreamOf(fs[k + 1..])|;
    }
  }

  /** Once everything was written and read, everything has arrived. */
  lemma AllArrive(fs: seq<Frame>, ts: seq<Turn>, s: Pipe)
    requires AllFit(fs) && Runs(Begin(fs), ts, s) && Work(s) == 0
    ensures s.reader.got == fs
  {
    FramesArrive(fs, ts, s);
  }
}
