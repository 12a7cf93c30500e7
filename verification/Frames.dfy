/**
 The frame of packet.h: three 32-bit lengths in network byte order, then the
 bytes they measure.
 */
module Frames {
  import opened Wire

  datatype Header = Header(rpcLen: uint32, reqLen: uint32, respLen: uint32)

  const HEADER_SIZE: nat := 12

  /* The conversion macros, on a little-endian host. */

  function Reversed(s: bytes): (r: bytes)
    ensures |r| == |s|
  {
    if s == [] then [] else Reversed(s[1..]) + [s[0]]
  }

  lemma {:induction false} ReversedAppend(s: bytes, b: byte)
    ensures Reversed(s + [b]) == [b] + Reversed(s)
  {
    if s == [] {
      assert s + [b] == [b];
      assert [b][1..] == [];
    } else {
      ReversedAppend(s[1..], b);
      assert (s + [b])[1..] == s[1..] + [b];
    }
  }

  lemma {:induction false} ReversedTwice(s: bytes)
    ensures Reversed(Reversed(s)) == s
  {
    if s != [] {
      ReversedTwice(s[1..]);
      ReversedAppend(Reversed(s[1..]), s[0]);
    }
  }

  /** `htonl` and `ntohl`: the value whose memory is the mirror image. */
  function SwapBytes(v: uint32): uint32 {
    Pow256Values();
    FromLittleEndianBound(Reversed(LittleEndian(v, 4)));
    FromLittleEndian(Reversed(LittleEndian(v, 4)))
  }

  lemma {:induction false} LittleEndianOf(s: bytes)
    ensures LittleEndian(FromLittleEndian(s), |s|) == s
  {
    if s != [] {
      LittleEndianOf(s[1..]);
    }
  }

  lemma SwapMemory(v: uint32)
    ensures LittleEndian(SwapBytes(v), 4) == Reversed(LittleEndian(v, 4))
    ensures SwapBytes(SwapBytes(v)) == v
  {
    var m := LittleEndian(v, 4);
    LittleEndianOf(Reversed(m));
    ReversedTwice(m);
    Pow256Values();
    LittleEndianRoundTrip(v, 4);
  }

  /** CONVERT_TO_NETWORK_ORDER and CONVERT_TO_HOST_ORDER. */
  function SwapHeader(h: Header): Header {
    Header(SwapBytes(h.rpcLen), SwapBytes(h.reqLen), SwapBytes(h.respLen))
  }

  /** The packet struct as it lies in memory. */
  function Memory(h: Header): (r: bytes)
    ensures |r| == HEADER_SIZE
  {
    LittleEndian(h.rpcLen, 4) + LittleEndian(h.reqLen, 4) + LittleEndian(h.respLen, 4)
  }

  function FromMemory(s: bytes): Header
    requires |s| == HEADER_SIZE
  {
    Header(FromFixed32(s[..4]), FromFixed32(s[4..8]), FromFixed32(s[8..]))
  }

  function HeaderBytes(h: Header): (r: bytes)
    ensures |r| == HEADER_SIZE
  {
    Memory(SwapHeader(h))
  }

  function ReadHeader(s: bytes): Header
    requires |s| == HEADER_SIZE
  {
    SwapHeader(FromMemory(s))
  }

  function BigEndian(v: uint32): bytes {
    [v / 0x100_0000, v / 0x1_0000 % 256, v / 0x100 % 256, v % 256]
  }

  lemma MemoryRoundTrip(h: Header)
    ensures FromMemory(Memory(h)) == h
  {
    var a, b, c := LittleEndian(h.rpcLen, 4), LittleEndian(h.reqLen, 4), LittleEndian(h.respLen, 4);
    var s := Memory(h);
    assert s[..4] == a && s[4..8] == b && s[8..] == c;
    Pow256Values();
    LittleEndianRoundTrip(h.rpcLen, 4);
    LittleEndianRoundTrip(h.reqLen, 4);
    LittleEndianRoundTrip(h.respLen, 4);
  }

  lemma HeaderRoundTrip(h: Header)
    ensures ReadHeader(HeaderBytes(h)) == h
  {
    MemoryRoundTrip(SwapHeader(h));
    SwapMemory(h.rpcLen);
    SwapMemory(h.reqLen);
    SwapMemory(h.respLen);
  }

  lemma SwapTwice(h: Header)
    ensures SwapHeader(SwapHeader(h)) == h
  {
    SwapMemory(h.rpcLen);
    SwapMemory(h.reqLen);
    SwapMemory(h.respLen);
  }

  /** Any twelve bytes are the header that is read from them. */
  lemma HeaderOfBytes(s: bytes)
    requires |s| == HEADER_SIZE
    ensures HeaderBytes(ReadHeader(s)) == s
  {
    SwapTwice(FromMemory(s));
    LittleEndianOf(s[..4]);
    LittleEndianOf(s[4..8]);
    LittleEndianOf(s[8..]);
    assert s == s[..4] + s[4..8] + s[8..];
  }

  lemma ReversedLittleEndian(v: uint32)
    ensures Reversed(LittleEndian(v, 4)) == BigEndian(v)
  {
    var b0, b1, b2, b3 := v % 256, v / 256 % 256, v / 256 / 256 % 256, v / 256 / 256 / 256 % 256;
    assert LittleEndian(v / 256 / 256 / 256, 1) == [b3];
    assert LittleEndian(v / 256 / 256, 2) == [b2, b3];
    assert LittleEndian(v / 256, 3) == [b1, b2, b3];
    assert LittleEndian(v, 4) == [b0, b1, b2, b3];
    ReversedFour(b0, b1, b2, b3);
  }

  lemma ReversedFour(b0: byte, b1: byte, b2: byte, b3: byte)
    ensures Reversed([b0, b1, b2, b3]) == [b3, b2, b1, b0]
  {
    ReversedAppend([b0, b1, b2], b3);
    ReversedAppend([b0, b1], b2);
    ReversedAppend([b0], b1);
    assert [b0, b1, b2] + [b3] == [b0, b1, b2, b3];
    assert [b0, b1] + [b2] == [b0, b1, b2];
    assert [b0] + [b1] == [b0, b1];
    assert [b0][1..] == [];
  }

  /** On the wire each length is big-endian, whatever the host does in memory. */
  lemma HeaderIsBigEndian(h: Header)
    ensures HeaderBytes(h) == BigEndian(h.rpcLen) + BigEndian(h.reqLen) + BigEndian(h.respLen)
  {
    SwapMemory(h.rpcLen);
    SwapMemory(h.reqLen);
    SwapMemory(h.respLen);
    ReversedLittleEndian(h.rpcLen);
    ReversedLittleEndian(h.reqLen);
    ReversedLittleEndian(h.respLen);
  }

  /* Frames. */

  datatype Frame = Frame(meta: bytes, req: bytes, resp: bytes)

  predicate FrameFits(f: Frame) {
    HEADER_SIZE + |f.meta| + |f.req| + |f.resp| < TWO32
  }

  function HeaderOf(f: Frame): Header
    requires FrameFits(f)
  {
    Header(|f.meta|, |f.req|, |f.resp|)
  }

  function Payload(f: Frame): bytes {
    f.meta + f.req + f.resp
  }

  function FrameBytes(f: Frame): bytes
    requires FrameFits(f)
  {
    HeaderBytes(HeaderOf(f)) + Payload(f)
  }

  /** The payload length as the readers compute it, in 32 bits. */
  function PayloadLength(h: Header): uint32 {
    (h.rpcLen + h.reqLen + h.respLen) % TWO32
  }

  function Total(h: Header): nat {
    HEADER_SIZE + h.rpcLen + h.reqLen + h.respLen
  }

  function HeaderAt(s: bytes): Header
    requires |s| >= HEADER_SIZE
  {
    ReadHeader(s[..HEADER_SIZE])
  }

  /** `n` as the servers compute it: the whole packet's length, in 32 bits. */
  function PacketLength(h: Header): uint32 {
    Total(h) % TWO32
  }

  /** A packet's length has wrapped exactly if the metadata and the parameter reach beyond the payload it leaves. */
  lemma WrappedIff(h: Header)
    requires PacketLength(h) >= HEADER_SIZE
    ensures h.rpcLen + h.reqLen <= PacketLength(h) - HEADER_SIZE <==> Total(h) < TWO32
  {
    var t := Total(h);
    if t >= TWO32 {
      assert t % TWO32 == (t - TWO32) % TWO32 <= t - TWO32;
    }
  }

  function Cut(h: Header, payload: bytes): Frame
    requires h.rpcLen + h.reqLen + h.respLen == |payload|
  {
    Frame(payload[..h.rpcLen], payload[h.rpcLen..h.rpcLen + h.reqLen], payload[h.rpcLen + h.reqLen..])
  }

  lemma CutPayload(f: Frame)
    requires FrameFits(f)
    ensures PayloadLength(HeaderOf(f)) == |Payload(f)|
    ensures Cut(HeaderOf(f), Payload(f)) == f
  {
    var p := Payload(f);
    assert p[..|f.meta|] == f.meta;
    assert p[|f.meta|..|f.meta| + |f.req|] == f.req;
    assert p[|f.meta| + |f.req|..] == f.resp;
  }

  predicate AllFit(fs: seq<Frame>) {
    forall i | 0 <= i < |fs| :: FrameFits(fs[i])
  }

  function StreamOf(fs: seq<Frame>): bytes
    requires AllFit(fs)
  {
    if fs == [] then [] else FrameBytes(fs[0]) + StreamOf(fs[1..])
  }

  lemma {:induction false} StreamAppends(fs: seq<Frame>, gs: seq<Frame>)
    requires AllFit(fs) && AllFit(gs)
    ensures StreamOf(fs + gs) == StreamOf(fs) + StreamOf(gs)
    decreases |fs|
  {
    if fs == [] {
      assert fs + gs == gs;
    } else {
      StreamAppends(fs[1..], gs);
      assert (fs + gs)[0] == fs[0] && (fs + gs)[1..] == fs[1..] + gs;
      Regroup(FrameBytes(fs[0]), StreamOf(fs[1..]), StreamOf(gs));
    }
  }

  /** A stream that starts with a frame splits into its header, its payload and the rest. */
  lemma StreamFront(fs: seq<Frame>)
    requires fs != [] && AllFit(fs)
    ensures var s := StreamOf(fs);
      && |s| >= HEADER_SIZE + |Payload(fs[0])|
      && s[..HEADER_SIZE] == HeaderBytes(HeaderOf(fs[0]))
      && s[HEADER_SIZE..] == Payload(fs[0]) + StreamOf(fs[1..])
  {
    SplitThree(HeaderBytes(HeaderOf(fs[0])), Payload(fs[0]), StreamOf(fs[1..]));
  }

  lemma SplitThree(h: bytes, p: bytes, t: bytes)
    ensures (h + p + t)[..|h|] == h && (h + p + t)[|h|..] == p + t
  {
  }
}
