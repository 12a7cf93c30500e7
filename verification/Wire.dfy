/**
 The Protocol Buffers wire format, as far as the generated code in rpc.pb.cc
 relies on it: base 128 varints, tags, and the reader that keeps a field it does
 not know (`SkipField`), including nested groups.
 */
module Wire {

  type byte = x: int | 0 <= x < 256
  type bytes = seq<byte>
  type uint32 = x: int | 0 <= x < TWO32
  type uint64 = x: int | 0 <= x < TWO64
  type fieldNumber = x: int | 0 <= x < TWO29

  const TWO29: int := 0x2000_0000
  const TWO31: int := 0x8000_0000
  const TWO32: int := 0x1_0000_0000
  const TWO64: int := 0x1_0000_0000_0000_0000

  datatype Option<+T> = None | Some(value: T)

  /** The outcome of reading one item off the front of a byte string. */
  datatype Read<+T> = Bad | Got(value: T, rest: bytes)

  /* Base 128 varints. */

  function Varint(v: nat): (r: bytes)
    ensures |r| >= 1
  {
    if v < 128 then [v] else [v % 128 + 128] + Varint(v / 128)
  }

  /** Reads a varint of at most `k` bytes; every byte but the last has its top bit set. */
  function ReadVarint(s: bytes, k: nat): (r: Read<nat>)
    ensures r.Got? ==> |r.rest| < |s|
    decreases k
  {
    if s == [] || k == 0 then Bad
    else if s[0] < 128 then Got(s[0], s[1..])
    else match ReadVarint(s[1..], k - 1)
      case Bad => Bad
      case Got(v, rest) => Got(s[0] - 128 + 128 * v, rest)
  }

  const MAX_VARINT_BYTES: nat := 10

  /** `ReadVarint64`: bits above the 64th are discarded. */
  function ReadVarint64(s: bytes): (r: Read<uint64>)
    ensures r.Got? ==> |r.rest| < |s|
  {
    match ReadVarint(s, MAX_VARINT_BYTES)
    case Bad => Bad
    case Got(v, rest) => Got(v % TWO64, rest)
  }

  /** `ReadVarint32`: takes up to ten bytes too, and discards the bits above the 32nd. */
  function ReadVarint32(s: bytes): (r: Read<uint32>)
    ensures r.Got? ==> |r.rest| < |s|
  {
    match ReadVarint(s, MAX_VARINT_BYTES)
    case Bad => Bad
    case Got(v, rest) => Got(v % TWO32, rest)
  }

  /** The library's size table for a varint. */
  function VarintSize(v: uint64): nat {
    if v < 0x80 then 1
    else if v < 0x4000 then 2
    else if v < 0x20_0000 then 3
    else if v < 0x1000_0000 then 4
    else if v < 0x8_0000_0000 then 5
    else if v < 0x400_0000_0000 then 6
    else if v < 0x2_0000_0000_0000 then 7
    else if v < 0x100_0000_0000_0000 then 8
    else if v < 0x8000_0000_0000_0000 then 9
    else 10
  }

  lemma {:induction false} VarintSizeExact(v: uint64)
    ensures |Varint(v)| == VarintSize(v) <= MAX_VARINT_BYTES
    decreases v
  {
    if v >= 128 {
      VarintSizeExact(v / 128);
    }
  }

  lemma {:induction false} VarintReads(v: nat, k: nat, t: bytes)
    requires |Varint(v)| <= k
    ensures ReadVarint(Varint(v) + t, k) == Got(v, t)
    decreases k
  {
    var s := Varint(v) + t;
    if v < 128 {
      assert s[1..] == t;
    } else {
      VarintReads(v / 128, k - 1, t);
      assert s[1..] == Varint(v / 128) + t;
    }
  }

  lemma {:induction false} VarintExtends(s: bytes, k: nat, t: bytes)
    requires ReadVarint(s, k).Got?
    ensures ReadVarint(s + t, k) == Got(ReadVarint(s, k).value, ReadVarint(s, k).rest + t)
    decreases k
  {
    assert (s + t)[1..] == s[1..] + t;
    if s[0] >= 128 {
      VarintExtends(s[1..], k - 1, t);
    }
  }

  /** Both readers give back what `Varint` wrote, whatever follows it. */
  lemma Varint64RoundTrip(v: uint64, t: bytes)
    ensures ReadVarint64(Varint(v) + t) == Got(v, t)
    ensures v < TWO32 ==> ReadVarint32(Varint(v) + t) == Got(v, t)
  {
    VarintSizeExact(v);
    VarintReads(v, MAX_VARINT_BYTES, t);
    InRangeReads(Varint(v) + t, v, t);
  }

  lemma InRangeReads(s: bytes, v: uint64, t: bytes)
    requires ReadVarint(s, MAX_VARINT_BYTES) == Got(v, t)
    ensures ReadVarint64(s) == Got(v, t)
    ensures v < TWO32 ==> ReadVarint32(s) == Got(v, t)
  {
  }

  /* Fixed-width little-endian values. */

  function LittleEndian(v: nat, k: nat): (r: bytes)
    ensures |r| == k
  {
    if k == 0 then [] else [v % 256] + LittleEndian(v / 256, k - 1)
  }

  function FromLittleEndian(s: bytes): nat {
    if s == [] then 0 else s[0] + 256 * FromLittleEndian(s[1..])
  }

  function Pow256(k: nat): (r: nat)
    ensures r >= 1
  {
    if k == 0 then 1 else 256 * Pow256(k - 1)
  }

  lemma {:induction false} FromLittleEndianBound(s: bytes)
    ensures FromLittleEndian(s) < Pow256(|s|)
  {
    if s != [] {
      FromLittleEndianBound(s[1..]);
    }
  }

  lemma {:induction false} LittleEndianRoundTrip(v: nat, k: nat)
    requires v < Pow256(k)
    ensures FromLittleEndian(LittleEndian(v, k)) == v
    decreases k
  {
    if k > 0 {
      LittleEndianRoundTrip(v / 256, k - 1);
      assert LittleEndian(v, k)[1..] == LittleEndian(v / 256, k - 1);
    }
  }

  lemma Pow256Values()
    ensures Pow256(4) == TWO32
    ensures Pow256(8) == TWO64
  {
    assert Pow256(2) == 0x1_0000;
    assert Pow256(4) == TWO32;
    assert Pow256(6) == 0x1_0000 * TWO32;
  }

  /** Takes `k` bytes off the front. */
  function Take(s: bytes, k: nat): (r: Read<bytes>)
    ensures r.Got? ==> |r.rest| <= |s| && |r.value| == k
  {
    if |s| < k then Bad else Got(s[..k], s[k..])
  }

  /** A length-prefixed byte string, as `ReadString` takes it. */
  function ReadLengthPrefixed(s: bytes): (r: Read<bytes>)
    ensures r.Got? ==> |r.rest| <= |s| && |r.value| < TWO32
  {
    match ReadVarint32(s)
    case Bad => Bad
    case Got(len, rest) => Take(rest, len)
  }

  lemma LengthPrefixedRoundTrip(d: bytes, t: bytes)
    requires |d| < TWO32
    ensures ReadLengthPrefixed(Varint(|d|) + d + t) == Got(d, t)
  {
    Varint64RoundTrip(|d|, d + t);
    assert Varint(|d|) + d + t == Varint(|d|) + (d + t);
    assert (d + t)[..|d|] == d && (d + t)[|d|..] == t;
  }

  lemma LengthPrefixedExtends(s: bytes, t: bytes)
    requires ReadLengthPrefixed(s).Got?
    ensures ReadLengthPrefixed(s + t) == Got(ReadLengthPrefixed(s).value, ReadLengthPrefixed(s).rest + t)
  {
    VarintExtends(s, MAX_VARINT_BYTES, t);
    var Got(len, rest) := ReadVarint32(s);
    assert (rest + t)[..len] == rest[..len];
    assert (rest + t)[len..] == rest[len..] + t;
  }

  /* Fields. */

  datatype Field =
    | VarintField(num: fieldNumber, v: uint64)
    | Fixed64(num: fieldNumber, v: uint64)
    | Lengthy(num: fieldNumber, data: bytes)
    | Group(num: fieldNumber, fields: seq<Field>)
    | Fixed32(num: fieldNumber, w: uint32)

  /** The format can carry it: a 32-bit length prefix, and a tag that is not 0. */
  predicate Fits(f: Field) {
    match f
    case VarintField(n, _) => n != 0
    case Lengthy(_, d) => |d| < TWO32
    case Group(_, fs) => FitAll(fs)
    case _ => true
  }

  predicate FitAll(fs: seq<Field>) {
    forall i | 0 <= i < |fs| :: Fits(fs[i])
  }

  const WT_VARINT := 0
  const WT_FIXED64 := 1
  const WT_LENGTH := 2
  const WT_START := 3
  const WT_END := 4
  const WT_FIXED32 := 5

  function MakeTag(num: fieldNumber, wt: int): (r: uint32)
    requires 0 <= wt < 8
  {
    num * 8 + wt
  }

  function Print(f: Field): (r: bytes)
    decreases f, 1
  {
    match f
    case VarintField(n, v) => Varint(MakeTag(n, WT_VARINT)) + Varint(v)
    case Fixed64(n, v) => Varint(MakeTag(n, WT_FIXED64)) + LittleEndian(v, 8)
    case Lengthy(n, d) => Varint(MakeTag(n, WT_LENGTH)) + (Varint(|d|) + d)
    case Group(n, fs) => Varint(MakeTag(n, WT_START)) + (PrintAll(fs) + Varint(MakeTag(n, WT_END)))
    case Fixed32(n, w) => Varint(MakeTag(n, WT_FIXED32)) + LittleEndian(w, 4)
  }

  function PrintAll(fs: seq<Field>): (r: bytes)
    decreases fs, 0
  {
    if fs == [] then [] else Print(fs[0]) + PrintAll(fs[1..])
  }

  /** `ComputeUnknownFieldsSize`, from the size table alone. */
  function PrintSize(f: Field): (r: nat)
    requires Fits(f)
    decreases f, 1
  {
    var tag := VarintSize(MakeTag(f.num, 0));
    match f
    case VarintField(_, v) => tag + VarintSize(v)
    case Fixed64(_, _) => tag + 8
    case Lengthy(_, d) => tag + VarintSize(|d|) + |d|
    case Group(_, fs) => tag + PrintSizeAll(fs) + tag
    case Fixed32(_, _) => tag + 4
  }

  function PrintSizeAll(fs: seq<Field>): (r: nat)
    requires FitAll(fs)
    decreases fs, 0
  {
    if fs == [] then 0 else PrintSize(fs[0]) + PrintSizeAll(fs[1..])
  }

  lemma TagSize(num: fieldNumber, wt: int)
    requires 0 <= wt < 8
    ensures |Varint(MakeTag(num, wt))| == VarintSize(MakeTag(num, 0))
  {
    VarintSizeExact(MakeTag(num, wt));
  }

  lemma {:induction false} PrintSizeExact(f: Field)
    requires Fits(f)
    ensures |Print(f)| == PrintSize(f)
    decreases f, 1
  {
    match f
    case VarintField(n, v) => TagSize(n, WT_VARINT); VarintSizeExact(v);
    case Fixed64(n, v) => TagSize(n, WT_FIXED64);
    case Lengthy(n, d) => TagSize(n, WT_LENGTH); VarintSizeExact(|d|);
    case Group(n, fs) => TagSize(n, WT_START); TagSize(n, WT_END); PrintSizeAllExact(fs);
    case Fixed32(n, v) => TagSize(n, WT_FIXED32);
  }

  lemma {:induction false} PrintSizeAllExact(fs: seq<Field>)
    requires FitAll(fs)
    ensures |PrintAll(fs)| == PrintSizeAll(fs)
    decreases fs, 0
  {
    if fs != [] {
      PrintSizeExact(fs[0]);
      PrintSizeAllExact(fs[1..]);
    }
  }

  lemma Regroup(p: bytes, q: bytes, r: bytes)
    ensures (p + q) + r == p + (q + r)
  {
  }

  lemma {:induction false} PrintAllAppends(a: seq<Field>, b: seq<Field>)
    ensures PrintAll(a + b) == PrintAll(a) + PrintAll(b)
  {
    if a == [] {
      assert a + b == b;
    } else {
      PrintAllAppends(a[1..], b);
      assert (a + b)[0] == a[0] && (a + b)[1..] == a[1..] + b;
      Regroup(Print(a[0]), PrintAll(a[1..]), PrintAll(b));
    }
  }

  /* Reading. */

  datatype TagRead = AtEnd | Tag(tag: uint32, rest: bytes)

  /** `ReadTag`: 0 for a varint that does not end, and for a tag whose low 32 bits are 0. */
  function ReadTag(s: bytes): (r: TagRead)
    ensures r.AtEnd? <==> s == []
    ensures r.Tag? ==> |r.rest| <= |s| && (r.tag != 0 ==> |r.rest| < |s|)
  {
    if s == [] then AtEnd
    else match ReadVarint32(s)
      case Bad => Tag(0, s)
      case Got(t, rest) => Tag(t, rest)
  }

  datatype Ending = CleanEnd | ZeroTag | EndGroup(num: fieldNumber)

  /** What one message body held: its fields in order, and how it ended. */
  datatype Body = BadBody | Body(fields: seq<Field>, ending: Ending, rest: bytes)

  function Prepend(f: Field, b: Body): Body {
    match b
    case BadBody => BadBody
    case Body(fs, e, rest) => Body([f] + fs, e, rest)
  }

  /** The same body with `fs` in front of it. */
  function After(fs: seq<Field>, b: Body): Body {
    match b
    case BadBody => BadBody
    case Body(gs, e, rest) => Body(fs + gs, e, rest)
  }

  lemma AfterOne(f: Field, fs: seq<Field>, b: Body)
    ensures Prepend(f, After(fs, b)) == After([f] + fs, b)
  {
    match b
    case BadBody =>
    case Body(gs, _, _) => assert [f] + (fs + gs) == [f] + fs + gs;
  }

  lemma AfterEmpty(fs: seq<Field>, b: Body)
    requires fs == []
    ensures After(fs, b) == b
  {
    match b
    case BadBody =>
    case Body(gs, _, _) => assert fs + gs == gs;
  }

  /** `SkipMessage`: fields up to the end of the input, a zero tag or an end-group tag. */
  function ReadBody(s: bytes): (b: Body)
    ensures b.Body? ==> |b.rest| <= |s|
    decreases |s|, 0
  {
    match ReadTag(s)
    case AtEnd => Body([], CleanEnd, [])
    case Tag(tag, rest) =>
      if tag == 0 then Body([], ZeroTag, rest)
      else if tag % 8 == WT_END then Body([], EndGroup(tag / 8), rest)
      else match ReadValue(tag, rest)
        case Bad => BadBody
        case Got(f, rest') => Prepend(f, ReadBody(rest'))
  }

  /** `SkipField`: the value that goes with `tag`, kept as an unknown field. */
  function ReadValue(tag: uint32, s: bytes): (r: Read<Field>)
    ensures r.Got? ==> |r.rest| <= |s|
    decreases |s|, 1
  {
    var num: fieldNumber := tag / 8;
    var wt := tag % 8;
    if wt == WT_VARINT then
      match ReadVarint64(s)
      case Bad => Bad
      case Got(v, rest) => Got(VarintField(num, v), rest)
    else if wt == WT_FIXED64 then
      match Take(s, 8)
      case Bad => Bad
      case Got(d, rest) => Got(Fixed64(num, FromFixed64(d)), rest)
    else if wt == WT_LENGTH then
      match ReadLengthPrefixed(s)
      case Bad => Bad
      case Got(d, rest) => Got(Lengthy(num, d), rest)
    else if wt == WT_START then
      match ReadBody(s)
      case Body(fs, EndGroup(n), rest) => if n == num then Got(Group(num, fs), rest) else Bad
      case _ => Bad
    else if wt == WT_FIXED32 then
      match Take(s, 4)
      case Bad => Bad
      case Got(d, rest) => Got(Fixed32(num, FromFixed32(d)), rest)
    else Bad
  }

  function FromFixed64(d: bytes): uint64
    requires |d| == 8
  {
    Pow256Values();
    FromLittleEndianBound(d);
    FromLittleEndian(d)
  }

  function FromFixed32(d: bytes): uint32
    requires |d| == 4
  {
    Pow256Values();
    FromLittleEndianBound(d);
    FromLittleEndian(d)
  }

  /* What was printed is read back. */

  lemma TagRoundTrip(num: fieldNumber, wt: int, t: bytes)
    requires 0 <= wt < 8
    ensures ReadTag(Varint(MakeTag(num, wt)) + t) == Tag(MakeTag(num, wt), t)
    ensures MakeTag(num, wt) / 8 == num && MakeTag(num, wt) % 8 == wt
  {
    Varint64RoundTrip(MakeTag(num, wt), t);
  }

  lemma FixedRoundTrip(v: nat, k: nat, t: bytes)
    requires v < Pow256(k)
    ensures var s := LittleEndian(v, k) + t;
      Take(s, k) == Got(LittleEndian(v, k), t) && FromLittleEndian(LittleEndian(v, k)) == v
  {
    LittleEndianRoundTrip(v, k);
    var s := LittleEndian(v, k) + t;
    assert s[..k] == LittleEndian(v, k) && s[k..] == t;
  }

  function WireType(f: Field): int {
    match f
    case VarintField(_, _) => WT_VARINT
    case Fixed64(_, _) => WT_FIXED64
    case Lengthy(_, _) => WT_LENGTH
    case Group(_, _) => WT_START
    case Fixed32(_, _) => WT_FIXED32
  }

  /** The bytes of a field after its tag. */
  function Value(f: Field): bytes {
    match f
    case VarintField(_, v) => Varint(v)
    case Fixed64(_, v) => LittleEndian(v, 8)
    case Lengthy(_, d) => Varint(|d|) + d
    case Group(n, fs) => PrintAll(fs) + Varint(MakeTag(n, WT_END))
    case Fixed32(_, w) => LittleEndian(w, 4)
  }

  lemma {:induction false} ValueRoundTrip(f: Field, t: bytes)
    requires Fits(f)
    ensures ReadValue(MakeTag(f.num, WireType(f)), Value(f) + t) == Got(f, t)
    decreases f, 1
  {
    TagRoundTrip(f.num, WireType(f), t);
    match f
    case VarintField(_, v) => Varint64RoundTrip(v, t);
    case Fixed64(_, v) => Pow256Values(); FixedRoundTrip(v, 8, t);
    case Lengthy(_, d) => LengthPrefixedRoundTrip(d, t);
    case Group(n, fs) => GroupRoundTrip(n, fs, t);
    case Fixed32(_, w) => Pow256Values(); FixedRoundTrip(w, 4, t);
  }

  lemma {:induction false} GroupRoundTrip(n: fieldNumber, fs: seq<Field>, t: bytes)
    requires FitAll(fs)
    ensures ReadBody(PrintAll(fs) + Varint(MakeTag(n, WT_END)) + t) == Body(fs, EndGroup(n), t)
    decreases fs, 1
  {
    var end := Varint(MakeTag(n, WT_END)) + t;
    TagRoundTrip(n, WT_END, t);
    assert ReadBody(end) == Body([], EndGroup(n), t);
    PrintedBodyReads(fs, end);
    assert PrintAll(fs) + Varint(MakeTag(n, WT_END)) + t == PrintAll(fs) + end;
    assert fs + [] == fs;
  }

  /** Printed fields in front of any body are read as exactly those fields. */
  lemma {:induction false} PrintedBodyReads(fs: seq<Field>, t: bytes)
    requires FitAll(fs)
    ensures ReadBody(PrintAll(fs) + t) == After(fs, ReadBody(t))
    decreases fs, 0
  {
    if fs == [] {
      assert PrintAll(fs) + t == t;
      AfterEmpty(fs, ReadBody(t));
    } else {
      PrintAllSplits(fs, t);
      PrintedFieldReads(fs[0], PrintAll(fs[1..]) + t);
      PrintedBodyReads(fs[1..], t);
      AfterOne(fs[0], fs[1..], ReadBody(t));
      assert [fs[0]] + fs[1..] == fs;
    }
  }

  lemma PrintAllSplits(fs: seq<Field>, t: bytes)
    requires fs != []
    ensures PrintAll(fs) + t == Print(fs[0]) + (PrintAll(fs[1..]) + t)
  {
    var p, q := Print(fs[0]), PrintAll(fs[1..]);
    assert (p + q) + t == p + (q + t);
  }

  lemma PrintSplits(f: Field)
    ensures Print(f) == Varint(MakeTag(f.num, WireType(f))) + Value(f)
  {
  }

  lemma {:induction false} PrintedFieldReads(f: Field, u: bytes)
    requires Fits(f)
    ensures ReadBody(Print(f) + u) == Prepend(f, ReadBody(u))
    decreases f, 2
  {
    PrintSplits(f);
    var tag := MakeTag(f.num, WireType(f));
    TagRoundTrip(f.num, WireType(f), Value(f) + u);
    assert Print(f) + u == Varint(tag) + (Value(f) + u);
    ValueRoundTrip(f, u);
    BodyStep(Print(f) + u, tag, Value(f) + u, f, u);
  }

  /** A value that cannot be read spoils the body. */
  lemma BodySpoiled(s: bytes, tag: uint32, r: bytes)
    requires ReadTag(s) == Tag(tag, r) && tag != 0 && tag % 8 != WT_END && ReadValue(tag, r) == Bad
    ensures ReadBody(s) == BadBody
  {
  }

  /** A body ends at the end of the input, at a zero tag and at an end-group tag. */
  predicate Stops(t: TagRead) {
    t.Tag? ==> t.tag == 0 || t.tag % 8 == WT_END
  }

  lemma BodyStops(s: bytes)
    requires Stops(ReadTag(s))
    ensures var b := ReadBody(s);
      b.Body? && b.fields == [] && (b.ending.CleanEnd? <==> ReadTag(s).AtEnd?)
  {
  }

  /** One turn of the reading loop. */
  lemma BodyStep(s: bytes, tag: uint32, r: bytes, f: Field, u: bytes)
    requires ReadTag(s) == Tag(tag, r) && tag != 0 && tag % 8 != WT_END
    requires ReadValue(tag, r) == Got(f, u)
    ensures ReadBody(s) == Prepend(f, ReadBody(u))
  {
  }

  lemma ValueShape(tag: uint32, s: bytes)
    requires ReadValue(tag, s).Got?
    ensures ReadValue(tag, s).value.num == tag / 8 && WireType(ReadValue(tag, s).value) == tag % 8
  {
  }

  lemma VarintValue(tag: uint32, s: bytes)
    requires tag % 8 == WT_VARINT
    ensures var r := ReadVarint64(s);
      ReadValue(tag, s) == if r.Bad? then Bad else Got(VarintField(tag / 8, r.value), r.rest)
  {
  }

  lemma LengthyValue(tag: uint32, s: bytes)
    requires tag % 8 == WT_LENGTH
    ensures var r := ReadLengthPrefixed(s);
      ReadValue(tag, s) == if r.Bad? then Bad else Got(Lengthy(tag / 8, r.value), r.rest)
  {
  }

  /* A read that succeeded is not changed by what comes after it. */

  lemma {:induction false} ValueExtends(tag: uint32, s: bytes, t: bytes)
    requires ReadValue(tag, s).Got?
    ensures ReadValue(tag, s + t) == Got(ReadValue(tag, s).value, ReadValue(tag, s).rest + t)
    decreases |s|, 1
  {
    var wt := tag % 8;
    if wt == WT_VARINT {
      VarintExtends(s, MAX_VARINT_BYTES, t);
    } else if wt == WT_FIXED64 {
      assert (s + t)[..8] == s[..8] && (s + t)[8..] == s[8..] + t;
    } else if wt == WT_LENGTH {
      LengthPrefixedExtends(s, t);
    } else if wt == WT_START {
      GroupExtends(s, t);
    } else {
      assert (s + t)[..4] == s[..4] && (s + t)[4..] == s[4..] + t;
    }
  }

  lemma TagExtends(s: bytes, t: bytes)
    requires ReadTag(s).Tag? && ReadTag(s).tag != 0
    ensures ReadTag(s + t) == Tag(ReadTag(s).tag, ReadTag(s).rest + t)
  {
    VarintExtends(s, MAX_VARINT_BYTES, t);
  }

  lemma {:induction false} GroupExtends(s: bytes, t: bytes)
    requires ReadBody(s).Body? && ReadBody(s).ending.EndGroup?
    ensures ReadBody(s + t) == Body(ReadBody(s).fields, ReadBody(s).ending, ReadBody(s).rest + t)
    decreases |s|, 0
  {
    TagExtends(s, t);
    var Tag(tag, rest) := ReadTag(s);
    if tag % 8 != WT_END {
      ValueExtends(tag, rest, t);
      var Got(f, rest') := ReadValue(tag, rest);
      GroupExtends(rest', t);
      BodyStep(s + t, tag, rest + t, f, rest' + t);
    }
  }

  /** Two bodies end to end are the fields of the first, then those of the second. */
  lemma {:induction false} BodiesConcatenate(a: bytes, b: bytes)
    requires ReadBody(a).Body? && ReadBody(a).ending.CleanEnd?
    ensures ReadBody(a + b) == After(ReadBody(a).fields, ReadBody(b))
    decreases |a|
  {
    if a == [] {
      assert a + b == b;
      AfterEmpty(ReadBody(a).fields, ReadBody(b));
    } else {
      var Tag(tag, r) := ReadTag(a);
      var Got(f, r') := ReadValue(tag, r);
      BodyStep(a, tag, r, f, r');
      BodiesConcatenate(r', b);
      StepBeforeBody(a, b, tag, r, f, r');
      AfterOne(f, ReadBody(r').fields, ReadBody(b));
    }
  }

  lemma StepBeforeBody(a: bytes, b: bytes, tag: uint32, r: bytes, f: Field, r': bytes)
    requires ReadTag(a) == Tag(tag, r) && tag != 0 && tag % 8 != WT_END
    requires ReadValue(tag, r) == Got(f, r')
    ensures ReadBody(a + b) == Prepend(f, ReadBody(r' + b))
  {
    TagExtends(a, b);
    ValueExtends(tag, r, b);
    BodyStep(a + b, tag, r + b, f, r' + b);
  }

  /** Whatever was read can be printed again. */
  lemma {:induction false} ValueReadFits(tag: uint32, s: bytes)
    requires tag != 0 && ReadValue(tag, s).Got?
    ensures Fits(ReadValue(tag, s).value)
    decreases |s|, 1
  {
    if tag % 8 == WT_START {
      BodyReadFits(s);
    }
  }

  lemma {:induction false} BodyReadFits(s: bytes)
    requires ReadBody(s).Body?
    ensures FitAll(ReadBody(s).fields)
    decreases |s|, 0
  {
    match ReadTag(s)
    case AtEnd =>
    case Tag(tag, r) =>
      if tag != 0 && tag % 8 != WT_END {
        ValueReadFits(tag, r);
        BodyReadFits(ReadValue(tag, r).rest);
      }
  }
}
