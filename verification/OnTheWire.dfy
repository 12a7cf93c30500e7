/**
 The bytes on the wire, written out: what the encoding of `Wire`, the tables of
 rpc.proto and the client's frame amount to, number by number, and what a parsed
 message has to do with the fields it was parsed from.
 */
module OnTheWire {
  import opened Wire
  import opened RpcMessages
  import opened RpcCodec
  import opened Frames
  import opened ClientModel
  import opened Dispatch
  import opened CallPackets
  import opened ServerModel

  /* Varints. */

  /** The number with the digits `s`, seven bits each, the lowest first. */
  function Base128(s: bytes): nat {
    if s == [] then 0 else s[0] % 128 + 128 * Base128(s[1..])
  }

  /** Every byte but the last has its top bit set. */
  predicate Continued(s: bytes) {
    s != [] && s[|s| - 1] < 128 && forall i | 0 <= i < |s| - 1 :: s[i] >= 128
  }

  /** A varint is the number in base 128, lowest digit first, without a leading zero digit. */
  lemma {:induction false} VarintDigits(v: nat)
    ensures var s := Varint(v);
      Continued(s) && Base128(s) == v && (|s| > 1 ==> s[|s| - 1] != 0)
    decreases v
  {
    if v >= 128 {
      VarintDigits(v / 128);
      var s, t := Varint(v), Varint(v / 128);
      assert s[1..] == t && forall i | 1 <= i < |s| :: s[i] == t[i - 1];
    } else {
      assert Varint(v)[1..] == [];
    }
  }

  /** A varint is read off the front exactly if one of at most `k` bytes is there; then it is that number. */
  lemma {:induction false} VarintReadIff(s: bytes, k: nat, n: nat)
    requires n <= |s|
    ensures Continued(s[..n]) && n <= k ==> ReadVarint(s, k) == Got(Base128(s[..n]), s[n..])
    ensures ReadVarint(s, k).Got? && |ReadVarint(s, k).rest| == |s| - n ==> Continued(s[..n]) && n <= k
    decreases k
  {
    if s != [] && k > 0 && n > 0 {
      var t := s[1..];
      assert s[..n][1..] == t[..n - 1] && s[n..] == t[n - 1..];
      if s[0] >= 128 {
        VarintReadIff(t, k - 1, n - 1);
        assert forall i | 1 <= i < n :: s[..n][i] == t[..n - 1][i - 1];
      } else if n > 1 {
        assert s[..n][0] < 128;
      } else {
        assert s[..n][1..] == [];
      }
    }
  }

  /** Ten bytes at most, and 64 bits of them. */
  lemma Varint64ReadIff(s: bytes, n: nat)
    requires n <= |s|
    ensures Continued(s[..n]) && n <= 10 ==> ReadVarint64(s) == Got(Base128(s[..n]) % 0x1_0000_0000_0000_0000, s[n..])
    ensures ReadVarint64(s).Got? && |ReadVarint64(s).rest| == |s| - n ==> Continued(s[..n]) && n <= 10
    ensures Continued(s[..n]) && n <= 10 ==> ReadVarint32(s) == Got(Base128(s[..n]) % 0x1_0000_0000, s[n..])
    ensures ReadVarint32(s).Got? && |ReadVarint32(s).rest| == |s| - n ==> Continued(s[..n]) && n <= 10
  {
    VarintReadIff(s, 10, n);
  }

  /** A length-prefixed string: a varint of `n` bytes, then as many bytes as it says. */
  lemma LengthPrefixedMeans(s: bytes, n: nat)
    requires n <= |s| && Continued(s[..n]) && n <= 10
    ensures var len, rest := Base128(s[..n]) % 0x1_0000_0000, s[n..];
      ReadLengthPrefixed(s) == if len <= |rest| then Got(rest[..len], rest[len..]) else Bad
  {
    Varint64ReadIff(s, n);
  }

  /* Fields. */

  /** A value's tag holds its field number above three bits of wire type: 0 is a varint, 2 a length-prefixed string. */
  lemma PlainValuesRead(num: fieldNumber, s: bytes)
    ensures var r := ReadVarint64(s);
      ReadValue(8 * num, s) == if r.Got? then Got(VarintField(num, r.value), r.rest) else Bad
    ensures var r := ReadLengthPrefixed(s);
      ReadValue(8 * num + 2, s) == if r.Got? then Got(Lengthy(num, r.value), r.rest) else Bad
  {
    TagParts(8 * num, num, 0);
    TagParts(8 * num + 2, num, 2);
    VarintValue(8 * num, s);
    LengthyValue(8 * num + 2, s);
  }

  /** 1 is eight bytes and 5 is four, the lowest first. */
  lemma FixedValuesRead(num: fieldNumber, s: bytes)
    ensures if |s| < 8 then ReadValue(8 * num + 1, s) == Bad else
      var v := FromLittleEndian(s[..8]);
      v < 0x1_0000_0000_0000_0000 && ReadValue(8 * num + 1, s) == Got(Fixed64(num, v), s[8..])
    ensures if |s| < 4 then ReadValue(8 * num + 5, s) == Bad else
      var w := FromLittleEndian(s[..4]);
      w < 0x1_0000_0000 && ReadValue(8 * num + 5, s) == Got(Fixed32(num, w), s[4..])
  {
    TagParts(8 * num + 1, num, 1);
    TagParts(8 * num + 5, num, 5);
    Fixed64Value(8 * num + 1, num, s);
    Fixed32Value(8 * num + 5, num, s);
  }

  /** 3 is a group, which has to end under its own number. */
  lemma GroupsRead(num: fieldNumber, s: bytes)
    ensures var b := ReadBody(s);
      ReadValue(8 * num + 3, s) == if b.Body? && b.ending == EndGroup(num) then Got(Group(num, b.fields), b.rest) else Bad
  {
    TagParts(8 * num + 3, num, 3);
    GroupValue(8 * num + 3, num, s);
  }

  /** 4, 6 and 7 are no values. */
  lemma OthersRefused(num: fieldNumber, s: bytes)
    ensures ReadValue(8 * num + 4, s) == ReadValue(8 * num + 6, s) == ReadValue(8 * num + 7, s) == Bad
  {
    TagParts(8 * num + 4, num, 4);
    TagParts(8 * num + 6, num, 6);
    TagParts(8 * num + 7, num, 7);
    NoValue(8 * num + 4, s);
    NoValue(8 * num + 6, s);
    NoValue(8 * num + 7, s);
  }

  lemma TagParts(tag: uint32, num: nat, wt: nat)
    requires tag == 8 * num + wt && wt < 8
    ensures tag / 8 == num && tag % 8 == wt
  {
  }

  lemma Fixed64Value(tag: uint32, num: fieldNumber, s: bytes)
    requires tag / 8 == num && tag % 8 == 1
    ensures if |s| < 8 then ReadValue(tag, s) == Bad else
      var v := FromLittleEndian(s[..8]);
      v < 0x1_0000_0000_0000_0000 && ReadValue(tag, s) == Got(Fixed64(num, v), s[8..])
  {
    Pow256Values();
    if |s| >= 8 {
      FromLittleEndianBound(s[..8]);
    }
  }

  lemma Fixed32Value(tag: uint32, num: fieldNumber, s: bytes)
    requires tag / 8 == num && tag % 8 == 5
    ensures if |s| < 4 then ReadValue(tag, s) == Bad else
      var w := FromLittleEndian(s[..4]);
      w < 0x1_0000_0000 && ReadValue(tag, s) == Got(Fixed32(num, w), s[4..])
  {
    Pow256Values();
    if |s| >= 4 {
      FromLittleEndianBound(s[..4]);
    }
  }

  lemma GroupValue(tag: uint32, num: fieldNumber, s: bytes)
    requires tag / 8 == num && tag % 8 == 3
    ensures var b := ReadBody(s);
      ReadValue(tag, s) == if b.Body? && b.ending == EndGroup(num) then Got(Group(num, b.fields), b.rest) else Bad
  {
  }

  lemma NoValue(tag: uint32, s: bytes)
    requires tag % 8 == 4 || tag % 8 == 6 || tag % 8 == 7
    ensures ReadValue(tag, s) == Bad
  {
  }

  /** The tag of a field is its number times eight plus 0, 1, 2, 3 with 4, or 5, for its kind. */
  lemma FieldBytes(f: Field)
    ensures f.VarintField? ==> Print(f) == Varint(8 * f.num) + Varint(f.v)
    ensures f.Fixed64? ==> Print(f) == Varint(8 * f.num + 1) + LittleEndian(f.v, 8)
    ensures f.Lengthy? ==> Print(f) == Varint(8 * f.num + 2) + Varint(|f.data|) + f.data
    ensures f.Group? ==> Print(f) == Varint(8 * f.num + 3) + PrintAll(f.fields) + Varint(8 * f.num + 4)
    ensures f.Fixed32? ==> Print(f) == Varint(8 * f.num + 5) + LittleEndian(f.w, 4)
  {
    match f
    case Lengthy(n, d) => Regroup(Varint(8 * n + 2), Varint(|d|), d);
    case Group(n, fs) => Regroup(Varint(8 * n + 3), PrintAll(fs), Varint(8 * n + 4));
    case _ =>
  }

  /* Request and Response. */

  /** The number of each status in rpc.proto. */
  predicate Numbered(st: Status, n: int) {
    match st
    case SUCCESS => n == 1
    case ERROR => n == 2
    case NOT_FOUND => n == 3
    case FAILED => n == 4
  }

  lemma RequestBytes(id: uint64, identity: bytes)
    ensures PrintRequest(Request(Some(id), Some(identity), []))
         == [8] + Varint(id) + [18] + Varint(|identity|) + identity
  {
    var a, b, c, d := [8] + Varint(id), [18], Varint(|identity|), identity;
    OneByteTags();
    assert a + (b + (c + d)) + [] == a + b + c + d;
  }

  lemma ResponseBytes(id: uint64, st: Status, n: byte, text: bytes)
    requires Numbered(st, n)
    ensures PrintResponse(Response(Some(id), Some(st), None, [])) == [8] + Varint(id) + [16, n]
    ensures PrintResponse(Response(Some(id), Some(st), Some(text), []))
         == [8] + Varint(id) + [16, n] + [26] + Varint(|text|) + text
  {
    OneByteTags();
    StatusByte(st, n);
    Joined([8] + Varint(id), [16, n], [26], Varint(|text|), text);
  }

  lemma StatusByte(st: Status, n: byte)
    requires Numbered(st, n)
    ensures Varint(TAG_STATUS) + Varint(StatusNumber(st)) == [16, n]
  {
    OneByteTags();
  }

  lemma Joined(a: bytes, b: bytes, c: bytes, d: bytes, e: bytes)
    ensures a + b + [] + [] == a + b
    ensures a + b + (c + (d + e)) + [] == a + b + c + d + e
  {
  }

  /** What a status number on the wire, cut to 32 bits, leaves in a message that has nothing but it and an id. */
  function StatusRead(id: uint64, w: uint32): Response {
    if w == 1 then Response(Some(id), Some(SUCCESS), None, [])
    else if w == 2 then Response(Some(id), Some(ERROR), None, [])
    else if w == 3 then Response(Some(id), Some(NOT_FOUND), None, [])
    else if w == 4 then Response(Some(id), Some(FAILED), None, [])
    else Response(Some(id), None, None,
                  [VarintField(2, if w < 0x8000_0000 then w else w + (0x1_0000_0000_0000_0000 - 0x1_0000_0000))])
  }

  /** Four numbers are a status each; any other is kept among the unknown fields, sign-extended. */
  lemma StatusNumbers(id: uint64, n: uint64)
    ensures ResponseLoop([8] + Varint(id) + [16] + Varint(n), EMPTY_RESPONSE)
         == ParseDone(StatusRead(id, n % 0x1_0000_0000), true)
  {
    var fs := [VarintField(1, id), VarintField(2, n)];
    TwoVarints(id, n);
    PrintedFieldsRead(fs);
    ResponseLoopIsFold(PrintAll(fs), EMPTY_RESPONSE);
    TwoAbsorbed(id, n);
  }

  lemma TwoAbsorbed(id: uint64, n: uint64)
    ensures FoldResponse(EMPTY_RESPONSE, [VarintField(1, id), VarintField(2, n)]) == StatusRead(id, n % 0x1_0000_0000)
  {
    var m := Response(Some(id), None, None, []);
    FoldTwo(EMPTY_RESPONSE, VarintField(1, id), VarintField(2, n));
    assert AbsorbResponse(EMPTY_RESPONSE, VarintField(1, id)) == m;
    StatusAbsorbed(m, id, n);
  }

  lemma FoldTwo(m: Response, f: Field, g: Field)
    ensures FoldResponse(m, [f, g]) == AbsorbResponse(AbsorbResponse(m, f), g)
  {
    var m1 := AbsorbResponse(m, f);
    assert [f, g][1..] == [g] && [g][1..] == [];
    assert FoldResponse(m, [f, g]) == FoldResponse(m1, [g]);
    assert FoldResponse(m1, [g]) == FoldResponse(AbsorbResponse(m1, g), []);
  }

  lemma StatusAbsorbed(m: Response, id: uint64, n: uint64)
    requires m == Response(Some(id), None, None, [])
    ensures AbsorbResponse(m, VarintField(2, n)) == StatusRead(id, n % 0x1_0000_0000)
  {
  }

  lemma TwoVarints(id: uint64, n: uint64)
    ensures PrintAll([VarintField(1, id), VarintField(2, n)]) == [8] + Varint(id) + [16] + Varint(n)
  {
    var f, g := VarintField(1, id), VarintField(2, n);
    OneByteTags();
    assert [f, g][1..] == [g];
    PrintSingle(g);
    assert [8] + Varint(id) + ([16] + Varint(n)) == [8] + Varint(id) + [16] + Varint(n);
  }

  /* What a parsed message says about the fields on the wire. */

  /** The value of the last varint field of that number. */
  function LastVarint(fs: seq<Field>, num: int): Option<uint64> {
    if fs == [] then None
    else
      var f := fs[|fs| - 1];
      if f.VarintField? && f.num == num then Some(f.v) else LastVarint(fs[..|fs| - 1], num)
  }

  function LastString(fs: seq<Field>, num: int): Option<bytes> {
    if fs == [] then None
    else
      var f := fs[|fs| - 1];
      if f.Lengthy? && f.num == num then Some(f.data) else LastString(fs[..|fs| - 1], num)
  }

  /** The last status whose number is one of the four. */
  function LastStatus(fs: seq<Field>): Option<uint32> {
    if fs == [] then None
    else
      var f := fs[|fs| - 1];
      if f.VarintField? && f.num == 2 && 1 <= f.v % 0x1_0000_0000 <= 4 then Some(f.v % 0x1_0000_0000)
      else LastStatus(fs[..|fs| - 1])
  }

  lemma {:induction false} RequestLasts(fs: seq<Field>)
    ensures var m := FoldRequest(EMPTY_REQUEST, fs);
      m.id == LastVarint(fs, 1) && m.identity == LastString(fs, 2)
    decreases |fs|
  {
    if fs != [] {
      var front, f := fs[..|fs| - 1], fs[|fs| - 1];
      RequestLasts(front);
      assert fs == front + [f];
      FoldRequestAppends(EMPTY_REQUEST, front, [f]);
      assert [f][1..] == [];
    }
  }

  /** `ParseFromArray` accepts exactly a complete body with both required fields, and takes the last of each. */
  lemma RequestParsedIff(s: bytes)
    ensures var b, r := ReadBody(s), ParseRequest(s);
      && (r.Some? <==> b.Body? && b.ending == CleanEnd && LastVarint(b.fields, 1).Some? && LastString(b.fields, 2).Some?)
      && (r.Some? ==> r.value.id == LastVarint(b.fields, 1) && r.value.identity == LastString(b.fields, 2))
  {
    RequestLoopIsFold(s, EMPTY_REQUEST);
    if ReadBody(s).Body? {
      RequestLasts(ReadBody(s).fields);
    }
  }

  lemma {:induction false} ResponseLasts(fs: seq<Field>)
    ensures var m := FoldResponse(EMPTY_RESPONSE, fs);
      && m.id == LastVarint(fs, 1) && m.message == LastString(fs, 3)
      && (m.status.Some? <==> LastStatus(fs).Some?)
      && (m.status.Some? ==> Numbered(m.status.value, LastStatus(fs).value))
    decreases |fs|
  {
    if fs != [] {
      var front, f := fs[..|fs| - 1], fs[|fs| - 1];
      ResponseLasts(front);
      assert fs == front + [f];
      FoldResponseAppends(EMPTY_RESPONSE, front, [f]);
      assert [f][1..] == [];
    }
  }

  lemma ResponseParsedIff(s: bytes)
    ensures var b, r := ReadBody(s), ParseResponse(s);
      && (r.Some? <==> b.Body? && b.ending == CleanEnd && LastVarint(b.fields, 1).Some? && LastStatus(b.fields).Some?)
      && (r.Some? ==>
            && r.value.id == LastVarint(b.fields, 1) && r.value.message == LastString(b.fields, 3)
            && Numbered(r.value.status.value, LastStatus(b.fields).value))
  {
    ResponseLoopIsFold(s, EMPTY_RESPONSE);
    if ReadBody(s).Body? {
      ResponseLasts(ReadBody(s).fields);
    }
  }

  /* Frames. */

  /** The bytes of a call: three big-endian lengths, the id, the method's full name, and the parameter. */
  lemma CallBytes(cd: Codec, t: Task)
    requires TaskFits(cd, t)
    ensures var name := t.service + [46] + t.name;
      var meta := [8] + Varint(t.id) + [18] + Varint(|name|) + name;
      FrameBytes(CallFrame(cd, t))
        == BigEndian(|meta|) + BigEndian(|cd.encode(t.request)|) + [0, 0, 0, 0] + meta + cd.encode(t.request)
  {
    RequestBytes(t.id, t.service + [46] + t.name);
    RequestFrameBytes(CallFrame(cd, t).meta, cd.encode(t.request));
  }

  lemma RequestFrameBytes(m: bytes, p: bytes)
    requires FrameFits(Frame(m, p, []))
    ensures FrameBytes(Frame(m, p, [])) == BigEndian(|m|) + BigEndian(|p|) + [0, 0, 0, 0] + m + p
  {
    HeaderIsBigEndian(HeaderOf(Frame(m, p, [])));
    assert BigEndian(0) == [0, 0, 0, 0];
    FrameParts(BigEndian(|m|) + BigEndian(|p|) + [0, 0, 0, 0], m, p);
  }

  lemma FrameParts(h: bytes, a: bytes, b: bytes)
    ensures h + (a + b + []) == h + a + b
  {
  }

  /** A reply: the parameter is the response, so the second length is zero; without one the third is, too. */
  lemma ReplyBytes(cd: Codec, meta: Response, param: Option<Msg>)
    requires FrameFits(ReplyFrame(cd, meta, param))
    ensures var m, p := PrintResponse(meta), if param.Some? then cd.encode(param.value) else [];
      FrameBytes(ReplyFrame(cd, meta, param)) == BigEndian(|m|) + [0, 0, 0, 0] + BigEndian(|p|) + m + p
  {
    ReplyFrameBytes(PrintResponse(meta), if param.Some? then cd.encode(param.value) else []);
  }

  lemma ReplyFrameBytes(m: bytes, p: bytes)
    requires FrameFits(Frame(m, [], p))
    ensures FrameBytes(Frame(m, [], p)) == BigEndian(|m|) + [0, 0, 0, 0] + BigEndian(|p|) + m + p
  {
    HeaderIsBigEndian(HeaderOf(Frame(m, [], p)));
    assert BigEndian(0) == [0, 0, 0, 0];
    ReplyParts(BigEndian(|m|) + [0, 0, 0, 0] + BigEndian(|p|), m, p);
  }

  lemma ReplyParts(h: bytes, a: bytes, b: bytes)
    ensures h + (a + [] + b) == h + a + b
  {
  }

  /** The texts of the servers are sent character by character. */
  lemma TextIsAscii(s: string)
    requires forall i | 0 <= i < |s| :: s[i] < 128 as char
    ensures |Text(s)| == |s| && forall i | 0 <= i < |s| :: Text(s)[i] == s[i] as int
  {
  }
}
