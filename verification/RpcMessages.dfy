/**
 The generated classes `Request` and `Response` of rpc.pb.cc: parser, printer,
 `ByteSize`, `MergeFrom` and `IsInitialized`. A has-bit together with its value
 is an `Option`.

 Each parser appears three times: as the plain loop over tags, as the loop the
 generated code runs (with its `ExpectTag`/`ExpectAtEnd` jumps), and as a fold
 over the list of fields on the wire. The three are proved equal.
 */
module RpcMessages {
  import opened Wire

  datatype Status = SUCCESS | ERROR | NOT_FOUND | FAILED

  predicate StatusIsValid(value: int) {
    value == 1 || value == 2 || value == 3 || value == 4
  }

  function StatusOf(value: int): Status
    requires StatusIsValid(value)
  {
    if value == 1 then SUCCESS else if value == 2 then ERROR else if value == 3 then NOT_FOUND else FAILED
  }

  function StatusNumber(s: Status): int {
    match s
    case SUCCESS => 1
    case ERROR => 2
    case NOT_FOUND => 3
    case FAILED => 4
  }

  datatype Request = Request(id: Option<uint64>, identity: Option<bytes>, unknown: seq<Field>)

  datatype Response = Response(id: Option<uint64>, status: Option<Status>, message: Option<bytes>, unknown: seq<Field>)

  const EMPTY_REQUEST := Request(None, None, [])
  const EMPTY_RESPONSE := Response(None, None, None, [])

  /** The result of `MergePartialFromCodedStream`, and whether the input ended where a message may. */
  datatype Parsed<+M> = ParseFailed | ParseDone(msg: M, atEnd: bool)

  const TAG_ID := 8
  const TAG_IDENTITY := 18
  const TAG_STATUS := 16
  const TAG_MESSAGE := 26

  /* Enum values travel as 32 bits; an invalid one is kept, sign-extended to 64. */

  function ToInt32(w: uint32): int {
    if w < TWO31 then w else w - TWO32
  }

  function SignExtend(x: int): uint64
    requires -TWO31 <= x < TWO31
  {
    if x >= 0 then x else x + TWO64
  }

  /* Request: the plain loop. */

  function RequestLoop(s: bytes, m: Request): Parsed<Request>
    decreases |s|
  {
    match ReadTag(s)
    case AtEnd => ParseDone(m, true)
    case Tag(tag, rest) =>
      if tag == TAG_ID then
        match ReadVarint64(rest)
        case Bad => ParseFailed
        case Got(v, rest') => RequestLoop(rest', m.(id := Some(v)))
      else if tag == TAG_IDENTITY then
        match ReadLengthPrefixed(rest)
        case Bad => ParseFailed
        case Got(d, rest') => RequestLoop(rest', m.(identity := Some(d)))
      else if tag == 0 || tag % 8 == WT_END then ParseDone(m, false)
      else match ReadValue(tag, rest)
        case Bad => ParseFailed
        case Got(f, rest') => RequestLoop(rest', m.(unknown := m.unknown + [f]))
  }

  /**
   `Request::MergePartialFromCodedStream` as generated. `expected` holds the tag
   that `ExpectTag` has already consumed before its jump.
   */
  method MergePartialRequest(input: bytes, m0: Request) returns (r: Parsed<Request>)
    ensures r == RequestLoop(input, m0)
  {
    var s: bytes, m, expected: byte := input, m0, 0;
    while true
      invariant expected == 0 || expected == TAG_IDENTITY
      invariant RequestLoop(Behind(expected, s), m) == RequestLoop(input, m0)
      decreases |s|, expected
    {
      var tag: uint32 := expected;
      ghost var before := Behind(expected, s);
      if expected == 0 {
        match ReadTag(s)
        case AtEnd => return ParseDone(m, true);
        case Tag(t, rest) => tag, s := t, rest;
      } else {
        ExpectedTag(s, TAG_IDENTITY);
      }
      assert ReadTag(before) == Tag(tag, s);
      expected := 0;
      if 1 <= tag <= 127 && tag / 8 == 1 && tag == TAG_ID {
        match ReadVarint64(s)
        case Bad => return ParseFailed;
        case Got(v, rest) => s, m := rest, m.(id := Some(v));
        s, expected := ExpectTag(s, TAG_IDENTITY);
      } else if 1 <= tag <= 127 && tag / 8 == 2 && tag == TAG_IDENTITY {
        match ReadLengthPrefixed(s)
        case Bad => return ParseFailed;
        case Got(d, rest) => s, m := rest, m.(identity := Some(d));
        if s == [] {
          return ParseDone(m, true);
        }
      } else {
        if tag == 0 || tag % 8 == WT_END {
          return ParseDone(m, false);
        }
        match ReadValue(tag, s)
        case Bad => return ParseFailed;
        case Got(f, rest) => s, m := rest, m.(unknown := m.unknown + [f]);
      }
    }
  }

  /** The input with the tag that `ExpectTag` has already taken; 0 if it took none. */
  function Behind(tag: byte, s: bytes): bytes {
    if tag == 0 then s else [tag] + s
  }

  /** `ExpectTag`: takes the tag if it comes next. */
  method ExpectTag(s: bytes, tag: byte) returns (rest: bytes, expected: byte)
    requires tag != 0
    ensures expected == if s != [] && s[0] == tag then tag else 0
    ensures Behind(expected, rest) == s
  {
    if s != [] && s[0] == tag {
      return s[1..], tag;
    }
    return s, 0;
  }

  /** `ExpectTag` only takes the one-byte form, which `ReadTag` reads the same way. */
  lemma ExpectedTag(s: bytes, tag: byte)
    requires 0 < tag < 128
    ensures ReadTag([tag] + s) == Tag(tag, s)
  {
    assert ([tag] + s)[1..] == s;
  }

  /* Request as a fold over fields. */

  function AbsorbRequest(m: Request, f: Field): Request {
    match f
    case VarintField(1, v) => m.(id := Some(v))
    case Lengthy(2, d) => m.(identity := Some(d))
    case _ => m.(unknown := m.unknown + [f])
  }

  function FoldRequest(m: Request, fs: seq<Field>): Request
    decreases |fs|
  {
    if fs == [] then m else FoldRequest(AbsorbRequest(m, fs[0]), fs[1..])
  }

  function RequestOfBody(m: Request, b: Body): Parsed<Request> {
    match b
    case BadBody => ParseFailed
    case Body(fs, e, _) => ParseDone(FoldRequest(m, fs), e.CleanEnd?)
  }

  lemma FoldRequestStep(m: Request, f: Field, b: Body)
    ensures RequestOfBody(m, Prepend(f, b)) == RequestOfBody(AbsorbRequest(m, f), b)
  {
    match b
    case BadBody =>
    case Body(fs, e, _) => assert ([f] + fs)[0] == f && ([f] + fs)[1..] == fs;
  }

  /** One turn of the loop absorbs the one field that `ReadValue` takes. */
  lemma RequestTurn(s: bytes, m: Request, tag: uint32, rest: bytes)
    requires ReadTag(s) == Tag(tag, rest) && tag != 0 && tag % 8 != WT_END
    ensures var r := ReadValue(tag, rest);
      RequestLoop(s, m) == if r.Bad? then ParseFailed else RequestLoop(r.rest, AbsorbRequest(m, r.value))
  {
    var r := ReadValue(tag, rest);
    if tag % 8 == WT_VARINT {
      VarintValue(tag, rest);
    } else if tag % 8 == WT_LENGTH {
      LengthyValue(tag, rest);
    } else if r.Got? {
      ValueShape(tag, rest);
      RequestUnknown(m, r.value);
    }
  }

  lemma RequestUnknown(m: Request, f: Field)
    requires WireType(f) != WT_VARINT && WireType(f) != WT_LENGTH
    ensures AbsorbRequest(m, f) == m.(unknown := m.unknown + [f])
  {
  }

  lemma RequestLoopStops(s: bytes, m: Request)
    requires Stops(ReadTag(s))
    ensures RequestLoop(s, m) == ParseDone(m, ReadTag(s).AtEnd?)
  {
    match ReadTag(s)
    case AtEnd =>
    case Tag(tag, _) => assert tag != TAG_ID && tag != TAG_IDENTITY;
  }

  lemma RequestBodyEmpty(m: Request, b: Body)
    requires b.Body? && b.fields == []
    ensures RequestOfBody(m, b) == ParseDone(m, b.ending.CleanEnd?)
  {
  }

  lemma RequestStops(s: bytes, m: Request)
    requires Stops(ReadTag(s))
    ensures RequestLoop(s, m) == RequestOfBody(m, ReadBody(s))
  {
    BodyStops(s);
    RequestLoopStops(s, m);
    RequestBodyEmpty(m, ReadBody(s));
  }

  /** The tag-dispatch loop takes exactly the fields `SkipField` would, in the same order. */
  lemma {:induction false} RequestLoopIsFold(s: bytes, m: Request)
    ensures RequestLoop(s, m) == RequestOfBody(m, ReadBody(s))
    decreases |s|
  {
    match ReadTag(s)
    case AtEnd => RequestStops(s, m);
    case Tag(tag, rest) =>
      if tag != 0 && tag % 8 != WT_END {
        RequestTurn(s, m, tag, rest);
        match ReadValue(tag, rest)
        case Bad => BodySpoiled(s, tag, rest);
        case Got(f, rest') =>
          BodyStep(s, tag, rest, f, rest');
          RequestLoopIsFold(rest', AbsorbRequest(m, f));
          FoldRequestStep(m, f, ReadBody(rest'));
      } else {
        RequestStops(s, m);
      }
  }

  /* Response: the plain loop. */

  function TakeStatus(m: Response, v: uint32): Response {
    var value := ToInt32(v);
    if StatusIsValid(value) then m.(status := Some(StatusOf(value)))
    else m.(unknown := m.unknown + [VarintField(2, SignExtend(value))])
  }

  function ResponseLoop(s: bytes, m: Response): Parsed<Response>
    decreases |s|
  {
    match ReadTag(s)
    case AtEnd => ParseDone(m, true)
    case Tag(tag, rest) =>
      if tag == TAG_ID then
        match ReadVarint64(rest)
        case Bad => ParseFailed
        case Got(v, rest') => ResponseLoop(rest', m.(id := Some(v)))
      else if tag == TAG_STATUS then
        match ReadVarint32(rest)
        case Bad => ParseFailed
        case Got(v, rest') => ResponseLoop(rest', TakeStatus(m, v))
      else if tag == TAG_MESSAGE then
        match ReadLengthPrefixed(rest)
        case Bad => ParseFailed
        case Got(d, rest') => ResponseLoop(rest', m.(message := Some(d)))
      else if tag == 0 || tag % 8 == WT_END then ParseDone(m, false)
      else match ReadValue(tag, rest)
        case Bad => ParseFailed
        case Got(f, rest') => ResponseLoop(rest', m.(unknown := m.unknown + [f]))
  }

  /** `Response::MergePartialFromCodedStream` as generated, with both forward jumps. */
  method MergePartialResponse(input: bytes, m0: Response) returns (r: Parsed<Response>)
    ensures r == ResponseLoop(input, m0)
  {
    var s: bytes, m, expected: byte := input, m0, 0;
    while true
      invariant expected == 0 || expected == TAG_STATUS || expected == TAG_MESSAGE
      invariant ResponseLoop(Behind(expected, s), m) == ResponseLoop(input, m0)
      decreases |s|, expected
    {
      var tag: uint32 := expected;
      ghost var before := Behind(expected, s);
      if expected == 0 {
        match ReadTag(s)
        case AtEnd => return ParseDone(m, true);
        case Tag(t, rest) => tag, s := t, rest;
      } else {
        ExpectedTag(s, expected);
      }
      assert ReadTag(before) == Tag(tag, s);
      expected := 0;
      if 1 <= tag <= 127 && tag / 8 == 1 && tag == TAG_ID {
        match ReadVarint64(s)
        case Bad => return ParseFailed;
        case Got(v, rest) => s, m := rest, m.(id := Some(v));
        s, expected := ExpectTag(s, TAG_STATUS);
      } else if 1 <= tag <= 127 && tag / 8 == 2 && tag == TAG_STATUS {
        match ReadVarint32(s)
        case Bad => return ParseFailed;
        case Got(v, rest) => s, m := rest, TakeStatus(m, v);
        s, expected := ExpectTag(s, TAG_MESSAGE);
      } else if 1 <= tag <= 127 && tag / 8 == 3 && tag == TAG_MESSAGE {
        match ReadLengthPrefixed(s)
        case Bad => return ParseFailed;
        case Got(d, rest) => s, m := rest, m.(message := Some(d));
        if s == [] {
          return ParseDone(m, true);
        }
      } else {
        if tag == 0 || tag % 8 == WT_END {
          return ParseDone(m, false);
        }
        match ReadValue(tag, s)
        case Bad => return ParseFailed;
        case Got(f, rest) => s, m := rest, m.(unknown := m.unknown + [f]);
      }
    }
  }

  /* Response as a fold over fields. */

  function AbsorbResponse(m: Response, f: Field): Response {
    match f
    case VarintField(1, v) => m.(id := Some(v))
    case VarintField(2, v) => TakeStatus(m, v % TWO32)
    case Lengthy(3, d) => m.(message := Some(d))
    case _ => m.(unknown := m.unknown + [f])
  }

  function FoldResponse(m: Response, fs: seq<Field>): Response
    decreases |fs|
  {
    if fs == [] then m else FoldResponse(AbsorbResponse(m, fs[0]), fs[1..])
  }

  function ResponseOfBody(m: Response, b: Body): Parsed<Response> {
    match b
    case BadBody => ParseFailed
    case Body(fs, e, _) => ParseDone(FoldResponse(m, fs), e.CleanEnd?)
  }

  lemma FoldResponseStep(m: Response, f: Field, b: Body)
    ensures ResponseOfBody(m, Prepend(f, b)) == ResponseOfBody(AbsorbResponse(m, f), b)
  {
    match b
    case BadBody =>
    case Body(fs, e, _) => assert ([f] + fs)[0] == f && ([f] + fs)[1..] == fs;
  }

  lemma StatusTurn(s: bytes, m: Response, rest: bytes)
    requires ReadTag(s) == Tag(TAG_STATUS, rest)
    ensures var r := ReadValue(TAG_STATUS, rest);
      ResponseLoop(s, m) == if r.Bad? then ParseFailed else ResponseLoop(r.rest, AbsorbResponse(m, r.value))
  {
    VarintValue(TAG_STATUS, rest);
    StatusBits(rest);
  }

  lemma ResponseTurn(s: bytes, m: Response, tag: uint32, rest: bytes)
    requires ReadTag(s) == Tag(tag, rest) && tag != 0 && tag % 8 != WT_END
    ensures var r := ReadValue(tag, rest);
      ResponseLoop(s, m) == if r.Bad? then ParseFailed else ResponseLoop(r.rest, AbsorbResponse(m, r.value))
  {
    var r := ReadValue(tag, rest);
    if tag == TAG_STATUS {
      StatusTurn(s, m, rest);
    } else if tag == TAG_ID {
      VarintValue(tag, rest);
    } else if tag == TAG_MESSAGE {
      LengthyValue(tag, rest);
    } else if r.Got? {
      ValueShape(tag, rest);
      ResponseUnknown(m, tag, r.value);
    }
  }

  lemma ResponseUnknown(m: Response, tag: uint32, f: Field)
    requires f.num == tag / 8 && WireType(f) == tag % 8
    requires tag != TAG_ID && tag != TAG_STATUS && tag != TAG_MESSAGE
    ensures AbsorbResponse(m, f) == m.(unknown := m.unknown + [f])
  {
  }

  lemma ResponseLoopStops(s: bytes, m: Response)
    requires Stops(ReadTag(s))
    ensures ResponseLoop(s, m) == ParseDone(m, ReadTag(s).AtEnd?)
  {
    match ReadTag(s)
    case AtEnd =>
    case Tag(tag, _) => assert tag != TAG_ID && tag != TAG_STATUS && tag != TAG_MESSAGE;
  }

  lemma ResponseBodyEmpty(m: Response, b: Body)
    requires b.Body? && b.fields == []
    ensures ResponseOfBody(m, b) == ParseDone(m, b.ending.CleanEnd?)
  {
  }

  lemma ResponseStops(s: bytes, m: Response)
    requires Stops(ReadTag(s))
    ensures ResponseLoop(s, m) == ResponseOfBody(m, ReadBody(s))
  {
    BodyStops(s);
    ResponseLoopStops(s, m);
    ResponseBodyEmpty(m, ReadBody(s));
  }

  /** The same for `Response`. */
  lemma {:induction false} ResponseLoopIsFold(s: bytes, m: Response)
    ensures ResponseLoop(s, m) == ResponseOfBody(m, ReadBody(s))
    decreases |s|
  {
    match ReadTag(s)
    case AtEnd => ResponseStops(s, m);
    case Tag(tag, rest) =>
      if tag != 0 && tag % 8 != WT_END {
        ResponseTurn(s, m, tag, rest);
        match ReadValue(tag, rest)
        case Bad => BodySpoiled(s, tag, rest);
        case Got(f, rest') =>
          BodyStep(s, tag, rest, f, rest');
          ResponseLoopIsFold(rest', AbsorbResponse(m, f));
          FoldResponseStep(m, f, ReadBody(rest'));
      } else {
        ResponseStops(s, m);
      }
  }

  /** Reading 32 bits of a varint is reading 64 and dropping the upper half. */
  lemma StatusBits(s: bytes)
    ensures ReadVarint32(s) ==
      match ReadVarint64(s)
      case Bad => Bad
      case Got(v, rest) => Got(v % TWO32, rest)
  {
    match ReadVarint(s, MAX_VARINT_BYTES)
    case Bad =>
    case Got(v, _) => LowHalf(v);
  }

  lemma LowHalf(v: nat)
    ensures v % TWO64 % TWO32 == v % TWO32
  {
    var q, r := v / TWO64, v % TWO64;
    assert v == TWO32 * (TWO32 * q + r / TWO32) + r % TWO32;
  }
}
