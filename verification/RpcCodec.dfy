/**
 The printer of `Request` and `Response`, and what the parser and the printer
 mean for each other: round trips, `ByteSize`, and concatenation as `MergeFrom`.
 */
module RpcCodec {
  import opened Wire
  import opened RpcMessages

  /* Printing, in the order of `SerializeWithCachedSizes`. */

  function PrintRequest(m: Request): bytes {
    (if m.id.Some? then Varint(TAG_ID) + Varint(m.id.value) else [])
    + (if m.identity.Some? then Varint(TAG_IDENTITY) + (Varint(|m.identity.value|) + m.identity.value) else [])
    + PrintAll(m.unknown)
  }

  function PrintResponse(m: Response): bytes {
    (if m.id.Some? then Varint(TAG_ID) + Varint(m.id.value) else [])
    + (if m.status.Some? then Varint(TAG_STATUS) + Varint(StatusNumber(m.status.value)) else [])
    + (if m.message.Some? then Varint(TAG_MESSAGE) + (Varint(|m.message.value|) + m.message.value) else [])
    + PrintAll(m.unknown)
  }

  predicate FitsString(d: Option<bytes>) {
    d.Some? ==> |d.value| < TWO32
  }

  predicate RequestFits(m: Request) {
    FitsString(m.identity) && FitAll(m.unknown)
  }

  predicate ResponseFits(m: Response) {
    FitsString(m.message) && FitAll(m.unknown)
  }

  function StringSize(d: bytes): nat
    requires |d| < TWO32
  {
    VarintSize(|d|) + |d|
  }

  function RequestByteSize(m: Request): nat
    requires RequestFits(m)
  {
    (if m.id.Some? then 1 + VarintSize(m.id.value) else 0)
    + (if m.identity.Some? then 1 + StringSize(m.identity.value) else 0)
    + PrintSizeAll(m.unknown)
  }

  function ResponseByteSize(m: Response): nat
    requires ResponseFits(m)
  {
    (if m.id.Some? then 1 + VarintSize(m.id.value) else 0)
    + (if m.status.Some? then 1 + VarintSize(StatusNumber(m.status.value)) else 0)
    + (if m.message.Some? then 1 + StringSize(m.message.value) else 0)
    + PrintSizeAll(m.unknown)
  }

  predicate RequestInitialized(m: Request) {
    m.id.Some? && m.identity.Some?
  }

  predicate ResponseInitialized(m: Response) {
    m.id.Some? && m.status.Some?
  }

  /** `ParseFromArray`: the whole array is one message, and its required fields are there. */
  function ParseRequest(s: bytes): Option<Request> {
    match RequestLoop(s, EMPTY_REQUEST)
    case ParseDone(m, true) => if RequestInitialized(m) then Some(m) else None
    case _ => None
  }

  function ParseResponse(s: bytes): Option<Response> {
    match ResponseLoop(s, EMPTY_RESPONSE)
    case ParseDone(m, true) => if ResponseInitialized(m) then Some(m) else None
    case _ => None
  }

  /* The bytes written number exactly ByteSize(). */

  lemma OneByteTags()
    ensures Varint(TAG_ID) == [TAG_ID] && Varint(TAG_IDENTITY) == [TAG_IDENTITY]
    ensures Varint(TAG_STATUS) == [TAG_STATUS] && Varint(TAG_MESSAGE) == [TAG_MESSAGE]
  {
  }

  lemma RequestSizeExact(m: Request)
    requires RequestFits(m)
    ensures |PrintRequest(m)| == RequestByteSize(m)
  {
    OneByteTags();
    if m.id.Some? { VarintSizeExact(m.id.value); }
    if m.identity.Some? { VarintSizeExact(|m.identity.value|); }
    PrintSizeAllExact(m.unknown);
  }

  lemma ResponseSizeExact(m: Response)
    requires ResponseFits(m)
    ensures |PrintResponse(m)| == ResponseByteSize(m)
  {
    OneByteTags();
    if m.id.Some? { VarintSizeExact(m.id.value); }
    if m.status.Some? { VarintSizeExact(StatusNumber(m.status.value)); }
    if m.message.Some? { VarintSizeExact(|m.message.value|); }
    PrintSizeAllExact(m.unknown);
  }

  /* The printed message as a list of fields. */

  function IdField(id: Option<uint64>): seq<Field> {
    if id.Some? then [VarintField(1, id.value)] else []
  }

  function StringField(num: fieldNumber, d: Option<bytes>): seq<Field> {
    if d.Some? then [Lengthy(num, d.value)] else []
  }

  function StatusField(st: Option<Status>): seq<Field> {
    if st.Some? then [VarintField(2, StatusNumber(st.value))] else []
  }

  lemma PrintSingle(f: Field)
    ensures PrintAll([f]) == Print(f)
  {
    assert [f][1..] == [];
    assert Print(f) + [] == Print(f);
  }

  lemma IdPrints(id: Option<uint64>)
    ensures PrintAll(IdField(id)) == if id.Some? then Varint(TAG_ID) + Varint(id.value) else []
  {
    if id.Some? {
      PrintSingle(VarintField(1, id.value));
    }
  }

  lemma StringPrints(num: fieldNumber, d: Option<bytes>)
    ensures PrintAll(StringField(num, d)) ==
      if d.Some? then Varint(MakeTag(num, WT_LENGTH)) + (Varint(|d.value|) + d.value) else []
  {
    if d.Some? {
      PrintSingle(Lengthy(num, d.value));
    }
  }

  lemma StatusPrints(st: Option<Status>)
    ensures PrintAll(StatusField(st)) ==
      if st.Some? then Varint(TAG_STATUS) + Varint(StatusNumber(st.value)) else []
  {
    if st.Some? {
      PrintSingle(VarintField(2, StatusNumber(st.value)));
    }
  }

  function RequestFields(m: Request): seq<Field> {
    IdField(m.id) + StringField(2, m.identity) + m.unknown
  }

  function ResponseFields(m: Response): seq<Field> {
    IdField(m.id) + StatusField(m.status) + StringField(3, m.message) + m.unknown
  }

  lemma RequestPrintsFields(m: Request)
    ensures PrintRequest(m) == PrintAll(RequestFields(m))
  {
    IdPrints(m.id);
    StringPrints(2, m.identity);
    PrintAllAppends(IdField(m.id), StringField(2, m.identity));
    PrintAllAppends(IdField(m.id) + StringField(2, m.identity), m.unknown);
  }

  lemma ResponsePrintsFields(m: Response)
    ensures PrintResponse(m) == PrintAll(ResponseFields(m))
  {
    IdPrints(m.id);
    StatusPrints(m.status);
    StringPrints(3, m.message);
    PrintAllAppends(IdField(m.id), StatusField(m.status));
    PrintAllAppends(IdField(m.id) + StatusField(m.status), StringField(3, m.message));
    PrintAllAppends(IdField(m.id) + StatusField(m.status) + StringField(3, m.message), m.unknown);
  }

  lemma PrintedFieldsRead(fs: seq<Field>)
    requires FitAll(fs)
    ensures ReadBody(PrintAll(fs)) == Body(fs, CleanEnd, [])
  {
    PrintedBodyReads(fs, []);
    assert PrintAll(fs) + [] == PrintAll(fs);
    assert fs + [] == fs;
  }

  /* MergeFrom, and fields absorbed one after the other. */

  function Latest<T>(old_: Option<T>, new_: Option<T>): Option<T> {
    if new_.Some? then new_ else old_
  }

  function MergeRequest(to: Request, from: Request): Request {
    Request(Latest(to.id, from.id), Latest(to.identity, from.identity), to.unknown + from.unknown)
  }

  function MergeResponse(to: Response, from: Response): Response {
    Response(Latest(to.id, from.id), Latest(to.status, from.status), Latest(to.message, from.message),
             to.unknown + from.unknown)
  }

  lemma AbsorbRequestIsMerge(m: Request, f: Field)
    ensures AbsorbRequest(m, f) == MergeRequest(m, AbsorbRequest(EMPTY_REQUEST, f))
  {
    assert m.unknown + [] == m.unknown;
    assert [] + [f] == [f];
  }

  lemma {:induction false} FoldRequestIsMerge(m: Request, fs: seq<Field>)
    ensures FoldRequest(m, fs) == MergeRequest(m, FoldRequest(EMPTY_REQUEST, fs))
    decreases |fs|
  {
    if fs == [] {
      assert m.unknown + [] == m.unknown;
    } else {
      var one, rest := AbsorbRequest(EMPTY_REQUEST, fs[0]), FoldRequest(EMPTY_REQUEST, fs[1..]);
      AbsorbRequestIsMerge(m, fs[0]);
      FoldRequestIsMerge(AbsorbRequest(m, fs[0]), fs[1..]);
      FoldRequestIsMerge(one, fs[1..]);
      MergeRequestAssociates(m, one, rest);
    }
  }

  lemma MergeRequestAssociates(a: Request, b: Request, c: Request)
    ensures MergeRequest(MergeRequest(a, b), c) == MergeRequest(a, MergeRequest(b, c))
  {
    assert a.unknown + b.unknown + c.unknown == a.unknown + (b.unknown + c.unknown);
  }

  lemma AbsorbResponseIsMerge(m: Response, f: Field)
    ensures AbsorbResponse(m, f) == MergeResponse(m, AbsorbResponse(EMPTY_RESPONSE, f))
  {
    assert m.unknown + [] == m.unknown;
    assert forall g: Field :: [] + [g] == [g];
  }

  lemma {:induction false} FoldResponseIsMerge(m: Response, fs: seq<Field>)
    ensures FoldResponse(m, fs) == MergeResponse(m, FoldResponse(EMPTY_RESPONSE, fs))
    decreases |fs|
  {
    if fs == [] {
      assert m.unknown + [] == m.unknown;
    } else {
      var one, rest := AbsorbResponse(EMPTY_RESPONSE, fs[0]), FoldResponse(EMPTY_RESPONSE, fs[1..]);
      AbsorbResponseIsMerge(m, fs[0]);
      FoldResponseIsMerge(AbsorbResponse(m, fs[0]), fs[1..]);
      FoldResponseIsMerge(one, fs[1..]);
      MergeResponseAssociates(m, one, rest);
    }
  }

  lemma MergeResponseAssociates(a: Response, b: Response, c: Response)
    ensures MergeResponse(MergeResponse(a, b), c) == MergeResponse(a, MergeResponse(b, c))
  {
    assert a.unknown + b.unknown + c.unknown == a.unknown + (b.unknown + c.unknown);
  }

  lemma {:induction false} FoldRequestAppends(m: Request, fs: seq<Field>, gs: seq<Field>)
    ensures FoldRequest(m, fs + gs) == FoldRequest(FoldRequest(m, fs), gs)
    decreases |fs|
  {
    if fs == [] {
      assert fs + gs == gs;
    } else {
      assert (fs + gs)[1..] == fs[1..] + gs;
      FoldRequestAppends(AbsorbRequest(m, fs[0]), fs[1..], gs);
    }
  }

  lemma {:induction false} FoldResponseAppends(m: Response, fs: seq<Field>, gs: seq<Field>)
    ensures FoldResponse(m, fs + gs) == FoldResponse(FoldResponse(m, fs), gs)
    decreases |fs|
  {
    if fs == [] {
      assert fs + gs == gs;
    } else {
      assert (fs + gs)[1..] == fs[1..] + gs;
      FoldResponseAppends(AbsorbResponse(m, fs[0]), fs[1..], gs);
    }
  }

  /** Parsing two messages end to end is merging the second into the first. */
  lemma RequestConcatenationMerges(a: bytes, b: bytes, ma: Request, mb: Request)
    requires RequestLoop(a, EMPTY_REQUEST) == ParseDone(ma, true)
    requires RequestLoop(b, EMPTY_REQUEST) == ParseDone(mb, true)
    ensures RequestLoop(a + b, EMPTY_REQUEST) == ParseDone(MergeRequest(ma, mb), true)
  {
    RequestLoopIsFold(a, EMPTY_REQUEST);
    RequestLoopIsFold(b, EMPTY_REQUEST);
    RequestLoopIsFold(a + b, EMPTY_REQUEST);
    BodiesConcatenate(a, b);
    FoldRequestAppends(EMPTY_REQUEST, ReadBody(a).fields, ReadBody(b).fields);
    FoldRequestIsMerge(ma, ReadBody(b).fields);
  }

  lemma ResponseConcatenationMerges(a: bytes, b: bytes, ma: Response, mb: Response)
    requires ResponseLoop(a, EMPTY_RESPONSE) == ParseDone(ma, true)
    requires ResponseLoop(b, EMPTY_RESPONSE) == ParseDone(mb, true)
    ensures ResponseLoop(a + b, EMPTY_RESPONSE) == ParseDone(MergeResponse(ma, mb), true)
  {
    ResponseLoopIsFold(a, EMPTY_RESPONSE);
    ResponseLoopIsFold(b, EMPTY_RESPONSE);
    ResponseLoopIsFold(a + b, EMPTY_RESPONSE);
    BodiesConcatenate(a, b);
    FoldResponseAppends(EMPTY_RESPONSE, ReadBody(a).fields, ReadBody(b).fields);
    FoldResponseIsMerge(ma, ReadBody(b).fields);
  }

  /* Round trips: exactly the messages whose unknown fields are not known ones. */

  /** `f` would come back as an unknown field of a Request. */
  predicate RequestKeeps(f: Field) {
    !(f.VarintField? && f.num == 1) && !(f.Lengthy? && f.num == 2)
  }

  /** For a Response a status that is not a valid one also stays unknown, if it is a sign-extended 32-bit value. */
  predicate ResponseKeeps(f: Field) {
    && !(f.VarintField? && f.num == 1)
    && !(f.Lengthy? && f.num == 3)
    && (f.VarintField? && f.num == 2 ==>
          !StatusIsValid(ToInt32(f.v % TWO32)) && SignExtend(ToInt32(f.v % TWO32)) == f.v)
  }

  lemma {:induction false} FoldRequestUnknown(m: Request, us: seq<Field>)
    ensures |FoldRequest(m, us).unknown| <= |m.unknown| + |us|
    ensures (forall i | 0 <= i < |us| :: RequestKeeps(us[i])) ==>
      FoldRequest(m, us) == m.(unknown := m.unknown + us)
    ensures |FoldRequest(m, us).unknown| == |m.unknown| + |us| ==>
      forall i | 0 <= i < |us| :: RequestKeeps(us[i])
    decreases |us|
  {
    if us == [] {
      assert m.unknown + us == m.unknown;
    } else {
      var m' := AbsorbRequest(m, us[0]);
      FoldRequestUnknown(m', us[1..]);
      assert RequestKeeps(us[0]) <==> |m'.unknown| == |m.unknown| + 1;
      assert m.unknown + [us[0]] + us[1..] == m.unknown + us;
      assert forall i | 0 < i < |us| :: us[i] == us[1..][i - 1];
    }
  }

  /** What `f` leaves among the unknown fields of a Response. */
  function ResponseResidue(f: Field): seq<Field> {
    AbsorbResponse(EMPTY_RESPONSE, f).unknown
  }

  lemma ResidueKept(f: Field)
    ensures |ResponseResidue(f)| <= 1
    ensures ResponseResidue(f) == [f] <==> ResponseKeeps(f)
    ensures ResponseKeeps(f) ==> AbsorbResponse(EMPTY_RESPONSE, f) == EMPTY_RESPONSE.(unknown := [f])
  {
    var r := ResponseResidue(f);
    assert r == [f] ==> |r| == 1 && r[0] == f;
    assert |r| == 1 && r[0] == f ==> r == [f];
    assert [] + [f] == [f];
  }

  function Residues(us: seq<Field>): seq<Field> {
    if us == [] then [] else ResponseResidue(us[0]) + Residues(us[1..])
  }

  lemma {:induction false} FoldResponseUnknown(m: Response, us: seq<Field>)
    ensures FoldResponse(m, us).unknown == m.unknown + Residues(us)
    decreases |us|
  {
    if us == [] {
      assert m.unknown + Residues(us) == m.unknown;
    } else {
      var f := us[0];
      AbsorbResponseIsMerge(m, f);
      FoldResponseUnknown(AbsorbResponse(m, f), us[1..]);
      assert m.unknown + ResponseResidue(f) + Residues(us[1..]) == m.unknown + (ResponseResidue(f) + Residues(us[1..]));
    }
  }

  lemma {:induction false} ResiduesShrink(us: seq<Field>)
    ensures |Residues(us)| <= |us|
  {
    if us != [] {
      ResidueKept(us[0]);
      ResiduesShrink(us[1..]);
    }
  }

  lemma {:induction false} ResiduesAll(us: seq<Field>)
    requires Residues(us) == us
    ensures forall i | 0 <= i < |us| :: ResponseKeeps(us[i])
  {
    if us != [] {
      ResidueKept(us[0]);
      ResiduesShrink(us[1..]);
      var r := ResponseResidue(us[0]);
      assert |r| == 1;
      assert us[0] == (r + Residues(us[1..]))[0] == r[0];
      assert us[1..] == (r + Residues(us[1..]))[1..] == Residues(us[1..]);
      ResiduesAll(us[1..]);
      assert forall i | 0 < i < |us| :: us[i] == us[1..][i - 1];
    }
  }

  lemma {:induction false} FoldResponseKeeps(m: Response, us: seq<Field>)
    requires forall i | 0 <= i < |us| :: ResponseKeeps(us[i])
    ensures FoldResponse(m, us) == m.(unknown := m.unknown + us)
    decreases |us|
  {
    if us == [] {
      assert m.unknown + us == m.unknown;
    } else {
      ResidueKept(us[0]);
      AbsorbResponseIsMerge(m, us[0]);
      FoldResponseKeeps(AbsorbResponse(m, us[0]), us[1..]);
      assert m.unknown + [us[0]] + us[1..] == m.unknown + us;
    }
  }

  lemma RequestKnownFields(m: Request)
    ensures FoldRequest(EMPTY_REQUEST, IdField(m.id) + StringField(2, m.identity)) == m.(unknown := [])
  {
    FoldRequestAppends(EMPTY_REQUEST, IdField(m.id), StringField(2, m.identity));
    assert m.id.Some? ==> IdField(m.id)[1..] == [];
    assert m.identity.Some? ==> StringField(2, m.identity)[1..] == [];
  }

  /** A printed Request parses back to itself if and only if no unknown field of it is a known one. */
  lemma RequestRoundTrip(m: Request)
    requires RequestFits(m)
    ensures RequestLoop(PrintRequest(m), EMPTY_REQUEST) == ParseDone(m, true)
      <==> forall i | 0 <= i < |m.unknown| :: RequestKeeps(m.unknown[i])
  {
    var known := IdField(m.id) + StringField(2, m.identity);
    RequestPrintsFields(m);
    assert FitAll(known);
    PrintedFieldsRead(RequestFields(m));
    RequestLoopIsFold(PrintRequest(m), EMPTY_REQUEST);
    FoldRequestAppends(EMPTY_REQUEST, known, m.unknown);
    RequestKnownFields(m);
    FoldRequestUnknown(m.(unknown := []), m.unknown);
    assert [] + m.unknown == m.unknown;
  }

  lemma ResponseKnownFields(m: Response)
    ensures FoldResponse(EMPTY_RESPONSE, IdField(m.id) + StatusField(m.status) + StringField(3, m.message))
      == m.(unknown := [])
  {
    FoldResponseAppends(EMPTY_RESPONSE, IdField(m.id) + StatusField(m.status), StringField(3, m.message));
    FoldResponseAppends(EMPTY_RESPONSE, IdField(m.id), StatusField(m.status));
    assert m.id.Some? ==> IdField(m.id)[1..] == [];
    assert m.status.Some? ==> StatusField(m.status)[1..] == [];
    assert m.message.Some? ==> StringField(3, m.message)[1..] == [];
  }

  lemma ResponseReparses(m: Response)
    requires ResponseFits(m)
    ensures ResponseLoop(PrintResponse(m), EMPTY_RESPONSE)
      == ParseDone(FoldResponse(m.(unknown := []), m.unknown), true)
  {
    var known := IdField(m.id) + StatusField(m.status) + StringField(3, m.message);
    ResponsePrintsFields(m);
    assert FitAll(known);
    PrintedFieldsRead(ResponseFields(m));
    ResponseLoopIsFold(PrintResponse(m), EMPTY_RESPONSE);
    FoldResponseAppends(EMPTY_RESPONSE, known, m.unknown);
    ResponseKnownFields(m);
  }

  lemma ResponseRoundTrip(m: Response)
    requires ResponseFits(m)
    ensures ResponseLoop(PrintResponse(m), EMPTY_RESPONSE) == ParseDone(m, true)
      <==> forall i | 0 <= i < |m.unknown| :: ResponseKeeps(m.unknown[i])
  {
    ResponseReparses(m);
    FoldResponseUnknown(m.(unknown := []), m.unknown);
    assert [] + Residues(m.unknown) == Residues(m.unknown);
    assert [] + m.unknown == m.unknown;
    if Residues(m.unknown) == m.unknown {
      ResiduesAll(m.unknown);
    }
    if forall i | 0 <= i < |m.unknown| :: ResponseKeeps(m.unknown[i]) {
      FoldResponseKeeps(m.(unknown := []), m.unknown);
    }
  }

  /* Whatever was parsed round-trips. */

  predicate RequestClean(m: Request) {
    RequestFits(m) && forall i | 0 <= i < |m.unknown| :: RequestKeeps(m.unknown[i])
  }

  predicate ResponseClean(m: Response) {
    ResponseFits(m) && forall i | 0 <= i < |m.unknown| :: ResponseKeeps(m.unknown[i])
  }

  lemma {:induction false} FoldRequestClean(m: Request, fs: seq<Field>)
    requires RequestClean(m) && FitAll(fs)
    ensures RequestClean(FoldRequest(m, fs))
    decreases |fs|
  {
    if fs != [] {
      assert Fits(fs[0]);
      FoldRequestClean(AbsorbRequest(m, fs[0]), fs[1..]);
    }
  }

  lemma AbsorbResponseClean(m: Response, f: Field)
    requires ResponseClean(m) && Fits(f)
    ensures ResponseClean(AbsorbResponse(m, f))
  {
    if f.VarintField? && f.num == 2 {
      SignExtended(f.v % TWO32);
    }
  }

  /** Sign extension is undone by truncation, so an invalid status stays the same field. */
  lemma SignExtended(w: uint32)
    ensures SignExtend(ToInt32(w)) % TWO32 == w
  {
    if w >= TWO31 {
      assert SignExtend(ToInt32(w)) == TWO32 * (TWO32 - 1) + w;
    }
  }

  lemma {:induction false} FoldResponseClean(m: Response, fs: seq<Field>)
    requires ResponseClean(m) && FitAll(fs)
    ensures ResponseClean(FoldResponse(m, fs))
    decreases |fs|
  {
    if fs != [] {
      assert Fits(fs[0]);
      AbsorbResponseClean(m, fs[0]);
      FoldResponseClean(AbsorbResponse(m, fs[0]), fs[1..]);
    }
  }

  /** Printing a parsed Request and parsing it again changes nothing. */
  lemma RequestReparseIdempotent(s: bytes, m: Request)
    requires RequestLoop(s, EMPTY_REQUEST) == ParseDone(m, true)
    ensures RequestLoop(PrintRequest(m), EMPTY_REQUEST) == ParseDone(m, true)
    ensures RequestFits(m) && |PrintRequest(m)| == RequestByteSize(m)
  {
    RequestLoopIsFold(s, EMPTY_REQUEST);
    BodyReadFits(s);
    FoldRequestClean(EMPTY_REQUEST, ReadBody(s).fields);
    RequestRoundTrip(m);
    RequestSizeExact(m);
  }

  /** The same for a Response, invalid status values included. */
  lemma ResponseReparseIdempotent(s: bytes, m: Response)
    requires ResponseLoop(s, EMPTY_RESPONSE) == ParseDone(m, true)
    ensures ResponseLoop(PrintResponse(m), EMPTY_RESPONSE) == ParseDone(m, true)
    ensures ResponseFits(m) && |PrintResponse(m)| == ResponseByteSize(m)
  {
    ResponseLoopIsFold(s, EMPTY_RESPONSE);
    BodyReadFits(s);
    FoldResponseClean(EMPTY_RESPONSE, ReadBody(s).fields);
    ResponseRoundTrip(m);
    ResponseSizeExact(m);
  }
}
