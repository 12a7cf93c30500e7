/**
 From a request frame to an answer: the dispatch that carrot_async_server.cpp,
 carrot_simple_server.cpp and carrot_threaded_server.cpp each spell out.
 */
module Dispatch {
  import opened Wire
  import opened RpcMessages
  import opened RpcCodec
  import opened ClientModel

  /** Serialization of user messages; see `RoundTrips`. */
  datatype Codec = Codec(encode: Msg -> bytes, decode: bytes -> Option<Msg>)

  ghost predicate RoundTrips(c: Codec) {
    forall m :: c.decode(c.encode(m)) == Some(m)
  }

  /** How a service method ended. The response object is serialized in either case. */
  datatype Ran = Returned(resp: Msg, failed: bool, text: bytes) | Threw(resp: Msg, what: bytes)

  /** A server: its codec, the methods of its registered services, and what they do. */
  datatype Env = Env(codec: Codec, registry: map<bytes, set<bytes>>, run: (bytes, bytes, Msg) -> Ran)

  /* Registration. */

  datatype Registration = Registration(service: bytes, methods: set<bytes>)

  /** What the table holds after one registration after the other. */
  function Registered(rs: seq<Registration>): map<bytes, set<bytes>> {
    if rs == [] then map[]
    else
      var reg, r := Registered(rs[..|rs| - 1]), rs[|rs| - 1];
      if r.service in reg then reg else reg[r.service := r.methods]
  }

  class ServiceTable {
    var services: map<bytes, set<bytes>>
    ghost var history: seq<Registration>

    ghost predicate Valid()
      reads this
    {
      services == Registered(history)
    }

    constructor ()
      ensures Valid() && history == []
    {
      services, history := map[], [];
    }

    /** `RegisterService`: refused if the name is taken. */
    method RegisterService(r: Registration) returns (ok: bool)
      requires Valid()
      modifies this
      ensures Valid() && history == old(history) + [r]
      ensures ok <==> r.service !in old(services)
      ensures services == if ok then old(services)[r.service := r.methods] else old(services)
    {
      history := history + [r];
      assert history[..|history| - 1] == old(history);
      if r.service in services {
        return false;
      }
      services := services[r.service := r.methods];
      return true;
    }
  }

  /** A name stands for the service that registered it first, whatever came later. */
  lemma {:induction false} FirstRegistrationStands(rs: seq<Registration>, i: nat)
    requires i < |rs| && forall j | 0 <= j < i :: rs[j].service != rs[i].service
    ensures rs[i].service in Registered(rs) && Registered(rs)[rs[i].service] == rs[i].methods
    decreases |rs|
  {
    if i < |rs| - 1 {
      FirstRegistrationStands(rs[..|rs| - 1], i);
    } else {
      OnlyRegistered(rs[..i], rs[i].service);
    }
  }

  lemma {:induction false} OnlyRegistered(rs: seq<Registration>, name: bytes)
    ensures name in Registered(rs) <==> exists j :: 0 <= j < |rs| && rs[j].service == name
    decreases |rs|
  {
    if rs != [] {
      OnlyRegistered(rs[..|rs| - 1], name);
    }
  }

  /* Method identities. */

  const DOT: byte := 46

  /** The client's `service()->name() + "." + name()`. */
  function Join(service: bytes, name: bytes): bytes {
    service + [DOT] + name
  }

  /** `find_first_of('.')` */
  function FirstDot(s: bytes): (r: Option<nat>)
    ensures r.None? <==> DOT !in s
    ensures r.Some? ==> r.value < |s| && s[r.value] == DOT && DOT !in s[..r.value]
  {
    if s == [] then None
    else if s[0] == DOT then Some(0)
    else
      var r := FirstDot(s[1..]);
      if r.None? then None
      else
        assert s[..r.value + 1] == [s[0]] + s[1..][..r.value];
        Some(r.value + 1)
  }

  /** Splitting at the first dot undoes the client's join exactly for service names without one. */
  lemma JoinSplits(service: bytes, name: bytes)
    ensures var id, pos := Join(service, name), FirstDot(Join(service, name));
      && pos.Some?
      && (id[..pos.value] == service && id[pos.value + 1..] == name <==> DOT !in service)
  {
    var id, pos := Join(service, name), FirstDot(Join(service, name));
    assert id[|service|] == DOT && id[..|service|] == service && id[|service| + 1..] == name;
    assert id[..pos.value] == service ==> pos.value == |service|;
    if pos.value < |service| {
      assert DOT in service;
    }
  }

  /* Verdicts. */

  datatype Verdict = Dropped | Respond(meta: Response, param: Option<Msg>) | Raised

  function Text(s: string): bytes {
    seq(|s|, i requires 0 <= i < |s| => s[i] as int % 256)
  }

  function Refusal(id: Option<uint64>, text: string): Verdict {
    Respond(Response(id, Some(NOT_FOUND), Some(Text(text)), []), None)
  }

  const INVALID_IDENTITY := "invalid method method identity"
  const NO_SERVICE := "service not found"
  const NO_METHOD := "method not found"

  /**
   carrot_async_server.cpp, from what its two parsers made of the request: the
   reply carries the request's id; an exception counts as a failure.
   */
  function AsyncDecide(env: Env, rpc: Option<Request>, request: Option<Msg>): Verdict
    requires rpc.Some? ==> RequestInitialized(rpc.value)
  {
    if rpc.None? then Dropped
    else
      var id, identity := rpc.value.id, rpc.value.identity.value;
      var pos := FirstDot(identity);
      if pos.None? then Refusal(id, INVALID_IDENTITY)
      else
        var service, name := identity[..pos.value], identity[pos.value + 1..];
        if service !in env.registry then Refusal(id, NO_SERVICE)
        else if name !in env.registry[service] then Refusal(id, NO_METHOD)
        else if request.None? then Dropped
        else match env.run(service, name, request.value)
          case Returned(resp, failed, text) =>
            if failed then Respond(Response(id, Some(FAILED), Some(text), []), Some(resp))
            else Respond(Response(id, Some(SUCCESS), None, []), Some(resp))
          case Threw(resp, what) =>
            Respond(Response(id, Some(FAILED), Some(Text("Server Internal Error ") + what), []), Some(resp))
  }

  function AsyncVerdict(env: Env, meta: bytes, req: bytes): Verdict {
    AsyncDecide(env, ParseRequest(meta), env.codec.decode(req))
  }

  /** carrot_simple_server.cpp: no reply carries an id, and exceptions escape. */
  function SimpleDecide(env: Env, rpc: Option<Request>, request: Option<Msg>): Verdict
    requires rpc.Some? ==> RequestInitialized(rpc.value)
  {
    if rpc.None? then Dropped
    else
      var identity := rpc.value.identity.value;
      var pos := FirstDot(identity);
      if pos.None? then Refusal(None, INVALID_IDENTITY)
      else
        var service, name := identity[..pos.value], identity[pos.value + 1..];
        if service !in env.registry then Refusal(None, NO_SERVICE)
        else if name !in env.registry[service] then Refusal(None, NO_METHOD)
        else if request.None? then Dropped
        else match env.run(service, name, request.value)
          case Returned(resp, failed, _) =>
            if failed then Respond(Response(None, Some(FAILED), Some(Text("server side failure")), []), Some(resp))
            else Respond(Response(None, Some(SUCCESS), None, []), Some(resp))
          case Threw(_, _) => Raised
  }

  function SimpleVerdict(env: Env, meta: bytes, req: bytes): Verdict {
    SimpleDecide(env, ParseRequest(meta), env.codec.decode(req))
  }

  /**
   The body of the threaded server's loop over one request. Its early exits are
   `continue`s; after a drop the descriptor is closed, so the next read ends the loop.
   */
  method ThreadedTurn(env: Env, meta: bytes, req: bytes) returns (v: Verdict)
    ensures v == SimpleVerdict(env, meta, req)
  {
    var rpcReq := ParseRequest(meta);
    if rpcReq.None? {
      return Dropped;
    }
    var resp := EMPTY_RESPONSE;
    var identity := rpcReq.value.identity.value;
    var pos := FirstDot(identity);
    if pos.None? {
      resp := resp.(status := Some(NOT_FOUND));
      resp := resp.(message := Some(Text(INVALID_IDENTITY)));
      return Respond(resp, None);
    }
    var service, name := identity[..pos.value], identity[pos.value + 1..];
    if service !in env.registry {
      resp := resp.(status := Some(NOT_FOUND));
      resp := resp.(message := Some(Text(NO_SERVICE)));
      return Respond(resp, None);
    }
    if name !in env.registry[service] {
      resp := resp.(status := Some(NOT_FOUND));
      resp := resp.(message := Some(Text(NO_METHOD)));
      return Respond(resp, None);
    }
    var request := env.codec.decode(req);
    if request.None? {
      return Dropped;
    }
    var ran := env.run(service, name, request.value);
    if ran.Threw? {
      return Raised;
    }
    if ran.failed {
      resp := resp.(status := Some(FAILED));
      resp := resp.(message := Some(Text("server side failure")));
    } else {
      resp := resp.(status := Some(SUCCESS));
    }
    return Respond(resp, Some(ran.resp));
  }

  /* Agreement. */

  /** What a caller can tell verdicts apart by: drop or status, and the response parameter. */
  datatype Choice = Drop | Answer(status: Status, param: Option<Msg>) | Crash

  function ChoiceOf(v: Verdict): Choice {
    match v
    case Dropped => Drop
    case Respond(meta, param) => if meta.status.Some? then Answer(meta.status.value, param) else Crash
    case Raised => Crash
  }

  /** The method a request names, if it is registered: its name follows the first dot of the identity. */
  ghost predicate Names(env: Env, identity: bytes, service: bytes, name: bytes) {
    && DOT !in service && identity == Join(service, name)
    && service in env.registry && name in env.registry[service]
  }

  /** The dispatch rule, said once: which answer a request deserves. */
  ghost predicate Deserves(env: Env, meta: bytes, req: bytes, c: Choice) {
    var rpc := ParseRequest(meta);
    if rpc.None? then c == Drop
    else
      var identity := rpc.value.identity.value;
      if !exists service, name :: Names(env, identity, service, name) then c == Answer(NOT_FOUND, None)
      else exists service, name ::
        && Names(env, identity, service, name)
        && match env.codec.decode(req)
           case None => c == Drop
           case Some(request) =>
             match env.run(service, name, request)
             case Returned(resp, failed, _) => c == Answer(if failed then FAILED else SUCCESS, Some(resp))
             case Threw(resp, _) => c == Answer(FAILED, Some(resp)) || c == Crash
  }

  lemma NamesUnique(env: Env, identity: bytes, service: bytes, name: bytes)
    requires Names(env, identity, service, name)
    ensures var pos := FirstDot(identity);
      pos.Some? && service == identity[..pos.value] && name == identity[pos.value + 1..]
  {
    JoinSplits(service, name);
  }

  lemma FirstDotNames(env: Env, identity: bytes)
    ensures var pos := FirstDot(identity);
      (exists service, name :: Names(env, identity, service, name)) <==>
        && pos.Some? && identity[..pos.value] in env.registry
        && identity[pos.value + 1..] in env.registry[identity[..pos.value]]
  {
    var pos := FirstDot(identity);
    if service, name :| Names(env, identity, service, name) {
      NamesUnique(env, identity, service, name);
    }
    if pos.Some? {
      var service, name := identity[..pos.value], identity[pos.value + 1..];
      assert identity == Join(service, name);
      if service in env.registry && name in env.registry[service] {
        assert Names(env, identity, service, name);
      }
    }
  }

  lemma SplitNames(env: Env, identity: bytes)
    requires exists service, name :: Names(env, identity, service, name)
    ensures var pos := FirstDot(identity);
      pos.Some? && Names(env, identity, identity[..pos.value], identity[pos.value + 1..])
  {
    var service, name :| Names(env, identity, service, name);
    NamesUnique(env, identity, service, name);
  }

  /** Each server answers by the rule. */
  lemma AsyncDeserved(env: Env, meta: bytes, req: bytes)
    ensures Deserves(env, meta, req, ChoiceOf(AsyncVerdict(env, meta, req)))
  {
    var rpc := ParseRequest(meta);
    if rpc.Some? {
      var identity := rpc.value.identity.value;
      FirstDotNames(env, identity);
      if exists service, name :: Names(env, identity, service, name) {
        SplitNames(env, identity);
      }
    }
  }

  lemma SimpleDeserved(env: Env, meta: bytes, req: bytes)
    ensures Deserves(env, meta, req, ChoiceOf(SimpleVerdict(env, meta, req)))
  {
    var rpc := ParseRequest(meta);
    if rpc.Some? {
      var identity := rpc.value.identity.value;
      FirstDotNames(env, identity);
      if exists service, name :: Names(env, identity, service, name) {
        SplitNames(env, identity);
      }
    }
  }

  /** The servers make the same choice on a request exactly when its method does not throw. */
  lemma DispatchersAgree(env: Env, meta: bytes, req: bytes)
    ensures ChoiceOf(AsyncVerdict(env, meta, req)) == ChoiceOf(SimpleVerdict(env, meta, req))
      <==> !MethodThrows(env, meta, req)
  {
  }

  /** The request reaches a registered method, and that method throws. */
  predicate MethodThrows(env: Env, meta: bytes, req: bytes) {
    var rpc := ParseRequest(meta);
    rpc.Some? &&
    var identity, pos := rpc.value.identity.value, FirstDot(rpc.value.identity.value);
    pos.Some? &&
    var service, name := identity[..pos.value], identity[pos.value + 1..];
    && service in env.registry && name in env.registry[service]
    && env.codec.decode(req).Some? && env.run(service, name, env.codec.decode(req).value).Threw?
  }

  /* Every verdict, with its words. */

  lemma SplitAt(service: bytes, name: bytes)
    requires 46 !in service
    ensures var id := service + [46] + name;
      FirstDot(id) == Some(|service|) && id[..|service|] == service && id[|service| + 1..] == name
  {
    JoinSplits(service, name);
  }

  /** No dot in the identity. */
  lemma NamelessRefused(env: Env, meta: bytes, req: bytes)
    requires ParseRequest(meta).Some? && 46 !in ParseRequest(meta).value.identity.value
    ensures AsyncVerdict(env, meta, req) == Respond(
      Response(ParseRequest(meta).value.id, Some(NOT_FOUND), Some(Text("invalid method method identity")), []), None)
    ensures SimpleVerdict(env, meta, req) == Respond(
      Response(None, Some(NOT_FOUND), Some(Text("invalid method method identity")), []), None)
  {
  }

  /** The request is for that service and that method. */
  predicate Asks(meta: bytes, service: bytes, name: bytes) {
    46 !in service && ParseRequest(meta).Some? && ParseRequest(meta).value.identity == Some(service + [46] + name)
  }

  lemma UnregisteredRefused(env: Env, meta: bytes, req: bytes, service: bytes, name: bytes)
    requires Asks(meta, service, name) && (service !in env.registry || name !in env.registry[service])
    ensures var text := if service !in env.registry then "service not found" else "method not found";
      && AsyncVerdict(env, meta, req)
           == Respond(Response(ParseRequest(meta).value.id, Some(NOT_FOUND), Some(Text(text)), []), None)
      && SimpleVerdict(env, meta, req) == Respond(Response(None, Some(NOT_FOUND), Some(Text(text)), []), None)
  {
    SplitAt(service, name);
  }

  /** Metadata that does not parse, or a parameter that does not parse for the method asked for. */
  ghost predicate Unreadable(env: Env, meta: bytes, req: bytes) {
    ParseRequest(meta).None? || exists service, name :: UnreadableFor(env, meta, req, service, name)
  }

  ghost predicate UnreadableFor(env: Env, meta: bytes, req: bytes, service: bytes, name: bytes) {
    Asks(meta, service, name) && service in env.registry && name in env.registry[service] && env.codec.decode(req) == None
  }

  /** Such a request is dropped, and no other. */
  lemma UnreadableDropped(env: Env, meta: bytes, req: bytes)
    ensures AsyncVerdict(env, meta, req) == Dropped <==> Unreadable(env, meta, req)
    ensures SimpleVerdict(env, meta, req) == Dropped <==> Unreadable(env, meta, req)
  {
    if ParseRequest(meta).Some? {
      var identity := ParseRequest(meta).value.identity.value;
      var pos := FirstDot(identity);
      if service, name :| UnreadableFor(env, meta, req, service, name) {
        UnreadableAsked(env, meta, req, service, name);
      } else if pos.Some? {
        var service, name := identity[..pos.value], identity[pos.value + 1..];
        assert identity == service + [46] + name;
        assert Asks(meta, service, name) && !UnreadableFor(env, meta, req, service, name);
        UnreadableAsked(env, meta, req, service, name);
      }
    }
  }

  lemma UnreadableAsked(env: Env, meta: bytes, req: bytes, service: bytes, name: bytes)
    requires Asks(meta, service, name)
    ensures AsyncVerdict(env, meta, req) == Dropped <==> UnreadableFor(env, meta, req, service, name)
    ensures SimpleVerdict(env, meta, req) == Dropped <==> UnreadableFor(env, meta, req, service, name)
  {
    SplitAt(service, name);
  }

  lemma ReadableJudged(env: Env, meta: bytes, req: bytes)
    requires !Unreadable(env, meta, req)
    ensures var v := SimpleVerdict(env, meta, req);
      if MethodThrows(env, meta, req) then v.Raised? else v.Respond?
    ensures AsyncVerdict(env, meta, req).Respond?
  {
    UnreadableDropped(env, meta, req);
  }

  /** The asynchronous server passes on what the method or its exception said; the others say the same of every failure. */
  lemma MethodAnswers(env: Env, meta: bytes, req: bytes, service: bytes, name: bytes, request: Msg)
    requires Asks(meta, service, name) && service in env.registry && name in env.registry[service]
    requires env.codec.decode(req) == Some(request)
    ensures var id, a, b := ParseRequest(meta).value.id, AsyncVerdict(env, meta, req), SimpleVerdict(env, meta, req);
      match env.run(service, name, request)
      case Returned(resp, false, _) =>
        && a == Respond(Response(id, Some(SUCCESS), None, []), Some(resp))
        && b == Respond(Response(None, Some(SUCCESS), None, []), Some(resp))
      case Returned(resp, true, text) =>
        && a == Respond(Response(id, Some(FAILED), Some(text), []), Some(resp))
        && b == Respond(Response(None, Some(FAILED), Some(Text("server side failure")), []), Some(resp))
      case Threw(resp, what) =>
        && a == Respond(Response(id, Some(FAILED), Some(Text("Server Internal Error ") + what), []), Some(resp))
        && b == Raised
  {
    SplitAt(service, name);
  }

  /* What the metadata of a reply means to a client. */

  /** The asynchronous server's metadata parses back, under the request's id. */
  lemma AsyncReplyParses(env: Env, meta: bytes, req: bytes)
    requires AsyncVerdict(env, meta, req).Respond?
    requires ResponseFits(AsyncVerdict(env, meta, req).meta)
    ensures var m := AsyncVerdict(env, meta, req).meta;
      ParseResponse(PrintResponse(m)) == Some(m) && m.id == ParseRequest(meta).value.id
  {
    ResponseRoundTrip(AsyncVerdict(env, meta, req).meta);
  }

  /** No reply of the other two servers is a complete Response, so every client refuses it. */
  lemma SimpleReplyRefused(env: Env, meta: bytes, req: bytes)
    requires SimpleVerdict(env, meta, req).Respond?
    requires ResponseFits(SimpleVerdict(env, meta, req).meta)
    ensures ParseResponse(PrintResponse(SimpleVerdict(env, meta, req).meta)) == None
  {
    ResponseRoundTrip(SimpleVerdict(env, meta, req).meta);
  }

  /** The blocking client sends no id, so every server drops its requests. */
  lemma BlockingRequestDropped(env: Env, identity: bytes, req: bytes)
    requires |identity| < TWO32
    ensures var meta := PrintRequest(Request(None, Some(identity), []));
      AsyncVerdict(env, meta, req) == Dropped && SimpleVerdict(env, meta, req) == Dropped
  {
    RequestRoundTrip(Request(None, Some(identity), []));
  }
}
