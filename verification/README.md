# Verification of carrot-rpc

A Dafny model of carrot-rpc and proofs about it. carrot-rpc carries protobuf
calls over TCP: a client sends a frame with a `Request` and the serialized
parameter, a server looks the method up, runs it, and sends back a frame with a
`Response` and the result.

`dafny verify dfyconfig.toml` checks the whole project.

## What is modelled

| files | part of the system |
|---|---|
| `Wire.dfy`, `RpcMessages.dfy`, `RpcCodec.dfy`, `OnTheWire.dfy` | the Protocol Buffers encoding as rpc.pb.cc uses it, the generated `Request` and `Response`, and the bytes all this comes to |
| `Frames.dfy`, `Transfers.dfy`, `Pipes.dfy` | the 12-byte frame header; `read_n`/`write_n`, with `errno`, over short, interrupted and failing transfers; and the two ends at work on one stream |
| `Buffers.dfy` | `expand_packet` |
| `ClientModel.dfy`, `ClientSafety.dfy`, `ClientRuns.dfy`, `ClientReads.dfy`, `ClientOutcomes.dfy`, `ClientBreaks.dfy` | the asynchronous client connection as a state machine, its invariant, and what a caller may rely on |
| `CallPackets.dfy` | a `call_task` and the packet `start_call` builds in it |
| `ClientConnection.dfy` | `RpcClientConnection` and `CarrotAsyncChannel`: task objects, the map of outgoing ones and the reply buffer updated in place, turn by turn equal to the state machine |
| `Dispatch.dfy` | from a request to an answer, in all three servers; service registration |
| `ServerModel.dfy`, `AsyncServer.dfy` | a connection of the asynchronous server over its one buffer |
| `SimpleServer.dfy` | the simple server's connection pool and request handler |
| `ThreadedServer.dfy` | the threaded server's loop over one connection |
| `EndToEnd.dfy`, `SuccessfulCall.dfy` | one client connection and the asynchronous server's connections together, over byte streams, those the client has left behind included; and that a call can get its answer |
| `NetworkedClient.dfy` | the client's objects over those streams |

In the client every handler is one atomic step. What the network, the timers,
the allocator and the printer do is part of the step's event, so every order and
every failure is covered. What a user callback does is a finite tree of further
calls, so callbacks may re-enter `issue`, to any depth, and may throw.

The main results:

* `EndToEnd.EndToEnd`: in every run of client and server, with reconnects,
  timeouts, errors and re-entrant callbacks, a callback that sees an unfailed
  controller holds what the registered method it called returned for its own
  request. It rests on the client invariant, the frame stream, the parser's
  round trip and the server's cycle.
* `EndToEnd.DispatchedOnce`: in every such run no call is dispatched twice, and no
  request is answered twice, on the current connection and on all that the client
  has left behind, which go on with what they were sent.
* `NetworkedClient.Turn`: the same for the objects of `ClientConnection`, buffer
  bytes and all: what the network delivers to an object is an event of such a run,
  and every unfailed callback it ran holds its own method's answer.
* `SuccessfulCall.CallSucceeds`: the other half. After any run that leaves the socket
  open and nothing under way, any call whose method is registered and returns, and
  whose frames fit, is answered within five events.
* `ClientRuns.StepKeeps`, and from it `AtMostOnce`, `NoCallLost`,
  `QuiescentExactlyOnce`, `HonestSuccess`, `TimerCovers`, `IdsIncrease`,
  `EnteredOnce`: the client connection completes each call once, loses none, and
  reports success only for an answer it received.
* `ClientOutcomes.DestroyCompletesAll` and `DestroyInOrder`: `destroy` fails every
  waiting call with `EC_FAILED`, in the order of the ids; and
  `ClientBreaks.BrokenConnection`: every event that gives the connection up does that
  to all calls but its own. `ClientOutcomes.IssuedTimerCovers`: a call's own timeout
  is what its timer waits for, over every run.
* `OnTheWire.CallBytes`, `ReplyBytes`, `RequestParsedIff` and `ResponseParsedIff`:
  the bytes of calls and replies with every tag and status number, and exactly
  what the two parsers accept.
* `RpcMessages.MergePartialRequest` and `MergePartialResponse`: the generated
  parse loops with their jumps do what a plain loop over tags does; and
  `RpcCodec`: printing and parsing are inverse exactly for messages whose
  unknown fields are not known ones, everything ever parsed is such a message,
  and parsing a concatenation is `MergeFrom`.
* `Transfers.ReadReturnsIff`, and over it `ThreadedServer.HandleClient`: what a
  thread sends, and whether it ever ends, for every byte string a client may send
  and every way its system calls may go; `SimpleServer.CarrotSimpleServer.HandleClient`
  and `RunPool` for the server that has one thread.
* `ServerModel.ServerCycle`, `SizeIsLongest` and `ReplyOverrunsIff` for the
  asynchronous server's connection and its buffer, and `Dispatch.DispatchersAgree`
  for all three servers.

## Where the code falls short

These are consequences of the code as it is written, proved with the exact
condition under which it does what is wanted.

* The asynchronous server expands its buffer to the size of the request before it
  writes a reply of another size (src/server/carrot_async_server.cpp:164-167). In
  every run the buffer has the size that the longest request so far asks for
  (`ServerModel.SizeIsLongest`), so the next reply overruns it if and only if it is
  longer than that (`ServerModel.ReplyOverrunsIff`). `ServerModel.ReplyMayOverrun`
  is a run from `accept` that ends so: a 17-byte request, a 32-byte buffer, and a
  48-byte refusal.
* The same server adds a request's lengths up in 32 bits
  (src/server/carrot_async_server.cpp:45) and then parses as many bytes as the
  lengths say. The request lies within what was read if and only if the sum stays
  below 2^32, in every run: `ServerModel.OverReadIff`. `ServerModel.OverReadMay` is a
  run from `accept` in which 2^31 - 1 bytes of metadata are parsed out of a 32-byte
  buffer.
* `read_n` tests `errno` also at the end of file, which does not set it
  (src/common/utils.cpp:164-173). It returns if and only if the bytes are there, or
  a failure other than EINTR comes, or `errno` is not EINTR when the end is reached:
  `Transfers.ReadReturnsIff`. `Transfers.ReadMaySpin` is one interrupted call
  followed by the end. So a thread whose client closes in good order ends if and only
  if `errno` was not EINTR at first and no call was interrupted since:
  `ThreadedServer.InterruptedThreadHangs` and `HandleClient`. The simple server reads
  with the same loop on the one thread of its reactor, so there such a client stops
  the whole server: `SimpleServer.InterruptedServerHangs` and `HandleClient`.
* The simple and the threaded server never set the `id` that `Response`
  requires, so a client that parses the reply refuses it:
  `Dispatch.SimpleReplyRefused`. The blocking client never sets the `id` of a
  `Request`, so every server drops it: `Dispatch.BlockingRequestDropped`.
* The three dispatchers make the same choice exactly when the method does not
  throw: `Dispatch.DispatchersAgree`.
* The doubling loop of `expand_packet` ends exactly for requests of at most 2^31
  bytes: `Buffers.DoublingEndsIff`, and `Buffers.EndlessIff` for every size a buffer
  can have. A call or a reply above that keeps its thread for ever, too:
  `ClientConnection.RpcClientConnection.Prepare`, `ThreadedServer.RespondToClient`.
* `conns()` returns a copy (src/client/carrot_async_channel.h:168), so a destroyed
  connection stays in the channel's map. The next call goes to the same object,
  under an id above all it ever gave out:
  `ClientConnection.CarrotAsyncChannel.CallAfterDestroy`.

## Model

| member | source | states |
|---|---|---|
| `EndToEnd.EndToEnd` | src/client/carrot_async_channel.cpp:204-347 | in every run of client, server and byte streams, an unfailed callback's response is what the method it called returned, unfailed, for the call's own request |
| `SuccessfulCall.CallSucceeds` | src/client/carrot_async_channel.cpp:98-347 | after any run that leaves the socket open, the streams empty, the server waiting and a header read pending, any registered, returning method whose frames fit can answer: five events, from `issue` to the callback, add exactly an unfailed completion with its result |
| `SuccessfulCall.FirstCallSucceeds` | src/client/carrot_async_channel.cpp:98-347 | the same from a fresh connection, which resolves and connects first: seven events |
| `SuccessfulCall.VerdictIsSuccess` | src/server/carrot_async_server.cpp:69-145 | the frame `start_call` prints is parsed, split and looked up to the method it names, and answered with SUCCESS under its id |
| `SuccessfulCall.AnswerStep` | src/server/carrot_async_server.cpp:61-191 | the server, having read that payload, puts exactly the reply's frame on the stream |
| `SuccessfulCall.ReplyBack` | src/client/carrot_async_channel.cpp:294-347 | the client, having read the reply's payload, completes the call with the parsed response |
| `EndToEnd.SysRunKeeps` | src/server/carrot_async_server.cpp:61-191 | every run keeps: all streams are aligned with the frames still to be read, frames up are calls of the client, frames down and frames received are replies of the server to such calls |
| `EndToEnd.ClientKeeps` | src/client/carrot_async_channel.cpp:267-347 | each client handler keeps that system invariant, across closing and reconnecting |
| `EndToEnd.ServerKeeps` | src/server/carrot_async_server.cpp:38-150 | each server handler keeps it, on the current connection and on any the client has left |
| `EndToEnd.SuccessProduced` | src/server/carrot_async_server.cpp:125-145 | a SUCCESS verdict on the frame of a call carries what that call's method returned for that call's request |
| `EndToEnd.ReceivedIsServed` | src/client/carrot_async_channel.cpp:297-334 | a payload the client reads in full is the metadata and the parameter of one reply of the server |
| `EndToEnd.DispatchedOnce` | src/server/carrot_async_server.cpp:61-150 | at most once: in every run, on the current connection and on all left behind, no two dispatched requests carry the same id and no two replies answer the same request |
| `EndToEnd.OnceAlong` | src/client/carrot_async_channel.cpp:241-251 | what that rests on: along every run the frames taken, and those still on any stream, have different ids, all of calls that were sent; replies name requests in the order taken |
| `NetworkedClient.Turn` | src/client/carrot_async_channel.cpp:27-370 | one turn of the object with what the network delivers is an event of the system; the object stays its client, the invariant holds, and every unfailed callback so far holds what its own method returned for its own request |
| `NetworkedClient.DeliveredMay` | src/client/carrot_async_channel.cpp:267-300 | any input that the network may deliver to the object is an event that the system allows |
| `NetworkedClient.SeenIsSent` | src/client/carrot_async_channel.cpp:297-334 | what the object parses out of its buffer is what the lengths of the stream's frame cut out of the stream |
| `ClientRuns.StepKeeps` | src/client/carrot_async_channel.cpp:27-370 | the invariant (each call held or completed once, success answered, timers armed, a reader behind every open socket) survives every handler, and no history entry or call is changed |
| `ClientRuns.RunKeeps` | src/client/carrot_async_channel.cpp:27-370 | the same over whole runs |
| `ClientRuns.AtMostOnce` | src/client/carrot_async_channel.cpp:47-62 | in no reachable state has a `done` run twice; `called` says exactly whether it ran |
| `ClientRuns.NoCallLost` | src/client/carrot_async_channel.cpp:98-184 | an uncompleted call is held by a pending resolve or connect, or is in `outgoing_tasks` with a reader pending |
| `ClientRuns.ReaderStands` | src/client/carrot_async_channel.cpp:254-347 | an open socket, or a non-empty `outgoing_tasks`, implies a pending connect or read |
| `ClientRuns.QuiescentExactlyOnce` | src/client/carrot_async_channel.cpp:27-370 | with no resolve, connect or read pending every call has completed exactly once, and nothing is left open |
| `ClientRuns.HonestSuccess` | src/client/carrot_async_channel.cpp:305-341 | behind an unfailed callback there is a received frame with the call's id, status SUCCESS and the parsed parameter it holds |
| `ClientRuns.AnswerDelivered` | src/client/carrot_async_channel.cpp:314-341 | the frame for a waiting call completes it in the same step, with the code its status and parameter mean, its response, its timer cancelled; a throwing callback fails the controller afterwards |
| `ClientRuns.StrangerChangesNothing` | src/client/carrot_async_channel.cpp:305-312 | a response under an id nobody waits for changes no call and leaves a read pending |
| `ClientRuns.TimerCovers` | src/client/carrot_async_channel.cpp:66-96 | every uncompleted call with a timeout has an armed timer that may fire, and its firing completes the call |
| `ClientRuns.IdsIncrease` | src/client/carrot_async_channel.cpp:104 | ids strictly increase over the life of the object, across reconnects |
| `ClientRuns.EnteredOnce` | src/client/carrot_async_channel.cpp:241 | each task enters `outgoing_tasks` at most once, under its own id |
| `ClientOutcomes.FailureReported` | src/client/carrot_async_channel.cpp:144-178 | a failing resolve, connect or write, or a timeout, completes its own call first, and the callback sees that handler's code |
| `ClientOutcomes.IssueOutcome` | src/client/carrot_async_channel.cpp:113-127 | on a closed socket a call resolves; on an open one it is sent and entered, or completes at once with the code of what went wrong |
| `ClientOutcomes.IssueTakesCall` | src/client/carrot_async_channel.cpp:98-127 | the new task has the call's method, request and timeout and the next id; a timeout other than zero leaves it armed, with a wait pending, unless it completed at once |
| `ClientOutcomes.IssuedTimerCovers` | src/client/carrot_async_channel.cpp:66-96 | in every run after a call was issued with a timeout, as long as it has not completed, its timer may fire, and firing completes it |
| `ClientOutcomes.CallbackRuns` | src/client/carrot_async_channel.cpp:194-201 | the callback of an uncompleted call runs once, on code and response as they stand; the calls it makes are issued in their order; if it throws, its controller ends with `EC_FAILED` |
| `ClientOutcomes.DestroyCompletesAll` | src/client/carrot_async_channel.cpp:47-63 | `destroy` closes the socket, empties `outgoing_tasks`, and leaves each of its calls completed once with its timer cancelled; a call that had not completed before saw `EC_FAILED` |
| `ClientOutcomes.DestroyInOrder` | src/client/carrot_async_channel.cpp:47-63 | the calls that `destroy` completes complete in the order of their ids, whatever their callbacks do |
| `ClientOutcomes.DestroyTwice` | src/client/carrot_async_channel.cpp:27-64 | a second `destroy` changes nothing |
| `ClientOutcomes.TimeoutScope` | src/client/carrot_async_channel.cpp:90-92 | a timeout while connecting tears the connection down; on an established one it touches no other call and leaves the socket open |
| `ClientBreaks.BrokenConnection` | src/client/carrot_async_channel.cpp:86-370 | a failed resolve, connect, read or write, a reply that does not parse, no memory to read on, and a timeout while connecting close the socket and leave nobody waiting; every other uncompleted call has failed with `EC_FAILED` |
| `ClientBreaks.GoesOn` | src/client/carrot_async_channel.cpp:130-370 | a resolve, a header with memory for its payload, a write and an aborted wait change exactly the fields named, the length read next among them |
| `ClientBreaks.Established` | src/client/carrot_async_channel.cpp:165-184 | a successful connect ends `connecting`, enters and sends its call, and reads a header |
| `ClientBreaks.AnswerCompletes` | src/client/carrot_async_channel.cpp:297-341 | a payload read to its end takes its call out of `outgoing_tasks`, and its callback sees the code for status 1 to 4, or a serialization error |
| `ClientBreaks.TimeoutErases` | src/client/carrot_async_channel.cpp:76-96 | a wait that fires, armed or stale, takes its call out of `outgoing_tasks` |
| `ClientConnection.RpcClientConnection.constructor` | src/client/carrot_async_channel.h:101-105 | a fresh connection is the machine's initial state |
| `ClientConnection.RpcClientConnection.Handle` | src/client/carrot_async_channel.cpp:27-370 | one turn of the event loop over task objects and buffer bytes is one step of the machine and keeps the invariant; it returns exactly if there is a buffer for a header that was read, and no `expand_packet` loops |
| `ClientConnection.RpcClientConnection.Issue` | src/client/carrot_async_channel.cpp:98-128 | the object after `issue` is the machine's, of which `IssueOutcome` and `IssueKeeps` speak |
| `ClientConnection.RpcClientConnection.StartCall` | src/client/carrot_async_channel.cpp:204-251 | the task has its packet, or the thread is stuck; the task is entered and sent, or finishes with the failure that happened |
| `ClientConnection.RpcClientConnection.Prepare` | src/client/carrot_async_channel.cpp:208-239 | the packet in the task holds the frame of the call when the write starts; the thread is stuck exactly if `expand_packet` does not return for it |
| `CallPackets.CallTask.BuildPacket` | src/client/carrot_async_channel.cpp:208-239 | metadata, parameter and the header in network order lie in the packet one behind the other, as the frame that the server parses; it returns exactly for packets that can be built |
| `ClientConnection.RpcClientConnection.SetupTaskTimer` | src/client/carrot_async_channel.cpp:66-74 | arms one wait if the call has a timeout |
| `ClientConnection.RpcClientConnection.FinishTask` | src/client/carrot_async_channel.cpp:186-202 | cancels the timer and runs `done` unless it ran |
| `ClientConnection.RpcClientConnection.FailTask` | src/client/carrot_async_channel.cpp:144-152 | the guarded failure block of every failing handler |
| `ClientConnection.RpcClientConnection.Destroy` | src/client/carrot_async_channel.cpp:27-64 | the loop over `outgoing_tasks` in key order, with callbacks that issue calls meanwhile, is the machine's `destroy`, of which `DestroyCompletesAll` speaks |
| `ClientConnection.RpcClientConnection.StartRead` | src/client/carrot_async_channel.cpp:254-265 | starts the next header read, or destroys the connection |
| `ClientConnection.RpcClientConnection.HandleResolve` | src/client/carrot_async_channel.cpp:130-156 | starts the connect, or fails its own call with EC_ERROR and destroys the connection, as the machine does |
| `ClientConnection.RpcClientConnection.HandleConnect` | src/client/carrot_async_channel.cpp:158-184 | sends the call, even one that timed out meanwhile, and starts to read; or fails it and destroys the connection |
| `ClientConnection.RpcClientConnection.HandleReadHeader` | src/client/carrot_async_channel.cpp:267-292 | the header is converted in the buffer, survives the expansion, and sets `n_` to the 32-bit sum; or the connection is destroyed |
| `ClientConnection.RpcClientConnection.HandleReadPayload` | src/client/carrot_async_channel.cpp:294-347 | metadata and parameter are parsed out of the buffer where its header says, and the object changes as the machine's step for what they hold says; anything may be parsed if the lengths lead elsewhere |
| `ClientConnection.RpcClientConnection.HandleWrite` | src/client/carrot_async_channel.cpp:349-370 | on an error fails its own call and destroys the connection, else changes nothing |
| `ClientConnection.RpcClientConnection.HandleTimeout` | src/client/carrot_async_channel.cpp:76-96 | the armed and a stale wait erase the call and time it out if it has not completed, an aborted one changes nothing |
| `ClientConnection.CarrotAsyncChannel.CallMethod` | src/client/carrot_async_channel.cpp:372-392 | the call goes to the one connection of its host and service, an old one as it stands or a new one; no other connection changes |
| `ClientConnection.KeySeparates` | src/client/carrot_async_channel.cpp:376-386 | with services (ports) that hold no colon, two keys are equal if and only if host and service are |
| `ClientConnection.CarrotAsyncChannel.CallTwo` | src/client/carrot_async_channel.cpp:372-392 | two calls on one channel meet on one connection if and only if host and service are the same; else neither sees the other |
| `ClientConnection.CarrotAsyncChannel.CallAfterDestroy` | src/client/carrot_async_channel.h:168-171 | a call after its connection was destroyed is issued on the very same object, as a task with an id above every earlier one |
| `ClientReads.DestroyQuiet` | src/client/carrot_async_channel.cpp:27-64 | `destroy`, whatever its callbacks do, starts and ends no read or connect |
| `ClientReads.PayloadQuiet` | src/client/carrot_async_channel.cpp:294-347 | a payload handler adds at most one header read and one received frame |
| `RpcMessages.MergePartialRequest` | src/protob/rpc.pb.cc:225-286 | the generated loop with its `ExpectTag` and `ExpectAtEnd` jumps ends, and returns what the plain tag loop returns, on every input |
| `RpcMessages.MergePartialResponse` | src/protob/rpc.pb.cc:513-594 | the same for `Response`, with both forward jumps |
| `RpcMessages.RequestLoopIsFold` | src/protob/rpc.pb.cc:230-277 | the loop takes exactly the fields `SkipField` would, in order, and fails exactly when `SkipField` would |
| `RpcMessages.ResponseLoopIsFold` | src/protob/rpc.pb.cc:518-585 | the same for `Response`, the 32-bit status included |
| `RpcCodec.RequestRoundTrip` | src/protob/rpc.pb.cc:288-338 | a printed `Request` parses back to itself if and only if none of its unknown fields is a known one |
| `RpcCodec.ResponseRoundTrip` | src/protob/rpc.pb.cc:596-658 | the same for `Response`, where an invalid status value may stay unknown |
| `RpcCodec.RequestSizeExact` | src/protob/rpc.pb.cc:340-368 | the bytes written number exactly `ByteSize()` |
| `RpcCodec.ResponseSizeExact` | src/protob/rpc.pb.cc:660-694 | the same for `Response` |
| `RpcCodec.RequestConcatenationMerges` | src/protob/rpc.pb.cc:382-393 | parsing two messages end to end equals `MergeFrom` of their parses |
| `RpcCodec.ResponseConcatenationMerges` | src/protob/rpc.pb.cc:708-722 | the same for `Response` |
| `RpcCodec.RequestReparseIdempotent` | src/protob/rpc.pb.cc:225-338 | whatever was parsed prints to `ByteSize()` bytes that parse to the same message |
| `RpcCodec.ResponseReparseIdempotent` | src/protob/rpc.pb.cc:545-549 | the same for `Response`, invalid status values included |
| `RpcCodec.SignExtended` | src/protob/rpc.pb.cc:541-549 | an invalid status, sign-extended into an unknown field, keeps its 32 bits |
| `Wire.VarintSizeExact` | src/protob/rpc.pb.cc:346-348 | the size table of `UInt64Size` is the length of the varint |
| `Wire.Varint64RoundTrip` | src/protob/rpc.pb.cc:238-240 | both varint readers give back what was written, whatever follows |
| `Wire.ValueRoundTrip` | src/protob/rpc.pb.cc:273-274 | any field, groups included, is read back as printed, and the rest of the input is left |
| `Wire.PrintedBodyReads` | src/protob/rpc.pb.cc:306-309 | printed fields in front of any input are read as those fields, then the input |
| `Wire.PrintSizeExact` | src/protob/rpc.pb.cc:359-363 | the computed size of an unknown field is its printed length |
| `Wire.BodiesConcatenate` | src/protob/rpc.pb.cc:273-274 | two complete bodies end to end hold the fields of the first, then of the second |
| `OnTheWire.VarintDigits` | src/protob/rpc.pb.cc:238-240 | a varint is the number in base 128, lowest digit first, all bytes but the last marked, and no leading zero digit |
| `OnTheWire.Varint64ReadIff` | src/protob/rpc.pb.cc:238-240 | a varint is read exactly if one of at most ten bytes is there, and it is that number cut to 64, or 32, bits |
| `OnTheWire.LengthPrefixedMeans` | src/protob/rpc.pb.cc:250-258 | a string is a varint and as many bytes as it says, or the input is malformed |
| `OnTheWire.PlainValuesRead` | src/protob/rpc.pb.cc:273-274 | wire type 0 is a varint and 2 a string, under the tag's upper bits as number |
| `OnTheWire.FixedValuesRead` | src/protob/rpc.pb.cc:273-274 | 1 is eight bytes and 5 four, lowest first |
| `OnTheWire.GroupsRead` | src/protob/rpc.pb.cc:273-274 | 3 is a group that must end under its own number |
| `OnTheWire.OthersRefused` | src/protob/rpc.pb.cc:273-274 | 4, 6 and 7 are malformed |
| `OnTheWire.FieldBytes` | src/protob/rpc.pb.cc:306-309 | each kind of field is printed with its number times eight plus 0, 1, 2, 3 and 4, or 5 |
| `OnTheWire.RequestBytes` | src/protob/rpc.pb.cc:288-310 | a `Request` is 8, the id, 18, the identity's length and the identity |
| `OnTheWire.ResponseBytes` | src/protob/rpc.pb.cc:596-628 | a `Response` is 8, the id, 16, the status's number and, with a message, 26, its length and its text |
| `OnTheWire.StatusNumbers` | src/protob/rpc.pb.h:41-46 | the numbers 1, 2, 3 and 4 are read as SUCCESS, ERROR, NOT_FOUND and FAILED; any other stays an unknown field |
| `OnTheWire.RequestParsedIff` | src/protob/rpc.pb.cc:225-286 | bytes are accepted exactly if they are a complete body with an id and an identity; the last of each counts |
| `OnTheWire.ResponseParsedIff` | src/protob/rpc.pb.cc:513-594 | the same for `Response`: an id and a status with a valid number are needed, and the last valid one counts |
| `OnTheWire.CallBytes` | src/client/carrot_async_channel.cpp:208-239 | the bytes of a call: two big-endian lengths and four zeros, the id, service, dot and method, and the parameter |
| `OnTheWire.ReplyBytes` | src/server/carrot_async_server.cpp:152-187 | the bytes of a reply: the metadata's length, four zeros, the parameter's length, and the two |
| `Frames.HeaderRoundTrip` | src/common/packet.h:20-30 | the two conversion macros undo each other through memory |
| `Frames.HeaderIsBigEndian` | src/common/packet.h:13-24 | on the wire the three lengths are big-endian |
| `Frames.CutPayload` | src/client/carrot_async_channel.cpp:273 | the lengths of a header cut its payload into the parts it was made of |
| `Frames.StreamFront` | src/server/carrot_async_server.cpp:38-54 | a stream of frames starts with the first header, then its payload, then the other frames |
| `Transfers.ReadReturnsIff` | src/common/utils.cpp:160-176 | `read_n` returns if and only if the bytes are there, or a failure other than EINTR comes, or `errno` is not EINTR when the end of file is reached |
| `Transfers.ReadMaySpin` | src/common/utils.cpp:164-173 | after one interrupted call `read_n` of one byte at the end of file never returns |
| `Transfers.Descriptor.ReadN` | src/common/utils.cpp:160-176 | reads exactly `n` bytes, or fails with a prefix consumed, or spins; which of them follows from the stream, the calls' outcomes and `errno` at entry |
| `Transfers.Descriptor.WriteN` | src/common/utils.cpp:142-158 | writes all bytes or fails with a prefix sent; interruptions never make it fail |
| `Transfers.Descriptor.ReceiveHeader` | src/server/carrot_threaded_server.cpp:68-88 | the three lengths, read one by one, are the header of the stream; short of them it fails or spins as `errno` says |
| `Transfers.CarryFrames` | src/common/utils.cpp:142-176 | frames written and read back arrive as the same list, under any splitting and interruption; if a write breaks off, exactly those before it arrive; after a failed read a prefix |
| `Pipes.FramesArrive` | src/common/utils.cpp:142-176 | with the two ends taking turns in any order, what was read is always the first frames written; while any is missing one end can move on; if the writer stops, those written whole arrive |
| `Pipes.AllArrive` | src/common/utils.cpp:142-176 | when everything has been written and read, every frame has arrived |
| `Pipes.MovesLess` | src/common/utils.cpp:142-176 | every call that moves something leaves less to do by that much, so that point is reached |
| `Buffers.PacketBuffer.Expand` | src/common/utils.cpp:206-223 | for every 32-bit request: endless exactly if doubling never gets there, else it keeps the old bytes and holds exactly `size` bytes, a power of two, also after failed allocations |
| `Buffers.GrownBounded` | src/common/utils.cpp:210-215 | for requests up to 2^31 the doubled size is a power of two and fits 32 bits |
| `Buffers.DoublingEndsIff` | src/common/utils.cpp:213-215 | the doubling loop ends if and only if the request is at most 2^31 |
| `Buffers.EndlessIff` | src/common/utils.cpp:210-215 | the same for every size a buffer can have, zero included |
| `Buffers.GrownTwice` | src/common/utils.cpp:210-215 | growing for one request and then for a larger one leaves the size that the larger alone asks for |
| `Buffers.AllocationIsLinear` | src/common/utils.cpp:206-223 | all bytes ever allocated stay below four times the largest request |
| `Buffers.ExpandAll` | src/common/utils.cpp:206-223 | any run of successful expansions has the sizes that bound speaks of |
| `Dispatch.ServiceTable.RegisterService` | src/server/carrot_async_server.cpp:226-240 | registers a new name, refuses a taken one |
| `Dispatch.FirstRegistrationStands` | src/server/carrot_server.cpp:18-32 | a name stands for the service that registered it first |
| `Dispatch.JoinSplits` | src/client/carrot_async_channel.cpp:209 | splitting at the first dot undoes the join exactly for dot-free service names |
| `Dispatch.AsyncDeserved` | src/server/carrot_async_server.cpp:69-145 | the asynchronous dispatch answers by the rule: drop, NOT_FOUND, FAILED or SUCCESS by the method the identity names |
| `Dispatch.SimpleDeserved` | src/server/carrot_simple_server.cpp:131-200 | the simple dispatch answers by the same rule |
| `Dispatch.ThreadedTurn` | src/server/carrot_threaded_server.cpp:113-182 | the threaded dispatch is the simple one |
| `Dispatch.DispatchersAgree` | src/server/carrot_async_server.cpp:131-135 | the dispatchers make the same choice, with the same parameter, if and only if the method does not throw |
| `Dispatch.AsyncReplyParses` | src/server/carrot_async_server.cpp:137-145 | the asynchronous server's metadata parses back, under the request's id |
| `Dispatch.SimpleReplyRefused` | src/server/carrot_simple_server.cpp:143-200 | no reply of the simple or threaded server is a complete `Response` |
| `Dispatch.BlockingRequestDropped` | src/client/carrot_blocking_channel.cpp:38-41 | every server drops the request of the blocking client |
| `Dispatch.NamelessRefused` | src/server/carrot_async_server.cpp:75-87 | an identity without a dot is answered NOT_FOUND, with its text |
| `Dispatch.UnregisteredRefused` | src/server/carrot_async_server.cpp:89-118 | an unknown service, and an unknown method of a known one, are answered NOT_FOUND, each with its own text |
| `Dispatch.UnreadableDropped` | src/server/carrot_async_server.cpp:69-129 | a request is dropped if and only if its metadata does not parse or its parameter does not parse for the registered method it asks for |
| `Dispatch.MethodAnswers` | src/server/carrot_async_server.cpp:131-145 | a method that ran answers SUCCESS with its result, or FAILED with its own text; one that threw answers FAILED with the exception's, or its exception leaves the simple server |
| `ServerModel.ServerCycle` | src/server/carrot_async_server.cpp:25-202 | in every run, headers that wrap included, at most one operation is pending, replies are a prefix of the requests in order, at most one behind, and a connection with nothing pending is closed unless memory ran out or the buffer was overrun |
| `ServerModel.FailureEnds` | src/server/carrot_async_server.cpp:38-202 | a failed read or write closes the connection and answers nothing |
| `ServerModel.HeaderEnds` | src/server/carrot_async_server.cpp:38-59 | a header is followed by the read of as many bytes as 12 and its three lengths make, cut to 32 bits |
| `ServerModel.RequestEnds` | src/server/carrot_async_server.cpp:61-150 | an unreadable request, or a reply that is not printed, closes the connection; any other reply that fits is written under the request's id |
| `ServerModel.ReplyEnds` | src/server/carrot_async_server.cpp:193-202 | a reply that was sent is followed by the next header, and nothing else changes |
| `ServerModel.SizeIsLongest` | src/server/carrot_async_server.cpp:45-49 | in every run the buffer has exactly the size that the longest packet announced so far makes of an empty one; no reply ever grows it |
| `ServerModel.ReplyOverrunsIff` | src/server/carrot_async_server.cpp:164-187 | in every run the reply to the next request overruns the buffer if and only if it is longer than that |
| `ServerModel.ReplyMayOverrun` | src/server/carrot_async_server.cpp:164-187 | a run from a freshly accepted connection that ends in an overrun, whatever services there are |
| `ServerModel.OverReadIff` | src/server/carrot_async_server.cpp:45-69 | in every run the metadata and parameter lie within the bytes received if and only if the header's lengths add up to less than 2^32 |
| `ServerModel.OverReadMay` | src/server/carrot_async_server.cpp:45-69 | a run from a freshly accepted connection after which any 12 bytes of payload are parsed as 2^31 - 1, beyond a 32-byte buffer |
| `AsyncServer.RpcServerConnection.constructor` | src/server/carrot_async_server.h:63-65 | a new connection has its first read started, or no memory |
| `AsyncServer.RpcServerConnection.Serve` | src/server/carrot_async_server.cpp:25-36 | the object after `serve` is the machine's |
| `AsyncServer.RpcServerConnection.HandleReadHeader` | src/server/carrot_async_server.cpp:38-59 | reads on for as long as the 32-bit sum says, or closes; the converted header stays at the front of the buffer; it does not return exactly for sums above 2^31 |
| `AsyncServer.RpcServerConnection.HandleReadPayload` | src/server/carrot_async_server.cpp:61-150 | the request, parsed out of the buffer where the header says, is dispatched and answered, or the connection closed, as the machine's step says |
| `AsyncServer.RpcServerConnection.Answer` | src/server/carrot_async_server.cpp:75-145 | the early returns and the status switch compute the verdict |
| `AsyncServer.RpcServerConnection.RespondToClient` | src/server/carrot_async_server.cpp:152-191 | the buffer holds the reply's frame when the write starts, and until it ends |
| `AsyncServer.RpcServerConnection.HandleWriteResponse` | src/server/carrot_async_server.cpp:193-202 | a written reply starts the next header read in the same buffer, an error closes the connection |
| `AsyncServer.RpcServerConnection.Destroy` | src/server/carrot_async_server.cpp:8-23 | the socket is closed, nothing else changes |
| `SimpleServer.RpcConnection.ExpandPacket` | src/server/carrot_simple_server.cpp:8-19 | grows to exactly what is asked, or stays; keeps the old bytes; a failed allocation loses the block but not `size` |
| `SimpleServer.RpcConnection.Dispatch` | src/server/carrot_simple_server.cpp:119-200 | the request is parsed out of the connection's buffer where the header there says, and judged by the dispatcher |
| `SimpleServer.RpcConnection.HandleRequest` | src/server/carrot_simple_server.cpp:80-200 | for any bytes a client sends and any outcomes of the system calls: what was read, what was written, and whether it is answered, dropped, escapes or hangs |
| `SimpleServer.RpcConnection.RespondToClient` | src/server/carrot_simple_server.cpp:36-79 | writes the reply's frame from the front of the connection's buffer, or a part of it and fails |
| `SimpleServer.CarrotSimpleServer.HandleListenSock` | src/server/carrot_simple_server.cpp:217-258 | takes the last unused connection or a new one, alive and in use, or deletes it; the partition holds |
| `SimpleServer.CarrotSimpleServer.DestroyRpcConnection` | src/server/carrot_simple_server.cpp:21-34 | moves one connection from in use to unused |
| `SimpleServer.CarrotSimpleServer.HandleClient` | src/server/carrot_simple_server.cpp:80-201 | exactly one `destroy_rpc_connection` if anything fails; none if the frame of the dispatcher's reply was written, a method threw, or the read never ends |
| `SimpleServer.UnreadableDestroyed` | src/server/carrot_simple_server.cpp:131-189 | the connection of a request that cannot be read is destroyed and nothing is written |
| `SimpleServer.ReadableEnds` | src/server/carrot_simple_server.cpp:131-200 | any other request is answered with a non-empty frame, or its method's exception escapes if it threw |
| `SimpleServer.HandleBlockingRequest` | src/client/carrot_blocking_channel.cpp:38-41 | the blocking client's request takes its connection out of use, with nothing written, whatever else happens |
| `SimpleServer.CarrotSimpleServer.Shutdown` | src/server/carrot_simple_server.cpp:268-302 | every connection ever allocated has been deleted exactly once |
| `SimpleServer.RunPool` | src/server/carrot_simple_server.cpp:268-302 | the same after any run of accepts and requests; the run stops short only at an input that ends inside a packet, or wraps, or a reply that does not fit |
| `SimpleServer.InterruptedServerHangs` | src/server/carrot_simple_server.cpp:86-119 | a client that closes before or inside a packet stops the server if `errno` is EINTR, and is dropped if it is not |
| `ThreadedServer.RepliesInOrder` | src/server/carrot_threaded_server.cpp:62-183 | replies owed keep the order of the requests, one each, and end before the first request that is dropped or throws |
| `ThreadedServer.RequestEnds` | src/server/carrot_threaded_server.cpp:113-183 | a complete request that cannot be read, or whose method throws, ends the thread; any other gets its frame, up to 2^31 bytes, and the loop goes on |
| `ThreadedServer.RemainderEnds` | src/server/carrot_threaded_server.cpp:68-107 | without a complete request the thread hangs if `errno` is EINTR or the announced size is one that doubling never reaches, and leaves otherwise |
| `ThreadedServer.LeadingSplits` | src/server/carrot_threaded_server.cpp:62-107 | every byte string is the frames the loop takes off it, then something that does not start with one |
| `ThreadedServer.LeadingOfStream` | src/server/carrot_threaded_server.cpp:62-107 | frames sent one behind the other are the ones taken off, whatever incomplete bytes follow |
| `ThreadedServer.InterruptedThreadHangs` | src/server/carrot_threaded_server.cpp:68-72 | after all replies to a client that then closes, the thread hangs if `errno` is EINTR and leaves if it is not |
| `ThreadedServer.HandleClient` | src/server/carrot_threaded_server.cpp:58-186 | for any bytes a client sends, under any short, interrupted or broken transfers, it gets whole replies owed to it, in order, then at most a part of the next; all of them if nothing fails, and then the thread ends or hangs as the rest of the stream and `errno` say |
| `ThreadedServer.Turn` | src/server/carrot_threaded_server.cpp:62-183 | takes the first complete request of any byte string and sends its reply or a part of it; without failures it goes on, leaves or hangs exactly as that string, the reply's length and `errno` say |
| `ThreadedServer.TakeRequest` | src/server/carrot_threaded_server.cpp:68-107 | the request cut out of the buffer is the first complete frame of the bytes, and only its bytes are taken; without failures it hangs or leaves exactly as what is there and `errno` say |
| `ThreadedServer.TakeBody` | src/server/carrot_threaded_server.cpp:90-107 | the same for the payload behind a given header, oversized and wrapped lengths included |
| `ThreadedServer.RespondToClient` | src/server/carrot_threaded_server.cpp:13-56 | sends the reply's bytes or a prefix of them; a reply above 2^31 bytes is never sent, the thread hangs |

## Left out

- `EndToEnd.EndToEnd`: assumes that the bytes of each `async_write` land together and that a connect starts only when no other connect or read is outstanding, because the code has neither a write queue nor a connect guard; that a reply fits the server's buffer (`ServerModel.ReplyOverrunsIff`); that ids stay below 2^64 and frame lengths below 2^32; that service names hold no dot, as identifiers do not; and that the parameter codec round-trips.
- `EndToEnd.DispatchedOnce`: under the same assumptions. Replies on connections that the client has left are lost; their other traffic goes on.
- `SuccessfulCall.CallSucceeds`: that it can be answered, not that it will be; what the event loops do first is theirs to choose.
- `ClientRuns.IdsIncrease`: ids are unbounded; the wrap of `id_` after 2^64 calls is not modelled.
- `ClientRuns.HonestSuccess`: each call brings a fresh controller and an empty response, and `timeout` does not change during the call.
- `ClientConnection.RpcClientConnection.Handle`: `task->state` and error texts are not kept; the timer is one flag per task and the waits outstanding. The bytes a read delivers are put in the buffer when its handler runs, so two reads outstanding at once do not overwrite each other's bytes half way.
- `CallPackets.CallTask.BuildPacket`: ids of 2^64 and lengths of 2^32 count as packets that cannot be built; `start_call` runs once for a task, so the packet is always a new one.
- `ClientConnection.RpcClientConnection.StartCall`: once the thread is stuck the model goes on, and nothing is said of what it does then.
- `ClientConnection.CarrotAsyncChannel.CallMethod`: the channel is left alone by the connection's callbacks, and its calls come one at a time; the class has no locking. Calls on other connections are separate events.
- An exception that leaves a handler ends the step in the state reached; what the event loop's caller does with it is not modelled.
- `Wire.Fits`: fields with number 0 are read but left out of the round trips, because a varint field 0 has the tag 0 that ends a message.
- `RpcMessages.MergePartialRequest`: the library's recursion limit for groups, its limit on total bytes, UTF-8 warnings and the cached size are not modelled.
- `MergeFrom`, `ByteSize` and the serializers are functions on values; that they update a message and its cached size in place is not captured.
- Protobuf descriptors, reflection and the generated `Swap`, `Clear` and `CopyFrom`: library glue.
- User messages are an abstract type with a codec; service methods are functions of the request that may change from call to call.
- `Transfers.CarryFrames`: the writing comes first here; `Pipes` lets the ends take turns. There a read of an empty stream is no turn: it waits.
- `Buffers.PacketBuffer.Expand`: the block lost when `realloc` fails is not tracked.
- `ServerModel.ServerCycle`: nothing is said of a connection after its buffer was overrun, or after a header above 2^31 bytes kept `expand_packet` for ever; what a wrapped request parses to is left open. Replies of 2^32 bytes are excluded.
- `AsyncServer.RpcServerConnection.Destroy`: `erase` from the server's map of connections is not modelled; nothing else reads that map.
- `SimpleServer.CarrotSimpleServer.HandleClient`: header lengths that wrap to less than 12 and replies of 2^32 bytes lead out of the buffer and are not followed (`Astray`). What `errno` is when a request starts is an input.
- `ThreadedServer.HandleClient`: request lengths that add up to 2^32 or more and wrap to at most 2^31, and replies of 2^32 bytes, lead out of the buffer and are not followed (`Astray`). `errno` is changed by the transfers alone. After the descriptor was closed the loop is left at once, where the code makes one more read that fails; its number being given out again meanwhile is not modelled.
- `start_accept`, `handle_accept` of the asynchronous server: they create connections, one like the other.
- Boost.Asio, the reactor, sockets, DNS and clocks: outcomes of events. A cancelled timer may still fire as if it had expired.
- `connect_to`, `resolve_hostname`, socket creation and the fcntl helpers: plumbing.
- The blocking channel but for its request (`Dispatch.BlockingRequestDropped`).
- Logging, with the evaluation of its arguments.
- The example programs and their generated messages: the same shape as rpc.pb.cc.
