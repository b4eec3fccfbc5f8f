# Thestral: a SOCKS5 proxy chain, its packets and its log, verified in Dafny

Thestral accepts SOCKS5 connections (RFC 1928), asks an upstream factory for a transport to the
requested address and relays bytes both ways. The upstream is either a direct TCP connection or
another SOCKS5 server, so proxies form chains. Everything is written as callbacks on asynchronous
reads and writes.

The model keeps that shape. A connection and an upstream request are state machines whose events are
the completions of pending operations, in every order and with every fragmentation; hops are joined
by FIFO byte channels into chains of any length; threads log to sinks one atomic action at a time.
The mutable parts (packet objects, callbacks on shared transports, the endpoint cache, log sinks) are
also given as classes and loops, each proved to do what the state machine or the specification says.

`dafny verify dfyconfig.toml` checks the whole project.

| file | content |
|---|---|
| `Packets.dfy` | wire format, incremental parsers, round trips, unique decoding of streams |
| `PacketObjects.dfy` | the packets as objects and buffers filled in place |
| `Relay.dfy` | the two relay loops over two shared transports |
| `Server.dfy`, `Client.dfy` | one server connection, one SOCKS upstream request, against any peer |
| `Callbacks.dfy`, `Requests.dfy` | both as objects with callback methods over shared transports, each tied to a run of its machine |
| `Foreign.dfy` | one hop that faces somebody else's SOCKS server |
| `Direct.dfy` | the last hop: address to endpoint and back |
| `Chain.dfy`, `Links.dfy` | hops in a row, the inductive invariant, what neighbours know of each other |
| `EndToEnd.dfy` | safety of whole chains: addresses and payload |
| `Completion.dfy`, `Rest.dfy`, `Progress.dfy` | how a chain's handshake ends, and that it does |
| `Closing.dfy`, `Draining.dfy` | how a whole chain closes, and a bound on every run |
| `Delivery.dfy` | an orderly close delivers everything |
| `EndpointCache.dfy` | concurrent use of the double-checked endpoint cache |
| `Format.dfy`, `Logging.dfy` | the log format compiler, sinks |
| `Sinks.dfy` | many threads locking many sinks |

## Where the code differs from its documentation or from RFC 1928

The model follows the code; each difference is stated as a lemma.

- The domain length plus two is kept in eight bits (`src/socks.cc:122`): lengths 254 and 255, which
  section 5 of RFC 1928 allows, make the port be cut from a buffer shorter than two bytes. The round
  trip is proved to hold exactly for the other packets (`Packets.RoundTripExactly`), and parsing ends
  in undefined behaviour exactly for these lengths (`Packets.UndefinedExactly`).
- An unknown address type neither reads on nor calls back (`src/socks.cc:103-104`). This happens
  exactly for such type bytes (`Packets.SilentExactly`). A connection at rest has left its downstream
  transport open exactly after such a type, a completed read behind a wrapping length or a null
  transport (`Server.RestIsClosed`), a request at rest has not called back exactly after one of the
  first two (`Client.RequestEndsOnce`), and `Server.UnknownKindHangs`, `Client.UnknownKindHangs`,
  `Server.WrappingDomainCrashes` and `Client.WrappingDomainCrashes` give the runs.
- A rejected method (`src/socks_upstream.cc:113-124`) and an unknown type at the direct hop
  (`src/direct_upstream.cc:68-72`) call back with no error and no transport, the former exactly when
  the server chose another method (`Client.NullReportedExactly`). The server then uses a null pointer:
  `Foreign.CrashesExactly` says when a hop facing an arbitrary server reaches undefined behaviour, this
  way or by a wrapping length, and in a chain of ours it is unreachable behind the first hop
  (`Completion.NoDeadEnds`).
- The relay ignores the error of a completed write (`src/socks_server.cc:203-205`) and reads on. Bytes
  are lost exactly when a write fails before it has put all its bytes (`Relay.LosesExactly`); after
  that nothing more is delivered in that direction (`Relay.NothingAfterFailure`), and the loss has no
  bound (`Relay.DiscardsEverything`).
- `TryConnect` is documented to advance its iterator to the result it connected to
  (`include/tcp_transport.h:47-48`), which the plain TCP factory does not do
  (`src/tcp_transport.cc:140`). `EndpointCache.CachesConnectedExactly` says when the cached endpoint
  is the connected one, `EndpointCache.EveryLaterUseFails` what follows when it is not, and
  `EndpointCache.CachesUnreachable` gives a run.

## Model

| member | source | states |
|---|---|---|
| Packets.RoundTripExactly | src/socks.cc:22-149 | parsing inverts serialising for a packet if and only if its method list has at most 255 entries, its host length fits its type, and a domain has at most 253 bytes |
| Packets.RoundTrip | include/base.h:235-302 | the exact reads of the parser lead from the start of the packet's kind over exactly its serialised bytes to the packet, for method lists, selections, requests and responses |
| Packets.MessageLayout | src/socks.cc:75-149 | byte by byte and for every version, code, reserved byte, host and port: type 1 with four bytes, type 4 with sixteen or type 3 with a length up to 253, then the port with its high byte first, are parsed to exactly these fields and written in exactly this order |
| Packets.GreetingLayout | src/socks.cc:33-49 | a method list is the version, the number of methods and the methods, a selection the version and the method, both when parsed and when written |
| Packets.SerializedLayout | src/socks.cc:42-149 | what is written for any packet, encodable or not: counts and lengths keep their low byte, and only type 3 has a length |
| Packets.AcceptedBytes | include/socks.h:63-106 | what the bytes of an accepted packet say: version, methods, method chosen, command or code |
| Packets.AcceptedReserializes | include/socks.h:63-106 | whatever bytes a parser accepts, the packet is encodable and serialises to exactly those bytes, apart from the reserved byte being zero |
| Packets.SelfDelimiting | include/base.h:235-295 | on one stream a parser finishes at one place only and with one result, whatever follows |
| Packets.StreamUnique | include/base.h:257-260 | a concatenation of packets of known kinds, with anything behind it, decodes in one way only |
| Packets.SilentExactly | src/socks.cc:75-105 | parsing stops without a callback if and only if the fourth byte is an unknown address type |
| Packets.UndefinedExactly | src/socks.cc:109-138 | the port is cut from a too short buffer if and only if the domain length is 254 or 255 |
| PacketObjects.SocksAddress.ExtractPortFromHost | src/socks.cc:134-138 | the old buffer is the new host followed by the high and the low byte of the new port |
| PacketObjects.SocksAddress.FillFrom | src/socks.cc:78-99 | after the body read the host is the buffer without its last two bytes, and the port 256 times the first of these plus the second |
| PacketObjects.SocksAddress.Serialize | src/socks.cc:140-149 | the appended string is the wire form of the address; it starts with the type and ends with the port, high byte first |
| PacketObjects.SerializeMethods | src/socks.cc:42-50 | the loop produces version, count modulo 256 and the methods |
| PacketObjects.SerializeFixed | include/base.h:297-302 | a zeroed buffer of the packet's size with its first two bytes set |
| PacketObjects.SerializeMessage | include/base.h:257-260 | header bytes followed by body bytes are the wire form of the message |
| PacketObjects.Receive | include/base.h:235-295 | reading a packet from any input by exact reads stops only at its end or for want of input, and the state reached is the one the consumed bytes lead to |
| PacketObjects.ReceiveSerialized | include/base.h:235-302 | receiving a serialised packet followed by anything yields that packet and leaves the rest untouched |
| Relay.RelayDelivers | src/socks_server.cc:190-209 | in every state of every relay run, for both directions at once: the bytes read are the bytes delivered, then those that failed writes dropped, then at most 0x4000 in flight; delivered bytes are a prefix of read bytes; and a direction that waits to read or saw the end of its stream has none in flight |
| Relay.LosesExactly | src/socks_server.cc:203-205 | over every run, in either direction, all that was read is delivered or in flight if and only if no write failed before it had put all its bytes |
| Relay.NothingAfterFailure | src/socks_server.cc:203-205 | after a failed write the direction delivers nothing more, and all it goes on to read is dropped or about to be |
| Relay.DiscardsEverything | src/socks_server.cc:196-206 | whatever chunks of up to 0x4000 bytes arrive, there is a run that reads them all and delivers none, with both transports open and the loop reading on |
| Relay.ClosedStepDecreases | src/socks_server.cc:196-206 | on a closed pair every completion in either direction uses up a measure and the pair stays closed |
| Relay.RelayWindsDown | src/socks_server.cc:196-206 | after either direction closed the pair at most ten completions follow, in any order; no step is left if and only if both loops have stopped, and both transports are closed |
| Server.ApplyOk | src/socks_server.cc:56-209 | every completion keeps the connection's invariant: what was parsed, said, sent and is open in each phase |
| Server.RunOk | src/socks_server.cc:56-209 | the invariant holds in every state of every run, for any peer and upstream |
| Server.SpeaksInTurn | src/socks_server.cc:68-178 | what leaves downstream before relaying is a prefix of at most one method selection followed, only if it accepted, by at most one response |
| Server.SpeaksInBytes | src/socks_server.cc:76-188 | over every run, in numbers: the upstream is asked if and only if a method list with method 0 and a request whose second byte is 1 were read; what is written is `5 255` without method 0, else `5 0`, followed by a response of code 7 for any other command, of code 5 for an error of the upstream, each with type 1, four zeros and port zero, or of code 0 with the upstream's address |
| Server.AsksAfterHandshake | src/socks_server.cc:77-127 | the upstream is asked at most once, only after an offer of no authentication, its completely written acknowledgement and a CONNECT request, for that request's address, whose host length fits its type |
| Server.RelaysAfterSuccess | src/socks_server.cc:148-175 | relaying starts only when exactly the accepting selection and a success response with the upstream's local address have been written |
| Server.RelayOf | src/socks_server.cc:172-173 | the pair of a relaying connection is the end of a relay run that starts with both transports open, nothing relayed and both loops reading |
| Server.LosesExactly | src/socks_server.cc:190-209 | so a connection has delivered or in flight all that it read if and only if no write of that run failed before it had put all its bytes |
| Server.RestIsSettled | src/socks_server.cc:56-209 | a connection has no pending operation if and only if it has closed, stopped both relay loops, met an unknown type or crashed |
| Server.CrashedExactly | src/socks_server.cc:139-151 | over every run, undefined behaviour is reached if and only if the read behind a wrapping domain length completed or the upstream answered with neither error nor transport |
| Server.RestIsClosed | src/socks_server.cc:70-209 | a run at rest has closed its upstream transport, and its downstream transport if and only if the request's bytes hold no unknown address type, no read behind a wrapping domain length completed and the upstream did not answer with neither error nor transport |
| Server.UnknownKindHangs | src/socks.cc:103-104 | for every unknown address type, a run that comes to rest with its transport open |
| Server.WrappingDomainCrashes | src/socks.cc:122-127 | for either wrapping domain length, a run that reaches undefined behaviour |
| Client.ApplyOk | src/socks_upstream.cc:71-180 | every completion keeps the request's invariant: what was parsed, said, sent, closed and reported in each phase |
| Client.RunOk | src/socks_upstream.cc:71-180 | the invariant holds in every state of every run, for any server at the other end |
| Client.RequestEndsOnce | src/socks_upstream.cc:71-180 | the callback runs at most once; at rest it has not run if and only if the reply's bytes hold an unknown type or the read behind a wrapping length completed; a transport is handed over exactly when the handshake succeeded, and was never closed; any other connected transport was closed before the callback |
| Client.CrashedExactly | src/socks_upstream.cc:151-153 | over every run, undefined behaviour is reached if and only if the read behind a wrapping domain length completed |
| Client.NullReportedExactly | src/socks_upstream.cc:113-124 | over every run, no error and no transport are reported if and only if the method byte read is not among the methods written, which are `5 1 0` |
| Client.WritesInBytes | src/socks_upstream.cc:92-141 | over every run, in numbers: a connected request writes `5 1 0` and then, exactly if the method byte read is 0, `5 1 0` and the endpoint |
| Client.ReportsExactly | src/socks_upstream.cc:81-176 | over every run, a failed connect, read or write ends the request with one call that hands on exactly its error and no transport, after the close if it was connected; otherwise the call hands on the response's address if its second byte is 0, that byte as the error if not, and neither if no response was read |
| Client.FailureIsLast | src/socks_upstream.cc:101-124 | nothing follows a failure |
| Client.UnknownKindHangs | src/socks.cc:103-104 | for every endpoint and unknown address type, a run at rest without a callback and with its transport open |
| Client.WrappingDomainCrashes | src/socks.cc:122-127 | for every endpoint and either wrapping domain length, a run that reaches undefined behaviour |
| Foreign.CrashesExactly | src/socks_server.cc:139-151 | a hop facing an arbitrary SOCKS server, its connection or its request, reaches undefined behaviour if and only if that server chose a method that was not offered, or a read behind a wrapping domain length completed in the request of its own peer or in the response of that server |
| Foreign.RestIsClosed | src/socks_upstream.cc:151-178 | such a hop with no step left has closed its connection's upstream transport; its peer's transport is open if and only if the request or the response held an unknown type, a read behind a wrapping length of either completed, or another method was chosen; and exactly the two faults of the response leave the request without a callback and its own transport open |
| Client.GrantedSent | src/socks_upstream.cc:92-150 | a request with a response has sent exactly `5 1 0`, then `5 1 0` and the endpoint |
| Callbacks.Connection.constructor | src/socks_server.cc:56-69 | an accepted connection starts at the beginning of a run, reading its method list |
| Callbacks.Connection.Complete | src/socks_server.cc:56-209 | any completion, on the object's own state and its two shared transports, keeps the object tied to a run of the connection's machine that grows by exactly that step |
| Callbacks.Connection.OnUpstream | src/socks_server.cc:139-177 | so does the upstream's callback, which makes the handed transport the object's own |
| Callbacks.Connection.Turn | src/socks_server.cc:194-208 | one completion of a relay loop on two transport objects is one step of the relay and touches nothing else |
| Callbacks.Connection.WroteInTurn | src/socks_server.cc:76-178 | what the object wrote downstream is a prefix of one selection and one response, and once it relays exactly the accepting selection, the success response with the upstream's address and a prefix of what the upstream sent |
| Callbacks.Connection.WroteUpstream | src/socks_server.cc:190-209 | what it wrote upstream since the handover, what it dropped and its buffer make up, in order, what it read downstream behind a method list and a CONNECT request |
| Callbacks.Connection.ClosedAtRest | src/socks_server.cc:180-209 | with nothing pending the upstream object is closed, and the downstream object is open in exactly the three cases of `Server.RestIsClosed` |
| Requests.UpstreamRequest.Complete | src/socks_upstream.cc:71-180 | any completion keeps the request object, its transport and its callback tied to a run of the request's machine that grows by exactly that step |
| Requests.UpstreamRequest.SendAuthRequest | src/socks_upstream.cc:92-99 | so does the made connection, whose transport becomes the request's and is about to be written `5 1 0` |
| Requests.UpstreamRequest.CallsBackOnce | src/socks_upstream.cc:71-180 | the object invoked its callback at most once, and at rest exactly once but for the two exceptions of `Client.RequestEndsOnce` |
| Requests.UpstreamRequest.ReportsFailure | src/socks_upstream.cc:101-124 | after a failed connect, read or write the one call of the object has exactly that error and no transport, and a connected transport is closed |
| Requests.UpstreamRequest.ReportsResponse | src/socks_upstream.cc:154-176 | after a response the one call has the response's second byte as its error, and a transport exactly if that is 0 |
| Requests.UpstreamRequest.HandsOverOpen | src/socks_upstream.cc:154-176 | a transport handed over is the request's own, open, and has carried exactly the method list and the request; if none was, a connected one is closed |
| Requests.HandOver | src/socks_upstream.cc:168-176 | the request's callback is the connection's: the connection goes on with the request's own open transport behind exactly the SOCKS handshake for the endpoint, or with none |
| Direct.StartRequest | src/direct_upstream.cc:25-75 | for host lengths that fit their type, which `Server.AsksAfterHandshake` proves of every address passed on, the fixed-size copies fit, the endpoint connected to reads back as the requested address, names are resolved as given, and only an unknown type is called back at once |
| Direct.YieldsPossible | src/direct_upstream.cc:36-72 | the outcomes the chosen action can call back with are exactly those the chain reckons with |
| Direct.CopyHost | src/direct_upstream.cc:52-53 | the copy fills the fixed buffer exactly |
| Chain.StepOk | src/socks_server.cc:129-178 | every step of a chain of any length keeps every hop's invariant and lets every reader see only, and in order, what was written to it |
| Links.AgreeUp | src/socks_server.cc:68-127 | a server behind the first hop consumed exactly the client's method list and request, never met an unknown type or a wrapping length, and its payload is a prefix of what was relayed to it |
| Links.AgreeDown | src/socks_upstream.cc:110-178 | a client consumed exactly the next server's selection, an accepting one, and response, and the payload it passes back is a prefix of what was relayed to it |
| EndToEnd.ReachableOk | tests/example1.conf:2-31 | the chain invariant holds in every reachable state of a chain of any length |
| EndToEnd.ChainAsksForOrigin | src/socks_upstream.cc:132-141 | whatever address any hop has asked for is that of the CONNECT request the first hop parsed |
| EndToEnd.ChainReportsLastHop | src/socks_upstream.cc:168-176 | a hop that obtained a transport reports exactly the local address of the last hop's direct connection, as do all hops behind it |
| EndToEnd.PayloadIsPrefix | src/socks_server.cc:164-209 | what the destination was sent is a prefix of what the application wrote right behind its handshake, and what the application was sent as payload is a prefix of what the destination wrote |
| EndToEnd.NothingLost | src/socks_server.cc:190-209 | once all hops relay, the application's bytes are its handshake, what the destination was sent, and what the hops dropped or hold and the links carry, in order |
| EndToEnd.NothingLostBack | src/socks_server.cc:190-209 | the same from the destination to the application |
| Completion.NoDeadEnds | src/socks_upstream.cc:113-124 | in every reachable state of a chain, no server behind the first hop rejects a method list, meets an unknown type or crashes, and no request is answered by another method, an unknown type or a null transport |
| Rest.NoAnswerPending | src/socks_server.cc:139-178 | in a chain at rest no hop still waits for its upstream |
| Rest.ReplyIsSent | src/socks_server.cc:143-188 | in a chain at rest every contacted hop has written its selection and one response in full |
| Rest.HandshakeOutcome | src/socks_server.cc:129-188 | a chain of any length at rest without transport errors, after the application sent a CONNECT request: every hop asked for exactly that address; if the last hop connected, every hop sent `5 0` and one success with its local address and relays; if not, every hop sent `5 0` and exactly one `5 5 0 1 0 0 0 0 0 0`, every client closed its transport before calling back with code 5, and every transport is closed |
| Progress.StepRank | src/socks_server.cc:56-188 | every handshake step, failing or not, decreases a rank of the chain, and no other step changes it |
| Progress.HandshakeIsBounded | src/socks_upstream.cc:92-180 | any run of a chain of n hops has at most 12000 n handshake steps, however they are interleaved with relaying |
| Progress.Settles | src/socks_upstream.cc:92-180 | any run of a chain without transport errors extends, by handshake steps alone, to one with no handshake step left |
| Progress.HandshakeCompletes | src/socks_server.cc:129-188 | from any state of such a run in which the application sent a CONNECT request, the handshake of all hops can be completed, and it ends granted at every hop or refused at every hop |
| Closing.ExhaustedIsClosed | src/socks_server.cc:70-209 | in a chain of any length with no step left, failing ones included, every contacted hop has closed both its transports and every client has called back; only the first hop may keep the application's transport open, and only by an unknown type or a wrapping length in the application's own request |
| Closing.CloseSpreads | src/socks_server.cc:197-201 | in a relaying chain at rest, where streams end when the neighbour has closed, one hop's closed pair means that every hop has stopped both loops and closed both transports |
| Draining.RunIsBounded | src/socks_server.cc:56-209 | while the two ends write nothing more, a chain of any length, whichever hops shake hands, relay or close, takes a bounded number of steps, in any order and failing where it may |
| Draining.EveryRunCloses | src/socks_server.cc:70-209 | so from every reachable chain every such run ends, and where it ends every contacted hop has closed as `Closing.ExhaustedIsClosed` states |
| Draining.WholeChainCloses | src/socks_server.cc:196-206 | after one hop of a chain whose hops all relay has closed its pair, every run is bounded and, where relaying can go no further, has stopped and closed every hop |
| Delivery.OrderlyDelivery | src/socks_server.cc:190-209 | when the first hop of a relaying chain has read all that the application wrote and stopped, with no other stream ended and no write toward the destination failed, relaying is bounded and, where it can go no further, the application's bytes are its handshake followed by exactly what was written to the destination |
| EndpointCache.StepOk | src/socks_upstream.cc:35-69 | every atomic action of every concurrent call keeps the cache's invariant |
| EndpointCache.WrittenOnceReadAfter | src/socks_upstream.cc:35-78 | the endpoint is written at most once, never read before or during that write, and every value used is the one written |
| EndpointCache.CacheIsStable | src/socks_upstream.cc:66-67 | once the flag is set, flag and endpoint stay for the rest of the run |
| EndpointCache.FailureLeavesRetry | src/socks_upstream.cc:49-64 | a failed resolve or connect leaves the flag clear, nothing cached and the mutex free |
| EndpointCache.NeverStuck | src/socks_upstream.cc:35-69 | while a call is unfinished some call can go on |
| EndpointCache.CachesConnected | include/tcp_transport.h:45-52 | with an advancing iterator the cached endpoint is the one the first transport was connected to |
| EndpointCache.CachesConnectedExactly | src/tcp_transport.cc:136-150 | over every run, the cached endpoint is the one the first transport was connected to if and only if the iterator advances or the first resolved endpoint accepted connections then |
| EndpointCache.CachesDeadOtherwise | src/socks_upstream.cc:58-67 | otherwise it is the first resolved endpoint, which accepted nobody, while the connected one did |
| EndpointCache.EveryLaterUseFails | src/socks_upstream.cc:73-84 | and then, for as long as that endpoint does not begin to accept, every later connection of the run goes to it and is refused |
| EndpointCache.CachesUnreachable | src/tcp_transport.cc:140 | a run in which, of two results of which only the second accepts, the first is cached and the next call is refused |
| EndpointCache.UpstreamFactory.StartRequest | src/socks_upstream.cc:26-89 | one call on the object: fields change only on the first call that connects, to the first accepting result or, without an advancing iterator, to the first result; later calls use the cached value whether it accepts or not; and the calls amount to a run of the concurrent protocol |
| EndpointCache.UpstreamFactory.TryConnect | src/tcp_transport.cc:136-150 | the loop over the results stops at the first that accepts |
| Format.CompileCorrect | src/logging.cc:98-118 | a list of parts is the compiled format if and only if it is in normal form and concatenates back to the string; rendering it is left-to-right substitution, which puts the named attribute, or nothing if there is none, for every placeholder |
| Format.NamesExactly | src/logging.cc:99 | a name in braces compiles to that one key if and only if it is not empty and consists of digits, ASCII letters and underscores |
| Format.RendersAttribute | src/logging.cc:56-68 | a key renders as the attribute it names, or as the empty string if there is none; a constant as itself |
| Format.SubstitutesCharacter | src/logging.cc:107-117 | where no placeholder starts the character is kept |
| Format.RenderCompiled | src/logging.cc:56-68 | rendering the compiled format with any attributes equals substituting them in the string, a missing one giving the empty string |
| Format.SourceCompiled | src/logging.cc:103-117 | putting the braces back and concatenating gives the source |
| Format.CompiledIsNormal | src/logging.cc:105-117 | no constant is empty or contains a placeholder, no two are adjacent |
| Format.NormalFormUnique | src/logging.cc:103-117 | a format string has one normal form only |
| Format.MatchEnd | src/logging.cc:99 | a placeholder starts here exactly if the scanner says so, and then ends where it says |
| Format.Search | src/logging.cc:100 | the first placeholder at or after a position |
| Logging.LogSink.constructor | include/logging.h:66 | a sink starts with the eight parts of the default format, spelled out, and level 2 |
| Logging.LogSink.SetFormat | src/logging.cc:98-118 | the loop leaves the one normal form of the string, whatever was compiled before, and rendering it is substitution |
| Logging.LogSink.PushRecord | src/logging.cc:120-124 | a record is stored, rendered, exactly if its level is not lower than the sink's |
| Logging.Deliver | src/logging.cc:193-196 | every sink in turn is pushed the record and nothing else of it changes |
| Sinks.StepOk | src/logging.cc:189-196 | every lock, push and unlock of every thread keeps the invariant of sinks and threads |
| Sinks.SameOrderEverywhere | src/logging.cc:189-196 | in every state a later sink's pushes are a prefix of an earlier sink's, shorter by at most one, and each sink stored exactly what its level lets through |
| Sinks.FiltersEach | src/logging.cc:120-124 | filtering goes record by record and keeps a record exactly if its level is not lower than the sink's |
| Sinks.OneOrderAtRest | src/logging.cc:120-124 | at rest there is one global order that holds each thread's records in its order, none lost or repeated, and every sink holds it filtered by its level |
| Sinks.SomebodyCanStep | src/logging.cc:192-196 | while any thread is unfinished some step is enabled |
| Sinks.AlwaysFinishes | src/logging.cc:189-196 | a run never deadlocks, and its steps and the remaining work always add up to the work planned, so every run finishes |

## Assumptions

- A transport's exact read returns all the bytes or an error, its short read between one and all, or
  nothing or an error at the end; operations on a closed transport fail, a transport on which a write
  failed fails later writes, and closing is idempotent (`tests/mocks.cc:40-67`,
  `include/base.h:56-71`). Bytes between neighbouring hops arrive in order and unchanged.
- A factory asked to connect calls back once, and the direct factory's transport reports the address
  of some IPv4 or IPv6 endpoint.
- In the endpoint cache, `TryConnect` connects to the first resolved endpoint that accepts at that time and
  fails if none does; which endpoints accept may change between any two steps.
- The method list's two-byte header is read into a little-endian integer, as on the usual machines.

## Left out

- SSL transports (`src/ssl.cc`), the asio wrapper of `src/tcp_transport.cc`, the accept loop, command line and configuration: foreign calls and wiring.
- Name resolution, time and message formatting, file and standard error output: their results are arbitrary inputs.
- The regular expression engine: an explicit scanner for `{`, word characters, `}` stands for it.
- Names of enumeration values, `Address::ToString` and the texts of log messages: display only.
- Changing the sink list or a sink's level or format while threads are logging: the list is unguarded, so sinks are fixed during a run. The exception thrown after a FATAL record only follows the delivery modelled.
- Lifetimes and memory: shared pointers and buffer ownership are not modelled; undefined behaviour is a state that nothing leaves.
- In the handshake the completion of an operation and its callback are one step, since only one operation is pending; in the relay, where the directions race, they are two.
- The callback invoked while the cache's mutex is held, on failure, is not followed into the caller; a caller that started another request from inside it would wait for itself.
- Error codes are natural numbers with zero for none; their categories and messages are not distinguished.
- Delivery.OrderlyDelivery: states the way from the application to the destination only; the accounting of the way back is `EndToEnd.NothingLostBack`.
- HandshakeOutcome: speaks of runs without transport errors, since an error may cut any handshake short; what holds of all runs is stated by the lemmas about reachable states.
