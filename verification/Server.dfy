/** One connection of the SOCKS server, as the callbacks see it: at most one operation is pending on
    the handshake, and every event below is the completion of that operation. The peer and the
    upstream factory are arbitrary. */
module Server {
  import opened Packets
  import opened Base
  import Relay

  /** Which handshake message is being written, which decides what its completion does. */
  datatype Purpose = Reject | Acknowledge | Failure | Success

  datatype Phase =
    | Idle                          // not accepted yet
    | ReadMethods(reader: Reader)
    | ReadRequest(reader: Reader)
    | Sending(purpose: Purpose)
    | AwaitUpstream
    | Relaying
    | Closed
    | Silent                        // unknown address type: nothing pending, nothing closed
    | Crashed                       // undefined behaviour

  /** `offer` and `query` are the bytes consumed for the method list and for the request, `hello` and
      `request` what they parsed to. `said` are the packets whose writing was started downstream,
      `sent` the bytes that left before relaying and `unsent` the rest of the last write. `asked` are
      the addresses passed to the upstream factory and `outcome` is its answer. `pair` holds both
      transports, its histories counting relayed bytes only. */
  datatype Server = Server(
    phase: Phase,
    offer: bytes,
    query: bytes,
    hello: Option<Packet>,
    request: Option<Packet>,
    said: seq<Packet>,
    sent: bytes,
    unsent: bytes,
    asked: seq<Address>,
    outcome: Option<Outcome>,
    pair: Relay.Pair)

  datatype Event =
    | Accept
    | Receive(data: bytes)
    | ReceiveFails
    | PutSome(count: nat)
    | PutAll
    | PutFails
    | Answer(outcome: Outcome)
    | Relayed(isUpward: bool, event: Relay.Event)

  const ABSENT: Relay.Port := Relay.Port([], [], false, false, [])

  const INIT: Server :=
    Server(Idle, [], [], None, None, [], [], [], [], None,
           Relay.Pair(Relay.FRESH, ABSENT, Relay.Stopped, Relay.Stopped))

  predicate Enabled(s: Server, e: Event) {
    match e
    case Accept => s.phase.Idle?
    case Receive(data) =>
      (s.phase.ReadMethods? || s.phase.ReadRequest?) && Waiting(s.phase.reader) && |data| == Need(s.phase.reader)
    case ReceiveFails => s.phase.ReadMethods? || s.phase.ReadRequest?
    case PutSome(n) => s.phase.Sending? && 1 <= n <= |s.unsent|
    case PutAll => s.phase.Sending? && s.unsent == []
    case PutFails => s.phase.Sending?
    case Answer(_) => s.phase.AwaitUpstream?
    case Relayed(isUpward, e) => s.phase.Relaying? && Relay.Enabled(Relay.WayOf(s.pair, isUpward), e)
  }

  function CloseDown(s: Server): Server {
    s.(phase := Closed, pair := s.pair.(down := Relay.Close(s.pair.down)))
  }

  function CloseBoth(s: Server): Server {
    s.(phase := Closed, pair := s.pair.(down := Relay.Close(s.pair.down), up := Relay.Close(s.pair.up)))
  }

  function Send(s: Server, purpose: Purpose, p: Packet): Server {
    s.(phase := Sending(purpose), said := s.said + [p], unsent := Serialize(p))
  }

  function ResponseError(s: Server, code: byte): Server {
    Send(s, Failure, Response(VERSION, code, ANY_ADDRESS))
  }

  function OnMethods(s: Server, r: Reader, data: bytes): Server {
    var t := s.(offer := s.offer + data);
    if !r.Got? || !r.packet.Methods? then t.(phase := ReadMethods(r))
    else if NO_AUTH !in r.packet.methods then
      Send(t.(hello := Some(r.packet)), Reject, Select(VERSION, NOT_SUPPORTED))
    else
      Send(t.(hello := Some(r.packet)), Acknowledge, Select(VERSION, NO_AUTH))
  }

  function OnRequest(s: Server, r: Reader, data: bytes): Server {
    var t := s.(query := s.query + data);
    match r
    case Silent => t.(phase := Phase.Silent)
    case Undefined => t.(phase := Crashed)
    case Got(Request(v, command, address)) =>
      if command != CONNECT then
        ResponseError(t.(request := Some(r.packet)), COMMAND_NOT_SUPPORTED)
      else
        t.(request := Some(r.packet), asked := s.asked + [address], phase := AwaitUpstream)
    case _ => t.(phase := ReadRequest(r))
  }

  function OnSent(s: Server, purpose: Purpose): Server {
    match purpose
    case Reject => CloseDown(s)
    case Acknowledge => s.(phase := ReadRequest(Head(true)))
    case Failure => CloseDown(s)
    case Success => s.(phase := Relaying, pair := s.pair.(upward := Relay.Reading, downward := Relay.Reading))
  }

  function OnAnswer(s: Server, o: Outcome): Server {
    var t := s.(outcome := Some(o));
    if o.error != 0 then ResponseError(t, CONNECTION_REFUSED)
    else match o.transport
      case None => t.(phase := Crashed)  // the null transport is asked for its local address
      case Some(local) =>
        Send(t.(pair := s.pair.(up := Relay.FRESH)), Success, Response(VERSION, SUCCESS, local))
  }

  function Apply(s: Server, e: Event): Server
    requires Enabled(s, e)
  {
    match e
    case Accept => s.(phase := ReadMethods(MethodsHead))
    case Receive(data) =>
      var r := Feed(s.phase.reader, data);
      if s.phase.ReadMethods? then OnMethods(s, r, data) else OnRequest(s, r, data)
    case ReceiveFails => CloseDown(s)
    case PutSome(n) =>
      s.(sent := s.sent + s.unsent[..n], unsent := s.unsent[n..])
    case PutAll => OnSent(s, s.phase.purpose)
    case PutFails => if s.phase.purpose.Success? then CloseBoth(s) else CloseDown(s)
    case Answer(o) => OnAnswer(s, o)
    case Relayed(isUpward, e) =>
      s.(pair := Relay.WithWay(s.pair, isUpward, Relay.Apply(Relay.WayOf(s.pair, isUpward), e)))
  }

  // ----- what every step keeps -----

  predicate OffersNoAuth(s: Server) {
    s.hello.Some? && s.hello.value.Methods? && NO_AUTH in s.hello.value.methods
  }

  predicate WantsConnect(s: Server) {
    s.request.Some? && s.request.value.Request? && s.request.value.command == CONNECT
  }

  predicate Connected(s: Server) {
    s.outcome.Some? && s.outcome.value.error == 0 && s.outcome.value.transport.Some?
  }

  /** The response the protocol owes for the request and the upstream's answer, if any yet. */
  function OwedReply(s: Server): seq<Packet> {
    if s.request.None? then []
    else if !WantsConnect(s) then [Response(VERSION, COMMAND_NOT_SUPPORTED, ANY_ADDRESS)]
    else if s.outcome.None? then []
    else if s.outcome.value.error != 0 then [Response(VERSION, CONNECTION_REFUSED, ANY_ADDRESS)]
    else if s.outcome.value.transport.None? then []
    else [Response(VERSION, SUCCESS, s.outcome.value.transport.value)]
  }

  /** Everything the protocol lets the server say before relaying: at most one method selection,
      and after an accepting one at most one response. */
  function Script(s: Server): seq<Packet> {
    if s.hello.None? then []
    else if !OffersNoAuth(s) then [Select(VERSION, NOT_SUPPORTED)]
    else [Select(VERSION, NO_AUTH)] + OwedReply(s)
  }

  /** The parsed packets are what the consumed bytes parse to. */
  ghost predicate Parsed(s: Server) {
    && (s.hello.Some? ==> s.hello.value.Methods? && Reaches(MethodsHead, s.offer, Got(s.hello.value)))
    && (s.request.Some? ==> s.request.value.Request? && Reaches(Head(true), s.query, Got(s.request.value)))
    && (s.phase.ReadMethods? ==>
          && Waiting(s.phase.reader) && Parses(s.phase.reader, MethodsKind)
          && Reaches(MethodsHead, s.offer, s.phase.reader))
    && (s.phase.ReadRequest? ==>
          && Waiting(s.phase.reader) && Parses(s.phase.reader, RequestKind)
          && Reaches(Head(true), s.query, s.phase.reader))
    && (s.phase.Silent? ==> Reaches(Head(true), s.query, Reader.Silent))
    && (s.phase.Crashed? && s.outcome.None? ==> Reaches(Head(true), s.query, Undefined))
    && (s.phase.Closed? && s.request.None? ==> Unfinished(true, s.query))
  }

  /** Each stage starts only after the one before it is complete, and each phase has its place. */
  ghost predicate Ordered(s: Server) {
    && (s.phase.Idle? ==> s.offer == [])
    && (s.hello.None? ==>
          s.request.None? && s.query == [] && (s.phase.Idle? || s.phase.ReadMethods? || s.phase.Closed?))
    && (s.hello.Some? ==> s.hello.value.Methods? && !s.phase.Idle? && !s.phase.ReadMethods?)
    && (s.hello.Some? && !OffersNoAuth(s) ==> s.phase == Sending(Reject) || s.phase.Closed?)
    && (s.request.None? && OffersNoAuth(s) ==>
          (s.phase == Sending(Acknowledge) && s.query == [])
          || s.phase.ReadRequest? || s.phase.Closed? || s.phase.Silent? || s.phase.Crashed?)
    && (s.request.Some? ==> s.request.value.Request? && OffersNoAuth(s) && !s.phase.Silent?)
    && (s.query != [] ==> OffersNoAuth(s))
    && (s.request.Some? && !WantsConnect(s) ==> s.outcome.None? && (s.phase == Sending(Failure) || s.phase.Closed?))
    && (WantsConnect(s) && s.outcome.None? <==> s.phase.AwaitUpstream?)
    && (s.outcome.Some? ==> WantsConnect(s))
    && (s.outcome.Some? && !Connected(s) ==>
          s.phase == (if s.outcome.value.error == 0 then Crashed else Sending(Failure))
          || (s.phase.Closed? && s.outcome.value.error != 0))
    && (Connected(s) ==> s.phase == Sending(Success) || s.phase.Relaying? || s.phase.Closed?)
    && s.asked == (if WantsConnect(s) then [s.request.value.address] else [])
  }

  /** What is being said is what the protocol owes, and it is written in order and completely before
      the next thing is said or done. */
  ghost predicate Scripted(s: Server) {
    && s.said == Script(s)
    && (!s.phase.Sending? && !s.phase.Closed? ==> s.unsent == [])
    && (|s.said| == 1 && s.query != [] ==> s.unsent == [])
  }

  ghost predicate Wired(s: Server) {
    OnWire(s.said, s.sent, s.unsent)
  }

  /** Who is open: until the end the downstream, and the upstream once it was obtained. */
  ghost predicate Owned(s: Server) {
    && (if s.phase.Relaying? then Relay.PairOk(s.pair) else
          s.pair.down.got == s.pair.down.put == s.pair.up.got == s.pair.up.put == []
          && s.pair.down.dropped == s.pair.up.dropped == []
          && !s.pair.down.broken && !s.pair.up.broken)
    && (!s.phase.Relaying? ==> s.pair.down.open == !s.phase.Closed?)
    && (!s.phase.Relaying? ==> s.pair.up.open == (Connected(s) && !s.phase.Closed?))
  }

  ghost predicate Ok(s: Server) {
    Parsed(s) && Ordered(s) && Scripted(s) && Wired(s) && Owned(s)
  }

  lemma InitOk()
    ensures Ok(INIT)
  {
  }

  lemma MethodsParsed(s: Server, data: bytes)
    requires Parsed(s) && Ordered(s) && s.phase.ReadMethods? && Enabled(s, Receive(data))
    ensures Parsed(Apply(s, Receive(data)))
  {
    hide Serialize, Reaches;
    ReachesSnoc(MethodsHead, s.offer, s.phase.reader, data);
    FeedParses(s.phase.reader, data, MethodsKind);
  }

  lemma RequestParsed(s: Server, data: bytes)
    requires Parsed(s) && Ordered(s) && s.phase.ReadRequest? && Enabled(s, Receive(data))
    ensures Parsed(Apply(s, Receive(data)))
  {
    hide Serialize, Reaches;
    ReachesSnoc(Head(true), s.query, s.phase.reader, data);
    FeedParses(s.phase.reader, data, RequestKind);
  }

  lemma ParsedKept(s: Server, e: Event)
    requires Parsed(s) && Ordered(s) && Enabled(s, e)
    ensures Parsed(Apply(s, e))
  {
    hide Serialize, Reaches;
    NothingRead(MethodsHead);
    NothingRead(Head(true));
    if e.Receive? {
      if s.phase.ReadMethods? {
        MethodsParsed(s, e.data);
      } else {
        RequestParsed(s, e.data);
      }
    }
  }

  lemma OnMethodsOrdered(s: Server, r: Reader, data: bytes)
    requires Ordered(s) && Scripted(s) && s.phase.ReadMethods?
    ensures Ordered(OnMethods(s, r, data)) && Scripted(OnMethods(s, r, data))
  {
    hide Serialize;
  }

  lemma OnRequestOrdered(s: Server, r: Reader, data: bytes)
    requires Ordered(s) && Scripted(s) && s.phase.ReadRequest?
    ensures Ordered(OnRequest(s, r, data)) && Scripted(OnRequest(s, r, data))
  {
    hide Serialize;
  }

  lemma OnAnswerOrdered(s: Server, o: Outcome)
    requires Ordered(s) && Scripted(s) && s.phase.AwaitUpstream?
    ensures Ordered(OnAnswer(s, o)) && Scripted(OnAnswer(s, o))
  {
    hide Serialize;
  }

  lemma OnSentOrdered(s: Server, purpose: Purpose)
    requires Ordered(s) && Scripted(s) && s.phase == Sending(purpose) && s.unsent == []
    ensures Ordered(OnSent(s, purpose)) && Scripted(OnSent(s, purpose))
  {
    hide Serialize;
  }

  lemma ClosingOrdered(s: Server)
    requires Ordered(s) && Scripted(s) && (s.phase.Sending? || s.phase.ReadMethods? || s.phase.ReadRequest?)
    ensures Ordered(CloseDown(s)) && Scripted(CloseDown(s)) && Ordered(CloseBoth(s)) && Scripted(CloseBoth(s))
  {
    hide Serialize;
  }

  lemma OtherOrdered(s: Server, e: Event)
    requires Ordered(s) && Scripted(s) && Enabled(s, e)
    requires e.Accept? || e.PutSome? || e.Relayed?
    ensures Ordered(Apply(s, e)) && Scripted(Apply(s, e))
  {
    hide Serialize, Relay.Apply, Relay.WithWay, Relay.Enabled;
  }

  lemma OrderedKept(s: Server, e: Event)
    requires Ordered(s) && Scripted(s) && Enabled(s, e)
    ensures Ordered(Apply(s, e)) && Scripted(Apply(s, e))
  {
    hide Ordered, Scripted, OnMethods, OnRequest, OnAnswer, OnSent, CloseDown, CloseBoth, Feed;
    if e.Receive? {
      var r := Feed(s.phase.reader, e.data);
      if s.phase.ReadMethods? {
        OnMethodsOrdered(s, r, e.data);
      } else {
        OnRequestOrdered(s, r, e.data);
      }
    } else if e.Answer? {
      OnAnswerOrdered(s, e.outcome);
    } else if e.PutAll? {
      OnSentOrdered(s, s.phase.purpose);
    } else if e.ReceiveFails? || e.PutFails? {
      ClosingOrdered(s);
    } else {
      OtherOrdered(s, e);
    }
  }

  lemma WiredKept(s: Server, e: Event)
    requires Scripted(s) && Wired(s) && Enabled(s, e)
    ensures Wired(Apply(s, e))
  {
    hide Serialize, Feed, OnWire, Script, Relay.Apply, Relay.WithWay, Relay.Enabled;
    if e.PutSome? {
      PutOnWire(s.said, s.sent, s.unsent, e.count);
    } else if e.Receive? || e.Answer? {
      var t := Apply(s, e);
      if t.said != s.said {
        SayOnWire(s.said, s.sent, t.said[|s.said|]);
      }
    }
  }

  lemma OwnedKept(s: Server, e: Event)
    requires Ordered(s) && Owned(s) && Enabled(s, e)
    ensures Owned(Apply(s, e))
  {
    hide Ordered, Owned, Feed, OnMethods, OnRequest, OnAnswer, OnSent, CloseDown, CloseBoth, Relay.Enabled,
      Relay.Apply, Relay.WithWay;
    if e.Relayed? {
      RelayedOwned(s, e);
    } else if e.PutAll? {
      OnSentOwned(s, s.phase.purpose);
    } else if e.ReceiveFails? || e.PutFails? {
      ClosingOwned(s);
    } else {
      OtherOwned(s, e);
    }
  }

  lemma OnSentOwned(s: Server, purpose: Purpose)
    requires Ordered(s) && Owned(s) && s.phase == Sending(purpose)
    ensures Owned(OnSent(s, purpose))
  {
    hide Relay.PairOk;
    if purpose.Success? {
      RelayStarts(s);
    }
  }

  lemma ClosingOwned(s: Server)
    requires Ordered(s) && Owned(s) && (s.phase.Sending? || s.phase.ReadMethods? || s.phase.ReadRequest?)
    ensures s.phase == Sending(Success) ==> Owned(CloseBoth(s))
    ensures s.phase != Sending(Success) ==> Owned(CloseDown(s))
  {
    hide Relay.PairOk;
  }

  lemma OtherOwned(s: Server, e: Event)
    requires Ordered(s) && Owned(s) && Enabled(s, e)
    requires e.Accept? || e.Receive? || e.PutSome? || e.Answer?
    ensures Owned(Apply(s, e))
  {
    hide Serialize, Feed, Relay.PairOk;
  }

  lemma RelayedOwned(s: Server, e: Event)
    requires Owned(s) && Enabled(s, e) && e.Relayed?
    ensures Owned(Apply(s, e))
  {
    hide Relay.Apply, Relay.Enabled, Relay.PairOk;
    Relay.StepKeepsPair(s.pair, Apply(s, e).pair, e.isUpward, e.event);
  }

  /** The loops start with both transports open and nothing relayed. */
  lemma RelayStarts(s: Server)
    requires Ordered(s) && Owned(s) && s.phase == Sending(Success)
    ensures Relay.PairOk(OnSent(s, Success).pair)
  {
  }

  lemma ApplyOk(s: Server, e: Event)
    requires Ok(s) && Enabled(s, e)
    ensures Ok(Apply(s, e))
  {
    ParsedKept(s, e);
    OrderedKept(s, e);
    WiredKept(s, e);
    OwnedKept(s, e);
  }

  // ----- every run -----

  ghost predicate Next(s: Server, t: Server) {
    exists e :: Enabled(s, e) && t == Apply(s, e)
  }

  ghost predicate IsRun(run: seq<Server>) {
    run != [] && run[0] == INIT && forall i :: 0 < i < |run| ==> Next(run[i - 1], run[i])
  }

  lemma {:induction false} RunOk(run: seq<Server>)
    requires IsRun(run)
    ensures Ok(run[|run| - 1])
  {
    hide Ok, Apply, Enabled;
    if |run| == 1 {
      InitOk();
    } else {
      RunOk(run[..|run| - 1]);
      var s, t := run[|run| - 2], run[|run| - 1];
      assert Next(s, t);
      var e :| Enabled(s, e) && t == Apply(s, e);
      ApplyOk(s, e);
    }
  }

  /** Sections 3, 4 and 6 of RFC 1928 over every run, whatever the peer and the upstream do: what
      leaves downstream before relaying is a prefix of one method selection followed, if that
      accepted, by one response. */
  lemma SpeaksInTurn(run: seq<Server>)
    requires IsRun(run)
    ensures var s := run[|run| - 1];
      && s.sent <= Stream(s.said)
      && |s.said| <= 2
      && (|s.said| >= 1 ==> s.said[0] == Select(VERSION, NO_AUTH) || s.said == [Select(VERSION, NOT_SUPPORTED)])
      && (|s.said| == 2 ==> s.said[1].Response?)
  {
    hide Parsed, Owned, Ordered, Serialize, Stream;
    RunOk(run);
  }

  /** The upstream is asked at most once, and only after a parsed offer of no authentication, its
      completely written acknowledgement and a parsed CONNECT request, whose address it is given;
      that address has the host length its type calls for. */
  lemma AsksAfterHandshake(run: seq<Server>)
    requires IsRun(run) && run[|run| - 1].asked != []
    ensures var s := run[|run| - 1];
      && OffersNoAuth(s) && Reaches(MethodsHead, s.offer, Got(s.hello.value))
      && Serialize(Select(VERSION, NO_AUTH)) <= s.sent
      && WantsConnect(s) && Reaches(Head(true), s.query, Got(s.request.value))
      && s.asked == [s.request.value.address] && WellFormed(s.request.value.address)
  {
    hide Owned, Reaches, Serialize;
    var s := run[|run| - 1];
    RunOk(run);
    AcceptedReserializes(Head(true), s.query, s.request.value);
    AcknowledgedFirst(s);
  }

  /** Whatever was said after the selection was said after all of the selection was sent. */
  lemma AcknowledgedFirst(s: Server)
    requires Ordered(s) && Scripted(s) && Wired(s) && s.request.Some?
    ensures Serialize(Select(VERSION, NO_AUTH)) <= s.sent
  {
    hide Serialize, Stream;
    var p := Select(VERSION, NO_AUTH);
    assert s.said[0] == p;
    if |s.said| == 1 {
      TwoPackets(p, p);
      assert s.said == [p];
      assert s.sent + [] == s.sent;
    } else {
      var q := s.said[1];
      TwoPackets(p, q);
      assert s.said == [p, q];
      FirstIsSent(Serialize(p), Serialize(q), s.sent, s.unsent);
    }
  }

  /** Relaying starts only after a success response, with the local address of the transport the
      upstream handed over, was written in full. */
  lemma RelaysAfterSuccess(run: seq<Server>)
    requires IsRun(run) && run[|run| - 1].phase.Relaying?
    ensures var s := run[|run| - 1];
      && Connected(s) && s.asked != []
      && s.sent == Serialize(Select(VERSION, NO_AUTH))
                   + Serialize(Response(VERSION, SUCCESS, s.outcome.value.transport.value))
  {
    RunOk(run);
    SuccessSent(run[|run| - 1]);
  }

  lemma SuccessSent(s: Server)
    requires Ordered(s) && Scripted(s) && Wired(s) && s.phase.Relaying?
    ensures Connected(s) && s.asked != []
    ensures s.sent == Serialize(Select(VERSION, NO_AUTH))
                      + Serialize(Response(VERSION, SUCCESS, s.outcome.value.transport.value))
  {
    hide Serialize, Stream;
    var p, q := Select(VERSION, NO_AUTH), Response(VERSION, SUCCESS, s.outcome.value.transport.value);
    TwoPackets(p, q);
    assert s.said == [p, q];
    assert s.sent + [] == s.sent;
  }

  // ----- in bytes -----

  /** What the bytes read say of the methods offered and of the command. */
  lemma ReadsInBytes(s: Server)
    requires Parsed(s)
    ensures s.hello.Some? ==> |s.offer| >= 2 && (OffersNoAuth(s) <==> 0 in s.offer[2..])
    ensures s.request.Some? ==> |s.query| >= 2 && (WantsConnect(s) <==> s.query[1] == 1)
  {
    hide Reaches, Serialize;
    if s.hello.Some? {
      AcceptedBytes(MethodsHead, s.offer, s.hello.value);
    }
    if s.request.Some? {
      AcceptedBytes(Head(true), s.query, s.request.value);
    }
  }

  /** The bytes a connection owes: nothing before it has read a method list; `5 255` if that does not hold
      method 0; else `5 0`, and after a request whose command is not 1 a response of code 7, after an
      error of the upstream one of code 5, both with the address type 1, four zeros and port zero, and
      after its success one of code 0 with the local address. */
  function Owed(s: Server): bytes
    requires s.hello.Some? ==> |s.offer| >= 2
    requires s.request.Some? ==> |s.query| >= 2
  {
    if s.hello.None? then []
    else if 0 !in s.offer[2..] then [5, 255]
    else if s.request.None? then [5, 0]
    else if s.query[1] != 1 then [5, 0] + [5, 7, 0, 1, 0, 0, 0, 0, 0, 0]
    else match s.outcome
      case None => [5, 0]
      case Some(Outcome(error, transport)) =>
        if error != 0 then [5, 0] + [5, 5, 0, 1, 0, 0, 0, 0, 0, 0]
        else if transport.None? then [5, 0]
        else [5, 0] + ([5, 0, 0] + AddressBytes(transport.value))
  }

  lemma WrittenOut(s: Server)
    requires Parsed(s) && Ordered(s) && Scripted(s) && Wired(s)
    ensures s.hello.Some? ==> |s.offer| >= 2
    ensures s.request.Some? ==> |s.query| >= 2
    ensures s.sent + s.unsent == Owed(s)
  {
    hide Reaches, Serialize, Stream;
    ReadsInBytes(s);
    FixedPackets();
    var p := Select(VERSION, NO_AUTH);
    TwoPackets(Select(VERSION, NOT_SUPPORTED), p);
    TwoPackets(p, if |s.said| == 2 then s.said[1] else p);
    NothingSaid();
    if Connected(s) {
      MessageBytes(s.outcome.value.transport.value);
    }
    assert |s.said| == 2 ==> s.said == [p, s.said[1]];
    assert |s.said| == 1 ==> s.said == [s.said[0]];
  }

  /** Over every run, in bytes: the upstream is asked if and only if a method list with method 0 and a request
      whose second byte is 1 were read, and what is being written is exactly what is owed. */
  lemma SpeaksInBytes(run: seq<Server>)
    requires IsRun(run)
    ensures var s := run[|run| - 1];
      && (s.hello.Some? ==> |s.offer| >= 2)
      && (s.request.Some? ==> |s.query| >= 2 && s.hello.Some? && 0 in s.offer[2..])
      && (s.asked != [] <==> s.request.Some? && s.query[1] == 1)
      && s.sent + s.unsent == Owed(s)
      && (!s.phase.Sending? && !s.phase.Closed? ==> s.unsent == [])
  {
    hide Reaches, Serialize, Stream, Next, Owed;
    var s := run[|run| - 1];
    RunOk(run);
    ReadsInBytes(s);
    WrittenOut(s);
  }

  // ----- the relay of a connection -----

  /** Relaying starts with two open transports, nothing relayed, and both loops reading. */
  lemma StartsRelay(s: Server, e: Event)
    requires Ordered(s) && Owned(s) && Enabled(s, e) && !s.phase.Relaying? && Apply(s, e).phase.Relaying?
    ensures Apply(s, e).pair == Relay.STARTED
  {
    hide Serialize, Feed, Relay.PairOk, Relay.Apply, Relay.Enabled;
  }

  lemma RelaysOn(s: Server, e: Event)
    requires Enabled(s, e) && s.phase.Relaying?
    ensures e.Relayed? && Apply(s, e).phase.Relaying?
    ensures Relay.Step(s.pair, Apply(s, e).pair, e.isUpward, e.event)
  {
    hide Relay.Apply, Relay.Enabled;
  }

  /** The pair of a relaying connection is the end of a relay run, so that what holds of every relay run
      holds of every connection. */
  lemma {:induction false} RelayOf(run: seq<Server>) returns (pairs: seq<Relay.Pair>, moves: seq<Relay.Move>)
    requires IsRun(run) && run[|run| - 1].phase.Relaying?
    ensures Relay.IsTrace(pairs, moves) && pairs[|moves|] == run[|run| - 1].pair
  {
    hide Enabled, Apply, Ok, Relay.Step;
    var n := |run| - 1;
    if n > 0 {
      var s, t := run[n - 1], run[n];
      RunOk(run[..n]);
      assert Next(s, t);
      var e :| Enabled(s, e) && t == Apply(s, e);
      if s.phase.Relaying? {
        RelaysOn(s, e);
        pairs, moves := RelayOf(run[..n]);
        pairs, moves := pairs + [t.pair], moves + [Relay.Move(e.isUpward, e.event)];
      } else {
        StartsRelay(s, e) by { OkParts(s); }
        pairs, moves := [Relay.STARTED], [];
      }
    }
  }

  /** So in either direction of a relaying connection all that was read is delivered or in flight if and only
      if no write of its relay failed before it had put all its bytes. */
  lemma LosesExactly(run: seq<Server>, isUpward: bool) returns (pairs: seq<Relay.Pair>, moves: seq<Relay.Move>)
    requires IsRun(run) && run[|run| - 1].phase.Relaying?
    ensures Relay.IsTrace(pairs, moves) && pairs[|moves|] == run[|run| - 1].pair
    ensures var w := Relay.WayOf(run[|run| - 1].pair, isUpward);
      w.from.got == w.to.put + Relay.InFlight(w.state) <==> Relay.FailsLate(pairs, moves, isUpward)
  {
    hide Next, Relay.Step, Relay.FailsLate;
    pairs, moves := RelayOf(run);
    Relay.LosesExactly(pairs, moves, isUpward);
  }

  // ----- coming to rest -----

  ghost predicate AtRest(s: Server) {
    !s.phase.Idle? && forall e :: !Enabled(s, e)
  }

  predicate Settled(s: Server) {
    || s.phase.Closed? || s.phase.Silent? || s.phase.Crashed?
    || (s.phase.Relaying? && s.pair.upward.Stopped? && s.pair.downward.Stopped?)
  }

  /** The failing step of a connection that is neither settled nor waiting for its upstream. */
  function FailingEvent(s: Server): Event {
    match s.phase
    case Sending(_) => PutFails
    case Relaying =>
      var isUpward := !s.pair.upward.Stopped?;
      Relayed(isUpward, match Relay.WayOf(s.pair, isUpward).state
        case Reading => Relay.TakeNone
        case Writing(_) => Relay.PutFails
        case _ => Relay.Callback)
    case _ => ReceiveFails
  }

  lemma FailingIsEnabled(s: Server)
    requires !Settled(s) && !s.phase.Idle? && !s.phase.AwaitUpstream?
    ensures Enabled(s, FailingEvent(s))
  {
  }

  lemma RestIsSettled(s: Server)
    requires Ok(s) && !s.phase.Idle?
    ensures AtRest(s) <==> Settled(s)
  {
    hide Reaches, Serialize, Stream, Ordered, Scripted, Relay.PairOk;
    if s.phase.AwaitUpstream? {
      assert Enabled(s, Answer(Outcome(1, None)));
    } else if !Settled(s) {
      FailingIsEnabled(s);
    }
  }

  /** A read completes between two states. */
  ghost predicate CompletesRead(s: Server, t: Server) {
    exists data :: Enabled(s, Receive(data)) && t == Apply(s, Receive(data))
  }

  /** The zero- or one-byte read behind a wrapping domain length completed. */
  ghost predicate ReadsWrapped(run: seq<Server>) {
    exists i :: 0 < i < |run| && run[i - 1].phase.ReadRequest? && WrappingDomain(run[i - 1].query)
      && CompletesRead(run[i - 1], run[i])
  }

  lemma QueryLeads(s: Server) returns (r: Reader)
    requires Parsed(s) && Ordered(s)
    ensures Reaches(Head(true), s.query, r) && (r.Silent? ==> s.phase.Silent?)
  {
    hide Reaches;
    if s.request.Some? {
      r := Got(s.request.value);
    } else if s.phase.Silent? {
      r := Reader.Silent;
    } else if s.phase.Crashed? {
      r := Undefined;
    } else if s.phase.ReadRequest? {
      r := s.phase.reader;
    } else if s.phase.Closed? {
      r :| Waiting(r) && Reaches(Head(true), s.query, r);
    } else {
      r := Head(true);
      NothingRead(r);
    }
  }

  /** An unknown address type is consumed exactly in the state that waits for nothing. */
  lemma SilentIsUnknown(s: Server)
    requires Parsed(s) && Ordered(s)
    ensures s.phase.Silent? <==> UnknownKind(s.query)
  {
    hide Reaches, Parsed, Ordered;
    if UnknownKind(s.query) {
      var r := QueryLeads(s);
      UnknownEnds(true, s.query, r);
    } else if s.phase.Silent? {
      SilentReached(s);
      SilentExactly(true, s.query);
    }
  }

  lemma SilentReached(s: Server)
    requires Parsed(s) && s.phase.Silent?
    ensures Reaches(Head(true), s.query, Reader.Silent)
  {
    hide Reaches;
  }

  /** The two steps into undefined behaviour. */
  lemma CrashStep(s: Server, e: Event)
    requires Parsed(s) && Enabled(s, e)
    ensures Apply(s, e).phase.Crashed? <==>
      (e.Receive? && s.phase.ReadRequest? && WrappingDomain(s.query)) || e == Answer(Outcome(0, None))
  {
    hide Reaches, Serialize, Feed, Relay.Apply, Relay.WithWay, Relay.Enabled;
    if e.Receive? && s.phase.ReadRequest? {
      UndefinedRead(true, s.query, s.phase.reader, e.data);
    }
  }

  lemma OutcomeStep(s: Server, e: Event)
    requires Enabled(s, e) && (s.outcome == Some(Outcome(0, None)) ==> s.phase.Crashed?)
    ensures !s.phase.Crashed?
    ensures Apply(s, e).outcome == Some(Outcome(0, None)) <==> e == Answer(Outcome(0, None))
  {
    hide Serialize, Feed, Relay.Apply, Relay.WithWay, Relay.Enabled;
  }

  lemma ReadsWrappedSnoc(run: seq<Server>)
    requires |run| >= 2
    ensures var n := |run| - 1;
      ReadsWrapped(run) <==>
        || ReadsWrapped(run[..n])
        || (run[n - 1].phase.ReadRequest? && WrappingDomain(run[n - 1].query) && CompletesRead(run[n - 1], run[n]))
  {
    hide CompletesRead, WrappingDomain;
    var n := |run| - 1;
    var shorter := run[..n];
    if ReadsWrapped(shorter) {
      var i :| 0 < i < |shorter| && shorter[i - 1].phase.ReadRequest? && WrappingDomain(shorter[i - 1].query)
        && CompletesRead(shorter[i - 1], shorter[i]);
      assert run[i - 1] == shorter[i - 1] && run[i] == shorter[i];
    }
    if ReadsWrapped(run) {
      var i :| 0 < i < |run| && run[i - 1].phase.ReadRequest? && WrappingDomain(run[i - 1].query)
        && CompletesRead(run[i - 1], run[i]);
      if i < n {
        assert shorter[i - 1] == run[i - 1] && shorter[i] == run[i];
      }
    }
  }

  lemma CrashLast(s: Server, t: Server)
    requires Ok(s) && Next(s, t) && (s.outcome == Some(Outcome(0, None)) ==> s.phase.Crashed?)
    ensures !s.phase.Crashed?
    ensures t.phase.Crashed? <==>
      || (s.phase.ReadRequest? && WrappingDomain(s.query) && CompletesRead(s, t))
      || t.outcome == Some(Outcome(0, None))
  {
    hide Enabled, Apply, Parsed, Ordered, Scripted, Wired, Owned, WrappingDomain;
    var e :| Enabled(s, e) && t == Apply(s, e);
    CrashStep(s, e);
    OutcomeStep(s, e);
    if CompletesRead(s, t) {
      var data :| Enabled(s, Receive(data)) && t == Apply(s, Receive(data));
      CrashStep(s, Receive(data));
    }
  }

  /** Over every run: undefined behaviour is reached exactly when the read behind a wrapping domain length
      completed or the upstream answered with neither an error nor a transport. */
  lemma {:induction false} CrashedExactly(run: seq<Server>)
    requires IsRun(run)
    ensures run[|run| - 1].phase.Crashed? <==> ReadsWrapped(run) || run[|run| - 1].outcome == Some(Outcome(0, None))
  {
    hide Next, Ok, CompletesRead;
    if |run| > 1 {
      var n := |run| - 1;
      CrashedExactly(run[..n]);
      RunOk(run[..n]);
      assert Next(run[n - 1], run[n]);
      ReadsWrappedSnoc(run);
      CrashLast(run[n - 1], run[n]);
    }
  }

  /** A connection that comes to rest has closed its upstream transport, and its downstream transport
      except exactly when the request carried an unknown address type, the read behind a wrapping
      domain length completed, or the upstream answered with neither an error nor a transport. */
  lemma RestIsClosed(run: seq<Server>)
    requires IsRun(run) && AtRest(run[|run| - 1])
    ensures var s := run[|run| - 1];
      && !s.pair.up.open
      && (s.pair.down.open <==> UnknownKind(s.query) || ReadsWrapped(run) || s.outcome == Some(Outcome(0, None)))
  {
    hide ReadsWrapped, Next, UnknownKind, Ok;
    var s := run[|run| - 1];
    RunOk(run);
    CrashedExactly(run);
    OkParts(s);
    SilentIsUnknown(s);
    RestIsSettled(s);
    SettledIsClosed(s);
  }

  lemma OkParts(s: Server)
    requires Ok(s)
    ensures Parsed(s) && Ordered(s) && Scripted(s) && Wired(s) && Owned(s)
  {
  }

  lemma SettledIsClosed(s: Server)
    requires Ok(s) && Settled(s)
    ensures !s.pair.up.open && (s.pair.down.open <==> s.phase.Silent? || s.phase.Crashed?)
  {
    hide Reaches, Serialize, Stream, Scripted, Parsed, Wired, Enabled;
  }

  // ----- runs that do not end well -----

  lemma Extend(run: seq<Server>, e: Event) returns (longer: seq<Server>)
    requires IsRun(run) && Enabled(run[|run| - 1], e)
    ensures IsRun(longer) && longer == run + [Apply(run[|run| - 1], e)]
  {
    hide Enabled, Apply;
    longer := run + [Apply(run[|run| - 1], e)];
    assert Next(run[|run| - 1], longer[|run|]);
  }

  /** Any server comes to read a request. */
  lemma ReachRequest() returns (run: seq<Server>)
    ensures IsRun(run)
    ensures run[|run| - 1] == INIT.(phase := ReadRequest(Head(true)),
                                    offer := [5, 1, 0], hello := Some(Methods(5, [0])),
                                    said := [Select(VERSION, NO_AUTH)], sent := [5, 0])
  {
    hide IsRun;
    run := [INIT];
    assert IsRun(run) by { InitialRun(); }
    run := Extend(run, Accept);
    run := Extend(run, Receive([5, 1]));
    run := Extend(run, Receive([0]));
    run := Extend(run, PutSome(2));
    run := Extend(run, PutAll);
  }

  lemma InitialRun()
    ensures IsRun([INIT])
  {
  }

  /** Whatever the unknown address type, a connection can be brought to rest with its transport open. */
  lemma UnknownKindHangs(kind: byte) returns (run: seq<Server>)
    requires kind != IPV4 && kind != DOMAIN_NAME && kind != IPV6
    ensures IsRun(run) && AtRest(run[|run| - 1])
    ensures run[|run| - 1].query == [5, 1, 0, kind] && run[|run| - 1].pair.down.open
  {
    hide IsRun;
    run := ReachRequest();
    run := Extend(run, Receive([5, 1, 0]));
    run := Extend(run, Receive([kind]));
  }

  /** And either wrapping domain length can bring it to undefined behaviour. */
  lemma WrappingDomainCrashes(length: byte) returns (run: seq<Server>)
    requires length >= 254
    ensures IsRun(run) && run[|run| - 1].phase.Crashed? && [5, 1, 0, DOMAIN_NAME, length] <= run[|run| - 1].query
  {
    hide IsRun;
    run := ReachRequest();
    run := Extend(run, Receive([5, 1, 0]));
    run := Extend(run, Receive([DOMAIN_NAME]));
    run := Extend(run, Receive([length]));
    run := Extend(run, Receive(if length == 254 then [] else [0]));
  }
}
