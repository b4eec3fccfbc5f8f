/** One request of the SOCKS upstream factory, from connecting to the callback. The server at the
    other end is arbitrary. */
module Client {
  import opened Packets
  import opened Base

  datatype Phase =
    | Connecting
    | SendingHello
    | ReadSelection(reader: Reader)
    | SendingRequest
    | ReadResponse(reader: Reader)
    | Finished
    | Silent    // unknown address type in the reply: nothing pending, no callback
    | Crashed   // undefined behaviour

  /** What the request does to the outside world, in order. */
  datatype Action = Opened | Closed | Called(outcome: Outcome)

  /** `choice` and `answer` are the bytes consumed for the selection and for the response, `selection`
      and `response` what they parsed to; `said`, `sent` and `unsent` are as for the server. */
  datatype Client = Client(
    phase: Phase,
    endpoint: Address,
    choice: bytes,
    answer: bytes,
    selection: Option<Packet>,
    response: Option<Packet>,
    said: seq<Packet>,
    sent: bytes,
    unsent: bytes,
    log: seq<Action>)

  datatype Event =
    | Connect
    | ConnectFails(error: nat)
    | Receive(data: bytes)
    | ReceiveFails(error: nat)
    | PutSome(count: nat)
    | PutAll
    | PutFails(error: nat)

  const HELLO: Packet := Methods(VERSION, [NO_AUTH])

  function Init(endpoint: Address): Client {
    Client(Connecting, endpoint, [], [], None, None, [], [], [], [])
  }

  predicate Sending(c: Client) {
    c.phase.SendingHello? || c.phase.SendingRequest?
  }

  predicate Reading(c: Client) {
    c.phase.ReadSelection? || c.phase.ReadResponse?
  }

  predicate Enabled(c: Client, e: Event) {
    match e
    case Connect => c.phase.Connecting?
    case ConnectFails(error) => c.phase.Connecting? && error != 0
    case Receive(data) => Reading(c) && Waiting(c.phase.reader) && |data| == Need(c.phase.reader)
    case ReceiveFails(error) => Reading(c) && error != 0
    case PutSome(n) => Sending(c) && 1 <= n <= |c.unsent|
    case PutAll => Sending(c) && c.unsent == []
    case PutFails(error) => Sending(c) && error != 0
  }

  function Say(c: Client, phase: Phase, p: Packet): Client {
    c.(phase := phase, said := c.said + [p], unsent := Serialize(p))
  }

  /** Closes the transport and reports `error` with a null transport. */
  function GiveUp(c: Client, error: nat): Client {
    c.(phase := Finished, log := c.log + [Closed, Called(Outcome(error, None))])
  }

  function OnSelection(c: Client, r: Reader, data: bytes): Client {
    var d := c.(choice := c.choice + data);
    match r
    case Got(Select(v, choice)) =>
      if choice != NO_AUTH then GiveUp(d.(selection := Some(r.packet)), 0)  // the error code is clear
      else Say(d.(selection := Some(r.packet)), SendingRequest, Request(VERSION, CONNECT, c.endpoint))
    case _ => d.(phase := ReadSelection(r))
  }

  function OnResponse(c: Client, r: Reader, data: bytes): Client {
    var d := c.(answer := c.answer + data);
    match r
    case Silent => d.(phase := Phase.Silent)
    case Undefined => d.(phase := Crashed)
    case Got(Response(v, code, address)) =>
      if code != SUCCESS then GiveUp(d.(response := Some(r.packet)), code)
      else d.(response := Some(r.packet), phase := Finished, log := c.log + [Called(Outcome(0, Some(address)))])
    case _ => d.(phase := ReadResponse(r))
  }

  function Apply(c: Client, e: Event): Client
    requires Enabled(c, e)
  {
    match e
    case Connect => Say(c.(log := c.log + [Opened]), SendingHello, HELLO)
    case ConnectFails(error) => c.(phase := Finished, log := c.log + [Called(Outcome(error, None))])
    case Receive(data) =>
      var r := Feed(c.phase.reader, data);
      if c.phase.ReadSelection? then OnSelection(c, r, data) else OnResponse(c, r, data)
    case ReceiveFails(error) => GiveUp(c, error)
    case PutSome(n) => c.(sent := c.sent + c.unsent[..n], unsent := c.unsent[n..])
    case PutAll =>
      if c.phase.SendingHello? then c.(phase := ReadSelection(SelectBody)) else c.(phase := ReadResponse(Head(false)))
    case PutFails(error) => GiveUp(c, error)
  }

  // ----- what every step keeps -----

  predicate Accepted(c: Client) {
    c.selection.Some? && c.selection.value.Select? && c.selection.value.choice == NO_AUTH
  }

  predicate Granted(c: Client) {
    c.response.Some? && c.response.value.Response? && c.response.value.code == SUCCESS
  }

  predicate WasConnected(c: Client) {
    c.log != [] && c.log[0] == Opened
  }

  ghost predicate Parsed(c: Client) {
    && (c.selection.Some? ==> c.selection.value.Select? && Reaches(SelectBody, c.choice, Got(c.selection.value)))
    && (c.response.Some? ==> c.response.value.Response? && Reaches(Head(false), c.answer, Got(c.response.value)))
    && (c.phase.ReadSelection? ==>
          && Waiting(c.phase.reader) && Parses(c.phase.reader, SelectKind)
          && Reaches(SelectBody, c.choice, c.phase.reader))
    && (c.phase.ReadResponse? ==>
          && Waiting(c.phase.reader) && Parses(c.phase.reader, ResponseKind)
          && Reaches(Head(false), c.answer, c.phase.reader))
    && (c.phase.Silent? ==> Reaches(Head(false), c.answer, Reader.Silent))
    && (c.phase.Crashed? ==> Reaches(Head(false), c.answer, Undefined))
    && (c.phase.Finished? && c.response.None? ==> Unfinished(false, c.answer))
  }

  function Script(c: Client): seq<Packet> {
    if !WasConnected(c) then []
    else if !Accepted(c) then [HELLO]
    else [HELLO, Request(VERSION, CONNECT, c.endpoint)]
  }

  ghost predicate Ordered(c: Client) {
    && c.said == Script(c)
    && (!Sending(c) && !c.phase.Finished? ==> c.unsent == [])
    && (|c.said| == 1 && c.choice != [] ==> c.unsent == [])
    && (|c.said| == 2 && c.answer != [] ==> c.unsent == [])
    && (c.phase.Connecting? || !WasConnected(c) ==> c.selection.None? && c.choice == [])
    && (c.phase.SendingHello? || c.phase.ReadSelection? ==> c.selection.None?)
    && (c.phase.SendingHello? ==> c.choice == [])
    && (c.selection.None? ==> c.response.None? && c.answer == [] && !c.phase.SendingRequest? && !c.phase.ReadResponse?)
    && (c.phase.SendingRequest? || c.phase.ReadResponse? || c.phase.Silent? || c.phase.Crashed? ==>
          Accepted(c) && c.response.None?)
    && (c.phase.SendingRequest? ==> c.answer == [])
    && (c.response.Some? ==> c.response.value.Response? && Accepted(c) && c.phase.Finished?)
    && (c.selection.Some? && !Accepted(c) ==> c.phase.Finished?)
    && (c.answer != [] ==> Accepted(c))
  }

  /** The transport is closed before the callback unless it is handed over, and a null transport with
      a clear error code is reported exactly when the server chose another method. */
  ghost predicate Logged(c: Client) {
    match c.phase
    case Connecting => c.log == []
    case Finished =>
      || (exists error: nat :: error != 0 && c.log == [Called(Outcome(error, None))])
      || (c.response.Some? && Granted(c) && c.log == [Opened, Called(Outcome(0, Some(c.response.value.address)))])
      || (exists error: nat :: !Granted(c) && c.log == [Opened, Closed, Called(Outcome(error, None))]
            && (error == 0 <==> c.selection.Some? && !Accepted(c))
            && (c.response.Some? && c.response.value.Response? ==> error == c.response.value.code))
    case _ => c.log == [Opened]
  }

  ghost predicate Wired(c: Client) {
    OnWire(c.said, c.sent, c.unsent)
  }

  ghost predicate Ok(c: Client) {
    Parsed(c) && Ordered(c) && Logged(c) && Wired(c)
  }

  lemma InitOk(endpoint: Address)
    ensures Ok(Init(endpoint))
  {
  }

  lemma ReceiveParsed(c: Client, data: bytes)
    requires Parsed(c) && Ordered(c) && Enabled(c, Receive(data))
    ensures Parsed(Apply(c, Receive(data)))
  {
    hide Reaches, Serialize;
    NothingRead(Head(false));
    if c.phase.ReadSelection? {
      ReachesSnoc(SelectBody, c.choice, c.phase.reader, data);
      FeedParses(c.phase.reader, data, SelectKind);
    } else {
      ReachesSnoc(Head(false), c.answer, c.phase.reader, data);
      FeedParses(c.phase.reader, data, ResponseKind);
    }
  }

  lemma ParsedKept(c: Client, e: Event)
    requires Parsed(c) && Ordered(c) && Enabled(c, e)
    ensures Parsed(Apply(c, e))
  {
    hide Reaches, Serialize;
    NothingRead(SelectBody);
    NothingRead(Head(false));
    if e.Receive? {
      ReceiveParsed(c, e.data);
    }
  }

  lemma OnSelectionOrdered(c: Client, r: Reader, data: bytes)
    requires Ordered(c) && Logged(c) && c.phase.ReadSelection?
    ensures Ordered(OnSelection(c, r, data)) && Logged(OnSelection(c, r, data))
  {
    hide Serialize;
  }

  lemma OnResponseOrdered(c: Client, r: Reader, data: bytes)
    requires Ordered(c) && Logged(c) && c.phase.ReadResponse?
    ensures Ordered(OnResponse(c, r, data)) && Logged(OnResponse(c, r, data))
  {
    hide Serialize;
  }

  lemma OtherOrdered(c: Client, e: Event)
    requires Ordered(c) && Logged(c) && Enabled(c, e) && !e.Receive?
    ensures Ordered(Apply(c, e)) && Logged(Apply(c, e))
  {
    hide Serialize;
  }

  lemma OrderedKept(c: Client, e: Event)
    requires Ordered(c) && Logged(c) && Enabled(c, e)
    ensures Ordered(Apply(c, e)) && Logged(Apply(c, e))
  {
    hide Ordered, Logged, OnSelection, OnResponse, Feed;
    if e.Receive? {
      var r := Feed(c.phase.reader, e.data);
      if c.phase.ReadSelection? {
        OnSelectionOrdered(c, r, e.data);
      } else {
        OnResponseOrdered(c, r, e.data);
      }
    } else {
      OtherOrdered(c, e);
    }
  }

  lemma WiredKept(c: Client, e: Event)
    requires Ordered(c) && Wired(c) && Enabled(c, e)
    ensures Wired(Apply(c, e))
  {
    hide Serialize, Feed, OnWire, Script;
    if e.PutSome? {
      PutOnWire(c.said, c.sent, c.unsent, e.count);
    } else {
      var d := Apply(c, e);
      if d.said != c.said {
        SayOnWire(c.said, c.sent, d.said[|c.said|]);
      }
    }
  }

  lemma ApplyOk(c: Client, e: Event)
    requires Ok(c) && Enabled(c, e)
    ensures Ok(Apply(c, e))
  {
    hide Parsed, Ordered, Logged, Wired;
    ParsedKept(c, e);
    OrderedKept(c, e);
    WiredKept(c, e);
  }

  // ----- every run -----

  ghost predicate Next(c: Client, d: Client) {
    exists e :: Enabled(c, e) && d == Apply(c, e)
  }

  ghost predicate IsRun(run: seq<Client>, endpoint: Address) {
    run != [] && run[0] == Init(endpoint) && forall i :: 0 < i < |run| ==> Next(run[i - 1], run[i])
  }

  lemma {:induction false} RunOk(run: seq<Client>, endpoint: Address)
    requires IsRun(run, endpoint)
    ensures Ok(run[|run| - 1]) && run[|run| - 1].endpoint == endpoint
  {
    hide Ok, Enabled;
    if |run| == 1 {
      InitOk(endpoint);
    } else {
      RunOk(run[..|run| - 1], endpoint);
      var c, d := run[|run| - 2], run[|run| - 1];
      assert Next(c, d);
      var e :| Enabled(c, e) && d == Apply(c, e);
      ApplyOk(c, e);
    }
  }

  ghost predicate AtRest(c: Client) {
    forall e :: !Enabled(c, e)
  }

  lemma RestIsSettled(c: Client)
    requires AtRest(c)
    ensures c.phase.Finished? || c.phase.Silent? || c.phase.Crashed?
  {
    assert !Enabled(c, Connect) && !Enabled(c, ReceiveFails(1)) && !Enabled(c, PutFails(1));
  }

  /** How often the callback was invoked. */
  function Calls(log: seq<Action>): nat {
    if log == [] then 0 else Calls(log[1..]) + (if log[0].Called? then 1 else 0)
  }

  lemma CallsOf(a: Action, b: Action, d: Action)
    ensures Calls([a]) == if a.Called? then 1 else 0
    ensures Calls([a, b]) == Calls([a]) + Calls([b])
    ensures Calls([a, b, d]) == Calls([a]) + Calls([b]) + Calls([d])
  {
    assert [a, b][1..] == [b] && [a, b, d][1..] == [b, d];
  }

  // ----- where no callback comes -----

  ghost predicate CompletesRead(c: Client, d: Client) {
    exists data :: Enabled(c, Receive(data)) && d == Apply(c, Receive(data))
  }

  /** The zero- or one-byte read behind a wrapping domain length completed. */
  ghost predicate ReadsWrapped(run: seq<Client>) {
    exists i :: 0 < i < |run| && run[i - 1].phase.ReadResponse? && WrappingDomain(run[i - 1].answer)
      && CompletesRead(run[i - 1], run[i])
  }

  lemma AnswerLeads(c: Client) returns (r: Reader)
    requires Parsed(c) && Ordered(c)
    ensures Reaches(Head(false), c.answer, r) && (r.Silent? ==> c.phase.Silent?)
  {
    hide Reaches;
    if c.response.Some? {
      r := Got(c.response.value);
    } else if c.phase.Silent? {
      r := Reader.Silent;
    } else if c.phase.Crashed? {
      r := Undefined;
    } else if c.phase.ReadResponse? {
      r := c.phase.reader;
    } else if c.phase.Finished? {
      r :| Waiting(r) && Reaches(Head(false), c.answer, r);
    } else {
      r := Head(false);
      NothingRead(r);
    }
  }

  /** An unknown address type is consumed exactly in the state that waits for nothing. */
  lemma SilentIsUnknown(c: Client)
    requires Parsed(c) && Ordered(c)
    ensures c.phase.Silent? <==> UnknownKind(c.answer)
  {
    hide Reaches, Parsed, Ordered;
    if UnknownKind(c.answer) {
      var r := AnswerLeads(c);
      UnknownEnds(false, c.answer, r);
    } else if c.phase.Silent? {
      SilentReached(c);
      SilentExactly(false, c.answer);
    }
  }

  lemma SilentReached(c: Client)
    requires Parsed(c) && c.phase.Silent?
    ensures Reaches(Head(false), c.answer, Reader.Silent)
  {
    hide Reaches;
  }

  lemma CrashStep(c: Client, e: Event)
    requires Parsed(c) && Enabled(c, e)
    ensures !c.phase.Crashed?
    ensures Apply(c, e).phase.Crashed? <==> e.Receive? && c.phase.ReadResponse? && WrappingDomain(c.answer)
  {
    hide Reaches, Serialize, Feed;
    if e.Receive? && c.phase.ReadResponse? {
      UndefinedRead(false, c.answer, c.phase.reader, e.data);
    }
  }

  lemma CrashLast(c: Client, d: Client)
    requires Parsed(c) && Next(c, d)
    ensures !c.phase.Crashed?
    ensures d.phase.Crashed? <==> c.phase.ReadResponse? && WrappingDomain(c.answer) && CompletesRead(c, d)
  {
    hide Enabled, Apply, Parsed, WrappingDomain;
    var e :| Enabled(c, e) && d == Apply(c, e);
    CrashStep(c, e);
    if CompletesRead(c, d) {
      var data :| Enabled(c, Receive(data)) && d == Apply(c, Receive(data));
      CrashStep(c, Receive(data));
    }
  }

  lemma ReadsWrappedSnoc(run: seq<Client>)
    requires |run| >= 2
    ensures var n := |run| - 1;
      ReadsWrapped(run) <==>
        || ReadsWrapped(run[..n])
        || (run[n - 1].phase.ReadResponse? && WrappingDomain(run[n - 1].answer) && CompletesRead(run[n - 1], run[n]))
  {
    hide CompletesRead, WrappingDomain;
    var n := |run| - 1;
    var shorter := run[..n];
    if ReadsWrapped(shorter) {
      var i :| 0 < i < |shorter| && shorter[i - 1].phase.ReadResponse? && WrappingDomain(shorter[i - 1].answer)
        && CompletesRead(shorter[i - 1], shorter[i]);
      assert run[i - 1] == shorter[i - 1] && run[i] == shorter[i];
    }
    if ReadsWrapped(run) {
      var i :| 0 < i < |run| && run[i - 1].phase.ReadResponse? && WrappingDomain(run[i - 1].answer)
        && CompletesRead(run[i - 1], run[i]);
      if i < n {
        assert shorter[i - 1] == run[i - 1] && shorter[i] == run[i];
      }
    }
  }

  /** Over every run: undefined behaviour is reached exactly when the read behind a wrapping domain length
      completed. */
  lemma {:induction false} CrashedExactly(run: seq<Client>, endpoint: Address)
    requires IsRun(run, endpoint)
    ensures run[|run| - 1].phase.Crashed? <==> ReadsWrapped(run)
  {
    hide Next, Parsed, Ordered, Logged, Wired, CompletesRead;
    if |run| > 1 {
      var n := |run| - 1;
      CrashedExactly(run[..n], endpoint);
      RunOk(run[..n], endpoint);
      assert Next(run[n - 1], run[n]);
      ReadsWrappedSnoc(run);
      CrashLast(run[n - 1], run[n]);
    }
  }

  // ----- how a request ends -----

  lemma CallsWhenFinished(c: Client)
    requires Ordered(c) && Logged(c)
    ensures Calls(c.log) == if c.phase.Finished? then 1 else 0
    ensures Granted(c) && c.phase.Finished? ==>
              c.response.Some? && c.log == [Opened, Called(Outcome(0, Some(c.response.value.address)))]
    ensures c.phase.Finished? && !Granted(c) && Opened in c.log ==>
              |c.log| == 3 && c.log[1] == Closed && c.log[2].Called?
    ensures c.phase.Finished? && !Granted(c) ==>
              c.log[|c.log| - 1].Called? && c.log[|c.log| - 1].outcome.transport.None?
  {
    if c.phase.Finished? {
      CallsOf(c.log[0], c.log[|c.log| / 2], c.log[|c.log| - 1]);
    }
    CallsOf(Opened, Opened, Opened);
  }

  lemma FinishedCalls(c: Client)
    requires Ok(c)
    ensures Calls(c.log) == if c.phase.Finished? then 1 else 0
  {
    hide Parsed, Ordered, Logged, Wired;
    CallsWhenFinished(c);
  }

  /** The callback runs at most once. A request that comes to rest has not run it exactly when the reply
      carried an unknown address type or the read behind a wrapping domain length completed. A
      transport is handed over exactly when the server accepted the method and granted the request,
      both requests having been written in full; a handed transport was never closed, and any other
      transport that was connected was closed before the callback. */
  lemma RequestEndsOnce(run: seq<Client>, endpoint: Address)
    requires IsRun(run, endpoint)
    ensures var c := run[|run| - 1];
      && Calls(c.log) <= 1
      && (AtRest(c) ==> (Calls(c.log) == 0 <==> UnknownKind(c.answer) || ReadsWrapped(run)))
      && (Granted(c) <==> exists a :: Called(Outcome(0, Some(a))) in c.log)
      && (Granted(c) ==>
            && Accepted(c)
            && c.sent == [5, 1, 0] + ([5, 1, 0] + AddressBytes(endpoint))
            && c.log == [Opened, Called(Outcome(0, Some(c.response.value.address)))])
      && (Calls(c.log) == 1 && !Granted(c) && Opened in c.log ==>
            |c.log| == 3 && c.log[1] == Closed && c.log[2].Called?)
  {
    hide Reaches, Serialize, Stream, ReadsWrapped, UnknownKind, Next, Wired, Parsed, Enabled;
    var c := run[|run| - 1];
    RunOk(run, endpoint);
    CrashedExactly(run, endpoint);
    SilentIsUnknown(c);
    CallsWhenFinished(c);
    if AtRest(c) {
      RestIsSettled(c);
    }
    if Granted(c) {
      GrantedSent(c);
      assert Called(Outcome(0, Some(c.response.value.address))) in c.log;
    }
  }

  // ----- in bytes -----

  /** What the bytes read say of the method chosen and of the response. */
  lemma ReadsInBytes(c: Client)
    requires Parsed(c)
    ensures c.selection.Some? ==> |c.choice| == 2 && (Accepted(c) <==> c.choice[1] == 0)
    ensures c.response.Some? ==>
              |c.answer| >= 2 && c.response.value.code == c.answer[1] && (Granted(c) <==> c.answer[1] == 0)
  {
    hide Reaches, Serialize;
    if c.selection.Some? {
      AcceptedBytes(SelectBody, c.choice, c.selection.value);
    }
    if c.response.Some? {
      AcceptedBytes(Head(false), c.answer, c.response.value);
    }
  }

  /** Over every run, in bytes: a connected request writes `5 1 0`, an offer of no authentication alone, and
      then, exactly if the method chosen is 0, `5 1 0` and the endpoint, a CONNECT. */
  lemma WritesInBytes(run: seq<Client>, endpoint: Address)
    requires IsRun(run, endpoint)
    ensures var c := run[|run| - 1];
      && (c.selection.Some? ==> |c.choice| == 2)
      && c.sent + c.unsent ==
           if Opened !in c.log then []
           else if c.selection.None? || c.choice[1] != 0 then [5, 1, 0]
           else [5, 1, 0] + ([5, 1, 0] + AddressBytes(endpoint))
  {
    hide Next, Reaches, Serialize, Stream, Enabled, Apply;
    var c := run[|run| - 1];
    RunOk(run, endpoint);
    ReadsInBytes(c);
    WrittenOut(c);
  }

  lemma WrittenOut(c: Client)
    requires Parsed(c) && Ordered(c) && Logged(c) && Wired(c)
    ensures c.sent + c.unsent ==
      if Opened !in c.log then []
      else if !Accepted(c) then [5, 1, 0]
      else [5, 1, 0] + ([5, 1, 0] + AddressBytes(c.endpoint))
  {
    hide Reaches, Serialize, Parsed;
    FixedPackets();
    MessageBytes(c.endpoint);
    hide Stream;
    TwoPackets(HELLO, Request(VERSION, CONNECT, c.endpoint));
    NothingSaid();
  }

  /** A null transport without an error is reported exactly when the server chose a method that is not among
      those written to it. */
  lemma NullReportedExactly(run: seq<Client>, endpoint: Address)
    requires IsRun(run, endpoint)
    ensures var c := run[|run| - 1];
      && (c.selection.Some? ==> |c.choice| == 2 && [5, 1, 0] <= c.sent)
      && (Called(Outcome(0, None)) in c.log <==> c.selection.Some? && c.choice[1] !in c.sent[2..3])
  {
    hide Next, Reaches, Serialize, Stream, Enabled, Apply;
    var c := run[|run| - 1];
    RunOk(run, endpoint);
    ReadsInBytes(c);
    NullIsRejected(c);
    if c.selection.Some? {
      HelloIsSent(c);
      assert c.sent[2..3] == [5, 1, 0][2..3] == [0];
    }
  }

  lemma NullIsRejected(c: Client)
    requires Ordered(c) && Logged(c)
    ensures Called(Outcome(0, None)) in c.log <==> c.selection.Some? && !Accepted(c)
  {
    hide Serialize;
  }

  lemma HelloIsSent(c: Client)
    requires Parsed(c) && Ordered(c) && Logged(c) && Wired(c) && c.selection.Some?
    ensures [5, 1, 0] <= c.sent
  {
    hide Reaches, Serialize, Stream;
    var p, q := HELLO, Request(VERSION, CONNECT, c.endpoint);
    FixedPackets();
    TwoPackets(p, q);
    ReadsInBytes(c);
    if Accepted(c) {
      assert c.said == [p, q];
      FirstIsSent(Serialize(p), Serialize(q), c.sent, c.unsent);
    } else {
      assert c.said == [p] && c.unsent == [];
      assert c.sent + [] == c.sent;
    }
  }

  // ----- what was reported -----

  /** A run together with its completions. */
  ghost predicate IsTrace(run: seq<Client>, events: seq<Event>, endpoint: Address) {
    && |run| == |events| + 1 && run[0] == Init(endpoint)
    && forall i :: 0 <= i < |events| ==> Enabled(run[i], events[i]) && run[i + 1] == Apply(run[i], events[i])
  }

  lemma ExtendTrace(run: seq<Client>, events: seq<Event>, endpoint: Address, e: Event)
    requires IsTrace(run, events, endpoint) && Enabled(run[|events|], e)
    ensures IsTrace(run + [Apply(run[|events|], e)], events + [e], endpoint)
  {
    hide Enabled, Apply;
  }

  lemma TraceIsRun(run: seq<Client>, events: seq<Event>, endpoint: Address)
    requires IsTrace(run, events, endpoint)
    ensures IsRun(run, endpoint)
  {
    hide Enabled, Apply;
    forall i | 0 < i < |run|
      ensures Next(run[i - 1], run[i])
    {
      assert Enabled(run[i - 1], events[i - 1]) && run[i - 1 + 1] == Apply(run[i - 1], events[i - 1]);
    }
  }

  predicate Fails(e: Event) {
    e.ConnectFails? || e.ReceiveFails? || e.PutFails?
  }

  /** The whole log of a request that ended with `e`. */
  function FinalLog(c: Client, e: Event): seq<Action>
    requires c.answer != [] && !Fails(e) ==> |c.answer| >= 2 && c.response.Some? && c.response.value.Response?
  {
    match e
    case ConnectFails(error) => [Called(Outcome(error, None))]
    case ReceiveFails(error) => [Opened, Closed, Called(Outcome(error, None))]
    case PutFails(error) => [Opened, Closed, Called(Outcome(error, None))]
    case _ =>
      if c.answer == [] then [Opened, Closed, Called(Outcome(0, None))]
      else if c.answer[1] == 0 then [Opened, Called(Outcome(0, Some(c.response.value.address)))]
      else [Opened, Closed, Called(Outcome(c.answer[1], None))]
  }

  lemma LogBefore(c: Client, e: Event)
    requires Logged(c) && Ordered(c) && Enabled(c, e)
    ensures !c.phase.Finished? && c.log == (if c.phase.Connecting? then [] else [Opened])
    ensures c.phase.ReadSelection? ==> c.answer == []
  {
    hide Serialize;
  }

  lemma FinishesByReading(c: Client, e: Event)
    requires Logged(c) && Ordered(c) && Enabled(c, e) && Apply(c, e).phase.Finished? && !Fails(e)
    ensures var d := Apply(c, e);
      && e.Receive? && (d.answer == [] <==> d.response.None?)
      && (d.response.Some? ==> d.response.value.Response?)
      && d.log == [Opened] +
           if d.response.None? then [Closed, Called(Outcome(0, None))]
           else if d.response.value.code == 0 then [Called(Outcome(0, Some(d.response.value.address)))]
           else [Closed, Called(Outcome(d.response.value.code, None))]
  {
    hide Serialize;
    LogBefore(c, e);
  }

  lemma FinishesByFailing(c: Client, e: Event)
    requires Logged(c) && Ordered(c) && Enabled(c, e) && Fails(e)
    ensures Apply(c, e).phase.Finished? && Apply(c, e).log == FinalLog(Apply(c, e), e)
  {
    hide Serialize, Feed;
    LogBefore(c, e);
  }

  /** Over every run: a failed connect, read or write ends the request, and the one call in the log hands on
      exactly its error, after the transport was closed if there was one. A request that ends by reading
      reports no error and no transport if no response was read, the response's address if its second
      byte is 0, and that byte as the error otherwise. */
  lemma ReportsExactly(run: seq<Client>, events: seq<Event>, endpoint: Address)
    requires IsTrace(run, events, endpoint) && events != []
    ensures var c, e := run[|events|], events[|events| - 1];
      && (Fails(e) ==> c.phase.Finished?)
      && (c.phase.Finished? ==>
            && (Fails(e) || e.Receive?)
            && (c.answer != [] && !Fails(e) ==> |c.answer| >= 2 && c.response.Some? && c.response.value.Response?)
            && c.log == FinalLog(c, e))
  {
    hide Apply, Enabled, Reaches, Serialize, Stream, Ordered, Logged, Wired;
    var n := |events| - 1;
    var c, d, e := run[n], run[n + 1], events[n];
    assert Enabled(run[n], events[n]) && run[n + 1] == Apply(run[n], events[n]);
    TraceIsRun(run, events, endpoint);
    RunOk(run, endpoint);
    RunOk(run[..n + 1], endpoint);
    ReadsInBytes(d);
    if Fails(e) {
      FinishesByFailing(c, e);
    } else if d.phase.Finished? {
      FinishesByReading(c, e);
    }
  }

  /** And nothing follows a failure. */
  lemma FailureIsLast(run: seq<Client>, events: seq<Event>, endpoint: Address, i: nat)
    requires IsTrace(run, events, endpoint) && i < |events| && Fails(events[i])
    ensures i == |events| - 1
  {
    hide Enabled, Apply;
    var next := if i + 1 < |events| then events[i + 1] else Connect;
    NothingAfterFailure(run[i], events[i], next);
  }

  lemma NothingAfterFailure(c: Client, e: Event, next: Event)
    requires Enabled(c, e) && Fails(e)
    ensures !Enabled(Apply(c, e), next)
  {
    hide Serialize, Feed;
  }

  lemma GrantedSent(c: Client)
    requires Parsed(c) && Ordered(c) && Logged(c) && Wired(c) && c.response.Some?
    ensures c.sent == Serialize(HELLO) + Serialize(Request(VERSION, CONNECT, c.endpoint))
    ensures c.sent == [5, 1, 0] + ([5, 1, 0] + AddressBytes(c.endpoint))
  {
    hide Reaches, Serialize, Stream;
    if c.answer == [] {
      assert false by {
        AcceptedReserializes(Head(false), c.answer, c.response.value);
      }
    }
    TwoPackets(HELLO, Request(VERSION, CONNECT, c.endpoint));
    FixedPackets();
    MessageBytes(c.endpoint);
    assert c.sent + [] == c.sent;
  }

  // ----- runs that do not end well -----

  lemma Extend(run: seq<Client>, endpoint: Address, e: Event) returns (longer: seq<Client>)
    requires IsRun(run, endpoint) && Enabled(run[|run| - 1], e)
    ensures IsRun(longer, endpoint) && longer == run + [Apply(run[|run| - 1], e)]
  {
    hide Enabled, Apply;
    longer := run + [Apply(run[|run| - 1], e)];
    assert Next(run[|run| - 1], longer[|run|]);
  }

  lemma InitialRun(endpoint: Address)
    ensures IsRun([Init(endpoint)], endpoint)
  {
  }

  /** Any request comes to read a response. */
  lemma ReachResponse(endpoint: Address) returns (run: seq<Client>)
    ensures IsRun(run, endpoint)
    ensures run[|run| - 1].phase == ReadResponse(Head(false))
    ensures run[|run| - 1].answer == [] && run[|run| - 1].log == [Opened]
  {
    hide IsRun;
    run := [Init(endpoint)];
    InitialRun(endpoint);
    run := Extend(run, endpoint, Connect);
    run := Extend(run, endpoint, PutSome(3));
    run := Extend(run, endpoint, PutAll);
    run := Extend(run, endpoint, Receive([5, 0]));
    run := Extend(run, endpoint, PutSome(|run[|run| - 1].unsent|));
    run := Extend(run, endpoint, PutAll);
  }

  /** Whatever the unknown address type of the reply, a request can come to rest without a callback and
      with its transport open. */
  lemma UnknownKindHangs(endpoint: Address, kind: byte) returns (run: seq<Client>)
    requires kind != IPV4 && kind != DOMAIN_NAME && kind != IPV6
    ensures IsRun(run, endpoint) && AtRest(run[|run| - 1])
    ensures run[|run| - 1].answer == [5, 0, 0, kind] && run[|run| - 1].log == [Opened]
  {
    hide IsRun;
    run := ReachResponse(endpoint);
    run := Extend(run, endpoint, Receive([5, 0, 0]));
    run := Extend(run, endpoint, Receive([kind]));
  }

  lemma ReachLength(endpoint: Address) returns (run: seq<Client>)
    ensures IsRun(run, endpoint)
    ensures run[|run| - 1].phase == ReadResponse(DomainLength(Header(false, 5, 0)))
    ensures run[|run| - 1].answer == [5, 0, 0, DOMAIN_NAME]
  {
    hide IsRun, Serialize;
    run := ReachResponse(endpoint);
    run := Extend(run, endpoint, Receive([5, 0, 0]));
    run := Extend(run, endpoint, Receive([DOMAIN_NAME]));
  }

  /** And either wrapping domain length of the reply can bring it to undefined behaviour. */
  lemma WrappingDomainCrashes(endpoint: Address, length: byte) returns (run: seq<Client>)
    requires length >= 254
    ensures IsRun(run, endpoint) && run[|run| - 1].phase.Crashed?
    ensures [5, 0, 0, DOMAIN_NAME, length] <= run[|run| - 1].answer
  {
    hide IsRun, Serialize;
    run := ReachLength(endpoint);
    run := Extend(run, endpoint, Receive([length]));
    run := Extend(run, endpoint, Receive(if length == 254 then [] else [0]));
  }
}
