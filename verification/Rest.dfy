/** The states of a chain in which no handshake step is left that needs no transport error. */
module Rest {
  import opened Packets
  import opened Base
  import Server
  import Client
  import Direct
  import opened Chain
  import opened Links
  import opened EndToEnd
  import opened Completion

  /** A handshake step of some hop that is not a transport error. */
  predicate Handshake(m: Move) {
    Clean(m) && (m.Conclude? || m.Ask? || (m.Serve? && !m.event.Relayed?))
  }

  ghost predicate AtRest(c: Chain) {
    forall d, m :: Handshake(m) ==> !Step(c, d, m)
  }

  predicate ServerReading(s: Server.Server) {
    (s.phase.ReadMethods? || s.phase.ReadRequest?) && Waiting(s.phase.reader)
  }

  predicate ClientReading(x: Client.Client) {
    Client.Reading(x) && Waiting(x.phase.reader)
  }

  // ----- what is enabled -----

  lemma ServerCanTake(c: Chain, i: nat)
    requires i < |c.hops| && LinkOk(c, i) && ServerReading(c.hops[i].server)
    requires |DownGot(c.hops[i].server)| + Need(c.hops[i].server.phase.reader) <= |Toward(c, i)|
    ensures !AtRest(c)
  {
    hide DownGot, UpGot, Toward, Back, Server.Apply;
    var s := c.hops[i].server;
    var n := |DownGot(s)|;
    var e := Server.Receive(Toward(c, i)[n..n + Need(s.phase.reader)]);
    assert DownGot(s) + e.data == Toward(c, i)[..n + Need(s.phase.reader)];
    assert UpGot(c.hops[i]) + [] == UpGot(c.hops[i]);
    var d := c.(hops := c.hops[i := AfterServer(c.hops[i], Server.Apply(s, e), i == |c.hops| - 1)]);
    assert Step(c, d, Serve(i, e));
  }

  lemma ServerCanPut(c: Chain, i: nat)
    requires i < |c.hops| && LinkOk(c, i) && c.hops[i].server.phase.Sending?
    ensures !AtRest(c)
  {
    hide DownGot, UpGot, Toward, Back, Server.Apply;
    var s := c.hops[i].server;
    var e := if s.unsent == [] then Server.PutAll else Server.PutSome(|s.unsent|);
    assert DownGot(s) + [] == DownGot(s) && UpGot(c.hops[i]) + [] == UpGot(c.hops[i]);
    var d := c.(hops := c.hops[i := AfterServer(c.hops[i], Server.Apply(s, e), i == |c.hops| - 1)]);
    assert Step(c, d, Serve(i, e));
  }

  lemma ClientCanTake(c: Chain, i: nat)
    requires i + 1 < |c.hops| && LinkOk(c, i) && c.hops[i].upstream.Socks? && ClientReading(c.hops[i].upstream.client)
    requires |UpGot(c.hops[i])| + Need(c.hops[i].upstream.client.phase.reader) <= |Back(c, i)|
    ensures !AtRest(c)
  {
    hide DownGot, UpGot, Toward, Back, Client.Apply;
    var x := c.hops[i].upstream.client;
    var n := |UpGot(c.hops[i])|;
    var e := Client.Receive(Back(c, i)[n..n + Need(x.phase.reader)]);
    assert UpGot(c.hops[i]) + e.data == Back(c, i)[..n + Need(x.phase.reader)];
    var d := c.(hops := c.hops[i := AfterClient(c.hops[i], Client.Apply(x, e))]);
    assert Step(c, d, Ask(i, e));
  }

  lemma ClientCanPut(c: Chain, i: nat)
    requires i + 1 < |c.hops| && LinkOk(c, i) && c.hops[i].upstream.Socks? && Client.Sending(c.hops[i].upstream.client)
    ensures !AtRest(c)
  {
    hide DownGot, UpGot, Toward, Back, Client.Apply;
    var x := c.hops[i].upstream.client;
    var e := if x.unsent == [] then Client.PutAll else Client.PutSome(|x.unsent|);
    assert UpGot(c.hops[i]) + [] == UpGot(c.hops[i]);
    var d := c.(hops := c.hops[i := AfterClient(c.hops[i], Client.Apply(x, e))]);
    assert Step(c, d, Ask(i, e));
  }

  lemma ClientCanConnect(c: Chain, i: nat)
    requires i + 1 < |c.hops| && c.hops[i].upstream.Socks? && c.hops[i].upstream.client.phase.Connecting?
    requires c.hops[i + 1].server.phase.Idle?
    ensures !AtRest(c)
  {
    hide DownGot, UpGot, Toward, Back, Client.Apply, Server.Apply;
    var x := c.hops[i].upstream.client;
    var d := c.(hops := c.hops
         [i := AfterClient(c.hops[i], Client.Apply(x, Client.Connect))]
         [i + 1 := c.hops[i + 1].(server := Server.Apply(c.hops[i + 1].server, Server.Accept))]);
    assert Step(c, d, Ask(i, Client.Connect));
  }

  lemma DirectCanConclude(c: Chain)
    requires c.hops != []
    requires var h := c.hops[|c.hops| - 1];
      && h.upstream.Direct? && h.upstream.answer.None? && h.server.phase.AwaitUpstream?
      && Direct.KnownKind(h.upstream.target)
    ensures !AtRest(c)
  {
    hide Server.Apply;
    var i := |c.hops| - 1;
    var h, o := c.hops[i], Outcome(1, None);
    var d := c.(hops := c.hops[i := Hop(Server.Apply(h.server, Server.Answer(o)), h.upstream.(answer := Some(o)))]);
    assert Step(c, d, Conclude(o));
  }

  // ----- what is left when nothing is enabled -----

  lemma ClientFacts(x: Client.Client)
    requires Client.Ok(x) && CleanClient(x)
    ensures !Client.WasConnected(x) <==> x.phase.Connecting?
    ensures Client.Reading(x) ==> Waiting(x.phase.reader)
    ensures !Client.Sending(x) ==> x.unsent == [] && x.sent == Stream(x.said)
    ensures Client.WasConnected(x) ==> x.said != []
    ensures |x.said| == 2 <==> Client.Accepted(x)
    ensures x.phase.ReadSelection? ==> Reaches(SelectBody, x.choice, x.phase.reader) && x.answer == []
    ensures x.phase.ReadResponse? ==> Reaches(Head(false), x.answer, x.phase.reader) && Client.Accepted(x)
    ensures x.phase.Finished? && Client.Accepted(x) ==> x.response.Some?
    ensures x.phase.Finished? ==> x.selection.Some?
    ensures x.selection.Some? ==> Reaches(SelectBody, x.choice, Got(x.selection.value))
  {
    hide Reaches, Serialize, Stream;
    assert x.unsent == [] ==> x.sent + [] == x.sent;
  }

  /** At rest a client either waits for the next server or is done, and all it said is sent. */
  lemma RestingClient(c: Chain, i: nat)
    requires CleanChain(c) && AtRest(c) && i + 1 < |c.hops| && c.hops[i].upstream.Socks?
    ensures var x := c.hops[i].upstream.client;
      && (ClientReading(x) || x.phase.Finished?)
      && x.sent == Stream(x.said) && x.said != []
      && UpPut(c.hops[i]) == Stream(x.said) + c.hops[i].server.pair.up.put
      && !c.hops[i + 1].server.phase.Idle?
  {
    hide Reaches, Serialize, Stream, HopOk, LinkOk, AtRest, DownGot, DownPut, UpGot, Client.Ok, CleanServer,
      CleanClient;
    var x := c.hops[i].upstream.client;
    HopIsOk(c, i);
    ServerIsOk(c.hops[i], false);
    assert CleanHop(c.hops[i]);
    ClientFacts(x);
    ClientNeverRejected(c, i);
    if Client.Sending(x) {
      ClientCanPut(c, i);
    } else if !Client.WasConnected(x) {
      assert !Reached(c.hops[i]);
      ClientCanConnect(c, i);
    } else {
      assert Reached(c.hops[i]);
    }
  }

  lemma ServerFacts(s: Server.Server)
    requires Server.Ok(s)
    ensures s.phase.ReadMethods? ==>
            Waiting(s.phase.reader) && Reaches(MethodsHead, s.offer, s.phase.reader) && DownGot(s) == s.offer
    ensures s.phase.ReadRequest? ==>
            && Waiting(s.phase.reader) && Reaches(Head(true), s.query, s.phase.reader)
            && s.hello.Some? && DownGot(s) == s.offer + s.query && |s.said| == 1
    ensures s.unsent == [] ==> DownPut(s) == Stream(s.said) + s.pair.down.put
    ensures !s.phase.Sending? && !s.phase.Closed? ==> s.unsent == []
  {
    hide Reaches, Serialize, Stream;
    if s.unsent == [] {
      assert s.sent + [] == s.sent;
    }
    if s.phase.ReadMethods? {
      assert s.offer + [] + [] == s.offer;
    } else if s.phase.ReadRequest? {
      assert s.offer + s.query + [] == s.offer + s.query;
    }
  }

  /** At rest no server behind the first hop is still reading its method list ... */
  lemma NoMethodsPending(c: Chain, i: nat)
    requires CleanChain(c) && AtRest(c) && 0 < i < |c.hops|
    ensures !c.hops[i].server.phase.ReadMethods?
  {
    hide Reaches, Serialize, Stream, HopOk, AtRest, Feeds, DownGot, DownPut, UpGot, UpPut, Server.Ok;
    var h, s := c.hops[i - 1], c.hops[i].server;
    if s.phase.ReadMethods? {
      NeighboursAgree(c, i);
      RestingClient(c, i - 1);
      HopIsOk(c, i);
      ServerIsOk(c.hops[i], i == |c.hops| - 1);
      ServerFacts(s);
      UpFeeds(h);
      FirstFits(h.upstream.client.said, MethodsHead, Head(true), h.server.pair.up.put, s.offer, s.phase.reader);
      ServerCanTake(c, i);
    }
  }

  /** ... or its request: either the request is there to be read, or the selection is there for the
      client that has yet to send it. */
  lemma NoRequestPending(c: Chain, i: nat)
    requires CleanChain(c) && AtRest(c) && 0 < i < |c.hops|
    ensures !c.hops[i].server.phase.ReadRequest?
  {
    hide Reaches, Serialize, Stream, HopOk, AtRest, Feeds, DownGot, DownPut, UpGot, UpPut, Server.Ok,
      Client.Ok, CleanServer, CleanClient;
    var h, s := c.hops[i - 1], c.hops[i].server;
    if s.phase.ReadRequest? {
      var x := h.upstream.client;
      NeighboursAgree(c, i);
      RestingClient(c, i - 1);
      HopIsOk(c, i - 1);
      HopIsOk(c, i);
      ServerIsOk(h, false);
      ServerIsOk(c.hops[i], i == |c.hops| - 1);
      assert CleanHop(h);
      ClientFacts(x);
      ServerFacts(s);
      SaysHelloAndRequest(h);
      if Client.Accepted(x) {
        UpFeeds(h);
        SecondFits(x.said, MethodsHead, Head(true), h.server.pair.up.put, s.query, s.phase.reader);
        ServerCanTake(c, i);
      } else {
        SelectionCanBeRead(c, i);
      }
    }
  }

  lemma SelectionCanBeRead(c: Chain, i: nat)
    requires CleanChain(c) && 0 < i < |c.hops| && c.hops[i - 1].upstream.Socks?
    requires var x, s := c.hops[i - 1].upstream.client, c.hops[i].server;
      && !s.phase.Idle? && s.unsent == [] && s.said != []
      && x.phase.ReadSelection?
    ensures !AtRest(c)
  {
    hide Reaches, Serialize, Stream, HopOk, AtRest, Feeds, DownPut, Server.Ok, Client.Ok, CleanServer,
      CleanClient, HeardUp, HeardDown;
    var h, x, s := c.hops[i - 1], c.hops[i - 1].upstream.client, c.hops[i].server;
    HopIsOk(c, i - 1);
    HopIsOk(c, i);
    ServerIsOk(h, false);
    ServerIsOk(c.hops[i], i == |c.hops| - 1);
    assert CleanHop(h);
    ClientFacts(x);
    ServerFacts(s);
    DownFeeds(c.hops[i], i == |c.hops| - 1);
    ClientAtWork(h);
    assert x.choice + [] + [] == x.choice;
    FirstFits(s.said, SelectBody, Head(false), s.pair.down.put, x.choice, x.phase.reader);
    ClientCanTake(c, i - 1);
  }

  lemma ResponseCanBeRead(c: Chain, i: nat)
    requires CleanChain(c) && 0 < i < |c.hops| && c.hops[i - 1].upstream.Socks?
    requires var x, s := c.hops[i - 1].upstream.client, c.hops[i].server;
      && !s.phase.Idle? && s.unsent == [] && |s.said| == 2
      && x.phase.ReadResponse?
    ensures !AtRest(c)
  {
    hide Reaches, Serialize, Stream, HopOk, AtRest, Feeds, DownPut, Server.Ok, Client.Ok, CleanServer,
      CleanClient, HeardUp, HeardDown;
    var h, x, s := c.hops[i - 1], c.hops[i - 1].upstream.client, c.hops[i].server;
    HopIsOk(c, i - 1);
    HopIsOk(c, i);
    ServerIsOk(h, false);
    ServerIsOk(c.hops[i], i == |c.hops| - 1);
    assert CleanHop(h);
    ClientFacts(x);
    ServerFacts(s);
    DownFeeds(c.hops[i], i == |c.hops| - 1);
    ClientAtWork(h);
    var line := Stream(s.said) + s.pair.down.put;
    assert x.choice + x.answer + [] == x.choice + x.answer;
    Parts(x.choice, x.answer, [], line);
    ReadsFirst(s.said, SelectBody, Head(false), s.pair.down.put, x.choice, Got(x.selection.value));
    SecondFits(s.said, SelectBody, Head(false), s.pair.down.put, x.answer, x.phase.reader);
    ClientCanTake(c, i - 1);
  }

  /** A server that has finished its handshake has said two packets and sent them. */
  lemma SettledHasReplied(s: Server.Server)
    requires Server.Ok(s) && CleanServer(s) && (s.phase.Relaying? || s.phase.Closed?)
    requires s.hello.Some? ==> Server.OffersNoAuth(s)
    requires s.outcome != Some(Outcome(0, None))
    ensures s.unsent == [] && |s.said| == 2
    ensures s.phase.Relaying? <==> Server.Connected(s)
  {
    hide Reaches, Serialize, Stream, Server.Parsed, Server.Wired, Server.Owned;
  }

  /** At rest no server is waiting for its upstream: going back from the last hop, whose connection has
      been decided, the next server has sent its reply, so the client could read on. */
  lemma {:induction false} NoAnswerPending(c: Chain, i: nat)
    requires CleanChain(c) && AtRest(c) && i < |c.hops|
    ensures !c.hops[i].server.phase.AwaitUpstream?
    decreases |c.hops| - i, 0
  {
    hide Reaches, Serialize, Stream, AtRest, LinkOk, DownGot, DownPut, UpGot, UpPut, Server.Ok, Client.Ok,
      CleanServer, CleanClient, Direct.Possible;
    var h := c.hops[i];
    HopIsOk(c, i);
    if h.server.phase.AwaitUpstream? {
      AwaitingIsAsked(h.server);
      if i == |c.hops| - 1 {
        AskedIsWellFormed(h.server);
        DirectCanConclude(c);
      } else {
        var x, g := h.upstream.client, c.hops[i + 1];
        RestingClient(c, i);
        AnsweredWhenFinished(x);
        ReplyIsSent(c, i + 1);
        if x.phase.ReadSelection? {
          SelectionCanBeRead(c, i + 1);
        } else {
          ResponseCanBeRead(c, i + 1);
        }
      }
    }
  }

  lemma ReplyIsSent(c: Chain, i: nat)
    requires CleanChain(c) && AtRest(c) && 0 < i < |c.hops| && !c.hops[i].server.phase.Idle?
    ensures c.hops[i].server.unsent == [] && |c.hops[i].server.said| == 2
    ensures c.hops[i].server.phase.Closed? || c.hops[i].server.phase.Relaying?
    ensures c.hops[i].server.phase.Relaying? <==> Server.Connected(c.hops[i].server)
    decreases |c.hops| - i, 1
  {
    hide Reaches, Serialize, Stream, HopOk, AtRest, DownGot, DownPut, UpGot, UpPut, Server.Ok, Client.Ok,
      CleanServer, HeardDown;
    var s := c.hops[i].server;
    NoMethodsPending(c, i);
    NoRequestPending(c, i);
    NoAnswerPending(c, i);
    NoDeadEndsOk(c, i);
    HopIsOk(c, i);
    ServerIsOk(c.hops[i], i == |c.hops| - 1);
    if s.phase.Sending? {
      ServerCanPut(c, i);
    }
    NeighboursAgree(c, i);
    assert CleanHop(c.hops[i]);
    SettledHasReplied(s);
  }

  // ----- how it ends -----

  /** Bytes of a method list that offers no authentication and of a CONNECT request. */
  ghost predicate Opening(x: bytes, p: Packet, y: bytes, q: Packet) {
    && Reaches(MethodsHead, x, Got(p)) && p.Methods? && NO_AUTH in p.methods
    && Reaches(Head(true), y, Got(q)) && q.Request? && q.command == CONNECT
  }

  lemma FirstHello(c: Chain, x: bytes, p: Packet, y: bytes, q: Packet)
    requires CleanChain(c) && AtRest(c) && Opening(x, p, y, q) && x + y <= c.app
    ensures var s := c.hops[0].server; s.hello == Some(p) && s.offer == x
  {
    hide Reaches, Serialize, Stream, HopOk, AtRest, UpGot, UpPut, DownPut, Server.Ok;
    var s := c.hops[0].server;
    HopIsOk(c, 0);
    ServerIsOk(c.hops[0], 0 == |c.hops| - 1);
    ServerFacts(s);
    ServerReads(s);
    Parts(s.offer, s.query, s.pair.down.got, c.app);
    assert x == (x + y)[..|x|];
    if s.phase.ReadMethods? {
      NextFits(MethodsHead, s.offer, s.phase.reader, x, Got(p), c.app);
      ServerCanTake(c, 0);
    }
    assert CleanHop(c.hops[0]);
    HelloByNow(s);
    SelfDelimiting(MethodsHead, s.offer, Got(s.hello.value), x, Got(p), c.app);
  }

  lemma HelloByNow(s: Server.Server)
    requires Server.Ok(s) && CleanServer(s) && !s.phase.Idle? && !s.phase.ReadMethods?
    ensures s.hello.Some?
  {
    hide Reaches, Serialize, Stream, Server.Parsed, Server.Wired, Server.Owned;
  }

  lemma FirstRequest(c: Chain, x: bytes, p: Packet, y: bytes, q: Packet)
    requires CleanChain(c) && AtRest(c) && Opening(x, p, y, q) && x + y <= c.app
    ensures c.hops[0].server.request == Some(q) && c.hops[0].server.asked == [q.address]
  {
    hide Reaches, Serialize, Stream, HopOk, AtRest, UpGot, UpPut, DownPut, Server.Ok, CleanServer;
    var s := c.hops[0].server;
    FirstHello(c, x, p, y, q);
    HopIsOk(c, 0);
    ServerIsOk(c.hops[0], 0 == |c.hops| - 1);
    ServerFacts(s);
    ServerReads(s);
    Parts(s.offer, s.query, s.pair.down.got, c.app);
    var rest := c.app[|x|..];
    assert c.app == x + rest;
    PrefixCancels(x, y, rest);
    PrefixCancels(x, s.query, rest);
    if s.phase.ReadRequest? {
      NextFits(Head(true), s.query, s.phase.reader, y, Got(q), rest);
      ServerCanTake(c, 0);
    } else if s.phase.Silent? {
      SelfDelimiting(Head(true), s.query, Reader.Silent, y, Got(q), rest);
    } else if s.phase.Crashed? && s.outcome.None? {
      SelfDelimiting(Head(true), s.query, Undefined, y, Got(q), rest);
    } else {
      if s.phase.Sending? {
        ServerCanPut(c, 0);
      }
      NoAnswerPending(c, 0);
      assert CleanHop(c.hops[0]);
      RequestByNow(s);
      SelfDelimiting(Head(true), s.query, Got(s.request.value), y, Got(q), rest);
      ConnectIsAsked(s);
    }
  }

  lemma RequestByNow(s: Server.Server)
    requires Server.Ok(s) && CleanServer(s) && Server.OffersNoAuth(s)
    requires !s.phase.ReadRequest? && !s.phase.Sending? && !s.phase.Silent? && (s.phase.Crashed? ==> s.outcome.Some?)
    ensures s.request.Some?
  {
    hide Reaches, Serialize, Stream, Server.Parsed, Server.Wired, Server.Owned;
  }

  lemma ConnectIsAsked(s: Server.Server)
    requires Server.Ok(s) && Server.WantsConnect(s)
    ensures s.asked == [s.request.value.address] && (!s.phase.AwaitUpstream? ==> s.outcome.Some?)
  {
    hide Reaches, Serialize, Stream, Server.Parsed, Server.Wired, Server.Owned;
  }

  lemma TwoSaidIsRequested(s: Server.Server)
    requires Server.Ok(s) && |s.said| == 2
    ensures s.request.Some?
  {
    hide Reaches, Serialize, Stream, Server.Parsed, Server.Wired, Server.Owned;
  }

  /** At rest every hop has been asked for the address that the first one was asked for. */
  lemma {:induction false} AllAsked(c: Chain, i: nat)
    requires CleanChain(c) && AtRest(c) && i < |c.hops| && c.hops[0].server.asked != []
    ensures c.hops[i].server.asked == c.hops[0].server.asked && c.hops[i].server.outcome.Some?
  {
    hide Reaches, Serialize, Stream, AtRest, DownGot, DownPut, UpGot, UpPut, Server.Ok, Client.Ok,
      CleanServer, CleanClient, HeardDown;
    var s := c.hops[i].server;
    HopIsOk(c, i);
    NoAnswerPending(c, i);
    if i == 0 {
      AskedIsRequested(s);
    } else {
      AllAsked(c, i - 1);
      HopIsOk(c, i - 1);
      RestingClient(c, i - 1);
      ReplyIsSent(c, i);
      TwoSaidIsRequested(s);
      NeighboursAgree(c, i);
      EndpointTravelsBack(s);
    }
    ConnectIsAsked(s);
  }

  lemma EndpointTravelsBack(s: Server.Server)
    requires Server.Ok(s) && s.request.Some?
    ensures s.request.value.Request?
  {
    hide Reaches, Serialize, Stream, Server.Scripted, Server.Wired, Server.Owned;
  }

  /** What a finished request reported, and did with its transport, is what the response said. */
  lemma ResponseDecides(x: Client.Client)
    requires Client.Ok(x) && x.response.Some?
    ensures x.response.value.Response? && x.phase.Finished?
    ensures Answered(x) == Some(if Client.Granted(x) then Outcome(0, Some(x.response.value.address))
                                else Outcome(x.response.value.code, None))
    ensures !Client.Granted(x) ==>
            x.log == [Client.Opened, Client.Closed, Client.Called(Outcome(x.response.value.code, None))]
  {
    hide Reaches, Serialize, Stream, Client.Wired;
  }

  lemma SaidSecond(s: Server.Server)
    requires Server.Ok(s) && s.outcome.Some? && s.outcome.value != Outcome(0, None)
    ensures |s.said| == 2 && s.said[0] == Select(VERSION, NO_AUTH)
    ensures s.said[1] == if Server.Connected(s) then Response(VERSION, SUCCESS, s.outcome.value.transport.value)
                         else Response(VERSION, CONNECTION_REFUSED, ANY_ADDRESS)
  {
    hide Reaches, Serialize, Stream, Server.Parsed, Server.Wired, Server.Owned;
  }

  /** At rest a hop that is not the last has learnt from the next one how that one's request ended. */
  lemma LearnsFromNext(c: Chain, i: nat)
    requires CleanChain(c) && AtRest(c) && i + 1 < |c.hops| && c.hops[0].server.asked != []
    ensures c.hops[i].upstream.Socks?
    ensures var x, s, t := c.hops[i].upstream.client, c.hops[i].server, c.hops[i + 1].server;
      && t.outcome.Some?
      && (Server.Connected(t) ==> s.outcome == Some(Outcome(0, t.outcome.value.transport)))
      && (!Server.Connected(t) ==>
            && s.outcome == Some(Outcome(CONNECTION_REFUSED, None))
            && x.log == [Client.Opened, Client.Closed, Client.Called(Outcome(CONNECTION_REFUSED, None))])
  {
    hide Reaches, Serialize, Stream, AtRest, DownGot, DownPut, UpGot, UpPut, Server.Ok, Client.Ok,
      CleanServer, CleanClient, HeardUp;
    AllAsked(c, i);
    AllAsked(c, i + 1);
    HopIsOk(c, i);
    HopIsOk(c, i + 1);
    AnswerIsAsked(c.hops[i].server);
    var x, t := c.hops[i].upstream.client, c.hops[i + 1].server;
    RestingClient(c, i);
    NeighboursAgree(c, i + 1);
    NeverNull(c, i + 1);
    AnsweredWhenFinished(x);
    assert CleanHop(c.hops[i]);
    ClientFacts(x);
    ResponseDecides(x);
    SaidSecond(t);
  }

  /** So all hops end like the last one. */
  lemma {:induction false} AllEndAlike(c: Chain, i: nat)
    requires CleanChain(c) && AtRest(c) && i < |c.hops| && c.hops[0].server.asked != []
    ensures var last, s := c.hops[|c.hops| - 1], c.hops[i].server;
      && last.upstream.Direct? && last.upstream.answer.Some? && s.outcome.Some?
      && (last.upstream.answer.value.error == 0 ==> s.outcome == last.upstream.answer && Server.Connected(s))
      && (last.upstream.answer.value.error != 0 ==> s.outcome.value.error != 0)
      && (i < |c.hops| - 1 ==> c.hops[i].upstream.Socks?)
      && (i < |c.hops| - 1 && last.upstream.answer.value.error != 0 ==>
            c.hops[i].upstream.client.log
            == [Client.Opened, Client.Closed, Client.Called(Outcome(CONNECTION_REFUSED, None))])
    decreases |c.hops| - i
  {
    hide Reaches, Serialize, Stream, AtRest, LinkOk, CleanChain, DownGot, DownPut, UpGot, UpPut, Server.Ok, Client.Ok;
    CleanIsOk(c);
    HopIsOk(c, i);
    AllAsked(c, i);
    NeverNull(c, i);
    if i == |c.hops| - 1 {
      AnswerIsAsked(c.hops[i].server);
      AskedIsWellFormed(c.hops[i].server);
      DirectIsWellFormed(c.hops[i].upstream.target, c.hops[i].upstream.answer.value);
    } else {
      AllEndAlike(c, i + 1);
      LearnsFromNext(c, i);
    }
  }

  lemma CleanIsOk(c: Chain)
    requires CleanChain(c)
    ensures ChainOk(c) && c.hops != []
    ensures forall i :: 0 <= i < |c.hops| ==> CleanHop(c.hops[i])
  {
  }

  lemma SentTwo(s: Server.Server)
    requires Server.Ok(s) && |s.said| == 2 && s.unsent == []
    ensures s.sent == Serialize(s.said[0]) + Serialize(s.said[1])
  {
    hide Reaches, Serialize;
    assert s.said == [] + [s.said[0]] + [s.said[1]];
    StreamSnoc([] + [s.said[0]], s.said[1]);
    StreamSnoc([], s.said[0]);
    assert s.sent + [] == s.sent;
  }

  lemma ClosedHasClosed(s: Server.Server)
    requires Server.Ok(s) && s.phase.Closed?
    ensures !s.pair.down.open && !s.pair.up.open
  {
    hide Reaches, Serialize, Stream, Server.Parsed, Server.Wired, Server.Scripted, Server.Ordered;
  }

  lemma OutcomeOffers(s: Server.Server)
    requires Server.Ok(s) && s.outcome.Some?
    ensures Server.OffersNoAuth(s)
    ensures !s.phase.Idle? && !s.phase.ReadMethods? && !s.phase.ReadRequest? && !s.phase.Silent?
    ensures !s.phase.AwaitUpstream? && (s.phase.Crashed? ==> s.outcome == Some(Outcome(0, None)))
  {
    hide Reaches, Serialize, Stream, Server.Parsed, Server.Wired, Server.Owned, Server.Scripted;
  }

  lemma EveryHopSettles(c: Chain, i: nat)
    requires CleanChain(c) && AtRest(c) && i < |c.hops| && c.hops[0].server.asked != []
    ensures var s := c.hops[i].server;
      && s.outcome.Some? && s.outcome.value != Outcome(0, None)
      && s.sent == Serialize(Select(VERSION, NO_AUTH))
           + Serialize(if Server.Connected(s) then Response(VERSION, SUCCESS, s.outcome.value.transport.value)
                       else Response(VERSION, CONNECTION_REFUSED, ANY_ADDRESS))
      && (if Server.Connected(s) then s.phase.Relaying? else s.phase.Closed? && !s.pair.down.open && !s.pair.up.open)
  {
    hide Reaches, Serialize, Stream, AtRest, HopOk, DownGot, DownPut, UpGot, UpPut, ChainOk, CleanChain,
      Server.Ok, CleanServer, CleanClient;
    var s := c.hops[i].server;
    CleanIsOk(c);
    HopIsOk(c, i);
    ServerIsOk(c.hops[i], i == |c.hops| - 1);
    AllAsked(c, i);
    NeverNull(c, i);
    OutcomeOffers(s);
    SaidSecond(s);
    if s.phase.Sending? {
      ServerCanPut(c, i);
    }
    assert CleanHop(c.hops[i]);
    SettledHasReplied(s);
    SentTwo(s);
    if s.phase.Closed? {
      ClosedHasClosed(s);
    }
  }

  /** The hop relays, having answered success with exactly this address. */
  ghost predicate EndsGranted(h: Hop, local: Address) {
    && h.server.phase.Relaying?
    && h.server.sent == [5, 0] + ([5, 0, 0] + AddressBytes(local))
  }

  /** The hop has sent exactly one refusal and closed everything. */
  ghost predicate EndsRefused(h: Hop) {
    && h.server.sent == [5, 0] + [5, 5, 0, 1, 0, 0, 0, 0, 0, 0]
    && h.server.phase.Closed? && !h.server.pair.down.open && !h.server.pair.up.open
    && (h.upstream.Socks? ==>
          h.upstream.client.log == [Client.Opened, Client.Closed, Client.Called(Outcome(5, None))])
  }

  ghost predicate CleanReachable(c: Chain) {
    exists run, n :: IsCleanRun(run, n) && c == run[|run| - 1]
  }

  /** The handshake of a chain of any length, run in any order without transport errors and left with
      no step to take, after the application sent a CONNECT request: every hop asked for that address;
      if the last hop's connection was made, every hop has answered with exactly the address it is
      bound to and relays; if it was refused, every hop has sent exactly one refusal and every
      transport on the path is closed. */
  lemma HandshakeOutcome(c: Chain, x: bytes, p: Packet, y: bytes, q: Packet)
    requires CleanReachable(c) && AtRest(c) && Opening(x, p, y, q) && x + y <= c.app
    ensures c.hops != []
    ensures var last := c.hops[|c.hops| - 1].upstream;
      && last.Direct? && last.answer.Some?
      && (last.answer.value.error == 0 <==> last.answer.value.transport.Some?)
      && forall i :: 0 <= i < |c.hops| ==>
           && c.hops[i].server.asked == [q.address]
           && (if last.answer.value.transport.Some? then EndsGranted(c.hops[i], last.answer.value.transport.value)
               else EndsRefused(c.hops[i]))
  {
    hide Reaches, Serialize, Stream, AtRest, CleanChain, HopOk, Server.Ok, Client.Ok, Server.Connected,
      EndsGranted, EndsRefused;
    var run, n :| IsCleanRun(run, n) && c == run[|run| - 1];
    CleanRunOk(run, n);
    CleanIsOk(c);
    FirstRequest(c, x, p, y, q);
    LastAnswer(c);
    forall i | 0 <= i < |c.hops|
      ensures c.hops[i].server.asked == [q.address]
      ensures var o := c.hops[|c.hops| - 1].upstream.answer.value;
        if o.transport.Some? then EndsGranted(c.hops[i], o.transport.value) else EndsRefused(c.hops[i])
    {
      AllAsked(c, i);
      EndOf(c, i);
    }
  }

  lemma LastAnswer(c: Chain)
    requires CleanChain(c) && AtRest(c) && c.hops[0].server.asked != []
    ensures c.hops != []
    ensures var last := c.hops[|c.hops| - 1].upstream;
      last.Direct? && last.answer.Some? && (last.answer.value.error == 0 <==> last.answer.value.transport.Some?)
  {
    hide Reaches, Serialize, Stream, AtRest, CleanChain, Server.Ok, Client.Ok, LinkOk, Direct.Possible;
    CleanIsOk(c);
    var k := |c.hops| - 1;
    AllEndAlike(c, k);
    HopIsOk(c, k);
    AskedIsWellFormed(c.hops[k].server);
    DirectIsWellFormed(c.hops[k].upstream.target, c.hops[k].upstream.answer.value);
  }

  lemma EndOf(c: Chain, i: nat)
    requires CleanChain(c) && AtRest(c) && i < |c.hops| && c.hops[0].server.asked != []
    requires c.hops[|c.hops| - 1].upstream.Direct? && c.hops[|c.hops| - 1].upstream.answer.Some?
    ensures var o := c.hops[|c.hops| - 1].upstream.answer.value;
      if o.transport.Some? then EndsGranted(c.hops[i], o.transport.value) else EndsRefused(c.hops[i])
  {
    hide Reaches, Serialize, Stream, AtRest, CleanChain, Server.Ok, Client.Ok, HopOk;
    CleanIsOk(c);
    LastAnswer(c);
    AllEndAlike(c, i);
    EveryHopSettles(c, i);
    FixedPackets();
    if Server.Connected(c.hops[i].server) {
      MessageBytes(c.hops[i].server.outcome.value.transport.value);
    }
    HopIsOk(c, i);
    if c.hops[i].upstream.Socks? {
      SocksIsNotLast(c.hops[i], i == |c.hops| - 1);
    }
  }
}
