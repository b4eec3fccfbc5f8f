/** What the two ends of a link between neighbouring hops know about each other. */
module Links {
  import opened Packets
  import opened Base
  import Server
  import Client
  import Direct
  import opened Chain

  lemma AskedIsWellFormed(s: Server.Server)
    requires Server.Ok(s) && s.asked != []
    ensures s.asked == [s.request.value.address] && WellFormed(s.asked[0])
  {
    hide Reaches, Serialize, Stream, Server.Scripted, Server.Wired, Server.Owned;
    AcceptedReserializes(Head(true), s.query, s.request.value);
  }

  /** A finished client that handed over a transport was granted it, and the address it reports came
      out of the response. */
  lemma HandoverIsGranted(x: Client.Client, a: Address)
    requires Client.Ok(x) && Answered(x) == Some(Outcome(0, Some(a)))
    ensures Client.Granted(x) && x.response.value.address == a && WellFormed(a)
  {
    hide Reaches, Serialize, Stream, Client.Ordered, Client.Wired;
    AcceptedReserializes(Head(false), x.answer, x.response.value);
  }

  lemma DirectIsWellFormed(target: Address, o: Outcome)
    requires WellFormed(target) && Direct.Possible(target, o)
    ensures o.transport.Some? <==> o.error == 0
    ensures o.transport.Some? ==> WellFormed(o.transport.value)
  {
  }

  lemma HandedIsWellFormed(h: Hop, isLast: bool)
    requires HopOk(h, isLast) && Server.Connected(h.server)
    ensures WellFormed(h.server.outcome.value.transport.value)
  {
    hide Server.Ok, Client.Ok, Direct.Possible;
    var a := h.server.outcome.value.transport.value;
    AnswerIsAsked(h.server);
    match h.upstream
    case NotAsked =>
    case Socks(x) =>
      HandoverIsGranted(x, a);
    case Direct(target, answer) =>
      AskedIsWellFormed(h.server);
      DirectIsWellFormed(target, answer.value);
  }

  lemma AnswerIsAsked(s: Server.Server)
    requires Server.Ok(s) && s.outcome.Some?
    ensures s.asked != []
  {
    hide Reaches, Serialize, Stream, Server.Parsed, Server.Scripted, Server.Wired, Server.Owned;
  }

  lemma AwaitingIsAsked(s: Server.Server)
    requires Server.Ok(s) && s.phase.AwaitUpstream?
    ensures s.asked != [] && s.outcome.None?
  {
    hide Reaches, Serialize, Stream, Server.Parsed, Server.Wired, Server.Owned;
  }

  lemma RelayingIsConnected(s: Server.Server)
    requires Server.Ok(s)
    ensures s.phase.Relaying? ==> Server.Connected(s) && |s.said| == 2 && s.unsent == []
    ensures !s.phase.Relaying? ==>
            s.pair.down.put == [] && s.pair.up.put == [] && s.pair.down.got == [] && s.pair.up.got == []
  {
    hide Reaches, Serialize, Stream, Server.Parsed, Server.Wired;
  }

  lemma GrantedIsSent(x: Client.Client)
    requires Client.Ok(x) && Client.Granted(x)
    ensures x.unsent == [] && |x.said| == 2
  {
    hide Reaches, Serialize, Stream, Client.Wired;
    if x.answer == [] {
      NothingEnds(Head(false), Got(x.response.value));
    }
  }

  /** What a hop writes upstream: its method list, its request and then only relayed bytes. */
  lemma UpFeeds(h: Hop)
    requires HopOk(h, false) && h.upstream.Socks?
    ensures var x := h.upstream.client;
      && Feeds(x.said, MethodsHead, Head(true), h.server.pair.up.put)
      && UpPut(h) <= Stream(x.said) + h.server.pair.up.put
  {
    hide Reaches, Serialize, Stream, Server.Ok;
    var x := h.upstream.client;
    AskedIsWellFormed(h.server);
    RelayingIsConnected(h.server);
    if h.server.phase.Relaying? {
      HandoverIsGranted(x, h.server.outcome.value.transport.value);
      GrantedIsSent(x);
      assert x.sent + [] == x.sent;
    } else {
      assert x.sent + [] == x.sent && Stream(x.said) + [] == Stream(x.said);
    }
  }

  /** What a server writes downstream: its selection, its response and then only relayed bytes. */
  lemma DownFeeds(g: Hop, isLast: bool)
    requires HopOk(g, isLast)
    ensures var s := g.server;
      && Feeds(s.said, SelectBody, Head(false), s.pair.down.put)
      && DownPut(s) <= Stream(s.said) + s.pair.down.put
  {
    hide Reaches, Serialize, Stream, UpstreamOk, Server.Parsed, Server.Owned;
    var s := g.server;
    RelayingIsConnected(s);
    if Server.Connected(s) {
      HandedIsWellFormed(g, isLast);
    }
    if s.phase.Relaying? {
      assert s.sent + [] == s.sent;
    } else {
      assert s.sent + [] == s.sent && Stream(s.said) + [] == Stream(s.said);
    }
  }

  // ----- agreement -----

  ghost predicate Linked(h: Hop, g: Hop, isLast: bool) {
    && HopOk(h, false) && h.upstream.Socks? && HopOk(g, isLast)
    && DownGot(g.server) <= UpPut(h) && UpGot(h) <= DownPut(g.server)
  }

  /** The server of `g` consumed exactly what the client of `h` said, and has read as payload only what
      was relayed to it. */
  ghost predicate HeardUp(h: Hop, g: Hop)
    requires h.upstream.Socks?
  {
    var x, s := h.upstream.client, g.server;
    && (s.hello.Some? ==> s.hello.value == Client.HELLO && s.offer == Serialize(Client.HELLO))
    && (s.request.Some? ==> s.request.value == Request(VERSION, CONNECT, x.endpoint)
                            && s.query == Serialize(Request(VERSION, CONNECT, x.endpoint)))
    && !s.phase.Silent? && (s.phase.Crashed? ==> s.outcome.Some?)
    && s.pair.down.got <= h.server.pair.up.put
  }

  /** The client of `h` consumed exactly what the server of `g` said, which accepted its method, and has
      relayed back only what was relayed to it. */
  ghost predicate HeardDown(h: Hop, g: Hop)
    requires h.upstream.Socks?
  {
    var x, s := h.upstream.client, g.server;
    && (x.selection.Some? ==> Client.Accepted(x) && s.said != [] && x.choice == Serialize(s.said[0]))
    && (x.response.Some? ==> |s.said| == 2 && x.response.value == s.said[1] && x.answer == Serialize(s.said[1]))
    && !x.phase.Silent? && !x.phase.Crashed?
    && h.server.pair.up.got <= s.pair.down.put
  }

  lemma Parts(a: bytes, b: bytes, rest: bytes, line: bytes)
    requires a + b + rest <= line
    ensures a <= line && a + b <= line
  {
    assert a == (a + b + rest)[..|a|] && a + b == (a + b + rest)[..|a + b|];
  }

  /** The states of a server in which it has come to the end of the packet it reads. */
  lemma ServerReads(s: Server.Server)
    requires Server.Ok(s)
    ensures s.hello.Some? ==> Reaches(MethodsHead, s.offer, Got(s.hello.value))
    ensures s.request.Some? ==> Reaches(Head(true), s.query, Got(s.request.value))
    ensures s.phase.Silent? ==> Reaches(Head(true), s.query, Reader.Silent)
    ensures s.phase.Crashed? && s.outcome.None? ==> Reaches(Head(true), s.query, Undefined)
    ensures s.request.Some? || s.phase.Silent? || s.phase.Crashed? ==> s.hello.Some?
    ensures s.request.Some? ==> !s.phase.Silent? && (s.phase.Crashed? ==> s.outcome.Some?)
    ensures s.phase.Relaying? ==> s.request.Some?
  {
    hide Reaches, Serialize, Stream, Server.Scripted, Server.Wired, Server.Owned;
  }

  lemma AgreeUp(h: Hop, g: Hop, isLast: bool)
    requires Linked(h, g, isLast)
    ensures HeardUp(h, g)
  {
    hide Reaches, Serialize, Stream, HopOk, Server.Ok, Feeds, UpPut;
    var x, s, put := h.upstream.client, g.server, h.server.pair.up.put;
    var line := Stream(x.said) + put;
    UpFeeds(h);
    PrefixTransitive(DownGot(s), UpPut(h), line);
    Parts(s.offer, s.query, s.pair.down.got, line);
    ServerIsOk(g, isLast);
    ServerReads(s);
    RelayingIsConnected(s);
    if s.hello.Some? {
      ReadsFirst(x.said, MethodsHead, Head(true), put, s.offer, Got(s.hello.value));
      SaysHelloAndRequest(h);
      if s.request.Some? {
        ReadsSecond(x.said, MethodsHead, Head(true), put, s.query, Got(s.request.value));
        ReadsPayload(x.said, put, s.pair.down.got);
      } else if s.phase.Silent? {
        ReadsSecond(x.said, MethodsHead, Head(true), put, s.query, Reader.Silent);
      } else if s.phase.Crashed? && s.outcome.None? {
        ReadsSecond(x.said, MethodsHead, Head(true), put, s.query, Undefined);
      }
    }
  }

  lemma ServerIsOk(g: Hop, isLast: bool)
    requires HopOk(g, isLast)
    ensures Server.Ok(g.server)
    ensures g.upstream.Socks? ==> Client.Ok(g.upstream.client)
  {
  }

  lemma SaysHelloAndRequest(h: Hop)
    requires HopOk(h, false) && h.upstream.Socks? && h.upstream.client.said != []
    ensures var x := h.upstream.client;
      x.said == [Client.HELLO] || x.said == [Client.HELLO, Request(VERSION, CONNECT, x.endpoint)]
  {
    hide Reaches, Serialize, Stream, Server.Ok;
  }

  lemma ClientReads(x: Client.Client)
    requires Client.Ok(x)
    ensures x.selection.Some? ==> Reaches(SelectBody, x.choice, Got(x.selection.value))
    ensures x.response.Some? ==> Reaches(Head(false), x.answer, Got(x.response.value))
    ensures x.phase.Silent? ==> Reaches(Head(false), x.answer, Reader.Silent)
    ensures x.phase.Crashed? ==> Reaches(Head(false), x.answer, Undefined)
    ensures x.response.Some? || x.phase.Silent? || x.phase.Crashed? ==> x.selection.Some?
    ensures x.response.Some? ==> !x.phase.Silent? && !x.phase.Crashed?
  {
    hide Reaches, Serialize, Stream, Client.Wired;
  }

  lemma AgreeDown(h: Hop, g: Hop, isLast: bool)
    requires Linked(h, g, isLast)
    ensures HeardDown(h, g)
  {
    hide Reaches, Serialize, Stream, HopOk, Server.Ok, Client.Ok, Feeds, DownPut;
    var x, s, put := h.upstream.client, g.server, g.server.pair.down.put;
    var line := Stream(s.said) + put;
    DownFeeds(g, isLast);
    PrefixTransitive(UpGot(h), DownPut(s), line);
    Parts(x.choice, x.answer, h.server.pair.up.got, line);
    ServerIsOk(h, false);
    ServerIsOk(g, isLast);
    ClientReads(x);
    RelayingIsConnected(h.server);
    if h.server.phase.Relaying? {
      RelayHasResponse(h);
    }
    if x.selection.Some? {
      ReadsFirst(s.said, SelectBody, Head(false), put, x.choice, Got(x.selection.value));
      AcceptsHello(h, g, isLast);
      if x.response.Some? {
        ReadsSecond(s.said, SelectBody, Head(false), put, x.answer, Got(x.response.value));
        ReadsPayload(s.said, put, h.server.pair.up.got);
      } else if x.phase.Silent? {
        ReadsSecond(s.said, SelectBody, Head(false), put, x.answer, Reader.Silent);
      } else if x.phase.Crashed? {
        ReadsSecond(s.said, SelectBody, Head(false), put, x.answer, Undefined);
      }
    }
  }

  lemma RelayHasResponse(h: Hop)
    requires HopOk(h, false) && h.upstream.Socks? && h.server.phase.Relaying?
    ensures h.upstream.client.response.Some?
  {
    hide Reaches, Serialize, Stream, Server.Ok;
    RelayingIsConnected(h.server);
    HandoverIsGranted(h.upstream.client, h.server.outcome.value.transport.value);
  }

  /** The next server answers a method list that offers no authentication by accepting it. */
  lemma AcceptsHello(h: Hop, g: Hop, isLast: bool)
    requires Linked(h, g, isLast) && g.server.said != []
    ensures g.server.said[0] == Select(VERSION, NO_AUTH)
  {
    hide Reaches, Serialize, Stream, UpstreamOk, Server.Parsed, Server.Wired, Server.Owned, DownGot, DownPut,
      UpPut, UpGot;
    AgreeUp(h, g, isLast);
  }
}
