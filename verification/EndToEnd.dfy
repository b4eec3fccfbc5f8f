/** What holds from one end of a chain to the other, for every length and every interleaving. */
module EndToEnd {
  import opened Packets
  import opened Base
  import Relay
  import Server
  import Client
  import opened Chain
  import opened Links

  ghost predicate Next(c: Chain, d: Chain) {
    exists m :: Step(c, d, m)
  }

  ghost predicate IsRun(run: seq<Chain>, n: nat) {
    n > 0 && run != [] && run[0] == Init(n) && forall i :: 0 < i < |run| ==> Next(run[i - 1], run[i])
  }

  ghost predicate Reachable(c: Chain) {
    exists run, n :: IsRun(run, n) && c == run[|run| - 1]
  }

  lemma FirstHopOk(i: nat, isLast: bool)
    ensures var h := Hop(if i == 0 then Server.Apply(Server.INIT, Server.Accept) else Server.INIT, NotAsked);
      && HopOk(h, isLast) && DownGot(h.server) == [] && UpGot(h) == [] && !Reached(h)
      && (h.server.phase.Idle? <==> i != 0)
  {
    hide Reaches, Serialize, Stream, Server.Ok;
    Server.InitOk();
    Server.ApplyOk(Server.INIT, Server.Accept);
  }

  lemma InitOk(n: nat)
    requires n > 0
    ensures ChainOk(Init(n))
  {
    hide HopOk, Reached, DownGot, UpGot, DownPut, UpPut, Toward, Back, Server.Apply;
    var c := Init(n);
    forall i | 0 <= i < n
      ensures HopOk(c.hops[i], i == n - 1) && LinkOk(c, i) && !Reached(c.hops[i])
      ensures c.hops[i].server.phase.Idle? <==> i != 0
    {
      FirstHopOk(i, i == n - 1);
    }
  }

  lemma {:induction false} RunOk(run: seq<Chain>, n: nat)
    requires IsRun(run, n)
    ensures ChainOk(run[|run| - 1]) && |run[|run| - 1].hops| == n
  {
    hide ChainOk, Step;
    if |run| == 1 {
      InitOk(n);
    } else {
      RunOk(run[..|run| - 1], n);
      var c, d := run[|run| - 2], run[|run| - 1];
      assert Next(c, d);
      var m :| Step(c, d, m);
      StepOk(c, d, m);
    }
  }

  lemma ReachableOk(c: Chain)
    requires Reachable(c)
    ensures ChainOk(c)
  {
    hide ChainOk;
    var run, n :| IsRun(run, n) && c == run[|run| - 1];
    RunOk(run, n);
  }

  // ----- neighbours -----

  /** A hop that was ever contacted is linked to the hop before it. */
  lemma NeighboursLinked(c: Chain, i: nat)
    requires ChainOk(c) && 0 < i < |c.hops| && !c.hops[i].server.phase.Idle?
    ensures Linked(c.hops[i - 1], c.hops[i], i == |c.hops| - 1)
  {
    hide HopOk, DownGot, DownPut, UpGot, UpPut;
    assert LinkOk(c, i) && LinkOk(c, i - 1);
  }

  lemma NeighboursAgree(c: Chain, i: nat)
    requires ChainOk(c) && 0 < i < |c.hops| && !c.hops[i].server.phase.Idle?
    ensures c.hops[i - 1].upstream.Socks? && HeardUp(c.hops[i - 1], c.hops[i]) && HeardDown(c.hops[i - 1], c.hops[i])
    ensures HopOk(c.hops[i - 1], false) && HopOk(c.hops[i], i == |c.hops| - 1)
  {
    hide HopOk, HeardUp, HeardDown, DownGot, DownPut, UpGot, UpPut;
    NeighboursLinked(c, i);
    AgreeUp(c.hops[i - 1], c.hops[i], i == |c.hops| - 1);
    AgreeDown(c.hops[i - 1], c.hops[i], i == |c.hops| - 1);
  }

  lemma IdleHasDoneNothing(s: Server.Server)
    requires Server.Ok(s) && s.phase.Idle?
    ensures s.asked == [] && s.outcome.None? && s.said == []
  {
    hide Reaches, Serialize, Stream, Server.Parsed, Server.Wired, Server.Owned;
  }

  // ----- the endpoint travels unchanged to the last hop -----

  lemma {:induction false} EndpointTravels(c: Chain, i: nat)
    requires ChainOk(c) && i < |c.hops| && c.hops[i].server.asked != []
    ensures c.hops[0].server.asked == c.hops[i].server.asked
  {
    hide Reaches, Serialize, Stream, DownGot, DownPut, UpGot, UpPut, ChainOk, LinkOk, Server.Ok, Client.Ok;
    if i > 0 {
      var h, g := c.hops[i - 1], c.hops[i];
      HopIsOk(c, i);
      if g.server.phase.Idle? {
        IdleHasDoneNothing(g.server);
      } else {
        NeighboursAgree(c, i);
        AskedIsWellFormed(g.server);
        AskedIsRequested(g.server);
        EndpointTravels(c, i - 1);
      }
    }
  }

  lemma HopIsOk(c: Chain, i: nat)
    requires ChainOk(c) && i < |c.hops|
    ensures HopOk(c.hops[i], i == |c.hops| - 1) && LinkOk(c, i)
  {
  }

  lemma AskedIsRequested(s: Server.Server)
    requires Server.Ok(s) && s.asked != []
    ensures s.request.Some? && s.request.value.Request? && s.request.value.command == CONNECT
    ensures Reaches(Head(true), s.query, Got(s.request.value))
  {
    hide Reaches, Serialize, Stream, Server.Scripted, Server.Wired, Server.Owned;
  }

  /** In every reachable state of a chain of any length, whatever address a hop has asked its upstream
      for is the address of the CONNECT request that the first hop parsed from the application. */
  lemma ChainAsksForOrigin(c: Chain, i: nat)
    requires Reachable(c) && i < |c.hops| && c.hops[i].server.asked != []
    ensures var s := c.hops[0].server;
      && s.request.Some? && s.request.value.Request? && s.request.value.command == CONNECT
      && Reaches(Head(true), s.query, Got(s.request.value))
      && WellFormed(s.request.value.address)
      && c.hops[i].server.asked == [s.request.value.address]
  {
    hide Reaches, Serialize, Stream, ChainOk, HopOk, Server.Ok;
    ReachableOk(c);
    EndpointTravels(c, i);
    HopIsOk(c, 0);
    ServerIsOk(c.hops[0], 0 == |c.hops| - 1);
    AskedIsRequested(c.hops[0].server);
    AskedIsWellFormed(c.hops[0].server);
  }

  // ----- the address reported back is the last hop's -----

  lemma {:induction false} LocalAddressTravels(c: Chain, i: nat)
    requires ChainOk(c) && i < |c.hops| && Server.Connected(c.hops[i].server)
    ensures c.hops[|c.hops| - 1].upstream.Direct?
    ensures c.hops[|c.hops| - 1].upstream.answer == Some(Outcome(0, c.hops[i].server.outcome.value.transport))
    ensures forall j :: i <= j < |c.hops| ==> c.hops[j].server.outcome == c.hops[i].server.outcome
    decreases |c.hops| - i
  {
    hide Reaches, Serialize, Stream, DownGot, DownPut, UpGot, UpPut, ChainOk, LinkOk, Server.Ok, Client.Ok;
    var h := c.hops[i];
    HopIsOk(c, i);
    AnswerIsAsked(h.server);
    if i < |c.hops| - 1 {
      var a := h.server.outcome.value.transport.value;
      HandoverIsGranted(h.upstream.client, a);
      NextIsConnected(c, i, a);
      LocalAddressTravels(c, i + 1);
    }
  }

  /** A grant comes from a server that was itself handed a transport reporting the same address. */
  lemma NextIsConnected(c: Chain, i: nat, a: Address)
    requires ChainOk(c) && i + 1 < |c.hops| && HopOk(c.hops[i], false) && c.hops[i].upstream.Socks?
    requires Client.Granted(c.hops[i].upstream.client) && c.hops[i].upstream.client.response.value.address == a
    ensures c.hops[i + 1].server.outcome == Some(Outcome(0, Some(a)))
  {
    hide Reaches, Serialize, Stream, DownGot, DownPut, UpGot, UpPut, ChainOk, LinkOk, HopOk, HeardUp,
      Server.Ok, Client.Ok;
    GrantedIsReached(c, i);
    HopIsOk(c, i + 1);
    NeighboursAgree(c, i + 1);
    ServerIsOk(c.hops[i + 1], i + 1 == |c.hops| - 1);
    SuccessIsOwed(c.hops[i + 1].server, c.hops[i].upstream.client.response.value);
  }

  lemma GrantedIsReached(c: Chain, i: nat)
    requires ChainOk(c) && i + 1 < |c.hops| && HopOk(c.hops[i], false) && c.hops[i].upstream.Socks?
    requires c.hops[i].upstream.client.response.Some?
    ensures !c.hops[i + 1].server.phase.Idle?
  {
    hide Reaches, Serialize, Stream, LinkOk, Server.Ok;
    var x := c.hops[i].upstream.client;
    assert Reached(c.hops[i]);
  }

  lemma SuccessIsOwed(s: Server.Server, p: Packet)
    requires Server.Ok(s) && |s.said| == 2 && p == s.said[1] && p.Response? && p.code == SUCCESS
    ensures s.outcome == Some(Outcome(0, Some(p.address)))
  {
    hide Reaches, Serialize, Stream, Server.Parsed, Server.Wired, Server.Owned;
  }

  /** In every reachable state, a hop that was handed a transport reports as its local address the one
      the last hop's direct connection is bound to, and so do all hops behind it. */
  lemma ChainReportsLastHop(c: Chain, i: nat)
    requires Reachable(c) && i < |c.hops| && Server.Connected(c.hops[i].server)
    ensures c.hops[|c.hops| - 1].upstream.Direct?
    ensures c.hops[|c.hops| - 1].upstream.answer == Some(Outcome(0, c.hops[i].server.outcome.value.transport))
    ensures forall j :: i <= j < |c.hops| ==> c.hops[j].server.outcome == c.hops[i].server.outcome
    ensures c.hops[i].server.said ==
            [Select(VERSION, NO_AUTH), Response(VERSION, SUCCESS, c.hops[i].server.outcome.value.transport.value)]
  {
    hide Reaches, Serialize, Stream, ChainOk, HopOk, Server.Ok;
    ReachableOk(c);
    LocalAddressTravels(c, i);
    HopIsOk(c, i);
    ServerIsOk(c.hops[i], i == |c.hops| - 1);
    ConnectedSays(c.hops[i].server);
  }

  lemma ConnectedSays(s: Server.Server)
    requires Server.Ok(s) && Server.Connected(s)
    ensures s.said == [Select(VERSION, NO_AUTH), Response(VERSION, SUCCESS, s.outcome.value.transport.value)]
  {
    hide Reaches, Serialize, Stream, Server.Parsed, Server.Wired, Server.Owned;
  }

  // ----- no handshake byte enters the payload, no payload byte is reordered or invented -----

  /** What a server has read in a direction and not delivered: dropped by failed writes or in flight. */
  function HeldUp(s: Server.Server): bytes { Relay.Held(Relay.WayOf(s.pair, true)) }
  function HeldDown(s: Server.Server): bytes { Relay.Held(Relay.WayOf(s.pair, false)) }

  lemma RelayOrder(s: Server.Server)
    requires Server.Ok(s)
    ensures s.pair.up.put <= s.pair.down.got && s.pair.down.put <= s.pair.up.got
    ensures s.phase.Relaying? ==>
            && s.pair.down.got == s.pair.up.put + HeldUp(s)
            && s.pair.up.got == s.pair.down.put + HeldDown(s)
  {
    hide Reaches, Serialize, Stream, Server.Parsed, Server.Ordered, Server.Scripted, Server.Wired;
  }

  lemma {:induction false} PayloadTravelsUp(c: Chain, i: nat)
    requires ChainOk(c) && i < |c.hops|
    ensures c.hops[i].server.pair.up.put <= c.hops[0].server.pair.down.got
  {
    hide Reaches, Serialize, Stream, DownGot, DownPut, UpGot, UpPut, ChainOk, LinkOk, HopOk, HeardDown, Server.Ok;
    var s := c.hops[i].server;
    HopIsOk(c, i);
    ServerIsOk(c.hops[i], i == |c.hops| - 1);
    RelayOrder(s);
    if s.phase.Idle? {
      RelayingIsConnected(s);
    } else if i > 0 {
      NeighboursAgree(c, i);
      PayloadTravelsUp(c, i - 1);
      PrefixTransitive(s.pair.up.put, s.pair.down.got, c.hops[i - 1].server.pair.up.put);
      PrefixTransitive(s.pair.up.put, c.hops[i - 1].server.pair.up.put, c.hops[0].server.pair.down.got);
    }
  }

  lemma {:induction false} PayloadTravelsDown(c: Chain, i: nat)
    requires ChainOk(c) && i < |c.hops|
    ensures c.hops[i].server.pair.down.put <= c.hops[|c.hops| - 1].server.pair.up.got
    decreases |c.hops| - i
  {
    hide Reaches, Serialize, Stream, DownGot, DownPut, UpGot, UpPut, ChainOk, LinkOk, HopOk, HeardUp, Server.Ok;
    var s, last := c.hops[i].server, c.hops[|c.hops| - 1].server;
    HopIsOk(c, i);
    ServerIsOk(c.hops[i], i == |c.hops| - 1);
    RelayOrder(s);
    RelayingIsConnected(s);
    if i < |c.hops| - 1 && s.phase.Relaying? {
      var next := c.hops[i + 1].server;
      RelayingReached(c, i);
      NeighboursAgree(c, i + 1);
      PayloadTravelsDown(c, i + 1);
      PrefixTransitive(s.pair.down.put, s.pair.up.got, next.pair.down.put);
      PrefixTransitive(s.pair.down.put, next.pair.down.put, last.pair.up.got);
    }
  }

  lemma RelayingReached(c: Chain, i: nat)
    requires ChainOk(c) && i + 1 < |c.hops| && c.hops[i].server.phase.Relaying?
    ensures c.hops[i].upstream.Socks? && !c.hops[i + 1].server.phase.Idle?
  {
    hide Reaches, Serialize, Stream, DownGot, DownPut, UpGot, UpPut, ChainOk, LinkOk, Server.Ok, Client.Ok;
    HopIsOk(c, i);
    RelayingIsConnected(c.hops[i].server);
    AnswerIsAsked(c.hops[i].server);
    RelayHasResponse(c.hops[i]);
    GrantedIsReached(c, i);
  }

  /** In every reachable state: what the destination was sent is a prefix of what the application wrote
      right behind its handshake, and what the application was sent behind the first hop's handshake
      is a prefix of what the destination wrote. */
  lemma PayloadIsPrefix(c: Chain)
    requires Reachable(c)
    ensures c.hops != []
    ensures var first, last := c.hops[0].server, c.hops[|c.hops| - 1].server;
      && first.offer + first.query + last.pair.up.put <= c.app
      && first.pair.down.put <= c.target
  {
    hide Reaches, Serialize, Stream, ChainOk, HopOk, Server.Ok;
    ReachableOk(c);
    HasHops(c);
    var k := |c.hops| - 1;
    var first, last := c.hops[0].server, c.hops[k].server;
    PayloadTravelsUp(c, k);
    PayloadTravelsDown(c, 0);
    HopIsOk(c, 0);
    HopIsOk(c, k);
    LastIsDirect(c.hops[k]);
    assert first.offer + first.query + last.pair.up.put <= DownGot(first);
    PrefixTransitive(first.offer + first.query + last.pair.up.put, DownGot(first), c.app);
    PrefixTransitive(first.pair.down.put, last.pair.up.got, c.target);
  }

  lemma HasHops(c: Chain)
    requires ChainOk(c)
    ensures c.hops != []
  {
  }

  lemma LastIsDirect(h: Hop)
    requires HopOk(h, true)
    ensures !h.upstream.Socks? && UpGot(h) == h.server.pair.up.got && UpPut(h) == h.server.pair.up.put
  {
    hide Server.Ok, Client.Ok;
    assert [] + h.server.pair.up.got == h.server.pair.up.got && [] + h.server.pair.up.put == h.server.pair.up.put;
  }

  // ----- and none is lost -----

  /** Written toward the server of hop `i` and not read by it yet. */
  function Unread(c: Chain, i: nat): bytes
    requires i < |c.hops| && |DownGot(c.hops[i].server)| <= |Toward(c, i)|
  {
    Toward(c, i)[|DownGot(c.hops[i].server)|..]
  }

  /** All payload between the application and what hop `i` has written upstream, oldest first: what hop
      `i` dropped or holds in its buffer, what is on the way to it, and the same for the hops before
      it. */
  ghost function Travelling(c: Chain, i: nat): bytes
    requires i < |c.hops| && forall j :: 0 <= j <= i ==> LinkOk(c, j)
  {
    assert LinkOk(c, i);
    HeldUp(c.hops[i].server) + Unread(c, i) + (if i == 0 then [] else Travelling(c, i - 1))
  }

  /** What a relaying hop wrote as payload is what the next one took as payload and what is unread. */
  lemma LinkConserves(c: Chain, i: nat)
    requires ChainOk(c) && 0 < i < |c.hops|
    requires c.hops[i - 1].server.phase.Relaying? && c.hops[i].server.phase.Relaying? && LinkOk(c, i)
    ensures c.hops[i - 1].server.pair.up.put == c.hops[i].server.pair.down.got + Unread(c, i)
  {
    hide Reaches, Serialize, Stream, ChainOk, Server.Ok, Client.Ok, HeardDown;
    var h, g := c.hops[i - 1], c.hops[i];
    NeighboursAgree(c, i);
    RelayHasResponse(h);
    Client.GrantedSent(h.upstream.client) by { ServerIsOk(h, false); ClientParts(h.upstream.client); }
    ServerIsOk(g, i == |c.hops| - 1);
    RelayingHeard(g.server);
    var hs := g.server.offer + g.server.query;
    assert UpPut(h) == hs + h.server.pair.up.put;
    SliceAppend(hs, g.server.pair.down.got, h.server.pair.up.put);
  }

  lemma ClientParts(x: Client.Client)
    requires Client.Ok(x)
    ensures Client.Parsed(x) && Client.Ordered(x) && Client.Logged(x) && Client.Wired(x)
  {
  }

  lemma RelayingHeard(s: Server.Server)
    requires Server.Ok(s) && s.phase.Relaying?
    ensures s.hello.Some? && s.request.Some?
  {
    hide Reaches, Serialize, Stream, Server.Parsed, Server.Scripted, Server.Wired, Server.Owned;
  }

  lemma SliceAppend(x: bytes, y: bytes, z: bytes)
    requires x + y <= x + z
    ensures z == y + (x + z)[|x + y|..]
  {
    PrefixCancels(x, y, z);
    assert (x + z)[|x + y|..] == z[|y|..];
  }

  lemma Regroup(hs: bytes, put: bytes, held: bytes, unread: bytes, older: bytes)
    ensures hs + ((put + held) + unread) + older == hs + put + (held + unread + older)
  {
  }

  lemma {:induction false} ConservedUpTo(c: Chain, i: nat)
    requires ChainOk(c) && i < |c.hops| && forall j :: 0 <= j <= i ==> LinkOk(c, j) && c.hops[j].server.phase.Relaying?
    ensures var s := c.hops[0].server;
      c.app == s.offer + s.query + c.hops[i].server.pair.up.put + Travelling(c, i)
  {
    hide Reaches, Serialize, Stream, ChainOk, HopOk, LinkOk, Server.Ok, Toward, Unread, HeldUp;
    var first, s := c.hops[0].server, c.hops[i].server;
    var hs, put, held := first.offer + first.query, s.pair.up.put, HeldUp(s);
    HopIsOk(c, i);
    ServerIsOk(c.hops[i], i == |c.hops| - 1);
    RelayOrder(s);
    assert LinkOk(c, i) && c.hops[i].server.phase.Relaying?;
    if i == 0 {
      FirstUnread(c);
      Regroup(hs, put, held, Unread(c, 0), []);
      assert hs + (s.pair.down.got + Unread(c, 0)) + [] == hs + s.pair.down.got + Unread(c, 0);
    } else {
      ConservedUpTo(c, i - 1);
      assert c.hops[i - 1].server.phase.Relaying?;
      LinkConserves(c, i);
      Regroup(hs, put, held, Unread(c, i), Travelling(c, i - 1));
    }
  }

  lemma FirstUnread(c: Chain)
    requires c.hops != [] && LinkOk(c, 0)
    ensures c.app == DownGot(c.hops[0].server) + Unread(c, 0)
  {
  }

  /** Once all hops relay, every byte the application wrote behind its handshake is, in order, delivered,
      in one of the buffers and links on the way, or dropped by the failed write of one hop. */
  lemma NothingLost(c: Chain)
    requires Reachable(c) && forall j :: 0 <= j < |c.hops| ==> c.hops[j].server.phase.Relaying?
    ensures c.hops != [] && forall j :: 0 <= j < |c.hops| ==> LinkOk(c, j)
    ensures var first, last := c.hops[0].server, c.hops[|c.hops| - 1].server;
      c.app == first.offer + first.query + last.pair.up.put + Travelling(c, |c.hops| - 1)
  {
    hide Reaches, Serialize, Stream, HopOk, Server.Ok;
    ReachableOk(c);
    ConservedUpTo(c, |c.hops| - 1);
  }

  // ----- nor on the way back -----

  /** Written toward the upstream side of hop `i` and not read by it yet. */
  function UnreadBack(c: Chain, i: nat): bytes
    requires i < |c.hops| && |UpGot(c.hops[i])| <= |Back(c, i)|
  {
    Back(c, i)[|UpGot(c.hops[i])|..]
  }

  /** All payload between the destination and what hop `i` has written downstream, oldest first. */
  ghost function Returning(c: Chain, i: nat): bytes
    requires i < |c.hops| && forall j :: i <= j < |c.hops| ==> LinkOk(c, j)
    decreases |c.hops| - i
  {
    assert LinkOk(c, i);
    HeldDown(c.hops[i].server) + UnreadBack(c, i)
    + (if i == |c.hops| - 1 then [] else Returning(c, i + 1))
  }

  lemma RelayingSent(s: Server.Server)
    requires Server.Ok(s) && s.phase.Relaying?
    ensures |s.said| == 2 && s.sent == Serialize(s.said[0]) + Serialize(s.said[1])
  {
    hide Reaches, Serialize, Stream, Server.Parsed, Server.Ordered, Server.Scripted, Server.Wired, Server.Owned;
    Server.SuccessSent(s);
    ConnectedSays(s);
  }

  lemma BackLinkConserves(c: Chain, i: nat)
    requires ChainOk(c) && i + 1 < |c.hops|
    requires c.hops[i].server.phase.Relaying? && c.hops[i + 1].server.phase.Relaying? && LinkOk(c, i)
    ensures c.hops[i + 1].server.pair.down.put == c.hops[i].server.pair.up.got + UnreadBack(c, i)
  {
    hide Reaches, Serialize, Stream, ChainOk, HopOk, Server.Ok, Client.Ok, HeardUp;
    var h, g := c.hops[i], c.hops[i + 1];
    NeighboursAgree(c, i + 1);
    RelayHasResponse(h);
    ServerIsOk(h, false);
    ServerIsOk(g, i + 1 == |c.hops| - 1);
    ClientReads(h.upstream.client);
    RelayingSent(g.server);
    SliceAppend(g.server.sent, h.server.pair.up.got, g.server.pair.down.put);
  }

  lemma LastUnread(c: Chain)
    requires c.hops != [] && !c.hops[|c.hops| - 1].upstream.Socks? && LinkOk(c, |c.hops| - 1)
    ensures c.target == c.hops[|c.hops| - 1].server.pair.up.got + UnreadBack(c, |c.hops| - 1)
  {
    assert UpGot(c.hops[|c.hops| - 1]) == c.hops[|c.hops| - 1].server.pair.up.got;
  }

  lemma {:induction false} ConservedFrom(c: Chain, i: nat)
    requires ChainOk(c) && i < |c.hops|
    requires forall j :: i <= j < |c.hops| ==> LinkOk(c, j) && c.hops[j].server.phase.Relaying?
    ensures c.target == c.hops[i].server.pair.down.put + Returning(c, i)
    decreases |c.hops| - i
  {
    hide Reaches, Serialize, Stream, ChainOk, HopOk, LinkOk, Server.Ok, Back, UnreadBack, HeldDown;
    var s := c.hops[i].server;
    var put, held := s.pair.down.put, HeldDown(s);
    HopIsOk(c, i);
    ServerIsOk(c.hops[i], i == |c.hops| - 1);
    RelayOrder(s);
    assert LinkOk(c, i) && c.hops[i].server.phase.Relaying?;
    if i == |c.hops| - 1 {
      LastIsDirect(c.hops[i]);
      LastUnread(c);
      Regroup([], put, held, UnreadBack(c, i), []);
    } else {
      ConservedFrom(c, i + 1);
      assert c.hops[i + 1].server.phase.Relaying?;
      BackLinkConserves(c, i);
      Regroup([], put, held, UnreadBack(c, i), Returning(c, i + 1));
    }
  }

  /** Once all hops relay, every byte the destination wrote is, in order, delivered to the application, in
      one of the buffers and links on the way, or dropped by the failed write of one hop. */
  lemma NothingLostBack(c: Chain)
    requires Reachable(c) && forall j :: 0 <= j < |c.hops| ==> c.hops[j].server.phase.Relaying?
    ensures c.hops != [] && forall j :: 0 <= j < |c.hops| ==> LinkOk(c, j)
    ensures c.target == c.hops[0].server.pair.down.put + Returning(c, 0)
  {
    hide Reaches, Serialize, Stream, HopOk, Server.Ok;
    ReachableOk(c);
    ConservedFrom(c, 0);
  }
}
