/** How a chain closes: with no step left nothing stays open behind the first hop, and one closed relay
    closes its neighbours. */
module Closing {
  import opened Packets
  import opened Base
  import Relay
  import Server
  import Client
  import Direct
  import opened Chain
  import opened Links
  import opened EndToEnd
  import opened Completion

  // ----- with no step left -----

  /** No step is left, failing ones included, except that the two ends may write more. */
  ghost predicate Exhausted(c: Chain) {
    forall d, m :: Step(c, d, m) ==> m.AppWrites? || m.TargetWrites?
  }

  /** An event of a server that takes no bytes is a step of the chain. */
  lemma ServerCanStep(c: Chain, i: nat, e: Server.Event)
    requires i < |c.hops| && LinkOk(c, i) && Server.Enabled(c.hops[i].server, e) && !e.Accept? && !e.Answer?
    requires DownTaken(e) == [] && UpTaken(e) == []
    ensures !Exhausted(c)
  {
    hide DownGot, UpGot, Toward, Back, Server.Apply, Server.Enabled;
    var s := c.hops[i].server;
    assert DownGot(s) + [] == DownGot(s) && UpGot(c.hops[i]) + [] == UpGot(c.hops[i]);
    var d := c.(hops := c.hops[i := AfterServer(c.hops[i], Server.Apply(s, e), i == |c.hops| - 1)]);
    assert Step(c, d, Serve(i, e));
  }

  lemma ClientCanStep(c: Chain, i: nat, e: Client.Event)
    requires i + 1 < |c.hops| && LinkOk(c, i)
    requires c.hops[i].upstream.Socks? && Client.Enabled(c.hops[i].upstream.client, e)
    requires !e.Connect? && Taken(e) == []
    ensures !Exhausted(c)
  {
    hide DownGot, UpGot, Toward, Back, Client.Apply, Client.Enabled;
    var x := c.hops[i].upstream.client;
    assert UpGot(c.hops[i]) + [] == UpGot(c.hops[i]);
    var d := c.(hops := c.hops[i := AfterClient(c.hops[i], Client.Apply(x, e))]);
    assert Step(c, d, Ask(i, e));
  }

  /** A client that can be given up is finished in an exhausted chain. */
  lemma ClientEnds(c: Chain, i: nat)
    requires ChainOk(c) && Exhausted(c) && i + 1 < |c.hops| && c.hops[i].upstream.Socks?
    ensures c.hops[i].upstream.client.phase.Finished?
  {
    hide ChainOk, HopOk, LinkOk, Exhausted;
    var x := c.hops[i].upstream.client;
    HopIsOk(c, i);
    ClientNeverRejected(c, i);
    if x.phase.Connecting? {
      ClientCanStep(c, i, Client.ConnectFails(1));
    } else if Client.Sending(x) {
      ClientCanStep(c, i, Client.PutFails(1));
    } else if Client.Reading(x) {
      ClientCanStep(c, i, Client.ReceiveFails(1));
    }
  }

  lemma LastEnds(c: Chain)
    requires ChainOk(c) && c.hops != [] && c.hops[|c.hops| - 1].server.phase.AwaitUpstream?
    requires c.hops[|c.hops| - 1].upstream.Direct? && c.hops[|c.hops| - 1].upstream.answer.None?
    ensures !Exhausted(c)
  {
    hide ChainOk, Server.Apply;
    var i := |c.hops| - 1;
    var h := c.hops[i];
    var o := if Direct.KnownKind(h.upstream.target) then Outcome(1, None) else Outcome(0, None);
    var d := c.(hops := c.hops[i := Hop(Server.Apply(h.server, Server.Answer(o)), h.upstream.(answer := Some(o)))]);
    assert Step(c, d, Conclude(o));
  }

  lemma NobodyWaits(c: Chain, i: nat)
    requires ChainOk(c) && Exhausted(c) && i < |c.hops|
    ensures !c.hops[i].server.phase.AwaitUpstream?
  {
    hide ChainOk, Exhausted, Server.Ok, Client.Ok, Direct.Possible;
    var h := c.hops[i];
    HopIsOk(c, i);
    if h.server.phase.AwaitUpstream? {
      AwaitingIsAsked(h.server);
      if h.upstream.Socks? {
        ClientEnds(c, i);
        AnsweredWhenFinished(h.upstream.client);
      } else {
        LastEnds(c);
      }
    }
  }

  lemma EverybodySettles(c: Chain, i: nat)
    requires ChainOk(c) && Exhausted(c) && i < |c.hops| && !c.hops[i].server.phase.Idle?
    ensures Server.Settled(c.hops[i].server)
  {
    hide ChainOk, LinkOk, HopOk, Exhausted, Server.Enabled, Server.Ok;
    HopIsOk(c, i);
    ServerIsOk(c.hops[i], i == |c.hops| - 1);
    NobodyWaits(c, i);
    var s := c.hops[i].server;
    if !Server.Settled(s) {
      Server.FailingIsEnabled(s);
      ServerCanStep(c, i, Server.FailingEvent(s));
    }
  }

  /** What leaves the downstream transport of a settled server open. */
  lemma OpenIsBadRequest(s: Server.Server)
    requires Server.Ok(s) && Server.Settled(s)
    ensures s.phase.Silent? <==> UnknownKind(s.query)
    ensures s.phase.Crashed? && s.outcome.None? ==> WrappingDomain(s.query)
  {
    hide Reaches, Serialize, Stream, Server.Scripted, Server.Wired, Server.Owned;
    Server.SilentIsUnknown(s);
    UndefinedExactly(true, s.query);
  }

  /** In a chain with no step left at all, every contacted hop has closed both its transports; only the
      first may be left with the application's transport open, and only by an unknown address type or
      a wrapping domain length in the application's own request. */
  lemma ExhaustedIsClosed(c: Chain, i: nat)
    requires Reachable(c) && Exhausted(c) && i < |c.hops| && !c.hops[i].server.phase.Idle?
    ensures HopClosed(c, i)
  {
    hide ChainOk, Exhausted, Reachable, HopClosed;
    ReachableOk(c);
    ExhaustedHop(c, i);
  }

  /** Hop `i` has closed all but what a bad request of the application leaves open. */
  ghost predicate HopClosed(c: Chain, i: nat)
    requires i < |c.hops|
  {
    var s := c.hops[i].server;
    && !s.pair.up.open
    && (s.pair.down.open ==> i == 0 && (UnknownKind(s.query) || WrappingDomain(s.query)))
    && (UnknownKind(s.query) ==> s.pair.down.open)
    && (c.hops[i].upstream.Socks? ==> c.hops[i].upstream.client.phase.Finished?)
  }

  lemma ExhaustedHop(c: Chain, i: nat)
    requires ChainOk(c) && Exhausted(c) && i < |c.hops| && !c.hops[i].server.phase.Idle?
    ensures HopClosed(c, i)
  {
    hide ChainOk, LinkOk, HopOk, Exhausted, Server.Ok, Server.Settled, UnknownKind, WrappingDomain;
    HopIsOk(c, i);
    ServerIsOk(c.hops[i], i == |c.hops| - 1);
    EverybodySettles(c, i);
    Server.SettledIsClosed(c.hops[i].server);
    OpenIsBadRequest(c.hops[i].server);
    NoDeadEndsOk(c, i);
    RejectNeedsOffer(c.hops[i].server);
    if c.hops[i].upstream.Socks? {
      SocksIsNotLast(c.hops[i], i == |c.hops| - 1);
      ClientEnds(c, i);
    }
  }

  // ----- one closed relay closes its neighbours -----

  /** The neighbour at the other end of the transport that a direction of hop `i` reads from has closed. */
  predicate PeerClosed(c: Chain, i: nat, isUpward: bool)
    requires i < |c.hops|
  {
    if isUpward then i > 0 && !c.hops[i - 1].server.pair.up.open
    else i + 1 < |c.hops| && !c.hops[i + 1].server.pair.down.open
  }

  /** Nothing is left to read in a direction of hop `i`. */
  predicate AllRead(c: Chain, i: nat, isUpward: bool)
    requires i < |c.hops|
  {
    if isUpward then DownGot(c.hops[i].server) == Toward(c, i) else UpGot(c.hops[i]) == Back(c, i)
  }

  /** Relaying between well-behaved ends: a stream ends when its transport is closed or, everything having
      been read, when the neighbour has closed it; a write fails on a closed or broken transport. */
  predicate Ordinary(c: Chain, m: Move) {
    && m.Serve? && m.hop < |c.hops| && m.event.Relayed?
    && var i, isUpward := m.hop, m.event.isUpward;
       var w := Relay.WayOf(c.hops[i].server.pair, isUpward);
       match m.event.event
       case TakeNone => !w.from.open || (PeerClosed(c, i, isUpward) && AllRead(c, i, isUpward))
       case PutFails => !w.to.open || w.to.broken
       case _ => true
  }

  ghost predicate Quiet(c: Chain) {
    forall d, m :: Ordinary(c, m) ==> !Step(c, d, m)
  }

  ghost predicate AllRelay(c: Chain) {
    forall i :: 0 <= i < |c.hops| ==> c.hops[i].server.phase.Relaying?
  }

  predicate PairClosed(h: Hop) {
    !h.server.pair.down.open && !h.server.pair.up.open
  }

  predicate BothStopped(h: Hop) {
    h.server.pair.upward.Stopped? && h.server.pair.downward.Stopped?
  }

  lemma RelayCanStep(c: Chain, i: nat, isUpward: bool, e: Relay.Event)
    requires i < |c.hops| && LinkOk(c, i) && c.hops[i].server.phase.Relaying?
    requires Relay.Enabled(Relay.WayOf(c.hops[i].server.pair, isUpward), e)
    requires Ordinary(c, Serve(i, Server.Relayed(isUpward, e)))
    requires DownGot(c.hops[i].server) + DownTaken(Server.Relayed(isUpward, e)) <= Toward(c, i)
    requires UpGot(c.hops[i]) + UpTaken(Server.Relayed(isUpward, e)) <= Back(c, i)
    ensures !Quiet(c)
  {
    hide DownGot, UpGot, Toward, Back, Server.Apply, Relay.Enabled, Ordinary;
    var s, re := c.hops[i].server, Server.Relayed(isUpward, e);
    assert Server.Enabled(s, re);
    var d := c.(hops := c.hops[i := AfterServer(c.hops[i], Server.Apply(s, re), i == |c.hops| - 1)]);
    assert Step(c, d, Serve(i, re));
  }

  /** The next byte to read in a direction. */
  lemma UnreadByte(c: Chain, i: nat, isUpward: bool) returns (data: bytes)
    requires i < |c.hops| && LinkOk(c, i) && !AllRead(c, i, isUpward)
    ensures |data| == 1
    ensures DownGot(c.hops[i].server) + (if isUpward then data else []) <= Toward(c, i)
    ensures UpGot(c.hops[i]) + (if isUpward then [] else data) <= Back(c, i)
  {
    hide DownGot, UpGot, Toward, Back;
    var got := if isUpward then DownGot(c.hops[i].server) else UpGot(c.hops[i]);
    var line := if isUpward then Toward(c, i) else Back(c, i);
    data := [line[|got|]];
    assert got + data == line[..|got| + 1];
    assert DownGot(c.hops[i].server) + [] == DownGot(c.hops[i].server) && UpGot(c.hops[i]) + [] == UpGot(c.hops[i]);
  }

  /** A direction whose stream has ended goes on until it stops. */
  lemma EndedStops(c: Chain, i: nat, isUpward: bool)
    requires Quiet(c) && i < |c.hops| && LinkOk(c, i) && c.hops[i].server.phase.Relaying?
    requires PeerClosed(c, i, isUpward) || !Relay.WayOf(c.hops[i].server.pair, isUpward).from.open
    ensures Relay.WayOf(c.hops[i].server.pair, isUpward).state.Stopped?
  {
    hide DownGot, UpGot, Toward, Back, Quiet, PeerClosed, AllRead;
    var w := Relay.WayOf(c.hops[i].server.pair, isUpward);
    assert DownGot(c.hops[i].server) + [] == DownGot(c.hops[i].server) && UpGot(c.hops[i]) + [] == UpGot(c.hops[i]);
    match w.state
    case Stopped =>
    case Reading =>
      if w.from.open && !AllRead(c, i, isUpward) {
        var data := UnreadByte(c, i, isUpward);
        RelayCanStep(c, i, isUpward, Relay.TakeSome(data));
      } else {
        RelayCanStep(c, i, isUpward, Relay.TakeNone);
      }
    case Writing(left) =>
      RelayCanStep(c, i, isUpward,
        if left == [] then Relay.PutAll else if w.to.open && !w.to.broken then Relay.PutSome(1) else Relay.PutFails);
    case _ =>
      RelayCanStep(c, i, isUpward, Relay.Callback);
  }

  lemma StoppedIsClosed(s: Server.Server)
    requires Server.Ok(s) && s.phase.Relaying?
    ensures s.pair.down.open == s.pair.up.open
    ensures s.pair.upward.Stopped? || s.pair.downward.Stopped? ==> !s.pair.down.open && !s.pair.up.open
  {
    hide Reaches, Serialize, Stream, Server.Parsed, Server.Ordered, Server.Scripted, Server.Wired;
  }

  /** A hop with one ended direction stops both and closes both its transports. */
  lemma HopStops(c: Chain, i: nat, isUpward: bool)
    requires ChainOk(c) && Quiet(c) && i < |c.hops| && c.hops[i].server.phase.Relaying?
    requires PeerClosed(c, i, isUpward) || !c.hops[i].server.pair.down.open
    ensures PairClosed(c.hops[i]) && BothStopped(c.hops[i])
  {
    hide ChainOk, LinkOk, HopOk, Quiet, PeerClosed, Server.Ok;
    var s := c.hops[i].server;
    HopIsOk(c, i);
    ServerIsOk(c.hops[i], i == |c.hops| - 1);
    StoppedIsClosed(s);
    EndedStops(c, i, isUpward);
    EndedStops(c, i, !isUpward);
  }

  lemma {:induction false} SpreadsUp(c: Chain, i: nat, j: nat)
    requires ChainOk(c) && Quiet(c) && AllRelay(c) && i <= j < |c.hops| && PairClosed(c.hops[i])
    ensures PairClosed(c.hops[j]) && BothStopped(c.hops[j])
    decreases j - i
  {
    hide ChainOk, Quiet;
    if i < j {
      SpreadsUp(c, i, j - 1);
    }
    HopStops(c, j, true);
  }

  lemma {:induction false} SpreadsDown(c: Chain, i: nat, j: nat)
    requires ChainOk(c) && Quiet(c) && AllRelay(c) && j <= i < |c.hops| && PairClosed(c.hops[i])
    ensures PairClosed(c.hops[j]) && BothStopped(c.hops[j])
    decreases i - j
  {
    hide ChainOk, Quiet;
    if j < i {
      SpreadsDown(c, i, j + 1);
    }
    HopStops(c, j, false);
  }

  /** Once a relaying chain has come to rest with one hop's pair closed, every hop has stopped both loops
      and closed both transports. */
  lemma CloseSpreads(c: Chain, i: nat, j: nat)
    requires Reachable(c) && Quiet(c) && AllRelay(c) && i < |c.hops| && j < |c.hops| && PairClosed(c.hops[i])
    ensures PairClosed(c.hops[j]) && BothStopped(c.hops[j])
  {
    hide ChainOk, Quiet, AllRelay, PairClosed, BothStopped, Reachable;
    ReachableOk(c);
    if i <= j {
      SpreadsUp(c, i, j);
    } else {
      SpreadsDown(c, i, j);
    }
  }
}
