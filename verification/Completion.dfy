/** How a chain's handshake ends when no transport operation fails: it cannot get stuck, and all hops
    end the same way, which the last hop's direct connection decides. */
module Completion {
  import opened Packets
  import opened Base
  import Relay
  import Server
  import Client
  import Direct
  import opened Chain
  import opened Links
  import opened EndToEnd

  // ----- branches no chain takes -----

  lemma UnconnectedHasHeardNothing(x: Client.Client)
    requires Client.Ok(x) && !Client.WasConnected(x)
    ensures x.selection.None? && !x.phase.Silent? && !x.phase.Crashed?
    ensures Answered(x).Some? ==> Answered(x).value.error != 0
  {
    hide Reaches, Serialize, Stream, Client.Wired;
  }

  lemma NullMeansRejected(x: Client.Client)
    requires Client.Ok(x) && Answered(x) == Some(Outcome(0, None))
    ensures x.selection.Some? && !Client.Accepted(x)
  {
    hide Reaches, Serialize, Stream, Client.Wired;
  }

  lemma ClientNeverRejected(c: Chain, i: nat)
    requires ChainOk(c) && i + 1 < |c.hops| && c.hops[i].upstream.Socks?
    ensures var x := c.hops[i].upstream.client;
      && !x.phase.Silent? && !x.phase.Crashed?
      && (x.selection.Some? ==> Client.Accepted(x))
      && Answered(x) != Some(Outcome(0, None))
  {
    hide Reaches, Serialize, Stream, LinkOk, HopOk, Client.Ok, HeardUp, DownGot, DownPut, UpGot, UpPut;
    var x := c.hops[i].upstream.client;
    HopIsOk(c, i);
    ServerIsOk(c.hops[i], false);
    if Client.WasConnected(x) {
      assert Reached(c.hops[i]);
      NeighboursAgree(c, i + 1);
      if Answered(x) == Some(Outcome(0, None)) {
        NullMeansRejected(x);
      }
    } else {
      UnconnectedHasHeardNothing(x);
    }
  }

  /** No hop's upstream answers with neither an error nor a transport. */
  lemma NeverNull(c: Chain, i: nat)
    requires ChainOk(c) && i < |c.hops|
    ensures c.hops[i].server.outcome != Some(Outcome(0, None))
  {
    hide Reaches, Serialize, Stream, ChainOk, LinkOk, Server.Ok, Client.Ok, Direct.Possible;
    var h := c.hops[i];
    HopIsOk(c, i);
    if h.server.outcome.Some? {
      AnswerIsAsked(h.server);
      if h.upstream.Socks? {
        ClientNeverRejected(c, i);
      } else {
        AskedIsWellFormed(h.server);
        DirectIsWellFormed(h.upstream.target, h.upstream.answer.value);
      }
    }
  }

  lemma RejectNeedsOffer(s: Server.Server)
    requires Server.Ok(s)
    ensures s.phase == Server.Sending(Server.Reject) ==> s.hello.Some? && !Server.OffersNoAuth(s)
    ensures s.phase.Crashed? && s.outcome.Some? ==> s.outcome == Some(Outcome(0, None))
  {
    hide Reaches, Serialize, Stream, Server.Parsed, Server.Wired, Server.Owned;
  }

  /** In every reachable state: behind the first hop, which faces the application, no server rejects a
      method list, meets an unknown address type or a wrapping domain, and no request anywhere in the
      chain is answered by another method, an unknown type or a null transport. */
  lemma NoDeadEnds(c: Chain, i: nat)
    requires Reachable(c) && i < |c.hops|
    ensures var s := c.hops[i].server;
      && (i > 0 ==> s.phase != Server.Sending(Server.Reject) && !s.phase.Silent? && !s.phase.Crashed?)
      && s.outcome != Some(Outcome(0, None))
      && (c.hops[i].upstream.Socks? ==>
            var x := c.hops[i].upstream.client;
            !x.phase.Silent? && !x.phase.Crashed? && (x.selection.Some? ==> Client.Accepted(x)))
  {
    hide Reaches, Serialize, Stream, ChainOk, LinkOk, HopOk, Server.Ok;
    ReachableOk(c);
    NoDeadEndsOk(c, i);
  }

  lemma NoDeadEndsOk(c: Chain, i: nat)
    requires ChainOk(c) && i < |c.hops|
    ensures var s := c.hops[i].server;
      && (i > 0 ==> s.phase != Server.Sending(Server.Reject) && !s.phase.Silent? && !s.phase.Crashed?)
      && s.outcome != Some(Outcome(0, None))
      && (c.hops[i].upstream.Socks? ==>
            var x := c.hops[i].upstream.client;
            !x.phase.Silent? && !x.phase.Crashed? && (x.selection.Some? ==> Client.Accepted(x)))
  {
    hide Reaches, Serialize, Stream, ChainOk, LinkOk, HopOk, Server.Ok, HeardDown;
    var s := c.hops[i].server;
    HopIsOk(c, i);
    ServerIsOk(c.hops[i], i == |c.hops| - 1);
    NeverNull(c, i);
    RejectNeedsOffer(s);
    if c.hops[i].upstream.Socks? {
      SocksIsNotLast(c.hops[i], i == |c.hops| - 1);
      ClientNeverRejected(c, i);
    }
    if i > 0 && !s.phase.Idle? {
      NeighboursAgree(c, i);
    }
  }

  lemma SocksIsNotLast(h: Hop, isLast: bool)
    requires HopOk(h, isLast) && h.upstream.Socks?
    ensures !isLast
  {
  }

  // ----- runs without transport errors -----

  predicate Clean(m: Move) {
    match m
    case Serve(_, e) => !e.ReceiveFails? && !e.PutFails?
    case Ask(_, e) => !e.ConnectFails? && !e.ReceiveFails? && !e.PutFails?
    case _ => true
  }

  /** A server that closed has said all it owed, which was not a success. */
  ghost predicate CleanServer(s: Server.Server) {
    s.phase.Closed? ==>
      && s.unsent == []
      && s.hello.Some? && (Server.OffersNoAuth(s) ==> s.request.Some? && !Server.Connected(s))
  }

  /** A request that ended has been answered. */
  ghost predicate CleanClient(x: Client.Client) {
    x.phase.Finished? ==> x.unsent == [] && x.selection.Some? && (Client.Accepted(x) ==> x.response.Some?)
  }

  ghost predicate CleanHop(h: Hop) {
    CleanServer(h.server) && (h.upstream.Socks? ==> CleanClient(h.upstream.client))
  }

  ghost predicate CleanChain(c: Chain) {
    ChainOk(c) && forall i :: 0 <= i < |c.hops| ==> CleanHop(c.hops[i])
  }

  lemma ServerStaysClean(s: Server.Server, e: Server.Event)
    requires Server.Ok(s) && CleanServer(s) && Server.Enabled(s, e) && !e.ReceiveFails? && !e.PutFails?
    ensures CleanServer(Server.Apply(s, e))
  {
    hide Reaches, Serialize, Stream, Feed, Server.Parsed, Server.Wired, Server.Owned, Relay.Apply, Relay.WithWay;
  }

  lemma ClientStaysClean(x: Client.Client, e: Client.Event)
    requires Client.Ok(x) && CleanClient(x) && Client.Enabled(x, e)
    requires !e.ConnectFails? && !e.ReceiveFails? && !e.PutFails?
    ensures CleanClient(Client.Apply(x, e))
  {
    hide Reaches, Serialize, Stream, Feed, Client.Parsed, Client.Wired;
  }

  lemma ServeClean(h: Hop, e: Server.Event, isLast: bool)
    requires HopOk(h, isLast) && CleanHop(h) && Server.Enabled(h.server, e) && !e.ReceiveFails? && !e.PutFails?
    ensures CleanHop(AfterServer(h, Server.Apply(h.server, e), isLast))
    ensures CleanHop(Hop(Server.Apply(h.server, e), h.upstream))
  {
    hide CleanServer, CleanClient, Server.Ok, Server.Apply, Server.Enabled, UpstreamOk;
    var t := Server.Apply(h.server, e);
    ServerStaysClean(h.server, e);
    if h.upstream.NotAsked? && t.asked != [] {
      FreshClientIsClean(t.asked[0]);
    }
  }

  lemma AskClean(h: Hop, e: Client.Event)
    requires HopOk(h, false) && CleanHop(h) && h.upstream.Socks? && Client.Enabled(h.upstream.client, e)
    requires !e.ConnectFails? && !e.ReceiveFails? && !e.PutFails?
    ensures CleanHop(AfterClient(h, Client.Apply(h.upstream.client, e)))
  {
    hide CleanServer, CleanClient, Server.Ok, Server.Apply, Client.Ok, Client.Apply, Client.Enabled;
    var y := Client.Apply(h.upstream.client, e);
    ClientStaysClean(h.upstream.client, e);
    if Answered(y).Some? && h.server.phase.AwaitUpstream? {
      ServerStaysClean(h.server, Server.Answer(Answered(y).value));
    }
  }

  lemma CleanStep(c: Chain, d: Chain, m: Move)
    requires CleanChain(c) && Step(c, d, m) && Clean(m)
    ensures CleanChain(d)
  {
    hide HopOk, CleanHop, DownGot, DownPut, UpGot, UpPut, Reached, ChainOk, AfterServer, AfterClient,
      Server.Apply, Server.Enabled, Client.Apply, Client.Enabled, Direct.Possible, Toward, Back;
    StepOk(c, d, m);
    match m
    case Serve(i, e) =>
      HopIsOk(c, i);
      ServeClean(c.hops[i], e, i == |c.hops| - 1);
    case Ask(i, e) =>
      HopIsOk(c, i);
      AskClean(c.hops[i], e);
      if e.Connect? {
        HopIsOk(c, i + 1);
        ServeClean(c.hops[i + 1], Server.Accept, i + 1 == |c.hops| - 1);
      }
    case Conclude(o) =>
      var i := |c.hops| - 1;
      HopIsOk(c, i);
      ConcludeClean(c.hops[i], o);
    case _ =>
  }

  lemma ConcludeClean(h: Hop, o: Outcome)
    requires HopOk(h, true) && CleanHop(h) && h.upstream.Direct? && h.server.phase.AwaitUpstream?
    ensures CleanHop(Hop(Server.Apply(h.server, Server.Answer(o)), h.upstream.(answer := Some(o))))
  {
    hide CleanServer, CleanClient, Server.Ok, Server.Apply, UpstreamOk;
    ServerStaysClean(h.server, Server.Answer(o));
  }

  lemma FreshClientIsClean(a: Address)
    ensures CleanClient(Client.Init(a))
  {
  }

  ghost predicate IsCleanRun(run: seq<Chain>, n: nat) {
    && n > 0 && run != [] && run[0] == Init(n)
    && forall i :: 0 < i < |run| ==> CleanNext(run[i - 1], run[i])
  }

  ghost predicate CleanNext(c: Chain, d: Chain) {
    exists m :: Clean(m) && Step(c, d, m)
  }

  lemma {:induction false} CleanRunOk(run: seq<Chain>, n: nat)
    requires IsCleanRun(run, n)
    ensures CleanChain(run[|run| - 1])
  {
    hide CleanChain, Step, Clean;
    if |run| == 1 {
      InitIsClean(n);
    } else {
      CleanRunOk(run[..|run| - 1], n);
      var c, d := run[|run| - 2], run[|run| - 1];
      assert CleanNext(c, d);
      var m :| Clean(m) && Step(c, d, m);
      CleanStep(c, d, m);
    }
  }

  lemma InitIsClean(n: nat)
    requires n > 0
    ensures CleanChain(Init(n))
  {
    hide ChainOk, Server.Enabled;
    InitOk(n);
    assert forall i :: 0 <= i < n ==> CleanHop(Init(n).hops[i]);
  }
}
