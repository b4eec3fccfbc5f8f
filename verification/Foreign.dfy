/** One hop whose upstream SOCKS server is not ours: it may answer anything. */
module Foreign {
  import opened Packets
  import opened Base
  import Server
  import Client
  import opened Chain
  import opened Links

  const START: Hop := Hop(Server.Apply(Server.INIT, Server.Accept), NotAsked)

  datatype Act = Serve(event: Server.Event) | Ask(ask: Client.Event)

  /** The peer downstream and the server upstream deliver whatever bytes they like. */
  ghost predicate Acts(h: Hop, k: Hop, a: Act) {
    match a
    case Serve(e) =>
      !e.Accept? && !e.Answer? && Server.Enabled(h.server, e) && k == AfterServer(h, Server.Apply(h.server, e), false)
    case Ask(e) =>
      && h.upstream.Socks? && Client.Enabled(h.upstream.client, e)
      && k == AfterClient(h, Client.Apply(h.upstream.client, e))
  }

  ghost predicate Next(h: Hop, k: Hop) {
    exists a :: Acts(h, k, a)
  }

  ghost predicate IsRun(run: seq<Hop>) {
    run != [] && run[0] == START && forall i :: 0 < i < |run| ==> Next(run[i - 1], run[i])
  }

  /** The upstream server chose a method that was not offered. */
  predicate Rejected(h: Hop) {
    h.upstream.Socks? && h.upstream.client.selection.Some? && !Client.Accepted(h.upstream.client)
  }

  lemma StartOk()
    ensures HopOk(START, false) && Server.IsRun([Server.INIT, START.server])
  {
    hide Reaches, Serialize, Stream;
    Server.InitOk();
    Server.ApplyOk(Server.INIT, Server.Accept);
    Server.InitialRun();
    var run := Server.Extend([Server.INIT], Server.Accept);
    assert run == [Server.INIT, START.server];
  }

  /** A step of the hop is a step of its server, a step of its client or of both, or the start of the
      client. */
  lemma StepServes(h: Hop, k: Hop)
    requires HopOk(h, false) && Next(h, k)
    ensures HopOk(k, false) && (k.server == h.server || Server.Next(h.server, k.server))
    ensures k.upstream == h.upstream || (k.upstream.Socks? && Asks(h.upstream, k.upstream.client))
  {
    hide HopOk, Server.Apply, Client.Apply, Client.Enabled;
    var a :| Acts(h, k, a);
    match a
    case Serve(e) =>
      ServeMoves(h, e, false);
    case Ask(e) =>
      AskMoves(h, e);
      var y := Client.Apply(h.upstream.client, e);
      assert Client.Next(h.upstream.client, y);
      ClientKeeps(h.upstream.client, e);
      if k.server != h.server {
        assert Server.Enabled(h.server, Server.Answer(Answered(y).value));
      }
  }

  lemma StepNeverIdle(h: Hop, k: Hop)
    requires HopOk(h, false) && Next(h, k) && !h.server.phase.Idle?
    ensures !k.server.phase.Idle?
  {
    hide HopOk, Server.Apply, Client.Apply, Client.Enabled;
    var a :| Acts(h, k, a);
    match a
    case Serve(e) => ServeMoves(h, e, false);
    case Ask(e) => AskMoves(h, e);
  }

  /** The client starts or takes a step. */
  ghost predicate Asks(u: Upstream, client: Client.Client) {
    if u.Socks? then client.endpoint == u.client.endpoint && Client.Next(u.client, client)
    else client == Client.Init(client.endpoint)
  }

  lemma ClientKeeps(c: Client.Client, e: Client.Event)
    requires Client.Enabled(c, e)
    ensures Client.Apply(c, e).endpoint == c.endpoint
  {
    hide Serialize, Feed;
  }

  // ----- the runs of its server and of its client -----

  /** The states its server went through. */
  ghost function Served(run: seq<Hop>): seq<Server.Server> {
    if |run| <= 1 then [Server.INIT, START.server]
    else
      var n := |run| - 1;
      Served(run[..n]) + if run[n].server != run[n - 1].server then [run[n].server] else []
  }

  /** The states its client went through, if it has one. */
  ghost function Asked(run: seq<Hop>): seq<Client.Client> {
    if |run| <= 1 then []
    else
      var n := |run| - 1;
      Asked(run[..n]) +
      if run[n].upstream.Socks? && run[n].upstream != run[n - 1].upstream then [run[n].upstream.client] else []
  }

  ghost predicate AskedOk(run: seq<Hop>)
    requires run != []
  {
    var u := run[|run| - 1].upstream;
    if u.Socks? then
      Client.IsRun(Asked(run), u.client.endpoint) && Asked(run)[|Asked(run)| - 1] == u.client
    else Asked(run) == []
  }

  lemma {:induction false} ServedIsRun(run: seq<Hop>)
    requires IsRun(run)
    ensures HopOk(run[|run| - 1], false) && !run[|run| - 1].server.phase.Idle?
    ensures Server.IsRun(Served(run)) && Served(run)[|Served(run)| - 1] == run[|run| - 1].server
  {
    hide HopOk, Next, Server.Next;
    if |run| == 1 {
      StartOk();
    } else {
      var n := |run| - 1;
      ServedIsRun(run[..n]);
      assert Next(run[n - 1], run[n]);
      StepServes(run[n - 1], run[n]);
      StepNeverIdle(run[n - 1], run[n]);
    }
  }

  lemma AskedGrows(asked: seq<Client.Client>, u: Upstream, c: Client.Client)
    requires if u.Socks? then Client.IsRun(asked, u.client.endpoint) && asked[|asked| - 1] == u.client else asked == []
    requires Asks(u, c)
    ensures Client.IsRun(asked + [c], c.endpoint)
  {
    hide Client.Next, Client.Init;
  }

  lemma {:induction false} AskedIsRun(run: seq<Hop>)
    requires IsRun(run)
    ensures AskedOk(run)
  {
    hide HopOk, Next, Client.IsRun, Asks;
    if |run| > 1 {
      var n := |run| - 1;
      ServedIsRun(run[..n]);
      AskedIsRun(run[..n]);
      assert Next(run[n - 1], run[n]);
      StepServes(run[n - 1], run[n]);
      if run[n].upstream != run[n - 1].upstream {
        AskedGrows(Asked(run[..n]), run[n - 1].upstream, run[n].upstream.client);
      } else {
        assert Asked(run) == Asked(run[..n]);
      }
    }
  }

  lemma PartsRun(run: seq<Hop>)
    requires IsRun(run)
    ensures HopOk(run[|run| - 1], false) && !run[|run| - 1].server.phase.Idle?
    ensures Server.IsRun(Served(run)) && Served(run)[|Served(run)| - 1] == run[|run| - 1].server
    ensures AskedOk(run)
  {
    hide HopOk, Next, Server.Next, Served, AskedOk;
    ServedIsRun(run);
    AskedIsRun(run);
  }

  // ----- undefined behaviour -----

  lemma NullIsRejected(h: Hop)
    requires HopOk(h, false)
    ensures h.server.outcome == Some(Outcome(0, None)) <==> Rejected(h)
  {
    hide Reaches, Serialize, Stream, Server.Parsed, Server.Scripted, Server.Wired, Server.Owned;
    hide Client.Parsed, Client.Wired;
  }

  /** The hop's client is in undefined behaviour. */
  predicate ClientCrashed(h: Hop) {
    h.upstream.Socks? && h.upstream.client.phase.Crashed?
  }

  /** Facing any server upstream, a hop of ours, its connection or its request, reaches undefined behaviour
      exactly when that server chose a method that was not offered, or a read behind a wrapping domain
      length completed: in the request of its own peer or in the response of that server. */
  lemma CrashesExactly(run: seq<Hop>)
    requires IsRun(run)
    ensures var h := run[|run| - 1];
      && Server.IsRun(Served(run)) && Served(run)[|Served(run)| - 1] == h.server && AskedOk(run)
      && (h.server.phase.Crashed? <==> Rejected(h) || Server.ReadsWrapped(Served(run)))
      && (ClientCrashed(h) <==> Client.ReadsWrapped(Asked(run)))
      && (h.server.phase.Crashed? || ClientCrashed(h) <==>
            Rejected(h) || Server.ReadsWrapped(Served(run)) || Client.ReadsWrapped(Asked(run)))
  {
    hide HopOk, Next, Server.Next, Client.Next, Server.ReadsWrapped, Rejected, Served, Asked;
    var h := run[|run| - 1];
    PartsRun(run);
    NullIsRejected(h);
    Server.CrashedExactly(Served(run));
    if h.upstream.Socks? {
      Client.CrashedExactly(Asked(run), h.upstream.client.endpoint);
    }
  }

  // ----- coming to rest -----

  ghost predicate AtRest(h: Hop) {
    forall k :: !Next(h, k)
  }

  lemma ServerCanStep(h: Hop, e: Server.Event)
    requires Server.Enabled(h.server, e) && !e.Accept? && !e.Answer?
    ensures !AtRest(h)
  {
    hide Server.Enabled, Server.Apply;
    var k := AfterServer(h, Server.Apply(h.server, e), false);
    assert Acts(h, k, Act.Serve(e));
    assert Next(h, k);
  }

  lemma ClientCanStep(h: Hop, e: Client.Event)
    requires h.upstream.Socks? && Client.Enabled(h.upstream.client, e)
    ensures !AtRest(h)
  {
    hide Client.Enabled, Client.Apply;
    var k := AfterClient(h, Client.Apply(h.upstream.client, e));
    assert Acts(h, k, Act.Ask(e));
    assert Next(h, k);
  }

  lemma ServerSettles(h: Hop)
    requires AtRest(h) && !h.server.phase.Idle?
    ensures Server.Settled(h.server) || h.server.phase.AwaitUpstream?
  {
    hide AtRest, Server.Enabled, Server.Settled;
    if !Server.Settled(h.server) && !h.server.phase.AwaitUpstream? {
      Server.FailingIsEnabled(h.server);
      ServerCanStep(h, Server.FailingEvent(h.server));
    }
  }

  lemma ClientSettles(h: Hop)
    requires AtRest(h) && h.upstream.Socks?
    ensures var x := h.upstream.client; x.phase.Finished? || x.phase.Silent? || x.phase.Crashed?
  {
    hide AtRest;
    var x := h.upstream.client;
    if x.phase.Connecting? {
      ClientCanStep(h, Client.ConnectFails(1));
    } else if Client.Sending(x) {
      ClientCanStep(h, Client.PutFails(1));
    } else if Client.Reading(x) {
      ClientCanStep(h, Client.ReceiveFails(1));
    }
  }

  /** A server waits for its upstream exactly while its client is not finished. */
  lemma WaitsForClient(h: Hop)
    requires HopOk(h, false)
    ensures h.server.phase.AwaitUpstream? <==> h.upstream.Socks? && !h.upstream.client.phase.Finished?
  {
    hide Server.Ok, Client.Ok;
    if h.server.phase.AwaitUpstream? {
      AwaitingIsAsked(h.server);
      AnsweredWhenFinished(h.upstream.client);
    }
    if h.upstream.Socks? && !h.upstream.client.phase.Finished? {
      ClientAtWork(h);
    }
  }

  lemma WaitingIsOpen(s: Server.Server)
    requires Server.Ok(s) && s.phase.AwaitUpstream?
    ensures s.pair.down.open && !s.pair.up.open
  {
    hide Reaches, Serialize, Stream, Server.Parsed, Server.Scripted, Server.Wired;
  }

  /** What the client left unfinished. */
  lemma UnfinishedClient(c: Client.Client)
    requires Client.Ok(c)
    ensures c.phase.Silent? <==> UnknownKind(c.answer)
    ensures c.phase.Silent? || c.phase.Crashed? ==> c.log == [Client.Opened]
  {
    hide Reaches, Serialize, Stream;
    Client.SilentIsUnknown(c);
  }

  /** A hop with nothing left to do has no upstream transport open in its connection. Its peer's transport is
      left open exactly when the peer's request or the foreign response carried an unknown address
      type, a read behind a wrapping domain length of either completed, or the foreign server chose a
      method that was not offered. Of these, exactly the two of the response leave the request without
      a callback, with its own transport open. */
  lemma RestIsClosed(run: seq<Hop>)
    requires IsRun(run) && AtRest(run[|run| - 1])
    ensures var h := run[|run| - 1];
      var badResponse :=
        h.upstream.Socks? && (UnknownKind(h.upstream.client.answer) || Client.ReadsWrapped(Asked(run)));
      && !h.server.pair.up.open
      && (h.server.pair.down.open <==>
            UnknownKind(h.server.query) || Server.ReadsWrapped(Served(run)) || Rejected(h) || badResponse)
      && (h.upstream.Socks? ==>
            (badResponse <==> Client.Calls(h.upstream.client.log) == 0)
            && (badResponse ==> h.upstream.client.log == [Client.Opened]))
  {
    hide HopOk, Next, AtRest, Rejected, Served, Asked, AskedOk, UnknownKind, Server.Settled, Server.Ok, Client.Ok;
    hide Server.ReadsWrapped, Client.ReadsWrapped, Server.Next;
    var h := run[|run| - 1];
    PartsRun(run);
    CrashesExactly(run);
    ServerIsOk(h, false);
    ServerSettles(h);
    WaitsForClient(h);
    Silences(h.server);
    if h.server.phase.AwaitUpstream? {
      WaitingIsOpen(h.server);
    } else {
      Server.SettledIsClosed(h.server);
    }
    if h.upstream.Socks? {
      ClientSettles(h);
      UnfinishedClient(h.upstream.client);
      Client.FinishedCalls(h.upstream.client);
    }
  }

  lemma Silences(s: Server.Server)
    requires Server.Ok(s)
    ensures s.phase.Silent? <==> UnknownKind(s.query)
  {
    hide Server.Parsed, Server.Ordered, Server.Scripted, Server.Wired, Server.Owned, UnknownKind;
    Server.SilentIsUnknown(s);
  }
}
