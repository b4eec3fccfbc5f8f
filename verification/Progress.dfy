/** Every handshake of a chain is short: a bound on its steps, whatever their order and whatever fails. */
module Progress {
  import opened Packets
  import opened Base
  import Relay
  import Server
  import Client
  import Direct
  import opened Chain
  import opened Links
  import opened EndToEnd
  import opened Completion
  import Rest

  /** Larger than any handshake packet, in bytes. */
  const STAGE: nat := 1000

  lemma PacketsAreShort(p: Packet)
    requires Encodable(p)
    ensures |Serialize(p)| <= 262
  {
  }

  function ServerRank(s: Server.Server): nat {
    match s.phase
    case Idle => 6 * STAGE
    case ReadMethods(r) => 5 * STAGE + Rank(r)
    case Sending(purpose) => (if purpose.Reject? || purpose.Acknowledge? then 4 else 1) * STAGE + |s.unsent|
    case ReadRequest(r) => 3 * STAGE + Rank(r)
    case AwaitUpstream => 2 * STAGE
    case _ => 0
  }

  function ClientRank(x: Client.Client): nat {
    match x.phase
    case Connecting => 5 * STAGE
    case SendingHello => 4 * STAGE + |x.unsent|
    case ReadSelection(r) => 3 * STAGE + Rank(r)
    case SendingRequest => 2 * STAGE + |x.unsent|
    case ReadResponse(r) => STAGE + Rank(r)
    case _ => 0
  }

  function UpstreamRank(u: Upstream): nat {
    match u
    case NotAsked => 6 * STAGE
    case Socks(x) => ClientRank(x)
    case Direct(_, answer) => if answer.None? then STAGE else 0
  }

  function HopRank(h: Hop): nat {
    ServerRank(h.server) + UpstreamRank(h.upstream)
  }

  function TotalRank(hops: seq<Hop>): nat {
    if hops == [] then 0 else HopRank(hops[0]) + TotalRank(hops[1..])
  }

  lemma {:induction false} UpdateRank(hops: seq<Hop>, i: nat, k: Hop)
    requires i < |hops|
    ensures TotalRank(hops[i := k]) == TotalRank(hops) - HopRank(hops[i]) + HopRank(k)
  {
    hide HopRank;
    if i == 0 {
      assert hops[0 := k][1..] == hops[1..];
    } else {
      UpdateRank(hops[1..], i - 1, k);
      assert hops[i := k][1..] == hops[1..][i - 1 := k];
    }
  }

  /** Any step of the handshake, whether it succeeds or fails. */
  predicate IsHandshake(m: Move) {
    m.Conclude? || m.Ask? || (m.Serve? && !m.event.Relayed?)
  }

  lemma ShortUnsent(h: Hop, isLast: bool)
    requires HopOk(h, isLast)
    ensures |h.server.unsent| <= 262
    ensures h.upstream.Socks? ==> |h.upstream.client.unsent| <= 262
  {
    hide Reaches, Serialize, Stream, Server.Parsed, Server.Ordered, Server.Owned, Client.Parsed,
      Client.Ordered, Client.Logged;
    DownFeeds(h, isLast);
    if h.server.said != [] {
      PacketsAreShort(h.server.said[|h.server.said| - 1]);
    }
    if h.upstream.Socks? {
      UpFeeds(h);
      var x := h.upstream.client;
      if x.said != [] {
        PacketsAreShort(x.said[|x.said| - 1]);
      }
    }
  }

  lemma ServerEventRank(s: Server.Server, e: Server.Event)
    requires Server.Ok(s) && Server.Enabled(s, e) && |Server.Apply(s, e).unsent| <= 262
    ensures if e.Relayed? then ServerRank(Server.Apply(s, e)) == ServerRank(s)
            else ServerRank(Server.Apply(s, e)) < ServerRank(s)
  {
    hide Reaches, Serialize, Stream, Feed, Rank, Relay.Apply, Relay.WithWay, Relay.Enabled,
      Server.Parsed, Server.Ordered, Server.Scripted, Server.Wired, Server.Owned;
    if e.Receive? {
      FeedRank(s.phase.reader, e.data);
    } else if e.PutAll? || e.Accept? {
      RankOfStarts();
    }
  }

  lemma RankOfStarts()
    ensures Rank(MethodsHead) <= 4 && Rank(SelectBody) <= 4 && Rank(Head(true)) <= 4 && Rank(Head(false)) <= 4
  {
  }

  lemma ClientEventRank(x: Client.Client, e: Client.Event)
    requires Client.Ok(x) && Client.Enabled(x, e) && |Client.Apply(x, e).unsent| <= 262
    ensures ClientRank(Client.Apply(x, e)) < ClientRank(x)
  {
    hide Reaches, Serialize, Stream, Feed, Rank, Client.Parsed, Client.Ordered, Client.Logged, Client.Wired;
    RankOfStarts();
    if e.Receive? {
      FeedRank(x.phase.reader, e.data);
    }
  }

  lemma ServeRank(h: Hop, e: Server.Event, isLast: bool)
    requires HopOk(h, isLast) && Server.Enabled(h.server, e) && !e.Accept? && !e.Answer?
    ensures var k := AfterServer(h, Server.Apply(h.server, e), isLast);
      if e.Relayed? then HopRank(k) == HopRank(h) else HopRank(k) < HopRank(h)
  {
    hide Server.Ok, Server.Apply, Server.Enabled, UpstreamOk, ServerRank, Moves, Reached;
    var t := Server.Apply(h.server, e);
    var k := AfterServer(h, t, isLast);
    ServeMoves(h, e, isLast);
    assert HopOk(k, isLast) by { MovesOk(h, k, isLast, DownTaken(e), UpTaken(e)); }
    ShortUnsent(k, isLast);
    ServerEventRank(h.server, e);
    if e.Relayed? {
      RelayedAsksNothing(h.server, e);
    }
    AskedMatches(h, isLast);
  }

  lemma AskedMatches(h: Hop, isLast: bool)
    requires HopOk(h, isLast)
    ensures h.upstream.NotAsked? <==> h.server.asked == []
  {
    hide Server.Ok, Client.Ok;
  }

  lemma RelayedAsksNothing(s: Server.Server, e: Server.Event)
    requires Server.Enabled(s, e) && e.Relayed?
    ensures Server.Apply(s, e).asked == s.asked
  {
  }

  lemma MovesOk(h: Hop, k: Hop, isLast: bool, down: bytes, up: bytes)
    requires Moves(h, k, isLast, down, up)
    ensures HopOk(k, isLast)
  {
  }

  lemma AskRank(h: Hop, e: Client.Event)
    requires HopOk(h, false) && h.upstream.Socks? && Client.Enabled(h.upstream.client, e)
    ensures HopRank(AfterClient(h, Client.Apply(h.upstream.client, e))) < HopRank(h)
  {
    hide Server.Ok, Server.Apply, Client.Ok, Client.Apply, Client.Enabled, ServerRank, ClientRank, Moves, Reached;
    var y := Client.Apply(h.upstream.client, e);
    var k := AfterClient(h, y);
    AskMoves(h, e);
    MovesOk(h, k, false, [], Taken(e));
    ShortUnsent(k, false);
    ClientEventRank(h.upstream.client, e);
    if Answered(y).Some? && h.server.phase.AwaitUpstream? {
      ServerEventRank(h.server, Server.Answer(Answered(y).value));
    }
  }

  lemma ConcludeRank(h: Hop, o: Outcome)
    requires HopOk(h, true) && h.upstream.Direct? && h.upstream.answer.None? && h.server.phase.AwaitUpstream?
    requires Direct.Possible(h.upstream.target, o)
    ensures HopRank(Hop(Server.Apply(h.server, Server.Answer(o)), h.upstream.(answer := Some(o)))) < HopRank(h)
  {
    hide Server.Ok, Server.Apply, Client.Ok, ServerRank, Moves, Reached, Direct.Possible;
    var k := Hop(Server.Apply(h.server, Server.Answer(o)), h.upstream.(answer := Some(o)));
    ConcludeMoves(h, o);
    MovesOk(h, k, true, [], []);
    ShortUnsent(k, true);
    ServerEventRank(h.server, Server.Answer(o));
  }

  lemma AcceptRank(h: Hop, isLast: bool)
    requires HopOk(h, isLast) && h.server.phase.Idle?
    ensures HopRank(h.(server := Server.Apply(h.server, Server.Accept))) < HopRank(h)
  {
  }

  lemma StepRank(c: Chain, d: Chain, m: Move)
    requires ChainOk(c) && Step(c, d, m)
    ensures if IsHandshake(m) then TotalRank(d.hops) < TotalRank(c.hops) else TotalRank(d.hops) == TotalRank(c.hops)
  {
    hide ChainOk, HopOk, HopRank, TotalRank, AfterServer, AfterClient, DownGot, UpGot, Toward, Back,
      Server.Apply, Client.Apply, Client.Enabled, Direct.Possible;
    match m
    case Serve(i, e) =>
      HopIsOk(c, i);
      var k := AfterServer(c.hops[i], Server.Apply(c.hops[i].server, e), i == |c.hops| - 1);
      ServeRank(c.hops[i], e, i == |c.hops| - 1);
      UpdateRank(c.hops, i, k);
    case Ask(i, e) =>
      HopIsOk(c, i);
      var k := AfterClient(c.hops[i], Client.Apply(c.hops[i].upstream.client, e));
      AskRank(c.hops[i], e);
      UpdateRank(c.hops, i, k);
      if e.Connect? {
        HopIsOk(c, i + 1);
        AcceptRank(c.hops[i + 1], i + 1 == |c.hops| - 1);
        UpdateRank(c.hops[i := k], i + 1, c.hops[i + 1].(server := Server.Apply(c.hops[i + 1].server, Server.Accept)));
      }
    case Conclude(o) =>
      var i := |c.hops| - 1;
      HopIsOk(c, i);
      ConcludeRank(c.hops[i], o);
      UpdateRank(c.hops, i, d.hops[i]);
    case _ =>
  }

  function CountHandshake(moves: seq<Move>): nat {
    if moves == [] then 0
    else CountHandshake(moves[..|moves| - 1]) + (if IsHandshake(moves[|moves| - 1]) then 1 else 0)
  }

  lemma {:induction false} InitRank(n: nat, hops: seq<Hop>)
    requires |hops| == n && forall i :: 0 <= i < n ==> HopRank(hops[i]) <= 12 * STAGE
    ensures TotalRank(hops) <= 12 * STAGE * n
  {
    hide HopRank;
    if n > 0 {
      InitRank(n - 1, hops[1..]);
      assert 12 * STAGE * n == 12 * STAGE + 12 * STAGE * (n - 1);
    }
  }

  /** In any run of a chain of `n` hops, interleaved with relaying and writing as it may be and failing
      where it may, at most 12000 handshake steps are taken per hop. */
  lemma {:induction false} HandshakeIsBounded(run: seq<Chain>, moves: seq<Move>, n: nat)
    requires n > 0 && |run| == |moves| + 1 && run[0] == Init(n)
    requires forall i :: 0 <= i < |moves| ==> Step(run[i], run[i + 1], moves[i])
    ensures ChainOk(run[|moves|])
    ensures CountHandshake(moves) + TotalRank(run[|moves|].hops) <= 12 * STAGE * n
  {
    hide ChainOk, Step, HopRank, TotalRank;
    var k := |moves|;
    if k == 0 {
      InitOk(n);
      assert forall i :: 0 <= i < n ==> HopRank(Init(n).hops[i]) <= 12 * STAGE by { FirstRanks(n); }
      InitRank(n, Init(n).hops);
    } else {
      HandshakeIsBounded(run[..k], moves[..k - 1], n);
      assert run[..k][k - 1] == run[k - 1];
      assert Step(run[k - 1], run[k - 1 + 1], moves[k - 1]);
      StepOk(run[k - 1], run[k], moves[k - 1]);
      StepRank(run[k - 1], run[k], moves[k - 1]);
    }
  }

  lemma FirstRanks(n: nat)
    requires n > 0
    ensures forall i :: 0 <= i < n ==> HopRank(Init(n).hops[i]) <= 12 * STAGE
  {
  }

  // ----- so every handshake settles -----

  /** A handshake step takes nothing from what the application wrote. */
  lemma HandshakeKeepsApp(c: Chain, d: Chain, m: Move)
    requires Step(c, d, m) && IsHandshake(m)
    ensures d.app == c.app
  {
    hide AfterServer, AfterClient, Server.Apply, Client.Apply, Server.Enabled, Client.Enabled, Direct.Possible;
  }

  lemma ExtendClean(run: seq<Chain>, n: nat, d: Chain, m: Move)
    requires IsCleanRun(run, n) && Clean(m) && Step(run[|run| - 1], d, m)
    ensures IsCleanRun(run + [d], n)
  {
    hide Clean, Step;
    assert CleanNext(run[|run| - 1], d);
  }

  /** Whatever order the handshake steps are taken in, any run without transport errors is a few of them
      away from a state with none left. */
  lemma {:induction false} Settles(run: seq<Chain>, n: nat) returns (longer: seq<Chain>)
    requires IsCleanRun(run, n)
    ensures run <= longer && IsCleanRun(longer, n)
    ensures Rest.AtRest(longer[|longer| - 1]) && longer[|longer| - 1].app == run[|run| - 1].app
    decreases TotalRank(run[|run| - 1].hops)
  {
    hide Step, Clean, CleanChain, ChainOk, TotalRank;
    var c := run[|run| - 1];
    if Rest.AtRest(c) {
      longer := run;
    } else {
      var d, m :| Rest.Handshake(m) && Step(c, d, m);
      CleanRunOk(run, n);
      Rest.CleanIsOk(c);
      StepRank(c, d, m);
      HandshakeKeepsApp(c, d, m);
      ExtendClean(run, n, d, m);
      longer := Settles(run + [d], n);
      assert run <= run + [d];
    }
  }

  /** From any state of a run without transport errors in which the application has sent a CONNECT
      request, the handshake can be completed, with the outcome that `Rest.HandshakeOutcome` states. */
  lemma HandshakeCompletes(run: seq<Chain>, n: nat, x: bytes, p: Packet, y: bytes, q: Packet)
    returns (longer: seq<Chain>)
    requires IsCleanRun(run, n) && Rest.Opening(x, p, y, q) && x + y <= run[|run| - 1].app
    ensures run <= longer && IsCleanRun(longer, n)
    ensures var c := longer[|longer| - 1];
      && c.hops != [] && c.hops[|c.hops| - 1].upstream.Direct? && c.hops[|c.hops| - 1].upstream.answer.Some?
      && var o := c.hops[|c.hops| - 1].upstream.answer.value;
         forall i :: 0 <= i < |c.hops| ==>
           && c.hops[i].server.asked == [q.address]
           && (if o.transport.Some? then Rest.EndsGranted(c.hops[i], o.transport.value)
               else Rest.EndsRefused(c.hops[i]))
  {
    hide Rest.Opening, Rest.AtRest, Rest.EndsGranted, Rest.EndsRefused, CleanNext;
    longer := Settles(run, n);
    var c := longer[|longer| - 1];
    assert Rest.CleanReachable(c);
    Rest.HandshakeOutcome(c, x, p, y, q);
  }
}
