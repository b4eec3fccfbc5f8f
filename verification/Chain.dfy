/** Hops in a row: every hop is one server connection with its upstream request, which goes by SOCKS
    to the server of the next hop, or directly to the destination at the last hop. Neighbours are
    joined by a FIFO byte channel in each direction; the originating application and the destination
    write whatever they like. */
module Chain {
  import opened Packets
  import opened Base
  import Relay
  import Server
  import Client
  import Direct

  datatype Upstream =
    | NotAsked
    | Socks(client: Client.Client)
    | Direct(target: Address, answer: Option<Outcome>)

  datatype Hop = Hop(server: Server.Server, upstream: Upstream)

  /** `app` and `target` are all bytes the application and the destination have written so far. */
  datatype Chain = Chain(hops: seq<Hop>, app: bytes, target: bytes)

  datatype Move =
    | AppWrites(data: bytes)
    | TargetWrites(data: bytes)
    | Serve(hop: nat, event: Server.Event)
    | Ask(hop: nat, ask: Client.Event)
    | Conclude(outcome: Outcome)  // the direct connection of the last hop

  // ----- what crossed each transport -----

  function DownGot(s: Server.Server): bytes { s.offer + s.query + s.pair.down.got }
  function DownPut(s: Server.Server): bytes { s.sent + s.pair.down.put }

  function UpGot(h: Hop): bytes {
    (if h.upstream.Socks? then h.upstream.client.choice + h.upstream.client.answer else []) + h.server.pair.up.got
  }
  function UpPut(h: Hop): bytes {
    (if h.upstream.Socks? then h.upstream.client.sent else []) + h.server.pair.up.put
  }

  /** Bytes written toward the server of hop `i`, and toward the upstream side of hop `i`. */
  function Toward(c: Chain, i: nat): bytes
    requires i < |c.hops|
  {
    if i == 0 then c.app else UpPut(c.hops[i - 1])
  }
  function Back(c: Chain, i: nat): bytes
    requires i < |c.hops|
  {
    if i == |c.hops| - 1 then c.target else DownPut(c.hops[i + 1].server)
  }

  // ----- steps -----

  function Answered(client: Client.Client): Option<Outcome> {
    if client.phase.Finished? && client.log != [] && client.log[|client.log| - 1].Called? then
      Some(client.log[|client.log| - 1].outcome)
    else None
  }

  /** The hop after its server moved: a first request upstream starts there and then. */
  function AfterServer(h: Hop, s: Server.Server, isLast: bool): Hop {
    if h.upstream.NotAsked? && s.asked != [] then
      Hop(s, if isLast then Direct(s.asked[0], None) else Socks(Client.Init(s.asked[0])))
    else Hop(s, h.upstream)
  }

  /** The hop after its client moved: the callback, if it ran, is the server's. */
  function AfterClient(h: Hop, client: Client.Client): Hop {
    if Answered(client).Some? && h.server.phase.AwaitUpstream? then
      Hop(Server.Apply(h.server, Server.Answer(Answered(client).value)), Socks(client))
    else Hop(h.server, Socks(client))
  }

  /** What an event takes from the downstream and from the upstream transport. */
  function DownTaken(e: Server.Event): bytes {
    match e
    case Receive(data) => data
    case Relayed(true, TakeSome(data)) => data
    case _ => []
  }
  function UpTaken(e: Server.Event): bytes {
    match e
    case Relayed(false, TakeSome(data)) => data
    case _ => []
  }
  function Taken(e: Client.Event): bytes {
    if e.Receive? then e.data else []
  }

  ghost predicate ServeStep(c: Chain, d: Chain, i: nat, e: Server.Event) {
    && i < |c.hops| && !e.Accept? && !e.Answer?
    && Server.Enabled(c.hops[i].server, e)
    && DownGot(c.hops[i].server) + DownTaken(e) <= Toward(c, i)
    && UpGot(c.hops[i]) + UpTaken(e) <= Back(c, i)
    && d == c.(hops := c.hops[i := AfterServer(c.hops[i], Server.Apply(c.hops[i].server, e), i == |c.hops| - 1)])
  }

  ghost predicate AskStep(c: Chain, d: Chain, i: nat, e: Client.Event) {
    && i + 1 < |c.hops| && c.hops[i].upstream.Socks? && !e.Connect?
    && Client.Enabled(c.hops[i].upstream.client, e)
    && UpGot(c.hops[i]) + Taken(e) <= Back(c, i)
    && d == c.(hops := c.hops[i := AfterClient(c.hops[i], Client.Apply(c.hops[i].upstream.client, e))])
  }

  /** Connecting makes the next server accept. */
  ghost predicate ConnectStep(c: Chain, d: Chain, i: nat) {
    && i + 1 < |c.hops| && c.hops[i].upstream.Socks?
    && Client.Enabled(c.hops[i].upstream.client, Client.Connect)
    && Server.Enabled(c.hops[i + 1].server, Server.Accept)
    && d == c.(hops := c.hops
         [i := AfterClient(c.hops[i], Client.Apply(c.hops[i].upstream.client, Client.Connect))]
         [i + 1 := c.hops[i + 1].(server := Server.Apply(c.hops[i + 1].server, Server.Accept))])
  }

  ghost predicate ConcludeStep(c: Chain, d: Chain, o: Outcome) {
    && c.hops != []
    && var i := |c.hops| - 1;
       var h := c.hops[i];
       && h.upstream.Direct? && h.upstream.answer.None? && h.server.phase.AwaitUpstream?
       && Direct.Possible(h.upstream.target, o)
       && d == c.(hops := c.hops[i :=
            Hop(Server.Apply(h.server, Server.Answer(o)), h.upstream.(answer := Some(o)))])
  }

  ghost predicate Step(c: Chain, d: Chain, m: Move) {
    match m
    case AppWrites(data) => d == c.(app := c.app + data)
    case TargetWrites(data) => d == c.(target := c.target + data)
    case Serve(i, e) => ServeStep(c, d, i, e)
    case Ask(i, e) => if e.Connect? then ConnectStep(c, d, i) else AskStep(c, d, i, e)
    case Conclude(o) => ConcludeStep(c, d, o)
  }

  /** A chain of `n` hops with the first connection accepted and nothing else begun. */
  function Init(n: nat): Chain
    requires n > 0
  {
    Chain(seq(n, i requires 0 <= i < n =>
      Hop(if i == 0 then Server.Apply(Server.INIT, Server.Accept) else Server.INIT, NotAsked)), [], [])
  }

  // ----- what every step keeps -----

  ghost predicate UpstreamOk(h: Hop, isLast: bool) {
    match h.upstream
    case NotAsked => h.server.asked == []
    case Socks(client) =>
      !isLast && Client.Ok(client) && h.server.asked == [client.endpoint] && h.server.outcome == Answered(client)
    case Direct(target, answer) =>
      isLast && h.server.asked == [target] && h.server.outcome == answer
      && (answer.Some? ==> Direct.Possible(target, answer.value))
  }

  ghost predicate HopOk(h: Hop, isLast: bool) {
    Server.Ok(h.server) && UpstreamOk(h, isLast)
  }

  predicate Reached(h: Hop) {
    h.upstream.Socks? && Client.WasConnected(h.upstream.client)
  }

  /** A hop has taken, in order, only what was written to it. */
  ghost predicate LinkOk(c: Chain, i: nat)
    requires i < |c.hops|
  {
    DownGot(c.hops[i].server) <= Toward(c, i) && UpGot(c.hops[i]) <= Back(c, i)
  }

  ghost predicate ChainOk(c: Chain) {
    && c.hops != []
    && (forall i :: 0 <= i < |c.hops| ==> HopOk(c.hops[i], i == |c.hops| - 1))
    && (forall i :: 0 <= i < |c.hops| ==> LinkOk(c, i))
    && !c.hops[0].server.phase.Idle?
    && (forall i :: 0 < i < |c.hops| ==> (c.hops[i].server.phase.Idle? <==> !Reached(c.hops[i - 1])))
  }

  /** What an event of the server does to its requests upstream and to its histories. */
  lemma ServerFrame(s: Server.Server, e: Server.Event)
    requires Server.Ok(s) && Server.Enabled(s, e)
    ensures var t := Server.Apply(s, e);
      && (!e.Answer? ==> t.outcome == s.outcome)
      && (t.asked == s.asked || (s.asked == [] && |t.asked| == 1 && t.phase.AwaitUpstream? && t.outcome.None?))
      && (e.Answer? ==> t.asked == s.asked && t.outcome == Some(e.outcome))
      && (!e.Accept? ==> (t.phase.Idle? <==> s.phase.Idle?))
  {
    hide Reaches, Serialize, Stream, Server.Parsed, Server.Wired, Server.Owned, Feed;
  }

  ghost predicate BytesMove(s: Server.Server, t: Server.Server, down: bytes, up: bytes) {
    && DownGot(t) == DownGot(s) + down
    && DownPut(s) <= DownPut(t)
    && t.pair.up.got == s.pair.up.got + up
    && s.pair.up.put <= t.pair.up.put
  }

  lemma ReceiveBytes(s: Server.Server, data: bytes)
    requires Server.Ordered(s) && Server.Owned(s) && Server.Enabled(s, Server.Receive(data))
    ensures BytesMove(s, Server.Apply(s, Server.Receive(data)), data, [])
  {
    hide Serialize, Feed;
    var t := Server.Apply(s, Server.Receive(data));
    assert s.pair.down.got == [] && s.pair.up.got == [];
    if s.phase.ReadMethods? {
      assert s.query == [] && t.offer == s.offer + data && t.query == s.query;
    } else {
      assert t.offer == s.offer && t.query == s.query + data;
    }
    assert t.pair == s.pair && t.sent == s.sent;
  }

  lemma RelayedBytes(s: Server.Server, isUpward: bool, e: Relay.Event)
    requires Server.Enabled(s, Server.Relayed(isUpward, e))
    ensures BytesMove(s, Server.Apply(s, Server.Relayed(isUpward, e)),
                      DownTaken(Server.Relayed(isUpward, e)), UpTaken(Server.Relayed(isUpward, e)))
  {
    var t := Server.Apply(s, Server.Relayed(isUpward, e));
    if e.TakeSome? && isUpward {
      AppendAssociates(s.offer + s.query, s.pair.down.got, e.data);
    }
  }

  lemma OtherBytes(s: Server.Server, e: Server.Event)
    requires Server.Owned(s) && Server.Enabled(s, e) && !e.Receive? && !e.Relayed?
    ensures BytesMove(s, Server.Apply(s, e), [], [])
  {
    hide Serialize;
  }

  lemma ServerBytes(s: Server.Server, e: Server.Event)
    requires Server.Ok(s) && Server.Enabled(s, e)
    ensures BytesMove(s, Server.Apply(s, e), DownTaken(e), UpTaken(e))
  {
    hide BytesMove, Server.Apply, Server.Enabled, Server.Parsed, Server.Ordered, Server.Scripted,
      Server.Wired, Server.Owned;
    if e.Receive? {
      ReceiveBytes(s, e.data);
    } else if e.Relayed? {
      RelayedBytes(s, e.isUpward, e.event);
    } else {
      OtherBytes(s, e);
    }
  }

  lemma ClientBytes(x: Client.Client, e: Client.Event)
    requires Client.Ok(x) && Client.Enabled(x, e)
    ensures var y := Client.Apply(x, e);
      && y.choice + y.answer == x.choice + x.answer + Taken(e)
      && x.sent <= y.sent
      && y.endpoint == x.endpoint
      && (Client.WasConnected(y) <==> Client.WasConnected(x) || e.Connect?)
      && !x.phase.Finished?
  {
    hide Reaches, Serialize, Stream, Client.Parsed, Client.Wired, Feed;
    var y := Client.Apply(x, e);
    if e.Receive? {
      if x.phase.ReadSelection? {
        assert x.answer == [] && y.choice == x.choice + e.data && y.answer == x.answer;
      } else {
        assert y.choice == x.choice && y.answer == x.answer + e.data;
      }
    }
  }

  /** A hop moves: it stays well, takes exactly these bytes, and what it has put only grows. */
  ghost predicate Moves(h: Hop, k: Hop, isLast: bool, down: bytes, up: bytes) {
    && HopOk(k, isLast)
    && DownGot(k.server) == DownGot(h.server) + down
    && UpGot(k) == UpGot(h) + up
    && DownPut(h.server) <= DownPut(k.server)
    && UpPut(h) <= UpPut(k)
  }

  lemma ServeMoves(h: Hop, e: Server.Event, isLast: bool)
    requires HopOk(h, isLast) && Server.Enabled(h.server, e) && !e.Accept? && !e.Answer?
    ensures var k := AfterServer(h, Server.Apply(h.server, e), isLast);
      && Moves(h, k, isLast, DownTaken(e), UpTaken(e))
      && (k.server.phase.Idle? <==> h.server.phase.Idle?)
      && (Reached(k) <==> Reached(h))
  {
    hide Server.Ok, Server.Apply, Server.Enabled, Client.Ok, DownGot, DownPut, Direct.Possible;
    var t := Server.Apply(h.server, e);
    var k := AfterServer(h, t, isLast);
    Server.ApplyOk(h.server, e);
    ServerFrame(h.server, e);
    ServerBytes(h.server, e);
    if h.upstream.NotAsked? && t.asked != [] && !isLast {
      Client.InitOk(t.asked[0]);
      assert t.asked == [t.asked[0]];
      assert UpGot(k) == UpGot(h) + UpTaken(e);
      assert UpPut(h) <= UpPut(k);
    } else {
      assert UpGot(k) == UpGot(h) + UpTaken(e);
    }
  }

  /** While a client is at work its server awaits it and relays nothing. */
  lemma ClientAtWork(h: Hop)
    requires HopOk(h, false) && h.upstream.Socks? && !h.upstream.client.phase.Finished?
    ensures h.server.phase.AwaitUpstream? && h.server.pair.up.got == [] && h.server.pair.up.put == []
  {
    hide Reaches, Serialize, Stream, Server.Parsed, Server.Wired, Server.Scripted, Client.Ok;
  }

  lemma AskMoves(h: Hop, e: Client.Event)
    requires HopOk(h, false) && h.upstream.Socks? && Client.Enabled(h.upstream.client, e)
    ensures var k := AfterClient(h, Client.Apply(h.upstream.client, e));
      && Moves(h, k, false, [], Taken(e))
      && (k.server.phase.Idle? <==> h.server.phase.Idle?)
      && (Reached(k) <==> Reached(h) || e.Connect?)
  {
    hide Server.Ok, Server.Apply, Client.Ok, Client.Apply, Client.Enabled, DownGot, DownPut, Direct.Possible;
    var x := h.upstream.client;
    var y := Client.Apply(x, e);
    var k := AfterClient(h, y);
    Client.ApplyOk(x, e);
    ClientBytes(x, e);
    ClientAtWork(h);
    if Answered(y).Some? {
      var a := Server.Answer(Answered(y).value);
      Server.ApplyOk(h.server, a);
      ServerFrame(h.server, a);
      ServerBytes(h.server, a);
    }
    AnsweredWhenFinished(y);
    assert k.server.pair.up.got == [] && [] <= k.server.pair.up.put;
    assert UpGot(k) == UpGot(h) + Taken(e);
    assert UpPut(h) == x.sent && UpPut(h) <= UpPut(k);
  }

  lemma AnsweredWhenFinished(x: Client.Client)
    requires Client.Ok(x)
    ensures Answered(x).Some? <==> x.phase.Finished?
  {
    hide Reaches, Serialize, Stream, Client.Parsed, Client.Wired, Client.Ordered;
  }

  lemma ConcludeMoves(h: Hop, o: Outcome)
    requires HopOk(h, true) && h.upstream.Direct? && h.server.phase.AwaitUpstream?
    requires Direct.Possible(h.upstream.target, o)
    ensures var k := Hop(Server.Apply(h.server, Server.Answer(o)), h.upstream.(answer := Some(o)));
      && Moves(h, k, true, [], [])
      && (k.server.phase.Idle? <==> h.server.phase.Idle?)
      && (Reached(k) <==> Reached(h))
  {
    hide Server.Ok, Server.Apply, Client.Ok, DownGot, DownPut, Direct.Possible;
    Server.ApplyOk(h.server, Server.Answer(o));
    ServerFrame(h.server, Server.Answer(o));
    ServerBytes(h.server, Server.Answer(o));
  }

  lemma AcceptMoves(h: Hop, isLast: bool)
    requires HopOk(h, isLast) && Server.Enabled(h.server, Server.Accept)
    ensures var k := h.(server := Server.Apply(h.server, Server.Accept));
      && Moves(h, k, isLast, [], [])
      && !k.server.phase.Idle?
      && (Reached(k) <==> Reached(h))
  {
    hide Server.Ok, Client.Ok, DownGot, DownPut, Direct.Possible;
    Server.ApplyOk(h.server, Server.Accept);
    ServerFrame(h.server, Server.Accept);
    ServerBytes(h.server, Server.Accept);
  }

  lemma PrefixTransitive(x: bytes, y: bytes, z: bytes)
    requires x <= y && y <= z
    ensures x <= z
  {
  }

  /** A hop that takes nothing more is well linked to neighbours that only write more. */
  lemma LinkGrows(c: Chain, d: Chain, j: nat)
    requires j < |c.hops| == |d.hops| && LinkOk(c, j)
    requires DownGot(d.hops[j].server) == DownGot(c.hops[j].server) && UpGot(d.hops[j]) == UpGot(c.hops[j])
    requires c.app <= d.app && c.target <= d.target
    requires j > 0 ==> UpPut(c.hops[j - 1]) <= UpPut(d.hops[j - 1])
    requires j < |c.hops| - 1 ==> DownPut(c.hops[j + 1].server) <= DownPut(d.hops[j + 1].server)
    ensures LinkOk(d, j)
  {
    hide DownGot, DownPut, UpGot, UpPut;
    PrefixTransitive(DownGot(c.hops[j].server), Toward(c, j), Toward(d, j));
    PrefixTransitive(UpGot(c.hops[j]), Back(c, j), Back(d, j));
  }

  lemma LinkMoves(c: Chain, d: Chain, i: nat, down: bytes, up: bytes)
    requires i < |c.hops| == |d.hops|
    requires DownGot(c.hops[i].server) + down <= Toward(c, i) && UpGot(c.hops[i]) + up <= Back(c, i)
    requires DownGot(d.hops[i].server) == DownGot(c.hops[i].server) + down && UpGot(d.hops[i]) == UpGot(c.hops[i]) + up
    requires c.app == d.app && c.target == d.target
    requires i > 0 ==> c.hops[i - 1] == d.hops[i - 1]
    requires i < |c.hops| - 1 ==> c.hops[i + 1] == d.hops[i + 1]
    ensures LinkOk(d, i)
  {
  }

  /** One hop moves within what its neighbours have written. */
  lemma HopUpdate(c: Chain, i: nat, k: Hop, down: bytes, up: bytes)
    requires ChainOk(c) && i < |c.hops|
    requires Moves(c.hops[i], k, i == |c.hops| - 1, down, up)
    requires DownGot(c.hops[i].server) + down <= Toward(c, i) && UpGot(c.hops[i]) + up <= Back(c, i)
    requires k.server.phase.Idle? <==> c.hops[i].server.phase.Idle?
    requires Reached(k) <==> Reached(c.hops[i])
    ensures ChainOk(c.(hops := c.hops[i := k]))
  {
    hide HopOk, LinkOk, DownGot, DownPut, UpGot, UpPut, Reached, Toward, Back;
    var d := c.(hops := c.hops[i := k]);
    forall j | 0 <= j < |d.hops|
      ensures LinkOk(d, j)
    {
      assert LinkOk(c, j);
      if j == i {
        LinkMoves(c, d, i, down, up);
      } else {
        LinkGrows(c, d, j);
      }
    }
  }

  lemma HopConnects(c: Chain, i: nat, k: Hop, l: Hop)
    requires ChainOk(c) && i + 1 < |c.hops|
    requires Moves(c.hops[i], k, false, [], []) && Moves(c.hops[i + 1], l, i + 1 == |c.hops| - 1, [], [])
    requires k.server.phase.Idle? <==> c.hops[i].server.phase.Idle?
    requires Reached(k) && !l.server.phase.Idle? && (Reached(l) <==> Reached(c.hops[i + 1]))
    ensures ChainOk(c.(hops := c.hops[i := k][i + 1 := l]))
  {
    hide HopOk, LinkOk, DownGot, DownPut, UpGot, UpPut, Reached, Toward, Back;
    var d := c.(hops := c.hops[i := k][i + 1 := l]);
    forall j | 0 <= j < |d.hops|
      ensures LinkOk(d, j)
    {
      assert LinkOk(c, j);
      LinkGrows(c, d, j);
    }
  }

  lemma OutsideOk(c: Chain, d: Chain)
    requires ChainOk(c) && d.hops == c.hops && c.app <= d.app && c.target <= d.target
    ensures ChainOk(d)
  {
    hide HopOk, LinkOk, DownGot, DownPut, UpGot, UpPut, Reached;
    forall j | 0 <= j < |d.hops|
      ensures LinkOk(d, j)
    {
      assert LinkOk(c, j);
      LinkGrows(c, d, j);
    }
  }

  lemma StepOk(c: Chain, d: Chain, m: Move)
    requires ChainOk(c) && Step(c, d, m)
    ensures ChainOk(d) && |d.hops| == |c.hops|
  {
    hide HopOk, Moves, DownGot, DownPut, UpGot, UpPut, Reached, Server.Apply, Client.Apply, Client.Enabled;
    match m
    case AppWrites(data) =>
      OutsideOk(c, d);
    case TargetWrites(data) =>
      OutsideOk(c, d);
    case Serve(i, e) =>
      var isLast := i == |c.hops| - 1;
      ServeMoves(c.hops[i], e, isLast);
      HopUpdate(c, i, AfterServer(c.hops[i], Server.Apply(c.hops[i].server, e), isLast), DownTaken(e), UpTaken(e));
    case Ask(i, e) =>
      AskMoves(c.hops[i], e);
      var k := AfterClient(c.hops[i], Client.Apply(c.hops[i].upstream.client, e));
      if e.Connect? {
        AcceptMoves(c.hops[i + 1], i + 1 == |c.hops| - 1);
        HopConnects(c, i, k, c.hops[i + 1].(server := Server.Apply(c.hops[i + 1].server, Server.Accept)));
      } else {
        assert LinkOk(c, i);
        assert DownGot(c.hops[i].server) + [] == DownGot(c.hops[i].server);
        HopUpdate(c, i, k, [], Taken(e));
      }
    case Conclude(o) =>
      var i := |c.hops| - 1;
      var h := c.hops[i];
      ConcludeMoves(h, o);
      assert LinkOk(c, i);
      assert Server.Enabled(h.server, Server.Answer(o));
      assert DownGot(h.server) + [] == DownGot(h.server) && UpGot(h) + [] == UpGot(h);
      HopUpdate(c, i, Hop(Server.Apply(h.server, Server.Answer(o)), h.upstream.(answer := Some(o))), [], []);
  }
}
