/** A chain comes to rest: a bound on its steps of any kind while the two ends write nothing more, and with
    it the closing of the whole chain. */
module Draining {
  import opened Packets
  import opened Base
  import Relay
  import Server
  import Client
  import opened Chain
  import opened Links
  import opened EndToEnd
  import opened Closing
  import Progress

  // ----- the work left -----

  /** A byte weighs `b + 5` before a direction reads it, `b + 1` in its buffer and `b` once delivered. */
  function WayWork(b: int, w: Relay.Way): int {
    b * |w.to.put| - (b + 5) * |w.from.got| + (b + 1) * |Relay.InFlight(w.state)| + Relay.Remaining(w.state)
  }

  lemma TakeWorks(b: int, got: int, n: int)
    requires n >= 1
    ensures -(b + 5) * (got + n) + (b + 1) * n + 3 < -(b + 5) * got
  {
    assert (b + 5) * (got + n) == (b + 5) * got + (b + 5) * n;
    assert (b + 5) * n == (b + 1) * n + 4 * n;
  }

  lemma PutWorks(b: int, put: int, left: int, n: int)
    requires n >= 1
    ensures b * (put + n) + (b + 1) * (left - n) < b * put + (b + 1) * left
  {
    assert b * (put + n) == b * put + b * n;
    assert (b + 1) * (left - n) == (b + 1) * left - (b * n + n);
  }

  /** Every completion in a direction leaves less work. */
  lemma WayStepWorks(b: int, w: Relay.Way, e: Relay.Event)
    requires b >= 0 && Relay.Enabled(w, e)
    ensures WayWork(b, Relay.Apply(w, e)) < WayWork(b, w)
  {
    match e
    case TakeSome(data) =>
      TakeWorks(b, |w.from.got|, |data|);
    case PutSome(n) =>
      PutWorks(b, |w.to.put|, |w.state.left|, n);
    case PutFails =>
      assert (b + 1) * |w.state.left| >= 0;
    case _ =>
  }

  /** Going up, a byte weighs less with every hop; going down too. */
  function HopWork(p: Relay.Pair, i: int, n: int): int {
    WayWork(5 * (n - i - 1), Relay.WayOf(p, true)) + WayWork(5 * i, Relay.WayOf(p, false))
  }

  function WorkFrom(hops: seq<Hop>, i: nat): int
    requires i <= |hops|
    decreases |hops| - i
  {
    if i == |hops| then 0 else HopWork(hops[i].server.pair, i, |hops|) + WorkFrom(hops, i + 1)
  }

  lemma PairStepWorks(p: Relay.Pair, isUpward: bool, e: Relay.Event, i: int, n: int)
    requires 0 <= i < n && Relay.Enabled(Relay.WayOf(p, isUpward), e)
    ensures HopWork(Relay.WithWay(p, isUpward, Relay.Apply(Relay.WayOf(p, isUpward), e)), i, n) < HopWork(p, i, n)
  {
    var w := Relay.WayOf(p, isUpward);
    WayStepWorks(if isUpward then 5 * (n - i - 1) else 5 * i, w, e);
    OtherWay(p, isUpward, e, if isUpward then 5 * i else 5 * (n - i - 1));
  }

  lemma OtherWay(p: Relay.Pair, isUpward: bool, e: Relay.Event, b: int)
    requires Relay.Enabled(Relay.WayOf(p, isUpward), e)
    ensures var q := Relay.WithWay(p, isUpward, Relay.Apply(Relay.WayOf(p, isUpward), e));
      && Relay.WayOf(q, isUpward) == Relay.Apply(Relay.WayOf(p, isUpward), e)
      && WayWork(b, Relay.WayOf(q, !isUpward)) == WayWork(b, Relay.WayOf(p, !isUpward))
  {
  }

  lemma {:induction false} UpdateWork(hops: seq<Hop>, i: nat, k: Hop, j: nat)
    requires i < |hops| && j <= |hops|
    ensures WorkFrom(hops[i := k], j) == WorkFrom(hops, j) +
      if j <= i then HopWork(k.server.pair, i, |hops|) - HopWork(hops[i].server.pair, i, |hops|) else 0
    decreases |hops| - j
  {
    hide HopWork;
    if j < |hops| {
      UpdateWork(hops, i, k, j + 1);
    }
  }

  // ----- it cannot fall without end -----

  /** The weight of what a chain from hop `k` on can have taken from either end. */
  lemma {:induction false} WorkIsBounded(c: Chain, k: nat)
    requires ChainOk(c) && k < |c.hops|
    ensures var n, p := |c.hops|, c.hops[k].server.pair;
      WorkFrom(c.hops, k) >=
        5 * k * |p.down.put| - 5 * (n - k) * |p.down.got| - 5 * n * |c.hops[n - 1].server.pair.up.got|
    decreases |c.hops| - k
  {
    hide ChainOk, WayWork, HopWork;
    var n, p := |c.hops|, c.hops[k].server.pair;
    HopWorkAtLeast(p, k, n);
    if k + 1 < n {
      WorkIsBounded(c, k + 1);
      var q := c.hops[k + 1].server.pair;
      Neighbours(c, k);
      Weigh(5 * (k + 1), |p.up.got|, |q.down.put|);
      Weigh(5 * (n - k - 1), |q.down.got|, |p.up.put|);
    } else {
      assert 5 * (n - k - 1) * |p.up.put| == 0;
    }
  }

  lemma Weigh(a: int, x: int, y: int)
    requires a >= 0 && x <= y
    ensures a * x <= a * y
  {
  }

  lemma HopWorkAtLeast(p: Relay.Pair, k: int, n: int)
    requires 0 <= k < n
    ensures HopWork(p, k, n) >= 5 * (n - k - 1) * |p.up.put| - 5 * (n - k) * |p.down.got|
                                + 5 * k * |p.down.put| - 5 * (k + 1) * |p.up.got|
  {
    WayWorkAtLeast(5 * (n - k - 1), Relay.WayOf(p, true));
    WayWorkAtLeast(5 * k, Relay.WayOf(p, false));
    assert 5 * (n - k - 1) + 5 == 5 * (n - k) && 5 * k + 5 == 5 * (k + 1);
  }

  lemma WayWorkAtLeast(b: int, w: Relay.Way)
    requires b >= 0
    ensures WayWork(b, w) >= b * |w.to.put| - (b + 5) * |w.from.got|
  {
    Weigh(b + 1, 0, |Relay.InFlight(w.state)|);
  }

  /** Neighbours have read as payload at most what was written to them as payload. */
  lemma Neighbours(c: Chain, k: nat)
    requires ChainOk(c) && k + 1 < |c.hops|
    ensures |c.hops[k].server.pair.up.got| <= |c.hops[k + 1].server.pair.down.put|
    ensures |c.hops[k + 1].server.pair.down.got| <= |c.hops[k].server.pair.up.put|
  {
    hide ChainOk, HopOk, Reaches, Serialize, Stream, Server.Ok;
    if !c.hops[k + 1].server.phase.Idle? {
      NeighboursAgree(c, k + 1);
    } else {
      HopIsOk(c, k);
      HopIsOk(c, k + 1);
      ServerIsOk(c.hops[k], k == |c.hops| - 1);
      ServerIsOk(c.hops[k + 1], k + 1 == |c.hops| - 1);
      RelayingIsConnected(c.hops[k].server);
      RelayingIsConnected(c.hops[k + 1].server);
      if c.hops[k].server.phase.Relaying? {
        RelayingReached(c, k);
      }
    }
  }

  /** The work left and what the two ends have written. */
  function Bound(c: Chain): int {
    WorkFrom(c.hops, 0) + 5 * |c.hops| * |c.app| + 5 * |c.hops| * |c.target|
  }

  lemma BoundIsNatural(c: Chain)
    requires ChainOk(c)
    ensures Bound(c) >= 0
  {
    hide ChainOk, HopOk, WayWork, HopWork;
    HasHops(c);
    var n := |c.hops|;
    WorkIsBounded(c, 0);
    HopIsOk(c, 0);
    HopIsOk(c, n - 1);
    LastIsDirect(c.hops[n - 1]);
    EndsRead(c);
    Weigh(5 * n, |c.hops[0].server.pair.down.got|, |c.app|);
    Weigh(5 * n, |c.hops[n - 1].server.pair.up.got|, |c.target|);
  }

  lemma EndsRead(c: Chain)
    requires c.hops != [] && LinkOk(c, 0) && LinkOk(c, |c.hops| - 1)
    requires UpGot(c.hops[|c.hops| - 1]) == c.hops[|c.hops| - 1].server.pair.up.got
    ensures |c.hops[0].server.pair.down.got| <= |c.app|
    ensures |c.hops[|c.hops| - 1].server.pair.up.got| <= |c.target|
  {
  }

  // ----- relay steps -----

  predicate IsRelay(m: Move) {
    m.Serve? && m.event.Relayed?
  }

  lemma RelayStepWorks(c: Chain, d: Chain, m: Move)
    requires Step(c, d, m) && IsRelay(m)
    ensures d.app == c.app && d.target == c.target && |d.hops| == |c.hops|
    ensures Bound(d) < Bound(c)
    ensures AllRelay(c) ==> AllRelay(d)
    ensures forall i :: 0 <= i < |c.hops| && PairClosed(c.hops[i]) ==> PairClosed(d.hops[i])
  {
    hide HopWork, DownGot, UpGot, Toward, Back, Relay.Apply, Relay.Enabled, Relay.WithWay, Relay.WayOf;
    var i, s := m.hop, c.hops[m.hop].server;
    RelayAlone(c.hops[i], m.event, i == |c.hops| - 1);
    PairStepWorks(s.pair, m.event.isUpward, m.event.event, i, |c.hops|);
    UpdateWork(c.hops, i, d.hops[i], 0);
    StaysClosed(s.pair, m.event.isUpward, m.event.event);
  }

  lemma RelayAlone(h: Hop, e: Server.Event, isLast: bool)
    requires e.Relayed? && Server.Enabled(h.server, e)
    ensures var k, p := AfterServer(h, Server.Apply(h.server, e), isLast), h.server.pair;
      && k.server.phase.Relaying?
      && k.server.pair == Relay.WithWay(p, e.isUpward, Relay.Apply(Relay.WayOf(p, e.isUpward), e.event))
  {
    hide Relay.Apply, Relay.Enabled, Relay.WithWay, Relay.WayOf;
  }

  lemma StaysClosed(p: Relay.Pair, isUpward: bool, e: Relay.Event)
    requires Relay.Enabled(Relay.WayOf(p, isUpward), e)
    ensures var q := Relay.WithWay(p, isUpward, Relay.Apply(Relay.WayOf(p, isUpward), e));
      !p.down.open && !p.up.open ==> !q.down.open && !q.up.open
  {
  }

  // ----- handshake steps -----

  /** A handshake event moves no payload; it may start both loops. */
  lemma EventPair(s: Server.Server, e: Server.Event)
    requires Server.Ok(s) && Server.Enabled(s, e) && !e.Relayed?
    ensures var p, q := s.pair, Server.Apply(s, e).pair;
      && p.down.got == p.down.put == p.up.got == p.up.put == []
      && q.down.got == q.down.put == q.up.got == q.up.put == []
      && (q.upward == p.upward || q.upward == Relay.Reading)
      && (q.downward == p.downward || q.downward == Relay.Reading)
  {
    hide Reaches, Serialize, Stream, Feed, Server.Parsed, Server.Ordered, Server.Scripted, Server.Wired;
    hide Relay.PairOk, Relay.Enabled, Relay.Apply;
  }

  lemma WayStarts(b: int, v: Relay.Way, w: Relay.Way)
    requires b >= 0 && v.from.got == v.to.put == w.from.got == w.to.put == []
    requires w.state == v.state || w.state == Relay.Reading
    ensures WayWork(b, w) <= WayWork(b, v) + 2
  {
    Weigh(b + 1, 0, |Relay.InFlight(v.state)|);
  }

  lemma EventWorks(s: Server.Server, e: Server.Event, i: int, n: int)
    requires Server.Ok(s) && Server.Enabled(s, e) && !e.Relayed? && 0 <= i < n
    ensures HopWork(Server.Apply(s, e).pair, i, n) <= HopWork(s.pair, i, n) + 4
  {
    hide Server.Ok, Server.Apply, Server.Enabled, WayWork;
    var p, q := s.pair, Server.Apply(s, e).pair;
    EventPair(s, e);
    WayStarts(5 * (n - i - 1), Relay.WayOf(p, true), Relay.WayOf(q, true));
    WayStarts(5 * i, Relay.WayOf(p, false), Relay.WayOf(q, false));
  }

  lemma ServeWorks(c: Chain, d: Chain, i: nat, e: Server.Event)
    requires ChainOk(c) && ServeStep(c, d, i, e) && !e.Relayed?
    ensures WorkFrom(d.hops, 0) <= WorkFrom(c.hops, 0) + 4
  {
    hide ChainOk, HopOk, HopWork, DownGot, UpGot, Toward, Back, Server.Ok, Server.Apply, Server.Enabled;
    HopIsOk(c, i);
    ServerIsOk(c.hops[i], i == |c.hops| - 1);
    EventWorks(c.hops[i].server, e, i, |c.hops|);
    UpdateWork(c.hops, i, d.hops[i], 0);
  }

  lemma AskWorks(c: Chain, i: nat, e: Client.Event)
    requires ChainOk(c) && i + 1 < |c.hops| && c.hops[i].upstream.Socks?
    requires Client.Enabled(c.hops[i].upstream.client, e)
    ensures var k := AfterClient(c.hops[i], Client.Apply(c.hops[i].upstream.client, e));
      WorkFrom(c.hops[i := k], 0) <= WorkFrom(c.hops, 0) + 4
  {
    hide ChainOk, HopOk, HopWork, Server.Ok, Server.Apply, Client.Apply, Client.Enabled;
    var h := c.hops[i];
    HopIsOk(c, i);
    ServerIsOk(h, false);
    var k := AfterClient(h, Client.Apply(h.upstream.client, e));
    if k.server != h.server {
      EventWorks(h.server, Server.Answer(Answered(k.upstream.client).value), i, |c.hops|);
    }
    UpdateWork(c.hops, i, k, 0);
  }

  lemma AcceptWorks(hops: seq<Hop>, i: nat)
    requires i < |hops| && hops[i].server.phase.Idle?
    ensures WorkFrom(hops[i := hops[i].(server := Server.Apply(hops[i].server, Server.Accept))], 0) == WorkFrom(hops, 0)
  {
    hide HopWork;
    UpdateWork(hops, i, hops[i].(server := Server.Apply(hops[i].server, Server.Accept)), 0);
  }

  lemma ConcludeWorks(c: Chain, d: Chain, o: Outcome)
    requires ChainOk(c) && ConcludeStep(c, d, o)
    ensures WorkFrom(d.hops, 0) <= WorkFrom(c.hops, 0) + 4
  {
    hide ChainOk, HopOk, HopWork, Server.Ok, Server.Apply;
    var i := |c.hops| - 1;
    HopIsOk(c, i);
    ServerIsOk(c.hops[i], true);
    EventWorks(c.hops[i].server, Server.Answer(o), i, |c.hops|);
    UpdateWork(c.hops, i, d.hops[i], 0);
  }

  lemma HandshakeWorks(c: Chain, d: Chain, m: Move)
    requires ChainOk(c) && Step(c, d, m) && Progress.IsHandshake(m)
    ensures d.app == c.app && d.target == c.target && |d.hops| == |c.hops|
    ensures WorkFrom(d.hops, 0) <= WorkFrom(c.hops, 0) + 4
  {
    hide ChainOk, HopWork, WorkFrom, DownGot, UpGot, Toward, Back, Server.Apply, Client.Apply, Client.Enabled;
    hide AfterClient, AfterServer;
    match m
    case Serve(i, e) => ServeWorks(c, d, i, e);
    case Ask(i, e) =>
      AskWorks(c, i, e);
      if e.Connect? {
        var k := AfterClient(c.hops[i], Client.Apply(c.hops[i].upstream.client, e));
        AcceptWorks(c.hops[i := k], i + 1);
      }
    case Conclude(o) => ConcludeWorks(c, d, o);
  }

  // ----- every run -----

  /** A step of the chain itself: not a write of one of the two ends. */
  predicate Inner(m: Move) {
    !m.AppWrites? && !m.TargetWrites?
  }

  /** An upper bound on the steps from `c` on. */
  function Load(c: Chain): int {
    Bound(c) + 5 * Progress.TotalRank(c.hops)
  }

  lemma StepLightens(c: Chain, d: Chain, m: Move)
    requires ChainOk(c) && Step(c, d, m) && Inner(m)
    ensures ChainOk(d) && |d.hops| == |c.hops| && Load(d) < Load(c)
  {
    hide ChainOk, Step, WorkFrom, Progress.TotalRank;
    StepOk(c, d, m);
    Progress.StepRank(c, d, m);
    if IsRelay(m) {
      RelayStepWorks(c, d, m);
    } else {
      HandshakeWorks(c, d, m);
    }
  }

  ghost predicate InnerNext(c: Chain, d: Chain) {
    exists m :: Inner(m) && Step(c, d, m)
  }

  ghost predicate IsInnerRun(run: seq<Chain>) {
    run != [] && forall i :: 0 < i < |run| ==> InnerNext(run[i - 1], run[i])
  }

  /** Whatever a chain of any length is doing, shaking hands, relaying or closing, in any order and failing
      where it may, it takes a bounded number of steps while the two ends write nothing more. */
  lemma {:induction false} RunIsBounded(run: seq<Chain>)
    requires IsInnerRun(run) && ChainOk(run[0])
    ensures var last := run[|run| - 1];
      ChainOk(last) && |last.hops| == |run[0].hops| && |run| - 1 + Load(last) <= Load(run[0]) && 0 <= Load(last)
  {
    hide ChainOk, Load, Step;
    if |run| > 1 {
      var n := |run| - 1;
      RunIsBounded(run[..n]);
      assert InnerNext(run[n - 1], run[n]);
      var m :| Inner(m) && Step(run[n - 1], run[n], m);
      StepLightens(run[n - 1], run[n], m);
    }
    LoadIsNatural(run[|run| - 1]);
  }

  lemma LoadIsNatural(c: Chain)
    requires ChainOk(c)
    ensures Load(c) >= 0
  {
    hide ChainOk, Bound, Progress.TotalRank;
    BoundIsNatural(c);
  }

  /** So every run from a reachable chain ends if the two ends write nothing more, and where it ends every
      contacted hop has closed its transports, but for a bad request of the application itself. */
  lemma EveryRunCloses(run: seq<Chain>)
    requires IsInnerRun(run) && Reachable(run[0])
    ensures |run| - 1 <= Load(run[0])
    ensures var last := run[|run| - 1];
      Exhausted(last) ==>
        forall i :: 0 <= i < |last.hops| && !last.hops[i].server.phase.Idle? ==> HopClosed(last, i)
  {
    hide ChainOk, Load, InnerNext, Reachable, Exhausted, HopClosed;
    ReachableOk(run[0]);
    RunIsBounded(run);
    var last := run[|run| - 1];
    if Exhausted(last) {
      forall i | 0 <= i < |last.hops| && !last.hops[i].server.phase.Idle?
        ensures HopClosed(last, i)
      {
        ExhaustedHop(last, i);
      }
    }
  }

  // ----- from one closed relay -----

  /** Where every hop relays no other step is left. */
  lemma OnlyRelays(c: Chain, d: Chain, m: Move)
    requires ChainOk(c) && AllRelay(c) && Step(c, d, m) && Inner(m)
    ensures IsRelay(m)
  {
    hide ChainOk, HopOk, DownGot, UpGot, Toward, Back, Server.Apply, Client.Apply;
    if m.Ask? {
      HopIsOk(c, m.hop);
      if !c.hops[m.hop].upstream.client.phase.Finished? {
        ClientAtWork(c.hops[m.hop]);
      }
    }
  }

  lemma {:induction false} RelayRun(run: seq<Chain>)
    requires IsInnerRun(run) && ChainOk(run[0]) && AllRelay(run[0])
    ensures var last := run[|run| - 1];
      && ChainOk(last) && AllRelay(last) && |last.hops| == |run[0].hops|
      && forall i :: 0 <= i < |last.hops| && PairClosed(run[0].hops[i]) ==> PairClosed(last.hops[i])
  {
    hide ChainOk, AllRelay, Bound, PairClosed, Step;
    if |run| > 1 {
      var n := |run| - 1;
      RelayRun(run[..n]);
      assert InnerNext(run[n - 1], run[n]);
      var m :| Inner(m) && Step(run[n - 1], run[n], m);
      OnlyRelays(run[n - 1], run[n], m);
      RelayStepWorks(run[n - 1], run[n], m);
      StepOk(run[n - 1], run[n], m);
    }
  }

  /** Once one hop of a relaying chain has closed its pair, closing spreads to all of it: relaying goes on
      for a bounded number of steps at most, and where it can go no further, streams ending as the
      neighbours close, every hop has stopped both loops and closed both transports. */
  lemma WholeChainCloses(run: seq<Chain>, i: nat)
    requires IsInnerRun(run) && Reachable(run[0]) && AllRelay(run[0])
    requires i < |run[0].hops| && PairClosed(run[0].hops[i])
    ensures |run| - 1 <= Load(run[0])
    ensures var last := run[|run| - 1];
      Quiet(last) ==> forall j :: 0 <= j < |last.hops| ==> PairClosed(last.hops[j]) && BothStopped(last.hops[j])
  {
    hide ChainOk, AllRelay, Load, PairClosed, BothStopped, Step, Quiet, InnerNext, Reachable;
    ReachableOk(run[0]);
    RunIsBounded(run);
    RelayRun(run);
    var last := run[|run| - 1];
    if Quiet(last) {
      forall j | 0 <= j < |last.hops|
        ensures PairClosed(last.hops[j]) && BothStopped(last.hops[j])
      {
        if i <= j {
          SpreadsUp(last, i, j);
        } else {
          SpreadsDown(last, i, j);
        }
      }
    }
  }
}
