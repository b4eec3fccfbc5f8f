/** An orderly close: once the application has ended its stream, everything it wrote is delivered before the
    chain has closed. */
module Delivery {
  import opened Packets
  import Relay
  import Server
  import opened Chain
  import opened Links
  import opened EndToEnd
  import opened Closing
  import opened Draining

  ghost predicate OrdinaryNext(c: Chain, d: Chain) {
    exists m :: Ordinary(c, m) && Step(c, d, m)
  }

  ghost predicate IsOrdinaryRun(run: seq<Chain>) {
    run != [] && forall i :: 0 < i < |run| ==> OrdinaryNext(run[i - 1], run[i])
  }

  /** The first hop has read all that the application wrote and stopped; no other hop has seen the end of a
      stream, and no write toward the destination has failed. */
  ghost predicate Orderly(c: Chain) {
    && c.hops != [] && AllRelay(c)
    && c.hops[0].server.pair.upward.Stopped? && AllRead(c, 0, true)
    && (forall j :: 0 <= j < |c.hops| ==> !c.hops[j].server.pair.up.broken)
    && (forall j :: 0 < j < |c.hops| ==> StillOpen(c.hops[j].server.pair))
  }

  predicate StillOpen(p: Relay.Pair) {
    p.down.open && p.up.open && !p.upward.ReadFailed? && !p.downward.ReadFailed?
  }

  // ----- what every ordinary step keeps -----

  /** Hop `j` sees its stream end, and closes, only after the hop before it has closed and everything that hop
      wrote has been read. */
  ghost predicate Orders(c: Chain, j: nat)
    requires j < |c.hops|
  {
    var p := c.hops[j].server.pair;
    var ended := (j > 0 ==> PairClosed(c.hops[j - 1])) && AllRead(c, j, true);
    && !p.up.broken && p.up.dropped == [] && p.down.open == p.up.open
    && if !p.up.open then p.upward.Stopped? && ended
       else
         && !p.upward.Stopped? && !p.downward.Stopped? && !p.downward.ReadFailed?
         && (p.upward.ReadFailed? ==> j > 0 && ended)
  }

  ghost predicate InOrder(c: Chain) {
    forall j :: 0 <= j < |c.hops| ==> Orders(c, j)
  }

  lemma PairFacts(c: Chain, j: nat)
    requires ChainOk(c) && AllRelay(c) && j < |c.hops|
    ensures var p := c.hops[j].server.pair; Relay.PairOk(p)
  {
    hide ChainOk, HopOk, LinkOk, Relay.PairOk;
    HopIsOk(c, j);
    ServerIsOk(c.hops[j], j == |c.hops| - 1);
    RelayingPair(c.hops[j].server);
  }

  lemma RelayingPair(s: Server.Server)
    requires Server.Ok(s) && s.phase.Relaying?
    ensures Relay.PairOk(s.pair)
  {
    hide Reaches, Serialize, Stream, Relay.PairOk;
    hide Server.Parsed, Server.Ordered, Server.Scripted, Server.Wired;
  }

  lemma OrderlyStarts(c: Chain)
    requires ChainOk(c) && Orderly(c)
    ensures InOrder(c)
  {
    hide ChainOk, AllRelay, AllRead;
    forall j | 0 <= j < |c.hops|
      ensures Orders(c, j)
    {
      PairFacts(c, j);
    }
  }

  /** A completion of the relay of an ended or a running hop, seen from the hop alone. */
  lemma PairStep(p: Relay.Pair, q: Relay.Pair, isUpward: bool, e: Relay.Event)
    requires Relay.Step(p, q, isUpward, e) && !p.up.broken && p.up.dropped == [] && p.down.open == p.up.open
    requires isUpward && e == Relay.PutFails ==> !p.up.open
    requires p.up.open ==> !p.upward.Stopped? && !p.downward.Stopped? && !p.downward.ReadFailed?
    requires p.up.open && e == Relay.TakeNone ==> isUpward
    requires !p.up.open ==> p.upward.Stopped?
    ensures !q.up.broken && q.up.dropped == [] && q.down.open == q.up.open
    ensures !q.up.open ==> q.upward.Stopped? && (p.up.open ==> p.upward.ReadFailed?) && q.down.got == p.down.got
    ensures q.up.open ==> p.up.open && !q.upward.Stopped? && !q.downward.Stopped? && !q.downward.ReadFailed?
    ensures q.upward.ReadFailed? ==>
      (p.upward.ReadFailed? || (isUpward && e == Relay.TakeNone)) && q.down.got == p.down.got
    ensures !p.up.open ==> q.up.put == p.up.put
  {
  }

  /** What an ordinary completion of hop `i` presupposes about its neighbours. */
  lemma OrdinaryFacts(c: Chain, i: nat, isUpward: bool, e: Relay.Event)
    requires InOrder(c) && i < |c.hops| && Ordinary(c, Serve(i, Server.Relayed(isUpward, e)))
    ensures var p := c.hops[i].server.pair;
      && (isUpward && e == Relay.PutFails ==> !p.up.open)
      && (p.up.open && e == Relay.TakeNone ==>
            isUpward && i > 0 && PairClosed(c.hops[i - 1]) && AllRead(c, i, true))
  {
    hide AllRead;
    assert Orders(c, i);
    if i > 0 {
      assert Orders(c, i - 1);
    }
    if i + 1 < |c.hops| {
      assert Orders(c, i + 1);
    }
  }

  lemma SelfOrders(c: Chain, d: Chain, i: nat, isUpward: bool, e: Relay.Event)
    requires InOrder(c) && i < |c.hops| == |d.hops| && Ordinary(c, Serve(i, Server.Relayed(isUpward, e)))
    requires Relay.Step(c.hops[i].server.pair, d.hops[i].server.pair, isUpward, e)
    requires d.hops[i].server.offer == c.hops[i].server.offer && d.hops[i].server.query == c.hops[i].server.query
    requires d.app == c.app && (i > 0 ==> d.hops[i - 1] == c.hops[i - 1])
    ensures Orders(d, i)
  {
    hide Relay.Step, Ordinary;
    var p, q := c.hops[i].server.pair, d.hops[i].server.pair;
    assert Orders(c, i);
    OrdinaryFacts(c, i, isUpward, e);
    PairStep(p, q, isUpward, e);
  }

  /** The hop behind the one that moved keeps what it has seen: a closed hop writes nothing more. */
  lemma NextOrders(c: Chain, d: Chain, i: nat)
    requires i + 1 < |c.hops| == |d.hops| && Orders(c, i + 1) && d.hops[i + 1] == c.hops[i + 1]
    requires PairClosed(c.hops[i]) ==> PairClosed(d.hops[i]) && UpPut(d.hops[i]) == UpPut(c.hops[i])
    ensures Orders(d, i + 1)
  {
    hide UpPut, DownGot;
  }

  lemma OtherOrders(c: Chain, d: Chain, i: nat, j: nat)
    requires i < |c.hops| == |d.hops| && j < |c.hops| && j != i && j != i + 1 && Orders(c, j)
    requires d.hops == c.hops[i := d.hops[i]] && d.app == c.app
    ensures Orders(d, j)
  {
    hide UpPut, DownGot;
  }

  lemma ClosedWritesNothing(c: Chain, d: Chain, i: nat, isUpward: bool, e: Relay.Event)
    requires InOrder(c) && i < |c.hops| == |d.hops| && Ordinary(c, Serve(i, Server.Relayed(isUpward, e)))
    requires Relay.Step(c.hops[i].server.pair, d.hops[i].server.pair, isUpward, e)
    requires d.hops[i].upstream == c.hops[i].upstream
    ensures PairClosed(c.hops[i]) ==> PairClosed(d.hops[i]) && UpPut(d.hops[i]) == UpPut(c.hops[i])
  {
    hide Relay.Step, Ordinary;
    assert Orders(c, i);
    OrdinaryFacts(c, i, isUpward, e);
    PairStep(c.hops[i].server.pair, d.hops[i].server.pair, isUpward, e);
  }

  /** An ordinary step of the chain is a step of one hop's relay and of nothing else. */
  lemma OrdinaryIsRelay(c: Chain, d: Chain, m: Move)
    requires Step(c, d, m) && Ordinary(c, m) && AllAsked(c)
    ensures var i := m.hop;
      && d.app == c.app && |d.hops| == |c.hops| && d.hops == c.hops[i := d.hops[i]]
      && Relay.Step(c.hops[i].server.pair, d.hops[i].server.pair, m.event.isUpward, m.event.event)
      && d.hops[i].server.offer == c.hops[i].server.offer && d.hops[i].server.query == c.hops[i].server.query
      && d.hops[i].upstream == c.hops[i].upstream
  {
    hide DownGot, UpGot, Toward, Back, Ordinary, Relay.Apply, Relay.Enabled;
    assert m.Serve? && m.event.Relayed? && m.hop < |c.hops| by { OrdinaryShape(c, m); }
  }

  lemma OrdinaryShape(c: Chain, m: Move)
    requires Ordinary(c, m)
    ensures m.Serve? && m.hop < |c.hops| && m.event.Relayed?
  {
  }

  /** Every relaying hop has asked its upstream already. */
  ghost predicate AllAsked(c: Chain) {
    forall j :: 0 <= j < |c.hops| ==> !c.hops[j].upstream.NotAsked?
  }

  lemma RelayingHasAsked(c: Chain)
    requires ChainOk(c) && AllRelay(c)
    ensures AllAsked(c)
  {
    hide ChainOk, Server.Ok, Client.Ok;
    forall j | 0 <= j < |c.hops|
      ensures !c.hops[j].upstream.NotAsked?
    {
      HopIsOk(c, j);
      RelayingIsConnected(c.hops[j].server);
      AnswerIsAsked(c.hops[j].server);
    }
  }

  lemma StepKeepsOrder(c: Chain, d: Chain, m: Move)
    requires ChainOk(c) && AllRelay(c) && InOrder(c) && Step(c, d, m) && Ordinary(c, m)
    ensures ChainOk(d) && AllRelay(d) && InOrder(d) && d.app == c.app && |d.hops| == |c.hops|
  {
    hide ChainOk, AllRelay, Orders, Step, Ordinary, Relay.Step, AllAsked;
    OrdinaryShape(c, m);
    StepOk(c, d, m);
    RelayStepWorks(c, d, m);
    RelayingHasAsked(c);
    OrdinaryIsRelay(c, d, m);
    var i := m.hop;
    ClosedWritesNothing(c, d, i, m.event.isUpward, m.event.event);
    forall j | 0 <= j < |d.hops|
      ensures Orders(d, j)
    {
      assert Orders(c, j);
      if j == i {
        SelfOrders(c, d, i, m.event.isUpward, m.event.event);
      } else if j == i + 1 {
        NextOrders(c, d, i);
      } else {
        OtherOrders(c, d, i, j);
      }
    }
  }

  lemma {:induction false} RunKeepsOrder(run: seq<Chain>)
    requires IsOrdinaryRun(run) && ChainOk(run[0]) && Orderly(run[0])
    ensures var last := run[|run| - 1];
      ChainOk(last) && AllRelay(last) && InOrder(last) && last.app == run[0].app && last.hops != []
    ensures PairClosed(run[|run| - 1].hops[0])
  {
    hide ChainOk, AllRelay, Orders, Step, Ordinary, InOrder;
    if |run| == 1 {
      OrderlyStarts(run[0]);
      FirstIsClosed(run[0]);
    } else {
      var n := |run| - 1;
      RunKeepsOrder(run[..n]);
      assert OrdinaryNext(run[n - 1], run[n]);
      var m :| Ordinary(run[n - 1], m) && Step(run[n - 1], run[n], m);
      OrdinaryShape(run[n - 1], m);
      RelayStepWorks(run[n - 1], run[n], m);
      StepKeepsOrder(run[n - 1], run[n], m);
    }
  }

  lemma FirstIsClosed(c: Chain)
    requires ChainOk(c) && Orderly(c)
    ensures PairClosed(c.hops[0])
  {
    hide ChainOk;
    PairFacts(c, 0);
  }

  // ----- all is delivered -----

  lemma {:induction false} NothingTravels(c: Chain, i: nat)
    requires i < |c.hops| && forall j :: 0 <= j <= i ==> LinkOk(c, j)
    requires forall j :: 0 <= j <= i ==> Orders(c, j) && !c.hops[j].server.pair.up.open
    ensures Travelling(c, i) == []
  {
    assert Orders(c, i) && LinkOk(c, i);
    if i > 0 {
      NothingTravels(c, i - 1);
    }
  }

  /** After an orderly end of the application's stream, relaying goes on for a bounded number of steps, and where
      it can go no further every byte that the application wrote behind its handshake has been written to
      the destination. */
  lemma OrderlyDelivery(run: seq<Chain>)
    requires IsOrdinaryRun(run) && Reachable(run[0]) && Orderly(run[0])
    ensures |run| - 1 <= Load(run[0])
    ensures var last := run[|run| - 1];
      && last.app == run[0].app && last.hops != []
      && (Quiet(last) ==>
            var first := last.hops[0].server;
            last.app == first.offer + first.query + last.hops[|last.hops| - 1].server.pair.up.put)
  {
    hide ChainOk, AllRelay, Orders, Reachable, Orderly, Load, Quiet, OrdinaryNext;
    var last := run[|run| - 1];
    ReachableOk(run[0]);
    RunKeepsOrder(run);
    OrdinaryIsInner(run);
    RunIsBounded(run);
    if Quiet(last) {
      AllDelivered(last);
    }
  }

  lemma OrdinaryIsInner(run: seq<Chain>)
    requires IsOrdinaryRun(run)
    ensures IsInnerRun(run)
  {
    hide Step, Ordinary;
    forall i | 0 < i < |run|
      ensures InnerNext(run[i - 1], run[i])
    {
      assert OrdinaryNext(run[i - 1], run[i]);
      var m :| Ordinary(run[i - 1], m) && Step(run[i - 1], run[i], m);
      OrdinaryShape(run[i - 1], m);
      assert Inner(m);
    }
  }

  lemma AllDelivered(c: Chain)
    requires ChainOk(c) && AllRelay(c) && InOrder(c) && Quiet(c) && c.hops != [] && PairClosed(c.hops[0])
    ensures var first := c.hops[0].server;
      c.app == first.offer + first.query + c.hops[|c.hops| - 1].server.pair.up.put
  {
    hide ChainOk, LinkOk, Orders, Quiet;
    var k := |c.hops| - 1;
    forall j | 0 <= j <= k
      ensures LinkOk(c, j) && !c.hops[j].server.pair.up.open && c.hops[j].server.phase.Relaying?
    {
      HopIsOk(c, j);
      SpreadsUp(c, 0, j);
    }
    NothingTravels(c, k);
    ConservedUpTo(c, k);
  }
}
