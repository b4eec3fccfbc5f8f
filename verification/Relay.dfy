/** The two relay loops of one connection. Each direction repeats a short read from one transport
    and a write of what it read to the other; the directions share both transports and either of
    them may close the pair while the other still has an operation or a completion outstanding. */
module Relay {
  import opened Packets

  const BUFFER_SIZE: nat := 0x4000

  /** One end of a transport: what was taken from it and what was handed to it so far, whether it is
      open, whether a write on it has failed (after which every later write fails), and what was in
      failed writes and never left. */
  datatype Port = Port(got: bytes, put: bytes, open: bool, broken: bool, dropped: bytes)

  /** The state of one direction: an outstanding operation (`Reading`, `Writing`), a completion that
      is queued but whose callback has not run (`ReadDone`, `ReadFailed`, `WriteDone`), or neither. */
  datatype Direction =
    | Reading
    | ReadDone(buffer: bytes)
    | ReadFailed
    | Writing(left: bytes)
    | WriteDone
    | Stopped

  datatype Event =
    | TakeSome(data: bytes)   // the read completes with some bytes
    | TakeNone                // the read completes with end of stream or an error
    | PutSome(count: nat)     // a fragment of the pending write leaves
    | PutAll                  // the write completes
    | PutFails                // the write fails
    | Callback                // the queued completion runs its callback

  datatype Way = Way(from: Port, to: Port, state: Direction)

  predicate Enabled(w: Way, e: Event) {
    match e
    case TakeSome(data) => w.state.Reading? && w.from.open && 1 <= |data| <= BUFFER_SIZE
    case TakeNone => w.state.Reading?
    case PutSome(n) => w.state.Writing? && w.to.open && !w.to.broken && 1 <= n <= |w.state.left|
    case PutAll => w.state == Writing([])
    case PutFails => w.state.Writing?
    case Callback => w.state.ReadDone? || w.state.ReadFailed? || w.state.WriteDone?
  }

  function Close(p: Port): Port {
    p.(open := false)
  }

  function Apply(w: Way, e: Event): Way
    requires Enabled(w, e)
  {
    match e
    case TakeSome(data) => w.(from := w.from.(got := w.from.got + data), state := ReadDone(data))
    case TakeNone => w.(state := ReadFailed)
    case PutSome(n) =>
      w.(to := w.to.(put := w.to.put + w.state.left[..n]), state := Writing(w.state.left[n..]))
    case PutAll => w.(state := WriteDone)
    case PutFails =>
      w.(to := w.to.(broken := true, dropped := w.to.dropped + w.state.left), state := WriteDone)
    case Callback =>
      match w.state
      case ReadDone(buffer) => w.(state := Writing(buffer))
      case WriteDone => w.(state := Reading)  // whatever the write reported
      case _ => Way(Close(w.from), Close(w.to), Stopped)
  }

  /** Both transports and both directions. */
  datatype Pair = Pair(down: Port, up: Port, upward: Direction, downward: Direction)

  function WayOf(p: Pair, isUpward: bool): Way {
    if isUpward then Way(p.down, p.up, p.upward) else Way(p.up, p.down, p.downward)
  }

  function WithWay(p: Pair, isUpward: bool, w: Way): Pair {
    if isUpward then Pair(w.from, w.to, w.state, p.downward) else Pair(w.to, w.from, p.upward, w.state)
  }

  ghost predicate Step(p: Pair, q: Pair, isUpward: bool, e: Event) {
    Enabled(WayOf(p, isUpward), e) && q == WithWay(p, isUpward, Apply(WayOf(p, isUpward), e))
  }

  ghost predicate Next(p: Pair, q: Pair) {
    exists isUpward, e :: Step(p, q, isUpward, e)
  }

  const FRESH: Port := Port([], [], true, false, [])

  /** The pair just after `StartRelay` was called for both directions. */
  const STARTED: Pair := Pair(FRESH, FRESH, Reading, Reading)

  // ----- what every step keeps -----

  function InFlight(d: Direction): bytes {
    match d
    case ReadDone(buffer) => buffer
    case Writing(left) => left
    case _ => []
  }

  /** What a direction has read and not delivered, oldest first: what failed writes dropped and what is
      in flight. */
  function Held(w: Way): bytes {
    w.to.dropped + InFlight(w.state)
  }

  /** Every byte taken is put, dropped or in flight, in this order, and the buffer is bounded. */
  ghost predicate WayOk(w: Way) {
    && |InFlight(w.state)| <= BUFFER_SIZE
    && w.to.put <= w.from.got
    && w.from.got == w.to.put + Held(w)
    && (!w.to.broken ==> w.to.dropped == [])
    && (w.state.Stopped? ==> !w.from.open && !w.to.open)
  }

  ghost predicate PairOk(p: Pair) {
    WayOk(WayOf(p, true)) && WayOk(WayOf(p, false)) && p.down.open == p.up.open
  }

  lemma ApplyKeepsWay(w: Way, e: Event)
    requires WayOk(w) && Enabled(w, e)
    ensures WayOk(Apply(w, e))
  {
    match e
    case PutSome(n) =>
      var left := w.state.left;
      assert w.to.put + left == (w.to.put + left[..n]) + left[n..];
    case TakeSome(data) =>
    case _ =>
  }

  lemma StepKeepsPair(p: Pair, q: Pair, isUpward: bool, e: Event)
    requires PairOk(p) && Step(p, q, isUpward, e)
    ensures PairOk(q)
  {
    ApplyKeepsWay(WayOf(p, isUpward), e);
  }

  ghost predicate IsRun(run: seq<Pair>) {
    run != [] && forall i :: 0 < i < |run| ==> Next(run[i - 1], run[i])
  }

  ghost predicate Drained(w: Way) {
    w.state.Reading? || w.state.ReadFailed? || w.state.Stopped? ==> w.from.got == w.to.put + w.to.dropped
  }

  /** In every state of every relay run, in both directions at once: every byte read was delivered,
      dropped by a failed write or is in the one bounded buffer in flight, in this order, and a
      direction that is waiting to read or has seen the end of its stream has none in flight. */
  lemma {:induction false} RelayDelivers(run: seq<Pair>)
    requires IsRun(run) && run[0] == STARTED
    ensures PairOk(run[|run| - 1])
    ensures |InFlight(run[|run| - 1].upward)| <= 0x4000 && |InFlight(run[|run| - 1].downward)| <= 0x4000
    ensures Drained(WayOf(run[|run| - 1], true)) && Drained(WayOf(run[|run| - 1], false))
  {
    hide Step, PairOk, Drained;
    if |run| == 1 {
      StartedOk();
    } else {
      RelayDelivers(run[..|run| - 1]);
      var p, q := run[|run| - 2], run[|run| - 1];
      assert Next(p, q);
      var isUpward, e :| Step(p, q, isUpward, e);
      StepKeepsPair(p, q, isUpward, e);
    }
    OkIsDrained(run[|run| - 1]);
  }

  lemma StartedOk()
    ensures PairOk(STARTED)
  {
  }

  lemma OkIsDrained(p: Pair)
    requires PairOk(p)
    ensures Drained(WayOf(p, true)) && Drained(WayOf(p, false))
    ensures |InFlight(p.upward)| <= 0x4000 && |InFlight(p.downward)| <= 0x4000
  {
    hide Enabled, Apply;
  }

  // ----- what the unchecked write error costs -----

  datatype Move = Move(isUpward: bool, event: Event)

  ghost predicate IsTrace(run: seq<Pair>, moves: seq<Move>) {
    && |run| == |moves| + 1 && run[0] == STARTED
    && forall i :: 0 <= i < |moves| ==> Step(run[i], run[i + 1], moves[i].isUpward, moves[i].event)
  }

  /** Every write of the direction that failed had already put all its bytes. */
  ghost predicate FailsLate(run: seq<Pair>, moves: seq<Move>, isUpward: bool)
    requires |run| == |moves| + 1
  {
    forall i :: 0 <= i < |moves| && moves[i] == Move(isUpward, PutFails) ==>
      InFlight(WayOf(run[i], isUpward).state) == []
  }

  /** One step drops something exactly if it is a write that fails early. */
  lemma StepDrops(p: Pair, q: Pair, m: Move, isUpward: bool)
    requires Step(p, q, m.isUpward, m.event)
    ensures WayOf(q, isUpward).to.dropped == WayOf(p, isUpward).to.dropped +
      if m == Move(isUpward, PutFails) then InFlight(WayOf(p, isUpward).state) else []
  {
    var before := WayOf(p, isUpward).to.dropped;
    assert before + [] == before;
  }

  lemma FailsLateSnoc(run: seq<Pair>, moves: seq<Move>, isUpward: bool)
    requires |run| == |moves| + 1 && moves != []
    ensures var n := |moves| - 1;
      FailsLate(run, moves, isUpward) <==>
        && FailsLate(run[..n + 1], moves[..n], isUpward)
        && (moves[n] == Move(isUpward, PutFails) ==> InFlight(WayOf(run[n], isUpward).state) == [])
  {
    hide WayOf, InFlight;
    var n := |moves| - 1;
    assert forall i :: 0 <= i < n ==> moves[..n][i] == moves[i] && run[..n + 1][i] == run[i];
  }

  lemma {:induction false} DroppedExactly(run: seq<Pair>, moves: seq<Move>, isUpward: bool)
    requires IsTrace(run, moves)
    ensures PairOk(run[|moves|])
    ensures WayOf(run[|moves|], isUpward).to.dropped == [] <==> FailsLate(run, moves, isUpward)
  {
    hide Step, PairOk, FailsLate, WayOf, InFlight;
    if moves == [] {
      StartedOk();
      NothingDropped(run, moves, isUpward);
    } else {
      var n := |moves| - 1;
      ShorterTrace(run, moves);
      DroppedExactly(run[..n + 1], moves[..n], isUpward);
      assert run[..n + 1][n] == run[n];
      assert Step(run[n], run[n + 1], moves[n].isUpward, moves[n].event);
      StepKeepsPair(run[n], run[n + 1], moves[n].isUpward, moves[n].event);
      StepDrops(run[n], run[n + 1], moves[n], isUpward);
      FailsLateSnoc(run, moves, isUpward);
    }
  }

  lemma NothingDropped(run: seq<Pair>, moves: seq<Move>, isUpward: bool)
    requires run == [STARTED] && moves == []
    ensures FailsLate(run, moves, isUpward) && WayOf(run[0], isUpward).to.dropped == []
  {
  }

  lemma ShorterTrace(run: seq<Pair>, moves: seq<Move>)
    requires IsTrace(run, moves) && moves != []
    ensures IsTrace(run[..|moves|], moves[..|moves| - 1])
  {
    hide Step;
    var n := |moves| - 1;
    var shorter, fewer := run[..n + 1], moves[..n];
    forall i | 0 <= i < n
      ensures Step(shorter[i], shorter[i + 1], fewer[i].isUpward, fewer[i].event)
    {
      assert Step(run[i], run[i + 1], moves[i].isUpward, moves[i].event);
    }
  }

  /** Over every run and in either direction, all that was read is delivered or in flight if and only if
      no write failed before it had put all its bytes. */
  lemma LosesExactly(run: seq<Pair>, moves: seq<Move>, isUpward: bool)
    requires IsTrace(run, moves)
    ensures var w := WayOf(run[|moves|], isUpward);
      w.from.got == w.to.put + InFlight(w.state) <==> FailsLate(run, moves, isUpward)
  {
    hide FailsLate, Step;
    DroppedExactly(run, moves, isUpward);
    var w := WayOf(run[|moves|], isUpward);
    if w.from.got == w.to.put + InFlight(w.state) {
      assert |w.from.got| == |w.to.put| + |w.to.dropped| + |InFlight(w.state)|;
    } else {
      assert w.to.dropped == [] ==> Held(w) == InFlight(w.state);
    }
  }

  /** After a failed write nothing more is delivered in that direction, and every byte it goes on to read
      is dropped or on its way to be. */
  lemma {:induction false} NothingAfterFailure(run: seq<Pair>, isUpward: bool)
    requires IsRun(run) && PairOk(run[0]) && WayOf(run[0], isUpward).to.broken
    ensures var first, last := WayOf(run[0], isUpward), WayOf(run[|run| - 1], isUpward);
      && PairOk(run[|run| - 1])
      && last.to.broken && last.to.put == first.to.put && first.to.dropped <= last.to.dropped
      && last.from.got == first.to.put + Held(last)
  {
    hide Step, PairOk, WayOf, Held;
    if |run| > 1 {
      NothingAfterFailure(run[..|run| - 1], isUpward);
      var p, q := run[|run| - 2], run[|run| - 1];
      assert Next(p, q);
      var b, e :| Step(p, q, b, e);
      StepKeepsPair(p, q, b, e);
      StepDrops(p, q, Move(b, e), isUpward);
      BrokenStep(p, q, b, e, isUpward);
    }
    HeldIsUndelivered(run[|run| - 1], isUpward);
  }

  lemma BrokenStep(p: Pair, q: Pair, b: bool, e: Event, isUpward: bool)
    requires Step(p, q, b, e) && WayOf(p, isUpward).to.broken
    ensures WayOf(q, isUpward).to.broken && WayOf(q, isUpward).to.put == WayOf(p, isUpward).to.put
  {
  }

  lemma HeldIsUndelivered(p: Pair, isUpward: bool)
    requires PairOk(p)
    ensures var w := WayOf(p, isUpward); w.from.got == w.to.put + Held(w)
  {
  }

  function Concat(chunks: seq<bytes>): bytes {
    if chunks == [] then [] else Concat(chunks[..|chunks| - 1]) + chunks[|chunks| - 1]
  }

  lemma ExtendTrace(run: seq<Pair>, moves: seq<Move>, m: Move) returns (longer: seq<Pair>, more: seq<Move>)
    requires IsTrace(run, moves) && Enabled(WayOf(run[|moves|], m.isUpward), m.event)
    ensures IsTrace(longer, more)
    ensures longer[|more|] == WithWay(run[|moves|], m.isUpward, Apply(WayOf(run[|moves|], m.isUpward), m.event))
  {
    hide Enabled, Apply;
    var last := run[|moves|];
    longer, more := run + [WithWay(last, m.isUpward, Apply(WayOf(last, m.isUpward), m.event))], moves + [m];
  }

  /** One turn of a loop whose write fails at once: the chunk is read, dropped, and reading goes on. */
  lemma DiscardOne(run: seq<Pair>, moves: seq<Move>, isUpward: bool, chunk: bytes)
    returns (longer: seq<Pair>, more: seq<Move>)
    requires IsTrace(run, moves) && 1 <= |chunk| <= BUFFER_SIZE
    requires WayOf(run[|moves|], isUpward).state.Reading? && run[|moves|].down.open && run[|moves|].up.open
    ensures IsTrace(longer, more)
    ensures var v, w := WayOf(run[|moves|], isUpward), WayOf(longer[|more|], isUpward);
      && w.state.Reading? && w.from.open && w.to.open && w.to.put == v.to.put
      && w.from.got == v.from.got + chunk && w.to.dropped == v.to.dropped + chunk
  {
    hide IsTrace;
    longer, more := ExtendTrace(run, moves, Move(isUpward, TakeSome(chunk)));
    longer, more := ExtendTrace(longer, more, Move(isUpward, Callback));
    longer, more := ExtendTrace(longer, more, Move(isUpward, PutFails));
    longer, more := ExtendTrace(longer, more, Move(isUpward, Callback));
  }

  /** The loss has no bound: whatever chunks arrive, there is a run in which all of them are read and none
      is delivered, with both transports still open and the loop reading on. */
  lemma {:induction false} DiscardsEverything(chunks: seq<bytes>, isUpward: bool)
    returns (run: seq<Pair>, moves: seq<Move>)
    requires forall i :: 0 <= i < |chunks| ==> 1 <= |chunks[i]| <= 0x4000
    ensures IsTrace(run, moves)
    ensures var w := WayOf(run[|moves|], isUpward);
      && w.state.Reading? && w.from.open && w.to.open
      && w.from.got == w.to.dropped == Concat(chunks) && w.to.put == []
  {
    hide Step;
    if chunks == [] {
      run, moves := [STARTED], [];
    } else {
      var n := |chunks| - 1;
      run, moves := DiscardsEverything(chunks[..n], isUpward);
      run, moves := DiscardOne(run, moves, isUpward, chunks[n]);
    }
  }

  // ----- winding down -----

  /** Completions still to come in a direction once the pair is closed. */
  function Remaining(d: Direction): nat {
    match d
    case Stopped => 0
    case ReadFailed => 1
    case Reading => 2
    case WriteDone => 3
    case Writing(_) => 4
    case ReadDone(_) => 5
  }

  function PairRemaining(p: Pair): nat {
    Remaining(p.upward) + Remaining(p.downward)
  }

  /** On a closed pair every step uses up one completion and the pair stays closed. */
  lemma ClosedStepDecreases(p: Pair, q: Pair)
    requires PairOk(p) && !p.down.open && Next(p, q)
    ensures PairOk(q) && !q.down.open && !q.up.open
    ensures PairRemaining(q) < PairRemaining(p)
  {
    var isUpward, e :| Step(p, q, isUpward, e);
    StepKeepsPair(p, q, isUpward, e);
  }

  ghost predicate CanStep(p: Pair) {
    exists q :: Next(p, q)
  }

  /** A direction that has not stopped always has a step that needs nobody's help. */
  lemma UnstoppedCanStep(p: Pair, isUpward: bool)
    requires !WayOf(p, isUpward).state.Stopped?
    ensures CanStep(p)
  {
    var w := WayOf(p, isUpward);
    var e := match w.state
      case Reading => TakeNone
      case Writing(_) => PutFails
      case _ => Callback;
    var q := WithWay(p, isUpward, Apply(w, e));
    assert Step(p, q, isUpward, e);
    assert Next(p, q);
  }

  /** Once either direction has closed the pair at most ten completions follow, whatever their
      order, and a run that cannot go on has stopped both loops and closed both transports. */
  lemma {:induction false} RelayWindsDown(run: seq<Pair>)
    requires IsRun(run) && PairOk(run[0]) && !run[0].down.open
    ensures |run| - 1 + PairRemaining(run[|run| - 1]) <= PairRemaining(run[0]) <= 10
    ensures PairOk(run[|run| - 1]) && !run[|run| - 1].down.open && !run[|run| - 1].up.open
    ensures CanStep(run[|run| - 1]) <==> !(run[|run| - 1].upward.Stopped? && run[|run| - 1].downward.Stopped?)
  {
    hide PairOk, PairRemaining, Next, CanStep;
    var last := run[|run| - 1];
    if |run| > 1 {
      RelayWindsDown(run[..|run| - 1]);
      assert Next(run[|run| - 2], last);
      ClosedStepDecreases(run[|run| - 2], last);
    }
    AtMostTen(run[0]);
    ClosedCanStep(last);
  }

  lemma AtMostTen(p: Pair)
    ensures PairRemaining(p) <= 10
  {
  }

  /** A closed pair can go on exactly while a loop has not stopped. */
  lemma ClosedCanStep(p: Pair)
    requires PairOk(p) && !p.down.open
    ensures !p.up.open && (CanStep(p) <==> !(p.upward.Stopped? && p.downward.Stopped?))
  {
    hide Next, Enabled, Apply;
    if !p.upward.Stopped? {
      UnstoppedCanStep(p, true);
    } else if !p.downward.Stopped? {
      UnstoppedCanStep(p, false);
    } else if CanStep(p) {
      var q :| Next(p, q);
      ClosedStepDecreases(p, q);
    }
  }
}
