/** The upstream endpoint cache of the SOCKS upstream factory: concurrent `StartRequest` calls test an
    atomic flag, take a mutex, test again and then resolve, connect, write the endpoint and set the
    flag. Every atomic access is a step of its own, and the write of the endpoint is two. */
module EndpointCache {
  import opened Base
  import Direct

  type Endpoint = Direct.Endpoint

  /** What a call does once it has released the mutex. */
  datatype Then = Fail | Handshake(connected: Endpoint) | UseCache

  datatype Pc =
    | Outside
    | Called                                             // about to test the flag
    | Waiting                                            // about to take the mutex
    | Rechecking                                         // from here on it owns the mutex
    | Resolving
    | Connecting(results: seq<Endpoint>)
    | Writing(connected: Endpoint, value: Endpoint)      // connected, about to write the cache
    | Storing(connected: Endpoint, value: Endpoint)      // in the middle of the write
    | Flagging(connected: Endpoint, value: Endpoint)     // about to set the flag
    | Releasing(next: Then)
    | Reading                                            // about to read the cache, without the mutex

  /** What the first successful `TryConnect` had to go by: the resolved endpoints and which endpoints
      accepted connections at that time. */
  datatype Attempt = Attempt(results: seq<Endpoint>, accepting: set<Endpoint>)

  /** A connection to the cached endpoint, and whether it was accepted. */
  datatype Use = Use(endpoint: Endpoint, accepted: bool)

  /** `accepting` are the endpoints that accept connections now, `writes` counts completed writes of the
      cache, `attempt` is the successful `TryConnect`, `first` the endpoint its transport was connected
      to and `used` the later connections. `advances` says whether `TryConnect` moves the iterator to
      the result it connected to, as its interface promises. */
  datatype State = State(
    advances: bool,
    accepting: set<Endpoint>,
    flag: bool,
    cell: Option<Endpoint>,
    torn: bool,
    writes: nat,
    attempt: Option<Attempt>,
    first: Option<Endpoint>,
    owner: Option<nat>,
    pcs: seq<Pc>,
    used: seq<Use>)

  datatype Action =
    | Call
    | Test
    | Acquire
    | Recheck
    | ResolveFails
    | Resolve(results: seq<Endpoint>)
    | ConnectFails
    | Connect
    | BeginWrite
    | EndWrite
    | SetFlag
    | Release
    | Read
    | Change(accepting: set<Endpoint>)  // the world outside changes

  /** The first of the results that accepts, or their number if none does. */
  function FirstAccepting(results: seq<Endpoint>, accepting: set<Endpoint>): (k: nat)
    ensures k <= |results|
    ensures forall j :: 0 <= j < k ==> results[j] !in accepting
    ensures k < |results| ==> results[k] in accepting
  {
    if results == [] || results[0] in accepting then 0 else 1 + FirstAccepting(results[1..], accepting)
  }

  predicate Enabled(s: State, t: nat, a: Action) {
    && t < |s.pcs|
    && var pc := s.pcs[t];
       match a
       case Call => pc.Outside?
       case Test => pc.Called?
       case Acquire => pc.Waiting? && s.owner.None?
       case Recheck => pc.Rechecking?
       case ResolveFails => pc.Resolving?
       case Resolve(results) => pc.Resolving? && results != []
       case ConnectFails => pc.Connecting? && FirstAccepting(pc.results, s.accepting) == |pc.results|
       case Connect => pc.Connecting? && FirstAccepting(pc.results, s.accepting) < |pc.results|
       case BeginWrite => pc.Writing?
       case EndWrite => pc.Storing?
       case SetFlag => pc.Flagging?
       case Release => pc.Releasing?
       case Read => pc.Reading? && s.cell.Some?
       case Change(_) => true
  }

  function Move(s: State, t: nat, pc: Pc): State
    requires t < |s.pcs|
  {
    s.(pcs := s.pcs[t := pc])
  }

  function Apply(s: State, t: nat, a: Action): State
    requires Enabled(s, t, a)
  {
    var pc := s.pcs[t];
    match a
    case Call => Move(s, t, Called)
    case Test => Move(s, t, if s.flag then Reading else Waiting)
    case Acquire => Move(s, t, Rechecking).(owner := Some(t))
    case Recheck => Move(s, t, if s.flag then Releasing(UseCache) else Resolving)
    case ResolveFails => Move(s, t, Releasing(Fail))
    case Resolve(results) => Move(s, t, Connecting(results))
    case ConnectFails => Move(s, t, Releasing(Fail))
    case Connect =>
      // the value to be cached is what the iterator points to after the attempt
      var k := FirstAccepting(pc.results, s.accepting);
      Move(s, t, Writing(pc.results[k], pc.results[if s.advances then k else 0]))
        .(attempt := Some(Attempt(pc.results, s.accepting)))
    case BeginWrite => Move(s, t, Storing(pc.connected, pc.value)).(torn := true)
    case EndWrite =>
      Move(s, t, Flagging(pc.connected, pc.value))
        .(torn := false, cell := Some(pc.value), writes := s.writes + 1, first := Some(pc.connected))
    case SetFlag => Move(s, t, Releasing(Handshake(pc.connected))).(flag := true)
    case Release => Move(s, t, if pc.next.UseCache? then Reading else Outside).(owner := None)
    case Read => Move(s, t, Outside).(used := s.used + [Use(s.cell.value, s.cell.value in s.accepting)])
    case Change(accepting) => s.(accepting := accepting)
  }

  ghost predicate Initial(s: State) {
    && !s.flag && s.cell.None? && !s.torn && s.writes == 0 && s.attempt.None? && s.first.None?
    && s.owner.None? && s.used == []
    && forall t :: 0 <= t < |s.pcs| ==> s.pcs[t].Outside?
  }

  // ----- what every step keeps -----

  predicate OwnsMutex(pc: Pc) {
    !pc.Outside? && !pc.Called? && !pc.Waiting? && !pc.Reading?
  }

  /** `c` is the first accepting result of the attempt, `v` what the iterator pointed to after it. */
  ghost predicate FromAttempt(s: State, c: Endpoint, v: Endpoint) {
    s.attempt.Some? &&
    var Attempt(results, accepting) := s.attempt.value;
    var k := FirstAccepting(results, accepting);
    k < |results| && c == results[k] && v == results[if s.advances then k else 0]
  }

  /** What a call at `pc` relies on. */
  ghost predicate PcOk(s: State, t: nat)
    requires t < |s.pcs|
  {
    var pc := s.pcs[t];
    && (OwnsMutex(pc) <==> s.owner == Some(t))
    && match pc
       case Resolving => !s.flag && s.cell.None?
       case Connecting(results) => !s.flag && s.cell.None? && results != []
       case Writing(c, v) => !s.flag && s.cell.None? && FromAttempt(s, c, v)
       case Storing(c, v) => !s.flag && s.cell.None? && s.torn && FromAttempt(s, c, v)
       case Flagging(c, v) => !s.flag && s.cell == Some(v) && s.first == Some(c)
       case Releasing(Fail) => !s.flag && s.cell.None?
       case Releasing(Handshake(c)) => s.flag && s.first == Some(c)
       case Releasing(UseCache) => s.flag
       case Reading => s.flag
       case _ => true
  }

  ghost predicate Ok(s: State) {
    (forall t :: 0 <= t < |s.pcs| ==> PcOk(s, t)) && CacheOk(s)
  }

  ghost predicate CacheOk(s: State) {
    && (s.owner.Some? ==> s.owner.value < |s.pcs|)
    && (s.torn ==> s.owner.Some? && s.owner.value < |s.pcs| && s.pcs[s.owner.value].Storing?)
    && s.writes == (if s.cell.Some? then 1 else 0)
    && (s.cell.Some? <==> s.flag || (s.owner.Some? && s.owner.value < |s.pcs| && s.pcs[s.owner.value].Flagging?))
    && (s.cell.Some? <==> s.first.Some?)
    && (s.cell.Some? && s.first.Some? ==> FromAttempt(s, s.first.value, s.cell.value))
    && (forall i :: 0 <= i < |s.used| ==> s.cell == Some(s.used[i].endpoint))
  }

  lemma InitOk(s: State)
    requires Initial(s)
    ensures Ok(s)
  {
  }

  lemma PcKept(s: State, t: nat, a: Action, u: nat)
    requires Enabled(s, t, a) && PcOk(s, t) && CacheOk(s) && u < |s.pcs| && PcOk(s, u)
    ensures PcOk(Apply(s, t, a), u)
  {
    hide FirstAccepting;
  }

  lemma CacheKept(s: State, t: nat, a: Action)
    requires Enabled(s, t, a) && PcOk(s, t) && CacheOk(s)
    requires s.owner.Some? ==> PcOk(s, s.owner.value)
    ensures CacheOk(Apply(s, t, a))
  {
    hide FirstAccepting;
  }

  lemma StepOk(s: State, t: nat, a: Action)
    requires Ok(s) && Enabled(s, t, a)
    ensures Ok(Apply(s, t, a))
  {
    hide FirstAccepting, FromAttempt, CacheOk, PcOk;
    var d := Apply(s, t, a);
    assert PcOk(s, t);
    OwnerExists(s);
    forall u | 0 <= u < |d.pcs|
      ensures PcOk(d, u)
    {
      assert PcOk(s, u);
      PcKept(s, t, a, u);
    }
    CacheKept(s, t, a);
  }

  lemma OwnerExists(s: State)
    requires Ok(s)
    ensures s.owner.Some? ==> s.owner.value < |s.pcs| && PcOk(s, s.owner.value)
    ensures s.flag ==> s.cell.Some?
  {
    hide FromAttempt;
  }

  // ----- every run -----

  datatype Step = Step(thread: nat, action: Action)

  ghost predicate IsRun(run: seq<State>, steps: seq<Step>) {
    && |run| == |steps| + 1 && Initial(run[0])
    && forall i :: 0 <= i < |steps| ==>
         && Enabled(run[i], steps[i].thread, steps[i].action)
         && run[i + 1] == Apply(run[i], steps[i].thread, steps[i].action)
  }

  lemma {:induction false} RunOk(run: seq<State>, steps: seq<Step>)
    requires IsRun(run, steps)
    ensures Ok(run[|steps|])
  {
    hide Ok, Apply, Enabled;
    var n := |steps|;
    if n == 0 {
      InitOk(run[0]);
    } else {
      RunOk(run[..n], steps[..n - 1]);
      assert run[..n][n - 1] == run[n - 1] && run[n - 1 + 1] == run[n];
      StepOk(run[n - 1], steps[n - 1].thread, steps[n - 1].action);
    }
  }

  /** The cache is written at most once, never read before or during that write, and every value read
      from it is the one written. */
  lemma WrittenOnceReadAfter(run: seq<State>, steps: seq<Step>)
    requires IsRun(run, steps)
    ensures var s := run[|steps|];
      && s.writes <= 1
      && (forall t :: 0 <= t < |s.pcs| && s.pcs[t].Reading? ==> s.flag && !s.torn && s.writes == 1 && s.cell.Some?)
      && (forall i :: 0 <= i < |s.used| ==> s.cell == Some(s.used[i].endpoint))
  {
    var s := run[|steps|];
    RunOk(run, steps);
    if s.torn {
      assert PcOk(s, s.owner.value);
    }
    forall t | 0 <= t < |s.pcs| && s.pcs[t].Reading?
      ensures s.flag && !s.torn && s.writes == 1 && s.cell.Some?
    {
      assert PcOk(s, t);
    }
  }

  /** Once set, the flag and the cached endpoint stay as they are for the rest of any run. */
  lemma {:induction false} CacheIsStable(run: seq<State>, steps: seq<Step>, i: nat)
    requires IsRun(run, steps) && i <= |steps| && run[i].flag
    ensures run[|steps|].flag && run[|steps|].cell == run[i].cell
    decreases |steps| - i
  {
    if i < |steps| {
      RunOk(run[..i + 1], steps[..i]);
      assert run[i + 1] == Apply(run[i], steps[i].thread, steps[i].action);
      assert PcOk(run[i], steps[i].thread);
      CacheIsStable(run, steps, i + 1);
    }
  }

  /** A call whose resolution or connection failed releases the mutex with the flag still clear and
      nothing cached, so that the next call starts over. */
  lemma FailureLeavesRetry(run: seq<State>, steps: seq<Step>, t: nat)
    requires IsRun(run, steps) && t < |run[|steps|].pcs| && run[|steps|].pcs[t] == Releasing(Fail)
    ensures var s := run[|steps|];
      var d := Apply(s, t, Release);
      && !d.flag && d.cell.None? && d.writes == 0 && d.owner.None? && d.pcs[t].Outside?
  {
    RunOk(run, steps);
    assert PcOk(run[|steps|], t);
  }

  ghost predicate CanStep(s: State) {
    exists t, a :: Enabled(s, t, a) && !a.Call? && !a.Change?
  }

  /** While any call is unfinished some call can go on. */
  lemma NeverStuck(run: seq<State>, steps: seq<Step>, t: nat)
    requires IsRun(run, steps) && t < |run[|steps|].pcs| && !run[|steps|].pcs[t].Outside?
    ensures CanStep(run[|steps|])
  {
    var s := run[|steps|];
    RunOk(run, steps);
    assert PcOk(s, t);
    if s.owner.None? {
      Mover(s, t);
    } else {
      assert PcOk(s, s.owner.value);
      Mover(s, s.owner.value);
    }
  }

  lemma Mover(s: State, t: nat)
    requires Ok(s) && t < |s.pcs| && !s.pcs[t].Outside? && (s.pcs[t].Waiting? ==> s.owner.None?)
    ensures CanStep(s)
  {
    assert PcOk(s, t);
    var a := match s.pcs[t]
      case Called => Test
      case Waiting => Acquire
      case Rechecking => Recheck
      case Resolving => ResolveFails
      case Connecting(results) =>
        if FirstAccepting(results, s.accepting) < |results| then Connect else ConnectFails
      case Writing(_, _) => BeginWrite
      case Storing(_, _) => EndWrite
      case Flagging(_, _) => SetFlag
      case Releasing(_) => Release
      case _ => Read;
    assert Enabled(s, t, a);
  }

  // ----- which endpoint is cached -----

  /** With a factory that advances the iterator, the cached endpoint is the one the first transport was
      connected to. */
  lemma CachesConnected(run: seq<State>, steps: seq<Step>)
    requires IsRun(run, steps) && run[|steps|].advances
    ensures run[|steps|].cell == run[|steps|].first
  {
    RunOk(run, steps);
  }

  /** The first resolved endpoint accepted connections when the first transport was connected. */
  predicate FirstAccepted(a: Attempt) {
    a.results != [] && a.results[0] in a.accepting
  }

  /** Over every run: the cached endpoint is the one the first transport was connected to if and only if
      the iterator advances or the first resolved endpoint accepted. */
  lemma CachesConnectedExactly(run: seq<State>, steps: seq<Step>)
    requires IsRun(run, steps) && run[|steps|].cell.Some?
    ensures var s := run[|steps|];
      && s.attempt.Some?
      && (s.cell == s.first <==> s.advances || FirstAccepted(s.attempt.value))
  {
    RunOk(run, steps);
  }

  /** Otherwise it is the first resolved endpoint, which accepted nobody, while another one did. */
  lemma CachesDeadOtherwise(run: seq<State>, steps: seq<Step>)
    requires IsRun(run, steps) && run[|steps|].cell.Some? && run[|steps|].attempt.Some?
    requires !run[|steps|].advances && !FirstAccepted(run[|steps|].attempt.value)
    ensures var s := run[|steps|];
      && s.attempt.value.results != [] && s.cell == Some(s.attempt.value.results[0])
      && s.cell.value !in s.attempt.value.accepting
      && s.first.Some? && s.first.value in s.attempt.value.accepting
  {
    RunOk(run, steps);
  }

  ghost predicate StaysDead(run: seq<State>, dead: Endpoint) {
    forall i :: 0 <= i < |run| && run[i].flag ==> dead !in run[i].accepting
  }

  lemma UseStep(s: State, t: nat, a: Action, dead: Endpoint)
    requires Ok(s) && Enabled(s, t, a) && (s.cell.Some? && s.flag ==> s.cell.value == dead && dead !in s.accepting)
    requires forall i :: 0 <= i < |s.used| ==> !s.used[i].accepted
    ensures forall i :: 0 <= i < |Apply(s, t, a).used| ==> !Apply(s, t, a).used[i].accepted
  {
    assert PcOk(s, t);
  }

  /** So where the first resolved endpoint did not accept, and as long as it still does not, every
      later connection of the rest of the run goes to it and is refused, although the endpoint the
      first call was connected to may be accepting all along. */
  lemma EveryLaterUseFails(run: seq<State>, steps: seq<Step>)
    requires IsRun(run, steps) && run[|steps|].flag && run[|steps|].cell.Some? && run[|steps|].attempt.Some?
    requires !run[|steps|].advances && !FirstAccepted(run[|steps|].attempt.value)
    requires StaysDead(run, run[|steps|].cell.value)
    ensures var s := run[|steps|];
      && s.attempt.value.results != []
      && forall i :: 0 <= i < |s.used| ==> s.used[i] == Use(s.attempt.value.results[0], false)
  {
    hide Ok, Apply, Enabled, Initial, StaysDead;
    CachesDeadOtherwise(run, steps);
    UsesFail(run, steps, run[|steps|].cell.value, |steps|);
    RunOk(run, steps);
    UsedIsCached(run[|steps|]);
  }

  lemma UsedIsCached(s: State)
    requires Ok(s)
    ensures forall i :: 0 <= i < |s.used| ==> s.cell == Some(s.used[i].endpoint)
  {
    hide PcOk;
  }

  lemma {:induction false} UsesFail(run: seq<State>, steps: seq<Step>, dead: Endpoint, n: nat)
    requires IsRun(run, steps) && n <= |steps|
    requires run[|steps|].flag && run[|steps|].cell == Some(dead) && StaysDead(run, dead)
    ensures forall i :: 0 <= i < |run[n].used| ==> !run[n].used[i].accepted
  {
    hide Ok, Apply, Enabled;
    if n > 0 {
      UsesFail(run, steps, dead, n - 1);
      PrefixIsRun(run, steps, n - 1);
      RunOk(run[..n], steps[..n - 1]);
      if run[n - 1].flag {
        CacheIsStable(run, steps, n - 1);
      }
      assert run[n - 1 + 1] == Apply(run[n - 1], steps[n - 1].thread, steps[n - 1].action);
      UseStep(run[n - 1], steps[n - 1].thread, steps[n - 1].action, dead);
    }
  }

  lemma PrefixIsRun(run: seq<State>, steps: seq<Step>, n: nat)
    requires IsRun(run, steps) && n <= |steps|
    ensures IsRun(run[..n + 1], steps[..n]) && run[..n + 1][n] == run[n]
  {
    hide Apply, Enabled, Initial;
    var shorter, fewer := run[..n + 1], steps[..n];
    forall i | 0 <= i < n
      ensures Enabled(shorter[i], fewer[i].thread, fewer[i].action)
      ensures shorter[i + 1] == Apply(shorter[i], fewer[i].thread, fewer[i].action)
    {
      assert Enabled(run[i], steps[i].thread, steps[i].action);
      assert run[i + 1] == Apply(run[i], steps[i].thread, steps[i].action);
    }
  }

  lemma Extend(run: seq<State>, steps: seq<Step>, t: nat, a: Action) returns (longer: seq<State>, more: seq<Step>)
    requires IsRun(run, steps) && Enabled(run[|steps|], t, a)
    ensures IsRun(longer, more) && more == steps + [Step(t, a)]
    ensures longer[0] == run[0] && longer[|more|] == Apply(run[|steps|], t, a)
  {
    hide Apply, Enabled;
    longer, more := run + [Apply(run[|steps|], t, a)], steps + [Step(t, a)];
  }

  /** A state of one thread in which only the listed parts differ from the initial ones. */
  function Alone(accepting: set<Endpoint>, flag: bool, cell: Option<Endpoint>, attempt: Option<Attempt>,
                 first: Option<Endpoint>, owner: Option<nat>, pc: Pc, used: seq<Use>): State {
    State(false, accepting, flag, cell, false, if cell.Some? then 1 else 0, attempt, first, owner, [pc], used)
  }

  lemma ReachConnecting(results: seq<Endpoint>, accepting: set<Endpoint>) returns (run: seq<State>, steps: seq<Step>)
    requires results != []
    ensures IsRun(run, steps) && run[0].accepting == accepting && !run[0].advances
    ensures run[|steps|] == Alone(accepting, false, None, None, None, Some(0), Connecting(results), [])
  {
    hide IsRun;
    run, steps := [Alone(accepting, false, None, None, None, None, Outside, [])], [];
    OneState(run[0]);
    run, steps := Extend(run, steps, 0, Call);
    run, steps := Extend(run, steps, 0, Test);
    run, steps := Extend(run, steps, 0, Acquire);
    run, steps := Extend(run, steps, 0, Recheck);
    run, steps := Extend(run, steps, 0, Resolve(results));
  }

  lemma OneState(s: State)
    requires Initial(s)
    ensures IsRun([s], [])
  {
  }

  lemma SecondAccepts(a: Endpoint, b: Endpoint)
    requires a != b
    ensures FirstAccepting([a, b], {b}) == 1
  {
    assert [a, b][1..] == [b];
  }

  lemma ConnectToSecond(run: seq<State>, steps: seq<Step>, a: Endpoint, b: Endpoint)
    returns (longer: seq<State>, more: seq<Step>)
    requires a != b && IsRun(run, steps)
    requires run[|steps|] == Alone({b}, false, None, None, None, Some(0), Connecting([a, b]), [])
    ensures IsRun(longer, more) && longer[0] == run[0]
    ensures longer[|more|] == Alone({b}, false, None, Some(Attempt([a, b], {b})), None, Some(0), Writing(b, a), [])
  {
    hide IsRun, FirstAccepting;
    SecondAccepts(a, b);
    longer, more := Extend(run, steps, 0, Connect);
  }

  lemma Fill(run: seq<State>, steps: seq<Step>, a: Endpoint, b: Endpoint)
    returns (longer: seq<State>, more: seq<Step>)
    requires IsRun(run, steps)
    requires run[|steps|] == Alone({b}, false, None, Some(Attempt([a, b], {b})), None, Some(0), Writing(b, a), [])
    ensures IsRun(longer, more) && longer[0] == run[0]
    ensures longer[|more|] == Alone({b}, true, Some(a), Some(Attempt([a, b], {b})), Some(b), None, Outside, [])
  {
    hide IsRun, FirstAccepting;
    longer, more := Extend(run, steps, 0, BeginWrite);
    longer, more := Extend(longer, more, 0, EndWrite);
    longer, more := Extend(longer, more, 0, SetFlag);
    longer, more := Extend(longer, more, 0, Release);
  }

  /** The plain TCP factory leaves the iterator where it was: of two results of which only the second
      accepts, the first is cached, and the next call, with everything unchanged, is refused. */
  lemma CachesUnreachable(a: Endpoint, b: Endpoint) returns (run: seq<State>, steps: seq<Step>)
    requires a != b
    ensures IsRun(run, steps) && !run[0].advances && run[0].accepting == {b}
    ensures var s := run[|steps|];
      s.flag && s.first == Some(b) && s.cell == Some(a) && a !in s.accepting && s.used == [Use(a, false)]
  {
    hide IsRun;
    run, steps := ReachConnecting([a, b], {b});
    run, steps := ConnectToSecond(run, steps, a, b);
    run, steps := Fill(run, steps, a, b);
    run, steps := Extend(run, steps, 0, Call);
    run, steps := Extend(run, steps, 0, Test);
    run, steps := Extend(run, steps, 0, Read);
  }

  // ----- the object -----

  /** The factory's two fields, changed by one call at a time; `run` and `steps` are the run of the
      protocol above that its calls amount to, so that what holds of every run holds of the object. */
  class UpstreamFactory {
    const advances: bool
    var isInit: bool
    var endpoint: Option<Endpoint>
    ghost var run: seq<State>
    ghost var steps: seq<Step>

    ghost function Now(): State
      reads this
      requires |run| == |steps| + 1
    {
      run[|steps|]
    }

    ghost predicate Valid()
      reads this
    {
      && IsRun(run, steps)
      && Now().advances == advances && Now().flag == isInit && Now().cell == endpoint
      && Now().owner.None? && Now().pcs == [Outside]
    }

    constructor (advances: bool)
      ensures Valid() && !isInit && endpoint.None? && steps == [] && this.advances == advances
    {
      this.advances := advances;
      isInit, endpoint := false, None;
      run, steps := [State(advances, {}, false, None, false, 0, None, None, None, [Outside], [])], [];
      new;
      OneState(run[0]);
    }

    ghost method Take(a: Action)
      requires IsRun(run, steps) && Enabled(Now(), 0, a)
      modifies this`run, this`steps
      ensures IsRun(run, steps) && Now() == Apply(old(Now()), 0, a)
    {
      hide IsRun, Apply, Enabled;
      run, steps := Extend(run, steps, 0, a);
    }

    /** One call. `results` is what the resolver finds, if anything, and `accepting` says who accepts
        connections during the call. Only a call that resolved and connected changes the fields, and
        only the first such call; later calls use what it cached, whether that accepts or not. */
    method StartRequest(results: seq<Endpoint>, accepting: set<Endpoint>) returns (next: Then)
      requires Valid()
      modifies this
      ensures Valid()
      ensures old(isInit) ==>
                && next == UseCache && isInit && endpoint == old(endpoint) && endpoint.Some?
                && Now().used == old(Now().used) + [Use(endpoint.value, endpoint.value in accepting)]
      ensures !old(isInit) ==>
                && Now().used == old(Now().used)
                && var k := FirstAccepting(results, accepting);
                   if k == |results| then next == Fail && !isInit && endpoint == old(endpoint)
                   else next == Handshake(results[k]) && isInit && endpoint == Some(results[if advances then k else 0])
    {
      hide IsRun, FirstAccepting, Ok, Enabled;
      Enter(accepting);
      next := UseCache;
      if !isInit {
        next := Locked(results, accepting);
      } else {
        ReadCache();
      }
    }

    /** Tests the flag. */
    ghost method Enter(accepting: set<Endpoint>)
      requires Valid()
      modifies this`run, this`steps
      ensures IsRun(run, steps)
      ensures Now() == old(Now()).(accepting := accepting, pcs := [if isInit then Reading else Waiting])
    {
      hide IsRun;
      Take(Change(accepting));
      Take(Call);
      Take(Test);
    }

    /** Connects to the cached endpoint. */
    ghost method ReadCache()
      requires IsRun(run, steps) && Now().pcs == [Reading] && Now().flag
      modifies this`run, this`steps
      ensures IsRun(run, steps) && Now().cell.Some?
      ensures var cached := Now().cell.value;
        Now() == old(Now()).(pcs := [Outside], used := old(Now()).used + [Use(cached, cached in Now().accepting)])
    {
      hide Ok;
      RunOk(run, steps);
      OwnerExists(Now());
      Take(Read);
    }

    /** Takes the mutex, tests again and lets it go in the end. */
    method Locked(results: seq<Endpoint>, accepting: set<Endpoint>) returns (next: Then)
      requires IsRun(run, steps) && !isInit && Now().pcs == [Waiting] && Now().accepting == accepting
      requires Now().advances == advances && !Now().flag && Now().cell == endpoint && Now().owner.None?
      modifies this
      ensures Valid() && Now().used == old(Now().used)
      ensures var k := FirstAccepting(results, accepting);
        if k == |results| then next == Fail && !isInit && endpoint == old(endpoint)
        else next == Handshake(results[k]) && isInit && endpoint == Some(results[if advances then k else 0])
    {
      hide IsRun, FirstAccepting;
      Take(Acquire);
      Take(Recheck);
      next := Resolved(results, accepting);
      Take(Release);
    }

    /** Tries the results in order. */
    method TryConnect(results: seq<Endpoint>, accepting: set<Endpoint>) returns (k: nat)
      ensures k == FirstAccepting(results, accepting)
    {
      k := 0;
      while k < |results| && results[k] !in accepting
        invariant k <= |results|
        invariant FirstAccepting(results, accepting) == k + FirstAccepting(results[k..], accepting)
      {
        assert results[k..][1..] == results[k + 1..];
        k := k + 1;
      }
    }

    /** The part under the mutex. */
    method Resolved(results: seq<Endpoint>, accepting: set<Endpoint>) returns (next: Then)
      requires IsRun(run, steps) && !isInit && Now().pcs == [Resolving] && Now().accepting == accepting
      requires Now().advances == advances && !Now().flag && Now().cell == endpoint && Now().owner == Some(0)
      modifies this
      ensures IsRun(run, steps) && !next.UseCache? && Now().pcs == [Releasing(next)]
      ensures Now().advances == advances && Now().flag == isInit && Now().cell == endpoint && Now().owner == Some(0)
      ensures Now().used == old(Now().used)
      ensures var k := FirstAccepting(results, accepting);
        if k == |results| then next == Fail && !isInit && endpoint == old(endpoint)
        else next == Handshake(results[k]) && isInit && endpoint == Some(results[if advances then k else 0])
    {
      hide IsRun;
      if results == [] {
        Take(ResolveFails);
        return Fail;
      }
      Take(Resolve(results));
      var k := TryConnect(results, accepting);
      if k == |results| {
        Take(ConnectFails);
        return Fail;
      }
      Take(Connect);
      next := Handshake(results[k]);
      Store(results[k], results[if advances then k else 0]);
    }

    /** Writes the endpoint, then sets the flag. */
    method Store(connected: Endpoint, value: Endpoint)
      requires IsRun(run, steps) && Now().pcs == [Writing(connected, value)]
      modifies this
      ensures IsRun(run, steps) && isInit && endpoint == Some(value)
      ensures Now().pcs == [Releasing(Handshake(connected))] && Now().flag && Now().cell == endpoint
      ensures Now().advances == old(Now().advances) && Now().owner == old(Now().owner) && Now().used == old(Now().used)
    {
      hide IsRun;
      Take(BeginWrite);
      endpoint := Some(value);
      Take(EndWrite);
      isInit := true;
      Take(SetFlag);
    }
  }
}
