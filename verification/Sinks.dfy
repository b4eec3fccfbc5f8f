/** Many threads logging to many sinks. Each thread delivers its records one by one: for each sink in
    list order it locks the sink's mutex and pushes the record, and only after the last sink does it
    unlock them all, in any order. */
module Sinks {
  import opened Base
  import Logging

  type Record = Logging.Record

  datatype Entry = Entry(thread: nat, record: Record)

  /** `pushed` are all records offered to the sink, `stored` those its level let through. */
  datatype Sink = Sink(level: nat, pushed: seq<Entry>, stored: seq<Entry>, owner: Option<nat>)

  /** `plan[next]` is the record in delivery, of which `locked` sinks are or were locked and `pushed`
      have it; `held` are the sinks whose mutex the thread owns. */
  datatype Thread = Thread(plan: seq<Record>, next: nat, locked: nat, pushed: nat, held: set<nat>)

  datatype State = State(sinks: seq<Sink>, threads: seq<Thread>)

  datatype Action = Lock | Push | Unlock(sink: nat) | Finish

  predicate Busy(th: Thread) {
    th.next < |th.plan|
  }

  predicate Enabled(s: State, t: nat, a: Action) {
    && t < |s.threads| && Busy(s.threads[t])
    && var th := s.threads[t];
       match a
       case Lock => th.locked == th.pushed < |s.sinks| && s.sinks[th.locked].owner.None?
       case Push => th.pushed < th.locked <= |s.sinks|
       case Unlock(j) => th.pushed == |s.sinks| && j in th.held && j < |s.sinks|
       case Finish => th.pushed == |s.sinks| && th.held == {}
  }

  function PushRecord(k: Sink, e: Entry): Sink {
    k.(pushed := k.pushed + [e], stored := if e.record.level >= k.level then k.stored + [e] else k.stored)
  }

  function Apply(s: State, t: nat, a: Action): State
    requires Enabled(s, t, a)
  {
    var th := s.threads[t];
    match a
    case Lock =>
      State(s.sinks[th.locked := s.sinks[th.locked].(owner := Some(t))],
            s.threads[t := th.(locked := th.locked + 1, held := th.held + {th.locked})])
    case Push =>
      State(s.sinks[th.pushed := PushRecord(s.sinks[th.pushed], Entry(t, th.plan[th.next]))],
            s.threads[t := th.(pushed := th.pushed + 1)])
    case Unlock(j) =>
      State(s.sinks[j := s.sinks[j].(owner := None)],
            s.threads[t := th.(held := th.held - {j})])
    case Finish =>
      State(s.sinks, s.threads[t := th.(next := th.next + 1, locked := 0, pushed := 0)])
  }

  /** Any sinks, empty and unlocked, and any plans of records. */
  ghost predicate Initial(s: State) {
    && (forall j :: 0 <= j < |s.sinks| ==> s.sinks[j].pushed == [] && s.sinks[j].stored == [] && s.sinks[j].owner.None?)
    && (forall t :: 0 <= t < |s.threads| ==>
          s.threads[t].next == s.threads[t].locked == s.threads[t].pushed == 0 && s.threads[t].held == {})
  }

  // ----- what every step keeps -----

  /** The first `n` sinks. */
  ghost function Upto(n: nat): (r: set<nat>)
    ensures forall j: nat :: j in r <==> j < n
    ensures |r| == n
  {
    if n == 0 then {} else Upto(n - 1) + {n - 1}
  }

  ghost predicate ThreadOk(th: Thread, n: nat) {
    && th.next <= |th.plan| && th.pushed <= th.locked <= th.pushed + 1 && th.locked <= n
    && (!Busy(th) ==> th.locked == 0 && th.held == {})
    && (th.pushed < n ==> th.held == Upto(th.locked))
    && th.held <= Upto(n)
  }

  /** A mutex is owned by exactly the thread that holds it. */
  ghost predicate OwnersOk(s: State) {
    && (forall t, j :: 0 <= t < |s.threads| && 0 <= j < |s.sinks| ==>
          (j in s.threads[t].held <==> s.sinks[j].owner == Some(t)))
    && (forall j :: 0 <= j < |s.sinks| && s.sinks[j].owner.Some? ==> s.sinks[j].owner.value < |s.threads|)
  }

  /** The thread has given its record to some sinks but not to all. */
  predicate Midway(s: State, t: nat) {
    t < |s.threads| && 0 < s.threads[t].pushed < |s.sinks|
  }

  ghost predicate Even(s: State) {
    forall j :: 0 <= j < |s.sinks| ==> s.sinks[j].pushed == s.sinks[0].pushed
  }

  /** Thread `t`'s record is the newest in the sinks before its position and missing behind it. */
  ghost predicate Split(s: State, t: nat) {
    && Midway(s, t) && Busy(s.threads[t])
    && var all := s.sinks[0].pushed;
       && all != [] && all[|all| - 1] == Entry(t, s.threads[t].plan[s.threads[t].next])
       && forall j :: 0 <= j < |s.sinks| ==>
            s.sinks[j].pushed == if j < s.threads[t].pushed then all else all[..|all| - 1]
  }

  ghost predicate OrderOk(s: State) {
    && (forall t :: Midway(s, t) ==> Split(s, t))
    && ((forall t :: !Midway(s, t)) ==> Even(s))
  }

  function Filter(entries: seq<Entry>, level: nat): seq<Entry> {
    if entries == [] then []
    else
      var last := entries[|entries| - 1];
      Filter(entries[..|entries| - 1], level) + if last.record.level >= level then [last] else []
  }

  /** A single record is kept exactly if its level is not lower, and filtering goes record by record. */
  lemma {:induction false} FiltersEach(a: seq<Entry>, b: seq<Entry>, e: Entry, level: nat)
    ensures Filter([e], level) == if e.record.level >= level then [e] else []
    ensures Filter(a + b, level) == Filter(a, level) + Filter(b, level)
  {
    assert [e][..0] == [];
    if b == [] {
      assert a + b == a && Filter(a, level) + [] == Filter(a, level);
    } else {
      var n := |b| - 1;
      assert (a + b)[..|a + b| - 1] == a + b[..n];
      FiltersEach(a, b[..n], e, level);
    }
  }

  /** The records of one thread, in order. */
  function Of(entries: seq<Entry>, t: nat): seq<Record> {
    if entries == [] then []
    else
      var last := entries[|entries| - 1];
      Of(entries[..|entries| - 1], t) + if last.thread == t then [last.record] else []
  }

  ghost predicate StoredOk(s: State) {
    forall j :: 0 <= j < |s.sinks| ==> s.sinks[j].stored == Filter(s.sinks[j].pushed, s.sinks[j].level)
  }

  /** The first sink has been given exactly the records each thread has begun to deliver. */
  ghost predicate LedgerOk(s: State) {
    |s.sinks| > 0 ==> forall t :: 0 <= t < |s.threads| ==> ThreadLedger(s, t)
  }

  ghost predicate ThreadLedger(s: State, t: nat)
    requires t < |s.threads| && |s.sinks| > 0
  {
    var th := s.threads[t];
    var begun := th.next + if th.pushed > 0 then 1 else 0;
    begun <= |th.plan| && Of(s.sinks[0].pushed, t) == th.plan[..begun]
  }

  ghost predicate Ok(s: State) {
    && (forall t :: 0 <= t < |s.threads| ==> ThreadOk(s.threads[t], |s.sinks|))
    && OwnersOk(s) && OrderOk(s) && StoredOk(s) && LedgerOk(s)
  }

  lemma InitOk(s: State)
    requires Initial(s)
    ensures Ok(s)
  {
    assert Upto(0) == {};
  }

  /** Two threads cannot both be midway: each would own the first mutex. */
  lemma OneMidway(s: State, t: nat, u: nat)
    requires Ok(s) && Midway(s, t) && u < |s.threads| && (0 in s.threads[u].held)
    ensures t == u
  {
    hide Filter, Of;
    assert ThreadOk(s.threads[t], |s.sinks|);
    assert 0 in s.threads[t].held;
    assert s.sinks[0].owner == Some(t);
  }

  lemma UptoSnoc(n: nat)
    ensures Upto(n + 1) == Upto(n) + {n} && Upto(0) == {}
  {
  }

  lemma UptoGrows(m: nat, n: nat)
    requires m <= n
    ensures Upto(m) <= Upto(n)
  {
  }

  lemma ThreadsKept(s: State, t: nat, a: Action)
    requires Enabled(s, t, a) && ThreadOk(s.threads[t], |s.sinks|)
    ensures ThreadOk(Apply(s, t, a).threads[t], |s.sinks|)
  {
    hide Upto, PushRecord;
    var th := s.threads[t];
    UptoSnoc(th.locked);
    if a.Lock? {
      UptoGrows(th.locked + 1, |s.sinks|);
    }
  }

  lemma OwnersKept(s: State, t: nat, a: Action)
    requires Enabled(s, t, a) && OwnersOk(s) && ThreadOk(s.threads[t], |s.sinks|)
    ensures OwnersOk(Apply(s, t, a))
  {
    hide Upto;
    var d := Apply(s, t, a);
    forall u, j | 0 <= u < |d.threads| && 0 <= j < |d.sinks|
      ensures j in d.threads[u].held <==> d.sinks[j].owner == Some(u)
    {
      assert j in s.threads[u].held <==> s.sinks[j].owner == Some(u);
    }
  }

  lemma StoredKept(s: State, t: nat, a: Action)
    requires Enabled(s, t, a) && StoredOk(s)
    ensures StoredOk(Apply(s, t, a))
  {
    var d := Apply(s, t, a);
    if a.Push? {
      var k := s.threads[t].pushed;
      FilterSnoc(s.sinks[k].pushed, Entry(t, s.threads[t].plan[s.threads[t].next]), s.sinks[k].level);
    }
  }

  lemma FilterSnoc(entries: seq<Entry>, e: Entry, level: nat)
    ensures Filter(entries + [e], level) == Filter(entries, level) + if e.record.level >= level then [e] else []
  {
    assert (entries + [e])[..|entries|] == entries;
  }

  lemma OfSnoc(entries: seq<Entry>, e: Entry, t: nat)
    ensures Of(entries + [e], t) == Of(entries, t) + if e.thread == t then [e.record] else []
  {
    assert (entries + [e])[..|entries|] == entries;
  }

  /** Whoever is about to push to the first sink finds all sinks even. */
  lemma EvenBeforeFirstPush(s: State, t: nat)
    requires Ok(s) && Enabled(s, t, Push) && s.threads[t].pushed == 0
    ensures Even(s) && forall u :: !Midway(s, u)
  {
    hide Upto, Filter, Of, StoredOk, LedgerOk;
    assert ThreadOk(s.threads[t], |s.sinks|);
    forall u | Midway(s, u)
      ensures false
    {
      OneMidway(s, u, t);
    }
  }

  lemma NobodyElseMidway(s: State, t: nat, u: nat)
    requires Ok(s) && Enabled(s, t, Push) && Midway(s, u)
    ensures u == t
  {
    hide Filter, Of, StoredOk, LedgerOk, Split;
    assert ThreadOk(s.threads[t], |s.sinks|);
    OneMidway(s, u, t);
  }

  lemma FirstPushOrder(s: State, t: nat)
    requires Ok(s) && Enabled(s, t, Push) && s.threads[t].pushed == 0
    ensures OrderOk(Apply(s, t, Push))
  {
    hide Upto, Filter, Of, StoredOk, LedgerOk, OwnersOk, ThreadOk;
    var d, e := Apply(s, t, Push), Entry(t, s.threads[t].plan[s.threads[t].next]);
    EvenBeforeFirstPush(s, t);
    var all := d.sinks[0].pushed;
    assert all == s.sinks[0].pushed + [e] && all[..|all| - 1] == s.sinks[0].pushed;
    forall u | Midway(d, u)
      ensures Split(d, u)
    {
      assert !Midway(s, u);
      assert u == t;
    }
    if forall u :: !Midway(d, u) {
      assert !Midway(d, t);
    }
  }

  lemma LaterPushOrder(s: State, t: nat)
    requires Ok(s) && Enabled(s, t, Push) && s.threads[t].pushed > 0
    ensures OrderOk(Apply(s, t, Push)) && Apply(s, t, Push).sinks[0] == s.sinks[0]
  {
    hide Upto, Filter, Of, StoredOk, LedgerOk, OwnersOk, ThreadOk;
    var d, k := Apply(s, t, Push), s.threads[t].pushed;
    assert Midway(s, t);
    assert Split(s, t);
    var all := s.sinks[0].pushed;
    assert all[..|all| - 1] + [all[|all| - 1]] == all;
    assert d.sinks[k].pushed == all;
    forall u | Midway(d, u)
      ensures Split(d, u)
    {
      if u != t {
        assert Midway(s, u);
        NobodyElseMidway(s, t, u);
      }
    }
    if forall u :: !Midway(d, u) {
      assert !Midway(d, t);
      assert k + 1 == |d.sinks|;
    }
  }

  lemma OtherOrder(s: State, t: nat, a: Action)
    requires Ok(s) && Enabled(s, t, a) && !a.Push?
    ensures OrderOk(Apply(s, t, a))
  {
    hide Upto, Filter, Of, StoredOk, LedgerOk, OwnersOk, ThreadOk;
    var d := Apply(s, t, a);
    assert forall u :: Midway(d, u) <==> Midway(s, u);
    assert forall j :: 0 <= j < |d.sinks| ==> d.sinks[j].pushed == s.sinks[j].pushed;
    forall u | Midway(d, u)
      ensures Split(d, u)
    {
      assert Split(s, u);
    }
  }

  lemma LedgerKept(s: State, t: nat, a: Action)
    requires Ok(s) && Enabled(s, t, a)
    ensures LedgerOk(Apply(s, t, a))
  {
    hide Upto, Filter, Of, StoredOk, OwnersOk, OrderOk;
    var d, th := Apply(s, t, a), s.threads[t];
    if |d.sinks| > 0 {
      forall u | 0 <= u < |d.threads|
        ensures ThreadLedger(d, u)
      {
        assert ThreadLedger(s, u) && ThreadOk(s.threads[u], |s.sinks|);
        if a.Push? && th.pushed == 0 {
          var e := Entry(t, th.plan[th.next]);
          assert d.sinks[0].pushed == s.sinks[0].pushed + [e];
          OfSnoc(s.sinks[0].pushed, e, u);
          if u == t {
            assert th.plan[..th.next + 1] == th.plan[..th.next] + [th.plan[th.next]];
          }
        } else {
          assert d.sinks[0].pushed == s.sinks[0].pushed;
        }
      }
    }
  }

  lemma StepOk(s: State, t: nat, a: Action)
    requires Ok(s) && Enabled(s, t, a)
    ensures Ok(Apply(s, t, a))
  {
    hide Upto, Filter, Of, StoredOk, OwnersOk, OrderOk, LedgerOk;
    var d := Apply(s, t, a);
    forall u | 0 <= u < |d.threads|
      ensures ThreadOk(d.threads[u], |d.sinks|)
    {
      assert ThreadOk(s.threads[u], |s.sinks|);
      if u == t {
        ThreadsKept(s, t, a);
      }
    }
    OwnersKept(s, t, a);
    StoredKept(s, t, a);
    LedgerKept(s, t, a);
    if a.Push? {
      if s.threads[t].pushed == 0 {
        FirstPushOrder(s, t);
      } else {
        LaterPushOrder(s, t);
      }
    } else {
      OtherOrder(s, t, a);
    }
  }

  // ----- every run -----

  datatype Step = Step(thread: nat, action: Action)

  ghost predicate IsRun(run: seq<State>, steps: seq<Step>) {
    && |run| == |steps| + 1 && Initial(run[0])
    && forall i :: 0 <= i < |steps| ==>
         && Enabled(run[i], steps[i].thread, steps[i].action)
         && run[i + 1] == Apply(run[i], steps[i].thread, steps[i].action)
  }

  lemma {:induction false} RunOk(run: seq<State>, steps: seq<Step>)
    requires IsRun(run, steps)
    ensures Ok(run[|steps|])
  {
    hide Ok, Apply, Enabled;
    var n := |steps|;
    if n == 0 {
      InitOk(run[0]);
    } else {
      RunOk(run[..n], steps[..n - 1]);
      assert run[..n][n - 1] == run[n - 1] && run[n - 1 + 1] == run[n];
      StepOk(run[n - 1], steps[n - 1].thread, steps[n - 1].action);
    }
  }

  lemma PrefixOfEarlier(s: State, i: nat, j: nat)
    requires Ok(s) && i <= j < |s.sinks|
    ensures s.sinks[j].pushed <= s.sinks[i].pushed && |s.sinks[i].pushed| <= |s.sinks[j].pushed| + 1
  {
    hide Upto, Filter, Of, StoredOk, OwnersOk, LedgerOk, ThreadOk;
    if t :| Midway(s, t) {
      assert Split(s, t);
    } else {
      assert Even(s);
    }
  }

  /** For any number of threads and sinks, any interleaving and any order of unlocking: what a later
      sink was given is a prefix of what an earlier one was given, at most one record shorter, and
      each sink has stored exactly what its level lets through, in that order. */
  lemma SameOrderEverywhere(run: seq<State>, steps: seq<Step>, i: nat, j: nat)
    requires IsRun(run, steps) && i <= j < |run[|steps|].sinks|
    ensures var s := run[|steps|];
      && s.sinks[j].pushed <= s.sinks[i].pushed && |s.sinks[i].pushed| <= |s.sinks[j].pushed| + 1
      && s.sinks[i].stored == Filter(s.sinks[i].pushed, s.sinks[i].level)
  {
    RunOk(run, steps);
    PrefixOfEarlier(run[|steps|], i, j);
  }

  predicate Idle(s: State) {
    forall t :: 0 <= t < |s.threads| ==> !Busy(s.threads[t])
  }

  /** When all threads are done there is one order of all records, in which each thread's records come
      in the order it logged them and none is lost or repeated; every sink holds that order filtered by
      its own level. */
  lemma OneOrderAtRest(run: seq<State>, steps: seq<Step>, j: nat)
    requires IsRun(run, steps) && Idle(run[|steps|]) && j < |run[|steps|].sinks|
    ensures var s := run[|steps|];
      && s.sinks[j].pushed == s.sinks[0].pushed
      && s.sinks[j].stored == Filter(s.sinks[0].pushed, s.sinks[j].level)
      && forall t :: 0 <= t < |s.threads| ==> Of(s.sinks[0].pushed, t) == s.threads[t].plan
  {
    hide Upto, Filter, Of, OwnersOk;
    var s := run[|steps|];
    RunOk(run, steps);
    forall t: nat
      ensures !Midway(s, t)
    {
      if t < |s.threads| {
        assert !Busy(s.threads[t]) && ThreadOk(s.threads[t], |s.sinks|);
      }
    }
    assert Even(s);
    forall t | 0 <= t < |s.threads|
      ensures Of(s.sinks[0].pushed, t) == s.threads[t].plan
    {
      assert !Busy(s.threads[t]) && ThreadOk(s.threads[t], |s.sinks|) && ThreadLedger(s, t);
    }
  }

  // ----- no deadlock, and always an end -----

  ghost predicate CanStep(s: State) {
    exists t, a :: Enabled(s, t, a)
  }

  /** Follow the chain of waiting threads: each waits for a sink held by one that is further on. */
  lemma {:induction false} SomebodyCanStep(s: State, t: nat)
    requires Ok(s) && t < |s.threads| && Busy(s.threads[t])
    ensures CanStep(s)
    decreases |s.sinks| - s.threads[t].locked
  {
    hide Filter, Of, StoredOk, OrderOk, LedgerOk;
    var th, n := s.threads[t], |s.sinks|;
    assert ThreadOk(th, n);
    if th.pushed < th.locked {
      assert Enabled(s, t, Push);
    } else if th.pushed == n {
      if j :| j in th.held {
        assert Enabled(s, t, Unlock(j));
      } else {
        assert Enabled(s, t, Finish);
      }
    } else if s.sinks[th.locked].owner.None? {
      assert Enabled(s, t, Lock);
    } else {
      OwnerIsFurther(s, t);
      var u := s.sinks[th.locked].owner.value;
      if s.threads[u].pushed == n {
        assert Enabled(s, u, Unlock(th.locked));
      } else {
        SomebodyCanStep(s, u);
      }
    }
  }

  lemma OwnerIsFurther(s: State, t: nat)
    requires Ok(s) && t < |s.threads| && Busy(s.threads[t]) && s.threads[t].locked < |s.sinks|
    requires s.sinks[s.threads[t].locked].owner.Some?
    ensures var u := s.sinks[s.threads[t].locked].owner.value;
      && u < |s.threads| && Busy(s.threads[u]) && s.threads[t].locked in s.threads[u].held
      && (s.threads[u].pushed < |s.sinks| ==> s.threads[u].locked > s.threads[t].locked)
  {
    hide Filter, Of, StoredOk, OrderOk, LedgerOk;
    var k := s.threads[t].locked;
    var u := s.sinks[k].owner.value;
    assert u < |s.threads|;
    assert k in s.threads[u].held <==> s.sinks[k].owner == Some(u);
    assert ThreadOk(s.threads[u], |s.sinks|);
  }

  /** Steps a thread has taken for its record, of the `3n` that delivering to `n` sinks takes. */
  function Taken(th: Thread, n: nat): int {
    th.locked + th.pushed + if th.pushed == n then n - |th.held| else 0
  }

  /** Steps a thread has left, counting one more per record to move on. */
  function Left(th: Thread, n: nat): int {
    (|th.plan| - th.next) * (3 * n + 1) - Taken(th, n)
  }

  function TotalLeft(threads: seq<Thread>, n: nat): int {
    if threads == [] then 0 else Left(threads[0], n) + TotalLeft(threads[1..], n)
  }

  lemma {:induction false} UpdateLeft(threads: seq<Thread>, t: nat, th: Thread, n: nat)
    requires t < |threads|
    ensures TotalLeft(threads[t := th], n) == TotalLeft(threads, n) - Left(threads[t], n) + Left(th, n)
  {
    hide Left;
    if t == 0 {
      assert threads[0 := th][1..] == threads[1..];
    } else {
      UpdateLeft(threads[1..], t - 1, th, n);
      assert threads[t := th][1..] == threads[1..][t - 1 := th];
    }
  }

  lemma LeftIsNatural(th: Thread, n: nat)
    requires ThreadOk(th, n)
    ensures Left(th, n) >= 0
  {
    hide Upto;
    if Busy(th) {
      AtLeastOnce(|th.plan| - th.next, 3 * n + 1);
      assert Taken(th, n) <= 3 * n;
    }
  }

  lemma AtLeastOnce(records: nat, w: nat)
    requires records >= 1
    ensures records * w >= w
  {
    assert records * w == w + (records - 1) * w;
  }

  lemma {:induction false} TotalIsNatural(threads: seq<Thread>, n: nat)
    requires forall t :: 0 <= t < |threads| ==> ThreadOk(threads[t], n)
    ensures TotalLeft(threads, n) >= 0
  {
    hide Left, ThreadOk;
    if threads != [] {
      LeftIsNatural(threads[0], n);
      TotalIsNatural(threads[1..], n);
    }
  }

  lemma StepLeavesOneLess(s: State, t: nat, a: Action)
    requires Enabled(s, t, a) && ThreadOk(s.threads[t], |s.sinks|)
    ensures TotalLeft(Apply(s, t, a).threads, |s.sinks|) == TotalLeft(s.threads, |s.sinks|) - 1
  {
    hide TotalLeft;
    var d, th, n := Apply(s, t, a), s.threads[t], |s.sinks|;
    UpdateLeft(s.threads, t, d.threads[t], n);
    if a.Finish? {
      var records := |th.plan| - th.next;
      assert records * (3 * n + 1) == (records - 1) * (3 * n + 1) + (3 * n + 1);
    } else {
      assert Taken(d.threads[t], n) == Taken(th, n) + 1 by { TakenGrows(s, t, a); }
    }
  }

  lemma TakenGrows(s: State, t: nat, a: Action)
    requires Enabled(s, t, a) && ThreadOk(s.threads[t], |s.sinks|) && !a.Finish?
    ensures Taken(Apply(s, t, a).threads[t], |s.sinks|) == Taken(s.threads[t], |s.sinks|) + 1
  {
    var th, n := s.threads[t], |s.sinks|;
    if a.Push? && th.pushed + 1 == n {
      assert th.held == Upto(n);
    }
  }

  /** The incremental locking never deadlocks, and a fixed set of records over fixed sinks always
      finishes, after exactly as many steps as there are: three per record and sink and one more per
      record. */
  lemma {:induction false} AlwaysFinishes(run: seq<State>, steps: seq<Step>)
    requires IsRun(run, steps)
    ensures var s := run[|steps|];
      && (Idle(s) || CanStep(s))
      && |steps| + TotalLeft(s.threads, |s.sinks|) == TotalLeft(run[0].threads, |run[0].sinks|)
      && TotalLeft(s.threads, |s.sinks|) >= 0
  {
    hide Apply, Enabled, TotalLeft, ThreadOk, OwnersOk, OrderOk, StoredOk, LedgerOk;
    var n := |steps|;
    var s := run[n];
    RunOk(run, steps);
    TotalIsNatural(s.threads, |s.sinks|);
    if !Idle(s) {
      var t :| 0 <= t < |s.threads| && Busy(s.threads[t]);
      SomebodyCanStep(s, t);
    }
    if n > 0 {
      AlwaysFinishes(run[..n], steps[..n - 1]);
      assert run[..n][n - 1] == run[n - 1] && run[n - 1 + 1] == run[n];
      RunOk(run[..n], steps[..n - 1]);
      var p, st := run[n - 1], steps[n - 1];
      assert s == Apply(p, st.thread, st.action);
      SinkCount(p, st.thread, st.action);
      StepLeavesOneLess(p, st.thread, st.action);
    }
  }

  lemma SinkCount(s: State, t: nat, a: Action)
    requires Enabled(s, t, a)
    ensures t < |s.threads| && |Apply(s, t, a).sinks| == |s.sinks|
  {
  }
}
