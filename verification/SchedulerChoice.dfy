/** Which thread rt_schedule chooses, and what becomes of the others, in terms of queues, priorities and
    the yield flag.
 */
module SchedulerChoice {
  import opened Bits
  import opened IpcList
  import opened SchedulerLemmas
  import opened SchedulerModel
  import opened SchedulerRuns
  import opened Sequences

  ghost predicate IsReady(s: State, t: Tid) {
    t in s.threads && s.threads[t].stat == Ready
  }

  /** The current thread has no reason to stop: everybody ready is less urgent, or nobody is more urgent
      and it does not yield. */
  ghost predicate MayGoOn(s: State)
    requires s.current in s.threads
  {
    var x := s.threads[s.current];
    || (forall t :: IsReady(s, t) ==> x.prio < s.threads[t].prio)
    || (!x.yielding && forall t :: IsReady(s, t) ==> x.prio <= s.threads[t].prio)
  }

  ghost predicate IsRunning(s: State) {
    s.current >= 0 && s.current in s.threads && s.threads[s.current].stat == Running
  }

  /** The level of the most urgent threads that are ready. */
  ghost predicate IsTop(s: State, p: nat) {
    && p < |s.queues| && s.queues[p] != []
    && forall q :: 0 <= q < p ==> s.queues[q] == []
  }

  /** Nothing happens to any thread but that the current one no longer yields. */
  ghost predicate GoesOnAs(s: State, r: State) {
    && s.current >= 0 && s.current in s.threads
    && r.current == s.current && r.queues == s.queues && r.lock == s.lock
    && r.threads == s.threads[s.current := s.threads[s.current].(yielding := false)]
  }

  /** The first of the most urgent threads runs, and the thread that ran, if it did, goes to the end of the
      queue of its priority; the other queues and threads stay as they are. */
  ghost predicate SwitchesAs(s: State, r: State, p: nat) {
    && s.current >= 0 && s.current in s.threads && IsTop(s, p) && |r.queues| == |s.queues| && r.lock == s.lock
    && var c: Tid, to, x := s.current, s.queues[p][0], s.threads[s.current];
       && to in s.threads && r.current == to != c && r.threads.Keys == s.threads.Keys
       && r.threads[to] == s.threads[to].(stat := Running)
       && r.threads[c] == (if x.stat == Running then x.(stat := Ready, yielding := false) else x)
       && (forall t :: t in s.threads && t != c && t != to ==> r.threads[t] == s.threads[t])
       && forall q :: 0 <= q < |s.queues| ==> r.queues[q] == Rest(s, q, p) + Back(s, q, x.stat == Running)
  }

  function Rest(s: State, q: nat, p: nat): seq<Tid>
    requires q < |s.queues|
  {
    if q == p && s.queues[q] != [] then s.queues[q][1..] else s.queues[q]
  }

  function Back(s: State, q: nat, runs: bool): seq<Tid>
    requires s.current >= 0 && s.current in s.threads
  {
    if runs && s.threads[s.current].prio == q then [s.current] else []
  }

  lemma TopIs(s: State)
    requires Inv(s)
    ensures s.group == 0 <==> forall t :: !IsReady(s, t)
    ensures s.group != 0 ==> IsTop(s, HighestLevel(s)) && HighestLevel(s) < LEVELS
    ensures s.group != 0 ==> exists t :: IsReady(s, t) && s.threads[t].prio == HighestLevel(s)
    ensures s.group != 0 ==> forall t :: IsReady(s, t) ==> HighestLevel(s) <= s.threads[t].prio
  {
    hide Bit, Shift, HighestLevel;
    LevelBound(s);
    if s.group != 0 {
      LevelIs(s);
      FirstReady(s, HighestLevel(s));
      assert IsReady(s, s.queues[HighestLevel(s)][0]);
    }
  }

  lemma GoesOnIff(s: State)
    requires Inv(s) && s.current != NOBODY && s.group != 0
    ensures s.current in s.threads && (MayGoOn(s) <==> GoesOn(s.threads[s.current], HighestLevel(s)))
  {
    hide BitsOk, QueuesOk, ThreadsOk, HighestLevel;
    CurrentKnown(s);
    TopIs(s);
    var top :| IsReady(s, top) && s.threads[top].prio == HighestLevel(s);
  }

  /** Taking a thread out of the queues that is in none. */
  lemma RemoveNone(s: State, t: Tid)
    requires QueuesOk(s) && t in s.threads && s.threads[t].prio < LEVELS && s.threads[t].stat != Ready
    ensures Remove(s, t).queues == s.queues
  {
    hide Removed, AndNot;
    NotQueued(s, t, s.threads[t].prio);
    NotThere(s.queues[s.threads[t].prio], t);
  }

  lemma SwitchQueues(s: State, p: nat, runs: bool)
    requires Inv(s) && s.current != NOBODY && IsTop(s, p) && p < LEVELS
    requires s.queues[p][0] in s.threads && s.threads[s.queues[p][0]].prio == p && s.queues[p][0] != s.current
    ensures s.current >= 0 && s.current in s.threads
    ensures var r := Switch(s, s.queues[p][0], runs);
      |r.queues| == |s.queues| && forall q :: 0 <= q < |s.queues| ==> r.queues[q] == Rest(s, q, p) + Back(s, q, runs)
  {
    hide BitsOk, QueuesOk, Or, AndNot, Removed;
    CurrentKnown(s);
    var to := s.queues[p][0];
    FirstRemoved(s.queues[p], Back(s, p, runs));
    assert s.queues[p] + [] == s.queues[p];
    var r := Switch(s, to, runs);
    forall q | 0 <= q < |s.queues|
      ensures r.queues[q] == Rest(s, q, p) + Back(s, q, runs)
    {
      assert s.queues[q] + [] == s.queues[q];
    }
  }

  lemma FirstRemoved(q: seq<Tid>, back: seq<Tid>)
    requires q != []
    ensures Removed(q + back, q[0]) == q[1..] + back
  {
    assert (q + back)[0] == q[0] && (q + back)[1..] == q[1..] + back;
  }

  /** Main result on rt_schedule: while the scheduler is locked, or nobody is ready, nothing happens;
      otherwise the current thread stays, if it runs, exactly when it may go on, and else the first of the
      most urgent threads that are ready takes its place. */
  lemma ScheduleExact(s: State)
    requires Inv(s) && s.current != NOBODY
    ensures s.current in s.threads
    ensures var r := Schedule(s);
      if s.lock != 0 || forall t :: !IsReady(s, t) then r == s
      else if IsRunning(s) && MayGoOn(s) then GoesOnAs(s, r)
      else exists p: nat :: SwitchesAs(s, r, p)
  {
    hide BitsOk, QueuesOk, HighestLevel, Remove, Insert, Shift, SwitchesAs, MayGoOn, GoesOn;
    CurrentKnown(s);
    TopIs(s);
    if s.lock == 0 && s.group != 0 {
      LevelIs(s);
      GoesOnIff(s);
      if IsRunning(s) && MayGoOn(s) {
        StaysAs(s);
      } else {
        FirstReady(s, HighestLevel(s));
        SwitchIs(s, HighestLevel(s));
      }
    }
  }

  lemma StaysAs(s: State)
    requires Inv(s) && s.current != NOBODY && s.lock == 0 && s.group != 0 && IsRunning(s)
    requires GoesOn(s.threads[s.current], HighestLevel(s))
    ensures GoesOnAs(s, Schedule(s))
  {
    hide BitsOk, QueuesOk, HighestLevel, Shift, Removed, AndNot;
    CurrentKnown(s);
    LevelIs(s);
    FirstReady(s, HighestLevel(s));
    var c: Tid := s.current;
    var u := Put(s, c, s.threads[c].(yielding := false));
    RetuneKeeps(s, c, s.threads[c].(yielding := false));
    RemoveSame(u, c);
    RemoveNone(u, c);
  }

  lemma SwitchIs(s: State, p: nat)
    requires Inv(s) && s.current != NOBODY && s.lock == 0 && s.group != 0 && p == HighestLevel(s)
    requires s.current in s.threads && !(IsRunning(s) && GoesOn(s.threads[s.current], p))
    ensures SwitchesAs(s, Schedule(s), p)
  {
    hide BitsOk, QueuesOk, HighestLevel, Shift, Removed, AndNot, Or, Switch, GoesOn;
    CurrentKnown(s);
    TopIs(s);
    LevelIs(s);
    FirstReady(s, p);
    var c: Tid := s.current;
    var runs := s.threads[c].stat == Running;
    var u := if runs then Put(s, c, s.threads[c].(yielding := false)) else s;
    if runs {
      RetuneKeeps(s, c, s.threads[c].(yielding := false));
    }
    SwitchKeys(u, s.queues[p][0], runs);
    SwitchQueues(u, p, runs);
  }

  // ---- What the other calls do ------------------------------------------------------------

  /** No thread but `t` changes. */
  ghost predicate OnlyOne(s: State, r: State, t: Tid) {
    r.threads.Keys == s.threads.Keys && forall u :: u in s.threads && u != t ==> r.threads[u] == s.threads[u]
  }

  /** One thread goes to the end of the queue of its priority, and the other queues stay. */
  ghost predicate Queued(s: State, r: State, t: Tid, p: nat) {
    && p < |s.queues| == |r.queues| && r.queues[p] == s.queues[p] + [t]
    && forall q :: 0 <= q < |s.queues| && q != p ==> r.queues[q] == s.queues[q]
  }

  /** One thread leaves the queue of its priority, and the other queues stay. */
  ghost predicate Unqueued(s: State, r: State, t: Tid, p: nat) {
    && p < |s.queues| == |r.queues| && t !in r.queues[p] && r.queues[p] == Removed(s.queues[p], t)
    && forall q :: 0 <= q < |s.queues| && q != p ==> r.queues[q] == s.queues[q]
  }

  /** A suspended thread keeps all it has, is in no queue, and a resume makes it what it was, at the end of
      its queue; a current thread that suspends itself and is resumed before it lost the processor runs on. */
  lemma ResumeUndoesSuspend(s: State, t: Tid)
    requires Inv(s) && t in s.threads && (s.threads[t].stat == Ready || s.threads[t].stat == Running)
    ensures Inv(SuspendThread(s, t))
    ensures var u, x := SuspendThread(s, t), s.threads[t]; var r := ResumeThread(u, t);
      && u.threads == s.threads[t := x.(stat := Suspended)] && u.current == s.current && u.lock == s.lock
      && Unqueued(s, u, t, x.prio)
      && r.threads == s.threads && r.current == s.current && r.lock == s.lock
      && if t == s.current then r.queues == u.queues == s.queues else Queued(u, r, t, x.prio)
  {
    hide BitsOk, Distinct, Shift, Removed, Or, AndNot;
    SuspendKeeps(s, t);
    CurrentQueues(s, t);
    var x := s.threads[t];
    RemovedMembers(s.queues[x.prio], t);
    assert s.threads[t := x.(stat := Suspended)][t := x] == s.threads;
    if t == s.current {
      RemoveNone(s, t);
    }
  }

  /** Threads that are neither ready nor running cannot be suspended, and only suspended ones resumed. */
  lemma RefusedCalls(s: State, t: Tid)
    requires Inv(s) && t in s.threads
    ensures s.threads[t].stat != Ready && s.threads[t].stat != Running ==> SuspendThread(s, t) == s
    ensures s.threads[t].stat != Suspended ==> ResumeThread(s, t) == s
  {
    hide Inv;
  }

  /** A change of priority moves a ready thread to the end of the queue of its new priority, and leaves
      everything else. */
  lemma PriorityEffect(s: State, t: Tid, p: nat)
    requires Inv(s) && t in s.threads && p < LEVELS
    ensures var r, x := SetPriority(s, t, p), s.threads[t];
      && r.threads == s.threads[t := x.(prio := p, mask := Shift(p))] && r.current == s.current && r.lock == s.lock
      && if x.stat != Ready then r.queues == s.queues
         else exists u: State :: Unqueued(s, u, t, x.prio) && Queued(u, r, t, p)
  {
    hide BitsOk, Distinct, Shift, Removed, Or, AndNot;
    CurrentQueues(s, t);
    var x := s.threads[t];
    if x.stat == Ready {
      RemovedMembers(s.queues[x.prio], t);
      var u := Remove(s, t);
      assert Unqueued(s, u, t, x.prio);
      assert s.current != t;
    }
  }

  /** The state in which a call reschedules: what it did to its thread before. */
  lemma BeforeEffect(s: State, c: Call)
    requires Inv(s) && Enabled(s, c) && Reschedules(s, c)
    ensures Inv(Before(s, c)) && Apply(s, c) == Schedule(Before(s, c)) && Before(s, c).current == s.current
    ensures s.current in s.threads
    ensures var u, x := Before(s, c), s.threads[s.current];
      match c
      case Startup(t) => var y := s.threads[t];
        u.threads == s.threads[t := y.(stat := Ready, prio := y.initPrio, mask := Shift(y.initPrio), yielding := false)]
        && Queued(s, u, t, y.initPrio)
      case Timeout(t) => if t == s.current then u.queues == s.queues && u.threads == s.threads[t := s.threads[t].(stat := Running)]
        else u.threads == s.threads[t := s.threads[t].(stat := Ready)] && Queued(s, u, t, s.threads[t].prio)
      case Exit => u.threads == s.threads[s.current := x.(stat := Closed, yielding := false)] && u.queues == s.queues
      case Yield => u == Put(s, s.current, x.(remaining := x.initTick, yielding := true))
      case Tick => u == Put(s, s.current, x.(remaining := x.initTick, yielding := true))
      case _ => u.threads == s.threads && u.queues == s.queues
  {
    hide BitsOk, Distinct, Shift, Removed, Or, AndNot, Schedule, Apply;
    BeforeIs(s, c);
    CurrentKnown(s);
    match c
    case Startup(t) =>
      var y := s.threads[t];
      PreparedKeeps(s, t);
      assert s.threads[t := y.(prio := y.initPrio, mask := Shift(y.initPrio), stat := Suspended, yielding := false)]
        [t := y.(stat := Ready, prio := y.initPrio, mask := Shift(y.initPrio), yielding := false)]
        == s.threads[t := y.(stat := Ready, prio := y.initPrio, mask := Shift(y.initPrio), yielding := false)];
    case Timeout(t) =>
    case Exit => RemoveNone(s, s.current);
    case _ =>
  }

  /** The system starts with the first of the most urgent threads. */
  lemma StartExact(s: State)
    requires Inv(s) && Enabled(s, Start)
    ensures exists p: nat :: IsTop(s, p) && StartsAs(s, StartSystem(s), p)
  {
    hide BitsOk, Distinct, Shift, Removed, Or, AndNot, HighestLevel;
    TopIs(s);
    LevelIs(s);
    var p := HighestLevel(s);
    FirstReady(s, p);
    FirstRemoved(s.queues[p], []);
    assert s.queues[p] + [] == s.queues[p] && s.queues[p][1..] + [] == s.queues[p][1..];
    assert StartsAs(s, StartSystem(s), p);
  }

  ghost predicate StartsAs(s: State, r: State, p: nat) {
    && p < |s.queues| == |r.queues| && s.queues[p] != [] && s.queues[p][0] in s.threads
    && var to := s.queues[p][0];
       && r.current == to && r.threads == s.threads[to := s.threads[to].(stat := Running, yielding := false)]
       && r.queues == s.queues[p := s.queues[p][1..]]
  }

  // ---- Locked, and closed -----------------------------------------------------------------

  /** How deep the critical sections are nested after these calls. */
  function Nest(calls: seq<Call>): nat {
    if calls == [] then 0
    else
      var n, c := Nest(calls[..|calls| - 1]), calls[|calls| - 1];
      if c.EnterCritical? then n + 1 else if c.ExitCritical? && 0 < n then n - 1 else n
  }

  lemma StepLock(s: State, c: Call)
    requires Inv(s) && Enabled(s, c)
    ensures Apply(s, c).lock == if c.EnterCritical? then s.lock + 1 else if c.ExitCritical? && 0 < s.lock then s.lock - 1 else s.lock
    ensures s.current != NOBODY && 0 < s.lock && 0 < Apply(s, c).lock ==> Apply(s, c).current == s.current
    ensures s.current != NOBODY ==> Apply(s, c).current != NOBODY
  {
    hide BitsOk, QueuesOk, Schedule, Shift, Removed, Or, AndNot, HighestLevel;
    if Reschedules(s, c) {
      BeforeIs(s, c);
      ScheduleKeeps(Before(s, c));
      if 0 < Before(s, c).lock {
        LockedSame(Before(s, c));
      }
    } else {
      QuietLock(s, c);
    }
  }

  lemma LockedSame(s: State)
    requires Inv(s) && s.current != NOBODY && 0 < s.lock
    ensures Schedule(s) == s
  {
    hide Inv;
  }

  lemma QuietLock(s: State, c: Call)
    requires Inv(s) && Enabled(s, c) && !Reschedules(s, c)
    ensures Apply(s, c).lock == if c.EnterCritical? then s.lock + 1 else if c.ExitCritical? && 0 < s.lock then s.lock - 1 else s.lock
    ensures s.current != NOBODY ==> Apply(s, c).current == s.current
  {
    hide BitsOk, QueuesOk, Schedule, Shift, Removed, Or, AndNot, HighestLevel;
    match c
    case Start => LevelIs(s); FirstReady(s, HighestLevel(s));
    case Startup(t) => PreparedKeeps(s, t); InsertKeeps(Prepared(s, t), t);
    case Suspend(t) =>
    case Resume(t) =>
    case ChangePriority(t, p) =>
    case Tick =>
    case EnterCritical =>
    case ExitCritical =>
    case Reschedule =>
  }

  lemma NestStep(calls: seq<Call>, c: Call)
    ensures Nest(calls + [c]) ==
      if c.EnterCritical? then Nest(calls) + 1 else if c.ExitCritical? && 0 < Nest(calls) then Nest(calls) - 1 else Nest(calls)
  {
    assert (calls + [c])[..|calls|] == calls;
  }

  /** The lock counts the critical sections entered and not left. */
  lemma {:induction false} RunNest(run: seq<State>, calls: seq<Call>, k: nat)
    requires IsRun(run, calls) && k <= |calls|
    ensures run[k].lock == Nest(calls[..k])
  {
    hide Inv, Apply, Enabled;
    if k > 0 {
      RunNest(run, calls, k - 1);
      RunInv(run, calls, k - 1);
      assert IsStep(run[k - 1], calls[k - 1], run[k - 1 + 1]);
      StepLock(run[k - 1], calls[k - 1]);
      NestStep(calls[..k - 1], calls[k - 1]);
      assert calls[..k] == calls[..k - 1] + [calls[k - 1]];
    }
  }

  /** Main result on critical sections: from the moment a thread is inside one until all are left, it keeps
      the processor, whatever is called. */
  lemma {:induction false} KeepsProcessor(run: seq<State>, calls: seq<Call>, i: nat, k: nat)
    requires IsRun(run, calls) && i <= k <= |calls| && run[i].current != NOBODY
    requires forall j :: i <= j <= k ==> 0 < Nest(calls[..j])
    ensures run[k].current == run[i].current
    decreases k
  {
    hide Inv, Apply, Enabled, Nest;
    if i < k {
      KeepsProcessor(run, calls, i, k - 1);
      RunInv(run, calls, k - 1);
      RunNest(run, calls, k - 1);
      RunNest(run, calls, k);
      assert IsStep(run[k - 1], calls[k - 1], run[k - 1 + 1]);
      StepLock(run[k - 1], calls[k - 1]);
      assert 0 < Nest(calls[..k - 1]) && 0 < Nest(calls[..k]);
    }
  }

  ghost predicate IsClosed(s: State, t: Tid) {
    t in s.threads && s.threads[t].stat == Closed
  }

  lemma ScheduleClosed(s: State, t: Tid)
    requires Inv(s) && s.current != NOBODY && IsClosed(s, t)
    ensures IsClosed(Schedule(s), t)
  {
    hide Inv, Schedule, MayGoOn;
    ScheduleExact(s);
    if exists p: nat :: SwitchesAs(s, Schedule(s), p) {
      var p: nat :| SwitchesAs(s, Schedule(s), p);
      TopReady(s, p);
    }
  }

  lemma TopReady(s: State, p: nat)
    requires Inv(s) && IsTop(s, p)
    ensures IsReady(s, s.queues[p][0])
  {
    hide BitsOk;
    FirstReady(s, p);
  }

  lemma StepClosed(s: State, c: Call, t: Tid)
    requires Inv(s) && Enabled(s, c) && IsClosed(s, t)
    ensures IsClosed(Apply(s, c), t)
  {
    hide BitsOk, QueuesOk, Schedule, Shift, Removed, Or, AndNot, HighestLevel, Queued;
    if Reschedules(s, c) {
      BeforeEffect(s, c);
      ScheduleClosed(Before(s, c), t);
    } else {
      match c
      case Start =>
        StartExact(s);
        var p: nat :| IsTop(s, p) && StartsAs(s, StartSystem(s), p);
        TopReady(s, p);
      case Startup(u) => PreparedKeeps(s, u); InsertKeeps(Prepared(s, u), u);
      case Suspend(u) =>
      case Resume(u) =>
      case ChangePriority(u, p) =>
      case Tick =>
      case EnterCritical =>
      case ExitCritical =>
      case Reschedule =>
    }
  }

  /** A thread that has exited never runs again. */
  lemma {:induction false} ClosedStays(run: seq<State>, calls: seq<Call>, i: nat, k: nat, t: Tid)
    requires IsRun(run, calls) && i <= k <= |calls| && IsClosed(run[i], t)
    ensures IsClosed(run[k], t)
    decreases k
  {
    hide Inv, Apply, Enabled, IsClosed;
    if i < k {
      ClosedStays(run, calls, i, k - 1, t);
      RunInv(run, calls, k - 1);
      assert IsStep(run[k - 1], calls[k - 1], run[k - 1 + 1]);
      StepClosed(run[k - 1], calls[k - 1], t);
    }
  }
}
