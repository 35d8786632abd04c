/** The calls of thread.c, scheduler.c and clock.c on the scheduler, and all their runs. */
module SchedulerRuns {
  import opened Bits
  import opened IpcList
  import opened SchedulerLemmas
  import opened SchedulerModel
  import opened Sequences

  datatype Call =
    | Start                       // rt_system_scheduler_start
    | Startup(t: Tid)             // rt_thread_startup
    | Suspend(t: Tid)             // rt_thread_suspend
    | Resume(t: Tid)              // rt_thread_resume
    | Timeout(t: Tid)             // rt_thread_timeout
    | Yield                       // rt_thread_yield
    | Exit                        // rt_thread_exit
    | ChangePriority(t: Tid, p: nat)
    | Tick                        // the time slice part of rt_tick_increase
    | EnterCritical
    | ExitCritical
    | Reschedule                  // rt_schedule

  /** What the calls assert, and that only a running system calls most of them. */
  predicate Enabled(s: State, c: Call) {
    match c
    case Start => s.current == NOBODY && s.group != 0
    case Startup(t) => t in s.threads && s.threads[t].stat == Initial
    case Suspend(t) => t in s.threads
    case Resume(t) => t in s.threads
    case Timeout(t) => t in s.threads && s.threads[t].stat == Suspended && s.current != NOBODY
    case ChangePriority(t, p) => t in s.threads && p < LEVELS
    case Exit => s.current != NOBODY && s.current >= 0 && s.current in s.threads
    case Yield => s.current != NOBODY && s.current >= 0 && s.current in s.threads
    case Tick => s.current != NOBODY && s.current >= 0 && s.current in s.threads
    case EnterCritical => true
    case ExitCritical => true
    case Reschedule => s.current != NOBODY
  }

  function StartSystem(s: State): State
    requires Inv(s) && s.group != 0 && s.current == NOBODY
  {
    LevelIs(s);
    FirstReady(s, HighestLevel(s));
    var to := s.queues[HighestLevel(s)][0];
    var u := Remove(s.(current := to), to);
    Put(u, to, u.threads[to].(stat := Running, yielding := false))
  }

  function SuspendThread(s: State, t: Tid): State
    requires Inv(s) && t in s.threads
  {
    if s.threads[t].stat != Ready && s.threads[t].stat != Running then s
    else
      var u := Remove(s, t);
      Put(u, t, u.threads[t].(stat := Suspended))
  }

  function ResumeThread(s: State, t: Tid): State
    requires Inv(s) && t in s.threads
  {
    if s.threads[t].stat != Suspended then s else Insert(s, t)
  }

  /** A thread made ready for its first start. */
  function Prepared(s: State, t: Tid): State
    requires t in s.threads
  {
    var x := s.threads[t];
    Put(s, t, x.(prio := x.initPrio, mask := Shift(x.initPrio), stat := Suspended, yielding := false))
  }

  function StartupThread(s: State, t: Tid): State
    requires Inv(s) && t in s.threads && s.threads[t].stat == Initial
  {
    PreparedKeeps(s, t);
    var u := ResumeThread(Prepared(s, t), t);
    InsertKeeps(Prepared(s, t), t);
    if u.current != NOBODY then Schedule(u) else u
  }

  function TimeoutThread(s: State, t: Tid): State
    requires Inv(s) && t in s.threads && s.threads[t].stat == Suspended && s.current != NOBODY
  {
    InsertKeeps(s, t);
    Schedule(Insert(s, t))
  }

  function YieldThread(s: State): State
    requires Inv(s) && s.current != NOBODY
  {
    var x := s.threads[s.current];
    RetuneKeeps(s, s.current, x.(remaining := x.initTick, yielding := true));
    Schedule(Put(s, s.current, x.(remaining := x.initTick, yielding := true)))
  }

  function ExitThread(s: State): State
    requires Inv(s) && s.current != NOBODY
  {
    var c: Tid := s.current;
    var u := Remove(s, c);
    RemoveSame(s, c);
    RemoveKeeps(s, c, u.threads[c].(stat := Closed, yielding := false));
    Schedule(Put(u, c, u.threads[c].(stat := Closed, yielding := false)))
  }

  function SetPriority(s: State, t: Tid, p: nat): State
    requires Inv(s) && t in s.threads && p < LEVELS
  {
    if s.threads[t].stat == Ready then
      var u := Remove(s, t);
      Insert(Put(u, t, u.threads[t].(prio := p, mask := Shift(p))), t)
    else Put(s, t, s.threads[t].(prio := p, mask := Shift(p)))
  }

  const TICK_LIMIT := 0x1_0000_0000

  function TickThread(s: State): State
    requires Inv(s) && s.current != NOBODY
  {
    var x := s.threads[s.current];
    var left := (x.remaining - 1) % TICK_LIMIT;
    if left != 0 then Put(s, s.current, x.(remaining := left))
    else
      RetuneKeeps(s, s.current, x.(remaining := x.initTick, yielding := true));
      Schedule(Put(s, s.current, x.(remaining := x.initTick, yielding := true)))
  }

  function LeaveCritical(s: State): State
    requires Inv(s)
  {
    if s.lock <= 1 then
      LockKeeps(s, 0);
      if s.current != NOBODY then Schedule(s.(lock := 0)) else s.(lock := 0)
    else s.(lock := s.lock - 1)
  }

  function Apply(s: State, c: Call): State
    requires Inv(s) && Enabled(s, c)
  {
    match c
    case Start => StartSystem(s)
    case Startup(t) => StartupThread(s, t)
    case Suspend(t) => SuspendThread(s, t)
    case Resume(t) => ResumeThread(s, t)
    case Timeout(t) => TimeoutThread(s, t)
    case Yield => YieldThread(s)
    case Exit => ExitThread(s)
    case ChangePriority(t, p) => SetPriority(s, t, p)
    case Tick => TickThread(s)
    case EnterCritical => s.(lock := s.lock + 1)
    case ExitCritical => LeaveCritical(s)
    case Reschedule => Schedule(s)
  }

  // ---- What every call keeps --------------------------------------------------------------

  lemma LockKeeps(s: State, n: nat)
    requires Inv(s)
    ensures Inv(s.(lock := n))
  {
    hide Bit, Shift, Distinct;
  }

  lemma PreparedKeeps(s: State, t: Tid)
    requires Inv(s) && t in s.threads && s.threads[t].stat == Initial
    ensures Inv(Prepared(s, t)) && Prepared(s, t).threads[t].stat == Suspended
  {
    hide BitsOk, QueuesOk, Shift;
    var x := s.threads[t];
    OnlyThread(s, t, x.(prio := x.initPrio, mask := Shift(x.initPrio), stat := Suspended, yielding := false));
  }

  lemma StartKeeps(s: State)
    requires Inv(s) && Enabled(s, Start)
    ensures Inv(StartSystem(s))
  {
    hide BitsOk, QueuesOk, Shift, AndNot, Removed, HighestLevel;
    LevelIs(s);
    FirstReady(s, HighestLevel(s));
    var to := s.queues[HighestLevel(s)][0];
    QueuesElsewhere(s, s.(current := to));
    RemoveQueues(s.(current := to), to, s.threads[to].(stat := Running, yielding := false));
  }

  lemma SuspendKeeps(s: State, t: Tid)
    requires Inv(s) && t in s.threads
    ensures Inv(SuspendThread(s, t))
  {
    hide BitsOk, QueuesOk, Shift, Remove;
    if s.threads[t].stat == Ready || s.threads[t].stat == Running {
      CurrentQueues(s, t);
      RemoveSame(s, t);
      RemoveKeeps(s, t, s.threads[t].(stat := Suspended));
    }
  }

  lemma CurrentQueues(s: State, t: Tid)
    requires Inv(s) && t in s.threads
    ensures s.threads[t].prio < |s.queues| == LEVELS
  {
  }

  lemma SetPriorityKeeps(s: State, t: Tid, p: nat)
    requires Inv(s) && t in s.threads && p < LEVELS
    ensures Inv(SetPriority(s, t, p))
  {
    hide BitsOk, QueuesOk, Shift, Removed, Or, AndNot;
    CurrentQueues(s, t);
    var x := s.threads[t];
    if x.stat == Ready {
      var y := x.(prio := p, mask := Shift(p));
      var u := Put(Remove(s, t), t, y.(stat := Suspended));
      RemoveQueues(s, t, y.(stat := Suspended));
      InsertQueues(u, t);
      assert Insert(Put(Remove(s, t), t, y), t) == Insert(u, t) by {
        assert s.threads[t := y][t := y.(stat := Ready)] == s.threads[t := y.(stat := Suspended)][t := y.(stat := Ready)];
      }
    } else {
      OnlyThread(s, t, x.(prio := p, mask := Shift(p)));
    }
  }

  /** Every call keeps the bits, the queues and the threads in step. */
  lemma ApplyKeeps(s: State, c: Call)
    requires Inv(s) && Enabled(s, c)
    ensures Inv(Apply(s, c))
  {
    hide BitsOk, QueuesOk, ThreadsOk, Schedule, Insert, Remove, Shift;
    match c
    case Start => StartKeeps(s);
    case Startup(t) =>
      PreparedKeeps(s, t);
      InsertKeeps(Prepared(s, t), t);
      CurrentQueues(Prepared(s, t), t);
      var u := Insert(Prepared(s, t), t);
      if u.current != NOBODY { ScheduleKeeps(u); }
    case Suspend(t) => SuspendKeeps(s, t);
    case Resume(t) => if s.threads[t].stat == Suspended { InsertKeeps(s, t); }
    case Timeout(t) => CurrentQueues(s, t); InsertKeeps(s, t); InsertCurrent(s, t); ScheduleKeeps(Insert(s, t));
    case Yield => YieldKeeps(s);
    case Exit => ExitKeeps(s);
    case ChangePriority(t, p) => SetPriorityKeeps(s, t, p);
    case Tick => TickKeeps(s);
    case EnterCritical => LockKeeps(s, s.lock + 1);
    case ExitCritical =>
      LockKeeps(s, if s.lock <= 1 then 0 else s.lock - 1);
      if s.lock <= 1 && s.current != NOBODY { ScheduleKeeps(s.(lock := 0)); }
    case Reschedule => ScheduleKeeps(s);
  }

  lemma InsertCurrent(s: State, t: Tid)
    requires Inv(s) && t in s.threads
    ensures Insert(s, t).current == s.current && Insert(s, t).lock == s.lock
  {
  }

  lemma YieldKeeps(s: State)
    requires Inv(s) && s.current != NOBODY
    ensures Inv(YieldThread(s))
  {
    hide BitsOk, QueuesOk, Schedule, Shift;
    var x := s.threads[s.current];
    RetuneKeeps(s, s.current, x.(remaining := x.initTick, yielding := true));
    ScheduleKeeps(Put(s, s.current, x.(remaining := x.initTick, yielding := true)));
  }

  lemma ExitKeeps(s: State)
    requires Inv(s) && s.current != NOBODY
    ensures Inv(ExitThread(s))
  {
    hide BitsOk, QueuesOk, Schedule, Remove, Shift;
    var c: Tid := s.current;
    CurrentQueues(s, c);
    RemoveSame(s, c);
    RemoveKeeps(s, c, s.threads[c].(stat := Closed, yielding := false));
    ScheduleKeeps(Put(Remove(s, c), c, s.threads[c].(stat := Closed, yielding := false)));
  }

  lemma TickKeeps(s: State)
    requires Inv(s) && s.current != NOBODY
    ensures Inv(TickThread(s))
  {
    hide BitsOk, QueuesOk, Schedule, Shift;
    var x := s.threads[s.current];
    RetuneKeeps(s, s.current, x.(remaining := (x.remaining - 1) % TICK_LIMIT));
    RetuneKeeps(s, s.current, x.(remaining := x.initTick, yielding := true));
    ScheduleKeeps(Put(s, s.current, x.(remaining := x.initTick, yielding := true)));
  }

  // ---- The idle thread --------------------------------------------------------------------

  ghost predicate Alive(s: State, t: Tid) {
    t in s.threads && (s.threads[t].stat == Ready || s.threads[t].stat == Running)
  }

  /** Calls that end the life of a thread or put it to sleep. */
  predicate PutsAway(s: State, c: Call, t: Tid) {
    c == Suspend(t) || (c == Exit && s.current == t)
  }

  lemma ScheduleAlive(s: State, t: Tid)
    requires Inv(s) && s.current != NOBODY && Alive(s, t)
    ensures Alive(Schedule(s), t)
  {
    hide BitsOk, QueuesOk, HighestLevel, Remove, Insert, Shift;
    CurrentKnown(s);
    if s.lock == 0 && s.group != 0 {
      LevelIs(s);
      var c: Tid, level := s.current, HighestLevel(s);
      FirstReady(s, level);
      var runs := s.threads[c].stat == Running;
      var u := if runs then Put(s, c, s.threads[c].(yielding := false)) else s;
      if runs {
        RetuneKeeps(s, c, s.threads[c].(yielding := false));
      }
      if runs && GoesOn(s.threads[c], level) {
        RemoveSame(u, c);
      } else {
        SwitchKeys(u, s.queues[level][0], runs);
      }
    }
  }

  /** The state in which a call does its scheduling. */
  function Before(s: State, c: Call): State
    requires Inv(s) && Enabled(s, c)
  {
    match c
    case Startup(t) =>
      PreparedKeeps(s, t);
      InsertKeeps(Prepared(s, t), t);
      Insert(Prepared(s, t), t)
    case Timeout(t) => Insert(s, t)
    case Yield => var x := s.threads[s.current]; Put(s, s.current, x.(remaining := x.initTick, yielding := true))
    case Tick => var x := s.threads[s.current]; Put(s, s.current, x.(remaining := x.initTick, yielding := true))
    case Exit =>
      RemoveSame(s, s.current);
      var u := Remove(s, s.current);
      Put(u, s.current, u.threads[s.current].(stat := Closed, yielding := false))
    case ExitCritical => s.(lock := 0)
    case _ => s
  }

  /** The next tick is the last one of the current thread's slice. */
  predicate SliceEnds(s: State) {
    s.current in s.threads && (s.threads[s.current].remaining - 1) % TICK_LIMIT == 0
  }

  /** Calls that end with rt_schedule. */
  predicate Reschedules(s: State, c: Call) {
    s.current != NOBODY
      && (c.Startup? || c.Timeout? || c.Yield? || c.Exit? || c.Reschedule?
          || (c.ExitCritical? && s.lock <= 1) || (c.Tick? && SliceEnds(s)))
  }

  lemma BeforeIs(s: State, c: Call)
    requires Inv(s) && Enabled(s, c) && Reschedules(s, c)
    ensures Inv(Before(s, c)) && Before(s, c).current == s.current != NOBODY && Apply(s, c) == Schedule(Before(s, c))
    ensures Before(s, c).lock == if c.ExitCritical? then 0 else s.lock
    ensures forall i :: Alive(s, i) && !PutsAway(s, c, i) ==> Alive(Before(s, c), i)
  {
    hide BitsOk, QueuesOk, Schedule, Shift, Removed, Or, AndNot;
    match c
    case Startup(t) => PreparedKeeps(s, t); InsertKeeps(Prepared(s, t), t);
    case Timeout(t) => InsertKeeps(s, t);
    case Yield =>
      var x := s.threads[s.current];
      RetuneKeeps(s, s.current, x.(remaining := x.initTick, yielding := true));
    case Tick =>
      var x := s.threads[s.current];
      RetuneKeeps(s, s.current, x.(remaining := x.initTick, yielding := true));
    case Exit =>
      CurrentQueues(s, s.current);
      RemoveSame(s, s.current);
      RemoveKeeps(s, s.current, s.threads[s.current].(stat := Closed, yielding := false));
    case ExitCritical => LockKeeps(s, 0);
    case Reschedule =>
  }

  ghost predicate Best(s: State) {
    && s.current in s.threads && s.threads[s.current].stat == Running
    && forall t :: t in s.threads && s.threads[t].stat == Ready ==> s.threads[s.current].prio <= s.threads[t].prio
  }

  /** The start of the system, and every call that ends with rt_schedule while the scheduler is not
      locked, or unlocks it. */
  predicate Chooses(s: State, c: Call) {
    c == Start || (Reschedules(s, c) && (s.lock == 0 || c.ExitCritical?))
  }

  /** After every call that chooses a thread, no ready thread is more urgent than the one that runs. */
  lemma NobodyOutranks(s: State, c: Call, idle: Tid)
    requires Inv(s) && Enabled(s, c) && Chooses(s, c)
    requires Alive(s, idle) && !PutsAway(s, c, idle)
    ensures Best(Apply(s, c))
  {
    hide Inv, Schedule, Before, Reschedules, StartSystem, Best;
    if c == Start {
      StartBest(s);
    } else {
      BeforeIs(s, c);
      BestSchedule(Before(s, c), idle);
    }
  }

  lemma BestSchedule(s: State, idle: Tid)
    requires Inv(s) && s.current != NOBODY && s.lock == 0 && Alive(s, idle)
    ensures Best(Schedule(s))
  {
    hide Inv, Schedule;
    ScheduleBest(s);
  }

  lemma StartBest(s: State)
    requires Inv(s) && Enabled(s, Start)
    ensures Best(StartSystem(s))
  {
    hide BitsOk, QueuesOk, Shift, Removed, AndNot, HighestLevel;
    LevelIs(s);
    LevelBound(s);
    FirstReady(s, HighestLevel(s));
  }

  /** Nothing but its own exit and an explicit suspend puts a thread away that can run. */
  lemma AliveStays(s: State, c: Call, i: Tid)
    requires Inv(s) && Enabled(s, c) && Alive(s, i) && !PutsAway(s, c, i)
    ensures Alive(Apply(s, c), i)
  {
    hide Inv, Schedule, Before, Insert, Shift, Removed, AndNot, Or, Reschedules, Alive;
    if Reschedules(s, c) {
      BeforeIs(s, c);
      ScheduleAlive(Before(s, c), i);
    } else {
      QuietAlive(s, c, i);
    }
  }

  lemma QuietAlive(s: State, c: Call, i: Tid)
    requires Inv(s) && Enabled(s, c) && Alive(s, i) && !PutsAway(s, c, i) && !Reschedules(s, c)
    ensures Alive(Apply(s, c), i)
  {
    hide BitsOk, QueuesOk, Schedule, Shift, Removed, AndNot, Or, HighestLevel;
    match c
    case Start => LevelIs(s); FirstReady(s, HighestLevel(s)); StartAlive(s, i);
    case Startup(t) => PreparedKeeps(s, t); InsertKeeps(Prepared(s, t), t);
    case Suspend(t) =>
    case Resume(t) =>
    case ChangePriority(t, p) =>
    case Tick =>
    case EnterCritical =>
    case ExitCritical =>
  }

  lemma StartAlive(s: State, i: Tid)
    requires Inv(s) && Enabled(s, Start) && Alive(s, i)
    ensures Alive(StartSystem(s), i)
  {
    hide BitsOk, QueuesOk, Shift, Removed, AndNot, HighestLevel;
    LevelIs(s);
    FirstReady(s, HighestLevel(s));
  }

  // ---- Runs -------------------------------------------------------------------------------

  /** Before anything is started. */
  ghost predicate Fresh(s: State) {
    && s.queues == seq(LEVELS, _ => []) && s.group == 0 && s.current == NOBODY && s.lock == 0
    && forall t :: t in s.threads ==>
      s.threads[t].stat == Initial && s.threads[t].prio < LEVELS && s.threads[t].initPrio < LEVELS
  }

  ghost predicate IsStep(s: State, c: Call, r: State) {
    Enabled(s, c) && (Inv(s) ==> r == Apply(s, c))
  }

  ghost predicate IsRun(run: seq<State>, calls: seq<Call>) {
    && |run| == |calls| + 1 && Fresh(run[0])
    && forall i :: 0 <= i < |calls| ==> IsStep(run[i], calls[i], run[i + 1])
  }

  lemma FreshInv(s: State)
    requires Fresh(s)
    ensures Inv(s)
  {
    ShiftPositive(LEVELS);
    forall p | 0 <= p < LEVELS
      ensures !Bit(s.group, p)
    {
      ZeroBits(p);
    }
  }

  /** Main result: in every state of every run bit p is set exactly if queue p is not empty, every
      ready thread is in exactly the queue of its priority, and the running thread in none. */
  lemma {:induction false} RunInv(run: seq<State>, calls: seq<Call>, k: nat)
    requires IsRun(run, calls) && k <= |calls|
    ensures Inv(run[k])
  {
    hide Inv, Apply, Enabled, Fresh;
    if k == 0 {
      FreshInv(run[0]);
    } else {
      RunInv(run, calls, k - 1);
      assert IsStep(run[k - 1], calls[k - 1], run[k - 1 + 1]);
      ApplyKeeps(run[k - 1], calls[k - 1]);
    }
  }

  /** Once started, a thread that neither exits nor is suspended stays ready or running. */
  lemma {:induction false} RunAlive(run: seq<State>, calls: seq<Call>, idle: Tid, i: nat, k: nat)
    requires IsRun(run, calls) && i <= k <= |calls| && Alive(run[i], idle)
    requires forall j :: i <= j < k ==> !PutsAway(run[j], calls[j], idle)
    ensures Alive(run[k], idle)
  {
    hide Inv, Apply, Enabled, Fresh, Alive, PutsAway;
    if i < k {
      RunAlive(run, calls, idle, i, k - 1);
      RunInv(run, calls, k - 1);
      assert IsStep(run[k - 1], calls[k - 1], run[k - 1 + 1]);
      AliveStays(run[k - 1], calls[k - 1], idle);
    }
  }

  /** Main result: in every run, from the moment the idle thread was made ready, and unless it exits or
      is suspended, every call that chooses a thread leaves nobody ready who is more urgent than the
      one that runs. */
  lemma RunBest(run: seq<State>, calls: seq<Call>, idle: Tid, i: nat, k: nat)
    requires IsRun(run, calls) && i <= k < |calls| && Alive(run[i], idle)
    requires forall j :: i <= j <= k ==> !PutsAway(run[j], calls[j], idle)
    requires Chooses(run[k], calls[k])
    ensures Best(run[k + 1])
  {
    hide Inv, Apply, Enabled, Fresh, Alive, PutsAway, Chooses, Best;
    RunAlive(run, calls, idle, i, k);
    RunInv(run, calls, k);
    assert IsStep(run[k], calls[k], run[k + 1]);
    NobodyOutranks(run[k], calls[k], idle);
  }

  lemma InQueue(s: State, p: nat, t: Tid)
    requires QueuesOk(s) && p < LEVELS && t in s.queues[p]
    ensures t in s.threads && s.threads[t].stat == Ready && s.threads[t].prio == p
  {
  }

  /** In particular no two queues share a thread. */
  lemma OneQueueEach(s: State, p: nat, q: nat, t: Tid)
    requires Inv(s) && p < LEVELS && q < LEVELS && t in s.queues[p] && t in s.queues[q]
    ensures p == q && t != s.current
  {
    InQueue(s, p, t);
    InQueue(s, q, t);
  }
}
