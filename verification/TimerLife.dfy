/** What holds of the hard timers in every run, and when a timer fires. */
module TimerLife {
  import opened Sequences
  import opened Ticks
  import opened TimerHistory
  import opened TimerLemmas
  import opened TimerModel
  import opened TimerRows
  import opened TimerRuns

  // ---- The tick ---------------------------------------------------------------------------

  lemma TickAge(now: Tick, t: Tick)
    requires Age(now, t) < HALF && !Expired(now, t)
    ensures 1 <= Age(now, t) && Age(Add(now, 1), t) == Age(now, t) - 1
  {
  }

  lemma OwnAge(now: Tick)
    ensures Age(now, now) == 0
  {
  }

  lemma ShiftSorted(row: seq<Id>, key: Key, key': Key)
    requires Sorted(row, key) && forall x :: x in row ==> key'(x) == key(x) - 1
    ensures Sorted(row, key')
  {
    assert forall i :: 0 <= i < |row| ==> row[i] in row;
  }

  lemma ShiftRows(rows: seq<seq<Id>>, key: Key, key': Key)
    requires RowsOk(rows, key) && 0 < |rows| && forall x :: x in rows[|rows| - 1] ==> key'(x) == key(x) - 1
    ensures RowsOk(rows, key')
  {
    hide Sorted, Distinct, Subsequence;
    forall r | 0 <= r < |rows|
      ensures Sorted(rows[r], key')
    {
      RowInBottom(rows, key, r);
      ShiftSorted(rows[r], key, key');
    }
  }

  lemma ShiftStrict(row: seq<Id>, key: Key, key': Key, stamp: Stamps)
    requires Strict(row, key, stamp) && forall x :: x in row ==> key'(x) == key(x) - 1
    ensures Strict(row, key', stamp)
  {
    forall i, j | 0 <= i < j < |row|
      ensures Before(key', stamp, row[i], row[j])
    {
      assert Before(key, stamp, row[i], row[j]) && row[i] in row && row[j] in row;
    }
  }

  /** When nothing is due, everything listed lies in the half of the range behind the next tick, too. */
  lemma TickFits(s: State)
    requires Good(s, s.now) && s.temp == [] && !Fires(s)
    ensures var r := s.(now := Add(s.now, 1)); Good(r, r.now)
    ensures forall x :: x in Bottom(s) ==> 1 <= Age(s.now, Due(s.timers, x))
    ensures forall x :: x in Bottom(s) ==> Age(Add(s.now, 1), Due(s.timers, x)) == Age(s.now, Due(s.timers, x)) - 1
  {
    hide Age, RowsOk, Expired;
    var r := s.(now := Add(s.now, 1));
    NoneDue(s, s.now);
    forall x | x in Bottom(s)
      ensures x in s.timers && Age(r.now, Due(s.timers, x)) == Age(s.now, Due(s.timers, x)) - 1
      ensures 1 <= Age(s.now, Due(s.timers, x)) < HALF
    {
      TickAge(s.now, s.timers[x].timeout);
    }
    OwnAge(r.now);
    ShiftRows(s.rows, KeyOf(s.now, s.timers), KeyOf(r.now, s.timers));
  }

  lemma TickGood(h: History)
    requires Idle(h)
    ensures var r := Ticked(h); Good(r.s, r.s.now) && r.s.temp == [] && InOrder(r, r.s.now)
    ensures forall x :: x in Bottom(h.s) ==> 1 <= Age(h.s.now, Due(h.s.timers, x))
    ensures forall x :: x in Bottom(h.s) ==> Age(Ticked(h).s.now, Due(h.s.timers, x)) == Age(h.s.now, Due(h.s.timers, x)) - 1
  {
    hide Age, Good, Fires, Strict;
    TickFits(h.s);
    ShiftStrict(Bottom(h.s), KeyOf(h.s.now, h.s.timers), KeyOf(Ticked(h).s.now, h.s.timers), h.stamp);
  }

  // ---- A check as its turns ---------------------------------------------------------------

  ghost function States(h: History, scripts: seq<Script>): (r: seq<State>)
    requires CanCheck(h, scripts)
    ensures |r| == |scripts| + 1 && r[0] == h.s
    decreases |scripts|
  {
    if scripts == [] then [h.s] else [h.s] + States(TurnOf(h, scripts[0]), scripts[1..])
  }

  lemma {:induction false} RunNow(s: State, script: Script)
    requires Known(s.timers, script)
    ensures Run(s, script).now == s.now
  {
  }

  lemma TurnNow(s: State, script: Script)
    requires Fires(s) && Known(s.timers, script)
    ensures Turn(s, script).now == s.now
  {
    hide LinkRows, RemoveRows;
    PullKeys(s);
  }

  lemma {:induction false} CheckStates(h: History, scripts: seq<Script>)
    requires Good(h.s, h.s.now) && h.s.temp == [] && InOrder(h, h.s.now) && CanCheck(h, scripts)
    ensures IsCheck(States(h, scripts), scripts, h.s.now) && Fired(States(h, scripts)) == FiredBy(h, scripts)
    ensures States(h, scripts)[|scripts|] == Checked(h, scripts).s && !Fires(Checked(h, scripts).s)
    ensures InOrder(Checked(h, scripts), h.s.now) && Checked(h, scripts).s.now == h.s.now
    decreases |scripts|
  {
    hide Good, InOrder, Turn, SafeTurn;
    var run := States(h, scripts);
    if scripts != [] {
      var g := TurnOf(h, scripts[0]);
      TurnGood(h.s, scripts[0], h.s.now);
      TurnOrder(h, scripts[0], h.s.now);
      TurnNow(h.s, scripts[0]);
      CheckStates(g, scripts[1..]);
      assert run[1..] == States(g, scripts[1..]);
      forall i | 0 <= i < |scripts|
        ensures IsTurn(run[i], scripts[i], run[i + 1], h.s.now)
      {
        if i > 0 {
          assert IsTurn(run[1..][i - 1], scripts[1..][i - 1], run[1..][i - 1 + 1], h.s.now);
        }
      }
    }
  }

  // ---- Runs -------------------------------------------------------------------------------

  lemma NothingDue(s: State)
    requires Good(s, s.now)
    ensures !Fires(s) <==> DuePart(s, s.now) == []
  {
    hide Good, Fires, DuePart, Expired;
    DueIsExpired(s, s.now);
    if !Fires(s) {
      NoneDue(s, s.now);
      Memberless(DuePart(s, s.now));
    } else {
      FirstExpired(s);
    }
  }

  lemma Memberless(row: seq<Id>)
    ensures row == [] <==> forall x :: x !in row
  {
    assert row != [] ==> row[0] in row;
  }

  lemma FirstExpired(s: State)
    requires Fires(s)
    ensures Bottom(s) != [] && Bottom(s)[0] in Bottom(s) && Expired(s.now, Due(s.timers, Bottom(s)[0]))
  {
  }

  lemma NewTimer(h: History, x: Id, timer: Timer)
    requires Idle(h) && x !in h.s.timers
    ensures Idle(h.(s := h.s.(timers := h.s.timers[x := timer])))
  {
    hide Age, RowsOk, Strict, Expired;
    var s, r := h.s, h.s.(timers := h.s.timers[x := timer]);
    RowsAgree(s.rows, KeyOf(s.now, s.timers), KeyOf(s.now, r.timers));
    StrictAgree(Bottom(s), KeyOf(s.now, s.timers), KeyOf(s.now, r.timers), h.stamp);
    assert Bottom(s) != [] ==> Bottom(s)[0] in Bottom(s);
  }

  lemma CallIdle(h: History, c: Command)
    requires Idle(h) && c.id in h.s.timers && LongEnough(h.s, c)
    ensures Idle(Act(h, c))
  {
    hide Good, InOrder, Fires, DuePart, Run1;
    OwnAge(h.s.now);
    NothingDue(h.s);
    Run1Good(h.s, c, h.s.now);
    ActOrder(h, c, h.s.now);
    NoneRemoved(c.id);
    CallTemp(h.s, c);
    NothingDue(Run1(h.s, c));
  }

  lemma NoneRemoved(x: Id)
    ensures Remove([], x) == []
  {
  }

  lemma CallTemp(s: State, c: Command)
    requires c.id in s.timers && s.temp == []
    ensures Run1(s, c).temp == [] && Run1(s, c).now == s.now
  {
    hide LinkRows, RemoveRows;
    NoneRemoved(c.id);
  }

  lemma TickIdle(h: History, scripts: seq<Script>)
    requires Idle(h) && CanCheck(Ticked(h), scripts)
    ensures Idle(Checked(Ticked(h), scripts))
  {
    hide Good, InOrder, Fires, CanCheck, IsCheck;
    TickGood(h);
    var g := Ticked(h);
    CheckStates(g, scripts);
    CheckFires(States(g, scripts), scripts, g.s.now);
  }

  lemma StepIdle(h: History, e: Event)
    requires Idle(h) && Enabled(h, e)
    ensures Idle(Next(h, e))
  {
    hide Idle, LongEnough, CanCheck, Act, Checked;
    match e
    case Create(x, time, periodic) => NewTimer(h, x, Timer(time, 0, periodic, false));
    case Do(c) => CallIdle(h, c);
    case Tick(scripts) => TickIdle(h, scripts);
  }

  lemma BeginIdle(now: Tick, levels: nat)
    requires 0 < levels
    ensures Idle(Begin(now, levels))
  {
    var h := Begin(now, levels);
    var rows := h.s.rows;
    assert forall r :: 0 <= r < |rows| ==> rows[r] == [];
    OwnAge(now);
  }

  /** Main result: in every state of every run the rows of the skip list are in order and parts of one
      another, the pending timeouts lie within half of the tick range ahead of the current tick, what
      is listed is active, nothing is left due, and the list is ordered by timeout and, within one
      timeout, by start. */
  lemma {:induction false} RunIdle(run: seq<History>, events: seq<Event>, now: Tick, levels: nat, k: nat)
    requires IsRun(run, events, now, levels) && k <= |events|
    ensures Idle(run[k])
  {
    hide Idle, Enabled, Next;
    if k == 0 {
      BeginIdle(now, levels);
    } else {
      RunIdle(run, events, now, levels, k - 1);
      assert IsStep(run[k - 1], events[k - 1], run[k - 1 + 1]);
      StepIdle(run[k - 1], events[k - 1]);
    }
  }

  // ---- What fires at a tick ---------------------------------------------------------------

  /** Of two timers, the one that was started first. */
  predicate Earlier(stamp: Stamps, a: Id, b: Id) {
    a in stamp && b in stamp && stamp[a] < stamp[b]
  }

  lemma DueNow(s: State, x: Id)
    requires Good(s, s.now) && x in Bottom(s)
    ensures Expired(s.now, Due(s.timers, x)) <==> Due(s.timers, x) == s.now
  {
    hide RowsOk;
    assert Age(s.now, s.timers[x].timeout) < HALF;
  }

  /** What a check fires is in the order of timeouts, and of starts within one timeout. */
  lemma FiredOrder(h: History, scripts: seq<Script>, run: seq<State>, o: Tick)
    requires InOrder(h, o) && IsCheck(run, scripts, o) && run[0] == h.s && !Fires(run[|scripts|])
    ensures Strict(Fired(run), KeyOf(o, h.s.timers), h.stamp)
  {
    hide Strict, IsCheck, Subsequence, Expired, Touched;
    CheckExact(run, scripts, o);
    StrictPart(Fired(run), Bottom(h.s), KeyOf(o, h.s.timers), h.stamp);
  }

  /** Main result on what fires: at every tick of every run exactly the listed timers whose timeout is
      this very tick and that no callback before their turn started or stopped, in the order in
      which they were started. */
  lemma TickExact(run: seq<History>, events: seq<Event>, now: Tick, levels: nat, k: nat)
    requires IsRun(run, events, now, levels) && k < |events| && events[k].Tick?
    ensures Enabled(run[k], events[k])
    ensures var h, scripts := Ticked(run[k]), events[k].scripts; var f := FiredBy(h, scripts);
      && Idle(run[k])
      && (forall x :: x in f ==> x in Bottom(h.s) && x in h.stamp && Due(h.s.timers, x) == h.s.now)
      && (forall i, j :: 0 <= i < j < |f| ==> Earlier(h.stamp, f[i], f[j]))
      && (forall i, j :: 0 <= i < j < |f| ==> !Touched(scripts[i], f[j]))
      && (forall x :: x in Bottom(h.s) && Due(h.s.timers, x) == h.s.now && x !in f ==>
            exists i :: 0 <= i < |f| && Touched(scripts[i], x))
  {
    hide Idle, Touched, InOrder, Good, CanCheck;
    RunIdle(run, events, now, levels, k);
    assert IsStep(run[k], events[k], run[k + 1]);
    OneTick(run[k], events[k].scripts);
  }

  lemma OneTick(g: History, scripts: seq<Script>)
    requires Idle(g) && CanCheck(Ticked(g), scripts)
    ensures var h := Ticked(g); var f := FiredBy(h, scripts);
      && (forall x :: x in f ==> x in Bottom(h.s) && x in h.stamp && Due(h.s.timers, x) == h.s.now)
      && (forall i, j :: 0 <= i < j < |f| ==> Earlier(h.stamp, f[i], f[j]))
      && (forall i, j :: 0 <= i < j < |f| ==> !Touched(scripts[i], f[j]))
      && (forall x :: x in Bottom(h.s) && Due(h.s.timers, x) == h.s.now && x !in f ==>
            exists i :: 0 <= i < |f| && Touched(scripts[i], x))
  {
    hide Touched, Good, CanCheck, IsCheck, Subsequence, Expired, Fires, FiredBy, Fired, Strict, States;
    TickGood(g);
    var h := Ticked(g);
    var run, f := States(h, scripts), FiredBy(h, scripts);
    CheckStates(h, scripts);
    CheckExact(run, scripts, h.s.now);
    SubsequenceMember(f, Bottom(h.s));
    FiredOrder(h, scripts, run, h.s.now);
    forall x | x in Bottom(h.s)
      ensures Expired(h.s.now, Due(h.s.timers, x)) <==> Due(h.s.timers, x) == h.s.now
    {
      DueNow(h.s, x);
    }
    SameKeyOrder(f, KeyOf(h.s.now, h.s.timers), h.stamp, Age(h.s.now, h.s.now));
  }

  lemma SameKeyOrder(f: seq<Id>, key: Key, stamp: Stamps, k: int)
    requires Strict(f, key, stamp) && forall x :: x in f ==> key(x) == k
    ensures forall i, j :: 0 <= i < j < |f| ==> Earlier(stamp, f[i], f[j])
  {
    forall i, j | 0 <= i < j < |f|
      ensures Earlier(stamp, f[i], f[j])
    {
      assert Before(key, stamp, f[i], f[j]) && f[i] in f && f[j] in f;
    }
  }

  // ---- When a timer fires -----------------------------------------------------------------

  /** Listed, with `left` ticks to go. */
  ghost predicate Pending(s: State, x: Id, left: int) {
    x in s.timers && x in Bottom(s) && Age(s.now, s.timers[x].timeout) == left
  }

  /** Nobody starts or stops the timer. */
  ghost predicate LeavesAlone(e: Event, x: Id) {
    match e
    case Create(_, _, _) => true
    case Do(c) => !(Touching(c) && c.id == x)
    case Tick(scripts) => forall i :: 0 <= i < |scripts| ==> !Touched(scripts[i], x)
  }

  ghost function TickCount(events: seq<Event>, k: nat, m: nat): nat
    requires k <= m <= |events|
    decreases m
  {
    if k == m then 0 else TickCount(events, k, m - 1) + if events[m - 1].Tick? then 1 else 0
  }

  lemma CallPending(s: State, c: Command, x: Id, left: int)
    requires Good(s, s.now) && Pending(s, x, left) && c.id in s.timers && !(Touching(c) && c.id == x)
    requires c.DoStart? ==> Fits(s, c.id, s.now)
    ensures Pending(Run1(s, c), x, left)
  {
    hide Good, Insert, Remove, Start, Stop, Age;
    match c
    case DoStart(y) =>
      StartFits(s, y, s.now);
      StartTimers(s, y);
      RemoveMembers(Bottom(s), y);
      InsertHas(Remove(Bottom(s), y), y, KeyOf(s.now, Start(s, y).timers), x);
    case DoStop(y) =>
      StopGood(s, y, s.now);
      StopKeepsTimers(s, y, x);
      RemoveMembers(Bottom(s), y);
    case SetTime(y, n) =>
    case SetOneShot(y) =>
    case SetPeriodic(y) =>
  }

  lemma StopKeepsTimers(s: State, y: Id, x: Id)
    requires y in s.timers && x in s.timers && x != y
    ensures var r := Stop(s, y); x in r.timers && r.timers[x] == s.timers[x] && r.now == s.now
  {
    hide RemoveRows;
  }

  lemma {:induction false} ScriptPending(s: State, script: Script, x: Id, left: int)
    requires Good(s, s.now) && Pending(s, x, left) && Known(s.timers, script) && SafeScript(s, script, s.now)
    requires !Touched(script, x)
    ensures Pending(Run(s, script), x, left)
    decreases |script|
  {
    hide Good, Pending, Run1, Touched, Startable, Fits, Known;
    if script != [] {
      var c := script[0];
      KnownTail(s.timers, s.timers, script);
      TouchedFirst(script, x);
      if c.DoStart? {
        StartableFits(s, c.id, s.now);
      }
      CallPending(s, c, x, left);
      Run1Good(s, c, s.now);
      Run1Keys(s, c);
      Run1Now(s, c);
      KnownTail(s.timers, Run1(s, c).timers, script);
      ScriptPending(Run1(s, c), script[1..], x, left);
    }
  }

  lemma Run1Now(s: State, c: Command)
    requires c.id in s.timers
    ensures Run1(s, c).now == s.now
  {
    hide LinkRows, RemoveRows;
  }

  /** A turn for another timer. */
  lemma TurnPending(s: State, script: Script, x: Id, left: int)
    requires Good(s, s.now) && s.temp == [] && Fires(s) && Known(s.timers, script) && SafeTurn(s, script, s.now)
    requires Pending(s, x, left) && 0 < left && !Touched(script, x)
    ensures Pending(Turn(s, script), x, left) && Bottom(s)[0] != x
  {
    hide Good, Run, SafeScript, Pull, Touched, Startable, Settle, Fits, Pending;
    PullKeys(s);
    PullGood(s, s.now);
    PullPending(s, x, left);
    PullDues(s);
    ScriptPending(Pull(s), script, x, left);
    RunGood(Pull(s), script, s.now);
    RunNow(Pull(s), script);
    var u, t := Run(Pull(s), script), Bottom(s)[0];
    OwnTemp(Pull(s), script, t);
    if u.temp != [] && u.timers[t].periodic && u.timers[t].active {
      StartableFits(u, t, s.now);
    }
    SettlePending(u, t, x, left);
  }

  lemma PullPending(s: State, x: Id, left: int)
    requires Good(s, s.now) && s.temp == [] && Fires(s) && Pending(s, x, left) && 0 < left
    ensures Pending(Pull(s), x, left) && Bottom(s)[0] != x
  {
    hide Good, Pull, Fires, Age, Expired;
    PullGood(s, s.now);
    PullTimer(s, x);
    FirstExpired(s);
    assert Bottom(s) == [Bottom(s)[0]] + Bottom(s)[1..];
    DueNow(s, Bottom(s)[0]);
    OwnAge(s.now);
  }

  lemma PullTimer(s: State, x: Id)
    requires Fires(s) && x in s.timers
    ensures var p := Pull(s); x in p.timers && p.timers[x].timeout == s.timers[x].timeout && p.now == s.now
  {
    hide RemoveRows;
  }

  lemma SettlePending(u: State, t: Id, x: Id, left: int)
    requires Good(u, u.now) && t in u.timers && x != t && Pending(u, x, left) && (u.temp == [t] || u.temp == [])
    requires u.temp != [] && u.timers[t].periodic && u.timers[t].active ==> Fits(u, t, u.now)
    ensures Pending(Settle(u, t), x, left)
  {
    hide Start, RowsOk, InWindow, Upto, Age;
    if u.temp != [] {
      var v := u.(temp := []);
      TempGood(u, v, u.now);
      if u.timers[t].periodic && u.timers[t].active {
        var w := v.(timers := v.timers[t := v.timers[t].(active := false)]);
        assert t in u.temp;
        SameTicks(v, w, u.now, t);
        CallPending(w, DoStart(t), x, left);
      }
    }
  }

  lemma {:induction false} CheckPending(h: History, scripts: seq<Script>, x: Id, left: int)
    requires Good(h.s, h.s.now) && h.s.temp == [] && CanCheck(h, scripts)
    requires Pending(h.s, x, left) && 0 < left && forall i :: 0 <= i < |scripts| ==> !Touched(scripts[i], x)
    ensures Pending(Checked(h, scripts).s, x, left) && x !in FiredBy(h, scripts)
    decreases |scripts|
  {
    hide Good, Pending, Turn, SafeTurn, Touched;
    if scripts != [] {
      TurnPending(h.s, scripts[0], x, left);
      TurnGood(h.s, scripts[0], h.s.now);
      TurnNow(h.s, scripts[0]);
      assert forall i :: 0 <= i < |scripts[1..]| ==> scripts[1..][i] == scripts[i + 1];
      CheckPending(TurnOf(h, scripts[0]), scripts[1..], x, left);
    }
  }

  /** A tick brings a timer that nobody touches one tick nearer, or fires it if it was the last. */
  lemma TickPending(h: History, scripts: seq<Script>, x: Id, left: int)
    requires Idle(h) && CanCheck(Ticked(h), scripts) && Pending(h.s, x, left)
    requires forall i :: 0 <= i < |scripts| ==> !Touched(scripts[i], x)
    ensures 1 <= left
    ensures 1 < left ==> Pending(Checked(Ticked(h), scripts).s, x, left - 1) && x !in FiredBy(Ticked(h), scripts)
    ensures left == 1 ==> x in FiredBy(Ticked(h), scripts)
  {
    hide Good, InOrder, Touched, CanCheck, Checked, FiredBy, Fires, Age;
    TickGood(h);
    assert Due(h.s.timers, x) == h.s.timers[x].timeout;
    if 1 < left {
      CheckPending(Ticked(h), scripts, x, left - 1);
    } else {
      AgeZero(Ticked(h).s.now, h.s.timers[x].timeout);
      OneTick(h, scripts);
    }
  }

  lemma AgeZero(now: Tick, t: Tick)
    ensures Age(now, t) == 0 <==> t == now
  {
  }

  lemma StepPending(h: History, e: Event, x: Id, left: int)
    requires Idle(h) && Enabled(h, e) && Pending(h.s, x, left) && LeavesAlone(e, x)
    requires e.Tick? ==> 1 < left
    ensures Pending(Next(h, e).s, x, if e.Tick? then left - 1 else left)
  {
    hide InOrder, Good, Fires, Run1, CanCheck, Touched, FiredBy;
    match e
    case Create(_, _, _) =>
    case Do(c) =>
      OwnAge(h.s.now);
      CallPending(h.s, c, x, left);
    case Tick(scripts) => TickPending(h, scripts, x, left);
  }

  lemma {:induction false} StaysPending(run: seq<History>, events: seq<Event>, now: Tick, levels: nat, k: nat, m: nat, x: Id, left: int)
    requires IsRun(run, events, now, levels) && k <= m <= |events| && Pending(run[k].s, x, left)
    requires forall i :: k <= i < m ==> LeavesAlone(events[i], x)
    requires TickCount(events, k, m) < left
    ensures Pending(run[m].s, x, left - TickCount(events, k, m))
    decreases m
  {
    hide Pending, Idle, Enabled, Next, LeavesAlone;
    if k < m {
      StaysPending(run, events, now, levels, k, m - 1, x, left);
      RunIdle(run, events, now, levels, m - 1);
      assert IsStep(run[m - 1], events[m - 1], run[m - 1 + 1]);
      StepPending(run[m - 1], events[m - 1], x, left - TickCount(events, k, m - 1));
    }
  }

  lemma StartPending(h: History, x: Id)
    requires Idle(h) && Enabled(h, Do(DoStart(x)))
    ensures Pending(Next(h, Do(DoStart(x))).s, x, h.s.timers[x].init)
  {
    hide Good, InOrder, Fires, Start, Insert;
    OwnAge(h.s.now);
    StartFits(h.s, x, h.s.now);
    StartTimers(h.s, x);
  }

  /** Main result on time: a timer that a thread starts and that nobody starts or stops since then
      fires at the tick as many ticks later as it was started for, and at no tick before. */
  lemma FiresOnTime(run: seq<History>, events: seq<Event>, now: Tick, levels: nat, k: nat, m: nat, x: Id)
    requires IsRun(run, events, now, levels) && k < m < |events| && events[k] == Do(DoStart(x)) && events[m].Tick?
    requires forall i :: k < i <= m ==> LeavesAlone(events[i], x)
    requires x in run[k].s.timers && TickCount(events, k + 1, m) < run[k].s.timers[x].init
    ensures Enabled(run[m], events[m])
    ensures x in FiredBy(Ticked(run[m]), events[m].scripts) <==> TickCount(events, k + 1, m) + 1 == run[k].s.timers[x].init
  {
    hide Pending, Idle, CanCheck, FiredBy, Next, TickCount;
    RunIdle(run, events, now, levels, k);
    RunIdle(run, events, now, levels, m);
    assert IsStep(run[k], events[k], run[k + 1]);
    assert IsStep(run[m], events[m], run[m + 1]);
    StartPending(run[k], x);
    var left := run[k].s.timers[x].init;
    StaysPending(run, events, now, levels, k + 1, m, x, left);
    TickPending(run[m], events[m].scripts, x, left - TickCount(events, k + 1, m));
  }

  // ---- Active means listed ----------------------------------------------------------------

  /** No callback makes its own periodic timer one-shot and leaves it at that. */
  ghost predicate LeavesNone(h: History, scripts: seq<Script>)
    requires CanCheck(h, scripts)
    decreases |scripts|
  {
    scripts == [] || (!LeftBehind(h.s, scripts[0]) && LeavesNone(TurnOf(h, scripts[0]), scripts[1..]))
  }

  lemma {:induction false} CheckListed(h: History, scripts: seq<Script>)
    requires Good(h.s, h.s.now) && h.s.temp == [] && NoStray(h.s) && CanCheck(h, scripts) && LeavesNone(h, scripts)
    ensures NoStray(Checked(h, scripts).s)
    decreases |scripts|
  {
    hide Good, NoStray, Turn, SafeTurn, LeftBehind;
    if scripts != [] {
      TurnStray(h.s, scripts[0], h.s.now);
      TurnGood(h.s, scripts[0], h.s.now);
      TurnNow(h.s, scripts[0]);
      CheckListed(TurnOf(h, scripts[0]), scripts[1..]);
    }
  }

  lemma CallListed(h: History, c: Command)
    requires Idle(h) && c.id in h.s.timers && LongEnough(h.s, c) && NoStray(h.s)
    ensures NoStray(Run1(h.s, c))
  {
    hide Good, InOrder, Fires, Start, Stop, Remove, Age;
    OwnAge(h.s.now);
    match c
    case DoStart(x) => AllListed(h.s, x, h.s.now);
    case DoStop(x) =>
      StopGood(h.s, x, h.s.now);
      RemoveMembers(Bottom(h.s), x);
      StopActive(h.s, x);
    case SetTime(_, _) =>
    case SetOneShot(_) =>
    case SetPeriodic(_) =>
  }

  lemma StopActive(s: State, x: Id)
    requires x in s.timers
    ensures !Stop(s, x).timers[x].active && Stop(s, x).timers == s.timers[x := Stop(s, x).timers[x]]
  {
    hide RemoveRows;
  }

  /** In every run without such a callback a timer is active exactly while it is listed. */
  lemma {:induction false} RunListed(run: seq<History>, events: seq<Event>, now: Tick, levels: nat, k: nat)
    requires IsRun(run, events, now, levels) && k <= |events|
    requires forall i :: 0 <= i < k && events[i].Tick? && CanCheck(Ticked(run[i]), events[i].scripts) ==>
      LeavesNone(Ticked(run[i]), events[i].scripts)
    ensures forall x :: x in run[k].s.timers ==> (run[k].s.timers[x].active <==> x in Bottom(run[k].s))
  {
    hide Idle, NoStray, CanCheck, LeavesNone;
    ListedUpTo(run, events, now, levels, k);
    RunIdle(run, events, now, levels, k);
    ActiveOf(run[k]);
  }

  lemma ActiveOf(h: History)
    requires Idle(h) && NoStray(h.s)
    ensures forall x :: x in h.s.timers ==> (h.s.timers[x].active <==> x in Bottom(h.s))
  {
    hide RowsOk, InWindow, InOrder;
  }

  lemma {:induction false} ListedUpTo(run: seq<History>, events: seq<Event>, now: Tick, levels: nat, k: nat)
    requires IsRun(run, events, now, levels) && k <= |events|
    requires forall i :: 0 <= i < k && events[i].Tick? && CanCheck(Ticked(run[i]), events[i].scripts) ==>
      LeavesNone(Ticked(run[i]), events[i].scripts)
    ensures NoStray(run[k].s)
  {
    hide Idle, CanCheck, LeavesNone, Run1, Checked, LongEnough;
    if 0 < k {
      ListedUpTo(run, events, now, levels, k - 1);
      RunIdle(run, events, now, levels, k - 1);
      assert IsStep(run[k - 1], events[k - 1], run[k - 1 + 1]);
      var h := run[k - 1];
      match events[k - 1]
      case Create(_, _, _) =>
      case Do(c) => CallListed(h, c);
      case Tick(scripts) => TickListed(h, scripts);
    }
  }

  lemma TickListed(h: History, scripts: seq<Script>)
    requires Idle(h) && NoStray(h.s) && CanCheck(Ticked(h), scripts) && LeavesNone(Ticked(h), scripts)
    ensures NoStray(Checked(Ticked(h), scripts).s)
  {
    hide Good, InOrder, CanCheck, LeavesNone, Fires;
    TickGood(h);
    CheckListed(Ticked(h), scripts);
  }

  // ---- A check of the code is one of the model --------------------------------------------

  /** The turns that the code has made up to the end of a check. */
  lemma {:induction false} CheckIsStep(h: History, run: seq<State>, scripts: seq<Script>)
    requires IsCheck(run, scripts, h.s.now) && run[0] == h.s && !Fires(run[|scripts|])
    ensures CanCheck(h, scripts) && Checked(h, scripts).s == run[|scripts|]
    decreases |scripts|
  {
    hide Good, Turn, SafeTurn;
    if scripts != [] {
      assert IsTurn(run[0], scripts[0], run[0 + 1], h.s.now);
      CheckTail(run, scripts, h.s.now);
      TurnNow(h.s, scripts[0]);
      CheckIsStep(TurnOf(h, scripts[0]), run[1..], scripts[1..]);
    }
  }

  lemma {:induction false} CheckNow(run: seq<State>, scripts: seq<Script>, o: Tick)
    requires IsCheck(run, scripts, o)
    ensures run[|scripts|].now == run[0].now
    decreases |scripts|
  {
    hide Good, Turn, SafeTurn;
    if scripts != [] {
      assert IsTurn(run[0], scripts[0], run[0 + 1], o);
      TurnNow(run[0], scripts[0]);
      CheckTail(run, scripts, o);
      CheckNow(run[1..], scripts[1..], o);
    }
  }
}
