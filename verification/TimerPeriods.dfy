/** What the settings of a timer are for: a periodic timer fires every so many ticks, a one-shot timer
    once, a stopped one not at all; and the settings are those of the last calls.
 */
module TimerPeriods {
  import opened Division
  import opened Sequences
  import opened Ticks
  import opened TimerHistory
  import opened TimerLemmas
  import opened TimerLife
  import opened TimerModel
  import opened TimerRows
  import opened TimerRuns

  // ---- Settings ---------------------------------------------------------------------------

  /** Whether a timer was made, how long it lasts, and of which kind it is. */
  datatype Settings = NotMade | Made(time: nat, periodic: bool)

  function After1(was: Settings, c: Command, x: Id): Settings {
    if was.NotMade? || c.id != x then was
    else
      match c
      case SetTime(_, n) => was.(time := n)
      case SetOneShot(_) => was.(periodic := false)
      case SetPeriodic(_) => was.(periodic := true)
      case _ => was
  }

  function AfterScript(was: Settings, script: Script, x: Id): Settings
    decreases |script|
  {
    if script == [] then was else AfterScript(After1(was, script[0], x), script[1..], x)
  }

  function AfterScripts(was: Settings, scripts: seq<Script>, x: Id): Settings
    decreases |scripts|
  {
    if scripts == [] then was else AfterScripts(AfterScript(was, scripts[0], x), scripts[1..], x)
  }

  function AfterEvent(was: Settings, e: Event, x: Id): Settings {
    match e
    case Create(y, time, periodic) => if y == x then Made(time, periodic) else was
    case Do(c) => After1(was, c, x)
    case Tick(scripts) => AfterScripts(was, scripts, x)
  }

  /** The settings that the calls of threads and callbacks leave a timer with. */
  function SettingsIn(events: seq<Event>, x: Id): Settings {
    if events == [] then NotMade else AfterEvent(SettingsIn(events[..|events| - 1], x), events[|events| - 1], x)
  }

  function SettingsOf(s: State, x: Id): Settings {
    if x in s.timers then Made(s.timers[x].init, s.timers[x].periodic) else NotMade
  }

  lemma CallSettings(s: State, c: Command, x: Id)
    requires c.id in s.timers
    ensures SettingsOf(Run1(s, c), x) == After1(SettingsOf(s, x), c, x)
  {
    hide LinkRows, RemoveRows;
  }

  lemma {:induction false} ScriptSettings(s: State, script: Script, x: Id)
    requires Known(s.timers, script)
    ensures SettingsOf(Run(s, script), x) == AfterScript(SettingsOf(s, x), script, x)
    decreases |script|
  {
    hide Run1, After1, Known, SettingsOf;
    if script != [] {
      KnownTail(s.timers, s.timers, script);
      CallSettings(s, script[0], x);
      Run1Keys(s, script[0]);
      KnownTail(s.timers, Run1(s, script[0]).timers, script);
      ScriptSettings(Run1(s, script[0]), script[1..], x);
    }
  }

  lemma PullSettings(s: State, x: Id)
    requires Fires(s)
    ensures SettingsOf(Pull(s), x) == SettingsOf(s, x)
  {
    hide RemoveRows;
  }

  lemma SettleSettings(s: State, t: Id, x: Id)
    requires t in s.timers
    ensures SettingsOf(Settle(s, t), x) == SettingsOf(s, x)
  {
    hide LinkRows, RemoveRows;
  }

  lemma TurnSettings(s: State, script: Script, x: Id)
    requires Fires(s) && Known(s.timers, script)
    ensures SettingsOf(Turn(s, script), x) == AfterScript(SettingsOf(s, x), script, x)
  {
    hide Run, Pull, Settle, SettingsOf, AfterScript;
    PullKeys(s);
    PullSettings(s, x);
    ScriptSettings(Pull(s), script, x);
    SettleSettings(Run(Pull(s), script), Bottom(s)[0], x);
  }

  lemma {:induction false} CheckSettings(h: History, scripts: seq<Script>, x: Id)
    requires CanCheck(h, scripts)
    ensures SettingsOf(Checked(h, scripts).s, x) == AfterScripts(SettingsOf(h.s, x), scripts, x)
    decreases |scripts|
  {
    hide Turn, SafeTurn, SettingsOf, AfterScript;
    if scripts != [] {
      TurnSettings(h.s, scripts[0], x);
      CheckSettings(TurnOf(h, scripts[0]), scripts[1..], x);
    }
  }

  lemma StepSettings(h: History, e: Event, x: Id)
    requires Enabled(h, e)
    ensures SettingsOf(Next(h, e).s, x) == AfterEvent(SettingsOf(h.s, x), e, x)
  {
    hide CanCheck, Checked, Run1, After1, AfterScripts;
    match e
    case Create(_, _, _) =>
    case Do(c) => CallSettings(h.s, c, x);
    case Tick(scripts) => CheckSettings(Ticked(h), scripts, x);
  }

  /** In every run the settings of every timer are those of the calls. */
  lemma {:induction false} RunSettings(run: seq<History>, events: seq<Event>, now: Tick, levels: nat, k: nat, x: Id)
    requires IsRun(run, events, now, levels) && k <= |events|
    ensures SettingsOf(run[k].s, x) == SettingsIn(events[..k], x)
  {
    hide Enabled, Next, AfterEvent;
    if k > 0 {
      RunSettings(run, events, now, levels, k - 1, x);
      assert IsStep(run[k - 1], events[k - 1], run[k - 1 + 1]);
      StepSettings(run[k - 1], events[k - 1], x);
      assert events[..k][..k - 1] == events[..k - 1];
    }
  }

  /** So a timer that a thread starts, and nobody starts or stops since, fires as many ticks later as the
      last call that set its time says. */
  lemma FiresAsSet(run: seq<History>, events: seq<Event>, now: Tick, levels: nat, k: nat, m: nat, x: Id)
    requires IsRun(run, events, now, levels) && k < m < |events| && events[k] == Do(DoStart(x)) && events[m].Tick?
    requires forall i :: k < i <= m ==> LeavesAlone(events[i], x)
    requires SettingsIn(events[..k], x).Made? && TickCount(events, k + 1, m) < SettingsIn(events[..k], x).time
    ensures Enabled(run[m], events[m])
    ensures x in FiredBy(Ticked(run[m]), events[m].scripts)
      <==> TickCount(events, k + 1, m) + 1 == SettingsIn(events[..k], x).time
  {
    hide Enabled, Next, SettingsIn, FiredBy, TickCount, LeavesAlone, IsRun;
    RunSettings(run, events, now, levels, k, x);
    FiresOnTime(run, events, now, levels, k, m, x);
  }

  // ---- Timers that are not listed ---------------------------------------------------------

  ghost predicate Absent(s: State, x: Id) {
    x !in Bottom(s) && x !in s.temp
  }

  lemma CallAbsent(s: State, c: Command, x: Id)
    requires Good(s, s.now) && Absent(s, x) && c.id in s.timers && !(Touching(c) && c.id == x)
    requires c.DoStart? ==> Fits(s, c.id, s.now)
    ensures Absent(Run1(s, c), x)
  {
    hide Good, Insert, Remove, Start, Stop, Age;
    match c
    case DoStart(y) =>
      StartFits(s, y, s.now);
      RemoveMembers(Bottom(s), y);
      InsertHas(Remove(Bottom(s), y), y, KeyOf(s.now, Start(s, y).timers), x);
      StartTemp(s, y);
      RemovedFrom(s.temp, y);
    case DoStop(y) =>
      StopGood(s, y, s.now);
      RemoveMembers(Bottom(s), y);
      StopTemp(s, y);
      RemovedFrom(s.temp, y);
    case SetTime(_, _) =>
    case SetOneShot(_) =>
    case SetPeriodic(_) =>
  }

  lemma StartTemp(s: State, y: Id)
    requires y in s.timers
    ensures Start(s, y).temp == Remove(s.temp, y)
  {
    hide LinkRows, RemoveRows;
  }

  lemma StopTemp(s: State, y: Id)
    requires y in s.timers
    ensures Stop(s, y).temp == s.temp || Stop(s, y).temp == Remove(s.temp, y)
  {
    hide RemoveRows;
  }

  lemma {:induction false} RemovedFrom(row: seq<Id>, y: Id)
    ensures forall x :: x in Remove(row, y) ==> x in row
  {
    if row != [] {
      RemovedFrom(row[1..], y);
    }
  }

  lemma {:induction false} ScriptAbsent(s: State, script: Script, x: Id)
    requires Good(s, s.now) && Absent(s, x) && Known(s.timers, script) && SafeScript(s, script, s.now)
    requires !Touched(script, x)
    ensures Absent(Run(s, script), x)
    decreases |script|
  {
    hide Good, Absent, Run1, Touched, Startable, Fits, Known;
    if script != [] {
      var c := script[0];
      KnownTail(s.timers, s.timers, script);
      TouchedFirst(script, x);
      if c.DoStart? {
        StartableFits(s, c.id, s.now);
      }
      CallAbsent(s, c, x);
      Run1Good(s, c, s.now);
      Run1Keys(s, c);
      Run1Now(s, c);
      KnownTail(s.timers, Run1(s, c).timers, script);
      ScriptAbsent(Run1(s, c), script[1..], x);
    }
  }

  lemma PullAbsent(s: State, x: Id)
    requires Good(s, s.now) && s.temp == [] && Fires(s) && Absent(s, x)
    ensures Absent(Pull(s), x) && Bottom(s)[0] != x
  {
    hide Good, Pull, Expired;
    PullGood(s, s.now);
    FirstExpired(s);
    assert Bottom(s) == [Bottom(s)[0]] + Bottom(s)[1..];
    PulledTemp(s);
  }

  lemma PulledTemp(s: State)
    requires Fires(s)
    ensures Pull(s).temp == [Bottom(s)[0]]
  {
    hide RemoveRows;
  }

  lemma SettleAbsent(u: State, t: Id, x: Id)
    requires Good(u, u.now) && t in u.timers && x != t && Absent(u, x) && (u.temp == [t] || u.temp == [])
    requires u.temp != [] && u.timers[t].periodic && u.timers[t].active ==> Fits(u, t, u.now)
    ensures Absent(Settle(u, t), x)
  {
    hide Start, RowsOk, InWindow, Upto, Age;
    if u.temp != [] {
      var v := u.(temp := []);
      TempGood(u, v, u.now);
      if u.timers[t].periodic && u.timers[t].active {
        var w := v.(timers := v.timers[t := v.timers[t].(active := false)]);
        assert t in u.temp;
        SameTicks(v, w, u.now, t);
        CallAbsent(w, DoStart(t), x);
      }
    }
  }

  lemma TurnAbsent(s: State, script: Script, x: Id)
    requires Good(s, s.now) && s.temp == [] && Fires(s) && Known(s.timers, script) && SafeTurn(s, script, s.now)
    requires Absent(s, x) && !Touched(script, x)
    ensures Absent(Turn(s, script), x) && Bottom(s)[0] != x
  {
    hide Good, Run, SafeScript, Pull, Touched, Startable, Settle, Fits, Absent;
    PullKeys(s);
    PullGood(s, s.now);
    PullAbsent(s, x);
    PullDues(s);
    ScriptAbsent(Pull(s), script, x);
    RunGood(Pull(s), script, s.now);
    RunNow(Pull(s), script);
    var u, t := Run(Pull(s), script), Bottom(s)[0];
    OwnTemp(Pull(s), script, t);
    if u.temp != [] && u.timers[t].periodic && u.timers[t].active {
      StartableFits(u, t, s.now);
    }
    SettleAbsent(u, t, x);
  }

  lemma {:induction false} CheckAbsent(h: History, scripts: seq<Script>, x: Id)
    requires Good(h.s, h.s.now) && h.s.temp == [] && CanCheck(h, scripts)
    requires Absent(h.s, x) && forall i :: 0 <= i < |scripts| ==> !Touched(scripts[i], x)
    ensures Absent(Checked(h, scripts).s, x) && x !in FiredBy(h, scripts)
    decreases |scripts|
  {
    hide Good, Absent, Turn, SafeTurn, Touched;
    if scripts != [] {
      TurnAbsent(h.s, scripts[0], x);
      TurnGood(h.s, scripts[0], h.s.now);
      TurnNow(h.s, scripts[0]);
      assert forall i :: 0 <= i < |scripts[1..]| ==> scripts[1..][i] == scripts[i + 1];
      CheckAbsent(TurnOf(h, scripts[0]), scripts[1..], x);
    }
  }

  lemma StepAbsent(h: History, e: Event, x: Id)
    requires Idle(h) && Enabled(h, e) && Absent(h.s, x) && LeavesAlone(e, x)
    ensures Absent(Next(h, e).s, x)
    ensures e.Tick? ==> x !in FiredBy(Ticked(h), e.scripts)
  {
    hide InOrder, Good, Fires, Run1, CanCheck, Touched, FiredBy, Checked;
    match e
    case Create(_, _, _) =>
    case Do(c) =>
      OwnAge(h.s.now);
      CallAbsent(h.s, c, x);
    case Tick(scripts) =>
      TickGood(h);
      CheckAbsent(Ticked(h), scripts, x);
  }

  lemma {:induction false} StaysAbsent(run: seq<History>, events: seq<Event>, now: Tick, levels: nat, k: nat, m: nat, x: Id)
    requires IsRun(run, events, now, levels) && k <= m <= |events| && Absent(run[k].s, x)
    requires forall i :: k <= i < m ==> LeavesAlone(events[i], x)
    ensures Absent(run[m].s, x)
    decreases m
  {
    hide Absent, Idle, Enabled, Next, LeavesAlone, FiredBy;
    if k < m {
      StaysAbsent(run, events, now, levels, k, m - 1, x);
      RunIdle(run, events, now, levels, m - 1);
      assert IsStep(run[m - 1], events[m - 1], run[m - 1 + 1]);
      StepAbsent(run[m - 1], events[m - 1], x);
    }
  }

  lemma StopGone(h: History, x: Id)
    requires Idle(h) && x in h.s.timers
    ensures Absent(Next(h, Do(DoStop(x))).s, x)
  {
    hide RowsOk, InWindow, InOrder, Stop, Age;
    if h.s.timers[x].active {
      StopGood(h.s, x, h.s.now);
      BottomDistinct(h.s, h.s.now);
      RemoveMembers(Bottom(h.s), x);
      StopTemp(h.s, x);
      RemovedFrom(h.s.temp, x);
    } else {
      StopRefused(h.s, x);
    }
  }

  lemma StopRefused(s: State, x: Id)
    requires x in s.timers && !s.timers[x].active
    ensures Stop(s, x) == s
  {
  }

  lemma BottomDistinct(s: State, o: Tick)
    requires Good(s, o)
    ensures Distinct(Bottom(s))
  {
    hide InWindow;
  }

  /** A timer that a thread stops does not fire until somebody starts it again. */
  lemma StoppedIsSilent(run: seq<History>, events: seq<Event>, now: Tick, levels: nat, k: nat, m: nat, x: Id)
    requires IsRun(run, events, now, levels) && k < m < |events| && events[k] == Do(DoStop(x)) && events[m].Tick?
    requires forall i :: k < i <= m ==> LeavesAlone(events[i], x)
    ensures Enabled(run[m], events[m])
    ensures x !in FiredBy(Ticked(run[m]), events[m].scripts)
  {
    hide Absent, Idle, Next, LeavesAlone, FiredBy, CanCheck;
    RunIdle(run, events, now, levels, k);
    RunIdle(run, events, now, levels, m);
    assert IsStep(run[k], events[k], run[k + 1]);
    assert IsStep(run[m], events[m], run[m + 1]);
    StopGone(run[k], x);
    StaysAbsent(run, events, now, levels, k + 1, m, x);
    StepAbsent(run[m], events[m], x);
  }

  // ---- Timers that fire -------------------------------------------------------------------

  /** No call names the timer. */
  ghost predicate Spares(script: Script, x: Id) {
    forall i :: 0 <= i < |script| ==> script[i].id != x
  }

  ghost predicate SparesAll(scripts: seq<Script>, x: Id) {
    forall i :: 0 <= i < |scripts| ==> Spares(scripts[i], x)
  }

  ghost predicate LeavesBe(e: Event, x: Id) {
    match e
    case Create(_, _, _) => true
    case Do(c) => c.id != x
    case Tick(scripts) => SparesAll(scripts, x)
  }

  lemma SparesTouchesNot(script: Script, x: Id)
    requires Spares(script, x)
    ensures !Touched(script, x)
  {
  }

  lemma LeavesBeAlone(e: Event, x: Id)
    requires LeavesBe(e, x)
    ensures LeavesAlone(e, x)
  {
    hide Spares, Touched;
    if e.Tick? {
      forall i | 0 <= i < |e.scripts|
        ensures !Touched(e.scripts[i], x)
      {
        SparesTouchesNot(e.scripts[i], x);
      }
    }
  }

  lemma CallSpares(s: State, c: Command, x: Id)
    requires c.id in s.timers && c.id != x && x in s.timers
    ensures var r := Run1(s, c); x in r.timers && r.timers[x] == s.timers[x] && (s.temp == [x] ==> r.temp == [x])
  {
    hide LinkRows, RemoveRows;
    RemoveOne(x, c.id);
  }

  lemma {:induction false} ScriptSpares(s: State, script: Script, x: Id)
    requires Known(s.timers, script) && Spares(script, x) && x in s.timers
    ensures var r := Run(s, script); x in r.timers && r.timers[x] == s.timers[x] && (s.temp == [x] ==> r.temp == [x])
    decreases |script|
  {
    hide Run1, Known;
    if script != [] {
      KnownFirst(s.timers, script);
      KnownTail(s.timers, s.timers, script);
      CallSpares(s, script[0], x);
      Run1Keys(s, script[0]);
      KnownTail(s.timers, Run1(s, script[0]).timers, script);
      assert forall i :: 0 <= i < |script[1..]| ==> script[1..][i] == script[i + 1];
      ScriptSpares(Run1(s, script[0]), script[1..], x);
    }
  }

  lemma KnownFirst(timers: Timers, script: Script)
    requires Known(timers, script) && script != []
    ensures script[0].id in timers
  {
  }

  lemma PulledTimer(s: State, o: Tick)
    requires Good(s, o) && Fires(s)
    ensures var x, p := Bottom(s)[0], Pull(s);
      && x in s.timers && x in p.timers && p.timers[x].periodic == s.timers[x].periodic
      && p.timers[x].init == s.timers[x].init && p.timers[x].active == s.timers[x].periodic && p.now == s.now
  {
    hide RowsOk, InWindow, RemoveRows;
    assert Bottom(s)[0] in Bottom(s);
  }

  /** A periodic timer that has fired is pending again, for its whole time; a one-shot timer is gone. */
  ghost predicate Renewed(s: State, x: Id, was: Timer) {
    if was.periodic then Pending(s, x, was.init) else Absent(s, x)
  }

  lemma SettleRenewed(u: State, x: Id)
    requires Good(u, u.now) && x in u.timers && u.temp == [x] && u.timers[x].active == u.timers[x].periodic
    requires u.timers[x].periodic ==> Fits(u, x, u.now)
    ensures Renewed(Settle(u, x), x, u.timers[x])
  {
    hide Start, RowsOk, InWindow, Upto, Age, Insert;
    var v := u.(temp := []);
    TempGood(u, v, u.now);
    assert x in u.temp;
    if u.timers[x].periodic {
      var w := v.(timers := v.timers[x := v.timers[x].(active := false)]);
      SameTicks(v, w, u.now, x);
      OwnAge(u.now);
      StartFits(w, x, u.now);
      StartTimers(w, x);
      InsertHas(Remove(Bottom(w), x), x, KeyOf(u.now, Start(w, x).timers), x);
    }
  }

  lemma TurnRenews(s: State, script: Script, x: Id)
    requires Good(s, s.now) && s.temp == [] && Fires(s) && Known(s.timers, script) && SafeTurn(s, script, s.now)
    requires Bottom(s)[0] == x && Spares(script, x)
    ensures x in s.timers && Renewed(Turn(s, script), x, s.timers[x])
  {
    hide Good, Run, SafeScript, Pull, Startable, Settle, Fits, Spares;
    PullKeys(s);
    PullGood(s, s.now);
    PulledTemp(s);
    PulledTimer(s, s.now);
    ScriptSpares(Pull(s), script, x);
    RunGood(Pull(s), script, s.now);
    RunNow(Pull(s), script);
    var u := Run(Pull(s), script);
    if u.timers[x].periodic {
      StartableFits(u, x, s.now);
    }
    SettleRenewed(u, x);
    RenewedLike(Turn(s, script), x, u.timers[x], s.timers[x]);
  }

  lemma RenewedLike(s: State, x: Id, a: Timer, b: Timer)
    requires Renewed(s, x, a) && a.periodic == b.periodic && a.init == b.init
    ensures Renewed(s, x, b)
  {
  }

  /** The rest of the check leaves it at that. */
  lemma RestRenewed(h: History, scripts: seq<Script>, x: Id, was: Timer)
    requires Good(h.s, h.s.now) && h.s.temp == [] && CanCheck(h, scripts) && SparesAll(scripts, x)
    requires Renewed(h.s, x, was) && (was.periodic ==> 0 < was.init)
    ensures Renewed(Checked(h, scripts).s, x, was) && x !in FiredBy(h, scripts)
  {
    hide Good, Absent, Pending, Touched, CanCheck, FiredBy, Checked, Spares;
    forall i | 0 <= i < |scripts|
      ensures !Touched(scripts[i], x)
    {
      SparesTouchesNot(scripts[i], x);
    }
    if was.periodic {
      CheckPending(h, scripts, x, was.init);
    } else {
      CheckAbsent(h, scripts, x);
    }
  }

  /** A turn for another timer, before its own turn has come. */
  lemma TurnWaits(s: State, script: Script, x: Id)
    requires Good(s, s.now) && s.temp == [] && Fires(s) && Known(s.timers, script) && SafeTurn(s, script, s.now)
    requires Pending(s, x, 0) && Bottom(s)[0] != x && Spares(script, x)
    ensures Pending(Turn(s, script), x, 0) && SettingsOf(Turn(s, script), x) == SettingsOf(s, x)
  {
    hide Good, Run, SafeScript, Pull, Touched, Startable, Settle, Fits, Pending, Spares, SettingsOf, AfterScript;
    PullKeys(s);
    PullGood(s, s.now);
    PullWaits(s, x);
    PullDues(s);
    SparesTouchesNot(script, x);
    ScriptPending(Pull(s), script, x, 0);
    RunGood(Pull(s), script, s.now);
    RunNow(Pull(s), script);
    var u, t := Run(Pull(s), script), Bottom(s)[0];
    OwnTemp(Pull(s), script, t);
    if u.temp != [] && u.timers[t].periodic && u.timers[t].active {
      StartableFits(u, t, s.now);
    }
    SettlePending(u, t, x, 0);
    TurnSettings(s, script, x);
    SparedSettings(SettingsOf(s, x), script, x);
  }

  lemma PullWaits(s: State, x: Id)
    requires Good(s, s.now) && s.temp == [] && Fires(s) && Pending(s, x, 0) && Bottom(s)[0] != x
    ensures Pending(Pull(s), x, 0)
  {
    hide Good, Pull, Fires, Age, Expired;
    PullGood(s, s.now);
    PullTimer(s, x);
    FirstExpired(s);
    assert Bottom(s) == [Bottom(s)[0]] + Bottom(s)[1..];
  }

  lemma {:induction false} SparedSettings(was: Settings, script: Script, x: Id)
    requires Spares(script, x)
    ensures AfterScript(was, script, x) == was
    decreases |script|
  {
    if script != [] {
      assert forall i :: 0 <= i < |script[1..]| ==> script[1..][i] == script[i + 1];
      SparedSettings(was, script[1..], x);
    }
  }

  lemma DueFires(s: State, x: Id)
    requires Good(s, s.now) && Pending(s, x, 0)
    ensures Fires(s)
  {
    hide Good, Fires, Age;
    DueIsExpired(s, s.now);
    DueNow(s, x);
    AgeZero(s.now, s.timers[x].timeout);
    NothingDue(s);
  }

  lemma TailSpares(scripts: seq<Script>, x: Id)
    requires SparesAll(scripts, x) && scripts != []
    ensures Spares(scripts[0], x) && SparesAll(scripts[1..], x)
  {
    hide Spares;
    assert forall i :: 0 <= i < |scripts[1..]| ==> scripts[1..][i] == scripts[i + 1];
  }

  /** A check at which the timer is due fires it, once, and renews it. */
  lemma {:induction false} CheckRenews(h: History, scripts: seq<Script>, x: Id)
    requires Good(h.s, h.s.now) && h.s.temp == [] && CanCheck(h, scripts) && SparesAll(scripts, x)
    requires Pending(h.s, x, 0) && (h.s.timers[x].periodic ==> 0 < h.s.timers[x].init)
    ensures x in FiredBy(h, scripts) && Renewed(Checked(h, scripts).s, x, h.s.timers[x])
    decreases |scripts|
  {
    hide Good, Turn, SafeTurn, Spares, SparesAll, Renewed, Fires;
    DueFires(h.s, x);
    TailSpares(scripts, x);
    TurnGood(h.s, scripts[0], h.s.now);
    TurnNow(h.s, scripts[0]);
    var g := TurnOf(h, scripts[0]);
    if Bottom(h.s)[0] == x {
      TurnRenews(h.s, scripts[0], x);
      RestRenewed(g, scripts[1..], x, h.s.timers[x]);
    } else {
      TurnWaits(h.s, scripts[0], x);
      CheckRenews(g, scripts[1..], x);
      RenewedLike(Checked(g, scripts[1..]).s, x, g.s.timers[x], h.s.timers[x]);
    }
  }

  // ---- Every so many ticks ----------------------------------------------------------------

  /** Where a timer stands `n` ticks after its start: on its way to the next time it fires, or gone. */
  ghost predicate OnCourse(s: State, x: Id, was: Timer, n: nat)
    requires 0 < was.init
  {
    && SettingsOf(s, x) == Made(was.init, was.periodic)
    && if was.periodic || n < was.init then Pending(s, x, was.init - n % was.init) else Absent(s, x)
  }

  /** Whether it fires at the tick that is the n-th after its start. */
  predicate FiresAt(was: Timer, n: nat)
    requires 0 < was.init
  {
    if was.periodic then n % was.init == 0 else n == was.init
  }

  lemma Counting(n: nat, d: nat)
    requires 0 < d
    ensures n % d < d
    ensures if n % d + 1 == d then (n + 1) % d == 0 else (n + 1) % d == n % d + 1
    ensures n < d ==> n % d == n
  {
    var q, r := n / d, n % d;
    assert n == q * d + r;
    if r + 1 == d {
      assert n + 1 == (q + 1) * d;
      Quotient(n + 1, q + 1, 0, d);
    } else {
      Quotient(n + 1, q, r + 1, d);
    }
    if n < d {
      Quotient(n, 0, n, d);
    }
  }

  lemma {:induction false} SparedScripts(was: Settings, scripts: seq<Script>, x: Id)
    requires SparesAll(scripts, x)
    ensures AfterScripts(was, scripts, x) == was
    decreases |scripts|
  {
    hide Spares;
    if scripts != [] {
      TailSpares(scripts, x);
      SparedSettings(was, scripts[0], x);
      SparedScripts(was, scripts[1..], x);
    }
  }

  lemma SparedStep(h: History, e: Event, x: Id)
    requires Enabled(h, e) && LeavesBe(e, x) && x in h.s.timers
    ensures SettingsOf(Next(h, e).s, x) == SettingsOf(h.s, x)
  {
    hide Next, CanCheck, SparesAll;
    StepSettings(h, e, x);
    if e.Tick? {
      SparedScripts(SettingsOf(h.s, x), e.scripts, x);
    }
  }

  lemma QuietCourse(h: History, e: Event, x: Id, was: Timer, n: nat)
    requires 0 < was.init && Idle(h) && Enabled(h, e) && OnCourse(h.s, x, was, n) && LeavesBe(e, x) && !e.Tick?
    ensures OnCourse(Next(h, e).s, x, was, n)
  {
    hide Pending, Absent, Idle, Enabled, Next, LeavesAlone;
    LeavesBeAlone(e, x);
    SparedStep(h, e, x);
    if was.periodic || n < was.init {
      Counting(n, was.init);
      StepPending(h, e, x, was.init - n % was.init);
    } else {
      StepAbsent(h, e, x);
    }
  }

  lemma TickCourse(h: History, e: Event, x: Id, was: Timer, n: nat)
    requires 0 < was.init && Idle(h) && Enabled(h, e) && OnCourse(h.s, x, was, n) && LeavesBe(e, x) && e.Tick?
    ensures OnCourse(Next(h, e).s, x, was, n + 1)
    ensures x in FiredBy(Ticked(h), e.scripts) <==> FiresAt(was, n + 1)
  {
    hide Pending, Absent, Idle, CanCheck, FiredBy, Checked, LeavesAlone, SparesAll;
    LeavesBeAlone(e, x);
    SparedStep(h, e, x);
    Counting(n, was.init);
    Counting(n + 1, was.init);
    if was.periodic || n < was.init {
      var left := was.init - n % was.init;
      AloneScripts(e, x);
      TickPending(h, e.scripts, x, left);
      if left == 1 {
        TickRenews(h, e.scripts, x);
        RenewedCourse(Next(h, e).s, x, h.s.timers[x], was);
      }
    } else {
      StepAbsent(h, e, x);
    }
  }

  lemma AloneScripts(e: Event, x: Id)
    requires e.Tick? && LeavesAlone(e, x)
    ensures forall i :: 0 <= i < |e.scripts| ==> !Touched(e.scripts[i], x)
  {
    hide Touched;
  }

  lemma RenewedCourse(s: State, x: Id, a: Timer, was: Timer)
    requires Renewed(s, x, a) && a.init == was.init && a.periodic == was.periodic
    ensures if was.periodic then Pending(s, x, was.init) else Absent(s, x)
  {
  }

  lemma TickRenews(h: History, scripts: seq<Script>, x: Id)
    requires Idle(h) && CanCheck(Ticked(h), scripts) && Pending(h.s, x, 1) && SparesAll(scripts, x)
    requires x in h.s.timers && 0 < h.s.timers[x].init
    ensures Renewed(Checked(Ticked(h), scripts).s, x, h.s.timers[x])
  {
    hide Good, InOrder, CanCheck, Checked, FiredBy, Fires, Age, SparesAll, Renewed;
    TickGood(h);
    assert Due(h.s.timers, x) == h.s.timers[x].timeout;
    CheckRenews(Ticked(h), scripts, x);
  }

  lemma {:induction false} StaysOnCourse(run: seq<History>, events: seq<Event>, now: Tick, levels: nat, k: nat, m: nat, x: Id, was: Timer)
    requires IsRun(run, events, now, levels) && k <= m <= |events| && 0 < was.init && OnCourse(run[k].s, x, was, 0)
    requires forall i :: k <= i < m ==> LeavesBe(events[i], x)
    ensures OnCourse(run[m].s, x, was, TickCount(events, k, m))
    decreases m
  {
    hide OnCourse, Idle, Enabled, Next, LeavesBe, FiredBy;
    if k < m {
      StaysOnCourse(run, events, now, levels, k, m - 1, x, was);
      RunIdle(run, events, now, levels, m - 1);
      assert IsStep(run[m - 1], events[m - 1], run[m - 1 + 1]);
      if events[m - 1].Tick? {
        TickCourse(run[m - 1], events[m - 1], x, was, TickCount(events, k, m - 1));
      } else {
        QuietCourse(run[m - 1], events[m - 1], x, was, TickCount(events, k, m - 1));
      }
    }
  }

  lemma StartOnCourse(h: History, x: Id)
    requires Idle(h) && Enabled(h, Do(DoStart(x)))
    ensures x in h.s.timers && 0 < h.s.timers[x].init
    ensures OnCourse(Next(h, Do(DoStart(x))).s, x, h.s.timers[x], 0)
  {
    hide Idle, Pending, Absent, Next;
    StartPending(h, x);
    StepSettings(h, Do(DoStart(x)), x);
    Counting(0, h.s.timers[x].init);
  }

  /** Main result on periods: a timer that a thread starts, and that no call names since then, fires at every
      tick whose number since the start is a multiple of its time, if it is periodic; and at the one whose
      number is its time and never again, if it is one-shot. */
  lemma FiresEvery(run: seq<History>, events: seq<Event>, now: Tick, levels: nat, k: nat, m: nat, x: Id)
    requires IsRun(run, events, now, levels) && k < m < |events| && events[k] == Do(DoStart(x)) && events[m].Tick?
    requires forall i :: k < i <= m ==> LeavesBe(events[i], x)
    ensures Enabled(run[m], events[m]) && x in run[k].s.timers && 0 < run[k].s.timers[x].init
    ensures x in FiredBy(Ticked(run[m]), events[m].scripts) <==> FiresAt(run[k].s.timers[x], TickCount(events, k + 1, m) + 1)
  {
    hide OnCourse, Idle, Next, LeavesBe, FiredBy, CanCheck, TickCount, FiresAt;
    RunIdle(run, events, now, levels, k);
    RunIdle(run, events, now, levels, m);
    assert IsStep(run[k], events[k], run[k + 1]);
    assert IsStep(run[m], events[m], run[m + 1]);
    StartOnCourse(run[k], x);
    StaysOnCourse(run, events, now, levels, k + 1, m, x, run[k].s.timers[x]);
    TickCourse(run[m], events[m], x, run[k].s.timers[x], TickCount(events, k + 1, m));
  }
}
