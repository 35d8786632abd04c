/** Callbacks and whole checks: what is fired, in which order, and what is left. */
module TimerRuns {
  import opened Sequences
  import opened Ticks
  import opened TimerLemmas
  import opened TimerModel
  import opened TimerRows

  /** What holds between any two commands. */
  ghost predicate Good(s: State, o: Tick) {
    && 0 < |s.rows| && RowsOk(s.rows, KeyOf(o, s.timers)) && InWindow(Bottom(s), o, s.timers)
    && Age(o, s.now) < HALF && TempOk(s) && ListedActive(s)
  }

  ghost predicate TempOk(s: State) {
    |s.temp| <= 1 && forall x :: x in s.temp ==> x in s.timers && x !in Bottom(s)
  }

  ghost predicate ListedActive(s: State) {
    forall x :: x in Bottom(s) ==> x in s.timers && s.timers[x].active
  }

  /** The listed timers that have expired, in list order: by timeout, and those of the same
      timeout in the order in which they were started. */
  ghost function DuePart(s: State, o: Tick): seq<Id> {
    Upto(Bottom(s), KeyOf(o, s.timers), Age(o, s.now))
  }

  /** A start that lasts at least one tick and ends inside the window. */
  ghost predicate Startable(s: State, x: Id, o: Tick) {
    x in s.timers && 1 <= s.timers[x].init && Age(o, s.now) + s.timers[x].init < HALF
  }

  /** A start that ends inside the window. */
  ghost predicate Fits(s: State, x: Id, o: Tick) {
    x in s.timers && Age(o, s.now) + s.timers[x].init < HALF
  }

  predicate Touching(c: Command) {
    c.DoStart? || c.DoStop?
  }

  // ---- One command ------------------------------------------------------------------------

  lemma UnlinkedGood(s: State, x: Id, o: Tick)
    requires Good(s, o)
    ensures var u := Unlinked(s, x);
      && Good(u, o) && Without(u.rows, x) && x !in u.temp
      && Bottom(u) == Remove(Bottom(s), x) && DuePart(u, o) == Remove(DuePart(s, o), x)
  {
    hide RowsOk, Age, Upto, Remove;
    var key := KeyOf(o, s.timers);
    RemoveKeeps(s.rows, x, key);
    RemoveMembers(Bottom(s), x);
    RemoveMembers(s.temp, x);
    RemoveShrinks(s.temp, x);
    BottomSorted(s, o);
    UptoRemove(Bottom(s), x, key, Age(o, s.now));
  }

  lemma BottomSorted(s: State, o: Tick)
    requires Good(s, o)
    ensures Sorted(Bottom(s), KeyOf(o, s.timers)) && Distinct(Bottom(s))
  {
    hide Sorted, Distinct;
  }

  lemma {:induction false} RemoveShrinks(row: seq<Id>, x: Id)
    ensures |Remove(row, x)| <= |row|
    ensures x in row ==> |Remove(row, x)| < |row|
  {
    if row != [] {
      RemoveShrinks(row[1..], x);
    }
  }

  /** rt_timer_start: takes the timer out, and puts it in again where a plain stable sorted
      insert by timeout would put it. */
  lemma StartGood(s: State, x: Id, o: Tick)
    requires Good(s, o) && Startable(s, x, o)
    ensures var r := Start(s, x);
      && Good(r, o) && x in Bottom(r) && r.temp == Remove(s.temp, x)
      && Bottom(r) == Insert(Remove(Bottom(s), x), x, KeyOf(o, r.timers))
      && Age(o, r.timers[x].timeout) == Age(o, s.now) + s.timers[x].init
      && DuePart(r, o) == Remove(DuePart(s, o), x)
  {
    hide RowsOk, Age, Upto, Remove, Insert, InWindow, TempOk, ListedActive, Unlinked, Without, Start;
    var u, r := Unlinked(s, x), Start(s, x);
    UnlinkedGood(s, x, o);
    StartRows(s, x, o);
    StartFits(s, x, o);
    var key, key' := KeyOf(o, u.timers), KeyOf(o, r.timers);
    assert forall y :: y != x ==> key(y) == key'(y);
    UptoAgree(Bottom(u), key, key', Age(o, s.now));
    KeysAgree(Bottom(u), key, key');
    BottomSorted(u, o);
    UptoInsert(Bottom(u), x, key', Age(o, s.now));
  }

  /** The same for a start of any length, also of no tick at all. */
  lemma StartFits(s: State, x: Id, o: Tick)
    requires Good(s, o) && Fits(s, x, o)
    ensures var r := Start(s, x);
      && Good(r, o) && x in Bottom(r) && r.temp == Remove(s.temp, x)
      && Bottom(r) == Insert(Remove(Bottom(s), x), x, KeyOf(o, r.timers))
      && Age(o, r.timers[x].timeout) == Age(o, s.now) + s.timers[x].init
  {
    hide RowsOk, Age, Remove, Insert, InWindow, TempOk, ListedActive, Unlinked, Without, Start;
    var u, r := Unlinked(s, x), Start(s, x);
    UnlinkedGood(s, x, o);
    StartRows(s, x, o);
    AgeAdd(o, s.now, s.timers[x].init);
    var key' := KeyOf(o, r.timers);
    InsertHas(Bottom(u), x, key', x);
    InsertedWindow(Bottom(u), x, o, r.timers);
    InsertedActive(u, r, x, key');
  }

  /** The rows after a start. */
  lemma StartRows(s: State, x: Id, o: Tick)
    requires Good(s, o) && Fits(s, x, o)
    ensures var u, r := Unlinked(s, x), Start(s, x);
      && r.timers == s.timers[x := s.timers[x].(timeout := Add(s.now, s.timers[x].init), active := true)]
      && r.temp == u.temp && r.now == s.now && u.timers == s.timers && u.now == s.now && r.rows != [] && u.rows != []
      && u.temp == Remove(s.temp, x) && Bottom(u) == Remove(Bottom(s), x)
      && RowsOk(r.rows, KeyOf(o, r.timers)) && InWindow(Bottom(u), o, r.timers) && x !in Bottom(u)
      && Bottom(r) == Insert(Bottom(u), x, KeyOf(o, r.timers))
  {
    hide RowsOk, Age, Upto, Remove, Insert, InWindow, TempOk, ListedActive, LinkRows, RemoveRows;
    var u, r := Unlinked(s, x), Start(s, x);
    UnlinkedGood(s, x, o);
    AgeAdd(o, s.now, s.timers[x].init);
    var key, key' := KeyOf(o, u.timers), KeyOf(o, r.timers);
    assert forall y :: y != x ==> key(y) == key'(y);
    RowsAgree(u.rows, key, key');
    OtherWindow(Bottom(u), o, u.timers, r.timers, x);
    var top := |u.rows| - Height(r.random, |u.rows|);
    LinkKeeps(u.rows, r.timers, x, r.timers[x].timeout, top, o);
  }

  lemma OtherWindow(row: seq<Id>, o: Tick, timers: Timers, timers': Timers, x: Id)
    requires InWindow(row, o, timers) && x !in row
    requires forall y :: y in timers && y != x ==> y in timers' && timers'[y].timeout == timers[y].timeout
    ensures InWindow(row, o, timers')
  {
  }

  lemma InsertedWindow(row: seq<Id>, x: Id, o: Tick, timers: Timers)
    requires InWindow(row, o, timers) && x in timers && Age(o, timers[x].timeout) < HALF
    ensures InWindow(Insert(row, x, KeyOf(o, timers)), o, timers)
  {
    hide Insert, Age;
    forall y | y in Insert(row, x, KeyOf(o, timers))
      ensures y in timers && Age(o, timers[y].timeout) < HALF
    {
      InsertHas(row, x, KeyOf(o, timers), y);
    }
  }

  lemma InsertedActive(u: State, r: State, x: Id, key: Key)
    requires ListedActive(u) && TempOk(u) && x !in u.temp && r.temp == u.temp
    requires Bottom(r) == Insert(Bottom(u), x, key)
    requires x in r.timers && r.timers[x].active
    requires forall y :: y in u.timers && y != x ==> y in r.timers && r.timers[y].active == u.timers[y].active
    ensures ListedActive(r) && TempOk(r)
  {
    hide Insert;
    forall y
      ensures y in Bottom(r) <==> y in Bottom(u) || y == x
    {
      InsertHas(Bottom(u), x, key, y);
    }
  }

  lemma StopGood(s: State, x: Id, o: Tick)
    requires Good(s, o) && x in s.timers
    ensures var r := Stop(s, x);
      && Good(r, o) && x !in Bottom(r) && DuePart(r, o) == Remove(DuePart(s, o), x)
      && Bottom(r) == Remove(Bottom(s), x)
      && r.temp == if s.timers[x].active then Remove(s.temp, x) else s.temp
  {
    hide RowsOk, Age, Upto, Remove;
    if s.timers[x].active {
      var u := Unlinked(s, x);
      UnlinkedGood(s, x, o);
      SameTicks(u, Stop(s, x), o, x);
    } else {
      RemoveAbsent(Bottom(s), x);
      PrefixAbsent(s, o, x);
      RemoveAbsent(DuePart(s, o), x);
    }
  }

  lemma PrefixAbsent(s: State, o: Tick, x: Id)
    requires x !in Bottom(s)
    ensures x !in DuePart(s, o)
  {
  }

  /** Changing other fields than the timeout, of a timer that is not listed or not its
      activity. */
  lemma SameTicks(s: State, r: State, o: Tick, x: Id)
    requires Good(s, o) && r.rows == s.rows && r.now == s.now && r.temp == s.temp && r.timers.Keys == s.timers.Keys
    requires forall y :: y in s.timers ==> r.timers[y].timeout == s.timers[y].timeout
    requires forall y :: y in s.timers && y in Bottom(s) ==> r.timers[y].active == s.timers[y].active
    ensures Good(r, o) && DuePart(r, o) == DuePart(s, o)
  {
    hide Age, Upto;
    var key, key' := KeyOf(o, s.timers), KeyOf(o, r.timers);
    assert forall y :: key(y) == key'(y);
    SameKeys(s, r, o);
    UptoAgree(Bottom(s), key, key', Age(o, s.now));
  }

  lemma SameKeys(s: State, r: State, o: Tick)
    requires RowsOk(s.rows, KeyOf(o, s.timers)) && r.rows == s.rows && 0 < |s.rows|
    requires forall y :: KeyOf(o, s.timers)(y) == KeyOf(o, r.timers)(y)
    ensures RowsOk(r.rows, KeyOf(o, r.timers))
  {
    hide RowsOk, KeyOf;
    RowsAgree(s.rows, KeyOf(o, s.timers), KeyOf(o, r.timers));
  }

  /** One command of a callback: a start or a stop takes a timer out of those that are due, and
      no command adds one. */
  lemma Run1Good(s: State, c: Command, o: Tick)
    requires Good(s, o) && c.id in s.timers && (c.DoStart? ==> Startable(s, c.id, o))
    ensures Good(Run1(s, c), o)
    ensures DuePart(Run1(s, c), o) == if Touching(c) then Remove(DuePart(s, o), c.id) else DuePart(s, o)
  {
    hide Good, Startable, DuePart, Start, Stop, Unlinked;
    match c
    case DoStart(x) => StartGood(s, x, o);
    case DoStop(x) => StopGood(s, x, o);
    case SetTime(x, n) => RetuneGood(s, Run1(s, c), o, x);
    case SetOneShot(x) => RetuneGood(s, Run1(s, c), o, x);
    case SetPeriodic(x) => RetuneGood(s, Run1(s, c), o, x);
  }

  lemma RetuneGood(s: State, r: State, o: Tick, x: Id)
    requires Good(s, o) && x in s.timers && r == s.(timers := r.timers)
    requires exists n, p :: r.timers == s.timers[x := s.timers[x].(init := n, periodic := p)]
    ensures Good(r, o) && DuePart(r, o) == DuePart(s, o)
  {
    hide Good, DuePart;
    SameTicks(s, r, o, x);
  }

  // ---- One callback, one turn -------------------------------------------------------------

  /** Every start in the script is one that ends after the current tick and inside the window. */
  ghost predicate SafeScript(s: State, script: Script, o: Tick)
    requires Known(s.timers, script)
    decreases |script|
  {
    script == [] || (
      assert forall i :: 0 <= i < |script[1..]| ==> script[1..][i] == script[i + 1];
      && (script[0].DoStart? ==> Startable(s, script[0].id, o))
      && SafeScript(Run1(s, script[0]), script[1..], o))
  }

  /** What is left of the timers in `p` after a script has started and stopped some. */
  function Struck(p: seq<Id>, script: Script): (r: seq<Id>)
    ensures |r| <= |p|
    decreases |script|
  {
    if script == [] then p
    else if Touching(script[0]) then
      RemoveShrinks(p, script[0].id);
      Struck(Remove(p, script[0].id), script[1..])
    else Struck(p, script[1..])
  }

  lemma KnownTail(timers: Timers, timers': Timers, script: Script)
    requires script != [] && Known(timers, script) && timers'.Keys == timers.Keys
    ensures Known(timers', script[1..]) && script[0].id in timers
  {
    assert forall i :: 0 <= i < |script[1..]| ==> script[1..][i] == script[i + 1];
  }

  lemma {:induction false} RunGood(s: State, script: Script, o: Tick)
    requires Good(s, o) && Known(s.timers, script) && SafeScript(s, script, o)
    ensures Good(Run(s, script), o)
    ensures DuePart(Run(s, script), o) == Struck(DuePart(s, o), script)
    decreases |script|
  {
    hide Good, DuePart, Run1, Startable, Known;
    if script != [] {
      KnownTail(s.timers, s.timers, script);
      Run1Good(s, script[0], o);
      Run1Keys(s, script[0]);
      KnownTail(s.timers, Run1(s, script[0]).timers, script);
      RunGood(Run1(s, script[0]), script[1..], o);
    }
  }

  lemma Run1Keys(s: State, c: Command)
    requires c.id in s.timers
    ensures Run1(s, c).timers.Keys == s.timers.Keys
  {
  }

  /** The timer in front fires, and leaves the list. */
  lemma PullGood(s: State, o: Tick)
    requires Good(s, o) && Fires(s) && s.temp == []
    ensures Good(Pull(s), o) && DuePart(s, o) == [Bottom(s)[0]] + DuePart(Pull(s), o)
    ensures Bottom(Pull(s)) == Bottom(s)[1..] && Bottom(s)[0] !in Bottom(Pull(s))
  {
    hide RowsOk, Age, Remove, Upto, Without, Sorted, Distinct, RemoveRows, Expired;
    var t := Bottom(s)[0];
    var u := Unlinked(s, t);
    UnlinkedGood(s, t, o);
    BottomSorted(s, o);
    RemoveAt(Bottom(s), t, 0);
    TailDistinct(Bottom(s));
    PulledGood(s, o);
    ExpiredIff(o, s.now, s.timers[t].timeout);
    UptoFirst(Bottom(s), KeyOf(o, s.timers), Age(o, s.now));
    FirstGone(s, t, o);
  }

  /** What the pull does besides taking the timer out. */
  lemma PulledGood(s: State, o: Tick)
    requires Fires(s)
    requires var t, u := Bottom(s)[0], Unlinked(s, Bottom(s)[0]); Good(u, o) && t !in Bottom(u) && u.temp == Remove(s.temp, t)
    ensures var u := Unlinked(s, Bottom(s)[0]);
      Good(Pull(s), o) && DuePart(Pull(s), o) == DuePart(u, o) && Bottom(Pull(s)) == Bottom(u)
  {
    hide RowsOk, InWindow, Age, Remove, Upto, RemoveRows, Expired;
    var t, u := Bottom(s)[0], Unlinked(s, Bottom(s)[0]);
    SameTicks(u, Pull(s).(temp := u.temp), o, t);
    TempGood(Pull(s).(temp := u.temp), Pull(s), o);
  }

  lemma FirstGone(s: State, t: Id, o: Tick)
    requires Bottom(s) != [] && Bottom(s)[0] == t && Distinct(Bottom(s))
    requires DuePart(s, o) != [] && DuePart(s, o)[0] == t
    ensures Remove(DuePart(s, o), t) == DuePart(s, o)[1..]
  {
    var p := DuePart(s, o);
    assert p <= Bottom(s);
    RemoveAt(p, t, 0);
  }

  lemma TempGood(s: State, r: State, o: Tick)
    requires Good(s, o) && r == s.(temp := r.temp) && TempOk(r)
    ensures Good(r, o) && DuePart(r, o) == DuePart(s, o)
  {
    hide RowsOk, InWindow, Upto, Age;
  }

  /** The restart of a periodic timer, too, has to be a safe one. */
  ghost predicate SafeTurn(s: State, script: Script, o: Tick)
    requires Fires(s) && Known(s.timers, script)
  {
    && SafeScript(Pull(s), script, o)
    && var u, t := Run(Pull(s), script), Bottom(s)[0];
      u.temp != [] && u.timers[t].periodic && u.timers[t].active ==> Startable(u, t, o)
  }

  /** One turn fires the first of the timers that are due, and leaves due what its callback did
      not start or stop. */
  lemma TurnGood(s: State, script: Script, o: Tick)
    requires Good(s, o) && s.temp == [] && Fires(s) && Known(s.timers, script) && SafeTurn(s, script, o)
    ensures Good(Turn(s, script), o) && Turn(s, script).temp == []
    ensures DuePart(s, o) != [] && DuePart(s, o)[0] == Bottom(s)[0]
    ensures DuePart(Turn(s, script), o) == Struck(DuePart(s, o)[1..], script)
  {
    hide Good, DuePart, Run, SafeScript, Struck, Pull, Startable;
    PullKeys(s);
    PullGood(s, o);
    RunGood(Pull(s), script, o);
    var u, t := Run(Pull(s), script), Bottom(s)[0];
    OwnTemp(Pull(s), script, t);
    SettleGood(u, t, o);
    assert DuePart(s, o)[1..] == DuePart(Pull(s), o);
  }

  lemma PullKeys(s: State)
    requires Fires(s)
    ensures Pull(s).timers.Keys == s.timers.Keys && Pull(s).temp == [Bottom(s)[0]]
  {
  }

  lemma SettleGood(u: State, t: Id, o: Tick)
    requires Good(u, o) && t in u.timers && (u.temp == [t] || u.temp == [])
    requires u.temp != [] && u.timers[t].periodic && u.timers[t].active ==> Startable(u, t, o)
    ensures Good(Settle(u, t), o) && Settle(u, t).temp == []
    ensures DuePart(Settle(u, t), o) == DuePart(u, o)
  {
    hide DuePart, Start, RowsOk, InWindow;
    if u.temp != [] {
      var v := u.(temp := []);
      TempGood(u, v, o);
      if u.timers[t].periodic && u.timers[t].active {
        var w := v.(timers := v.timers[t := v.timers[t].(active := false)]);
        assert t in u.temp;
        SameTicks(v, w, o, t);
        StartGood(w, t, o);
        PrefixAbsent(w, o, t);
        RemoveAbsent(DuePart(w, o), t);
      }
    }
  }

  /** Only the timer that fires can be in the temporary list. */
  lemma {:induction false} OwnTemp(s: State, script: Script, t: Id)
    requires Known(s.timers, script) && (s.temp == [t] || s.temp == [])
    ensures Run(s, script).temp == [t] || Run(s, script).temp == []
    decreases |script|
  {
    hide LinkRows, RemoveRows, Known;
    if script != [] {
      KnownTail(s.timers, s.timers, script);
      Run1Keys(s, script[0]);
      KnownTail(s.timers, Run1(s, script[0]).timers, script);
      RemoveOne(t, script[0].id);
      OwnTemp(Run1(s, script[0]), script[1..], t);
    }
  }

  lemma RemoveOne(t: Id, x: Id)
    ensures Remove([t], x) == if t == x then [] else [t]
    ensures Remove([], x) == []
  {
    assert [t][1..] == [];
  }

  // ---- A whole check ----------------------------------------------------------------------

  ghost predicate IsTurn(s: State, script: Script, r: State, o: Tick) {
    Fires(s) && Known(s.timers, script) && SafeTurn(s, script, o) && r == Turn(s, script)
  }

  /** The turns of one rt_timer_check, so far. */
  ghost predicate IsCheck(run: seq<State>, scripts: seq<Script>, o: Tick) {
    && |run| == |scripts| + 1
    && Good(run[0], o) && run[0].temp == []
    && forall i :: 0 <= i < |scripts| ==> IsTurn(run[i], scripts[i], run[i + 1], o)
  }

  ghost function Fired(run: seq<State>): seq<Id> {
    if |run| <= 1 || Bottom(run[0]) == [] then [] else [Bottom(run[0])[0]] + Fired(run[1..])
  }

  /** What is fired, told from the timers that are due and the callbacks alone. */
  function Firing(p: seq<Id>, scripts: seq<Script>): (f: seq<Id>)
    decreases |scripts|
  {
    if p == [] || scripts == [] then [] else [p[0]] + Firing(Struck(p[1..], scripts[0]), scripts[1..])
  }

  lemma CheckTail(run: seq<State>, scripts: seq<Script>, o: Tick)
    requires IsCheck(run, scripts, o) && scripts != []
    ensures IsCheck(run[1..], scripts[1..], o)
    ensures DuePart(run[0], o) != [] && DuePart(run[0], o)[0] == Bottom(run[0])[0] && Bottom(run[0]) != []
    ensures DuePart(run[1], o) == Struck(DuePart(run[0], o)[1..], scripts[0])
  {
    hide Good, DuePart, Turn, Struck;
    assert IsTurn(run[0], scripts[0], run[0 + 1], o);
    TurnGood(run[0], scripts[0], o);
    forall i | 0 <= i < |scripts[1..]|
      ensures IsTurn(run[1..][i], scripts[1..][i], run[1..][i + 1], o)
    {
      assert IsTurn(run[i + 1], scripts[i + 1], run[i + 1 + 1], o);
    }
  }

  /** Main result on the check: it ends after at most as many turns as timers were due at the
      start, whatever the callbacks do; it fires exactly what the callbacks leave due, in list
      order; and when it ends no listed timer is due. */
  lemma {:induction false} CheckFires(run: seq<State>, scripts: seq<Script>, o: Tick)
    requires IsCheck(run, scripts, o)
    ensures |scripts| <= |DuePart(run[0], o)|
    ensures Fired(run) == Firing(DuePart(run[0], o), scripts)
    ensures Good(run[|scripts|], o) && run[|scripts|].temp == []
    ensures !Fires(run[|scripts|]) ==> forall x :: x in Bottom(run[|scripts|]) ==>
      !Expired(run[|scripts|].now, Due(run[|scripts|].timers, x))
    decreases |scripts|
  {
    hide Good, DuePart, Turn, Struck, IsTurn;
    if scripts == [] {
      if !Fires(run[0]) {
        NoneDue(run[0], o);
      }
    } else {
      CheckTail(run, scripts, o);
      CheckFires(run[1..], scripts[1..], o);
      assert run[1..][|scripts| - 1] == run[|scripts|];
    }
  }

  lemma NoneDue(s: State, o: Tick)
    requires Good(s, o) && !Fires(s)
    ensures forall x :: x in Bottom(s) ==> !Expired(s.now, Due(s.timers, x))
  {
    hide Age, RowsOk, Expired;
    BottomSorted(s, o);
    forall x | x in Bottom(s)
      ensures !Expired(s.now, Due(s.timers, x))
    {
      var first := Bottom(s)[0];
      assert first in Bottom(s);
      ExpiredIff(o, s.now, s.timers[first].timeout);
      ExpiredIff(o, s.now, s.timers[x].timeout);
      FirstLeast(Bottom(s), KeyOf(o, s.timers), x);
    }
  }

  lemma FirstLeast(row: seq<Id>, key: Key, x: Id)
    requires Sorted(row, key) && x in row
    ensures row != [] && key(row[0]) <= key(x)
  {
    var i :| 0 <= i < |row| && row[i] == x;
  }

  ghost predicate Touched(script: Script, x: Id) {
    exists i :: 0 <= i < |script| && Touching(script[i]) && script[i].id == x
  }

  lemma {:induction false} StruckHas(p: seq<Id>, script: Script)
    requires Distinct(p)
    ensures Distinct(Struck(p, script))
    ensures forall x :: x in Struck(p, script) <==> x in p && !Touched(script, x)
    ensures Subsequence(Struck(p, script), p)
    decreases |script|
  {
    hide Distinct, Subsequence, Remove;
    if script == [] {
      SubsequenceSelf(p);
    } else {
      var rest := if Touching(script[0]) then Remove(p, script[0].id) else p;
      RemoveMembers(p, script[0].id);
      StruckHas(rest, script[1..]);
      forall x
        ensures Touched(script, x) <==> (Touching(script[0]) && script[0].id == x) || Touched(script[1..], x)
      {
        TouchedFirst(script, x);
      }
      RemovePart(p, script[0].id);
      SubsequenceSelf(p);
      SubsequenceTrans(Struck(p, script), rest, p);
    }
  }

  lemma TouchedFirst(script: Script, x: Id)
    requires script != []
    ensures Touched(script, x) <==> (Touching(script[0]) && script[0].id == x) || Touched(script[1..], x)
  {
    if Touched(script[1..], x) {
      var i :| 0 <= i < |script[1..]| && Touching(script[1..][i]) && script[1..][i].id == x;
      assert script[i + 1] == script[1..][i];
    }
    if Touched(script, x) {
      var i :| 0 <= i < |script| && Touching(script[i]) && script[i].id == x;
      assert 0 < i ==> script[1..][i - 1] == script[i];
    }
  }

  lemma {:induction false} RemovePart(p: seq<Id>, x: Id)
    ensures Subsequence(Remove(p, x), p)
  {
    if p != [] {
      RemovePart(p[1..], x);
      assert p == [p[0]] + p[1..];
      if p[0] == x {
        SkipFirst(Remove(p[1..], x), p[0], p[1..]);
      } else {
        assert Remove(p, x)[1..] == Remove(p[1..], x);
      }
    }
  }

  lemma {:induction false} SubsequenceTrans(a: seq<Id>, b: seq<Id>, c: seq<Id>)
    requires Subsequence(a, b) && Subsequence(b, c)
    ensures Subsequence(a, c)
    decreases |b| + |c|
  {
    if a != [] && b != [] && c != [] {
      if b[0] == c[0] {
        if a[0] == b[0] {
          SubsequenceTrans(a[1..], b[1..], c[1..]);
        } else {
          SubsequenceTrans(a, b[1..], c[1..]);
        }
      } else {
        SubsequenceTrans(a, b, c[1..]);
        assert c == [c[0]] + c[1..];
        SkipFirst(a, c[0], c[1..]);
      }
    }
  }

  /** The timers that are fired are some of those that were due, in the same order, each once;
      a timer that was due and is not fired was started or stopped by the callback of one that
      was fired; and one that is fired was not touched by any callback before its own. */
  lemma {:induction false} FiringIs(p: seq<Id>, scripts: seq<Script>)
    requires Distinct(p) && |Firing(p, scripts)| == |scripts|
    ensures Subsequence(Firing(p, scripts), p)
    ensures forall j, k :: 0 <= k < j < |scripts| ==> !Touched(scripts[k], Firing(p, scripts)[j])
    ensures forall x :: x in Firing(p, scripts) ==> x in p
    decreases |scripts|
  {
    hide Distinct, Subsequence, Touched;
    if scripts == [] {
      NoPart(p);
    } else {
      var rest := Struck(p[1..], scripts[0]);
      var f, g := Firing(p, scripts), Firing(rest, scripts[1..]);
      assert f == [p[0]] + g;
      TailDistinct(p);
      StruckHas(p[1..], scripts[0]);
      FiringIs(rest, scripts[1..]);
      SubsequenceTrans(g, rest, p[1..]);
      FirstAlike(p[0], g, p[1..]);
      assert p == [p[0]] + p[1..];
      forall j, k | 0 <= k < j < |scripts|
        ensures !Touched(scripts[k], f[j])
      {
        assert f[j] == g[j - 1] && g[j - 1] in g;
        assert 0 < k ==> scripts[k] == scripts[1..][k - 1];
      }
    }
  }

  lemma NoPart(p: seq<Id>)
    ensures Subsequence([], p)
  {
  }

  lemma FirstAlike(x: Id, a: seq<Id>, b: seq<Id>)
    requires Subsequence(a, b)
    ensures Subsequence([x] + a, [x] + b)
  {
    assert ([x] + a)[1..] == a && ([x] + b)[1..] == b;
  }

  /** The other half: nothing that stays due is passed over. */
  lemma {:induction false} FiringMisses(p: seq<Id>, scripts: seq<Script>, x: Id)
    requires Distinct(p) && |Firing(p, scripts)| == |scripts| && x in p && x !in Firing(p, scripts)
    requires forall k :: 0 <= k < |scripts| ==> !Touched(scripts[k], x)
    ensures x in LeftOver(p, scripts)
    decreases |scripts|
  {
    hide Distinct, Touched;
    if scripts != [] {
      var rest := Struck(p[1..], scripts[0]);
      var f, g := Firing(p, scripts), Firing(rest, scripts[1..]);
      assert f == [p[0]] + g && f[0] in f;
      assert p == [p[0]] + p[1..];
      TailDistinct(p);
      StruckHas(p[1..], scripts[0]);
      assert forall k :: 0 <= k < |scripts[1..]| ==> scripts[1..][k] == scripts[k + 1];
      FiringMisses(rest, scripts[1..], x);
    }
  }

  function LeftOver(p: seq<Id>, scripts: seq<Script>): seq<Id>
    decreases |scripts|
  {
    if p == [] || scripts == [] then p else LeftOver(Struck(p[1..], scripts[0]), scripts[1..])
  }

  /** The timers that are due are the listed ones that have expired, by timeout. */
  lemma DueIsExpired(s: State, o: Tick)
    requires Good(s, o)
    ensures Distinct(DuePart(s, o)) && Sorted(DuePart(s, o), KeyOf(o, s.timers))
    ensures forall x :: x in DuePart(s, o) <==> x in Bottom(s) && Expired(s.now, Due(s.timers, x))
  {
    hide Age, RowsOk, Expired;
    BottomSorted(s, o);
    var row, key, k := Bottom(s), KeyOf(o, s.timers), Age(o, s.now);
    PlaceSplits(row, key, k);
    hide Place;
    forall x | x in row
      ensures x in DuePart(s, o) <==> Expired(s.now, Due(s.timers, x))
    {
      var i :| 0 <= i < |row| && row[i] == x;
      ExpiredIff(o, s.now, s.timers[x].timeout);
      if i < Place(row, key, k) {
        assert row[..Place(row, key, k)][i] == x;
      }
    }
  }

  lemma {:induction false} LeftOverIs(run: seq<State>, scripts: seq<Script>, o: Tick)
    requires IsCheck(run, scripts, o)
    ensures LeftOver(DuePart(run[0], o), scripts) == DuePart(run[|scripts|], o)
    decreases |scripts|
  {
    hide Good, DuePart, Turn, Struck, IsTurn;
    if scripts != [] {
      CheckTail(run, scripts, o);
      LeftOverIs(run[1..], scripts[1..], o);
      assert run[1..][|scripts| - 1] == run[|scripts|];
    }
  }

  lemma FiredOnePerTurn(run: seq<State>, scripts: seq<Script>, o: Tick)
    requires IsCheck(run, scripts, o)
    ensures |Firing(DuePart(run[0], o), scripts)| == |scripts|
    decreases |scripts|
  {
    hide Good, DuePart, Turn, Struck, IsTurn;
    if scripts != [] {
      CheckTail(run, scripts, o);
      FiredOnePerTurn(run[1..], scripts[1..], o);
    }
  }

  /** What a check that has come to its end has fired: exactly the listed timers that had expired
      at its start and that no callback before their turn started or stopped, by timeout.  Those of
      one timeout come in list order, which is the order of their starts, see TimerLife. */
  lemma CheckExact(run: seq<State>, scripts: seq<Script>, o: Tick)
    requires IsCheck(run, scripts, o) && !Fires(run[|scripts|])
    ensures var f, s := Fired(run), run[0];
      && |f| == |scripts|
      && Subsequence(f, Bottom(s)) && Sorted(f, KeyOf(o, s.timers))
      && (forall x :: x in f ==> Expired(s.now, Due(s.timers, x)))
      && (forall j, k :: 0 <= k < j < |f| ==> !Touched(scripts[k], f[j]))
      && (forall x :: x in Bottom(s) && Expired(s.now, Due(s.timers, x)) && x !in f ==>
            exists k :: 0 <= k < |f| && Touched(scripts[k], x))
  {
    hide Good, Turn, Struck, IsTurn, Touched, Subsequence, Expired, Distinct, Firing, DuePart, Sorted;
    var f, s, p := Fired(run), run[0], DuePart(run[0], o);
    CheckFires(run, scripts, o);
    FiredOnePerTurn(run, scripts, o);
    DueIsExpired(s, o);
    FiringIs(p, scripts);
    DuePrefix(s, o);
    SubsequenceTrans(f, p, Bottom(s));
    SortedPart(f, p, KeyOf(o, s.timers));
    forall x | x in Bottom(s) && Expired(s.now, Due(s.timers, x)) && x !in f
      ensures exists k :: 0 <= k < |f| && Touched(scripts[k], x)
    {
      if forall k :: 0 <= k < |scripts| ==> !Touched(scripts[k], x) {
        FiringMisses(p, scripts, x);
        LeftOverIs(run, scripts, o);
        DueIsExpired(run[|scripts|], o);
      }
    }
  }

  lemma {:induction false} SortedPart(a: seq<Id>, b: seq<Id>, key: Key)
    requires Subsequence(a, b) && Sorted(b, key)
    ensures Sorted(a, key)
    decreases |b|
  {
    if a != [] {
      TailSorted(b, key);
      if a[0] == b[0] {
        SortedPart(a[1..], b[1..], key);
        SubsequenceMember(a[1..], b[1..]);
        PrependSorted(a[0], a[1..], key);
        assert a == [a[0]] + a[1..];
      } else {
        SortedPart(a, b[1..], key);
      }
    }
  }

  lemma {:induction false} PrefixPart(a: seq<Id>, n: nat)
    requires n <= |a|
    ensures Subsequence(a[..n], a)
  {
    if 0 < n {
      PrefixPart(a[1..], n - 1);
      assert a[..n][1..] == a[1..][..n - 1];
    }
  }

  lemma DuePrefix(s: State, o: Tick)
    ensures Subsequence(DuePart(s, o), Bottom(s))
  {
    PrefixPart(Bottom(s), Place(Bottom(s), KeyOf(o, s.timers), Age(o, s.now)));
  }

  // ---- Active means listed ----------------------------------------------------------------

  /** Every active timer is in the list. */
  ghost predicate NoStray(s: State) {
    forall x :: x in s.timers && s.timers[x].active ==> x in Bottom(s)
  }

  /** The mode a script leaves a timer in. */
  function Mode(periodic: bool, script: Script, t: Id): bool
    decreases |script|
  {
    if script == [] then periodic
    else if script[0] == SetOneShot(t) then Mode(false, script[1..], t)
    else if script[0] == SetPeriodic(t) then Mode(true, script[1..], t)
    else Mode(periodic, script[1..], t)
  }

  ghost predicate OthersListed(s: State, t: Id) {
    forall x :: x in s.timers && x != t && s.timers[x].active ==> x in Bottom(s)
  }

  /** The timer that fires, while its callback runs: still in the temporary list and as active
      as it was, or started or stopped since then. */
  ghost predicate Own(s: State, t: Id, wasActive: bool) {
    && t in s.timers
    && (s.temp == [t] || s.temp == [])
    && (s.temp == [t] ==> s.timers[t].active == wasActive)
    && (s.temp == [] && s.timers[t].active ==> t in Bottom(s))
  }

  lemma {:induction false} RunOwn(s: State, script: Script, t: Id, a: bool, o: Tick)
    requires Good(s, o) && Known(s.timers, script) && SafeScript(s, script, o)
    requires Own(s, t, a) && OthersListed(s, t)
    ensures var r := Run(s, script);
      && Own(r, t, a) && OthersListed(r, t)
      && (s.temp == [] ==> r.temp == [])
      && (a && Touched(script, t) ==> r.temp == [])
      && (s.temp == [t] && !Touched(script, t) ==>
            r.temp == [t] && r.timers[t].periodic == Mode(s.timers[t].periodic, script, t))
    decreases |script|
  {
    hide Good, Own, OthersListed, Run1, Touched, Startable;
    if script == [] {
      NotTouched(t);
      TempIs(s, t, a);
    } else {
      KnownTail(s.timers, s.timers, script);
      Run1Good(s, script[0], o);
      Run1Keys(s, script[0]);
      KnownTail(s.timers, Run1(s, script[0]).timers, script);
      Run1Own(s, script[0], t, a, o);
      TouchedFirst(script, t);
      RunOwn(Run1(s, script[0]), script[1..], t, a, o);
      TempIs(s, t, a);
    }
  }

  lemma NotTouched(t: Id)
    ensures !Touched([], t)
  {
  }

  lemma TempIs(s: State, t: Id, a: bool)
    requires Own(s, t, a)
    ensures t in s.timers && (s.temp == [t] || s.temp == [])
  {
  }

  lemma Run1Own(s: State, c: Command, t: Id, a: bool, o: Tick)
    requires Good(s, o) && c.id in s.timers && (c.DoStart? ==> Startable(s, c.id, o))
    requires Own(s, t, a) && OthersListed(s, t)
    ensures var r := Run1(s, c);
      && Own(r, t, a) && OthersListed(r, t)
      && (s.temp == [] ==> r.temp == [])
      && (a && Touching(c) && c.id == t ==> r.temp == [])
      && (s.temp == [t] && !(Touching(c) && c.id == t) ==>
            r.temp == [t] && r.timers[t].periodic == Mode(s.timers[t].periodic, [c], t))
      && (!(Touching(c) && c.id == t) ==> r.timers[t].periodic == Mode(s.timers[t].periodic, [c], t))
  {
    hide Good, Start, Stop, Insert, Remove, Startable;
    RemoveOne(t, c.id);
    assert [c][1..] == [];
    match c
    case DoStart(x) => StartOwn(s, x, t, a, o);
    case DoStop(x) => StopOwn(s, x, t, a, o);
    case SetTime(x, n) =>
    case SetOneShot(x) =>
    case SetPeriodic(x) =>
  }

  lemma StartOwn(s: State, x: Id, t: Id, a: bool, o: Tick)
    requires Good(s, o) && Startable(s, x, o) && Own(s, t, a) && OthersListed(s, t)
    ensures var r := Start(s, x);
      && Own(r, t, a) && OthersListed(r, t) && t in r.timers && r.temp == Remove(s.temp, x)
      && r.timers[t].periodic == s.timers[t].periodic
  {
    hide Good, Insert, Remove, LinkRows;
    StartGood(s, x, o);
    var r := Start(s, x);
    RemoveOne(t, x);
    forall y
      ensures y in Bottom(r) <==> y in Bottom(s) || y == x
    {
      RemoveMembers(Bottom(s), x);
      InsertHas(Remove(Bottom(s), x), x, KeyOf(o, r.timers), y);
    }
  }

  lemma StopOwn(s: State, x: Id, t: Id, a: bool, o: Tick)
    requires Good(s, o) && x in s.timers && Own(s, t, a) && OthersListed(s, t)
    ensures var r := Stop(s, x);
      && Own(r, t, a) && OthersListed(r, t) && t in r.timers
      && r.temp == (if s.timers[x].active then Remove(s.temp, x) else s.temp)
      && r.timers[t].periodic == s.timers[t].periodic
  {
    hide Good, Remove;
    StopGood(s, x, o);
    RemoveMembers(Bottom(s), x);
    RemoveOne(t, x);
  }

  /** A periodic timer that its own callback makes one-shot, without stopping it or starting it
      again: it drops out of the list with its ACTIVATED flag set. */
  ghost predicate LeftBehind(s: State, script: Script)
    requires Fires(s)
  {
    var t := Bottom(s)[0];
    s.timers[t].periodic && !Touched(script, t) && !Mode(true, script, t)
  }

  lemma PullOwn(s: State, o: Tick)
    requires Good(s, o) && s.temp == [] && Fires(s) && NoStray(s)
    ensures var t := Bottom(s)[0];
      && Own(Pull(s), t, s.timers[t].periodic) && OthersListed(Pull(s), t)
      && Pull(s).temp == [t] && Pull(s).timers[t].periodic == s.timers[t].periodic
  {
    hide RowsOk, Age, InWindow;
    var t := Bottom(s)[0];
    PullGood(s, o);
    assert t in Bottom(s);
    assert Bottom(s) == [t] + Bottom(s)[1..];
  }

  lemma SettleStray(u: State, t: Id, a: bool, o: Tick)
    requires Good(u, o) && Own(u, t, a) && OthersListed(u, t)
    requires u.temp != [] && u.timers[t].periodic && u.timers[t].active ==> Startable(u, t, o)
    ensures NoStray(Settle(u, t)) <==> !(u.temp == [t] && a && !u.timers[t].periodic)
  {
    hide Start, RowsOk, InWindow, Age, Insert, Remove;
    if u.temp == [t] {
      var v := u.(temp := []);
      TempGood(u, v, o);
      assert t in u.temp;
      if u.timers[t].periodic && u.timers[t].active {
        var w := v.(timers := v.timers[t := v.timers[t].(active := false)]);
        SameTicks(v, w, o, t);
        AllListed(w, t, o);
      }
    }
  }

  lemma AllListed(w: State, t: Id, o: Tick)
    requires Good(w, o) && Startable(w, t, o) && OthersListed(w, t)
    ensures NoStray(Start(w, t))
  {
    hide Good, Insert, Remove, LinkRows;
    StartGood(w, t, o);
    var r := Start(w, t);
    forall y
      ensures y in Bottom(r) <==> y in Bottom(w) || y == t
    {
      RemoveMembers(Bottom(w), t);
      InsertHas(Remove(Bottom(w), t), t, KeyOf(o, r.timers), y);
    }
  }

  /** Exactly when a turn leaves an active timer outside of the list. */
  lemma TurnStray(s: State, script: Script, o: Tick)
    requires Good(s, o) && s.temp == [] && Fires(s) && Known(s.timers, script) && SafeTurn(s, script, o)
    requires NoStray(s)
    ensures NoStray(Turn(s, script)) <==> !LeftBehind(s, script)
  {
    hide Good, Run, SafeScript, Pull, Own, OthersListed, Touched, NoStray, Startable, Settle;
    var t := Bottom(s)[0];
    PullKeys(s);
    PullGood(s, o);
    PullOwn(s, o);
    RunOwn(Pull(s), script, t, s.timers[t].periodic, o);
    RunGood(Pull(s), script, o);
    TempIs(Run(Pull(s), script), t, s.timers[t].periodic);
    SettleStray(Run(Pull(s), script), t, s.timers[t].periodic, o);
  }

  /** After a check whose callbacks leave no timer behind, a timer is active if and only if it is
      listed, if that was so before. */
  lemma {:induction false} CheckStray(run: seq<State>, scripts: seq<Script>, o: Tick, k: nat)
    requires IsCheck(run, scripts, o) && NoStray(run[0]) && k <= |scripts|
    requires forall i :: 0 <= i < k ==> Fires(run[i]) && !LeftBehind(run[i], scripts[i])
    ensures Good(run[k], o) && run[k].temp == []
    ensures forall x :: x in run[k].timers ==> (run[k].timers[x].active <==> x in Bottom(run[k]))
  {
    hide Good, Turn, LeftBehind, NoStray, SafeTurn;
    StrayUpTo(run, scripts, o, k);
    ActiveListed(run[k], o);
  }

  lemma {:induction false} StrayUpTo(run: seq<State>, scripts: seq<Script>, o: Tick, k: nat)
    requires IsCheck(run, scripts, o) && NoStray(run[0]) && k <= |scripts|
    requires forall i :: 0 <= i < k ==> Fires(run[i]) && !LeftBehind(run[i], scripts[i])
    ensures Good(run[k], o) && run[k].temp == [] && NoStray(run[k])
  {
    hide Good, Turn, LeftBehind, NoStray, SafeTurn;
    if 0 < k {
      StrayUpTo(run, scripts, o, k - 1);
      assert IsTurn(run[k - 1], scripts[k - 1], run[k - 1 + 1], o);
      TurnGood(run[k - 1], scripts[k - 1], o);
      TurnStray(run[k - 1], scripts[k - 1], o);
    }
  }

  lemma ActiveListed(s: State, o: Tick)
    requires Good(s, o) && NoStray(s)
    ensures forall x :: x in s.timers ==> (s.timers[x].active <==> x in Bottom(s))
  {
  }

  /** It does happen: one periodic timer, whose callback makes it one-shot. */
  lemma StrayExample()
    ensures var s := State(10, map[1 := Timer(5, 10, true, true)], [[1]], [], 0);
      Good(s, 0) && NoStray(s) && Fires(s) && Known(s.timers, [SetOneShot(1)]) &&
      !NoStray(Turn(s, [SetOneShot(1)]))
  {
    var s := State(10, map[1 := Timer(5, 10, true, true)], [[1]], [], 0);
    var script := [SetOneShot(1)];
    assert Bottom(s) == [1] && s.rows[0] == [1];
    assert Good(s, 0);
    assert Known(s.timers, script) && script[0] == SetOneShot(1) && script[1..] == [];
    assert Mode(true, script, 1) == false;
    SafeScriptOne(Pull(s), 1);
    assert Run(Pull(s), script) == Run1(Pull(s), script[0]);
    assert LeftBehind(s, script);
    TurnStray(s, script, 0);
  }

  lemma SafeScriptOne(s: State, x: Id)
    requires x in s.timers
    ensures Known(s.timers, [SetOneShot(x)]) && SafeScript(s, [SetOneShot(x)], 0)
  {
    assert [SetOneShot(x)][1..] == [];
  }

  /** A periodic timer of zero ticks keeps the check going for ever: after a turn with an empty
      callback everything but the counter of starts is as before. */
  lemma ZeroPeriodSpins(now: Tick, random: nat)
    ensures var s := State(now, map[1 := Timer(0, now, true, true)], [[1]], [], random);
      Fires(s) && Known(s.timers, []) && Turn(s, []) == s.(random := Turn(s, []).random)
  {
    var s := State(now, map[1 := Timer(0, now, true, true)], [[1]], [], random);
    assert Bottom(s) == [1];
    RemoveOne(1, 1);
    var p := Pull(s);
    assert p.rows == [[]] && p.temp == [1] && p.timers == s.timers;
    var u := Run(p, []).(temp := []);
    var v := u.(timers := u.timers[1 := u.timers[1].(active := false)]);
    assert Remove([], 1) == [];
    assert RemoveRows(v.rows, 1) == [[]];
    var none: seq<seq<Id>> := [[]];
    assert none[0] == [] && Position(none, s.timers, now, 0) == 0 && PutAt(none[0], 0, 1) == [1];
    assert LinkRows(none, s.timers, 1, now, 0) == [[1]];
    assert v.timers[1 := v.timers[1].(timeout := now, active := true)] == s.timers;
  }
}
