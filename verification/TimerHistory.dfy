/** The hard timers over whole runs: threads create, start, stop and retune timers, and at every tick
    the check runs to its end.  Nothing is assumed of the timeouts; what rt_timer_start asserts of
    the length of a start keeps all of them within half of the tick range.
 */
module TimerHistory {
  import opened Sequences
  import opened Ticks
  import opened TimerLemmas
  import opened TimerModel
  import opened TimerRows
  import opened TimerRuns

  type Stamps = map<Id, nat>

  /** `stamp` is not a field of the source: the number of the last start of every timer, counted
      over all timers. */
  datatype History = History(s: State, stamp: Stamps, starts: nat)

  // ---- The steps --------------------------------------------------------------------------

  function Stamped(h: History, s: State, x: Id): History {
    History(s, h.stamp[x := h.starts], h.starts + 1)
  }

  function Act(h: History, c: Command): (r: History)
    requires c.id in h.s.timers
    ensures r.s == Run1(h.s, c)
  {
    if c.DoStart? then Stamped(h, Run1(h.s, c), c.id) else h.(s := Run1(h.s, c))
  }

  function ActAll(h: History, script: Script): (r: History)
    requires Known(h.s.timers, script)
    ensures r.s == Run(h.s, script)
    decreases |script|
  {
    if script == [] then h
    else
      KnownTail(h.s.timers, h.s.timers, script);
      Run1Keys(h.s, script[0]);
      KnownTail(h.s.timers, Run1(h.s, script[0]).timers, script);
      ActAll(Act(h, script[0]), script[1..])
  }

  /** Whether the timer that fired is started again. */
  predicate Restarts(u: State, t: Id) {
    u.temp != [] && t in u.timers && u.timers[t].periodic && u.timers[t].active
  }

  function TurnOf(h: History, script: Script): (r: History)
    requires Fires(h.s) && Known(h.s.timers, script)
    ensures r.s == Turn(h.s, script)
  {
    PullKeys(h.s);
    var t, u := Bottom(h.s)[0], ActAll(h.(s := Pull(h.s)), script);
    if Restarts(u.s, t) then Stamped(u, Settle(u.s, t), t) else u.(s := Settle(u.s, t))
  }

  /** A check that comes to its end with these callbacks, each start of which lasts at least a tick
      and less than half of the tick range. */
  ghost predicate CanCheck(h: History, scripts: seq<Script>)
    decreases |scripts|
  {
    if scripts == [] then !Fires(h.s)
    else
      && Fires(h.s) && Known(h.s.timers, scripts[0]) && SafeTurn(h.s, scripts[0], h.s.now)
      && CanCheck(TurnOf(h, scripts[0]), scripts[1..])
  }

  ghost function Checked(h: History, scripts: seq<Script>): History
    requires CanCheck(h, scripts)
    decreases |scripts|
  {
    if scripts == [] then h else Checked(TurnOf(h, scripts[0]), scripts[1..])
  }

  /** The timers that fire, in the order in which they do. */
  ghost function FiredBy(h: History, scripts: seq<Script>): (f: seq<Id>)
    requires CanCheck(h, scripts)
    ensures |f| == |scripts|
    decreases |scripts|
  {
    if scripts == [] then [] else [Bottom(h.s)[0]] + FiredBy(TurnOf(h, scripts[0]), scripts[1..])
  }

  function Ticked(h: History): History {
    h.(s := h.s.(now := Add(h.s.now, 1)))
  }

  datatype Event =
    | Create(x: Id, time: nat, periodic: bool)   // rt_timer_init
    | Do(c: Command)                             // a call by a thread
    | Tick(scripts: seq<Script>)                 // rt_tick_increase, with the callbacks of the check

  /** A start lasts at least one tick; that it is shorter than half of the range is asserted. */
  predicate LongEnough(s: State, c: Command) {
    c.DoStart? && c.id in s.timers ==> 1 <= s.timers[c.id].init < HALF
  }

  ghost predicate Enabled(h: History, e: Event) {
    match e
    case Create(x, _, _) => 0 < x && x !in h.s.timers
    case Do(c) => c.id in h.s.timers && LongEnough(h.s, c)
    case Tick(scripts) => CanCheck(Ticked(h), scripts)
  }

  ghost function Next(h: History, e: Event): History
    requires Enabled(h, e)
  {
    match e
    case Create(x, time, periodic) => h.(s := h.s.(timers := h.s.timers[x := Timer(time, 0, periodic, false)]))
    case Do(c) => Act(h, c)
    case Tick(scripts) => Checked(Ticked(h), scripts)
  }

  function Begin(now: Tick, levels: nat): History {
    History(State(now, map[], seq(levels, _ => []), [], 0), map[], 0)
  }

  ghost predicate IsStep(h: History, e: Event, r: History) {
    Enabled(h, e) && r == Next(h, e)
  }

  ghost predicate IsRun(run: seq<History>, events: seq<Event>, now: Tick, levels: nat) {
    && 0 < levels && |run| == |events| + 1 && run[0] == Begin(now, levels)
    && forall i :: 0 <= i < |events| ==> IsStep(run[i], events[i], run[i + 1])
  }

  // ---- Order by timeout and start ---------------------------------------------------------

  ghost predicate Before(key: Key, stamp: Stamps, a: Id, b: Id) {
    a in stamp && b in stamp && (key(a) < key(b) || (key(a) == key(b) && stamp[a] < stamp[b]))
  }

  ghost predicate Strict(row: seq<Id>, key: Key, stamp: Stamps) {
    forall i, j :: 0 <= i < j < |row| ==> Before(key, stamp, row[i], row[j])
  }

  ghost predicate Known1(row: seq<Id>, stamp: Stamps, n: nat) {
    forall x :: x in row ==> x in stamp && stamp[x] < n
  }

  /** By timeout, and those of one timeout in the order of their starts. */
  ghost predicate InOrder(h: History, o: Tick) {
    Known1(Bottom(h.s), h.stamp, h.starts) && Strict(Bottom(h.s), KeyOf(o, h.s.timers), h.stamp)
  }

  lemma StrictAgree(row: seq<Id>, key: Key, key': Key, stamp: Stamps)
    requires Strict(row, key, stamp) && forall x :: x in row ==> key(x) == key'(x)
    ensures Strict(row, key', stamp)
  {
    forall i, j | 0 <= i < j < |row|
      ensures Before(key', stamp, row[i], row[j])
    {
      assert Before(key, stamp, row[i], row[j]) && row[i] in row && row[j] in row;
    }
  }

  lemma StrictTail(row: seq<Id>, key: Key, stamp: Stamps)
    requires Strict(row, key, stamp) && row != []
    ensures Strict(row[1..], key, stamp) && forall x :: x in row[1..] ==> Before(key, stamp, row[0], x)
  {
    hide Before;
    assert forall i :: 0 <= i < |row| - 1 ==> row[1..][i] == row[i + 1];
  }

  lemma StrictCons(x: Id, row: seq<Id>, key: Key, stamp: Stamps)
    requires Strict(row, key, stamp) && forall y :: y in row ==> Before(key, stamp, x, y)
    ensures Strict([x] + row, key, stamp)
  {
    hide Before;
    var r := [x] + row;
    assert forall i :: 0 < i < |r| ==> r[i] == row[i - 1] && row[i - 1] in row;
  }

  /** A part of a list in strict order is in strict order. */
  lemma {:induction false} StrictPart(a: seq<Id>, b: seq<Id>, key: Key, stamp: Stamps)
    requires Subsequence(a, b) && Strict(b, key, stamp)
    ensures Strict(a, key, stamp)
    decreases |b|
  {
    hide Before, Strict;
    if a == [] {
      StrictNone(key, stamp);
    } else {
      StrictTail(b, key, stamp);
      if a[0] == b[0] {
        StrictPart(a[1..], b[1..], key, stamp);
        SubsequenceMember(a[1..], b[1..]);
        StrictCons(a[0], a[1..], key, stamp);
        assert a == [a[0]] + a[1..];
      } else {
        StrictPart(a, b[1..], key, stamp);
      }
    }
  }

  lemma StrictNone(key: Key, stamp: Stamps)
    ensures Strict([], key, stamp)
  {
  }

  /** The last start goes behind all of its timeout. */
  lemma StrictInsert(row: seq<Id>, x: Id, key: Key, stamp: Stamps, n: nat)
    requires Sorted(row, key) && Strict(row, key, stamp) && x !in row && Known1(row, stamp, n)
    ensures Strict(Insert(row, x, key), key, stamp[x := n]) && Known1(Insert(row, x, key), stamp[x := n], n + 1)
  {
    hide Insert, Place;
    var r, p, stamp' := Insert(row, x, key), Place(row, key, key(x)), stamp[x := n];
    InsertAt(row, x, key, 0);
    PlaceSplits(row, key, key(x));
    forall i, j | 0 <= i < j < |r|
      ensures Before(key, stamp', r[i], r[j])
    {
      InsertAt(row, x, key, i);
      InsertAt(row, x, key, j);
      if i != p && j != p {
        assert Before(key, stamp, row[if i < p then i else i - 1], row[if j < p then j else j - 1]);
        assert r[i] in row && r[j] in row;
      } else if j == p {
        assert row[i] in row;
      } else {
        assert row[j - 1] in row;
      }
    }
    forall y | y in r
      ensures y in stamp' && stamp'[y] < n + 1
    {
      InsertHas(row, x, key, y);
    }
  }

  // ---- What a step keeps ------------------------------------------------------------------

  /** Between two events: everything is right as seen from the tick itself, and nothing is due. */
  ghost predicate Idle(h: History) {
    Good(h.s, h.s.now) && h.s.temp == [] && !Fires(h.s) && InOrder(h, h.s.now)
  }

  lemma StartOrder(h: History, x: Id, r: State, o: Tick)
    requires Good(h.s, o) && Fits(h.s, x, o) && InOrder(h, o) && r == Start(h.s, x)
    ensures InOrder(Stamped(h, r, x), o)
  {
    hide Good, Insert, Remove, Start, Sorted, Strict, Age;
    StartFits(h.s, x, o);
    StartTimers(h.s, x);
    var row, key, key' := Remove(Bottom(h.s), x), KeyOf(o, h.s.timers), KeyOf(o, r.timers);
    BottomSorted(h.s, o);
    RemoveMembers(Bottom(h.s), x);
    RemoveSorted(Bottom(h.s), x, key);
    RemovePart(Bottom(h.s), x);
    StrictPart(row, Bottom(h.s), key, h.stamp);
    KeysAgree(row, key, key');
    StrictAgree(row, key, key', h.stamp);
    StrictInsert(row, x, key', h.stamp, h.starts);
  }

  lemma StartTimers(s: State, x: Id)
    requires x in s.timers
    ensures var r := Start(s, x);
      && r.now == s.now && r.timers == s.timers[x := r.timers[x]] && x in r.timers && |r.rows| == |s.rows|
      && r.timers[x].timeout == Add(s.now, s.timers[x].init)
  {
    hide LinkRows, RemoveRows;
  }

  /** A step that starts nothing, and leaves timers out at most. */
  lemma FewerOrder(h: History, r: State, o: Tick)
    requires InOrder(h, o) && Subsequence(Bottom(r), Bottom(h.s))
    requires forall x :: x in Bottom(r) ==> Due(r.timers, x) == Due(h.s.timers, x)
    ensures InOrder(h.(s := r), o)
  {
    hide Subsequence, Strict, Due, Age;
    SubsequenceMember(Bottom(r), Bottom(h.s));
    StrictPart(Bottom(r), Bottom(h.s), KeyOf(o, h.s.timers), h.stamp);
    StrictAgree(Bottom(r), KeyOf(o, h.s.timers), KeyOf(o, r.timers), h.stamp);
  }

  lemma ActOrder(h: History, c: Command, o: Tick)
    requires Good(h.s, o) && InOrder(h, o) && c.id in h.s.timers && (c.DoStart? ==> Fits(h.s, c.id, o))
    ensures InOrder(Act(h, c), o)
  {
    hide Good, InOrder, Start, Fits, Subsequence, Due, Remove;
    match c
    case DoStart(x) => StartOrder(h, x, Start(h.s, x), o);
    case DoStop(x) =>
      StopGood(h.s, x, o);
      RemovePart(Bottom(h.s), x);
      StopTimers(h.s, x);
      FewerOrder(h, Stop(h.s, x), o);
    case _ =>
      SubsequenceSelf(Bottom(h.s));
      RetuneTimers(h.s, c);
      FewerOrder(h, Run1(h.s, c), o);
  }

  lemma StopTimers(s: State, x: Id)
    requires x in s.timers
    ensures forall y :: Due(Stop(s, x).timers, y) == Due(s.timers, y)
  {
    hide RemoveRows;
  }

  lemma RetuneTimers(s: State, c: Command)
    requires c.id in s.timers && !Touching(c)
    ensures Bottom(Run1(s, c)) == Bottom(s) && forall y :: Due(Run1(s, c).timers, y) == Due(s.timers, y)
  {
  }

  lemma StartableFits(s: State, x: Id, o: Tick)
    requires Startable(s, x, o)
    ensures Fits(s, x, o)
  {
  }

  lemma {:induction false} ActAllOrder(h: History, script: Script, o: Tick)
    requires Good(h.s, o) && InOrder(h, o) && Known(h.s.timers, script) && SafeScript(h.s, script, o)
    ensures InOrder(ActAll(h, script), o)
    decreases |script|
  {
    hide Good, InOrder, Run1, Startable, Fits, Known;
    if script != [] {
      KnownTail(h.s.timers, h.s.timers, script);
      Run1Good(h.s, script[0], o);
      if script[0].DoStart? {
        StartableFits(h.s, script[0].id, o);
      }
      ActOrder(h, script[0], o);
      Run1Keys(h.s, script[0]);
      KnownTail(h.s.timers, Run1(h.s, script[0]).timers, script);
      ActAllOrder(Act(h, script[0]), script[1..], o);
    }
  }

  lemma PullOrder(h: History, o: Tick)
    requires Good(h.s, o) && Fires(h.s) && h.s.temp == [] && InOrder(h, o)
    ensures InOrder(h.(s := Pull(h.s)), o)
  {
    hide Good, InOrder, Subsequence;
    PullGood(h.s, o);
    TailPart(Bottom(h.s));
    PullDues(h.s);
    FewerOrder(h, Pull(h.s), o);
  }

  lemma PullDues(s: State)
    requires Fires(s)
    ensures Bottom(s) != [] && Pull(s).now == s.now && forall y :: Due(Pull(s).timers, y) == Due(s.timers, y)
  {
    hide RemoveRows;
  }

  lemma TailPart(row: seq<Id>)
    requires row != []
    ensures Subsequence(row[1..], row)
  {
    SubsequenceSelf(row[1..]);
    assert row == [row[0]] + row[1..];
    SkipFirst(row[1..], row[0], row[1..]);
  }

  lemma SettleOrder(u: History, t: Id, o: Tick)
    requires Good(u.s, o) && InOrder(u, o) && t in u.s.timers && (u.s.temp == [t] || u.s.temp == [])
    requires Restarts(u.s, t) ==> Fits(u.s, t, o)
    ensures InOrder(if Restarts(u.s, t) then Stamped(u, Settle(u.s, t), t) else u.(s := Settle(u.s, t)), o)
  {
    hide Start, RowsOk, InWindow, Strict, Age, Upto;
    if Restarts(u.s, t) {
      var v := u.s.(temp := []);
      TempGood(u.s, v, o);
      var w := v.(timers := v.timers[t := v.timers[t].(active := false)]);
      assert t in u.s.temp;
      SameTicks(v, w, o, t);
      StrictAgree(Bottom(w), KeyOf(o, u.s.timers), KeyOf(o, w.timers), u.stamp);
      StartOrder(u.(s := w), t, Start(w, t), o);
    }
  }

  lemma TurnOrder(h: History, script: Script, o: Tick)
    requires Good(h.s, o) && h.s.temp == [] && Fires(h.s) && Known(h.s.timers, script) && SafeTurn(h.s, script, o)
    requires InOrder(h, o)
    ensures InOrder(TurnOf(h, script), o)
  {
    hide Good, InOrder, Run, SafeScript, Pull, Startable, Settle, Fits;
    PullKeys(h.s);
    PullGood(h.s, o);
    PullOrder(h, o);
    RunGood(Pull(h.s), script, o);
    ActAllOrder(h.(s := Pull(h.s)), script, o);
    var t, u := Bottom(h.s)[0], ActAll(h.(s := Pull(h.s)), script);
    OwnTemp(Pull(h.s), script, t);
    if Restarts(u.s, t) {
      StartableFits(u.s, t, o);
    }
    SettleOrder(u, t, o);
  }
}
