/** The hard timers of the kernel (timer.c): the rows of links, the counter of starts, and the
    methods that walk over them.  What each method does is stated by TimerModel, on the view of
    the object as a state of the model.
 */
module TimerObjects {
  import opened Rings
  import opened RtList
  import opened Sequences
  import opened Ticks
  import TimerHistory
  import TimerLemmas
  import TimerLife
  import opened TimerLinks
  import opened TimerModel
  import opened TimerRuns
  import TimerRows

  class TimerList {
    const levels: nat            // RT_TIMER_SKIP_LIST_LEVEL
    const links: ListPool

    var now: Tick                // rt_tick
    var timers: Timers
    var randomNr: nat

    ghost var rows: seq<seq<Id>>
    ghost var temp: seq<Id>
    ghost var all: set<Node>

    ghost function View(): State
      reads this
    {
      State(now, timers, rows, temp, randomNr)
    }

    ghost predicate Valid()
      reads this, links
    {
      0 < levels == |rows| && RowsLinked(links.L(), rows, temp, timers.Keys, all)
    }

    /** rt_system_timer_init, and the temporary list of rt_timer_check. */
    constructor (levels: nat)
      requires 0 < levels
      ensures Valid() && fresh(links)
      ensures View() == State(0, map[], EmptyRows(levels), [], 0)
    {
      this.levels := levels;
      links := new ListPool();
      now, timers, randomNr := 0, map[], 0;
      rows, temp, all := EmptyRows(levels), [], {};
      new;
      InitHeads();
    }

    method InitHeads()
      requires 0 < levels && rows == EmptyRows(levels) && temp == [] && timers == map[] && all == {}
      modifies links
      ensures Valid()
    {
      hide IsRing, Isolate, NodeOf;
      var i := 0;
      ghost var heads := [];
      while i < levels
        invariant i <= levels == |rows|
        invariant heads == Heads(levels, i) && Linked(links.L(), heads, {})
      {
        HeadLoose(levels, i);
        HeadAdded(links.L(), heads, NodeOf(0, i, levels));
        links.Init(NodeOf(0, i, levels));
        heads := heads + [[NodeOf(0, i, levels)]];
        i := i + 1;
      }
      TempLoose(levels);
      HeadAdded(links.L(), heads, TEMP);
      links.Init(TEMP);
      HeadsAre(levels);
    }

    /** rt_timer_init */
    method Init(x: Id, time: nat, periodic: bool)
      requires Valid() && 0 < x && x !in timers
      modifies this`timers, this`all, links
      ensures Valid() && View() == old(View()).(timers := old(timers)[x := Timer(time, 0, periodic, false)])
    {
      hide IsRing, Isolate, NodeOf, Loose;
      var i := 0;
      while i < levels
        invariant i <= levels && timers == old(timers)
        invariant Linked(links.L(), AllRows(rows, temp), all)
        invariant old(all) <= all && forall r: nat :: r < i ==> NodeOf(x, r, levels) in all
      {
        NodeLoose(rows, temp, x, i);
        AddLinked(links.L(), AllRows(rows, temp), all, NodeOf(x, i, levels));
        links.Init(NodeOf(x, i, levels));
        all := all + {NodeOf(x, i, levels)};
        i := i + 1;
      }
      timers := timers[x := Timer(time, 0, periodic, false)];
    }

    /** _rt_timer_remove */
    method Detach(x: Id)
      requires Valid() && x in timers
      modifies this`rows, this`temp, links
      ensures Valid() && View() == Unlinked(old(View()), x)
    {
      hide Unlink, Isolate, NodeOf, TimerRows.Remove;
      var i := 0;
      while i < levels
        invariant i <= levels == |rows|
        invariant Linked(links.L(), AllRows(rows, temp), all)
        invariant rows == PartlyRemoved(old(rows), x, i)
        invariant temp == if i == levels then TimerRows.Remove(old(temp), x) else old(temp)
      {
        StillApart(old(rows), rows, x, i, temp);
        TakeLinked(links.L(), rows, temp, all, i, x);
        rows, temp := Taken(rows, i, x), TakenTemp(rows, temp, i, x);
        links.Delete(NodeOf(x, i, levels));
        i := i + 1;
      }
      assert rows == RemoveRows(old(rows), x);
      RemovedLinked(old(links.L()), links.L(), old(rows), old(temp), timers.Keys, all, x);
    }

    /** The loops of rt_timer_start that find the place in every row. */
    method FindPlaces(t: Tick) returns (heads: seq<Node>)
      requires Valid()
      ensures |heads| == levels
      ensures forall r :: 0 <= r < levels ==> heads[r] == HeadAt(rows, r, Position(rows, timers, t, r))
    {
      hide Linked, NodeOf, Scan, RowRing, RowsLinked;
      heads := [NodeOf(0, 0, levels)];
      HeadFirst(rows, 0);
      var r := 0;
      while r < levels
        invariant r <= levels && |heads| == if r < levels then r + 1 else r
        invariant forall k :: 0 <= k < r ==> heads[k] == HeadAt(rows, k, Position(rows, timers, t, k))
        invariant r < levels ==> heads[r] == HeadAt(rows, r, From(rows, timers, t, r))
      {
        ghost var q := From(rows, timers, t, r);
        var h := ScanRow(r, heads[r], t, q);
        heads := heads[r := h];
        if r != levels - 1 {
          heads := heads + [h + 1];
          StepDown(links.L(), rows, temp, timers.Keys, all, r, Position(rows, timers, t, r));
        }
        r := r + 1;
      }
    }

    /** The inner loop, on row `r` from node `from` on. */
    method ScanRow(r: nat, from: Node, t: Tick, ghost q: nat) returns (h: Node)
      requires Valid() && r < levels && q <= |rows[r]| && from == HeadAt(rows, r, q)
      ensures h == HeadAt(rows, r, Scan(rows[r], q, timers, t))
    {
      hide Linked, NodeOf, RowRing, RowsLinked;
      h := from;
      ghost var k := q;
      RowFacts(links.L(), rows, temp, timers.Keys, all, r, k);
      while h != links.prev[NodeOf(0, r, levels)]
        invariant q <= k <= |rows[r]| && h == HeadAt(rows, r, k)
        invariant Scan(rows[r], q, timers, t) == Scan(rows[r], k, timers, t)
        invariant NodeOf(0, r, levels) in links.prev
        invariant h == links.prev[NodeOf(0, r, levels)] <==> k == |rows[r]|
        decreases |rows[r]| - k
      {
        RowFacts(links.L(), rows, temp, timers.Keys, all, r, k);
        var p := links.next[h];
        var id := IdOf(p, levels);
        var tick := timers[id].timeout;
        if Sub(tick, t) == 0 {
        } else if Sub(tick, t) < HALF {
          break;
        }
        h := links.next[h];
        k := k + 1;
        RowFacts(links.L(), rows, temp, timers.Keys, all, r, k);
      }
    }

    /** rt_timer_start */
    method Start(x: Id)
      requires Valid() && x in timers
      modifies this`rows, this`temp, this`timers, this`randomNr, links
      ensures Valid() && View() == TimerModel.Start(old(View()), x)
    {
      hide RowsLinked, LinkRows, RemoveRows, TimerRows.Remove, HeadAt, Position, Height;
      Detach(x);
      DetachedAll(old(View()), x, timers.Keys, links.L(), all);
      timers := timers[x := timers[x].(active := false)];
      timers := timers[x := timers[x].(timeout := Add(now, timers[x].init))];
      assert timers.Keys == old(timers).Keys;
      ghost var active := timers[x := timers[x].(active := true)];
      var heads := FindPlaces(timers[x].timeout);
      SameDues(rows, timers, active, timers[x].timeout);
      randomNr := (randomNr + 1) % TICKS;
      LinkUp(x, heads, active);
      timers := timers[x := timers[x].(active := true)];
      assert timers.Keys == old(timers).Keys;
      assert timers == TimerModel.Start(old(View()), x).timers;
    }

    /** The last part of rt_timer_start: links the timer from the bottom row upwards, as high as
        the counter says. */
    method LinkUp(x: Id, heads: seq<Node>, ghost active: Timers)
      requires Valid() && x in timers && x !in temp && TimerLemmas.Without(rows, x) && |heads| == levels
      requires forall r :: 0 <= r < levels ==> heads[r] == HeadAt(rows, r, Position(rows, active, timers[x].timeout, r))
      modifies this`rows, links
      ensures Valid()
      ensures rows == LinkRows(old(rows), active, x, timers[x].timeout, levels - Height(randomNr, levels))
    {
      hide RowsLinked, LinkRows, NodeOf, HeadAt, LinkAfter;
      ghost var t, before := timers[x].timeout, rows;
      LinkNone(before, active, x, t);
      var tst: nat := randomNr;
      LinkOne(levels - 1, x, heads, before, active);
      var k := 1;
      while k < levels
        invariant 1 <= k <= levels
        invariant Valid() && rows == LinkRows(before, active, x, t, levels - k)
        invariant Height(randomNr, levels) == k - 1 + Height(tst, levels - k + 1)
      {
        if tst % MASK_PLUS != 0 {
          break;
        }
        LinkOne(levels - 1 - k, x, heads, before, active);
        tst := tst / MASK_PLUS;
        k := k + 1;
      }
    }

    /** rt_list_insert_after in row `r`, when the rows below are done. */
    method LinkOne(r: nat, x: Id, heads: seq<Node>, ghost before: seq<seq<Id>>, ghost active: Timers)
      requires Valid() && x in timers && x !in temp && TimerLemmas.Without(before, x) && |before| == levels && r < levels
      requires |heads| == levels
      requires forall k :: 0 <= k < levels ==> heads[k] == HeadAt(before, k, Position(before, active, timers[x].timeout, k))
      requires rows == LinkRows(before, active, x, timers[x].timeout, r + 1)
      modifies this`rows, links
      ensures Valid() && rows == LinkRows(before, active, x, timers[x].timeout, r)
    {
      hide Linked, IsRing, NodeOf, LinkAfter, RowRing, Position;
      ghost var p := Position(before, active, timers[x].timeout, r);
      LinkStep(before, active, x, timers[x].timeout, r);
      PutLinked(links.L(), rows, temp, timers.Keys, all, r, p, x);
      AtRow(links.L(), rows, temp, all, r);
      NodeOutside(links.L(), rows, temp, timers.Keys, all, r, x);
      links.InsertAfter(heads[r], NodeOf(x, r, levels), RowRing(rows[r], r, levels), p);
      rows := rows[r := PutAt(rows[r], p, x)];
    }

    /** rt_timer_stop */
    method Stop(x: Id) returns (ok: bool)
      requires Valid() && x in timers
      modifies this`rows, this`temp, this`timers, links
      ensures Valid() && View() == TimerModel.Stop(old(View()), x)
      ensures ok == old(timers)[x].active
    {
      if !timers[x].active {
        return false;
      }
      Detach(x);
      timers := timers[x := timers[x].(active := false)];
      ok := true;
    }

    /** rt_timer_control, as far as it changes the timer. */
    method Control(c: Command)
      requires Valid() && c.id in timers && !c.DoStart? && !c.DoStop?
      modifies this`timers
      ensures Valid() && View() == Run1(old(View()), c)
    {
      hide RowsLinked;
      var x := c.id;
      match c {
        case SetTime(_, n) => timers := timers[x := timers[x].(init := n)];
        case SetOneShot(_) => timers := timers[x := timers[x].(periodic := false)];
        case SetPeriodic(_) => timers := timers[x := timers[x].(periodic := true)];
      }
      assert timers.Keys == old(timers).Keys;
    }

    /** A callback, as the calls it makes. */
    method Callback(script: Script)
      requires Valid() && Known(timers, script)
      modifies this`rows, this`temp, this`timers, this`randomNr, links
      ensures Valid() && View() == Run(old(View()), script)
    {
      hide RowsLinked, Run1, Known;
      var i := 0;
      assert script[0..] == script;
      while i < |script|
        invariant i <= |script| && Valid()
        invariant Known(timers, script[i..])
        invariant Run(old(View()), script) == Run(View(), script[i..])
      {
        var c := script[i];
        assert script[i..][1..] == script[i + 1..];
        KnownTail(timers, timers, script[i..]);
        Run1Keys(View(), c);
        KnownTail(timers, Run1(View(), c).timers, script[i..]);
        Perform(c);
        i := i + 1;
      }
    }

    method Perform(c: Command)
      requires Valid() && c.id in timers
      modifies this`rows, this`temp, this`timers, this`randomNr, links
      ensures Valid() && View() == Run1(old(View()), c)
    {
      hide RowsLinked, TimerModel.Start, TimerModel.Stop;
      match c {
        case DoStart(x) => Start(x);
        case DoStop(x) => var ok := Stop(x);
        case _ => Control(c);
      }
    }

    /** The part of rt_timer_check before the callback. */
    method PullFirst(t: Id)
      requires Valid() && TimerModel.Fires(View()) && Bottom(View())[0] == t && temp == []
      modifies this`rows, this`temp, this`timers, links
      ensures Valid() && View() == Pull(old(View()))
    {
      hide Linked, IsRing, NodeOf, LinkAfter, TimerRows.Remove;
      Gone(View(), t);
      Detach(t);
      if !timers[t].periodic {
        timers := timers[t := timers[t].(active := false)];
      }
      assert timers.Keys == old(timers).Keys;
      TempLinked(links.L(), rows, timers.Keys, all, t);
      AtTemp(links.L(), rows, temp, all);
      TempOutside(t, levels);
      links.InsertAfter(TEMP, NodeOf(t, levels - 1, levels), TempRing(temp, levels), 0);
      temp := [t];
    }

    /** The part of rt_timer_check behind the callback. */
    method SettleLast(t: Id)
      requires Valid() && t in timers && (temp == [t] || temp == [])
      modifies this`rows, this`temp, this`timers, this`randomNr, links
      ensures Valid() && View() == Settle(old(View()), t)
    {
      hide Linked, IsRing, NodeOf, Unlink, Isolate, TimerModel.Start;
      AtTemp(links.L(), rows, temp, all);
      RingNeighbours(links.L(), TempRing(temp, levels), 0);
      if links.next[TEMP] == TEMP {
        return;
      }
      TakeLinked(links.L(), rows, temp, all, levels - 1, t);
      TempAt(t, levels);
      TimerRows.RemoveAbsent(rows[levels - 1], t);
      assert Taken(rows, levels - 1, t) == rows;
      links.Delete(NodeOf(t, levels - 1, levels));
      temp := [];
      if timers[t].periodic && timers[t].active {
        timers := timers[t := timers[t].(active := false)];
        assert timers.Keys == old(timers).Keys;
        Start(t);
      }
    }

    /** The first timer of the bottom row, if any. */
    method First() returns (t: int)
      requires Valid()
      ensures t == if Bottom(View()) == [] then -1 else Bottom(View())[0]
    {
      hide RowsLinked, RowRing;
      ghost var r := levels - 1;
      RowFacts(links.L(), rows, temp, timers.Keys, all, r, 0);
      HeadFirst(rows, r);
      HeadEmpty(links.L(), rows, temp, timers.Keys, all, r);
      var head := NodeOf(0, levels - 1, levels);
      if links.next[head] == head {
        t := -1;
      } else {
        t := IdOf(links.next[head], levels);
      }
    }

    /** One turn of the loop of rt_timer_check. */
    method Fire(t: Id, script: Script)
      requires Valid() && TimerModel.Fires(View()) && Bottom(View())[0] == t && temp == [] && Known(timers, script)
      modifies this`rows, this`temp, this`timers, this`randomNr, links
      ensures Valid() && View() == Turn(old(View()), script)
    {
      hide RowsLinked, Run, Pull, Settle;
      PullKeys(View());
      PullFirst(t);
      OwnTemp(View(), script, t);
      Callback(script);
      SettleLast(t);
    }

    /** rt_timer_check.  The i-th callback makes the calls `scripts(i)`, whatever they are, as long
        as every start is a safe one. */
    method Check(scripts: nat -> Script, ghost o: Tick) returns (ghost run: seq<State>, ghost used: seq<Script>)
      requires Valid() && Good(View(), o) && temp == []
      requires AlwaysSafe(View(), scripts, o)
      modifies this`rows, this`temp, this`timers, this`randomNr, links
      ensures Valid() && IsCheck(run, used, o)
      ensures run[0] == old(View()) && run[|used|] == View() && !TimerModel.Fires(View())
      ensures forall i :: 0 <= i < |used| ==> used[i] == scripts(i)
    {
      hide RowsLinked, Good, Turn, DuePart, Struck, SafeTurn, AlwaysSafe, IsCheck;
      CheckNone(View(), o);
      run, used := [View()], [];
      ghost var start := View();
      ghost var n := 0;
      var count := 0;
      var t := First();
      FirstKnown(View(), o);
      while t >= 0 && Expired(now, timers[t].timeout)
        invariant Valid() && IsCheck(run, used, o) && count == |used| && |run| == |used| + 1
        invariant run[0] == start == old(View()) && run[|used|] == View()
        invariant forall i :: 0 <= i < |used| ==> used[i] == scripts(i)
        invariant Good(View(), o) && temp == []
        invariant t == if Bottom(View()) == [] then -1 else Bottom(View())[0]
        invariant t >= 0 ==> t in timers
        decreases |DuePart(View(), o)|
      {
        NextSafe(run, used, start, scripts, o);
        ghost var s, script := View(), scripts(count);
        TurnGood(s, script, o);
        TurnShrinks(s, script, o);
        Fire(t, scripts(count));
        CheckMore(run, used, script, View(), o);
        run, used := run + [View()], used + [script];
        count := count + 1;
        t := First();
        FirstKnown(View(), o);
      }
    }

    /** The tick and timer part of rt_tick_increase.  Between two ticks nothing is due, and the window
        of the comparisons begins at the tick itself. */
    method Tick(scripts: nat -> Script) returns (ghost used: seq<Script>)
      requires Valid() && AtRest(View())
      requires AlwaysSafe(View().(now := Add(now, 1)), scripts, Add(now, 1))
      modifies this`now, this`rows, this`temp, this`timers, this`randomNr, links
      ensures Valid() && AtRest(View()) && now == Add(old(now), 1)
      ensures forall i :: 0 <= i < |used| ==> used[i] == scripts(i)
      ensures IsTick(old(View()), used, View())
    {
      hide RowsLinked, Good, AlwaysSafe, IsCheck, TimerModel.Fires, TimerHistory.CanCheck;
      TickRest(View());
      ghost var before := View();
      now := (now + 1) % TICKS;
      ghost var run;
      run, used := Check(scripts, now);
      TickDone(before, run, used);
    }
  }

  /** Nothing is due, and everything pending lies within half of the tick range from now on. */
  ghost predicate AtRest(s: State) {
    Good(s, s.now) && s.temp == [] && !TimerModel.Fires(s)
  }

  /** A tick of TimerHistory, whatever the starts before it were. */
  ghost predicate IsTick(s: State, used: seq<Script>, r: State) {
    forall h: TimerHistory.History :: h.s == s ==>
      TimerHistory.CanCheck(TimerHistory.Ticked(h), used) && TimerHistory.Checked(TimerHistory.Ticked(h), used).s == r
  }

  lemma TickRest(s: State)
    requires AtRest(s)
    ensures var r := s.(now := Add(s.now, 1)); Good(r, r.now) && r.temp == []
  {
    hide Good;
    TimerLife.TickFits(s);
  }

  lemma TickDone(s: State, run: seq<State>, used: seq<Script>)
    requires IsCheck(run, used, Add(s.now, 1)) && run[0] == s.(now := Add(s.now, 1)) && !TimerModel.Fires(run[|used|])
    ensures IsTick(s, used, run[|used|]) && AtRest(run[|used|]) && run[|used|].now == Add(s.now, 1)
  {
    hide Good, IsTurn, TimerModel.Fires, TimerHistory.CanCheck, TimerHistory.Checked;
    CheckFires(run, used, Add(s.now, 1));
    forall h: TimerHistory.History | h.s == s
      ensures TimerHistory.CanCheck(TimerHistory.Ticked(h), used)
      ensures TimerHistory.Checked(TimerHistory.Ticked(h), used).s == run[|used|]
    {
      TimerLife.CheckIsStep(TimerHistory.Ticked(h), run, used);
    }
    TimerLife.CheckNow(run, used, Add(s.now, 1));
  }

  lemma DetachedAll(s: State, x: Id, ids: set<Id>, l: Links, all: set<Node>)
    requires 0 < |s.rows| && RowsLinked(l, Unlinked(s, x).rows, Unlinked(s, x).temp, ids, all)
    ensures TimerLemmas.Without(Unlinked(s, x).rows, x) && x !in Unlinked(s, x).temp
  {
    hide RowsLinked;
    forall r | 0 <= r < |s.rows|
      ensures x !in Unlinked(s, x).rows[r]
    {
      TimerRows.RemoveMembers(s.rows[r], x);
    }
    TimerRows.RemoveMembers(s.temp, x);
  }

  lemma {:induction false} SameScan(row: seq<Id>, p: nat, timers: Timers, timers': Timers, t: Tick)
    requires p <= |row| && forall y :: Due(timers, y) == Due(timers', y)
    ensures Scan(row, p, timers, t) == Scan(row, p, timers', t)
    decreases |row| - p
  {
    if p < |row| {
      SameScan(row, p + 1, timers, timers', t);
    }
  }

  lemma {:induction false} SamePosition(rows: seq<seq<Id>>, timers: Timers, timers': Timers, t: Tick, r: nat)
    requires r < |rows| && forall y :: Due(timers, y) == Due(timers', y)
    ensures Position(rows, timers, t, r) == Position(rows, timers', t, r)
  {
    hide Due, Scan;
    if r == 0 {
      SameScan(rows[0], 0, timers, timers', t);
    } else {
      SamePosition(rows, timers, timers', t, r - 1);
      SameScan(rows[r], Down(rows[r - 1], Position(rows, timers, t, r - 1), rows[r]), timers, timers', t);
    }
  }

  lemma SameDues(rows: seq<seq<Id>>, timers: Timers, timers': Timers, t: Tick)
    requires forall y :: Due(timers, y) == Due(timers', y)
    ensures forall r :: 0 <= r < |rows| ==> Position(rows, timers, t, r) == Position(rows, timers', t, r)
  {
    hide Due, Position;
    forall r | 0 <= r < |rows|
      ensures Position(rows, timers, t, r) == Position(rows, timers', t, r)
    {
      SamePosition(rows, timers, timers', t, r);
    }
  }

  lemma LinkNone(rows: seq<seq<Id>>, timers: Timers, x: Id, t: Tick)
    ensures LinkRows(rows, timers, x, t, |rows|) == rows
  {
  }

  lemma LinkStep(rows: seq<seq<Id>>, timers: Timers, x: Id, t: Tick, r: nat)
    requires r < |rows| && TimerLemmas.Without(rows, x)
    ensures var q, p := LinkRows(rows, timers, x, t, r + 1), Position(rows, timers, t, r);
      && q[r] == rows[r] && x !in q[r]
      && LinkRows(rows, timers, x, t, r) == q[r := PutAt(rows[r], p, x)]
      && (r + 1 < |rows| ==> x in q[r + 1])
  {
    hide Position;
    if r + 1 < |rows| {
      PutHas(rows[r + 1], Position(rows, timers, t, r + 1), x);
    }
  }

  lemma NodeOutside(l: Links, rows: seq<seq<Id>>, temp: seq<Id>, ids: set<Id>, all: set<Node>, r: nat, x: Id)
    requires RowsLinked(l, rows, temp, ids, all) && r < |rows| && x in ids && x !in rows[r] && x !in temp
    ensures NodeOf(x, r, |rows|) !in RowRing(rows[r], r, |rows|)
  {
    hide Linked, NodeOf;
    NotInRow(rows[r], r, |rows|, x, r);
  }

  /** Whatever the callbacks so far have done, the next one starts timers safely. */
  ghost predicate AlwaysSafe(start: State, scripts: nat -> Script, o: Tick) {
    forall run: seq<State>, used: seq<Script> {:trigger IsCheck(run, used, o)} ::
      IsCheck(run, used, o) && run[0] == start && (forall i :: 0 <= i < |used| ==> used[i] == scripts(i))
        && TimerModel.Fires(run[|used|]) ==>
      var s := run[|used|];
      Known(s.timers, scripts(|used|)) && SafeTurn(s, scripts(|used|), o)
  }

  lemma NextSafe(run: seq<State>, used: seq<Script>, start: State, scripts: nat -> Script, o: Tick)
    requires AlwaysSafe(start, scripts, o) && IsCheck(run, used, o) && run[0] == start
    requires TimerModel.Fires(run[|used|]) && forall i :: 0 <= i < |used| ==> used[i] == scripts(i)
    ensures Known(run[|used|].timers, scripts(|used|)) && SafeTurn(run[|used|], scripts(|used|), o)
  {
    hide IsCheck, SafeTurn;
  }

  lemma CheckNone(s: State, o: Tick)
    requires Good(s, o) && s.temp == []
    ensures IsCheck([s], [], o)
  {
  }

  lemma CheckMore(run: seq<State>, used: seq<Script>, script: Script, r: State, o: Tick)
    requires IsCheck(run, used, o) && IsTurn(run[|used|], script, r, o)
    ensures IsCheck(run + [r], used + [script], o)
  {
    hide Good, IsTurn;
    var run', used' := run + [r], used + [script];
    forall i | 0 <= i < |used'|
      ensures IsTurn(run'[i], used'[i], run'[i + 1], o)
    {
      assert i < |used| ==> IsTurn(run[i], used[i], run[i + 1], o);
    }
  }

  lemma TurnShrinks(s: State, script: Script, o: Tick)
    requires TimerModel.Fires(s) && Known(s.timers, script) && DuePart(s, o) != []
    requires DuePart(Turn(s, script), o) == Struck(DuePart(s, o)[1..], script)
    ensures |DuePart(Turn(s, script), o)| < |DuePart(s, o)|
  {
    hide DuePart, Turn;
  }

  lemma FirstKnown(s: State, o: Tick)
    requires Good(s, o)
    ensures Bottom(s) != [] ==> Bottom(s)[0] in s.timers
  {
    hide TimerLemmas.RowsOk;
    assert Bottom(s) != [] ==> Bottom(s)[0] in Bottom(s);
  }

  lemma Gone(s: State, t: Id)
    requires s.rows != []
    ensures t !in Bottom(Unlinked(s, t)) && TimerRows.Remove([], t) == []
  {
    TimerRows.RemoveMembers(Bottom(s), t);
  }

  lemma TempOutside(t: Id, levels: nat)
    requires 0 < levels
    ensures NodeOf(t, levels - 1, levels) !in TempRing([], levels) && TempRing([], levels) == [TEMP]
    ensures Inserted(TempRing([], levels), 0, NodeOf(t, levels - 1, levels)) == TempRing([t], levels)
  {
    NotInTemp([], levels, t, levels - 1);
    TempRingPut(t, levels);
  }

  lemma HeadEmpty(l: Links, rows: seq<seq<Id>>, temp: seq<Id>, ids: set<Id>, all: set<Node>, r: nat)
    requires RowsLinked(l, rows, temp, ids, all) && r < |rows|
    ensures var h := NodeOf(0, r, |rows|); h in l.next && (l.next[h] == h <==> rows[r] == [])
  {
    hide Linked, IsRing;
    AtRow(l, rows, temp, all, r);
    RingNeighbours(l, RowRing(rows[r], r, |rows|), 0);
  }

  /** The node a scan is at after `p` timers of row `r`. */
  ghost function HeadAt(rows: seq<seq<Id>>, r: nat, p: nat): Node
    requires r < |rows| && p <= |rows[r]|
  {
    RowRing(rows[r], r, |rows|)[p]
  }

  /** Where the scan of a row begins. */
  ghost function From(rows: seq<seq<Id>>, timers: Timers, t: Tick, r: nat): (p: nat)
    requires r < |rows|
    ensures p <= |rows[r]|
    ensures Position(rows, timers, t, r) == Scan(rows[r], p, timers, t)
  {
    if r == 0 then 0 else Down(rows[r - 1], Position(rows, timers, t, r - 1), rows[r])
  }

  lemma HeadFirst(rows: seq<seq<Id>>, r: nat)
    requires r < |rows|
    ensures HeadAt(rows, r, 0) == NodeOf(0, r, |rows|)
  {
  }

  /** What the links say at a position of a row. */
  lemma RowFacts(l: Links, rows: seq<seq<Id>>, temp: seq<Id>, ids: set<Id>, all: set<Node>, r: nat, k: nat)
    requires RowsLinked(l, rows, temp, ids, all) && r < |rows| && k <= |rows[r]|
    ensures var h := HeadAt(rows, r, k);
      && NodeOf(0, r, |rows|) in l.prev && h in l.next
      && (h == l.prev[NodeOf(0, r, |rows|)] <==> k == |rows[r]|)
      && (k < |rows[r]| ==>
            && l.next[h] == HeadAt(rows, r, k + 1) == NodeOf(rows[r][k], r, |rows|) >= 0
            && IdOf(l.next[h], |rows|) == rows[r][k] && rows[r][k] in ids)
  {
    hide Linked, IsRing;
    AtRow(l, rows, temp, all, r);
    var s := RowRing(rows[r], r, |rows|);
    RingNeighbours(l, s, k);
    RingNeighbours(l, s, 0);
    if k < |rows[r]| {
      RowAt(rows[r], r, |rows|, k);
      NodeIs(rows[r][k], r, |rows|);
    }
  }

  /** One row down, the same timer is the next node in memory. */
  lemma StepDown(l: Links, rows: seq<seq<Id>>, temp: seq<Id>, ids: set<Id>, all: set<Node>, r: nat, p: nat)
    requires RowsLinked(l, rows, temp, ids, all) && r + 1 < |rows| && p <= |rows[r]|
    ensures HeadAt(rows, r, p) + 1 == HeadAt(rows, r + 1, Down(rows[r], p, rows[r + 1]))
  {
    hide Linked;
    if 0 < p {
      RowAt(rows[r], r, |rows|, p - 1);
      assert rows[r][p - 1] in rows[r] && rows[r][p - 1] in rows[r + 1];
      RowAt(rows[r + 1], r + 1, |rows|, IndexOf(rows[r + 1], rows[r][p - 1]));
    }
  }

  ghost function EmptyRows(levels: nat): (rows: seq<seq<Id>>)
    ensures |rows| == levels && forall r :: 0 <= r < levels ==> rows[r] == []
  {
    seq(levels, _ => [])
  }

  ghost function Heads(levels: nat, n: nat): (s: seq<seq<Node>>)
    ensures |s| == n
  {
    seq(n, r requires 0 <= r < n => [NodeOf(0, r, levels)])
  }

  lemma HeadLoose(levels: nat, n: nat)
    ensures Loose(Heads(levels, n), NodeOf(0, n, levels))
    ensures Heads(levels, n + 1) == Heads(levels, n) + [[NodeOf(0, n, levels)]]
  {
  }

  lemma TempLoose(levels: nat)
    ensures Loose(Heads(levels, levels), TEMP)
  {
  }

  lemma HeadsAre(levels: nat)
    requires 0 < levels
    ensures AllRows(EmptyRows(levels), []) == Heads(levels, levels) + [[TEMP]]
  {
    var rows := EmptyRows(levels);
    var s, q := AllRows(rows, []), Heads(levels, levels) + [[TEMP]];
    forall r | 0 <= r < levels + 1
      ensures s[r] == q[r]
    {
      if r < levels {
        assert rows[r] == [] && RowRing([], r, levels) == [NodeOf(0, r, levels)];
      }
    }
  }

  ghost function PartlyRemoved(rows: seq<seq<Id>>, x: Id, n: nat): (r: seq<seq<Id>>)
    ensures |r| == |rows|
  {
    seq(|rows|, r requires 0 <= r < |rows| => if r < n then TimerRows.Remove(rows[r], x) else rows[r])
  }

  lemma StillApart(before: seq<seq<Id>>, rows: seq<seq<Id>>, x: Id, i: nat, temp: seq<Id>)
    requires i < |before| && rows == PartlyRemoved(before, x, i)
    requires forall y :: y in temp ==> y !in before[|before| - 1]
    ensures forall y :: y in temp ==> y !in rows[|rows| - 1]
  {
  }

  lemma RemovedLinked(l: Links, m: Links, rows: seq<seq<Id>>, temp: seq<Id>, ids: set<Id>, all: set<Node>, x: Id)
    requires RowsLinked(l, rows, temp, ids, all)
    requires Linked(m, AllRows(RemoveRows(rows, x), TimerRows.Remove(temp, x)), all)
    ensures RowsLinked(m, RemoveRows(rows, x), TimerRows.Remove(temp, x), ids, all)
  {
    hide Linked;
    var q := RemoveRows(rows, x);
    forall r, y | 0 <= r < |rows|
      ensures y in q[r] <==> y in rows[r] && y != x
    {
      TimerRows.RemoveMembers(rows[r], x);
    }
    TimerRows.RemoveMembers(temp, x);
    RemoveShrinks(temp, x);
  }
}
