/** When rt_timer_check comes to an end by itself: callbacks that make no timer calls, and periodic
    timers of any period, also of no tick at all.
 */
module TimerSpins {
  import opened Sequences
  import opened Ticks
  import opened TimerLemmas
  import opened TimerModel
  import opened TimerRows
  import opened TimerRuns

  /** One turn of the loop, if it goes round once more. */
  function Quiet(s: State): State {
    if Fires(s) then Turn(s, []) else s
  }

  function Spun(s: State, n: nat): State {
    if n == 0 then s else Quiet(Spun(s, n - 1))
  }

  /** What rt_timer_start asserts of the periods, for the timers that will be started again. */
  ghost predicate RestartsFit(s: State, o: Tick) {
    forall x :: x in DuePart(s, o) && x in s.timers && s.timers[x].periodic ==> Fits(s, x, o)
  }

  predicate ZeroPeriod(s: State, x: Id) {
    x in s.timers && s.timers[x].periodic && s.timers[x].init == 0
  }

  ghost predicate Ready(s: State, o: Tick) {
    Good(s, o) && s.temp == [] && RestartsFit(s, o)
  }

  /** Which timers are due after a turn: those that were, but for the one that fired, which is due
      again if its period is no tick. */
  lemma QuietStep(s: State, o: Tick)
    requires Ready(s, o) && Fires(s)
    ensures var t, r := Bottom(s)[0], Turn(s, []);
      && Ready(r, o)
      && (forall x :: ZeroPeriod(r, x) <==> ZeroPeriod(s, x))
      && (forall x :: x in DuePart(r, o) <==> x in DuePart(s, o) && (x != t || ZeroPeriod(s, t)))
  {
    hide Good, DuePart, Settle, Pull;
    var t, p, r := Bottom(s)[0], Pull(s), Turn(s, []);
    PullKeys(s);
    PullGood(s, o);
    PullIs(s, o);
    DueIsExpired(s, o);
    assert r == Settle(p, t);
    assert DuePart(s, o)[0] in DuePart(s, o);
    TailMembers(DuePart(s, o), t, DuePart(p, o));
    if s.timers[t].periodic {
      Restarted(p, t, o);
    } else {
      NotRestarted(p, t, o);
    }
  }

  lemma TailMembers(row: seq<Id>, t: Id, rest: seq<Id>)
    requires row == [t] + rest && Distinct(row)
    ensures forall x :: x in rest <==> x in row && x != t
  {
    TailDistinct(row);
    assert row[1..] == rest;
  }

  lemma PullIs(s: State, o: Tick)
    requires Good(s, o) && Fires(s)
    ensures var t, p := Bottom(s)[0], Pull(s);
      && t in s.timers && p.now == s.now && p.timers.Keys == s.timers.Keys
      && p.timers[t].active == s.timers[t].periodic
      && forall x :: x in s.timers ==> p.timers[x].init == s.timers[x].init && p.timers[x].periodic == s.timers[x].periodic
  {
    hide RowsOk, InWindow;
    assert Bottom(s)[0] in Bottom(s);
  }

  lemma Restarted(p: State, t: Id, o: Tick)
    requires Good(p, o) && p.temp == [t] && t in p.timers && p.timers[t].periodic && p.timers[t].active && Fits(p, t, o)
    requires t !in DuePart(p, o)
    ensures var r := Settle(p, t);
      && Good(r, o) && r.temp == [] && r.now == p.now && r.timers.Keys == p.timers.Keys
      && (forall x :: x in p.timers ==> r.timers[x].init == p.timers[x].init && r.timers[x].periodic == p.timers[x].periodic)
      && (forall x :: x in DuePart(r, o) <==> x in DuePart(p, o) || (x == t && p.timers[t].init == 0))
  {
    hide Good, DuePart, Start, Insert, Expired, Age;
    var v := p.(temp := []);
    var w := v.(timers := v.timers[t := v.timers[t].(active := false)]);
    var r := Settle(p, t);
    NoTempGood(p, o);
    OutOfList(p, t, o);
    SameTicks(v, w, o, t);
    StartFits(w, t, o);
    StartKeeps(w, t);
    DueIsExpired(w, o);
    DueIsExpired(r, o);
    WindowOf(r, t, o);
    ExpiredIff(o, r.now, r.timers[t].timeout);
    RemoveMembers(Bottom(w), t);
    RemoveNone(t);
    forall x
      ensures x in Bottom(r) <==> x in Bottom(w) || x == t
    {
      InsertHas(Remove(Bottom(w), t), t, KeyOf(o, r.timers), x);
    }
  }

  lemma RemoveNone(t: Id)
    ensures Remove([], t) == []
  {
  }

  lemma NoTempGood(p: State, o: Tick)
    requires Good(p, o)
    ensures Good(p.(temp := []), o) && DuePart(p.(temp := []), o) == DuePart(p, o)
  {
    hide RowsOk, InWindow, Upto;
    TempGood(p, p.(temp := []), o);
  }

  lemma OutOfList(p: State, t: Id, o: Tick)
    requires Good(p, o) && p.temp == [t]
    ensures t !in Bottom(p)
  {
    hide RowsOk, InWindow;
    assert t in p.temp;
  }

  lemma WindowOf(r: State, t: Id, o: Tick)
    requires Good(r, o) && t in Bottom(r)
    ensures t in r.timers && Age(o, r.now) < HALF && Age(o, r.timers[t].timeout) < HALF
  {
    hide RowsOk, Age;
  }

  lemma StartKeeps(w: State, t: Id)
    requires t in w.timers
    ensures var r := Start(w, t);
      && r.now == w.now && r.timers == w.timers[t := r.timers[t]] && t in r.timers
      && r.timers[t].init == w.timers[t].init && r.timers[t].periodic == w.timers[t].periodic
  {
    hide LinkRows, RemoveRows;
  }

  lemma NotRestarted(p: State, t: Id, o: Tick)
    requires Good(p, o) && p.temp == [t] && t in p.timers && !p.timers[t].periodic
    ensures Settle(p, t) == p.(temp := []) && Good(Settle(p, t), o) && DuePart(Settle(p, t), o) == DuePart(p, o)
  {
    hide Good, DuePart;
    NoTempGood(p, o);
  }

  // ---- With a period of no tick -----------------------------------------------------------

  lemma SomethingDue(s: State, x: Id, o: Tick)
    requires Good(s, o) && x in DuePart(s, o)
    ensures Fires(s)
  {
    hide Good, Fires, DuePart, Expired;
    DueIsExpired(s, o);
    if !Fires(s) {
      NoneDue(s, o);
    }
  }

  lemma {:induction false} Spins(s: State, o: Tick, x: Id, n: nat)
    requires Ready(s, o) && x in DuePart(s, o) && ZeroPeriod(s, x)
    ensures var r := Spun(s, n); Ready(r, o) && x in DuePart(r, o) && ZeroPeriod(r, x) && Fires(r)
  {
    hide Good, DuePart, Turn, RestartsFit, ZeroPeriod;
    if n == 0 {
      SomethingDue(s, x, o);
    } else {
      Spins(s, o, x, n - 1);
      QuietStep(Spun(s, n - 1), o);
      SomethingDue(Spun(s, n), x, o);
    }
  }

  // ---- Without ----------------------------------------------------------------------------

  lemma {:induction false} SpunLater(s: State, n: nat)
    ensures Spun(Quiet(s), n) == Spun(s, n + 1)
  {
    hide Quiet;
    if n > 0 {
      SpunLater(s, n - 1);
    }
  }

  lemma QuietShrinks(s: State, o: Tick)
    requires Ready(s, o) && Fires(s) && forall x :: x in DuePart(s, o) ==> !ZeroPeriod(s, x)
    ensures Ready(Turn(s, []), o) && |DuePart(Turn(s, []), o)| < |DuePart(s, o)|
    ensures forall x :: x in DuePart(Turn(s, []), o) ==> !ZeroPeriod(Turn(s, []), x)
  {
    hide Good, DuePart, Turn, ZeroPeriod;
    var t := Bottom(s)[0];
    QuietStep(s, o);
    SafeQuiet(s, o);
    TurnGood(s, [], o);
  }

  lemma SafeQuiet(s: State, o: Tick)
    requires Ready(s, o) && Fires(s) && forall x :: x in DuePart(s, o) ==> !ZeroPeriod(s, x)
    ensures SafeTurn(s, [], o)
  {
    hide Good, DuePart, Pull;
    PullGood(s, o);
    PullIs(s, o);
    assert DuePart(s, o)[0] in DuePart(s, o);
  }

  lemma {:induction false} Ends(s: State, o: Tick)
    requires Ready(s, o) && forall x :: x in DuePart(s, o) ==> !ZeroPeriod(s, x)
    ensures exists n: nat :: n <= |DuePart(s, o)| && !Fires(Spun(s, n))
    decreases |DuePart(s, o)|
  {
    hide Ready, DuePart, Turn, Fires, ZeroPeriod;
    if Fires(s) {
      QuietShrinks(s, o);
      Ends(Turn(s, []), o);
      var n: nat :| n <= |DuePart(Turn(s, []), o)| && !Fires(Spun(Turn(s, []), n));
      SpunLater(s, n);
      assert !Fires(Spun(s, n + 1));
    } else {
      assert !Fires(Spun(s, 0));
    }
  }

  /** Main result: with callbacks that make no timer calls the check comes to an end exactly when no
      periodic timer that is due has a period of no tick. */
  lemma EndsIff(s: State, o: Tick)
    requires Good(s, o) && s.temp == [] && RestartsFit(s, o)
    ensures (exists n: nat :: !Fires(Spun(s, n))) <==> forall x :: x in DuePart(s, o) ==> !ZeroPeriod(s, x)
  {
    hide Good, DuePart, Fires, ZeroPeriod, Spun, RestartsFit;
    if x: Id :| x in DuePart(s, o) && ZeroPeriod(s, x) {
      forall n: nat
        ensures Fires(Spun(s, n))
      {
        Spins(s, o, x, n);
      }
    } else {
      Ends(s, o);
    }
  }
}
