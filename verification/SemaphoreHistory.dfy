/** Semaphores seen from outside: who gets a unit, who waits since when, and where all units are. */
module SemaphoreHistory {
  import opened IpcList
  import opened IpcTurns
  import opened SemaphoreModel
  import opened Sequences

  /** Units to be had, and since when the others wait. */
  datatype Counter = Counter(units: nat, waiting: map<Tid, int>)

  /** A take gets a unit exactly if there is one, or else gives up or waits; a release gives its unit to the
      thread whose turn it is, if any waits, and is refused at 65535; a timeout concerns its own thread. */
  ghost predicate CountStep(x: Counter, a: Action, flag: Flag, prio: Priorities, now: int, y: Counter) {
    match a
    case Take(t, giveUp, _) =>
      if 0 < x.units then y == x.(units := x.units - 1)
      else if giveUp then y == x
      else y == x.(waiting := x.waiting[t := now])
    case Release =>
      if x.waiting != map[] then exists n :: IsNext(x.waiting, flag, prio, n) && y == x.(waiting := x.waiting - {n})
      else y == x.(units := if x.units < VALUE_MAX then x.units + 1 else x.units)
    case Timeout(t) => t in x.waiting && y == x.(waiting := x.waiting - {t})
    case Reset(value) => y == Counter(value % 0x1_0000, map[])
  }

  /** The number of the last take of a thread, or -1. */
  function LastTake(acts: seq<Action>, t: Tid): int {
    if acts == [] then -1
    else
      var n := |acts| - 1;
      if acts[n].Take? && acts[n].t == t then n else LastTake(acts[..n], t)
  }

  function Asked(acts: seq<Action>): Stamps {
    (t: Tid) => LastTake(acts, t)
  }

  ghost function Seen(s: State, acts: seq<Action>): Counter {
    Counter(s.value, WaitingSince(s.list, Asked(acts)))
  }

  /** Priorities do not change, or do not matter. */
  ghost predicate Uses(a: Action, flag: Flag, prio: Priorities) {
    flag == Fifo || !a.Take? || a.prio == prio
  }

  lemma {:induction false} AskedBefore(acts: seq<Action>, t: Tid)
    ensures -1 <= LastTake(acts, t) < |acts|
  {
    if acts != [] {
      AskedBefore(acts[..|acts| - 1], t);
    }
  }

  lemma AskedStep(acts: seq<Action>, a: Action, t: Tid)
    ensures LastTake(acts + [a], t) == if a.Take? && a.t == t then |acts| else LastTake(acts, t)
    ensures LastTake(acts, t) < |acts|
  {
    assert (acts + [a])[..|acts|] == acts;
    AskedBefore(acts, t);
  }

  lemma AskedSame(acts: seq<Action>, a: Action, list: seq<Tid>)
    requires a.Take? ==> a.t !in list
    ensures forall x :: x in list ==> Asked(acts + [a])(x) == Asked(acts)(x) < |acts|
  {
    hide LastTake;
    forall x | x in list
      ensures Asked(acts + [a])(x) == Asked(acts)(x) < |acts|
    {
      AskedStep(acts, a, x);
    }
  }

  lemma TakeSeen(s: State, acts: seq<Action>, a: Action, prio: Priorities)
    requires Inv(s) && Enabled(s, a) && a.Take? && Uses(a, s.flag, prio) && ByTurn(s.list, s.flag, prio, Asked(acts))
    ensures var r := Apply(s, a);
      ByTurn(r.list, r.flag, prio, Asked(acts + [a])) && CountStep(Seen(s, acts), a, s.flag, prio, |acts|, Seen(r, acts + [a]))
  {
    hide LastTake, ByTurn, Distinct, Enlist;
    AskedSame(acts, a, s.list);
    AskedStep(acts, a, a.t);
    SameTurns(s.list, s.flag, prio, prio, Asked(acts), Asked(acts + [a]));
    SinceStep(s.list, Asked(acts), Asked(acts + [a]));
    EnlistTurns(s.list, a.t, s.flag, prio, Asked(acts + [a]));
    SinceEnlisted(s.list, a.t, s.flag, a.prio, Asked(acts), Asked(acts + [a]));
    FifoSame(s.list, a.t, a.prio, prio);
  }

  lemma ReleaseSeen(s: State, acts: seq<Action>, prio: Priorities)
    requires Inv(s) && ByTurn(s.list, s.flag, prio, Asked(acts))
    ensures var a := Action.Release; var r := Apply(s, a);
      ByTurn(r.list, r.flag, prio, Asked(acts + [a])) && CountStep(Seen(s, acts), a, s.flag, prio, |acts|, Seen(r, acts + [a]))
  {
    hide LastTake, ByTurn, Distinct, IsNext, Sooner;
    var a := Action.Release;
    AskedSame(acts, a, s.list);
    SameTurns(s.list, s.flag, prio, prio, Asked(acts), Asked(acts + [a]));
    SinceStep(s.list, Asked(acts), Asked(acts + [a]));
    SinceNone(s.list, Asked(acts));
    if s.list != [] {
      TailTurns(s.list, s.flag, prio, Asked(acts + [a]));
      TailTurns(s.list, s.flag, prio, Asked(acts));
      FirstIsNext(s.list, s.flag, prio, Asked(acts));
      SinceTail(s.list, Asked(acts), Asked(acts + [a]));
    }
  }

  lemma TimeoutSeen(s: State, acts: seq<Action>, a: Action, prio: Priorities)
    requires Inv(s) && Enabled(s, a) && a.Timeout? && ByTurn(s.list, s.flag, prio, Asked(acts))
    ensures var r := Apply(s, a);
      ByTurn(r.list, r.flag, prio, Asked(acts + [a])) && CountStep(Seen(s, acts), a, s.flag, prio, |acts|, Seen(r, acts + [a]))
  {
    hide LastTake, ByTurn, Distinct, Removed;
    AskedSame(acts, a, s.list);
    SameTurns(s.list, s.flag, prio, prio, Asked(acts), Asked(acts + [a]));
    RemovedTurns(s.list, a.t, s.flag, prio, Asked(acts + [a]));
    SinceRemoved(s.list, a.t, Asked(acts), Asked(acts + [a]));
  }

  lemma ResetSeen(s: State, acts: seq<Action>, a: Action, prio: Priorities)
    requires a.Reset?
    ensures var r := ResetTo(s, a.value);
      ByTurn(r.list, r.flag, prio, Asked(acts + [a])) && CountStep(Seen(s, acts), a, s.flag, prio, |acts|, Seen(r, acts + [a]))
  {
    SinceNone([], Asked(acts + [a]));
  }

  lemma StepSeen(s: State, acts: seq<Action>, a: Action, prio: Priorities)
    requires Inv(s) && Enabled(s, a) && Uses(a, s.flag, prio) && ByTurn(s.list, s.flag, prio, Asked(acts))
    ensures var r := Apply(s, a);
      && r.flag == s.flag && ByTurn(r.list, r.flag, prio, Asked(acts + [a]))
      && CountStep(Seen(s, acts), a, s.flag, prio, |acts|, Seen(r, acts + [a]))
  {
    hide Inv, ByTurn, LastTake, CountStep, Seen;
    match a
    case Take(_, _, _) => TakeSeen(s, acts, a, prio);
    case Release => ReleaseSeen(s, acts, prio);
    case Timeout(_) => TimeoutSeen(s, acts, a, prio);
    case Reset(_) => ResetSeen(s, acts, a, prio);
  }

  // ---- Runs -------------------------------------------------------------------------------

  ghost function CounterAt(run: seq<State>, acts: seq<Action>, k: nat): Counter
    requires k < |run| && k <= |acts|
  {
    Seen(run[k], acts[..k])
  }

  lemma {:induction false} RunByTurn(run: seq<State>, acts: seq<Action>, value: nat, flag: Flag, prio: Priorities, k: nat)
    requires IsRun(run, acts, value, flag) && value <= VALUE_MAX && k <= |acts|
    requires forall i :: 0 <= i < |acts| ==> Uses(acts[i], flag, prio)
    ensures Inv(run[k]) && run[k].flag == flag && ByTurn(run[k].list, flag, prio, Asked(acts[..k]))
  {
    hide Inv, Apply, ByTurn, LastTake, Uses;
    RunInv(run, acts, value, flag, k);
    if k == 0 {
      NoTurns(flag, prio, Asked(acts[..0]));
    } else {
      RunByTurn(run, acts, value, flag, prio, k - 1);
      assert IsStep(run[k - 1], acts[k - 1], run[k - 1 + 1]);
      StepSeen(run[k - 1], acts[..k - 1], acts[k - 1], prio);
      assert acts[..k] == acts[..k - 1] + [acts[k - 1]];
    }
  }

  /** Main result: in every run every call gets a unit, gives one, waits or fails exactly as a counter
      would, and units go to the waiting threads in turn. */
  lemma RunSeen(run: seq<State>, acts: seq<Action>, value: nat, flag: Flag, prio: Priorities, k: nat)
    requires IsRun(run, acts, value, flag) && value <= VALUE_MAX && k < |acts|
    requires forall i :: 0 <= i < |acts| ==> Uses(acts[i], flag, prio)
    ensures CountStep(CounterAt(run, acts, k), acts[k], flag, prio, k, CounterAt(run, acts, k + 1))
    ensures CounterAt(run, acts, 0) == Counter(value, map[])
  {
    hide Inv, Apply, ByTurn, LastTake, Uses, CountStep;
    RunByTurn(run, acts, value, flag, prio, k);
    assert IsStep(run[k], acts[k], run[k + 1]);
    StepSeen(run[k], acts[..k], acts[k], prio);
    assert acts[..k + 1] == acts[..k] + [acts[k]];
    SinceNone([], Asked(acts[..0]));
  }

  /** What a call does to the number of units in the semaphore: units given less units taken, at once by a
      take, or by a thread that waits for the release. */
  function Change(s: State, a: Action): int {
    match a
    case Take(_, _, _) => if 0 < s.value then -1 else 0
    case Release => if s.list == [] && s.value < VALUE_MAX then 1 else 0
    case _ => 0
  }

  function Changes(run: seq<State>, acts: seq<Action>, i: nat, k: nat): int
    requires |run| == |acts| + 1 && i <= k <= |acts|
    decreases k
  {
    if i == k then 0 else Changes(run, acts, i, k - 1) + Change(run[k - 1], acts[k - 1])
  }

  /** Between two resets the value changes by the units given and not taken. */
  lemma {:induction false} UnitsCounted(run: seq<State>, acts: seq<Action>, value: nat, flag: Flag, i: nat, k: nat)
    requires IsRun(run, acts, value, flag) && value <= VALUE_MAX && i <= k <= |acts|
    requires forall j :: i <= j < k ==> !acts[j].Reset?
    ensures run[k].value == run[i].value + Changes(run, acts, i, k)
    decreases k
  {
    hide Inv, Enlist;
    if i < k {
      UnitsCounted(run, acts, value, flag, i, k - 1);
      RunInv(run, acts, value, flag, k - 1);
      assert IsStep(run[k - 1], acts[k - 1], run[k - 1 + 1]);
      assert !acts[k - 1].Reset?;
    }
  }
}
