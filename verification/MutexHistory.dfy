/** Mutexes seen from outside: which calls succeed, who owns a mutex and how often, and who gets it
    next, in terms of the calls made so far.
 */
module MutexHistory {
  import opened IpcList
  import opened IpcTurns
  import opened MutexLemmas
  import opened MutexModel
  import opened MutexRuns
  import opened Sequences

  /** A recursive lock: its owner, how often it is held, and since when the others wait. */
  datatype Lock = Lock(owner: Owner, holds: nat, waiting: map<Tid, int>)

  // ---- What a call should do --------------------------------------------------------------

  /** A take succeeds at once if nobody owns the lock or the caller does, up to 255 times; otherwise the
      caller gives up or waits. */
  ghost predicate TakeRight(x: Lock, t: Tid, giveUp: bool, now: int, outcome: Outcome, y: Lock) {
    match outcome
    case Taken =>
      && (x.owner == Nobody || (x.owner == Thread(t) && x.holds < HOLD_MAX))
      && y == x.(owner := Thread(t), holds := x.holds + 1)
    case Overflow => x.owner == Thread(t) && x.holds == HOLD_MAX && y == x
    case NoTime => x.owner != Nobody && x.owner != Thread(t) && giveUp && y == x
    case Waits => x.owner != Nobody && x.owner != Thread(t) && !giveUp && y == x.(waiting := x.waiting[t := now])
    case _ => false
  }

  /** Only the owner can release; the release that balances its takes passes the lock on to the thread
      whose turn it is, if any waits. */
  ghost predicate ReleaseRight(x: Lock, t: Tid, flag: Flag, base: Table, outcome: Outcome, y: Lock) {
    match outcome
    case NotOwner => x.owner != Thread(t) && y == x
    case Released =>
      && x.owner == Thread(t) && 0 < x.holds
      && (1 < x.holds ==> y == x.(holds := x.holds - 1))
      && (x.holds == 1 && x.waiting == map[] ==> y == Lock(Nobody, 0, map[]))
      && (x.holds == 1 && x.waiting != map[] ==>
            exists n :: IsNext(x.waiting, flag, Of(base), n) && y == Lock(Thread(n), 1, x.waiting - {n}))
    case _ => false
  }

  /** Calls on other mutexes change nothing here. */
  ghost predicate LockStep(x: Lock, a: Action, m: Mid, flag: Flag, base: Table, now: int, outcome: Outcome, y: Lock) {
    match a
    case DoTake(t, k, giveUp) => if k == m then TakeRight(x, t, giveUp, now, outcome, y) else y == x
    case DoRelease(t, k) => if k == m then ReleaseRight(x, t, flag, base, outcome, y) else y == x
    case DoTimeOut(t, k) => if k == m then t in x.waiting && y == x.(waiting := x.waiting - {t}) else y == x
  }

  // ---- What is seen of a state ------------------------------------------------------------

  /** The number of the last call in which a thread asked for a mutex, or -1. */
  function LastTake(acts: seq<Action>, t: Tid, m: Mid): int {
    if acts == [] then -1
    else
      var n := |acts| - 1;
      if acts[n].DoTake? && acts[n].t == t && acts[n].m == m then n else LastTake(acts[..n], t, m)
  }

  function Asked(acts: seq<Action>, m: Mid): Stamps {
    (t: Tid) => LastTake(acts, t, m)
  }

  ghost function Seen(s: State, acts: seq<Action>, m: Mid): Lock
    requires m in s.mutexes
  {
    Lock(s.mutexes[m].owner, s.mutexes[m].hold, WaitingSince(s.mutexes[m].list, Asked(acts, m)))
  }

  /** What the call returns, or whether it waits. */
  ghost function OutcomeOf(s: State, a: Action): Outcome
    requires Enabled(s, a) && Known(s)
  {
    match a
    case DoTake(t, m, giveUp) => Take(s.mutexes[m], s.prio, t, giveUp, s.flags[m]).outcome
    case DoRelease(t, m) => Release(s.mutexes[m], s.prio, t, s.flags[m]).outcome
    case DoTimeOut(_, _) => NoTime
  }

  // ---- The order of the list --------------------------------------------------------------

  ghost predicate ListByTurn(s: State, acts: seq<Action>, m: Mid) {
    m in s.mutexes && m in s.flags ==> ByTurn(s.mutexes[m].list, s.flags[m], Of(s.base), Asked(acts, m))
  }

  lemma AskedStep(acts: seq<Action>, a: Action, t: Tid, m: Mid)
    ensures LastTake(acts + [a], t, m) == if a.DoTake? && a.t == t && a.m == m then |acts| else LastTake(acts, t, m)
    ensures LastTake(acts, t, m) < |acts|
  {
    assert (acts + [a])[..|acts|] == acts;
    AskedBefore(acts, t, m);
  }

  lemma {:induction false} AskedBefore(acts: seq<Action>, t: Tid, m: Mid)
    ensures -1 <= LastTake(acts, t, m) < |acts|
  {
    if acts != [] {
      AskedBefore(acts[..|acts| - 1], t, m);
    }
  }

  // ---- Single steps -----------------------------------------------------------------------

  /** A mutex that is not called. */
  lemma OtherSeen(s: State, r: State, acts: seq<Action>, a: Action, m: Mid)
    requires m in s.mutexes && m in r.mutexes && r.mutexes[m] == s.mutexes[m] && r.base == s.base && r.flags == s.flags
    requires a.m != m || !a.DoTake? || a.t !in s.mutexes[m].list
    requires ListByTurn(s, acts, m)
    ensures Seen(r, acts + [a], m) == Seen(s, acts, m) && ListByTurn(r, acts + [a], m)
  {
    hide LastTake, ByTurn;
    forall x | x in s.mutexes[m].list
      ensures Asked(acts + [a], m)(x) == Asked(acts, m)(x)
    {
      AskedStep(acts, a, x, m);
    }
    SinceStep(s.mutexes[m].list, Asked(acts, m), Asked(acts + [a], m));
    if m in s.flags {
      SameTurns(s.mutexes[m].list, s.flags[m], Of(s.base), Of(s.base), Asked(acts, m), Asked(acts + [a], m));
    }
  }

  lemma TakeSeen(s: State, acts: seq<Action>, a: Action)
    requires Inv(s) && Enabled(s, a) && a.DoTake? && ListByTurn(s, acts, a.m)
    ensures var r := Apply(s, a);
      && a.m in r.mutexes && ListByTurn(r, acts + [a], a.m)
      && TakeRight(Seen(s, acts, a.m), a.t, a.giveUp, |acts|, OutcomeOf(s, a), Seen(r, acts + [a], a.m))
  {
    hide LastTake, ByTurn, Inherits, InOrder, OneMutexEach, BackAtBase, Local, Ready;
    var m, x, r := a.m, s.mutexes[a.m], Apply(s, a);
    assert MutexAt(s, m);
    if OutcomeOf(s, a) == Waits {
      WaitsSeen(s, acts, a);
    } else {
      assert r.mutexes[m].list == x.list;
      forall y | y in x.list
        ensures Asked(acts + [a], m)(y) == Asked(acts, m)(y)
      {
        AskedStep(acts, a, y, m);
      }
      SinceStep(x.list, Asked(acts, m), Asked(acts + [a], m));
      SameTurns(x.list, s.flags[m], Of(s.base), Of(s.base), Asked(acts, m), Asked(acts + [a], m));
    }
  }

  lemma WaitsSeen(s: State, acts: seq<Action>, a: Action)
    requires Inv(s) && Enabled(s, a) && a.DoTake? && ListByTurn(s, acts, a.m) && OutcomeOf(s, a) == Waits
    ensures var r := Apply(s, a);
      && a.m in r.mutexes && ListByTurn(r, acts + [a], a.m)
      && TakeRight(Seen(s, acts, a.m), a.t, a.giveUp, |acts|, Waits, Seen(r, acts + [a], a.m))
  {
    hide LastTake, ByTurn, Inherits, InOrder, OneMutexEach, BackAtBase, Local, Enlist;
    var m, t, x, r := a.m, a.t, s.mutexes[a.m], Apply(s, a);
    assert MutexAt(s, m);
    Callable(s, m, t);
    var o := x.owner.tid;
    var prio, stamp := Of(r.prio), Asked(acts + [a], m);
    assert r.mutexes[m].list == Enlist(x.list, t, s.flags[m], prio);
    EnlistMembers(x.list, t, s.flags[m], prio);
    forall y | y in x.list || y == t
      ensures prio(y) == Of(s.base)(y)
      ensures y in x.list ==> stamp(y) == Asked(acts, m)(y) < stamp(t)
    {
      AskedStep(acts, a, y, m);
      AskedStep(acts, a, t, m);
    }
    SameTurns(x.list, s.flags[m], Of(s.base), prio, Asked(acts, m), stamp);
    EnlistTurns(x.list, t, s.flags[m], prio, stamp);
    SameTurns(r.mutexes[m].list, s.flags[m], prio, Of(s.base), stamp, stamp);
    AskedStep(acts, a, t, m);
    assert WaitingSince(r.mutexes[m].list, stamp) == WaitingSince(x.list, Asked(acts, m))[t := |acts|];
  }

  lemma ReleaseSeen(s: State, acts: seq<Action>, a: Action)
    requires Inv(s) && Enabled(s, a) && a.DoRelease? && ListByTurn(s, acts, a.m)
    ensures var r := Apply(s, a);
      && a.m in r.mutexes && ListByTurn(r, acts + [a], a.m)
      && ReleaseRight(Seen(s, acts, a.m), a.t, s.flags[a.m], s.base, OutcomeOf(s, a), Seen(r, acts + [a], a.m))
  {
    hide LastTake, ByTurn, Inherits, InOrder, OneMutexEach, BackAtBase, Local, Ready, Highest;
    var m, x, r := a.m, s.mutexes[a.m], Apply(s, a);
    assert MutexAt(s, m);
    if x.owner == Thread(a.t) && x.hold == 1 && x.list != [] {
      HandOverSeen(s, acts, a);
    } else {
      assert r.mutexes[m].list == x.list;
      forall y | y in x.list
        ensures Asked(acts + [a], m)(y) == Asked(acts, m)(y)
      {
        AskedStep(acts, a, y, m);
      }
      SinceStep(x.list, Asked(acts, m), Asked(acts + [a], m));
      SameTurns(x.list, s.flags[m], Of(s.base), Of(s.base), Asked(acts, m), Asked(acts + [a], m));
      SinceNone(x.list, Asked(acts, m));
    }
  }

  lemma HandOverIs(s: State, a: Action)
    requires Inv(s) && Enabled(s, a) && a.DoRelease?
    requires var x := s.mutexes[a.m]; x.owner == Thread(a.t) && x.hold == 1 && x.list != []
    ensures Known(s) && a.m in s.flags && OutcomeOf(s, a) == Released
    ensures var x, r := s.mutexes[a.m], Apply(s, a);
      && a.m in r.mutexes && r.base == s.base && r.flags == s.flags && Distinct(x.list)
      && r.mutexes[a.m].owner == Thread(x.list[0]) && r.mutexes[a.m].hold == 1 && r.mutexes[a.m].list == x.list[1..]
  {
    hide Inherits, InOrder, WaitersAtBase, OneMutexEach, BackAtBase, Highest;
    assert MutexAt(s, a.m);
  }

  lemma HandOverSeen(s: State, acts: seq<Action>, a: Action)
    requires Inv(s) && Enabled(s, a) && a.DoRelease? && ListByTurn(s, acts, a.m)
    requires var x := s.mutexes[a.m]; x.owner == Thread(a.t) && x.hold == 1 && x.list != []
    ensures a.m in s.flags
    ensures var r := Apply(s, a);
      && a.m in r.mutexes && ListByTurn(r, acts + [a], a.m)
      && ReleaseRight(Seen(s, acts, a.m), a.t, s.flags[a.m], s.base, OutcomeOf(s, a), Seen(r, acts + [a], a.m))
  {
    hide LastTake, ByTurn, Inv, Distinct, Release, Sooner, IsNext, Apply, OutcomeOf;
    HandOverIs(s, a);
    var m, x, r := a.m, s.mutexes[a.m], Apply(s, a);
    var n, rest, stamp := x.list[0], x.list[1..], Asked(acts, m);
    TailDistinct(x.list);
    TailTurns(x.list, s.flags[m], Of(s.base), stamp);
    forall y | y in x.list
      ensures Asked(acts + [a], m)(y) == stamp(y)
    {
      AskedStep(acts, a, y, m);
    }
    SinceStep(rest, stamp, Asked(acts + [a], m));
    SameTurns(rest, s.flags[m], Of(s.base), Of(s.base), stamp, Asked(acts + [a], m));
    FirstIsNext(x.list, s.flags[m], Of(s.base), stamp);
    SinceNone(x.list, stamp);
    assert WaitingSince(rest, stamp) == WaitingSince(x.list, stamp) - {n};
  }

  lemma TimeOutSeen(s: State, acts: seq<Action>, a: Action)
    requires Inv(s) && Enabled(s, a) && a.DoTimeOut? && ListByTurn(s, acts, a.m)
    ensures var r := Apply(s, a);
      && a.m in r.mutexes && ListByTurn(r, acts + [a], a.m)
      && LockStep(Seen(s, acts, a.m), a, a.m, s.flags[a.m], s.base, |acts|, NoTime, Seen(r, acts + [a], a.m))
  {
    hide LastTake, ByTurn, Inherits, InOrder, OneMutexEach, BackAtBase, Local, Ready, Removed;
    var m, x, r := a.m, s.mutexes[a.m], Apply(s, a);
    assert MutexAt(s, m);
    var rest, stamp := Removed(x.list, a.t), Asked(acts, m);
    RemovedMembers(x.list, a.t);
    RemovedTurns(x.list, a.t, s.flags[m], Of(s.base), stamp);
    forall y | y in x.list
      ensures Asked(acts + [a], m)(y) == stamp(y)
    {
      AskedStep(acts, a, y, m);
    }
    SinceStep(rest, stamp, Asked(acts + [a], m));
    SameTurns(rest, s.flags[m], Of(s.base), Of(s.base), stamp, Asked(acts + [a], m));
    assert WaitingSince(rest, stamp) == WaitingSince(x.list, stamp) - {a.t};
  }

  /** Every call does what it should, on the mutex called and on every other one. */
  lemma StepSeen(s: State, acts: seq<Action>, a: Action, m: Mid)
    requires Inv(s) && Enabled(s, a) && m in s.mutexes && ListByTurn(s, acts, m)
    ensures var r := Apply(s, a);
      && m in r.mutexes && ListByTurn(r, acts + [a], m)
      && LockStep(Seen(s, acts, m), a, m, s.flags[m], s.base, |acts|, OutcomeOf(s, a), Seen(r, acts + [a], m))
  {
    hide Inv, Seen, ListByTurn, Take, Release, TimeOut, TakeRight, ReleaseRight;
    StepFacts(s, a, m);
    if a.m != m {
      OtherSeen(s, Apply(s, a), acts, a, m);
    } else {
      match a
      case DoTake(_, _, _) => TakeSeen(s, acts, a);
      case DoRelease(_, _) => ReleaseSeen(s, acts, a);
      case DoTimeOut(_, _) => TimeOutSeen(s, acts, a);
    }
  }

  lemma StepFacts(s: State, a: Action, m: Mid)
    requires Inv(s) && Enabled(s, a) && m in s.mutexes
    ensures Known(s) && m in s.flags && a.m in s.mutexes && a.m in s.flags
    ensures var r := Apply(s, a);
      m in r.mutexes && r.base == s.base && r.flags == s.flags && (a.m != m ==> r.mutexes[m] == s.mutexes[m])
  {
  }

  // ---- Runs -------------------------------------------------------------------------------

  /** The lock before step `k`. */
  ghost function LockAt(run: seq<State>, acts: seq<Action>, k: nat, m: Mid): Lock
    requires k < |run| && k <= |acts| && m in run[k].mutexes
  {
    Seen(run[k], acts[..k], m)
  }

  lemma {:induction false} RunByTurn(run: seq<State>, acts: seq<Action>, k: nat, m: Mid)
    requires IsRun(run, acts) && k <= |acts| && m in run[0].mutexes
    ensures |run| == |acts| + 1 && Inv(run[k]) && m in run[k].mutexes && ListByTurn(run[k], acts[..k], m)
    ensures run[k].flags == run[0].flags && run[k].base == run[0].base
  {
    hide Inv, Apply, Enabled, ByTurn, LastTake, ListByTurn;
    RunInv(run, acts, k);
    if k == 0 {
      StartByTurn(run[0], m);
      assert acts[..0] == [];
    } else {
      RunByTurn(run, acts, k - 1, m);
      assert IsStep(run[k - 1], acts[k - 1], run[k - 1 + 1]);
      StepSeen(run[k - 1], acts[..k - 1], acts[k - 1], m);
      StepFacts(run[k - 1], acts[k - 1], m);
      assert acts[..k] == acts[..k - 1] + [acts[k - 1]];
    }
  }

  lemma StartByTurn(s: State, m: Mid)
    requires Start(s) && m in s.mutexes
    ensures ListByTurn(s, [], m) && Seen(s, [], m) == Lock(Nobody, 0, map[])
  {
    if m in s.flags {
      NoTurns(s.flags[m], Of(s.base), Asked([], m));
    }
  }

  /** Main result: in every run every call on every mutex succeeds, fails or waits exactly as a recursive
      lock would, with the outcome that belongs to it, and passes the lock on to the thread whose turn it is. */
  lemma RunSeen(run: seq<State>, acts: seq<Action>, k: nat, m: Mid)
    requires IsRun(run, acts) && k < |acts| && m in run[0].mutexes
    ensures m in run[0].flags && m in run[k].mutexes && m in run[k + 1].mutexes
    ensures Enabled(run[k], acts[k]) && Known(run[k])
    ensures LockStep(LockAt(run, acts, k, m), acts[k], m, run[0].flags[m], run[0].base, k,
                     OutcomeOf(run[k], acts[k]), LockAt(run, acts, k + 1, m))
    ensures k == 0 ==> LockAt(run, acts, 0, m) == Lock(Nobody, 0, map[])
  {
    hide Inv, Apply, Enabled, ByTurn, LastTake, ListByTurn, Seen, LockStep, Start;
    RunByTurn(run, acts, k, m);
    assert IsStep(run[k], acts[k], run[k + 1]);
    StepFacts(run[k], acts[k], m);
    StepSeen(run[k], acts[..k], acts[k], m);
    assert acts[..k + 1] == acts[..k] + [acts[k]];
    if k == 0 {
      StartByTurn(run[0], m);
      assert acts[..0] == [];
    }
  }

  /** The successful takes of a thread on a mutex minus its successful releases, over some steps. */
  ghost function Net(run: seq<State>, acts: seq<Action>, i: nat, k: nat, t: Tid, m: Mid): int
    requires IsRun(run, acts) && i <= k <= |acts|
    decreases k
  {
    if i == k then 0
    else
      assert IsStep(run[k - 1], acts[k - 1], run[k - 1 + 1]);
      var a, outcome := acts[k - 1], OutcomeOf(run[k - 1], acts[k - 1]);
      Net(run, acts, i, k - 1, t, m)
        + if a.m != m || a.t != t then 0
          else if a.DoTake? && outcome == Taken then 1
          else if a.DoRelease? && outcome == Released then -1
          else 0
  }

  ghost predicate Has(s: State, m: Mid, t: Tid, holds: int) {
    m in s.mutexes && s.mutexes[m].owner == Thread(t) && s.mutexes[m].hold == holds
  }

  /** One step of the balance of the owner. */
  lemma BalanceStep(run: seq<State>, acts: seq<Action>, i: nat, k: nat, t: Tid, m: Mid, holds: int)
    requires IsRun(run, acts) && i <= k < |acts| && m in run[0].mutexes && Has(run[k], m, t, holds)
    ensures var change := Net(run, acts, i, k + 1, t, m) - Net(run, acts, i, k, t, m);
      if 0 < holds + change then Has(run[k + 1], m, t, holds + change)
      else m in run[k + 1].mutexes && run[k + 1].mutexes[m].owner != Thread(t)
    ensures 0 < holds
  {
    hide Inv, Apply, Enabled, ByTurn, LastTake, ListByTurn, OutcomeOf, IsRun;
    RunSeen(run, acts, k, m);
    RunByTurn(run, acts, k, m);
    OwnerHolds(run[k], m, t);
    OwnerWaitsNot(run, acts, k, t, m);
  }

  lemma OwnerHolds(s: State, m: Mid, t: Tid)
    requires Inv(s) && m in s.mutexes && s.mutexes[m].owner == Thread(t)
    ensures 0 < s.mutexes[m].hold && t !in s.mutexes[m].list
  {
    assert MutexAt(s, m);
  }

  lemma OwnerWaitsNot(run: seq<State>, acts: seq<Action>, k: nat, t: Tid, m: Mid)
    requires k < |run| && k <= |acts| && m in run[k].mutexes && t !in run[k].mutexes[m].list
    ensures t !in LockAt(run, acts, k, m).waiting
  {
    hide LastTake;
  }

  /** Main result on ownership: a thread keeps the mutex, whatever the others do, as long as its
      successful takes exceed its successful releases, the hand-over counting as a take; it is held that
      many times; and the release that balances them makes another thread the owner, or nobody. */
  lemma {:induction false} OwnerBalance(run: seq<State>, acts: seq<Action>, i: nat, k: nat, t: Tid, m: Mid, holds: int)
    requires IsRun(run, acts) && i <= k <= |acts| && m in run[0].mutexes && Has(run[i], m, t, holds)
    requires forall j :: i <= j < k ==> 0 < holds + Net(run, acts, i, j, t, m)
    ensures var n := holds + Net(run, acts, i, k, t, m);
      if 0 < n then Has(run[k], m, t, n) else m in run[k].mutexes && run[k].mutexes[m].owner != Thread(t)
    decreases k
  {
    hide Net, Has, IsRun;
    if i < k {
      OwnerBalance(run, acts, i, k - 1, t, m, holds);
      BalanceStep(run, acts, i, k - 1, t, m, holds + Net(run, acts, i, k - 1, t, m));
    } else {
      NetNone(run, acts, i, t, m);
      HasHolds(run, acts, i, t, m, holds);
    }
  }

  lemma NetNone(run: seq<State>, acts: seq<Action>, i: nat, t: Tid, m: Mid)
    requires IsRun(run, acts) && i <= |acts|
    ensures Net(run, acts, i, i, t, m) == 0
  {
  }

  lemma HasHolds(run: seq<State>, acts: seq<Action>, i: nat, t: Tid, m: Mid, holds: int)
    requires IsRun(run, acts) && i <= |acts| && m in run[0].mutexes && Has(run[i], m, t, holds)
    ensures 0 < holds
  {
    hide Inv, IsRun, ListByTurn;
    RunByTurn(run, acts, i, m);
    OwnerHolds(run[i], m, t);
  }
}
