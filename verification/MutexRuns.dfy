/** Any number of threads on any number of mutexes: the runs of the system. */
module MutexRuns {
  import opened IpcList
  import opened MutexLemmas
  import opened MutexModel

  datatype State = State(
    prio: Table,                 // current_priority
    base: Table,                 // the priority each thread was given
    mutexes: map<Mid, Mutex>,
    flags: map<Mid, Flag>)

  datatype Action =
    | DoTake(t: Tid, m: Mid, giveUp: bool)
    | DoRelease(t: Tid, m: Mid)
    | DoTimeOut(t: Tid, m: Mid)

  ghost predicate Waiting(s: State, t: Tid) {
    exists k :: k in s.mutexes && t in s.mutexes[k].list
  }

  ghost predicate Owns(s: State, t: Tid) {
    exists k :: k in s.mutexes && s.mutexes[k].owner == Thread(t)
  }

  /** Threads that run may call; a thread that owns one mutex does not take another. */
  ghost predicate Enabled(s: State, a: Action) {
    match a
    case DoTake(t, m, _) =>
      && t in s.prio && m in s.mutexes && !Waiting(s, t)
      && forall k :: k in s.mutexes && k != m ==> s.mutexes[k].owner != Thread(t)
    case DoRelease(t, m) => t in s.prio && m in s.mutexes && !Waiting(s, t)
    case DoTimeOut(t, m) => m in s.mutexes && t in s.mutexes[m].list
  }

  function Put(s: State, m: Mid, x: Mutex, prio: Table): State {
    s.(mutexes := s.mutexes[m := x], prio := prio)
  }

  ghost predicate Known(s: State) {
    s.mutexes.Keys == s.flags.Keys && s.prio.Keys == s.base.Keys
  }

  ghost function Apply(s: State, a: Action): State
    requires Enabled(s, a) && Known(s)
  {
    match a
    case DoTake(t, m, giveUp) => var r := Take(s.mutexes[m], s.prio, t, giveUp, s.flags[m]); Put(s, m, r.mutex, r.prio)
    case DoRelease(t, m) => var r := Release(s.mutexes[m], s.prio, t, s.flags[m]); Put(s, m, r.mutex, r.prio)
    case DoTimeOut(t, m) => Put(s, m, TimeOut(s.mutexes[m], s.prio, t), s.prio)
  }

  // ---- What is kept -----------------------------------------------------------------------

  ghost predicate MutexAt(s: State, m: Mid) {
    && m in s.mutexes && m in s.flags && MutexOk(s.mutexes[m], s.prio, s.base, s.flags[m])
  }

  ghost predicate OneMutexEach(s: State) {
    forall t, j, k :: j in s.mutexes && k in s.mutexes && Touches(s.mutexes[j], t) && Touches(s.mutexes[k], t)
      ==> j == k
  }

  /** A thread that owns no mutex runs at its base priority. */
  ghost predicate BackAtBase(s: State) {
    forall t :: t in s.prio && !Owns(s, t) ==> t in s.base && s.prio[t] == s.base[t]
  }

  ghost predicate Inv(s: State) {
    && Known(s) && (forall t :: t in s.base ==> 0 <= s.base[t] < PRIORITY_MAX)
    && (forall m :: m in s.mutexes ==> MutexAt(s, m))
    && OneMutexEach(s) && BackAtBase(s)
  }

  /** A mutex whose threads keep their priorities stays right. */
  lemma OtherMutex(k: Mutex, prio: Table, prio': Table, base: Table, flag: Flag)
    requires MutexOk(k, prio, base, flag) && prio'.Keys == prio.Keys
    requires forall x :: x in prio && Touches(k, x) ==> prio'[x] == prio[x]
    ensures MutexOk(k, prio', base, flag)
  {
    hide Highest, Sorted;
    assert forall x :: x in k.list ==> Of(prio)(x) == Of(prio')(x);
    HighestSame(k.list, Of(prio), Of(prio'));
    SortedSame(k.list, Of(prio), Of(prio'));
    assert k.owner.Thread? ==> Touches(k, k.owner.tid);
  }

  /** One mutex changes as Local says; the whole system stays right. */
  lemma PutKeeps(s: State, m: Mid, x: Mutex, prio: Table, t: Tid)
    requires Inv(s) && m in s.mutexes
    requires Local(s.mutexes[m], s.prio, x, prio, s.base, t) && MutexOk(x, prio, s.base, s.flags[m])
    requires forall k :: k in s.mutexes && k != m ==> !Touches(s.mutexes[k], t)
    ensures Inv(Put(s, m, x, prio))
  {
    hide MutexOk, Shape, Inherits, InOrder, WaitersAtBase;
    var r := Put(s, m, x, prio);
    forall k | k in r.mutexes
      ensures MutexAt(r, k)
    {
      assert MutexAt(s, k);
      if k != m {
        OtherMutex(s.mutexes[k], s.prio, prio, s.base, s.flags[k]);
      }
    }
    forall u | u in r.prio && !Owns(r, u)
      ensures r.prio[u] == r.base[u]
    {
      assert m in r.mutexes && r.mutexes[m].owner != Thread(u);
      if !Touches(s.mutexes[m], u) {
        StillFree(s, r, m, u);
      }
    }
  }

  lemma StillFree(s: State, r: State, m: Mid, u: Tid)
    requires m in s.mutexes && r.mutexes.Keys == s.mutexes.Keys
    requires forall k :: k in s.mutexes && k != m ==> r.mutexes[k] == s.mutexes[k]
    requires !Owns(r, u) && !Touches(s.mutexes[m], u)
    ensures !Owns(s, u)
  {
    forall k | k in s.mutexes
      ensures s.mutexes[k].owner != Thread(u)
    {
      assert k in r.mutexes && r.mutexes[k].owner != Thread(u);
    }
  }

  lemma Callable(s: State, m: Mid, t: Tid)
    requires Inv(s) && m in s.mutexes && t in s.prio && !Waiting(s, t)
    requires forall k :: k in s.mutexes && k != m ==> s.mutexes[k].owner != Thread(t)
    ensures Ready(s.mutexes[m], s.prio, s.base, t)
    ensures forall k :: k in s.mutexes && k != m ==> !Touches(s.mutexes[k], t)
  {
    assert MutexAt(s, m);
    assert !Owns(s, t) || s.mutexes[m].owner == Thread(t);
  }

  lemma TakeStep(s: State, a: Action)
    requires Inv(s) && Enabled(s, a) && a.DoTake?
    ensures Inv(Apply(s, a))
  {
    hide MutexOk, Ready, Local, Take, OneMutexEach, BackAtBase;
    assert MutexAt(s, a.m);
    Callable(s, a.m, a.t);
    TakeKeeps(s.mutexes[a.m], s.prio, s.base, a.t, a.giveUp, s.flags[a.m]);
    var r := Take(s.mutexes[a.m], s.prio, a.t, a.giveUp, s.flags[a.m]);
    PutKeeps(s, a.m, r.mutex, r.prio, a.t);
  }

  lemma ReleaseStep(s: State, a: Action)
    requires Inv(s) && Enabled(s, a) && a.DoRelease?
    ensures Inv(Apply(s, a))
  {
    hide MutexOk, Ready, Local, OneMutexEach, BackAtBase;
    var m := s.mutexes[a.m];
    assert MutexAt(s, a.m);
    var r := Release(m, s.prio, a.t, s.flags[a.m]);
    if m.owner == Thread(a.t) {
      OnlyHere(s, a.m, a.t);
      Callable(s, a.m, a.t);
      ReleaseKeeps(m, s.prio, s.base, a.t, s.flags[a.m]);
      PutKeeps(s, a.m, r.mutex, r.prio, a.t);
    } else {
      assert s.mutexes[a.m := m] == s.mutexes;
    }
  }

  lemma OnlyHere(s: State, m: Mid, t: Tid)
    requires Inv(s) && m in s.mutexes && Touches(s.mutexes[m], t)
    ensures forall k :: k in s.mutexes && k != m ==> !Touches(s.mutexes[k], t) && s.mutexes[k].owner != Thread(t)
  {
  }

  lemma TimeOutStep(s: State, a: Action)
    requires Inv(s) && Enabled(s, a) && a.DoTimeOut?
    ensures Inv(Apply(s, a))
  {
    hide MutexOk, Local, OneMutexEach, BackAtBase;
    assert MutexAt(s, a.m);
    OnlyHere(s, a.m, a.t);
    TimeOutKeeps(s.mutexes[a.m], s.prio, s.base, a.t, s.flags[a.m]);
    PutKeeps(s, a.m, TimeOut(s.mutexes[a.m], s.prio, a.t), s.prio, a.t);
  }

  lemma ApplyKeeps(s: State, a: Action)
    requires Inv(s) && Known(s) && Enabled(s, a)
    ensures Inv(Apply(s, a))
  {
    hide Inv, Apply, Enabled;
    match a
    case DoTake(_, _, _) => TakeStep(s, a);
    case DoRelease(_, _) => ReleaseStep(s, a);
    case DoTimeOut(_, _) => TimeOutStep(s, a);
  }

  // ---- Runs -------------------------------------------------------------------------------

  ghost predicate Start(s: State) {
    && Known(s) && s.prio == s.base && (forall t :: t in s.base ==> 0 <= s.base[t] < PRIORITY_MAX)
    && forall m :: m in s.mutexes ==> s.mutexes[m] == Free()
  }

  ghost predicate IsStep(s: State, a: Action, r: State) {
    Enabled(s, a) && Known(s) && r == Apply(s, a)
  }

  ghost predicate IsRun(run: seq<State>, acts: seq<Action>) {
    && |run| == |acts| + 1 && Start(run[0])
    && forall i :: 0 <= i < |acts| ==> IsStep(run[i], acts[i], run[i + 1])
  }

  lemma {:induction false} RunInv(run: seq<State>, acts: seq<Action>, k: nat)
    requires IsRun(run, acts) && k <= |acts|
    ensures Inv(run[k])
  {
    hide Inv, Apply, Enabled;
    if k == 0 {
      StartInv(run[0]);
    } else {
      RunInv(run, acts, k - 1);
      assert IsStep(run[k - 1], acts[k - 1], run[k - 1 + 1]);
      ApplyKeeps(run[k - 1], acts[k - 1]);
    }
  }

  lemma StartInv(s: State)
    requires Start(s)
    ensures Inv(s)
  {
  }

  /** Main result: in every state of every run, a mutex with a waiting thread has an owner, and
      the owner runs at a priority at least as urgent as that of every waiting thread. */
  lemma NoInversion(run: seq<State>, acts: seq<Action>, k: nat, m: Mid, w: Tid)
    requires IsRun(run, acts) && k <= |acts|
    requires m in run[k].mutexes && w in run[k].mutexes[m].list
    ensures var x := run[k].mutexes[m];
      x.owner.Thread? && x.owner.tid in run[k].prio && w in run[k].prio &&
      run[k].prio[x.owner.tid] <= run[k].prio[w]
  {
    hide Apply, IsStep, OneMutexEach, BackAtBase, Highest;
    RunInv(run, acts, k);
    assert MutexAt(run[k], m);
    HighestIs(run[k].mutexes[m].list, Of(run[k].prio));
  }

  /** How urgent exactly: the owner runs at the most urgent of its own base priority, the
      priorities of the waiting threads, and those of the threads that gave up since it became
      the owner. */
  lemma ExactInheritance(run: seq<State>, acts: seq<Action>, k: nat, m: Mid)
    requires IsRun(run, acts) && k <= |acts| && m in run[k].mutexes && run[k].mutexes[m].owner.Thread?
    ensures var s := run[k]; var x := s.mutexes[m]; var o := x.owner.tid;
      o in s.prio && o in s.base && s.prio[o] == Min(s.base[o], Min(x.gone, Highest(x.list, Of(s.prio))))
  {
    hide Apply, IsStep, OneMutexEach, BackAtBase, Highest;
    RunInv(run, acts, k);
    assert MutexAt(run[k], m);
  }

  lemma {:induction false} SameBase(run: seq<State>, acts: seq<Action>, k: nat)
    requires IsRun(run, acts) && k <= |acts|
    ensures run[k].base == run[0].base
  {
    hide Enabled, Known;
    if k > 0 {
      SameBase(run, acts, k - 1);
      assert IsStep(run[k - 1], acts[k - 1], run[k - 1 + 1]);
    }
  }

  /** A thread that owns no mutex, in particular one that has released its last hold, is back at
      the priority it started with, whatever was inherited in between. */
  lemma Restored(run: seq<State>, acts: seq<Action>, k: nat, t: Tid)
    requires IsRun(run, acts) && k <= |acts| && t in run[k].prio && !Owns(run[k], t)
    ensures t in run[0].prio && run[k].prio[t] == run[0].prio[t]
  {
    hide Apply, IsStep;
    RunInv(run, acts, k);
    SameBase(run, acts, k);
  }
}
