/** What every action on a mutex keeps, and what follows for every run of any number of threads
    on any number of mutexes.
 */
module MutexLemmas {
  import opened IpcList
  import opened MutexModel
  import opened Sequences

  // ---- One mutex --------------------------------------------------------------------------

  /** What a single operation may do to the priorities: it changes those of threads at this
      mutex only, and a thread that is not at its base priority afterwards is the owner. */
  ghost predicate Local(m: Mutex, prio: Table, r: Mutex, prio': Table, base: Table, t: Tid) {
    && prio'.Keys == prio.Keys
    && (forall x :: x in prio && !Touches(m, x) ==> prio'[x] == prio[x])
    && (forall x :: x in prio && x in base && Touches(m, x) && r.owner != Thread(x) ==> prio'[x] == base[x])
    && (forall x :: Touches(r, x) ==> Touches(m, x) || x == t)
  }

  ghost predicate Ready(m: Mutex, prio: Table, base: Table, t: Tid) {
    && prio.Keys == base.Keys && t in prio && t !in m.list
    && (m.owner.Thread? ==> m.owner.tid in prio)
    && 0 <= base[t] < PRIORITY_MAX
    && (m.owner != Thread(t) ==> prio[t] == base[t])
  }

  lemma TakeKeeps(m: Mutex, prio: Table, base: Table, t: Tid, giveUp: bool, flag: Flag)
    requires MutexOk(m, prio, base, flag) && Ready(m, prio, base, t)
    ensures var r := Take(m, prio, t, giveUp, flag);
      MutexOk(r.mutex, r.prio, base, flag) && Local(m, prio, r.mutex, r.prio, base, t)
  {
    hide Sorted;
    if m.owner != Thread(t) && m.value == 0 && !giveUp {
      TakeWaits(m, prio, base, t, flag);
    } else {
      NoneOrdered(Of(prio));
      NoneOrdered(Of(prio[t := m.original]));
    }
  }

  lemma NoneOrdered(p: Priorities)
    ensures Sorted([], p)
  {
  }

  lemma TakeWaits(m: Mutex, prio: Table, base: Table, t: Tid, flag: Flag)
    requires MutexOk(m, prio, base, flag) && Ready(m, prio, base, t)
    requires m.owner != Thread(t) && m.value == 0
    ensures var r := Take(m, prio, t, false, flag);
      MutexOk(r.mutex, r.prio, base, flag) && Local(m, prio, r.mutex, r.prio, base, t)
  {
    hide Enlist, Highest, Sorted;
    var r := Take(m, prio, t, false, flag);
    assert forall x :: x in m.list ==> Of(prio)(x) == Of(r.prio)(x);
    EnlistMembers(m.list, t, flag, Of(r.prio));
    HighestSame(m.list, Of(prio), Of(r.prio));
    HighestEnlist(m.list, t, flag, Of(r.prio));
    if flag == Prio {
      SortedSame(m.list, Of(prio), Of(r.prio));
      EnlistSorted(m.list, t, Of(r.prio));
    }
  }

  lemma ReleaseKeeps(m: Mutex, prio: Table, base: Table, t: Tid, flag: Flag)
    requires MutexOk(m, prio, base, flag) && Ready(m, prio, base, t)
    ensures var r := Release(m, prio, t, flag);
      MutexOk(r.mutex, r.prio, base, flag) && Local(m, prio, r.mutex, r.prio, base, t)
  {
    hide Sorted;
    if m.owner == Thread(t) && m.hold == 1 && m.list != [] {
      HandOver(m, prio, base, t, flag);
      HandOverLocal(m, prio, base, t, flag);
    } else {
      NoneOrdered(Of(prio));
      NoneOrdered(Of(prio[t := m.original]));
    }
  }

  lemma HandOverLocal(m: Mutex, prio: Table, base: Table, t: Tid, flag: Flag)
    requires MutexOk(m, prio, base, flag) && Ready(m, prio, base, t)
    requires m.owner == Thread(t) && m.hold == 1 && m.list != []
    ensures var r := Release(m, prio, t, flag); Local(m, prio, r.mutex, r.prio, base, t)
  {
    hide Highest, Sorted, Distinct;
    assert m.list == [m.list[0]] + m.list[1..];
  }

  lemma HandOver(m: Mutex, prio: Table, base: Table, t: Tid, flag: Flag)
    requires MutexOk(m, prio, base, flag) && Ready(m, prio, base, t)
    requires m.owner == Thread(t) && m.hold == 1 && m.list != []
    ensures var r := Release(m, prio, t, flag); MutexOk(r.mutex, r.prio, base, flag)
  {
    hide Highest, Sorted, Distinct;
    var r := Release(m, prio, t, flag);
    var back := prio[t := m.original];
    var n, rest := m.list[0], m.list[1..];
    assert m.list == [n] + rest;
    TailDistinct(m.list);
    assert forall x :: x in m.list ==> Of(back)(x) == Of(prio)(x) == base[x];
    assert forall x :: x in rest ==> Of(r.prio)(x) == Of(back)(x);
    HighestJoin([n], rest, Of(back));
    HighestOne(n, Of(back));
    HighestSame(rest, Of(r.prio), Of(back));
    if flag == Prio {
      SortedSame(m.list, Of(prio), Of(back));
      HighestSorted(m.list, Of(back));
      TailSorted(m.list, Of(back));
      SortedSame(rest, Of(r.prio), Of(back));
    }
  }

  lemma HighestOne(t: Tid, p: Priorities)
    ensures Highest([t], p) == Min(p(t), PRIORITY_MAX - 1)
  {
    assert [t][1..] == [];
  }

  lemma TailSorted(s: seq<Tid>, p: Priorities)
    requires s != [] && Sorted(s, p)
    ensures Sorted(s[1..], p)
  {
    assert forall i :: 0 <= i < |s| - 1 ==> s[1..][i] == s[i + 1];
  }

  lemma TimeOutKeeps(m: Mutex, prio: Table, base: Table, t: Tid, flag: Flag)
    requires MutexOk(m, prio, base, flag) && prio.Keys == base.Keys && t in m.list
    ensures MutexOk(TimeOut(m, prio, t), prio, base, flag)
    ensures Local(m, prio, TimeOut(m, prio, t), prio, base, t)
  {
    hide Removed, Highest, Sorted;
    var r := TimeOut(m, prio, t);
    RemovedMembers(m.list, t);
    HighestRemoved(m.list, t, Of(prio));
    if flag == Prio {
      RemovedSorted(m.list, t, Of(prio));
    }
  }
}
