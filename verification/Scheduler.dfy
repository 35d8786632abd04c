/** The scheduler object (scheduler.c, thread.c, clock.c): the table of queues as rings of links,
    the ready group and the fields of the threads.

    What each method does is stated by SchedulerModel and SchedulerRuns, on the view of the
    object as a state of the model.  A suspended thread is in no list here; the lists of IPC
    objects are in IpcList.
 */
module Schedulers {
  import opened Bits
  import opened IpcList
  import opened Rings
  import opened RtList
  import opened SchedulerLemmas
  import opened SchedulerModel
  import opened SchedulerRuns
  import opened Sequences

  function HeadOf(p: nat): Node {
    -1 - p
  }

  ghost function QueueRing(q: seq<Tid>, p: nat): (s: seq<Node>)
    ensures |s| == |q| + 1
  {
    [HeadOf(p)] + seq(|q|, i requires 0 <= i < |q| => q[i] as Node)
  }

  ghost function QueueRings(queues: seq<seq<Tid>>): (s: seq<seq<Node>>)
    ensures |s| == |queues|
  {
    seq(|queues|, p requires 0 <= p < |queues| => QueueRing(queues[p], p))
  }

  ghost predicate InNone(queues: seq<seq<Tid>>, t: Tid) {
    forall p :: 0 <= p < |queues| ==> t !in queues[p]
  }

  lemma RingHas(q: seq<Tid>, p: nat, t: Tid)
    ensures t in QueueRing(q, p) <==> t in q
  {
    var s := QueueRing(q, p);
    if t in q {
      var i :| 0 <= i < |q| && q[i] == t;
      assert s[i + 1] == t;
    }
  }

  lemma NoneLoose(queues: seq<seq<Tid>>, t: Tid)
    requires InNone(queues, t)
    ensures Loose(QueueRings(queues), t)
  {
    forall p | 0 <= p < |queues|
      ensures t !in QueueRings(queues)[p]
    {
      RingHas(queues[p], p, t);
    }
  }

  lemma RingsInsert(queues: seq<seq<Tid>>, p: nat, t: Tid)
    requires p < |queues|
    ensures WithNode(QueueRings(queues), p, |queues[p]|, t) == QueueRings(queues[p := queues[p] + [t]])
  {
    var q := queues[p];
    assert Inserted(QueueRing(q, p), |q|, t) == QueueRing(q + [t], p);
  }

  lemma RingsRemove(queues: seq<seq<Tid>>, p: nat, i: nat)
    requires p < |queues| && i < |queues[p]|
    ensures WithoutNode(QueueRings(queues), p, i + 1) == QueueRings(queues[p := queues[p][..i] + queues[p][i + 1..]])
  {
    var q := queues[p];
    assert Without(QueueRing(q, p), i + 1) == QueueRing(q[..i] + q[i + 1..], p);
  }

  lemma QueueDistinct(l: Links, queues: seq<seq<Tid>>, all: set<Node>, p: nat)
    requires Linked(l, QueueRings(queues), all) && p < |queues|
    ensures Distinct(queues[p]) && IsRing(l, QueueRing(queues[p], p))
  {
    var s, q := QueueRing(queues[p], p), queues[p];
    assert QueueRings(queues)[p] == s;
    RingDistinct(l, s);
    forall i, j | 0 <= i < j < |q|
      ensures q[i] != q[j]
    {
      assert s[i + 1] != s[j + 1];
    }
  }

  /** rt_list_insert_before at the head of a queue. */
  lemma AppendLinked(l: Links, queues: seq<seq<Tid>>, all: set<Node>, p: nat, t: Tid)
    requires Linked(l, QueueRings(queues), all) && p < |queues| && t in all && InNone(queues, t)
    ensures var last := QueueRing(queues[p], p)[|queues[p]|];
      last in l.next && Linked(LinkAfter(l, last, t), QueueRings(queues[p := queues[p] + [t]]), all)
  {
    hide Linked, LinkAfter, Loose, WithNode, QueueRing;
    NoneLoose(queues, t);
    InsertLinked(l, QueueRings(queues), all, p, |queues[p]|, t);
    RingsInsert(queues, p, t);
  }

  /** rt_list_remove of a thread that is in queue `p` or in none. */
  lemma TakeLinked(l: Links, queues: seq<seq<Tid>>, all: set<Node>, p: nat, t: Tid)
    requires Linked(l, QueueRings(queues), all) && p < |queues| && t in all
    requires t in queues[p] || InNone(queues, t)
    ensures t in l.next && t in l.prev && l.next[t] in l.prev && l.prev[t] in l.next
    ensures Linked(Isolate(Unlink(l, t), t), QueueRings(queues[p := Removed(queues[p], t)]), all)
  {
    hide Linked, Unlink, Isolate, IsRing, Loose, QueueRing, WithoutNode;
    if t in queues[p] {
      var i :| 0 <= i < |queues[p]| && queues[p][i] == t;
      QueueDistinct(l, queues, all, p);
      RingEntry(queues[p], p, i);
      RemoveLinked(l, QueueRings(queues), all, p, i + 1);
      RingNeighbours(l, QueueRing(queues[p], p), i + 1);
      RingsRemove(queues, p, i);
      FirstAt(queues[p], i);
      RemovedAt(queues[p], t, i);
    } else {
      NoneLoose(queues, t);
      RemoveLoose(l, QueueRings(queues), all, t);
      SameLinks(l, t);
      NotThere(queues[p], t);
      assert queues[p := Removed(queues[p], t)] == queues;
    }
  }

  lemma RingEntry(q: seq<Tid>, p: nat, i: nat)
    requires i < |q|
    ensures QueueRing(q, p)[i + 1] == q[i]
  {
  }

  lemma FirstAt(q: seq<Tid>, i: nat)
    requires Distinct(q) && i < |q|
    ensures forall j :: 0 <= j < i ==> q[j] != q[i]
  {
  }

  class Scheduler {
    const links: ListPool

    var threads: map<Tid, Thread>
    var group: nat                // rt_thread_ready_priority_group
    var current: int              // rt_current_thread
    var lock: nat                 // rt_scheduler_lock_nest

    ghost var queues: seq<seq<Tid>>
    ghost var all: set<Node>

    ghost function View(): State
      reads this
    {
      State(threads, queues, group, current, lock)
    }

    ghost predicate ListsOk()
      reads `queues, `all, `threads, links
    {
      && |queues| == LEVELS && Linked(links.L(), QueueRings(queues), all)
      && forall t :: t in threads ==> t in all
    }

    ghost predicate Valid()
      reads this, links
    {
      ListsOk() && Inv(View())
    }

    /** rt_system_scheduler_init */
    constructor ()
      ensures Valid() && fresh(links) && threads == map[] && Fresh(View())
    {
      links := new ListPool();
      threads, group, current, lock := map[], 0, NOBODY, 0;
      queues, all := seq(LEVELS, _ => []), {};
      new;
      var offset := 0;
      ghost var heads := [];
      while offset < LEVELS
        invariant offset <= LEVELS
        invariant heads == HeadRings(offset) && Linked(links.L(), heads, {})
        modifies links
      {
        HeadLoose(offset);
        HeadAdded(links.L(), heads, HeadOf(offset));
        links.Init(HeadOf(offset));
        heads := heads + [[HeadOf(offset)]];
        offset := offset + 1;
      }
      HeadsAre(queues);
      FreshInv(View());
    }

    /** rt_thread_init */
    method InitThread(t: Tid, priority: nat, tick: nat)
      requires Valid() && t !in threads && priority < LEVELS
      modifies this`threads, this`all, links
      ensures Valid()
      ensures View() == Put(old(View()), t, Thread(Initial, false, priority, priority, 0, tick, tick))
    {
      hide Linked, Loose, BitsOk, Isolate, QueueRing;
      StrangerInNone(View(), t);
      NoneLoose(queues, t);
      AddLinked(links.L(), QueueRings(queues), all, t);
      links.Init(t);
      all := all + {t};
      AddThread(View(), t, Thread(Initial, false, priority, priority, 0, tick, tick));
      threads := threads[t := Thread(Initial, false, priority, priority, 0, tick, tick)];
    }

    /** rt_schedule_insert_thread */
    method InsertThread(t: Tid)
      requires ListsOk() && t in threads && threads[t].prio < LEVELS && (t == current || InNone(queues, t))
      modifies this`threads, this`group, this`queues, links
      ensures ListsOk() && View() == Insert(old(View()), t)
    {
      hide Linked, Or, QueueRing, LinkAfter;
      if t == current {
        threads := threads[t := threads[t].(stat := Running)];
        return;
      }
      threads := threads[t := threads[t].(stat := Ready)];
      var p := threads[t].prio;
      AppendLinked(links.L(), queues, all, p, t);
      QueueDistinct(links.L(), queues, all, p);
      HeadFirst(queues[p], p, t);
      links.InsertBefore(HeadOf(p), t, QueueRing(queues[p], p));
      queues := queues[p := queues[p] + [t]];
      group := Or(group, threads[t].mask);
    }

    /** rt_schedule_remove_thread */
    method RemoveThread(t: Tid)
      requires ListsOk() && t in threads && threads[t].prio < LEVELS
      requires t in queues[threads[t].prio] || InNone(queues, t)
      modifies this`group, this`queues, links
      ensures ListsOk() && View() == Remove(old(View()), t)
    {
      hide Linked, Unlink, Isolate, AndNot, QueueRing, Removed, IsRing;
      var p := threads[t].prio;
      TakeLinked(links.L(), queues, all, p, t);
      links.Delete(t);
      queues := queues[p := Removed(queues[p], t)];
      QueueDistinct(links.L(), queues, all, p);
      RingNeighbours(links.L(), QueueRing(queues[p], p), 0);
      HeadFirst(queues[p], p, t);
      if links.next[HeadOf(p)] == HeadOf(p) {
        group := AndNot(group, threads[t].mask);
      }
    }

    /** _get_highest_priority_thread */
    method HighestPriorityThread() returns (t: Tid, level: nat)
      requires Valid() && group != 0
      ensures level == HighestLevel(View()) < LEVELS && queues[level] != [] && t == queues[level][0]
    {
      hide Linked, QueuesOk, ThreadsOk, QueueRing, IsRing, Ffs;
      GroupBound(View());
      FfsIs(group);
      level := Ffs(group) - 1;
      LevelIs(View());
      QueueDistinct(links.L(), queues, all, level);
      RingNeighbours(links.L(), QueueRing(queues[level], level), 0);
      HeadFirst(queues[level], level, 0);
      RingEntry(queues[level], level, 0);
      t := links.next[HeadOf(level)];
    }

    /** rt_schedule */
    method Reschedule()
      requires Valid() && current != NOBODY
      modifies this`threads, this`group, this`current, this`queues, links
      ensures Valid() && View() == Schedule(old(View()))
    {
      hide ListsOk, BitsOk, QueuesOk, ThreadsOk, Insert, Remove;
      ScheduleKeeps(View());
      CurrentKnown(View());
      if lock == 0 && group != 0 {
        var to, level := HighestPriorityThread();
        LevelIs(View());
        FirstReady(View(), level);
        var from: Tid := current;
        var stays, insertFrom := false, false;
        if threads[from].stat == Running {
          if threads[from].prio < level {
            stays := true;
          } else if threads[from].prio == level && !threads[from].yielding {
            stays := true;
          } else {
            insertFrom := true;
          }
          ClearYield(from);
        }
        if !stays {
          SwitchTo(to, insertFrom);
        } else {
          CurrentInNone(View(), from);
          CurrentQueues(View(), from);
          RemoveThread(from);
          RemoveSame(old(View()).(threads := threads), from);
          SetStat(from, Running);
        }
      }
    }

    method ClearYield(t: Tid)
      requires Valid() && t in threads
      modifies this`threads
      ensures Valid() && View() == Put(old(View()), t, old(threads)[t].(yielding := false))
    {
      hide Linked, QueueRings;
      RetuneKeeps(View(), t, threads[t].(yielding := false));
      threads := threads[t := threads[t].(yielding := false)];
    }

    method SetStat(t: Tid, stat: Stat)
      requires ListsOk() && t in threads
      modifies this`threads
      ensures ListsOk() && View() == Put(old(View()), t, old(threads)[t].(stat := stat))
    {
      hide Linked, QueueRings;
      threads := threads[t := threads[t].(stat := stat)];
    }

    /** The switch of rt_schedule. */
    method SwitchTo(to: Tid, insertFrom: bool)
      requires Valid() && current != NOBODY && current in threads && to in threads && threads[to].stat == Ready
      requires insertFrom <==> threads[current].stat == Running
      modifies this`threads, this`group, this`current, this`queues, links
      ensures ListsOk() && View() == Switch(old(View()), to, insertFrom)
    {
      hide ListsOk, BitsOk, Or, AndNot, Removed, Shift, Bit;
      var from: Tid := current;
      CurrentInNone(View(), from);
      ReadyQueued(View(), to);
      current := to;
      StillLists();
      if insertFrom {
        InsertThread(from);
      }
      QueuedStill(old(View()), View(), to);
      RemoveThread(to);
      SetStat(to, Running);
    }

    // ---- The calls of thread.c and clock.c ------------------------------------------------

    /** rt_system_scheduler_start */
    method Start()
      requires Valid() && Enabled(View(), SchedulerRuns.Start)
      modifies this`threads, this`group, this`current, this`queues, links
      ensures Valid() && View() == StartSystem(old(View()))
    {
      hide ListsOk, BitsOk, QueuesOk, ThreadsOk, Remove;
      StartKeeps(View());
      var to, level := HighestPriorityThread();
      LevelIs(View());
      FirstReady(View(), level);
      ReadyQueued(View(), to);
      current := to;
      StillLists();
      RemoveThread(to);
      RemoveSame(old(View()).(current := to), to);
      Change(to, threads[to].(stat := Running, yielding := false));
    }

    method Change(t: Tid, x: Thread)
      requires ListsOk() && t in threads
      modifies this`threads
      ensures ListsOk() && View() == Put(old(View()), t, x)
    {
      hide Linked, QueueRings;
      threads := threads[t := x];
    }

    /** rt_thread_suspend */
    method Suspend(t: Tid) returns (ok: bool)
      requires Valid() && t in threads
      modifies this`threads, this`group, this`queues, links
      ensures Valid() && View() == SuspendThread(old(View()), t)
      ensures ok <==> old(threads)[t].stat == Ready || old(threads)[t].stat == Running
    {
      hide ListsOk, BitsOk, QueuesOk, ThreadsOk, Remove;
      SuspendKeeps(View(), t);
      if threads[t].stat != Ready && threads[t].stat != Running {
        return false;
      }
      CurrentQueues(View(), t);
      Removable(View(), t);
      RemoveThread(t);
      RemoveSame(old(View()), t);
      SetStat(t, Suspended);
      ok := true;
    }

    /** rt_thread_resume */
    method Resume(t: Tid) returns (ok: bool)
      requires Valid() && t in threads
      modifies this`threads, this`group, this`queues, links
      ensures Valid() && View() == ResumeThread(old(View()), t)
      ensures ok <==> old(threads)[t].stat == Suspended
    {
      hide ListsOk, BitsOk, QueuesOk, ThreadsOk, Insert;
      if threads[t].stat != Suspended {
        return false;
      }
      WakeUp(t);
      ok := true;
    }

    /** rt_list_remove and rt_schedule_insert_thread for a suspended thread. */
    method WakeUp(t: Tid)
      requires Valid() && t in threads && threads[t].stat == Suspended
      modifies this`threads, this`group, this`queues, links
      ensures Valid() && View() == Insert(old(View()), t)
    {
      hide Linked, BitsOk, QueuesOk, Shift, Insert, Isolate, Unlink, QueueRings;
      InsertKeeps(View(), t);
      CurrentQueues(View(), t);
      CurrentInNone(View(), t);
      TakeLinked(links.L(), queues, all, threads[t].prio, t);
      NotThere(queues[threads[t].prio], t);
      assert queues[threads[t].prio := Removed(queues[threads[t].prio], t)] == queues;
      links.Delete(t);
      InsertThread(t);
    }

    /** rt_thread_startup */
    method Startup(t: Tid)
      requires Valid() && Enabled(View(), SchedulerRuns.Startup(t))
      modifies this`threads, this`group, this`current, this`queues, links
      ensures Valid() && View() == StartupThread(old(View()), t)
    {
      hide ListsOk, BitsOk, QueuesOk, ThreadsOk, Insert, Schedule, Shift;
      PreparedKeeps(View(), t);
      InsertKeeps(Prepared(View(), t), t);
      var p := threads[t].initPrio;
      Change(t, threads[t].(prio := p, mask := Shift(p), stat := Suspended, yielding := false));
      var ok := Resume(t);
      if current != NOBODY {
        Reschedule();
      }
    }

    /** rt_thread_timeout, the function of the timer of every thread. */
    method Timeout(t: Tid)
      requires Valid() && Enabled(View(), SchedulerRuns.Timeout(t))
      modifies this`threads, this`group, this`current, this`queues, links
      ensures Valid() && View() == TimeoutThread(old(View()), t)
    {
      hide ListsOk, BitsOk, QueuesOk, ThreadsOk, Schedule;
      InsertKeeps(View(), t);
      WakeUp(t);
      Reschedule();
    }

    /** rt_thread_yield */
    method Yield()
      requires Valid() && current != NOBODY
      modifies this`threads, this`group, this`current, this`queues, links
      ensures Valid() && View() == YieldThread(old(View()))
    {
      hide ListsOk, BitsOk, QueuesOk, ThreadsOk, Schedule;
      CurrentKnown(View());
      var x := threads[current];
      RetuneKeeps(View(), current, x.(remaining := x.initTick, yielding := true));
      Change(current, x.(remaining := x.initTick, yielding := true));
      Reschedule();
    }

    /** rt_thread_exit, as far as the scheduler is concerned. */
    method Exit()
      requires Valid() && current != NOBODY
      modifies this`threads, this`group, this`current, this`queues, links
      ensures Valid() && View() == ExitThread(old(View()))
    {
      hide ListsOk, BitsOk, QueuesOk, ThreadsOk, Schedule, Remove;
      CurrentKnown(View());
      var t: Tid := current;
      CurrentInNone(View(), t);
      RemoveThread(t);
      RemoveSame(old(View()), t);
      RemoveKeeps(old(View()), t, threads[t].(stat := Closed, yielding := false));
      Change(t, threads[t].(stat := Closed, yielding := false));
      Reschedule();
    }

    /** rt_thread_control with RT_THREAD_CTRL_CHANGE_PRIORITY */
    method ChangePriority(t: Tid, p: nat)
      requires Valid() && t in threads && p < LEVELS
      modifies this`threads, this`group, this`queues, links
      ensures Valid() && View() == SetPriority(old(View()), t, p)
    {
      hide ListsOk, BitsOk, QueuesOk, Remove, Insert, Shift;
      SetPriorityKeeps(View(), t, p);
      CurrentQueues(View(), t);
      if threads[t].stat == Ready {
        Removable(View(), t);
        RemovedInNone(View(), t);
        RemoveThread(t);
        RemoveSame(old(View()), t);
        Change(t, threads[t].(prio := p, mask := Shift(p)));
        InsertThread(t);
      } else {
        Change(t, threads[t].(prio := p, mask := Shift(p)));
      }
    }

    /** The time slice part of rt_tick_increase. */
    method Tick()
      requires Valid() && current != NOBODY
      modifies this`threads, this`group, this`current, this`queues, links
      ensures Valid() && View() == TickThread(old(View()))
    {
      hide ListsOk, BitsOk, QueuesOk, ThreadsOk, Schedule;
      CurrentKnown(View());
      TickKeeps(View());
      var x := threads[current];
      RetuneKeeps(View(), current, x.(remaining := x.initTick, yielding := true));
      var left := (x.remaining - 1) % TICK_LIMIT;
      if left == 0 {
        Change(current, x.(remaining := x.initTick, yielding := true));
        Reschedule();
      } else {
        Change(current, x.(remaining := left));
      }
    }

    /** rt_enter_critical */
    method EnterCritical()
      requires Valid()
      modifies this`lock
      ensures Valid() && View() == old(View()).(lock := old(lock) + 1)
    {
      hide ListsOk, Inv;
      LockKeeps(View(), lock + 1);
      lock := lock + 1;
    }

    /** rt_exit_critical */
    method ExitCritical()
      requires Valid()
      modifies this`threads, this`group, this`current, this`queues, this`lock, links
      ensures Valid() && View() == LeaveCritical(old(View()))
    {
      hide ListsOk, Inv, Schedule;
      var nest := lock - 1;
      LockKeeps(View(), if nest <= 0 then 0 else nest);
      if nest <= 0 {
        lock := 0;
        if current != NOBODY {
          Reschedule();
        }
      } else {
        lock := nest;
      }
    }

    lemma StillLists()
      requires ListsOk()
      ensures ListsOk()
    {
    }
  }

  lemma HeadFirst(q: seq<Tid>, p: nat, t: Tid)
    ensures QueueRing(q, p)[0] == HeadOf(p)
    ensures t in QueueRing(q, p) <==> t in q
  {
    RingHas(q, p, t);
  }

  ghost function HeadRings(n: nat): (s: seq<seq<Node>>)
    ensures |s| == n
  {
    seq(n, p requires 0 <= p < n => [HeadOf(p)])
  }

  lemma HeadLoose(n: nat)
    ensures Loose(HeadRings(n), HeadOf(n)) && HeadRings(n + 1) == HeadRings(n) + [[HeadOf(n)]]
  {
  }

  lemma HeadsAre(queues: seq<seq<Tid>>)
    requires |queues| == LEVELS && forall p :: 0 <= p < LEVELS ==> queues[p] == []
    ensures QueueRings(queues) == HeadRings(LEVELS)
  {
    forall p | 0 <= p < LEVELS
      ensures QueueRings(queues)[p] == HeadRings(LEVELS)[p]
    {
      assert queues[p] == [] && QueueRing([], p) == [HeadOf(p)];
    }
  }

  lemma StrangerInNone(s: State, t: Tid)
    requires QueuesOk(s) && t !in s.threads
    ensures InNone(s.queues, t)
  {
  }

  lemma AddThread(s: State, t: Tid, x: Thread)
    requires Inv(s) && t !in s.threads && x.stat == Initial && x.prio < LEVELS && x.initPrio < LEVELS
    ensures Inv(Put(s, t, x))
  {
    hide Bit, Shift, Distinct;
    StrangerInNone(s, t);
  }

  lemma CurrentInNone(s: State, t: Tid)
    requires QueuesOk(s) && t in s.threads && s.threads[t].stat != Ready
    ensures InNone(s.queues, t)
  {
  }

  lemma Removable(s: State, t: Tid)
    requires QueuesOk(s) && t in s.threads && s.threads[t].prio < |s.queues|
    ensures t in s.queues[s.threads[t].prio] || InNone(s.queues, t)
  {
  }

  lemma RemovedInNone(s: State, t: Tid)
    requires QueuesOk(s) && t in s.threads && s.threads[t].stat == Ready && s.threads[t].prio < |s.queues|
    ensures InNone(Remove(s, t).queues, t)
  {
    hide Removed, AndNot;
    RemovedMembers(s.queues[s.threads[t].prio], t);
  }

  lemma ReadyQueued(s: State, t: Tid)
    requires QueuesOk(s) && t in s.threads && s.threads[t].stat == Ready
    ensures s.threads[t].prio < |s.queues| && t in s.queues[s.threads[t].prio]
  {
  }

  lemma QueuedStill(s: State, v: State, t: Tid)
    requires QueuesOk(s) && t in s.threads && s.threads[t].stat == Ready && t in v.threads && v.threads[t] == s.threads[t]
    requires |v.queues| == |s.queues|
    requires forall p :: 0 <= p < |s.queues| ==> s.queues[p] <= v.queues[p]
    ensures t in v.queues[v.threads[t].prio]
  {
    var p := s.threads[t].prio;
    assert t in s.queues[p] && s.queues[p] <= v.queues[p];
  }
}
