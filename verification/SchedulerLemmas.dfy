/** What every call on the scheduler keeps, and who runs after it. */
module SchedulerLemmas {
  import opened Bits
  import opened IpcList
  import opened SchedulerModel
  import opened Sequences

  // ---- The two primitives -----------------------------------------------------------------

  lemma OrBits(s: State, p: nat, q: seq<Tid>, mask: nat)
    requires BitsOk(s) && p < LEVELS && q != [] && mask == Shift(p)
    ensures BitsOk(s.(queues := s.queues[p := q], group := Or(s.group, mask)))
  {
    hide Bit, Shift, Or;
    ShiftBound(p, LEVELS);
    OrBound(s.group, mask, LEVELS);
    forall k | 0 <= k < LEVELS
      ensures Bit(Or(s.group, mask), k) <==> s.queues[p := q][k] != []
    {
      OrBit(s.group, mask, k);
      ShiftBit(p, k);
    }
  }

  lemma ClearBits(s: State, p: nat, mask: nat)
    requires BitsOk(s) && p < LEVELS && mask == Shift(p)
    ensures BitsOk(s.(queues := s.queues[p := []], group := AndNot(s.group, mask)))
  {
    hide Bit, Shift, AndNot;
    AndNotBound(s.group, mask);
    forall k | 0 <= k < LEVELS
      ensures Bit(AndNot(s.group, mask), k) <==> s.queues[p := []][k] != []
    {
      AndNotBit(s.group, mask, k);
      ShiftBit(p, k);
    }
  }

  lemma SomeBits(s: State, p: nat, q: seq<Tid>)
    requires BitsOk(s) && p < LEVELS && (q == [] <==> s.queues[p] == [])
    ensures BitsOk(s.(queues := s.queues[p := q]))
  {
    hide Bit, Shift;
  }

  lemma BitsSame(s: State, r: State)
    requires BitsOk(s) && r.queues == s.queues && r.group == s.group
    ensures BitsOk(r)
  {
  }

  ghost predicate Startable(s: State, t: Tid) {
    t in s.threads && s.threads[t].prio < LEVELS && s.threads[t].mask == Shift(s.threads[t].prio)
  }

  lemma NotQueued(s: State, t: Tid, p: nat)
    requires QueuesOk(s) && p < LEVELS && (t in s.threads ==> s.threads[t].stat != Ready)
    ensures t !in s.queues[p]
  {
  }

  /** A thread that is in no queue goes to the end of its queue. */
  lemma InsertQueues(s: State, t: Tid)
    requires BitsOk(s) && QueuesOk(s) && Startable(s, t) && s.threads[t].stat != Ready && t != s.current
    ensures BitsOk(Insert(s, t)) && QueuesOk(Insert(s, t))
  {
    hide Shift, Bit, Or, Distinct, BitsOk;
    var p := s.threads[t].prio;
    var q := s.queues[p] + [t];
    NotQueued(s, t, p);
    SingleDistinct(t);
    JoinDistinct(s.queues[p], [t]);
    OrBits(s, p, q, s.threads[t].mask);
    BitsSame(s.(queues := s.queues[p := q], group := Or(s.group, s.threads[t].mask)), Insert(s, t));
  }

  /** Taking a thread out of its queue, if it is in one, and giving it another state. */
  lemma RemoveQueues(s: State, t: Tid, x: Thread)
    requires BitsOk(s) && QueuesOk(s) && Startable(s, t) && x.stat != Ready
    ensures var r := Put(Remove(s, t), t, x); BitsOk(r) && QueuesOk(r)
  {
    hide Shift, Bit, AndNot, Distinct, BitsOk, Removed;
    var p, r := s.threads[t].prio, Put(Remove(s, t), t, x);
    RemoveBits(s, t);
    BitsSame(Remove(s, t), r);
    RemovedMembers(s.queues[p], t);
  }

  lemma RemoveBits(s: State, t: Tid)
    requires BitsOk(s) && Startable(s, t)
    ensures BitsOk(Remove(s, t))
  {
    hide Shift, Bit, AndNot, Removed;
    var p := s.threads[t].prio;
    var q := Removed(s.queues[p], t);
    if q == [] {
      ClearBits(s, p, s.threads[t].mask);
      BitsSame(s.(queues := s.queues[p := []], group := AndNot(s.group, s.threads[t].mask)), Remove(s, t));
    } else {
      RemovedEmpty(s.queues[p], t);
      SomeBits(s, p, q);
      BitsSame(s.(queues := s.queues[p := q]), Remove(s, t));
    }
  }

  lemma RemovedEmpty(q: seq<Tid>, t: Tid)
    ensures q == [] ==> Removed(q, t) == []
  {
  }

  /** Fields that no queue depends on. */
  lemma RetuneKeeps(s: State, t: Tid, x: Thread)
    requires Inv(s) && t in s.threads
    requires x.stat == s.threads[t].stat && x.prio == s.threads[t].prio
    requires x.initPrio == s.threads[t].initPrio && x.mask == s.threads[t].mask
    ensures Inv(Put(s, t, x))
  {
    hide BitsOk, Distinct;
    BitsSame(s, Put(s, t, x));
  }

  // ---- Threads come and go ----------------------------------------------------------------

  /** A suspended thread becomes ready, or goes on running if it is the current one. */
  lemma InsertKeeps(s: State, t: Tid)
    requires Inv(s) && t in s.threads && s.threads[t].stat == Suspended
    ensures Inv(Insert(s, t))
  {
    hide BitsOk, QueuesOk, Shift, Or;
    if t == s.current {
      OnlyThread(s, t, s.threads[t].(stat := Running));
    } else {
      InsertQueues(s, t);
    }
  }

  /** The state of a thread changes that is in no queue before and after. */
  lemma OnlyThread(s: State, t: Tid, x: Thread)
    requires BitsOk(s) && QueuesOk(s) && t in s.threads && s.threads[t].stat != Ready && x.stat != Ready
    ensures BitsOk(Put(s, t, x)) && QueuesOk(Put(s, t, x))
  {
    hide Distinct;
  }

  /** A ready thread leaves its queue, or the current thread stops running. */
  lemma RemoveKeeps(s: State, t: Tid, x: Thread)
    requires Inv(s) && t in s.threads && s.threads[t].stat != Initial
    requires x.stat == Suspended || x.stat == Closed || (x.stat == Running && t == s.current)
    requires x.prio == s.threads[t].prio && x.mask == s.threads[t].mask && x.initPrio == s.threads[t].initPrio
    ensures Inv(Put(Remove(s, t), t, x))
  {
    hide BitsOk, QueuesOk, Shift, AndNot, Removed;
    RemoveQueues(s, t, x);
  }

  // ---- rt_schedule ------------------------------------------------------------------------

  lemma FirstReady(s: State, p: nat)
    requires QueuesOk(s) && p < LEVELS && s.queues[p] != []
    ensures s.queues[p][0] in s.threads && s.threads[s.queues[p][0]].stat == Ready
    ensures s.threads[s.queues[p][0]].prio == p
  {
    assert s.queues[p][0] in s.queues[p];
  }

  /** Making the thread in front current, with the one that ran going back to its queue if it
      can still run. */
  lemma SwitchKeeps(s: State, to: Tid)
    requires Inv(s) && s.current != NOBODY && to in s.threads && s.threads[to].stat == Ready
    ensures Inv(Switch(s, to, s.threads[s.current].stat == Running))
  {
    hide BitsOk, QueuesOk, Shift, Or, AndNot, Removed;
    var from: Tid := s.current;
    var runs := s.threads[from].stat == Running;
    var u := s.(current := to);
    QueuesElsewhere(s, u);
    if runs {
      InsertQueues(u, from);
    }
    var v := if runs then Insert(u, from) else u;
    RemoveQueues(v, to, v.threads[to].(stat := Running));
  }

  lemma QueuesElsewhere(s: State, u: State)
    requires BitsOk(s) && QueuesOk(s) && u == s.(current := u.current)
    ensures BitsOk(u) && QueuesOk(u)
  {
  }

  lemma ScheduleKeeps(s: State)
    requires Inv(s) && s.current != NOBODY
    ensures Inv(Schedule(s)) && Schedule(s).current != NOBODY
    ensures Schedule(s).threads.Keys == s.threads.Keys && Schedule(s).lock == s.lock
  {
    hide BitsOk, QueuesOk, ThreadsOk, HighestLevel, Remove, Insert;
    if s.lock == 0 && s.group != 0 {
      LevelIs(s);
      CurrentKnown(s);
      var c: Tid, level := s.current, HighestLevel(s);
      FirstReady(s, level);
      var runs := s.threads[c].stat == Running;
      var u := if runs then Put(s, c, s.threads[c].(yielding := false)) else s;
      if runs {
        RetuneKeeps(s, c, s.threads[c].(yielding := false));
      }
      if runs && GoesOn(s.threads[c], level) {
        RemoveSame(u, c);
        RemoveKeeps(u, c, u.threads[c].(stat := Running));
      } else {
        SwitchKeeps(u, s.queues[level][0]);
        SwitchKeys(u, s.queues[level][0], runs);
      }
    }
  }

  lemma CurrentKnown(s: State)
    requires Inv(s) && s.current != NOBODY
    ensures s.current >= 0 && s.current in s.threads && s.threads[s.current].stat != Ready
    ensures s.threads[s.current].stat != Initial && s.threads[s.current].prio < LEVELS == |s.queues|
  {
  }

  lemma RemoveSame(s: State, t: Tid)
    requires t in s.threads && s.threads[t].prio < |s.queues|
    ensures Remove(s, t).threads == s.threads && Remove(s, t).current == s.current && Remove(s, t).lock == s.lock
  {
  }

  lemma SwitchKeys(s: State, to: Tid, runs: bool)
    requires Inv(s) && s.current != NOBODY && to in s.threads && to != s.current
    ensures var r := Switch(s, to, runs);
      && r.threads.Keys == s.threads.Keys && r.lock == s.lock && r.current == to && to in r.threads
      && r.threads[to] == s.threads[to].(stat := Running)
      && (runs ==> r.threads[s.current] == s.threads[s.current].(stat := Ready))
      && (!runs ==> r.threads[s.current] == s.threads[s.current])
      && (forall t :: t in s.threads && t != s.current && t != to ==> r.threads[t] == s.threads[t])
  {
    hide BitsOk, QueuesOk, Or, AndNot, Removed, Shift;
  }

  /** Main result on scheduling: unless the scheduler is locked, afterwards the current thread
      runs and no ready thread is more urgent, if anybody can run at all, the idle thread for
      example. */
  lemma ScheduleBest(s: State)
    requires Inv(s) && s.current != NOBODY && s.lock == 0
    requires exists i :: i in s.threads && (s.threads[i].stat == Ready || s.threads[i].stat == Running)
    ensures var r := Schedule(s);
      && r.current in r.threads && r.threads[r.current].stat == Running
      && forall t :: t in r.threads && r.threads[t].stat == Ready ==> r.threads[r.current].prio <= r.threads[t].prio
  {
    hide BitsOk, QueuesOk, HighestLevel, Remove, Insert, Shift;
    CurrentKnown(s);
    EmptyGroup(s);
    LevelBound(s);
    var c: Tid := s.current;
    if s.group != 0 {
      LevelIs(s);
      var level := HighestLevel(s);
      FirstReady(s, level);
      var runs := s.threads[c].stat == Running;
      var u := if runs then Put(s, c, s.threads[c].(yielding := false)) else s;
      if runs {
        RetuneKeeps(s, c, s.threads[c].(yielding := false));
      }
      if runs && GoesOn(s.threads[c], level) {
        RemoveSame(u, c);
      } else {
        SwitchKeys(u, s.queues[level][0], runs);
      }
    }
  }

  /** Every ready thread is at or below the level found. */
  lemma LevelBound(s: State)
    requires Inv(s)
    ensures forall t :: t in s.threads && s.threads[t].stat == Ready ==>
      s.group != 0 && HighestLevel(s) <= s.threads[t].prio
  {
    hide Bit, Shift, HighestLevel;
    EmptyGroup(s);
    if s.group != 0 {
      LevelIs(s);
    }
  }
}
