/** The scheduler (scheduler.c, thread.c, clock.c) on one processor with 32 priorities: a queue
    of ready threads for every priority, and a bit for every queue.
 */
module SchedulerModel {
  import opened Bits
  import opened IpcList
  import opened Sequences

  const LEVELS := 32   // RT_THREAD_PRIORITY_MAX
  const NOBODY: int := -1

  datatype Stat = Initial | Ready | Suspended | Running | Closed

  datatype Thread = Thread(
    stat: Stat,
    yielding: bool,        // RT_THREAD_STAT_YIELD
    prio: nat,             // current_priority
    initPrio: nat,
    mask: nat,             // number_mask
    initTick: nat,
    remaining: nat)

  datatype State = State(
    threads: map<Tid, Thread>,
    queues: seq<seq<Tid>>, // rt_thread_priority_table
    group: nat,            // rt_thread_ready_priority_group
    current: int,          // rt_current_thread
    lock: nat)             // rt_scheduler_lock_nest

  function Put(s: State, t: Tid, x: Thread): State {
    s.(threads := s.threads[t := x])
  }

  // ---- The two primitives -----------------------------------------------------------------

  /** rt_schedule_insert_thread */
  function Insert(s: State, t: Tid): State
    requires t in s.threads && s.threads[t].prio < |s.queues|
  {
    var x := s.threads[t];
    if t == s.current then Put(s, t, x.(stat := Running))
    else
      Put(s, t, x.(stat := Ready))
        .(queues := s.queues[x.prio := s.queues[x.prio] + [t]], group := Or(s.group, x.mask))
  }

  /** rt_schedule_remove_thread */
  function Remove(s: State, t: Tid): State
    requires t in s.threads && s.threads[t].prio < |s.queues|
  {
    var x := s.threads[t];
    var q := Removed(s.queues[x.prio], t);
    s.(queues := s.queues[x.prio := q], group := if q == [] then AndNot(s.group, x.mask) else s.group)
  }

  // ---- What is kept -----------------------------------------------------------------------

  ghost predicate BitsOk(s: State) {
    && |s.queues| == LEVELS && s.group < Shift(LEVELS)
    && forall p :: 0 <= p < LEVELS ==> (Bit(s.group, p) <==> s.queues[p] != [])
  }

  /** The threads in a queue are ready, and of its priority, and every ready thread is in the
      queue of its priority. */
  ghost predicate QueuesOk(s: State) {
    && |s.queues| == LEVELS
    && (forall p :: 0 <= p < LEVELS ==> Distinct(s.queues[p]))
    && (forall p, t :: 0 <= p < LEVELS && t in s.queues[p] ==>
          t in s.threads && s.threads[t].stat == Ready && s.threads[t].prio == p)
    && (forall t :: t in s.threads && s.threads[t].stat == Ready ==>
          s.threads[t].prio < LEVELS && t in s.queues[s.threads[t].prio])
  }

  /** The mask of a started thread is the bit of its priority; the current thread is not in a
      queue, and nobody else runs. */
  ghost predicate ThreadsOk(s: State) {
    && (forall t :: t in s.threads ==> s.threads[t].prio < LEVELS && s.threads[t].initPrio < LEVELS)
    && (forall t :: t in s.threads && s.threads[t].stat != Initial ==> s.threads[t].mask == Shift(s.threads[t].prio))
    && (forall t :: t in s.threads && s.threads[t].stat == Running ==> t == s.current)
    && (s.current != NOBODY ==>
          s.current >= 0 && s.current in s.threads && s.threads[s.current].stat != Ready
            && s.threads[s.current].stat != Initial)
  }

  ghost predicate Inv(s: State) {
    BitsOk(s) && QueuesOk(s) && ThreadsOk(s)
  }

  // ---- Scheduling -------------------------------------------------------------------------

  /** _get_highest_priority_thread */
  function HighestLevel(s: State): nat
    requires BitsOk(s) && s.group != 0
  {
    GroupBound(s);
    FfsIs(s.group);
    Ffs(s.group) - 1
  }

  lemma GroupBound(s: State)
    requires BitsOk(s)
    ensures s.group < 0x1_0000_0000
  {
    assert Shift(8) == 0x100;
    assert Shift(16) == 0x1_0000;
    assert Shift(24) == 0x100_0000;
    assert Shift(32) == 0x1_0000_0000;
  }

  /** The level found is the lowest one with a thread in its queue. */
  lemma LevelIs(s: State)
    requires BitsOk(s) && s.group != 0
    ensures HighestLevel(s) < LEVELS == |s.queues| && s.queues[HighestLevel(s)] != []
    ensures forall p :: 0 <= p < HighestLevel(s) ==> s.queues[p] == []
  {
    hide Ffs, Shift;
    GroupBound(s);
    FfsIs(s.group);
    var k := HighestLevel(s);
    if LEVELS <= k {
      forall p | 0 <= p < LEVELS
        ensures !Bit(s.group, p)
      {
      }
      NoBits(s.group, LEVELS);
    }
  }

  lemma EmptyGroup(s: State)
    requires BitsOk(s)
    ensures s.group == 0 <==> forall p :: 0 <= p < LEVELS ==> s.queues[p] == []
  {
    if s.group == 0 {
      forall p | 0 <= p < LEVELS
        ensures s.queues[p] == []
      {
        ZeroBits(p);
      }
    } else {
      LevelIs(s);
    }
  }

  /** Whether the running thread goes on: it is more urgent than every ready thread, or as urgent
      and not yielding. */
  predicate GoesOn(x: Thread, level: nat) {
    x.prio < level || (x.prio == level && !x.yielding)
  }

  /** rt_schedule */
  function Schedule(s: State): State
    requires Inv(s) && s.current != NOBODY
  {
    if s.lock != 0 || s.group == 0 then s
    else
      LevelIs(s);
      var level := HighestLevel(s);
      var c: Tid := s.current;
      var runs := s.threads[c].stat == Running;
      var u := if runs then Put(s, c, s.threads[c].(yielding := false)) else s;
      if runs && GoesOn(s.threads[c], level) then
        var v := Remove(u, c);
        Put(v, c, v.threads[c].(stat := Running))
      else
        Switch(u, s.queues[level][0], runs)
  }

  /** The switch from the current thread to `to`. */
  function Switch(s: State, to: Tid, insertFrom: bool): State
    requires to in s.threads && s.current >= 0 && s.current in s.threads && |s.queues| == LEVELS
    requires forall t :: t in s.threads ==> s.threads[t].prio < LEVELS
  {
    var from: Tid := s.current;
    var u := s.(current := to);
    var v := if insertFrom then Insert(u, from) else u;
    var w := Remove(v, to);
    Put(w, to, w.threads[to].(stat := Running))
  }
}
