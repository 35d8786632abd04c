/** Mutexes with priority inheritance (ipc.c, thread.c) under any interleaving of takes,
    releases and timeouts, for any number of threads and mutexes.

    A thread that holds a mutex or waits for one does not ask for another one, and nobody else
    changes priorities.
 */
module MutexModel {
  import opened IpcList
  import opened Sequences

  type Mid = nat
  type Table = map<Tid, int>   // current_priority of every thread

  const PRIORITY_MAX := 32
  const HOLD_MAX := 255        // RT_MUTEX_HOLD_MAX
  const VALUE_MAX := 65535     // RT_MUTEX_VALUE_MAX
  const NO_PRIORITY := 0xFF

  datatype Owner = Nobody | Thread(tid: Tid)

  /** `gone` is not a field of the source: the most urgent priority among the threads that timed
      out while the present owner held the mutex. */
  datatype Mutex = Mutex(value: nat, owner: Owner, original: int, hold: nat, list: seq<Tid>, gone: int)

  datatype Outcome = Taken | NoTime | Overflow | Waits | NotOwner | Released

  datatype Result = Result(mutex: Mutex, prio: Table, outcome: Outcome)

  function Of(prio: Table): Priorities {
    t => if t in prio then prio[t] else PRIORITY_MAX - 1
  }

  /** The counters, the owner and the list fit together. */
  ghost predicate Shape(m: Mutex) {
    && (m.value == 1 <==> m.owner == Nobody) && (m.value == 1 <==> m.hold == 0)
    && m.value <= 1 && m.hold <= HOLD_MAX
    && (m.list != [] ==> m.owner.Thread?)
    && Distinct(m.list) && (m.owner.Thread? ==> m.owner.tid !in m.list)
  }

  function Free(): Mutex {
    Mutex(1, Nobody, NO_PRIORITY, 0, [], PRIORITY_MAX - 1)
  }

  /** rt_mutex_take by thread `t`, up to the point where it goes on or is suspended.  A mutex
      that is not available has an owner, see Shape. */
  function Take(m: Mutex, prio: Table, t: Tid, giveUp: bool, flag: Flag): Result
  {
    if m.owner == Thread(t) then
      if m.hold < HOLD_MAX then Result(m.(hold := m.hold + 1), prio, Taken) else Result(m, prio, Overflow)
    else if 0 < m.value then
      Result(m.(value := m.value - 1, owner := Thread(t), original := Of(prio)(t), hold := m.hold + 1), prio, Taken)
    else if giveUp || m.owner == Nobody then Result(m, prio, NoTime)
    else
      var o := m.owner.tid;
      var raised := if Of(prio)(t) < Of(prio)(o) then prio[o := Of(prio)(t)] else prio;
      Result(m.(list := Enlist(m.list, t, flag, Of(raised))), raised, Waits)
  }

  /** rt_mutex_release by thread `t`.  An owner holds the mutex at least once, see Shape. */
  function Release(m: Mutex, prio: Table, t: Tid, flag: Flag): Result
  {
    if m.owner != Thread(t) || m.hold == 0 then Result(m, prio, NotOwner)
    else if 1 < m.hold then Result(m.(hold := m.hold - 1), prio, Released)
    else
      var back := prio[t := m.original];
      if m.list == [] then
        Result(m.(value := m.value + 1, owner := Nobody, original := NO_PRIORITY, hold := 0,
                  gone := PRIORITY_MAX - 1), back, Released)
      else
        var n := m.list[0];
        var top := Highest(m.list, Of(back));
        Result(m.(owner := Thread(n), original := Of(back)(n), hold := 1, list := m.list[1..], gone := PRIORITY_MAX - 1),
               if flag == Fifo then back[n := top] else back, Released)
  }

  /** The timer of a waiting thread fires. */
  function TimeOut(m: Mutex, prio: Table, t: Tid): Mutex {
    m.(list := Removed(m.list, t), gone := Min(m.gone, Of(prio)(t)))
  }

  // ---- One mutex --------------------------------------------------------------------------

  /** What presses on the owner. */
  function Pressure(m: Mutex, prio: Priorities): int {
    Min(m.gone, Highest(m.list, prio))
  }

  /** Exact inheritance: the owner runs at the most urgent of its own base priority, the
      priorities of the threads that wait now and of those that timed out in between. */
  ghost predicate Inherits(m: Mutex, prio: Table, base: Table) {
    m.owner.Thread? ==>
      var o := m.owner.tid;
      && o in prio && o in base && m.original == base[o]
      && prio[o] == Min(base[o], Pressure(m, Of(prio)))
  }

  ghost predicate InOrder(m: Mutex, prio: Table, flag: Flag) {
    flag == Prio ==> Sorted(m.list, Of(prio))
  }

  ghost predicate Touches(m: Mutex, t: Tid) {
    m.owner == Thread(t) || t in m.list
  }

  /** Everybody in the list runs at its base priority. */
  ghost predicate WaitersAtBase(m: Mutex, prio: Table, base: Table) {
    forall t :: t in m.list ==> t in prio && t in base && prio[t] == base[t] < PRIORITY_MAX
  }

  ghost predicate MutexOk(m: Mutex, prio: Table, base: Table, flag: Flag) {
    Shape(m) && Inherits(m, prio, base) && InOrder(m, prio, flag) && WaitersAtBase(m, prio, base)
      && m.gone < PRIORITY_MAX && (m.owner == Nobody ==> m.gone == PRIORITY_MAX - 1)
  }

  lemma {:induction false} HighestSame(s: seq<Tid>, p: Priorities, q: Priorities)
    requires forall t :: t in s ==> p(t) == q(t)
    ensures Highest(s, p) == Highest(s, q)
  {
    if s != [] {
      HighestSame(s[1..], p, q);
    }
  }

  lemma SortedSame(s: seq<Tid>, p: Priorities, q: Priorities)
    requires forall t :: t in s ==> p(t) == q(t)
    ensures Sorted(s, p) <==> Sorted(s, q)
  {
    assert forall i :: 0 <= i < |s| ==> s[i] in s;
  }

  lemma {:induction false} HighestJoin(a: seq<Tid>, b: seq<Tid>, p: Priorities)
    ensures Highest(a + b, p) == Min(Highest(a, p), Highest(b, p))
  {
    if a == [] {
      assert a + b == b;
      HighestIs(b, p);
    } else {
      assert (a + b)[1..] == a[1..] + b;
      HighestJoin(a[1..], b, p);
    }
  }

  lemma HighestEnlist(s: seq<Tid>, t: Tid, flag: Flag, p: Priorities)
    ensures Highest(Enlist(s, t, flag, p), p) == Min(p(t), Highest(s, p))
  {
    var k := Place(s, t, flag, p);
    HighestJoin(s[..k] + [t], s[k..], p);
    HighestJoin(s[..k], [t], p);
    HighestJoin(s[..k], s[k..], p);
    assert s == s[..k] + s[k..];
    HighestIs(s, p);
    assert [t][1..] == [];
  }

  lemma {:induction false} HighestRemoved(s: seq<Tid>, t: Tid, p: Priorities)
    requires t in s
    ensures Highest(s, p) == Min(p(t), Highest(Removed(s, t), p))
  {
    if s[0] != t {
      HighestRemoved(s[1..], t, p);
      assert ([s[0]] + Removed(s[1..], t))[1..] == Removed(s[1..], t);
    }
  }

  /** The first of a list in order is the most urgent. */
  lemma {:induction false} HighestSorted(s: seq<Tid>, p: Priorities)
    requires s != [] && Sorted(s, p) && p(s[0]) < PRIORITY_MAX
    ensures Highest(s, p) == p(s[0])
  {
    if |s| == 1 {
      assert s[1..] == [];
    } else if p(s[1]) < PRIORITY_MAX {
      assert forall i :: 0 <= i < |s[1..]| ==> s[1..][i] == s[i + 1];
      HighestSorted(s[1..], p);
    } else {
      LessUrgent(s[1..], p);
    }
  }

  lemma {:induction false} LessUrgent(s: seq<Tid>, p: Priorities)
    requires forall i :: 0 <= i < |s| ==> PRIORITY_MAX <= p(s[i])
    ensures Highest(s, p) == PRIORITY_MAX - 1
  {
    if s != [] {
      assert forall i :: 0 <= i < |s[1..]| ==> s[1..][i] == s[i + 1];
      LessUrgent(s[1..], p);
    }
  }
}
