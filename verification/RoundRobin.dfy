/** Time slices: how long a thread in the most urgent queue waits for its first turn. */
module RoundRobin {
  import opened Bits
  import opened IpcList
  import opened SchedulerLemmas
  import opened SchedulerModel
  import opened SchedulerRuns
  import opened Sequences

  lemma TickStep(s: State)
    requires Inv(s) && s.current != NOBODY
    ensures Inv(TickThread(s)) && TickThread(s).current != NOBODY
  {
    hide BitsOk, QueuesOk, Schedule, Shift;
    TickKeeps(s);
    var x := s.threads[s.current];
    RetuneKeeps(s, s.current, x.(remaining := x.initTick, yielding := true));
    ScheduleKeeps(Put(s, s.current, x.(remaining := x.initTick, yielding := true)));
  }

  function Ticks(s: State, n: nat): (r: State)
    requires Inv(s) && s.current != NOBODY
    ensures Inv(r) && r.current != NOBODY
    decreases n
  {
    hide Inv, TickThread;
    if n == 0 then s
    else
      TickStep(s);
      Ticks(TickThread(s), n - 1)
  }

  lemma {:induction false} TicksAdd(s: State, a: nat, b: nat)
    requires Inv(s) && s.current != NOBODY
    ensures Ticks(s, a + b) == Ticks(Ticks(s, a), b)
    decreases a
  {
    hide Inv, TickThread;
    if a > 0 {
      TickStep(s);
      TicksAdd(TickThread(s), a - 1, b);
    }
  }

  ghost predicate Slice(s: State, t: Tid) {
    t in s.threads && 1 <= s.threads[t].remaining < TICK_LIMIT && 1 <= s.threads[t].initTick < TICK_LIMIT
  }

  /** The current thread runs, no ready thread is more urgent, and it and the ready threads as
      urgent as it all have slices. */
  ghost predicate Turns(s: State) {
    && Inv(s) && s.lock == 0 && s.current != NOBODY && s.threads[s.current].stat == Running
    && Slice(s, s.current)
    && (forall t :: t in Peers(s) ==> Slice(s, t))
    && (forall p :: 0 <= p < s.threads[s.current].prio ==> s.queues[p] == [])
  }

  /** The queue behind the current thread. */
  ghost function Peers(s: State): seq<Tid>
    requires Inv(s) && s.current != NOBODY
  {
    s.queues[s.threads[s.current].prio]
  }

  ghost function Slices(s: State, q: seq<Tid>): nat
    requires forall t :: t in q ==> t in s.threads
  {
    if q == [] then 0 else s.threads[q[0]].remaining + Slices(s, q[1..])
  }

  /** A tick inside the slice changes nothing but the count. */
  lemma TickInside(s: State)
    requires Turns(s) && 1 < s.threads[s.current].remaining
    ensures var r := TickThread(s);
      && Turns(r) && r.current == s.current && Peers(r) == Peers(s)
      && r == Put(s, s.current, s.threads[s.current].(remaining := s.threads[s.current].remaining - 1))
  {
    hide BitsOk, QueuesOk, Schedule, Shift;
    var x := s.threads[s.current];
    CurrentNotPeer(s);
    RetuneKeeps(s, s.current, x.(remaining := x.remaining - 1));
  }

  /** What the last tick of a slice does. */
  lemma TickSwitch(s: State)
    requires Turns(s) && s.threads[s.current].remaining == 1 && Peers(s) != []
    ensures var r, c, to, p := TickThread(s), s.current, Peers(s)[0], s.threads[s.current].prio;
      && to in s.threads && to != c && s.threads[to].prio == p < |s.queues| == |r.queues|
      && Inv(r) && r.current == to && r.lock == s.lock && r.threads.Keys == s.threads.Keys
      && r.threads[to] == s.threads[to].(stat := Running)
      && r.threads[c] == s.threads[c].(remaining := s.threads[c].initTick, yielding := false, stat := Ready)
      && (forall t :: t in s.threads && t != c && t != to ==> r.threads[t] == s.threads[t])
      && r.queues[p] == s.queues[p][1..] + [c]
      && (forall k :: 0 <= k < |s.queues| && k != p ==> r.queues[k] == s.queues[k])
  {
    hide BitsOk, QueuesOk, Schedule, Shift, HighestLevel, Removed, Or, AndNot, Switch;
    var c: Tid := s.current;
    var x, q := s.threads[c], Peers(s);
    CurrentQueues(s, c);
    FirstReady(s, x.prio);
    var u := Put(s, c, x.(remaining := x.initTick, yielding := true));
    RetuneKeeps(s, c, x.(remaining := x.initTick, yielding := true));
    LevelOf(u);
    var v := Put(u, c, u.threads[c].(yielding := false));
    RetuneKeeps(u, c, u.threads[c].(yielding := false));
    ScheduleSwitches(u);
    TickStep(s);
    SwitchKeys(v, q[0], true);
    SwitchQueues(v, q[0], x.prio);
    CurrentQueues(TickThread(s), c);
  }

  /** The last tick of the slice gives way to the first of the peers. */
  lemma TickLast(s: State)
    requires Turns(s) && s.threads[s.current].remaining == 1 && Peers(s) != []
    ensures var r := TickThread(s);
      && Turns(r) && r.current == Peers(s)[0] && Peers(r) == Peers(s)[1..] + [s.current]
      && (forall t :: t in Peers(s) ==> t in r.threads && r.threads[t].remaining == s.threads[t].remaining)
  {
    hide Inv, TickThread;
    var q, r := Peers(s), TickThread(s);
    TickSwitch(s);
    CurrentNotPeer(s);
    assert q == [q[0]] + q[1..];
    assert q[0] in q;
    forall t | t in q + [s.current as Tid]
      ensures Slice(r, t)
    {
      assert Slice(s, t);
    }
  }

  /** With nobody more urgent, the level found is that of the current thread. */
  lemma LevelOf(s: State)
    requires Inv(s) && s.current != NOBODY && Peers(s) != []
    requires forall p :: 0 <= p < s.threads[s.current].prio ==> s.queues[p] == []
    ensures s.group != 0 && HighestLevel(s) == s.threads[s.current].prio
  {
    hide Bit, Shift, HighestLevel, QueuesOk;
    EmptyGroup(s);
    LevelIs(s);
  }

  lemma ScheduleSwitches(u: State)
    requires Inv(u) && u.current != NOBODY && u.lock == 0 && u.threads[u.current].stat == Running
    requires u.threads[u.current].yielding && Peers(u) != []
    requires u.group != 0 && HighestLevel(u) == u.threads[u.current].prio
    requires Peers(u)[0] in u.threads
    ensures var v := Put(u, u.current, u.threads[u.current].(yielding := false));
      Schedule(u) == Switch(v, Peers(u)[0], true)
  {
    hide BitsOk, QueuesOk, HighestLevel, Shift;
  }

  lemma SwitchQueues(v: State, to: Tid, p: nat)
    requires Inv(v) && v.current != NOBODY && v.threads[v.current].stat == Running
    requires v.threads[v.current].prio == p && v.queues[p] != [] && v.queues[p][0] == to && to != v.current
    requires to in v.threads && v.threads[to].prio == p
    ensures var r := Switch(v, to, true);
      && r.queues[p] == v.queues[p][1..] + [v.current as Tid]
      && forall k :: 0 <= k < LEVELS && k != p ==> r.queues[k] == v.queues[k]
  {
    hide BitsOk, QueuesOk, Shift, Or, AndNot;
    CurrentQueues(v, to);
    var q := v.queues[p] + [v.current as Tid];
    assert q[0] == to && q[1..] == v.queues[p][1..] + [v.current as Tid];
  }

  /** The current thread uses up its slice, and then the first of its peers runs. */
  lemma {:induction false} RunOut(s: State)
    requires Turns(s) && Peers(s) != []
    ensures var k := s.threads[s.current].remaining; var r := Ticks(s, k);
      && (forall n :: 0 <= n < k ==> Ticks(s, n).current == s.current)
      && Turns(r) && r.current == Peers(s)[0] && Peers(r) == Peers(s)[1..] + [s.current]
      && (forall t :: t in Peers(s) ==> t in r.threads && r.threads[t].remaining == s.threads[t].remaining)
    decreases s.threads[s.current].remaining
  {
    hide Inv, TickThread, Schedule;
    var k := s.threads[s.current].remaining;
    if k == 1 {
      TickLast(s);
      assert Ticks(s, 1) == Ticks(TickThread(s), 0);
    } else {
      TickInside(s);
      var u := TickThread(s);
      CurrentNotPeer(s);
      RunOut(u);
      forall n | 0 <= n < k
        ensures Ticks(s, n).current == s.current
      {
        if n > 0 {
          assert Ticks(s, n) == Ticks(u, n - 1);
        }
      }
      assert Ticks(s, k) == Ticks(u, k - 1);
    }
  }

  lemma CurrentNotPeer(s: State)
    requires Inv(s) && s.current != NOBODY
    ensures s.current !in Peers(s)
    ensures forall t :: t in Peers(s) ==> t in s.threads
    ensures Distinct(Peers(s))
  {
    hide BitsOk, Shift;
    NotQueued(s, s.current, s.threads[s.current].prio);
  }

  lemma {:induction false} SlicesSame(s: State, r: State, q: seq<Tid>)
    requires forall t :: t in q ==> t in s.threads && t in r.threads && s.threads[t].remaining == r.threads[t].remaining
    ensures Slices(s, q) == Slices(r, q)
  {
    if q != [] {
      assert q == [q[0]] + q[1..];
      SlicesSame(s, r, q[1..]);
    }
  }

  /** Main result: the thread at position `i` of the queue first runs after exactly what is left
      of the current slice and of the slices of the `i` threads in front of it. */
  lemma {:induction false} FirstTurn(s: State, i: nat)
    requires Turns(s) && i < |Peers(s)|
    requires forall t :: t in Peers(s)[..i] ==> t in s.threads
    ensures var total := s.threads[s.current].remaining + Slices(s, Peers(s)[..i]);
      && Ticks(s, total).current == Peers(s)[i]
      && forall n :: 0 <= n < total ==> Ticks(s, n).current != Peers(s)[i]
    decreases i
  {
    hide Inv, Turns, TickThread, Ticks, Distinct;
    TurnsInv(s);
    CurrentNotPeer(s);
    var q, k := Peers(s), s.threads[s.current].remaining;
    RunOut(s);
    var r := Ticks(s, k);
    assert q[i] in q;
    if i == 0 {
      assert q[..0] == [];
    } else {
      var p := Peers(r);
      assert p[..i - 1] == q[1..][..i - 1] && p[i - 1] == q[i];
      assert q[..i] == [q[0]] + q[1..][..i - 1] && q[..i][1..] == q[1..][..i - 1];
      assert forall t :: t in p[..i - 1] ==> t in q;
      FirstTurn(r, i - 1);
      SlicesSame(s, r, p[..i - 1]);
      assert q[0] in q;
      var total := k + Slices(s, q[..i]);
      assert total == k + (r.threads[r.current].remaining + Slices(r, p[..i - 1]));
      TicksAdd(s, k, total - k);
      forall n | 0 <= n < total
        ensures Ticks(s, n).current != q[i]
      {
        if k <= n {
          TicksAdd(s, k, n - k);
        }
      }
    }
  }

  lemma TurnsInv(s: State)
    requires Turns(s)
    ensures Inv(s) && s.current != NOBODY && s.current in s.threads
  {
  }
}
