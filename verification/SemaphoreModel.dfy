/** Semaphores (ipc.c) under any interleaving of takes, releases, timeouts and resets.  A release
    hands its unit to the first suspended thread, if there is one, without counting it.
 */
module SemaphoreModel {
  import opened IpcList
  import opened Sequences

  const VALUE_MAX := 65535   // RT_SEM_VALUE_MAX

  /** `initial` is the value of the last initialisation or reset; `taken` and `given` count the
      successful takes and releases since then. */
  datatype State = State(value: nat, list: seq<Tid>, flag: Flag, initial: nat, taken: nat, given: nat)

  datatype Action =
    | Take(t: Tid, giveUp: bool, prio: Priorities)
    | Release
    | Timeout(t: Tid)
    | Reset(value: nat)

  predicate Enabled(s: State, a: Action) {
    match a
    case Take(t, _, _) => t !in s.list
    case Release => true
    case Timeout(t) => t in s.list
    case Reset(_) => true
  }

  /** rt_sem_take, up to the point where the thread goes on or is suspended. */
  function TryTake(s: State, t: Tid, giveUp: bool, prio: Priorities): State {
    if s.value > 0 then s.(value := s.value - 1, taken := s.taken + 1)
    else if giveUp then s
    else s.(list := Enlist(s.list, t, s.flag, prio))
  }

  /** rt_sem_release */
  function Put(s: State): State {
    if s.list != [] then s.(list := s.list[1..], taken := s.taken + 1, given := s.given + 1)
    else if s.value < VALUE_MAX then s.(value := s.value + 1, given := s.given + 1)
    else s
  }

  /** rt_sem_control with RT_IPC_CMD_RESET; the value is cut off to 16 bits. */
  function ResetTo(s: State, value: nat): State {
    State(value % 0x1_0000, [], s.flag, value % 0x1_0000, 0, 0)
  }

  function Apply(s: State, a: Action): State
    requires Enabled(s, a)
  {
    match a
    case Take(t, giveUp, prio) => TryTake(s, t, giveUp, prio)
    case Release => Put(s)
    case Timeout(t) => s.(list := Removed(s.list, t))
    case Reset(value) => ResetTo(s, value)
  }

  function Init(value: nat, flag: Flag): State {
    State(value, [], flag, value, 0, 0)
  }

  /** No unit is lost or invented, and a thread is suspended only while there is none. */
  ghost predicate Inv(s: State) {
    && Distinct(s.list) && s.value <= VALUE_MAX
    && (s.list != [] ==> s.value == 0)
    && s.value + s.taken == s.initial + s.given
  }

  /** Every action keeps the semaphore right. */
  lemma ApplyKeeps(s: State, a: Action)
    requires Inv(s) && Enabled(s, a)
    ensures Inv(Apply(s, a))
  {
    hide Distinct, Enlist, Removed;
    NoneDistinct();
    match a
    case Take(t, giveUp, prio) => EnlistMembers(s.list, t, s.flag, prio);
    case Release => if s.list != [] { TailDistinct(s.list); }
    case Timeout(t) => RemovedMembers(s.list, t);
    case Reset(_) =>
  }

  lemma NoneDistinct()
    ensures Distinct<Tid>([])
  {
  }

  ghost predicate IsStep(s: State, a: Action, r: State) {
    Enabled(s, a) && r == Apply(s, a)
  }

  ghost predicate IsRun(run: seq<State>, acts: seq<Action>, value: nat, flag: Flag) {
    && |run| == |acts| + 1
    && run[0] == Init(value, flag)
    && forall i :: 0 <= i < |acts| ==> IsStep(run[i], acts[i], run[i + 1])
  }

  /** Main result: in every state of every interleaving the value and the units taken make up the
      initial value and the units given, and threads wait only for a value of 0. */
  lemma {:induction false} RunInv(run: seq<State>, acts: seq<Action>, value: nat, flag: Flag, k: nat)
    requires IsRun(run, acts, value, flag) && value <= VALUE_MAX && k <= |acts|
    ensures Inv(run[k]) && run[k].flag == flag
  {
    hide Inv;
    if k > 0 {
      RunInv(run, acts, value, flag, k - 1);
      assert IsStep(run[k - 1], acts[k - 1], run[k - 1 + 1]);
      ApplyKeeps(run[k - 1], acts[k - 1]);
    } else {
      InitInv(value, flag);
    }
  }

  lemma InitInv(value: nat, flag: Flag)
    requires value <= VALUE_MAX
    ensures Inv(Init(value, flag))
  {
  }

  // ---- Waiting for one's turn -------------------------------------------------------------

  /** How many threads are in front of `t`. */
  function Ahead(list: seq<Tid>, t: Tid): nat {
    if list == [] || list[0] == t then 0 else 1 + Ahead(list[1..], t)
  }

  function Releases(acts: seq<Action>, k: nat, m: nat): nat
    requires k <= m <= |acts|
    decreases m
  {
    if k == m then 0 else Releases(acts, k, m - 1) + if acts[m - 1].Release? then 1 else 0
  }

  lemma {:induction false} AheadAppend(list: seq<Tid>, t: Tid, u: Tid)
    requires t in list
    ensures Ahead(list + [u], t) == Ahead(list, t)
  {
    if list[0] != t {
      assert (list + [u])[1..] == list[1..] + [u];
      AheadAppend(list[1..], t, u);
    }
  }

  lemma {:induction false} AheadRemoved(list: seq<Tid>, t: Tid, u: Tid)
    requires t in list && t != u
    ensures Ahead(Removed(list, u), t) <= Ahead(list, t)
  {
    if list[0] != t {
      if list[0] != u {
        assert ([list[0]] + Removed(list[1..], u))[1..] == Removed(list[1..], u);
        AheadRemoved(list[1..], t, u);
      }
    } else {
      assert ([t] + Removed(list[1..], u))[0] == t;
    }
  }

  /** Every release brings a waiting thread forward, and nothing puts it back. */
  lemma StepForward(s: State, a: Action, t: Tid)
    requires Inv(s) && Enabled(s, a) && s.flag == Fifo && t in s.list && t in Apply(s, a).list
    ensures Ahead(Apply(s, a).list, t) + (if a.Release? then 1 else 0) <= Ahead(s.list, t)
  {
    match a
    case Take(u, giveUp, prio) =>
      if s.value == 0 && !giveUp {
        assert Enlist(s.list, u, Fifo, prio) == s.list + [u];
        AheadAppend(s.list, t, u);
      }
    case Release =>
      TailDistinct(s.list);
    case Timeout(u) =>
      RemovedMembers(s.list, u);
      AheadRemoved(s.list, t, u);
    case Reset(_) =>
  }

  /** Main result on order, for lists without priorities: a thread that stays suspended has seen at
      most as many releases as there were threads in front of it, whoever else comes and goes. */
  lemma {:induction false} TurnComes(run: seq<State>, acts: seq<Action>, value: nat, k: nat, m: nat, t: Tid)
    requires IsRun(run, acts, value, Fifo) && value <= VALUE_MAX && k <= m <= |acts|
    requires forall j :: k <= j <= m ==> t in run[j].list
    ensures Ahead(run[m].list, t) + Releases(acts, k, m) <= Ahead(run[k].list, t)
    decreases m
  {
    hide Inv, Ahead, Apply;
    if k < m {
      TurnComes(run, acts, value, k, m - 1, t);
      RunInv(run, acts, value, Fifo, m - 1);
      assert IsStep(run[m - 1], acts[m - 1], run[m - 1 + 1]);
      StepForward(run[m - 1], acts[m - 1], t);
    }
  }
}
