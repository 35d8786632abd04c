/** The turns of the threads that wait for a message queue. */
module MsgQueueTurns {
  import opened IpcList
  import opened IpcTurns
  import opened MsgQueueLemmas
  import opened MsgQueueModel
  import opened MsgQueueOrder
  import opened Sequences
  import opened WaitTurns

  /** Priorities do not change, or do not matter. */
  ghost predicate Uses(a: Action, flag: Flag, prio: Priorities) {
    flag == Fifo || !(a.SendEnter? || a.SendRetry? || a.RecvEnter? || a.RecvRetry?) || a.prio == prio
  }

  /** What a section does to the senders: one that finds no spare node blocks unless it gives up, and a receiver that frees its node wakes
      one. */
  function SendMove(room: bool, a: Action): Move {
    match a
    case SendEnter(t, _, giveUp, _) => if room || giveUp then Stays else Blocks(t)
    case SendRetry(t, giveUp, _) => if room || giveUp then Stays else Blocks(t)
    case Finish(_) => Wakes
    case Timeout(t) => Leaves(t)
    case Reset => Empties
    case _ => Stays
  }

  /** The same for the receivers: one that finds no message gives up or is suspended, and a message that is
      linked wakes one. */
  function RecvMove(mail: bool, a: Action): Move {
    match a
    case RecvEnter(t, _, giveUp, _) => if mail || giveUp then Stays else Blocks(t)
    case RecvRetry(t, giveUp, _) => if mail || giveUp then Stays else Blocks(t)
    case Link(_) => Wakes
    case Timeout(t) => Leaves(t)
    case Reset => Empties
    case _ => Stays
  }

  ghost function SendMoveAt(s: State, a: Action): Move {
    SendMove(exists n :: Spare(s, n), a)
  }

  ghost function RecvMoveAt(s: State, a: Action): Move {
    RecvMove(Contents(s) != [], a)
  }

  lemma SuspendedOnce(s: State, t: Tid)
    requires Inv(s)
    ensures PhaseOf(s, t) == Idle ==> t !in s.send.list && t !in s.recv.list
    ensures t in s.send.woken ==> t !in s.send.list
    ensures t in s.recv.woken ==> t !in s.recv.list
  {
    ListedIsMember(s.send);
    ListedIsMember(s.recv);
  }

  lemma SendStep(s: State, a: Action, prio: Priorities)
    requires Inv(s) && Enabled(s, a) && Uses(a, s.flag, prio)
    ensures ListStep(s.send.list, SendMoveAt(s, a), Order(s.flag, prio, false), Apply(s, a).send.list)
  {
    hide NodesInPlace, PayloadsOk, WaitsOk, OrderOk, Spare, Enlist, Removed, Contents;
    SpareIsFree(s);
    if s.free != [] {
      assert s.free[0] in s.free;
    }
    if !a.Reset? {
      SuspendedOnce(s, a.t);
      NotThere(s.send.list, a.t);
      if a.SendEnter? || a.SendRetry? {
        FifoSame(s.send.list, a.t, a.prio, prio);
      }
    }
  }

  lemma RecvStep(s: State, a: Action, prio: Priorities)
    requires Inv(s) && Enabled(s, a) && Uses(a, s.flag, prio)
    ensures ListStep(s.recv.list, RecvMoveAt(s, a), Order(s.flag, prio, false), Apply(s, a).recv.list)
  {
    hide NodesInPlace, PayloadsOk, WaitsOk, OrderOk, Spare, Enlist, Removed, Contents;
    NoContents(s);
    if !a.Reset? {
      SuspendedOnce(s, a.t);
      if a.Timeout? && a.t in s.send.list {
        OneList(s, a.t);
      }
      if a.RecvEnter? || a.RecvRetry? {
        FifoSame(s.recv.list, a.t, a.prio, prio);
      }
    }
  }

  /** A thread waits on one side only. */
  lemma OneList(s: State, t: Tid)
    requires Inv(s) && t in s.send.list
    ensures t !in s.recv.list && Removed(s.recv.list, t) == s.recv.list
  {
    hide NodesInPlace, PayloadsOk, OrderOk;
    ListedIsMember(s.send);
    ListedIsMember(s.recv);
    NotThere(s.recv.list, t);
  }

  lemma ApplyFlag(s: State, a: Action)
    requires Enabled(s, a)
    ensures Apply(s, a).flag == s.flag
  {
    hide Enlist, Removed;
  }

  // ---- Runs -------------------------------------------------------------------------------

  ghost function SendLists(run: seq<State>): seq<seq<Tid>> {
    seq(|run|, i requires 0 <= i < |run| => run[i].send.list)
  }

  ghost function RecvLists(run: seq<State>): seq<seq<Tid>> {
    seq(|run|, i requires 0 <= i < |run| => run[i].recv.list)
  }

  ghost function SendMoves(run: seq<State>, acts: seq<Action>): seq<Move>
    requires |run| == |acts| + 1
  {
    seq(|acts|, i requires 0 <= i < |acts| => SendMoveAt(run[i], acts[i]))
  }

  ghost function RecvMoves(run: seq<State>, acts: seq<Action>): seq<Move>
    requires |run| == |acts| + 1
  {
    seq(|acts|, i requires 0 <= i < |acts| => RecvMoveAt(run[i], acts[i]))
  }

  lemma {:induction false} RunFlag(run: seq<State>, acts: seq<Action>, flag: Flag, maxMsgs: nat, msgSize: nat, k: nat)
    requires IsRun(run, acts, flag, maxMsgs, msgSize) && k <= |acts|
    ensures run[k].flag == flag
  {
    hide Apply, Enabled;
    if 0 < k {
      RunFlag(run, acts, flag, maxMsgs, msgSize, k - 1);
      assert IsStep(run[k - 1], acts[k - 1], run[k - 1 + 1]);
      ApplyFlag(run[k - 1], acts[k - 1]);
    }
  }

  lemma RunLists(run: seq<State>, acts: seq<Action>, flag: Flag, maxMsgs: nat, msgSize: nat, prio: Priorities)
    requires IsRun(run, acts, flag, maxMsgs, msgSize) && forall i :: 0 <= i < |acts| ==> Uses(acts[i], flag, prio)
    ensures IsListRun(SendLists(run), SendMoves(run, acts), Order(flag, prio, false))
    ensures IsListRun(RecvLists(run), RecvMoves(run, acts), Order(flag, prio, false))
  {
    hide Inv, Apply, ListStep, SendMoveAt, RecvMoveAt, Uses, Enabled;
    forall i | 0 <= i < |acts|
      ensures ListStep(run[i].send.list, SendMoveAt(run[i], acts[i]), Order(flag, prio, false), run[i + 1].send.list)
      ensures ListStep(run[i].recv.list, RecvMoveAt(run[i], acts[i]), Order(flag, prio, false), run[i + 1].recv.list)
    {
      assert IsStep(run[i], acts[i], run[i + 1]);
      RunInv(run, acts, flag, maxMsgs, msgSize, i);
      RunFlag(run, acts, flag, maxMsgs, msgSize, i);
      SendStep(run[i], acts[i], prio);
      RecvStep(run[i], acts[i], prio);
    }
  }

  /** Main result on turns: in every run every section does to those who wait on either side what it should,
      and every wake-up is for the thread whose turn it is. */
  lemma RunTurns(run: seq<State>, acts: seq<Action>, flag: Flag, maxMsgs: nat, msgSize: nat, prio: Priorities, k: nat)
    requires IsRun(run, acts, flag, maxMsgs, msgSize) && k < |acts|
    requires forall i :: 0 <= i < |acts| ==> Uses(acts[i], flag, prio)
    ensures var o, lists, moves := Order(flag, prio, false), SendLists(run), SendMoves(run, acts);
      && Moved(WaitingAt(lists, moves, false, k), SendMoveAt(run[k], acts[k]), o, k, WaitingAt(lists, moves, false, k + 1))
      && WaitingAt(lists, moves, false, 0) == map[]
    ensures var o, lists, moves := Order(flag, prio, false), RecvLists(run), RecvMoves(run, acts);
      && Moved(WaitingAt(lists, moves, false, k), RecvMoveAt(run[k], acts[k]), o, k, WaitingAt(lists, moves, false, k + 1))
      && WaitingAt(lists, moves, false, 0) == map[]
  {
    hide Moved, IsListRun, WaitingAt, SendMoveAt, RecvMoveAt, IsRun, Uses;
    RunSize(run, acts, flag, maxMsgs, msgSize);
    RunLists(run, acts, flag, maxMsgs, msgSize, prio);
    WaitTurns.RunMoves(SendLists(run), SendMoves(run, acts), Order(flag, prio, false), k);
    WaitTurns.RunMoves(RecvLists(run), RecvMoves(run, acts), Order(flag, prio, false), k);
  }

  lemma RunSize(run: seq<State>, acts: seq<Action>, flag: Flag, maxMsgs: nat, msgSize: nat)
    requires IsRun(run, acts, flag, maxMsgs, msgSize)
    ensures |run| == |acts| + 1
  {
  }
}
