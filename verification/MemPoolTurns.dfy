/** The turns of the threads that wait for a memory pool: the one that was suspended last is resumed first. */
module MemPoolTurns {
  import opened IpcList
  import opened IpcTurns
  import opened MemPoolHistory
  import opened MemPoolModel
  import opened Sequences
  import opened WaitTurns

  const LATEST := Order(Fifo, (t: Tid) => 0, true)

  /** What a section does to those who wait: a thread that finds no spare block gives up or is suspended, and
      a block given back wakes one. */
  function PoolMove(spare: bool, a: Action): Move {
    match a
    case AllocEnter(t, giveUp) => if spare || giveUp then Stays else Blocks(t)
    case AllocRetry(t, giveUp) => if spare || giveUp then Stays else Blocks(t)
    case Free(_) => Wakes
    case Timeout(t) => Leaves(t)
  }

  ghost function MoveAt(s: State, a: Action): Move {
    PoolMove(exists n :: Spare(s, n), a)
  }

  lemma SpareLeft(s: State)
    requires Inv(s)
    ensures (exists n :: Spare(s, n)) <==> s.free != []
  {
    hide Sound, Members, Distinct;
    if s.free != [] {
      assert s.free[0] in s.free;
      assert Spare(s, s.free[0]);
    }
  }

  lemma PoolStep(s: State, a: Action)
    requires Inv(s) && Enabled(s, a)
    ensures ListStep(s.wait.list, MoveAt(s, a), LATEST, Apply(s, a).wait.list)
  {
    hide BlocksOk, Spare, Removed;
    SpareLeft(s);
    ListedIsMember(s.wait);
  }

  // ---- Runs -------------------------------------------------------------------------------

  ghost function Lists(run: seq<State>): seq<seq<Tid>> {
    seq(|run|, i requires 0 <= i < |run| => run[i].wait.list)
  }

  ghost function Moves(run: seq<State>, acts: seq<Action>): seq<Move>
    requires |run| == |acts| + 1
  {
    seq(|acts|, i requires 0 <= i < |acts| => MoveAt(run[i], acts[i]))
  }

  lemma RunLists(run: seq<State>, acts: seq<Action>, total: nat)
    requires IsRun(run, acts, total)
    ensures IsListRun(Lists(run), Moves(run, acts), LATEST)
  {
    hide Inv, Apply, ListStep, MoveAt, Enabled;
    forall i | 0 <= i < |acts|
      ensures ListStep(run[i].wait.list, MoveAt(run[i], acts[i]), LATEST, run[i + 1].wait.list)
    {
      assert IsStep(run[i], acts[i], run[i + 1]);
      RunKeeps(run, acts, total, i);
      PoolStep(run[i], acts[i]);
    }
  }

  /** Main result on turns: in every run every section does to those who wait what it should, and every block
      given back wakes the thread that was suspended last. */
  lemma RunTurns(run: seq<State>, acts: seq<Action>, total: nat, k: nat)
    requires IsRun(run, acts, total) && k < |acts|
    ensures |run| == |acts| + 1
    ensures var lists, moves := Lists(run), Moves(run, acts);
      && Moved(WaitingAt(lists, moves, true, k), MoveAt(run[k], acts[k]), LATEST, k, WaitingAt(lists, moves, true, k + 1))
      && WaitingAt(lists, moves, true, 0) == map[]
  {
    hide Moved, IsListRun, WaitingAt, MoveAt;
    RunLists(run, acts, total);
    WaitTurns.RunMoves(Lists(run), Moves(run, acts), LATEST, k);
  }
}
