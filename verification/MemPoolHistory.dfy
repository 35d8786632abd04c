/** Memory pools seen from outside: every successful call gets one block of its own, and every release
    gives one back.
 */
module MemPoolHistory {
  import opened Chains
  import opened IpcList
  import opened MemPoolModel
  import opened Sequences

  ghost predicate Spare(s: State, n: Node) {
    n < s.total && n !in s.used
  }

  /** A call gets exactly one block, which was spare, if there is one; otherwise it gives up or waits. */
  lemma AllocOutcome(s: State, a: Action)
    requires Inv(s) && Enabled(s, a) && (a.AllocEnter? || a.AllocRetry?)
    ensures var r := Apply(s, a);
      if exists n :: Spare(s, n) then
        && (exists n :: Spare(s, n) && r.used == s.used + {n}) && r.waiting == s.waiting - {a.t}
      else
        && r.used == s.used && r.waiting == if a.giveUp then s.waiting - {a.t} else s.waiting + {a.t}
  {
    hide Sound, Members, BlockFirst, Pass, Distinct;
    if s.free != [] {
      assert s.free[0] in s.free;
      assert Spare(s, s.free[0]);
    } else {
      forall n: Node
        ensures !Spare(s, n)
      {
        assert n < s.total ==> n in s.free || n in s.used;
      }
    }
  }

  /** A release gives back its block and no other, and sends nobody home; a timeout sends its thread home. */
  lemma OtherOutcome(s: State, a: Action)
    requires Inv(s) && Enabled(s, a) && (a.Free? || a.Timeout?)
    ensures var r := Apply(s, a);
      if a.Free? then r.used == s.used - {a.block} && r.waiting == s.waiting
      else r.used == s.used && r.waiting == s.waiting - {a.t}
  {
    hide Sound, Members, WakeFirst, Expire, Distinct;
  }

  /** The block that was given back last is the next to be handed out. */
  lemma ReusedFirst(s: State, block: Node, t: Tid, giveUp: bool)
    requires Inv(s) && block in s.used
    ensures TryAlloc(Release(s, block), t, giveUp).used == s.used
  {
    hide Sound, Members, WakeFirst, Pass, Distinct;
  }

  /** The calls that got a block, less the blocks given back. */
  function Balance(run: seq<State>, acts: seq<Action>, k: nat): int
    requires |run| == |acts| + 1 && k <= |acts|
  {
    if k == 0 then 0
    else
      Balance(run, acts, k - 1) +
        if acts[k - 1].Free? then -1
        else if (acts[k - 1].AllocEnter? || acts[k - 1].AllocRetry?) && run[k - 1].free != [] then 1
        else 0
  }

  /** In every run as many blocks are handed out as calls got one and did not give it back. */
  lemma {:induction false} RunBalance(run: seq<State>, acts: seq<Action>, total: nat, k: nat)
    requires IsRun(run, acts, total) && k <= |acts|
    ensures |run[k].used| == Balance(run, acts, k)
  {
    hide Inv, Apply;
    if k > 0 {
      RunBalance(run, acts, total, k - 1);
      RunInv(run, acts, total, k - 1);
      assert IsStep(run[k - 1], acts[k - 1], run[k - 1 + 1]);
      StepBalance(run[k - 1], acts[k - 1]);
    }
  }

  lemma StepBalance(s: State, a: Action)
    requires Inv(s) && Enabled(s, a)
    ensures |Apply(s, a).used| == |s.used| +
      if a.Free? then -1 else if (a.AllocEnter? || a.AllocRetry?) && s.free != [] then 1 else 0
  {
    hide Sound, Members, WakeFirst, Expire, Distinct, BlockFirst, Pass;
    if (a.AllocEnter? || a.AllocRetry?) && s.free != [] {
      assert s.free[0] in s.free && s.free[0] !in s.used;
    }
  }
}
