/** Memory pools of equal blocks (mempool.c) under any interleaving of allocations, releases
    and timeouts.  Every section that runs with interrupts disabled is one action.
 */
module MemPoolModel {
  import opened Chains
  import opened IpcList
  import opened Sequences

  datatype State = State(
    free: seq<Node>,         // the free list, in link order
    used: set<Node>,         // blocks handed out
    waiting: set<Tid>,       // threads inside rt_mp_alloc
    wait: Wait,              // suspend_thread
    total: nat)

  datatype Action =
    | AllocEnter(t: Tid, giveUp: bool)
    | AllocRetry(t: Tid, giveUp: bool)
    | Free(block: Node)
    | Timeout(t: Tid)

  predicate Enabled(s: State, a: Action) {
    match a
    case AllocEnter(t, _) => t !in s.waiting
    case AllocRetry(t, _) => t in s.waiting && t in s.wait.woken
    case Free(block) => block in s.used
    case Timeout(t) => t in s.wait.list
  }

  /** One turn of the loop of rt_mp_alloc, and the code behind it. */
  function TryAlloc(s: State, t: Tid, giveUp: bool): State {
    if s.free == [] then
      if giveUp then s.(waiting := s.waiting - {t}, wait := Pass(s.wait, t))
      else s.(waiting := s.waiting + {t}, wait := BlockFirst(s.wait, t))
    else
      s.(free := s.free[1..], used := s.used + {s.free[0]},
         waiting := s.waiting - {t}, wait := Pass(s.wait, t))
  }

  /** rt_mp_free */
  function Release(s: State, block: Node): State {
    s.(free := [block] + s.free, used := s.used - {block}, wait := WakeFirst(s.wait))
  }

  function Apply(s: State, a: Action): State
    requires Enabled(s, a)
  {
    match a
    case AllocEnter(t, giveUp) => TryAlloc(s, t, giveUp)
    case AllocRetry(t, giveUp) => TryAlloc(s, t, giveUp)
    case Free(block) => Release(s, block)
    case Timeout(t) => s.(waiting := s.waiting - {t}, wait := Expire(s.wait, t))
  }

  function Init(total: nat): State {
    State(seq(total, i requires 0 <= i < total => i), {}, {}, Wait([], {}), total)
  }

  /** Every block is either free, once, or handed out; no wake-up is lost. */
  ghost predicate Inv(s: State) {
    BlocksOk(s) && Sound(s.wait, |s.free|) && s.waiting == Members(s.wait)
  }

  ghost predicate BlocksOk(s: State) {
    && Distinct(s.free)
    && (forall n: Node :: n < s.total <==> n in s.free || n in s.used)
    && (forall n :: n in s.free ==> n !in s.used)
  }

  lemma TryAllocKeeps(s: State, t: Tid, giveUp: bool)
    requires Inv(s) && t !in s.wait.list
    ensures Inv(TryAlloc(s, t, giveUp))
  {
    hide Sound, Members, BlockFirst, Pass, Distinct;
    if s.free == [] {
      GiveUpSound(s.wait, t);
      BlockFirstSound(s.wait, t);
    } else {
      TailDistinct(s.free);
      PassSound(s.wait, t, |s.free|);
    }
  }

  lemma ReleaseKeeps(s: State, block: Node)
    requires Inv(s) && block in s.used
    ensures Inv(Release(s, block))
  {
    hide Sound, Members, WakeFirst;
    WakeFirstSound(s.wait, |s.free|);
    JoinDistinct([block], s.free);
  }

  /** Every action keeps the pool right. */
  lemma ApplyKeeps(s: State, a: Action)
    requires Inv(s) && Enabled(s, a)
    ensures Inv(Apply(s, a))
  {
    hide Sound, BlocksOk, TryAlloc, Release, Expire;
    match a
    case AllocEnter(t, giveUp) => TryAllocKeeps(s, t, giveUp);
    case AllocRetry(t, giveUp) => Resumed(s, t); TryAllocKeeps(s, t, giveUp);
    case Free(block) => ReleaseKeeps(s, block);
    case Timeout(t) => ExpireSound(s.wait, t, |s.free|); SameBlocks(s, Apply(s, a));
  }

  lemma Resumed(s: State, t: Tid)
    requires Inv(s) && t in s.wait.woken
    ensures t !in s.wait.list
  {
  }

  lemma SameBlocks(s: State, r: State)
    requires BlocksOk(s) && r.free == s.free && r.used == s.used && r.total == s.total
    ensures BlocksOk(r)
  {
  }

  ghost predicate IsStep(s: State, a: Action, r: State) {
    Enabled(s, a) && r == Apply(s, a)
  }

  /** Any interleaving of calls and timeouts, from a fresh pool. */
  ghost predicate IsRun(run: seq<State>, acts: seq<Action>, total: nat) {
    && |run| == |acts| + 1
    && run[0] == Init(total)
    && forall i :: 0 <= i < |acts| ==> IsStep(run[i], acts[i], run[i + 1])
  }

  /** Main result: in every state of every interleaving no block is lost or handed out twice,
      and if a thread is suspended every free block has a resumed thread on its way. */
  lemma {:induction false} RunInv(run: seq<State>, acts: seq<Action>, total: nat, k: nat)
    requires IsRun(run, acts, total) && k <= |acts|
    ensures Inv(run[k])
    ensures |run[k].free| + |run[k].used| == total
  {
    hide Inv, Apply;
    RunKeeps(run, acts, total, k);
    BlocksConserved(run[k]);
    RunTotal(run, acts, total, k);
  }

  lemma {:induction false} RunKeeps(run: seq<State>, acts: seq<Action>, total: nat, k: nat)
    requires IsRun(run, acts, total) && k <= |acts|
    ensures Inv(run[k])
  {
    hide Inv, Apply;
    if k == 0 {
      InitInv(total);
    } else {
      RunKeeps(run, acts, total, k - 1);
      assert IsStep(run[k - 1], acts[k - 1], run[k - 1 + 1]);
      ApplyKeeps(run[k - 1], acts[k - 1]);
    }
  }

  lemma {:induction false} RunTotal(run: seq<State>, acts: seq<Action>, total: nat, k: nat)
    requires IsRun(run, acts, total) && k <= |acts|
    ensures run[k].total == total
  {
    if k > 0 {
      RunTotal(run, acts, total, k - 1);
      assert IsStep(run[k - 1], acts[k - 1], run[k - 1 + 1]);
    }
  }

  lemma InitInv(total: nat)
    ensures Inv(Init(total))
  {
    var s := Init(total);
    forall n: Node | n < total
      ensures n in s.free
    {
      assert s.free[n] == n;
    }
  }

  function Elements(s: seq<Node>): set<Node> {
    set n | n in s
  }

  lemma BlocksConserved(s: State)
    requires Inv(s)
    ensures |s.free| + |s.used| == s.total
  {
    hide Sound, Members;
    CountDistinct(s.free);
    var f := Elements(s.free);
    var all := Below(s.total);
    assert f * s.used == {};
    assert f + s.used == all;
    assert |f + s.used| == |f| + |s.used|;
  }

  function Below(k: nat): (r: set<Node>)
    ensures |r| == k
    ensures forall n: Node :: n in r <==> n < k
  {
    if k == 0 then {} else Below(k - 1) + {k - 1}
  }

  lemma {:induction false} CountDistinct(s: seq<Node>)
    requires Distinct(s)
    ensures |Elements(s)| == |s|
  {
    if s == [] {
      assert Elements(s) == {};
    } else {
      TailDistinct(s);
      CountDistinct(s[1..]);
      assert Elements(s) == Elements(s[1..]) + {s[0]};
    }
  }
}
