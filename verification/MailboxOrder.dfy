/** The order of mail from the calls alone: which values are stored, and what every receiver gets. */
module MailboxOrder {
  import opened DequeLog
  import opened IpcList
  import opened MailboxModel

  // ---- What the calls ask for -------------------------------------------------------------

  /** The value of the send call a thread made last. */
  function ValueOf(acts: seq<Action>, t: Tid): Value {
    if acts == [] then 0
    else
      var a := acts[|acts| - 1];
      if a.SendEnter? && a.t == t then a.value else ValueOf(acts[..|acts| - 1], t)
  }

  /** What an action does to a mailbox that holds `items`: a sender stores its value at the back, an urgent
      one in front, if there is room; a receiver takes the value in front, if there is one. */
  function Happens(items: seq<Value>, size: nat, value: Value, a: Action): seq<Event<Value>> {
    match a
    case SendEnter(_, v, _, _) => if |items| < size then [Back(v)] else []
    case SendRetry(_, _, _) => if |items| < size then [Back(value)] else []
    case Urgent(v) => if |items| < size then [Front(v)] else []
    case RecvEnter(_, _, _) => if items != [] then [Pop(items[0])] else []
    case RecvRetry(_, _, _) => if items != [] then [Pop(items[0])] else []
    case Timeout(_) => []
    case Reset => [Clear]
  }

  function ItemsOf(r: Replayed<Value>): seq<Value> {
    if r.Holding? then r.items else []
  }

  /** All that should have happened to the mailbox in the course of these actions. */
  function Expected(acts: seq<Action>, size: nat): seq<Event<Value>> {
    if acts == [] then []
    else
      var before, a := acts[..|acts| - 1], acts[|acts| - 1];
      var value := if a.SendRetry? then ValueOf(before, a.t) else 0;
      Expected(before, size) + Happens(ItemsOf(Replay(Expected(before, size))), size, value, a)
  }

  /** The values that should be stored after these actions. */
  function Items(acts: seq<Action>, size: nat): seq<Value> {
    ItemsOf(Replay(Expected(acts, size)))
  }

  // ---- The mailbox does what was asked for ------------------------------------------------

  ghost predicate Follows(acts: seq<Action>, s: State) {
    && s.log == Expected(acts, s.size)
    && forall t :: PhaseOf(s, t).Sending? ==> PhaseOf(s, t).value == ValueOf(acts, t)
  }

  lemma ValueStep(acts: seq<Action>, a: Action, t: Tid)
    ensures ValueOf(acts + [a], t) == if a.SendEnter? && a.t == t then a.value else ValueOf(acts, t)
  {
    assert (acts + [a])[..|acts|] == acts;
  }

  lemma ExpectedStep(acts: seq<Action>, a: Action, size: nat)
    ensures Expected(acts + [a], size) ==
      Expected(acts, size) + Happens(Items(acts, size), size, if a.SendRetry? then ValueOf(acts, a.t) else 0, a)
  {
    assert (acts + [a])[..|acts|] == acts;
  }

  lemma StepFollows(acts: seq<Action>, s: State, a: Action)
    requires Inv(s) && Follows(acts, s) && Enabled(s, a)
    ensures Follows(acts + [a], Apply(s, a))
  {
    hide Expected, Replay, ValueOf, Items, WaitsOk, IpcList.Enlist, IpcList.Expire, IpcList.WakeFirst, IpcList.Pass, IpcList.Block;
    var r := Apply(s, a);
    ItemsAre(acts, s);
    ExpectedStep(acts, a, s.size);
    assert s.log + [] == s.log;
    Roomy(s);
    forall t | PhaseOf(r, t).Sending?
      ensures PhaseOf(r, t).value == ValueOf(acts + [a], t)
    {
      ValueStep(acts, a, t);
    }
  }

  lemma ItemsAre(acts: seq<Action>, s: State)
    requires Inv(s) && Follows(acts, s)
    ensures Items(acts, s.size) == s.mail
  {
    hide Expected, WaitsOk;
  }

  lemma Roomy(s: State)
    requires Inv(s)
    ensures |s.mail| <= s.size
  {
  }

  // ---- Runs -------------------------------------------------------------------------------

  /** Main result on the order: in every state of every interleaving, what has happened to the mailbox and
      what it holds is what the calls alone say. */
  lemma {:induction false} RunFollows(run: seq<State>, acts: seq<Action>, flag: Flag, size: nat, k: nat)
    requires IsRun(run, acts, flag, size) && k <= |acts|
    ensures run[k].log == Expected(acts[..k], size) && run[k].mail == Items(acts[..k], size)
    ensures Follows(acts[..k], run[k]) && run[k].size == size
  {
    hide Inv, Apply, Follows, Items, Expected;
    RunInv(run, acts, flag, size, k);
    if k == 0 {
      InitFollows(flag, size);
      assert acts[..0] == [];
    } else {
      RunFollows(run, acts, flag, size, k - 1);
      RunInv(run, acts, flag, size, k - 1);
      assert IsStep(run[k - 1], acts[k - 1], run[k - 1 + 1]);
      StepFollows(acts[..k - 1], run[k - 1], acts[k - 1]);
      StepSize(run[k - 1], acts[k - 1]);
      assert acts[..k] == acts[..k - 1] + [acts[k - 1]];
    }
    LogIs(acts[..k], run[k]);
    ItemsAre(acts[..k], run[k]);
  }

  lemma LogIs(acts: seq<Action>, s: State)
    requires Follows(acts, s)
    ensures s.log == Expected(acts, s.size)
  {
  }

  lemma InitFollows(flag: Flag, size: nat)
    ensures Follows([], Init(flag, size))
  {
  }

  lemma StepSize(s: State, a: Action)
    requires Enabled(s, a)
    ensures Apply(s, a).size == s.size
  {
  }

  // ---- Who gets on, and who waits ---------------------------------------------------------

  /** A sender is done exactly if there is room, or else gives up or waits; likewise a receiver. */
  lemma TurnOutcome(s: State, a: Action)
    requires Inv(s) && Enabled(s, a) && (a.SendEnter? || a.SendRetry? || a.RecvEnter? || a.RecvRetry?)
    ensures var p := PhaseOf(Apply(s, a), a.t);
      if a.SendEnter? || a.SendRetry? then
        (p == Idle <==> |s.mail| < s.size || a.giveUp) && (p != Idle ==> p.Sending?)
      else
        (p == Idle <==> s.mail != [] || a.giveUp) && (p != Idle ==> p == Receiving)
  {
    hide WaitsOk, IpcList.Enlist, IpcList.WakeFirst, Replay;
    Roomy(s);
  }

  /** No action but a reset concerns a thread that does not act; a reset sends home those that wait. */
  lemma OthersStay(s: State, a: Action, u: Tid)
    requires Inv(s) && Enabled(s, a)
    ensures PhaseOf(Apply(s, a), u) ==
      if a.Reset? then (if u in s.send.list || u in s.recv.list then Idle else PhaseOf(s, u))
      else if !a.Urgent? && u == a.t then PhaseOf(Apply(s, a), u)
      else PhaseOf(s, u)
    ensures a.Timeout? && u == a.t ==> PhaseOf(Apply(s, a), u) == Idle
  {
    hide Inv, IpcList.Enlist, IpcList.Expire, IpcList.WakeFirst;
  }

  // ---- First in, first out ----------------------------------------------------------------

  /** The values put in, in the order in which they were, and those taken out. */
  function PutIn(log: seq<Event<Value>>): seq<Value> {
    if log == [] then []
    else
      var e := log[|log| - 1];
      PutIn(log[..|log| - 1]) + if e.Back? then [e.item] else []
  }

  function TakenOut(log: seq<Event<Value>>): seq<Value> {
    if log == [] then []
    else
      var e := log[|log| - 1];
      TakenOut(log[..|log| - 1]) + if e.Pop? then [e.item] else []
  }

  predicate NoneUrgent(log: seq<Event<Value>>) {
    forall i :: 0 <= i < |log| ==> log[i].Back? || log[i].Pop?
  }

  lemma {:induction false} QueueReplay(log: seq<Event<Value>>)
    requires NoneUrgent(log) && Replay(log).Holding?
    ensures PutIn(log) == TakenOut(log) + Replay(log).items
  {
    if log != [] {
      QueueReplay(log[..|log| - 1]);
    }
  }

  lemma {:induction false} ExpectedPlain(acts: seq<Action>, size: nat)
    requires forall i :: 0 <= i < |acts| ==> !acts[i].Urgent? && acts[i] != Action.Reset
    ensures NoneUrgent(Expected(acts, size))
  {
    hide Replay, ValueOf;
    if acts != [] {
      ExpectedPlain(acts[..|acts| - 1], size);
    }
  }

  /** First in, first out: in runs without urgent values and resets, the values put in are those taken out
      so far followed by those stored. */
  lemma FirstInFirstOut(run: seq<State>, acts: seq<Action>, flag: Flag, size: nat, k: nat)
    requires IsRun(run, acts, flag, size) && k <= |acts|
    requires forall i :: 0 <= i < k ==> !acts[i].Urgent? && acts[i] != Action.Reset
    ensures PutIn(run[k].log) == TakenOut(run[k].log) + run[k].mail
  {
    hide WaitsOk, Apply, Expected, PutIn, TakenOut, Replay;
    RunInv(run, acts, flag, size, k);
    RunFollows(run, acts, flag, size, k);
    ExpectedPlain(acts[..k], size);
    QueueReplay(run[k].log);
  }
}
