/** The order of messages from the calls alone: what goes into the queue, and on which side, is what
    the threads passed to their calls, and a receiver gets what is then in front.
 */
module MsgQueueOrder {
  import opened Chains
  import opened DequeLog
  import opened IpcList
  import opened MsgQueueDeliveries
  import opened MsgQueueLemmas
  import opened MsgQueueModel
  import opened Sequences

  // ---- What the calls ask for -------------------------------------------------------------

  datatype Request = NoRequest | Ordinary(msg: Msg) | Urgent(msg: Msg) | Wanted(size: nat)

  /** The call a thread made last, as it was made. */
  function RequestOf(acts: seq<Action>, t: Tid): Request {
    if acts == [] then NoRequest
    else
      var before := acts[..|acts| - 1];
      match acts[|acts| - 1]
      case SendEnter(u, msg, _, _) => if u == t then Ordinary(msg) else RequestOf(before, t)
      case UrgentEnter(u, msg) => if u == t then Urgent(msg) else RequestOf(before, t)
      case RecvEnter(u, size, _, _) => if u == t then Wanted(size) else RequestOf(before, t)
      case _ => RequestOf(before, t)
  }

  /** What an action does to a queue that holds `items`: the second half of a send puts the message of
      the thread's call at the back, of an urgent one in front; a receiver takes the message in front, if
      there is one; a reset takes all. */
  function Happens(items: seq<Msg>, request: Request, a: Action): seq<Event<Msg>> {
    match a
    case Link(_) => if request.Ordinary? then [Back(request.msg)] else if request.Urgent? then [Front(request.msg)] else []
    case RecvEnter(_, _, _, _) => if items != [] then [Pop(items[0])] else []
    case RecvRetry(_, _, _) => if items != [] then [Pop(items[0])] else []
    case Reset => [Clear]
    case _ => []
  }

  function Caller(a: Action): Tid {
    if a.Reset? then 0 else a.t
  }

  function ItemsOf(r: Replayed<Msg>): seq<Msg> {
    if r.Holding? then r.items else []
  }

  /** All that should have happened to the queue in the course of these actions. */
  function Expected(acts: seq<Action>): seq<Event<Msg>> {
    if acts == [] then []
    else
      var before, a := acts[..|acts| - 1], acts[|acts| - 1];
      Expected(before) + Happens(ItemsOf(Replay(Expected(before))), RequestOf(before, Caller(a)), a)
  }

  /** The messages that should be in the queue after these actions. */
  function Items(acts: seq<Action>): seq<Msg> {
    ItemsOf(Replay(Expected(acts)))
  }

  /** The message a thread took out last: the one in front at its turn. */
  function TookLast(acts: seq<Action>, t: Tid): Msg {
    if acts == [] then []
    else
      var before, a := acts[..|acts| - 1], acts[|acts| - 1];
      if (a.RecvEnter? || a.RecvRetry?) && a.t == t && Items(before) != [] then Items(before)[0]
      else TookLast(before, t)
  }

  datatype Receipt = Receipt(msg: Msg, size: nat)

  /** What the receivers should have got: of the message that was in front, as much as they asked for. */
  function Receipts(acts: seq<Action>): seq<Receipt> {
    if acts == [] then []
    else
      var before, a := acts[..|acts| - 1], acts[|acts| - 1];
      var r := if a.Finish? then RequestOf(before, a.t) else NoRequest;
      Receipts(before) + if r.Wanted? then [Receipt(TookLast(before, a.t), r.size)] else []
  }

  function ReceiptsOf(delivered: seq<Delivery>): seq<Receipt> {
    seq(|delivered|, i requires 0 <= i < |delivered| => Receipt(delivered[i].msg, delivered[i].size))
  }

  // ---- The queue does what was asked for --------------------------------------------------

  /** A thread in the middle of a call works on what it was called with. */
  ghost predicate AsCalled(acts: seq<Action>, p: Phase, t: Tid) {
    match p
    case Idle => true
    case Sending(msg) => RequestOf(acts, t) == Ordinary(msg)
    case Filling(msg, _, _, urgent) => RequestOf(acts, t) == if urgent then Urgent(msg) else Ordinary(msg)
    case Receiving(size) => RequestOf(acts, t) == Wanted(size)
    case Draining(size, _, _, msg) => RequestOf(acts, t) == Wanted(size) && TookLast(acts, t) == msg
  }

  ghost predicate Follows(acts: seq<Action>, s: State) {
    && s.log == Expected(acts) && ReceiptsOf(s.delivered) == Receipts(acts)
    && forall t :: AsCalled(acts, PhaseOf(s, t), t)
  }

  lemma RequestStep(acts: seq<Action>, a: Action, t: Tid)
    ensures RequestOf(acts + [a], t) ==
      if a.SendEnter? && a.t == t then Ordinary(a.msg) else if a.UrgentEnter? && a.t == t then Urgent(a.msg)
      else if a.RecvEnter? && a.t == t then Wanted(a.size) else RequestOf(acts, t)
  {
    assert (acts + [a])[..|acts|] == acts;
  }

  lemma ExpectedStep(acts: seq<Action>, a: Action)
    ensures Expected(acts + [a]) == Expected(acts) + Happens(Items(acts), RequestOf(acts, Caller(a)), a)
  {
    assert (acts + [a])[..|acts|] == acts;
  }

  lemma TookStep(acts: seq<Action>, a: Action, t: Tid)
    ensures TookLast(acts + [a], t) ==
      if (a.RecvEnter? || a.RecvRetry?) && a.t == t && Items(acts) != [] then Items(acts)[0] else TookLast(acts, t)
  {
    hide Items;
    assert (acts + [a])[..|acts|] == acts;
  }

  lemma ReceiptsStep(acts: seq<Action>, a: Action)
    ensures Receipts(acts + [a]) == Receipts(acts) +
      if a.Finish? && RequestOf(acts, a.t).Wanted? then [Receipt(TookLast(acts, a.t), RequestOf(acts, a.t).size)] else []
  {
    assert (acts + [a])[..|acts|] == acts;
  }

  /** What a step does that neither links, receives, delivers nor resets. */
  lemma QuietFollows(acts: seq<Action>, s: State, a: Action, r: State)
    requires Follows(acts, s) && r.log == s.log && r.delivered == s.delivered
    requires !a.Link? && !a.RecvEnter? && !a.RecvRetry? && !a.Finish? && !a.Reset?
    requires forall u :: u != a.t ==> PhaseOf(r, u) == PhaseOf(s, u)
    requires AsCalled(acts + [a], PhaseOf(r, a.t), a.t)
    ensures Follows(acts + [a], r)
  {
    hide Expected, Receipts, RequestOf, TookLast, PhaseOf, Items;
    ExpectedStep(acts, a);
    ReceiptsStep(acts, a);
    forall u
      ensures AsCalled(acts + [a], PhaseOf(r, u), u)
    {
      if u != a.t {
        RequestStep(acts, a, u);
        TookStep(acts, a, u);
      }
    }
  }

  /** What a step leaves alone: the size of the messages and the threads other than t. */
  ghost predicate OnlyFor(s: State, r: State, t: Tid) {
    r.msgSize == s.msgSize && forall u: Tid :: u != t ==> PhaseOf(r, u) == PhaseOf(s, u)
  }

  lemma TakeFor(s: State, t: Tid, msg: Msg, giveUp: bool, prio: Priorities)
    ensures var r := TryTake(s, t, msg, giveUp, prio);
      OnlyFor(s, r, t) && r.log == s.log && r.delivered == s.delivered
      && var p := PhaseOf(r, t);
         p == Idle || p == Sending(msg) || (s.free != [] && p == Filling(msg, s.free[0], 0, false))
  {
    hide IpcList.Enlist;
  }

  lemma UrgentFor(s: State, t: Tid, msg: Msg)
    requires s.free != []
    ensures var r := TakeFree(s, t, msg, true);
      OnlyFor(s, r, t) && r.log == s.log && r.delivered == s.delivered && PhaseOf(r, t) == Filling(msg, s.free[0], 0, true)
  {
  }

  lemma ReceiveFor(s: State, t: Tid, size: nat, giveUp: bool, prio: Priorities)
    ensures var r := TryRecv(s, t, size, giveUp, prio);
      OnlyFor(s, r, t) && r.delivered == s.delivered
      && if s.queue == [] then r.log == s.log && (PhaseOf(r, t) == Idle || PhaseOf(r, t) == Receiving(size))
         else var msg := SentOf(s, s.queue[0]);
           r.log == s.log + [Pop(msg)] && PhaseOf(r, t) == Draining(size, s.queue[0], [], msg)
  {
    hide IpcList.Enlist;
  }

  lemma SendFollows(acts: seq<Action>, s: State, a: Action)
    requires Follows(acts, s) && Enabled(s, a) && (a.SendEnter? || a.SendRetry? || a.UrgentEnter?)
    ensures Follows(acts + [a], Apply(s, a))
  {
    hide Expected, Receipts, RequestOf, TookLast, Items, Follows, TryTake, TakeFree, PhaseOf;
    FollowsAt(acts, s, a.t);
    RequestStep(acts, a, a.t);
    TookStep(acts, a, a.t);
    match a {
      case SendEnter(t, msg, giveUp, prio) => TakeFor(s, t, msg, giveUp, prio);
      case SendRetry(t, giveUp, prio) => TakeFor(s, t, PhaseOf(s, t).msg, giveUp, prio);
      case UrgentEnter(t, msg) => if s.free != [] { UrgentFor(s, t, msg); }
    }
    QuietFollows(acts, s, a, Apply(s, a));
  }

  lemma FollowsAt(acts: seq<Action>, s: State, t: Tid)
    requires Follows(acts, s)
    ensures AsCalled(acts, PhaseOf(s, t), t) && s.log == Expected(acts) && ReceiptsOf(s.delivered) == Receipts(acts)
  {
  }

  lemma CopyFollows(acts: seq<Action>, s: State, a: Action)
    requires Follows(acts, s) && Enabled(s, a) && (a.FillByte? || a.DrainByte?)
    ensures Follows(acts + [a], Apply(s, a))
  {
    hide Expected, Receipts, RequestOf, TookLast, Items, Follows;
    FollowsAt(acts, s, a.t);
    RequestStep(acts, a, a.t);
    TookStep(acts, a, a.t);
    QuietFollows(acts, s, a, Apply(s, a));
  }

  lemma TimeoutFollows(acts: seq<Action>, s: State, a: Action)
    requires Follows(acts, s) && Enabled(s, a) && a.Timeout?
    ensures Follows(acts + [a], Apply(s, a))
  {
    hide Expected, Receipts, RequestOf, TookLast, Items, Follows, IpcList.Expire;
    FollowsAt(acts, s, a.t);
    QuietFollows(acts, s, a, Apply(s, a));
  }

  lemma LinkFollows(acts: seq<Action>, s: State, a: Action)
    requires Follows(acts, s) && Enabled(s, a) && a.Link?
    ensures Follows(acts + [a], Apply(s, a))
  {
    hide Expected, Receipts, RequestOf, TookLast, Items, IpcList.WakeFirst;
    var r := Apply(s, a);
    FollowsAt(acts, s, a.t);
    ExpectedStep(acts, a);
    ReceiptsStep(acts, a);
    forall u
      ensures AsCalled(acts + [a], PhaseOf(r, u), u)
    {
      RequestStep(acts, a, u);
      TookStep(acts, a, u);
      assert AsCalled(acts, PhaseOf(s, u), u);
    }
  }

  /** What is in front by the calls is what is in front of the queue. */
  lemma ItemsAre(acts: seq<Action>, s: State)
    requires Follows(acts, s) && OrderOk(s)
    ensures Items(acts) == Contents(s)
    ensures s.queue != [] ==> Items(acts) != [] && Items(acts)[0] == SentOf(s, s.queue[0])
  {
    hide Expected, Replay;
  }

  lemma RecvFollows(acts: seq<Action>, s: State, a: Action)
    requires Follows(acts, s) && OrderOk(s) && Enabled(s, a) && (a.RecvEnter? || a.RecvRetry?)
    ensures Follows(acts + [a], Apply(s, a))
  {
    hide Expected, Receipts, RequestOf, TookLast, Items, OrderOk, TryRecv, Contents, PhaseOf;
    var r := Apply(s, a);
    FollowsAt(acts, s, a.t);
    match a {
      case RecvEnter(t, size, giveUp, prio) => ReceiveFor(s, t, size, giveUp, prio);
      case RecvRetry(t, giveUp, prio) => ReceiveFor(s, t, PhaseOf(s, t).size, giveUp, prio);
    }
    ItemsAre(acts, s);
    NoContents(s);
    ExpectedStep(acts, a);
    ReceiptsStep(acts, a);
    forall u
      ensures AsCalled(acts + [a], PhaseOf(r, u), u)
    {
      RequestStep(acts, a, u);
      TookStep(acts, a, u);
      assert AsCalled(acts, PhaseOf(s, u), u);
    }
  }

  lemma NoContents(s: State)
    ensures Contents(s) == [] <==> s.queue == []
  {
  }

  lemma FinishFollows(acts: seq<Action>, s: State, a: Action)
    requires Follows(acts, s) && Enabled(s, a) && a.Finish?
    ensures Follows(acts + [a], Apply(s, a))
  {
    hide Expected, Receipts, RequestOf, TookLast, Items, IpcList.WakeFirst;
    var r, p := Apply(s, a), PhaseOf(s, a.t);
    FollowsAt(acts, s, a.t);
    ExpectedStep(acts, a);
    ReceiptsStep(acts, a);
    assert ReceiptsOf(r.delivered) == ReceiptsOf(s.delivered) + [Receipt(p.msg, p.size)];
    forall u
      ensures AsCalled(acts + [a], PhaseOf(r, u), u)
    {
      RequestStep(acts, a, u);
      TookStep(acts, a, u);
      assert AsCalled(acts, PhaseOf(s, u), u);
    }
  }

  lemma ResetFollows(acts: seq<Action>, s: State)
    requires Follows(acts, s)
    ensures Follows(acts + [Action.Reset], ResetAll(s))
  {
    hide Expected, Receipts, RequestOf, TookLast, Items;
    var a, r := Action.Reset, ResetAll(s);
    ExpectedStep(acts, a);
    ReceiptsStep(acts, a);
    forall u
      ensures AsCalled(acts + [a], PhaseOf(r, u), u)
    {
      RequestStep(acts, a, u);
      TookStep(acts, a, u);
      assert AsCalled(acts, PhaseOf(s, u), u);
    }
  }

  lemma ApplyFollows(acts: seq<Action>, s: State, a: Action)
    requires Follows(acts, s) && OrderOk(s) && Enabled(s, a)
    ensures Follows(acts + [a], Apply(s, a))
  {
    hide Follows, OrderOk, TryTake, TryRecv, PutFree, ResetAll, LinkNode;
    match a
    case SendEnter(_, _, _, _) => SendFollows(acts, s, a);
    case SendRetry(_, _, _) => SendFollows(acts, s, a);
    case UrgentEnter(_, _) => SendFollows(acts, s, a);
    case FillByte(_) => CopyFollows(acts, s, a);
    case DrainByte(_) => CopyFollows(acts, s, a);
    case Link(_) => LinkFollows(acts, s, a);
    case RecvEnter(_, _, _, _) => RecvFollows(acts, s, a);
    case RecvRetry(_, _, _) => RecvFollows(acts, s, a);
    case Finish(_) => FinishFollows(acts, s, a);
    case Timeout(_) => TimeoutFollows(acts, s, a);
    case Reset => ResetFollows(acts, s);
  }

  lemma InitFollows(flag: Flag, maxMsgs: nat, msgSize: nat)
    ensures Follows([], Init(flag, maxMsgs, msgSize))
  {
  }

  // ---- Runs -------------------------------------------------------------------------------

  /** Main result on the order: in every state of every interleaving, what has happened to the queue,
      what it holds and what the receivers got are what the calls alone say. */
  lemma {:induction false} RunFollows(run: seq<State>, acts: seq<Action>, flag: Flag, maxMsgs: nat, msgSize: nat, k: nat)
    requires IsRun(run, acts, flag, maxMsgs, msgSize) && k <= |acts|
    ensures run[k].log == Expected(acts[..k]) && Contents(run[k]) == Items(acts[..k])
    ensures ReceiptsOf(run[k].delivered) == Receipts(acts[..k])
    ensures forall d :: d in run[k].delivered ==> Whole(d, msgSize)
  {
    hide Inv, Apply, Init, Follows, Expected, Items, Receipts, Contents, IsRun;
    StateFollows(run, acts, flag, maxMsgs, msgSize, k);
    FollowsAt(acts[..k], run[k], 0);
    ItemsAre(acts[..k], run[k]);
  }

  lemma {:induction false} StateFollows(run: seq<State>, acts: seq<Action>, flag: Flag, maxMsgs: nat, msgSize: nat, k: nat)
    requires IsRun(run, acts, flag, maxMsgs, msgSize) && k <= |acts|
    ensures |run| == |acts| + 1 && Follows(acts[..k], run[k]) && OrderOk(run[k]) && run[k].msgSize == msgSize
  {
    hide NodesInPlace, PayloadsOk, WaitsOk, OrderOk, Apply, Init, Follows;
    RunInv(run, acts, flag, maxMsgs, msgSize, k);
    if k == 0 {
      assert acts[..0] == [];
      InitFollows(flag, maxMsgs, msgSize);
      InitSize(flag, maxMsgs, msgSize);
    } else {
      StateFollows(run, acts, flag, maxMsgs, msgSize, k - 1);
      assert IsStep(run[k - 1], acts[k - 1], run[k - 1 + 1]);
      ApplyFollows(acts[..k - 1], run[k - 1], acts[k - 1]);
      ApplySize(run[k - 1], acts[k - 1]);
      assert acts[..k] == acts[..k - 1] + [acts[k - 1]];
    }
  }

  lemma InitSize(flag: Flag, maxMsgs: nat, msgSize: nat)
    ensures Init(flag, maxMsgs, msgSize).msgSize == msgSize
  {
  }

  lemma ApplySize(s: State, a: Action)
    requires Enabled(s, a)
    ensures Apply(s, a).msgSize == s.msgSize
  {
    if !a.Reset? {
      ActsFor(s, a);
    }
  }

  /** Every action but a reset concerns the thread that acts. */
  lemma ActsFor(s: State, a: Action)
    requires Enabled(s, a) && !a.Reset?
    ensures OnlyFor(s, Apply(s, a), a.t)
  {
    hide TryTake, TakeFree, TryRecv, IpcList.WakeFirst, IpcList.Expire;
    match a
    case SendEnter(t, msg, giveUp, prio) => TakeFor(s, t, msg, giveUp, prio);
    case SendRetry(t, giveUp, prio) => TakeFor(s, t, PhaseOf(s, t).msg, giveUp, prio);
    case UrgentEnter(t, msg) => if s.free != [] { UrgentFor(s, t, msg); }
    case RecvEnter(t, size, giveUp, prio) => ReceiveFor(s, t, size, giveUp, prio);
    case RecvRetry(t, giveUp, prio) => ReceiveFor(s, t, PhaseOf(s, t).size, giveUp, prio);
    case _ =>
  }

  // ---- Who gets on, and who waits ---------------------------------------------------------

  /** A node of the pool that is neither queued nor in the hands of a thread. */
  ghost predicate Spare(s: State, n: Node) {
    n < s.maxMsgs && n !in s.queue && forall u :: !Holds(PhaseOf(s, u), n)
  }

  lemma SpareIsFree(s: State)
    requires NodesInPlace(s)
    ensures forall n :: Spare(s, n) <==> n in s.free
  {
    hide Holds, PhaseOf, Distinct;
    forall n: Node
      ensures Spare(s, n) <==> n in s.free
    {
      if n < s.maxMsgs && n !in s.queue && n !in s.free {
        var t := s.place[n].thread;
        assert Holds(PhaseOf(s, t), n);
      }
    }
  }

  /** A send gets a spare node exactly if there is one; otherwise an urgent send fails, and an ordinary
      one gives up or waits, as it was asked to. */
  lemma SendOutcome(s: State, a: Action)
    requires Inv(s) && Enabled(s, a) && (a.SendEnter? || a.SendRetry? || a.UrgentEnter?)
    ensures var p := PhaseOf(Apply(s, a), a.t);
      if exists n :: Spare(s, n) then p.Filling? && Spare(s, p.node) && p.done == 0
      else if a.UrgentEnter? || a.giveUp then p == Idle
      else p.Sending?
  {
    hide NodesInPlace, PayloadsOk, WaitsOk, OrderOk, Spare, IpcList.Enlist;
    SpareIsFree(s);
    if s.free != [] {
      assert s.free[0] in s.free;
    }
  }

  /** A receive gets the first message exactly if there is one; otherwise it gives up or waits. */
  lemma RecvOutcome(s: State, a: Action)
    requires Enabled(s, a) && (a.RecvEnter? || a.RecvRetry?)
    ensures var p := PhaseOf(Apply(s, a), a.t);
      if Contents(s) != [] then p.Draining? && p.msg == Contents(s)[0] && p.buf == []
      else if a.giveUp then p == Idle
      else p.Receiving?
  {
    hide IpcList.Enlist;
  }

  /** No action but a reset concerns a thread that does not act; a reset sends home those that wait. */
  lemma OthersStay(s: State, a: Action, u: Tid)
    requires Inv(s) && Enabled(s, a)
    ensures PhaseOf(Apply(s, a), u) ==
      if a.Reset? then (if u in s.send.list || u in s.recv.list then Idle else PhaseOf(s, u))
      else if u == a.t then PhaseOf(Apply(s, a), u)
      else PhaseOf(s, u)
    ensures a.Timeout? && u == a.t ==> PhaseOf(Apply(s, a), u) == Idle
  {
    hide Inv, TryTake, TakeFree, TryRecv, PutFree, LinkNode, IpcList.Expire;
    if !a.Reset? {
      ActsFor(s, a);
    }
  }

  // ---- First in, first out ----------------------------------------------------------------

  /** The messages of the send calls, in the order in which they were linked. */
  function Linked(acts: seq<Action>): seq<Msg> {
    if acts == [] then []
    else
      var before, a := acts[..|acts| - 1], acts[|acts| - 1];
      var r := if a.Link? then RequestOf(before, a.t) else NoRequest;
      Linked(before) + if r.Ordinary? then [r.msg] else []
  }

  predicate NoneUrgent(acts: seq<Action>) {
    forall i :: 0 <= i < |acts| ==> !acts[i].UrgentEnter? && acts[i] != Action.Reset
  }

  lemma {:induction false} NotUrgent(acts: seq<Action>, t: Tid)
    requires NoneUrgent(acts)
    ensures !RequestOf(acts, t).Urgent?
  {
    if acts != [] {
      NotUrgent(acts[..|acts| - 1], t);
    }
  }

  lemma LinkedSnoc(before: seq<Action>, a: Action)
    ensures Linked(before + [a]) == Linked(before) +
      if a.Link? && RequestOf(before, a.t).Ordinary? then [RequestOf(before, a.t).msg] else []
  {
    hide RequestOf;
    assert (before + [a])[..|before|] == before;
  }

  lemma LinkedStep(before: seq<Action>, a: Action)
    requires Replay(Expected(before)).Holding? && Linked(before) == Popped(Expected(before)) + Items(before)
    requires !RequestOf(before, Caller(a)).Urgent? && a != Action.Reset
    ensures var acts := before + [a];
      Replay(Expected(acts)).Holding? && Linked(acts) == Popped(Expected(acts)) + Items(acts)
  {
    hide Expected, Popped, Replay, RequestOf, Linked;
    var items, log := Items(before), Expected(before);
    LinkedSnoc(before, a);
    ExpectedStep(before, a);
    if a.Link? && RequestOf(before, a.t).Ordinary? {
      ReplayStep(log, Back(RequestOf(before, a.t).msg));
      PoppedStep(log, Back(RequestOf(before, a.t).msg));
    } else if (a.RecvEnter? || a.RecvRetry?) && items != [] {
      PopStep(log, items);
    } else {
      assert log + [] == log;
    }
  }

  lemma PopStep(log: seq<Event<Msg>>, items: seq<Msg>)
    requires Replay(log) == Holding(items)
    ensures items != [] ==>
      && Replay(log + [Pop(items[0])]) == Holding(items[1..])
      && Popped(log) + items == Popped(log + [Pop(items[0])]) + items[1..]
  {
    hide Replay, Popped;
    if items != [] {
      ReplayStep(log, Pop(items[0]));
      PoppedStep(log, Pop(items[0]));
      assert items == [items[0]] + items[1..];
    }
  }

  /** Replaying what happened takes from the front of what was linked, and leaves the rest. */
  lemma {:induction false} LinkedReplay(acts: seq<Action>)
    requires NoneUrgent(acts)
    ensures Replay(Expected(acts)).Holding? && Linked(acts) == Popped(Expected(acts)) + Items(acts)
  {
    hide Expected, Items, RequestOf, Popped;
    if acts == [] {
      NothingLinked();
    } else {
      var before, a := acts[..|acts| - 1], acts[|acts| - 1];
      assert acts == before + [a];
      LinkedReplay(before);
      NotUrgent(before, Caller(a));
      LinkedStep(before, a);
    }
  }

  lemma NothingLinked()
    ensures Replay(Expected([])).Holding? && Linked([]) == Popped(Expected([])) + Items([])
  {
  }

  /** Main result, first in first out: in runs without urgent messages and resets, the messages passed
      to the send calls, in the order in which they were linked, are those taken out so far followed by those
      in the queue. */
  lemma FirstInFirstOut(run: seq<State>, acts: seq<Action>, flag: Flag, maxMsgs: nat, msgSize: nat, k: nat)
    requires IsRun(run, acts, flag, maxMsgs, msgSize) && k <= |acts| && NoneUrgent(acts[..k])
    ensures Linked(acts[..k]) == Popped(run[k].log) + Contents(run[k])
  {
    hide Linked, Popped, Contents, IsRun, Items, Expected, Receipts;
    RunFollows(run, acts, flag, maxMsgs, msgSize, k);
    LinkedReplay(acts[..k]);
  }
}
