/** No message gets lost or doubled between the queue and the receivers: what was taken out of a
    message queue has arrived, or is being copied by a thread.
 */
module MsgQueueDeliveries {
  import opened DequeLog
  import opened IpcList
  import opened MsgQueueLemmas
  import opened MsgQueueModel
  import opened Sequences

  /** The messages taken out of the queue, oldest first. */
  function Popped(log: seq<Event<Msg>>): seq<Msg> {
    if log == [] then []
    else
      var e := log[|log| - 1];
      Popped(log[..|log| - 1]) + if e.Pop? then [e.item] else []
  }

  function Arrived(delivered: seq<Delivery>): seq<Msg> {
    seq(|delivered|, i requires 0 <= i < |delivered| => delivered[i].msg)
  }

  /** The message a thread is copying out of its node. */
  function Copied(p: Phase): Msg {
    if p.Draining? then p.msg else []
  }

  function OnTheWay(s: State, who: seq<Tid>): seq<Msg> {
    seq(|who|, i requires 0 <= i < |who| => Copied(PhaseOf(s, who[i])))
  }

  /** All threads that are copying out of a node, once each. */
  ghost predicate Copiers(s: State, who: seq<Tid>) {
    Distinct(who) && forall t :: t in who <==> PhaseOf(s, t).Draining?
  }

  ghost predicate Accounts(s: State, who: seq<Tid>) {
    Copiers(s, who) && multiset(Popped(s.log)) == multiset(Arrived(s.delivered)) + multiset(OnTheWay(s, who))
  }

  ghost predicate AllArrive(s: State) {
    exists who: seq<Tid> :: Accounts(s, who)
  }

  lemma PoppedStep(log: seq<Event<Msg>>, e: Event<Msg>)
    ensures Popped(log + [e]) == Popped(log) + if e.Pop? then [e.item] else []
  {
    assert (log + [e])[..|log|] == log;
  }

  /** Nobody begins or ends to copy out of a node. */
  lemma SameCopiers(s: State, r: State)
    requires AllArrive(s) && r.delivered == s.delivered && Popped(r.log) == Popped(s.log)
    requires forall t :: PhaseOf(r, t).Draining? == PhaseOf(s, t).Draining? && Copied(PhaseOf(r, t)) == Copied(PhaseOf(s, t))
    ensures AllArrive(r)
  {
    hide Popped, PhaseOf;
    var who :| Accounts(s, who);
    assert OnTheWay(r, who) == OnTheWay(s, who);
    assert Accounts(r, who);
  }

  ghost predicate OnlyPhase(s: State, r: State, t: Tid) {
    forall u :: u != t ==> PhaseOf(r, u) == PhaseOf(s, u)
  }

  /** A thread begins to copy the message it took out of the queue. */
  lemma OneMore(s: State, r: State, t: Tid, msg: Msg)
    requires AllArrive(s) && OnlyPhase(s, r, t) && !PhaseOf(s, t).Draining?
    requires PhaseOf(r, t).Draining? && PhaseOf(r, t).msg == msg
    requires r.delivered == s.delivered && Popped(r.log) == Popped(s.log) + [msg]
    ensures AllArrive(r)
  {
    hide Popped, PhaseOf;
    var who :| Accounts(s, who);
    SingleDistinct(t);
    JoinDistinct(who, [t]);
    assert OnTheWay(r, who + [t]) == OnTheWay(s, who) + [msg];
    assert Accounts(r, who + [t]);
  }

  lemma WithoutCopier(who: seq<Tid>, i: nat, t: Tid)
    requires Distinct(who) && i < |who| && who[i] == t
    ensures var rest := who[..i] + who[i + 1..]; Distinct(rest) && forall u :: u in rest <==> u in who && u != t
  {
    var rest := who[..i] + who[i + 1..];
    assert forall j :: 0 <= j < |rest| ==> rest[j] == who[if j < i then j else j + 1];
    forall u
      ensures u in rest <==> u in who && u != t
    {
      if u in who && u != t {
        var j :| 0 <= j < |who| && who[j] == u;
        assert rest[if j < i then j else j - 1] == u;
      }
    }
  }

  /** A thread hands what it copied to its caller. */
  lemma OneLess(s: State, r: State, t: Tid)
    requires AllArrive(s) && OnlyPhase(s, r, t) && PhaseOf(s, t).Draining? && !PhaseOf(r, t).Draining?
    requires Arrived(r.delivered) == Arrived(s.delivered) + [PhaseOf(s, t).msg] && Popped(r.log) == Popped(s.log)
    ensures AllArrive(r)
  {
    hide Popped, PhaseOf, Arrived, OnTheWay, Distinct;
    var who :| Accounts(s, who);
    var i :| 0 <= i < |who| && who[i] == t;
    var rest := who[..i] + who[i + 1..];
    WithoutCopier(who, i, t);
    OnTheWayWithout(s, r, who, i, t);
    assert Accounts(r, rest);
  }

  lemma OnTheWayWithout(s: State, r: State, who: seq<Tid>, i: nat, t: Tid)
    requires OnlyPhase(s, r, t) && i < |who| && who[i] == t && t !in who[..i] + who[i + 1..]
    ensures multiset(OnTheWay(s, who))
         == multiset(OnTheWay(r, who[..i] + who[i + 1..])) + multiset([Copied(PhaseOf(s, t))])
  {
    hide PhaseOf, Copied;
    var a, b := OnTheWay(s, who[..i]), OnTheWay(s, who[i + 1..]);
    var rest := who[..i] + who[i + 1..];
    assert OnTheWay(s, who) == a + [Copied(PhaseOf(s, t))] + b;
    forall j: nat | j < |rest|
      ensures OnTheWay(r, rest)[j] == (a + b)[j]
    {
      assert rest[j] in rest;
    }
    assert OnTheWay(r, rest) == a + b;
  }

  lemma TryRecvArrive(s: State, t: Tid, size: nat, giveUp: bool, prio: Priorities)
    requires AllArrive(s) && !PhaseOf(s, t).Draining?
    ensures AllArrive(TryRecv(s, t, size, giveUp, prio))
  {
    hide AllArrive, Popped, IpcList.Enlist;
    var r := TryRecv(s, t, size, giveUp, prio);
    if s.queue == [] {
      SameCopiers(s, r);
    } else {
      PoppedStep(s.log, Pop(SentOf(s, s.queue[0])));
      OneMore(s, r, t, SentOf(s, s.queue[0]));
    }
  }

  lemma FinishArrive(s: State, t: Tid)
    requires AllArrive(s) && PhaseOf(s, t).Draining?
    ensures AllArrive(PutFree(s, t, PhaseOf(s, t)))
  {
    hide AllArrive, Popped;
    var r := PutFree(s, t, PhaseOf(s, t));
    assert Arrived(r.delivered) == Arrived(s.delivered) + [PhaseOf(s, t).msg];
    OneLess(s, r, t);
  }

  /** Threads that wait are not copying. */
  lemma WaitersDoNotCopy(s: State, t: Tid)
    requires WaitsOk(s) && (t in s.send.list || t in s.recv.list)
    ensures !PhaseOf(s, t).Draining?
  {
    MembersAre(s.send);
    MembersAre(s.recv);
    assert t in Members(s.send) || t in Members(s.recv);
  }

  lemma ResetArrive(s: State)
    requires AllArrive(s) && WaitsOk(s)
    ensures AllArrive(ResetAll(s))
  {
    hide WaitsOk, Popped;
    PoppedStep(s.log, Clear);
    forall t
      ensures t in s.send.list || t in s.recv.list ==> !PhaseOf(s, t).Draining?
    {
      if t in s.send.list || t in s.recv.list {
        WaitersDoNotCopy(s, t);
      }
    }
    SameCopiers(s, ResetAll(s));
  }

  lemma LinkArrive(s: State, t: Tid)
    requires AllArrive(s) && Enabled(s, Link(t))
    ensures AllArrive(Apply(s, Link(t)))
  {
    hide AllArrive, Popped, IpcList.WakeFirst;
    var p := PhaseOf(s, t);
    PoppedStep(s.log, if p.urgent then Front(p.msg) else Back(p.msg));
    SameCopiers(s, Apply(s, Link(t)));
  }

  lemma TryTakeArrive(s: State, t: Tid, msg: Msg, giveUp: bool, prio: Priorities)
    requires AllArrive(s) && !PhaseOf(s, t).Draining?
    ensures AllArrive(TryTake(s, t, msg, giveUp, prio))
  {
    hide AllArrive, Popped, IpcList.Enlist;
    SameCopiers(s, TryTake(s, t, msg, giveUp, prio));
  }

  lemma TimeoutArrive(s: State, t: Tid)
    requires AllArrive(s) && WaitsOk(s) && Enabled(s, Timeout(t))
    ensures AllArrive(Apply(s, Timeout(t)))
  {
    hide AllArrive, WaitsOk, Popped, IpcList.Expire;
    WaitersDoNotCopy(s, t);
    SameCopiers(s, Apply(s, Timeout(t)));
  }

  lemma UrgentArrive(s: State, t: Tid, msg: Msg)
    requires AllArrive(s) && Enabled(s, UrgentEnter(t, msg))
    ensures AllArrive(Apply(s, UrgentEnter(t, msg)))
  {
    hide AllArrive, Popped;
    SameCopiers(s, Apply(s, UrgentEnter(t, msg)));
  }

  lemma CopyArrive(s: State, a: Action)
    requires AllArrive(s) && (a.FillByte? || a.DrainByte?) && Enabled(s, a)
    ensures AllArrive(Apply(s, a))
  {
    hide AllArrive, Popped;
    SameCopiers(s, Apply(s, a));
  }

  /** Every action keeps the account of the messages. */
  lemma ApplyArrive(s: State, a: Action)
    requires AllArrive(s) && WaitsOk(s) && Enabled(s, a)
    ensures AllArrive(Apply(s, a))
  {
    hide AllArrive, WaitsOk, TryRecv, TryTake, PutFree, ResetAll;
    match a
    case SendEnter(t, msg, giveUp, prio) => TryTakeArrive(s, t, msg, giveUp, prio);
    case SendRetry(t, giveUp, prio) => TryTakeArrive(s, t, PhaseOf(s, t).msg, giveUp, prio);
    case UrgentEnter(t, msg) => UrgentArrive(s, t, msg);
    case RecvEnter(t, size, giveUp, prio) => TryRecvArrive(s, t, size, giveUp, prio);
    case RecvRetry(t, giveUp, prio) => TryRecvArrive(s, t, PhaseOf(s, t).size, giveUp, prio);
    case Finish(t) => FinishArrive(s, t);
    case Link(t) => LinkArrive(s, t);
    case Timeout(t) => TimeoutArrive(s, t);
    case Reset => ResetArrive(s);
    case _ => CopyArrive(s, a);
  }

  lemma InitArrive(flag: Flag, maxMsgs: nat, msgSize: nat)
    ensures AllArrive(Init(flag, maxMsgs, msgSize))
  {
    assert Accounts(Init(flag, maxMsgs, msgSize), []);
  }

  /** Main result: in every state of every interleaving the messages taken out of the queue are those
      that receivers got, and one for every thread that is copying, each as often as it was taken. */
  lemma {:induction false} RunArrive(run: seq<State>, acts: seq<Action>, flag: Flag, maxMsgs: nat, msgSize: nat, k: nat)
    requires IsRun(run, acts, flag, maxMsgs, msgSize) && k <= |acts|
    ensures AllArrive(run[k])
  {
    hide AllArrive, Apply, Init, NodesInPlace, PayloadsOk, WaitsOk, OrderOk;
    if k == 0 {
      InitArrive(flag, maxMsgs, msgSize);
    } else {
      RunArrive(run, acts, flag, maxMsgs, msgSize, k - 1);
      RunInv(run, acts, flag, maxMsgs, msgSize, k - 1);
      assert IsStep(run[k - 1], acts[k - 1], run[k - 1 + 1]);
      ApplyArrive(run[k - 1], acts[k - 1]);
    }
  }

  lemma SomebodyIn(who: seq<Tid>)
    ensures who == [] || exists t :: t in who
  {
    assert who == [] || who[0] in who;
  }

  /** So when nobody is copying, the receivers got what was taken out, each message as often. */
  lemma AllArrived(s: State)
    requires AllArrive(s) && forall t :: !PhaseOf(s, t).Draining?
    ensures multiset(Arrived(s.delivered)) == multiset(Popped(s.log))
  {
    hide PhaseOf, Popped, Arrived;
    var who :| Accounts(s, who);
    SomebodyIn(who);
    assert OnTheWay(s, who) == [];
  }
}
