/** What every action on a message queue keeps, and what follows for every run. */
module MsgQueueLemmas {
  import opened Chains
  import opened IpcList
  import opened Sequences
  import opened DequeLog
  import opened MsgQueueModel

  // ---- Nodes ------------------------------------------------------------------------------

  lemma {:induction false} ReverseIs(s: seq<Node>)
    requires Distinct(s)
    ensures Distinct(Reverse(s))
    ensures forall n :: n in Reverse(s) <==> n in s
  {
    if s != [] {
      TailDistinct(s);
      ReverseIs(s[1..]);
      assert s == [s[0]] + s[1..];
      JoinDistinct(Reverse(s[1..]), [s[0]]);
    }
  }

  lemma TakeFreeNodes(s: State, t: Tid, msg: Msg, urgent: bool)
    requires NodesInPlace(s) && s.free != [] && !PhaseOf(s, t).Filling? && !PhaseOf(s, t).Draining?
    ensures NodesInPlace(TakeFree(s, t, msg, urgent))
  {
    TailDistinct(s.free);
    var r := TakeFree(s, t, msg, urgent);
    assert s.free[0] in s.free;
    forall n, u
      ensures Holds(PhaseOf(r, u), n) <==> n in r.place && r.place[n] == With(u)
    {
      assert Holds(PhaseOf(s, u), n) <==> n in s.place && s.place[n] == With(u);
    }
  }

  lemma LinkNodes(s: State, t: Tid)
    requires NodesInPlace(s) && Enabled(s, Link(t))
    ensures NodesInPlace(Apply(s, Link(t)))
  {
    hide Distinct;
    var r, p := Apply(s, Link(t)), PhaseOf(s, t);
    assert Holds(PhaseOf(s, t), p.node) && s.place[p.node] == With(t);
    SingleDistinct(p.node);
    JoinDistinct(s.queue, [p.node]);
    JoinDistinct([p.node], s.queue);
    assert Distinct(r.queue) && forall n :: n in r.queue <==> n in s.queue || n == p.node;
    forall n, u
      ensures Holds(PhaseOf(r, u), n) <==> n in r.place && r.place[n] == With(u)
    {
      assert Holds(PhaseOf(s, u), n) <==> n in s.place && s.place[n] == With(u);
    }
  }

  lemma TryRecvNodes(s: State, t: Tid, size: nat, giveUp: bool, prio: Priorities)
    requires NodesInPlace(s) && !PhaseOf(s, t).Filling? && !PhaseOf(s, t).Draining?
    ensures NodesInPlace(TryRecv(s, t, size, giveUp, prio))
  {
    var r := TryRecv(s, t, size, giveUp, prio);
    if s.queue != [] {
      TailDistinct(s.queue);
      assert s.queue[0] in s.queue;
    }
    forall n, u
      ensures Holds(PhaseOf(r, u), n) <==> n in r.place && r.place[n] == With(u)
    {
      assert Holds(PhaseOf(s, u), n) <==> n in s.place && s.place[n] == With(u);
    }
  }

  lemma FinishNodes(s: State, t: Tid)
    requires NodesInPlace(s) && Enabled(s, Finish(t))
    ensures NodesInPlace(Apply(s, Finish(t)))
  {
    var r, p := Apply(s, Finish(t)), PhaseOf(s, t);
    assert Holds(p, p.node);
    JoinDistinct([p.node], s.free);
    forall n, u
      ensures Holds(PhaseOf(r, u), n) <==> n in r.place && r.place[n] == With(u)
    {
      assert Holds(PhaseOf(s, u), n) <==> n in s.place && s.place[n] == With(u);
    }
  }

  lemma ResetNodes(s: State)
    requires NodesInPlace(s) && WaitsOk(s)
    ensures NodesInPlace(ResetAll(s))
  {
    hide Sound;
    var r := ResetAll(s);
    ReverseIs(s.queue);
    JoinDistinct(Reverse(s.queue), s.free);
    assert r.place.Keys == s.place.Keys;
    forall n, u
      ensures Holds(PhaseOf(r, u), n) <==> n in r.place && r.place[n] == With(u)
    {
      assert Holds(PhaseOf(s, u), n) <==> n in s.place && s.place[n] == With(u);
      assert u in s.send.list ==> u in Members(s.send);
      assert u in s.recv.list ==> u in Members(s.recv);
    }
  }

  /** An action that moves no node and no thread into or out of a copying phase. */
  lemma SameNodes(s: State, r: State)
    requires NodesInPlace(s)
    requires r.free == s.free && r.queue == s.queue && r.place == s.place && r.maxMsgs == s.maxMsgs
    requires forall t, n :: Holds(PhaseOf(r, t), n) <==> Holds(PhaseOf(s, t), n)
    ensures NodesInPlace(r)
  {
    forall n, u
      ensures Holds(PhaseOf(r, u), n) <==> n in r.place && r.place[n] == With(u)
    {
      assert Holds(PhaseOf(s, u), n) <==> n in s.place && s.place[n] == With(u);
    }
  }

  lemma CopyNodes(s: State, a: Action)
    requires NodesInPlace(s) && Enabled(s, a) && (a.FillByte? || a.DrainByte?)
    ensures NodesInPlace(Apply(s, a))
  {
    SameNodes(s, Apply(s, a));
  }

  lemma TimeoutNodes(s: State, t: Tid)
    requires NodesInPlace(s) && WaitsOk(s) && Enabled(s, Timeout(t))
    ensures NodesInPlace(Apply(s, Timeout(t)))
  {
    assert t in Members(s.send) || t in Members(s.recv);
    SameNodes(s, Apply(s, Timeout(t)));
  }

  /** Every action keeps every node in exactly one place. */
  lemma ApplyNodes(s: State, a: Action)
    requires NodesInPlace(s) && WaitsOk(s) && Enabled(s, a)
    ensures NodesInPlace(Apply(s, a))
  {
    hide NodesInPlace, WaitsOk, TryTake, TryRecv, TakeFree;
    match a
    case SendEnter(t, msg, giveUp, prio) => TryTakeNodes(s, t, msg, giveUp, prio);
    case SendRetry(t, giveUp, prio) => TryTakeNodes(s, t, PhaseOf(s, t).msg, giveUp, prio);
    case UrgentEnter(t, msg) => if s.free != [] { TakeFreeNodes(s, t, msg, true); }
    case FillByte(t) => CopyNodes(s, a);
    case Link(t) => LinkNodes(s, t);
    case RecvEnter(t, size, giveUp, prio) => TryRecvNodes(s, t, size, giveUp, prio);
    case RecvRetry(t, giveUp, prio) => TryRecvNodes(s, t, PhaseOf(s, t).size, giveUp, prio);
    case DrainByte(t) => CopyNodes(s, a);
    case Finish(t) => FinishNodes(s, t);
    case Timeout(t) => TimeoutNodes(s, t);
    case Reset => ResetNodes(s);
  }

  lemma TryTakeNodes(s: State, t: Tid, msg: Msg, giveUp: bool, prio: Priorities)
    requires NodesInPlace(s) && !PhaseOf(s, t).Filling? && !PhaseOf(s, t).Draining?
    ensures NodesInPlace(TryTake(s, t, msg, giveUp, prio))
  {
    if s.free == [] {
      SameNodes(s, TryTake(s, t, msg, giveUp, prio));
    } else {
      TakeFreeNodes(s, t, msg, false);
      SameNodes(TakeFree(s, t, msg, false), TryTake(s, t, msg, giveUp, prio));
    }
  }

  // ---- Payloads ---------------------------------------------------------------------------

  lemma CopyOkElsewhere(s: State, r: State)
    requires PayloadsOk(s) && r.payload == s.payload && r.msgSize == s.msgSize
    ensures forall t :: CopyOk(r, PhaseOf(s, t))
  {
    forall t
      ensures CopyOk(r, PhaseOf(s, t))
    {
      assert CopyOk(s, PhaseOf(s, t));
    }
  }

  /** An action that touches no payload and links nothing new. */
  lemma SamePayloads(s: State, r: State, u: Tid)
    requires PayloadsOk(s)
    requires r.payload == s.payload && r.sent == s.sent && r.maxMsgs == s.maxMsgs && r.msgSize == s.msgSize
    requires forall n :: n in r.queue ==> n in s.queue
    requires forall t :: t != u ==> PhaseOf(r, t) == PhaseOf(s, t) || PhaseOf(r, t) == Idle
    requires CopyOk(r, PhaseOf(r, u))
    ensures PayloadsOk(r)
  {
    CopyOkElsewhere(s, r);
    forall t
      ensures CopyOk(r, PhaseOf(r, t))
    {
      assert CopyOk(r, PhaseOf(s, t));
    }
    forall n | n in r.queue
      ensures CarriesMsg(r, n)
    {
      assert CarriesMsg(s, n);
    }
  }

  lemma TryTakePayloads(s: State, t: Tid, msg: Msg, giveUp: bool, prio: Priorities)
    requires NodesInPlace(s) && PayloadsOk(s) && |msg| <= s.msgSize
    ensures PayloadsOk(TryTake(s, t, msg, giveUp, prio))
    ensures s.free != [] ==> PayloadsOk(TakeFree(s, t, msg, true))
  {
    if s.free != [] {
      assert s.free[0] in s.free;
      SamePayloads(s, TakeFree(s, t, msg, true), t);
    }
    SamePayloads(s, TryTake(s, t, msg, giveUp, prio), t);
  }

  lemma TryRecvPayloads(s: State, t: Tid, size: nat, giveUp: bool, prio: Priorities)
    requires NodesInPlace(s) && PayloadsOk(s)
    ensures PayloadsOk(TryRecv(s, t, size, giveUp, prio))
  {
    var r := TryRecv(s, t, size, giveUp, prio);
    if s.queue != [] {
      assert s.queue[0] in s.queue;
      assert CarriesMsg(s, s.queue[0]);
      assert s.queue == [s.queue[0]] + s.queue[1..];
    }
    SamePayloads(s, r, t);
  }

  /** Only the holder of a node writes to it, so nobody else's copy is disturbed. */
  lemma FillPayloads(s: State, t: Tid)
    requires NodesInPlace(s) && PayloadsOk(s) && Enabled(s, FillByte(t))
    ensures PayloadsOk(Apply(s, FillByte(t)))
  {
    var r, p := Apply(s, FillByte(t)), PhaseOf(s, t);
    assert CopyOk(s, p) && Holds(p, p.node);
    forall u
      ensures CopyOk(r, PhaseOf(r, u))
    {
      var q := PhaseOf(s, u);
      assert CopyOk(s, q);
      if u == t {
        FilledByte(p.msg, s.payload[p.node], p.done);
      } else if q.Filling? || q.Draining? {
        assert Holds(PhaseOf(s, u), q.node) && s.place[q.node] == With(u);
        assert Holds(PhaseOf(s, t), p.node) && s.place[p.node] == With(t);
      }
    }
    forall n | n in r.queue
      ensures CarriesMsg(r, n)
    {
      assert CarriesMsg(s, n) && n != p.node;
    }
  }

  lemma FilledByte(msg: Msg, bytes: seq<byte>, done: nat)
    requires done < |msg| <= |bytes| && msg[..done] == bytes[..done]
    ensures msg[..done + 1] == bytes[done := msg[done]][..done + 1]
  {
    assert bytes[done := msg[done]][..done + 1] == bytes[..done] + [msg[done]];
    assert msg[..done + 1] == msg[..done] + [msg[done]];
  }

  lemma LinkPayloads(s: State, t: Tid)
    requires NodesInPlace(s) && PayloadsOk(s) && Enabled(s, Link(t))
    ensures PayloadsOk(Apply(s, Link(t)))
  {
    var r, p := Apply(s, Link(t)), PhaseOf(s, t);
    assert CopyOk(s, p) && Holds(p, p.node);
    assert p.msg[..|p.msg|] == p.msg;
    CopyOkElsewhere(s, r);
    forall u
      ensures CopyOk(r, PhaseOf(r, u))
    {
      assert CopyOk(r, PhaseOf(s, u));
    }
    forall n | n in r.queue
      ensures CarriesMsg(r, n)
    {
      if n != p.node {
        assert n in s.queue && CarriesMsg(s, n);
      }
    }
  }

  lemma DrainPayloads(s: State, t: Tid)
    requires PayloadsOk(s) && Enabled(s, DrainByte(t))
    ensures PayloadsOk(Apply(s, DrainByte(t)))
  {
    assert CopyOk(s, PhaseOf(s, t));
    SamePayloads(s, Apply(s, DrainByte(t)), t);
  }

  lemma OtherPayloads(s: State, a: Action)
    requires PayloadsOk(s) && Enabled(s, a) && (a.Timeout? || a.Reset? || a.Finish?)
    ensures PayloadsOk(Apply(s, a))
  {
    var r := Apply(s, a);
    var u := if a.Reset? then 0 else a.t;
    CopyOkElsewhere(s, r);
    assert CopyOk(r, PhaseOf(s, u));
    SamePayloads(s, r, u);
  }

  lemma ApplyPayloads(s: State, a: Action)
    requires NodesInPlace(s) && PayloadsOk(s) && Enabled(s, a)
    ensures PayloadsOk(Apply(s, a))
  {
    hide NodesInPlace, TryTake, TryRecv, TakeFree;
    match a
    case SendEnter(t, msg, giveUp, prio) => TryTakePayloads(s, t, msg, giveUp, prio);
    case SendRetry(t, giveUp, prio) => TryTakePayloads(s, t, PhaseOf(s, t).msg, giveUp, prio);
    case UrgentEnter(t, msg) => TryTakePayloads(s, t, msg, true, _ => 0);
    case FillByte(t) => FillPayloads(s, t);
    case Link(t) => LinkPayloads(s, t);
    case RecvEnter(t, size, giveUp, prio) => TryRecvPayloads(s, t, size, giveUp, prio);
    case RecvRetry(t, giveUp, prio) => TryRecvPayloads(s, t, PhaseOf(s, t).size, giveUp, prio);
    case DrainByte(t) => DrainPayloads(s, t);
    case Finish(t) => OtherPayloads(s, a);
    case Timeout(t) => OtherPayloads(s, a);
    case Reset => OtherPayloads(s, a);
  }

  // ---- Waiting threads --------------------------------------------------------------------

  /** The links between the two wait sets and the phases, when one thread moves. */
  lemma MovedWaits(s: State, r: State, t: Tid)
    requires WaitsOk(s)
    requires Sound(r.send, |r.free|) && Sound(r.recv, |r.queue|)
    requires forall u :: u != t ==> PhaseOf(r, u) == PhaseOf(s, u)
    requires forall u :: u != t ==> (u in Members(r.send) <==> u in Members(s.send))
    requires forall u :: u != t ==> (u in Members(r.recv) <==> u in Members(s.recv))
    requires t in Members(r.send) <==> PhaseOf(r, t).Sending?
    requires t in Members(r.recv) <==> PhaseOf(r, t).Receiving?
    ensures WaitsOk(r)
  {
    hide Sound, Members;
  }

  lemma TryTakeWaits(s: State, t: Tid, msg: Msg, giveUp: bool, prio: Priorities)
    requires WaitsOk(s) && t !in s.send.list && t !in Members(s.recv)
    ensures WaitsOk(TryTake(s, t, msg, giveUp, prio))
  {
    hide Sound, Members, Block, Pass;
    var r := TryTake(s, t, msg, giveUp, prio);
    if s.free == [] {
      GiveUpSound(s.send, t);
      BlockSound(s.send, t, s.flag, prio);
    } else {
      PassSound(s.send, t, |s.free|);
    }
    MovedWaits(s, r, t);
  }

  lemma TryRecvWaits(s: State, t: Tid, size: nat, giveUp: bool, prio: Priorities)
    requires WaitsOk(s) && t !in s.recv.list && t !in Members(s.send)
    ensures WaitsOk(TryRecv(s, t, size, giveUp, prio))
  {
    hide Sound, Members, Block, Pass;
    var r := TryRecv(s, t, size, giveUp, prio);
    if s.queue == [] {
      GiveUpSound(s.recv, t);
      BlockSound(s.recv, t, s.flag, prio);
    } else {
      PassSound(s.recv, t, |s.queue|);
    }
    MovedWaits(s, r, t);
  }

  lemma LinkWaits(s: State, t: Tid)
    requires WaitsOk(s) && Enabled(s, Link(t))
    ensures WaitsOk(Apply(s, Link(t)))
  {
    hide WakeFirst, Sound, Members;
    WakeFirstSound(s.recv, |s.queue|);
    MovedWaits(s, Apply(s, Link(t)), t);
  }

  lemma FinishWaits(s: State, t: Tid)
    requires WaitsOk(s) && Enabled(s, Finish(t))
    ensures WaitsOk(Apply(s, Finish(t)))
  {
    hide WakeFirst, Sound, Members;
    WakeFirstSound(s.send, |s.free|);
    MovedWaits(s, Apply(s, Finish(t)), t);
  }

  lemma UrgentWaits(s: State, t: Tid, msg: Msg)
    requires WaitsOk(s) && Enabled(s, UrgentEnter(t, msg))
    ensures WaitsOk(Apply(s, UrgentEnter(t, msg)))
  {
    MovedWaits(s, Apply(s, UrgentEnter(t, msg)), t);
  }

  lemma CopyWaits(s: State, a: Action)
    requires WaitsOk(s) && Enabled(s, a) && (a.FillByte? || a.DrainByte?)
    ensures WaitsOk(Apply(s, a))
  {
    hide Sound, Members;
    MovedWaits(s, Apply(s, a), a.t);
  }

  lemma TimeoutWaits(s: State, t: Tid)
    requires WaitsOk(s) && Enabled(s, Timeout(t))
    ensures WaitsOk(Apply(s, Timeout(t)))
  {
    hide Expire, Sound, Members;
    var r := Apply(s, Timeout(t));
    ListedIsMember(s.send);
    ListedIsMember(s.recv);
    if t in s.send.list {
      assert r.send == Expire(s.send, t) && r.recv == s.recv && r.free == s.free;
      ExpireSound(s.send, t, |s.free|);
      assert t !in Members(s.recv);
    } else {
      assert r.recv == Expire(s.recv, t) && r.send == s.send && r.queue == s.queue;
      ExpireSound(s.recv, t, |s.queue|);
      assert t !in Members(s.send);
    }
    MovedWaits(s, r, t);
  }

  lemma ResetWaits(s: State)
    requires WaitsOk(s)
    ensures WaitsOk(ResetAll(s))
  {
    var r := ResetAll(s);
    WakeAllSound(s.send, |r.free|);
    WakeAllSound(s.recv, 0);
    forall t
      ensures t in Members(r.send) <==> PhaseOf(r, t).Sending?
      ensures t in Members(r.recv) <==> PhaseOf(r, t).Receiving?
    {
      assert t in Members(s.send) <==> PhaseOf(s, t).Sending?;
      assert t in Members(s.recv) <==> PhaseOf(s, t).Receiving?;
    }
  }

  /** Every action keeps the rule that no wake-up is lost, for senders and for receivers. */
  lemma ApplyWaits(s: State, a: Action)
    requires WaitsOk(s) && Enabled(s, a)
    ensures WaitsOk(Apply(s, a))
  {
    hide TryTake, TryRecv, TakeFree, NothingLost;
    match a
    case SendEnter(t, msg, giveUp, prio) =>
      assert t !in Members(s.send);
      TryTakeWaits(s, t, msg, giveUp, prio);
    case SendRetry(t, giveUp, prio) => TryTakeWaits(s, t, PhaseOf(s, t).msg, giveUp, prio);
    case UrgentEnter(t, msg) => UrgentWaits(s, t, msg);
    case FillByte(t) => CopyWaits(s, a);
    case Link(t) => LinkWaits(s, t);
    case RecvEnter(t, size, giveUp, prio) =>
      assert t !in Members(s.recv);
      TryRecvWaits(s, t, size, giveUp, prio);
    case RecvRetry(t, giveUp, prio) => TryRecvWaits(s, t, PhaseOf(s, t).size, giveUp, prio);
    case DrainByte(t) => CopyWaits(s, a);
    case Finish(t) => FinishWaits(s, t);
    case Timeout(t) => TimeoutWaits(s, t);
    case Reset => ResetWaits(s);
  }

  // ---- Order ------------------------------------------------------------------------------

  lemma LinkOrder(s: State, t: Tid)
    requires NodesInPlace(s) && OrderOk(s) && Enabled(s, Link(t))
    ensures OrderOk(Apply(s, Link(t)))
  {
    var r, p := Apply(s, Link(t)), PhaseOf(s, t);
    assert Holds(p, p.node) && p.node !in s.queue;
    ReplayStep(s.log, if p.urgent then Front(p.msg) else Back(p.msg));
    assert Contents(r) == if p.urgent then [p.msg] + Contents(s) else Contents(s) + [p.msg] by {
      assert forall i :: 0 <= i < |s.queue| ==> s.queue[i] != p.node;
    }
  }

  lemma TryRecvOrder(s: State, t: Tid, size: nat, giveUp: bool, prio: Priorities)
    requires OrderOk(s)
    ensures OrderOk(TryRecv(s, t, size, giveUp, prio))
  {
    var r := TryRecv(s, t, size, giveUp, prio);
    if s.queue != [] {
      ReplayStep(s.log, Pop(SentOf(s, s.queue[0])));
      assert Contents(r) == Contents(s)[1..];
    } else {
      assert Contents(r) == Contents(s);
    }
  }

  lemma FinishOrder(s: State, t: Tid)
    requires PayloadsOk(s) && OrderOk(s) && Enabled(s, Finish(t))
    ensures OrderOk(Apply(s, Finish(t)))
  {
    var r, p := Apply(s, Finish(t)), PhaseOf(s, t);
    assert CopyOk(s, p);
    assert Contents(r) == Contents(s);
    BothPrefixes(p.buf, p.msg, s.payload[p.node]);
  }

  lemma BothPrefixes(a: seq<byte>, b: seq<byte>, c: seq<byte>)
    requires a <= c && b <= c
    ensures a <= b || b <= a
  {
    if |a| <= |b| {
      assert a == b[..|a|];
    } else {
      assert b == a[..|b|];
    }
  }

  lemma SameOrder(s: State, r: State)
    requires OrderOk(s) && r.queue == s.queue && r.sent == s.sent && r.log == s.log
    requires r.delivered == s.delivered && r.msgSize == s.msgSize
    ensures OrderOk(r)
  {
    assert Contents(r) == Contents(s);
  }

  /** Every action keeps the order of the messages. */
  lemma ApplyOrder(s: State, a: Action)
    requires NodesInPlace(s) && PayloadsOk(s) && OrderOk(s) && Enabled(s, a)
    ensures OrderOk(Apply(s, a))
  {
    hide NodesInPlace, PayloadsOk, OrderOk, TryRecv;
    match a
    case Link(t) => LinkOrder(s, t);
    case RecvEnter(t, size, giveUp, prio) => TryRecvOrder(s, t, size, giveUp, prio);
    case RecvRetry(t, giveUp, prio) => TryRecvOrder(s, t, PhaseOf(s, t).size, giveUp, prio);
    case Finish(t) => FinishOrder(s, t);
    case Reset => ResetOrder(s);
    case _ => SameOrder(s, Apply(s, a));
  }

  lemma ResetOrder(s: State)
    requires OrderOk(s)
    ensures OrderOk(ResetAll(s))
  {
    ReplayStep(s.log, Clear);
    assert Contents(ResetAll(s)) == [];
  }

  // ---- Runs -------------------------------------------------------------------------------

  ghost predicate IsStep(s: State, a: Action, r: State) {
    Enabled(s, a) && r == Apply(s, a)
  }

  /** Any interleaving of calls, timeouts and resets, from a fresh queue. */
  ghost predicate IsRun(run: seq<State>, acts: seq<Action>, flag: Flag, maxMsgs: nat, msgSize: nat) {
    && |run| == |acts| + 1
    && run[0] == Init(flag, maxMsgs, msgSize)
    && forall i :: 0 <= i < |acts| ==> IsStep(run[i], acts[i], run[i + 1])
  }

  lemma InitInv(flag: Flag, maxMsgs: nat, msgSize: nat)
    ensures Inv(Init(flag, maxMsgs, msgSize))
  {
    var s := Init(flag, maxMsgs, msgSize);
    assert Replay<Msg>([]) == Holding([]);
    forall n: Node | n < maxMsgs
      ensures n in s.free
    {
      assert s.free[maxMsgs - 1 - n] == n;
    }
  }

  lemma ApplyKeeps(s: State, a: Action)
    requires Inv(s) && Enabled(s, a)
    ensures Inv(Apply(s, a))
  {
    hide NodesInPlace, PayloadsOk, WaitsOk, OrderOk, Apply;
    ApplyNodes(s, a);
    ApplyPayloads(s, a);
    ApplyWaits(s, a);
    ApplyOrder(s, a);
  }

  /** The same, for a method that does not care whether it is a first or a later turn. */
  lemma SendTurn(s: State, t: Tid, msg: Msg, giveUp: bool, prio: Priorities)
    requires Inv(s) && (Enabled(s, SendEnter(t, msg, giveUp, prio)) ||
      (Enabled(s, SendRetry(t, giveUp, prio)) && PhaseOf(s, t) == Sending(msg)))
    ensures Inv(TryTake(s, t, msg, giveUp, prio))
  {
    hide Inv, TryTake;
    if Enabled(s, SendEnter(t, msg, giveUp, prio)) {
      ApplyKeeps(s, SendEnter(t, msg, giveUp, prio));
    } else {
      ApplyKeeps(s, SendRetry(t, giveUp, prio));
    }
  }

  lemma RecvTurn(s: State, t: Tid, size: nat, giveUp: bool, prio: Priorities)
    requires Inv(s) && (Enabled(s, RecvEnter(t, size, giveUp, prio)) ||
      (Enabled(s, RecvRetry(t, giveUp, prio)) && PhaseOf(s, t) == Receiving(size)))
    ensures Inv(TryRecv(s, t, size, giveUp, prio))
  {
    hide Inv, TryRecv;
    if Enabled(s, RecvEnter(t, size, giveUp, prio)) {
      ApplyKeeps(s, RecvEnter(t, size, giveUp, prio));
    } else {
      ApplyKeeps(s, RecvRetry(t, giveUp, prio));
    }
  }

  /** A thread waits on one side only. */
  lemma OneSide(s: State, t: Tid)
    requires Inv(s)
    ensures t in s.send.list ==> t !in s.recv.list
  {
    hide NodesInPlace, PayloadsOk, OrderOk, Sound;
    MembersAre(s.send);
    MembersAre(s.recv);
    assert t in Members(s.send) <==> PhaseOf(s, t).Sending?;
    assert t in Members(s.recv) <==> PhaseOf(s, t).Receiving?;
  }

  /** Main result: in every state of every interleaving, every node is in exactly one place, no
      wake-up is lost, messages are whole and in order. */
  lemma {:induction false} RunInv(run: seq<State>, acts: seq<Action>, flag: Flag, maxMsgs: nat, msgSize: nat, k: nat)
    requires IsRun(run, acts, flag, maxMsgs, msgSize) && k <= |acts|
    ensures Inv(run[k])
  {
    hide Inv, Apply, Init;
    if k == 0 {
      InitInv(flag, maxMsgs, msgSize);
    } else {
      RunInv(run, acts, flag, maxMsgs, msgSize, k - 1);
      assert IsStep(run[k - 1], acts[k - 1], run[k - 1 + 1]);
      ApplyKeeps(run[k - 1], acts[k - 1]);
    }
  }

  /** What this means when nobody is on the way to the queue: if a receiver is suspended the
      queue is empty, and if a sender is suspended there is no free node. */
  lemma QuietMeansNeeded(s: State)
    requires Inv(s) && s.send.woken == {} && s.recv.woken == {}
    ensures s.recv.list != [] ==> s.queue == []
    ensures s.send.list != [] ==> s.free == []
  {
  }
}
