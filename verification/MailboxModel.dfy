/** Mailboxes (ipc.c) under any interleaving of senders, urgent senders, receivers, timeouts
    and resets.  Every section that runs with interrupts disabled is one action.
 */
module MailboxModel {
  import opened IpcList
  import opened DequeLog

  type Value = int

  datatype Phase = Idle | Sending(value: Value) | Receiving

  datatype State = State(
    phase: map<Tid, Phase>,
    mail: seq<Value>,            // the stored values, oldest first
    send: Wait,                  // suspend_sender_thread, waiting for room
    recv: Wait,                  // suspend_thread, waiting for mail
    flag: Flag, size: nat,
    log: seq<Event<Value>>)      // every receive is a Pop of the value it returned

  datatype Action =
    | SendEnter(t: Tid, value: Value, giveUp: bool, prio: Priorities)
    | SendRetry(t: Tid, giveUp: bool, prio: Priorities)
    | Urgent(value: Value)
    | RecvEnter(t: Tid, giveUp: bool, prio: Priorities)
    | RecvRetry(t: Tid, giveUp: bool, prio: Priorities)
    | Timeout(t: Tid)
    | Reset

  function PhaseOf(s: State, t: Tid): Phase {
    if t in s.phase then s.phase[t] else Idle
  }

  function Goto(s: State, t: Tid, p: Phase): State {
    s.(phase := s.phase[t := p])
  }

  predicate Enabled(s: State, a: Action) {
    match a
    case SendEnter(t, _, _, _) => PhaseOf(s, t) == Idle
    case SendRetry(t, _, _) => t in s.send.woken && PhaseOf(s, t).Sending?
    case Urgent(_) => true
    case RecvEnter(t, _, _) => PhaseOf(s, t) == Idle
    case RecvRetry(t, _, _) => t in s.recv.woken && PhaseOf(s, t).Receiving?
    case Timeout(t) => t in s.send.list || t in s.recv.list
    case Reset => true
  }

  /** One turn of the loop of rt_mb_send_wait, and the code behind it. */
  function TrySend(s: State, t: Tid, value: Value, giveUp: bool, prio: Priorities): State {
    if |s.mail| == s.size then
      if giveUp then Goto(s, t, Idle).(send := Pass(s.send, t))
      else Goto(s, t, Sending(value)).(send := Block(s.send, t, s.flag, prio))
    else
      Goto(s, t, Idle).(mail := s.mail + [value],
                        send := Pass(s.send, t),
                        recv := WakeFirst(s.recv),
                        log := s.log + [Back(value)])
  }

  /** One turn of the loop of rt_mb_recv, and the code behind it. */
  function TryRecv(s: State, t: Tid, giveUp: bool, prio: Priorities): State {
    if s.mail == [] then
      if giveUp then Goto(s, t, Idle).(recv := Pass(s.recv, t))
      else Goto(s, t, Receiving).(recv := Block(s.recv, t, s.flag, prio))
    else
      Goto(s, t, Idle).(mail := s.mail[1..],
                        recv := Pass(s.recv, t),
                        send := WakeFirst(s.send),
                        log := s.log + [Pop(s.mail[0])])
  }

  /** rt_mb_urgent */
  function SendUrgent(s: State, value: Value): State {
    if |s.mail| == s.size then s
    else s.(mail := [value] + s.mail, recv := WakeFirst(s.recv), log := s.log + [Front(value)])
  }

  /** The timer of a waiting thread fires. */
  function Expired(s: State, t: Tid): State {
    if t in s.send.list then Goto(s, t, Idle).(send := Expire(s.send, t))
    else Goto(s, t, Idle).(recv := Expire(s.recv, t))
  }

  /** rt_mb_control with RT_IPC_CMD_RESET: the waiting threads return with an error. */
  function ResetAll(s: State): State {
    s.(phase := map t | t in s.phase && t !in s.send.list && t !in s.recv.list :: s.phase[t],
       mail := [], send := WakeAll(s.send), recv := WakeAll(s.recv), log := s.log + [Clear])
  }

  function Apply(s: State, a: Action): State
    requires Enabled(s, a)
  {
    match a
    case SendEnter(t, value, giveUp, prio) => TrySend(s, t, value, giveUp, prio)
    case SendRetry(t, giveUp, prio) => TrySend(s, t, PhaseOf(s, t).value, giveUp, prio)
    case Urgent(value) => SendUrgent(s, value)
    case RecvEnter(t, giveUp, prio) => TryRecv(s, t, giveUp, prio)
    case RecvRetry(t, giveUp, prio) => TryRecv(s, t, giveUp, prio)
    case Timeout(t) => Expired(s, t)
    case Reset => ResetAll(s)
  }

  function Init(flag: Flag, size: nat): State {
    State(map[], [], Wait([], {}), Wait([], {}), flag, size, [])
  }

  // ---- What is kept -----------------------------------------------------------------------

  ghost predicate WaitsOk(s: State) {
    && |s.mail| <= s.size
    && Sound(s.send, s.size - |s.mail|)
    && Sound(s.recv, |s.mail|)
    && (forall t :: t in Members(s.send) <==> PhaseOf(s, t).Sending?)
    && (forall t :: t in Members(s.recv) <==> PhaseOf(s, t).Receiving?)
  }

  /** No wake-up is lost on either side, and the log replayed on a list never gets stuck and
      ends with the stored mail. */
  ghost predicate Inv(s: State) {
    WaitsOk(s) && Replay(s.log) == Holding(s.mail)
  }

  /** One thread moves and the others keep their place. */
  lemma MovedWaits(s: State, r: State, t: Tid)
    requires WaitsOk(s) && |r.mail| <= r.size
    requires Sound(r.send, r.size - |r.mail|) && Sound(r.recv, |r.mail|)
    requires forall u :: u != t ==> PhaseOf(r, u) == PhaseOf(s, u)
    requires forall u :: u != t ==> (u in Members(r.send) <==> u in Members(s.send))
    requires forall u :: u != t ==> (u in Members(r.recv) <==> u in Members(s.recv))
    requires t in Members(r.send) <==> PhaseOf(r, t).Sending?
    requires t in Members(r.recv) <==> PhaseOf(r, t).Receiving?
    ensures WaitsOk(r)
  {
    hide Sound, Members;
  }

  lemma TrySendKeeps(s: State, t: Tid, value: Value, giveUp: bool, prio: Priorities)
    requires Inv(s) && t !in s.send.list && t !in Members(s.recv)
    ensures Inv(TrySend(s, t, value, giveUp, prio))
  {
    hide Sound, Members, Block, Pass, WakeFirst, Replay;
    if |s.mail| == s.size {
      GiveUpSound(s.send, t);
      BlockSound(s.send, t, s.flag, prio);
    } else {
      PassSound(s.send, t, s.size - |s.mail|);
      WakeFirstSound(s.recv, |s.mail|);
      ReplayStep(s.log, Back(value));
    }
    MovedWaits(s, TrySend(s, t, value, giveUp, prio), t);
  }

  lemma TryRecvKeeps(s: State, t: Tid, giveUp: bool, prio: Priorities)
    requires Inv(s) && t !in s.recv.list && t !in Members(s.send)
    ensures Inv(TryRecv(s, t, giveUp, prio))
  {
    hide Sound, Members, Block, Pass, WakeFirst, Replay;
    if s.mail == [] {
      GiveUpSound(s.recv, t);
      BlockSound(s.recv, t, s.flag, prio);
    } else {
      PassSound(s.recv, t, |s.mail|);
      WakeFirstSound(s.send, s.size - |s.mail|);
      ReplayStep(s.log, Pop(s.mail[0]));
    }
    MovedWaits(s, TryRecv(s, t, giveUp, prio), t);
  }

  lemma UrgentKeeps(s: State, value: Value)
    requires Inv(s)
    ensures Inv(SendUrgent(s, value))
  {
    hide Sound, Members, WakeFirst, Replay;
    if |s.mail| != s.size {
      WakeFirstSound(s.recv, |s.mail|);
      FewerAvailable(s.send, s.size - |s.mail|);
      ReplayStep(s.log, Front(value));
      MovedWaits(s, SendUrgent(s, value), 0);
    }
  }

  lemma FewerAvailable(w: Wait, available: nat)
    requires Sound(w, available) && 0 < available
    ensures Sound(w, available - 1)
  {
  }

  lemma ExpiredKeeps(s: State, t: Tid)
    requires Inv(s) && Enabled(s, Timeout(t))
    ensures Inv(Expired(s, t))
  {
    hide Expire, Sound, Members, Replay;
    ListedIsMember(s.send);
    ListedIsMember(s.recv);
    if t in s.send.list {
      ExpireSound(s.send, t, s.size - |s.mail|);
      assert t !in Members(s.recv);
    } else {
      ExpireSound(s.recv, t, |s.mail|);
      assert t !in Members(s.send);
    }
    MovedWaits(s, Expired(s, t), t);
  }

  lemma ResetKeeps(s: State)
    requires Inv(s)
    ensures Inv(ResetAll(s))
  {
    hide Replay, Members;
    var r := ResetAll(s);
    WakeAllSound(s.send, s.size);
    WakeAllSound(s.recv, 0);
    ReplayStep(s.log, Clear);
    MembersAre(s.send);
    MembersAre(s.recv);
    forall t
      ensures t in Members(r.send) <==> PhaseOf(r, t).Sending?
      ensures t in Members(r.recv) <==> PhaseOf(r, t).Receiving?
    {
      assert t in Members(s.send) <==> PhaseOf(s, t).Sending?;
      assert t in Members(s.recv) <==> PhaseOf(s, t).Receiving?;
    }
  }

  /** Every action keeps the mailbox right. */
  lemma ApplyKeeps(s: State, a: Action)
    requires Inv(s) && Enabled(s, a)
    ensures Inv(Apply(s, a))
  {
    hide TrySend, TryRecv, SendUrgent, Expired, ResetAll, Replay;
    MembersAre(s.send);
    MembersAre(s.recv);
    match a
    case SendEnter(t, value, giveUp, prio) => TrySendKeeps(s, t, value, giveUp, prio);
    case SendRetry(t, giveUp, prio) => TrySendKeeps(s, t, PhaseOf(s, t).value, giveUp, prio);
    case Urgent(value) => UrgentKeeps(s, value);
    case RecvEnter(t, giveUp, prio) => TryRecvKeeps(s, t, giveUp, prio);
    case RecvRetry(t, giveUp, prio) => TryRecvKeeps(s, t, giveUp, prio);
    case Timeout(t) => ExpiredKeeps(s, t);
    case Reset => ResetKeeps(s);
  }

  /** The same, for a method that does not care whether it is a first or a later turn. */
  lemma SendTurn(s: State, t: Tid, value: Value, giveUp: bool, prio: Priorities)
    requires Inv(s) && (Enabled(s, SendEnter(t, value, giveUp, prio)) ||
      (Enabled(s, SendRetry(t, giveUp, prio)) && PhaseOf(s, t) == Sending(value)))
    ensures Inv(TrySend(s, t, value, giveUp, prio)) && |s.mail| <= s.size
  {
    MembersAre(s.send);
    MembersAre(s.recv);
    TrySendKeeps(s, t, value, giveUp, prio);
  }

  lemma RecvTurn(s: State, t: Tid, giveUp: bool, prio: Priorities)
    requires Inv(s) && (Enabled(s, RecvEnter(t, giveUp, prio)) || Enabled(s, RecvRetry(t, giveUp, prio)))
    ensures Inv(TryRecv(s, t, giveUp, prio)) && |s.mail| <= s.size
  {
    MembersAre(s.send);
    MembersAre(s.recv);
    TryRecvKeeps(s, t, giveUp, prio);
  }

  /** A thread waits on one side only. */
  lemma OneSide(s: State, t: Tid)
    requires Inv(s)
    ensures t in s.send.list ==> t !in s.recv.list
  {
    MembersAre(s.send);
    MembersAre(s.recv);
    assert t in Members(s.send) <==> PhaseOf(s, t).Sending?;
    assert t in Members(s.recv) <==> PhaseOf(s, t).Receiving?;
  }

  // ---- Runs -------------------------------------------------------------------------------

  ghost predicate IsStep(s: State, a: Action, r: State) {
    Enabled(s, a) && r == Apply(s, a)
  }

  /** Any interleaving of calls, timeouts and resets, from a fresh mailbox. */
  ghost predicate IsRun(run: seq<State>, acts: seq<Action>, flag: Flag, size: nat) {
    && |run| == |acts| + 1
    && run[0] == Init(flag, size)
    && forall i :: 0 <= i < |acts| ==> IsStep(run[i], acts[i], run[i + 1])
  }

  /** Main result: in every state of every interleaving a suspended receiver means that every
      stored value has a resumed receiver on its way, and a suspended sender that every free
      slot has a resumed sender on its way; receivers got the values in the order of a list. */
  lemma {:induction false} RunInv(run: seq<State>, acts: seq<Action>, flag: Flag, size: nat, k: nat)
    requires IsRun(run, acts, flag, size) && k <= |acts|
    ensures Inv(run[k])
  {
    hide Inv, Apply;
    if k == 0 {
      InitInv(flag, size);
    } else {
      RunInv(run, acts, flag, size, k - 1);
      assert IsStep(run[k - 1], acts[k - 1], run[k - 1 + 1]);
      ApplyKeeps(run[k - 1], acts[k - 1]);
    }
  }

  lemma InitInv(flag: Flag, size: nat)
    ensures Inv(Init(flag, size))
  {
    assert Replay<Value>([]) == Holding([]);
  }

  /** When nobody is on the way to the mailbox, only threads that have to wait do so. */
  lemma QuietMeansNeeded(s: State)
    requires Inv(s) && s.send.woken == {} && s.recv.woken == {}
    ensures s.recv.list != [] ==> s.mail == []
    ensures s.send.list != [] ==> |s.mail| == s.size
  {
  }
}
