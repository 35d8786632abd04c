/** Message queues (ipc.c) under any interleaving of senders, urgent senders, receivers,
    timeouts and resets.

    Every section that runs with interrupts disabled is one action, and so is the copying of one
    byte into or out of a message node, which happens with interrupts enabled.  A node on its
    way is held by the thread that copies.
 */
module MsgQueueModel {
  import opened Chains
  import opened IpcList
  import opened Sequences
  import opened DequeLog

  type byte = bv8
  type Msg = seq<byte>

  datatype Phase =
    | Idle                                                           // not in a call on this queue
    | Sending(msg: Msg)                                              // waiting for a free node
    | Filling(msg: Msg, node: Node, done: nat, urgent: bool)         // copying into its node
    | Receiving(size: nat)                                           // waiting for a message
    | Draining(size: nat, node: Node, buf: seq<byte>, msg: Msg)      // copying out of its node

  datatype Place = InFree | InQueue | With(thread: Tid)

  datatype Delivery = Delivery(buf: seq<byte>, msg: Msg, size: nat)

  datatype State = State(
    phase: map<Tid, Phase>,
    free: seq<Node>,                // msg_queue_free, in link order
    queue: seq<Node>,               // msg_queue_head to msg_queue_tail, in link order
    payload: map<Node, seq<byte>>,  // the bytes behind every node
    sent: map<Node, Msg>,           // the message a node was linked for
    place: map<Node, Place>,        // where every node is
    send: Wait,                     // suspend_sender_thread, waiting for free nodes
    recv: Wait,                     // suspend_thread, waiting for messages
    flag: Flag, maxMsgs: nat, msgSize: nat,
    log: seq<Event<Msg>>,           // what happened to the queue seen as a list of messages
    delivered: seq<Delivery>)       // what receivers got

  datatype Action =
    | SendEnter(t: Tid, msg: Msg, giveUp: bool, prio: Priorities)
    | SendRetry(t: Tid, giveUp: bool, prio: Priorities)
    | UrgentEnter(t: Tid, msg: Msg)
    | FillByte(t: Tid)
    | Link(t: Tid)
    | RecvEnter(t: Tid, size: nat, giveUp: bool, prio: Priorities)
    | RecvRetry(t: Tid, giveUp: bool, prio: Priorities)
    | DrainByte(t: Tid)
    | Finish(t: Tid)
    | Timeout(t: Tid)
    | Reset

  function PhaseOf(s: State, t: Tid): Phase {
    if t in s.phase then s.phase[t] else Idle
  }

  function Goto(s: State, t: Tid, p: Phase): State {
    s.(phase := s.phase[t := p])
  }

  predicate Enabled(s: State, a: Action) {
    match a
    case SendEnter(t, msg, _, _) => PhaseOf(s, t) == Idle && 0 < |msg| <= s.msgSize
    case SendRetry(t, _, _) => t in s.send.woken && PhaseOf(s, t).Sending?
    case UrgentEnter(t, msg) => PhaseOf(s, t) == Idle && 0 < |msg| <= s.msgSize
    case FillByte(t) => var p := PhaseOf(s, t); p.Filling? && p.done < |p.msg|
    case Link(t) => var p := PhaseOf(s, t); p.Filling? && p.done == |p.msg|
    case RecvEnter(t, size, _, _) => PhaseOf(s, t) == Idle && 0 < size
    case RecvRetry(t, _, _) => t in s.recv.woken && PhaseOf(s, t).Receiving?
    case DrainByte(t) => var p := PhaseOf(s, t); p.Draining? && |p.buf| < Min(p.size, s.msgSize)
    case Finish(t) => var p := PhaseOf(s, t); p.Draining? && |p.buf| == Min(p.size, s.msgSize)
    case Timeout(t) => t in s.send.list || t in s.recv.list
    case Reset => true
  }

  /** The first critical section of rt_mq_send_wait, for a fresh call and after a wake-up. */
  function TryTake(s: State, t: Tid, msg: Msg, giveUp: bool, prio: Priorities): State {
    if s.free == [] then
      if giveUp then Goto(s, t, Idle).(send := Pass(s.send, t))
      else Goto(s, t, Sending(msg)).(send := Block(s.send, t, s.flag, prio))
    else TakeFree(s, t, msg, false).(send := Pass(s.send, t))
  }

  function TakeFree(s: State, t: Tid, msg: Msg, urgent: bool): State
    requires s.free != []
  {
    Goto(s, t, Filling(msg, s.free[0], 0, urgent))
      .(free := s.free[1..], place := s.place[s.free[0] := With(t)])
  }

  /** The second critical section of the send calls: links the node and wakes a receiver. */
  function LinkNode(s: State, t: Tid, msg: Msg, node: Node, urgent: bool): State {
    Goto(s, t, Idle)
      .(queue := if urgent then [node] + s.queue else s.queue + [node],
        sent := s.sent[node := msg],
        place := s.place[node := InQueue],
        recv := WakeFirst(s.recv),
        log := s.log + [if urgent then Front(msg) else Back(msg)])
  }

  function SentOf(s: State, n: Node): Msg {
    if n in s.sent then s.sent[n] else []
  }

  /** The first critical section of rt_mq_recv. */
  function TryRecv(s: State, t: Tid, size: nat, giveUp: bool, prio: Priorities): State {
    if s.queue == [] then
      if giveUp then Goto(s, t, Idle).(recv := Pass(s.recv, t))
      else Goto(s, t, Receiving(size)).(recv := Block(s.recv, t, s.flag, prio))
    else
      var node := s.queue[0];
      Goto(s, t, Draining(size, node, [], SentOf(s, node)))
        .(queue := s.queue[1..],
          place := s.place[node := With(t)],
          recv := Pass(s.recv, t),
          log := s.log + [Pop(SentOf(s, node))])
  }

  /** The second critical section of rt_mq_recv: frees the node and wakes a sender. */
  function PutFree(s: State, t: Tid, p: Phase): State
    requires p.Draining?
  {
    Goto(s, t, Idle)
      .(free := [p.node] + s.free,
        place := s.place[p.node := InFree],
        send := WakeFirst(s.send),
        delivered := s.delivered + [Delivery(p.buf, p.msg, p.size)])
  }

  function Reverse(s: seq<Node>): seq<Node> {
    if s == [] then [] else Reverse(s[1..]) + [s[0]]
  }

  /** rt_mq_control with RT_IPC_CMD_RESET: wakes everybody and frees the queued nodes. */
  function ResetAll(s: State): State {
    s.(phase := map t | t in s.phase && t !in s.send.list && t !in s.recv.list :: s.phase[t],
       free := Reverse(s.queue) + s.free,
       queue := [],
       place := map n | n in s.place :: if s.place[n] == InQueue then InFree else s.place[n],
       send := WakeAll(s.send),
       recv := WakeAll(s.recv),
       log := s.log + [Clear])
  }

  function Apply(s: State, a: Action): State
    requires Enabled(s, a)
  {
    match a
    case SendEnter(t, msg, giveUp, prio) => TryTake(s, t, msg, giveUp, prio)
    case SendRetry(t, giveUp, prio) => TryTake(s, t, PhaseOf(s, t).msg, giveUp, prio)
    case UrgentEnter(t, msg) => if s.free == [] then s else TakeFree(s, t, msg, true)
    case FillByte(t) =>
      var p := PhaseOf(s, t);
      if p.node in s.payload && p.done < |s.payload[p.node]| then
        Goto(s, t, p.(done := p.done + 1))
          .(payload := s.payload[p.node := s.payload[p.node][p.done := p.msg[p.done]]])
      else s
    case Link(t) => var p := PhaseOf(s, t); LinkNode(s, t, p.msg, p.node, p.urgent)
    case RecvEnter(t, size, giveUp, prio) => TryRecv(s, t, size, giveUp, prio)
    case RecvRetry(t, giveUp, prio) => TryRecv(s, t, PhaseOf(s, t).size, giveUp, prio)
    case DrainByte(t) =>
      var p := PhaseOf(s, t);
      if p.node in s.payload && |p.buf| < |s.payload[p.node]| then
        Goto(s, t, p.(buf := p.buf + [s.payload[p.node][|p.buf|]]))
      else s
    case Finish(t) => PutFree(s, t, PhaseOf(s, t))
    case Timeout(t) =>
      if t in s.send.list then Goto(s, t, Idle).(send := Expire(s.send, t))
      else Goto(s, t, Idle).(recv := Expire(s.recv, t))
    case Reset => ResetAll(s)
  }

  function Nodes(k: nat): (r: set<Node>)
    ensures forall n: Node :: n in r <==> n < k
  {
    if k == 0 then {} else Nodes(k - 1) + {k - 1}
  }

  /** rt_mq_init: the nodes were pushed on the free list from the lowest address up. */
  function Init(flag: Flag, maxMsgs: nat, msgSize: nat): State {
    State(map[], seq(maxMsgs, i requires 0 <= i < maxMsgs => maxMsgs - 1 - i), [],
          map n | n in Nodes(maxMsgs) :: seq(msgSize, _ => 0), map[],
          map n | n in Nodes(maxMsgs) :: InFree,
          Wait([], {}), Wait([], {}), flag, maxMsgs, msgSize, [], [])
  }

  // ---- What is kept -----------------------------------------------------------------------

  predicate Holds(p: Phase, n: Node) {
    (p.Filling? || p.Draining?) && p.node == n
  }

  /** Every node of the pool is in exactly one place: the free list, the queue, or the hands of
      one thread. */
  ghost predicate NodesInPlace(s: State) {
    && Distinct(s.free) && Distinct(s.queue)
    && (forall n: Node :: n in s.place <==> n < s.maxMsgs)
    && (forall n :: n in s.free <==> n in s.place && s.place[n] == InFree)
    && (forall n :: n in s.queue <==> n in s.place && s.place[n] == InQueue)
    && (forall n, t :: Holds(PhaseOf(s, t), n) <==> n in s.place && s.place[n] == With(t))
  }

  /** What a thread has copied so far agrees with the node it holds. */
  ghost predicate CopyOk(s: State, p: Phase) {
    match p
    case Filling(msg, node, done, _) =>
      done <= |msg| <= s.msgSize && node in s.payload && |s.payload[node]| == s.msgSize
      && msg[..done] == s.payload[node][..done]
    case Draining(_, node, buf, msg) =>
      node in s.payload && |s.payload[node]| == s.msgSize && buf <= s.payload[node] && msg <= s.payload[node]
    case Sending(msg) => |msg| <= s.msgSize
    case _ => true
  }

  /** A queued node carries the whole message it was linked for. */
  ghost predicate CarriesMsg(s: State, n: Node) {
    n in s.sent && n in s.payload && s.sent[n] <= s.payload[n]
  }

  ghost predicate PayloadsOk(s: State) {
    && (forall n: Node :: n < s.maxMsgs ==> n in s.payload && |s.payload[n]| == s.msgSize)
    && (forall n :: n in s.queue ==> CarriesMsg(s, n))
    && (forall t :: CopyOk(s, PhaseOf(s, t)))
  }

  /** One of the two is the beginning of the other: a receiver with room for it gets the whole
      message, and one without gets its beginning. */
  ghost predicate Whole(d: Delivery, msgSize: nat) {
    |d.buf| == Min(d.size, msgSize) && (d.buf <= d.msg || d.msg <= d.buf)
  }

  ghost predicate WaitsOk(s: State) {
    && Sound(s.send, |s.free|)
    && Sound(s.recv, |s.queue|)
    && (forall t :: t in Members(s.send) <==> PhaseOf(s, t).Sending?)
    && (forall t :: t in Members(s.recv) <==> PhaseOf(s, t).Receiving?)
  }

  function Contents(s: State): seq<Msg> {
    seq(|s.queue|, i requires 0 <= i < |s.queue| => SentOf(s, s.queue[i]))
  }

  /** The order of delivery: what was sent, popped and cleared so far, replayed on a list of
      messages, never gets stuck and ends with the messages now in the queue. */
  ghost predicate OrderOk(s: State) {
    && Replay(s.log) == Holding(Contents(s))
    && forall d :: d in s.delivered ==> Whole(d, s.msgSize)
  }

  ghost predicate Inv(s: State) {
    NodesInPlace(s) && PayloadsOk(s) && WaitsOk(s) && OrderOk(s)
  }
}
