/** The message queue object (ipc.c): the links of the message nodes, the bytes behind them and
    the two lists of threads.

    A node is known by its index in the pool; its header is the entry of `next` at that index.
    Between two sections a node can be in the hands of a thread, which is `held`.

    The ghost field `s` is the state of the interleaving model.  The first methods below change
    the links only; the later ones are one action of the model each, so what holds for every
    run of the model holds for every history of calls.
 */
module MsgQueues {
  import opened Chains
  import opened IpcList
  import opened Sequences
  import opened MsgQueueModel
  import opened MsgQueueLemmas

  const ALIGN := 8
  const HEADER := 4            // sizeof(struct rt_mq_message) on a 32-bit machine
  const ENTRY_MAX := 65535     // RT_MQ_ENTRY_MAX

  ghost predicate HeldAre(s: State, held: set<Node>) {
    forall n :: n in held <==> n in s.place && s.place[n].With?
  }

  // What a thread knows of its own call.

  predicate Has(p: Phase, node: Node, urgent: bool) {
    p.Filling? && p.node == node && p.urgent == urgent
  }

  predicate Fills(p: Phase, msg: Msg, node: Node, done: nat) {
    p.Filling? && p.msg == msg && p.node == node && p.done == done
  }

  predicate Drains(p: Phase, node: Node, at: nat) {
    p.Draining? && p.node == node && |p.buf| == at
  }

  predicate Appended(p: Phase, q: Phase, b: byte) {
    p.Draining? && q == p.(buf := p.buf + [b])
  }

  ghost predicate Blank(p: Phase, next: Links) {
    p.Filling? && !p.urgent ==> p.node in next && next[p.node] == NULL
  }

  /** A sender clears the link of its node before it fills it. */
  ghost predicate Cleared(s: State, next: Links) {
    forall t :: Blank(PhaseOf(s, t), next)
  }

  lemma HolderHolds(s: State, held: set<Node>, t: Tid)
    requires Inv(s) && HeldAre(s, held)
    ensures var p := PhaseOf(s, t);
      (p.Filling? || p.Draining?) ==> p.node in held && s.place[p.node] == With(t)
  {
    hide PayloadsOk, WaitsOk, OrderOk, Distinct;
    var p := PhaseOf(s, t);
    if p.Filling? || p.Draining? {
      assert Holds(PhaseOf(s, t), p.node);
    }
  }

  /** Changing the links of nodes that nobody holds disturbs no thread. */
  lemma ClearedKept(s: State, r: State, next: Links, next': Links, held: set<Node>, held': set<Node>)
    requires Inv(s) && HeldAre(s, held) && Cleared(s, next)
    requires Inv(r) && HeldAre(r, held')
    requires forall n :: n in held && n in held' ==> n in next' && (n in next ==> next'[n] == next[n])
    requires forall u :: PhaseOf(r, u) == PhaseOf(s, u) || Blank(PhaseOf(r, u), next')
    ensures Cleared(r, next')
  {
    hide Inv, HeldAre;
    forall u
      ensures Blank(PhaseOf(r, u), next')
    {
      HolderHolds(s, held, u);
      HolderHolds(r, held', u);
      assert Blank(PhaseOf(s, u), next);
    }
  }

  lemma NobodyYet(flag: Flag, maxMsgs: nat, msgSize: nat, next: Links)
    ensures HeldAre(Init(flag, maxMsgs, msgSize), {}) && Cleared(Init(flag, maxMsgs, msgSize), next)
  {
  }

  lemma BlankAt(s: State, next: Links, t: Tid)
    requires Cleared(s, next)
    ensures Blank(PhaseOf(s, t), next)
  {
  }

  lemma CopyingIn(s: State, t: Tid)
    requires Inv(s) && Enabled(s, FillByte(t))
    ensures PhaseOf(s, t).node in s.payload && |s.payload[PhaseOf(s, t).node]| == s.msgSize
    ensures |PhaseOf(s, t).msg| <= s.msgSize
  {
    hide NodesInPlace, WaitsOk, OrderOk;
    assert CopyOk(s, PhaseOf(s, t));
  }

  lemma CopyingOut(s: State, t: Tid)
    requires Inv(s) && Enabled(s, DrainByte(t))
    ensures PhaseOf(s, t).node in s.payload && |s.payload[PhaseOf(s, t).node]| == s.msgSize
  {
    hide NodesInPlace, WaitsOk, OrderOk;
    assert CopyOk(s, PhaseOf(s, t));
  }

  /** How a send call begins: refused, without a node, suspended, or with a node of its own. */
  datatype Entered = TooLong | NoNode | Waiting | GotNode(node: Node)

  class MessageQueue {
    const maxMsgs: nat
    const msgSize: nat
    const flag: Flag
    const senders: ThreadList
    const receivers: ThreadList

    var next: Links
    var head: int
    var tail: int
    var free: int
    var entry: nat
    var payload: map<Node, seq<byte>>

    ghost var s: State
    ghost var queue: seq<Node>
    ghost var avail: seq<Node>
    ghost var held: set<Node>

    ghost predicate ListsOk()
      reads `next, `head, `tail, `free, `entry, `queue, `avail, `held
    {
      && Chain(next, head, queue) && Chain(next, free, avail)
      && Distinct(queue) && Distinct(avail)
      && tail == (if queue == [] then NULL else queue[|queue| - 1])
      && entry == |queue|
    }

    /** Every node is in the queue, free or held, and in only one of these. */
    ghost predicate Shared()
      reads `next, `head, `tail, `free, `entry, `queue, `avail, `held
    {
      && (forall n: Node :: n < maxMsgs <==> n in queue || n in avail || n in held)
      && (forall n :: n in queue ==> n !in avail && n !in held)
      && (forall n :: n in avail ==> n !in held)
      && (forall n: Node :: n < maxMsgs ==> n in next)
    }

    ghost predicate Linked()
      reads `next, `head, `tail, `free, `entry, `queue, `avail, `held
    {
      maxMsgs <= ENTRY_MAX && ListsOk() && Shared()
    }

    /** The object and the state of the model agree. */
    ghost predicate Agrees()
      reads this, senders, receivers
    {
      && s.maxMsgs == maxMsgs && s.msgSize == msgSize && s.flag == flag && s.payload == payload
      && s.queue == queue && s.free == avail && HeldAre(s, held)
      && senders != receivers && senders.list == s.send.list && receivers.list == s.recv.list
    }

    ghost predicate Valid()
      reads this, senders, receivers
    {
      Linked() && Agrees() && Inv(s) && Cleared(s, next)
    }

    /** rt_mq_init; max_msgs is a 16-bit field. */
    constructor (size: nat, poolSize: nat, flag: Flag)
      ensures Valid() && fresh(senders) && fresh(receivers)
      ensures msgSize == (size + ALIGN - 1) / ALIGN * ALIGN
      ensures maxMsgs == poolSize / (msgSize + HEADER) % 0x10000
      ensures s == Init(flag, maxMsgs, msgSize)
    {
      hide Linked, Inv, HeldAre, Cleared, Nodes;
      var aligned := (size + ALIGN - 1) / ALIGN * ALIGN;
      var count := poolSize / (aligned + HEADER) % 0x10000;
      msgSize, maxMsgs, this.flag := aligned, count, flag;
      head, tail, free, entry := NULL, NULL, NULL, 0;
      next := map[];
      payload := map n | n in Nodes(count) :: seq(aligned, _ => 0);
      senders := new ThreadList();
      receivers := new ThreadList();
      queue, avail, held := [], [], {};
      s := Init(flag, count, aligned);
      new;
      LinkPool();
      InitInv(flag, count, aligned);
      NobodyYet(flag, count, aligned, next);
    }

    /** The loop of rt_mq_init. */
    method LinkPool()
      requires queue == [] && avail == [] && held == {} && next == map[]
      requires head == NULL && tail == NULL && entry == 0 && free == NULL && maxMsgs <= ENTRY_MAX
      modifies this`next, this`free, this`avail
      ensures Linked()
      ensures avail == Init(flag, maxMsgs, msgSize).free
    {
      var temp := 0;
      while temp < maxMsgs
        invariant temp <= maxMsgs
        invariant avail == seq(temp, i requires 0 <= i < temp => temp - 1 - i)
        invariant Chain(next, free, avail)
        invariant forall n: Node :: n in next <==> n < temp
      {
        assert temp !in avail;
        ChainElsewhere(next, free, avail, temp, free);
        next := next[temp := free];
        free := temp;
        ghost var rest := avail;
        avail := [temp] + rest;
        assert avail[1..] == rest;
        temp := temp + 1;
      }
      forall n: Node | n < maxMsgs
        ensures n in avail
      {
        assert avail[maxMsgs - 1 - n] == n;
      }
    }

    lemma LinkedFacts()
      requires Linked()
      ensures entry == |queue|
      ensures forall n :: n in held ==> n in next
    {
    }

    /** Takes the first free node, if there is one; the sender now holds it. */
    method TakeFree() returns (msg: int)
      requires Linked()
      modifies this`free, this`avail, this`held
      ensures Linked()
      ensures old(avail) == [] ==> msg == NULL && avail == [] && held == old(held)
      ensures old(avail) != [] ==> msg == old(avail)[0] && avail == old(avail)[1..] && held == old(held) + {msg}
      ensures msg !in old(held)
    {
      msg := free;
      if msg != NULL {
        free := next[msg];
        TailDistinct(avail);
        held := held + {msg};
        avail := avail[1..];
      }
    }

    /** A sender marks its node as the last one, before it copies the message into it. */
    method ClearNext(msg: Node)
      requires Linked() && msg in held
      modifies this`next
      ensures Linked() && next == old(next)[msg := NULL]
    {
      ChainElsewhere(next, head, queue, msg, NULL);
      ChainElsewhere(next, free, avail, msg, NULL);
      next := next[msg := NULL];
    }

    /** The entry count can always be raised: it is below RT_MQ_ENTRY_MAX while a node is held. */
    lemma RoomForOne(msg: Node)
      requires Linked() && msg in held
      ensures entry < ENTRY_MAX
    {
      JoinDistinct(queue, [msg]);
      DistinctBound(queue + [msg], maxMsgs);
    }

    /** The second section of rt_mq_send_wait. */
    method LinkTail(msg: Node) returns (ok: bool)
      requires Linked() && msg in held && next[msg] == NULL
      modifies this`next, this`head, this`tail, this`entry, this`queue, this`held
      ensures Linked() && ok
      ensures queue == old(queue) + [msg] && avail == old(avail) && held == old(held) - {msg}
      ensures forall n :: n in held ==> next[n] == old(next)[n]
    {
      RoomForOne(msg);
      JoinDistinct(queue, [msg]);
      if tail != NULL {
        ChainLast(next, head, queue, msg);
        ChainElsewhere(next, free, avail, tail, msg);
        next := next[tail := msg];
      }
      tail := msg;
      if head == NULL {
        head := msg;
      }
      queue := queue + [msg];
      held := held - {msg};
      if entry < ENTRY_MAX {
        entry := entry + 1;
        ok := true;
      } else {
        ok := false;
      }
    }

    /** The second section of rt_mq_urgent. */
    method LinkHead(msg: Node) returns (ok: bool)
      requires Linked() && msg in held
      modifies this`next, this`head, this`tail, this`entry, this`queue, this`held
      ensures Linked() && ok
      ensures queue == [msg] + old(queue) && avail == old(avail) && held == old(held) - {msg}
      ensures forall n :: n in held ==> next[n] == old(next)[n]
    {
      RoomForOne(msg);
      JoinDistinct([msg], queue);
      ChainElsewhere(next, head, queue, msg, head);
      ChainElsewhere(next, free, avail, msg, head);
      next := next[msg := head];
      head := msg;
      if tail == NULL {
        tail := msg;
      }
      assert ([msg] + queue)[1..] == queue;
      queue := [msg] + queue;
      held := held - {msg};
      if entry < ENTRY_MAX {
        entry := entry + 1;
        ok := true;
      } else {
        ok := false;
      }
    }

    /** The first section of rt_mq_recv, once a message is there. */
    method TakeHead() returns (msg: Node)
      requires Linked() && entry != 0
      modifies this`head, this`tail, this`entry, this`queue, this`held
      ensures Linked()
      ensures msg == old(queue)[0] && queue == old(queue)[1..] && held == old(held) + {msg}
    {
      msg := head;
      head := next[msg];
      if tail == msg {
        tail := NULL;
      }
      TailDistinct(queue);
      held := held + {msg};
      queue := queue[1..];
      if entry > 0 {
        entry := entry - 1;
      }
    }

    /** The second section of rt_mq_recv. */
    method PutFree(msg: Node)
      requires Linked() && msg in held
      modifies this`next, this`free, this`avail, this`held
      ensures Linked()
      ensures avail == [msg] + old(avail) && held == old(held) - {msg}
      ensures forall n :: n in held ==> next[n] == old(next)[n]
    {
      JoinDistinct([msg], avail);
      ChainElsewhere(next, head, queue, msg, free);
      ChainElsewhere(next, free, avail, msg, free);
      assert ([msg] + avail)[1..] == avail;
      next := next[msg := free];
      free := msg;
      avail := [msg] + avail;
      held := held - {msg};
    }

    /** The loop of rt_mq_control with RT_IPC_CMD_RESET. */
    method FreeAll()
      requires Linked()
      modifies this`next, this`head, this`tail, this`free, this`entry, this`queue, this`avail
      ensures Linked()
      ensures queue == [] && entry == 0
      ensures avail == Reverse(old(queue)) + old(avail)
      ensures forall n :: n in held ==> next[n] == old(next)[n]
    {
      while head != NULL
        invariant maxMsgs <= ENTRY_MAX && Shared()
        invariant Chain(next, head, queue) && Chain(next, free, avail) && Distinct(queue) && Distinct(avail)
        invariant tail == (if queue == [] then NULL else queue[|queue| - 1])
        invariant Reverse(old(queue)) + old(avail) == Reverse(queue) + avail
        invariant forall n :: n in held ==> next[n] == old(next)[n]
        decreases |queue|
      {
        FreeHead();
      }
      entry := 0;
    }

    /** The body of that loop. */
    method FreeHead()
      requires Shared() && queue != []
      requires Chain(next, head, queue) && Chain(next, free, avail) && Distinct(queue) && Distinct(avail)
      requires tail == queue[|queue| - 1]
      modifies this`next, this`head, this`tail, this`free, this`queue, this`avail
      ensures Shared()
      ensures Chain(next, head, queue) && Chain(next, free, avail) && Distinct(queue) && Distinct(avail)
      ensures tail == (if queue == [] then NULL else queue[|queue| - 1])
      ensures queue == old(queue)[1..] && avail == [old(queue)[0]] + old(avail)
      ensures Reverse(queue) + avail == Reverse(old(queue)) + old(avail)
      ensures forall n :: n in held ==> next[n] == old(next)[n]
    {
      hide Distinct;
      var msg: Node := head;
      head := next[msg];
      if tail == msg {
        tail := NULL;
      }
      OnlyOne(queue);
      TailDistinct(queue);
      queue := queue[1..];
      JoinDistinct([msg], avail);
      ChainElsewhere(next, head, queue, msg, free);
      ChainElsewhere(next, free, avail, msg, free);
      assert ([msg] + avail)[1..] == avail;
      next := next[msg := free];
      free := msg;
      avail := [msg] + avail;
    }

    // ---- The actions of the model ---------------------------------------------------------

    /** One turn of the loop of rt_mq_send_wait, and the code behind it up to the copying. */
    method Take(t: Tid, msg: Msg, giveUp: bool, prio: Priorities) returns (node: int)
      requires Valid()
      requires Enabled(s, SendEnter(t, msg, giveUp, prio)) ||
        (Enabled(s, SendRetry(t, giveUp, prio)) && PhaseOf(s, t) == Sending(msg))
      modifies this`next, this`free, this`avail, this`held, this`s, senders
      ensures Valid() && s == TryTake(old(s), t, msg, giveUp, prio)
      ensures node == if old(s).free == [] then NULL else old(s).free[0]
    {
      hide Linked, Inv, Enabled, Chain, Distinct, Enlist, Cleared;
      ghost var was, before, kept := s, next, held;
      SendTurn(s, t, msg, giveUp, prio);
      node := TakeFree();
      if node == NULL {
        if !giveUp {
          senders.Suspend(t, flag, prio);
        }
      } else {
        ClearNext(node);
      }
      s := TryTake(s, t, msg, giveUp, prio);
      LinkedFacts();
      ClearedKept(was, s, before, next, kept, held);
    }

    /** The first section of rt_mq_urgent. */
    method TakeUrgent(t: Tid, msg: Msg) returns (node: int)
      requires Valid() && Enabled(s, UrgentEnter(t, msg))
      modifies this`free, this`avail, this`held, this`s
      ensures Valid() && IsStep(old(s), UrgentEnter(t, msg), s)
      ensures node == if old(s).free == [] then NULL else old(s).free[0]
    {
      hide Linked, Inv, Chain, Distinct, Cleared;
      ghost var was, kept := s, held;
      ApplyKeeps(s, UrgentEnter(t, msg));
      node := TakeFree();
      s := Apply(s, UrgentEnter(t, msg));
      LinkedFacts();
      ClearedKept(was, s, next, next, kept, held);
    }

    /** The start of rt_mq_send_wait: a message that is longer than the nodes is refused. */
    method Send(t: Tid, msg: Msg, giveUp: bool, prio: Priorities) returns (r: Entered)
      requires Valid() && PhaseOf(s, t) == Idle && msg != []
      modifies this`next, this`free, this`avail, this`held, this`s, senders
      ensures Valid()
      ensures |msg| > msgSize ==> r == TooLong && s == old(s)
      ensures |msg| <= msgSize ==> s == TryTake(old(s), t, msg, giveUp, prio)
      ensures |msg| <= msgSize ==>
        r == if old(s).free != [] then GotNode(old(s).free[0]) else if giveUp then NoNode else Waiting
    {
      hide Linked, Inv, Cleared;
      if |msg| > msgSize {
        return TooLong;
      }
      var node := Take(t, msg, giveUp, prio);
      r := if node != NULL then GotNode(node) else if giveUp then NoNode else Waiting;
    }

    /** The start of rt_mq_urgent, which never waits. */
    method SendFirst(t: Tid, msg: Msg) returns (r: Entered)
      requires Valid() && PhaseOf(s, t) == Idle && msg != []
      modifies this`free, this`avail, this`held, this`s
      ensures Valid()
      ensures |msg| > msgSize ==> r == TooLong && s == old(s)
      ensures |msg| <= msgSize ==> IsStep(old(s), UrgentEnter(t, msg), s)
      ensures |msg| <= msgSize ==> r == if old(s).free != [] then GotNode(old(s).free[0]) else NoNode
    {
      hide Linked, Inv, Cleared;
      if |msg| > msgSize {
        return TooLong;
      }
      var node := TakeUrgent(t, msg);
      r := if node != NULL then GotNode(node) else NoNode;
    }

    /** One byte of the copy of rt_mq_send_wait and rt_mq_urgent. */
    method FillOne(ghost t: Tid, msg: Msg, node: Node, done: nat)
      requires Valid() && Enabled(s, FillByte(t)) && Fills(PhaseOf(s, t), msg, node, done)
      modifies this`payload, this`s
      ensures Valid() && IsStep(old(s), FillByte(t), s)
    {
      hide Linked, Inv, Chain, Distinct, Cleared;
      ghost var was := s;
      ApplyKeeps(s, FillByte(t));
      CopyingIn(s, t);
      BlankAt(s, next, t);
      payload := payload[node := payload[node][done := msg[done]]];
      s := Apply(s, FillByte(t));
      LinkedFacts();
      ClearedKept(was, s, next, next, held, held);
    }

    /** The second section of rt_mq_send_wait and of rt_mq_urgent. */
    method LinkIn(ghost t: Tid, node: Node, urgent: bool) returns (ok: bool)
      requires Valid() && Enabled(s, Link(t)) && Has(PhaseOf(s, t), node, urgent)
      modifies this, receivers
      ensures Valid() && ok && IsStep(old(s), Link(t), s)
    {
      hide Linked, Inv, Chain, Distinct, Cleared;
      ghost var was, before, kept := s, next, held;
      ApplyKeeps(s, Link(t));
      HolderHolds(s, held, t);
      BlankAt(s, next, t);
      if urgent {
        ok := LinkHead(node);
      } else {
        ok := LinkTail(node);
      }
      if receivers.list != [] {
        var resumed := receivers.Resume();
      }
      s := Apply(s, Link(t));
      LinkedFacts();
      ClearedKept(was, s, before, next, kept, held);
    }

    /** One turn of the loop of rt_mq_recv, and the code behind it up to the copying. */
    method Recv(t: Tid, size: nat, giveUp: bool, prio: Priorities) returns (node: int)
      requires Valid()
      requires Enabled(s, RecvEnter(t, size, giveUp, prio)) ||
        (Enabled(s, RecvRetry(t, giveUp, prio)) && PhaseOf(s, t) == Receiving(size))
      modifies this`head, this`tail, this`entry, this`queue, this`held, this`s, receivers
      ensures Valid() && s == TryRecv(old(s), t, size, giveUp, prio)
      ensures node == if old(s).queue == [] then NULL else old(s).queue[0]
    {
      hide Linked, Inv, Enabled, Chain, Distinct, Enlist, Cleared;
      ghost var was, kept := s, held;
      RecvTurn(s, t, size, giveUp, prio);
      LinkedFacts();
      if entry == 0 {
        node := NULL;
        if !giveUp {
          receivers.Suspend(t, flag, prio);
        }
      } else {
        node := TakeHead();
      }
      s := TryRecv(s, t, size, giveUp, prio);
      LinkedFacts();
      ClearedKept(was, s, next, next, kept, held);
    }

    /** One byte of the copy of rt_mq_recv. */
    method DrainOne(ghost t: Tid, node: Node, at: nat) returns (b: byte)
      requires Valid() && Enabled(s, DrainByte(t)) && Drains(PhaseOf(s, t), node, at)
      modifies this`s
      ensures Valid() && IsStep(old(s), DrainByte(t), s)
      ensures Appended(PhaseOf(old(s), t), PhaseOf(s, t), b)
    {
      hide Linked, Inv, Chain, Distinct, Cleared;
      ghost var was := s;
      ApplyKeeps(s, DrainByte(t));
      CopyingOut(s, t);
      b := payload[node][at];
      s := Apply(s, DrainByte(t));
      LinkedFacts();
      ClearedKept(was, s, next, next, held, held);
    }

    /** The second section of rt_mq_recv. */
    method PutBack(ghost t: Tid, node: Node)
      requires Valid() && Enabled(s, Finish(t)) && Holds(PhaseOf(s, t), node)
      modifies this`next, this`free, this`avail, this`held, this`s, senders
      ensures Valid() && IsStep(old(s), Finish(t), s)
    {
      hide Linked, Inv, Chain, Distinct, Cleared;
      ghost var was, before, kept := s, next, held;
      ApplyKeeps(s, Finish(t));
      HolderHolds(s, held, t);
      PutFree(node);
      if senders.list != [] {
        var resumed := senders.Resume();
      }
      s := Apply(s, Finish(t));
      LinkedFacts();
      ClearedKept(was, s, before, next, kept, held);
    }

    /** The timer of a waiting thread fires. */
    method TimeOut(t: Tid)
      requires Valid() && Enabled(s, Timeout(t))
      modifies this`s, senders, receivers
      ensures Valid() && IsStep(old(s), Timeout(t), s)
    {
      hide Linked, Inv, Chain, Distinct, Removed, Cleared;
      ghost var was := s;
      ApplyKeeps(s, Timeout(t));
      OneSide(s, t);
      NotThere(s.send.list, t);
      NotThere(s.recv.list, t);
      senders.Leave(t);
      receivers.Leave(t);
      s := Apply(s, Timeout(t));
      LinkedFacts();
      ClearedKept(was, s, next, next, held, held);
    }

    /** rt_mq_control with RT_IPC_CMD_RESET */
    method ResetQueue()
      requires Valid()
      modifies this, senders, receivers
      ensures Valid() && s == ResetAll(old(s))
    {
      hide Linked, Inv, Chain, Distinct, Reverse, Cleared;
      ghost var was, before := s, next;
      ApplyKeeps(s, Action.Reset);
      receivers.ResumeAll();
      senders.ResumeAll();
      FreeAll();
      s := ResetAll(s);
      LinkedFacts();
      ClearedKept(was, s, before, next, held, held);
    }
  }

  lemma OnlyOne(s: seq<Node>)
    requires Distinct(s) && s != []
    ensures s[0] == s[|s| - 1] <==> |s| == 1
    ensures Distinct([s[0]])
  {
  }
}
