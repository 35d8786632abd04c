/** The mailbox object (ipc.c): a ring buffer with two offsets and two lists of threads.

    The ghost field `s` is the state of the interleaving model; every method is one action on
    it, so what holds for every run of the model holds for every history of calls.
 */
module Mailboxes {
  import opened IpcList
  import opened DequeLog
  import opened MailboxModel

  const ENTRY_MAX := 65535   // RT_MB_ENTRY_MAX; the counters are 16 bits wide

  datatype Outcome = Done | Full | Suspended | Overflow
  datatype Received = Got(value: Value) | Empty | Waits

  function Wrap(i: int, size: int): int {
    if i >= size then i - size else i
  }

  /** What a ring holds: `n` values from offset `out` on. */
  function Ring(pool: seq<Value>, out: int, n: nat): (r: seq<Value>)
    requires 0 <= out < |pool| || n == 0
    requires n <= |pool|
    ensures |r| == n
  {
    seq(n, i requires 0 <= i < n => pool[Wrap(out + i, |pool|)])
  }

  class Mailbox {
    const size: nat
    const flag: Flag
    const pool: array<Value>
    const senders: ThreadList
    const receivers: ThreadList

    var entry: nat
    var inOffset: nat
    var outOffset: nat

    ghost var s: State

    /** The ring, as the offsets and the entry count describe it, holds the mail of the model. */
    ghost predicate RingOk()
      reads this, pool
    {
      && pool.Length == size <= ENTRY_MAX && entry <= size
      && (size == 0 ==> inOffset == 0 && outOffset == 0)
      && (0 < size ==> outOffset < size && inOffset == Wrap(outOffset + entry, size))
      && s.mail == Ring(pool[..], outOffset, entry)
    }

    ghost predicate Valid()
      reads this, pool, senders, receivers
    {
      && RingOk() && Inv(s) && s.size == size && s.flag == flag
      && senders != receivers && senders.list == s.send.list && receivers.list == s.recv.list
    }

    /** rt_mb_init; the size is a 16-bit field. */
    constructor (size: nat, flag: Flag)
      requires size <= ENTRY_MAX
      ensures Valid() && s == Init(flag, size)
      ensures fresh(pool) && fresh(senders) && fresh(receivers)
    {
      this.size, this.flag := size, flag;
      pool := new Value[size](_ => 0);
      senders := new ThreadList();
      receivers := new ThreadList();
      entry, inOffset, outOffset := 0, 0, 0;
      s := Init(flag, size);
      new;
      InitInv(flag, size);
    }

    /** One turn of the loop of rt_mb_send_wait: a fresh call, or a sender that was resumed. */
    method Send(t: Tid, value: Value, giveUp: bool, prio: Priorities) returns (r: Outcome)
      requires Valid()
      requires Enabled(s, SendEnter(t, value, giveUp, prio)) ||
        (Enabled(s, SendRetry(t, giveUp, prio)) && PhaseOf(s, t) == Sending(value))
      modifies this, pool, senders, receivers
      ensures Valid() && s == TrySend(old(s), t, value, giveUp, prio)
      ensures r == if old(|s.mail| < s.size) then Done else if giveUp then Full else Suspended
    {
      hide Inv, Enabled, Enlist, Ring;
      SendTurn(s, t, value, giveUp, prio);
      ghost var was := s;
      if entry == size {
        if giveUp {
          r := Full;
        } else {
          senders.Suspend(t, flag, prio);
          r := Suspended;
        }
        s := TrySend(s, t, value, giveUp, prio);
      } else {
        r := Store(value);
        s := TrySend(was, t, value, giveUp, prio);
        if receivers.list != [] {
          var resumed := receivers.Resume();
        }
      }
    }

    /** Stores a value at the input offset. */
    method Store(value: Value) returns (r: Outcome)
      requires RingOk() && entry < size
      modifies this`entry, this`inOffset, this`s, pool
      ensures RingOk() && r == Done
      ensures s == old(s).(mail := old(s).mail + [value])
    {
      hide Ring;
      ghost var before := pool[..];
      pool[inOffset] := value;
      StoreLast(before, outOffset, entry, value);
      assert pool[..] == before[inOffset := value];
      s := s.(mail := s.mail + [value]);
      inOffset := inOffset + 1;
      if inOffset >= size {
        inOffset := 0;
      }
      if entry < ENTRY_MAX {
        entry := entry + 1;
        r := Done;
      } else {
        r := Overflow;
      }
    }

    /** rt_mb_urgent */
    method SendFirst(value: Value) returns (r: Outcome)
      requires Valid()
      modifies this, pool, receivers
      ensures Valid() && s == SendUrgent(old(s), value)
      ensures r == if old(|s.mail| < s.size) then Done else Full
    {
      hide Inv, Ring;
      UrgentKeeps(s, value);
      if entry == size {
        return Full;
      }
      ghost var before := pool[..];
      var rewound := if outOffset > 0 then outOffset - 1 else size - 1;
      StoreFirst(before, outOffset, entry, value);
      outOffset := rewound;
      pool[outOffset] := value;
      assert pool[..] == before[rewound := value];
      entry := entry + 1;
      s := SendUrgent(s, value);
      if receivers.list != [] {
        var resumed := receivers.Resume();
      }
      r := Done;
    }

    /** One turn of the loop of rt_mb_recv. */
    method Recv(t: Tid, giveUp: bool, prio: Priorities) returns (r: Received)
      requires Valid()
      requires Enabled(s, RecvEnter(t, giveUp, prio)) || Enabled(s, RecvRetry(t, giveUp, prio))
      modifies this, senders, receivers
      ensures Valid() && s == TryRecv(old(s), t, giveUp, prio)
      ensures r == if old(s).mail != [] then Got(old(s).mail[0]) else if giveUp then Empty else Waits
    {
      hide Inv, Enabled, Enlist, Ring;
      RecvTurn(s, t, giveUp, prio);
      ghost var was := s;
      if entry == 0 {
        if giveUp {
          r := Empty;
        } else {
          receivers.Suspend(t, flag, prio);
          r := Waits;
        }
        s := TryRecv(s, t, giveUp, prio);
      } else {
        var value := Fetch();
        r := Got(value);
        s := TryRecv(was, t, giveUp, prio);
        if senders.list != [] {
          var resumed := senders.Resume();
        }
      }
    }

    /** Takes the value at the output offset. */
    method Fetch() returns (value: Value)
      requires RingOk() && entry != 0
      modifies this`entry, this`outOffset, this`s
      ensures RingOk()
      ensures value == old(s).mail[0] && s == old(s).(mail := old(s).mail[1..])
    {
      hide Ring;
      value := pool[outOffset];
      DropFirst(pool[..], outOffset, entry);
      s := s.(mail := s.mail[1..]);
      outOffset := outOffset + 1;
      if outOffset >= size {
        outOffset := 0;
      }
      if entry > 0 {
        entry := entry - 1;
      }
    }

    /** The timer of a waiting thread fires. */
    method TimeOut(t: Tid)
      requires Valid() && Enabled(s, Timeout(t))
      modifies this`s, senders, receivers
      ensures Valid() && s == Expired(old(s), t)
    {
      hide Inv, Ring, Removed;
      ExpiredKeeps(s, t);
      OneSide(s, t);
      NotThere(s.send.list, t);
      NotThere(s.recv.list, t);
      senders.Leave(t);
      receivers.Leave(t);
      s := Expired(s, t);
    }

    /** rt_mb_control with RT_IPC_CMD_RESET */
    method Reset()
      requires Valid()
      modifies this, senders, receivers
      ensures Valid() && s == ResetAll(old(s))
    {
      hide Inv;
      ResetKeeps(s);
      receivers.ResumeAll();
      senders.ResumeAll();
      entry, inOffset, outOffset := 0, 0, 0;
      s := ResetAll(s);
    }
  }

  // ---- The ring ---------------------------------------------------------------------------

  lemma StoreLast(pool: seq<Value>, out: nat, n: nat, value: Value)
    requires n < |pool| && out < |pool|
    ensures var i := Wrap(out + n, |pool|);
      0 <= i < |pool| && Ring(pool[i := value], out, n + 1) == Ring(pool, out, n) + [value]
  {
    var i := Wrap(out + n, |pool|);
    var r, q := Ring(pool[i := value], out, n + 1), Ring(pool, out, n) + [value];
    forall k | 0 <= k < n + 1
      ensures r[k] == q[k]
    {
      assert r[k] == pool[i := value][Wrap(out + k, |pool|)];
    }
  }

  lemma StoreFirst(pool: seq<Value>, out: nat, n: nat, value: Value)
    requires n < |pool| && out < |pool|
    ensures var i := if out > 0 then out - 1 else |pool| - 1;
      && Ring(pool[i := value], i, n + 1) == [value] + Ring(pool, out, n)
      && Wrap(i + n + 1, |pool|) == Wrap(out + n, |pool|)
  {
    var i := if out > 0 then out - 1 else |pool| - 1;
    var r, q := Ring(pool[i := value], i, n + 1), [value] + Ring(pool, out, n);
    forall k | 0 <= k < n + 1
      ensures r[k] == q[k]
    {
      assert r[k] == pool[i := value][Wrap(i + k, |pool|)];
      assert 0 < k ==> q[k] == pool[Wrap(out + (k - 1), |pool|)];
    }
  }

  lemma DropFirst(pool: seq<Value>, out: nat, n: nat)
    requires 0 < n <= |pool| && out < |pool|
    ensures Ring(pool, out, n)[0] == pool[out]
    ensures Ring(pool, Wrap(out + 1, |pool|), n - 1) == Ring(pool, out, n)[1..]
    ensures Wrap(Wrap(out + 1, |pool|) + n - 1, |pool|) == Wrap(out + n, |pool|)
  {
    var r, q := Ring(pool, Wrap(out + 1, |pool|), n - 1), Ring(pool, out, n)[1..];
    assert Ring(pool, out, n)[0] == pool[Wrap(out + 0, |pool|)];
    forall k | 0 <= k < n - 1
      ensures r[k] == q[k]
    {
      assert r[k] == pool[Wrap(Wrap(out + 1, |pool|) + k, |pool|)];
      assert q[k] == Ring(pool, out, n)[k + 1] == pool[Wrap(out + (k + 1), |pool|)];
    }
  }
}
