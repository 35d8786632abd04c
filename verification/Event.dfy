/** The event object (ipc.c) and the two fields every thread keeps for it.

    The ghost field `s` is the state of EventModel, and every method is one action on it.
 */
module Events {
  import opened EventFlags
  import opened EventModel
  import opened IpcList
  import opened Sequences

  datatype Outcome = Refused | Gained(bits: Bits) | TimedOut | Suspended

  class Event {
    const flag: Flag
    const waiters: ThreadList

    var now: Bits                    // event->set
    var eventSet: map<Tid, Bits>     // thread->event_set
    var eventInfo: map<Tid, bv8>     // thread->event_info

    ghost var s: State

    /** The fields of suspended threads say what they wait for. */
    ghost predicate Noted(list: seq<Tid>, wants: Wants)
      reads `eventSet, `eventInfo
    {
      forall t :: t in list ==>
        t in eventSet && t in eventInfo && t in wants && wants[t] == Want(eventSet[t], eventInfo[t]) &&
        (Asks(eventInfo[t], AND) || Asks(eventInfo[t], OR))
    }

    ghost predicate Valid()
      reads this, waiters
    {
      Inv(s) && s.now == now && s.flag == flag && s.list == waiters.list && Noted(waiters.list, s.wants)
    }

    /** rt_event_init */
    constructor (flag: Flag)
      ensures Valid() && fresh(waiters)
      ensures s == State(0, [], map[], flag, [])
    {
      this.flag := flag;
      waiters := new ThreadList();
      now, eventSet, eventInfo := 0, map[], map[];
      s := State(0, [], map[], flag, []);
    }

    /** rt_event_recv, up to the point where the thread goes on or is suspended.  Nobody can ask
        for no flag at all. */
    method Recv(t: Tid, bits: Bits, option: bv8, giveUp: bool, prio: Priorities) returns (r: Outcome)
      requires Valid() && t !in s.list && (Asks(option, AND) || Asks(option, OR))
      modifies this, waiters
      ensures Valid() && s == if bits == 0 then old(s) else TryRecv(old(s), t, Want(bits, option), giveUp, prio)
      ensures r == if bits == 0 then Refused else if Met(old(now), bits, option) then Gained(Seen(old(now), bits))
        else if giveUp then TimedOut else Suspended
    {
      hide Inv, Met, Asks, Seen, TryRecv, Noted;
      if bits == 0 {
        return Refused;
      }
      r := Await(t, bits, option, giveUp, prio);
    }

    /** The section of rt_event_recv with interrupts disabled. */
    method Await(t: Tid, bits: Bits, option: bv8, giveUp: bool, prio: Priorities) returns (r: Outcome)
      requires Valid() && Enabled(s, EventModel.Recv(t, Want(bits, option), giveUp, prio))
      modifies this, waiters
      ensures Valid() && s == TryRecv(old(s), t, Want(bits, option), giveUp, prio)
      ensures r == if Met(old(now), bits, option) then Gained(Seen(old(now), bits))
        else if giveUp then TimedOut else Suspended
    {
      hide Inv, Met, Remaining, Enlist, Asks, Seen;
      ghost var w := Want(bits, option);
      RecvKeeps(s, t, w, giveUp, prio);
      var ok := Check(bits, option);
      if ok {
        r := Gained(Seen(now, bits));
        eventSet, eventInfo := eventSet[t := Seen(now, bits)], eventInfo[t := option];
        s := TryRecv(s, t, w, giveUp, prio);
        ClearNow(bits, option);
      } else if giveUp {
        r := TimedOut;
      } else {
        eventSet, eventInfo := eventSet[t := bits], eventInfo[t := option];
        s := TryRecv(s, t, w, giveUp, prio);
        EnlistAdds(waiters.list, t, flag, prio);
        waiters.Suspend(t, flag, prio);
        r := Suspended;
      }
    }

    /** The check at the start of rt_event_recv. */
    method Check(bits: Bits, option: bv8) returns (ok: bool)
      requires Asks(option, AND) || Asks(option, OR)
      ensures ok == Met(now, bits, option)
    {
      ok := false;
      if Asks(option, AND) {
        if HasAll(now, bits) {
          ok := true;
        }
      } else if Asks(option, OR) {
        if HasSome(now, bits) {
          ok := true;
        }
      }
    }

    method ClearNow(bits: Bits, option: bv8)
      modifies this`now
      ensures now == Remaining(old(now), bits, option)
    {
      if Asks(option, CLEAR) {
        now := now & !bits;
      }
    }

    /** rt_event_send: walks over the list once. */
    method Send(bits: Bits) returns (ok: bool)
      requires Valid()
      modifies this, waiters
      ensures ok == (bits != 0)
      ensures Valid() && s == if bits == 0 then old(s) else TrySend(old(s), bits)
      ensures ok ==> forall e :: e in Walk(old(s).list, old(s).wants, Raised(old(now), bits)).log ==> Handed(e)
    {
      if bits == 0 {
        return false;
      }
      hide Inv, Raised, Met, Remaining, Distinct, Walk, Asks, Noted;
      SendKeeps(s, bits);
      ListDistinct(s);
      ghost var log := WalkAll(bits);
      s := TrySend(s, bits);
      ok := true;
    }

    /** What a thread that waited finds in its field when it runs again. */
    ghost predicate Handed(e: Entry)
      reads `eventSet
    {
      e.Received? && e.tid in eventSet && eventSet[e.tid] == e.got
    }

    /** The walk itself. */
    method WalkAll(bits: Bits) returns (ghost log: seq<Entry>)
      requires Noted(waiters.list, s.wants) && Distinct(waiters.list)
      modifies this`now, this`eventSet, waiters
      ensures Walked(now, waiters.list, log) == Walk(old(waiters.list), s.wants, Raised(old(now), bits))
      ensures Noted(waiters.list, s.wants) && forall e :: e in log ==> Handed(e)
    {
      hide Satisfied, Left, Got, Distinct, Raised, Asks, Walk, Onto, Noted, WantOf;
      now := Raised(now, bits);
      log := [];
      var n := 0;
      OntoStart(waiters.list, s.wants, now);
      ghost var whole := Walk(waiters.list, s.wants, now);
      while n < |waiters.list|
        invariant n <= |waiters.list|
        invariant Noted(waiters.list, s.wants) && Distinct(waiters.list)
        invariant forall e :: e in log ==> Handed(e) && e.tid !in waiters.list
        invariant whole == Onto(waiters.list[..n], log, Walk(waiters.list[n..], s.wants, now))
        decreases |waiters.list| - n
      {
        ghost var list, before := waiters.list, now;
        OntoStep(list, n, log, s.wants, now);
        var ready := Settle(n);
        if ready {
          log := log + [Received(list[n], WantOf(s.wants, list[n]), Got(before, WantOf(s.wants, list[n])))];
          assert waiters.list[..n] == list[..n] && waiters.list[n..] == list[n + 1..];
        } else {
          n := n + 1;
        }
      }
      OntoEnd(waiters.list, log, s.wants, now);
    }

    /** One thread of the walk: resumed if its condition is met, and left alone otherwise. */
    method Settle(n: nat) returns (ready: bool)
      requires Noted(waiters.list, s.wants) && Distinct(waiters.list) && n < |waiters.list|
      modifies this`now, this`eventSet, waiters
      ensures Noted(waiters.list, s.wants) && Distinct(waiters.list)
      ensures ready == Satisfied(old(now), WantOf(s.wants, old(waiters.list)[n]))
      ensures ready ==>
        var t := old(waiters.list)[n];
        && waiters.list == old(waiters.list)[..n] + old(waiters.list)[n + 1..] && t !in waiters.list
        && (forall x :: x in waiters.list ==> x in old(waiters.list))
        && now == Left(old(now), WantOf(s.wants, t))
        && eventSet == old(eventSet)[t := Got(old(now), WantOf(s.wants, t))]
      ensures !ready ==> now == old(now) && eventSet == old(eventSet) && waiters.list == old(waiters.list)
    {
      hide Met, Remaining, Distinct, Asks, Seen;
      var t := waiters.list[n];
      assert t in waiters.list;
      ready := Examine(t);
      if ready {
        SameClearing(now, old(eventSet)[t], eventInfo[t]);
        ClearNow(eventSet[t], eventInfo[t]);
        WithoutOne(waiters.list, n);
        var resumed := waiters.TakeOut(n);
      }
    }

    /** The check of the walk. */
    method Examine(t: Tid) returns (ready: bool)
      requires Noted([t], s.wants)
      modifies this`eventSet
      ensures ready == Met(now, old(eventSet)[t], eventInfo[t])
      ensures eventSet == if ready then old(eventSet)[t := Seen(now, old(eventSet)[t])] else old(eventSet)
    {
      hide Asks, HasAll, HasSome, Seen;
      assert t in [t];
      ready := false;
      if Asks(eventInfo[t], AND) {
        if HasAll(now, eventSet[t]) {
          SeenAll(now, eventSet[t]);
          ready := true;
        }
      } else if Asks(eventInfo[t], OR) {
        if HasSome(now, eventSet[t]) {
          eventSet := eventSet[t := Seen(now, eventSet[t])];
          ready := true;
        }
      }
    }

    /** One turn of rt_thread_timeout. */
    method TimeOut(t: Tid)
      requires Valid() && Enabled(s, Timeout(t))
      modifies this`s, waiters
      ensures Valid() && IsStep(old(s), Timeout(t), s)
    {
      hide Inv, Removed;
      ApplyKeeps(s, Timeout(t));
      RemovedIn(waiters.list, t);
      waiters.Leave(t);
      s := Apply(s, Timeout(t));
    }

    /** rt_event_control with RT_IPC_CMD_RESET */
    method Reset()
      requires Valid()
      modifies this`now, this`s, waiters
      ensures Valid() && IsStep(old(s), EventModel.Action.Reset, s)
    {
      hide Inv;
      ApplyKeeps(s, EventModel.Action.Reset);
      waiters.ResumeAll();
      now := 0;
      s := Apply(s, EventModel.Action.Reset);
    }
  }

  /** A walk that has come to the middle of the list. */
  ghost function Onto(stay: seq<Tid>, log: seq<Entry>, r: Walked): Walked {
    Walked(r.now, stay + r.stay, log + r.log)
  }

  lemma OntoStep(list: seq<Tid>, n: nat, log: seq<Entry>, wants: Wants, now: Bits)
    requires n < |list|
    ensures var w := WantOf(wants, list[n]);
      Onto(list[..n], log, Walk(list[n..], wants, now)) ==
        if Satisfied(now, w) then
          Onto(list[..n], log + [Received(list[n], w, Got(now, w))], Walk(list[n + 1..], wants, Left(now, w)))
        else
          Onto(list[..n + 1], log, Walk(list[n + 1..], wants, now))
  {
    hide Satisfied, Got, Left;
    assert list[n..][1..] == list[n + 1..];
    assert list[..n + 1] == list[..n] + [list[n]];
  }

  lemma OntoStart(list: seq<Tid>, wants: Wants, now: Bits)
    ensures Onto(list[..0], [], Walk(list[0..], wants, now)) == Walk(list, wants, now)
  {
    assert list[0..] == list;
  }

  lemma OntoEnd(list: seq<Tid>, log: seq<Entry>, wants: Wants, now: Bits)
    ensures Onto(list[..|list|], log, Walk(list[|list|..], wants, now)) == Walked(now, list, log)
  {
  }

  lemma ListDistinct(s: State)
    requires Inv(s)
    ensures Distinct(s.list)
  {
  }

  lemma RemovedIn(list: seq<Tid>, t: Tid)
    ensures forall x :: x in Removed(list, t) ==> x in list
  {
  }

  lemma WithoutOne(list: seq<Tid>, n: nat)
    requires Distinct(list) && n < |list|
    ensures Distinct(list[..n] + list[n + 1..])
    ensures forall x :: x in list[..n] + list[n + 1..] ==> x in list && x != list[n]
  {
  }

  lemma EnlistAdds(list: seq<Tid>, t: Tid, flag: Flag, prio: Priorities)
    ensures forall x :: x in Enlist(list, t, flag, prio) ==> x in list || x == t
  {
  }
}
