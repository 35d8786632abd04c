/** The 32 flags of an event and the options of a receive. */
module EventFlags {

  type Bits = bv32

  const AND: bv8 := 1     // RT_EVENT_FLAG_AND
  const OR: bv8 := 2      // RT_EVENT_FLAG_OR
  const CLEAR: bv8 := 4   // RT_EVENT_FLAG_CLEAR

  predicate Asks(option: bv8, flag: bv8) {
    option & flag != 0
  }

  predicate HasAll(now: Bits, bits: Bits) {
    now & bits == bits
  }

  predicate HasSome(now: Bits, bits: Bits) {
    now & bits != 0
  }

  /** RT_EVENT_FLAG_AND is looked at first. */
  predicate Met(now: Bits, bits: Bits, option: bv8) {
    if Asks(option, AND) then HasAll(now, bits)
    else if Asks(option, OR) then HasSome(now, bits)
    else false
  }

  function Raised(now: Bits, bits: Bits): Bits {
    now | bits
  }

  function Seen(now: Bits, bits: Bits): Bits {
    now & bits
  }

  function Remaining(now: Bits, bits: Bits, option: bv8): Bits {
    if Asks(option, CLEAR) then now & !bits else now
  }

  ghost predicate Within(part: Bits, now: Bits) {
    part & now == part
  }

  /** A condition that is not met is not met by fewer flags. */
  lemma FewerBits(now: Bits, part: Bits, bits: Bits, option: bv8)
    requires Within(part, now) && !Met(now, bits, option)
    ensures !Met(part, bits, option)
  {
  }

  lemma MaskedWithin(now: Bits, bits: Bits)
    ensures (now & !bits) & now == now & !bits
  {
  }

  /** All of the flags asked for are there, so what is seen is what was asked for. */
  lemma SeenAll(now: Bits, bits: Bits)
    requires HasAll(now, bits)
    ensures Seen(now, bits) == bits
  {
  }

  /** Clearing what was received clears the same flags as clearing what was asked for. */
  lemma SameClearing(now: Bits, bits: Bits, option: bv8)
    ensures Remaining(now, Seen(now, bits), option) == Remaining(now, bits, option)
  {
    Complement(now, bits);
  }

  lemma Complement(now: Bits, bits: Bits)
    ensures now & !(now & bits) == now & !bits
  {
  }

  lemma AllWithin(now: Bits)
    ensures Within(now, now)
  {
  }

  lemma RemainingWithin(now: Bits, bits: Bits, option: bv8)
    ensures Within(Remaining(now, bits, option), now)
  {
    MaskedWithin(now, bits);
    AllWithin(now);
  }

  lemma SmallerTrans(a: Bits, b: Bits, c: Bits)
    requires Within(a, b) && Within(b, c)
    ensures Within(a, c)
  {
  }
}

/** Event objects (ipc.c): 32 flags that threads wait for, under any interleaving of sends,
    receives, timeouts and resets.
 */
module EventModel {
  import opened EventFlags
  import opened IpcList
  import opened Sequences

  /** What a thread waits for: its fields event_set and event_info. */
  datatype Want = Want(bits: Bits, option: bv8)

  predicate Satisfied(now: Bits, w: Want) {
    Met(now, w.bits, w.option)
  }

  /** What an immediate receive returns, and what it leaves behind. */
  function Got(now: Bits, w: Want): Bits {
    Seen(now, w.bits)
  }

  function Left(now: Bits, w: Want): Bits {
    Remaining(now, w.bits, w.option)
  }

  /** An event seen from outside, as a list of sends, immediate receives and resets. */
  datatype Entry = Sent(bits: Bits) | Received(tid: Tid, want: Want, got: Bits) | Wiped

  datatype Replayed = Stuck | Now(now: Bits)

  function Next(r: Replayed, e: Entry): Replayed {
    match r
    case Stuck => Stuck
    case Now(now) =>
      match e
      case Sent(bits) => Now(Raised(now, bits))
      case Received(_, w, got) => if Satisfied(now, w) && got == Got(now, w) then Now(Left(now, w)) else Stuck
      case Wiped => Now(0)
  }

  /** Gets stuck at a receive that was not satisfied or returned the wrong bits. */
  function Replay(r: Replayed, log: seq<Entry>): Replayed
    decreases |log|
  {
    if log == [] then r else Replay(Next(r, log[0]), log[1..])
  }

  lemma {:induction false} ReplayJoin(r: Replayed, a: seq<Entry>, b: seq<Entry>)
    ensures Replay(r, a + b) == Replay(Replay(r, a), b)
    decreases |a|
  {
    if a == [] {
      assert a + b == b;
    } else {
      assert (a + b)[1..] == a[1..] + b;
      ReplayJoin(Next(r, a[0]), a[1..], b);
    }
  }

  lemma ReplayFirst(r: Replayed, e: Entry, log: seq<Entry>)
    ensures Replay(r, [e] + log) == Replay(Next(r, e), log)
    ensures Replay(r, [e]) == Next(r, e)
  {
    assert ([e] + log)[1..] == log;
    assert [e][1..] == [];
  }

  // ---- The walk of rt_event_send ----------------------------------------------------------

  type Wants = map<Tid, Want>

  datatype Walked = Walked(now: Bits, stay: seq<Tid>, log: seq<Entry>)

  function WantOf(wants: Wants, t: Tid): Want {
    if t in wants then wants[t] else Want(0, AND | OR)
  }

  /** Every thread in the list, in turn, either receives from the set as it is at its turn, or
      stays. */
  function Walk(list: seq<Tid>, wants: Wants, now: Bits): Walked {
    if list == [] then Walked(now, [], [])
    else
      var t, w := list[0], WantOf(wants, list[0]);
      if Satisfied(now, w) then
        var r := Walk(list[1..], wants, Left(now, w));
        Walked(r.now, r.stay, [Received(t, w, Got(now, w))] + r.log)
      else
        var r := Walk(list[1..], wants, now);
        Walked(r.now, [t] + r.stay, r.log)
  }

  /** A condition that is not met is not met by fewer flags. */
  lemma Smaller(now: Bits, part: Bits, w: Want)
    requires Within(part, now) && !Satisfied(now, w)
    ensures !Satisfied(part, w)
  {
    hide Met, Within;
    FewerBits(now, part, w.bits, w.option);
  }

  lemma LeftSmaller(now: Bits, w: Want)
    ensures Within(Left(now, w), now)
  {
    hide Within, Remaining;
    RemainingWithin(now, w.bits, w.option);
  }

  /** After the walk nobody who could be satisfied is left, although the set shrinks on the way;
      the log is one of immediate receives. */
  lemma {:induction false} WalkLeavesNobody(list: seq<Tid>, wants: Wants, now: Bits)
    ensures var r := Walk(list, wants, now);
      && (forall t :: t in r.stay ==> t in list && !Satisfied(r.now, WantOf(wants, t)))
      && Within(r.now, now)
      && Replay(Now(now), r.log) == Now(r.now)
  {
    hide Satisfied, Left, Got, Within;
    if list == [] {
      AllWithin(now);
    } else {
      var w := WantOf(wants, list[0]);
      if Satisfied(now, w) {
        WalkLeavesNobody(list[1..], wants, Left(now, w));
        LeftSmaller(now, w);
        SmallerTrans(Walk(list, wants, now).now, Left(now, w), now);
        ReplayFirst(Now(now), Received(list[0], w, Got(now, w)), Walk(list[1..], wants, Left(now, w)).log);
      } else {
        WalkLeavesNobody(list[1..], wants, now);
        Smaller(now, Walk(list, wants, now).now, w);
      }
    }
  }

  lemma {:induction false} WalkDistinct(list: seq<Tid>, wants: Wants, now: Bits)
    requires Distinct(list)
    ensures var r := Walk(list, wants, now); Distinct(r.stay) && forall t :: t in r.stay ==> t in list
  {
    hide Satisfied, Left, Got, Distinct;
    if list == [] {
      NoneDistinct();
    } else {
      TailDistinct(list);
      var w := WantOf(wants, list[0]);
      WalkDistinct(list[1..], wants, if Satisfied(now, w) then Left(now, w) else now);
      if !Satisfied(now, w) {
        SingleDistinct(list[0]);
        JoinDistinct([list[0]], Walk(list[1..], wants, now).stay);
      }
    }
  }

  lemma NoneDistinct()
    ensures Distinct<Tid>([])
  {
  }

  // ---- The transition system --------------------------------------------------------------

  datatype State = State(now: Bits, list: seq<Tid>, wants: Wants, flag: Flag, log: seq<Entry>)

  datatype Action =
    | Send(bits: Bits)
    | Recv(t: Tid, want: Want, giveUp: bool, prio: Priorities)
    | Timeout(t: Tid)
    | Reset

  predicate Enabled(s: State, a: Action) {
    match a
    case Send(bits) => bits != 0
    case Recv(t, want, _, _) => t !in s.list && want.bits != 0 && (Asks(want.option, AND) || Asks(want.option, OR))
    case Timeout(t) => t in s.list
    case Reset => true
  }

  function TrySend(s: State, bits: Bits): State {
    var r := Walk(s.list, s.wants, Raised(s.now, bits));
    s.(now := r.now, list := r.stay, log := s.log + ([Sent(bits)] + r.log))
  }

  function TryRecv(s: State, t: Tid, w: Want, giveUp: bool, prio: Priorities): State {
    if Satisfied(s.now, w) then s.(now := Left(s.now, w), log := s.log + [Received(t, w, Got(s.now, w))])
    else if giveUp then s
    else s.(list := Enlist(s.list, t, s.flag, prio), wants := s.wants[t := w])
  }

  function Apply(s: State, a: Action): State
    requires Enabled(s, a)
  {
    match a
    case Send(bits) => TrySend(s, bits)
    case Recv(t, want, giveUp, prio) => TryRecv(s, t, want, giveUp, prio)
    case Timeout(t) => s.(list := Removed(s.list, t))
    case Reset => s.(now := 0, list := [], log := s.log + [Wiped])
  }

  /** Nobody who could be satisfied is suspended, and the whole history is one of sends,
      immediate receives and resets. */
  ghost predicate Inv(s: State) {
    && Distinct(s.list)
    && (forall t :: t in s.list ==> !Satisfied(s.now, WantOf(s.wants, t)))
    && Replay(Now(0), s.log) == Now(s.now)
  }

  lemma SendKeeps(s: State, bits: Bits)
    requires Inv(s)
    ensures Inv(TrySend(s, bits))
  {
    hide Satisfied, Distinct, Within, Walk, Replay, Raised;
    var r := Walk(s.list, s.wants, Raised(s.now, bits));
    WalkLeavesNobody(s.list, s.wants, Raised(s.now, bits));
    WalkDistinct(s.list, s.wants, Raised(s.now, bits));
    ReplayJoin(Now(0), s.log, [Sent(bits)] + r.log);
    ReplayFirst(Now(s.now), Sent(bits), r.log);
  }

  lemma RecvKeeps(s: State, t: Tid, w: Want, giveUp: bool, prio: Priorities)
    requires Inv(s) && t !in s.list
    ensures Inv(TryRecv(s, t, w, giveUp, prio))
  {
    hide Satisfied, Left, Got, Enlist, Distinct, Within;
    if Satisfied(s.now, w) {
      var e := Received(t, w, Got(s.now, w));
      ReplayJoin(Now(0), s.log, [e]);
      ReplayFirst(Now(s.now), e, []);
      LeftSmaller(s.now, w);
      forall u | u in s.list
        ensures !Satisfied(Left(s.now, w), WantOf(s.wants, u))
      {
        Smaller(s.now, Left(s.now, w), WantOf(s.wants, u));
      }
    } else {
      EnlistMembers(s.list, t, s.flag, prio);
    }
  }

  /** Every action keeps the event right. */
  lemma ApplyKeeps(s: State, a: Action)
    requires Inv(s) && Enabled(s, a)
    ensures Inv(Apply(s, a))
  {
    hide TrySend, TryRecv, Removed, Satisfied;
    match a
    case Send(bits) => SendKeeps(s, bits);
    case Recv(t, want, giveUp, prio) => RecvKeeps(s, t, want, giveUp, prio);
    case Timeout(t) => RemovedMembers(s.list, t);
    case Reset =>
      ReplayJoin(Now(0), s.log, [Wiped]);
      ReplayFirst(Now(s.now), Wiped, []);
  }

  ghost predicate IsStep(s: State, a: Action, r: State) {
    Enabled(s, a) && r == Apply(s, a)
  }

  /** Any interleaving of calls, timeouts and resets, from a fresh event. */
  ghost predicate IsRun(run: seq<State>, acts: seq<Action>, flag: Flag) {
    && |run| == |acts| + 1
    && run[0] == State(0, [], map[], flag, [])
    && forall i :: 0 <= i < |acts| ==> IsStep(run[i], acts[i], run[i + 1])
  }

  /** Main result: in every state of every run no suspended thread has its condition met, and
      every thread, whether it waited or not, received what an immediate receive gives. */
  lemma {:induction false} RunInv(run: seq<State>, acts: seq<Action>, flag: Flag, k: nat)
    requires IsRun(run, acts, flag) && k <= |acts|
    ensures Inv(run[k])
  {
    hide Apply, Satisfied;
    if k > 0 {
      RunInv(run, acts, flag, k - 1);
      assert IsStep(run[k - 1], acts[k - 1], run[k - 1 + 1]);
      hide Inv;
      ApplyKeeps(run[k - 1], acts[k - 1]);
    }
  }
}
