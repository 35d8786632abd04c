/** Events seen from outside: which flags are set, who waits since when and for what, and who is served at
    a send, in turn.
 */
module EventHistory {
  import opened EventFlags
  import opened EventModel
  import opened IpcList
  import opened IpcTurns
  import opened Sequences

  /** The flags, and since when threads wait. */
  datatype Board = Board(now: Bits, waiting: map<Tid, int>)

  type Asked = Tid -> Want

  /** The waiting threads are looked at in turn: one whose condition is met at its turn receives and leaves,
      and the others stay. */
  ghost predicate Serves(x: Board, want: Asked, flag: Flag, prio: Priorities, y: Board, log: seq<Entry>)
    decreases |x.waiting|
  {
    if x.waiting == map[] then y == x && log == []
    else
      exists n :: IsNext(x.waiting, flag, prio, n) && ServesFirst(x, want, flag, prio, y, log, n)
  }

  ghost predicate ServesFirst(x: Board, want: Asked, flag: Flag, prio: Priorities, y: Board, log: seq<Entry>, n: Tid)
    requires n in x.waiting
    decreases |x.waiting|, 0
  {
    Fewer(x.waiting, n);
    if Satisfied(x.now, want(n)) then
      && log != [] && log[0] == Received(n, want(n), Got(x.now, want(n))) && n !in y.waiting
      && Serves(Board(Left(x.now, want(n)), x.waiting - {n}), want, flag, prio, y, log[1..])
    else
      && n in y.waiting && y.waiting[n] == x.waiting[n]
      && Serves(Board(x.now, x.waiting - {n}), want, flag, prio, Board(y.now, y.waiting - {n}), log)
  }

  lemma Fewer(waiting: map<Tid, int>, n: Tid)
    requires n in waiting
    ensures |waiting - {n}| < |waiting|
  {
    assert (waiting - {n})[n := waiting[n]] == waiting;
  }

  /** A receive is served at once if its condition is met, and then takes away its flags if it clears; or
      else gives up or waits. */
  ghost predicate BoardStep(x: Board, a: Action, want: Asked, flag: Flag, prio: Priorities, k: int, y: Board, log: seq<Entry>) {
    match a
    case Send(bits) =>
      log != [] && log[0] == Sent(bits) && Serves(Board(Raised(x.now, bits), x.waiting), want, flag, prio, y, log[1..])
    case Recv(t, w, giveUp, _) =>
      if Satisfied(x.now, w) then y == Board(Left(x.now, w), x.waiting) && log == [Received(t, w, Got(x.now, w))]
      else y == (if giveUp then x else Board(x.now, x.waiting[t := k])) && log == []
    case Timeout(t) => t in x.waiting && y == Board(x.now, x.waiting - {t}) && log == []
    case Reset => y == Board(0, map[]) && log == [Wiped]
  }

  // ---- The walk ---------------------------------------------------------------------------

  lemma {:induction false} WalkServes(list: seq<Tid>, wants: Wants, now: Bits, want: Asked, flag: Flag, prio: Priorities, stamp: Stamps)
    requires Distinct(list) && ByTurn(list, flag, prio, stamp) && forall t :: t in list ==> WantOf(wants, t) == want(t)
    ensures var r := Walk(list, wants, now);
      Serves(Board(now, WaitingSince(list, stamp)), want, flag, prio, Board(r.now, WaitingSince(r.stay, stamp)), r.log)
  {
    hide Satisfied, Left, Got, Distinct, ByTurn, WaitingSince, IsNext, WantOf;
    SinceNone(list, stamp);
    if list == [] {
      SinceNone([], stamp);
    } else {
      var n, w := list[0], want(list[0]);
      TailDistinct(list);
      TailTurns(list, flag, prio, stamp);
      FirstIsNext(list, flag, prio, stamp);
      SinceTail(list, stamp, stamp);
      SinceHas(list, stamp);
      var next := if Satisfied(now, w) then Left(now, w) else now;
      WalkServes(list[1..], wants, next, want, flag, prio, stamp);
      WalkDistinct(list[1..], wants, next);
      var r, q := Walk(list, wants, now), Walk(list[1..], wants, next);
      SinceHas(r.stay, stamp);
      if Satisfied(now, w) {
        assert r.log[1..] == q.log;
      } else {
        StayCons(n, q.stay, stamp);
      }
      assert ServesFirst(Board(now, WaitingSince(list, stamp)), want, flag, prio, Board(r.now, WaitingSince(r.stay, stamp)), r.log, n);
    }
  }

  lemma SinceHas(list: seq<Tid>, stamp: Stamps)
    ensures forall t :: t in WaitingSince(list, stamp) <==> t in list
    ensures forall t :: t in list ==> WaitingSince(list, stamp)[t] == stamp(t)
  {
  }

  lemma StayCons(n: Tid, list: seq<Tid>, stamp: Stamps)
    requires n !in list
    ensures WaitingSince([n] + list, stamp) - {n} == WaitingSince(list, stamp)
    ensures n in WaitingSince([n] + list, stamp) && WaitingSince([n] + list, stamp)[n] == stamp(n)
  {
  }

  lemma {:induction false} WalkByTurn(list: seq<Tid>, wants: Wants, now: Bits, flag: Flag, prio: Priorities, stamp: Stamps)
    requires ByTurn(list, flag, prio, stamp)
    ensures ByTurn(Walk(list, wants, now).stay, flag, prio, stamp)
    ensures forall t :: t in Walk(list, wants, now).stay ==> t in list
  {
    hide Satisfied, Left, Got, ByTurn, Sooner, WantOf;
    if list == [] {
      NoTurns(flag, prio, stamp);
    } else {
      TailTurns(list, flag, prio, stamp);
      var w := WantOf(wants, list[0]);
      WalkByTurn(list[1..], wants, if Satisfied(now, w) then Left(now, w) else now, flag, prio, stamp);
      if !Satisfied(now, w) {
        ConsTurns(list[0], Walk(list[1..], wants, now).stay, flag, prio, stamp);
      }
    }
  }

  // ---- Steps ------------------------------------------------------------------------------

  /** The number of the last receive of a thread, or -1, and what it asked for. */
  function LastRecv(acts: seq<Action>, t: Tid): int {
    if acts == [] then -1
    else
      var n := |acts| - 1;
      if acts[n].Recv? && acts[n].t == t then n else LastRecv(acts[..n], t)
  }

  function AskedFor(acts: seq<Action>, t: Tid): Want {
    if acts == [] then Want(0, AND | OR)
    else
      var n := |acts| - 1;
      if acts[n].Recv? && acts[n].t == t then acts[n].want else AskedFor(acts[..n], t)
  }

  function Since(acts: seq<Action>): Stamps {
    (t: Tid) => LastRecv(acts, t)
  }

  function WantIn(acts: seq<Action>): Asked {
    (t: Tid) => AskedFor(acts, t)
  }

  ghost function Seen(s: State, acts: seq<Action>): Board {
    Board(s.now, WaitingSince(s.list, Since(acts)))
  }

  /** Priorities do not change, or do not matter. */
  ghost predicate Uses(a: Action, flag: Flag, prio: Priorities) {
    flag == Fifo || !a.Recv? || a.prio == prio
  }

  /** The list is in turn, and what its threads wait for is what they asked for. */
  ghost predicate Follows(s: State, acts: seq<Action>, prio: Priorities) {
    ByTurn(s.list, s.flag, prio, Since(acts)) && forall t :: t in s.list ==> WantOf(s.wants, t) == AskedFor(acts, t)
  }

  lemma {:induction false} SinceBefore(acts: seq<Action>, t: Tid)
    ensures -1 <= LastRecv(acts, t) < |acts|
  {
    if acts != [] {
      SinceBefore(acts[..|acts| - 1], t);
    }
  }

  lemma SinceStepped(acts: seq<Action>, a: Action, list: seq<Tid>)
    requires a.Recv? ==> a.t !in list
    ensures forall x :: x in list ==> Since(acts + [a])(x) == Since(acts)(x) < |acts|
    ensures forall x :: x in list ==> AskedFor(acts + [a], x) == AskedFor(acts, x)
    ensures a.Recv? ==> Since(acts + [a])(a.t) == |acts| && AskedFor(acts + [a], a.t) == a.want
  {
    assert (acts + [a])[..|acts|] == acts;
    forall x | x in list
      ensures LastRecv(acts, x) < |acts|
    {
      SinceBefore(acts, x);
    }
  }

  lemma RecvSeen(s: State, acts: seq<Action>, a: Action, prio: Priorities)
    requires Inv(s) && Enabled(s, a) && a.Recv? && Uses(a, s.flag, prio) && Follows(s, acts, prio)
    ensures var r := Apply(s, a);
      && Follows(r, acts + [a], prio) && r.log == s.log + r.log[|s.log|..]
      && BoardStep(Seen(s, acts), a, WantIn(acts), s.flag, prio, |acts|, Seen(r, acts + [a]), r.log[|s.log|..])
  {
    hide LastRecv, AskedFor, ByTurn, Distinct, Enlist, Satisfied, Left, Got, Since;
    SinceStepped(acts, a, s.list);
    SameTurns(s.list, s.flag, prio, prio, Since(acts), Since(acts + [a]));
    SinceStep(s.list, Since(acts), Since(acts + [a]));
    EnlistTurns(s.list, a.t, s.flag, prio, Since(acts + [a]));
    SinceEnlisted(s.list, a.t, s.flag, a.prio, Since(acts), Since(acts + [a]));
    EnlistMembers(s.list, a.t, s.flag, a.prio);
    FifoSame(s.list, a.t, a.prio, prio);
    assert (s.log + [Received(a.t, a.want, Got(s.now, a.want))])[|s.log|..] == [Received(a.t, a.want, Got(s.now, a.want))];
    assert s.log[|s.log|..] == [] && s.log + [] == s.log;
  }

  lemma SendSeen(s: State, acts: seq<Action>, a: Action, prio: Priorities)
    requires Inv(s) && a.Send? && Follows(s, acts, prio)
    ensures var r := TrySend(s, a.bits);
      && Follows(r, acts + [a], prio) && r.log == s.log + r.log[|s.log|..]
      && BoardStep(Seen(s, acts), a, WantIn(acts), s.flag, prio, |acts|, Seen(r, acts + [a]), r.log[|s.log|..])
  {
    hide LastRecv, AskedFor, ByTurn, Distinct, Satisfied, Left, Got, Walk, Serves, Raised, Since;
    var w := Walk(s.list, s.wants, Raised(s.now, a.bits));
    SinceStepped(acts, a, s.list);
    WalkServes(s.list, s.wants, Raised(s.now, a.bits), WantIn(acts), s.flag, prio, Since(acts));
    WalkByTurn(s.list, s.wants, Raised(s.now, a.bits), s.flag, prio, Since(acts));
    SameTurns(w.stay, s.flag, prio, prio, Since(acts), Since(acts + [a]));
    SinceStep(w.stay, Since(acts), Since(acts + [a]));
    var log := [Sent(a.bits)] + w.log;
    assert (s.log + log)[|s.log|..] == log && log[1..] == w.log;
  }

  lemma TimeoutSeen(s: State, acts: seq<Action>, a: Action, prio: Priorities)
    requires Inv(s) && Enabled(s, a) && a.Timeout? && Follows(s, acts, prio)
    ensures var r := Apply(s, a);
      && Follows(r, acts + [a], prio) && r.log == s.log + r.log[|s.log|..]
      && BoardStep(Seen(s, acts), a, WantIn(acts), s.flag, prio, |acts|, Seen(r, acts + [a]), r.log[|s.log|..])
  {
    hide LastRecv, AskedFor, ByTurn, Distinct, Removed, Since;
    SinceStepped(acts, a, s.list);
    RemovedTurns(s.list, a.t, s.flag, prio, Since(acts));
    SameTurns(Removed(s.list, a.t), s.flag, prio, prio, Since(acts), Since(acts + [a]));
    SinceRemoved(s.list, a.t, Since(acts), Since(acts + [a]));
    assert s.log[|s.log|..] == [] && s.log + [] == s.log;
  }

  lemma ResetSeen(s: State, acts: seq<Action>, prio: Priorities)
    ensures var a := Action.Reset; var r := Apply(s, a);
      && Follows(r, acts + [a], prio) && r.log == s.log + r.log[|s.log|..]
      && BoardStep(Seen(s, acts), a, WantIn(acts), s.flag, prio, |acts|, Seen(r, acts + [a]), r.log[|s.log|..])
  {
    SinceNone([], Since(acts + [Action.Reset]));
    assert (s.log + [Wiped])[|s.log|..] == [Wiped];
  }

  lemma StepSeen(s: State, acts: seq<Action>, a: Action, prio: Priorities)
    requires Inv(s) && Enabled(s, a) && Uses(a, s.flag, prio) && Follows(s, acts, prio)
    ensures var r := Apply(s, a);
      && r.flag == s.flag && Follows(r, acts + [a], prio) && r.log == s.log + r.log[|s.log|..]
      && BoardStep(Seen(s, acts), a, WantIn(acts), s.flag, prio, |acts|, Seen(r, acts + [a]), r.log[|s.log|..])
  {
    hide Inv, Follows, BoardStep, Seen, Walk, Satisfied, Enlist, Removed;
    match a
    case Recv(_, _, _, _) => RecvSeen(s, acts, a, prio);
    case Send(_) => SendSeen(s, acts, a, prio);
    case Timeout(_) => TimeoutSeen(s, acts, a, prio);
    case Reset => ResetSeen(s, acts, prio);
  }

  // ---- Runs -------------------------------------------------------------------------------

  lemma {:induction false} RunFollows(run: seq<State>, acts: seq<Action>, flag: Flag, prio: Priorities, k: nat)
    requires IsRun(run, acts, flag) && k <= |acts| && forall i :: 0 <= i < |acts| ==> Uses(acts[i], flag, prio)
    ensures Inv(run[k]) && run[k].flag == flag && Follows(run[k], acts[..k], prio)
  {
    hide Inv, Apply, Uses, BoardStep, Seen, LastRecv;
    RunInv(run, acts, flag, k);
    if k == 0 {
      NoTurns(flag, prio, Since(acts[..0]));
    } else {
      RunFollows(run, acts, flag, prio, k - 1);
      assert IsStep(run[k - 1], acts[k - 1], run[k - 1 + 1]);
      StepSeen(run[k - 1], acts[..k - 1], acts[k - 1], prio);
      assert acts[..k] == acts[..k - 1] + [acts[k - 1]];
    }
  }

  ghost function BoardAt(run: seq<State>, acts: seq<Action>, k: nat): Board
    requires k < |run| && k <= |acts|
  {
    Seen(run[k], acts[..k])
  }

  /** Main result: in every run every call does exactly what it should to the flags and to those who wait,
      each thread waiting for what it asked for last, and every send serves them in turn. */
  lemma RunSeen(run: seq<State>, acts: seq<Action>, flag: Flag, prio: Priorities, k: nat)
    requires IsRun(run, acts, flag) && k < |acts| && forall i :: 0 <= i < |acts| ==> Uses(acts[i], flag, prio)
    ensures |run[k].log| <= |run[k + 1].log| && run[k + 1].log[..|run[k].log|] == run[k].log
    ensures BoardStep(BoardAt(run, acts, k), acts[k], WantIn(acts[..k]), flag, prio, k, BoardAt(run, acts, k + 1),
                      run[k + 1].log[|run[k].log|..])
    ensures BoardAt(run, acts, 0) == Board(0, map[])
  {
    hide Inv, Apply, Uses, BoardStep, Follows, LastRecv, AskedFor;
    RunFollows(run, acts, flag, prio, k);
    assert IsStep(run[k], acts[k], run[k + 1]);
    StepSeen(run[k], acts[..k], acts[k], prio);
    assert acts[..k + 1] == acts[..k] + [acts[k]];
    SinceNone([], Since(acts[..0]));
  }
}
