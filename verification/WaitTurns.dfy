/** Who is resumed first: over any sequence of suspensions, wake-ups and timeouts of a wait list, every
    wake-up resumes the thread whose turn it is.
 */
module WaitTurns {
  import opened IpcList
  import opened IpcTurns
  import opened Sequences

  /** What one section does to those who wait. */
  datatype Move = Blocks(t: Tid) | Wakes | Leaves(t: Tid) | Empties | Stays

  /** The order in which threads are resumed: by the flag of the object, or the latest first. */
  datatype Order = Order(flag: Flag, prio: Priorities, latest: bool)

  /** What a move does to a list. */
  ghost predicate ListStep(list: seq<Tid>, v: Move, o: Order, r: seq<Tid>) {
    match v
    case Blocks(t) => t !in list && r == if o.latest then [t] + list else Enlist(list, t, o.flag, o.prio)
    case Wakes => r == if list == [] then list else list[1..]
    case Leaves(t) => r == Removed(list, t)
    case Empties => r == []
    case Stays => r == list
  }

  ghost predicate IsListRun(lists: seq<seq<Tid>>, moves: seq<Move>, o: Order) {
    && |lists| == |moves| + 1 && lists[0] == [] && (o.latest ==> o.flag == Fifo)
    && forall i :: 0 <= i < |moves| ==> ListStep(lists[i], moves[i], o, lists[i + 1])
  }

  /** The rank by arrival of the suspension with number `n`. */
  function Rank(n: int, latest: bool): int {
    if latest then -n else n
  }

  /** The number of the last suspension of a thread, or -1. */
  function LastBlock(moves: seq<Move>, t: Tid): (n: int)
    ensures -1 <= n < |moves|
  {
    if moves == [] then -1
    else
      var n := |moves| - 1;
      if moves[n] == Blocks(t) then n else LastBlock(moves[..n], t)
  }

  function Ranks(moves: seq<Move>, latest: bool): Stamps {
    (t: Tid) => Rank(LastBlock(moves, t), latest)
  }

  /** What a move does to those who wait, each known with its rank: a thread that blocks waits, a wake-up is
      for the thread whose turn it is, if any waits, and nobody else is concerned. */
  ghost predicate Moved(x: map<Tid, int>, v: Move, o: Order, now: int, y: map<Tid, int>) {
    match v
    case Blocks(t) => t !in x && y == x[t := Rank(now, o.latest)]
    case Wakes => if x == map[] then y == x else exists n :: IsNext(x, o.flag, o.prio, n) && y == x - {n}
    case Leaves(t) => y == x - {t}
    case Empties => y == map[]
    case Stays => y == x
  }

  lemma RankStep(moves: seq<Move>, v: Move, latest: bool, t: Tid)
    ensures Ranks(moves + [v], latest)(t) == if v == Blocks(t) then Rank(|moves|, latest) else Ranks(moves, latest)(t)
  {
    assert (moves + [v])[..|moves|] == moves;
  }

  lemma RanksKept(moves: seq<Move>, v: Move, latest: bool, list: seq<Tid>)
    requires v.Blocks? ==> v.t !in list
    ensures forall x :: x in list ==> Ranks(moves + [v], latest)(x) == Ranks(moves, latest)(x)
  {
    hide LastBlock, Ranks;
    forall x | x in list
      ensures Ranks(moves + [v], latest)(x) == Ranks(moves, latest)(x)
    {
      RankStep(moves, v, latest, x);
    }
  }

  /** A thread that is suspended now comes in its turn. */
  lemma BlockTurns(list: seq<Tid>, t: Tid, o: Order, moves: seq<Move>)
    requires Distinct(list) && t !in list && (o.latest ==> o.flag == Fifo)
    requires ByTurn(list, o.flag, o.prio, Ranks(moves, o.latest))
    ensures var r := if o.latest then [t] + list else Enlist(list, t, o.flag, o.prio);
      var s, s' := Ranks(moves, o.latest), Ranks(moves + [Blocks(t)], o.latest);
      Distinct(r) && ByTurn(r, o.flag, o.prio, s') && WaitingSince(r, s') == WaitingSince(list, s)[t := Rank(|moves|, o.latest)]
  {
    hide ByTurn, Enlist, Distinct, LastBlock, WaitingSince;
    var s, s' := Ranks(moves, o.latest), Ranks(moves + [Blocks(t)], o.latest);
    RanksKept(moves, Blocks(t), o.latest, list);
    RankStep(moves, Blocks(t), o.latest, t);
    SameTurns(list, o.flag, o.prio, o.prio, s, s');
    if o.latest {
      SingleDistinct(t);
      JoinDistinct([t], list);
      ConsTurns(t, list, o.flag, o.prio, s');
      SincePushed(list, t, s, s');
    } else {
      EnlistMembers(list, t, o.flag, o.prio);
      EnlistTurns(list, t, o.flag, o.prio, s');
      SinceEnlisted(list, t, o.flag, o.prio, s, s');
    }
  }

  lemma SincePushed(list: seq<Tid>, t: Tid, stamp: Stamps, stamp': Stamps)
    requires t !in list && forall x :: x in list ==> stamp'(x) == stamp(x)
    ensures WaitingSince([t] + list, stamp') == WaitingSince(list, stamp)[t := stamp'(t)]
  {
  }

  lemma WakeTurns(list: seq<Tid>, o: Order, s: Stamps, s': Stamps)
    requires Distinct(list) && ByTurn(list, o.flag, o.prio, s) && forall x :: x in list ==> s'(x) == s(x)
    ensures var r := if list == [] then list else list[1..];
      && Distinct(r) && ByTurn(r, o.flag, o.prio, s')
      && Moved(WaitingSince(list, s), Wakes, o, 0, WaitingSince(r, s'))
  {
    hide ByTurn, Distinct, WaitingSince, IsNext, Sooner;
    SameTurns(list, o.flag, o.prio, o.prio, s, s');
    SinceNone(list, s);
    if list == [] {
      SinceNone(list, s');
    } else {
      TailTurns(list, o.flag, o.prio, s);
      TailTurns(list, o.flag, o.prio, s');
      TailDistinct(list);
      FirstIsNext(list, o.flag, o.prio, s);
      SinceTail(list, s, s');
    }
  }

  lemma StepTurns(list: seq<Tid>, v: Move, o: Order, moves: seq<Move>, r: seq<Tid>)
    requires Distinct(list) && ListStep(list, v, o, r) && (o.latest ==> o.flag == Fifo)
    requires ByTurn(list, o.flag, o.prio, Ranks(moves, o.latest))
    ensures var s, s' := Ranks(moves, o.latest), Ranks(moves + [v], o.latest);
      && Distinct(r) && ByTurn(r, o.flag, o.prio, s')
      && Moved(WaitingSince(list, s), v, o, |moves|, WaitingSince(r, s'))
  {
    hide ByTurn, Distinct, Ranks, Enlist, Removed, IsNext;
    var s, s' := Ranks(moves, o.latest), Ranks(moves + [v], o.latest);
    RanksKept(moves, v, o.latest, list);
    match v
    case Blocks(t) => BlockTurns(list, t, o, moves);
    case Wakes => WakeTurns(list, o, s, s');
    case Leaves(t) =>
      SameTurns(list, o.flag, o.prio, o.prio, s, s');
      RemovedTurns(list, t, o.flag, o.prio, s');
      RemovedMembers(list, t);
      SinceRemoved(list, t, s, s');
    case Empties => NoTurns(o.flag, o.prio, s'); EmptyDistinct();
    case Stays =>
      SameTurns(list, o.flag, o.prio, o.prio, s, s');
      SinceStep(list, s, s');
  }

  lemma EmptyDistinct()
    ensures Distinct<Tid>([])
  {
  }

  ghost function WaitingAt(lists: seq<seq<Tid>>, moves: seq<Move>, latest: bool, k: nat): map<Tid, int>
    requires k < |lists| && k <= |moves|
  {
    WaitingSince(lists[k], Ranks(moves[..k], latest))
  }

  lemma {:induction false} RunTurns(lists: seq<seq<Tid>>, moves: seq<Move>, o: Order, k: nat)
    requires IsListRun(lists, moves, o) && k <= |moves|
    ensures Distinct(lists[k]) && ByTurn(lists[k], o.flag, o.prio, Ranks(moves[..k], o.latest))
  {
    hide ByTurn, Distinct, Ranks, ListStep, Moved;
    if k == 0 {
      NoTurns(o.flag, o.prio, Ranks(moves[..0], o.latest));
      EmptyDistinct();
    } else {
      RunTurns(lists, moves, o, k - 1);
      assert ListStep(lists[k - 1], moves[k - 1], o, lists[k - 1 + 1]);
      StepTurns(lists[k - 1], moves[k - 1], o, moves[..k - 1], lists[k]);
      assert moves[..k] == moves[..k - 1] + [moves[k - 1]];
    }
  }

  /** Main result: at every move of every run those who wait change as the move says, and a wake-up is for
      the thread whose turn it is. */
  lemma RunMoves(lists: seq<seq<Tid>>, moves: seq<Move>, o: Order, k: nat)
    requires IsListRun(lists, moves, o) && k < |moves|
    ensures Moved(WaitingAt(lists, moves, o.latest, k), moves[k], o, k, WaitingAt(lists, moves, o.latest, k + 1))
    ensures WaitingAt(lists, moves, o.latest, 0) == map[]
  {
    hide ByTurn, Distinct, Ranks, ListStep, Moved;
    RunTurns(lists, moves, o, k);
    StepTurns(lists[k], moves[k], o, moves[..k], lists[k + 1]);
    assert moves[..k + 1] == moves[..k] + [moves[k]];
  }
}
