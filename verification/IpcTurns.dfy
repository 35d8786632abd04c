/** Whose turn it is in a list of suspended threads: the most urgent thread first, and among equals,
    or without priorities, the one that was suspended first.
 */
module IpcTurns {
  import opened IpcList
  import opened Sequences

  type Stamps = Tid -> int   // when a thread was suspended

  predicate Sooner(a: Tid, b: Tid, flag: Flag, prio: Priorities, stamp: Stamps) {
    || (flag == Prio && prio(a) < prio(b))
    || ((flag == Fifo || prio(a) == prio(b)) && stamp(a) < stamp(b))
  }

  ghost predicate ByTurn(list: seq<Tid>, flag: Flag, prio: Priorities, stamp: Stamps) {
    forall i, j :: 0 <= i < j < |list| ==> Sooner(list[i], list[j], flag, prio, stamp)
  }

  lemma SameTurns(list: seq<Tid>, flag: Flag, prio: Priorities, prio': Priorities, stamp: Stamps, stamp': Stamps)
    requires ByTurn(list, flag, prio, stamp)
    requires forall x :: x in list ==> prio'(x) == prio(x) && stamp'(x) == stamp(x)
    ensures ByTurn(list, flag, prio', stamp')
  {
    forall i, j | 0 <= i < j < |list|
      ensures Sooner(list[i], list[j], flag, prio', stamp')
    {
      assert list[i] in list && list[j] in list && Sooner(list[i], list[j], flag, prio, stamp);
    }
  }

  lemma TurnsSorted(list: seq<Tid>, prio: Priorities, stamp: Stamps)
    requires ByTurn(list, Prio, prio, stamp)
    ensures Sorted(list, prio)
  {
    forall i, j | 0 <= i < j < |list|
      ensures prio(list[i]) <= prio(list[j])
    {
      assert Sooner(list[i], list[j], Prio, prio, stamp);
    }
  }

  /** A thread that is suspended now comes after those that are not less urgent. */
  lemma EnlistTurns(list: seq<Tid>, t: Tid, flag: Flag, prio: Priorities, stamp: Stamps)
    requires ByTurn(list, flag, prio, stamp) && forall x :: x in list ==> stamp(x) < stamp(t)
    ensures ByTurn(Enlist(list, t, flag, prio), flag, prio, stamp)
  {
    hide Place, Sooner;
    var k, r := Place(list, t, flag, prio), Enlist(list, t, flag, prio);
    if flag == Prio {
      TurnsSorted(list, prio, stamp);
      EnlistSorted(list, t, prio);
    }
    forall i, j | 0 <= i < j < |r|
      ensures Sooner(r[i], r[j], flag, prio, stamp)
    {
      if i != k && j != k {
        assert r[i] == list[if i < k then i else i - 1] && r[j] == list[if j < k then j else j - 1];
        assert Sooner(list[if i < k then i else i - 1], list[if j < k then j else j - 1], flag, prio, stamp);
      } else if j == k {
        assert r[j] == t && r[i] == list[i] && list[i] in list;
        BeforeNewest(list[i], t, flag, prio, stamp);
      } else {
        assert r[i] == t && r[j] == list[j - 1] && flag == Prio && prio(t) < prio(list[j - 1]);
        MoreUrgent(t, list[j - 1], prio, stamp);
      }
    }
  }

  /** Without priorities a thread goes to the end. */
  lemma FifoSame(list: seq<Tid>, t: Tid, p: Priorities, q: Priorities)
    ensures Enlist(list, t, Fifo, p) == Enlist(list, t, Fifo, q)
  {
  }

  lemma BeforeNewest(a: Tid, t: Tid, flag: Flag, prio: Priorities, stamp: Stamps)
    requires stamp(a) < stamp(t) && (flag == Prio ==> prio(a) <= prio(t))
    ensures Sooner(a, t, flag, prio, stamp)
  {
  }

  lemma MoreUrgent(a: Tid, b: Tid, prio: Priorities, stamp: Stamps)
    requires prio(a) < prio(b)
    ensures Sooner(a, b, Prio, prio, stamp)
  {
  }

  lemma TailTurns(list: seq<Tid>, flag: Flag, prio: Priorities, stamp: Stamps)
    requires ByTurn(list, flag, prio, stamp) && list != []
    ensures ByTurn(list[1..], flag, prio, stamp)
    ensures forall x :: x in list[1..] ==> Sooner(list[0], x, flag, prio, stamp)
  {
    hide Sooner;
    assert forall i :: 0 <= i < |list| - 1 ==> list[1..][i] == list[i + 1];
  }

  lemma ConsTurns(t: Tid, list: seq<Tid>, flag: Flag, prio: Priorities, stamp: Stamps)
    requires ByTurn(list, flag, prio, stamp) && forall x :: x in list ==> Sooner(t, x, flag, prio, stamp)
    ensures ByTurn([t] + list, flag, prio, stamp)
  {
    hide Sooner;
    var r := [t] + list;
    assert forall i :: 0 < i < |r| ==> r[i] == list[i - 1] && list[i - 1] in list;
  }

  lemma {:induction false} RemovedTurns(list: seq<Tid>, t: Tid, flag: Flag, prio: Priorities, stamp: Stamps)
    requires ByTurn(list, flag, prio, stamp)
    ensures ByTurn(Removed(list, t), flag, prio, stamp)
    ensures forall x :: x in Removed(list, t) ==> x in list
  {
    hide Sooner, ByTurn;
    if list == [] {
      NoTurns(flag, prio, stamp);
    } else {
      TailTurns(list, flag, prio, stamp);
      assert list == [list[0]] + list[1..];
      RemovedTurns(list[1..], t, flag, prio, stamp);
      if list[0] != t {
        ConsTurns(list[0], Removed(list[1..], t), flag, prio, stamp);
      }
    }
  }

  lemma NoTurns(flag: Flag, prio: Priorities, stamp: Stamps)
    ensures ByTurn([], flag, prio, stamp)
  {
  }

  // ---- Since when the threads of a list wait ----------------------------------------------

  ghost function WaitingSince(list: seq<Tid>, stamp: Stamps): map<Tid, int> {
    map t | t in list :: stamp(t)
  }

  function StampIn(waiting: map<Tid, int>): Stamps {
    (t: Tid) => if t in waiting then waiting[t] else -1
  }

  /** The waiting thread whose turn it is. */
  ghost predicate IsNext(waiting: map<Tid, int>, flag: Flag, prio: Priorities, n: Tid) {
    n in waiting && forall u :: u in waiting && u != n ==> Sooner(n, u, flag, prio, StampIn(waiting))
  }

  lemma SinceStep(list: seq<Tid>, stamp: Stamps, stamp': Stamps)
    requires forall x :: x in list ==> stamp'(x) == stamp(x)
    ensures WaitingSince(list, stamp') == WaitingSince(list, stamp)
  {
  }

  lemma SinceNone(list: seq<Tid>, stamp: Stamps)
    ensures WaitingSince(list, stamp) == map[] <==> list == []
  {
    if list != [] {
      assert list[0] in WaitingSince(list, stamp);
    }
  }

  /** The first in the list is the next. */
  lemma FirstIsNext(list: seq<Tid>, flag: Flag, prio: Priorities, stamp: Stamps)
    requires list != [] && forall x :: x in list[1..] ==> Sooner(list[0], x, flag, prio, stamp)
    ensures IsNext(WaitingSince(list, stamp), flag, prio, list[0])
  {
    assert list == [list[0]] + list[1..];
  }

  lemma SinceEnlisted(list: seq<Tid>, t: Tid, flag: Flag, prio: Priorities, stamp: Stamps, stamp': Stamps)
    requires Distinct(list) && t !in list && forall x :: x in list ==> stamp'(x) == stamp(x)
    ensures WaitingSince(Enlist(list, t, flag, prio), stamp') == WaitingSince(list, stamp)[t := stamp'(t)]
  {
    hide Enlist, Distinct;
    EnlistMembers(list, t, flag, prio);
  }

  lemma SinceRemoved(list: seq<Tid>, t: Tid, stamp: Stamps, stamp': Stamps)
    requires Distinct(list) && forall x :: x in list ==> stamp'(x) == stamp(x)
    ensures WaitingSince(Removed(list, t), stamp') == WaitingSince(list, stamp) - {t}
  {
    hide Removed, Distinct;
    RemovedMembers(list, t);
  }

  lemma SinceTail(list: seq<Tid>, stamp: Stamps, stamp': Stamps)
    requires Distinct(list) && list != [] && forall x :: x in list ==> stamp'(x) == stamp(x)
    ensures WaitingSince(list[1..], stamp') == WaitingSince(list, stamp) - {list[0]}
  {
    hide Distinct;
    TailDistinct(list);
  }
}
