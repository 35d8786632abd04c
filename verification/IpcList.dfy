/** Lists of suspended threads, shared by all IPC objects, and the rule that decides whether a
    wake-up can be lost.
 */
module IpcList {
  import opened Sequences

  type Tid = nat

  datatype Flag = Fifo | Prio   // RT_IPC_FLAG_FIFO, RT_IPC_FLAG_PRIO

  type Priorities = Tid -> int  // current_priority; a smaller number is more urgent

  /** Most urgent first. */
  ghost predicate Sorted(s: seq<Tid>, prio: Priorities) {
    forall i, j :: 0 <= i < j < |s| ==> prio(s[i]) <= prio(s[j])
  }

  /** Where rt_ipc_list_suspend puts a thread: at the end, or before the first less urgent one. */
  function Place(s: seq<Tid>, t: Tid, flag: Flag, prio: Priorities): (k: nat)
    ensures k <= |s|
    ensures flag == Fifo ==> k == |s|
    ensures flag == Prio ==> forall i :: 0 <= i < k ==> prio(s[i]) <= prio(t)
    ensures flag == Prio && k < |s| ==> prio(t) < prio(s[k])
  {
    if s == [] || (flag == Prio && prio(t) < prio(s[0])) then 0 else 1 + Place(s[1..], t, flag, prio)
  }

  function Enlist(s: seq<Tid>, t: Tid, flag: Flag, prio: Priorities): seq<Tid> {
    var k := Place(s, t, flag, prio);
    s[..k] + [t] + s[k..]
  }

  /** Suspending adds the thread and nothing else. */
  lemma EnlistMembers(s: seq<Tid>, t: Tid, flag: Flag, prio: Priorities)
    requires Distinct(s) && t !in s
    ensures Distinct(Enlist(s, t, flag, prio))
    ensures forall x :: x in Enlist(s, t, flag, prio) <==> x in s || x == t
  {
    hide Place;
    var k := Place(s, t, flag, prio);
    var r := Enlist(s, t, flag, prio);
    assert s == s[..k] + s[k..];
    assert forall x :: x in r <==> x in s || x == t;
    forall i, j | 0 <= i < j < |r|
      ensures r[i] != r[j]
    {
      assert r[i] == if i < k then s[i] else if i == k then t else s[i - 1];
      assert r[j] == if j < k then s[j] else if j == k then t else s[j - 1];
    }
  }

  /** A list kept by priority stays so; a thread goes behind those of its own priority. */
  lemma EnlistSorted(s: seq<Tid>, t: Tid, prio: Priorities)
    requires Sorted(s, prio)
    ensures Sorted(Enlist(s, t, Prio, prio), prio)
    ensures forall i :: 0 <= i < |s| ==> (prio(s[i]) <= prio(t) <==> i < Place(s, t, Prio, prio))
  {
    var k := Place(s, t, Prio, prio);
    var r := Enlist(s, t, Prio, prio);
    forall i, j | 0 <= i < j < |r|
      ensures prio(r[i]) <= prio(r[j])
    {
      assert k < |s| && k < j - 1 ==> prio(s[k]) <= prio(s[j - 1]);
    }
  }

  function Removed(s: seq<Tid>, t: Tid): seq<Tid> {
    if s == [] then [] else if s[0] == t then s[1..] else [s[0]] + Removed(s[1..], t)
  }

  lemma {:induction false} RemovedMembers(s: seq<Tid>, t: Tid)
    requires Distinct(s)
    ensures Distinct(Removed(s, t))
    ensures forall x :: x in Removed(s, t) <==> x in s && x != t
  {
    if s != [] {
      var r := s[1..];
      assert s == [s[0]] + r;
      assert Distinct(r) by {
        assert forall i :: 0 <= i < |r| ==> r[i] == s[i + 1];
      }
      assert s[0] !in r;
      RemovedMembers(r, t);
    }
  }

  lemma {:induction false} RemovedAt(s: seq<Tid>, t: Tid, k: nat)
    requires k <= |s| && (forall i :: 0 <= i < k ==> s[i] != t) && (k < |s| ==> s[k] == t)
    ensures Removed(s, t) == if k < |s| then s[..k] + s[k + 1..] else s
  {
    if 0 < k {
      RemovedAt(s[1..], t, k - 1);
      assert s == [s[0]] + s[1..];
      if k < |s| {
        assert s[..k] + s[k + 1..] == [s[0]] + (s[1..][..k - 1] + s[1..][k..]);
      }
    }
  }

  lemma {:induction false} NotThere(list: seq<Tid>, t: Tid)
    ensures t !in list ==> Removed(list, t) == list
  {
    if list != [] {
      NotThere(list[1..], t);
    }
  }

  lemma {:induction false} RemovedSorted(s: seq<Tid>, t: Tid, prio: Priorities)
    requires Sorted(s, prio)
    ensures Sorted(Removed(s, t), prio)
    ensures forall x :: x in Removed(s, t) ==> x in s
  {
    if s != [] {
      var r := s[1..];
      assert forall i :: 0 <= i < |r| ==> r[i] == s[i + 1];
      assert s == [s[0]] + r;
      RemovedSorted(r, t, prio);
      assert forall x :: x in r ==> prio(s[0]) <= prio(x);
      var q := Removed(r, t);
      assert forall i :: 0 <= i < |q| ==> q[i] in r;
      assert forall i :: 0 <= i < |[s[0]] + q| ==> ([s[0]] + q)[i] == if i == 0 then s[0] else q[i - 1];
    }
  }

  /** The thread list of an IPC object, with the loop of rt_ipc_list_suspend. */
  class ThreadList {
    var list: seq<Tid>

    constructor ()
      ensures list == []
    {
      list := [];
    }

    /** The list part of rt_ipc_list_suspend. */
    method Suspend(t: Tid, flag: Flag, prio: Priorities)
      modifies this
      ensures list == Enlist(old(list), t, flag, prio)
    {
      match flag {
        case Fifo =>
          list := list + [t];
        case Prio =>
          var n := 0;
          while n < |list|
            invariant 0 <= n <= |list| && list == old(list)
            invariant forall i :: 0 <= i < n ==> prio(list[i]) <= prio(t)
          {
            if prio(t) < prio(list[n]) {
              break;
            }
            n := n + 1;
          }
          PlaceIs(list, t, prio, n);
          list := list[..n] + [t] + list[n..];
      }
    }

    /** The memory pool puts a thread in front of the others. */
    method SuspendFirst(t: Tid)
      modifies this
      ensures list == [t] + old(list)
    {
      list := [t] + list;
    }

    /** rt_ipc_list_resume: takes the first thread out. */
    method Resume() returns (t: Tid)
      requires list != []
      modifies this
      ensures t == old(list)[0] && list == old(list)[1..]
    {
      t := list[0];
      list := list[1..];
    }

    /** rt_ipc_list_resume_all */
    method ResumeAll()
      modifies this
      ensures list == []
    {
      while list != []
        decreases |list|
      {
        var t := Resume();
      }
    }

    /** The thread leaves the list when its timer fires, wherever it stands. */
    method Leave(t: Tid)
      modifies this
      ensures list == Removed(old(list), t)
    {
      var k := 0;
      while k < |list| && list[k] != t
        invariant k <= |list| && list == old(list)
        invariant forall i :: 0 <= i < k ==> list[i] != t
      {
        k := k + 1;
      }
      RemovedAt(list, t, k);
      if k < |list| {
        list := list[..k] + list[k + 1..];
      }
    }

    /** A thread found on a walk over the list is resumed. */
    method TakeOut(k: nat) returns (t: Tid)
      requires k < |list|
      modifies this
      ensures t == old(list)[k] && list == old(list)[..k] + old(list)[k + 1..]
    {
      t := list[k];
      list := list[..k] + list[k + 1..];
    }

    /** rt_ipc_get_highest_priority: the most urgent priority in the list, at most 31. */
    method HighestPriority(prio: Priorities) returns (priority: int)
      ensures priority == Highest(list, prio)
    {
      priority := 31;
      var n := 0;
      while n < |list|
        invariant 0 <= n <= |list| && priority == Highest(list[..n], prio)
      {
        HighestSnoc(list[..n], list[n], prio);
        assert list[..n + 1] == list[..n] + [list[n]];
        priority := if priority < prio(list[n]) then priority else prio(list[n]);
        n := n + 1;
      }
      assert list[..n] == list;
    }
  }

  lemma PlaceIs(s: seq<Tid>, t: Tid, prio: Priorities, n: int)
    requires 0 <= n <= |s|
    requires forall i :: 0 <= i < n ==> prio(s[i]) <= prio(t)
    requires n < |s| ==> prio(t) < prio(s[n])
    ensures Place(s, t, Prio, prio) == n
  {
    var k := Place(s, t, Prio, prio);
    assert k < n || k == n || n < k;
  }

  function Min(a: int, b: int): int {
    if a < b then a else b
  }

  function Highest(s: seq<Tid>, prio: Priorities): int {
    if s == [] then 31 else Min(prio(s[0]), Highest(s[1..], prio))
  }

  lemma {:induction false} HighestSnoc(s: seq<Tid>, t: Tid, prio: Priorities)
    ensures Highest(s + [t], prio) == Min(Highest(s, prio), prio(t))
  {
    if s != [] {
      assert (s + [t])[1..] == s[1..] + [t];
      HighestSnoc(s[1..], t, prio);
    }
  }

  /** It is a lower bound, and for priorities up to 31 it is the priority of some thread. */
  lemma {:induction false} HighestIs(s: seq<Tid>, prio: Priorities)
    ensures Highest(s, prio) <= 31
    ensures forall i :: 0 <= i < |s| ==> Highest(s, prio) <= prio(s[i])
    ensures s != [] && (forall i :: 0 <= i < |s| ==> prio(s[i]) <= 31) ==>
              exists i :: 0 <= i < |s| && Highest(s, prio) == prio(s[i])
  {
    if s != [] {
      var r := s[1..];
      assert forall i :: 0 <= i < |r| ==> r[i] == s[i + 1];
      HighestIs(r, prio);
    }
  }

  // ---- Waiting for a resource -------------------------------------------------------------

  /** The threads that wait for one kind of resource: those suspended in a list, and those that
      were resumed without an error but have not looked at the object again. */
  datatype Wait = Wait(list: seq<Tid>, woken: set<Tid>)

  ghost predicate WaitInv(w: Wait) {
    Distinct(w.list) && forall t :: t in w.list ==> t !in w.woken
  }

  /** No wake-up is lost: if a thread is still suspended, there are at most as many units to be
      had as there are threads on their way to fetch one. */
  ghost predicate NothingLost(w: Wait, available: nat) {
    w.list != [] ==> available <= |w.woken|
  }

  ghost predicate Sound(w: Wait, available: nat) {
    WaitInv(w) && NothingLost(w, available)
  }

  function Members(w: Wait): set<Tid> {
    (set t | t in w.list) + w.woken
  }

  /** A thread finds nothing and suspends itself, for the first time or again. */
  function Block(w: Wait, t: Tid, flag: Flag, prio: Priorities): Wait {
    Wait(Enlist(w.list, t, flag, prio), w.woken - {t})
  }

  /** The same for the memory pool, which takes the thread that came last first. */
  function BlockFirst(w: Wait, t: Tid): Wait {
    Wait([t] + w.list, w.woken - {t})
  }

  /** A thread finds something and goes on. */
  function Pass(w: Wait, t: Tid): Wait {
    w.(woken := w.woken - {t})
  }

  /** rt_ipc_list_resume, when the list is not empty. */
  function WakeFirst(w: Wait): Wait {
    if w.list == [] then w else Wait(w.list[1..], w.woken + {w.list[0]})
  }

  /** The timer of a suspended thread fires: it is taken out of the list with an error. */
  function Expire(w: Wait, t: Tid): Wait {
    w.(list := Removed(w.list, t))
  }

  /** rt_ipc_list_resume_all: every suspended thread is resumed with an error. */
  function WakeAll(w: Wait): Wait {
    w.(list := [])
  }

  lemma MembersAre(w: Wait)
    ensures forall t :: t in Members(w) <==> t in w.list || t in w.woken
  {
  }

  lemma ListedIsMember(w: Wait)
    ensures forall t :: t in w.list ==> t in Members(w)
  {
  }

  lemma BlockSound(w: Wait, t: Tid, flag: Flag, prio: Priorities)
    requires Sound(w, 0) && t !in w.list
    ensures Sound(Block(w, t, flag, prio), 0)
    ensures Members(Block(w, t, flag, prio)) == Members(w) + {t}
  {
    EnlistMembers(w.list, t, flag, prio);
  }

  lemma BlockFirstSound(w: Wait, t: Tid)
    requires Sound(w, 0) && t !in w.list
    ensures Sound(BlockFirst(w, t), 0)
    ensures Members(BlockFirst(w, t)) == Members(w) + {t}
  {
    hide Distinct, Members;
    SingleDistinct(t);
    JoinDistinct([t], w.list);
    BlockFirstMembers(w, t);
  }

  lemma BlockFirstMembers(w: Wait, t: Tid)
    ensures Members(BlockFirst(w, t)) == Members(w) + {t}
  {
    forall x
      ensures x in Members(BlockFirst(w, t)) <==> x in Members(w) || x == t
    {
      assert x in [t] + w.list <==> x == t || x in w.list;
    }
  }

  lemma PassSound(w: Wait, t: Tid, available: nat)
    requires Sound(w, available) && 0 < available && t !in w.list
    ensures Sound(Pass(w, t), available - 1)
    ensures Members(Pass(w, t)) == Members(w) - {t}
  {
    if t in w.woken {
      assert |w.woken - {t}| == |w.woken| - 1;
    } else {
      assert w.woken - {t} == w.woken;
    }
  }

  lemma GiveUpSound(w: Wait, t: Tid)
    requires Sound(w, 0) && t !in w.list
    ensures Sound(Pass(w, t), 0)
    ensures Members(Pass(w, t)) == Members(w) - {t}
  {
  }

  lemma WakeFirstSound(w: Wait, available: nat)
    requires Sound(w, available)
    ensures Sound(WakeFirst(w), available + 1)
    ensures Members(WakeFirst(w)) == Members(w)
  {
    if w.list != [] {
      hide Distinct;
      TailDistinct(w.list);
      assert w.list[0] !in w.woken;
      assert |w.woken + {w.list[0]}| == |w.woken| + 1;
    }
  }

  lemma ExpireSound(w: Wait, t: Tid, available: nat)
    requires Sound(w, available) && t in w.list
    ensures Sound(Expire(w, t), available)
    ensures Members(Expire(w, t)) == Members(w) - {t}
  {
    RemovedMembers(w.list, t);
  }

  lemma WakeAllSound(w: Wait, available: nat)
    requires WaitInv(w)
    ensures Sound(WakeAll(w), available)
    ensures Members(WakeAll(w)) == w.woken
  {
  }
}
