/** Several rings of the same set of nodes, with every other node in a ring of its own. */
module Rings {
  import opened RtList
  import opened Sequences

  ghost predicate Apart(rings: seq<seq<Node>>) {
    forall j, k, n :: 0 <= j < k < |rings| && n in rings[j] ==> n !in rings[k]
  }

  ghost predicate Loose(rings: seq<seq<Node>>, n: Node) {
    forall k :: 0 <= k < |rings| ==> n !in rings[k]
  }

  ghost predicate AllRings(l: Links, rings: seq<seq<Node>>) {
    forall k :: 0 <= k < |rings| ==> IsRing(l, rings[k])
  }

  ghost predicate LooseRings(l: Links, rings: seq<seq<Node>>, all: set<Node>) {
    forall n :: n in all && Loose(rings, n) ==> IsRing(l, [n])
  }

  ghost predicate Linked(l: Links, rings: seq<seq<Node>>, all: set<Node>) {
    AllRings(l, rings) && Apart(rings) && LooseRings(l, rings, all)
  }

  ghost function WithNode(rings: seq<seq<Node>>, k: int, i: int, n: Node): seq<seq<Node>>
    requires 0 <= k < |rings| && 0 <= i < |rings[k]|
  {
    rings[k := Inserted(rings[k], i, n)]
  }

  ghost function WithoutNode(rings: seq<seq<Node>>, k: int, i: int): seq<seq<Node>>
    requires 0 <= k < |rings| && 0 <= i < |rings[k]|
  {
    rings[k := Without(rings[k], i)]
  }

  lemma InsertedHas(s: seq<Node>, i: int, n: Node)
    requires 0 <= i < |s|
    ensures forall x :: x in Inserted(s, i, n) <==> x in s || x == n
  {
    assert s == s[..i + 1] + s[i + 1..];
  }

  lemma WithoutHas(s: seq<Node>, i: int)
    requires 0 <= i < |s| && Distinct(s)
    ensures forall x :: x in Without(s, i) <==> x in s && x != s[i]
  {
    assert s == s[..i] + [s[i]] + s[i + 1..];
  }

  lemma LooseBefore(rings: seq<seq<Node>>, after: seq<seq<Node>>, k: int, x: Node)
    requires 0 <= k < |rings| == |after| && x !in rings[k] && Loose(after, x)
    requires forall j :: 0 <= j < |rings| && j != k ==> rings[j] == after[j]
    ensures Loose(rings, x)
  {
    forall j | 0 <= j < |rings|
      ensures x !in rings[j]
    {
      assert x !in after[j];
    }
  }

  /** rt_list_insert_after of a loose node. */
  lemma InsertLinked(l: Links, rings: seq<seq<Node>>, all: set<Node>, k: int, i: int, n: Node)
    requires Linked(l, rings, all) && 0 <= k < |rings| && 0 <= i < |rings[k]|
    requires n in all && Loose(rings, n)
    ensures rings[k][i] in l.next
    ensures Linked(LinkAfter(l, rings[k][i], n), WithNode(rings, k, i, n), all)
  {
    hide IsRing, LinkAfter, Distinct, Inserted;
    var ring := rings[k];
    HeadLinked(l, ring, i);
    var m, q := LinkAfter(l, ring[i], n), WithNode(rings, k, i, n);
    InsertedHas(ring, i, n);
    LinkAfterRing(l, ring, i, n);
    forall j | 0 <= j < |rings| && j != k
      ensures IsRing(m, rings[j])
    {
      assert forall x :: x in ring ==> x !in rings[j];
      OtherRing(l, ring, n, ring[i], rings[j]);
    }
    forall x | x in all && Loose(q, x)
      ensures IsRing(m, [x])
    {
      assert x !in q[k];
      LooseBefore(rings, q, k, x);
      OtherRing(l, ring, n, ring[i], [x]);
    }
  }

  lemma HeadLinked(l: Links, ring: seq<Node>, i: int)
    requires IsRing(l, ring) && 0 <= i < |ring|
    ensures ring[i] in l.next && ring[i] in l.prev
  {
  }

  lemma IsolateKeeps(l: Links, ring: seq<Node>, n: Node)
    requires IsRing(l, ring) && n !in ring
    ensures IsRing(Isolate(l, n), ring)
  {
  }

  lemma IsolateRing(l: Links, n: Node)
    ensures IsRing(Isolate(l, n), [n])
  {
  }

  /** rt_list_remove of a node in a ring. */
  lemma RemoveLinked(l: Links, rings: seq<seq<Node>>, all: set<Node>, k: int, i: int)
    requires Linked(l, rings, all) && 0 <= k < |rings| && 0 <= i < |rings[k]| && 1 < |rings[k]|
    ensures rings[k][i] in l.next && rings[k][i] in l.prev
    ensures Linked(Isolate(Unlink(l, rings[k][i]), rings[k][i]), WithoutNode(rings, k, i), all)
    ensures Loose(WithoutNode(rings, k, i), rings[k][i])
  {
    hide IsRing, Unlink, Isolate, Distinct, Without;
    var ring, n := rings[k], rings[k][i];
    HeadLinked(l, ring, i);
    RingDistinct(l, ring);
    WithoutHas(ring, i);
    var u := Unlink(l, n);
    var m, q := Isolate(u, n), WithoutNode(rings, k, i);
    UnlinkRing(l, ring, i);
    IsolateKeeps(u, q[k], n);
    IsolateRing(u, n);
    forall j | 0 <= j < |rings| && j != k
      ensures IsRing(m, rings[j])
    {
      assert forall x :: x in ring ==> x !in rings[j];
      UnlinkOther(l, ring, n, rings[j]);
      IsolateKeeps(u, rings[j], n);
    }
    forall x | x in all && Loose(q, x)
      ensures IsRing(m, [x])
    {
      if x != n {
        assert x !in q[k];
        LooseBefore(rings, q, k, x);
        UnlinkOther(l, ring, n, [x]);
        IsolateKeeps(u, [x], n);
      }
    }
  }

  lemma RingDistinct(l: Links, ring: seq<Node>)
    requires IsRing(l, ring)
    ensures Distinct(ring)
  {
  }

  lemma UnlinkOther(l: Links, s: seq<Node>, h: Node, t: seq<Node>)
    requires IsRing(l, s) && IsRing(l, t) && h in s && (forall y :: y in s ==> y !in t)
    ensures h in l.next && h in l.prev && IsRing(Unlink(l, h), t)
  {
    hide LinkAfter;
    var x: Node :| x !in t;
    OtherRing(l, s, x, h, t);
  }

  /** Removing a loose node changes nothing. */
  lemma RemoveLoose(l: Links, rings: seq<seq<Node>>, all: set<Node>, n: Node)
    requires Linked(l, rings, all) && n in all && Loose(rings, n)
    ensures n in l.next && n in l.prev && l.next[n] == n && l.prev[n] == n
  {
    assert IsRing(l, [n]);
    assert Succ(0, 1) == 0;
    assert [n][0] == n;
  }

  /** rt_list_init of a new node. */
  lemma AddLinked(l: Links, rings: seq<seq<Node>>, all: set<Node>, n: Node)
    requires Linked(l, rings, all) && Loose(rings, n)
    ensures Linked(Isolate(l, n), rings, all + {n})
  {
    hide IsRing, Isolate;
    forall k | 0 <= k < |rings|
      ensures IsRing(Isolate(l, n), rings[k])
    {
      IsolateKeeps(l, rings[k], n);
    }
    forall x | x in all + {n} && Loose(rings, x)
      ensures IsRing(Isolate(l, n), [x])
    {
      if x == n {
        IsolateRing(l, n);
      } else {
        IsolateKeeps(l, [x], n);
      }
    }
  }

  /** rt_list_init of a new head. */
  lemma HeadAdded(l: Links, rings: seq<seq<Node>>, n: Node)
    requires Linked(l, rings, {}) && Loose(rings, n)
    ensures Linked(Isolate(l, n), rings + [[n]], {})
  {
    hide IsRing, Isolate;
    var q := rings + [[n]];
    forall k | 0 <= k < |q|
      ensures IsRing(Isolate(l, n), q[k])
    {
      if k < |rings| {
        assert n !in rings[k];
        IsolateKeeps(l, rings[k], n);
      } else {
        IsolateRing(l, n);
      }
    }
  }

  lemma RingNeighbours(l: Links, s: seq<Node>, i: int)
    requires IsRing(l, s) && 0 <= i < |s|
    ensures s[i] in l.next && s[i] in l.prev && l.next[s[i]] in l.prev && l.prev[s[i]] in l.next
    ensures i + 1 < |s| ==> l.next[s[i]] == s[i + 1]
    ensures l.prev[s[0]] == s[|s| - 1]
    ensures s[i] == s[|s| - 1] <==> i == |s| - 1
    ensures l.next[s[0]] == s[0] <==> |s| == 1
  {
    var before := if i == 0 then |s| - 1 else i - 1;
    assert Succ(before, |s|) == i && Succ(|s| - 1, |s|) == 0;
    assert l.next[s[i]] == s[Succ(i, |s|)] && l.prev[s[i]] == s[before];
    assert l.next[s[0]] == s[Succ(0, |s|)] && l.prev[s[0]] == s[|s| - 1];
  }

  lemma SameLinks(l: Links, n: Node)
    requires n in l.next && n in l.prev && l.next[n] == n && l.prev[n] == n
    ensures Isolate(Unlink(l, n), n) == l
  {
  }
}
