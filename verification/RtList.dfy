/** The circular doubly linked lists of the kernel.

    Nodes are numbered; `next` and `prev` are the two link fields of every node, so that the
    field of one node is one entry of a map.  A list with head `h` and elements `e0, e1, ...`
    in order is the ring `[h, e0, e1, ...]`.
 */
module RtList {
  import opened Sequences

  type Node = int

  datatype Links = Links(next: map<Node, Node>, prev: map<Node, Node>)

  function Succ(i: int, n: int): int {
    if i + 1 == n then 0 else i + 1
  }

  /** `s` is the whole ring: following `next` from `s[0]` visits `s` in order and comes back,
      and `prev` goes the other way round. */
  ghost predicate IsRing(l: Links, s: seq<Node>) {
    && 0 < |s|
    && Distinct(s)
    && (forall i :: 0 <= i < |s| ==> s[i] in l.next && s[i] in l.prev)
    && (forall i, j :: 0 <= i < |s| && 0 <= j < |s| && j == Succ(i, |s|)
          ==> l.next[s[i]] == s[j] && l.prev[s[j]] == s[i])
  }

  function LinkAfter(l: Links, h: Node, x: Node): Links
    requires h in l.next
  {
    Links(l.next[x := l.next[h]][h := x], l.prev[x := h][l.next[h] := x])
  }

  function Unlink(l: Links, x: Node): Links
    requires x in l.next && x in l.prev
  {
    Links(l.next[l.prev[x] := l.next[x]], l.prev[l.next[x] := l.prev[x]])
  }

  function Isolate(l: Links, x: Node): Links {
    Links(l.next[x := x], l.prev[x := x])
  }

  function Inserted<T>(s: seq<T>, i: int, x: T): seq<T>
    requires 0 <= i < |s|
  {
    s[..i + 1] + [x] + s[i + 1..]
  }

  function Without<T>(s: seq<T>, i: int): seq<T>
    requires 0 <= i < |s|
  {
    s[..i] + s[i + 1..]
  }

  lemma InsertedDistinct<T>(s: seq<T>, i: int, x: T)
    requires Distinct(s) && 0 <= i < |s| && x !in s
    ensures Distinct(Inserted(s, i, x))
  {
    var t := Inserted(s, i, x);
    assert forall k :: 0 <= k < |t| && k != i + 1 ==> t[k] == s[if k <= i then k else k - 1];
  }

  lemma WithoutDistinct<T>(s: seq<T>, i: int)
    requires Distinct(s) && 0 <= i < |s|
    ensures Distinct(Without(s, i))
  {
    var t := Without(s, i);
    assert forall k :: 0 <= k < |t| ==> t[k] == s[if k < i then k else k + 1];
  }

  lemma LinkAfterRing(l: Links, s: seq<Node>, i: int, x: Node)
    requires IsRing(l, s) && 0 <= i < |s| && x !in s
    ensures IsRing(LinkAfter(l, s[i], x), Inserted(s, i, x))
  {
    hide Distinct;
    var m, t, n := LinkAfter(l, s[i], x), Inserted(s, i, x), |s| + 1;
    var z := Succ(i, |s|);
    assert l.next[s[i]] == s[z];
    InsertedDistinct(s, i, x);
    forall k | 0 <= k < n
      ensures t[k] in m.next && t[k] in m.prev
    {
      assert t[k] == if k == i + 1 then x else s[if k <= i then k else k - 1];
    }
    forall a, b | 0 <= a < n && 0 <= b < n && b == Succ(a, n)
      ensures m.next[t[a]] == t[b] && m.prev[t[b]] == t[a]
    {
      InsertedLink(l, s, i, x, a);
    }
  }

  lemma InsertedLink(l: Links, s: seq<Node>, i: int, x: Node, a: int)
    requires IsRing(l, s) && 0 <= i < |s| && x !in s && 0 <= a <= |s|
    ensures var m, t, b := LinkAfter(l, s[i], x), Inserted(s, i, x), Succ(a, |s| + 1);
      t[a] in m.next && m.next[t[a]] == t[b] && t[b] in m.prev && m.prev[t[b]] == t[a]
  {
    var m, t, b := LinkAfter(l, s[i], x), Inserted(s, i, x), Succ(a, |s| + 1);
    var z := Succ(i, |s|);
    assert l.next[s[i]] == s[z];
    if a == i {
      assert t[a] == s[i] && t[b] == x && x != s[z];
    } else if a == i + 1 {
      assert t[a] == x && t[b] == s[z];
    } else {
      var p := if a < i then a else a - 1;
      assert t[a] == s[p] && t[b] == s[Succ(p, |s|)];
      assert Succ(p, |s|) != z;
    }
  }

  lemma UnlinkRing(l: Links, s: seq<Node>, i: int)
    requires IsRing(l, s) && 0 <= i < |s| && 1 < |s|
    ensures IsRing(Unlink(l, s[i]), Without(s, i))
  {
    hide Distinct;
    var m, t, n := Unlink(l, s[i]), Without(s, i), |s| - 1;
    WithoutDistinct(s, i);
    forall k | 0 <= k < n
      ensures t[k] in m.next && t[k] in m.prev
    {
      assert t[k] == s[if k < i then k else k + 1];
    }
    forall a, b | 0 <= a < n && 0 <= b < n && b == Succ(a, n)
      ensures m.next[t[a]] == t[b] && m.prev[t[b]] == t[a]
    {
      UnlinkedLink(l, s, i, a);
    }
  }

  lemma UnlinkedLink(l: Links, s: seq<Node>, i: int, a: int)
    requires IsRing(l, s) && 0 <= i < |s| && 1 < |s| && 0 <= a < |s| - 1
    ensures var m, t, b := Unlink(l, s[i]), Without(s, i), Succ(a, |s| - 1);
      t[a] in m.next && m.next[t[a]] == t[b] && t[b] in m.prev && m.prev[t[b]] == t[a]
  {
    var t, b, n := Without(s, i), Succ(a, |s| - 1), |s| - 1;
    var before, after := if i == 0 then n else i - 1, Succ(i, |s|);
    assert Succ(before, |s|) == i;
    assert l.next[s[i]] == s[after] && l.prev[s[i]] == s[before];
    var p := if a < i then a else a + 1;
    var q := if b < i then b else b + 1;
    assert t[a] == s[p] && t[b] == s[q];
    if p != before {
      assert q == Succ(p, |s|);
    }
  }

  /** Two rings of one set of links share no node. */
  lemma OtherRing(l: Links, s: seq<Node>, x: Node, h: Node, t: seq<Node>)
    requires IsRing(l, s) && IsRing(l, t)
    requires h in s && (forall y :: y in s ==> y !in t) && x !in t
    ensures IsRing(LinkAfter(l, h, x), t)
    ensures IsRing(Unlink(l, h), t)
  {
    var i :| 0 <= i < |s| && s[i] == h;
    var before := if i == 0 then |s| - 1 else i - 1;
    assert Succ(before, |s|) == i;
    assert l.next[h] == s[Succ(i, |s|)] && l.prev[h] == s[before];
  }

  /** The link fields of all nodes, with the list primitives of the kernel. */
  class ListPool {
    var next: map<Node, Node>
    var prev: map<Node, Node>

    ghost function L(): Links
      reads this
    {
      Links(next, prev)
    }

    constructor ()
      ensures next == map[] && prev == map[]
    {
      next, prev := map[], map[];
    }

    /** rt_list_init */
    method Init(l: Node)
      modifies this
      ensures IsRing(L(), [l])
      ensures next == old(next)[l := l] && prev == old(prev)[l := l]
      ensures L() == Isolate(old(L()), l)
    {
      next, prev := next[l := l], prev[l := l];
    }

    /** rt_list_insert_after */
    method InsertAfter(l: Node, n: Node, ghost ring: seq<Node>, ghost i: int)
      requires IsRing(L(), ring) && 0 <= i < |ring| && ring[i] == l && n !in ring
      modifies this
      ensures IsRing(L(), Inserted(ring, i, n))
      ensures L() == LinkAfter(old(L()), l, n)
    {
      LinkAfterRing(L(), ring, i, n);
      assert next[l] == ring[Succ(i, |ring|)];
      prev := prev[next[l] := n];
      next := next[n := next[l]];
      next := next[l := n];
      prev := prev[n := l];
      assert prev == LinkAfter(old(L()), l, n).prev;
    }

    /** rt_list_insert_before */
    method InsertBefore(l: Node, n: Node, ghost ring: seq<Node>)
      requires IsRing(L(), ring) && ring[0] == l && n !in ring
      modifies this
      ensures IsRing(L(), ring + [n])
      ensures L() == LinkAfter(old(L()), ring[|ring| - 1], n)
    {
      ghost var last := |ring| - 1;
      LinkAfterRing(L(), ring, last, n);
      assert Succ(last, |ring|) == 0;
      assert next[ring[last]] == l;
      assert Inserted(ring, last, n) == ring + [n];
      next := next[prev[l] := n];
      prev := prev[n := prev[l]];
      prev := prev[l := n];
      next := next[n := l];
      assert next == LinkAfter(old(L()), ring[last], n).next;
      assert prev == LinkAfter(old(L()), ring[last], n).prev;
    }

    /** rt_list_remove of any linked node, also of one that is a list of its own. */
    method Delete(n: Node)
      requires n in next && n in prev && next[n] in prev && prev[n] in next
      modifies this
      ensures L() == Isolate(Unlink(old(L()), n), n)
    {
      prev := prev[next[n] := prev[n]];
      next := next[prev[n] := next[n]];
      assert L() == Unlink(old(L()), n);
      next, prev := next[n := n], prev[n := n];
    }

    /** rt_list_remove of a node in a ring: leaves it as a list of its own. */
    method Remove(n: Node, ghost ring: seq<Node>, ghost i: int)
      requires IsRing(L(), ring) && 0 <= i < |ring| && ring[i] == n && 1 < |ring|
      modifies this
      ensures IsRing(L(), Without(ring, i))
      ensures IsRing(L(), [n])
    {
      UnlinkRing(L(), ring, i);
      ghost var t := Without(ring, i);
      assert n !in t;
      assert n in next && n in prev && next[n] in prev && prev[n] in next by {
        var before := if i == 0 then |ring| - 1 else i - 1;
        assert Succ(before, |ring|) == i;
        assert next[n] == ring[Succ(i, |ring|)] && prev[n] == ring[before];
      }
      Delete(n);
    }

    /** rt_list_isempty */
    method IsEmpty(l: Node, ghost ring: seq<Node>) returns (b: bool)
      requires IsRing(L(), ring) && ring[0] == l
      ensures b <==> ring == [l]
    {
      b := next[l] == l;
      assert next[ring[0]] == ring[Succ(0, |ring|)];
    }

    /** rt_list_len */
    method Len(l: Node, ghost ring: seq<Node>) returns (len: nat)
      requires IsRing(L(), ring) && ring[0] == l
      ensures len == |ring| - 1
    {
      len := 0;
      var p := l;
      assert next[ring[0]] == ring[Succ(0, |ring|)];
      while next[p] != l
        invariant 0 <= len < |ring| && p == ring[len] && p in next
        invariant next[p] == ring[Succ(len, |ring|)]
        decreases |ring| - len
      {
        p := next[p];
        len := len + 1;
        assert next[ring[len]] == ring[Succ(len, |ring|)];
      }
    }
  }
}
