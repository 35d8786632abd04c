/** Several singly linked lists threaded through one link field, as the zone lists of the slab
    allocator are, and the places of zones and free chunks on them.
 */
module ZoneLists {
  import opened Chains
  import opened Sequences

  /** From every head the links lead through its list. */
  ghost predicate Threaded(ls: seq<seq<Node>>, heads: seq<int>, next: Links) {
    |ls| == |heads| && forall i :: 0 <= i < |ls| ==> Chain(next, heads[i], ls[i])
  }

  ghost predicate OnNone(ls: seq<seq<Node>>, z: Node) {
    forall i :: 0 <= i < |ls| ==> z !in ls[i]
  }

  /** No node is on two lists, or twice on one. */
  ghost predicate Separate(ls: seq<seq<Node>>) {
    && (forall i :: 0 <= i < |ls| ==> Distinct(ls[i]))
    && (forall i, j, z :: 0 <= i < |ls| && 0 <= j < |ls| && z in ls[i] && z in ls[j] ==> i == j)
  }

  /** The link of a node that is on no list does not matter. */
  lemma FreeLink(ls: seq<seq<Node>>, heads: seq<int>, next: Links, z: Node, v: int)
    requires Threaded(ls, heads, next) && OnNone(ls, z)
    ensures Threaded(ls, heads, next[z := v])
  {
    hide Chain;
    forall i | 0 <= i < |ls|
      ensures Chain(next[z := v], heads[i], ls[i])
    {
      ChainElsewhere(next, heads[i], ls[i], z, v);
    }
  }

  lemma Push(ls: seq<seq<Node>>, heads: seq<int>, next: Links, i: nat, z: Node)
    requires Threaded(ls, heads, next) && OnNone(ls, z) && i < |ls|
    ensures Threaded(ls[i := [z] + ls[i]], heads[i := z], next[z := heads[i]])
  {
    hide OnNone;
    FreeLink(ls, heads, next, z, heads[i]);
    assert ([z] + ls[i])[1..] == ls[i];
  }

  lemma Pop(ls: seq<seq<Node>>, heads: seq<int>, next: Links, i: nat)
    requires Threaded(ls, heads, next) && i < |ls| && ls[i] != []
    ensures heads[i] == ls[i][0] && ls[i][0] in next
    ensures Threaded(ls[i := ls[i][1..]], heads[i := next[ls[i][0]]], next)
  {
    assert Chain(next, heads[i], ls[i]);
  }

  lemma PopSeparate(ls: seq<seq<Node>>, i: nat)
    requires Separate(ls) && i < |ls| && ls[i] != []
    ensures OnNone(ls[i := ls[i][1..]], ls[i][0])
  {
    var z, t := ls[i][0], ls[i := ls[i][1..]];
    assert z in ls[i];
    TailDistinct(ls[i]);
    forall j | 0 <= j < |t|
      ensures z !in t[j]
    {
      assert j != i ==> t[j] == ls[j];
    }
  }

  /** The node at position k of list i is taken out: the link in front of it takes over its link. */
  lemma Unlink(ls: seq<seq<Node>>, heads: seq<int>, next: Links, i: nat, k: nat)
    requires Threaded(ls, heads, next) && Separate(ls) && i < |ls| && k < |ls[i]| && ls[i][k] in next
    ensures var after, rest := next[ls[i][k]], ls[i][..k] + ls[i][k + 1..];
      if k == 0 then Threaded(ls[i := rest], heads[i := after], next)
      else Threaded(ls[i := rest], heads, next[ls[i][k - 1] := after])
  {
    hide Chain;
    var s := ls[i];
    if k == 0 {
      Pop(ls, heads, next, i);
      assert s[..0] + s[1..] == s[1..];
    } else {
      var p, after := s[k - 1], next[s[k]];
      assert Chain(next, heads[i], s) && Distinct(s) && p in s;
      SkipNode(next, heads[i], s, k);
      forall j | 0 <= j < |ls| && j != i
        ensures Chain(next[p := after], heads[j], ls[j])
      {
        assert Chain(next, heads[j], ls[j]) && p !in ls[j];
        ChainElsewhere(next, heads[j], ls[j], p, after);
      }
    }
  }

  lemma {:induction false} SkipNode(next: Links, head: int, s: seq<Node>, k: nat)
    requires Chain(next, head, s) && Distinct(s) && 0 < k < |s| && s[k] in next
    ensures Chain(next[s[k - 1] := next[s[k]]], head, s[..k] + s[k + 1..])
    decreases k
  {
    hide Chain, Distinct;
    var p, v := s[k - 1], next[s[k]];
    var t := s[1..];
    TailDistinct(s);
    Step(next, head, s);
    assert t[k - 1] == s[k];
    var r := s[..k] + s[k + 1..];
    assert r[0] == s[0];
    if k == 1 {
      Step(next, next[s[0]], t);
      TailDistinct(t);
      assert s[0] !in t;
      assert t == [t[0]] + t[1..];
      ChainElsewhere(next, v, t[1..], p, v);
      assert r[1..] == t[1..];
      Cons(next[p := v], r, v);
    } else {
      assert t[k - 2] == p && p in t;
      SkipNode(next, next[s[0]], t, k - 1);
      assert r[1..] == t[..k - 1] + t[k..];
      Cons(next[p := v], r, next[s[0]]);
    }
  }

  lemma Step(next: Links, head: int, s: seq<Node>)
    requires Chain(next, head, s) && s != []
    ensures head == s[0] && s[0] in next && Chain(next, next[s[0]], s[1..])
  {
  }

  lemma Cons(next: Links, s: seq<Node>, v: int)
    requires s != [] && s[0] in next && next[s[0]] == v && Chain(next, v, s[1..])
    ensures Chain(next, s[0], s)
  {
  }

  /** Where a walk along the links has got to. */
  lemma {:induction false} ChainAt(next: Links, head: int, s: seq<Node>, k: nat)
    requires Chain(next, head, s) && k < |s|
    ensures s[k] in next && (if k + 1 < |s| then next[s[k]] == s[k + 1] else next[s[k]] == NULL)
    ensures head == s[0]
    decreases k
  {
    if k > 0 {
      ChainAt(next, next[s[0]], s[1..], k - 1);
    } else if |s| > 1 {
      assert s[1..][0] == s[1];
    }
  }
}
