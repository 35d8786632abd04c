/** Singly linked lists threaded through memory blocks: `next` is the link word of every block,
    and NULL ends a list.
 */
module Chains {
  import opened Sequences

  type Node = nat
  type Links = map<Node, int>

  const NULL: int := -1

  /** Following `next` from `p` visits the nodes of `s` and ends with NULL. */
  ghost predicate Chain(next: Links, p: int, s: seq<Node>)
    decreases |s|
  {
    if s == [] then p == NULL else p == s[0] && s[0] in next && Chain(next, next[s[0]], s[1..])
  }

  lemma {:induction false} ChainElsewhere(next: Links, p: int, s: seq<Node>, n: Node, v: int)
    requires Chain(next, p, s) && n !in s
    ensures Chain(next[n := v], p, s)
    decreases |s|
  {
    if s != [] {
      ChainElsewhere(next, next[s[0]], s[1..], n, v);
    }
  }

  lemma {:induction false} ChainLast(next: Links, p: int, s: seq<Node>, n: Node)
    requires Chain(next, p, s) && Distinct(s) && n !in s && s != [] && n in next && next[n] == NULL
    ensures Chain(next[s[|s| - 1] := n], p, s + [n])
    decreases |s|
  {
    var last := s[|s| - 1];
    assert (s + [n])[1..] == s[1..] + [n];
    if |s| == 1 {
      assert s[1..] + [n] == [n] && [n][1..] == [];
      assert Chain(next, next[n], []);
    } else {
      TailDistinct(s);
      assert last == s[1..][|s| - 2];
      ChainLast(next, next[s[0]], s[1..], n);
    }
  }

  // ---- Parts of a list --------------------------------------------------------------------

  /** Following `next` from `p` visits the nodes of `s` and then is at `q`. */
  ghost predicate Part(next: Links, p: int, s: seq<Node>, q: int)
    decreases |s|
  {
    if s == [] then p == q else p == s[0] && s[0] in next && Part(next, next[s[0]], s[1..], q)
  }

  lemma {:induction false} PartElsewhere(next: Links, p: int, s: seq<Node>, q: int, n: Node, v: int)
    requires Part(next, p, s, q) && n !in s
    ensures Part(next[n := v], p, s, q)
    decreases |s|
  {
    if s != [] {
      PartElsewhere(next, next[s[0]], s[1..], q, n, v);
    }
  }

  lemma {:induction false} PartMore(next: Links, p: int, s: seq<Node>, q: int)
    requires Part(next, p, s, q) && q >= 0 && q in next
    ensures Part(next, p, s + [q as Node], next[q])
    decreases |s|
  {
    assert (s + [q as Node])[1..] == if s == [] then [] else s[1..] + [q as Node];
    if s != [] {
      PartMore(next, next[s[0]], s[1..], q);
    }
  }

  lemma {:induction false} PartChain(next: Links, p: int, s: seq<Node>, q: int, t: seq<Node>)
    requires Part(next, p, s, q) && Chain(next, q, t)
    ensures Chain(next, p, s + t)
    decreases |s|
  {
    if s == [] {
      assert s + t == t;
    } else {
      assert (s + t)[1..] == s[1..] + t;
      PartChain(next, next[s[0]], s[1..], q, t);
    }
  }

  /** Changing the link of the last node of a part. */
  lemma {:induction false} PartEnd(next: Links, p: int, s: seq<Node>, q: int, v: int)
    requires Part(next, p, s, q) && s != [] && Distinct(s)
    ensures Part(next[s[|s| - 1] := v], p, s, v)
    decreases |s|
  {
    if |s| > 1 {
      TailDistinct(s);
      assert s[|s| - 1] == s[1..][|s| - 2];
      PartEnd(next, next[s[0]], s[1..], q, v);
    }
  }
}
