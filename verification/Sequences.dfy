/** Sequences without repetition. */
module Sequences {

  ghost predicate Distinct<T>(s: seq<T>) {
    forall i, j :: 0 <= i < j < |s| ==> s[i] != s[j]
  }

  lemma SingleDistinct<T>(x: T)
    ensures Distinct([x])
  {
  }

  lemma TailDistinct<T>(s: seq<T>)
    requires Distinct(s) && s != []
    ensures Distinct(s[1..])
    ensures forall x :: x in s[1..] <==> x in s && x != s[0]
  {
    assert s == [s[0]] + s[1..];
    assert forall i :: 0 <= i < |s| - 1 ==> s[1..][i] == s[i + 1];
  }

  lemma JoinDistinct<T>(a: seq<T>, b: seq<T>)
    requires Distinct(a) && Distinct(b) && forall x :: x in a ==> x !in b
    ensures Distinct(a + b)
    ensures forall x :: x in a + b <==> x in a || x in b
  {
    var c := a + b;
    forall i, j | 0 <= i < j < |c|
      ensures c[i] != c[j]
    {
      assert i < |a| ==> c[i] in a;
      assert |a| <= j ==> c[j] in b;
    }
  }

  lemma {:induction false} DistinctBound(s: seq<nat>, k: nat)
    requires Distinct(s) && forall n :: n in s ==> n < k
    ensures |s| <= k
  {
    assert |s| > 0 ==> s[0] in s;
    if 0 < k && k - 1 in s {
      var i :| 0 <= i < |s| && s[i] == k - 1;
      var r := s[..i] + s[i + 1..];
      assert forall j :: 0 <= j < |r| ==> r[j] == s[if j < i then j else j + 1];
      assert forall j :: 0 <= j < |r| ==> r[j] in s && r[j] != s[i];
      DistinctBound(r, k - 1);
    } else if 0 < k {
      DistinctBound(s, k - 1);
    }
  }
}
