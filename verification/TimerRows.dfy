/** The rows of the timer skip list as sequences: row 0 is the sparsest, the last row holds every
    timer.  Order is that of an integer key.
 */
module TimerRows {
  import opened Sequences

  type Id = nat
  type Key = Id -> int

  ghost predicate Sorted(row: seq<Id>, key: Key) {
    forall i, j :: 0 <= i < j < |row| ==> key(row[i]) <= key(row[j])
  }

  /** The first position whose key is greater than `k`: where a plain stable sorted insert puts a
      new element, behind those of the same key. */
  function Place(row: seq<Id>, key: Key, k: int): (p: nat)
    ensures p <= |row|
    ensures forall i :: 0 <= i < p ==> key(row[i]) <= k
    ensures p < |row| ==> k < key(row[p])
  {
    if row == [] || k < key(row[0]) then 0 else 1 + Place(row[1..], key, k)
  }

  function Insert(row: seq<Id>, x: Id, key: Key): seq<Id> {
    var p := Place(row, key, key(x));
    row[..p] + [x] + row[p..]
  }

  function Remove(row: seq<Id>, x: Id): seq<Id> {
    if row == [] then [] else if row[0] == x then Remove(row[1..], x) else [row[0]] + Remove(row[1..], x)
  }

  /** `a` is `b` with some elements left out. */
  ghost predicate Subsequence(a: seq<Id>, b: seq<Id>)
    decreases |b|
  {
    if a == [] then true
    else if b == [] then false
    else if a[0] == b[0] then Subsequence(a[1..], b[1..])
    else Subsequence(a, b[1..])
  }

  lemma {:induction false} SubsequenceMember(a: seq<Id>, b: seq<Id>)
    requires Subsequence(a, b)
    ensures forall x :: x in a ==> x in b
    decreases |b|
  {
    if a != [] {
      assert a == [a[0]] + a[1..];
      assert b == [b[0]] + b[1..];
      if a[0] == b[0] {
        SubsequenceMember(a[1..], b[1..]);
      } else {
        SubsequenceMember(a, b[1..]);
      }
    }
  }

  lemma {:induction false} SubsequenceSelf(a: seq<Id>)
    ensures Subsequence(a, a)
  {
    if a != [] {
      SubsequenceSelf(a[1..]);
    }
  }

  lemma TailSorted(row: seq<Id>, key: Key)
    requires Sorted(row, key) && row != []
    ensures Sorted(row[1..], key)
    ensures forall x :: x in row[1..] ==> key(row[0]) <= key(x)
  {
    assert forall i :: 0 <= i < |row| - 1 ==> row[1..][i] == row[i + 1];
  }

  lemma PlaceSplits(row: seq<Id>, key: Key, k: int)
    requires Sorted(row, key)
    ensures var p := Place(row, key, k);
      forall i :: 0 <= i < |row| ==> (key(row[i]) <= k <==> i < p)
  {
    var p := Place(row, key, k);
    assert forall i :: p < i < |row| ==> key(row[p]) <= key(row[i]);
  }

  lemma InsertAt(row: seq<Id>, x: Id, key: Key, i: nat)
    requires i <= |row|
    ensures |Insert(row, x, key)| == |row| + 1
    ensures var p := Place(row, key, key(x));
      Insert(row, x, key)[i] == if i < p then row[i] else if i == p then x else row[i - 1]
  {
    hide Place;
  }

  lemma InsertSorted(row: seq<Id>, x: Id, key: Key)
    requires Sorted(row, key)
    ensures Sorted(Insert(row, x, key), key)
  {
    hide Insert;
    PlaceSplits(row, key, key(x));
    InsertAt(row, x, key, 0);
    var p, r := Place(row, key, key(x)), Insert(row, x, key);
    hide Place;
    forall i, j | 0 <= i < j < |r|
      ensures key(r[i]) <= key(r[j])
    {
      InsertAt(row, x, key, i);
      InsertAt(row, x, key, j);
    }
  }

  lemma InsertMembers(row: seq<Id>, x: Id, key: Key)
    requires Distinct(row) && x !in row
    ensures Distinct(Insert(row, x, key))
    ensures forall y :: y in Insert(row, x, key) <==> y in row || y == x
  {
    hide Place, Insert;
    InsertAt(row, x, key, 0);
    var p, r := Place(row, key, key(x)), Insert(row, x, key);
    forall i, j | 0 <= i < j < |r|
      ensures r[i] != r[j]
    {
      InsertAt(row, x, key, i);
      InsertAt(row, x, key, j);
    }
    forall y
      ensures y in r <==> y in row || y == x
    {
      InsertHas(row, x, key, y);
    }
  }

  lemma InsertHas(row: seq<Id>, x: Id, key: Key, y: Id)
    ensures y in Insert(row, x, key) <==> y in row || y == x
  {
    hide Place;
    var p := Place(row, key, key(x));
    assert row == row[..p] + row[p..];
  }

  lemma {:induction false} RemoveMembers(row: seq<Id>, x: Id)
    ensures forall y :: y in Remove(row, x) <==> y in row && y != x
    ensures Distinct(row) ==> Distinct(Remove(row, x))
  {
    if row != [] {
      assert row == [row[0]] + row[1..];
      RemoveMembers(row[1..], x);
      if Distinct(row) {
        TailDistinct(row);
        if row[0] != x {
          SingleDistinct(row[0]);
          JoinDistinct([row[0]], Remove(row[1..], x));
        }
      }
    }
  }

  lemma PrependSorted(y: Id, row: seq<Id>, key: Key)
    requires Sorted(row, key) && forall x :: x in row ==> key(y) <= key(x)
    ensures Sorted([y] + row, key)
  {
    var r := [y] + row;
    assert forall i :: 0 < i < |r| ==> r[i] == row[i - 1] && row[i - 1] in row;
  }

  lemma {:induction false} RemoveSorted(row: seq<Id>, x: Id, key: Key)
    requires Sorted(row, key)
    ensures Sorted(Remove(row, x), key)
  {
    if row != [] {
      TailSorted(row, key);
      RemoveSorted(row[1..], x, key);
      RemoveMembers(row[1..], x);
      PrependSorted(row[0], Remove(row[1..], x), key);
    }
  }

  lemma {:induction false} RemoveAt(row: seq<Id>, x: Id, i: nat)
    requires Distinct(row) && i < |row| && row[i] == x
    ensures Remove(row, x) == row[..i] + row[i + 1..]
  {
    if i == 0 {
      TailDistinct(row);
      RemoveAbsent(row[1..], x);
    } else {
      TailDistinct(row);
      RemoveAt(row[1..], x, i - 1);
      assert row[..i] + row[i + 1..] == [row[0]] + (row[1..][..i - 1] + row[1..][i..]);
    }
  }

  lemma {:induction false} RemoveAbsent(row: seq<Id>, x: Id)
    requires x !in row
    ensures Remove(row, x) == row
  {
    if row != [] {
      RemoveAbsent(row[1..], x);
    }
  }

  // ---- One row above another --------------------------------------------------------------

  /** Inserting below only keeps the row above a part of the row below. */
  lemma {:induction false} InsertBelow(a: seq<Id>, b: seq<Id>, x: Id, key: Key)
    requires Subsequence(a, b) && x !in a
    ensures Subsequence(a, Insert(b, x, key))
    decreases |b|
  {
    var r := Insert(b, x, key);
    if a == [] {
    } else if Place(b, key, key(x)) == 0 {
      assert r[1..] == b;
    } else {
      assert r[1..] == Insert(b[1..], x, key);
      if a[0] == b[0] {
        InsertBelow(a[1..], b[1..], x, key);
      } else {
        InsertBelow(a, b[1..], x, key);
      }
    }
  }

  lemma InsertTail(a: seq<Id>, x: Id, key: Key)
    requires a != []
    ensures key(x) < key(a[0]) ==> Insert(a, x, key) == [x] + a
    ensures key(a[0]) <= key(x) ==> Insert(a, x, key) == [a[0]] + Insert(a[1..], x, key)
  {
  }

  /** Inserting in both rows does too: this needs the order of the row below. */
  lemma {:induction false} InsertBoth(a: seq<Id>, b: seq<Id>, x: Id, key: Key)
    requires Subsequence(a, b) && Sorted(b, key) && x !in b
    ensures Subsequence(Insert(a, x, key), Insert(b, x, key))
    decreases |b|
  {
    SubsequenceMember(a, b);
    if b == [] {
      SubsequenceSelf([x]);
    } else {
      TailSorted(b, key);
      InsertTail(b, x, key);
      assert b == [b[0]] + b[1..];
      if key(x) < key(b[0]) {
        AllLater(a, b, x, key);
        assert ([x] + a)[1..] == a && ([x] + b)[1..] == b;
      } else if a != [] && a[0] == b[0] {
        InsertTail(a, x, key);
        InsertBoth(a[1..], b[1..], x, key);
      } else {
        InsertBoth(a, b[1..], x, key);
        InsertFirst(a, b, x, key);
      }
    }
  }

  lemma AllLater(a: seq<Id>, b: seq<Id>, x: Id, key: Key)
    requires Subsequence(a, b) && Sorted(b, key) && b != [] && key(x) < key(b[0])
    ensures Insert(a, x, key) == [x] + a && Insert(b, x, key) == [x] + b
  {
    hide Subsequence, Sorted;
    TailSorted(b, key);
    assert b == [b[0]] + b[1..];
    InsertInFront(b, x, key);
    if a != [] {
      SubsequenceMember(a, b);
      assert a[0] in b;
    }
    InsertInFront(a, x, key);
  }

  lemma InsertInFront(a: seq<Id>, x: Id, key: Key)
    requires a == [] || key(x) < key(a[0])
    ensures Insert(a, x, key) == [x] + a
  {
  }

  lemma InsertFirst(a: seq<Id>, b: seq<Id>, x: Id, key: Key)
    requires b != [] && x != b[0] && (a != [] ==> a[0] != b[0]) && key(b[0]) <= key(x)
    requires Subsequence(Insert(a, x, key), Insert(b[1..], x, key))
    ensures Subsequence(Insert(a, x, key), Insert(b, x, key))
  {
    var r, q := Insert(a, x, key), Insert(b, x, key);
    InsertTail(b, x, key);
    assert q[0] == b[0] && q[1..] == Insert(b[1..], x, key);
    assert r[0] == x || (a != [] && r[0] == a[0]);
  }

  lemma {:induction false} RemoveBoth(a: seq<Id>, b: seq<Id>, x: Id)
    requires Subsequence(a, b)
    ensures Subsequence(Remove(a, x), Remove(b, x))
    decreases |b|
  {
    if a != [] {
      if a[0] == b[0] {
        RemoveBoth(a[1..], b[1..], x);
      } else {
        RemoveBoth(a, b[1..], x);
        if b[0] != x {
          SkipFirst(Remove(a, x), b[0], Remove(b[1..], x));
        }
      }
    }
  }

  lemma {:induction false} SkipFirst(a: seq<Id>, y: Id, b: seq<Id>)
    requires Subsequence(a, b)
    ensures Subsequence(a, [y] + b)
    decreases |b|, 1
  {
    assert ([y] + b)[1..] == b;
    if a != [] && a[0] == y {
      DropOne(a, b);
    }
  }

  lemma {:induction false} DropOne(a: seq<Id>, b: seq<Id>)
    requires Subsequence(a, b) && a != []
    ensures Subsequence(a[1..], b)
    decreases |b|, 0
  {
    if a[0] == b[0] {
      if a[1..] != [] {
        assert b == [b[0]] + b[1..];
        SkipFirst(a[1..], b[0], b[1..]);
      }
    } else {
      DropOne(a, b[1..]);
      assert b == [b[0]] + b[1..];
      SkipFirst(a[1..], b[0], b[1..]);
    }
  }
}
