/** The timer list under callbacks: what starting a timer amounts to, and what a whole check
    does.

    All comparisons are modulo 2^32.  They mean what they should while the pending timeouts and
    the current tick lie in one half of the range, seen from some origin `o`.
 */
module TimerLemmas {
  import opened Sequences
  import opened Ticks
  import opened TimerModel
  import opened TimerRows

  ghost function KeyOf(o: Tick, timers: Timers): Key {
    (id: Id) => Age(o, Due(timers, id))
  }

  /** Every row is in order, and a part of the row below. */
  ghost predicate RowsOk(rows: seq<seq<Id>>, key: Key) {
    && (forall r :: 0 <= r < |rows| ==> Sorted(rows[r], key) && Distinct(rows[r]))
    && (forall i, j :: 0 <= i && j == i + 1 && j < |rows| ==> Subsequence(rows[i], rows[j]))
  }

  ghost predicate InWindow(row: seq<Id>, o: Tick, timers: Timers) {
    forall x :: x in row ==> x in timers && Age(o, timers[x].timeout) < HALF
  }

  // ---- Rows -------------------------------------------------------------------------------

  lemma KeysAgree(row: seq<Id>, key: Key, key': Key)
    requires forall x :: x in row ==> key(x) == key'(x)
    ensures Sorted(row, key) <==> Sorted(row, key')
  {
    assert forall i :: 0 <= i < |row| ==> row[i] in row;
  }

  lemma {:induction false} PlaceAgree(row: seq<Id>, key: Key, key': Key, k: int)
    requires forall x :: x in row ==> key(x) == key'(x)
    ensures Place(row, key, k) == Place(row, key', k)
  {
    if row != [] {
      assert row == [row[0]] + row[1..];
      PlaceAgree(row[1..], key, key', k);
    }
  }

  lemma {:induction false} RowInBottom(rows: seq<seq<Id>>, key: Key, r: nat)
    requires RowsOk(rows, key) && r < |rows|
    ensures forall x :: x in rows[r] ==> x in rows[|rows| - 1]
    decreases |rows| - r
  {
    hide Sorted, Distinct, Subsequence;
    if r + 1 < |rows| {
      RowInBottom(rows, key, r + 1);
      SubsequenceMember(rows[r], rows[r + 1]);
    }
  }

  /** Scanning from anywhere before the right place ends at the right place. */
  lemma {:induction false} ScanIsPlace(row: seq<Id>, p: nat, timers: Timers, t: Tick, o: Tick)
    requires p <= |row| && InWindow(row, o, timers) && Age(o, t) < HALF
    requires Sorted(row, KeyOf(o, timers)) && p <= Place(row, KeyOf(o, timers), Age(o, t))
    ensures Scan(row, p, timers, t) == Place(row, KeyOf(o, timers), Age(o, t))
    decreases |row| - p
  {
    hide Age, Sorted;
    var key := KeyOf(o, timers);
    PlaceSplits(row, key, Age(o, t));
    if p < |row| {
      assert row[p] in row;
      LaterIff(o, Due(timers, row[p]), t);
      if p < Place(row, key, Age(o, t)) {
        ScanIsPlace(row, p + 1, timers, t, o);
      }
    }
  }

  /** Going down from a timer that is not later than `k` stays before the right place. */
  lemma DownIsBefore(upper: seq<Id>, lower: seq<Id>, key: Key, k: int)
    requires Subsequence(upper, lower) && Sorted(lower, key)
    ensures Down(upper, Place(upper, key, k), lower) <= Place(lower, key, k)
  {
    hide Subsequence, Sorted, IndexOf;
    var p := Place(upper, key, k);
    SubsequenceMember(upper, lower);
    PlaceSplits(lower, key, k);
    if 0 < p {
      assert key(upper[p - 1]) <= k;
    }
  }

  /** The skip list finds in every row the place of a plain stable sorted insert. */
  lemma {:induction false} PositionIsPlace(rows: seq<seq<Id>>, timers: Timers, t: Tick, r: nat, o: Tick)
    requires r < |rows| && RowsOk(rows, KeyOf(o, timers)) && InWindow(rows[|rows| - 1], o, timers) && Age(o, t) < HALF
    ensures Position(rows, timers, t, r) == Place(rows[r], KeyOf(o, timers), Age(o, t))
  {
    hide Sorted, Distinct, Subsequence, InWindow, Age, Scan;
    var key := KeyOf(o, timers);
    RowInBottom(rows, key, r);
    WindowPart(rows[r], rows[|rows| - 1], o, timers);
    if 0 < r {
      PositionIsPlace(rows, timers, t, r - 1, o);
      assert Subsequence(rows[r - 1], rows[r - 1 + 1]);
      DownIsBefore(rows[r - 1], rows[r], key, Age(o, t));
      ScanIsPlace(rows[r], Down(rows[r - 1], Position(rows, timers, t, r - 1), rows[r]), timers, t, o);
    } else {
      ScanIsPlace(rows[0], 0, timers, t, o);
    }
  }

  lemma WindowPart(row: seq<Id>, bottom: seq<Id>, o: Tick, timers: Timers)
    requires InWindow(bottom, o, timers) && forall x :: x in row ==> x in bottom
    ensures InWindow(row, o, timers)
  {
  }

  ghost predicate Without(rows: seq<seq<Id>>, x: Id) {
    forall r :: 0 <= r < |rows| ==> x !in rows[r]
  }

  /** Linking in the lowest rows, each time at the place of a stable sorted insert, keeps the
      rows in order and parts of one another. */
  lemma LinkKeeps(rows: seq<seq<Id>>, timers: Timers, x: Id, t: Tick, top: nat, o: Tick)
    requires RowsOk(rows, KeyOf(o, timers)) && Without(rows, x) && 0 < |rows|
    requires InWindow(rows[|rows| - 1], o, timers) && Age(o, t) < HALF && x in timers && timers[x].timeout == t
    ensures RowsOk(LinkRows(rows, timers, x, t, top), KeyOf(o, timers))
    ensures forall r :: 0 <= r < |rows| ==>
      LinkRows(rows, timers, x, t, top)[r] == if r < top then rows[r] else Insert(rows[r], x, KeyOf(o, timers))
  {
    hide Sorted, Distinct, Subsequence, InWindow, Age, Position, Insert, Place;
    var key := KeyOf(o, timers);
    var q := LinkRows(rows, timers, x, t, top);
    forall r | 0 <= r < |rows|
      ensures q[r] == if r < top then rows[r] else Insert(rows[r], x, key)
      ensures Sorted(q[r], key) && Distinct(q[r])
    {
      PositionIsPlace(rows, timers, t, r, o);
      PutIsInsert(rows[r], x, key);
      InsertSorted(rows[r], x, key);
      InsertMembers(rows[r], x, key);
    }
    forall i, j | 0 <= i && j == i + 1 && j < |rows|
      ensures Subsequence(q[i], q[j])
    {
      InsertBelow(rows[i], rows[j], x, key);
      InsertBoth(rows[i], rows[j], x, key);
    }
  }

  lemma PutIsInsert(row: seq<Id>, x: Id, key: Key)
    ensures PutAt(row, Place(row, key, key(x)), x) == Insert(row, x, key)
  {
  }

  lemma RemoveKeeps(rows: seq<seq<Id>>, x: Id, key: Key)
    requires RowsOk(rows, key)
    ensures RowsOk(RemoveRows(rows, x), key) && Without(RemoveRows(rows, x), x)
  {
    hide Sorted, Distinct, Subsequence, Remove;
    var q := RemoveRows(rows, x);
    forall r | 0 <= r < |rows|
      ensures Sorted(q[r], key) && Distinct(q[r]) && x !in q[r]
    {
      RemoveSorted(rows[r], x, key);
      RemoveMembers(rows[r], x);
    }
    forall i, j | 0 <= i && j == i + 1 && j < |rows|
      ensures Subsequence(q[i], q[j])
    {
      RemoveBoth(rows[i], rows[j], x);
    }
  }

  lemma RowsAgree(rows: seq<seq<Id>>, key: Key, key': Key)
    requires RowsOk(rows, key) && 0 < |rows|
    requires forall x :: x in rows[|rows| - 1] ==> key(x) == key'(x)
    ensures RowsOk(rows, key')
  {
    hide Sorted, Distinct, Subsequence;
    forall r | 0 <= r < |rows|
      ensures Sorted(rows[r], key')
    {
      RowInBottom(rows, key, r);
      KeysAgree(rows[r], key, key');
    }
  }

  // ---- The part of the bottom row that is due ---------------------------------------------

  /** The timers at the front whose key is at most `k`. */
  ghost function Upto(row: seq<Id>, key: Key, k: int): seq<Id> {
    row[..Place(row, key, k)]
  }

  lemma UptoFirst(row: seq<Id>, key: Key, k: int)
    requires row != []
    ensures Upto(row, key, k) == if k < key(row[0]) then [] else [row[0]] + Upto(row[1..], key, k)
  {
  }

  lemma {:induction false} UptoAgree(row: seq<Id>, key: Key, key': Key, k: int)
    requires forall x :: x in row ==> key(x) == key'(x)
    ensures Upto(row, key, k) == Upto(row, key', k)
  {
    PlaceAgree(row, key, key', k);
  }

  lemma {:induction false} UptoRemove(row: seq<Id>, x: Id, key: Key, k: int)
    requires Sorted(row, key)
    ensures Upto(Remove(row, x), key, k) == Remove(Upto(row, key, k), x)
  {
    hide Sorted, Upto;
    if row == [] {
      UptoNone(key, k);
    } else {
      var rest := Remove(row[1..], x);
      UptoFirst(row, key, k);
      TailSorted(row, key);
      UptoRemove(row[1..], x, key, k);
      if row[0] == x {
        if k < key(row[0]) && row[1..] != [] {
          assert row[1..][0] in row[1..];
          UptoFirst(row[1..], key, k);
        }
        if row[1..] == [] {
          UptoNone(key, k);
        }
      } else {
        UptoFirst([row[0]] + rest, key, k);
        assert ([row[0]] + rest)[1..] == rest;
      }
    }
  }

  lemma UptoNone(key: Key, k: int)
    ensures Upto([], key, k) == []
  {
  }

  /** A timer that is not due does not count when it is put in its place. */
  lemma {:induction false} UptoInsert(row: seq<Id>, x: Id, key: Key, k: int)
    requires Sorted(row, key) && k < key(x)
    ensures Upto(Insert(row, x, key), key, k) == Upto(row, key, k)
  {
    hide Sorted, Upto, Insert;
    if row == [] || key(x) < key(row[0]) {
      InsertInFront(row, x, key);
      UptoFirst([x] + row, key, k);
      if row == [] {
        UptoNone(key, k);
      } else {
        UptoFirst(row, key, k);
      }
    } else {
      InsertTail(row, x, key);
      TailSorted(row, key);
      UptoInsert(row[1..], x, key, k);
      var rest := Insert(row[1..], x, key);
      UptoFirst([row[0]] + rest, key, k);
      assert ([row[0]] + rest)[1..] == rest;
      UptoFirst(row, key, k);
    }
  }
}
