/** The rows of the timer list as rings of link nodes.

    The nodes of a timer are `row[0], row[1], ...`, one after the other in memory: node number
    id * levels + r.  The heads of the rows are those of number 0, and the temporary list of
    rt_timer_check has the head TEMP.
 */
module TimerLinks {
  import opened Division
  import opened Rings
  import opened RtList
  import opened Sequences
  import TimerRows
  import opened TimerModel

  type Id = TimerRows.Id

  const TEMP: Node := -1

  function NodeOf(id: Id, r: nat, levels: nat): Node {
    id * levels + r
  }

  function IdOf(n: nat, levels: nat): Id
    requires 0 < levels
  {
    n / levels
  }

  lemma NodeIs(id: Id, r: nat, levels: nat)
    requires r < levels
    ensures NodeOf(id, r, levels) >= 0 && IdOf(NodeOf(id, r, levels), levels) == id
  {
    var n := NodeOf(id, r, levels);
    assert n == n / levels * levels + n % levels;
    SameQuotient(id, r, n / levels, n % levels, levels);
  }

  lemma NodesDiffer(a: Id, r: nat, b: Id, q: nat, levels: nat)
    requires r < levels && q < levels && NodeOf(a, r, levels) == NodeOf(b, q, levels)
    ensures a == b && r == q
  {
    SameQuotient(a, r, b, q, levels);
  }

  ghost function RowRing(row: seq<Id>, r: nat, levels: nat): (s: seq<Node>)
    ensures |s| == |row| + 1
  {
    [NodeOf(0, r, levels)] + seq(|row|, i requires 0 <= i < |row| => NodeOf(row[i], r, levels))
  }

  ghost function TempRing(temp: seq<Id>, levels: nat): (s: seq<Node>)
    requires 0 < levels
    ensures |s| == |temp| + 1
  {
    [TEMP] + seq(|temp|, i requires 0 <= i < |temp| => NodeOf(temp[i], levels - 1, levels))
  }

  ghost function AllRows(rows: seq<seq<Id>>, temp: seq<Id>): (s: seq<seq<Node>>)
    requires 0 < |rows|
    ensures |s| == |rows| + 1
  {
    seq(|rows|, r requires 0 <= r < |rows| => RowRing(rows[r], r, |rows|)) + [TempRing(temp, |rows|)]
  }

  /** The links of all nodes, for the given rows. */
  ghost predicate RowsLinked(l: Links, rows: seq<seq<Id>>, temp: seq<Id>, ids: set<Id>, all: set<Node>) {
    && 0 < |rows| && 0 !in ids
    && Linked(l, AllRows(rows, temp), all)
    && (forall id, r: nat :: id in ids && r < |rows| ==> NodeOf(id, r, |rows|) in all)
    && (forall r, x :: 0 <= r < |rows| && x in rows[r] ==> x in ids)
    && (forall x :: x in temp ==> x in ids && x !in rows[|rows| - 1])
    && |temp| <= 1 && Nested(rows)
  }

  ghost predicate Nested(rows: seq<seq<Id>>) {
    forall i, j, x :: 0 <= i && j == i + 1 && j < |rows| && x in rows[i] ==> x in rows[j]
  }

  /** Where the nodes of a timer are. */
  lemma NodeLoose(rows: seq<seq<Id>>, temp: seq<Id>, x: Id, r: nat)
    requires 0 < |rows| && r < |rows| && x != 0 && x !in rows[r] && (r == |rows| - 1 ==> x !in temp)
    ensures Loose(AllRows(rows, temp), NodeOf(x, r, |rows|))
  {
    var s, n := AllRows(rows, temp), NodeOf(x, r, |rows|);
    NodeIs(x, r, |rows|);
    forall k | 0 <= k < |s|
      ensures n !in s[k]
    {
      if k < |rows| {
        NotInRow(rows[k], k, |rows|, x, r);
      } else {
        NotInTemp(temp, |rows|, x, r);
      }
    }
  }

  lemma NotInRow(row: seq<Id>, k: nat, levels: nat, x: Id, r: nat)
    requires k < levels && r < levels && x != 0 && (k == r ==> x !in row)
    ensures NodeOf(x, r, levels) !in RowRing(row, k, levels)
  {
    var n, s := NodeOf(x, r, levels), RowRing(row, k, levels);
    forall i | 0 <= i < |s|
      ensures s[i] != n
    {
      if s[i] == n {
        NodesDiffer(if i == 0 then 0 else row[i - 1], k, x, r, levels);
      }
    }
  }

  lemma NotInTemp(temp: seq<Id>, levels: nat, x: Id, r: nat)
    requires r < levels && (r == levels - 1 ==> x !in temp)
    ensures NodeOf(x, r, levels) !in TempRing(temp, levels)
  {
    var n, s := NodeOf(x, r, levels), TempRing(temp, levels);
    NodeIs(x, r, levels);
    forall i | 0 <= i < |s|
      ensures s[i] != n
    {
      if s[i] == n {
        NodesDiffer(temp[i - 1], levels - 1, x, r, levels);
      }
    }
  }

  // ---- Putting a node into a row ----------------------------------------------------------

  lemma RowRingPut(row: seq<Id>, r: nat, levels: nat, p: nat, x: Id)
    requires p <= |row|
    ensures Inserted(RowRing(row, r, levels), p, NodeOf(x, r, levels)) == RowRing(PutAt(row, p, x), r, levels)
  {
  }

  lemma RingsPut(rows: seq<seq<Id>>, temp: seq<Id>, r: nat, p: nat, x: Id)
    requires r < |rows| && p <= |rows[r]|
    ensures WithNode(AllRows(rows, temp), r, p, NodeOf(x, r, |rows|)) == AllRows(rows[r := PutAt(rows[r], p, x)], temp)
  {
    RowRingPut(rows[r], r, |rows|, p, x);
  }

  lemma TempRingPut(x: Id, levels: nat)
    requires 0 < levels
    ensures Inserted(TempRing([], levels), 0, NodeOf(x, levels - 1, levels)) == TempRing([x], levels)
  {
  }

  lemma PutHas(row: seq<Id>, p: nat, x: Id)
    requires p <= |row|
    ensures forall y :: y in PutAt(row, p, x) <==> y in row || y == x
  {
    assert row == row[..p] + row[p..];
  }

  /** rt_list_insert_after, of the node of `x` in row `r`, when the rows below have it already. */
  lemma PutLinked(l: Links, rows: seq<seq<Id>>, temp: seq<Id>, ids: set<Id>, all: set<Node>, r: nat, p: nat, x: Id)
    requires RowsLinked(l, rows, temp, ids, all) && r < |rows| && p <= |rows[r]|
    requires x in ids && x !in rows[r] && x !in temp && (r + 1 < |rows| ==> x in rows[r + 1])
    ensures var h := RowRing(rows[r], r, |rows|)[p];
      && h in l.next
      && RowsLinked(LinkAfter(l, h, NodeOf(x, r, |rows|)), rows[r := PutAt(rows[r], p, x)], temp, ids, all)
  {
    hide Linked, LinkAfter, RowRing, TempRing, Loose, PutAt, NodeOf;
    NodeLoose(rows, temp, x, r);
    InsertLinked(l, AllRows(rows, temp), all, r, p, NodeOf(x, r, |rows|));
    RingsPut(rows, temp, r, p, x);
    PutHas(rows[r], p, x);
  }

  /** The node of the timer that fires goes to the temporary list. */
  lemma TempLinked(l: Links, rows: seq<seq<Id>>, ids: set<Id>, all: set<Node>, x: Id)
    requires RowsLinked(l, rows, [], ids, all) && x in ids && x !in rows[|rows| - 1]
    ensures TEMP in l.next
    ensures RowsLinked(LinkAfter(l, TEMP, NodeOf(x, |rows| - 1, |rows|)), rows, [x], ids, all)
  {
    hide Linked, LinkAfter, Loose, NodeOf, RowRing;
    NodeLoose(rows, [], x, |rows| - 1);
    var n := NodeOf(x, |rows| - 1, |rows|);
    InsertLinked(l, AllRows(rows, []), all, |rows|, 0, n);
    TempRingPut(x, |rows|);
    assert WithNode(AllRows(rows, []), |rows|, 0, n) == AllRows(rows, [x]);
  }

  // ---- Taking a node out of a row ---------------------------------------------------------

  function DropAt(row: seq<Id>, i: nat): seq<Id>
    requires i < |row|
  {
    row[..i] + row[i + 1..]
  }

  lemma RowRingDrop(row: seq<Id>, r: nat, levels: nat, i: nat)
    requires i < |row|
    ensures Without(RowRing(row, r, levels), i + 1) == RowRing(DropAt(row, i), r, levels)
  {
  }

  lemma RingsDrop(rows: seq<seq<Id>>, temp: seq<Id>, r: nat, i: nat)
    requires r < |rows| && i < |rows[r]|
    ensures WithoutNode(AllRows(rows, temp), r, i + 1) == AllRows(rows[r := DropAt(rows[r], i)], temp)
  {
    RowRingDrop(rows[r], r, |rows|, i);
  }

  lemma {:induction false} DropIsRemove(row: seq<Id>, i: nat)
    requires i < |row| && Distinct(row)
    ensures DropAt(row, i) == TimerRows.Remove(row, row[i])
  {
    TimerRows.RemoveAt(row, row[i], i);
  }

  lemma RowDistinct(l: Links, row: seq<Id>, r: nat, levels: nat)
    requires IsRing(l, RowRing(row, r, levels))
    ensures Distinct(row)
  {
    var s := RowRing(row, r, levels);
    RingDistinct(l, s);
    forall i, j | 0 <= i < j < |row|
      ensures row[i] != row[j]
    {
      assert s[i + 1] != s[j + 1];
    }
  }

  /** Two rows of the same list, one with `x` taken out of row `r`, and out of the temporary
      list if that is the last row. */
  ghost function Taken(rows: seq<seq<Id>>, r: nat, x: Id): seq<seq<Id>>
    requires r < |rows|
  {
    rows[r := TimerRows.Remove(rows[r], x)]
  }

  ghost function TakenTemp(rows: seq<seq<Id>>, temp: seq<Id>, r: nat, x: Id): seq<Id> {
    if r == |rows| - 1 then TimerRows.Remove(temp, x) else temp
  }

  /** What a step of _rt_timer_remove does to the links of the rows. */
  lemma TakeLinked(l: Links, rows: seq<seq<Id>>, temp: seq<Id>, all: set<Node>, r: nat, x: Id)
    requires 0 < |rows| && Linked(l, AllRows(rows, temp), all) && r < |rows| && x != 0 && |temp| <= 1
    requires NodeOf(x, r, |rows|) in all && forall y :: y in temp ==> y !in rows[|rows| - 1]
    ensures var n := NodeOf(x, r, |rows|);
      && n in l.next && n in l.prev && l.next[n] in l.prev && l.prev[n] in l.next
      && Linked(Isolate(Unlink(l, n), n), AllRows(Taken(rows, r, x), TakenTemp(rows, temp, r, x)), all)
  {
    hide Linked, Unlink, Isolate, IsRing, Loose, RowRing, TempRing, WithoutNode, NodeOf;
    var n, s := NodeOf(x, r, |rows|), AllRows(rows, temp);
    TimerRows.RemoveAbsent(if x in temp then [] else temp, x);
    if x in rows[r] {
      var i :| 0 <= i < |rows[r]| && rows[r][i] == x;
      AtRow(l, rows, temp, all, r);
      RowDistinct(l, rows[r], r, |rows|);
      RowAt(rows[r], r, |rows|, i);
      RemoveLinked(l, s, all, r, i + 1);
      RingNeighbours(l, s[r], i + 1);
      RingsDrop(rows, temp, r, i);
      DropIsRemove(rows[r], i);
    } else if r == |rows| - 1 && x in temp {
      assert temp == [x];
      AtTemp(l, rows, temp, all);
      TempAt(x, |rows|);
      RemoveLinked(l, s, all, |rows|, 1);
      RingNeighbours(l, s[|rows|], 1);
      TimerRows.RemoveAbsent(rows[r], x);
      RingsDropTemp(rows, x);
      assert Taken(rows, r, x) == rows;
    } else {
      TimerRows.RemoveAbsent(rows[r], x);
      NodeLoose(rows, temp, x, r);
      RemoveLoose(l, s, all, n);
      SameLinks(l, n);
      assert Taken(rows, r, x) == rows;
    }
  }

  lemma AtRow(l: Links, rows: seq<seq<Id>>, temp: seq<Id>, all: set<Node>, r: nat)
    requires 0 < |rows| && Linked(l, AllRows(rows, temp), all) && r < |rows|
    ensures IsRing(l, RowRing(rows[r], r, |rows|))
  {
    hide IsRing;
    assert AllRows(rows, temp)[r] == RowRing(rows[r], r, |rows|);
  }

  lemma AtTemp(l: Links, rows: seq<seq<Id>>, temp: seq<Id>, all: set<Node>)
    requires 0 < |rows| && Linked(l, AllRows(rows, temp), all)
    ensures IsRing(l, TempRing(temp, |rows|))
  {
    hide IsRing;
    assert AllRows(rows, temp)[|rows|] == TempRing(temp, |rows|);
  }

  lemma RowAt(row: seq<Id>, r: nat, levels: nat, i: nat)
    requires i < |row|
    ensures RowRing(row, r, levels)[i + 1] == NodeOf(row[i], r, levels)
  {
  }

  lemma TempAt(x: Id, levels: nat)
    requires 0 < levels
    ensures TempRing([x], levels)[1] == NodeOf(x, levels - 1, levels)
    ensures Without(TempRing([x], levels), 1) == TempRing([], levels)
    ensures TimerRows.Remove([x], x) == []
  {
    assert [x][1..] == [];
  }

  lemma RingsDropTemp(rows: seq<seq<Id>>, x: Id)
    requires 0 < |rows|
    ensures WithoutNode(AllRows(rows, [x]), |rows|, 1) == AllRows(rows, [])
  {
    TempAt(x, |rows|);
  }
}
