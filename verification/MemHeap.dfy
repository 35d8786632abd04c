/** rt_memheap over its header fields: the block ring, the free ring, the magic word and the
    two byte counters, all updated in place as memheap.c does it.

    The fields of the headers are maps from the offset of a header in the pool to the field.
    `data` holds the bytes of the pool as the users of the heap see them; building a header in
    a new place overwrites HDR of them.
 */
module MemHeaps {
  import opened Tiling
  import opened RtList
  import opened Sequences
  import opened HeapBytes
  import opened MemHeapModel
  import opened MemHeapLemmas

  const FREE_LIST := -1  // the free list header, which lies outside the pool

  /** The headers in address order, the tailer last: the block ring. */
  function Starts(bs: seq<Block>, tail: int): seq<Node> {
    seq(|bs| + 1, k requires 0 <= k <= |bs| => if k < |bs| then bs[k].off else tail)
  }

  ghost predicate Flagged(used: map<Node, bool>, bs: seq<Block>, tail: int) {
    && (forall i :: 0 <= i < |bs| ==> bs[i].off in used && used[bs[i].off] == bs[i].used)
    && tail in used && used[tail]
  }

  lemma StartsDistinct(bs: seq<Block>, tail: int)
    requires Tiled(bs, 0, tail, UNIT)
    ensures Distinct(Starts(bs, tail))
  {
    forall i, j | 0 <= i < j <= |bs|
      ensures Starts(bs, tail)[i] != Starts(bs, tail)[j]
    {
      Neighbours(bs, i, 0, tail, UNIT);
    }
  }

  /** What the block ring says about the neighbours of a header. */
  lemma RingNeighbours(l: Links, bs: seq<Block>, tail: int, i: int)
    requires Tiled(bs, 0, tail, UNIT) && IsRing(l, Starts(bs, tail)) && 0 <= i < |bs|
    ensures bs[i].off in l.next && l.next[bs[i].off] == bs[i].end
    ensures bs[i].off in l.prev && l.prev[bs[i].off] == if i == 0 then tail else bs[i - 1].off
  {
    var r := Starts(bs, tail);
    assert r[i] == bs[i].off && r[i + 1] == bs[i].end by {
      Neighbours(bs, i, 0, tail, UNIT);
    }
    assert l.next[r[i]] == r[i + 1];
    var p := if i == 0 then |bs| else i - 1;
    assert Succ(p, |r|) == i;
    assert l.prev[r[i]] == r[p];
  }

  lemma StartsInserted(bs: seq<Block>, i: int, a: Block, b: Block, tail: int)
    requires 0 <= i < |bs| && a.off == bs[i].off
    ensures Starts(Splice(bs, i, i + 1, [a, b]), tail) == Inserted(Starts(bs, tail), i, b.off)
  {
    var l, r := Starts(Splice(bs, i, i + 1, [a, b]), tail), Inserted(Starts(bs, tail), i, b.off);
    assert |l| == |r|;
    forall k | 0 <= k < |l|
      ensures l[k] == r[k]
    {
      assert k > i + 1 ==> r[k] == Starts(bs, tail)[k - 1];
    }
  }

  lemma StartsKept(bs: seq<Block>, i: int, a: Block, tail: int)
    requires 0 <= i < |bs| && a.off == bs[i].off
    ensures Starts(Splice(bs, i, i + 1, [a]), tail) == Starts(bs, tail)
  {
  }

  /** Joining block `i + 1` to block `i` takes its header out of the ring. */
  lemma StartsJoined(bs: seq<Block>, i: int, a: Block, tail: int)
    requires 0 <= i < |bs| - 1 && a.off == bs[i].off
    ensures Starts(Splice(bs, i, i + 2, [a]), tail) == Without(Starts(bs, tail), i + 1)
  {
    var l, r := Starts(Splice(bs, i, i + 2, [a]), tail), Without(Starts(bs, tail), i + 1);
    assert |l| == |r|;
    forall k | 0 <= k < |l|
      ensures l[k] == r[k]
    {
      assert k > i ==> r[k] == Starts(bs, tail)[k + 1];
    }
  }

  lemma FlaggedSplice(u: map<Node, bool>, v: map<Node, bool>, bs: seq<Block>, i: int, j: int, xs: seq<Block>, tail: int)
    requires Tiled(bs, 0, tail, UNIT) && Flagged(u, bs, tail) && 0 <= i < j <= |bs|
    requires forall x :: x in u && !(bs[i].off <= x < bs[j - 1].end) ==> x in v && v[x] == u[x]
    requires forall k :: 0 <= k < |xs| ==> xs[k].off in v && v[xs[k].off] == xs[k].used
    ensures Flagged(v, Splice(bs, i, j, xs), tail)
  {
    var r := Splice(bs, i, j, xs);
    Neighbours(bs, i, 0, tail, UNIT);
    Neighbours(bs, j - 1, 0, tail, UNIT);
    forall k | 0 <= k < |r|
      ensures r[k].off in v && v[r[k].off] == r[k].used
    {
      if k < i {
        assert r[k] == bs[k];
      } else if k < i + |xs| {
        assert r[k] == xs[k - i];
      } else {
        assert r[k] == bs[k - |xs| + j - i];
      }
    }
  }

  lemma CutIsNew(bs: seq<Block>, i: int, cut: int, tail: int)
    requires Tiled(bs, 0, tail, UNIT) && 0 <= i < |bs| && bs[i].off < cut < bs[i].end
    ensures cut !in Starts(bs, tail)
  {
    Neighbours(bs, i, 0, tail, UNIT);
    forall k | 0 <= k < |bs|
      ensures bs[k].off != cut
    {
      if bs[k].off == cut {
        Located(bs, k, i, i + 1, 0, tail, UNIT);
      }
    }
  }

  lemma CutIsNotFree(s: State, i: int, k: int, cut: int)
    requires Inv(s) && 0 <= i < |s.blocks| && s.blocks[i].off < cut < s.blocks[i].end
    requires 0 <= k < |s.ring|
    ensures cut !in s.ring && cut !in Without(s.ring, k) && cut != FREE_LIST
  {
    hide NoFreePair, Extent;
    WithoutIs(s.ring, k);
    AtBlock(s.blocks, i, 0, s.pool - HDR, UNIT, cut, false);
    Neighbours(s.blocks, i, 0, s.pool - HDR, UNIT);
  }

  lemma SplitFlags(u: map<Node, bool>, bs: seq<Block>, i: int, cut: int, tail: int)
    requires Tiled(bs, 0, tail, UNIT) && Flagged(u, bs, tail)
    requires 0 <= i < |bs| && bs[i].off < cut < bs[i].end
    ensures Flagged(u[cut := false][bs[i].off := true],
                    Splice(bs, i, i + 1, [Block(bs[i].off, cut, true), Block(cut, bs[i].end, false)]), tail)
  {
    FlaggedSplice(u, u[cut := false][bs[i].off := true], bs, i, i + 1,
                  [Block(bs[i].off, cut, true), Block(cut, bs[i].end, false)], tail);
  }

  lemma WholeFlags(u: map<Node, bool>, bs: seq<Block>, i: int, tail: int)
    requires Tiled(bs, 0, tail, UNIT) && Flagged(u, bs, tail) && 0 <= i < |bs|
    ensures Flagged(u[bs[i].off := true], Splice(bs, i, i + 1, [Block(bs[i].off, bs[i].end, true)]), tail)
  {
    FlaggedSplice(u, u[bs[i].off := true], bs, i, i + 1, [Block(bs[i].off, bs[i].end, true)], tail);
  }

  /** The two shapes of Grant, without the case distinction. */
  lemma GrantShape(s: State, k: int, size: int)
    requires 0 <= k < |s.ring| && Find(s.blocks, s.ring[k]) < |s.blocks|
    ensures var i := Find(s.blocks, s.ring[k]); var b, g := s.blocks[i], Grant(s, k, size);
      if Splits(b, size, HDR, MINI)
      then && g.blocks == Splice(s.blocks, i, i + 1, [Block(b.off, b.off + HDR + size, true), Block(b.off + HDR + size, b.end, false)])
           && g.ring == [b.off + HDR + size] + Without(s.ring, k)
           && g == WithAvailable(s, s.available - (size + HDR)).(blocks := g.blocks, ring := g.ring)
      else && g.blocks == Splice(s.blocks, i, i + 1, [Block(b.off, b.end, true)])
           && g.ring == Without(s.ring, k)
           && g == WithAvailable(s, s.available - Payload(b, HDR)).(blocks := g.blocks, ring := g.ring)
  {
  }

  lemma ResizeFlags(u: map<Node, bool>, bs: seq<Block>, i: int, cut: int, tail: int)
    requires Tiled(bs, 0, tail, UNIT) && Flagged(u, bs, tail) && 0 <= i < |bs| && bs[i].used
    requires bs[i].off < cut < bs[MergeTo(bs, i) - 1].end
    ensures Flagged(u[cut := false], Resize(bs, i, cut), tail)
  {
    var to := MergeTo(bs, i);
    FlaggedSplice(u, u[cut := false], bs, i, to, [Block(bs[i].off, cut, true), Block(cut, bs[to - 1].end, false)], tail);
  }

  lemma ResizeShape(s: State, i: int, cut: int)
    requires 0 <= i < |s.blocks|
    ensures Resize1(s, i, cut) == s.(blocks := Resize(s.blocks, i, cut), ring := [cut] + RingSansNext(s, i))
  {
  }

  /** Block `i` with the free block behind it, as one used block; then cut again. */
  lemma WholeThenCut(bs: seq<Block>, i: int, cut: int, tail: int)
    requires Tiled(bs, 0, tail, UNIT) && 0 <= i < |bs| && bs[i].used && i + 1 < MergeTo(bs, i)
    requires bs[i].off < cut < bs[i + 1].end
    ensures var whole := Splice(bs, i, i + 2, [Block(bs[i].off, bs[i + 1].end, true)]);
      && i < |whole| && whole[i] == Block(bs[i].off, bs[i + 1].end, true)
      && cut !in Starts(whole, tail)
      && Splice(whole, i, i + 1, [Block(bs[i].off, cut, true), Block(cut, bs[i + 1].end, false)]) == Resize(bs, i, cut)
  {
    hide Tiled, Starts;
    var whole := Splice(bs, i, i + 2, [Block(bs[i].off, bs[i + 1].end, true)]);
    WholeTiled(bs, i, tail);
    CutIsNew(whole, i, cut, tail);
    assert whole[..i] == bs[..i];
    assert whole[i + 1..] == bs[i + 2..];
  }

  lemma WholeTiled(bs: seq<Block>, i: int, tail: int)
    requires Tiled(bs, 0, tail, UNIT) && 0 <= i < |bs| - 1
    ensures Tiled(Splice(bs, i, i + 2, [Block(bs[i].off, bs[i + 1].end, true)]), 0, tail, UNIT)
  {
    Neighbours(bs, i, 0, tail, UNIT);
    SpliceTiled(bs, i, i + 2, [Block(bs[i].off, bs[i + 1].end, true)], 0, tail, UNIT);
  }

  lemma CutIsNotListed(s: State, i: int, cut: int)
    requires Inv(s) && 0 <= i < |s.blocks| && s.blocks[i].used
    requires s.blocks[i].off < cut < s.blocks[MergeTo(s.blocks, i) - 1].end
    requires i + 1 < MergeTo(s.blocks, i) ==> cut != s.blocks[i + 1].off
    ensures cut !in RingSansNext(s, i) && cut != FREE_LIST
  {
    hide NoFreePair, Indexes, Extent;
    CutOutside(s, i, cut);
    Neighbours(s.blocks, i, 0, s.pool - HDR, UNIT);
  }

  /** The fields of a state after a block was given back. */
  lemma ReleaseShape(s: State, i: int)
    requires 0 <= i < |s.blocks|
    ensures var from, to := MergeFrom(s.blocks, i), MergeTo(s.blocks, i);
      Release1(s, i) == s.(blocks := Release(s.blocks, i),
                           ring := if from < i then RingSansNext(s, i) else [s.blocks[i].off] + RingSansNext(s, i),
                           available := s.available + Payload(s.blocks[i], HDR)
                             + (if from < i then HDR else 0) + (if i + 1 < to then HDR else 0))
  {
    assert [] + RingSansNext(s, i) == RingSansNext(s, i);
  }

  // ---- Joining on free, one side at a time ------------------------------------------------

  ghost function LeftJoined(bs: seq<Block>, i: int): seq<Block>
    requires 0 <= i < |bs|
  {
    if MergeFrom(bs, i) < i then Splice(bs, i - 1, i + 1, [Block(bs[i - 1].off, bs[i].end, false)]) else bs
  }

  lemma LeftJoinedIs(bs: seq<Block>, i: int, tail: int)
    requires Tiled(bs, 0, tail, UNIT) && 0 <= i < |bs|
    ensures var l, m := LeftJoined(bs, i), MergeFrom(bs, i);
      && Tiled(l, 0, tail, UNIT)
      && m < |l| && l[m].off == bs[m].off && l[m].end == bs[i].end
      && (i + 1 < |bs| ==> m + 1 < |l| && l[m + 1] == bs[i + 1])
  {
    var m := MergeFrom(bs, i);
    if m < i {
      Neighbours(bs, i, 0, tail, UNIT);
      SpliceTiled(bs, m, i + 1, [Block(bs[m].off, bs[i].end, false)], 0, tail, UNIT);
    }
  }

  lemma RightJoinedIs(bs: seq<Block>, i: int, tail: int)
    requires Tiled(bs, 0, tail, UNIT) && 0 <= i < |bs|
    ensures var l, m := LeftJoined(bs, i), MergeFrom(bs, i);
      if i + 1 < MergeTo(bs, i)
      then m + 1 < |l| && Splice(l, m, m + 2, [Block(bs[m].off, bs[i + 1].end, false)]) == Release(bs, i)
      else Starts(l, tail) == Starts(Release(bs, i), tail)
  {
    var l, m := LeftJoined(bs, i), MergeFrom(bs, i);
    LeftJoinedIs(bs, i, tail);
    if i + 1 < MergeTo(bs, i) {
      assert l[..m] == bs[..m];
      assert l[m + 2..] == bs[i + 2..];
    } else if m == i {
      StartsKept(bs, i, Block(bs[i].off, bs[i].end, false), tail);
    }
  }

  /** What free reads about the block behind the one it gives back. */
  lemma RightNeighbour(l: Links, u: map<Node, bool>, bs: seq<Block>, i: int, tail: int)
    requires Tiled(bs, 0, tail, UNIT) && 0 <= i < |bs| && bs[i].used && Flagged(u, bs, tail)
    requires IsRing(l, Starts(LeftJoined(bs, i), tail))
    ensures var v, h, x := u[bs[i].off := false], bs[MergeFrom(bs, i)].off, bs[i].end;
      && h in l.next && l.next[h] == x
      && x in v && (!v[x] <==> i + 1 < MergeTo(bs, i))
      && (i + 1 < |bs| ==> x == bs[i + 1].off)
  {
    LeftJoinedIs(bs, i, tail);
    RingNeighbours(l, LeftJoined(bs, i), tail, MergeFrom(bs, i));
    Neighbours(bs, i, 0, tail, UNIT);
  }

  lemma {:induction false} DroppedAt(ring: seq<Node>, k: int)
    requires Distinct(ring) && 0 <= k < |ring|
    ensures Dropped(ring, ring[k]) == Without(ring, k)
  {
    if k > 0 {
      var t := ring[1..];
      assert Distinct(t) by {
        assert forall i :: 0 <= i < |t| ==> t[i] == ring[i + 1];
      }
      DroppedAt(t, k - 1);
      assert Without(ring, k) == [ring[0]] + Without(t, k - 1);
    }
  }

  /** Where the free list has the block behind `i`. */
  lemma NextInRing(s: State, i: int) returns (k: int)
    requires Inv(s) && 0 <= i < |s.blocks| && i + 1 < MergeTo(s.blocks, i)
    ensures 0 <= k < |s.ring| && s.ring[k] == s.blocks[i + 1].off && Without(s.ring, k) == RingSansNext(s, i)
  {
    assert At(s.blocks, s.blocks[i + 1].off, false);
    k :| 0 <= k < |s.ring| && s.ring[k] == s.blocks[i + 1].off;
    DroppedAt(s.ring, k);
  }

  lemma OwnNotInRing(s: State, i: int)
    requires Inv(s) && 0 <= i < |s.blocks| && s.blocks[i].used
    ensures s.blocks[i].off !in RingSansNext(s, i) && s.blocks[i].off != FREE_LIST
  {
    hide NoFreePair, Extent;
    AtBlock(s.blocks, i, 0, s.pool - HDR, UNIT, s.blocks[i].off, false);
    RingSansNextIs(s, i, s.blocks[i].off);
    Neighbours(s.blocks, i, 0, s.pool - HDR, UNIT);
  }

  lemma ReleasedFlags(u: map<Node, bool>, bs: seq<Block>, i: int, tail: int)
    requires Tiled(bs, 0, tail, UNIT) && 0 <= i < |bs| && bs[i].used && Flagged(u, bs, tail)
    ensures Flagged(u[bs[i].off := false], Release(bs, i), tail)
  {
    var from, to := MergeFrom(bs, i), MergeTo(bs, i);
    Neighbours(bs, i, 0, tail, UNIT);
    FlaggedSplice(u, u[bs[i].off := false], bs, from, to, [Block(bs[from].off, bs[to - 1].end, false)], tail);
  }

  lemma InitFields(pool: int)
    requires 2 * HDR + MINI <= pool
    ensures IsRing(Links(map[0 := pool - HDR, pool - HDR := 0], map[0 := pool - HDR, pool - HDR := 0]),
                   Starts(Init(pool).blocks, pool - HDR))
    ensures IsRing(Links(map[FREE_LIST := 0, 0 := FREE_LIST], map[FREE_LIST := 0, 0 := FREE_LIST]), [FREE_LIST] + [0])
    ensures Flagged(map[0 := false, pool - HDR := true], Init(pool).blocks, pool - HDR)
  {
    assert Starts(Init(pool).blocks, pool - HDR) == [0, pool - HDR];
    assert [FREE_LIST] + [0] == [FREE_LIST, 0];
  }

  class MemHeap {
    var poolSize: int
    var availableSize: int
    var maxUsedSize: int
    var next: map<Node, Node>
    var prev: map<Node, Node>
    var used: map<Node, bool>      // the used bit of the magic word
    var nextFree: map<Node, Node>
    var prevFree: map<Node, Node>
    var data: seq<byte>
    ghost var s: State

    ghost predicate Linked(bs: seq<Block>)
      reads this
    {
      IsRing(Links(next, prev), Starts(bs, poolSize - HDR))
    }

    ghost predicate FreeLinked(ring: seq<Node>)
      reads this
    {
      IsRing(Links(nextFree, prevFree), [FREE_LIST] + ring)
    }

    ghost predicate Valid()
      reads this
    {
      && Inv(s)
      && s.pool == poolSize && s.available == availableSize && s.maxUsed == maxUsedSize
      && |data| == poolSize
      && Linked(s.blocks)
      && Flagged(used, s.blocks, poolSize - HDR)
      && FreeLinked(s.ring)
    }

    /** rt_memheap_init */
    constructor (size: int)
      requires 2 * HDR + MINI <= size / 8 * 8 && size < 0x1_0000_0000
      ensures Valid() && s == Init(size / 8 * 8)
    {
      var pool := size / 8 * 8;
      poolSize, availableSize, maxUsedSize := pool, pool - 2 * HDR, 2 * HDR;
      var tail := pool - HDR;
      // the free list header, then the one big block on it, then the tailer
      nextFree, prevFree := map[FREE_LIST := 0, 0 := FREE_LIST], map[FREE_LIST := 0, 0 := FREE_LIST];
      next, prev := map[0 := tail, tail := 0], map[0 := tail, tail := 0];
      used := map[0 := false, tail := true];
      data := seq(pool, _ => 0);
      s := Init(pool);
      new;
      hide Inv;
      InitInv(pool);
      InitFields(pool);
    }

    /** Puts `x` at the head of the free list. */
    method PushFree(x: Node, ghost ring: seq<Node>)
      requires FreeLinked(ring) && x !in ring && x != FREE_LIST
      modifies this`nextFree, this`prevFree
      ensures FreeLinked([x] + ring)
    {
      LinkAfterRing(Links(nextFree, prevFree), [FREE_LIST] + ring, 0, x);
      assert Inserted([FREE_LIST] + ring, 0, x) == [FREE_LIST] + ([x] + ring);
      assert FREE_LIST == ([FREE_LIST] + ring)[0];
      nextFree := nextFree[x := nextFree[FREE_LIST]];
      prevFree := prevFree[x := FREE_LIST];
      prevFree := prevFree[nextFree[FREE_LIST] := x];
      nextFree := nextFree[FREE_LIST := x];
    }

    /** Takes the entry at position `k` out of the free list. */
    method DropFree(x: Node, ghost ring: seq<Node>, ghost k: int)
      requires FreeLinked(ring) && 0 <= k < |ring| && ring[k] == x
      modifies this`nextFree, this`prevFree
      ensures FreeLinked(Without(ring, k))
    {
      ghost var r := [FREE_LIST] + ring;
      UnlinkRing(Links(nextFree, prevFree), r, k + 1);
      assert Without(r, k + 1) == [FREE_LIST] + Without(ring, k);
      assert r[k + 1] == x;
      assert nextFree[x] == r[Succ(k + 1, |r|)] && prevFree[x] == r[k] by {
        assert Succ(k, |r|) == k + 1;
      }
      prevFree := prevFree[nextFree[x] := prevFree[x]];
      assert prevFree[x] == r[k];
      nextFree := nextFree[prevFree[x] := nextFree[x]];
    }

    /** Builds the header of a block that starts inside block `i`. */
    method SplitBlock(header: Node, cut: Node, ghost bs: seq<Block>, ghost i: int)
      requires 0 <= cut && cut + HDR <= |data| == poolSize
      requires Linked(bs) && 0 <= i < |bs| && bs[i].off == header && cut !in Starts(bs, poolSize - HDR)
      modifies this`next, this`prev, this`used, this`data
      ensures Linked(Splice(bs, i, i + 1, [Block(header, cut, true), Block(cut, bs[i].end, false)]))
      ensures used == old(used)[cut := false]
      ensures |data| == |old(data)|
      ensures forall k :: 0 <= k < |data| && !(cut <= k < cut + HDR) ==> data[k] == old(data)[k]
    {
      ghost var tail := poolSize - HDR;
      ghost var r := Starts(bs, tail);
      assert r[i] == header;
      LinkAfterRing(Links(next, prev), r, i, cut);
      StartsInserted(bs, i, Block(header, cut, true), Block(cut, bs[i].end, false), tail);
      assert next[r[i]] == r[i + 1];
      assert |seq(HDR, _ => 0 as byte)| == HDR;
      var junk: seq<byte> :| |junk| == HDR;
      data := data[..cut] + junk + data[cut + HDR..];
      used := used[cut := false];
      prev := prev[cut := header];
      next := next[cut := next[header]];
      prev := prev[next[header] := cut];
      next := next[header := cut];
    }

    /** Takes the header of block `i + 1` out of the block ring. */
    method JoinBlocks(header: Node, gone: Node, ghost bs: seq<Block>, ghost i: int, ghost a: Block)
      requires Linked(bs) && 0 <= i < |bs| - 1 && a.off == header
      requires bs[i].off == header && bs[i + 1].off == gone
      modifies this`next, this`prev
      ensures Linked(Splice(bs, i, i + 2, [a]))
    {
      ghost var r := Starts(bs, poolSize - HDR);
      assert r[i] == header && r[i + 1] == gone;
      UnlinkRing(Links(next, prev), r, i + 1);
      StartsJoined(bs, i, a, poolSize - HDR);
      assert next[r[i + 1]] == r[i + 2] && prev[r[i + 1]] == r[i];
      prev := prev[next[gone] := header];
      next := next[header := next[gone]];
    }

    /** Lowers the available byte count and moves the high-water mark. */
    method Charge(size: int)
      modifies this`availableSize, this`maxUsedSize
      ensures availableSize == old(availableSize) - size
      ensures maxUsedSize == Max(old(maxUsedSize), poolSize - availableSize)
    {
      availableSize := availableSize - size;
      if poolSize - availableSize > maxUsedSize {
        maxUsedSize := poolSize - availableSize;
      }
    }

    /** Block `k` of the free list has room for `size` bytes. */
    ghost predicate Fits(k: int, header: Node, size: int)
      reads this
    {
      0 <= k < |s.ring| && s.ring[k] == header && MINI <= size && HasRoom(s.blocks, header, size)
    }

    /** What the two ways of carving up a free block start from. */
    lemma CarvePlan(k: int, header: Node, size: int)
      requires Valid() && Fits(k, header, size)
      ensures var bs, i, tail := s.blocks, Find(s.blocks, header), poolSize - HDR;
        && i < |bs| && bs[i].off == header && !bs[i].used
        && Tiled(bs, 0, tail, UNIT) && 0 <= header && bs[i].end <= tail
      ensures Inv(Grant(s, k, size))
    {
      hide NoFreePair, Indexes, Extent, IsRing, Flagged, Starts, At, Grant;
      RingEntry(s, k);
      GrantKeeps(s, k, size);
      Neighbours(s.blocks, Find(s.blocks, header), 0, poolSize - HDR, UNIT);
    }

    /** Takes `size` bytes from the front of a free block; the rest becomes a free block. */
    method CarveFront(header: Node, size: int, ghost k: int)
      requires Valid() && Fits(k, header, size)
      requires Splits(s.blocks[Find(s.blocks, header)], size, HDR, MINI)
      modifies this
      ensures Valid() && s == Grant(old(s), k, size)
      ensures |data| == |old(data)| && BytesKept(HDR, old(s.blocks), -1, old(data), data)
    {
      hide Inv, Tiled, Splice, IsRing, Flagged, Starts, Grant;
      CarvePlan(k, header, size);
      GrantShape(s, k, size);
      ghost var bs, tail, i := s.blocks, poolSize - HDR, Find(s.blocks, header);
      var cut := header + size + HDR;
      CutIsNew(bs, i, cut, tail);
      CutIsNotFree(s, i, k, cut);
      SplitFlags(used, bs, i, cut, tail);
      SplitBlock(header, cut, bs, i);
      DropFree(header, s.ring, k);
      PushFree(cut, Without(s.ring, k));
      Charge(size + HDR);
      used := used[header := true];
      KeptElsewhere(HDR, bs, i, tail, UNIT, old(data), data);
      s := Grant(s, k, size);
    }

    /** Takes a whole free block. */
    method CarveWhole(header: Node, freeSize: int, ghost size: int, ghost k: int)
      requires Valid() && Fits(k, header, size)
      requires !Splits(s.blocks[Find(s.blocks, header)], size, HDR, MINI)
      requires freeSize == Payload(s.blocks[Find(s.blocks, header)], HDR)
      modifies this
      ensures Valid() && s == Grant(old(s), k, size)
      ensures data == old(data)
    {
      hide Inv, Tiled, Splice, IsRing, Flagged, Starts, Grant;
      CarvePlan(k, header, size);
      GrantShape(s, k, size);
      ghost var bs, tail, i := s.blocks, poolSize - HDR, Find(s.blocks, header);
      StartsKept(bs, i, Block(header, bs[i].end, true), tail);
      WholeFlags(used, bs, i, tail);
      Charge(freeSize);
      DropFree(header, s.ring, k);
      used := used[header := true];
      s := Grant(s, k, size);
    }

    /** Reads the size of the free block at position `k` of the free list (MEMITEM_SIZE). */
    lemma FreeEntry(k: int)
      requires Valid() && 0 <= k < |s.ring|
      ensures s.ring[k] in next && Find(s.blocks, s.ring[k]) < |s.blocks|
      ensures next[s.ring[k]] - s.ring[k] - HDR == Payload(s.blocks[Find(s.blocks, s.ring[k])], HDR)
      ensures 0 <= s.ring[k] && s.ring[k] in nextFree
      ensures nextFree[s.ring[k]] == if k + 1 < |s.ring| then s.ring[k + 1] else FREE_LIST
    {
      RingEntry(s, k);
      var i := Find(s.blocks, s.ring[k]);
      RingNeighbours(Links(next, prev), s.blocks, poolSize - HDR, i);
      Neighbours(s.blocks, i, 0, poolSize - HDR, UNIT);
      var r := [FREE_LIST] + s.ring;
      assert r[k + 1] == s.ring[k];
      assert nextFree[r[k + 1]] == r[Succ(k + 1, |r|)];
    }

    lemma FirstFree()
      requires Valid()
      ensures FREE_LIST in nextFree
      ensures nextFree[FREE_LIST] == if s.ring == [] then FREE_LIST else s.ring[0]
    {
      var r := [FREE_LIST] + s.ring;
      assert nextFree[r[0]] == r[Succ(0, |r|)];
    }

    /** rt_memheap_alloc */
    method Alloc(request: int) returns (p: int)
      requires Valid() && 0 <= request <= MAX_REQUEST
      modifies this
      ensures Valid()
      ensures (s, p) == MemHeapModel.Alloc(old(s), request)
      ensures p == NULL ==> data == old(data)
      ensures |data| == |old(data)| && BytesKept(HDR, old(s.blocks), -1, old(data), data)
    {
      hide Inv, Linked, FreeLinked, Flagged, Grant;
      var size := RequestSize(request);
      p := NULL;
      if size < availableSize {
        FirstFree();
        var header := nextFree[FREE_LIST];
        var freeSize := 0;
        ghost var k := 0;
        while header != FREE_LIST && freeSize < size
          invariant 0 <= k <= |s.ring|
          invariant header == if k < |s.ring| then s.ring[k] else FREE_LIST
          invariant forall j :: 0 <= j < k ==> !HasRoom(s.blocks, s.ring[j], size)
          invariant freeSize >= size ==> k < |s.ring| && HasRoom(s.blocks, header, size)
          invariant freeSize >= size ==> 0 <= header && freeSize == Payload(s.blocks[Find(s.blocks, header)], HDR)
          decreases |s.ring| - k, size - freeSize
          modifies {}
        {
          FreeEntry(k);
          freeSize := next[header] - header - HDR;
          if freeSize < size {
            header := nextFree[header];
            k := k + 1;
          }
        }
        assert k < |s.ring| && freeSize < size ==> header != FREE_LIST by {
          if k < |s.ring| { FreeEntry(k); }
        }
        FirstFitIs(s.ring, s.blocks, size, k);
        if freeSize >= size {
          if freeSize >= size + HDR + MINI {
            CarveFront(header, size, k);
          } else {
            CarveWhole(header, freeSize, size, k);
          }
          p := header + HDR;
        }
      }
    }

    /** The state of the fields while block `i` of `bs` is being given back: `u` held the used
        bits before. */
    ghost predicate Freeing(bs: seq<Block>, i: int, u: map<Node, bool>)
      reads this
    {
      && Tiled(bs, 0, poolSize - HDR, UNIT)
      && 0 <= i < |bs| && bs[i].used
      && Flagged(u, bs, poolSize - HDR) && used == u[bs[i].off := false]
    }

    /** The part of rt_memheap_free that joins the block with the one in front of it. */
    method MergeLeft(header: Node, ghost bs: seq<Block>, ghost i: int, ghost u: map<Node, bool>)
      returns (joined: Node, merged: bool)
      requires Freeing(bs, i, u) && Linked(bs) && bs[i].off == header
      modifies this`next, this`prev, this`availableSize
      ensures Linked(LeftJoined(bs, i))
      ensures joined == bs[MergeFrom(bs, i)].off && (merged <==> MergeFrom(bs, i) < i)
      ensures availableSize == old(availableSize) + if merged then HDR else 0
    {
      hide Splice, IsRing, Starts;
      RingNeighbours(Links(next, prev), bs, poolSize - HDR, i);
      Neighbours(bs, i, 0, poolSize - HDR, UNIT);
      joined, merged := header, false;
      if !used[prev[header]] {
        availableSize := availableSize + HDR;
        joined, merged := prev[header], true;
        JoinBlocks(joined, header, bs, i - 1, Block(joined, bs[i].end, false));
      }
    }

    /** The part of rt_memheap_free that joins the block with the one behind it. */
    method MergeRight(header: Node, ghost t: State, ghost i: int, ghost u: map<Node, bool>)
      requires Inv(t) && t.pool == poolSize && Freeing(t.blocks, i, u)
      requires Linked(LeftJoined(t.blocks, i)) && FreeLinked(t.ring)
      requires header == t.blocks[MergeFrom(t.blocks, i)].off
      modifies this`next, this`prev, this`nextFree, this`prevFree, this`availableSize
      ensures Linked(Release(t.blocks, i)) && FreeLinked(RingSansNext(t, i))
      ensures availableSize == old(availableSize) + if i + 1 < MergeTo(t.blocks, i) then HDR else 0
    {
      hide Splice, IsRing, Starts, Inv, Tiled, Flagged, Release;
      ghost var bs, m, tail := t.blocks, MergeFrom(t.blocks, i), poolSize - HDR;
      RightNeighbour(Links(next, prev), u, bs, i, tail);
      LeftJoinedIs(bs, i, tail);
      RightJoinedIs(bs, i, tail);
      if !used[next[header]] {
        availableSize := availableSize + HDR;
        var right := next[header];
        JoinBlocks(header, right, LeftJoined(bs, i), m, Block(header, bs[i + 1].end, false));
        ghost var k := NextInRing(t, i);
        DropFree(right, t.ring, k);
      }
    }

    /** A used block: what its header says. */
    lemma UsedEntry(p: int)
      requires Valid() && Live(s, p)
      ensures Tiled(s.blocks, 0, poolSize - HDR, UNIT) && s.pool == poolSize
      ensures var bs, i := s.blocks, Find(s.blocks, p - HDR);
        && i < |bs| && bs[i].used && bs[i].off == p - HDR && p - HDR in next && next[p - HDR] == bs[i].end
        && bs[i].off + UNIT <= bs[i].end
    {
      hide NoFreePair, Indexes, Extent;
      LiveEntry(s, p);
      RingNeighbours(Links(next, prev), s.blocks, poolSize - HDR, Find(s.blocks, p - HDR));
    }

    /** rt_memheap_free */
    method Free(p: int)
      requires Valid() && (p == NULL || Live(s, p))
      modifies this
      ensures Valid() && s == MemHeapModel.Free(old(s), p)
      ensures data == old(data)
    {
      hide Inv, Tiled, Splice, IsRing, Flagged, Starts, At, Release, Release1;
      if p == NULL {
        return;
      }
      var header := p - HDR;
      UsedEntry(p);
      FreeKeeps(s, p);
      ghost var bs, i, u := s.blocks, Find(s.blocks, header), used;
      OwnNotInRing(s, i);
      ReleasedFlags(u, bs, i, poolSize - HDR);
      used := used[header := false];
      availableSize := availableSize + (next[header] - header - HDR);
      var merged;
      header, merged := MergeLeft(header, bs, i, u);
      MergeRight(header, s, i, u);
      if !merged {
        PushFree(header, RingSansNext(s, i));
      }
      ReleaseShape(s, i);
      s := MemHeapModel.Free(s, p);
    }

    /** The part of rt_memheap_realloc that grows a block into the free one behind it. */
    method Grow(p: int, size: int, oldSize: int, ghost i: int)
      requires Valid() && Live(s, p) && i == Find(s.blocks, p - HDR) < |s.blocks|
      requires oldSize == Payload(s.blocks[i], HDR) < size && CanGrow(s, i, size)
      modifies this
      ensures Valid()
      ensures s == WithAvailable(Resize1(old(s), i, p + size), old(s.available) - (size - oldSize))
      ensures |data| == |old(data)| && BytesKept(HDR, old(s.blocks), p - HDR, old(data), data)
      ensures Same(old(data), p, data, p, oldSize)
    {
      hide Inv, Tiled, Splice, IsRing, Flagged, Starts, At, Resize, Resize1;
      UsedEntry(p);
      var header, cut := p - HDR, p + size;
      ghost var bs, tail := s.blocks, poolSize - HDR;
      GrowPlan(i, size);
      WholeThenCut(bs, i, cut, tail);
      CutIsNotListed(s, i, cut);
      ResizeFlags(used, bs, i, cut, tail);
      ResizeShape(s, i, cut);
      var right := next[header];
      Charge(size - oldSize);
      ghost var k := NextInRing(s, i);
      DropFree(right, s.ring, k);
      JoinBlocks(header, right, bs, i, Block(header, bs[i + 1].end, true));
      SplitBlock(header, cut, Splice(bs, i, i + 2, [Block(header, bs[i + 1].end, true)]), i);
      PushFree(cut, RingSansNext(s, i));
      KeptElsewhere2(HDR, bs, i, tail, UNIT, old(data), data);
      s := WithAvailable(Resize1(s, i, p + size), s.available - (size - oldSize));
    }

    lemma GrowPlan(i: int, size: int)
      requires Valid() && 0 <= i < |s.blocks| && s.blocks[i].used
      requires Payload(s.blocks[i], HDR) < size && CanGrow(s, i, size)
      ensures var bs, b, cut, tail := s.blocks, s.blocks[i], s.blocks[i].off + HDR + size, poolSize - HDR;
        && i + 1 < |bs| && b.end == bs[i + 1].off && 0 <= b.off < b.end < cut && cut + HDR <= bs[i + 1].end <= tail
        && Inv(WithAvailable(Resize1(s, i, cut), s.available - (size - Payload(b, HDR))))
    {
      hide NoFreePair, Indexes, Extent, IsRing, Flagged, Starts, At, Resize1;
      Neighbours(s.blocks, i, 0, poolSize - HDR, UNIT);
      Neighbours(s.blocks, i + 1, 0, poolSize - HDR, UNIT);
      GrowKeeps(s, i, size);
    }

    /** The part of a shrink that joins the new free block with the one behind it. */
    method JoinCut(cut: Node, ghost t: State, ghost i: int, ghost u: map<Node, bool>)
      requires Inv(t) && t.pool == poolSize && 0 <= i < |t.blocks| && t.blocks[i].used
      requires Flagged(u, t.blocks, poolSize - HDR) && used == u[cut := false]
      requires t.blocks[i].off + UNIT <= cut <= t.blocks[i].end - UNIT
      requires Linked(Splice(t.blocks, i, i + 1, [Block(t.blocks[i].off, cut, true), Block(cut, t.blocks[i].end, false)]))
      requires FreeLinked(t.ring)
      modifies this`next, this`prev, this`nextFree, this`prevFree, this`availableSize
      ensures Linked(Resize(t.blocks, i, cut)) && FreeLinked(RingSansNext(t, i))
      ensures availableSize == old(availableSize) - FreeAhead(t.blocks, i, HDR)
    {
      hide Inv, Tiled, Splice, IsRing, Flagged, Starts, At, Resize;
      ghost var bs, tail := t.blocks, poolSize - HDR;
      PoolTiled(t);
      CutThenJoin(bs, i, cut, tail);
      AfterCut(Links(next, prev), u, bs, i, cut, tail);
      if !used[next[cut]] {
        var right := next[cut];
        availableSize := availableSize - (next[right] - right - HDR);
        JoinBlocks(cut, right, Splice(bs, i, i + 1, [Block(bs[i].off, cut, true), Block(cut, bs[i].end, false)]), i + 1,
                   Block(cut, bs[i + 1].end, false));
        ghost var k := NextInRing(t, i);
        DropFree(right, t.ring, k);
      }
    }

    /** The part of rt_memheap_realloc that gives back the end of a block. */
    method Shrink(p: int, size: int, oldSize: int, ghost i: int)
      requires Valid() && Live(s, p) && i == Find(s.blocks, p - HDR) < |s.blocks|
      requires oldSize == Payload(s.blocks[i], HDR) && MINI <= size && size + HDR + MINI < oldSize
      modifies this
      ensures Valid()
      ensures s == Shrunk(old(s), i, size)
      ensures |data| == |old(data)| && BytesKept(HDR, old(s.blocks), p - HDR, old(data), data)
      ensures Same(old(data), p, data, p, size)
    {
      hide Inv, Tiled, Splice, IsRing, Flagged, Starts, At, Resize, Resize1;
      UsedEntry(p);
      var header, cut := p - HDR, p + size;
      ghost var bs, tail := s.blocks, poolSize - HDR;
      ShrinkPlan(i, size);
      CutIsNew(bs, i, cut, tail);
      CutIsNotListed(s, i, cut);
      ResizeFlags(used, bs, i, cut, tail);
      ResizeShape(s, i, cut);
      SplitBlock(header, cut, bs, i);
      JoinCut(cut, s, i, old(used));
      PushFree(cut, RingSansNext(s, i));
      CutSize(Links(next, prev), bs, i, cut, tail);
      availableSize := availableSize + (next[cut] - cut - HDR);
      KeptElsewhere(HDR, bs, i, tail, UNIT, old(data), data);
      s := Shrunk(s, i, size);
    }

    lemma ShrinkPlan(i: int, size: int)
      requires Valid() && 0 <= i < |s.blocks| && s.blocks[i].used
      requires MINI <= size && size + HDR + MINI < Payload(s.blocks[i], HDR)
      ensures var bs, b, cut, tail := s.blocks, s.blocks[i], s.blocks[i].off + HDR + size, poolSize - HDR;
        && 0 <= b.off < cut && cut + HDR <= b.end <= tail
        && b.end <= bs[MergeTo(bs, i) - 1].end == (if i + 1 < MergeTo(bs, i) then b.end + HDR + FreeAhead(bs, i, HDR) else b.end)
        && (i + 1 < MergeTo(bs, i) ==> cut != bs[i + 1].off)
        && Inv(Shrunk(s, i, size))
    {
      hide NoFreePair, Indexes, Extent, IsRing, Flagged, Starts, At, Resize1;
      Neighbours(s.blocks, i, 0, poolSize - HDR, UNIT);
      ShrinkKeeps(s, i, size);
    }

    /** What realloc reads before it decides. */
    lemma GrowTest(i: int)
      requires Valid() && 0 <= i < |s.blocks| && s.blocks[i].used
      ensures var bs, x := s.blocks, s.blocks[i].end;
        && x in used && x in next && (!used[x] <==> i + 1 < MergeTo(bs, i))
        && (i + 1 < MergeTo(bs, i) ==> next[x] - x - HDR == Payload(bs[i + 1], HDR))
    {
      hide NoFreePair, Indexes, Extent;
      var bs, tail := s.blocks, poolSize - HDR;
      Neighbours(bs, i, 0, tail, UNIT);
      if i + 1 < |bs| {
        RingNeighbours(Links(next, prev), bs, tail, i + 1);
      }
      assert Starts(bs, tail)[|bs|] == tail;
    }

    /** rt_memcpy between two blocks of the heap. */
    method Copy(to: int, from: int, n: int)
      requires 0 <= n && 0 <= from && from + n <= |data| && 0 <= to && to + n <= |data|
      modifies this`data
      ensures |data| == |old(data)|
      ensures data[to..to + n] == old(data)[from..from + n]
      ensures forall k :: 0 <= k < |data| && !(to <= k < to + n) ==> data[k] == old(data)[k]
    {
      data := data[..to] + data[from..from + n] + data[to + n..];
    }

    /** The part of rt_memheap_realloc that moves to another block. */
    method Move(p: int, size: int, oldSize: int) returns (q: int)
      requires Valid() && Live(s, p) && 0 <= size <= MAX_REQUEST
      requires Find(s.blocks, p - HDR) < |s.blocks|
      requires 0 <= oldSize == Payload(s.blocks[Find(s.blocks, p - HDR)], HDR) < size
      modifies this
      ensures Valid() && |data| == |old(data)|
      ensures q == MemHeapModel.Alloc(old(s), size).1
      ensures s == var t := MemHeapModel.Alloc(old(s), size).0; if q == NULL then t else MemHeapModel.Free(t, p)
      ensures BytesKept(HDR, old(s.blocks), p - HDR, old(data), data)
      ensures q == NULL ==> data == old(data)
      ensures q != NULL ==> Same(old(data), p, data, q, oldSize)
    {
      hide Inv, Tiled, IsRing, Flagged, Starts, At, BytesKept, MemHeapModel.Alloc, MemHeapModel.Free;
      MovePlan(s, p, size);
      ghost var bs, tail, d0 := s.blocks, poolSize - HDR, data;
      q := Alloc(size);
      ghost var d1 := data;
      if q != NULL {
        Copy(q, p, oldSize);
        MovedBytes(HDR, bs, Find(bs, p - HDR), Find(bs, q - HDR), tail, UNIT, d0, d1, data, oldSize);
        Free(p);
      } else {
        KeptSame(HDR, bs, p - HDR, d0);
      }
    }

    lemma NoNegativeBlocks()
      requires Valid()
      ensures forall k :: 0 <= k < |s.blocks| ==> 0 <= s.blocks[k].off && s.blocks[k].end <= poolSize
    {
      hide Indexes, Extent, NoFreePair, IsRing, Flagged, Starts, At;
      forall k | 0 <= k < |s.blocks|
        ensures 0 <= s.blocks[k].off && s.blocks[k].end <= poolSize
      {
        Neighbours(s.blocks, k, 0, poolSize - HDR, UNIT);
      }
    }

    /** rt_memheap_realloc for a block in use and a size that is not zero. */
    method Readjust(p: int, size: int, ghost request: int) returns (q: int)
      requires Valid() && Live(s, p) && p != NULL && 0 < request <= MAX_REQUEST && size == RequestSize(request)
      modifies this
      ensures Valid() && |data| == |old(data)|
      ensures (s, q) == MemHeapModel.Realloc(old(s), p, request)
      ensures BytesKept(HDR, old(s.blocks), p - HDR, old(data), data)
      ensures q == NULL ==> data == old(data)
      ensures Find(old(s).blocks, p - HDR) < |old(s).blocks|
      ensures q != NULL ==>
        var oldSize := Payload(old(s).blocks[Find(old(s).blocks, p - HDR)], HDR);
        Same(old(data), p, data, q, if oldSize < size then oldSize else size)
    {
      hide Inv, Tiled, IsRing, Flagged, Starts, At, BytesKept, MemHeapModel.Alloc, Release1, Resize1;
      UsedEntry(p);
      NoNegativeBlocks();
      ghost var i := Find(s.blocks, p - HDR);
      GrowTest(i);
      var header := p - HDR;
      var oldSize := next[header] - header - HDR;
      if size > oldSize {
        var right := next[header];
        if !used[right] {
          var nextSize := next[right] - right - HDR;
          if nextSize + oldSize > size + MINI {
            Grow(p, size, oldSize, i);
            return p;
          }
        }
        q := Move(p, size, oldSize);
      } else if size + HDR + MINI >= oldSize {
        KeptSame(HDR, s.blocks, p - HDR, data);
        q := p;
      } else {
        Shrink(p, size, oldSize, i);
        q := p;
      }
    }

    /** rt_memheap_realloc */
    method Realloc(p: int, request: int) returns (q: int)
      requires Valid() && (p == NULL || Live(s, p)) && 0 <= request <= MAX_REQUEST
      modifies this
      ensures Valid() && |data| == |old(data)|
      ensures (s, q) == MemHeapModel.Realloc(old(s), p, request)
      ensures BytesKept(HDR, old(s.blocks), p - HDR, old(data), data)
      ensures q == NULL ==> data == old(data)
      ensures p != NULL && q != NULL ==> Find(old(s).blocks, p - HDR) < |old(s).blocks|
      ensures p != NULL && q != NULL ==>
        var oldSize := Payload(old(s).blocks[Find(old(s).blocks, p - HDR)], HDR);
        Same(old(data), p, data, q, if oldSize < request then oldSize else request)
    {
      hide Inv, Tiled, IsRing, Flagged, Starts, At, BytesKept, MemHeapModel.Alloc, Release1, Resize1;
      NoNegativeBlocks();
      if request == 0 {
        KeptSame(HDR, s.blocks, p - HDR, data);
        Free(p);
        return NULL;
      }
      var size := RequestSize(request);
      if p == NULL {
        q := Alloc(size);
        KeptMore(HDR, old(s.blocks), p - HDR, old(data), data);
        return;
      }
      q := Readjust(p, size, request);
      if q != NULL {
        ghost var oldSize := Payload(old(s).blocks[Find(old(s).blocks, p - HDR)], HDR);
        SameShorter(old(data), p, data, q, if oldSize < size then oldSize else size,
                    if oldSize < request then oldSize else request);
      }
    }
  }

  lemma MovePlan(s: State, p: int, size: int)
    requires Inv(s) && Live(s, p) && 0 <= size <= MAX_REQUEST
    ensures Live(MemHeapModel.Alloc(s, size).0, p)
    ensures var i, bs := Find(s.blocks, p - HDR), s.blocks;
      && i < |bs| && bs[i].off == p - HDR && bs[i].used && HDR <= p && bs[i].end <= s.pool
      && Tiled(bs, 0, s.pool - HDR, UNIT)
    ensures var q, bs := MemHeapModel.Alloc(s, size).1, s.blocks;
      q != NULL ==> var j := Find(bs, q - HDR);
        j < |bs| && bs[j].off == q - HDR && !bs[j].used && q + size <= bs[j].end <= s.pool && HDR <= q
  {
    hide Indexes, Extent, NoFreePair, At, MemHeapModel.Alloc, Tiled;
    LiveEntry(s, p);
    Neighbours(s.blocks, Find(s.blocks, p - HDR), 0, s.pool - HDR, UNIT);
    AllocKeepsLive(s, size, p);
    var q := MemHeapModel.Alloc(s, size).1;
    if q != NULL {
      AllocPlace(s, size);
      Neighbours(s.blocks, Find(s.blocks, q - HDR), 0, s.pool - HDR, UNIT);
    }
  }

  /** Where an allocation lands: in a block that was free and has room. */
  lemma AllocPlace(s: State, request: int)
    requires Inv(s) && 0 <= request <= MAX_REQUEST && MemHeapModel.Alloc(s, request).1 != NULL
    ensures var p := MemHeapModel.Alloc(s, request).1; var j := Find(s.blocks, p - HDR);
      j < |s.blocks| && s.blocks[j].off == p - HDR && !s.blocks[j].used && Payload(s.blocks[j], HDR) >= request
  {
    hide Inv, Grant;
    RingEntry(s, FirstFit(s.ring, s.blocks, RequestSize(request)));
  }

  /** The state after the end of block `i` beyond `size` bytes of payload was given back. */
  function Shrunk(s: State, i: int, size: int): State
    requires 0 <= i < |s.blocks|
  {
    Resize1(s, i, s.blocks[i].off + HDR + size).(available :=
      s.available + (Payload(s.blocks[i], HDR) - size) - (if MergeTo(s.blocks, i) == i + 1 then HDR else 0))
  }

  /** Block `i` cut in two; then the back half joined with a free block behind it. */
  lemma CutThenJoin(bs: seq<Block>, i: int, cut: int, tail: int)
    requires Tiled(bs, 0, tail, UNIT) && 0 <= i < |bs| && bs[i].off < cut < bs[i].end
    ensures var halves := Splice(bs, i, i + 1, [Block(bs[i].off, cut, true), Block(cut, bs[i].end, false)]);
      && |halves| == |bs| + 1 && halves[i + 1] == Block(cut, bs[i].end, false)
      && (if i + 1 < MergeTo(bs, i)
          then i + 2 < |halves| && halves[i + 2] == bs[i + 1]
            && Splice(halves, i + 1, i + 3, [Block(cut, bs[i + 1].end, false)]) == Resize(bs, i, cut)
          else halves == Resize(bs, i, cut))
  {
    var halves := Splice(bs, i, i + 1, [Block(bs[i].off, cut, true), Block(cut, bs[i].end, false)]);
    if i + 1 < MergeTo(bs, i) {
      assert halves[..i + 1] == bs[..i] + [Block(bs[i].off, cut, true)];
      assert halves[i + 3..] == bs[i + 2..];
    }
  }

  /** The headers behind a fresh cut in block `i`. */
  lemma AfterCut(l: Links, u: map<Node, bool>, bs: seq<Block>, i: int, cut: int, tail: int)
    requires Tiled(bs, 0, tail, UNIT) && 0 <= i < |bs| && bs[i].off + UNIT <= cut <= bs[i].end - UNIT
    requires Flagged(u, bs, tail)
    requires IsRing(l, Starts(Splice(bs, i, i + 1, [Block(bs[i].off, cut, true), Block(cut, bs[i].end, false)]), tail))
    ensures var v, x := u[cut := false], bs[i].end;
      && cut in l.next && l.next[cut] == x && x in v && (!v[x] <==> i + 1 < MergeTo(bs, i))
      && (i + 1 < MergeTo(bs, i) ==> x == bs[i + 1].off && x in l.next && l.next[x] == bs[i + 1].end)
  {
    var xs := [Block(bs[i].off, cut, true), Block(cut, bs[i].end, false)];
    var halves := Splice(bs, i, i + 1, xs);
    Neighbours(bs, i, 0, tail, UNIT);
    assert Tiled(xs, bs[i].off, bs[i].end, UNIT);
    SpliceTiled(bs, i, i + 1, xs, 0, tail, UNIT);
    assert halves[i + 1] == xs[1];
    RingNeighbours(l, halves, tail, i + 1);
    if i + 1 < |bs| {
      assert halves[i + 2] == bs[i + 1];
      RingNeighbours(l, halves, tail, i + 2);
    }
  }

  lemma PoolTiled(t: State)
    requires Inv(t)
    ensures Tiled(t.blocks, 0, t.pool - HDR, UNIT)
  {
  }

  lemma CutSize(l: Links, bs: seq<Block>, i: int, cut: int, tail: int)
    requires Tiled(bs, 0, tail, UNIT) && 0 <= i < |bs|
    requires bs[i].off + UNIT <= cut <= bs[MergeTo(bs, i) - 1].end - UNIT
    requires IsRing(l, Starts(Resize(bs, i, cut), tail))
    ensures cut in l.next && l.next[cut] == bs[MergeTo(bs, i) - 1].end
  {
    var to := MergeTo(bs, i);
    var xs := [Block(bs[i].off, cut, true), Block(cut, bs[to - 1].end, false)];
    assert Tiled(xs, bs[i].off, bs[to - 1].end, UNIT);
    SpliceTiled(bs, i, to, xs, 0, tail, UNIT);
    assert Resize(bs, i, cut)[i + 1] == xs[1];
    RingNeighbours(l, Resize(bs, i, cut), tail, i + 1);
  }

  lemma FirstFitIs(ring: seq<Node>, bs: seq<Block>, size: int, k: int)
    requires 0 <= k <= |ring|
    requires forall j :: 0 <= j < k ==> !HasRoom(bs, ring[j], size)
    requires k < |ring| ==> HasRoom(bs, ring[k], size)
    ensures FirstFit(ring, bs, size) == k
  {
    var f := FirstFit(ring, bs, size);
    assert f < k || f == k || k < f;
  }
}
