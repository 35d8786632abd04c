/** rt_malloc, rt_realloc and rt_free of mem.c over the in-band headers, updated in place.

    The fields of the headers are maps from the offset of a header in the heap to the field.
    `prev` of heap_end is written but never read, and the code does not keep it up to date, so
    nothing is claimed about it.
 */
module SmallMems {
  import opened Tiling
  import opened HeapBytes
  import opened SmallMemModel
  import opened SmallMemLemmas

  type Offset = int

  /** `next` and `used` of every header, heap_end included. */
  ghost predicate Headed(next: map<Offset, Offset>, used: map<Offset, bool>, bs: seq<Block>, end: int) {
    && (forall i :: 0 <= i < |bs| ==>
          && bs[i].off in next && next[bs[i].off] == bs[i].end
          && bs[i].off in used && used[bs[i].off] == bs[i].used)
    && end in next && next[end] == end && end in used && used[end]
  }

  /** `prev` of every header but heap_end; the first block is its own predecessor. */
  ghost predicate Backed(prev: map<Offset, Offset>, bs: seq<Block>) {
    && (bs != [] ==> bs[0].off in prev && prev[bs[0].off] == bs[0].off)
    && (forall i, j :: 0 <= i && j == i + 1 && j < |bs| ==> Follows(prev, bs[i], bs[j]))
  }

  predicate Follows(prev: map<Offset, Offset>, a: Block, b: Block) {
    b.off in prev && prev[b.off] == a.off
  }

  lemma HeadedSplice(n0: map<Offset, Offset>, u0: map<Offset, bool>, n1: map<Offset, Offset>, u1: map<Offset, bool>,
                     bs: seq<Block>, i: int, j: int, xs: seq<Block>, end: int)
    requires Tiled(bs, 0, end, UNIT) && Headed(n0, u0, bs, end) && 0 <= i < j <= |bs|
    requires forall x :: x in n0 && !(bs[i].off <= x < bs[j - 1].end) ==> x in n1 && n1[x] == n0[x]
    requires forall x :: x in u0 && !(bs[i].off <= x < bs[j - 1].end) ==> x in u1 && u1[x] == u0[x]
    requires forall k :: 0 <= k < |xs| ==> xs[k].off in n1 && n1[xs[k].off] == xs[k].end
    requires forall k :: 0 <= k < |xs| ==> xs[k].off in u1 && u1[xs[k].off] == xs[k].used
    ensures Headed(n1, u1, Splice(bs, i, j, xs), end)
  {
    var r := Splice(bs, i, j, xs);
    Neighbours(bs, i, 0, end, UNIT);
    Neighbours(bs, j - 1, 0, end, UNIT);
    forall k | 0 <= k < |r|
      ensures r[k].off in n1 && n1[r[k].off] == r[k].end && r[k].off in u1 && u1[r[k].off] == r[k].used
    {
      if k < i {
        assert r[k] == bs[k];
      } else if k < i + |xs| {
        assert r[k] == xs[k - i];
      } else {
        assert r[k] == bs[k - |xs| + j - i];
      }
    }
  }

  lemma BackedSplice(p0: map<Offset, Offset>, p1: map<Offset, Offset>, bs: seq<Block>, i: int, j: int, xs: seq<Block>, end: int)
    requires Tiled(bs, 0, end, UNIT) && Backed(p0, bs) && 0 <= i < j <= |bs|
    requires xs != [] && xs[0].off == bs[i].off
    requires forall x :: x in p0 && !(bs[i].off < x <= bs[j - 1].end) ==> x in p1 && p1[x] == p0[x]
    requires forall k, l :: 0 <= k && l == k + 1 && l < |xs| ==> Follows(p1, xs[k], xs[l])
    requires j < |bs| ==> Follows(p1, xs[|xs| - 1], bs[j])
    ensures Backed(p1, Splice(bs, i, j, xs))
  {
    var r, d := Splice(bs, i, j, xs), |xs| - (j - i);
    Neighbours(bs, i, 0, end, UNIT);
    Neighbours(bs, j - 1, 0, end, UNIT);
    forall k, l | 0 <= k && l == k + 1 && l < |r|
      ensures Follows(p1, r[k], r[l])
    {
      if l < i {
        assert r[k] == bs[k] && r[l] == bs[l] && Follows(p0, bs[k], bs[l]);
      } else if l == i {
        assert r[k] == bs[k] && r[l] == xs[0] && Follows(p0, bs[k], bs[l]);
      } else if l < i + |xs| {
        assert r[k] == xs[k - i] && r[l] == xs[l - i];
      } else if l == i + |xs| {
        assert r[k] == xs[|xs| - 1] && r[l] == bs[j];
      } else {
        assert r[k] == bs[k - d] && r[l] == bs[l - d];
        assert bs[j].end <= bs[l - d].off && Follows(p0, bs[k - d], bs[l - d]);
      }
    }
    assert r[0] == if i == 0 then xs[0] else bs[0];
  }

  /** The fields after block `i` is cut in two at `cut`, the first part used. */
  lemma CutFields(n: map<Offset, Offset>, p: map<Offset, Offset>, u: map<Offset, bool>, bs: seq<Block>, i: int, cut: int, end: int)
    requires Tiled(bs, 0, end, UNIT) && Headed(n, u, bs, end) && Backed(p, bs)
    requires 0 <= i < |bs| && bs[i].off < cut < bs[i].end
    ensures var b := bs[i]; var r := Splice(bs, i, i + 1, [Block(b.off, cut, true), Block(cut, b.end, false)]);
      && Headed(n[cut := b.end][b.off := cut], u[cut := false][b.off := true], r, end)
      && Backed(if b.end != end then p[cut := b.off][b.end := cut] else p[cut := b.off], r)
  {
    var b := bs[i];
    var xs := [Block(b.off, cut, true), Block(cut, b.end, false)];
    Neighbours(bs, i, 0, end, UNIT);
    HeadedSplice(n, u, n[cut := b.end][b.off := cut], u[cut := false][b.off := true], bs, i, i + 1, xs, end);
    LastBlock(bs, i, end);
    BackedSplice(p, if b.end != end then p[cut := b.off][b.end := cut] else p[cut := b.off], bs, i, i + 1, xs, end);
  }

  lemma LastBlock(bs: seq<Block>, i: int, end: int)
    requires Tiled(bs, 0, end, UNIT) && 0 <= i < |bs|
    ensures bs[i].end != end <==> i + 1 < |bs|
  {
    Neighbours(bs, i, 0, end, UNIT);
    if i + 1 < |bs| {
      Neighbours(bs, i + 1, 0, end, UNIT);
    }
  }

  lemma TakeWholeFields(n: map<Offset, Offset>, p: map<Offset, Offset>, u: map<Offset, bool>, bs: seq<Block>, i: int, end: int)
    requires Tiled(bs, 0, end, UNIT) && Headed(n, u, bs, end) && Backed(p, bs) && 0 <= i < |bs|
    ensures Headed(n, u[bs[i].off := true], Splice(bs, i, i + 1, [Block(bs[i].off, bs[i].end, true)]), end)
    ensures Backed(p, Splice(bs, i, i + 1, [Block(bs[i].off, bs[i].end, true)]))
  {
    HeadedSplice(n, u, n, u[bs[i].off := true], bs, i, i + 1, [Block(bs[i].off, bs[i].end, true)], end);
    BackedSplice(p, p, bs, i, i + 1, [Block(bs[i].off, bs[i].end, true)], end);
  }

  /** The fields after the headers of blocks i+1..j disappear. */
  lemma JoinFields(n: map<Offset, Offset>, p: map<Offset, Offset>, u: map<Offset, bool>, bs: seq<Block>, i: int, end: int)
    requires Tiled(bs, 0, end, UNIT) && Headed(n, u, bs, end) && Backed(p, bs)
    requires 0 <= i < |bs| - 1 && !bs[i].used
    ensures var r := Splice(bs, i, i + 2, [Block(bs[i].off, bs[i + 1].end, false)]);
      && Headed(n[bs[i].off := bs[i + 1].end], u, r, end)
      && Backed(p[bs[i + 1].end := bs[i].off], r)
      && Tiled(r, 0, end, UNIT) && i < |r| && r[i] == Block(bs[i].off, bs[i + 1].end, false)
  {
    var xs := [Block(bs[i].off, bs[i + 1].end, false)];
    Neighbours(bs, i, 0, end, UNIT);
    Neighbours(bs, i + 1, 0, end, UNIT);
    HeadedSplice(n, u, n[bs[i].off := bs[i + 1].end], u, bs, i, i + 2, xs, end);
    BackedSplice(p, p[bs[i + 1].end := bs[i].off], bs, i, i + 2, xs, end);
    SpliceTiled(bs, i, i + 2, xs, 0, end, UNIT);
  }

  /** The two shapes of Grant, without the case distinction. */
  lemma GrantShape(s: State, i: int, size: int)
    requires 0 <= i < |s.blocks|
    ensures var b, g := s.blocks[i], Grant(s, i, size);
      if Splits(b, size, HDR, MIN_ALIGNED)
      then && g.blocks == Splice(s.blocks, i, i + 1, [Block(b.off, b.off + HDR + size, true), Block(b.off + HDR + size, b.end, false)])
           && g == WithUsed(s, s.usedMem + (size + HDR)).(blocks := g.blocks)
      else && g.blocks == Splice(s.blocks, i, i + 1, [Block(b.off, b.end, true)])
           && g == WithUsed(s, s.usedMem + (b.end - b.off)).(blocks := g.blocks)
  {
  }

  // ---- plug_holes, forward and then backward ------------------------------------------------

  ghost function RightJoined(bs: seq<Block>, i: int): seq<Block>
    requires 0 <= i < |bs|
  {
    if i + 1 < MergeTo(bs, i) then Splice(bs, i, i + 2, [Block(bs[i].off, bs[i + 1].end, false)]) else bs
  }

  lemma JoinsMakeRelease(bs: seq<Block>, i: int)
    requires 0 <= i < |bs| && !bs[i].used
    ensures var r, x := RightJoined(bs, i), bs[MergeTo(bs, i) - 1].end;
      && i < |r| && r[i] == Block(bs[i].off, x, false)
      && (0 < i ==> r[i - 1] == bs[i - 1])
      && (if MergeFrom(bs, i) < i
          then Splice(r, i - 1, i + 1, [Block(bs[i - 1].off, x, false)]) == Release(bs, i)
          else r == Release(bs, i))
  {
    var r, to := RightJoined(bs, i), MergeTo(bs, i);
    RightJoinedIs(bs, i);
    hide RightJoined;
    if MergeFrom(bs, i) < i {
      assert r[..i - 1] == r[..i][..i - 1];
      assert bs[..i - 1] == bs[..i][..i - 1];
    } else {
      assert r == r[..i] + [r[i]] + r[i + 1..];
    }
  }

  lemma RightJoinedIs(bs: seq<Block>, i: int)
    requires 0 <= i < |bs| && !bs[i].used
    ensures var r, to := RightJoined(bs, i), MergeTo(bs, i);
      && i < |r| && r[..i] == bs[..i] && r[i] == Block(bs[i].off, bs[to - 1].end, false) && r[i + 1..] == bs[to..]
      && (0 < i ==> r[i - 1] == bs[i - 1])
  {
  }

  /** What the headers around block `i` say. */
  lemma Around(n: map<Offset, Offset>, p: map<Offset, Offset>, u: map<Offset, bool>, bs: seq<Block>, i: int, end: int)
    requires Tiled(bs, 0, end, UNIT) && Headed(n, u, bs, end) && Backed(p, bs) && 0 <= i < |bs|
    ensures var b := bs[i];
      && b.off in n && n[b.off] == b.end && b.off in u && u[b.off] == b.used && b.end in n && b.end in u
      && (!u[b.end] <==> i + 1 < MergeTo(bs, i)) && (b.end == end ==> u[b.end]) && b.end != b.off
      && (i + 1 < |bs| ==> b.end == bs[i + 1].off && n[b.end] == bs[i + 1].end)
      && b.off in p && p[b.off] in u
      && (p[b.off] != b.off && !u[p[b.off]] <==> MergeFrom(bs, i) < i)
      && (0 < i ==> p[b.off] == bs[i - 1].off) && (i == 0 ==> p[b.off] == b.off)
      && (MergeFrom(bs, i) < i ==> p[b.off] < b.off)
  {
    Neighbours(bs, i, 0, end, UNIT);
    assert 0 < i ==> Follows(p, bs[i - 1], bs[i]);
  }

  /** Block `i` marked free, nothing joined yet. */
  ghost function Unmarked(bs: seq<Block>, i: int): seq<Block>
    requires 0 <= i < |bs|
  {
    Splice(bs, i, i + 1, [Block(bs[i].off, bs[i].end, false)])
  }

  lemma FreedFields(n: map<Offset, Offset>, p: map<Offset, Offset>, u: map<Offset, bool>, bs: seq<Block>, i: int, end: int)
    requires Tiled(bs, 0, end, UNIT) && Headed(n, u, bs, end) && Backed(p, bs) && 0 <= i < |bs|
    ensures Tiled(Unmarked(bs, i), 0, end, UNIT)
    ensures Headed(n, u[bs[i].off := false], Unmarked(bs, i), end) && Backed(p, Unmarked(bs, i))
  {
    var xs := [Block(bs[i].off, bs[i].end, false)];
    Neighbours(bs, i, 0, end, UNIT);
    HeadedSplice(n, u, n, u[bs[i].off := false], bs, i, i + 1, xs, end);
    BackedSplice(p, p, bs, i, i + 1, xs, end);
    SpliceTiled(bs, i, i + 1, xs, 0, end, UNIT);
  }

  lemma UnmarkedRelease(bs: seq<Block>, i: int)
    requires 0 <= i < |bs|
    ensures var r := Unmarked(bs, i);
      && |r| == |bs| && r[i] == Block(bs[i].off, bs[i].end, false)
      && Release(r, i) == Release(bs, i) && MergeFrom(r, i) == MergeFrom(bs, i) && MergeTo(r, i) == MergeTo(bs, i)
      && (0 < i ==> r[i - 1] == bs[i - 1])
  {
    var r := Unmarked(bs, i);
    assert r[..MergeFrom(bs, i)] == bs[..MergeFrom(bs, i)];
    assert r[MergeTo(bs, i)..] == bs[MergeTo(bs, i)..];
  }

  /** What plug_holes makes of `lfree`. */
  ghost function Plugged(lfree: Offset, bs: seq<Block>, i: int): Offset
    requires 0 <= i < |bs|
  {
    var l := if i + 1 < MergeTo(bs, i) && lfree == bs[i + 1].off then bs[i].off else lfree;
    if MergeFrom(bs, i) < i && l == bs[i].off then bs[i - 1].off else l
  }

  class SmallMem {
    var memSize: int   // mem_size_aligned
    var next: map<Offset, Offset>
    var prev: map<Offset, Offset>
    var used: map<Offset, bool>
    var lfree: Offset
    var usedMem: int
    var maxMem: int
    var data: seq<byte>
    ghost var s: State

    ghost predicate Linked(bs: seq<Block>)
      reads this
    {
      Headed(next, used, bs, memSize + HDR) && Backed(prev, bs)
    }

    ghost predicate Valid()
      reads this
    {
      && Inv(s)
      && s.size == memSize && s.usedMem == usedMem && s.maxMem == maxMem
      && |data| == memSize + 2 * HDR
      && Linked(s.blocks)
      && lfree == LowestFree(s.blocks, memSize + HDR)
    }

    /** rt_system_heap_init, for begin and end addresses that leave at least one block. */
    constructor (beginAddr: int, endAddr: int)
      requires 0 <= beginAddr && 0 <= endAddr < 0x1_0000_0000
      requires Align8(beginAddr) + 2 * HDR + MIN_ALIGNED <= endAddr / 8 * 8
      ensures Valid() && s == Init(endAddr / 8 * 8 - Align8(beginAddr) - 2 * HDR)
    {
      var size := endAddr / 8 * 8 - Align8(beginAddr) - 2 * HDR;
      var end := size + HDR;
      memSize := size;
      next, prev := map[0 := end, end := end], map[0 := 0, end := end];
      used := map[0 := false, end := true];
      lfree, usedMem, maxMem := 0, 0, 0;
      data := seq(size + 2 * HDR, _ => 0);
      s := Init(size);
      new;
      hide Inv;
      InitInv(size);
    }

    /** Builds a header in the middle of block `i`. */
    method NewHeader(ptr: Offset, ptr2: Offset, ghost bs: seq<Block>, ghost i: int)
      requires Tiled(bs, 0, memSize + HDR, UNIT) && Linked(bs)
      requires 0 <= i < |bs| && bs[i].off == ptr && ptr < ptr2 && ptr2 + HDR <= bs[i].end
      requires |data| == memSize + 2 * HDR
      modifies this`next, this`prev, this`used, this`data
      ensures Linked(Splice(bs, i, i + 1, [Block(ptr, ptr2, true), Block(ptr2, bs[i].end, false)]))
      ensures |data| == |old(data)|
      ensures forall k :: 0 <= k < |data| && !(ptr2 <= k < ptr2 + HDR) ==> data[k] == old(data)[k]
    {
      hide Tiled, Splice;
      Neighbours(bs, i, 0, memSize + HDR, UNIT);
      CutFields(next, prev, used, bs, i, ptr2, memSize + HDR);
      assert |seq(HDR, _ => 0 as byte)| == HDR;
      var junk: seq<byte> :| |junk| == HDR;
      data := data[..ptr2] + junk + data[ptr2 + HDR..];
      used := used[ptr2 := false];
      next := next[ptr2 := next[ptr]];
      prev := prev[ptr2 := ptr];
      next := next[ptr := ptr2];
      used := used[ptr := true];
      if next[ptr2] != memSize + HDR {
        prev := prev[next[ptr2] := ptr2];
      }
    }

    /** plug_holes: joins free block `i` with the free blocks next to it. */
    method PlugHoles(mem: Offset, ghost bs: seq<Block>, ghost i: int)
      requires Tiled(bs, 0, memSize + HDR, UNIT) && Linked(bs)
      requires 0 <= i < |bs| && bs[i].off == mem && !bs[i].used
      modifies this`next, this`prev, this`lfree
      ensures Linked(Release(bs, i)) && lfree == Plugged(old(lfree), bs, i)
    {
      hide Tiled, Splice, Headed, Backed, Release;
      ghost var end := memSize + HDR;
      Around(next, prev, used, bs, i, end);
      JoinsMakeRelease(bs, i);
      var nmem := next[mem];
      if mem != nmem && !used[nmem] && nmem != memSize + HDR {
        JoinFields(next, prev, used, bs, i, end);
        Neighbours(bs, i, 0, end, UNIT);
        if lfree == nmem {
          lfree := mem;
        }
        next := next[mem := next[nmem]];
        prev := prev[next[nmem] := mem];
      }
      ghost var r := RightJoined(bs, i);
      Around(next, prev, used, r, i, end);
      var pmem := prev[mem];
      if pmem != mem && !used[pmem] {
        JoinFields(next, prev, used, r, i - 1, end);
        if lfree == mem {
          lfree := pmem;
        }
        next := next[pmem := next[mem]];
        prev := prev[next[mem] := pmem];
      }
    }

    /** Raises the used byte count and its high-water mark. */
    method Charge(size: int)
      modifies this`usedMem, this`maxMem
      ensures usedMem == old(usedMem) + size
      ensures maxMem == if old(maxMem) < usedMem then usedMem else old(maxMem)
    {
      usedMem := usedMem + size;
      if maxMem < usedMem {
        maxMem := usedMem;
      }
    }

    /** The part of rt_malloc that takes `size` bytes from the free block at `ptr`. */
    method Carve(ptr: Offset, size: int, ghost i: int)
      requires Valid() && 0 <= i < |s.blocks| && s.blocks[i].off == ptr && !s.blocks[i].used
      requires 8 <= size <= Payload(s.blocks[i], HDR) && size % 8 == 0
      modifies this
      ensures Valid() && s == Grant(old(s), i, size)
      ensures |data| == |old(data)| && BytesKept(HDR, old(s.blocks), -1, old(data), data)
    {
      hide Inv, Tiled, Splice, Headed, Backed, Grant;
      ghost var bs, end := s.blocks, memSize + HDR;
      CarvePlan(s, i, size);
      GrantShape(s, i, size);
      Around(next, prev, used, bs, i, end);
      var payload := next[ptr] - (ptr + HDR);
      if payload >= size + HDR + MIN_ALIGNED {
        NewHeader(ptr, ptr + HDR + size, bs, i);
        Charge(size + HDR);
      } else {
        TakeWholeFields(next, prev, used, bs, i, end);
        used := used[ptr := true];
        Charge(next[ptr] - ptr);
      }
      KeptElsewhere(HDR, bs, i, end, UNIT, old(data), data);
      ghost var t := Grant(s, i, size);
      if ptr == lfree {
        AdvanceLowest(t, i);
      }
      s := t;
    }

    /** Moves `lfree` from block `i`, now used, to the next free one. */
    method AdvanceLowest(ghost t: State, ghost i: int)
      requires Inv(t) && t.size == memSize && Linked(t.blocks)
      requires 0 <= i < |t.blocks| && lfree == t.blocks[i].off && forall j :: 0 <= j < i ==> t.blocks[j].used
      modifies this`lfree
      ensures lfree == LowestFree(t.blocks, memSize + HDR)
    {
      hide NoFreePair, Extent, Aligned;
      ghost var bs, end, k := t.blocks, memSize + HDR, i;
      while used[lfree] && lfree != memSize + HDR
        invariant i <= k <= |bs| && lfree == (if k < |bs| then bs[k].off else end)
        invariant lfree in used && forall j :: 0 <= j < k ==> bs[j].used
        invariant Linked(bs)
        decreases |bs| - k
      {
        Neighbours(bs, k, 0, end, UNIT);
        lfree := next[lfree];
        k := k + 1;
      }
      LowestFrom(bs, k, end);
    }

    /** Where the search starts: every block below `lfree` is used. */
    lemma SearchStart() returns (k: int)
      requires Valid()
      ensures 0 <= k <= |s.blocks| && lfree == if k < |s.blocks| then s.blocks[k].off else memSize + HDR
      ensures forall j :: 0 <= j < k ==> s.blocks[j].used
    {
      hide Extent, Aligned, NoFreePair, Headed, Backed;
      k := Find(s.blocks, lfree);
      LowestFreeIs(s.blocks, 0, memSize + HDR);
      forall j | 0 <= j < k
        ensures s.blocks[j].used
      {
        Neighbours(s.blocks, j, 0, memSize + HDR, UNIT);
        BelowLowestUsed(s.blocks, j, memSize + HDR);
      }
    }

    /** The search of rt_malloc: the first block with room from `lfree` on, below the bound. */
    method FindFit(size: int) returns (ptr: Offset, ghost k: int)
      requires Valid() && 0 < size <= memSize
      ensures k == Search(s.blocks, size, memSize)
      ensures ptr < memSize - size <==> k < |s.blocks|
      ensures k < |s.blocks| ==> ptr == s.blocks[k].off
    {
      hide Inv, Tiled, Headed, Backed;
      ghost var bs, end := s.blocks, memSize + HDR;
      k := SearchStart();
      ptr := lfree;
      PoolTiled(s);
      while ptr < memSize - size
        invariant 0 <= k <= |bs| && ptr == if k < |bs| then bs[k].off else end
        invariant forall j :: 0 <= j < k ==> !Admits(bs[j], size, memSize)
        decreases |bs| - k
      {
        Around(next, prev, used, bs, k, end);
        if !used[ptr] && next[ptr] - (ptr + HDR) >= size {
          SearchIs(bs, size, memSize, k);
          return;
        }
        Neighbours(bs, k, 0, end, UNIT);
        ptr := next[ptr];
        k := k + 1;
      }
      BeyondBound(bs, size, memSize, k, end);
      k := |bs|;
    }

    /** rt_malloc */
    method Malloc(request: int) returns (p: int)
      requires Valid() && 0 <= request <= MAX_REQUEST
      modifies this
      ensures Valid() && (s, p) == SmallMemModel.Malloc(old(s), request)
      ensures |data| == |old(data)| && BytesKept(HDR, old(s.blocks), -1, old(data), data)
      ensures p == NULL ==> data == old(data)
    {
      hide Inv, Headed, Backed, Grant, BytesKept;
      p := NULL;
      KeptSame(HDR, s.blocks, -1, data);
      if request == 0 {
        return;
      }
      var size := Align8(request);
      if size > memSize {
        return;
      }
      if size < MIN_ALIGNED {
        size := MIN_ALIGNED;
      }
      EnoughRoom(s);
      ghost var k;
      var ptr;
      ptr, k := FindFit(size);
      if ptr < memSize - size {
        Carve(ptr, size, k);
        p := ptr + HDR;
      }
    }

    /** rt_free */
    method Free(p: int)
      requires Valid() && (p == NULL || Live(s, p))
      modifies this
      ensures Valid() && s == SmallMemModel.Free(old(s), p)
      ensures data == old(data)
    {
      hide Inv, Tiled, Headed, Backed, Release, Splice, SmallMemModel.Free, Plugged, LowestFree, Unmarked;
      if p == NULL {
        FreeNull(s);
        return;
      }
      var mem := p - HDR;
      ghost var bs, end, i := s.blocks, memSize + HDR, Find(s.blocks, p - HDR);
      FreePlan(s, p);
      Around(next, prev, used, bs, i, end);
      FreedFields(next, prev, used, bs, i, end);
      UnmarkedRelease(bs, i);
      used := used[mem := false];
      if mem < lfree {
        lfree := mem;
      }
      usedMem := usedMem - (next[mem] - mem);
      PlugHoles(mem, Unmarked(bs, i), i);
      s := SmallMemModel.Free(s, p);
    }

    /** The part of rt_realloc that splits a block in use. */
    method Shrink(p: int, size: int, oldSize: int, ghost i: int)
      requires Valid() && Live(s, p) && i == Find(s.blocks, p - HDR)
      requires i < |s.blocks| && oldSize == Payload(s.blocks[i], HDR)
      requires 8 <= size && size % 8 == 0 && size + HDR + MIN_SIZE < oldSize
      modifies this
      ensures Valid() && s == Shrunk(old(s), i, size)
      ensures |data| == |old(data)| && BytesKept(HDR, old(s.blocks), p - HDR, old(data), data)
      ensures Same(old(data), p, data, p, size)
    {
      hide Inv, Tiled, Headed, Backed, Release, Splice, Plugged, LowestFree, Resize;
      ghost var bs, end, cut := s.blocks, memSize + HDR, p + size;
      ShrinkPlan(s, p, size);
      usedMem := usedMem - (oldSize - size);
      var ptr, ptr2 := p - HDR, p + size;
      NewHeader(ptr, ptr2, bs, i);
      if ptr2 < lfree {
        lfree := ptr2;
      }
      PlugHoles(ptr2, Halves(bs, i, cut), i + 1);
      KeptElsewhere(HDR, bs, i, end, UNIT, old(data), data);
      s := Shrunk(s, i, size);
    }

    /** rt_memcpy between two blocks of the heap. */
    method Copy(to: int, from: int, n: int)
      requires 0 <= n && 0 <= from && from + n <= |data| && 0 <= to && to + n <= |data|
      modifies this`data
      ensures |data| == |old(data)|
      ensures data[to..to + n] == old(data)[from..from + n]
      ensures forall k :: 0 <= k < |data| && !(to <= k < to + n) ==> data[k] == old(data)[k]
    {
      data := data[..to] + data[from..from + n] + data[to + n..];
    }

    /** The part of rt_realloc that moves to another block. */
    method Move(p: int, size: int, oldSize: int) returns (q: int)
      requires Valid() && Live(s, p) && 0 < size <= MAX_REQUEST
      requires Find(s.blocks, p - HDR) < |s.blocks| && oldSize == Payload(s.blocks[Find(s.blocks, p - HDR)], HDR)
      modifies this
      ensures Valid() && |data| == |old(data)|
      ensures q == SmallMemModel.Malloc(old(s), size).1
      ensures s == var t := SmallMemModel.Malloc(old(s), size).0; if q == NULL then t else SmallMemModel.Free(t, p)
      ensures BytesKept(HDR, old(s.blocks), p - HDR, old(data), data)
      ensures q == NULL ==> data == old(data)
      ensures q != NULL ==> Same(old(data), p, data, q, if oldSize < size then oldSize else size)
    {
      hide Inv, Tiled, Headed, Backed, BytesKept, SmallMemModel.Malloc, SmallMemModel.Free, LowestFree;
      MovePlan(s, p, size);
      ghost var bs, end, d0 := s.blocks, memSize + HDR, data;
      q := Malloc(size);
      if q != NULL {
        ghost var d1 := data;
        var n := if oldSize < size then oldSize else size;
        Copy(q, p, n);
        MovedBytes(HDR, bs, Find(bs, p - HDR), Find(bs, q - HDR), end, UNIT, d0, d1, data, n);
        Free(p);
      } else {
        KeptSame(HDR, bs, p - HDR, d0);
      }
    }

    /** rt_realloc */
    method Realloc(p: int, request: int) returns (q: int)
      requires Valid() && 0 <= request <= MAX_REQUEST && Passable(s, p) && (request == 0 ==> p == NULL || Live(s, p))
      modifies this
      ensures Valid() && |data| == |old(data)|
      ensures (s, q) == SmallMemModel.Realloc(old(s), p, request)
      ensures BytesKept(HDR, old(s.blocks), p - HDR, old(data), data)
      ensures q == NULL ==> data == old(data)
      ensures q != NULL && Live(old(s), p) ==> Find(old(s).blocks, p - HDR) < |old(s).blocks|
      ensures q != NULL && Live(old(s), p) ==>
        var oldSize := Payload(old(s).blocks[Find(old(s).blocks, p - HDR)], HDR);
        Same(old(data), p, data, q, if oldSize < request then oldSize else request)
    {
      hide Inv, Tiled, Headed, Backed, BytesKept, SmallMemModel.Malloc, SmallMemModel.Free, LowestFree, At, Release1, Resize;
      KeptSame(HDR, s.blocks, p - HDR, data);
      EnoughRoom(s);
      if Live(s, p) {
        NullNotLive(s, p);
      }
      var size := Align8(request);
      if size > memSize {
        return NULL;
      } else if size == 0 {
        Free(p);
        return NULL;
      }
      if p == NULL {
        q := Malloc(size);
        KeptMore(HDR, old(s.blocks), p - HDR, old(data), data);
        return;
      }
      if p < 0 || p >= memSize + HDR {
        return p;
      }
      q := Readjust(p, size);
      if q != NULL {
        ghost var oldSize := Payload(old(s).blocks[Find(old(s).blocks, p - HDR)], HDR);
        SameShorter(old(data), p, data, q, if oldSize < size then oldSize else size,
                    if oldSize < request then oldSize else request);
      }
    }

    /** rt_realloc for a block in use and an aligned size that is not zero. */
    method Readjust(p: int, size: int) returns (q: int)
      requires Valid() && p != NULL && Live(s, p) && 8 <= size <= memSize && size % 8 == 0 && size <= MAX_REQUEST
      modifies this
      ensures Valid() && |data| == |old(data)|
      ensures (s, q) == SmallMemModel.Realloc(old(s), p, size)
      ensures BytesKept(HDR, old(s.blocks), p - HDR, old(data), data)
      ensures q == NULL ==> data == old(data)
      ensures Find(old(s).blocks, p - HDR) < |old(s).blocks|
      ensures q != NULL ==>
        var oldSize := Payload(old(s).blocks[Find(old(s).blocks, p - HDR)], HDR);
        Same(old(data), p, data, q, if oldSize < size then oldSize else size)
    {
      hide Inv, Tiled, Headed, Backed, BytesKept, SmallMemModel.Malloc, LowestFree, At, Release1, Resize;
      LiveEntry(s, p);
      PoolTiled(s);
      ghost var i := Find(s.blocks, p - HDR);
      Around(next, prev, used, s.blocks, i, memSize + HDR);
      var mem := p - HDR;
      var oldSize := next[mem] - mem - HDR;
      if oldSize == size {
        KeptSame(HDR, s.blocks, p - HDR, data);
        return p;
      }
      if size + HDR + MIN_SIZE < oldSize {
        Shrink(p, size, oldSize, i);
        return p;
      }
      q := Move(p, size, oldSize);
    }
  }

  /** The state after block `i` was cut down to `size` bytes of payload. */
  function Shrunk(s: State, i: int, size: int): State
    requires 0 <= i < |s.blocks|
  {
    s.(blocks := Resize(s.blocks, i, s.blocks[i].off + HDR + size),
       usedMem := s.usedMem - (Payload(s.blocks[i], HDR) - size))
  }

  ghost function Halves(bs: seq<Block>, i: int, cut: int): seq<Block>
    requires 0 <= i < |bs|
  {
    Splice(bs, i, i + 1, [Block(bs[i].off, cut, true), Block(cut, bs[i].end, false)])
  }

  lemma HalvesTiled(bs: seq<Block>, i: int, cut: int, end: int)
    requires Tiled(bs, 0, end, UNIT) && 0 <= i < |bs| && bs[i].off + UNIT <= cut <= bs[i].end - UNIT
    ensures Tiled(Halves(bs, i, cut), 0, end, UNIT)
  {
    var xs := [Block(bs[i].off, cut, true), Block(cut, bs[i].end, false)];
    assert Tiled(xs, bs[i].off, bs[i].end, UNIT);
    SpliceTiled(bs, i, i + 1, xs, 0, end, UNIT);
  }

  lemma HalvesAre(bs: seq<Block>, i: int, cut: int)
    requires 0 <= i < |bs|
    ensures var h := Halves(bs, i, cut);
      && |h| == |bs| + 1 && h[i] == Block(bs[i].off, cut, true) && h[i + 1] == Block(cut, bs[i].end, false)
      && (i + 1 < |bs| ==> h[i + 2] == bs[i + 1])
      && h[..i + 1] == bs[..i] + [Block(bs[i].off, cut, true)]
      && h[i + 2..] == bs[i + 1..]
  {
  }

  /** Cutting block `i` and giving back the second half is resizing it. */
  lemma HalvesRelease(bs: seq<Block>, i: int, cut: int)
    requires 0 <= i < |bs|
    ensures var h := Halves(bs, i, cut);
      && i + 1 < |h| && h[i + 1] == Block(cut, bs[i].end, false)
      && MergeFrom(h, i + 1) == i + 1
      && (if i + 1 < MergeTo(bs, i) then MergeTo(h, i + 1) == i + 3 && h[i + 2] == bs[i + 1] else MergeTo(h, i + 1) == i + 2)
      && Release(h, i + 1) == Resize(bs, i, cut)
  {
    HalvesAre(bs, i, cut);
    hide Halves;
    var h, to := Halves(bs, i, cut), MergeTo(bs, i);
    var x := Block(cut, bs[to - 1].end, false);
    assert MergeFrom(h, i + 1) == i + 1 && MergeTo(h, i + 1) == to + 1;
    assert h[to].end == bs[to - 1].end;
    assert Release(h, i + 1) == h[..i + 1] + [x] + h[to + 1..];
    assert h[to + 1..] == bs[to..] by {
      assert h[to + 1..] == h[i + 2..][to - i - 1..];
      assert bs[to..] == bs[i + 1..][to - i - 1..];
    }
    hide Release, MergeTo;
    assert bs[..i] + [Block(bs[i].off, cut, true)] + [x] + bs[to..]
        == bs[..i] + [Block(bs[i].off, cut, true), x] + bs[to..];
  }

  lemma ShrinkPlan(s: State, p: int, size: int)
    requires Inv(s) && Live(s, p) && Find(s.blocks, p - HDR) < |s.blocks|
    requires 8 <= size && size % 8 == 0 && size + HDR + MIN_SIZE < Payload(s.blocks[Find(s.blocks, p - HDR)], HDR)
    ensures var bs, i, lf, cut, end := s.blocks, Find(s.blocks, p - HDR), LowestFree(s.blocks, End(s)), p + size, End(s);
      && Tiled(bs, 0, end, UNIT) && Inv(Shrunk(s, i, size))
      && bs[i].used && bs[i].off == p - HDR && HDR <= p && cut + HDR <= bs[i].end <= end
      && Tiled(Halves(bs, i, cut), 0, end, UNIT)
      && i + 1 < |Halves(bs, i, cut)| && Halves(bs, i, cut)[i + 1] == Block(cut, bs[i].end, false)
      && Release(Halves(bs, i, cut), i + 1) == Resize(bs, i, cut)
      && LowestFree(Resize(bs, i, cut), end) == Plugged(if cut < lf then cut else lf, Halves(bs, i, cut), i + 1)
  {
    hide Extent, Aligned, Resize, Release, Splice, NoFreePair, Tiled, Halves, LowestFree, Plugged, At;
    LiveEntry(s, p);
    var bs, i := s.blocks, Find(s.blocks, p - HDR);
    Neighbours(bs, i, 0, End(s), UNIT);
    ShrinkKeeps(s, i, size);
    ShrinkRoom(s, i, size);
    HalvesTiled(bs, i, p + size, End(s));
    HalvesRelease(bs, i, p + size);
    PluggedCut(s, i, p + size);
  }

  lemma PluggedCut(s: State, i: int, cut: int)
    requires Inv(s) && 0 <= i < |s.blocks| && s.blocks[i].used
    requires s.blocks[i].off + UNIT <= cut <= s.blocks[i].end - UNIT
    requires i + 1 < |Halves(s.blocks, i, cut)|
    ensures var bs, lf := s.blocks, LowestFree(s.blocks, End(s));
      LowestFree(Resize(bs, i, cut), End(s)) == Plugged(if cut < lf then cut else lf, Halves(bs, i, cut), i + 1)
  {
    hide Extent, Aligned, Resize, Tiled, Halves, LowestFree, NoFreePair, Release;
    var bs := s.blocks;
    ResizeLowest(bs, i, cut, End(s));
    HalvesRelease(bs, i, cut);
    Neighbours(bs, i, 0, End(s), UNIT);
  }

  /** Offsets are multiples of 8, so more than 12 spare bytes are at least 16. */
  lemma ShrinkRoom(s: State, i: int, size: int)
    requires Inv(s) && 0 <= i < |s.blocks| && size % 8 == 0 && size + HDR + MIN_SIZE < Payload(s.blocks[i], HDR)
    ensures s.blocks[i].off + HDR + size <= s.blocks[i].end - UNIT
  {
    hide Extent, Tiled, NoFreePair;
  }

  lemma MovePlan(s: State, p: int, size: int)
    requires Inv(s) && Live(s, p) && 0 <= size <= MAX_REQUEST
    ensures Live(SmallMemModel.Malloc(s, size).0, p) && p != NULL
    ensures var i, bs := Find(s.blocks, p - HDR), s.blocks;
      && i < |bs| && bs[i].off == p - HDR && bs[i].used && HDR <= p && p + 8 <= bs[i].end <= End(s)
      && Tiled(bs, 0, End(s), UNIT)
    ensures var q, bs := SmallMemModel.Malloc(s, size).1, s.blocks;
      q != NULL ==> var j := Find(bs, q - HDR);
        j < |bs| && bs[j].off == q - HDR && !bs[j].used && q + size <= bs[j].end <= End(s) && HDR <= q
  {
    hide Extent, NoFreePair, At, Aligned, SmallMemModel.Malloc, Tiled;
    LiveEntry(s, p);
    MallocKeepsLive(s, size, p);
    var q := SmallMemModel.Malloc(s, size).1;
    if q != NULL {
      MallocPlace(s, size);
      Neighbours(s.blocks, Find(s.blocks, q - HDR), 0, End(s), UNIT);
    }
  }

  lemma MallocPlace(s: State, request: int)
    requires Inv(s) && 0 <= request <= MAX_REQUEST && SmallMemModel.Malloc(s, request).1 != NULL
    ensures var p := SmallMemModel.Malloc(s, request).1; var j := Find(s.blocks, p - HDR);
      j < |s.blocks| && s.blocks[j].off == p - HDR && !s.blocks[j].used && Payload(s.blocks[j], HDR) >= request
  {
    hide Grant, Extent, NoFreePair, Aligned;
    FindAt(s.blocks, Search(s.blocks, SearchSize(request), s.size), 0, End(s), UNIT);
  }

  lemma NullNotLive(s: State, p: int)
    requires Inv(s) && Live(s, p)
    ensures p != NULL && InHeap(s, p)
  {
    LiveEntry(s, p);
  }

  lemma PoolTiled(s: State)
    requires Inv(s)
    ensures Tiled(s.blocks, 0, End(s), UNIT)
  {
  }

  lemma EnoughRoom(s: State)
    requires Inv(s)
    ensures MIN_ALIGNED <= s.size && forall i :: 0 <= i < |s.blocks| ==> 0 <= s.blocks[i].off
  {
    hide Extent, Aligned, NoFreePair;
    forall i | 0 <= i < |s.blocks|
      ensures 0 <= s.blocks[i].off
    {
      Neighbours(s.blocks, i, 0, End(s), UNIT);
    }
  }

  lemma FreeNull(s: State)
    ensures SmallMemModel.Free(s, NULL) == s
  {
  }

  lemma SearchIs(bs: seq<Block>, size: int, memSize: int, k: int)
    requires 0 <= k <= |bs|
    requires forall j :: 0 <= j < k ==> !Admits(bs[j], size, memSize)
    requires k < |bs| ==> Admits(bs[k], size, memSize)
    ensures Search(bs, size, memSize) == k
  {
    var f := Search(bs, size, memSize);
    assert f < k || f == k || k < f;
  }

  /** Once the search is past its bound, no block further up is admitted either. */
  lemma BeyondBound(bs: seq<Block>, size: int, memSize: int, k: int, end: int)
    requires Tiled(bs, 0, end, UNIT) && 0 <= k <= |bs|
    requires forall j :: 0 <= j < k ==> !Admits(bs[j], size, memSize)
    requires k < |bs| ==> bs[k].off >= memSize - size
    ensures Search(bs, size, memSize) == |bs|
  {
    forall j | 0 <= j < |bs|
      ensures !Admits(bs[j], size, memSize)
    {
      if k < j {
        assert bs[k].end <= bs[j].off;
      }
    }
    SearchIs(bs, size, memSize, |bs|);
  }

  lemma FreePlan(s: State, p: int)
    requires Inv(s) && Live(s, p)
    ensures var bs, i := s.blocks, Find(s.blocks, p - HDR);
      && Tiled(bs, 0, End(s), UNIT) && Inv(SmallMemModel.Free(s, p)) && p != NULL
      && i < |bs| && bs[i].used && bs[i].off == p - HDR
      && SmallMemModel.Free(s, p) == s.(blocks := Release(bs, i), usedMem := s.usedMem - (bs[i].end - bs[i].off))
    ensures var bs, i, lf := s.blocks, Find(s.blocks, p - HDR), LowestFree(s.blocks, End(s));
      LowestFree(Release(bs, i), End(s)) == Plugged(if p - HDR < lf then p - HDR else lf, Unmarked(bs, i), i)
  {
    hide Inv, Live, Release, LowestFree, Plugged, Unmarked, Tiled;
    LiveEntry(s, p);
    FreeKeeps(s, p);
    PoolTiled(s);
    PluggedLowest(s, Find(s.blocks, p - HDR));
  }

  lemma PluggedLowest(s: State, i: int)
    requires Inv(s) && 0 <= i < |s.blocks| && s.blocks[i].used
    ensures var bs, lf := s.blocks, LowestFree(s.blocks, End(s));
      LowestFree(Release(bs, i), End(s)) == Plugged(if bs[i].off < lf then bs[i].off else lf, Unmarked(bs, i), i)
  {
    hide Extent, Aligned, Release, Tiled, Unmarked, LowestFree, NoFreePair;
    var bs := s.blocks;
    ReleaseLowest(bs, i, End(s));
    UnmarkedRelease(bs, i);
    Neighbours(bs, i, 0, End(s), UNIT);
    LowestFreeIs(bs, 0, End(s));
    assert 0 < i && !bs[i - 1].used ==> At(bs, bs[i - 1].off, false);
    assert i + 1 < MergeTo(bs, i) ==> Unmarked(bs, i)[i + 1] == bs[i + 1] by {
      UnmarkedNext(bs, i);
    }
  }

  lemma UnmarkedNext(bs: seq<Block>, i: int)
    requires 0 <= i < |bs|
    ensures i + 1 < |bs| ==> i + 1 < |Unmarked(bs, i)| && Unmarked(bs, i)[i + 1] == bs[i + 1]
  {
  }

  lemma CarvePlan(s: State, i: int, size: int)
    requires Inv(s) && 0 <= i < |s.blocks| && !s.blocks[i].used && 8 <= size && size % 8 == 0
    ensures Tiled(s.blocks, 0, End(s), UNIT) && 0 <= s.blocks[i].off && s.blocks[i].end <= End(s)
    ensures Inv(Grant(s, i, size))
    ensures var t := Grant(s, i, size);
      && i < |t.blocks| && t.blocks[i].off == s.blocks[i].off
      && (s.blocks[i].off != LowestFree(s.blocks, End(s)) ==> LowestFree(t.blocks, End(s)) == LowestFree(s.blocks, End(s)))
      && (s.blocks[i].off == LowestFree(s.blocks, End(s)) ==> forall j :: 0 <= j < i ==> t.blocks[j].used)
  {
    hide Extent, Aligned;
    GrantKeeps(s, i, size);
    Neighbours(s.blocks, i, 0, End(s), UNIT);
    if s.blocks[i].off != LowestFree(s.blocks, End(s)) {
      GrantLowest(s.blocks, i, size, End(s));
    } else {
      forall j | 0 <= j < i
        ensures Grant(s, i, size).blocks[j].used
      {
        BelowLowestUsed(s.blocks, j, End(s));
      }
    }
  }
}
