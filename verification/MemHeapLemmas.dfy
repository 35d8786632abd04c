/** What the memory heap transitions keep, one by one and over every run. */
module MemHeapLemmas {
  import opened Tiling
  import opened RtList
  import opened Sequences
  import opened MemHeapModel

  // ---- The free list as an index of the free blocks -------------------------------------

  lemma {:induction false} DroppedIs(ring: seq<Node>, x: Node)
    requires Distinct(ring)
    ensures Distinct(Dropped(ring, x))
    ensures forall y :: y in Dropped(ring, x) <==> y in ring && y != x
  {
    if ring != [] {
      var t, d := ring[1..], Dropped(ring[1..], x);
      assert ring == [ring[0]] + t;
      assert Distinct(t) by {
        assert forall i :: 0 <= i < |t| ==> t[i] == ring[i + 1];
      }
      DroppedIs(t, x);
      assert ring[0] !in t;
      if ring[0] != x {
        assert ring[0] !in d;
      }
    }
  }

  lemma WithoutIs(ring: seq<Node>, k: int)
    requires Distinct(ring) && 0 <= k < |ring|
    ensures Distinct(Without(ring, k))
    ensures forall y :: y in Without(ring, k) <==> y in ring && y != ring[k]
  {
    var w := Without(ring, k);
    forall y | y in ring && y != ring[k]
      ensures y in w
    {
      var i :| 0 <= i < |ring| && ring[i] == y;
      assert w[if i < k then i else i - 1] == y;
    }
  }

  /** Among the blocks that giving back block `i` touches, the free ones are its neighbours. */
  lemma FreeNear(bs: seq<Block>, i: int, hi: int, x: int)
    requires Tiled(bs, 0, hi, UNIT) && 0 <= i < |bs| && bs[i].used
    requires bs[MergeFrom(bs, i)].off <= x < bs[MergeTo(bs, i) - 1].end
    ensures At(bs, x, false)
       <==> (MergeFrom(bs, i) < i && x == bs[i - 1].off) || (i + 1 < MergeTo(bs, i) && x == bs[i + 1].off)
  {
    var from, to := MergeFrom(bs, i), MergeTo(bs, i);
    if k :| 0 <= k < |bs| && bs[k].off == x && !bs[k].used {
      Located(bs, k, from, to, 0, hi, UNIT);
    }
  }

  // ---- One transition ---------------------------------------------------------------------

  lemma InitInv(pool: int)
    requires 2 * HDR + MINI <= pool <= 0xFFFF_FFF8
    ensures Inv(Init(pool))
  {
    var s := Init(pool);
    Extent1(s.blocks[0], false, HDR);
    forall x
      ensures x in s.ring <==> At(s.blocks, x, false)
    {
      if x == 0 {
        assert s.blocks[0].off == x && !s.blocks[0].used;
      }
    }
  }

  lemma GrantIndexes(s: State, k: int, size: int)
    requires Inv(s) && 0 < size && 0 <= k < |s.ring|
    requires Find(s.blocks, s.ring[k]) < |s.blocks| && !s.blocks[Find(s.blocks, s.ring[k])].used
    requires MINI <= size <= Payload(s.blocks[Find(s.blocks, s.ring[k])], HDR)
    ensures Indexes(Grant(s, k, size).ring, Grant(s, k, size).blocks)
  {
    hide Splice, Cut, Extent, NoFreePair, Tiled, At;
    var i := Find(s.blocks, s.ring[k]);
    var b, t := s.blocks[i], Grant(s, k, size);
    var xs := Cut(b, size, HDR, MINI);
    WithoutIs(s.ring, k);
    CutTiled(b, size, HDR, MINI, UNIT);
    var cut := b.off + HDR + size;
    if Splits(b, size, HDR, MINI) {
      AtBlock(s.blocks, i, 0, s.pool - HDR, UNIT, cut, false);
      assert cut !in s.ring;
    }
    forall x
      ensures x in t.ring <==> At(t.blocks, x, false)
    {
      SpliceAt(s.blocks, i, i + 1, xs, 0, s.pool - HDR, UNIT, x, false);
      CutAt(b, size, HDR, MINI, x);
      if b.off <= x < b.end {
        AtBlock(s.blocks, i, 0, s.pool - HDR, UNIT, x, false);
      }
    }
  }

  lemma GrantKeeps(s: State, k: int, size: int)
    requires Inv(s) && 0 <= k < |s.ring|
    requires Find(s.blocks, s.ring[k]) < |s.blocks| && !s.blocks[Find(s.blocks, s.ring[k])].used
    requires MINI <= size <= Payload(s.blocks[Find(s.blocks, s.ring[k])], HDR)
    ensures Inv(Grant(s, k, size))
  {
    var i := Find(s.blocks, s.ring[k]);
    TakeKeeps(s.blocks, i, size, HDR, MINI, 0, s.pool - HDR, UNIT);
    TakeExtent(s.blocks, i, size, HDR, MINI, false, HDR);
    GrantIndexes(s, k, size);
  }

  /** The entry at a position of the free list is a free block. */
  lemma RingEntry(s: State, k: int)
    requires Inv(s) && 0 <= k < |s.ring|
    ensures var i := Find(s.blocks, s.ring[k]); i < |s.blocks| && !s.blocks[i].used && s.blocks[i].off == s.ring[k]
  {
    assert s.ring[k] in s.ring;
    assert At(s.blocks, s.ring[k], false);
    var i :| 0 <= i < |s.blocks| && s.blocks[i].off == s.ring[k] && !s.blocks[i].used;
    FindAt(s.blocks, i, 0, s.pool - HDR, UNIT);
  }

  lemma LiveEntry(s: State, p: int)
    requires Inv(s) && Live(s, p)
    ensures var i := Find(s.blocks, p - HDR); i < |s.blocks| && s.blocks[i].used && s.blocks[i].off == p - HDR
  {
    var i :| 0 <= i < |s.blocks| && s.blocks[i].off == p - HDR && s.blocks[i].used;
    FindAt(s.blocks, i, 0, s.pool - HDR, UNIT);
  }

  /** Allocation keeps the heap well formed. */
  lemma AllocKeeps(s: State, request: int)
    requires Inv(s) && 0 <= request <= MAX_REQUEST
    ensures Inv(Alloc(s, request).0)
  {
    var size := RequestSize(request);
    var k := FirstFit(s.ring, s.blocks, size);
    if size < s.available && k < |s.ring| {
      RingEntry(s, k);
      GrantKeeps(s, k, size);
    }
  }

  /** Allocation fails exactly when no free block has room or the size is not below the free
      total; so an exact fit in the only free block is refused. */
  lemma AllocFailsIff(s: State, request: int)
    requires Inv(s) && 0 <= request <= MAX_REQUEST
    ensures Alloc(s, request).1 == NULL
       <==> || RequestSize(request) >= s.available
            || forall i :: 0 <= i < |s.blocks| && !s.blocks[i].used ==> Payload(s.blocks[i], HDR) < RequestSize(request)
    ensures Alloc(s, request).1 == NULL ==> Alloc(s, request).0 == s
  {
    var size := RequestSize(request);
    var k := FirstFit(s.ring, s.blocks, size);
    if k < |s.ring| {
      RingEntry(s, k);
      assert s.ring[k] >= 0 by {
        AtInside(s.blocks, 0, s.pool - HDR, UNIT, s.ring[k], false);
      }
    } else {
      forall i | 0 <= i < |s.blocks| && !s.blocks[i].used
        ensures Payload(s.blocks[i], HDR) < size
      {
        assert At(s.blocks, s.blocks[i].off, false);
        var j :| 0 <= j < |s.ring| && s.ring[j] == s.blocks[i].off;
        FindAt(s.blocks, i, 0, s.pool - HDR, UNIT);
      }
    }
  }

  /** Such a refusal, in a pool as it is set up: the only block is free and its payload is what is
      asked for, yet the request fails. */
  lemma ExactFitRefused(pool: int)
    requires 2 * HDR + MINI <= pool <= 0xFFFF_FFF8 && pool - 2 * HDR <= MAX_REQUEST && pool % 8 == 0
    ensures var s, request := Init(pool), pool - 2 * HDR;
      && Inv(s) && (forall i :: 0 <= i < |s.blocks| ==> !s.blocks[i].used && Payload(s.blocks[i], HDR) == request)
      && RequestSize(request) == request && Alloc(s, request) == (s, NULL)
  {
    InitInv(pool);
    var s := Init(pool);
    assert s.available == pool - 2 * HDR;
    AllocFailsIff(s, pool - 2 * HDR);
  }

  /** A successful allocation returns the payload of a block that was free, had room, and is
      the newest entry of the free list that does; the block is now used and big enough. */
  lemma AllocGrants(s: State, request: int)
    requires Inv(s) && 0 <= request <= MAX_REQUEST && Alloc(s, request).1 != NULL
    ensures var (t, p) := Alloc(s, request);
      && At(s.blocks, p - HDR, false)
      && Live(t, p)
      && Payload(t.blocks[Find(t.blocks, p - HDR)], HDR) >= request
      && (exists k :: 0 <= k < |s.ring| && s.ring[k] == p - HDR
            && forall j :: 0 <= j < k ==> !HasRoom(s.blocks, s.ring[j], RequestSize(request)))
  {
    hide Inv, Grant, Indexes, Extent, NoFreePair;
    var size := RequestSize(request);
    var k := FirstFit(s.ring, s.blocks, size);
    RingEntry(s, k);
    AllocKeeps(s, request);
    GrantedIs(s, k, size);
  }

  lemma GrantedIs(s: State, k: int, size: int)
    requires Inv(s) && 0 <= k < |s.ring| && HasRoom(s.blocks, s.ring[k], size) && Inv(Grant(s, k, size))
    ensures At(s.blocks, s.ring[k], false)
    ensures var t := Grant(s, k, size); var i := Find(t.blocks, s.ring[k]);
      i < |t.blocks| && t.blocks[i].used && t.blocks[i].off == s.ring[k] && Payload(t.blocks[i], HDR) >= size
  {
    hide Indexes, Extent, NoFreePair;
    RingEntry(s, k);
    var i, t := Find(s.blocks, s.ring[k]), Grant(s, k, size);
    assert t.blocks[i].off == s.blocks[i].off && t.blocks[i].used && Payload(t.blocks[i], HDR) >= size;
    FindAt(t.blocks, i, 0, s.pool - HDR, UNIT);
  }

  lemma RingSansNextIs(s: State, i: int, x: Node)
    requires Inv(s) && 0 <= i < |s.blocks| && s.blocks[i].used
    ensures Distinct(RingSansNext(s, i))
    ensures x in RingSansNext(s, i) <==> x in s.ring && !(i + 1 < MergeTo(s.blocks, i) && x == s.blocks[i + 1].off)
  {
    if i + 1 < MergeTo(s.blocks, i) {
      DroppedIs(s.ring, s.blocks[i + 1].off);
    }
  }

  lemma PrependDistinct(x: Node, t: seq<Node>)
    requires Distinct(t) && x !in t
    ensures Distinct([x] + t)
  {
  }

  lemma Release1Indexes(s: State, i: int)
    requires Inv(s) && 0 <= i < |s.blocks| && s.blocks[i].used
    ensures Indexes(Release1(s, i).ring, Release1(s, i).blocks)
  {
    var bs, hi, t := s.blocks, s.pool - HDR, Release1(s, i);
    var from, to := MergeFrom(bs, i), MergeTo(bs, i);
    var x0 := Block(bs[from].off, bs[to - 1].end, false);
    assert bs[from].off <= bs[i].off < bs[i].end <= bs[to - 1].end;
    AtBlock(bs, i, 0, hi, UNIT, bs[i].off, false);
    RingSansNextIs(s, i, bs[i].off);
    if from == i {
      PrependDistinct(bs[i].off, RingSansNext(s, i));
    }
    forall x
      ensures x in t.ring <==> At(t.blocks, x, false)
    {
      SpliceAt(bs, from, to, [x0], 0, hi, UNIT, x, false);
      assert At([x0], x, false) <==> x == bs[from].off by {
        assert [x0][0] == x0;
      }
      RingSansNextIs(s, i, x);
      if bs[from].off <= x < bs[to - 1].end {
        FreeNear(bs, i, hi, x);
      }
    }
  }

  /** Giving a block back keeps the heap well formed. */
  lemma Release1Keeps(s: State, i: int)
    requires Inv(s) && 0 <= i < |s.blocks| && s.blocks[i].used
    ensures Inv(Release1(s, i))
  {
    ReleaseKeeps(s.blocks, i, 0, s.pool - HDR, UNIT);
    ReleaseExtent(s.blocks, i, false, HDR, 0, s.pool - HDR, UNIT);
    Release1Indexes(s, i);
  }

  lemma FreeKeeps(s: State, p: int)
    requires Inv(s) && (p == NULL || Live(s, p))
    ensures Inv(Free(s, p))
  {
    if p != NULL {
      LiveEntry(s, p);
      Release1Keeps(s, Find(s.blocks, p - HDR));
    }
  }

  lemma Resize1Indexes(s: State, i: int, cut: int)
    requires Inv(s) && 0 <= i < |s.blocks| && s.blocks[i].used
    requires s.blocks[i].off + UNIT <= cut <= s.blocks[MergeTo(s.blocks, i) - 1].end - UNIT
    requires i + 1 < MergeTo(s.blocks, i) ==> cut != s.blocks[i + 1].off
    ensures Indexes(Resize1(s, i, cut).ring, Resize1(s, i, cut).blocks)
  {
    var bs, hi, t, to := s.blocks, s.pool - HDR, Resize1(s, i, cut), MergeTo(s.blocks, i);
    var xs := [Block(bs[i].off, cut, true), Block(cut, bs[to - 1].end, false)];
    CutOutside(s, i, cut);
    PrependDistinct(cut, RingSansNext(s, i));
    forall x
      ensures x in t.ring <==> At(t.blocks, x, false)
    {
      SpliceAt(bs, i, to, xs, 0, hi, UNIT, x, false);
      assert At(xs, x, false) <==> x == cut by {
        assert xs[1].off == cut && !xs[1].used;
      }
      RingSansNextIs(s, i, x);
      if bs[i].off <= x < bs[to - 1].end {
        FreeBehindNone(s, i, x);
      }
    }
  }

  lemma CutOutside(s: State, i: int, cut: int)
    requires Inv(s) && 0 <= i < |s.blocks| && s.blocks[i].used
    requires s.blocks[i].off <= cut < s.blocks[MergeTo(s.blocks, i) - 1].end
    requires i + 1 < MergeTo(s.blocks, i) ==> cut != s.blocks[i + 1].off
    ensures Distinct(RingSansNext(s, i)) && cut !in RingSansNext(s, i)
  {
    RingSansNextIs(s, i, cut);
    FreeBehindNone(s, i, cut);
  }

  lemma FreeBehindNone(s: State, i: int, x: int)
    requires Inv(s) && 0 <= i < |s.blocks| && s.blocks[i].used
    requires s.blocks[i].off <= x < s.blocks[MergeTo(s.blocks, i) - 1].end
    ensures At(s.blocks, x, false) <==> i + 1 < MergeTo(s.blocks, i) && x == s.blocks[i + 1].off
  {
    var bs := s.blocks;
    assert MergeFrom(bs, i) < i ==> bs[i - 1].end == bs[i].off && bs[i - 1].off < bs[i].off;
    FreeNear(bs, i, s.pool - HDR, x);
  }

  lemma Resize1Keeps(s: State, i: int, cut: int)
    requires Inv(s) && 0 <= i < |s.blocks| && s.blocks[i].used
    requires s.blocks[i].off + UNIT <= cut <= s.blocks[MergeTo(s.blocks, i) - 1].end - UNIT
    requires i + 1 < MergeTo(s.blocks, i) ==> cut != s.blocks[i + 1].off
    ensures var t := Resize1(s, i, cut);
      && Tiled(t.blocks, 0, s.pool - HDR, UNIT) && NoFreePair(t.blocks) && Indexes(t.ring, t.blocks)
      && Extent(t.blocks, false, HDR)
         == s.available + s.blocks[i].end - cut - (if MergeTo(s.blocks, i) == i + 1 then HDR else 0)
  {
    ResizeKeeps(s.blocks, i, cut, 0, s.pool - HDR, UNIT);
    ResizeExtent(s.blocks, i, cut, false, HDR, 0, s.pool - HDR, UNIT);
    Resize1Indexes(s, i, cut);
  }

  lemma GrantKeepsLive(s: State, k: int, size: int, p: int)
    requires Inv(s) && 0 <= k < |s.ring| && Find(s.blocks, s.ring[k]) < |s.blocks|
    requires !s.blocks[Find(s.blocks, s.ring[k])].used && MINI <= size && Live(s, p)
    ensures Live(Grant(s, k, size), p)
  {
    hide Indexes, Extent, NoFreePair, Splice, Cut, Tiled, At;
    var i := Find(s.blocks, s.ring[k]);
    Neighbours(s.blocks, i, 0, s.pool - HDR, UNIT);
    CutTiled(s.blocks[i], size, HDR, MINI, UNIT);
    SpliceAt(s.blocks, i, i + 1, Cut(s.blocks[i], size, HDR, MINI), 0, s.pool - HDR, UNIT, p - HDR, true);
    if s.blocks[i].off <= p - HDR < s.blocks[i].end {
      AtBlock(s.blocks, i, 0, s.pool - HDR, UNIT, p - HDR, true);
    }
  }

  /** A block handed out to somebody else leaves every used block where it was. */
  lemma AllocKeepsLive(s: State, request: int, p: int)
    requires Inv(s) && 0 <= request <= MAX_REQUEST && Live(s, p)
    ensures Live(Alloc(s, request).0, p)
  {
    hide Inv, Live, Grant;
    var size := RequestSize(request);
    var k := FirstFit(s.ring, s.blocks, size);
    if size < s.available && k < |s.ring| {
      RingEntry(s, k);
      GrantKeepsLive(s, k, size, p);
    }
  }

  lemma GrowKeeps(s: State, i: int, size: int)
    requires Inv(s) && 0 <= i < |s.blocks| && s.blocks[i].used
    requires Payload(s.blocks[i], HDR) < size && CanGrow(s, i, size)
    ensures Inv(WithAvailable(Resize1(s, i, s.blocks[i].off + HDR + size),
                              s.available - (size - Payload(s.blocks[i], HDR))))
  {
    hide Tiled, NoFreePair, Indexes, Extent, Splice;
    Neighbours(s.blocks, i, 0, s.pool - HDR, UNIT);
    Resize1Keeps(s, i, s.blocks[i].off + HDR + size);
  }

  lemma ShrinkKeeps(s: State, i: int, size: int)
    requires Inv(s) && 0 <= i < |s.blocks| && s.blocks[i].used
    requires MINI <= size && size + HDR + MINI < Payload(s.blocks[i], HDR)
    ensures Inv(Resize1(s, i, s.blocks[i].off + HDR + size).(available :=
                  s.available + (Payload(s.blocks[i], HDR) - size)
                  - (if MergeTo(s.blocks, i) == i + 1 then HDR else 0)))
  {
    hide Tiled, NoFreePair, Indexes, Extent, Splice;
    Neighbours(s.blocks, i, 0, s.pool - HDR, UNIT);
    Resize1Keeps(s, i, s.blocks[i].off + HDR + size);
  }

  lemma MoveKeeps(s: State, p: int, size: int)
    requires Inv(s) && 0 <= size <= MAX_REQUEST && Live(s, p)
    ensures var t := Alloc(s, size).0; Inv(t) && Live(t, p) && Inv(Free(t, p))
    ensures var t := Alloc(s, size).0; Inv(Release1(t, Find(t.blocks, p - HDR)))
  {
    AllocKeeps(s, size);
    AllocKeepsLive(s, size, p);
    var t := Alloc(s, size).0;
    LiveEntry(t, p);
    Release1Keeps(t, Find(t.blocks, p - HDR));
  }

  /** Reallocation keeps the heap well formed. */
  lemma ReallocKeeps(s: State, p: int, request: int)
    requires Inv(s) && 0 <= request <= MAX_REQUEST && (p == NULL || Live(s, p))
    ensures Inv(Realloc(s, p, request).0)
  {
    hide Tiled, NoFreePair, Indexes, Extent, Splice;
    if request == 0 {
      FreeKeeps(s, p);
    } else if p == NULL {
      AllocKeeps(s, RequestSize(request));
    } else {
      LiveEntry(s, p);
      var i := Find(s.blocks, p - HDR);
      var size, oldSize := RequestSize(request), Payload(s.blocks[i], HDR);
      if size > oldSize {
        if CanGrow(s, i, size) {
          GrowKeeps(s, i, size);
        } else {
          MoveKeeps(s, p, size);
        }
      } else if size + HDR + MINI < oldSize {
        ShrinkKeeps(s, i, size);
      }
    }
  }

  // ---- Other people's blocks --------------------------------------------------------------

  /** Every used block of `s`, other than the one at `off`, is a block of `t`. */
  ghost predicate OthersKept(s: State, t: State, off: int) {
    forall b :: b in s.blocks && b.used && b.off != off ==> b in t.blocks
  }

  lemma SpliceMember(bs: seq<Block>, i: int, j: int, xs: seq<Block>, b: Block)
    requires 0 <= i <= j <= |bs| && b in bs
    requires forall k :: i <= k < j ==> bs[k] != b
    ensures b in Splice(bs, i, j, xs)
  {
    var k :| 0 <= k < |bs| && bs[k] == b;
    var r := Splice(bs, i, j, xs);
    if k < i {
      assert r[k] == b;
    } else if j <= k {
      assert r[k - (j - i) + |xs|] == b;
    }
  }

  lemma AllocKeepsOthers(s: State, request: int)
    requires Inv(s) && 0 <= request <= MAX_REQUEST
    ensures OthersKept(s, Alloc(s, request).0, -1)
  {
    var size := RequestSize(request);
    var k := FirstFit(s.ring, s.blocks, size);
    if size < s.available && k < |s.ring| {
      RingEntry(s, k);
      var i := Find(s.blocks, s.ring[k]);
      forall b | b in s.blocks && b.used
        ensures b in Grant(s, k, size).blocks
      {
        SpliceMember(s.blocks, i, i + 1, Cut(s.blocks[i], size, HDR, MINI), b);
      }
    }
  }

  lemma Release1KeepsOthers(s: State, i: int)
    requires Inv(s) && 0 <= i < |s.blocks| && s.blocks[i].used
    ensures OthersKept(s, Release1(s, i), s.blocks[i].off)
  {
    var from, to := MergeFrom(s.blocks, i), MergeTo(s.blocks, i);
    forall b | b in s.blocks && b.used && b.off != s.blocks[i].off
      ensures b in Release(s.blocks, i)
    {
      SpliceMember(s.blocks, from, to, [Block(s.blocks[from].off, s.blocks[to - 1].end, false)], b);
    }
  }

  lemma Resize1KeepsOthers(s: State, i: int, cut: int)
    requires Inv(s) && 0 <= i < |s.blocks| && s.blocks[i].used
    ensures OthersKept(s, Resize1(s, i, cut), s.blocks[i].off)
  {
    var to := MergeTo(s.blocks, i);
    forall b | b in s.blocks && b.used && b.off != s.blocks[i].off
      ensures b in Resize(s.blocks, i, cut)
    {
      SpliceMember(s.blocks, i, to, [Block(s.blocks[i].off, cut, true), Block(cut, s.blocks[to - 1].end, false)], b);
    }
  }

  lemma NoBlockBefore(s: State, b: Block)
    requires Inv(s) && b in s.blocks
    ensures b.off != -1
  {
    hide NoFreePair, Indexes, Extent;
    var k :| 0 <= k < |s.blocks| && s.blocks[k] == b;
    Neighbours(s.blocks, k, 0, s.pool - HDR, UNIT);
  }

  lemma MoveKeepsOthers(s: State, p: int, size: int)
    requires Inv(s) && 0 <= size <= MAX_REQUEST && Live(s, p)
    ensures var t := Alloc(s, size).0;
      OthersKept(s, t, p - HDR) && OthersKept(s, Release1(t, Find(t.blocks, p - HDR)), p - HDR)
  {
    hide Inv, Alloc, Release1, At;
    MoveKeeps(s, p, size);
    AllocKeepsOthers(s, size);
    var t := Alloc(s, size).0;
    LiveEntry(t, p);
    Release1KeepsOthers(t, Find(t.blocks, p - HDR));
    forall b | b in s.blocks && b.used && b.off != p - HDR
      ensures b in t.blocks
    {
      NoBlockBefore(s, b);
    }
  }

  /** Whatever reallocation does, it moves or resizes no block but the caller's own. */
  lemma ReallocKeepsOthers(s: State, p: int, request: int)
    requires Inv(s) && 0 < request <= MAX_REQUEST && p != NULL && Live(s, p)
    ensures OthersKept(s, Realloc(s, p, request).0, p - HDR)
  {
    hide Inv, Resize, Release1, Alloc, Live;
    LiveEntry(s, p);
    var i := Find(s.blocks, p - HDR);
    var size, oldSize := RequestSize(request), Payload(s.blocks[i], HDR);
    if size > oldSize && !CanGrow(s, i, size) {
      MoveKeepsOthers(s, p, size);
    } else {
      Resize1KeepsOthers(s, i, p + size);
    }
  }

  lemma GrantBlock(s: State, k: int, size: int)
    requires Inv(s) && 0 <= k < |s.ring| && Find(s.blocks, s.ring[k]) < |s.blocks|
    requires Inv(Grant(s, k, size))
    ensures Find(Grant(s, k, size).blocks, s.ring[k]) == Find(s.blocks, s.ring[k])
  {
    hide NoFreePair, Indexes, Extent;
    RingEntry(s, k);
    var i, t := Find(s.blocks, s.ring[k]), Grant(s, k, size);
    assert t.blocks[i].off == s.blocks[i].off;
    FindAt(t.blocks, i, 0, s.pool - HDR, UNIT);
  }

  /** Freeing what was just allocated restores the blocks and the byte count exactly: the
      remainder of a split is joined again, and no other pair of blocks is. */
  lemma FreeUndoesAlloc(s: State, request: int)
    requires Inv(s) && 0 <= request <= MAX_REQUEST && Alloc(s, request).1 != NULL
    ensures var (t, p) := Alloc(s, request);
      Free(t, p).blocks == s.blocks && Free(t, p).available == s.available
  {
    hide Extent, Splice, Release, Take, Tiled, NoFreePair, Indexes, Inv, At;
    var size := RequestSize(request);
    var k := FirstFit(s.ring, s.blocks, size);
    RingEntry(s, k);
    var i := Find(s.blocks, s.ring[k]);
    var t := Grant(s, k, size);
    AllocKeeps(s, request);
    GrantBlock(s, k, size);
    AllocGrants(s, request);
    FreeKeeps(t, s.ring[k] + HDR);
    GrantReleased(s, k, size);
    FreeTotal(s);
    FreeTotal(Free(t, s.ring[k] + HDR));
  }

  lemma FreeTotal(s: State)
    requires Inv(s)
    ensures s.available == Extent(s.blocks, false, HDR)
  {
  }

  lemma GrantReleased(s: State, k: int, size: int)
    requires Inv(s) && 0 <= k < |s.ring| && Find(s.blocks, s.ring[k]) < |s.blocks|
    requires !s.blocks[Find(s.blocks, s.ring[k])].used
    ensures Find(s.blocks, s.ring[k]) < |Grant(s, k, size).blocks|
    ensures Release(Grant(s, k, size).blocks, Find(s.blocks, s.ring[k])) == s.blocks
  {
    hide Extent, Release, Take, Tiled, NoFreePair, Indexes;
    ReleaseUndoesTake(s.blocks, Find(s.blocks, s.ring[k]), size, HDR, MINI, 0, s.pool - HDR, UNIT);
  }

  // ---- Runs -------------------------------------------------------------------------------

  datatype Op = AllocOp(request: int) | ReallocOp(ptr: int, request: int) | FreeOp(ptr: int)

  /** What the heap asks of its callers: requests below the wrap-around bound, and only
      pointers that it handed out and that were not given back since. */
  ghost predicate Allowed(s: State, op: Op) {
    match op
    case AllocOp(n) => 0 <= n <= MAX_REQUEST
    case ReallocOp(p, n) => 0 <= n <= MAX_REQUEST && (p == NULL || Live(s, p))
    case FreeOp(p) => p == NULL || Live(s, p)
  }

  ghost function Apply(s: State, op: Op): State {
    match op
    case AllocOp(n) => Alloc(s, n).0
    case ReallocOp(p, n) => Realloc(s, p, n).0
    case FreeOp(p) => Free(s, p)
  }

  /** `run` is a sequence of states, each reached from the one before by `ops`. */
  ghost predicate IsRun(run: seq<State>, ops: seq<Op>, pool: int) {
    && |run| == |ops| + 1
    && run[0] == Init(pool)
    && forall i :: 0 <= i < |ops| ==> IsStep(run[i], ops[i], run[i + 1])
  }

  ghost predicate IsStep(s: State, op: Op, t: State) {
    Allowed(s, op) && t == Apply(s, op)
  }

  lemma ApplyKeeps(s: State, op: Op)
    requires Inv(s) && Allowed(s, op)
    ensures Inv(Apply(s, op))
  {
    match op
    case AllocOp(n) => AllocKeeps(s, n);
    case ReallocOp(p, n) => ReallocKeeps(s, p, n);
    case FreeOp(p) => FreeKeeps(s, p);
  }

  function Max(a: int, b: int): int {
    if a < b then b else a
  }

  /** The pool bytes not available, headers included. */
  function InUse(s: State): int {
    s.pool - s.available
  }

  /** The largest number of bytes in use at any moment of a step.  A reallocation that has to
      move holds the old and the new block together for a while. */
  ghost function Peak(s: State, op: Op): int {
    if Moves(s, op) then InUse(Alloc(s, RequestSize(op.request)).0) else InUse(Apply(s, op))
  }

  ghost predicate Moves(s: State, op: Op) {
    && op.ReallocOp? && op.ptr != NULL && op.request != 0
    && var i := Find(s.blocks, op.ptr - HDR);
       i < |s.blocks| && RequestSize(op.request) > Payload(s.blocks[i], HDR) && !CanGrow(s, i, RequestSize(op.request))
  }

  lemma Release1Counts(s: State, i: int)
    requires Inv(s) && 0 <= i < |s.blocks| && s.blocks[i].used
    ensures InUse(Release1(s, i)) <= InUse(s) <= s.maxUsed
    ensures Release1(s, i).maxUsed == s.maxUsed && Release1(s, i).pool == s.pool
  {
    hide Indexes, Extent, Release, NoFreePair;
    Neighbours(s.blocks, i, 0, s.pool - HDR, UNIT);
  }

  lemma AllocCounts(s: State, request: int)
    requires Inv(s) && 0 <= request <= MAX_REQUEST
    ensures var t := Alloc(s, request).0; t.pool == s.pool && t.maxUsed == Max(s.maxUsed, InUse(t))
  {
    hide Tiled, Indexes, Extent, Take, NoFreePair;
  }

  lemma MoveCounts(s: State, p: int, size: int)
    requires Inv(s) && 0 <= size <= MAX_REQUEST && Live(s, p)
    ensures var m := Alloc(s, size).0; var t := Release1(m, Find(m.blocks, p - HDR));
      && t.pool == s.pool && t.maxUsed == Max(s.maxUsed, InUse(m))
      && m.pool == s.pool && m.maxUsed == Max(s.maxUsed, InUse(m))
  {
    hide Inv, Alloc, Live, Release1;
    AllocCounts(s, size);
    MoveKeeps(s, p, size);
    var t := Alloc(s, size).0;
    LiveEntry(t, p);
    Release1Counts(t, Find(t.blocks, p - HDR));
  }

  lemma ReallocCounts(s: State, p: int, request: int)
    requires Inv(s) && 0 < request <= MAX_REQUEST && p != NULL && Live(s, p)
    ensures var t, op := Realloc(s, p, request).0, ReallocOp(p, request);
      t.pool == s.pool && t.maxUsed == Max(s.maxUsed, Peak(s, op))
  {
    hide Inv, Alloc, Live, Release1, Resize;
    LiveEntry(s, p);
    NotOverPeak(s);
    var size := RequestSize(request);
    MoveCounts(s, p, size);
  }

  lemma ApplyCounts(s: State, op: Op)
    requires Inv(s) && Allowed(s, op)
    ensures Apply(s, op).pool == s.pool
    ensures Apply(s, op).maxUsed == Max(s.maxUsed, Peak(s, op))
  {
    hide Inv, Alloc, Live, Release1;
    match op
    case AllocOp(n) => AllocCounts(s, n);
    case FreeOp(p) =>
      if p != NULL {
        LiveEntry(s, p);
        Release1Counts(s, Find(s.blocks, p - HDR));
      } else {
        NotOverPeak(s);
      }
    case ReallocOp(p, n) =>
      if n == 0 {
        if p != NULL {
          LiveEntry(s, p);
          Release1Counts(s, Find(s.blocks, p - HDR));
        } else {
          NotOverPeak(s);
        }
      } else if p == NULL {
        AllocCounts(s, RequestSize(n));
      } else {
        ReallocCounts(s, p, n);
      }
  }

  lemma NotOverPeak(s: State)
    requires Inv(s)
    ensures InUse(s) <= s.maxUsed
  {
  }

  /** Main result, first half: the heap is well formed in every state of every run. */
  lemma {:induction false} RunInv(run: seq<State>, ops: seq<Op>, pool: int, k: nat)
    requires 2 * HDR + MINI <= pool <= 0xFFFF_FFF8 && IsRun(run, ops, pool) && k <= |ops|
    ensures Inv(run[k]) && run[k].pool == pool
  {
    hide Inv, Allowed, Apply;
    if k == 0 {
      InitInv(pool);
    } else {
      RunInv(run, ops, pool, k - 1);
      assert IsStep(run[k - 1], ops[k - 1], run[k - 1 + 1]);
      ApplyKeeps(run[k - 1], ops[k - 1]);
      ApplyCounts(run[k - 1], ops[k - 1]);
    }
  }

  /** Main result, second half: max_used_size is the high-water mark of the bytes in use.  It
      is reached by the initial state or at the peak of some step, and no step exceeds it. */
  lemma {:induction false} RunHighWater(run: seq<State>, ops: seq<Op>, pool: int, k: nat)
    requires 2 * HDR + MINI <= pool <= 0xFFFF_FFF8 && IsRun(run, ops, pool) && k <= |ops|
    ensures forall i :: 0 <= i < k ==> Peak(run[i], ops[i]) <= run[k].maxUsed
    ensures run[k].maxUsed == 2 * HDR || exists i :: 0 <= i < k && Peak(run[i], ops[i]) == run[k].maxUsed
  {
    hide Inv, Allowed, Apply, Peak;
    if k > 0 {
      RunHighWater(run, ops, pool, k - 1);
      RunInv(run, ops, pool, k - 1);
      assert IsStep(run[k - 1], ops[k - 1], run[k - 1 + 1]);
      ApplyCounts(run[k - 1], ops[k - 1]);
    }
  }
}
