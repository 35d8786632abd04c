/** The small-memory heap (mem.c) as a transition system on block lists.

    Offsets count from the start of the heap; the header of `heap_end` stands at `size + HDR`,
    right behind the last block.  The class in SmallMem.dfy works on the header fields and is
    proved to perform these transitions.
 */
module SmallMemModel {
  import opened Tiling

  const HDR := 16          // SIZEOF_STRUCT_MEM: three words, aligned to 8
  const MIN_SIZE := 12
  const MIN_ALIGNED := 16  // MIN_SIZE_ALIGNED
  const UNIT := 24         // a header and 8 bytes: reallocation may shrink below MIN_ALIGNED
  const NULL := -1         // RT_NULL is no address inside the heap
  const MAX_REQUEST := 0xFFFF_FFF8  // beyond this RT_ALIGN wraps around

  datatype State = State(blocks: seq<Block>, usedMem: int, maxMem: int, size: int)

  function Align8(n: int): int {
    (n + 7) / 8 * 8
  }

  function End(s: State): int {
    s.size + HDR
  }

  ghost predicate Inv(s: State) {
    && MIN_ALIGNED <= s.size && s.size % 8 == 0
    && Tiled(s.blocks, 0, End(s), UNIT)
    && NoFreePair(s.blocks)
    && Aligned(s.blocks, 8)
    && s.usedMem == Extent(s.blocks, true, 0)
    && s.usedMem <= s.maxMem
  }

  /** rt_system_heap_init */
  function Init(size: int): State {
    State([Block(0, size + HDR, false)], 0, 0, size)
  }

  /** The offset of the lowest free block, or of heap_end: the value of `lfree`. */
  function LowestFree(bs: seq<Block>, end: int): int {
    if bs == [] then end
    else if !bs[0].used then bs[0].off
    else LowestFree(bs[1..], end)
  }

  /** Whether the search of rt_malloc takes a block: free, with room, and starting below the
      strict bound of the loop. */
  predicate Admits(b: Block, size: int, memSize: int) {
    !b.used && Payload(b, HDR) >= size && b.off < memSize - size
  }

  function Search(bs: seq<Block>, size: int, memSize: int): (k: nat)
    ensures k <= |bs|
    ensures forall j :: 0 <= j < k ==> !Admits(bs[j], size, memSize)
    ensures k < |bs| ==> Admits(bs[k], size, memSize)
  {
    if bs == [] || Admits(bs[0], size, memSize) then 0 else 1 + Search(bs[1..], size, memSize)
  }

  function WithUsed(s: State, used: int): State {
    s.(usedMem := used, maxMem := if s.maxMem < used then used else s.maxMem)
  }

  /** Hands out block `i`. */
  function Grant(s: State, i: int, size: int): State
    requires 0 <= i < |s.blocks|
  {
    var b := s.blocks[i];
    WithUsed(s.(blocks := Take(s.blocks, i, size, HDR, MIN_ALIGNED)),
             s.usedMem + (if Splits(b, size, HDR, MIN_ALIGNED) then size + HDR else b.end - b.off))
  }

  /** The size searched for, once the request was found not to exceed the heap. */
  function SearchSize(request: int): int {
    if Align8(request) < MIN_ALIGNED then MIN_ALIGNED else Align8(request)
  }

  /** rt_malloc: the new state and the payload offset, or NULL. */
  function Malloc(s: State, request: int): (State, int) {
    if request == 0 || Align8(request) > s.size then (s, NULL)
    else
      var k := Search(s.blocks, SearchSize(request), s.size);
      if k == |s.blocks| then (s, NULL) else (Grant(s, k, SearchSize(request)), s.blocks[k].off + HDR)
  }

  ghost predicate Live(s: State, p: int) {
    At(s.blocks, p - HDR, true)
  }

  /** Gives back block `i`. */
  function Release1(s: State, i: int): State
    requires 0 <= i <= |s.blocks|
  {
    if i == |s.blocks| then s
    else s.(blocks := Release(s.blocks, i), usedMem := s.usedMem - (s.blocks[i].end - s.blocks[i].off))
  }

  /** rt_free */
  function Free(s: State, p: int): State {
    if p == NULL then s else Release1(s, Find(s.blocks, p - HDR))
  }

  /** Whether rt_realloc takes `p` for an address inside the heap. */
  predicate InHeap(s: State, p: int) {
    0 <= p < End(s)
  }

  /** rt_realloc */
  function Realloc(s: State, p: int, request: int): (State, int) {
    var size := Align8(request);
    if size > s.size then (s, NULL)
    else if size == 0 then (Free(s, p), NULL)
    else if p == NULL then Malloc(s, size)
    else if !InHeap(s, p) then (s, p)
    else
      var i := Find(s.blocks, p - HDR);
      if i == |s.blocks| || Payload(s.blocks[i], HDR) == size then (s, p)
      else if size + HDR + MIN_SIZE < Payload(s.blocks[i], HDR) then
        (s.(blocks := Resize(s.blocks, i, p + size),
            usedMem := s.usedMem - (Payload(s.blocks[i], HDR) - size)), p)
      else
        var (t, q) := Malloc(s, size);
        if q == NULL then (t, NULL) else (Release1(t, Find(t.blocks, p - HDR)), q)
  }
}

/** What the small-memory heap transitions keep, one by one and over every run. */
module SmallMemLemmas {
  import opened Tiling
  import opened SmallMemModel

  // ---- The lowest free block --------------------------------------------------------------

  ghost predicate Lowest(bs: seq<Block>, x: int, end: int) {
    && (At(bs, x, false) || (x == end && forall y :: !At(bs, y, false)))
    && forall y :: At(bs, y, false) ==> x <= y
  }

  lemma {:induction false} LowestFreeIs(bs: seq<Block>, lo: int, end: int)
    requires Tiled(bs, lo, end, UNIT)
    ensures Lowest(bs, LowestFree(bs, end), end)
    decreases |bs|
  {
    if bs != [] {
      var t := bs[1..];
      assert bs == [bs[0]] + t;
      TiledSlice(bs, 1, |bs|, lo, end, UNIT);
      assert bs[1..|bs|] == t;
      forall y
        ensures At(bs, y, false) <==> At([bs[0]], y, false) || At(t, y, false)
        ensures At([bs[0]], y, false) <==> bs[0].off == y && !bs[0].used
        ensures At(t, y, false) ==> bs[0].off < y
      {
        AtConcat([bs[0]], t, y, false);
        if At(t, y, false) {
          AtInside(t, StartOf(bs, 1, end), end, UNIT, y, false);
          Neighbours(bs, 0, lo, end, UNIT);
        }
        assert [bs[0]][0] == bs[0];
      }
      LowestFreeIs(t, StartOf(bs, 1, end), end);
    }
  }

  lemma LowestUnique(bs: seq<Block>, x: int, y: int, lo: int, end: int)
    requires Tiled(bs, lo, end, UNIT) && Lowest(bs, x, end) && Lowest(bs, y, end)
    ensures x == y
  {
  }

  lemma AnyLowest(bs: seq<Block>, x: int, end: int)
    requires Tiled(bs, 0, end, UNIT) && Lowest(bs, x, end)
    ensures LowestFree(bs, end) == x
  {
    LowestFreeIs(bs, 0, end);
    LowestUnique(bs, x, LowestFree(bs, end), 0, end);
  }

  /** When every block before `k` is used, the lowest free one is found from `k` on. */
  lemma {:induction false} LowestFrom(bs: seq<Block>, k: nat, end: int)
    requires k <= |bs| && forall j :: 0 <= j < k ==> bs[j].used
    ensures LowestFree(bs, end) == LowestFree(bs[k..], end)
  {
    if k == 0 {
      assert bs[0..] == bs;
    } else {
      LowestFrom(bs[1..], k - 1, end);
      assert bs[1..][k - 1..] == bs[k..];
    }
  }

  lemma BelowLowestUsed(bs: seq<Block>, j: int, end: int)
    requires Tiled(bs, 0, end, UNIT) && 0 <= j < |bs| && bs[j].off < LowestFree(bs, end)
    ensures bs[j].used
  {
    LowestFreeIs(bs, 0, end);
    assert !bs[j].used ==> At(bs, bs[j].off, false);
  }

  lemma GrantLowest(bs: seq<Block>, i: int, size: int, end: int)
    requires Tiled(bs, 0, end, UNIT) && NoFreePair(bs) && 0 <= i < |bs| && !bs[i].used && 8 <= size
    requires LowestFree(bs, end) != bs[i].off
    ensures LowestFree(Take(bs, i, size, HDR, MIN_ALIGNED), end) == LowestFree(bs, end)
  {
    hide Splice, Cut;
    var x, t, xs := LowestFree(bs, end), Take(bs, i, size, HDR, MIN_ALIGNED), Cut(bs[i], size, HDR, MIN_ALIGNED);
    LowestFreeIs(bs, 0, end);
    assert At(bs, bs[i].off, false);
    Neighbours(bs, i, 0, end, UNIT);
    CutTiled(bs[i], size, HDR, MIN_ALIGNED, UNIT);
    TakeKeeps(bs, i, size, HDR, MIN_ALIGNED, 0, end, UNIT);
    forall y
      ensures At(t, y, false) ==> x <= y
      ensures y == x && x != end ==> At(t, y, false)
    {
      SpliceAt(bs, i, i + 1, xs, 0, end, UNIT, y, false);
    }
    AtInside(bs, 0, end, UNIT, x, false);
    AnyLowest(t, x, end);
  }

  /** Where the free blocks are after block `i` was given back. */
  lemma ReleaseFreeAt(bs: seq<Block>, i: int, z: int, end: int)
    requires Tiled(bs, 0, end, UNIT) && 0 <= i < |bs| && bs[i].used
    ensures var from, to := MergeFrom(bs, i), MergeTo(bs, i);
      At(Release(bs, i), z, false)
      <==> if bs[from].off <= z < bs[to - 1].end then z == bs[from].off else At(bs, z, false)
  {
    var from, to := MergeFrom(bs, i), MergeTo(bs, i);
    var xs := [Block(bs[from].off, bs[to - 1].end, false)];
    Neighbours(bs, i, 0, end, UNIT);
    assert Tiled(xs, bs[from].off, bs[to - 1].end, UNIT);
    hide Tiled, Splice;
    SpliceAt(bs, from, to, xs, 0, end, UNIT, z, false);
    assert xs[0].off == bs[from].off && !xs[0].used;
  }

  /** Freeing moves the lowest free block down to the freed one, or not at all. */
  lemma ReleaseLowest(bs: seq<Block>, i: int, end: int)
    requires Tiled(bs, 0, end, UNIT) && NoFreePair(bs) && 0 <= i < |bs| && bs[i].used
    ensures var x, y := LowestFree(bs, end), LowestFree(Release(bs, i), end);
      && y == (if bs[i].off < x then bs[i].off else x)
      && (bs[i].off < x ==> MergeFrom(bs, i) == i)
  {
    hide Tiled, NoFreePair, Release;
    var x, from, to := LowestFree(bs, end), MergeFrom(bs, i), MergeTo(bs, i);
    LowestFreeIs(bs, 0, end);
    Neighbours(bs, i, 0, end, UNIT);
    assert from < i ==> At(bs, bs[from].off, false);
    ReleaseKeeps(bs, i, 0, end, UNIT);
    var y := if bs[i].off < x then bs[i].off else x;
    forall z
      ensures At(Release(bs, i), z, false) ==> y <= z
      ensures z == y ==> At(Release(bs, i), z, false)
    {
      ReleaseFreeAt(bs, i, z, end);
      if z == y && bs[i].off >= x {
        XOutside(bs, i, x, end);
      }
    }
    AnyLowest(Release(bs, i), y, end);
  }

  lemma XOutside(bs: seq<Block>, i: int, x: int, end: int)
    requires Tiled(bs, 0, end, UNIT) && 0 <= i < |bs| && bs[i].used && At(bs, x, false) && x <= bs[i].off
    ensures x == bs[MergeFrom(bs, i)].off || x < bs[MergeFrom(bs, i)].off
  {
    var k :| 0 <= k < |bs| && bs[k].off == x && !bs[k].used;
    Neighbours(bs, i, 0, end, UNIT);
    Neighbours(bs, MergeFrom(bs, i), 0, end, UNIT);
    assert k < i || k == i || i < k;
  }

  lemma ResizeLowest(bs: seq<Block>, i: int, cut: int, end: int)
    requires Tiled(bs, 0, end, UNIT) && NoFreePair(bs) && 0 <= i < |bs| && bs[i].used
    requires bs[i].off + UNIT <= cut <= bs[i].end - UNIT
    ensures var x, y := LowestFree(bs, end), LowestFree(Resize(bs, i, cut), end);
      y == if cut < x then cut else x
  {
    var x, to := LowestFree(bs, end), MergeTo(bs, i);
    var xs := [Block(bs[i].off, cut, true), Block(cut, bs[to - 1].end, false)];
    LowestFreeIs(bs, 0, end);
    Neighbours(bs, i, 0, end, UNIT);
    ResizeKeeps(bs, i, cut, 0, end, UNIT);
    assert Tiled(xs, bs[i].off, bs[to - 1].end, UNIT);
    assert xs[1].off == cut && !xs[1].used;
    var y := if cut < x then cut else x;
    forall z
      ensures At(Resize(bs, i, cut), z, false) ==> y <= z
      ensures z == y ==> At(Resize(bs, i, cut), z, false)
    {
      SpliceAt(bs, i, to, xs, 0, end, UNIT, z, false);
      if z == y && cut >= x {
        AtBlockNone(bs, i, x, end);
      }
    }
    AnyLowest(Resize(bs, i, cut), y, end);
  }

  lemma AtBlockNone(bs: seq<Block>, i: int, x: int, end: int)
    requires Tiled(bs, 0, end, UNIT) && 0 <= i < |bs| && bs[i].used && x < bs[i].end
    requires At(bs, x, false)
    ensures x < bs[i].off
  {
    if bs[i].off <= x {
      AtBlock(bs, i, 0, end, UNIT, x, false);
    }
  }

  // ---- One transition ---------------------------------------------------------------------

  lemma InitInv(size: int)
    requires MIN_ALIGNED <= size && size % 8 == 0
    ensures Inv(Init(size))
  {
    Extent1(Init(size).blocks[0], true, 0);
  }

  lemma GrantAligned(bs: seq<Block>, i: int, size: int)
    requires Aligned(bs, 8) && 0 <= i < |bs| && size % 8 == 0
    ensures Aligned(Take(bs, i, size, HDR, MIN_ALIGNED), 8)
  {
    SpliceAligned(bs, i, i + 1, Cut(bs[i], size, HDR, MIN_ALIGNED), 8);
  }

  lemma GrantKeeps(s: State, i: int, size: int)
    requires Inv(s) && 0 <= i < |s.blocks| && !s.blocks[i].used && 8 <= size && size % 8 == 0
    ensures Inv(Grant(s, i, size))
  {
    hide Take;
    TakeKeeps(s.blocks, i, size, HDR, MIN_ALIGNED, 0, End(s), UNIT);
    TakeExtent(s.blocks, i, size, HDR, MIN_ALIGNED, true, 0);
    GrantAligned(s.blocks, i, size);
  }

  /** Allocation keeps the heap well formed. */
  lemma MallocKeeps(s: State, request: int)
    requires Inv(s) && 0 <= request <= MAX_REQUEST
    ensures Inv(Malloc(s, request).0)
  {
    hide Inv, Grant;
    var k := Search(s.blocks, SearchSize(request), s.size);
    if request != 0 && k < |s.blocks| {
      GrantKeeps(s, k, SearchSize(request));
    }
  }

  /** Allocation fails exactly when nothing is asked for, or more than the heap holds, or every
      free block is too small or is an exact fit at the very end of the heap. */
  lemma MallocFailsIff(s: State, request: int)
    requires Inv(s) && 0 <= request <= MAX_REQUEST
    ensures Malloc(s, request).1 == NULL
       <==> || request == 0 || Align8(request) > s.size
            || forall i :: 0 <= i < |s.blocks| && !s.blocks[i].used ==>
                 || Payload(s.blocks[i], HDR) < SearchSize(request)
                 || (i == |s.blocks| - 1 && Payload(s.blocks[i], HDR) == SearchSize(request))
    ensures Malloc(s, request).1 == NULL ==> Malloc(s, request).0 == s
  {
    hide NoFreePair, Aligned, Extent;
    var size := SearchSize(request);
    forall i | 0 <= i < |s.blocks| && !s.blocks[i].used
      ensures !Admits(s.blocks[i], size, s.size)
         <==> Payload(s.blocks[i], HDR) < size || (i == |s.blocks| - 1 && Payload(s.blocks[i], HDR) == size)
      ensures s.blocks[i].off + HDR != NULL
    {
      Neighbours(s.blocks, i, 0, End(s), UNIT);
    }
  }

  /** Such a refusal, in a heap as it is set up: it is one free block of `n` bytes, yet a request for
      `n` bytes fails. */
  lemma ExactFitRefused(n: int)
    requires MIN_ALIGNED <= n <= MAX_REQUEST && n % 8 == 0
    ensures var s := Init(n);
      && Inv(s) && (forall i :: 0 <= i < |s.blocks| ==> !s.blocks[i].used && Payload(s.blocks[i], HDR) == n)
      && SearchSize(n) == n && Malloc(s, n) == (s, NULL)
  {
    InitInv(n);
    MallocFailsIff(Init(n), n);
  }

  /** A successful allocation returns the lowest block its search admits, 8-aligned; the block
      is now used and has at least the bytes asked for. */
  lemma MallocGrants(s: State, request: int)
    requires Inv(s) && 0 <= request <= MAX_REQUEST && Malloc(s, request).1 != NULL
    ensures var (t, p) := Malloc(s, request); var i := Find(s.blocks, p - HDR);
      && i < |s.blocks| && s.blocks[i].off == p - HDR && !s.blocks[i].used && p % 8 == 0
      && (forall j :: 0 <= j < i ==> !Admits(s.blocks[j], SearchSize(request), s.size))
      && Find(t.blocks, p - HDR) == i < |t.blocks| && t.blocks[i].used && Payload(t.blocks[i], HDR) >= request
  {
    hide Inv, Grant;
    var size := SearchSize(request);
    var k := Search(s.blocks, size, s.size);
    GrantKeeps(s, k, size);
    GrantedIs(s, k, size);
  }

  lemma GrantedIs(s: State, k: int, size: int)
    requires Inv(s) && 0 <= k < |s.blocks| && Admits(s.blocks[k], size, s.size) && Inv(Grant(s, k, size))
    ensures Find(s.blocks, s.blocks[k].off) == k && (s.blocks[k].off + HDR) % 8 == 0
    ensures var t := Grant(s, k, size);
      Find(t.blocks, s.blocks[k].off) == k < |t.blocks| && t.blocks[k].used && Payload(t.blocks[k], HDR) >= size
  {
    hide NoFreePair, Extent, Tiled, Grant;
    FindAt(s.blocks, k, 0, End(s), UNIT);
    GrantedBlock(s, k, size);
    FindAt(Grant(s, k, size).blocks, k, 0, End(s), UNIT);
  }

  lemma GrantedBlock(s: State, k: int, size: int)
    requires 0 <= k < |s.blocks| && size <= Payload(s.blocks[k], HDR)
    ensures var t := Grant(s, k, size);
      && k < |t.blocks| && t.blocks[k].off == s.blocks[k].off && t.blocks[k].used && Payload(t.blocks[k], HDR) >= size
      && t.size == s.size
  {
  }

  lemma LiveEntry(s: State, p: int)
    requires Inv(s) && Live(s, p)
    ensures var i := Find(s.blocks, p - HDR);
      i < |s.blocks| && s.blocks[i].used && s.blocks[i].off == p - HDR && HDR <= p && p + 8 <= s.blocks[i].end <= End(s)
  {
    hide NoFreePair, Extent, Aligned;
    var i :| 0 <= i < |s.blocks| && s.blocks[i].off == p - HDR && s.blocks[i].used;
    FindAt(s.blocks, i, 0, End(s), UNIT);
    Neighbours(s.blocks, i, 0, End(s), UNIT);
  }

  lemma Release1Keeps(s: State, i: int)
    requires Inv(s) && 0 <= i < |s.blocks| && s.blocks[i].used
    ensures Inv(Release1(s, i))
  {
    var from, to := MergeFrom(s.blocks, i), MergeTo(s.blocks, i);
    ReleaseKeeps(s.blocks, i, 0, End(s), UNIT);
    ReleaseExtent(s.blocks, i, true, 0, 0, End(s), UNIT);
    SpliceAligned(s.blocks, from, to, [Block(s.blocks[from].off, s.blocks[to - 1].end, false)], 8);
    hide Release;
    Neighbours(s.blocks, i, 0, End(s), UNIT);
  }

  /** Freeing keeps the heap well formed. */
  lemma FreeKeeps(s: State, p: int)
    requires Inv(s) && (p == NULL || Live(s, p))
    ensures Inv(Free(s, p))
  {
    hide Inv, Live, Release1;
    if p != NULL {
      LiveEntry(s, p);
      Release1Keeps(s, Find(s.blocks, p - HDR));
    }
  }

  lemma ResizeAligned(bs: seq<Block>, i: int, cut: int)
    requires Aligned(bs, 8) && 0 <= i < |bs| && cut % 8 == 0
    ensures Aligned(Resize(bs, i, cut), 8)
  {
    var to := MergeTo(bs, i);
    SpliceAligned(bs, i, to, [Block(bs[i].off, cut, true), Block(cut, bs[to - 1].end, false)], 8);
  }

  lemma ShrinkKeeps(s: State, i: int, size: int)
    requires Inv(s) && 0 <= i < |s.blocks| && s.blocks[i].used
    requires 8 <= size && size % 8 == 0 && size + HDR + MIN_SIZE < Payload(s.blocks[i], HDR)
    ensures Inv(s.(blocks := Resize(s.blocks, i, s.blocks[i].off + HDR + size),
                   usedMem := s.usedMem - (Payload(s.blocks[i], HDR) - size)))
  {
    hide Resize, Tiled, NoFreePair, Extent, Aligned;
    var bs, cut := s.blocks, s.blocks[i].off + HDR + size;
    Neighbours(bs, i, 0, End(s), UNIT);
    ResizeKeeps(bs, i, cut, 0, End(s), UNIT);
    ResizeExtent(bs, i, cut, true, 0, 0, End(s), UNIT);
    OffsetAligned(bs, i);
    ResizeAligned(bs, i, cut);
  }

  lemma OffsetAligned(bs: seq<Block>, i: int)
    requires Aligned(bs, 8) && 0 <= i < |bs|
    ensures bs[i].off % 8 == 0
  {
  }

  lemma GrantKeepsLive(s: State, i: int, size: int, p: int)
    requires Inv(s) && 0 <= i < |s.blocks| && !s.blocks[i].used && 8 <= size && Live(s, p)
    ensures Live(Grant(s, i, size), p)
  {
    hide Extent, NoFreePair, Aligned, Splice, Cut, Tiled, At;
    Neighbours(s.blocks, i, 0, End(s), UNIT);
    CutTiled(s.blocks[i], size, HDR, MIN_ALIGNED, UNIT);
    SpliceAt(s.blocks, i, i + 1, Cut(s.blocks[i], size, HDR, MIN_ALIGNED), 0, End(s), UNIT, p - HDR, true);
    if s.blocks[i].off <= p - HDR < s.blocks[i].end {
      AtBlock(s.blocks, i, 0, End(s), UNIT, p - HDR, true);
    }
  }

  lemma MallocKeepsLive(s: State, request: int, p: int)
    requires Inv(s) && 0 <= request <= MAX_REQUEST && Live(s, p)
    ensures Live(Malloc(s, request).0, p)
  {
    hide Inv, Live, Grant;
    var k := Search(s.blocks, SearchSize(request), s.size);
    if k < |s.blocks| {
      GrantKeepsLive(s, k, SearchSize(request), p);
    }
  }

  lemma MoveKeeps(s: State, p: int, size: int)
    requires Inv(s) && 0 <= size <= MAX_REQUEST && Live(s, p)
    ensures var t := Malloc(s, size).0;
      && Inv(t) && Live(t, p)
      && Find(t.blocks, p - HDR) < |t.blocks| && t.blocks[Find(t.blocks, p - HDR)].used
      && Inv(Release1(t, Find(t.blocks, p - HDR)))
  {
    hide Inv, Live, Malloc, Release1;
    MallocKeeps(s, size);
    MallocKeepsLive(s, size, p);
    var t := Malloc(s, size).0;
    LiveEntry(t, p);
    Release1Keeps(t, Find(t.blocks, p - HDR));
  }

  /** What a caller of rt_realloc and rt_free may pass. */
  ghost predicate Passable(s: State, p: int) {
    p == NULL || Live(s, p) || !InHeap(s, p)
  }

  /** Reallocation keeps the heap well formed. */
  lemma ReallocKeeps(s: State, p: int, request: int)
    requires Inv(s) && 0 <= request <= MAX_REQUEST && Passable(s, p) && (request == 0 ==> p == NULL || Live(s, p))
    ensures Inv(Realloc(s, p, request).0)
  {
    hide Inv, Live, Malloc, Release1, Resize;
    var size := Align8(request);
    if size == 0 {
      FreeKeeps(s, p);
    } else if p == NULL {
      MallocKeeps(s, size);
    } else if InHeap(s, p) {
      LiveEntry(s, p);
      var i := Find(s.blocks, p - HDR);
      if size + HDR + MIN_SIZE < Payload(s.blocks[i], HDR) {
        ShrinkKeeps(s, i, size);
      } else {
        MoveKeeps(s, p, size);
      }
    }
  }

  /** A failed reallocation leaves the whole heap as it was. */
  lemma ReallocFails(s: State, p: int, request: int)
    requires Inv(s) && 0 < request <= MAX_REQUEST && Passable(s, p) && Realloc(s, p, request).1 == NULL
    ensures Realloc(s, p, request).0 == s
  {
    hide Inv;
    MallocFailsIff(s, Align8(request));
  }

  /** Freeing what was just allocated restores the blocks and the byte count exactly. */
  lemma FreeUndoesMalloc(s: State, request: int)
    requires Inv(s) && 0 <= request <= MAX_REQUEST && Malloc(s, request).1 != NULL
    ensures var (t, p) := Malloc(s, request);
      Free(t, p).blocks == s.blocks && Free(t, p).usedMem == s.usedMem
  {
    hide Extent, NoFreePair, Aligned, Splice, Release, Take, Tiled;
    var size := SearchSize(request);
    var k := Search(s.blocks, size, s.size);
    MallocGrants(s, request);
    FindAt(s.blocks, k, 0, End(s), UNIT);
    ReleaseUndoesTake(s.blocks, k, size, HDR, MIN_ALIGNED, 0, End(s), UNIT);
    GrantKeeps(s, k, size);
    GrantedUsed(s, k, size);
    Release1Keeps(Grant(s, k, size), k);
  }

  lemma GrantedUsed(s: State, k: int, size: int)
    requires 0 <= k < |s.blocks|
    ensures k < |Grant(s, k, size).blocks| && Grant(s, k, size).blocks[k].used
  {
  }

  // ---- Runs -------------------------------------------------------------------------------

  datatype Op = MallocOp(request: int) | ReallocOp(ptr: int, request: int) | FreeOp(ptr: int)

  ghost predicate Allowed(s: State, op: Op) {
    match op
    case MallocOp(n) => 0 <= n <= MAX_REQUEST
    case ReallocOp(p, n) => 0 <= n <= MAX_REQUEST && Passable(s, p) && (n == 0 ==> p == NULL || Live(s, p))
    case FreeOp(p) => p == NULL || Live(s, p)
  }

  ghost function Apply(s: State, op: Op): State {
    match op
    case MallocOp(n) => Malloc(s, n).0
    case ReallocOp(p, n) => Realloc(s, p, n).0
    case FreeOp(p) => Free(s, p)
  }

  ghost predicate IsStep(s: State, op: Op, t: State) {
    Allowed(s, op) && t == Apply(s, op)
  }

  ghost predicate IsRun(run: seq<State>, ops: seq<Op>, size: int) {
    && |run| == |ops| + 1
    && run[0] == Init(size)
    && forall i :: 0 <= i < |ops| ==> IsStep(run[i], ops[i], run[i + 1])
  }

  lemma ApplyKeeps(s: State, op: Op)
    requires Inv(s) && Allowed(s, op)
    ensures Inv(Apply(s, op))
  {
    hide Inv, Malloc, Free, Realloc;
    match op
    case MallocOp(n) => MallocKeeps(s, n);
    case ReallocOp(p, n) => ReallocKeeps(s, p, n);
    case FreeOp(p) => FreeKeeps(s, p);
  }

  function Max(a: int, b: int): int {
    if a < b then b else a
  }

  /** The most bytes in use at any moment of a step: a reallocation that moves holds the old
      and the new block together for a while. */
  ghost function Peak(s: State, op: Op): int {
    if Moves(s, op) then Malloc(s, Align8(op.request)).0.usedMem else Apply(s, op).usedMem
  }

  ghost predicate Moves(s: State, op: Op) {
    && op.ReallocOp? && 0 < Align8(op.request) <= s.size && op.ptr != NULL && InHeap(s, op.ptr)
    && var i, size := Find(s.blocks, op.ptr - HDR), Align8(op.request);
       i < |s.blocks| && Payload(s.blocks[i], HDR) != size && size + HDR + MIN_SIZE >= Payload(s.blocks[i], HDR)
  }

  lemma MallocCounts(s: State, request: int)
    requires Inv(s)
    ensures var t := Malloc(s, request).0; t.maxMem == Max(s.maxMem, t.usedMem) && t.size == s.size
  {
    hide Tiled, NoFreePair, Aligned, Extent, Take;
  }

  lemma NotOverMax(s: State)
    requires Inv(s)
    ensures s.usedMem <= s.maxMem && forall i :: 0 <= i < |s.blocks| ==> s.blocks[i].off < s.blocks[i].end
  {
  }

  /** max_mem moves to the peak of every step and never anywhere else. */
  lemma ApplyCounts(s: State, op: Op)
    requires Inv(s) && Allowed(s, op)
    ensures Apply(s, op).size == s.size
    ensures Apply(s, op).maxMem == Max(s.maxMem, Peak(s, op))
  {
    hide Inv, Malloc, Release, Resize, Live;
    NotOverMax(s);
    match op
    case MallocOp(n) => MallocCounts(s, n);
    case FreeOp(p) =>
    case ReallocOp(p, n) =>
      MallocCounts(s, Align8(n));
      if Moves(s, op) {
        LiveEntry(s, p);
        MoveKeeps(s, p, Align8(n));
        NotOverMax(Malloc(s, Align8(n)).0);
      }
  }

  /** Main result, first half: the heap is well formed in every state of every run. */
  lemma {:induction false} RunInv(run: seq<State>, ops: seq<Op>, size: int, k: nat)
    requires MIN_ALIGNED <= size && size % 8 == 0 && IsRun(run, ops, size) && k <= |ops|
    ensures Inv(run[k]) && run[k].size == size
  {
    hide Inv, Allowed, Apply;
    if k == 0 {
      InitInv(size);
    } else {
      RunInv(run, ops, size, k - 1);
      assert IsStep(run[k - 1], ops[k - 1], run[k - 1 + 1]);
      ApplyKeeps(run[k - 1], ops[k - 1]);
      ApplyCounts(run[k - 1], ops[k - 1]);
    }
  }

  /** What is in use and what is free, headers included, always make up the whole heap. */
  lemma UsedAndFree(s: State)
    requires Inv(s)
    ensures s.usedMem + Extent(s.blocks, false, 0) == s.size + HDR
  {
    ExtentsCoverArea(s.blocks, 0, End(s), UNIT);
  }

  /** Main result, second half: max_mem is the high-water mark of the bytes in use. */
  lemma {:induction false} RunHighWater(run: seq<State>, ops: seq<Op>, size: int, k: nat)
    requires MIN_ALIGNED <= size && size % 8 == 0 && IsRun(run, ops, size) && k <= |ops|
    ensures forall i :: 0 <= i < k ==> Peak(run[i], ops[i]) <= run[k].maxMem
    ensures run[k].maxMem == 0 || exists i :: 0 <= i < k && Peak(run[i], ops[i]) == run[k].maxMem
  {
    hide Inv, Allowed, Apply, Peak;
    if k > 0 {
      RunHighWater(run, ops, size, k - 1);
      RunInv(run, ops, size, k - 1);
      assert IsStep(run[k - 1], ops[k - 1], run[k - 1 + 1]);
      ApplyCounts(run[k - 1], ops[k - 1]);
    }
  }
}
