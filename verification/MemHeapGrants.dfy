/** What the calls on a memory heap achieve: which blocks are in use afterwards, how large they are,
    and when a call fails.
 */
module MemHeapGrants {
  import opened HeapUse
  import opened MemHeapLemmas
  import opened MemHeapModel
  import opened Tiling

  /** A pointer is handed out for a block in use, which is large enough, and larger than the request,
      rounded twice at most, by no more than a header and a minimum payload. */
  ghost predicate Granted(t: State, p: int, request: int) {
    && p != NULL && Points(t.blocks, p, HDR)
    && var size := RequestSize(request);
       size <= Payload(BlockOf(t.blocks, p, HDR), HDR) <= RequestSize(size) + HDR + MINI
  }

  lemma LivePoints(s: State, p: int)
    ensures Live(s, p) <==> Points(s.blocks, p, HDR)
  {
  }

  /** Pointers in use: their blocks are tiles, and none is NULL. */
  lemma LiveBlock(s: State, p: int)
    requires Inv(s) && Live(s, p)
    ensures Tiled(s.blocks, 0, s.pool - HDR, UNIT) && p != NULL
    ensures var i := Find(s.blocks, p - HDR);
      i < |s.blocks| && s.blocks[i].used && s.blocks[i].off == p - HDR && BlockOf(s.blocks, p, HDR) == s.blocks[i]
  {
    hide Indexes, Extent, NoFreePair;
    LiveEntry(s, p);
    Neighbours(s.blocks, Find(s.blocks, p - HDR), 0, s.pool - HDR, UNIT);
  }

  lemma GrantUse(s: State, k: int, size: int)
    requires Inv(s) && 0 <= k < |s.ring| && HasRoom(s.blocks, s.ring[k], size) && MINI <= size && Inv(Grant(s, k, size))
    ensures var t, p := Grant(s, k, size), s.ring[k] + HDR; var b := BlockOf(t.blocks, p, HDR);
      && !Live(s, p) && Live(t, p) && size <= Payload(b, HDR) < size + HDR + MINI && Gains(s.blocks, t.blocks, b)
  {
    hide Indexes, Extent, NoFreePair, Splice, Tiled, Occupied, Inv, Gains, Take;
    RingEntry(s, k);
    GrantedIs(s, k, size);
    GrantBlock(s, k, size);
    var i := Find(s.blocks, s.ring[k]);
    TakenBlock(s, i, size);
    FreeNotLive(s, i);
    GainsOne(s.blocks, i, size, HDR, MINI);
  }

  lemma TakenBlock(s: State, i: int, size: int)
    requires 0 <= i < |s.blocks|
    ensures i < |Take(s.blocks, i, size, HDR, MINI)|
    ensures Take(s.blocks, i, size, HDR, MINI)[i] == Cut(s.blocks[i], size, HDR, MINI)[0]
  {
  }

  lemma FreeNotLive(s: State, i: int)
    requires Inv(s) && 0 <= i < |s.blocks| && !s.blocks[i].used
    ensures !Live(s, s.blocks[i].off + HDR)
  {
    hide Indexes, Extent, NoFreePair;
    Neighbours(s.blocks, i, 0, s.pool - HDR, UNIT);
    AtBlock(s.blocks, i, 0, s.pool - HDR, UNIT, s.blocks[i].off, true);
  }

  /** Allocation fails without any change, or puts exactly one block in use, which nobody had and which
      fits the request. */
  lemma AllocEffect(s: State, request: int)
    requires Inv(s) && 0 <= request <= MAX_REQUEST
    ensures var (t, p) := Alloc(s, request);
      if p == NULL then t == s
      else Granted(t, p, request) && !Live(s, p) && Gains(s.blocks, t.blocks, BlockOf(t.blocks, p, HDR))
  {
    hide Inv, Grant, Live, Gains, Points, BlockOf;
    var size := RequestSize(request);
    var k := FirstFit(s.ring, s.blocks, size);
    if size < s.available && k < |s.ring| {
      AllocKeeps(s, request);
      GrantUse(s, k, size);
      LivePoints(Alloc(s, request).0, s.ring[k] + HDR);
      LiveBlock(Alloc(s, request).0, s.ring[k] + HDR);
    }
  }

  /** Giving a block back puts exactly this block out of use. */
  lemma FreeEffect(s: State, p: int)
    requires Inv(s) && Live(s, p)
    ensures Loses(s.blocks, Free(s, p).blocks, BlockOf(s.blocks, p, HDR))
    ensures Free(s, p) == Release1(s, Find(s.blocks, p - HDR))
  {
    hide Indexes, Extent, NoFreePair, Tiled, Release, Loses;
    LiveBlock(s, p);
    LosesOne(s.blocks, Find(s.blocks, p - HDR), s.pool - HDR, UNIT);
  }

  lemma ResizeEffect(s: State, t: State, i: int, size: int)
    requires Inv(s) && Inv(t) && 0 <= i < |s.blocks| && s.blocks[i].used && t.pool == s.pool
    requires t.blocks == Resize(s.blocks, i, s.blocks[i].off + HDR + size)
    ensures var p := s.blocks[i].off + HDR; var b := Block(s.blocks[i].off, p + size, true);
      p != NULL && Points(t.blocks, p, HDR) && BlockOf(t.blocks, p, HDR) == b && Swaps(s.blocks, t.blocks, s.blocks[i], b)
  {
    hide Indexes, Extent, NoFreePair, Tiled, Occupied, Swaps, Resize, Points, BlockOf;
    var p := s.blocks[i].off + HDR;
    var b := Block(s.blocks[i].off, p + size, true);
    SwapsOne(s.blocks, i, p + size, s.pool - HDR, UNIT);
    SwapsGives(s.blocks, t.blocks, s.blocks[i], b);
    Neighbours(s.blocks, i, 0, s.pool - HDR, UNIT);
    OccupiedIs(t.blocks, b, HDR, s.pool - HDR, UNIT);
  }

  lemma SwapsGives(bs: seq<Block>, cs: seq<Block>, a: Block, b: Block)
    requires Swaps(bs, cs, a, b)
    ensures Occupied(cs, b)
  {
  }

  lemma MoveEffect(s: State, p: int, size: int)
    requires Inv(s) && 0 <= size <= MAX_REQUEST && Live(s, p)
    ensures var (m, q) := Alloc(s, size); q != NULL ==>
      var t := Release1(m, Find(m.blocks, p - HDR));
      q != p && Granted(t, q, size) && Swaps(s.blocks, t.blocks, BlockOf(s.blocks, p, HDR), BlockOf(t.blocks, q, HDR))
  {
    hide Inv, Alloc, Live, Release1, Occupied, Points, BlockOf, Gains, Loses, Swaps, Tiled;
    LiveBlock(s, p);
    AllocEffect(s, size);
    MoveKeeps(s, p, size);
    var (m, q) := Alloc(s, size);
    if q != NULL {
      var t := Free(m, p);
      var a, b := BlockOf(s.blocks, p, HDR), BlockOf(m.blocks, q, HDR);
      LivePoints(s, p);
      LivePoints(m, p);
      AllocCounts(s, size);
      KeptBlock(s, m, p, q);
      FreeEffect(m, p);
      GainsThenLoses(s.blocks, m.blocks, t.blocks, a, b);
      SwapsGives(s.blocks, t.blocks, a, b);
      TiledOf(t);
      OccupiedIs(t.blocks, b, HDR, t.pool - HDR, UNIT);
    }
  }

  lemma TiledOf(s: State)
    requires Inv(s)
    ensures Tiled(s.blocks, 0, s.pool - HDR, UNIT)
  {
  }

  /** The block of a pointer in use, after another one was handed out. */
  lemma KeptBlock(s: State, m: State, p: int, q: int)
    requires Inv(s) && Inv(m) && m.pool == s.pool && Live(s, p) && Points(m.blocks, q, HDR)
    requires Gains(s.blocks, m.blocks, BlockOf(m.blocks, q, HDR)) && p != q
    ensures BlockOf(m.blocks, p, HDR) == BlockOf(s.blocks, p, HDR) != BlockOf(m.blocks, q, HDR)
    ensures BlockOf(m.blocks, q, HDR).off == q - HDR
  {
    hide Inv, Tiled, Occupied, Live, Points, BlockOf;
    LivePoints(s, p);
    TiledOf(s);
    TiledOf(m);
    PointedIs(s.blocks, p, HDR, s.pool - HDR, UNIT);
    PointedIs(m.blocks, q, HDR, s.pool - HDR, UNIT);
    OccupiedIs(m.blocks, BlockOf(s.blocks, p, HDR), HDR, s.pool - HDR, UNIT);
  }

  /** The block behind is free, and both together have more than `size` and a minimum payload. */
  ghost predicate RoomBehind(s: State, b: Block, size: int) {
    exists c :: c in s.blocks && !c.used && c.off == b.end && Payload(c, HDR) + Payload(b, HDR) > size + MINI
  }

  lemma Behind(s: State, i: int, size: int)
    requires Inv(s) && 0 <= i < |s.blocks|
    ensures RoomBehind(s, s.blocks[i], size) <==> CanGrow(s, i, size)
  {
    hide Indexes, Extent, NoFreePair;
    Neighbours(s.blocks, i, 0, s.pool - HDR, UNIT);
    if CanGrow(s, i, size) {
      assert s.blocks[i + 1] in s.blocks;
    }
    forall c | c in s.blocks && c.off == s.blocks[i].end
      ensures i + 1 < |s.blocks| && c == s.blocks[i + 1]
    {
      var k :| 0 <= k < |s.blocks| && s.blocks[k] == c;
    }
  }

  /** Rounding twice, as a reallocation that moves does. */
  lemma RoundedTwice(request: int)
    requires 0 <= request <= MAX_REQUEST
    ensures request <= RequestSize(request) <= RequestSize(RequestSize(request))
    ensures RequestSize(RequestSize(request)) == RequestSize(RequestSize(RequestSize(request)))
    ensures RequestSize(request) <= MAX_REQUEST
  {
  }

  /** Main result on rt_memheap_realloc: it fails and changes nothing, or the caller's block is replaced
      by that of the pointer returned, which fits the request, and no other block is touched.  It returns
      the same pointer exactly when the block is large enough, or there is room behind it. */
  lemma ReallocGrants(s: State, p: int, request: int)
    requires Inv(s) && 0 < request <= MAX_REQUEST && Live(s, p)
    ensures var (t, q) := Realloc(s, p, request); var a, b := BlockOf(s.blocks, p, HDR), BlockOf(t.blocks, q, HDR);
      && (if q == NULL then t == s else Granted(t, q, request) && Swaps(s.blocks, t.blocks, a, b))
      && (q == p <==> RequestSize(request) <= Payload(a, HDR) || RoomBehind(s, a, RequestSize(request)))
  {
    hide Inv, Alloc, Live, Release1, Resize, Swaps, Points, BlockOf, Tiled;
    LiveBlock(s, p);
    LivePoints(s, p);
    ReallocKeeps(s, p, request);
    RoundedTwice(request);
    var i := Find(s.blocks, p - HDR);
    var size, oldSize := RequestSize(request), Payload(s.blocks[i], HDR);
    Behind(s, i, size);
    if size > oldSize && !CanGrow(s, i, size) {
      AllocEffect(s, size);
      MoveEffect(s, p, size);
    } else if size > oldSize || size + HDR + MINI < oldSize {
      ResizeEffect(s, Realloc(s, p, request).0, i, size);
    } else {
      PointedIs(s.blocks, p, HDR, s.pool - HDR, UNIT);
      SwapsNothing(s.blocks, s.blocks[i]);
    }
  }

  /** Reallocation fails exactly when the block is too small, there is no room behind it, and an allocation
      of the size, rounded a second time, fails. */
  lemma ReallocFailsIff(s: State, p: int, request: int)
    requires Inv(s) && 0 < request <= MAX_REQUEST && Live(s, p)
    ensures var b, size := BlockOf(s.blocks, p, HDR), RequestSize(request);
      Realloc(s, p, request).1 == NULL <==>
        && Payload(b, HDR) < size && !RoomBehind(s, b, size)
        && (RequestSize(size) >= s.available
            || forall c :: c in s.blocks && !c.used ==> Payload(c, HDR) < RequestSize(size))
  {
    hide Inv, Alloc, Live, Release1, Resize, BlockOf, Points, Tiled;
    LiveBlock(s, p);
    Behind(s, Find(s.blocks, p - HDR), RequestSize(request));
    RoundedTwice(request);
    AllocFailsIff(s, RequestSize(request));
  }

  /** The free block in front of a block, if any, takes its place when it is given back; otherwise the
      block is the first to be handed out again. */
  lemma ReusedFirst(s: State, p: int, request: int)
    requires Inv(s) && Live(s, p) && 0 <= request <= MAX_REQUEST
    requires RequestSize(request) <= Payload(BlockOf(s.blocks, p, HDR), HDR)
    requires forall c :: c in s.blocks && !c.used ==> c.end != p - HDR
    ensures Alloc(Free(s, p), request).1 == if RequestSize(request) < Free(s, p).available then p else NULL
  {
    hide Indexes, Extent, NoFreePair, Tiled, BlockOf;
    LiveBlock(s, p);
    var i, t := Find(s.blocks, p - HDR), Free(s, p);
    Neighbours(s.blocks, i, 0, s.pool - HDR, UNIT);
    assert 0 < i ==> s.blocks[i - 1] in s.blocks;
    assert MergeFrom(s.blocks, i) == i && t.ring[0] == p - HDR;
    FreeKeeps(s, p);
    JoinedBlock(s, t, i);
    assert HasRoom(t.blocks, t.ring[0], RequestSize(request));
  }

  lemma JoinedBlock(s: State, t: State, i: int)
    requires Inv(s) && Inv(t) && 0 <= i < |s.blocks| && s.blocks[i].used && MergeFrom(s.blocks, i) == i
    requires t == Release1(s, i)
    ensures Find(t.blocks, s.blocks[i].off) == i < |t.blocks|
    ensures Payload(s.blocks[i], HDR) <= Payload(t.blocks[i], HDR)
  {
    hide Indexes, Extent, NoFreePair;
    Neighbours(s.blocks, i, 0, s.pool - HDR, UNIT);
    FindAt(t.blocks, i, 0, t.pool - HDR, UNIT);
  }

  // ---- Runs -------------------------------------------------------------------------------

  ghost function ResultOf(s: State, op: Op): int {
    match op
    case AllocOp(n) => Alloc(s, n).1
    case ReallocOp(p, n) => Realloc(s, p, n).1
    case FreeOp(_) => NULL
  }

  /** What becomes of the pointers a caller has, each with the size asked for last, when a call returns
      the pointer `r`. */
  function Held(held: map<int, int>, op: Op, r: int): map<int, int> {
    match op
    case AllocOp(n) => if r == NULL then held else held[r := n]
    case FreeOp(p) => held - {p}
    case ReallocOp(p, n) => if n == 0 then held - {p} else if r == NULL then held else (held - {p})[r := n]
  }

  ghost function HeldAt(run: seq<State>, ops: seq<Op>, k: nat): map<int, int>
    requires |run| == |ops| + 1 && k <= |ops|
  {
    if k == 0 then map[] else Held(HeldAt(run, ops, k - 1), ops[k - 1], ResultOf(run[k - 1], ops[k - 1]))
  }

  lemma NoNull(s: State, held: map<int, int>)
    requires Inv(s) && HeldAre(s.blocks, held, HDR)
    ensures held - {NULL} == held
  {
    hide Inv, Live;
    if NULL in held {
      LivePoints(s, NULL);
      LiveBlock(s, NULL);
      assert false;
    }
  }

  lemma AllocHeld(s: State, request: int, held: map<int, int>, n: int)
    requires Inv(s) && 0 <= request <= MAX_REQUEST && HeldAre(s.blocks, held, HDR) && n <= request
    ensures var (t, p) := Alloc(s, request); HeldAre(t.blocks, if p == NULL then held else held[p := n], HDR)
  {
    hide Inv, Live, Gains, Alloc, Tiled, HeldAre, BlockOf, Points;
    AllocEffect(s, request);
    AllocKeeps(s, request);
    AllocCounts(s, request);
    RoundedTwice(request);
    var (t, p) := Alloc(s, request);
    if p != NULL {
      TiledOf(s);
      TiledOf(t);
      PointedIs(t.blocks, p, HDR, s.pool - HDR, UNIT);
      GainsHeld(s.blocks, t.blocks, BlockOf(t.blocks, p, HDR), held, n, HDR, s.pool - HDR, UNIT);
    }
  }

  lemma FreeHeld(s: State, p: int, held: map<int, int>)
    requires Inv(s) && (p == NULL || Live(s, p)) && HeldAre(s.blocks, held, HDR)
    ensures HeldAre(Free(s, p).blocks, held - {p}, HDR)
  {
    hide Inv, Live, Loses, Tiled, HeldAre, BlockOf, Points, Release1;
    if p == NULL {
      NoNull(s, held);
    } else {
      FreeEffect(s, p);
      FreeKeeps(s, p);
      LiveBlock(s, p);
      Release1Counts(s, Find(s.blocks, p - HDR));
      LivePoints(s, p);
      TiledOf(Free(s, p));
      LosesHeld(s.blocks, Free(s, p).blocks, p, held, HDR, s.pool - HDR, UNIT);
    }
  }

  lemma ReallocHeld(s: State, p: int, n: int, held: map<int, int>)
    requires Inv(s) && 0 < n <= MAX_REQUEST && Live(s, p) && HeldAre(s.blocks, held, HDR)
    ensures var (t, q) := Realloc(s, p, n); HeldAre(t.blocks, if q == NULL then held else (held - {p})[q := n], HDR)
  {
    hide Inv, Live, Swaps, Realloc, Tiled, HeldAre, BlockOf, Points, Peak;
    LiveBlock(s, p);
    ReallocGrants(s, p, n);
    ReallocKeeps(s, p, n);
    ReallocCounts(s, p, n);
    RoundedTwice(n);
    var (t, q) := Realloc(s, p, n);
    if q != NULL {
      LivePoints(s, p);
      TiledOf(t);
      PointedIs(t.blocks, q, HDR, s.pool - HDR, UNIT);
      SwapsHeld(s.blocks, t.blocks, p, BlockOf(t.blocks, q, HDR), held, n, HDR, s.pool - HDR, UNIT);
    }
  }

  lemma StepHeld(s: State, op: Op, held: map<int, int>)
    requires Inv(s) && Allowed(s, op) && HeldAre(s.blocks, held, HDR)
    ensures HeldAre(Apply(s, op).blocks, Held(held, op, ResultOf(s, op)), HDR)
  {
    hide Inv, Live, Alloc, Free, HeldAre;
    match op
    case AllocOp(n) => AllocHeld(s, n, held, n);
    case FreeOp(p) => FreeHeld(s, p, held);
    case ReallocOp(p, n) =>
      if n == 0 {
        FreeHeld(s, p, held);
      } else if p == NULL {
        RoundedTwice(n);
        NoNull(s, held);
        AllocHeld(s, RequestSize(n), held, n);
      } else {
        ReallocHeld(s, p, n, held);
      }
  }

  /** Main result on the pointers: in every run the blocks in use are those of the pointers that were handed
      out and not given back, and each is at least as large as was asked for last. */
  lemma {:induction false} RunHeld(run: seq<State>, ops: seq<Op>, pool: int, k: nat)
    requires 2 * HDR + MINI <= pool <= 0xFFFF_FFF8 && IsRun(run, ops, pool) && k <= |ops|
    ensures HeldAre(run[k].blocks, HeldAt(run, ops, k), HDR)
  {
    hide Inv, Allowed, Apply, HeldAre, ResultOf;
    if k == 0 {
      InitHeld(pool);
    } else {
      RunHeld(run, ops, pool, k - 1);
      RunInv(run, ops, pool, k - 1);
      assert IsStep(run[k - 1], ops[k - 1], run[k - 1 + 1]);
      StepHeld(run[k - 1], ops[k - 1], HeldAt(run, ops, k - 1));
    }
  }

  lemma InitHeld(pool: int)
    ensures HeldAre(Init(pool).blocks, map[], HDR)
  {
  }
}
