/** What the calls on the small-memory heap achieve: which blocks are in use afterwards, how large they
    are, and when a call fails.
 */
module SmallMemGrants {
  import opened HeapUse
  import opened SmallMemLemmas
  import opened SmallMemModel
  import opened Tiling

  /** A pointer is handed out for a block in use, which is large enough, and larger than a request that is
      rounded up by no more than a header and a minimum payload. */
  ghost predicate Granted(t: State, p: int, request: int) {
    && p != NULL && Points(t.blocks, p, HDR) && p % 8 == 0
    && Align8(request) <= Payload(BlockOf(t.blocks, p, HDR), HDR) < SearchSize(request) + HDR + MIN_ALIGNED
  }

  lemma LivePoints(s: State, p: int)
    ensures Live(s, p) <==> Points(s.blocks, p, HDR)
  {
  }

  lemma LiveBlock(s: State, p: int)
    requires Inv(s) && Live(s, p)
    ensures Tiled(s.blocks, 0, End(s), UNIT) && p != NULL && InHeap(s, p) && p % 8 == 0
    ensures var i := Find(s.blocks, p - HDR);
      i < |s.blocks| && s.blocks[i].used && s.blocks[i].off == p - HDR && BlockOf(s.blocks, p, HDR) == s.blocks[i]
      && Payload(s.blocks[i], HDR) % 8 == 0
  {
    hide Extent, NoFreePair, Aligned, Tiled;
    LiveEntry(s, p);
    BlockAligned(s, Find(s.blocks, p - HDR));
  }

  lemma BlockAligned(s: State, i: int)
    requires Inv(s) && 0 <= i < |s.blocks|
    ensures s.blocks[i].off % 8 == 0 && s.blocks[i].end % 8 == 0
  {
    hide Extent, NoFreePair, Tiled;
  }

  lemma TiledOf(s: State)
    requires Inv(s)
    ensures Tiled(s.blocks, 0, End(s), UNIT) && 0 < s.size
  {
  }

  lemma GrantUse(s: State, k: int, size: int)
    requires Inv(s) && 0 <= k < |s.blocks| && Admits(s.blocks[k], size, s.size) && 8 <= size && Inv(Grant(s, k, size))
    ensures var t, p := Grant(s, k, size), s.blocks[k].off + HDR; var b := BlockOf(t.blocks, p, HDR);
      && !Live(s, p) && Live(t, p) && size <= Payload(b, HDR) < size + HDR + MIN_ALIGNED && Gains(s.blocks, t.blocks, b)
      && t.size == s.size
  {
    hide Extent, NoFreePair, Splice, Tiled, Occupied, Inv, Gains, Take;
    GrantedIs(s, k, size);
    TakenBlock(s, k, size);
    FreeNotLive(s, k);
    GainsOne(s.blocks, k, size, HDR, MIN_ALIGNED);
  }

  lemma TakenBlock(s: State, i: int, size: int)
    requires 0 <= i < |s.blocks|
    ensures i < |Take(s.blocks, i, size, HDR, MIN_ALIGNED)|
    ensures Take(s.blocks, i, size, HDR, MIN_ALIGNED)[i] == Cut(s.blocks[i], size, HDR, MIN_ALIGNED)[0]
  {
  }

  lemma FreeNotLive(s: State, i: int)
    requires Inv(s) && 0 <= i < |s.blocks| && !s.blocks[i].used
    ensures !Live(s, s.blocks[i].off + HDR)
  {
    hide Extent, NoFreePair, Aligned;
    Neighbours(s.blocks, i, 0, End(s), UNIT);
    AtBlock(s.blocks, i, 0, End(s), UNIT, s.blocks[i].off, true);
  }

  /** Allocation fails without any change, or puts exactly one block in use, which nobody had and which
      fits the request. */
  lemma MallocEffect(s: State, request: int)
    requires Inv(s) && 0 <= request <= MAX_REQUEST
    ensures var (t, p) := Malloc(s, request);
      && t.size == s.size
      && if p == NULL then t == s
         else Granted(t, p, request) && !Live(s, p) && Gains(s.blocks, t.blocks, BlockOf(t.blocks, p, HDR))
  {
    hide Inv, Grant, Live, Gains, Points, BlockOf;
    var size := SearchSize(request);
    var k := Search(s.blocks, size, s.size);
    if request != 0 && Align8(request) <= s.size && k < |s.blocks| {
      MallocKeeps(s, request);
      GrantUse(s, k, size);
      var t := Malloc(s, request).0;
      LivePoints(t, s.blocks[k].off + HDR);
      LiveBlock(t, s.blocks[k].off + HDR);
    }
  }

  /** Giving a block back puts exactly this block out of use. */
  lemma FreeEffect(s: State, p: int)
    requires Inv(s) && Live(s, p)
    ensures Loses(s.blocks, Free(s, p).blocks, BlockOf(s.blocks, p, HDR))
    ensures Free(s, p) == Release1(s, Find(s.blocks, p - HDR)) && Free(s, p).size == s.size
  {
    hide Extent, NoFreePair, Tiled, Release, Loses;
    LiveBlock(s, p);
    LosesOne(s.blocks, Find(s.blocks, p - HDR), End(s), UNIT);
  }

  lemma ResizeEffect(s: State, t: State, i: int, size: int)
    requires Inv(s) && Inv(t) && 0 <= i < |s.blocks| && s.blocks[i].used && t.size == s.size
    requires t.blocks == Resize(s.blocks, i, s.blocks[i].off + HDR + size)
    ensures var p := s.blocks[i].off + HDR; var b := Block(s.blocks[i].off, p + size, true);
      Points(t.blocks, p, HDR) && BlockOf(t.blocks, p, HDR) == b && Swaps(s.blocks, t.blocks, s.blocks[i], b)
  {
    hide Extent, NoFreePair, Tiled, Occupied, Swaps, Resize, Points, BlockOf;
    var p := s.blocks[i].off + HDR;
    var b := Block(s.blocks[i].off, p + size, true);
    SwapsOne(s.blocks, i, p + size, End(s), UNIT);
    SwapsGives(s.blocks, t.blocks, s.blocks[i], b);
    OccupiedIs(t.blocks, b, HDR, End(s), UNIT);
  }

  lemma SwapsGives(bs: seq<Block>, cs: seq<Block>, a: Block, b: Block)
    requires Swaps(bs, cs, a, b)
    ensures Occupied(cs, b)
  {
  }

  lemma MoveEffect(s: State, p: int, size: int)
    requires Inv(s) && 0 <= size <= MAX_REQUEST && Live(s, p)
    ensures var (m, q) := Malloc(s, size); q != NULL ==>
      var t := Release1(m, Find(m.blocks, p - HDR));
      && q != p && t.size == s.size && Granted(t, q, size)
      && Swaps(s.blocks, t.blocks, BlockOf(s.blocks, p, HDR), BlockOf(t.blocks, q, HDR))
  {
    hide Inv, Malloc, Live, Release1, Occupied, Points, BlockOf, Gains, Loses, Swaps, Tiled;
    LiveBlock(s, p);
    MallocEffect(s, size);
    MoveKeeps(s, p, size);
    var (m, q) := Malloc(s, size);
    if q != NULL {
      var t := Free(m, p);
      var a, b := BlockOf(s.blocks, p, HDR), BlockOf(m.blocks, q, HDR);
      LivePoints(s, p);
      LivePoints(m, p);
      KeptBlock(s, m, p, q);
      FreeEffect(m, p);
      GainsThenLoses(s.blocks, m.blocks, t.blocks, a, b);
      SwapsGives(s.blocks, t.blocks, a, b);
      TiledOf(t);
      OccupiedIs(t.blocks, b, HDR, End(t), UNIT);
    }
  }

  /** The block of a pointer in use, after another one was handed out. */
  lemma KeptBlock(s: State, m: State, p: int, q: int)
    requires Inv(s) && Inv(m) && m.size == s.size && Live(s, p) && Points(m.blocks, q, HDR)
    requires Gains(s.blocks, m.blocks, BlockOf(m.blocks, q, HDR)) && p != q
    ensures BlockOf(m.blocks, p, HDR) == BlockOf(s.blocks, p, HDR) != BlockOf(m.blocks, q, HDR)
    ensures BlockOf(m.blocks, q, HDR).off == q - HDR
  {
    hide Inv, Tiled, Occupied, Live, Points, BlockOf;
    LivePoints(s, p);
    TiledOf(s);
    TiledOf(m);
    PointedIs(s.blocks, p, HDR, End(s), UNIT);
    PointedIs(m.blocks, q, HDR, End(s), UNIT);
    OccupiedIs(m.blocks, BlockOf(s.blocks, p, HDR), HDR, End(s), UNIT);
  }

  /** The block has exactly the payload asked for, or can be cut to it. */
  predicate Serves(b: Block, size: int) {
    Payload(b, HDR) == size || size + HDR + MIN_SIZE < Payload(b, HDR)
  }

  lemma ReallocSize(s: State, p: int, request: int)
    requires Inv(s) && 0 < request <= MAX_REQUEST && Live(s, p)
    ensures Realloc(s, p, request).0.size == s.size
  {
    hide Inv, Live, Release;
    MallocEffect(s, Align8(request));
  }

  /** Main result on rt_realloc: it fails and changes nothing, or the caller's block is replaced by that of
      the pointer returned, which fits the request, and no other block is touched.  It returns the same
      pointer exactly when the size is below that of the heap and the block serves it without a move. */
  lemma ReallocGrants(s: State, p: int, request: int)
    requires Inv(s) && 0 < request <= MAX_REQUEST && Live(s, p)
    ensures var (t, q) := Realloc(s, p, request); var a, b := BlockOf(s.blocks, p, HDR), BlockOf(t.blocks, q, HDR);
      && (if q == NULL then t == s else Granted(t, q, request) && Swaps(s.blocks, t.blocks, a, b))
      && (q == p <==> Align8(request) <= s.size && Serves(a, Align8(request)))
  {
    hide Inv, Malloc, Live, Release1, Resize, Swaps, Points, BlockOf, Tiled;
    LiveBlock(s, p);
    LivePoints(s, p);
    ReallocKeeps(s, p, request);
    var i, size := Find(s.blocks, p - HDR), Align8(request);
    if size <= s.size {
      if Payload(s.blocks[i], HDR) == size {
        PointedIs(s.blocks, p, HDR, End(s), UNIT);
        SwapsNothing(s.blocks, s.blocks[i]);
      } else if size + HDR + MIN_SIZE < Payload(s.blocks[i], HDR) {
        ResizeEffect(s, Realloc(s, p, request).0, i, size);
      } else {
        MallocEffect(s, size);
        MoveEffect(s, p, size);
      }
    }
  }

  /** Reallocation fails exactly when more is asked for than the heap holds, or when the block does not
      serve and an allocation of the size fails. */
  lemma ReallocFailsIff(s: State, p: int, request: int)
    requires Inv(s) && 0 < request <= MAX_REQUEST && Live(s, p)
    ensures Realloc(s, p, request).1 == NULL <==>
      || Align8(request) > s.size
      || (!Serves(BlockOf(s.blocks, p, HDR), Align8(request))
          && forall i :: 0 <= i < |s.blocks| && !s.blocks[i].used ==>
               || Payload(s.blocks[i], HDR) < SearchSize(request)
               || (i == |s.blocks| - 1 && Payload(s.blocks[i], HDR) == SearchSize(request)))
  {
    hide Inv, Malloc, Live, Release1, Resize, Points, BlockOf, Tiled;
    LiveBlock(s, p);
    MallocFailsIff(s, Align8(request));
  }

  // ---- Runs -------------------------------------------------------------------------------

  ghost function ResultOf(s: State, op: Op): int {
    match op
    case MallocOp(n) => Malloc(s, n).1
    case ReallocOp(p, n) => Realloc(s, p, n).1
    case FreeOp(_) => NULL
  }

  /** What becomes of the pointers a caller has, each with the size asked for last, when a call returns
      the pointer `r`; a pointer outside of the heap is nobody's. */
  function Held(held: map<int, int>, op: Op, r: int): map<int, int> {
    match op
    case MallocOp(n) => if r == NULL then held else held[r := n]
    case FreeOp(p) => held - {p}
    case ReallocOp(p, n) =>
      if n == 0 then held - {p}
      else if r == NULL || (p != NULL && p !in held) then held
      else (held - {p})[r := n]
  }

  ghost function HeldAt(run: seq<State>, ops: seq<Op>, k: nat): map<int, int>
    requires |run| == |ops| + 1 && k <= |ops|
  {
    if k == 0 then map[] else Held(HeldAt(run, ops, k - 1), ops[k - 1], ResultOf(run[k - 1], ops[k - 1]))
  }

  lemma NoNull(s: State, held: map<int, int>)
    requires Inv(s) && HeldAre(s.blocks, held, HDR)
    ensures held - {NULL} == held
  {
    hide Inv, Live;
    if NULL in held {
      LivePoints(s, NULL);
      LiveBlock(s, NULL);
      assert false;
    }
  }

  lemma MallocHeld(s: State, request: int, held: map<int, int>, n: int)
    requires Inv(s) && 0 <= request <= MAX_REQUEST && HeldAre(s.blocks, held, HDR) && n <= request
    ensures var (t, p) := Malloc(s, request); HeldAre(t.blocks, if p == NULL then held else held[p := n], HDR)
  {
    hide Inv, Live, Gains, Malloc, Tiled, HeldAre, BlockOf, Points;
    MallocEffect(s, request);
    MallocKeeps(s, request);
    var (t, p) := Malloc(s, request);
    if p != NULL {
      TiledOf(s);
      TiledOf(t);
      PointedIs(t.blocks, p, HDR, End(s), UNIT);
      GainsHeld(s.blocks, t.blocks, BlockOf(t.blocks, p, HDR), held, n, HDR, End(s), UNIT);
    }
  }

  lemma FreeHeld(s: State, p: int, held: map<int, int>)
    requires Inv(s) && (p == NULL || Live(s, p)) && HeldAre(s.blocks, held, HDR)
    ensures HeldAre(Free(s, p).blocks, held - {p}, HDR)
  {
    hide Inv, Live, Loses, Tiled, HeldAre, BlockOf, Points, Release1;
    if p == NULL {
      NoNull(s, held);
    } else {
      FreeEffect(s, p);
      FreeKeeps(s, p);
      LivePoints(s, p);
      TiledOf(s);
      TiledOf(Free(s, p));
      LosesHeld(s.blocks, Free(s, p).blocks, p, held, HDR, End(s), UNIT);
    }
  }

  lemma ReallocHeld(s: State, p: int, n: int, held: map<int, int>)
    requires Inv(s) && 0 < n <= MAX_REQUEST && Live(s, p) && HeldAre(s.blocks, held, HDR)
    ensures var (t, q) := Realloc(s, p, n); HeldAre(t.blocks, if q == NULL then held else (held - {p})[q := n], HDR)
  {
    hide Inv, Live, Swaps, Realloc, Tiled, HeldAre, BlockOf, Points;
    LiveBlock(s, p);
    ReallocGrants(s, p, n);
    ReallocKeeps(s, p, n);
    ReallocSize(s, p, n);
    var (t, q) := Realloc(s, p, n);
    if q != NULL {
      LivePoints(s, p);
      TiledOf(t);
      PointedIs(t.blocks, q, HDR, End(s), UNIT);
      SwapsHeld(s.blocks, t.blocks, p, BlockOf(t.blocks, q, HDR), held, n, HDR, End(s), UNIT);
    }
  }

  lemma HeldLive(s: State, held: map<int, int>, p: int)
    requires HeldAre(s.blocks, held, HDR)
    ensures p in held <==> Live(s, p)
  {
  }

  lemma StepHeld(s: State, op: Op, held: map<int, int>)
    requires Inv(s) && Allowed(s, op) && HeldAre(s.blocks, held, HDR)
    ensures HeldAre(Apply(s, op).blocks, Held(held, op, ResultOf(s, op)), HDR)
  {
    hide Inv, Live, Malloc, Free, HeldAre, Tiled;
    TiledOf(s);
    match op
    case MallocOp(n) => MallocHeld(s, n, held, n);
    case FreeOp(p) => FreeHeld(s, p, held);
    case ReallocOp(p, n) =>
      HeldLive(s, held, p);
      if n == 0 {
        FreeHeld(s, p, held);
      } else if p == NULL {
        NoNull(s, held);
        MallocHeld(s, Align8(n), held, n);
      } else if Live(s, p) {
        ReallocHeld(s, p, n, held);
      }
  }

  /** Main result on the pointers: in every run the blocks in use are those of the pointers that were handed
      out and not given back, and each is at least as large as was asked for last. */
  lemma {:induction false} RunHeld(run: seq<State>, ops: seq<Op>, size: int, k: nat)
    requires MIN_ALIGNED <= size && size % 8 == 0 && IsRun(run, ops, size) && k <= |ops|
    ensures HeldAre(run[k].blocks, HeldAt(run, ops, k), HDR)
  {
    hide Inv, Allowed, Apply, HeldAre, ResultOf;
    if k == 0 {
      InitHeld(size);
    } else {
      RunHeld(run, ops, size, k - 1);
      RunInv(run, ops, size, k - 1);
      assert IsStep(run[k - 1], ops[k - 1], run[k - 1 + 1]);
      StepHeld(run[k - 1], ops[k - 1], HeldAt(run, ops, k - 1));
    }
  }

  lemma InitHeld(size: int)
    ensures HeldAre(Init(size).blocks, map[], HDR)
  {
  }
}
