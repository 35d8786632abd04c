/** The blocks in use of a heap and the pointers to their payloads, for any block list: what changes
    when one block comes into use, goes out of use, or is replaced.
 */
module HeapUse {
  import opened Tiling

  /** One block more is in use. */
  ghost predicate Gains(bs: seq<Block>, cs: seq<Block>, b: Block) {
    forall x :: Occupied(cs, x) <==> Occupied(bs, x) || x == b
  }

  /** One block less is in use. */
  ghost predicate Loses(bs: seq<Block>, cs: seq<Block>, b: Block) {
    forall x :: Occupied(cs, x) <==> Occupied(bs, x) && x != b
  }

  /** One block in use is replaced by another, or by itself. */
  ghost predicate Swaps(bs: seq<Block>, cs: seq<Block>, a: Block, b: Block) {
    forall x :: Occupied(cs, x) <==> (Occupied(bs, x) && x != a) || x == b
  }

  /** A pointer to the payload of a block in use, behind a header of `h` bytes. */
  ghost predicate Points(bs: seq<Block>, p: int, h: int) {
    At(bs, p - h, true)
  }

  /** The block that a pointer belongs to. */
  ghost function BlockOf(bs: seq<Block>, p: int, h: int): (b: Block)
    ensures Points(bs, p, h) ==> b.off == p - h
  {
    if Find(bs, p - h) < |bs| then bs[Find(bs, p - h)] else Block(p - h, p - h, false)
  }

  lemma PointedIs(bs: seq<Block>, p: int, h: int, hi: int, unit: int)
    requires Tiled(bs, 0, hi, unit) && 0 < unit && Points(bs, p, h)
    ensures var b := BlockOf(bs, p, h); Occupied(bs, b) && b.off == p - h && 0 <= p - h && b.end <= hi
  {
    var k :| 0 <= k < |bs| && bs[k].off == p - h && bs[k].used;
    FindAt(bs, k, 0, hi, unit);
    Neighbours(bs, k, 0, hi, unit);
  }

  lemma OccupiedIs(bs: seq<Block>, b: Block, h: int, hi: int, unit: int)
    requires Tiled(bs, 0, hi, unit) && 0 < unit && Occupied(bs, b)
    ensures Points(bs, b.off + h, h) && BlockOf(bs, b.off + h, h) == b
  {
    var k :| 0 <= k < |bs| && bs[k] == b;
    FindAt(bs, k, 0, hi, unit);
  }

  lemma GainsOne(bs: seq<Block>, i: int, size: int, h: int, min: int)
    requires 0 <= i < |bs| && !bs[i].used
    ensures Gains(bs, Take(bs, i, size, h, min), Cut(bs[i], size, h, min)[0])
  {
    hide Occupied, Take;
    forall x
      ensures Occupied(Take(bs, i, size, h, min), x) <==> Occupied(bs, x) || x == Cut(bs[i], size, h, min)[0]
    {
      TakeUse(bs, i, size, h, min, x);
    }
  }

  lemma LosesOne(bs: seq<Block>, i: int, hi: int, unit: int)
    requires Tiled(bs, 0, hi, unit) && 0 < unit && 0 <= i < |bs| && bs[i].used
    ensures Loses(bs, Release(bs, i), bs[i])
  {
    hide Occupied, Release, Tiled;
    forall x
      ensures Occupied(Release(bs, i), x) <==> Occupied(bs, x) && x != bs[i]
    {
      ReleaseUse(bs, i, x, 0, hi, unit);
    }
  }

  lemma SwapsOne(bs: seq<Block>, i: int, cut: int, hi: int, unit: int)
    requires Tiled(bs, 0, hi, unit) && 0 < unit && 0 <= i < |bs| && bs[i].used
    ensures Swaps(bs, Resize(bs, i, cut), bs[i], Block(bs[i].off, cut, true))
  {
    hide Occupied, Resize, Tiled;
    forall x
      ensures Occupied(Resize(bs, i, cut), x) <==> (Occupied(bs, x) && x != bs[i]) || x == Block(bs[i].off, cut, true)
    {
      ResizeUse(bs, i, cut, x, 0, hi, unit);
    }
  }

  /** A gain followed by the loss of an older block is a swap. */
  lemma GainsThenLoses(bs: seq<Block>, cs: seq<Block>, ds: seq<Block>, a: Block, b: Block)
    requires Gains(bs, cs, b) && Loses(cs, ds, a) && a != b
    ensures Swaps(bs, ds, a, b)
  {
    hide Occupied;
  }

  lemma SwapsNothing(bs: seq<Block>, a: Block)
    requires Occupied(bs, a)
    ensures Swaps(bs, bs, a, a)
  {
    hide Occupied;
  }

  // ---- Pointers and what was asked for ----------------------------------------------------

  /** The pointers in use are those of `held`, and each block is as large as was asked for. */
  ghost predicate HeldAre(bs: seq<Block>, held: map<int, int>, h: int) {
    && (forall p :: p in held <==> Points(bs, p, h))
    && forall p :: p in held ==> held[p] <= Payload(BlockOf(bs, p, h), h)
  }

  /** What is pointed to before and after a swap; a gain is a swap of a block that was not in use. */
  lemma SwapsPointers(bs: seq<Block>, cs: seq<Block>, a: Block, b: Block, h: int, hi: int, unit: int, p: int)
    requires Tiled(bs, 0, hi, unit) && Tiled(cs, 0, hi, unit) && 0 < unit && Swaps(bs, cs, a, b)
    ensures Points(cs, p, h) <==> (Points(bs, p, h) && BlockOf(bs, p, h) != a) || p == b.off + h
    ensures Points(cs, p, h) ==> BlockOf(cs, p, h) == if p == b.off + h then b else BlockOf(bs, p, h)
  {
    hide Tiled, Occupied, Points, BlockOf;
    if Points(bs, p, h) {
      PointedIs(bs, p, h, hi, unit);
      if BlockOf(bs, p, h) != a {
        OccupiedIs(cs, BlockOf(bs, p, h), h, hi, unit);
      }
    }
    OccupiedIs(cs, b, h, hi, unit);
    if Points(cs, p, h) {
      PointedIs(cs, p, h, hi, unit);
      if BlockOf(cs, p, h) != b {
        OccupiedIs(bs, BlockOf(cs, p, h), h, hi, unit);
      }
    }
  }

  lemma GainsHeld(bs: seq<Block>, cs: seq<Block>, b: Block, held: map<int, int>, n: int, h: int, hi: int, unit: int)
    requires Tiled(bs, 0, hi, unit) && Tiled(cs, 0, hi, unit) && 0 < unit && HeldAre(bs, held, h)
    requires Gains(bs, cs, b) && n <= Payload(b, h)
    ensures HeldAre(cs, held[b.off + h := n], h)
  {
    hide Tiled, Occupied, Points, BlockOf;
    var gone := Block(0, 0, false);
    NotOccupied(bs, gone);
    assert Swaps(bs, cs, gone, b);
    forall p
      ensures p in held[b.off + h := n] <==> Points(cs, p, h)
      ensures Points(cs, p, h) ==> held[b.off + h := n][p] <= Payload(BlockOf(cs, p, h), h)
    {
      if Points(bs, p, h) {
        PointedIs(bs, p, h, hi, unit);
      }
      SwapsPointers(bs, cs, gone, b, h, hi, unit, p);
    }
  }

  lemma NotOccupied(bs: seq<Block>, b: Block)
    requires !b.used
    ensures !Occupied(bs, b)
  {
  }

  lemma SwapsHeld(bs: seq<Block>, cs: seq<Block>, p: int, b: Block, held: map<int, int>, n: int, h: int, hi: int, unit: int)
    requires Tiled(bs, 0, hi, unit) && Tiled(cs, 0, hi, unit) && 0 < unit && HeldAre(bs, held, h) && Points(bs, p, h)
    requires Swaps(bs, cs, BlockOf(bs, p, h), b) && n <= Payload(b, h)
    ensures HeldAre(cs, (held - {p})[b.off + h := n], h)
  {
    hide Tiled, Occupied, Points;
    PointedIs(bs, p, h, hi, unit);
    forall q
      ensures q in (held - {p})[b.off + h := n] <==> Points(cs, q, h)
      ensures Points(cs, q, h) ==> (held - {p})[b.off + h := n][q] <= Payload(BlockOf(cs, q, h), h)
    {
      if Points(bs, q, h) {
        PointedIs(bs, q, h, hi, unit);
      }
      SwapsPointers(bs, cs, BlockOf(bs, p, h), b, h, hi, unit, q);
    }
  }

  lemma LosesHeld(bs: seq<Block>, cs: seq<Block>, p: int, held: map<int, int>, h: int, hi: int, unit: int)
    requires Tiled(bs, 0, hi, unit) && Tiled(cs, 0, hi, unit) && 0 < unit && HeldAre(bs, held, h) && Points(bs, p, h)
    requires Loses(bs, cs, BlockOf(bs, p, h))
    ensures HeldAre(cs, held - {p}, h)
  {
    hide Tiled, Occupied, Points, BlockOf;
    PointedIs(bs, p, h, hi, unit);
    forall q
      ensures q in held - {p} <==> Points(cs, q, h)
      ensures Points(cs, q, h) ==> (held - {p})[q] <= Payload(BlockOf(cs, q, h), h)
    {
      if Points(bs, q, h) {
        PointedIs(bs, q, h, hi, unit);
        if BlockOf(bs, q, h) != BlockOf(bs, p, h) {
          OccupiedIs(cs, BlockOf(bs, q, h), h, hi, unit);
        }
      }
      if Points(cs, q, h) {
        PointedIs(cs, q, h, hi, unit);
        OccupiedIs(bs, BlockOf(cs, q, h), h, hi, unit);
      }
    }
  }
}
