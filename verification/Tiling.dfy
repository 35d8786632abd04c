/** Address-ordered block lists, shared by the two byte allocators.

    A heap area is described by the sequence of its blocks from the lowest address to the
    highest.  A block runs from `off` up to (not including) `end` and starts with a header of
    `h` bytes; what is left is its payload.  The three transformations at the end are what the
    allocators do to that sequence; the lemmas say what they keep.
 */
module Tiling {

  datatype Block = Block(off: int, end: int, used: bool)

  function Payload(b: Block, h: int): int {
    b.end - b.off - h
  }

  /** The blocks cover `lo..hi` without gap or overlap, and each has at least `unit` bytes. */
  ghost predicate Tiled(bs: seq<Block>, lo: int, hi: int, unit: int) {
    if bs == [] then lo == hi
    else
      && bs[0].off == lo
      && bs[|bs| - 1].end == hi
      && (forall i :: 0 <= i < |bs| ==> bs[i].end - bs[i].off >= unit)
      && (forall i, j :: 0 <= i < j < |bs| ==> bs[i].end <= bs[j].off && (j == i + 1 ==> bs[i].end == bs[j].off))
  }

  /** No two neighbouring blocks are free. */
  ghost predicate NoFreePair(bs: seq<Block>) {
    forall i, j :: 0 <= i && j == i + 1 && j < |bs| ==> bs[i].used || bs[j].used
  }

  ghost predicate Aligned(bs: seq<Block>, a: int)
    requires 0 < a
  {
    forall i :: 0 <= i < |bs| ==> bs[i].off % a == 0 && bs[i].end % a == 0
  }

  /** The bytes, less `h` for each, of the blocks whose flag is `used`. */
  function Extent(bs: seq<Block>, used: bool, h: int): int {
    if bs == [] then 0
    else (if bs[0].used == used then Payload(bs[0], h) else 0) + Extent(bs[1..], used, h)
  }

  /** The position of the block that starts at `off`, or |bs| when there is none. */
  function Find(bs: seq<Block>, off: int): (i: nat)
    ensures i <= |bs|
    ensures i < |bs| ==> bs[i].off == off
    ensures i == |bs| ==> forall j :: 0 <= j < |bs| ==> bs[j].off != off
  {
    if bs == [] then 0
    else if bs[0].off == off then 0
    else 1 + Find(bs[1..], off)
  }

  /** Some block with the given flag starts at `off`. */
  ghost predicate At(bs: seq<Block>, off: int, used: bool) {
    exists i :: 0 <= i < |bs| && bs[i].off == off && bs[i].used == used
  }

  lemma FindAt(bs: seq<Block>, i: int, lo: int, hi: int, unit: int)
    requires Tiled(bs, lo, hi, unit) && 0 < unit && 0 <= i < |bs|
    ensures Find(bs, bs[i].off) == i
  {
    var k := Find(bs, bs[i].off);
    assert k < |bs|;
    assert k == i || k < i || i < k;
  }

  /** `bs` with the blocks i..j replaced by `xs`. */
  function Splice(bs: seq<Block>, i: int, j: int, xs: seq<Block>): seq<Block>
    requires 0 <= i <= j <= |bs|
  {
    bs[..i] + xs + bs[j..]
  }

  lemma TiledConcat(a: seq<Block>, b: seq<Block>, lo: int, mid: int, hi: int, unit: int)
    requires Tiled(a, lo, mid, unit) && Tiled(b, mid, hi, unit) && 0 < unit
    ensures Tiled(a + b, lo, hi, unit)
  {
    if a == [] {
      assert a + b == b;
    } else if b == [] {
      assert a + b == a;
    } else {
      assert forall i :: 0 <= i < |a| ==> a[i].end <= mid;
      assert forall i :: 0 <= i < |b| ==> mid <= b[i].off;
    }
  }

  function StartOf(bs: seq<Block>, k: int, hi: int): int
    requires 0 <= k <= |bs|
  {
    if k < |bs| then bs[k].off else hi
  }

  lemma TiledSlice(bs: seq<Block>, i: int, j: int, lo: int, hi: int, unit: int)
    requires Tiled(bs, lo, hi, unit)
    requires 0 <= i <= j <= |bs|
    ensures Tiled(bs[i..j], StartOf(bs, i, hi), StartOf(bs, j, hi), unit)
  {
    if i < j {
      var s := bs[i..j];
      assert s[0] == bs[i] && s[|s| - 1] == bs[j - 1];
      assert forall k :: 0 <= k < |s| ==> s[k] == bs[i + k];
    }
  }

  lemma SpliceTiled(bs: seq<Block>, i: int, j: int, xs: seq<Block>, lo: int, hi: int, unit: int)
    requires Tiled(bs, lo, hi, unit) && 0 < unit
    requires 0 <= i < j <= |bs|
    requires Tiled(xs, bs[i].off, bs[j - 1].end, unit)
    ensures Tiled(Splice(bs, i, j, xs), lo, hi, unit)
  {
    TiledSlice(bs, 0, i, lo, hi, unit);
    TiledSlice(bs, j, |bs|, lo, hi, unit);
    assert bs[0..i] == bs[..i] && bs[j..|bs|] == bs[j..];
    assert StartOf(bs, j, hi) == bs[j - 1].end;
    TiledConcat(bs[..i], xs, lo, bs[i].off, bs[j - 1].end, unit);
    TiledConcat(bs[..i] + xs, bs[j..], lo, bs[j - 1].end, hi, unit);
  }

  /** Joins with no two free blocks meeting at the seams. */
  lemma SpliceNoFreePair(bs: seq<Block>, i: int, j: int, xs: seq<Block>)
    requires NoFreePair(bs) && NoFreePair(xs)
    requires 0 <= i < j <= |bs| && 0 < |xs|
    requires 0 < i ==> bs[i - 1].used || xs[0].used
    requires j < |bs| ==> bs[j].used || xs[|xs| - 1].used
    ensures NoFreePair(Splice(bs, i, j, xs))
  {
    var r, d := Splice(bs, i, j, xs), |xs| - (j - i);
    forall k, l | 0 <= k && l == k + 1 && l < |r|
      ensures r[k].used || r[l].used
    {
      if l < i {
        assert r[k] == bs[k] && r[l] == bs[l];
      } else if l == i {
        assert r[k] == bs[k] && r[l] == xs[0];
      } else if l < i + |xs| {
        assert r[k] == xs[k - i] && r[l] == xs[l - i];
      } else if l == i + |xs| {
        assert r[k] == xs[|xs| - 1] && r[l] == bs[j];
      } else {
        assert r[k] == bs[k - d] && r[l] == bs[l - d];
      }
    }
  }

  lemma AtConcat(a: seq<Block>, b: seq<Block>, off: int, used: bool)
    ensures At(a + b, off, used) <==> At(a, off, used) || At(b, off, used)
  {
    var c := a + b;
    if k :| 0 <= k < |c| && c[k].off == off && c[k].used == used {
      if k < |a| {
        assert a[k] == c[k];
      } else {
        assert b[k - |a|] == c[k];
      }
    }
    if k :| 0 <= k < |a| && a[k].off == off && a[k].used == used {
      assert c[k] == a[k];
    }
    if k :| 0 <= k < |b| && b[k].off == off && b[k].used == used {
      assert c[|a| + k] == b[k];
    }
  }

  lemma AtInside(bs: seq<Block>, lo: int, hi: int, unit: int, off: int, used: bool)
    requires Tiled(bs, lo, hi, unit) && 0 < unit && At(bs, off, used)
    ensures lo <= off < hi
  {
    var k :| 0 <= k < |bs| && bs[k].off == off;
    assert k == 0 || bs[0].end <= bs[k].off;
    assert k == |bs| - 1 || bs[k].end <= bs[|bs| - 1].off;
  }

  lemma SliceAtInside(bs: seq<Block>, i: int, j: int, lo: int, hi: int, unit: int, off: int, used: bool)
    requires Tiled(bs, lo, hi, unit) && 0 < unit && 0 <= i <= j <= |bs|
    requires At(bs[i..j], off, used)
    ensures StartOf(bs, i, hi) <= off < StartOf(bs, j, hi)
  {
    TiledSlice(bs, i, j, lo, hi, unit);
    AtInside(bs[i..j], StartOf(bs, i, hi), StartOf(bs, j, hi), unit, off, used);
  }

  lemma AtThreeParts(a: seq<Block>, m: seq<Block>, b: seq<Block>, off: int, used: bool)
    ensures At(a + m + b, off, used) <==> At(a, off, used) || At(m, off, used) || At(b, off, used)
  {
    AtConcat(a, m, off, used);
    AtConcat(a + m, b, off, used);
  }

  lemma PartsAt(bs: seq<Block>, i: int, j: int, lo: int, hi: int, unit: int, off: int, used: bool)
    requires Tiled(bs, lo, hi, unit) && 0 < unit
    requires 0 <= i < j <= |bs|
    ensures At(bs[..i], off, used) ==> off < bs[i].off
    ensures At(bs[i..j], off, used) ==> bs[i].off <= off < bs[j - 1].end
    ensures At(bs[j..], off, used) ==> bs[j - 1].end <= off
  {
    assert StartOf(bs, j, hi) == bs[j - 1].end;
    if At(bs[..i], off, used) {
      assert bs[..i] == bs[0..i];
      SliceAtInside(bs, 0, i, lo, hi, unit, off, used);
    }
    if At(bs[i..j], off, used) {
      SliceAtInside(bs, i, j, lo, hi, unit, off, used);
    }
    if At(bs[j..], off, used) {
      assert bs[j..] == bs[j..|bs|];
      SliceAtInside(bs, j, |bs|, lo, hi, unit, off, used);
    }
  }

  lemma SpliceAt(bs: seq<Block>, i: int, j: int, xs: seq<Block>, lo: int, hi: int, unit: int,
                 off: int, used: bool)
    requires Tiled(bs, lo, hi, unit) && 0 < unit
    requires 0 <= i < j <= |bs|
    requires Tiled(xs, bs[i].off, bs[j - 1].end, unit)
    ensures At(Splice(bs, i, j, xs), off, used)
       <==> if bs[i].off <= off < bs[j - 1].end then At(xs, off, used) else At(bs, off, used)
  {
    AtThreeParts(bs[..i], bs[i..j], bs[j..], off, used);
    AtThreeParts(bs[..i], xs, bs[j..], off, used);
    assert bs[..i] + bs[i..j] + bs[j..] == bs;
    PartsAt(bs, i, j, lo, hi, unit, off, used);
    if At(xs, off, used) {
      AtInside(xs, bs[i].off, bs[j - 1].end, unit, off, used);
    }
  }

  lemma Neighbours(bs: seq<Block>, i: int, lo: int, hi: int, unit: int)
    requires Tiled(bs, lo, hi, unit) && 0 < unit && 0 <= i < |bs|
    ensures lo <= bs[i].off && bs[i].off + unit <= bs[i].end <= hi
    ensures if i + 1 < |bs| then bs[i].end == bs[i + 1].off && bs[i + 1].off + unit <= bs[i + 1].end else bs[i].end == hi
    ensures if 0 < i then bs[i - 1].end == bs[i].off && bs[i - 1].off + unit <= bs[i - 1].end else bs[i].off == lo
  {
    assert 0 < i ==> bs[0].end <= bs[i].off;
    assert i < |bs| - 1 ==> bs[i].end <= bs[|bs| - 1].off;
  }

  /** A block that starts between the start of `from` and the end of `to - 1` is one of them. */
  lemma Located(bs: seq<Block>, k: int, from: int, to: int, lo: int, hi: int, unit: int)
    requires Tiled(bs, lo, hi, unit) && 0 < unit
    requires 0 <= from < to <= |bs| && 0 <= k < |bs|
    requires bs[from].off <= bs[k].off < bs[to - 1].end
    ensures from <= k < to
  {
  }

  /** Inside one block, the only block start is its own. */
  lemma AtBlock(bs: seq<Block>, i: int, lo: int, hi: int, unit: int, off: int, used: bool)
    requires Tiled(bs, lo, hi, unit) && 0 < unit && 0 <= i < |bs|
    requires bs[i].off <= off < bs[i].end
    ensures At(bs, off, used) <==> off == bs[i].off && bs[i].used == used
  {
    if k :| 0 <= k < |bs| && bs[k].off == off && bs[k].used == used {
      Located(bs, k, i, i + 1, lo, hi, unit);
    }
  }

  lemma {:induction false} ExtentConcat(a: seq<Block>, b: seq<Block>, used: bool, h: int)
    ensures Extent(a + b, used, h) == Extent(a, used, h) + Extent(b, used, h)
  {
    if a == [] {
      assert a + b == b;
    } else {
      assert (a + b)[1..] == a[1..] + b;
      ExtentConcat(a[1..], b, used, h);
    }
  }

  lemma SpliceExtent(bs: seq<Block>, i: int, j: int, xs: seq<Block>, used: bool, h: int)
    requires 0 <= i <= j <= |bs|
    ensures Extent(Splice(bs, i, j, xs), used, h)
         == Extent(bs, used, h) - Extent(bs[i..j], used, h) + Extent(xs, used, h)
  {
    assert bs == bs[..i] + (bs[i..j] + bs[j..]);
    assert Splice(bs, i, j, xs) == bs[..i] + (xs + bs[j..]);
    ExtentConcat(bs[..i], bs[i..j] + bs[j..], used, h);
    ExtentConcat(bs[i..j], bs[j..], used, h);
    ExtentConcat(bs[..i], xs + bs[j..], used, h);
    ExtentConcat(xs, bs[j..], used, h);
  }

  lemma Extent1(b: Block, used: bool, h: int)
    ensures Extent([b], used, h) == if b.used == used then Payload(b, h) else 0
  {
  }

  lemma Extent2(a: Block, b: Block, used: bool, h: int)
    ensures Extent([a, b], used, h) == Extent([a], used, h) + Extent([b], used, h)
  {
    ExtentConcat([a], [b], used, h);
    assert [a] + [b] == [a, b];
  }

  /** Used and free bytes add up to the whole area. */
  lemma {:induction false} ExtentsCoverArea(bs: seq<Block>, lo: int, hi: int, unit: int)
    requires Tiled(bs, lo, hi, unit)
    ensures Extent(bs, true, 0) + Extent(bs, false, 0) == hi - lo
  {
    if bs != [] {
      TiledSlice(bs, 1, |bs|, lo, hi, unit);
      assert bs[1..|bs|] == bs[1..];
      assert |bs| == 1 || bs[0].end == bs[1].off;
      ExtentsCoverArea(bs[1..], bs[0].end, hi, unit);
    }
  }

  lemma SpliceAligned(bs: seq<Block>, i: int, j: int, xs: seq<Block>, a: int)
    requires 0 < a && Aligned(bs, a) && Aligned(xs, a) && 0 <= i <= j <= |bs|
    ensures Aligned(Splice(bs, i, j, xs), a)
  {
    var r := Splice(bs, i, j, xs);
    forall k | 0 <= k < |r|
      ensures r[k].off % a == 0 && r[k].end % a == 0
    {
      if k < i {
        assert r[k] == bs[k];
      } else if k < i + |xs| {
        assert r[k] == xs[k - i];
      } else {
        assert r[k] == bs[k - |xs| + j - i];
      }
    }
  }

  // ---- What the allocators do to a block list -------------------------------------------

  /** Whether a free block is cut in two when `size` bytes are taken from it. */
  predicate Splits(b: Block, size: int, h: int, min: int) {
    Payload(b, h) >= size + h + min
  }

  /** What becomes of a free block when `size` bytes are taken from it. */
  function Cut(b: Block, size: int, h: int, min: int): seq<Block> {
    if Splits(b, size, h, min)
    then [Block(b.off, b.off + h + size, true), Block(b.off + h + size, b.end, false)]
    else [Block(b.off, b.end, true)]
  }

  /** Hands out free block `i` for `size` bytes, leaving what is over as a free block. */
  function Take(bs: seq<Block>, i: int, size: int, h: int, min: int): seq<Block>
    requires 0 <= i < |bs|
  {
    Splice(bs, i, i + 1, Cut(bs[i], size, h, min))
  }

  function MergeFrom(bs: seq<Block>, i: int): int
    requires 0 <= i < |bs|
  {
    if 0 < i && !bs[i - 1].used then i - 1 else i
  }

  function MergeTo(bs: seq<Block>, i: int): int
    requires 0 <= i < |bs|
  {
    if i + 1 < |bs| && !bs[i + 1].used then i + 2 else i + 1
  }

  /** Gives back block `i`, joining it with a free neighbour on either side. */
  function Release(bs: seq<Block>, i: int): seq<Block>
    requires 0 <= i < |bs|
  {
    var lo, hi := MergeFrom(bs, i), MergeTo(bs, i);
    Splice(bs, lo, hi, [Block(bs[lo].off, bs[hi - 1].end, false)])
  }

  /** Moves the end of used block `i` to `cut`; the bytes from there up to the end of the
      block, and of a free block behind it, become one free block. */
  function Resize(bs: seq<Block>, i: int, cut: int): seq<Block>
    requires 0 <= i < |bs|
  {
    var hi := MergeTo(bs, i);
    Splice(bs, i, hi, [Block(bs[i].off, cut, true), Block(cut, bs[hi - 1].end, false)])
  }

  lemma CutTiled(b: Block, size: int, h: int, min: int, unit: int)
    requires b.end - b.off >= unit && unit <= h + min && unit <= h + size
    ensures Tiled(Cut(b, size, h, min), b.off, b.end, unit)
    ensures NoFreePair(Cut(b, size, h, min))
    ensures var xs := Cut(b, size, h, min); 0 < |xs| && xs[0].used && xs[0].off == b.off
  {
  }

  lemma CutAt(b: Block, size: int, h: int, min: int, off: int)
    ensures At(Cut(b, size, h, min), off, false) <==> Splits(b, size, h, min) && off == b.off + h + size
  {
    var xs := Cut(b, size, h, min);
    if Splits(b, size, h, min) {
      assert !xs[1].used && xs[1].off == b.off + h + size;
    }
  }

  lemma TakeKeeps(bs: seq<Block>, i: int, size: int, h: int, min: int, lo: int, hi: int, unit: int)
    requires Tiled(bs, lo, hi, unit) && NoFreePair(bs) && 0 < unit
    requires 0 <= i < |bs| && !bs[i].used
    requires 0 < h && unit <= h + min && unit <= h + size
    ensures Tiled(Take(bs, i, size, h, min), lo, hi, unit)
    ensures NoFreePair(Take(bs, i, size, h, min))
  {
    var xs := Cut(bs[i], size, h, min);
    CutTiled(bs[i], size, h, min, unit);
    SpliceTiled(bs, i, i + 1, xs, lo, hi, unit);
    SpliceNoFreePair(bs, i, i + 1, xs);
  }

  lemma TakeExtent(bs: seq<Block>, i: int, size: int, h: int, min: int, used: bool, w: int)
    requires 0 <= i < |bs| && !bs[i].used
    ensures Extent(Take(bs, i, size, h, min), used, w) - Extent(bs, used, w)
         == if Splits(bs[i], size, h, min)
            then (if used then h + size - w else -h - size)
            else (if used then Payload(bs[i], w) else -Payload(bs[i], w))
  {
    var b := bs[i];
    assert bs[i..i + 1] == [b];
    Extent1(b, used, w);
    SpliceExtent(bs, i, i + 1, Cut(b, size, h, min), used, w);
    if Splits(b, size, h, min) {
      var x, y := Block(b.off, b.off + h + size, true), Block(b.off + h + size, b.end, false);
      Extent2(x, y, used, w);
      Extent1(x, used, w);
      Extent1(y, used, w);
    } else {
      Extent1(Block(b.off, b.end, true), used, w);
    }
  }

  lemma ReleaseKeeps(bs: seq<Block>, i: int, lo: int, hi: int, unit: int)
    requires Tiled(bs, lo, hi, unit) && NoFreePair(bs) && 0 < unit
    requires 0 <= i < |bs| && bs[i].used
    ensures Tiled(Release(bs, i), lo, hi, unit)
    ensures NoFreePair(Release(bs, i))
  {
    var from, to := MergeFrom(bs, i), MergeTo(bs, i);
    assert bs[from].off <= bs[i].off && bs[i].end <= bs[to - 1].end;
    var xs := [Block(bs[from].off, bs[to - 1].end, false)];
    SpliceTiled(bs, from, to, xs, lo, hi, unit);
    assert 0 < from ==> bs[from - 1].used;
    assert to < |bs| ==> bs[to].used;
    SpliceNoFreePair(bs, from, to, xs);
  }

  /** Giving a block back adds its payload, and one header for each neighbour it is joined
      with, to the free payload. */
  lemma ReleaseExtent(bs: seq<Block>, i: int, used: bool, w: int, lo: int, hi: int, unit: int)
    requires Tiled(bs, lo, hi, unit)
    requires 0 <= i < |bs| && bs[i].used
    ensures Extent(Release(bs, i), used, w) - Extent(bs, used, w)
         == if used then -Payload(bs[i], w)
            else Payload(bs[i], w) + (MergeTo(bs, i) - MergeFrom(bs, i) - 1) * w
  {
    hide Tiled, Extent, MergeFrom, MergeTo;
    var from, to := MergeFrom(bs, i), MergeTo(bs, i);
    MergeBounds(bs, i);
    var x := Block(bs[from].off, bs[to - 1].end, false);
    SpliceExtent(bs, from, to, [x], used, w);
    Extent1(x, used, w);
    MergedExtent(bs, i, used, w);
    MergedSize(bs, i, w, lo, hi, unit);
  }

  lemma MergeBounds(bs: seq<Block>, i: int)
    requires 0 <= i < |bs|
    ensures 0 <= MergeFrom(bs, i) <= i < MergeTo(bs, i) <= |bs|
  {
  }

  /** The extent of the joined block is that of its parts and the headers between them. */
  lemma MergedSize(bs: seq<Block>, i: int, w: int, lo: int, hi: int, unit: int)
    requires Tiled(bs, lo, hi, unit)
    requires 0 <= i < |bs| && bs[i].used
    ensures var from, to := MergeFrom(bs, i), MergeTo(bs, i);
      bs[to - 1].end - bs[from].off - w
        == FreeBehind(bs, i, w) + Payload(bs[i], w) + FreeAhead(bs, i, w) + (to - from - 1) * w
  {
    var from, to := MergeFrom(bs, i), MergeTo(bs, i);
    assert from < i ==> bs[from].end == bs[i].off;
    assert i + 1 < to ==> bs[i].end == bs[i + 1].off;
    if to - from == 1 {
    } else if to - from == 2 {
    } else {
      assert to - from == 3;
    }
  }

  function FreeBehind(bs: seq<Block>, i: int, w: int): int
    requires 0 <= i < |bs|
  {
    if MergeFrom(bs, i) < i then Payload(bs[i - 1], w) else 0
  }

  function FreeAhead(bs: seq<Block>, i: int, w: int): int
    requires 0 <= i < |bs|
  {
    if i + 1 < MergeTo(bs, i) then Payload(bs[i + 1], w) else 0
  }

  lemma MergedExtent(bs: seq<Block>, i: int, used: bool, w: int)
    requires 0 <= i < |bs| && bs[i].used
    ensures Extent(bs[MergeFrom(bs, i)..MergeTo(bs, i)], used, w)
         == if used then Payload(bs[i], w) else FreeBehind(bs, i, w) + FreeAhead(bs, i, w)
  {
    var from, to := MergeFrom(bs, i), MergeTo(bs, i);
    assert bs[from..to] == bs[from..i] + ([bs[i]] + bs[i + 1..to]);
    ExtentConcat(bs[from..i], [bs[i]] + bs[i + 1..to], used, w);
    ExtentConcat([bs[i]], bs[i + 1..to], used, w);
    Extent1(bs[i], used, w);
    if from < i {
      assert bs[from..i] == [bs[from]];
      Extent1(bs[from], used, w);
    }
    if i + 1 < to {
      assert bs[i + 1..to] == [bs[i + 1]];
      Extent1(bs[i + 1], used, w);
    }
  }

  lemma ResizeKeeps(bs: seq<Block>, i: int, cut: int, lo: int, hi: int, unit: int)
    requires Tiled(bs, lo, hi, unit) && NoFreePair(bs) && 0 < unit
    requires 0 <= i < |bs| && bs[i].used
    requires bs[i].off + unit <= cut <= bs[MergeTo(bs, i) - 1].end - unit
    ensures Tiled(Resize(bs, i, cut), lo, hi, unit)
    ensures NoFreePair(Resize(bs, i, cut))
  {
    var to := MergeTo(bs, i);
    var xs := [Block(bs[i].off, cut, true), Block(cut, bs[to - 1].end, false)];
    SpliceTiled(bs, i, to, xs, lo, hi, unit);
    assert to < |bs| ==> bs[to].used;
    SpliceNoFreePair(bs, i, to, xs);
  }

  lemma ResizeExtent(bs: seq<Block>, i: int, cut: int, used: bool, w: int, lo: int, hi: int, unit: int)
    requires Tiled(bs, lo, hi, unit)
    requires 0 <= i < |bs| && bs[i].used
    ensures Extent(Resize(bs, i, cut), used, w) - Extent(bs, used, w)
         == if used then cut - bs[i].end
            else bs[i].end - cut - (if MergeTo(bs, i) == i + 1 then w else 0)
  {
    var to := MergeTo(bs, i);
    var x, y := Block(bs[i].off, cut, true), Block(cut, bs[to - 1].end, false);
    SpliceExtent(bs, i, to, [x, y], used, w);
    Extent2(x, y, used, w);
    Extent1(x, used, w);
    Extent1(y, used, w);
    if to == i + 1 {
      assert bs[i..to] == [bs[i]];
    } else {
      assert bs[i..to] == [bs[i], bs[i + 1]];
      Extent2(bs[i], bs[i + 1], used, w);
    }
  }

  /** Giving back what was just handed out restores the block list exactly: the remainder of
      a split is joined again and nothing else is. */
  lemma ReleaseUndoesTake(bs: seq<Block>, i: int, size: int, h: int, min: int, lo: int, hi: int, unit: int)
    requires Tiled(bs, lo, hi, unit) && NoFreePair(bs) && 0 < unit
    requires 0 <= i < |bs| && !bs[i].used
    ensures i < |Take(bs, i, size, h, min)|
    ensures Release(Take(bs, i, size, h, min), i) == bs
  {
    var b := bs[i];
    var t := Take(bs, i, size, h, min);
    assert t[..i] == bs[..i];
    if Splits(b, size, h, min) {
      assert t[i + 2..] == bs[i + 1..];
      assert MergeTo(t, i) == i + 2;
    } else {
      assert t[i + 1..] == bs[i + 1..];
      assert MergeTo(t, i) == i + 1;
    }
    assert MergeFrom(t, i) == i;
    assert bs == bs[..i] + [b] + bs[i + 1..];
  }

  // ---- The blocks in use ------------------------------------------------------------------

  ghost predicate Occupied(bs: seq<Block>, b: Block) {
    b in bs && b.used
  }

  lemma SpliceMembers(bs: seq<Block>, i: int, j: int, xs: seq<Block>, b: Block)
    requires 0 <= i <= j <= |bs|
    ensures b in Splice(bs, i, j, xs) <==> b in bs[..i] || b in xs || b in bs[j..]
    ensures b in bs <==> b in bs[..i] || b in bs[i..j] || b in bs[j..]
  {
    assert bs == bs[..i] + bs[i..j] + bs[j..];
  }

  /** A block is at one place only. */
  lemma OnePlace(bs: seq<Block>, i: int, lo: int, hi: int, unit: int)
    requires Tiled(bs, lo, hi, unit) && 0 < unit && 0 <= i < |bs|
    ensures bs[i] !in bs[..i] && bs[i] !in bs[i + 1..]
  {
    assert forall k :: 0 <= k < i ==> bs[k] != bs[i];
    assert forall k :: i < k < |bs| ==> bs[k] != bs[i];
  }

  /** Taking puts one block in use, at the start of the free one, and no other. */
  lemma TakeUse(bs: seq<Block>, i: int, size: int, h: int, min: int, b: Block)
    requires 0 <= i < |bs| && !bs[i].used
    ensures Occupied(Take(bs, i, size, h, min), b) <==> Occupied(bs, b) || b == Cut(bs[i], size, h, min)[0]
  {
    var xs := Cut(bs[i], size, h, min);
    SpliceMembers(bs, i, i + 1, xs, b);
    assert bs[i..i + 1] == [bs[i]];
    assert b in xs && b.used <==> b == xs[0];
  }

  /** Giving back puts one block out of use, and no other. */
  lemma ReleaseUse(bs: seq<Block>, i: int, b: Block, lo: int, hi: int, unit: int)
    requires Tiled(bs, lo, hi, unit) && 0 < unit && 0 <= i < |bs| && bs[i].used
    ensures Occupied(Release(bs, i), b) <==> Occupied(bs, b) && b != bs[i]
  {
    var from, to := MergeFrom(bs, i), MergeTo(bs, i);
    SpliceMembers(bs, from, to, [Block(bs[from].off, bs[to - 1].end, false)], b);
    OnePlace(bs, i, lo, hi, unit);
    OnlyUsed(bs, from, i, to, b);
    if b == bs[i] {
      assert bs[..from] <= bs[..i];
      assert bs[to..] == bs[i + 1..][to - i - 1..];
    }
  }

  lemma OnlyUsed(bs: seq<Block>, from: int, i: int, to: int, b: Block)
    requires 0 <= from <= i < to <= |bs| && forall k :: from <= k < to && k != i ==> !bs[k].used
    ensures b.used && b in bs[from..to] ==> b == bs[i]
    ensures bs[i] in bs[from..to]
  {
    if b.used && b in bs[from..to] {
      var k :| 0 <= k < to - from && bs[from..to][k] == b;
      assert bs[from + k] == b;
    }
    assert bs[from..to][i - from] == bs[i];
  }

  /** Moving the end of a block replaces it, and no other. */
  lemma ResizeUse(bs: seq<Block>, i: int, cut: int, b: Block, lo: int, hi: int, unit: int)
    requires Tiled(bs, lo, hi, unit) && 0 < unit && 0 <= i < |bs| && bs[i].used
    ensures Occupied(Resize(bs, i, cut), b) <==> (Occupied(bs, b) && b != bs[i]) || b == Block(bs[i].off, cut, true)
  {
    var to := MergeTo(bs, i);
    var xs := [Block(bs[i].off, cut, true), Block(cut, bs[to - 1].end, false)];
    SpliceMembers(bs, i, to, xs, b);
    OnePlace(bs, i, lo, hi, unit);
    OnlyUsed(bs, i, i, to, b);
    assert b in xs && b.used <==> b == xs[0];
    if b == bs[i] {
      assert bs[to..] == bs[i + 1..][to - i - 1..];
    }
  }

  /** No header lies in the payload of any block, and no two blocks share a byte. */
  lemma HeadersAvoidPayloads(bs: seq<Block>, i: int, j: int, h: int, lo: int, hi: int, unit: int)
    requires Tiled(bs, lo, hi, unit) && 0 < h <= unit
    requires 0 <= i < |bs| && 0 <= j < |bs|
    ensures bs[j].off + h <= bs[i].off + h || bs[i].end <= bs[j].off
    ensures i != j ==> bs[j].end <= bs[i].off || bs[i].end <= bs[j].off
  {
    if i < j {
      assert bs[i].end <= bs[j].off;
    } else if j < i {
      assert bs[j].end <= bs[i].off;
    }
  }
}
