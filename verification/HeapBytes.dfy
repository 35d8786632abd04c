/** The bytes behind a block list: what the users of a heap see of it. */
module HeapBytes {
  import opened Tiling

  type byte = bv8

  /** The payload bytes of every used block of `bs`, except the block at `off`, are the same
      before and after. */
  ghost predicate BytesKept(h: int, bs: seq<Block>, off: int, before: seq<byte>, after: seq<byte>)
    requires |before| == |after|
  {
    forall i, k ::
      (0 <= i < |bs| && bs[i].used && bs[i].off != off && bs[i].off + h <= k < bs[i].end && 0 <= k < |before|)
      ==> after[k] == before[k]
  }

  /** The `n` bytes at `p` before are the `n` bytes at `q` after. */
  ghost predicate Same(before: seq<byte>, p: int, after: seq<byte>, q: int, n: int) {
    && 0 <= p && p + n <= |before| && 0 <= q && q + n <= |after|
    && 0 <= n && after[q..q + n] == before[p..p + n]
  }

  lemma SameShorter(before: seq<byte>, p: int, after: seq<byte>, q: int, n: int, m: int)
    requires Same(before, p, after, q, n) && 0 <= m <= n
    ensures Same(before, p, after, q, m)
  {
    assert after[q..q + m] == after[q..q + n][..m];
    assert before[p..p + m] == before[p..p + n][..m];
  }

  lemma KeptSame(h: int, bs: seq<Block>, off: int, d: seq<byte>)
    ensures BytesKept(h, bs, off, d, d)
  {
  }

  lemma KeptMore(h: int, bs: seq<Block>, off: int, d0: seq<byte>, d1: seq<byte>)
    requires |d0| == |d1| && BytesKept(h, bs, -1, d0, d1)
    requires forall k :: 0 <= k < |bs| ==> 0 <= bs[k].off
    ensures BytesKept(h, bs, off, d0, d1)
  {
  }

  /** Bytes of one block are no bytes of another. */
  lemma KeptElsewhere(h: int, bs: seq<Block>, i: int, hi: int, unit: int, before: seq<byte>, after: seq<byte>)
    requires Tiled(bs, 0, hi, unit) && 0 < unit && 0 <= h && 0 <= i < |bs| && |before| == |after|
    requires forall k :: 0 <= k < |before| && !(bs[i].off <= k < bs[i].end) ==> after[k] == before[k]
    ensures BytesKept(h, bs, bs[i].off, before, after)
    ensures !bs[i].used ==> BytesKept(h, bs, -1, before, after)
  {
  }

  /** Bytes of two neighbouring blocks are no bytes of another. */
  lemma KeptElsewhere2(h: int, bs: seq<Block>, i: int, hi: int, unit: int, before: seq<byte>, after: seq<byte>)
    requires Tiled(bs, 0, hi, unit) && 0 < unit && 0 <= h && 0 <= i < |bs| && |before| == |after|
    requires forall k :: 0 <= k < |before| && !(bs[i].off <= k < bs[MergeTo(bs, i) - 1].end) ==> after[k] == before[k]
    ensures BytesKept(h, bs, bs[i].off, before, after)
  {
    var to := MergeTo(bs, i);
    forall j, k | 0 <= j < |bs| && bs[j].used && bs[j].off != bs[i].off && bs[j].off + h <= k < bs[j].end && 0 <= k < |before|
      ensures after[k] == before[k]
    {
      assert j < i || to <= j;
      if j < i {
        assert bs[j].end <= bs[i].off;
      } else {
        assert bs[to - 1].end <= bs[j].off;
      }
    }
  }

  /** Block `i` copied into free block `j` after a step that kept all used blocks. */
  lemma MovedBytes(h: int, bs: seq<Block>, i: int, j: int, hi: int, unit: int,
                   d0: seq<byte>, d1: seq<byte>, d2: seq<byte>, n: int)
    requires Tiled(bs, 0, hi, unit) && 0 <= h <= unit && 0 < unit
    requires 0 <= i < |bs| && 0 <= j < |bs| && bs[i].used && !bs[j].used
    requires |d0| == |d1| == |d2| && BytesKept(h, bs, -1, d0, d1)
    requires var p, q := bs[i].off + h, bs[j].off + h;
      && 0 <= n && p + n <= bs[i].end <= |d0| && q + n <= bs[j].end <= |d0| && 0 <= p && 0 <= q
      && d2[q..q + n] == d1[p..p + n]
      && forall k :: 0 <= k < |d1| && !(q <= k < q + n) ==> d2[k] == d1[k]
    ensures BytesKept(h, bs, bs[i].off, d0, d2)
    ensures Same(d0, bs[i].off + h, d2, bs[j].off + h, n)
  {
    var p := bs[i].off + h;
    Neighbours(bs, i, 0, hi, unit);
    assert d1[p..p + n] == d0[p..p + n];
    forall a, k | 0 <= a < |bs| && bs[a].used && bs[a].off != bs[i].off && bs[a].off + h <= k < bs[a].end && 0 <= k < |d0|
      ensures d2[k] == d0[k]
    {
      Neighbours(bs, a, 0, hi, unit);
      assert a < j || j < a;
    }
  }
}
