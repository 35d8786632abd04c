/** The memory heap (memheap.c) as a transition system on block lists.

    A state holds the blocks of the pool in address order, the free list in list order, and the
    two byte counters.  Offsets count from the start of the pool; the last HDR bytes are the
    tailer, a block that is always used.  The class in MemHeap.dfy works on the header fields
    themselves and is proved to perform these transitions.
 */
module MemHeapModel {
  import opened Tiling
  import opened RtList
  import opened Sequences

  const HDR := 24       // RT_MEMHEAP_SIZE: six 32-bit words, aligned to 8
  const MINI := 12      // RT_MEMHEAP_MINIALLOC
  const UNIT := 36      // the smallest block: a header and MINI bytes
  const NULL := 0       // no payload starts at offset 0
  const MAX_REQUEST := 0xFFFF_FFC0  // below this RT_ALIGN and the size sums stay inside 32 bits

  datatype State = State(blocks: seq<Block>, ring: seq<Node>, available: int, maxUsed: int, pool: int)

  /** RT_ALIGN(size, 8), then at least RT_MEMHEAP_MINIALLOC. */
  function RequestSize(request: int): int {
    var size := (request + 7) / 8 * 8;
    if size < MINI then MINI else size
  }

  /** The free list names exactly the free blocks, once each. */
  ghost predicate Indexes(ring: seq<Node>, bs: seq<Block>) {
    && Distinct(ring)
    && forall x :: x in ring <==> At(bs, x, false)
  }

  ghost predicate Inv(s: State) {
    && 2 * HDR + MINI <= s.pool <= 0xFFFF_FFF8
    && Tiled(s.blocks, 0, s.pool - HDR, UNIT)
    && NoFreePair(s.blocks)
    && Indexes(s.ring, s.blocks)
    && s.available == Extent(s.blocks, false, HDR)
    && s.pool - s.available <= s.maxUsed
  }

  /** rt_memheap_init */
  function Init(pool: int): State {
    State([Block(0, pool - HDR, false)], [0], pool - 2 * HDR, 2 * HDR, pool)
  }

  /** The first position in the free list whose block has room, or |ring|. */
  function FirstFit(ring: seq<Node>, bs: seq<Block>, size: int): (k: nat)
    ensures k <= |ring|
    ensures forall j :: 0 <= j < k ==> !HasRoom(bs, ring[j], size)
    ensures k < |ring| ==> HasRoom(bs, ring[k], size)
  {
    if ring == [] || HasRoom(bs, ring[0], size) then 0 else 1 + FirstFit(ring[1..], bs, size)
  }

  /** The block at `off` has a payload of at least `size` bytes. */
  predicate HasRoom(bs: seq<Block>, off: int, size: int) {
    Find(bs, off) < |bs| && size <= Payload(bs[Find(bs, off)], HDR)
  }

  function WithAvailable(s: State, available: int): State {
    s.(available := available,
       maxUsed := if s.pool - available > s.maxUsed then s.pool - available else s.maxUsed)
  }

  /** Hands out the block at position `k` of the free list. */
  function Grant(s: State, k: int, size: int): State
    requires 0 <= k < |s.ring| && Find(s.blocks, s.ring[k]) < |s.blocks|
  {
    var i := Find(s.blocks, s.ring[k]);
    var b := s.blocks[i];
    var rest := Without(s.ring, k);
    var t := s.(blocks := Take(s.blocks, i, size, HDR, MINI),
                ring := if Splits(b, size, HDR, MINI) then [b.off + HDR + size] + rest else rest);
    WithAvailable(t, s.available - (if Splits(b, size, HDR, MINI) then size + HDR else Payload(b, HDR)))
  }

  /** rt_memheap_alloc: the new state and the payload offset, or NULL. */
  function Alloc(s: State, request: int): (State, int) {
    var size := RequestSize(request);
    if size >= s.available then (s, NULL)
    else
      var k := FirstFit(s.ring, s.blocks, size);
      if k == |s.ring| then (s, NULL) else (Grant(s, k, size), s.ring[k] + HDR)
  }

  function Dropped(ring: seq<Node>, x: Node): seq<Node> {
    if ring == [] then [] else if ring[0] == x then ring[1..] else [ring[0]] + Dropped(ring[1..], x)
  }

  /** The free list without the block after `i`, if that one is free. */
  function RingSansNext(s: State, i: int): seq<Node>
    requires 0 <= i < |s.blocks|
  {
    if i + 1 < MergeTo(s.blocks, i) then Dropped(s.ring, s.blocks[i + 1].off) else s.ring
  }

  /** Gives back block `i`. */
  function Release1(s: State, i: int): State
    requires 0 <= i <= |s.blocks|
  {
    if i == |s.blocks| then s else
    var from, to := MergeFrom(s.blocks, i), MergeTo(s.blocks, i);
    s.(blocks := Release(s.blocks, i),
       ring := (if from < i then [] else [s.blocks[i].off]) + RingSansNext(s, i),
       available := s.available + Payload(s.blocks[i], HDR) + (to - from - 1) * HDR)
  }

  /** A pointer the caller may pass: NULL or the payload of a used block. */
  ghost predicate Live(s: State, p: int) {
    At(s.blocks, p - HDR, true)
  }

  /** rt_memheap_free */
  function Free(s: State, p: int): State {
    if p == NULL then s else Release1(s, Find(s.blocks, p - HDR))
  }

  /** Moves the end of used block `i`; what is behind `cut` becomes the newest free block. */
  function Resize1(s: State, i: int, cut: int): State
    requires 0 <= i < |s.blocks|
  {
    s.(blocks := Resize(s.blocks, i, cut), ring := [cut] + RingSansNext(s, i))
  }

  predicate CanGrow(s: State, i: int, size: int)
    requires 0 <= i < |s.blocks|
  {
    && i + 1 < MergeTo(s.blocks, i)
    && Payload(s.blocks[i + 1], HDR) + Payload(s.blocks[i], HDR) > size + MINI
  }

  /** rt_memheap_realloc */
  function Realloc(s: State, p: int, request: int): (State, int) {
    if request == 0 then (Free(s, p), NULL)
    else if p == NULL then Alloc(s, RequestSize(request))
    else
      var i := Find(s.blocks, p - HDR);
      if i == |s.blocks| then (s, p) else
      var size, oldSize := RequestSize(request), Payload(s.blocks[i], HDR);
      if size > oldSize then
        if CanGrow(s, i, size) then
          (WithAvailable(Resize1(s, i, p + size), s.available - (size - oldSize)), p)
        else
          var (t, q) := Alloc(s, size);
          if q == NULL then (t, NULL) else (Release1(t, Find(t.blocks, p - HDR)), q)
      else if size + HDR + MINI >= oldSize then (s, p)
      else
        var t := Resize1(s, i, p + size);
        (t.(available := s.available + (oldSize - size)
                         - (if MergeTo(s.blocks, i) == i + 1 then HDR else 0)), p)
  }
}
