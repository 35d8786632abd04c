/** The slab allocator (slab.c) above the page allocator: zones of equal chunks.

    Addresses count from the start of the heap, which is a page boundary.  Zones and large
    blocks are known by their first page.
 */
module SlabModel {
  import opened Bits
  import opened Division
  import opened PageRuns
  import opened Sequences

  const PAGE := 4096           // RT_MM_PAGE_SIZE
  const HEADER := 36           // sizeof(slab_zone): nine 32-bit words
  const NZONES := 72
  const RELEASE := 2           // ZONE_RELEASE_THRESH
  const MIN_ZONE := 32768      // ZALLOC_MIN_ZONE_SIZE
  const MAX_ZONE := 131072     // ZALLOC_MAX_ZONE_SIZE
  const MAX_LIMIT := 16384     // ZALLOC_ZONE_LIMIT

  /** A zone header in service: the free chunks are listed by number, newest first. */
  datatype Zone = Zone(index: nat, chunk: nat, off: nat, nmax: nat, nfree: int, uindex: nat, freed: seq<nat>)

  datatype Usage = Unused | Small(pages: nat) | Large(pages: nat)   // struct memusage

  datatype Pointer = Null | To(addr: nat)

  datatype State = State(
    zoneSize: nat, zoneLimit: nat,
    zones: map<nat, Zone>,         // the zones with chunks in use or on a list of zoneArray
    zoneArray: map<nat, seq<nat>>, // zones with free chunks, for every zone index
    zoneFree: seq<nat>,            // zone_free, newest first
    usage: map<nat, Usage>,        // memusage
    large: map<nat, nat>,          // large blocks handed out, with their pages
    runs: seq<Run>, total: nat)    // the page allocator

  // ---- Sizes ------------------------------------------------------------------------------

  /** Rounds up to a multiple of `unit`, and numbers the multiples from `k` on. */
  function Row(n: nat, unit: nat, k: int): (int, nat)
    requires 0 < unit
  {
    ((n + unit - 1) / unit + k, (n + unit - 1) / unit * unit)
  }

  /** zoneindex, for sizes below the zone limit: the index and the chunk size. */
  function ZoneIndex(n: nat): (int, nat)
    requires 0 < n < MAX_LIMIT
  {
    if n < 128 then Row(n, 8, -1)
    else if n < 256 then Row(n, 16, 7)
    else if n < 512 then Row(n, 32, 15)
    else if n < 1024 then Row(n, 64, 23)
    else if n < 2048 then Row(n, 128, 31)
    else if n < 4096 then Row(n, 256, 39)
    else if n < 8192 then Row(n, 512, 47)
    else Row(n, 1024, 55)
  }

  /** The chunk size of an index. */
  function SizeOf(i: int): int {
    if i < 16 then (i + 1) * 8
    else if i < 24 then (i - 7) * 16
    else if i < 32 then (i - 15) * 32
    else if i < 40 then (i - 23) * 64
    else if i < 48 then (i - 31) * 128
    else if i < 56 then (i - 39) * 256
    else if i < 64 then (i - 47) * 512
    else (i - 55) * 1024
  }

  lemma RowIs(n: nat, unit: nat, k: int)
    requires 0 < unit
    ensures var (i, c) := Row(n, unit, k); c == (i - k) * unit && n <= c < n + unit
  {
    RoundedUp(n, unit);
  }

  predicate Suits(n: nat, i: int, c: nat) {
    0 <= i < NZONES && n <= c <= MAX_LIMIT && c % 8 == 0 && (c < n + 8 || 8 * (c - n) < n) && c == SizeOf(i)
  }

  lemma SmallIndex(n: nat)
    requires 0 < n < 512
    ensures var (i, c) := ZoneIndex(n); Suits(n, i, c)
  {
    hide Row;
    RowIs(n, 8, -1);
    RowIs(n, 16, 7);
    RowIs(n, 32, 15);
  }

  lemma MiddleIndex(n: nat)
    requires 512 <= n < 2048
    ensures var (i, c) := ZoneIndex(n); Suits(n, i, c)
  {
    hide Row;
    RowIs(n, 64, 23);
    RowIs(n, 128, 31);
  }

  lemma LargeIndex(n: nat)
    requires 2048 <= n < 8192
    ensures var (i, c) := ZoneIndex(n); Suits(n, i, c)
  {
    hide Row;
    RowIs(n, 256, 39);
    RowIs(n, 512, 47);
  }

  lemma LargestIndex(n: nat)
    requires 8192 <= n < MAX_LIMIT
    ensures var (i, c) := ZoneIndex(n); Suits(n, i, c)
  {
    hide Row;
    RowIs(n, 1024, 55);
  }

  /** The chunk is large enough, and less than eight bytes or an eighth of the request too large;
      its size depends on the index alone. */
  lemma ZoneIndexIs(n: nat)
    requires 0 < n < MAX_LIMIT
    ensures var (i, c) := ZoneIndex(n); Suits(n, i, c)
  {
    hide ZoneIndex, Suits;
    if n < 512 {
      SmallIndex(n);
    } else if n < 2048 {
      MiddleIndex(n);
    } else if n < 8192 {
      LargeIndex(n);
    } else {
      LargestIndex(n);
    }
  }

  lemma SizesGrow(i: int, j: int)
    requires 0 <= i < j < NZONES
    ensures SizeOf(i) < SizeOf(j)
  {
  }

  /** Every index stands for one chunk size, and every chunk size for one index. */
  lemma OneSizeEach(n: nat, m: nat)
    requires 0 < n < MAX_LIMIT && 0 < m < MAX_LIMIT
    ensures ZoneIndex(n).0 == ZoneIndex(m).0 <==> ZoneIndex(n).1 == ZoneIndex(m).1
  {
    hide ZoneIndex, SizeOf;
    ZoneIndexIs(n);
    ZoneIndexIs(m);
    if ZoneIndex(n).0 < ZoneIndex(m).0 {
      SizesGrow(ZoneIndex(n).0, ZoneIndex(m).0);
    } else if ZoneIndex(m).0 < ZoneIndex(n).0 {
      SizesGrow(ZoneIndex(m).0, ZoneIndex(n).0);
    }
  }

  /** The test for a power of two, and the offset of the first chunk. */
  predicate IsPower(size: nat)
    requires 0 < size
  {
    Or(size, size - 1) + 1 == 2 * size
  }

  function Offset(size: nat): nat
    requires 0 < size
  {
    if IsPower(size) then AndNot(HEADER + size - 1, size - 1) else AndNot(HEADER + 7, 7)
  }

  lemma {:induction false} OrSelf(a: nat)
    ensures Or(a, a) == a
  {
    if a > 0 {
      OrSelf(a / 2);
    }
  }

  /** Masking with a power of two rounds down to a multiple. */
  lemma {:induction false} MaskRounds(x: nat, size: nat)
    requires 0 < size && IsPower(size)
    ensures AndNot(x, size - 1) == x / size * size
  {
    var h := size / 2;
    if size % 2 == 1 {
      OrSelf(h);
      assert size - 1 == 2 * h;
      AndNotZero(x);
    } else {
      assert Or(size, size - 1) == 2 * Or(h, h - 1) + 1;
      if x > 0 {
        MaskRounds(x / 2, h);
        assert AndNot(x, size - 1) == 2 * AndNot(x / 2, h - 1);
        Halving(x, h);
      }
    }
  }

  lemma {:induction false} AndNotZero(x: nat)
    ensures AndNot(x, 0) == x
  {
    if x > 0 {
      AndNotZero(x / 2);
    }
  }

  lemma Halving(x: nat, h: nat)
    requires 0 < h
    ensures 2 * (x / 2 / h * h) == x / (2 * h) * (2 * h)
  {
    var q := x / 2 / h;
    assert x / 2 == q * h + x / 2 % h;
    assert x == q * (2 * h) + (2 * (x / 2 % h) + x % 2);
    Quotient(x, q, 2 * (x / 2 % h) + x % 2, 2 * h);
  }

  /** The first chunk lies behind the header and not far from it. */
  lemma OffsetIs(size: nat)
    requires 0 < size
    ensures HEADER <= Offset(size) && (Offset(size) <= 40 || Offset(size) <= HEADER + size - 1)
    ensures IsPower(size) ==> Offset(size) % size == 0
  {
    hide Or, AndNot;
    SevenMask();
    if IsPower(size) {
      MaskRounds(HEADER + size - 1, size);
      RoundedUp(HEADER, size);
    }
  }

  lemma SevenMask()
    ensures AndNot(HEADER + 7, 7) == 40
  {
    AndNotZero(5);
    assert AndNot(10, 1) == 10;
    assert AndNot(21, 3) == 20;
  }

  // ---- Allocating and freeing -------------------------------------------------------------

  function ZonePages(s: State): nat {
    s.zoneSize / PAGE
  }

  function ListOf(s: State, i: nat): seq<nat> {
    if i in s.zoneArray then s.zoneArray[i] else []
  }

  /** The address of a chunk. */
  function ChunkAt(z: nat, x: Zone, c: nat): nat {
    z * PAGE + x.off + c * x.chunk
  }

  /** The next chunk of a zone on a list: from the space never used while there is some, then from
      the list of freed chunks. */
  function NextChunk(x: Zone): nat {
    if x.uindex + 1 != x.nmax then x.uindex + 1 else if x.freed != [] then x.freed[0] else 0
  }

  function TakeChunk(x: Zone): Zone {
    if x.uindex + 1 != x.nmax then x.(nfree := x.nfree - 1, uindex := x.uindex + 1)
    else x.(nfree := x.nfree - 1, freed := if x.freed != [] then x.freed[1..] else [])
  }

  /** rt_malloc from the first zone on a list. */
  function FromZone(s: State, i: nat): (State, Pointer)
    requires ListOf(s, i) != [] && ListOf(s, i)[0] in s.zones
  {
    var z := ListOf(s, i)[0];
    var x := s.zones[z];
    (s.(zones := s.zones[z := TakeChunk(x)],
        zoneArray := if x.nfree == 1 then s.zoneArray[i := ListOf(s, i)[1..]] else s.zoneArray),
     To(ChunkAt(z, x, NextChunk(x))))
  }

  function Marked(usage: map<nat, Usage>, z: nat, n: nat): map<nat, Usage> {
    if n == 0 then usage else Marked(usage, z, n - 1)[z + n - 1 := Small(n - 1)]
  }

  function NewZone(s: State, i: nat, chunk: nat): Zone
    requires 0 < chunk
  {
    var n := if s.zoneSize < Offset(chunk) then 0 else (s.zoneSize - Offset(chunk)) / chunk;
    Zone(i, chunk, Offset(chunk), n, n - 1, 0, [])
  }

  /** The pages `z` on become a zone, and its first chunk is handed out. */
  function WithZone(s: State, z: nat, i: nat, chunk: nat): (State, Pointer)
    requires 0 < chunk
  {
    var x := NewZone(s, i, chunk);
    (s.(zones := s.zones[z := x], zoneArray := s.zoneArray[i := [z] + ListOf(s, i)]), To(ChunkAt(z, x, 0)))
  }

  /** rt_malloc of a chunk when no zone has one. */
  function FromNewZone(s: State, i: nat, chunk: nat): (State, Pointer)
    requires 0 < chunk
  {
    if s.zoneFree != [] then WithZone(s.(zoneFree := s.zoneFree[1..]), s.zoneFree[0], i, chunk)
    else
      var (g, r) := Alloc(s.runs, ZonePages(s));
      match g
      case NoPages => (s, Null)
      case At(z) => WithZone(s.(runs := r, usage := Marked(s.usage, z, ZonePages(s))), z, i, chunk)
  }

  /** rt_malloc of whole pages. */
  function FromPages(s: State, size: nat): (State, Pointer) {
    var n := (size + PAGE - 1) / PAGE;
    var (g, r) := Alloc(s.runs, n);
    match g
    case NoPages => (s, Null)
    case At(a) => (s.(runs := r, usage := s.usage[a := Large(n)], large := s.large[a := n]), To(a * PAGE))
  }

  /** rt_malloc */
  function Malloc(s: State, size: nat): (State, Pointer)
    requires ListsKnown(s) && s.zoneLimit <= MAX_LIMIT
  {
    if size == 0 then (s, Null)
    else if size >= s.zoneLimit then FromPages(s, size)
    else
      ZoneIndexIs(size);
      var (i, chunk) := ZoneIndex(size);
      if ListOf(s, i) != [] then FromZone(s, i) else FromNewZone(s, i, chunk)
  }

  ghost predicate ListsKnown(s: State) {
    forall i :: i in s.zoneArray && s.zoneArray[i] != [] ==> s.zoneArray[i][0] in s.zones
  }

  function Dropped(list: seq<nat>, z: nat): seq<nat> {
    if list == [] then [] else if list[0] == z then list[1..] else [list[0]] + Dropped(list[1..], z)
  }

  function Cleared(usage: map<nat, Usage>, z: nat, n: nat): map<nat, Usage> {
    if n == 0 then usage else Cleared(usage, z, n - 1)[z + n - 1 := Unused]
  }

  /** The chunk goes to the front of its zone's free list, and a zone that was full goes back to
      its zone list. */
  function GiveBack(s: State, z: nat, c: nat): State
    requires z in s.zones
  {
    var x := s.zones[z];
    s.(zones := s.zones[z := x.(freed := [c] + x.freed, nfree := x.nfree + 1)],
       zoneArray := if x.nfree == 0 then s.zoneArray[x.index := [z] + ListOf(s, x.index)] else s.zoneArray)
  }

  /** A zone all of whose chunks are free leaves service, unless it is the only one of its list. */
  function Retire(s: State, z: nat): State
    requires z in s.zones
  {
    var x := s.zones[z];
    if x.nfree == x.nmax && ListOf(s, x.index) != [z] then
      s.(zones := map k | k in s.zones && k != z :: s.zones[k],
         zoneArray := s.zoneArray[x.index := Dropped(ListOf(s, x.index), z)],
         zoneFree := [z] + s.zoneFree)
    else s
  }

  /** More than RELEASE zones out of service: the newest one gives its pages back. */
  function ReleaseZone(s: State): State {
    if |s.zoneFree| > RELEASE then
      s.(zoneFree := s.zoneFree[1..],
         usage := Cleared(s.usage, s.zoneFree[0], ZonePages(s)),
         runs := Free(s.runs, s.zoneFree[0], ZonePages(s)))
    else s
  }

  /** Where memusage says that the header of a chunk is. */
  function ZoneOf(s: State, addr: nat): int {
    addr / PAGE - (if addr / PAGE in s.usage && s.usage[addr / PAGE].Small? then s.usage[addr / PAGE].pages else 0)
  }

  function ChunkOf(z: nat, x: Zone, addr: nat): nat {
    if 0 < x.chunk && z * PAGE + x.off <= addr then (addr - (z * PAGE + x.off)) / x.chunk else 0
  }

  function UsageOf(s: State, page: nat): Usage {
    if page in s.usage then s.usage[page] else Unused
  }

  /** rt_free, of an address that was handed out. */
  function Release(s: State, addr: nat): State {
    match UsageOf(s, addr / PAGE)
    case Large(n) =>
      s.(usage := s.usage[addr / PAGE := Large(0)], large := map k | k in s.large && k != addr / PAGE :: s.large[k],
         runs := Free(s.runs, addr / PAGE, n))
    case _ =>
      var z := ZoneOf(s, addr);
      if z in s.zones then
        var u := GiveBack(s, z, ChunkOf(z, s.zones[z], addr));
        var v := Retire(u, z);
        if z in v.zones then v else ReleaseZone(v)
      else s
  }

  // ---- What is kept -----------------------------------------------------------------------

  /** Every chunk of a zone is in one of three places: it was freed and is listed, it was never
      used, or it is in use; nfree counts the first two. */
  ghost predicate ZoneOk(s: State, x: Zone) {
    && 2 <= x.nmax && x.uindex < x.nmax && 0 < x.chunk
    && HEADER <= x.off && x.off == Offset(x.chunk) && x.off + x.nmax * x.chunk <= s.zoneSize
    && Distinct(x.freed) && (forall c :: c in x.freed ==> c <= x.uindex)
    && x.nfree == |x.freed| + (x.nmax - 1 - x.uindex)
    && 0 <= x.index < NZONES && x.chunk == SizeOf(x.index)
  }

  predicate InUse(x: Zone, c: nat) {
    c <= x.uindex && c !in x.freed
  }

  ghost predicate ZonesOk(s: State) {
    forall z :: z in s.zones ==> ZoneOk(s, s.zones[z])
  }

  /** A zone is on the list of its index exactly while it has free chunks. */
  ghost predicate ArrayOk(s: State) {
    && (forall i :: Distinct(ListOf(s, i)))
    && (forall i, z :: z in ListOf(s, i) <==> z in s.zones && s.zones[z].index == i && 0 < s.zones[z].nfree)
  }

  ghost predicate IsZone(s: State, z: nat) {
    z in s.zones || z in s.zoneFree
  }

  /** memusage leads from every page of a zone to its first page. */
  ghost predicate UsageOk(s: State) {
    && (forall z: nat, k: nat :: IsZone(s, z) && k < ZonePages(s) ==> UsageOf(s, z + k) == Small(k))
    && (forall a :: a in s.large ==> UsageOf(s, a) == Large(s.large[a]))
  }

  function Held(s: State): set<nat> {
    s.zones.Keys + (set z | z in s.zoneFree) + s.large.Keys
  }

  function Span(s: State, a: nat): nat {
    if a in s.large then s.large[a] else ZonePages(s)
  }

  predicate Apart(a: nat, n: nat, b: nat, m: nat) {
    a + n <= b || b + m <= a
  }

  /** Zones and large blocks share no page, with one another or with the free runs. */
  ghost predicate AreasOk(s: State) {
    && Tidy(s.runs) && Within(s.runs, 0, s.total)
    && Distinct(s.zoneFree) && (forall z :: z in s.zoneFree ==> z !in s.zones && z !in s.large)
    && (forall z :: z in s.zones ==> z !in s.large)
    && (forall a :: a in Held(s) ==> 0 < Span(s, a) && a + Span(s, a) <= s.total && AllUsed(s.runs, a, Span(s, a)))
    && (forall a, b :: a in Held(s) && b in Held(s) && a != b ==> Apart(a, Span(s, a), b, Span(s, b)))
  }

  ghost predicate SizesOk(s: State) {
    s.zoneSize % PAGE == 0 && MIN_ZONE <= s.zoneSize && 4 * s.zoneLimit <= s.zoneSize
      && (s.zoneLimit == 8192 || s.zoneLimit == MAX_LIMIT)
  }

  ghost predicate Inv(s: State) {
    SizesOk(s) && ZonesOk(s) && ArrayOk(s) && UsageOk(s) && AreasOk(s)
  }

  /** A pointer that was handed out and not freed. */
  ghost predicate Live(s: State, addr: nat) {
    || (addr % PAGE == 0 && addr / PAGE in s.large)
    || exists z, c :: LiveChunk(s, addr, z, c)
  }

  ghost predicate LiveChunk(s: State, addr: nat, z: nat, c: nat) {
    z in s.zones && InUse(s.zones[z], c) && addr == ChunkAt(z, s.zones[z], c)
  }
}
