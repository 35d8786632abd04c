/** The slab allocator over whole runs: blocks never overlap, are as large as asked for, aligned, and
    resized by moving them; SlabContents says what becomes of their bytes.
 */
module SlabHistory {
  import opened Bits
  import opened Division
  import opened PageRuns
  import opened Sequences
  import opened SlabLemmas
  import opened SlabModel
  import opened SlabRuns

  // ---- Starting ---------------------------------------------------------------------------

  /** The loop of rt_system_heap_init over the zone size. */
  function Doubled(size: nat, limit: nat): nat
    requires 0 < size
    decreases MAX_ZONE - size
  {
    if size < MAX_ZONE && size * 2 < limit then Doubled(size * 2, limit) else size
  }

  function UsagePages(npages: nat): nat {
    (npages * 4 + PAGE - 1) / PAGE
  }

  /** rt_system_heap_init; memusage keeps whatever was in its pages. */
  function Start(npages: nat, usage: map<nat, Usage>): State {
    var size := Doubled(MIN_ZONE, npages * PAGE / 1024);
    State(size, if size / 4 > MAX_LIMIT then MAX_LIMIT else size / 4, map[], map[], [], usage, map[],
          Alloc(Free([], 0, npages), UsagePages(npages)).1, npages)
  }

  lemma StartInv(npages: nat, usage: map<nat, Usage>)
    requires 0 < npages
    ensures Inv(Start(npages, usage)) && Alloc(Free([], 0, npages), UsagePages(npages)).0 == At(0)
  {
    hide Tidy, Within, AllUsed;
    var s := Start(npages, usage);
    var n := UsagePages(npages);
    OneTidy(Run(0, npages));
    AllocTidy(Free([], 0, npages), n);
    AllWithin(npages);
    AllocWithin(Free([], 0, npages), n, 0, npages);
    NoneDistinct();
    assert Doubled(MIN_ZONE, npages * PAGE / 1024) in {MIN_ZONE, 2 * MIN_ZONE, MAX_ZONE};
    assert forall i :: ListOf(s, i) == [];
    assert Held(s) == {};
  }

  lemma AllWithin(npages: nat)
    ensures Within(Free([], 0, npages), 0, npages)
  {
  }

  // ---- Runs -------------------------------------------------------------------------------

  datatype Op = Get(size: nat) | Put(addr: nat)

  /** Only pointers that were handed out are freed. */
  ghost predicate Allowed(s: State, op: Op) {
    op.Put? ==> Live(s, op.addr)
  }

  ghost predicate IsStep(s: State, op: Op, r: State) {
    && Allowed(s, op) && ListsKnown(s) && s.zoneLimit <= MAX_LIMIT
    && r == match op case Get(size) => Malloc(s, size).0 case Put(addr) => Release(s, addr)
  }

  ghost predicate IsRun(run: seq<State>, ops: seq<Op>) {
    && |run| == |ops| + 1 && (exists n: nat, usage :: 0 < n && run[0] == Start(n, usage))
    && forall i :: 0 <= i < |ops| ==> IsStep(run[i], ops[i], run[i + 1])
  }

  /** The pointers handed out and not given back, by the operations alone. */
  ghost predicate Owned(run: seq<State>, ops: seq<Op>, k: nat, addr: nat)
    requires |run| == |ops| + 1 && k <= |ops|
  {
    k > 0 &&
    match ops[k - 1]
    case Put(a) => addr != a && Owned(run, ops, k - 1, addr)
    case Get(size) =>
      Owned(run, ops, k - 1, addr) ||
      (ListsKnown(run[k - 1]) && run[k - 1].zoneLimit <= MAX_LIMIT && Malloc(run[k - 1], size).1 == To(addr))
  }

  /** Main result: in every run every zone, list, mark and page run is right, and the pointers in
      use are those handed out and not given back. */
  lemma {:induction false} RunInv(run: seq<State>, ops: seq<Op>, k: nat)
    requires IsRun(run, ops) && k <= |ops|
    ensures Inv(run[k]) && forall addr :: Live(run[k], addr) <==> Owned(run, ops, k, addr)
  {
    hide Inv, Malloc, Release, Live, ListsKnown;
    if k == 0 {
      var n: nat, usage :| 0 < n && run[0] == Start(n, usage);
      StartInv(n, usage);
      StartLive(n, usage);
    } else {
      RunInv(run, ops, k - 1);
      assert IsStep(run[k - 1], ops[k - 1], run[k - 1 + 1]);
      match ops[k - 1]
      case Get(size) =>
        MallocKeeps(run[k - 1], size);
        MallocLive(run[k - 1], size);
      case Put(addr) =>
        ReleaseLive(run[k - 1], addr);
    }
  }

  lemma StartLive(n: nat, usage: map<nat, Usage>)
    ensures forall addr :: !Live(Start(n, usage), addr)
  {
  }

  // ---- Extents ----------------------------------------------------------------------------

  /** The bytes that belong to a pointer. */
  function Extent(s: State, addr: nat): nat {
    match UsageOf(s, addr / PAGE)
    case Large(n) => n * PAGE
    case _ => if ZoneOf(s, addr) in s.zones then s.zones[ZoneOf(s, addr)].chunk else 0
  }

  /** The first page of the zone or large block that holds a pointer. */
  function Holder(s: State, addr: nat): int {
    if UsageOf(s, addr / PAGE).Large? then addr / PAGE else ZoneOf(s, addr)
  }

  lemma ChunkExtent(s: State, addr: nat, z: nat, c: nat)
    requires Inv(s) && LiveChunk(s, addr, z, c)
    ensures Holder(s, addr) == z && z in s.zones && ZoneOk(s, s.zones[z]) && Extent(s, addr) == s.zones[z].chunk
    ensures addr == ChunkAt(z, s.zones[z], c) && c < s.zones[z].nmax && z !in s.large
  {
    hide Inv, ZoneOk, ZoneOf, ChunkAt, InUse;
    ChunkFacts(s, addr, z, c);
    HeaderFound(s, z, c);
    ZoneNotLarge(s, z);
  }

  lemma ZoneNotLarge(s: State, z: nat)
    requires Inv(s) && z in s.zones
    ensures z !in s.large
  {
    hide ZoneOk, ArrayOk, UsageOk, Tidy, Within, AllUsed, Apart, SizesOk;
  }

  /** A block lies inside its zone, or is the large block. */
  lemma BlockPlace(s: State, addr: nat)
    requires Inv(s) && Live(s, addr)
    ensures var a := Holder(s, addr);
      a in Held(s) && a >= 0 && a * PAGE <= addr && addr + Extent(s, addr) <= (a + Span(s, a)) * PAGE
    ensures 0 < Extent(s, addr)
  {
    hide Inv, ZoneOf, LiveChunk, InUse, ChunkAt;
    if addr % PAGE == 0 && addr / PAGE in s.large {
      LargeMarked(s, addr / PAGE);
      LargeSpan(s, addr / PAGE);
    } else {
      var z, c :| LiveChunk(s, addr, z, c);
      ChunkExtent(s, addr, z, c);
      ChunkPlace(s, z, s.zones[z], c);
      SizesOf(s);
    }
  }

  lemma LargeSpan(s: State, a: nat)
    requires Inv(s) && a in s.large
    ensures 0 < s.large[a]
  {
    hide ZoneOk, ArrayOk, UsageOk, Tidy, Within, AllUsed, Apart, SizesOk;
    assert a in Held(s) && Span(s, a) == s.large[a];
  }

  lemma ChunkPlace(s: State, z: nat, x: Zone, c: nat)
    requires ZoneOk(s, x) && c < x.nmax
    ensures z * PAGE <= ChunkAt(z, x, c) && ChunkAt(z, x, c) + x.chunk <= z * PAGE + s.zoneSize && 0 < x.chunk
  {
    hide Offset, SizeOf, Distinct;
    ChunksInside(s, z, x, c);
  }

  /** Main result: no two blocks in use overlap, and every block lies inside the heap. */
  lemma BlocksApart(s: State, p: nat, q: nat)
    requires Inv(s) && Live(s, p) && Live(s, q)
    ensures p != q ==> Apart(p, Extent(s, p), q, Extent(s, q))
    ensures p + Extent(s, p) <= s.total * PAGE
  {
    hide Inv, Live, Extent, Holder, Held, Span;
    BlockPlace(s, p);
    BlockPlace(s, q);
    var a, b := Holder(s, p), Holder(s, q);
    AreasApart(s, a, b);
    if a == b && p != q {
      SameHolder(s, p, q);
    }
  }

  lemma AreasApart(s: State, a: nat, b: nat)
    requires Inv(s) && a in Held(s) && b in Held(s)
    ensures a != b ==> Apart(a, Span(s, a), b, Span(s, b))
    ensures a + Span(s, a) <= s.total
  {
    hide ZoneOk, ArrayOk, UsageOk, Tidy, Within, AllUsed, SizesOk, Apart, Held;
  }

  /** Two blocks of one zone are two chunks. */
  lemma SameHolder(s: State, p: nat, q: nat)
    requires Inv(s) && Live(s, p) && Live(s, q) && p != q && Holder(s, p) == Holder(s, q)
    ensures Apart(p, Extent(s, p), q, Extent(s, q))
  {
    hide Inv, LiveChunk, ZoneOf, InUse, ChunkAt, Extent, ZoneOk;
    LargeMarked(s, p / PAGE);
    LargeMarked(s, q / PAGE);
    forall z, c | LiveChunk(s, p, z, c)
      ensures Apart(p, Extent(s, p), q, Extent(s, q))
    {
      ChunkExtent(s, p, z, c);
      forall y, d | LiveChunk(s, q, y, d)
        ensures Apart(p, Extent(s, p), q, Extent(s, q))
      {
        ChunkExtent(s, q, y, d);
        TwoChunks(s, z, s.zones[z], c, d);
      }
    }
    NotBothLarge(s, p, q);
  }

  lemma NotBothLarge(s: State, p: nat, q: nat)
    requires Inv(s) && Live(s, p) && Live(s, q) && p != q && Holder(s, p) == Holder(s, q)
    ensures exists z, c, y, d :: LiveChunk(s, p, z, c) && LiveChunk(s, q, y, d)
  {
    hide Inv, LiveChunk, ZoneOf;
    LargeMarked(s, p / PAGE);
    LargeMarked(s, q / PAGE);
    forall z, c | LiveChunk(s, p, z, c)
      ensures Holder(s, p) !in s.large
    {
      ChunkExtent(s, p, z, c);
    }
    forall z, c | LiveChunk(s, q, z, c)
      ensures Holder(s, p) !in s.large
    {
      ChunkExtent(s, q, z, c);
    }
    var z, c :| LiveChunk(s, p, z, c);
    var y, d :| LiveChunk(s, q, y, d);
    assert LiveChunk(s, p, z, c) && LiveChunk(s, q, y, d);
  }

  lemma TwoChunks(s: State, z: nat, x: Zone, c: nat, d: nat)
    requires ZoneOk(s, x) && ChunkAt(z, x, c) != ChunkAt(z, x, d)
    ensures Apart(ChunkAt(z, x, c), x.chunk, ChunkAt(z, x, d), x.chunk)
  {
    hide ZoneOk, ChunkAt;
    if c < d {
      ChunksApart(s, z, x, c, d);
    } else if d < c {
      ChunksApart(s, z, x, d, c);
    }
  }

  // ---- What rt_malloc promises ------------------------------------------------------------

  /** The block is at least as large as asked for. */
  lemma MallocGrants(s: State, size: nat)
    requires Inv(s)
    ensures ListsKnown(s) && s.zoneLimit <= MAX_LIMIT
    ensures var (r, p) := Malloc(s, size); p.To? ==> size <= Extent(r, p.addr)
  {
    hide Inv, ZoneIndex, FromZone, FromNewZone, FromPages, Suits, Reserved, Live, Marked, Extent;
    ListsKnownOf(s);
    SizesOf(s);
    MallocKeeps(s, size);
    if 0 < size < s.zoneLimit {
      ZoneIndexIs(size);
      IndexOk(size);
      var (i, chunk) := ZoneIndex(size);
      IndexSize(size);
      if ListOf(s, i) != [] {
        FromZoneExtent(s, i);
      } else {
        FromNewZoneExtent(s, size);
      }
    } else if 0 < size {
      FromPagesExtent(s, size);
    }
  }

  lemma IndexSize(size: nat)
    requires 0 < size < MAX_LIMIT
    ensures size <= ZoneIndex(size).1 == SizeOf(ZoneIndex(size).0)
  {
    hide ZoneIndex, SizeOf;
    ZoneIndexIs(size);
  }

  lemma FromZoneExtent(s: State, i: nat)
    requires Inv(s) && ListOf(s, i) != [] && ListOf(s, i)[0] in s.zones
    requires Inv(FromZone(s, i).0)
    ensures var (r, p) := FromZone(s, i); p.To? && Extent(r, p.addr) == SizeOf(i)
  {
    hide Inv, SizeOf, ChunkAt, TakeChunk, NextChunk, InUse;
    var z := ListOf(s, i)[0];
    var x := s.zones[z];
    var (r, p) := FromZone(s, i);
    ChunkFactsOf(s, z);
    FirstHasFree(s, i);
    FirstIndex(s, i);
    TakeChunkOk(s, x);
    TakeChunkIs(x);
    SamePlace(x, TakeChunk(x));
    assert LiveChunk(r, p.addr, z, NextChunk(x));
    ChunkExtent(r, p.addr, z, NextChunk(x));
  }

  lemma FirstIndex(s: State, i: nat)
    requires Inv(s) && ListOf(s, i) != []
    ensures ListOf(s, i)[0] in s.zones && s.zones[ListOf(s, i)[0]].index == i
  {
    hide SizesOk, ZonesOk, UsageOk, AreasOk;
    assert ListOf(s, i)[0] in ListOf(s, i);
  }

  lemma FromNewZoneExtent(s: State, size: nat)
    requires Inv(s) && 0 < size < s.zoneLimit <= MAX_LIMIT
    requires var (i, chunk) := ZoneIndex(size); 0 <= i && 0 < chunk && Inv(FromNewZone(s, i, chunk).0)
    ensures var (r, p) := FromNewZone(s, ZoneIndex(size).0, ZoneIndex(size).1);
      p.To? ==> Extent(r, p.addr) == ZoneIndex(size).1
  {
    hide Inv, ZoneIndex, ChunkAt, Marked, NewZone, Offset;
    var (i, chunk) := ZoneIndex(size);
    var (r, p) := FromNewZone(s, i, chunk);
    NewChunk(s, i, chunk);
    if p.To? {
      var z := if s.zoneFree != [] then s.zoneFree[0] else Alloc(s.runs, ZonePages(s)).0.page;
      assert LiveChunk(r, p.addr, z, 0);
      ChunkExtent(r, p.addr, z, 0);
    }
  }

  lemma NewChunk(s: State, i: nat, chunk: nat)
    requires 0 < chunk
    ensures forall r: State :: r.zoneSize == s.zoneSize ==> NewZone(r, i, chunk) == NewZone(s, i, chunk)
    ensures InUse(NewZone(s, i, chunk), 0) && NewZone(s, i, chunk).chunk == chunk
  {
    hide Offset;
  }

  lemma FromPagesExtent(s: State, size: nat)
    requires Inv(s) && 0 < size
    ensures var (r, p) := FromPages(s, size); p.To? ==> size <= Extent(r, p.addr)
  {
  }

  /** It fails, and then changes nothing, exactly when nothing was asked for or when there is no
      room: no run of free pages is long enough for a large block; or, for a small one, no zone of its
      index has a free chunk, no zone is out of service and no run is long enough for a zone. */
  lemma MallocFailsIff(s: State, size: nat)
    requires Inv(s)
    ensures ListsKnown(s) && s.zoneLimit <= MAX_LIMIT
    ensures Malloc(s, size).1 == Null ==> Malloc(s, size).0 == s
    ensures Malloc(s, size).1 == Null <==>
      || size == 0
      || (s.zoneLimit <= size && forall i :: 0 <= i < |s.runs| ==> s.runs[i].pages * PAGE < size)
      || (0 < size < s.zoneLimit && s.zoneFree == []
          && (forall z :: z in s.zones && s.zones[z].index == ZoneIndex(size).0 ==> s.zones[z].nfree <= 0)
          && forall i :: 0 <= i < |s.runs| ==> s.runs[i].pages * PAGE < s.zoneSize)
  {
    hide Inv, ZoneIndex, Suits, Marked, NewZone, Offset, TakeChunk, NextChunk;
    ListsKnownOf(s);
    SizesOf(s);
    if 0 < size < s.zoneLimit {
      ZoneIndexIs(size);
      IndexOk(size);
      EmptyList(s, ZoneIndex(size).0);
      AllocFailsIff(s.runs, ZonePages(s));
    } else if 0 < size {
      AllocFailsIff(s.runs, (size + PAGE - 1) / PAGE);
    }
  }

  lemma EmptyList(s: State, i: nat)
    requires Inv(s)
    ensures ListOf(s, i) == [] <==> forall z :: z in s.zones && s.zones[z].index == i ==> s.zones[z].nfree <= 0
  {
    hide SizesOk, ZonesOk, UsageOk, AreasOk;
    if ListOf(s, i) != [] {
      var z := ListOf(s, i)[0];
      assert z in ListOf(s, i);
      assert z in s.zones && s.zones[z].index == i && 0 < s.zones[z].nfree;
    } else {
      assert forall z :: z !in ListOf(s, i);
    }
  }

  // ---- Alignment --------------------------------------------------------------------------

  lemma {:induction false} PowerHalves(size: nat)
    requires 1 < size && IsPower(size)
    ensures size % 2 == 0 && IsPower(size / 2)
  {
    if size % 2 == 1 {
      OrSelf(size / 2);
    }
  }

  /** The smaller of two powers of two divides the larger. */
  lemma {:induction false} PowerDivides(a: nat, b: nat)
    requires 0 < a <= b && IsPower(a) && IsPower(b)
    ensures b % a == 0
  {
    if a > 1 {
      PowerHalves(a);
      PowerHalves(b);
      PowerDivides(a / 2, b / 2);
      var q := b / 2 / (a / 2);
      assert b == q * a;
      Quotient(b, q, 0, a);
    } else {
      Quotient(b, b, 0, 1);
    }
  }

  lemma {:induction false} SmallPowers(size: nat)
    requires 0 < size <= PAGE && IsPower(size)
    ensures size in {1, 2, 4, 8, 16, 32, 64, 128, 256, 512, 1024, 2048, 4096}
  {
    hide IsPower;
    if size > 1 {
      PowerHalves(size);
      SmallPowers(size / 2);
    }
  }

  lemma EightPower()
    ensures IsPower(8) && IsPower(PAGE)
  {
    hide IsPower;
    PowerOne();
    PowerDoubles(1);
    PowerDoubles(2);
    PowerDoubles(4);
    PowerDoubles(8);
    PowerDoubles(16);
    PowerDoubles(32);
    PowerDoubles(64);
    PowerDoubles(128);
    PowerDoubles(256);
    PowerDoubles(512);
    PowerDoubles(1024);
    PowerDoubles(2048);
  }

  lemma PowerOne()
    ensures IsPower(1)
  {
  }

  lemma PowerDoubles(size: nat)
    requires 0 < size && IsPower(size)
    ensures IsPower(2 * size)
  {
    assert (2 * size - 1) / 2 == size - 1;
  }

  lemma PowerChunk(size: nat)
    requires 0 < size <= PAGE && IsPower(size)
    ensures var chunk := ZoneIndex(size).1; (chunk == size || chunk == 8) && chunk % size == 0 && IsPower(chunk)
  {
    hide IsPower;
    SmallPowers(size);
    EightPower();
  }

  /** Chunks of a size that is a power of two, up to a page, are aligned to their size. */
  lemma ChunkAligned(s: State, z: nat, x: Zone, c: nat)
    requires ZoneOk(s, x) && IsPower(x.chunk) && x.chunk <= PAGE
    ensures ChunkAt(z, x, c) % x.chunk == 0
  {
    hide IsPower, Offset, SizeOf, Distinct;
    EightPower();
    PowerDivides(x.chunk, PAGE);
    OffsetIs(x.chunk);
    MultipleSum(z, PAGE, x.off, c, x.chunk);
  }

  lemma MultipleSum(z: nat, page: nat, off: nat, c: nat, d: nat)
    requires 0 < d && page % d == 0 && off % d == 0
    ensures (z * page + off + c * d) % d == 0
  {
    var p, o := page / d, off / d;
    assert page == p * d && off == o * d;
    assert z * page == z * p * d;
    assert z * page + off + c * d == (z * p + o + c) * d;
    Quotient(z * page + off + c * d, z * p + o + c, 0, d);
  }

  /** The request is a power of two, and so is the address if there is one. */
  ghost predicate AlignedAt(s: State, size: nat) {
    && 0 < size && ListsKnown(s) && s.zoneLimit <= MAX_LIMIT
    && (Malloc(s, size).1.To? ==> Malloc(s, size).1.addr % size == 0)
  }

  lemma SmallAligned(s: State, size: nat)
    requires Inv(s) && 0 < size <= PAGE && IsPower(size)
    ensures AlignedAt(s, size)
  {
    hide Inv, ZoneIndex, IsPower, ChunkAt, Marked, NewZone, TakeChunk, NextChunk, Suits;
    ListsKnownOf(s);
    SizesOf(s);
    MallocKeeps(s, size);
    var (i, chunk) := ZoneIndex(size);
    ZoneIndexIs(size);
    PowerChunk(size);
    IndexSize(size);
    if ListOf(s, i) != [] {
      var z := ListOf(s, i)[0];
      FirstIndex(s, i);
      ChunkSize(s, z);
      ChunkAligned(s, z, s.zones[z], NextChunk(s.zones[z]));
      Divides(ChunkAt(z, s.zones[z], NextChunk(s.zones[z])), chunk, size);
    } else if Malloc(s, size).1.To? {
      var z := if s.zoneFree != [] then s.zoneFree[0] else Alloc(s.runs, ZonePages(s)).0.page;
      NewZoneOk(s, size);
      NewChunk(s, i, chunk);
      ChunkAligned(s, z, NewZone(s, i, chunk), 0);
      Divides(ChunkAt(z, NewZone(s, i, chunk), 0), chunk, size);
    }
  }

  lemma ChunkSize(s: State, z: nat)
    requires Inv(s) && z in s.zones
    ensures ZoneOk(s, s.zones[z]) && s.zones[z].chunk == SizeOf(s.zones[z].index)
  {
  }

  lemma Divides(a: nat, b: nat, d: nat)
    requires 0 < b && 0 < d && a % b == 0 && b % d == 0
    ensures a % d == 0
  {
    var p, q := a / b, b / d;
    assert a == p * (q * d) == p * q * d;
    Quotient(a, p * q, 0, d);
  }

  /** The states that some run of calls leads to. */
  ghost predicate Reachable(s: State) {
    exists run: seq<State>, ops: seq<Op>, k: nat :: IsRun(run, ops) && k < |run| && s == run[k]
  }

  lemma StartReachable(npages: nat, usage: map<nat, Usage>)
    requires 0 < npages
    ensures Reachable(Start(npages, usage))
  {
    hide Start;
    var run: seq<State>, ops: seq<Op> := [Start(npages, usage)], [];
    assert IsRun(run, ops) && run[0] == Start(npages, usage);
  }

  /** Right after its start a heap has one run of free pages, behind the pages of memusage. */
  lemma StartRuns(npages: nat, usage: map<nat, Usage>)
    requires UsagePages(npages) < npages
    ensures Start(npages, usage).runs == [Run(UsagePages(npages), npages - UsagePages(npages))]
  {
  }

  lemma StartLimit(q: nat)
    requires 2 <= q
    ensures Start(2 * q, map[]).zoneLimit <= q * PAGE
  {
  }

  /** A heap of twice as many pages as asked for: the first free page is not on a multiple of the
      size, and there is room behind it. */
  lemma LargeNotAligned(size: nat)
    requires PAGE < size && IsPower(size)
    ensures var s := Start(2 * (size / PAGE), map[]); Reachable(s) && Inv(s) && !AlignedAt(s, size)
  {
    hide Inv, IsPower, Start, ListsKnown;
    EightPower();
    PowerDivides(PAGE, size);
    var q := size / PAGE;
    var s, m := Start(2 * q, map[]), UsagePages(2 * q);
    StartReachable(2 * q, map[]);
    StartInv(2 * q, map[]);
    ListsKnownOf(s);
    SizesOf(s);
    StartRuns(2 * q, map[]);
    StartLimit(q);
    assert size == q * PAGE && (size + PAGE - 1) / PAGE == q && 0 < m < q;
    assert Alloc(s.runs, q).0 == At(m);
    Quotient(m * PAGE, 0, m * PAGE, size);
  }

  /** The comment at the head of the file promises that blocks of a size that is a power of two are
      aligned to their size.  That holds in every state of every run for sizes up to a page, and for
      no others; addresses count from the start of the heap. */
  lemma PowerAlignedIff(size: nat)
    requires 0 < size && IsPower(size)
    ensures size <= PAGE <==> forall s :: Reachable(s) ==> AlignedAt(s, size)
  {
    hide Inv, IsPower, AlignedAt, Start;
    if size <= PAGE {
      forall s | Reachable(s)
        ensures AlignedAt(s, size)
      {
        var run: seq<State>, ops: seq<Op>, k: nat :| IsRun(run, ops) && k < |run| && s == run[k];
        RunInv(run, ops, k);
        SmallAligned(s, size);
      }
    } else {
      LargeNotAligned(size);
    }
  }

  /** Every block is aligned to eight bytes. */
  lemma LiveAligned(s: State, addr: nat)
    requires Inv(s) && Live(s, addr)
    ensures addr % 8 == 0
  {
    hide Inv, ZoneOk, IsPower, LiveChunk;
    if addr % PAGE == 0 {
      Divides(addr, PAGE, 8);
    } else {
      var z: nat, c: nat :| LiveChunk(s, addr, z, c);
      ChunkFacts(s, addr, z, c);
      ChunkEight(s, z, s.zones[z], c);
    }
  }

  lemma ChunkEight(s: State, z: nat, x: Zone, c: nat)
    requires ZoneOk(s, x)
    ensures ChunkAt(z, x, c) % 8 == 0
  {
    hide Offset, Distinct;
    var chunk := x.chunk;
    assert chunk % 8 == 0;
    OffsetEight(chunk);
    MultipleSum(z, PAGE, x.off, 0, 8);
    MultipleSum(c, chunk, z * PAGE + x.off, 0, 8);
  }

  lemma OffsetEight(chunk: nat)
    requires 0 < chunk && chunk % 8 == 0
    ensures Offset(chunk) % 8 == 0
  {
    hide AndNot, IsPower;
    SevenMask();
    if IsPower(chunk) {
      OffsetIs(chunk);
      Divides(Offset(chunk), chunk, 8);
    }
  }

  // ---- Resizing ---------------------------------------------------------------------------

  /** rt_realloc: the result, and how many bytes are copied to it. */
  function Realloc(s: State, p: Pointer, size: nat): (State, Pointer, nat)
    requires ListsKnown(s) && s.zoneLimit <= MAX_LIMIT
  {
    match p
    case Null => (Malloc(s, size).0, Malloc(s, size).1, 0)
    case To(addr) =>
      if size == 0 then (Release(s, addr), Null, 0)
      else
        match UsageOf(s, addr / PAGE)
        case Large(n) => Moved(s, addr, size, n * PAGE)
        case Small(k) =>
          var rounded := if size < MAX_LIMIT then ZoneIndex(size).1 else size;
          if Extent(s, addr) == rounded then (s, p, 0) else Moved(s, addr, rounded, Extent(s, addr))
        case Unused => (s, Null, 0)
  }

  function Moved(s: State, addr: nat, size: nat, had: nat): (State, Pointer, nat)
    requires ListsKnown(s) && s.zoneLimit <= MAX_LIMIT
  {
    var (r, q) := Malloc(s, size);
    if q == Null then (s, Null, 0) else (Release(r, addr), q, if size > had then had else size)
  }

  function Least(a: nat, b: nat): nat {
    if a < b then a else b
  }

  lemma MovedRight(s: State, addr: nat, size: nat, had: nat)
    requires Inv(s) && Live(s, addr) && had == Extent(s, addr)
    ensures ListsKnown(s) && s.zoneLimit <= MAX_LIMIT
    ensures var (r, q, n) := Moved(s, addr, size, had);
      if q.To? then
        && Inv(r) && (forall a :: Live(r, a) <==> a == q.addr || (Live(s, a) && a != addr))
        && n == Least(size, had) && q.addr != addr && size <= Extent(Malloc(s, size).0, q.addr)
      else r == s
  {
    hide Inv, Malloc, Release, Live, Extent, ListsKnown;
    MallocKeeps(s, size);
    MallocLive(s, size);
    MallocGrants(s, size);
    var (r, q) := Malloc(s, size);
    if q.To? {
      ReleaseLive(r, addr);
    }
  }

  lemma LiveUsage(s: State, addr: nat)
    requires Inv(s) && Live(s, addr)
    ensures !UsageOf(s, addr / PAGE).Unused?
    ensures UsageOf(s, addr / PAGE).Large? ==> UsageOf(s, addr / PAGE).pages * PAGE == Extent(s, addr)
  {
    hide Inv, LiveChunk, ZoneOf;
    LargeMarked(s, addr / PAGE);
    forall z, c | LiveChunk(s, addr, z, c)
      ensures !UsageOf(s, addr / PAGE).Unused?
    {
      ChunkFacts(s, addr, z, c);
      HeaderFound(s, z, c);
    }
  }

  /** Main result on rt_realloc of a block: it fails and leaves everything as it was, or it stays
      where it is and is large enough, or it moves to a new block that is large enough, the old one
      is freed and nothing else changes, and what both can hold has been copied. */
  lemma ReallocRight(s: State, addr: nat, size: nat)
    requires Inv(s) && Live(s, addr) && 0 < size
    ensures ListsKnown(s) && s.zoneLimit <= MAX_LIMIT
    ensures var (r, q, n) := Realloc(s, To(addr), size);
      && (q == Null ==> r == s)
      && (q == To(addr) ==> r == s && size <= Extent(s, addr))
      && (q.To? && q != To(addr) ==>
            && Inv(r) && (forall a :: Live(r, a) <==> a == q.addr || (Live(s, a) && a != addr))
            && Least(size, Extent(s, addr)) <= n <= Extent(s, addr))
  {
    hide Inv, Moved, Live, Extent, ListsKnown, ZoneIndex, Suits;
    ListsKnownOf(s);
    SizesOf(s);
    LiveUsage(s, addr);
    var rounded := if size < MAX_LIMIT then ZoneIndex(size).1 else size;
    if size < MAX_LIMIT {
      ZoneIndexIs(size);
      IndexSize(size);
    }
    MovedRight(s, addr, size, Extent(s, addr));
    MovedRight(s, addr, rounded, Extent(s, addr));
  }
}
