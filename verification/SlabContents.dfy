/** What rt_realloc of slab.c does to the bytes of the blocks: nothing that the block held is lost,
    and no other block changes.
 */
module SlabContents {
  import opened PageRuns
  import opened SlabHistory
  import opened SlabLemmas
  import opened SlabModel
  import opened SlabRuns

  // ---- Blocks keep their extents ----------------------------------------------------------

  /** Every block of `s` is a block of `r`, at the same place. */
  ghost predicate Extends(s: State, r: State) {
    && (forall a :: a in s.large ==> a in r.large && r.large[a] == s.large[a])
    && (forall z :: z in s.zones ==> z in r.zones && SameShape(s.zones[z], r.zones[z]))
  }

  ghost predicate SameShape(x: Zone, y: Zone) {
    y.off == x.off && y.chunk == x.chunk && forall c :: InUse(x, c) ==> InUse(y, c)
  }

  lemma ExtentKept(s: State, r: State, addr: nat)
    requires Inv(s) && Inv(r) && Extends(s, r) && Live(s, addr)
    ensures Live(r, addr) && Extent(r, addr) == Extent(s, addr)
  {
    hide Inv, InUse, ChunkAt, LiveChunk, ZoneOf, ZoneOk;
    if addr % PAGE == 0 && addr / PAGE in s.large {
      LargeMarked(s, addr / PAGE);
      LargeMarked(r, addr / PAGE);
    } else {
      var z, c :| LiveChunk(s, addr, z, c);
      ChunkKept(s, r, addr, z, c);
      ChunkExtent(s, addr, z, c);
      ChunkExtent(r, addr, z, c);
    }
  }

  lemma ChunkKept(s: State, r: State, addr: nat, z: nat, c: nat)
    requires Extends(s, r) && LiveChunk(s, addr, z, c)
    ensures LiveChunk(r, addr, z, c) && r.zones[z].chunk == s.zones[z].chunk
  {
    hide InUse;
  }

  lemma MallocExtends(s: State, size: nat)
    requires Inv(s)
    ensures ListsKnown(s) && s.zoneLimit <= MAX_LIMIT
    ensures Extends(s, Malloc(s, size).0)
  {
    hide Inv, ZoneIndex, FromZone, WithZone, FromPages, Suits, Reserved, Marked, Extends;
    ListsKnownOf(s);
    SizesOf(s);
    SelfExtends(s);
    if 0 < size < s.zoneLimit {
      ZoneIndexIs(size);
      IndexOk(size);
      var (i, chunk) := ZoneIndex(size);
      if ListOf(s, i) != [] {
        FromZoneExtends(s, i);
      } else if s.zoneFree != [] {
        PopZone(s);
        WithZoneExtends(s, s.(zoneFree := s.zoneFree[1..]), s.zoneFree[0], i, chunk);
      } else if Alloc(s.runs, ZonePages(s)).0.At? {
        NewPages(s);
        var (g, runs) := Alloc(s.runs, ZonePages(s));
        WithZoneExtends(s, s.(runs := runs, usage := Marked(s.usage, g.page, ZonePages(s))), g.page, i, chunk);
      }
    } else if 0 < size {
      FromPagesExtends(s, size);
    }
  }

  lemma SelfExtends(s: State)
    ensures Extends(s, s)
  {
  }

  lemma FromZoneExtends(s: State, i: nat)
    requires Inv(s) && ListOf(s, i) != []
    ensures ListOf(s, i)[0] in s.zones && Extends(s, FromZone(s, i).0)
  {
    hide Inv, InUse, TakeChunk, NextChunk, ZoneOk;
    FirstHasFree(s, i);
    var x := s.zones[ListOf(s, i)[0]];
    ChunkFactsOf(s, ListOf(s, i)[0]);
    TakeChunkOk(s, x);
    TakeChunkIs(x);
  }

  lemma WithZoneExtends(s: State, u: State, z: nat, i: nat, chunk: nat)
    requires u.zones == s.zones && u.large == s.large && Reserved(u, z) && 0 < chunk
    ensures Extends(s, WithZone(u, z, i, chunk).0)
  {
    hide Reserved, NewZone, InUse;
    ReservedNew(u, z);
  }

  lemma FromPagesExtends(s: State, size: nat)
    requires Inv(s) && 0 < size
    ensures Extends(s, FromPages(s, size).0)
  {
    hide Inv, InUse;
    if FromPages(s, size).1.To? {
      PageNew(s, size);
    }
  }

  /** Freeing only takes a block away. */
  lemma ReleaseExtends(s: State, addr: nat)
    requires Inv(s) && Live(s, addr)
    ensures Extends(Release(s, addr), s)
  {
    hide Inv, Release, GiveBack, Settled, InUse, ChunkAt, ZoneOk;
    var r := Release(s, addr);
    if addr % PAGE == 0 && addr / PAGE in s.large {
      LargeReleased(s, addr / PAGE);
    } else {
      var z, c :| LiveChunk(s, addr, z, c);
      ReleaseChunk(s, addr, z, c);
      ChunkFacts(s, addr, z, c);
      HeaderFound(s, z, c);
      GiveBackKeeps(s, z, c);
      GiveBackIs(s, z, c);
      GiveChunkOk(s, s.zones[z], c);
      SettledKeeps(GiveBack(s, z, c), z);
    }
  }

  lemma LargeReleased(s: State, a: nat)
    requires Inv(s) && a in s.large
    ensures Extends(Release(s, a * PAGE), s)
  {
    hide Inv, InUse;
    ReleaseLarge(s, a);
  }

  // ---- Contents ---------------------------------------------------------------------------

  /** rt_memcpy of `n` bytes to a place that does not overlap. */
  function CopyBytes<T>(mem: seq<T>, from: nat, to: nat, n: nat): (m: seq<T>)
    requires from + n <= |mem| && to + n <= |mem|
    ensures |m| == |mem|
  {
    mem[..to] + mem[from..from + n] + mem[to + n..]
  }

  lemma InsideCopy<T>(mem: seq<T>, from: nat, to: nat, n: nat, k: nat)
    requires from + n <= |mem| && to + n <= |mem| && k <= n
    ensures CopyBytes(mem, from, to, n)[to..to + k] == mem[from..from + k]
  {
    var m, b := CopyBytes(mem, from, to, n), mem[from..from + n];
    assert m[to..to + n] == b;
    assert m[to..to + k] == m[to..to + n][..k] && mem[from..from + k] == b[..k];
  }

  lemma OutsideCopy<T>(mem: seq<T>, from: nat, to: nat, n: nat, a: nat, len: nat)
    requires from + n <= |mem| && to + n <= |mem| && a + len <= |mem| && Apart(a, len, to, n)
    ensures CopyBytes(mem, from, to, n)[a..a + len] == mem[a..a + len]
  {
  }

  /** Where a block is in the bytes of the heap. */
  lemma BlockInside(s: State, addr: nat)
    requires Inv(s) && Live(s, addr)
    ensures addr + Extent(s, addr) <= s.total * PAGE
  {
    hide Inv, Live, Extent;
    BlocksApart(s, addr, addr);
  }

  /** Another block shares no byte with the one that is new. */
  lemma NewApart(s: State, size: nat, a: nat)
    requires Inv(s) && Live(s, a)
    ensures ListsKnown(s) && s.zoneLimit <= MAX_LIMIT
    ensures var (t, q) := Malloc(s, size); q.To? ==>
      && Inv(t) && Live(t, q.addr) && t.total == s.total && q.addr != a && size <= Extent(t, q.addr)
      && Live(t, a) && Extent(t, a) == Extent(s, a) && Apart(a, Extent(s, a), q.addr, Extent(t, q.addr))
  {
    hide Inv, Live, Extent, Malloc, ListsKnown, Extends, Apart;
    MallocKeeps(s, size);
    MallocLive(s, size);
    MallocGrants(s, size);
    MallocExtends(s, size);
    MallocTotal(s, size);
    var (t, q) := Malloc(s, size);
    if q.To? {
      ExtentKept(s, t, a);
      BlocksApart(t, a, q.addr);
    }
  }

  lemma MallocTotal(s: State, size: nat)
    requires ListsKnown(s) && s.zoneLimit <= MAX_LIMIT
    ensures Malloc(s, size).0.total == s.total
  {
    hide ZoneIndex, Marked, NewZone, TakeChunk, NextChunk;
  }

  /** Other blocks keep their extents when one is moved. */
  lemma MovedExtent(s: State, addr: nat, size: nat, had: nat, a: nat)
    requires Inv(s) && Live(s, addr) && Live(s, a) && a != addr && had == Extent(s, addr)
    ensures ListsKnown(s) && s.zoneLimit <= MAX_LIMIT
    ensures var (r, q, n) := Moved(s, addr, size, had); q.To? ==> Live(r, a) && Extent(r, a) == Extent(s, a)
  {
    hide Inv, Live, Extent, Malloc, Release, ListsKnown, Extends, Apart;
    NewApart(s, size, a);
    NewApart(s, size, addr);
    var (t, q) := Malloc(s, size);
    if q.To? {
      ReleaseLive(t, addr);
      ReleaseExtends(t, addr);
      ExtentKept(Release(t, addr), t, a);
    }
  }

  /** The first `n` bytes at `q` are those that were at `addr`. */
  ghost predicate Same<T>(mem: seq<T>, addr: nat, m: seq<T>, q: nat, n: nat) {
    addr + n <= |mem| && q + n <= |m| && m[q..q + n] == mem[addr..addr + n]
  }

  /** What is true of the bytes `m` after a call that leaves the block `addr` at `q`: that block is
      large enough and holds what it held as far as that goes, and every other block is as long as it was
      and holds all that it held. */
  ghost predicate Preserved<T>(s: State, r: State, addr: nat, size: nat, q: nat, mem: seq<T>, m: seq<T>) {
    && Live(r, q) && size <= Extent(r, q) && Same(mem, addr, m, q, Least(size, Extent(s, addr)))
    && forall a: nat :: Live(s, a) && a != addr ==> Kept(s, r, a, mem, m)
  }

  ghost predicate Kept<T>(s: State, r: State, a: nat, mem: seq<T>, m: seq<T>) {
    Live(r, a) && Extent(r, a) == Extent(s, a) && Same(mem, a, m, a, Extent(s, a))
  }

  lemma MovedBytes<T>(s: State, addr: nat, size: nat, want: nat, had: nat, mem: seq<T>)
    requires Inv(s) && Live(s, addr) && had == Extent(s, addr) && want <= size && |mem| == s.total * PAGE
    ensures ListsKnown(s) && s.zoneLimit <= MAX_LIMIT
    ensures var (r, q, n) := Moved(s, addr, size, had); q.To? ==>
      && addr + n <= |mem| && q.addr + n <= |mem|
      && Preserved(s, r, addr, want, q.addr, mem, CopyBytes(mem, addr, q.addr, n))
  {
    hide Inv, Live, Extent, Malloc, Release, ListsKnown, Extends, CopyBytes;
    NewApart(s, size, addr);
    var (t, q) := Malloc(s, size);
    if q.To? {
      var n := Least(size, had);
      BlockInside(s, addr);
      BlockInside(t, q.addr);
      ReleaseLive(t, addr);
      ReleaseExtends(t, addr);
      var r := Release(t, addr);
      ExtentKept(r, t, q.addr);
      var m := CopyBytes(mem, addr, q.addr, n);
      InsideCopy(mem, addr, q.addr, n, Least(want, had));
      forall a: nat | Live(s, a) && a != addr
        ensures Kept(s, r, a, mem, m)
      {
        NewApart(s, size, a);
        MovedExtent(s, addr, size, had, a);
        BlockInside(s, a);
        OutsideCopy(mem, addr, q.addr, n, a, Extent(s, a));
      }
    }
  }

  /** Main result on the bytes: where rt_realloc leaves a block, it is large enough and holds what the
      block held, up to the smaller of the two sizes, and no other block loses or changes a byte. */
  lemma ReallocContents<T>(s: State, addr: nat, size: nat, mem: seq<T>)
    requires Inv(s) && Live(s, addr) && 0 < size && |mem| == s.total * PAGE
    ensures ListsKnown(s) && s.zoneLimit <= MAX_LIMIT
    ensures var (r, q, n) := Realloc(s, To(addr), size); q.To? ==>
      && addr + n <= |mem| && q.addr + n <= |mem|
      && Preserved(s, r, addr, size, q.addr, mem, if q.addr == addr then mem else CopyBytes(mem, addr, q.addr, n))
  {
    hide Inv, Moved, Live, Extent, ListsKnown, ZoneIndex, Suits, Preserved, CopyBytes;
    ListsKnownOf(s);
    SizesOf(s);
    LiveUsage(s, addr);
    var rounded := if size < MAX_LIMIT then ZoneIndex(size).1 else size;
    if size < MAX_LIMIT {
      ZoneIndexIs(size);
      IndexSize(size);
    }
    StayedBytes(s, addr, size, mem);
    MovedPlace(s, addr, size, Extent(s, addr));
    MovedPlace(s, addr, rounded, Extent(s, addr));
    MovedBytes(s, addr, size, size, Extent(s, addr), mem);
    MovedBytes(s, addr, rounded, size, Extent(s, addr), mem);
  }

  lemma MovedPlace(s: State, addr: nat, size: nat, had: nat)
    requires Inv(s) && Live(s, addr) && had == Extent(s, addr)
    ensures ListsKnown(s) && s.zoneLimit <= MAX_LIMIT
    ensures Moved(s, addr, size, had).1 != To(addr)
  {
    hide Inv, Live, Extent, Malloc, Release, ListsKnown;
    MovedRight(s, addr, size, had);
  }

  lemma StayedBytes<T>(s: State, addr: nat, size: nat, mem: seq<T>)
    requires Inv(s) && Live(s, addr) && |mem| == s.total * PAGE
    ensures addr < |mem| && (size <= Extent(s, addr) ==> Preserved(s, s, addr, size, addr, mem, mem))
  {
    hide Inv, Live, Extent;
    BlockInside(s, addr);
    BlockPlace(s, addr);
    forall a: nat | Live(s, a)
      ensures Kept(s, s, a, mem, mem)
    {
      BlockInside(s, a);
    }
  }

  /** A block stays where it is exactly if it is a chunk of the size that the request has by itself; without
      a pointer rt_realloc allocates, and for no bytes it frees. */
  lemma ReallocStaysIff(s: State, addr: nat, size: nat)
    requires Inv(s) && Live(s, addr)
    ensures ListsKnown(s) && s.zoneLimit <= MAX_LIMIT
    ensures 0 < size ==>
      (Realloc(s, To(addr), size).1 == To(addr) <==>
        && exists z, c :: LiveChunk(s, addr, z, c)
            && if size < MAX_LIMIT then ZoneIndex(size).0 == s.zones[z].index else size == s.zones[z].chunk)
    ensures Realloc(s, Null, size) == (Malloc(s, size).0, Malloc(s, size).1, 0)
    ensures Realloc(s, To(addr), 0) == (Release(s, addr), Null, 0)
  {
    hide Inv, Moved, Live, Extent, ListsKnown, ZoneIndex, LiveChunk, Malloc, Release;
    ListsKnownOf(s);
    SizesOf(s);
    if 0 < size {
      MovedPlace(s, addr, size, Extent(s, addr));
      var rounded := if size < MAX_LIMIT then ZoneIndex(size).1 else size;
      MovedPlace(s, addr, rounded, Extent(s, addr));
      LiveUsage(s, addr);
      if UsageOf(s, addr / PAGE).Large? {
        NoChunkMarkedLarge(s, addr);
      } else {
        SmallIsChunk(s, addr);
        forall z, c | LiveChunk(s, addr, z, c)
          ensures z in s.zones
          ensures Extent(s, addr) == rounded <==>
            if size < MAX_LIMIT then ZoneIndex(size).0 == s.zones[z].index else size == s.zones[z].chunk
        {
          ChunkExtent(s, addr, z, c);
          if size < MAX_LIMIT {
            SameClass(s, z, size);
          }
        }
      }
    }
  }

  lemma SameClass(s: State, z: nat, size: nat)
    requires Inv(s) && z in s.zones && 0 < size < MAX_LIMIT
    ensures ZoneIndex(size).1 == s.zones[z].chunk <==> ZoneIndex(size).0 == s.zones[z].index
  {
    hide ZoneIndex, SizeOf, Inv;
    ChunkSize(s, z);
    IndexSize(size);
    ZoneIndexIs(size);
    ZoneNumber(s, z);
    if ZoneIndex(size).1 == s.zones[z].chunk {
      SizeDetermines(ZoneIndex(size).0, s.zones[z].index);
    }
  }

  lemma ZoneNumber(s: State, z: nat)
    requires Inv(s) && z in s.zones
    ensures s.zones[z].index < NZONES
  {
  }

  /** No two zone indexes have the same chunk size. */
  lemma SizeDetermines(i: int, j: int)
    requires 0 <= i < NZONES && 0 <= j < NZONES && SizeOf(i) == SizeOf(j)
    ensures i == j
  {
  }

  lemma NoChunkMarkedLarge(s: State, addr: nat)
    requires Inv(s) && UsageOf(s, addr / PAGE).Large?
    ensures forall z, c :: !LiveChunk(s, addr, z, c)
  {
    hide Inv, LiveChunk, ZoneOf;
    forall z, c
      ensures !LiveChunk(s, addr, z, c)
    {
      if LiveChunk(s, addr, z, c) {
        ChunkFacts(s, addr, z, c);
        HeaderFound(s, z, c);
      }
    }
  }

  lemma SmallIsChunk(s: State, addr: nat)
    requires Inv(s) && Live(s, addr) && !UsageOf(s, addr / PAGE).Large?
    ensures exists z, c :: LiveChunk(s, addr, z, c)
  {
    hide Inv, LiveChunk;
    LargeMarked(s, addr / PAGE);
  }
}
