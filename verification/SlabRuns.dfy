/** What a user of the slab allocator sees: pointers come and go, and never overlap. */
module SlabRuns {
  import opened Division
  import opened PageRuns
  import opened Sequences
  import opened SlabLemmas
  import opened SlabModel

  // ---- Large blocks -----------------------------------------------------------------------

  lemma ReleaseLarge(s: State, a: nat)
    requires Inv(s) && a in s.large
    ensures UsageOf(s, a) == Large(s.large[a]) && Inv(Release(s, a * PAGE))
    ensures Release(s, a * PAGE).zones == s.zones && Release(s, a * PAGE).large.Keys == s.large.Keys - {a}
  {
    hide ZoneOk, ArrayOk, AreasOk, AllUsed, SizeOf, Apart;
    assert UsageOf(s, a) == Large(s.large[a]);
    var n, r := s.large[a], Release(s, a * PAGE);
    var v := s.(large := r.large, usage := r.usage);
    LessUsage(s, v, a);
    LessAreas(s, v, a);
    FreedAreas(v, a, n);
    SameZones(s, r);
    SameUsage(v, r);
  }

  lemma LessAreas(s: State, v: State, a: nat)
    requires AreasOk(s) && a in s.large
    requires v == s.(usage := v.usage, large := map k | k in s.large && k != a :: s.large[k])
    ensures AreasOk(v) && 0 < s.large[a] && a + s.large[a] <= v.total && AllUsed(v.runs, a, s.large[a])
    ensures forall b :: b in Held(v) ==> Apart(b, Span(v, b), a, s.large[a])
  {
    hide Tidy, Within, AllUsed, Distinct;
    assert Held(v) == Held(s) - {a} && a in Held(s) && Span(s, a) == s.large[a];
    assert forall b :: b in Held(v) ==> Span(v, b) == Span(s, b);
  }

  lemma LessUsage(s: State, v: State, a: nat)
    requires UsageOk(s) && AreasOk(s) && a in s.large
    requires v == s.(usage := s.usage[a := Large(0)], large := v.large)
    requires v.large == map k | k in s.large && k != a :: s.large[k]
    ensures UsageOk(v)
  {
    hide Tidy, Within, AllUsed, Distinct;
    assert a in Held(s);
    forall y: nat, k: nat | IsZone(v, y) && k < ZonePages(v)
      ensures UsageOf(v, y + k) == Small(k)
    {
      assert IsZone(s, y) && UsageOf(s, y + k) == Small(k);
      assert y in Held(s) && y != a && Apart(y, Span(s, y), a, Span(s, a));
    }
    forall b | b in v.large
      ensures UsageOf(v, b) == Large(v.large[b])
    {
      assert UsageOf(s, b) == Large(s.large[b]);
    }
  }

  // ---- Chunks -----------------------------------------------------------------------------

  /** A zone with as many free chunks as chunks has none in use. */
  lemma AllFree(s: State, x: Zone, c: nat)
    requires ZoneOk(s, x) && x.nfree == x.nmax
    ensures !InUse(x, c)
  {
    hide SizeOf;
    if c <= x.uindex && c !in x.freed {
      SingleDistinct(c);
      JoinDistinct(x.freed, [c]);
      DistinctBound(x.freed + [c], x.uindex + 1);
    }
  }

  lemma ReleaseChunk(s: State, addr: nat, z: nat, c: nat)
    requires Inv(s) && LiveChunk(s, addr, z, c)
    ensures Inv(Release(s, addr)) && Release(s, addr).large == s.large
    ensures Release(s, addr) == Settled(GiveBack(s, z, c), z)
  {
    hide Inv, GiveBack, Retire, ReleaseZone, Cleared;
    ChunkFacts(s, addr, z, c);
    HeaderFound(s, z, c);
    GiveBackKeeps(s, z, c);
    RetireKeeps(GiveBack(s, z, c), z);
    SettledKeeps(GiveBack(s, z, c), z);
    GiveBackIs(s, z, c);
  }

  lemma GiveBackIs(s: State, z: nat, c: nat)
    requires z in s.zones
    ensures GiveBack(s, z, c).large == s.large && GiveBack(s, z, c).zones.Keys == s.zones.Keys
    ensures GiveBack(s, z, c).zones[z] == s.zones[z].(freed := [c] + s.zones[z].freed, nfree := s.zones[z].nfree + 1)
    ensures forall y :: y in s.zones && y != z ==> GiveBack(s, z, c).zones[y] == s.zones[y]
  {
  }

  lemma ChunkFacts(s: State, addr: nat, z: nat, c: nat)
    requires Inv(s) && LiveChunk(s, addr, z, c)
    ensures z in s.zones && c < s.zones[z].nmax && ZoneOk(s, s.zones[z]) && addr == ChunkAt(z, s.zones[z], c)
  {
    hide SizeOf;
  }

  /** The last steps of rt_free. */
  function Settled(u: State, z: nat): State
    requires z in u.zones
  {
    var v := Retire(u, z);
    if z in v.zones then v else ReleaseZone(v)
  }

  lemma SettledKeeps(u: State, z: nat)
    requires Inv(u) && z in u.zones && 0 < u.zones[z].nfree
    ensures Inv(Settled(u, z)) && Settled(u, z).large == u.large
    ensures forall y :: y in Settled(u, z).zones <==> y in u.zones && (y != z || z in Retire(u, z).zones)
    ensures forall y :: y in Settled(u, z).zones ==> Settled(u, z).zones[y] == u.zones[y]
    ensures z !in Settled(u, z).zones ==> u.zones[z].nfree == u.zones[z].nmax
  {
    hide Inv, Cleared, Dropped;
    RetireKeeps(u, z);
    if z !in Retire(u, z).zones {
      ReleaseZoneKeeps(Retire(u, z));
    }
  }

  // ---- Pointers ---------------------------------------------------------------------------

  /** No address is a chunk of two zones, or a chunk and a large block. */
  lemma OneOwner(s: State, z: nat, c: nat, addr: nat)
    requires Inv(s) && z in s.zones && c < s.zones[z].nmax && addr == ChunkAt(z, s.zones[z], c)
    ensures addr / PAGE !in s.large
    ensures forall y, d :: LiveChunk(s, addr, y, d) ==> y == z && d == c
    ensures Live(s, addr) <==> InUse(s.zones[z], c)
  {
    hide Inv, ZoneOf, ChunkOf;
    HeaderFound(s, z, c);
    LargeMarked(s, addr / PAGE);
    forall y, d | LiveChunk(s, addr, y, d)
      ensures y == z && d == c
    {
      ChunkFacts(s, addr, y, d);
      HeaderFound(s, y, d);
    }
    assert LiveChunk(s, addr, z, c) <==> InUse(s.zones[z], c);
  }

  lemma LargeMarked(s: State, a: nat)
    requires Inv(s)
    ensures a in s.large ==> UsageOf(s, a) == Large(s.large[a])
  {
  }

  /** Freeing takes away exactly the pointer that was freed. */
  lemma ReleaseLive(s: State, addr: nat)
    requires Inv(s) && Live(s, addr)
    ensures Inv(Release(s, addr)) && forall q :: Live(Release(s, addr), q) <==> Live(s, q) && q != addr
  {
    hide Inv, Release;
    var r := Release(s, addr);
    if addr % PAGE == 0 && addr / PAGE in s.large {
      ReleaseLarge(s, addr / PAGE);
      assert addr == addr / PAGE * PAGE;
      forall q
        ensures Live(r, q) <==> Live(s, q) && q != addr
      {
        SameChunks(s, r, q);
        LargeNoChunk(s, addr);
      }
    } else {
      var z, c :| LiveChunk(s, addr, z, c);
      ReleaseChunk(s, addr, z, c);
      forall q
        ensures Live(r, q) <==> Live(s, q) && q != addr
      {
        ChunkGone(s, addr, z, c, q);
      }
    }
  }

  lemma SameChunks(s: State, r: State, q: nat)
    requires r.zones == s.zones
    ensures (exists z, c :: LiveChunk(r, q, z, c)) <==> (exists z, c :: LiveChunk(s, q, z, c))
  {
    assert forall z, c :: LiveChunk(r, q, z, c) <==> LiveChunk(s, q, z, c);
  }

  lemma LargeNoChunk(s: State, addr: nat)
    requires Inv(s)
    ensures forall z, c :: LiveChunk(s, addr, z, c) ==> addr / PAGE !in s.large
  {
    hide Inv;
    forall z, c | LiveChunk(s, addr, z, c)
      ensures addr / PAGE !in s.large
    {
      ChunkFacts(s, addr, z, c);
      OneOwner(s, z, c, addr);
    }
  }

  lemma ChunkGone(s: State, addr: nat, z: nat, c: nat, q: nat)
    requires Inv(s) && LiveChunk(s, addr, z, c) && Release(s, addr) == Settled(GiveBack(s, z, c), z)
    ensures Live(Release(s, addr), q) <==> Live(s, q) && q != addr
  {
    hide Inv, Release, GiveBack, Settled, InUse, ChunkAt;
    var u, r := GiveBack(s, z, c), Release(s, addr);
    ChunkFacts(s, addr, z, c);
    OneOwner(s, z, c, addr);
    GiveBackKeeps(s, z, c);
    GiveBackIs(s, z, c);
    SettledKeeps(u, z);
    GiveChunkOk(s, s.zones[z], c);
    SamePlace(s.zones[z], u.zones[z]);
    forall y, d
      ensures LiveChunk(r, q, y, d) <==> LiveChunk(s, q, y, d) && !(y == z && d == c)
    {
      if z !in r.zones {
        ChunkFactsOf(u, z);
        AllFree(u, u.zones[z], d);
      }
    }
    forall y, d | LiveChunk(s, q, y, d)
      ensures q == addr <==> y == z && d == c
    {
      ChunkFacts(s, q, y, d);
      OneOwner(s, y, d, q);
    }
  }

  lemma SamePlace(x: Zone, y: Zone)
    requires y.off == x.off && y.chunk == x.chunk
    ensures forall z, c :: ChunkAt(z, x, c) == ChunkAt(z, y, c)
  {
  }

  lemma ChunkFactsOf(s: State, z: nat)
    requires Inv(s) && z in s.zones
    ensures ZoneOk(s, s.zones[z])
  {
  }

  /** Allocating adds exactly the pointer that is returned, which nobody had. */
  lemma FromZoneLive(s: State, i: nat)
    requires Inv(s) && ListOf(s, i) != [] && ListOf(s, i)[0] in s.zones
    ensures var (r, p) := FromZone(s, i); p.To? && !Live(s, p.addr) && forall q :: Live(r, q) <==> Live(s, q) || q == p.addr
  {
    hide Inv, InUse, ChunkAt, TakeChunk, NextChunk;
    var z := ListOf(s, i)[0];
    var x := s.zones[z];
    var (r, p) := FromZone(s, i);
    ChunkFactsOf(s, z);
    FirstHasFree(s, i);
    TakeChunkOk(s, x);
    TakeChunkIs(x);
    SamePlace(x, TakeChunk(x));
    OneOwner(s, z, NextChunk(x), p.addr);
    forall q, y, d
      ensures LiveChunk(r, q, y, d) <==>
        LiveChunk(s, q, y, d) || (y == z && d == NextChunk(x) && q == p.addr)
    {
    }
    assert LiveChunk(r, p.addr, z, NextChunk(x));
  }

  lemma FirstHasFree(s: State, i: nat)
    requires Inv(s) && ListOf(s, i) != []
    ensures ListOf(s, i)[0] in s.zones && 0 < s.zones[ListOf(s, i)[0]].nfree
  {
    hide SizesOk, ZonesOk, UsageOk, AreasOk;
    assert ListOf(s, i)[0] in ListOf(s, i);
  }

  /** The first chunk of a zone that was put into service. */
  lemma WithZoneLive(s: State, z: nat, size: nat)
    requires Inv(s) && Reserved(s, z) && 0 < size < s.zoneLimit
    ensures var (i, chunk) := ZoneIndex(size); 0 <= i && 0 < chunk
    ensures var (r, p) := WithZone(s, z, ZoneIndex(size).0, ZoneIndex(size).1);
      p.To? && !Live(s, p.addr) && forall q :: Live(r, q) <==> Live(s, q) || q == p.addr
  {
    hide Inv, ZoneIndex, Reserved, Suits, ChunkAt, ZoneOk;
    SizesOf(s);
    ZoneIndexIs(size);
    IndexOk(size);
    NewZoneOk(s, size);
    WithZoneKeeps(s, z, size);
    var (i, chunk) := ZoneIndex(size);
    var x := NewZone(s, i, chunk);
    var (r, p) := WithZone(s, z, i, chunk);
    NewUse(s, i, chunk);
    ReservedNew(s, z);
    OneOwner(r, z, 0, p.addr);
    forall q, y, d
      ensures LiveChunk(r, q, y, d) <==> LiveChunk(s, q, y, d) || (y == z && d == 0 && q == p.addr)
    {
    }
    assert LiveChunk(r, p.addr, z, 0);
  }

  lemma NewUse(s: State, i: nat, chunk: nat)
    requires 0 < chunk
    ensures forall c :: InUse(NewZone(s, i, chunk), c) <==> c == 0
  {
    hide Offset;
  }

  lemma ReservedNew(s: State, z: nat)
    requires Reserved(s, z)
    ensures z !in s.zones
  {
  }

  lemma FromPagesLive(s: State, size: nat)
    requires Inv(s) && 0 < size
    ensures var (r, p) := FromPages(s, size);
      if p.To? then !Live(s, p.addr) && forall q :: Live(r, q) <==> Live(s, q) || q == p.addr
      else r == s
  {
    hide Inv, LiveChunk;
    var (r, p) := FromPages(s, size);
    if p.To? {
      var a := p.addr / PAGE;
      PageNew(s, size);
      FromPagesKeeps(s, size);
      LargeNoChunk(r, p.addr);
      SameChunks(s, r, p.addr);
      forall q
        ensures Live(r, q) <==> Live(s, q) || q == p.addr
      {
        SameChunks(s, r, q);
      }
      NoChunk(s, r, p.addr);
    }
  }

  lemma NoChunk(s: State, r: State, addr: nat)
    requires r.zones == s.zones && addr / PAGE in r.large
    requires forall z, c :: LiveChunk(r, addr, z, c) ==> addr / PAGE !in r.large
    ensures !exists z, c :: LiveChunk(s, addr, z, c)
  {
    assert forall z, c :: LiveChunk(r, addr, z, c) <==> LiveChunk(s, addr, z, c);
  }

  lemma PageNew(s: State, size: nat)
    requires Inv(s) && 0 < size && FromPages(s, size).1.To?
    ensures var (r, p) := FromPages(s, size);
      p.addr % PAGE == 0 && p.addr / PAGE !in s.large && r.large.Keys == s.large.Keys + {p.addr / PAGE} && r.zones == s.zones
  {
    hide AllUsed, Tidy, Within, SizesOk, ZonesOk, UsageOk, ArrayOk;
    var n := (size + PAGE - 1) / PAGE;
    var (g, runs) := Alloc(s.runs, n);
    Granted(s, n);
    forall b | b in Held(s)
      ensures b != g.page
    {
      assert Apart(b, Span(s, b), g.page, n);
    }
    assert g.page !in Held(s);
  }

  /** Main result on rt_malloc: it fails without changing anything, or returns a pointer that
      nobody has, and changes no other. */
  lemma MallocLive(s: State, size: nat)
    requires Inv(s)
    ensures ListsKnown(s) && s.zoneLimit <= MAX_LIMIT
    ensures var (r, p) := Malloc(s, size);
      if p.To? then !Live(s, p.addr) && forall q :: Live(r, q) <==> Live(s, q) || q == p.addr
      else r == s
  {
    hide Inv, ZoneIndex, FromZone, WithZone, FromPages, Suits, Reserved, Live, Marked;
    ListsKnownOf(s);
    SizesOf(s);
    if 0 < size < s.zoneLimit {
      ZoneIndexIs(size);
      IndexOk(size);
      var (i, chunk) := ZoneIndex(size);
      if ListOf(s, i) != [] {
        FirstHasFree(s, i);
        FromZoneLive(s, i);
      } else if s.zoneFree != [] {
        var u := s.(zoneFree := s.zoneFree[1..]);
        PopZone(s);
        WithZoneLive(u, s.zoneFree[0], size);
        LiveSame(s, u);
        SameLive(s, u, Malloc(s, size).1.addr);
      } else if Alloc(s.runs, ZonePages(s)).0.At? {
        NewPages(s);
        var (g, runs) := Alloc(s.runs, ZonePages(s));
        var u := s.(runs := runs, usage := Marked(s.usage, g.page, ZonePages(s)));
        WithZoneLive(u, g.page, size);
        LiveSame(s, u);
        SameLive(s, u, Malloc(s, size).1.addr);
      }
    } else if 0 < size {
      FromPagesLive(s, size);
    }
  }

  lemma LiveSame(s: State, u: State)
    requires u.zones == s.zones && u.large == s.large
    ensures forall q :: Live(u, q) <==> Live(s, q)
  {
    hide LiveChunk;
    forall q
      ensures Live(u, q) <==> Live(s, q)
    {
      SameLive(s, u, q);
    }
  }

  lemma SameLive(s: State, u: State, q: nat)
    requires u.zones == s.zones && u.large == s.large
    ensures Live(u, q) <==> Live(s, q)
  {
    assert forall z, c :: LiveChunk(u, q, z, c) <==> LiveChunk(s, q, z, c);
  }
}
