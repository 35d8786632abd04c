/** What allocation and release keep in the slab allocator, and what follows for every run. */
module SlabLemmas {
  import opened Division
  import opened PageRuns
  import opened Sequences
  import opened SlabModel

  // ---- Zones ------------------------------------------------------------------------------

  /** Every new zone has room for at least two chunks. */
  lemma NewZoneOk(s: State, size: nat)
    requires SizesOk(s) && 0 < size < s.zoneLimit
    ensures var (i, chunk) := ZoneIndex(size); ZoneOk(s, NewZone(s, i, chunk)) && size <= chunk
    ensures NewZone(s, ZoneIndex(size).0, ZoneIndex(size).1).nmax >= 2
  {
    hide Offset, ZoneIndex, SizeOf;
    ZoneIndexIs(size);
    var (i, chunk) := ZoneIndex(size);
    ChunkLimit(s, size);
    OffsetIs(chunk);
    var room := s.zoneSize - Offset(chunk);
    RoundedDown(room, chunk);
    AtLeastTwo(room, chunk);
  }

  lemma ChunkLimit(s: State, size: nat)
    requires SizesOk(s) && 0 < size < s.zoneLimit
    ensures ZoneIndex(size).1 <= s.zoneLimit
  {
    hide Row;
    if size < 8192 {
      RowIs(size, 512, 47);
      ZoneIndexIs(size);
    } else {
      ZoneIndexIs(size);
    }
  }

  lemma AtLeastTwo(room: nat, chunk: nat)
    requires 0 < chunk && 2 * chunk <= room
    ensures 2 <= room / chunk
  {
    var more := room - 2 * chunk;
    assert more == more / chunk * chunk + more % chunk;
    assert room == (more / chunk + 2) * chunk + more % chunk;
    Quotient(room, more / chunk + 2, more % chunk, chunk);
  }

  /** Chunks of a zone lie inside the zone, behind its header, and do not overlap. */
  lemma ChunksInside(s: State, z: nat, x: Zone, c: nat)
    requires ZoneOk(s, x) && c < x.nmax
    ensures z * PAGE + HEADER <= ChunkAt(z, x, c)
    ensures ChunkAt(z, x, c) + x.chunk <= z * PAGE + s.zoneSize
  {
    hide Offset, SizeOf, Distinct;
    Bigger(c, x.nmax, x.chunk);
  }

  lemma ChunksApart(s: State, z: nat, x: Zone, c: nat, d: nat)
    requires ZoneOk(s, x) && c < d
    ensures ChunkAt(z, x, c) + x.chunk <= ChunkAt(z, x, d)
  {
    hide Offset, SizeOf, Distinct;
    Bigger(c, d, x.chunk);
  }

  lemma TakeChunkOk(s: State, x: Zone)
    requires ZoneOk(s, x) && 0 < x.nfree
    ensures ZoneOk(s, TakeChunk(x)) && !InUse(x, NextChunk(x)) && NextChunk(x) < x.nmax
    ensures forall c :: InUse(TakeChunk(x), c) <==> InUse(x, c) || c == NextChunk(x)
  {
    if x.uindex + 1 == x.nmax {
      assert x.freed != [];
      TailDistinct(x.freed);
      assert x.freed[0] in x.freed;
    }
  }

  lemma GiveChunkOk(s: State, x: Zone, c: nat)
    requires ZoneOk(s, x) && InUse(x, c)
    ensures var y := x.(freed := [c] + x.freed, nfree := x.nfree + 1);
      && ZoneOk(s, y) && 0 < y.nfree && forall d :: InUse(y, d) <==> InUse(x, d) && d != c
  {
    SingleDistinct(c);
    JoinDistinct([c], x.freed);
  }

  // ---- Header lookup ----------------------------------------------------------------------

  /** From the address of any chunk memusage leads back to the header of its zone, and from there
      to the number of the chunk. */
  lemma HeaderFound(s: State, z: nat, c: nat)
    requires Inv(s) && z in s.zones && c < s.zones[z].nmax
    ensures var addr := ChunkAt(z, s.zones[z], c);
      ZoneOf(s, addr) == z && ChunkOf(z, s.zones[z], addr) == c && UsageOf(s, addr / PAGE).Small?
  {
    hide ArrayOk, AreasOk, ZoneOk, ChunkAt, ChunkOf;
    var x, addr := s.zones[z], ChunkAt(z, s.zones[z], c);
    assert ZoneOk(s, x);
    ChunksInside(s, z, x, c);
    NumberFound(s, z, x, c);
    InZone(s, z, addr);
    var k := addr / PAGE - z;
    assert IsZone(s, z) && UsageOf(s, z + k) == Small(k);
  }

  lemma InZone(s: State, z: nat, addr: nat)
    requires SizesOk(s) && z * PAGE <= addr < z * PAGE + s.zoneSize
    ensures 0 <= addr / PAGE - z < ZonePages(s)
  {
  }

  lemma NumberFound(s: State, z: nat, x: Zone, c: nat)
    requires ZoneOk(s, x) && c < x.nmax
    ensures ChunkOf(z, x, ChunkAt(z, x, c)) == c && 0 < x.chunk
  {
    hide Offset, SizeOf, Distinct;
    assert ChunkAt(z, x, c) - (z * PAGE + x.off) == c * x.chunk;
    Quotient(c * x.chunk, c, 0, x.chunk);
  }

  // ---- From an existing zone --------------------------------------------------------------

  /** Replacing one zone by another of the same index. */
  lemma SwapZone(s: State, r: State, z: nat, x: Zone)
    requires z in s.zones && r == s.(zones := s.zones[z := x], zoneArray := r.zoneArray)
    requires SizesOk(s) && ZonesOk(s) && UsageOk(s) && AreasOk(s) && ZoneOk(s, x)
    ensures SizesOk(r) && ZonesOk(r) && UsageOk(r) && AreasOk(r)
  {
    hide SizeOf, Apart, AllUsed, Tidy, Within, Distinct, ZoneOk;
    assert r.zones.Keys == s.zones.Keys;
    assert Held(r) == Held(s);
    forall y | y in r.zones
      ensures ZoneOk(r, r.zones[y])
    {
      assert ZoneOk(s, r.zones[y]);
      SameSize(s, r, r.zones[y]);
    }
    forall y: nat, k: nat | IsZone(r, y) && k < ZonePages(r)
      ensures UsageOf(r, y + k) == Small(k)
    {
      assert IsZone(s, y);
      assert UsageOf(s, y + k) == Small(k);
    }
    forall a | a in r.large
      ensures UsageOf(r, a) == Large(r.large[a])
    {
      assert UsageOf(s, a) == Large(s.large[a]);
    }
    forall a
      ensures Span(r, a) == Span(s, a)
    {
    }
  }

  lemma SameSize(s: State, r: State, x: Zone)
    requires ZoneOk(s, x) && r.zoneSize == s.zoneSize
    ensures ZoneOk(r, x)
  {
  }

  lemma FromZoneKeeps(s: State, i: nat)
    requires Inv(s) && ListOf(s, i) != [] && ListOf(s, i)[0] in s.zones
    ensures Inv(FromZone(s, i).0)
  {
    hide SizesOk, UsageOk, AreasOk, TakeChunk, SizeOf, NextChunk;
    var z := ListOf(s, i)[0];
    var x, r := s.zones[z], FromZone(s, i).0;
    assert z in ListOf(s, i) && ZoneOk(s, x);
    TakeChunkOk(s, x);
    TakeChunkIs(x);
    SwapZone(s, r, z, TakeChunk(x));
    FromZoneArray(s, i);
  }

  lemma TakeChunkIs(x: Zone)
    ensures TakeChunk(x).index == x.index && TakeChunk(x).nfree == x.nfree - 1
    ensures TakeChunk(x).chunk == x.chunk && TakeChunk(x).off == x.off
  {
  }

  lemma FromZoneArray(s: State, i: nat)
    requires ArrayOk(s) && ListOf(s, i) != [] && ListOf(s, i)[0] in s.zones
    ensures ArrayOk(FromZone(s, i).0)
  {
    hide TakeChunk, NextChunk, Distinct;
    var list := ListOf(s, i);
    var z, r := list[0], FromZone(s, i).0;
    TailDistinct(list);
    assert z in list;
    TakeChunkIs(s.zones[z]);
    assert forall j :: ListOf(r, j) == if j == i && s.zones[z].nfree == 1 then list[1..] else ListOf(s, j);
    forall j
      ensures Distinct(ListOf(r, j))
    {
      assert Distinct(ListOf(s, j));
    }
  }

  // ---- A new zone -------------------------------------------------------------------------

  /** An area of zone size that belongs to nobody yet, but is marked as a zone. */
  ghost predicate Reserved(s: State, z: nat) {
    && z !in Held(s) && 0 < ZonePages(s) && z + ZonePages(s) <= s.total && AllUsed(s.runs, z, ZonePages(s))
    && (forall a :: a in Held(s) ==> Apart(a, Span(s, a), z, ZonePages(s)))
    && (forall k: nat :: k < ZonePages(s) ==> UsageOf(s, z + k) == Small(k))
  }

  lemma WithZoneKeeps(s: State, z: nat, size: nat)
    requires Inv(s) && Reserved(s, z) && 0 < size < s.zoneLimit
    ensures var (i, chunk) := ZoneIndex(size); 0 <= i && 0 < chunk && Inv(WithZone(s, z, i, chunk).0)
  {
    hide UsageOk, ArrayOk, AreasOk, NewZone, ZoneIndex, SizeOf, Reserved, ZoneOk, ZonesOk;
    NewZoneOk(s, size);
    ZoneIndexIs(size);
    var (i, chunk) := ZoneIndex(size);
    var x, r := NewZone(s, i, chunk), WithZone(s, z, i, chunk).0;
    NewZoneIs(s, i, chunk);
    AddedZones(s, r, z, x);
    AddedUsage(s, r, z, x);
    AddedAreas(s, r, z, x);
    AddedArray(s, r, z, x);
  }

  lemma NewZoneIs(s: State, i: nat, chunk: nat)
    requires 0 < chunk && NewZone(s, i, chunk).nmax >= 2
    ensures NewZone(s, i, chunk).index == i && 0 < NewZone(s, i, chunk).nfree
  {
    hide Offset;
  }

  ghost predicate Adds(s: State, r: State, z: nat, x: Zone) {
    r == s.(zones := s.zones[z := x], zoneArray := s.zoneArray[x.index := [z] + ListOf(s, x.index)])
  }

  lemma AddedZones(s: State, r: State, z: nat, x: Zone)
    requires ZonesOk(s) && Adds(s, r, z, x) && ZoneOk(s, x)
    ensures ZonesOk(r)
  {
    hide SizeOf, Distinct;
    forall y | y in r.zones
      ensures ZoneOk(r, r.zones[y])
    {
      assert y != z ==> ZoneOk(s, s.zones[y]);
    }
  }

  lemma AddedUsage(s: State, r: State, z: nat, x: Zone)
    requires UsageOk(s) && Adds(s, r, z, x) && Reserved(s, z)
    ensures UsageOk(r)
  {
    hide Apart, AllUsed, Held;
    forall y: nat, k: nat | IsZone(r, y) && k < ZonePages(r)
      ensures UsageOf(r, y + k) == Small(k)
    {
      assert UsageOf(r, y + k) == UsageOf(s, y + k);
      assert y == z || IsZone(s, y);
    }
    forall a | a in r.large
      ensures UsageOf(r, a) == Large(r.large[a])
    {
      assert UsageOf(s, a) == Large(s.large[a]);
    }
  }

  lemma AddedAreas(s: State, r: State, z: nat, x: Zone)
    requires AreasOk(s) && Adds(s, r, z, x) && Reserved(s, z)
    ensures AreasOk(r)
  {
    hide AllUsed, Tidy, Within, Distinct;
    assert Held(r) == Held(s) + {z};
    assert forall a :: Span(r, a) == Span(s, a);
    assert Span(s, z) == ZonePages(s);
  }

  lemma AddedArray(s: State, r: State, z: nat, x: Zone)
    requires ArrayOk(s) && Adds(s, r, z, x) && Reserved(s, z) && 0 < x.nfree
    ensures ArrayOk(r)
  {
    hide Distinct, Apart, AllUsed;
    assert z !in s.zones;
    var list := ListOf(s, x.index);
    assert z !in list;
    SingleDistinct(z);
    JoinDistinct([z], list);
    assert forall j :: ListOf(r, j) == if j == x.index then [z] + list else ListOf(s, j);
    forall j
      ensures Distinct(ListOf(r, j))
    {
      assert Distinct(ListOf(s, j));
    }
  }

  /** The newest zone out of service. */
  lemma PopZone(s: State)
    requires Inv(s) && s.zoneFree != []
    ensures var r := s.(zoneFree := s.zoneFree[1..]); Inv(r) && Reserved(r, s.zoneFree[0])
  {
    hide AllUsed, Tidy, Within, SizeOf, Distinct;
    var z, r := s.zoneFree[0], s.(zoneFree := s.zoneFree[1..]);
    TailDistinct(s.zoneFree);
    assert s.zoneFree == [z] + s.zoneFree[1..];
    assert z in Held(s) && z in s.zoneFree && IsZone(s, z);
    SameZones(s, r);
    assert Held(r) == Held(s) - {z};
    assert forall a :: Span(r, a) == Span(s, a);
    forall y: nat, k: nat | IsZone(r, y) && k < ZonePages(r)
      ensures UsageOf(r, y + k) == Small(k)
    {
      assert IsZone(s, y) && UsageOf(s, y + k) == Small(k);
    }
    forall k: nat | k < ZonePages(s)
      ensures UsageOf(r, z + k) == Small(k)
    {
      assert UsageOf(s, z + k) == Small(k);
    }
  }

  lemma SameZones(s: State, r: State)
    requires SizesOk(s) && ZonesOk(s) && ArrayOk(s)
    requires r.zones == s.zones && r.zoneArray == s.zoneArray && r.zoneSize == s.zoneSize && r.zoneLimit == s.zoneLimit
    ensures SizesOk(r) && ZonesOk(r) && ArrayOk(r)
  {
    hide SizeOf, Distinct;
    forall z | z in r.zones
      ensures ZoneOk(r, r.zones[z])
    {
      assert ZoneOk(s, s.zones[z]);
    }
    assert forall j :: ListOf(r, j) == ListOf(s, j);
    forall j
      ensures Distinct(ListOf(r, j))
    {
      assert Distinct(ListOf(s, j));
    }
  }

  // ---- Pages ------------------------------------------------------------------------------

  lemma NoCommonPage(runs: seq<Run>, a: nat, n: nat, b: nat, m: nat)
    requires AllUsed(runs, a, n) && 0 < n && 0 < m && forall p :: b <= p < b + m ==> IsFree(runs, p)
    ensures Apart(a, n, b, m)
  {
    var p := if a < b then b else a;
    assert forall q: nat :: a <= q < a + n && IsFree(runs, q) ==> !(b <= q < b + m);
    assert b <= p < b + m ==> IsFree(runs, p);
  }

  /** What a successful page allocation means for the areas. */
  lemma Granted(s: State, n: nat)
    requires AreasOk(s) && 0 < n && Alloc(s.runs, n).0.At?
    ensures var (g, r) := Alloc(s.runs, n);
      && Tidy(r) && Within(r, 0, s.total) && g.page + n <= s.total && AllUsed(r, g.page, n)
      && (forall a :: a in Held(s) ==> AllUsed(r, a, Span(s, a)) && Apart(a, Span(s, a), g.page, n))
  {
    hide Tidy, Within, IsFree, Apart;
    var (g, r) := Alloc(s.runs, n);
    AllocTidy(s.runs, n);
    AllocWithin(s.runs, n, 0, s.total);
    FitInside(s.runs, n, s.total);
    forall p: nat
      ensures IsFree(r, p) ==> IsFree(s.runs, p)
      ensures g.page <= p < g.page + n ==> IsFree(s.runs, p) && !IsFree(r, p)
    {
      AllocPages(s.runs, n, p);
    }
    forall a | a in Held(s)
      ensures AllUsed(r, a, Span(s, a)) && Apart(a, Span(s, a), g.page, n)
    {
      NoCommonPage(s.runs, a, Span(s, a), g.page, n);
    }
  }

  lemma FitInside(runs: seq<Run>, n: nat, total: nat)
    requires Within(runs, 0, total) && Alloc(runs, n).0.At?
    ensures Alloc(runs, n).0.page + n <= total
  {
    AllocFailsIff(runs, n);
  }

  lemma {:induction false} MarkedAt(usage: map<nat, Usage>, z: nat, n: nat, p: nat)
    ensures z <= p < z + n ==> p in Marked(usage, z, n) && Marked(usage, z, n)[p] == Small(p - z)
    ensures !(z <= p < z + n) ==> (p in Marked(usage, z, n) <==> p in usage)
    ensures !(z <= p < z + n) && p in usage ==> Marked(usage, z, n)[p] == usage[p]
  {
    if n > 0 {
      MarkedAt(usage, z, n - 1, p);
    }
  }

  lemma {:induction false} ClearedElsewhere(usage: map<nat, Usage>, z: nat, n: nat, p: nat)
    requires p < z || z + n <= p
    ensures p in Cleared(usage, z, n) <==> p in usage
    ensures p in usage ==> Cleared(usage, z, n)[p] == usage[p]
  {
    if n > 0 {
      ClearedElsewhere(usage, z, n - 1, p);
    }
  }

  /** Only usage entries outside of every area held may change. */
  lemma UsageElsewhere(s: State, r: State, z: nat, n: nat)
    requires UsageOk(s) && AreasOk(s)
    requires r.zones == s.zones && r.zoneFree == s.zoneFree && r.large == s.large && r.zoneSize == s.zoneSize
    requires forall a :: a in Held(s) ==> Apart(a, Span(s, a), z, n)
    requires forall p: nat :: p < z || z + n <= p ==> UsageOf(r, p) == UsageOf(s, p)
    ensures UsageOk(r)
  {
    hide Tidy, Within, AllUsed, Distinct;
    forall y: nat, k: nat | IsZone(r, y) && k < ZonePages(r)
      ensures UsageOf(r, y + k) == Small(k)
    {
      assert IsZone(s, y) && UsageOf(s, y + k) == Small(k);
      assert y in Held(s) && Span(s, y) == ZonePages(s);
      assert Apart(y, Span(s, y), z, n);
    }
    forall a | a in r.large
      ensures UsageOf(r, a) == Large(r.large[a])
    {
      assert UsageOf(s, a) == Large(s.large[a]) && a in Held(s);
      assert Apart(a, Span(s, a), z, n) && 0 < Span(s, a);
    }
  }

  /** Fresh pages, marked as a zone. */
  lemma NewPages(s: State)
    requires Inv(s) && Alloc(s.runs, ZonePages(s)).0.At?
    ensures var (g, r) := Alloc(s.runs, ZonePages(s));
      var u := s.(runs := r, usage := Marked(s.usage, g.page, ZonePages(s)));
      Inv(u) && Reserved(u, g.page)
  {
    hide UsageOk, ZoneOk, ArrayOk, Tidy, Within, AllUsed, SizeOf, Distinct, Marked;
    var n := ZonePages(s);
    assert 8 <= n;
    var (g, r) := Alloc(s.runs, n);
    var u := s.(runs := r, usage := Marked(s.usage, g.page, n));
    Granted(s, n);
    forall p: nat
      ensures UsageOf(u, p) == if g.page <= p < g.page + n then Small(p - g.page) else UsageOf(s, p)
    {
      MarkedAt(s.usage, g.page, n, p);
    }
    SameZones(s, u);
    UsageElsewhere(s, u, g.page, n);
    assert Held(u) == Held(s);
    assert forall a :: Span(u, a) == Span(s, a);
    forall a | a in Held(s)
      ensures a != g.page
    {
      assert Apart(a, Span(s, a), g.page, n);
    }
  }

  /** Whole pages handed out as a large block. */
  lemma FromPagesKeeps(s: State, size: nat)
    requires Inv(s) && 0 < size
    ensures Inv(FromPages(s, size).0)
  {
    hide UsageOk, ZoneOk, ArrayOk, AreasOk, SizeOf, AllUsed, Apart;
    var n := (size + PAGE - 1) / PAGE;
    var (g, runs) := Alloc(s.runs, n);
    if g.At? {
      var a, r := g.page, FromPages(s, size).0;
      SameZones(s, r);
      LargeAreas(s, r, a, n);
      FirstPage(s, a, n);
      UsageElsewhere(s, r.(large := s.large), a, 1);
      MoreLarge(s, r, a, n);
    }
  }

  lemma LargeAreas(s: State, r: State, a: nat, n: nat)
    requires AreasOk(s) && 0 < n && Alloc(s.runs, n).0 == At(a)
    requires r == s.(runs := Alloc(s.runs, n).1, usage := r.usage, large := s.large[a := n])
    ensures AreasOk(r)
  {
    hide Tidy, Within, AllUsed, Distinct, Apart;
    Granted(s, n);
    NotHeld(s, a, n);
    assert Held(r) == Held(s) + {a};
    assert forall b :: b in Held(s) ==> Span(r, b) == Span(s, b);
    forall b, c | b in Held(r) && c in Held(r) && b != c
      ensures Apart(b, Span(r, b), c, Span(r, c))
    {
      if c == a {
        assert Apart(b, Span(s, b), a, n);
      } else if b == a {
        assert Apart(c, Span(s, c), a, n);
        ApartBoth(c, Span(s, c), a, n);
      }
    }
  }

  lemma ApartBoth(a: nat, n: nat, b: nat, m: nat)
    ensures Apart(a, n, b, m) <==> Apart(b, m, a, n)
  {
  }

  lemma NotHeld(s: State, a: nat, n: nat)
    requires forall b :: b in Held(s) ==> 0 < Span(s, b) && Apart(b, Span(s, b), a, n)
    requires 0 < n
    ensures a !in Held(s)
  {
    hide Held, Span;
    forall b | b in Held(s)
      ensures b != a
    {
      assert Apart(b, Span(s, b), a, n);
    }
  }

  lemma FirstPage(s: State, a: nat, n: nat)
    requires AreasOk(s) && 0 < n && Alloc(s.runs, n).0 == At(a)
    ensures forall b :: b in Held(s) ==> Apart(b, Span(s, b), a, 1)
  {
    hide AreasOk, AllUsed, Tidy, Within;
    Granted(s, n);
    forall b | b in Held(s)
      ensures Apart(b, Span(s, b), a, 1)
    {
      assert Apart(b, Span(s, b), a, n);
    }
  }

  lemma MoreLarge(s: State, r: State, a: nat, n: nat)
    requires UsageOk(r.(large := s.large)) && r.large == s.large[a := n] && UsageOf(r, a) == Large(n)
    ensures UsageOk(r)
  {
    var u := r.(large := s.large);
    forall y: nat, k: nat | IsZone(r, y) && k < ZonePages(r)
      ensures UsageOf(r, y + k) == Small(k)
    {
      assert IsZone(u, y) && UsageOf(u, y + k) == Small(k);
    }
    forall b | b in r.large
      ensures UsageOf(r, b) == Large(r.large[b])
    {
      assert b != a ==> UsageOf(u, b) == Large(s.large[b]);
    }
  }

  lemma ListsKnownOf(s: State)
    requires Inv(s)
    ensures ListsKnown(s)
  {
    hide SizesOk, ZonesOk, UsageOk, AreasOk;
    forall i | i in s.zoneArray && s.zoneArray[i] != []
      ensures s.zoneArray[i][0] in s.zones
    {
      assert s.zoneArray[i][0] in ListOf(s, i);
    }
  }

  lemma FromNewZoneKeeps(s: State, size: nat)
    requires Inv(s) && 0 < size < s.zoneLimit
    ensures var (i, chunk) := ZoneIndex(size); 0 <= i && 0 < chunk && Inv(FromNewZone(s, i, chunk).0)
  {
    hide Inv, ZoneIndex, WithZone, Marked, Reserved;
    SizesOf(s);
    ZoneIndexIs(size);
    if s.zoneFree != [] {
      PopZone(s);
      WithZoneKeeps(s.(zoneFree := s.zoneFree[1..]), s.zoneFree[0], size);
    } else if Alloc(s.runs, ZonePages(s)).0.At? {
      NewPages(s);
      var (g, r) := Alloc(s.runs, ZonePages(s));
      WithZoneKeeps(s.(runs := r, usage := Marked(s.usage, g.page, ZonePages(s))), g.page, size);
    }
  }

  lemma SizesOf(s: State)
    requires Inv(s)
    ensures SizesOk(s)
  {
  }

  /** rt_malloc keeps the heap right. */
  lemma MallocKeeps(s: State, size: nat)
    requires Inv(s)
    ensures ListsKnown(s) && s.zoneLimit <= MAX_LIMIT && Inv(Malloc(s, size).0)
  {
    hide Inv, ZoneIndex, FromZone, FromNewZone, FromPages, Suits;
    ListsKnownOf(s);
    SizesOf(s);
    if 0 < size < s.zoneLimit {
      ZoneIndexIs(size);
      IndexOk(size);
      var (i, chunk) := ZoneIndex(size);
      if ListOf(s, i) != [] {
        FromZoneKeeps(s, i);
      } else {
        FromNewZoneKeeps(s, size);
      }
    } else if 0 < size {
      FromPagesKeeps(s, size);
    }
  }

  lemma IndexOk(size: nat)
    requires 0 < size < MAX_LIMIT
    ensures 0 <= ZoneIndex(size).0 && 0 < ZoneIndex(size).1
  {
    hide ZoneIndex;
    ZoneIndexIs(size);
  }

  // ---- Freeing ----------------------------------------------------------------------------

  lemma GiveBackKeeps(s: State, z: nat, c: nat)
    requires Inv(s) && z in s.zones && InUse(s.zones[z], c)
    ensures Inv(GiveBack(s, z, c)) && z in GiveBack(s, z, c).zones && 0 < GiveBack(s, z, c).zones[z].nfree
  {
    hide SizesOk, UsageOk, AreasOk, ArrayOk, SizeOf, Distinct;
    var x := s.zones[z];
    assert ZoneOk(s, x);
    GiveChunkOk(s, x, c);
    SwapZone(s, GiveBack(s, z, c), z, x.(freed := [c] + x.freed, nfree := x.nfree + 1));
    GiveBackArray(s, z, c);
  }

  lemma GiveBackArray(s: State, z: nat, c: nat)
    requires ArrayOk(s) && z in s.zones && 0 <= s.zones[z].nfree
    ensures ArrayOk(GiveBack(s, z, c))
  {
    hide Distinct;
    var x, r := s.zones[z], GiveBack(s, z, c);
    var list := ListOf(s, x.index);
    if x.nfree == 0 {
      assert z !in list;
      SingleDistinct(z);
      JoinDistinct([z], list);
    }
    assert forall j :: ListOf(r, j) == if j == x.index && x.nfree == 0 then [z] + list else ListOf(s, j);
    forall j
      ensures Distinct(ListOf(r, j))
    {
      assert Distinct(ListOf(s, j));
    }
  }

  lemma {:induction false} DroppedHas(list: seq<nat>, z: nat)
    requires Distinct(list)
    ensures Distinct(Dropped(list, z)) && forall y :: y in Dropped(list, z) <==> y in list && y != z
  {
    hide Distinct;
    if list != [] {
      TailDistinct(list);
      DroppedHas(list[1..], z);
      if list[0] != z {
        SingleDistinct(list[0]);
        JoinDistinct([list[0]], Dropped(list[1..], z));
      }
    } else {
      NoneDistinct();
    }
  }

  lemma NoneDistinct()
    ensures Distinct<nat>([])
  {
  }

  lemma RetireKeeps(s: State, z: nat)
    requires Inv(s) && z in s.zones && 0 < s.zones[z].nfree
    ensures Inv(Retire(s, z))
  {
    hide ZoneOk, ArrayOk, UsageOk, AllUsed, Tidy, Within, Distinct, Dropped;
    var x, r := s.zones[z], Retire(s, z);
    if x.nfree == x.nmax && ListOf(s, x.index) != [z] {
      RetireArray(s, z);
      RetireZones(s, z);
      assert z in Held(s);
      assert Held(r) == Held(s);
      assert forall a :: Span(r, a) == Span(s, a);
      SingleDistinct(z);
      JoinDistinct([z], s.zoneFree);
    }
  }

  lemma RetireArray(s: State, z: nat)
    requires ArrayOk(s) && z in s.zones && 0 < s.zones[z].nfree
    ensures ArrayOk(Retire(s, z))
  {
    hide Distinct, Dropped;
    var x, r := s.zones[z], Retire(s, z);
    if x.nfree == x.nmax && ListOf(s, x.index) != [z] {
      DroppedHas(ListOf(s, x.index), z);
      assert forall j :: ListOf(r, j) == if j == x.index then Dropped(ListOf(s, x.index), z) else ListOf(s, j);
      forall j
        ensures Distinct(ListOf(r, j))
      {
        assert Distinct(ListOf(s, j));
      }
    }
  }

  lemma RetireZones(s: State, z: nat)
    requires ZonesOk(s) && UsageOk(s) && z in s.zones
    ensures ZonesOk(Retire(s, z)) && UsageOk(Retire(s, z))
  {
    hide SizeOf, Distinct, Dropped;
    var r := Retire(s, z);
    forall y | y in r.zones
      ensures ZoneOk(r, r.zones[y])
    {
      assert ZoneOk(s, s.zones[y]);
    }
    forall y: nat, k: nat | IsZone(r, y) && k < ZonePages(r)
      ensures UsageOf(r, y + k) == Small(k)
    {
      assert IsZone(s, y) && UsageOf(s, y + k) == Small(k);
    }
    forall a | a in r.large
      ensures UsageOf(r, a) == Large(r.large[a])
    {
      assert UsageOf(s, a) == Large(s.large[a]);
    }
  }

  /** Pages that nobody holds go back to the page allocator. */
  lemma FreedAreas(s: State, a: nat, n: nat)
    requires AreasOk(s) && 0 < n && a + n <= s.total && AllUsed(s.runs, a, n)
    requires forall b :: b in Held(s) ==> Apart(b, Span(s, b), a, n)
    ensures AreasOk(s.(runs := Free(s.runs, a, n)))
  {
    hide Tidy, Within, IsFree, Distinct;
    var r := s.(runs := Free(s.runs, a, n));
    FreeTidy(s.runs, a, n);
    FreeWithin(s.runs, a, n, 0, s.total);
    assert Held(r) == Held(s);
    assert forall b :: Span(r, b) == Span(s, b);
    forall b | b in Held(s)
      ensures AllUsed(r.runs, b, Span(s, b))
    {
      assert Apart(b, Span(s, b), a, n);
      forall p: nat | b <= p < b + Span(s, b)
        ensures !IsFree(r.runs, p)
      {
        FreePages(s.runs, a, n, p);
      }
    }
  }

  lemma ReleaseZoneKeeps(s: State)
    requires Inv(s)
    ensures Inv(ReleaseZone(s))
  {
    hide UsageOk, ZoneOk, ArrayOk, AreasOk, SizeOf, Cleared, AllUsed;
    if |s.zoneFree| > RELEASE {
      var z, n := s.zoneFree[0], ZonePages(s);
      var u := s.(zoneFree := s.zoneFree[1..]);
      PopZone(s);
      var v := u.(usage := Cleared(s.usage, z, n));
      forall p: nat | p < z || z + n <= p
        ensures UsageOf(v, p) == UsageOf(u, p)
      {
        ClearedElsewhere(s.usage, z, n, p);
      }
      UsageElsewhere(u, v, z, n);
      SameAreas(u, v);
      FreedAreas(v, z, n);
      SameZones(u, ReleaseZone(s));
      SameUsage(v, ReleaseZone(s));
    }
  }

  lemma SameAreas(s: State, r: State)
    requires AreasOk(s) && r == s.(usage := r.usage)
    ensures AreasOk(r) && Held(r) == Held(s) && forall a :: Span(r, a) == Span(s, a)
  {
    hide Tidy, Within, AllUsed, Distinct;
    assert Held(r) == Held(s);
    assert forall a :: Span(r, a) == Span(s, a);
  }

  lemma SameUsage(s: State, r: State)
    requires UsageOk(s) && r == s.(runs := r.runs)
    ensures UsageOk(r)
  {
    forall y: nat, k: nat | IsZone(r, y) && k < ZonePages(r)
      ensures UsageOf(r, y + k) == Small(k)
    {
      assert IsZone(s, y) && UsageOf(s, y + k) == Small(k);
    }
  }
}
