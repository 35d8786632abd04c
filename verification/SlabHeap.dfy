/** The slab allocator (slab.c) on its own data: zone headers, the links of the zone lists and of
    the free chunks, memusage, and a page allocator, against the functions of SlabModel.

    Zones are known by their first page, chunks by their address from the start of the heap.
 */
module SlabHeaps {
  import opened Bits
  import opened Chains
  import opened PageAllocators
  import opened PageRuns
  import opened Sequences
  import opened SlabHistory
  import opened SlabLemmas
  import opened SlabModel
  import opened SlabRuns
  import opened ZoneLists

  /** struct slab_zone, without the link. */
  datatype Header = Header(nfree: int, nmax: int, base: nat, uindex: int, chunkSize: nat, zoneIndex: int, freeChunk: int)

  // ---- The data and the state they stand for ----------------------------------------------

  /** The lists of all zone indices, and last the zones out of service. */
  ghost function AllLists(s: State): (ls: seq<seq<Node>>)
    ensures |ls| == NZONES + 1
  {
    seq(NZONES + 1, i requires 0 <= i <= NZONES => if i < NZONES then ListOf(s, i) else s.zoneFree)
  }

  ghost function FreeAddresses(z: nat, x: Zone): (a: seq<Node>)
    ensures |a| == |x.freed|
  {
    seq(|x.freed|, i requires 0 <= i < |x.freed| => ChunkAt(z, x, x.freed[i]))
  }

  ghost predicate HeaderIs(h: Header, z: nat, x: Zone, cnext: Links) {
    && h.nfree == x.nfree && h.nmax == x.nmax && h.base == z * PAGE + x.off && h.uindex == x.uindex
    && h.chunkSize == x.chunk && h.zoneIndex == x.index && Chain(cnext, h.freeChunk, FreeAddresses(z, x))
  }

  ghost predicate Headers(s: State, header: map<Node, Header>, cnext: Links) {
    forall z :: z in s.zones ==> z in header && HeaderIs(header[z], z, s.zones[z], cnext)
  }

  ghost predicate Marks(s: State, usage: seq<Usage>) {
    |usage| == s.total && forall p: nat :: p < |usage| ==> usage[p] == UsageOf(s, p)
  }

  function Address(p: Pointer): int {
    match p
    case Null => NULL
    case To(a) => a
  }

  // ---- Lists ------------------------------------------------------------------------------

  lemma ListsSeparate(s: State)
    requires Inv(s)
    ensures Separate(AllLists(s))
  {
    hide SizesOk, ZonesOk, UsageOk, Distinct, Tidy, Within, AllUsed, Apart;
    var ls := AllLists(s);
    forall i | 0 <= i < |ls|
      ensures Distinct(ls[i])
    {
      if i < NZONES {
        assert Distinct(ListOf(s, i));
      }
    }
    forall i, j, z | 0 <= i < |ls| && 0 <= j < |ls| && z in ls[i] && z in ls[j]
      ensures i == j
    {
      ListedAt(s, i, z);
      ListedAt(s, j, z);
    }
  }

  lemma ListedAt(s: State, i: nat, z: Node)
    requires Inv(s) && i <= NZONES && z in AllLists(s)[i]
    ensures if i < NZONES then z in s.zones && s.zones[z].index == i else z !in s.zones
  {
    hide SizesOk, ZonesOk, UsageOk, Distinct, Tidy, Within, AllUsed, Apart;
    if i < NZONES {
      assert z in ListOf(s, i);
    } else {
      assert z in s.zoneFree;
    }
  }

  /** Pages that are no zone are on no list, and neither are zones without free chunks. */
  lemma NotListed(s: State, z: Node)
    requires Inv(s) && z !in s.zoneFree && (z in s.zones ==> s.zones[z].nfree <= 0)
    ensures OnNone(AllLists(s), z)
  {
    hide SizesOk, ZonesOk, UsageOk, AreasOk, Distinct;
    var ls := AllLists(s);
    forall i | 0 <= i < |ls|
      ensures z !in ls[i]
    {
      assert i < NZONES ==> z !in ListOf(s, i);
    }
  }

  lemma IndexBound(s: State, z: nat)
    requires Inv(s) && z in s.zones
    ensures ZoneOk(s, s.zones[z]) && 0 <= s.zones[z].index < NZONES
  {
    hide SizesOk, UsageOk, AreasOk, ArrayOk, Distinct, Offset, SizeOf;
  }

  /** One list changes. */
  lemma ListChanged(s: State, r: State, i: nat, list: seq<nat>)
    requires i < NZONES && r.zoneArray == s.zoneArray[i := list] && r.zoneFree == s.zoneFree
    ensures AllLists(r) == AllLists(s)[i := list]
  {
  }

  lemma FreeChanged(s: State, r: State)
    requires r.zoneArray == s.zoneArray
    ensures AllLists(r) == AllLists(s)[NZONES := r.zoneFree]
  {
  }

  // ---- Headers ----------------------------------------------------------------------------

  lemma HeaderSet(s: State, r: State, header: map<Node, Header>, cnext: Links, z: Node, x: Zone, h: Header)
    requires Headers(s, header, cnext) && r.zones == s.zones[z := x] && HeaderIs(h, z, x, cnext)
    ensures Headers(r, header[z := h], cnext)
  {
    hide HeaderIs;
  }

  lemma FirstChunk(x: Zone, z: nat, h: Header, cnext: Links)
    requires HeaderIs(h, z, x, cnext) && x.freed != []
    ensures h.freeChunk == ChunkAt(z, x, x.freed[0]) && h.freeChunk in cnext
    ensures Chain(cnext, cnext[h.freeChunk], FreeAddresses(z, x.(freed := x.freed[1..])))
  {
    hide ChunkAt;
    SamePlace(x, x.(freed := x.freed[1..]));
    assert FreeAddresses(z, x)[1..] == FreeAddresses(z, x.(freed := x.freed[1..]));
  }

  /** The header after a chunk was taken from its zone. */
  lemma TakenHeader(s: State, x: Zone, z: nat, h: Header, cnext: Links)
    requires HeaderIs(h, z, x, cnext) && ZoneOk(s, x) && 0 < x.nfree
    ensures h.uindex + 1 != h.nmax ==>
      && HeaderIs(h.(nfree := h.nfree - 1, uindex := h.uindex + 1), z, SlabModel.TakeChunk(x), cnext)
      && h.base + (h.uindex + 1) * h.chunkSize == ChunkAt(z, x, NextChunk(x))
    ensures h.uindex + 1 == h.nmax ==>
      && h.freeChunk in cnext && h.freeChunk == ChunkAt(z, x, NextChunk(x))
      && HeaderIs(h.(nfree := h.nfree - 1, freeChunk := cnext[h.freeChunk]), z, SlabModel.TakeChunk(x), cnext)
  {
    hide Offset, SizeOf, Distinct, Chain;
    var y := SlabModel.TakeChunk(x);
    SamePlace(x, y);
    if h.uindex + 1 != h.nmax {
      assert FreeAddresses(z, y) == FreeAddresses(z, x);
    } else {
      assert x.freed != [];
      FirstChunk(x, z, h, cnext);
      assert FreeAddresses(z, y) == FreeAddresses(z, x.(freed := x.freed[1..]));
    }
  }

  /** The link of a chunk in use does not matter. */
  lemma UsedLink(s: State, header: map<Node, Header>, cnext: Links, z: nat, c: nat, v: int)
    requires Inv(s) && Headers(s, header, cnext) && z in s.zones && InUse(s.zones[z], c)
    ensures Headers(s, header, cnext[ChunkAt(z, s.zones[z], c) := v])
  {
    hide Inv, ChunkAt, Chain;
    var a := ChunkAt(z, s.zones[z], c);
    forall y | y in s.zones
      ensures y in header && HeaderIs(header[y], y, s.zones[y], cnext[a := v])
    {
      NotOnFreeList(s, z, c, y);
      ChainElsewhere(cnext, header[y].freeChunk, FreeAddresses(y, s.zones[y]), a, v);
    }
  }

  lemma NotOnFreeList(s: State, z: nat, c: nat, y: nat)
    requires Inv(s) && z in s.zones && InUse(s.zones[z], c) && y in s.zones
    ensures ChunkAt(z, s.zones[z], c) !in FreeAddresses(y, s.zones[y])
  {
    hide Inv, ChunkAt, ZoneOf, ChunkOf;
    IndexBound(s, z);
    IndexBound(s, y);
    UsedBound(s, s.zones[z], c);
    HeaderFound(s, z, c);
    forall i | 0 <= i < |s.zones[y].freed|
      ensures FreeAddresses(y, s.zones[y])[i] != ChunkAt(z, s.zones[z], c)
    {
      FreedBound(s, s.zones[y], i);
      HeaderFound(s, y, s.zones[y].freed[i]);
    }
  }

  lemma UsedBound(s: State, x: Zone, c: nat)
    requires ZoneOk(s, x) && InUse(x, c)
    ensures c < x.nmax && c !in x.freed
  {
    hide Offset, SizeOf, Distinct;
  }

  lemma FreedBound(s: State, x: Zone, i: nat)
    requires ZoneOk(s, x) && i < |x.freed|
    ensures x.freed[i] < x.nmax && x.freed[i] in x.freed
  {
    hide Offset, SizeOf, Distinct;
    assert x.freed[i] in x.freed;
  }

  /** The header after a chunk came back. */
  lemma GivenHeader(x: Zone, z: nat, h: Header, cnext: Links, c: nat)
    requires HeaderIs(h, z, x, cnext[ChunkAt(z, x, c) := h.freeChunk])
    ensures HeaderIs(h.(nfree := h.nfree + 1, freeChunk := ChunkAt(z, x, c)), z,
                     x.(freed := [c] + x.freed, nfree := x.nfree + 1), cnext[ChunkAt(z, x, c) := h.freeChunk])
  {
    hide ChunkAt;
    var y := x.(freed := [c] + x.freed, nfree := x.nfree + 1);
    SamePlace(x, y);
    assert FreeAddresses(z, y)[1..] == FreeAddresses(z, x);
  }

  // ---- Marks ------------------------------------------------------------------------------

  /** What the loops over memusage leave behind. */
  lemma {:induction false} ClearedAt(usage: map<nat, Usage>, z: nat, n: nat, p: nat)
    requires z <= p < z + n
    ensures p in Cleared(usage, z, n) && Cleared(usage, z, n)[p] == Unused
  {
    if n > 0 && p < z + n - 1 {
      ClearedAt(usage, z, n - 1, p);
    }
  }

  /** The loop that marks the pages of a zone. */
  method MarkZone(memusage: array<Usage>, z: nat, count: nat, ghost s: State)
    requires Marks(s, memusage[..]) && z + count <= memusage.Length
    modifies memusage
    ensures Marks(s.(usage := Marked(s.usage, z, count)), memusage[..])
  {
    hide Marks;
    MarksAre(s, memusage[..]);
    ghost var before := memusage[..];
    var off := 0;
    while off < count
      invariant off <= count
      invariant forall p :: 0 <= p < memusage.Length ==>
        memusage[p] == if z <= p < z + off then Small(p - z) else before[p]
    {
      memusage[z + off] := Small(off);
      off := off + 1;
    }
    MarkedMarks(s, before, memusage[..], z, count);
  }

  lemma MarksAre(s: State, usage: seq<Usage>)
    requires Marks(s, usage)
    ensures |usage| == s.total
  {
  }

  lemma MarkedMarks(s: State, before: seq<Usage>, after: seq<Usage>, z: nat, n: nat)
    requires Marks(s, before) && |after| == |before|
    requires forall p :: 0 <= p < |after| ==> after[p] == if z <= p < z + n then Small(p - z) else before[p]
    ensures Marks(s.(usage := Marked(s.usage, z, n)), after)
  {
    hide Marked;
    forall p: nat | p < |after|
      ensures after[p] == UsageOf(s.(usage := Marked(s.usage, z, n)), p)
    {
      MarkedAt(s.usage, z, n, p);
    }
  }

  /** The loop that clears the marks of the pages of a zone. */
  method ClearZone(memusage: array<Usage>, z: nat, count: nat, ghost s: State)
    requires Marks(s, memusage[..]) && z + count <= memusage.Length
    modifies memusage
    ensures Marks(s.(usage := Cleared(s.usage, z, count)), memusage[..])
  {
    hide Marks;
    MarksAre(s, memusage[..]);
    ghost var before := memusage[..];
    var i := 0;
    while i < count
      invariant i <= count
      invariant forall p :: 0 <= p < memusage.Length ==>
        memusage[p] == if z <= p < z + i then Unused else before[p]
    {
      memusage[z + i] := Unused;
      i := i + 1;
    }
    ClearedMarks(s, before, memusage[..], z, count);
  }

  lemma ClearedMarks(s: State, before: seq<Usage>, after: seq<Usage>, z: nat, n: nat)
    requires Marks(s, before) && |after| == |before|
    requires forall p :: 0 <= p < |after| ==> after[p] == if z <= p < z + n then Unused else before[p]
    ensures Marks(s.(usage := Cleared(s.usage, z, n)), after)
  {
    hide Cleared;
    forall p: nat | p < |after|
      ensures after[p] == UsageOf(s.(usage := Cleared(s.usage, z, n)), p)
    {
      if z <= p < z + n {
        ClearedAt(s.usage, z, n, p);
      } else {
        ClearedElsewhere(s.usage, z, n, p);
      }
    }
  }

  // ---- The heap ---------------------------------------------------------------------------

  /** The loop of rt_system_heap_init: of the three sizes a zone can have the first that is at least
      half of a 1024th of the heap, or the largest. */
  method ZoneSize(limsize: nat) returns (size: nat)
    ensures size in {MIN_ZONE, 2 * MIN_ZONE, MAX_ZONE}
    ensures size == MAX_ZONE || 2 * size >= limsize / 1024
    ensures size == MIN_ZONE || size < limsize / 1024
    ensures size == Doubled(MIN_ZONE, limsize / 1024)
  {
    size := MIN_ZONE;
    while size < MAX_ZONE && size * 2 < limsize / 1024
      invariant 0 < size && Doubled(size, limsize / 1024) == Doubled(MIN_ZONE, limsize / 1024)
      decreases MAX_ZONE - size
    {
      size := size * 2;
    }
  }

  ghost function MapOf(usage: seq<Usage>): map<nat, Usage> {
    map p: nat | p < |usage| :: usage[p]
  }

  lemma StartViews(npages: nat, usage: seq<Usage>, heads: seq<int>, s: State)
    requires |usage| == npages && |heads| == NZONES + 1 && forall i :: 0 <= i <= NZONES ==> heads[i] == NULL
    requires s == Start(npages, MapOf(usage))
    ensures Marks(s, usage) && Threaded(AllLists(s), heads, map[]) && Headers(s, map[], map[]) && s.zoneFree == []
    ensures s.zoneSize == Doubled(MIN_ZONE, npages * PAGE / 1024) && ZonePages(s) == s.zoneSize / PAGE
    ensures s.zoneLimit == if s.zoneSize / 4 > MAX_LIMIT then MAX_LIMIT else s.zoneSize / 4
    ensures s.total == npages && s.runs == PageRuns.Alloc(PageRuns.Free([], 0, npages), UsagePages(npages)).1
    ensures 0 < npages ==> 0 < UsagePages(npages)
    ensures s == Start(npages, s.usage)
  {
    hide PageRuns.Free, PageRuns.Alloc, Doubled;
  }

  class SlabHeap {
    const zoneSize: nat
    const zoneLimit: nat
    const zonePages: nat            // zone_page_cnt
    const zoneArray: array<int>     // zone_array
    const memusage: array<Usage>
    const pages: PageAllocator

    var zoneFree: int
    var zoneFreeCount: nat
    var header: map<Node, Header>
    var znext: Links                // z_next
    var cnext: Links                // c_next

    ghost var s: State

    ghost predicate ListsOk()
      reads `zoneFree, `zoneFreeCount, `znext, `s, zoneArray
    {
      && zoneArray.Length == NZONES && zoneFreeCount == |s.zoneFree|
      && Threaded(AllLists(s), zoneArray[..] + [zoneFree], znext)
    }

    ghost predicate HeadersOk()
      reads `header, `cnext, `s
    {
      Headers(s, header, cnext)
    }

    ghost predicate MarksOk()
      reads `s, memusage
    {
      Marks(s, memusage[..])
    }

    ghost predicate PagesOk()
      reads `s, pages
    {
      pages.Valid() && pages.runs == s.runs && pages.total == s.total
    }

    ghost predicate StateOk()
      reads `s
    {
      Inv(s) && s.zoneSize == zoneSize && s.zoneLimit == zoneLimit && zonePages == ZonePages(s)
    }

    ghost predicate Valid()
      reads this, zoneArray, memusage, pages
    {
      ListsOk() && HeadersOk() && MarksOk() && PagesOk() && StateOk()
    }

    /** rt_system_heap_init */
    constructor (npages: nat)
      requires 0 < npages
      ensures Valid() && fresh(zoneArray) && fresh(memusage) && fresh(pages)
      ensures s == Start(npages, s.usage)
    {
      hide Inv, PageRuns.Free, PageRuns.Alloc, Doubled, Threaded, Marks, UsagePages, Headers, AllLists, Start, ZonePages;
      hide Tidy, Within, Chain;
      var size := ZoneSize(npages * PAGE);
      zoneSize := size;
      zoneLimit := if size / 4 > MAX_LIMIT then MAX_LIMIT else size / 4;
      zonePages := size / PAGE;
      zoneArray := new int[NZONES](_ => NULL);
      memusage := new Usage[npages];
      pages := new PageAllocator(npages);
      zoneFree, zoneFreeCount := NULL, 0;
      header, znext, cnext := map[], map[], map[];
      new;
      var table := pages.Alloc(UsagePages(npages));
      s := Start(npages, MapOf(memusage[..]));
      StartInv(npages, s.usage);
      StartViews(npages, memusage[..], zoneArray[..] + [zoneFree], s);
    }

    /** The first zone of a list. */
    lemma HeadOf(i: nat)
      requires Valid() && i < NZONES
      ensures zoneArray[i] == NULL <==> ListOf(s, i) == []
      ensures zoneArray[i] != NULL ==>
        && zoneArray[i] == ListOf(s, i)[0] && zoneArray[i] as Node in s.zones && zoneArray[i] as Node in znext
        && zoneArray[i] as Node in header && 0 < s.zones[zoneArray[i] as Node].nfree
        && s.zones[zoneArray[i] as Node].index == i
        && HeaderIs(header[zoneArray[i] as Node], zoneArray[i], s.zones[zoneArray[i] as Node], cnext)
    {
      hide Inv, HeaderIs, MarksOk, PagesOk;
      var heads := zoneArray[..] + [zoneFree];
      assert Chain(znext, heads[i], AllLists(s)[i]) && heads[i] == zoneArray[i];
      if ListOf(s, i) != [] {
        FirstHasFree(s, i);
        FirstIndex(s, i);
      }
    }

    /** One free chunk less; a zone without any leaves its list. */
    method CountDown(zi: nat, z: Node)
      requires zoneArray.Length == NZONES && zi < NZONES && z in header && z in znext
      modifies this`header, this`znext, zoneArray
      ensures header == old(header)[z := old(header)[z].(nfree := old(header)[z].nfree - 1)]
      ensures if header[z].nfree == 0
        then zoneArray[..] == old(zoneArray[..])[zi := old(znext)[z]] && znext == old(znext)[z := NULL]
        else zoneArray[..] == old(zoneArray[..]) && znext == old(znext)
    {
      header := header[z := header[z].(nfree := header[z].nfree - 1)];
      if header[z].nfree == 0 {
        zoneArray[zi] := znext[z];
        znext := znext[z := NULL];
      }
    }

    /** The next chunk: from the space never used, or the first one that was freed. */
    method NextFree(z: Node, size: nat) returns (p: int)
      requires z in header && (header[z].uindex + 1 == header[z].nmax ==> header[z].freeChunk in cnext)
      modifies this`header
      ensures if old(header)[z].uindex + 1 != old(header)[z].nmax
        then header == old(header)[z := old(header)[z].(uindex := old(header)[z].uindex + 1)]
          && p == header[z].base + header[z].uindex * size
        else p == old(header)[z].freeChunk && header == old(header)[z := old(header)[z].(freeChunk := cnext[p])]
    {
      if header[z].uindex + 1 != header[z].nmax {
        header := header[z := header[z].(uindex := header[z].uindex + 1)];
        p := header[z].base + header[z].uindex * size;
      } else {
        p := header[z].freeChunk;
        header := header[z := header[z].(freeChunk := cnext[p])];
      }
    }

    /** rt_malloc from the first zone of a list. */
    method TakeChunk(zi: nat, size: nat) returns (p: int)
      requires Valid() && zi < NZONES && zoneArray[zi] != NULL && size == SizeOf(zi)
      modifies this`header, this`znext, this`s, zoneArray
      ensures Valid()
      ensures ListOf(old(s), zi) != [] && ListOf(old(s), zi)[0] in old(s).zones
      ensures s == FromZone(old(s), zi).0 && p == Address(FromZone(old(s), zi).1)
    {
      hide Inv, Headers, Marks, Threaded, Chain, SlabModel.TakeChunk, NextChunk, ChunkAt, SizeOf, ZoneOk, UsageOk;
      HeadOf(zi);
      var z := zoneArray[zi];
      ghost var x, h := s.zones[z as Node], header[z as Node];
      ChunkSize(s, z);
      TakenHeader(s, x, z, h, cnext);
      TakenState(s, zi, zoneArray[..], zoneFree, znext, memusage[..]);
      CountDown(zi, z);
      p := NextFree(z, size);
      HeaderSet(s, FromZone(s, zi).0, old(header), cnext, z, SlabModel.TakeChunk(x), header[z as Node]);
      assert header == old(header)[z as Node := header[z as Node]];
      s := FromZone(s, zi).0;
    }

    /** A zone out of service, or pages from the page allocator marked as a zone. */
    method FreshZone() returns (z: int)
      requires Valid()
      modifies this`zoneFree, this`zoneFreeCount, this`s, memusage, pages
      ensures Valid() && z == PageAllocators.Granted(Fresh(old(s)).1) && s == Fresh(old(s)).0
      ensures z != NULL ==> z >= 0 && Reserved(s, z)
    {
      hide Inv, Headers, Marks, Threaded, PageRuns.Alloc, Reserved, Marked;
      FreshKeeps(s);
      FreshViews(s, zoneArray[..], zoneFree, znext, header, cnext);
      MarksAre(s, memusage[..]);
      if zoneFree != NULL {
        SameMarks(s, Fresh(s).0, memusage[..]);
        z := zoneFree;
        zoneFree := znext[z];
        zoneFreeCount := zoneFreeCount - 1;
      } else {
        z := pages.Alloc(zoneSize / PAGE);
        if z != NULL {
          MarkZone(memusage, z, zonePages, s);
          SameMarks(s.(usage := Marked(s.usage, z, zonePages)), Fresh(s).0, memusage[..]);
        }
      }
      s := Fresh(s).0;
    }

    /** Makes a zone of the pages `z` on and hands out its first chunk. */
    method InitZone(z: nat, zi: nat, size: nat, ghost request: nat) returns (p: int)
      requires Valid() && Reserved(s, z) && 0 < request < s.zoneLimit <= MAX_LIMIT && ZoneIndex(request) == (zi as int, size)
      modifies this`header, this`znext, this`s, zoneArray
      ensures Valid() && 0 < size && s == WithZone(old(s), z, zi, size).0 && p == Address(WithZone(old(s), z, zi, size).1)
    {
      hide Inv, Headers, Marks, Threaded, Reserved, ZoneIndex, UsageOk, ZoneOk, AllLists;
      ZoneIndexIs(request);
      NewState(s, z, request, zoneArray[..], zoneFree, znext, memusage[..]);
      var off := HEADER;
      if Or(size, size - 1) + 1 == size * 2 {
        off := AndNot(off + size - 1, size - 1);
      } else {
        off := AndNot(off + 7, 7);
      }
      var nmax := (zoneSize - off) / size;
      header := header[z := Header(nmax - 1, nmax, z * PAGE + off, 0, size, zi, NULL)];
      p := header[z].base + header[z].uindex * size;
      znext := znext[z := zoneArray[zi]];
      zoneArray[zi] := z;
      HeaderSet(s, WithZone(s, z, zi, size).0, old(header), cnext, z, NewZone(s, zi, size), header[z]);
      s := WithZone(s, z, zi, size).0;
    }

    /** rt_malloc of whole pages. */
    method FromPages(size: nat) returns (p: int)
      requires Valid() && 0 < size
      modifies this`s, memusage, pages
      ensures Valid() && s == SlabModel.FromPages(old(s), size).0 && p == Address(SlabModel.FromPages(old(s), size).1)
    {
      hide Inv, Headers, Marks, Threaded, PageRuns.Alloc;
      var rounded := (size + PAGE - 1) / PAGE * PAGE;
      LargeState(s, size, header, cnext);
      MarksAre(s, memusage[..]);
      var page := pages.Alloc(rounded / PAGE);
      if page == NULL {
        return NULL;
      }
      memusage[page] := Large(rounded / PAGE);
      MarkSet(s, SlabModel.FromPages(s, size).0, old(memusage[..]), page, Large(rounded / PAGE));
      assert memusage[..] == old(memusage[..])[page := Large(rounded / PAGE)];
      s := SlabModel.FromPages(s, size).0;
      p := page * PAGE;
    }

    /** rt_malloc */
    method Malloc(size: nat) returns (p: int)
      requires Valid()
      modifies this, zoneArray, memusage, pages
      ensures Valid() && ListsKnown(old(s)) && old(s).zoneLimit <= MAX_LIMIT
      ensures s == SlabModel.Malloc(old(s), size).0 && p == Address(SlabModel.Malloc(old(s), size).1)
    {
      hide Inv, Headers, Marks, Threaded, ZoneIndex, Reserved, SlabModel.FromPages, FromZone, WithZone;
      ListsKnownOf(s);
      SizesOf(s);
      if size == 0 {
        return NULL;
      }
      if size >= zoneLimit {
        p := FromPages(size);
        return;
      }
      ZoneIndexIs(size);
      IndexSize(size);
      var (zi, chunk) := ZoneIndex(size);
      HeadOf(zi);
      if zoneArray[zi] != NULL {
        p := TakeChunk(zi, chunk);
        return;
      }
      FreshThen(s, zi, chunk);
      FreshSizes(s);
      var z := FreshZone();
      if z == NULL {
        return NULL;
      }
      p := InitZone(z, zi, chunk, size);
    }

    /** The chunk goes to the front of the free list of its zone, and the zone to its list if it
        had no free chunk. */
    method PutChunk(addr: nat, z: Node, ghost c: nat)
      requires Valid() && LiveChunk(s, addr, z, c)
      modifies this`header, this`znext, this`cnext, this`s, zoneArray
      ensures Valid() && z in old(s).zones && s == GiveBack(old(s), z, c)
    {
      hide Inv, Headers, Marks, Threaded, ChunkAt, InUse, AllLists;
      GivenState(s, addr, z, c, zoneArray[..], zoneFree, znext, memusage[..], header, cnext);
      cnext := cnext[addr := header[z].freeChunk];
      header := header[z := header[z].(freeChunk := addr)];
      var before := header[z].nfree;
      header := header[z := header[z].(nfree := before + 1)];
      if before == 0 {
        znext := znext[z := zoneArray[header[z].zoneIndex]];
        zoneArray[header[z].zoneIndex] := z;
      }
      assert header == old(header)[z := header[z]];
      s := GiveBack(s, z, c);
    }

    /** The walk to the link that leads to a zone: `prev` is the zone in front of it. */
    method FindZone(z: Node) returns (i: nat, prev: int, ghost k: nat)
      requires Valid() && z in s.zones && 0 < s.zones[z].nfree
      ensures i < NZONES && i == s.zones[z].index && k < |ListOf(s, i)| && ListOf(s, i)[k] == z && z in znext
      ensures prev == (if k == 0 then NULL else ListOf(s, i)[k - 1])
    {
      hide Inv, Headers, Threaded, Chain, MarksOk, PagesOk;
      IndexBound(s, z);
      HeaderAt(s, header, cnext, z);
      OnList(s, z);
      i, prev, k := header[z].zoneIndex, NULL, 0;
      ghost var list := ListOf(s, i);
      Leads(AllLists(s), zoneArray[..] + [zoneFree], znext, i);
      var b := zoneArray[i];
      ghost var at :| 0 <= at < |list| && list[at] == z;
      ChainAt(znext, zoneArray[i], list, at);
      ChainAt(znext, zoneArray[i], list, 0);
      while b != z
        invariant k <= at && b == list[k] && prev == if k == 0 then NULL else list[k - 1]
        decreases at - k
      {
        ChainAt(znext, zoneArray[i], list, k);
        prev := b;
        b := znext[b];
        k := k + 1;
      }
    }

    /** Takes a zone all of whose chunks are free off its list and out of service. */
    method RetireZone(z: Node)
      requires Valid() && z in s.zones && s.zones[z].nfree == s.zones[z].nmax && ListOf(s, s.zones[z].index) != [z]
      modifies this`znext, this`zoneFree, this`zoneFreeCount, this`s, zoneArray
      ensures Valid() && s == Retire(old(s), z)
    {
      hide Inv, Headers, Marks, Threaded, AllLists, Dropped;
      IndexBound(s, z);
      var i, prev, k := FindZone(z);
      RetiredState(s, z, i, k, zoneArray[..], zoneFree, znext, memusage[..], header, cnext);
      if prev == NULL {
        zoneArray[i] := znext[z];
      } else {
        znext := znext[prev := znext[z]];
      }
      znext := znext[z := zoneFree];
      zoneFree := z;
      zoneFreeCount := zoneFreeCount + 1;
      s := Retire(s, z);
    }

    /** Gives the pages of the zone that left service last back, if there are too many. */
    method ReleaseZone()
      requires Valid()
      modifies this`zoneFree, this`zoneFreeCount, this`s, memusage, pages
      ensures Valid() && s == SlabModel.ReleaseZone(old(s))
    {
      hide Inv, Headers, Marks, Threaded, AllLists, Cleared, PageRuns.Free, AllUsed;
      if zoneFreeCount > RELEASE {
        ReleasedState(s, zoneArray[..], zoneFree, znext, memusage[..], header, cnext);
        var z := zoneFree;
        zoneFree := znext[z];
        zoneFreeCount := zoneFreeCount - 1;
        ClearZone(memusage, z, zonePages, s);
        SameMarks(s.(usage := Cleared(s.usage, z, zonePages)), SlabModel.ReleaseZone(s), memusage[..]);
        pages.Free(z, zoneSize / PAGE);
        s := SlabModel.ReleaseZone(s);
      }
    }

    /** rt_free of a large block. */
    method FreeLarge(a: nat)
      requires Valid() && a in s.large
      modifies this`s, memusage, pages
      ensures Valid() && s == Release(old(s), a * PAGE)
    {
      hide Inv, Headers, Marks, Threaded, AllLists, PageRuns.Free, AllUsed;
      LargeFreed(s, a, header, cnext, memusage[..]);
      var size := memusage[a].pages;
      memusage[a] := Large(0);
      assert memusage[..] == old(memusage[..])[a := Large(0)];
      pages.Free(a, size);
      s := Release(s, a * PAGE);
    }

    /** rt_free, of NULL or of a pointer that was handed out. */
    method Free(p: int)
      requires Valid() && (p == NULL || (p >= 0 && Live(s, p)))
      modifies this, zoneArray, memusage, pages
      ensures Valid() && s == if p == NULL then old(s) else Release(old(s), p)
    {
      hide Inv, Headers, Marks, Threaded, AllLists, Release, LiveChunk, GiveBack, Retire;
      if p == NULL {
        return;
      }
      ghost var before := s;
      FreedBlock(s, p, memusage[..]);
      match memusage[p / PAGE]
      case Large(n) =>
        FreeLarge(p / PAGE);
      case Unused =>
        assert false;
      case Small(k) =>
        var z: Node := p / PAGE - k;
        ghost var c: nat :| LiveChunk(s, p, z, c);
        ChunkFreed(s, p, z, c);
        PutChunk(p, z, c);
        SettledCase(s, z, header, cnext, zoneArray[..], zoneFree, znext);
        if header[z].nfree == header[z].nmax && (znext[z] != NULL || zoneArray[header[z].zoneIndex] != z) {
          RetireZone(z);
          ReleaseZone();
        }
    }
  }

  // ---- The steps of rt_free ---------------------------------------------------------------

  lemma GivenState(s: State, addr: nat, z: Node, c: nat, heads: seq<int>, zf: int, znext: Links, usage: seq<Usage>,
      header: map<Node, Header>, cnext: Links)
    requires Inv(s) && LiveChunk(s, addr, z, c) && Headers(s, header, cnext) && Marks(s, usage)
    requires |heads| == NZONES && Threaded(AllLists(s), heads + [zf], znext)
    ensures z in s.zones && z in header && 0 <= header[z].zoneIndex < NZONES && header[z].nfree == s.zones[z].nfree
    ensures var h, r := header[z], GiveBack(s, z, c);
      && Inv(r) && Marks(r, usage) && r == s.(zones := r.zones, zoneArray := r.zoneArray)
      && Headers(r, header[z := h.(nfree := h.nfree + 1, freeChunk := addr)], cnext[addr := h.freeChunk])
      && if h.nfree == 0 then Threaded(AllLists(r), heads[h.zoneIndex := z] + [zf], znext[z := heads[h.zoneIndex]])
        else Threaded(AllLists(r), heads + [zf], znext)
  {
    hide Inv, Headers, Marks, Threaded, ChunkAt, InUse, AllLists, GiveBack;
    ChunkFacts(s, addr, z, c);
    IndexBound(s, z);
    HeaderAt(s, header, cnext, z);
    GiveBackKeeps(s, z, c);
    UsedLink(s, header, cnext, z, c, header[z].freeChunk);
    HeaderAt(s, header, cnext[addr := header[z].freeChunk], z);
    GivenHeader(s.zones[z], z, header[z], cnext, c);
    GivenLists(s, z, c, heads, zf, znext);
    GiveBackParts(s, z, c);
    HeaderSet(s, GiveBack(s, z, c), header, cnext[addr := header[z].freeChunk], z,
      s.zones[z].(freed := [c] + s.zones[z].freed, nfree := s.zones[z].nfree + 1),
      header[z].(nfree := header[z].nfree + 1, freeChunk := addr));
    SameMarks(s, GiveBack(s, z, c), usage);
  }

  lemma HeaderAt(s: State, header: map<Node, Header>, cnext: Links, z: nat)
    requires Headers(s, header, cnext) && z in s.zones
    ensures z in header && HeaderIs(header[z], z, s.zones[z], cnext)
  {
    hide HeaderIs;
  }

  lemma GiveBackParts(s: State, z: nat, c: nat)
    requires z in s.zones
    ensures var x, r := s.zones[z], GiveBack(s, z, c);
      r == s.(zones := s.zones[z := x.(freed := [c] + x.freed, nfree := x.nfree + 1)], zoneArray := r.zoneArray)
  {
  }

  lemma GivenLists(s: State, z: nat, c: nat, heads: seq<int>, zf: int, znext: Links)
    requires Inv(s) && z in s.zones && |heads| == NZONES && Threaded(AllLists(s), heads + [zf], znext)
    requires 0 <= s.zones[z].index < NZONES
    ensures var x, r := s.zones[z], GiveBack(s, z, c);
      if x.nfree == 0 then Threaded(AllLists(r), heads[x.index := z] + [zf], znext[z := heads[x.index]])
      else Threaded(AllLists(r), heads + [zf], znext)
  {
    hide Inv, Threaded;
    var x, r := s.zones[z], GiveBack(s, z, c);
    if x.nfree == 0 {
      NotBoth(s, z);
      NotListed(s, z);
      Push(AllLists(s), heads + [zf], znext, x.index, z);
      ListChanged(s, r, x.index, [z] + ListOf(s, x.index));
      assert (heads + [zf])[x.index := z] == heads[x.index := z] + [zf];
    } else {
      assert AllLists(r) == AllLists(s);
    }
  }

  lemma NotBoth(s: State, z: nat)
    requires Inv(s) && z in s.zones
    ensures z !in s.zoneFree
  {
    hide SizesOk, ZonesOk, UsageOk, ArrayOk, Tidy, Within, AllUsed, Apart, Distinct;
  }

  lemma OnList(s: State, z: nat)
    requires Inv(s) && z in s.zones && 0 < s.zones[z].nfree && 0 <= s.zones[z].index
    ensures z in ListOf(s, s.zones[z].index)
  {
    hide SizesOk, ZonesOk, UsageOk, AreasOk, Distinct;
  }

  lemma Leads(ls: seq<seq<Node>>, heads: seq<int>, next: Links, i: nat)
    requires Threaded(ls, heads, next) && i < |ls|
    ensures Chain(next, heads[i], ls[i])
  {
  }

  lemma {:induction false} DroppedAt(list: seq<nat>, z: nat, k: nat)
    requires Distinct(list) && k < |list| && list[k] == z
    ensures Dropped(list, z) == list[..k] + list[k + 1..]
  {
    hide Distinct;
    if k > 0 {
      TailDistinct(list);
      assert list[1..][k - 1] == z && z in list[1..];
      DroppedAt(list[1..], z, k - 1);
      assert [list[0]] + (list[1..][..k - 1] + list[1..][k..]) == list[..k] + list[k + 1..];
    }
  }

  lemma RetiredState(s: State, z: Node, i: nat, k: nat, heads: seq<int>, zf: int, znext: Links, usage: seq<Usage>,
      header: map<Node, Header>, cnext: Links)
    requires Inv(s) && z in s.zones && s.zones[z].nfree == s.zones[z].nmax && 0 < s.zones[z].nfree
    requires i < NZONES && i == s.zones[z].index && ListOf(s, i) != [z]
    requires k < |ListOf(s, i)| && ListOf(s, i)[k] == z && z in znext
    requires |heads| == NZONES && Threaded(AllLists(s), heads + [zf], znext)
    requires Marks(s, usage) && Headers(s, header, cnext)
    ensures var r, v := Retire(s, z), znext[z];
      && Inv(r) && Marks(r, usage) && Headers(r, header, cnext) && r.zoneFree == [z] + s.zoneFree
      && r == s.(zones := r.zones, zoneArray := r.zoneArray, zoneFree := r.zoneFree)
      && if k == 0 then Threaded(AllLists(r), heads[i := v] + [z as int], znext[z := zf])
        else Threaded(AllLists(r), heads + [z as int], znext[ListOf(s, i)[k - 1] := v][z := zf])
  {
    hide Inv, Marks, Threaded, AllLists, Dropped, HeaderIs;
    RetireKeeps(s, z);
    RetiredLists(s, z, i, k, heads, zf, znext);
    SameMarks(s, Retire(s, z), usage);
  }

  lemma RetiredLists(s: State, z: Node, i: nat, k: nat, heads: seq<int>, zf: int, znext: Links)
    requires Inv(s) && z in s.zones && s.zones[z].nfree == s.zones[z].nmax
    requires i < NZONES && i == s.zones[z].index && ListOf(s, i) != [z]
    requires k < |ListOf(s, i)| && ListOf(s, i)[k] == z && z in znext
    requires |heads| == NZONES && Threaded(AllLists(s), heads + [zf], znext)
    ensures var r, v := Retire(s, z), znext[z];
      if k == 0 then Threaded(AllLists(r), heads[i := v] + [z as int], znext[z := zf])
      else Threaded(AllLists(r), heads + [z as int], znext[ListOf(s, i)[k - 1] := v][z := zf])
  {
    hide Inv, Threaded, Separate, Dropped;
    var r, ls, list := Retire(s, z), AllLists(s), ListOf(s, i);
    ListsSeparate(s);
    Unlink(ls, heads + [zf], znext, i, k);
    var rest := list[..k] + list[k + 1..];
    DistinctList(ls, i);
    DroppedAt(list, z, k);
    GoneFrom(ls, i, k);
    var heads' := if k == 0 then heads[i := znext[z]] else heads;
    assert heads' + [zf] == if k == 0 then (heads + [zf])[i := znext[z]] else heads + [zf];
    var next' := if k == 0 then znext else znext[list[k - 1] := znext[z]];
    Push(ls[i := rest], heads' + [zf], next', NZONES, z);
    assert (heads' + [zf])[NZONES := z] == heads' + [z as int];
    assert AllLists(r) == ls[i := rest][NZONES := [z] + s.zoneFree];
  }

  lemma DistinctList(ls: seq<seq<Node>>, i: nat)
    requires Separate(ls) && i < |ls|
    ensures Distinct(ls[i])
  {
  }

  lemma GoneFrom(ls: seq<seq<Node>>, i: nat, k: nat)
    requires Separate(ls) && i < |ls| && k < |ls[i]|
    ensures OnNone(ls[i := ls[i][..k] + ls[i][k + 1..]], ls[i][k])
  {
    var z, rest := ls[i][k], ls[i][..k] + ls[i][k + 1..];
    assert z in ls[i] && Distinct(ls[i]);
    assert forall m :: 0 <= m < |rest| ==> rest[m] == ls[i][if m < k then m else m + 1];
    assert z !in rest;
    var t := ls[i := rest];
    forall j | 0 <= j < |t|
      ensures z !in t[j]
    {
      assert j != i ==> t[j] == ls[j];
    }
  }

  lemma ReleasedState(s: State, heads: seq<int>, zf: int, znext: Links, usage: seq<Usage>,
      header: map<Node, Header>, cnext: Links)
    requires Inv(s) && |s.zoneFree| > RELEASE && |heads| == NZONES && Threaded(AllLists(s), heads + [zf], znext)
    requires Marks(s, usage) && Headers(s, header, cnext)
    ensures var z, r := s.zoneFree[0], SlabModel.ReleaseZone(s);
      && zf == z && z in znext && Inv(r) && Headers(r, header, cnext) && z + ZonePages(s) <= s.total == |usage|
      && 0 < ZonePages(s) && AllUsed(s.runs, z, ZonePages(s))
      && Threaded(AllLists(r), heads + [znext[z]], znext)
  {
    hide Inv, Threaded, Cleared, PageRuns.Free, HeaderIs, AllUsed;
    var r := SlabModel.ReleaseZone(s);
    ReleaseZoneKeeps(s);
    PopZone(s);
    FreeChanged(s, r);
    Pop(AllLists(s), heads + [zf], znext, NZONES);
    assert (heads + [zf])[NZONES := znext[s.zoneFree[0]]] == heads + [znext[s.zoneFree[0]]];
  }

  lemma LargeFreed(s: State, a: nat, header: map<Node, Header>, cnext: Links, usage: seq<Usage>)
    requires Inv(s) && a in s.large && Headers(s, header, cnext) && Marks(s, usage)
    ensures var r, n := Release(s, a * PAGE), s.large[a];
      && Inv(r) && Headers(r, header, cnext) && AllLists(r) == AllLists(s) && r.zoneFree == s.zoneFree
      && a < |usage| && usage[a] == Large(n) && Marks(r, usage[a := Large(0)])
      && 0 < n && a + n <= s.total && AllUsed(s.runs, a, n)
      && r.runs == PageRuns.Free(s.runs, a, n) && r.total == s.total && r.zoneSize == s.zoneSize && r.zoneLimit == s.zoneLimit
  {
    hide Inv, PageRuns.Free, HeaderIs, AllUsed;
    ReleaseLarge(s, a);
    LargeArea(s, a);
    LargeMarked(s, a);
    assert a * PAGE / PAGE == a;
  }

  lemma LargeArea(s: State, a: nat)
    requires Inv(s) && a in s.large
    ensures 0 < s.large[a] && a + s.large[a] <= s.total && AllUsed(s.runs, a, s.large[a])
  {
    hide SizesOk, ZonesOk, UsageOk, ArrayOk, Tidy, Within, AllUsed, Apart;
    assert a in Held(s) && Span(s, a) == s.large[a];
  }

  ghost predicate IsChunk(s: State, p: nat, z: nat) {
    exists c :: LiveChunk(s, p, z, c)
  }

  /** What memusage says about the page of a pointer that was handed out. */
  lemma FreedBlock(s: State, p: nat, usage: seq<Usage>)
    requires Inv(s) && Live(s, p) && Marks(s, usage)
    ensures p / PAGE < |usage|
    ensures match usage[p / PAGE]
      case Large(n) => p / PAGE in s.large && p / PAGE * PAGE == p
      case Small(k) => k <= p / PAGE && p / PAGE - k in s.zones && IsChunk(s, p, p / PAGE - k)
      case Unused => false
  {
    hide Inv, LiveChunk, ChunkOf, Holder, Extent;
    BlockPlace(s, p);
    BlocksApart(s, p, p);
    if p % PAGE == 0 && p / PAGE in s.large {
      LargeMarked(s, p / PAGE);
    } else {
      var z: nat, c: nat :| LiveChunk(s, p, z, c);
      ChunkFacts(s, p, z, c);
      HeaderFound(s, z, c);
    }
  }

  lemma ChunkFreed(s: State, p: nat, z: nat, c: nat)
    requires Inv(s) && LiveChunk(s, p, z, c)
    ensures z in s.zones && Inv(GiveBack(s, z, c)) && Release(s, p) == Settled(GiveBack(s, z, c), z)
    ensures z in GiveBack(s, z, c).zones && 0 < GiveBack(s, z, c).zones[z].nfree
  {
    hide Inv, GiveBack, InUse, Settled, ChunkAt, Release;
    ChunkFacts(s, p, z, c);
    ReleaseChunk(s, p, z, c);
    GiveBackKeeps(s, z, c);
  }

  /** The test of rt_free for a zone that can leave service. */
  lemma SettledCase(s: State, z: Node, header: map<Node, Header>, cnext: Links, heads: seq<int>, zf: int, znext: Links)
    requires Inv(s) && z in s.zones && 0 < s.zones[z].nfree && Headers(s, header, cnext)
    requires |heads| == NZONES && Threaded(AllLists(s), heads + [zf], znext)
    ensures z in header && z in znext && 0 <= header[z].zoneIndex < NZONES
    ensures var x, last := s.zones[z], znext[z] == NULL && heads[header[z].zoneIndex] == z;
      && x.nfree == header[z].nfree && x.nmax == header[z].nmax && (ListOf(s, x.index) == [z] <==> last)
      && Settled(s, z) == if x.nfree == x.nmax && !last then SlabModel.ReleaseZone(Retire(s, z)) else s
  {
    hide Inv, Headers, Threaded, SlabModel.ReleaseZone, Dropped, AllUsed;
    IndexBound(s, z);
    HeaderAt(s, header, cnext, z);
    OnList(s, z);
    var i := s.zones[z].index;
    var list := ListOf(s, i);
    Leads(AllLists(s), heads + [zf], znext, i);
    var k :| 0 <= k < |list| && list[k] == z;
    ChainAt(znext, heads[i], list, k);
    OneLong(s, i, k);
  }

  lemma OneLong(s: State, i: nat, k: nat)
    requires Inv(s) && i < NZONES && k < |ListOf(s, i)|
    ensures ListOf(s, i) == [ListOf(s, i)[k]] <==> k == 0 && |ListOf(s, i)| == 1
    ensures ListOf(s, i)[0] == ListOf(s, i)[k] ==> k == 0
  {
    hide SizesOk, ZonesOk, UsageOk, AreasOk;
    assert Distinct(ListOf(s, i));
  }

  /** Where the pages of the next zone come from. */
  function Fresh(s: State): (State, Grant) {
    if s.zoneFree != [] then (s.(zoneFree := s.zoneFree[1..]), At(s.zoneFree[0]))
    else
      var (g, r) := Alloc(s.runs, ZonePages(s));
      match g
      case NoPages => (s, NoPages)
      case At(z) => (s.(runs := r, usage := Marked(s.usage, z, ZonePages(s))), g)
  }

  lemma FreshThen(s: State, i: nat, chunk: nat)
    requires 0 < chunk
    ensures FromNewZone(s, i, chunk) ==
      match Fresh(s).1 case NoPages => (s, Null) case At(z) => WithZone(Fresh(s).0, z, i, chunk)
  {
    hide WithZone, Marked, PageRuns.Alloc;
  }

  lemma FreshSizes(s: State)
    ensures var r := Fresh(s).0;
      r.zoneSize == s.zoneSize && r.zoneLimit == s.zoneLimit && r.total == s.total && r.zones == s.zones && r.zoneArray == s.zoneArray
    ensures Fresh(s).1 == NoPages ==> Fresh(s).0 == s
  {
    hide Marked, PageRuns.Alloc;
  }

  lemma FreshKeeps(s: State)
    requires Inv(s)
    ensures Inv(Fresh(s).0) && 0 < ZonePages(s)
    ensures Fresh(s).1.At? ==> Reserved(Fresh(s).0, Fresh(s).1.page) && Fresh(s).1.page + ZonePages(s) <= s.total
    ensures Alloc(s.runs, ZonePages(s)).0 == NoPages ==> Alloc(s.runs, ZonePages(s)).1 == s.runs
  {
    hide Inv, Marked, PageRuns.Alloc, Held, AllUsed, Apart;
    SizesOf(s);
    AllocFailsIff(s.runs, ZonePages(s));
    if s.zoneFree != [] {
      PopZone(s);
    } else if Alloc(s.runs, ZonePages(s)).0.At? {
      NewPages(s);
    }
  }

  /** Taking the next zone out of service moves the head of its list, and no header changes. */
  lemma FreshViews(s: State, heads: seq<int>, zf: int, znext: Links, header: map<Node, Header>, cnext: Links)
    requires |heads| == NZONES && Threaded(AllLists(s), heads + [zf], znext) && Headers(s, header, cnext)
    ensures zf == NULL <==> s.zoneFree == []
    ensures s.zoneFree != [] ==>
      zf == s.zoneFree[0] && zf as Node in znext && Threaded(AllLists(Fresh(s).0), heads + [znext[zf as Node]], znext)
    ensures s.zoneFree == [] ==> Threaded(AllLists(Fresh(s).0), heads + [zf], znext)
    ensures Headers(Fresh(s).0, header, cnext)
  {
    hide Marked, PageRuns.Alloc, HeaderIs, Threaded;
    FreshSizes(s);
    var ls := AllLists(s);
    HeadAt(ls, heads + [zf], znext, NZONES);
    FreeChanged(s, Fresh(s).0);
    if s.zoneFree != [] {
      Pop(ls, heads + [zf], znext, NZONES);
      assert (heads + [zf])[NZONES := znext[zf as Node]] == heads + [znext[zf as Node]];
    } else {
      assert AllLists(Fresh(s).0) == ls;
    }
  }

  lemma HeadAt(ls: seq<seq<Node>>, heads: seq<int>, next: Links, i: nat)
    requires Threaded(ls, heads, next) && i < |ls|
    ensures heads[i] == NULL <==> ls[i] == []
  {
    assert Chain(next, heads[i], ls[i]);
  }

  lemma NewState(s: State, z: nat, request: nat, heads: seq<int>, zf: int, znext: Links, usage: seq<Usage>)
    requires Inv(s) && Reserved(s, z) && 0 < request < s.zoneLimit <= MAX_LIMIT
    requires |heads| == NZONES && Threaded(AllLists(s), heads + [zf], znext) && Marks(s, usage)
    ensures var (i, size) := ZoneIndex(request); 0 <= i < NZONES && 0 < size
    ensures var (i, size) := ZoneIndex(request); var r := WithZone(s, z, i, size).0;
      && Inv(r) && Marks(r, usage) && r == s.(zones := s.zones[z := NewZone(s, i, size)], zoneArray := r.zoneArray)
      && Threaded(AllLists(r), heads[i := z] + [zf], znext[z := heads[i]])
      && Offset(size) <= s.zoneSize
  {
    hide Inv, Reserved, Marks, Threaded, ZoneIndex, NewZone, UsageOk;
    ZoneIndexIs(request);
    WithZoneKeeps(s, z, request);
    NewFits(s, request);
    var (i, size) := ZoneIndex(request);
    var r := WithZone(s, z, i, size).0;
    SameMarks(s, r, usage);
    ReservedNew(s, z);
    ReservedNotFree(s, z);
    NotListed(s, z);
    Push(AllLists(s), heads + [zf], znext, i, z);
    ListChanged(s, r, i, [z] + ListOf(s, i));
    assert (heads + [zf])[i := z] == heads[i := z] + [zf];
  }

  lemma NewFits(s: State, request: nat)
    requires Inv(s) && 0 < request < s.zoneLimit <= MAX_LIMIT
    ensures ZoneIndex(request).1 > 0 && Offset(ZoneIndex(request).1) <= s.zoneSize
  {
    hide Offset, ZoneIndex, SizeOf, Distinct;
    ZoneIndexIs(request);
    NewZoneOk(s, request);
  }

  lemma ReservedNotFree(s: State, z: nat)
    requires Reserved(s, z)
    ensures z !in s.zoneFree
  {
    hide AllUsed, Apart;
  }

  lemma LargeState(s: State, size: nat, header: map<Node, Header>, cnext: Links)
    requires Inv(s) && 0 < size && Headers(s, header, cnext)
    ensures var r := SlabModel.FromPages(s, size).0;
      Inv(r) && Headers(r, header, cnext) && AllLists(r) == AllLists(s) && r.zoneFree == s.zoneFree
    ensures var n := (size + PAGE - 1) / PAGE;
      && 0 < n && (Alloc(s.runs, n).0.At? ==> Alloc(s.runs, n).0.page + n <= s.total)
      && (Alloc(s.runs, n).0 == NoPages ==> Alloc(s.runs, n).1 == s.runs)
  {
    hide Inv, PageRuns.Alloc, HeaderIs;
    FromPagesKeeps(s, size);
    AllocFailsIff(s.runs, (size + PAGE - 1) / PAGE);
    RunsWithin(s);
    if Alloc(s.runs, (size + PAGE - 1) / PAGE).0.At? {
      FitInside(s.runs, (size + PAGE - 1) / PAGE, s.total);
    }
  }

  lemma RunsWithin(s: State)
    requires Inv(s)
    ensures Within(s.runs, 0, s.total)
  {
    hide SizesOk, ZonesOk, UsageOk, ArrayOk, Tidy, AllUsed;
  }

  lemma MarkSet(s: State, r: State, usage: seq<Usage>, p: nat, u: Usage)
    requires Marks(s, usage) && p < |usage| && r.usage == s.usage[p := u] && r.total == s.total
    ensures Marks(r, usage[p := u])
  {
  }

  lemma TakenState(s: State, i: nat, heads: seq<int>, zf: int, znext: Links, usage: seq<Usage>)
    requires Inv(s) && i < NZONES && |heads| == NZONES && Threaded(AllLists(s), heads + [zf], znext)
    requires ListOf(s, i) != [] && ListOf(s, i)[0] in s.zones && Marks(s, usage)
    ensures var z, r := ListOf(s, i)[0], FromZone(s, i).0;
      && Inv(r) && Marks(r, usage) && r.zones == s.zones[z := SlabModel.TakeChunk(s.zones[z])]
      && r == s.(zones := r.zones, zoneArray := r.zoneArray)
      && if s.zones[z].nfree == 1 then z in znext && Threaded(AllLists(r), heads[i := znext[z]] + [zf], znext[z := NULL])
        else Threaded(AllLists(r), heads + [zf], znext)
  {
    hide Inv, Threaded, SlabModel.TakeChunk, NextChunk, AllLists, ChunkAt;
    FromZoneKeeps(s, i);
    TakeLists(s, i, heads, zf, znext);
    SameMarks(s, FromZone(s, i).0, usage);
  }

  lemma SameMarks(s: State, r: State, usage: seq<Usage>)
    requires Marks(s, usage) && r.usage == s.usage && r.total == s.total
    ensures Marks(r, usage)
  {
  }

  lemma TakeLists(s: State, i: nat, heads: seq<int>, zf: int, znext: Links)
    requires Inv(s) && i < NZONES && |heads| == NZONES && Threaded(AllLists(s), heads + [zf], znext)
    requires ListOf(s, i) != [] && ListOf(s, i)[0] in s.zones
    ensures var z, r := ListOf(s, i)[0], FromZone(s, i).0;
      if s.zones[z].nfree == 1 then z in znext && Threaded(AllLists(r), heads[i := znext[z]] + [zf], znext[z := NULL])
      else Threaded(AllLists(r), heads + [zf], znext)
  {
    hide Inv, Threaded, Chain, SlabModel.TakeChunk, NextChunk;
    var z, r := ListOf(s, i)[0], FromZone(s, i).0;
    var ls := AllLists(s);
    assert ls[i] == ListOf(s, i);
    if s.zones[z].nfree == 1 {
      ListsSeparate(s);
      Pop(ls, heads + [zf], znext, i);
      PopSeparate(ls, i);
      ListChanged(s, r, i, ListOf(s, i)[1..]);
      FreeLink(AllLists(r), (heads + [zf])[i := znext[z]], znext, z, NULL);
      assert (heads + [zf])[i := znext[z]] == heads[i := znext[z]] + [zf];
    } else {
      assert AllLists(r) == ls;
    }
  }
}
