/** No page of the slab heap is ever lost: it is free, or part of a zone or a large block; and at most two
    zones are kept out of service.
 */
module SlabPages {
  import opened PageRuns
  import opened SlabHistory
  import opened SlabLemmas
  import opened SlabModel
  import opened SlabRuns
  import opened Sequences

  ghost predicate PageHeld(s: State, p: nat) {
    exists a :: a in Held(s) && a <= p < a + Span(s, a)
  }

  /** The page is there to be handed out, or was. */
  ghost predicate Stock(s: State, p: nat) {
    IsFree(s.runs, p) || PageHeld(s, p)
  }

  ghost predicate SameStock(s: State, r: State) {
    r.total == s.total && forall p: nat :: Stock(r, p) <==> Stock(s, p)
  }

  lemma SameHeld(s: State, r: State)
    requires Held(r) == Held(s) && r.runs == s.runs && r.total == s.total
    requires forall a :: a in Held(s) ==> Span(r, a) == Span(s, a)
    ensures SameStock(s, r)
  {
    hide IsFree, Held, Span;
  }

  lemma StockTrans(s: State, t: State, r: State)
    requires SameStock(s, t) && SameStock(t, r)
    ensures SameStock(s, r)
  {
    hide Stock;
  }

  /** An area changes hands: it is taken from the free pages. */
  lemma TakenStock(s: State, r: State, a: nat, n: nat)
    requires Held(r) == Held(s) + {a} && Span(r, a) == n && r.total == s.total
    requires forall b :: b in Held(s) ==> b != a && Span(r, b) == Span(s, b)
    requires forall p: nat :: IsFree(r.runs, p) <==> IsFree(s.runs, p) && !(a <= p < a + n)
    requires forall p: nat :: a <= p < a + n ==> IsFree(s.runs, p)
    ensures SameStock(s, r)
  {
    hide IsFree, Held, Span;
    forall p: nat
      ensures Stock(r, p) <==> Stock(s, p)
    {
      if PageHeld(s, p) {
        var b :| b in Held(s) && b <= p < b + Span(s, b);
        assert b in Held(r) && b <= p < b + Span(r, b);
      }
      if a <= p < a + n {
        assert a in Held(r) && a <= p < a + Span(r, a);
      }
      if PageHeld(r, p) {
        var b :| b in Held(r) && b <= p < b + Span(r, b);
        assert b == a || (b in Held(s) && b <= p < b + Span(s, b));
      }
    }
  }

  /** An area goes back to the free pages. */
  lemma ReturnedStock(s: State, r: State, a: nat, n: nat)
    requires a in Held(s) && Held(r) == Held(s) - {a} && Span(s, a) == n && r.total == s.total
    requires forall b :: b in Held(r) ==> Span(r, b) == Span(s, b)
    requires forall p: nat :: IsFree(r.runs, p) <==> IsFree(s.runs, p) || a <= p < a + n
    ensures SameStock(s, r)
  {
    hide IsFree, Held, Span;
    forall p: nat
      ensures Stock(r, p) <==> Stock(s, p)
    {
      if PageHeld(s, p) {
        var b :| b in Held(s) && b <= p < b + Span(s, b);
        assert b == a || (b in Held(r) && b <= p < b + Span(r, b));
      }
      if a <= p < a + n {
        assert a in Held(s) && a <= p < a + Span(s, a);
      }
      if PageHeld(r, p) {
        var b :| b in Held(r) && b <= p < b + Span(r, b);
        assert b in Held(s) && b <= p < b + Span(s, b);
      }
    }
  }

  // ---- rt_malloc --------------------------------------------------------------------------

  lemma GrantedPages(s: State, n: nat)
    requires Inv(s) && 0 < n && Alloc(s.runs, n).0.At?
    ensures var (g, r) := Alloc(s.runs, n);
      && (forall p: nat :: IsFree(r, p) <==> IsFree(s.runs, p) && !(g.page <= p < g.page + n))
      && (forall p: nat :: g.page <= p < g.page + n ==> IsFree(s.runs, p))
  {
    hide Tidy, IsFree, SizesOk, ZonesOk, ArrayOk, UsageOk, AllUsed, Within;
    var (g, r) := Alloc(s.runs, n);
    forall p: nat
      ensures IsFree(r, p) <==> IsFree(s.runs, p) && !(g.page <= p < g.page + n)
      ensures g.page <= p < g.page + n ==> IsFree(s.runs, p)
    {
      AllocPages(s.runs, n, p);
    }
  }

  lemma FromZoneStock(s: State, i: nat)
    requires Inv(s) && ListOf(s, i) != [] && ListOf(s, i)[0] in s.zones
    ensures SameStock(s, FromZone(s, i).0)
  {
    hide Inv, TakeChunk, NextChunk;
    var r := FromZone(s, i).0;
    assert Held(r) == Held(s);
    SameHeld(s, r);
  }

  lemma PoppedStock(s: State, i: nat, chunk: nat)
    requires Inv(s) && s.zoneFree != [] && 0 < chunk
    ensures SameStock(s, FromNewZone(s, i, chunk).0)
  {
    hide SizesOk, ZonesOk, ArrayOk, UsageOk, NewZone, Tidy, Within, AllUsed, Apart, Distinct;
    var r := FromNewZone(s, i, chunk).0;
    assert s.zoneFree == [s.zoneFree[0]] + s.zoneFree[1..];
    assert Held(r) == Held(s);
    SameHeld(s, r);
  }

  lemma NewStock(s: State, i: nat, chunk: nat)
    requires Inv(s) && s.zoneFree == [] && Alloc(s.runs, ZonePages(s)).0.At? && 0 < chunk
    ensures SameStock(s, FromNewZone(s, i, chunk).0)
  {
    hide Inv, NewZone, Marked, IsFree;
    var n, r := ZonePages(s), FromNewZone(s, i, chunk).0;
    var z := Alloc(s.runs, n).0.page;
    NewPages(s);
    ZoneHasPages(s);
    GrantedPages(s, n);
    ReservedApart(s.(runs := r.runs, usage := r.usage), z);
    assert Held(r) == Held(s) + {z};
    TakenStock(s, r, z, n);
  }

  lemma ZoneHasPages(s: State)
    requires Inv(s)
    ensures 0 < ZonePages(s)
  {
  }

  lemma ReservedApart(s: State, z: nat)
    requires Reserved(s, z)
    ensures z !in Held(s) && z !in s.large
  {
  }

  lemma FromPagesStock(s: State, size: nat)
    requires Inv(s) && 0 < size
    ensures SameStock(s, FromPages(s, size).0)
  {
    hide Inv, IsFree;
    var n := (size + PAGE - 1) / PAGE;
    var (r, q) := FromPages(s, size);
    if q.To? {
      var a := Alloc(s.runs, n).0.page;
      GrantedPages(s, n);
      GrantedApart(s, n);
      assert Held(r) == Held(s) + {a};
      TakenStock(s, r, a, n);
    }
  }

  lemma GrantedApart(s: State, n: nat)
    requires Inv(s) && 0 < n && Alloc(s.runs, n).0.At?
    ensures Alloc(s.runs, n).0.page !in Held(s)
  {
    hide AllUsed, Tidy, Within, SizesOk, ZonesOk, UsageOk, ArrayOk;
    var a := Alloc(s.runs, n).0.page;
    Granted(s, n);
    forall b | b in Held(s)
      ensures b != a
    {
      assert Apart(b, Span(s, b), a, n);
    }
  }

  lemma MallocStock(s: State, size: nat)
    requires Inv(s)
    ensures ListsKnown(s) && s.zoneLimit <= MAX_LIMIT && SameStock(s, Malloc(s, size).0)
  {
    hide Inv, ZoneIndex, FromZone, FromNewZone, FromPages, Suits, SameStock;
    ListsKnownOf(s);
    SizesOf(s);
    SelfStock(s);
    if 0 < size < s.zoneLimit {
      ZoneIndexIs(size);
      IndexOk(size);
      var (i, chunk) := ZoneIndex(size);
      if ListOf(s, i) != [] {
        FromZoneStock(s, i);
      } else if s.zoneFree != [] {
        PoppedStock(s, i, chunk);
      } else if Alloc(s.runs, ZonePages(s)).0.At? {
        NewStock(s, i, chunk);
      } else {
        NoZoneSame(s, i, chunk);
      }
    } else if 0 < size {
      FromPagesStock(s, size);
    }
  }

  lemma NoZoneSame(s: State, i: nat, chunk: nat)
    requires s.zoneFree == [] && !Alloc(s.runs, ZonePages(s)).0.At? && 0 < chunk
    ensures FromNewZone(s, i, chunk).0 == s
  {
  }

  lemma SelfStock(s: State)
    ensures SameStock(s, s)
  {
    hide Stock;
  }

  // ---- rt_free ----------------------------------------------------------------------------

  lemma FreedPages(s: State, a: nat, n: nat)
    requires Inv(s) && 0 < n && AllUsed(s.runs, a, n)
    ensures forall p: nat :: IsFree(Free(s.runs, a, n), p) <==> IsFree(s.runs, p) || a <= p < a + n
  {
    hide SizesOk, ZonesOk, ArrayOk, UsageOk, AllUsed, Tidy, Within, IsFree;
    forall p: nat
      ensures IsFree(Free(s.runs, a, n), p) <==> IsFree(s.runs, p) || a <= p < a + n
    {
      FreePages(s.runs, a, n, p);
    }
  }

  lemma HeldUsed(s: State, a: nat)
    requires Inv(s) && a in Held(s)
    ensures 0 < Span(s, a) && AllUsed(s.runs, a, Span(s, a))
  {
    hide SizesOk, ZonesOk, ArrayOk, UsageOk, AllUsed, Tidy, Within, Apart, Distinct;
  }

  lemma LargeStock(s: State, a: nat)
    requires Inv(s) && a in s.large
    ensures SameStock(s, Release(s, a * PAGE)) && Release(s, a * PAGE).zoneFree == s.zoneFree
  {
    hide Inv, IsFree, AllUsed;
    LargeMarked(s, a);
    var r := Release(s, a * PAGE);
    assert a in Held(s) && Span(s, a) == s.large[a];
    HeldUsed(s, a);
    FreedPages(s, a, s.large[a]);
    LargeApart(s, a);
    assert Held(r) == Held(s) - {a};
    ReturnedStock(s, r, a, s.large[a]);
  }

  lemma LargeApart(s: State, a: nat)
    requires Inv(s) && a in s.large
    ensures a !in s.zones && a !in s.zoneFree
  {
    hide SizesOk, ZonesOk, ArrayOk, UsageOk, AllUsed, Tidy, Within, Apart, Distinct;
  }

  lemma GiveBackStock(s: State, z: nat, c: nat)
    requires z in s.zones
    ensures SameStock(s, GiveBack(s, z, c)) && GiveBack(s, z, c).zoneFree == s.zoneFree
  {
    var r := GiveBack(s, z, c);
    assert Held(r) == Held(s);
    SameHeld(s, r);
  }

  lemma RetireStock(s: State, z: nat)
    requires z in s.zones
    ensures SameStock(s, Retire(s, z))
    ensures Retire(s, z).zoneFree == if z in Retire(s, z).zones then s.zoneFree else [z] + s.zoneFree
  {
    var r := Retire(s, z);
    if r != s {
      assert Held(r) == Held(s) by {
        assert forall a :: a in r.zoneFree <==> a == z || a in s.zoneFree;
      }
      SameHeld(s, r);
    } else {
      SelfStock(s);
    }
  }

  lemma ReleaseZoneStock(s: State)
    requires Inv(s)
    ensures SameStock(s, ReleaseZone(s))
    ensures |ReleaseZone(s).zoneFree| == if |s.zoneFree| > RELEASE then |s.zoneFree| - 1 else |s.zoneFree|
  {
    hide Inv, IsFree, AllUsed, Cleared;
    if |s.zoneFree| > RELEASE {
      var z, r := s.zoneFree[0], ReleaseZone(s);
      assert z in s.zoneFree && z in Held(s);
      PopApart(s);
      HeldUsed(s, z);
      FreedPages(s, z, ZonePages(s));
      assert Held(r) == Held(s) - {z};
      ReturnedStock(s, r, z, ZonePages(s));
    } else {
      SelfStock(s);
    }
  }

  lemma PopApart(s: State)
    requires Inv(s) && s.zoneFree != []
    ensures var z := s.zoneFree[0];
      z !in s.zones && z !in s.large && forall a :: a in s.zoneFree[1..] <==> a in s.zoneFree && a != z
  {
    hide SizesOk, ZonesOk, ArrayOk, UsageOk, AllUsed, Tidy, Within, Apart;
    TailDistinct(s.zoneFree);
    assert s.zoneFree[0] in s.zoneFree;
  }

  lemma ReleaseStock(s: State, addr: nat)
    requires Inv(s) && Live(s, addr) && |s.zoneFree| <= RELEASE
    ensures SameStock(s, Release(s, addr)) && |Release(s, addr).zoneFree| <= RELEASE
  {
    hide Inv, Release, GiveBack, Retire, ReleaseZone, SameStock, ChunkAt, InUse;
    if addr % PAGE == 0 && addr / PAGE in s.large {
      LargeStock(s, addr / PAGE);
      assert addr == addr / PAGE * PAGE;
    } else {
      var z, c :| LiveChunk(s, addr, z, c);
      ReleaseChunk(s, addr, z, c);
      GiveBackStock(s, z, c);
      GiveBackKeeps(s, z, c);
      GiveBackIs(s, z, c);
      ChunkFacts(s, addr, z, c);
      HasFree(s, z, c);
      var u := GiveBack(s, z, c);
      RetireStock(u, z);
      RetireKeeps(u, z);
      var v := Retire(u, z);
      StockTrans(s, u, v);
      if z !in v.zones {
        ReleaseZoneStock(v);
        StockTrans(s, v, ReleaseZone(v));
      }
    }
  }

  lemma HasFree(s: State, z: nat, c: nat)
    requires z in s.zones && ZoneOk(s, s.zones[z])
    ensures 0 < GiveBack(s, z, c).zones[z].nfree
  {
  }

  // ---- Which zones serve, and which retire ------------------------------------------------

  /** A zone of this index that has a free chunk. */
  ghost predicate HasChunk(s: State, i: nat, z: nat) {
    z in s.zones && s.zones[z].index == i && 0 < s.zones[z].nfree
  }

  /** A small request is served by a zone that has a free chunk, if there is one; else by the zone that left
      service last; and only then by fresh pages. */
  lemma ZonesFirst(s: State, size: nat)
    requires Inv(s) && 0 < size < s.zoneLimit
    ensures ListsKnown(s) && s.zoneLimit <= MAX_LIMIT && ZoneIndex(size).0 >= 0
    ensures var (r, p) := Malloc(s, size);
      if exists z :: HasChunk(s, ZoneIndex(size).0, z) then
        p.To? && r.zones.Keys == s.zones.Keys && r.zoneFree == s.zoneFree && r.runs == s.runs
      else if s.zoneFree != [] then
        p.To? && r.zones.Keys == s.zones.Keys + {s.zoneFree[0]} && r.zoneFree == s.zoneFree[1..] && r.runs == s.runs
      else r.zoneFree == []
  {
    hide Inv, ZoneIndex, NewZone, Marked, TakeChunk, NextChunk, Suits;
    ListsKnownOf(s);
    SizesOf(s);
    ZoneIndexIs(size);
    IndexOk(size);
    var i := ZoneIndex(size).0;
    EmptyList(s, i);
    if z :| HasChunk(s, i, z) {
      assert z in s.zones && s.zones[z].index == i && 0 < s.zones[z].nfree;
      assert ListOf(s, i) != [];
    } else {
      assert forall z :: z in s.zones && s.zones[z].index == i ==> s.zones[z].nfree <= 0 by {
        forall z | z in s.zones && s.zones[z].index == i
          ensures s.zones[z].nfree <= 0
        {
          assert !HasChunk(s, i, z);
        }
      }
    }
  }

  lemma {:induction false} AllListed(list: seq<nat>, k: nat)
    requires Distinct(list) && forall n: nat :: n < k ==> n in list
    ensures k <= |list|
  {
    if 0 < k {
      var last: nat := k - 1;
      assert last in list;
      var i :| 0 <= i < |list| && list[i] == last;
      var rest := list[..i] + list[i + 1..];
      assert forall j :: 0 <= j < |rest| ==> rest[j] == list[if j < i then j else j + 1];
      forall n: nat | n < k - 1
        ensures n in rest
      {
        assert n in list;
        var j :| 0 <= j < |list| && list[j] == n;
        assert rest[if j < i then j else j - 1] == n;
      }
      AllListed(rest, k - 1);
    }
  }

  /** A zone counts as many free chunks as it has exactly when none is in use. */
  lemma UnusedIff(s: State, x: Zone)
    requires ZoneOk(s, x)
    ensures x.nfree == x.nmax <==> forall c: nat :: !InUse(x, c)
  {
    hide SizeOf;
    if x.nfree == x.nmax {
      forall c: nat
        ensures !InUse(x, c)
      {
        AllFree(s, x, c);
      }
    } else if forall c: nat :: !InUse(x, c) {
      forall c: nat | c < x.uindex + 1
        ensures c in x.freed
      {
        assert !InUse(x, c);
      }
      AllListed(x.freed, x.uindex + 1);
      DistinctBound(x.freed, x.uindex + 1);
    }
  }

  lemma SomebodyIn(list: seq<nat>)
    ensures list == [] || exists y :: y in list
  {
    assert list == [] || list[0] in list;
  }

  lemma OnlyOne(list: seq<nat>, z: nat)
    requires Distinct(list) && forall y :: y in list <==> y == z
    ensures list == [z]
  {
    assert z in list;
    TailDistinct(list);
    SomebodyIn(list[1..]);
    assert list[0] in list;
    assert list == [list[0]] + list[1..];
  }

  lemma AloneIff(s: State, z: nat)
    requires Inv(s) && z in s.zones && 0 < s.zones[z].nfree
    ensures ListOf(s, s.zones[z].index) == [z] <==> forall y :: HasChunk(s, s.zones[z].index, y) ==> y == z
  {
    hide SizesOk, ZonesOk, UsageOk, AreasOk;
    var list := ListOf(s, s.zones[z].index);
    assert z in list;
    if forall y :: HasChunk(s, s.zones[z].index, y) ==> y == z {
      forall y | y in list
        ensures y == z
      {
        assert HasChunk(s, s.zones[z].index, y);
      }
      OnlyOne(list, z);
    } else {
      var y :| HasChunk(s, s.zones[z].index, y) && y != z;
      assert y in list;
    }
  }

  /** Freeing a chunk takes its zone out of service exactly when no other of its chunks is in use and
      another zone of its index has a free chunk. */
  lemma RetiresIff(s: State, addr: nat, z: nat, c: nat)
    requires Inv(s) && LiveChunk(s, addr, z, c)
    ensures z !in Release(s, addr).zones <==>
      && (forall d: nat :: InUse(s.zones[z], d) ==> d == c)
      && exists y :: y != z && HasChunk(s, s.zones[z].index, y)
  {
    hide Inv, Release, GiveBack, Retire, ReleaseZone, ChunkAt, InUse, HasChunk, ZoneOk;
    var u := GiveBack(s, z, c);
    LiveUse(s, addr, z, c);
    ReleaseChunk(s, addr, z, c);
    GiveBackKeeps(s, z, c);
    GiveBackIs(s, z, c);
    ChunkFacts(s, addr, z, c);
    HasFree(s, z, c);
    GiveChunkOk(s, s.zones[z], c);
    ChunkFactsOf(u, z);
    UnusedIff(u, u.zones[z]);
    AloneIff(u, z);
    RetireIs(u, z);
    OthersChunks(s, u, z);
    SettledIs(u, z);
  }

  lemma LiveUse(s: State, addr: nat, z: nat, c: nat)
    requires LiveChunk(s, addr, z, c)
    ensures z in s.zones && InUse(s.zones[z], c)
  {
  }

  lemma RetireIs(u: State, z: nat)
    requires z in u.zones
    ensures z in Retire(u, z).zones <==> !(u.zones[z].nfree == u.zones[z].nmax && ListOf(u, u.zones[z].index) != [z])
  {
  }

  lemma SettledIs(u: State, z: nat)
    requires z in u.zones
    ensures z in Settled(u, z).zones <==> z in Retire(u, z).zones
  {
    hide Cleared;
  }

  lemma OthersChunks(s: State, u: State, z: nat)
    requires z in s.zones && z in u.zones && u.zones[z].index == s.zones[z].index && u.zones.Keys == s.zones.Keys
    requires forall y :: y in s.zones && y != z ==> u.zones[y] == s.zones[y]
    ensures forall i, y :: y != z ==> (HasChunk(u, i, y) <==> HasChunk(s, i, y))
  {
  }

  // ---- Runs -------------------------------------------------------------------------------

  lemma MallocZoneFree(s: State, size: nat)
    requires ListsKnown(s) && s.zoneLimit <= MAX_LIMIT
    ensures |Malloc(s, size).0.zoneFree| <= |s.zoneFree|
  {
    hide ZoneIndex, NewZone, Marked, TakeChunk, NextChunk;
  }

  lemma StartStock(npages: nat, usage: map<nat, Usage>)
    requires 0 < npages
    ensures var s := Start(npages, usage);
      s.zoneFree == [] && s.total == npages && forall p: nat :: Stock(s, p) <==> UsagePages(npages) <= p < npages
  {
    hide IsFree, Doubled, UsagePages;
    var s, n := Start(npages, usage), UsagePages(npages);
    StartInv(npages, usage);
    UsageNeeded(npages);
    OneTidy(Run(0, npages));
    forall p: nat
      ensures Stock(s, p) <==> n <= p < npages
    {
      AllocPages(Free([], 0, npages), n, p);
      OneRunFree(npages, p);
    }
  }

  lemma UsageNeeded(npages: nat)
    requires 0 < npages
    ensures 0 < UsagePages(npages) <= npages
  {
  }

  lemma OneRunFree(npages: nat, p: nat)
    ensures IsFree(Free([], 0, npages), p) <==> p < npages
  {
    assert Free([], 0, npages) == [Run(0, npages)];
    assert [Run(0, npages)][0] == Run(0, npages);
  }

  /** Main result on pages: in every state of every run every page behind those of memusage is free or part
      of a zone or a large block, and at most two zones are out of service. */
  lemma {:induction false} RunStock(run: seq<State>, ops: seq<SlabHistory.Op>, k: nat)
    requires SlabHistory.IsRun(run, ops) && k <= |ops|
    ensures |run[k].zoneFree| <= RELEASE
    ensures forall p: nat :: Stock(run[k], p) <==> UsagePages(run[k].total) <= p < run[k].total
  {
    hide Inv, Malloc, Release, Live, ListsKnown, Stock, UsagePages;
    if k == 0 {
      var n: nat, usage :| 0 < n && run[0] == Start(n, usage);
      StartStock(n, usage);
    } else {
      RunStock(run, ops, k - 1);
      SlabHistory.RunInv(run, ops, k - 1);
      assert SlabHistory.IsStep(run[k - 1], ops[k - 1], run[k - 1 + 1]);
      match ops[k - 1]
      case Get(size) =>
        MallocStock(run[k - 1], size);
        MallocZoneFree(run[k - 1], size);
      case Put(addr) =>
        ReleaseStock(run[k - 1], addr);
    }
  }
}
