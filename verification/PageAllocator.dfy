/** The page allocator (slab.c): the list of runs threaded through the free pages, and the two
    loops over it, against PageRuns.
 */
module PageAllocators {
  import opened Chains
  import opened PageRuns
  import opened Sequences

  ghost function Starts(runs: seq<Run>): (s: seq<Node>)
    ensures |s| == |runs|
  {
    seq(|runs|, i requires 0 <= i < |runs| => runs[i].start)
  }

  class PageAllocator {
    const total: nat               // the pages of the heap

    var pageList: int              // rt_page_list
    var next: Links                // the next field of a run, by page
    var page: map<Node, nat>       // the page field of a run, by page

    ghost var runs: seq<Run>

    ghost predicate Fields(part: seq<Run>)
      reads `page
    {
      FieldsIn(page, part)
    }

    ghost predicate Valid()
      reads this
    {
      Tidy(runs) && Within(runs, 0, total) && Chain(next, pageList, Starts(runs)) && Fields(runs)
    }

    /** rt_page_init */
    constructor (npages: nat)
      requires npages != 0
      ensures Valid() && total == npages && runs == PageRuns.Free([], 0, npages)
    {
      total := npages;
      pageList, next, page, runs := NULL, map[], map[], [];
      new;
      NothingUsed(0, npages);
      Free(0, npages);
    }

    /** What the loops have passed: `done`, whose last run is `prev`, and what lies ahead. */
    ghost predicate Passed(done: seq<Run>, rest: seq<Run>, prev: int, b: int)
      reads this
    {
      && runs == done + rest
      && Part(next, pageList, Starts(done), b) && Chain(next, b, Starts(rest))
      && prev == (if done == [] then NULL else done[|done| - 1].start)
    }

    /** Stores a link where `prev` points: in the list head, or in the run passed last. */
    method SetPrev(prev: int, v: int, ghost done: seq<Run>, ghost rest: seq<Run>, ghost b: int)
      requires Tidy(runs) && Passed(done, rest, prev, b)
      modifies this`pageList, this`next
      ensures Part(next, pageList, Starts(done), v)
      ensures next == if prev == NULL then old(next) else old(next)[prev as Node := v]
    {
      if prev == NULL {
        pageList := v;
      } else {
        StartsDistinct(done, rest);
        PartEnd(next, pageList, Starts(done), b, v);
        next := next[prev as Node := v];
      }
    }

    /** A run becomes the next one behind `prev`, in front of the runs `tail` that begin at `v`. */
    method InsertAt(x: Node, size: nat, v: int, prev: int, ghost b: int,
        ghost done: seq<Run>, ghost rest: seq<Run>, ghost tail: seq<Run>)
      requires Tidy(runs) && Fields(runs) && Passed(done, rest, prev, b)
      requires Chain(next, v, Starts(tail)) && (tail == rest || (rest != [] && tail == rest[1..]))
      requires x !in Starts(done) && x !in Starts(rest)
      modifies this`pageList, this`next, this`page, this`runs
      ensures runs == done + [Run(x, size)] + tail
      ensures Chain(next, pageList, Starts(runs)) && Fields(runs)
    {
      hide Tidy, Chain, Part;
      StartsDistinct(done, rest);
      StartsTail(rest, tail);
      PartElsewhere(next, pageList, Starts(done), b, x, v);
      ChainElsewhere(next, b, Starts(rest), x, v);
      ChainElsewhere(next, v, Starts(tail), x, v);
      SomeFields(done, rest, tail, x, size);
      next := next[x := v];
      page := page[x := size];
      ghost var before := next;
      SetPrev(prev, x, done, rest, b);
      PrevStart(done, rest, prev);
      if prev != NULL {
        ChainElsewhere(before, v, Starts(tail), prev, x);
      }
      ChainCons(next, x, v, tail, size);
      PartChain(next, pageList, Starts(done), x, Starts([Run(x, size)] + tail));
      StartsJoin(done, [Run(x, size)] + tail);
      assert done + ([Run(x, size)] + tail) == done + [Run(x, size)] + tail;
      runs := done + [Run(x, size)] + tail;
    }

    /** The runs that are kept have the fields they had. */
    lemma SomeFields(done: seq<Run>, rest: seq<Run>, tail: seq<Run>, x: Node, size: nat)
      requires Fields(runs) && runs == done + rest && (tail == rest || (rest != [] && tail == rest[1..]))
      requires x !in Starts(done) && x !in Starts(rest)
      ensures FieldsIn(page[x := size], done + [Run(x, size)] + tail)
    {
      var r := done + [Run(x, size)] + tail;
      forall i | 0 <= i < |r|
        ensures r[i].start in page[x := size] && page[x := size][r[i].start] == r[i].pages
      {
        if i != |done| {
          var k := if i < |done| then i else if tail == rest then i - 1 else i;
          assert r[i] == runs[k];
          assert i < |done| ==> Starts(done)[i] == r[i].start;
          assert |done| < i ==> Starts(rest)[k - |done|] == r[i].start;
        }
      }
    }

    /** rt_page_alloc */
    method Alloc(npages: nat) returns (b: int)
      requires Valid()
      modifies this`pageList, this`next, this`page, this`runs
      ensures Valid()
      ensures npages == 0 ==> b == NULL && runs == old(runs)
      ensures npages != 0 ==> b == Granted(PageRuns.Alloc(old(runs), npages).0)
      ensures npages != 0 ==> runs == PageRuns.Alloc(old(runs), npages).1
    {
      hide Tidy, Chain, Part, Within, Passed, Fields;
      if npages == 0 {
        return NULL;
      }
      AllocTidy(runs, npages);
      AllocWithin(runs, npages, 0, total);
      var prev := NULL;
      b := pageList;
      ghost var done, rest := [], runs;
      AtStart();
      while b != NULL
        invariant Valid() && Passed(done, rest, prev, b) && runs == old(runs)
        invariant PageRuns.Alloc(runs, npages).0 == PageRuns.Alloc(rest, npages).0
        invariant PageRuns.Alloc(runs, npages).1 == done + PageRuns.Alloc(rest, npages).1
        decreases |rest|
      {
        Ahead(done, rest, prev, b);
        if page[b] > npages {
          SplitRun(prev, b, npages, done, rest);
          return;
        }
        if page[b] == npages {
          DropRun(prev, b, done, rest);
          return;
        }
        Same(done, [rest[0]], PageRuns.Alloc(rest[1..], npages).1);
        prev := b;
        b := next[b];
        done, rest := done + [rest[0]], rest[1..];
      }
      AtEnd(done, rest, prev, b);
    }

    /** rt_page_free; the pages are in use. */
    method Free(a: nat, npages: nat)
      requires Valid() && npages != 0 && a + npages <= total && AllUsed(runs, a, npages)
      modifies this`pageList, this`next, this`page, this`runs
      ensures Valid() && runs == PageRuns.Free(old(runs), a, npages)
    {
      hide Tidy, Chain, Part, Within, Passed, Fields, AllUsed;
      FreeTidy(runs, a, npages);
      FreeWithin(runs, a, npages, 0, total);
      UsedNotStart(runs, a, npages);
      var prev := NULL;
      var b := pageList;
      ghost var done, rest := [], runs;
      AtStart();
      while b != NULL
        invariant Valid() && Passed(done, rest, prev, b) && runs == old(runs)
        invariant PageRuns.Free(runs, a, npages) == done + PageRuns.Free(rest, a, npages)
        decreases |rest|
      {
        Ahead(done, rest, prev, b);
        StartsOf(done, rest, prev, b);
        if b + page[b] == a {
          Extend(b, npages, prev, done, rest);
          return;
        }
        if b == a + npages {
          Same(done, [Run(a, npages + page[b])], rest[1..]);
          InsertAt(a, page[b] + npages, next[b], prev, b, done, rest, rest[1..]);
          return;
        }
        if b > a + npages {
          break;
        }
        Same(done, [rest[0]], PageRuns.Free(rest[1..], a, npages));
        prev := b;
        b := next[b];
        done, rest := done + [rest[0]], rest[1..];
      }
      StartsOf(done, rest, prev, b);
      FreeHere(done, rest, prev, b, a, npages);
      Same(done, [Run(a, npages)], rest);
      InsertAt(a, npages, b, prev, b, done, rest, rest);
    }

    lemma FreeHere(done: seq<Run>, rest: seq<Run>, prev: int, b: int, a: nat, n: nat)
      requires Passed(done, rest, prev, b) && (b == NULL || b > a + n)
      ensures PageRuns.Free(rest, a, n) == [Run(a, n)] + rest
      ensures Chain(next, b, Starts(rest))
    {
    }

    lemma StartsOf(done: seq<Run>, rest: seq<Run>, prev: int, b: int)
      requires Passed(done, rest, prev, b)
      ensures runs == done + rest
      ensures forall p :: p in Starts(done) || p in Starts(rest) ==> p in Starts(runs)
    {
      StartsJoin(done, rest);
    }

    /** The run at `b` grows, and swallows the next one if that is where it ends now. */
    method Extend(b: Node, npages: nat, ghost prev: int, ghost done: seq<Run>, ghost rest: seq<Run>)
      requires Valid() && Passed(done, rest, prev, b) && b in next && b in page
      modifies this`next, this`page, this`runs
      ensures rest != [] && runs == done + PageRuns.Free(rest, End(rest[0]), npages)
      ensures Chain(next, pageList, Starts(runs)) && Fields(runs)
    {
      hide Tidy, Within, Part, Chain, FieldsIn, PageRuns.Free;
      Ahead(done, rest, prev, b);
      Joined(rest, npages);
      ghost var after, links, sizes := rest[1..], next, page;
      Second(done, rest, prev, b);
      page := page[b := page[b] + npages];
      if b + page[b] == next[b] {
        page := page[b := page[b] + page[next[b] as Node]];
        next := next[b := next[next[b] as Node]];
        assert page == sizes[b := page[b]];
        Grown(done, rest, Run(b, page[b]), after[1..], links, next, sizes, page, pageList);
        runs := done + [Run(b, page[b])] + after[1..];
        Same(done, [Run(b, page[b])], after[1..]);
      } else {
        assert next == links[b := next[b]];
        Grown(done, rest, Run(b, page[b]), after, links, next, sizes, page, pageList);
        runs := done + [Run(b, page[b])] + after;
        Same(done, [Run(b, page[b])], after);
      }
    }

    /** What lies behind the run at `b`. */
    lemma Second(done: seq<Run>, rest: seq<Run>, prev: int, b: int)
      requires Valid() && Passed(done, rest, prev, b) && b != NULL
      ensures rest != [] && b >= 0 && b == rest[0].start && b in next
      ensures next[b] == NULL <==> rest[1..] == []
      ensures next[b] != NULL ==>
        next[b] >= 0 && next[b] == rest[1].start && next[b] in page && page[next[b] as Node] == rest[1].pages && next[b] in next
          && Chain(next, next[next[b] as Node], Starts(rest[1..][1..]))
    {
      hide Tidy, Within, Part, FieldsIn;
      Ahead(done, rest, prev, b);
      var more := done + [rest[0]];
      if next[b] != NULL {
        Ahead(more, rest[1..], b, next[b]);
      } else {
        AtEnd(more, rest[1..], b, next[b]);
      }
    }

    /** Leaves only the pages behind the first `npages` of the run ahead. */
    method SplitRun(prev: int, b: Node, npages: nat, ghost done: seq<Run>, ghost rest: seq<Run>)
      requires Valid() && Passed(done, rest, prev, b) && b in page && 0 < npages < page[b]
      modifies this`pageList, this`next, this`page, this`runs
      ensures rest != [] && rest[0].pages == old(page)[b] && rest[0].start == b
      ensures runs == done + ([Run(b + npages, old(page)[b] - npages)] + rest[1..])
      ensures Chain(next, pageList, Starts(runs)) && Fields(runs)
    {
      hide Tidy, Chain, Part, Within, FieldsIn;
      Ahead(done, rest, prev, b);
      StartsOf(done, rest, prev, b);
      InsideRun(done, rest, b + npages);
      Same(done, [Run(b + npages, page[b] - npages)], rest[1..]);
      InsertAt(b + npages, page[b] - npages, next[b], prev, b, done, rest, rest[1..]);
    }

    /** Takes the first run ahead out of the list. */
    method DropRun(prev: int, b: int, ghost done: seq<Run>, ghost rest: seq<Run>)
      requires Valid() && Passed(done, rest, prev, b) && b != NULL && b in next
      modifies this`pageList, this`next, this`runs
      ensures rest != [] && runs == done + rest[1..]
      ensures Chain(next, pageList, Starts(runs)) && Fields(runs)
    {
      hide Tidy, Part, Within, Chain;
      Ahead(done, rest, prev, b);
      StartsDistinct(done, rest);
      StartsTail(rest, rest[1..]);
      PrevStart(done, rest, prev);
      ghost var before, v := next, next[b];
      SetPrev(prev, next[b], done, rest, b);
      if prev != NULL {
        ChainElsewhere(before, v, Starts(rest[1..]), prev, v);
      }
      PartChain(next, pageList, Starts(done), v, Starts(rest[1..]));
      StartsJoin(done, rest[1..]);
      FieldsDrop(done, rest);
      runs := done + rest[1..];
    }

    lemma FieldsDrop(done: seq<Run>, rest: seq<Run>)
      requires Fields(done + rest) && rest != []
      ensures Fields(done + rest[1..])
    {
      var r := done + rest[1..];
      forall i | 0 <= i < |r|
        ensures r[i].start in page && page[r[i].start] == r[i].pages
      {
        assert r[i] == (done + rest)[if i < |done| then i else i + 1];
      }
    }

    lemma AtStart()
      requires Valid()
      ensures Passed([], runs, NULL, pageList)
    {
      assert [] + runs == runs;
    }

    /** What the loop sees at `b`. */
    lemma Ahead(done: seq<Run>, rest: seq<Run>, prev: int, b: int)
      requires Valid() && Passed(done, rest, prev, b) && b != NULL
      ensures rest != [] && b >= 0 && b == rest[0].start && b in next && b in page && page[b] == rest[0].pages
      ensures Chain(next, next[b], Starts(rest[1..]))
      ensures Passed(done + [rest[0]], rest[1..], b, next[b])
    {
      hide Tidy, Within, Part;
      assert Starts(rest)[1..] == Starts(rest[1..]);
      assert runs[|done|] == rest[0];
      PartMore(next, pageList, Starts(done), b);
      assert Starts(done + [rest[0]]) == Starts(done) + [b as Node];
      assert done + [rest[0]] + rest[1..] == done + rest;
    }

    lemma AtEnd(done: seq<Run>, rest: seq<Run>, prev: int, b: int)
      requires Passed(done, rest, prev, b) && b == NULL
      ensures rest == [] && runs == done && done + [] == done
    {
    }

    lemma InsideRun(done: seq<Run>, rest: seq<Run>, x: nat)
      requires Tidy(done + rest) && rest != [] && rest[0].start < x < End(rest[0])
      ensures x !in Starts(done) && x !in Starts(rest)
    {
      var r := done + rest;
      assert r[|done|] == rest[0];
      assert forall i :: 0 <= i < |done| ==> r[i] == done[i];
      assert forall i :: 0 <= i < |rest| ==> r[|done| + i] == rest[i];
    }

    lemma Same(a: seq<Run>, b: seq<Run>, c: seq<Run>)
      ensures a + (b + c) == a + b + c
    {
    }
  }

  lemma Joined(rest: seq<Run>, n: nat)
    requires rest != []
    ensures var b, after := rest[0], rest[1..];
      PageRuns.Free(rest, End(b), n) ==
        if after != [] && End(b) + n == after[0].start then [Run(b.start, b.pages + n + after[0].pages)] + after[1..]
        else [Run(b.start, b.pages + n)] + after
  {
  }

  function Granted(g: Grant): int {
    match g
    case NoPages => NULL
    case At(p) => p
  }

  ghost predicate FieldsIn(page: map<Node, nat>, part: seq<Run>) {
    forall i :: 0 <= i < |part| ==> part[i].start in page && page[part[i].start] == part[i].pages
  }

  lemma StartsTail(rest: seq<Run>, tail: seq<Run>)
    requires tail == rest || (rest != [] && tail == rest[1..])
    ensures forall p :: p in Starts(tail) ==> p in Starts(rest)
  {
    forall i | 0 <= i < |tail|
      ensures Starts(tail)[i] in Starts(rest)
    {
      assert Starts(tail)[i] == Starts(rest)[if tail == rest then i else i + 1];
    }
  }

  lemma StartsJoin(a: seq<Run>, b: seq<Run>)
    ensures Starts(a + b) == Starts(a) + Starts(b)
  {
  }

  lemma PrevStart(done: seq<Run>, rest: seq<Run>, prev: int)
    requires Tidy(done + rest) && prev == (if done == [] then NULL else done[|done| - 1].start)
    ensures prev != NULL ==> prev >= 0 && prev as Node in Starts(done) && prev as Node !in Starts(rest)
  {
    StartsDistinct(done, rest);
    if done != [] {
      assert Starts(done)[|done| - 1] == prev;
    }
  }

  /** One run with a new size and a new link, in front of the rest of the list or the rest but one
      run. */
  lemma Grown(done: seq<Run>, rest: seq<Run>, r: Run, tail: seq<Run>, next: Links, next': Links,
      page: map<Node, nat>, page': map<Node, nat>, head: int)
    requires Tidy(done + rest) && FieldsIn(page, done + rest) && rest != [] && r.start == rest[0].start
    requires tail == rest[1..] || (1 < |rest| && tail == rest[1..][1..])
    requires Part(next, head, Starts(done), r.start) && r.start in next'
    requires Chain(next, next'[r.start], Starts(tail)) && next' == next[r.start := next'[r.start]]
    requires page' == page[r.start := r.pages]
    ensures Chain(next', head, Starts(done + [r] + tail)) && FieldsIn(page', done + [r] + tail)
  {
    hide Tidy, Part, Chain;
    StartsDistinct(done, rest);
    var b, v := r.start, next'[r.start];
    TailStarts(rest, tail);
    PartElsewhere(next, head, Starts(done), b, b, v);
    ChainElsewhere(next, v, Starts(tail), b, v);
    ChainCons(next', b, v, tail, r.pages);
    PartChain(next', head, Starts(done), b, Starts([r] + tail));
    StartsJoin(done, [r] + tail);
    assert done + ([r] + tail) == done + [r] + tail;
    GrownFields(done, rest, r, tail, page, page');
  }

  lemma TailStarts(rest: seq<Run>, tail: seq<Run>)
    requires rest != [] && (tail == rest[1..] || (1 < |rest| && tail == rest[1..][1..]))
    requires Distinct(Starts(rest))
    ensures rest[0].start in Starts(rest) && rest[0].start !in Starts(tail)
    ensures forall p :: p in Starts(tail) ==> p in Starts(rest)
  {
    assert Starts(rest)[0] == rest[0].start;
    var d := if tail == rest[1..] then 1 else 2;
    forall i | 0 <= i < |tail|
      ensures Starts(tail)[i] in Starts(rest) && Starts(tail)[i] != rest[0].start
    {
      assert Starts(tail)[i] == Starts(rest)[i + d];
    }
  }

  lemma GrownFields(done: seq<Run>, rest: seq<Run>, r: Run, tail: seq<Run>, page: map<Node, nat>, page': map<Node, nat>)
    requires FieldsIn(page, done + rest) && rest != [] && r.start == rest[0].start
    requires tail == rest[1..] || (1 < |rest| && tail == rest[1..][1..])
    requires page' == page[r.start := r.pages] && r.start !in Starts(done) && r.start !in Starts(tail)
    ensures FieldsIn(page', done + [r] + tail)
  {
    var q, d := done + [r] + tail, if tail == rest[1..] then 0 else 1;
    forall i | 0 <= i < |q|
      ensures q[i].start in page' && page'[q[i].start] == q[i].pages
    {
      if i < |done| {
        assert q[i] == (done + rest)[i] && Starts(done)[i] == q[i].start;
      } else if |done| < i {
        assert q[i] == (done + rest)[i + d] && Starts(tail)[i - |done| - 1] == q[i].start;
      }
    }
  }

  lemma UsedNotStart(runs: seq<Run>, a: nat, n: nat)
    requires Tidy(runs) && AllUsed(runs, a, n) && 0 < n
    ensures a !in Starts(runs)
  {
    forall i | 0 <= i < |runs|
      ensures Starts(runs)[i] != a
    {
      StartFree(runs, i);
      assert !IsFree(runs, a);
    }
  }

  lemma StartFree(runs: seq<Run>, i: nat)
    requires Tidy(runs) && i < |runs|
    ensures IsFree(runs, runs[i].start)
  {
  }

  lemma ChainCons(next: Links, x: Node, v: int, tail: seq<Run>, size: nat)
    requires Chain(next, v, Starts(tail)) && x in next && next[x] == v
    ensures Chain(next, x, Starts([Run(x, size)] + tail))
  {
    var s := Starts([Run(x, size)] + tail);
    assert s[1..] == Starts(tail);
  }

  lemma NothingUsed(a: nat, n: nat)
    ensures AllUsed([], a, n)
  {
  }

  lemma StartsDistinct(done: seq<Run>, rest: seq<Run>)
    requires Tidy(done + rest)
    ensures Distinct(Starts(done)) && Distinct(Starts(rest))
    ensures forall p :: p in Starts(done) ==> p !in Starts(rest)
  {
    var runs := done + rest;
    assert forall i :: 0 <= i < |done| ==> runs[i] == done[i];
    assert forall i :: 0 <= i < |rest| ==> runs[|done| + i] == rest[i];
    forall i, j | 0 <= i < |done| && 0 <= j < |rest|
      ensures done[i].start != rest[j].start
    {
      assert End(runs[i]) < runs[|done| + j].start;
    }
    forall i, j | 0 <= i < j < |done|
      ensures done[i].start != done[j].start
    {
      assert End(runs[i]) < runs[j].start;
    }
    forall i, j | 0 <= i < j < |rest|
      ensures rest[i].start != rest[j].start
    {
      assert End(runs[|done| + i]) < runs[|done| + j].start;
    }
  }
}
