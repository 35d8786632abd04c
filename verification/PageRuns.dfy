/** The free pages of the page allocator (slab.c) as runs, in address order. */
module PageRuns {

  datatype Run = Run(start: nat, pages: nat)   // struct rt_page_head: where it is, and its page field

  function End(r: Run): nat {
    r.start + r.pages
  }

  /** In order, not empty, and with a gap between any two: nothing is left to coalesce. */
  ghost predicate Tidy(runs: seq<Run>) {
    && (forall i :: 0 <= i < |runs| ==> 0 < runs[i].pages)
    && (forall i, j :: 0 <= i < j < |runs| ==> End(runs[i]) < runs[j].start)
  }

  ghost predicate Within(runs: seq<Run>, lo: nat, hi: nat) {
    forall i :: 0 <= i < |runs| ==> lo <= runs[i].start && End(runs[i]) <= hi
  }

  ghost predicate IsFree(runs: seq<Run>, p: nat) {
    exists i :: 0 <= i < |runs| && runs[i].start <= p < End(runs[i])
  }

  /** No page of the area is free. */
  ghost predicate AllUsed(runs: seq<Run>, a: nat, n: nat) {
    forall p :: a <= p < a + n ==> !IsFree(runs, p)
  }

  function Total(runs: seq<Run>): nat {
    if runs == [] then 0 else runs[0].pages + Total(runs[1..])
  }

  datatype Grant = NoPages | At(page: nat)

  /** rt_page_alloc, for at least one page: the first run that is large enough gives its first
      pages. */
  function Alloc(runs: seq<Run>, n: nat): (Grant, seq<Run>) {
    if runs == [] then (NoPages, [])
    else
      var b := runs[0];
      if b.pages > n then (At(b.start), [Run(b.start + n, b.pages - n)] + runs[1..])
      else if b.pages == n then (At(b.start), runs[1..])
      else
        var r := Alloc(runs[1..], n);
        (r.0, [b] + r.1)
  }

  /** rt_page_free: joins the pages with the run in front of them, with the one behind, or both. */
  function Free(runs: seq<Run>, a: nat, n: nat): seq<Run> {
    if runs == [] then [Run(a, n)]
    else
      var b, rest := runs[0], runs[1..];
      if End(b) == a then
        if rest != [] && a + n == rest[0].start then [Run(b.start, b.pages + n + rest[0].pages)] + rest[1..]
        else [Run(b.start, b.pages + n)] + rest
      else if b.start == a + n then [Run(a, n + b.pages)] + rest
      else if b.start > a + n then [Run(a, n)] + runs
      else [b] + Free(rest, a, n)
  }

  // ---- Helpers ----------------------------------------------------------------------------

  lemma TailTidy(runs: seq<Run>)
    requires Tidy(runs) && runs != []
    ensures Tidy(runs[1..]) && 0 < runs[0].pages
    ensures forall i :: 0 <= i < |runs[1..]| ==> End(runs[0]) < runs[1..][i].start
  {
    assert forall i :: 0 <= i < |runs[1..]| ==> runs[1..][i] == runs[i + 1];
  }

  lemma ConsTidy(r: Run, runs: seq<Run>)
    requires Tidy(runs) && 0 < r.pages && (runs != [] ==> End(r) < runs[0].start)
    ensures Tidy([r] + runs)
  {
    var s := [r] + runs;
    forall i, j | 0 <= i < j < |s|
      ensures End(s[i]) < s[j].start
    {
      assert s[j] == runs[j - 1];
      if i == 0 && 1 < j {
        assert End(runs[0]) < runs[j - 1].start;
      } else if i > 0 {
        assert s[i] == runs[i - 1];
      }
    }
    assert forall i :: 0 < i < |s| ==> s[i] == runs[i - 1];
  }

  lemma IsFreeCons(r: Run, runs: seq<Run>, p: nat)
    ensures IsFree([r] + runs, p) <==> r.start <= p < End(r) || IsFree(runs, p)
  {
    var s := [r] + runs;
    assert s[0] == r && forall i :: 0 < i < |s| ==> s[i] == runs[i - 1];
    if IsFree(runs, p) {
      var i :| 0 <= i < |runs| && runs[i].start <= p < End(runs[i]);
      assert s[i + 1] == runs[i];
    }
  }

  lemma IsFreeFirst(runs: seq<Run>, p: nat)
    requires runs != []
    ensures IsFree(runs, p) <==> runs[0].start <= p < End(runs[0]) || IsFree(runs[1..], p)
  {
    assert runs == [runs[0]] + runs[1..];
    IsFreeCons(runs[0], runs[1..], p);
  }

  // ---- What allocation does ---------------------------------------------------------------

  /** The list stays tidy, and its first run does not move down. */
  lemma {:induction false} AllocTidy(runs: seq<Run>, n: nat)
    requires Tidy(runs) && 0 < n
    ensures Tidy(Alloc(runs, n).1)
    ensures Alloc(runs, n).1 != [] ==> runs != [] && runs[0].start <= Alloc(runs, n).1[0].start
  {
    hide Tidy;
    if runs != [] {
      TailTidy(runs);
      var b, rest := runs[0], runs[1..];
      if b.pages > n {
        ConsTidy(Run(b.start + n, b.pages - n), rest);
      } else if b.pages < n {
        AllocTidy(rest, n);
        ConsTidy(b, Alloc(rest, n).1);
      }
    }
  }

  /** The pages granted were free and contiguous, and are exactly the ones that stop being free. */
  lemma {:induction false} AllocPages(runs: seq<Run>, n: nat, p: nat)
    requires Tidy(runs) && 0 < n
    ensures var (g, r) := Alloc(runs, n);
      && (g.At? && g.page <= p < g.page + n ==> IsFree(runs, p) && !IsFree(r, p))
      && (IsFree(r, p) <==> IsFree(runs, p) && !(g.At? && g.page <= p < g.page + n))
  {
    hide Tidy, IsFree;
    if runs != [] {
      TailTidy(runs);
      var b, rest := runs[0], runs[1..];
      IsFreeFirst(runs, p);
      NotFreeBelow(rest, End(b) + 1, p);
      if b.pages > n {
        IsFreeCons(Run(b.start + n, b.pages - n), rest, p);
      } else if b.pages < n {
        AllocPages(rest, n, p);
        AllocAbove(rest, n, End(b) + 1);
        IsFreeCons(b, Alloc(rest, n).1, p);
      }
    }
  }

  lemma NotFreeBelow(runs: seq<Run>, lo: nat, p: nat)
    requires forall i :: 0 <= i < |runs| ==> lo <= runs[i].start
    ensures IsFree(runs, p) ==> lo <= p
  {
  }

  lemma {:induction false} AllocAbove(runs: seq<Run>, n: nat, lo: nat)
    requires forall i :: 0 <= i < |runs| ==> lo <= runs[i].start
    ensures Alloc(runs, n).0.At? ==> lo <= Alloc(runs, n).0.page
  {
    if runs != [] {
      assert forall i :: 0 <= i < |runs[1..]| ==> runs[1..][i] == runs[i + 1];
      AllocAbove(runs[1..], n, lo);
    }
  }

  /** The first run that is large enough. */
  function Fit(runs: seq<Run>, n: nat): (i: nat)
    ensures i <= |runs| && (i < |runs| ==> n <= runs[i].pages)
    ensures forall j :: 0 <= j < i ==> runs[j].pages < n
  {
    if runs == [] || n <= runs[0].pages then 0 else 1 + Fit(runs[1..], n)
  }

  lemma {:induction false} AllocAtFit(runs: seq<Run>, n: nat)
    ensures Alloc(runs, n).0 == if Fit(runs, n) < |runs| then At(runs[Fit(runs, n)].start) else NoPages
    ensures Alloc(runs, n).0 == NoPages ==> Alloc(runs, n).1 == runs
  {
    if runs != [] {
      AllocAtFit(runs[1..], n);
    }
  }

  /** It fails, and then changes nothing, exactly when no run has as many pages; otherwise the
      pages are the first ones of the lowest run that is large enough. */
  lemma AllocFailsIff(runs: seq<Run>, n: nat)
    ensures Alloc(runs, n).0 == NoPages <==> forall i :: 0 <= i < |runs| ==> runs[i].pages < n
    ensures Alloc(runs, n).0 == NoPages ==> Alloc(runs, n).1 == runs
    ensures Alloc(runs, n).0.At? ==>
      Fit(runs, n) < |runs| && Alloc(runs, n).0.page == runs[Fit(runs, n)].start
  {
    AllocAtFit(runs, n);
  }

  lemma {:induction false} AllocTotal(runs: seq<Run>, n: nat)
    requires 0 < n
    ensures Total(Alloc(runs, n).1) + (if Alloc(runs, n).0.At? then n else 0) == Total(runs)
  {
    if runs != [] {
      AllocTotal(runs[1..], n);
      var b, rest := runs[0], runs[1..];
      if b.pages > n {
        assert ([Run(b.start + n, b.pages - n)] + rest)[1..] == rest;
      } else if b.pages < n {
        assert ([b] + Alloc(rest, n).1)[1..] == Alloc(rest, n).1;
      }
    }
  }

  // ---- What freeing does ------------------------------------------------------------------

  lemma AllUsedTail(runs: seq<Run>, a: nat, n: nat)
    requires AllUsed(runs, a, n) && runs != []
    ensures AllUsed(runs[1..], a, n)
  {
    forall p | a <= p < a + n
      ensures !IsFree(runs[1..], p)
    {
      IsFreeFirst(runs, p);
    }
  }

  /** Pages that are not free lie before or behind the first run. */
  lemma Beside(runs: seq<Run>, a: nat, n: nat)
    requires Tidy(runs) && runs != [] && AllUsed(runs, a, n) && 0 < n
    ensures a + n <= runs[0].start || End(runs[0]) <= a
  {
    if runs[0].start < a + n && a < End(runs[0]) {
      var p := if a < runs[0].start then runs[0].start else a;
      assert !IsFree(runs, p);
      IsFreeFirst(runs, p);
    }
  }

  /** Freeing keeps the runs in order and leaves nothing to coalesce. */
  lemma {:induction false} FreeTidy(runs: seq<Run>, a: nat, n: nat)
    requires Tidy(runs) && 0 < n && AllUsed(runs, a, n)
    ensures var r := Free(runs, a, n);
      && Tidy(r) && r != []
      && (runs == [] ==> r[0].start == a)
      && (runs != [] ==> r[0].start == a || r[0].start == runs[0].start)
  {
    hide Tidy, AllUsed;
    if runs == [] {
      OneTidy(Run(a, n));
    } else {
      TailTidy(runs);
      Beside(runs, a, n);
      AllUsedTail(runs, a, n);
      var b, rest := runs[0], runs[1..];
      if End(b) == a {
        if rest != [] {
          Beside(rest, a, n);
          TailTidy(rest);
        }
        if rest != [] && a + n == rest[0].start {
          ConsTidy(Run(b.start, b.pages + n + rest[0].pages), rest[1..]);
        } else {
          ConsTidy(Run(b.start, b.pages + n), rest);
        }
      } else if b.start == a + n {
        ConsTidy(Run(a, n + b.pages), rest);
      } else if b.start > a + n {
        ConsTidy(Run(a, n), runs);
      } else {
        FreeTidy(rest, a, n);
        ConsTidy(b, Free(rest, a, n));
      }
    }
  }

  lemma OneTidy(r: Run)
    requires 0 < r.pages
    ensures Tidy([r])
  {
  }

  /** Exactly the freed pages become free. */
  lemma {:induction false} FreePages(runs: seq<Run>, a: nat, n: nat, p: nat)
    requires Tidy(runs) && 0 < n && AllUsed(runs, a, n)
    ensures IsFree(Free(runs, a, n), p) <==> IsFree(runs, p) || a <= p < a + n
  {
    hide Tidy, AllUsed, IsFree;
    if runs == [] {
      IsFreeCons(Run(a, n), [], p);
      assert [Run(a, n)] + [] == [Run(a, n)];
      NothingFree(p);
    } else {
      TailTidy(runs);
      Beside(runs, a, n);
      AllUsedTail(runs, a, n);
      IsFreeFirst(runs, p);
      var b, rest := runs[0], runs[1..];
      if End(b) == a {
        if rest != [] && a + n == rest[0].start {
          IsFreeFirst(rest, p);
          IsFreeCons(Run(b.start, b.pages + n + rest[0].pages), rest[1..], p);
        } else {
          IsFreeCons(Run(b.start, b.pages + n), rest, p);
        }
      } else if b.start == a + n {
        IsFreeCons(Run(a, n + b.pages), rest, p);
      } else if b.start > a + n {
        IsFreeCons(Run(a, n), runs, p);
      } else {
        FreePages(rest, a, n, p);
        IsFreeCons(b, Free(rest, a, n), p);
      }
    }
  }

  lemma NothingFree(p: nat)
    ensures !IsFree([], p)
  {
  }

  lemma {:induction false} FreeTotal(runs: seq<Run>, a: nat, n: nat)
    ensures Total(Free(runs, a, n)) == Total(runs) + n
  {
    if runs == [] {
      assert [Run(a, n)][1..] == [];
    } else {
      var b, rest := runs[0], runs[1..];
      FreeTotal(rest, a, n);
      if End(b) == a {
        if rest != [] && a + n == rest[0].start {
          assert ([Run(b.start, b.pages + n + rest[0].pages)] + rest[1..])[1..] == rest[1..];
        } else {
          assert ([Run(b.start, b.pages + n)] + rest)[1..] == rest;
        }
      } else if b.start == a + n {
        assert ([Run(a, n + b.pages)] + rest)[1..] == rest;
      } else if b.start > a + n {
        assert ([Run(a, n)] + runs)[1..] == runs;
      } else {
        assert ([b] + Free(rest, a, n))[1..] == Free(rest, a, n);
      }
    }
  }

  /** Giving back what was just granted restores the list, run by run. */
  lemma {:induction false} FreeUndoesAlloc(runs: seq<Run>, n: nat)
    requires Tidy(runs) && 0 < n && Alloc(runs, n).0.At?
    ensures Free(Alloc(runs, n).1, Alloc(runs, n).0.page, n) == runs
  {
    hide Tidy;
    TailTidy(runs);
    var b, rest := runs[0], runs[1..];
    assert runs == [b] + rest;
    if b.pages > n {
      assert ([Run(b.start + n, b.pages - n)] + rest)[1..] == rest;
    } else if b.pages == n {
      if rest != [] {
        assert End(b) < rest[0].start;
      }
    } else {
      FreeUndoesAlloc(rest, n);
      AllocAbove(rest, n, End(b) + 1);
      var q := Alloc(rest, n).1;
      assert ([b] + q)[0] == b && ([b] + q)[1..] == q;
    }
  }

  lemma {:induction false} AllocWithin(runs: seq<Run>, n: nat, lo: nat, hi: nat)
    requires Within(runs, lo, hi)
    ensures Within(Alloc(runs, n).1, lo, hi)
  {
    if runs != [] {
      var rest := runs[1..];
      assert forall i :: 0 <= i < |rest| ==> rest[i] == runs[i + 1];
      AllocWithin(rest, n, lo, hi);
    }
  }

  lemma {:induction false} FreeWithin(runs: seq<Run>, a: nat, n: nat, lo: nat, hi: nat)
    requires Within(runs, lo, hi) && lo <= a && a + n <= hi
    ensures Within(Free(runs, a, n), lo, hi)
  {
    if runs != [] {
      var rest := runs[1..];
      assert forall i :: 0 <= i < |rest| ==> rest[i] == runs[i + 1];
      FreeWithin(rest, a, n, lo, hi);
      assert rest != [] ==> rest[0] == runs[1] && forall i :: 0 <= i < |rest[1..]| ==> rest[1..][i] == runs[i + 2];
    }
  }

  // ---- Runs of the allocator --------------------------------------------------------------

  datatype Op = Take(n: nat) | Give(a: nat, n: nat)

  function Apply(runs: seq<Run>, op: Op): seq<Run> {
    match op
    case Take(n) => if n == 0 then runs else Alloc(runs, n).1
    case Give(a, n) => Free(runs, a, n)
  }

  /** What is given back is not free, and in the heap. */
  ghost predicate Allowed(runs: seq<Run>, op: Op, pages: nat) {
    op.Give? ==> 0 < op.n && op.a + op.n <= pages && AllUsed(runs, op.a, op.n)
  }

  ghost predicate IsStep(runs: seq<Run>, op: Op, r: seq<Run>, pages: nat) {
    Allowed(runs, op, pages) && r == Apply(runs, op)
  }

  ghost predicate IsRun(run: seq<seq<Run>>, ops: seq<Op>, pages: nat) {
    && 0 < pages && |run| == |ops| + 1 && run[0] == Free([], 0, pages)
    && forall i :: 0 <= i < |ops| ==> IsStep(run[i], ops[i], run[i + 1], pages)
  }

  /** Pages granted minus pages given back. */
  ghost function Out(run: seq<seq<Run>>, ops: seq<Op>, k: nat): int
    requires k <= |ops| < |run|
  {
    if k == 0 then 0
    else
      Out(run, ops, k - 1) +
      match ops[k - 1]
      case Take(n) => if n > 0 && Alloc(run[k - 1], n).0.At? then n as int else 0
      case Give(_, n) => 0 - n as int
  }

  /** Main result: in every run the list stays in order, disjoint and coalesced, and the free
      pages and those handed out add up to the pages of the heap. */
  lemma {:induction false} RunTidy(run: seq<seq<Run>>, ops: seq<Op>, pages: nat, k: nat)
    requires IsRun(run, ops, pages) && k <= |ops|
    ensures Tidy(run[k]) && Total(run[k]) + Out(run, ops, k) == pages
  {
    hide Tidy;
    if k == 0 {
      OneTidy(Run(0, pages));
      FreeTotal([], 0, pages);
    } else {
      RunTidy(run, ops, pages, k - 1);
      assert IsStep(run[k - 1], ops[k - 1], run[k - 1 + 1], pages);
      match ops[k - 1]
      case Take(n) =>
        if n > 0 {
          AllocTidy(run[k - 1], n);
          AllocTotal(run[k - 1], n);
        }
      case Give(a, n) =>
        FreeTidy(run[k - 1], a, n);
        FreeTotal(run[k - 1], a, n);
    }
  }
}
