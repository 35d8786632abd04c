/** The worst-case stack analysis of tools/WCS.py: resolving calls, and the depth-first search
    that values every function once.
 */
module StackAnalysis {
  import opened StackPaths

  datatype Unit = Unit(path: string)   // a translation unit

  datatype Lookup = Missing | Found(f: Fxn)

  ghost function Elements(s: seq<Fxn>): set<Fxn> {
    set x | x in s
  }

  lemma HasOne(s: seq<Fxn>)
    ensures s == [] || exists h :: h in s
  {
    assert s == [] || s[0] in s;
  }

  /** The functions that are neither valued nor on the way. */
  ghost function Unvalued(all: set<Fxn>, wcs: map<Fxn, Stack>, parents: seq<Fxn>): set<Fxn> {
    all - wcs.Keys - Elements(parents)
  }

  /** Only more is known. */
  ghost predicate Grows(wcs: map<Fxn, Stack>, open: map<Fxn, set<Name>>, wcs': map<Fxn, Stack>, open': map<Fxn, set<Name>>) {
    && (forall f :: f in wcs ==> f in wcs' && wcs'[f] == wcs[f])
    && open'.Keys == open.Keys
    && (forall f, u :: f in open && u in open[f] ==> u in open'[f])
  }

  /** What is known of the callees of `f` visited so far. */
  ghost predicate Visited(g: Graph, open: map<Fxn, set<Name>>, f: Fxn, hs: seq<Fxn>, callMax: nat) {
    && IsMax(g, hs, callMax)
    && (forall h :: h in hs ==> !Unbounded(g, h))
    && (forall h, u :: h in hs && Misses(g, h, u) ==> f in open && u in open[f])
  }

  class CallGraph {
    // what was read from the files of the compiler
    const globals: map<Name, Fxn>
    const locals: map<Name, map<Unit, Fxn>>
    const unit: map<Fxn, Unit>
    const calls: map<Fxn, set<Name>>
    const hasPtrCall: map<Fxn, bool>
    const localStack: map<Fxn, nat>

    // what the analysis writes
    var rCalls: map<Fxn, seq<Fxn>>
    var unresolvedCalls: map<Fxn, set<Name>>
    var wcs: map<Fxn, Stack>

    ghost var g: Graph    // the resolved graph

    ghost predicate Complete() {
      && unit.Keys == calls.Keys == hasPtrCall.Keys == localStack.Keys
      && (forall n :: n in globals ==> globals[n] in calls)
      && (forall n, u :: n in locals && u in locals[n] ==> locals[n][u] in calls)
      && (forall f :: f in calls ==> f in Listed())
    }

    /** All function dictionaries, in the order of no particular loop. */
    ghost function Listed(): set<Fxn> {
      (set n | n in globals :: globals[n]) + (set n, u | n in locals && u in locals[n] :: locals[n][u])
    }

    /** The manual entries come with a value: they call nothing. */
    ghost predicate Manual(f: Fxn)
      reads this
    {
      && f in calls && f in hasPtrCall && f in localStack && f in wcs
      && calls[f] == {} && !hasPtrCall[f] && wcs[f] == Bytes(localStack[f])
    }

    constructor (globals: map<Name, Fxn>, locals: map<Name, map<Unit, Fxn>>, unit: map<Fxn, Unit>,
        calls: map<Fxn, set<Name>>, hasPtrCall: map<Fxn, bool>, localStack: map<Fxn, nat>, wcs: map<Fxn, Stack>)
      ensures this.globals == globals && this.locals == locals && this.unit == unit && this.calls == calls
      ensures this.hasPtrCall == hasPtrCall && this.localStack == localStack && this.wcs == wcs
      ensures rCalls == map[] && unresolvedCalls == map[]
    {
      this.globals, this.locals, this.unit, this.calls := globals, locals, unit, calls;
      this.hasPtrCall, this.localStack, this.wcs := hasPtrCall, localStack, wcs;
      rCalls, unresolvedCalls, g := map[], map[], Graph(map[], map[], {}, map[]);
    }

    /** A name stands for the global function of that name; if there is none, for the one of its own
        translation unit. */
    predicate Means(u: Unit, n: Name, h: Fxn) {
      (n in globals && h == globals[n]) || (n !in globals && n in locals && u in locals[n] && h == locals[n][u])
    }

    /** find_fxn */
    function Find(u: Unit, n: Name): (r: Lookup)
      ensures r.Found? ==> Means(u, n, r.f)
      ensures r == Missing ==> forall h :: !Means(u, n, h)
    {
      if n in globals then Found(globals[n])
      else if n in locals && u in locals[n] then Found(locals[n][u])
      else Missing
    }

    // ---- Resolving ------------------------------------------------------------------------

    /** `r` lists what the calls in `names` resolve to, and `open` those that resolve to nothing. */
    ghost predicate Resolves(u: Unit, names: set<Name>, r: seq<Fxn>, open: set<Name>) {
      && (forall h :: h in r <==> exists n :: n in names && Means(u, n, h))
      && (forall n :: n in open <==> n in names && forall h :: !Means(u, n, h))
    }

    ghost predicate ResolvedAt(f: Fxn)
      reads `rCalls, `unresolvedCalls
    {
      f in calls && f in rCalls && f in unresolvedCalls && f in unit &&
      Resolves(unit[f], calls[f], rCalls[f], unresolvedCalls[f])
    }

    /** The inner function of resolve_all_calls. */
    method ResolveCalls(f: Fxn)
      requires f in calls && f in unit
      modifies this`rCalls, this`unresolvedCalls
      ensures ResolvedAt(f)
      ensures rCalls.Keys == old(rCalls.Keys) + {f} && unresolvedCalls.Keys == old(unresolvedCalls.Keys) + {f}
      ensures forall x :: x != f && old(ResolvedAt(x)) ==> ResolvedAt(x)
    {
      var r, open, todo := [], {}, calls[f];
      while todo != {}
        invariant todo <= calls[f]
        invariant Resolves(unit[f], calls[f] - todo, r, open)
        decreases |todo|
      {
        var call :| call in todo;
        todo := todo - {call};
        match Find(unit[f], call) {
          case Found(h) => r := r + [h];
          case Missing => open := open + {call};
        }
      }
      assert calls[f] - todo == calls[f];
      rCalls := rCalls[f := r];
      unresolvedCalls := unresolvedCalls[f := open];
    }

    /** The functions in the order of the loops over the globals and then the locals. */
    method Order() returns (fs: seq<Fxn>)
      requires Complete()
      ensures Elements(fs) == calls.Keys
    {
      fs := [];
      var names := globals.Keys;
      while names != {}
        invariant names <= globals.Keys
        invariant forall n :: n in globals && n !in names ==> globals[n] in fs
        invariant forall f :: f in fs ==> f in calls
        decreases |names|
      {
        var n :| n in names;
        names := names - {n};
        fs := fs + [globals[n]];
      }
      ghost var before := fs;
      names := locals.Keys;
      while names != {}
        invariant names <= locals.Keys && (forall f :: f in before ==> f in fs)
        invariant forall n, u :: n in locals && n !in names && u in locals[n] ==> locals[n][u] in fs
        invariant forall f :: f in fs ==> f in calls
        decreases |names|
      {
        var n :| n in names;
        names := names - {n};
        fs := OrderLocals(fs, n);
      }
    }

    method OrderLocals(before: seq<Fxn>, n: Name) returns (fs: seq<Fxn>)
      requires Complete() && n in locals && forall f :: f in before ==> f in calls
      ensures forall f :: f in before ==> f in fs
      ensures forall u :: u in locals[n] ==> locals[n][u] in fs
      ensures forall f :: f in fs ==> f in calls
    {
      fs := before;
      var units := locals[n].Keys;
      while units != {}
        invariant units <= locals[n].Keys && (forall f :: f in before ==> f in fs)
        invariant forall u :: u in locals[n] && u !in units ==> locals[n][u] in fs
        invariant forall f :: f in fs ==> f in calls
        decreases |units|
      {
        var u :| u in units;
        units := units - {u};
        fs := fs + [locals[n][u]];
      }
    }

    ghost function ResolvedGraph(): Graph
      requires Complete()
      reads `rCalls, `unresolvedCalls
    {
      Graph(rCalls, localStack, (set f | f in calls && hasPtrCall[f]), unresolvedCalls)
    }

    /** `g` is the graph of the dictionaries: each call leads to the function its name stands for, or is left open. */
    ghost predicate IsGraph()
      reads `g
    {
      && g.local == localStack && g.ptr == (set f | f in calls && f in hasPtrCall && hasPtrCall[f])
      && g.calls.Keys == g.open.Keys == calls.Keys
      && forall f :: f in calls ==> f in unit && Resolves(unit[f], calls[f], g.calls[f], g.open[f])
    }

    lemma ResolvedIsGraph()
      requires Complete() && rCalls.Keys == unresolvedCalls.Keys == calls.Keys && g == ResolvedGraph()
      requires forall f :: f in calls ==> ResolvedAt(f)
      ensures IsGraph()
    {
      hide Resolves;
      assert g.ptr == (set f | f in calls && f in hasPtrCall && hasPtrCall[f]);
      forall f | f in calls
        ensures f in unit && Resolves(unit[f], calls[f], g.calls[f], g.open[f])
      {
        assert ResolvedAt(f);
      }
    }

    /** resolve_all_calls */
    method ResolveAll()
      requires Complete() && rCalls == map[] && unresolvedCalls == map[]
      requires forall f :: f in wcs ==> Manual(f)
      modifies this`rCalls, this`unresolvedCalls, this`g
      ensures forall f :: f in calls ==> ResolvedAt(f)
      ensures Complete() && g == ResolvedGraph() && Sound() && g.calls.Keys == calls.Keys && IsGraph()
    {
      hide Resolves, Complete, Sound, ResolvedAt, ResolvedGraph, IsGraph;
      var fs := Order();
      InCalls(fs);
      ResolveEach(fs);
      AllResolved();
      g := ResolvedGraph();
      ResolvedIsGraph();
      GraphKeys();
      ResolvedClosed();
      ManualRight();
    }

    /** Its loops. */
    method ResolveEach(fs: seq<Fxn>)
      requires rCalls == map[] && unresolvedCalls == map[]
      requires forall j :: 0 <= j < |fs| ==> fs[j] in calls && fs[j] in unit
      modifies this`rCalls, this`unresolvedCalls
      ensures rCalls.Keys == unresolvedCalls.Keys
      ensures forall j :: 0 <= j < |fs| ==> fs[j] in rCalls
      ensures forall f :: f in rCalls ==> ResolvedAt(f)
    {
      hide Resolves, ResolvedAt;
      var i := 0;
      while i < |fs|
        invariant i <= |fs| && rCalls.Keys == unresolvedCalls.Keys
        invariant forall j :: 0 <= j < i ==> fs[j] in rCalls
        invariant forall f :: f in rCalls ==> ResolvedAt(f)
      {
        ResolveCalls(fs[i]);
        i := i + 1;
      }
    }

    lemma AllResolved()
      requires rCalls.Keys == unresolvedCalls.Keys && forall f :: f in calls ==> f in rCalls
      requires forall f :: f in rCalls ==> ResolvedAt(f)
      ensures rCalls.Keys == unresolvedCalls.Keys == calls.Keys
    {
    }

    lemma InCalls(fs: seq<Fxn>)
      requires Complete() && Elements(fs) == calls.Keys
      ensures forall j :: 0 <= j < |fs| ==> fs[j] in calls && fs[j] in unit
      ensures forall f :: f in calls ==> f in fs
    {
      forall j | 0 <= j < |fs|
        ensures fs[j] in calls
      {
        assert fs[j] in Elements(fs);
      }
      forall f | f in calls
        ensures f in fs
      {
        assert f in Elements(fs);
      }
    }

    lemma GraphKeys()
      requires Complete() && g == ResolvedGraph()
      ensures g.calls == rCalls
    {
    }

    lemma ResolvedClosed()
      requires Complete() && rCalls.Keys == unresolvedCalls.Keys == calls.Keys
      requires forall f :: f in calls ==> ResolvedAt(f)
      requires g == ResolvedGraph()
      ensures Closed(g)
    {
      forall f, i | f in g.calls && 0 <= i < |g.calls[f]|
        ensures g.calls[f][i] in g.calls
      {
        assert ResolvedAt(f) && g.calls[f][i] in rCalls[f];
        var n :| n in calls[f] && Find(unit[f], n) == Found(g.calls[f][i]);
      }
    }

    lemma ManualRight()
      requires Complete() && Closed(g) && rCalls.Keys == unresolvedCalls.Keys == calls.Keys
      requires forall f :: f in calls ==> ResolvedAt(f)
      requires g == ResolvedGraph()
      requires forall f :: f in wcs ==> Manual(f)
      ensures Sound()
    {
      forall f | f in wcs
        ensures f in g.calls && Right(g, f, wcs[f])
        ensures forall u :: !Misses(g, f, u)
      {
        assert Manual(f) && ResolvedAt(f);
        assert forall h :: h !in rCalls[f];
        HasOne(rCalls[f]);
        CalleesBound(g, f);
        WorstOf(g, f, 0);
        forall u
          ensures !Misses(g, f, u)
        {
          if Misses(g, f, u) {
            MissesFrom(g, f, u);
          }
        }
      }
      forall f, u | f in g.calls && u in unresolvedCalls[f]
        ensures Misses(g, f, u)
      {
        MissesOwn(g, f, u);
      }
    }

    // ---- The search -----------------------------------------------------------------------

    /** What has been found so far is right. */
    ghost predicate Sound()
      reads this
    {
      && Closed(g) && rCalls == g.calls && localStack == g.local && unresolvedCalls.Keys == g.calls.Keys
      && hasPtrCall.Keys == g.calls.Keys && (forall f :: f in g.calls ==> (f in g.ptr <==> hasPtrCall[f]))
      && (forall f :: f in wcs ==> f in g.calls && Right(g, f, wcs[f]))
      && (forall f :: f in g.calls ==> g.open[f] <= unresolvedCalls[f])
      && (forall f, u :: f in g.calls && u in unresolvedCalls[f] ==> Misses(g, f, u))
      && (forall f, u :: f in wcs && wcs[f].Bytes? && Misses(g, f, u) ==> u in unresolvedCalls[f])
    }

    lemma SoundFacts(f: Fxn)
      requires Sound() && f in g.calls
      ensures Closed(g) && g.local.Keys == g.calls.Keys && f in rCalls && rCalls[f] == g.calls[f] && f in hasPtrCall && (f in g.ptr <==> hasPtrCall[f])
      ensures f in localStack && g.local[f] == localStack[f] && f in unresolvedCalls
      ensures forall h :: h in g.calls[f] ==> h in g.calls && Calls(g, f, h)
    {
      hide Misses, Right;
      forall h | h in g.calls[f]
        ensures h in g.calls
      {
        CalleeKnown(g, f, h);
      }
    }

    lemma ValueFacts(f: Fxn)
      requires Sound() && f in wcs
      ensures f in g.calls && Right(g, f, wcs[f])
      ensures wcs[f].Bytes? ==> forall u :: Misses(g, f, u) ==> u in unresolvedCalls[f]
    {
      hide Closed, Misses, Right;
    }

    method SetStack(f: Fxn, v: Stack)
      requires Sound() && f in g.calls && Right(g, f, v) && (f in wcs ==> wcs[f] == v)
      requires v.Bytes? ==> forall u :: Misses(g, f, u) ==> u in unresolvedCalls[f]
      modifies this`wcs
      ensures Sound() && wcs == old(wcs)[f := v] && Grows(old(wcs), old(unresolvedCalls), wcs, unresolvedCalls)
    {
      hide Closed, Misses, Right;
      wcs := wcs[f := v];
    }

    /** The unresolved calls of a callee become those of its caller. */
    method AddUnresolved(f: Fxn, h: Fxn)
      requires Sound() && f in g.calls && h in g.calls && Calls(g, f, h)
      modifies this`unresolvedCalls
      ensures Sound() && Grows(old(wcs), old(unresolvedCalls), wcs, unresolvedCalls)
      ensures forall u :: u in unresolvedCalls[h] ==> u in unresolvedCalls[f]
    {
      hide Closed, Misses, Right, Calls;
      SoundFacts(f);
      forall u | u in unresolvedCalls[h]
        ensures Misses(g, f, u)
      {
        MissesCallee(g, f, h, u);
      }
      unresolvedCalls := unresolvedCalls[f := unresolvedCalls[f] + unresolvedCalls[h]];
    }

    /** calc_wcs */
    method Calc(f: Fxn, parents: seq<Fxn>)
      requires Sound() && f in g.calls && Path(g, parents + [f])
      modifies this`wcs, this`unresolvedCalls
      ensures Sound() && Grows(old(wcs), old(unresolvedCalls), wcs, unresolvedCalls) && f in wcs
      decreases |Unvalued(g.calls.Keys, wcs, parents)|, 1
    {
      hide Sound, Right, Path, IsMax, Unbounded, Misses, Visited, Closed, Grows, Elements, Calls, Unvalued;
      GrowsSelf(wcs, unresolvedCalls);
      if f in wcs {
        return;
      }
      SoundFacts(f);
      if hasPtrCall[f] {
        PointerUnbounded(g, f);
        SetNoBound(f);
        return;
      }
      if f in parents {
        LoopUnbounded(g, parents, f);
        SetNoBound(f);
        return;
      }
      var bounded, callMax := VisitAll(f, parents);
      ghost var w, u := wcs, unresolvedCalls;
      if bounded {
        SetBytes(f, callMax);
      } else {
        SetNoBound(f);
      }
      GrowsTrans(old(wcs), old(unresolvedCalls), w, u, wcs, unresolvedCalls);
    }

    /** Its loop: stops at the first callee without a bound. */
    method VisitAll(f: Fxn, parents: seq<Fxn>) returns (bounded: bool, callMax: nat)
      requires Sound() && f in g.calls && Path(g, parents + [f]) && f !in wcs && f !in parents
      modifies this`wcs, this`unresolvedCalls
      ensures Sound() && Grows(old(wcs), old(unresolvedCalls), wcs, unresolvedCalls)
      ensures if bounded then Visited(g, unresolvedCalls, f, g.calls[f], callMax) else Unbounded(g, f)
      decreases |Unvalued(g.calls.Keys, wcs, parents)|, 0
    {
      hide Sound, Right, Path, IsMax, Unbounded, Misses, Visited, Closed, Grows, Elements, Calls, Unvalued;
      GrowsSelf(wcs, unresolvedCalls);
      SoundFacts(f);
      callMax := 0;
      VisitedNone(g, unresolvedCalls, f);
      assert g.calls[f][..0] == [];
      var i := 0;
      while i < |rCalls[f]|
        invariant i <= |g.calls[f]| && rCalls[f] == g.calls[f]
        invariant Sound() && Grows(old(wcs), old(unresolvedCalls), wcs, unresolvedCalls)
        invariant Visited(g, unresolvedCalls, f, g.calls[f][..i], callMax)
      {
        FewerUnvalued(g.calls.Keys, old(wcs), wcs, old(unresolvedCalls), unresolvedCalls, parents, f);
        ghost var w, u := wcs, unresolvedCalls;
        bounded, callMax := Visit(f, i, parents, callMax);
        GrowsTrans(old(wcs), old(unresolvedCalls), w, u, wcs, unresolvedCalls);
        if !bounded {
          return;
        }
        i := i + 1;
      }
      assert g.calls[f][..i] == g.calls[f];
      bounded := true;
    }

    /** One turn of its loop: false when the callee has no bound. */
    method Visit(f: Fxn, i: nat, parents: seq<Fxn>, callMax: nat) returns (bounded: bool, top: nat)
      requires Sound() && f in g.calls && i < |g.calls[f]| && Path(g, parents + [f])
      requires Visited(g, unresolvedCalls, f, g.calls[f][..i], callMax)
      modifies this`wcs, this`unresolvedCalls
      ensures Sound() && Grows(old(wcs), old(unresolvedCalls), wcs, unresolvedCalls)
      ensures bounded ==> Visited(g, unresolvedCalls, f, g.calls[f][..i + 1], top)
      ensures !bounded ==> Unbounded(g, f)
      decreases |Unvalued(g.calls.Keys, wcs, parents + [f])|, 2
    {
      hide Sound, Right, Path, IsMax, Unbounded, Misses, Visited, Closed, Grows, Elements, Calls, Unvalued;
      SoundFacts(f);
      var h := rCalls[f][i];
      assert h in g.calls[f];
      PathMore(g, parents, f, h);
      Calc(h, parents + [f]);
      ghost var w, u := wcs, unresolvedCalls;
      StillVisited(g, old(wcs), old(unresolvedCalls), wcs, unresolvedCalls, f, g.calls[f][..i], callMax);
      ValueFacts(h);
      if wcs[h] == NoBound {
        RightUnbounded(g, h);
        CallerUnbounded(g, f, h);
        return false, callMax;
      }
      top := Absorb(f, i, callMax);
      GrowsTrans(old(wcs), old(unresolvedCalls), w, u, wcs, unresolvedCalls);
      bounded := true;
    }

    /** A callee with a bound counts. */
    method Absorb(f: Fxn, i: nat, callMax: nat) returns (top: nat)
      requires Sound() && f in g.calls && i < |g.calls[f]| && g.calls[f][i] in wcs && wcs[g.calls[f][i]].Bytes?
      requires Visited(g, unresolvedCalls, f, g.calls[f][..i], callMax)
      modifies this`unresolvedCalls
      ensures Sound() && Grows(wcs, old(unresolvedCalls), wcs, unresolvedCalls)
      ensures Visited(g, unresolvedCalls, f, g.calls[f][..i + 1], top)
    {
      hide Sound, Right, IsMax, Unbounded, Misses, Visited, Closed, Grows, Calls;
      SoundFacts(f);
      var h := rCalls[f][i];
      assert h in g.calls[f];
      AddUnresolved(f, h);
      StillVisited(g, wcs, old(unresolvedCalls), wcs, unresolvedCalls, f, g.calls[f][..i], callMax);
      SoundFacts(f);
      SoundFacts(h);
      VisitedMore(f, g.calls[f][..i], h, callMax, wcs[h].n);
      top := if callMax < wcs[h].n then wcs[h].n else callMax;
      assert g.calls[f][..i + 1] == g.calls[f][..i] + [h];
    }

    method SetBytes(f: Fxn, callMax: nat)
      requires Sound() && f in g.calls && f in hasPtrCall && !hasPtrCall[f]
      requires Visited(g, unresolvedCalls, f, g.calls[f], callMax)
      modifies this`wcs
      ensures Sound() && f in wcs && Grows(old(wcs), unresolvedCalls, wcs, unresolvedCalls)
    {
      hide Sound, Right, Unbounded, Misses, Visited, Grows;
      SoundFacts(f);
      VisitedAll(f, callMax);
      OnlyAnswer(f, Bytes(callMax + localStack[f]));
      SetStack(f, Bytes(callMax + localStack[f]));
    }

    method SetNoBound(f: Fxn)
      requires Sound() && f in g.calls && Unbounded(g, f)
      modifies this`wcs
      ensures Sound() && f in wcs && Grows(old(wcs), unresolvedCalls, wcs, unresolvedCalls)
    {
      hide Sound, Unbounded;
      RightNoBound(g, f);
      OnlyAnswer(f, NoBound);
      SetStack(f, NoBound);
    }

    /** calc_all_wcs */
    method CalcAll()
      requires Complete() && Sound() && g.calls.Keys == calls.Keys
      modifies this`wcs, this`unresolvedCalls
      ensures wcs.Keys == unresolvedCalls.Keys == calls.Keys
      ensures forall f :: f in calls ==> Right(g, f, wcs[f])
      ensures forall f, u :: f in calls && wcs[f].Bytes? ==>
        (u in unresolvedCalls[f] <==> Misses(g, f, u))
    {
      var fs := Order();
      InCalls(fs);
      CalcEach(fs);
      AllValued();
    }

    /** Both steps: in the graph of the dictionaries every function gets the one right value, and a bounded
        one its unresolved calls. */
    method Analyse()
      requires Complete() && rCalls == map[] && unresolvedCalls == map[] && forall f :: f in wcs ==> Manual(f)
      modifies this
      ensures IsGraph() && g.calls.Keys == calls.Keys && wcs.Keys == unresolvedCalls.Keys == calls.Keys
      ensures forall f :: f in calls ==> Right(g, f, wcs[f])
      ensures forall f, u :: f in calls && wcs[f].Bytes? ==>
        (u in unresolvedCalls[f] <==> Misses(g, f, u))
    {
      hide Complete, Sound, ResolvedAt, IsGraph;
      ResolveAll();
      CalcAll();
    }

    /** Its loops. */
    method CalcEach(fs: seq<Fxn>)
      requires Sound() && forall j :: 0 <= j < |fs| ==> fs[j] in g.calls
      modifies this`wcs, this`unresolvedCalls
      ensures Sound() && forall j :: 0 <= j < |fs| ==> fs[j] in wcs
    {
      hide Sound, Path, Calls;
      var i := 0;
      while i < |fs|
        invariant i <= |fs| && Sound()
        invariant forall j :: 0 <= j < i ==> fs[j] in wcs
      {
        Alone(g, fs[i]);
        Calc(fs[i], []);
        i := i + 1;
      }
    }

    lemma AllValued()
      requires Sound() && g.calls.Keys == calls.Keys && forall f :: f in calls ==> f in wcs
      ensures wcs.Keys == unresolvedCalls.Keys == calls.Keys
      ensures forall f :: f in calls ==> Right(g, f, wcs[f])
      ensures forall f, u :: f in calls && wcs[f].Bytes? ==>
        (u in unresolvedCalls[f] <==> Misses(g, f, u))
    {
      hide Closed, Misses, Right;
    }

    /** A value that is there already is the one that is written. */
    lemma OnlyAnswer(f: Fxn, v: Stack)
      requires Sound() && f in g.calls && Right(g, f, v)
      ensures f in wcs ==> wcs[f] == v
    {
      hide Closed, Misses, Right;
      if f in wcs {
        OneAnswer(g, f, v, wcs[f]);
      }
    }

    lemma VisitedMore(f: Fxn, hs: seq<Fxn>, h: Fxn, callMax: nat, n: nat)
      requires Visited(g, unresolvedCalls, f, hs, callMax) && Sound() && h in wcs && wcs[h] == Bytes(n) && f in unresolvedCalls
      requires h in unresolvedCalls && forall u :: u in unresolvedCalls[h] ==> u in unresolvedCalls[f]
      ensures Visited(g, unresolvedCalls, f, hs + [h], if callMax < n then n else callMax)
    {
      hide IsMax, Unbounded, Misses, Closed;
      ValueFacts(h);
      MaxMore(g, hs, h, callMax, n);
      forall k | k in hs + [h]
        ensures k in hs || k == h
      {
      }
    }

    lemma VisitedAll(f: Fxn, callMax: nat)
      requires Sound() && f in g.calls && Visited(g, unresolvedCalls, f, g.calls[f], callMax) && !hasPtrCall[f]
      ensures Right(g, f, Bytes(callMax + localStack[f]))
      ensures forall u :: Misses(g, f, u) ==> u in unresolvedCalls[f]
    {
      hide IsMax, Unbounded, Misses, Closed;
      SoundFacts(f);
      CalleesBound(g, f);
      WorstOf(g, f, callMax);
      forall u | Misses(g, f, u)
        ensures u in unresolvedCalls[f]
      {
        MissesFrom(g, f, u);
      }
    }
  }

  lemma VisitedNone(g: Graph, open: map<Fxn, set<Name>>, f: Fxn)
    ensures Visited(g, open, f, [], 0)
  {
  }

  lemma GrowsSelf(wcs: map<Fxn, Stack>, open: map<Fxn, set<Name>>)
    ensures Grows(wcs, open, wcs, open)
  {
  }

  lemma GrowsTrans(w0: map<Fxn, Stack>, u0: map<Fxn, set<Name>>, w1: map<Fxn, Stack>, u1: map<Fxn, set<Name>>,
      w2: map<Fxn, Stack>, u2: map<Fxn, set<Name>>)
    requires Grows(w0, u0, w1, u1) && Grows(w1, u1, w2, u2)
    ensures Grows(w0, u0, w2, u2)
  {
  }

  lemma StillVisited(g: Graph, w: map<Fxn, Stack>, open: map<Fxn, set<Name>>, w': map<Fxn, Stack>,
      open': map<Fxn, set<Name>>, f: Fxn, hs: seq<Fxn>, callMax: nat)
    requires Visited(g, open, f, hs, callMax) && Grows(w, open, w', open')
    ensures Visited(g, open', f, hs, callMax)
  {
    hide IsMax, Unbounded, Misses;
  }

  lemma Alone(g: Graph, f: Fxn)
    requires f in g.calls
    ensures Path(g, [] + [f])
  {
    OnePath(g, f);
    assert [] + [f] == [f];
  }

  lemma CalleeKnown(g: Graph, f: Fxn, h: Fxn)
    requires Closed(g) && f in g.calls && h in g.calls[f]
    ensures h in g.calls
  {
    var i :| 0 <= i < |g.calls[f]| && g.calls[f][i] == h;
  }

  lemma RightNoBound(g: Graph, f: Fxn)
    requires Unbounded(g, f)
    ensures Right(g, f, NoBound)
  {
  }

  lemma RightUnbounded(g: Graph, f: Fxn)
    requires Right(g, f, NoBound)
    ensures Unbounded(g, f)
  {
  }

  lemma PathMore(g: Graph, parents: seq<Fxn>, f: Fxn, h: Fxn)
    requires Path(g, parents + [f]) && Calls(g, f, h)
    ensures Path(g, parents + [f] + [h])
  {
    var p, q := parents + [f], parents + [f] + [h];
    forall i, j | 0 <= i && j == i + 1 && j < |q|
      ensures Calls(g, q[i], q[j])
    {
      if j < |p| {
        assert Calls(g, p[i], p[j]);
      }
    }
  }

  lemma FewerUnvalued(all: set<Fxn>, w: map<Fxn, Stack>, w': map<Fxn, Stack>, u: map<Fxn, set<Name>>,
      u': map<Fxn, set<Name>>, parents: seq<Fxn>, f: Fxn)
    requires f in all && f !in w && f !in parents && Grows(w, u, w', u')
    ensures |Unvalued(all, w', parents + [f])| < |Unvalued(all, w, parents)|
  {
    var a, b := Unvalued(all, w', parents + [f]), Unvalued(all, w, parents);
    assert f in b && f !in a;
    assert a <= b - {f};
    Smaller(a, b - {f});
  }

  lemma Smaller(a: set<Fxn>, b: set<Fxn>)
    requires a <= b
    ensures |a| <= |b|
  {
    if a != {} {
      var x :| x in a;
      Smaller(a - {x}, b - {x});
    }
  }
}
