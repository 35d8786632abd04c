/** Worst-case stack use as a property of the call graph: what the analysis of tools/WCS.py is
    meant to compute, stated with call paths only.
 */
module StackPaths {

  type Fxn = nat       // a function dictionary
  datatype Name = Name(text: string)

  /** The resolved calls, the stack used by each function itself, the functions with calls through
      pointers, and the calls of each function that could not be resolved. */
  datatype Graph = Graph(calls: map<Fxn, seq<Fxn>>, local: map<Fxn, nat>, ptr: set<Fxn>, open: map<Fxn, set<Name>>)

  ghost predicate Closed(g: Graph) {
    && g.local.Keys == g.calls.Keys && g.open.Keys == g.calls.Keys
    && forall f, i :: f in g.calls && 0 <= i < |g.calls[f]| ==> g.calls[f][i] in g.calls
  }

  ghost predicate Calls(g: Graph, f: Fxn, h: Fxn) {
    f in g.calls && h in g.calls[f]
  }

  /** A chain of calls. */
  ghost predicate Path(g: Graph, p: seq<Fxn>) {
    && p != [] && p[0] in g.calls
    && forall i, j :: 0 <= i && j == i + 1 && j < |p| ==> Calls(g, p[i], p[j])
  }

  ghost predicate From(g: Graph, f: Fxn, p: seq<Fxn>) {
    Path(g, p) && p[0] == f
  }

  ghost predicate Repeats(p: seq<Fxn>) {
    exists i, j :: 0 <= i < j < |p| && p[i] == p[j]
  }

  /** A path that shows that there is no bound: it ends at a call through a pointer, or it comes
      back to a function. */
  ghost predicate Endless(g: Graph, p: seq<Fxn>) {
    Repeats(p) || (p != [] && p[|p| - 1] in g.ptr)
  }

  ghost predicate Unbounded(g: Graph, f: Fxn) {
    exists p :: From(g, f, p) && Endless(g, p)
  }

  function Cost(g: Graph, p: seq<Fxn>): nat {
    if p == [] then 0 else (if p[0] in g.local then g.local[p[0]] else 0) + Cost(g, p[1..])
  }

  /** `n` is the largest sum of local stacks over all call paths. */
  ghost predicate IsWorst(g: Graph, f: Fxn, n: nat) {
    && (forall p :: From(g, f, p) ==> Cost(g, p) <= n)
    && exists p :: From(g, f, p) && Cost(g, p) == n
  }

  /** Some function on a path makes this unresolved call. */
  ghost predicate Misses(g: Graph, f: Fxn, u: Name) {
    exists p :: From(g, f, p) && p[|p| - 1] in g.open && u in g.open[p[|p| - 1]]
  }

  datatype Stack = NoBound | Bytes(n: nat)

  /** What the analysis has to say of a function. */
  ghost predicate Right(g: Graph, f: Fxn, v: Stack) {
    match v
    case NoBound => Unbounded(g, f)
    case Bytes(n) => !Unbounded(g, f) && IsWorst(g, f, n)
  }

  /** There is only one right answer, so it cannot depend on the order of visits. */
  lemma OneAnswer(g: Graph, f: Fxn, v: Stack, w: Stack)
    requires Right(g, f, v) && Right(g, f, w)
    ensures v == w
  {
    if v.Bytes? && w.Bytes? {
      var p :| From(g, f, p) && Cost(g, p) == v.n;
      var q :| From(g, f, q) && Cost(g, q) == w.n;
    }
  }

  // ---- Paths ------------------------------------------------------------------------------

  lemma OnePath(g: Graph, f: Fxn)
    requires f in g.calls
    ensures From(g, f, [f])
    ensures f in g.local ==> Cost(g, [f]) == g.local[f]
  {
    assert [f][1..] == [];
  }

  lemma Longer(g: Graph, f: Fxn, h: Fxn, p: seq<Fxn>)
    requires Calls(g, f, h) && From(g, h, p)
    ensures From(g, f, [f] + p) && ([f] + p)[|p|] == p[|p| - 1]
    ensures f in g.local ==> Cost(g, [f] + p) == g.local[f] + Cost(g, p)
  {
    var q := [f] + p;
    assert q[1..] == p;
    forall i, j | 0 <= i && j == i + 1 && j < |q|
      ensures Calls(g, q[i], q[j])
    {
      if i > 0 {
        assert Calls(g, p[i - 1], p[j - 1]);
      }
    }
  }

  lemma Shorter(g: Graph, f: Fxn, p: seq<Fxn>)
    requires From(g, f, p) && 1 < |p| && Closed(g)
    ensures Calls(g, f, p[1]) && From(g, p[1], p[1..])
    ensures f in g.local ==> Cost(g, p) == g.local[f] + Cost(g, p[1..])
  {
    assert Calls(g, p[0], p[1]);
    var q := p[1..];
    forall i, j | 0 <= i && j == i + 1 && j < |q|
      ensures Calls(g, q[i], q[j])
    {
      assert Calls(g, p[i + 1], p[j + 1]);
    }
  }

  lemma EndlessLonger(g: Graph, f: Fxn, p: seq<Fxn>)
    requires p != [] && Endless(g, p)
    ensures Endless(g, [f] + p)
  {
    var q := [f] + p;
    if Repeats(p) {
      var i, j :| 0 <= i < j < |p| && p[i] == p[j];
      assert q[i + 1] == q[j + 1];
    }
  }

  lemma CallerUnbounded(g: Graph, f: Fxn, h: Fxn)
    requires Calls(g, f, h) && Unbounded(g, h)
    ensures Unbounded(g, f)
  {
    var p :| From(g, h, p) && Endless(g, p);
    Longer(g, f, h, p);
    EndlessLonger(g, f, p);
  }

  lemma PointerUnbounded(g: Graph, f: Fxn)
    requires f in g.calls && f in g.ptr
    ensures Unbounded(g, f)
  {
    OnePath(g, f);
    assert Endless(g, [f]);
  }

  /** A function that is found again on the way from itself. */
  lemma LoopUnbounded(g: Graph, parents: seq<Fxn>, f: Fxn)
    requires Path(g, parents + [f]) && f in parents
    ensures Unbounded(g, f)
  {
    var k :| 0 <= k < |parents| && parents[k] == f;
    var all := parents + [f];
    var p := all[k..];
    forall i, j | 0 <= i && j == i + 1 && j < |p|
      ensures Calls(g, p[i], p[j])
    {
      assert Calls(g, all[k + i], all[k + j]);
    }
    if k > 0 {
      assert Calls(g, all[k], all[k + 1]);
    }
    assert p[0] == f == p[|p| - 1] && 0 < |p| - 1;
    assert From(g, f, p) && Endless(g, p);
  }

  /** A path from `f` that comes back to `f` means that the function it calls is on a cycle. */
  lemma BackToStart(g: Graph, p: seq<Fxn>, j: nat)
    requires Closed(g) && Path(g, p) && 0 < j < |p| && p[j] == p[0]
    ensures Unbounded(g, p[1])
  {
    Shorter(g, p[0], p);
    var c := p[1];
    var q := p[1..j + 1] + [c];
    forall a, b | 0 <= a && b == a + 1 && b < |q|
      ensures Calls(g, q[a], q[b])
    {
      if b < j {
        assert q[a] == p[a + 1] && q[b] == p[b + 1] && Calls(g, p[a + 1], p[b + 1]);
      } else {
        assert q[a] == p[j] && q[b] == c && Calls(g, p[0], p[1]);
      }
    }
    assert q[0] == c == q[j];
    assert From(g, c, q) && Endless(g, q);
  }

  ghost predicate ComesBack(p: seq<Fxn>) {
    exists j :: 0 < j < |p| && p[j] == p[0]
  }

  lemma RepeatsSplit(p: seq<Fxn>)
    requires Repeats(p)
    ensures 1 < |p| && (Repeats(p[1..]) || ComesBack(p))
  {
    var i, j :| 0 <= i < j < |p| && p[i] == p[j];
    if 0 < i {
      assert p[1..][i - 1] == p[1..][j - 1];
    }
  }

  lemma ComesBackUnbounded(g: Graph, p: seq<Fxn>)
    requires Closed(g) && Path(g, p) && ComesBack(p)
    ensures 1 < |p| && Unbounded(g, p[1])
  {
    var j :| 0 < j < |p| && p[j] == p[0];
    BackToStart(g, p, j);
  }

  /** An endless path shows that its start calls through a pointer or calls an unbounded
      function. */
  lemma EndlessShorter(g: Graph, f: Fxn, p: seq<Fxn>)
    requires Closed(g) && From(g, f, p) && Endless(g, p)
    ensures f in g.ptr || exists h :: Calls(g, f, h) && Unbounded(g, h)
  {
    if Repeats(p) {
      RepeatsSplit(p);
    }
    if 1 < |p| {
      Shorter(g, f, p);
      if ComesBack(p) {
        ComesBackUnbounded(g, p);
      } else {
        assert Endless(g, p[1..]);
      }
      assert Unbounded(g, p[1]);
    }
  }

  /** With bounded callees and no call through a pointer a function is bounded. */
  lemma CalleesBound(g: Graph, f: Fxn)
    requires Closed(g) && f in g.calls && f !in g.ptr && forall h :: h in g.calls[f] ==> !Unbounded(g, h)
    ensures !Unbounded(g, f)
  {
    forall p | From(g, f, p)
      ensures !Endless(g, p)
    {
      if Endless(g, p) {
        EndlessShorter(g, f, p);
      }
    }
  }

  /** The largest of the callees' worst cases, and the function's own stack. */
  ghost predicate IsMax(g: Graph, hs: seq<Fxn>, m: nat) {
    && (forall h, p :: h in hs && From(g, h, p) ==> Cost(g, p) <= m)
    && (m > 0 ==> exists h, p :: h in hs && From(g, h, p) && Cost(g, p) == m)
  }

  lemma WorstOf(g: Graph, f: Fxn, m: nat)
    requires Closed(g) && f in g.calls && IsMax(g, g.calls[f], m)
    ensures IsWorst(g, f, m + g.local[f])
  {
    OnePath(g, f);
    forall p | From(g, f, p)
      ensures Cost(g, p) <= m + g.local[f]
    {
      if |p| == 1 {
        assert p == [f];
      } else {
        Shorter(g, f, p);
      }
    }
    if m > 0 {
      var h, p :| h in g.calls[f] && From(g, h, p) && Cost(g, p) == m;
      Longer(g, f, h, p);
    }
  }

  lemma MaxMore(g: Graph, hs: seq<Fxn>, h: Fxn, m: nat, n: nat)
    requires IsMax(g, hs, m) && IsWorst(g, h, n)
    ensures IsMax(g, hs + [h], if m < n then n else m)
  {
    var top := if m < n then n else m;
    if top > 0 {
      if m < n {
        var p :| From(g, h, p) && Cost(g, p) == n;
        assert h in hs + [h];
      } else {
        var k, p :| k in hs && From(g, k, p) && Cost(g, p) == m;
        assert k in hs + [h];
      }
    }
  }

  /** The unresolved calls below a function are its own and those below its callees. */
  lemma MissesCallee(g: Graph, f: Fxn, h: Fxn, u: Name)
    requires Calls(g, f, h) && Misses(g, h, u)
    ensures Misses(g, f, u)
  {
    var p :| From(g, h, p) && p[|p| - 1] in g.open && u in g.open[p[|p| - 1]];
    Longer(g, f, h, p);
    assert ([f] + p)[|[f] + p| - 1] == p[|p| - 1];
  }

  lemma MissesOwn(g: Graph, f: Fxn, u: Name)
    requires f in g.calls && f in g.open && u in g.open[f]
    ensures Misses(g, f, u)
  {
    OnePath(g, f);
    assert [f][|[f]| - 1] == f;
  }

  lemma MissesFrom(g: Graph, f: Fxn, u: Name)
    requires Closed(g) && f in g.calls && Misses(g, f, u)
    ensures u in g.open[f] || exists h :: h in g.calls[f] && Misses(g, h, u)
  {
    var p :| From(g, f, p) && p[|p| - 1] in g.open && u in g.open[p[|p| - 1]];
    if 1 < |p| {
      Shorter(g, f, p);
      assert p[1..][|p[1..]| - 1] == p[|p| - 1];
    }
  }
}
