/**
 Which cycle the search reports. It depends on the edges and the order alone: from the
 least vertex that leads into a cycle, the walk always takes the least neighbour that
 leads into one, until a vertex comes back; the cycle is the walk from that vertex on.
 */
module SearchOrder {
  import opened Sorting
  import opened CycleSearch

  // --------------------------------------------------------- the reported cycle

  ghost predicate LoopingWalk<V(!new)>(g: Graph<V>, v: V, p: seq<V>) {
    p != [] && p[0] == v && Walk(g, p) && !Distinct(p)
  }

  /** Some walk from the vertex comes back to a vertex it already passed. */
  ghost predicate Loops<V(!new)>(g: Graph<V>, v: V) {
    exists p :: LoopingWalk(g, v, p)
  }

  ghost predicate LeastStart<V(!new)>(g: Graph<V>, leq: (V, V) -> bool, x: V) {
    Loops(g, x) && forall y :: Loops(g, y) ==> leq(x, y)
  }

  ghost predicate LeastStep<V(!new)>(g: Graph<V>, leq: (V, V) -> bool, u: V, x: V) {
    Edge(g, u, x) && Loops(g, x) && forall y :: Edge(g, u, y) && Loops(g, y) ==> leq(x, y)
  }

  /** The step of the walk at position `i`. */
  ghost predicate GuidedAt<V(!new)>(g: Graph<V>, leq: (V, V) -> bool, q: seq<V>, i: int) {
    0 <= i < |q| - 1 && LeastStep(g, leq, q[i], q[i + 1])
  }

  /** A walk that ends when its last vertex comes back, having passed it at `k`. */
  ghost predicate Lasso<V(!new)>(q: seq<V>, k: nat) {
    k < |q| - 1 && q[k] == q[|q| - 1] && Distinct(q[..|q| - 1])
  }

  ghost predicate GuidedLasso<V(!new)>(g: Graph<V>, leq: (V, V) -> bool, q: seq<V>, k: nat) {
    && Lasso(q, k) && LeastStart(g, leq, q[0])
    && forall i :: 0 <= i < |q| - 1 ==> GuidedAt(g, leq, q, i)
  }

  ghost predicate PrescribedCycle<V(!new)>(g: Graph<V>, leq: (V, V) -> bool, c: seq<V>) {
    exists q, k: nat :: GuidedLasso(g, leq, q, k) && c == q[k..]
  }

  // -------------------------------------------------------------- it is unique

  lemma {:induction false} SameGuidance<V(!new)>(g: Graph<V>, leq: (V, V) -> bool,
                                                 q: seq<V>, k: nat, r: seq<V>, l: nat, i: nat)
    requires TotalOrder(leq) && GuidedLasso(g, leq, q, k) && GuidedLasso(g, leq, r, l) && i < |q| && i < |r|
    ensures q[i] == r[i]
  {
    if i > 0 {
      SameGuidance(g, leq, q, k, r, l, i - 1);
      assert GuidedAt(g, leq, q, i - 1) && GuidedAt(g, leq, r, i - 1);
    }
  }

  lemma NotLonger<V(!new)>(g: Graph<V>, leq: (V, V) -> bool, q: seq<V>, k: nat, r: seq<V>, l: nat)
    requires TotalOrder(leq) && GuidedLasso(g, leq, q, k) && GuidedLasso(g, leq, r, l)
    ensures |r| <= |q|
  {
    var n, front := |q| - 1, r[..|r| - 1];
    if n < |front| {
      SameGuidance(g, leq, q, k, r, l, k);
      SameGuidance(g, leq, q, k, r, l, n);
    }
  }

  lemma PrescribedIsUnique<V(!new)>(g: Graph<V>, leq: (V, V) -> bool, c: seq<V>, d: seq<V>)
    requires TotalOrder(leq) && PrescribedCycle(g, leq, c) && PrescribedCycle(g, leq, d)
    ensures c == d
  {
    var q, k: nat :| GuidedLasso(g, leq, q, k) && c == q[k..];
    var r, l: nat :| GuidedLasso(g, leq, r, l) && d == r[l..];
    NotLonger(g, leq, q, k, r, l);
    NotLonger(g, leq, r, l, q, k);
    forall i | 0 <= i < |q| ensures q[i] == r[i] {
      SameGuidance(g, leq, q, k, r, l, i);
    }
    assert q == r;
    var front := q[..|q| - 1];
    assert front[k] == front[l];
  }

  // ------------------------------------------------ what leads into a cycle

  /** From every vertex of a lasso one can go around its loop. */
  lemma LassoLoops<V(!new)>(g: Graph<V>, q: seq<V>, k: nat, i: nat)
    requires Walk(g, q) && k < |q| - 1 && q[k] == q[|q| - 1] && i < |q|
    ensures Loops(g, q[i])
  {
    var p := q[i..] + q[k + 1..];
    var n := |q| - 1 - i;
    forall j | 0 <= j < |p| - 1 ensures Edge(g, p[j], p[j + 1]) {
      if j < n {
        assert Edge(g, q[i + j], q[i + j + 1]);
      } else {
        assert Edge(g, q[k + j - n], q[k + j - n + 1]);
      }
    }
    assert p[n] == q[|q| - 1] == p[|p| - 1];
    assert LoopingWalk(g, q[i], p);
  }

  lemma {:induction false} SettledWalk<V(!new)>(g: Graph<V>, order: seq<V>, p: seq<V>, i: nat, j: nat)
    returns (a: nat, b: nat)
    requires SettledOrder(g, order) && Walk(g, p) && p != [] && p[0] in order && i < j < |p|
    ensures b < a < |order| && order[a] == p[i] && order[b] == p[j]
    decreases j
  {
    if i + 1 < j {
      var c;
      a, c := SettledWalk(g, order, p, i, j - 1);
      assert Edge(g, p[j - 1], p[j - 1 + 1]);
      b := PositionDrops(g, order, p[j - 1], p[j], c);
    } else {
      if i == 0 {
        a :| 0 <= a < |order| && order[a] == p[0];
      } else {
        var c;
        c, a := SettledWalk(g, order, p, i - 1, i);
      }
      assert Edge(g, p[i], p[i + 1]);
      b := PositionDrops(g, order, p[i], p[j], a);
    }
  }

  /** A finished vertex leads into no cycle. */
  lemma SettledDoesNotLoop<V(!new)>(g: Graph<V>, order: seq<V>, v: V)
    requires SettledOrder(g, order) && v in order
    ensures !Loops(g, v)
  {
    forall p | p != [] && p[0] == v && Walk(g, p) ensures Distinct(p) {
      forall i, j | 0 <= i < j < |p| ensures p[i] != p[j] {
        var a, b := SettledWalk(g, order, p, i, j);
      }
    }
  }

  // ------------------------------------------------------ the search finds it

  /** The walk behind a cycle reported below `path`, guided from position `from` on. */
  ghost predicate Found<V(!new)>(g: Graph<V>, leq: (V, V) -> bool, path: seq<V>, from: nat,
                                 c: seq<V>, q: seq<V>, k: nat)
  {
    && path <= q && Walk(g, q) && Lasso(q, k) && c == q[k..]
    && forall i :: from <= i < |q| - 1 ==> GuidedAt(g, leq, q, i)
  }

  lemma {:induction false} CloseCycleAt<V(!new)>(path: seq<V>, v: V, k: nat)
    requires k < |path| && path[k] == v && Distinct(path)
    ensures CloseCycle(path, v) == (path + [v])[k..]
  {
    if k > 0 {
      CloseCycleAt(path[1..], v, k - 1);
      assert (path + [v])[1..] == path[1..] + [v];
      assert (path + [v])[k..] == (path + [v])[1..][k - 1..];
    }
  }

  /** What the scan of the last vertex's neighbours still has to look at. */
  ghost predicate Ahead<V(!new)>(g: Graph<V>, leq: (V, V) -> bool, u: V, rest: seq<V>) {
    && Sorted(leq, rest)
    && (forall x :: x in rest ==> x in Vertices(g) && Edge(g, u, x))
    && (forall y :: Edge(g, u, y) && Loops(g, y) ==> y in rest)
  }

  lemma NextIsLeast<V(!new)>(g: Graph<V>, leq: (V, V) -> bool, u: V, rest: seq<V>)
    requires TotalOrder(leq) && Ahead(g, leq, u, rest) && rest != [] && Loops(g, rest[0])
    ensures LeastStep(g, leq, u, rest[0])
  {
    assert rest[0] in rest;
  }

  lemma SkipOne<V(!new)>(g: Graph<V>, leq: (V, V) -> bool, u: V, rest: seq<V>)
    requires Ahead(g, leq, u, rest) && rest != [] && !Loops(g, rest[0])
    ensures Ahead(g, leq, u, rest[1..])
  {
    assert rest == [rest[0]] + rest[1..];
  }

  lemma WalkExtends<V(!new)>(g: Graph<V>, path: seq<V>, x: V)
    requires Walk(g, path) && path != [] && Edge(g, path[|path| - 1], x)
    ensures Walk(g, path + [x])
  {
    var q := path + [x];
    forall i | 0 <= i < |q| - 1 ensures Edge(g, q[i], q[i + 1]) {
      if i < |path| - 1 {
        assert Edge(g, path[i], path[i + 1]);
      }
    }
  }

  /** Stepping back onto the path. */
  lemma FoundGray<V(!new)>(g: Graph<V>, leq: (V, V) -> bool, path: seq<V>, rest: seq<V>, k: nat)
    requires TotalOrder(leq) && Walk(g, path) && Distinct(path) && rest != [] && k < |path| && path[k] == rest[0]
    requires Ahead(g, leq, path[|path| - 1], rest)
    ensures Found(g, leq, path, |path| - 1, (path + [rest[0]])[k..], path + [rest[0]], k)
  {
    var x, q := rest[0], path + [rest[0]];
    assert x in rest;
    WalkExtends(g, path, x);
    assert q[..|path|] == path;
    LassoLoops(g, q, k, |path|);
    NextIsLeast(g, leq, path[|path| - 1], rest);
    assert GuidedAt(g, leq, q, |path| - 1);
  }

  /** Prefixing the step from the path's last vertex to `v`. */
  lemma FoundBelow<V(!new)>(g: Graph<V>, leq: (V, V) -> bool, path: seq<V>, rest: seq<V>, c: seq<V>, q: seq<V>, k: nat)
    requires TotalOrder(leq) && path != [] && rest != [] && Ahead(g, leq, path[|path| - 1], rest)
    requires Found(g, leq, path + [rest[0]], |path|, c, q, k)
    ensures Found(g, leq, path, |path| - 1, c, q, k)
  {
    var n := |path|;
    assert q[n] == (path + [rest[0]])[n] && q[n - 1] == (path + [rest[0]])[n - 1];
    LassoLoops(g, q, k, n);
    NextIsLeast(g, leq, path[n - 1], rest);
    assert GuidedAt(g, leq, q, n - 1);
    assert path <= path + [rest[0]] <= q;
  }

  ghost predicate SortedLists<V(!new)>(g: Graph<V>, leq: (V, V) -> bool) {
    forall v :: Sorted(leq, Neighbours(g, v))
  }

  lemma {:induction false} VisitChoice<V(!new)>(g: Graph<V>, leq: (V, V) -> bool, v: V, path: seq<V>, m: Marks<V>)
    returns (q: seq<V>, k: nat)
    requires TotalOrder(leq) && SortedLists(g, leq)
    requires SearchInvariant(g, path, m) && v in Unvisited(g, m)
    requires path == [] || Edge(g, path[|path| - 1], v)
    requires Visit(g, v, path, m).Cycle?
    ensures Found(g, leq, path + [v], |path|, Visit(g, v, path, m).path, q, k)
    decreases Unvisited(g, m), 0
  {
    NeighboursAreVertices(g, v);
    EnterKeeps(g, path, m, v);
    assert v !in Unvisited(g, Enter(m, v));
    assert Ahead(g, leq, v, Neighbours(g, v));
    q, k := ScanChoice(g, leq, path + [v], Neighbours(g, v), Enter(m, v));
  }

  lemma {:induction false} ScanChoice<V(!new)>(g: Graph<V>, leq: (V, V) -> bool, path: seq<V>, rest: seq<V>,
                                               m: Marks<V>)
    returns (q: seq<V>, k: nat)
    requires TotalOrder(leq) && SortedLists(g, leq)
    requires SearchInvariant(g, path, m) && path != [] && Ahead(g, leq, path[|path| - 1], rest)
    requires Scan(g, path, rest, m).Cycle?
    ensures Found(g, leq, path, |path| - 1, Scan(g, path, rest, m).path, q, k)
    decreases Unvisited(g, m), 1 + |rest|
  {
    var x := rest[0];
    assert x in rest;
    if x !in m.color {
      VisitCorrect(g, x, path, m);
      var r := Visit(g, x, path, m);
      if r.Cycle? {
        q, k := VisitChoice(g, leq, x, path, m);
        FoundBelow(g, leq, path, rest, r.path, q, k);
      } else {
        assert Unvisited(g, r.marks) <= Unvisited(g, m) && x in r.marks.order;
        SettledDoesNotLoop(g, r.marks.order, x);
        SkipOne(g, leq, path[|path| - 1], rest);
        q, k := ScanChoice(g, leq, path, rest[1..], r.marks);
      }
    } else if m.color[x] == Gray {
      q := path + [x];
      k :| 0 <= k < |path| && path[k] == x;
      CloseCycleAt(path, x, k);
      FoundGray(g, leq, path, rest, k);
    } else {
      SettledDoesNotLoop(g, m.order, x);
      SkipOne(g, leq, path[|path| - 1], rest);
      q, k := ScanChoice(g, leq, path, rest[1..], m);
    }
  }

  /** The roots still to be searched hold every vertex that leads into a cycle. */
  ghost predicate RootsAhead<V(!new)>(g: Graph<V>, leq: (V, V) -> bool, roots: seq<V>) {
    && Sorted(leq, roots) && (forall x :: x in roots ==> x in Vertices(g))
    && (forall y :: Loops(g, y) ==> y in roots)
  }

  lemma SkipRoot<V(!new)>(g: Graph<V>, leq: (V, V) -> bool, roots: seq<V>)
    requires RootsAhead(g, leq, roots) && roots != [] && !Loops(g, roots[0])
    ensures RootsAhead(g, leq, roots[1..])
  {
    assert roots == [roots[0]] + roots[1..];
  }

  lemma FoundAtRoot<V(!new)>(g: Graph<V>, leq: (V, V) -> bool, roots: seq<V>, c: seq<V>, q: seq<V>, k: nat)
    requires TotalOrder(leq) && RootsAhead(g, leq, roots) && roots != [] && Found(g, leq, [roots[0]], 0, c, q, k)
    ensures PrescribedCycle(g, leq, c)
  {
    assert q[0] == [roots[0]][0];
    LassoLoops(g, q, k, 0);
    assert GuidedLasso(g, leq, q, k);
  }

  lemma {:induction false} RootsChoice<V(!new)>(g: Graph<V>, leq: (V, V) -> bool, roots: seq<V>, m: Marks<V>)
    requires TotalOrder(leq) && SortedLists(g, leq) && SearchInvariant(g, [], m) && RootsAhead(g, leq, roots)
    requires SearchRoots(g, roots, m).Cycle?
    ensures PrescribedCycle(g, leq, SearchRoots(g, roots, m).path)
  {
    var x := roots[0];
    assert x in roots;
    if x in m.color {
      assert x in m.order;
      SettledDoesNotLoop(g, m.order, x);
      SkipRoot(g, leq, roots);
      RootsChoice(g, leq, roots[1..], m);
    } else {
      VisitCorrect(g, x, [], m);
      var r := Visit(g, x, [], m);
      if r.Cycle? {
        var q, k := VisitChoice(g, leq, x, [], m);
        assert [] + [x] == [x];
        FoundAtRoot(g, leq, roots, r.path, q, k);
      } else {
        assert x in r.marks.order;
        SettledDoesNotLoop(g, r.marks.order, x);
        SkipRoot(g, leq, roots);
        RootsChoice(g, leq, roots[1..], r.marks);
      }
    }
  }

  // --------------------------------------------------- in terms of the edges

  lemma LoopsTransfers<V(!new)>(g: Graph<V>, h: Graph<V>, v: V)
    requires forall x, y :: Edge(g, x, y) ==> Edge(h, x, y)
    ensures Loops(g, v) ==> Loops(h, v)
  {
    if Loops(g, v) {
      var p :| LoopingWalk(g, v, p);
      WalkTransfers(g, h, p);
      assert LoopingWalk(h, v, p);
    }
  }

  lemma PrescribedTransfers<V(!new)>(g: Graph<V>, h: Graph<V>, leq: (V, V) -> bool, c: seq<V>)
    requires (forall x, y :: Edge(g, x, y) <==> Edge(h, x, y)) && PrescribedCycle(g, leq, c)
    ensures PrescribedCycle(h, leq, c)
  {
    forall v ensures Loops(g, v) <==> Loops(h, v) {
      LoopsTransfers(g, h, v);
      LoopsTransfers(h, g, v);
    }
    var q, k: nat :| GuidedLasso(g, leq, q, k) && c == q[k..];
    forall i | 0 <= i < |q| - 1 ensures GuidedAt(h, leq, q, i) {
      assert GuidedAt(g, leq, q, i);
    }
    assert GuidedLasso(h, leq, q, k);
  }

  /** A vertex that leads into a cycle has a neighbour, so it is a key. */
  lemma LoopingIsKey<V(!new)>(g: Graph<V>, v: V)
    requires Loops(g, v)
    ensures v in g
  {
    var p :| LoopingWalk(g, v, p);
    assert |p| >= 2 && Edge(g, p[0], p[0 + 1]);
  }

  /** The search reports the prescribed cycle. */
  lemma RecursiveChoice<V(!new)>(g: Graph<V>, keys: seq<V>, leq: (V, V) -> bool)
    requires TotalOrder(leq) && ListsKeys(g, keys) && RecursiveFirstCycle(g, keys, leq).Some?
    ensures PrescribedCycle(g, leq, RecursiveFirstCycle(g, keys, leq).value)
  {
    var s, roots := SortedGraph(g, leq), SortBy(leq, keys);
    SortedGraphShape(g, leq);
    SameShapeVertices(s, g);
    SameElements(roots, keys);
    SortBySorted(leq, keys);
    forall v ensures Sorted(leq, Neighbours(s, v)) {
      SortBySorted(leq, Neighbours(g, v));
    }
    forall y | Loops(s, y) ensures y in roots {
      LoopingIsKey(s, y);
    }
    RootsChoice(s, leq, roots, Marks(map[], []));
    PrescribedTransfers(s, g, leq, RecursiveFirstCycle(g, keys, leq).value);
  }

  /**
   The diagnostic is stable: neither the hash map's iteration order, nor the order and
   repetition of neighbours in a list, nor keys without neighbours can change it.
   */
  lemma FirstCycleDependsOnEdgesOnly<V(!new)>(g: Graph<V>, gKeys: seq<V>, h: Graph<V>, hKeys: seq<V>,
                                              leq: (V, V) -> bool)
    requires TotalOrder(leq) && ListsKeys(g, gKeys) && ListsKeys(h, hKeys)
    requires forall u, v :: Edge(g, u, v) <==> Edge(h, u, v)
    ensures RecursiveFirstCycle(g, gKeys, leq) == RecursiveFirstCycle(h, hKeys, leq)
  {
    RecursiveSearchCorrect(g, gKeys, leq);
    RecursiveSearchCorrect(h, hKeys, leq);
    if Acyclic(g) {
      AcyclicShrinks(h, g);
    } else {
      if Acyclic(h) {
        AcyclicShrinks(g, h);
      }
      RecursiveChoice(g, gKeys, leq);
      RecursiveChoice(h, hKeys, leq);
      PrescribedTransfers(h, g, leq, RecursiveFirstCycle(h, hKeys, leq).value);
      PrescribedIsUnique(g, leq, RecursiveFirstCycle(g, gKeys, leq).value, RecursiveFirstCycle(h, hKeys, leq).value);
    }
  }
}
