/**
 The three-colour depth-first search shared by node and template chain
 validation, in its recursive form: `Visit`, `Scan` and `SearchRoots`. `StackSearch`
 has the explicit-stack form, proved to return the same path.
 */
module CycleSearch {
  import opened Wrappers
  import opened Sorting

  /** An adjacency map. Neighbours need not be keys and may repeat. */
  type Graph<V> = map<V, seq<V>>

  datatype Color = Gray | Black

  /** An active frame: its vertex and the neighbours its iterator still holds. */
  datatype Frame<V> = Frame(node: V, rest: seq<V>)

  /** Vertex colours (a vertex without one is unvisited) and the finish order. */
  datatype Marks<V> = Marks(color: map<V, Color>, order: seq<V>)

  datatype Outcome<V> = Cycle(path: seq<V>) | Finished(marks: Marks<V>)

  // ---------------------------------------------------------------- graphs

  function Neighbours<V(!new)>(g: Graph<V>, v: V): seq<V> {
    if v in g then g[v] else []
  }

  predicate Edge<V(==,!new)>(g: Graph<V>, u: V, v: V) {
    v in Neighbours(g, u)
  }

  ghost function Vertices<V(!new)>(g: Graph<V>): set<V> {
    g.Keys + set u, v | u in g && v in g[u] :: v
  }

  lemma NeighboursAreVertices<V(!new)>(g: Graph<V>, v: V)
    ensures forall x :: x in Neighbours(g, v) ==> x in Vertices(g)
  {
  }

  ghost predicate Distinct<V(!new)>(s: seq<V>) {
    forall i, j :: 0 <= i < j < |s| ==> s[i] != s[j]
  }

  ghost predicate Walk<V(!new)>(g: Graph<V>, p: seq<V>) {
    forall i :: 0 <= i < |p| - 1 ==> Edge(g, p[i], p[i + 1])
  }

  ghost predicate ClosedWalk<V(!new)>(g: Graph<V>, p: seq<V>) {
    |p| >= 2 && p[0] == p[|p| - 1] && Walk(g, p)
  }

  /** A closed walk of real edges that repeats no vertex but its endpoint. */
  ghost predicate SimpleCycle<V(!new)>(g: Graph<V>, p: seq<V>) {
    ClosedWalk(g, p) && Distinct(p[..|p| - 1])
  }

  ghost predicate Acyclic<V(!new)>(g: Graph<V>) {
    forall p :: !ClosedWalk(g, p)
  }

  /** Every edge leaving a listed vertex leads to one listed strictly earlier. */
  ghost predicate SettledOrder<V(!new)>(g: Graph<V>, order: seq<V>) {
    && Distinct(order)
    && (forall i, x :: 0 <= i < |order| && x in Neighbours(g, order[i]) ==> x in order[..i])
  }

  /** A listing of all vertices, each once, in which every edge points backwards. */
  ghost predicate TopologicalOrder<V(!new)>(g: Graph<V>, order: seq<V>) {
    SettledOrder(g, order) && (forall v :: v in order <==> v in Vertices(g))
  }

  lemma PositionDrops<V(!new)>(g: Graph<V>, order: seq<V>, u: V, v: V, i: nat)
    returns (j: nat)
    requires SettledOrder(g, order) && Edge(g, u, v)
    requires i < |order| && order[i] == u
    ensures j < i && order[j] == v
  {
    assert v in order[..i];
    j :| 0 <= j < i && order[..i][j] == v;
  }

  lemma {:induction false} WalkDescends<V(!new)>(g: Graph<V>, order: seq<V>, p: seq<V>, i: nat)
    returns (j: nat)
    requires SettledOrder(g, order) && Walk(g, p)
    requires |p| >= 2 && i < |order| && order[i] == p[0]
    ensures j < i && order[j] == p[|p| - 1]
    decreases |p|
  {
    assert Edge(g, p[0], p[1]);
    j := PositionDrops(g, order, p[0], p[1], i);
    if |p| > 2 {
      var q := p[1..];
      assert Walk(g, q) by {
        forall k | 0 <= k < |q| - 1 ensures Edge(g, q[k], q[k + 1]) {
          assert Edge(g, p[k + 1], p[k + 2]);
        }
      }
      j := WalkDescends(g, order, q, j);
    }
  }

  /** The partner of `TopologicalOrder`: a graph that has one has no closed walk. */
  lemma TopologicalOrderMeansAcyclic<V(!new)>(g: Graph<V>, order: seq<V>)
    requires TopologicalOrder(g, order)
    ensures Acyclic(g)
  {
    forall p ensures !ClosedWalk(g, p) {
      if ClosedWalk(g, p) {
        assert Edge(g, p[0], p[1]);
        assert p[0] in order;
        var i :| 0 <= i < |order| && order[i] == p[0];
        var j := WalkDescends(g, order, p, i);
        assert false;
      }
    }
  }

  // ------------------------------------------------- the recursive search

  /** The active path from the first occurrence of `v` on, closed with `v`. */
  function CloseCycle<V(==,!new)>(path: seq<V>, v: V): seq<V> {
    if path == [] then [v]
    else if path[0] == v then path + [v]
    else CloseCycle(path[1..], v)
  }

  ghost predicate Grows<V(!new)>(g: Graph<V>, m: Marks<V>, n: Marks<V>) {
    && m.color.Keys <= n.color.Keys <= Vertices(g)
    && (forall x :: x in m.color ==> n.color[x] == m.color[x])
  }

  function Enter<V(==,!new)>(m: Marks<V>, v: V): Marks<V> {
    m.(color := m.color[v := Gray])
  }

  function Leave<V(==,!new)>(m: Marks<V>, v: V): Marks<V> {
    Marks(m.color[v := Black], m.order + [v])
  }

  ghost function Unvisited<V(!new)>(g: Graph<V>, m: Marks<V>): set<V> {
    Vertices(g) - m.color.Keys
  }

  /** Search from the unvisited vertex `v`, reached along `path`. */
  ghost function Visit<V(!new)>(g: Graph<V>, v: V, path: seq<V>, m: Marks<V>): (r: Outcome<V>)
    requires v in Unvisited(g, m) && m.color.Keys <= Vertices(g)
    ensures r.Finished? ==> Grows(g, m, r.marks)
    ensures r.Finished? ==> v in r.marks.color && r.marks.color[v] == Black
    decreases Unvisited(g, m), 0
  {
    NeighboursAreVertices(g, v);
    assert v !in Unvisited(g, Enter(m, v));
    match Scan(g, path + [v], Neighbours(g, v), Enter(m, v))
    case Cycle(p) => Cycle(p)
    case Finished(n) => Finished(Leave(n, v))
  }

  /** Go through the neighbours `rest` of the last vertex of `path`. */
  ghost function Scan<V(!new)>(g: Graph<V>, path: seq<V>, rest: seq<V>, m: Marks<V>): (r: Outcome<V>)
    requires (forall x :: x in rest ==> x in Vertices(g)) && m.color.Keys <= Vertices(g)
    ensures r.Finished? ==> Grows(g, m, r.marks)
    decreases Unvisited(g, m), 1 + |rest|
  {
    if rest == [] then Finished(m)
    else if rest[0] !in m.color then
      match Visit(g, rest[0], path, m)
      case Cycle(p) => Cycle(p)
      case Finished(n) =>
        assert Unvisited(g, n) <= Unvisited(g, m);
        Scan(g, path, rest[1..], n)
    else if m.color[rest[0]] == Gray then Cycle(CloseCycle(path, rest[0]))
    else Scan(g, path, rest[1..], m)
  }

  /** Start a search at every root that is still unvisited. */
  ghost function SearchRoots<V(!new)>(g: Graph<V>, roots: seq<V>, m: Marks<V>): (r: Outcome<V>)
    requires (forall x :: x in roots ==> x in Vertices(g)) && m.color.Keys <= Vertices(g)
    ensures r.Finished? ==> Grows(g, m, r.marks)
  {
    if roots == [] then Finished(m)
    else if roots[0] in m.color then SearchRoots(g, roots[1..], m)
    else
      match Visit(g, roots[0], [], m)
      case Cycle(p) => Cycle(p)
      case Finished(n) => SearchRoots(g, roots[1..], n)
  }

  // ------------------------------------------- soundness and completeness

  /**
   The search invariant: gray vertices are exactly the active path, black ones
   exactly the finished vertices, the path is a simple walk, and every edge of a
   finished vertex leads to one finished earlier.
   */
  ghost predicate SearchInvariant<V(!new)>(g: Graph<V>, path: seq<V>, m: Marks<V>) {
    && (forall x :: x in path <==> x in m.color && m.color[x] == Gray)
    && (forall x :: x in m.order <==> x in m.color && m.color[x] == Black)
    && m.color.Keys <= Vertices(g)
    && Distinct(path) && Walk(g, path)
    && SettledOrder(g, m.order)
  }

  lemma {:induction false} CloseCycleIsSimple<V(!new)>(g: Graph<V>, path: seq<V>, v: V)
    requires v in path && Distinct(path) && Walk(g, path)
    requires Edge(g, path[|path| - 1], v)
    ensures SimpleCycle(g, CloseCycle(path, v))
  {
    var c := CloseCycle(path, v);
    if path[0] == v {
      assert c[..|c| - 1] == path;
      forall i | 0 <= i < |c| - 1 ensures Edge(g, c[i], c[i + 1]) {
        if i < |path| - 1 {
          assert Edge(g, path[i], path[i + 1]);
        }
      }
    } else {
      var q := path[1..];
      forall i | 0 <= i < |q| - 1 ensures Edge(g, q[i], q[i + 1]) {
        assert Edge(g, path[i + 1], path[i + 2]);
      }
      CloseCycleIsSimple(g, q, v);
    }
  }

  lemma EnterKeeps<V(!new)>(g: Graph<V>, path: seq<V>, m: Marks<V>, v: V)
    requires SearchInvariant(g, path, m) && v in Unvisited(g, m)
    requires path == [] || Edge(g, path[|path| - 1], v)
    ensures SearchInvariant(g, path + [v], Enter(m, v))
  {
    var q, n := path + [v], Enter(m, v);
    assert v !in path;
    forall i | 0 <= i < |q| - 1 ensures Edge(g, q[i], q[i + 1]) {
      if i < |path| - 1 {
        assert Edge(g, path[i], path[i + 1]);
      }
    }
  }

  lemma LeaveKeeps<V(!new)>(g: Graph<V>, path: seq<V>, m: Marks<V>, v: V)
    requires SearchInvariant(g, path + [v], m)
    requires forall x :: x in Neighbours(g, v) ==> x in m.order
    ensures SearchInvariant(g, path, Leave(m, v))
  {
    var q, n := path + [v], Leave(m, v);
    assert q[|path|] == v && v in q;
    forall i | 0 <= i < |path| ensures path[i] != v {
      assert q[i] != q[|path|];
    }
    forall x ensures x in path <==> x in n.color && n.color[x] == Gray {
      assert x in q <==> x in path || x == v;
    }
    forall i | 0 <= i < |path| - 1 ensures Edge(g, path[i], path[i + 1]) {
      assert Edge(g, q[i], q[i + 1]);
    }
    assert Distinct(path) by {
      forall i, j | 0 <= i < j < |path| ensures path[i] != path[j] {
        assert q[i] != q[j];
      }
    }
    SettleOne(g, m.order, v);
  }

  lemma SettleOne<V(!new)>(g: Graph<V>, order: seq<V>, v: V)
    requires SettledOrder(g, order) && v !in order
    requires forall x :: x in Neighbours(g, v) ==> x in order
    ensures SettledOrder(g, order + [v])
  {
    var n := order + [v];
    forall i, x | 0 <= i < |n| && x in Neighbours(g, n[i]) ensures x in n[..i] {
      if i < |order| {
        assert n[..i] == order[..i];
      } else {
        assert n[..i] == order;
      }
    }
  }

  ghost predicate VisitResult<V(!new)>(g: Graph<V>, path: seq<V>, m: Marks<V>, r: Outcome<V>) {
    match r
    case Cycle(p) => SimpleCycle(g, p)
    case Finished(n) => SearchInvariant(g, path, n) && m.order <= n.order
  }

  lemma {:induction false} VisitCorrect<V(!new)>(g: Graph<V>, v: V, path: seq<V>, m: Marks<V>)
    requires SearchInvariant(g, path, m) && v in Unvisited(g, m)
    requires path == [] || Edge(g, path[|path| - 1], v)
    ensures VisitResult(g, path, m, Visit(g, v, path, m))
    decreases Unvisited(g, m), 0
  {
    NeighboursAreVertices(g, v);
    EnterKeeps(g, path, m, v);
    var q, n := path + [v], Enter(m, v);
    assert v !in Unvisited(g, n);
    ScanCorrect(g, q, Neighbours(g, v), n);
    var r := Scan(g, q, Neighbours(g, v), n);
    if r.Finished? {
      LeaveKeeps(g, path, r.marks, v);
    }
  }

  lemma {:induction false} ScanCorrect<V(!new)>(g: Graph<V>, path: seq<V>, rest: seq<V>, m: Marks<V>)
    requires SearchInvariant(g, path, m) && path != []
    requires forall x :: x in rest ==> x in Vertices(g) && Edge(g, path[|path| - 1], x)
    ensures var r := Scan(g, path, rest, m);
      VisitResult(g, path, m, r) && (r.Finished? ==> forall x :: x in rest ==> x in r.marks.order)
    decreases Unvisited(g, m), 1 + |rest|
  {
    if rest != [] {
      var x := rest[0];
      assert x in rest && rest == [x] + rest[1..];
      if x !in m.color {
        VisitCorrect(g, x, path, m);
        var r := Visit(g, x, path, m);
        if r.Finished? {
          assert Unvisited(g, r.marks) <= Unvisited(g, m);
          ScanCorrect(g, path, rest[1..], r.marks);
        }
      } else if m.color[x] == Gray {
        CloseCycleIsSimple(g, path, x);
      } else {
        ScanCorrect(g, path, rest[1..], m);
      }
    }
  }

  lemma {:induction false} SearchRootsCorrect<V(!new)>(g: Graph<V>, roots: seq<V>, m: Marks<V>)
    requires SearchInvariant(g, [], m)
    requires forall x :: x in roots ==> x in Vertices(g)
    ensures var r := SearchRoots(g, roots, m);
      VisitResult(g, [], m, r) && (r.Finished? ==> forall x :: x in roots ==> x in r.marks.order)
  {
    if roots != [] {
      var x := roots[0];
      assert x in roots && roots == [x] + roots[1..];
      if x in m.color {
        assert x in m.order;
        SearchRootsCorrect(g, roots[1..], m);
      } else {
        VisitCorrect(g, x, [], m);
        var r := Visit(g, x, [], m);
        if r.Finished? {
          assert x in r.marks.order;
          SearchRootsCorrect(g, roots[1..], r.marks);
        }
      }
    }
  }

  /** Sorted neighbour lists: the view of the graph that the search walks. */
  function SortedGraph<V(==,!new)>(g: Graph<V>, leq: (V, V) -> bool): Graph<V> {
    map v | v in g :: SortBy(leq, g[v])
  }

  /** Two adjacency maps with the same keys, edges and list lengths. */
  ghost predicate SameShape<V(!new)>(g: Graph<V>, h: Graph<V>) {
    && g.Keys == h.Keys
    && (forall u, v :: Edge(g, u, v) <==> Edge(h, u, v))
    && (forall v :: |Neighbours(g, v)| == |Neighbours(h, v)|)
  }

  lemma SameShapeVertices<V(!new)>(g: Graph<V>, h: Graph<V>)
    requires SameShape(g, h)
    ensures Vertices(g) == Vertices(h)
  {
    forall v | v in Vertices(g) ensures v in Vertices(h) {
      if v !in g {
        var u :| u in g && v in g[u];
        assert Edge(g, u, v);
      }
    }
    forall v | v in Vertices(h) ensures v in Vertices(g) {
      if v !in h {
        var u :| u in h && v in h[u];
        assert Edge(h, u, v);
      }
    }
  }

  lemma SortedGraphShape<V(!new)>(g: Graph<V>, leq: (V, V) -> bool)
    ensures SameShape(SortedGraph(g, leq), g)
  {
    var s := SortedGraph(g, leq);
    forall u, v ensures Edge(s, u, v) <==> Edge(g, u, v) {
      SameElements(Neighbours(s, u), Neighbours(g, u));
    }
    forall v ensures |Neighbours(s, v)| == |Neighbours(g, v)| {
      SameElements(Neighbours(s, v), Neighbours(g, v));
    }
  }

  ghost predicate ListsKeys<V(!new)>(g: Graph<V>, keys: seq<V>) {
    Distinct(keys) && (forall v :: v in keys <==> v in g)
  }

  /** The recursive search over the whole graph, `keys` being the map's iteration order. */
  ghost function RecursiveSearch<V(!new)>(g: Graph<V>, keys: seq<V>, leq: (V, V) -> bool): (r: Outcome<V>)
    requires ListsKeys(g, keys)
  {
    var s := SortedGraph(g, leq);
    SameElements(SortBy(leq, keys), keys);
    SearchRoots(s, SortBy(leq, keys), Marks(map[], []))
  }

  ghost function RecursiveFirstCycle<V(!new)>(g: Graph<V>, keys: seq<V>, leq: (V, V) -> bool): Option<seq<V>>
    requires ListsKeys(g, keys)
  {
    match RecursiveSearch(g, keys, leq)
    case Cycle(p) => Some(p)
    case Finished(_) => None
  }

  /** Soundness and completeness: a simple cycle of real edges, or a topological order of all vertices. */
  lemma RecursiveSearchCorrect<V(!new)>(g: Graph<V>, keys: seq<V>, leq: (V, V) -> bool)
    requires ListsKeys(g, keys)
    ensures match RecursiveSearch(g, keys, leq)
            case Cycle(p) => SimpleCycle(g, p) && !Acyclic(g)
            case Finished(m) => TopologicalOrder(g, m.order) && Acyclic(g)
  {
    var s := SortedGraph(g, leq);
    var start: Marks<V> := Marks(map[], []);
    SortedGraphShape(g, leq);
    SameShapeVertices(s, g);
    SameElements(SortBy(leq, keys), keys);
    SearchRootsCorrect(s, SortBy(leq, keys), start);
    match RecursiveSearch(g, keys, leq)
    case Cycle(p) =>
      assert SimpleCycle(s, p);
      WalkTransfers(s, g, p);
    case Finished(m) =>
      SettledCoversAll(s, m);
      SettledTransfers(s, g, m.order);
      TopologicalOrderMeansAcyclic(g, m.order);
  }

  lemma WalkTransfers<V(!new)>(g: Graph<V>, h: Graph<V>, p: seq<V>)
    requires Walk(g, p)
    requires forall u, v :: Edge(g, u, v) ==> Edge(h, u, v)
    ensures Walk(h, p)
  {
    forall i | 0 <= i < |p| - 1 ensures Edge(h, p[i], p[i + 1]) {
      assert Edge(g, p[i], p[i + 1]);
    }
  }

  lemma ClosedWalkTransfers<V(!new)>(g: Graph<V>, h: Graph<V>, p: seq<V>)
    requires ClosedWalk(g, p)
    requires forall u, v :: Edge(g, u, v) ==> Edge(h, u, v)
    ensures ClosedWalk(h, p)
  {
    WalkTransfers(g, h, p);
  }

  /** Dropping edges cannot create a cycle. */
  lemma AcyclicShrinks<V(!new)>(g: Graph<V>, h: Graph<V>)
    requires Acyclic(h) && forall u, v :: Edge(g, u, v) ==> Edge(h, u, v)
    ensures Acyclic(g)
  {
    forall p ensures !ClosedWalk(g, p) {
      if ClosedWalk(g, p) {
        ClosedWalkTransfers(g, h, p);
      }
    }
  }

  lemma SettledTransfers<V(!new)>(g: Graph<V>, h: Graph<V>, order: seq<V>)
    requires SettledOrder(g, order)
    requires forall u, v :: Edge(h, u, v) ==> Edge(g, u, v)
    ensures SettledOrder(h, order)
  {
    forall i, x | 0 <= i < |order| && x in Neighbours(h, order[i]) ensures x in order[..i] {
      assert Edge(h, order[i], x);
    }
  }

  lemma SettledCoversAll<V(!new)>(g: Graph<V>, m: Marks<V>)
    requires SearchInvariant(g, [], m)
    requires forall x :: x in g ==> x in m.order
    ensures forall v :: v in m.order <==> v in Vertices(g)
  {
    forall v | v in Vertices(g) ensures v in m.order {
      if v !in g {
        var u :| u in g && v in g[u];
        var i :| 0 <= i < |m.order| && m.order[i] == u;
        assert v in Neighbours(g, m.order[i]);
        assert v in m.order[..i];
      }
    }
  }
}
