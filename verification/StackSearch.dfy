/**
 The explicit-stack search the repository runs. It refines the recursive search
 path for path, and its inner loop runs once per edge and once per vertex.
 */
module StackSearch {
  import opened Wrappers
  import opened Sorting
  import opened CycleSearch
  import opened SearchOrder

  function Nodes<V>(stack: seq<Frame<V>>): (p: seq<V>)
    ensures |p| == |stack|
    ensures forall i :: 0 <= i < |p| ==> p[i] == stack[i].node
  {
    seq(|stack|, i requires 0 <= i < |stack| => stack[i].node)
  }

  ghost predicate StackInGraph<V(!new)>(g: Graph<V>, stack: seq<Frame<V>>) {
    forall i, x :: 0 <= i < |stack| && x in stack[i].rest ==> x in Vertices(g)
  }

  /** What the recursion would still return from a stack of suspended calls. */
  ghost function Resume<V(!new)>(g: Graph<V>, stack: seq<Frame<V>>, m: Marks<V>): (r: Outcome<V>)
    requires StackInGraph(g, stack) && m.color.Keys <= Vertices(g)
    requires forall i :: 0 <= i < |stack| ==> stack[i].node in Vertices(g)
    decreases |stack|
  {
    if stack == [] then Finished(m)
    else
      var top := stack[|stack| - 1];
      match Scan(g, Nodes(stack), top.rest, m)
      case Cycle(p) => Cycle(p)
      case Finished(n) => Resume(g, stack[..|stack| - 1], Leave(n, top.node))
  }

  ghost predicate Resumable<V(!new)>(g: Graph<V>, stack: seq<Frame<V>>, m: Marks<V>) {
    && StackInGraph(g, stack) && m.color.Keys <= Vertices(g)
    && (forall i :: 0 <= i < |stack| ==> stack[i].node in Vertices(g))
  }

  /** A frame for `v`, pushed on entering it. */
  ghost function Push<V(!new)>(g: Graph<V>, stack: seq<Frame<V>>, v: V): seq<Frame<V>> {
    stack + [Frame(v, Neighbours(g, v))]
  }

  ghost function Advance<V>(stack: seq<Frame<V>>): seq<Frame<V>>
    requires stack != [] && stack[|stack| - 1].rest != []
  {
    var top := stack[|stack| - 1];
    stack[..|stack| - 1] + [Frame(top.node, top.rest[1..])]
  }

  lemma AdvanceResumable<V(!new)>(g: Graph<V>, stack: seq<Frame<V>>, m: Marks<V>)
    requires Resumable(g, stack, m) && stack != [] && stack[|stack| - 1].rest != []
    ensures Resumable(g, Advance(stack), m)
    ensures Nodes(Advance(stack)) == Nodes(stack)
  {
    var top, s := stack[|stack| - 1], Advance(stack);
    forall i, x | 0 <= i < |s| && x in s[i].rest ensures x in Vertices(g) {
      assert x in stack[i].rest;
    }
    assert forall i :: 0 <= i < |s| ==> s[i].node == stack[i].node;
  }

  lemma PushResumable<V(!new)>(g: Graph<V>, stack: seq<Frame<V>>, m: Marks<V>, v: V)
    requires Resumable(g, stack, m) && v in Vertices(g)
    ensures Resumable(g, Push(g, stack, v), Enter(m, v))
    ensures Nodes(Push(g, stack, v)) == Nodes(stack) + [v]
  {
    NeighboursAreVertices(g, v);
  }

  /** Entering `v` from the top frame's iterator leaves the pending result unchanged. */
  lemma ResumePush<V(!new)>(g: Graph<V>, stack: seq<Frame<V>>, m: Marks<V>)
    requires Resumable(g, stack, m) && stack != [] && stack[|stack| - 1].rest != []
    requires stack[|stack| - 1].rest[0] !in m.color
    ensures var v := stack[|stack| - 1].rest[0]; var s := Push(g, Advance(stack), v);
      Resumable(g, s, Enter(m, v)) && Resume(g, s, Enter(m, v)) == Resume(g, stack, m)
  {
    var v := stack[|stack| - 1].rest[0];
    assert v in stack[|stack| - 1].rest;
    AdvanceResumable(g, stack, m);
    PushResumable(g, Advance(stack), m, v);
    NeighboursAreVertices(g, v);
    var s, path, rest := Push(g, Advance(stack), v), Nodes(stack), stack[|stack| - 1].rest;
    assert s[..|s| - 1] == Advance(stack);
    assert Advance(stack)[..|stack| - 1] == stack[..|stack| - 1];
    var inner := Scan(g, path + [v], Neighbours(g, v), Enter(m, v));
    if inner.Finished? {
      var n := Leave(inner.marks, v);
      assert Visit(g, v, path, m) == Finished(n);
      assert Scan(g, path, rest, m) == Scan(g, path, rest[1..], n);
      assert Resume(g, s, Enter(m, v)) == Resume(g, Advance(stack), n);
    } else {
      assert Visit(g, v, path, m) == inner;
      assert Scan(g, path, rest, m) == inner;
    }
  }

  lemma ResumeSkip<V(!new)>(g: Graph<V>, stack: seq<Frame<V>>, m: Marks<V>)
    requires Resumable(g, stack, m) && stack != [] && stack[|stack| - 1].rest != []
    requires var v := stack[|stack| - 1].rest[0]; v in m.color && m.color[v] == Black
    ensures Resumable(g, Advance(stack), m) && Resume(g, Advance(stack), m) == Resume(g, stack, m)
  {
    AdvanceResumable(g, stack, m);
    assert Advance(stack)[..|stack| - 1] == stack[..|stack| - 1];
  }

  // ------------------------------------------------------------ step count

  /** One step per vertex to pop its frame, one per edge to take it from the iterator. */
  ghost function Weight<V(!new)>(g: Graph<V>, vs: set<V>): nat {
    if vs == {} then 0
    else
      var v :| v in vs;
      1 + |Neighbours(g, v)| + Weight(g, vs - {v})
  }

  ghost function Edges<V(!new)>(g: Graph<V>, vs: set<V>): nat {
    if vs == {} then 0
    else
      var v :| v in vs;
      |Neighbours(g, v)| + Edges(g, vs - {v})
  }

  lemma {:induction false} EdgesTake<V(!new)>(g: Graph<V>, vs: set<V>, v: V)
    requires v in vs
    ensures Edges(g, vs) == |Neighbours(g, v)| + Edges(g, vs - {v})
  {
    var u :| u in vs && Edges(g, vs) == |Neighbours(g, u)| + Edges(g, vs - {u});
    if u != v {
      EdgesTake(g, vs - {u}, v);
      EdgesTake(g, vs - {v}, u);
      assert vs - {u} - {v} == vs - {v} - {u};
    }
  }

  lemma {:induction false} WeightTake<V(!new)>(g: Graph<V>, vs: set<V>, v: V)
    requires v in vs
    ensures Weight(g, vs) == 1 + |Neighbours(g, v)| + Weight(g, vs - {v})
  {
    var u :| u in vs && Weight(g, vs) == 1 + |Neighbours(g, u)| + Weight(g, vs - {u});
    if u != v {
      WeightTake(g, vs - {u}, v);
      WeightTake(g, vs - {v}, u);
      assert vs - {u} - {v} == vs - {v} - {u};
    }
  }

  lemma {:induction false} WeightIsSize<V(!new)>(g: Graph<V>, vs: set<V>)
    ensures Weight(g, vs) == |vs| + Edges(g, vs)
  {
    if vs != {} {
      var v :| v in vs;
      WeightTake(g, vs, v);
      EdgesTake(g, vs, v);
      WeightIsSize(g, vs - {v});
    }
  }

  ghost function StackWeight<V>(stack: seq<Frame<V>>): nat {
    if stack == [] then 0
    else 1 + |stack[|stack| - 1].rest| + StackWeight(stack[..|stack| - 1])
  }

  /** The work left: unvisited vertices with their edges, and the suspended frames. */
  ghost function Remaining<V(!new)>(g: Graph<V>, stack: seq<Frame<V>>, m: Marks<V>): nat {
    Weight(g, Unvisited(g, m)) + StackWeight(stack)
  }

  lemma RemainingAdvance<V(!new)>(g: Graph<V>, stack: seq<Frame<V>>, m: Marks<V>)
    requires stack != [] && stack[|stack| - 1].rest != []
    ensures Remaining(g, Advance(stack), m) == Remaining(g, stack, m) - 1
  {
    assert Advance(stack)[..|stack| - 1] == stack[..|stack| - 1];
  }

  lemma RemainingPush<V(!new)>(g: Graph<V>, stack: seq<Frame<V>>, m: Marks<V>, v: V)
    requires v in Unvisited(g, m)
    ensures Remaining(g, Push(g, stack, v), Enter(m, v)) == Remaining(g, stack, m)
  {
    var s := Push(g, stack, v);
    assert s[..|s| - 1] == stack;
    assert Unvisited(g, Enter(m, v)) == Unvisited(g, m) - {v};
    WeightTake(g, Unvisited(g, m), v);
  }

  lemma RemainingPop<V(!new)>(g: Graph<V>, stack: seq<Frame<V>>, m: Marks<V>)
    requires stack != [] && stack[|stack| - 1].rest == []
    requires stack[|stack| - 1].node in m.color
    ensures var top := stack[|stack| - 1];
      Remaining(g, stack[..|stack| - 1], Leave(m, top.node)) == Remaining(g, stack, m) - 1
  {
    assert Unvisited(g, Leave(m, stack[|stack| - 1].node)) == Unvisited(g, m);
  }

  // ---------------------------------------------------------- the search

  /** The loop invariant: what is still pending, and how much work it takes. */
  ghost predicate Pending<V(!new)>(g: Graph<V>, stack: seq<Frame<V>>, m: Marks<V>, goal: Outcome<V>, work: nat) {
    && Resumable(g, stack, m)
    && (forall j :: 0 <= j < |stack| ==> stack[j].node in m.color)
    && Resume(g, stack, m) == goal
    && Remaining(g, stack, m) == work
  }

  lemma PendingRoot<V(!new)>(g: Graph<V>, root: V, m: Marks<V>)
    requires root in Unvisited(g, m) && m.color.Keys <= Vertices(g)
    ensures Pending(g, Push(g, [], root), Enter(m, root), Visit(g, root, [], m), Remaining(g, [], m))
  {
    PushResumable(g, [], m, root);
    NeighboursAreVertices(g, root);
    assert Nodes(Push(g, [], root)) == [] + [root];
    RemainingPush(g, [], m, root);
  }

  lemma PendingPop<V(!new)>(g: Graph<V>, stack: seq<Frame<V>>, m: Marks<V>, goal: Outcome<V>, work: nat)
    requires Pending(g, stack, m, goal, work) && stack != [] && stack[|stack| - 1].rest == []
    ensures work > 0
    ensures Pending(g, stack[..|stack| - 1], Leave(m, stack[|stack| - 1].node), goal, work - 1)
  {
    RemainingPop(g, stack, m);
  }

  lemma PendingPush<V(!new)>(g: Graph<V>, stack: seq<Frame<V>>, m: Marks<V>, goal: Outcome<V>, work: nat)
    requires Pending(g, stack, m, goal, work) && stack != [] && stack[|stack| - 1].rest != []
    requires stack[|stack| - 1].rest[0] !in m.color
    ensures var v := stack[|stack| - 1].rest[0];
      work > 0 && Pending(g, Push(g, Advance(stack), v), Enter(m, v), goal, work - 1)
  {
    var v := stack[|stack| - 1].rest[0];
    assert v in stack[|stack| - 1].rest;
    ResumePush(g, stack, m);
    RemainingAdvance(g, stack, m);
    RemainingPush(g, Advance(stack), m, v);
  }

  lemma PendingSkip<V(!new)>(g: Graph<V>, stack: seq<Frame<V>>, m: Marks<V>, goal: Outcome<V>, work: nat)
    requires Pending(g, stack, m, goal, work) && stack != [] && stack[|stack| - 1].rest != []
    requires var v := stack[|stack| - 1].rest[0]; v in m.color && m.color[v] == Black
    ensures work > 0 && Pending(g, Advance(stack), m, goal, work - 1)
  {
    ResumeSkip(g, stack, m);
    RemainingAdvance(g, stack, m);
  }

  lemma PendingFound<V(!new)>(g: Graph<V>, stack: seq<Frame<V>>, m: Marks<V>, goal: Outcome<V>, work: nat)
    requires Pending(g, stack, m, goal, work) && stack != [] && stack[|stack| - 1].rest != []
    requires var v := stack[|stack| - 1].rest[0]; v in m.color && m.color[v] == Gray
    ensures work > 0
    ensures goal == Cycle(CloseCycle(Nodes(Advance(stack)), stack[|stack| - 1].rest[0]))
  {
    AdvanceResumable(g, stack, m);
    RemainingAdvance(g, stack, m);
  }

  ghost predicate SortsLists<V(!new)>(g: Graph<V>, adjacency: Graph<V>, leq: (V, V) -> bool) {
    forall v :: Neighbours(g, v) == SortBy(leq, Neighbours(adjacency, v))
  }

  lemma RootFrame<V(!new)>(g: Graph<V>, adjacency: Graph<V>, leq: (V, V) -> bool, root: V)
    requires SortsLists(g, adjacency, leq)
    ensures [Frame(root, SortBy(leq, Neighbours(adjacency, root)))] == Push(g, [], root)
  {
  }

  lemma PendingDone<V(!new)>(g: Graph<V>, m: Marks<V>, goal: Outcome<V>, work: nat)
    requires Pending(g, [], m, goal, work)
    ensures goal == Finished(m) && work == Remaining(g, [], m)
  {
  }

  /** One iteration of the inner loop: pop the top frame, or take its next neighbour. */
  method Step<V(==,!new)>(adjacency: Graph<V>, leq: (V, V) -> bool, stack: seq<Frame<V>>, color: map<V, Color>,
                          ghost g: Graph<V>, ghost order: seq<V>, ghost goal: Outcome<V>, ghost work: nat)
    returns (r: Option<seq<V>>, stack': seq<Frame<V>>, color': map<V, Color>, ghost order': seq<V>)
    requires SortsLists(g, adjacency, leq)
    requires Pending(g, stack, Marks(color, order), goal, work) && stack != []
    ensures work > 0
    ensures r.Some? ==> goal == Cycle(r.value)
    ensures r.None? ==> Pending(g, stack', Marks(color', order'), goal, work - 1)
  {
    ghost var m := Marks(color, order);
    var top := stack[|stack| - 1];
    r, stack', color', order' := None, stack[..|stack| - 1], color, order;
    if top.rest == [] {
      PendingPop(g, stack, m, goal, work);
      color', order' := color[top.node := Black], order + [top.node];
      return;
    }
    var neighbour := top.rest[0];
    stack' := stack' + [Frame(top.node, top.rest[1..])];
    if neighbour !in color {
      PendingPush(g, stack, m, goal, work);
      color' := color[neighbour := Gray];
      stack' := stack' + [Frame(neighbour, SortBy(leq, Neighbours(adjacency, neighbour)))];
    } else if color[neighbour] == Gray {
      PendingFound(g, stack, m, goal, work);
      r := Some(CloseCycle(Nodes(stack'), neighbour));
    } else {
      PendingSkip(g, stack, m, goal, work);
    }
  }

  /** The inner loop: drain the stack that starts at one unvisited root. */
  method SearchFrom<V(==,!new)>(adjacency: Graph<V>, leq: (V, V) -> bool, root: V, marked: map<V, Color>,
                                ghost g: Graph<V>, ghost finished: seq<V>)
    returns (r: Option<seq<V>>, color: map<V, Color>, ghost order: seq<V>, ghost steps: nat)
    requires SortsLists(g, adjacency, leq) && marked.Keys <= Vertices(g)
    requires root in Vertices(g) && root !in marked
    ensures r.Some? ==> Visit(g, root, [], Marks(marked, finished)) == Cycle(r.value)
    ensures r.None? ==> Visit(g, root, [], Marks(marked, finished)) == Finished(Marks(color, order))
    ensures steps <= Remaining(g, [], Marks(marked, finished))
    ensures r.None? ==>
      steps + Remaining(g, [], Marks(color, order)) == Remaining(g, [], Marks(marked, finished))
  {
    ghost var before := Marks(marked, finished);
    ghost var goal, work := Visit(g, root, [], before), Remaining(g, [], before);
    color, order, steps := marked[root := Gray], finished, 0;
    var stack := [Frame(root, SortBy(leq, Neighbours(adjacency, root)))];
    RootFrame(g, adjacency, leq, root);
    PendingRoot(g, root, before);
    while stack != []
      invariant Pending(g, stack, Marks(color, order), goal, work)
      invariant steps + work == Remaining(g, [], before)
      decreases work
    {
      r, stack, color, order := Step(adjacency, leq, stack, color, g, order, goal, work);
      steps, work := steps + 1, work - 1;
      if r.Some? {
        return;
      }
    }
    PendingDone(g, Marks(color, order), goal, work);
    r := None;
  }

  /** The outer loop: every root in order, skipping those already coloured. */
  method SearchAll<V(==,!new)>(adjacency: Graph<V>, leq: (V, V) -> bool, roots: seq<V>, ghost g: Graph<V>)
    returns (r: Option<seq<V>>, ghost m: Marks<V>, ghost steps: nat)
    requires SortsLists(g, adjacency, leq)
    requires forall x :: x in roots ==> x in Vertices(g)
    ensures r.Some? ==> SearchRoots(g, roots, Marks(map[], [])) == Cycle(r.value)
    ensures r.None? ==> SearchRoots(g, roots, Marks(map[], [])) == Finished(m)
    ensures steps <= Remaining(g, [], Marks(map[], []))
    ensures r.None? ==> steps + Remaining(g, [], m) == Remaining(g, [], Marks(map[], []))
  {
    var color: map<V, Color> := map[];
    m, steps := Marks(color, []), 0;
    for i := 0 to |roots|
      invariant color == m.color && color.Keys <= Vertices(g)
      invariant SearchRoots(g, roots[i..], m) == SearchRoots(g, roots, Marks(map[], []))
      invariant steps + Remaining(g, [], m) == Remaining(g, [], Marks(map[], []))
    {
      assert roots[i] in roots;
      assert roots[i..][0] == roots[i] && roots[i..][1..] == roots[i + 1..];
      if roots[i] in color {
        continue;
      }
      ghost var order, more;
      r, color, order, more := SearchFrom(adjacency, leq, roots[i], color, g, m.order);
      steps := steps + more;
      m := Marks(color, order);
      if r.Some? {
        return;
      }
    }
    assert roots[|roots|..] == [];
    r := None;
  }

  /**
   `first_cycle`. `keys` is the hash map's iteration order, whatever it is;
   `steps` counts the inner loop's iterations over all roots.
   */
  method FirstCycle<V(==,!new)>(adjacency: Graph<V>, keys: seq<V>, leq: (V, V) -> bool)
    returns (r: Option<seq<V>>, ghost order: seq<V>, ghost steps: nat)
    requires ListsKeys(adjacency, keys) && TotalOrder(leq)
    ensures r == RecursiveFirstCycle(adjacency, keys, leq)
    ensures r.Some? ==> SimpleCycle(adjacency, r.value) && PrescribedCycle(adjacency, leq, r.value)
    ensures r.None? ==> TopologicalOrder(adjacency, order)
    ensures r.None? <==> Acyclic(adjacency)
    ensures steps <= |Vertices(adjacency)| + Edges(adjacency, Vertices(adjacency))
    ensures r.None? ==> steps == |Vertices(adjacency)| + Edges(adjacency, Vertices(adjacency))
  {
    var roots := SortBy(leq, keys);
    SameElements(roots, keys);
    ghost var m;
    r, m, steps := SearchAll(adjacency, leq, roots, SortedGraph(adjacency, leq));
    order := m.order;
    RecursiveSearchCorrect(adjacency, keys, leq);
    TotalWork(adjacency, leq);
    if r.None? {
      FinishedUnvisited(adjacency, keys, leq);
    } else {
      RecursiveChoice(adjacency, keys, leq);
    }
  }

  lemma TotalWork<V(!new)>(g: Graph<V>, leq: (V, V) -> bool)
    ensures Remaining(SortedGraph(g, leq), [], Marks(map[], [])) == |Vertices(g)| + Edges(g, Vertices(g))
  {
    var s := SortedGraph(g, leq);
    SortedGraphShape(g, leq);
    SameShapeVertices(s, g);
    EdgesSame(s, g, Vertices(g));
    WeightIsSize(s, Vertices(s));
    assert Unvisited(s, Marks(map[], [])) == Vertices(s);
  }

  /** A search that finds nothing has visited every vertex. */
  lemma FinishedUnvisited<V(!new)>(g: Graph<V>, keys: seq<V>, leq: (V, V) -> bool)
    requires ListsKeys(g, keys) && RecursiveSearch(g, keys, leq).Finished?
    ensures Remaining(SortedGraph(g, leq), [], RecursiveSearch(g, keys, leq).marks) == 0
  {
    var s, start: Marks<V> := SortedGraph(g, leq), Marks(map[], []);
    SortedGraphShape(g, leq);
    SameElements(SortBy(leq, keys), keys);
    SearchRootsCorrect(s, SortBy(leq, keys), start);
    var m := RecursiveSearch(g, keys, leq).marks;
    SettledCoversAll(s, m);
    assert Unvisited(s, m) == {};
  }

  lemma {:induction false} EdgesSame<V(!new)>(g: Graph<V>, h: Graph<V>, vs: set<V>)
    requires forall v :: |Neighbours(g, v)| == |Neighbours(h, v)|
    ensures Edges(g, vs) == Edges(h, vs)
  {
    if vs != {} {
      var v :| v in vs;
      EdgesTake(g, vs, v);
      EdgesTake(h, vs, v);
      EdgesSame(g, h, vs - {v});
    }
  }
}
