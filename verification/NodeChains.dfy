/**
 Node-level proxy chains: a chain's shape, splicing a proposed chain into the
 stored graph, and the verdict of the cycle search on the result.
 */
module NodeChains {
  import opened Wrappers
  import opened Sorting
  import opened CycleSearch
  import opened StackSearch
  import opened SearchOrder

  /** A ULID, compared as a 128-bit number. */
  type NodeId = nat

  predicate IdLeq(a: NodeId, b: NodeId) {
    a <= b
  }

  datatype NodeChainError =
    | Empty
    | SelfReference
    | Duplicate(id: NodeId)
    | NodeNotFound(ids: seq<NodeId>)
    | CycleDetected(nodes: seq<NodeId>)

  datatype NodeChainEntry = NodeChainEntry(nodeId: NodeId, chain: seq<NodeId>)

  /** A row handed to `from_chains`: a vertex and its chain, if it has one. */
  datatype ChainRow = ChainRow(nodeId: NodeId, chain: Option<seq<NodeId>>)

  // ------------------------------------------------------------ chain shape

  ghost predicate WellShaped(nodes: seq<NodeId>, selfId: NodeId) {
    nodes != [] && selfId !in nodes && Distinct(nodes)
  }

  /** The element at `k` is the first to repeat an earlier one. */
  ghost predicate FirstRepeat(nodes: seq<NodeId>, k: int) {
    0 <= k < |nodes| && Distinct(nodes[..k]) && nodes[k] in nodes[..k]
  }

  /** `NodeChain::validate_structure`. */
  method ValidateStructure(nodes: seq<NodeId>, selfId: NodeId) returns (r: Result<(), NodeChainError>)
    ensures r.Ok? <==> WellShaped(nodes, selfId)
    ensures r == Err(Empty) <==> nodes == []
    ensures r == Err(SelfReference) <==> nodes != [] && selfId in nodes
    ensures r.Err? ==> r.error.Empty? || r.error.SelfReference? || r.error.Duplicate?
    ensures r.Err? && r.error.Duplicate? ==> exists k :: FirstRepeat(nodes, k) && nodes[k] == r.error.id
  {
    if nodes == [] {
      return Err(Empty);
    }
    if selfId in nodes {
      return Err(SelfReference);
    }
    var seen: set<NodeId> := {};
    for i := 0 to |nodes|
      invariant Distinct(nodes[..i])
      invariant seen == set x | x in nodes[..i]
    {
      if nodes[i] in seen {
        assert FirstRepeat(nodes, i);
        assert nodes[i] in nodes[..i];
        return Err(Duplicate(nodes[i]));
      }
      seen := seen + {nodes[i]};
      assert nodes[..i + 1] == nodes[..i] + [nodes[i]];
    }
    assert nodes[..|nodes|] == nodes;
    r := Ok(());
  }

  // ------------------------------------------------------- building a graph

  /** The adjacency map of a list of rows; rows of one node are appended. */
  function ChainGraph(rows: seq<ChainRow>): Graph<NodeId> {
    if rows == [] then map[]
    else
      var g, row := ChainGraph(rows[..|rows| - 1]), rows[|rows| - 1];
      g[row.nodeId := Neighbours(g, row.nodeId) + if row.chain.Some? then row.chain.value else []]
  }

  /** `NodeChainGraph::from_chains`. */
  method FromChains(rows: seq<ChainRow>) returns (g: Graph<NodeId>)
    ensures g == ChainGraph(rows)
  {
    g := map[];
    for i := 0 to |rows|
      invariant g == ChainGraph(rows[..i])
    {
      assert rows[..i + 1][..i] == rows[..i];
      var row := rows[i];
      var entry := if row.nodeId in g then g[row.nodeId] else [];
      assert entry + [] == entry;
      if row.chain.Some? {
        entry := entry + row.chain.value;
      }
      g := g[row.nodeId := entry];
    }
    assert rows[..|rows|] == rows;
  }

  ghost predicate RowEdge(row: ChainRow, u: NodeId, v: NodeId) {
    row.nodeId == u && row.chain.Some? && v in row.chain.value
  }

  /** The independent reading of `from_chains`: an edge is a chain member of some row. */
  lemma {:induction false} ChainGraphEdges(rows: seq<ChainRow>, u: NodeId, v: NodeId)
    ensures Edge(ChainGraph(rows), u, v) <==> exists i :: 0 <= i < |rows| && RowEdge(rows[i], u, v)
  {
    if rows != [] {
      var front, n := rows[..|rows| - 1], |rows| - 1;
      ChainGraphEdges(front, u, v);
      if i :| 0 <= i < |front| && RowEdge(front[i], u, v) {
        assert RowEdge(rows[i], u, v);
      }
      if Edge(ChainGraph(rows), u, v) && !Edge(ChainGraph(front), u, v) {
        assert RowEdge(rows[n], u, v);
      }
      if i :| 0 <= i < |rows| && RowEdge(rows[i], u, v) {
        assert i < n ==> RowEdge(front[i], u, v);
      }
    }
  }

  // --------------------------------------------------------- cycle verdicts

  ghost function SomeListing(ids: set<NodeId>): (s: seq<NodeId>)
    ensures Distinct(s) && (forall x :: x in s <==> x in ids)
  {
    if ids == {} then []
    else
      var x :| x in ids;
      SomeListing(ids - {x}) + [x]
  }

  /** The verdict as a function of the graph alone: see `DetectCycle`. */
  ghost function DetectedCycle(g: Graph<NodeId>): Option<seq<NodeId>> {
    RecursiveFirstCycle(g, SomeListing(g.Keys), IdLeq)
  }

  /** The step of a walk at `i` goes to the lowest next id that leads into a cycle. */
  ghost predicate LowestAt(g: Graph<NodeId>, q: seq<NodeId>, i: int) {
    && 0 <= i < |q| - 1 && Edge(g, q[i], q[i + 1]) && Loops(g, q[i + 1])
    && forall y :: Edge(g, q[i], y) && Loops(g, y) ==> q[i + 1] <= y
  }

  /** It starts at the lowest id that leads into a cycle and stops when an id comes back. */
  ghost predicate LowestLasso(g: Graph<NodeId>, q: seq<NodeId>, k: nat) {
    && Lasso(q, k) && Loops(g, q[0]) && (forall y :: Loops(g, y) ==> q[0] <= y)
    && forall i :: 0 <= i < |q| - 1 ==> LowestAt(g, q, i)
  }

  ghost predicate LowestCycle(g: Graph<NodeId>, c: seq<NodeId>) {
    exists q, k: nat :: LowestLasso(g, q, k) && c == q[k..]
  }

  lemma PrescribedIsLowest(g: Graph<NodeId>, c: seq<NodeId>)
    requires PrescribedCycle(g, IdLeq, c)
    ensures LowestCycle(g, c)
  {
    var q, k: nat :| GuidedLasso(g, IdLeq, q, k) && c == q[k..];
    forall i | 0 <= i < |q| - 1 ensures LowestAt(g, q, i) {
      assert GuidedAt(g, IdLeq, q, i);
    }
    assert LowestLasso(g, q, k);
  }

  lemma DetectedCycleMeaning(g: Graph<NodeId>)
    ensures DetectedCycle(g).None? <==> Acyclic(g)
    ensures DetectedCycle(g).Some? ==> SimpleCycle(g, DetectedCycle(g).value) && LowestCycle(g, DetectedCycle(g).value)
  {
    RecursiveSearchCorrect(g, SomeListing(g.Keys), IdLeq);
    if DetectedCycle(g).Some? {
      RecursiveChoice(g, SomeListing(g.Keys), IdLeq);
      PrescribedIsLowest(g, DetectedCycle(g).value);
    }
  }

  /** `NodeChainGraph::detect_cycle`: the map may be iterated in any order. */
  method DetectCycle(g: Graph<NodeId>) returns (r: Option<seq<NodeId>>)
    ensures r == DetectedCycle(g)
    ensures r.None? <==> Acyclic(g)
    ensures r.Some? ==> SimpleCycle(g, r.value) && LowestCycle(g, r.value)
  {
    var left, keys := g.Keys, [];
    while left != {}
      invariant Distinct(keys)
      invariant forall x :: x in g <==> x in keys || x in left
      invariant forall x :: x in keys ==> x !in left
      decreases left
    {
      var x :| x in left;
      left, keys := left - {x}, keys + [x];
    }
    ghost var order, steps;
    r, order, steps := FirstCycle(g, keys, IdLeq);
    FirstCycleDependsOnEdgesOnly(g, keys, g, SomeListing(g.Keys), IdLeq);
    DetectedCycleMeaning(g);
  }

  function EntryRow(e: NodeChainEntry): ChainRow {
    ChainRow(e.nodeId, Some(e.chain))
  }

  function Rows(existing: seq<NodeChainEntry>): (rows: seq<ChainRow>)
    ensures |rows| == |existing|
    ensures forall i :: 0 <= i < |rows| ==> rows[i] == EntryRow(existing[i])
  {
    seq(|existing|, i requires 0 <= i < |existing| => EntryRow(existing[i]))
  }

  /** The first entry of `id` gets the new chain; without one it is added. */
  function Splice(existing: seq<NodeChainEntry>, id: NodeId, chain: seq<NodeId>): seq<NodeChainEntry> {
    if existing == [] then [NodeChainEntry(id, chain)]
    else if existing[0].nodeId == id then [NodeChainEntry(id, chain)] + existing[1..]
    else [existing[0]] + Splice(existing[1..], id, chain)
  }

  ghost function Stored(existing: seq<NodeChainEntry>): Graph<NodeId> {
    ChainGraph(Rows(existing))
  }

  ghost function Spliced(existing: seq<NodeChainEntry>, id: NodeId, chain: seq<NodeId>): Graph<NodeId> {
    ChainGraph(Rows(Splice(existing, id, chain)))
  }

  lemma {:induction false} SpliceAt(existing: seq<NodeChainEntry>, id: NodeId, chain: seq<NodeId>, i: nat)
    requires i <= |existing|
    requires forall j :: 0 <= j < i ==> existing[j].nodeId != id
    requires i < |existing| ==> existing[i].nodeId == id
    ensures Splice(existing, id, chain)
         == existing[..i] + [NodeChainEntry(id, chain)] + existing[if i < |existing| then i + 1 else i..]
  {
    if i > 0 {
      SpliceAt(existing[1..], id, chain, i - 1);
      assert existing[..i] == [existing[0]] + existing[1..][..i - 1];
    }
  }

  /** `NodeChainGraph::validate_update`. */
  method ValidateUpdate(existing: seq<NodeChainEntry>, id: NodeId, chain: seq<NodeId>)
    returns (r: Option<seq<NodeId>>)
    ensures r == DetectedCycle(Spliced(existing, id, chain))
  {
    var rows := Rows(existing);
    var i := 0;
    while i < |rows| && rows[i].nodeId != id
      invariant 0 <= i <= |rows|
      invariant forall j :: 0 <= j < i ==> existing[j].nodeId != id
    {
      i := i + 1;
    }
    if i < |rows| {
      rows := rows[i := ChainRow(id, Some(chain))];
    } else {
      rows := rows + [ChainRow(id, Some(chain))];
    }
    SpliceAt(existing, id, chain, i);
    assert rows == Rows(Splice(existing, id, chain));
    var g := FromChains(rows);
    r := DetectCycle(g);
  }

  ghost predicate OneEntryPerNode(existing: seq<NodeChainEntry>) {
    forall i, j :: 0 <= i < j < |existing| ==> existing[i].nodeId != existing[j].nodeId
  }

  ghost predicate EntryEdge(e: NodeChainEntry, u: NodeId, v: NodeId) {
    e.nodeId == u && v in e.chain
  }

  lemma StoredEdges(existing: seq<NodeChainEntry>, u: NodeId, v: NodeId)
    ensures Edge(Stored(existing), u, v) <==> exists i :: 0 <= i < |existing| && EntryEdge(existing[i], u, v)
  {
    var rows := Rows(existing);
    ChainGraphEdges(rows, u, v);
    if i :| 0 <= i < |rows| && RowEdge(rows[i], u, v) {
      assert EntryEdge(existing[i], u, v);
    }
    if i :| 0 <= i < |existing| && EntryEdge(existing[i], u, v) {
      assert RowEdge(rows[i], u, v);
    }
  }

  lemma {:induction false} SpliceElsewhere(existing: seq<NodeChainEntry>, id: NodeId, chain: seq<NodeId>,
                                           u: NodeId, v: NodeId)
    requires u != id
    ensures var after := Splice(existing, id, chain);
      (exists i :: 0 <= i < |existing| && EntryEdge(existing[i], u, v))
      <==> (exists i :: 0 <= i < |after| && EntryEdge(after[i], u, v))
  {
    var k := PositionOf(existing, id);
    SpliceAt(existing, id, chain, k);
    var after := Splice(existing, id, chain);
    if i :| 0 <= i < |existing| && EntryEdge(existing[i], u, v) {
      assert EntryEdge(after[i], u, v);
    }
    if i :| 0 <= i < |after| && EntryEdge(after[i], u, v) {
      assert EntryEdge(existing[i], u, v);
    }
  }

  ghost function PositionOf(existing: seq<NodeChainEntry>, id: NodeId): (k: nat)
    ensures k <= |existing|
    ensures forall j :: 0 <= j < k ==> existing[j].nodeId != id
    ensures k < |existing| ==> existing[k].nodeId == id
  {
    if existing == [] || existing[0].nodeId == id then 0
    else 1 + PositionOf(existing[1..], id)
  }

  /** Splicing touches only the updated node's outgoing edges, which become the new chain. */
  lemma SplicedEdges(existing: seq<NodeChainEntry>, id: NodeId, chain: seq<NodeId>, u: NodeId, v: NodeId)
    ensures u != id ==> (Edge(Spliced(existing, id, chain), u, v) <==> Edge(Stored(existing), u, v))
    ensures v in chain ==> Edge(Spliced(existing, id, chain), id, v)
    ensures OneEntryPerNode(existing) ==> (Edge(Spliced(existing, id, chain), id, v) <==> v in chain)
  {
    if u != id {
      StoredEdges(existing, u, v);
      StoredEdges(Splice(existing, id, chain), u, v);
      SpliceElsewhere(existing, id, chain, u, v);
    }
    SplicedOwnEdges(existing, id, chain, v);
  }

  lemma SplicedOwnEdges(existing: seq<NodeChainEntry>, id: NodeId, chain: seq<NodeId>, v: NodeId)
    ensures v in chain ==> Edge(Spliced(existing, id, chain), id, v)
    ensures OneEntryPerNode(existing) ==> (Edge(Spliced(existing, id, chain), id, v) <==> v in chain)
  {
    var after := Splice(existing, id, chain);
    StoredEdges(after, id, v);
    var k := PositionOf(existing, id);
    SpliceAt(existing, id, chain, k);
    if v in chain {
      assert EntryEdge(after[k], id, v);
    }
    if OneEntryPerNode(existing) {
      forall i | 0 <= i < |after| && i != k ensures !EntryEdge(after[i], id, v) {
        assert after[i] == existing[i];
      }
    }
  }

  lemma WalkAvoiding(g: Graph<NodeId>, h: Graph<NodeId>, id: NodeId, p: seq<NodeId>)
    requires Walk(g, p) && id !in p[..if |p| > 0 then |p| - 1 else 0]
    requires forall u, v :: u != id && Edge(g, u, v) ==> Edge(h, u, v)
    ensures Walk(h, p)
  {
    forall i | 0 <= i < |p| - 1 ensures Edge(h, p[i], p[i + 1]) {
      assert p[i] in p[..|p| - 1];
      assert Edge(g, p[i], p[i + 1]);
    }
  }

  /** If only the update can have made a cycle, every reported cycle runs through the updated node. */
  lemma RejectionBlamesUpdate(existing: seq<NodeChainEntry>, id: NodeId, chain: seq<NodeId>)
    requires Acyclic(Stored(existing)) && DetectedCycle(Spliced(existing, id, chain)).Some?
    ensures id in DetectedCycle(Spliced(existing, id, chain)).value
  {
    var g, h := Spliced(existing, id, chain), Stored(existing);
    DetectedCycleMeaning(g);
    var c := DetectedCycle(g).value;
    if id !in c {
      forall u, v | u != id && Edge(g, u, v) ensures Edge(h, u, v) {
        SplicedEdges(existing, id, chain, u, v);
      }
      OldCycle(g, h, id, c);
    }
  }

  lemma OldCycle(g: Graph<NodeId>, h: Graph<NodeId>, id: NodeId, c: seq<NodeId>)
    requires ClosedWalk(g, c) && id !in c
    requires forall u, v :: u != id && Edge(g, u, v) ==> Edge(h, u, v)
    ensures ClosedWalk(h, c)
  {
    WalkAvoiding(g, h, id, c);
  }

  // ----------------------------------------- acceptance, by reachability

  /** `p` leads from `x` to `y`; a single vertex leads to itself. */
  ghost predicate PathFromTo(g: Graph<NodeId>, p: seq<NodeId>, x: NodeId, y: NodeId) {
    p != [] && p[0] == x && p[|p| - 1] == y && Walk(g, p)
  }

  ghost predicate Reaches(g: Graph<NodeId>, x: NodeId, y: NodeId) {
    exists p :: PathFromTo(g, p, x, y)
  }

  /** A closed walk read from one of its own vertices. */
  lemma Rotated(g: Graph<NodeId>, c: seq<NodeId>, k: nat)
    requires SimpleCycle(g, c) && k < |c| - 1
    ensures var d := c[k..] + c[1..k + 1];
      ClosedWalk(g, d) && d[0] == c[k] && c[k] !in d[1..|d| - 1]
  {
    var d: seq<NodeId> := c[k..] + c[1..k + 1];
    var n := |c| - 1;
    assert forall i :: 0 <= i <= n ==> d[i] == if i <= n - k then c[k + i] else c[k + i - n];
    forall i | 0 <= i < |d| - 1 ensures Edge(g, d[i], d[i + 1]) {
      assert Edge(g, c[if i < n - k then k + i else k + i - n], c[if i < n - k then k + i + 1 else k + i - n + 1]);
    }
    forall i | 1 <= i < n ensures d[i] != c[k] {
      var j := if i < n - k then k + i else k + i - n;
      assert d[i] == c[j] && j != k;
      assert c[..n][j] != c[..n][k];
    }
  }

  lemma PrefixTo(g: Graph<NodeId>, p: seq<NodeId>, x: NodeId, id: NodeId) returns (q: seq<NodeId>)
    requires PathFromTo(g, p, x, id)
    ensures PathFromTo(g, q, x, id) && id !in q[..|q| - 1]
  {
    var k := 0;
    while p[k] != id
      invariant 0 <= k < |p| && id !in p[..k]
      decreases |p| - k
    {
      k := k + 1;
    }
    q := p[..k + 1];
    assert q[..|q| - 1] == p[..k];
    forall i | 0 <= i < |q| - 1 ensures Edge(g, q[i], q[i + 1]) {
      assert Edge(g, p[i], p[i + 1]);
    }
  }

  /** The verdict in terms of the stored graph: accepted exactly when no chain member leads back. */
  lemma AcceptedExactlyWhen(existing: seq<NodeChainEntry>, id: NodeId, chain: seq<NodeId>)
    requires OneEntryPerNode(existing) && Acyclic(Stored(existing))
    ensures DetectedCycle(Spliced(existing, id, chain)).None?
       <==> forall x :: x in chain ==> !Reaches(Stored(existing), x, id)
  {
    var g, h := Spliced(existing, id, chain), Stored(existing);
    DetectedCycleMeaning(g);
    forall u, v | u != id ensures Edge(g, u, v) <==> Edge(h, u, v) {
      SplicedEdges(existing, id, chain, u, v);
    }
    if DetectedCycle(g).Some? {
      RejectionBlamesUpdate(existing, id, chain);
      var x := ReachesBack(g, h, id, DetectedCycle(g).value);
      SplicedEdges(existing, id, chain, id, x);
    } else {
      forall x | x in chain ensures !Reaches(h, x, id) {
        SplicedEdges(existing, id, chain, id, x);
        if Reaches(h, x, id) {
          ClosesCycle(g, h, id, x);
        }
      }
    }
  }

  lemma ClosesCycle(g: Graph<NodeId>, h: Graph<NodeId>, id: NodeId, x: NodeId)
    requires Edge(g, id, x) && Reaches(h, x, id)
    requires forall u, v :: u != id && Edge(h, u, v) ==> Edge(g, u, v)
    ensures !Acyclic(g)
  {
    var p :| PathFromTo(h, p, x, id);
    var q := PrefixTo(h, p, x, id);
    WalkAvoiding(h, g, id, q);
    var c := [id] + q;
    forall i | 0 <= i < |c| - 1 ensures Edge(g, c[i], c[i + 1]) {
      if i > 0 {
        assert Edge(g, q[i - 1], q[i]);
      }
    }
    assert ClosedWalk(g, c);
  }

  lemma ReachesBack(g: Graph<NodeId>, h: Graph<NodeId>, id: NodeId, c: seq<NodeId>) returns (x: NodeId)
    requires SimpleCycle(g, c) && id in c
    requires forall u, v :: u != id && Edge(g, u, v) ==> Edge(h, u, v)
    ensures Edge(g, id, x) && Reaches(h, x, id)
  {
    var k :| 0 <= k < |c| && c[k] == id;
    if k == |c| - 1 {
      k := 0;
    }
    Rotated(g, c, k);
    var d: seq<NodeId> := c[k..] + c[1..k + 1];
    x := d[1];
    assert Edge(g, d[0], d[1]);
    var p: seq<NodeId> := d[1..];
    forall i | 0 <= i < |p| - 1 ensures Edge(g, p[i], p[i + 1]) {
      assert Edge(g, d[i + 1], d[i + 2]);
    }
    assert p[..|p| - 1] == d[1..|d| - 1];
    assert p[|p| - 1] == d[|d| - 1] == id;
    WalkAvoiding(g, h, id, p);
    ByPath(h, p, x, id);
  }

  lemma ByPath(g: Graph<NodeId>, p: seq<NodeId>, x: NodeId, y: NodeId)
    requires PathFromTo(g, p, x, y)
    ensures Reaches(g, x, y)
  {
  }
}
