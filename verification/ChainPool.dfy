/**
 The pool's stored chains. Every write goes through one checked transaction, so
 each reachable pool has an acyclic chain graph of well-shaped chains.
 */
module ChainPool {
  import opened Wrappers
  import opened CycleSearch
  import opened SearchOrder
  import opened NodeChains

  /** The node rows, and the chains of those whose chain column is not null. */
  datatype Pool = Pool(nodes: set<NodeId>, chains: map<NodeId, seq<NodeId>>)

  datatype StoreError = TargetNotFound(id: NodeId) | BadChain(error: NodeChainError)

  ghost predicate GoodPool(p: Pool) {
    && p.chains.Keys <= p.nodes
    && (forall id :: id in p.chains ==> WellShaped(p.chains[id], id))
    && (forall id, x :: id in p.chains && x in p.chains[id] ==> x in p.nodes)
    && Acyclic(p.chains)
  }

  ghost predicate StructureFault(ids: seq<NodeId>, id: NodeId, e: NodeChainError) {
    match e
    case Empty => ids == []
    case SelfReference => ids != [] && id in ids
    case Duplicate(d) => id !in ids && exists k :: FirstRepeat(ids, k) && ids[k] == d
    case _ => false
  }

  ghost predicate FirstMissing(nodes: set<NodeId>, ids: seq<NodeId>, x: NodeId) {
    exists k :: 0 <= k < |ids| && ids[k] == x && x !in nodes && (forall j :: 0 <= j < k ==> ids[j] in nodes)
  }

  /** One checked chain write: the checks in order, and no change unless all pass. */
  ghost predicate ChainStep(p: Pool, id: NodeId, chain: Option<seq<NodeId>>, q: Pool, r: Result<(), StoreError>) {
    if id !in p.nodes then
      r == Err(TargetNotFound(id)) && q == p
    else if chain.None? then
      r == Ok(()) && q == p.(chains := p.chains - {id})
    else if !WellShaped(chain.value, id) then
      r.Err? && r.error.BadChain? && StructureFault(chain.value, id, r.error.error) && q == p
    else if exists x :: x in chain.value && x !in p.nodes then
      q == p && exists x :: FirstMissing(p.nodes, chain.value, x) && r == Err(BadChain(NodeNotFound([x])))
    else
      match DetectedCycle(p.chains[id := chain.value])
      case Some(c) => r == Err(BadChain(CycleDetected(c))) && q == p
      case None => r == Ok(()) && q == p.(chains := p.chains[id := chain.value])
  }

  ghost predicate Next(p: Pool, q: Pool) {
    || (exists id :: id !in p.nodes && q == p.(nodes := p.nodes + {id}))
    || (exists id, chain, r :: ChainStep(p, id, chain, q, r))
  }

  lemma ClearKeeps(p: Pool, id: NodeId)
    requires GoodPool(p)
    ensures GoodPool(p.(chains := p.chains - {id}))
  {
    var g := p.chains - {id};
    forall u, v | Edge(g, u, v) ensures Edge(p.chains, u, v) {
    }
    AcyclicShrinks(g, p.chains);
  }

  lemma UpdateKeeps(p: Pool, id: NodeId, chain: seq<NodeId>)
    requires GoodPool(p) && id in p.nodes && WellShaped(chain, id)
    requires forall x :: x in chain ==> x in p.nodes
    requires DetectedCycle(p.chains[id := chain]).None?
    ensures GoodPool(p.(chains := p.chains[id := chain]))
  {
    UpdateIsAcyclic(p.chains[id := chain]);
  }

  lemma UpdateIsAcyclic(g: Graph<NodeId>)
    requires DetectedCycle(g).None?
    ensures Acyclic(g)
  {
    DetectedCycleMeaning(g);
  }

  lemma ChainStepKeeps(p: Pool, id: NodeId, chain: Option<seq<NodeId>>, q: Pool, r: Result<(), StoreError>)
    requires GoodPool(p) && ChainStep(p, id, chain, q, r)
    ensures GoodPool(q)
  {
    if q != p {
      if chain.None? {
        ClearKeeps(p, id);
      } else {
        UpdateKeeps(p, id, chain.value);
      }
    }
  }

  lemma NextKeeps(p: Pool, q: Pool)
    requires GoodPool(p) && Next(p, q)
    ensures GoodPool(q)
  {
    if id, chain, r :| ChainStep(p, id, chain, q, r) {
      ChainStepKeeps(p, id, chain, q, r);
    }
  }

  ghost predicate StepAt(ps: seq<Pool>, i: int) {
    0 <= i < |ps| - 1 && Next(ps[i], ps[i + 1])
  }

  ghost predicate Run(ps: seq<Pool>) {
    && ps != [] && ps[0] == Pool({}, map[])
    && (forall i :: 0 <= i < |ps| - 1 ==> StepAt(ps, i))
  }

  lemma EmptyIsGood()
    ensures GoodPool(Pool({}, map[]))
  {
    var none: Graph<NodeId> := map[];
    forall p ensures !ClosedWalk(none, p) {
      if |p| >= 2 {
        assert !Edge(none, p[0], p[1]);
      }
    }
  }

  /** Safety over whole runs of inserts, clears, accepted updates and rejected updates. */
  lemma {:induction false} EveryRunStaysGood(ps: seq<Pool>, i: nat)
    requires Run(ps) && i < |ps|
    ensures GoodPool(ps[i])
  {
    if i == 0 {
      EmptyIsGood();
    } else {
      EveryRunStaysGood(ps, i - 1);
      assert StepAt(ps, i - 1);
      NextKeeps(ps[i - 1], ps[i]);
    }
  }

  ghost predicate Lists(entries: seq<NodeChainEntry>, id: NodeId) {
    exists i :: 0 <= i < |entries| && entries[i].nodeId == id
  }

  /** The rows of one read of the chain column, in whatever order they come. */
  ghost predicate ReadsChains(entries: seq<NodeChainEntry>, chains: map<NodeId, seq<NodeId>>) {
    && OneEntryPerNode(entries)
    && (forall i :: 0 <= i < |entries| ==>
          entries[i].nodeId in chains && chains[entries[i].nodeId] == entries[i].chain)
    && (forall id :: id in chains ==> Lists(entries, id))
  }

  lemma ReadEdges(entries: seq<NodeChainEntry>, chains: map<NodeId, seq<NodeId>>, u: NodeId, v: NodeId)
    requires ReadsChains(entries, chains)
    ensures Edge(Stored(entries), u, v) <==> Edge(chains, u, v)
  {
    StoredEdges(entries, u, v);
    if Edge(chains, u, v) {
      assert Lists(entries, u);
      var i :| 0 <= i < |entries| && entries[i].nodeId == u;
      assert EntryEdge(entries[i], u, v);
    }
  }

  /** The verdict on the rows read is the verdict on the stored map with one chain replaced. */
  lemma SplicedIsUpdate(entries: seq<NodeChainEntry>, chains: map<NodeId, seq<NodeId>>,
                        id: NodeId, chain: seq<NodeId>)
    requires ReadsChains(entries, chains)
    ensures DetectedCycle(Spliced(entries, id, chain)) == DetectedCycle(chains[id := chain])
  {
    var g, h := Spliced(entries, id, chain), chains[id := chain];
    forall u, v ensures Edge(g, u, v) <==> Edge(h, u, v) {
      SplicedEdges(entries, id, chain, u, v);
      ReadEdges(entries, chains, u, v);
    }
    FirstCycleDependsOnEdgesOnly(g, SomeListing(g.Keys), h, SomeListing(h.Keys), IdLeq);
  }

  lemma SomeRead(chains: map<NodeId, seq<NodeId>>) returns (entries: seq<NodeChainEntry>)
    ensures ReadsChains(entries, chains)
  {
    var keys := SomeListing(chains.Keys);
    entries := seq(|keys|, i requires 0 <= i < |keys| => NodeChainEntry(keys[i], chains[keys[i]]));
    forall id | id in chains ensures Lists(entries, id) {
      var i :| 0 <= i < |keys| && keys[i] == id;
      assert entries[i].nodeId == id;
    }
  }

  lemma VerdictInGoodPool(p: Pool, id: NodeId, chain: seq<NodeId>)
    requires GoodPool(p)
    ensures DetectedCycle(p.chains[id := chain]).None? <==> forall x :: x in chain ==> !Reaches(p.chains, x, id)
    ensures DetectedCycle(p.chains[id := chain]).Some? ==> id in DetectedCycle(p.chains[id := chain]).value
  {
    var entries := SomeRead(p.chains);
    var h := Stored(entries);
    forall u, v ensures Edge(h, u, v) <==> Edge(p.chains, u, v) {
      ReadEdges(entries, p.chains, u, v);
    }
    AcyclicShrinks(h, p.chains);
    AcceptedExactlyWhen(entries, id, chain);
    SplicedIsUpdate(entries, p.chains, id, chain);
    forall x ensures Reaches(h, x, id) <==> Reaches(p.chains, x, id) {
      SameReach(h, p.chains, x, id);
      SameReach(p.chains, h, x, id);
    }
    if DetectedCycle(p.chains[id := chain]).Some? {
      RejectionBlamesUpdate(entries, id, chain);
    }
  }

  /**
   In a good pool a chain is stored exactly when it is well shaped, names existing
   nodes and none of them leads back; a cycle error names the updated node and reports
   the one prescribed cycle.
   */
  lemma StoredExactlyWhen(p: Pool, id: NodeId, chain: seq<NodeId>, q: Pool, r: Result<(), StoreError>)
    requires GoodPool(p) && ChainStep(p, id, Some(chain), q, r)
    ensures r.Ok? <==>
      && id in p.nodes && WellShaped(chain, id)
      && (forall x :: x in chain ==> x in p.nodes && !Reaches(p.chains, x, id))
    ensures r.Ok? ==> q == p.(chains := p.chains[id := chain])
    ensures r.Err? ==> q == p
    ensures r.Err? && r.error.BadChain? && r.error.error.CycleDetected? ==>
      id in r.error.error.nodes && LowestCycle(p.chains[id := chain], r.error.error.nodes)
  {
    VerdictInGoodPool(p, id, chain);
    DetectedCycleMeaning(p.chains[id := chain]);
  }

  /** Which error an update gets, in the order of the checks. */
  lemma RefusedBecause(p: Pool, id: NodeId, chain: seq<NodeId>, q: Pool, e: StoreError)
    requires GoodPool(p) && ChainStep(p, id, Some(chain), q, Err(e))
    ensures e == TargetNotFound(id) <==> id !in p.nodes
    ensures e == BadChain(Empty) <==> id in p.nodes && chain == []
    ensures e == BadChain(SelfReference) <==> id in p.nodes && chain != [] && id in chain
    ensures e.BadChain? && e.error.Duplicate? <==> id in p.nodes && id !in chain && !Distinct(chain)
    ensures e.BadChain? && e.error.NodeNotFound? <==>
      id in p.nodes && id !in chain && Distinct(chain) && exists x :: x in chain && x !in p.nodes
    ensures e.BadChain? && e.error.NodeNotFound? ==> exists x :: e.error.ids == [x] && FirstMissing(p.nodes, chain, x)
  {
    if e.BadChain? && e.error.Duplicate? {
      var k :| FirstRepeat(chain, k) && chain[k] == e.error.id;
      var j :| 0 <= j < k && chain[..k][j] == chain[k];
      assert chain[j] == chain[k];
    }
  }

  /** Clearing a chain removes exactly the edges out of its node, and never fails for a node that exists. */
  lemma ClearRemoves(p: Pool, id: NodeId, q: Pool, r: Result<(), StoreError>, u: NodeId, v: NodeId)
    requires ChainStep(p, id, None, q, r)
    ensures r.Ok? <==> id in p.nodes
    ensures q.nodes == p.nodes
    ensures Edge(q.chains, u, v) <==> Edge(p.chains, u, v) && !(r.Ok? && u == id)
  {
  }

  lemma SameReach(g: Graph<NodeId>, h: Graph<NodeId>, x: NodeId, y: NodeId)
    requires forall u, v :: Edge(g, u, v) ==> Edge(h, u, v)
    ensures Reaches(g, x, y) ==> Reaches(h, x, y)
  {
    if p :| PathFromTo(g, p, x, y) {
      WalkTransfers(g, h, p);
      ByPath(h, p, x, y);
    }
  }

  /** The node table as the chain transaction sees it. */
  class ChainStore {
    var nodes: set<NodeId>
    var chains: map<NodeId, seq<NodeId>>

    ghost function State(): Pool
      reads this
    {
      Pool(nodes, chains)
    }

    constructor ()
      ensures State() == Pool({}, map[]) && GoodPool(State())
    {
      nodes, chains := {}, map[];
      EmptyIsGood();
    }

    /** Imports insert rows without a chain. */
    method Insert(id: NodeId)
      requires id !in nodes
      modifies this
      ensures State() == old(State()).(nodes := old(nodes) + {id})
      ensures Next(old(State()), State())
    {
      nodes := nodes + {id};
    }

    /** One read of the chain column. */
    method ReadEntries() returns (entries: seq<NodeChainEntry>)
      ensures ReadsChains(entries, chains)
    {
      entries := [];
      var left := chains.Keys;
      while left != {}
        invariant left <= chains.Keys && OneEntryPerNode(entries)
        invariant forall i :: 0 <= i < |entries| ==>
          entries[i].nodeId in chains.Keys - left && chains[entries[i].nodeId] == entries[i].chain
        invariant forall id :: id in chains.Keys - left ==> Lists(entries, id)
        decreases left
      {
        var id :| id in left;
        ghost var before := entries;
        left, entries := left - {id}, entries + [NodeChainEntry(id, chains[id])];
        forall x | x in chains.Keys - left ensures Lists(entries, x) {
          if x == id {
            assert entries[|before|].nodeId == x;
          } else {
            assert Lists(before, x);
            var i :| 0 <= i < |before| && before[i].nodeId == x;
            assert entries[i].nodeId == x;
          }
        }
      }
    }

    /** `set_chain_checked`: the write transaction behind every chain change. */
    method SetChainChecked(id: NodeId, chain: Option<seq<NodeId>>) returns (r: Result<(), StoreError>)
      modifies this
      ensures ChainStep(old(State()), id, chain, State(), r)
      ensures old(GoodPool(State())) ==> GoodPool(State())
    {
      r := CheckChain(id, chain);
      if r.Ok? {
        if chain.Some? {
          chains := chains[id := chain.value];
        } else {
          chains := chains - {id};
        }
      }
      if old(GoodPool(State())) {
        ChainStepKeeps(old(State()), id, chain, State(), r);
      }
    }

    method CheckChain(id: NodeId, chain: Option<seq<NodeId>>) returns (r: Result<(), StoreError>)
      ensures r.Ok? && chain.None? ==> ChainStep(State(), id, chain, State().(chains := chains - {id}), r)
      ensures r.Ok? && chain.Some? ==> ChainStep(State(), id, chain, State().(chains := chains[id := chain.value]), r)
      ensures r.Err? ==> ChainStep(State(), id, chain, State(), r)
    {
      if id !in nodes {
        return Err(TargetNotFound(id));
      }
      if chain.None? {
        return Ok(());
      }
      var ids := chain.value;
      var shape := ValidateStructure(ids, id);
      if shape.Err? {
        return Err(BadChain(shape.error));
      }
      for i := 0 to |ids|
        invariant forall j :: 0 <= j < i ==> ids[j] in nodes
      {
        if ids[i] !in nodes {
          assert FirstMissing(nodes, ids, ids[i]);
          return Err(BadChain(NodeNotFound([ids[i]])));
        }
      }
      var entries := ReadEntries();
      var cycle := ValidateUpdate(entries, id, ids);
      SplicedIsUpdate(entries, chains, id, ids);
      if cycle.Some? {
        return Err(BadChain(CycleDetected(cycle.value)));
      }
      r := Ok(());
    }
  }
}
