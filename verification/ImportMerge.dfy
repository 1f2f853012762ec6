/**
 A manual import splits its entries into parsed nodes and failed lines, stores
 the nodes, and merges the stored outcomes with the failures so that each outcome
 stands at its entry's position.
 */
module ImportMerge {
  import opened Wrappers

  type NodeId = nat

  /** A parsed line: its node, if it has one, and its text. */
  datatype Entry = Entry(node: Option<NodeId>, raw: string)

  /** What the response lists for an entry. */
  datatype Outcome = Inserted(id: NodeId) | Duplicate(id: NodeId) | Failed(raw: string)

  // ---------------------------------------------------------------- splitting
  // Each of these reads the first `n` entries.

  function Parsed(entries: seq<Entry>, n: nat): seq<NodeId>
    requires n <= |entries|
  {
    if n == 0 then []
    else Parsed(entries, n - 1) + if entries[n - 1].node.Some? then [entries[n - 1].node.value] else []
  }

  function FailedLines(entries: seq<Entry>, n: nat): seq<string>
    requires n <= |entries|
  {
    if n == 0 then []
    else FailedLines(entries, n - 1) + if entries[n - 1].node.None? then [entries[n - 1].raw] else []
  }

  function FailedAt(entries: seq<Entry>, n: nat): seq<nat>
    requires n <= |entries|
  {
    if n == 0 then []
    else FailedAt(entries, n - 1) + if entries[n - 1].node.None? then [n - 1] else []
  }

  ghost predicate Increasing(s: seq<nat>) {
    forall i, j :: 0 <= i < j < |s| ==> s[i] < s[j]
  }

  /** `at` are exactly the entries that have a node, in order, and `nodes` those nodes. */
  ghost predicate NodesOf(entries: seq<Entry>, n: nat, nodes: seq<NodeId>, at: seq<nat>)
    requires n <= |entries|
  {
    && |at| == |nodes| && Increasing(at)
    && (forall k :: 0 <= k < |at| ==> at[k] < n && entries[at[k]].node == Some(nodes[k]))
    && (forall i :: 0 <= i < n && entries[i].node.Some? ==> i in at)
  }

  /** `at` are exactly the entries that failed, in order, and `lines` their texts. */
  ghost predicate FailuresOf(entries: seq<Entry>, n: nat, lines: seq<string>, at: seq<nat>)
    requires n <= |entries|
  {
    && |at| == |lines| && Increasing(at)
    && (forall k :: 0 <= k < |at| ==> at[k] < n && entries[at[k]].node.None? && lines[k] == entries[at[k]].raw)
    && (forall i :: 0 <= i < n && entries[i].node.None? ==> i in at)
  }

  /** The split of `parse_for_import`. */
  method SplitEntries(entries: seq<Entry>)
    returns (nodes: seq<NodeId>, failed: seq<string>, positions: seq<nat>, ghost at: seq<nat>)
    ensures nodes == Parsed(entries, |entries|)
    ensures failed == FailedLines(entries, |entries|) && positions == FailedAt(entries, |entries|)
    ensures NodesOf(entries, |entries|, nodes, at)
    ensures FailuresOf(entries, |entries|, failed, positions) && |nodes| + |failed| == |entries|
  {
    nodes, failed, positions := [], [], [];
    for i := 0 to |entries|
      invariant nodes == Parsed(entries, i)
      invariant failed == FailedLines(entries, i) && positions == FailedAt(entries, i)
    {
      if entries[i].node.Some? {
        nodes := nodes + [entries[i].node.value];
      } else {
        failed := failed + [entries[i].raw];
        positions := positions + [i];
      }
    }
    SplitShape(entries, |entries|);
    at := ParsedAt(entries, |entries|);
  }

  ghost function ParsedAt(entries: seq<Entry>, n: nat): seq<nat>
    requires n <= |entries|
  {
    if n == 0 then []
    else ParsedAt(entries, n - 1) + if entries[n - 1].node.Some? then [n - 1] else []
  }

  lemma {:induction false} ParsedShape(entries: seq<Entry>, n: nat)
    requires n <= |entries|
    ensures NodesOf(entries, n, Parsed(entries, n), ParsedAt(entries, n))
  {
    if n > 0 {
      ParsedShape(entries, n - 1);
    }
  }

  lemma {:induction false} FailedShape(entries: seq<Entry>, n: nat)
    requires n <= |entries|
    ensures FailuresOf(entries, n, FailedLines(entries, n), FailedAt(entries, n))
    ensures |Parsed(entries, n)| + |FailedAt(entries, n)| == n
  {
    if n > 0 {
      FailedShape(entries, n - 1);
    }
  }

  /** Every entry goes to one side, in order, with its own node or its own line. */
  lemma SplitShape(entries: seq<Entry>, n: nat)
    requires n <= |entries|
    ensures NodesOf(entries, n, Parsed(entries, n), ParsedAt(entries, n))
    ensures FailuresOf(entries, n, FailedLines(entries, n), FailedAt(entries, n))
    ensures |Parsed(entries, n)| + |FailedAt(entries, n)| == n
  {
    ParsedShape(entries, n);
    FailedShape(entries, n);
  }

  /** The node of an entry is handed to storage after those of the entries before it. */
  lemma {:induction false} OwnNode(entries: seq<Entry>, n: nat, i: nat)
    requires i < n <= |entries| && entries[i].node.Some?
    ensures |Parsed(entries, i)| < |Parsed(entries, n)|
    ensures Parsed(entries, n)[|Parsed(entries, i)|] == entries[i].node.value
  {
    if i < n - 1 {
      OwnNode(entries, n - 1, i);
    }
  }

  // ------------------------------------------------------------------ merging

  /** The outcomes written so far, and how many stored ones were taken. */
  datatype Progress = Progress(out: seq<Outcome>, taken: nat)

  function Min(a: nat, b: nat): nat {
    if a < b then a else b
  }

  /** One failure at its position, after the stored outcomes that precede it; `None` is an underflow. */
  function Place(p: Progress, stored: seq<Outcome>, position: nat, raw: string): (r: Option<Progress>)
    requires p.taken <= |stored|
    ensures r.Some? ==> r.value.taken <= |stored|
  {
    if position < |p.out| then None
    else
      var upTo := Min(p.taken + position - |p.out|, |stored|);
      Some(Progress(p.out + stored[p.taken..upTo] + [Failed(raw)], upTo))
  }

  /** The loop's variables after `k` failures. */
  function MergeUpTo(stored: seq<Outcome>, positions: seq<nat>, failed: seq<string>, k: nat): (r: Option<Progress>)
    requires k <= |positions| && k <= |failed|
    ensures r.Some? ==> r.value.taken <= |stored|
  {
    if k == 0 then Some(Progress([], 0))
    else
      match MergeUpTo(stored, positions, failed, k - 1)
      case None => None
      case Some(p) => Place(p, stored, positions[k - 1], failed[k - 1])
  }

  function Merged(stored: seq<Outcome>, positions: seq<nat>, failed: seq<string>): Option<seq<Outcome>> {
    match MergeUpTo(stored, positions, failed, Min(|positions|, |failed|))
    case None => None
    case Some(p) => Some(p.out + stored[p.taken..])
  }

  /** One turn of the merge loop. */
  lemma MergeStep(stored: seq<Outcome>, positions: seq<nat>, failed: seq<string>, k: nat, p: Progress)
    requires k < |positions| && k < |failed| && MergeUpTo(stored, positions, failed, k) == Some(p)
    ensures p.taken <= |stored| && (positions[k] < |p.out| ==> Merged(stored, positions, failed).None?)
    ensures positions[k] >= |p.out| ==>
      var upTo := Min(p.taken + (positions[k] - |p.out|), |stored|);
      MergeUpTo(stored, positions, failed, k + 1)
        == Some(Progress(p.out + stored[p.taken..upTo] + [Failed(failed[k])], upTo))
  {
    if positions[k] < |p.out| {
      UnderflowSticks(stored, positions, failed, k + 1, Min(|positions|, |failed|));
    }
  }

  lemma AscendingMerges(stored: seq<Outcome>, positions: seq<nat>, failed: seq<string>)
    requires Increasing(positions)
    ensures Merged(stored, positions, failed).Some?
  {
    NeverUnderflows(stored, positions, failed, Min(|positions|, |failed|));
  }

  /** The merge loop of `import_nodes`; the subtraction is checked, `None` standing for its panic. */
  method MergeOutcomes(stored: seq<Outcome>, positions: seq<nat>, failed: seq<string>) returns (r: Option<seq<Outcome>>)
    ensures r == Merged(stored, positions, failed)
    ensures Increasing(positions) ==> r.Some?
  {
    if Increasing(positions) {
      AscendingMerges(stored, positions, failed);
    }
    r := MergeLoop(stored, positions, failed);
  }

  method MergeLoop(stored: seq<Outcome>, positions: seq<nat>, failed: seq<string>) returns (r: Option<seq<Outcome>>)
    ensures r == Merged(stored, positions, failed)
  {
    var out: seq<Outcome>, taken: nat := [], 0;
    for k := 0 to Min(|positions|, |failed|)
      invariant MergeUpTo(stored, positions, failed, k) == Some(Progress(out, taken))
    {
      MergeStep(stored, positions, failed, k, Progress(out, taken));
      if positions[k] < |out| {
        return None;
      }
      var upTo := Min(taken + (positions[k] - |out|), |stored|);
      out := out + stored[taken..upTo] + [Failed(failed[k])];
      taken := upTo;
    }
    r := Some(out + stored[taken..]);
  }

  lemma {:induction false} UnderflowSticks(stored: seq<Outcome>, positions: seq<nat>, failed: seq<string>,
                                           k: nat, m: nat)
    requires k <= m <= |positions| && m <= |failed| && MergeUpTo(stored, positions, failed, k).None?
    ensures MergeUpTo(stored, positions, failed, m).None?
    decreases m - k
  {
    if k < m {
      UnderflowSticks(stored, positions, failed, k + 1, m);
    }
  }

  /** Ascending positions never underflow, however many outcomes were stored. */
  lemma {:induction false} NeverUnderflows(stored: seq<Outcome>, positions: seq<nat>, failed: seq<string>, k: nat)
    requires k <= |positions| && k <= |failed| && Increasing(positions)
    ensures MergeUpTo(stored, positions, failed, k).Some?
    ensures k > 0 ==> |MergeUpTo(stored, positions, failed, k).value.out| <= positions[k - 1] + 1
    ensures k == 0 ==> |MergeUpTo(stored, positions, failed, k).value.out| == 0
  {
    if k > 0 {
      NeverUnderflows(stored, positions, failed, k - 1);
      assert k > 1 ==> positions[k - 2] < positions[k - 1];
    }
  }

  /** When enough outcomes were stored, ascending is also necessary. */
  lemma {:induction false} UnderflowExactlyWhen(stored: seq<Outcome>, positions: seq<nat>, failed: seq<string>, k: nat)
    requires k <= |positions| && k <= |failed|
    requires forall i :: 0 <= i < k ==> positions[i] <= |stored| + i
    ensures MergeUpTo(stored, positions, failed, k).Some? <==> Increasing(positions[..k])
    ensures MergeUpTo(stored, positions, failed, k).Some? ==>
      && |MergeUpTo(stored, positions, failed, k).value.out| == (if k == 0 then 0 else positions[k - 1] + 1)
      && MergeUpTo(stored, positions, failed, k).value.taken + k == |MergeUpTo(stored, positions, failed, k).value.out|
  {
    if k > 0 {
      var front := positions[..k - 1];
      assert positions[..k] == front + [positions[k - 1]];
      UnderflowExactlyWhen(stored, positions, failed, k - 1);
      IncreasingSnoc(front, positions[k - 1]);
    }
  }

  lemma IncreasingSnoc(s: seq<nat>, x: nat)
    ensures Increasing(s + [x]) <==> Increasing(s) && (s != [] ==> s[|s| - 1] < x)
  {
    var t := s + [x];
    if Increasing(t) {
      forall i, j | 0 <= i < j < |s| ensures s[i] < s[j] {
        assert t[i] < t[j];
      }
      assert s != [] ==> t[|s| - 1] < t[|s|];
    }
  }

  // ------------------------------------------------- merging undoes splitting

  /** Each of the first `n` entries' own outcome: its failure, or the next stored one. */
  ghost function InPlace(entries: seq<Entry>, stored: seq<Outcome>, n: nat): (r: seq<Outcome>)
    requires n <= |entries| && |Parsed(entries, n)| <= |stored|
    ensures |r| == n
  {
    if n == 0 then []
    else
      InPlace(entries, stored, n - 1)
      + [if entries[n - 1].node.None? then Failed(entries[n - 1].raw) else stored[|Parsed(entries, n - 1)|]]
  }

  /** Where the last failure among the first `n` entries ends. */
  ghost function LastFailureEnd(entries: seq<Entry>, n: nat): (m: nat)
    requires n <= |entries|
    ensures m <= n
    ensures forall i :: m <= i < n ==> entries[i].node.Some?
  {
    if n == 0 then 0
    else if entries[n - 1].node.None? then n
    else LastFailureEnd(entries, n - 1)
  }

  lemma Extend(out: seq<Outcome>, stored: seq<Outcome>, a: nat, b: nat)
    requires a <= b < |stored|
    ensures out + stored[a..b + 1] == out + stored[a..b] + [stored[b]]
  {
    assert stored[a..b + 1] == stored[a..b] + [stored[b]];
  }

  lemma {:induction false} ParsedCount(entries: seq<Entry>, m: nat, n: nat)
    requires m <= n <= |entries| && (forall i :: m <= i < n ==> entries[i].node.Some?)
    ensures |Parsed(entries, n)| == |Parsed(entries, m)| + n - m
    decreases n - m
  {
    if m < n {
      ParsedCount(entries, m, n - 1);
    }
  }

  /** A stretch of parsed entries takes the next stored outcomes, in order. */
  lemma {:induction false} ParsedStretch(entries: seq<Entry>, stored: seq<Outcome>, m: nat, n: nat, a: nat, b: nat)
    requires m <= n <= |entries| && (forall i :: m <= i < n ==> entries[i].node.Some?)
    requires a == |Parsed(entries, m)| && b == |Parsed(entries, n)| && a <= b <= |stored|
    ensures InPlace(entries, stored, n) == InPlace(entries, stored, m) + stored[a..b]
    decreases n - m
  {
    if m < n {
      ParsedCount(entries, m, n - 1);
      ParsedStretch(entries, stored, m, n - 1, a, b - 1);
      Extend(InPlace(entries, stored, m), stored, a, b - 1);
    }
  }

  lemma {:induction false} MergeUpToFront(stored: seq<Outcome>, ps: seq<nat>, p: nat, fs: seq<string>, f: string,
                                          k: nat)
    requires k <= |ps| && k <= |fs|
    ensures MergeUpTo(stored, ps + [p], fs + [f], k) == MergeUpTo(stored, ps, fs, k)
  {
    if k > 0 {
      MergeUpToFront(stored, ps, p, fs, f, k - 1);
    }
  }

  lemma MergeOneMore(stored: seq<Outcome>, ps: seq<nat>, p: nat, fs: seq<string>, f: string, so: Progress)
    requires |ps| == |fs| && MergeUpTo(stored, ps, fs, |ps|) == Some(so)
    ensures so.taken <= |stored| && MergeUpTo(stored, ps + [p], fs + [f], |ps| + 1) == Place(so, stored, p, f)
  {
    MergeUpToFront(stored, ps, p, fs, f, |ps|);
  }

  lemma PlaceAfter(out: seq<Outcome>, stored: seq<Outcome>, a: nat, b: nat, position: nat, raw: string)
    requires a <= b <= |stored| && |out| + b - a == position
    ensures Place(Progress(out, a), stored, position, raw)
         == Some(Progress(out + stored[a..b] + [Failed(raw)], b))
  {
  }

  lemma PlaceAfterStretch(entries: seq<Entry>, stored: seq<Outcome>, m: nat, n: nat, raw: string, a: nat, b: nat)
    requires m <= n <= |entries| && (forall i :: m <= i < n ==> entries[i].node.Some?)
    requires a == |Parsed(entries, m)| && b == |Parsed(entries, n)| && b <= |stored|
    ensures a <= |stored| && Place(Progress(InPlace(entries, stored, m), a), stored, n, raw)
         == Some(Progress(InPlace(entries, stored, n) + [Failed(raw)], b))
  {
    ParsedCount(entries, m, n);
    ParsedStretch(entries, stored, m, n, a, b);
    PlaceAfter(InPlace(entries, stored, m), stored, a, b, n, raw);
  }

  /** The loop's variables once it has placed the first `m` entries. */
  ghost predicate PlacedUpTo(entries: seq<Entry>, stored: seq<Outcome>, m: nat, r: Option<Progress>)
    requires m <= |entries|
  {
    && |Parsed(entries, m)| <= |stored|
    && r == Some(Progress(InPlace(entries, stored, m), |Parsed(entries, m)|))
  }

  lemma InPlaceFailure(entries: seq<Entry>, stored: seq<Outcome>, n: nat)
    requires n < |entries| && entries[n].node.None? && |Parsed(entries, n)| <= |stored|
    ensures |Parsed(entries, n + 1)| == |Parsed(entries, n)|
    ensures InPlace(entries, stored, n + 1) == InPlace(entries, stored, n) + [Failed(entries[n].raw)]
  {
  }

  lemma PlaceFailure(entries: seq<Entry>, stored: seq<Outcome>, n: nat, m: nat, so: Progress)
    requires m <= n < |entries| && (forall i :: m <= i < n ==> entries[i].node.Some?) && entries[n].node.None?
    requires |Parsed(entries, n)| <= |stored| && PlacedUpTo(entries, stored, m, Some(so))
    ensures so.taken <= |stored| && PlacedUpTo(entries, stored, n + 1, Place(so, stored, n, entries[n].raw))
  {
    PlaceAfterStretch(entries, stored, m, n, entries[n].raw, |Parsed(entries, m)|, |Parsed(entries, n)|);
    InPlaceFailure(entries, stored, n);
  }

  /** The loop's variables after all the failures among the first `n` entries. */
  ghost function MergedPrefix(entries: seq<Entry>, stored: seq<Outcome>, n: nat): Option<Progress>
    requires n <= |entries|
  {
    SplitShape(entries, n);
    MergeUpTo(stored, FailedAt(entries, n), FailedLines(entries, n), |FailedAt(entries, n)|)
  }

  lemma MergedSnoc(entries: seq<Entry>, stored: seq<Outcome>, n: nat)
    requires n < |entries|
    ensures entries[n].node.Some? ==> MergedPrefix(entries, stored, n + 1) == MergedPrefix(entries, stored, n)
    ensures entries[n].node.None? && MergedPrefix(entries, stored, n).Some? ==>
      MergedPrefix(entries, stored, n + 1) == Place(MergedPrefix(entries, stored, n).value, stored, n, entries[n].raw)
  {
    SplitShape(entries, n);
    var ps, fs := FailedAt(entries, n), FailedLines(entries, n);
    if entries[n].node.Some? {
      assert FailedAt(entries, n + 1) == ps && FailedLines(entries, n + 1) == fs;
    } else if MergedPrefix(entries, stored, n).Some? {
      MergeOneMore(stored, ps, n, fs, entries[n].raw, MergedPrefix(entries, stored, n).value);
    }
  }

  /** After the failures among the first `n` entries the loop has placed everything up to the last of them. */
  lemma {:induction false} MergePrefix(entries: seq<Entry>, stored: seq<Outcome>, n: nat)
    requires n <= |entries| && |Parsed(entries, n)| <= |stored|
    ensures PlacedUpTo(entries, stored, LastFailureEnd(entries, n), MergedPrefix(entries, stored, n))
  {
    if n > 0 {
      MergePrefix(entries, stored, n - 1);
      MergedSnoc(entries, stored, n - 1);
      if entries[n - 1].node.None? {
        var so := MergedPrefix(entries, stored, n - 1).value;
        PlaceFailure(entries, stored, n - 1, LastFailureEnd(entries, n - 1), so);
      }
    }
  }

  lemma MergedInPlace(entries: seq<Entry>, stored: seq<Outcome>)
    requires |stored| == |Parsed(entries, |entries|)|
    ensures Merged(stored, FailedAt(entries, |entries|), FailedLines(entries, |entries|))
         == Some(InPlace(entries, stored, |entries|))
  {
    MergePrefix(entries, stored, |entries|);
    SplitShape(entries, |entries|);
    var m, n := LastFailureEnd(entries, |entries|), |entries|;
    ParsedCount(entries, m, n);
    ParsedStretch(entries, stored, m, n, |Parsed(entries, m)|, |Parsed(entries, n)|);
    assert stored[|Parsed(entries, m)|..|stored|] == stored[|Parsed(entries, m)|..];
  }

  /** `InPlace`, position by position. */
  lemma {:induction false} InPlaceAt(entries: seq<Entry>, stored: seq<Outcome>, n: nat, i: nat)
    requires n <= |entries| && |Parsed(entries, n)| <= |stored| && i < n
    ensures |Parsed(entries, i)| <= |Parsed(entries, n)| - (if entries[i].node.Some? then 1 else 0)
    ensures InPlace(entries, stored, n)[i]
         == if entries[i].node.None? then Failed(entries[i].raw) else stored[|Parsed(entries, i)|]
  {
    if i < n - 1 {
      InPlaceAt(entries, stored, n - 1, i);
    }
  }

  /**
   If storage answers the k-th node it was given with its k-th outcome, whatever `answers` means,
   then the merged list has at each entry its own failure or the answer to its own node.
   */
  lemma MergeUndoesSplit(entries: seq<Entry>, stored: seq<Outcome>, answers: (NodeId, Outcome) -> bool)
    requires |stored| == |Parsed(entries, |entries|)|
    requires forall k :: 0 <= k < |stored| ==> answers(Parsed(entries, |entries|)[k], stored[k])
    ensures var r := Merged(stored, FailedAt(entries, |entries|), FailedLines(entries, |entries|));
      && r.Some? && |r.value| == |entries|
      && (forall i :: 0 <= i < |entries| ==>
            match entries[i].node
            case None => r.value[i] == Failed(entries[i].raw)
            case Some(node) => answers(node, r.value[i]) && r.value[i] in stored)
  {
    var n := |entries|;
    MergedInPlace(entries, stored);
    var r := InPlace(entries, stored, n);
    forall i | 0 <= i < n
      ensures entries[i].node.None? ==> r[i] == Failed(entries[i].raw)
      ensures entries[i].node.Some? ==> answers(entries[i].node.value, r[i]) && r[i] in stored
    {
      InPlaceAt(entries, stored, n, i);
      if entries[i].node.Some? {
        OwnNode(entries, n, i);
      }
    }
  }

  lemma {:induction false} IndexOfParsed(entries: seq<Entry>, n: nat, k: nat)
    requires n <= |entries| && k < |Parsed(entries, n)|
    ensures k < |ParsedAt(entries, n)| && ParsedAt(entries, n)[k] < n
    ensures |Parsed(entries, ParsedAt(entries, n)[k])| == k && entries[ParsedAt(entries, n)[k]].node.Some?
  {
    ParsedShape(entries, n);
    if k < |Parsed(entries, n - 1)| {
      IndexOfParsed(entries, n - 1, k);
    }
  }

  /** No stored outcome is lost, repeated or reordered: each stands where its node's line was. */
  lemma StoredInOrder(entries: seq<Entry>, stored: seq<Outcome>, k: nat)
    requires |stored| == |Parsed(entries, |entries|)| && k < |stored|
    ensures var at := ParsedAt(entries, |entries|);
      var r := Merged(stored, FailedAt(entries, |entries|), FailedLines(entries, |entries|));
      && NodesOf(entries, |entries|, Parsed(entries, |entries|), at)
      && r.Some? && at[k] < |r.value| && r.value[at[k]] == stored[k]
  {
    MergedInPlace(entries, stored);
    ParsedShape(entries, |entries|);
    IndexOfParsed(entries, |entries|, k);
    InPlaceAt(entries, stored, |entries|, ParsedAt(entries, |entries|)[k]);
  }
}
