/**
 Accounting over whole histories of one probe source. Traffic flows and counters
 reset at any time; overlapping syncs read servers one by one, may miss or repeat
 some, may fail as a whole, and commit only against the revision they started from.
 The source may be pointed at another panel.
 */
module TrafficRuns {
  import opened TrafficDeltas

  type SyncId = nat

  /** A server's counters, and all the traffic it ever had while the source looked at it. */
  datatype Meter = Meter(counters: Counters, total: Counters)

  datatype Listing = Listing(server: ServerId, meter: Meter)

  /** A sync under way: the revision and snapshot it loaded, and what it has read so far, in order. */
  datatype Sync = Sync(revision: nat, last: Snapshot, listed: seq<Listing>)

  /**
   `snapshot`, `revision` and `recorded` are stored. The rest is what really happened:
   current meters, the meters at the readings now in the snapshot, the totals at each
   server's first committed reading, and the servers that were ever reset, that a
   commit left out after their first sighting, whose repeated listings a commit
   counted double, and that were in the snapshot when the source was pointed at
   another panel.
   */
  datatype State = State(
    snapshot: Snapshot, revision: nat, recorded: map<ServerId, Counters>, syncs: map<SyncId, Sync>,
    meters: map<ServerId, Meter>, marks: map<ServerId, Meter>, base: map<ServerId, Counters>,
    wasReset: set<ServerId>, wasMissed: set<ServerId>, wasDoubled: set<ServerId>, wasSwapped: set<ServerId>,
    repoints: nat)

  datatype Step =
    | Traffic(s: ServerId, up: nat, down: nat)
    | ResetCounter(s: ServerId, upToo: bool, downToo: bool)
    | Begin(k: SyncId)
    | Read(k: SyncId, s: ServerId)
    | Commit(k: SyncId)
    | Fail(k: SyncId, noted: bool)             // noting the failure rewrites the row, if nobody else did
    | Edit                                     // a new name, credential, subscription or enabled flag
    | Repoint(panel: map<ServerId, Counters>)  // a new endpoint; the stored snapshot is kept

  function Zero(): Counters {
    Counters(0, 0)
  }

  function MeterOf(st: State, s: ServerId): Meter {
    if s in st.meters then st.meters[s] else Meter(Zero(), Zero())
  }

  function RecordedOf(st: State, s: ServerId): Counters {
    if s in st.recorded then st.recorded[s] else Zero()
  }

  /** The readings the adapter's loop gets. */
  function ReadingsOf(listed: seq<Listing>): (rs: seq<Reading>)
    ensures |rs| == |listed|
    ensures forall i :: 0 <= i < |rs| ==> rs[i] == Reading(listed[i].server, listed[i].meter.counters)
  {
    seq(|listed|, i requires 0 <= i < |listed| => Reading(listed[i].server, listed[i].meter.counters))
  }

  /** The meters behind the new snapshot: the last listing of each server. */
  function MarksOf(listed: seq<Listing>): map<ServerId, Meter> {
    if listed == [] then map[]
    else MarksOf(listed[..|listed| - 1])[listed[|listed| - 1].server := listed[|listed| - 1].meter]
  }

  /** The listings of a known server add up to more than the readings they came from. */
  ghost predicate DoublesSide(listed: seq<Listing>, last: Snapshot, s: ServerId, up: bool) {
    && s in last
    && var prev, cs := Side(last[s], up), Listings(ReadingsOf(listed), s, up);
       FromBase(prev, cs) > StepByStep(prev, cs)
  }

  ghost predicate Doubles(listed: seq<Listing>, last: Snapshot, s: ServerId) {
    DoublesSide(listed, last, s, true) || DoublesSide(listed, last, s, false)
  }

  ghost function Doubled(listed: seq<Listing>, last: Snapshot): set<ServerId> {
    set s | s in last && Doubles(listed, last, s)
  }

  ghost predicate Enabled(st: State, step: Step) {
    match step
    case Traffic(_, _, _) => true
    case ResetCounter(_, _, _) => true
    case Begin(k) => k !in st.syncs
    case Read(k, _) => k in st.syncs
    case Commit(k) => k in st.syncs && st.syncs[k].revision == st.revision
    case Fail(k, noted) => k in st.syncs && (noted ==> st.syncs[k].revision == st.revision)
    case Edit => true
    case Repoint(_) => true
  }

  ghost function Committed(st: State, y: Sync): State {
    var marks := MarksOf(y.listed);
    var samples := Samples(ReadingsOf(y.listed), y.last);
    st.(snapshot := NewSnapshot(ReadingsOf(y.listed)), revision := st.revision + 1,
        recorded := map s | s in st.recorded.Keys + marks.Keys :: Plus(RecordedOf(st, s), Recorded(samples, s)),
        marks := marks,
        base := map s | s in st.base.Keys + marks.Keys :: if s in st.base then st.base[s] else marks[s].total,
        wasMissed := st.wasMissed + (st.base.Keys - marks.Keys),
        wasDoubled := st.wasDoubled + Doubled(y.listed, y.last))
  }

  ghost function Do(st: State, step: Step): State
    requires Enabled(st, step)
  {
    match step
    case Traffic(s, up, down) =>
      var m := MeterOf(st, s);
      st.(meters := st.meters[s := Meter(Plus(m.counters, Counters(up, down)), Plus(m.total, Counters(up, down)))])
    case ResetCounter(s, up, down) =>
      var m := MeterOf(st, s);
      st.(meters := st.meters[s := m.(counters := Counters(if up then 0 else m.counters.up,
                                                           if down then 0 else m.counters.down))],
          wasReset := st.wasReset + {s})
    case Begin(k) => st.(syncs := st.syncs[k := Sync(st.revision, st.snapshot, [])])
    case Read(k, s) =>
      var y := st.syncs[k];
      st.(syncs := st.syncs[k := y.(listed := y.listed + [Listing(s, MeterOf(st, s))])])
    case Commit(k) => Committed(st, st.syncs[k]).(syncs := st.syncs - {k})
    case Fail(k, noted) => st.(syncs := st.syncs - {k}, revision := st.revision + if noted then 1 else 0)
    case Edit => st.(revision := st.revision + 1)
    case Repoint(panel) =>
      st.(revision := st.revision + 1, repoints := st.repoints + 1, wasSwapped := st.wasSwapped + st.snapshot.Keys,
          meters := map s | s in st.meters.Keys + panel.Keys ::
            Meter(if s in panel then panel[s] else Zero(), MeterOf(st, s).total))
  }

  // ---------------------------------------------------- two moments of a meter

  ghost predicate AtMost(a: Counters, b: Counters) {
    a.up <= b.up && a.down <= b.down
  }

  /** `b` can come after `a`: the deltas between them are no more than the traffic between them. */
  ghost predicate Later(a: Meter, b: Meter) {
    && Delta(a.counters.up, b.counters.up) + a.total.up <= b.total.up
    && Delta(a.counters.down, b.counters.down) + a.total.down <= b.total.down
  }

  /** Without resets the counters measure the traffic exactly. */
  ghost predicate Exactly(a: Meter, b: Meter) {
    && AtMost(a.counters, b.counters)
    && b.counters.up - a.counters.up + a.total.up == b.total.up
    && b.counters.down - a.counters.down + a.total.down == b.total.down
  }

  // --------------------------------------------------------------- invariant

  /** The records of one server are covered by its traffic up to `bound`. */
  ghost predicate Covered(st: State, s: ServerId, bound: Counters) {
    if s in st.base then AtMost(Plus(RecordedOf(st, s), st.base[s]), bound)
    else RecordedOf(st, s) == Zero()
  }

  /** Servers the accounting promises nothing about. */
  ghost predicate Spoiled(st: State, s: ServerId) {
    s in st.wasDoubled || s in st.wasSwapped
  }

  ghost predicate Steady(st: State, s: ServerId) {
    s in st.base && s !in st.wasReset && s !in st.wasMissed
  }

  /** What is known of one server now. */
  ghost predicate ServerOk(st: State, s: ServerId) {
    && (s in st.marks ==> Later(st.marks[s], MeterOf(st, s)) && Covered(st, s, st.marks[s].total))
    && (s !in st.marks ==> Covered(st, s, MeterOf(st, s).total))
    && (s in st.marks && s !in st.wasReset ==> Exactly(st.marks[s], MeterOf(st, s)))
    && (Steady(st, s) ==> s in st.marks && Plus(RecordedOf(st, s), st.base[s]) == st.marks[s].total)
  }

  /** A reading of a sync that may still commit. */
  ghost predicate ReadingOk(st: State, s: ServerId, m: Meter) {
    && Later(m, MeterOf(st, s))
    && (s !in st.wasReset ==> Exactly(m, MeterOf(st, s)))
    && (s in st.marks ==> Later(st.marks[s], m))
    && (s in st.marks && s !in st.wasReset ==> Exactly(st.marks[s], m))
    && (s !in st.marks ==> Covered(st, s, m.total))
  }

  ghost predicate ListedOk(st: State, x: Listing) {
    Spoiled(st, x.server) || ReadingOk(st, x.server, x.meter)
  }

  /** Of two readings of one server, the second can come after the first. */
  ghost predicate PairOk(st: State, a: Listing, b: Listing) {
    a.server != b.server || Spoiled(st, a.server)
    || (Later(a.meter, b.meter) && (a.server !in st.wasReset ==> Exactly(a.meter, b.meter)))
  }

  ghost predicate PairsOk(st: State, listed: seq<Listing>) {
    forall i, j :: 0 <= i < j < |listed| ==> PairOk(st, listed[i], listed[j])
  }

  ghost predicate SyncOk(st: State, k: Sync) {
    && k.revision <= st.revision
    && (k.revision == st.revision ==>
          && k.last == st.snapshot && PairsOk(st, k.listed)
          && forall x :: x in k.listed ==> ListedOk(st, x))
  }

  ghost predicate SnapshotOk(st: State) {
    && st.snapshot.Keys == st.marks.Keys && st.marks.Keys <= st.base.Keys
    && (forall s :: s in st.marks ==> st.snapshot[s] == st.marks[s].counters)
  }

  ghost predicate Invariant(st: State) {
    && SnapshotOk(st)
    && (forall s :: Spoiled(st, s) || ServerOk(st, s))
    && (forall k :: k in st.syncs ==> SyncOk(st, st.syncs[k]))
  }

  // -------------------------------------------------------------- flow steps

  predicate Flow(step: Step) {
    step.Traffic? || step.ResetCounter?
  }

  lemma LaterStep(st: State, step: Step, s: ServerId, a: Meter)
    requires Flow(step) && Later(a, MeterOf(st, s))
    ensures Later(a, MeterOf(Do(st, step), s))
    ensures AtMost(MeterOf(st, s).total, MeterOf(Do(st, step), s).total)
  {
  }

  lemma ExactlyStep(st: State, step: Step, s: ServerId, a: Meter)
    requires Flow(step) && Exactly(a, MeterOf(st, s)) && s !in Do(st, step).wasReset
    ensures Exactly(a, MeterOf(Do(st, step), s))
  {
  }

  lemma TotalsGrow(st: State, step: Step, s: ServerId)
    requires Flow(step)
    ensures AtMost(MeterOf(st, s).total, MeterOf(Do(st, step), s).total)
  {
  }

  lemma FlowKeepsServer(st: State, step: Step, s: ServerId)
    requires Flow(step) && ServerOk(st, s)
    ensures ServerOk(Do(st, step), s)
  {
    TotalsGrow(st, step, s);
    if s in st.marks {
      LaterStep(st, step, s, st.marks[s]);
      if s !in Do(st, step).wasReset {
        ExactlyStep(st, step, s, st.marks[s]);
      }
    }
  }

  lemma FlowKeepsReading(st: State, step: Step, s: ServerId, m: Meter)
    requires Flow(step) && ReadingOk(st, s, m)
    ensures ReadingOk(Do(st, step), s, m)
  {
    LaterStep(st, step, s, m);
    if s !in Do(st, step).wasReset {
      ExactlyStep(st, step, s, m);
    }
  }

  lemma FlowKeeps(st: State, step: Step)
    requires Flow(step) && Invariant(st)
    ensures Invariant(Do(st, step))
  {
    var t := Do(st, step);
    forall s: ServerId ensures Spoiled(t, s) || ServerOk(t, s) {
      if !Spoiled(st, s) {
        FlowKeepsServer(st, step, s);
      }
    }
    forall k | k in t.syncs ensures SyncOk(t, t.syncs[k]) {
      assert SyncOk(st, st.syncs[k]);
      if t.syncs[k].revision == t.revision {
        FewerPairs(st, t, t.syncs[k].listed);
      }
      forall x | x in t.syncs[k].listed && t.syncs[k].revision == t.revision ensures ListedOk(t, x) {
        if !Spoiled(st, x.server) {
          FlowKeepsReading(st, step, x.server, x.meter);
        }
      }
    }
  }

  lemma FewerPairs(st: State, t: State, listed: seq<Listing>)
    requires PairsOk(st, listed) && st.wasReset <= t.wasReset
    requires st.wasDoubled == t.wasDoubled && st.wasSwapped == t.wasSwapped
    ensures PairsOk(t, listed)
  {
    forall i, j | 0 <= i < j < |listed| ensures PairOk(t, listed[i], listed[j]) {
      assert PairOk(st, listed[i], listed[j]);
    }
  }

  // ------------------------------------------------------ steps of the source

  /** A step that changes no server's account: every sync it leaves behind is as before, too old, or empty. */
  ghost predicate Quiet(st: State, t: State) {
    && t == st.(syncs := t.syncs, revision := t.revision) && st.revision <= t.revision
    && forall k :: k in t.syncs ==>
         (k in st.syncs && t.syncs[k] == st.syncs[k]) || t.syncs[k] == Sync(t.revision, t.snapshot, [])
  }

  lemma QuietKeeps(st: State, t: State)
    requires Invariant(st) && Quiet(st, t)
    ensures Invariant(t)
  {
    forall s: ServerId ensures Spoiled(t, s) || ServerOk(t, s) {
      assert Spoiled(st, s) || ServerOk(st, s);
    }
    forall k | k in t.syncs ensures SyncOk(t, t.syncs[k]) {
      if k in st.syncs && t.syncs[k] == st.syncs[k] {
        assert SyncOk(st, st.syncs[k]);
        if t.syncs[k].revision == t.revision {
          FewerPairs(st, t, t.syncs[k].listed);
        }
        forall x | x in t.syncs[k].listed && t.syncs[k].revision == t.revision ensures ListedOk(t, x) {
          assert ListedOk(st, x);
        }
      }
    }
  }

  /** A reading taken now is the meter itself. */
  lemma FreshReadingOk(st: State, s: ServerId)
    requires ServerOk(st, s)
    ensures ReadingOk(st, s, MeterOf(st, s))
  {
  }

  lemma SameAccount(st: State, t: State, x: Listing)
    requires t == st.(syncs := t.syncs) && ListedOk(st, x)
    ensures ListedOk(t, x)
  {
  }

  /** A reading taken now comes after every earlier one. */
  lemma NewPairs(st: State, listed: seq<Listing>, s: ServerId)
    requires PairsOk(st, listed) && forall x :: x in listed ==> ListedOk(st, x)
    ensures PairsOk(st, listed + [Listing(s, MeterOf(st, s))])
  {
    var more := listed + [Listing(s, MeterOf(st, s))];
    forall i, j | 0 <= i < j < |more| ensures PairOk(st, more[i], more[j]) {
      if j < |listed| {
        assert PairOk(st, listed[i], listed[j]);
      } else {
        assert more[i] in listed;
      }
    }
  }

  lemma ReadKeepsSync(st: State, t: State, y: Sync, s: ServerId, z: Sync)
    requires t == st.(syncs := t.syncs) && SyncOk(st, y) && (Spoiled(st, s) || ServerOk(st, s))
    requires z == y.(listed := y.listed + [Listing(s, MeterOf(st, s))])
    ensures SyncOk(t, z)
  {
    if z.revision == t.revision {
      NewPairs(st, y.listed, s);
      FewerPairs(st, t, z.listed);
      if !Spoiled(st, s) {
        FreshReadingOk(st, s);
      }
      forall x | x in z.listed ensures ListedOk(t, x) {
        assert x in y.listed || x == Listing(s, MeterOf(st, s));
        SameAccount(st, t, x);
      }
    }
  }

  lemma IdleKeepsSync(st: State, t: State, y: Sync)
    requires t == st.(syncs := t.syncs) && SyncOk(st, y)
    ensures SyncOk(t, y)
  {
    if y.revision == t.revision {
      FewerPairs(st, t, y.listed);
      forall x | x in y.listed ensures ListedOk(t, x) {
        SameAccount(st, t, x);
      }
    }
  }

  lemma ReadKeeps(st: State, k: SyncId, s: ServerId)
    requires Invariant(st) && Enabled(st, Read(k, s))
    ensures Invariant(Do(st, Read(k, s)))
  {
    var t := Do(st, Read(k, s));
    forall x: ServerId ensures Spoiled(t, x) || ServerOk(t, x) {
      assert Spoiled(st, x) || ServerOk(st, x);
    }
    forall j | j in t.syncs ensures SyncOk(t, t.syncs[j]) {
      assert SyncOk(st, st.syncs[j]);
      if j == k {
        assert Spoiled(st, s) || ServerOk(st, s);
        ReadKeepsSync(st, t, st.syncs[k], s, t.syncs[k]);
      } else {
        IdleKeepsSync(st, t, st.syncs[j]);
      }
    }
  }

  /** A new panel keeps every server's account that is not in the snapshot. */
  lemma RepointKeeps(st: State, panel: map<ServerId, Counters>)
    requires Invariant(st)
    ensures Invariant(Do(st, Repoint(panel)))
  {
    var t := Do(st, Repoint(panel));
    forall s: ServerId ensures Spoiled(t, s) || ServerOk(t, s) {
      assert Spoiled(st, s) || ServerOk(st, s);
      assert MeterOf(t, s).total == MeterOf(st, s).total;
    }
    forall k | k in t.syncs ensures SyncOk(t, t.syncs[k]) {
      assert SyncOk(st, st.syncs[k]);
    }
  }

  // ------------------------------------------------------------- the commit

  lemma {:induction false} MarksHold(listed: seq<Listing>, s: ServerId)
    ensures s in MarksOf(listed) <==> exists x :: x in listed && x.server == s
    ensures s in MarksOf(listed) ==> Listing(s, MarksOf(listed)[s]) in listed
    ensures s in NewSnapshot(ReadingsOf(listed)) <==> s in MarksOf(listed)
    ensures s in MarksOf(listed) ==> NewSnapshot(ReadingsOf(listed))[s] == MarksOf(listed)[s].counters
  {
    if listed != [] {
      var front, x := listed[..|listed| - 1], listed[|listed| - 1];
      MarksHold(front, s);
      assert listed == front + [x];
      assert ReadingsOf(listed)[..|front|] == ReadingsOf(front);
      if x.server == s {
        assert x in listed;
      }
    }
  }

  // ---------------------------------------- the listings of one server in order

  lemma ListingsOfSnoc(front: seq<Listing>, x: Listing, s: ServerId, up: bool)
    ensures var cs := Listings(ReadingsOf(front), s, up);
      Listings(ReadingsOf(front + [x]), s, up) == if x.server == s then cs + [Side(x.meter.counters, up)] else cs
  {
    assert ReadingsOf(front + [x])[..|front|] == ReadingsOf(front);
    assert Listings(ReadingsOf(front), s, up) + [] == Listings(ReadingsOf(front), s, up);
  }

  /** The last reading of the server, or `m` if there is none. */
  ghost function LastMeter(m: Meter, listed: seq<Listing>, s: ServerId): Meter {
    if s in MarksOf(listed) then MarksOf(listed)[s] else m
  }

  /** `m` and then the listings of the server: each reading can come after all before it. */
  ghost predicate InOrder(m: Meter, listed: seq<Listing>, s: ServerId) {
    && (forall i :: 0 <= i < |listed| && listed[i].server == s ==> Later(m, listed[i].meter))
    && (forall i, j :: 0 <= i < j < |listed| && listed[i].server == s && listed[j].server == s ==>
          Later(listed[i].meter, listed[j].meter))
  }

  ghost predicate InExactOrder(m: Meter, listed: seq<Listing>, s: ServerId) {
    && (forall i :: 0 <= i < |listed| && listed[i].server == s ==> Exactly(m, listed[i].meter))
    && (forall i, j :: 0 <= i < j < |listed| && listed[i].server == s && listed[j].server == s ==>
          Exactly(listed[i].meter, listed[j].meter))
  }

  lemma NextInOrder(m: Meter, front: seq<Listing>, x: Listing, s: ServerId)
    requires x.server == s
    ensures InOrder(m, front + [x], s) ==> InOrder(m, front, s) && Later(LastMeter(m, front, s), x.meter)
    ensures InExactOrder(m, front + [x], s) ==> InExactOrder(m, front, s) && Exactly(LastMeter(m, front, s), x.meter)
  {
    var all := front + [x];
    assert all[|front|] == x && forall i :: 0 <= i < |front| ==> all[i] == front[i];
    MarksHold(front, s);
    if s in MarksOf(front) {
      var i :| 0 <= i < |front| && front[i] == Listing(s, MarksOf(front)[s]);
      assert all[i].server == s;
    }
  }

  lemma MarksSnoc(front: seq<Listing>, x: Listing)
    ensures MarksOf(front + [x]) == MarksOf(front)[x.server := x.meter]
  {
    assert (front + [x])[..|front|] == front;
  }

  lemma StepSnoc(prev: nat, cs: seq<nat>, c: nat)
    ensures StepByStep(prev, cs + [c]) == StepByStep(prev, cs) + Delta(LastOf(prev, cs), c)
    ensures FromBase(prev, cs + [c]) == FromBase(prev, cs) + Delta(prev, c)
  {
    assert (cs + [c])[..|cs|] == cs;
  }

  /** Going from reading to reading never counts more than the traffic up to the last of them. */
  lemma {:induction false} StepsWithinTraffic(m: Meter, listed: seq<Listing>, s: ServerId, up: bool)
    requires InOrder(m, listed, s)
    ensures var cs := Listings(ReadingsOf(listed), s, up);
      && LastOf(Side(m.counters, up), cs) == Side(LastMeter(m, listed, s).counters, up)
      && StepByStep(Side(m.counters, up), cs) + Side(m.total, up) <= Side(LastMeter(m, listed, s).total, up)
  {
    if listed != [] {
      var front, x := listed[..|listed| - 1], listed[|listed| - 1];
      assert listed == front + [x];
      StepsWithinTraffic(m, front, s, up);
      MarksSnoc(front, x);
      ListingsOfSnoc(front, x, s, up);
      if x.server == s {
        NextInOrder(m, front, x, s);
        StepSnoc(Side(m.counters, up), Listings(ReadingsOf(front), s, up), Side(x.meter.counters, up));
      }
    }
  }

  /** Without resets it counts exactly that traffic, and measuring from the base counts no less. */
  lemma {:induction false} StepsAreTraffic(m: Meter, listed: seq<Listing>, s: ServerId, up: bool)
    requires InExactOrder(m, listed, s)
    ensures var cs, n := Listings(ReadingsOf(listed), s, up), LastMeter(m, listed, s);
      && LastOf(Side(m.counters, up), cs) == Side(n.counters, up) && Exactly(m, n)
      && StepByStep(Side(m.counters, up), cs) + Side(m.total, up) == Side(n.total, up)
      && FromBase(Side(m.counters, up), cs) >= StepByStep(Side(m.counters, up), cs)
  {
    if listed != [] {
      var front, x := listed[..|listed| - 1], listed[|listed| - 1];
      assert listed == front + [x];
      StepsAreTraffic(m, front, s, up);
      MarksSnoc(front, x);
      ListingsOfSnoc(front, x, s, up);
      if x.server == s {
        NextInOrder(m, front, x, s);
        StepSnoc(Side(m.counters, up), Listings(ReadingsOf(front), s, up), Side(x.meter.counters, up));
      }
    }
  }

  /** The listings of a sync that may commit are in order after the snapshot's reading. */
  lemma ListedInOrder(st: State, y: Sync, s: ServerId)
    requires SyncOk(st, y) && y.revision == st.revision && !Spoiled(st, s) && s in st.marks
    ensures InOrder(st.marks[s], y.listed, s)
    ensures s !in st.wasReset ==> InExactOrder(st.marks[s], y.listed, s)
  {
    forall i | 0 <= i < |y.listed| && y.listed[i].server == s ensures ReadingOk(st, s, y.listed[i].meter) {
      assert y.listed[i] in y.listed;
    }
    forall i, j | 0 <= i < j < |y.listed| && y.listed[i].server == s && y.listed[j].server == s
      ensures Later(y.listed[i].meter, y.listed[j].meter)
      ensures s !in st.wasReset ==> Exactly(y.listed[i].meter, y.listed[j].meter)
    {
      assert PairOk(st, y.listed[i], y.listed[j]);
    }
  }

  /** What the commit records for a server of the snapshot that it does not double. */
  lemma GainSide(st: State, y: Sync, s: ServerId, up: bool)
    requires SyncOk(st, y) && y.revision == st.revision && SnapshotOk(st)
    requires !Spoiled(st, s) && s in st.marks && s !in Doubled(y.listed, y.last)
    ensures var gain, n := Recorded(Samples(ReadingsOf(y.listed), y.last), s), LastMeter(st.marks[s], y.listed, s);
      && Side(gain, up) + Side(st.marks[s].total, up) <= Side(n.total, up)
      && (s !in st.wasReset ==> Side(gain, up) + Side(st.marks[s].total, up) == Side(n.total, up))
  {
    RecordedPerListing(ReadingsOf(y.listed), y.last, s, up);
    ListedInOrder(st, y, s);
    StepsWithinTraffic(st.marks[s], y.listed, s, up);
    if s !in st.wasReset {
      StepsAreTraffic(st.marks[s], y.listed, s, up);
    }
    assert !DoublesSide(y.listed, y.last, s, up);
  }

  lemma NoGain(y: Sync, s: ServerId)
    requires s !in y.last
    ensures Recorded(Samples(ReadingsOf(y.listed), y.last), s) == Zero()
  {
    RecordedPerListing(ReadingsOf(y.listed), y.last, s, true);
    RecordedPerListing(ReadingsOf(y.listed), y.last, s, false);
  }

  lemma {:induction false} NotListed(listed: seq<Listing>, s: ServerId, up: bool)
    requires s !in MarksOf(listed)
    ensures Listings(ReadingsOf(listed), s, up) == []
  {
    if listed != [] {
      var front, x := listed[..|listed| - 1], listed[|listed| - 1];
      assert listed == front + [x];
      MarksSnoc(front, x);
      NotListed(front, s, up);
      ListingsOfSnoc(front, x, s, up);
    }
  }

  lemma MissedGain(y: Sync, s: ServerId)
    requires s !in MarksOf(y.listed)
    ensures Recorded(Samples(ReadingsOf(y.listed), y.last), s) == Zero()
  {
    RecordedPerListing(ReadingsOf(y.listed), y.last, s, true);
    RecordedPerListing(ReadingsOf(y.listed), y.last, s, false);
    NotListed(y.listed, s, true);
    NotListed(y.listed, s, false);
  }

  // --------------------------------------------------- the commit, server by server

  /** A committed sync as one server sees it; `gain` is what was recorded. */
  ghost predicate CommitShape(st: State, marks: map<ServerId, Meter>, t: State, s: ServerId, gain: Counters) {
    && t.marks == marks && MeterOf(t, s) == MeterOf(st, s) && (s in t.wasReset <==> s in st.wasReset)
    && RecordedOf(t, s).up == RecordedOf(st, s).up + gain.up
    && RecordedOf(t, s).down == RecordedOf(st, s).down + gain.down
    && (s in t.base <==> s in st.base || s in marks)
    && (s in st.base ==> t.base[s] == st.base[s])
    && (s in marks && s !in st.base ==> t.base[s] == marks[s].total)
    && (s in t.wasMissed <==> s in st.wasMissed || (s in st.base && s !in marks))
  }

  lemma CommitHasShape(st: State, y: Sync, t: State, s: ServerId, gain: Counters)
    requires t == Committed(st, y).(syncs := t.syncs)
    requires gain == Recorded(Samples(ReadingsOf(y.listed), y.last), s)
    requires s !in MarksOf(y.listed) ==> gain == Zero()
    ensures CommitShape(st, MarksOf(y.listed), t, s, gain)
  {
  }

  lemma MissedServerOk(st: State, marks: map<ServerId, Meter>, t: State, s: ServerId)
    requires ServerOk(st, s) && CommitShape(st, marks, t, s, Zero()) && s !in marks
    ensures ServerOk(t, s)
  {
  }

  /** A first sighting: the baseline, nothing recorded. */
  lemma FirstSeenServerOk(st: State, marks: map<ServerId, Meter>, t: State, s: ServerId)
    requires ServerOk(st, s) && CommitShape(st, marks, t, s, Zero())
    requires s in marks && s !in st.marks && s !in st.base && ReadingOk(st, s, marks[s])
    ensures ServerOk(t, s)
  {
  }

  /** A return after being left out: a new baseline on top of the old records. */
  lemma ReturnedServerOk(st: State, marks: map<ServerId, Meter>, t: State, s: ServerId)
    requires ServerOk(st, s) && CommitShape(st, marks, t, s, Zero())
    requires s in marks && s !in st.marks && s in st.base && ReadingOk(st, s, marks[s])
    ensures ServerOk(t, s)
  {
  }

  lemma SeenAgainServerOk(st: State, marks: map<ServerId, Meter>, t: State, s: ServerId, gain: Counters)
    requires ServerOk(st, s) && CommitShape(st, marks, t, s, gain)
    requires s in marks && s in st.marks && s in st.base && ReadingOk(st, s, marks[s])
    requires AtMost(Plus(gain, st.marks[s].total), marks[s].total)
    requires s !in st.wasReset ==> Plus(gain, st.marks[s].total) == marks[s].total
    ensures ServerOk(t, s)
  {
  }

  lemma CommitKeepsListed(st: State, y: Sync, t: State, s: ServerId, gain: Counters)
    requires SnapshotOk(st) && ServerOk(st, s) && SyncOk(st, y) && y.revision == st.revision
    requires !Spoiled(st, s) && s !in Doubled(y.listed, y.last) && s in MarksOf(y.listed)
    requires CommitShape(st, MarksOf(y.listed), t, s, gain)
    requires gain == Recorded(Samples(ReadingsOf(y.listed), y.last), s)
    ensures ServerOk(t, s)
  {
    var marks := MarksOf(y.listed);
    MarksHold(y.listed, s);
    assert ListedOk(st, Listing(s, marks[s]));
    if s in st.marks {
      GainSide(st, y, s, true);
      GainSide(st, y, s, false);
      SeenAgainServerOk(st, marks, t, s, gain);
    } else {
      NoGain(y, s);
      if s in st.base {
        ReturnedServerOk(st, marks, t, s);
      } else {
        FirstSeenServerOk(st, marks, t, s);
      }
    }
  }

  lemma CommitKeepsServer(st: State, k: SyncId, s: ServerId)
    requires Invariant(st) && Enabled(st, Commit(k)) && !Spoiled(Do(st, Commit(k)), s)
    ensures ServerOk(Do(st, Commit(k)), s)
  {
    var y, t := st.syncs[k], Do(st, Commit(k));
    var gain := Recorded(Samples(ReadingsOf(y.listed), y.last), s);
    assert !Spoiled(st, s) && s !in Doubled(y.listed, y.last);
    assert ServerOk(st, s) && SyncOk(st, y);
    if s in MarksOf(y.listed) {
      CommitHasShape(st, y, t, s, gain);
      CommitKeepsListed(st, y, t, s, gain);
    } else {
      MissedGain(y, s);
      CommitHasShape(st, y, t, s, gain);
      MissedServerOk(st, MarksOf(y.listed), t, s);
    }
  }

  lemma CommitKeeps(st: State, k: SyncId)
    requires Invariant(st) && Enabled(st, Commit(k))
    ensures Invariant(Do(st, Commit(k)))
  {
    var t := Do(st, Commit(k));
    forall s: ServerId ensures Spoiled(t, s) || ServerOk(t, s) {
      if !Spoiled(t, s) {
        CommitKeepsServer(st, k, s);
      }
    }
    forall s: ServerId
      ensures (s in t.snapshot <==> s in t.marks) && (s in t.marks ==> t.snapshot[s] == t.marks[s].counters)
    {
      MarksHold(st.syncs[k].listed, s);
    }
    forall j | j in t.syncs ensures SyncOk(t, t.syncs[j]) {
      assert SyncOk(st, st.syncs[j]);
    }
  }

  lemma StepKeeps(st: State, step: Step)
    requires Invariant(st) && Enabled(st, step)
    ensures Invariant(Do(st, step))
  {
    match step
    case Read(k, s) => ReadKeeps(st, k, s);
    case Commit(k) => CommitKeeps(st, k);
    case Repoint(panel) => RepointKeeps(st, panel);
    case Traffic(_, _, _) => FlowKeeps(st, step);
    case ResetCounter(_, _, _) => FlowKeeps(st, step);
    case _ => QuietKeeps(st, Do(st, step));
  }

  // -------------------------------------------------------------- whole runs

  ghost predicate Init(st: State) {
    && st.snapshot == map[] && st.recorded == map[] && st.syncs == map[] && st.marks == map[] && st.base == map[]
    && st.wasReset == {} && st.wasMissed == {} && st.wasDoubled == {} && st.wasSwapped == {} && st.repoints == 0
  }

  ghost predicate Next(st: State, t: State) {
    exists step :: Enabled(st, step) && t == Do(st, step)
  }

  ghost predicate StepAt(sts: seq<State>, i: int) {
    0 <= i < |sts| - 1 && Next(sts[i], sts[i + 1])
  }

  ghost predicate Run(sts: seq<State>) {
    sts != [] && Init(sts[0]) && (forall i :: 0 <= i < |sts| - 1 ==> StepAt(sts, i))
  }

  ghost function Last(sts: seq<State>): State
    requires sts != []
  {
    sts[|sts| - 1]
  }

  lemma {:induction false} RunKeeps(sts: seq<State>, i: nat)
    requires Run(sts) && i < |sts|
    ensures Invariant(sts[i])
  {
    if i > 0 {
      RunKeeps(sts, i - 1);
      assert StepAt(sts, i - 1);
      var step :| Enabled(sts[i - 1], step) && sts[i] == Do(sts[i - 1], step);
      StepKeeps(sts[i - 1], step);
    }
  }

  /** Records stay within the true traffic since the first committed sighting. */
  ghost predicate WithinTraffic(st: State, s: ServerId) {
    Covered(st, s, MeterOf(st, s).total)
  }

  /** Never over-count, for a server whose listings no commit doubled and that was in the snapshot at no repoint. */
  lemma NeverOverCounts(sts: seq<State>, i: nat, s: ServerId)
    requires Run(sts) && i < |sts| && s !in sts[i].wasDoubled && s !in sts[i].wasSwapped
    ensures WithinTraffic(sts[i], s)
  {
    RunKeeps(sts, i);
    assert ServerOk(sts[i], s);
  }

  /**
   Nothing is lost either, if the server was also never reset and is in every
   commit since its first: records equal the traffic between its first and its
   last committed reading, whatever syncs failed or conflicted meanwhile.
   */
  lemma NothingLostWhenSteady(sts: seq<State>, i: nat, s: ServerId)
    requires Run(sts) && i < |sts| && s !in sts[i].wasDoubled && s !in sts[i].wasSwapped && Steady(sts[i], s)
    ensures s in sts[i].marks && Plus(RecordedOf(sts[i], s), sts[i].base[s]) == sts[i].marks[s].total
    ensures Exactly(sts[i].marks[s], MeterOf(sts[i], s))
  {
    RunKeeps(sts, i);
    assert ServerOk(sts[i], s);
  }

  // ---------------------------------------------------------- another panel

  lemma Extend(sts: seq<State>, t: State)
    requires Run(sts) && Next(Last(sts), t)
    ensures Run(sts + [t])
  {
    var ts := sts + [t];
    forall k | 0 <= k < |ts| - 1 ensures StepAt(ts, k) {
      if k < |sts| - 1 {
        assert StepAt(sts, k);
      }
    }
  }

  lemma ExtendByFour(sts: seq<State>, t: State, u: State, v: State, w: State)
    requires Run(sts) && Next(Last(sts), t) && Next(t, u) && Next(u, v) && Next(v, w)
    ensures Run(sts + [t, u, v, w])
  {
    Extend(sts, t);
    Extend(sts + [t], u);
    Extend(sts + [t] + [u], v);
    Extend(sts + [t] + [u] + [v], w);
    assert sts + [t] + [u] + [v] + [w] == sts + [t, u, v, w];
  }

  lemma {:induction false} UnusedId(ids: set<SyncId>) returns (k: SyncId)
    ensures forall i :: i in ids ==> i < k
  {
    if ids == {} {
      k := 0;
    } else {
      var x :| x in ids;
      var above := UnusedId(ids - {x});
      k := if above > x then above else x + 1;
      forall i | i in ids ensures i < k {
        assert i == x || i in ids - {x};
      }
    }
  }

  lemma Takes(st: State, step: Step)
    requires Enabled(st, step)
    ensures Next(st, Do(st, step))
  {
  }

  lemma OneListing(x: Listing, s: ServerId, up: bool, prev: nat)
    ensures Listings(ReadingsOf([x]), s, up) == if x.server == s then [Side(x.meter.counters, up)] else []
    ensures var cs := Listings(ReadingsOf([x]), s, up);
      && FromBase(prev, cs) == StepByStep(prev, cs)
      && (x.server == s ==> FromBase(prev, cs) == Delta(prev, Side(x.meter.counters, up)))
  {
    assert [] + [x] == [x];
    ListingsOfSnoc([], x, s, up);
    if x.server == s {
      var none: seq<nat> := [];
      assert none + [Side(x.meter.counters, up)] == [Side(x.meter.counters, up)];
      StepSnoc(prev, none, Side(x.meter.counters, up));
    }
  }

  lemma OneDoublesNothing(x: Listing, last: Snapshot)
    ensures Doubled([x], last) == {}
  {
    forall s | s in last ensures !Doubles([x], last, s) {
      OneListing(x, s, true, last[s].up);
      OneListing(x, s, false, last[s].down);
    }
  }

  /** Committing a sync that read only `s`. */
  lemma CommitOne(st: State, y: Sync, t: State, s: ServerId, m: Meter)
    requires t == Committed(st, y).(syncs := t.syncs) && y.listed == [Listing(s, m)] && s in y.last
    ensures t.meters == st.meters && t.repoints == st.repoints && t.wasDoubled == st.wasDoubled && s in t.base
    ensures RecordedOf(t, s).up == RecordedOf(st, s).up + Delta(y.last[s].up, m.counters.up)
  {
    var gain := Recorded(Samples(ReadingsOf(y.listed), y.last), s);
    MarksSnoc([], Listing(s, m));
    assert [] + [Listing(s, m)] == y.listed;
    CommitHasShape(st, y, t, s, gain);
    OneDoublesNothing(Listing(s, m), y.last);
    RecordedPerListing(ReadingsOf(y.listed), y.last, s, true);
    OneListing(Listing(s, m), s, true, y.last[s].up);
  }

  /** A sync that begins now and reads only `s`. */
  lemma ReadsOne(st: State, k: SyncId, s: ServerId) returns (u: State, v: State)
    requires k !in st.syncs
    ensures Next(st, u) && Next(u, v) && v == st.(syncs := v.syncs) && Enabled(v, Commit(k))
    ensures v.syncs[k] == Sync(st.revision, st.snapshot, [Listing(s, MeterOf(st, s))])
  {
    Takes(st, Begin(k));
    u := Do(st, Begin(k));
    Takes(u, Read(k, s));
    v := Do(u, Read(k, s));
    var none: seq<Listing> := [];
    assert none + [Listing(s, MeterOf(st, s))] == [Listing(s, MeterOf(st, s))];
  }

  lemma OverCountingSync(st: State, s: ServerId)
    returns (panel: map<ServerId, Counters>, t: State, u: State, v: State, w: State)
    requires SnapshotOk(st) && s in st.snapshot
    ensures t == Do(st, Repoint(panel)) && Next(st, t) && Next(t, u) && Next(u, v) && Next(v, w)
    ensures w.repoints == st.repoints + 1 && w.wasDoubled == st.wasDoubled
    ensures MeterOf(w, s).total == MeterOf(st, s).total && !WithinTraffic(w, s)
  {
    var k := UnusedId(st.syncs.Keys);
    panel := map[s := Counters(st.snapshot[s].up + MeterOf(st, s).total.up + 1, 0)];
    Takes(st, Repoint(panel));
    t := Do(st, Repoint(panel));
    assert k !in t.syncs && MeterOf(t, s) == Meter(panel[s], MeterOf(st, s).total);
    u, v := ReadsOne(t, k, s);
    Takes(v, Commit(k));
    w := Do(v, Commit(k));
    CommitOne(v, v.syncs[k], w, s, MeterOf(t, s));
  }

  /** Pointing the source at a panel that reuses the id of a server in the snapshot can record traffic nobody had. */
  lemma RepointOverCounts(sts: seq<State>, s: ServerId) returns (ts: seq<State>, panel: map<ServerId, Counters>)
    requires Run(sts) && s in Last(sts).snapshot
    ensures Run(ts) && sts <= ts && |ts| == |sts| + 4 && ts[|sts|] == Do(Last(sts), Repoint(panel))
    ensures Last(ts).repoints == Last(sts).repoints + 1 && Last(ts).wasDoubled == Last(sts).wasDoubled
    ensures MeterOf(Last(ts), s).total == MeterOf(Last(sts), s).total && !WithinTraffic(Last(ts), s)
  {
    RunKeeps(sts, |sts| - 1);
    var t, u, v, w;
    panel, t, u, v, w := OverCountingSync(Last(sts), s);
    ExtendByFour(sts, t, u, v, w);
    ts := sts + [t, u, v, w];
  }

  lemma CommitKeepsMeters(st: State, k: SyncId)
    requires Enabled(st, Commit(k))
    ensures var t := Do(st, Commit(k));
      t.meters == st.meters && t.snapshot == NewSnapshot(ReadingsOf(st.syncs[k].listed))
  {
  }

  lemma FirstSync() returns (start: State, u: State, v: State, w: State)
    ensures Init(start) && Next(start, u) && Next(u, v) && Next(v, w)
    ensures 1 in w.snapshot && MeterOf(w, 1).total == Zero()
  {
    start := State(map[], 0, map[], map[], map[1 := Meter(Counters(100, 0), Zero())], map[], map[], {}, {}, {}, {}, 0);
    u, v := ReadsOne(start, 0, 1);
    Takes(v, Commit(0));
    w := Do(v, Commit(0));
    CommitKeepsMeters(v, 0);
    assert Listing(1, MeterOf(start, 1)) in v.syncs[0].listed;
    MarksHold(v.syncs[0].listed, 1);
  }

  /** A whole run, without any traffic, that ends with traffic on record. */
  lemma OverCountingRun() returns (ts: seq<State>)
    ensures Run(ts) && MeterOf(Last(ts), 1).total == Zero() && !WithinTraffic(Last(ts), 1)
  {
    var start, u, v, w := FirstSync();
    Extend([start], u);
    Extend([start] + [u], v);
    Extend([start] + [u] + [v], w);
    var panel;
    ts, panel := RepointOverCounts([start] + [u] + [v] + [w], 1);
  }

  /** The next step points the source at another panel, and no later one does. */
  ghost predicate RepointsOnce(sts: seq<State>, ts: seq<State>) {
    && Run(sts) && Run(ts) && sts <= ts && |ts| > |sts|
    && (exists panel :: ts[|sts|] == Do(Last(sts), Repoint(panel)))
    && Last(ts).repoints == Last(sts).repoints + 1
  }

  lemma StepSwaps(st: State, step: Step)
    requires Enabled(st, step)
    ensures var t := Do(st, step);
      (t.repoints == st.repoints && t.wasSwapped == st.wasSwapped) || t.repoints == st.repoints + 1
  {
  }

  lemma {:induction false} SwapsNeedRepoints(ts: seq<State>, i: nat, j: nat)
    requires Run(ts) && i <= j < |ts|
    ensures ts[i].repoints <= ts[j].repoints
    ensures ts[i].repoints == ts[j].repoints ==> ts[i].wasSwapped == ts[j].wasSwapped
    decreases j - i
  {
    if i < j {
      SwapsNeedRepoints(ts, i, j - 1);
      assert StepAt(ts, j - 1);
      var step :| Enabled(ts[j - 1], step) && ts[j] == Do(ts[j - 1], step);
      StepSwaps(ts[j - 1], step);
    }
  }

  /** A repoint keeps a server's account safe, whatever panel it leads to, exactly when it is not in the snapshot. */
  lemma RepointSafeExactlyWhen(sts: seq<State>, s: ServerId)
    requires Run(sts) && s !in Last(sts).wasDoubled && s !in Last(sts).wasSwapped
    ensures s !in Last(sts).snapshot <==>
      forall ts :: RepointsOnce(sts, ts) && s !in Last(ts).wasDoubled ==> WithinTraffic(Last(ts), s)
  {
    if s in Last(sts).snapshot {
      var ts, panel := RepointOverCounts(sts, s);
      assert RepointsOnce(sts, ts);
    } else {
      forall ts | RepointsOnce(sts, ts) && s !in Last(ts).wasDoubled ensures WithinTraffic(Last(ts), s) {
        SwapsNeedRepoints(ts, |sts|, |ts| - 1);
        NeverOverCounts(ts, |ts| - 1, s);
      }
    }
  }

  // ------------------------------------------------------------- stale syncs

  lemma RevisionAfter(st: State, step: Step)
    requires Enabled(st, step)
    ensures Do(st, step).revision == st.revision + if Rewrites(step) then 1 else 0
  {
  }

  lemma RevisionStep(st: State, t: State)
    requires Next(st, t)
    ensures st.revision <= t.revision
  {
    var step :| Enabled(st, step) && t == Do(st, step);
    RevisionAfter(st, step);
  }

  lemma {:induction false} RevisionGrows(sts: seq<State>, i: nat, j: nat)
    requires Run(sts) && i <= j < |sts|
    ensures sts[i].revision <= sts[j].revision
    decreases j
  {
    if i < j {
      RevisionGrows(sts, i, j - 1);
      assert StepAt(sts, j - 1);
      RevisionStep(sts[j - 1], sts[j]);
    }
  }

  /** Steps that rewrite the source's row. */
  predicate Rewrites(step: Step) {
    step.Edit? || step.Repoint? || step.Commit? || (step.Fail? && step.noted)
  }

  /** A sync that read the row before somebody rewrote it neither commits nor notes its failure, ever after. */
  lemma StaleSyncNeverCommits(sts: seq<State>, i: nat, j: nat, step: Step, k: SyncId)
    requires Run(sts) && i < j < |sts| && Rewrites(step) && Enabled(sts[i], step) && sts[i + 1] == Do(sts[i], step)
    requires k in sts[j].syncs && sts[j].syncs[k].revision <= sts[i].revision
    ensures !Enabled(sts[j], Commit(k)) && !Enabled(sts[j], Fail(k, true))
  {
    RevisionAfter(sts[i], step);
    RevisionGrows(sts, i + 1, j);
  }
}
