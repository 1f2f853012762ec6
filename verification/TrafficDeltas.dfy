/**
 Three panel adapters turn cumulative, resettable counters into traffic samples
 against the last snapshot. They share one rule, read here as a function and
 proved to be the largest amount that can never over-count.
 */
module TrafficDeltas {
  /** A server's identity on its panel; only equality matters. */
  type ServerId = nat

  datatype Counters = Counters(up: nat, down: nat)

  type Snapshot = map<ServerId, Counters>

  datatype Reading = Reading(server: ServerId, counters: Counters)

  datatype Sample = Sample(server: ServerId, upload: nat, download: nat)

  // ------------------------------------------------------------ the one rule

  /** A counter that went down was reset: its new value is all that is known. */
  function Delta(prev: nat, cur: nat): nat {
    if cur >= prev then cur - prev else cur
  }

  /** What happens to a counter between two readings. */
  datatype Event = Add(n: nat) | Reset

  function After(c: nat, events: seq<Event>): nat {
    if events == [] then c
    else
      var before := After(c, events[..|events| - 1]);
      match events[|events| - 1] { case Add(n) => before + n case Reset => 0 }
  }

  function Total(events: seq<Event>): nat {
    if events == [] then 0
    else Total(events[..|events| - 1]) + match events[|events| - 1] { case Add(n) => n case Reset => 0 }
  }

  /** The delta never exceeds the traffic of any history that explains the two readings. */
  lemma {:induction false} DeltaNeverOverCounts(prev: nat, events: seq<Event>)
    ensures Delta(prev, After(prev, events)) <= Total(events)
  {
    if events != [] {
      DeltaNeverOverCounts(prev, events[..|events| - 1]);
    }
  }

  lemma LeastHistory(prev: nat, cur: nat) returns (events: seq<Event>)
    ensures After(prev, events) == cur && Total(events) == Delta(prev, cur)
  {
    if cur >= prev {
      events := [Add(cur - prev)];
      assert events[..0] == [];
    } else {
      events := [Reset, Add(cur)];
      assert events[..1] == [Reset] && [Reset][..0] == [];
      assert After(prev, [Reset]) == 0 && Total([Reset]) == 0;
    }
  }

  /** An amount that no history taking the counter from `prev` to `cur` falls short of. */
  ghost predicate SafeAmount(prev: nat, cur: nat, amount: nat) {
    forall events :: After(prev, events) == cur ==> amount <= Total(events)
  }

  /** And some history has exactly that much, so no larger amount would be safe. */
  lemma DeltaIsLargestSafe(prev: nat, cur: nat, amount: nat)
    ensures SafeAmount(prev, cur, amount) <==> amount <= Delta(prev, cur)
  {
    if amount <= Delta(prev, cur) {
      forall events | After(prev, events) == cur ensures amount <= Total(events) {
        DeltaNeverOverCounts(prev, events);
      }
    } else {
      var events := LeastHistory(prev, cur);
      assert After(prev, events) == cur && amount > Total(events);
    }
  }

  /** A first sighting records the baseline only. */
  function Deltas(last: Snapshot, r: Reading): Counters {
    if r.server in last then
      Counters(Delta(last[r.server].up, r.counters.up), Delta(last[r.server].down, r.counters.down))
    else Counters(0, 0)
  }

  function SampleOf(last: Snapshot, r: Reading): seq<Sample> {
    var d := Deltas(last, r);
    if d.up > 0 || d.down > 0 then [Sample(r.server, d.up, d.down)] else []
  }

  function Samples(readings: seq<Reading>, last: Snapshot): seq<Sample> {
    if readings == [] then []
    else Samples(readings[..|readings| - 1], last) + SampleOf(last, readings[|readings| - 1])
  }

  function NewSnapshot(readings: seq<Reading>): Snapshot {
    if readings == [] then map[]
    else
      var r := readings[|readings| - 1];
      NewSnapshot(readings[..|readings| - 1])[r.server := r.counters]
  }

  lemma SamplesSnoc(rs: seq<Reading>, r: Reading, last: Snapshot)
    ensures Samples(rs + [r], last) == Samples(rs, last) + SampleOf(last, r)
    ensures NewSnapshot(rs + [r]) == NewSnapshot(rs)[r.server := r.counters]
  {
    assert (rs + [r])[..|rs|] == rs;
  }

  /** A sample is there for each reading of a known server whose counters moved. */
  lemma {:induction false} SamplesMeaning(rs: seq<Reading>, last: Snapshot, x: Sample)
    ensures x in Samples(rs, last) <==> exists r :: r in rs && SampleOf(last, r) == [x]
  {
    if rs != [] {
      var front, y := rs[..|rs| - 1], rs[|rs| - 1];
      assert rs == front + [y];
      SamplesMeaning(front, last, x);
      assert x in SampleOf(last, y) <==> SampleOf(last, y) == [x];
    }
  }

  /** The snapshot has exactly the servers read, each with a reading of its own. */
  lemma {:induction false} SnapshotMeaning(rs: seq<Reading>, s: ServerId)
    ensures s in NewSnapshot(rs) <==> exists r :: r in rs && r.server == s
    ensures s in NewSnapshot(rs) ==> Reading(s, NewSnapshot(rs)[s]) in rs
  {
    if rs != [] {
      var front, y := rs[..|rs| - 1], rs[|rs| - 1];
      assert rs == front + [y];
      SnapshotMeaning(front, s);
      if s == y.server {
        assert y in rs;
      }
    }
  }

  /** The sample of a reading: both directions measured from the last snapshot, if either moved. */
  ghost predicate Reports(r: Reading, last: Snapshot, x: Sample) {
    && r.server in last && (x.upload > 0 || x.download > 0)
    && x == Sample(r.server, Delta(last[r.server].up, r.counters.up), Delta(last[r.server].down, r.counters.down))
  }

  /** The samples are exactly those of the listed readings, and the snapshot has exactly the listed servers. */
  ghost predicate Accounts(listed: Reading -> bool, last: Snapshot, samples: seq<Sample>, snapshot: Snapshot) {
    && (forall x :: x in samples <==> exists r :: listed(r) && Reports(r, last, x))
    && (forall id :: id in snapshot ==> listed(Reading(id, snapshot[id])))
    && (forall r :: listed(r) ==> r.server in snapshot)
  }

  lemma AccountsFor(rs: seq<Reading>, last: Snapshot, listed: Reading -> bool)
    requires forall r :: r in rs <==> listed(r)
    ensures Accounts(listed, last, Samples(rs, last), NewSnapshot(rs))
  {
    forall x ensures x in Samples(rs, last) <==> exists r :: listed(r) && Reports(r, last, x) {
      SamplesMeaning(rs, last, x);
      if r :| r in rs && SampleOf(last, r) == [x] {
        assert listed(r) && Reports(r, last, x);
      }
      if r :| listed(r) && Reports(r, last, x) {
        assert r in rs && SampleOf(last, r) == [x];
      }
    }
    forall s: ServerId ensures s in NewSnapshot(rs) ==> listed(Reading(s, NewSnapshot(rs)[s])) {
      SnapshotMeaning(rs, s);
    }
    forall r | listed(r) ensures r.server in NewSnapshot(rs) {
      SnapshotMeaning(rs, r.server);
    }
  }

  // ------------------------------------------------------------ the adapters

  datatype NezhaServer = NezhaServer(id: ServerId, netIn: nat, netOut: nat)

  /** A server counts traffic into it as upload, out of it as download. */
  ghost predicate NezhaListed(servers: seq<NezhaServer>, r: Reading) {
    exists i :: 0 <= i < |servers| && servers[i] == NezhaServer(r.server, r.counters.up, r.counters.down)
  }

  lemma NezhaReadingsListed(servers: seq<NezhaServer>, r: Reading)
    ensures r in NezhaReadings(servers) <==> NezhaListed(servers, r)
  {
    var rs := NezhaReadings(servers);
    if i :| 0 <= i < |servers| && servers[i] == NezhaServer(r.server, r.counters.up, r.counters.down) {
      assert rs[i] == r;
    }
  }

  function NezhaReadings(servers: seq<NezhaServer>): (rs: seq<Reading>)
    ensures |rs| == |servers|
  {
    seq(|servers|, i requires 0 <= i < |servers| =>
      Reading(servers[i].id, Counters(servers[i].netIn, servers[i].netOut)))
  }

  lemma NezhaAccounts(servers: seq<NezhaServer>, last: Snapshot)
    ensures Accounts(r => NezhaListed(servers, r), last,
                     Samples(NezhaReadings(servers), last), NewSnapshot(NezhaReadings(servers)))
  {
    forall r ensures r in NezhaReadings(servers) <==> NezhaListed(servers, r) {
      NezhaReadingsListed(servers, r);
    }
    AccountsFor(NezhaReadings(servers), last, r => NezhaListed(servers, r));
  }

  /** Nezha: `compute_samples`. */
  method NezhaSamples(servers: seq<NezhaServer>, last: Snapshot) returns (samples: seq<Sample>, snapshot: Snapshot)
    ensures samples == Samples(NezhaReadings(servers), last)
    ensures snapshot == NewSnapshot(NezhaReadings(servers))
    ensures Accounts(r => NezhaListed(servers, r), last, samples, snapshot)
  {
    samples, snapshot := [], map[];
    ghost var rs := NezhaReadings(servers);
    for i := 0 to |servers|
      invariant samples == Samples(rs[..i], last) && snapshot == NewSnapshot(rs[..i])
    {
      assert rs[..i + 1] == rs[..i] + [rs[i]];
      SamplesSnoc(rs[..i], rs[i], last);
      var srv := servers[i];
      var deltaIn, deltaOut := 0, 0;
      if srv.id in last {
        var prev := last[srv.id];
        deltaIn := if srv.netIn >= prev.up then srv.netIn - prev.up else srv.netIn;
        deltaOut := if srv.netOut >= prev.down then srv.netOut - prev.down else srv.netOut;
      }
      snapshot := snapshot[srv.id := Counters(srv.netIn, srv.netOut)];
      if deltaIn > 0 || deltaOut > 0 {
        samples := samples + [Sample(srv.id, deltaIn, deltaOut)];
      }
    }
    assert rs[..|servers|] == rs;
    NezhaAccounts(servers, last);
  }

  datatype Fetch = FetchFailed | NoRecord | Latest(netIn: nat, netOut: nat)

  datatype KomariResult = KomariResult(uuid: ServerId, fetch: Fetch)

  /** Failed fetches and nodes without a record are passed over. */
  function KomariReadings(results: seq<KomariResult>): seq<Reading> {
    if results == [] then []
    else
      var r := results[|results| - 1];
      KomariReadings(results[..|results| - 1])
      + if r.fetch.Latest? then [Reading(r.uuid, Counters(r.fetch.netIn, r.fetch.netOut))] else []
  }

  ghost predicate KomariListed(results: seq<KomariResult>, r: Reading) {
    exists i :: 0 <= i < |results| && results[i] == KomariResult(r.server, Latest(r.counters.up, r.counters.down))
  }

  lemma {:induction false} KomariReadingsListed(results: seq<KomariResult>, r: Reading)
    ensures r in KomariReadings(results) <==> KomariListed(results, r)
  {
    if results != [] {
      var front, n := results[..|results| - 1], |results| - 1;
      KomariReadingsListed(front, r);
      var want := KomariResult(r.server, Latest(r.counters.up, r.counters.down));
      if i :| 0 <= i < |results| && results[i] == want {
        assert i < n ==> front[i] == want;
      }
      if i :| 0 <= i < |front| && front[i] == want {
        assert results[i] == want;
      }
      assert r in KomariReadings(results) <==> r in KomariReadings(front) || results[n] == want;
    }
  }

  lemma KomariSnoc(results: seq<KomariResult>, x: KomariResult, last: Snapshot)
    ensures !x.fetch.Latest? ==> KomariReadings(results + [x]) == KomariReadings(results)
    ensures x.fetch.Latest? ==>
      var r := Reading(x.uuid, Counters(x.fetch.netIn, x.fetch.netOut));
      && Samples(KomariReadings(results + [x]), last) == Samples(KomariReadings(results), last) + SampleOf(last, r)
      && NewSnapshot(KomariReadings(results + [x])) == NewSnapshot(KomariReadings(results))[x.uuid := r.counters]
  {
    assert (results + [x])[..|results|] == results;
    if x.fetch.Latest? {
      SamplesSnoc(KomariReadings(results), Reading(x.uuid, Counters(x.fetch.netIn, x.fetch.netOut)), last);
    }
  }

  lemma KomariAccounts(results: seq<KomariResult>, last: Snapshot)
    ensures Accounts(r => KomariListed(results, r), last,
                     Samples(KomariReadings(results), last), NewSnapshot(KomariReadings(results)))
  {
    forall r ensures r in KomariReadings(results) <==> KomariListed(results, r) {
      KomariReadingsListed(results, r);
    }
    AccountsFor(KomariReadings(results), last, r => KomariListed(results, r));
  }

  /** Komari: the result loop of `sync_traffic`. */
  method KomariSamples(results: seq<KomariResult>, last: Snapshot) returns (samples: seq<Sample>, snapshot: Snapshot)
    ensures samples == Samples(KomariReadings(results), last)
    ensures snapshot == NewSnapshot(KomariReadings(results))
    ensures Accounts(r => KomariListed(results, r), last, samples, snapshot)
  {
    samples, snapshot := [], map[];
    for i := 0 to |results|
      invariant samples == Samples(KomariReadings(results[..i]), last)
      invariant snapshot == NewSnapshot(KomariReadings(results[..i]))
    {
      assert results[..i + 1] == results[..i] + [results[i]];
      KomariSnoc(results[..i], results[i], last);
      var uuid, latest := results[i].uuid, results[i].fetch;
      if latest.FetchFailed? {
        continue;
      }
      if latest.NoRecord? {
        continue;
      }
      var deltaIn, deltaOut := 0, 0;
      if uuid in last {
        var prev := last[uuid];
        deltaIn := if latest.netIn >= prev.up then latest.netIn - prev.up else latest.netIn;
        deltaOut := if latest.netOut >= prev.down then latest.netOut - prev.down else latest.netOut;
      }
      snapshot := snapshot[uuid := Counters(latest.netIn, latest.netOut)];
      if deltaIn > 0 || deltaOut > 0 {
        samples := samples + [Sample(uuid, deltaIn, deltaOut)];
      }
    }
    assert results[..|results|] == results;
    KomariAccounts(results, last);
  }

  datatype DStatusNode = DStatusNode(id: ServerId, used: nat)

  /** One combined counter per node, reported as download. */
  function DStatusReadings(nodes: seq<DStatusNode>): (rs: seq<Reading>)
    ensures |rs| == |nodes|
  {
    seq(|nodes|, i requires 0 <= i < |nodes| => Reading(nodes[i].id, Counters(0, nodes[i].used)))
  }

  ghost predicate DStatusListed(nodes: seq<DStatusNode>, r: Reading) {
    r.counters.up == 0 && exists i :: 0 <= i < |nodes| && nodes[i] == DStatusNode(r.server, r.counters.down)
  }

  lemma DStatusReadingsListed(nodes: seq<DStatusNode>, r: Reading)
    ensures r in DStatusReadings(nodes) <==> DStatusListed(nodes, r)
  {
    var rs := DStatusReadings(nodes);
    if r.counters.up == 0 {
      if i :| 0 <= i < |nodes| && nodes[i] == DStatusNode(r.server, r.counters.down) {
        assert rs[i] == r;
      }
    }
  }

  function AsCounters(used: map<ServerId, nat>): Snapshot {
    map id | id in used :: Counters(0, used[id])
  }

  lemma DStatusAccounts(nodes: seq<DStatusNode>, last: Snapshot)
    ensures Accounts(r => DStatusListed(nodes, r), last,
                     Samples(DStatusReadings(nodes), last), NewSnapshot(DStatusReadings(nodes)))
  {
    forall r ensures r in DStatusReadings(nodes) <==> DStatusListed(nodes, r) {
      DStatusReadingsListed(nodes, r);
    }
    AccountsFor(DStatusReadings(nodes), last, r => DStatusListed(nodes, r));
  }

  /** DStatus: the node loop of `sync_traffic`, over the response map in any order. */
  method DStatusSamples(nodes: seq<DStatusNode>, last: map<ServerId, nat>)
    returns (samples: seq<Sample>, snapshot: map<ServerId, nat>)
    ensures samples == Samples(DStatusReadings(nodes), AsCounters(last))
    ensures AsCounters(snapshot) == NewSnapshot(DStatusReadings(nodes))
    ensures Accounts(r => DStatusListed(nodes, r), AsCounters(last), samples, AsCounters(snapshot))
    ensures forall x :: x in samples ==> x.upload == 0
  {
    samples, snapshot := [], map[];
    ghost var rs := DStatusReadings(nodes);
    for i := 0 to |nodes|
      invariant samples == Samples(rs[..i], AsCounters(last)) && AsCounters(snapshot) == NewSnapshot(rs[..i])
    {
      assert rs[..i + 1] == rs[..i] + [rs[i]];
      SamplesSnoc(rs[..i], rs[i], AsCounters(last));
      var id, used := nodes[i].id, nodes[i].used;
      var delta := if id in last && used >= last[id] then used - last[id] else if id in last then used else 0;
      assert AsCounters(snapshot[id := used]) == AsCounters(snapshot)[id := Counters(0, used)];
      snapshot := snapshot[id := used];
      if delta > 0 {
        samples := samples + [Sample(id, 0, delta)];
      }
    }
    assert rs[..|nodes|] == rs;
    DStatusAccounts(nodes, AsCounters(last));
  }

  // ------------------------------------------------- one server in one sync

  /** What a list of samples records for one server. */
  function Recorded(samples: seq<Sample>, s: ServerId): Counters {
    if samples == [] then Counters(0, 0)
    else
      var rest, x := Recorded(samples[..|samples| - 1], s), samples[|samples| - 1];
      if x.server == s then Counters(rest.up + x.upload, rest.down + x.download) else rest
  }

  function Plus(a: Counters, b: Counters): Counters {
    Counters(a.up + b.up, a.down + b.down)
  }

  lemma {:induction false} RecordedAppend(a: seq<Sample>, b: seq<Sample>, s: ServerId)
    ensures Recorded(a + b, s) == Plus(Recorded(a, s), Recorded(b, s))
  {
    if b == [] {
      assert a + b == a;
    } else {
      assert (a + b)[..|a + b| - 1] == a + b[..|b| - 1];
      RecordedAppend(a, b[..|b| - 1], s);
    }
  }

  lemma RecordedOne(last: Snapshot, r: Reading, s: ServerId)
    ensures Recorded(SampleOf(last, r), s) == if r.server == s then Deltas(last, r) else Counters(0, 0)
  {
    var x := SampleOf(last, r);
    if x != [] {
      assert x[..0] == [];
    }
  }

  lemma RecordedSnoc(front: seq<Reading>, x: Reading, last: Snapshot, s: ServerId)
    ensures var before := Recorded(Samples(front, last), s);
      Recorded(Samples(front + [x], last), s) == if x.server == s then Plus(before, Deltas(last, x)) else before
  {
    SamplesSnoc(front, x, last);
    RecordedAppend(Samples(front, last), SampleOf(last, x), s);
    RecordedOne(last, x, s);
  }

  // ------------------------------------------- a server listed several times

  function Side(c: Counters, up: bool): nat {
    if up then c.up else c.down
  }

  /** One direction of a server's listings, in order. */
  function Listings(readings: seq<Reading>, s: ServerId, up: bool): seq<nat> {
    if readings == [] then []
    else
      var x := readings[|readings| - 1];
      Listings(readings[..|readings| - 1], s, up) + if x.server == s then [Side(x.counters, up)] else []
  }

  /** Every listing measured from the old snapshot: what a sync records. */
  function FromBase(prev: nat, cs: seq<nat>): nat {
    if cs == [] then 0 else FromBase(prev, cs[..|cs| - 1]) + Delta(prev, cs[|cs| - 1])
  }

  function LastOf(prev: nat, cs: seq<nat>): nat {
    if cs == [] then prev else cs[|cs| - 1]
  }

  /** Every listing measured from the one before it. */
  function StepByStep(prev: nat, cs: seq<nat>): nat {
    if cs == [] then 0
    else
      StepByStep(prev, cs[..|cs| - 1]) + Delta(LastOf(prev, cs[..|cs| - 1]), cs[|cs| - 1])
  }

  lemma ListingsSnoc(front: seq<Reading>, x: Reading, s: ServerId, up: bool, prev: nat)
    ensures FromBase(prev, Listings(front + [x], s, up))
         == FromBase(prev, Listings(front, s, up)) + if x.server == s then Delta(prev, Side(x.counters, up)) else 0
  {
    assert (front + [x])[..|front|] == front;
    var cs := Listings(front, s, up);
    if x.server == s {
      assert (cs + [Side(x.counters, up)])[..|cs|] == cs;
    } else {
      assert cs + [] == cs;
    }
  }

  /** A sync records each listing of a known server against the same old reading. */
  lemma {:induction false} RecordedPerListing(readings: seq<Reading>, last: Snapshot, s: ServerId, up: bool)
    ensures Side(Recorded(Samples(readings, last), s), up)
         == if s in last then FromBase(Side(last[s], up), Listings(readings, s, up)) else 0
  {
    if readings != [] {
      var front, x := readings[..|readings| - 1], readings[|readings| - 1];
      assert readings == front + [x];
      RecordedPerListing(front, last, s, up);
      RecordedSnoc(front, x, last, s);
      if s in last {
        ListingsSnoc(front, x, s, up, Side(last[s], up));
      }
    }
  }

  /** Stretches of a counter's history, each ending at the next listed value. */
  ghost predicate Through(prev: nat, hs: seq<seq<Event>>, cs: seq<nat>) {
    && |hs| == |cs|
    && (cs != [] ==>
          && Through(prev, hs[..|hs| - 1], cs[..|cs| - 1])
          && After(LastOf(prev, cs[..|cs| - 1]), hs[|hs| - 1]) == cs[|cs| - 1])
  }

  ghost function TotalOf(hs: seq<seq<Event>>): nat {
    if hs == [] then 0 else TotalOf(hs[..|hs| - 1]) + Total(hs[|hs| - 1])
  }

  /** An amount that no history through the listed values falls short of. */
  ghost predicate SafeThrough(prev: nat, cs: seq<nat>, amount: nat) {
    forall hs :: Through(prev, hs, cs) ==> amount <= TotalOf(hs)
  }

  lemma {:induction false} StepsNeverOverCount(prev: nat, hs: seq<seq<Event>>, cs: seq<nat>)
    requires Through(prev, hs, cs)
    ensures StepByStep(prev, cs) <= TotalOf(hs)
  {
    if cs != [] {
      var front, n := cs[..|cs| - 1], |cs| - 1;
      StepsNeverOverCount(prev, hs[..n], front);
      DeltaNeverOverCounts(LastOf(prev, front), hs[n]);
    }
  }

  lemma {:induction false} LeastHistories(prev: nat, cs: seq<nat>) returns (hs: seq<seq<Event>>)
    ensures Through(prev, hs, cs) && TotalOf(hs) == StepByStep(prev, cs)
  {
    if cs == [] {
      hs := [];
    } else {
      var front, n := cs[..|cs| - 1], |cs| - 1;
      var early := LeastHistories(prev, front);
      var late := LeastHistory(LastOf(prev, front), cs[n]);
      hs := early + [late];
      assert hs[..n] == early;
    }
  }

  lemma StepsAreLargestSafe(prev: nat, cs: seq<nat>, amount: nat)
    ensures SafeThrough(prev, cs, amount) <==> amount <= StepByStep(prev, cs)
  {
    if amount <= StepByStep(prev, cs) {
      forall hs | Through(prev, hs, cs) ensures amount <= TotalOf(hs) {
        StepsNeverOverCount(prev, hs, cs);
      }
    } else {
      var hs := LeastHistories(prev, cs);
      assert Through(prev, hs, cs) && amount > TotalOf(hs);
    }
  }

  /**
   One sync records a safe amount for a server it knows exactly when measuring every
   listing from the old snapshot adds up to no more than measuring each from the one
   before. A panel that repeats a server breaks the "never double-count" promise.
   */
  lemma NoDoubleCountExactlyWhen(readings: seq<Reading>, last: Snapshot, s: ServerId, up: bool)
    requires s in last
    ensures var prev, cs := Side(last[s], up), Listings(readings, s, up);
      SafeThrough(prev, cs, Side(Recorded(Samples(readings, last), s), up))
      <==> FromBase(prev, cs) <= StepByStep(prev, cs)
  {
    RecordedPerListing(readings, last, s, up);
    StepsAreLargestSafe(Side(last[s], up), Listings(readings, s, up), Side(Recorded(Samples(readings, last), s), up));
  }

  /** So listing it at most once is safe, and repeating one reading is safe only if it is nothing new. */
  lemma {:induction false} EqualListingsExactlyWhen(prev: nat, cs: seq<nat>)
    requires forall i :: 0 <= i < |cs| ==> cs[i] == cs[0]
    ensures FromBase(prev, cs) <= StepByStep(prev, cs) <==> |cs| <= 1 || Delta(prev, cs[0]) == 0
    ensures cs != [] ==> FromBase(prev, cs) >= Delta(prev, cs[0]) && StepByStep(prev, cs) == Delta(prev, cs[0])
  {
    if cs != [] {
      EqualListingsExactlyWhen(prev, cs[..|cs| - 1]);
    }
  }

  lemma TwiceListed(last: Snapshot, r: Reading)
    ensures Recorded(Samples([r, r], last), r.server) == Plus(Deltas(last, r), Deltas(last, r))
  {
    assert [] + [r] == [r] && [r] + [r] == [r, r];
    RecordedSnoc([], r, last, r.server);
    RecordedSnoc([r], r, last, r.server);
  }

  /** A concrete repeated listing: 50 new bytes are recorded as 100. */
  lemma RepeatedListingDoubleCounts(last: Snapshot, r: Reading)
    requires last == map[7 := Counters(100, 0)] && r == Reading(7, Counters(150, 0))
    ensures Recorded(Samples([r, r], last), 7) == Counters(100, 0) && Deltas(last, r) == Counters(50, 0)
  {
    TwiceListed(last, r);
  }

  // ------------------------------------------------------ order of completion

  /** Repeated listings of a server agree. */
  ghost predicate Consistent(readings: seq<Reading>) {
    forall a, b :: a in readings && b in readings && a.server == b.server ==> a == b
  }

  lemma {:induction false} SnapshotHolds(readings: seq<Reading>, s: ServerId)
    ensures s in NewSnapshot(readings) <==> exists r :: r in readings && r.server == s
    ensures s in NewSnapshot(readings) ==> Reading(s, NewSnapshot(readings)[s]) in readings
  {
    if readings != [] {
      var front, x := readings[..|readings| - 1], readings[|readings| - 1];
      SnapshotHolds(front, s);
      assert readings == front + [x];
      if x.server == s {
        assert x in readings;
      }
    }
  }

  lemma PickOut<T>(b: seq<T>, x: T) returns (l: seq<T>, r: seq<T>)
    requires x in multiset(b)
    ensures b == l + [x] + r && multiset(l + r) == multiset(b) - multiset{x}
  {
    var k :| 0 <= k < |b| && b[k] == x;
    l, r := b[..k], b[k + 1..];
    assert b == l + [x] + r;
  }

  lemma {:induction false} SamplesMultiset(a: seq<Reading>, b: seq<Reading>, last: Snapshot)
    requires multiset(a) == multiset(b)
    ensures multiset(Samples(a, last)) == multiset(Samples(b, last))
    decreases |a|
  {
    assert |multiset(a)| == |a| && |multiset(b)| == |b|;
    if a != [] {
      var front, x := a[..|a| - 1], a[|a| - 1];
      assert a == front + [x];
      var l, r := PickOut(b, x);
      SamplesMultiset(front, l + r, last);
      SamplesSplit(l, x, r, last);
    }
  }

  lemma {:induction false} SamplesSplit(a: seq<Reading>, x: Reading, b: seq<Reading>, last: Snapshot)
    ensures multiset(Samples(a + [x] + b, last)) == multiset(Samples(a + b, last)) + multiset(SampleOf(last, x))
    decreases |b|
  {
    if b == [] {
      assert a + [x] + b == a + [x] && a + b == a;
      SamplesSnoc(a, x, last);
    } else {
      var front, y := b[..|b| - 1], b[|b| - 1];
      assert a + [x] + b == (a + [x] + front) + [y] && a + b == (a + front) + [y];
      SamplesSplit(a, x, front, last);
      SamplesSnoc(a + [x] + front, y, last);
      SamplesSnoc(a + front, y, last);
    }
  }

  /** The order in which fetches finish changes neither the samples recorded nor, if listings agree, the snapshot. */
  lemma CompletionOrderIrrelevant(a: seq<Reading>, b: seq<Reading>, last: Snapshot)
    requires multiset(a) == multiset(b)
    ensures multiset(Samples(a, last)) == multiset(Samples(b, last))
    ensures Consistent(a) ==> NewSnapshot(a) == NewSnapshot(b)
  {
    SamplesMultiset(a, b, last);
    forall r ensures r in a <==> r in b {
      assert r in a <==> r in multiset(a);
      assert r in b <==> r in multiset(b);
    }
    if Consistent(a) {
      forall s ensures s in NewSnapshot(a) <==> s in NewSnapshot(b) {
        SnapshotHolds(a, s);
        SnapshotHolds(b, s);
      }
      forall s | s in NewSnapshot(a) ensures NewSnapshot(a)[s] == NewSnapshot(b)[s] {
        SnapshotHolds(a, s);
        SnapshotHolds(b, s);
      }
    }
  }

  /** The snapshot is order-free exactly when repeated listings agree. */
  lemma SnapshotOrderFreeExactlyWhen(a: seq<Reading>)
    ensures (forall b :: multiset(b) == multiset(a) ==> NewSnapshot(b) == NewSnapshot(a)) <==> Consistent(a)
  {
    if Consistent(a) {
      forall b | multiset(b) == multiset(a) ensures NewSnapshot(b) == NewSnapshot(a) {
        CompletionOrderIrrelevant(a, b, map[]);
      }
    } else {
      var x, y :| x in a && y in a && x.server == y.server && x != y;
      var ax := MoveLast(a, x);
      var ay := MoveLast(a, y);
      assert NewSnapshot(ax)[x.server] == x.counters && NewSnapshot(ay)[x.server] == y.counters;
      assert NewSnapshot(ax) != NewSnapshot(ay);
    }
  }

  lemma MoveLast(a: seq<Reading>, x: Reading) returns (b: seq<Reading>)
    requires x in a
    ensures multiset(b) == multiset(a) && b != [] && b[|b| - 1] == x
  {
    var k :| 0 <= k < |a| && a[k] == x;
    b := a[..k] + a[k + 1..] + [x];
    assert a == a[..k] + [x] + a[k + 1..];
  }

  lemma {:induction false} KomariSplit(a: seq<KomariResult>, x: KomariResult, b: seq<KomariResult>)
    ensures multiset(KomariReadings(a + [x] + b)) == multiset(KomariReadings(a + b)) + multiset(KomariReadings([x]))
    decreases |b|
  {
    if b == [] {
      assert a + [x] + b == a + [x] && a + b == a && (a + [x])[..|a|] == a && [x][..0] == [];
    } else {
      var front, y := b[..|b| - 1], b[|b| - 1];
      assert (a + [x] + b)[..|a + [x] + b| - 1] == a + [x] + front;
      assert (a + b)[..|a + b| - 1] == a + front;
      KomariSplit(a, x, front);
    }
  }

  ghost predicate SameReadings(a: seq<KomariResult>, b: seq<KomariResult>) {
    multiset(KomariReadings(a)) == multiset(KomariReadings(b))
  }

  lemma SameReadingsInsert(front: seq<KomariResult>, x: KomariResult, l: seq<KomariResult>, r: seq<KomariResult>)
    requires SameReadings(front, l + r)
    ensures SameReadings(front + [x], l + [x] + r)
  {
    assert front + [x] == front + [x] + [] && front + [] == front;
    KomariSplit(front, x, []);
    KomariSplit(l, x, r);
  }

  lemma {:induction false} KomariReadingsMultiset(a: seq<KomariResult>, b: seq<KomariResult>)
    requires multiset(a) == multiset(b)
    ensures SameReadings(a, b)
    decreases |a|
  {
    assert |multiset(a)| == |a| && |multiset(b)| == |b|;
    if a != [] {
      var front, x := a[..|a| - 1], a[|a| - 1];
      assert a == front + [x];
      var l, r := PickOut(b, x);
      KomariReadingsMultiset(front, l + r);
      SameReadingsInsert(front, x, l, r);
    }
  }

  lemma {:induction false} KomariReadingsFrom(results: seq<KomariResult>, r: Reading)
    requires r in KomariReadings(results)
    ensures KomariResult(r.server, Latest(r.counters.up, r.counters.down)) in results
  {
    var front, x := results[..|results| - 1], results[|results| - 1];
    assert results == front + [x];
    if r in KomariReadings(front) {
      KomariReadingsFrom(front, r);
    }
  }

  /** Komari's fetches finish in any order: same samples, and same snapshot when node ids are distinct. */
  lemma KomariOrderIrrelevant(a: seq<KomariResult>, b: seq<KomariResult>, last: Snapshot)
    requires multiset(a) == multiset(b)
    ensures multiset(Samples(KomariReadings(a), last)) == multiset(Samples(KomariReadings(b), last))
    ensures (forall x, y :: x in a && y in a && x.uuid == y.uuid ==> x == y) ==>
      NewSnapshot(KomariReadings(a)) == NewSnapshot(KomariReadings(b))
  {
    KomariReadingsMultiset(a, b);
    CompletionOrderIrrelevant(KomariReadings(a), KomariReadings(b), last);
    if forall x, y :: x in a && y in a && x.uuid == y.uuid ==> x == y {
      forall r, q | r in KomariReadings(a) && q in KomariReadings(a) && r.server == q.server ensures r == q {
        KomariReadingsFrom(a, r);
        KomariReadingsFrom(a, q);
      }
    }
  }
}
