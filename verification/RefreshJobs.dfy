/**
 Refresh jobs and their cancellation. A job's future owns a guard that registers
 its flag in a shared map and removes it when the future is dropped, however that
 happens. Handlers, the scheduler, workers, the stale-lease sweep, cancel requests
 and server shutdown interleave freely.
 */
module RefreshJobs {
  import opened Wrappers

  type JobId = nat
  type FutureId = nat
  type FlagId = nat
  type RequestId = nat

  /** A registration guard inside a live future. */
  datatype Guard = Guard(job: JobId, flag: FlagId)

  // ------------------------------------------------------------ guards and map

  /** The map's keys are the jobs of the guards that live, each with its own flag. */
  ghost predicate Matches(flags: map<JobId, FlagId>, guards: map<FutureId, Guard>) {
    && (forall f :: f in guards ==> guards[f].job in flags && flags[guards[f].job] == guards[f].flag)
    && (forall j :: j in flags ==> exists f :: f in guards && guards[f].job == j)
  }

  /** No two living guards share a job id. */
  ghost predicate Unique(guards: map<FutureId, Guard>) {
    forall f, g :: f in guards && g in guards && guards[f].job == guards[g].job ==> f == g
  }

  ghost predicate Free(guards: map<FutureId, Guard>, j: JobId) {
    forall f :: f in guards ==> guards[f].job != j
  }

  function Inserted(flags: map<JobId, FlagId>, j: JobId, x: FlagId): map<JobId, FlagId> {
    flags[j := x]
  }

  function Removed(flags: map<JobId, FlagId>, j: JobId): map<JobId, FlagId> {
    flags - {j}
  }

  lemma InsertKeeps(flags: map<JobId, FlagId>, guards: map<FutureId, Guard>, f: FutureId, j: JobId, x: FlagId)
    requires Matches(flags, guards) && Unique(guards) && f !in guards && Free(guards, j)
    ensures Matches(Inserted(flags, j, x), guards[f := Guard(j, x)]) && Unique(guards[f := Guard(j, x)])
  {
    var after := guards[f := Guard(j, x)];
    forall i | i in Inserted(flags, j, x) ensures exists g :: g in after && after[g].job == i {
      if i == j {
        assert f in after && after[f].job == i;
      } else {
        var g :| g in guards && guards[g].job == i;
        assert g in after && after[g].job == i;
      }
    }
  }

  lemma RemoveKeeps(flags: map<JobId, FlagId>, guards: map<FutureId, Guard>, f: FutureId)
    requires Matches(flags, guards) && Unique(guards) && f in guards
    ensures Matches(Removed(flags, guards[f].job), guards - {f}) && Unique(guards - {f})
  {
    var after := guards - {f};
    forall i | i in Removed(flags, guards[f].job) ensures exists g :: g in after && after[g].job == i {
      var g :| g in guards && guards[g].job == i;
      assert g in after && after[g].job == i;
    }
  }

  /** The shared map behind the guards; `guards` are those that live. */
  class CancellationFlags {
    var flags: map<JobId, FlagId>
    ghost var guards: map<FutureId, Guard>

    ghost predicate Valid()
      reads this
    {
      Matches(flags, guards) && Unique(guards)
    }

    constructor ()
      ensures Valid() && guards == map[]
    {
      flags := map[];
      guards := map[];
    }

    /** `CancellationRegistration::new`, whose ids must be unique among living guards. */
    method Register(ghost f: FutureId, id: JobId, cancelled: FlagId)
      requires Valid() && f !in guards && Free(guards, id)
      modifies this
      ensures Valid() && guards == old(guards)[f := Guard(id, cancelled)]
    {
      InsertKeeps(flags, guards, f, id, cancelled);
      flags := flags[id := cancelled];
      guards := guards[f := Guard(id, cancelled)];
    }

    /** Dropping the guard of `f`: every other guard keeps its registration. */
    method Unregister(ghost f: FutureId, id: JobId)
      requires Valid() && f in guards && guards[f].job == id
      modifies this
      ensures Valid() && guards == old(guards) - {f}
    {
      RemoveKeeps(flags, guards, f);
      flags := flags - {id};
      guards := guards - {f};
    }

    /** The lookup of a cancel request: the flag of the one living guard of the job, if there is one. */
    method Find(id: JobId) returns (r: Option<FlagId>)
      requires Valid()
      ensures r.None? <==> Free(guards, id)
      ensures forall f :: f in guards && guards[f].job == id ==> r == Some(guards[f].flag)
    {
      r := if id in flags then Some(flags[id]) else None;
    }
  }

  // ----------------------------------------------------------- the state machine

  datatype Status = Running | Completed | Failed | Cancelled

  predicate Terminal(st: Status) {
    !st.Running?
  }

  datatype Reply = NotFound | AlreadyTerminal | Unavailable | Signalled

  /** A cancel request: it reads the job row, then the flag map, then sets the flag. */
  datatype Request = Asked(job: JobId) | Looked(job: JobId) | Got(job: JobId, flag: FlagId) | Replied(reply: Reply)

  datatype State = State(
    jobs: map<JobId, Status>,          // repository rows
    leases: set<JobId>,                // ids given out and not yet registered
    flags: map<JobId, FlagId>,         // the shared cancellation map
    raised: set<FlagId>,               // flags holding true
    futures: map<FutureId, Guard>,     // job futures that exist
    requests: map<RequestId, Request>,
    owner: map<FlagId, JobId>)         // every flag ever made, and its job

  datatype Step =
    | StartJob(j: JobId)                              // lease acquired under a fresh id, row Running
    | Register(f: FutureId, j: JobId, x: FlagId, stopping: bool) // guard made and moved into the future
    | DropFuture(f: FutureId)                         // completion, panic, abort, or rejected admission
    | WorkerEnds(f: FutureId, st: Status)             // the worker writes its terminal status
    | MarkFailed(j: JobId)                            // rejected handler, or stale-lease sweep
    | Ask(r: RequestId, j: JobId)
    | ReadJob(r: RequestId)
    | ReadFlag(r: RequestId)
    | SetFlag(r: RequestId)
    | SignalAll                                       // server shutdown

  /** `careless` lets a caller register a job id it holds no lease for. The program has no such caller. */
  ghost predicate Enabled(careless: bool, s: State, step: Step) {
    match step
    case StartJob(j) => j !in s.jobs
    case Register(f, j, x, _) => f !in s.futures && x !in s.owner && (j in s.leases || (careless && j in s.jobs))
    case DropFuture(f) => f in s.futures
    // a worker reports cancellation only after reading its own flag as set
    case WorkerEnds(f, st) => f in s.futures && Terminal(st) && (st == Cancelled ==> s.futures[f].flag in s.raised)
    case MarkFailed(j) => j in s.jobs
    case Ask(r, _) => r !in s.requests
    case ReadJob(r) => r in s.requests && s.requests[r].Asked?
    case ReadFlag(r) => r in s.requests && s.requests[r].Looked?
    case SetFlag(r) => r in s.requests && s.requests[r].Got?
    case SignalAll => true
  }

  /** Terminal rows are final: the update is conditional on a live status. */
  function Ended(jobs: map<JobId, Status>, j: JobId, st: Status): map<JobId, Status> {
    if j in jobs && !Terminal(jobs[j]) then jobs[j := st] else jobs
  }

  ghost function Do(careless: bool, s: State, step: Step): State
    requires Enabled(careless, s, step)
  {
    match step
    case StartJob(j) => s.(jobs := s.jobs[j := Running], leases := s.leases + {j})
    case Register(f, j, x, stopping) =>
      s.(leases := s.leases - {j}, flags := Inserted(s.flags, j, x), futures := s.futures[f := Guard(j, x)],
         raised := if stopping then s.raised + {x} else s.raised, owner := s.owner[x := j])
    case DropFuture(f) => s.(futures := s.futures - {f}, flags := Removed(s.flags, s.futures[f].job))
    case WorkerEnds(f, st) => s.(jobs := Ended(s.jobs, s.futures[f].job, st))
    case MarkFailed(j) => s.(jobs := Ended(s.jobs, j, Failed))
    case Ask(r, j) => s.(requests := s.requests[r := Asked(j)])
    case ReadJob(r) =>
      var j := s.requests[r].job;
      s.(requests := s.requests[r := if j !in s.jobs then Replied(NotFound)
                                     else if Terminal(s.jobs[j]) then Replied(AlreadyTerminal) else Looked(j)])
    case ReadFlag(r) =>
      var j := s.requests[r].job;
      s.(requests := s.requests[r := if j in s.flags then Got(j, s.flags[j]) else Replied(Unavailable)])
    case SetFlag(r) =>
      s.(raised := s.raised + {s.requests[r].flag}, requests := s.requests[r := Replied(Signalled)])
    case SignalAll => s.(raised := s.raised + set j | j in s.flags :: s.flags[j])
  }

  ghost predicate Init(s: State) {
    s == State(map[], {}, map[], {}, map[], map[], map[])
  }

  ghost predicate StepAt(careless: bool, ss: seq<State>, i: int) {
    0 <= i < |ss| - 1 && exists step :: Enabled(careless, ss[i], step) && ss[i + 1] == Do(careless, ss[i], step)
  }

  ghost predicate Run(careless: bool, ss: seq<State>) {
    ss != [] && Init(ss[0]) && (forall i :: 0 <= i < |ss| - 1 ==> StepAt(careless, ss, i))
  }

  // -------------------------------------------------- the map and the futures

  ghost predicate MapMatches(s: State) {
    Matches(s.flags, s.futures)
  }

  /** A lease is used once: the id of a living guard has a row, and its lease is gone. */
  ghost predicate LeasedOnce(s: State) {
    && s.leases <= s.jobs.Keys
    && forall f :: f in s.futures ==> s.futures[f].job in s.jobs && s.futures[f].job !in s.leases
  }

  ghost predicate MapInvariant(s: State) {
    MapMatches(s) && Unique(s.futures) && LeasedOnce(s)
  }

  lemma StepKeepsMap(s: State, step: Step)
    requires MapInvariant(s) && Enabled(false, s, step)
    ensures MapInvariant(Do(false, s, step))
  {
    match step
    case Register(f, j, x, _) => InsertKeeps(s.flags, s.futures, f, j, x);
    case DropFuture(f) => RemoveKeeps(s.flags, s.futures, f);
    case _ =>
      assert Do(false, s, step).futures == s.futures && Do(false, s, step).flags == s.flags;
  }

  /** In every state of every run live ids are unique and the map matches the futures. */
  lemma {:induction false} MapMatchesThroughout(ss: seq<State>, i: nat)
    requires Run(false, ss) && i < |ss|
    ensures MapInvariant(ss[i])
  {
    if i > 0 {
      MapMatchesThroughout(ss, i - 1);
      assert StepAt(false, ss, i - 1);
      var step :| Enabled(false, ss[i - 1], step) && ss[i] == Do(false, ss[i - 1], step);
      StepKeepsMap(ss[i - 1], step);
    }
  }

  /** When a future is dropped, for whatever reason, its job has no guard and no flag left; all others keep theirs. */
  lemma DropFrees(ss: seq<State>, i: nat, f: FutureId)
    requires Run(false, ss) && i < |ss| && Enabled(false, ss[i], DropFuture(f))
    ensures var s, t := ss[i], Do(false, ss[i], DropFuture(f)); var j := s.futures[f].job;
      && Free(t.futures, j) && j !in t.flags
      && (forall g :: g in s.futures && g != f ==>
            g in t.futures && t.futures[g] == s.futures[g] && Get(t.flags, s.futures[g].job) == Some(s.futures[g].flag))
  {
    MapMatchesThroughout(ss, i);
  }

  function Get(m: map<JobId, FlagId>, j: JobId): Option<FlagId> {
    if j in m then Some(m[j]) else None
  }

  lemma SpentStep(s: State, step: Step, j: JobId)
    requires Enabled(false, s, step) && j in s.jobs && j !in s.leases
    ensures j in Do(false, s, step).jobs && j !in Do(false, s, step).leases
  {
  }

  lemma {:induction false} LeaseStaysSpent(ss: seq<State>, i: nat, k: nat, j: JobId)
    requires Run(false, ss) && i <= k < |ss| && j in ss[i].jobs && j !in ss[i].leases
    ensures j in ss[k].jobs && j !in ss[k].leases
    decreases k
  {
    if i < k {
      LeaseStaysSpent(ss, i, k - 1, j);
      assert StepAt(false, ss, k - 1);
      var step :| Enabled(false, ss[k - 1], step) && ss[k] == Do(false, ss[k - 1], step);
      SpentStep(ss[k - 1], step, j);
    }
  }

  /** A started job can be registered, once: after its registration nobody ever registers it again. */
  lemma RegisteredOnce(ss: seq<State>, i: nat, k: nat, step: Step, f: FutureId, x: FlagId, stopping: bool)
    requires Run(false, ss) && i < k < |ss| && Enabled(false, ss[i], step) && ss[i + 1] == Do(false, ss[i], step)
    ensures step.StartJob? && f !in ss[i].futures && x !in ss[i].owner ==>
      Enabled(false, ss[i + 1], Register(f, step.j, x, stopping))
    ensures step.Register? ==> !Enabled(false, ss[k], Register(f, step.j, x, stopping))
  {
    if step.Register? {
      MapMatchesThroughout(ss, i);
      LeaseStaysSpent(ss, i + 1, k, step.j);
    }
  }

  // ------------------------------------------------ what a cancel request gets

  ghost predicate Is(s: State, r: RequestId, request: Request) {
    r in s.requests && s.requests[r] == request
  }

  /** The moment at which request `r` reads the row of its job. */
  ghost predicate ReadsRow(ss: seq<State>, a: nat, r: RequestId, j: JobId) {
    a + 1 < |ss| && Is(ss[a], r, Asked(j)) && !Is(ss[a + 1], r, Asked(j))
  }

  /** The moment at which it reads the flag map. */
  ghost predicate ReadsMap(ss: seq<State>, b: nat, r: RequestId, j: JobId) {
    b + 1 < |ss| && Is(ss[b], r, Looked(j)) && !Is(ss[b + 1], r, Looked(j))
  }

  /** The flag of future `f` is in the request's hands, or raised. */
  ghost predicate Reached(s: State, r: RequestId, g: Guard) {
    Is(s, r, Got(g.job, g.flag)) || (Is(s, r, Replied(Signalled)) && g.flag in s.raised)
  }

  /** What came of reading the map when `futures` existed. */
  ghost predicate MapAnswer(futures: map<FutureId, Guard>, s: State, r: RequestId, j: JobId) {
    if Free(futures, j) then Is(s, r, Replied(Unavailable))
    else forall f :: f in futures && futures[f].job == j ==> Reached(s, r, futures[f])
  }

  ghost predicate MapRead(ss: seq<State>, b: nat, k: nat, r: RequestId, j: JobId)
    requires b < |ss| && k < |ss|
  {
    ReadsMap(ss, b, r, j) && MapAnswer(ss[b].futures, ss[k], r, j)
  }

  /** Where a request is at moment `k`, given the row it read at moment `a`. */
  ghost predicate Outcome(ss: seq<State>, a: nat, k: nat, r: RequestId, j: JobId)
    requires a < k < |ss|
  {
    if j !in ss[a].jobs then Is(ss[k], r, Replied(NotFound))
    else if ss[a].jobs[j] != Running then Is(ss[k], r, Replied(AlreadyTerminal))
    else Is(ss[k], r, Looked(j)) || exists b: nat :: a < b < k && MapRead(ss, b, k, r, j)
  }

  lemma ReadRowStep(s: State, step: Step, r: RequestId, j: JobId)
    requires Enabled(false, s, step) && Is(s, r, Asked(j)) && !Is(Do(false, s, step), r, Asked(j))
    ensures var t := Do(false, s, step);
      if j !in s.jobs then Is(t, r, Replied(NotFound))
      else if s.jobs[j] != Running then Is(t, r, Replied(AlreadyTerminal)) else Is(t, r, Looked(j))
  {
  }

  lemma ReadMapStep(s: State, step: Step, r: RequestId, j: JobId)
    requires MapInvariant(s) && Enabled(false, s, step) && Is(s, r, Looked(j)) && !Is(Do(false, s, step), r, Looked(j))
    ensures MapAnswer(s.futures, Do(false, s, step), r, j)
  {
  }

  lemma AnswerStays(futures: map<FutureId, Guard>, s: State, step: Step, r: RequestId, j: JobId)
    requires Enabled(false, s, step) && MapAnswer(futures, s, r, j)
    ensures MapAnswer(futures, Do(false, s, step), r, j)
  {
    forall f | f in futures && futures[f].job == j && Reached(s, r, futures[f])
      ensures Reached(Do(false, s, step), r, futures[f])
    {
    }
  }

  lemma RepliedStays(s: State, step: Step, r: RequestId, reply: Reply)
    requires Enabled(false, s, step) && Is(s, r, Replied(reply))
    ensures Is(Do(false, s, step), r, Replied(reply))
  {
  }

  lemma OutcomeStays(ss: seq<State>, a: nat, k: nat, step: Step, r: RequestId, j: JobId)
    requires a < k < |ss| - 1 && MapInvariant(ss[k]) && Enabled(false, ss[k], step)
    requires ss[k + 1] == Do(false, ss[k], step) && Outcome(ss, a, k, r, j)
    ensures Outcome(ss, a, k + 1, r, j)
  {
    if j !in ss[a].jobs {
      RepliedStays(ss[k], step, r, NotFound);
    } else if ss[a].jobs[j] != Running {
      RepliedStays(ss[k], step, r, AlreadyTerminal);
    } else if Is(ss[k], r, Looked(j)) {
      if !Is(ss[k + 1], r, Looked(j)) {
        ReadMapStep(ss[k], step, r, j);
        assert MapRead(ss, k, k + 1, r, j);
      }
    } else {
      var b: nat :| a < b < k && MapRead(ss, b, k, r, j);
      AnswerStays(ss[b].futures, ss[k], step, r, j);
      assert MapRead(ss, b, k + 1, r, j);
    }
  }

  /** From the moment it reads the row, a request goes where the row and then the living guards send it. */
  lemma {:induction false} RequestOutcome(ss: seq<State>, a: nat, k: nat, r: RequestId, j: JobId)
    requires Run(false, ss) && ReadsRow(ss, a, r, j) && a < k < |ss|
    ensures Outcome(ss, a, k, r, j)
    decreases k
  {
    assert StepAt(false, ss, k - 1);
    var step :| Enabled(false, ss[k - 1], step) && ss[k] == Do(false, ss[k - 1], step);
    if k == a + 1 {
      ReadRowStep(ss[a], step, r, j);
    } else {
      RequestOutcome(ss, a, k - 1, r, j);
      MapMatchesThroughout(ss, k - 1);
      OutcomeStays(ss, a, k - 1, step, r, j);
    }
  }

  /** "Not found" and "already finished" are answered exactly when the row read says so. */
  lemma RowDecides(ss: seq<State>, a: nat, k: nat, r: RequestId, j: JobId)
    requires Run(false, ss) && ReadsRow(ss, a, r, j) && a < k < |ss|
    ensures Is(ss[k], r, Replied(NotFound)) <==> j !in ss[a].jobs
    ensures Is(ss[k], r, Replied(AlreadyTerminal)) <==> j in ss[a].jobs && ss[a].jobs[j] != Running
  {
    RequestOutcome(ss, a, k, r, j);
    if b: nat :| a < b < k && MapRead(ss, b, k, r, j) {
      assert !Free(ss[b].futures, j) ==> exists f :: f in ss[b].futures && ss[b].futures[f].job == j;
    }
  }

  /**
   A request that read a live row and has its answer read the map at some moment in
   between. If a future of the job existed then, the request was accepted and that
   future's own flag is raised; otherwise it was told to retry.
   */
  lemma CancelReachesWorker(ss: seq<State>, a: nat, k: nat, r: RequestId, j: JobId) returns (b: nat)
    requires Run(false, ss) && ReadsRow(ss, a, r, j) && a < k < |ss|
    requires j in ss[a].jobs && ss[a].jobs[j] == Running && r in ss[k].requests && ss[k].requests[r].Replied?
    ensures a < b < k && ReadsMap(ss, b, r, j)
    ensures Is(ss[k], r, Replied(Unavailable)) <==> forall f :: f in ss[b].futures ==> ss[b].futures[f].job != j
    ensures Is(ss[k], r, Replied(Signalled)) <==> exists f :: f in ss[b].futures && ss[b].futures[f].job == j
    ensures forall f :: f in ss[b].futures && ss[b].futures[f].job == j ==> ss[b].futures[f].flag in ss[k].raised
  {
    RequestOutcome(ss, a, k, r, j);
    b :| a < b < k && MapRead(ss, b, k, r, j);
    if f :| f in ss[b].futures && ss[b].futures[f].job == j {
      assert Reached(ss[k], r, ss[b].futures[f]);
    }
  }

  /** A request is told to retry exactly when no future of the job exists. */
  lemma UnavailableExactlyWhen(ss: seq<State>, i: nat, r: RequestId)
    requires Run(false, ss) && i < |ss| && Enabled(false, ss[i], ReadFlag(r))
    ensures Do(false, ss[i], ReadFlag(r)).requests[r] == Replied(Unavailable)
       <==> Free(ss[i].futures, ss[i].requests[r].job)
  {
    MapMatchesThroughout(ss, i);
  }

  // --------------------------------------------------------- who raises a flag

  lemma {:induction false} RaisedStays(ss: seq<State>, i: nat, k: nat, x: FlagId)
    requires Run(false, ss) && i <= k < |ss| && x in ss[i].raised
    ensures x in ss[k].raised
    decreases k
  {
    if i < k {
      RaisedStays(ss, i, k - 1, x);
      assert StepAt(false, ss, k - 1);
    }
  }

  /** Shutdown reaches every future that exists, and one registered while stopping starts out signalled. */
  lemma ShutdownReachesAll(ss: seq<State>, i: nat, k: nat, step: Step, f: FutureId)
    requires Run(false, ss) && i < k < |ss| && Enabled(false, ss[i], step) && ss[i + 1] == Do(false, ss[i], step)
    requires f in ss[i + 1].futures && (step.SignalAll? || (step.Register? && step.f == f && step.stopping))
    ensures ss[i + 1].futures[f].flag in ss[k].raised
  {
    MapMatchesThroughout(ss, i);
    RaisedStays(ss, i + 1, k, ss[i + 1].futures[f].flag);
  }

  /** A request that has found a flag has one of its own job. */
  ghost predicate OwnRequests(s: State) {
    && (forall f :: f in s.futures ==> s.futures[f].flag in s.owner && s.owner[s.futures[f].flag] == s.futures[f].job)
    && (forall r :: r in s.requests && s.requests[r].Got? ==>
          s.requests[r].flag in s.owner && s.owner[s.requests[r].flag] == s.requests[r].job)
  }

  lemma StepKeepsRequests(s: State, step: Step)
    requires MapInvariant(s) && OwnRequests(s) && Enabled(false, s, step)
    ensures OwnRequests(Do(false, s, step))
  {
  }

  lemma {:induction false} RunOwnRequests(ss: seq<State>, i: nat)
    requires Run(false, ss) && i < |ss|
    ensures OwnRequests(ss[i])
  {
    if i > 0 {
      RunOwnRequests(ss, i - 1);
      MapMatchesThroughout(ss, i - 1);
      assert StepAt(false, ss, i - 1);
      var step :| Enabled(false, ss[i - 1], step) && ss[i] == Do(false, ss[i - 1], step);
      StepKeepsRequests(ss[i - 1], step);
    }
  }

  /** A flag is raised by a request for its own job, by shutdown, or at birth while stopping; by nothing else. */
  lemma RaisedOnlyBy(ss: seq<State>, i: nat, step: Step, x: FlagId)
    requires Run(false, ss) && i < |ss| && Enabled(false, ss[i], step)
    requires x !in ss[i].raised && x in Do(false, ss[i], step).raised
    ensures step.SignalAll? || (step.Register? && step.x == x && step.stopping)
         || (step.SetFlag? && x in ss[i].owner && Is(ss[i], step.r, Got(ss[i].owner[x], x)))
  {
    RunOwnRequests(ss, i);
  }

  // ------------------------------------------------------- why ids must be unique

  /** Every guard has a flag of its own. */
  ghost predicate OwnFlags(s: State) {
    && (forall f :: f in s.futures ==> s.futures[f].flag in s.owner)
    && (forall f, g :: f in s.futures && g in s.futures && s.futures[f].flag == s.futures[g].flag ==> f == g)
  }

  lemma StepOwnFlags(s: State, step: Step)
    requires OwnFlags(s) && Enabled(true, s, step)
    ensures OwnFlags(Do(true, s, step))
  {
  }

  lemma {:induction false} RunOwnFlags(ss: seq<State>, i: nat)
    requires Run(true, ss) && i < |ss|
    ensures OwnFlags(ss[i])
  {
    if i > 0 {
      RunOwnFlags(ss, i - 1);
      assert StepAt(true, ss, i - 1);
      var step :| Enabled(true, ss[i - 1], step) && ss[i] == Do(true, ss[i - 1], step);
      StepOwnFlags(ss[i - 1], step);
    }
  }

  lemma CarelessStepKeepsMap(s: State, step: Step)
    requires MapMatches(s) && Unique(s.futures) && Enabled(true, s, step) && Unique(Do(true, s, step).futures)
    ensures MapMatches(Do(true, s, step))
  {
    var t := Do(true, s, step);
    match step
    case Register(f, j, x, _) =>
      forall g | g in s.futures ensures s.futures[g].job != j {
        assert g in t.futures && t.futures[g] == s.futures[g] && f in t.futures && t.futures[f].job == j;
      }
      InsertKeeps(s.flags, s.futures, f, j, x);
    case DropFuture(f) => RemoveKeeps(s.flags, s.futures, f);
    case _ =>
      assert t.futures == s.futures && t.flags == s.flags;
  }

  ghost predicate MatchedUpTo(ss: seq<State>, i: nat)
    requires i < |ss|
  {
    forall k :: 0 <= k <= i ==> MapMatches(ss[k])
  }

  ghost predicate UniqueUpTo(ss: seq<State>, i: nat)
    requires i < |ss|
  {
    forall k :: 0 <= k <= i ==> Unique(ss[k].futures)
  }

  lemma {:induction false} UniqueMeansMatched(ss: seq<State>, i: nat)
    requires Run(true, ss) && i < |ss| && UniqueUpTo(ss, i)
    ensures MatchedUpTo(ss, i)
  {
    if i > 0 {
      UniqueMeansMatched(ss, i - 1);
      assert StepAt(true, ss, i - 1);
      var step :| Enabled(true, ss[i - 1], step) && ss[i] == Do(true, ss[i - 1], step);
      CarelessStepKeepsMap(ss[i - 1], step);
    }
  }

  /** For callers of any kind, the map is right throughout a run exactly when live ids are unique throughout it. */
  lemma MapReliableExactlyWhen(ss: seq<State>, i: nat)
    requires Run(true, ss) && i < |ss|
    ensures MatchedUpTo(ss, i) <==> UniqueUpTo(ss, i)
  {
    if UniqueUpTo(ss, i) {
      UniqueMeansMatched(ss, i);
    }
    if MatchedUpTo(ss, i) {
      forall k | 0 <= k <= i ensures Unique(ss[k].futures) {
        RunOwnFlags(ss, k);
        assert MapMatches(ss[k]);
      }
    }
  }

  lemma Extend(ss: seq<State>, step: Step) returns (ts: seq<State>)
    requires Run(true, ss) && Enabled(true, ss[|ss| - 1], step)
    ensures |ts| == |ss| + 1 && ss <= ts && ts[|ss|] == Do(true, ss[|ss| - 1], step) && Run(true, ts)
  {
    ts := ss + [Do(true, ss[|ss| - 1], step)];
    forall k | 0 <= k < |ts| - 1 ensures StepAt(true, ts, k) {
      if k < |ss| - 1 {
        assert StepAt(true, ss, k) && ts[k] == ss[k] && ts[k + 1] == ss[k + 1];
      } else {
        assert Enabled(true, ts[k], step) && ts[k + 1] == Do(true, ts[k], step);
      }
    }
  }

  /** A run in which a second registration of one job steals the flag, and the first one's end then removes it. */
  lemma SharedIdLosesFlag() returns (ss: seq<State>)
    ensures Run(true, ss) && |ss| == 5
    ensures ss[4].futures == map[1 := Guard(0, 1)] && ss[4].flags == map[] && !MapMatches(ss[4])
  {
    ss := [State(map[], {}, map[], {}, map[], map[], map[])];
    ss := Extend(ss, StartJob(0));
    ss := Extend(ss, Register(0, 0, 0, false));
    ss := Extend(ss, Register(1, 0, 1, false));
    ss := Extend(ss, DropFuture(0));
    assert 1 in ss[4].futures && ss[4].futures[1].job !in ss[4].flags;
  }

  // ---------------------------------------------------------------- job rows

  /** No step of a cancel request, nor shutdown's signalling, writes a job row. */
  lemma CancelWritesNoRow(s: State, step: Step)
    requires step.Ask? || step.ReadJob? || step.ReadFlag? || step.SetFlag? || step.SignalAll?
    requires Enabled(false, s, step)
    ensures var t := Do(false, s, step); t.jobs == s.jobs && t.futures == s.futures && t.flags == s.flags
  {
  }

  /** Whoever writes first decides: a terminal status never changes. */
  lemma {:induction false} TerminalIsFinal(ss: seq<State>, i: nat, k: nat, j: JobId)
    requires Run(false, ss) && i <= k < |ss| && j in ss[i].jobs && Terminal(ss[i].jobs[j])
    ensures j in ss[k].jobs && ss[k].jobs[j] == ss[i].jobs[j]
    decreases k - i
  {
    if i < k {
      TerminalIsFinal(ss, i, k - 1, j);
      assert StepAt(false, ss, k - 1);
      var step :| Enabled(false, ss[k - 1], step) && ss[k] == Do(false, ss[k - 1], step);
      TerminalStays(ss[k - 1], step, j);
    }
  }

  lemma TerminalStays(s: State, step: Step, j: JobId)
    requires Enabled(false, s, step) && j in s.jobs && Terminal(s.jobs[j])
    ensures j in Do(false, s, step).jobs && Do(false, s, step).jobs[j] == s.jobs[j]
  {
  }

  /** A row is written by its start, by a worker of that very job, or as failed; and only while it is live. */
  lemma RowWritten(s: State, step: Step, j: JobId)
    requires Enabled(false, s, step)
    ensures var t := Do(false, s, step);
      && (j in s.jobs ==> j in t.jobs)
      && (j in t.jobs && j !in s.jobs ==> step == StartJob(j) && t.jobs[j] == Running)
      && (j in s.jobs && t.jobs[j] != s.jobs[j] ==>
            && s.jobs[j] == Running
            && (|| (step.WorkerEnds? && s.futures[step.f].job == j && t.jobs[j] == step.st)
                || (step == MarkFailed(j) && t.jobs[j] == Failed)))
  {
  }

  /** The status with which a step ends job `j`. */
  ghost predicate Ends(s: State, step: Step, j: JobId, st: Status) {
    || (step.WorkerEnds? && step.f in s.futures && s.futures[step.f].job == j && step.st == st)
    || (step == MarkFailed(j) && st == Failed)
  }

  /** The first to end a live job decides its status for good. */
  lemma FirstEndDecides(ss: seq<State>, i: nat, k: nat, step: Step, j: JobId, st: Status)
    requires Run(false, ss) && i < k < |ss| && Enabled(false, ss[i], step) && ss[i + 1] == Do(false, ss[i], step)
    requires Ends(ss[i], step, j, st) && j in ss[i].jobs && ss[i].jobs[j] == Running
    ensures j in ss[k].jobs && ss[k].jobs[j] == st
  {
    TerminalIsFinal(ss, i + 1, k, j);
  }

  ghost predicate WasSignalled(s: State, j: JobId) {
    exists x :: x in s.raised && x in s.owner && s.owner[x] == j
  }

  ghost predicate CancelledWasSignalled(s: State) {
    && (forall f :: f in s.futures ==> s.futures[f].flag in s.owner && s.owner[s.futures[f].flag] == s.futures[f].job)
    && (forall j :: j in s.jobs && s.jobs[j] == Cancelled ==> WasSignalled(s, j))
  }

  lemma StaysSignalled(s: State, step: Step, j: JobId)
    requires Enabled(false, s, step) && WasSignalled(s, j)
    ensures WasSignalled(Do(false, s, step), j)
  {
    var t := Do(false, s, step);
    var x :| x in s.raised && x in s.owner && s.owner[x] == j;
    assert x in t.raised && x in t.owner && t.owner[x] == j;
  }

  lemma StepKeepsSignalled(s: State, step: Step)
    requires CancelledWasSignalled(s) && Enabled(false, s, step)
    ensures CancelledWasSignalled(Do(false, s, step))
  {
    var t := Do(false, s, step);
    forall j | j in t.jobs && t.jobs[j] == Cancelled ensures WasSignalled(t, j) {
      if j !in s.jobs || s.jobs[j] != Cancelled {
        assert s.futures[step.f].flag in s.raised;
        assert WasSignalled(s, j);
      }
      StaysSignalled(s, step, j);
    }
  }

  /** A job is reported Cancelled only if a flag made for that very job was raised. */
  lemma {:induction false} CancelledOnlyIfSignalled(ss: seq<State>, i: nat)
    requires Run(false, ss) && i < |ss|
    ensures CancelledWasSignalled(ss[i])
  {
    if i > 0 {
      CancelledOnlyIfSignalled(ss, i - 1);
      assert StepAt(false, ss, i - 1);
      var step :| Enabled(false, ss[i - 1], step) && ss[i] == Do(false, ss[i - 1], step);
      StepKeepsSignalled(ss[i - 1], step);
    }
  }
}
