/**
 Every interleaving of spawn, task endings, reaping, closing and shutdown. Task
 ids are the runtime's, never reused; several shutdown calls may overlap.
 */
module SupervisorRuns {
  import opened JobSupervisor

  type DrainId = nat

  /** A shutdown call's own join set, and whether its grace has expired. */
  datatype Drain = Drain(tasks: JoinSet, aborted: bool)

  /** The supervisor, the shutdown calls under way, and what became of each task. */
  datatype Machine = Machine(
    sup: Supervisor, drains: map<DrainId, Drain>, taken: bool, expired: bool,
    admitted: set<TaskId>, joined: set<TaskId>, panicked: set<TaskId>, cancelled: set<TaskId>, dropped: set<TaskId>,
    endings: map<TaskId, Ending>)   // how each task that ended did end

  datatype Step =
    | Spawn(t: TaskId)
    | End(t: TaskId, ending: Ending)
    | EndOwned(k: DrainId, t: TaskId, ending: Ending)
    | Reap
    | Close
    | Take(k: DrainId)
    | Join(k: DrainId, t: TaskId)
    | Finish(k: DrainId)
    | Abort(k: DrainId)
    | GiveUp(k: DrainId)

  ghost predicate Enabled(m: Machine, step: Step) {
    match step
    case Spawn(t) => t !in m.admitted
    // only an abort cancels a task, and the shared set is never aborted
    case End(t, e) => t in m.sup.tasks && m.sup.tasks[t].Running? && e != Cancelled
    case EndOwned(k, t, e) =>
      && k in m.drains && t in m.drains[k].tasks && m.drains[k].tasks[t].Running?
      && (e == Cancelled ==> m.drains[k].aborted)
    case Reap => true
    case Close => true
    case Take(k) => k !in m.drains
    case Join(k, t) => k in m.drains && t in m.drains[k].tasks && m.drains[k].tasks[t].Ended?
    case Finish(k) => k in m.drains && m.drains[k].tasks == map[]
    case Abort(k) => k in m.drains && !m.drains[k].aborted
    case GiveUp(k) => k in m.drains && m.drains[k].aborted
  }

  ghost function Reaped(m: Machine): Machine {
    m.(sup := Drained(m.sup),
       joined := m.joined + EndedWith(m.sup.tasks, Completed),
       panicked := m.panicked + EndedWith(m.sup.tasks, Panicked),
       cancelled := m.cancelled + EndedWith(m.sup.tasks, Cancelled))
  }

  ghost function Recorded(m: Machine, t: TaskId, e: Ending): Machine {
    match e
    case Completed => m.(joined := m.joined + {t})
    case Panicked => m.(panicked := m.panicked + {t}, sup := m.sup.(panics := m.sup.panics + 1))
    case Cancelled => m.(cancelled := m.cancelled + {t}, sup := m.sup.(cancellations := m.sup.cancellations + 1))
  }

  ghost function Do(m: Machine, step: Step): Machine
    requires Enabled(m, step)
  {
    match step
    case Spawn(t) =>
      var d := Reaped(m);
      if Admits(m.sup) then d.(sup := d.sup.(tasks := d.sup.tasks[t := Running]), admitted := d.admitted + {t}) else d
    case End(t, e) => m.(sup := m.sup.(tasks := m.sup.tasks[t := Ended(e)]), endings := m.endings[t := e])
    case EndOwned(k, t, e) =>
      m.(drains := m.drains[k := m.drains[k].(tasks := m.drains[k].tasks[t := Ended(e)])], endings := m.endings[t := e])
    case Reap => Reaped(m)
    case Close => m.(sup := m.sup.(closed := true))
    case Take(k) =>
      m.(sup := m.sup.(tasks := map[], closed := true), taken := true,
         drains := m.drains[k := Drain(m.sup.tasks, false)])
    case Join(k, t) =>
      var d := m.drains[k];
      Recorded(m.(drains := m.drains[k := d.(tasks := d.tasks - {t})]), t, d.tasks[t].ending)
    case Finish(k) => m.(drains := m.drains - {k})
    case Abort(k) => m.(drains := m.drains[k := m.drains[k].(aborted := true)], expired := true)
    case GiveUp(k) => m.(drains := m.drains - {k}, dropped := m.dropped + m.drains[k].tasks.Keys)
  }

  // ------------------------------------------------------------------ homes

  datatype Home = Joined | CountedPanic | CountedCancel | Dropped | Tracked | Owned(k: DrainId)

  ghost predicate At(m: Machine, t: TaskId, h: Home) {
    match h
    case Joined => t in m.joined
    case CountedPanic => t in m.panicked
    case CountedCancel => t in m.cancelled
    case Dropped => t in m.dropped
    case Tracked => t in m.sup.tasks
    case Owned(k) => k in m.drains && t in m.drains[k].tasks
  }

  /** Every admitted task is in exactly one place, and no other task is anywhere. */
  ghost predicate Placed(m: Machine) {
    && (forall t :: t in m.admitted ==> exists h :: At(m, t, h))
    && (forall t, h :: At(m, t, h) ==> t in m.admitted)
    && (forall t, h, h' :: At(m, t, h) && At(m, t, h') ==> h == h')
  }

  ghost predicate Invariant(m: Machine) {
    && |m.sup.tasks| <= 64
    && (m.taken ==> m.sup.closed && m.sup.tasks == map[])
    && Placed(m)
    && Counted(m)
    && NoEarlyCancel(m)
  }

  ghost predicate Patient(d: Drain, expired: bool) {
    && (d.aborted ==> expired)
    && (forall t :: t in d.tasks && d.tasks[t] == Ended(Cancelled) ==> expired)
  }

  /** Cancellations come from an expired grace only. */
  ghost predicate NoEarlyCancel(m: Machine) {
    && (forall t :: t in m.sup.tasks ==> m.sup.tasks[t] != Ended(Cancelled))
    && (forall k :: k in m.drains ==> Patient(m.drains[k], m.expired))
    && (m.cancelled != {} ==> m.expired)
  }

  /** Moving some admitted tasks to new homes keeps everyone placed. */
  lemma MoveKeepsPlaced(m: Machine, n: Machine, dest: map<TaskId, Home>)
    requires Placed(m) && n.admitted == m.admitted && dest.Keys <= m.admitted
    requires forall t, h :: At(n, t, h) <==> if t in dest then h == dest[t] else At(m, t, h)
    ensures Placed(n)
  {
    forall t | t in n.admitted ensures exists h :: At(n, t, h) {
      if t in dest {
        assert At(n, t, dest[t]);
      } else {
        var h :| At(m, t, h);
        assert At(n, t, h);
      }
    }
  }

  function HomeOf(e: Ending): Home {
    match e
    case Completed => Joined
    case Panicked => CountedPanic
    case Cancelled => CountedCancel
  }

  /** Where a reap takes a task from the shared set. */
  lemma ReapMovesTracked(m: Machine, t: TaskId, h: Home)
    requires t in m.sup.tasks && (forall g :: At(m, t, g) ==> g == Tracked)
    ensures At(Reaped(m), t, h) <==> h == if m.sup.tasks[t].Ended? then HomeOf(m.sup.tasks[t].ending) else Tracked
  {
    assert At(m, t, Joined) <==> t in m.joined;
    assert At(m, t, CountedPanic) <==> t in m.panicked;
    assert At(m, t, CountedCancel) <==> t in m.cancelled;
    assert At(m, t, Dropped) <==> t in m.dropped;
    assert At(m, t, h) ==> h == Tracked;
  }

  lemma ReapMoves(m: Machine, t: TaskId, h: Home)
    requires Placed(m)
    ensures At(Reaped(m), t, h) <==>
      if t in m.sup.tasks && m.sup.tasks[t].Ended? then h == HomeOf(m.sup.tasks[t].ending) else At(m, t, h)
  {
    if t in m.sup.tasks {
      assert At(m, t, Tracked);
      ReapMovesTracked(m, t, h);
    }
  }

  lemma ReapPlaces(m: Machine)
    requires Placed(m)
    ensures Placed(Reaped(m))
  {
    var dest := map t | t in m.sup.tasks && m.sup.tasks[t].Ended? :: HomeOf(m.sup.tasks[t].ending);
    forall t | t in dest ensures t in m.admitted {
      assert At(m, t, Tracked);
    }
    forall t: TaskId, h ensures At(Reaped(m), t, h) <==> if t in dest then h == dest[t] else At(m, t, h) {
      ReapMoves(m, t, h);
    }
    MoveKeepsPlaced(m, Reaped(m), dest);
  }

  lemma AdmitPlaces(m: Machine, t: TaskId, n: Machine)
    requires Placed(m) && t !in m.admitted
    requires n == m.(sup := m.sup.(tasks := m.sup.tasks[t := Running]), admitted := m.admitted + {t})
    ensures Placed(n)
  {
    forall u: TaskId, h ensures At(n, u, h) <==> At(m, u, h) || (u == t && h == Tracked) {
    }
    forall u | u in n.admitted ensures exists h :: At(n, u, h) {
      if u == t {
        assert At(n, u, Tracked);
      } else {
        var h :| At(m, u, h);
        assert At(n, u, h);
      }
    }
  }

  lemma JoinPlaces(m: Machine, k: DrainId, t: TaskId)
    requires Placed(m) && Enabled(m, Join(k, t))
    ensures Placed(Do(m, Join(k, t)))
  {
    var n := Do(m, Join(k, t));
    assert At(m, t, Owned(k));
    var dest := map[t := HomeOf(m.drains[k].tasks[t].ending)];
    forall u: TaskId, h ensures At(n, u, h) <==> if u in dest then h == dest[u] else At(m, u, h) {
      if u == t {
        JoinMoves(m, k, t, h);
      } else {
        JoinLeaves(m, k, t, u, h);
      }
    }
    MoveKeepsPlaced(m, n, dest);
  }

  lemma JoinMoves(m: Machine, k: DrainId, t: TaskId, h: Home)
    requires Enabled(m, Join(k, t)) && forall g :: At(m, t, g) ==> g == Owned(k)
    ensures At(Do(m, Join(k, t)), t, h) <==> h == HomeOf(m.drains[k].tasks[t].ending)
  {
    assert At(m, t, h) ==> h == Owned(k);
    assert !At(m, t, Joined) && !At(m, t, CountedPanic) && !At(m, t, CountedCancel);
  }

  lemma JoinLeaves(m: Machine, k: DrainId, t: TaskId, u: TaskId, h: Home)
    requires Enabled(m, Join(k, t)) && u != t
    ensures At(Do(m, Join(k, t)), u, h) <==> At(m, u, h)
  {
  }

  lemma TakePlaces(m: Machine, k: DrainId)
    requires Placed(m) && Enabled(m, Take(k))
    ensures Placed(Do(m, Take(k)))
  {
    var n := Do(m, Take(k));
    var dest := map t | t in m.sup.tasks :: Owned(k);
    forall t | t in dest ensures t in m.admitted {
      assert At(m, t, Tracked);
    }
    forall t: TaskId, h ensures At(n, t, h) <==> if t in dest then h == dest[t] else At(m, t, h) {
      if t in dest {
        assert At(m, t, Tracked) && (At(m, t, h) ==> h == Tracked);
      }
    }
    MoveKeepsPlaced(m, n, dest);
  }

  lemma GiveUpPlaces(m: Machine, k: DrainId)
    requires Placed(m) && Enabled(m, GiveUp(k))
    ensures Placed(Do(m, GiveUp(k)))
  {
    var n := Do(m, GiveUp(k));
    var dest := map t | t in m.drains[k].tasks :: Dropped;
    forall t | t in dest ensures t in m.admitted {
      assert At(m, t, Owned(k));
    }
    forall t: TaskId, h ensures At(n, t, h) <==> if t in dest then h == dest[t] else At(m, t, h) {
      if t in dest {
        assert At(m, t, Owned(k)) && (At(m, t, h) ==> h == Owned(k));
      }
    }
    MoveKeepsPlaced(m, n, dest);
  }

  lemma OthersPlace(m: Machine, step: Step)
    requires Placed(m) && Enabled(m, step)
    requires step.End? || step.EndOwned? || step.Close? || step.Finish? || step.Abort?
    ensures Placed(Do(m, step))
  {
    var n := Do(m, step);
    forall t, h ensures At(n, t, h) <==> At(m, t, h) {
    }
    MoveKeepsPlaced(m, n, map[]);
  }

  lemma StepPlaces(m: Machine, step: Step)
    requires Placed(m) && Enabled(m, step)
    ensures Placed(Do(m, step))
  {
    match step
    case Spawn(t) =>
      ReapPlaces(m);
      if Admits(m.sup) {
        AdmitPlaces(Reaped(m), t, Do(m, step));
      }
    case Reap => ReapPlaces(m);
    case Take(k) => TakePlaces(m, k);
    case Join(k, t) => JoinPlaces(m, k, t);
    case GiveUp(k) => GiveUpPlaces(m, k);
    case _ => OthersPlace(m, step);
  }

  // --------------------------------------------------------------- counters

  /** The counters agree with the tasks they count. */
  ghost predicate Counted(m: Machine) {
    m.sup.panics == |m.panicked| && m.sup.cancellations == |m.cancelled|
  }

  lemma TrackedNotCounted(m: Machine, t: TaskId)
    requires Placed(m) && t in m.sup.tasks
    ensures t !in m.panicked && t !in m.cancelled
  {
    assert At(m, t, Tracked);
    assert At(m, t, CountedPanic) ==> CountedPanic == Tracked;
    assert At(m, t, CountedCancel) ==> CountedCancel == Tracked;
  }

  lemma ReapedApart(m: Machine)
    requires Placed(m)
    ensures m.panicked !! EndedWith(m.sup.tasks, Panicked) && m.cancelled !! EndedWith(m.sup.tasks, Cancelled)
  {
    forall t | t in m.sup.tasks ensures t !in m.panicked && t !in m.cancelled {
      TrackedNotCounted(m, t);
    }
  }

  lemma ReapCounts(m: Machine)
    requires Placed(m) && Counted(m) && |m.sup.tasks| <= MAX_JOBS
    ensures Counted(Reaped(m)) && |Reaped(m).sup.tasks| <= MAX_JOBS
  {
    ReapedApart(m);
    DisjointSizes(m.panicked, EndedWith(m.sup.tasks, Panicked));
    DisjointSizes(m.cancelled, EndedWith(m.sup.tasks, Cancelled));
    SubMap(StillRunning(m.sup.tasks), m.sup.tasks);
  }

  lemma DisjointSizes(a: set<TaskId>, b: set<TaskId>)
    requires a !! b
    ensures |a + b| == |a| + |b|
  {
  }

  lemma OwnedNotCounted(m: Machine, k: DrainId, t: TaskId)
    requires Placed(m) && k in m.drains && t in m.drains[k].tasks
    ensures t !in m.panicked && t !in m.cancelled
  {
    assert At(m, t, Owned(k));
    assert At(m, t, CountedPanic) ==> CountedPanic == Owned(k);
    assert At(m, t, CountedCancel) ==> CountedCancel == Owned(k);
  }

  lemma RecordCounts(m: Machine, t: TaskId, e: Ending)
    requires Counted(m) && t !in m.panicked && t !in m.cancelled
    ensures Counted(Recorded(m, t, e)) && Recorded(m, t, e).sup.tasks == m.sup.tasks
  {
    DisjointSizes(m.panicked, {t});
    DisjointSizes(m.cancelled, {t});
  }

  lemma JoinCounts(m: Machine, k: DrainId, t: TaskId)
    requires Counted(m) && t !in m.panicked && t !in m.cancelled && Enabled(m, Join(k, t))
    ensures Counted(Do(m, Join(k, t))) && Do(m, Join(k, t)).sup.tasks == m.sup.tasks
  {
    var d := m.drains[k];
    RecordCounts(m.(drains := m.drains[k := d.(tasks := d.tasks - {t})]), t, d.tasks[t].ending);
  }

  lemma StepCounts(m: Machine, step: Step)
    requires Invariant(m) && Enabled(m, step)
    ensures Counted(Do(m, step)) && |Do(m, step).sup.tasks| <= MAX_JOBS
  {
    match step
    case Spawn(_) => ReapCounts(m);
    case Reap => ReapCounts(m);
    case Join(k, t) =>
      OwnedNotCounted(m, k, t);
      JoinCounts(m, k, t);
    case End(t, e) => assert m.sup.tasks[t := Ended(e)].Keys == m.sup.tasks.Keys;
    case _ =>
  }

  lemma ReapCancels(m: Machine)
    requires NoEarlyCancel(m)
    ensures NoEarlyCancel(Reaped(m))
  {
    assert EndedWith(m.sup.tasks, Cancelled) == {};
  }

  lemma JoinCancels(m: Machine, k: DrainId, t: TaskId)
    requires NoEarlyCancel(m) && Enabled(m, Join(k, t))
    ensures NoEarlyCancel(Do(m, Join(k, t)))
  {
    var d := m.drains[k];
    assert Patient(d, m.expired);
    assert Patient(d.(tasks := d.tasks - {t}), m.expired);
  }

  lemma EndOwnedCancels(m: Machine, k: DrainId, t: TaskId, e: Ending)
    requires NoEarlyCancel(m) && Enabled(m, EndOwned(k, t, e))
    ensures NoEarlyCancel(Do(m, EndOwned(k, t, e)))
  {
    var d := m.drains[k];
    assert Patient(d, m.expired);
    assert Patient(d.(tasks := d.tasks[t := Ended(e)]), m.expired);
  }

  lemma TakeCancels(m: Machine, k: DrainId)
    requires NoEarlyCancel(m) && Enabled(m, Take(k))
    ensures NoEarlyCancel(Do(m, Take(k)))
  {
    assert Patient(Drain(m.sup.tasks, false), m.expired);
  }

  lemma StepCancels(m: Machine, step: Step)
    requires NoEarlyCancel(m) && Enabled(m, step)
    ensures NoEarlyCancel(Do(m, step))
  {
    match step
    case Spawn(_) => ReapCancels(m);
    case Reap => ReapCancels(m);
    case Join(k, t) => JoinCancels(m, k, t);
    case EndOwned(k, t, e) => EndOwnedCancels(m, k, t, e);
    case Take(k) => TakeCancels(m, k);
    case _ =>
  }

  lemma StepTaken(m: Machine, step: Step)
    requires m.taken ==> m.sup.closed && m.sup.tasks == map[]
    requires Enabled(m, step)
    ensures var n := Do(m, step); n.taken ==> n.sup.closed && n.sup.tasks == map[]
  {
  }

  lemma StepKeeps(m: Machine, step: Step)
    requires Invariant(m) && Enabled(m, step)
    ensures Invariant(Do(m, step))
  {
    StepPlaces(m, step);
    StepCounts(m, step);
    StepCancels(m, step);
    StepTaken(m, step);
  }

  // --------------------------------------------------------------- whole runs

  ghost predicate Init(m: Machine) {
    m == Machine(Supervisor(map[], false, 0, 0), map[], false, false, {}, {}, {}, {}, {}, map[])
  }

  ghost predicate Next(m: Machine, n: Machine) {
    exists step :: Enabled(m, step) && n == Do(m, step)
  }

  ghost predicate StepAt(ms: seq<Machine>, i: int) {
    0 <= i < |ms| - 1 && Next(ms[i], ms[i + 1])
  }

  ghost predicate Run(ms: seq<Machine>) {
    ms != [] && Init(ms[0]) && (forall i :: 0 <= i < |ms| - 1 ==> StepAt(ms, i))
  }

  /** Bounded, exactly placed and exactly counted, in every state of every run. */
  lemma {:induction false} EveryRunKeeps(ms: seq<Machine>, i: nat)
    requires Run(ms) && i < |ms|
    ensures Invariant(ms[i])
  {
    if i > 0 {
      EveryRunKeeps(ms, i - 1);
      assert StepAt(ms, i - 1);
      NextKeeps(ms[i - 1], ms[i]);
    }
  }

  lemma NextKeeps(m: Machine, n: Machine)
    requires Invariant(m) && Next(m, n)
    ensures Invariant(n)
  {
    var step :| Enabled(m, step) && n == Do(m, step);
    StepKeeps(m, step);
  }

  lemma NextAfterClose(m: Machine, n: Machine)
    requires m.sup.closed && Next(m, n)
    ensures n.sup.closed && n.admitted == m.admitted && (m.taken ==> n.taken)
  {
  }

  lemma RunAfterClose(ms: seq<Machine>, j: nat)
    requires Run(ms) && j + 1 < |ms| && ms[j].sup.closed
    ensures ms[j + 1].sup.closed && ms[j + 1].admitted == ms[j].admitted && (ms[j].taken ==> ms[j + 1].taken)
  {
    assert StepAt(ms, j);
    NextAfterClose(ms[j], ms[j + 1]);
  }

  lemma TakenIsEmpty(ms: seq<Machine>, i: nat)
    requires Run(ms) && i < |ms| && ms[i].taken
    ensures ms[i].sup.tasks == map[]
  {
    EveryRunKeeps(ms, i);
  }

  /** Nothing is admitted after close, and a set taken by shutdown stays empty for ever. */
  lemma {:induction false} ClosedForGood(ms: seq<Machine>, i: nat, j: nat)
    requires Run(ms) && i <= j < |ms| && ms[i].sup.closed
    ensures ms[j].sup.closed && ms[j].admitted == ms[i].admitted
    ensures ms[i].taken ==> ms[j].taken && ms[j].sup.tasks == map[]
    decreases j - i
  {
    if i < j {
      ClosedForGood(ms, i, j - 1);
      RunAfterClose(ms, j - 1);
    }
    if ms[i].taken {
      TakenIsEmpty(ms, j);
    }
  }

  /** Closing, and the first moment of a shutdown, end admission for good; the shutdown has all the tasks. */
  lemma ClosingEndsAdmission(ms: seq<Machine>, i: nat, j: nat, step: Step)
    requires Run(ms) && i < j < |ms| && (step.Close? || step.Take?)
    requires Enabled(ms[i], step) && ms[i + 1] == Do(ms[i], step)
    ensures ms[j].sup.closed && ms[j].admitted == ms[i].admitted
    ensures step.Take? ==> ms[j].sup.tasks == map[] && ms[i + 1].drains[step.k].tasks == ms[i].sup.tasks
  {
    ClosedForGood(ms, i + 1, j);
  }

  /** When no set is left, every admitted task is accounted for once. */
  lemma FinalAccount(ms: seq<Machine>, i: nat)
    requires Run(ms) && i < |ms| && ms[i].drains == map[] && ms[i].sup.tasks == map[]
    ensures var m := ms[i];
      |m.admitted| == |m.joined| + m.sup.panics + m.sup.cancellations + |m.dropped|
    ensures !ms[i].expired ==> ms[i].sup.cancellations == 0
  {
    EveryRunKeeps(ms, i);
    AllSettled(ms[i]);
    Apart(ms[i]);
    SumOfFour(ms[i].joined, ms[i].panicked, ms[i].cancelled, ms[i].dropped);
  }

  lemma AllSettled(m: Machine)
    requires Placed(m) && m.drains == map[] && m.sup.tasks == map[]
    ensures m.admitted == m.joined + m.panicked + m.cancelled + m.dropped
  {
    forall t ensures t in m.admitted <==> t in m.joined + m.panicked + m.cancelled + m.dropped {
      if t in m.admitted {
        var h :| At(m, t, h);
      }
      assert t in m.joined ==> At(m, t, Joined);
      assert t in m.panicked ==> At(m, t, CountedPanic);
      assert t in m.cancelled ==> At(m, t, CountedCancel);
      assert t in m.dropped ==> At(m, t, Dropped);
    }
  }

  lemma SumOfFour(a: set<TaskId>, b: set<TaskId>, c: set<TaskId>, d: set<TaskId>)
    requires a !! b && a + b !! c && a + b + c !! d
    ensures |a + b + c + d| == |a| + |b| + |c| + |d|
  {
    DisjointSizes(a, b);
    DisjointSizes(a + b, c);
    DisjointSizes(a + b + c, d);
  }

  lemma Apart(m: Machine)
    requires Placed(m)
    ensures m.joined !! m.panicked && m.joined + m.panicked !! m.cancelled
    ensures m.joined + m.panicked + m.cancelled !! m.dropped
  {
    forall t ensures !(t in m.joined && t in m.panicked) && !(t in m.joined + m.panicked && t in m.cancelled)
                     && !(t in m.joined + m.panicked + m.cancelled && t in m.dropped)
    {
      assert At(m, t, Joined) <==> t in m.joined;
      assert At(m, t, CountedPanic) <==> t in m.panicked;
      assert At(m, t, CountedCancel) <==> t in m.cancelled;
      assert At(m, t, Dropped) <==> t in m.dropped;
    }
  }

  // ----------------------------------------------------- admission and endings

  /** In every run an unused id is admitted exactly when admission is open and fewer than 64 tasks are running. */
  lemma AdmittedExactlyWhen(ms: seq<Machine>, i: nat, t: TaskId)
    requires Run(ms) && i < |ms| && t !in ms[i].admitted
    ensures var m, n := ms[i], Do(ms[i], Spawn(t));
      && (t in n.admitted <==> !m.sup.closed && |set u | u in m.sup.tasks && m.sup.tasks[u].Running?| < 64)
      && (t in n.admitted ==> n.sup.tasks == StillRunning(m.sup.tasks)[t := Running])
      && (t !in n.admitted ==> n.sup.tasks == StillRunning(m.sup.tasks))
  {
    AdmitsExactlyWhen(ms[i].sup);
  }

  /** A join set knows a task as running, or as ended the way it did. */
  ghost predicate Knows(tasks: JoinSet, endings: map<TaskId, Ending>) {
    forall t :: t in tasks ==>
      match tasks[t]
      case Running => t !in endings
      case Ended(e) => t in endings && endings[t] == e
  }

  ghost predicate AllEndedAs(ts: set<TaskId>, endings: map<TaskId, Ending>, e: Ending) {
    forall t :: t in ts ==> t in endings && endings[t] == e
  }

  /** Every record of a task says how it ended. */
  ghost predicate Truthful(m: Machine) {
    && m.endings.Keys <= m.admitted
    && Knows(m.sup.tasks, m.endings) && (forall k :: k in m.drains ==> Knows(m.drains[k].tasks, m.endings))
    && AllEndedAs(m.joined, m.endings, Completed)
    && AllEndedAs(m.panicked, m.endings, Panicked) && AllEndedAs(m.cancelled, m.endings, Cancelled)
  }

  /** One task of one set ends: no other set or record speaks of it. */
  lemma EndingKept(tasks: JoinSet, endings: map<TaskId, Ending>, t: TaskId, e: Ending)
    requires Knows(tasks, endings)
    ensures t !in tasks ==> Knows(tasks, endings[t := e])
    ensures Knows(tasks[t := Ended(e)], endings[t := e])
  {
  }

  lemma EndTruthful(m: Machine, t: TaskId, e: Ending)
    requires Placed(m) && Truthful(m) && Enabled(m, End(t, e))
    ensures Truthful(Do(m, End(t, e)))
  {
    assert At(m, t, Tracked);
    EndingKept(m.sup.tasks, m.endings, t, e);
    forall k | k in m.drains ensures Knows(m.drains[k].tasks, m.endings[t := e]) {
      assert At(m, t, Owned(k)) ==> Owned(k) == Tracked;
      EndingKept(m.drains[k].tasks, m.endings, t, e);
    }
  }

  lemma EndOwnedTruthful(m: Machine, k: DrainId, t: TaskId, e: Ending)
    requires Placed(m) && Truthful(m) && Enabled(m, EndOwned(k, t, e))
    ensures Truthful(Do(m, EndOwned(k, t, e)))
  {
    assert At(m, t, Owned(k));
    EndingKept(m.drains[k].tasks, m.endings, t, e);
    assert At(m, t, Tracked) ==> Tracked == Owned(k);
    EndingKept(m.sup.tasks, m.endings, t, e);
    forall j | j in m.drains && j != k ensures Knows(m.drains[j].tasks, m.endings[t := e]) {
      assert At(m, t, Owned(j)) ==> Owned(j) == Owned(k);
      EndingKept(m.drains[j].tasks, m.endings, t, e);
    }
  }

  lemma ReapTruthful(m: Machine)
    requires Truthful(m)
    ensures Truthful(Reaped(m))
  {
  }

  lemma JoinTruthful(m: Machine, k: DrainId, t: TaskId)
    requires Truthful(m) && Enabled(m, Join(k, t))
    ensures Truthful(Do(m, Join(k, t)))
  {
    assert Knows(m.drains[k].tasks, m.endings);
    assert Knows(m.drains[k].tasks - {t}, m.endings);
  }

  lemma StepTruthful(m: Machine, step: Step)
    requires Placed(m) && Truthful(m) && Enabled(m, step)
    ensures Truthful(Do(m, step))
  {
    match step
    case Spawn(_) => ReapTruthful(m);
    case Reap => ReapTruthful(m);
    case End(t, e) => EndTruthful(m, t, e);
    case EndOwned(k, t, e) => EndOwnedTruthful(m, k, t, e);
    case Join(k, t) => JoinTruthful(m, k, t);
    case _ =>
  }

  lemma NextTruthful(m: Machine, n: Machine)
    requires Placed(m) && Truthful(m) && Next(m, n)
    ensures Truthful(n)
  {
    var step :| Enabled(m, step) && n == Do(m, step);
    StepTruthful(m, step);
  }

  /** In every run each task is counted as what it ended as: joined, panicked or cancelled. */
  lemma {:induction false} CountsAreTrue(ms: seq<Machine>, i: nat)
    requires Run(ms) && i < |ms|
    ensures Truthful(ms[i])
  {
    if i > 0 {
      CountsAreTrue(ms, i - 1);
      EveryRunKeeps(ms, i - 1);
      assert StepAt(ms, i - 1);
      NextTruthful(ms[i - 1], ms[i]);
    }
  }

  lemma NoNewEnding(m: Machine, step: Step)
    requires Enabled(m, step) && !step.End? && !step.EndOwned?
    ensures Do(m, step).endings == m.endings
  {
  }

  lemma EndingOnce(m: Machine, step: Step, tasks: JoinSet)
    requires Enabled(m, step) && Knows(tasks, m.endings)
    requires (step.End? && tasks == m.sup.tasks) || (step.EndOwned? && tasks == m.drains[step.k].tasks)
    ensures step.t !in m.endings && Do(m, step).endings == m.endings[step.t := step.ending]
  {
  }

  lemma EndingStep(m: Machine, n: Machine, t: TaskId)
    requires Truthful(m) && Next(m, n) && t in m.endings
    ensures t in n.endings && n.endings[t] == m.endings[t]
  {
    var step :| Enabled(m, step) && n == Do(m, step);
    if step.End? {
      EndingOnce(m, step, m.sup.tasks);
    } else if step.EndOwned? {
      EndingOnce(m, step, m.drains[step.k].tasks);
    } else {
      NoNewEnding(m, step);
    }
  }

  lemma RunEndingStep(ms: seq<Machine>, j: nat, t: TaskId)
    requires Run(ms) && j + 1 < |ms| && t in ms[j].endings
    ensures t in ms[j + 1].endings && ms[j + 1].endings[t] == ms[j].endings[t]
  {
    CountsAreTrue(ms, j);
    assert StepAt(ms, j);
    EndingStep(ms[j], ms[j + 1], t);
  }

  lemma {:induction false} EndingStays(ms: seq<Machine>, i: nat, j: nat, t: TaskId)
    requires Run(ms) && i <= j < |ms| && t in ms[i].endings
    ensures t in ms[j].endings && ms[j].endings[t] == ms[i].endings[t]
    decreases j
  {
    if i < j {
      EndingStays(ms, i, j - 1, t);
      RunEndingStep(ms, j - 1, t);
    }
  }

  /** The task is counted as ended with `e`, given up, or waits to be joined as ended with `e`. */
  ghost predicate SettledAs(m: Machine, t: TaskId, e: Ending, h: Home) {
    match h
    case Tracked => At(m, t, h) && m.sup.tasks[t] == Ended(e)
    case Owned(k) => At(m, t, h) && m.drains[k].tasks[t] == Ended(e)
    case Dropped => true
    case _ => h == HomeOf(e)
  }

  /** From its end on a task is nowhere else than where tasks that ended like that go. */
  lemma EndingDecides(ms: seq<Machine>, i: nat, j: nat, step: Step, h: Home)
    requires Run(ms) && i < j < |ms| && (step.End? || step.EndOwned?)
    requires Enabled(ms[i], step) && ms[i + 1] == Do(ms[i], step) && At(ms[j], step.t, h)
    ensures SettledAs(ms[j], step.t, step.ending, h)
  {
    EndingStays(ms, i + 1, j, step.t);
    CountsAreTrue(ms, j);
    if h.Owned? {
      assert Knows(ms[j].drains[h.k].tasks, ms[j].endings);
    }
  }

  /** Reaping, and every attempt to spawn, joins all that has ended and nothing that has not. */
  lemma ReapJoinsAll(ms: seq<Machine>, i: nat, step: Step, t: TaskId)
    requires Run(ms) && i < |ms| && (step.Reap? || step.Spawn?) && Enabled(ms[i], step) && t in ms[i].sup.tasks
    ensures var n := Do(ms[i], step);
      match ms[i].sup.tasks[t]
      case Running => t in n.sup.tasks && n.sup.tasks[t] == Running
      case Ended(e) => t !in n.sup.tasks && At(n, t, HomeOf(e))
  {
    EveryRunKeeps(ms, i);
    assert At(ms[i], t, Tracked);
    ReapedAll(ms[i], t);
  }

  lemma ReapedAll(m: Machine, t: TaskId)
    requires t in m.sup.tasks
    ensures match m.sup.tasks[t]
            case Running => t in Reaped(m).sup.tasks && Reaped(m).sup.tasks[t] == Running
            case Ended(e) => t !in Reaped(m).sup.tasks && At(Reaped(m), t, HomeOf(e))
  {
  }

  // ------------------------------------------------- shutdown can always finish

  lemma Takes(m: Machine, step: Step)
    requires Enabled(m, step)
    ensures Next(m, Do(m, step))
  {
  }

  lemma Append(ms: seq<Machine>, n: Machine)
    requires Run(ms) && Next(ms[|ms| - 1], n)
    ensures Run(ms + [n])
  {
    var ns := ms + [n];
    forall i | 0 <= i < |ns| - 1 ensures StepAt(ns, i) {
      if i < |ms| - 1 {
        assert StepAt(ms, i) && ns[i] == ms[i] && ns[i + 1] == ms[i + 1];
      }
    }
  }

  lemma Extend(ms: seq<Machine>, step: Step) returns (ns: seq<Machine>)
    requires Run(ms) && Enabled(ms[|ms| - 1], step)
    ensures Run(ns) && ms <= ns && ns[|ns| - 1] == Do(ms[|ms| - 1], step)
  {
    Takes(ms[|ms| - 1], step);
    Append(ms, Do(ms[|ms| - 1], step));
    ns := ms + [Do(ms[|ms| - 1], step)];
  }

  lemma EndDrain(ms: seq<Machine>, k: DrainId) returns (ns: seq<Machine>)
    requires Run(ms) && k in ms[|ms| - 1].drains
    ensures Run(ns) && ms <= ns
    ensures var m, n := ms[|ms| - 1], ns[|ns| - 1];
      n.drains.Keys == m.drains.Keys - {k} && n.sup == m.sup && n.admitted == m.admitted
  {
    ns := ms;
    if !ms[|ms| - 1].drains[k].aborted {
      ns := Extend(ns, Abort(k));
    }
    ns := Extend(ns, GiveUp(k));
  }

  lemma {:induction false} EndDrains(ms: seq<Machine>) returns (ns: seq<Machine>)
    requires Run(ms)
    ensures Run(ns) && ms <= ns && ns[|ns| - 1].drains == map[]
    ensures ns[|ns| - 1].sup == ms[|ms| - 1].sup && ns[|ns| - 1].admitted == ms[|ms| - 1].admitted
    decreases ms[|ms| - 1].drains.Keys
  {
    ns := ms;
    if ms[|ms| - 1].drains != map[] {
      var k :| k in ms[|ms| - 1].drains;
      ns := EndDrain(ms, k);
      ns := EndDrains(ns);
    }
  }

  lemma UnusedId(ids: set<DrainId>) returns (k: DrainId)
    ensures forall i :: i in ids ==> i < k
  {
    k := 0;
    if ids != {} {
      var x :| x in ids;
      var above := UnusedId(ids - {x});
      k := if above > x then above else x + 1;
      forall i | i in ids ensures i < k {
        assert i == x || i in ids - {x};
      }
    }
  }

  /** From every state of every run, whatever the tasks do, a shutdown can end and account for all of them. */
  lemma ShutdownCanFinish(ms: seq<Machine>) returns (ns: seq<Machine>)
    requires Run(ms)
    ensures Run(ns) && ms <= ns
    ensures var m, n := ms[|ms| - 1], ns[|ns| - 1];
      && n.drains == map[] && n.sup.tasks == map[] && n.sup.closed && n.admitted == m.admitted
      && |m.admitted| == |n.joined| + n.sup.panics + n.sup.cancellations + |n.dropped|
  {
    var k := UnusedId(ms[|ms| - 1].drains.Keys);
    ns := Extend(ms, Take(k));
    ns := EndDrains(ns);
    FinalAccount(ns, |ns| - 1);
  }
}
