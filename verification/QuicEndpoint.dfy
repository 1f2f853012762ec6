/**
 The lazily built QUIC endpoint: a write-once cell and a build mutex, used by any
 number of threads. Each step below is one atomic action of `endpoint`; threads
 interleave freely, builds may fail, and a thread may call again.
 */
module QuicEndpoint {
  import opened Wrappers

  type ThreadId = nat

  /** Endpoints are numbered in the order they are built. */
  type EndpointId = nat

  /** Where a thread is in `endpoint`, with what it has in hand. */
  datatype Pc =
    | Idle
    | FastGet
    | Waiting
    | Recheck
    | Building
    | Built(made: EndpointId)
    | FinalGet
    | Releasing(got: Option<EndpointId>)
    | Returned(result: Option<EndpointId>)

  /** The cell, the mutex's holder, how many endpoints were ever built, and the threads. */
  datatype State = State(cell: Option<EndpointId>, holder: Option<ThreadId>, built: nat, threads: map<ThreadId, Pc>)

  datatype Action = Call | Get | Lock | GetAgain | BuildFails | BuildSucceeds | Set | GetLast | Unlock | Leave

  datatype Step = Step(thread: ThreadId, action: Action)

  function At(s: State, t: ThreadId): Pc {
    if t in s.threads then s.threads[t] else Idle
  }

  predicate Enabled(s: State, step: Step) {
    var pc := At(s, step.thread);
    match step.action
    case Call => pc.Idle?
    case Get => pc.FastGet?
    case Lock => pc.Waiting? && s.holder.None?
    case GetAgain => pc.Recheck?
    case BuildFails => pc.Building?
    case BuildSucceeds => pc.Building?
    case Set => pc.Built?
    case GetLast => pc.FinalGet?
    case Unlock => pc.Releasing?
    case Leave => pc.Returned?
  }

  function Goto(s: State, t: ThreadId, pc: Pc): State {
    s.(threads := s.threads[t := pc])
  }

  function Do(s: State, step: Step): State
    requires Enabled(s, step)
  {
    var t := step.thread;
    match step.action
    case Call => Goto(s, t, FastGet)
    case Get => Goto(s, t, if s.cell.Some? then Returned(s.cell) else Waiting)
    case Lock => Goto(s.(holder := Some(t)), t, Recheck)
    case GetAgain => Goto(s, t, if s.cell.Some? then Releasing(s.cell) else Building)
    case BuildFails => Goto(s, t, Releasing(None))
    case BuildSucceeds => Goto(s.(built := s.built + 1), t, Built(s.built))
    case Set => Goto(s.(cell := if s.cell.None? then Some(At(s, t).made) else s.cell), t, FinalGet)
    case GetLast => Goto(s, t, Releasing(s.cell))
    case Unlock => Goto(s.(holder := None), t, Returned(At(s, t).got))
    case Leave => Goto(s, t, Idle)
  }

  const Start := State(None, None, 0, map[])

  ghost predicate Next(s: State, s': State) {
    exists step :: Enabled(s, step) && s' == Do(s, step)
  }

  ghost predicate StepAt(ss: seq<State>, i: nat)
    requires i + 1 < |ss|
  {
    Next(ss[i], ss[i + 1])
  }

  ghost predicate Run(ss: seq<State>) {
    && |ss| > 0 && ss[0] == Start
    && forall i :: 0 <= i < |ss| - 1 ==> StepAt(ss, i)
  }

  // ----------------------------------------------------------- the invariant

  predicate InsideLock(pc: Pc) {
    pc.Recheck? || pc.Building? || pc.Built? || pc.FinalGet? || pc.Releasing?
  }

  /** What one thread's place says of the shared state. */
  ghost predicate ThreadOk(s: State, t: ThreadId, pc: Pc) {
    && (InsideLock(pc) <==> s.holder == Some(t))
    && (pc.Building? ==> s.built == 0)
    && (pc.Built? ==> s.cell.None? && s.built == 1 && pc.made == 0)
    && (pc.FinalGet? ==> s.cell.Some?)
    && (pc.Releasing? && pc.got.Some? ==> s.cell == pc.got)
    && (pc.Returned? && pc.result.Some? ==> s.cell == pc.result)
  }

  /** An endpoint that was built is in the cell, or in the hands of the thread about to put it there. */
  ghost predicate Invariant(s: State) {
    && (forall t :: ThreadOk(s, t, At(s, t)))
    && s.built <= 1
    && (s.cell.Some? ==> s.cell == Some(0) && s.built == 1)
    && (s.built == 1 && s.cell.None? ==> s.holder.Some? && At(s, s.holder.value).Built?)
  }

  /** Changing thread `t` and the shared fields is fine if `t` and every thread outside the lock agree. */
  lemma OthersKeep(s: State, s': State, t: ThreadId)
    requires forall u :: ThreadOk(s, u, At(s, u))
    requires s'.threads == s.threads[t := At(s', t)]
    requires ThreadOk(s', t, At(s', t))
    requires s'.cell == s.cell || s.cell.None?
    requires s.holder == Some(t) || (s'.cell == s.cell && s'.built == s.built)
    requires || s'.holder == s.holder
             || (s.holder.None? && s'.holder == Some(t)) || (s.holder == Some(t) && s'.holder.None?)
    ensures forall u :: ThreadOk(s', u, At(s', u))
  {
    forall u ensures ThreadOk(s', u, At(s', u)) {
      if u != t {
        assert ThreadOk(s, u, At(s, u)) && At(s', u) == At(s, u);
      }
    }
  }

  lemma StepKeeps(s: State, step: Step)
    requires Invariant(s) && Enabled(s, step)
    ensures Invariant(Do(s, step))
    ensures s.cell.Some? ==> Do(s, step).cell == s.cell
  {
    var s', t := Do(s, step), step.thread;
    assert ThreadOk(s, t, At(s, t));
    OthersKeep(s, s', t);
  }

  lemma {:induction false} RunKeeps(ss: seq<State>, i: nat)
    requires Run(ss) && i < |ss|
    ensures Invariant(ss[i])
  {
    if i > 0 {
      RunKeeps(ss, i - 1);
      assert StepAt(ss, i - 1);
      var step :| Enabled(ss[i - 1], step) && ss[i] == Do(ss[i - 1], step);
      StepKeeps(ss[i - 1], step);
    }
  }

  // ------------------------------------------------------------ main results

  /** At most one endpoint is ever built, however many threads race and however many builds failed before. */
  lemma AtMostOneBuilt(ss: seq<State>, i: nat)
    requires Run(ss) && i < |ss|
    ensures ss[i].built <= 1
    ensures ss[i].holder.None? && ss[i].cell.None? ==> ss[i].built == 0
  {
    RunKeeps(ss, i);
  }

  /** Once in the cell, the endpoint is never replaced. */
  lemma {:induction false} NeverReplaced(ss: seq<State>, i: nat, j: nat)
    requires Run(ss) && i <= j < |ss| && ss[i].cell.Some?
    ensures ss[j].cell == ss[i].cell
    decreases j
  {
    if i < j {
      NeverReplaced(ss, i, j - 1);
      RunKeeps(ss, j - 1);
      assert StepAt(ss, j - 1);
      var step :| Enabled(ss[j - 1], step) && ss[j] == Do(ss[j - 1], step);
      StepKeeps(ss[j - 1], step);
    }
  }

  /** Any two successful callers, at any two moments, got the same endpoint: the one in the cell. */
  lemma EveryCallerGetsIt(ss: seq<State>, i: nat, t: ThreadId, j: nat, u: ThreadId)
    requires Run(ss) && i < |ss| && j < |ss|
    requires At(ss[i], t).Returned? && At(ss[i], t).result.Some?
    requires At(ss[j], u).Returned? && At(ss[j], u).result.Some?
    ensures At(ss[i], t).result == ss[i].cell
    ensures At(ss[i], t).result == At(ss[j], u).result
  {
    RunKeeps(ss, i);
    RunKeeps(ss, j);
    assert ThreadOk(ss[i], t, At(ss[i], t)) && ThreadOk(ss[j], u, At(ss[j], u));
  }

  /** A built endpoint always reaches the cell: `set` never finds it taken, the last `get` never finds it empty. */
  lemma BuiltIsKept(ss: seq<State>, i: nat, t: ThreadId)
    requires Run(ss) && i < |ss|
    ensures At(ss[i], t).Built? ==> Do(ss[i], Step(t, Set)).cell == Some(At(ss[i], t).made)
    ensures At(ss[i], t).FinalGet? ==> At(Do(ss[i], Step(t, GetLast)), t) == Releasing(Some(0))
  {
    RunKeeps(ss, i);
    assert ThreadOk(ss[i], t, At(ss[i], t));
  }

  /** At most one thread is between taking and releasing the build mutex. */
  lemma OneBuilder(ss: seq<State>, i: nat, t: ThreadId, u: ThreadId)
    requires Run(ss) && i < |ss| && InsideLock(At(ss[i], t)) && InsideLock(At(ss[i], u))
    ensures t == u
  {
    RunKeeps(ss, i);
    assert ThreadOk(ss[i], t, At(ss[i], t)) && ThreadOk(ss[i], u, At(ss[i], u));
  }

  // -------------------------------------------------------- what a call returns

  /** The thread is in a call that has not failed; what it has in hand is in the cell. */
  ghost predicate OnTrack(pc: Pc, cell: Option<EndpointId>) {
    match pc
    case FastGet | Waiting | Recheck | FinalGet => true
    case Releasing(got) => got == cell
    case Returned(result) => result == cell
    case _ => false
  }

  /** The thread stays inside one call. */
  ghost predicate InCall(ss: seq<State>, t: ThreadId, i: nat, j: nat) {
    j < |ss| && forall k :: i <= k <= j ==> !At(ss[k], t).Idle?
  }

  lemma TrackStays(s: State, step: Step, t: ThreadId)
    requires Invariant(s) && Enabled(s, step) && s.cell.Some? && OnTrack(At(s, t), s.cell)
    ensures OnTrack(At(Do(s, step), t), s.cell) || At(Do(s, step), t).Idle?
  {
  }

  /** A call that is still looking when the cell is filled returns what is in it. */
  lemma {:induction false} FilledMeansSuccess(ss: seq<State>, i: nat, j: nat, t: ThreadId)
    requires Run(ss) && i <= j && InCall(ss, t, i, j)
    requires ss[i].cell.Some? && OnTrack(At(ss[i], t), ss[i].cell)
    ensures OnTrack(At(ss[j], t), ss[i].cell)
    ensures At(ss[j], t).Returned? ==> At(ss[j], t).result == ss[i].cell
    decreases j
  {
    if i < j {
      FilledMeansSuccess(ss, i, j - 1, t);
      NeverReplaced(ss, i, j - 1);
      RunKeeps(ss, j - 1);
      assert StepAt(ss, j - 1);
      var step :| Enabled(ss[j - 1], step) && ss[j] == Do(ss[j - 1], step);
      TrackStays(ss[j - 1], step, t);
    }
  }

  predicate Failing(pc: Pc) {
    pc == Releasing(None) || pc == Returned(None)
  }

  /** The thread's own build fails at step `b`. */
  ghost predicate BuildFailsAt(ss: seq<State>, t: ThreadId, b: nat) {
    b + 1 < |ss| && At(ss[b], t).Building? && At(ss[b + 1], t) == Releasing(None)
  }

  lemma FailureOrigin(s: State, step: Step, t: ThreadId)
    requires Invariant(s) && Enabled(s, step)
    ensures Failing(At(Do(s, step), t)) ==> Failing(At(s, t)) || (At(s, t).Building? && step == Step(t, BuildFails))
    ensures Failing(At(s, t)) ==> Failing(At(Do(s, step), t)) || At(Do(s, step), t).Idle?
  {
    assert ThreadOk(s, t, At(s, t));
  }

  /** A call that returns nothing does so because its own build failed, not another thread's. */
  lemma {:induction false} FailsOnlyByOwnBuild(ss: seq<State>, j: nat, t: ThreadId) returns (b: nat)
    requires Run(ss) && j < |ss| && Failing(At(ss[j], t))
    ensures b < j && BuildFailsAt(ss, t, b) && InCall(ss, t, b, j)
    decreases j
  {
    RunKeeps(ss, j - 1);
    assert StepAt(ss, j - 1);
    var step :| Enabled(ss[j - 1], step) && ss[j] == Do(ss[j - 1], step);
    FailureOrigin(ss[j - 1], step, t);
    if Failing(At(ss[j - 1], t)) {
      b := FailsOnlyByOwnBuild(ss, j - 1, t);
    } else {
      b := j - 1;
    }
  }

  /** And after a failed build of its own it returns nothing, even if another thread has filled the cell since. */
  lemma {:induction false} OwnFailureIsReported(ss: seq<State>, b: nat, j: nat, t: ThreadId)
    requires Run(ss) && b < j && BuildFailsAt(ss, t, b) && InCall(ss, t, b, j)
    ensures Failing(At(ss[j], t))
    decreases j
  {
    if b + 1 < j {
      OwnFailureIsReported(ss, b, j - 1, t);
      RunKeeps(ss, j - 1);
      assert StepAt(ss, j - 1);
      var step :| Enabled(ss[j - 1], step) && ss[j] == Do(ss[j - 1], step);
      FailureOrigin(ss[j - 1], step, t);
    }
  }
}
