/**
 The private staging files of a restore: what each phase has there, that no other process
 touches them, and that only a kill or a power failure leaves any of them behind.
 */
module RestoreStaging {
  import opened Wrappers
  import opened DbNames
  import opened RestoreProtocol
  import opened LockExclusion
  import opened RestoreInvariant

  /** The staging log exists from the verification until it is trimmed. */
  predicate LogThere(p: Proc) {
    HasLog(p) || p.phase.Checkpointed?
  }

  /** What is bound in the staging directory at `path`. */
  ghost predicate StageRight(p: Proc, path: string, names: map<string, Inode>) {
    && (if Swapped(p) then path !in names else Get(names, path) == Some(p.main))
    && (if LogThere(p) then Get(names, Wal(path)) == Some(p.log) else Wal(path) !in names)
    && Shm(path) !in names
  }

  ghost predicate StageAt(s: State, pid: Pid) {
    pid in s.procs ==>
      var p := s.procs[pid];
      && (p.stage.Some? <==> p.kind == Restoring && HasStage(p))
      && (p.stage.Some? ==> StageRight(p, p.stage.value, s.fs.names))
  }

  ghost predicate SameStage(s: State, p: Pid, q: Pid) {
    p in s.procs && q in s.procs && s.procs[p].stage.Some? && s.procs[p].stage == s.procs[q].stage
  }

  ghost predicate StagesSafe(s: State) {
    && (forall pid :: StageAt(s, pid))
    && (forall p, q :: SameStage(s, p, q) ==> p == q)
  }

  lemma StageNamesDiffer(path: string)
    ensures path != Wal(path) && path != Shm(path) && Wal(path) != Shm(path)
  {
    OwnNames(path);
    LastLetters(path, "");
  }

  // --------------------------------------------------------------- own steps

  /** Steps of a restore that change no staging name. */
  predicate Still(step: Step) {
    step.Migrate? || step.CheckIntegrity? || step.Checkpoint? || step.FlushStage? || step.Link? || step.Clean?
    || step.FlushDir?
  }

  lemma StillStep(sql: Sqlite, dbs: set<string>, s: State, step: Step)
    requires Still(step) && Enabled(sql, dbs, s, step) && StageAt(s, step.pid)
    requires StageNames(s.procs[step.pid]) !! Names(s.procs[step.pid].db)
    ensures StageAt(Do(sql, dbs, s, step), step.pid)
  {
    var p, t := s.procs[step.pid], Do(sql, dbs, s, step);
    StillTouches(s, step);
    forall n | n in StageNames(p) ensures Get(t.fs.names, n) == Get(s.fs.names, n) {
      NamesFrame(sql, dbs, s, step, n);
    }
    StillShape(sql, dbs, s, step);
    assert {p.stage.value, Wal(p.stage.value), Shm(p.stage.value)} <= StageNames(p);
  }

  lemma StillTouches(s: State, step: Step)
    requires Still(step) && step.pid in s.procs
    ensures Touched(s, step) <= Names(s.procs[step.pid].db)
  {
  }

  lemma StillShape(sql: Sqlite, dbs: set<string>, s: State, step: Step)
    requires Still(step) && Enabled(sql, dbs, s, step)
    ensures var p, t := s.procs[step.pid], Do(sql, dbs, s, step);
      && step.pid in t.procs && t.procs[step.pid] == p.(phase := t.procs[step.pid].phase)
      && p.kind == Restoring && HasStage(p) && HasStage(t.procs[step.pid])
      && Swapped(t.procs[step.pid]) == Swapped(p) && LogThere(t.procs[step.pid]) == LogThere(p)
  {
  }

  lemma CreatingStep(sql: Sqlite, dbs: set<string>, s: State, step: Step)
    requires (step.Stage? || step.Verify?) && Enabled(sql, dbs, s, step) && StageAt(s, step.pid)
    ensures StageAt(Do(sql, dbs, s, step), step.pid)
  {
    var p := s.procs[step.pid];
    StageNamesDiffer(if step.Stage? then StagePath(p.db, step.tag) else p.stage.value);
  }

  /** After the checkpoint the staging log goes, and with the rename the staging file. */
  lemma RemovingStep(sql: Sqlite, dbs: set<string>, s: State, step: Step)
    requires (step.Trim? || step.Rename?) && Enabled(sql, dbs, s, step) && StageAt(s, step.pid)
    requires StageNames(s.procs[step.pid]) !! Names(s.procs[step.pid].db)
    ensures StageAt(Do(sql, dbs, s, step), step.pid)
  {
    var p := s.procs[step.pid];
    assert p.db in Names(p.db);
    StageNamesDiffer(p.stage.value);
  }

  lemma OwnStage(sql: Sqlite, dbs: set<string>, s: State, step: Step)
    requires SafetyInvariant(sql, dbs, s) && Enabled(sql, dbs, s, step) && !step.PowerLoss? && StageAt(s, step.pid)
    ensures StageAt(Do(sql, dbs, s, step), step.pid)
  {
    if step.Stage? || step.Verify? {
      CreatingStep(sql, dbs, s, step);
    } else if !step.Start? {
      assert ProcSafe(sql, dbs, s.procs[step.pid], s.fs, s.written);
      ClearOfOwn(dbs, s.procs[step.pid]);
      if Still(step) {
        StillStep(sql, dbs, s, step);
      } else if step.Trim? || step.Rename? {
        RemovingStep(sql, dbs, s, step);
      }
    }
  }

  // ------------------------------------------------------------ other's steps

  lemma StagesApart(a: string, b: string)
    requires a != b && EndsWith(a, 'e') && EndsWith(b, 'e')
    ensures {a, Wal(a), Shm(a)} !! {b, Wal(b), Shm(b)}
  {
    SidecarNamesDiffer(a, b);
    LastLetters(a, "");
    LastLetters(b, "");
  }

  lemma StageEnds(dbs: set<string>, s: State, pid: Pid)
    requires LockInvariant(dbs, s) && pid in s.procs && s.procs[pid].stage.Some?
    ensures EndsWith(s.procs[pid].stage.value, 'e')
  {
    var p := s.procs[pid];
    assert StageOf(p);
    var tag :| p.stage.value == StagePath(p.db, tag);
    LastLetters(p.db, tag);
  }

  /** Nobody else names a staging file. */
  lemma OthersLeaveStage(sql: Sqlite, dbs: set<string>, s: State, step: Step, pid: Pid, n: string)
    requires SafetyInvariant(sql, dbs, s) && StagesSafe(s) && Enabled(sql, dbs, s, step)
    requires pid in s.procs && n in StageNames(s.procs[pid]) && n in Touched(s, step)
    ensures step.pid == pid
  {
    TouchedNames(s, step, n);
    var p, q := s.procs[pid], s.procs[step.pid];
    assert ProcSafe(sql, dbs, p, s.fs, s.written) && q.db in dbs;
    assert n !in Names(q.db);
    StageEnds(dbs, s, pid);
    if step.pid != pid && n in StageNames(q) {
      StageEnds(dbs, s, step.pid);
      assert !SameStage(s, pid, step.pid);
      StagesApart(p.stage.value, q.stage.value);
    } else if step.pid != pid {
      LastLetters(q.db, step.tag);
      StagesApart(p.stage.value, n);
    }
  }

  lemma OthersStage(sql: Sqlite, dbs: set<string>, s: State, step: Step, pid: Pid)
    requires SafetyInvariant(sql, dbs, s) && StagesSafe(s) && Enabled(sql, dbs, s, step) && !step.PowerLoss?
    requires pid != step.pid
    ensures StageAt(Do(sql, dbs, s, step), pid)
  {
    var t := Do(sql, dbs, s, step);
    if pid in t.procs {
      OthersKept(sql, dbs, s, step, pid);
      assert StageAt(s, pid);
      var p := s.procs[pid];
      forall n | n in StageNames(p) ensures Get(t.fs.names, n) == Get(s.fs.names, n) {
        if n in Touched(s, step) {
          OthersLeaveStage(sql, dbs, s, step, pid, n);
        } else {
          NamesFrame(sql, dbs, s, step, n);
        }
      }
      assert p.stage.Some? ==> {p.stage.value, Wal(p.stage.value), Shm(p.stage.value)} <= StageNames(p);
    }
  }

  /** A step sets no staging path but a fresh one. */
  lemma StageOrigin(sql: Sqlite, dbs: set<string>, s: State, step: Step, pid: Pid)
    requires Enabled(sql, dbs, s, step) && pid in Do(sql, dbs, s, step).procs
    ensures var stage := Do(sql, dbs, s, step).procs[pid].stage;
      || stage.None? || (pid in s.procs && s.procs[pid].stage == stage)
      || (step.Stage? && step.pid == pid && FreshStage(dbs, s, stage.value))
  {
  }

  lemma StaysDistinct(sql: Sqlite, dbs: set<string>, s: State, step: Step, p: Pid, q: Pid)
    requires StagesSafe(s) && Enabled(sql, dbs, s, step) && SameStage(Do(sql, dbs, s, step), p, q)
    ensures p == q
  {
    StageOrigin(sql, dbs, s, step, p);
    StageOrigin(sql, dbs, s, step, q);
    assert SameStage(s, p, q) ==> p == q;
  }

  lemma StepKeepsStages(sql: Sqlite, dbs: set<string>, s: State, step: Step)
    requires SafetyInvariant(sql, dbs, s) && StagesSafe(s) && Enabled(sql, dbs, s, step)
    ensures StagesSafe(Do(sql, dbs, s, step))
  {
    var t := Do(sql, dbs, s, step);
    forall pid ensures StageAt(t, pid) {
      if step.PowerLoss? {
        assert pid !in t.procs;
      } else if pid == step.pid {
        assert StageAt(s, pid);
        OwnStage(sql, dbs, s, step);
      } else {
        OthersStage(sql, dbs, s, step, pid);
      }
    }
    forall p, q | SameStage(t, p, q) ensures p == q {
      StaysDistinct(sql, dbs, s, step, p, q);
    }
  }

  lemma NextKeepsStages(sql: Sqlite, dbs: set<string>, s: State, t: State)
    requires SafetyInvariant(sql, dbs, s) && StagesSafe(s) && Next(sql, dbs, s, t)
    ensures StagesSafe(t)
  {
    var step :| Enabled(sql, dbs, s, step) && t == Do(sql, dbs, s, step);
    StepKeepsStages(sql, dbs, s, step);
  }

  lemma RunStages(sql: Sqlite, dbs: set<string>, ss: seq<State>, i: nat)
    requires ApartRun(sql, dbs, ss) && i + 1 < |ss| && StagesSafe(ss[i])
    ensures StagesSafe(ss[i + 1])
  {
    RunKeepsSafety(sql, dbs, ss, i);
    assert StepAt(sql, dbs, ss, i);
    NextKeepsStages(sql, dbs, ss[i], ss[i + 1]);
  }

  /** In every state of every run each restore's staging directory holds what its phase says. */
  lemma {:induction false} RunKeepsStages(sql: Sqlite, dbs: set<string>, ss: seq<State>, i: nat)
    requires ApartRun(sql, dbs, ss) && i < |ss|
    ensures StagesSafe(ss[i])
  {
    if i > 0 {
      RunKeepsStages(sql, dbs, ss, i - 1);
      RunStages(sql, dbs, ss, i - 1);
    }
  }

  // ------------------------------------------------------ nothing left behind

  ghost predicate OrderlyStep(sql: Sqlite, dbs: set<string>, s: State, t: State) {
    exists step: Step :: !step.Kill? && !step.PowerLoss? && Enabled(sql, dbs, s, step) && t == Do(sql, dbs, s, step)
  }

  ghost predicate OrderlyAt(sql: Sqlite, dbs: set<string>, ss: seq<State>, k: int) {
    0 <= k < |ss| - 1 && OrderlyStep(sql, dbs, ss[k], ss[k + 1])
  }

  /** A name of a configured path, or of a live restore's staging directory. */
  ghost predicate Accounted(dbs: set<string>, s: State, n: string) {
    || (exists d :: d in dbs && n in Names(d))
    || (exists pid :: pid in s.procs && n in StageNames(s.procs[pid]))
  }

  lemma TouchedAccounted(sql: Sqlite, dbs: set<string>, s: State, step: Step, n: string)
    requires SafetyInvariant(sql, dbs, s) && StagesSafe(s) && Enabled(sql, dbs, s, step) && !step.Kill?
    requires n in Touched(s, step) && n in Do(sql, dbs, s, step).fs.names
    ensures Accounted(dbs, Do(sql, dbs, s, step), n)
  {
    TouchedNames(s, step, n);
    var p, t := s.procs[step.pid], Do(sql, dbs, s, step);
    assert p.db in dbs;
    if n !in Names(p.db) {
      assert step.pid in t.procs && n in StageNames(t.procs[step.pid]) by {
        StaysAccounted(sql, dbs, s, step, n);
      }
    }
  }

  lemma StaysAccounted(sql: Sqlite, dbs: set<string>, s: State, step: Step, n: string)
    requires !step.Kill? && !step.PowerLoss? && !step.Start? && StageAt(s, step.pid) && Enabled(sql, dbs, s, step)
    requires n in Do(sql, dbs, s, step).fs.names
    requires n in StageNames(s.procs[step.pid]) || (step.Stage? && n == StagePath(s.procs[step.pid].db, step.tag))
    ensures var t := Do(sql, dbs, s, step); step.pid in t.procs && n in StageNames(t.procs[step.pid])
  {
  }

  lemma OrderlyKeepsAccount(sql: Sqlite, dbs: set<string>, s: State, step: Step, n: string)
    requires SafetyInvariant(sql, dbs, s) && StagesSafe(s) && Enabled(sql, dbs, s, step)
    requires !step.Kill? && !step.PowerLoss? && n in Do(sql, dbs, s, step).fs.names
    requires n in s.fs.names ==> Accounted(dbs, s, n)
    ensures Accounted(dbs, Do(sql, dbs, s, step), n)
  {
    if n in Touched(s, step) {
      TouchedAccounted(sql, dbs, s, step, n);
    } else {
      NamesFrame(sql, dbs, s, step, n);
      if pid :| pid in s.procs && n in StageNames(s.procs[pid]) {
        assert StageAt(s, pid);
        LiveStageStays(sql, dbs, s, step, pid, n);
      }
    }
  }

  lemma LiveStageStays(sql: Sqlite, dbs: set<string>, s: State, step: Step, pid: Pid, n: string)
    requires StageAt(s, pid) && Enabled(sql, dbs, s, step) && !step.Kill? && !step.PowerLoss?
    requires pid in s.procs && n in StageNames(s.procs[pid]) && n !in Touched(s, step)
    ensures var t := Do(sql, dbs, s, step); pid in t.procs && n in StageNames(t.procs[pid])
  {
  }

  /**
   As long as nothing is killed and the power stays on, every name that was not there at
   the start belongs to a configured path or to a restore that is still running.
   */
  lemma {:induction false} NothingLeftBehind(sql: Sqlite, dbs: set<string>, ss: seq<State>, i: nat, n: string)
    requires ApartRun(sql, dbs, ss) && i < |ss| && (forall k :: 0 <= k < i ==> OrderlyAt(sql, dbs, ss, k))
    requires n in ss[i].fs.names && n !in ss[0].fs.names
    ensures Accounted(dbs, ss[i], n)
  {
    if i > 0 {
      RunKeepsSafety(sql, dbs, ss, i - 1);
      RunKeepsStages(sql, dbs, ss, i - 1);
      assert OrderlyAt(sql, dbs, ss, i - 1);
      var s := ss[i - 1];
      if n in s.fs.names {
        NothingLeftBehind(sql, dbs, ss, i - 1, n);
      }
      OneOrderlyStep(sql, dbs, s, ss[i], n);
    }
  }

  lemma OneOrderlyStep(sql: Sqlite, dbs: set<string>, s: State, t: State, n: string)
    requires SafetyInvariant(sql, dbs, s) && StagesSafe(s) && OrderlyStep(sql, dbs, s, t) && n in t.fs.names
    requires n in s.fs.names ==> Accounted(dbs, s, n)
    ensures Accounted(dbs, t, n)
  {
    var step: Step :| !step.Kill? && !step.PowerLoss? && Enabled(sql, dbs, s, step) && t == Do(sql, dbs, s, step);
    OrderlyKeepsAccount(sql, dbs, s, step, n);
  }
}
