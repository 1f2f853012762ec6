/**
 At most one process at a time holds the lock of a database path, in every run,
 exactly because no configured path is another one's lock sidecar.
 */
module LockExclusion {
  import opened Wrappers
  import opened DbNames
  import opened RestoreProtocol
  import opened RestoreRuns

  /** The condition on the configured paths. */
  ghost predicate NoPathIsASidecar(dbs: set<string>) {
    forall d, e :: d in dbs && e in dbs ==> e != Sidecar(d)
  }

  ghost predicate Holder(s: State, p: Pid) {
    p in s.procs && Holds(s.procs[p])
  }

  ghost predicate Exclusive(s: State) {
    forall p, q :: Holder(s, p) && Holder(s, q) && s.procs[p].db == s.procs[q].db ==> p == q
  }

  ghost predicate StageOf(p: Proc) {
    p.stage.None? || exists tag :: p.stage.value == StagePath(p.db, tag)
  }

  /** Locks name live holders, and every holder has its lock. */
  ghost predicate LocksMatch(s: State) {
    && (forall p :: Holder(s, p) ==> Get(s.locks, s.procs[p].fd) == Some(p))
    && (forall i :: i in s.locks ==> Holder(s, s.locks[i]) && s.procs[s.locks[i]].fd == i)
  }

  /** A process that opened its sidecar has the inode that the name still denotes. */
  ghost predicate SidecarsStable(s: State) {
    forall p :: p in s.procs && !s.procs[p].phase.Starting? ==>
      Get(s.fs.names, Sidecar(s.procs[p].db)) == Some(s.procs[p].fd)
  }

  ghost predicate LockInvariant(dbs: set<string>, s: State) {
    && (forall p :: p in s.procs ==> s.procs[p].db in dbs && StageOf(s.procs[p]))
    && LocksMatch(s) && SidecarsStable(s)
  }

  lemma InvariantMeansExclusive(dbs: set<string>, s: State)
    requires LockInvariant(dbs, s)
    ensures Exclusive(s)
  {
  }

  /** The sidecar is none of the names a process with path `e` binds or removes. */
  lemma SidecarUntouched(dbs: set<string>, d: string, e: string, tag: string)
    requires NoPathIsASidecar(dbs) && d in dbs && e in dbs
    ensures Sidecar(d) !in {e, Wal(e), Shm(e), Rollback(e)}
    ensures var path := StagePath(e, tag); Sidecar(d) !in {path, Wal(path), Shm(path)}
  {
    LastLetters(d, tag);
    LastLetters(e, tag);
    LastLetters(StagePath(e, tag), tag);
  }

  /** No step but a power failure, which ends all processes, rebinds or removes a bound sidecar. */
  lemma StepKeepsSidecar(sql: Sqlite, dbs: set<string>, s: State, step: Step, d: string)
    requires NoPathIsASidecar(dbs) && LockInvariant(dbs, s) && Enabled(sql, dbs, s, step) && d in dbs
    requires !step.PowerLoss? && Sidecar(d) in s.fs.names
    ensures Get(Do(sql, dbs, s, step).fs.names, Sidecar(d)) == Get(s.fs.names, Sidecar(d))
  {
    SidecarNotTouched(dbs, s, step, d);
    NamesFrame(sql, dbs, s, step, Sidecar(d));
  }

  lemma SidecarNotTouched(dbs: set<string>, s: State, step: Step, d: string)
    requires NoPathIsASidecar(dbs) && LockInvariant(dbs, s) && d in dbs
    requires Sidecar(d) in s.fs.names
    ensures Sidecar(d) !in Touched(s, step)
  {
    forall n | n in Touched(s, step) ensures n != Sidecar(d) {
      TouchedNames(s, step, n);
      var p := s.procs[step.pid];
      SidecarUntouched(dbs, d, p.db, if step.Stage? then step.tag else "");
      SidecarNotStaged(dbs, p, d);
    }
  }

  lemma SidecarNotStaged(dbs: set<string>, p: Proc, d: string)
    requires NoPathIsASidecar(dbs) && p.db in dbs && StageOf(p) && d in dbs
    ensures Sidecar(d) !in StageNames(p)
  {
    if p.stage.Some? {
      var tag :| p.stage.value == StagePath(p.db, tag);
      SidecarUntouched(dbs, d, p.db, tag);
    }
  }

  /** What a step cannot change about a process that is not opening its sidecar. */
  lemma ProcFrame(sql: Sqlite, dbs: set<string>, s: State, step: Step, p: Pid)
    requires Enabled(sql, dbs, s, step) && p in Do(sql, dbs, s, step).procs
    requires !Do(sql, dbs, s, step).procs[p].phase.Starting? && !(step.Open? && step.pid == p)
    ensures var t := Do(sql, dbs, s, step);
      p in s.procs && !s.procs[p].phase.Starting? && t.procs[p].db == s.procs[p].db && t.procs[p].fd == s.procs[p].fd
  {
    if Quiet(step) {
      QuietStep(sql, dbs, s, step);
    }
  }

  lemma StepKeepsSidecars(sql: Sqlite, dbs: set<string>, s: State, step: Step)
    requires NoPathIsASidecar(dbs) && LockInvariant(dbs, s) && Enabled(sql, dbs, s, step)
    ensures SidecarsStable(Do(sql, dbs, s, step))
  {
    var t := Do(sql, dbs, s, step);
    forall p | p in t.procs && !t.procs[p].phase.Starting?
      ensures Get(t.fs.names, Sidecar(t.procs[p].db)) == Some(t.procs[p].fd)
    {
      if !(step.Open? && step.pid == p) {
        ProcFrame(sql, dbs, s, step, p);
        StepKeepsSidecar(sql, dbs, s, step, s.procs[p].db);
      }
    }
  }

  lemma QuietKeepsLocks(s: State, t: State, pid: Pid)
    requires LocksMatch(s) && QuietShape(s, t, pid)
    ensures LocksMatch(t)
  {
    assert forall p :: Holder(t, p) <==> Holder(s, p);
  }

  lemma DropKeepsLocks(s: State, pid: Pid, fs: Fs)
    requires LocksMatch(s) && pid in s.procs
    ensures LocksMatch(Drop(s, pid, fs))
  {
    assert forall p :: Holder(Drop(s, pid, fs), p) <==> Holder(s, p) && p != pid;
  }

  lemma TakeKeepsLocks(s: State, t: State, pid: Pid)
    requires LocksMatch(s) && pid in s.procs && !Holder(s, pid) && s.procs[pid].fd !in s.locks
    requires pid in t.procs && t.procs == s.procs[pid := t.procs[pid]] && Holds(t.procs[pid])
    requires t.procs[pid].fd == s.procs[pid].fd && t.locks == s.locks[s.procs[pid].fd := pid]
    ensures LocksMatch(t)
  {
    assert forall p :: Holder(t, p) <==> Holder(s, p) || p == pid;
  }

  lemma IdleKeepsLocks(s: State, t: State, pid: Pid)
    requires LocksMatch(s) && !Holder(s, pid) && t.locks == s.locks
    requires pid in t.procs && t.procs == s.procs[pid := t.procs[pid]] && !Holds(t.procs[pid])
    ensures LocksMatch(t)
  {
    assert forall p :: Holder(t, p) <==> Holder(s, p);
  }

  lemma StepKeepsLocks(sql: Sqlite, dbs: set<string>, s: State, step: Step)
    requires LockInvariant(dbs, s) && Enabled(sql, dbs, s, step)
    ensures LocksMatch(Do(sql, dbs, s, step))
  {
    var t := Do(sql, dbs, s, step);
    if Quiet(step) {
      QuietStep(sql, dbs, s, step);
      QuietKeepsLocks(s, t, step.pid);
    } else if step.Exit? || step.Kill? {
      DropKeepsLocks(s, step.pid, t.fs);
    } else if step.TryLock? {
      TakeKeepsLocks(s, t, step.pid);
    } else if step.Start? || step.Open? {
      IdleKeepsLocks(s, t, step.pid);
    }
  }

  lemma StepKeepsStages(sql: Sqlite, dbs: set<string>, s: State, step: Step)
    requires LockInvariant(dbs, s) && Enabled(sql, dbs, s, step)
    ensures forall p :: p in Do(sql, dbs, s, step).procs ==>
      Do(sql, dbs, s, step).procs[p].db in dbs && StageOf(Do(sql, dbs, s, step).procs[p])
  {
    var t := Do(sql, dbs, s, step);
    if Quiet(step) {
      QuietStep(sql, dbs, s, step);
      QuietKeepsStages(dbs, s, t, step.pid, if step.Stage? then step.tag else "");
    } else {
      forall p | p in t.procs ensures t.procs[p].db in dbs && StageOf(t.procs[p]) {
        OtherKeepsStage(sql, dbs, s, step, p);
      }
    }
  }

  lemma QuietKeepsStages(dbs: set<string>, s: State, t: State, pid: Pid, tag: string)
    requires (forall p :: p in s.procs ==> s.procs[p].db in dbs && StageOf(s.procs[p])) && QuietShape(s, t, pid)
    requires t.procs[pid].stage in {s.procs[pid].stage, None, Some(StagePath(s.procs[pid].db, tag))}
    ensures forall p :: p in t.procs ==> t.procs[p].db in dbs && StageOf(t.procs[p])
  {
  }

  lemma OtherKeepsStage(sql: Sqlite, dbs: set<string>, s: State, step: Step, p: Pid)
    requires Enabled(sql, dbs, s, step) && !Quiet(step) && p in Do(sql, dbs, s, step).procs
    requires forall q :: q in s.procs ==> s.procs[q].db in dbs && StageOf(s.procs[q])
    ensures Do(sql, dbs, s, step).procs[p].db in dbs && StageOf(Do(sql, dbs, s, step).procs[p])
  {
  }

  lemma StepKeepsInvariant(sql: Sqlite, dbs: set<string>, s: State, step: Step)
    requires NoPathIsASidecar(dbs) && LockInvariant(dbs, s) && Enabled(sql, dbs, s, step)
    ensures LockInvariant(dbs, Do(sql, dbs, s, step))
  {
    StepKeepsLocks(sql, dbs, s, step);
    StepKeepsStages(sql, dbs, s, step);
    StepKeepsSidecars(sql, dbs, s, step);
  }

  lemma {:induction false} RunKeepsInvariant(sql: Sqlite, dbs: set<string>, ss: seq<State>, i: nat)
    requires NoPathIsASidecar(dbs) && Run(sql, dbs, ss) && i < |ss|
    ensures LockInvariant(dbs, ss[i])
  {
    if i > 0 {
      RunKeepsInvariant(sql, dbs, ss, i - 1);
      assert StepAt(sql, dbs, ss, i - 1);
      var step :| Enabled(sql, dbs, ss[i - 1], step) && ss[i] == Do(sql, dbs, ss[i - 1], step);
      StepKeepsInvariant(sql, dbs, ss[i - 1], step);
    }
  }

  // ------------------------------------------------- the condition is needed

  /** A server takes the lock of `d`; its sidecar is inode 0. */
  lemma FirstServer(sql: Sqlite, dbs: set<string>, d: string) returns (ss: seq<State>, s: State)
    requires d in dbs
    ensures RunTo(sql, dbs, ss, s)
    ensures s.fs.names == map[Sidecar(d) := 0] && s.fs.next == 1
    ensures s.locks == map[0 := 0] && s.procs.Keys == {0} && Holds(s.procs[0]) && s.procs[0].db == d
    ensures s.procs[0].stage.None?
  {
    s := State(Fs(map[], map[], map[], {}, 0), map[], map[], {});
    ss := [s];
    ss := Extend(sql, dbs, ss, s, Start(0, d, Serving, []));
    s := Do(sql, dbs, s, Start(0, d, Serving, []));
    ss := Extend(sql, dbs, ss, s, Open(0));
    s := Do(sql, dbs, s, Open(0));
    ss := Extend(sql, dbs, ss, s, TryLock(0));
    s := Do(sql, dbs, s, TryLock(0));
  }

  /** A restore whose path is that sidecar takes its own lock, inode 1. */
  lemma SecondLocks(sql: Sqlite, dbs: set<string>, d: string, snapshot: Db) returns (ss: seq<State>, s: State)
    requires d in dbs && Sidecar(d) in dbs
    ensures RunTo(sql, dbs, ss, s)
    ensures var e := Sidecar(d);
      && s.fs.names == map[e := 0, Sidecar(e) := 1] && s.fs.next == 2
      && s.locks == map[0 := 0, 1 := 1] && s.procs.Keys == {0, 1} && Holds(s.procs[0]) && s.procs[0].db == d
      && At(s, 1, Locked) && s.procs[1].db == e && s.procs[1].snapshot == snapshot && s.procs[1].stage.None?
      && s.procs[0].stage.None? && (forall n :: n in s.fs.names ==> EndsWith(n, 'k'))
  {
    var e := Sidecar(d);
    LastLetters(d, "");
    LastLetters(e, "");
    SidecarIsLonger(d);
    SidecarIsLonger(e);
    ss, s := FirstServer(sql, dbs, d);
    ss := Extend(sql, dbs, ss, s, Start(1, e, Restoring, snapshot));
    s := Do(sql, dbs, s, Start(1, e, Restoring, snapshot));
    ss := Extend(sql, dbs, ss, s, Open(1));
    s := Do(sql, dbs, s, Open(1));
    ss := Extend(sql, dbs, ss, s, TryLock(1));
    s := Do(sql, dbs, s, TryLock(1));
  }

  lemma TagIsFresh(dbs: set<string>, s: State, d: string, tag: string)
    requires forall x :: x in dbs ==> |x| < |tag| && |Rollback(x)| < |tag|
    requires forall n :: n in s.fs.names ==> EndsWith(n, 'k')
    requires forall p :: p in s.procs ==> s.procs[p].stage.None?
    requires Sidecar(d) in dbs
    ensures var e := Sidecar(d); var path := StagePath(e, tag);
      && FreshStage(dbs, s, path)
      && e !in {path, Wal(path), Shm(path)} && Rollback(e) !in {path, Wal(path), Shm(path)}
      && Rollback(e) !in s.fs.names
  {
    var e := Sidecar(d);
    var path := StagePath(e, tag);
    LastLetters(d, tag);
    LastLetters(e, tag);
    LastLetters(path, tag);
    assert |path| >= |tag|;
  }

  lemma SecondReady(sql: Sqlite, dbs: set<string>, d: string, snapshot: Db)
    returns (ss: seq<State>, s: State, tag: string)
    requires d in dbs && Sidecar(d) in dbs
    ensures RunTo(sql, dbs, ss, s) && At(s, 1, Locked) && s.procs[1].db == Sidecar(d) && s.procs[1].snapshot == snapshot
    ensures s.locks == map[0 := 0, 1 := 1] && s.procs.Keys == {0, 1} && s.fs.next == 2
    ensures Holds(s.procs[0]) && s.procs[0].db == d
    ensures var e := Sidecar(d); var path := StagePath(e, tag);
      FreshStage(dbs, s, path) && Rollback(e) !in s.fs.names && Rollback(e) !in {path, Wal(path), Shm(path)}
  {
    ss, s := SecondLocks(sql, dbs, d, snapshot);
    tag := LongTag(dbs);
    TagIsFresh(dbs, s, d, tag);
  }

  /** The restore goes through and replaces the sidecar under the first server. */
  lemma SidecarReplaced(sql: Sqlite, dbs: set<string>, d: string, snapshot: Db) returns (ss: seq<State>, s: State)
    requires d in dbs && Sidecar(d) in dbs && Restorable(sql, snapshot)
    ensures RunTo(sql, dbs, ss, s)
    ensures Get(s.fs.names, Sidecar(d)) == Some(2)
    ensures s.locks == map[0 := 0, 1 := 1] && s.procs.Keys == {0, 1} && Holds(s.procs[0]) && s.procs[0].db == d
  {
    var tag, locked;
    ss, locked, tag := SecondReady(sql, dbs, d, snapshot);
    ss, s := GoesThrough(sql, dbs, ss, locked, 1, tag);
  }

  lemma ClashBreaksExclusion(sql: Sqlite, dbs: set<string>, d: string, snapshot: Db) returns (ss: seq<State>, s: State)
    requires d in dbs && Sidecar(d) in dbs && Restorable(sql, snapshot)
    ensures RunTo(sql, dbs, ss, s) && !Exclusive(s)
  {
    ss, s := SidecarReplaced(sql, dbs, d, snapshot);
    ss := Extend(sql, dbs, ss, s, Start(2, d, Serving, []));
    s := Do(sql, dbs, s, Start(2, d, Serving, []));
    ss := Extend(sql, dbs, ss, s, Open(2));
    s := Do(sql, dbs, s, Open(2));
    ss := Extend(sql, dbs, ss, s, TryLock(2));
    s := Do(sql, dbs, s, TryLock(2));
    assert Holder(s, 0) && Holder(s, 2) && s.procs[0].db == s.procs[2].db;
  }

  /** Exclusion in every state of every run, exactly when no configured path is another's sidecar. */
  lemma ExclusionExactly(sql: Sqlite, dbs: set<string>, snapshot: Db)
    requires Restorable(sql, snapshot)
    ensures (forall ss, i :: Run(sql, dbs, ss) && 0 <= i < |ss| ==> Exclusive(ss[i])) <==> NoPathIsASidecar(dbs)
  {
    if NoPathIsASidecar(dbs) {
      forall ss, i | Run(sql, dbs, ss) && 0 <= i < |ss| ensures Exclusive(ss[i]) {
        RunKeepsInvariant(sql, dbs, ss, i);
        InvariantMeansExclusive(dbs, ss[i]);
      }
    } else {
      var d, e :| d in dbs && e in dbs && e == Sidecar(d);
      var ss, s := ClashBreaksExclusion(sql, dbs, d, snapshot);
      assert !Exclusive(ss[|ss| - 1]);
    }
  }
}
