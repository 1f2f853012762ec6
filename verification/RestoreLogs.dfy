/**
 The log of the database that a restore replaces. SQLite replays a log that carries a database's name, so the
 old one must stay beside the old database and be gone beside the new one.
 */
module RestoreLogs {
  import opened Wrappers
  import opened DbNames
  import opened RestoreProtocol
  import opened LockExclusion
  import opened RestoreInvariant

  // ------------------------------------------------------------- the old log

  /** The old log is as the restore found it. */
  ghost predicate LogIntact(p: Proc, fs: Fs) {
    Get(fs.names, Wal(p.db)) == p.oldLog && Contents(fs, Wal(p.db)) == p.logged
  }

  /** No log is left beside the database for SQLite to replay. */
  predicate LogGone(p: Proc, names: map<string, Inode>) {
    Wal(p.db) !in names && Shm(p.db) !in names
  }

  /** The old log has been removed. */
  predicate Cleared(p: Proc) {
    p.phase.Cleaned? || p.phase.Settled?
  }

  ghost predicate LogKept(p: Proc, fs: Fs) {
    && Get(fs.disk, Wal(p.db)) == p.oldLog
    && (p.oldLog.Some? ==> p.oldLog.value in fs.synced && Data(fs, p.oldLog.value) == p.logged)
  }

  /** What a restore keeps of the old log, if no tool writes the path. */
  ghost predicate LogRight(p: Proc, fs: Fs) {
    && (if Cleared(p) then LogGone(p, fs.names) else LogIntact(p, fs))
    && (p.phase.Settled? ==> LogGone(p, fs.disk))
    && (p.logOnDisk && !p.phase.Settled? ==> LogKept(p, fs) || (Cleared(p) && Wal(p.db) !in fs.disk))
  }

  ghost predicate Restore(s: State, pid: Pid) {
    Holder(s, pid) && s.procs[pid].kind == Restoring
  }

  ghost predicate LogSafe(s: State, pid: Pid) {
    Restore(s, pid) && s.procs[pid].db !in s.written ==> LogRight(s.procs[pid], s.fs)
  }

  ghost predicate LogsSafe(s: State) {
    forall pid :: LogSafe(s, pid)
  }

  predicate SameEntry(fs: Fs, after: Fs, n: string) {
    && Get(after.names, n) == Get(fs.names, n)
    && (Get(after.disk, n) == Get(fs.disk, n) || Get(after.disk, n) == Get(fs.names, n))
  }

  /** The names and the log's file are as before, up to a directory sync. */
  ghost predicate LogSame(p: Proc, fs: Fs, after: Fs) {
    && SameEntry(fs, after, Wal(p.db)) && SameEntry(fs, after, Shm(p.db))
    && (forall i: Inode :: Bound(fs, Wal(p.db), i) ==>
          Data(after, i) == Data(fs, i) && (i in fs.synced ==> i in after.synced))
  }

  lemma SameLog(p: Proc, q: Proc, fs: Fs, after: Fs)
    requires LogRight(p, fs) && LogSame(p, fs, after) && Cleared(q) == Cleared(p)
    requires q.phase.Settled? == p.phase.Settled? && SameOrigins(p, q)
    ensures LogRight(q, after)
  {
    var wal := Wal(p.db);
    if wal in fs.names {
      assert Bound(fs, wal, fs.names[wal]);
    }
    if wal in fs.disk {
      assert Bound(fs, wal, fs.disk[wal]);
    }
  }

  /** The steps of a restore that leave its production log alone. */
  predicate Working(step: Step) {
    Preparing(step) || (Publishing(step) && !step.Clean? && !step.FlushDir?)
  }

  lemma WorkingTouches(dbs: set<string>, s: State, step: Step, n: string)
    requires Working(step) && step.pid in s.procs && s.procs[step.pid].db in dbs && StageClear(dbs, s.procs[step.pid])
    requires step.Stage? ==> FreshStage(dbs, s, StagePath(s.procs[step.pid].db, step.tag))
    requires n in {Wal(s.procs[step.pid].db), Shm(s.procs[step.pid].db)}
    ensures n !in Touched(s, step)
  {
    var p := s.procs[step.pid];
    ClearOfOwn(dbs, p);
    OwnNames(p.db);
    assert n in Names(p.db);
    if step.Stage? {
      FreshIsClear(dbs, s, p.db, step.tag, p.db);
    }
  }

  lemma WorkingEntry(sql: Sqlite, dbs: set<string>, s: State, step: Step, n: string)
    requires Working(step) && Enabled(sql, dbs, s, step)
    requires s.procs[step.pid].db in dbs && StageClear(dbs, s.procs[step.pid])
    requires n in {Wal(s.procs[step.pid].db), Shm(s.procs[step.pid].db)}
    ensures SameEntry(s.fs, Do(sql, dbs, s, step).fs, n)
  {
    WorkingTouches(dbs, s, step, n);
    NamesFrame(sql, dbs, s, step, n);
    DiskFrame(sql, dbs, s, step, n);
  }

  lemma WorkingFiles(sql: Sqlite, dbs: set<string>, s: State, step: Step, i: Inode)
    requires Working(step) && Enabled(sql, dbs, s, step) && i < s.fs.next && !Stages(s.procs[step.pid], i)
    ensures var t := Do(sql, dbs, s, step).fs; Data(t, i) == Data(s.fs, i) && (i in s.fs.synced ==> i in t.synced)
  {
    if step.Migrate? || step.Checkpoint? || step.Verify? || step.Stage? {
      RestoreLeaves(sql, dbs, s, step, i);
    } else {
      LinksLeave(sql, dbs, s, step);
    }
  }

  lemma LogNotStaged(sql: Sqlite, p: Proc, fs: Fs, i: Inode)
    requires BindingsSafe(sql, p, fs) && !Swapped(p) && Bound(fs, Wal(p.db), i)
    ensures !Stages(p, i)
  {
  }

  ghost predicate SameOrigins(p: Proc, q: Proc) {
    q.db == p.db && q.oldLog == p.oldLog && q.logged == p.logged && q.logOnDisk == p.logOnDisk
  }

  lemma WorkingShape(sql: Sqlite, dbs: set<string>, s: State, step: Step)
    requires Working(step) && Enabled(sql, dbs, s, step)
    ensures var t := Do(sql, dbs, s, step);
      && Restore(s, step.pid) && !Swapped(s.procs[step.pid]) && t.written == s.written
      && step.pid in t.procs && !Cleared(t.procs[step.pid]) && SameOrigins(s.procs[step.pid], t.procs[step.pid])
  {
  }

  lemma WorkingLeavesLog(sql: Sqlite, dbs: set<string>, s: State, step: Step, i: Inode)
    requires Working(step) && Enabled(sql, dbs, s, step) && InodesBelow(s.fs)
    requires BindingsSafe(sql, s.procs[step.pid], s.fs) && !Swapped(s.procs[step.pid])
    requires Bound(s.fs, Wal(s.procs[step.pid].db), i)
    ensures var t := Do(sql, dbs, s, step).fs; Data(t, i) == Data(s.fs, i) && (i in s.fs.synced ==> i in t.synced)
  {
    LogNotStaged(sql, s.procs[step.pid], s.fs, i);
    WorkingFiles(sql, dbs, s, step, i);
  }

  lemma WorkingSame(sql: Sqlite, dbs: set<string>, s: State, step: Step)
    requires Working(step) && Enabled(sql, dbs, s, step) && InodesBelow(s.fs)
    requires s.procs[step.pid].db in dbs && StageClear(dbs, s.procs[step.pid])
    requires BindingsSafe(sql, s.procs[step.pid], s.fs) && !Swapped(s.procs[step.pid])
    ensures LogSame(s.procs[step.pid], s.fs, Do(sql, dbs, s, step).fs)
  {
    var p, t := s.procs[step.pid], Do(sql, dbs, s, step);
    WorkingEntry(sql, dbs, s, step, Wal(p.db));
    WorkingEntry(sql, dbs, s, step, Shm(p.db));
    forall i: Inode | Bound(s.fs, Wal(p.db), i)
      ensures Data(t.fs, i) == Data(s.fs, i) && (i in s.fs.synced ==> i in t.fs.synced)
    {
      WorkingLeavesLog(sql, dbs, s, step, i);
    }
  }

  lemma WorkingKeepsLog(sql: Sqlite, dbs: set<string>, s: State, step: Step)
    requires SafetyInvariant(sql, dbs, s) && Enabled(sql, dbs, s, step) && Working(step) && LogSafe(s, step.pid)
    ensures LogSafe(Do(sql, dbs, s, step), step.pid)
  {
    WorkingShape(sql, dbs, s, step);
    var p, t := s.procs[step.pid], Do(sql, dbs, s, step);
    assert ProcSafe(sql, dbs, p, s.fs, s.written);
    WorkingSame(sql, dbs, s, step);
    if p.db !in s.written {
      SameLog(p, t.procs[step.pid], s.fs, t.fs);
    }
  }

  /** Removing the old log: it is gone for every process, and after the directory sync on disk too. */
  lemma ClearingStep(sql: Sqlite, dbs: set<string>, s: State, step: Step)
    requires Enabled(sql, dbs, s, step) && (step.Clean? || step.FlushDir?) && LogSafe(s, step.pid)
    ensures LogSafe(Do(sql, dbs, s, step), step.pid)
  {
    var db := s.procs[step.pid].db;
    SuffixIsBeside(db, "-wal");
    SuffixIsBeside(db, "-shm");
  }

  lemma OwnLog(sql: Sqlite, dbs: set<string>, s: State, step: Step)
    requires SafetyInvariant(sql, dbs, s) && Enabled(sql, dbs, s, step) && !step.PowerLoss? && LogSafe(s, step.pid)
    ensures LogSafe(Do(sql, dbs, s, step), step.pid)
  {
    if Working(step) {
      WorkingKeepsLog(sql, dbs, s, step);
    } else if step.Clean? || step.FlushDir? {
      ClearingStep(sql, dbs, s, step);
    } else if !step.Start? {
      assert ProcSafe(sql, dbs, s.procs[step.pid], s.fs, s.written);
    }
  }

  lemma OtherPathLog(sql: Sqlite, dbs: set<string>, s: State, step: Step, pid: Pid)
    requires SafetyInvariant(sql, dbs, s) && Enabled(sql, dbs, s, step) && !step.PowerLoss? && !step.Start?
    requires pid in s.procs && s.procs[step.pid].db != s.procs[pid].db
    ensures LogSame(s.procs[pid], s.fs, Do(sql, dbs, s, step).fs)
  {
    var p, t := s.procs[pid], Do(sql, dbs, s, step).fs;
    assert p.db in dbs && s.procs[step.pid].db in dbs;
    assert {Wal(p.db), Shm(p.db)} <= Names(p.db);
    OtherPathNames(sql, dbs, s, step, Wal(p.db), p.db);
    OtherPathNames(sql, dbs, s, step, Shm(p.db), p.db);
    forall i: Inode | Bound(s.fs, Wal(p.db), i)
      ensures Data(t, i) == Data(s.fs, i) && (i in s.fs.synced ==> i in t.synced)
    {
      assert Wal(p.db) in Names(p.db) && NamesOwn(s.fs, p.db, i) && Owns(s, p.db, i);
      OthersFiles(sql, dbs, s, step, i);
    }
  }

  lemma OthersLog(sql: Sqlite, dbs: set<string>, s: State, step: Step, pid: Pid)
    requires SafetyInvariant(sql, dbs, s) && Enabled(sql, dbs, s, step) && !step.PowerLoss? && pid != step.pid
    requires LogSafe(s, pid)
    ensures LogSafe(Do(sql, dbs, s, step), pid)
  {
    var t := Do(sql, dbs, s, step);
    if Restore(t, pid) {
      OthersKept(sql, dbs, s, step, pid);
      if !step.Start? && s.procs[step.pid].db != s.procs[pid].db {
        OtherPathLog(sql, dbs, s, step, pid);
        WrittenElsewhere(sql, dbs, s, step, s.procs[pid].db);
        if s.procs[pid].db !in s.written {
          SameLog(s.procs[pid], s.procs[pid], s.fs, t.fs);
        }
      } else if !step.Write? {
        OthersIdle(sql, dbs, s, step, pid);
      }
    }
  }

  /** Every step of every process keeps the old log beside the old database, and none beside the new. */
  lemma StepKeepsLogs(sql: Sqlite, dbs: set<string>, s: State, step: Step)
    requires SafetyInvariant(sql, dbs, s) && Enabled(sql, dbs, s, step) && LogsSafe(s)
    ensures LogsSafe(Do(sql, dbs, s, step))
  {
    var t := Do(sql, dbs, s, step);
    if !step.PowerLoss? {
      forall pid ensures LogSafe(t, pid) {
        assert LogSafe(s, pid);
        if pid == step.pid {
          OwnLog(sql, dbs, s, step);
        } else {
          OthersLog(sql, dbs, s, step, pid);
        }
      }
    }
  }

  lemma NextKeepsLogs(sql: Sqlite, dbs: set<string>, s: State, t: State)
    requires SafetyInvariant(sql, dbs, s) && Next(sql, dbs, s, t) && LogsSafe(s)
    ensures LogsSafe(t)
  {
    var step :| Enabled(sql, dbs, s, step) && t == Do(sql, dbs, s, step);
    StepKeepsLogs(sql, dbs, s, step);
  }

  lemma RunLogs(sql: Sqlite, dbs: set<string>, ss: seq<State>, i: nat)
    requires ApartRun(sql, dbs, ss) && i + 1 < |ss| && LogsSafe(ss[i])
    ensures LogsSafe(ss[i + 1])
  {
    RunKeepsSafety(sql, dbs, ss, i);
    assert StepAt(sql, dbs, ss, i);
    NextKeepsLogs(sql, dbs, ss[i], ss[i + 1]);
  }

  lemma {:induction false} RunKeepsLogs(sql: Sqlite, dbs: set<string>, ss: seq<State>, i: nat)
    requires ApartRun(sql, dbs, ss) && i < |ss|
    ensures LogsSafe(ss[i])
  {
    if i > 0 {
      RunKeepsLogs(sql, dbs, ss, i - 1);
      RunLogs(sql, dbs, ss, i - 1);
    }
  }
}
