/**
 Crash safety of `restore`. In every run of servers, restores and unlocked tools on
 any number of database paths, with crashes between any two steps, a path being
 restored is bound to the old file until the rename and to the verified, fully
 migrated database from the rename on. Their contents are untouched as long as no
 tool writes the path without the lock.
 */
module RestoreSafety {
  import opened Wrappers
  import opened DbNames
  import opened RestoreProtocol
  import opened RestoreRuns
  import opened LockExclusion
  import opened RestoreInvariant
  import opened RestoreLogs

  // ---------------------------------------------------------------- theorems

  /** The restore process `pid` at some moment after it took its lock. */
  ghost predicate RestoreAt(sql: Sqlite, dbs: set<string>, ss: seq<State>, i: nat, pid: Pid) {
    ApartRun(sql, dbs, ss) && i < |ss| && Holder(ss[i], pid) && ss[i].procs[pid].kind == Restoring
  }

  lemma RestoreIsSafe(sql: Sqlite, dbs: set<string>, ss: seq<State>, i: nat, pid: Pid)
    requires RestoreAt(sql, dbs, ss, i, pid)
    ensures var p := ss[i].procs[pid];
      && BindingsSafe(sql, p, ss[i].fs) && (p.db !in ss[i].written ==> ContentsSafe(sql, p, ss[i].fs))
      && InodesBelow(ss[i].fs) && StageNames(p) !! Names(p.db)
  {
    RunKeepsSafety(sql, dbs, ss, i);
    assert ProcSafe(sql, dbs, ss[i].procs[pid], ss[i].fs, ss[i].written);
    ClearOfOwn(dbs, ss[i].procs[pid]);
  }

  /** What a restore leaves at its path and at the rollback name, whoever wrote meanwhile. */
  ghost predicate StillBound(p: Proc, fs: Fs) {
    && (p.before.Some? && !Swapped(p) ==> Get(fs.names, p.db) == p.before)
    && (Swapped(p) ==> Get(fs.names, p.db) == Some(p.main))
    && (p.before.Some? && (p.phase.Linked? || Swapped(p)) ==> Get(fs.names, Rollback(p.db)) == p.before)
  }

  /**
   Whether the process goes on, fails or is killed there, its path is never missing or
   half written. The old file, the new one and the rollback file also have their
   contents, and the old log stays or is gone with its database, unless a tool wrote
   the path without the lock.
   */
  lemma CrashSafety(sql: Sqlite, dbs: set<string>, ss: seq<State>, i: nat, pid: Pid, fs: Fs)
    requires RestoreAt(sql, dbs, ss, i, pid)
    requires fs in {ss[i].fs, Do(sql, dbs, ss[i], Exit(pid)).fs, Do(sql, dbs, ss[i], Kill(pid)).fs}
    ensures StillBound(ss[i].procs[pid], fs)
    ensures var p := ss[i].procs[pid]; p.db !in ss[i].written ==>
      && (!Swapped(p) ==> OldIntact(p, fs))
      && (Swapped(p) ==> NewIntact(sql, p, fs))
      && (p.phase.Linked? || Swapped(p) ==> RollbackIntact(p, fs))
      && (if Cleared(p) then LogGone(p, fs.names) else LogIntact(p, fs))
  {
    RestoreIsSafe(sql, dbs, ss, i, pid);
    RunKeepsLogs(sql, dbs, ss, i);
    assert LogSafe(ss[i], pid);
    var p := ss[i].procs[pid];
    assert fs in {ss[i].fs, Unlink(ss[i].fs, StageNames(p))};
    UnlinkLeaves(p, ss[i].fs);
  }

  lemma UnlinkLeaves(p: Proc, fs: Fs)
    requires StageNames(p) !! Names(p.db)
    ensures forall n :: n in {p.db, Rollback(p.db), Wal(p.db), Shm(p.db)} ==>
      Get(Unlink(fs, StageNames(p)).names, n) == Get(fs.names, n)
  {
    assert {p.db, Rollback(p.db), Wal(p.db), Shm(p.db)} <= Names(p.db);
  }

  /** What the rename puts in place is complete, even if tools wrote the path before. */
  lemma RenameIsComplete(sql: Sqlite, dbs: set<string>, ss: seq<State>, i: nat, pid: Pid)
    requires RestoreAt(sql, dbs, ss, i, pid) && Enabled(sql, dbs, ss[i], Rename(pid))
    ensures var t := Do(sql, dbs, ss[i], Rename(pid)); NewIntact(sql, t.procs[pid], t.fs)
  {
    RestoreIsSafe(sql, dbs, ss, i, pid);
    OwnNames(ss[i].procs[pid].db);
    RenameSafe(sql, ss[i].procs[pid], ss[i].fs);
  }

  /** A power failure leaves the old database or the complete new one, provided the old one was on disk. */
  lemma PowerLossSafety(sql: Sqlite, dbs: set<string>, ss: seq<State>, i: nat, pid: Pid, after: Fs)
    requires RestoreAt(sql, dbs, ss, i, pid) && PowerLossFrame(ss[i].fs, after)
    requires ss[i].procs[pid].onDisk && ss[i].procs[pid].db !in ss[i].written
    ensures var p := ss[i].procs[pid];
      && (!Swapped(p) ==> OldIntact(p, after))
      && (Swapped(p) && !p.phase.Settled? ==> OldIntact(p, after) || NewIntact(sql, p, after))
      && (p.phase.Settled? ==> NewIntact(sql, p, after) && RollbackIntact(p, after))
      && LogSurvives(p, after)
  {
    RestoreIsSafe(sql, dbs, ss, i, pid);
    RunKeepsLogs(sql, dbs, ss, i);
    assert LogSafe(ss[i], pid);
    PowerLossLog(ss[i].procs[pid], ss[i].fs, after);
  }

  /** After the directory sync the old log is gone for good; until it is removed, one that was on disk stays. */
  ghost predicate LogSurvives(p: Proc, after: Fs) {
    && (p.phase.Settled? ==> LogGone(p, after.names))
    && (p.logOnDisk && !Cleared(p) ==> LogIntact(p, after))
    && (p.logOnDisk && p.phase.Cleaned? ==> LogIntact(p, after) || Wal(p.db) !in after.names)
  }

  lemma PowerLossLog(p: Proc, fs: Fs, after: Fs)
    requires LogRight(p, fs) && PowerLossFrame(fs, after)
    ensures LogSurvives(p, after)
  {
    var wal, shm := Wal(p.db), Shm(p.db);
    assert Get(after.names, wal) == Get(fs.names, wal) || Get(after.names, wal) == Get(fs.disk, wal);
    assert Get(after.names, shm) == Get(fs.names, shm) || Get(after.names, shm) == Get(fs.disk, shm);
  }

  /** A name keeps what it denotes over every power failure exactly when entry and contents are on disk. */
  lemma OnDiskExactlyWhen(fs: Fs, n: string)
    requires InodesBelow(fs)
    ensures OnDisk(fs, n) <==> forall after :: PowerLossFrame(fs, after) ==> SameFile(fs, after, n)
  {
    if Get(fs.disk, n) != Get(fs.names, n) {
      var after := LosesLink(fs, n);
      assert !SameFile(fs, after, n);
    } else if n in fs.names && fs.names[n] !in fs.synced {
      var i := fs.names[n];
      var after := fs.(disk := fs.names, files := fs.files[i := Data(fs, i) + [0]]);
      assert |Data(after, i)| != |Data(fs, i)|;
      assert PowerLossFrame(fs, after) && !SameFile(fs, after, n);
    }
  }

  ghost predicate SameFile(fs: Fs, after: Fs, n: string) {
    Get(after.names, n) == Get(fs.names, n) && Contents(after, n) == Contents(fs, n)
  }

  /** What a process notes about the disk when it takes the lock is true of every power failure at that moment. */
  lemma LockNotesDurable(sql: Sqlite, dbs: set<string>, ss: seq<State>, i: nat, pid: Pid)
    requires ApartRun(sql, dbs, ss) && i < |ss| && Enabled(sql, dbs, ss[i], TryLock(pid))
    ensures var t := Do(sql, dbs, ss[i], TryLock(pid)); var p := t.procs[pid];
      && (p.onDisk <==> forall after :: PowerLossFrame(t.fs, after) ==> SameFile(t.fs, after, p.db))
      && (p.logOnDisk <==> forall after :: PowerLossFrame(t.fs, after) ==> SameFile(t.fs, after, Wal(p.db)))
  {
    RunKeepsSafety(sql, dbs, ss, i);
    var t := Do(sql, dbs, ss[i], TryLock(pid));
    assert Get(ss[i].fs.names, Sidecar(ss[i].procs[pid].db)) == Some(ss[i].procs[pid].fd);
    OnDiskExactlyWhen(t.fs, t.procs[pid].db);
    OnDiskExactlyWhen(t.fs, Wal(t.procs[pid].db));
  }

  // --------------------------------------------------- what SQLite will open

  /** The database a process opens at a path: SQLite replays a log of the same name. */
  function Opens(fs: Fs, db: string): Db {
    Contents(fs, db) + Contents(fs, Wal(db))
  }

  /**
   A restore stopped before its rename leaves the old database to be opened. Stopped after
   it, it leaves the restored one exactly when it got to remove the old log, or found no
   writes in it.
   */
  lemma OpensNewExactlyWhen(sql: Sqlite, dbs: set<string>, ss: seq<State>, i: nat, pid: Pid, fs: Fs)
    requires RestoreAt(sql, dbs, ss, i, pid) && ss[i].procs[pid].db !in ss[i].written
    requires fs in {ss[i].fs, Do(sql, dbs, ss[i], Exit(pid)).fs, Do(sql, dbs, ss[i], Kill(pid)).fs}
    ensures var p := ss[i].procs[pid];
      && (!Swapped(p) && p.before.Some? ==> Opens(fs, p.db) == p.content + p.logged)
      && (Swapped(p) ==> (Opens(fs, p.db) == p.snapshot + sql.migrations(p.snapshot) <==> Cleared(p) || p.logged == []))
  {
    CrashSafety(sql, dbs, ss, i, pid, fs);
    OpensBoth(sql, ss[i].procs[pid], fs);
  }

  lemma OpensBoth(sql: Sqlite, p: Proc, fs: Fs)
    ensures OldIntact(p, fs) && LogIntact(p, fs) && p.before.Some? ==> Opens(fs, p.db) == p.content + p.logged
    ensures NewIntact(sql, p, fs) && LogIntact(p, fs) ==>
      (Opens(fs, p.db) == p.snapshot + sql.migrations(p.snapshot) <==> p.logged == [])
    ensures NewIntact(sql, p, fs) && LogGone(p, fs.names) ==> Opens(fs, p.db) == p.snapshot + sql.migrations(p.snapshot)
  {
    var restored := p.snapshot + sql.migrations(p.snapshot);
    assert restored + [] == restored;
    assert |restored + p.logged| == |restored| + |p.logged|;
  }

  /** The rollback file has the old database exactly when the removed log held no writes. */
  lemma RollbackIsOldExactlyWhen(sql: Sqlite, dbs: set<string>, ss: seq<State>, i: nat, pid: Pid)
    requires RestoreAt(sql, dbs, ss, i, pid) && ss[i].procs[pid].db !in ss[i].written
    requires Swapped(ss[i].procs[pid]) && ss[i].procs[pid].before.Some?
    ensures var p := ss[i].procs[pid];
      Contents(ss[i].fs, Rollback(p.db)) == p.content + p.logged <==> p.logged == []
  {
    CrashSafety(sql, dbs, ss, i, pid, ss[i].fs);
    var p := ss[i].procs[pid];
    assert p.content + [] == p.content;
    assert |p.content + p.logged| == |p.content| + |p.logged|;
  }

  /** After the rename every power failure keeps the rollback file exactly when its link is on disk. */
  lemma RollbackSurvivesExactlyWhen(sql: Sqlite, dbs: set<string>, ss: seq<State>, i: nat, pid: Pid)
    requires RestoreAt(sql, dbs, ss, i, pid) && Swapped(ss[i].procs[pid]) && ss[i].procs[pid].db !in ss[i].written
    requires ss[i].procs[pid].before.Some? && ss[i].procs[pid].before.value in ss[i].fs.synced
    ensures var p, fs := ss[i].procs[pid], ss[i].fs;
      (forall after :: PowerLossFrame(fs, after) ==> RollbackIntact(p, after))
      <==> Get(fs.disk, Rollback(p.db)) == p.before
  {
    RestoreIsSafe(sql, dbs, ss, i, pid);
    var p, fs := ss[i].procs[pid], ss[i].fs;
    if Get(fs.disk, Rollback(p.db)) != p.before {
      var after := LosesLink(fs, Rollback(p.db));
      assert !RollbackIntact(p, after);
    }
  }

  // --------------------------------------------- a kept rollback file refuses

  lemma StepKeepsRollback(sql: Sqlite, dbs: set<string>, s: State, step: Step, d: string)
    requires SafetyInvariant(sql, dbs, s) && Enabled(sql, dbs, s, step) && !step.PowerLoss?
    requires d in dbs && Rollback(d) in s.fs.names
    ensures Get(Do(sql, dbs, s, step).fs.names, Rollback(d)) == Get(s.fs.names, Rollback(d))
  {
    var n := Rollback(d);
    assert n in Names(d);
    if n in Touched(s, step) {
      TouchedIsOwn(sql, dbs, s, step, n, d);
      OwnNames(d);
      assert ProcSafe(sql, dbs, s.procs[step.pid], s.fs, s.written);
    } else {
      NamesFrame(sql, dbs, s, step, n);
    }
  }

  /** No power failure from state `i` to state `j`. */
  ghost predicate PowerStays(sql: Sqlite, dbs: set<string>, ss: seq<State>, i: nat, j: nat)
    requires j < |ss|
  {
    forall k :: i <= k < j ==> CalmAt(sql, dbs, ss, k)
  }

  ghost predicate CalmAt(sql: Sqlite, dbs: set<string>, ss: seq<State>, k: int) {
    0 <= k < |ss| - 1 && CalmStep(sql, dbs, ss[k], ss[k + 1])
  }

  ghost predicate CalmStep(sql: Sqlite, dbs: set<string>, s: State, t: State) {
    exists step: Step :: !step.PowerLoss? && Enabled(sql, dbs, s, step) && t == Do(sql, dbs, s, step)
  }

  lemma CalmKeepsRollback(sql: Sqlite, dbs: set<string>, s: State, t: State, d: string)
    requires SafetyInvariant(sql, dbs, s) && CalmStep(sql, dbs, s, t) && d in dbs && Rollback(d) in s.fs.names
    ensures Get(t.fs.names, Rollback(d)) == Get(s.fs.names, Rollback(d))
  {
    var step: Step :| !step.PowerLoss? && Enabled(sql, dbs, s, step) && t == Do(sql, dbs, s, step);
    StepKeepsRollback(sql, dbs, s, step, d);
  }

  /** Only a power failure removes a rollback file, also one a killed restore left behind. */
  lemma {:induction false} RollbackStays(sql: Sqlite, dbs: set<string>, ss: seq<State>, i: nat, j: nat, d: string)
    requires ApartRun(sql, dbs, ss) && i <= j < |ss| && PowerStays(sql, dbs, ss, i, j)
    requires d in dbs && Rollback(d) in ss[i].fs.names
    ensures Get(ss[j].fs.names, Rollback(d)) == Get(ss[i].fs.names, Rollback(d))
    decreases j - i
  {
    if i < j {
      RollbackStays(sql, dbs, ss, i, j - 1, d);
      RunKeepsSafety(sql, dbs, ss, j - 1);
      assert CalmAt(sql, dbs, ss, j - 1);
      CalmKeepsRollback(sql, dbs, ss[j - 1], ss[j], d);
    }
  }

  /** And as long as it is there no restore of an existing database gets past its link. */
  lemma RollbackRefuses(sql: Sqlite, dbs: set<string>, ss: seq<State>, i: nat, j: nat, pid: Pid)
    requires ApartRun(sql, dbs, ss) && i <= j < |ss| && PowerStays(sql, dbs, ss, i, j)
    requires At(ss[j], pid, Flushed) && ss[j].procs[pid].db in ss[j].fs.names
    requires Rollback(ss[j].procs[pid].db) in ss[i].fs.names
    ensures !Enabled(sql, dbs, ss[j], Link(pid))
  {
    RunKeepsSafety(sql, dbs, ss, j);
    RollbackStays(sql, dbs, ss, i, j, ss[j].procs[pid].db);
  }

  lemma LosesLink(fs: Fs, n: string) returns (after: Fs)
    requires InodesBelow(fs)
    ensures PowerLossFrame(fs, after) && Get(after.names, n) == Get(fs.disk, n) && after.files == fs.files
    ensures forall m :: m != n ==> Get(after.names, m) == Get(fs.names, m)
  {
    var names := if n in fs.disk then fs.names[n := fs.disk[n]] else fs.names - {n};
    after := fs.(names := names, disk := names);
  }

  lemma RestoreOpens(sql: Sqlite, db: string, existing: Db, snapshot: Db) returns (ss: seq<State>, s: State)
    ensures RunTo(sql, {db}, ss, s) && At(s, 0, Opened) && s.locks == map[] && s.written == {}
    ensures s.procs.Keys == {0} && s.procs[0].kind == Restoring && s.procs[0].db == db && s.procs[0].fd == 1
    ensures s.procs[0].snapshot == snapshot && s.procs[0].stage.None?
    ensures s.fs == Fs(map[db := 0, Sidecar(db) := 1], map[db := 0], map[0 := existing, 1 := []], {0}, 2)
  {
    OwnNames(db);
    s := State(Fs(map[db := 0], map[db := 0], map[0 := existing], {0}, 1), map[], map[], {});
    ss := [s];
    ss := Extend(sql, {db}, ss, s, Start(0, db, Restoring, snapshot));
    s := Do(sql, {db}, s, Start(0, db, Restoring, snapshot));
    ss := Extend(sql, {db}, ss, s, Open(0));
    s := Do(sql, {db}, s, Open(0));
  }

  /** A restore of an existing, synced database holds its lock. */
  lemma RestoreLocks(sql: Sqlite, db: string, existing: Db, snapshot: Db) returns (ss: seq<State>, s: State)
    ensures RunTo(sql, {db}, ss, s) && At(s, 0, Locked) && s.written == {}
    ensures s.procs.Keys == {0} && s.procs[0].db == db && s.procs[0].snapshot == snapshot && s.procs[0].stage.None?
    ensures s.procs[0].before == Some(0) && s.procs[0].content == existing && s.procs[0].onDisk && 0 in s.fs.synced
    ensures s.fs.names == map[db := 0, Sidecar(db) := 1] && s.fs.disk == map[db := 0] && s.fs.next == 2
    ensures InodesBelow(s.fs)
  {
    OwnNames(db);
    ss, s := RestoreOpens(sql, db, existing, snapshot);
    ss := Extend(sql, {db}, ss, s, TryLock(0));
    s := Do(sql, {db}, s, TryLock(0));
  }

  /** What a tool makes of a database it opens. */
  lemma ToolOverwrites(fs: Fs, db: string, i: Inode, data: Db)
    requires InodesBelow(fs) && Get(fs.names, db) == Some(i)
    ensures ToolFrame(fs, db, Overwrite(fs, i, data))
  {
    var after := Overwrite(fs, i, data);
    assert Bound(fs, db, i) && OwnInode(fs, db, i);
    forall n, k: Inode | n in {db, Wal(db), Shm(db)} && Bound(after, n, k) ensures OwnInode(fs, db, k) {
      assert Bound(fs, n, k);
    }
  }

  /** A run in which a tool writes the database under a restore that holds the lock. */
  lemma ToolWriteShows(sql: Sqlite, db: string, existing: Db, snapshot: Db) returns (ss: seq<State>, i: nat)
    ensures RestoreAt(sql, {db}, ss, i, 0) && ss[i].procs[0].phase.Locked?
    ensures db in ss[i].written && !OldIntact(ss[i].procs[0], ss[i].fs)
  {
    var s;
    ss, s := RestoreLocks(sql, db, existing, snapshot);
    ss := Extend(sql, {db}, ss, s, Start(1, db, Tool, []));
    s := Do(sql, {db}, s, Start(1, db, Tool, []));
    var after := Overwrite(s.fs, 0, existing + [0]);
    ToolOverwrites(s.fs, db, 0, existing + [0]);
    ss := Extend(sql, {db}, ss, s, Write(1, after));
    s := Do(sql, {db}, s, Write(1, after));
    i := |ss| - 1;
    OnePathIsApart(db, ss[0]);
    assert |existing + [0]| != |existing|;
  }

  lemma TagIsFree(s: State, db: string, tag: string)
    requires |db| < |tag| && |Rollback(db)| < |tag|
    requires s.fs.names.Keys <= {db, Sidecar(db), Wal(db)} && s.procs.Keys == {0} && s.procs[0].stage.None?
    ensures var path := StagePath(db, tag);
      FreshStage({db}, s, path) && Rollback(db) !in {path, Wal(path), Shm(path)} && Rollback(db) !in s.fs.names
  {
    var path := StagePath(db, tag);
    OwnNames(db);
    LastLetters(db, tag);
    LastLetters(path, tag);
    assert |path| >= |tag|;
    SidecarNamesDiffer(path, db);
  }

  lemma OnePathIsApart(db: string, s: State)
    ensures PathsApart({db}) && InodesApart({db}, s)
  {
  }

  /** A run that has renamed the new database into place while the link to the old one is not on disk yet. */
  lemma UnsyncedLink(sql: Sqlite, db: string, existing: Db, snapshot: Db) returns (ss: seq<State>, s: State)
    requires Restorable(sql, snapshot)
    ensures RunTo(sql, {db}, ss, s) && 0 in s.procs && s.procs[0].db == db && s.procs[0].kind == Restoring
    ensures s.procs[0].phase.Renamed? && s.procs[0].before == Some(0) && 0 in s.fs.synced && s.fs.disk == map[db := 0]
    ensures s.written == {}
  {
    ss, s := RestoreLocks(sql, db, existing, snapshot);
    var tag := LongTag({db});
    assert db in {db};
    TagIsFree(s, db, tag);
    ss, s := GoesThrough(sql, {db}, ss, s, 0, tag);
  }

  /** There a power failure may keep the rename and lose the link. */
  lemma RollbackNeedsDirSync(sql: Sqlite, db: string, existing: Db, snapshot: Db)
    returns (ss: seq<State>, i: nat, after: Fs)
    requires Restorable(sql, snapshot)
    ensures RestoreAt(sql, {db}, ss, i, 0) && ss[i].procs[0].phase.Renamed? && ss[i].procs[0].before.Some?
    ensures PowerLossFrame(ss[i].fs, after) && !RollbackIntact(ss[i].procs[0], after)
    ensures NewIntact(sql, ss[i].procs[0], after)
  {
    var s;
    ss, s := UnsyncedLink(sql, db, existing, snapshot);
    i := |ss| - 1;
    OnePathIsApart(db, ss[0]);
    OwnNames(db);
    RestoreIsSafe(sql, {db}, ss, i, 0);
    after := LosesLink(s.fs, Rollback(db));
  }

  // ------------------------------------------------ a log that shows through

  lemma ServerLogs(fs: Fs, db: string)
    requires InodesBelow(fs)
    ensures ServerFrame(fs, db, Create(fs, Wal(db), [0]))
  {
    var after := Create(fs, Wal(db), [0]);
    forall n, i: Inode | n in {db, Wal(db), Shm(db)} && Bound(after, n, i) ensures OwnInode(fs, db, i) || i >= fs.next {
      if i < fs.next {
        assert Bound(fs, n, i);
      }
    }
  }

  lemma BothStart(sql: Sqlite, db: string, existing: Db, snapshot: Db) returns (ss: seq<State>, s: State)
    ensures RunTo(sql, {db}, ss, s) && s.procs.Keys == {0, 1} && s.locks == map[]
    ensures At(s, 1, Starting) && s.procs[1].kind == Serving && s.procs[1].db == db
    ensures At(s, 0, Starting) && s.procs[0].kind == Restoring && s.procs[0].db == db
    ensures s.procs[0].snapshot == snapshot && s.procs[0].stage.None?
    ensures s.fs == Fs(map[db := 0], map[db := 0], map[0 := existing], {0}, 1)
  {
    s := State(Fs(map[db := 0], map[db := 0], map[0 := existing], {0}, 1), map[], map[], {});
    ss := [s];
    ss := Extend(sql, {db}, ss, s, Start(0, db, Restoring, snapshot));
    s := Do(sql, {db}, s, Start(0, db, Restoring, snapshot));
    ss := Extend(sql, {db}, ss, s, Start(1, db, Serving, []));
    s := Do(sql, {db}, s, Start(1, db, Serving, []));
  }

  /** A server starts beside a restore that has not taken the lock yet. */
  lemma ServerStarts(sql: Sqlite, db: string, existing: Db, snapshot: Db) returns (ss: seq<State>, s: State)
    ensures RunTo(sql, {db}, ss, s) && s.procs.Keys == {0, 1} && s.locks == map[1 := 1] && InodesBelow(s.fs)
    ensures s.procs[1].kind == Serving && s.procs[1].phase == Locked && s.procs[1].db == db
    ensures At(s, 0, Starting) && s.procs[0].kind == Restoring && s.procs[0].db == db
    ensures s.procs[0].snapshot == snapshot && s.procs[0].stage.None?
    ensures s.fs.names == map[db := 0, Sidecar(db) := 1] && s.fs.next == 2
  {
    OwnNames(db);
    ss, s := BothStart(sql, db, existing, snapshot);
    ss := Extend(sql, {db}, ss, s, Open(1));
    s := Do(sql, {db}, s, Open(1));
    ss := Extend(sql, {db}, ss, s, TryLock(1));
    s := Do(sql, {db}, s, TryLock(1));
  }

  /** It writes to its log and is killed. */
  lemma ServerDies(sql: Sqlite, db: string, existing: Db, snapshot: Db) returns (ss: seq<State>, s: State)
    ensures RunTo(sql, {db}, ss, s) && s.procs.Keys == {0} && s.locks == map[] && InodesBelow(s.fs)
    ensures At(s, 0, Starting) && s.procs[0].kind == Restoring && s.procs[0].db == db
    ensures s.procs[0].snapshot == snapshot && s.procs[0].stage.None?
    ensures s.fs.names == map[db := 0, Sidecar(db) := 1, Wal(db) := 2] && Data(s.fs, 2) == [0]
  {
    OwnNames(db);
    ss, s := ServerStarts(sql, db, existing, snapshot);
    var after := Create(s.fs, Wal(db), [0]);
    ServerLogs(s.fs, db);
    ss := Extend(sql, {db}, ss, s, Serve(1, after));
    s := Do(sql, {db}, s, Serve(1, after));
    ss := Extend(sql, {db}, ss, s, Kill(1));
    s := Do(sql, {db}, s, Kill(1));
  }

  lemma RestoreFindsLog(sql: Sqlite, db: string, existing: Db, snapshot: Db) returns (ss: seq<State>, s: State)
    ensures RunTo(sql, {db}, ss, s) && At(s, 0, Locked) && db !in s.written && s.procs.Keys == {0}
    ensures s.procs[0].kind == Restoring && s.procs[0].db == db
    ensures s.procs[0].snapshot == snapshot && s.procs[0].stage.None? && s.procs[0].logged == [0]
    ensures s.fs.names.Keys == {db, Sidecar(db), Wal(db)}
  {
    OwnNames(db);
    LastLetters(db, "");
    ss, s := ServerDies(sql, db, existing, snapshot);
    ss := Extend(sql, {db}, ss, s, Open(0));
    s := Do(sql, {db}, s, Open(0));
    ss := Extend(sql, {db}, ss, s, TryLock(0));
    s := Do(sql, {db}, s, TryLock(0));
  }

  lemma RenamedBesideLog(sql: Sqlite, db: string, existing: Db, snapshot: Db) returns (ss: seq<State>, s: State)
    requires Restorable(sql, snapshot)
    ensures RunTo(sql, {db}, ss, s) && 0 in s.procs && s.procs[0].db == db && s.procs[0].kind == Restoring
    ensures s.procs[0].phase.Renamed? && s.procs[0].snapshot == snapshot && s.procs[0].logged == [0]
    ensures db !in s.written
  {
    ss, s := RestoreFindsLog(sql, db, existing, snapshot);
    var tag := LongTag({db});
    assert db in {db};
    TagIsFree(s, db, tag);
    ss, s := GoesThrough(sql, {db}, ss, s, 0, tag);
  }

  /** A run in which a kill between the rename and the removal leaves the old log beside the new database. */
  lemma OldLogShows(sql: Sqlite, db: string, existing: Db, snapshot: Db) returns (ss: seq<State>, i: nat)
    requires Restorable(sql, snapshot)
    ensures RestoreAt(sql, {db}, ss, i, 0) && ss[i].procs[0].phase.Renamed? && db !in ss[i].written
    ensures Opens(Do(sql, {db}, ss[i], Kill(0)).fs, db) != snapshot + sql.migrations(snapshot)
  {
    var s;
    ss, s := RenamedBesideLog(sql, db, existing, snapshot);
    i := |ss| - 1;
    OnePathIsApart(db, ss[0]);
    OpensNewExactlyWhen(sql, {db}, ss, i, 0, Do(sql, {db}, ss[i], Kill(0)).fs);
  }

  lemma SamePathSameLock(dbs: set<string>, s: State, p: Pid, q: Pid)
    requires LockInvariant(dbs, s) && p in s.procs && !s.procs[p].phase.Starting? && Holder(s, q)
    requires s.procs[q].db == s.procs[p].db
    ensures s.procs[p].fd in s.locks
  {
  }

  lemma SameLockSamePath(dbs: set<string>, s: State, p: Pid)
    requires LockInvariant(dbs, s) && InodesApart(dbs, s)
    requires p in s.procs && !s.procs[p].phase.Starting? && s.procs[p].fd in s.locks
    ensures Holder(s, s.locks[s.procs[p].fd]) && s.procs[s.locks[s.procs[p].fd]].db == s.procs[p].db
  {
    var fd, q := s.procs[p].fd, s.locks[s.procs[p].fd];
    var d, e := s.procs[p].db, s.procs[q].db;
    assert Sidecar(d) in Names(d) && Bound(s.fs, Sidecar(d), fd) && NamesOwn(s.fs, d, fd);
    assert Sidecar(e) in Names(e) && Bound(s.fs, Sidecar(e), fd) && NamesOwn(s.fs, e, fd);
    assert Owns(s, d, fd) && Owns(s, e, fd);
  }

  /** A holder that crashed blocks nobody: a lock can be taken once no live process holds that path's. */
  lemma LockIsNeverOrphaned(sql: Sqlite, dbs: set<string>, ss: seq<State>, i: nat, pid: Pid)
    requires ApartRun(sql, dbs, ss) && i < |ss| && At(ss[i], pid, Opened)
    ensures Enabled(sql, dbs, ss[i], TryLock(pid))
       <==> forall q :: Holder(ss[i], q) ==> ss[i].procs[q].db != ss[i].procs[pid].db
  {
    RunKeepsSafety(sql, dbs, ss, i);
    if ss[i].procs[pid].fd in ss[i].locks {
      SameLockSamePath(dbs, ss[i], pid);
    } else {
      forall q | Holder(ss[i], q) ensures ss[i].procs[q].db != ss[i].procs[pid].db {
        if ss[i].procs[q].db == ss[i].procs[pid].db {
          SamePathSameLock(dbs, ss[i], pid, q);
        }
      }
    }
  }
}
