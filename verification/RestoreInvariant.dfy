/**
 What every step of every process keeps. In every run of servers, restores and unlocked
 tools on any number of database paths, each restore's path, rollback name and staging
 files are what its phase says. Contents are as it found or made them as long as no tool
 writes the path without the lock.
 */
module RestoreInvariant {
  import opened Wrappers
  import opened DbNames
  import opened RestoreProtocol
  import opened LockExclusion

  // ---------------------------------------------------------------- outcomes

  /** The database path is as the restore found it. */
  ghost predicate OldIntact(p: Proc, fs: Fs) {
    Get(fs.names, p.db) == p.before && (p.before.Some? ==> Data(fs, p.before.value) == p.content)
  }

  /** The snapshot with every migrated write, verified before and checked after migration. */
  ghost predicate Complete(sql: Sqlite, p: Proc, db: Db) {
    && sql.countsMatch(p.snapshot)
    && db == p.snapshot + sql.migrations(p.snapshot)
    && sql.intact(db)
  }

  ghost predicate NewIntact(sql: Sqlite, p: Proc, fs: Fs) {
    Get(fs.names, p.db) == Some(p.main) && Complete(sql, p, Data(fs, p.main))
  }

  ghost predicate RollbackIntact(p: Proc, fs: Fs) {
    p.before.Some? ==>
      Get(fs.names, Rollback(p.db)) == p.before && Data(fs, p.before.value) == p.content
  }

  predicate Swapped(p: Proc) {
    p.phase.Renamed? || p.phase.Cleaned? || p.phase.Settled?
  }

  // ------------------------------------------------------ paths and inodes apart

  function Names(db: string): set<string> {
    {db, Wal(db), Shm(db), Rollback(db), Sidecar(db)}
  }

  /** The names derived from one configured path are not those of another. */
  ghost predicate PathsApart(dbs: set<string>) {
    forall d, e :: d in dbs && e in dbs && d != e ==> Names(d) !! Names(e)
  }

  /** The files a restore is preparing. */
  predicate Stages(p: Proc, i: Inode) {
    p.kind == Restoring && HasStage(p) && (i == p.main || (HasLog(p) && i == p.log))
  }

  ghost predicate NamesOwn(fs: Fs, d: string, i: Inode) {
    exists n :: n in Names(d) && Bound(fs, n, i)
  }

  ghost predicate ProcsOwn(s: State, d: string, i: Inode) {
    exists pid :: pid in s.procs && s.procs[pid].db == d && Stages(s.procs[pid], i)
  }

  /** The inode belongs to the path: one of its names denotes it, or a restore of it is preparing it. */
  ghost predicate Owns(s: State, d: string, i: Inode) {
    NamesOwn(s.fs, d, i) || ProcsOwn(s, d, i)
  }

  /** No file belongs to two paths. */
  ghost predicate InodesApart(dbs: set<string>, s: State) {
    forall d, e, i: Inode :: d in dbs && e in dbs && Owns(s, d, i) && Owns(s, e, i) ==> d == e
  }

  lemma OwnNames(db: string)
    ensures Rollback(db) !in {db, Wal(db), Shm(db)} && db !in {Wal(db), Shm(db)} && db != Sidecar(db)
  {
    SidecarIsLonger(db);
    RollbackIsLonger(db);
    LastLetters(db, "");
    assert |Wal(db)| == |db| + 4 && |Shm(db)| == |db| + 4;
  }

  lemma ApartMeansNoSidecar(dbs: set<string>)
    requires PathsApart(dbs)
    ensures NoPathIsASidecar(dbs)
  {
    forall d, e | d in dbs && e in dbs ensures e != Sidecar(d) {
      OwnNames(d);
      if d != e {
        assert e in Names(e) && Sidecar(d) in Names(d);
      }
    }
  }

  // --------------------------------------------------------------- invariant

  /** The old file stays on disk, and so does its entry until the directory is synced after the rename. */
  ghost predicate OldOnDisk(p: Proc, fs: Fs) {
    p.onDisk && !p.phase.Settled? ==>
      && (Get(fs.disk, p.db) == p.before || (Swapped(p) && Get(fs.disk, p.db) == Some(p.main)))
      && (p.before.Some? ==> p.before.value in fs.synced)
  }

  predicate HasStage(p: Proc) {
    !p.phase.Starting? && !p.phase.Opened? && !p.phase.Locked?
  }

  predicate HasLog(p: Proc) {
    p.phase.Verified? || p.phase.Migrated? || p.phase.Checked?
  }

  predicate Folded(p: Proc) {
    HasStage(p) && !p.phase.Staged? && !HasLog(p)
  }

  /** What the staging file and its log hold in each phase. */
  ghost predicate StageIntact(sql: Sqlite, p: Proc, fs: Fs) {
    && p.main < fs.next && Some(p.main) != p.before
    && (p.phase.Staged? ==> p.stage.Some?)
    && (p.phase.Staged? || HasLog(p) ==> Data(fs, p.main) == p.snapshot)
    && (HasLog(p) ==> p.log < fs.next && p.log != p.main && Some(p.log) != p.before && sql.countsMatch(p.snapshot))
    && (p.phase.Migrated? || p.phase.Checked? ==> Data(fs, p.log) == sql.migrations(p.snapshot))
    && (p.phase.Checked? ==> Complete(sql, p, Data(fs, p.main) + Data(fs, p.log)))
    && (Folded(p) ==> Complete(sql, p, Data(fs, p.main)))
    && (Folded(p) && !p.phase.Checkpointed? && !p.phase.Trimmed? ==> p.main in fs.synced)
  }

  /** No name of the path denotes a file that is still being prepared. */
  ghost predicate StageUnbound(p: Proc, fs: Fs) {
    Unbound(fs, p.db, p.main) && (HasLog(p) ==> Unbound(fs, p.db, p.log))
  }

  predicate Unbound(fs: Fs, db: string, i: Inode) {
    !OwnInode(fs, db, i) && !Bound(fs, Rollback(db), i) && !Bound(fs, Sidecar(db), i)
  }

  /** What a restore keeps even while tools write its path. */
  ghost predicate BindingsSafe(sql: Sqlite, p: Proc, fs: Fs) {
    && (p.before.Some? ==> p.before.value < fs.next)
    && (p.before.Some? && !Swapped(p) ==> Get(fs.names, p.db) == p.before)
    && (p.before.Some? && (p.phase.Linked? || Swapped(p)) ==> Get(fs.names, Rollback(p.db)) == p.before)
    && (HasStage(p) && !Swapped(p) ==> StageIntact(sql, p, fs) && StageUnbound(p, fs))
    && (Swapped(p) ==> p.main < fs.next && Some(p.main) != p.before && Get(fs.names, p.db) == Some(p.main))
  }

  /** What holds of the contents, and of what is on disk, if none does. */
  ghost predicate ContentsSafe(sql: Sqlite, p: Proc, fs: Fs) {
    && OldOnDisk(p, fs)
    && (!Swapped(p) ==> OldIntact(p, fs))
    && (p.phase.Linked? || Swapped(p) ==> RollbackIntact(p, fs))
    && (Swapped(p) ==> NewIntact(sql, p, fs) && p.main in fs.synced)
    && (p.phase.Settled? ==> Get(fs.disk, p.db) == Some(p.main)
                             && (p.before.Some? ==> Get(fs.disk, Rollback(p.db)) == p.before)
                             && (p.onDisk && p.before.Some? ==> p.before.value in fs.synced))
  }

  /** The staging names are none of a configured path's names. */
  ghost predicate StageClear(dbs: set<string>, p: Proc) {
    p.stage.Some? ==> forall d :: d in dbs ==> StageNames(p) !! Names(d)
  }

  /** What holds of one process whoever moves. */
  ghost predicate ProcSafe(sql: Sqlite, dbs: set<string>, p: Proc, fs: Fs, written: set<string>) {
    && StageClear(dbs, p)
    && (p.kind == Tool ==> p.phase.Starting?)
    && (!Holds(p) ==> p.stage.None?)
    && (Holds(p) && p.kind == Serving ==> p.phase.Locked? && p.stage.None?)
    && (Holds(p) && p.kind == Restoring ==>
          BindingsSafe(sql, p, fs) && (p.db !in written ==> ContentsSafe(sql, p, fs)))
  }

  ghost predicate SafetyInvariant(sql: Sqlite, dbs: set<string>, s: State) {
    && PathsApart(dbs) && LockInvariant(dbs, s) && InodesBelow(s.fs) && InodesApart(dbs, s)
    && (forall pid :: pid in s.procs ==> ProcSafe(sql, dbs, s.procs[pid], s.fs, s.written))
  }

  // --------------------------------------------------------------- own steps

  ghost predicate Ready(sql: Sqlite, p: Proc, fs: Fs, phase: Phase) {
    && BindingsSafe(sql, p, fs) && InodesBelow(fs) && p.kind == Restoring && p.phase == phase
    && StageNames(p) !! Names(p.db)
  }

  /** A step that keeps the bindings safe, and the contents if they were. */
  ghost predicate Keeps(sql: Sqlite, p: Proc, fs: Fs, q: Proc, after: Fs) {
    BindingsSafe(sql, q, after) && (ContentsSafe(sql, p, fs) ==> ContentsSafe(sql, q, after))
  }

  lemma StageSafe(sql: Sqlite, p: Proc, fs: Fs, path: string)
    requires Ready(sql, p, fs, Locked) && path !in Names(p.db)
    ensures Keeps(sql, p, fs, p.(phase := Staged, stage := Some(path), main := fs.next), Create(fs, path, p.snapshot))
  {
    assert p.db in Names(p.db);
  }

  lemma VerifySafe(sql: Sqlite, p: Proc, fs: Fs)
    requires Ready(sql, p, fs, Staged) && p.stage.Some? && sql.countsMatch(Data(fs, p.main))
    ensures Keeps(sql, p, fs, p.(phase := Verified, log := fs.next), Create(fs, Wal(p.stage.value), []))
  {
    assert p.db in Names(p.db);
    assert Wal(p.stage.value) in StageNames(p);
  }

  lemma MigrateSafe(sql: Sqlite, p: Proc, fs: Fs)
    requires Ready(sql, p, fs, Verified)
    ensures Keeps(sql, p, fs, p.(phase := Migrated), Overwrite(fs, p.log, sql.migrations(Data(fs, p.main))))
  {
  }

  lemma CheckSafe(sql: Sqlite, p: Proc, fs: Fs)
    requires Ready(sql, p, fs, Migrated) && sql.intact(Data(fs, p.main) + Data(fs, p.log))
    ensures Keeps(sql, p, fs, p.(phase := Checked), fs)
  {
  }

  /** The checkpoint moves the migrated writes into the file that will be renamed. */
  lemma CheckpointSafe(sql: Sqlite, p: Proc, fs: Fs)
    requires Ready(sql, p, fs, Checked)
    ensures var folded := Overwrite(fs, p.main, Data(fs, p.main) + Data(fs, p.log));
      Keeps(sql, p, fs, p.(phase := Checkpointed), Overwrite(folded, p.log, []))
  {
  }

  /** So removing the staging log afterwards loses none of them. */
  lemma TrimSafe(sql: Sqlite, p: Proc, fs: Fs)
    requires Ready(sql, p, fs, Checkpointed)
    ensures Keeps(sql, p, fs, p.(phase := Trimmed),
      Unlink(fs, if p.stage.Some? then {Wal(p.stage.value), Shm(p.stage.value)} else {}))
  {
    assert {p.db, Rollback(p.db)} <= Names(p.db);
  }

  lemma FlushSafe(sql: Sqlite, p: Proc, fs: Fs)
    requires Ready(sql, p, fs, Trimmed)
    ensures Keeps(sql, p, fs, p.(phase := Flushed), fs.(synced := fs.synced + {p.main}))
  {
  }

  lemma LinkSafe(sql: Sqlite, p: Proc, fs: Fs)
    requires Ready(sql, p, fs, Flushed) && Rollback(p.db) != p.db
    ensures Keeps(sql, p, fs, p.(phase := Linked),
      if p.db in fs.names then fs.(names := fs.names[Rollback(p.db) := fs.names[p.db]]) else fs)
  {
    assert {p.db, Rollback(p.db)} <= Names(p.db);
    assert p.db in fs.names ==> Bound(fs, p.db, fs.names[p.db]);
  }

  lemma RenameSafe(sql: Sqlite, p: Proc, fs: Fs)
    requires Ready(sql, p, fs, Linked) && Rollback(p.db) != p.db
    ensures var q, after := p.(phase := Renamed),
        fs.(names := (fs.names - if p.stage.Some? then {p.stage.value} else {})[p.db := p.main]);
      Keeps(sql, p, fs, q, after) && NewIntact(sql, q, after)
  {
    assert {p.db, Rollback(p.db)} <= Names(p.db);
  }

  lemma CleanSafe(sql: Sqlite, p: Proc, fs: Fs)
    requires Ready(sql, p, fs, Renamed)
    requires p.db !in {Wal(p.db), Shm(p.db)} && Rollback(p.db) !in {Wal(p.db), Shm(p.db)}
    ensures Keeps(sql, p, fs, p.(phase := Cleaned), Unlink(fs, {Wal(p.db), Shm(p.db)}))
  {
  }

  lemma FlushDirSafe(sql: Sqlite, p: Proc, fs: Fs)
    requires Ready(sql, p, fs, Cleaned)
    ensures Keeps(sql, p, fs, p.(phase := Settled), SyncDir(fs, DirPrefix(p.db)))
  {
    RollbackIsBeside(p.db);
  }

  lemma LockSafe(sql: Sqlite, p: Proc, fs: Fs, pid: Pid)
    requires InodesBelow(fs)
    ensures var noted := WriteHolder(fs, p.fd, pid);
      var q := p.(phase := Locked, before := Get(noted.names, p.db),
        content := Contents(noted, p.db), onDisk := OnDisk(noted, p.db), oldLog := Get(noted.names, Wal(p.db)),
        logged := Contents(noted, Wal(p.db)), logOnDisk := OnDisk(noted, Wal(p.db)));
      BindingsSafe(sql, q, noted) && ContentsSafe(sql, q, noted)
  {
  }

  /** A tool writes files of the path, none of which is being prepared. */
  lemma WriteSafe(sql: Sqlite, p: Proc, fs: Fs, after: Fs)
    requires BindingsSafe(sql, p, fs) && p.kind == Restoring && ToolFrame(fs, p.db, after)
    ensures BindingsSafe(sql, p, after)
  {
    OwnNames(p.db);
    if HasStage(p) && !Swapped(p) {
      ToolLeaves(fs, p.db, after, p.main);
      if HasLog(p) {
        ToolLeaves(fs, p.db, after, p.log);
      }
    }
  }

  lemma ToolLeaves(fs: Fs, db: string, after: Fs, i: Inode)
    requires ToolFrame(fs, db, after) && i < fs.next && Unbound(fs, db, i)
    ensures Unbound(after, db, i) && Data(after, i) == Data(fs, i) && (i in fs.synced ==> i in after.synced)
  {
    OwnNames(db);
    assert forall n :: n in {db, Wal(db), Shm(db)} ==> !Bound(after, n, i);
  }

  // ------------------------------------------------------------ own steps, in a run

  lemma CreateKeepsBelow(fs: Fs, name: string, data: Db)
    requires InodesBelow(fs)
    ensures InodesBelow(Create(fs, name, data))
  {
  }

  ghost predicate StaysSafe(sql: Sqlite, dbs: set<string>, pid: Pid, t: State) {
    pid in t.procs && ProcSafe(sql, dbs, t.procs[pid], t.fs, t.written) && InodesBelow(t.fs)
  }

  lemma OpenSafe(sql: Sqlite, dbs: set<string>, s: State, pid: Pid)
    requires SafetyInvariant(sql, dbs, s) && Enabled(sql, dbs, s, Open(pid))
    ensures StaysSafe(sql, dbs, pid, Do(sql, dbs, s, Open(pid)))
  {
    CreateKeepsBelow(s.fs, Sidecar(s.procs[pid].db), []);
  }

  lemma TakeLockSafe(sql: Sqlite, dbs: set<string>, s: State, pid: Pid)
    requires SafetyInvariant(sql, dbs, s) && Enabled(sql, dbs, s, TryLock(pid))
    ensures StaysSafe(sql, dbs, pid, Do(sql, dbs, s, TryLock(pid)))
  {
    var p := s.procs[pid];
    assert Get(s.fs.names, Sidecar(p.db)) == Some(p.fd);
    LockSafe(sql, p, s.fs, pid);
  }

  ghost predicate MaySafely(sql: Sqlite, dbs: set<string>, s: State, step: Step) {
    && !step.PowerLoss? && !step.Start? && Enabled(sql, dbs, s, step) && s.procs[step.pid].db in dbs
    && InodesBelow(s.fs) && ProcSafe(sql, dbs, s.procs[step.pid], s.fs, s.written)
  }

  lemma ClearOfOwn(dbs: set<string>, p: Proc)
    requires StageClear(dbs, p) && p.db in dbs
    ensures StageNames(p) !! Names(p.db)
  {
  }

  lemma EndsApart(n: string, c: char, d: string)
    requires EndsWith(n, c) && c in {'e', 'l', 'm'} && n != d
    requires c == 'e' ==> n != Rollback(d)
    requires c == 'l' ==> n != Wal(d)
    requires c == 'm' ==> n != Shm(d)
    ensures n !in Names(d)
  {
    LastLetters(d, "");
  }

  lemma FreshIsClear(dbs: set<string>, s: State, db: string, tag: string, d: string)
    requires FreshStage(dbs, s, StagePath(db, tag)) && d in dbs
    ensures var path := StagePath(db, tag); {path, Wal(path), Shm(path)} !! Names(d)
  {
    var path := StagePath(db, tag);
    LastLetters(db, tag);
    LastLetters(path, tag);
    SidecarNamesDiffer(path, d);
    EndsApart(path, 'e', d);
    EndsApart(Wal(path), 'l', d);
    EndsApart(Shm(path), 'm', d);
  }

  lemma StageStep(sql: Sqlite, dbs: set<string>, s: State, step: Step)
    requires MaySafely(sql, dbs, s, step) && step.Stage?
    ensures StaysSafe(sql, dbs, step.pid, Do(sql, dbs, s, step))
  {
    var p, path := s.procs[step.pid], StagePath(s.procs[step.pid].db, step.tag);
    ClearOfOwn(dbs, p);
    forall d | d in dbs ensures {path, Wal(path), Shm(path)} !! Names(d) {
      FreshIsClear(dbs, s, p.db, step.tag, d);
    }
    StageSafe(sql, p, s.fs, path);
    CreateKeepsBelow(s.fs, path, p.snapshot);
  }

  lemma VerifyStep(sql: Sqlite, dbs: set<string>, s: State, step: Step)
    requires MaySafely(sql, dbs, s, step) && step.Verify?
    ensures StaysSafe(sql, dbs, step.pid, Do(sql, dbs, s, step))
  {
    var p := s.procs[step.pid];
    ClearOfOwn(dbs, p);
    VerifySafe(sql, p, s.fs);
    CreateKeepsBelow(s.fs, Wal(p.stage.value), []);
  }

  lemma MigratingStep(sql: Sqlite, dbs: set<string>, s: State, step: Step)
    requires MaySafely(sql, dbs, s, step) && (step.Migrate? || step.CheckIntegrity?)
    ensures StaysSafe(sql, dbs, step.pid, Do(sql, dbs, s, step))
  {
    var p := s.procs[step.pid];
    ClearOfOwn(dbs, p);
    match step
    case Migrate(_) => MigrateSafe(sql, p, s.fs);
    case CheckIntegrity(_) => CheckSafe(sql, p, s.fs);
  }

  lemma CheckpointStep(sql: Sqlite, dbs: set<string>, s: State, step: Step)
    requires MaySafely(sql, dbs, s, step) && step.Checkpoint?
    ensures StaysSafe(sql, dbs, step.pid, Do(sql, dbs, s, step))
  {
    ClearOfOwn(dbs, s.procs[step.pid]);
    CheckpointSafe(sql, s.procs[step.pid], s.fs);
  }

  lemma FlushingStep(sql: Sqlite, dbs: set<string>, s: State, step: Step)
    requires MaySafely(sql, dbs, s, step) && (step.Trim? || step.FlushStage?)
    ensures StaysSafe(sql, dbs, step.pid, Do(sql, dbs, s, step))
  {
    var p := s.procs[step.pid];
    ClearOfOwn(dbs, p);
    match step
    case Trim(_) => TrimSafe(sql, p, s.fs);
    case FlushStage(_) => FlushSafe(sql, p, s.fs);
  }

  lemma SwappingStep(sql: Sqlite, dbs: set<string>, s: State, step: Step)
    requires MaySafely(sql, dbs, s, step) && (step.Link? || step.Rename?)
    ensures StaysSafe(sql, dbs, step.pid, Do(sql, dbs, s, step))
  {
    var p := s.procs[step.pid];
    ClearOfOwn(dbs, p);
    OwnNames(p.db);
    match step
    case Link(_) => LinkSafe(sql, p, s.fs);
    case Rename(_) => RenameSafe(sql, p, s.fs);
  }

  lemma FinishingStep(sql: Sqlite, dbs: set<string>, s: State, step: Step)
    requires MaySafely(sql, dbs, s, step) && (step.Clean? || step.FlushDir?)
    ensures StaysSafe(sql, dbs, step.pid, Do(sql, dbs, s, step))
  {
    var p := s.procs[step.pid];
    ClearOfOwn(dbs, p);
    OwnNames(p.db);
    match step
    case Clean(_) => CleanSafe(sql, p, s.fs);
    case FlushDir(_) => FlushDirSafe(sql, p, s.fs);
  }

  lemma FreeStep(sql: Sqlite, dbs: set<string>, s: State, step: Step)
    requires SafetyInvariant(sql, dbs, s) && Enabled(sql, dbs, s, step) && (step.Start? || step.Serve? || step.Write?)
    ensures StaysSafe(sql, dbs, step.pid, Do(sql, dbs, s, step))
  {
  }

  /** The steps up to a passed integrity check. */
  predicate Preparing(step: Step) {
    step.Stage? || step.Verify? || step.Migrate? || step.CheckIntegrity?
  }

  lemma PreparingStep(sql: Sqlite, dbs: set<string>, s: State, step: Step)
    requires Preparing(step) && MaySafely(sql, dbs, s, step)
    ensures StaysSafe(sql, dbs, step.pid, Do(sql, dbs, s, step))
  {
    if step.Stage? {
      StageStep(sql, dbs, s, step);
    } else if step.Verify? {
      VerifyStep(sql, dbs, s, step);
    } else {
      MigratingStep(sql, dbs, s, step);
    }
  }

  /** The steps from the checkpoint on. */
  predicate Publishing(step: Step) {
    || step.Checkpoint? || step.Trim? || step.FlushStage? || step.Link? || step.Rename? || step.Clean? || step.FlushDir?
  }

  lemma PublishingStep(sql: Sqlite, dbs: set<string>, s: State, step: Step)
    requires Publishing(step) && MaySafely(sql, dbs, s, step)
    ensures StaysSafe(sql, dbs, step.pid, Do(sql, dbs, s, step))
  {
    if step.Checkpoint? {
      CheckpointStep(sql, dbs, s, step);
    } else if step.Trim? || step.FlushStage? {
      FlushingStep(sql, dbs, s, step);
    } else if step.Link? || step.Rename? {
      SwappingStep(sql, dbs, s, step);
    } else {
      FinishingStep(sql, dbs, s, step);
    }
  }

  lemma InvariantAllows(sql: Sqlite, dbs: set<string>, s: State, step: Step)
    requires SafetyInvariant(sql, dbs, s) && (Preparing(step) || Publishing(step)) && Enabled(sql, dbs, s, step)
    ensures MaySafely(sql, dbs, s, step)
  {
    assert step.pid in s.procs;
  }

  lemma OwnStep(sql: Sqlite, dbs: set<string>, s: State, step: Step)
    requires SafetyInvariant(sql, dbs, s) && Enabled(sql, dbs, s, step)
    requires !step.PowerLoss? && !step.Exit? && !step.Kill?
    ensures StaysSafe(sql, dbs, step.pid, Do(sql, dbs, s, step))
  {
    if step.Open? {
      OpenSafe(sql, dbs, s, step.pid);
    } else if step.TryLock? {
      TakeLockSafe(sql, dbs, s, step.pid);
    } else if Preparing(step) {
      InvariantAllows(sql, dbs, s, step);
      PreparingStep(sql, dbs, s, step);
    } else if Publishing(step) {
      InvariantAllows(sql, dbs, s, step);
      PublishingStep(sql, dbs, s, step);
    } else {
      FreeStep(sql, dbs, s, step);
    }
  }

  // -------------------------------------------------------- inodes stay apart

  /** Where a directory entry of the next state comes from. */
  lemma BindingOrigin(sql: Sqlite, dbs: set<string>, s: State, step: Step, n: string, i: Inode)
    requires Enabled(sql, dbs, s, step) && !step.PowerLoss? && !step.Start?
    requires Bound(Do(sql, dbs, s, step).fs, n, i) && !Bound(s.fs, n, i)
    ensures n in Touched(s, step)
    ensures var p := s.procs[step.pid];
      || i >= s.fs.next || ((step.Serve? || step.Write?) && OwnInode(s.fs, p.db, i))
      || (step.Link? && Bound(s.fs, p.db, i)) || (step.Rename? && i == p.main)
  {
    if n !in Touched(s, step) {
      NamesFrame(sql, dbs, s, step, n);
      DiskFrame(sql, dbs, s, step, n);
    }
  }

  /** A touched name that belongs to a configured path belongs to the path of the process. */
  lemma TouchedIsOwn(sql: Sqlite, dbs: set<string>, s: State, step: Step, n: string, d: string)
    requires SafetyInvariant(sql, dbs, s) && Enabled(sql, dbs, s, step) && d in dbs
    requires n in Touched(s, step) && n in Names(d)
    ensures step.pid in s.procs && s.procs[step.pid].db == d
  {
    TouchedNames(s, step, n);
    var p := s.procs[step.pid];
    assert ProcSafe(sql, dbs, p, s.fs, s.written);
    if step.Stage? {
      FreshIsClear(dbs, s, p.db, step.tag, d);
    }
    assert n !in StageNames(p);
    assert n in Names(p.db);
  }

  lemma NamesOrigin(sql: Sqlite, dbs: set<string>, s: State, step: Step, d: string, i: Inode)
    requires SafetyInvariant(sql, dbs, s) && Enabled(sql, dbs, s, step) && !step.PowerLoss? && !step.Start? && d in dbs
    requires NamesOwn(Do(sql, dbs, s, step).fs, d, i)
    ensures Owns(s, d, i) || (i >= s.fs.next && s.procs[step.pid].db == d)
  {
    var n :| n in Names(d) && Bound(Do(sql, dbs, s, step).fs, n, i);
    if !Bound(s.fs, n, i) {
      BindingOrigin(sql, dbs, s, step, n, i);
      TouchedIsOwn(sql, dbs, s, step, n, d);
      assert {d, Wal(d), Shm(d)} <= Names(d);
      if step.Rename? && i == s.procs[step.pid].main {
        assert Stages(s.procs[step.pid], i);
      }
    }
  }

  lemma StagesOrigin(sql: Sqlite, dbs: set<string>, s: State, step: Step, i: Inode)
    requires Enabled(sql, dbs, s, step) && !step.PowerLoss? && !step.Start? && step.pid in Do(sql, dbs, s, step).procs
    requires Stages(Do(sql, dbs, s, step).procs[step.pid], i)
    ensures step.pid in s.procs && (Stages(s.procs[step.pid], i) || i >= s.fs.next)
  {
  }

  lemma OthersKept(sql: Sqlite, dbs: set<string>, s: State, step: Step, pid: Pid)
    requires Enabled(sql, dbs, s, step) && pid in Do(sql, dbs, s, step).procs
    ensures step.Start? && step.pid == pid ==> !Holds(Do(sql, dbs, s, step).procs[pid])
    ensures !(step.Start? && step.pid == pid) ==>
      && pid in s.procs && s.procs[pid].db == Do(sql, dbs, s, step).procs[pid].db
      && (step.PowerLoss? || step.pid != pid ==> s.procs[pid] == Do(sql, dbs, s, step).procs[pid])
  {
  }

  lemma ProcsOrigin(sql: Sqlite, dbs: set<string>, s: State, step: Step, d: string, i: Inode)
    requires Enabled(sql, dbs, s, step) && !step.PowerLoss? && ProcsOwn(Do(sql, dbs, s, step), d, i)
    ensures ProcsOwn(s, d, i) || (!step.Start? && i >= s.fs.next && s.procs[step.pid].db == d)
  {
    var t := Do(sql, dbs, s, step);
    var pid :| pid in t.procs && t.procs[pid].db == d && Stages(t.procs[pid], i);
    OthersKept(sql, dbs, s, step, pid);
    if step.pid == pid && !step.Start? {
      StagesOrigin(sql, dbs, s, step, i);
    }
  }

  lemma PowerLossOrigin(s: State, after: Fs, d: string, i: Inode)
    requires PowerLossFrame(s.fs, after) && NamesOwn(after, d, i)
    ensures NamesOwn(s.fs, d, i)
  {
    var n :| n in Names(d) && Bound(after, n, i);
    assert Bound(s.fs, n, i);
  }

  lemma OwnsOrigin(sql: Sqlite, dbs: set<string>, s: State, step: Step, d: string, i: Inode)
    requires SafetyInvariant(sql, dbs, s) && Enabled(sql, dbs, s, step) && d in dbs
    requires Owns(Do(sql, dbs, s, step), d, i)
    ensures Owns(s, d, i)
         || (!step.PowerLoss? && !step.Start? && i >= s.fs.next && s.procs[step.pid].db == d)
  {
    if step.PowerLoss? {
      PowerLossOrigin(s, step.after, d, i);
    } else if ProcsOwn(Do(sql, dbs, s, step), d, i) {
      ProcsOrigin(sql, dbs, s, step, d, i);
    } else if !step.Start? {
      NamesOrigin(sql, dbs, s, step, d, i);
    }
  }

  lemma OwnedIsBelow(sql: Sqlite, dbs: set<string>, s: State, d: string, i: Inode)
    requires SafetyInvariant(sql, dbs, s) && Owns(s, d, i)
    ensures i < s.fs.next
  {
    if ProcsOwn(s, d, i) {
      var pid :| pid in s.procs && s.procs[pid].db == d && Stages(s.procs[pid], i);
      assert ProcSafe(sql, dbs, s.procs[pid], s.fs, s.written);
    }
  }

  lemma StepKeepsApart(sql: Sqlite, dbs: set<string>, s: State, step: Step)
    requires SafetyInvariant(sql, dbs, s) && Enabled(sql, dbs, s, step)
    ensures InodesApart(dbs, Do(sql, dbs, s, step))
  {
    var t := Do(sql, dbs, s, step);
    forall d, e, i: Inode | d in dbs && e in dbs && Owns(t, d, i) && Owns(t, e, i) ensures d == e {
      OwnsOrigin(sql, dbs, s, step, d, i);
      OwnsOrigin(sql, dbs, s, step, e, i);
      if Owns(s, d, i) {
        OwnedIsBelow(sql, dbs, s, d, i);
      }
      if Owns(s, e, i) {
        OwnedIsBelow(sql, dbs, s, e, i);
      }
    }
  }

  // ------------------------------------------------------------ other's steps

  /** A file the path of process `p` has nothing to do with. */
  ghost predicate Foreign(fs: Fs, p: Proc, i: Inode) {
    i < fs.next && (forall n :: n in Names(p.db) ==> !Bound(fs, n, i)) && !Stages(p, i)
  }

  lemma ServerLeaves(fs: Fs, p: Proc, after: Fs, i: Inode)
    requires ServerFrame(fs, p.db, after) && Foreign(fs, p, i)
    ensures Data(after, i) == Data(fs, i) && (i in fs.synced ==> i in after.synced)
  {
    assert {p.db, Wal(p.db), Shm(p.db)} <= Names(p.db);
  }

  lemma HolderLeaves(fs: Fs, p: Proc, pid: Pid, i: Inode)
    requires Get(fs.names, Sidecar(p.db)) == Some(p.fd) && Foreign(fs, p, i)
    ensures Data(WriteHolder(fs, p.fd, pid), i) == Data(fs, i)
  {
    assert Bound(fs, Sidecar(p.db), p.fd) && Sidecar(p.db) in Names(p.db);
  }

  lemma RestoreLeaves(sql: Sqlite, dbs: set<string>, s: State, step: Step, i: Inode)
    requires step.Migrate? || step.Checkpoint? || step.Verify? || step.Stage? || step.Open?
    requires Enabled(sql, dbs, s, step) && i < s.fs.next && !Stages(s.procs[step.pid], i)
    ensures var t := Do(sql, dbs, s, step).fs; Data(t, i) == Data(s.fs, i) && (i in s.fs.synced ==> i in t.synced)
  {
  }

  lemma LinksLeave(sql: Sqlite, dbs: set<string>, s: State, step: Step)
    requires Enabled(sql, dbs, s, step)
    requires step.CheckIntegrity? || step.Trim? || step.FlushStage? || step.Link? || step.Rename? || step.Clean?
             || step.FlushDir? || step.Exit? || step.Kill?
    ensures var t := Do(sql, dbs, s, step).fs; t.files == s.fs.files && s.fs.synced <= t.synced
  {
  }

  /** A process writes only to files of its own path, and to new ones. */
  lemma OthersFiles(sql: Sqlite, dbs: set<string>, s: State, step: Step, i: Inode)
    requires SafetyInvariant(sql, dbs, s) && Enabled(sql, dbs, s, step) && !step.PowerLoss? && !step.Start?
    requires i < s.fs.next && !Owns(s, s.procs[step.pid].db, i)
    ensures var t := Do(sql, dbs, s, step).fs;
      Data(t, i) == Data(s.fs, i) && (i in s.fs.synced ==> i in t.synced)
  {
    var p := s.procs[step.pid];
    assert Foreign(s.fs, p, i);
    if step.Serve? || step.Write? {
      ServerLeaves(s.fs, p, step.after, i);
    } else if step.TryLock? {
      HolderLeaves(s.fs, p, step.pid, i);
    } else if step.Migrate? || step.Checkpoint? || step.Verify? || step.Stage? || step.Open? {
      RestoreLeaves(sql, dbs, s, step, i);
    } else {
      LinksLeave(sql, dbs, s, step);
    }
  }

  /** While a process holds a lock, no other process on its path changes the file system, tools apart. */
  lemma OthersIdle(sql: Sqlite, dbs: set<string>, s: State, step: Step, r: Pid)
    requires SafetyInvariant(sql, dbs, s) && Enabled(sql, dbs, s, step) && Holder(s, r)
    requires !step.PowerLoss? && !step.Write? && step.pid != r && (step.Start? || s.procs[step.pid].db == s.procs[r].db)
    ensures Do(sql, dbs, s, step).fs == s.fs && Do(sql, dbs, s, step).written == s.written
  {
    InvariantMeansExclusive(dbs, s);
    if !step.Start? {
      assert !Holder(s, step.pid);
    }
  }

  /** What a restore relies on, seen in two file systems. */
  ghost predicate SameFor(p: Proc, fs: Fs, after: Fs) {
    && fs.next <= after.next
    && (forall n :: n in Names(p.db) ==>
          && Get(after.names, n) == Get(fs.names, n)
          && (Get(after.disk, n) == Get(fs.disk, n) || Get(after.disk, n) == Get(fs.names, n)))
    && (forall i: Inode :: Some(i) == p.before || Stages(p, i) ==>
          Data(after, i) == Data(fs, i) && (i in fs.synced ==> i in after.synced))
  }

  lemma SameBinding(p: Proc, fs: Fs, after: Fs, n: string)
    requires SameFor(p, fs, after) && n in Names(p.db)
    ensures Get(after.names, n) == Get(fs.names, n)
    ensures Get(after.disk, n) == Get(fs.disk, n) || Get(after.disk, n) == Get(fs.names, n)
    ensures forall i: Inode :: Bound(after, n, i) ==> Bound(fs, n, i)
  {
  }

  lemma SameUnbound(p: Proc, fs: Fs, after: Fs, i: Inode)
    requires SameFor(p, fs, after) && Unbound(fs, p.db, i)
    ensures Unbound(after, p.db, i)
  {
    SameBinding(p, fs, after, p.db);
    SameBinding(p, fs, after, Wal(p.db));
    SameBinding(p, fs, after, Shm(p.db));
    SameBinding(p, fs, after, Rollback(p.db));
    SameBinding(p, fs, after, Sidecar(p.db));
  }

  lemma SameBindings(sql: Sqlite, p: Proc, fs: Fs, after: Fs)
    requires BindingsSafe(sql, p, fs) && p.kind == Restoring && SameFor(p, fs, after)
    ensures BindingsSafe(sql, p, after)
  {
    SameBinding(p, fs, after, p.db);
    SameBinding(p, fs, after, Rollback(p.db));
    if HasStage(p) && !Swapped(p) {
      assert Stages(p, p.main);
      SameUnbound(p, fs, after, p.main);
      if HasLog(p) {
        assert Stages(p, p.log);
        SameUnbound(p, fs, after, p.log);
      }
    }
  }

  lemma SameContents(sql: Sqlite, p: Proc, fs: Fs, after: Fs)
    requires BindingsSafe(sql, p, fs) && ContentsSafe(sql, p, fs) && p.kind == Restoring && SameFor(p, fs, after)
    ensures ContentsSafe(sql, p, after)
  {
    SameBinding(p, fs, after, p.db);
    SameBinding(p, fs, after, Rollback(p.db));
    assert HasStage(p) ==> Stages(p, p.main);
  }

  /** The old file belongs to the path as long as a restore of it runs. */
  lemma OldIsOwned(sql: Sqlite, s: State, pid: Pid)
    requires pid in s.procs && BindingsSafe(sql, s.procs[pid], s.fs) && s.procs[pid].before.Some?
    ensures Owns(s, s.procs[pid].db, s.procs[pid].before.value)
  {
    var p := s.procs[pid];
    assert Bound(s.fs, if Swapped(p) then Rollback(p.db) else p.db, p.before.value);
  }

  lemma OtherPathSame(sql: Sqlite, dbs: set<string>, s: State, step: Step, pid: Pid)
    requires SafetyInvariant(sql, dbs, s) && Enabled(sql, dbs, s, step) && !step.PowerLoss? && !step.Start?
    requires Holder(s, pid) && s.procs[pid].kind == Restoring && s.procs[step.pid].db != s.procs[pid].db
    ensures SameFor(s.procs[pid], s.fs, Do(sql, dbs, s, step).fs)
  {
    var p, t := s.procs[pid], Do(sql, dbs, s, step).fs;
    assert ProcSafe(sql, dbs, p, s.fs, s.written) && p.db in dbs && s.procs[step.pid].db in dbs;
    NextGrows(sql, dbs, s, step);
    forall n | n in Names(p.db)
      ensures Get(t.names, n) == Get(s.fs.names, n)
      ensures Get(t.disk, n) == Get(s.fs.disk, n) || Get(t.disk, n) == Get(s.fs.names, n)
    {
      OtherPathNames(sql, dbs, s, step, n, p.db);
    }
    forall i: Inode | Some(i) == p.before || Stages(p, i)
      ensures Data(t, i) == Data(s.fs, i) && (i in s.fs.synced ==> i in t.synced)
    {
      if Some(i) == p.before {
        OldIsOwned(sql, s, pid);
      }
      assert Owns(s, p.db, i);
      OwnedIsBelow(sql, dbs, s, p.db, i);
      OthersFiles(sql, dbs, s, step, i);
    }
  }

  lemma NextGrows(sql: Sqlite, dbs: set<string>, s: State, step: Step)
    requires Enabled(sql, dbs, s, step)
    ensures s.fs.next <= Do(sql, dbs, s, step).fs.next
  {
  }

  lemma OtherPathNames(sql: Sqlite, dbs: set<string>, s: State, step: Step, n: string, d: string)
    requires SafetyInvariant(sql, dbs, s) && Enabled(sql, dbs, s, step) && !step.PowerLoss? && !step.Start?
    requires d in dbs && n in Names(d) && s.procs[step.pid].db != d
    ensures var t := Do(sql, dbs, s, step).fs;
      && Get(t.names, n) == Get(s.fs.names, n)
      && (Get(t.disk, n) == Get(s.fs.disk, n) || Get(t.disk, n) == Get(s.fs.names, n))
  {
    if n in Touched(s, step) {
      TouchedIsOwn(sql, dbs, s, step, n, d);
    } else {
      NamesFrame(sql, dbs, s, step, n);
      DiskFrame(sql, dbs, s, step, n);
    }
  }

  lemma WrittenElsewhere(sql: Sqlite, dbs: set<string>, s: State, step: Step, d: string)
    requires Enabled(sql, dbs, s, step) && !step.PowerLoss? && !step.Start? && s.procs[step.pid].db != d
    ensures d in Do(sql, dbs, s, step).written <==> d in s.written
  {
  }

  lemma OtherProcs(sql: Sqlite, dbs: set<string>, s: State, step: Step, pid: Pid)
    requires SafetyInvariant(sql, dbs, s) && Enabled(sql, dbs, s, step) && !step.PowerLoss?
    requires pid in Do(sql, dbs, s, step).procs && pid != step.pid
    ensures var t := Do(sql, dbs, s, step); ProcSafe(sql, dbs, t.procs[pid], t.fs, t.written)
  {
    OthersKept(sql, dbs, s, step, pid);
    var t := Do(sql, dbs, s, step);
    assert ProcSafe(sql, dbs, s.procs[pid], s.fs, s.written);
    if Holder(s, pid) && s.procs[pid].kind == Restoring {
      if step.Write? && s.procs[step.pid].db == s.procs[pid].db {
        WriteSafe(sql, s.procs[pid], s.fs, t.fs);
      } else if step.Start? || s.procs[step.pid].db == s.procs[pid].db {
        OthersIdle(sql, dbs, s, step, pid);
      } else {
        OtherPathSame(sql, dbs, s, step, pid);
        SameBindings(sql, s.procs[pid], s.fs, t.fs);
        WrittenElsewhere(sql, dbs, s, step, s.procs[pid].db);
        if s.procs[pid].db !in s.written {
          SameContents(sql, s.procs[pid], s.fs, t.fs);
        }
      }
    }
  }

  lemma StepKeepsSafety(sql: Sqlite, dbs: set<string>, s: State, step: Step)
    requires SafetyInvariant(sql, dbs, s) && Enabled(sql, dbs, s, step)
    ensures SafetyInvariant(sql, dbs, Do(sql, dbs, s, step))
  {
    ApartMeansNoSidecar(dbs);
    StepKeepsInvariant(sql, dbs, s, step);
    StepKeepsApart(sql, dbs, s, step);
    if !step.PowerLoss? {
      var t := Do(sql, dbs, s, step);
      if !step.Exit? && !step.Kill? {
        OwnStep(sql, dbs, s, step);
      }
      forall pid | pid in t.procs && pid != step.pid ensures ProcSafe(sql, dbs, t.procs[pid], t.fs, t.written) {
        OtherProcs(sql, dbs, s, step, pid);
      }
    }
  }

  /** A run on configured paths whose names, and whose files at the start, are apart. */
  ghost predicate ApartRun(sql: Sqlite, dbs: set<string>, ss: seq<State>) {
    Run(sql, dbs, ss) && PathsApart(dbs) && InodesApart(dbs, ss[0])
  }

  lemma {:induction false} RunKeepsSafety(sql: Sqlite, dbs: set<string>, ss: seq<State>, i: nat)
    requires ApartRun(sql, dbs, ss) && i < |ss|
    ensures SafetyInvariant(sql, dbs, ss[i])
  {
    if i > 0 {
      RunKeepsSafety(sql, dbs, ss, i - 1);
      assert StepAt(sql, dbs, ss, i - 1);
      var step :| Enabled(sql, dbs, ss[i - 1], step) && ss[i] == Do(sql, dbs, ss[i - 1], step);
      StepKeepsSafety(sql, dbs, ss[i - 1], step);
    }
  }
}
