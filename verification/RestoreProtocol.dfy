/**
 The names `serve` and `restore` derive from a database path. Every name that a
 process creates, links, renames onto or removes ends in a letter other than the
 lock sidecar's, unless it is a database path itself.
 */
module DbNames {

  const LOCK_SUFFIX := ".deve-sub.lock"

  function Sidecar(db: string): string {
    db + LOCK_SUFFIX
  }

  function Wal(path: string): string {
    path + "-wal"
  }

  function Shm(path: string): string {
    path + "-shm"
  }

  /** The text after the last separator. */
  function FileName(path: string): string {
    if path == "" || path[|path| - 1] == '/' then ""
    else FileName(path[..|path| - 1]) + [path[|path| - 1]]
  }

  lemma FileNameFits(path: string)
    ensures |FileName(path)| <= |path|
  {
  }

  function DirPrefix(path: string): string {
    FileNameFits(path);
    if |FileName(path)| == |path| then "./" else path[..|path| - |FileName(path)|]
  }

  function Rollback(db: string): string {
    var file := FileName(db);
    DirPrefix(db) + "." + (if file == "" || file == ".." then "deve-sub.db" else file) + ".pre-restore"
  }

  /** The database inside the private staging directory named by `tag`. */
  function StagePath(db: string, tag: string): string {
    DirPrefix(db) + ".deve-sub-restore-" + tag + "/database.sqlite"
  }

  predicate EndsWith(s: string, c: char) {
    s != "" && s[|s| - 1] == c
  }

  lemma LastLetters(db: string, tag: string)
    ensures EndsWith(Sidecar(db), 'k')
    ensures EndsWith(Rollback(db), 'e') && EndsWith(StagePath(db, tag), 'e')
    ensures EndsWith(Wal(db), 'l') && EndsWith(Shm(db), 'm')
  {
    assert LOCK_SUFFIX[|LOCK_SUFFIX| - 1] == 'k';
    assert ".pre-restore"[|".pre-restore"| - 1] == 'e';
    assert "/database.sqlite"[|"/database.sqlite"| - 1] == 'e';
    assert "-wal"[|"-wal"| - 1] == 'l';
    assert "-shm"[|"-shm"| - 1] == 'm';
  }

  lemma SidecarIsLonger(db: string)
    ensures |Sidecar(db)| == |db| + 14
  {
  }

  lemma SidecarNamesDiffer(a: string, b: string)
    requires a != b
    ensures Wal(a) != Wal(b) && Shm(a) != Shm(b)
  {
    assert a == Wal(a)[..|Wal(a)| - 4] && b == Wal(b)[..|Wal(b)| - 4];
    assert a == Shm(a)[..|Shm(a)| - 4] && b == Shm(b)[..|Shm(b)| - 4];
  }

  /** The rollback name is the database's own name decorated on both sides, so it is a different one. */
  lemma RollbackIsLonger(db: string)
    ensures |Rollback(db)| > |db|
  {
    FileNameFits(db);
    assert |".pre-restore"| == 12;
  }

  predicate NoSeparator(s: string) {
    '/' !in s
  }

  lemma {:induction false} FileNamePlain(path: string)
    ensures NoSeparator(FileName(path))
  {
    if path != "" && path[|path| - 1] != '/' {
      FileNamePlain(path[..|path| - 1]);
    }
  }

  lemma {:induction false} FileNameAfter(dir: string, file: string)
    requires EndsWith(dir, '/') && NoSeparator(file)
    ensures FileName(dir + file) == file
  {
    if file == "" {
      assert dir + file == dir;
    } else {
      var front := file[..|file| - 1];
      assert (dir + file)[..|dir + file| - 1] == dir + front;
      FileNameAfter(dir, front);
    }
  }

  lemma {:induction false} BeforeFileName(path: string)
    ensures |FileName(path)| <= |path|
    ensures |FileName(path)| < |path| ==> path[|path| - |FileName(path)| - 1] == '/'
  {
    if path != "" && path[|path| - 1] != '/' {
      BeforeFileName(path[..|path| - 1]);
    }
  }

  /** Longer names of the same file are beside it. */
  lemma SuffixIsBeside(path: string, suffix: string)
    requires NoSeparator(suffix)
    ensures DirPrefix(path + suffix) == DirPrefix(path)
  {
    BeforeFileName(path);
    FileNamePlain(path);
    FileNameTail(path);
    var n := |path| - |FileName(path)|;
    assert NoSeparator(path[n..] + suffix);
    if n == 0 {
      assert path[n..] == path;
      FileNameWhole(path + suffix);
    } else {
      FileNameAfter(path[..n], path[n..] + suffix);
      assert path + suffix == path[..n] + (path[n..] + suffix);
    }
  }

  lemma {:induction false} FileNameWhole(path: string)
    requires NoSeparator(path)
    ensures FileName(path) == path
  {
    if path != "" {
      FileNameWhole(path[..|path| - 1]);
      assert path[|path| - 1] in path;
    }
  }

  lemma {:induction false} FileNameTail(path: string)
    ensures |FileName(path)| <= |path| && FileName(path) == path[|path| - |FileName(path)|..]
  {
    if path != "" && path[|path| - 1] != '/' {
      FileNameTail(path[..|path| - 1]);
    }
  }

  /** The rollback file is in the database's own directory. */
  lemma RollbackIsBeside(db: string)
    ensures DirPrefix(Rollback(db)) == DirPrefix(db)
  {
    BeforeFileName(db);
    FileNamePlain(db);
    var dir := DirPrefix(db);
    assert EndsWith(dir, '/');
    var base := FileName(db);
    var file := "." + (if base == "" || base == ".." then "deve-sub.db" else base) + ".pre-restore";
    assert Rollback(db) == dir + file;
    assert NoSeparator(file);
    FileNameAfter(dir, file);
  }
}

/**
 The restore and lock protocol as a state machine. A state holds the directory
 (what processes see and what is on disk), the files by inode, the advisory locks
 by inode and the live processes. Steps of different processes interleave freely;
 a process may exit or be killed between any two steps, and power may fail.
 */
module RestoreProtocol {
  import opened Wrappers
  import opened DbNames

  type Pid = nat
  type Inode = nat
  type Write = nat

  /** A database or write-ahead log, as the writes it holds. */
  type Db = seq<Write>

  /** What SQLite and the manifest decide: row counts, migrations to run, integrity. */
  datatype Sqlite = Sqlite(countsMatch: Db -> bool, migrations: Db -> Db, intact: Db -> bool)

  datatype Fs = Fs(names: map<string, Inode>,   // the directory processes see
                   disk: map<string, Inode>,    // the directory entries that reached the disk
                   files: map<Inode, Db>,
                   synced: set<Inode>,          // files whose contents reached the disk
                   next: Inode)                 // inodes from here on are unused

  /** A tool writes the database without taking the lock, as `migrate` does. */
  datatype Kind = Serving | Restoring | Tool

  datatype Phase =
    | Starting        // nothing opened
    | Opened          // sidecar open, polling for its lock
    | Locked          // lock held; a server runs here
    | Staged          // snapshot copied to the staging path
    | Verified        // row counts agree with the manifest
    | Migrated        // migrations written to the staging log
    | Checked         // integrity check passed
    | Checkpointed    // staging log folded into the staging file
    | Trimmed         // staging log removed
    | Flushed         // staging file synced
    | Linked          // existing database linked to the rollback name
    | Renamed         // staging file renamed onto the database path
    | Cleaned         // production log removed
    | Settled         // directory synced

  /** `before` and `content` record the database as the process found it when it took the lock; the rest, its log. */
  datatype Proc = Proc(db: string, kind: Kind, phase: Phase, fd: Inode, snapshot: Db,
                       stage: Option<string>, main: Inode, log: Inode,
                       before: Option<Inode>, content: Db, onDisk: bool,
                       oldLog: Option<Inode>, logged: Db, logOnDisk: bool)

  /** `written` are the paths a tool wrote since their lock was last taken. */
  datatype State = State(fs: Fs, locks: map<Inode, Pid>, procs: map<Pid, Proc>, written: set<string>)

  datatype Step =
    | Start(pid: Pid, db: string, kind: Kind, snapshot: Db)
    | Open(pid: Pid)
    | TryLock(pid: Pid)
    | Serve(pid: Pid, after: Fs)
    | Write(pid: Pid, after: Fs)
    | Stage(pid: Pid, tag: string)
    | Verify(pid: Pid)
    | Migrate(pid: Pid)
    | CheckIntegrity(pid: Pid)
    | Checkpoint(pid: Pid)
    | Trim(pid: Pid)
    | FlushStage(pid: Pid)
    | Link(pid: Pid)
    | Rename(pid: Pid)
    | Clean(pid: Pid)
    | FlushDir(pid: Pid)
    | Exit(pid: Pid)
    | Kill(pid: Pid)
    | PowerLoss(after: Fs)

  function Get<K, V>(m: map<K, V>, k: K): Option<V> {
    if k in m then Some(m[k]) else None
  }

  predicate Holds(p: Proc) {
    !p.phase.Starting? && !p.phase.Opened?
  }

  // ------------------------------------------------------ frames of free steps

  /** The name denotes the inode, for processes or on disk. */
  predicate Bound(fs: Fs, n: string, i: Inode) {
    Get(fs.names, n) == Some(i) || Get(fs.disk, n) == Some(i)
  }

  predicate OwnInode(fs: Fs, db: string, i: Inode) {
    Bound(fs, db, i) || Bound(fs, Wal(db), i) || Bound(fs, Shm(db), i)
  }

  /** A server changes its database and log names, and files these denote or new ones. */
  ghost predicate ServerFrame(fs: Fs, db: string, after: Fs) {
    && fs.next <= after.next && InodesBelow(after)
    && (forall n :: n !in {db, Wal(db), Shm(db)} ==>
          Get(after.names, n) == Get(fs.names, n) && Get(after.disk, n) == Get(fs.disk, n))
    && (forall n, i: Inode :: n in {db, Wal(db), Shm(db)} && Bound(after, n, i) ==> OwnInode(fs, db, i) || i >= fs.next)
    && (forall i: Inode :: i < fs.next && !OwnInode(fs, db, i) ==>
          Data(after, i) == Data(fs, i) && (i in fs.synced ==> i in after.synced))
  }

  /** So does a tool, which opens the database file that is there. */
  ghost predicate ToolFrame(fs: Fs, db: string, after: Fs) {
    ServerFrame(fs, db, after) && (db in fs.names ==> Get(after.names, db) == Get(fs.names, db))
  }

  /** Each directory entry survives as seen or as last on disk; unsynced contents are arbitrary. */
  ghost predicate PowerLossFrame(fs: Fs, after: Fs) {
    && (forall n :: Get(after.names, n) == Get(fs.names, n) || Get(after.names, n) == Get(fs.disk, n))
    && after.disk == after.names
    && (forall i :: i in fs.synced ==> Data(after, i) == Data(fs, i))
    && fs.next <= after.next && InodesBelow(after)
  }

  ghost predicate InodesBelow(fs: Fs) {
    && (forall n :: n in fs.names ==> fs.names[n] < fs.next)
    && (forall n :: n in fs.disk ==> fs.disk[n] < fs.next)
    && (forall i :: i in fs.files ==> i < fs.next)
    && (forall i :: i in fs.synced ==> i < fs.next)
  }

  /** A private directory: no process sees or configures a name in it. */
  ghost predicate FreshStage(dbs: set<string>, s: State, path: string) {
    && path !in s.fs.names && Wal(path) !in s.fs.names && Shm(path) !in s.fs.names
    && (forall d :: d in dbs ==> path != d && Wal(path) != d && Shm(path) != d && path != Rollback(d))
    && (forall pid :: pid in s.procs ==> s.procs[pid].stage != Some(path))
  }

  ghost predicate At(s: State, pid: Pid, phase: Phase) {
    && pid in s.procs && s.procs[pid].phase == phase
    && (phase.Starting? || phase.Opened? || s.procs[pid].kind == Restoring)
  }

  /** When a step may be taken. A refused check leaves only `Exit`. */
  ghost predicate Enabled(sql: Sqlite, dbs: set<string>, s: State, step: Step) {
    match step
    case Start(pid, db, _, _) => pid !in s.procs && db in dbs
    case Open(pid) => At(s, pid, Starting) && s.procs[pid].kind != Tool
    case TryLock(pid) => At(s, pid, Opened) && s.procs[pid].fd !in s.locks
    case Serve(pid, after) =>
      pid in s.procs && s.procs[pid].kind == Serving && s.procs[pid].phase == Locked
      && ServerFrame(s.fs, s.procs[pid].db, after)
    case Write(pid, after) =>
      pid in s.procs && s.procs[pid].kind == Tool && ToolFrame(s.fs, s.procs[pid].db, after)
    case Stage(pid, tag) => At(s, pid, Locked) && FreshStage(dbs, s, StagePath(s.procs[pid].db, tag))
    case Verify(pid) => At(s, pid, Staged) && sql.countsMatch(Data(s.fs, s.procs[pid].main))
    case Migrate(pid) => At(s, pid, Verified)
    case CheckIntegrity(pid) =>
      At(s, pid, Migrated) && sql.intact(Data(s.fs, s.procs[pid].main) + Data(s.fs, s.procs[pid].log))
    case Checkpoint(pid) => At(s, pid, Checked)
    case Trim(pid) => At(s, pid, Checkpointed)
    case FlushStage(pid) => At(s, pid, Trimmed)
    case Link(pid) =>
      At(s, pid, Flushed)
      && (s.procs[pid].db in s.fs.names ==> Rollback(s.procs[pid].db) !in s.fs.names)
    case Rename(pid) => At(s, pid, Linked)
    case Clean(pid) => At(s, pid, Renamed)
    case FlushDir(pid) => At(s, pid, Cleaned)
    case Exit(pid) => pid in s.procs
    case Kill(pid) => pid in s.procs
    case PowerLoss(after) => PowerLossFrame(s.fs, after)
  }

  function Data(fs: Fs, i: Inode): Db {
    if i in fs.files then fs.files[i] else []
  }

  /** What a name denotes; nothing if it is not bound. */
  function Contents(fs: Fs, n: string): Db {
    if n in fs.names then Data(fs, fs.names[n]) else []
  }

  /** A power failure would leave the name as it is. */
  predicate OnDisk(fs: Fs, n: string) {
    Get(fs.disk, n) == Get(fs.names, n) && (n in fs.names ==> fs.names[n] in fs.synced)
  }

  function Create(fs: Fs, name: string, data: Db): Fs {
    fs.(names := fs.names[name := fs.next], files := fs.files[fs.next := data],
        synced := fs.synced - {fs.next}, next := fs.next + 1)
  }

  function Overwrite(fs: Fs, i: Inode, data: Db): Fs {
    fs.(files := fs.files[i := data], synced := fs.synced - {i})
  }

  /** The holder line in the lock file is written and synced. */
  function WriteHolder(fs: Fs, i: Inode, pid: Pid): Fs {
    fs.(files := fs.files[i := [pid]], synced := fs.synced + {i})
  }

  function Unlink(fs: Fs, gone: set<string>): Fs {
    fs.(names := fs.names - gone)
  }

  /** The entries of one directory reach the disk. */
  function SyncDir(fs: Fs, dir: string): Fs {
    fs.(disk := map n | n in fs.names.Keys + fs.disk.Keys
                          && (if DirPrefix(n) == dir then n in fs.names else n in fs.disk)
                  :: if DirPrefix(n) == dir then fs.names[n] else fs.disk[n])
  }

  function StageNames(p: Proc): set<string> {
    if p.stage.None? then {} else {p.stage.value, Wal(p.stage.value), Shm(p.stage.value)}
  }

  /** Release what the process holds and forget it. */
  function Drop(s: State, pid: Pid, fs: Fs): State
    requires pid in s.procs
  {
    s.(fs := fs, locks := map i | i in s.locks && s.locks[i] != pid :: s.locks[i], procs := s.procs - {pid})
  }

  function Put(s: State, pid: Pid, p: Proc, fs: Fs): State {
    s.(fs := fs, procs := s.procs[pid := p])
  }

  /** The state after an enabled step. */
  ghost function Do(sql: Sqlite, dbs: set<string>, s: State, step: Step): State
    requires Enabled(sql, dbs, s, step)
  {
    var fs := s.fs;
    match step
    case Start(pid, db, kind, snapshot) =>
      s.(procs := s.procs[pid := Proc(db, kind, Starting, 0, snapshot, None, 0, 0, None, [], false, None, [], false)])
    case Open(pid) =>
      var p := s.procs[pid];
      var lock := Sidecar(p.db);
      var withLock := if lock in fs.names then fs else Create(fs, lock, []);
      Put(s, pid, p.(phase := Opened, fd := withLock.names[lock]), withLock)
    case TryLock(pid) =>
      var p := s.procs[pid];
      var noted := WriteHolder(fs, p.fd, pid);
      var q := p.(phase := Locked, before := Get(noted.names, p.db),
                  content := Contents(noted, p.db), onDisk := OnDisk(noted, p.db),
                  oldLog := Get(noted.names, Wal(p.db)),
                  logged := Contents(noted, Wal(p.db)), logOnDisk := OnDisk(noted, Wal(p.db)));
      Put(s, pid, q, noted).(locks := s.locks[p.fd := pid], written := s.written - {p.db})
    case Serve(pid, after) => s.(fs := after)
    case Write(pid, after) => s.(fs := after, written := s.written + {s.procs[pid].db})
    case Stage(pid, tag) =>
      var p := s.procs[pid];
      var path := StagePath(p.db, tag);
      Put(s, pid, p.(phase := Staged, stage := Some(path), main := fs.next), Create(fs, path, p.snapshot))
    case Verify(pid) =>
      var p := s.procs[pid];
      if p.stage.None? then s
      else Put(s, pid, p.(phase := Verified, log := fs.next), Create(fs, Wal(p.stage.value), []))
    case Migrate(pid) =>
      var p := s.procs[pid];
      Put(s, pid, p.(phase := Migrated), Overwrite(fs, p.log, sql.migrations(Data(fs, p.main))))
    case CheckIntegrity(pid) => Put(s, pid, s.procs[pid].(phase := Checked), fs)
    case Checkpoint(pid) =>
      var p := s.procs[pid];
      var folded := Overwrite(fs, p.main, Data(fs, p.main) + Data(fs, p.log));
      Put(s, pid, p.(phase := Checkpointed), Overwrite(folded, p.log, []))
    case Trim(pid) =>
      var p := s.procs[pid];
      Put(s, pid, p.(phase := Trimmed),
          Unlink(fs, if p.stage.Some? then {Wal(p.stage.value), Shm(p.stage.value)} else {}))
    case FlushStage(pid) =>
      var p := s.procs[pid];
      Put(s, pid, p.(phase := Flushed), fs.(synced := fs.synced + {p.main}))
    case Link(pid) =>
      var p := s.procs[pid];
      Put(s, pid, p.(phase := Linked),
          if p.db in fs.names then fs.(names := fs.names[Rollback(p.db) := fs.names[p.db]]) else fs)
    case Rename(pid) =>
      var p := s.procs[pid];
      Put(s, pid, p.(phase := Renamed),
          fs.(names := (fs.names - if p.stage.Some? then {p.stage.value} else {})[p.db := p.main]))
    case Clean(pid) =>
      var p := s.procs[pid];
      Put(s, pid, p.(phase := Cleaned), Unlink(fs, {Wal(p.db), Shm(p.db)}))
    case FlushDir(pid) => Put(s, pid, s.procs[pid].(phase := Settled), SyncDir(fs, DirPrefix(s.procs[pid].db)))
    case Exit(pid) => Drop(s, pid, Unlink(fs, StageNames(s.procs[pid])))
    case Kill(pid) => Drop(s, pid, fs)
    case PowerLoss(after) => State(after, map[], map[], {})
  }

  /** The names a step may bind or remove. */
  ghost function Touched(s: State, step: Step): set<string> {
    if step.Start? || step.PowerLoss? || step.pid !in s.procs then {}
    else
      var p := s.procs[step.pid];
      match step
      case Open(_) => if Sidecar(p.db) in s.fs.names then {} else {Sidecar(p.db)}
      case Serve(_, _) => {p.db, Wal(p.db), Shm(p.db)}
      case Write(_, _) => {p.db, Wal(p.db), Shm(p.db)}
      case Stage(_, tag) => {StagePath(p.db, tag)}
      case Verify(_) => StageNames(p)
      case Trim(_) => StageNames(p)
      case Link(_) => {Rollback(p.db)}
      case Rename(_) => StageNames(p) + {p.db}
      case Clean(_) => {Wal(p.db), Shm(p.db)}
      case Exit(_) => StageNames(p)
      case _ => {}
  }

  lemma TouchedNames(s: State, step: Step, n: string)
    requires n in Touched(s, step)
    ensures !step.Start? && !step.PowerLoss? && step.pid in s.procs
    ensures var p := s.procs[step.pid];
      || n in {p.db, Wal(p.db), Shm(p.db), Rollback(p.db)} || n in StageNames(p)
      || (step.Stage? && n == StagePath(p.db, step.tag))
      || (n == Sidecar(p.db) && n !in s.fs.names)
  {
  }

  lemma NamesFrame(sql: Sqlite, dbs: set<string>, s: State, step: Step, n: string)
    requires Enabled(sql, dbs, s, step) && !step.PowerLoss? && n !in Touched(s, step)
    ensures Get(Do(sql, dbs, s, step).fs.names, n) == Get(s.fs.names, n)
  {
  }

  lemma DiskFrame(sql: Sqlite, dbs: set<string>, s: State, step: Step, n: string)
    requires Enabled(sql, dbs, s, step) && !step.PowerLoss? && n !in Touched(s, step)
    ensures var t := Do(sql, dbs, s, step).fs;
      Get(t.disk, n) == Get(s.fs.disk, n) || (step.FlushDir? && Get(t.disk, n) == Get(s.fs.names, n))
  {
  }

  /** Steps that change no lock, no process but their own, and there neither path, descriptor nor holding. */
  predicate Quiet(step: Step) {
    && !step.Start? && !step.Open? && !step.TryLock? && !step.Write?
    && !step.Exit? && !step.Kill? && !step.PowerLoss?
  }

  ghost predicate QuietShape(s: State, t: State, pid: Pid) {
    && pid in s.procs && pid in t.procs && t.locks == s.locks
    && t.procs == s.procs[pid := t.procs[pid]]
    && t.procs[pid].db == s.procs[pid].db && t.procs[pid].fd == s.procs[pid].fd
    && Holds(t.procs[pid]) && Holds(s.procs[pid])
  }

  lemma QuietStep(sql: Sqlite, dbs: set<string>, s: State, step: Step)
    requires Quiet(step) && Enabled(sql, dbs, s, step)
    ensures var t := Do(sql, dbs, s, step);
      && QuietShape(s, t, step.pid)
      && t.procs[step.pid].stage
         == if step.Stage? then Some(StagePath(s.procs[step.pid].db, step.tag)) else s.procs[step.pid].stage
  {
  }

  /** The machine starts with any file system and no process. */
  ghost predicate Init(s: State) {
    s.locks == map[] && s.procs == map[] && InodesBelow(s.fs)
  }

  ghost predicate Next(sql: Sqlite, dbs: set<string>, s: State, t: State) {
    exists step :: Enabled(sql, dbs, s, step) && t == Do(sql, dbs, s, step)
  }

  ghost predicate StepAt(sql: Sqlite, dbs: set<string>, ss: seq<State>, i: int) {
    0 <= i < |ss| - 1 && Next(sql, dbs, ss[i], ss[i + 1])
  }

  ghost predicate Run(sql: Sqlite, dbs: set<string>, ss: seq<State>) {
    && ss != [] && Init(ss[0])
    && (forall i :: 0 <= i < |ss| - 1 ==> StepAt(sql, dbs, ss, i))
  }
}
