/**
 Runs that exist: from any state in which a restore holds its lock, an undisturbed
 restore of a good snapshot goes through to its rename.
 */
module RestoreRuns {
  import opened Wrappers
  import opened DbNames
  import opened RestoreProtocol

  ghost predicate RunTo(sql: Sqlite, dbs: set<string>, ss: seq<State>, s: State) {
    Run(sql, dbs, ss) && ss[|ss| - 1] == s
  }

  lemma Extend(sql: Sqlite, dbs: set<string>, ss: seq<State>, s: State, step: Step) returns (ts: seq<State>)
    requires RunTo(sql, dbs, ss, s) && Enabled(sql, dbs, s, step)
    ensures RunTo(sql, dbs, ts, Do(sql, dbs, s, step)) && ss <= ts
  {
    ts := ss + [Do(sql, dbs, s, step)];
    forall i | 0 <= i < |ts| - 1 ensures StepAt(sql, dbs, ts, i) {
      if i < |ss| - 1 {
        assert StepAt(sql, dbs, ss, i);
        assert ts[i] == ss[i] && ts[i + 1] == ss[i + 1];
      } else {
        assert ts[i] == s;
      }
    }
  }

  /** A snapshot that the restore checks let through. */
  ghost predicate Restorable(sql: Sqlite, snapshot: Db) {
    sql.countsMatch(snapshot) && sql.intact(snapshot + sql.migrations(snapshot))
  }

  /** A tag longer than every configured name, so that no staging name is one. */
  lemma LongTag(dbs: set<string>) returns (tag: string)
    ensures forall d :: d in dbs ==> |d| < |tag| && |Rollback(d)| < |tag|
  {
    if dbs == {} {
      tag := "";
    } else {
      var d :| d in dbs;
      var rest := LongTag(dbs - {d});
      tag := rest + d + Rollback(d) + "x";
      forall e | e in dbs ensures |e| < |tag| && |Rollback(e)| < |tag| {
        assert e == d || e in dbs - {d};
      }
    }
  }

  /** Only process `pid` and its staging files have changed since `s0`. */
  ghost predicate Undisturbed(s0: State, s: State, pid: Pid, path: string) {
    && pid in s0.procs && pid in s.procs && s.procs == s0.procs[pid := s.procs[pid]]
    && s.locks == s0.locks && s.written == s0.written && s.fs.disk == s0.fs.disk && s0.fs.next < s.fs.next
    && (forall n :: n !in {path, Wal(path), Shm(path)} ==> Get(s.fs.names, n) == Get(s0.fs.names, n))
    && (forall i: Inode :: i < s0.fs.next ==>
          Data(s.fs, i) == Data(s0.fs, i) && (i in s.fs.synced <==> i in s0.fs.synced))
  }

  /** The restore on its way, its staging file being the first unused inode of `s0`. */
  ghost predicate UnderWay(s0: State, s: State, pid: Pid, path: string, phase: Phase) {
    && Undisturbed(s0, s, pid, path) && At(s, pid, phase)
    && s.procs[pid] == s0.procs[pid].(phase := phase, stage := Some(path), main := s0.fs.next, log := s.procs[pid].log)
  }

  lemma GetsStaged(sql: Sqlite, dbs: set<string>, ss: seq<State>, s: State, pid: Pid, tag: string)
    returns (ts: seq<State>, t: State)
    requires RunTo(sql, dbs, ss, s) && At(s, pid, Locked) && FreshStage(dbs, s, StagePath(s.procs[pid].db, tag))
    ensures RunTo(sql, dbs, ts, t) && UnderWay(s, t, pid, StagePath(s.procs[pid].db, tag), Staged)
    ensures Data(t.fs, s.fs.next) == s.procs[pid].snapshot
  {
    ts := Extend(sql, dbs, ss, s, Stage(pid, tag));
    t := Do(sql, dbs, s, Stage(pid, tag));
  }

  lemma GetsVerified(sql: Sqlite, dbs: set<string>, s0: State, ss: seq<State>, s: State, pid: Pid, path: string)
    returns (ts: seq<State>, t: State)
    requires RunTo(sql, dbs, ss, s) && UnderWay(s0, s, pid, path, Staged)
    requires Data(s.fs, s0.fs.next) == s0.procs[pid].snapshot && sql.countsMatch(s0.procs[pid].snapshot)
    ensures RunTo(sql, dbs, ts, t) && UnderWay(s0, t, pid, path, Verified)
    ensures Data(t.fs, s0.fs.next) == s0.procs[pid].snapshot && t.procs[pid].log > s0.fs.next
  {
    ts := Extend(sql, dbs, ss, s, Verify(pid));
    t := Do(sql, dbs, s, Verify(pid));
  }

  lemma GetsMigrated(sql: Sqlite, dbs: set<string>, s0: State, ss: seq<State>, s: State, pid: Pid, path: string)
    returns (ts: seq<State>, t: State)
    requires RunTo(sql, dbs, ss, s) && UnderWay(s0, s, pid, path, Verified)
    requires Data(s.fs, s0.fs.next) == s0.procs[pid].snapshot && s.procs[pid].log > s0.fs.next
    ensures RunTo(sql, dbs, ts, t) && UnderWay(s0, t, pid, path, Migrated) && t.procs[pid].log > s0.fs.next
    ensures Data(t.fs, s0.fs.next) + Data(t.fs, t.procs[pid].log)
         == s0.procs[pid].snapshot + sql.migrations(s0.procs[pid].snapshot)
  {
    ts := Extend(sql, dbs, ss, s, Migrate(pid));
    t := Do(sql, dbs, s, Migrate(pid));
  }

  lemma GetsChecked(sql: Sqlite, dbs: set<string>, s0: State, ss: seq<State>, s: State, pid: Pid, path: string)
    returns (ts: seq<State>, t: State)
    requires RunTo(sql, dbs, ss, s) && UnderWay(s0, s, pid, path, Migrated) && s.procs[pid].log > s0.fs.next
    requires sql.intact(Data(s.fs, s0.fs.next) + Data(s.fs, s.procs[pid].log))
    ensures RunTo(sql, dbs, ts, t) && UnderWay(s0, t, pid, path, Checked) && t.procs[pid].log > s0.fs.next
  {
    ts := Extend(sql, dbs, ss, s, CheckIntegrity(pid));
    t := Do(sql, dbs, s, CheckIntegrity(pid));
  }

  lemma GetsCheckpointed(sql: Sqlite, dbs: set<string>, s0: State, ss: seq<State>, s: State, pid: Pid, path: string)
    returns (ts: seq<State>, t: State)
    requires RunTo(sql, dbs, ss, s) && UnderWay(s0, s, pid, path, Checked) && s.procs[pid].log > s0.fs.next
    ensures RunTo(sql, dbs, ts, t) && UnderWay(s0, t, pid, path, Checkpointed)
  {
    ts := Extend(sql, dbs, ss, s, Checkpoint(pid));
    t := Do(sql, dbs, s, Checkpoint(pid));
  }

  lemma GetsTrimmed(sql: Sqlite, dbs: set<string>, s0: State, ss: seq<State>, s: State, pid: Pid, path: string)
    returns (ts: seq<State>, t: State)
    requires RunTo(sql, dbs, ss, s) && UnderWay(s0, s, pid, path, Checkpointed)
    ensures RunTo(sql, dbs, ts, t) && UnderWay(s0, t, pid, path, Trimmed)
  {
    ts := Extend(sql, dbs, ss, s, Trim(pid));
    t := Do(sql, dbs, s, Trim(pid));
  }

  lemma GetsFlushed(sql: Sqlite, dbs: set<string>, s0: State, ss: seq<State>, s: State, pid: Pid, path: string)
    returns (ts: seq<State>, t: State)
    requires RunTo(sql, dbs, ss, s) && UnderWay(s0, s, pid, path, Trimmed)
    ensures RunTo(sql, dbs, ts, t) && UnderWay(s0, t, pid, path, Flushed)
  {
    ts := Extend(sql, dbs, ss, s, FlushStage(pid));
    t := Do(sql, dbs, s, FlushStage(pid));
  }

  lemma GetsReady(sql: Sqlite, dbs: set<string>, ss: seq<State>, s: State, pid: Pid, tag: string)
    returns (ts: seq<State>, t: State)
    requires RunTo(sql, dbs, ss, s) && At(s, pid, Locked) && FreshStage(dbs, s, StagePath(s.procs[pid].db, tag))
    requires Restorable(sql, s.procs[pid].snapshot)
    ensures RunTo(sql, dbs, ts, t) && UnderWay(s, t, pid, StagePath(s.procs[pid].db, tag), Flushed)
  {
    var path := StagePath(s.procs[pid].db, tag);
    ts, t := GetsStaged(sql, dbs, ss, s, pid, tag);
    ts, t := GetsVerified(sql, dbs, s, ts, t, pid, path);
    ts, t := GetsMigrated(sql, dbs, s, ts, t, pid, path);
    ts, t := GetsChecked(sql, dbs, s, ts, t, pid, path);
    ts, t := GetsCheckpointed(sql, dbs, s, ts, t, pid, path);
    ts, t := GetsTrimmed(sql, dbs, s, ts, t, pid, path);
    ts, t := GetsFlushed(sql, dbs, s, ts, t, pid, path);
  }

  /** The state after the rename, compared with the one in which the lock was held. */
  ghost predicate WentThrough(s0: State, t: State, pid: Pid) {
    && pid in s0.procs && pid in t.procs && t.procs == s0.procs[pid := t.procs[pid]]
    && t.locks == s0.locks && t.written == s0.written
    && t.procs[pid] == s0.procs[pid].(phase := Renamed, stage := t.procs[pid].stage, main := s0.fs.next,
                                    log := t.procs[pid].log)
    && Get(t.fs.names, s0.procs[pid].db) == Some(s0.fs.next) && t.fs.disk == s0.fs.disk
    && (forall i: Inode :: i < s0.fs.next ==> (i in t.fs.synced <==> i in s0.fs.synced))
  }

  lemma GetsLinked(sql: Sqlite, dbs: set<string>, s0: State, ss: seq<State>, s: State, pid: Pid, path: string)
    returns (ts: seq<State>, t: State)
    requires RunTo(sql, dbs, ss, s) && UnderWay(s0, s, pid, path, Flushed) && Rollback(s0.procs[pid].db) !in s.fs.names
    ensures RunTo(sql, dbs, ts, t) && At(t, pid, Linked) && t.locks == s0.locks && t.written == s0.written
    ensures t.procs == s0.procs[pid := t.procs[pid]] && t.fs.disk == s0.fs.disk && t.fs.synced == s.fs.synced
    ensures t.procs[pid]
         == s0.procs[pid].(phase := Linked, stage := Some(path), main := s0.fs.next, log := t.procs[pid].log)
  {
    ts := Extend(sql, dbs, ss, s, Link(pid));
    t := Do(sql, dbs, s, Link(pid));
  }

  lemma GetsSwapped(sql: Sqlite, dbs: set<string>, s0: State, ss: seq<State>, s: State, pid: Pid, path: string)
    returns (ts: seq<State>, t: State)
    requires RunTo(sql, dbs, ss, s) && UnderWay(s0, s, pid, path, Flushed) && Rollback(s0.procs[pid].db) !in s.fs.names
    ensures RunTo(sql, dbs, ts, t) && WentThrough(s0, t, pid)
  {
    var linked;
    ts, linked := GetsLinked(sql, dbs, s0, ss, s, pid, path);
    ts := Extend(sql, dbs, ts, linked, Rename(pid));
    t := Do(sql, dbs, linked, Rename(pid));
  }

  lemma GoesThrough(sql: Sqlite, dbs: set<string>, ss: seq<State>, s: State, pid: Pid, tag: string)
    returns (ts: seq<State>, t: State)
    requires RunTo(sql, dbs, ss, s) && At(s, pid, Locked) && Restorable(sql, s.procs[pid].snapshot)
    requires var db := s.procs[pid].db; var path := StagePath(db, tag);
      && FreshStage(dbs, s, path) && Rollback(db) !in s.fs.names && Rollback(db) !in {path, Wal(path), Shm(path)}
    ensures RunTo(sql, dbs, ts, t) && WentThrough(s, t, pid)
  {
    var rollback := Rollback(s.procs[pid].db);
    ts, t := GetsReady(sql, dbs, ss, s, pid, tag);
    assert Get(t.fs.names, rollback) == Get(s.fs.names, rollback);
    ts, t := GetsSwapped(sql, dbs, s, ts, t, pid, StagePath(s.procs[pid].db, tag));
  }
}
