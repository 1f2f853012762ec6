/**
 Bounded ownership of background tasks: the mutex-guarded object, method by method.
 `SupervisorRuns` interleaves its critical sections with tasks that end and with any
 number of shutdown calls.
 */
module JobSupervisor {
  import opened Wrappers

  const MAX_JOBS := 64

  type TaskId = nat

  datatype Ending = Completed | Panicked | Cancelled

  datatype Task = Running | Ended(ending: Ending)

  /** A join set: tasks still running or ended but not yet joined. */
  type JoinSet = map<TaskId, Task>

  datatype SpawnError = ShuttingDown | AtCapacity

  ghost function EndedWith(tasks: JoinSet, e: Ending): set<TaskId> {
    set t | t in tasks && tasks[t] == Ended(e)
  }

  function StillRunning(tasks: JoinSet): JoinSet {
    map t | t in tasks && tasks[t].Running? :: tasks[t]
  }

  ghost function AllEnded(tasks: JoinSet): set<TaskId> {
    set t | t in tasks && tasks[t].Ended?
  }

  /** The guarded fields and the counters. */
  datatype Supervisor = Supervisor(tasks: JoinSet, closed: bool, panics: nat, cancellations: nat)

  /** Join everything that has ended. */
  ghost function Drained(s: Supervisor): Supervisor {
    s.(tasks := StillRunning(s.tasks),
       panics := s.panics + |EndedWith(s.tasks, Panicked)|,
       cancellations := s.cancellations + |EndedWith(s.tasks, Cancelled)|)
  }

  ghost predicate Admits(s: Supervisor) {
    !s.closed && |Drained(s).tasks| < MAX_JOBS
  }

  /** An open supervisor admits a job exactly when fewer than 64 tasks are running. */
  lemma AdmitsExactlyWhen(s: Supervisor)
    ensures Admits(s) <==> !s.closed && |set t | t in s.tasks && s.tasks[t].Running?| < 64
  {
    assert StillRunning(s.tasks).Keys == set t | t in s.tasks && s.tasks[t].Running?;
  }

  lemma {:induction false} SubMap(m: JoinSet, n: JoinSet)
    requires m.Keys <= n.Keys
    ensures |m| <= |n|
  {
    SubSet(m.Keys, n.Keys);
  }

  lemma {:induction false} SubSet(a: set<TaskId>, b: set<TaskId>)
    requires a <= b
    ensures |a| <= |b|
  {
    if a != {} {
      var x :| x in a;
      SubSet(a - {x}, b - {x});
    }
  }

  class JobSupervisor {
    var tasks: JoinSet
    var closed: bool
    var panics: nat
    var cancellations: nat

    ghost function State(): Supervisor
      reads this
    {
      Supervisor(tasks, closed, panics, cancellations)
    }

    /** At most 64 tasks, running or waiting to be joined. */
    ghost predicate Valid()
      reads this
    {
      |tasks| <= 64
    }

    constructor ()
      ensures Valid() && State() == Supervisor(map[], false, 0, 0)
    {
      tasks, closed, panics, cancellations := map[], false, 0, 0;
    }

    method Record(ending: Ending)
      modifies this`panics, this`cancellations
      ensures panics == old(panics) + (if ending == Panicked then 1 else 0)
      ensures cancellations == old(cancellations) + (if ending == Cancelled then 1 else 0)
    {
      if ending != Completed {
        if ending == Panicked {
          panics := panics + 1;
        } else {
          cancellations := cancellations + 1;
        }
      }
    }

    /** Joins ended tasks one at a time, in whatever order the set yields them. */
    method DrainFinished() returns (count: nat)
      modifies this`tasks, this`panics, this`cancellations
      ensures State() == old(Drained(State()))
      ensures count == |old(AllEnded(tasks))|
    {
      count := 0;
      ghost var start := State();
      while exists t :: t in tasks && tasks[t].Ended?
        invariant closed == start.closed
        invariant Drained(State()) == Drained(start)
        invariant count + |AllEnded(tasks)| == |AllEnded(start.tasks)|
        decreases |tasks|
      {
        var t :| t in tasks && tasks[t].Ended?;
        ghost var was := tasks;
        var ending := tasks[t].ending;
        tasks := tasks - {t};
        JoinOne(was, t);
        JoinOneCounts(was, t, Panicked);
        JoinOneCounts(was, t, Cancelled);
        Record(ending);
        count := count + 1;
      }
      NothingEnded(tasks);
    }

    method Spawn(job: TaskId) returns (r: Result<(), SpawnError>)
      requires Valid() && job !in tasks
      modifies this
      ensures Valid()
      ensures r == Err(ShuttingDown) <==> old(closed)
      ensures r.Ok? <==> !old(closed) && |set t | t in old(tasks) && old(tasks)[t].Running?| < 64
      ensures r.Ok? ==> State() == old(Drained(State())).(tasks := old(Drained(State())).tasks[job := Running])
      ensures r.Err? ==> State() == old(Drained(State()))
    {
      SubMap(StillRunning(tasks), tasks);
      AdmitsExactlyWhen(State());
      var joined := DrainFinished();
      if closed {
        return Err(ShuttingDown);
      }
      if |tasks| >= MAX_JOBS {
        return Err(AtCapacity);
      }
      tasks := tasks[job := Running];
      r := Ok(());
    }

    method ReapFinished() returns (count: nat)
      requires Valid()
      modifies this
      ensures Valid() && State() == old(Drained(State())) && count == |old(AllEnded(tasks))|
    {
      SubMap(StillRunning(tasks), tasks);
      count := DrainFinished();
    }

    method Close()
      modifies this`closed
      ensures closed
    {
      closed := true;
    }

    /** The critical section that opens `shutdown`: close admission and take the set. */
    method TakeTasks() returns (taken: JoinSet)
      modifies this`closed, this`tasks
      ensures closed && tasks == map[] && taken == old(tasks)
    {
      closed := true;
      taken := tasks;
      tasks := map[];
    }

    /** Running tasks and those that ended but were not joined yet. */
    method Len() returns (n: nat)
      requires Valid()
      ensures n == |StillRunning(tasks)| + |AllEnded(tasks)| && n <= 64
    {
      RunningOrEnded(tasks);
      n := |tasks|;
    }
  }

  lemma RunningOrEnded(tasks: JoinSet)
    ensures |tasks| == |StillRunning(tasks)| + |AllEnded(tasks)|
  {
    assert tasks.Keys == StillRunning(tasks).Keys + AllEnded(tasks);
  }

  lemma JoinOne(tasks: JoinSet, t: TaskId)
    requires t in tasks && tasks[t].Ended?
    ensures StillRunning(tasks - {t}) == StillRunning(tasks)
    ensures |AllEnded(tasks)| == |AllEnded(tasks - {t})| + 1
    ensures |tasks - {t}| < |tasks|
  {
    assert AllEnded(tasks) == AllEnded(tasks - {t}) + {t};
    assert tasks.Keys == (tasks - {t}).Keys + {t};
  }

  lemma JoinOneCounts(tasks: JoinSet, t: TaskId, e: Ending)
    requires t in tasks && tasks[t].Ended?
    ensures |EndedWith(tasks, e)| == |EndedWith(tasks - {t}, e)| + if tasks[t].ending == e then 1 else 0
  {
    if tasks[t].ending == e {
      assert EndedWith(tasks, e) == EndedWith(tasks - {t}, e) + {t};
    } else {
      assert EndedWith(tasks, e) == EndedWith(tasks - {t}, e);
    }
  }

  lemma NothingEnded(tasks: JoinSet)
    requires forall t :: t in tasks ==> tasks[t].Running?
    ensures StillRunning(tasks) == tasks && AllEnded(tasks) == {}
    ensures EndedWith(tasks, Panicked) == {} && EndedWith(tasks, Cancelled) == {}
  {
  }
}
