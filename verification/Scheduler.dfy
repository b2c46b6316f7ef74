/** Background jobs: the job store and the runner of due jobs (maurice/kernel/scheduler.py:56-214). */
module Scheduler {
  import opened Wrappers

  datatype JobStatus = Scheduled | Running | Completed | Failed | Cancelled

  /** An interval is at least one second. */
  type Seconds = n: int | 1 <= n witness 1

  /** Times are in microseconds.  New ids are fresh: they are modelled as the number of jobs so far. */
  datatype Job = Job(id: nat, name: string, status: JobStatus, runAt: int, interval: Option<Seconds>,
                     error: Option<string>)

  function Span(interval: Seconds): int {
    1_000_000 * interval
  }

  /** Jobs are never removed or moved. */
  ghost predicate Valid(jobs: seq<Job>) {
    forall k :: 0 <= k < |jobs| ==> jobs[k].id == k
  }

  function Schedule(jobs: seq<Job>, name: string, runAt: int, interval: Option<Seconds>): seq<Job> {
    jobs + [Job(|jobs|, name, Scheduled, runAt, interval, None)]
  }

  predicate IsDue(job: Job, now: int) {
    job.status.Scheduled? && job.runAt <= now
  }

  function Due(jobs: seq<Job>, now: int): seq<Job> {
    if jobs == [] then []
    else Due(jobs[..|jobs| - 1], now) + (if IsDue(jobs[|jobs| - 1], now) then [jobs[|jobs| - 1]] else [])
  }

  function SetStatus(jobs: seq<Job>, id: nat, status: JobStatus, error: Option<string>): seq<Job> {
    if id < |jobs| then jobs[id := jobs[id].(status := status, error := error)] else jobs
  }

  function Done(job: Job, at: int): Job {
    if job.interval.Some? then job.(status := Scheduled, runAt := at + Span(job.interval.value), error := None)
    else job.(status := Completed, error := None)
  }

  function Complete(jobs: seq<Job>, id: nat, at: int): seq<Job> {
    if id < |jobs| then jobs[id := Done(jobs[id], at)] else jobs
  }

  // ----- a batch -----

  /** What a handler does to the store while it runs; cancelling an unknown id changes nothing. */
  datatype HandlerOp = ScheduleJob(name: string, runAt: int, interval: Option<Seconds>) | CancelJob(id: nat)

  /** A handler's run, and the error it raises, if it does. */
  datatype Handled = Handled(ops: seq<HandlerOp>, raises: Option<string>)

  /** The jobs with handlers, what the handler of the `i`th job of the batch does, and the clock when
      that job is done. */
  datatype Script = Script(handlers: set<string>, handle: nat -> Handled, doneAt: nat -> int)

  datatype Exec = Exec(id: nat, start: int, end: int)

  /** The store, and the log of handler calls. */
  datatype State = State(jobs: seq<Job>, log: seq<Exec>)

  function ApplyOp(jobs: seq<Job>, op: HandlerOp): seq<Job> {
    match op
    case ScheduleJob(name, runAt, interval) => Schedule(jobs, name, runAt, interval)
    case CancelJob(id) => SetStatus(jobs, id, Cancelled, None)
  }

  function ApplyOps(jobs: seq<Job>, ops: seq<HandlerOp>): seq<Job> {
    if ops == [] then jobs else ApplyOp(ApplyOps(jobs, ops[..|ops| - 1]), ops[|ops| - 1])
  }

  function NoHandlerError(name: string): string {
    "No handler registered for " + name + "."
  }

  function RunOne(st: State, job: Job, now: int, script: Script, i: nat): State {
    if job.name !in script.handlers then
      st.(jobs := SetStatus(st.jobs, job.id, Failed, Some(NoHandlerError(job.name))))
    else
      var h, at := script.handle(i), script.doneAt(i);
      var handled := ApplyOps(SetStatus(st.jobs, job.id, Running, None), h.ops);
      State(if h.raises.Some? then SetStatus(handled, job.id, Failed, h.raises) else Complete(handled, job.id, at),
            st.log + [Exec(job.id, now, at)])
  }

  function RunBatch(st: State, batch: seq<Job>, now: int, script: Script): State {
    if batch == [] then st
    else RunOne(RunBatch(st, batch[..|batch| - 1], now, script), batch[|batch| - 1], now, script, |batch| - 1)
  }

  /** The slice `due[:limit]`. */
  function Limited(due: seq<Job>, limit: Option<int>): seq<Job> {
    if limit.None? || limit.value >= |due| then due
    else if limit.value >= 0 then due[..limit.value]
    else if |due| + limit.value > 0 then due[..|due| + limit.value] else []
  }

  function RunDue(st: State, now: int, limit: Option<int>, script: Script): State {
    RunBatch(st, Limited(Due(st.jobs, now), limit), now, script)
  }

  // ----- the code -----

  class JobStore {
    var jobs: seq<Job>

    constructor ()
      ensures jobs == []
    {
      jobs := [];
    }

    method ScheduleJob(name: string, runAt: int, interval: Option<Seconds>) returns (job: Job)
      modifies this
      ensures jobs == Schedule(old(jobs), name, runAt, interval) == old(jobs) + [job]
      ensures job == Job(|old(jobs)|, name, Scheduled, runAt, interval, None)
    {
      job := Job(|jobs|, name, Scheduled, runAt, interval, None);
      jobs := jobs + [job];
    }

    method DueJobs(now: int) returns (due: seq<Job>)
      ensures due == Due(jobs, now)
    {
      due := [];
      for i := 0 to |jobs|
        invariant due == Due(jobs[..i], now)
      {
        assert jobs[..i + 1][..i] == jobs[..i];
        if jobs[i].status.Scheduled? && jobs[i].runAt <= now {
          due := due + [jobs[i]];
        }
      }
      PrefixAll(jobs);
    }

    /** `_update`; an unknown id is a `KeyError`. */
    method Update(id: nat, status: JobStatus, error: Option<string>) returns (job: Option<Job>)
      requires Valid(jobs)
      modifies this
      ensures Valid(jobs) && jobs == SetStatus(old(jobs), id, status, error)
      ensures job == if id < |jobs| then Some(jobs[id]) else None
    {
      for i := 0 to |jobs|
        invariant jobs == old(jobs) && i <= id
      {
        if jobs[i].id == id {
          jobs := jobs[i := jobs[i].(status := status, error := error)];
          return Some(jobs[i]);
        }
      }
      job := None;
    }

    method CompleteJob(id: nat, at: int) returns (job: Option<Job>)
      requires Valid(jobs)
      modifies this
      ensures Valid(jobs) && jobs == Complete(old(jobs), id, at)
      ensures job == if id < |jobs| then Some(jobs[id]) else None
    {
      for i := 0 to |jobs|
        invariant jobs == old(jobs) && i <= id
      {
        if jobs[i].id == id {
          var j := jobs[i];
          if j.interval.Some? {
            j := j.(status := Scheduled, runAt := at + Span(j.interval.value));
          } else {
            j := j.(status := Completed);
          }
          j := j.(error := None);
          jobs := jobs[i := j];
          return Some(j);
        }
      }
      job := None;
    }

    /** What a handler does to the store. */
    method Perform(ops: seq<HandlerOp>)
      requires Valid(jobs)
      modifies this
      ensures Valid(jobs) && jobs == ApplyOps(old(jobs), ops)
    {
      for i := 0 to |ops|
        invariant Valid(jobs) && jobs == ApplyOps(old(jobs), ops[..i])
      {
        assert ops[..i + 1][..i] == ops[..i];
        match ops[i]
        case ScheduleJob(name, runAt, interval) =>
          var _ := ScheduleJob(name, runAt, interval);
        case CancelJob(id) =>
          var _ := Update(id, Cancelled, None);
      }
      PrefixAll(ops);
    }
  }

  class JobRunner {
    const store: JobStore
    ghost var log: seq<Exec>

    constructor (store: JobStore)
      ensures this.store == store && log == []
    {
      this.store := store;
      log := [];
    }

    /** Run one job of a batch; every step finds it in the store. */
    method RunJob(job: Job, now: int, script: Script, i: nat) returns (result: Option<Job>)
      requires Valid(store.jobs) && job.id < |store.jobs|
      modifies this, store
      ensures Valid(store.jobs)
      ensures State(store.jobs, log) == RunOne(old(State(store.jobs, log)), job, now, script, i)
      ensures |old(store.jobs)| <= |store.jobs| && result == Some(store.jobs[job.id])
    {
      if job.name !in script.handlers {
        result := store.Update(job.id, Failed, Some(NoHandlerError(job.name)));
        return;
      }
      result := store.Update(job.id, Running, None);
      var h := script.handle(i);
      OnlyGrows(store.jobs, h.ops);
      store.Perform(h.ops);
      log := log + [Exec(job.id, now, script.doneAt(i))];
      if h.raises.Some? {
        result := store.Update(job.id, Failed, h.raises);
      } else {
        result := store.CompleteJob(job.id, script.doneAt(i));
      }
    }

    /** `run_due`: one result for each job of the batch. */
    method RunDueJobs(now: int, limit: Option<int>, script: Script) returns (results: seq<Job>)
      requires Valid(store.jobs)
      modifies this, store
      ensures Valid(store.jobs)
      ensures State(store.jobs, log) == RunDue(old(State(store.jobs, log)), now, limit, script)
      ensures |results| == |Limited(Due(old(store.jobs), now), limit)|
    {
      ghost var st := State(store.jobs, log);
      var due := store.DueJobs(now);
      DueAreStored(store.jobs, now);
      var batch := Limited(due, limit);
      results := [];
      for i := 0 to |batch|
        invariant Valid(store.jobs) && |st.jobs| <= |store.jobs| && |results| == i
        invariant State(store.jobs, log) == RunBatch(st, batch[..i], now, script)
      {
        assert batch[..i + 1][..i] == batch[..i];
        var result := RunJob(batch[i], now, script, i);
        results := results + [result.value];
      }
      PrefixAll(batch);
    }
  }

  lemma {:induction false} OnlyGrows(jobs: seq<Job>, ops: seq<HandlerOp>)
    ensures |jobs| <= |ApplyOps(jobs, ops)|
  {
    if ops != [] {
      OnlyGrows(jobs, ops[..|ops| - 1]);
    }
  }

  /** The snapshot holds due jobs of the store, in order. */
  lemma {:induction false} DueAreStored(jobs: seq<Job>, now: int)
    requires Valid(jobs)
    ensures forall i :: 0 <= i < |Due(jobs, now)| ==>
              Due(jobs, now)[i].id < |jobs| && jobs[Due(jobs, now)[i].id] == Due(jobs, now)[i]
              && IsDue(Due(jobs, now)[i], now)
    ensures forall i, j :: 0 <= i < j < |Due(jobs, now)| ==> Due(jobs, now)[i].id < Due(jobs, now)[j].id
  {
    if jobs != [] {
      var n := |jobs| - 1;
      DueAreStored(jobs[..n], now);
      var before, due := Due(jobs[..n], now), Due(jobs, now);
      assert |before| <= |due| <= |before| + 1;
      forall i | 0 <= i < |due|
        ensures due[i].id < |jobs| && jobs[due[i].id] == due[i] && IsDue(due[i], now)
        ensures if i < |before| then due[i] == before[i] && due[i].id < n else due[i].id == n
      {
      }
    }
  }

  lemma {:induction false} OnlyDueAreThere(jobs: seq<Job>, now: int)
    ensures forall job :: job in Due(jobs, now) ==> IsDue(job, now)
  {
    if jobs != [] {
      OnlyDueAreThere(jobs[..|jobs| - 1], now);
    }
  }

  /** The snapshot holds every job that is scheduled for now or earlier, and only those. */
  lemma {:induction false} DueIsThere(jobs: seq<Job>, now: int, k: nat)
    requires k < |jobs|
    ensures jobs[k] in Due(jobs, now) <==> jobs[k].status == Scheduled && jobs[k].runAt <= now
  {
    if k < |jobs| - 1 {
      DueIsThere(jobs[..|jobs| - 1], now, k);
    } else if !IsDue(jobs[k], now) {
      OnlyDueAreThere(jobs, now);
    }
  }
}
