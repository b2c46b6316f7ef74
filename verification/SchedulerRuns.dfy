/** What every sequence of batches, schedulings and cancellations keeps
    (maurice/kernel/scheduler.py:91-148, 197-214). */
module SchedulerRuns {
  import opened Wrappers
  import opened Scheduler

  /** Jobs stay where they are, with their identity. */
  ghost predicate Conserved(a: seq<Job>, b: seq<Job>) {
    && |a| <= |b| && Valid(b)
    && forall k :: 0 <= k < |a| ==> b[k].name == a[k].name && b[k].interval == a[k].interval
  }

  predicate SchedulesAt(ops: seq<HandlerOp>, runAt: int) {
    exists op :: op in ops && op.ScheduleJob? && op.runAt == runAt
  }

  lemma {:induction false} OpsFrame(jobs: seq<Job>, ops: seq<HandlerOp>)
    requires Valid(jobs)
    ensures var after := ApplyOps(jobs, ops);
            && Conserved(jobs, after)
            && (forall k :: 0 <= k < |jobs| ==>
                  after[k] == jobs[k] || after[k] == jobs[k].(status := Cancelled, error := None))
            && (forall k :: 0 <= k < |jobs| ==>
                  (after[k].status.Cancelled? <==> jobs[k].status.Cancelled? || CancelJob(k) in ops))
            && (forall k :: |jobs| <= k < |after| && after[k].status.Scheduled? ==>
                  SchedulesAt(ops, after[k].runAt))
  {
    if ops != [] {
      var n := |ops| - 1;
      OpsFrame(jobs, ops[..n]);
      assert ops == ops[..n] + [ops[n]];
      assert forall op :: op in ops <==> op in ops[..n] || op == ops[n];
    }
  }

  /** What running one job does to the store: that job is failed or done, others are at most cancelled. */
  ghost predicate JobRan(a: State, b: State, job: Job, now: int, script: Script, i: nat) {
    && job.id < |a.jobs| && Valid(a.jobs) && Conserved(a.jobs, b.jobs)
    && b.jobs[job.id].status in {Scheduled, Completed, Failed}
    && (b.jobs[job.id].status.Scheduled? ==>
          b.jobs[job.id].interval.Some?
          && b.jobs[job.id].runAt == script.doneAt(i) + Span(b.jobs[job.id].interval.value))
    && (forall k :: 0 <= k < |a.jobs| && k != job.id ==>
          b.jobs[k] == a.jobs[k] || b.jobs[k] == a.jobs[k].(status := Cancelled, error := None))
    && (forall k :: 0 <= k < |a.jobs| && k != job.id ==>
          (b.jobs[k].status.Cancelled? <==> a.jobs[k].status.Cancelled? || CancelledBy(job, script, i, k)))
    && (forall k :: |a.jobs| <= k < |b.jobs| && b.jobs[k].status.Scheduled? ==>
          SchedulesAt(script.handle(i).ops, b.jobs[k].runAt))
    && b.log == a.log + if job.name in script.handlers then [Exec(job.id, now, script.doneAt(i))] else []
  }

  predicate CancelledBy(job: Job, script: Script, i: nat, id: nat) {
    job.name in script.handlers && CancelJob(id) in script.handle(i).ops
  }

  lemma RunOneFrame(st: State, job: Job, now: int, script: Script, i: nat)
    requires Valid(st.jobs) && job.id < |st.jobs|
    ensures JobRan(st, RunOne(st, job, now, script, i), job, now, script, i)
  {
    if job.name in script.handlers {
      var running := SetStatus(st.jobs, job.id, Running, None);
      var handled := ApplyOps(running, script.handle(i).ops);
      OpsFrame(running, script.handle(i).ops);
      var after := RunOne(st, job, now, script, i).jobs;
      assert |after| == |handled| && forall k :: 0 <= k < |after| && k != job.id ==> after[k] == handled[k];
      assert forall k :: 0 <= k < |running| && k != job.id ==> running[k] == st.jobs[k];
    }
  }

  // ----- whole batches -----

  /** Jobs of the store, each once. */
  ghost predicate Snapshot(batch: seq<Job>, jobs: seq<Job>) {
    && (forall i :: 0 <= i < |batch| ==> batch[i].id < |jobs|)
    && (forall i, j :: 0 <= i < j < |batch| ==> batch[i].id != batch[j].id)
  }

  predicate InBatch(batch: seq<Job>, k: nat) {
    exists i :: 0 <= i < |batch| && batch[i].id == k
  }

  /** A job outside the batch is at most cancelled, and not executed. */
  lemma {:induction false} BatchFrame(st: State, batch: seq<Job>, now: int, script: Script)
    requires Valid(st.jobs) && Snapshot(batch, st.jobs)
    ensures var after := RunBatch(st, batch, now, script);
            && Conserved(st.jobs, after.jobs)
            && st.log <= after.log
            && (forall k :: 0 <= k < |st.jobs| && !InBatch(batch, k) ==>
                  after.jobs[k] == st.jobs[k] || after.jobs[k] == st.jobs[k].(status := Cancelled, error := None))
            && (forall i :: |st.log| <= i < |after.log| ==> InBatch(batch, after.log[i].id))
  {
    if batch != [] {
      var n := |batch| - 1;
      BatchFrame(st, batch[..n], now, script);
      RunOneFrame(RunBatch(st, batch[..n], now, script), batch[n], now, script, n);
      forall k
        ensures InBatch(batch, k) <==> InBatch(batch[..n], k) || batch[n].id == k
      {
        InBatchStep(batch, k);
      }
    }
  }

  lemma InBatchStep(batch: seq<Job>, k: nat)
    requires batch != []
    ensures InBatch(batch, k) <==> InBatch(batch[..|batch| - 1], k) || batch[|batch| - 1].id == k
  {
    var n := |batch| - 1;
    if InBatch(batch[..n], k) {
      var i :| 0 <= i < n && batch[..n][i].id == k;
      assert batch[i].id == k;
    }
    if InBatch(batch, k) && batch[n].id != k {
      var i :| 0 <= i < |batch| && batch[i].id == k;
      assert batch[..n][i].id == k;
    }
  }

  lemma LimitedIsSnapshot(jobs: seq<Job>, now: int, limit: Option<int>)
    requires Valid(jobs)
    ensures var batch := Limited(Due(jobs, now), limit);
            && Snapshot(batch, jobs)
            && (forall i :: 0 <= i < |batch| ==> batch[i] == jobs[batch[i].id] && IsDue(batch[i], now))
  {
    DueAreStored(jobs, now);
    LimitedIsPrefix(Due(jobs, now), limit);
  }

  /** A limit takes that many from the front, a negative one all but that many. */
  lemma LimitedIsPrefix(due: seq<Job>, limit: Option<int>)
    ensures |Limited(due, limit)| <= |due| && (limit.None? ==> |Limited(due, limit)| == |due|)
    ensures limit.Some? && 0 <= limit.value <= |due| ==> |Limited(due, limit)| == limit.value
    ensures limit.Some? && limit.value > |due| ==> |Limited(due, limit)| == |due|
    ensures limit.Some? && -|due| <= limit.value < 0 ==> |Limited(due, limit)| == |due| + limit.value
    ensures limit.Some? && limit.value < -|due| ==> Limited(due, limit) == []
    ensures forall i :: 0 <= i < |Limited(due, limit)| ==> Limited(due, limit)[i] == due[i]
  {
  }

  /** A handler of a job after the `p`th, among the first `n`, cancels the `p`th. */
  predicate CancelledLater(batch: seq<Job>, script: Script, p: nat, n: nat)
    requires p < n <= |batch|
  {
    exists q :: p < q < n && CancelledBy(batch[q], script, q, batch[p].id)
  }

  /** How a job that was run comes out: failed without a handler, and with the handler's own error when it
      raises; else due again an interval after it was done, or completed. */
  predicate CameOut(before: Job, after: Job, job: Job, script: Script, i: nat) {
    && after.id == before.id && after.name == before.name && after.interval == before.interval
    && if job.name !in script.handlers then
         after.status == Failed && after.error == Some("No handler registered for " + job.name + ".")
       else if script.handle(i).raises.Some? then
         after.status == Failed && after.error == script.handle(i).raises
       else if before.interval.Some? then
         after.status == Scheduled && after.error == None
         && after.runAt == script.doneAt(i) + 1_000_000 * before.interval.value
       else after.status == Completed && after.error == None
  }

  lemma JobComesOut(st: State, job: Job, now: int, script: Script, i: nat)
    requires Valid(st.jobs) && job.id < |st.jobs|
    ensures job.id < |RunOne(st, job, now, script, i).jobs|
    ensures CameOut(st.jobs[job.id], RunOne(st, job, now, script, i).jobs[job.id], job, script, i)
  {
    if job.name in script.handlers {
      OpsFrame(SetStatus(st.jobs, job.id, Running, None), script.handle(i).ops);
    }
  }

  /** After a batch every job of it has come out so, or was cancelled by the handler of a later one. */
  lemma {:induction false} BatchComesOut(st: State, batch: seq<Job>, now: int, script: Script, p: nat, n: nat)
    requires Valid(st.jobs) && Snapshot(batch, st.jobs) && p < n <= |batch|
    ensures var after := RunBatch(st, batch[..n], now, script).jobs;
            && batch[p].id < |after|
            && OutOrCancelled(st.jobs[batch[p].id], after[batch[p].id], batch, script, p, n)
  {
    var m := n - 1;
    BatchStepIs(st, batch, now, script, m);
    if p < m {
      BatchComesOut(st, batch, now, script, p, m);
      LaterJobRan(st, batch, now, script, p, m);
    } else {
      LastJobRan(st, batch, now, script, p);
    }
  }

  lemma BatchStepIs(st: State, batch: seq<Job>, now: int, script: Script, m: nat)
    requires m < |batch|
    ensures RunBatch(st, batch[..m + 1], now, script)
            == RunOne(RunBatch(st, batch[..m], now, script), batch[m], now, script, m)
  {
    assert batch[..m + 1][..m] == batch[..m];
  }

  ghost predicate OutOrCancelled(before: Job, after: Job, batch: seq<Job>, script: Script, p: nat, n: nat)
    requires p < n <= |batch|
  {
    if CancelledLater(batch, script, p, n) then after.status == Cancelled && after.error == None
    else CameOut(before, after, batch[p], script, p)
  }

  lemma LaterJobRan(st: State, batch: seq<Job>, now: int, script: Script, p: nat, m: nat)
    requires Valid(st.jobs) && Snapshot(batch, st.jobs) && p < m < |batch|
    requires batch[p].id < |RunBatch(st, batch[..m], now, script).jobs|
    requires OutOrCancelled(st.jobs[batch[p].id], RunBatch(st, batch[..m], now, script).jobs[batch[p].id], batch,
                            script, p, m)
    ensures var after := RunOne(RunBatch(st, batch[..m], now, script), batch[m], now, script, m).jobs;
            && batch[p].id < |after|
            && OutOrCancelled(st.jobs[batch[p].id], after[batch[p].id], batch, script, p, m + 1)
  {
    var a := RunBatch(st, batch[..m], now, script);
    BatchFrame(st, batch[..m], now, script);
    RunOneFrame(a, batch[m], now, script, m);
    StaysOut(a, RunOne(a, batch[m], now, script, m), st.jobs[batch[p].id], batch, now, script, p, m);
  }

  lemma StaysOut(a: State, b: State, before: Job, batch: seq<Job>, now: int, script: Script,
                                    p: nat, m: nat)
    requires p < m < |batch| && JobRan(a, b, batch[m], now, script, m)
    requires batch[p].id < |a.jobs| && batch[p].id != batch[m].id
    requires OutOrCancelled(before, a.jobs[batch[p].id], batch, script, p, m)
    ensures OutOrCancelled(before, b.jobs[batch[p].id], batch, script, p, m + 1)
  {
    CancelSteps(batch, script, p, m);
  }

  lemma LastJobRan(st: State, batch: seq<Job>, now: int, script: Script, m: nat)
    requires Valid(st.jobs) && Snapshot(batch, st.jobs) && m < |batch|
    ensures var after := RunOne(RunBatch(st, batch[..m], now, script), batch[m], now, script, m).jobs;
            && batch[m].id < |after|
            && OutOrCancelled(st.jobs[batch[m].id], after[batch[m].id], batch, script, m, m + 1)
  {
    var before := RunBatch(st, batch[..m], now, script);
    BatchFrame(st, batch[..m], now, script);
    JobComesOut(before, batch[m], now, script, m);
    assert batch[m].id < |before.jobs|;
  }

  lemma CancelSteps(batch: seq<Job>, script: Script, p: nat, m: nat)
    requires p < m < |batch|
    ensures CancelledLater(batch, script, p, m + 1)
            <==> CancelledLater(batch, script, p, m) || CancelledBy(batch[m], script, m, batch[p].id)
  {
  }

  /** A cancellation made while a batch runs sticks, for a job of that batch, exactly when the handler of
      a job later in the batch makes it: `mark_running` and `complete` overwrite the earlier ones. */
  lemma CancelInBatchSticksExactlyWhen(st: State, batch: seq<Job>, now: int, script: Script,
                                                          p: nat, n: nat)
    requires Valid(st.jobs) && Snapshot(batch, st.jobs) && p < n <= |batch|
    ensures var after := RunBatch(st, batch[..n], now, script).jobs;
            batch[p].id < |after|
            && (after[batch[p].id].status.Cancelled? <==> CancelledLater(batch, script, p, n))
  {
    BatchComesOut(st, batch, now, script, p, n);
  }

  /** A batch that overwrites a cancellation: the first job's handler cancels the second. */
  lemma CancelInBatchCanBeOverwritten(name: string)
    ensures var jobs := [Job(0, name, Scheduled, 0, None, None), Job(1, name, Scheduled, 0, None, None)];
            var script := Script({name}, i => Handled(if i == 0 then [CancelJob(1)] else [], None), i => 0);
            var after := RunDue(State(jobs, []), 0, None, script).jobs;
            |after| > 1 && !after[1].status.Cancelled?
  {
    var jobs := [Job(0, name, Scheduled, 0, None, None), Job(1, name, Scheduled, 0, None, None)];
    var script := Script({name}, i => Handled(if i == 0 then [CancelJob(1)] else [], None), i => 0);
    assert jobs[..1] == [jobs[0]] && jobs[..1][..0] == [] && Due(jobs[..1], 0) == [] + [jobs[0]];
    assert Due(jobs, 0) == jobs && jobs[..2] == jobs;
    CancelInBatchSticksExactlyWhen(State(jobs, []), jobs, 0, script, 1, 2);
  }

  // ----- whole runs -----

  datatype Step = ScheduleStep(name: string, runAt: int, interval: Option<Seconds>)
                | CancelStep(id: nat)
                | BatchStep(now: int, limit: Option<int>, script: Script)

  function Apply(st: State, step: Step): State {
    match step
    case ScheduleStep(name, runAt, interval) => st.(jobs := Schedule(st.jobs, name, runAt, interval))
    case CancelStep(id) => st.(jobs := SetStatus(st.jobs, id, Cancelled, None))
    case BatchStep(now, limit, script) => RunDue(st, now, limit, script)
  }

  function Run(st: State, steps: seq<Step>): State {
    if steps == [] then st else Apply(Run(st, steps[..|steps| - 1]), steps[|steps| - 1])
  }

  /** Jobs are done no earlier than their batch starts. */
  ghost predicate DoneLater(now: int, script: Script) {
    forall i: nat :: script.doneAt(i) >= now
  }

  ghost predicate ClockForward(step: Step) {
    step.BatchStep? ==> DoneLater(step.now, step.script)
  }

  /** Two calls for one job: it is recurring, and the second starts an interval after the first ended. */
  ghost predicate Spaced(jobs: seq<Job>, log: seq<Exec>) {
    forall i, j :: 0 <= i < j < |log| && log[i].id == log[j].id && log[j].id < |jobs| ==>
      After(jobs[log[j].id].interval, log[i].end, log[j].start)
  }

  predicate After(interval: Option<Seconds>, end: int, start: int) {
    interval.Some? && start >= end + 1_000_000 * interval.value
  }

  /** A job that has run before is to run again only an interval later. */
  ghost predicate Rested(job: Job, log: seq<Exec>) {
    forall i :: 0 <= i < |log| && log[i].id == job.id ==> After(job.interval, log[i].end, job.runAt)
  }

  ghost predicate Inv(st: State) {
    && Valid(st.jobs)
    && (forall i :: 0 <= i < |st.log| ==> st.log[i].id < |st.jobs| && st.log[i].start <= st.log[i].end)
    && Spaced(st.jobs, st.log)
    && (forall k :: 0 <= k < |st.jobs| && st.jobs[k].status.Scheduled? ==> Rested(st.jobs[k], st.log))
  }

  lemma RunOneKeepsInv(st: State, job: Job, now: int, script: Script, i: nat)
    requires Inv(st) && job.id < |st.jobs| && job.interval == st.jobs[job.id].interval
    requires Rested(job, st.log) && job.runAt <= now && DoneLater(now, script)
    ensures Inv(RunOne(st, job, now, script, i))
  {
    var after := RunOne(st, job, now, script, i);
    RunOneFrame(st, job, now, script, i);
    assert script.doneAt(i) >= now;
    forall k | 0 <= k < |after.jobs| && after.jobs[k].status.Scheduled?
      ensures Rested(after.jobs[k], after.log)
    {
      if k < |st.jobs| && k != job.id {
        assert Rested(st.jobs[k], st.log);
      }
    }
  }

  lemma {:induction false} BatchKeepsInv(st: State, batch: seq<Job>, now: int, script: Script)
    requires Inv(st) && Snapshot(batch, st.jobs) && DoneLater(now, script)
    requires forall p :: 0 <= p < |batch| ==>
               Rested(batch[p], st.log) && batch[p].runAt <= now && batch[p].interval == st.jobs[batch[p].id].interval
    ensures Inv(RunBatch(st, batch, now, script))
  {
    if batch != [] {
      var n := |batch| - 1;
      var before := RunBatch(st, batch[..n], now, script);
      BatchKeepsInv(st, batch[..n], now, script);
      BatchFrame(st, batch[..n], now, script);
      assert !InBatch(batch[..n], batch[n].id);
      forall i | 0 <= i < |before.log| && before.log[i].id == batch[n].id
        ensures After(batch[n].interval, before.log[i].end, batch[n].runAt)
      {
        assert i < |st.log| && before.log[i] == st.log[i];
      }
      RunOneKeepsInv(before, batch[n], now, script, n);
    }
  }

  lemma StepKeepsInv(st: State, step: Step)
    requires Inv(st) && ClockForward(step)
    ensures Inv(Apply(st, step))
  {
    match step
    case ScheduleStep(_, _, _) =>
    case CancelStep(_) =>
    case BatchStep(now, limit, script) =>
      LimitedIsSnapshot(st.jobs, now, limit);
      BatchKeepsInv(st, Limited(Due(st.jobs, now), limit), now, script);
  }

  lemma StepConserves(st: State, step: Step)
    requires Valid(st.jobs)
    ensures Conserved(st.jobs, Apply(st, step).jobs) && st.log <= Apply(st, step).log
  {
    if step.BatchStep? {
      LimitedIsSnapshot(st.jobs, step.now, step.limit);
      BatchFrame(st, Limited(Due(st.jobs, step.now), step.limit), step.now, step.script);
    }
  }

  /** Over every run the calls of one job are an interval apart, from the end of one to the start of the
      next; a one-shot job is called at most once.  No job is lost, moved or renamed. */
  lemma {:induction false} ExecutionsAreSpaced(st: State, steps: seq<Step>)
    requires Inv(st) && forall i :: 0 <= i < |steps| ==> ClockForward(steps[i])
    ensures Inv(Run(st, steps))
    ensures Conserved(st.jobs, Run(st, steps).jobs)
  {
    if steps != [] {
      var n := |steps| - 1;
      ExecutionsAreSpaced(st, steps[..n]);
      StepKeepsInv(Run(st, steps[..n]), steps[n]);
      StepConserves(Run(st, steps[..n]), steps[n]);
    }
  }

  /** So `n` calls of a job, wherever they are in the log, span at least `n - 1` intervals. */
  lemma {:induction false} CallsSpanIntervals(st: State, calls: seq<nat>, id: nat)
    requires Inv(st) && calls != []
    requires forall c :: 0 <= c < |calls| ==> calls[c] < |st.log| && st.log[calls[c]].id == id
    requires forall c :: 0 <= c < |calls| - 1 ==> calls[c] < calls[c + 1]
    ensures id < |st.jobs|
    ensures |calls| > 1 ==> st.jobs[id].interval.Some?
    ensures st.jobs[id].interval.Some? ==>
              st.log[calls[|calls| - 1]].start
              >= st.log[calls[0]].start + (|calls| - 1) * (1_000_000 * st.jobs[id].interval.value)
  {
    var n := |calls| - 1;
    if n > 0 {
      CallsSpanIntervals(st, calls[..n], id);
      assert calls[n - 1] < calls[n - 1 + 1];
      var last, previous := st.log[calls[n]], st.log[calls[n - 1]];
      assert After(st.jobs[id].interval, previous.end, last.start);
      var span := Span(st.jobs[id].interval.value);
      assert n * span == (n - 1) * span + span;
    } else {
      assert 0 * Span(if st.jobs[id].interval.Some? then st.jobs[id].interval.value else 1) == 0;
    }
  }

  /** A job that is not scheduled between batches (cancelled, failed or completed) never runs again, and
      is never scheduled again; a failed recurring job is no exception. */
  lemma {:induction false} NotScheduledStaysSo(st: State, steps: seq<Step>, k: nat)
    requires Valid(st.jobs) && k < |st.jobs| && !st.jobs[k].status.Scheduled?
    ensures var after := Run(st, steps);
            && Conserved(st.jobs, after.jobs) && st.log <= after.log
            && !after.jobs[k].status.Scheduled?
            && forall i :: |st.log| <= i < |after.log| ==> after.log[i].id != k
  {
    if steps != [] {
      var n := |steps| - 1;
      var before := Run(st, steps[..n]);
      NotScheduledStaysSo(st, steps[..n], k);
      StepConserves(before, steps[n]);
      StepSkipsUnscheduled(before, steps[n], k);
    }
  }

  lemma StepSkipsUnscheduled(st: State, step: Step, k: nat)
    requires Valid(st.jobs) && k < |st.jobs| && !st.jobs[k].status.Scheduled?
    ensures var after := Apply(st, step);
            && k < |after.jobs| && !after.jobs[k].status.Scheduled? && |st.log| <= |after.log|
            && forall i :: |st.log| <= i < |after.log| ==> after.log[i].id != k
  {
    if step.BatchStep? {
      var batch := Limited(Due(st.jobs, step.now), step.limit);
      LimitedIsSnapshot(st.jobs, step.now, step.limit);
      assert !InBatch(batch, k);
      BatchFrame(st, batch, step.now, step.script);
    }
  }

  // ----- an unlimited batch -----

  /** The handlers schedule nothing that is due at `now`. */
  ghost predicate AddsNothingDue(now: int, script: Script) {
    forall i: nat, op :: op in script.handle(i).ops && op.ScheduleJob? ==> op.runAt > now
  }

  /** Every job due is one of the first `old` and stands in the batch at `n` or later. */
  ghost predicate DueComesLater(jobs: seq<Job>, count: nat, batch: seq<Job>, n: nat, now: int) {
    forall k :: 0 <= k < |jobs| && IsDue(jobs[k], now) ==> k < count && ComesAfter(batch, n, k)
  }

  predicate ComesAfter(batch: seq<Job>, n: nat, k: nat) {
    exists p :: n <= p < |batch| && batch[p].id == k
  }

  lemma DueStep(a: State, b: State, count: nat, batch: seq<Job>, n: nat, now: int, script: Script)
    requires n < |batch| && count <= |a.jobs| && JobRan(a, b, batch[n], now, script, n)
    requires DoneLater(now, script) && AddsNothingDue(now, script)
    requires DueComesLater(a.jobs, count, batch, n, now)
    ensures DueComesLater(b.jobs, count, batch, n + 1, now)
  {
    assert script.doneAt(n) >= now;
    forall k | 0 <= k < |b.jobs| && IsDue(b.jobs[k], now)
      ensures k < count && ComesAfter(batch, n + 1, k)
    {
      assert k != batch[n].id && k < |a.jobs| && IsDue(a.jobs[k], now);
      var p :| n <= p < |batch| && batch[p].id == k;
      assert p >= n + 1;
    }
  }

  /** Whatever is due while a batch runs is still to come in it. */
  lemma {:induction false} DueIsStillToCome(st: State, batch: seq<Job>, n: nat, now: int, script: Script)
    requires Valid(st.jobs) && Snapshot(batch, st.jobs) && n <= |batch|
    requires DoneLater(now, script) && AddsNothingDue(now, script)
    requires DueComesLater(st.jobs, |st.jobs|, batch, 0, now)
    ensures DueComesLater(RunBatch(st, batch[..n], now, script).jobs, |st.jobs|, batch, n, now)
  {
    if n > 0 {
      var m := n - 1;
      assert batch[..n][..m] == batch[..m];
      var before := RunBatch(st, batch[..m], now, script);
      DueIsStillToCome(st, batch, m, now, script);
      BatchFrame(st, batch[..m], now, script);
      RunOneFrame(before, batch[m], now, script, m);
      DueStep(before, RunBatch(st, batch[..n], now, script), |st.jobs|, batch, m, now, script);
    }
  }

  /** An unlimited batch leaves nothing due at its time, if the handlers schedule nothing due. */
  lemma UnlimitedBatchLeavesNothingDue(st: State, now: int, script: Script)
    requires Valid(st.jobs) && DoneLater(now, script) && AddsNothingDue(now, script)
    ensures forall job :: job in RunDue(st, now, None, script).jobs ==> !(job.status == Scheduled && job.runAt <= now)
  {
    var batch := Due(st.jobs, now);
    LimitedIsSnapshot(st.jobs, now, None);
    forall k | 0 <= k < |st.jobs| && IsDue(st.jobs[k], now)
      ensures ComesAfter(batch, 0, k)
    {
      DueIsInBatch(st.jobs, now, k);
    }
    DueIsStillToCome(st, batch, |batch|, now, script);
    assert batch[..|batch|] == batch && Limited(batch, None) == batch;
    NothingComesAfterAll(RunDue(st, now, None, script).jobs, |st.jobs|, batch, now);
  }

  lemma NothingComesAfterAll(jobs: seq<Job>, count: nat, batch: seq<Job>, now: int)
    requires DueComesLater(jobs, count, batch, |batch|, now)
    ensures forall job :: job in jobs ==> !IsDue(job, now)
  {
    forall k | 0 <= k < |jobs|
      ensures !IsDue(jobs[k], now)
    {
      assert !ComesAfter(batch, |batch|, k);
    }
  }

  lemma DueIsInBatch(jobs: seq<Job>, now: int, k: nat)
    requires Valid(jobs) && k < |jobs| && IsDue(jobs[k], now)
    ensures ComesAfter(Due(jobs, now), 0, k)
  {
    DueIsThere(jobs, now, k);
    var i :| 0 <= i < |Due(jobs, now)| && Due(jobs, now)[i] == jobs[k];
  }
}
