/** What a claim hands out, and that failed and lapsed jobs come up again (src/kanomori/ingest/lease.py). */
module ClaimLaws {
  import opened Basics
  import opened Stages
  import opened Rows
  import opened Lease
  import opened Session
  import opened Protocol
  import opened Invariant

  // ---- one claim -------------------------------------------------------------------------------

  /** Queued, or running under a lease that is over, or failed with fewer than three attempts, and not locked. */
  predicate Waits(db: Db, now: real, locked: set<JobId>, j: JobId) {
    && j in db.jobs && j !in locked
    && var job := db.jobs[j];
    match job.status
    case Queued => true
    case Running => job.expires.Some? && job.expires.value < now
    case Failed => job.attempts < 3
    case Complete => false
  }

  lemma WaitsIsClaimable(db: Db, now: real, locked: set<JobId>, j: JobId)
    ensures Waits(db, now, locked, j) <==> Claimable(db.jobs, now, locked, j)
  {
  }

  /** A claim finds nothing exactly when no row waits, otherwise the waiting row with the least id; that row runs
      under the next epoch and a lease from now on, and no other row changes. */
  lemma ClaimTakesTheOldest(db: Db, now: real, lease: int, locked: set<JobId>)
    requires forall j | j in db.jobs :: j < db.nextJob
    ensures var (after, found) := Claim(db, now, lease, locked);
      && (found.None? <==> forall j :: !Waits(db, now, locked, j))
      && (found.None? ==> after == db)
      && (found.Some? ==>
            && Waits(db, now, locked, found.value)
            && (forall j | Waits(db, now, locked, j) :: found.value <= j)
            && var job := db.jobs[found.value];
            after == db.(jobs := db.jobs[found.value :=
              job.(status := Running, epoch := job.epoch + 1, expires := Some(now + lease as real))]))
  {
    hide Waits, Claimable;
    forall j: nat ensures Waits(db, now, locked, j) <==> Claimable(db.jobs, now, locked, j) {
      WaitsIsClaimable(db, now, locked, j);
    }
    forall j: nat | Claimable(db.jobs, now, locked, j) ensures j < db.nextJob { IsRow(db, now, locked, j); }
    if Oldest(db.jobs, now, locked, 0, db.nextJob).Some? {
      IsRow(db, now, locked, Oldest(db.jobs, now, locked, 0, db.nextJob).value);
    }
  }

  lemma IsRow(db: Db, now: real, locked: set<JobId>, j: JobId)
    requires Claimable(db.jobs, now, locked, j)
    ensures j in db.jobs
  {
  }

  // ---- in the protocol -------------------------------------------------------------------------

  lemma RowsBelowNext(s: System)
    requires Inv(s)
    ensures forall j | j in s.db.jobs :: j < s.db.nextJob
  {
    hide RunOk, Flow, Shape, Budget, IsPrefix;
    assert forall j | j in s.db.jobs :: JobOk(s.db, s.past, s.runs, j);
  }

  /** An idle worker that asks gets the oldest waiting job, under the next epoch. */
  lemma IdleWorkerGetsTheOldest(s: System, worker: nat, lease: int, locked: set<JobId>, j: JobId)
    requires Inv(s) && !Busy(s, worker)
    requires Waits(s.db, s.now, locked, j) && forall k | 0 <= k < j :: !Waits(s.db, s.now, locked, k)
    ensures var after := Apply(s, TakeJob(worker, lease, locked));
      && j in s.db.jobs && j in after.db.jobs
      && after.db.jobs[j].epoch == s.db.jobs[j].epoch + 1 && after.db.jobs[j].status == Running
      && |after.runs| == |s.runs| + 1
      && var run := after.runs[|s.runs|];
      && run.worker == worker && run.job == j && run.epoch == after.db.jobs[j].epoch && run.phase == AtStage(0)
      && run.resumed == s.db.jobs[j].done
  {
    hide Waits, Inv, Claim, Busy;
    RowsBelowNext(s);
    ClaimTakesTheOldest(s.db, s.now, lease, locked);
    WaitsIsRow(s.db, s.now, locked, j);
    var found := Claim(s.db, s.now, lease, locked).1;
    assert found.Some? && found.value <= j;
    assert found == Some(j);
    assert Apply(s, TakeJob(worker, lease, locked)) == Taken(s, worker, lease, locked);
  }

  lemma WaitsIsRow(db: Db, now: real, locked: set<JobId>, j: JobId)
    requires Waits(db, now, locked, j)
    ensures j in db.jobs
  {
  }

  /** Run h is that of the last claim of j. */
  ghost predicate IsHolder(s: System, j: JobId, h: nat) {
    j in s.db.jobs && s.db.jobs[j].epoch > 0 && j in s.past && s.past[j].holder == h && h < |s.runs|
  }

  lemma FailedWaits(s: System, j: JobId, h: nat, replied: bool, locked: set<JobId>)
    requires Inv(s) && IsHolder(s, j, h) && FailCall in s.runs[h].flight
    requires s.db.jobs[j].attempts + 1 < 3 && j !in locked
    ensures var failed := Apply(s, Deliver(h, FailCall, replied));
      && Waits(failed.db, failed.now, locked, j) && failed.db.jobs[j].epoch == s.db.jobs[j].epoch
      && failed.db.jobs[j].attempts == s.db.jobs[j].attempts + 1 && failed.db.jobs[j].done == s.db.jobs[j].done
  {
    hide Flow, Shape, Budget, IsPrefix, RunOk;
    RowIsOk(s, j);
  }

  /** A job whose holder reports fail with an attempt left is handed out again to the next idle worker, unless an
      older one waits; its landed stages are kept. */
  lemma FailedJobIsRetried(
    steps: seq<Step>, j: JobId, h: nat, replied: bool, worker: nat, lease: int, locked: set<JobId>)
    requires IsHolder(Exec(steps), j, h) && FailCall in Exec(steps).runs[h].flight
    requires Exec(steps).db.jobs[j].attempts + 1 < 3 && j !in locked
    requires var failed := Exec(steps + [Deliver(h, FailCall, replied)]);
      && !Busy(failed, worker)
      && forall k | 0 <= k < j :: !Waits(failed.db, failed.now, locked, k)
    ensures var (s, after) := (Exec(steps), Exec(steps + [Deliver(h, FailCall, replied)] + [TakeJob(worker, lease, locked)]));
      && j in after.db.jobs && after.db.jobs[j].status == Running
      && after.db.jobs[j].epoch == s.db.jobs[j].epoch + 1
      && after.runs != [] && after.runs[|after.runs| - 1].job == j
      && after.runs[|after.runs| - 1].resumed == s.db.jobs[j].done
  {
    hide Exec, Inv, Apply, Waits, Busy;
    var (s, fail, take) := (Exec(steps), Deliver(h, FailCall, replied), TakeJob(worker, lease, locked));
    Invariant.Invariant(steps);
    ExecOneMore(steps, [fail]);
    ExecOneMore(steps + [fail], [take]);
    assert steps + [fail][..0] == steps && steps + [fail] + [take][..0] == steps + [fail];
    FailedWaits(s, j, h, replied, locked);
    StepKeepsInv(s, fail);
    IdleWorkerGetsTheOldest(Apply(s, fail), worker, lease, locked, j);
  }

  /** So is a job whose lease is over, although its holder may still be at work. */
  lemma LapsedJobIsReclaimed(steps: seq<Step>, j: JobId, worker: nat, lease: int, locked: set<JobId>)
    requires var s := Exec(steps);
      && !Busy(s, worker) && j in s.db.jobs && j !in locked
      && s.db.jobs[j].status == Running && s.db.jobs[j].expires.Some? && s.db.jobs[j].expires.value < s.now
      && forall k | 0 <= k < j :: !Waits(s.db, s.now, locked, k)
    ensures var after := Exec(steps + [TakeJob(worker, lease, locked)]);
      && j in after.db.jobs && after.db.jobs[j].epoch == Exec(steps).db.jobs[j].epoch + 1
      && after.runs != [] && after.runs[|after.runs| - 1].job == j
  {
    hide Exec, Inv, Apply, Busy;
    Invariant.Invariant(steps);
    ExecOneMore(steps, [TakeJob(worker, lease, locked)]);
    assert steps + [TakeJob(worker, lease, locked)][..0] == steps;
    IdleWorkerGetsTheOldest(Exec(steps), worker, lease, locked, j);
  }

  /** A worker whose fail report is over is idle again. */
  lemma GiveUpFrees(s: System, r: nat)
    requires r < |s.runs| && s.runs[r].phase == Failing
    requires forall q | 0 <= q < |s.runs| && q != r && s.runs[q].worker == s.runs[r].worker :: s.runs[q].phase == Finished
    ensures !Busy(Apply(s, GiveUp(r)), s.runs[r].worker)
  {
  }

  /** A run that has seen its lease lost computes no further stage; all it does at one is stop. */
  lemma FencedRunStops(s: System, r: nat, step: Step)
    requires r < |s.runs| && s.runs[r].fenced && s.runs[r].phase.AtStage?
    requires s.runs[r].phase.i < |STAGES| && STAGES[s.runs[r].phase.i] !in s.runs[r].resumed
    ensures step.Compute? && step.r == r ==> Apply(s, step) == s
    ensures Apply(s, StopFenced(r)).runs[r].phase == Finished
  {
  }

  // ---- what is asked for is kept ---------------------------------------------------------------

  /** The requests submitted so far. */
  function Submitted(steps: seq<Step>): seq<Request> {
    if steps == [] then []
    else
      var (before, last) := (Submitted(steps[..|steps| - 1]), steps[|steps| - 1]);
      if last.Submit? then before + [last.request] else before
  }

  lemma StepKeepsRequests(s: System, step: Step)
    requires Inv(s)
    ensures var after := Apply(s, step);
      && (forall j | j in s.db.jobs :: j in after.db.jobs && after.db.jobs[j].request == s.db.jobs[j].request)
      && (if step.Submit?
          then after.db.nextJob == s.db.nextJob + 1 && s.db.nextJob in after.db.jobs
               && after.db.jobs[s.db.nextJob].request == step.request
               && after.db.jobs.Keys == s.db.jobs.Keys + {s.db.nextJob}
          else after.db.nextJob == s.db.nextJob && after.db.jobs.Keys == s.db.jobs.Keys)
  {
    hide Handle, Busy, Local, Claim, Inv;
    RowsBelowNext(s);
    if step.Deliver? && step.r < |s.runs| && step.call in s.runs[step.r].flight {
      RunHasRow(s, step.r);
      CallKeepsRequests(s, s.runs[step.r], step.call);
    } else if step.TakeJob? {
      ClaimTakesTheOldest(s.db, s.now, step.lease, step.locked);
      ClaimedIsRow(s.db, s.now, step.lease, step.locked);
    }
  }

  lemma ClaimedIsRow(db: Db, now: real, lease: int, locked: set<JobId>)
    ensures var found := Claim(db, now, lease, locked).1; found.Some? ==> found.value in db.jobs
  {
  }

  lemma RunHasRow(s: System, r: nat)
    requires Inv(s) && r < |s.runs|
    ensures s.runs[r].job in s.db.jobs
  {
    hide JobOk, Flow, Shape, IsPrefix;
    assert RunOk(s.db, s.past, s.runs[r], r);
  }

  lemma CallKeepsRequests(s: System, run: Run, call: Call)
    requires run.job in s.db.jobs
    ensures var db := Handle(s, run, call).0;
      && db.jobs.Keys == s.db.jobs.Keys && db.nextJob == s.db.nextJob
      && forall j | j in db.jobs :: db.jobs[j].request == s.db.jobs[j].request
  {
    hide PushStage;
    if call.PushCall? { PushKeepsRequests(s.db, run, call); }
  }

  lemma PushKeepsRequests(db: Db, run: Run, call: Call)
    requires run.job in db.jobs && call.PushCall?
    ensures var after := PushStage(db, run.job, Name(call.stage), run.epoch, call.result, call.files, call.seconds).0;
      && after.jobs.Keys == db.jobs.Keys && after.nextJob == db.nextJob
      && forall j | j in after.jobs :: after.jobs[j].request == db.jobs[j].request
  {
  }

  /** The jobs are numbered from one in the order they were asked for, each with its request. */
  ghost predicate Numbered(db: Db, asked: seq<Request>) {
    && db.nextJob == |asked| + 1
    && (forall j :: j in db.jobs <==> 1 <= j <= |asked|)
    && (forall j | 1 <= j <= |asked| :: db.jobs[j].request == asked[j - 1])
  }

  lemma StepNumbers(s: System, step: Step, asked: seq<Request>)
    requires Inv(s) && Numbered(s.db, asked)
    ensures Numbered(Apply(s, step).db, if step.Submit? then asked + [step.request] else asked)
  {
    hide Apply, Inv;
    StepKeepsRequests(s, step);
    var db := Apply(s, step).db;
    assert forall j: nat :: j in db.jobs.Keys <==> j in db.jobs;
  }

  /** Whatever happens, each job keeps the request it was sent with. */
  lemma {:induction false} JobsKeepTheirRequests(steps: seq<Step>)
    ensures Numbered(Exec(steps).db, Submitted(steps))
  {
    hide Apply, Exec, Numbered, Inv;
    if steps == [] {
      StartsEmpty();
    } else {
      var before := steps[..|steps| - 1];
      JobsKeepTheirRequests(before);
      ExecLast(steps);
      Invariant.Invariant(before);
      StepNumbers(Exec(before), steps[|steps| - 1], Submitted(before));
    }
  }

  lemma StartsEmpty()
    ensures Numbered(Exec([]).db, [])
  {
  }

  // ---- how a run leaves ------------------------------------------------------------------------

  /** A heartbeat answered 409 marks the run; one whose answer is lost, or which is accepted, does not. */
  lemma StaleBeatFences(s: System, r: nat, replied: bool)
    requires r < |s.runs| && BeatCall in s.runs[r].flight && !s.runs[r].fenced
    ensures Apply(s, Deliver(r, BeatCall, replied)).runs[r].fenced <==>
      replied && !(s.runs[r].job in s.db.jobs && s.db.jobs[s.runs[r].job].epoch == s.runs[r].epoch)
  {
  }

  /** A 409 for a push or for complete ends the run; so do a crash and the end of its fail report. */
  lemma RunsEnd(s: System, r: nat)
    requires r < |s.runs|
    ensures Apply(s, Crash(r)).runs[r].phase == Finished
    ensures s.runs[r].phase == Failing ==> Apply(s, GiveUp(r)).runs[r].phase == Finished
    ensures s.runs[r].answer == Some(Stale) && (s.runs[r].phase.Pushing? || s.runs[r].phase.Completing?) ==>
      Apply(s, Receive(r)).runs[r].phase == Finished
    ensures s.runs[r].answer == Some(Error) && (s.runs[r].phase.Pushing? || s.runs[r].phase.Completing?) ==>
      Apply(s, Receive(r)).runs[r].phase == Failing && FailCall in Apply(s, Receive(r)).runs[r].flight
  {
  }

  /** A run beats while it computes or pushes, and at no other time. */
  lemma LiveRunsBeat(s: System, r: nat)
    requires r < |s.runs| && BeatCall !in s.runs[r].flight
    ensures BeatCall in Apply(s, SendBeat(r)).runs[r].flight <==> s.runs[r].phase.AtStage? || s.runs[r].phase.Pushing?
  {
  }

  /** What a compute writes before it is interrupted stays on its worker's disk and no other's. */
  lemma PartialFilesStay(s: System, r: nat, disk: Disk, worker: nat)
    requires r < |s.runs| && s.runs[r].phase.AtStage?
    ensures DiskOf(Apply(s, Scribble(r, disk)), worker) == if worker == s.runs[r].worker then disk else DiskOf(s, worker)
  {
  }
}
