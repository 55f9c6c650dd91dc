/** The seconds a push reports reach the job's row: the last accepted report of each stage (ingest/lease.py). */
module CostLaws {
  import opened Basics
  import opened Stages
  import opened Rows
  import opened Lease
  import opened Session
  import opened Protocol
  import opened Invariant
  import TimeCosts
  import ClaimLaws

  // ---- one push --------------------------------------------------------------------------------

  lemma RowOfPush(db: Db, j: JobId, stage: Stage, epoch: nat, result: Option<Result>, files: bool, seconds: Option<real>)
    requires PushStage(db, j, Name(stage), epoch, result, files, seconds).1 == Accepted
    ensures var after := PushStage(db, j, Name(stage), epoch, result, files, seconds).0;
      && j in db.jobs && after.jobs.Keys == db.jobs.Keys
      && after.jobs[j] == Marked(db.jobs[j].(hash := after.jobs[j].hash, video := after.jobs[j].video), stage, seconds)
      && forall k | k in db.jobs && k != j :: after.jobs[k] == db.jobs[k]
  {
    hide Marked, Persisted;
    NamedInvertsName(stage);
    MarkedKeepsIdentity(PersistStage(db, j, stage, result).value.jobs[j], stage, seconds);
  }

  lemma MarkedKeepsIdentity(job: Job, stage: Stage, seconds: Option<real>)
    ensures Marked(job, stage, seconds).hash == job.hash && Marked(job, stage, seconds).video == job.video
  {
  }

  /** An accepted push adds its stage, and its seconds, rounded to three digits, become the cost of that stage; without
      seconds the costs stay as they are. No other job's row changes. */
  lemma PushStoresItsSeconds(
    db: Db, j: JobId, stage: Stage, epoch: nat, result: Option<Result>, files: bool, seconds: Option<real>)
    requires PushStage(db, j, Name(stage), epoch, result, files, seconds).1 == Accepted
    ensures var after := PushStage(db, j, Name(stage), epoch, result, files, seconds).0;
      && j in db.jobs && j in after.jobs
      && after.jobs[j].done == db.jobs[j].done + {stage}
      && (seconds.None? ==> after.jobs[j].costs == db.jobs[j].costs)
      && (seconds.Some? ==> TimeCosts.Lists(after.jobs[j].costs,
            TimeCosts.Latest(db.jobs[j].costs)[Name(stage) := Rounded(seconds.value)]))
      && forall k | k in db.jobs && k != j :: k in after.jobs && after.jobs[k] == db.jobs[k]
  {
    hide PushStage, TimeCosts.Lists, TimeCosts.Merge, TimeCosts.Latest, Rounded;
    RowOfPush(db, j, stage, epoch, result, files, seconds);
    if seconds.Some? { TimeCosts.MergeWritesOneStage(db.jobs[j].costs, Name(stage), seconds.value); }
  }

  // ---- over a run ------------------------------------------------------------------------------

  /** The last accepted report of each stage of job j, by the stage's name. */
  ghost function Reported(steps: seq<Step>, j: JobId): map<string, real> {
    if steps == [] then map[]
    else
      var (before, step) := (steps[..|steps| - 1], steps[|steps| - 1]);
      var s := Exec(before);
      if step.Deliver? && step.r < |s.runs| && step.call in s.runs[step.r].flight && s.runs[step.r].job == j
         && step.call.PushCall? && step.call.seconds.Some? && Handle(s, s.runs[step.r], step.call).1 == Accepted
      then Reported(before, j)[Name(step.call.stage) := Rounded(step.call.seconds.value)]
      else Reported(before, j)
  }

  /** A step that lands no report for j leaves its costs alone. */
  lemma StepKeepsCosts(s: System, step: Step, j: JobId)
    requires Inv(s) && j in s.db.jobs && !step.Deliver?
    ensures j in Apply(s, step).db.jobs && Apply(s, step).db.jobs[j].costs == s.db.jobs[j].costs
  {
    hide Inv, Local, Busy;
    RowIsBelow(s, j);
  }

  lemma RowIsBelow(s: System, j: JobId)
    requires Inv(s) && j in s.db.jobs
    ensures j < s.db.nextJob
  {
    hide RunOk, Flow, Shape, Budget, IsPrefix;
    RowIsOk(s, j);
  }

  lemma DeliveryKeepsCosts(s: System, r: nat, call: Call, replied: bool, j: JobId)
    requires r < |s.runs| && j in s.db.jobs
    ensures var after := Delivered(s, r, call, replied);
      && j in after.db.jobs
      && (if s.runs[r].job == j && call.PushCall? && call.seconds.Some? && Handle(s, s.runs[r], call).1 == Accepted
          then TimeCosts.Lists(after.db.jobs[j].costs,
                 TimeCosts.Latest(s.db.jobs[j].costs)[Name(call.stage) := Rounded(call.seconds.value)])
          else after.db.jobs[j].costs == s.db.jobs[j].costs)
  {
    hide PushStage, TimeCosts.Lists, TimeCosts.Latest, Rounded;
    if call.PushCall? {
      var run := s.runs[r];
      RefusedPushChangesNothing(s.db, run.job, Name(call.stage), run.epoch, call.result, call.files, call.seconds);
      if Handle(s, run, call).1 == Accepted {
        PushStoresItsSeconds(s.db, run.job, call.stage, run.epoch, call.result, call.files, call.seconds);
      }
    }
  }

  /** Over every run: a job's costs list, in pipeline order, the last accepted report of each stage and nothing else. */
  lemma {:induction false} CostsAreTheLastReports(steps: seq<Step>, j: JobId)
    requires j in Exec(steps).db.jobs
    ensures TimeCosts.Lists(Exec(steps).db.jobs[j].costs, Reported(steps, j))
  {
    hide Exec, Apply, Delivered, Handle, Rounded, TimeCosts.Lists;
    if steps == [] {
      NoJobYet(j);
    } else {
      var (before, step) := (steps[..|steps| - 1], steps[|steps| - 1]);
      var s := Exec(before);
      ExecLast(steps);
      Invariant.Invariant(before);
      if j !in s.db.jobs {
        NothingReported(before, j);
        FirstSeen(s, step, j);
      } else {
        CostsAreTheLastReports(before, j);
        TimeCosts.LatestOfListing(s.db.jobs[j].costs, Reported(before, j));
        if step.Deliver? {
          DeliveryStep(s, step, j);
        } else {
          StepKeepsCosts(s, step, j);
        }
      }
    }
  }

  lemma NoJobYet(j: JobId)
    ensures j !in Exec([]).db.jobs
  {
  }

  lemma DeliveryStep(s: System, step: Step, j: JobId)
    requires j in s.db.jobs && step.Deliver?
    ensures var after := Apply(s, step);
      && j in after.db.jobs
      && (if step.r < |s.runs| && step.call in s.runs[step.r].flight && s.runs[step.r].job == j
             && step.call.PushCall? && step.call.seconds.Some? && Handle(s, s.runs[step.r], step.call).1 == Accepted
          then TimeCosts.Lists(after.db.jobs[j].costs,
                 TimeCosts.Latest(s.db.jobs[j].costs)[Name(step.call.stage) := Rounded(step.call.seconds.value)])
          else after.db.jobs[j].costs == s.db.jobs[j].costs)
  {
    hide Handle, Delivered, TimeCosts.Lists, TimeCosts.Latest, Rounded;
    if step.r < |s.runs| && step.call in s.runs[step.r].flight {
      DeliveryKeepsCosts(s, step.r, step.call, step.replied, j);
    }
  }

  /** A row is new only by a submit, without costs. */
  lemma FirstSeen(s: System, step: Step, j: JobId)
    requires Inv(s) && j !in s.db.jobs && j in Apply(s, step).db.jobs
    ensures TimeCosts.Lists(Apply(s, step).db.jobs[j].costs, map[]) && step.Submit?
  {
    hide Inv, Handle, Local, Busy, TimeCosts.Lists;
    ClaimLaws.StepKeepsRequests(s, step);
    NothingListed();
  }

  lemma NothingListed()
    ensures TimeCosts.Lists([], map[])
  {
  }

  lemma {:induction false} NothingReported(steps: seq<Step>, j: JobId)
    requires j !in Exec(steps).db.jobs
    ensures Reported(steps, j) == map[]
  {
    hide Exec, Apply, Handle, Inv, Rounded;
    if steps != [] {
      var (before, step) := (steps[..|steps| - 1], steps[|steps| - 1]);
      ExecLast(steps);
      Invariant.Invariant(before);
      ClaimLaws.StepKeepsRequests(Exec(before), step);
      NothingReported(before, j);
      if step.Deliver? && step.r < |Exec(before).runs| { ClaimLaws.RunHasRow(Exec(before), step.r); }
    }
  }
}
