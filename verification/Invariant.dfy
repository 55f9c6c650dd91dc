/** The inductive invariant of the protocol, and the safety results that follow from it. */
module Invariant {
  import opened Basics
  import opened Stages
  import opened Rows
  import opened Lease
  import opened Session
  import opened Protocol

  /** The run's view of the row it holds. Nothing is claimed of a run whose epoch is stale. */
  ghost predicate Flow(run: Run, job: Job) {
    && run.resumed <= job.done
    && (run.phase.AtStage? ==> Below(run.phase.i) <= job.done <= run.resumed + Below(run.phase.i))
    && (run.phase.Pushing? ==>
          && run.phase.i < |STAGES|
          && Below(run.phase.i) <= job.done <= run.resumed + Below(run.phase.i + 1)
          && (run.answer == Some(Accepted) ==> STAGES[run.phase.i] in job.done))
    && (forall call | call in run.flight && call.PushCall? :: job.done == Below(Index(call.stage)))
    && (run.phase.Completing? || CompleteCall in run.flight ==> job.done == ALL)
  }

  /** What holds inside a run whatever the coordinator did: which requests can be in flight when. */
  ghost predicate Shape(run: Run) {
    && (run.phase.AtStage? ==> run.phase.i <= |STAGES|)
    && (run.phase.Pushing? ==> run.phase.i < |STAGES| && STAGES[run.phase.i] !in run.resumed)
    && (forall call | call in run.flight && call.PushCall? ::
          match run.phase
          case Pushing(i) => call.stage == STAGES[i]
          case Failing => true
          case Finished => true
          case _ => false)
    && (run.phase.Pushing? && run.answer.Some? ==> forall call | call in run.flight :: !call.PushCall?)
    && (forall a, b | a in run.flight && b in run.flight && a.PushCall? && b.PushCall? :: a == b)
    && (CompleteCall in run.flight ==> !run.phase.AtStage? && !run.phase.Pushing?)
    && (FailCall in run.flight ==> !run.failed)
    && (run.failed || FailCall in run.flight ==> run.phase.Failing? || run.phase.Finished?)
  }

  ghost predicate RunOk(db: Db, past: map<JobId, Past>, run: Run, r: nat) {
    && run.job in db.jobs && run.job in past
    && 1 <= run.epoch <= db.jobs[run.job].epoch
    && IsPrefix(run.resumed)
    && Shape(run)
    && (run.epoch == db.jobs[run.job].epoch ==> past[run.job].holder == r && Flow(run, db.jobs[run.job]))
  }

  /** Every epoch is paid for by an accepted fail or by a lapsed lease, except the one running. */
  ghost predicate Budget(job: Job, past: Past, holder: Run) {
    if holder.failed
    then job.epoch == job.attempts + past.reclaims && job.attempts <= MAX_ATTEMPTS && job.status != Running
    else job.epoch == job.attempts + past.reclaims + 1 && job.attempts < MAX_ATTEMPTS && job.status != Failed
  }

  ghost predicate JobOk(db: Db, past: map<JobId, Past>, runs: seq<Run>, j: JobId)
    requires j in db.jobs
  {
    var job := db.jobs[j];
    && j < db.nextJob && j in past
    && IsPrefix(job.done)
    && (job.status == Complete ==> job.done == ALL)
    && (job.status == Queued <==> job.epoch == 0)
    && (job.epoch == 0 ==> job.done == {} && job.attempts == 0 && past[j].reclaims == 0)
    && (job.epoch > 0 ==>
          && past[j].holder < |runs|
          && runs[past[j].holder].job == j
          && runs[past[j].holder].epoch == job.epoch
          && job.expires == Some(runs[past[j].holder].renewed + runs[past[j].holder].lease as real)
          && Budget(job, past[j], runs[past[j].holder]))
    && (Register in job.done <==> job.hash.Some?)
    && (job.hash.Some? <==> job.video.Some?)
    && (job.hash.Some? ==> job.hash.value in db.videos && db.videos[job.hash.value] == job.video.value)
  }

  /** The key constraints of the schema. */
  ghost predicate Keys(db: Db) {
    && (forall j, k | j in db.jobs && k in db.jobs && db.jobs[j].hash.Some? && db.jobs[j].hash == db.jobs[k].hash ::
          j == k)
    && (forall g, h | g in db.videos && h in db.videos && db.videos[g] == db.videos[h] :: g == h)
    && (forall h | h in db.videos :: db.videos[h] < db.nextVideo && db.videos[h] in db.rows)
    && (forall v | v in db.rows :: v < db.nextVideo)
  }

  /** Runs of the same job carry growing epochs, so no two share one. */
  ghost predicate Ordered(runs: seq<Run>) {
    forall q, r | 0 <= q < r < |runs| && runs[q].job == runs[r].job :: runs[q].epoch < runs[r].epoch
  }

  ghost predicate Inv(s: System) {
    && Keys(s.db)
    && (forall j | j in s.db.jobs :: JobOk(s.db, s.past, s.runs, j))
    && (forall r | 0 <= r < |s.runs| :: RunOk(s.db, s.past, s.runs[r], r))
    && Ordered(s.runs)
    && (forall j | j in s.past :: j in s.db.jobs)
  }

  /** The part of a run that rows refer to. */
  ghost predicate SameClaim(a: Run, b: Run) {
    a.job == b.job && a.epoch == b.epoch && a.failed == b.failed && a.lease == b.lease && a.renewed == b.renewed
  }

  // ---- steps inside one worker ------------------------------------------------------------

  lemma LocalKeepsShape(run: Run, step: Step)
    requires Shape(run)
    ensures Shape(Local(run, step))
    ensures var after := Local(run, step);
      SameClaim(after, run) && after.resumed == run.resumed
  {
    hide Shape, SameClaim, Local;
    if step.Compute? {
      ComputeKeepsShape(run, step);
    } else if step.Throw? || step.Receive? {
      ReplyKeepsShape(run, step);
    } else {
      OtherKeepsShape(run, step);
    }
  }

  lemma ComputeKeepsShape(run: Run, step: Step)
    requires Shape(run) && step.Compute?
    ensures Shape(Local(run, step)) && SameClaim(Local(run, step), run) && Local(run, step).resumed == run.resumed
  {
    if CanCompute(run) {
      assert forall call | call in run.flight :: !call.PushCall?;
    }
  }

  lemma RaisedKeepsShape(run: Run)
    requires Shape(run)
    ensures Shape(Raised(run)) && SameClaim(Raised(run), run) && Raised(run).resumed == run.resumed
  {
  }

  lemma ReplyKeepsShape(run: Run, step: Step)
    requires Shape(run) && (step.Throw? || step.Receive?)
    ensures Shape(Local(run, step)) && SameClaim(Local(run, step), run) && Local(run, step).resumed == run.resumed
  {
    hide Raised;
    RaisedKeepsShape(run);
  }

  lemma OtherKeepsShape(run: Run, step: Step)
    requires Shape(run) && !step.Compute? && !step.Throw? && !step.Receive?
    ensures Shape(Local(run, step)) && SameClaim(Local(run, step), run) && Local(run, step).resumed == run.resumed
  {
  }

  lemma LocalKeepsFlow(run: Run, job: Job, step: Step)
    requires Shape(run) && IsPrefix(run.resumed) && Flow(run, job)
    ensures Flow(Local(run, step), job)
  {
    hide Flow, Shape, IsPrefix, Local;
    if step.Compute? {
      ComputeKeepsFlow(run, job, step);
    } else if step.Skip? {
      SkipKeepsFlow(run, job, step);
    } else if step.Receive? {
      ReceiveKeepsFlow(run, job, step);
    } else {
      OtherKeepsFlow(run, job, step);
    }
  }

  lemma OtherKeepsFlow(run: Run, job: Job, step: Step)
    requires Shape(run) && Flow(run, job) && !step.Compute? && !step.Skip? && !step.Receive?
    ensures Flow(Local(run, step), job)
  {
    hide Below, Shape;
    BelowEnds();
    AllIsAll(job.done);
  }

  lemma SkipKeepsFlow(run: Run, job: Job, step: Step)
    requires Shape(run) && Flow(run, job) && step.Skip?
    ensures Flow(Local(run, step), job)
  {
    if Next(run.phase, run.resumed, ResumeSkip).Some? {
      BelowStep(run.phase.i);
      assert Below(run.phase.i + 1) <= job.done;
    }
  }

  lemma ReceiveKeepsFlow(run: Run, job: Job, step: Step)
    requires Shape(run) && Flow(run, job) && step.Receive?
    ensures Flow(Local(run, step), job)
  {
    hide Below;
    if run.answer == Some(Accepted) && run.phase.Pushing? {
      BelowStep(run.phase.i);
      assert Below(run.phase.i + 1) <= job.done;
    }
  }

  lemma ComputeKeepsFlow(run: Run, job: Job, step: Step)
    requires Shape(run) && IsPrefix(run.resumed) && Flow(run, job) && step.Compute?
    ensures Flow(Local(run, step), job)
  {
    if CanCompute(run) {
      BelowStep(run.phase.i);
      PrefixWithout(run.resumed, run.phase.i);
      assert job.done == Below(run.phase.i);
    }
  }

  lemma LocalKeepsRun(db: Db, past: map<JobId, Past>, run: Run, r: nat, step: Step)
    requires RunOk(db, past, run, r)
    ensures RunOk(db, past, Local(run, step), r)
    ensures var after := Local(run, step);
      SameClaim(after, run)
  {
    LocalKeepsShape(run, step);
    if run.epoch == db.jobs[run.job].epoch { LocalKeepsFlow(run, db.jobs[run.job], step); }
  }

  /** A prefix that lacks the stage at position i lies below i. */
  lemma PrefixWithout(done: set<Stage>, i: nat)
    requires IsPrefix(done) && i < |STAGES| && STAGES[i] !in done
    ensures done <= Below(i)
  {
    var n: nat :| n <= |STAGES| && done == Below(n);
    BelowStep(i);
  }

  lemma RunFrame(db: Db, past: map<JobId, Past>, after: Db, since: map<JobId, Past>, run: Run, r: nat)
    requires RunOk(db, past, run, r)
    requires run.job in after.jobs && run.job in since
    requires run.epoch <= after.jobs[run.job].epoch
    requires run.epoch == after.jobs[run.job].epoch ==>
               since[run.job].holder == r && after.jobs[run.job] == db.jobs[run.job]
    ensures RunOk(after, since, run, r)
  {
  }

  lemma JobFrame(db: Db, past: map<JobId, Past>, runs: seq<Run>,
                 after: Db, since: map<JobId, Past>, later: seq<Run>, j: JobId)
    requires j in db.jobs && JobOk(db, past, runs, j)
    requires j in after.jobs && after.jobs[j] == db.jobs[j] && db.nextJob <= after.nextJob
    requires j in since && since[j] == past[j]
    requires forall h | h in db.videos :: h in after.videos && after.videos[h] == db.videos[h]
    requires db.jobs[j].epoch > 0 ==>
               var h := past[j].holder;
               h < |later| && SameClaim(later[h], runs[h])
    ensures JobOk(after, since, later, j)
  {
  }

  /** Replacing a run by one of the same claim disturbs no other run and no row. */
  lemma ReplaceRun(s: System, r: nat, run: Run)
    requires Inv(s) && r < |s.runs| && RunOk(s.db, s.past, run, r)
    requires SameClaim(run, s.runs[r])
    ensures Inv(s.(runs := s.runs[r := run]))
  {
    var after := s.(runs := s.runs[r := run]);
    forall j | j in after.db.jobs ensures JobOk(after.db, after.past, after.runs, j) {
      JobFrame(s.db, s.past, s.runs, after.db, after.past, after.runs, j);
    }
    forall q | 0 <= q < |after.runs| ensures RunOk(after.db, after.past, after.runs[q], q) {
      assert RunOk(s.db, s.past, s.runs[q], q);
    }
    assert Ordered(after.runs);
  }

  // ---- steps of the coordinator -----------------------------------------------------------

  lemma SubmitKeepsInv(s: System, request: Request)
    requires Inv(s)
    ensures Inv(Apply(s, Submit(request)))
  {
    hide RunOk, Budget, IsPrefix;
    var after := Apply(s, Submit(request));
    var row := s.db.nextJob;
    NewRowOk(s, request);
    forall j | j in s.db.jobs ensures JobOk(after.db, after.past, after.runs, j) {
      JobFrame(s.db, s.past, s.runs, after.db, after.past, after.runs, j);
    }
    forall q | 0 <= q < |after.runs| ensures RunOk(after.db, after.past, after.runs[q], q) {
      RunSeesNoNewRow(s, request, q);
    }
    assert Keys(after.db);
  }

  lemma NewRowOk(s: System, request: Request)
    requires forall j | j in s.db.jobs :: JobOk(s.db, s.past, s.runs, j)
    ensures s.db.nextJob !in s.db.jobs
    ensures var after := Apply(s, Submit(request));
      JobOk(after.db, after.past, after.runs, s.db.nextJob)
  {
    hide Below;
    assert s.db.nextJob in s.db.jobs ==> JobOk(s.db, s.past, s.runs, s.db.nextJob);
    BelowEnds();
    assert IsPrefix({});
  }

  lemma RunSeesNoNewRow(s: System, request: Request, q: nat)
    requires q < |s.runs| && RunOk(s.db, s.past, s.runs[q], q) && s.db.nextJob !in s.db.jobs
    ensures var after := Apply(s, Submit(request));
      RunOk(after.db, after.past, after.runs[q], q)
  {
    hide Shape, Flow, IsPrefix;
    RunFrame(s.db, s.past, Apply(s, Submit(request)).db, Apply(s, Submit(request)).past, s.runs[q], q);
  }

  lemma TakenKeepsInv(s: System, worker: nat, lease: int, locked: set<JobId>)
    requires Inv(s)
    ensures Inv(Taken(s, worker, lease, locked))
  {
    var found := Claim(s.db, s.now, lease, locked).1;
    if found.Some? {
      var j := found.value;
      var after := Taken(s, worker, lease, locked);
      TakenRow(s, worker, lease, locked, j);
      TakenKeepsRows(s, worker, lease, locked, j);
      TakenKeepsRuns(s, worker, lease, locked, j);
      assert Keys(after.db);
    }
  }

  lemma TakenKeepsRows(s: System, worker: nat, lease: int, locked: set<JobId>, j: JobId)
    requires forall k | k in s.db.jobs :: JobOk(s.db, s.past, s.runs, k)
    requires Claim(s.db, s.now, lease, locked).1 == Some(j)
    ensures var after := Taken(s, worker, lease, locked);
      forall k | k in after.db.jobs && k != j :: JobOk(after.db, after.past, after.runs, k)
  {
    var after := Taken(s, worker, lease, locked);
    forall k | k in after.db.jobs && k != j ensures JobOk(after.db, after.past, after.runs, k) {
      assert JobOk(s.db, s.past, s.runs, k);
      JobFrame(s.db, s.past, s.runs, after.db, after.past, after.runs, k);
    }
  }

  lemma TakenKeepsRuns(s: System, worker: nat, lease: int, locked: set<JobId>, j: JobId)
    requires forall q | 0 <= q < |s.runs| :: RunOk(s.db, s.past, s.runs[q], q)
    requires Ordered(s.runs) && Claim(s.db, s.now, lease, locked).1 == Some(j)
    ensures var after := Taken(s, worker, lease, locked);
      && (forall q | 0 <= q < |s.runs| :: RunOk(after.db, after.past, after.runs[q], q))
      && Ordered(after.runs)
  {
    var after := Taken(s, worker, lease, locked);
    forall q | 0 <= q < |s.runs|
      ensures RunOk(after.db, after.past, after.runs[q], q)
      ensures s.runs[q].job == j ==> s.runs[q].epoch < s.db.jobs[j].epoch + 1
    {
      assert RunOk(s.db, s.past, s.runs[q], q);
      RunFrame(s.db, s.past, after.db, after.past, s.runs[q], q);
    }
  }

  lemma TakenRow(s: System, worker: nat, lease: int, locked: set<JobId>, j: JobId)
    requires Inv(s) && Claim(s.db, s.now, lease, locked).1 == Some(j)
    ensures var after := Taken(s, worker, lease, locked);
      && after.db == s.db.(jobs := s.db.jobs[j := Leased(s.db.jobs[j], s.now, lease)])
      && JobOk(after.db, after.past, after.runs, j)
      && RunOk(after.db, after.past, after.runs[|s.runs|], |s.runs|)
  {
    hide Below, Shape, Flow, IsPrefix, Inv, RunOk;
    assert JobOk(s.db, s.past, s.runs, j) by { RowIsOk(s, j); }
    FreshRun(s.db.jobs[j], Taken(s, worker, lease, locked).runs[|s.runs|], Leased(s.db.jobs[j], s.now, lease));
    TakenRunOk(s, worker, lease, locked, j);
  }

  lemma RowIsOk(s: System, j: JobId)
    requires Inv(s) && j in s.db.jobs
    ensures JobOk(s.db, s.past, s.runs, j)
  {
    hide JobOk;
  }

  lemma TakenRunOk(s: System, worker: nat, lease: int, locked: set<JobId>, j: JobId)
    requires Claim(s.db, s.now, lease, locked).1 == Some(j)
    requires IsPrefix(s.db.jobs[j].done)
    requires var run := Taken(s, worker, lease, locked).runs[|s.runs|];
      Shape(run) && Flow(run, Leased(s.db.jobs[j], s.now, lease))
    ensures var after := Taken(s, worker, lease, locked);
      RunOk(after.db, after.past, after.runs[|s.runs|], |s.runs|)
  {
    hide Shape, Flow, IsPrefix;
  }

  /** A run that was just handed its job. */
  lemma FreshRun(job: Job, run: Run, leased: Job)
    requires run.resumed == job.done == leased.done && run.phase == AtStage(0) && run.flight == {} && run.answer.None?
    requires !run.failed
    ensures Shape(run) && Flow(run, leased)
  {
    BelowEnds();
  }

  /** An accepted request comes from the run of the last claim. */
  lemma AcceptedIsHolder(s: System, r: nat, call: Call)
    requires Inv(s) && r < |s.runs|
    ensures var (db, reply) := Handle(s, s.runs[r], call);
      && (reply == Accepted ==> s.runs[r].epoch == s.db.jobs[s.runs[r].job].epoch && s.past[s.runs[r].job].holder == r)
      && (reply != Accepted ==> db == s.db)
  {
    assert RunOk(s.db, s.past, s.runs[r], r);
    var run := s.runs[r];
    if call.PushCall? {
      RefusedPushChangesNothing(s.db, run.job, Name(call.stage), run.epoch, call.result, call.files, call.seconds);
    }
  }

  /** Rewriting the holder's row and run, epoch kept, disturbs nothing else. */
  lemma ReplaceHolder(s: System, r: nat, db: Db, run: Run)
    requires Inv(s) && r < |s.runs|
    requires run.job == s.runs[r].job && run.epoch == s.runs[r].epoch == s.db.jobs[run.job].epoch
    requires run.job in s.db.jobs && run.job in db.jobs && db.jobs == s.db.jobs[run.job := db.jobs[run.job]]
    requires db.jobs[run.job].epoch == run.epoch && db.nextJob == s.db.nextJob
    requires forall h | h in s.db.videos :: h in db.videos && db.videos[h] == s.db.videos[h]
    requires Keys(db)
    requires RunOk(db, s.past, run, r)
    requires JobOk(db, s.past, s.runs[r := run], run.job)
    ensures Inv(s.(db := db, runs := s.runs[r := run]))
  {
    var after := s.(db := db, runs := s.runs[r := run]);
    assert RunOk(s.db, s.past, s.runs[r], r);
    ReplaceHolderRows(s, r, db, run);
    ReplaceHolderRuns(s, r, db, run);
  }

  lemma ReplaceHolderRows(s: System, r: nat, db: Db, run: Run)
    requires forall j | j in s.db.jobs :: JobOk(s.db, s.past, s.runs, j)
    requires r < |s.runs| && s.runs[r].job == run.job && run.job in db.jobs
    requires db.jobs == s.db.jobs[run.job := db.jobs[run.job]] && db.nextJob == s.db.nextJob
    requires forall h | h in s.db.videos :: h in db.videos && db.videos[h] == s.db.videos[h]
    ensures forall j | j in db.jobs && j != run.job :: JobOk(db, s.past, s.runs[r := run], j)
  {
    forall j | j in db.jobs && j != run.job ensures JobOk(db, s.past, s.runs[r := run], j) {
      assert JobOk(s.db, s.past, s.runs, j);
      JobFrame(s.db, s.past, s.runs, db, s.past, s.runs[r := run], j);
    }
  }

  lemma ReplaceHolderRuns(s: System, r: nat, db: Db, run: Run)
    requires forall q | 0 <= q < |s.runs| :: RunOk(s.db, s.past, s.runs[q], q)
    requires r < |s.runs| && run.job == s.runs[r].job && run.epoch == s.runs[r].epoch
    requires run.job in s.db.jobs && run.job in db.jobs && db.jobs == s.db.jobs[run.job := db.jobs[run.job]]
    requires db.jobs[run.job].epoch == run.epoch == s.db.jobs[run.job].epoch
    requires Ordered(s.runs)
    ensures forall q | 0 <= q < |s.runs| && q != r :: RunOk(db, s.past, s.runs[q], q)
    ensures Ordered(s.runs[r := run])
  {
    assert RunOk(s.db, s.past, s.runs[r], r);
    forall q | 0 <= q < |s.runs| && q != r ensures RunOk(db, s.past, s.runs[q], q) {
      assert RunOk(s.db, s.past, s.runs[q], q);
      RunFrame(s.db, s.past, db, s.past, s.runs[q], q);
    }
  }

  lemma DeliveredKeepsInv(s: System, r: nat, call: Call, replied: bool)
    requires Inv(s) && r < |s.runs| && call in s.runs[r].flight
    ensures Inv(Delivered(s, r, call, replied))
  {
    AcceptedIsHolder(s, r, call);
    if Handle(s, s.runs[r], call).1 != Accepted {
      RefusedKeepsInv(s, r, call, replied);
    } else if call.PushCall? {
      PushKeepsInv(s, r, call, replied);
    } else {
      ControlKeepsInv(s, r, call, replied);
    }
  }

  lemma RefusedKeepsInv(s: System, r: nat, call: Call, replied: bool)
    requires Inv(s) && r < |s.runs| && call in s.runs[r].flight
    requires Handle(s, s.runs[r], call).1 != Accepted && Handle(s, s.runs[r], call).0 == s.db
    ensures Inv(Delivered(s, r, call, replied))
  {
    assert RunOk(s.db, s.past, s.runs[r], r);
    RefusedRun(s, r, call, replied);
    ReplaceRun(s, r, Delivered(s, r, call, replied).runs[r]);
  }

  lemma RefusedRun(s: System, r: nat, call: Call, replied: bool)
    requires r < |s.runs| && call in s.runs[r].flight && RunOk(s.db, s.past, s.runs[r], r)
    requires Handle(s, s.runs[r], call).1 != Accepted && Handle(s, s.runs[r], call).0 == s.db
    ensures var after := Delivered(s, r, call, replied);
      && after == s.(runs := s.runs[r := after.runs[r]])
      && RunOk(s.db, s.past, after.runs[r], r)
      && SameClaim(after.runs[r], s.runs[r])
  {
  }

  /** heartbeat, complete and fail: the row after the call, and the run that sent it. */
  lemma ControlEffect(s: System, r: nat, call: Call, replied: bool)
    requires r < |s.runs| && RunOk(s.db, s.past, s.runs[r], r) && s.runs[r].job in s.db.jobs
    requires call in s.runs[r].flight && !call.PushCall?
    requires s.past[s.runs[r].job].holder == r && s.runs[r].epoch == s.db.jobs[s.runs[r].job].epoch
    requires JobOk(s.db, s.past, s.runs, s.runs[r].job)
    ensures var after := Delivered(s, r, call, replied);
      && RunOk(after.db, s.past, after.runs[r], r)
      && JobOk(after.db, s.past, after.runs, s.runs[r].job)
  {
    hide Below, IsPrefix;
    if call.BeatCall? {
      assert Handle(s, s.runs[r], call).1 == Accepted;
    } else if call.CompleteCall? {
      assert s.db.jobs[s.runs[r].job].done == ALL;
    } else {
      assert !s.runs[r].failed;
    }
  }

  lemma ControlKeepsInv(s: System, r: nat, call: Call, replied: bool)
    requires Inv(s) && r < |s.runs| && call in s.runs[r].flight && !call.PushCall?
    requires Handle(s, s.runs[r], call).1 == Accepted
    ensures Inv(Delivered(s, r, call, replied))
  {
    hide Handle, Delivered, Shape, Flow, IsPrefix, Budget;
    var run := s.runs[r];
    AcceptedIsHolder(s, r, call);
    assert RunOk(s.db, s.past, run, r);
    assert JobOk(s.db, s.past, s.runs, run.job);
    ControlEffect(s, r, call, replied);
    ControlWrites(s, r, call, replied);
    ReplaceHolder(s, r, Delivered(s, r, call, replied).db, Delivered(s, r, call, replied).runs[r]);
  }

  /** A heartbeat, complete or fail writes the caller's row and run only. */
  lemma ControlWrites(s: System, r: nat, call: Call, replied: bool)
    requires r < |s.runs| && !call.PushCall? && Keys(s.db) && s.runs[r].job in s.db.jobs
    requires s.runs[r].epoch == s.db.jobs[s.runs[r].job].epoch
    ensures var (after, j) := (Delivered(s, r, call, replied), s.runs[r].job);
      && after == s.(db := after.db, runs := s.runs[r := after.runs[r]])
      && after.runs[r].job == j && after.runs[r].epoch == s.runs[r].epoch
      && j in after.db.jobs && after.db.jobs == s.db.jobs[j := after.db.jobs[j]]
      && after.db.jobs[j].epoch == s.runs[r].epoch && after.db.nextJob == s.db.nextJob
      && after.db.videos == s.db.videos && Keys(after.db)
  {
    var (after, j) := (Delivered(s, r, call, replied), s.runs[r].job);
    assert after.db.rows == s.db.rows && after.db.nextVideo == s.db.nextVideo;
    forall k | k in after.db.jobs ensures k in s.db.jobs && after.db.jobs[k].hash == s.db.jobs[k].hash {}
  }

  /** What an accepted push does to the database. */
  ghost predicate PushDone(db: Db, after: Db, j: JobId, stage: Stage)
    requires j in db.jobs
  {
    && j in after.jobs && after.jobs == db.jobs[j := after.jobs[j]] && after.nextJob == db.nextJob
    && (forall h | h in db.videos :: h in after.videos && after.videos[h] == db.videos[h])
    && Keys(after)
    && var was, row := db.jobs[j], after.jobs[j];
    && row.done == was.done + {stage}
    && row == was.(done := row.done, costs := row.costs, hash := row.hash, video := row.video)
    && (stage != Register ==> row.hash == was.hash && row.video == was.video)
    && (stage == Register ==>
          && row.hash.Some? && row.video.Some?
          && row.hash.value in after.videos && after.videos[row.hash.value] == row.video.value)
  }

  lemma PushEffect(db: Db, j: JobId, stage: Stage, epoch: nat, result: Option<Result>, files: bool, seconds: Option<real>)
    requires Keys(db) && j in db.jobs && PushStage(db, j, Name(stage), epoch, result, files, seconds).1 == Accepted
    requires stage == Register ==> db.jobs[j].hash.None?
    ensures PushDone(db, PushStage(db, j, Name(stage), epoch, result, files, seconds).0, j, stage)
  {
    hide Keys, Marked, PushStage, Registered;
    var kept := PushUnfolds(db, j, stage, epoch, result, files, seconds);
    if stage == Register {
      RegisterEffect(db, j, result.value.hash, result.value.hint);
    } else {
      PersistEffect(db, j, stage, result);
    }
    MarkEffect(db, kept, j, stage, seconds);
  }

  /** An accepted push persisted its result and marked its stage. */
  lemma PushUnfolds(db: Db, j: JobId, stage: Stage, epoch: nat, result: Option<Result>, files: bool, seconds: Option<real>)
    returns (kept: Db)
    requires j in db.jobs && PushStage(db, j, Name(stage), epoch, result, files, seconds).1 == Accepted
    ensures Parses(stage, result) && PersistStage(db, j, stage, result) == Some(kept)
    ensures j in kept.jobs
    ensures PushStage(db, j, Name(stage), epoch, result, files, seconds).0
      == kept.(jobs := kept.jobs[j := Marked(kept.jobs[j], stage, seconds)])
  {
    hide PersistStage, Marked;
    NamedInvertsName(stage);
    kept := PersistStage(db, j, stage, result).value;
  }

  lemma MarkEffect(db: Db, kept: Db, j: JobId, stage: Stage, seconds: Option<real>)
    requires j in db.jobs && j in kept.jobs && Keys(kept) && kept.nextJob == db.nextJob
    requires kept.jobs == db.jobs[j := kept.jobs[j]]
    requires kept.jobs[j] == db.jobs[j].(hash := kept.jobs[j].hash, video := kept.jobs[j].video)
    requires forall h | h in db.videos :: h in kept.videos && kept.videos[h] == db.videos[h]
    requires if stage == Register
      then kept.jobs[j].hash.Some? && kept.jobs[j].video.Some?
        && kept.jobs[j].hash.value in kept.videos && kept.videos[kept.jobs[j].hash.value] == kept.jobs[j].video.value
      else kept.jobs[j] == db.jobs[j]
    ensures PushDone(db, kept.(jobs := kept.jobs[j := Marked(kept.jobs[j], stage, seconds)]), j, stage)
  {
    var after := kept.(jobs := kept.jobs[j := Marked(kept.jobs[j], stage, seconds)]);
    forall k | k in after.jobs ensures k in kept.jobs && after.jobs[k].hash == kept.jobs[k].hash {}
    assert Keys(after);
  }

  lemma PersistEffect(db: Db, j: JobId, stage: Stage, result: Option<Result>)
    requires Keys(db) && j in db.jobs && stage != Register
    requires Parses(stage, result) && PersistStage(db, j, stage, result).Some?
    ensures var kept := PersistStage(db, j, stage, result).value;
      && kept.rows.Keys == db.rows.Keys && kept == db.(rows := kept.rows)
      && Keys(kept)
  {
  }

  lemma RegisterEffect(db: Db, j: JobId, hash: Hash, hint: Option<string>)
    requires Keys(db) && j in db.jobs && db.jobs[j].hash.None? && Registered(db, j, hash, hint).Some?
    ensures var kept := Registered(db, j, hash, hint).value;
      && kept.jobs == db.jobs[j := db.jobs[j].(hash := Some(hash), video := kept.jobs[j].video)]
      && kept.jobs[j].video.Some? && hash in kept.videos && kept.videos[hash] == kept.jobs[j].video.value
      && (forall h | h in db.videos :: h in kept.videos && kept.videos[h] == db.videos[h])
      && kept.nextJob == db.nextJob
      && Keys(kept)
  {
  }

  lemma PushKeepsInv(s: System, r: nat, call: Call, replied: bool)
    requires Inv(s) && r < |s.runs| && call in s.runs[r].flight && call.PushCall?
    requires Handle(s, s.runs[r], call).1 == Accepted
    ensures Inv(Delivered(s, r, call, replied))
  {
    var run := s.runs[r];
    AcceptedIsHolder(s, r, call);
    assert RunOk(s.db, s.past, run, r);
    assert JobOk(s.db, s.past, s.runs, run.job);
    BelowEnds();
    if call.stage == Register { assert Register !in s.db.jobs[run.job].done; }
    PushEffect(s.db, run.job, call.stage, run.epoch, call.result, call.files, call.seconds);
    PushedRun(s, r, call, replied);
    var after := Delivered(s, r, call, replied);
    ReplaceHolder(s, r, after.db, after.runs[r]);
  }

  lemma PushedRun(s: System, r: nat, call: Call, replied: bool)
    requires r < |s.runs| && RunOk(s.db, s.past, s.runs[r], r) && s.runs[r].job in s.db.jobs
    requires call in s.runs[r].flight && call.PushCall?
    requires s.past[s.runs[r].job].holder == r && s.runs[r].epoch == s.db.jobs[s.runs[r].job].epoch
    requires JobOk(s.db, s.past, s.runs, s.runs[r].job)
    requires PushDone(s.db, Handle(s, s.runs[r], call).0, s.runs[r].job, call.stage)
    ensures var after := Delivered(s, r, call, replied);
      && RunOk(after.db, s.past, after.runs[r], r)
      && JobOk(after.db, s.past, after.runs, s.runs[r].job)
  {
    hide Below;
    var i := Index(call.stage);
    BelowStep(i);
    BelowEnds();
    var after := Delivered(s, r, call, replied);
    assert after.db.jobs[s.runs[r].job].done == Below(i + 1);
    PushedFlow(s.runs[r], s.db.jobs[s.runs[r].job], after.runs[r], after.db.jobs[s.runs[r].job], call);
    assert IsPrefix(Below(i + 1));
  }

  lemma PushedFlow(run: Run, job: Job, told: Run, marked: Job, call: Call)
    requires Shape(run) && Flow(run, job) && call in run.flight && call.PushCall?
    requires told == run.(flight := run.flight - {call}, answer := told.answer)
    requires marked.done == Below(Index(call.stage) + 1)
    ensures Shape(told.(answer := run.answer)) && Flow(told, marked)
  {
    BelowStep(Index(call.stage));
    BelowEnds();
  }

  lemma StepKeepsInv(s: System, step: Step)
    requires Inv(s)
    ensures Inv(Apply(s, step))
  {
    hide Inv, Local, Delivered, Taken, Enqueue, Busy;
    match step
    case Submit(request) => SubmitKeepsInv(s, request);
    case Tick(_) => TimeDoesNotMatter(s, Apply(s, step).now);
    case TakeJob(worker, lease, locked) => TakenKeepsInv(s, worker, lease, locked);
    case Deliver(r, call, replied) =>
      if r < |s.runs| && call in s.runs[r].flight { DeliveredKeepsInv(s, r, call, replied); }
    case Scribble(_, _) => DisksDoNotMatter(s, Apply(s, step).disks);
    case _ => LocalKeepsInv(s, step);
  }

  lemma TimeDoesNotMatter(s: System, now: real)
    requires Inv(s)
    ensures Inv(s.(now := now))
  {
  }

  lemma DisksDoNotMatter(s: System, disks: map<nat, Disk>)
    requires Inv(s)
    ensures Inv(s.(disks := disks))
  {
  }

  lemma LocalKeepsInv(s: System, step: Step)
    requires Inv(s)
    requires !step.Submit? && !step.Tick? && !step.TakeJob? && !step.Deliver? && !step.Scribble?
    ensures Inv(Apply(s, step))
  {
    hide RunOk, JobOk, Local, Keys, Ordered;
    if step.r < |s.runs| {
      LocalKeepsRun(s.db, s.past, s.runs[step.r], step.r, step);
      ReplaceRun(s, step.r, Local(s.runs[step.r], step));
      DisksDoNotMatter(s.(runs := s.runs[step.r := Local(s.runs[step.r], step)]), Apply(s, step).disks);
    }
  }

  lemma {:induction false} Invariant(steps: seq<Step>)
    ensures Inv(Exec(steps))
  {
    if steps == [] {
    } else {
      Invariant(steps[..|steps| - 1]);
      StepKeepsInv(Exec(steps[..|steps| - 1]), steps[|steps| - 1]);
    }
  }
}
