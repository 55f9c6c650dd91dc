/** Retries and work are bounded: attempts, epochs, and the steps ever taken for one job. */
module Bounds {
  import opened Basics
  import opened Stages
  import opened Lease
  import opened Session
  import opened Protocol
  import opened Invariant
  import Safety

  /** Attempts never pass MAX_ATTEMPTS, a running job still has one left, and every claim is paid for
      by an accepted fail or a lapsed lease. */
  lemma AttemptsAndEpochsAreBounded(steps: seq<Step>, j: JobId)
    requires j in Exec(steps).db.jobs
    ensures var s := Exec(steps);
      var job := s.db.jobs[j];
      && j in s.past
      && job.attempts <= MAX_ATTEMPTS
      && (job.status == Running ==> job.attempts < MAX_ATTEMPTS)
      && job.attempts + s.past[j].reclaims <= job.epoch <= job.attempts + s.past[j].reclaims + 1
      && job.epoch <= MAX_ATTEMPTS + s.past[j].reclaims
  {
    Invariant.Invariant(steps);
    assert JobOk(Exec(steps).db, Exec(steps).past, Exec(steps).runs, j);
  }

  // ---- how long one run can last ------------------------------------------------------------

  /** Steps a fresh run can take at most: three per stage, and six to finish. */
  const FULL: nat := 30

  /** Requests in flight, the heartbeat apart. */
  function Pending(flight: set<Call>): nat {
    |flight - {BeatCall}|
  }

  /** The steps a run and its requests in flight can still take, heartbeats apart. */
  function Left(run: Run): nat {
    var ahead := match run.phase
      case AtStage(i) => 6 + (if i <= |STAGES| then 3 * (|STAGES| - i) else 0)
      case Pushing(i) => 4 + (if i <= |STAGES| then 3 * (|STAGES| - i) else 0)
      case Completing => 4
      case Failing => 1
      case Finished => 0;
    ahead + Pending(run.flight)
  }

  predicate IsBeat(step: Step) {
    step.SendBeat? || ((step.Deliver? || step.Lose?) && step.call == BeatCall)
  }

  lemma SentCall(flight: set<Call>, call: Call)
    ensures Pending(flight + {call}) <= Pending(flight) + (if call == BeatCall then 0 else 1)
  {
    assert flight + {call} - {BeatCall} <= (flight - {BeatCall}) + ({call} - {BeatCall});
    SubsetSize(flight + {call} - {BeatCall}, (flight - {BeatCall}) + ({call} - {BeatCall}));
  }

  lemma GoneCall(flight: set<Call>, call: Call)
    ensures call in flight && call != BeatCall ==> Pending(flight - {call}) == Pending(flight) - 1
    ensures call == BeatCall ==> Pending(flight - {call}) == Pending(flight)
    ensures call !in flight ==> flight - {call} == flight
  {
    if call == BeatCall {
      assert flight - {call} - {BeatCall} == flight - {BeatCall};
    } else if call in flight {
      assert flight - {call} - {BeatCall} == (flight - {BeatCall}) - {call};
    }
  }

  lemma {:induction false} SubsetSize<T>(a: set<T>, b: set<T>)
    requires a <= b
    ensures |a| <= |b|
  {
    assert b == a + (b - a);
  }

  /** Every step that changes a run, a heartbeat apart, brings its end nearer. */
  lemma LocalStepsRunOut(run: Run, step: Step)
    requires Shape(run)
    ensures Left(Local(run, step)) <= Left(run)
    ensures Local(run, step) != run && !IsBeat(step) ==> Left(Local(run, step)) < Left(run)
  {
    if step.Compute? { ComputingRunsOut(run, step); }
    else if step.Throw? { RaisingRunsOut(run); }
    else if step.Receive? { ReceivingRunsOut(run, step); }
    else { SendingRunsOut(run, step); }
  }

  lemma SendingRunsOut(run: Run, step: Step)
    requires Shape(run) && !step.Compute? && !step.Throw? && !step.Receive?
    ensures Left(Local(run, step)) <= Left(run)
    ensures Local(run, step) != run && !IsBeat(step) ==> Left(Local(run, step)) < Left(run)
  {
    hide Shape, Pending;
    if step.Lose? {
      GoneCall(run.flight, step.call);
    } else if step.AskComplete? {
      SentCall(run.flight, CompleteCall);
    } else if step.SendBeat? {
      SentCall(run.flight, BeatCall);
    } else {
      MovingRunsOut(run, step);
    }
  }

  lemma MovingRunsOut(run: Run, step: Step)
    requires step.Skip? || step.StopFenced? || step.GiveUp? || step.Crash? || Local(run, step) == run
    ensures Left(Local(run, step)) <= Left(run)
    ensures Local(run, step) != run ==> Left(Local(run, step)) < Left(run)
  {
    hide Pending;
  }

  lemma ComputingRunsOut(run: Run, step: Step)
    requires Shape(run) && step.Compute?
    ensures Local(run, step) == run || Left(Local(run, step)) < Left(run)
  {
    hide Shape, Pending;
    if CanCompute(run) {
      SentCall(run.flight, PushCall(STAGES[run.phase.i], step.result, step.files, step.seconds));
    }
  }

  lemma RaisingRunsOut(run: Run)
    ensures Raised(run) == run || Left(Raised(run)) < Left(run)
  {
    hide Pending;
    SentCall(run.flight, FailCall);
  }

  lemma ReceivingRunsOut(run: Run, step: Step)
    requires Shape(run) && step.Receive?
    ensures Local(run, step) == run || Left(Local(run, step)) < Left(run)
  {
    hide Pending, Raised;
    RaisingRunsOut(run);
    if run.phase.Pushing? { assert run.phase.i < |STAGES|; }
  }

  lemma DeliveryRunsOut(s: System, r: nat, call: Call, replied: bool)
    requires r < |s.runs| && call in s.runs[r].flight
    ensures var told := Delivered(s, r, call, replied).runs[r];
      && Left(told) <= Left(s.runs[r]) && told.job == s.runs[r].job
      && (call != BeatCall ==> Left(told) < Left(s.runs[r]))
  {
    hide Pending, Handle;
    GoneCall(s.runs[r].flight, call);
  }

  // ---- how much work one job can cost ---------------------------------------------------------

  /** Does the step change a run of job j, heartbeats apart? */
  ghost predicate Works(s: System, step: Step, j: JobId) {
    && !step.Submit? && !step.Tick? && !step.TakeJob? && !step.Scribble? && !IsBeat(step)
    && step.r < |s.runs| && s.runs[step.r].job == j
    && Apply(s, step).runs != s.runs
  }

  ghost function Worked(steps: seq<Step>, j: JobId): nat {
    if steps == [] then 0
    else
      var n := |steps| - 1;
      Worked(steps[..n], j) + (if Works(Exec(steps[..n]), steps[n], j) then 1 else 0)
  }

  function LeftFor(runs: seq<Run>, j: JobId): nat {
    if runs == [] then 0
    else LeftFor(runs[..|runs| - 1], j) + (if runs[|runs| - 1].job == j then Left(runs[|runs| - 1]) else 0)
  }

  lemma {:induction false} LeftForUpdate(runs: seq<Run>, r: nat, run: Run, j: JobId)
    requires r < |runs| && run.job == runs[r].job
    ensures LeftFor(runs[r := run], j) + (if run.job == j then Left(runs[r]) else 0)
         == LeftFor(runs, j) + (if run.job == j then Left(run) else 0)
  {
    var n := |runs| - 1;
    if r == n {
      assert runs[r := run][..n] == runs[..n];
    } else {
      assert runs[r := run][..n] == runs[..n][r := run];
      LeftForUpdate(runs[..n], r, run, j);
    }
  }

  function Epoch(db: Db, j: JobId): nat {
    if j in db.jobs then db.jobs[j].epoch else 0
  }

  lemma {:induction false} WorkIsPaidFor(steps: seq<Step>, j: JobId)
    ensures Worked(steps, j) + LeftFor(Exec(steps).runs, j) <= FULL * Epoch(Exec(steps).db, j)
  {
    if steps != [] {
      var n := |steps| - 1;
      WorkIsPaidFor(steps[..n], j);
      Invariant.Invariant(steps[..n]);
      WorkStep(Exec(steps[..n]), steps[n], j);
    }
  }

  lemma WorkStep(s: System, step: Step, j: JobId)
    requires Inv(s)
    ensures var after := Apply(s, step);
      LeftFor(after.runs, j) + (if Works(s, step, j) then 1 else 0) + FULL * Epoch(s.db, j)
        <= LeftFor(s.runs, j) + FULL * Epoch(after.db, j)
  {
    hide Left, Shape, Local, Delivered, Taken, Flow, IsPrefix, Budget;
    if step.Deliver? {
      if step.r < |s.runs| && step.call in s.runs[step.r].flight {
        DeliveryWork(s, step, j);
      }
    } else if step.TakeJob? {
      ClaimWork(s, step, j);
    } else if !step.Submit? && !step.Tick? && !step.Scribble? && step.r < |s.runs| {
      assert RunOk(s.db, s.past, s.runs[step.r], step.r);
      LocalWork(s, step, j);
    } else {
      QuietStep(s, step, j);
    }
  }

  lemma QuietStep(s: System, step: Step, j: JobId)
    requires step.Submit? || step.Tick? || step.Scribble? || (!step.TakeJob? && step.r >= |s.runs|)
    requires step.Submit? ==> s.db.nextJob !in s.db.jobs
    ensures var after := Apply(s, step);
      after.runs == s.runs && Epoch(after.db, j) == Epoch(s.db, j) && !Works(s, step, j)
  {
  }

  lemma LocalWork(s: System, step: Step, j: JobId)
    requires !step.Submit? && !step.Tick? && !step.Scribble? && !step.TakeJob? && !step.Deliver?
    requires step.r < |s.runs| && Shape(s.runs[step.r])
    ensures var after := Apply(s, step);
      && after.db == s.db
      && LeftFor(after.runs, j) + (if Works(s, step, j) then 1 else 0) <= LeftFor(s.runs, j)
  {
    hide Left, Shape, Moved, Raised;
    var run := s.runs[step.r];
    var after := Apply(s, step);
    LocalStepsRunOut(run, step);
    LocalKeepsShape(run, step);
    assert after.runs == s.runs[step.r := Local(run, step)];
    LeftForUpdate(s.runs, step.r, Local(run, step), j);
    if Local(run, step) == run { assert s.runs[step.r := run] == s.runs; }
  }

  lemma DeliveryWork(s: System, step: Step, j: JobId)
    requires step.Deliver? && step.r < |s.runs| && step.call in s.runs[step.r].flight
    ensures var after := Apply(s, step);
      && Epoch(after.db, j) == Epoch(s.db, j)
      && LeftFor(after.runs, j) + (if Works(s, step, j) then 1 else 0) <= LeftFor(s.runs, j)
  {
    var after := Apply(s, step);
    DeliveryRunsOut(s, step.r, step.call, step.replied);
    assert after.runs == s.runs[step.r := after.runs[step.r]];
    LeftForUpdate(s.runs, step.r, after.runs[step.r], j);
    HandleKeepsEpoch(s, step.r, step.call, j);
  }

  lemma HandleKeepsEpoch(s: System, r: nat, call: Call, j: JobId)
    requires r < |s.runs|
    ensures Epoch(Handle(s, s.runs[r], call).0, j) == Epoch(s.db, j)
  {
    if call.PushCall? && j in s.db.jobs { Safety.PushKeepsEpochs(s, r, call, j); }
  }

  lemma ClaimWork(s: System, step: Step, j: JobId)
    requires step.TakeJob?
    ensures var after := Apply(s, step);
      LeftFor(after.runs, j) + FULL * Epoch(s.db, j) <= LeftFor(s.runs, j) + FULL * Epoch(after.db, j)
  {
    var after := Apply(s, step);
    if after.runs != s.runs {
      var n := |s.runs|;
      assert after.runs[..n] == s.runs;
      assert Left(after.runs[n]) == FULL;
    }
  }

  /** However runs crash, stall and overlap, the steps ever taken for a job are bounded by its lapses. */
  lemma WorkIsBounded(steps: seq<Step>, j: JobId)
    requires j in Exec(steps).db.jobs
    ensures j in Exec(steps).past
    ensures Worked(steps, j) <= FULL * (MAX_ATTEMPTS + Exec(steps).past[j].reclaims)
  {
    WorkIsPaidFor(steps, j);
    AttemptsAndEpochsAreBounded(steps, j);
    var reclaims := Exec(steps).past[j].reclaims;
    assert FULL * Exec(steps).db.jobs[j].epoch <= FULL * (MAX_ATTEMPTS + reclaims);
  }
}
