/** When is a complete job complete for good? Exactly when its last run can no longer report fail. */
module Completion {
  import opened Basics
  import opened Stages
  import opened Lease
  import opened Session
  import opened Protocol
  import opened Invariant

  /** A fail report is on its way, or the run may still raise: its complete is unanswered, say. */
  predicate CanStillFail(run: Run) {
    FailCall in run.flight || Next(run.phase, run.resumed, Raise).Some?
  }

  /** The job is complete and the run of its last claim can do nothing about it. */
  ghost predicate Final(s: System, j: JobId, h: nat) {
    && j in s.db.jobs && s.db.jobs[j].status == Complete
    && j in s.past && s.past[j].holder == h
    && h < |s.runs| && !CanStillFail(s.runs[h])
  }

  lemma LocalStaysDone(run: Run, step: Step)
    requires !CanStillFail(run)
    ensures !CanStillFail(Local(run, step))
  {
  }

  lemma LocalStepStaysFinal(s: System, step: Step, j: JobId, h: nat)
    requires Final(s, j, h)
    requires !step.Submit? && !step.Tick? && !step.TakeJob? && !step.Deliver? && !step.Scribble?
    ensures Final(Apply(s, step), j, h)
  {
    hide Local, CanStillFail;
    LocalStaysDone(s.runs[h], step);
  }

  lemma ClaimStaysFinal(s: System, step: Step, j: JobId, h: nat)
    requires Final(s, j, h) && step.TakeJob?
    ensures Final(Apply(s, step), j, h)
  {
    hide CanStillFail;
  }

  /** Only an accepted fail takes a job out of complete. */
  lemma CallKeepsComplete(s: System, r: nat, call: Call, j: JobId)
    requires r < |s.runs| && j in s.db.jobs && s.db.jobs[j].status == Complete
    ensures var (db, reply) := Handle(s, s.runs[r], call);
      j in db.jobs && (db.jobs[j].status == Complete || (call == FailCall && s.runs[r].job == j && reply == Accepted))
  {
    if call.PushCall? { PushKeepsStatus(s.db, s.runs[r], call, j); }
  }

  lemma PushKeepsStatus(db: Db, run: Run, call: Call, j: JobId)
    requires call.PushCall? && j in db.jobs
    ensures var after := PushStage(db, run.job, Name(call.stage), run.epoch, call.result, call.files, call.seconds).0;
      j in after.jobs && after.jobs[j].status == db.jobs[j].status
  {
  }

  lemma DeliveryStaysFinal(s: System, r: nat, call: Call, replied: bool, j: JobId, h: nat)
    requires Inv(s) && Final(s, j, h) && r < |s.runs| && call in s.runs[r].flight
    ensures Final(Delivered(s, r, call, replied), j, h)
  {
    hide Inv, Handle;
    AcceptedIsHolder(s, r, call);
    CallKeepsComplete(s, r, call, j);
  }

  lemma StepStaysFinal(s: System, step: Step, j: JobId, h: nat)
    requires Inv(s) && Final(s, j, h)
    ensures Final(Apply(s, step), j, h)
  {
    hide Inv, Local, Delivered, Taken, CanStillFail;
    if step.Submit? {
      IdIsTaken(s, j);
    } else if step.TakeJob? {
      ClaimStaysFinal(s, step, j, h);
    } else if step.Deliver? {
      if step.r < |s.runs| && step.call in s.runs[step.r].flight {
        DeliveryStaysFinal(s, step.r, step.call, step.replied, j, h);
      }
    } else if !step.Tick? && !step.Scribble? {
      LocalStepStaysFinal(s, step, j, h);
    }
  }

  lemma IdIsTaken(s: System, j: JobId)
    requires Inv(s) && j in s.db.jobs
    ensures j < s.db.nextJob
  {
    hide Flow, Shape, Budget, RunOk, IsPrefix;
    RowIsOk(s, j);
  }

  lemma {:induction false} RunsStayFinal(steps: seq<Step>, more: seq<Step>, j: JobId, h: nat)
    requires Final(Exec(steps), j, h)
    ensures Final(Exec(steps + more), j, h)
    decreases |more|
  {
    hide Final, Exec, Apply;
    if more == [] {
      assert steps + more == steps;
    } else {
      RunsStayFinal(steps, more[..|more| - 1], j, h);
      Invariant.Invariant(steps + more[..|more| - 1]);
      StepStaysFinal(Exec(steps + more[..|more| - 1]), more[|more| - 1], j, h);
      ExecOneMore(steps, more);
    }
  }

  lemma FailUndoes(s: System, j: JobId, h: nat)
    requires Inv(s) && j in s.db.jobs && s.db.jobs[j].status == Complete && j in s.past && s.past[j].holder == h
    requires h < |s.runs| && FailCall in s.runs[h].flight
    ensures var after := Apply(s, Deliver(h, FailCall, true)); j in after.db.jobs && after.db.jobs[j].status == Failed
  {
    hide Flow, Shape, Budget, RunOk, IsPrefix;
    assert JobOk(s.db, s.past, s.runs, j);
  }

  lemma RaiseReports(s: System, j: JobId, h: nat)
    requires h < |s.runs| && Next(s.runs[h].phase, s.runs[h].resumed, Raise).Some?
    ensures var after := Apply(s, Throw(h));
      after.db == s.db && after.past == s.past && h < |after.runs| && FailCall in after.runs[h].flight
  {
  }

  /** Two steps at most undo a complete whose run can still fail. */
  lemma CompleteCanBeUndone(steps: seq<Step>, j: JobId) returns (more: seq<Step>)
    requires j in Exec(steps).db.jobs && Exec(steps).db.jobs[j].status == Complete
    requires j in Exec(steps).past && Exec(steps).past[j].holder < |Exec(steps).runs|
    requires CanStillFail(Exec(steps).runs[Exec(steps).past[j].holder])
    ensures j in Exec(steps + more).db.jobs && Exec(steps + more).db.jobs[j].status == Failed
  {
    hide Inv, Apply, Exec;
    var s := Exec(steps);
    var h := s.past[j].holder;
    var fail := Deliver(h, FailCall, true);
    Invariant.Invariant(steps);
    if FailCall in s.runs[h].flight {
      more := [fail];
      FailUndoes(s, j, h);
      ExecOneMore(steps, more);
      assert steps + more[..0] == steps;
    } else {
      var raised := Apply(s, Throw(h));
      RaiseReports(s, j, h);
      StepKeepsInv(s, Throw(h));
      FailUndoes(raised, j, h);
      more := [Throw(h), fail];
      ExecOneMore(steps, [Throw(h)]);
      ExecOneMore(steps, more);
      assert steps + [Throw(h)][..0] == steps && more[..1] == [Throw(h)];
    }
  }

  lemma HolderOf(steps: seq<Step>, j: JobId)
    requires j in Exec(steps).db.jobs && Exec(steps).db.jobs[j].status == Complete
    ensures j in Exec(steps).past && Exec(steps).past[j].holder < |Exec(steps).runs|
  {
    hide Exec, Flow, Shape, Budget, RunOk, IsPrefix;
    Invariant.Invariant(steps);
    assert JobOk(Exec(steps).db, Exec(steps).past, Exec(steps).runs, j);
  }

  /**
   * Complete is for good exactly when the run that completed the job has its answer: as long as it may still
   * raise, a lost reply for instance, its fail report takes the job back to failed and it is handed out again.
   */
  lemma CompleteIsFinalIff(steps: seq<Step>, j: JobId)
    requires j in Exec(steps).db.jobs && Exec(steps).db.jobs[j].status == Complete
    ensures j in Exec(steps).past && Exec(steps).past[j].holder < |Exec(steps).runs|
    ensures (forall more :: j in Exec(steps + more).db.jobs && Exec(steps + more).db.jobs[j].status == Complete)
      <==> !CanStillFail(Exec(steps).runs[Exec(steps).past[j].holder])
  {
    hide Exec, CanStillFail;
    HolderOf(steps, j);
    var h := Exec(steps).past[j].holder;
    if CanStillFail(Exec(steps).runs[h]) {
      var more := CompleteCanBeUndone(steps, j);
    } else {
      forall more ensures j in Exec(steps + more).db.jobs && Exec(steps + more).db.jobs[j].status == Complete {
        RunsStayFinal(steps, more, j, h);
      }
    }
  }
}
