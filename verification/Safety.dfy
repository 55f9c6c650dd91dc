/** What the invariant says about every run of the protocol: progress is a prefix, the fence admits
    one run per epoch, landed rows are frozen, retries and work are bounded, leases are exclusive. */
module Safety {
  import opened Basics
  import opened Stages
  import opened Rows
  import opened Lease
  import opened Session
  import opened Protocol
  import opened Invariant

  // ---- progress ---------------------------------------------------------------------------

  /** Claims, zombies, late pushes and lost replies never break stage order; complete means all. */
  lemma DoneStagesAreAPrefix(steps: seq<Step>, j: JobId)
    requires j in Exec(steps).db.jobs
    ensures var job := Exec(steps).db.jobs[j];
      && (exists n: nat :: n <= |STAGES| && job.done == Below(n))
      && (job.status == Complete ==> job.done == ALL)
  {
    Invariant.Invariant(steps);
    assert JobOk(Exec(steps).db, Exec(steps).past, Exec(steps).runs, j);
  }

  // ---- fencing ----------------------------------------------------------------------------

  /** No two claims ever hand out the same epoch of the same job. */
  lemma OneRunPerEpoch(steps: seq<Step>, q: nat, r: nat)
    requires q < r < |Exec(steps).runs|
    ensures var runs := Exec(steps).runs;
      !(runs[q].job == runs[r].job && runs[q].epoch == runs[r].epoch)
  {
    Invariant.Invariant(steps);
  }

  /** A request is accepted only from the run of the latest claim; any other changes no row at all. */
  lemma FenceAdmitsTheHolderOnly(steps: seq<Step>, r: nat, call: Call)
    requires r < |Exec(steps).runs|
    ensures var s := Exec(steps);
      var run := s.runs[r];
      var (db, reply) := Handle(s, run, call);
      && run.job in s.db.jobs
      && (reply == Accepted ==>
            && run.epoch == s.db.jobs[run.job].epoch
            && forall q | 0 <= q < |s.runs| && s.runs[q].job == run.job && s.runs[q].epoch >= run.epoch :: q == r)
      && (reply != Accepted ==> db == s.db)
      && (run.epoch < s.db.jobs[run.job].epoch ==> reply == Stale)
  {
    var s := Exec(steps);
    Invariant.Invariant(steps);
    AcceptedIsHolder(s, r, call);
    assert RunOk(s.db, s.past, s.runs[r], r);
    if call.PushCall? { NamedInvertsName(call.stage); }
    forall q | 0 <= q < |s.runs| && s.runs[q].job == s.runs[r].job && s.runs[q].epoch >= s.runs[r].epoch
      ensures s.runs[r].epoch == s.db.jobs[s.runs[r].job].epoch ==> q == r
    {
      assert RunOk(s.db, s.past, s.runs[q], q);
    }
  }

  lemma {:induction false} EpochsOnlyGrow(steps: seq<Step>, more: seq<Step>, j: JobId)
    requires j in Exec(steps).db.jobs
    ensures j in Exec(steps + more).db.jobs
    ensures Exec(steps).db.jobs[j].epoch <= Exec(steps + more).db.jobs[j].epoch
    decreases |more|
  {
    if more == [] {
      assert steps + more == steps;
    } else {
      var n := |more| - 1;
      hide Inv, Apply, Exec;
      EpochsOnlyGrow(steps, more[..n], j);
      ExecOneMore(steps, more);
      Invariant.Invariant(steps + more[..n]);
      EpochStep(Exec(steps + more[..n]), more[n], j);
    }
  }

  /** A step moves an epoch only by claiming the job: a first claim, a lapsed lease, or the holder's
      own accepted fail. */
  lemma EpochStep(s: System, step: Step, j: JobId)
    requires Inv(s) && j in s.db.jobs
    ensures var after := Apply(s, step);
      && j in after.db.jobs
      && (after.db.jobs[j].epoch == s.db.jobs[j].epoch || after.db.jobs[j].epoch == s.db.jobs[j].epoch + 1)
      && (after.db.jobs[j].epoch != s.db.jobs[j].epoch ==>
            step.TakeJob? &&
            (s.db.jobs[j].epoch == 0 || Lapsed(s.db.jobs[j], s.now) || s.runs[s.past[j].holder].failed))
  {
    assert JobOk(s.db, s.past, s.runs, j);
    EpochStepOfRow(s, step, j);
  }

  lemma EpochStepOfRow(s: System, step: Step, j: JobId)
    requires j in s.db.jobs && JobOk(s.db, s.past, s.runs, j)
    ensures var after := Apply(s, step);
      && j in after.db.jobs
      && (after.db.jobs[j].epoch == s.db.jobs[j].epoch || after.db.jobs[j].epoch == s.db.jobs[j].epoch + 1)
      && (after.db.jobs[j].epoch != s.db.jobs[j].epoch ==>
            step.TakeJob? &&
            (s.db.jobs[j].epoch == 0 || Lapsed(s.db.jobs[j], s.now) || s.runs[s.past[j].holder].failed))
      && (!step.Deliver? ==> after.db.jobs[j].video == s.db.jobs[j].video && after.db.rows == s.db.rows)
  {
    if step.Deliver? {
      if step.r < |s.runs| && step.call in s.runs[step.r].flight {
        DeliveryKeepsEpochs(s, step.r, step.call, step.replied, j);
      }
    } else if step.TakeJob? {
      ClaimMovesEpoch(s, step.worker, step.lease, step.locked, j);
    } else {
      OtherStepsKeepRows(s, step);
    }
  }

  lemma ClaimMovesEpoch(s: System, worker: nat, lease: int, locked: set<JobId>, j: JobId)
    requires j in s.db.jobs && JobOk(s.db, s.past, s.runs, j)
    ensures var after := Taken(s, worker, lease, locked);
      && j in after.db.jobs
      && (after.db.jobs[j].epoch == s.db.jobs[j].epoch
          || (after.db.jobs[j].epoch == s.db.jobs[j].epoch + 1
              && (s.db.jobs[j].epoch == 0 || Lapsed(s.db.jobs[j], s.now) || s.runs[s.past[j].holder].failed)))
      && after.db.rows == s.db.rows && after.db.jobs[j].video == s.db.jobs[j].video
  {
  }

  lemma OtherStepsKeepRows(s: System, step: Step)
    requires !step.Deliver? && !step.TakeJob?
    ensures var after := Apply(s, step);
      && after.db.rows == s.db.rows && after.db.videos == s.db.videos
      && forall j | j in s.db.jobs && j != s.db.nextJob :: j in after.db.jobs && after.db.jobs[j] == s.db.jobs[j]
  {
  }

  lemma DeliveryKeepsEpochs(s: System, r: nat, call: Call, replied: bool, j: JobId)
    requires r < |s.runs| && j in s.db.jobs
    ensures var after := Delivered(s, r, call, replied);
      && j in after.db.jobs && after.db.jobs[j].epoch == s.db.jobs[j].epoch
      && (!call.PushCall? ==> after.db.rows == s.db.rows && after.db.jobs[j].video == s.db.jobs[j].video)
  {
    if call.PushCall? { PushKeepsEpochs(s, r, call, j); }
  }

  lemma PushKeepsEpochs(s: System, r: nat, call: Call, j: JobId)
    requires r < |s.runs| && j in s.db.jobs && call.PushCall?
    ensures var db := Handle(s, s.runs[r], call).0;
      j in db.jobs && db.jobs[j].epoch == s.db.jobs[j].epoch
  {
  }

  // ---- landed rows ------------------------------------------------------------------------

  /** The rows of every stage in done are the same before and after. */
  ghost predicate Frozen(done: set<Stage>, before: VideoRows, after: VideoRows) {
    && (ParseTranscript in done ==> after.cues == before.cues)
    && (Frames in done ==> after.frames.Keys == before.frames.Keys)
    && (Ocr in done ==> after.texts == before.texts)
    && (Classify in done ==> after.spans == before.spans && after.streamType == before.streamType)
    && (ImageEmbed in done ==> after.frames == before.frames)
  }

  /** The row of j in a later state still has the video and the stages it had, and their rows unchanged. */
  ghost predicate Kept(s: System, after: System, j: JobId) {
    && j in s.db.jobs && s.db.jobs[j].video.Some? && s.db.jobs[j].video.value in s.db.rows
    && j in after.db.jobs && after.db.jobs[j].video == s.db.jobs[j].video
    && s.db.jobs[j].done <= after.db.jobs[j].done
    && s.db.jobs[j].video.value in after.db.rows
    && Frozen(s.db.jobs[j].done, s.db.rows[s.db.jobs[j].video.value], after.db.rows[s.db.jobs[j].video.value])
  }

  lemma FrozenIsTransitive(done: set<Stage>, later: set<Stage>, a: VideoRows, b: VideoRows, c: VideoRows)
    requires done <= later && Frozen(done, a, b) && Frozen(later, b, c)
    ensures Frozen(done, a, c)
  {
  }

  /** Once a stage has landed no continuation of any run, not even the cascading delete of a frames push or
      a push for another job, changes its rows again. */
  lemma {:induction false} LandedRowsAreFrozen(steps: seq<Step>, more: seq<Step>, j: JobId)
    requires j in Exec(steps).db.jobs && Exec(steps).db.jobs[j].video.Some?
    ensures Kept(Exec(steps), Exec(steps + more), j)
    decreases |more|
  {
    hide Exec, Apply, Inv, Frozen;
    Invariant.Invariant(steps);
    VideoIsThere(Exec(steps), j);
    if more == [] {
      assert steps + more == steps;
      FrozenIsReflexive(Exec(steps).db.jobs[j].done, Exec(steps).db.rows[Exec(steps).db.jobs[j].video.value]);
    } else {
      var n := |more| - 1;
      LandedRowsAreFrozen(steps, more[..n], j);
      Invariant.Invariant(steps + more[..n]);
      ExecOneMore(steps, more);
      var (s, before, after) := (Exec(steps), Exec(steps + more[..n]), Exec(steps + more));
      var v := s.db.jobs[j].video.value;
      StepFreezes(before, more[n], j);
      DoneGrows(before, more[n], j);
      FrozenIsTransitive(s.db.jobs[j].done, before.db.jobs[j].done, s.db.rows[v], before.db.rows[v], after.db.rows[v]);
    }
  }

  lemma DoneGrows(s: System, step: Step, j: JobId)
    requires Inv(s) && j in s.db.jobs
    ensures var after := Apply(s, step); j in after.db.jobs && s.db.jobs[j].done <= after.db.jobs[j].done
  {
    hide Delivered, Local, Taken, Busy, Inv;
    RowIsOk(s, j);
    if step.Deliver? {
      if step.r < |s.runs| && step.call in s.runs[step.r].flight { DeliveryGrows(s, step.r, step.call, step.replied, j); }
    } else if step.TakeJob? {
      ClaimKeepsDone(s, step.worker, step.lease, step.locked, j);
    } else {
      OtherStepsKeepRows(s, step);
    }
  }

  lemma ClaimKeepsDone(s: System, worker: nat, lease: int, locked: set<JobId>, j: JobId)
    requires j in s.db.jobs
    ensures var after := Taken(s, worker, lease, locked); j in after.db.jobs && after.db.jobs[j].done == s.db.jobs[j].done
  {
  }

  lemma DeliveryGrows(s: System, r: nat, call: Call, replied: bool, j: JobId)
    requires r < |s.runs| && j in s.db.jobs
    ensures var after := Delivered(s, r, call, replied); j in after.db.jobs && s.db.jobs[j].done <= after.db.jobs[j].done
  {
    if call.PushCall? { PushGrows(s, r, call, j); }
  }

  lemma PushGrows(s: System, r: nat, call: Call, j: JobId)
    requires r < |s.runs| && j in s.db.jobs && call.PushCall?
    ensures var db := Handle(s, s.runs[r], call).0; j in db.jobs && s.db.jobs[j].done <= db.jobs[j].done
  {
  }

  lemma StepFreezes(s: System, step: Step, j: JobId)
    requires Inv(s) && j in s.db.jobs && s.db.jobs[j].video.Some?
    ensures var after := Apply(s, step);
      var v := s.db.jobs[j].video.value;
      && v in s.db.rows
      && j in after.db.jobs && after.db.jobs[j].video == Some(v)
      && v in after.db.rows && Frozen(s.db.jobs[j].done, s.db.rows[v], after.db.rows[v])
  {
    hide Frozen, Delivered, Local, Taken, Enqueue, Busy, Inv;
    RowIsOk(s, j);
    VideoIsThere(s, j);
    if step.Deliver? {
      if step.r < |s.runs| && step.call in s.runs[step.r].flight {
        DeliveryFreezes(s, step.r, step.call, step.replied, j);
      } else {
        FrozenIsReflexive(s.db.jobs[j].done, s.db.rows[s.db.jobs[j].video.value]);
      }
    } else {
      EpochStepOfRow(s, step, j);
      FrozenIsReflexive(s.db.jobs[j].done, s.db.rows[s.db.jobs[j].video.value]);
    }
  }

  lemma FrozenIsReflexive(done: set<Stage>, rows: VideoRows)
    ensures Frozen(done, rows, rows)
  {
  }

  lemma VideoIsThere(s: System, j: JobId)
    requires Inv(s) && j in s.db.jobs && s.db.jobs[j].video.Some?
    ensures s.db.jobs[j].video.value in s.db.rows
  {
    hide RunOk, Flow, Shape, Budget, IsPrefix;
    assert JobOk(s.db, s.past, s.runs, j);
  }

  lemma DeliveryFreezes(s: System, r: nat, call: Call, replied: bool, j: JobId)
    requires Inv(s) && r < |s.runs| && call in s.runs[r].flight
    requires j in s.db.jobs && s.db.jobs[j].video.Some? && s.db.jobs[j].video.value in s.db.rows
    ensures var after := Delivered(s, r, call, replied);
      var v := s.db.jobs[j].video.value;
      && j in after.db.jobs && after.db.jobs[j].video == Some(v)
      && v in after.db.rows && Frozen(s.db.jobs[j].done, s.db.rows[v], after.db.rows[v])
  {
    if call.PushCall? { PushFreezes(s, r, call, j); } else { DeliveryKeepsEpochs(s, r, call, replied, j); }
  }

  lemma PushFreezes(s: System, r: nat, call: Call, j: JobId)
    requires Inv(s) && r < |s.runs| && call in s.runs[r].flight && call.PushCall?
    requires j in s.db.jobs && s.db.jobs[j].video.Some? && s.db.jobs[j].video.value in s.db.rows
    ensures var db := Handle(s, s.runs[r], call).0;
      var v := s.db.jobs[j].video.value;
      && j in db.jobs && db.jobs[j].video == Some(v)
      && v in db.rows && Frozen(s.db.jobs[j].done, s.db.rows[v], db.rows[v])
  {
    hide Frozen;
    var run := s.runs[r];
    AcceptedIsHolder(s, r, call);
    NamedInvertsName(call.stage);
    FrozenIsReflexive(s.db.jobs[j].done, s.db.rows[s.db.jobs[j].video.value]);
    if Handle(s, run, call).1 == Accepted {
      assert JobOk(s.db, s.past, s.runs, j);
      assert JobOk(s.db, s.past, s.runs, run.job);
      assert RunOk(s.db, s.past, run, r);
      assert s.db.jobs[run.job].done == Below(Index(call.stage));
      BelowEnds();
      if run.job == j {
        OwnPushFreezes(s.db, j, call);
      } else {
        assert s.db.jobs[run.job].video != s.db.jobs[j].video;
        OtherPushFreezes(s.db, run.job, j, call);
      }
    }
  }

  lemma OwnPushFreezes(db: Db, j: JobId, call: Call)
    requires call.PushCall? && j in db.jobs && db.jobs[j].video.Some? && db.jobs[j].video.value in db.rows
    requires db.jobs[j].done == Below(Index(call.stage)) && Register in db.jobs[j].done
    requires Parses(call.stage, call.result) && PersistStage(db, j, call.stage, call.result).Some?
    ensures var kept := PersistStage(db, j, call.stage, call.result).value;
      var v := db.jobs[j].video.value;
      kept.jobs == db.jobs && v in kept.rows && Frozen(db.jobs[j].done, db.rows[v], kept.rows[v])
  {
    if call.stage == ImageEmbed {
      EmbeddedKeepsFrames(db.rows[db.jobs[j].video.value].frames, call.result.value.embeds);
    }
  }

  lemma OtherPushFreezes(db: Db, k: JobId, j: JobId, call: Call)
    requires call.PushCall? && j in db.jobs && k in db.jobs && k != j && Keys(db)
    requires db.jobs[j].video.Some? && db.jobs[j].video.value in db.rows
    requires call.stage == Register || db.jobs[k].video != db.jobs[j].video
    requires Parses(call.stage, call.result) && PersistStage(db, k, call.stage, call.result).Some?
    ensures var kept := PersistStage(db, k, call.stage, call.result).value;
      var v := db.jobs[j].video.value;
      j in kept.jobs && kept.jobs[j] == db.jobs[j] && v in kept.rows && kept.rows[v] == db.rows[v]
  {
  }
}
