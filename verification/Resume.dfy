/** Resume refines the sequential run: whatever workers crash, return late or take over, the rows a job
    has landed are those of one uninterrupted run, provided workers compute honestly and a run takes over
    only where its disk can continue. */
module Resume {
  import opened Basics
  import opened Stages
  import opened Rows
  import opened Lease
  import opened Session
  import opened Protocol
  import opened Invariant
  import opened Safety
  import opened Pipeline

  /** Can a worker with this disk continue the job? The separate flag is decided by locate_media and kept
      in memory only; the transcript and the frames are read back from the worker's own disk. */
  predicate Resumable(e: Engine, disk: Disk, job: Job) {
    var media := e.media(job.request.path);
    var dir := Dir(disk, e.hash(media));
    && (LocateMedia in job.done && Transcribe !in job.done ==>
          job.request.separate == Separate(e, job.request.title, job.request.separate))
    && (Transcribe in job.done && ParseTranscript !in job.done && dir.srt.Some? ==>
          dir.srt.value == Srt(e, job.request))
    && (Frames in job.done && ImageEmbed !in job.done ==> dir.frames == e.plan(media))
  }

  function RequestOf(s: System, run: Run): Request
    requires run.job in s.db.jobs
  {
    s.db.jobs[run.job].request
  }

  /** What an interrupted compute can leave behind: a partial artifact of its own stage. */
  ghost predicate Partial(e: Engine, request: Request, stage: Stage, hash: Option<Hash>, disk: Disk, after: Disk) {
    if hash.None? then after == disk
    else
      var dir, left := Dir(disk, hash.value), Dir(after, hash.value);
      && (forall g | g != hash.value :: Dir(after, g) == Dir(disk, g))
      && (stage != LocateMedia ==> left.audio == dir.audio)
      && (stage != Transcribe ==> left.srt == dir.srt)
      && (if stage == Frames then left.frames <= dir.frames + e.plan(e.media(request.path))
          else left.frames == dir.frames)
  }

  /** The step pushes what the tools compute for the run's next stage. */
  ghost predicate Computes(e: Engine, request: Request, run: Run, disk: Disk, step: Step)
    requires step.Compute? && CanCompute(run)
  {
    var outcome := ComputeStage(e, request, STAGES[run.phase.i], run.hash, run.separate, disk);
    && outcome.Computed? && outcome.result == step.result && outcome.files == step.files
    && outcome.disk == step.disk && outcome.separate == step.separate
  }

  /** Workers compute what the tools compute, and take jobs their disk can continue. */
  ghost predicate HonestStep(e: Engine, s: System, step: Step) {
    match step
    case TakeJob(worker, lease, locked) =>
      var found := Claim(s.db, s.now, lease, locked).1;
      found.Some? ==> Resumable(e, DiskOf(s, worker), s.db.jobs[found.value])
    case Compute(r, _, _, _, _, _) =>
      r < |s.runs| && CanCompute(s.runs[r]) && s.runs[r].job in s.db.jobs ==>
        Computes(e, RequestOf(s, s.runs[r]), s.runs[r], DiskOf(s, s.runs[r].worker), step)
    case Scribble(r, disk) =>
      r < |s.runs| && s.runs[r].job in s.db.jobs && s.runs[r].phase.AtStage? ==>
        var run := s.runs[r];
        && CanCompute(run)
        && Partial(e, RequestOf(s, run), STAGES[run.phase.i], run.hash, DiskOf(s, run.worker), disk)
    case _ => true
  }

  ghost predicate HonestRun(e: Engine, steps: seq<Step>) {
    steps == [] ||
    var n := |steps| - 1;
    HonestRun(e, steps[..n]) && HonestStep(e, Exec(steps[..n]), steps[n])
  }

  // ---- the invariant of honest runs -----------------------------------------------------------

  /** The next stage whose inputs matter: a stage being pushed is already computed. */
  function Position(run: Run): nat
    requires Live(run)
  {
    if run.phase.AtStage? then run.phase.i else run.phase.i + 1
  }

  ghost predicate Equipped(e: Engine, request: Request, run: Run, p: nat, disk: Disk) {
    var media := e.media(request.path);
    var dir := Dir(disk, e.hash(media));
    && (run.hash.Some? ==> run.hash.value == e.hash(media))
    && (p > 0 || Register in run.resumed ==> run.hash == Some(e.hash(media)))
    && (Transcribe !in run.resumed ==>
          && (p < 2 ==> run.separate == request.separate)
          && (p == 2 ==> run.separate == Separate(e, request.title, request.separate))
          && (LocateMedia in run.resumed ==> request.separate == Separate(e, request.title, request.separate)))
    && (ParseTranscript !in run.resumed && (p == 3 || (p < 3 && Transcribe in run.resumed)) && dir.srt.Some? ==>
          dir.srt.value == Srt(e, request))
    && (ImageEmbed !in run.resumed && (p >= 5 || Frames in run.resumed) ==> dir.frames == e.plan(media))
  }

  ghost predicate RunHonest(e: Engine, request: Request, run: Run, disk: Disk) {
    && (forall call | call in run.flight && call.PushCall? :: call.result == Expected(e, request, call.stage))
    && (Live(run) ==> Equipped(e, request, run, Position(run), disk))
  }

  ghost predicate RowsHonest(e: Engine, db: Db, j: JobId)
    requires j in db.jobs
  {
    var job := db.jobs[j];
    && (job.hash.Some? ==> job.hash.value == e.hash(e.media(job.request.path)))
    && (job.video.Some? ==> job.video.value in db.rows && db.rows[job.video.value] == RowsAfter(e, job.request, job.done))
  }

  ghost predicate OnlyPlanned(e: Engine, disk: Disk) {
    forall media: string :: Dir(disk, e.hash(media)).frames <= e.plan(media)
  }

  ghost predicate Honest(e: Engine, s: System) {
    && (forall j | j in s.db.jobs :: RowsHonest(e, s.db, j))
    && (forall r | 0 <= r < |s.runs| ::
          s.runs[r].job in s.db.jobs && RunHonest(e, RequestOf(s, s.runs[r]), s.runs[r], DiskOf(s, s.runs[r].worker)))
    && (forall worker :: OnlyPlanned(e, DiskOf(s, worker)))
    && (forall h | h in s.db.videos :: exists j :: j in s.db.jobs && s.db.jobs[j].hash == Some(h))
    && OneEach(s.runs)
  }

  /** A worker serves one claim at a time. */
  ghost predicate OneEach(runs: seq<Run>) {
    forall q, r | 0 <= q < r < |runs| && !runs[q].phase.Finished? && !runs[r].phase.Finished? ::
      runs[q].worker != runs[r].worker
  }

  // ---- steps inside a worker ------------------------------------------------------------------

  /** Steps other than computing keep a run honest. */
  lemma LocalStaysHonest(e: Engine, request: Request, run: Run, disk: Disk, step: Step)
    requires RunHonest(e, request, run, disk) && Shape(run) && IsPrefix(run.resumed) && !step.Compute?
    ensures RunHonest(e, request, Local(run, step), disk)
  {
    hide IsPrefix;
    if step.Skip? {
      SkipStaysHonest(e, request, run, disk, step);
    } else if step.Receive? {
      ReplyStaysHonest(e, request, run, disk, step);
    }
  }

  /** A reply moves a pushing run past the stage it had computed, or ends it. */
  lemma ReplyStaysHonest(e: Engine, request: Request, run: Run, disk: Disk, step: Step)
    requires RunHonest(e, request, run, disk) && step.Receive?
    ensures RunHonest(e, request, Local(run, step), disk)
  {
    hide IsPrefix;
  }

  /** A skip moves on because the disk holds what the claim listed as done. */
  lemma SkipStaysHonest(e: Engine, request: Request, run: Run, disk: Disk, step: Step)
    requires RunHonest(e, request, run, disk) && Shape(run) && IsPrefix(run.resumed) && step.Skip?
    ensures RunHonest(e, request, Local(run, step), disk)
  {
    if Next(run.phase, run.resumed, ResumeSkip).Some? {
      PrefixOrder(run.resumed, run.phase.i);
      assert STAGES[0] == Register && STAGES[1] == LocateMedia && STAGES[2] == Transcribe && STAGES[4] == Frames;
      assert Equipped(e, request, run, run.phase.i + 1, disk);
    }
  }

  lemma LocalKeepsWorker(run: Run, step: Step)
    ensures Local(run, step).worker == run.worker
    ensures run.phase.Finished? ==> Local(run, step).phase.Finished?
  {
  }

  /** A prefix holding a stage holds the earlier ones; one lacking a stage lacks the later ones. */
  lemma PrefixOrder(done: set<Stage>, i: nat)
    requires IsPrefix(done) && i < |STAGES|
    ensures STAGES[i] in done ==> forall k | 0 <= k <= i :: STAGES[k] in done
    ensures STAGES[i] !in done ==> forall k | i <= k < |STAGES| :: STAGES[k] !in done
  {
    var n: nat :| n <= |STAGES| && done == Below(n);
    forall k: nat | k < |STAGES| ensures STAGES[k] in done <==> k < n {
      assert Index(STAGES[k]) == k;
    }
  }

  lemma ComputeStaysHonest(e: Engine, request: Request, run: Run, disk: Disk, step: Step)
    requires RunHonest(e, request, run, disk) && Shape(run) && IsPrefix(run.resumed)
    requires step.Compute? && CanCompute(run) && NoCollisions(e) && OnlyPlanned(e, disk)
    requires Computes(e, request, run, disk, step)
    ensures RunHonest(e, request, Local(run, step), step.disk) && OnlyPlanned(e, step.disk)
  {
    hide ComputeStage, Prepared, OnlyPlanned, IsPrefix, NoCollisions;
    var i := run.phase.i;
    EquippedIsPrepared(e, request, run, disk);
    ComputesExpected(e, request, i, run.hash, run.separate, disk);
    ComputeKeepsOnlyPlanned(e, request, STAGES[i], run.hash, run.separate, disk);
    PreparedIsEquipped(e, request, run, disk, step);
  }

  lemma EquippedIsPrepared(e: Engine, request: Request, run: Run, disk: Disk)
    requires RunHonest(e, request, run, disk) && Shape(run) && IsPrefix(run.resumed)
    requires CanCompute(run) && OnlyPlanned(e, disk)
    ensures Prepared(e, request, run.phase.i, run.hash, run.separate, disk)
    ensures run.hash.Some? ==> run.hash.value == e.hash(e.media(request.path))
  {
    hide IsPrefix, Shape;
    PrefixOrder(run.resumed, run.phase.i);
    assert STAGES[0] == Register && STAGES[2] == Transcribe && STAGES[3] == ParseTranscript
      && STAGES[4] == Frames && STAGES[7] == ImageEmbed && STAGES[1] == LocateMedia;
  }

  /** The run past its compute, with the hash a register stage found. */
  lemma PreparedIsEquipped(e: Engine, request: Request, run: Run, disk: Disk, step: Step)
    requires RunHonest(e, request, run, disk) && IsPrefix(run.resumed) && step.Compute? && CanCompute(run)
    requires step.result == Expected(e, request, STAGES[run.phase.i])
    requires Prepared(e, request, run.phase.i + 1, Some(e.hash(e.media(request.path))), step.separate, step.disk)
    ensures RunHonest(e, request, Local(run, step), step.disk)
  {
    hide IsPrefix, Shape;
    PrefixOrder(run.resumed, run.phase.i);
    assert STAGES[0] == Register && STAGES[2] == Transcribe && STAGES[3] == ParseTranscript
      && STAGES[4] == Frames && STAGES[7] == ImageEmbed && STAGES[1] == LocateMedia;
  }

  lemma ComputeKeepsOnlyPlanned(e: Engine, request: Request, stage: Stage, hash: Option<Hash>, separate: bool, disk: Disk)
    requires NoCollisions(e) && OnlyPlanned(e, disk)
    requires hash.Some? ==> hash.value == e.hash(e.media(request.path))
    ensures var outcome := ComputeStage(e, request, stage, hash, separate, disk);
      outcome.Computed? ==> OnlyPlanned(e, outcome.disk)
  {
    var outcome := ComputeStage(e, request, stage, hash, separate, disk);
    if outcome.Computed? {
      forall media: string ensures Dir(outcome.disk, e.hash(media)).frames <= e.plan(media) {
        assert Dir(disk, e.hash(media)).frames <= e.plan(media);
      }
    }
  }

  lemma ScribbleStaysHonest(e: Engine, request: Request, run: Run, disk: Disk, after: Disk)
    requires RunHonest(e, request, run, disk) && Shape(run) && IsPrefix(run.resumed)
    requires CanCompute(run) && NoCollisions(e) && OnlyPlanned(e, disk)
    requires Partial(e, request, STAGES[run.phase.i], run.hash, disk, after)
    ensures RunHonest(e, request, run, after) && OnlyPlanned(e, after)
  {
    var i := run.phase.i;
    PrefixOrder(run.resumed, i);
    assert STAGES[2] == Transcribe && STAGES[4] == Frames && STAGES[7] == ImageEmbed && STAGES[3] == ParseTranscript;
    forall media: string ensures Dir(after, e.hash(media)).frames <= e.plan(media) {
      assert Dir(disk, e.hash(media)).frames <= e.plan(media);
    }
  }

  /** Replacing one run, and the disk of its worker if the run is live, keeps the system honest. */
  lemma ReplaceHonest(e: Engine, s: System, r: nat, run: Run, disks: map<nat, Disk>)
    requires Honest(e, s) && r < |s.runs| && run.job == s.runs[r].job && run.worker == s.runs[r].worker
    requires s.runs[r].phase.Finished? ==> run.phase.Finished?
    requires var after := s.(runs := s.runs[r := run], disks := disks);
      && (forall w | w != run.worker :: DiskOf(after, w) == DiskOf(s, w))
      && (DiskOf(after, run.worker) == DiskOf(s, run.worker) || Live(s.runs[r]))
      && OnlyPlanned(e, DiskOf(after, run.worker))
      && RunHonest(e, RequestOf(s, s.runs[r]), run, DiskOf(after, run.worker))
    ensures Honest(e, s.(runs := s.runs[r := run], disks := disks))
  {
    var after := s.(runs := s.runs[r := run], disks := disks);
    forall q | 0 <= q < |after.runs| && q != r
      ensures RunHonest(e, RequestOf(after, after.runs[q]), after.runs[q], DiskOf(after, after.runs[q].worker))
    {
      assert RunHonest(e, RequestOf(s, s.runs[q]), s.runs[q], DiskOf(s, s.runs[q].worker));
      if Live(s.runs[q]) && Live(s.runs[r]) {
        assert s.runs[q].worker != s.runs[r].worker;
      }
    }
    forall j | j in after.db.jobs ensures RowsHonest(e, after.db, j) { assert RowsHonest(e, s.db, j); }
    forall w ensures OnlyPlanned(e, DiskOf(after, w)) { assert OnlyPlanned(e, DiskOf(s, w)); }
  }

  lemma LocalStepHonest(e: Engine, s: System, step: Step)
    requires Honest(e, s) && NoCollisions(e) && HonestStep(e, s, step)
    requires !step.Submit? && !step.Tick? && !step.TakeJob? && !step.Deliver?
    requires step.r < |s.runs| ==> RunOk(s.db, s.past, s.runs[step.r], step.r)
    ensures Honest(e, Apply(s, step))
  {
    if step.r < |s.runs| {
      var run := s.runs[step.r];
      var disk := DiskOf(s, run.worker);
      assert RunHonest(e, RequestOf(s, run), run, disk) && OnlyPlanned(e, disk);
      if step.Compute? {
        if CanCompute(run) { ComputeStepHonest(e, s, step); }
      } else if step.Scribble? {
        if run.phase.AtStage? {
          ScribbleStaysHonest(e, RequestOf(s, run), run, disk, step.disk);
          ReplaceHonest(e, s, step.r, run, s.disks[run.worker := step.disk]);
          assert s.runs[step.r := run] == s.runs;
        }
      } else {
        OtherStepHonest(e, s, step);
      }
    }
  }

  lemma ComputeStepHonest(e: Engine, s: System, step: Step)
    requires Honest(e, s) && NoCollisions(e) && step.Compute? && HonestStep(e, s, step)
    requires step.r < |s.runs| && CanCompute(s.runs[step.r])
    requires RunOk(s.db, s.past, s.runs[step.r], step.r)
    ensures Honest(e, Apply(s, step))
  {
    var run := s.runs[step.r];
    var disk := DiskOf(s, run.worker);
    assert RunHonest(e, RequestOf(s, run), run, disk) && OnlyPlanned(e, disk);
    LocalKeepsShape(run, step);
    LocalKeepsWorker(run, step);
    ComputeStaysHonest(e, RequestOf(s, run), run, disk, step);
    ReplaceHonest(e, s, step.r, Local(run, step), s.disks[run.worker := step.disk]);
  }

  lemma OtherStepHonest(e: Engine, s: System, step: Step)
    requires Honest(e, s)
    requires !step.Submit? && !step.Tick? && !step.TakeJob? && !step.Deliver? && !step.Compute? && !step.Scribble?
    requires step.r < |s.runs| && RunOk(s.db, s.past, s.runs[step.r], step.r)
    ensures Honest(e, Apply(s, step))
  {
    var run := s.runs[step.r];
    var disk := DiskOf(s, run.worker);
    assert RunHonest(e, RequestOf(s, run), run, disk) && OnlyPlanned(e, disk);
    LocalKeepsShape(run, step);
    LocalKeepsWorker(run, step);
    LocalStaysHonest(e, RequestOf(s, run), run, disk, step);
    ReplaceHonest(e, s, step.r, Local(run, step), s.disks);
  }

  // ---- steps of the coordinator ---------------------------------------------------------------

  lemma SubmitHonest(e: Engine, s: System, request: Request)
    requires Honest(e, s) && s.db.nextJob !in s.db.jobs
    ensures Honest(e, Apply(s, Submit(request)))
  {
    var after := Apply(s, Submit(request));
    forall j | j in after.db.jobs ensures RowsHonest(e, after.db, j) {
      if j in s.db.jobs { assert RowsHonest(e, s.db, j); }
    }
    forall h | h in after.db.videos ensures exists j :: j in after.db.jobs && after.db.jobs[j].hash == Some(h) {
      var j :| j in s.db.jobs && s.db.jobs[j].hash == Some(h);
      assert j in after.db.jobs && after.db.jobs[j].hash == Some(h);
    }
    forall r | 0 <= r < |after.runs|
      ensures after.runs[r].job in after.db.jobs
      ensures RunHonest(e, RequestOf(after, after.runs[r]), after.runs[r], DiskOf(after, after.runs[r].worker))
    {
      assert RunHonest(e, RequestOf(s, s.runs[r]), s.runs[r], DiskOf(s, s.runs[r].worker));
    }
    forall w ensures OnlyPlanned(e, DiskOf(after, w)) { assert OnlyPlanned(e, DiskOf(s, w)); }
  }

  /** Rewriting rows of the jobs table in fields the data does not depend on. */
  lemma SameData(e: Engine, s: System, db: Db, runs: seq<Run>)
    requires Honest(e, s) && db.jobs.Keys == s.db.jobs.Keys && db.rows == s.db.rows && db.videos == s.db.videos
    requires forall j | j in db.jobs ::
      && db.jobs[j].request == s.db.jobs[j].request && db.jobs[j].done == s.db.jobs[j].done
      && db.jobs[j].hash == s.db.jobs[j].hash && db.jobs[j].video == s.db.jobs[j].video
    requires forall r | 0 <= r < |runs| ::
      && runs[r].job in db.jobs
      && RunHonest(e, db.jobs[runs[r].job].request, runs[r], DiskOf(s, runs[r].worker))
    requires OneEach(runs)
    ensures forall past :: Honest(e, s.(db := db, runs := runs, past := past))
  {
    forall past ensures Honest(e, s.(db := db, runs := runs, past := past)) {
      var after := s.(db := db, runs := runs, past := past);
      forall j | j in db.jobs ensures RowsHonest(e, db, j) { assert RowsHonest(e, s.db, j); }
      forall h | h in db.videos ensures exists j :: j in db.jobs && db.jobs[j].hash == Some(h) {
        var j :| j in s.db.jobs && s.db.jobs[j].hash == Some(h);
        assert j in db.jobs && db.jobs[j].hash == Some(h);
      }
      forall w ensures OnlyPlanned(e, DiskOf(after, w)) { assert OnlyPlanned(e, DiskOf(s, w)); }
    }
  }

  lemma ClaimHonest(e: Engine, s: System, step: Step)
    requires Honest(e, s) && Inv(s) && step.TakeJob? && HonestStep(e, s, step)
    ensures Honest(e, Apply(s, step))
  {
    var after := Apply(s, step);
    var found := Claim(s.db, s.now, step.lease, step.locked).1;
    if !Busy(s, step.worker) && found.Some? {
      assert RowsHonest(e, s.db, found.value) && JobOk(s.db, s.past, s.runs, found.value);
      ClaimedRunHonest(e, s, step, found.value);
      ClaimKeepsData(e, s, step, found.value);
      SameData(e, s, after.db, after.runs);
    }
  }

  lemma ClaimedRunHonest(e: Engine, s: System, step: Step, j: JobId)
    requires step.TakeJob? && Claim(s.db, s.now, step.lease, step.locked).1 == Some(j)
    requires RowsHonest(e, s.db, j) && Resumable(e, DiskOf(s, step.worker), s.db.jobs[j])
    requires IsPrefix(s.db.jobs[j].done) && (Register in s.db.jobs[j].done <==> s.db.jobs[j].hash.Some?)
    ensures var run := Taken(s, step.worker, step.lease, step.locked).runs[|s.runs|];
      run.job == j && run.worker == step.worker && RunHonest(e, s.db.jobs[j].request, run, DiskOf(s, step.worker))
  {
    PrefixOrder(s.db.jobs[j].done, 4);
    PrefixOrder(s.db.jobs[j].done, 2);
    assert STAGES[4] == Frames && STAGES[2] == Transcribe && STAGES[3] == ParseTranscript && STAGES[7] == ImageEmbed;
  }

  lemma ClaimKeepsData(e: Engine, s: System, step: Step, j: JobId)
    requires Honest(e, s) && step.TakeJob? && !Busy(s, step.worker)
    requires Claim(s.db, s.now, step.lease, step.locked).1 == Some(j)
    requires var run := Taken(s, step.worker, step.lease, step.locked).runs[|s.runs|];
      run.job == j && run.worker == step.worker && RunHonest(e, s.db.jobs[j].request, run, DiskOf(s, step.worker))
    ensures var after := Taken(s, step.worker, step.lease, step.locked);
      && after.db.jobs.Keys == s.db.jobs.Keys && after.db.rows == s.db.rows && after.db.videos == s.db.videos
      && (forall k | k in after.db.jobs ::
            && after.db.jobs[k].request == s.db.jobs[k].request && after.db.jobs[k].done == s.db.jobs[k].done
            && after.db.jobs[k].hash == s.db.jobs[k].hash && after.db.jobs[k].video == s.db.jobs[k].video)
      && (forall r | 0 <= r < |after.runs| ::
            && after.runs[r].job in after.db.jobs
            && RunHonest(e, after.db.jobs[after.runs[r].job].request, after.runs[r], DiskOf(s, after.runs[r].worker)))
      && OneEach(after.runs)
  {
    hide RunHonest, RowsHonest, OnlyPlanned;
    var after := Taken(s, step.worker, step.lease, step.locked);
    forall r | 0 <= r < |after.runs|
      ensures after.runs[r].job in after.db.jobs
      ensures RunHonest(e, after.db.jobs[after.runs[r].job].request, after.runs[r], DiskOf(s, after.runs[r].worker))
    {
      if r < |s.runs| { assert RunHonest(e, RequestOf(s, s.runs[r]), s.runs[r], DiskOf(s, s.runs[r].worker)); }
    }
  }

  /** A delivery leaves the run's own state honest: its requests in flight only shrink. */
  lemma ToldStaysHonest(e: Engine, s: System, r: nat, call: Call, replied: bool, request: Request, disk: Disk)
    requires r < |s.runs| && RunHonest(e, request, s.runs[r], disk)
    ensures var told := Delivered(s, r, call, replied).runs[r];
      && RunHonest(e, request, told, disk) && told.worker == s.runs[r].worker && told.job == s.runs[r].job
      && told.phase == s.runs[r].phase
  {
  }

  lemma ToldHonest(e: Engine, s: System, r: nat, call: Call, replied: bool)
    requires Honest(e, s) && r < |s.runs| && call in s.runs[r].flight
    ensures Honest(e, s.(runs := Delivered(s, r, call, replied).runs))
  {
    hide RunHonest, RowsHonest, OneEach, Handle;
    var run := s.runs[r];
    var after := Delivered(s, r, call, replied);
    assert RunHonest(e, RequestOf(s, run), run, DiskOf(s, run.worker));
    ToldStaysHonest(e, s, r, call, replied, RequestOf(s, run), DiskOf(s, run.worker));
    assert OnlyPlanned(e, DiskOf(s, run.worker));
    ReplaceHonest(e, s, r, after.runs[r], s.disks);
    assert s.(runs := after.runs) == s.(runs := s.runs[r := after.runs[r]], disks := s.disks);
  }

  lemma DeliveryHonest(e: Engine, s: System, r: nat, call: Call, replied: bool)
    requires Honest(e, s) && Inv(s) && NoCollisions(e) && r < |s.runs| && call in s.runs[r].flight
    ensures Honest(e, Delivered(s, r, call, replied))
  {
    hide Honest, Inv, Handle, Landed;
    var run := s.runs[r];
    var after := Delivered(s, r, call, replied);
    var told := s.(runs := after.runs);
    ToldHonest(e, s, r, call, replied);
    AcceptedIsHolder(s, r, call);
    RunHasJob(s, r);
    if Handle(s, run, call).1 == Accepted && call.PushCall? {
      PushLandsExpected(e, s, r, call);
      LandedHonest(e, told, after.db, run.job);
      assert after == told.(db := after.db);
    } else {
      ControlKeepsData(s, r, call);
      UnlandedHonest(e, told, after.db);
      assert after == told.(db := after.db);
    }
  }

  lemma RunHasJob(s: System, r: nat)
    requires Inv(s) && r < |s.runs|
    ensures s.runs[r].job in s.db.jobs
  {
    hide JobOk, Flow, Shape;
    assert RunOk(s.db, s.past, s.runs[r], r);
  }

  /** A database whose rows and identities are unchanged leaves everything honest. */
  lemma UnlandedHonest(e: Engine, s: System, db: Db)
    requires Honest(e, s) && db.jobs.Keys == s.db.jobs.Keys && db.rows == s.db.rows && db.videos == s.db.videos
    requires forall j | j in db.jobs ::
      && db.jobs[j].request == s.db.jobs[j].request && db.jobs[j].done == s.db.jobs[j].done
      && db.jobs[j].hash == s.db.jobs[j].hash && db.jobs[j].video == s.db.jobs[j].video
    ensures Honest(e, s.(db := db))
  {
    hide RunHonest, RowsHonest, OnlyPlanned;
    forall q | 0 <= q < |s.runs|
      ensures s.runs[q].job in db.jobs
      ensures RunHonest(e, db.jobs[s.runs[q].job].request, s.runs[q], DiskOf(s, s.runs[q].worker))
    {
      assert RunHonest(e, RequestOf(s, s.runs[q]), s.runs[q], DiskOf(s, s.runs[q].worker));
    }
    SameData(e, s, db, s.runs);
    assert s.(db := db) == s.(db := db, runs := s.runs, past := s.past);
  }

  lemma ControlKeepsData(s: System, r: nat, call: Call)
    requires r < |s.runs| && s.runs[r].job in s.db.jobs
    requires !call.PushCall? || Handle(s, s.runs[r], call).0 == s.db
    ensures var db := Handle(s, s.runs[r], call).0;
      && db.jobs.Keys == s.db.jobs.Keys && db.rows == s.db.rows && db.videos == s.db.videos
      && forall j | j in db.jobs ::
           && db.jobs[j].request == s.db.jobs[j].request && db.jobs[j].done == s.db.jobs[j].done
           && db.jobs[j].hash == s.db.jobs[j].hash && db.jobs[j].video == s.db.jobs[j].video
  {
    hide Handle;
    if !call.PushCall? { ControlCallKeepsData(s, r, call); }
  }

  lemma ControlCallKeepsData(s: System, r: nat, call: Call)
    requires r < |s.runs| && s.runs[r].job in s.db.jobs && !call.PushCall?
    ensures var db := Handle(s, s.runs[r], call).0;
      && db.jobs.Keys == s.db.jobs.Keys && db.rows == s.db.rows && db.videos == s.db.videos
      && forall j | j in db.jobs ::
           && db.jobs[j].request == s.db.jobs[j].request && db.jobs[j].done == s.db.jobs[j].done
           && db.jobs[j].hash == s.db.jobs[j].hash && db.jobs[j].video == s.db.jobs[j].video
  {
    hide PushStage;
  }

  /** The database after job j landed its next stage as expected, every other job's data untouched. */
  ghost predicate Landed(e: Engine, before: Db, db: Db, j: JobId)
    requires j in before.jobs
  {
    && db.jobs.Keys == before.jobs.Keys
    && db.jobs[j].request == before.jobs[j].request
    && (before.jobs[j].hash.Some? ==> db.jobs[j].hash == before.jobs[j].hash)
    && RowsHonest(e, db, j)
    && (forall k | k in db.jobs && k != j ::
          db.jobs[k] == before.jobs[k] && (before.jobs[k].video.Some? && before.jobs[k].video.value in before.rows ==>
            before.jobs[k].video.value in db.rows
            && db.rows[before.jobs[k].video.value] == before.rows[before.jobs[k].video.value]))
    && (forall h | h in db.videos :: h in before.videos || db.jobs[j].hash == Some(h))
  }

  lemma LandedHonest(e: Engine, s: System, db: Db, j: JobId)
    requires Honest(e, s) && j in s.db.jobs && Landed(e, s.db, db, j)
    ensures Honest(e, s.(db := db))
  {
    var after := s.(db := db);
    forall k | k in db.jobs ensures RowsHonest(e, db, k) { assert RowsHonest(e, s.db, k); }
    forall h | h in db.videos ensures exists k :: k in db.jobs && db.jobs[k].hash == Some(h) {
      if h in s.db.videos {
        var k :| k in s.db.jobs && s.db.jobs[k].hash == Some(h);
        assert k in db.jobs && db.jobs[k].hash == Some(h);
      } else {
        assert j in db.jobs && db.jobs[j].hash == Some(h);
      }
    }
    forall r | 0 <= r < |after.runs|
      ensures after.runs[r].job in db.jobs
      ensures RunHonest(e, RequestOf(after, after.runs[r]), after.runs[r], DiskOf(after, after.runs[r].worker))
    {
      assert RunHonest(e, RequestOf(s, s.runs[r]), s.runs[r], DiskOf(s, s.runs[r].worker));
    }
    forall w ensures OnlyPlanned(e, DiskOf(after, w)) { assert OnlyPlanned(e, DiskOf(s, w)); }
  }

  lemma PushLandsExpected(e: Engine, s: System, r: nat, call: Call)
    requires Honest(e, s) && Inv(s) && r < |s.runs| && call in s.runs[r].flight && call.PushCall?
    requires Handle(s, s.runs[r], call).1 == Accepted
    ensures Landed(e, s.db, Handle(s, s.runs[r], call).0, s.runs[r].job)
  {
    var run := s.runs[r];
    var j := run.job;
    AcceptedIsHolder(s, r, call);
    NamedInvertsName(call.stage);
    assert RunOk(s.db, s.past, run, r) && JobOk(s.db, s.past, s.runs, j) && RowsHonest(e, s.db, j);
    assert RunHonest(e, RequestOf(s, run), run, DiskOf(s, run.worker));
    assert s.db.jobs[j].done == Below(Index(call.stage));
    BelowStep(Index(call.stage));
    BelowEnds();
    if call.stage == Register {
      RegisterPush(e, s, r, call);
    } else {
      forall k | k in s.db.jobs && k != j && s.db.jobs[k].video.Some? ensures s.db.jobs[k].video != s.db.jobs[j].video {
        assert JobOk(s.db, s.past, s.runs, k);
      }
      OwnPushLands(e, s.db, j, call);
      StagePushLands(e, s.db, j, call);
    }
  }

  lemma RegisterPush(e: Engine, s: System, r: nat, call: Call)
    requires Honest(e, s) && Inv(s) && r < |s.runs| && call in s.runs[r].flight
    requires call.PushCall? && call.stage == Register && Handle(s, s.runs[r], call).1 == Accepted
    requires s.runs[r].job in s.db.jobs && s.db.jobs[s.runs[r].job].done == {}
    requires call.result == Expected(e, RequestOf(s, s.runs[r]), Register)
    ensures Landed(e, s.db, Handle(s, s.runs[r], call).0, s.runs[r].job)
  {
    var j := s.runs[r].job;
    NamedInvertsName(Register);
    var hash := call.result.value.hash;
    assert JobOk(s.db, s.past, s.runs, j) && s.db.jobs[j].hash.None?;
    assert hash in s.db.videos ==> HashTaken(s.db, j, hash);
    forall k | k in s.db.jobs && s.db.jobs[k].video.Some? ensures s.db.jobs[k].video.value < s.db.nextVideo {
      assert JobOk(s.db, s.past, s.runs, k);
    }
    RegisterLands(e, s.db, j, PersistStage(s.db, j, Register, call.result).value, call.seconds);
  }

  lemma RegisterLands(e: Engine, db: Db, j: JobId, kept: Db, seconds: Option<real>)
    requires j in db.jobs && db.jobs[j].done == {} && db.jobs[j].hash.None?
    requires var hash := e.hash(e.media(db.jobs[j].request.path));
      hash !in db.videos && Registered(db, j, hash, db.jobs[j].request.hint) == Some(kept)
    requires forall k | k in db.jobs && db.jobs[k].video.Some? :: db.jobs[k].video.value < db.nextVideo
    ensures Landed(e, db, kept.(jobs := kept.jobs[j := Marked(kept.jobs[j], Register, seconds)]), j)
  {
    var after := kept.(jobs := kept.jobs[j := Marked(kept.jobs[j], Register, seconds)]);
    var request := db.jobs[j].request;
    assert after.jobs[j].done == {Register};
    assert RowsAfter(e, request, after.jobs[j].done) == Fresh(request.hint);
    assert after.rows == db.rows[db.nextVideo := Fresh(request.hint)];
    assert after.videos == db.videos[e.hash(e.media(request.path)) := db.nextVideo];
  }

  lemma StagePushLands(e: Engine, db: Db, j: JobId, call: Call)
    requires call.PushCall? && call.stage != Register && j in db.jobs && RowsHonest(e, db, j)
    requires db.jobs[j].video.Some? && db.jobs[j].done == Below(Index(call.stage))
    requires Parses(call.stage, call.result) && PersistStage(db, j, call.stage, call.result).Some?
    requires forall k | k in db.jobs && k != j && db.jobs[k].video.Some? :: db.jobs[k].video != db.jobs[j].video
    requires var kept := PersistStage(db, j, call.stage, call.result).value;
      var v := db.jobs[j].video.value;
      && kept == db.(rows := kept.rows) && v in kept.rows && kept.rows == db.rows[v := kept.rows[v]]
      && kept.rows[v] == RowsAfter(e, db.jobs[j].request, Below(Index(call.stage) + 1))
    ensures var kept := PersistStage(db, j, call.stage, call.result).value;
      Landed(e, db, kept.(jobs := kept.jobs[j := Marked(kept.jobs[j], call.stage, call.seconds)]), j)
  {
    BelowStep(Index(call.stage));
  }

  lemma OwnPushLands(e: Engine, db: Db, j: JobId, call: Call)
    requires call.PushCall? && call.stage != Register && j in db.jobs && RowsHonest(e, db, j)
    requires db.jobs[j].video.Some? && db.jobs[j].done == Below(Index(call.stage))
    requires call.result == Expected(e, db.jobs[j].request, call.stage)
    requires Parses(call.stage, call.result) && PersistStage(db, j, call.stage, call.result).Some?
    ensures var kept := PersistStage(db, j, call.stage, call.result).value;
      var v := db.jobs[j].video.value;
      && kept == db.(rows := kept.rows) && v in kept.rows && kept.rows == db.rows[v := kept.rows[v]]
      && kept.rows[v] == RowsAfter(e, db.jobs[j].request, Below(Index(call.stage) + 1))
  {
    BelowStep(Index(call.stage));
    if call.stage != LocateMedia { LandingNext(e, db.jobs[j].request, call.stage); }
    var v := db.jobs[j].video.value;
    assert db.rows[v := db.rows[v]] == db.rows;
  }

  lemma StepHonest(e: Engine, s: System, step: Step)
    requires Honest(e, s) && Inv(s) && NoCollisions(e) && HonestStep(e, s, step)
    ensures Honest(e, Apply(s, step))
  {
    hide Honest, HonestStep, Inv, Local, Delivered, Taken, Enqueue, Busy, NoCollisions;
    if step.Submit? {
      NextIsFree(s);
      SubmitHonest(e, s, step.request);
    } else if step.TakeJob? {
      ClaimHonest(e, s, step);
    } else if step.Deliver? {
      if step.r < |s.runs| && step.call in s.runs[step.r].flight {
        DeliveryHonest(e, s, step.r, step.call, step.replied);
      }
    } else if !step.Tick? {
      if step.r < |s.runs| { RunIsOk(s, step.r); }
      LocalStepHonest(e, s, step);
    } else {
      TickHonest(e, s, step);
    }
  }

  lemma NextIsFree(s: System)
    requires Inv(s)
    ensures s.db.nextJob !in s.db.jobs
  {
    hide RunOk, Flow, Shape, Budget;
    assert forall j | j in s.db.jobs :: JobOk(s.db, s.past, s.runs, j) && j < s.db.nextJob;
  }

  lemma RunIsOk(s: System, r: nat)
    requires Inv(s) && r < |s.runs|
    ensures RunOk(s.db, s.past, s.runs[r], r)
  {
    hide RunOk, JobOk;
  }

  lemma TickHonest(e: Engine, s: System, step: Step)
    requires Honest(e, s) && step.Tick?
    ensures Honest(e, Apply(s, step))
  {
    var after := Apply(s, step);
    forall r | 0 <= r < |after.runs|
      ensures RunHonest(e, RequestOf(after, after.runs[r]), after.runs[r], DiskOf(after, after.runs[r].worker))
    {
      assert RunHonest(e, RequestOf(s, s.runs[r]), s.runs[r], DiskOf(s, s.runs[r].worker));
    }
    forall w ensures OnlyPlanned(e, DiskOf(after, w)) { assert OnlyPlanned(e, DiskOf(s, w)); }
  }

  lemma {:induction false} HonestRunsStayHonest(e: Engine, steps: seq<Step>)
    requires HonestRun(e, steps) && NoCollisions(e)
    ensures Honest(e, Exec(steps))
  {
    if steps != [] {
      var n := |steps| - 1;
      HonestRunsStayHonest(e, steps[..n]);
      Invariant.Invariant(steps[..n]);
      StepHonest(e, Exec(steps[..n]), steps[n]);
    }
  }

  // ---- results --------------------------------------------------------------------------------

  /** At every moment a job's rows are those of the stages it has done in an uninterrupted run, and
      nothing has landed of any other stage, however many workers shared the job. */
  lemma LandedRowsAreSequential(e: Engine, steps: seq<Step>, j: JobId)
    requires HonestRun(e, steps) && NoCollisions(e)
    requires j in Exec(steps).db.jobs && Exec(steps).db.jobs[j].video.Some?
    ensures var db := Exec(steps).db;
      var job := db.jobs[j];
      && job.hash == Some(e.hash(e.media(job.request.path)))
      && job.video.value in db.rows
      && db.rows[job.video.value] == RowsAfter(e, job.request, job.done)
  {
    HonestRunsStayHonest(e, steps);
    Invariant.Invariant(steps);
    assert RowsHonest(e, Exec(steps).db, j) && JobOk(Exec(steps).db, Exec(steps).past, Exec(steps).runs, j);
  }

  /** A complete job holds the rows run_full would have left. The stream type alone can differ: without
      frames the distributed path writes chatting where run_full leaves the request's hint. */
  lemma CompleteJobEqualsRunFull(e: Engine, steps: seq<Step>, j: JobId)
    requires HonestRun(e, steps) && NoCollisions(e)
    requires j in Exec(steps).db.jobs && Exec(steps).db.jobs[j].status == Complete
    ensures var db := Exec(steps).db;
      var job := db.jobs[j];
      && job.video.Some? && job.video.value in db.rows
      && var rows, full := db.rows[job.video.value], SequentialRows(e, job.request);
      && rows.(streamType := None) == full.(streamType := None)
      && (rows == full <==> e.plan(e.media(job.request.path)) != {} || job.request.hint == Some("chatting"))
  {
    Invariant.Invariant(steps);
    var s := Exec(steps);
    assert JobOk(s.db, s.past, s.runs, j);
    LandedRowsAreSequential(e, steps, j);
    BelowEnds();
    EmptyPlan(e, s.db.jobs[j].request);
  }

  // ---- why a run may take over only a resumable job --------------------------------------------

  /** On a worker without the frames the three visual stages report themselves skipped, and the empty
      results land: no text, no scene, no embedding. */
  lemma MissingFramesLandEmpty(e: Engine, request: Request, separate: bool, disk: Disk)
    requires Dir(disk, e.hash(e.media(request.path))).frames == {}
    ensures var hash := Some(e.hash(e.media(request.path)));
      var ocr := ComputeStage(e, request, Ocr, hash, separate, disk);
      var scenes := ComputeStage(e, request, Classify, hash, separate, disk);
      var embeds := ComputeStage(e, request, ImageEmbed, hash, separate, disk);
      && ocr.result == Some(OcrResult([])) && scenes.result == Some(ClassifyResult([], "chatting"))
      && embeds.result == Some(EmbedResult([]))
      && var rows := RowsAfter(e, request, Below(Index(Ocr)));
      && Persisted(rows, OcrResult([])) == Some(rows)
      && Persisted(rows, ClassifyResult([], "chatting")) == Some(rows.(streamType := Some("chatting")))
      && Persisted(rows, EmbedResult([])) == Some(rows)
  {
    BelowStep(5);
    BelowStep(6);
    var media := e.media(request.path);
    assert Ascending(Dir(disk, e.hash(media)).frames) == [];
    assert Embeds(e, media, []) == [] && Texts(e, media, []) == [];
    assert Classify !in Below(5) by { assert Index(Classify) == 6; }
    var rows := RowsAfter(e, request, Below(5));
    assert Embedded(rows.frames, []) == rows.frames && rows.(frames := rows.frames) == rows;
    assert rows.texts == [] && rows.spans == [] && rows.(texts := []) == rows;
  }

  /** A run resumed between locate_media and transcribe forgets the karaoke decision: where KITS tells the
      two modes apart, the transcript is right exactly when the request had asked for the right mode. */
  lemma TranscribeNeedsTheFlag(e: Engine, request: Request, disk: Disk)
    requires Dir(disk, e.hash(e.media(request.path))).audio
    requires e.kits(e.media(request.path), true, request.language) != e.kits(e.media(request.path), false, request.language)
    ensures var h := e.hash(e.media(request.path));
      var outcome := ComputeStage(e, request, Transcribe, Some(h), request.separate, disk);
      && outcome.Computed?
      && (Dir(outcome.disk, h).srt == Some(Srt(e, request)) <==>
            request.separate == Separate(e, request.title, request.separate))
  {
  }

  /** An interrupted compute may leave nothing, or some of the planned frames, but never other videos' files changed. */
  lemma WhatPartialAllows(e: Engine, request: Request, stage: Stage, h: Hash, disk: Disk, some: set<Ms>)
    requires some <= e.plan(e.media(request.path))
    ensures Partial(e, request, stage, None, disk, disk) && Partial(e, request, stage, Some(h), disk, disk)
    ensures var dir := Dir(disk, h);
      Partial(e, request, Frames, Some(h), disk, disk[h := dir.(frames := dir.frames + some)])
    ensures forall g, after | g != h && Partial(e, request, stage, Some(h), disk, after) :: Dir(after, g) == Dir(disk, g)
  {
  }
}
