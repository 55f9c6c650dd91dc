/** The uninterrupted continuation of a claim in the protocol: skip what is done, then compute, push and receive
    stage by stage. It completes the job with the sequential rows exactly when the worker's disk lets it. */
module Uninterrupted {
  import opened Basics
  import opened Stages
  import opened Rows
  import opened Lease
  import opened Session
  import opened Protocol
  import opened Invariant
  import opened Pipeline
  import opened Continuation
  import Resume

  // ---- the continuation ------------------------------------------------------------------------

  /** What the run does about the stage it is at; nothing when it is past the stages or has given up. */
  ghost function Round(e: Engine, took: Stage -> Option<real>, s: System, r: nat): seq<Step> {
    if r >= |s.runs| || s.runs[r].job !in s.db.jobs then []
    else
      var run := s.runs[r];
      if !run.phase.AtStage? || run.phase.i >= |STAGES| then []
      else
        var stage := STAGES[run.phase.i];
        if stage in run.resumed then [Skip(r)]
        else
          match ComputeStage(e, s.db.jobs[run.job].request, stage, run.hash, run.separate, DiskOf(s, run.worker))
          case Raised => [Throw(r)]
          case Computed(result, files, disk, separate, _) =>
            [Compute(r, result, files, took(stage), disk, separate),
             Deliver(r, PushCall(stage, result, files, took(stage)), true),
             Receive(r)]
  }

  /** k rounds on from a list of steps. */
  ghost function Script(e: Engine, took: Stage -> Option<real>, steps: seq<Step>, r: nat, k: nat): seq<Step> {
    if k == 0 then []
    else
      var before := Script(e, took, steps, r, k - 1);
      before + Round(e, took, Exec(steps + before), r)
  }

  // ---- where it stands -------------------------------------------------------------------------

  /** The job has the first d stages done and these rows, under this epoch. */
  ghost predicate JobAt(db: Db, j: JobId, d: nat, rows: VideoRows, request: Request, epoch: nat) {
    && j in db.jobs
    && var job := db.jobs[j];
    && job.request == request && job.epoch == epoch && job.done == Below(d)
    && (d == 0 ==> job.hash.None? && job.video.None?)
    && (d > 0 ==> job.hash.Some? && job.video.Some? && job.video.value in db.rows && db.rows[job.video.value] == rows)
  }

  /** The run, claimed with n stages done, is at stage i. */
  ghost predicate RunAt(run: Run, n: nat, i: nat, hash: Option<Hash>, separate: bool) {
    && run.phase == AtStage(i) && run.flight == {} && !run.fenced && run.resumed == Below(n)
    && run.hash == hash && run.separate == separate
  }

  function Later(a: nat, b: nat): nat {
    if a < b then b else a
  }

  ghost predicate Stands(s: System, r: nat, n: nat, i: nat, at: Point, request: Request) {
    && r < |s.runs| && RunAt(s.runs[r], n, i, at.hash, at.separate)
    && JobAt(s.db, s.runs[r].job, Later(i, n), at.rows, request, s.runs[r].epoch)
    && DiskOf(s, s.runs[r].worker) == at.disk
  }

  /** The run has left the stages before the job had them all. */
  ghost predicate Stuck(s: System, r: nat, j: JobId) {
    && r < |s.runs| && s.runs[r].job == j && !s.runs[r].phase.AtStage?
    && j in s.db.jobs && s.db.jobs[j].done != ALL
  }

  /** No other job has the hash of the request. */
  ghost predicate Free(e: Engine, db: Db, j: JobId, request: Request) {
    !HashTaken(db, j, e.hash(e.media(request.path)))
  }

  // ---- one round -------------------------------------------------------------------------------

  lemma SkipRound(e: Engine, took: Stage -> Option<real>, s: System, r: nat, n: nat, i: nat, at: Point, request: Request)
    requires Stands(s, r, n, i, at, request) && i < n <= |STAGES|
    ensures Round(e, took, s, r) == [Skip(r)]
    ensures Stands(Apply(s, Skip(r)), r, n, i + 1, at, request)
    ensures Apply(s, Skip(r)).runs[r].job == s.runs[r].job
  {
    hide ComputeStage;
    assert Index(STAGES[i]) == i;
    assert STAGES[i] in Below(n);
  }

  /** A push that parses, under the epoch of the row, persists and marks, or fails. */
  lemma PushOf(db: Db, j: JobId, stage: Stage, epoch: nat, result: Option<Result>, files: bool, seconds: Option<real>)
    requires Holds(db, j, epoch) && Parses(stage, result)
    requires files && TakesFiles(stage) ==> db.jobs[j].hash.Some?
    requires var kept := PersistStage(db, j, stage, result);
      kept.Some? ==> Holds(kept.value, j, epoch)
    ensures PushStage(db, j, Name(stage), epoch, result, files, seconds) ==
      match PersistStage(db, j, stage, result)
      case None => (db, Error)
      case Some(kept) => (kept.(jobs := kept.jobs[j := Marked(kept.jobs[j], stage, seconds)]), Accepted)
  {
    hide PersistStage, Marked;
    NamedInvertsName(stage);
  }

  /** What a stage computes parses, and files come with a hash. */
  lemma ComputedParses(e: Engine, request: Request, i: nat, at: Point)
    requires i < |STAGES| && Steady(e, request, i, at)
    ensures var outcome := ComputeStage(e, request, STAGES[i], at.hash, at.separate, at.disk);
      outcome.Computed? ==>
        && Parses(STAGES[i], outcome.result)
        && (i == 0 ==> outcome.result == Some(RegisterResult(e.hash(e.media(request.path)), request.hint)))
        && (i == 0 ==> !outcome.files)
  {
    hide Texts, Embeds, Ascending;
  }

  lemma StagePersists(e: Engine, request: Request, i: nat, at: Point, db: Db, j: JobId, epoch: nat, free: bool)
    requires 0 < i < |STAGES| && JobAt(db, j, i, at.rows, request, epoch) && Steady(e, request, i, at)
    requires ComputeStage(e, request, STAGES[i], at.hash, at.separate, at.disk).Computed?
    requires Parses(STAGES[i], ComputeStage(e, request, STAGES[i], at.hash, at.separate, at.disk).result)
    ensures var outcome := ComputeStage(e, request, STAGES[i], at.hash, at.separate, at.disk);
      var next := Advance(e, request, i, at, free);
      PersistStage(db, j, STAGES[i], outcome.result) ==
        if next.None? then None else Some(db.(rows := db.rows[db.jobs[j].video.value := next.value.rows]))
  {
    hide Below, Persisted, Texts, Embeds, Scenes, Ascending;
    var outcome := ComputeStage(e, request, STAGES[i], at.hash, at.separate, at.disk);
    var v := db.jobs[j].video.value;
    assert db.rows[v := db.rows[v]] == db.rows;
    if i <= 2 {
      PlainStage(e, request, i, at, free);
      assert PersistStage(db, j, STAGES[i], outcome.result) == Some(db);
    } else {
      LaterStage(e, request, i, at, free);
      assert PersistStage(db, j, STAGES[i], outcome.result) ==
        match Persisted(at.rows, outcome.result.value)
        case None => None
        case Some(rows) => Some(db.(rows := db.rows[v := rows]));
    }
  }

  lemma PlainStage(e: Engine, request: Request, i: nat, at: Point, free: bool)
    requires 1 <= i <= 2 && ComputeStage(e, request, STAGES[i], at.hash, at.separate, at.disk).Computed?
    ensures var next := Advance(e, request, i, at, free);
      next.Some? && next.value.rows == at.rows
  {
    hide Texts, Embeds, Scenes, Ascending;
  }

  lemma LaterStage(e: Engine, request: Request, i: nat, at: Point, free: bool)
    requires 3 <= i < |STAGES| && ComputeStage(e, request, STAGES[i], at.hash, at.separate, at.disk).Computed?
    ensures var outcome := ComputeStage(e, request, STAGES[i], at.hash, at.separate, at.disk);
      var next := Advance(e, request, i, at, free);
      && outcome.result.Some?
      && next == match Persisted(at.rows, outcome.result.value)
                 case None => None
                 case Some(rows) => Some(Point(at.hash, outcome.separate, outcome.disk, rows))
  {
    hide Persisted, Texts, Embeds, Scenes, Ascending;
  }

  ghost predicate Outcomes(e: Engine, request: Request, i: nat, at: Point, db: Db, j: JobId, epoch: nat, seconds: Option<real>)
    requires i < |STAGES| && ComputeStage(e, request, STAGES[i], at.hash, at.separate, at.disk).Computed?
  {
    var outcome := ComputeStage(e, request, STAGES[i], at.hash, at.separate, at.disk);
    var next := Advance(e, request, i, at, Free(e, db, j, request));
    var (after, reply) := PushStage(db, j, Name(STAGES[i]), epoch, outcome.result, outcome.files, seconds);
    && (next.None? ==> reply == Error && after == db)
    && (next.Some? ==> reply == Accepted && JobAt(after, j, i + 1, next.value.rows, request, epoch))
  }

  /** What a push of the next stage does, by what it computes. */
  lemma PushFollows(e: Engine, request: Request, i: nat, at: Point, db: Db, j: JobId, epoch: nat, seconds: Option<real>)
    requires i < |STAGES| && JobAt(db, j, i, at.rows, request, epoch) && Steady(e, request, i, at)
    requires i == 0 && e.hash(e.media(request.path)) in db.videos ==> !Free(e, db, j, request)
    requires ComputeStage(e, request, STAGES[i], at.hash, at.separate, at.disk).Computed?
    ensures Outcomes(e, request, i, at, db, j, epoch, seconds)
  {
    hide Advance, ComputeStage, PersistStage, PushStage, Steady, Parses;
    ComputedParses(e, request, i, at);
    BelowStep(i);
    var outcome := ComputeStage(e, request, STAGES[i], at.hash, at.separate, at.disk);
    if i == 0 {
      RegisterPersists(e, request, at, db, j);
    } else {
      StagePersists(e, request, i, at, db, j, epoch, Free(e, db, j, request));
    }
    PushOf(db, j, STAGES[i], epoch, outcome.result, outcome.files, seconds);
  }

  lemma RegisterPersists(e: Engine, request: Request, at: Point, db: Db, j: JobId)
    requires j in db.jobs && db.jobs[j].request == request
    requires e.hash(e.media(request.path)) in db.videos ==> !Free(e, db, j, request)
    ensures var hash := e.hash(e.media(request.path));
      var kept := PersistStage(db, j, Register, Some(RegisterResult(hash, request.hint)));
      && (kept.Some? <==> Free(e, db, j, request))
      && (kept.Some? ==>
            && j in kept.value.jobs
            && kept.value.jobs[j] == db.jobs[j].(hash := Some(hash), video := kept.value.jobs[j].video)
            && kept.value.jobs[j].video.Some? && kept.value.jobs[j].video.value in kept.value.rows
            && kept.value.rows[kept.value.jobs[j].video.value] == Fresh(request.hint))
    ensures var next := Advance(e, request, 0, at, Free(e, db, j, request));
      && (next.Some? <==> Free(e, db, j, request))
      && (next.Some? ==> next.value.rows == Fresh(request.hint))
  {
  }

  // ---- its three steps -------------------------------------------------------------------------

  /** The run carries this push and nothing else, with the values it will go on with. */
  ghost predicate Sent(s: System, r: nat, n: nat, i: nat, hash: Option<Hash>, separate: bool, disk: Disk, call: Call) {
    && r < |s.runs|
    && var run := s.runs[r];
    && run.phase == Pushing(i) && run.flight == {call} && !run.fenced && run.resumed == Below(n)
    && run.hash == hash && run.separate == separate && DiskOf(s, run.worker) == disk
  }

  lemma SendsCall(run: Run, n: nat, i: nat, at: Point, step: Step)
    requires RunAt(run, n, i, at.hash, at.separate) && n <= i < |STAGES| && step.Compute?
    ensures CanCompute(run)
    ensures var (after, call) := (Local(run, step), PushCall(STAGES[i], step.result, step.files, step.seconds));
      && after.phase == Pushing(i) && after.flight == {call} && !after.fenced && after.resumed == Below(n)
      && after.separate == step.separate
      && after.hash == (if i == 0 && step.result.Some? && step.result.value.RegisterResult?
                        then Some(step.result.value.hash) else at.hash)
      && after.job == run.job && after.epoch == run.epoch && after.worker == run.worker
  {
    assert Index(STAGES[i]) == i;
    assert STAGES[i] !in Below(n);
    assert STAGES[i] == Register <==> i == 0;
    var call := PushCall(STAGES[i], step.result, step.files, step.seconds);
    assert {} + {call} == {call};
  }

  lemma Sends(s: System, r: nat, n: nat, i: nat, at: Point, request: Request, step: Step)
    requires Stands(s, r, n, i, at, request) && n <= i < |STAGES| && step.Compute? && step.r == r
    ensures var after := Apply(s, step);
      && after.db == s.db && |after.runs| == |s.runs|
      && var hash := if i == 0 && step.result.Some? && step.result.value.RegisterResult?
                     then Some(step.result.value.hash) else at.hash;
      && Sent(after, r, n, i, hash, step.separate, step.disk,
              PushCall(STAGES[i], step.result, step.files, step.seconds))
      && after.runs[r].job == s.runs[r].job && after.runs[r].epoch == s.runs[r].epoch
  {
    hide JobAt, RunAt, Local, CanCompute, Below;
    SendsCall(s.runs[r], n, i, at, step);
  }

  lemma Answers(s: System, r: nat, n: nat, i: nat, hash: Option<Hash>, separate: bool, disk: Disk, call: Call, db: Db, reply: Reply)
    requires Sent(s, r, n, i, hash, separate, disk, call) && i < |STAGES| && call.PushCall? && call.stage == STAGES[i]
    requires Handle(s, s.runs[r], call) == (db, reply)
    ensures var after := Apply(Apply(s, Deliver(r, call, true)), Receive(r));
      && |after.runs| == |s.runs| && after.db == db
      && after.runs[r].job == s.runs[r].job && after.runs[r].epoch == s.runs[r].epoch
      && (reply == Accepted ==> RunAt(after.runs[r], n, i + 1, hash, separate)
                                && DiskOf(after, after.runs[r].worker) == disk)
      && (reply == Error ==> !after.runs[r].phase.AtStage?)
  {
    hide Handle;
    assert {call} - {call} == {};
  }

  lemma AdvanceCarries(e: Engine, request: Request, i: nat, at: Point, free: bool)
    requires i < |STAGES|
    ensures var outcome := ComputeStage(e, request, STAGES[i], at.hash, at.separate, at.disk);
      var next := Advance(e, request, i, at, free);
      next.Some? ==>
        && outcome.Computed?
        && next.value.separate == outcome.separate && next.value.disk == outcome.disk
        && next.value.hash == if i == 0 then Some(e.hash(e.media(request.path))) else at.hash
  {
    hide ComputeStage, Persisted;
  }

  /** The state after a round. */
  ghost function RoundEnd(e: Engine, took: Stage -> Option<real>, s: System, r: nat): System {
    var steps := Round(e, took, s, r);
    if |steps| == 1 then Apply(s, steps[0])
    else if |steps| == 3 then Apply(Apply(Apply(s, steps[0]), steps[1]), steps[2])
    else s
  }

  lemma RoundRuns(e: Engine, took: Stage -> Option<real>, steps: seq<Step>, r: nat)
    ensures Exec(steps + Round(e, took, Exec(steps), r)) == RoundEnd(e, took, Exec(steps), r)
  {
    hide Apply, Exec, ComputeStage;
    var round := Round(e, took, Exec(steps), r);
    if round == [] {
      assert steps + round == steps;
    } else if |round| == 1 {
      ExecOneMore(steps, round);
      assert steps + round[..0] == steps;
    } else {
      assert |round| == 3;
      ExecOneMore(steps, round);
      ExecOneMore(steps, round[..2]);
      ExecOneMore(steps, round[..1]);
      assert round[..2][..1] == round[..1] && steps + round[..1][..0] == steps;
    }
  }

  lemma ComputeRound(e: Engine, took: Stage -> Option<real>, s: System, r: nat, n: nat, i: nat, at: Point, request: Request)
    requires Stands(s, r, n, i, at, request) && n <= i < |STAGES| && Steady(e, request, i, at)
    requires i == 0 && e.hash(e.media(request.path)) in s.db.videos ==> !Free(e, s.db, s.runs[r].job, request)
    ensures var after := RoundEnd(e, took, s, r);
      var next := Advance(e, request, i, at, Free(e, s.db, s.runs[r].job, request));
      && r < |after.runs| && after.runs[r].job == s.runs[r].job
      && (next.Some? ==> Stands(after, r, n, i + 1, next.value, request))
      && (next.None? ==> Stuck(after, r, s.runs[r].job))
  {
    hide Apply, ComputeStage, Advance, Steady, Free, PushStage, Below;
    var (run, stage) := (s.runs[r], STAGES[i]);
    BelowStep(i);
    assert stage !in Below(n) by { NotBelow(n, i); }
    BelowEnds();
    assert s.db.jobs[run.job].done != ALL by { NotBelow(i, i); NotAll(i); }
    AdvanceCarries(e, request, i, at, Free(e, s.db, run.job, request));
    match ComputeStage(e, request, stage, at.hash, at.separate, at.disk)
    case Raised => ThrowEnds(s, r, i);
    case Computed(result, files, disk, separate, _) =>
      var sending := Compute(r, result, files, took(stage), disk, separate);
      var call := PushCall(stage, result, files, took(stage));
      Sends(s, r, n, i, at, request, sending);
      var sent := Apply(s, sending);
      ComputedParses(e, request, i, at);
      PushFollows(e, request, i, at, s.db, run.job, run.epoch, took(stage));
      var (db, reply) := Handle(sent, sent.runs[r], call);
      var hash := if i == 0 then Some(e.hash(e.media(request.path))) else at.hash;
      Answers(sent, r, n, i, hash, separate, disk, call, db, reply);
  }

  lemma NotBelow(n: nat, i: nat)
    requires n <= i < |STAGES|
    ensures STAGES[i] !in Below(n)
  {
    assert Index(STAGES[i]) == i;
  }

  lemma NotAll(i: nat)
    requires i < |STAGES|
    ensures STAGES[i] in ALL
  {
    AllIsAll({STAGES[i]});
  }

  lemma ThrowEnds(s: System, r: nat, i: nat)
    requires r < |s.runs| && s.runs[r].phase == AtStage(i)
    ensures var after := Apply(s, Throw(r));
      && after.db == s.db && |after.runs| == |s.runs|
      && after.runs[r].job == s.runs[r].job && !after.runs[r].phase.AtStage?
  {
  }

  // ---- the whole continuation ------------------------------------------------------------------

  /** Run r has just been claimed with the first n stages done, and its job's rows are the sequential run's. */
  ghost predicate TakenUp(e: Engine, s: System, r: nat, n: nat) {
    && n <= |STAGES| && r < |s.runs| && s.runs[r].job in s.db.jobs
    && var (run, request) := (s.runs[r], s.db.jobs[s.runs[r].job].request);
    var hash := e.hash(e.media(request.path));
    && RunAt(run, n, 0, if n == 0 then None else Some(hash), request.separate)
    && JobAt(s.db, run.job, n, RowsAfter(e, request, Below(n)), request, run.epoch)
    && (n == 0 && hash in s.db.videos ==> !Free(e, s.db, run.job, request))
  }

  /** All stages of the job have landed, with the rows of the sequential run. */
  ghost predicate Sequential(e: Engine, s: System, j: JobId) {
    && j in s.db.jobs
    && var job := s.db.jobs[j];
    && job.done == ALL && job.video.Some? && job.video.value in s.db.rows
    && s.db.rows[job.video.value] == RowsAfter(e, job.request, ALL)
  }

  /** The condition at the claim: what is done, what the worker's disk holds, whether the hash is free. */
  ghost predicate CanContinue(e: Engine, s: System, r: nat, n: nat)
    requires r < |s.runs| && s.runs[r].job in s.db.jobs
  {
    var (run, request) := (s.runs[r], s.db.jobs[s.runs[r].job].request);
    Continues(e, request, n, DiskOf(s, run.worker), Free(e, s.db, run.job, request))
  }

  lemma StartNeeds(e: Engine, s: System, r: nat, n: nat) returns (at: Point)
    requires TakenUp(e, s, r, n)
    ensures var request := s.db.jobs[s.runs[r].job].request;
      && Stands(s, r, n, 0, at, request) && Steady(e, request, n, at)
      && (CanContinue(e, s, r, n) <==> Needs(e, request, n, at, Free(e, s.db, s.runs[r].job, request)))
  {
    hide Free, Transcribes, Shows, Found, RowsAfter;
    var (run, request) := (s.runs[r], s.db.jobs[s.runs[r].job].request);
    at := Point(run.hash, request.separate, DiskOf(s, run.worker), RowsAfter(e, request, Below(n)));
    RowsSoFar(e, request, n);
  }

  lemma RowsSoFar(e: Engine, request: Request, n: nat)
    requires n <= |STAGES|
    ensures Agrees(e, request, n, RowsAfter(e, request, Below(n)))
    ensures 5 <= n <= 7 ==> RowsAfter(e, request, Below(n)).frames == Bare(Planned(e, request))
  {
    hide Below, Texts, Scenes, Srt, Ascending;
    BelowEnds();
    InBelow(n);
    InBelow(|STAGES|);
  }

  lemma FreeMattersAtFirst(e: Engine, request: Request, i: nat, at: Point, a: bool, b: bool)
    requires i > 0
    ensures i < |STAGES| ==> Advance(e, request, i, at, a) == Advance(e, request, i, at, b)
    ensures Needs(e, request, i, at, a) <==> Needs(e, request, i, at, b)
  {
    hide ComputeStage, Persisted, Transcribes, Shows, Agrees;
  }

  lemma StuckStays(e: Engine, took: Stage -> Option<real>, s: System, r: nat, j: JobId)
    requires Stuck(s, r, j)
    ensures RoundEnd(e, took, s, r) == s
  {
    hide ComputeStage, Apply;
  }

  /** One more round: alive with an equivalent need, or stuck with a need that is not met. */
  lemma OneRound(e: Engine, took: Stage -> Option<real>, s: System, r: nat, n: nat, k: nat, at: Point, request: Request)
    returns (alive: bool, next: Point)
    requires k < |STAGES| && n <= |STAGES| && Stands(s, r, n, k, at, request) && Steady(e, request, Later(k, n), at)
    requires Later(k, n) == 0 && e.hash(e.media(request.path)) in s.db.videos ==> !Free(e, s.db, s.runs[r].job, request)
    ensures var after := RoundEnd(e, took, s, r);
      var free := Free(e, s.db, s.runs[r].job, request);
      && r < |after.runs| && after.runs[r].job == s.runs[r].job
      && (alive ==>
            && Stands(after, r, n, k + 1, next, request) && Steady(e, request, Later(k + 1, n), next)
            && (Needs(e, request, Later(k, n), at, free) <==> Needs(e, request, Later(k + 1, n), next, free)))
      && (!alive ==> Stuck(after, r, s.runs[r].job) && !Needs(e, request, Later(k, n), at, free))
  {
    hide Stands, Stuck, Steady, Needs, Free, Advance, ComputeStage, Apply, Round;
    HasRun(s, r, n, k, at, request);
    if k < n {
      SkipRound(e, took, s, r, n, k, at, request);
      alive, next := true, at;
      HasRun(Apply(s, Skip(r)), r, n, k + 1, at, request);
    } else {
      var free := Free(e, s.db, s.runs[r].job, request);
      ComputeRound(e, took, s, r, n, k, at, request);
      EveryStage(e, request, k, at, free);
      var onward := Advance(e, request, k, at, free);
      alive := onward.Some?;
      next := if onward.Some? then onward.value else at;
    }
  }

  lemma HasRun(s: System, r: nat, n: nat, i: nat, at: Point, request: Request)
    requires Stands(s, r, n, i, at, request)
    ensures r < |s.runs| && s.runs[r].job in s.db.jobs
  {
  }

  /** k rounds on. */
  ghost predicate Progressed(e: Engine, start: System, s: System, r: nat, n: nat, k: nat, alive: bool, at: Point)
    requires r < |start.runs| && start.runs[r].job in start.db.jobs
  {
    var (j, request) := (start.runs[r].job, start.db.jobs[start.runs[r].job].request);
    && r < |s.runs| && s.runs[r].job == j
    && (alive ==>
          && Stands(s, r, n, k, at, request) && Steady(e, request, Later(k, n), at)
          && (CanContinue(e, start, r, n) <==> Needs(e, request, Later(k, n), at, Free(e, start.db, j, request))))
    && (!alive ==> Stuck(s, r, j) && !CanContinue(e, start, r, n))
    && (k == 0 ==> s == start)
  }

  lemma ProgressOn(e: Engine, took: Stage -> Option<real>, start: System, s: System, r: nat, n: nat, k: nat, was: Point)
    returns (alive: bool, at: Point)
    requires TakenUp(e, start, r, n) && k < |STAGES| && Progressed(e, start, s, r, n, k, true, was)
    ensures Progressed(e, start, RoundEnd(e, took, s, r), r, n, k + 1, alive, at)
  {
    hide Stands, Stuck, Steady, Needs, Free, CanContinue, RoundEnd, JobAt, RunAt;
    var (j, request) := (start.runs[r].job, start.db.jobs[start.runs[r].job].request);
    HasRun(s, r, n, k, was, request);
    alive, at := OneRound(e, took, s, r, n, k, was, request);
    var (a, b) := (Free(e, s.db, j, request), Free(e, start.db, j, request));
    if Later(k, n) > 0 { FreeMattersAtFirst(e, request, Later(k, n), was, a, b); }
    FreeMattersAtFirst(e, request, Later(k + 1, n), at, a, b);
  }

  lemma StuckOn(e: Engine, took: Stage -> Option<real>, start: System, s: System, r: nat, n: nat, k: nat, at: Point)
    requires r < |start.runs| && start.runs[r].job in start.db.jobs && Progressed(e, start, s, r, n, k, false, at)
    ensures Progressed(e, start, RoundEnd(e, took, s, r), r, n, k + 1, false, at)
  {
    hide Stands, Stuck, CanContinue, RoundEnd;
    StuckStays(e, took, s, r, start.runs[r].job);
  }

  lemma IsTaken(e: Engine, s: System, r: nat, n: nat)
    requires TakenUp(e, s, r, n)
    ensures r < |s.runs| && s.runs[r].job in s.db.jobs
  {
  }

  lemma ProgressStarts(e: Engine, start: System, r: nat, n: nat) returns (at: Point)
    requires TakenUp(e, start, r, n)
    ensures Progressed(e, start, start, r, n, 0, true, at)
  {
    hide Stands, Stuck, Steady, Needs, Free, CanContinue, JobAt, RunAt;
    at := StartNeeds(e, start, r, n);
  }

  lemma {:induction false} Progress(e: Engine, took: Stage -> Option<real>, steps: seq<Step>, r: nat, n: nat, k: nat)
    returns (alive: bool, at: Point)
    requires TakenUp(e, Exec(steps), r, n) && k <= |STAGES|
    ensures Progressed(e, Exec(steps), Exec(steps + Script(e, took, steps, r, k)), r, n, k, alive, at)
  {
    hide Exec, Progressed, Round, RoundEnd, TakenUp;
    var start := Exec(steps);
    IsTaken(e, start, r, n);
    if k == 0 {
      assert steps + Script(e, took, steps, r, 0) == steps;
      at := ProgressStarts(e, start, r, n);
      alive := true;
    } else {
      var before := Script(e, took, steps, r, k - 1);
      var s := Exec(steps + before);
      alive, at := Progress(e, took, steps, r, n, k - 1);
      RoundRuns(e, took, steps + before, r);
      assert steps + (before + Round(e, took, s, r)) == steps + before + Round(e, took, s, r);
      if alive {
        alive, at := ProgressOn(e, took, start, s, r, n, k - 1, at);
      } else {
        StuckOn(e, took, start, s, r, n, k - 1, at);
      }
    }
  }

  /**
   * From any claim whose rows are the sequential run's so far, the run left alone lands all stages with the rows
   * of the sequential run exactly when, at the claim, the disk can continue: the cues that the transcript on the
   * way yields are the sequential ones and not empty, no planned frame is missing, and frames outside the plan
   * have no text and do not change the scenes. For a first claim, the hash must also be no other job's.
   */
  lemma LandsTheSequentialRowsIff(e: Engine, took: Stage -> Option<real>, steps: seq<Step>, r: nat, n: nat)
    requires TakenUp(e, Exec(steps), r, n)
    ensures var s := Exec(steps + Script(e, took, steps, r, |STAGES|));
      var j := Exec(steps).runs[r].job;
      && (Sequential(e, s, j) <==> CanContinue(e, Exec(steps), r, n))
      && (Sequential(e, s, j) ==>
            && r < |s.runs| && s.runs[r].job == j
            && s.runs[r].phase == AtStage(|STAGES|) && s.runs[r].epoch == s.db.jobs[j].epoch)
  {
    hide Exec, Script, CanContinue, Free, RowsAfter;
    var alive, at := Progress(e, took, steps, r, n, |STAGES|);
    if alive {
      BelowEnds();
      var (start, j) := (Exec(steps), Exec(steps).runs[r].job);
      NothingLeft(e, start.db.jobs[j].request, at, Free(e, start.db, j, start.db.jobs[j].request));
    }
  }

  lemma NothingLeft(e: Engine, request: Request, at: Point, free: bool)
    ensures Needs(e, request, |STAGES|, at, free) <==> at.rows == RowsAfter(e, request, ALL)
  {
    hide RowsAfter;
  }

  // ---- claims that are taken up ----------------------------------------------------------------

  /** Every claim of an honest run starts where the theorem starts, whatever disk its worker has. */
  lemma ClaimsAreTakenUp(e: Engine, steps: seq<Step>, worker: nat, lease: int, locked: set<JobId>)
    requires Resume.HonestRun(e, steps) && NoCollisions(e)
    requires !Busy(Exec(steps), worker) && Claim(Exec(steps).db, Exec(steps).now, lease, locked).1.Some?
    ensures exists n :: TakenUp(e, Exec(steps + [TakeJob(worker, lease, locked)]), |Exec(steps).runs|, n)
  {
    hide Exec, Resume.Honest, Resume.HonestRun, Inv, RowsAfter, TakenUp, Below;
    var s := Exec(steps);
    var take := TakeJob(worker, lease, locked);
    var j := Claim(s.db, s.now, lease, locked).1.value;
    ExecOneMore(steps, [take]);
    assert steps + [take][..0] == steps;
    Resume.HonestRunsStayHonest(e, steps);
    Invariant.Invariant(steps);
    var n := HonestRow(e, s, j);
    TakesUp(e, s, worker, lease, locked, j, n);
  }

  lemma HonestRow(e: Engine, s: System, j: JobId) returns (n: nat)
    requires Inv(s) && Resume.Honest(e, s) && j in s.db.jobs
    ensures n <= |STAGES|
    ensures var (job, h) := (s.db.jobs[j], e.hash(e.media(s.db.jobs[j].request.path)));
      && JobAt(s.db, j, n, RowsAfter(e, job.request, Below(n)), job.request, job.epoch)
      && job.hash == (if n == 0 then None else Some(h))
      && (n == 0 && h in s.db.videos ==> !Free(e, s.db, j, job.request))
  {
    hide RowsAfter, RunOk, Budget, Flow, Shape, Resume.RunHonest, Resume.OnlyPlanned;
    RowIsOk(s, j);
    assert Resume.RowsHonest(e, s.db, j);
    var job := s.db.jobs[j];
    n :| n <= |STAGES| && job.done == Below(n);
    assert Index(Register) == 0;
    assert n > 0 <==> Register in Below(n);
  }

  lemma TakesUp(e: Engine, s: System, worker: nat, lease: int, locked: set<JobId>, j: JobId, n: nat)
    requires !Busy(s, worker) && Claim(s.db, s.now, lease, locked).1 == Some(j) && j in s.db.jobs && n <= |STAGES|
    requires var (job, h) := (s.db.jobs[j], e.hash(e.media(s.db.jobs[j].request.path)));
      && JobAt(s.db, j, n, RowsAfter(e, job.request, Below(n)), job.request, job.epoch)
      && job.hash == (if n == 0 then None else Some(h))
      && (n == 0 && h in s.db.videos ==> !Free(e, s.db, j, job.request))
    ensures TakenUp(e, Apply(s, TakeJob(worker, lease, locked)), |s.runs|, n)
  {
    hide RowsAfter, Below;
    var after := Apply(s, TakeJob(worker, lease, locked));
    assert after.db.jobs.Keys == s.db.jobs.Keys;
    assert forall k | k in s.db.jobs :: after.db.jobs[k].hash == s.db.jobs[k].hash;
  }

  /** The condition under which runs were shown to stay honest suffices, given the files a stage needs; it asks
      for the transcript file itself where the exact one asks for its cues. */
  lemma ResumableContinues(e: Engine, disk: Disk, job: Job, n: nat, free: bool)
    requires n <= |STAGES| && job.done == Below(n) && (n == 0 ==> free)
    requires var (media, dir) := (e.media(job.request.path), Dir(disk, e.hash(e.media(job.request.path))));
      && dir.frames <= e.plan(media) && Provided(n, dir)
      && (n <= 3 ==> e.cues(Srt(e, job.request)) != [])
    requires Resume.Resumable(e, disk, job)
    ensures Continues(e, job.request, n, disk, free)
  {
    hide Shows;
    forall k: nat | k < |STAGES| ensures STAGES[k] in Below(n) <==> k < n { assert Index(STAGES[k]) == k; }
    assert STAGES[1] == LocateMedia && STAGES[2] == Transcribe && STAGES[3] == ParseTranscript
      && STAGES[4] == Frames && STAGES[7] == ImageEmbed;
    PlannedFramesSuffice(e, job.request, n, disk, free);
  }

  // ---- honest runs there are -------------------------------------------------------------------

  lemma HonestOneMore(e: Engine, steps: seq<Step>, step: Step)
    requires Resume.HonestRun(e, steps) && Resume.HonestStep(e, Exec(steps), step)
    ensures Resume.HonestRun(e, steps + [step])
  {
    hide Exec, Resume.HonestStep;
    var all := steps + [step];
    assert all[..|all| - 1] == steps && all[|all| - 1] == step;
  }

  lemma RoundIsHonest(e: Engine, took: Stage -> Option<real>, s: System, r: nat)
    ensures var round := Round(e, took, s, r);
      && (round != [] ==> Resume.HonestStep(e, s, round[0]))
      && forall i | 0 < i < |round| :: round[i].Deliver? || round[i].Receive?
  {
    hide ComputeStage;
  }

  lemma AnswersAreHonest(e: Engine, s: System, step: Step)
    requires !step.TakeJob? && !step.Compute? && !step.Scribble?
    ensures Resume.HonestStep(e, s, step)
  {
  }

  /** A run left alone is honest: it computes what the tools compute, and nothing else is asked of it. */
  lemma {:induction false} ScriptIsHonest(e: Engine, took: Stage -> Option<real>, steps: seq<Step>, r: nat, k: nat)
    requires Resume.HonestRun(e, steps)
    ensures Resume.HonestRun(e, steps + Script(e, took, steps, r, k))
  {
    hide Exec, Round, Resume.HonestStep, Resume.HonestRun;
    if k == 0 {
      assert steps + [] == steps;
    } else {
      var before := Script(e, took, steps, r, k - 1);
      ScriptIsHonest(e, took, steps, r, k - 1);
      var round := Round(e, took, Exec(steps + before), r);
      RoundIsHonest(e, took, Exec(steps + before), r);
      assert steps + before + round[..0] == steps + before;
      for i := 0 to |round|
        invariant Resume.HonestRun(e, steps + before + round[..i])
      {
        if i > 0 {
          AnswersAreHonest(e, Exec(steps + before + round[..i]), round[i]);
        }
        HonestOneMore(e, steps + before + round[..i], round[i]);
        assert steps + before + round[..i] + [round[i]] == steps + before + round[..i + 1];
      }
      assert steps + before + round[..|round|] == steps + (before + round);
    }
  }

  /** Any worker may honestly take a job that has nothing done, and one whose disk is as an uninterrupted run leaves it. */
  lemma FreshJobsAreResumable(e: Engine, disk: Disk, job: Job)
    ensures job.done == {} ==> Resume.Resumable(e, disk, job)
    ensures var (request, media) := (job.request, e.media(job.request.path));
      (request.separate == Separate(e, request.title, request.separate)
       && Dir(disk, e.hash(media)) == Artifacts(true, Some(Srt(e, request)), e.plan(media)))
      ==> Resume.Resumable(e, disk, job)
  {
  }
}
