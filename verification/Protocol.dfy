/** The distributed ingestion protocol as a step system: one coordinator, any number of worker runs
    ("sessions"), requests in flight that may be late or lost, replies that may be lost, crashes,
    and a clock. A step that is not enabled changes nothing, so every list of steps is a run. */
module Protocol {
  import opened Basics
  import opened Stages
  import opened Rows
  import opened Lease
  import opened Session

  datatype Call =
    | PushCall(stage: Stage, result: Option<Result>, files: bool, seconds: Option<real>)
    | BeatCall
    | CompleteCall
    | FailCall

  /** Artifacts below one worker's media root for one video (src/kanomori/ingest/artifacts.py). */
  datatype Artifacts = Artifacts(audio: bool, srt: Option<string>, frames: set<Ms>)

  type Disk = map<Hash, Artifacts>

  /** One claim handed out and the worker run that serves it. `renewed` and `failed` only record
      history: when the coordinator last set this lease, and whether it accepted the run's fail. */
  datatype Run = Run(
    worker: nat,
    job: JobId,
    epoch: nat,
    lease: int,
    resumed: set<Stage>,
    hash: Option<Hash>,
    separate: bool,
    phase: Phase,
    answer: Option<Reply>,
    flight: set<Call>,
    fenced: bool,
    failed: bool,
    renewed: real)

  /** Is the run computing or pushing a stage? Its heartbeats go out then. */
  predicate Live(run: Run) {
    run.phase.AtStage? || run.phase.Pushing?
  }

  /** What happened to a job so far: the run of its last claim, and reclaims of a lapsed lease. */
  datatype Past = Past(holder: nat, reclaims: nat)

  datatype System = System(
    db: Db,
    now: real,
    runs: seq<Run>,
    past: map<JobId, Past>,
    disks: map<nat, Disk>)

  const START := System(EMPTY, 0.0, [], map[], map[])

  datatype Step =
    | Submit(request: Request)
    | Tick(elapsed: real)
    | TakeJob(worker: nat, lease: int, locked: set<JobId>)
    | Skip(r: nat)
    | Scribble(r: nat, disk: Disk)                  // a compute in progress writes artifacts
    | Compute(r: nat, result: Option<Result>, files: bool, seconds: Option<real>, disk: Disk, separate: bool)
    | StopFenced(r: nat)
    | StartBeats(r: nat)                            // the heartbeat thread starts to wait
    | SendBeat(r: nat)
    | EndBeat(r: nat)                               // its call is over, answered or not
    | AskComplete(r: nat)
    | Throw(r: nat)
    | Deliver(r: nat, call: Call, replied: bool)    // the coordinator handles a request
    | Lose(r: nat, call: Call)
    | Receive(r: nat)                               // the reply to the push or complete arrives
    | GiveUp(r: nat)                                // the fail report is over
    | Crash(r: nat)

  ghost predicate Busy(s: System, worker: nat) {
    exists r | 0 <= r < |s.runs| :: s.runs[r].worker == worker && s.runs[r].phase != Finished
  }

  function DiskOf(s: System, worker: nat): Disk {
    if worker in s.disks then s.disks[worker] else map[]
  }

  ghost function Apply(s: System, step: Step): System {
    match step
    case Submit(request) =>
      s.(db := Enqueue(s.db, request), past := s.past[s.db.nextJob := Past(0, 0)])
    case Tick(elapsed) => if elapsed > 0.0 then s.(now := s.now + elapsed) else s
    case TakeJob(worker, lease, locked) => if Busy(s, worker) then s else Taken(s, worker, lease, locked)
    case Deliver(r, call, replied) =>
      if r < |s.runs| && call in s.runs[r].flight then Delivered(s, r, call, replied) else s
    case Scribble(r, disk) =>
      if r < |s.runs| && s.runs[r].phase.AtStage? then s.(disks := s.disks[s.runs[r].worker := disk]) else s
    case Compute(r, _, _, _, disk, _) =>
      if r < |s.runs| && CanCompute(s.runs[r])
      then s.(runs := s.runs[r := Local(s.runs[r], step)], disks := s.disks[s.runs[r].worker := disk])
      else s
    case _ => if step.r < |s.runs| then s.(runs := s.runs[step.r := Local(s.runs[step.r], step)]) else s
  }

  /** POST /jobs/claim; a lost reply is a run that never moves. */
  function Taken(s: System, worker: nat, lease: int, locked: set<JobId>): System {
    var (db, found) := Claim(s.db, s.now, lease, locked);
    match found
    case None => s
    case Some(j) =>
      var job := s.db.jobs[j];
      var run := Run(worker, j, job.epoch + 1, lease, job.done, job.hash, job.request.separate,
                     AtStage(0), None, {}, false, false, s.now);
      var reclaims := (if j in s.past then s.past[j].reclaims else 0)
        + (if Lapsed(job, s.now) then 1 else 0);
      s.(db := db, runs := s.runs + [run], past := s.past[j := Past(|s.runs|, reclaims)])
  }

  predicate CanCompute(run: Run) {
    Next(run.phase, run.resumed, SendPush).Some? && !run.fenced
  }

  /** The steps inside one worker. */
  function Local(run: Run, step: Step): Run {
    match step
    case Skip(_) => Moved(run, ResumeSkip)
    case Compute(_, result, files, seconds, _, separate) =>
      if CanCompute(run) then
        var stage := STAGES[run.phase.i];
        var hash := if stage == Register && result.Some? && result.value.RegisterResult?
                    then Some(result.value.hash) else run.hash;
        Moved(run, SendPush).(flight := run.flight + {PushCall(stage, result, files, seconds)},
                              answer := None, hash := hash, separate := separate)
      else run
    case StopFenced(_) => if run.fenced then Moved(run, Stop) else run
    case SendBeat(_) =>
      if run.phase.AtStage? || run.phase.Pushing? then run.(flight := run.flight + {BeatCall}) else run
    case AskComplete(_) =>
      if Next(run.phase, run.resumed, SendComplete).Some?
      then Moved(run, SendComplete).(flight := run.flight + {CompleteCall}, answer := None)
      else run
    case Throw(_) => Raised(run)
    case Receive(_) =>
      if run.answer == Some(Error) then Raised(run)
      else if run.answer.Some? then Moved(run, Answer(run.answer.value))
      else run
    case GiveUp(_) => Moved(run, Reported)
    case Lose(_, call) => run.(flight := run.flight - {call})
    case Crash(_) => run.(phase := Finished)
    case _ => run
  }

  function Moved(run: Run, event: Event): Run {
    match Next(run.phase, run.resumed, event)
    case None => run
    case Some(phase) => run.(phase := phase)
  }

  function Raised(run: Run): Run {
    if Next(run.phase, run.resumed, Raise).Some?
    then Moved(run, Raise).(flight := run.flight + {FailCall})
    else run
  }

  function Handle(s: System, run: Run, call: Call): (Db, Reply) {
    match call
    case PushCall(stage, result, files, seconds) =>
      PushStage(s.db, run.job, Name(stage), run.epoch, result, files, seconds)
    case BeatCall => Heartbeat(s.db, s.now, run.job, run.epoch, run.lease)
    case CompleteCall => Finish(s.db, run.job, run.epoch)
    case FailCall => Lease.Fail(s.db, run.job, run.epoch)
  }

  /** Is this the reply the run is waiting for? */
  predicate Awaits(run: Run, call: Call) {
    match call
    case PushCall(stage, _, _, _) => run.phase.Pushing? && run.phase.i < |STAGES| && STAGES[run.phase.i] == stage
    case CompleteCall => run.phase.Completing?
    case _ => false
  }

  function Delivered(s: System, r: nat, call: Call, replied: bool): System
    requires r < |s.runs|
  {
    var run := s.runs[r];
    var (db, reply) := Handle(s, run, call);
    var sent := run.(flight := run.flight - {call});
    var told :=
      if call == BeatCall then
        sent.(renewed := if reply == Accepted then s.now else run.renewed,
              fenced := run.fenced || (replied && reply == Stale))
      else if call == FailCall then sent.(failed := run.failed || reply == Accepted)
      else if replied && Awaits(run, call) then sent.(answer := Some(reply))
      else sent;
    s.(db := db, runs := s.runs[r := told])
  }

  ghost function Exec(steps: seq<Step>): System {
    if steps == [] then START else Apply(Exec(steps[..|steps| - 1]), steps[|steps| - 1])
  }

  lemma ExecLast(steps: seq<Step>)
    requires steps != []
    ensures Exec(steps) == Apply(Exec(steps[..|steps| - 1]), steps[|steps| - 1])
  {
    hide Apply;
  }

  lemma ExecOneMore(steps: seq<Step>, more: seq<Step>)
    requires more != []
    ensures Exec(steps + more) == Apply(Exec(steps + more[..|more| - 1]), more[|more| - 1])
  {
    hide *;
    var all := steps + more;
    assert all[..|all| - 1] == steps + more[..|more| - 1] && all[|all| - 1] == more[|more| - 1];
    ExecLast(all);
  }
}
