/** The coordinator's transactions as functions on the database (ingest/lease.py, api/jobs.py,
    stages/register.py). A transaction that rolls back returns the database it was given. */
module Lease {
  import opened Basics
  import opened Stages
  import opened Rows
  import TimeCosts

  const MAX_ATTEMPTS: nat := 3

  type JobId = nat

  datatype Status = Queued | Running | Failed | Complete

  /** The enqueued payload; a missing title is the empty one. */
  datatype Request = Request(path: string, title: string, separate: bool, language: string, hint: Option<string>)

  datatype Job = Job(
    request: Request,
    status: Status,
    epoch: nat,
    expires: Option<real>,
    attempts: nat,
    done: set<Stage>,
    costs: seq<TimeCosts.Item>,
    hash: Option<Hash>,
    video: Option<VideoId>)

  datatype Db = Db(
    jobs: map<JobId, Job>,
    nextJob: JobId,
    videos: map<Hash, VideoId>,
    rows: map<VideoId, VideoRows>,
    nextVideo: VideoId)

  const EMPTY := Db(map[], 1, map[], map[], 1)

  /** HTTP 200, HTTP 409, and any other failure. */
  datatype Reply = Accepted | Stale | Error

  function Enqueue(db: Db, request: Request): Db {
    var job := Job(request, Queued, 0, None, 0, {}, [], None, None);
    db.(jobs := db.jobs[db.nextJob := job], nextJob := db.nextJob + 1)
  }

  predicate Lapsed(job: Job, now: real) {
    job.status == Running && job.expires.Some? && job.expires.value < now
  }

  predicate Eligible(job: Job, now: real) {
    || job.status == Queued
    || Lapsed(job, now)
    || (job.status == Failed && job.attempts < MAX_ATTEMPTS)
  }

  predicate Claimable(jobs: map<JobId, Job>, now: real, locked: set<JobId>, j: JobId) {
    j in jobs && Eligible(jobs[j], now) && j !in locked
  }

  /** ORDER BY id ... SKIP LOCKED LIMIT 1, looking at the ids from `from` to `end`. */
  function Oldest(jobs: map<JobId, Job>, now: real, locked: set<JobId>, from: JobId, end: JobId): (found: Option<JobId>)
    ensures found.Some? ==> from <= found.value < end && Claimable(jobs, now, locked, found.value)
    ensures forall k | from <= k < end && Claimable(jobs, now, locked, k) :: found.Some? && found.value <= k
    decreases end - from
  {
    if from >= end then None
    else if Claimable(jobs, now, locked, from) then Some(from)
    else Oldest(jobs, now, locked, from + 1, end)
  }

  function Leased(job: Job, now: real, lease: int): Job {
    job.(status := Running, epoch := job.epoch + 1, expires := Some(now + lease as real))
  }

  function Claim(db: Db, now: real, lease: int, locked: set<JobId>): (Db, Option<JobId>) {
    match Oldest(db.jobs, now, locked, 0, db.nextJob)
    case None => (db, None)
    case Some(j) => (db.(jobs := db.jobs[j := Leased(db.jobs[j], now, lease)]), Some(j))
  }

  /** The fence: the row is there and still carries the caller's epoch. */
  predicate Holds(db: Db, j: JobId, epoch: nat) {
    j in db.jobs && db.jobs[j].epoch == epoch
  }

  function Heartbeat(db: Db, now: real, j: JobId, epoch: nat, lease: int): (Db, Reply) {
    if Holds(db, j, epoch)
    then (db.(jobs := db.jobs[j := db.jobs[j].(expires := Some(now + lease as real))]), Accepted)
    else (db, Stale)
  }

  function Finish(db: Db, j: JobId, epoch: nat): (Db, Reply) {
    if Holds(db, j, epoch)
    then (db.(jobs := db.jobs[j := db.jobs[j].(status := Complete)]), Accepted)
    else (db, Stale)
  }

  function Fail(db: Db, j: JobId, epoch: nat): (Db, Reply) {
    if Holds(db, j, epoch)
    then
      var job := db.jobs[j];
      (db.(jobs := db.jobs[j := job.(status := Failed, attempts := job.attempts + 1)]), Accepted)
    else (db, Stale)
  }

  function Marked(job: Job, stage: Stage, seconds: Option<real>): Job {
    var costs := if seconds.Some? then TimeCosts.Merge(job.costs, Name(stage), seconds.value) else job.costs;
    job.(done := job.done + {stage}, costs := costs)
  }

  function MarkStageDone(db: Db, j: JobId, epoch: nat, stage: Stage, seconds: Option<real>): (Db, Reply) {
    if Holds(db, j, epoch)
    then (db.(jobs := db.jobs[j := Marked(db.jobs[j], stage, seconds)]), Accepted)
    else (db, Stale)
  }

  /** INSERT INTO videos ... ON CONFLICT: the row of this hash, made if there is none. */
  function VideoFor(db: Db, hash: Hash, hint: Option<string>): (Db, VideoId) {
    if hash in db.videos then (db, db.videos[hash])
    else
      (db.(videos := db.videos[hash := db.nextVideo],
           rows := db.rows[db.nextVideo := Fresh(hint)],
           nextVideo := db.nextVideo + 1), db.nextVideo)
  }

  predicate HashTaken(db: Db, j: JobId, hash: Hash) {
    exists k | k in db.jobs :: k != j && db.jobs[k].hash == Some(hash)
  }

  /** register on the job_id path: reconcile the job's own row, or hit UNIQUE(content_hash). */
  function Registered(db: Db, j: JobId, hash: Hash, hint: Option<string>): Option<Db>
    requires j in db.jobs
  {
    if HashTaken(db, j, hash) then None
    else
      var (with, v) := VideoFor(db, hash, hint);
      Some(with.(jobs := with.jobs[j := with.jobs[j].(hash := Some(hash), video := Some(v))]))
  }

  /** The row holding a hash, if any. */
  predicate HasHash(db: Db, hash: Hash) {
    exists k | k in db.jobs :: db.jobs[k].hash == Some(hash)
  }

  /** register without a job id: INSERT a running job, or ON CONFLICT (content_hash) update its video. */
  function RegisteredAlone(db: Db, request: Request, hash: Hash, hint: Option<string>): Db {
    var (with, v) := VideoFor(db, hash, hint);
    if HasHash(db, hash)
    then
      with.(jobs := map k | k in with.jobs ::
        if with.jobs[k].hash == Some(hash) then with.jobs[k].(video := Some(v)) else with.jobs[k])
    else
      var job := Job(request, Running, 0, None, 0, {}, [], Some(hash), Some(v));
      with.(jobs := with.jobs[with.nextJob := job], nextJob := with.nextJob + 1)
  }

  /** With a NULL video_id an INSERT breaks NOT NULL, and DELETE and UPDATE match no row. */
  predicate Inserts(result: Result) {
    match result
    case TranscriptResult(cues) => cues != []
    case FramesResult(frames) => frames != []
    case OcrResult(texts) => texts != []
    case ClassifyResult(spans, _) => spans != []
    case _ => false
  }

  function PersistStage(db: Db, j: JobId, stage: Stage, result: Option<Result>): Option<Db>
    requires j in db.jobs && Parses(stage, result)
  {
    match stage
    case Register => Registered(db, j, result.value.hash, result.value.hint)
    case LocateMedia => Some(db)
    case Transcribe => Some(db)
    case _ =>
      match db.jobs[j].video
      case None => if Inserts(result.value) then None else Some(db)
      case Some(v) =>
        if v !in db.rows then None
        else
          match Persisted(db.rows[v], result.value)
          case None => None
          case Some(rows) => Some(db.(rows := db.rows[v := rows]))
  }

  predicate TakesFiles(stage: Stage) {
    stage == Transcribe || stage == Frames
  }

  /** POST /jobs/{id}/stage/{name}: fence, parse, save files, persist and mark, or nothing at all. */
  function PushStage(db: Db, j: JobId, name: string, epoch: nat,
                     result: Option<Result>, files: bool, seconds: Option<real>): (Db, Reply)
  {
    match Named(name)
    case None => (db, Error)
    case Some(stage) =>
      if j !in db.jobs then (db, Error)
      else if db.jobs[j].epoch != epoch then (db, Stale)
      else if !Parses(stage, result) then (db, Error)
      else if files && TakesFiles(stage) && db.jobs[j].hash.None? then (db, Stale)
      else
        match PersistStage(db, j, stage, result)
        case None => (db, Error)
        case Some(kept) =>
          // persist_stage leaves every epoch alone, so the second fence cannot fail
          MarkStageDone(kept, j, epoch, stage, seconds)
  }

  /** Stale and failed requests leave the whole database as it was. */
  lemma RefusedPushChangesNothing(db: Db, j: JobId, name: string, epoch: nat,
                                  result: Option<Result>, files: bool, seconds: Option<real>)
    ensures var (after, reply) := PushStage(db, j, name, epoch, result, files, seconds);
      && (reply != Accepted ==> after == db)
      && (reply == Accepted ==> Holds(db, j, epoch) && Named(name).Some?)
  {
  }
}
