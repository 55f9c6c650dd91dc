/** What the coordinator answers to a push, and to media registered without a job (src/kanomori/api/jobs.py). */
module PushLaws {
  import opened Basics
  import opened Stages
  import opened Rows
  import opened Lease

  /** The push fences on the epoch first, and has files only where the identity is known. */
  ghost predicate IsStale(db: Db, j: JobId, stage: Stage, epoch: nat, result: Option<Result>, files: bool) {
    && j in db.jobs
    && (db.jobs[j].epoch != epoch
        || (Parses(stage, result) && files && stage in {Transcribe, Frames} && db.jobs[j].hash.None?))
  }

  /** A push answers 409 exactly for another epoch, or for files of a job whose media is not known yet; a name that is
      no stage, a job that is not there and a result that does not parse are errors. */
  lemma PushIsStaleIff(
    db: Db, j: JobId, name: string, epoch: nat, result: Option<Result>, files: bool, seconds: Option<real>)
    ensures var reply := PushStage(db, j, name, epoch, result, files, seconds).1;
      && (reply == Stale <==> Named(name).Some? && IsStale(db, j, Named(name).value, epoch, result, files))
      && (Named(name).None? || j !in db.jobs ==> reply == Error)
      && (Named(name).Some? && !Parses(Named(name).value, result) ==> reply != Accepted)
  {
    hide Persisted, Named;
    if Named(name).Some? && j in db.jobs && db.jobs[j].epoch == epoch && Parses(Named(name).value, result) {
      PersistKeepsEpochs(db, j, Named(name).value, result);
    }
  }

  lemma PersistKeepsEpochs(db: Db, j: JobId, stage: Stage, result: Option<Result>)
    requires j in db.jobs && Parses(stage, result)
    ensures var kept := PersistStage(db, j, stage, result);
      kept.Some? ==> j in kept.value.jobs && kept.value.jobs[j].epoch == db.jobs[j].epoch
  {
    hide Persisted;
  }

  /** Without a video there is nowhere to put rows: the transcript, frames, texts and scenes of an unregistered job are
      refused unless they are empty, embeddings update nothing. */
  lemma NothingLandsWithoutAVideo(db: Db, j: JobId, stage: Stage, result: Option<Result>)
    requires j in db.jobs && db.jobs[j].video.None? && Parses(stage, result)
    requires stage !in {Register, LocateMedia, Transcribe}
    ensures var kept := PersistStage(db, j, stage, result);
      && (kept.Some? ==> kept.value == db)
      && (kept.Some? <==>
            match result.value
            case TranscriptResult(cues) => cues == []
            case FramesResult(frames) => frames == []
            case OcrResult(texts) => texts == []
            case ClassifyResult(spans, _) => spans == []
            case _ => true)
  {
  }

  /** Media registered without a job has a row that is running without a lease, so no claim ever takes it. */
  lemma AloneIsNeverClaimed(db: Db, request: Request, hash: Hash, hint: Option<string>, now: real)
    requires !HasHash(db, hash) && db.nextJob !in db.jobs
    ensures var after := RegisteredAlone(db, request, hash, hint);
      && after.jobs.Keys == db.jobs.Keys + {db.nextJob}
      && var job := after.jobs[db.nextJob];
      && job.request == request && job.hash == Some(hash) && job.video.Some? && job.done == {} && job.costs == []
      && job.status == Running && job.epoch == 0 && job.attempts == 0 && !Eligible(job, now)
  {
  }

  /** Registering known media without a job points its row to its video and changes nothing else of any row. */
  lemma AloneUpdatesTheVideoOnly(db: Db, request: Request, hash: Hash, hint: Option<string>)
    requires HasHash(db, hash)
    ensures var after := RegisteredAlone(db, request, hash, hint);
      && after.jobs.Keys == db.jobs.Keys && after.nextJob == db.nextJob && hash in after.videos
      && forall k | k in db.jobs :: after.jobs[k] == db.jobs[k].(video :=
           if db.jobs[k].hash == Some(hash) then Some(after.videos[hash]) else db.jobs[k].video)
  {
  }

  /** Each stage takes results of its own kind, and the one without a result takes any payload. */
  lemma ResultsAreTyped(stage: Stage, result: Option<Result>)
    ensures Parses(stage, result) <==> (stage == LocateMedia || (result.Some? && stage == Owner(result.value)))
  {
  }

  function Owner(result: Result): Stage {
    match result
    case RegisterResult(_, _) => Register
    case TranscribeResult => Transcribe
    case TranscriptResult(_) => ParseTranscript
    case FramesResult(_) => Frames
    case OcrResult(_) => Ocr
    case ClassifyResult(_, _) => Classify
    case EmbedResult(_) => ImageEmbed
  }

  /** Registering fails exactly when another job has the hash; the job's own hash may come again, and keeps its video. */
  lemma RegisterFailsForOthersOnly(db: Db, j: JobId, hash: Hash, hint: Option<string>)
    requires j in db.jobs
    ensures var kept := Registered(db, j, hash, hint);
      && (kept.None? <==> exists k :: k in db.jobs && k != j && db.jobs[k].hash == Some(hash))
      && (kept.Some? && hash in db.videos ==>
            kept.value == db.(jobs := db.jobs[j := db.jobs[j].(hash := Some(hash), video := Some(db.videos[hash]))]))
  {
  }
}
