/** The coordinator's database updated in place (ingest/lease.py, api/jobs.py, stages/register.py). Each
    method is proved to be one atomic transition of Lease, so what holds of the protocol's runs holds of
    this code. */
module Coordinator {
  import opened Basics
  import opened Stages
  import opened Rows
  import opened Lease
  import opened Visual
  import TimeCosts

  /** The tables keyed by video, next to the two kept by VisualTables. */
  datatype Plain = Plain(
    streamTypes: map<VideoId, Option<string>>, cues: map<VideoId, seq<Cue>>, spans: map<VideoId, seq<Span>>)

  ghost predicate SameVideos(p: Plain) {
    p.cues.Keys == p.spans.Keys == p.streamTypes.Keys
  }

  ghost function RowsAt(p: Plain, frames: map<FrameId, FrameRow>, texts: seq<TextRow>, v: VideoId): VideoRows
    requires SameVideos(p) && Unique(frames) && v in p.streamTypes
  {
    VideoRows(p.streamTypes[v], p.cues[v], FramesOf(frames, v), TextsOf(texts, v), p.spans[v])
  }

  ghost function AllRows(p: Plain, frames: map<FrameId, FrameRow>, texts: seq<TextRow>): map<VideoId, VideoRows>
    requires SameVideos(p) && Unique(frames)
  {
    map v | v in p.streamTypes :: RowsAt(p, frames, texts, v)
  }

  /** A write to the tables of one video shows in that video's rows only. */
  lemma WriteOneVideo(p: Plain, frames: map<FrameId, FrameRow>, texts: seq<TextRow>,
                      q: Plain, since: map<FrameId, FrameRow>, later: seq<TextRow>, v: VideoId)
    requires SameVideos(p) && Unique(frames) && SameVideos(q) && Unique(since)
    requires q.streamTypes.Keys == p.streamTypes.Keys + {v}
    requires forall w | w in p.streamTypes && w != v :: RowsAt(q, since, later, w) == RowsAt(p, frames, texts, w)
    ensures AllRows(q, since, later) == AllRows(p, frames, texts)[v := RowsAt(q, since, later, v)]
  {
  }

  /** The rows of a video that was just made. */
  lemma NewVideo(p: Plain, frames: map<FrameId, FrameRow>, texts: seq<TextRow>, v: VideoId, hint: Option<string>)
    requires SameVideos(p) && Unique(frames) && v !in p.streamTypes
    requires FramesOf(frames, v) == map[] && TextsOf(texts, v) == []
    ensures AllRows(Plain(p.streamTypes[v := hint], p.cues[v := []], p.spans[v := []]), frames, texts)
      == AllRows(p, frames, texts)[v := Fresh(hint)]
  {
    hide FramesOf, TextsOf, Unique;
    var q := Plain(p.streamTypes[v := hint], p.cues[v := []], p.spans[v := []]);
    forall w | w in p.streamTypes ensures RowsAt(q, frames, texts, w) == RowsAt(p, frames, texts, w) {}
    WriteOneVideo(p, frames, texts, q, frames, texts, v);
  }

  class Coordinator {
    var jobs: map<JobId, Job>
    var nextJob: JobId
    var videos: map<Hash, VideoId>
    var nextVideo: VideoId
    var streamTypes: map<VideoId, Option<string>>
    var cues: map<VideoId, seq<Cue>>
    var spans: map<VideoId, seq<Span>>
    const visual: VisualTables

    ghost predicate Valid()
      reads this`nextVideo, this`streamTypes, this`cues, this`spans, visual
    {
      && visual.Valid()
      && cues.Keys == spans.Keys == streamTypes.Keys
      && (forall v | v in streamTypes :: v < nextVideo)
      && (forall v | v !in streamTypes :: FramesOf(visual.frames, v) == map[] && TextsOf(visual.texts, v) == [])
    }

    ghost function Tables(): Plain
      reads this`streamTypes, this`cues, this`spans
    {
      Plain(streamTypes, cues, spans)
    }

    ghost function RowsView(): map<VideoId, VideoRows>
      reads this`nextVideo, this`streamTypes, this`cues, this`spans, visual
      requires Valid()
    {
      AllRows(Tables(), visual.frames, visual.texts)
    }

    /** The database this object stands for. */
    ghost function View(): Db
      reads this, visual
      requires Valid()
    {
      Db(jobs, nextJob, videos, RowsView(), nextVideo)
    }

    constructor ()
      ensures Valid() && fresh(visual) && View() == EMPTY
    {
      jobs, nextJob, videos, nextVideo := map[], 1, map[], 1;
      streamTypes, cues, spans := map[], map[], map[];
      visual := new VisualTables();
      new;
      forall v ensures FramesOf(visual.frames, v) == map[] { ShownIsFramesOf(map[], visual.frames, v); }
    }

    // ---- claim / lease / fence ----------------------------------------------------------------

    method Enqueue(request: Request) returns (j: JobId)
      requires Valid()
      modifies this`jobs, this`nextJob
      ensures Valid() && j == old(nextJob) && View() == Lease.Enqueue(old(View()), request)
    {
      j := nextJob;
      jobs := jobs[j := Job(request, Queued, 0, None, 0, {}, [], None, None)];
      nextJob := nextJob + 1;
    }

    method Claim(now: real, lease: int, locked: set<JobId>)
      returns (found: Option<JobId>, epoch: nat, hash: Option<Hash>, done: set<Stage>)
      requires Valid()
      modifies this`jobs
      ensures Valid() && (View(), found) == Lease.Claim(old(View()), now, lease, locked)
      ensures found.Some? ==>
        && found.value in jobs
        && epoch == jobs[found.value].epoch && hash == jobs[found.value].hash && done == jobs[found.value].done
    {
      found, epoch, hash, done := Oldest(jobs, now, locked, 0, nextJob), 0, None, {};
      if found.Some? {
        var job := jobs[found.value];
        epoch, hash, done := job.epoch + 1, job.hash, job.done;
        jobs := jobs[found.value := job.(status := Running, epoch := epoch, expires := Some(now + lease as real))];
      }
    }

    method Heartbeat(now: real, j: JobId, epoch: nat, lease: int) returns (ok: bool)
      requires Valid()
      modifies this`jobs
      ensures Valid()
      ensures (View(), if ok then Accepted else Stale) == Lease.Heartbeat(old(View()), now, j, epoch, lease)
    {
      ok := j in jobs && jobs[j].epoch == epoch;
      if ok { jobs := jobs[j := jobs[j].(expires := Some(now + lease as real))]; }
    }

    method MarkStageDone(j: JobId, epoch: nat, stage: Stage, seconds: Option<real>) returns (ok: bool)
      requires Valid()
      modifies this`jobs
      ensures Valid()
      ensures (View(), if ok then Accepted else Stale) == Lease.MarkStageDone(old(View()), j, epoch, stage, seconds)
    {
      if j !in jobs || jobs[j].epoch != epoch {
        return false;
      }
      var costs := jobs[j].costs;
      if seconds.Some? {
        costs := TimeCosts.MergeTimeCosts(Some(costs), Name(stage), seconds.value);
      }
      jobs := jobs[j := jobs[j].(done := jobs[j].done + {stage}, costs := costs)];
      ok := true;
    }

    method MarkComplete(j: JobId, epoch: nat) returns (ok: bool)
      requires Valid()
      modifies this`jobs
      ensures Valid() && (View(), if ok then Accepted else Stale) == Finish(old(View()), j, epoch)
    {
      ok := j in jobs && jobs[j].epoch == epoch;
      if ok { jobs := jobs[j := jobs[j].(status := Complete)]; }
    }

    method MarkFailed(j: JobId, epoch: nat) returns (ok: bool)
      requires Valid()
      modifies this`jobs
      ensures Valid() && (View(), if ok then Accepted else Stale) == Lease.Fail(old(View()), j, epoch)
    {
      ok := j in jobs && jobs[j].epoch == epoch;
      if ok { jobs := jobs[j := jobs[j].(status := Failed, attempts := jobs[j].attempts + 1)]; }
    }

    // ---- persist ------------------------------------------------------------------------------

    /** A new row of videos, with nothing landed yet. */
    method InsertVideo(hint: Option<string>) returns (v: VideoId)
      requires Valid()
      modifies this`nextVideo, this`streamTypes, this`cues, this`spans
      ensures Valid() && v == old(nextVideo) && nextVideo == v + 1
      ensures RowsView() == old(RowsView())[v := Fresh(hint)]
    {
      hide FramesOf, TextsOf, Unique, Anchored, AllRows, RowsAt;
      v := nextVideo;
      NewVideo(Tables(), visual.frames, visual.texts, v, hint);
      nextVideo := nextVideo + 1;
      streamTypes, cues, spans := streamTypes[v := hint], cues[v := []], spans[v := []];
    }

    /** INSERT INTO videos ... ON CONFLICT (content_hash) ... RETURNING id */
    method UpsertVideo(hash: Hash, hint: Option<string>) returns (v: VideoId)
      requires Valid()
      modifies this`videos, this`nextVideo, this`streamTypes, this`cues, this`spans
      ensures Valid() && (View(), v) == VideoFor(old(View()), hash, hint)
    {
      hide FramesOf, TextsOf, Unique, Anchored, AllRows;
      if hash in videos {
        return videos[hash];
      }
      v := InsertVideo(hint);
      videos := videos[hash := v];
    }

    /** register.persist on the job_id path: upsert the video, then update the job's own row, where
        UNIQUE (content_hash) may object. */
    method PersistRegister(j: JobId, hash: Hash, hint: Option<string>) returns (ok: bool)
      requires Valid() && j in jobs
      modifies this`jobs, this`videos, this`nextVideo, this`streamTypes, this`cues, this`spans
      ensures Valid()
      ensures ok ==> Registered(old(View()), j, hash, hint) == Some(View())
      ensures !ok ==> Registered(old(View()), j, hash, hint).None?
    {
      var v := UpsertVideo(hash, hint);
      if exists k | k in jobs :: k != j && jobs[k].hash == Some(hash) {
        return false;
      }
      jobs := jobs[j := jobs[j].(hash := Some(hash), video := Some(v))];
      ok := true;
    }

    /** register.persist without a job id, as run_full calls it: a job row for the hash, or its video updated. */
    method RegisterAlone(request: Request, hash: Hash, hint: Option<string>) returns (v: VideoId)
      requires Valid()
      modifies this`jobs, this`nextJob, this`videos, this`nextVideo, this`streamTypes, this`cues, this`spans
      ensures Valid() && View() == RegisteredAlone(old(View()), request, hash, hint)
      ensures hash in videos && videos[hash] == v
    {
      v := UpsertVideo(hash, hint);
      if exists k | k in jobs :: jobs[k].hash == Some(hash) {
        jobs := map k | k in jobs :: if jobs[k].hash == Some(hash) then jobs[k].(video := Some(v)) else jobs[k];
      } else {
        jobs := jobs[nextJob := Job(request, Running, 0, None, 0, {}, [], Some(hash), Some(v))];
        nextJob := nextJob + 1;
      }
    }

    method PersistTranscript(v: VideoId, lines: seq<Cue>)
      requires Valid() && v in streamTypes
      modifies this`cues
      ensures Valid() && RowsView() == old(RowsView())[v := old(RowsView())[v].(cues := lines)]
    {
      ghost var before := Tables();
      cues := cues[v := lines];
      WriteOneVideo(before, visual.frames, visual.texts, Tables(), visual.frames, visual.texts, v);
    }

    method PersistScenes(v: VideoId, scenes: seq<Span>, streamType: string)
      requires Valid() && v in streamTypes
      modifies this`spans, this`streamTypes
      ensures Valid()
      ensures RowsView() ==
        old(RowsView())[v := old(RowsView())[v].(spans := scenes, streamType := Some(streamType))]
    {
      ghost var before := Tables();
      spans := spans[v := scenes];
      streamTypes := streamTypes[v := Some(streamType)];
      WriteOneVideo(before, visual.frames, visual.texts, Tables(), visual.frames, visual.texts, v);
    }

    method LandFrames(v: VideoId, frames: seq<Ms>)
      requires Valid() && v in streamTypes
      modifies visual
      ensures Valid() && RowsView() == old(RowsView())[v := old(RowsView())[v].(frames := Bare(frames), texts := [])]
    {
      hide FramesOf, TextsOf, Unique, Anchored, Bare;
      ghost var frames0, texts0 := visual.frames, visual.texts;
      visual.PersistFrames(v, frames);
      WriteOneVideo(Tables(), frames0, texts0, Tables(), visual.frames, visual.texts, v);
    }

    method LandTexts(v: VideoId, texts: seq<OcrRow>) returns (ok: bool)
      requires Valid() && v in streamTypes
      modifies visual
      ensures ok <==> forall row | row in texts :: row.ts in old(RowsView())[v].frames
      ensures ok ==> Valid() && RowsView() == old(RowsView())[v := old(RowsView())[v].(texts := texts)]
    {
      hide FramesOf, TextsOf, Unique, Anchored;
      ghost var frames0, texts0 := visual.frames, visual.texts;
      ok := visual.PersistOcr(v, texts);
      if ok { WriteOneVideo(Tables(), frames0, texts0, Tables(), visual.frames, visual.texts, v); }
    }

    method LandEmbeddings(v: VideoId, embeds: seq<EmbedRow>)
      requires Valid() && v in streamTypes
      modifies visual
      ensures Valid()
      ensures RowsView() == old(RowsView())[v := old(RowsView())[v].(frames := Embedded(old(RowsView())[v].frames, embeds))]
    {
      hide FramesOf, TextsOf, Unique, Anchored, Embedded;
      ghost var frames0, texts0 := visual.frames, visual.texts;
      visual.PersistEmbeddings(v, embeds);
      WriteOneVideo(Tables(), frames0, texts0, Tables(), visual.frames, visual.texts, v);
    }

    /** The persist of every stage but register, on an existing video. */
    method PersistRows(v: VideoId, result: Result) returns (ok: bool)
      requires Valid() && v in streamTypes && !result.RegisterResult? && !result.TranscribeResult?
      modifies this`streamTypes, this`cues, this`spans, visual
      ensures ok <==> Persisted(old(RowsView())[v], result).Some?
      ensures ok ==> Valid() && RowsView() == old(RowsView())[v := Persisted(old(RowsView())[v], result).value]
    {
      hide FramesOf, TextsOf, Unique, Anchored, Embedded, Bare, AllRows;
      ok := true;
      if result.TranscriptResult? {
        PersistTranscript(v, result.cues);
      } else if result.ClassifyResult? {
        PersistScenes(v, result.spans, result.streamType);
      } else if result.FramesResult? {
        LandFrames(v, result.frames);
      } else if result.OcrResult? {
        ok := LandTexts(v, result.texts);
      } else {
        LandEmbeddings(v, result.embeds);
      }
    }

    method PersistStage(j: JobId, stage: Stage, result: Option<Result>) returns (ok: bool)
      requires Valid() && j in jobs && Parses(stage, result)
      modifies this, visual
      ensures nextJob == old(nextJob)
      ensures ok <==> Lease.PersistStage(old(View()), j, stage, result).Some?
      ensures ok ==> Valid() && Lease.PersistStage(old(View()), j, stage, result) == Some(View())
    {
      if stage == Register {
        ok := PersistRegister(j, result.value.hash, result.value.hint);
      } else if stage == LocateMedia || stage == Transcribe {
        ok := true;
      } else if jobs[j].video.None? {
        ok := !Inserts(result.value);
      } else if jobs[j].video.value !in streamTypes {
        ok := false;
      } else {
        ok := PersistRows(jobs[j].video.value, result.value);
      }
    }

    /** POST /jobs/{id}/stage/{name}: one transaction, rolled back unless the whole stage lands. */
    method PushStage(j: JobId, name: string, epoch: nat, result: Option<Result>, files: bool, seconds: Option<real>)
      returns (reply: Reply)
      requires Valid()
      modifies this, visual
      ensures Valid() && (View(), reply) == Lease.PushStage(old(View()), j, name, epoch, result, files, seconds)
    {
      hide FramesOf, TextsOf, Unique, Anchored, AllRows, Named, Name, Lease.PersistStage, Parses, Lease.Marked, TakesFiles;
      var stage := Named(name);
      if stage.None? || j !in jobs {
        return Error;
      }
      if jobs[j].epoch != epoch {
        return Stale;
      }
      if !Parses(stage.value, result) {
        return Error;
      }
      if files && TakesFiles(stage.value) && jobs[j].hash.None? {
        return Stale;
      }
      var jobs0, videos0, nextVideo0 := jobs, videos, nextVideo;
      var streamTypes0, cues0, spans0 := streamTypes, cues, spans;
      var frames0, nextFrame0, texts0 := visual.frames, visual.nextFrame, visual.texts;
      var kept := PersistStage(j, stage.value, result);
      if !kept {
        jobs, videos, nextVideo := jobs0, videos0, nextVideo0;
        streamTypes, cues, spans := streamTypes0, cues0, spans0;
        visual.frames, visual.nextFrame, visual.texts := frames0, nextFrame0, texts0;
        assert RowsView() == old(RowsView());
        return Error;
      }
      var marked := MarkStageDone(j, epoch, stage.value, seconds);
      reply := if marked then Accepted else Stale;
    }
  }
}
