/** What a whole run leaves, said of the tools alone: which mode the transcript is made in, and which frames, texts,
    scenes and embeddings there are. */
module RunMeaning {
  import opened Basics
  import opened Stages
  import opened Rows
  import opened Lease
  import opened Protocol
  import opened Invariant
  import opened Pipeline
  import opened Continuation
  import opened FullRun
  import Resume
  import Artifacts

  // ---- the meaning -----------------------------------------------------------------------------

  /** The cues are those of KITS in the mode the request asks for, or a karaoke title makes. */
  predicate RightCues(e: Engine, request: Request, cues: seq<Cue>) {
    var media := e.media(request.path);
    && (request.separate ==> cues == e.cues(e.kits(media, true, request.language)))
    && (request.title != "" && e.karaoke(request.title) ==> cues == e.cues(e.kits(media, true, request.language)))
    && (!request.separate && (request.title == "" || !e.karaoke(request.title)) ==>
          cues == e.cues(e.kits(media, false, request.language)))
  }

  /** The lines read on frame t stand together and in order somewhere in the texts. */
  ghost predicate HasBlock(e: Engine, media: string, texts: seq<OcrRow>, t: Ms) {
    exists o: nat :: BlockAt(e, media, texts, t, o)
  }

  ghost predicate BlockAt(e: Engine, media: string, texts: seq<OcrRow>, t: Ms, o: nat) {
    && o + |e.read(media, t)| <= |texts|
    && forall k | 0 <= k < |e.read(media, t)| :: texts[o + k] == OcrRow(t, e.read(media, t)[k])
  }

  ghost predicate TimeOrdered(texts: seq<OcrRow>) {
    forall i, j | 0 <= i < j < |texts| :: texts[i].ts <= texts[j].ts
  }

  /** Frame by frame in time order, all that OCR reads on the frames and nothing else. */
  ghost predicate RightTexts(e: Engine, media: string, frames: set<Ms>, texts: seq<OcrRow>) {
    && (forall row :: row in texts <==> row.ts in frames && row.text in e.read(media, row.ts))
    && TimeOrdered(texts)
    && (forall t | t in frames :: HasBlock(e, media, texts, t))
  }

  /** The frames in ascending order. */
  ghost predicate InOrder(frames: set<Ms>, shown: seq<Ms>) {
    && (forall t :: t in shown <==> t in frames)
    && (forall i, j | 0 <= i < j < |shown| :: shown[i] < shown[j])
  }

  /** All rows of a run on its planned frames; `without` is the stream type when there is none. */
  ghost predicate RightRows(e: Engine, request: Request, without: Option<string>, rows: VideoRows) {
    var media := e.media(request.path);
    var plan := e.plan(media);
    && RightCues(e, request, rows.cues)
    && rows.frames.Keys == plan && (forall t | t in plan :: rows.frames[t] == Some(e.embed(media, t)))
    && RightTexts(e, media, plan, rows.texts)
    && (plan == {} ==> rows.spans == [] && rows.streamType == without)
    && (plan != {} ==> forall shown | InOrder(plan, shown) ::
          rows.spans == e.scenes(media, shown).0 && rows.streamType == Some(e.scenes(media, shown).1))
  }

  // ---- the reference rows have it --------------------------------------------------------------

  lemma SrtCues(e: Engine, request: Request)
    ensures RightCues(e, request, e.cues(Srt(e, request)))
  {
  }

  lemma {:induction false} TextsAscend(e: Engine, media: string, frames: seq<Ms>)
    requires forall i, j | 0 <= i < j < |frames| :: frames[i] < frames[j]
    ensures TimeOrdered(Texts(e, media, frames))
  {
    if frames != [] {
      var (texts, lines, rest) := (Texts(e, media, frames), Lines(frames[0], e.read(media, frames[0])), Texts(e, media, frames[1..]));
      TextsAscend(e, media, frames[1..]);
      TextsAreOfFrames(e, media, frames[1..]);
      forall row | row in rest ensures frames[0] <= row.ts {
        var m :| 0 <= m < |frames[1..]| && frames[1..][m] == row.ts;
        assert frames[0] < frames[m + 1] == row.ts;
      }
      assert TimeOrdered(rest);
      Joins(frames[0], lines, rest);
    }
  }

  lemma Joins(t: Ms, lines: seq<OcrRow>, rest: seq<OcrRow>)
    requires (forall row | row in lines :: row.ts == t) && (forall row | row in rest :: t <= row.ts)
    requires TimeOrdered(rest)
    ensures TimeOrdered(lines + rest)
  {
    var all := lines + rest;
    forall i, j | 0 <= i < j < |all| ensures all[i].ts <= all[j].ts {
      assert i < |lines| ==> all[i] in lines;
      assert j < |lines| ==> all[j] in lines;
      assert j >= |lines| ==> all[j] in rest && all[j] == rest[j - |lines|];
      assert i >= |lines| ==> all[i] == rest[i - |lines|];
    }
  }

  lemma {:induction false} BlocksStand(e: Engine, media: string, frames: seq<Ms>, t: Ms)
    requires t in frames
    ensures HasBlock(e, media, Texts(e, media, frames), t)
  {
    var (lines, rest) := (Lines(frames[0], e.read(media, frames[0])), Texts(e, media, frames[1..]));
    hide BlockAt, HasBlock;
    if t == frames[0] {
      BlockLeads(e, media, rest, t);
    } else {
      BlocksStand(e, media, frames[1..], t);
      BlockMoves(e, media, lines, rest, t);
    }
  }

  lemma BlockLeads(e: Engine, media: string, rest: seq<OcrRow>, t: Ms)
    ensures HasBlock(e, media, Lines(t, e.read(media, t)) + rest, t)
  {
    assert BlockAt(e, media, Lines(t, e.read(media, t)) + rest, t, 0);
  }

  lemma BlockMoves(e: Engine, media: string, lines: seq<OcrRow>, rest: seq<OcrRow>, t: Ms)
    requires HasBlock(e, media, rest, t)
    ensures HasBlock(e, media, lines + rest, t)
  {
    var o: nat :| BlockAt(e, media, rest, t, o);
    forall k | 0 <= k < |e.read(media, t)|
      ensures (lines + rest)[|lines| + o + k] == OcrRow(t, e.read(media, t)[k])
    {
      assert rest[o + k] == OcrRow(t, e.read(media, t)[k]);
    }
    assert BlockAt(e, media, lines + rest, t, |lines| + o);
  }

  lemma PlannedTexts(e: Engine, request: Request)
    ensures RightTexts(e, e.media(request.path), e.plan(e.media(request.path)),
                       Texts(e, e.media(request.path), Planned(e, request)))
  {
    hide Texts, HasBlock;
    var (media, shown) := (e.media(request.path), Planned(e, request));
    forall row ensures row in Texts(e, media, shown) <==> row.ts in shown && row.text in e.read(media, row.ts) {
      TextsOf(e, media, shown, row);
    }
    TextsAscend(e, media, shown);
    forall t | t in e.plan(media) ensures HasBlock(e, media, Texts(e, media, shown), t) { BlocksStand(e, media, shown, t); }
  }

  lemma PlannedScenes(e: Engine, request: Request, shown: seq<Ms>)
    requires e.plan(e.media(request.path)) != {} && InOrder(e.plan(e.media(request.path)), shown)
    ensures var media := e.media(request.path);
      Scenes(e, media, Planned(e, request)) == ClassifyResult(e.scenes(media, shown).0, e.scenes(media, shown).1)
  {
    hide Ascending;
    EmptyPlan(e, request);
    Artifacts.AscendingIsUnique(Planned(e, request), shown);
  }

  /** The rows of all stages, when each has landed its result. */
  lemma WholeRowsAreRight(e: Engine, request: Request)
    ensures RightRows(e, request, Some("chatting"), RowsAfter(e, request, ALL))
    ensures RightRows(e, request, request.hint, SequentialRows(e, request))
  {
    hide RowsAfter, SequentialRows, Texts, RightCues, RightTexts, Ascending, InOrder, Srt;
    var media := e.media(request.path);
    FullRows(e, request);
    WholeRows(e, request);
    SrtCues(e, request);
    PlannedTexts(e, request);
    EmptyPlan(e, request);
    if e.plan(media) != {} {
      forall shown | InOrder(e.plan(media), shown)
        ensures Scenes(e, media, Planned(e, request)) == ClassifyResult(e.scenes(media, shown).0, e.scenes(media, shown).1)
      {
        PlannedScenes(e, request, shown);
      }
    }
  }

  // ---- and so have runs ------------------------------------------------------------------------

  /** run_full on a new video, on a machine without frames of another plan: what is there in the end. */
  lemma FreshRunIsRight(e: Engine, request: Request, disk: Disk)
    requires Shown(e, request, disk) <= e.plan(e.media(request.path)) && e.cues(Srt(e, request)) != []
    ensures var end := Through(e, request, {}, 0, Point(None, request.separate, disk, Fresh(request.hint)));
      end.Some? && RightRows(e, request, request.hint, end.value.rows)
  {
    hide Through, CanFinish, SequentialRows, RightRows, RowsAfter;
    BelowEnds();
    WithoutOtherFrames(e, request, 0, disk);
    FullRunIsSequentialIff(e, request, 0, disk);
    StartsFresh(e, request);
    WholeRowsAreRight(e, request);
  }

  lemma StartsFresh(e: Engine, request: Request)
    ensures Sequentially(e, request, 0) == Fresh(request.hint)
  {
    BelowEnds();
  }

  lemma {:induction false} LaterStagesKeepCues(e: Engine, request: Request, i: nat, at: Point)
    requires 4 <= i <= |STAGES|
    ensures var end := Through(e, request, {}, i, at); end.Some? ==> end.value.rows.cues == at.rows.cues
    decreases |STAGES| - i
  {
    hide RunStage;
    if i < |STAGES| {
      StageKeepsCues(e, request, i, at);
      var run := RunStage(e, request, STAGES[i], at);
      if run.Ran? { LaterStagesKeepCues(e, request, i + 1, run.after); }
    }
  }

  lemma StageKeepsCues(e: Engine, request: Request, i: nat, at: Point)
    requires 4 <= i < |STAGES|
    ensures var run := RunStage(e, request, STAGES[i], at); run.Ran? ==> run.after.rows.cues == at.rows.cues
  {
    hide Texts, Embeds, Ascending, Embedded;
    var h := if at.hash.Some? then at.hash.value else "";
    if i == 6 { assert Scenes(e, e.media(request.path), Ascending(Dir(at.disk, h).frames)).ClassifyResult?; }
  }

  lemma LocateDecides(e: Engine, request: Request, at: Point)
    requires at.hash == Some(e.hash(e.media(request.path)))
    ensures var run := RunStage(e, request, LocateMedia, at);
      && run.Ran? && run.after.hash == at.hash && run.after.rows == at.rows
      && (run.after.separate <==> at.separate || (request.title != "" && e.karaoke(request.title)))
  {
    hide Texts, Embeds, Scenes, Ascending;
  }

  lemma TranscribeWrites(e: Engine, request: Request, at: Point)
    requires at.hash == Some(e.hash(e.media(request.path)))
    ensures var run := RunStage(e, request, Transcribe, at);
      run.Ran? ==>
        && run.after.hash == at.hash && run.after.rows == at.rows
        && Dir(run.after.disk, at.hash.value).srt == Some(e.kits(e.media(request.path), at.separate, request.language))
  {
    hide Texts, Embeds, Scenes, Ascending;
  }

  lemma ParseReads(e: Engine, request: Request, at: Point)
    requires at.hash == Some(e.hash(e.media(request.path)))
    ensures var run := RunStage(e, request, ParseTranscript, at);
      run.Ran? ==>
        && Dir(at.disk, at.hash.value).srt.Some?
        && run.after.rows.cues == e.cues(Dir(at.disk, at.hash.value).srt.value)
  {
    hide Texts, Embeds, Scenes, Ascending;
  }

  /** The first four stages, from any disk and rows. */
  lemma EarlyStages(e: Engine, request: Request, disk: Disk, found: VideoRows) returns (at: Point)
    ensures var start := Point(None, request.separate, disk, found);
      var end := Through(e, request, {}, 0, start);
      end.Some? ==> end == Through(e, request, {}, 4, at) && RightCues(e, request, at.rows.cues)
  {
    hide RunStage, Through;
    var start := Point(None, request.separate, disk, found);
    RegisterFinds(e, request, disk, found);
    ThroughStep(e, request, 0, start);
    var one := Point(Some(e.hash(e.media(request.path))), request.separate, disk, found);
    LocateDecides(e, request, one);
    ThroughStep(e, request, 1, one);
    var two := RunStage(e, request, LocateMedia, one).after;
    TranscribeWrites(e, request, two);
    ThroughStep(e, request, 2, two);
    at := two;
    if RunStage(e, request, Transcribe, two).Ran? {
      var three := RunStage(e, request, Transcribe, two).after;
      ParseReads(e, request, three);
      ThroughStep(e, request, 3, three);
      if RunStage(e, request, ParseTranscript, three).Ran? { at := RunStage(e, request, ParseTranscript, three).after; }
    }
  }

  lemma ThroughStep(e: Engine, request: Request, i: nat, at: Point)
    requires i < |STAGES|
    ensures Through(e, request, {}, i, at) ==
      match RunStage(e, request, STAGES[i], at)
      case Raises => None
      case Ran(after, _) => Through(e, request, {}, i + 1, after)
  {
    hide RunStage;
  }

  /** Every fresh run that ends well lands the cues of the right mode, whatever was on the machine and in the rows. */
  lemma FreshRunHasTheRightCues(e: Engine, request: Request, disk: Disk, found: VideoRows)
    ensures var end := Through(e, request, {}, 0, Point(None, request.separate, disk, found));
      end.Some? ==> RightCues(e, request, end.value.rows.cues)
  {
    hide Through, RightCues;
    var at := EarlyStages(e, request, disk, found);
    LaterStagesKeepCues(e, request, 4, at);
  }

  /** A complete job of an honest run has landed all of it. */
  lemma CompleteJobIsRight(e: Engine, steps: seq<Step>, j: JobId)
    requires Resume.HonestRun(e, steps) && NoCollisions(e)
    requires j in Exec(steps).db.jobs && Exec(steps).db.jobs[j].status == Complete
    ensures var (db, job) := (Exec(steps).db, Exec(steps).db.jobs[j]);
      && job.video.Some? && job.video.value in db.rows
      && RightRows(e, job.request, Some("chatting"), db.rows[job.video.value])
  {
    hide Exec, Resume.HonestRun, RightRows, RowsAfter, SequentialRows, RunOk, Flow, Shape, Budget, IsPrefix;
    Invariant.Invariant(steps);
    RowIsOk(Exec(steps), j);
    Resume.LandedRowsAreSequential(e, steps, j);
    WholeRowsAreRight(e, Exec(steps).db.jobs[j].request);
  }
}
