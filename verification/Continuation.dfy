/** One run left alone from its claim on: exactly when does it land the rows of the sequential run? */
module Continuation {
  import opened Basics
  import opened Stages
  import opened Rows
  import opened Lease
  import opened Session
  import opened Protocol
  import opened Pipeline

  // ---- the condition ---------------------------------------------------------------------------

  /** The transcript this run lands, or has landed, is the sequential run's. Before locate_media the mode is
      settled on the way; at transcribe the audio must be there and the mode in memory give the same cues; at
      parse_transcript the file must be there and hold the same cues. */
  predicate Transcribes(e: Engine, request: Request, n: nat, separate: bool, dir: Artifacts) {
    var media, cues := e.media(request.path), e.cues(Srt(e, request));
    && (n <= 3 ==> cues != [])
    && (n == 2 ==> dir.audio && e.cues(e.kits(media, separate, request.language)) == cues)
    && (n == 3 ==> dir.srt.Some? && e.cues(dir.srt.value) == cues)
  }

  /** The frames the visual stages find: the frames stage adds the planned ones to what lies on the disk. */
  function Found(e: Engine, request: Request, n: nat, dir: Artifacts): set<Ms> {
    if n <= Index(Frames) then dir.frames + e.plan(e.media(request.path)) else dir.frames
  }

  /** No planned frame is missing, and frames outside the plan carry no text and leave the scenes as they are,
      as far as those stages are still to come. */
  ghost predicate Shows(e: Engine, request: Request, n: nat, frames: set<Ms>) {
    var media := e.media(request.path);
    var plan := e.plan(media);
    && (n <= Index(ImageEmbed) ==> plan <= frames)
    && (n <= Index(Classify) ==> Scenes(e, media, Ascending(frames)) == Scenes(e, media, Ascending(plan)))
    && (n <= Index(Ocr) ==> forall t | t in frames - plan :: e.read(media, t) == [])
  }

  /** Can a worker with this disk finish a job with the first n stages done, as the sequential run would?
      `free` says that no other job has the hash, which register finds out. */
  ghost predicate Continues(e: Engine, request: Request, n: nat, disk: Disk, free: bool) {
    var dir := Dir(disk, e.hash(e.media(request.path)));
    && (n == 0 ==> free)
    && Transcribes(e, request, n, request.separate, dir)
    && Shows(e, request, n, Found(e, request, n, dir))
  }

  /** Where the disk holds no frame outside the plan, the frames have to be exactly the planned ones. */
  lemma PlannedFramesSuffice(e: Engine, request: Request, n: nat, disk: Disk, free: bool)
    requires Dir(disk, e.hash(e.media(request.path))).frames <= e.plan(e.media(request.path))
    ensures var dir := Dir(disk, e.hash(e.media(request.path)));
      Continues(e, request, n, disk, free) <==>
        && (n == 0 ==> free)
        && Transcribes(e, request, n, request.separate, dir)
        && (Index(Frames) < n <= Index(ImageEmbed) ==> dir.frames == e.plan(e.media(request.path)))
  {
    var frames, plan := Dir(disk, e.hash(e.media(request.path))).frames, e.plan(e.media(request.path));
    assert frames + plan == plan;
  }

  // ---- on values -------------------------------------------------------------------------------

  /** What a run between two stages carries, and the rows of its job. */
  datatype Point = Point(hash: Option<Hash>, separate: bool, disk: Disk, rows: VideoRows)

  /** One stage computed and landed; None when it raises, in the worker or in the coordinator. */
  function Advance(e: Engine, request: Request, i: nat, at: Point, free: bool): Option<Point>
    requires i < |STAGES|
  {
    match ComputeStage(e, request, STAGES[i], at.hash, at.separate, at.disk)
    case Raised => None
    case Computed(result, _, disk, separate, _) =>
      if i == 0 then
        if free then Some(Point(Some(e.hash(e.media(request.path))), separate, disk, Fresh(request.hint))) else None
      else if result.None? then Some(Point(at.hash, separate, disk, at.rows))
      else
        match Persisted(at.rows, result.value)
        case None => None
        case Some(rows) => Some(Point(at.hash, separate, disk, rows))
  }

  /** What holds on the way whatever the disk: the identity, the mode as requested, the planned frame rows. */
  ghost predicate Steady(e: Engine, request: Request, i: nat, at: Point) {
    && (i > 0 ==> at.hash == Some(e.hash(e.media(request.path))))
    && (i < 2 ==> at.separate == request.separate)
    && (5 <= i <= 7 ==> at.rows.frames == Bare(Planned(e, request)))
  }

  /** The rows that will not change any more are those of the sequential run. */
  ghost predicate Agrees(e: Engine, request: Request, i: nat, rows: VideoRows) {
    var full := RowsAfter(e, request, ALL);
    && (i > Index(ParseTranscript) ==> rows.cues == full.cues)
    && (i > Index(Ocr) ==> rows.texts == full.texts)
    && (i > Index(Classify) ==> rows.spans == full.spans && rows.streamType == full.streamType)
    && (i > Index(ImageEmbed) ==> rows.frames == full.frames)
  }

  /** What the rest of the run needs to end with the rows of the sequential one. */
  ghost predicate Needs(e: Engine, request: Request, i: nat, at: Point, free: bool) {
    var dir := Dir(at.disk, e.hash(e.media(request.path)));
    && (i == 0 ==> free)
    && Transcribes(e, request, i, at.separate, dir)
    && Shows(e, request, i, Found(e, request, i, dir))
    && Agrees(e, request, i, at.rows)
  }

  ghost predicate Steps(e: Engine, request: Request, i: nat, at: Point, free: bool)
    requires i < |STAGES|
  {
    var next := Advance(e, request, i, at, free);
    && (Needs(e, request, i, at, free) <==> next.Some? && Needs(e, request, i + 1, next.value, free))
    && (next.Some? ==> Steady(e, request, i + 1, next.value))
  }

  /** The rows of the sequential run, written out. */
  lemma FullRows(e: Engine, request: Request)
    ensures var media := e.media(request.path);
      var full := RowsAfter(e, request, ALL);
      && full.cues == e.cues(Srt(e, request))
      && full.texts == Texts(e, media, Planned(e, request))
      && Scenes(e, media, Planned(e, request)) == ClassifyResult(full.spans, full.streamType.value)
      && full.streamType.Some?
      && full.frames == map t | t in e.plan(media) :: Some(e.embed(media, t))
  {
    hide Texts, Ascending, Srt;
  }

  lemma ShowsTheSame(e: Engine, request: Request, i: nat, frames: set<Ms>)
    requires i < 5
    ensures Shows(e, request, i, frames) <==> Shows(e, request, i + 1, frames)
  {
    hide Scenes, Ascending;
  }

  lemma RegisterStage(e: Engine, request: Request, at: Point, free: bool)
    requires Steady(e, request, 0, at)
    ensures Steps(e, request, 0, at, free)
  {
    hide Texts, Scenes, Shows, RowsAfter, Srt, Ascending;
    ShowsTheSame(e, request, 0, Found(e, request, 0, Dir(at.disk, e.hash(e.media(request.path)))));
  }

  lemma LocateStage(e: Engine, request: Request, at: Point, free: bool)
    requires Steady(e, request, 1, at)
    ensures Steps(e, request, 1, at, free)
  {
    hide Texts, Scenes, Shows, RowsAfter, Ascending, Embeds, Persisted;
    ShowsTheSame(e, request, 1, Found(e, request, 1, Dir(at.disk, e.hash(e.media(request.path)))));
  }

  lemma TranscribeStage(e: Engine, request: Request, at: Point, free: bool)
    requires Steady(e, request, 2, at)
    ensures Steps(e, request, 2, at, free)
  {
    hide Texts, Scenes, Shows, RowsAfter, Srt, Ascending;
    ShowsTheSame(e, request, 2, Found(e, request, 2, Dir(at.disk, e.hash(e.media(request.path)))));
  }

  lemma ParseStage(e: Engine, request: Request, at: Point, free: bool)
    requires Steady(e, request, 3, at)
    ensures Steps(e, request, 3, at, free)
  {
    hide Texts, Scenes, Shows, RowsAfter, Srt, Ascending;
    FullRows(e, request);
    ShowsTheSame(e, request, 3, Found(e, request, 3, Dir(at.disk, e.hash(e.media(request.path)))));
  }

  lemma FramesStage(e: Engine, request: Request, at: Point, free: bool)
    requires Steady(e, request, 4, at)
    ensures Steps(e, request, 4, at, free)
  {
    hide Texts, Scenes, Shows, RowsAfter, Srt, Ascending;
    var plan := e.plan(e.media(request.path));
    EmptyPlan(e, request);
    var dir := Dir(at.disk, e.hash(e.media(request.path)));
    if plan == {} { assert dir.frames + plan == dir.frames; }
    ShowsTheSame(e, request, 4, Found(e, request, 4, dir));
  }

  lemma {:induction false} TextsOf(e: Engine, media: string, frames: seq<Ms>, row: OcrRow)
    ensures row in Texts(e, media, frames) <==> row.ts in frames && row.text in e.read(media, row.ts)
  {
    if frames != [] {
      var t := frames[0];
      var texts := e.read(media, t);
      TextsOf(e, media, frames[1..], row);
      assert row.ts in frames <==> row.ts == t || row.ts in frames[1..];
      if row.ts == t && row.text in texts {
        var i :| 0 <= i < |texts| && texts[i] == row.text;
        assert Lines(t, texts)[i] == row;
      }
    }
  }

  /** Frames without text leave no trace. */
  lemma {:induction false} SilentFrames(e: Engine, media: string, plan: set<Ms>, frames: set<Ms>)
    requires plan <= frames && forall t | t in frames - plan :: e.read(media, t) == []
    ensures Texts(e, media, Ascending(frames)) == Texts(e, media, Ascending(plan))
    decreases frames
  {
    hide Ascending, Texts;
    if frames != {} {
      FirstIsLeast(frames);
      var m := Ascending(frames)[0];
      FirstTexts(e, media, frames);
      if m in plan {
        FirstIsLeast(plan);
        FirstTexts(e, media, plan);
        assert Ascending(plan)[0] == m;
        SilentFrames(e, media, plan - {m}, frames - {m});
      } else {
        SilentFrames(e, media, plan, frames - {m});
        assert Lines(m, e.read(media, m)) == [];
      }
    } else {
      assert plan == frames;
    }
  }

  lemma FirstTexts(e: Engine, media: string, frames: set<Ms>)
    requires frames != {}
    ensures Ascending(frames) != []
    ensures var m := Ascending(frames)[0];
      Texts(e, media, Ascending(frames)) == Lines(m, e.read(media, m)) + Texts(e, media, Ascending(frames - {m}))
  {
    FirstIsLeast(frames);
  }

  lemma FirstIsLeast(s: set<Ms>)
    requires s != {}
    ensures Ascending(s) != []
    ensures var m := Ascending(s)[0];
      m in s && (forall x | x in s :: m <= x) && Ascending(s)[1..] == Ascending(s - {m})
  {
  }

  /** The texts land and are the sequential run's exactly when frames outside the plan have none. */
  lemma TextsLand(e: Engine, request: Request, frames: set<Ms>)
    requires e.plan(e.media(request.path)) <= frames
    ensures var media := e.media(request.path);
      var plan := e.plan(media);
      var texts := Texts(e, media, Ascending(frames));
      (forall t | t in frames - plan :: e.read(media, t) == [])
      <==> (forall row | row in texts :: row.ts in plan) && texts == Texts(e, media, Planned(e, request))
  {
    var media := e.media(request.path);
    var plan := e.plan(media);
    var texts := Texts(e, media, Ascending(frames));
    if t :| t in frames - plan && e.read(media, t) != [] {
      var row := TextOfFrame(e, media, frames, t);
    } else {
      SilentFrames(e, media, plan, frames);
      TextsAreOfFrames(e, media, Planned(e, request));
    }
  }

  lemma TextOfFrame(e: Engine, media: string, frames: set<Ms>, t: Ms) returns (row: OcrRow)
    requires t in frames && e.read(media, t) != []
    ensures row in Texts(e, media, Ascending(frames)) && row.ts == t
  {
    row := OcrRow(t, e.read(media, t)[0]);
    TextsOf(e, media, Ascending(frames), row);
  }

  lemma OcrAdvances(e: Engine, request: Request, at: Point, free: bool)
    requires Steady(e, request, 5, at)
    ensures var media := e.media(request.path);
      var texts := Texts(e, media, Ascending(Dir(at.disk, e.hash(media)).frames));
      Advance(e, request, 5, at, free) ==
        if forall row | row in texts :: row.ts in e.plan(media)
        then Some(at.(rows := at.rows.(texts := texts))) else None
  {
    hide Texts, Scenes, Embeds;
    assert at.rows.frames.Keys == e.plan(e.media(request.path));
  }

  lemma OcrStage(e: Engine, request: Request, at: Point, free: bool)
    requires Steady(e, request, 5, at)
    ensures Steps(e, request, 5, at, free)
  {
    hide Advance, Texts, Scenes, RowsAfter, Srt, Ascending;
    FullRows(e, request);
    OcrAdvances(e, request, at, free);
    var media := e.media(request.path);
    var frames := Dir(at.disk, e.hash(media)).frames;
    if e.plan(media) <= frames { TextsLand(e, request, frames); }
  }

  lemma ClassifyAdvances(e: Engine, request: Request, at: Point, free: bool)
    requires Steady(e, request, 6, at)
    ensures var media := e.media(request.path);
      var scenes := Scenes(e, media, Ascending(Dir(at.disk, e.hash(media)).frames));
      Advance(e, request, 6, at, free) ==
        Some(at.(rows := at.rows.(spans := scenes.spans, streamType := Some(scenes.streamType))))
  {
    hide Texts, Embeds, Ascending;
  }

  lemma ClassifyStage(e: Engine, request: Request, at: Point, free: bool)
    requires Steady(e, request, 6, at)
    ensures Steps(e, request, 6, at, free)
  {
    hide Advance, Texts, RowsAfter, Srt, Ascending;
    FullRows(e, request);
    ClassifyAdvances(e, request, at, free);
  }

  lemma EmbedAdvances(e: Engine, request: Request, at: Point, free: bool)
    requires Steady(e, request, 7, at)
    ensures var media := e.media(request.path);
      var embeds := Embeds(e, media, Ascending(Dir(at.disk, e.hash(media)).frames));
      Advance(e, request, 7, at, free) == Some(at.(rows := at.rows.(frames := Embedded(at.rows.frames, embeds))))
  {
    hide Texts, Scenes, Embeds, Embedded;
  }

  lemma EmbedStage(e: Engine, request: Request, at: Point, free: bool)
    requires Steady(e, request, 7, at)
    ensures Steps(e, request, 7, at, free)
  {
    hide Advance, Texts, Scenes, RowsAfter, Srt, Embedded, Embeds, Ascending, Bare;
    FullRows(e, request);
    EmbedAdvances(e, request, at, free);
    EmbeddedFromBare(e, request, Dir(at.disk, e.hash(e.media(request.path))).frames);
  }

  /** Every planned frame gets its embedding exactly when every one is on the disk. */
  lemma EmbeddedFromBare(e: Engine, request: Request, frames: set<Ms>)
    ensures var media := e.media(request.path);
      var plan := e.plan(media);
      Embedded(Bare(Planned(e, request)), Embeds(e, media, Ascending(frames)))
        == (map t | t in plan :: Some(e.embed(media, t)))
      <==> plan <= frames
  {
    hide Embeds, Embedded, Ascending;
    var media := e.media(request.path);
    var (shown, bare) := (Ascending(frames), Bare(Planned(e, request)));
    EmbeddingFills(e, media, shown, bare);
    assert bare.Keys == e.plan(media);
    assert forall t | t in bare :: bare[t] == None;
    assert forall t :: t in shown <==> t in frames;
    FilledIff(e, media, e.plan(media), frames, shown, bare, Embedded(bare, Embeds(e, media, shown)));
  }

  lemma FilledIff(e: Engine, media: string, plan: set<Ms>, frames: set<Ms>, shown: seq<Ms>,
                  bare: map<Ms, Option<Embedding>>, landed: map<Ms, Option<Embedding>>)
    requires bare.Keys == plan && forall t | t in bare :: bare[t] == None
    requires forall t :: t in shown <==> t in frames
    requires landed == map t | t in bare :: if t in shown then Some(e.embed(media, t)) else bare[t]
    ensures landed == (map t | t in plan :: Some(e.embed(media, t))) <==> plan <= frames
  {
    var full: map<Ms, Option<Embedding>> := map t | t in plan :: Some(e.embed(media, t));
    assert landed.Keys == full.Keys;
    if t :| t in plan && t !in frames {
      assert landed[t] == None && full[t].Some?;
    } else {
      forall t | t in plan ensures t in frames && landed[t] == full[t] {}
    }
  }

  lemma EveryStage(e: Engine, request: Request, i: nat, at: Point, free: bool)
    requires i < |STAGES| && Steady(e, request, i, at)
    ensures Steps(e, request, i, at, free)
  {
    hide Steps, Steady;
    if i == 0 {
      RegisterStage(e, request, at, free);
    } else if i == 1 {
      LocateStage(e, request, at, free);
    } else if i == 2 {
      TranscribeStage(e, request, at, free);
    } else if i == 3 {
      ParseStage(e, request, at, free);
    } else if i == 4 {
      FramesStage(e, request, at, free);
    } else if i == 5 {
      OcrStage(e, request, at, free);
    } else if i == 6 {
      ClassifyStage(e, request, at, free);
    } else {
      EmbedStage(e, request, at, free);
    }
  }
}
