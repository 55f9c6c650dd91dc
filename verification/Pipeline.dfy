/** What each stage computes from the request, the source and the worker's disk, and the sequential
    run of all stages (src/kanomori/ingest/stages, src/kanomori/ingest/pipeline.py). */
module Pipeline {
  import opened Basics
  import opened Stages
  import opened Rows
  import opened Lease
  import opened Protocol

  /** The deterministic tools a run calls: the source store, sha256, the karaoke keywords, KITS, the SRT
      parser and text embedder, frame planning, OCR, scene classification, and image embedding. */
  datatype Engine = Engine(
    media: string -> string,
    hash: string -> Hash,
    karaoke: string -> bool,
    kits: (string, bool, string) -> string,
    cues: string -> seq<Cue>,
    plan: string -> set<Ms>,
    read: (string, Ms) -> seq<string>,
    scenes: (string, seq<Ms>) -> (seq<Span>, string),
    embed: (string, Ms) -> Embedding)

  ghost predicate NoCollisions(e: Engine) {
    forall a: string, b: string :: e.hash(a) == e.hash(b) ==> a == b
  }

  lemma {:induction false} HasLeast(s: set<Ms>)
    requires s != {}
    ensures exists m :: m in s && forall x | x in s :: m <= x
  {
    assert (forall x: Ms :: x !in s) ==> s == {};
    var x: Ms :| x in s;
    var rest := s - {x};
    if rest == {} {
      assert s == {x};
    } else {
      HasLeast(rest);
      var m :| m in rest && forall y | y in rest :: m <= y;
      var least := if x < m then x else m;
      forall y | y in s ensures least <= y { assert y == x || y in rest; }
      assert least in s;
    }
  }

  lemma LeastFirst(s: set<Ms>, m: Ms, rest: seq<Ms>)
    requires m in s && forall x | x in s :: m <= x
    requires forall t :: t in rest <==> t in s - {m}
    requires forall i, j | 0 <= i < j < |rest| :: rest[i] < rest[j]
    ensures forall t :: t in [m] + rest <==> t in s
    ensures var r := [m] + rest; forall i, j | 0 <= i < j < |r| :: r[i] < r[j]
  {
    var r := [m] + rest;
    forall i, j | 0 <= i < j < |r| ensures r[i] < r[j] {
      assert rest[j - 1] in rest;
    }
  }

  /** A directory listing in timestamp order. */
  function Ascending(s: set<Ms>): (r: seq<Ms>)
    ensures forall t :: t in r <==> t in s
    ensures forall i, j | 0 <= i < j < |r| :: r[i] < r[j]
  {
    if s == {} then []
    else
      HasLeast(s);
      var m :| m in s && forall x | x in s :: m <= x;
      var rest := Ascending(s - {m});
      LeastFirst(s, m, rest);
      [m] + rest
  }

  const NOTHING := Artifacts(false, None, {})

  function Dir(disk: Disk, hash: Hash): Artifacts {
    if hash in disk then disk[hash] else NOTHING
  }

  function Texts(e: Engine, media: string, frames: seq<Ms>): seq<OcrRow> {
    if frames == [] then []
    else Lines(frames[0], e.read(media, frames[0])) + Texts(e, media, frames[1..])
  }

  function Lines(t: Ms, texts: seq<string>): seq<OcrRow> {
    seq(|texts|, i requires 0 <= i < |texts| => OcrRow(t, texts[i]))
  }

  function Embeds(e: Engine, media: string, frames: seq<Ms>): seq<EmbedRow> {
    seq(|frames|, i requires 0 <= i < |frames| => EmbedRow(frames[i], e.embed(media, frames[i])))
  }

  /** What classify pushes; without frames it is skipped, and the worker's empty result says chatting. */
  function Scenes(e: Engine, media: string, frames: seq<Ms>): Result {
    if frames == [] then ClassifyResult([], "chatting")
    else ClassifyResult(e.scenes(media, frames).0, e.scenes(media, frames).1)
  }

  /** decide_separate: the explicit flag, or a karaoke word in the title. */
  function Separate(e: Engine, title: string, explicit: bool): bool {
    explicit || (title != "" && e.karaoke(title))
  }

  datatype Outcome =
    | Raised
    | Computed(result: Option<Result>, files: bool, disk: Disk, separate: bool, skipped: bool)

  function ComputeStage(e: Engine, request: Request, stage: Stage, hash: Option<Hash>,
                              separate: bool, disk: Disk): Outcome
  {
    var media := e.media(request.path);
    if stage == Register then
      Computed(Some(RegisterResult(e.hash(media), request.hint)), false, disk, separate, false)
    else if hash.None? then Raised
    else
      var h := hash.value;
      var dir := Dir(disk, h);
      var shown := Ascending(dir.frames);
      match stage
      case Register => Raised
      case LocateMedia =>
        Computed(None, false, disk[h := dir.(audio := true)], Separate(e, request.title, separate), false)
      case Transcribe =>
        if !dir.audio then Raised
        else
          var srt := e.kits(media, separate, request.language);
          Computed(Some(TranscribeResult), true, disk[h := dir.(srt := Some(srt))], separate, false)
      case ParseTranscript =>
        if dir.srt.None? || e.cues(dir.srt.value) == [] then Raised
        else Computed(Some(TranscriptResult(e.cues(dir.srt.value))), false, disk, separate, false)
      case Frames =>
        if e.plan(media) == {} then Computed(Some(FramesResult([])), false, disk, separate, true)
        else
          Computed(Some(FramesResult(Ascending(e.plan(media)))), true,
                   disk[h := dir.(frames := dir.frames + e.plan(media))], separate, false)
      case Ocr => Computed(Some(OcrResult(Texts(e, media, shown))), false, disk, separate, shown == [])
      case Classify => Computed(Some(Scenes(e, media, shown)), false, disk, separate, shown == [])
      case ImageEmbed => Computed(Some(EmbedResult(Embeds(e, media, shown))), false, disk, separate, shown == [])
  }

  // ---- the uninterrupted run, in closed form --------------------------------------------------

  function Srt(e: Engine, request: Request): string {
    e.kits(e.media(request.path), Separate(e, request.title, request.separate), request.language)
  }

  function Planned(e: Engine, request: Request): seq<Ms> {
    Ascending(e.plan(e.media(request.path)))
  }

  /** The result of each stage in one in-order run on one machine. */
  function Expected(e: Engine, request: Request, stage: Stage): Option<Result> {
    var media := e.media(request.path);
    match stage
    case Register => Some(RegisterResult(e.hash(media), request.hint))
    case LocateMedia => None
    case Transcribe => Some(TranscribeResult)
    case ParseTranscript => Some(TranscriptResult(e.cues(Srt(e, request))))
    case Frames => Some(FramesResult(Planned(e, request)))
    case Ocr => Some(OcrResult(Texts(e, media, Planned(e, request))))
    case Classify => Some(Scenes(e, media, Planned(e, request)))
    case ImageEmbed => Some(EmbedResult(Embeds(e, media, Planned(e, request))))
  }

  /** The rows a video has when exactly `done` has landed: those stages' results and nothing else. */
  function RowsAfter(e: Engine, request: Request, done: set<Stage>): VideoRows {
    var media := e.media(request.path);
    var plan := e.plan(media);
    VideoRows(
      if Classify in done then Some(Scenes(e, media, Planned(e, request)).streamType) else request.hint,
      if ParseTranscript in done then e.cues(Srt(e, request)) else [],
      if Frames in done
      then map t | t in plan :: if ImageEmbed in done then Some(e.embed(media, t)) else None
      else map[],
      if Ocr in done then Texts(e, media, Planned(e, request)) else [],
      if Classify in done then Scenes(e, media, Planned(e, request)).spans else [])
  }

  lemma {:induction false} TextsAreOfFrames(e: Engine, media: string, frames: seq<Ms>)
    ensures forall row | row in Texts(e, media, frames) :: row.ts in frames
  {
    if frames != [] {
      TextsAreOfFrames(e, media, frames[1..]);
      forall row | row in Texts(e, media, frames) ensures row.ts in frames {
        if row !in Lines(frames[0], e.read(media, frames[0])) {
          assert row in Texts(e, media, frames[1..]);
        }
      }
    }
  }

  /** Embedding fills the rows of the frames given; a frame without a row is passed over. */
  lemma {:induction false} EmbeddingFills(e: Engine, media: string, frames: seq<Ms>, rows: map<Ms, Option<Embedding>>)
    ensures Embedded(rows, Embeds(e, media, frames)) ==
      map t | t in rows :: if t in frames then Some(e.embed(media, t)) else rows[t]
  {
    if frames != [] {
      var n := |frames| - 1;
      var before := Embedded(rows, Embeds(e, media, frames[..n]));
      assert Embeds(e, media, frames)[..n] == Embeds(e, media, frames[..n]);
      EmbeddingFills(e, media, frames[..n], rows);
      assert frames == frames[..n] + [frames[n]];
      EmbeddedKeepsFrames(rows, Embeds(e, media, frames[..n]));
    }
  }

  /** Landing the next stage of the prefix takes the closed form one stage further. */
  lemma LandingNext(e: Engine, request: Request, stage: Stage)
    requires stage != Register && stage != LocateMedia
    ensures var done := Below(Index(stage));
      var landed := Persisted(RowsAfter(e, request, done), Expected(e, request, stage).value);
      landed == Some(RowsAfter(e, request, Below(Index(stage) + 1)))
  {
    hide RowsAfter, Persisted, Below, Texts, Embeds, Scenes;
    if stage == Frames {
      LandingFrames(e, request);
    } else if stage == ImageEmbed {
      LandingEmbeddings(e, request);
    } else if stage == Ocr {
      LandingTexts(e, request);
    } else {
      LandingPlain(e, request, stage);
    }
  }

  lemma LandingTexts(e: Engine, request: Request)
    ensures Persisted(RowsAfter(e, request, Below(5)), Expected(e, request, Ocr).value)
      == Some(RowsAfter(e, request, Below(6)))
  {
    hide Texts, Ascending, Scenes;
    BelowStep(5);
    TextsAreOfFrames(e, e.media(request.path), Planned(e, request));
    assert Frames in Below(5) && Classify !in Below(6) && ImageEmbed !in Below(6) && ParseTranscript in Below(5);
    assert RowsAfter(e, request, Below(6)).frames == RowsAfter(e, request, Below(5)).frames;
  }

  lemma LandingPlain(e: Engine, request: Request, stage: Stage)
    requires stage != Register && stage != LocateMedia && stage != Frames && stage != Ocr && stage != ImageEmbed
    ensures Persisted(RowsAfter(e, request, Below(Index(stage))), Expected(e, request, stage).value)
      == Some(RowsAfter(e, request, Below(Index(stage) + 1)))
  {
    hide Texts, Ascending;
    BelowStep(Index(stage));
    assert RowsAfter(e, request, Below(Index(stage) + 1)).frames == RowsAfter(e, request, Below(Index(stage))).frames;
  }

  lemma LandingFrames(e: Engine, request: Request)
    ensures var before := RowsAfter(e, request, Below(4));
      Persisted(before, FramesResult(Planned(e, request))) == Some(RowsAfter(e, request, Below(5)))
  {
    hide Texts, Ascending, Scenes, Srt;
    BelowStep(4);
    assert Bare(Planned(e, request)) == RowsAfter(e, request, Below(5)).frames;
  }

  lemma LandingEmbeddings(e: Engine, request: Request)
    ensures var before := RowsAfter(e, request, Below(7));
      Persisted(before, Expected(e, request, ImageEmbed).value) == Some(RowsAfter(e, request, Below(8)))
  {
    hide Texts, Ascending, Scenes, Srt, Embeds, Embedded;
    BelowStep(7);
    var media := e.media(request.path);
    var before, after := RowsAfter(e, request, Below(7)), RowsAfter(e, request, Below(8));
    EmbeddingFills(e, media, Planned(e, request), before.frames);
    assert before.frames.Keys == e.plan(media) == after.frames.Keys;
    assert Embedded(before.frames, Embeds(e, media, Planned(e, request))) == after.frames;
    assert after == before.(frames := after.frames);
  }

  // ---- computing in order ---------------------------------------------------------------------

  /** What a worker at stage i must have for its results to be those of the uninterrupted run: the
      identity, the settled separate flag, no wrong transcript, and the planned frames. */
  ghost predicate Prepared(e: Engine, request: Request, i: nat, hash: Option<Hash>, separate: bool, disk: Disk) {
    var media := e.media(request.path);
    var dir := Dir(disk, e.hash(media));
    && (i > 0 ==> hash == Some(e.hash(media)))
    && (i < 2 ==> separate == request.separate)
    && (i == 2 ==> separate == Separate(e, request.title, request.separate))
    && (i == 3 && dir.srt.Some? ==> dir.srt.value == Srt(e, request))
    && dir.frames <= e.plan(media)
    && (i >= 5 ==> dir.frames == e.plan(media))
  }

  /** The files a stage fails without. */
  ghost predicate Provided(i: nat, dir: Artifacts) {
    (i == 2 ==> dir.audio) && (i == 3 ==> dir.srt.Some?)
  }

  /** A prepared stage raises or computes what the uninterrupted run computes, and prepares the next. */
  lemma ComputesExpected(e: Engine, request: Request, i: nat, hash: Option<Hash>, separate: bool, disk: Disk)
    requires i < |STAGES| && Prepared(e, request, i, hash, separate, disk)
    ensures var outcome := ComputeStage(e, request, STAGES[i], hash, separate, disk);
      var h := e.hash(e.media(request.path));
      && (outcome.Computed? ==>
            && outcome.result == Expected(e, request, STAGES[i])
            && outcome.files == (i == 2 || (i == 4 && e.plan(e.media(request.path)) != {}))
            && outcome.skipped == (i >= 4 && e.plan(e.media(request.path)) == {})
            && Prepared(e, request, i + 1, Some(h), outcome.separate, outcome.disk)
            && Provided(i + 1, Dir(outcome.disk, h))
            && (i == 3 ==> e.cues(Srt(e, request)) != []))
      && (Provided(i, Dir(disk, h)) && (i == 3 ==> e.cues(Srt(e, request)) != []) ==> outcome.Computed?)
  {
    assert Index(STAGES[i]) == i;
    EmptyPlan(e, request);
  }

  lemma EmptyPlan(e: Engine, request: Request)
    ensures Planned(e, request) == [] <==> e.plan(e.media(request.path)) == {}
  {
    var plan := e.plan(e.media(request.path));
    if plan != {} {
      HasLeast(plan);
      var m :| m in plan;
      assert m in Planned(e, request);
    }
  }

  // ---- run_full -------------------------------------------------------------------------------

  /** What run_full leaves: like the closed form, but a skipped classify writes no stream type. */
  function SequentialRows(e: Engine, request: Request): VideoRows {
    Sequentially(e, request, |STAGES|)
  }

  function Sequentially(e: Engine, request: Request, i: nat): VideoRows {
    var rows := RowsAfter(e, request, Below(i));
    if e.plan(e.media(request.path)) == {} then rows.(streamType := request.hint) else rows
  }
}
