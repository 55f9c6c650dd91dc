/** The single-machine orchestrator run_full (src/kanomori/ingest/pipeline.py), new or after a crash, and when it
    ends with the rows of one run without a crash. */
module FullRun {
  import opened Basics
  import opened Stages
  import opened Rows
  import opened Lease
  import opened Protocol
  import opened Pipeline
  import opened Continuation

  datatype State = Done | Skipped

  datatype Outcome = Raises | Ran(after: Point, state: State)

  /** stage.run(conn, ctx): compute, and persist unless skipped; register finds the hash and keeps the rows. */
  function RunStage(e: Engine, request: Request, stage: Stage, at: Point): Outcome {
    match ComputeStage(e, request, stage, at.hash, at.separate, at.disk)
    case Raised => Raises
    case Computed(result, _, disk, separate, skipped) =>
      if stage == Register then Ran(Point(Some(e.hash(e.media(request.path))), separate, disk, at.rows), Done)
      else if skipped then Ran(Point(at.hash, separate, disk, at.rows), Skipped)
      else if result.None? then Ran(Point(at.hash, separate, disk, at.rows), Done)
      else
        match Persisted(at.rows, result.value)
        case None => Raises
        case Some(rows) => Ran(Point(at.hash, separate, disk, rows), Done)
  }

  predicate Runs(stage: Stage, terminal: set<Stage>) {
    stage == Register || stage !in terminal
  }

  /** From stage i to the end, passing over the terminal stages; None when a stage raises. */
  function Through(e: Engine, request: Request, terminal: set<Stage>, i: nat, at: Point): Option<Point>
    decreases |STAGES| - i
  {
    if i >= |STAGES| then Some(at)
    else if !Runs(STAGES[i], terminal) then Through(e, request, terminal, i + 1, at)
    else
      match RunStage(e, request, STAGES[i], at)
      case Raises => None
      case Ran(after, _) => Through(e, request, terminal, i + 1, after)
  }

  function Shown(e: Engine, request: Request, disk: Disk): set<Ms> {
    Dir(disk, e.hash(e.media(request.path))).frames
  }

  /** Is this stage skipped, if it runs, on a machine that holds these frames? */
  predicate Skips(e: Engine, request: Request, stage: Stage, frames: set<Ms>) {
    if stage == Frames then e.plan(e.media(request.path)) == {} else Index(stage) > Index(Frames) && frames == {}
  }

  lemma NothingListed(s: set<Ms>)
    ensures Ascending(s) == [] <==> s == {}
  {
    if s != {} { HasLeast(s); }
  }

  /** When a stage is skipped, and that the frames change in the frames stage only. */
  lemma StageSkips(e: Engine, request: Request, i: nat, at: Point)
    requires i < |STAGES| && (i > 0 ==> at.hash == Some(e.hash(e.media(request.path))))
    ensures var run := RunStage(e, request, STAGES[i], at);
      run.Ran? ==>
        && run.after.hash == Some(e.hash(e.media(request.path)))
        && (run.state == Skipped <==> Skips(e, request, STAGES[i], Shown(e, request, at.disk)))
        && (i != Index(Frames) ==> Shown(e, request, run.after.disk) == Shown(e, request, at.disk))
  {
    hide Texts, Embeds, Scenes, Ascending, Persisted;
    assert Index(STAGES[i]) == i;
    NothingListed(Shown(e, request, at.disk));
  }

  /** The states after the stages below i, on a machine that then holds these frames. */
  ghost predicate Recorded(e: Engine, request: Request, terminal: map<Stage, State>, i: nat,
                           states: map<Stage, State>, frames: set<Ms>) {
    && states.Keys == terminal.Keys + Below(i)
    && (forall s | s in terminal && (Index(s) >= i || !Runs(s, terminal.Keys)) :: states[s] == terminal[s])
    && (forall s | s in Below(i) && Runs(s, terminal.Keys) ::
          states[s] == if Skips(e, request, s, frames) then Skipped else Done)
  }

  lemma RecordsStage(e: Engine, request: Request, terminal: map<Stage, State>, i: nat,
                     states: map<Stage, State>, before: set<Ms>, state: State, frames: set<Ms>)
    requires i < |STAGES| && Recorded(e, request, terminal, i, states, before) && Runs(STAGES[i], terminal.Keys)
    requires state == Skipped <==> Skips(e, request, STAGES[i], before)
    requires i != Index(Frames) ==> frames == before
    ensures Recorded(e, request, terminal, i + 1, states[STAGES[i] := state], frames)
  {
    hide Skips;
    BelowStep(i);
    var after := states[STAGES[i] := state];
    forall s | s in Below(i + 1) && Runs(s, terminal.Keys)
      ensures after[s] == if Skips(e, request, s, frames) then Skipped else Done
    {
      EarlySkips(e, request, s, before, frames);
    }
    assert Index(STAGES[i]) == i;
    forall s | s in terminal && (Index(s) >= i + 1 || !Runs(s, terminal.Keys)) ensures after[s] == terminal[s] {}
  }

  /** The frames on the machine decide about the visual stages only. */
  lemma EarlySkips(e: Engine, request: Request, stage: Stage, a: set<Ms>, b: set<Ms>)
    ensures Index(stage) <= Index(Frames) ==> Skips(e, request, stage, a) == Skips(e, request, stage, b)
  {
  }

  lemma PassesOver(e: Engine, request: Request, terminal: map<Stage, State>, i: nat,
                   states: map<Stage, State>, frames: set<Ms>)
    requires i < |STAGES| && Recorded(e, request, terminal, i, states, frames) && !Runs(STAGES[i], terminal.Keys)
    ensures Recorded(e, request, terminal, i + 1, states, frames)
  {
    BelowStep(i);
  }

  lemma RecordsAll(e: Engine, request: Request, terminal: map<Stage, State>, states: map<Stage, State>, frames: set<Ms>)
    requires Recorded(e, request, terminal, |STAGES|, states, frames)
    ensures states.Keys == ALL
  {
    BelowEnds();
    AllIsAll(terminal.Keys);
  }

  /** Run every stage in order, passing over the terminal ones but for register. */
  method RunFull(e: Engine, request: Request, start: Disk, found: VideoRows, terminal: map<Stage, State>)
    returns (ok: bool, rows: VideoRows, states: map<Stage, State>)
    ensures var end := Through(e, request, terminal.Keys, 0, Point(None, request.separate, start, found));
      && (ok <==> end.Some?)
      && (ok ==> rows == end.value.rows && states.Keys == ALL)
      && (ok ==> forall s | s in ALL && !Runs(s, terminal.Keys) :: states[s] == terminal[s])
      && (ok ==> forall s | s in ALL && Runs(s, terminal.Keys) ::
            states[s] == if Skips(e, request, s, Shown(e, request, end.value.disk)) then Skipped else Done)
  {
    hide RunStage, Shown, Skips;
    var at := Point(None, request.separate, start, found);
    ghost var begin := at;
    states := terminal;
    BelowEnds();
    for i := 0 to |STAGES|
      invariant i > 0 ==> at.hash == Some(e.hash(e.media(request.path)))
      invariant Through(e, request, terminal.Keys, 0, begin) == Through(e, request, terminal.Keys, i, at)
      invariant Recorded(e, request, terminal, i, states, Shown(e, request, at.disk))
    {
      hide Recorded;
      if Runs(STAGES[i], terminal.Keys) {
        StageSkips(e, request, i, at);
        var run := RunStage(e, request, STAGES[i], at);
        if run.Raises? {
          return false, at.rows, states;
        }
        RecordsStage(e, request, terminal, i, states, Shown(e, request, at.disk), run.state, Shown(e, request, run.after.disk));
        at := run.after;
        states := states[STAGES[i] := run.state];
      } else {
        PassesOver(e, request, terminal, i, states, Shown(e, request, at.disk));
      }
    }
    RecordsAll(e, request, terminal, states, Shown(e, request, at.disk));
    ok, rows := true, at.rows;
  }

  // ---- when it ends with the rows of one run ---------------------------------------------------

  /** Classify leaves the scenes of the plan; without planned frames it has to be skipped, or to leave no scene and
      the stream type that is there. */
  predicate SameScenes(e: Engine, request: Request, frames: set<Ms>) {
    var media := e.media(request.path);
    var scenes := Scenes(e, media, Ascending(frames));
    if e.plan(media) == {} then frames == {} || (scenes.spans == [] && request.hint == Some(scenes.streamType))
    else scenes == Scenes(e, media, Planned(e, request))
  }

  /** No planned frame is missing, and frames outside the plan leave texts and scenes as they are. */
  ghost predicate Sees(e: Engine, request: Request, n: nat, frames: set<Ms>) {
    var media := e.media(request.path);
    && (n <= Index(ImageEmbed) ==> e.plan(media) <= frames)
    && (n <= Index(Classify) ==> SameScenes(e, request, frames))
    && (n <= Index(Ocr) ==> forall t | t in frames - e.plan(media) :: e.read(media, t) == [])
  }

  /** Can a run with the first n stages terminal end with the rows of one run, on this disk? */
  ghost predicate CanFinish(e: Engine, request: Request, n: nat, disk: Disk) {
    var dir := Dir(disk, e.hash(e.media(request.path)));
    Transcribes(e, request, n, request.separate, dir) && Sees(e, request, n, Found(e, request, n, dir))
  }

  /** What holds on the way whatever the disk. */
  ghost predicate OnTheWay(e: Engine, request: Request, i: nat, at: Point) {
    && at.hash == Some(e.hash(e.media(request.path)))
    && (i < 2 ==> at.separate == request.separate)
    && (i <= 4 ==> at.rows.frames == map[])
    && (5 <= i <= 7 ==> at.rows.frames == Bare(Planned(e, request)))
    && (i <= 5 ==> at.rows.texts == [])
    && (i <= 6 ==> at.rows.spans == [] && at.rows.streamType == request.hint)
  }

  /** The rows that will not change any more are those of one run. */
  ghost predicate SoFar(e: Engine, request: Request, i: nat, rows: VideoRows) {
    var full := SequentialRows(e, request);
    && (i > Index(ParseTranscript) ==> rows.cues == full.cues)
    && (i > Index(Ocr) ==> rows.texts == full.texts)
    && (i > Index(Classify) ==> rows.spans == full.spans && rows.streamType == full.streamType)
    && (i > Index(ImageEmbed) ==> rows.frames == full.frames)
  }

  ghost predicate Wants(e: Engine, request: Request, i: nat, at: Point) {
    var dir := Dir(at.disk, e.hash(e.media(request.path)));
    && Transcribes(e, request, i, at.separate, dir)
    && Sees(e, request, i, Found(e, request, i, dir))
    && SoFar(e, request, i, at.rows)
  }

  ghost predicate Leads(e: Engine, request: Request, i: nat, at: Point)
    requires i < |STAGES|
  {
    var run := RunStage(e, request, STAGES[i], at);
    && (Wants(e, request, i, at) <==> run.Ran? && Wants(e, request, i + 1, run.after))
    && (run.Ran? ==> OnTheWay(e, request, i + 1, run.after))
  }

  lemma WholeRows(e: Engine, request: Request)
    ensures var media := e.media(request.path);
      var full := SequentialRows(e, request);
      && full.cues == e.cues(Srt(e, request))
      && full.texts == Texts(e, media, Planned(e, request))
      && full.frames == (map t | t in e.plan(media) :: Some(e.embed(media, t)))
      && (if e.plan(media) == {} then full.texts == [] && full.spans == [] && full.streamType == request.hint
          else Scenes(e, media, Planned(e, request)) == ClassifyResult(full.spans, full.streamType.value) && full.streamType.Some?)
  {
    hide Texts, Ascending, Srt;
    BelowEnds();
    FullRows(e, request);
    EmptyPlan(e, request);
    NoTexts(e, e.media(request.path));
  }

  lemma NoTexts(e: Engine, media: string)
    ensures Texts(e, media, []) == []
  {
  }

  lemma SeesTheSame(e: Engine, request: Request, i: nat, frames: set<Ms>)
    requires i < 5
    ensures Sees(e, request, i, frames) <==> Sees(e, request, i + 1, frames)
  {
    hide SameScenes;
  }

  lemma LocateLeads(e: Engine, request: Request, at: Point)
    requires OnTheWay(e, request, 1, at)
    ensures Leads(e, request, 1, at)
  {
    hide Sees, SequentialRows, Texts, Scenes, Ascending, Embeds, Persisted;
    SeesTheSame(e, request, 1, Found(e, request, 1, Dir(at.disk, e.hash(e.media(request.path)))));
  }

  lemma TranscribeLeads(e: Engine, request: Request, at: Point)
    requires OnTheWay(e, request, 2, at)
    ensures Leads(e, request, 2, at)
  {
    hide Sees, SequentialRows, Texts, Scenes, Ascending, Embeds, Srt;
    SeesTheSame(e, request, 2, Found(e, request, 2, Dir(at.disk, e.hash(e.media(request.path)))));
  }

  lemma ParseLeads(e: Engine, request: Request, at: Point)
    requires OnTheWay(e, request, 3, at)
    ensures Leads(e, request, 3, at)
  {
    hide Sees, SequentialRows, Texts, Scenes, Ascending, Embeds, Srt;
    WholeRows(e, request);
    SeesTheSame(e, request, 3, Found(e, request, 3, Dir(at.disk, e.hash(e.media(request.path)))));
  }

  lemma FramesLead(e: Engine, request: Request, at: Point)
    requires OnTheWay(e, request, 4, at)
    ensures Leads(e, request, 4, at)
  {
    hide Sees, SequentialRows, Texts, Scenes, Ascending, Embeds, Srt;
    var plan := e.plan(e.media(request.path));
    var dir := Dir(at.disk, e.hash(e.media(request.path)));
    EmptyPlan(e, request);
    if plan == {} { assert dir.frames + plan == dir.frames; }
    assert Bare([]) == map[];
    SeesTheSame(e, request, 4, Found(e, request, 4, dir));
  }

  /** A visual stage on a disk that shows frames lands as it does in the distributed run; otherwise it is skipped. */
  lemma VisualStage(e: Engine, request: Request, i: nat, at: Point)
    requires 5 <= i <= 7 && OnTheWay(e, request, i, at)
    ensures var run := RunStage(e, request, STAGES[i], at);
      if Shown(e, request, at.disk) == {} then run == Ran(at, Skipped)
      else
        match Advance(e, request, i, at, true)
        case None => run == Raises
        case Some(after) => run == Ran(after, Done)
  {
    hide Texts, Scenes, Ascending, Embeds, Persisted;
    NothingListed(Shown(e, request, at.disk));
  }

  lemma OcrLeads(e: Engine, request: Request, at: Point)
    requires OnTheWay(e, request, 5, at)
    ensures Leads(e, request, 5, at)
  {
    hide Advance, RunStage, SequentialRows, Texts, Scenes, Ascending, Srt, SameScenes;
    WholeRows(e, request);
    VisualStage(e, request, 5, at);
    OcrAdvances(e, request, at, true);
    var frames := Shown(e, request, at.disk);
    if e.plan(e.media(request.path)) <= frames { TextsLand(e, request, frames); }
  }

  lemma ScenesAreScenes(e: Engine, request: Request, frames: set<Ms>)
    ensures Scenes(e, e.media(request.path), Ascending(frames)).ClassifyResult?
  {
    hide Ascending;
  }

  lemma ClassifyLeads(e: Engine, request: Request, at: Point)
    requires OnTheWay(e, request, 6, at)
    ensures Leads(e, request, 6, at)
  {
    hide Advance, RunStage, SequentialRows, Texts, Ascending, Srt, Scenes;
    WholeRows(e, request);
    ScenesAreScenes(e, request, Shown(e, request, at.disk));
    VisualStage(e, request, 6, at);
    ClassifyAdvances(e, request, at, true);
  }

  /** Bare frames are as good as embedded ones exactly when there are none. */
  lemma BareIsWhole(e: Engine, request: Request)
    ensures var media := e.media(request.path);
      Bare(Planned(e, request)) == (map t | t in e.plan(media) :: Some(e.embed(media, t))) <==> e.plan(media) == {}
  {
    hide Ascending;
    var media := e.media(request.path);
    var full: map<Ms, Option<Embedding>> := map t | t in e.plan(media) :: Some(e.embed(media, t));
    var bare := Bare(Planned(e, request));
    assert bare.Keys == full.Keys == e.plan(media);
    if e.plan(media) != {} {
      var t :| t in e.plan(media);
      assert bare[t] == None && full[t].Some?;
    }
  }

  lemma EmbedLeads(e: Engine, request: Request, at: Point)
    requires OnTheWay(e, request, 7, at)
    ensures Leads(e, request, 7, at)
  {
    hide Advance, RunStage, SequentialRows, Texts, Ascending, Srt, Scenes, Embedded, Embeds, SameScenes, Bare;
    WholeRows(e, request);
    BareIsWhole(e, request);
    VisualStage(e, request, 7, at);
    EmbedAdvances(e, request, at, true);
    EmbeddedFromBare(e, request, Shown(e, request, at.disk));
  }

  lemma EveryStageLeads(e: Engine, request: Request, i: nat, at: Point)
    requires 0 < i < |STAGES| && OnTheWay(e, request, i, at)
    ensures Leads(e, request, i, at)
  {
    hide Leads, OnTheWay;
    if i == 1 {
      LocateLeads(e, request, at);
    } else if i == 2 {
      TranscribeLeads(e, request, at);
    } else if i == 3 {
      ParseLeads(e, request, at);
    } else if i == 4 {
      FramesLead(e, request, at);
    } else if i == 5 {
      OcrLeads(e, request, at);
    } else if i == 6 {
      ClassifyLeads(e, request, at);
    } else {
      EmbedLeads(e, request, at);
    }
  }

  /** From stage i on, with the stages below n terminal. */
  lemma {:induction false} LeadsToTheEnd(e: Engine, request: Request, n: nat, i: nat, at: Point)
    requires 0 < i <= |STAGES| && n <= i && OnTheWay(e, request, i, at)
    ensures var end := Through(e, request, Below(n), i, at);
      Wants(e, request, i, at) <==> end.Some? && end.value.rows == SequentialRows(e, request)
    decreases |STAGES| - i
  {
    hide Wants, OnTheWay, RunStage, SequentialRows, Below;
    if i == |STAGES| {
      NothingWanted(e, request, at);
    } else {
      NotTerminal(n, i);
      EveryStageLeads(e, request, i, at);
      var run := RunStage(e, request, STAGES[i], at);
      if run.Ran? { LeadsToTheEnd(e, request, n, i + 1, run.after); }
    }
  }

  lemma NotTerminal(n: nat, i: nat)
    requires n <= i < |STAGES|
    ensures Runs(STAGES[i], Below(n))
  {
    assert Index(STAGES[i]) == i;
  }

  lemma NothingWanted(e: Engine, request: Request, at: Point)
    ensures Wants(e, request, |STAGES|, at) <==> at.rows == SequentialRows(e, request)
  {
    hide SequentialRows;
  }

  /** The stages from i to n are passed over. */
  lemma {:induction false} PassesTerminal(e: Engine, request: Request, n: nat, i: nat, at: Point)
    requires 0 < i <= n <= |STAGES|
    ensures Through(e, request, Below(n), i, at) == Through(e, request, Below(n), n, at)
    decreases n - i
  {
    hide RunStage;
    if i < n {
      assert Index(STAGES[i]) == i && STAGES[i] != Register;
      PassesTerminal(e, request, n, i + 1, at);
    }
  }

  lemma StartsOnTheWay(e: Engine, request: Request, n: nat, disk: Disk) returns (at: Point)
    requires n <= |STAGES|
    ensures at == Point(Some(e.hash(e.media(request.path))), request.separate, disk, Sequentially(e, request, n))
    ensures var next := if n == 0 then 1 else n;
      && OnTheWay(e, request, next, at)
      && (CanFinish(e, request, n, disk) <==> Wants(e, request, next, at))
  {
    hide Texts, Scenes, Srt, Ascending, Sees, SameScenes;
    at := Point(Some(e.hash(e.media(request.path))), request.separate, disk, Sequentially(e, request, n));
    WholeRows(e, request);
    RowsOfPrefix(e, request, n);
    if n == 0 { SeesTheSame(e, request, 0, Found(e, request, 0, Dir(disk, e.hash(e.media(request.path))))); }
  }

  lemma RowsOfPrefix(e: Engine, request: Request, n: nat)
    requires n <= |STAGES|
    ensures var rows := Sequentially(e, request, n);
      && SoFar(e, request, n, rows)
      && (n <= 4 ==> rows.frames == map[]) && (5 <= n <= 7 ==> rows.frames == Bare(Planned(e, request)))
      && (n <= 5 ==> rows.texts == []) && (n <= 6 ==> rows.spans == [] && rows.streamType == request.hint)
  {
    hide Below, Texts, Scenes, Srt, Ascending;
    BelowEnds();
    InBelow(n);
    InBelow(|STAGES|);
  }

  lemma RegisterFinds(e: Engine, request: Request, disk: Disk, rows: VideoRows)
    ensures RunStage(e, request, Register, Point(None, request.separate, disk, rows))
      == Ran(Point(Some(e.hash(e.media(request.path))), request.separate, disk, rows), Done)
  {
  }

  /** Register runs, and the other terminal stages are passed over. */
  lemma PassesOverTheDone(e: Engine, request: Request, n: nat, disk: Disk, rows: VideoRows)
    requires n <= |STAGES|
    ensures var hash := e.hash(e.media(request.path));
      Through(e, request, Below(n), 0, Point(None, request.separate, disk, rows))
      == Through(e, request, Below(n), if n == 0 then 1 else n, Point(Some(hash), request.separate, disk, rows))
  {
    hide RunStage, Below;
    var at := Point(Some(e.hash(e.media(request.path))), request.separate, disk, rows);
    RegisterFinds(e, request, disk, rows);
    if n > 0 { PassesTerminal(e, request, n, 1, at); }
  }

  /**
   * After a crash with n stages terminal, or on a new video: run_full ends with the rows of one run exactly when
   * the transcript it lands has the sequential cues, no planned frame is missing, and frames outside the plan
   * leave texts and scenes as they are.
   */
  lemma FullRunIsSequentialIff(e: Engine, request: Request, n: nat, disk: Disk)
    requires n <= |STAGES|
    ensures var end := Through(e, request, Below(n), 0, Point(None, request.separate, disk, Sequentially(e, request, n)));
      CanFinish(e, request, n, disk) <==> end.Some? && end.value.rows == SequentialRows(e, request)
  {
    hide OnTheWay, Wants, CanFinish, Sequentially, Through, Below, SequentialRows;
    var at := StartsOnTheWay(e, request, n, disk);
    PassesOverTheDone(e, request, n, disk, at.rows);
    LeadsToTheEnd(e, request, n, if n == 0 then 1 else n, at);
  }

  /** On a machine without frames of another plan: a new video fails exactly on a transcript without a sentence, and
      after a crash the next stage must find what it reads. */
  lemma WithoutOtherFrames(e: Engine, request: Request, n: nat, disk: Disk)
    requires n <= |STAGES| && Shown(e, request, disk) <= e.plan(e.media(request.path))
    ensures CanFinish(e, request, n, disk) <==>
      && Transcribes(e, request, n, request.separate, Dir(disk, e.hash(e.media(request.path))))
      && (Index(Frames) < n <= Index(ImageEmbed) ==> Shown(e, request, disk) == e.plan(e.media(request.path)))
    ensures n == 0 ==> (CanFinish(e, request, n, disk) <==> e.cues(Srt(e, request)) != [])
  {
    hide Scenes, Ascending;
    var (frames, plan) := (Shown(e, request, disk), e.plan(e.media(request.path)));
    assert frames + plan == plan;
  }

  lemma {:induction false} RaisesWithoutCues(e: Engine, request: Request, n: nat, i: nat, at: Point)
    requires 0 < i <= 3 && n <= i && Prepared(e, request, i, at.hash, at.separate, at.disk)
    requires e.cues(Srt(e, request)) == []
    ensures Through(e, request, Below(n), i, at).None?
    decreases 3 - i
  {
    hide Prepared, ComputeStage, Below, Srt;
    NotTerminal(n, i);
    assert Index(STAGES[i]) == i && STAGES[i] != Register;
    ComputesExpected(e, request, i, at.hash, at.separate, at.disk);
    HashIsKnown(e, request, i, at);
    var run := RunStage(e, request, STAGES[i], at);
    if run.Ran? {
      if i < 3 { RaisesWithoutCues(e, request, n, i + 1, run.after); }
    }
  }

  lemma HashIsKnown(e: Engine, request: Request, i: nat, at: Point)
    requires i > 0 && Prepared(e, request, i, at.hash, at.separate, at.disk)
    ensures at.hash == Some(e.hash(e.media(request.path)))
  {
  }

  /** Where the machine has what a run up to here would have left it, run_full fails exactly on a transcript
      without a sentence. */
  lemma FailsOnlyWithoutCues(e: Engine, request: Request, n: nat, disk: Disk)
    requires n <= 3 && Provided(n, Dir(disk, e.hash(e.media(request.path))))
    requires Prepared(e, request, n, if n == 0 then None else Some(e.hash(e.media(request.path))), request.separate, disk)
    ensures Through(e, request, Below(n), 0, Point(None, request.separate, disk, Sequentially(e, request, n))).Some?
      <==> e.cues(Srt(e, request)) != []
  {
    hide Sequentially, SequentialRows, CanFinish, ComputeStage, Sees, Scenes, Through, Below;
    WithoutOtherFrames(e, request, n, disk);
    FullRunIsSequentialIff(e, request, n, disk);
    if e.cues(Srt(e, request)) == [] {
      var next := if n == 0 then 1 else n;
      var at := Point(Some(e.hash(e.media(request.path))), request.separate, disk, Sequentially(e, request, n));
      PassesOverTheDone(e, request, n, disk, at.rows);
      RaisesWithoutCues(e, request, n, next, at);
    }
  }
}
