/** The pipeline's eight stages, in execution order (src/kanomori/ingest/pipeline.py). */
module Stages {
  import opened Basics

  datatype Stage = Register | LocateMedia | Transcribe | ParseTranscript | Frames | Ocr | Classify | ImageEmbed

  const STAGES: seq<Stage> :=
    [Register, LocateMedia, Transcribe, ParseTranscript, Frames, Ocr, Classify, ImageEmbed]

  const ALL: set<Stage> :=
    {Register, LocateMedia, Transcribe, ParseTranscript, Frames, Ocr, Classify, ImageEmbed}

  function Index(s: Stage): (i: nat)
    ensures i < |STAGES| && STAGES[i] == s
  {
    match s
    case Register => 0
    case LocateMedia => 1
    case Transcribe => 2
    case ParseTranscript => 3
    case Frames => 4
    case Ocr => 5
    case Classify => 6
    case ImageEmbed => 7
  }

  function Name(s: Stage): string {
    match s
    case Register => "register"
    case LocateMedia => "locate_media"
    case Transcribe => "transcribe"
    case ParseTranscript => "parse_transcript"
    case Frames => "frames"
    case Ocr => "ocr"
    case Classify => "classify"
    case ImageEmbed => "image_embed"
  }

  /** The stage registry's lookup: None for a name that is no stage. */
  function Named(name: string): Option<Stage> {
    if name == "register" then Some(Register)
    else if name == "locate_media" then Some(LocateMedia)
    else if name == "transcribe" then Some(Transcribe)
    else if name == "parse_transcript" then Some(ParseTranscript)
    else if name == "frames" then Some(Frames)
    else if name == "ocr" then Some(Ocr)
    else if name == "classify" then Some(Classify)
    else if name == "image_embed" then Some(ImageEmbed)
    else None
  }

  lemma NamedInvertsName(s: Stage)
    ensures Named(Name(s)) == Some(s)
  {
  }

  /** The stages before position i. */
  function Below(i: nat): set<Stage> {
    set s | s in ALL && Index(s) < i
  }

  lemma InBelow(n: nat)
    ensures forall s :: s in Below(n) <==> Index(s) < n
  {
    forall s ensures s in ALL { AllIsAll({s}); }
  }

  ghost predicate IsPrefix(done: set<Stage>) {
    exists n: nat :: n <= |STAGES| && done == Below(n)
  }

  lemma BelowStep(i: nat)
    requires i < |STAGES|
    ensures Below(i + 1) == Below(i) + {STAGES[i]}
    ensures STAGES[i] !in Below(i) && Index(STAGES[i]) == i
  {
    assert Index(STAGES[i]) == i;
    forall s | s in Below(i + 1) ensures s in Below(i) + {STAGES[i]} {
      assert s == STAGES[Index(s)];
    }
  }

  lemma BelowEnds()
    ensures Below(0) == {} && Below(|STAGES|) == ALL
  {
    assert forall s :: s in ALL ==> Index(s) < |STAGES|;
  }

  lemma AllIsAll(done: set<Stage>)
    ensures done <= ALL
  {
    forall s | s in done ensures s in ALL {
      assert s == STAGES[Index(s)];
    }
  }
}
