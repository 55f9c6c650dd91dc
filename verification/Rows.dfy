/** What a stage computes, as it crosses the wire, and the rows the coordinator keeps per video. */
module Rows {
  import opened Basics
  import opened Stages

  type Hash = string
  type VideoId = nat
  /** A frame timestamp; the code rounds these to three digits, so they are whole milliseconds. */
  type Ms = int
  type Cue = string
  type Embedding = string

  datatype OcrRow = OcrRow(ts: Ms, text: string)
  datatype EmbedRow = EmbedRow(ts: Ms, embedding: Embedding)
  datatype Span = Span(start: real, end: real, scene: string, confidence: real)

  /** One constructor per stage result model (src/kanomori/ingest/stage_result.py). */
  datatype Result =
    | RegisterResult(hash: Hash, hint: Option<string>)
    | TranscribeResult
    | TranscriptResult(cues: seq<Cue>)
    | FramesResult(frames: seq<Ms>)
    | OcrResult(texts: seq<OcrRow>)
    | ClassifyResult(spans: seq<Span>, streamType: string)
    | EmbedResult(embeds: seq<EmbedRow>)

  /** Does the payload parse into the stage's model? A stage without a model takes anything. */
  predicate Parses(stage: Stage, result: Option<Result>) {
    match stage
    case LocateMedia => true
    case Register => result.Some? && result.value.RegisterResult?
    case Transcribe => result.Some? && result.value.TranscribeResult?
    case ParseTranscript => result.Some? && result.value.TranscriptResult?
    case Frames => result.Some? && result.value.FramesResult?
    case Ocr => result.Some? && result.value.OcrResult?
    case Classify => result.Some? && result.value.ClassifyResult?
    case ImageEmbed => result.Some? && result.value.EmbedResult?
  }

  /** The rows of one video: its stream type, transcript, frames with their embedding, OCR, scenes. */
  datatype VideoRows = VideoRows(
    streamType: Option<string>,
    cues: seq<Cue>,
    frames: map<Ms, Option<Embedding>>,
    texts: seq<OcrRow>,
    spans: seq<Span>)

  function Fresh(hint: Option<string>): VideoRows {
    VideoRows(hint, [], map[], [], [])
  }

  /** The frames a list of timestamps inserts, none of them embedded yet. */
  function Bare(frames: seq<Ms>): map<Ms, Option<Embedding>> {
    map t | t in frames :: None
  }

  /** Update the frames that exist, in order; a row for a missing frame is passed over. */
  function Embedded(frames: map<Ms, Option<Embedding>>, embeds: seq<EmbedRow>): map<Ms, Option<Embedding>> {
    if embeds == [] then frames
    else
      var last := embeds[|embeds| - 1];
      var before := Embedded(frames, embeds[..|embeds| - 1]);
      if last.ts in before then before[last.ts := Some(last.embedding)] else before
  }

  lemma {:induction false} EmbeddedKeepsFrames(frames: map<Ms, Option<Embedding>>, embeds: seq<EmbedRow>)
    ensures Embedded(frames, embeds).Keys == frames.Keys
  {
    if embeds != [] { EmbeddedKeepsFrames(frames, embeds[..|embeds| - 1]); }
  }

  /** Replace what the stage owns. None is a database error: an OCR row without its frame. */
  function Persisted(rows: VideoRows, result: Result): Option<VideoRows> {
    match result
    case RegisterResult(_, _) => Some(rows)
    case TranscribeResult => Some(rows)
    case TranscriptResult(cues) => Some(rows.(cues := cues))
    case FramesResult(frames) => Some(rows.(frames := Bare(frames), texts := []))
    case OcrResult(texts) =>
      if forall row | row in texts :: row.ts in rows.frames then Some(rows.(texts := texts)) else None
    case ClassifyResult(spans, streamType) => Some(rows.(spans := spans, streamType := Some(streamType)))
    case EmbedResult(embeds) => Some(rows.(frames := Embedded(rows.frames, embeds)))
  }
}
