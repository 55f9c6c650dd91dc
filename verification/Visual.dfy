/** The frames and ocr_segments tables, updated row by row (ingest/stages/frames.py, ocr.py and
    image_embed.py persist). Frames have ids; an OCR row points at its frame and goes with it. */
module Visual {
  import opened Basics
  import opened Stages
  import opened Rows

  type FrameId = nat

  datatype FrameRow = FrameRow(video: VideoId, ts: Ms, embedding: Option<Embedding>)
  datatype TextRow = TextRow(video: VideoId, frame: FrameId, row: OcrRow)

  /** UNIQUE (video_id, ts_sec) */
  ghost predicate Unique(frames: map<FrameId, FrameRow>) {
    forall a, b | a in frames && b in frames && frames[a].video == frames[b].video && frames[a].ts == frames[b].ts ::
      a == b
  }

  /** Each OCR row hangs on the frame of its own video and timestamp. */
  ghost predicate Anchored(texts: seq<TextRow>, frames: map<FrameId, FrameRow>) {
    forall t | t in texts :: t.frame in frames && frames[t.frame].video == t.video && frames[t.frame].ts == t.row.ts
  }

  /** m lists exactly the frames of v. */
  ghost predicate Shows(m: map<Ms, Option<Embedding>>, frames: map<FrameId, FrameRow>, v: VideoId) {
    && (forall id | id in frames && frames[id].video == v :: frames[id].ts in m && m[frames[id].ts] == frames[id].embedding)
    && (forall t | t in m :: Present(frames, v, t))
  }

  /** Is there a frame of v at t? The lookup in the unique index. */
  predicate Present(frames: map<FrameId, FrameRow>, v: VideoId, t: Ms) {
    exists id | id in frames :: frames[id].video == v && frames[id].ts == t
  }

  lemma FramesExist(frames: map<FrameId, FrameRow>, v: VideoId) returns (m: map<Ms, Option<Embedding>>)
    requires Unique(frames)
    ensures Shows(m, frames, v)
  {
    m := map id | id in frames && frames[id].video == v :: frames[id].ts := frames[id].embedding;
    forall t | t in m ensures Present(frames, v, t) {
      var id :| id in frames && frames[id].video == v && frames[id].ts == t;
    }
  }

  /** The frames of one video by timestamp. */
  ghost function FramesOf(frames: map<FrameId, FrameRow>, v: VideoId): (m: map<Ms, Option<Embedding>>)
    requires Unique(frames)
    ensures Shows(m, frames, v)
  {
    assert exists m :: Shows(m, frames, v) by { var m := FramesExist(frames, v); }
    var m :| Shows(m, frames, v);
    m
  }

  lemma ShownIsFramesOf(m: map<Ms, Option<Embedding>>, frames: map<FrameId, FrameRow>, v: VideoId)
    requires Unique(frames) && Shows(m, frames, v)
    ensures m == FramesOf(frames, v)
  {
    var n := FramesOf(frames, v);
    forall t ensures t in m <==> t in n {
      if t in m { var id :| id in frames && frames[id].video == v && frames[id].ts == t; }
      if t in n { var id :| id in frames && frames[id].video == v && frames[id].ts == t; }
    }
    forall t | t in m ensures m[t] == n[t] {
      var id :| id in frames && frames[id].video == v && frames[id].ts == t;
    }
  }

  function TextsOf(texts: seq<TextRow>, v: VideoId): seq<OcrRow> {
    if texts == [] then []
    else
      var last := texts[|texts| - 1];
      TextsOf(texts[..|texts| - 1], v) + (if last.video == v then [last.row] else [])
  }

  /** ON DELETE CASCADE: the OCR rows whose frame is still there. */
  function Surviving(texts: seq<TextRow>, frames: map<FrameId, FrameRow>): seq<TextRow> {
    if texts == [] then []
    else
      var last := texts[|texts| - 1];
      Surviving(texts[..|texts| - 1], frames) + (if last.frame in frames then [last] else [])
  }

  /** DELETE FROM ocr_segments WHERE video_id = v */
  function Without(texts: seq<TextRow>, v: VideoId): seq<TextRow> {
    if texts == [] then []
    else
      var last := texts[|texts| - 1];
      Without(texts[..|texts| - 1], v) + (if last.video != v then [last] else [])
  }

  lemma {:induction false} WithoutDeletes(texts: seq<TextRow>, v: VideoId, w: VideoId)
    ensures TextsOf(Without(texts, v), w) == if w == v then [] else TextsOf(texts, w)
  {
    if texts != [] {
      var n := |texts| - 1;
      WithoutDeletes(texts[..n], v, w);
      assert Without(texts[..n], v) + [] == Without(texts[..n], v);
      if texts[n].video != v { AppendedText(Without(texts[..n], v), texts[n], w); }
    }
  }

  lemma AppendedText(texts: seq<TextRow>, t: TextRow, w: VideoId)
    ensures TextsOf(texts + [t], w) == TextsOf(texts, w) + (if t.video == w then [t.row] else [])
  {
    assert (texts + [t])[..|texts|] == texts;
  }

  lemma {:induction false} WithoutIsPart(texts: seq<TextRow>, v: VideoId)
    ensures forall t | t in Without(texts, v) :: t in texts
  {
    if texts != [] { WithoutIsPart(texts[..|texts| - 1], v); }
  }

  /** Deleting a video's frames takes away exactly that video's OCR rows. */
  lemma {:induction false} CascadeDeletes(texts: seq<TextRow>, frames: map<FrameId, FrameRow>, v: VideoId)
    requires Anchored(texts, frames)
    ensures var kept := map id | id in frames && frames[id].video != v :: frames[id];
      Surviving(texts, kept) == Without(texts, v) && Anchored(Without(texts, v), kept)
  {
    if texts != [] {
      var n := |texts| - 1;
      assert texts[n] in texts;
      forall t | t in texts[..n] ensures t in texts {}
      CascadeDeletes(texts[..n], frames, v);
    }
  }

  lemma DeletingFrames(frames: map<FrameId, FrameRow>, v: VideoId)
    requires Unique(frames)
    ensures var kept := map id | id in frames && frames[id].video != v :: frames[id];
      && Unique(kept) && FramesOf(kept, v) == map[]
      && forall w | w != v :: FramesOf(kept, w) == FramesOf(frames, w)
  {
    var kept := map id | id in frames && frames[id].video != v :: frames[id];
    ShownIsFramesOf(map[], kept, v);
    forall w | w != v ensures FramesOf(kept, w) == FramesOf(frames, w) {
      forall t | t in FramesOf(frames, w) ensures Present(kept, w, t) {
        var id :| id in frames && frames[id].video == w && frames[id].ts == t;
        assert id in kept && kept[id] == frames[id];
      }
      ShownIsFramesOf(FramesOf(frames, w), kept, w);
    }
  }

  /** Writing one frame row writes one timestamp of its video. */
  lemma WritingFrame(frames: map<FrameId, FrameRow>, id: FrameId, row: FrameRow)
    requires Unique(frames)
    requires id in frames ==> frames[id].video == row.video && frames[id].ts == row.ts
    requires id !in frames ==> !Present(frames, row.video, row.ts)
    ensures var after := frames[id := row];
      && Unique(after)
      && FramesOf(after, row.video) == FramesOf(frames, row.video)[row.ts := row.embedding]
      && forall w | w != row.video :: FramesOf(after, w) == FramesOf(frames, w)
  {
    var after := frames[id := row];
    assert Unique(after);
    forall w ensures var m := FramesOf(frames, w);
      FramesOf(after, w) == if w == row.video then m[row.ts := row.embedding] else m
    {
      var m := FramesOf(frames, w);
      WritingShows(m, frames, id, row, w);
      ShownIsFramesOf(if w == row.video then m[row.ts := row.embedding] else m, after, w);
    }
  }

  lemma WritingShows(m: map<Ms, Option<Embedding>>, frames: map<FrameId, FrameRow>, id: FrameId, row: FrameRow, w: VideoId)
    requires Unique(frames) && Shows(m, frames, w)
    requires id in frames ==> frames[id].video == row.video && frames[id].ts == row.ts
    requires id !in frames ==> !Present(frames, row.video, row.ts)
    ensures Shows(if w == row.video then m[row.ts := row.embedding] else m, frames[id := row], w)
  {
    var after := frames[id := row];
    assert w == row.video ==> Present(after, w, row.ts) by { assert id in after && after[id] == row; }
    forall t | t in m && !(w == row.video && t == row.ts) ensures Present(after, w, t) {
      var k :| k in frames && frames[k].video == w && frames[k].ts == t;
      assert k in after && after[k] == frames[k];
    }
    forall k | k in after && after[k].video == w && k != id
      ensures k in frames && after[k] == frames[k] && (w == row.video ==> after[k].ts != row.ts)
    {
      assert k in frames;
      assert w == row.video && frames[k].ts == row.ts ==> Present(frames, row.video, row.ts);
    }
  }

  /** The tables frames and ocr_segments. */
  class VisualTables {
    var frames: map<FrameId, FrameRow>
    var nextFrame: FrameId
    var texts: seq<TextRow>

    ghost predicate Valid()
      reads this
    {
      Unique(frames) && Anchored(texts, frames) && forall id | id in frames :: id < nextFrame
    }

    constructor ()
      ensures Valid() && frames == map[] && texts == []
    {
      frames, nextFrame, texts := map[], 1, [];
    }

    /** INSERT ... ON CONFLICT (video_id, ts_sec): a frame that is there keeps its id and embedding. */
    method InsertFrame(v: VideoId, t: Ms)
      requires Valid()
      modifies this`frames, this`nextFrame
      ensures Valid()
      ensures var m := old(FramesOf(frames, v)); FramesOf(frames, v) == if t in m then m else m[t := None]
      ensures forall w | w != v :: FramesOf(frames, w) == old(FramesOf(frames, w))
    {
      if !Present(frames, v, t) {
        WritingFrame(frames, nextFrame, FrameRow(v, t, None));
        frames := frames[nextFrame := FrameRow(v, t, None)];
        nextFrame := nextFrame + 1;
      }
    }

    /** DELETE FROM frames WHERE video_id = v, and the cascade. */
    method DeleteFrames(v: VideoId)
      requires Valid()
      modifies this`frames, this`texts
      ensures Valid() && FramesOf(frames, v) == map[] && TextsOf(texts, v) == []
      ensures forall w | w != v :: FramesOf(frames, w) == old(FramesOf(frames, w))
      ensures forall w | w != v :: TextsOf(texts, w) == old(TextsOf(texts, w))
    {
      hide TextsOf, Without, Surviving;
      DeletingFrames(frames, v);
      CascadeDeletes(texts, frames, v);
      forall w { WithoutDeletes(texts, v, w); }
      frames := map id | id in frames && frames[id].video != v :: frames[id];
      texts := Surviving(texts, frames);
    }

    /** frames.persist: delete, cascade, insert. */
    method PersistFrames(v: VideoId, rows: seq<Ms>)
      requires Valid()
      modifies this`frames, this`nextFrame, this`texts
      ensures Valid()
      ensures FramesOf(frames, v) == Bare(rows) && TextsOf(texts, v) == []
      ensures forall w | w != v :: FramesOf(frames, w) == old(FramesOf(frames, w))
      ensures forall w | w != v :: TextsOf(texts, w) == old(TextsOf(texts, w))
    {
      hide FramesOf, TextsOf, Unique, Anchored;
      DeleteFrames(v);
      ghost var kept := texts;
      for i := 0 to |rows|
        invariant Valid() && texts == kept
        invariant FramesOf(frames, v) == Bare(rows[..i])
        invariant forall w | w != v :: FramesOf(frames, w) == old(FramesOf(frames, w))
      {
        assert rows[..i + 1] == rows[..i] + [rows[i]];
        InsertFrame(v, rows[i]);
      }
      assert rows[..|rows|] == rows;
    }

    /** SELECT id, ts_sec FROM frames WHERE video_id = v, as a dictionary by timestamp. */
    method FrameIds(v: VideoId) returns (ids: map<Ms, FrameId>)
      requires Valid()
      ensures ids.Keys == FramesOf(frames, v).Keys
      ensures forall t | t in ids :: ids[t] in frames && frames[ids[t]].video == v && frames[ids[t]].ts == t
    {
      ids := map id | id in frames && frames[id].video == v :: frames[id].ts := id;
    }

    /** INSERT INTO ocr_segments, under a frame of its video and timestamp. */
    method InsertText(v: VideoId, frame: FrameId, row: OcrRow)
      requires Valid() && frame in frames && frames[frame].video == v && frames[frame].ts == row.ts
      modifies this`texts
      ensures Valid() && TextsOf(texts, v) == old(TextsOf(texts, v)) + [row]
      ensures forall w | w != v :: TextsOf(texts, w) == old(TextsOf(texts, w))
    {
      forall w { AppendedText(texts, TextRow(v, frame, row), w); }
      texts := texts + [TextRow(v, frame, row)];
    }

    /** ocr.persist: delete, then insert each row under the frame of its timestamp; a row whose frame is
        missing breaks NOT NULL. */
    method PersistOcr(v: VideoId, rows: seq<OcrRow>) returns (ok: bool)
      requires Valid()
      modifies this`texts
      ensures ok <==> forall row | row in rows :: row.ts in FramesOf(frames, v)
      ensures ok ==> Valid() && TextsOf(texts, v) == rows
      ensures ok ==> forall w | w != v :: TextsOf(texts, w) == old(TextsOf(texts, w))
    {
      hide FramesOf, TextsOf, Without, Unique;
      WithoutIsPart(texts, v);
      forall w { WithoutDeletes(texts, v, w); }
      texts := Without(texts, v);
      var ids := FrameIds(v);
      for i := 0 to |rows|
        invariant Valid() && TextsOf(texts, v) == rows[..i]
        invariant forall w | w != v :: TextsOf(texts, w) == old(TextsOf(texts, w))
        invariant forall k | 0 <= k < i :: rows[k].ts in ids
      {
        if rows[i].ts !in ids {
          assert rows[i] in rows;
          return false;
        }
        InsertText(v, ids[rows[i].ts], rows[i]);
        assert rows[..i + 1] == rows[..i] + [rows[i]];
      }
      assert rows[..|rows|] == rows;
      ok := true;
    }

    /** UPDATE frames SET embedding = ... WHERE id = ... */
    method UpdateFrame(v: VideoId, id: FrameId, t: Ms, embedding: Embedding)
      requires Valid() && id in frames && frames[id].video == v && frames[id].ts == t
      modifies this`frames
      ensures Valid() && SameFrames(frames, old(frames))
      ensures FramesOf(frames, v) == old(FramesOf(frames, v))[t := Some(embedding)]
      ensures forall w | w != v :: FramesOf(frames, w) == old(FramesOf(frames, w))
    {
      var row := frames[id].(embedding := Some(embedding));
      WritingFrame(frames, id, row);
      frames := frames[id := row];
    }

    /** image_embed.persist: update the frames that exist. */
    method PersistEmbeddings(v: VideoId, rows: seq<EmbedRow>)
      requires Valid()
      modifies this`frames
      ensures Valid()
      ensures FramesOf(frames, v) == Embedded(old(FramesOf(frames, v)), rows)
      ensures forall w | w != v :: FramesOf(frames, w) == old(FramesOf(frames, w))
    {
      hide FramesOf, Unique, Anchored;
      var ids := FrameIds(v);
      for i := 0 to |rows|
        invariant Valid() && SameFrames(frames, old(frames))
        invariant FramesOf(frames, v) == Embedded(old(FramesOf(frames, v)), rows[..i])
        invariant forall w | w != v :: FramesOf(frames, w) == old(FramesOf(frames, w))
      {
        assert rows[..i + 1][..i] == rows[..i];
        EmbeddedKeepsFrames(old(FramesOf(frames, v)), rows[..i]);
        if rows[i].ts in ids { UpdateFrame(v, ids[rows[i].ts], rows[i].ts, rows[i].embedding); }
      }
      assert rows[..|rows|] == rows;
    }
  }

  /** The same ids, each with its video and timestamp. */
  ghost predicate SameFrames(a: map<FrameId, FrameRow>, b: map<FrameId, FrameRow>) {
    a.Keys == b.Keys && forall id | id in a :: a[id].video == b[id].video && a[id].ts == b[id].ts
  }
}
