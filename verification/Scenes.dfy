/** Scene spans over labelled frames (src/kanomori/ingest/stages/classify.py), and reading them back. */
module Scenes {
  import opened Basics
  import opened Rows

  datatype Label = Label(ts: real, scene: string, confidence: real)

  const DEFAULT_TAIL := 8.0

  /** The smallest positive gap between neighbours, if any. */
  function SmallestGap(labels: seq<Label>): (gap: Option<real>)
    ensures gap.Some? ==> gap.value > 0.0
  {
    if |labels| < 2 then None
    else
      var n := |labels| - 1;
      var before := SmallestGap(labels[..n]);
      var step := labels[n].ts - labels[n - 1].ts;
      if step > 0.0 && (before.None? || step < before.value) then Some(step) else before
  }

  function TailInterval(labels: seq<Label>): (tail: real)
    ensures tail > 0.0
  {
    var gap := SmallestGap(labels);
    if gap.Some? then gap.value else DEFAULT_TAIL
  }

  function Total(labels: seq<Label>): real {
    if labels == [] then 0.0 else Total(labels[..|labels| - 1]) + labels[|labels| - 1].confidence
  }

  /** Indices [first, end) of neighbouring frames of one scene. */
  datatype Stretch = Stretch(first: nat, end: nat)

  /** The maximal stretches of one scene, left to right. */
  function Runs(labels: seq<Label>): (runs: seq<Stretch>)
    ensures forall j | 0 <= j < |runs| :: runs[j].first < runs[j].end <= |labels|
    ensures if labels == [] then runs == [] else runs != [] && runs[0].first == 0 && runs[|runs| - 1].end == |labels|
  {
    if labels == [] then []
    else
      var n := |labels| - 1;
      var before := Runs(labels[..n]);
      if n > 0 && labels[n].scene == labels[n - 1].scene then
        before[|before| - 1 := Stretch(before[|before| - 1].first, n + 1)]
      else
        before + [Stretch(n, n + 1)]
  }

  lemma {:induction false} RunsAreUniform(labels: seq<Label>, j: nat, i: nat)
    requires j < |Runs(labels)| && Runs(labels)[j].first <= i < Runs(labels)[j].end
    ensures labels[i].scene == labels[Runs(labels)[j].first].scene
  {
    var n := |labels| - 1;
    var before := Runs(labels[..n]);
    if j < |before| {
      if i < n {
        RunsAreUniform(labels[..n], j, i);
      } else if n > 0 {
        RunsAreUniform(labels[..n], j, n - 1);
      }
    }
  }

  lemma {:induction false} RunsMeet(labels: seq<Label>, j: nat)
    requires 0 < j < |Runs(labels)|
    ensures Runs(labels)[j - 1].end == Runs(labels)[j].first
    ensures labels[Runs(labels)[j - 1].first].scene != labels[Runs(labels)[j].first].scene
  {
    var n := |labels| - 1;
    var before := Runs(labels[..n]);
    if j < |before| {
      RunsMeet(labels[..n], j);
    } else {
      RunsAreUniform(labels[..n], j - 1, n - 1);
    }
  }

  function Emitted(start: real, end: real, run: seq<Label>): Span
    requires run != []
  {
    Span(start, end, run[0].scene, Total(run) / |run| as real)
  }

  /** When index end is reached: at that frame, or for the last run the tail interval past the last frame. */
  function EndOf(labels: seq<Label>, end: nat): real
    requires labels != []
  {
    if end < |labels| then labels[end].ts else labels[|labels| - 1].ts + TailInterval(labels)
  }

  function SpanOf(labels: seq<Label>, run: Stretch): Span
    requires run.first < run.end <= |labels|
  {
    Emitted(labels[run.first].ts, EndOf(labels, run.end), labels[run.first..run.end])
  }

  lemma SpanEnds(labels: seq<Label>, run: Stretch)
    requires run.first < run.end <= |labels|
    ensures var s := SpanOf(labels, run);
      && s.start == labels[run.first].ts && s.end == EndOf(labels, run.end) && s.scene == labels[run.first].scene
      && s == Emitted(s.start, s.end, labels[run.first..run.end])
  {
    hide EndOf, Total;
  }

  function Spans(labels: seq<Label>): (spans: seq<Span>)
    ensures |spans| == |Runs(labels)|
    ensures forall j | 0 <= j < |spans| :: spans[j] == SpanOf(labels, Runs(labels)[j])
  {
    seq(|Runs(labels)|, j requires 0 <= j < |Runs(labels)| => SpanOf(labels, Runs(labels)[j]))
  }

  ghost predicate Closed(labels: seq<Label>, run: Stretch, s: Span) {
    run.first < run.end < |labels| && s == SpanOf(labels, run)
  }

  lemma RunsStep(labels: seq<Label>, i: nat)
    requires 0 < i < |labels|
    ensures var before := Runs(labels[..i]);
      Runs(labels[..i + 1]) ==
        if labels[i].scene == labels[i - 1].scene
        then before[|before| - 1 := Stretch(before[|before| - 1].first, i + 1)]
        else before + [Stretch(i, i + 1)]
  {
    assert labels[..i + 1][..i] == labels[..i];
  }

  lemma RunsOfOne(labels: seq<Label>)
    requires labels != []
    ensures Runs(labels[..1]) == [Stretch(0, 1)]
  {
    assert labels[..1][..0] == [];
  }

  lemma ClosesAt(labels: seq<Label>, first: nat, i: nat)
    requires first < i < |labels|
    ensures Closed(labels, Stretch(first, i), Emitted(labels[first].ts, labels[i].ts, labels[first..i]))
  {
  }

  lemma LastCloses(labels: seq<Label>, segments: seq<Span>)
    requires labels != [] && |segments| == |Runs(labels)| - 1
    requires forall j | 0 <= j < |segments| :: Closed(labels, Runs(labels)[j], segments[j])
    ensures var first := Runs(labels)[|segments|].first;
      segments + [Emitted(labels[first].ts, labels[|labels| - 1].ts + TailInterval(labels), labels[first..|labels|])]
      == Spans(labels)
  {
    hide Runs, Emitted, TailInterval;
  }

  /** What the loop has built from the first i labels: the closed spans, and the open run and its start. */
  ghost predicate Building(labels: seq<Label>, i: nat, segments: seq<Span>, start: real, run: seq<Label>) {
    && 0 < i <= |labels|
    && run != []
    && var runs := Runs(labels[..i]);
    && |segments| == |runs| - 1
    && (forall j | 0 <= j < |segments| :: Closed(labels, runs[j], segments[j]))
    && start == labels[runs[|segments|].first].ts && run == labels[runs[|segments|].first..i]
  }

  lemma StartsBuilding(labels: seq<Label>)
    requires labels != []
    ensures Building(labels, 1, [], labels[0].ts, [labels[0]])
  {
    RunsOfOne(labels);
  }

  lemma RunContinues(labels: seq<Label>, i: nat, segments: seq<Span>, start: real, run: seq<Label>)
    requires i < |labels| && Building(labels, i, segments, start, run) && labels[i].scene == labels[i - 1].scene
    ensures Building(labels, i + 1, segments, start, run + [labels[i]])
  {
    hide Runs, Closed;
    RunsStep(labels, i);
  }

  lemma RunEnds(labels: seq<Label>, i: nat, segments: seq<Span>, start: real, run: seq<Label>)
    requires i < |labels| && Building(labels, i, segments, start, run) && labels[i].scene != labels[i - 1].scene
    ensures Building(labels, i + 1, segments + [Emitted(start, labels[i].ts, run)], labels[i].ts, [labels[i]])
  {
    hide Runs, Closed, Emitted;
    RunsStep(labels, i);
    ClosesAt(labels, Runs(labels[..i])[|segments|].first, i);
  }

  lemma LastRunEnds(labels: seq<Label>, segments: seq<Span>, start: real, run: seq<Label>)
    requires Building(labels, |labels|, segments, start, run)
    ensures segments + [Emitted(start, labels[|labels| - 1].ts + TailInterval(labels), run)] == Spans(labels)
  {
    hide Runs, Closed, Emitted, TailInterval, Spans;
    assert labels[..|labels|] == labels;
    LastCloses(labels, segments);
  }

  method BuildSceneSegments(labels: seq<Label>) returns (segments: seq<Span>)
    requires labels != []
    ensures segments == Spans(labels)
  {
    hide Building, Emitted, TailInterval, Spans;
    var tail := TailInterval(labels);
    segments := [];
    var start, run := labels[0].ts, [labels[0]];
    StartsBuilding(labels);
    for i := 1 to |labels|
      invariant Building(labels, i, segments, start, run) && run != []
    {
      if labels[i].scene != labels[i - 1].scene {
        RunEnds(labels, i, segments, start, run);
        segments := segments + [Emitted(start, labels[i].ts, run)];
        start, run := labels[i].ts, [];
        assert run + [labels[i]] == [labels[i]];
      } else {
        RunContinues(labels, i, segments, start, run);
      }
      run := run + [labels[i]];
    }
    LastRunEnds(labels, segments, start, run);
    segments := segments + [Emitted(start, labels[|labels| - 1].ts + tail, run)];
  }

  ghost predicate Ascending(labels: seq<Label>) {
    forall i, j | 0 <= i < j < |labels| :: labels[i].ts < labels[j].ts
  }

  /** The spans tile [first, last + tail) in order and neighbours carry different scenes. */
  lemma SpansTile(labels: seq<Label>)
    requires labels != [] && Ascending(labels)
    ensures var s := Spans(labels);
      && s != []
      && s[0].start == labels[0].ts
      && s[|s| - 1].end == labels[|labels| - 1].ts + TailInterval(labels)
      && (forall j | 0 <= j < |s| :: s[j].start < s[j].end)
      && (forall j | 0 < j < |s| :: s[j - 1].end == s[j].start && s[j - 1].scene != s[j].scene)
  {
    hide Runs, TailInterval, SpanOf;
    var s := Spans(labels);
    forall j | 0 <= j < |s|
      ensures s[j].start == labels[Runs(labels)[j].first].ts && s[j].end == EndOf(labels, Runs(labels)[j].end)
      ensures s[j].scene == labels[Runs(labels)[j].first].scene
    {
      SpanEnds(labels, Runs(labels)[j]);
    }
    forall j | 0 < j < |s| ensures s[j - 1].end == s[j].start && s[j - 1].scene != s[j].scene {
      RunsMeet(labels, j);
    }
  }

  /** The labels of span s: those whose frame lies in it. */
  function Within(labels: seq<Label>, s: Span): seq<Label> {
    if labels == [] then []
    else
      var last := labels[|labels| - 1];
      Within(labels[..|labels| - 1], s) + (if s.start <= last.ts < s.end then [last] else [])
  }

  function Least(a: nat, b: nat): nat { if a < b then a else b }

  lemma {:induction false} WithinRun(labels: seq<Label>, s: Span, from: nat, end: nat, m: nat)
    requires from <= end && m <= |labels|
    requires forall i | 0 <= i < |labels| :: s.start <= labels[i].ts < s.end <==> from <= i < end
    ensures Within(labels[..m], s) == labels[Least(from, m)..Least(end, m)]
  {
    if m > 0 {
      hide Within;
      WithinRun(labels, s, from, end, m - 1);
      WithinStep(labels, s, m - 1);
      if from <= m - 1 < end { SliceGrows(labels, from, m - 1); }
    } else {
      assert labels[..0] == [];
    }
  }

  lemma SliceGrows<T>(xs: seq<T>, a: nat, b: nat)
    requires a <= b < |xs|
    ensures xs[a..b] + [xs[b]] == xs[a..b + 1]
  {
  }

  lemma WithinStep(labels: seq<Label>, s: Span, m: nat)
    requires m < |labels|
    ensures Within(labels[..m + 1], s)
      == Within(labels[..m], s) + (if s.start <= labels[m].ts < s.end then [labels[m]] else [])
  {
    assert labels[..m + 1][..m] == labels[..m];
  }

  lemma SpanHolds(labels: seq<Label>, run: Stretch, s: Span)
    requires Ascending(labels) && run.first < run.end <= |labels|
    requires s.start == labels[run.first].ts && s.end == EndOf(labels, run.end)
    ensures Within(labels, s) == labels[run.first..run.end]
  {
    forall i | 0 <= i < |labels| ensures s.start <= labels[i].ts < s.end <==> run.first <= i < run.end {}
    WithinRun(labels, s, run.first, run.end, |labels|);
    assert labels[..|labels|] == labels;
  }

  lemma UniformRun(labels: seq<Label>, j: nat)
    requires j < |Runs(labels)|
    ensures var run := Runs(labels)[j];
      forall l | l in labels[run.first..run.end] :: l.scene == labels[run.first].scene
  {
    var run := Runs(labels)[j];
    forall l | l in labels[run.first..run.end] ensures l.scene == labels[run.first].scene {
      var i :| 0 <= i < |labels[run.first..run.end]| && labels[run.first..run.end][i] == l;
      RunsAreUniform(labels, j, run.first + i);
    }
  }

  lemma EmittedAverages(start: real, end: real, run: seq<Label>)
    requires run != []
    ensures Emitted(start, end, run).confidence * |run| as real == Total(run)
  {
    Undivided(Total(run), |run| as real);
  }

  /** Each span is labelled with the scene of every frame in it, its confidence their exact average. */
  lemma SpanAverages(labels: seq<Label>, j: nat)
    requires Ascending(labels) && j < |Runs(labels)|
    ensures var s := Spans(labels)[j]; var run := Within(labels, s);
      && run != []
      && (forall l | l in run :: l.scene == s.scene)
      && s.confidence * |run| as real == Total(run)
  {
    hide Runs, Within, Total, TailInterval, SpanOf, Emitted, EndOf;
    var run := Runs(labels)[j];
    SpanEnds(labels, run);
    SpanHolds(labels, run, Spans(labels)[j]);
    UniformRun(labels, j);
    EmittedAverages(labels[run.first].ts, EndOf(labels, run.end), labels[run.first..run.end]);
  }

  /** The frames of the spans, one span after the other. */
  function Covered(labels: seq<Label>, spans: seq<Span>): seq<Label> {
    if spans == [] then [] else Covered(labels, spans[..|spans| - 1]) + Within(labels, spans[|spans| - 1])
  }

  lemma SpanAtHolds(labels: seq<Label>, j: nat)
    requires Ascending(labels) && j < |Runs(labels)|
    ensures Within(labels, Spans(labels)[j]) == labels[Runs(labels)[j].first..Runs(labels)[j].end]
  {
    hide Runs, Within, TailInterval;
    SpanHolds(labels, Runs(labels)[j], Spans(labels)[j]);
  }

  lemma {:induction false} RunsCover(labels: seq<Label>, n: nat)
    requires Ascending(labels) && 0 < n <= |Runs(labels)|
    ensures Covered(labels, Spans(labels)[..n]) == labels[..Runs(labels)[n - 1].end]
  {
    hide Runs, Within, TailInterval, SpanOf, Spans;
    var (spans, run) := (Spans(labels), Runs(labels)[n - 1]);
    SpanAtHolds(labels, n - 1);
    assert spans[..n][..n - 1] == spans[..n - 1];
    if n > 1 {
      RunsCover(labels, n - 1);
      RunsMeet(labels, n - 1);
      assert labels[..run.first] + labels[run.first..run.end] == labels[..run.end];
    }
  }

  /** Every label is in exactly one span: the spans' frames, one span after the other, are all the frames. */
  lemma SpansPartitionLabels(labels: seq<Label>)
    requires labels != [] && Ascending(labels)
    ensures Covered(labels, Spans(labels)) == labels
  {
    hide Covered, SpanOf, Within, Runs;
    RunsCover(labels, |Spans(labels)|);
    assert Spans(labels)[..|Spans(labels)|] == Spans(labels);
  }

  function Mass(labels: seq<Label>, spans: seq<Span>): real {
    if spans == [] then 0.0
    else
      var last := spans[|spans| - 1];
      Mass(labels, spans[..|spans| - 1]) + last.confidence * |Within(labels, last)| as real
  }

  lemma {:induction false} TotalOfSum(a: seq<Label>, b: seq<Label>)
    ensures Total(a + b) == Total(a) + Total(b)
  {
    if b == [] {
      assert a + b == a;
    } else {
      assert (a + b)[..|a + b| - 1] == a + b[..|b| - 1];
      TotalOfSum(a, b[..|b| - 1]);
    }
  }

  lemma {:induction false} MassOf(labels: seq<Label>, spans: seq<Span>)
    requires forall s | s in spans :: s.confidence * |Within(labels, s)| as real == Total(Within(labels, s))
    ensures Mass(labels, spans) == Total(Covered(labels, spans))
  {
    if spans != [] {
      var n := |spans| - 1;
      MassOf(labels, spans[..n]);
      TotalOfSum(Covered(labels, spans[..n]), Within(labels, spans[n]));
    }
  }

  lemma AllAverage(labels: seq<Label>, s: Span)
    requires Ascending(labels) && s in Spans(labels)
    ensures s.confidence * |Within(labels, s)| as real == Total(Within(labels, s))
  {
    hide *;
    var j :| 0 <= j < |Spans(labels)| && Spans(labels)[j] == s;
    SpanAverages(labels, j);
  }

  /** Averaging loses no confidence: weighted by their frames, the spans carry the frames' total. */
  lemma ConfidenceIsConserved(labels: seq<Label>)
    requires labels != [] && Ascending(labels)
    ensures Mass(labels, Spans(labels)) == Total(labels)
  {
    hide *;
    SpansPartitionLabels(labels);
    forall s | s in Spans(labels) ensures s.confidence * |Within(labels, s)| as real == Total(Within(labels, s)) {
      AllAverage(labels, s);
    }
    MassOf(labels, Spans(labels));
  }

  // Reading back

  predicate Covers(s: Span, t: real) { s.start <= t < s.end }

  predicate Outranks(a: Span, b: Span) {
    a.confidence > b.confidence || (a.confidence == b.confidence && a.start > b.start)
  }

  /** What the query may answer at t: the scene of a covering span that no covering span outranks. */
  ghost predicate SceneAt(spans: seq<Span>, t: real, answer: Option<string>) {
    if answer.None? then forall s | s in spans :: !Covers(s, t)
    else exists s | s in spans ::
      Covers(s, t) && s.scene == answer.value && forall other | other in spans && Covers(other, t) :: !Outranks(other, s)
  }

  /** The scene of the latest frame at or before t. */
  function LatestScene(labels: seq<Label>, t: real): Option<string> {
    if labels == [] then None
    else if labels[|labels| - 1].ts <= t then Some(labels[|labels| - 1].scene)
    else LatestScene(labels[..|labels| - 1], t)
  }

  lemma {:induction false} LatestIs(labels: seq<Label>, t: real, i: nat)
    requires Ascending(labels) && i < |labels| && labels[i].ts <= t && (i + 1 < |labels| ==> t < labels[i + 1].ts)
    ensures LatestScene(labels, t) == Some(labels[i].scene)
  {
    if i < |labels| - 1 { LatestIs(labels[..|labels| - 1], t, i); }
  }

  lemma {:induction false} BracketOf(labels: seq<Label>, t: real) returns (i: nat)
    requires labels != [] && Ascending(labels) && labels[0].ts <= t
    ensures i < |labels| && labels[i].ts <= t && (i + 1 < |labels| ==> t < labels[i + 1].ts)
  {
    i := |labels| - 1;
    if labels[i].ts > t {
      assert Ascending(labels[..i]);
      i := BracketOf(labels[..i], t);
    }
  }

  lemma {:induction false} RunOf(labels: seq<Label>, i: nat) returns (j: nat)
    requires i < |labels|
    ensures j < |Runs(labels)| && Runs(labels)[j].first <= i < Runs(labels)[j].end
  {
    var runs := Runs(labels);
    j := |runs| - 1;
    while runs[j].first > i
      invariant 0 <= j < |runs| && i < runs[j].end
    {
      RunsMeet(labels, j);
      j := j - 1;
    }
  }

  lemma SpansAreApart(labels: seq<Label>, j: nat, k: nat, t: real)
    requires labels != [] && Ascending(labels) && j < |Spans(labels)| && k < |Spans(labels)|
    requires Covers(Spans(labels)[j], t) && Covers(Spans(labels)[k], t)
    ensures j == k
  {
    SpansTile(labels);
    if j < k { StartsAscend(labels, j, k); }
    if k < j { StartsAscend(labels, k, j); }
  }

  lemma {:induction false} StartsAscend(labels: seq<Label>, j: nat, k: nat)
    requires labels != [] && Ascending(labels) && j < k < |Runs(labels)|
    ensures Spans(labels)[j].end <= Spans(labels)[k].start
    decreases k
  {
    SpansTile(labels);
    if j < k - 1 { StartsAscend(labels, j, k - 1); }
  }

  lemma RunCovers(labels: seq<Label>, run: Stretch, i: nat, t: real)
    requires Ascending(labels) && run.first <= i < run.end <= |labels|
    requires labels[i].ts <= t && t < (if i + 1 < |labels| then labels[i + 1].ts else EndOf(labels, |labels|))
    ensures labels[run.first].ts <= t < EndOf(labels, run.end)
  {
  }

  lemma CoveringSpan(labels: seq<Label>, t: real) returns (j: nat)
    requires labels != [] && Ascending(labels)
    requires labels[0].ts <= t < labels[|labels| - 1].ts + TailInterval(labels)
    ensures j < |Spans(labels)| && Covers(Spans(labels)[j], t)
    ensures LatestScene(labels, t) == Some(Spans(labels)[j].scene)
  {
    hide Runs, LatestScene, TailInterval, SpanOf;
    var i := BracketOf(labels, t);
    LatestIs(labels, t, i);
    j := RunOf(labels, i);
    RunsAreUniform(labels, j, i);
    RunCovers(labels, Runs(labels)[j], i, t);
    SpanEnds(labels, Runs(labels)[j]);
  }

  lemma CoveredIsInRange(labels: seq<Label>, j: nat, t: real)
    requires labels != [] && Ascending(labels) && j < |Spans(labels)| && Covers(Spans(labels)[j], t)
    ensures labels[0].ts <= t < labels[|labels| - 1].ts + TailInterval(labels)
  {
    var spans := Spans(labels);
    SpansTile(labels);
    if j > 0 { StartsAscend(labels, 0, j); }
    if j < |spans| - 1 { StartsAscend(labels, j, |spans| - 1); }
  }

  /** The spans are an exact index: asking for t gives the latest frame's scene, and nothing outside the video. */
  lemma SpansIndexTheFrames(labels: seq<Label>, t: real, answer: Option<string>)
    requires labels != [] && Ascending(labels)
    ensures SceneAt(Spans(labels), t, answer) <==>
      answer == if labels[0].ts <= t < labels[|labels| - 1].ts + TailInterval(labels) then LatestScene(labels, t) else None
  {
    var spans := Spans(labels);
    if labels[0].ts <= t < labels[|labels| - 1].ts + TailInterval(labels) {
      var j := CoveringSpan(labels, t);
      forall s | s in spans && Covers(s, t) ensures s == spans[j] {
        var k :| 0 <= k < |spans| && spans[k] == s;
        SpansAreApart(labels, j, k, t);
      }
      assert spans[j] in spans;
    } else {
      forall s | s in spans ensures !Covers(s, t) {
        var k :| 0 <= k < |spans| && spans[k] == s;
        if Covers(s, t) { CoveredIsInRange(labels, k, t); }
      }
    }
  }

  // How long the last span lasts, and what an average is

  /** The gap before frame i. */
  function GapAt(labels: seq<Label>, i: nat): real
    requires 0 < i < |labels|
  {
    labels[i].ts - labels[i - 1].ts
  }

  /** The gap kept is the least positive one, and there is none only if no gap is positive. */
  ghost predicate IsLeastGap(labels: seq<Label>, gap: Option<real>) {
    && (forall i | 0 < i < |labels| && GapAt(labels, i) > 0.0 :: gap.Some? && gap.value <= GapAt(labels, i))
    && (gap.Some? ==> exists i :: 0 < i < |labels| && GapAt(labels, i) == gap.value)
  }

  lemma GapStep(labels: seq<Label>, before: Option<real>)
    requires |labels| >= 2 && IsLeastGap(labels[..|labels| - 1], before)
    ensures var step := GapAt(labels, |labels| - 1);
      IsLeastGap(labels, if step > 0.0 && (before.None? || step < before.value) then Some(step) else before)
  {
    var (n, front) := (|labels| - 1, labels[..|labels| - 1]);
    var step := GapAt(labels, n);
    forall i | 0 < i < n ensures GapAt(front, i) == GapAt(labels, i) {}
    if before.Some? && !(step > 0.0 && step < before.value) {
      var i :| 0 < i < n && GapAt(front, i) == before.value;
      assert GapAt(labels, i) == before.value;
    }
    forall i | 0 < i < |labels| && GapAt(labels, i) > 0.0
      ensures i < n ==> before.Some? && before.value <= GapAt(labels, i)
    {
      if i < n { assert GapAt(front, i) > 0.0; }
    }
  }

  lemma {:induction false} GapIsLeast(labels: seq<Label>)
    ensures IsLeastGap(labels, SmallestGap(labels))
  {
    hide IsLeastGap;
    if |labels| >= 2 {
      GapIsLeast(labels[..|labels| - 1]);
      GapStep(labels, SmallestGap(labels[..|labels| - 1]));
    } else {
      NoGaps(labels);
    }
  }

  lemma NoGaps(labels: seq<Label>)
    requires |labels| < 2
    ensures IsLeastGap(labels, None)
  {
  }

  /** The tail is the least positive gap between neighbouring frames, or eight seconds when there is none. */
  lemma TailIsLeastGap(labels: seq<Label>)
    ensures forall i | 0 < i < |labels| && GapAt(labels, i) > 0.0 :: TailInterval(labels) <= GapAt(labels, i)
    ensures (exists i :: 0 < i < |labels| && GapAt(labels, i) == TailInterval(labels))
      || (TailInterval(labels) == 8.0 && forall i | 0 < i < |labels| :: GapAt(labels, i) <= 0.0)
  {
    hide SmallestGap;
    GapIsLeast(labels);
  }

  lemma {:induction false} TotalBetween(labels: seq<Label>, low: real, high: real)
    requires forall l | l in labels :: low <= l.confidence <= high
    ensures low * |labels| as real <= Total(labels) <= high * |labels| as real
  {
    if labels != [] {
      var n := |labels| - 1;
      TotalBetween(labels[..n], low, high);
      assert labels[n] in labels;
      OneMoreTimes(low, n);
      OneMoreTimes(high, n);
    }
  }

  lemma OneMoreTimes(x: real, n: nat)
    ensures x * (n + 1) as real == x * n as real + x
  {
  }

  /** A span is as confident as its frames: no less than the least of them and no more than the most. */
  lemma ConfidenceIsBetween(labels: seq<Label>, j: nat, low: real, high: real)
    requires Ascending(labels) && j < |Spans(labels)|
    requires forall l | l in Within(labels, Spans(labels)[j]) :: low <= l.confidence <= high
    ensures low <= Spans(labels)[j].confidence <= high
  {
    hide Spans, Within, Total, Runs;
    var (s, run) := (Spans(labels)[j], Within(labels, Spans(labels)[j]));
    SpanAverages(labels, j);
    TotalBetween(run, low, high);
    Divides(low, s.confidence, |run| as real);
    Divides(s.confidence, high, |run| as real);
  }

  lemma Divides(a: real, b: real, n: real)
    requires n > 0.0 && a * n <= b * n
    ensures a <= b
  {
  }

  /** Where spans of several runs overlap, the more confident one answers, and of equals the one that starts later. */
  lemma TheMoreConfidentAnswers(spans: seq<Span>, a: Span, t: real)
    requires a in spans && a.start <= t < a.end
    requires forall b | b in spans && b != a && b.start <= t < b.end ::
      a.confidence > b.confidence || (a.confidence == b.confidence && a.start > b.start)
    ensures forall answer :: SceneAt(spans, t, answer) <==> answer == Some(a.scene)
  {
    assert Covers(a, t);
    assert forall other | other in spans && Covers(other, t) :: !Outranks(other, a);
    forall answer | SceneAt(spans, t, answer) ensures answer == Some(a.scene) {
      var s :| s in spans && Covers(s, t) && s.scene == answer.value
        && forall other | other in spans && Covers(other, t) :: !Outranks(other, s);
      assert !Outranks(a, s);
    }
    forall answer | answer == Some(a.scene) ensures SceneAt(spans, t, answer) {}
  }
}
