/** Which frames are sampled (src/kanomori/ingest/stages/frames.py). Times are rounded to milliseconds. */
module Frames {
  import opened Basics
  import opened Rows
  import opened Sorting

  const DEFAULT_INTERVAL: nat := 8000
  const TOLERANCE: nat := 250

  predicate AtMost(a: Ms, b: Ms) { a <= b }

  function Seconds(ms: int): (s: real)
    ensures ms > 0 ==> s > 0.0
  {
    ms as real / 1000.0
  }

  /** How many grid points lie before the duration. */
  function GridCount(duration: real, interval: real): (n: nat)
    requires duration > 0.0 && interval > 0.0
    ensures n as real * interval >= duration && n > 0 && (n - 1) as real * interval < duration
  {
    var q := duration / interval;
    PositiveQuotient(duration, interval);
    var n := if q.Floor as real == q then q.Floor else q.Floor + 1;
    Brackets(n, duration, interval);
    n
  }

  lemma Brackets(n: int, duration: real, interval: real)
    requires interval > 0.0 && (n - 1) as real < duration / interval <= n as real
    ensures (n - 1) as real * interval < duration <= n as real * interval
  {
    var (below, above) := ((n - 1) as real, n as real);
    Bracketed(below, above, duration, interval);
  }

  lemma Bracketed(below: real, above: real, duration: real, interval: real)
    requires interval > 0.0 && below < duration / interval <= above
    ensures below * interval < duration <= above * interval
  {
    var q := duration / interval;
    Undivided(duration, interval);
    Scales(above, q, interval);
    Scales(q, below, interval);
  }

  /** The points before the duration are the first GridCount points. */
  lemma GridStops(duration: real, interval: real, i: nat)
    requires duration > 0.0 && interval > 0.0
    ensures i as real * interval < duration <==> i < GridCount(duration, interval)
  {
    hide GridCount;
    var n := GridCount(duration, interval);
    var (x, below, above) := (i as real, (n - 1) as real, n as real);
    if i < n { Scales(below, x, interval); } else { Scales(x, above, interval); }
  }

  lemma PositiveQuotient(a: real, b: real)
    requires a > 0.0 && b > 0.0
    ensures a / b > 0.0
  {
    var q := a / b;
    assert q * b == a;
    Scales(0.0, q, b);
  }

  lemma Scales(a: real, b: real, c: real)
    requires c > 0.0
    ensures a >= b ==> a * c >= b * c
    ensures a > b ==> a * c > b * c
  {
  }

  function Point(i: nat, interval: real): Ms {
    Millis(i as real * interval)
  }

  function Grid(n: nat, interval: real): seq<Ms> {
    seq(n, i requires 0 <= i < n => Point(i, interval))
  }

  /** The scene starts that fall inside the video. */
  function Inside(scenes: seq<real>, duration: real): seq<Ms> {
    if scenes == [] then []
    else
      var last := scenes[|scenes| - 1];
      Inside(scenes[..|scenes| - 1], duration) + (if 0.0 <= last < duration then [Millis(last)] else [])
  }

  function Distance(a: int, b: int): nat { if a < b then b - a else a - b }

  /** One sample more: it is dropped when the last one kept is at most the tolerance away. */
  function Thinned(out: seq<Ms>, ts: Ms): seq<Ms> {
    if out != [] && Distance(ts, out[|out| - 1]) <= TOLERANCE then out else out + [ts]
  }

  function Deduplicated(samples: seq<Ms>): seq<Ms> {
    if samples == [] then [] else Thinned(Deduplicated(samples[..|samples| - 1]), samples[|samples| - 1])
  }

  function Raw(duration: real, scenes: seq<real>, interval: real): seq<Ms>
    requires duration > 0.0 && interval > 0.0
  {
    Grid(GridCount(duration, interval), interval) + Inside(scenes, duration)
  }

  function Plan(duration: real, scenes: seq<real>, interval: real): seq<Ms>
    requires duration <= 0.0 || interval > 0.0
  {
    if duration <= 0.0 then [] else Deduplicated(StableSort(Raw(duration, scenes, interval), AtMost))
  }

  method SampleGrid(duration: real, interval: real) returns (samples: seq<Ms>)
    requires duration > 0.0 && interval > 0.0
    ensures samples == Grid(GridCount(duration, interval), interval)
  {
    hide GridCount, Millis;
    ghost var count := GridCount(duration, interval);
    samples := [];
    var t := 0.0;
    while t < duration
      invariant |samples| <= count && t == |samples| as real * interval
      invariant forall i | 0 <= i < |samples| :: samples[i] == Point(i, interval)
      decreases count - |samples|
    {
      GridStops(duration, interval, |samples|);
      OneMore(|samples|, interval);
      assert Millis(t) == Point(|samples|, interval);
      samples := samples + [Millis(t)];
      t := t + interval;
    }
    GridStops(duration, interval, |samples|);
  }

  lemma OneMore(n: nat, interval: real)
    ensures (n + 1) as real * interval == n as real * interval + interval
  {
  }

  /** A non-positive interval never reaches a positive duration: there the loop needs a positive one. */
  method PlanSampleTimestamps(duration: real, scenes: seq<real>, interval: real) returns (out: seq<Ms>)
    requires duration <= 0.0 || interval > 0.0
    ensures out == Plan(duration, scenes, interval)
  {
    hide Grid, GridCount, Millis;
    if duration <= 0.0 { return []; }
    var samples := SampleGrid(duration, interval);
    ghost var grid := samples;
    for i := 0 to |scenes|
      invariant samples == grid + Inside(scenes[..i], duration)
    {
      assert scenes[..i + 1][..i] == scenes[..i];
      if 0.0 <= scenes[i] < duration { samples := samples + [Millis(scenes[i])]; }
    }
    assert scenes[..|scenes|] == scenes;
    samples := StableSort(samples, AtMost);
    out := [];
    for i := 0 to |samples|
      invariant out == Deduplicated(samples[..i])
    {
      assert samples[..i + 1][..i] == samples[..i];
      if !(out != [] && Distance(samples[i], out[|out| - 1]) <= TOLERANCE) { out := out + [samples[i]]; }
    }
    assert samples[..|samples|] == samples;
  }

  // What is kept

  ghost predicate Ordered(samples: seq<Ms>) {
    forall i, j | 0 <= i < j < |samples| :: samples[i] <= samples[j]
  }

  /** Kept timestamps are more than 0.25 s apart. */
  ghost predicate Spaced(out: seq<Ms>) {
    forall i, j | 0 <= i < j < |out| :: out[i] + 250 < out[j]
  }

  /** Some kept timestamp is at most 0.25 s before s. */
  ghost predicate Reached(out: seq<Ms>, s: Ms) {
    exists i :: 0 <= i < |out| && out[i] <= s <= out[i] + 250
  }

  /** Kept so far: spaced, from the first sample on, none after the last sample. */
  ghost predicate KeptWell(samples: seq<Ms>, out: seq<Ms>) {
    samples != [] && Spaced(out) && out != [] && out[0] == samples[0] && out[|out| - 1] <= samples[|samples| - 1]
  }

  lemma ThinnedIsSpaced(samples: seq<Ms>, out: seq<Ms>, ts: Ms)
    requires if samples == [] then out == [] else KeptWell(samples, out) && samples[|samples| - 1] <= ts
    ensures KeptWell(samples + [ts], Thinned(out, ts))
    ensures Reached(Thinned(out, ts), ts)
  {
    var after := Thinned(out, ts);
    assert after[|after| - 1] <= ts <= after[|after| - 1] + 250;
  }

  lemma {:induction false} DeduplicatedIsSpaced(samples: seq<Ms>)
    requires Ordered(samples) && samples != []
    ensures KeptWell(samples, Deduplicated(samples))
  {
    hide Thinned, KeptWell;
    var (front, ts) := (samples[..|samples| - 1], samples[|samples| - 1]);
    if front != [] { DeduplicatedIsSpaced(front); }
    ThinnedIsSpaced(front, Deduplicated(front), ts);
    assert samples == front + [ts];
  }

  lemma {:induction false} DeduplicatedAreSamples(samples: seq<Ms>, o: Ms)
    requires o in Deduplicated(samples)
    ensures o in samples
  {
    var n := |samples| - 1;
    if o in Deduplicated(samples[..n]) {
      DeduplicatedAreSamples(samples[..n], o);
    } else {
      assert o == samples[n];
    }
  }

  lemma StaysReached(out: seq<Ms>, ts: Ms, s: Ms)
    requires Reached(out, s)
    ensures Reached(Thinned(out, ts), s)
  {
    var i :| 0 <= i < |out| && out[i] <= s <= out[i] + 250;
    assert Thinned(out, ts)[i] == out[i];
  }

  lemma {:induction false} DeduplicatedReaches(samples: seq<Ms>, s: Ms)
    requires Ordered(samples) && s in samples
    ensures Reached(Deduplicated(samples), s)
  {
    hide Thinned, Reached, KeptWell;
    var (front, ts) := (samples[..|samples| - 1], samples[|samples| - 1]);
    assert samples == front + [ts];
    if s in front {
      DeduplicatedReaches(front, s);
      StaysReached(Deduplicated(front), ts, s);
    } else {
      if front != [] { DeduplicatedIsSpaced(front); }
      ThinnedIsSpaced(front, Deduplicated(front), ts);
    }
  }

  lemma SortedSamples(raw: seq<Ms>)
    ensures Ordered(StableSort(raw, AtMost))
    ensures forall s :: s in StableSort(raw, AtMost) <==> s in raw
  {
    forall a: Ms, b: Ms, c: Ms | AtMost(a, b) && AtMost(b, c) ensures AtMost(a, c) {}
    StableSortIsStable(raw, AtMost);
    SortKeepsElements(raw, AtMost);
    var sorted := StableSort(raw, AtMost);
    forall i, j | 0 <= i < j < |sorted| ensures sorted[i] <= sorted[j] { SortedAt(sorted, AtMost, i, j); }
  }

  /** Only samples are kept, more than 0.25 s apart, and each sample has a kept one at most 0.25 s before it. */
  ghost predicate Thins(raw: seq<Ms>, out: seq<Ms>) {
    && Spaced(out)
    && (forall i | 0 <= i < |out| :: out[i] in raw)
    && (forall s | s in raw :: Reached(out, s))
  }

  lemma PlanThinsSamples(duration: real, scenes: seq<real>, interval: real)
    requires duration > 0.0 && interval > 0.0
    ensures Thins(Raw(duration, scenes, interval), Plan(duration, scenes, interval))
  {
    var raw := Raw(duration, scenes, interval);
    var (sorted, out) := (StableSort(raw, AtMost), Plan(duration, scenes, interval));
    SortedSamples(raw);
    if sorted != [] { DeduplicatedIsSpaced(sorted); }
    forall i | 0 <= i < |out| ensures out[i] in raw { DeduplicatedAreSamples(sorted, out[i]); }
    forall s | s in raw ensures Reached(out, s) { DeduplicatedReaches(sorted, s); }
  }

  lemma {:induction false} InsideBounds(scenes: seq<real>, duration: real, s: Ms)
    requires s in Inside(scenes, duration)
    ensures s >= 0 && s as real - 0.5 < duration * 1000.0
  {
    var last := scenes[|scenes| - 1];
    if s in Inside(scenes[..|scenes| - 1], duration) {
      InsideBounds(scenes[..|scenes| - 1], duration, s);
    } else {
      RoundingIsMonotone(0.0, last * 1000.0);
      assert RoundHalfEven(0.0) == 0;
    }
  }

  lemma ExactGrid(i: nat, step: nat)
    ensures i as real * Seconds(step) * 1000.0 == (i * step) as real
    ensures Point(i, Seconds(step)) == i * step
  {
    var d := Seconds(step);
    assert d * 1000.0 == step as real;
    Regroups(i as real, d, 1000.0);
    assert i as real * step as real == (i * step) as real;
  }

  lemma Regroups(a: real, b: real, c: real)
    ensures a * b * c == a * (b * c)
  {
  }

  /** On a grid of whole milliseconds the last point is before the end and one more step is not. */
  lemma GridEnds(duration: real, step: nat)
    requires duration > 0.0 && step > 0
    ensures var n := GridCount(duration, Seconds(step));
      ((n - 1) * step) as real < duration * 1000.0 <= (n * step) as real
  {
    hide GridCount, Seconds, Point;
    var n := GridCount(duration, Seconds(step));
    ExactGrid(n, step);
    ExactGrid(n - 1, step);
    Thousandfold((n - 1) as real * Seconds(step), duration, n as real * Seconds(step));
  }

  lemma Thousandfold(a: real, b: real, c: real)
    requires a < b <= c
    ensures a * 1000.0 < b * 1000.0 <= c * 1000.0
  {
  }

  lemma Multiples(i: nat, n: nat, step: nat)
    requires step > 0
    ensures i < n <==> i * step < n * step
    ensures (i + 1) * step == i * step + step
  {
  }

  /** Every multiple of the step before the end is a raw sample. */
  lemma GridHas(duration: real, scenes: seq<real>, step: nat, i: nat)
    requires duration > 0.0 && step > 0 && (i * step) as real < duration * 1000.0
    ensures i * step in Raw(duration, scenes, Seconds(step))
  {
    hide GridCount, Seconds, Point, Inside;
    var (n, d) := (GridCount(duration, Seconds(step)), Seconds(step));
    ExactGrid(i, step);
    GridEnds(duration, step);
    Multiples(i, n, step);
    assert Grid(n, d)[i] == i * step;
    assert i * step in Grid(n, d);
  }

  lemma RawBounds(duration: real, scenes: seq<real>, step: nat, s: Ms)
    requires duration > 0.0 && step > 0 && s in Raw(duration, scenes, Seconds(step))
    ensures s >= 0 && s as real - 0.5 < duration * 1000.0
  {
    hide GridCount, Seconds, Point, Inside, RoundHalfEven;
    var (n, d) := (GridCount(duration, Seconds(step)), Seconds(step));
    if s in Grid(n, d) {
      var i: nat :| i < n && Grid(n, d)[i] == s;
      ExactGrid(i, step);
      GridEnds(duration, step);
      Multiples(n - 1, i, step);
    } else {
      InsideBounds(scenes, duration, s);
    }
  }

  /** A sample further than the tolerance past a kept one is not before the next kept one. */
  lemma NothingBetween(raw: seq<Ms>, out: seq<Ms>, i: nat, g: Ms)
    requires Spaced(out) && Reached(out, g) && i + 1 < |out| && out[i] + TOLERANCE < g
    ensures out[i + 1] <= g
  {
    var j :| 0 <= j < |out| && out[j] <= g <= out[j] + TOLERANCE;
    if i + 1 < j { assert out[i + 1] < out[j]; }
  }

  lemma NoLongGap(duration: real, scenes: seq<real>, step: nat, i: nat)
    requires duration > 0.0 && step > 0 && i + 1 < |Plan(duration, scenes, Seconds(step))|
    ensures var out := Plan(duration, scenes, Seconds(step)); out[i + 1] - out[i] <= step + TOLERANCE
  {
    hide Plan, Raw;
    var (raw, out) := (Raw(duration, scenes, Seconds(step)), Plan(duration, scenes, Seconds(step)));
    PlanThinsSamples(duration, scenes, Seconds(step));
    RawBounds(duration, scenes, step, out[i]);
    RawBounds(duration, scenes, step, out[i + 1]);
    var m := NextMultiple(out[i] + TOLERANCE, step);
    if m * step < out[i + 1] {
      GridHas(duration, scenes, step, m);
      NothingBetween(raw, out, i, m * step);
    }
  }

  lemma NextMultiple(x: nat, step: nat) returns (m: nat)
    requires step > 0
    ensures x < m * step <= x + step
  {
    m := x / step + 1;
  }

  /** The grid point before the end is at most one step from it. */
  lemma LastGridPoint(duration: real, scenes: seq<real>, step: nat) returns (g: Ms)
    requires duration > 0.0 && step > 0
    ensures g in Raw(duration, scenes, Seconds(step)) && duration * 1000.0 <= (g + step) as real
  {
    hide GridCount, Seconds, Raw;
    var n := GridCount(duration, Seconds(step));
    GridEnds(duration, step);
    GridHas(duration, scenes, step, n - 1);
    Multiples(n - 1, n, step);
    g := (n - 1) * step;
  }

  lemma LastIsClose(out: seq<Ms>, g: Ms)
    requires Spaced(out) && Reached(out, g)
    ensures out != [] && g <= out[|out| - 1] + TOLERANCE
  {
    var j :| 0 <= j < |out| && out[j] <= g <= out[j] + TOLERANCE;
    if j < |out| - 1 { assert out[j] < out[|out| - 1]; }
  }

  lemma ReachesTheEnd(duration: real, scenes: seq<real>, step: nat)
    requires duration > 0.0 && step > 0
    ensures var out := Plan(duration, scenes, Seconds(step));
      out != [] && duration * 1000.0 - out[|out| - 1] as real <= (step + TOLERANCE) as real
  {
    hide Plan, Raw, Seconds, Spaced, Reached;
    PlanThinsSamples(duration, scenes, Seconds(step));
    var g := LastGridPoint(duration, scenes, step);
    LastIsClose(Plan(duration, scenes, Seconds(step)), g);
  }

  lemma StartsAtZero(duration: real, scenes: seq<real>, step: nat)
    requires duration > 0.0 && step > 0
    ensures Plan(duration, scenes, Seconds(step)) != [] && Plan(duration, scenes, Seconds(step))[0] == 0
  {
    hide Raw, GridCount, Deduplicated, StableSort;
    var sorted := StableSort(Raw(duration, scenes, Seconds(step)), AtMost);
    SortedSamples(Raw(duration, scenes, Seconds(step)));
    assert 0 * step == 0;
    GridHas(duration, scenes, step, 0);
    DeduplicatedIsSpaced(sorted);
    var i :| 0 <= i < |sorted| && sorted[i] == 0;
    assert sorted[0] <= 0 && sorted[0] in sorted;
    RawBounds(duration, scenes, step, sorted[0]);
  }

  // Any interval, with a millisecond of slack for the rounding of the grid

  lemma RoundedPoint(i: nat, interval: real)
    ensures -0.5 <= Point(i, interval) as real - i as real * interval * 1000.0 <= 0.5
  {
  }

  lemma PointHas(duration: real, scenes: seq<real>, interval: real, i: nat)
    requires duration > 0.0 && interval > 0.0 && i < GridCount(duration, interval)
    ensures Point(i, interval) in Raw(duration, scenes, interval)
  {
    hide GridCount, Point, Inside;
    var grid := Grid(GridCount(duration, interval), interval);
    assert grid[i] == Point(i, interval) && grid[i] in grid;
  }

  lemma AnyRawBounds(duration: real, scenes: seq<real>, interval: real, s: Ms)
    requires duration > 0.0 && interval > 0.0 && s in Raw(duration, scenes, interval)
    ensures s >= 0 && s as real - 0.5 < duration * 1000.0
  {
    hide GridCount, Inside, RoundHalfEven;
    var n := GridCount(duration, interval);
    if s in Grid(n, interval) {
      var i: nat :| i < n && Grid(n, interval)[i] == s;
      GridStops(duration, interval, i);
      PointBounds(duration, interval, i);
    } else {
      InsideBounds(scenes, duration, s);
    }
  }

  lemma PointBounds(duration: real, interval: real, i: nat)
    requires interval > 0.0 && i as real * interval < duration
    ensures Point(i, interval) >= 0 && Point(i, interval) as real - 0.5 < duration * 1000.0
  {
    hide RoundHalfEven;
    Scales(i as real, 0.0, interval);
    RoundingIsMonotone(0.0, i as real * interval * 1000.0);
    ZeroRounds();
    RoundedPoint(i, interval);
  }

  lemma ZeroRounds()
    ensures RoundHalfEven(0.0) == 0
  {
  }

  /** The next grid point is at most an interval and a millisecond on. */
  lemma NextPoint(i: nat, interval: real)
    ensures Point(i + 1, interval) as real <= Point(i, interval) as real + interval * 1000.0 + 1.0
  {
    hide Point;
    RoundedPoint(i, interval);
    RoundedPoint(i + 1, interval);
    OneMore(i, interval);
  }

  /** Past x the grid goes on within an interval and a millisecond, or the video ends within an interval. */
  lemma GridGoesOn(duration: real, interval: real, x: nat) returns (i: nat)
    requires duration > 0.0 && interval > 0.0
    ensures var n := GridCount(duration, interval);
      && i <= n
      && (i < n ==> x < Point(i, interval) && Point(i, interval) as real <= x as real + interval * 1000.0 + 1.0)
      && (i == n ==> duration * 1000.0 <= x as real + interval * 1000.0 + 0.5)
  {
    hide GridCount, Point;
    var n := GridCount(duration, interval);
    i := 1;
    FirstPoint(interval);
    while i < n && Point(i, interval) <= x
      invariant 0 < i <= n && Point(i - 1, interval) <= x
    {
      i := i + 1;
    }
    NextPoint(i - 1, interval);
    if i == n {
      EndOfGrid(duration, interval);
    }
  }

  /** The last grid point is at most an interval and half a millisecond from the end. */
  lemma EndOfGrid(duration: real, interval: real)
    requires duration > 0.0 && interval > 0.0
    ensures duration * 1000.0 <= Point(GridCount(duration, interval) - 1, interval) as real + interval * 1000.0 + 0.5
  {
    hide GridCount, Point;
    var n := GridCount(duration, interval);
    var (before, after) := ((n - 1) as real * interval, n as real * interval);
    OneMore(n - 1, interval);
    assert duration <= after == before + interval;
    RoundedPoint(n - 1, interval);
  }

  lemma FirstPoint(interval: real)
    ensures Point(0, interval) == 0
  {
  }

  lemma StartsWithTheVideo(duration: real, scenes: seq<real>, interval: real)
    requires duration > 0.0 && interval > 0.0
    ensures Plan(duration, scenes, interval) != [] && Plan(duration, scenes, interval)[0] == 0
  {
    hide Raw, GridCount, Deduplicated, StableSort;
    var sorted := StableSort(Raw(duration, scenes, interval), AtMost);
    SortedSamples(Raw(duration, scenes, interval));
    FirstPoint(interval);
    PointHas(duration, scenes, interval, 0);
    DeduplicatedIsSpaced(sorted);
    var i :| 0 <= i < |sorted| && sorted[i] == 0;
    assert sorted[0] <= 0 && sorted[0] in sorted;
    AnyRawBounds(duration, scenes, interval, sorted[0]);
  }

  lemma NoPause(duration: real, scenes: seq<real>, interval: real, i: nat)
    requires duration > 0.0 && interval > 0.0 && i + 1 < |Plan(duration, scenes, interval)|
    ensures var out := Plan(duration, scenes, interval);
      (out[i + 1] - out[i]) as real <= interval * 1000.0 + TOLERANCE as real + 1.0
  {
    hide Plan, Raw, GridCount, Point;
    var (raw, out) := (Raw(duration, scenes, interval), Plan(duration, scenes, interval));
    PlanThinsSamples(duration, scenes, interval);
    AnyRawBounds(duration, scenes, interval, out[i]);
    AnyRawBounds(duration, scenes, interval, out[i + 1]);
    var k := GridGoesOn(duration, interval, out[i] + TOLERANCE);
    if k < GridCount(duration, interval) {
      PointHas(duration, scenes, interval, k);
      NothingBetween(raw, out, i, Point(k, interval));
    }
  }

  /** For every positive interval: sampling starts at zero, pauses no longer than the interval, the tolerance and
      a millisecond, and ends no further than that from the end. */
  lemma SamplingNeverPauses(duration: real, scenes: seq<real>, interval: real)
    requires duration > 0.0 && interval > 0.0
    ensures var (out, most) := (Plan(duration, scenes, interval), interval * 1000.0 + TOLERANCE as real + 1.0);
      && out != [] && out[0] == 0
      && (forall i | 0 < i < |out| :: TOLERANCE < out[i] - out[i - 1] && (out[i] - out[i - 1]) as real <= most)
      && duration * 1000.0 - out[|out| - 1] as real <= most
  {
    hide Plan, Raw, Reached, GridCount, Point;
    var out := Plan(duration, scenes, interval);
    PlanThinsSamples(duration, scenes, interval);
    StartsWithTheVideo(duration, scenes, interval);
    forall i | 0 < i < |out|
      ensures TOLERANCE < out[i] - out[i - 1]
      ensures (out[i] - out[i - 1]) as real <= interval * 1000.0 + TOLERANCE as real + 1.0
    {
      NoPause(duration, scenes, interval, i - 1);
    }
    EndIsNear(duration, scenes, interval);
  }

  lemma EndIsNear(duration: real, scenes: seq<real>, interval: real)
    requires duration > 0.0 && interval > 0.0 && Plan(duration, scenes, interval) != []
    ensures var out := Plan(duration, scenes, interval);
      duration * 1000.0 - out[|out| - 1] as real <= interval * 1000.0 + TOLERANCE as real + 1.0
  {
    hide Plan, Raw, GridCount, Point, Spaced, Reached;
    var (out, n) := (Plan(duration, scenes, interval), GridCount(duration, interval));
    PlanThinsSamples(duration, scenes, interval);
    PointHas(duration, scenes, interval, n - 1);
    LastIsClose(out, Point(n - 1, interval));
    EndOfGrid(duration, interval);
  }

  /** With a step of whole milliseconds sampling starts at zero, never pauses, and reaches the end. */
  lemma SamplingCoversTheVideo(duration: real, scenes: seq<real>, step: nat)
    requires duration > 0.0 && step > 0
    ensures var out := Plan(duration, scenes, Seconds(step));
      && out != [] && out[0] == 0
      && (forall i | 0 < i < |out| :: TOLERANCE < out[i] - out[i - 1] <= step + TOLERANCE)
      && duration * 1000.0 - out[|out| - 1] as real <= (step + TOLERANCE) as real
  {
    hide Plan, Raw, Seconds, Reached;
    var out := Plan(duration, scenes, Seconds(step));
    PlanThinsSamples(duration, scenes, Seconds(step));
    StartsAtZero(duration, scenes, step);
    ReachesTheEnd(duration, scenes, step);
    forall i | 0 < i < |out| ensures TOLERANCE < out[i] - out[i - 1] <= step + TOLERANCE {
      NoLongGap(duration, scenes, step, i - 1);
    }
  }

  /** The plan at the default 8 s: no two neighbours, nor the last and the end, more than 8.25 s apart. */
  lemma DefaultSampling(duration: real, scenes: seq<real>)
    requires duration > 0.0
    ensures var out := Plan(duration, scenes, 8.0);
      && out != [] && out[0] == 0
      && (forall i | 0 < i < |out| :: TOLERANCE < out[i] - out[i - 1] <= 8250)
      && duration * 1000.0 - out[|out| - 1] as real <= 8250.0
  {
    hide Plan;
    assert Seconds(DEFAULT_INTERVAL) == 8.0;
    SamplingCoversTheVideo(duration, scenes, DEFAULT_INTERVAL);
  }

  // Where the samples come from

  lemma {:induction false} InsideHas(scenes: seq<real>, duration: real, s: Ms)
    ensures s in Inside(scenes, duration) <==>
      exists i :: 0 <= i < |scenes| && 0.0 <= scenes[i] < duration && s == Millis(scenes[i])
  {
    if scenes != [] {
      var n := |scenes| - 1;
      InsideHas(scenes[..n], duration, s);
      assert scenes == scenes[..n] + [scenes[n]];
    }
  }

  /** s is the millisecond of this instant. */
  ghost predicate IsAt(s: Ms, seconds: real) {
    -0.5 <= 1000.0 * seconds - s as real <= 0.5
  }

  ghost predicate IsGridPoint(s: Ms, n: nat, duration: real, interval: real) {
    n as real * interval < duration && IsAt(s, n as real * interval)
  }

  /** A scene that starts in the video is sampled, at most 0.25 s and the rounding before its start. */
  lemma SceneStartsAreSampled(duration: real, scenes: seq<real>, interval: real, i: nat)
    requires duration > 0.0 && interval > 0.0 && i < |scenes| && 0.0 <= scenes[i] < duration
    ensures exists s: Ms :: IsAt(s, scenes[i]) && Reached(Plan(duration, scenes, interval), s)
  {
    hide Plan, Reached, GridCount;
    InsideHas(scenes, duration, Millis(scenes[i]));
    PlanThinsSamples(duration, scenes, interval);
    assert Millis(scenes[i]) in Raw(duration, scenes, interval);
    assert IsAt(Millis(scenes[i]), scenes[i]);
  }

  /** Only multiples of the interval and scene starts are sampled, and only inside the video. */
  lemma OnlyGridAndScenes(duration: real, scenes: seq<real>, interval: real, s: Ms)
    requires duration > 0.0 && interval > 0.0 && s in Plan(duration, scenes, interval)
    ensures (exists n: nat :: IsGridPoint(s, n, duration, interval))
      || exists i :: 0 <= i < |scenes| && 0.0 <= scenes[i] < duration && IsAt(s, scenes[i])
  {
    hide Plan, Reached, GridCount, Inside;
    PlanThinsSamples(duration, scenes, interval);
    var raw := Raw(duration, scenes, interval);
    var k :| 0 <= k < |Plan(duration, scenes, interval)| && Plan(duration, scenes, interval)[k] == s;
    assert s in raw;
    var count := GridCount(duration, interval);
    if s in Grid(count, interval) {
      var n: nat :| n < count && Grid(count, interval)[n] == s;
      GridStops(duration, interval, n);
      assert IsGridPoint(s, n, duration, interval);
    } else {
      InsideHas(scenes, duration, s);
      var i :| 0 <= i < |scenes| && 0.0 <= scenes[i] < duration && s == Millis(scenes[i]);
      assert IsAt(s, scenes[i]);
    }
  }

  lemma RawIsGrid(duration: real, step: nat, s: Ms)
    requires duration > 0.0 && step > 0 && s in Raw(duration, [], Seconds(step))
    ensures exists i: nat :: s == i * step && (i * step) as real < duration * 1000.0
  {
    hide GridCount, Seconds, Point;
    var n := GridCount(duration, Seconds(step));
    var i: nat :| i < n && Grid(n, Seconds(step))[i] == s;
    ExactGrid(i, step);
    GridEnds(duration, step);
    Multiples(n - 1, i, step);
  }

  lemma EightSeconds(a: int, b: int)
    requires a % 8000 == 0 && b % 8000 == 0 && a <= b <= a + 250
    ensures a == b
  {
  }

  /** A raw sample of the default grid, and the other way round. */
  lemma RawIsEightSeconds(duration: real, s: Ms)
    requires duration > 0.0
    ensures s in Raw(duration, [], Seconds(8000)) <==> s >= 0 && s % 8000 == 0 && s as real < duration * 1000.0
  {
    hide Raw, Seconds;
    if s in Raw(duration, [], Seconds(8000)) {
      RawIsGrid(duration, 8000, s);
    } else if s >= 0 && s % 8000 == 0 && s as real < duration * 1000.0 {
      GridHas(duration, [], 8000, s / 8000);
    }
  }

  /** Without scene starts the default samples are exactly the multiples of eight seconds in the video. */
  lemma DefaultGridIsExact(duration: real, s: Ms)
    requires duration > 0.0
    ensures s in Plan(duration, [], Seconds(DEFAULT_INTERVAL)) <==>
      s >= 0 && s % 8000 == 0 && s as real < duration * 1000.0
  {
    hide Plan, Raw, Seconds;
    var (raw, out) := (Raw(duration, [], Seconds(8000)), Plan(duration, [], Seconds(8000)));
    PlanThinsSamples(duration, [], Seconds(8000));
    RawIsEightSeconds(duration, s);
    if s in out {
      var k :| 0 <= k < |out| && out[k] == s;
    }
    if s in raw {
      var k :| 0 <= k < |out| && out[k] <= s <= out[k] + TOLERANCE;
      RawIsEightSeconds(duration, out[k]);
      EightSeconds(out[k], s);
    }
  }
}
