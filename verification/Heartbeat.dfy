/** When does a live worker keep its lease? The heartbeat thread (src/kanomori/ingest/worker.py) waits
    `interval`, calls the coordinator, and waits again; calls take time and some are lost. */
module Heartbeat {
  import opened Basics

  /** max(1.0, lease_seconds / 3) */
  function Interval(lease: int): real {
    if lease as real / 3.0 >= 1.0 then lease as real / 3.0 else 1.0
  }

  /** One heartbeat call; `handled` is when the coordinator renewed the lease, if it did. */
  datatype Beat = Beat(start: real, finish: real, handled: Option<real>)

  /** A claim handled at `claimed`, the thread started at `begun`, its calls that are over, and the last
      instant considered, at which the thread waits or is in its next call. */
  datatype Timeline = Timeline(claimed: real, begun: real, beats: seq<Beat>, end: real)

  /** interval: wait before each call; setup: bound on the time from claim to thread start (it spans
      the source download); delay: bound on one call; losses: calls that may be lost in a row. */
  datatype Timing = Timing(interval: real, setup: real, delay: real, losses: nat)

  predicate Sensible(t: Timing) {
    t.interval > 0.0 && t.setup >= 0.0 && t.delay >= 0.0
  }

  function Ready(line: Timeline, k: nat): real
    requires k <= |line.beats|
  {
    if k == 0 then line.begun else line.beats[k - 1].finish
  }

  ghost predicate Follows(line: Timeline, t: Timing) {
    && line.claimed <= line.begun <= line.claimed + t.setup
    && (forall k | 0 <= k < |line.beats| :: BeatOk(line, t, k))
    && line.claimed <= line.end <= Ready(line, |line.beats|) + t.interval + t.delay
    && (forall k | 0 <= k < |line.beats| - t.losses :: SomeHandled(line, k, t.losses))
  }

  ghost predicate BeatOk(line: Timeline, t: Timing, k: nat)
    requires k < |line.beats|
  {
    var b := line.beats[k];
    && Ready(line, k) <= b.start <= Ready(line, k) + t.interval
    && b.start <= b.finish <= b.start + t.delay
    && (b.handled.Some? ==> b.start <= b.handled.value <= b.finish)
  }

  ghost predicate SomeHandled(line: Timeline, from: nat, losses: nat)
    requires from + losses < |line.beats|
  {
    exists i :: from <= i <= from + losses && line.beats[i].handled.Some?
  }

  /** Is x covered by a renewal not yet `lease` old? Otherwise the lease has lapsed at x. */
  ghost predicate Covered(line: Timeline, lease: real, x: real) {
    || line.claimed <= x <= line.claimed + lease
    || exists i :: 0 <= i < |line.beats| && CoveredBy(line.beats[i], lease, x)
  }

  predicate CoveredBy(b: Beat, lease: real, x: real) {
    b.handled.Some? && b.handled.value <= x <= b.handled.value + lease
  }

  ghost predicate NeverLapses(line: Timeline, lease: real) {
    forall x: real | line.claimed <= x <= line.end :: Covered(line, lease, x)
  }

  /** The longest a lease can go without renewal. */
  function Gap(t: Timing): real {
    (if t.setup >= t.delay then t.setup else t.delay) + Longest(t)
  }

  /** The longest from the end of a call to the end of the next one handled. */
  function Longest(t: Timing): real {
    Turns(t, t.losses + 1)
  }

  /** n rounds of waiting and calling, each as long as allowed. */
  function Turns(t: Timing, n: int): real {
    n as real * (t.interval + t.delay)
  }

  lemma OneTurnMore(t: Timing, n: int)
    ensures Turns(t, n + 1) == Turns(t, n) + t.interval + t.delay
  {
  }

  lemma TurnsGrow(t: Timing, a: int, b: int)
    requires Sensible(t) && a <= b
    ensures Turns(t, a) <= Turns(t, b)
    ensures Turns(t, 0) == 0.0
  {
    assert (b as real - a as real) * (t.interval + t.delay) >= 0.0;
  }

  // ---- the condition suffices ---------------------------------------------------------------

  /** n further rounds of waiting and calling take at most that many turns. */
  lemma {:induction false} Rounds(line: Timeline, t: Timing, k: nat, n: nat)
    requires Sensible(t) && Follows(line, t) && k + n <= |line.beats|
    ensures Ready(line, k) <= Ready(line, k + n) <= Ready(line, k) + Turns(t, n)
  {
    if n > 0 {
      hide Turns, SomeHandled;
      Rounds(line, t, k, n - 1);
      assert BeatOk(line, t, k + n - 1);
      OneTurnMore(t, n - 1);
    } else {
      TurnsGrow(t, 0, 0);
    }
  }

  /** Past beat k with nothing handled from k on, at most `losses` beats have begun. */
  lemma QuietSpell(line: Timeline, t: Timing, k: nat, x: real)
    requires Sensible(t) && Follows(line, t) && k <= |line.beats|
    requires forall i | k <= i < |line.beats| && line.beats[i].handled.Some? :: line.beats[i].handled.value > x
    requires Ready(line, k) <= x <= line.end
    ensures x <= Ready(line, k) + Longest(t)
  {
    hide Turns;
    if k + t.losses < |line.beats| {
      assert SomeHandled(line, k, t.losses);
      var i :| k <= i <= k + t.losses && line.beats[i].handled.Some?;
      assert BeatOk(line, t, i);
      Rounds(line, t, k, i + 1 - k);
      TurnsGrow(t, i + 1 - k, t.losses + 1);
    } else {
      var rest := |line.beats| - k;
      Rounds(line, t, k, rest);
      TurnsGrow(t, rest, t.losses);
      OneTurnMore(t, t.losses);
    }
  }

  /** The last beat handled by x, or -1. */
  ghost function LastHandled(line: Timeline, x: real, k: nat): (i: int)
    requires k <= |line.beats|
    ensures -1 <= i < k
    ensures i >= 0 ==> line.beats[i].handled.Some? && line.beats[i].handled.value <= x
    ensures forall q | i < q < k && line.beats[q].handled.Some? :: line.beats[q].handled.value > x
  {
    if k == 0 then -1
    else if line.beats[k - 1].handled.Some? && line.beats[k - 1].handled.value <= x then k - 1
    else LastHandled(line, x, k - 1)
  }

  lemma GapIsEnough(line: Timeline, t: Timing, lease: real)
    requires Sensible(t) && Follows(line, t) && Gap(t) <= lease
    ensures NeverLapses(line, lease)
  {
    forall x: real | line.claimed <= x <= line.end ensures Covered(line, lease, x) {
      TurnsGrow(t, 0, t.losses + 1);
      var i := LastHandled(line, x, |line.beats|);
      if i < 0 {
        if x > line.begun { QuietSpell(line, t, 0, x); }
      } else {
        var b := line.beats[i];
        assert BeatOk(line, t, i);
        if x > b.finish { QuietSpell(line, t, i + 1, x); }
        assert CoveredBy(b, lease, x);
      }
    }
  }

  // ---- and it is necessary ------------------------------------------------------------------

  /** n lost calls and one handled as it ends, every wait and call as long as allowed. */
  function Slow(t: Timing, from: real, n: nat): (beats: seq<Beat>)
    ensures |beats| == n + 1
    decreases n
  {
    var start := from + t.interval;
    var finish := start + t.delay;
    if n == 0 then [Beat(start, finish, Some(finish))]
    else [Beat(start, finish, None)] + Slow(t, finish, n - 1)
  }

  lemma {:induction false} SlowTakesTheGap(t: Timing, from: real, n: nat)
    requires Sensible(t)
    ensures var beats := Slow(t, from, n);
      && (forall i | 0 <= i < n :: beats[i].handled.None?)
      && beats[n].handled == Some(beats[n].finish)
      && beats[n].finish == from + Turns(t, n + 1)
      && (forall k | 0 <= k <= n ::
            var ready := if k == 0 then from else beats[k - 1].finish;
            beats[k].start == ready + t.interval && beats[k].finish == beats[k].start + t.delay)
    decreases n
  {
    hide Turns;
    OneTurnMore(t, n);
    if n > 0 { SlowTakesTheGap(t, from + t.interval + t.delay, n - 1); } else { TurnsGrow(t, 0, 0); }
  }

  /** Worst case one: the download takes `setup`, then `losses` beats are lost. */
  lemma LateStart(t: Timing, lease: real) returns (line: Timeline)
    requires Sensible(t) && 0.0 <= lease < t.setup + Longest(t)
    ensures Follows(line, t) && !NeverLapses(line, lease)
  {
    var m := t.losses;
    SlowTakesTheGap(t, t.setup, m);
    var beats := Slow(t, t.setup, m);
    line := Timeline(0.0, t.setup, beats, beats[m].finish);
    assert SomeHandled(line, 0, m) by { assert beats[m].handled.Some?; }
    forall k | 0 <= k < |beats| ensures BeatOk(line, t, k) {}
    var x := (lease + beats[m].finish) / 2.0;
    assert !Covered(line, lease, x);
  }

  /** A beat renewed as it starts whose reply takes `delay`, and then `losses` lost beats. */
  function Unlucky(t: Timing): (beats: seq<Beat>)
    ensures |beats| == t.losses + 2
  {
    var first := Beat(t.interval, t.interval + t.delay, Some(t.interval));
    [first] + Slow(t, first.finish, t.losses)
  }

  lemma UnluckyBeats(t: Timing, k: nat)
    requires Sensible(t) && k < |Unlucky(t)|
    ensures BeatOk(Timeline(0.0, 0.0, Unlucky(t), Unlucky(t)[t.losses + 1].finish), t, k)
  {
    hide Turns;
    var beats := Unlucky(t);
    var slow := Slow(t, t.interval + t.delay, t.losses);
    SlowTakesTheGap(t, t.interval + t.delay, t.losses);
    if k > 0 {
      assert beats[k] == slow[k - 1];
      assert k > 1 ==> beats[k - 1] == slow[k - 2];
    }
  }

  lemma UnluckyFollows(t: Timing)
    requires Sensible(t)
    ensures var beats := Unlucky(t);
      Follows(Timeline(0.0, 0.0, beats, beats[t.losses + 1].finish), t)
  {
    hide Turns, BeatOk;
    var m := t.losses;
    var beats := Unlucky(t);
    var line := Timeline(0.0, 0.0, beats, beats[m + 1].finish);
    SlowTakesTheGap(t, t.interval + t.delay, m);
    TurnsGrow(t, 0, m + 1);
    forall k | 0 <= k < |beats| ensures BeatOk(line, t, k) { UnluckyBeats(t, k); }
    forall k | 0 <= k < |beats| - m ensures SomeHandled(line, k, m) {
      if k == 0 { assert beats[0].handled.Some?; } else { assert beats[m + 1].handled.Some?; }
    }
  }

  /** Worst case two: the lease runs out before the beat that ends the losses is handled. */
  lemma LateReply(t: Timing, lease: real) returns (line: Timeline)
    requires Sensible(t) && 0.0 <= lease < t.delay + Longest(t)
    ensures Follows(line, t) && !NeverLapses(line, lease)
  {
    var m := t.losses;
    var beats := Unlucky(t);
    var slow := Slow(t, t.interval + t.delay, m);
    UnluckyFollows(t);
    SlowTakesTheGap(t, t.interval + t.delay, m);
    line := Timeline(0.0, 0.0, beats, beats[m + 1].finish);
    var x := (t.interval + lease + line.end) / 2.0;
    forall i | 0 <= i < |beats| ensures !CoveredBy(beats[i], lease, x) {
      if i > 0 { assert beats[i] == slow[i - 1]; }
    }
    assert !Covered(line, lease, x);
  }

  /** A live holder is safe from displacement under every behaviour the timing allows exactly when the
      lease is as long as the gap. */
  lemma LeaseIsSafeIffGapFits(t: Timing, lease: real)
    requires Sensible(t) && lease >= 0.0
    ensures (forall line | Follows(line, t) :: NeverLapses(line, lease)) <==> Gap(t) <= lease
  {
    if Gap(t) <= lease {
      forall line | Follows(line, t) ensures NeverLapses(line, lease) { GapIsEnough(line, t, lease); }
    } else if t.setup >= t.delay {
      var line := LateStart(t, lease);
    } else {
      var line := LateReply(t, lease);
    }
  }

  /** What the default beat, a third of the lease but at least a second, tolerates. From three seconds on,
      losing one call in a row is safe exactly when a call takes at most a ninth of the lease and the setup at
      most a third less two calls; losing two is safe only if calls and setup take no time. A lease of two
      seconds tolerates one loss only in no time, a shorter one none. */
  lemma BeatingThreeTimesPerLease(lease: int, setup: real, delay: real)
    requires setup >= 0.0 && delay >= 0.0
    ensures var beat := Interval(lease);
      && (Gap(Timing(beat, setup, delay, 1)) <= lease as real <==>
            if lease >= 3 then 3.0 * delay <= beat && setup + 2.0 * delay <= beat
            else lease == 2 && setup == 0.0 && delay == 0.0)
      && (Gap(Timing(beat, setup, delay, 2)) <= lease as real <==> lease >= 3 && setup == 0.0 && delay == 0.0)
  {
    var beat := Interval(lease);
    assert Gap(Timing(beat, setup, delay, 1)) == (if setup >= delay then setup else delay) + 2.0 * (beat + delay);
    assert Gap(Timing(beat, setup, delay, 2)) == (if setup >= delay then setup else delay) + 3.0 * (beat + delay);
    assert if lease >= 3 then 3.0 * beat == lease as real else beat == 1.0;
  }
}
