/** The heartbeat in the protocol: the timeline of a run is read off the steps, and the coordinator hands out a live
    holder's job exactly when the timing leaves its lease too long without renewal. */
module Beats {
  import opened Basics
  import opened Stages
  import opened Lease
  import opened Session
  import opened Protocol
  import opened Invariant
  import opened Safety
  import opened Heartbeat

  /** The call a heartbeat thread is in: when it began, and when the coordinator renewed the lease, if it has. */
  datatype OpenCall = OpenCall(start: real, handled: Option<real>)

  /** What the steps so far show of one run's lease: its claim, its thread, the calls that are over, the open one. */
  datatype Watch = Watch(claimed: real, begun: Option<real>, beats: seq<Beat>, open: Option<OpenCall>)

  ghost function Observed(s: System, r: nat, w: Watch, step: Step): Watch
    requires r < |s.runs|
  {
    var run := s.runs[r];
    match step
    case StartBeats(q) => if q == r && w.begun.None? then w.(begun := Some(s.now)) else w
    case SendBeat(q) =>
      if q == r && w.begun.Some? && w.open.None? && (run.phase.AtStage? || run.phase.Pushing?)
      then w.(open := Some(OpenCall(s.now, None)))
      else w
    case Deliver(q, call, _) =>
      if q == r && call == BeatCall && call in run.flight && Holds(s.db, run.job, run.epoch)
         && w.open.Some? && w.open.value.handled.None?
      then w.(open := Some(w.open.value.(handled := Some(s.now))))
      else w
    case EndBeat(q) =>
      if q == r && w.open.Some?
      then w.(beats := w.beats + [Beat(w.open.value.start, s.now, w.open.value.handled)], open := None)
      else w
    case _ => w
  }

  /** The watch on run r over a list of steps; None as long as there is no run r. */
  ghost function Watched(steps: seq<Step>, r: nat): Option<Watch> {
    if steps == [] then None
    else
      var (before, step) := (steps[..|steps| - 1], steps[|steps| - 1]);
      if r < |Exec(before).runs| then
        match Watched(before, r)
        case None => None
        case Some(w) => Some(Observed(Exec(before), r, w, step))
      else if r < |Exec(steps).runs| then Some(Watch(Exec(before).now, None, [], None))
      else None
  }

  /** The timeline of a run by now; a thread that has not started is in its setup. */
  ghost function TimelineOf(w: Watch, now: real): Timeline {
    Timeline(w.claimed, if w.begun.Some? then w.begun.value else now, w.beats, now)
  }

  // ---- the timeline witnesses the lease --------------------------------------------------------

  /** The coordinator renewed the lease no earlier than anything the watch shows. */
  ghost predicate Witnesses(w: Watch, run: Run, now: real) {
    && w.claimed <= run.renewed <= now
    && (forall i | 0 <= i < |w.beats| && w.beats[i].handled.Some? :: w.beats[i].handled.value <= run.renewed)
    && (w.open.Some? && w.open.value.handled.Some? ==> w.open.value.handled.value <= run.renewed)
  }

  lemma StepRenews(s: System, step: Step, r: nat)
    requires r < |s.runs| && s.runs[r].renewed <= s.now
    ensures var after := Apply(s, step);
      && r < |after.runs|
      && s.runs[r].renewed <= after.runs[r].renewed <= after.now && s.now <= after.now
      && ((step.Deliver? && step.r == r && step.call == BeatCall && BeatCall in s.runs[r].flight
           && Holds(s.db, s.runs[r].job, s.runs[r].epoch)) ==> after.runs[r].renewed == s.now)
  {
    hide Handle;
    if step.Deliver? && step.r < |s.runs| && step.call == BeatCall { BeatIsAnswered(s, step.r); }
  }

  lemma BeatIsAnswered(s: System, r: nat)
    requires r < |s.runs|
    ensures Handle(s, s.runs[r], BeatCall).1 == Accepted <==> Holds(s.db, s.runs[r].job, s.runs[r].epoch)
  {
  }

  lemma StepWitnesses(s: System, step: Step, r: nat, w: Watch)
    requires r < |s.runs| && Witnesses(w, s.runs[r], s.now)
    ensures r < |Apply(s, step).runs|
    ensures Witnesses(Observed(s, r, w, step), Apply(s, step).runs[r], Apply(s, step).now)
  {
    hide Apply;
    StepRenews(s, step, r);
  }

  lemma NewRun(s: System, step: Step, r: nat)
    requires |s.runs| <= r < |Apply(s, step).runs|
    ensures var after := Apply(s, step); after.runs[r].renewed == s.now == after.now
  {
  }

  /** From the steps alone: every run is watched, and the lease is renewed as the watch shows, or later. */
  lemma {:induction false} RunsAreWitnessed(steps: seq<Step>, r: nat)
    requires r < |Exec(steps).runs|
    ensures Watched(steps, r).Some? && Witnesses(Watched(steps, r).value, Exec(steps).runs[r], Exec(steps).now)
  {
    hide Apply, Observed, Witnesses, Exec;
    if steps == [] {
      StartIsEmpty();
    } else {
      var (before, step) := (steps[..|steps| - 1], steps[|steps| - 1]);
      ExecLast(steps);
      if r < |Exec(before).runs| {
        RunsAreWitnessed(before, r);
        StepWitnesses(Exec(before), step, r, Watched(before, r).value);
      } else {
        NewRun(Exec(before), step, r);
        FreshIsWitnessed(Exec(steps).runs[r], Exec(steps).now);
      }
    }
  }

  lemma StartIsEmpty()
    ensures Exec([]).runs == []
  {
  }

  lemma FreshIsWitnessed(run: Run, now: real)
    requires run.renewed == now
    ensures Witnesses(Watch(now, None, [], None), run, now)
  {
  }

  // ---- a fresh lease keeps the job -------------------------------------------------------------

  /** The lease of j is in force and its holder's fail has not been accepted. */
  ghost predicate InForce(s: System, j: JobId) {
    && j in s.db.jobs && s.db.jobs[j].epoch > 0 && !Lapsed(s.db.jobs[j], s.now)
    && j in s.past && s.past[j].holder < |s.runs| && !s.runs[s.past[j].holder].failed
  }

  /** No claim takes a job over steps before each of which its lease is in force. */
  lemma {:induction false} FreshLeaseIsKept(steps: seq<Step>, more: seq<Step>, j: JobId)
    requires j in Exec(steps).db.jobs
    requires forall k | 0 <= k < |more| :: InForce(Exec(steps + more[..k]), j)
    ensures j in Exec(steps + more).db.jobs
    ensures Exec(steps + more).db.jobs[j].epoch == Exec(steps).db.jobs[j].epoch
    decreases |more|
  {
    hide Inv, Apply, Lapsed, Exec;
    if more == [] {
      assert steps + more == steps;
    } else {
      var n := |more| - 1;
      forall k | 0 <= k < n ensures InForce(Exec(steps + more[..n][..k]), j) { assert more[..n][..k] == more[..k]; }
      FreshLeaseIsKept(steps, more[..n], j);
      Invariant.Invariant(steps + more[..n]);
      EpochStep(Exec(steps + more[..n]), more[n], j);
      ExecOneMore(steps, more);
    }
  }

  // ---- a gap that fits keeps the job -----------------------------------------------------------

  /** Job j is with a live run under this lease, and its heartbeats so far are within the timing. */
  ghost predicate Held(steps: seq<Step>, j: JobId, t: Timing, lease: int) {
    var s := Exec(steps);
    && j in s.db.jobs && s.db.jobs[j].epoch > 0 && j in s.past
    && var h := s.past[j].holder;
    && h < |s.runs| && Live(s.runs[h]) && s.runs[h].lease == lease
    && Watched(steps, h).Some?
    && Follows(TimelineOf(Watched(steps, h).value, s.now), t)
    && Prompt(Watched(steps, h).value, t, s.now)
  }

  /** The wait or the call the thread is in has not taken too long. */
  predicate Prompt(w: Watch, t: Timing, now: real) {
    w.begun.None?
    || var ready := if w.beats == [] then w.begun.value else w.beats[|w.beats| - 1].finish;
    match w.open
    case None => now <= ready + t.interval
    case Some(call) => call.start <= ready + t.interval && now <= call.start + t.delay
  }

  /** The next step leaves the job with the claim it is under. */
  ghost predicate Stays(steps: seq<Step>, step: Step, j: JobId) {
    && j in Exec(steps).db.jobs && j in Exec(steps + [step]).db.jobs
    && Exec(steps + [step]).db.jobs[j].epoch == Exec(steps).db.jobs[j].epoch
  }

  lemma LeaseEnds(s: System, j: JobId)
    requires Inv(s) && j in s.db.jobs && s.db.jobs[j].epoch > 0
    ensures j in s.past && s.past[j].holder < |s.runs|
    ensures var run := s.runs[s.past[j].holder];
      && s.db.jobs[j].expires == Some(run.renewed + run.lease as real)
      && (Live(run) ==> !run.failed)
  {
    hide Flow, Budget, IsPrefix;
    RowIsOk(s, j);
    assert RunOk(s.db, s.past, s.runs[s.past[j].holder], s.past[j].holder);
  }

  lemma HeldIsFresh(steps: seq<Step>, j: JobId, t: Timing, lease: int)
    requires Sensible(t) && Held(steps, j, t, lease) && Gap(t) <= lease as real
    ensures !Lapsed(Exec(steps).db.jobs[j], Exec(steps).now)
    ensures !Exec(steps).runs[Exec(steps).past[j].holder].failed
  {
    hide Exec, Watched, Inv, Follows, Gap;
    var s := Exec(steps);
    var h := s.past[j].holder;
    Invariant.Invariant(steps);
    LeaseEnds(s, j);
    RunsAreWitnessed(steps, h);
    var line := TimelineOf(Watched(steps, h).value, s.now);
    GapIsEnough(line, t, lease as real);
    assert Covered(line, lease as real, s.now);
  }

  /** A live holder within the timing keeps its job over the next step, whoever takes it. */
  lemma HolderStays(steps: seq<Step>, step: Step, j: JobId, t: Timing, lease: int)
    requires Sensible(t) && Held(steps, j, t, lease) && Gap(t) <= lease as real
    ensures Stays(steps, step, j)
  {
    hide Exec, Watched, Inv, Gap, Follows, Apply, Lapsed;
    HeldIsFresh(steps, j, t, lease);
    Invariant.Invariant(steps);
    EpochStep(Exec(steps), step, j);
    ExecOneMore(steps, [step]);
    assert steps + [step][..0] == steps;
  }

  /** And over any number of steps, as long as it lives and beats within the timing. */
  lemma {:induction false} LiveHolderIsNeverDisplaced(steps: seq<Step>, more: seq<Step>, j: JobId, t: Timing, lease: int)
    requires Sensible(t) && Gap(t) <= lease as real && j in Exec(steps).db.jobs
    requires forall k | 0 <= k < |more| :: Held(steps + more[..k], j, t, lease)
    ensures j in Exec(steps + more).db.jobs
    ensures Exec(steps + more).db.jobs[j].epoch == Exec(steps).db.jobs[j].epoch
    decreases |more|
  {
    hide Exec, Held, Gap, Sensible;
    if more == [] {
      assert steps + more == steps;
    } else {
      var n := |more| - 1;
      forall k | 0 <= k < n ensures Held(steps + more[..n][..k], j, t, lease) { assert more[..n][..k] == more[..k]; }
      LiveHolderIsNeverDisplaced(steps, more[..n], j, t, lease);
      HolderStays(steps + more[..n], more[n], j, t, lease);
      assert steps + more[..n] + [more[n]] == steps + more;
    }
  }

  // ---- a longer gap loses it -------------------------------------------------------------------

  /** The steps lead to s, with this watch on run 0. */
  ghost predicate Leads(steps: seq<Step>, s: System, w: Watch) {
    Exec(steps) == s && s.runs != [] && Watched(steps, 0) == Some(w)
  }

  lemma LeadsOn(steps: seq<Step>, s: System, w: Watch, step: Step)
    requires Leads(steps, s, w) && Apply(s, step).runs != []
    ensures Leads(steps + [step], Apply(s, step), Observed(s, 0, w, step))
  {
    hide Apply, Observed;
    var all := steps + [step];
    assert all[..|all| - 1] == steps && all[|all| - 1] == step;
    ExecLast(all);
  }

  const REQUEST := Request("a/video.mp4", "a", false, "japanese", None)

  /** Job 1 with run 0 of worker 0, claimed at time zero, at its first stage and never answered by a 409. */
  ghost predicate Running(s: System, lease: int, renewed: real, flight: set<Call>) {
    && s.db.jobs.Keys == {1} && s.db.nextJob == 2 && 1 in s.past && s.past[1].holder == 0
    && s.db.jobs[1].status == Lease.Running && s.db.jobs[1].epoch == 1
    && s.db.jobs[1].expires == Some(renewed + lease as real)
    && |s.runs| == 1
    && s.runs[0].worker == 0 && s.runs[0].job == 1 && s.runs[0].epoch == 1 && s.runs[0].lease == lease
    && s.runs[0].phase == AtStage(0) && s.runs[0].flight == flight
  }

  lemma Claimed(lease: int) returns (steps: seq<Step>, s: System)
    ensures Leads(steps, s, Watch(0.0, None, [], None)) && Running(s, lease, 0.0, {}) && s.now == 0.0
  {
    var submitted := Apply(START, Submit(REQUEST));
    steps := [Submit(REQUEST), TakeJob(0, lease, {})];
    assert steps[..1] == [Submit(REQUEST)] && [Submit(REQUEST)][..0] == [];
    assert Exec([]) == START;
    ExecLast(steps[..1]);
    ExecLast(steps);
    s := Exec(steps);
    assert Exec(steps[..1]) == submitted;
    assert submitted.runs == [] && submitted.now == 0.0;
    FirstClaim(submitted, lease);
  }

  lemma FirstClaim(s: System, lease: int)
    requires s == Apply(START, Submit(REQUEST))
    ensures Running(Apply(s, TakeJob(0, lease, {})), lease, 0.0, {})
    ensures Apply(s, TakeJob(0, lease, {})).now == 0.0
  {
    assert !Claimable(s.db.jobs, s.now, {}, 0);
    assert Oldest(s.db.jobs, s.now, {}, 0, 2) == Oldest(s.db.jobs, s.now, {}, 1, 2) == Some(1);
  }

  lemma Waits(s: System, lease: int, renewed: real, flight: set<Call>, elapsed: real)
    requires Running(s, lease, renewed, flight) && elapsed >= 0.0
    ensures var after := Apply(s, Tick(elapsed));
      Running(after, lease, renewed, flight) && after.now == s.now + elapsed
  {
  }

  lemma Does(s: System, lease: int, renewed: real, flight: set<Call>, step: Step)
    requires Running(s, lease, renewed, flight)
    requires step == StartBeats(0) || step == SendBeat(0) || step == EndBeat(0) || step == Lose(0, BeatCall)
    ensures var after := Apply(s, step);
      && after.now == s.now
      && Running(after, lease, renewed,
           if step.SendBeat? then flight + {BeatCall} else if step.Lose? then flight - {BeatCall} else flight)
  {
  }

  lemma IsRenewed(s: System, lease: int, renewed: real)
    requires Running(s, lease, renewed, {BeatCall})
    ensures var after := Apply(s, Deliver(0, BeatCall, true));
      after.now == s.now && Running(after, lease, s.now, {})
  {
    assert {BeatCall} - {BeatCall} == {};
  }

  /** n calls lost one after the other, every wait and call as long as allowed. */
  function Lost(t: Timing, from: real, n: nat): (beats: seq<Beat>)
    ensures |beats| == n
  {
    if n == 0 then []
    else
      var start := from + Turns(t, n - 1) + t.interval;
      Lost(t, from, n - 1) + [Beat(start, start + t.delay, None)]
  }

  /** The thread has just ended a call, or started, and waits. */
  ghost predicate Idle(steps: seq<Step>, s: System, lease: int, renewed: real, begun: real, beats: seq<Beat>, now: real) {
    Leads(steps, s, Watch(0.0, Some(begun), beats, None)) && Running(s, lease, renewed, {}) && s.now == now
  }

  lemma Calls(steps: seq<Step>, s: System, lease: int, renewed: real, begun: real, beats: seq<Beat>, now: real, t: Timing)
    returns (more: seq<Step>, after: System)
    requires Sensible(t) && Idle(steps, s, lease, renewed, begun, beats, now)
    ensures Leads(more, after, Watch(0.0, Some(begun), beats, Some(OpenCall(now + t.interval, None))))
    ensures Running(after, lease, renewed, {BeatCall}) && after.now == now + t.interval
  {
    hide Apply, Leads, Running;
    LeadsHasRun(steps, s, Watch(0.0, Some(begun), beats, None));
    var waited := Apply(s, Tick(t.interval));
    Waits(s, lease, renewed, {}, t.interval);
    RunningHasRun(waited, lease, renewed, {});
    LeadsOn(steps, s, Watch(0.0, Some(begun), beats, None), Tick(t.interval));
    after := Apply(waited, SendBeat(0));
    Does(waited, lease, renewed, {}, SendBeat(0));
    assert {} + {BeatCall} == {BeatCall};
    RunningHasRun(after, lease, renewed, {BeatCall});
    LeadsOn(steps + [Tick(t.interval)], waited, Watch(0.0, Some(begun), beats, None), SendBeat(0));
    more := steps + [Tick(t.interval)] + [SendBeat(0)];
  }

  lemma LeadsHasRun(steps: seq<Step>, s: System, w: Watch)
    requires Leads(steps, s, w)
    ensures s.runs != []
  {
  }

  lemma RunningHasRun(s: System, lease: int, renewed: real, flight: set<Call>)
    requires Running(s, lease, renewed, flight)
    ensures s.runs != [] && s.runs[0].phase.AtStage?
  {
  }

  /** An open call takes all the time it may. */
  lemma Hangs(steps: seq<Step>, s: System, w: Watch, lease: int, renewed: real, flight: set<Call>, elapsed: real)
    requires Leads(steps, s, w) && Running(s, lease, renewed, flight) && elapsed >= 0.0
    ensures var after := Apply(s, Tick(elapsed));
      && Leads(steps + [Tick(elapsed)], after, w)
      && Running(after, lease, renewed, flight) && after.now == s.now + elapsed
  {
    hide Apply, Leads, Running;
    Waits(s, lease, renewed, flight, elapsed);
    LeadsHasRun(steps, s, w);
    RunningHasRun(Apply(s, Tick(elapsed)), lease, renewed, flight);
    LeadsOn(steps, s, w, Tick(elapsed));
  }

  lemma Ends(steps: seq<Step>, s: System, w: Watch, lease: int, renewed: real)
    requires Leads(steps, s, w) && Running(s, lease, renewed, {}) && w.open.Some?
    ensures var after := Apply(s, EndBeat(0));
      && Leads(steps + [EndBeat(0)], after,
           w.(beats := w.beats + [Beat(w.open.value.start, s.now, w.open.value.handled)], open := None))
      && Running(after, lease, renewed, {}) && after.now == s.now
  {
    hide Apply, Leads, Running;
    Does(s, lease, renewed, {}, EndBeat(0));
    LeadsHasRun(steps, s, w);
    RunningHasRun(Apply(s, EndBeat(0)), lease, renewed, {});
    LeadsOn(steps, s, w, EndBeat(0));
  }

  /** One wait and one call as long as allowed, the call lost. */
  lemma LosesOne(steps: seq<Step>, s: System, lease: int, renewed: real, begun: real, beats: seq<Beat>, now: real, t: Timing)
    returns (more: seq<Step>, after: System)
    requires Sensible(t) && Idle(steps, s, lease, renewed, begun, beats, now)
    ensures var start := now + t.interval;
      Idle(more, after, lease, renewed, begun, beats + [Beat(start, start + t.delay, None)], start + t.delay)
  {
    hide Apply, Leads, Running;
    var called, calling := Calls(steps, s, lease, renewed, begun, beats, now, t);
    var w := Watch(0.0, Some(begun), beats, Some(OpenCall(now + t.interval, None)));
    Hangs(called, calling, w, lease, renewed, {BeatCall}, t.delay);
    var hung := Apply(calling, Tick(t.delay));
    var gone := Lose(0, BeatCall);
    Does(hung, lease, renewed, {BeatCall}, gone);
    assert {BeatCall} - {BeatCall} == {};
    RunningHasRun(Apply(hung, gone), lease, renewed, {});
    LeadsHasRun(called + [Tick(t.delay)], hung, w);
    LeadsOn(called + [Tick(t.delay)], hung, w, gone);
    Ends(called + [Tick(t.delay)] + [gone], Apply(hung, gone), w, lease, renewed);
    more, after := called + [Tick(t.delay)] + [gone] + [EndBeat(0)], Apply(Apply(hung, gone), EndBeat(0));
  }

  lemma {:induction false} LosesMany(steps: seq<Step>, s: System, lease: int, renewed: real, begun: real, beats: seq<Beat>,
                                     from: real, t: Timing, n: nat)
    returns (more: seq<Step>, after: System)
    requires Sensible(t) && Idle(steps, s, lease, renewed, begun, beats, from)
    ensures Idle(more, after, lease, renewed, begun, beats + Lost(t, from, n), from + Turns(t, n))
  {
    hide Idle, Turns;
    if n == 0 {
      more, after := steps, s;
      TurnsGrow(t, 0, 0);
      assert beats + Lost(t, from, 0) == beats;
    } else {
      var now := from + Turns(t, n - 1);
      var lost, idle := LosesMany(steps, s, lease, renewed, begun, beats, from, t, n - 1);
      more, after := LosesOne(lost, idle, lease, renewed, begun, beats + Lost(t, from, n - 1), now, t);
      OneTurnMore(t, n - 1);
      assert beats + Lost(t, from, n - 1) + [Beat(now + t.interval, now + t.interval + t.delay, None)]
        == beats + Lost(t, from, n);
    }
  }

  /** The k-th lost call starts one wait after the k turns before it. */
  lemma {:induction false} LostBeat(t: Timing, from: real, n: nat, k: nat)
    requires k < n
    ensures var start := from + Turns(t, k) + t.interval;
      Lost(t, from, n)[k] == Beat(start, start + t.delay, None)
  {
    hide Turns;
    if k < n - 1 {
      LostBeat(t, from, n - 1, k);
      assert Lost(t, from, n)[k] == Lost(t, from, n - 1)[k];
    }
  }

  /** Lost calls keep the timing, one after the other. */
  lemma LostBeatIsOk(t: Timing, from: real, n: nat, k: nat, line: Timeline, i: nat)
    requires Sensible(t) && k < n && i < |line.beats| && line.beats[i] == Lost(t, from, n)[k]
    requires Ready(line, i) == if k == 0 then from else Lost(t, from, n)[k - 1].finish
    ensures BeatOk(line, t, i)
  {
    hide Turns;
    LostBeat(t, from, n, k);
    TurnsGrow(t, 0, 0);
    if k > 0 {
      LostBeat(t, from, n, k - 1);
      OneTurnMore(t, k - 1);
    }
  }

  lemma LostEnds(t: Timing, from: real, n: nat)
    requires Sensible(t)
    ensures n > 0 ==> Lost(t, from, n)[n - 1].finish == from + Turns(t, n)
    ensures n == 0 ==> Turns(t, n) == 0.0
  {
    hide Turns;
    TurnsGrow(t, 0, 0);
    if n > 0 {
      LostBeat(t, from, n, n - 1);
      OneTurnMore(t, n - 1);
    }
  }

  /** The next call hangs until the lease is over, and another worker claims the job. */
  lemma AnotherClaims(steps: seq<Step>, s: System, lease: int, renewed: real, begun: real, beats: seq<Beat>, now: real, t: Timing)
    returns (more: seq<Step>)
    requires Sensible(t) && Idle(steps, s, lease, renewed, begun, beats, now)
    requires renewed + lease as real < now + t.interval + t.delay
    requires Follows(Timeline(0.0, begun, beats, now + t.interval + t.delay), t)
    requires now <= if beats == [] then begun else beats[|beats| - 1].finish
    ensures Held(more, 1, t, lease) && !Stays(more, TakeJob(1, lease, {}), 1)
  {
    hide Apply, Leads, Running, Follows;
    var called, calling := Calls(steps, s, lease, renewed, begun, beats, now, t);
    var w := Watch(0.0, Some(begun), beats, Some(OpenCall(now + t.interval, None)));
    Hangs(called, calling, w, lease, renewed, {BeatCall}, t.delay);
    more := called + [Tick(t.delay)];
    var last := Apply(calling, Tick(t.delay));
    IsHeld(more, last, w, lease, renewed, {BeatCall}, t);
    IsLost(more, last, w, lease, renewed, {BeatCall});
  }

  lemma IsHeld(steps: seq<Step>, s: System, w: Watch, lease: int, renewed: real, flight: set<Call>, t: Timing)
    requires Leads(steps, s, w) && Running(s, lease, renewed, flight)
    requires Follows(TimelineOf(w, s.now), t) && Prompt(w, t, s.now)
    ensures Held(steps, 1, t, lease)
  {
    hide Exec, Watched, Follows, Prompt;
  }

  lemma IsLost(steps: seq<Step>, s: System, w: Watch, lease: int, renewed: real, flight: set<Call>)
    requires Leads(steps, s, w) && Running(s, lease, renewed, flight) && renewed + lease as real < s.now
    ensures !Stays(steps, TakeJob(1, lease, {}), 1)
  {
    hide Exec;
    var take := TakeJob(1, lease, {});
    ExecOneMore(steps, [take]);
    assert steps + [take][..0] == steps;
    assert !Busy(s, 1);
    assert !Claimable(s.db.jobs, s.now, {}, 0) && Claimable(s.db.jobs, s.now, {}, 1);
    assert Oldest(s.db.jobs, s.now, {}, 0, 2) == Oldest(s.db.jobs, s.now, {}, 1, 2) == Some(1);
    assert Apply(s, take).db.jobs[1].epoch == 2;
  }

  lemma Starts(steps: seq<Step>, s: System, lease: int)
    requires Leads(steps, s, Watch(0.0, None, [], None)) && Running(s, lease, 0.0, {})
    ensures Idle(steps + [StartBeats(0)], Apply(s, StartBeats(0)), lease, 0.0, s.now, [], s.now)
  {
    hide Apply, Leads, Running;
    Does(s, lease, 0.0, {}, StartBeats(0));
    LeadsHasRun(steps, s, Watch(0.0, None, [], None));
    RunningHasRun(Apply(s, StartBeats(0)), lease, 0.0, {});
    LeadsOn(steps, s, Watch(0.0, None, [], None), StartBeats(0));
  }

  /** The thread starts as late as it may, and then the calls are lost. */
  lemma LateStartLosesTheJob(t: Timing, lease: int) returns (steps: seq<Step>)
    requires Sensible(t) && lease as real < t.setup + Longest(t)
    ensures Held(steps, 1, t, lease) && !Stays(steps, TakeJob(1, lease, {}), 1)
  {
    hide Apply, Leads, Running, Held, Stays, Turns, Follows;
    var claimed, s := Claimed(lease);
    Hangs(claimed, s, Watch(0.0, None, [], None), lease, 0.0, {}, t.setup);
    var late := Apply(s, Tick(t.setup));
    Starts(claimed + [Tick(t.setup)], late, lease);
    var n := t.losses;
    var lost, idle := LosesMany(claimed + [Tick(t.setup)] + [StartBeats(0)], Apply(late, StartBeats(0)),
                                lease, 0.0, t.setup, [], t.setup, t, n);
    var beats := Lost(t, t.setup, n);
    assert [] + beats == beats;
    OneTurnMore(t, n);
    LateStartFollows(t);
    steps := AnotherClaims(lost, idle, lease, 0.0, t.setup, beats, t.setup + Turns(t, n), t);
  }

  lemma LateStartFollows(t: Timing)
    requires Sensible(t)
    ensures var (n, beats) := (t.losses, Lost(t, t.setup, t.losses));
      && Follows(Timeline(0.0, t.setup, beats, t.setup + Turns(t, n) + t.interval + t.delay), t)
      && t.setup + Turns(t, n) <= if beats == [] then t.setup else beats[n - 1].finish
  {
    hide Turns, BeatOk;
    var (n, beats) := (t.losses, Lost(t, t.setup, t.losses));
    LostEnds(t, t.setup, n);
    TurnsGrow(t, 0, n);
    var line := Timeline(0.0, t.setup, beats, t.setup + Turns(t, n) + t.interval + t.delay);
    forall k | 0 <= k < |beats| ensures BeatOk(line, t, k) { LostBeatIsOk(t, t.setup, n, k, line, k); }
  }

  /** A call is handled at once and answered late, and then the calls are lost. */
  lemma LateReplyLosesTheJob(t: Timing, lease: int) returns (steps: seq<Step>)
    requires Sensible(t) && lease as real < t.delay + Longest(t)
    ensures Held(steps, 1, t, lease) && !Stays(steps, TakeJob(1, lease, {}), 1)
  {
    hide Apply, Leads, Running, Held, Stays, Turns, Follows;
    var first := Beat(t.interval, t.interval + t.delay, Some(t.interval));
    var answered, s := Renews(t, lease);
    var n := t.losses;
    var lost, idle := LosesMany(answered, s, lease, t.interval, 0.0, [first], first.finish, t, n);
    OneTurnMore(t, n);
    TurnsGrow(t, 0, n);
    LostEnds(t, first.finish, n);
    LateReplyFollows(t);
    steps := AnotherClaims(lost, idle, lease, t.interval, 0.0, [first] + Lost(t, first.finish, n),
                           first.finish + Turns(t, n), t);
  }

  lemma LateReplyFollows(t: Timing)
    requires Sensible(t)
    ensures var first := Beat(t.interval, t.interval + t.delay, Some(t.interval));
      var end := first.finish + Turns(t, t.losses) + t.interval + t.delay;
      Follows(Timeline(0.0, 0.0, [first] + Lost(t, first.finish, t.losses), end), t)
  {
    hide Turns;
    var n := t.losses;
    var first := Beat(t.interval, t.interval + t.delay, Some(t.interval));
    var slow := Lost(t, first.finish, n);
    var beats := [first] + slow;
    var line := Timeline(0.0, 0.0, beats, first.finish + Turns(t, n) + t.interval + t.delay);
    LostEnds(t, first.finish, n);
    TurnsGrow(t, 0, n);
    forall k | 0 <= k < |beats| ensures BeatOk(line, t, k) {
      if k > 0 {
        assert beats[k] == slow[k - 1];
        assert k > 1 ==> beats[k - 1] == slow[k - 2];
        LostBeatIsOk(t, first.finish, n, k - 1, line, k);
      }
    }
    assert beats[0].handled.Some?;
    assert n > 0 ==> beats[n] == slow[n - 1];
  }

  /** The first call, renewed as it starts. */
  lemma Renews(t: Timing, lease: int) returns (steps: seq<Step>, s: System)
    requires Sensible(t)
    ensures Idle(steps, s, lease, t.interval, 0.0, [Beat(t.interval, t.interval + t.delay, Some(t.interval))],
                 t.interval + t.delay)
  {
    hide Apply, Leads, Running;
    var claimed, start := Claimed(lease);
    Starts(claimed, start, lease);
    var called, calling := Calls(claimed + [StartBeats(0)], Apply(start, StartBeats(0)), lease, 0.0, 0.0, [], 0.0, t);
    var open := Watch(0.0, Some(0.0), [], Some(OpenCall(t.interval, None)));
    var renewed := Apply(calling, Deliver(0, BeatCall, true));
    var w := open.(open := Some(OpenCall(t.interval, Some(t.interval))));
    IsRenewed(calling, lease, 0.0);
    RunningHasRun(renewed, lease, t.interval, {});
    HolderIsObserved(calling, lease, 0.0, open);
    LeadsOn(called, calling, open, Deliver(0, BeatCall, true));
    var answered := called + [Deliver(0, BeatCall, true)];
    Hangs(answered, renewed, w, lease, t.interval, {}, t.delay);
    Ends(answered + [Tick(t.delay)], Apply(renewed, Tick(t.delay)), w, lease, t.interval);
    var first := Beat(t.interval, t.interval + t.delay, Some(t.interval));
    assert [] + [first] == [first];
    steps := answered + [Tick(t.delay)] + [EndBeat(0)];
    s := Apply(Apply(renewed, Tick(t.delay)), EndBeat(0));
  }

  lemma HolderIsObserved(s: System, lease: int, renewed: real, w: Watch)
    requires Running(s, lease, renewed, {BeatCall}) && w.open.Some? && w.open.value.handled.None?
    ensures s.runs != []
    ensures Observed(s, 0, w, Deliver(0, BeatCall, true)) == w.(open := Some(OpenCall(w.open.value.start, Some(s.now))))
  {
  }

  /**
   * For every timing and lease: the coordinator never hands a live holder's job to another worker, whatever
   * the steps, exactly when the longest gap between two renewals fits in the lease.
   */
  lemma LeaseIsSafeInTheProtocolIff(t: Timing, lease: int)
    requires Sensible(t)
    ensures (forall steps, step, j | Held(steps, j, t, lease) :: Stays(steps, step, j)) <==> Gap(t) <= lease as real
  {
    hide Held, Stays, Longest;
    if Gap(t) <= lease as real {
      forall steps, step, j | Held(steps, j, t, lease) ensures Stays(steps, step, j) {
        HolderStays(steps, step, j, t, lease);
      }
    } else if t.setup >= t.delay {
      var steps := LateStartLosesTheJob(t, lease);
    } else {
      var steps := LateReplyLosesTheJob(t, lease);
    }
  }
}
