/** The worker's loops as written (src/kanomori/ingest/worker.py): the stage loop behaves like the
    protocol's sessions whatever the network and the tools do, and the heartbeat thread's beat loop. */
module Worker {
  import opened Basics
  import opened Stages
  import opened Lease
  import opened Session

  /** What the environment decides. An HTTP call returns True, returns False on 409, or raises (None). */
  datatype Environment = Environment(
    fetched: bool,               // source fetch and setup, false when they raise
    fenced: nat -> bool,         // hb.fenced as seen before stage i
    computed: nat -> bool,       // does compute of stage i return?
    pushed: nat -> Option<bool>, // the push of stage i
    completed: Option<bool>)

  /** Does the environment make a run in this phase do this? A failed setup raises before the first stage. */
  predicate Causes(env: Environment, phase: Phase, event: Event) {
    match event
    case ResumeSkip => env.fetched
    case Stop => env.fetched && phase.AtStage? && env.fenced(phase.i)
    case SendPush => env.fetched && phase.AtStage? && !env.fenced(phase.i) && env.computed(phase.i)
    case SendComplete => env.fetched
    case Answer(reply) =>
      if phase.Pushing? then env.pushed(phase.i) == Some(reply == Accepted)
      else env.completed == Some(reply == Accepted)
    case Raise =>
      (match phase
       case AtStage(i) => !env.fetched || (!env.fenced(i) && !env.computed(i))
       case Pushing(i) => env.pushed(i).None?
       case _ => env.completed.None?)
    case Reported => true
  }

  /** May the run raise here? At a stage it has to be one that its claim did not list, or the setup. */
  predicate RaisesAt(env: Environment, phase: Phase, resumed: set<Stage>) {
    phase.AtStage? && env.fetched ==> phase.i < |STAGES| && STAGES[phase.i] !in resumed
  }

  /** Every event of the log is one the environment causes in the phase the run is in. */
  ghost predicate Caused(env: Environment, resumed: set<Stage>, log: seq<Event>) {
    log == [] ||
    var (rest, last) := (log[..|log| - 1], log[|log| - 1]);
    && Caused(env, resumed, rest)
    && Follow(AtStage(0), resumed, rest).Some?
    && var phase := Follow(AtStage(0), resumed, rest).value;
    && Next(phase, resumed, last).Some? && Causes(env, phase, last)
    && (last == Raise ==> RaisesAt(env, phase, resumed))
  }

  lemma AtTheStart(env: Environment, resumed: set<Stage>)
    ensures !env.fetched ==> Causes(env, AtStage(0), Raise) && RaisesAt(env, AtStage(0), resumed)
  {
  }

  /** What can happen at stage i and while its push is out, by the environment. */
  lemma AtAStage(env: Environment, resumed: set<Stage>, i: nat)
    requires env.fetched && i < |STAGES|
    ensures var (at, pushing) := (AtStage(i), Pushing(i));
      if STAGES[i] in resumed then Next(at, resumed, ResumeSkip) == Some(AtStage(i + 1)) && Causes(env, at, ResumeSkip)
      else
        && (env.fenced(i) ==> Next(at, resumed, Stop) == Some(Finished) && Causes(env, at, Stop))
        && (!env.fenced(i) && !env.computed(i) ==> Causes(env, at, Raise) && RaisesAt(env, at, resumed))
        && (!env.fenced(i) && env.computed(i) ==> Next(at, resumed, SendPush) == Some(pushing) && Causes(env, at, SendPush))
    ensures var pushing := Pushing(i);
      match env.pushed(i)
      case None => Causes(env, pushing, Raise) && RaisesAt(env, pushing, resumed)
      case Some(ok) =>
        var answer := Answer(if ok then Accepted else Stale);
        && Next(pushing, resumed, answer) == Some(if ok then AtStage(i + 1) else Finished)
        && Causes(env, pushing, answer)
  {
  }

  lemma AtTheEnd(env: Environment, resumed: set<Stage>)
    requires env.fetched
    ensures Next(AtStage(|STAGES|), resumed, SendComplete) == Some(Completing)
    ensures Causes(env, AtStage(|STAGES|), SendComplete)
    ensures match env.completed
      case None => Causes(env, Completing, Raise) && RaisesAt(env, Completing, resumed)
      case Some(ok) =>
        var answer := Answer(if ok then Accepted else Stale);
        Next(Completing, resumed, answer) == Some(Finished) && Causes(env, Completing, answer)
  {
  }

  lemma AfterARaise(env: Environment, phase: Phase, resumed: set<Stage>)
    requires phase.AtStage? || phase.Pushing? || phase.Completing?
    ensures Next(phase, resumed, Raise) == Some(Failing)
    ensures Next(Failing, resumed, Reported) == Some(Finished) && Causes(env, Failing, Reported)
  {
  }

  /** One claimed job, to the end: the events of the run in order. */
  method RunOneDistributed(env: Environment, resumed: set<Stage>) returns (log: seq<Event>)
    ensures Follow(AtStage(0), resumed, log) == Some(Finished)
    ensures Caused(env, resumed, log)
  {
    log := [];
    assert Follow(AtStage(0), resumed, log) == Some(AtStage(0)) && Caused(env, resumed, log);
    hide Follow, Caused, Next, Causes, RaisesAt;
    AtTheStart(env, resumed);
    var raised := !env.fetched;
    var i := 0;
    ghost var phase := AtStage(0);
    while i < |STAGES| && !raised
      invariant i <= |STAGES| && Follow(AtStage(0), resumed, log) == Some(phase) && Caused(env, resumed, log)
      invariant raised ==> Causes(env, phase, Raise) && RaisesAt(env, phase, resumed)
      invariant if raised then phase.AtStage? || phase.Pushing? else env.fetched && phase == AtStage(i)
      decreases |STAGES| - i, !raised
    {
      AtAStage(env, resumed, i);
      if STAGES[i] in resumed {
        log := Extended(env, resumed, log, ResumeSkip);
        i := i + 1;
        phase := AtStage(i);
      } else if env.fenced(i) {
        log := Extended(env, resumed, log, Stop);
        return;
      } else if !env.computed(i) {
        raised := true;
      } else {
        log := Extended(env, resumed, log, SendPush);
        phase := Pushing(i);
        match env.pushed(i)
        case None => raised := true;
        case Some(ok) =>
          log := Extended(env, resumed, log, Answer(if ok then Accepted else Stale));
          if !ok {
            return;
          }
          i := i + 1;
          phase := AtStage(i);
      }
    }
    if !raised {
      AtTheEnd(env, resumed);
      log := Extended(env, resumed, log, SendComplete);
      phase := Completing;
      if env.completed.Some? {
        log := Extended(env, resumed, log, Answer(if env.completed.value then Accepted else Stale));
        return;
      }
    }
    AfterARaise(env, phase, resumed);
    log := Extended(env, resumed, log, Raise);
    log := Extended(env, resumed, log, Reported);
  }

  /** log + [event], where the event is possible and caused. */
  function Extended(env: Environment, resumed: set<Stage>, log: seq<Event>, event: Event): (r: seq<Event>)
    requires Follow(AtStage(0), resumed, log).Some? && Caused(env, resumed, log)
    requires var phase := Follow(AtStage(0), resumed, log).value;
      && Next(phase, resumed, event).Some? && Causes(env, phase, event)
      && (event == Raise ==> RaisesAt(env, phase, resumed))
    ensures r == log + [event] && Caused(env, resumed, r)
    ensures Follow(AtStage(0), resumed, r) == Next(Follow(AtStage(0), resumed, log).value, resumed, event)
  {
    assert (log + [event])[..|log|] == log;
    log + [event]
  }

  // ---- the environment decides the run --------------------------------------------------------

  lemma OneCause(env: Environment, resumed: set<Stage>, phase: Phase, a: Event, b: Event)
    requires Next(phase, resumed, a).Some? && Next(phase, resumed, b).Some?
    requires Causes(env, phase, a) && Causes(env, phase, b)
    requires a == Raise ==> RaisesAt(env, phase, resumed)
    requires b == Raise ==> RaisesAt(env, phase, resumed)
    ensures a == b
  {
  }

  lemma CausedPrefix(env: Environment, resumed: set<Stage>, log: seq<Event>, n: nat)
    requires Caused(env, resumed, log) && n <= |log|
    ensures Caused(env, resumed, log[..n])
    decreases |log|
  {
    if n == |log| {
      assert log[..n] == log;
    } else {
      CausedPrefix(env, resumed, log[..|log| - 1], n);
      assert log[..|log| - 1][..n] == log[..n];
    }
  }

  /** Two logs of one environment agree as far as both go. */
  lemma {:induction false} LogsAgree(env: Environment, resumed: set<Stage>, a: seq<Event>, b: seq<Event>, n: nat)
    requires Caused(env, resumed, a) && Caused(env, resumed, b) && n <= |a| && n <= |b|
    ensures a[..n] == b[..n]
  {
    hide Next, Causes, RaisesAt;
    if n > 0 {
      LogsAgree(env, resumed, a, b, n - 1);
      CausedPrefix(env, resumed, a, n);
      CausedPrefix(env, resumed, b, n);
      assert a[..n][..n - 1] == a[..n - 1] && b[..n][..n - 1] == b[..n - 1];
      OneCause(env, resumed, Follow(AtStage(0), resumed, a[..n - 1]).value, a[n - 1], b[n - 1]);
      assert a[..n] == a[..n - 1] + [a[n - 1]] && b[..n] == b[..n - 1] + [b[n - 1]];
    }
  }

  /** Nothing follows the end of a run. */
  lemma NothingAfterTheEnd(env: Environment, resumed: set<Stage>, log: seq<Event>, n: nat)
    requires Caused(env, resumed, log) && n < |log|
    ensures Follow(AtStage(0), resumed, log[..n]) != Some(Finished)
  {
    CausedPrefix(env, resumed, log, n + 1);
    assert log[..n + 1][..n] == log[..n];
  }

  /** An environment has one run: its causes leave a single finished log, the one the loop returns. */
  lemma OneRunPerEnvironment(env: Environment, resumed: set<Stage>, a: seq<Event>, b: seq<Event>)
    requires Caused(env, resumed, a) && Caused(env, resumed, b)
    requires Follow(AtStage(0), resumed, a) == Some(Finished) && Follow(AtStage(0), resumed, b) == Some(Finished)
    ensures a == b
  {
    var n := if |a| <= |b| then |a| else |b|;
    LogsAgree(env, resumed, a, b, n);
    assert a[..|a|] == a && b[..|b|] == b;
    if |a| < |b| { NothingAfterTheEnd(env, resumed, b, |a|); }
    if |b| < |a| { NothingAfterTheEnd(env, resumed, a, |b|); }
  }

  /** Nothing goes wrong: no stage is fenced, every tool returns and every call succeeds. */
  ghost predicate Smooth(env: Environment) {
    && env.fetched && env.completed == Some(true)
    && forall i: nat :: !env.fenced(i) && env.computed(i) && env.pushed(i) == Some(true)
  }

  lemma {:induction false} SmoothNeverFails(env: Environment, resumed: set<Stage>, log: seq<Event>)
    requires Smooth(env) && Caused(env, resumed, log)
    ensures Follow(AtStage(0), resumed, log).Some? && !Follow(AtStage(0), resumed, log).value.Failing?
    ensures Follow(AtStage(0), resumed, log).value.Completing? ==> SendComplete in log
    ensures Follow(AtStage(0), resumed, log) == Some(Finished) ==>
      log != [] && log[|log| - 1] == Answer(Accepted) && SendComplete in log
  {
    if log != [] {
      var n := |log| - 1;
      SmoothNeverFails(env, resumed, log[..n]);
      assert log == log[..n] + [log[n]];
    }
  }

  /** When nothing goes wrong the run pushes every undone stage, in order, and ends with complete accepted. */
  lemma SmoothRunCompletes(env: Environment, resumed: set<Stage>, log: seq<Event>)
    requires Smooth(env) && Caused(env, resumed, log) && Follow(AtStage(0), resumed, log) == Some(Finished)
    ensures Sent(resumed, log) == Undone(resumed, |STAGES|)
    ensures log != [] && log[|log| - 1] == Answer(Accepted)
  {
    SmoothNeverFails(env, resumed, log);
    PushesTheUndoneStagesInOrder(resumed, log);
  }

  // ---- what every run of the worker sends ---------------------------------------------------

  /** The stages pushed, in order. */
  function Sent(resumed: set<Stage>, log: seq<Event>): seq<Stage> {
    if log == [] then []
    else
      var n := |log| - 1;
      var at := Follow(AtStage(0), resumed, log[..n]);
      Sent(resumed, log[..n]) +
      (if log[n] == SendPush && at.Some? && at.value.AtStage? && at.value.i < |STAGES| then [STAGES[at.value.i]] else [])
  }

  /** The first n stages without those the claim listed as done. */
  function Undone(resumed: set<Stage>, n: nat): seq<Stage>
    requires n <= |STAGES|
  {
    if n == 0 then []
    else Undone(resumed, n - 1) + (if STAGES[n - 1] in resumed then [] else [STAGES[n - 1]])
  }

  lemma {:induction false} UndoneGrows(resumed: set<Stage>, m: nat, n: nat)
    requires m <= n <= |STAGES|
    ensures Undone(resumed, m) <= Undone(resumed, n)
  {
    if m < n { UndoneGrows(resumed, m, n - 1); }
  }

  ghost predicate InOrder(resumed: set<Stage>, phase: Phase, sent: seq<Stage>, asked: bool) {
    var all := Undone(resumed, |STAGES|);
    && sent <= all && (asked ==> sent == all)
    && match phase
       case AtStage(i) => i <= |STAGES| && sent == Undone(resumed, i) && !asked
       case Pushing(i) => i < |STAGES| && sent == Undone(resumed, i + 1) && !asked
       case Completing => sent == all
       case _ => true
  }

  lemma StepKeepsOrder(resumed: set<Stage>, phase: Phase, event: Event, sent: seq<Stage>, asked: bool)
    requires InOrder(resumed, phase, sent, asked) && Next(phase, resumed, event).Some?
    ensures var pushed := if event == SendPush then [STAGES[phase.i]] else [];
      InOrder(resumed, Next(phase, resumed, event).value, sent + pushed, asked || event == SendComplete)
  {
    match Next(phase, resumed, event).value
    case AtStage(i) => UndoneGrows(resumed, i, |STAGES|);
    case Pushing(i) => UndoneGrows(resumed, i + 1, |STAGES|);
    case _ =>
  }

  /** A run pushes the undone stages in pipeline order and asks to complete only when it pushed all. */
  lemma {:induction false} PushesTheUndoneStagesInOrder(resumed: set<Stage>, log: seq<Event>)
    requires Follow(AtStage(0), resumed, log).Some?
    ensures InOrder(resumed, Follow(AtStage(0), resumed, log).value, Sent(resumed, log), SendComplete in log)
  {
    if log == [] {
      UndoneGrows(resumed, 0, |STAGES|);
    } else {
      var n := |log| - 1;
      PushesTheUndoneStagesInOrder(resumed, log[..n]);
      assert log == log[..n] + [log[n]];
      StepKeepsOrder(resumed, Follow(AtStage(0), resumed, log[..n]).value, log[n], Sent(resumed, log[..n]),
                     SendComplete in log[..n]);
    }
  }

  /** After a 409, a lost lease or a fail report the run sends nothing more; it fails at most once. */
  lemma {:induction false} StopsWhenTold(resumed: set<Stage>, log: seq<Event>, k: nat)
    requires Follow(AtStage(0), resumed, log).Some? && k < |log|
    ensures log[k] == Stop || log[k] == Answer(Stale) || log[k] == Reported ==> k == |log| - 1
    ensures log[k] == Raise ==> log[k + 1..] == [] || log[k + 1..] == [Reported]
  {
    var n := |log| - 1;
    if k < n {
      StopsWhenTold(resumed, log[..n], k);
      var before := Follow(AtStage(0), resumed, log[..n]).value;
      LastEventDecides(resumed, log[..n]);
      if log[k] == Raise {
        assert log[..n][k + 1..] == log[k + 1..n];
        assert log[k + 1..] == log[k + 1..n] + [log[n]];
      }
    }
  }

  lemma LastEventDecides(resumed: set<Stage>, log: seq<Event>)
    requires log != [] && Follow(AtStage(0), resumed, log).Some?
    ensures var last, phase := log[|log| - 1], Follow(AtStage(0), resumed, log).value;
      && (last == Stop || last == Answer(Stale) || last == Reported ==> phase == Finished)
      && (last == Raise ==> phase == Failing)
  {
  }

  // ---- the heartbeat thread ------------------------------------------------------------------

  /** _Heartbeat._run: wait and beat until stopped; a 409 ends it and sets the flag, an exception does
      not. `answers(k)` is the k-th call; `stopped` counts the waits that time out before the stop. */
  method BeatUntilStopped(answers: nat -> Option<bool>, stopped: nat) returns (beats: nat, fenced: bool)
    ensures beats <= stopped
    ensures fenced <==> exists k: nat | k < stopped :: answers(k) == Some(false)
    ensures fenced ==> beats > 0 && answers(beats - 1) == Some(false)
    ensures forall k: nat | k < beats - (if fenced then 1 else 0) :: answers(k) != Some(false)
    ensures !fenced ==> beats == stopped
  {
    beats, fenced := 0, false;
    while beats < stopped
      invariant beats <= stopped && !fenced
      invariant forall k: nat | k < beats :: answers(k) != Some(false)
    {
      var ok := answers(beats);
      beats := beats + 1;
      if ok == Some(false) {
        return beats, true;
      }
    }
  }
}
