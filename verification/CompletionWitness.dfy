/** A complete that is undone: any run that finishes its job and loses the reply, and one such run from the start. */
module CompletionWitness {
  import opened Basics
  import opened Stages
  import opened Rows
  import opened Lease
  import opened Session
  import opened Protocol
  import opened Invariant
  import opened Pipeline
  import opened Continuation
  import opened Uninterrupted
  import opened Completion
  import Beats
  import Resume

  /** A run past its stages asks for complete; the coordinator completes the job and the reply is lost. */
  lemma ReplyIsLost(s: System, r: nat)
    requires r < |s.runs| && s.runs[r].phase == AtStage(|STAGES|)
    requires s.runs[r].job in s.db.jobs && s.db.jobs[s.runs[r].job].epoch == s.runs[r].epoch
    ensures var after := Apply(Apply(s, AskComplete(r)), Deliver(r, CompleteCall, false));
      var j := s.runs[r].job;
      && j in after.db.jobs && after.db.jobs[j].status == Complete && after.db.jobs[j].epoch == s.runs[r].epoch
      && r < |after.runs| && after.runs[r].job == j && after.runs[r].epoch == s.runs[r].epoch
      && CanStillFail(after.runs[r])
  {
  }

  /** Every run that continues to the end can lose that reply, and then its job is complete and becomes failed. */
  lemma LostReplyUndoes(e: Engine, took: Stage -> Option<real>, steps: seq<Step>, r: nat, n: nat)
    returns (complete: seq<Step>, more: seq<Step>)
    requires TakenUp(e, Exec(steps), r, n) && CanContinue(e, Exec(steps), r, n)
    ensures var j := Exec(steps).runs[r].job;
      && j in Exec(complete).db.jobs && Exec(complete).db.jobs[j].status == Complete
      && j in Exec(complete + more).db.jobs && Exec(complete + more).db.jobs[j].status == Failed
  {
    hide Exec, Apply, CanContinue, Inv, Script, CanStillFail;
    IsTaken(e, Exec(steps), r, n);
    var j := Exec(steps).runs[r].job;
    LandsTheSequentialRowsIff(e, took, steps, r, n);
    var landed := steps + Script(e, took, steps, r, |STAGES|);
    var s := Exec(landed);
    ReplyIsLost(s, r);
    var (ask, answer) := (AskComplete(r), Deliver(r, CompleteCall, false));
    complete := landed + [ask] + [answer];
    ExecOneMore(landed, [ask]);
    ExecOneMore(landed + [ask], [answer]);
    assert landed + [ask][..0] == landed && landed + [ask] + [answer][..0] == landed + [ask];
    Invariant.Invariant(complete);
    HolderOf(complete, j);
    HolderIs(Exec(complete), r);
    more := CompleteCanBeUndone(complete, j);
  }

  lemma HolderIs(s: System, r: nat)
    requires Inv(s) && r < |s.runs| && s.runs[r].job in s.db.jobs && s.runs[r].epoch == s.db.jobs[s.runs[r].job].epoch
    ensures s.runs[r].job in s.past && s.past[s.runs[r].job].holder == r
  {
    assert RunOk(s.db, s.past, s.runs[r], r);
  }

  /** Tools that find one cue and no frame. */
  const TOOLS := Engine(p => p, m => m, t => false, (m, separate, language) => "", srt => ["a cue"], m => {},
                        (m, t) => [], (m, frames) => ([], ""), (m, t) => "")

  lemma Submitted() returns (s: System)
    ensures s == Exec([Submit(Beats.REQUEST)])
    ensures JobAt(s.db, 1, 0, RowsAfter(TOOLS, Beats.REQUEST, Below(0)), Beats.REQUEST, 0)
    ensures s.db.jobs[1].hash.None? && s.db.videos == map[]
    ensures Claim(s.db, s.now, 1, {}).1 == Some(1) && s.runs == []
  {
    hide RowsAfter;
    s := Exec([Submit(Beats.REQUEST)]);
    BelowEnds();
    ExecLast([Submit(Beats.REQUEST)]);
    assert Exec([]) == START;
    assert s == Apply(START, Submit(Beats.REQUEST));
    assert !Claimable(s.db.jobs, s.now, {}, 0);
    assert Oldest(s.db.jobs, s.now, {}, 0, 2) == Oldest(s.db.jobs, s.now, {}, 1, 2) == Some(1);
  }

  lemma NothingToShow()
    ensures Continues(TOOLS, Beats.REQUEST, 0, map[], true)
  {
    PlannedFramesSuffice(TOOLS, Beats.REQUEST, 0, map[], true);
  }

  lemma FirstClaimed() returns (claimed: seq<Step>)
    ensures claimed == [Submit(Beats.REQUEST), TakeJob(0, 1, {})]
    ensures TakenUp(TOOLS, Exec(claimed), 0, 0) && CanContinue(TOOLS, Exec(claimed), 0, 0)
    ensures Exec(claimed).runs[0].job == 1
  {
    hide Exec, RowsAfter, Claim, Continues, Below;
    var s := Submitted();
    var take := TakeJob(0, 1, {});
    claimed := [Submit(Beats.REQUEST), take];
    assert claimed[..1] == [Submit(Beats.REQUEST)];
    ExecLast(claimed);
    TakesUp(TOOLS, s, 0, 1, {}, 1, 0);
    FirstClaim(s, take);
    assert Free(TOOLS, Exec(claimed).db, 1, Beats.REQUEST);
    NothingToShow();
  }

  /** From the empty system: one job is submitted, claimed, worked off and completed, and then it has failed. */
  lemma ACompleteJobFails() returns (steps: seq<Step>, more: seq<Step>)
    ensures 1 in Exec(steps).db.jobs && Exec(steps).db.jobs[1].status == Complete
    ensures 1 in Exec(steps + more).db.jobs && Exec(steps + more).db.jobs[1].status == Failed
  {
    hide Exec, TakenUp, CanContinue;
    var claimed := FirstClaimed();
    IsTaken(TOOLS, Exec(claimed), 0, 0);
    steps, more := LostReplyUndoes(TOOLS, stage => None, claimed, 0, 0);
  }

  lemma FirstClaim(s: System, take: Step)
    requires take == TakeJob(0, 1, {}) && Claim(s.db, s.now, 1, {}).1 == Some(1) && s.runs == []
    requires s == Exec([Submit(Beats.REQUEST)])
    ensures var after := Apply(s, take);
      && |after.runs| == 1 && after.runs[0].job == 1 && after.runs[0].worker == 0 && after.disks == map[]
      && after.db.jobs.Keys == {1} && after.db.jobs[1].request == Beats.REQUEST
  {
    ExecLast([Submit(Beats.REQUEST)]);
    assert Exec([]) == START;
  }

  lemma AnswerArrives(s: System, r: nat)
    requires r < |s.runs| && s.runs[r].phase == AtStage(|STAGES|) && FailCall !in s.runs[r].flight
    requires s.runs[r].job in s.db.jobs && s.db.jobs[s.runs[r].job].epoch == s.runs[r].epoch
    ensures var after := Apply(Apply(Apply(s, AskComplete(r)), Deliver(r, CompleteCall, true)), Receive(r));
      var j := s.runs[r].job;
      && j in after.db.jobs && after.db.jobs[j].status == Complete && after.db.jobs[j].epoch == s.runs[r].epoch
      && r < |after.runs| && after.runs[r].job == j && after.runs[r].epoch == s.runs[r].epoch
      && after.runs[r].phase == Finished && !CanStillFail(after.runs[r])
  {
  }

  lemma ThreeSteps(steps: seq<Step>, a: Step, b: Step, c: Step)
    ensures Exec(steps + [a] + [b] + [c]) == Apply(Apply(Apply(Exec(steps), a), b), c)
  {
    hide Exec, Apply;
    ExecOneMore(steps, [a]);
    ExecOneMore(steps + [a], [b]);
    ExecOneMore(steps + [a] + [b], [c]);
    assert steps + [a][..0] == steps && steps + [a] + [b][..0] == steps + [a];
    assert steps + [a] + [b] + [c][..0] == steps + [a] + [b];
  }

  /** The steps of a run that lands everything and hears that its job is complete. */
  ghost function ToTheEnd(e: Engine, took: Stage -> Option<real>, steps: seq<Step>, r: nat): seq<Step> {
    steps + Script(e, took, steps, r, |STAGES|) + [AskComplete(r)] + [Deliver(r, CompleteCall, true)] + [Receive(r)]
  }

  lemma EndIsFinal(e: Engine, took: Stage -> Option<real>, steps: seq<Step>, r: nat, n: nat)
    requires TakenUp(e, Exec(steps), r, n) && CanContinue(e, Exec(steps), r, n)
    ensures var done := ToTheEnd(e, took, steps, r);
      Final(Exec(done), Exec(steps).runs[r].job, r) && Exec(done).runs[r].phase == Finished
  {
    hide Exec, Apply, CanContinue, Inv, Script, CanStillFail, RowsAfter;
    IsTaken(e, Exec(steps), r, n);
    LandsTheSequentialRowsIff(e, took, steps, r, n);
    var landed := steps + Script(e, took, steps, r, |STAGES|);
    Invariant.Invariant(landed);
    NoFailReport(Exec(landed), r);
    AnswerArrives(Exec(landed), r);
    ThreeSteps(landed, AskComplete(r), Deliver(r, CompleteCall, true), Receive(r));
    Invariant.Invariant(ToTheEnd(e, took, steps, r));
    HolderIs(Exec(ToTheEnd(e, took, steps, r)), r);
  }

  /** And every such run whose complete is answered has completed its job for good: no continuation undoes it. */
  lemma AnsweredCompleteIsForGood(e: Engine, took: Stage -> Option<real>, steps: seq<Step>, r: nat, n: nat, more: seq<Step>)
    requires TakenUp(e, Exec(steps), r, n) && CanContinue(e, Exec(steps), r, n)
    ensures var (j, done) := (Exec(steps).runs[r].job, ToTheEnd(e, took, steps, r));
      && Exec(done).runs != [] && r < |Exec(done).runs| && Exec(done).runs[r].phase == Finished
      && j in Exec(done + more).db.jobs && Exec(done + more).db.jobs[j].status == Complete
  {
    hide Exec, CanContinue, ToTheEnd, CanStillFail, TakenUp;
    IsTaken(e, Exec(steps), r, n);
    EndIsFinal(e, took, steps, r, n);
    RunsStayFinal(ToTheEnd(e, took, steps, r), more, Exec(steps).runs[r].job, r);
  }

  lemma NoFailReport(s: System, r: nat)
    requires Inv(s) && r < |s.runs| && s.runs[r].phase.AtStage?
    ensures FailCall !in s.runs[r].flight
  {
    hide JobOk, Flow, IsPrefix;
    assert RunOk(s.db, s.past, s.runs[r], r);
  }

  /** There are honest runs that complete: from the empty system one job is done by tools without collisions. */
  lemma AnHonestRunCompletes() returns (steps: seq<Step>)
    ensures Resume.HonestRun(TOOLS, steps) && NoCollisions(TOOLS)
    ensures 1 in Exec(steps).db.jobs && Exec(steps).db.jobs[1].status == Complete
  {
    hide Exec, Continues, RowsAfter, Resume.HonestRun, Resume.HonestStep, TakenUp, Final, ToTheEnd;
    var claimed := HonestClaim();
    IsTaken(TOOLS, Exec(claimed), 0, 0);
    EndIsFinal(TOOLS, stage => None, claimed, 0, 0);
    steps := ToTheEnd(TOOLS, stage => None, claimed, 0);
    EndIsHonest(TOOLS, stage => None, claimed, 0);
    FinalIsComplete(Exec(steps), 1, 0);
    assert forall a: string :: TOOLS.hash(a) == a;
  }

  lemma FinalIsComplete(s: System, j: JobId, h: nat)
    requires Final(s, j, h)
    ensures j in s.db.jobs && s.db.jobs[j].status == Complete
  {
  }

  lemma EndIsHonest(e: Engine, took: Stage -> Option<real>, steps: seq<Step>, r: nat)
    requires Resume.HonestRun(e, steps)
    ensures Resume.HonestRun(e, ToTheEnd(e, took, steps, r))
  {
    hide Exec, Resume.HonestRun, Resume.HonestStep, Script;
    ScriptIsHonest(e, took, steps, r, |STAGES|);
    var landed := steps + Script(e, took, steps, r, |STAGES|);
    var (ask, answer, receive) := (AskComplete(r), Deliver(r, CompleteCall, true), Receive(r));
    AnswersAreHonest(e, Exec(landed), ask);
    HonestOneMore(e, landed, ask);
    AnswersAreHonest(e, Exec(landed + [ask]), answer);
    HonestOneMore(e, landed + [ask], answer);
    AnswersAreHonest(e, Exec(landed + [ask] + [answer]), receive);
    HonestOneMore(e, landed + [ask] + [answer], receive);
  }

  lemma HonestClaim() returns (claimed: seq<Step>)
    ensures Resume.HonestRun(TOOLS, claimed) && TakenUp(TOOLS, Exec(claimed), 0, 0) && CanContinue(TOOLS, Exec(claimed), 0, 0)
    ensures Exec(claimed).runs[0].job == 1
  {
    hide Exec, RowsAfter, Continues, Resume.HonestRun, Claim, Below;
    claimed := FirstClaimed();
    var (submit, take) := ([Submit(Beats.REQUEST)], TakeJob(0, 1, {}));
    NothingIsHonest();
    AnswersAreHonest(TOOLS, Exec([]), Submit(Beats.REQUEST));
    HonestOneMore(TOOLS, [], Submit(Beats.REQUEST));
    assert [] + submit == submit;
    var s := Submitted();
    NothingDone(s);
    FreshJobsAreResumable(TOOLS, DiskOf(s, 0), s.db.jobs[1]);
    HonestOneMore(TOOLS, submit, take);
    assert submit + [take] == claimed;
  }

  lemma NothingDone(s: System)
    requires JobAt(s.db, 1, 0, RowsAfter(TOOLS, Beats.REQUEST, Below(0)), Beats.REQUEST, 0)
    ensures s.db.jobs[1].done == {}
  {
    BelowEnds();
  }

  lemma NothingIsHonest()
    ensures Resume.HonestRun(TOOLS, [])
  {
  }
}
