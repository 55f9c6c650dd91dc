/** The control flow of one run of run_one_distributed (src/kanomori/ingest/worker.py) after its
    claim. The protocol's sessions and the worker method both move by the function Next. */
module Session {
  import opened Basics
  import opened Stages
  import opened Lease

  datatype Phase =
    | AtStage(i: nat)   // at the top of the stage loop; i == |STAGES| is past its end
    | Pushing(i: nat)   // the push of STAGES[i] is sent, its reply awaited
    | Completing        // complete is sent, its reply awaited
    | Failing           // in the except block: fail is sent
    | Finished          // returned, or the process died

  datatype Event =
    | ResumeSkip              // the claim listed this stage as done
    | Stop                    // the heartbeat found the lease lost
    | SendPush                // the stage is computed and pushed
    | SendComplete
    | Answer(reply: Reply)    // HTTP 200 or 409 for the push or the complete
    | Raise                   // an exception, a lost reply included: fail is sent
    | Reported                // fail answered, or its own exception swallowed

  function Next(phase: Phase, resumed: set<Stage>, event: Event): Option<Phase> {
    match (phase, event)
    case (AtStage(i), ResumeSkip) =>
      if i < |STAGES| && STAGES[i] in resumed then Some(AtStage(i + 1)) else None
    case (AtStage(i), Stop) => if i < |STAGES| && STAGES[i] !in resumed then Some(Finished) else None
    case (AtStage(i), SendPush) => if i < |STAGES| && STAGES[i] !in resumed then Some(Pushing(i)) else None
    case (AtStage(i), SendComplete) => if i == |STAGES| then Some(Completing) else None
    case (AtStage(i), Raise) => Some(Failing)
    case (Pushing(i), Answer(Accepted)) => Some(AtStage(i + 1))
    case (Pushing(i), Answer(Stale)) => Some(Finished)
    case (Pushing(i), Raise) => Some(Failing)
    case (Completing, Answer(Accepted)) => Some(Finished)
    case (Completing, Answer(Stale)) => Some(Finished)
    case (Completing, Raise) => Some(Failing)
    case (Failing, Reported) => Some(Finished)
    case _ => None
  }

  /** Where a log of events leads, None when it is no run of the worker. */
  function Follow(phase: Phase, resumed: set<Stage>, log: seq<Event>): Option<Phase> {
    if log == [] then Some(phase)
    else
      match Follow(phase, resumed, log[..|log| - 1])
      case None => None
      case Some(before) => Next(before, resumed, log[|log| - 1])
  }
}
