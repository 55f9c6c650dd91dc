# Kanomori: ingestion protocol, retrieval ranking, time lines and source moves

Kanomori ingests stream recordings and searches them. A coordinator hands jobs to remote workers under
leases with a fencing epoch; workers compute eight ordered stages and push each one; retrieval fuses ranked
lists, merges candidates into moments, and votes over the windows of an audio clip; an organizer moves loose
videos into a manifest-backed layout. This project models those parts and proves what they promise.

## How the model is laid out

**The ingestion protocol.** `Lease` gives every coordinator transaction as a function on the database, and
`Coordinator` is the same code as a class that updates its tables in place; each of its methods is proved to be
exactly one transition of `Lease`, with a rollback for a push that does not land. `Visual` holds the frames and
OCR tables with ids, foreign keys and the cascading delete. `Session` is the control flow of one worker run;
`Worker` has the loops as written and proves that they follow it. `Protocol` puts one coordinator, any number
of runs, a clock, requests in flight that arrive late or never, lost replies and crashes together as a step
system; a list of steps is a run, and a step that is not enabled changes nothing. `Invariant` is its inductive
invariant; `Safety`, `Completion`, `Bounds`, `Beats`, `Identity`, `Resume` and `Uninterrupted` are the results.
`ClaimLaws`, `PushLaws` and `CostLaws` say in plain terms what a claim hands out, what a push answers and which
costs a row lists. `Heartbeat` is about timelines of renewals alone and `Beats` reads them off the steps of a run.
`Pipeline` has what each stage computes and the rows of one run that serve as the reference; `Continuation` compares
with them a worker's run that goes on from any point, on values, and `Uninterrupted` in the protocol; `FullRun` does
so for the single-machine orchestrator. `RunMeaning` says what a run leaves in terms of the tools alone.
`CompletionWitness` and `ManifestWitness` hold runs and texts that show where a promise fails.

**Ranking.** `Sorting` says what a stable sort is and that its result is unique. `Fusion` and `FusionLaws` are
reciprocal rank fusion; `Transcript` and `Screenshot` use it; `Merge` and `MergeLaws` are the bucket merge;
`AudioQuery`, `Audio` and `AudioLaws` are the windows and the coverage vote, and `AudioSearch` is the whole search by a
clip. Scores are exact reals.

**Time lines.** `Frames` plans samples, `Artifacts` prints, parses and lists frame names, `Scenes` builds spans
and reads them back. Times that the code rounds to three digits are whole milliseconds.

**Source moves.** `Manifest` and `Organizer` are the manifest text, the planner and the requests to the store;
`SafeNames` says which directory names come out, and `OrganizerLaws` what survives when the requests stop anywhere.

## What the proofs found

- **Complete is not absorbing.** When the reply to `complete` is lost the worker reports `fail` under the same
  epoch. `CompleteIsFinalIff` has the exact condition: a complete job stays complete over every continuation
  exactly when the run of its last claim has no fail report under way and can no longer raise. `ACompleteJobFails`
  is a run from the empty system that is undone, and `LostReplyUndoes` does it to any run that gets that far. What
  always holds is that a complete job has all eight stages done.
- **A skipped classify is not a no-op.** The comment at `src/kanomori/ingest/worker.py:189-194` calls pushing the
  empty result harmless, but it writes the stream type `chatting`
  (`src/kanomori/ingest/stages/classify.py:135-137`), which `run_full` does not do. `CompleteJobEqualsRunFull`
  has the exact condition under which both paths agree.
- **Resuming needs the right disk.** Stages read the transcript and the frames back from the worker's own disk,
  and `locate_media` keeps its `separate` decision in memory only. `LandsTheSequentialRowsIff` has the exact
  condition for a claim with n stages done: the run, left alone, lands the sequential rows exactly when the
  transcript it lands has the sequential cues, which are not empty (at transcribe the audio is there and the
  request's own mode gives them, at parse_transcript the file is there and holds them), every planned frame is
  found as long as image_embed is to come, and frames outside the plan carry no text and leave the scenes as they
  are as long as ocr and classify are to come. A first claim needs a hash that no other job has. Without frames
  outside the plan the disk must hold exactly the planned ones from ocr on. `FullRunIsSequentialIff` is the same for
  `run_full` after a crash; without planned frames leftovers of another plan matter there too.
- **The heartbeat starts after the download.** A lease is safe exactly when
  `max(setup, delay) + (losses + 1) * (interval + delay)` fits in it, where `setup` is the time from the claim to
  the start of the heartbeat thread. `LeaseIsSafeInTheProtocolIff` says so of the steps themselves: when the gap
  fits, no step of anyone moves a live holder's epoch, and when it does not, some run hands the job to another
  worker while the holder lives and beats in time. With a beat of a third of the lease, losing two calls in a row
  is already too much unless setup and calls take no time at all.
- **Agreement wins up to k items.** Fusing duplicate-free lists of at most n items puts everything two lists
  share above everything else exactly when n <= k; at n = k + 1 the head of one list ties and is placed first.
- **Manifests and line breaks.** A rewritten manifest reads back exactly when no encoded record contains a
  character at which `str.splitlines` breaks. `json.dumps(..., ensure_ascii=False)` leaves U+0085, U+2028 and
  U+2029 as they are, so one existing record with such a character, even if it was written escaped, makes the
  rewritten manifest unreadable. `ALineSeparatorMakesTheManifestUnreadable` has an encoding and a record for it.
- **A manifest path can name a video.** `OrganizingLosesNothingIff` has the exact condition, which can be checked
  before the first request: the organizer loses nothing, wherever it stops, exactly when the manifest and its
  `.tmp` are none of the planned paths and, if the manifest had text, its `.bak.` is no planned source and no planned
  target but of a video with that very text. Any manifest in the root without a video extension qualifies. A manifest
  path that equals a planned target overwrites that video; one that equals a planned source is moved away.

## Model

| member | source | states |
|---|---|---|
| Basics.RoundHalfEven | src/kanomori/retrieval/merge.py:73-74 | the rounding the code relies on: within one half, and a tie goes to the even neighbour |
| Basics.RoundedIsNearest | src/kanomori/ingest/job_time_costs.py:4-22 | three digits: the thousandths nearest to the number, a tie going to the even one |
| Basics.UptoIsPrefix | src/kanomori/retrieval/merge.py:138 | a cut at k keeps a prefix of k, and a negative k drops that many from the end |
| Sorting.StableSortIsStable | src/kanomori/fusion.py:38-39 | the result is ordered, holds the same elements, and keeps every group of ties in its order |
| Sorting.StableSortIsUnique | src/kanomori/fusion.py:38-39 | stability leaves one possible result, so the choice of algorithm does not matter |
| TimeCosts.MergeTimeCosts | src/kanomori/ingest/job_time_costs.py:4-22 | the list after a merge is the dictionary of the old one with one stage overwritten, once per stage, in pipeline order |
| TimeCosts.MergesAreLastWriteWins | src/kanomori/ingest/job_time_costs.py:4-22 | after any run of merges the list is exactly the last-write-wins map, strictly in pipeline order, unknown stages last by name |
| TimeCosts.ListedInPipelineOrder | src/kanomori/ingest/job_time_costs.py:4-22 | known stages stand in pipeline order, unknown names after all of them and among themselves by name |
| TimeCosts.FirstDifference | src/kanomori/ingest/job_time_costs.py:4-22 | names are compared at their first difference, and a prefix comes first |
| TimeCosts.LatestIsLast | src/kanomori/ingest/job_time_costs.py:4-22 | of several entries of a stage the last one counts, and an element that is no entry counts for nothing |
| TimeCosts.PipelineOrder | src/kanomori/ingest/pipeline.py:59-68 | the eight names in execution order |
| TimeCosts.ListingIsUnique | src/kanomori/ingest/job_time_costs.py:4-22 | a dictionary of costs has one such listing |
| TimeCosts.MergesCommute | src/kanomori/ingest/job_time_costs.py:4-22 | merges of different stages commute as lists |
| Lease.Oldest | src/kanomori/ingest/lease.py:121-176 | a claim takes the lowest id that is eligible and not locked, and none only if there is none |
| Lease.RefusedPushChangesNothing | src/kanomori/api/jobs.py:164-218 | a stale or failed push leaves the whole database as it was; an accepted one carried the current epoch |
| ClaimLaws.ClaimTakesTheOldest | src/kanomori/ingest/lease.py:121-176 | a claim finds nothing exactly when every unlocked row is none of queued, running under a lease that is over, failed with fewer than three attempts; otherwise the least such id, which then runs under the next epoch and a lease from now on, no other row changed |
| ClaimLaws.FailedJobIsRetried | src/kanomori/ingest/lease.py:121-176 | after its holder's accepted fail with an attempt left, a job is handed out under the next epoch to the next idle worker that asks, unless an older one waits, and with its landed stages |
| ClaimLaws.LapsedJobIsReclaimed | src/kanomori/ingest/lease.py:121-176 | so is a job whose lease is over |
| ClaimLaws.JobsKeepTheirRequests | src/kanomori/api/app.py:207-229 | over every run the jobs are numbered in the order they were submitted, each with the request it was sent with |
| ClaimLaws.StaleBeatFences | src/kanomori/ingest/worker.py:260-270 | exactly an answered 409 to a heartbeat marks the run |
| ClaimLaws.FencedRunStops | src/kanomori/ingest/worker.py:343-348 | a marked run computes no further stage and stops at the next one |
| ClaimLaws.RunsEnd | src/kanomori/ingest/worker.py:354-407 | a 409 to a push or to complete ends the run, an error makes it report fail, and after that report it has ended |
| ClaimLaws.LiveRunsBeat | src/kanomori/ingest/worker.py:254-270 | a run beats while it computes or pushes and at no other time |
| ClaimLaws.GiveUpFrees | src/kanomori/ingest/worker.py:398-407 | a worker whose fail report is over is idle again |
| ClaimLaws.PartialFilesStay | src/kanomori/ingest/worker.py:354-356 | what an interrupted compute wrote stays on its worker's disk and no other's |
| PushLaws.PushIsStaleIff | src/kanomori/api/jobs.py:164-218 | 409 exactly for another epoch or for files of a job without identity; an unknown name, a missing job and a result that does not parse are errors |
| PushLaws.NothingLandsWithoutAVideo | src/kanomori/ingest/lease.py:90-115 | without a video, rows are refused unless there are none |
| PushLaws.ResultsAreTyped | src/kanomori/ingest/stage_result.py:1-222 | each stage takes results of its own kind, the one without a model anything |
| PushLaws.AloneIsNeverClaimed | src/kanomori/ingest/stages/register.py:81-98 | a row registered without a job is running without a lease, so no claim takes it |
| PushLaws.AloneUpdatesTheVideoOnly | src/kanomori/ingest/stages/register.py:81-98 | registering known media without a job sets its row's video and nothing else |
| PushLaws.RegisterFailsForOthersOnly | src/kanomori/ingest/stages/register.py:67-80 | registering a job fails exactly when another job has the hash |
| CostLaws.PushStoresItsSeconds | src/kanomori/ingest/lease.py:200-242 | an accepted push adds its stage, and its seconds, rounded to three digits, become that stage's cost; without seconds the costs stay, and no other row changes |
| CostLaws.CostsAreTheLastReports | src/kanomori/ingest/lease.py:200-242 | over every run a job's costs list the last accepted report of each stage and nothing else |
| Coordinator.Coordinator.Enqueue | src/kanomori/api/app.py:207-229 | adds one queued job without identity under a fresh id |
| Coordinator.Coordinator.Claim | src/kanomori/ingest/lease.py:121-176 | in place, exactly the claim transition, and returns the epoch it wrote |
| Coordinator.Coordinator.Heartbeat | src/kanomori/ingest/lease.py:179-197 | in place, exactly the heartbeat transition: fenced on the epoch alone |
| Coordinator.Coordinator.MarkStageDone | src/kanomori/ingest/lease.py:200-242 | in place, marks one stage and merges its cost, or refuses and changes nothing |
| Coordinator.Coordinator.MarkComplete | src/kanomori/ingest/lease.py:245-255 | in place, exactly the complete transition |
| Coordinator.Coordinator.MarkFailed | src/kanomori/ingest/lease.py:258-272 | in place, exactly the fail transition: one more attempt, whatever the status was |
| Coordinator.Coordinator.PersistRegister | src/kanomori/ingest/stages/register.py:54-88 | reconciles the job's own row with its hash and video, or fails on the unique hash of another job |
| Coordinator.Coordinator.RegisterAlone | src/kanomori/ingest/stages/register.py:54-98 | without a job id: one row per hash, made at most once, its video updated otherwise |
| Coordinator.Coordinator.PersistStage | src/kanomori/ingest/lease.py:90-115 | replaces exactly the rows the stage owns, and fails exactly when a constraint is broken |
| Coordinator.Coordinator.PushStage | src/kanomori/api/jobs.py:164-218 | fence, parse, persist and mark as one transaction: the new database is that of the transition, rolled back otherwise |
| Visual.VisualTables.PersistFrames | src/kanomori/ingest/stages/frames.py:145-163 | the video has exactly the pushed frames, none embedded, its OCR rows are gone with the cascade, no other video changes |
| Visual.VisualTables.PersistOcr | src/kanomori/ingest/stages/ocr.py:59-85 | succeeds exactly when every row's timestamp has a frame; then the video's rows are the pushed ones, each on its own frame |
| Visual.VisualTables.PersistEmbeddings | src/kanomori/ingest/stages/image_embed.py:73-90 | embeds the frames that exist, last row wins, and passes over the others |
| Visual.CascadeDeletes | migrations/0002_visual.sql:23-32 | deleting a video's frames takes away exactly that video's OCR rows |
| Worker.RunOneDistributed | src/kanomori/ingest/worker.py:281-408 | whatever the network and the tools do, the loop's events are a finished run of the session automaton, and each is caused by what happened: a stop by the fence at the first undone stage reached, an answer by that call's own, a raise by the fetch, the compute, the push or the complete that raised |
| Worker.OneRunPerEnvironment | src/kanomori/ingest/worker.py:281-408 | what happens to a worker leaves exactly one finished run, so the causes say all that the loop does |
| Worker.SmoothRunCompletes | src/kanomori/ingest/worker.py:339-396 | when nothing is fenced, raises or is refused, exactly the undone stages are pushed in order and the complete is answered |
| Worker.PushesTheUndoneStagesInOrder | src/kanomori/ingest/worker.py:339-396 | every run pushes the stages its claim did not list, in pipeline order, and asks to complete only after all of them |
| Worker.StopsWhenTold | src/kanomori/ingest/worker.py:339-407 | after a 409, a lost lease or a fail report the run sends nothing more, and it reports fail at most once |
| Worker.BeatUntilStopped | src/kanomori/ingest/worker.py:260-270 | beats until stopped; exactly a 409 among the answers ends it early and sets the flag, an exception does not |
| Invariant.StepKeepsInv | src/kanomori/ingest/lease.py:121-272 | every step of the protocol keeps the invariant that ties each current run to its row |
| Invariant.Invariant | src/kanomori/ingest/lease.py:121-272 | so the invariant holds after every run, of any length and interleaving |
| Invariant.AcceptedIsHolder | src/kanomori/ingest/lease.py:179-272 | an accepted request comes from the run of the last claim, and any other leaves the database alone |
| Safety.DoneStagesAreAPrefix | src/kanomori/ingest/worker.py:339-396 | in every reachable state the done stages of a job are a prefix of the pipeline, and a complete job has all eight |
| Safety.OneRunPerEpoch | src/kanomori/ingest/lease.py:121-176 | no two claims ever hand out the same epoch of a job |
| Safety.FenceAdmitsTheHolderOnly | src/kanomori/ingest/lease.py:179-272 | over whole runs, accepted requests come from the one run with the latest epoch; stale ones get 409 and change nothing |
| Safety.EpochsOnlyGrow | src/kanomori/ingest/lease.py:144-149 | an epoch never decreases over any further steps |
| Safety.EpochStep | src/kanomori/ingest/lease.py:140-149 | an epoch moves only by a claim of a new job, of a lapsed lease, or after the holder's own accepted fail |
| Safety.LandedRowsAreFrozen | src/kanomori/ingest/stages/frames.py:145-163 | over every continuation of every run the rows of a stage that has landed stay as they are, the cascading delete of a frames push and pushes for other jobs included, and no stage is undone |
| Completion.CompleteIsFinalIff | src/kanomori/ingest/worker.py:394-403 | a complete job stays complete over all further runs exactly when its last run can no longer report fail |
| Completion.CompleteCanBeUndone | src/kanomori/ingest/worker.py:394-403 | otherwise at most two steps, the raise after a lost reply and its fail report, take the job back to failed |
| CompletionWitness.LostReplyUndoes | src/kanomori/ingest/worker.py:394-403 | every run that goes on to its end can lose the reply to complete, and then its complete job becomes failed |
| CompletionWitness.ACompleteJobFails | src/kanomori/ingest/worker.py:394-403 | a run from the empty system whose one job is complete and then failed |
| CompletionWitness.AnsweredCompleteIsForGood | src/kanomori/ingest/worker.py:394-407 | every run that goes on to its end and hears the answer has completed its job for good |
| CompletionWitness.AnHonestRunCompletes | src/kanomori/ingest/worker.py:281-408 | honest runs complete: one from the empty system does |
| Bounds.AttemptsAndEpochsAreBounded | src/kanomori/ingest/lease.py:258-272 | attempts stay within the limit, a running job has one left, and the epoch is attempts plus reclaims, or one more |
| Bounds.LocalStepsRunOut | src/kanomori/ingest/worker.py:281-408 | every step of a run, heartbeats apart, brings its end nearer |
| Bounds.WorkIsBounded | src/kanomori/ingest/lease.py:53 | the steps ever taken for one job are bounded by its attempts and the lapses of its lease |
| Heartbeat.GapIsEnough | src/kanomori/ingest/worker.py:254-270 | if the gap fits in the lease, no allowed timing lets it lapse |
| Heartbeat.LeaseIsSafeIffGapFits | src/kanomori/ingest/worker.py:254-270 | a lease is safe under every allowed timing exactly when it is as long as the gap |
| Heartbeat.BeatingThreeTimesPerLease | src/kanomori/ingest/worker.py:250-270 | what the default interval tolerates at every lease, leases under three seconds included: the exact delays for one lost call and for two |
| Beats.RunsAreWitnessed | src/kanomori/ingest/worker.py:254-270 | the timeline read off the sends, deliveries and losses of any run's heartbeats shows no renewal that the coordinator has not made |
| Beats.FreshLeaseIsKept | src/kanomori/ingest/lease.py:140-149 | while its lease is fresh and it has not failed, the holder keeps the job over any further steps of anyone |
| Beats.LiveHolderIsNeverDisplaced | src/kanomori/ingest/worker.py:254-270 | when the gap fits in the lease, a live worker whose heartbeat steps are within the timing keeps its epoch whatever every other party does |
| Beats.LeaseIsSafeInTheProtocolIff | src/kanomori/ingest/worker.py:250-270 | for every timing and lease: no step after any list of steps displaces a live holder that beats in time, exactly when the gap fits in the lease |
| Identity.NoTwoJobsShareMedia | src/kanomori/ingest/stages/register.py:67-98 | over any run of enqueues and registrations no two jobs share a content hash or a video |
| Identity.SameHashSameVideo | src/kanomori/ingest/stages/register.py:67-98 | a hash keeps its video for ever, and registering it again returns that video and changes nothing else |
| Identity.JobRowsAreCreatedOnce | src/kanomori/ingest/stages/register.py:81-98 | job rows come only from enqueues and first registrations without a job id; the job id path makes none |
| Pipeline.ComputesExpected | src/kanomori/ingest/pipeline.py:121-147 | a stage whose inputs are in place computes what the uninterrupted run computes and prepares the next stage |
| Pipeline.LandingNext | src/kanomori/ingest/lease.py:90-115 | persisting the next stage takes the rows from the closed form of one prefix to that of the next |
| FullRun.RunFull | src/kanomori/ingest/pipeline.py:121-147 | register and every stage that is not terminal run in order and the others keep their state, from any rows, disk and states; frames is skipped exactly without a plan, a visual stage exactly without frames on the disk |
| FullRun.FullRunIsSequentialIff | src/kanomori/ingest/pipeline.py:121-147 | with the first n stages terminal, run_full ends with the rows of one run exactly when the disk lets it: the transcript's cues, the planned frames, and no text or scene from frames of another plan |
| FullRun.WithoutOtherFrames | src/kanomori/ingest/pipeline.py:121-147 | without frames of another plan a new video ends with those rows exactly when its transcript has a sentence |
| FullRun.FailsOnlyWithoutCues | src/kanomori/ingest/stages/parse_transcript.py:31-40 | on a disk as a run so far leaves it, run_full fails exactly on a transcript without a sentence |
| RunMeaning.FreshRunHasTheRightCues | src/kanomori/ingest/stages/locate_media.py:30-77 | a fresh run that ends well has the cues of KITS with separation if the request asks for it or a title that is not empty is karaoke, and without it otherwise, whatever was on the machine |
| RunMeaning.FreshRunIsRight | src/kanomori/ingest/pipeline.py:121-147 | on a machine without frames of another plan it ends with those cues, an embedding for every planned frame and no other, all that OCR reads frame by frame, and the scenes of the frames in order |
| RunMeaning.CompleteJobIsRight | src/kanomori/ingest/pipeline.py:121-147 | so does every complete job of an honest run, with the stream type chatting when there is no frame |
| Resume.HonestRunsStayHonest | src/kanomori/api/jobs.py:183-217 | whatever crashes or is taken over, runs and rows agree with the uninterrupted run at every moment |
| Resume.LandedRowsAreSequential | src/kanomori/api/jobs.py:183-217 | a job's rows are those of its done stages in one uninterrupted run, and nothing of any other stage |
| Resume.CompleteJobEqualsRunFull | src/kanomori/ingest/pipeline.py:121-147 | a complete job has the rows of the sequential run; the stream type differs exactly without frames and another hint than chatting |
| Uninterrupted.LandsTheSequentialRowsIff | src/kanomori/ingest/worker.py:339-396 | from any claim with n stages done, the run left alone lands all stages with the sequential rows exactly when the disk can continue: the transcript's cues, the planned frames, and no text or scene from frames outside the plan |
| Uninterrupted.ClaimsAreTakenUp | src/kanomori/ingest/lease.py:121-176 | every claim after an honest run, whatever disk its worker has, is one the previous theorem speaks of |
| Uninterrupted.ResumableContinues | src/kanomori/ingest/worker.py:339-396 | the condition that honest takeovers meet suffices, given the files a stage cannot do without |
| Uninterrupted.ScriptIsHonest | src/kanomori/ingest/worker.py:339-396 | a run left alone is honest |
| Uninterrupted.FreshJobsAreResumable | src/kanomori/ingest/worker.py:354-356 | a job with nothing done may be taken by any worker, and any job by one whose disk is as one run leaves it and whose request settles the mode |
| Resume.WhatPartialAllows | src/kanomori/ingest/worker.py:354-356 | an interrupted compute may leave nothing or some of the planned frames, and no other video's files change |
| Continuation.PlannedFramesSuffice | src/kanomori/ingest/artifacts.py:57-69 | without frames outside the plan, the disk must hold exactly the planned ones from ocr on |
| Continuation.TextsLand | src/kanomori/ingest/stages/ocr.py:59-85 | where no planned frame is missing, the texts land and are the sequential ones exactly when frames outside the plan carry none |
| Continuation.EmbeddedFromBare | src/kanomori/ingest/stages/image_embed.py:73-90 | the frame rows end up fully embedded exactly when every planned frame is on the disk |
| Resume.MissingFramesLandEmpty | src/kanomori/ingest/worker.py:189-207 | without frames on its disk a worker lands empty visual stages and the stream type chatting |
| Resume.TranscribeNeedsTheFlag | src/kanomori/ingest/stages/locate_media.py:54-77 | resumed after locate_media, the transcript is the expected one exactly when the request asked for the right mode |
| Fusion.ReciprocalRankFusion | src/kanomori/fusion.py:18-39 | the loops compute the sums and the stable order, and raise exactly for mismatched weights or a rank that makes k + rank zero |
| FusionLaws.FuseMeaning | src/kanomori/fusion.py:33-39 | each listed item appears once, with the sum of its shares, in descending order |
| FusionLaws.GivesShare | src/kanomori/fusion.py:33-36 | a list without repeats gives an item its weight over k + rank, or nothing |
| FusionLaws.FuseOrder | src/kanomori/fusion.py:38-39 | of two items the one seen first is placed above exactly when its sum is no smaller |
| FusionLaws.ScoreIsConserved | src/kanomori/fusion.py:33-36 | the fused scores add up to the shares of all positions of all lists |
| FusionLaws.DominanceIsRespected | src/kanomori/fusion.py:33-39 | an item ranked better in every list that has another one is placed above it |
| FusionLaws.AgreementFirstIff | src/kanomori/fusion.py:33-39 | items that two lists share come before all others for every input exactly when lists have at most k items |
| FusionLaws.HeadIsAboveLast | src/kanomori/fusion.py:33-39 | at k + 1 items the head of one list is placed above an item both lists share |
| Transcript.Search | src/kanomori/retrieval/transcript.py:64-89 | the dictionary and the re-ranking loop give the specified fused, deduplicated answer |
| Transcript.SearchIsRanked | src/kanomori/retrieval/transcript.py:80-89 | ranks are 0 to n-1, best first, over distinct segments |
| Transcript.EverySegmentIsAnswered | src/kanomori/retrieval/transcript.py:73-89 | no segment that either search found is lost |
| Transcript.AnswerScore | src/kanomori/retrieval/transcript.py:64-89 | an answer's score is 1 / (60 + rank) for each of the two lists it is in |
| Transcript.EveryAnswerIsARow | src/kanomori/retrieval/transcript.py:73-89 | every answer carries the video and time of the first row with its segment |
| Transcript.AgreementLeads | src/kanomori/retrieval/transcript.py:64-89 | with up to sixty rows a search, what both found precedes what one found |
| Screenshot.Search | src/kanomori/retrieval/screenshot.py:128-155 | the dictionary and the loop give the specified answer, cut like a Python slice |
| Screenshot.SearchIsDeduplicated | src/kanomori/retrieval/screenshot.py:144-155 | at most k candidates, ranks from zero, best first, over distinct keys |
| Screenshot.CutKeepsTheBest | src/kanomori/retrieval/screenshot.py:155 | a candidate that was cut has a score no higher than any that was kept |
| Screenshot.TextStandsAlone | src/kanomori/retrieval/screenshot.py:124-125 | a frame and an OCR row with the same id are never fused: text scores on its own |
| Screenshot.EveryAnswerIsARow | src/kanomori/retrieval/screenshot.py:128-155 | every answer is the first row with its key, under a new rank and score |
| Screenshot.AnswerScore | src/kanomori/retrieval/screenshot.py:144-155 | its score is 1 / (60 + rank) for each of the three lists it is in |
| Screenshot.AgreementLeads | src/kanomori/retrieval/screenshot.py:144-155 | a frame that both visual queries found precedes everything that one query found |
| Merge.MergeCandidates | src/kanomori/retrieval/merge.py:99-138 | the loops compute the grouped, scored, stably sorted and cut moments; a zero width raises when there is a candidate |
| MergeLaws.MergeIsGroupBy | src/kanomori/retrieval/merge.py:106-138 | one hit per bucket, each explained by its bucket, in stable score order |
| MergeLaws.HitIsExplained | src/kanomori/retrieval/merge.py:112-136 | a hit's score sums the largest contribution of each modality, its time is that of the first best candidate, its scene the anchor's |
| MergeLaws.WhyIsWeightOverLeastRank | src/kanomori/retrieval/merge.py:117-124 | each modality counts with the scene's weight over 60 + the least rank it has in the bucket |
| MergeLaws.BetterRankScoresHigher | src/kanomori/retrieval/merge.py:117-136 | of two buckets with one candidate each and one weight the smaller rank scores higher |
| MergeLaws.ScoresAdd | src/kanomori/retrieval/merge.py:126-136 | the score is the sum over the modalities, each once |
| MergeLaws.SceneWeights | src/kanomori/retrieval/merge.py:12-70 | the weights of each scene, and the default for any other and for none |
| MergeLaws.ExplanationIsUnique | src/kanomori/retrieval/merge.py:112-136 | a bucket admits one such hit |
| MergeLaws.CutKeepsTheBest | src/kanomori/retrieval/merge.py:138 | no dropped bucket outscores a kept one |
| MergeLaws.MergedAreClose | src/kanomori/retrieval/merge.py:73-74 | merged candidates are of one video and at most one bucket width apart, also for a negative width |
| MergeLaws.FullWidthIsReached | src/kanomori/retrieval/merge.py:73-74 | the bound is reached for every width: both ends of every even bucket are in it, a full width apart |
| MergeLaws.MoreEvidenceNeverHurts | src/kanomori/retrieval/merge.py:106-130 | one more candidate never lowers its bucket's score and leaves all other buckets alone |
| AudioQuery.BuildWindows | src/kanomori/retrieval/audio_query.py:46-60 | the loops compute the single, pair and full-text windows of the segments that are kept |
| AudioQuery.WindowsAreBounded | src/kanomori/retrieval/audio_query.py:46-60 | n kept segments give more than n and at most 2n windows, 2n exactly when none was dropped between them |
| AudioQuery.WindowsSay | src/kanomori/retrieval/audio_query.py:46-60 | one window for each kept segment with its text and times, then those of neighbours, then one for everything |
| AudioQuery.PairsSay | src/kanomori/retrieval/audio_query.py:46-60 | the pair windows are exactly those of neighbours with none dropped between: both texts with a blank between, from the start of one to the end of the other |
| AudioQuery.CleanKeeps | src/kanomori/retrieval/audio_query.py:63-80 | the kept segments are exactly those with something left that is not, punctuation apart, one of nine fillers, each with its place, text and times |
| AudioQuery.StripsPunct | src/kanomori/retrieval/audio_query.py:77-78 | stripping takes punctuation from both ends, and all of it |
| Audio.BucketState.Count | src/kanomori/retrieval/audio.py:58-64 | one more candidate keeps the state equal to the tally of its bucket's ballots, updated in place |
| Audio.BucketState.AddVote | src/kanomori/retrieval/audio.py:70-89 | a vote adds its window, its contribution and its evidence, and moves no time |
| Audio.Gather | src/kanomori/retrieval/audio.py:49-64 | after both loops every bucket's object tallies exactly the ballots of its bucket |
| Audio.AggregateCoverage | src/kanomori/retrieval/audio.py:42-67 | the hits are those of the buckets voted in, by coverage and quality, cut like a Python slice |
| AudioLaws.VotesAreFirst | src/kanomori/retrieval/audio.py:51-61 | the ballots that count are the first of each window, one per window |
| AudioLaws.SearchRanksAscend | src/kanomori/retrieval/transcript.py:80-89 | a transcript search answers with strictly ascending ranks |
| AudioLaws.CoverageCountsWindows | src/kanomori/retrieval/audio.py:42-108 | coverage is the number of evidence rows and of distinct windows that found the moment |
| AudioSearch.AudioCandidates | src/kanomori/retrieval/audio.py:25-39 | the loops answer a clip with the vote over one hybrid transcript search for each of its windows |
| AudioSearch.EveryHitIsCounted | src/kanomori/retrieval/audio.py:25-108 | for every clip, whatever the searches return: coverage is the number of windows that found the moment and of its evidence rows, at most twice the kept segments, and quality sums the best share of each window |
| AudioSearch.EveryHitTells | src/kanomori/retrieval/audio.py:70-108 | a moment has the scene of its video and time, its quality is the sum of its evidence scores, and each evidence row tells of a ballot with its text, row, time and 1 / (60 + rank) |
| AudioSearch.MomentsAreClose | src/kanomori/retrieval/audio.py:55-58 | all that votes for one moment is of one video and at most eight seconds apart |
| AudioSearch.WhatIsAsked | src/kanomori/retrieval/audio.py:33-38 | each kept segment is searched for by its normalized text, and the last search is for all of them |
| AudioSearch.AllTextAppends | src/kanomori/retrieval/audio.py:33 | the clip's text is that of all its segments, blanks between them |
| AudioLaws.EveryRowVotes | src/kanomori/retrieval/audio.py:49-61 | exactly the transcript rows with a segment vote |
| AudioLaws.AnswerIsBestFirst | src/kanomori/retrieval/audio.py:65-67 | of two moments in the answer the first covers more windows, or as many with no smaller quality |
| AudioLaws.CutKeepsTheBest | src/kanomori/retrieval/audio.py:65-67 | no moment cut at k covers more than a kept one, or as much with more quality |
| AudioLaws.MomentIsTheBestBallot | src/kanomori/retrieval/audio.py:62-64 | the moment is shown at the first of its best-ranked candidates |
| AudioLaws.MomentsAreRanked | src/kanomori/retrieval/audio.py:65-67 | one hit per bucket voted in, by coverage, then quality, then first appearance |
| Frames.PlanSampleTimestamps | src/kanomori/ingest/stages/frames.py:20-43 | the loops compute the planned samples: grid and scene starts, rounded, sorted, thinned, and none without a positive duration whatever the interval |
| Frames.PlanThinsSamples | src/kanomori/ingest/stages/frames.py:34-43 | only samples are kept, more than 0.25 s apart, and every sample has a kept one at most 0.25 s before it |
| Frames.SceneStartsAreSampled | src/kanomori/ingest/stages/frames.py:20-43 | every scene that starts in the video is sampled at most 0.25 s before its start |
| Frames.OnlyGridAndScenes | src/kanomori/ingest/stages/frames.py:20-43 | nothing is sampled but multiples of the interval and scene starts, inside the video |
| Frames.DefaultGridIsExact | src/kanomori/ingest/stages/frames.py:12-43 | without scene starts the default samples are exactly the multiples of eight seconds in the video |
| Frames.SamplingNeverPauses | src/kanomori/ingest/stages/frames.py:20-43 | for every positive interval sampling starts at zero, never pauses longer than interval, tolerance and a millisecond, and ends no further than that from the end |
| Frames.DefaultSampling | src/kanomori/ingest/stages/frames.py:12-43 | at the default 8 s neighbours are at most 8.25 s apart, and so is the last one from the end |
| Artifacts.NamesRoundTrip | src/kanomori/ingest/artifacts.py:36-54 | every millisecond count reads back from its frame name, also when its seconds exceed six digits |
| Artifacts.NamesHaveOneShape | src/kanomori/ingest/artifacts.py:36-40 | below a million seconds: frame_, six digits, an underscore, three digits, .jpg |
| Artifacts.WhatNamesMean | src/kanomori/ingest/artifacts.py:43-54 | two runs of digits are seconds and milliseconds, and any other name with the prefix and suffix raises |
| Artifacts.GlobTakes | src/kanomori/ingest/artifacts.py:57-69 | the listing takes exactly the names frame_*.jpg |
| Artifacts.OwnNamesHold | src/kanomori/ingest/artifacts.py:57-69 | a directory with this run's frames alone is one whose listing gives the plan back |
| Artifacts.NamesAreDistinct | src/kanomori/ingest/artifacts.py:36-40 | different milliseconds have different names |
| Artifacts.NameOfMillisecond | src/kanomori/ingest/artifacts.py:36-40 | a timestamp of whole milliseconds names the frame of that millisecond, a negative one frame zero |
| Artifacts.FramesOnDisk | src/kanomori/ingest/artifacts.py:57-69 | the loop lists the parsed frame files by time, and raises when a matching name does not parse |
| Artifacts.FramesComeBackAsPlanned | src/kanomori/ingest/artifacts.py:57-69 | whatever order the directory is listed in, this run's frames come back as exactly the plan, in order |
| Artifacts.ListedRowsFindTheirFrames | src/kanomori/ingest/stages/ocr.py:62-80 | rows keyed by a listed frame always find their frame, so OCR never fails and no embedding is dropped |
| Artifacts.PipelineSeesThePlan | src/kanomori/ingest/stages/frames.py:137-142 | the planner's list, the directory listing and the pipeline's set of frames are one and the same order |
| Scenes.BuildSceneSegments | src/kanomori/ingest/stages/classify.py:67-97 | the loop emits one span for each maximal run of equal labels |
| Scenes.SpansTile | src/kanomori/ingest/stages/classify.py:67-97 | the spans tile the video from the first frame to one tail past the last, and neighbours differ |
| Scenes.TailIsLeastGap | src/kanomori/ingest/stages/classify.py:60-64 | the tail is the least positive gap between neighbouring frames, or eight seconds when there is none |
| Scenes.SpanAverages | src/kanomori/ingest/stages/classify.py:80-86 | a span carries the scene of each frame in it, and their exact average confidence |
| Scenes.ConfidenceIsBetween | src/kanomori/ingest/stages/classify.py:80-86 | a span is no less confident than the least of its frames and no more than the most |
| Scenes.SpansPartitionLabels | src/kanomori/ingest/stages/classify.py:88-97 | every frame is in exactly one span |
| Scenes.ConfidenceIsConserved | src/kanomori/ingest/stages/classify.py:80-97 | weighted by their frames, the spans carry the frames' total confidence |
| Scenes.SpansIndexTheFrames | src/kanomori/retrieval/merge.py:83-96 | reading the spans at t gives the scene of the latest frame at or before t, and nothing outside the range; no other answer is possible |
| Scenes.TheMoreConfidentAnswers | src/kanomori/retrieval/merge.py:83-96 | where spans overlap the more confident one answers, and of equals the one that starts later |
| Manifest.ReadLines | src/kanomori/source_organizer.py:155-167 | the loop returns the objects of the lines that are not blank, and raises exactly for a malformed one |
| Manifest.TenCharactersBreakLines | src/kanomori/source_organizer.py:155-167 | exactly ten characters split two lines, a carriage return with a line feed once |
| Manifest.ReadsInOrder | src/kanomori/source_organizer.py:155-167 | lines are read in order, and one that is malformed spoils all |
| Manifest.OneLineReads | src/kanomori/source_organizer.py:155-167 | a blank line and a value that is no object say nothing, an object is its record, anything else raises |
| Manifest.ManifestRoundTrip | src/kanomori/source_organizer.py:170-172 | a manifest reads back as the records written exactly when no encoded record has a line break, and raises otherwise |
| ManifestWitness.ALineSeparatorMakesTheManifestUnreadable | src/kanomori/source_organizer.py:155-172 | an encoding with every promise asked of JSON and a record with U+2028 whose manifest reads as an error |
| SafeNames.CleaningIsProjection | src/kanomori/source_organizer.py:175-178 | a directory name is never empty, has no reserved character, no blank or dot at either end and single blanks only, and cleaning leaves exactly such names as they are |
| SafeNames.CleaningKeepsLetters | src/kanomori/source_organizer.py:175-178 | the title's characters other than reserved ones, white space and dots are kept, in order; a title without any becomes untitled |
| SafeNames.NoReservedCharacter | src/kanomori/source_organizer.py:175-178 | the nine characters and the control characters that no name has |
| Organizer.Summary.PlanEntry | src/kanomori/source_organizer.py:110-136 | one entry is decided as specified, in place, against the store and the paths taken so far |
| Organizer.Store.Move | src/kanomori/source_webdav.py:74-79 | a move overwrites its target, and a missing source is an error that changes nothing |
| Organizer.ApplyPlan | src/kanomori/source_organizer.py:139-152 | the store is that of the requests sent so far, all of them unless one was refused |
| Organizer.RunOrganizer | src/kanomori/source_organizer.py:74-88 | a malformed manifest, a dry run and an empty plan change no file; otherwise exactly the plan's requests are sent |
| OrganizerLaws.EveryEntryIsDecidedOnce | src/kanomori/source_organizer.py:83-84 | every root entry is planned or skipped, exactly once |
| OrganizerLaws.PlannedIff | src/kanomori/source_organizer.py:110-136 | an entry is planned exactly when it is a video whose target no manifest line, no path of the store and no earlier plan has; otherwise it is skipped for the first reason that holds |
| OrganizerLaws.VideoSuffix | src/kanomori/source_organizer.py:110-136 | a video has one of six suffixes in either case |
| OrganizerLaws.PlannedLayout | src/kanomori/source_organizer.py:91-96 | the directory is the clean title with the date if there is one, the file is video with the suffix, the record names it and keeps the fields |
| OrganizerLaws.DirectoriesHaveNoSlash | src/kanomori/source_organizer.py:139-152 | the directory made for a video is known under its name without the slash |
| OrganizerLaws.PlanIsNew | src/kanomori/source_organizer.py:110-136 | planned items are root videos; their targets are distinct, unused in the store and in the manifest; the records grow by theirs, in order |
| OrganizerLaws.NothingIsLostIff | src/kanomori/source_organizer.py:139-152 | at every point of the requests each video is in exactly one place with its bytes, the manifest is old or completely new and nothing else changed, exactly when the manifest, its temporary and its backup spare the planned paths |
| OrganizerLaws.RootManifestIsClear | src/kanomori/source_organizer.py:147-152 | a manifest in the root without a video extension, its temporary and its backup never meet a video |
| OrganizerLaws.OrganizingLosesNothingIff | src/kanomori/source_organizer.py:74-88 | the same of listing, planning and sending any number of requests, for every manifest path |
| OrganizerLaws.RootManifestLosesNothing | src/kanomori/source_organizer.py:74-88 | with a manifest in the root without a video extension no request is refused and no video is lost |
| OrganizerLaws.NewManifestListsEverything | src/kanomori/source_organizer.py:155-172 | the new manifest reads back as the old records and one for each moved video |
| OrganizerLaws.TargetAsManifestLosesTheVideo | src/kanomori/source_organizer.py:150-152 | a manifest path equal to a planned target ends with the manifest in the video's place |
| OrganizerLaws.SourceAsManifestIsMovedAway | src/kanomori/source_organizer.py:139-152 | a manifest path equal to a planned source: the manifest is moved away with it and gone until the new one is written |

## Left out

- HTTP, routing, tokens, multipart bodies: a call is accepted, stale (409), an error, or its reply is lost.
- PostgreSQL, pgvector and text search: a query is an arbitrary ranked list, a transaction is one atomic step, and the rows that `SKIP LOCKED` passes over are an arbitrary set.
- ffmpeg, KITS, OCR, SigLIP, DINOv2 and BGE, and the list of karaoke words: deterministic functions, gathered in `Engine`.
- Floating point: scores, confidences and times are exact reals, or whole milliseconds where the code rounds to three digits.
- The single-machine claim loop (`claim_one`): it neither bumps the epoch nor sets a lease; its `run_full` is modelled on one video and job row.
- Two worker processes that share one media root: each worker has a disk of its own and serves one claim at a time.
- Artifact bytes and `frame_path` columns: the model keeps which frames, transcript and audio a disk holds, not their contents.
- Resume.CompleteJobEqualsRunFull: assumes deterministic tools, no two sources with one hash, and takeovers only by workers whose disk can continue the job.
- FullRun.FullRunIsSequentialIff: the terminal stages are the first n, and the rows found are those that they leave in one run.
- Beats.LeaseIsSafeInTheProtocolIff: the coordinator's clock and the worker's are one clock.
- Uninterrupted.LandsTheSequentialRowsIff: heartbeats of the run and steps of other runs are left out between its own steps, and the measured seconds are arbitrary.
- Frames.PlanSampleTimestamps: a positive duration requires a positive interval, because the loop does not end otherwise.
- Artifacts.FramesOnDisk: `int()` of signed, spaced or non-ASCII digits in a file name is a parse error here.
- AudioQuery.BuildWindows: `str.strip()` and Unicode normalization are parameters.
- Organizer.RunOrganizer: the inference of a name's metadata, white space and the time stamp are parameters; a lower-cased suffix changes ASCII letters only.
- Organizer.Store.Move: files are a flat map, so a server that refuses a move for a missing or odd parent directory is a run that stops there.
- A second organizer run after a crash: moved directories are skipped, so the manifest does not catch up by itself.
- JSON text itself: an encoding that decodes to its record and of which no proper prefix is a JSON text.
- Scene profile numbers beyond their use as non-negative weights, evaluation averages, UI templates, logging, caches, source download, batch enqueue, vector codec and migrations: they would add only easy members.
