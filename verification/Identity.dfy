/** Job and video identity over any run of enqueues and registrations, by job id (distributed) or by
    content hash (single machine); src/kanomori/ingest/stages/register.py. */
module Identity {
  import opened Basics
  import opened Rows
  import opened Lease

  datatype Op =
    | Submit(request: Request)
    | ByJob(j: JobId, hash: Hash, hint: Option<string>)
    | ByHash(request: Request, hash: Hash, hint: Option<string>)

  /** A registration that breaks UNIQUE (content_hash) or names no job rolls back. */
  function Do(db: Db, op: Op): Db {
    match op
    case Submit(request) => Enqueue(db, request)
    case ByJob(j, hash, hint) =>
      if j !in db.jobs then db
      else (match Registered(db, j, hash, hint) case None => db case Some(after) => after)
    case ByHash(request, hash, hint) => RegisteredAlone(db, request, hash, hint)
  }

  function DoAll(ops: seq<Op>): Db {
    if ops == [] then EMPTY else Do(DoAll(ops[..|ops| - 1]), ops[|ops| - 1])
  }

  ghost predicate Linked(db: Db, j: JobId)
    requires j in db.jobs
  {
    var job := db.jobs[j];
    && j < db.nextJob
    && (job.hash.Some? <==> job.video.Some?)
    && (job.hash.Some? ==> job.hash.value in db.videos && db.videos[job.hash.value] == job.video.value)
  }

  ghost predicate Consistent(db: Db) {
    && (forall j | j in db.jobs :: Linked(db, j))
    && (forall j, k | j in db.jobs && k in db.jobs && db.jobs[j].hash.Some? && db.jobs[j].hash == db.jobs[k].hash ::
          j == k)
    && (forall g, h | g in db.videos && h in db.videos && db.videos[g] == db.videos[h] :: g == h)
    && (forall h | h in db.videos :: db.videos[h] < db.nextVideo)
  }

  ghost predicate VideosKept(db: Db, after: Db) {
    forall h | h in db.videos :: h in after.videos && after.videos[h] == db.videos[h]
  }

  lemma FreshId(db: Db)
    requires Consistent(db)
    ensures db.nextJob !in db.jobs
  {
    assert forall j | j in db.jobs :: Linked(db, j);
  }

  lemma VideoForKeeps(db: Db, hash: Hash, hint: Option<string>)
    requires Consistent(db)
    ensures var (with, v) := VideoFor(db, hash, hint);
      && Consistent(with) && VideosKept(db, with) && with.jobs == db.jobs && with.nextJob == db.nextJob
      && hash in with.videos && with.videos[hash] == v
  {
    var with := VideoFor(db, hash, hint).0;
    forall j | j in with.jobs ensures Linked(with, j) { assert Linked(db, j); }
  }

  lemma ByJobKeeps(db: Db, op: Op)
    requires Consistent(db) && op.ByJob?
    ensures Consistent(Do(db, op)) && VideosKept(db, Do(db, op)) && Do(db, op).jobs.Keys == db.jobs.Keys
  {
    if op.j in db.jobs && !HashTaken(db, op.j, op.hash) {
      VideoForKeeps(db, op.hash, op.hint);
      var after := Do(db, op);
      assert forall k | k in db.jobs && k != op.j :: db.jobs[k].hash != Some(op.hash);
      forall j | j in after.jobs ensures Linked(after, j) { assert Linked(db, j); }
    }
  }

  lemma ByHashKeeps(db: Db, op: Op)
    requires Consistent(db) && op.ByHash?
    ensures Consistent(Do(db, op)) && VideosKept(db, Do(db, op))
    ensures Do(db, op).jobs.Keys == db.jobs.Keys + if HasHash(db, op.hash) then {} else {db.nextJob}
  {
    var after := Do(db, op);
    VideoForKeeps(db, op.hash, op.hint);
    FreshId(db);
    if !HasHash(db, op.hash) { assert forall k | k in db.jobs :: db.jobs[k].hash != Some(op.hash); }
    forall j | j in after.jobs ensures Linked(after, j) {
      if j in db.jobs { assert Linked(db, j); }
    }
  }

  lemma SubmitKeeps(db: Db, op: Op)
    requires Consistent(db) && op.Submit?
    ensures Consistent(Do(db, op)) && VideosKept(db, Do(db, op))
    ensures Do(db, op).jobs.Keys == db.jobs.Keys + {db.nextJob}
  {
    var after := Do(db, op);
    FreshId(db);
    forall j | j in after.jobs ensures Linked(after, j) {
      if j in db.jobs { assert Linked(db, j); }
    }
  }

  lemma DoKeepsConsistent(db: Db, op: Op)
    requires Consistent(db)
    ensures Consistent(Do(db, op)) && VideosKept(db, Do(db, op))
    ensures Do(db, op).jobs.Keys == db.jobs.Keys + if Creates(db, op) then {db.nextJob} else {}
  {
    match op
    case Submit(_) => SubmitKeeps(db, op);
    case ByJob(_, _, _) => ByJobKeeps(db, op);
    case ByHash(_, _, _) => ByHashKeeps(db, op);
  }

  lemma {:induction false} RunsAreConsistent(ops: seq<Op>)
    ensures Consistent(DoAll(ops))
  {
    if ops != [] {
      RunsAreConsistent(ops[..|ops| - 1]);
      DoKeepsConsistent(DoAll(ops[..|ops| - 1]), ops[|ops| - 1]);
    }
  }

  /** No two jobs ever share a content hash or a video. */
  lemma NoTwoJobsShareMedia(ops: seq<Op>, j: JobId, k: JobId)
    requires j in DoAll(ops).jobs && k in DoAll(ops).jobs && j != k
    ensures var a, b := DoAll(ops).jobs[j], DoAll(ops).jobs[k];
      && (a.hash.Some? ==> a.hash != b.hash)
      && (a.video.Some? ==> a.video != b.video)
  {
    RunsAreConsistent(ops);
    assert Linked(DoAll(ops), j) && Linked(DoAll(ops), k);
  }

  /** Once a hash has a video it has that video for ever, and registering it again returns it. */
  lemma {:induction false} SameHashSameVideo(ops: seq<Op>, more: seq<Op>, hash: Hash, hint: Option<string>)
    requires hash in DoAll(ops).videos
    ensures hash in DoAll(ops + more).videos
    ensures DoAll(ops + more).videos[hash] == DoAll(ops).videos[hash]
    ensures VideoFor(DoAll(ops + more), hash, hint) == (DoAll(ops + more), DoAll(ops).videos[hash])
    decreases |more|
  {
    if more == [] {
      assert ops + more == ops;
    } else {
      hide Do, Consistent;
      var n := |more| - 1;
      SameHashSameVideo(ops, more[..n], hash, hint);
      assert (ops + more)[..|ops + more| - 1] == ops + more[..n];
      RunsAreConsistent(ops + more[..n]);
      DoKeepsConsistent(DoAll(ops + more[..n]), more[n]);
    }
  }

  /** A job row is made by an enqueue and by the first registration of a hash without a job id. */
  predicate Creates(db: Db, op: Op) {
    op.Submit? || (op.ByHash? && !HasHash(db, op.hash))
  }

  function Created(ops: seq<Op>): nat {
    if ops == [] then 0
    else Created(ops[..|ops| - 1]) + (if Creates(DoAll(ops[..|ops| - 1]), ops[|ops| - 1]) then 1 else 0)
  }

  /** No other row is ever made: registering by job id reconciles the row the job already has. */
  lemma {:induction false} JobRowsAreCreatedOnce(ops: seq<Op>)
    ensures |DoAll(ops).jobs| == Created(ops)
    ensures ops != [] && ops[|ops| - 1].ByJob? ==> DoAll(ops).jobs.Keys == DoAll(ops[..|ops| - 1]).jobs.Keys
  {
    if ops != [] {
      var n := |ops| - 1;
      var db, after := DoAll(ops[..n]), DoAll(ops);
      JobRowsAreCreatedOnce(ops[..n]);
      RunsAreConsistent(ops[..n]);
      DoKeepsConsistent(db, ops[n]);
      FreshId(db);
      assert |after.jobs| == |after.jobs.Keys| && |db.jobs| == |db.jobs.Keys|;
    }
  }
}
