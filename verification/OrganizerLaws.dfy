/** No file is lost and no manifest is half written, wherever a run of the organizer stops. */
module OrganizerLaws {
  import opened Basics
  import opened Manifest
  import opened Organizer

  function EntryNames(entries: seq<Entry>): seq<string> {
    seq(|entries|, i requires 0 <= i < |entries| => entries[i].name)
  }

  function Sources(planned: seq<Planned>): seq<string> {
    seq(|planned|, i requires 0 <= i < |planned| => planned[i].source)
  }

  function SkippedNames(skipped: seq<Skipped>): seq<string> {
    seq(|skipped|, i requires 0 <= i < |skipped| => skipped[i].name)
  }

  function Records(planned: seq<Planned>): seq<Record> {
    seq(|planned|, i requires 0 <= i < |planned| => planned[i].record)
  }

  /** Every root entry is planned or skipped, and only once. */
  lemma {:induction false} EveryEntryIsDecidedOnce(w: World, taken: set<string>, start: seq<Record>, entries: seq<Entry>)
    ensures var plan := DecideAll(w, taken, Start(start), entries);
      multiset(EntryNames(entries)) == multiset(Sources(plan.planned)) + multiset(SkippedNames(plan.skipped))
  {
    hide Decide;
    if entries != [] {
      var (rest, last) := (entries[..|entries| - 1], entries[|entries| - 1]);
      EveryEntryIsDecidedOnce(w, taken, start, rest);
      var before := DecideAll(w, taken, Start(start), rest);
      assert EntryNames(entries) == EntryNames(rest) + [last.name];
      DecisionAddsOne(w, taken, before, last);
    }
  }

  lemma DecisionAddsOne(w: World, taken: set<string>, before: Plan, last: Entry)
    ensures var plan := Decide(w, taken, before, last);
      multiset(Sources(plan.planned)) + multiset(SkippedNames(plan.skipped))
      == multiset(Sources(before.planned)) + multiset(SkippedNames(before.skipped)) + multiset{last.name}
  {
    hide TargetPath, Extension, TargetDirectory;
    var plan := Decide(w, taken, before, last);
    if plan.planned == before.planned {
      assert SkippedNames(plan.skipped) == SkippedNames(before.skipped) + [last.name];
    } else {
      assert Sources(plan.planned) == Sources(before.planned) + [last.name];
    }
  }

  /** Planned items are videos of the root; their targets are distinct, on no path in use and in no manifest line. */
  ghost predicate IsNew(w: World, taken: set<string>, start: seq<Record>, entries: seq<Entry>, plan: Plan) {
    && (forall i | 0 <= i < |plan.planned| ::
          && plan.planned[i] == PlanOf(w, plan.planned[i].source)
          && Entry(plan.planned[i].source, false) in entries
          && Extension(plan.planned[i].source) in VIDEO_EXTENSIONS
          && plan.planned[i].target !in taken && plan.planned[i].target !in PathsOf(start)
          && plan.planned[i].target in plan.paths)
    && (forall i, j | 0 <= i < j < |plan.planned| :: plan.planned[i].target != plan.planned[j].target)
    && PathsOf(start) <= plan.paths
    && plan.records == start + Records(plan.planned)
  }

  lemma {:induction false} PlanIsNew(w: World, taken: set<string>, start: seq<Record>, entries: seq<Entry>)
    ensures IsNew(w, taken, start, entries, DecideAll(w, taken, Start(start), entries))
  {
    if entries == [] {
      assert start + [] == start;
    } else {
      hide IsNew, Decide;
      var (rest, last) := (entries[..|entries| - 1], entries[|entries| - 1]);
      PlanIsNew(w, taken, start, rest);
      DecisionIsNew(w, taken, start, rest, DecideAll(w, taken, Start(start), rest), last);
      assert rest + [last] == entries;
    }
  }

  lemma DecisionIsNew(
    w: World, taken: set<string>, start: seq<Record>, rest: seq<Entry>, before: Plan, last: Entry)
    requires IsNew(w, taken, start, rest, before)
    ensures IsNew(w, taken, start, rest + [last], Decide(w, taken, before, last))
  {
    hide TargetPath, Extension, TargetDirectory;
    var plan := Decide(w, taken, before, last);
    if plan.planned != before.planned {
      assert last == Entry(last.name, false);
      assert Records(plan.planned) == Records(before.planned) + [RecordFor(w, last.name)];
      assert start + Records(plan.planned) == start + Records(before.planned) + [RecordFor(w, last.name)];
    }
  }

  /** The manifest's paths and the targets planned so far. */
  lemma {:induction false} PathsSoFar(w: World, taken: set<string>, start: seq<Record>, entries: seq<Entry>)
    ensures var plan := DecideAll(w, taken, Start(start), entries);
      forall path :: path in plan.paths <==>
        || (path != "" && exists r | r in start :: r.path == Some(path))
        || exists i :: 0 <= i < |plan.planned| && plan.planned[i].target == path
  {
    hide TargetPath, Extension, TargetDirectory;
    if entries != [] {
      var (rest, last) := (entries[..|entries| - 1], entries[|entries| - 1]);
      PathsSoFar(w, taken, start, rest);
      var (before, plan) := (DecideAll(w, taken, Start(start), rest), DecideAll(w, taken, Start(start), entries));
      if plan.planned != before.planned {
        assert plan.planned[..|before.planned|] == before.planned;
        assert plan.planned[|before.planned|].target == TargetPath(w, last.name);
      }
    }
  }

  /** A name with one of six video suffixes, in upper or lower case: its last dot is not its first character. */
  predicate IsVideoName(name: string) {
    exists i | 0 < i < |name| :: Lower(name[i..]) in SUFFIXES
  }

  const SUFFIXES := [".mp4", ".mkv", ".mov", ".m4v", ".webm", ".flv"]

  lemma SixSuffixes(ext: string)
    ensures ext in SUFFIXES <==> ext in VIDEO_EXTENSIONS
    ensures ext in SUFFIXES ==> |ext| > 1 && ext[0] == '.' && forall k | 0 < k < |ext| :: ext[k] != '.'
  {
  }

  lemma VideoSuffix(name: string)
    ensures IsVideoName(name) <==> Extension(name) in VIDEO_EXTENSIONS
  {
    hide Lower;
    var dot := LastDot(name);
    SixSuffixes(Extension(name));
    if Extension(name) in VIDEO_EXTENSIONS { assert Lower(name[dot..]) in SUFFIXES; }
    if i :| 0 < i < |name| && Lower(name[i..]) in SUFFIXES { SuffixAtLastDot(name, i); }
  }

  lemma SuffixAtLastDot(name: string, i: nat)
    requires 0 < i < |name| && Lower(name[i..]) in SUFFIXES
    ensures LastDot(name) == i && Extension(name) == Lower(name[i..]) && Extension(name) in VIDEO_EXTENSIONS
  {
    hide Lower, SUFFIXES, VIDEO_EXTENSIONS;
    var low := Lower(name[i..]);
    SixSuffixes(low);
    assert low[0] == '.' && name[i..][0] == name[i] == '.';
    forall j | i < j < |name| ensures name[j] != '.' { assert name[i..][j - i] == name[j] && low[j - i] != '.'; }
  }

  /** Entry i of the root is planned exactly when it is a video whose target no manifest line, no path of the store and
      no earlier plan has; otherwise it is skipped, for the first reason that holds. */
  lemma PlannedIff(w: World, taken: set<string>, start: seq<Record>, entries: seq<Entry>, i: nat)
    requires i < |entries|
    ensures var (before, after) := (DecideAll(w, taken, Start(start), entries[..i]), DecideAll(w, taken, Start(start), entries[..i + 1]));
      var (entry, target) := (entries[i], TargetPath(w, entries[i].name));
      var listed := || (target != "" && exists r | r in start :: r.path == Some(target))
                    || exists k :: 0 <= k < |before.planned| && before.planned[k].target == target;
      if !entry.isCollection && IsVideoName(entry.name) && !listed && target !in taken
      then after.planned == before.planned + [PlanOf(w, entry.name)] && after.skipped == before.skipped
      else after.planned == before.planned && after.skipped == before.skipped + [Skipped(entry.name,
        if entry.isCollection then AlreadyDirectory
        else if !IsVideoName(entry.name) then NotAVideo
        else if listed then InManifest
        else TargetExists)]
  {
    hide TargetPath, Extension, IsVideoName;
    assert entries[..i + 1][..i] == entries[..i];
    PathsSoFar(w, taken, start, entries[..i]);
    VideoSuffix(entries[i].name);
  }

  /** Where a video goes: into a directory of its clean title, and the date if there is one, as video with the suffix
      in lower case; the record names that path and keeps the fields. */
  lemma PlannedLayout(w: World, name: string)
    ensures var (p, m) := (PlanOf(w, name), w.infer(name));
      var dated := m.streamedAt.Some? && m.streamedAt.value != "";
      && p.source == name
      && p.targetDir == SafeComponent(w, m.title) + (if dated then "_" + m.streamedAt.value else "") + "/"
      && p.target == p.targetDir + "video" + Extension(name)
      && p.record == Record(Some(p.target), m.fields)
  {
    var m := w.infer(name);
    var dir := TargetDirectory(w, m);
    assert dir + "/video" == (dir + "/") + "video";
    if m.streamedAt.Some? && m.streamedAt.value != "" {
      assert SafeComponent(w, m.title) + "_" + m.streamedAt.value == SafeComponent(w, m.title) + ("_" + m.streamedAt.value);
    }
  }

  // Carrying the plan out

  ghost predicate Same(a: map<string, string>, b: map<string, string>, path: string) {
    (path in a <==> path in b) && (path in a ==> a[path] == b[path])
  }

  /** What a plan needs of the store: sources that exist, targets that do not. */
  ghost predicate Ready(files: map<string, string>, planned: seq<Planned>) {
    && (forall i | 0 <= i < |planned| :: planned[i].source in files && planned[i].target !in files)
    && (forall i, j | 0 <= i < j < |planned| ::
          planned[i].source != planned[j].source && planned[i].target != planned[j].target)
  }

  ghost predicate Touches(planned: seq<Planned>, path: string) {
    exists i :: 0 <= i < |planned| && (planned[i].source == path || planned[i].target == path)
  }

  /** The first k videos are at their targets, the others still at their sources, nothing else has changed. */
  ghost predicate Moved(files: map<string, string>, now: map<string, string>, planned: seq<Planned>, k: nat)
    requires Ready(files, planned)
  {
    && (forall i | 0 <= i < |planned| && i < k ::
          planned[i].source !in now && planned[i].target in now && now[planned[i].target] == files[planned[i].source])
    && (forall i | k <= i < |planned| ::
          planned[i].source in now && now[planned[i].source] == files[planned[i].source] && planned[i].target !in now)
    && (forall path | !Touches(planned, path) :: Same(now, files, path))
  }

  lemma MoveKeeps(files: map<string, string>, now: map<string, string>, planned: seq<Planned>, k: nat)
    requires Ready(files, planned) && Moved(files, now, planned, k) && k < |planned|
    ensures Did(now, MoveFile(planned[k].source, planned[k].target)).Some?
    ensures Moved(files, Did(now, MoveFile(planned[k].source, planned[k].target)).value, planned, k + 1)
  {
    var after := Did(now, MoveFile(planned[k].source, planned[k].target)).value;
    forall i | 0 <= i < |planned| ensures planned[i].source != planned[k].target && planned[i].target != planned[k].source {}
    forall path | !Touches(planned, path) ensures Same(after, files, path) {
      assert path != planned[k].source && path != planned[k].target;
      assert Same(now, files, path);
    }
  }

  lemma MoveStep(files: map<string, string>, planned: seq<Planned>, now: map<string, string>, n: nat)
    requires Ready(files, planned) && n < 2 * |planned| && Moved(files, now, planned, n / 2)
    ensures var after := Did(now, MoveOps(planned)[n]);
      after.Some? && Moved(files, after.value, planned, (n + 1) / 2)
  {
    hide MoveOps, Moved, Ready;
    var k := n / 2;
    MoveOpsAt(planned, k);
    if n == 2 * k {
      assert (n + 1) / 2 == k;
    } else {
      assert n == 2 * k + 1 && (n + 1) / 2 == k + 1;
      MoveKeeps(files, now, planned, k);
    }
  }

  lemma {:induction false} MovesKeep(files: map<string, string>, planned: seq<Planned>, rest: seq<Op>, n: nat)
    requires Ready(files, planned) && n <= 2 * |planned|
    ensures var ops := MoveOps(planned) + rest;
      DidAll(files, ops[..n]).Some? && Moved(files, DidAll(files, ops[..n]).value, planned, n / 2)
  {
    hide MoveOps, Moved, Ready, DidAll;
    var ops := MoveOps(planned) + rest;
    if n == 0 {
      NothingMoved(files, planned);
      DidNothing(files, ops);
    } else {
      MovesKeep(files, planned, rest, n - 1);
      DidStep(files, ops, n - 1);
      PlainIndex(MoveOps(planned), rest, n - 1);
      MoveStep(files, planned, DidAll(files, ops[..n - 1]).value, n - 1);
    }
  }

  lemma PlainIndex(a: seq<Op>, b: seq<Op>, i: nat)
    requires i < |a|
    ensures (a + b)[i] == a[i]
  {
  }

  lemma NothingMoved(files: map<string, string>, planned: seq<Planned>)
    requires Ready(files, planned)
    ensures Moved(files, files, planned, 0)
  {
  }

  /** The manifest, its temporary and its backup are none of the videos. */
  ghost predicate Clear(w: World, manifest: string, planned: seq<Planned>) {
    && !Touches(planned, manifest)
    && !Touches(planned, manifest + ".tmp")
    && !Touches(planned, manifest + ".bak." + w.stamp)
  }

  /** Writing the manifest spares the videos: it and its temporary are none of the planned paths, and the backup,
      which is written only of a manifest with text, replaces none but by the same bytes. */
  ghost predicate Spared(w: World, files: map<string, string>, manifest: string, planned: seq<Planned>)
    requires Ready(files, planned)
  {
    var (original, bak) := (Read(files, manifest), manifest + ".bak." + w.stamp);
    && !Touches(planned, manifest)
    && !Touches(planned, manifest + ".tmp")
    && (original != "" ==> forall i | 0 <= i < |planned| ::
          planned[i].source != bak && (planned[i].target == bak ==> files[planned[i].source] == original))
  }

  lemma ClearIsSpared(w: World, files: map<string, string>, manifest: string, planned: seq<Planned>)
    requires Ready(files, planned) && Clear(w, manifest, planned)
    ensures Spared(w, files, manifest, planned)
  {
  }

  predicate Control(w: World, manifest: string, path: string) {
    path == manifest || path == manifest + ".tmp" || path == manifest + ".bak." + w.stamp
  }

  /** A video is in exactly one of its two places, with its bytes. */
  ghost predicate InOnePlace(files: map<string, string>, now: map<string, string>, p: Planned)
    requires p.source in files
  {
    if p.target in now then p.source !in now && now[p.target] == files[p.source]
    else p.source in now && now[p.source] == files[p.source]
  }

  /** The videos are moved and n of the requests are through: how far the manifest is. */
  ghost predicate Tail(
    w: World, files: map<string, string>, now: map<string, string>, manifest: string, plan: Plan, n: nat)
    requires Ready(files, plan.planned)
  {
    var original := Read(files, manifest);
    var (moves, all) := (2 * |plan.planned|, |AllOps(w, manifest, original, plan)|);
    var bak := manifest + ".bak." + w.stamp;
    && (forall i | 0 <= i < |plan.planned| :: plan.planned[i].source !in now
          && plan.planned[i].target in now && now[plan.planned[i].target] == files[plan.planned[i].source])
    && (forall path | !Touches(plan.planned, path) && !Control(w, manifest, path) :: Same(now, files, path))
    && (n < all ==> Same(now, files, manifest))
    && (n == all - 1 ==> manifest + ".tmp" in now && now[manifest + ".tmp"] == ManifestText(w.codec, plan.records))
    && (n == all ==> manifest in now && now[manifest] == ManifestText(w.codec, plan.records))
    && (original != "" && n > moves ==> bak in now && now[bak] == original)
  }

  lemma ManifestIsNoVideo(planned: seq<Planned>, path: string)
    requires !Touches(planned, path)
    ensures forall i | 0 <= i < |planned| :: planned[i].source != path && planned[i].target != path
  {
  }

  lemma BackupSparesVideos(w: World, files: map<string, string>, manifest: string, planned: seq<Planned>)
    requires Ready(files, planned) && Spared(w, files, manifest, planned)
    ensures !Touches(planned, manifest) && !Touches(planned, manifest + ".tmp")
    ensures var (original, bak) := (Read(files, manifest), manifest + ".bak." + w.stamp);
      original != "" ==> forall i | 0 <= i < |planned| ::
        planned[i].source != bak && (planned[i].target == bak ==> files[planned[i].source] == original)
  {
    hide Touches;
  }

  lemma TailStep(
    w: World, files: map<string, string>, now: map<string, string>, manifest: string, plan: Plan, n: nat)
    requires Ready(files, plan.planned) && Spared(w, files, manifest, plan.planned)
    requires Tail(w, files, now, manifest, plan, n)
    requires 2 * |plan.planned| <= n < |AllOps(w, manifest, Read(files, manifest), plan)|
    ensures var op := AllOps(w, manifest, Read(files, manifest), plan)[n];
      Did(now, op).Some? && Tail(w, files, Did(now, op).value, manifest, plan, n + 1)
  {
    hide MoveOps, ManifestText, Ready, Touches, Spared;
    NamesDiffer(w, manifest);
    BackupSparesVideos(w, files, manifest, plan.planned);
    ManifestIsNoVideo(plan.planned, manifest);
    ManifestIsNoVideo(plan.planned, manifest + ".tmp");
  }

  lemma {:induction false} TailKeeps(
    w: World, files: map<string, string>, manifest: string, plan: Plan, n: nat)
    requires Ready(files, plan.planned) && Spared(w, files, manifest, plan.planned)
    requires var ops := AllOps(w, manifest, Read(files, manifest), plan); 2 * |plan.planned| <= n <= |ops|
    ensures var ops := AllOps(w, manifest, Read(files, manifest), plan);
      DidAll(files, ops[..n]).Some? && Tail(w, files, DidAll(files, ops[..n]).value, manifest, plan, n)
  {
    hide MoveOps, ManifestText, Ready, Touches, Tail, DidAll, Control, Same, Spared;
    var ops := AllOps(w, manifest, Read(files, manifest), plan);
    if n == 2 * |plan.planned| {
      MovesKeep(files, plan.planned, ManifestOps(w, manifest, Read(files, manifest), plan.records), n);
      TailStarts(w, files, DidAll(files, ops[..n]).value, manifest, plan);
    } else {
      TailKeeps(w, files, manifest, plan, n - 1);
      DidStep(files, ops, n - 1);
      TailStep(w, files, DidAll(files, ops[..n - 1]).value, manifest, plan, n - 1);
    }
  }

  lemma TailStarts(w: World, files: map<string, string>, now: map<string, string>, manifest: string, plan: Plan)
    requires Ready(files, plan.planned) && Spared(w, files, manifest, plan.planned)
    requires Moved(files, now, plan.planned, |plan.planned|)
    ensures Tail(w, files, now, manifest, plan, 2 * |plan.planned|)
  {
    hide MoveOps, ManifestText, Ready, Touches;
  }

  lemma NamesDiffer(w: World, manifest: string)
    ensures manifest != manifest + ".tmp" && manifest != manifest + ".bak." + w.stamp
    ensures manifest + ".tmp" != manifest + ".bak." + w.stamp
  {
    var (a, b) := (manifest + ".tmp", manifest + ".bak." + w.stamp);
    assert |a| == |manifest| + 4 && |b| >= |manifest| + 5;
  }

  /**
   * After n requests, crash or not: each video is in exactly one of its two places with its bytes, the manifest is
   * the old one or the complete new one, and no other file but the manifest's own has changed.
   */
  ghost predicate Safe(w: World, files: map<string, string>, manifest: string, plan: Plan, n: nat)
    requires Ready(files, plan.planned)
    requires n <= |AllOps(w, manifest, Read(files, manifest), plan)|
  {
    var ops := AllOps(w, manifest, Read(files, manifest), plan);
    && DidAll(files, ops[..n]).Some?
    && var now := DidAll(files, ops[..n]).value;
    && (forall i | 0 <= i < |plan.planned| :: InOnePlace(files, now, plan.planned[i]))
    && (n == |ops| ==> forall i | 0 <= i < |plan.planned| :: plan.planned[i].target in now)
    && (forall path | !Touches(plan.planned, path) && !Control(w, manifest, path) :: Same(now, files, path))
    && (if n == |ops| then manifest in now && now[manifest] == ManifestText(w.codec, plan.records)
        else Same(now, files, manifest))
  }

  lemma NothingIsLost(w: World, files: map<string, string>, manifest: string, plan: Plan, n: nat)
    requires Ready(files, plan.planned) && Spared(w, files, manifest, plan.planned)
    requires n <= |AllOps(w, manifest, Read(files, manifest), plan)|
    ensures Safe(w, files, manifest, plan, n)
  {
    hide MoveOps, ManifestText;
    var ops := AllOps(w, manifest, Read(files, manifest), plan);
    if n < 2 * |plan.planned| {
      MovesKeep(files, plan.planned, ManifestOps(w, manifest, Read(files, manifest), plan.records), n);
    } else {
      TailKeeps(w, files, manifest, plan, n);
    }
  }

  // And when it is lost

  lemma AfterMoves(w: World, files: map<string, string>, manifest: string, plan: Plan, n: nat) returns (now: map<string, string>)
    requires Ready(files, plan.planned) && n <= 2 * |plan.planned|
    ensures var ops := AllOps(w, manifest, Read(files, manifest), plan);
      && n < |ops| && DidAll(files, ops[..n]) == Some(now) && Moved(files, now, plan.planned, n / 2)
  {
    hide MoveOps, ManifestText, Moved, Ready;
    MovesKeep(files, plan.planned, ManifestOps(w, manifest, Read(files, manifest), plan.records), n);
    now := DidAll(files, AllOps(w, manifest, Read(files, manifest), plan)[..n]).value;
  }

  /** A manifest that is a planned source or target is neither old nor new once that video has moved. */
  lemma TouchedManifestIsLost(w: World, files: map<string, string>, manifest: string, plan: Plan) returns (n: nat)
    requires Ready(files, plan.planned) && Touches(plan.planned, manifest)
    ensures n < |AllOps(w, manifest, Read(files, manifest), plan)|
    ensures !Safe(w, files, manifest, plan, n)
  {
    hide MoveOps, ManifestText, AllOps, DidAll;
    var i :| 0 <= i < |plan.planned| && (plan.planned[i].source == manifest || plan.planned[i].target == manifest);
    n := 2 * i + 2;
    var now := AfterMoves(w, files, manifest, plan, n);
    assert !Same(now, files, manifest);
  }

  /** The two requests that end every plan, from the state before the temporary is written. */
  lemma LastTwo(w: World, files: map<string, string>, manifest: string, plan: Plan)
    ensures var ops := AllOps(w, manifest, Read(files, manifest), plan); var n := |ops| - 2;
      && n >= 2 * |plan.planned|
      && ops[n] == Put(manifest + ".tmp", ManifestText(w.codec, plan.records))
      && ops[n + 1] == MoveFile(manifest + ".tmp", manifest)
      && (Read(files, manifest) != "" ==>
            && n == 2 * |plan.planned| + 1
            && ops[n - 1] == Put(manifest + ".bak." + w.stamp, Read(files, manifest)))
      && (Read(files, manifest) == "" ==> n == 2 * |plan.planned|)
  {
    hide MoveOps, ManifestText;
  }

  /** All videos are at their targets when the backup, if any, is written, and stay there under it. */
  lemma BeforeLastTwo(w: World, files: map<string, string>, manifest: string, plan: Plan) returns (now: map<string, string>)
    requires Ready(files, plan.planned)
    ensures var ops := AllOps(w, manifest, Read(files, manifest), plan);
      && |ops| >= 2 && DidAll(files, ops[..|ops| - 2]) == Some(now)
      && (forall i | 0 <= i < |plan.planned| :: plan.planned[i].target in now)
      && (Read(files, manifest) != "" ==>
            && manifest + ".bak." + w.stamp in now
            && now[manifest + ".bak." + w.stamp] == Read(files, manifest))
  {
    hide MoveOps, ManifestText, AllOps, DidAll, Ready;
    var ops := AllOps(w, manifest, Read(files, manifest), plan);
    LastTwo(w, files, manifest, plan);
    now := AfterMoves(w, files, manifest, plan, 2 * |plan.planned|);
    if Read(files, manifest) != "" {
      DidStep(files, ops, |ops| - 3);
      now := DidAll(files, ops[..|ops| - 2]).value;
    }
  }

  lemma TouchedTemporaryIsLost(w: World, files: map<string, string>, manifest: string, plan: Plan) returns (n: nat)
    requires Ready(files, plan.planned)
    requires !Touches(plan.planned, manifest) && Touches(plan.planned, manifest + ".tmp")
    ensures n <= |AllOps(w, manifest, Read(files, manifest), plan)|
    ensures !Safe(w, files, manifest, plan, n)
  {
    hide MoveOps, ManifestText, AllOps, DidAll;
    var ops := AllOps(w, manifest, Read(files, manifest), plan);
    var tmp := manifest + ".tmp";
    var i :| 0 <= i < |plan.planned| && (plan.planned[i].source == tmp || plan.planned[i].target == tmp);
    var p := plan.planned[i];
    ManifestIsNoVideo(plan.planned, manifest);
    LastTwo(w, files, manifest, plan);
    var before := BeforeLastTwo(w, files, manifest, plan);
    DidStep(files, ops, |ops| - 2);
    DidStep(files, ops, |ops| - 1);
    assert ops[..|ops|] == ops;
    var put := DidAll(files, ops[..|ops| - 1]).value;
    n := if p.source in put then |ops| - 1 else |ops|;
    if p.source in put {
      assert p.target in put;
      assert !InOnePlace(files, put, p);
    } else {
      assert p.target !in DidAll(files, ops).value;
    }
  }

  lemma TouchedBackupIsLost(w: World, files: map<string, string>, manifest: string, plan: Plan, i: nat) returns (n: nat)
    requires Ready(files, plan.planned) && i < |plan.planned| && Read(files, manifest) != ""
    requires var (p, bak) := (plan.planned[i], manifest + ".bak." + w.stamp);
      p.source == bak || (p.target == bak && files[p.source] != Read(files, manifest))
    ensures n <= |AllOps(w, manifest, Read(files, manifest), plan)|
    ensures !Safe(w, files, manifest, plan, n)
  {
    hide MoveOps, ManifestText, AllOps, DidAll;
    var ops := AllOps(w, manifest, Read(files, manifest), plan);
    var now := BeforeLastTwo(w, files, manifest, plan);
    n := |ops| - 2;
    assert !InOnePlace(files, now, plan.planned[i]);
  }

  /** Exactly when writing the manifest spares the videos is nothing lost at any point of carrying out the plan. */
  lemma NothingIsLostIff(w: World, files: map<string, string>, manifest: string, plan: Plan)
    requires Ready(files, plan.planned)
    ensures (forall n: nat | n <= |AllOps(w, manifest, Read(files, manifest), plan)| :: Safe(w, files, manifest, plan, n))
      <==> Spared(w, files, manifest, plan.planned)
  {
    hide AllOps, Safe, Touches;
    if Spared(w, files, manifest, plan.planned) {
      forall n: nat | n <= |AllOps(w, manifest, Read(files, manifest), plan)| ensures Safe(w, files, manifest, plan, n) {
        NothingIsLost(w, files, manifest, plan, n);
      }
    } else if Touches(plan.planned, manifest) {
      var n := TouchedManifestIsLost(w, files, manifest, plan);
    } else if Touches(plan.planned, manifest + ".tmp") {
      var n := TouchedTemporaryIsLost(w, files, manifest, plan);
    } else {
      var bak := manifest + ".bak." + w.stamp;
      var i :| 0 <= i < |plan.planned| && (plan.planned[i].source == bak
        || (plan.planned[i].target == bak && files[plan.planned[i].source] != Read(files, manifest)));
      var n := TouchedBackupIsLost(w, files, manifest, plan, i);
    }
  }

  // When a plan is ready to be carried out

  /** The listing is of the store's own root: its files exist, each once, and none is in a directory. */
  ghost predicate Listed(files: map<string, string>, entries: seq<Entry>) {
    && (forall i | 0 <= i < |entries| :: '/' !in entries[i].name && (!entries[i].isCollection ==> entries[i].name in files))
    && (forall i, j | 0 <= i < j < |entries| :: entries[i].name != entries[j].name)
  }

  ghost predicate SourcesFrom(planned: seq<Planned>, names: seq<string>) {
    && (forall i | 0 <= i < |planned| :: planned[i].source in names)
    && (forall i, j | 0 <= i < j < |planned| :: planned[i].source != planned[j].source)
  }

  lemma {:induction false} SourcesAreEntries(w: World, taken: set<string>, start: seq<Record>, entries: seq<Entry>)
    requires forall i, j | 0 <= i < j < |entries| :: entries[i].name != entries[j].name
    ensures SourcesFrom(DecideAll(w, taken, Start(start), entries).planned, EntryNames(entries))
  {
    hide Decide;
    if entries != [] {
      var (rest, last) := (entries[..|entries| - 1], entries[|entries| - 1]);
      var plan := DecideAll(w, taken, Start(start), rest);
      SourcesAreEntries(w, taken, start, rest);
      assert last.name !in EntryNames(rest) by {
        forall i | 0 <= i < |rest| ensures EntryNames(rest)[i] != last.name { assert rest[i] == entries[i]; }
      }
      AtMostOneMore(w, taken, plan, last, EntryNames(rest));
      assert EntryNames(entries) == EntryNames(rest) + [last.name];
    }
  }

  lemma AtMostOneMore(w: World, taken: set<string>, plan: Plan, last: Entry, names: seq<string>)
    requires SourcesFrom(plan.planned, names) && last.name !in names
    ensures SourcesFrom(Decide(w, taken, plan, last).planned, names + [last.name])
  {
    hide TargetPath, Extension, TargetDirectory;
  }

  /** A plan made from the store's own listing can be carried out: nothing it writes to exists. */
  lemma PlansAreReady(w: World, files: map<string, string>, dirs: set<string>, start: seq<Record>, entries: seq<Entry>)
    requires Listed(files, entries)
    ensures Ready(files, DecideAll(w, files.Keys + dirs, Start(start), entries).planned)
  {
    var planned := DecideAll(w, files.Keys + dirs, Start(start), entries).planned;
    PlanIsNew(w, files.Keys + dirs, start, entries);
    SourcesAreEntries(w, files.Keys + dirs, start, entries);
    forall i | 0 <= i < |planned| ensures planned[i].source in files && planned[i].target !in files {
      var j :| 0 <= j < |entries| && entries[j] == Entry(planned[i].source, false);
    }
  }

  lemma ExtensionOf(name: string, dot: nat)
    requires 0 < dot < |name| - 1 && name[dot] == '.' && forall j | dot < j < |name| :: name[j] != '.'
    ensures Extension(name) == Lower(name[dot..])
  {
    assert LastDot(name) == dot;
  }

  /** A manifest in the root whose name is no video's keeps clear of every plan. */
  lemma RootManifestIsClear(w: World, taken: set<string>, start: seq<Record>, entries: seq<Entry>, manifest: string)
    requires '/' !in manifest && Extension(manifest) !in VIDEO_EXTENSIONS
    requires '/' !in w.stamp && '.' !in w.stamp && |w.stamp| > 4
    ensures Clear(w, manifest, DecideAll(w, taken, Start(start), entries).planned)
  {
    var planned := DecideAll(w, taken, Start(start), entries).planned;
    PlanIsNew(w, taken, start, entries);
    SideNamesAreNoVideos(w, manifest);
    forall i | 0 <= i < |planned|
      ensures '/' in planned[i].target && Extension(planned[i].source) in VIDEO_EXTENSIONS
    {
      assert planned[i] == PlanOf(w, planned[i].source);
    }
  }

  lemma BackupIsNoVideo(w: World, manifest: string)
    requires '.' !in w.stamp && |w.stamp| > 4
    ensures Extension(manifest + ".bak." + w.stamp) !in VIDEO_EXTENSIONS
  {
    hide Lower, LastDot, Extension;
    var bak := manifest + ".bak." + w.stamp;
    var dot := |manifest| + 4;
    assert bak[dot..] == "." + w.stamp;
    forall j | dot < j < |bak| ensures bak[j] != '.' { assert bak[j] == w.stamp[j - dot - 1]; }
    ExtensionOf(bak, dot);
    assert |Extension(bak)| > 5;
    assert forall ext | ext in VIDEO_EXTENSIONS :: |ext| <= 5;
  }

  lemma TemporaryIsNoVideo(manifest: string)
    ensures Extension(manifest + ".tmp") !in VIDEO_EXTENSIONS
  {
    hide LastDot, Lower;
    var tmp := manifest + ".tmp";
    assert tmp[|manifest|..] == ".tmp";
    if manifest != "" {
      ExtensionOf(tmp, |manifest|);
      LowerIsLower(".tmp");
    } else {
      assert tmp == ".tmp" && tmp[3] == 'p' && tmp[2] == 'm' && tmp[1] == 't';
      assert LastDot(tmp) <= 0;
    }
  }

  lemma SideNamesAreNoVideos(w: World, manifest: string)
    requires '/' !in manifest && '/' !in w.stamp && '.' !in w.stamp && |w.stamp| > 4
    ensures var (tmp, bak) := (manifest + ".tmp", manifest + ".bak." + w.stamp);
      && '/' !in tmp && '/' !in bak
      && Extension(tmp) !in VIDEO_EXTENSIONS && Extension(bak) !in VIDEO_EXTENSIONS
  {
    hide Extension;
    TemporaryIsNoVideo(manifest);
    BackupIsNoVideo(w, manifest);
  }

  /**
   * The whole of it: list the root, plan, and send any number of the requests. None is refused, no video is lost
   * or doubled, nothing else is overwritten, and the manifest is the old one or the complete new one, exactly
   * when writing the manifest spares the planned videos.
   */
  lemma OrganizingLosesNothingIff(
    w: World, files: map<string, string>, dirs: set<string>, entries: seq<Entry>, manifest: string, start: seq<Record>)
    requires Listed(files, entries) && ReadManifest(w.codec, Read(files, manifest)) == Some(start)
    ensures var plan := DecideAll(w, files.Keys + dirs, Start(start), entries);
      && plan.records == start + Records(plan.planned)
      && Ready(files, plan.planned)
      && ((forall n: nat | n <= |AllOps(w, manifest, Read(files, manifest), plan)| :: Safe(w, files, manifest, plan, n))
            <==> Spared(w, files, manifest, plan.planned))
  {
    hide DecideAll, AllOps, Safe, Spared, Listed, Ready;
    PlansAreReady(w, files, dirs, start, entries);
    PlanIsNew(w, files.Keys + dirs, start, entries);
    NothingIsLostIff(w, files, manifest, DecideAll(w, files.Keys + dirs, Start(start), entries));
  }

  /** So nothing is lost with a manifest in the root whose name is no video's. */
  lemma RootManifestLosesNothing(
    w: World, files: map<string, string>, dirs: set<string>, entries: seq<Entry>,
    manifest: string, start: seq<Record>, n: nat)
    requires Listed(files, entries) && '/' !in manifest && Extension(manifest) !in VIDEO_EXTENSIONS
    requires '/' !in w.stamp && '.' !in w.stamp && |w.stamp| > 4
    ensures var plan := DecideAll(w, files.Keys + dirs, Start(start), entries);
      && Ready(files, plan.planned)
      && (n <= |AllOps(w, manifest, Read(files, manifest), plan)| ==> Safe(w, files, manifest, plan, n))
  {
    hide DecideAll, AllOps, Safe, Extension, Clear, Listed, Ready, Spared;
    var plan := DecideAll(w, files.Keys + dirs, Start(start), entries);
    PlansAreReady(w, files, dirs, start, entries);
    RootManifestIsClear(w, files.Keys + dirs, start, entries, manifest);
    ClearIsSpared(w, files, manifest, plan.planned);
    if n <= |AllOps(w, manifest, Read(files, manifest), plan)| {
      NothingIsLost(w, files, manifest, plan, n);
    }
  }

  /** Then the manifest that is read back after a full run lists what was there and what was moved. */
  lemma NewManifestListsEverything(w: World, start: seq<Record>, plan: Plan)
    requires IsJson(w.codec) && plan.records == start + Records(plan.planned)
    requires forall r | r in plan.records :: Unbroken(w.codec.encode(r))
    ensures ReadManifest(w.codec, ManifestText(w.codec, plan.records)) == Some(start + Records(plan.planned))
  {
    ManifestRoundTrip(w.codec, plan.records);
  }

  lemma RawIsAVideo(w: World)
    ensures Extension("raw.mp4") in VIDEO_EXTENSIONS && '/' !in "raw.mp4"
  {
    hide Extension, Lower;
    var name := "raw.mp4";
    assert name[3] == '.' && name[4] == 'm' && name[5] == 'p' && name[6] == '4';
    ExtensionOf(name, 3);
    assert name[3..] == ".mp4";
    LowerIsLower(".mp4");
  }

  lemma LowerIsLower(s: string)
    requires forall c | c in s :: !('A' <= c <= 'Z')
    ensures Lower(s) == s
  {
    hide Lower;
    forall i | 0 <= i < |s| ensures Lower(s)[i] == s[i] { assert s[i] in s; }
  }

  lemma RawIsPlanned(w: World)
    ensures DecideAll(w, {"raw.mp4"}, Start([]), [Entry("raw.mp4", false)])
      == Plan([PlanOf(w, "raw.mp4")], [], [RecordFor(w, "raw.mp4")], {TargetPath(w, "raw.mp4")})
  {
    hide TargetPath, Extension;
    RawIsAVideo(w);
    assert [Entry("raw.mp4", false)][..0] == [] && PathsOf([]) == {};
  }

  lemma FourSteps(w: World, bytes: string, text: string, target: string, dir: string)
    requires target != "raw.mp4"
    ensures DidAll(map["raw.mp4" := bytes],
        [MakeDir(dir), MoveFile("raw.mp4", target), Put(target + ".tmp", text), MoveFile(target + ".tmp", target)])
      == Some(map[target := text])
  {
    var files := map["raw.mp4" := bytes];
    var ops := [MakeDir(dir), MoveFile("raw.mp4", target), Put(target + ".tmp", text), MoveFile(target + ".tmp", target)];
    NamesDiffer(w, target);
    DidNothing(files, ops);
    DidStep(files, ops, 0);
    DidStep(files, ops, 1);
    DidStep(files, ops, 2);
    DidStep(files, ops, 3);
    assert DidAll(files, ops[..2]) == Some(map[target := bytes]);
    assert DidAll(files, ops[..3]) == Some(map[target := bytes, target + ".tmp" := text]);
    assert ops[..4] == ops;
    assert (map[target := bytes, target + ".tmp" := text] - {target + ".tmp"})[target := text] == map[target := text];
  }

  /** A manifest path that is not clear can cost a video: here it names the video's own target. */
  lemma TargetAsManifestLosesTheVideo(w: World, bytes: string)
    ensures var (files, manifest) := (map["raw.mp4" := bytes], TargetPath(w, "raw.mp4"));
      var plan := DecideAll(w, files.Keys, Start([]), [Entry("raw.mp4", false)]);
      && |plan.planned| == 1 && plan.planned[0].target == manifest
      && DidAll(files, AllOps(w, manifest, Read(files, manifest), plan))
           == Some(map[manifest := ManifestText(w.codec, plan.records)])
  {
    hide *;
    var (files, manifest) := (map["raw.mp4" := bytes], TargetPath(w, "raw.mp4"));
    RawIsAVideo(w);
    RawIsPlanned(w);
    assert files.Keys == {"raw.mp4"};
    var plan := DecideAll(w, files.Keys, Start([]), [Entry("raw.mp4", false)]);
    OnePlanned(w);
    OpsOfOne(w, manifest, plan);
    assert Read(files, manifest) == "" by { NotThere(files, manifest); }
    FourSteps(w, bytes, ManifestText(w.codec, plan.records), manifest, plan.planned[0].targetDir);
  }

  lemma NotThere(files: map<string, string>, path: string)
    requires path !in files
    ensures Read(files, path) == ""
  {
  }

  lemma OnePlanned(w: World)
    ensures PlanOf(w, "raw.mp4").source == "raw.mp4" && PlanOf(w, "raw.mp4").target == TargetPath(w, "raw.mp4")
  {
  }

  lemma OpsOfOne(w: World, manifest: string, plan: Plan)
    requires |plan.planned| == 1
    ensures var item := plan.planned[0];
      AllOps(w, manifest, "", plan)
      == [MakeDir(item.targetDir), MoveFile(item.source, item.target),
          Put(manifest + ".tmp", ManifestText(w.codec, plan.records)), MoveFile(manifest + ".tmp", manifest)]
  {
    hide ManifestText;
    assert plan.planned[..0] == [];
  }

  /** A manifest path that names a planned source: an empty video is read as an empty manifest and moved away. */
  lemma SourceAsManifestIsMovedAway(w: World)
    ensures var (files, manifest) := (map["raw.mp4" := ""], "raw.mp4");
      var plan := DecideAll(w, files.Keys, Start([]), [Entry("raw.mp4", false)]);
      var ops := AllOps(w, manifest, Read(files, manifest), plan);
      && ReadManifest(w.codec, Read(files, manifest)) == Some([])
      && |ops| > 2 && DidAll(files, ops[..2]) == Some(map[TargetPath(w, "raw.mp4") := ""])
      && "raw.mp4" !in map[TargetPath(w, "raw.mp4") := ""]
  {
    hide TargetPath, ManifestText, Extension;
    var (files, manifest) := (map["raw.mp4" := ""], "raw.mp4");
    RawIsAVideo(w);
    RawIsPlanned(w);
    assert files.Keys == {"raw.mp4"};
    OnePlanned(w);
    var plan := DecideAll(w, files.Keys, Start([]), [Entry("raw.mp4", false)]);
    OpsOfOne(w, manifest, plan);
    var ops := AllOps(w, manifest, "", plan);
    DidNothing(files, ops);
    DidStep(files, ops, 0);
    DidStep(files, ops, 1);
    assert (files - {"raw.mp4"})[TargetPath(w, "raw.mp4") := ""] == map[TargetPath(w, "raw.mp4") := ""];
  }

  /** The directory made for a video is known under its name without the slash. */
  lemma DirectoriesHaveNoSlash(w: World, name: string)
    ensures WithoutSlash(PlanOf(w, name).targetDir) == TargetDirectory(w, w.infer(name))
  {
  }
}
