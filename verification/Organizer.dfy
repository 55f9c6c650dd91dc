/** Moving loose videos into the manifest-backed layout (src/kanomori/source_organizer.py). */
module Organizer {
  import opened Basics
  import opened Manifest

  datatype Entry = Entry(name: string, isCollection: bool)

  datatype Metadata = Metadata(title: string, streamedAt: Option<string>, fields: string)

  /** What the name's inference answers, and which characters count as white space. */
  datatype World = World(infer: string -> Metadata, space: char -> bool, stamp: string, codec: Codec)

  datatype Planned = Planned(source: string, targetDir: string, target: string, record: Record)

  datatype Reason = AlreadyDirectory | NotAVideo | InManifest | TargetExists

  datatype Skipped = Skipped(name: string, reason: Reason)

  const VIDEO_EXTENSIONS := {".mp4", ".mkv", ".mov", ".m4v", ".webm", ".flv"}
  const RESERVED := "/\\:*?\"<>|"

  predicate IsReserved(c: char) { c in RESERVED || c < ' ' }

  function Replaced(s: string): (r: string)
    ensures forall c | c in r :: !IsReserved(c)
  {
    if s == "" then "" else [if IsReserved(s[0]) then ' ' else s[0]] + Replaced(s[1..])
  }

  /** Runs of white space become one blank. */
  function Collapsed(w: World, s: string, afterSpace: bool): (r: string)
    requires forall c | c in s :: !IsReserved(c)
    ensures forall c | c in r :: !IsReserved(c)
  {
    if s == "" then ""
    else if !w.space(s[0]) then [s[0]] + Collapsed(w, s[1..], false)
    else if afterSpace then Collapsed(w, s[1..], true)
    else [' '] + Collapsed(w, s[1..], true)
  }

  function Stripped(s: string): (r: string)
    ensures forall c | c in r :: c in s
    ensures r != "" ==> r[0] !in " ." && r[|r| - 1] !in " ."
  {
    if s == "" then ""
    else if s[0] in " ." then Stripped(s[1..])
    else if s[|s| - 1] in " ." then Stripped(s[..|s| - 1])
    else s
  }

  /** A directory name: no reserved character, no blank or dot at either end, never empty. */
  function SafeComponent(w: World, s: string): (r: string)
    ensures r != "" && (forall c | c in r :: !IsReserved(c))
    ensures r[0] !in " ." && r[|r| - 1] !in " ."
  {
    var cleaned := Stripped(Collapsed(w, Replaced(s), false));
    if cleaned == "" then "untitled" else cleaned
  }

  function TargetDirectory(w: World, m: Metadata): (r: string)
    ensures r != "" && r[0] !in " ./"
  {
    var title := SafeComponent(w, m.title);
    assert RESERVED[0] == '/' && title[0] in title;
    if m.streamedAt.Some? && m.streamedAt.value != "" then title + "_" + m.streamedAt.value else title
  }

  /** Index of the last dot, or -1. */
  function LastDot(s: string): (i: int)
    ensures -1 <= i < |s| && (i >= 0 ==> s[i] == '.') && forall j | i < j < |s| :: s[j] != '.'
  {
    if s == "" then -1 else if s[|s| - 1] == '.' then |s| - 1 else LastDot(s[..|s| - 1])
  }

  function Lower(s: string): (r: string)
    ensures |r| == |s|
    ensures forall i | 0 <= i < |s| :: r[i] == if 'A' <= s[i] <= 'Z' then (s[i] as int + 32) as char else s[i]
  {
    if s == "" then ""
    else [if 'A' <= s[0] <= 'Z' then (s[0] as int + 32) as char else s[0]] + Lower(s[1..])
  }

  /** The lower-cased suffix of a root entry's name. */
  function Extension(name: string): string {
    var i := LastDot(name);
    if 0 < i < |name| - 1 then Lower(name[i..]) else ""
  }

  function TargetPath(w: World, name: string): (path: string)
    ensures '/' in path
  {
    var dir := TargetDirectory(w, w.infer(name));
    assert (dir + "/video" + Extension(name))[|dir|] == '/';
    dir + "/video" + Extension(name)
  }

  function RecordFor(w: World, name: string): Record {
    Record(Some(TargetPath(w, name)), w.infer(name).fields)
  }

  function PlanOf(w: World, name: string): Planned {
    Planned(name, TargetDirectory(w, w.infer(name)) + "/", TargetPath(w, name), RecordFor(w, name))
  }

  /** The paths the manifest names: those neither missing nor empty. */
  function PathsOf(records: seq<Record>): set<string> {
    set r | r in records && r.path.Some? && r.path.value != "" :: r.path.value
  }

  function WithoutSlash(path: string): string {
    if path != "" && path[|path| - 1] == '/' then path[..|path| - 1] else path
  }

  /** The remote files by path, and the paths of directories, without a slash at the end. */
  class Store {
    var files: map<string, string>
    var dirs: set<string>

    predicate Has(path: string)
      reads this
    {
      path in files || path in dirs
    }

    method Mkdir(path: string)
      modifies this
      ensures files == old(files) && dirs == old(dirs) + {WithoutSlash(path)}
    {
      dirs := dirs + {WithoutSlash(path)};
    }

    /** MOVE overwrites; a missing source is an error and changes nothing. */
    method Move(source: string, target: string) returns (ok: bool)
      modifies this
      ensures Did(old(files), MoveFile(source, target)) == if ok then Some(files) else None
      ensures !ok ==> files == old(files)
      ensures dirs == old(dirs)
    {
      ok := source in files;
      if ok { files := (files - {source})[target := files[source]]; }
    }

    method PutText(path: string, text: string)
      modifies this
      ensures files == old(files)[path := text] && dirs == old(dirs)
    {
      files := files[path := text];
    }
  }

  /** One request to the store, as far as files are concerned; None is an error. */
  datatype Op = MakeDir(path: string) | MoveFile(source: string, target: string) | Put(path: string, text: string)

  function Did(files: map<string, string>, op: Op): Option<map<string, string>> {
    match op
    case MakeDir(_) => Some(files)
    case MoveFile(s, t) => if s in files then Some((files - {s})[t := files[s]]) else None
    case Put(path, text) => Some(files[path := text])
  }

  function DidAll(files: map<string, string>, ops: seq<Op>): Option<map<string, string>> {
    if ops == [] then Some(files)
    else
      match DidAll(files, ops[..|ops| - 1])
      case None => None
      case Some(before) => Did(before, ops[|ops| - 1])
  }

  function MoveOps(planned: seq<Planned>): (ops: seq<Op>)
    ensures |ops| == 2 * |planned|
  {
    if planned == [] then []
    else
      var last := planned[|planned| - 1];
      MoveOps(planned[..|planned| - 1]) + [MakeDir(last.targetDir), MoveFile(last.source, last.target)]
  }

  function ManifestOps(w: World, manifest: string, original: string, records: seq<Record>): seq<Op> {
    (if original != "" then [Put(manifest + ".bak." + w.stamp, original)] else [])
    + [Put(manifest + ".tmp", ManifestText(w.codec, records)), MoveFile(manifest + ".tmp", manifest)]
  }

  /** What planning has decided so far. */
  datatype Plan = Plan(planned: seq<Planned>, skipped: seq<Skipped>, records: seq<Record>, paths: set<string>)

  function Decide(w: World, taken: set<string>, plan: Plan, entry: Entry): Plan {
    var target := TargetPath(w, entry.name);
    if entry.isCollection then plan.(skipped := plan.skipped + [Skipped(entry.name, AlreadyDirectory)])
    else if Extension(entry.name) !in VIDEO_EXTENSIONS then
      plan.(skipped := plan.skipped + [Skipped(entry.name, NotAVideo)])
    else if target in plan.paths then plan.(skipped := plan.skipped + [Skipped(entry.name, InManifest)])
    else if target in taken then plan.(skipped := plan.skipped + [Skipped(entry.name, TargetExists)])
    else
      Plan(plan.planned + [PlanOf(w, entry.name)], plan.skipped,
           plan.records + [RecordFor(w, entry.name)], plan.paths + {target})
  }

  function DecideAll(w: World, taken: set<string>, plan: Plan, entries: seq<Entry>): Plan {
    if entries == [] then plan
    else Decide(w, taken, DecideAll(w, taken, plan, entries[..|entries| - 1]), entries[|entries| - 1])
  }

  function Start(records: seq<Record>): Plan {
    Plan([], [], records, PathsOf(records))
  }

  class Summary {
    var planned: seq<Planned>
    var skipped: seq<Skipped>
    var records: seq<Record>
    var paths: set<string>
    const applied: bool

    constructor (records: seq<Record>, applied: bool)
      ensures View() == Start(records) && this.applied == applied
    {
      planned, skipped, this.records, paths := [], [], records, PathsOf(records);
      this.applied := applied;
    }

    function View(): Plan
      reads this
    {
      Plan(planned, skipped, records, paths)
    }

    method PlanEntry(w: World, store: Store, entry: Entry)
      modifies this
      ensures View() == Decide(w, store.files.Keys + store.dirs, old(View()), entry)
    {
      if entry.isCollection {
        skipped := skipped + [Skipped(entry.name, AlreadyDirectory)];
        return;
      }
      var ext := Extension(entry.name);
      if ext !in VIDEO_EXTENSIONS {
        skipped := skipped + [Skipped(entry.name, NotAVideo)];
        return;
      }
      var target := TargetPath(w, entry.name);
      if target in paths {
        skipped := skipped + [Skipped(entry.name, InManifest)];
        return;
      }
      if store.Has(target) {
        skipped := skipped + [Skipped(entry.name, TargetExists)];
        return;
      }
      planned := planned + [PlanOf(w, entry.name)];
      records := records + [RecordFor(w, entry.name)];
      paths := paths + {target};
    }
  }

  function AllOps(w: World, manifest: string, original: string, plan: Plan): seq<Op> {
    MoveOps(plan.planned) + ManifestOps(w, manifest, original, plan.records)
  }

  lemma {:induction false} MoveOpsAt(planned: seq<Planned>, i: nat)
    requires i < |planned|
    ensures MoveOps(planned)[2 * i] == MakeDir(planned[i].targetDir)
    ensures MoveOps(planned)[2 * i + 1] == MoveFile(planned[i].source, planned[i].target)
  {
    if i < |planned| - 1 { MoveOpsAt(planned[..|planned| - 1], i); }
  }

  lemma DidStep(files: map<string, string>, ops: seq<Op>, n: nat)
    requires n < |ops|
    ensures DidAll(files, ops[..n + 1])
      == if DidAll(files, ops[..n]).None? then None else Did(DidAll(files, ops[..n]).value, ops[n])
  {
    assert ops[..n + 1][..n] == ops[..n];
  }

  lemma DidNothing(files: map<string, string>, ops: seq<Op>)
    ensures DidAll(files, ops[..0]) == Some(files)
  {
  }

  /** Carries out the plan; done counts the requests that went through before one was refused, if one was. */
  method ApplyPlan(w: World, store: Store, manifest: string, original: string, plan: Plan)
    returns (ok: bool, ghost done: nat)
    modifies store
    ensures var ops := AllOps(w, manifest, original, plan);
      && done <= |ops| && DidAll(old(store.files), ops[..done]) == Some(store.files)
      && (if ok then done == |ops| else done < |ops| && DidAll(old(store.files), ops[..done + 1]).None?)
  {
    hide MoveOps, ManifestText, DidAll;
    ghost var before := store.files;
    ghost var ops := AllOps(w, manifest, original, plan);
    assert DidAll(before, ops[..0]) == Some(before) by { DidNothing(before, ops); }
    done := 0;
    for i := 0 to |plan.planned|
      invariant done == 2 * i && DidAll(before, ops[..done]) == Some(store.files)
    {
      MoveOpsAt(plan.planned, i);
      DidStep(before, ops, done);
      DidStep(before, ops, done + 1);
      store.Mkdir(plan.planned[i].targetDir);
      done := done + 1;
      ok := store.Move(plan.planned[i].source, plan.planned[i].target);
      if !ok { return; }
      done := done + 1;
    }
    if original != "" {
      DidStep(before, ops, done);
      store.PutText(manifest + ".bak." + w.stamp, original);
      done := done + 1;
    }
    DidStep(before, ops, done);
    store.PutText(manifest + ".tmp", ManifestText(w.codec, plan.records));
    done := done + 1;
    DidStep(before, ops, done);
    ok := store.Move(manifest + ".tmp", manifest);
    if ok { done := done + 1; }
    assert ok ==> ops[..done] == ops;
  }

  function Read(files: map<string, string>, path: string): string {
    if path in files then files[path] else ""
  }

  datatype Outcome = Malformed | Refused(plan: Plan) | Organized(plan: Plan)

  /** A dry run, and a run with nothing planned, change no file. */
  method RunOrganizer(w: World, store: Store, entries: seq<Entry>, apply: bool, manifest: string)
    returns (r: Outcome, ghost done: nat)
    modifies store
    ensures var files := old(store.files);
      match ReadManifest(w.codec, Read(files, manifest))
      case None => r.Malformed? && store.files == files
      case Some(records) =>
        var plan := DecideAll(w, files.Keys + old(store.dirs), Start(records), entries);
        var ops := AllOps(w, manifest, Read(files, manifest), plan);
        && !r.Malformed? && r.plan == plan
        && (!apply || plan.planned == [] ==> r.Organized? && store.files == files)
        && (apply && plan.planned != [] ==>
              && done <= |ops| && DidAll(files, ops[..done]) == Some(store.files)
              && (if r.Organized? then done == |ops| else done < |ops| && DidAll(files, ops[..done + 1]).None?))
  {
    done := 0;
    var original := Read(store.files, manifest);
    var existing := ReadLines(w.codec, original);
    if existing.None? { return Outcome.Malformed, 0; }
    var summary := new Summary(existing.value, apply);
    ghost var taken := store.files.Keys + store.dirs;
    for i := 0 to |entries|
      invariant summary.View() == DecideAll(w, taken, Start(existing.value), entries[..i])
      invariant store.files == old(store.files) && store.dirs == old(store.dirs)
    {
      assert entries[..i + 1][..i] == entries[..i];
      summary.PlanEntry(w, store, entries[i]);
    }
    assert entries[..|entries|] == entries;
    if apply && summary.planned != [] {
      var ok;
      ok, done := ApplyPlan(w, store, manifest, original, summary.View());
      r := if ok then Organized(summary.View()) else Refused(summary.View());
    } else {
      r := Organized(summary.View());
    }
  }
}
