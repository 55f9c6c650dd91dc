/** Frame file names, printed and parsed, and the directory listing (src/kanomori/ingest/artifacts.py). */
module Artifacts {
  import opened Basics
  import opened Rows
  import opened Sorting
  import opened Stages
  import Frames
  import Pipeline

  const DIGITS := "0123456789"

  function Decimal(n: nat): (s: string)
    ensures s != [] && forall c | c in s :: c in DIGITS
  {
    if n < 10 then [DIGITS[n]] else Decimal(n / 10) + [DIGITS[n % 10]]
  }

  function Zeros(n: nat): (s: string)
    ensures |s| == n && forall c | c in s :: c == '0'
  {
    if n == 0 then "" else ['0'] + Zeros(n - 1)
  }

  /** Python's f"{n:0widthd}" for n >= 0: at least width digits, and as many as n needs. */
  function Padded(n: nat, width: nat): (s: string)
    ensures s != [] && |s| >= width && forall c | c in s :: c in DIGITS
  {
    var s := Decimal(n);
    (if |s| < width then Zeros(width - |s|) else "") + s
  }

  function FrameName(ms: nat): string {
    "frame_" + Padded(ms / 1000, 6) + "_" + Padded(ms % 1000, 3) + ".jpg"
  }

  /** The name for a timestamp in seconds. */
  function FrameNameAt(ts: real): string {
    var totalMs := RoundHalfEven(ts * 1000.0);
    FrameName(if totalMs < 0 then 0 else totalMs)
  }

  function Split(s: string, sep: char): (parts: seq<string>)
    ensures parts != []
  {
    if s == "" then [""]
    else
      var rest := Split(s[1..], sep);
      if s[0] == sep then [""] + rest else [[s[0]] + rest[0]] + rest[1..]
  }

  function DigitValue(c: char): (d: Option<nat>)
    ensures d.Some? <==> c in DIGITS
    ensures d.Some? ==> d.value < 10 && DIGITS[d.value] == c
  {
    if '0' <= c <= '9' then
      assert c == DIGITS[c as int - '0' as int];
      Some(c as int - '0' as int)
    else None
  }

  /** int() of a run of digits; None stands for ValueError. */
  function ParseNat(s: string): Option<nat> {
    if s == "" then None
    else
      var n := |s| - 1;
      match DigitValue(s[n])
      case None => None
      case Some(d) =>
        if n == 0 then Some(d)
        else
          match ParseNat(s[..n])
          case None => None
          case Some(high) => Some(10 * high + d)
  }

  function RemoveSuffix(s: string, suffix: string): string {
    if |suffix| <= |s| && s[|s| - |suffix|..] == suffix then s[..|s| - |suffix|] else s
  }

  function TsFromFrameName(name: string): Option<Ms> {
    var parts := Split(RemoveSuffix(name, ".jpg"), '_');
    if |parts| != 3 then None
    else
      match (ParseNat(parts[1]), ParseNat(parts[2]))
      case (Some(seconds), Some(millis)) => Some(seconds * 1000 + millis)
      case _ => None
  }

  lemma {:induction false} DecimalParses(n: nat)
    ensures ParseNat(Decimal(n)) == Some(n)
  {
    if n >= 10 {
      DecimalParses(n / 10);
      var s := Decimal(n);
      assert s[..|s| - 1] == Decimal(n / 10) && s[|s| - 1] == DIGITS[n % 10];
      DigitParses(n % 10);
    } else {
      DigitParses(n);
    }
  }

  lemma DigitParses(d: nat)
    requires d < 10
    ensures DigitValue(DIGITS[d]) == Some(d)
  {
    assert DIGITS[d] as int == '0' as int + d;
  }

  /** Reading one digit more. */
  function Appended(high: Option<nat>, d: Option<nat>): Option<nat> {
    if high.Some? && d.Some? then Some(10 * high.value + d.value) else None
  }

  lemma ParseNatStep(s: string, c: char)
    ensures ParseNat(s + [c]) == if s == "" then DigitValue(c) else Appended(ParseNat(s), DigitValue(c))
  {
    assert (s + [c])[..|s|] == s;
  }

  lemma ZerosThenDigit(zeros: nat, c: char)
    ensures ParseNat(Zeros(zeros) + [c]) == DigitValue(c)
  {
    hide ParseNat, DigitValue;
    ParseNatStep(Zeros(zeros), c);
    if zeros > 0 { ZerosAreZero(zeros); }
  }

  lemma {:induction false} ZerosParse(zeros: nat, s: string)
    requires s != []
    ensures ParseNat(Zeros(zeros) + s) == ParseNat(s)
  {
    hide ParseNat, DigitValue, Zeros;
    var (front, c) := (s[..|s| - 1], s[|s| - 1]);
    assert s == front + [c];
    ParseNatStep(front, c);
    if front == "" {
      assert s == [c];
      ZerosThenDigit(zeros, c);
    } else {
      ZerosParse(zeros, front);
      ParseNatStep(Zeros(zeros) + front, c);
      assert Zeros(zeros) + s == Zeros(zeros) + front + [c];
    }
  }

  lemma {:induction false} ZerosAreZero(n: nat)
    requires n > 0
    ensures ParseNat(Zeros(n)) == Some(0)
  {
    var s := Zeros(n);
    assert s[n - 1] in s;
    if n > 1 {
      assert s[..n - 1] == Zeros(n - 1) by { ZerosPrefix(n); }
      ZerosAreZero(n - 1);
    }
  }

  lemma {:induction false} ZerosPrefix(n: nat)
    requires n > 0
    ensures Zeros(n)[..n - 1] == Zeros(n - 1)
  {
    var (a, b) := (Zeros(n)[..n - 1], Zeros(n - 1));
    forall i | 0 <= i < n - 1 ensures a[i] == b[i] { assert Zeros(n)[i] in Zeros(n) && b[i] in b; }
  }

  lemma PaddedParses(n: nat, width: nat)
    ensures ParseNat(Padded(n, width)) == Some(n)
  {
    var s := Decimal(n);
    DecimalParses(n);
    if |s| < width { ZerosParse(width - |s|, s); } else { assert "" + s == s; }
  }

  lemma {:induction false} SplitPlain(s: string, sep: char)
    requires sep !in s
    ensures Split(s, sep) == [s]
  {
    if s != "" {
      SplitPlain(s[1..], sep);
      assert s[0] in s && [s[0]] + s[1..] == s;
    }
  }

  lemma {:induction false} SplitJoined(s: string, rest: string, sep: char)
    requires sep !in s
    ensures Split(s + [sep] + rest, sep) == [s] + Split(rest, sep)
  {
    var all := s + [sep] + rest;
    if s == "" {
      assert all[1..] == rest;
    } else {
      SplitJoined(s[1..], rest, sep);
      assert all[1..] == s[1..] + [sep] + rest;
      assert all[0] == s[0] && s[0] in s && [s[0]] + s[1..] == s;
    }
  }

  lemma StemSplits(seconds: string, millis: string)
    requires '_' !in seconds && '_' !in millis
    ensures Split("frame_" + seconds + "_" + millis, '_') == ["frame", seconds, millis]
  {
    hide Split;
    var tail := seconds + ['_'] + millis;
    assert "frame_" + seconds + "_" + millis == "frame" + ['_'] + tail;
    SplitJoined("frame", tail, '_');
    SplitJoined(seconds, millis, '_');
    SplitPlain(millis, '_');
  }

  lemma SuffixRemoved(stem: string)
    ensures RemoveSuffix(stem + ".jpg", ".jpg") == stem
  {
  }

  /** Every frame name reads back as the millisecond it was printed for, however many digits the seconds take. */
  lemma NamesRoundTrip(ms: nat)
    ensures TsFromFrameName(FrameName(ms)) == Some(ms)
  {
    hide Split, RemoveSuffix, Padded, ParseNat;
    var (seconds, millis) := (Padded(ms / 1000, 6), Padded(ms % 1000, 3));
    assert '_' !in DIGITS;
    StemSplits(seconds, millis);
    SuffixRemoved("frame_" + seconds + "_" + millis);
    PaddedParses(ms / 1000, 6);
    PaddedParses(ms % 1000, 3);
    assert ms / 1000 * 1000 + ms % 1000 == ms;
  }

  /** Different milliseconds have different names. */
  lemma NamesAreDistinct(a: nat, b: nat)
    requires FrameName(a) == FrameName(b)
    ensures a == b
  {
    NamesRoundTrip(a);
    NamesRoundTrip(b);
  }

  /** A timestamp that is a whole number of milliseconds names the frame of that millisecond; a negative one, 0. */
  lemma NameOfMillisecond(ms: int)
    ensures FrameNameAt(ms as real / 1000.0) == FrameName(if ms < 0 then 0 else ms)
  {
    assert ms as real / 1000.0 * 1000.0 == ms as real;
  }

  // Listing

  type Found = (Ms, string)

  predicate Earlier(a: Found, b: Found) { a.0 <= b.0 }

  /** The glob frame_*.jpg. */
  predicate IsFrameFile(name: string) {
    |name| >= 10 && name[..6] == "frame_" && name[|name| - 4..] == ".jpg"
  }

  /** The pairs in listing order; None when a matching name does not parse. */
  function Pairs(listing: seq<string>): Option<seq<Found>> {
    if listing == [] then Some([])
    else
      var last := listing[|listing| - 1];
      match Pairs(listing[..|listing| - 1])
      case None => None
      case Some(before) =>
        if !IsFrameFile(last) then Some(before)
        else
          match TsFromFrameName(last)
          case None => None
          case Some(ts) => Some(before + [(ts, last)])
  }

  function OnDisk(listing: seq<string>): Option<seq<Found>> {
    match Pairs(listing)
    case None => None
    case Some(pairs) => Some(StableSort(pairs, Earlier))
  }

  method FramesOnDisk(listing: seq<string>) returns (frames: Option<seq<Found>>)
    ensures frames == OnDisk(listing)
  {
    var pairs: seq<Found> := [];
    for i := 0 to |listing|
      invariant Pairs(listing[..i]) == Some(pairs)
    {
      assert listing[..i + 1][..i] == listing[..i];
      if IsFrameFile(listing[i]) {
        var ts := TsFromFrameName(listing[i]);
        if ts.None? {
          PairsFail(listing, i + 1);
          return None;
        }
        pairs := pairs + [(ts.value, listing[i])];
      }
    }
    assert listing[..|listing|] == listing;
    frames := Some(StableSort(pairs, Earlier));
  }

  lemma {:induction false} PairsFail(listing: seq<string>, n: nat)
    requires n <= |listing| && Pairs(listing[..n]).None?
    ensures Pairs(listing).None?
  {
    if n == |listing| {
      assert listing[..n] == listing;
    } else {
      PairsFail(listing[..|listing| - 1], n) by { assert listing[..|listing| - 1][..n] == listing[..n]; }
    }
  }

  /** The pairs of a plan, in its order. */
  function Planned(plan: seq<Ms>): seq<Found>
    requires forall i | 0 <= i < |plan| :: plan[i] >= 0
  {
    seq(|plan|, i requires 0 <= i < |plan| => (plan[i], FrameName(plan[i])))
  }

  /** Do the times strictly ascend? */
  ghost predicate Ascends(ys: seq<Found>) {
    forall i, j | 0 <= i < j < |ys| :: ys[i].0 < ys[j].0
  }

  lemma SameHead(xs: seq<Found>, ys: seq<Found>)
    requires xs != [] && ys != [] && Sorted(xs, Earlier) && Ascends(ys) && multiset(xs) == multiset(ys)
    ensures xs[0] == ys[0]
  {
    assert ys[0] in multiset(xs) && xs[0] in multiset(ys);
    var i :| 0 <= i < |ys| && ys[i] == xs[0];
    var j :| 0 <= j < |xs| && xs[j] == ys[0];
    if j > 0 { assert xs[j] in xs[1..]; }
    assert xs[0].0 <= ys[0].0;
  }

  lemma {:induction false} SortedPermutation(xs: seq<Found>, ys: seq<Found>)
    requires Sorted(xs, Earlier) && Ascends(ys) && multiset(xs) == multiset(ys)
    ensures xs == ys
    decreases |ys|
  {
    assert |xs| == |multiset(xs)| == |multiset(ys)| == |ys|;
    if ys != [] {
      SameHead(xs, ys);
      SameMultisetOfTail(xs, ys);
      assert Sorted(xs[1..], Earlier) && Ascends(ys[1..]);
      hide Sorted, Ascends;
      SortedPermutation(xs[1..], ys[1..]);
      assert xs == [xs[0]] + xs[1..] && ys == [ys[0]] + ys[1..];
    }
  }

  /** The directory holds the names of the plan, each once, and nothing else the glob matches. */
  ghost predicate Holds(listing: seq<string>, plan: seq<Ms>) {
    && (forall i | 0 <= i < |plan| :: plan[i] >= 0)
    && multiset(FrameFiles(listing)) == multiset(Names(plan))
  }

  function FrameFiles(listing: seq<string>): seq<string> {
    if listing == [] then []
    else
      var last := listing[|listing| - 1];
      FrameFiles(listing[..|listing| - 1]) + (if IsFrameFile(last) then [last] else [])
  }

  function Names(plan: seq<Ms>): seq<string>
    requires forall i | 0 <= i < |plan| :: plan[i] >= 0
  {
    seq(|plan|, i requires 0 <= i < |plan| => FrameName(plan[i]))
  }

  lemma {:induction false} PairsOfNames(listing: seq<string>)
    requires forall name | name in FrameFiles(listing) :: TsFromFrameName(name).Some?
    ensures Pairs(listing) == Some(Read(FrameFiles(listing)))
  {
    hide TsFromFrameName, IsFrameFile;
    if listing != [] {
      var (rest, last) := (listing[..|listing| - 1], listing[|listing| - 1]);
      var files := FrameFiles(listing);
      forall name | name in FrameFiles(rest) ensures name in files {}
      PairsOfNames(rest);
      if IsFrameFile(last) {
        assert files == FrameFiles(rest) + [last] && last in files;
        assert files[..|files| - 1] == FrameFiles(rest) && files[|files| - 1] == last;
        assert Read(files) == Read(FrameFiles(rest)) + [(TsFromFrameName(last).value, last)];
      } else {
        assert files == FrameFiles(rest);
      }
    }
  }

  function Read(names: seq<string>): seq<Found> {
    if names == [] then []
    else
      var last := names[|names| - 1];
      Read(names[..|names| - 1]) + (match TsFromFrameName(last) case Some(ts) => [(ts, last)] case None => [])
  }

  lemma {:induction false} ReadCounts(names: seq<string>, ts: Ms, name: string)
    ensures multiset(Read(names))[(ts, name)] == if TsFromFrameName(name) == Some(ts) then multiset(names)[name] else 0
  {
    if names != [] {
      assert names == names[..|names| - 1] + [names[|names| - 1]];
      ReadCounts(names[..|names| - 1], ts, name);
    }
  }

  lemma ReadOfPermutation(a: seq<string>, b: seq<string>)
    requires multiset(a) == multiset(b)
    ensures multiset(Read(a)) == multiset(Read(b))
  {
    forall found: Found ensures multiset(Read(a))[found] == multiset(Read(b))[found] {
      ReadCounts(a, found.0, found.1);
      ReadCounts(b, found.0, found.1);
    }
  }

  lemma {:induction false} ReadOfNames(plan: seq<Ms>)
    requires forall i | 0 <= i < |plan| :: plan[i] >= 0
    ensures Read(Names(plan)) == Planned(plan)
  {
    hide TsFromFrameName, FrameName;
    if plan != [] {
      var n := |plan| - 1;
      ReadOfNames(plan[..n]);
      NamesRoundTrip(plan[n]);
      assert Names(plan)[..n] == Names(plan[..n]);
      assert Planned(plan) == Planned(plan[..n]) + [(plan[n], FrameName(plan[n]))];
    }
  }

  lemma EarlierOrders()
    ensures TotalPreorder(Earlier)
  {
    forall a: Found, b: Found ensures Earlier(a, b) || Earlier(b, a) {}
    forall a: Found, b: Found, c: Found | Earlier(a, b) && Earlier(b, c) ensures Earlier(a, c) {}
  }

  /** Whatever order the directory lists this run's frames in, they come back as exactly the plan, in order. */
  lemma FramesComeBackAsPlanned(listing: seq<string>, plan: seq<Ms>)
    requires Holds(listing, plan) && forall i, j | 0 <= i < j < |plan| :: plan[i] < plan[j]
    ensures OnDisk(listing) == Some(Planned(plan))
  {
    hide TsFromFrameName, FrameName, FrameFiles, Read, Pairs;
    forall name | name in FrameFiles(listing) ensures TsFromFrameName(name).Some? {
      assert name in multiset(FrameFiles(listing)) && name in multiset(Names(plan));
      var i :| 0 <= i < |plan| && Names(plan)[i] == name;
      NamesRoundTrip(plan[i]);
    }
    PairsOfNames(listing);
    ReadOfPermutation(FrameFiles(listing), Names(plan));
    ReadOfNames(plan);
    EarlierOrders();
    StableSortIsStable(Pairs(listing).value, Earlier);
    SortedPermutation(StableSort(Pairs(listing).value, Earlier), Planned(plan));
  }

  /** So rows keyed by a listed frame's timestamp find their frame: OCR and embeddings never miss. */
  lemma ListedRowsFindTheirFrames(
    listing: seq<string>, plan: seq<Ms>, rows: VideoRows, texts: seq<OcrRow>, embeds: seq<EmbedRow>)
    requires Holds(listing, plan) && forall i, j | 0 <= i < j < |plan| :: plan[i] < plan[j]
    requires OnDisk(listing).Some?
    requires forall t | t in texts :: exists f | f in OnDisk(listing).value :: f.0 == t.ts
    requires forall e | e in embeds :: exists f | f in OnDisk(listing).value :: f.0 == e.ts
    ensures var framed := Persisted(rows, FramesResult(plan));
      && framed.Some?
      && Persisted(framed.value, OcrResult(texts)).Some?
      && forall e | e in embeds :: e.ts in framed.value.frames
  {
    FramesComeBackAsPlanned(listing, plan);
    var framed := Persisted(rows, FramesResult(plan)).value;
    forall f | f in Planned(plan) ensures f.0 in framed.frames {
      var i :| 0 <= i < |plan| && Planned(plan)[i] == f;
      assert plan[i] in plan;
    }
  }

  /** The plan of a video: its names are distinct and its listing is its plan. */
  lemma PlannedFramesComeBack(listing: seq<string>, duration: real, scenes: seq<real>, interval: real)
    requires duration > 0.0 && interval > 0.0
    requires Holds(listing, Frames.Plan(duration, scenes, interval))
    ensures OnDisk(listing) == Some(Planned(Frames.Plan(duration, scenes, interval)))
  {
    Frames.PlanThinsSamples(duration, scenes, interval);
    FramesComeBackAsPlanned(listing, Frames.Plan(duration, scenes, interval));
  }

  ghost predicate Climbs(a: seq<Ms>) {
    forall i, j | 0 <= i < j < |a| :: a[i] < a[j]
  }

  lemma HeadIsLeast(a: seq<Ms>, b: seq<Ms>)
    requires Climbs(a) && Climbs(b) && a != [] && b != [] && (forall t :: t in a <==> t in b)
    ensures a[0] == b[0]
  {
    assert a[0] in a && b[0] in b;
    var i :| 0 <= i < |a| && a[i] == b[0];
    var j :| 0 <= j < |b| && b[j] == a[0];
  }

  lemma TailMembers(a: seq<Ms>)
    requires Climbs(a) && a != []
    ensures Climbs(a[1..]) && forall t :: t in a[1..] <==> t in a && t != a[0]
  {
    var rest := a[1..];
    forall i, j | 0 <= i < j < |rest| ensures rest[i] < rest[j] { assert a[i + 1] < a[j + 1]; }
    forall t ensures t in rest <==> t in a && t != a[0] {
      if t in rest { var i :| 0 <= i < |rest| && rest[i] == t; assert a[i + 1] == t; }
      if t in a && t != a[0] { var i :| 0 <= i < |a| && a[i] == t; assert rest[i - 1] == t; }
    }
  }

  lemma NothingShared(a: seq<Ms>, b: seq<Ms>)
    requires forall t :: t in a <==> t in b
    ensures b == [] ==> a == []
  {
    if a != [] {
      var first := a[0];
      assert first in a && first in b;
    }
  }

  /** An ascending list is determined by its members. */
  lemma {:induction false} AscendingIsUnique(a: seq<Ms>, b: seq<Ms>)
    requires Climbs(a) && Climbs(b) && (forall t :: t in a <==> t in b)
    ensures a == b
  {
    NothingShared(a, b);
    NothingShared(b, a);
    if a != [] && b != [] {
      hide Climbs;
      HeadIsLeast(a, b);
      TailMembers(a);
      TailMembers(b);
      AscendingIsUnique(a[1..], b[1..]);
      assert a == [a[0]] + a[1..] && b == [b[0]] + b[1..];
    }
  }

  /** The pipeline's view of the frames, a set shown in order, is the planner's list and the directory's listing. */
  lemma PipelineSeesThePlan(listing: seq<string>, duration: real, scenes: seq<real>, interval: real)
    requires duration > 0.0 && interval > 0.0
    requires Holds(listing, Frames.Plan(duration, scenes, interval))
    ensures var plan := Frames.Plan(duration, scenes, interval);
      && Pipeline.Ascending(set t | t in plan) == plan
      && OnDisk(listing) == Some(Planned(Pipeline.Ascending(set t | t in plan)))
  {
    var plan := Frames.Plan(duration, scenes, interval);
    Frames.PlanThinsSamples(duration, scenes, interval);
    AscendingIsUnique(Pipeline.Ascending(set t | t in plan), plan);
    PlannedFramesComeBack(listing, duration, scenes, interval);
  }

  // What the names look like

  function Tens(n: nat): (p: nat)
    ensures p > 0
  {
    if n == 0 then 1 else 10 * Tens(n - 1)
  }

  lemma {:induction false} DecimalIsShort(n: nat, width: nat)
    requires width > 0 && n < Tens(width)
    ensures |Decimal(n)| <= width
  {
    if n >= 10 {
      assert width > 1;
      DecimalIsShort(n / 10, width - 1);
    }
  }

  lemma PaddedFits(n: nat, width: nat)
    requires width > 0 && n < Tens(width)
    ensures |Padded(n, width)| == width
  {
    DecimalIsShort(n, width);
  }

  /** Below a million seconds a name is frame_, six digits, an underscore, three digits and .jpg. */
  lemma NamesHaveOneShape(ms: nat)
    requires ms < 1000000000
    ensures var name := FrameName(ms);
      && |name| == 20 && name[..6] == "frame_" && name[12] == '_' && name[16..] == ".jpg"
      && ParseNat(name[6..12]) == Some(ms / 1000) && ParseNat(name[13..16]) == Some(ms % 1000)
  {
    hide Padded, ParseNat;
    assert Tens(3) == 1000 && Tens(6) == 1000000;
    PaddedFits(ms / 1000, 6);
    PaddedFits(ms % 1000, 3);
    PaddedParses(ms / 1000, 6);
    PaddedParses(ms % 1000, 3);
    var (a, b, name) := (Padded(ms / 1000, 6), Padded(ms % 1000, 3), FrameName(ms));
    assert name == "frame_" + a + "_" + b + ".jpg";
    assert name[6..12] == a && name[13..16] == b;
  }

  /** What the glob takes, whatever stands between. */
  lemma GlobTakes(name: string)
    ensures IsFrameFile(name) <==> exists middle :: name == "frame_" + middle + ".jpg"
  {
    if IsFrameFile(name) {
      var middle := name[6..|name| - 4];
      assert name == name[..6] + middle + name[|name| - 4..];
    }
  }

  predicate AllDigits(s: string) {
    forall i | 0 <= i < |s| :: '0' <= s[i] <= '9'
  }

  /** Runs of digits are numbers, and nothing else is. */
  lemma {:induction false} DigitsAreNumbers(s: string)
    ensures ParseNat(s).Some? <==> s != "" && AllDigits(s)
  {
    hide ParseNat;
    if s == "" {
      NoDigits();
    } else {
      var n := |s| - 1;
      assert s == s[..n] + [s[n]];
      ParseNatStep(s[..n], s[n]);
      DigitsAreNumbers(s[..n]);
    }
  }

  lemma NoDigits()
    ensures ParseNat("").None?
  {
  }

  /** A matching name is a frame's exactly when two runs of digits stand in it, whatever their lengths: seconds and
      milliseconds. More or fewer parts, or anything but digits, raise. */
  lemma WhatNamesMean(a: string, b: string, more: string)
    requires '_' !in a && '_' !in b && '_' !in more
    ensures TsFromFrameName("frame_" + a + "_" + b + ".jpg").Some? <==> a != "" && AllDigits(a) && b != "" && AllDigits(b)
    ensures match (ParseNat(a), ParseNat(b))
      case (Some(seconds), Some(millis)) => TsFromFrameName("frame_" + a + "_" + b + ".jpg") == Some(seconds * 1000 + millis)
      case _ => true
    ensures TsFromFrameName("frame_" + a + ".jpg") == None
    ensures TsFromFrameName("frame_" + a + "_" + b + "_" + more + ".jpg") == None
  {
    hide Split, RemoveSuffix, ParseNat;
    DigitsAreNumbers(a);
    DigitsAreNumbers(b);
    StemSplits(a, b);
    SuffixRemoved("frame_" + a + "_" + b);
    assert "frame_" + a == "frame" + ['_'] + a;
    SplitJoined("frame", a, '_');
    SplitPlain(a, '_');
    SuffixRemoved("frame_" + a);
    FourParts(a, b, more);
    SuffixRemoved("frame_" + a + "_" + b + "_" + more);
  }

  lemma FourParts(a: string, b: string, more: string)
    requires '_' !in a && '_' !in b && '_' !in more
    ensures Split("frame_" + a + "_" + b + "_" + more, '_') == ["frame", a, b, more]
  {
    hide Split;
    var rest := b + ['_'] + more;
    var tail := a + ['_'] + rest;
    assert "frame_" + a + "_" + b + "_" + more == "frame" + ['_'] + tail;
    SplitJoined("frame", tail, '_');
    SplitJoined(a, rest, '_');
    SplitJoined(b, more, '_');
    SplitPlain(more, '_');
  }

  lemma OneNameMore(names: seq<string>, name: string)
    requires IsFrameFile(name)
    ensures FrameFiles(names + [name]) == FrameFiles(names) + [name]
  {
    hide IsFrameFile;
    assert (names + [name])[..|names|] == names;
  }

  /** A directory that this run alone has written, listed in whatever order, is such a directory. */
  lemma {:induction false} OwnNamesHold(plan: seq<Ms>)
    requires forall i | 0 <= i < |plan| :: plan[i] >= 0
    ensures FrameFiles(Names(plan)) == Names(plan) && Holds(Names(plan), plan)
  {
    hide FrameFiles, FrameName, IsFrameFile;
    if plan != [] {
      var n := |plan| - 1;
      OwnNamesHold(plan[..n]);
      NamesMatch(plan[n]);
      OneNameMore(Names(plan[..n]), FrameName(plan[n]));
      assert Names(plan) == Names(plan[..n]) + [FrameName(plan[n])];
    } else {
      assert Names(plan) == [];
      NoFiles();
    }
  }

  lemma NoFiles()
    ensures FrameFiles([]) == []
  {
  }

  lemma NamesMatch(ms: nat)
    ensures IsFrameFile(FrameName(ms))
  {
    hide IsFrameFile, Padded;
    GlobTakes(FrameName(ms));
    var middle := Padded(ms / 1000, 6) + "_" + Padded(ms % 1000, 3);
    assert FrameName(ms) == "frame_" + middle + ".jpg";
  }
}
