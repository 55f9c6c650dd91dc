/** Per-stage compute times on a job row (src/kanomori/ingest/job_time_costs.py). */
module TimeCosts {
  import opened Basics
  import opened Stages
  import opened Sorting

  /** One element of the stored JSON list; Junk is anything without a stage and its seconds. */
  datatype Item = Entry(stage: string, cost: real) | Junk

  /** Strings by code point, as Python compares them. */
  predicate StringLeq(a: string, b: string) {
    a == [] || (b != [] && (a[0] < b[0] || (a[0] == b[0] && StringLeq(a[1..], b[1..]))))
  }

  /** Position among the stages, every other name after the last of them. */
  function Position(stage: string): nat {
    match Named(stage) case Some(s) => Index(s) case None => |STAGES|
  }

  predicate Earlier(a: Item, b: Item) {
    match (a, b)
    case (Entry(s, _), Entry(t, _)) =>
      Position(s) < Position(t) || (Position(s) == Position(t) && StringLeq(s, t))
    case (_, Junk) => true
    case (Junk, _) => false
  }

  /** The dictionary the stored list stands for: the last entry of a stage wins. */
  function Latest(items: seq<Item>): map<string, real> {
    if items == [] then map[]
    else
      var before := Latest(items[..|items| - 1]);
      match items[|items| - 1]
      case Entry(stage, cost) => before[stage := cost]
      case Junk => before
  }

  ghost predicate Distinct(entries: seq<Item>) {
    && (forall i | 0 <= i < |entries| :: entries[i].Entry?)
    && (forall i, j | 0 <= i < j < |entries| :: entries[i].stage != entries[j].stage)
  }

  /** A Python dict of entries: an assigned key keeps its place, a new one goes to the end. */
  function Put(entries: seq<Item>, stage: string, cost: real): seq<Item> {
    if entries == [] then [Entry(stage, cost)]
    else if entries[0].Entry? && entries[0].stage == stage then [Entry(stage, cost)] + entries[1..]
    else [entries[0]] + Put(entries[1..], stage, cost)
  }

  function Dict(items: seq<Item>): seq<Item> {
    if items == [] then []
    else
      var before := Dict(items[..|items| - 1]);
      match items[|items| - 1]
      case Entry(stage, cost) => Put(before, stage, cost)
      case Junk => before
  }

  function Merge(existing: seq<Item>, stage: string, seconds: real): seq<Item> {
    StableSort(Put(Dict(existing), stage, Rounded(seconds)), Earlier)
  }

  /** The list is exactly the dictionary m, in pipeline order, each stage once. */
  ghost predicate Lists(items: seq<Item>, m: map<string, real>) {
    && Distinct(items)
    && Sorted(items, Earlier)
    && (forall stage, cost :: Entry(stage, cost) in items <==> stage in m && m[stage] == cost)
  }

  lemma {:induction false} StringLeqTotal(a: string, b: string)
    ensures StringLeq(a, b) || StringLeq(b, a)
    ensures StringLeq(a, b) && StringLeq(b, a) ==> a == b
  {
    if a != [] && b != [] && a[0] == b[0] {
      StringLeqTotal(a[1..], b[1..]);
      assert a == [a[0]] + a[1..] && b == [b[0]] + b[1..];
    }
  }

  lemma {:induction false} StringLeqTransitive(a: string, b: string, c: string)
    requires StringLeq(a, b) && StringLeq(b, c)
    ensures StringLeq(a, c)
  {
    if a != [] && b != [] && c != [] && a[0] == b[0] == c[0] {
      StringLeqTransitive(a[1..], b[1..], c[1..]);
    }
  }

  lemma EarlierIsOrder()
    ensures TotalPreorder(Earlier)
    ensures forall a: Item, b: Item {:trigger Compare(a, b)} ::
      a.Entry? && b.Entry? && Earlier(a, b) && Earlier(b, a) ==> a.stage == b.stage
  {
    forall a, b ensures Earlier(a, b) || Earlier(b, a) {
      if a.Entry? && b.Entry? { StringLeqTotal(a.stage, b.stage); }
    }
    forall a, b, c | Earlier(a, b) && Earlier(b, c) ensures Earlier(a, c) {
      if a.Entry? && b.Entry? && c.Entry? && StringLeq(a.stage, b.stage) && StringLeq(b.stage, c.stage) {
        StringLeqTransitive(a.stage, b.stage, c.stage);
      }
    }
    forall a: Item, b: Item | a.Entry? && b.Entry? && Earlier(a, b) && Earlier(b, a) ensures a.stage == b.stage {
      StringLeqTotal(a.stage, b.stage);
    }
  }

  lemma {:induction false} PutLists(entries: seq<Item>, stage: string, cost: real)
    requires Distinct(entries)
    ensures Distinct(Put(entries, stage, cost))
    ensures forall e :: e in Put(entries, stage, cost) <==>
      e == Entry(stage, cost) || (e in entries && e.stage != stage)
  {
    var r := Put(entries, stage, cost);
    if entries == [] {
    } else if entries[0].stage == stage {
      forall e | e in entries[1..] ensures e in entries && e.stage != stage {
        var i :| 0 <= i < |entries[1..]| && entries[1..][i] == e;
        assert entries[i + 1] == e;
      }
      assert forall e :: e in entries <==> e == entries[0] || e in entries[1..];
    } else {
      PutLists(entries[1..], stage, cost);
      var rest := Put(entries[1..], stage, cost);
      assert forall e :: e in entries <==> e == entries[0] || e in entries[1..];
      forall j | 1 <= j < |r| ensures r[j].Entry? && r[0].stage != r[j].stage {
        assert rest[j - 1] in rest;
        if r[j] in entries[1..] {
          var i :| 0 <= i < |entries[1..]| && entries[1..][i] == r[j];
          assert entries[i + 1] == r[j];
        }
      }
    }
  }

  lemma {:induction false} DictLists(items: seq<Item>)
    ensures Distinct(Dict(items))
    ensures forall stage, cost :: Entry(stage, cost) in Dict(items) <==>
      stage in Latest(items) && Latest(items)[stage] == cost
  {
    if items != [] {
      var n := |items| - 1;
      DictLists(items[..n]);
      if items[n].Entry? { PutLists(Dict(items[..n]), items[n].stage, items[n].cost); }
    }
  }

  /** A merge writes one stage of the dictionary and leaves the list in pipeline order. */
  lemma MergeWritesOneStage(existing: seq<Item>, stage: string, seconds: real)
    ensures Lists(Merge(existing, stage, seconds), Latest(existing)[stage := Rounded(seconds)])
  {
    DictLists(existing);
    PutLists(Dict(existing), stage, Rounded(seconds));
    var put := Put(Dict(existing), stage, Rounded(seconds));
    EarlierIsOrder();
    StableSortIsStable(put, Earlier);
    SortKeepsElements(put, Earlier);
    DistinctSurvivesPermutation(put, StableSort(put, Earlier));
  }

  lemma DistinctSurvivesPermutation(xs: seq<Item>, ys: seq<Item>)
    requires Distinct(xs) && multiset(xs) == multiset(ys)
    ensures Distinct(ys)
  {
    forall i | 0 <= i < |ys| ensures ys[i].Entry? { assert ys[i] in multiset(xs); }
    assert Sorting.Distinct(xs);
    StaysDistinct(xs, ys);
    forall i, j | 0 <= i < j < |ys| ensures ys[i].stage != ys[j].stage {
      assert ys[i] in multiset(xs) && ys[j] in multiset(xs);
    }
  }

  /** The dictionary determines the list, so a list in pipeline order is a canonical form. */
  lemma {:induction false} ListingIsUnique(xs: seq<Item>, ys: seq<Item>, m: map<string, real>)
    requires Lists(xs, m) && Lists(ys, m)
    ensures xs == ys
  {
    EarlierIsOrder();
    SameMembers(xs, ys, m);
  }

  lemma {:induction false} SameMembers(xs: seq<Item>, ys: seq<Item>, m: map<string, real>)
    requires Lists(xs, m) && Lists(ys, m) && TotalPreorder(Earlier)
    ensures xs == ys
    decreases |xs|
  {
    if xs != [] {
      assert xs[0] == Entry(xs[0].stage, xs[0].cost) && xs[0] in ys;
      assert ys[0] == Entry(ys[0].stage, ys[0].cost) && ys[0] in xs;
      assert xs[0] == ys[0] || (Earlier(xs[0], ys[0]) && Earlier(ys[0], xs[0]));
      StringLeqTotal(xs[0].stage, ys[0].stage);
      ListsTail(xs, m);
      ListsTail(ys, m);
      SameMembers(xs[1..], ys[1..], m - {xs[0].stage});
      assert xs == [xs[0]] + xs[1..] && ys == [ys[0]] + ys[1..];
    }
  }

  lemma ListsTail(xs: seq<Item>, m: map<string, real>)
    requires Lists(xs, m) && xs != []
    ensures Lists(xs[1..], m - {xs[0].stage})
  {
    assert forall e :: e in xs <==> e == xs[0] || e in xs[1..];
    forall e | e in xs[1..] ensures e.Entry? && e.stage != xs[0].stage {
      var i :| 0 <= i < |xs[1..]| && xs[1..][i] == e;
      assert xs[i + 1] == e;
    }
    assert xs[0] == Entry(xs[0].stage, xs[0].cost);
  }

  /** Reading a canonical list back gives its dictionary. */
  lemma {:induction false} LatestOfListing(xs: seq<Item>, m: map<string, real>)
    requires Lists(xs, m)
    ensures Latest(xs) == m
  {
    LatestOfDistinct(xs);
    forall stage ensures stage in m <==> stage in Latest(xs) {
      if stage in m { assert Entry(stage, m[stage]) in xs; }
      if stage in Latest(xs) { assert Entry(stage, Latest(xs)[stage]) in xs; }
    }
    forall stage | stage in m ensures Latest(xs)[stage] == m[stage] {
      assert Entry(stage, m[stage]) in xs;
    }
  }

  lemma {:induction false} LatestOfDistinct(xs: seq<Item>)
    requires Distinct(xs)
    ensures forall stage, cost :: Entry(stage, cost) in xs <==>
      stage in Latest(xs) && Latest(xs)[stage] == cost
  {
    if xs != [] {
      var n := |xs| - 1;
      LatestOfDistinct(xs[..n]);
      assert xs == xs[..n] + [xs[n]];
      forall e | e in xs[..n] ensures e.stage != xs[n].stage {
        var i :| 0 <= i < n && xs[..n][i] == e;
      }
    }
  }

  datatype Report = Report(stage: string, seconds: real)

  function MergeAll(existing: seq<Item>, reports: seq<Report>): seq<Item> {
    if reports == [] then existing
    else
      var last := reports[|reports| - 1];
      Merge(MergeAll(existing, reports[..|reports| - 1]), last.stage, last.seconds)
  }

  function Overwrites(m: map<string, real>, reports: seq<Report>): map<string, real> {
    if reports == [] then m
    else
      var last := reports[|reports| - 1];
      Overwrites(m, reports[..|reports| - 1])[last.stage := Rounded(last.seconds)]
  }

  /** After any run of merges the list is the last-write-wins map, once per stage, in pipeline order. */
  lemma {:induction false} MergesAreLastWriteWins(existing: seq<Item>, reports: seq<Report>)
    requires reports != []
    ensures Lists(MergeAll(existing, reports), Overwrites(Latest(existing), reports))
  {
    var n := |reports| - 1;
    var before := MergeAll(existing, reports[..n]);
    if n > 0 {
      MergesAreLastWriteWins(existing, reports[..n]);
      LatestOfListing(before, Overwrites(Latest(existing), reports[..n]));
    }
    MergeWritesOneStage(before, reports[n].stage, reports[n].seconds);
  }

  /** Merges of different stages commute, as lists and not only as dictionaries. */
  lemma MergesCommute(existing: seq<Item>, a: Report, b: Report)
    requires a.stage != b.stage
    ensures MergeAll(existing, [a, b]) == MergeAll(existing, [b, a])
  {
    hide MergeAll, Lists, Latest, Rounded;
    MergesAreLastWriteWins(existing, [a, b]);
    MergesAreLastWriteWins(existing, [b, a]);
    var m := Latest(existing);
    assert [a, b][..1] == [a] && [b, a][..1] == [b] && [a][..0] == [] && [b][..0] == [];
    assert Overwrites(m, [a]) == m[a.stage := Rounded(a.seconds)];
    assert Overwrites(m, [b]) == m[b.stage := Rounded(b.seconds)];
    assert Overwrites(m, [a, b]) == Overwrites(m, [b, a]);
    ListingIsUnique(MergeAll(existing, [a, b]), MergeAll(existing, [b, a]), Overwrites(m, [a, b]));
  }

  /** The function as the source writes it: fill a dictionary, overwrite one key, sort the values. */
  method MergeTimeCosts(existing: Option<seq<Item>>, stage: string, seconds: real) returns (merged: seq<Item>)
    ensures var stored := if existing.Some? then existing.value else [];
      merged == Merge(stored, stage, seconds) && Lists(merged, Latest(stored)[stage := Rounded(seconds)])
  {
    var items := if existing.Some? then existing.value else [];
    var entries: seq<Item> := [];
    for i := 0 to |items|
      invariant entries == Dict(items[..i])
    {
      assert items[..i + 1][..i] == items[..i];
      if items[i].Entry? {
        entries := Put(entries, items[i].stage, items[i].cost);
      }
    }
    assert items[..|items|] == items;
    entries := Put(entries, stage, Rounded(seconds));
    merged := StableSort(entries, Earlier);
    MergeWritesOneStage(items, stage, seconds);
  }

  // The order of the listing

  /** Strings are compared at their first difference, and a prefix comes first. */
  lemma {:induction false} FirstDifference(p: string, c: char, d: char, x: string, y: string)
    ensures c != d ==> (StringLeq(p + [c] + x, p + [d] + y) <==> c < d)
    ensures StringLeq(p, p + x)
    ensures x != "" ==> !StringLeq(p + x, p)
  {
    if p != "" {
      var q := p[1..];
      assert (p + [c] + x)[1..] == q + [c] + x && (p + [d] + y)[1..] == q + [d] + y && (p + x)[1..] == q + x;
      FirstDifference(q, c, d, x, y);
    }
  }

  /** In a listing the stages come in pipeline order, unknown names after all of them and by name. */
  lemma ListedInPipelineOrder(items: seq<Item>, m: map<string, real>, i: nat, j: nat)
    requires Lists(items, m) && i < j < |items|
    ensures var (a, b) := (Named(items[i].stage), Named(items[j].stage));
      && (a.Some? && b.Some? ==> Index(a.value) < Index(b.value))
      && (b.Some? ==> a.Some?)
      && (a.None? && b.None? ==> StringLeq(items[i].stage, items[j].stage))
  {
    hide StringLeq;
    EarlierIsOrder();
    SortedAt(items, Earlier, i, j);
    assert items[i].Entry? && items[j].Entry?;
    var (a, b) := (Named(items[i].stage), Named(items[j].stage));
    if a.Some? && b.Some? {
      NamesAreTheirs(items[i].stage);
      NamesAreTheirs(items[j].stage);
      assert STAGES[Index(a.value)] == a.value && STAGES[Index(b.value)] == b.value;
    }
  }

  lemma NamesAreTheirs(stage: string)
    ensures Named(stage).Some? ==> Name(Named(stage).value) == stage
  {
  }

  /** The names of the stages, as the rows and the wire have them, in pipeline order. */
  lemma PipelineOrder(s: Stage)
    ensures Name(s) == ["register", "locate_media", "transcribe", "parse_transcript",
                        "frames", "ocr", "classify", "image_embed"][Index(s)]
    ensures Named(Name(s)) == Some(s)
  {
  }

  /** Of several entries of a stage the last one counts, and junk counts for nothing. */
  lemma LatestIsLast(items: seq<Item>, stage: string, cost: real)
    ensures Latest(items + [Entry(stage, cost)]) == Latest(items)[stage := cost]
    ensures Latest(items + [Junk]) == Latest(items) && Latest([]) == map[]
  {
    assert (items + [Entry(stage, cost)])[..|items|] == items && (items + [Junk])[..|items|] == items;
  }
}
