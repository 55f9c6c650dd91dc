/** The scene-aware merge of candidates into moments (src/kanomori/retrieval/merge.py). */
module Merge {
  import opened Basics
  import opened Candidates
  import opened Sorting
  import opened Fusion
  import opened FusionLaws

  const RRF_K := 60

  type Bucket = (nat, int)

  datatype Hit = Hit(video: nat, ts: real, score: real, scene: Option<string>, why: map<Modality, real>)
  datatype Merged = Hits(hits: seq<Hit>) | ZeroDivisionError

  datatype Profile = Profile(spoken: real, written: real, visual: real, scenery: real, audio: real) {
    function Of(m: Modality): real {
      match m
      case Spoken => spoken
      case Written => written
      case Visual => visual
      case Scene => scenery
      case Audio => audio
    }
  }

  type Weights = p: Profile |
    p.spoken >= 0.0 && p.written >= 0.0 && p.visual >= 0.0 && p.scenery >= 0.0 && p.audio >= 0.0
    witness Profile(1.0, 1.0, 1.0, 1.0, 0.0)

  /** A scene without a profile of its own, and no scene, take the default. */
  function ProfileOf(scene: Option<string>): Weights {
    if scene == Some("chatting") then Profile(1.6, 1.0, 0.6, 0.5, 0.0)
    else if scene == Some("gaming") then Profile(0.8, 1.1, 1.6, 0.8, 0.0)
    else if scene == Some("singing") then Profile(1.2, 1.2, 0.8, 0.8, 0.0)
    else if scene == Some("waiting") then Profile(0.6, 0.8, 1.0, 0.8, 0.0)
    else if scene == Some("superchat") then Profile(1.0, 1.5, 0.8, 0.8, 0.0)
    else if scene == Some("announcement") then Profile(0.8, 1.5, 1.0, 0.8, 0.0)
    else if scene == Some("collab") then Profile(1.0, 1.0, 1.0, 0.8, 0.0)
    else Profile(1.0, 1.0, 1.0, 1.0, 0.0)
  }

  function BucketOf(c: Candidate, width: real): Bucket
    requires width != 0.0
  {
    (c.video, RoundHalfEven(c.ts / width))
  }

  function Buckets(cands: seq<Candidate>, width: real): seq<Bucket>
    requires width != 0.0
  {
    seq(|cands|, i requires 0 <= i < |cands| => BucketOf(cands[i], width))
  }

  /** The candidates of one bucket, in order. */
  function Group(cands: seq<Candidate>, width: real, b: Bucket): (g: seq<Candidate>)
    requires width != 0.0
    ensures forall c :: c in g <==> c in cands && BucketOf(c, width) == b
  {
    if cands == [] then []
    else
      var n := |cands| - 1;
      assert cands == cands[..n] + [cands[n]];
      Group(cands[..n], width, b) + (if BucketOf(cands[n], width) == b then [cands[n]] else [])
  }

  function Contribution(c: Candidate, w: Weights): (x: real)
    ensures x >= 0.0
  {
    NotNegative(w.Of(c.modality), (RRF_K + c.rank) as real);
    w.Of(c.modality) / (RRF_K + c.rank) as real
  }

  lemma NotNegative(w: real, d: real)
    requires w >= 0.0 && d > 0.0
    ensures w / d >= 0.0
  {
    var q := w / d;
    assert q * d == w;
    assert q < 0.0 ==> q * d < 0.0;
  }

  function Why(g: seq<Candidate>, w: Weights): map<Modality, real> {
    if g == [] then map[]
    else
      var c := g[|g| - 1];
      var before := Why(g[..|g| - 1], w);
      var current := if c.modality in before then before[c.modality] else 0.0;
      before[c.modality := if Contribution(c, w) > current then Contribution(c, w) else current]
  }

  /** Timestamp and contribution of the first candidate of g that no other exceeds. */
  function Best(g: seq<Candidate>, anchor: real, w: Weights): (real, real) {
    if g == [] then (anchor, -1.0)
    else
      var c := g[|g| - 1];
      var before := Best(g[..|g| - 1], anchor, w);
      if Contribution(c, w) > before.1 then (c.ts, Contribution(c, w)) else before
  }

  function Of(why: map<Modality, real>, m: Modality): real {
    if m in why then why[m] else 0.0
  }

  /** The sum of a dictionary's values; exact, so their order does not matter. */
  function Sum(why: map<Modality, real>): real {
    Of(why, Spoken) + Of(why, Written) + Of(why, Visual) + Of(why, Scene) + Of(why, Audio)
  }

  function HitOf(g: seq<Candidate>, lookup: (nat, real) -> Option<string>): Hit
    requires g != []
  {
    var scene := lookup(g[0].video, g[0].ts);
    var w := ProfileOf(scene);
    Hit(g[0].video, Best(g, g[0].ts, w).0, Sum(Why(g, w)), scene, Why(g, w))
  }

  predicate HigherScore(a: Hit, b: Hit) { a.score >= b.score }

  lemma {:induction false} KeyHasGroup(cands: seq<Candidate>, width: real, b: Bucket)
    requires width != 0.0
    ensures b in Keys([], Buckets(cands, width)) <==> Group(cands, width, b) != []
  {
    KeysDistinct([], Buckets(cands, width));
    var g := Group(cands, width, b);
    if g != [] {
      assert g[0] in cands;
      var i :| 0 <= i < |cands| && cands[i] == g[0];
      assert Buckets(cands, width)[i] == b;
    }
    if b in Buckets(cands, width) {
      var i :| 0 <= i < |cands| && Buckets(cands, width)[i] == b;
      assert cands[i] in g;
    }
  }

  /** One hit per bucket, buckets in order of first appearance. */
  function Unsorted(cands: seq<Candidate>, width: real, lookup: (nat, real) -> Option<string>): (hits: seq<Hit>)
    requires width != 0.0
    ensures |hits| == |Keys([], Buckets(cands, width))|
  {
    var keys := Keys([], Buckets(cands, width));
    seq(|keys|, i requires 0 <= i < |keys| =>
      KeyHasGroup(cands, width, keys[i]);
      HitOf(Group(cands, width, keys[i]), lookup))
  }

  function Moments(cands: seq<Candidate>, width: real, lookup: (nat, real) -> Option<string>): seq<Hit>
    requires width != 0.0
  {
    StableSort(Unsorted(cands, width, lookup), HigherScore)
  }

  method MergeBuckets(
      cands: seq<Candidate>, lookup: (nat, real) -> Option<string>, width: real,
      keys: seq<Bucket>, buckets: map<Bucket, seq<Candidate>>)
    returns (hits: seq<Hit>)
    requires width != 0.0 && Grouped(cands, width, keys, buckets)
    ensures hits == Unsorted(cands, width, lookup)
  {
    hide HitOf, Group, BucketOf;
    hits := [];
    for i := 0 to |keys|
      invariant |hits| == i && forall j | 0 <= j < i :: hits[j] == Unsorted(cands, width, lookup)[j]
    {
      KeyHasGroup(cands, width, keys[i]);
      var hit := MergeBucket(buckets[keys[i]], lookup);
      hits := hits + [hit];
    }
  }

  method MergeCandidates(cands: seq<Candidate>, lookup: (nat, real) -> Option<string>, width: real, k: int)
    returns (r: Merged)
    ensures r == if width == 0.0 && cands != [] then Merged.ZeroDivisionError
                 else if cands == [] then Hits([])
                 else Hits(Upto(Moments(cands, width, lookup), k))
  {
    if cands == [] { return Hits([]); }
    if width == 0.0 { return Merged.ZeroDivisionError; }
    var keys, buckets := GroupByBucket(cands, width);
    var hits := MergeBuckets(cands, lookup, width, keys, buckets);
    r := Hits(Upto(StableSort(hits, HigherScore), k));
  }

  /** The dictionary of buckets: its keys in order of insertion, and the candidates of each. */
  ghost predicate Grouped(cands: seq<Candidate>, width: real, keys: seq<Bucket>, buckets: map<Bucket, seq<Candidate>>)
    requires width != 0.0
  {
    && keys == Keys([], Buckets(cands, width))
    && (forall b :: b in buckets <==> b in keys)
    && (forall b | b in buckets :: buckets[b] == Group(cands, width, b))
  }

  lemma GroupOneMore(
    cands: seq<Candidate>, c: Candidate, width: real, keys: seq<Bucket>, buckets: map<Bucket, seq<Candidate>>)
    requires width != 0.0 && Grouped(cands, width, keys, buckets)
    ensures var b := BucketOf(c, width);
      Grouped(cands + [c], width, if b in buckets then keys else keys + [b],
              buckets[b := (if b in buckets then buckets[b] else []) + [c]])
  {
    hide BucketOf;
    var (all, b) := (cands + [c], BucketOf(c, width));
    assert all[..|cands|] == cands;
    assert Buckets(all, width)[..|cands|] == Buckets(cands, width);
    KeyHasGroup(cands, width, b);
  }

  method GroupByBucket(cands: seq<Candidate>, width: real)
    returns (keys: seq<Bucket>, buckets: map<Bucket, seq<Candidate>>)
    requires width != 0.0
    ensures Grouped(cands, width, keys, buckets)
  {
    hide BucketOf, Grouped;
    keys, buckets := [], map[];
    NothingGrouped(width);
    for i := 0 to |cands|
      invariant Grouped(cands[..i], width, keys, buckets)
    {
      var b := BucketOf(cands[i], width);
      GroupOneMore(cands[..i], cands[i], width, keys, buckets);
      assert cands[..i + 1] == cands[..i] + [cands[i]];
      keys := if b in buckets then keys else keys + [b];
      buckets := buckets[b := (if b in buckets then buckets[b] else []) + [cands[i]]];
    }
    assert cands[..|cands|] == cands;
  }

  lemma NothingGrouped(width: real)
    requires width != 0.0
    ensures Grouped([], width, [], map[])
  {
  }

  method MergeBucket(g: seq<Candidate>, lookup: (nat, real) -> Option<string>) returns (hit: Hit)
    requires g != []
    ensures hit == HitOf(g, lookup)
  {
    var anchor := g[0];
    var scene := lookup(anchor.video, anchor.ts);
    var w := ProfileOf(scene);
    var why: map<Modality, real> := map[];
    var bestTs, bestContribution := anchor.ts, -1.0;
    for i := 0 to |g|
      invariant why == Why(g[..i], w) && (bestTs, bestContribution) == Best(g[..i], anchor.ts, w)
    {
      assert g[..i + 1][..i] == g[..i];
      var contribution := Contribution(g[i], w);
      var current := Of(why, g[i].modality);
      why := why[g[i].modality := if contribution > current then contribution else current];
      if contribution > bestContribution {
        bestContribution := contribution;
        bestTs := g[i].ts;
      }
    }
    assert g[..|g|] == g;
    hit := Hit(anchor.video, bestTs, Sum(why), scene, why);
  }
}
