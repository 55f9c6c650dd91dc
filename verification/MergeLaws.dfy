/** Why the bucket merge is a group-by, and what it promises about moments and scores. */
module MergeLaws {
  import opened Basics
  import opened Candidates
  import opened Sorting
  import opened Fusion
  import opened FusionLaws
  import opened Merge

  /** x is the largest contribution of a modality among g, and some candidate makes it. */
  ghost predicate IsLargest(g: seq<Candidate>, w: Weights, m: Modality, x: real) {
    && (exists c | c in g :: c.modality == m && Contribution(c, w) == x)
    && (forall c | c in g && c.modality == m :: Contribution(c, w) <= x)
  }

  /** Candidate i of g makes the largest contribution of all, and is the first that does. */
  ghost predicate IsFirstBest(g: seq<Candidate>, w: Weights, i: nat) {
    && i < |g|
    && (forall j | 0 <= j < |g| :: Contribution(g[j], w) <= Contribution(g[i], w))
    && (forall j | 0 <= j < i :: Contribution(g[j], w) < Contribution(g[i], w))
  }

  /** The hit a bucket must give, said without the loops. */
  ghost predicate Explains(hit: Hit, g: seq<Candidate>, lookup: (nat, real) -> Option<string>) {
    && g != []
    && hit.video == g[0].video
    && hit.scene == lookup(g[0].video, g[0].ts)
    && (forall m :: m in hit.why <==> exists c | c in g :: c.modality == m)
    && (forall m | m in hit.why :: IsLargest(g, ProfileOf(hit.scene), m, hit.why[m]))
    && (exists i: nat :: IsFirstBest(g, ProfileOf(hit.scene), i) && g[i].ts == hit.ts)
    && hit.score == Sum(hit.why)
  }

  lemma {:induction false} WhyIsLargest(g: seq<Candidate>, w: Weights)
    ensures forall m :: m in Why(g, w) <==> exists c | c in g :: c.modality == m
    ensures forall m | m in Why(g, w) :: IsLargest(g, w, m, Why(g, w)[m])
  {
    if g != [] {
      var (rest, c) := (g[..|g| - 1], g[|g| - 1]);
      WhyIsLargest(rest, w);
      assert g == rest + [c];
      assert forall d :: d in g <==> d in rest || d == c;
      var (before, why) := (Why(rest, w), Why(g, w));
      forall m ensures m in why <==> exists d | d in g :: d.modality == m {
        assert m in why <==> m in before || m == c.modality;
        if m in before {
          var d :| d in rest && d.modality == m;
          assert d in g;
        }
        if m == c.modality { assert c in g; }
      }
      forall m | m in why ensures IsLargest(g, w, m, why[m]) {
        if m in before {
          var d :| d in rest && d.modality == m && Contribution(d, w) == before[m];
          assert d in g;
        }
        assert c in g;
      }
    }
  }

  lemma {:induction false} BestIsFirst(g: seq<Candidate>, anchor: real, w: Weights) returns (i: nat)
    requires g != []
    ensures IsFirstBest(g, w, i)
    ensures Best(g, anchor, w) == (g[i].ts, Contribution(g[i], w))
  {
    var n := |g| - 1;
    if n == 0 {
      i := 0;
    } else {
      i := BestIsFirst(g[..n], anchor, w);
      assert forall j | 0 <= j < n :: g[..n][j] == g[j];
      if Contribution(g[n], w) > Contribution(g[i], w) { i := n; }
    }
  }

  lemma HitIsExplained(g: seq<Candidate>, lookup: (nat, real) -> Option<string>)
    requires g != []
    ensures Explains(HitOf(g, lookup), g, lookup)
  {
    var w := ProfileOf(lookup(g[0].video, g[0].ts));
    WhyIsLargest(g, w);
    var i := BestIsFirst(g, g[0].ts, w);
  }

  lemma HitsAreGrouped(cands: seq<Candidate>, width: real, lookup: (nat, real) -> Option<string>, i: nat)
    requires width != 0.0 && i < |Unsorted(cands, width, lookup)|
    ensures var b := Keys([], Buckets(cands, width))[i];
      Group(cands, width, b) != [] && Unsorted(cands, width, lookup)[i] == HitOf(Group(cands, width, b), lookup)
  {
    KeyHasGroup(cands, width, Keys([], Buckets(cands, width))[i]);
  }

  lemma HigherScoreOrders()
    ensures TotalPreorder(HigherScore)
  {
    forall a: Hit, b: Hit ensures HigherScore(a, b) || HigherScore(b, a) {}
    forall a: Hit, b: Hit, c: Hit | HigherScore(a, b) && HigherScore(b, c) ensures HigherScore(a, c) {}
  }

  /** Before the cut there is one hit for each bucket that has a candidate, and each hit explains its bucket. */
  lemma MergeIsGroupBy(cands: seq<Candidate>, width: real, lookup: (nat, real) -> Option<string>)
    requires width != 0.0
    ensures Distinct(Keys([], Buckets(cands, width)))
    ensures forall c | c in cands :: BucketOf(c, width) in Keys([], Buckets(cands, width))
    ensures forall i | 0 <= i < |Unsorted(cands, width, lookup)| ::
      Explains(Unsorted(cands, width, lookup)[i], Group(cands, width, Keys([], Buckets(cands, width))[i]), lookup)
    ensures StablySorts(Unsorted(cands, width, lookup), Moments(cands, width, lookup), HigherScore)
  {
    KeysDistinct([], Buckets(cands, width));
    forall c | c in cands ensures BucketOf(c, width) in Keys([], Buckets(cands, width)) {
      var i :| 0 <= i < |cands| && cands[i] == c;
      assert Buckets(cands, width)[i] == BucketOf(c, width);
    }
    forall i | 0 <= i < |Unsorted(cands, width, lookup)|
      ensures Explains(Unsorted(cands, width, lookup)[i], Group(cands, width, Keys([], Buckets(cands, width))[i]), lookup)
    {
      HitsAreGrouped(cands, width, lookup, i);
      HitIsExplained(Group(cands, width, Keys([], Buckets(cands, width))[i]), lookup);
    }
    HigherScoreOrders();
    StableSortIsStable(Unsorted(cands, width, lookup), HigherScore);
  }

  lemma LargestIsUnique(g: seq<Candidate>, w: Weights, m: Modality, x: real, y: real)
    requires IsLargest(g, w, m, x) && IsLargest(g, w, m, y)
    ensures x == y
  {
    var c :| c in g && c.modality == m && Contribution(c, w) == x;
    var d :| d in g && d.modality == m && Contribution(d, w) == y;
  }

  lemma FirstBestIsUnique(g: seq<Candidate>, w: Weights, i: nat, j: nat)
    requires IsFirstBest(g, w, i) && IsFirstBest(g, w, j)
    ensures i == j
  {
    assert Contribution(g[i], w) == Contribution(g[j], w);
  }

  /** Explanations are exact: a bucket has one timestamp, one breakdown and one score. */
  lemma ExplanationIsUnique(a: Hit, b: Hit, g: seq<Candidate>, lookup: (nat, real) -> Option<string>)
    requires Explains(a, g, lookup) && Explains(b, g, lookup)
    ensures a == b
  {
    var w := ProfileOf(a.scene);
    assert a.why.Keys == b.why.Keys;
    forall m | m in a.why ensures a.why[m] == b.why[m] {
      LargestIsUnique(g, w, m, a.why[m], b.why[m]);
    }
    assert a.why == b.why;
    var i: nat :| IsFirstBest(g, w, i) && g[i].ts == a.ts;
    var j: nat :| IsFirstBest(g, w, j) && g[j].ts == b.ts;
    FirstBestIsUnique(g, w, i, j);
  }

  // What a contribution is, in numbers

  lemma ContributionScales(c: Candidate, w: Weights)
    ensures Contribution(c, w) * (60 + c.rank) as real == w.Of(c.modality)
  {
    Undivided(w.Of(c.modality), (60 + c.rank) as real);
  }

  lemma SmallerRankNoLess(c: Candidate, d: Candidate, w: Weights)
    requires c.modality == d.modality && c.rank <= d.rank
    ensures Contribution(c, w) >= Contribution(d, w)
    ensures c.rank < d.rank && w.Of(c.modality) > 0.0 ==> Contribution(c, w) > Contribution(d, w)
  {
    hide Contribution;
    ContributionScales(c, w);
    ContributionScales(d, w);
    Compared(Contribution(c, w), Contribution(d, w), (60 + c.rank) as real, (60 + d.rank) as real, w.Of(c.modality));
  }

  lemma Compared(p: real, q: real, a: real, b: real, w: real)
    requires 0.0 < a <= b && p * a == w && q * b == w && w >= 0.0
    ensures p >= q
    ensures a < b && w > 0.0 ==> p > q
  {
    FactorSign(q, b);
    assert (p - q) * a == q * (b - a);
    NotNegativeProduct(q, b - a);
    FactorSign(p - q, a);
    if a < b && w > 0.0 { PositiveProduct(q, b - a); }
  }

  lemma FactorSign(x: real, a: real)
    requires a > 0.0
    ensures x * a >= 0.0 ==> x >= 0.0
    ensures x * a > 0.0 ==> x > 0.0
  {
  }

  lemma PositiveProduct(a: real, b: real)
    requires a > 0.0 && b > 0.0
    ensures a * b > 0.0
  {
  }

  /** Candidate i of g has the least rank of its modality. */
  ghost predicate IsLeastRanked(g: seq<Candidate>, m: Modality, i: nat) {
    i < |g| && g[i].modality == m && forall c | c in g && c.modality == m :: g[i].rank <= c.rank
  }

  lemma {:induction false} LeastRanked(g: seq<Candidate>, m: Modality) returns (i: nat)
    requires exists c | c in g :: c.modality == m
    ensures IsLeastRanked(g, m, i)
  {
    var n := |g| - 1;
    assert g == g[..n] + [g[n]];
    if exists c | c in g[..n] :: c.modality == m {
      i := LeastRanked(g[..n], m);
      assert g[..n][i] == g[i];
      if g[n].modality == m && g[n].rank < g[i].rank { i := n; }
    } else {
      i := n;
    }
  }

  /** Each modality counts with the weight of the scene over 60 + the least rank it has in the bucket. */
  lemma WhyIsWeightOverLeastRank(g: seq<Candidate>, lookup: (nat, real) -> Option<string>, m: Modality)
    requires g != [] && exists c | c in g :: c.modality == m
    ensures var hit := HitOf(g, lookup);
      && hit.scene == lookup(g[0].video, g[0].ts)
      && m in hit.why
      && exists i: nat :: IsLeastRanked(g, m, i) && hit.why[m] * (60 + g[i].rank) as real == ProfileOf(hit.scene).Of(m)
  {
    hide Contribution, ProfileOf, Why, Best, Sum, IsLargest, IsLeastRanked;
    var w := ProfileOf(lookup(g[0].video, g[0].ts));
    WhyIsLargest(g, w);
    var i := LeastRanked(g, m);
    LargestIsLeastRanked(g, w, m, i, Why(g, w)[m]);
  }

  lemma LargestIsLeastRanked(g: seq<Candidate>, w: Weights, m: Modality, i: nat, x: real)
    requires IsLeastRanked(g, m, i) && IsLargest(g, w, m, x)
    ensures x * (60 + g[i].rank) as real == w.Of(m)
  {
    hide Contribution;
    var c :| c in g && c.modality == m && Contribution(c, w) == x;
    assert g[i] in g;
    SmallerRankNoLess(g[i], c, w);
    assert Contribution(g[i], w) == x;
    ContributionScales(g[i], w);
  }

  /** Of two buckets with one candidate each and one weight, the better rank has the higher score. */
  lemma BetterRankScoresHigher(a: Candidate, b: Candidate, lookup: (nat, real) -> Option<string>)
    requires a.rank < b.rank
    requires ProfileOf(lookup(a.video, a.ts)).Of(a.modality) == ProfileOf(lookup(b.video, b.ts)).Of(b.modality) > 0.0
    ensures HitOf([a], lookup).score > HitOf([b], lookup).score
  {
    hide Contribution;
    var (v, w) := (ProfileOf(lookup(a.video, a.ts)), ProfileOf(lookup(b.video, b.ts)));
    ScoreOfOne(a, lookup);
    ScoreOfOne(b, lookup);
    ContributionScales(a, v);
    ContributionScales(b, w);
    Compared(Contribution(a, v), Contribution(b, w), (60 + a.rank) as real, (60 + b.rank) as real, v.Of(a.modality));
  }

  lemma ScoreOfOne(c: Candidate, lookup: (nat, real) -> Option<string>)
    ensures HitOf([c], lookup).score == Contribution(c, ProfileOf(lookup(c.video, c.ts)))
  {
    var w := ProfileOf(lookup(c.video, c.ts));
    assert [c][..0] == [];
    assert Why([], w) == map[];
    assert Why([c], w) == map[c.modality := Contribution(c, w)];
  }

  /** The score is the sum over the dictionary's modalities, each once. */
  lemma ScoresAdd(a: map<Modality, real>, m: Modality, x: real)
    requires m !in a
    ensures Sum(map[]) == 0.0 && Sum(a[m := x]) == Sum(a) + x
  {
  }

  /** The weights of the scenes: speech, screen text, picture, scene; the audio track has none. */
  lemma SceneWeights(name: string, p: Profile)
    ensures p == Profile(p.Of(Spoken), p.Of(Written), p.Of(Visual), p.Of(Scene), p.Of(Audio))
    ensures ProfileOf(Some("chatting")) == Profile(1.6, 1.0, 0.6, 0.5, 0.0)
    ensures ProfileOf(Some("gaming")) == Profile(0.8, 1.1, 1.6, 0.8, 0.0)
    ensures ProfileOf(Some("singing")) == Profile(1.2, 1.2, 0.8, 0.8, 0.0)
    ensures ProfileOf(Some("waiting")) == Profile(0.6, 0.8, 1.0, 0.8, 0.0)
    ensures ProfileOf(Some("superchat")) == Profile(1.0, 1.5, 0.8, 0.8, 0.0)
    ensures ProfileOf(Some("announcement")) == Profile(0.8, 1.5, 1.0, 0.8, 0.0)
    ensures ProfileOf(Some("collab")) == Profile(1.0, 1.0, 1.0, 0.8, 0.0)
    ensures ProfileOf(None) == Profile(1.0, 1.0, 1.0, 1.0, 0.0)
    ensures name !in {"chatting", "gaming", "singing", "waiting", "superchat", "announcement", "collab"} ==>
      ProfileOf(Some(name)) == ProfileOf(None)
  {
  }

  /** Cutting at k keeps the k best: no dropped bucket outscores a kept hit. */
  lemma CutKeepsTheBest(cands: seq<Candidate>, width: real, lookup: (nat, real) -> Option<string>, k: nat, i: nat, j: nat)
    requires width != 0.0 && i < |Upto(Moments(cands, width, lookup), k)| <= j < |Moments(cands, width, lookup)|
    ensures Upto(Moments(cands, width, lookup), k)[i].score >= Moments(cands, width, lookup)[j].score
  {
    MergeIsGroupBy(cands, width, lookup);
    SortedAt(Moments(cands, width, lookup), HigherScore, i, j);
  }

  /** How far a timestamp is from the middle of its bucket. */
  lemma ScaledRound(x: real, width: real)
    requires width > 0.0
    ensures -width <= 2.0 * (x - RoundHalfEven(x / width) as real * width) <= width
  {
    var (q, n) := (x / width, RoundHalfEven(x / width) as real);
    assert q * width == x;
    Distribute(q, n, width);
    Between(q - n, width, x - n * width);
  }

  lemma Distribute(q: real, n: real, width: real)
    ensures (q - n) * width == q * width - n * width
  {
  }

  lemma Between(d: real, w: real, p: real)
    requires -0.5 <= d <= 0.5 && w > 0.0 && p == d * w
    ensures -w <= 2.0 * p <= w
  {
    NotNegativeProduct(0.5 - d, w);
    NotNegativeProduct(d + 0.5, w);
    assert (0.5 - d) * w == 0.5 * w - p && (d + 0.5) * w == p + 0.5 * w;
  }

  lemma NotNegativeProduct(a: real, b: real)
    requires a >= 0.0 && b >= 0.0
    ensures a * b >= 0.0
  {
  }

  lemma Mirrored(x: real, width: real)
    requires width != 0.0
    ensures x / width == (-x) / (-width)
  {
    assert (x / width) * -width == -x;
  }

  lemma BothClose(x: real, y: real, width: real)
    requires width > 0.0 && RoundHalfEven(x / width) == RoundHalfEven(y / width)
    ensures -width <= x - y <= width
  {
    hide RoundHalfEven;
    ScaledRound(x, width);
    ScaledRound(y, width);
  }

  /** Candidates merged into one moment are of one video and at most one bucket width apart. */
  lemma MergedAreClose(a: Candidate, b: Candidate, width: real)
    requires width != 0.0 && BucketOf(a, width) == BucketOf(b, width)
    ensures a.video == b.video
    ensures var w := if width > 0.0 then width else -width; -w <= a.ts - b.ts <= w
  {
    hide RoundHalfEven;
    if width > 0.0 {
      BothClose(a.ts, b.ts, width);
    } else {
      Mirrored(a.ts, width);
      Mirrored(b.ts, width);
      BothClose(-a.ts, -b.ts, -width);
    }
  }

  /** The bound is reached for every width: rounding half to even puts both ends of an even bucket into it. */
  lemma FullWidthIsReached(a: Candidate, b: Candidate, width: real, n: int)
    requires width != 0.0 && a.video == b.video && n % 2 == 0
    requires a.ts == (n as real - 0.5) * width && b.ts == (n as real + 0.5) * width
    ensures BucketOf(a, width) == BucketOf(b, width) && b.ts - a.ts == width
  {
    var (p, q) := (n as real - 0.5, n as real + 0.5);
    Quotient(p, width);
    Quotient(q, width);
    TieGoesToEven(p, n);
    TieGoesToEven(q, n);
    assert a.ts / width == p && b.ts / width == q;
    Distribute(n as real + 0.5, n as real - 0.5, width);
  }

  lemma Quotient(q: real, width: real)
    requires width != 0.0
    ensures q * width / width == q
  {
  }

  lemma TieGoesToEven(x: real, n: int)
    requires (x == n as real - 0.5 || x == n as real + 0.5) && n % 2 == 0
    ensures RoundHalfEven(x) == n
  {
  }

  // Appending a candidate

  lemma WhyGrows(g: seq<Candidate>, c: Candidate, w: Weights, m: Modality)
    ensures Of(Why(g + [c], w), m) >= Of(Why(g, w), m)
    ensures m != c.modality ==> Of(Why(g + [c], w), m) == Of(Why(g, w), m)
  {
    assert (g + [c])[..|g|] == g;
  }

  lemma GroupGrows(cands: seq<Candidate>, c: Candidate, width: real, b: Bucket)
    requires width != 0.0
    ensures Group(cands + [c], width, b)
      == if BucketOf(c, width) == b then Group(cands, width, b) + [c] else Group(cands, width, b)
  {
    assert (cands + [c])[..|cands|] == cands;
  }

  /** One more candidate at the end leaves the other buckets alone and never lowers its own bucket's score. */
  lemma MoreEvidenceNeverHurts(
    cands: seq<Candidate>, c: Candidate, width: real, lookup: (nat, real) -> Option<string>, b: Bucket)
    requires width != 0.0 && Group(cands, width, b) != []
    ensures Group(cands + [c], width, b) != []
    ensures var (before, after) := (HitOf(Group(cands, width, b), lookup), HitOf(Group(cands + [c], width, b), lookup));
      && after.scene == before.scene
      && after.score >= before.score
      && (BucketOf(c, width) != b ==> after == before)
  {
    GroupGrows(cands, c, width, b);
    var g := Group(cands, width, b);
    var w := ProfileOf(lookup(g[0].video, g[0].ts));
    assert (g + [c])[0] == g[0];
    WhyGrows(g, c, w, Spoken);
    WhyGrows(g, c, w, Written);
    WhyGrows(g, c, w, Visual);
    WhyGrows(g, c, w, Scene);
    WhyGrows(g, c, w, Audio);
  }
}
