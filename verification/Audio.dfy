/** Coverage voting over the query windows of an audio clip (src/kanomori/retrieval/audio.py). */
module Audio {
  import opened Basics
  import opened Candidates
  import opened Sorting
  import opened Fusion
  import opened Merge
  import opened AudioQuery

  datatype Evidence = Evidence(text: string, kind: Kind, segment: nat, matched: string, ts: real, score: real)

  datatype AudioHit = AudioHit(
    video: nat, ts: real, coverage: nat, quality: real, scene: Option<string>, evidence: seq<Evidence>)

  /** A transcript row a window found: what may vote. */
  datatype Ballot = Ballot(window: nat, asked: Window, c: Candidate)

  /** The text of a transcript row and the scene of a moment, as the database has them. */
  datatype Tables = Tables(textOf: nat -> string, sceneAt: (nat, real) -> Option<string>)

  type Found = seq<(Window, seq<Candidate>)>

  predicate Eligible(c: Candidate) { c.modality == Spoken && c.segment.Some? }

  function Cast(window: nat, asked: Window, cands: seq<Candidate>): (ballots: seq<Ballot>)
    ensures forall i | 0 <= i < |ballots| :: Eligible(ballots[i].c) && ballots[i].window == window
  {
    if cands == [] then []
    else
      var last := cands[|cands| - 1];
      Cast(window, asked, cands[..|cands| - 1]) + (if Eligible(last) then [Ballot(window, asked, last)] else [])
  }

  /** All that is voted with, in the order it is read. */
  function Ballots(found: Found): (ballots: seq<Ballot>)
    ensures forall i | 0 <= i < |ballots| :: Eligible(ballots[i].c) && ballots[i].window < |found|
  {
    if found == [] then []
    else
      var n := |found| - 1;
      Ballots(found[..n]) + Cast(n, found[n].0, found[n].1)
  }

  function Worth(c: Candidate): real { 1.0 / (RRF_K + c.rank) as real }

  function EvidenceOf(t: Tables, b: Ballot): Evidence {
    var segment := if b.c.segment.Some? then b.c.segment.value else 0;
    Evidence(b.asked.text, b.asked.kind, segment, t.textOf(segment), b.c.ts, Worth(b.c))
  }

  function BucketsOf(ballots: seq<Ballot>, width: real): seq<Bucket>
    requires width != 0.0
  {
    seq(|ballots|, i requires 0 <= i < |ballots| => BucketOf(ballots[i].c, width))
  }

  function In(ballots: seq<Ballot>, width: real, b: Bucket): seq<Ballot>
    requires width != 0.0
  {
    if ballots == [] then []
    else
      var last := ballots[|ballots| - 1];
      In(ballots[..|ballots| - 1], width, b) + (if BucketOf(last.c, width) == b then [last] else [])
  }

  /** Has this window voted already? */
  predicate Voted(votes: seq<Ballot>, window: nat) {
    exists i :: 0 <= i < |votes| && votes[i].window == window
  }

  /** The ballots that count: the first of each window. */
  function Votes(g: seq<Ballot>): seq<Ballot> {
    if g == [] then []
    else
      var (before, last) := (Votes(g[..|g| - 1]), g[|g| - 1]);
      if Voted(before, last.window) then before else before + [last]
  }

  function Quality(votes: seq<Ballot>): real {
    if votes == [] then 0.0 else Quality(votes[..|votes| - 1]) + Worth(votes[|votes| - 1].c)
  }

  function Explained(t: Tables, votes: seq<Ballot>): seq<Evidence> {
    seq(|votes|, i requires 0 <= i < |votes| => EvidenceOf(t, votes[i]))
  }

  function Voters(votes: seq<Ballot>): set<nat> {
    set i | 0 <= i < |votes| :: votes[i].window
  }

  /** Timestamp and share of the first ballot that no other exceeds. */
  function Top(g: seq<Ballot>, first: real): (real, real) {
    if g == [] then (first, -1.0)
    else
      var (before, last) := (Top(g[..|g| - 1], first), g[|g| - 1]);
      if Worth(last.c) > before.1 then (last.c.ts, Worth(last.c)) else before
  }

  function MomentOf(t: Tables, g: seq<Ballot>): AudioHit
    requires g != []
  {
    var (votes, ts) := (Votes(g), Top(g, g[0].c.ts).0);
    AudioHit(g[0].c.video, ts, |Voters(votes)|, Quality(votes), t.sceneAt(g[0].c.video, ts), Explained(t, votes))
  }

  predicate Stronger(a: AudioHit, b: AudioHit) {
    a.coverage > b.coverage || (a.coverage == b.coverage && a.quality >= b.quality)
  }

  lemma {:induction false} KeyHasBallots(ballots: seq<Ballot>, width: real, b: Bucket)
    requires width != 0.0
    ensures b in Keys([], BucketsOf(ballots, width)) <==> In(ballots, width, b) != []
  {
    if ballots == [] {
    } else {
      var n := |ballots| - 1;
      assert BucketsOf(ballots, width)[..n] == BucketsOf(ballots[..n], width);
      KeyHasBallots(ballots[..n], width, b);
    }
  }

  /** One hit per bucket, buckets in order of first appearance. */
  function AllMoments(t: Tables, ballots: seq<Ballot>, width: real): (hits: seq<AudioHit>)
    requires width != 0.0
    ensures |hits| == |Keys([], BucketsOf(ballots, width))|
  {
    var keys := Keys([], BucketsOf(ballots, width));
    seq(|keys|, i requires 0 <= i < |keys| =>
      KeyHasBallots(ballots, width, keys[i]);
      MomentOf(t, In(ballots, width, keys[i])))
  }

  function Answer(t: Tables, found: Found, width: real): seq<AudioHit>
    requires width != 0.0
  {
    StableSort(AllMoments(t, Ballots(found), width), Stronger)
  }

  lemma VotersOfMore(votes: seq<Ballot>, x: Ballot)
    ensures Voters(votes + [x]) == Voters(votes) + {x.window}
  {
    var all := votes + [x];
    assert all[|votes|] == x && forall i | 0 <= i < |votes| :: all[i] == votes[i];
    forall w | w in Voters(votes) + {x.window} ensures w in Voters(all) {
      if w == x.window {
        assert all[|votes|].window == w;
      } else {
        var i :| 0 <= i < |votes| && votes[i].window == w;
        assert all[i].window == w;
      }
    }
  }

  lemma TopGrows(g: seq<Ballot>, x: Ballot, first: real)
    ensures var before := Top(g, first);
      Top(g + [x], first) == if Worth(x.c) > before.1 then (x.c.ts, Worth(x.c)) else before
  {
    assert (g + [x])[..|g|] == g;
  }

  lemma NoVotes(t: Tables, first: real)
    ensures Votes([]) == [] && Voters([]) == {} && Quality([]) == 0.0 && Explained(t, []) == []
    ensures Top([], first) == (first, -1.0)
  {
  }

  lemma OneMoreVote(t: Tables, votes: seq<Ballot>, x: Ballot)
    ensures Quality(votes + [x]) == Quality(votes) + Worth(x.c)
    ensures Explained(t, votes + [x]) == Explained(t, votes) + [EvidenceOf(t, x)]
  {
    assert (votes + [x])[..|votes|] == votes;
  }

  /** What one bucket has gathered so far; the loops update it in place. */
  class BucketState {
    const video: nat
    var bestTs: real
    var bestContrib: real
    var voters: set<nat>
    var quality: real
    var evidence: seq<Evidence>

    constructor (video: nat, ts: real)
      ensures this.video == video && bestTs == ts && bestContrib == -1.0
      ensures voters == {} && quality == 0.0 && evidence == []
    {
      this.video, bestTs, bestContrib := video, ts, -1.0;
      voters, quality, evidence := {}, 0.0, [];
    }

    /** The state is what the ballots g of its bucket amount to. */
    ghost predicate Tallies(t: Tables, g: seq<Ballot>)
      reads this
    {
      && g != []
      && video == g[0].c.video
      && (bestTs, bestContrib) == Top(g, g[0].c.ts)
      && voters == Voters(Votes(g)) && quality == Quality(Votes(g)) && evidence == Explained(t, Votes(g))
    }

    method AddVote(t: Tables, b: Ballot, contribution: real)
      modifies this
      ensures voters == old(voters) + {b.window} && quality == old(quality) + contribution
      ensures evidence == old(evidence) + [EvidenceOf(t, b).(score := contribution)]
      ensures bestTs == old(bestTs) && bestContrib == old(bestContrib)
    {
      voters := voters + {b.window};
      quality := quality + contribution;
      evidence := evidence + [EvidenceOf(t, b).(score := contribution)];
    }

    /** One more ballot: a vote if its window has none in this bucket yet, and perhaps the best moment. */
    method Count(t: Tables, b: Ballot, voted: bool, ghost g: seq<Ballot>)
      requires if g == [] then bestTs == b.c.ts && bestContrib == -1.0 && video == b.c.video
        && voters == {} && quality == 0.0 && evidence == [] else Tallies(t, g)
      requires voted <==> Voted(Votes(g), b.window)
      modifies this
      ensures Tallies(t, g + [b])
    {
      hide Votes, Voters, Voted, Quality, Explained, Top, Worth;
      VotesGrow(g, b);
      TopGrows(g, b, if g == [] then b.c.ts else g[0].c.ts);
      if g == [] { NoVotes(t, b.c.ts); }
      OneMoreVote(t, Votes(g), b);
      VotersOfMore(Votes(g), b);
      var contribution := Worth(b.c);
      if !voted { AddVote(t, b, contribution); }
      if contribution > bestContrib {
        bestContrib := contribution;
        bestTs := b.c.ts;
      }
    }

    method ToHit(t: Tables, ghost g: seq<Ballot>) returns (hit: AudioHit)
      requires Tallies(t, g)
      ensures hit == MomentOf(t, g)
    {
      hit := AudioHit(video, bestTs, |voters|, quality, t.sceneAt(video, bestTs), evidence);
    }
  }

  ghost predicate Books(
    t: Tables, ballots: seq<Ballot>, width: real, keys: seq<Bucket>, buckets: map<Bucket, BucketState>)
    requires width != 0.0
    reads buckets.Values
  {
    && keys == Keys([], BucketsOf(ballots, width))
    && (forall b :: b in buckets <==> b in keys)
    && (forall b | b in buckets :: buckets[b].Tallies(t, In(ballots, width, b)))
    && (forall a, b | a in buckets && b in buckets && a != b :: buckets[a] != buckets[b])
  }

  ghost predicate Marked(voted: set<Bucket>, ballots: seq<Ballot>, width: real, window: nat)
    requires width != 0.0
  {
    forall b :: b in voted <==> Voted(Votes(In(ballots, width, b)), window)
  }

  lemma InGrows(ballots: seq<Ballot>, x: Ballot, width: real, b: Bucket)
    requires width != 0.0
    ensures In(ballots + [x], width, b)
      == if BucketOf(x.c, width) == b then In(ballots, width, b) + [x] else In(ballots, width, b)
  {
    assert (ballots + [x])[..|ballots|] == ballots;
  }

  lemma KeysGrow(ballots: seq<Ballot>, x: Ballot, width: real)
    requires width != 0.0
    ensures var (before, b) := (Keys([], BucketsOf(ballots, width)), BucketOf(x.c, width));
      Keys([], BucketsOf(ballots + [x], width)) == if b in before then before else before + [b]
  {
    assert BucketsOf(ballots + [x], width)[..|ballots|] == BucketsOf(ballots, width);
  }

  lemma VotesGrow(g: seq<Ballot>, x: Ballot)
    ensures Votes(g + [x]) == if Voted(Votes(g), x.window) then Votes(g) else Votes(g) + [x]
  {
    assert (g + [x])[..|g|] == g;
  }

  /** The body of the inner loop for a candidate that may vote. */
  method Record(
      t: Tables, ghost ballots: seq<Ballot>, width: real, x: Ballot,
      keys: seq<Bucket>, buckets: map<Bucket, BucketState>, voted: set<Bucket>)
    returns (keys': seq<Bucket>, buckets': map<Bucket, BucketState>, voted': set<Bucket>)
    requires width != 0.0 && Books(t, ballots, width, keys, buckets) && Marked(voted, ballots, width, x.window)
    modifies buckets.Values
    ensures Books(t, ballots + [x], width, keys', buckets') && Marked(voted', ballots + [x], width, x.window)
    ensures fresh(buckets'.Values - buckets.Values)
  {
    hide Keys, In, Votes, Keyed, BucketOf, Voted, EvidenceOf, Top, Worth;
    var b := BucketOf(x.c, width);
    ghost var g := In(ballots, width, b);
    KeyHasBallots(ballots, width, b);
    KeysGrow(ballots, x, width);
    keys', buckets' := keys, buckets;
    if b !in buckets {
      var state := new BucketState(x.c.video, x.c.ts);
      keys', buckets' := keys + [b], buckets[b := state];
    }
    buckets'[b].Count(t, x, b in voted, g);
    voted' := voted + {b};
    forall other | other in buckets' ensures buckets'[other].Tallies(t, In(ballots + [x], width, other)) {
      InGrows(ballots, x, width, other);
    }
    forall other ensures other in voted' <==> Voted(Votes(In(ballots + [x], width, other)), x.window) {
      InGrows(ballots, x, width, other);
      NowVoted(g, x);
    }
  }

  lemma NowVoted(g: seq<Ballot>, x: Ballot)
    ensures Voted(Votes(g + [x]), x.window)
  {
    VotesGrow(g, x);
    if !Voted(Votes(g), x.window) { assert Votes(g + [x])[|Votes(g)|].window == x.window; }
  }

  lemma {:induction false} VotesAreBallots(g: seq<Ballot>)
    ensures forall v | v in Votes(g) :: v in g
  {
    if g != [] { VotesAreBallots(g[..|g| - 1]); }
  }

  lemma {:induction false} InAreBallots(ballots: seq<Ballot>, width: real, b: Bucket)
    requires width != 0.0
    ensures forall x | x in In(ballots, width, b) :: x in ballots && BucketOf(x.c, width) == b
  {
    if ballots != [] { InAreBallots(ballots[..|ballots| - 1], width, b); }
  }

  lemma NoneYet(ballots: seq<Ballot>, width: real, window: nat)
    requires width != 0.0 && forall i | 0 <= i < |ballots| :: ballots[i].window < window
    ensures Marked({}, ballots, width, window)
  {
    forall b ensures !Voted(Votes(In(ballots, width, b)), window) {
      VotesAreBallots(In(ballots, width, b));
      InAreBallots(ballots, width, b);
      var votes := Votes(In(ballots, width, b));
      forall i | 0 <= i < |votes| ensures votes[i].window < window { assert votes[i] in votes; }
    }
  }

  method Gather(t: Tables, found: Found, width: real)
    returns (keys: seq<Bucket>, buckets: map<Bucket, BucketState>)
    requires width != 0.0
    ensures Books(t, Ballots(found), width, keys, buckets) && fresh(buckets.Values)
  {
    hide Votes, Voted, BucketOf, Keys;
    keys, buckets := [], map[];
    ghost var ballots: seq<Ballot> := [];
    assert Keys([], BucketsOf([], width)) == [] by { NoKeys(width); }
    for w := 0 to |found|
      invariant ballots == Ballots(found[..w])
      invariant Books(t, ballots, width, keys, buckets) && fresh(buckets.Values)
    {
      var (asked, cands) := found[w];
      var voted: set<Bucket> := {};
      ghost var before := ballots;
      NoneYet(ballots, width, w);
      for i := 0 to |cands|
        invariant ballots == before + Cast(w, asked, cands[..i])
        invariant Books(t, ballots, width, keys, buckets) && Marked(voted, ballots, width, w) && fresh(buckets.Values)
      {
        assert cands[..i + 1][..i] == cands[..i];
        if Eligible(cands[i]) {
          keys, buckets, voted := Record(t, ballots, width, Ballot(w, asked, cands[i]), keys, buckets, voted);
          ballots := ballots + [Ballot(w, asked, cands[i])];
        }
      }
      assert cands[..|cands|] == cands && found[..w + 1][..w] == found[..w];
    }
    assert found[..|found|] == found;
  }

  lemma NoKeys(width: real)
    requires width != 0.0
    ensures Keys([], BucketsOf([], width)) == []
  {
  }

  /** None is the ZeroDivisionError of a zero bucket width, raised by the first candidate that may vote. */
  method AggregateCoverage(t: Tables, found: Found, width: real, k: int) returns (r: Option<seq<AudioHit>>)
    ensures r == if Ballots(found) == [] then Some([])
                 else if width == 0.0 then None
                 else Some(Upto(Answer(t, found, width), k))
  {
    if Ballots(found) == [] { return Some([]); }
    if width == 0.0 { return None; }
    var keys, buckets := Gather(t, found, width);
    var hits := ToHits(t, Ballots(found), width, keys, buckets);
    hits := StableSort(hits, Stronger);
    r := Some(Upto(hits, k));
  }

  method ToHits(
      t: Tables, ghost ballots: seq<Ballot>, width: real, keys: seq<Bucket>, buckets: map<Bucket, BucketState>)
    returns (hits: seq<AudioHit>)
    requires width != 0.0 && Books(t, ballots, width, keys, buckets)
    ensures hits == AllMoments(t, ballots, width)
  {
    hide MomentOf, Votes, Quality, Top, In, BucketState.Tallies;
    hits := [];
    for i := 0 to |keys|
      invariant |hits| == i && forall j | 0 <= j < i :: hits[j] == AllMoments(t, ballots, width)[j]
    {
      KeyHasBallots(ballots, width, keys[i]);
      var hit := buckets[keys[i]].ToHit(t, In(ballots, width, keys[i]));
      hits := hits + [hit];
    }
  }
}
