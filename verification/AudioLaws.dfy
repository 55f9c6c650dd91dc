/** What audio coverage counts, and how large it can get. */
module AudioLaws {
  import opened Basics
  import opened Candidates
  import opened Sorting
  import opened Fusion
  import opened Merge
  import opened AudioQuery
  import opened Audio
  import Transcript
  import FusionLaws

  /** Each window's first ballot, and no other. */
  ghost predicate FirstOfEach(votes: seq<Ballot>, g: seq<Ballot>) {
    && (forall i, j | 0 <= i < j < |votes| :: votes[i].window < votes[j].window)
    && (forall x | x in g :: Voted(votes, x.window))
    && (forall v | v in votes :: IsFirst(v, g))
  }

  ghost predicate IsFirst(v: Ballot, g: seq<Ballot>) {
    exists i :: 0 <= i < |g| && g[i] == v && forall j | 0 <= j < i :: g[j].window != v.window
  }

  /** Ballots come window by window, and within a window by ascending rank. */
  ghost predicate InRankOrder(g: seq<Ballot>) {
    forall i, j | 0 <= i < j < |g| ::
      g[i].window < g[j].window || (g[i].window == g[j].window && g[i].c.rank < g[j].c.rank)
  }

  lemma {:induction false} VotesAreFirst(g: seq<Ballot>)
    requires InRankOrder(g)
    ensures FirstOfEach(Votes(g), g)
  {
    if g != [] {
      var n := |g| - 1;
      VotesAreFirst(g[..n]);
      VotesStep(g, Votes(g[..n]));
    }
  }

  lemma FirstStays(v: Ballot, g: seq<Ballot>, n: nat)
    requires n <= |g| && IsFirst(v, g[..n])
    ensures IsFirst(v, g)
  {
    var i :| 0 <= i < n && g[..n][i] == v && forall j | 0 <= j < i :: g[..n][j].window != v.window;
    forall j | 0 <= j < i ensures g[j].window != v.window { assert g[..n][j] == g[j]; }
    assert g[i] == v;
  }

  lemma VotesStep(g: seq<Ballot>, before: seq<Ballot>)
    requires g != [] && InRankOrder(g) && FirstOfEach(before, g[..|g| - 1])
    ensures FirstOfEach(if Voted(before, g[|g| - 1].window) then before else before + [g[|g| - 1]], g)
  {
    var (rest, x) := (g[..|g| - 1], g[|g| - 1]);
    assert g == rest + [x];
    if Voted(before, x.window) {
      SecondBallot(rest, before, x);
    } else {
      FirstBallot(rest, before, x);
    }
  }

  lemma SecondBallot(rest: seq<Ballot>, before: seq<Ballot>, x: Ballot)
    requires FirstOfEach(before, rest) && Voted(before, x.window)
    ensures FirstOfEach(before, rest + [x])
  {
    var g := rest + [x];
    assert g[..|rest|] == rest;
    forall v | v in before ensures IsFirst(v, g) { FirstStays(v, g, |rest|); }
  }

  lemma FirstBallot(rest: seq<Ballot>, before: seq<Ballot>, x: Ballot)
    requires FirstOfEach(before, rest) && !Voted(before, x.window) && InRankOrder(rest + [x])
    ensures FirstOfEach(before + [x], rest + [x])
  {
    hide InRankOrder, IsFirst, Voted;
    var (g, votes) := (rest + [x], before + [x]);
    NotYetIn(rest, before, x);
    forall v | v in votes ensures IsFirst(v, g) {
      if v in before { StaysFirst(v, rest, x); } else { NewIsFirst(rest, x); }
    }
    forall y | y in g ensures Voted(votes, y.window) {
      if y in rest { VotedStays(before, x, y.window); } else { NewHasVoted(before, x); }
    }
    forall i | 0 <= i < |before| ensures before[i].window < x.window {
      assert before[i] in before;
      FirstIsIn(before[i], rest);
    }
  }

  /** A window that has not voted has no ballot so far, and later ballots are of later windows. */
  lemma NotYetIn(rest: seq<Ballot>, before: seq<Ballot>, x: Ballot)
    requires FirstOfEach(before, rest) && !Voted(before, x.window) && InRankOrder(rest + [x])
    ensures forall y | y in rest :: y.window < x.window
  {
    hide IsFirst, Voted;
    var g := rest + [x];
    forall y | y in rest ensures y.window < x.window {
      var j :| 0 <= j < |rest| && rest[j] == y;
      assert g[j] == y && g[|rest|] == x;
      assert Voted(before, y.window);
    }
  }

  lemma StaysFirst(v: Ballot, rest: seq<Ballot>, x: Ballot)
    requires IsFirst(v, rest)
    ensures IsFirst(v, rest + [x])
  {
    hide IsFirst;
    assert (rest + [x])[..|rest|] == rest;
    FirstStays(v, rest + [x], |rest|);
  }

  lemma NewIsFirst(rest: seq<Ballot>, x: Ballot)
    requires forall y | y in rest :: y.window < x.window
    ensures IsFirst(x, rest + [x])
  {
    var g := rest + [x];
    forall j | 0 <= j < |rest| ensures g[j].window != x.window { assert rest[j] in rest; }
    assert g[|rest|] == x;
  }

  lemma VotedStays(votes: seq<Ballot>, x: Ballot, w: nat)
    requires Voted(votes, w)
    ensures Voted(votes + [x], w)
  {
    var i :| 0 <= i < |votes| && votes[i].window == w;
    assert (votes + [x])[i].window == w;
  }

  lemma NewHasVoted(votes: seq<Ballot>, x: Ballot)
    ensures Voted(votes + [x], x.window)
  {
    assert (votes + [x])[|votes|].window == x.window;
  }

  lemma FirstIsIn(v: Ballot, g: seq<Ballot>)
    requires IsFirst(v, g)
    ensures v in g
  {
  }

  // Each window's list, as a transcript search answers it, is in rank order.

  ghost predicate RanksAscend(cands: seq<Candidate>) {
    forall i, j | 0 <= i < j < |cands| :: cands[i].rank < cands[j].rank
  }

  /** The ranks a search answers with are strictly ascending, which is what the laws below need. */
  lemma SearchRanksAscend(lexical: seq<Candidate>, dense: seq<Candidate>)
    ensures RanksAscend(Transcript.Hybrid(lexical, dense))
  {
    Transcript.SearchIsRanked(lexical, dense);
  }

  predicate Precedes(x: Ballot, y: Ballot) {
    x.window < y.window || (x.window == y.window && x.c.rank < y.c.rank)
  }

  lemma OrderGrows(g: seq<Ballot>, x: Ballot)
    requires InRankOrder(g) && forall y | y in g :: Precedes(y, x)
    ensures InRankOrder(g + [x])
  {
    var all := g + [x];
    forall i, j | 0 <= i < j < |all| ensures Precedes(all[i], all[j]) {
      assert all[i] == g[i] && g[i] in g;
    }
  }

  lemma {:induction false} CastComesFrom(window: nat, asked: Window, cands: seq<Candidate>)
    ensures forall x | x in Cast(window, asked, cands) :: x.window == window && x.c in cands
  {
    if cands != [] { CastComesFrom(window, asked, cands[..|cands| - 1]); }
  }

  lemma {:induction false} CastInOrder(before: seq<Ballot>, window: nat, asked: Window, cands: seq<Candidate>)
    requires RanksAscend(cands) && InRankOrder(before) && forall y | y in before :: y.window < window
    ensures InRankOrder(before + Cast(window, asked, cands))
  {
    if cands == [] {
      assert before + [] == before;
    } else {
      var (rest, last) := (cands[..|cands| - 1], cands[|cands| - 1]);
      CastInOrder(before, window, asked, rest);
      if Eligible(last) {
        var x := Ballot(window, asked, last);
        CastComesFrom(window, asked, rest);
        forall y | y in before + Cast(window, asked, rest) ensures Precedes(y, x) {
          if y !in before {
            var i :| 0 <= i < |rest| && rest[i] == y.c;
            assert cands[i] == y.c;
          }
        }
        OrderGrows(before + Cast(window, asked, rest), x);
        assert before + (Cast(window, asked, rest) + [x]) == before + Cast(window, asked, rest) + [x];
      } else {
        assert Cast(window, asked, cands) == Cast(window, asked, rest);
      }
    }
  }

  ghost predicate Searched(found: Found) {
    forall w | 0 <= w < |found| :: RanksAscend(found[w].1)
  }

  lemma {:induction false} BallotsInOrder(found: Found)
    requires Searched(found)
    ensures InRankOrder(Ballots(found))
  {
    if found != [] {
      var n := |found| - 1;
      var before := Ballots(found[..n]);
      BallotsInOrder(found[..n]);
      forall y | y in before ensures y.window < n {
        var i :| 0 <= i < |before| && before[i] == y;
      }
      CastInOrder(before, n, found[n].0, found[n].1);
    }
  }

  lemma {:induction false} BucketInOrder(ballots: seq<Ballot>, width: real, b: Bucket)
    requires width != 0.0 && InRankOrder(ballots)
    ensures InRankOrder(In(ballots, width, b))
  {
    if ballots != [] {
      var (rest, last) := (ballots[..|ballots| - 1], ballots[|ballots| - 1]);
      assert InRankOrder(rest) by { assert forall i | 0 <= i < |rest| :: rest[i] == ballots[i]; }
      BucketInOrder(rest, width, b);
      InAreBallots(rest, width, b);
      forall y | y in In(rest, width, b) ensures Precedes(y, last) {
        var i :| 0 <= i < |rest| && rest[i] == y;
        assert ballots[i] == y;
      }
      if BucketOf(last.c, width) == b { OrderGrows(In(rest, width, b), last); } else {
        assert In(ballots, width, b) == In(rest, width, b);
      }
    }
  }

  // Coverage

  lemma {:induction false} VotersCount(votes: seq<Ballot>)
    requires forall i, j | 0 <= i < j < |votes| :: votes[i].window < votes[j].window
    ensures |Voters(votes)| == |votes|
  {
    if votes != [] {
      var (rest, last) := (votes[..|votes| - 1], votes[|votes| - 1]);
      VotersCount(rest);
      VotersOfMore(rest, last);
      assert votes == rest + [last];
      assert last.window !in Voters(rest) by {
        assert forall i | 0 <= i < |rest| :: rest[i].window < last.window;
      }
    }
  }

  /** The windows below n with a ballot in g. */
  ghost function Asking(g: seq<Ballot>, n: nat): set<nat> {
    set w | 0 <= w < n && Voted(g, w)
  }

  lemma {:induction false} UpTo(s: set<nat>, n: nat)
    requires forall w | w in s :: w < n
    ensures |s| <= n
  {
    if n > 0 { UpTo(s - {n - 1}, n - 1); } else { assert s == {}; }
  }

  /** Coverage is the number of evidence rows and of windows that found the moment, so at most the windows asked. */
  lemma CoverageCountsWindows(t: Tables, found: Found, width: real, b: Bucket)
    requires width != 0.0 && Searched(found) && In(Ballots(found), width, b) != []
    ensures var g := In(Ballots(found), width, b); var hit := MomentOf(t, g);
      && hit.coverage == |hit.evidence| == |Asking(g, |found|)|
      && 0 < hit.coverage <= |found|
  {
    var g := In(Ballots(found), width, b);
    BallotsInOrder(found);
    BucketInOrder(Ballots(found), width, b);
    InAreBallots(Ballots(found), width, b);
    VotesAreFirst(g);
    VotersCount(Votes(g));
    VotersAsk(g, |found|);
    UpTo(Voters(Votes(g)), |found|);
    assert g[0] in g && Voted(Votes(g), g[0].window);
  }

  lemma VotersAsk(g: seq<Ballot>, n: nat)
    requires FirstOfEach(Votes(g), g) && forall x | x in g :: x.window < n
    ensures Voters(Votes(g)) == Asking(g, n) && forall w | w in Voters(Votes(g)) :: w < n
  {
    var votes := Votes(g);
    VotesAreBallots(g);
    forall w | w in Voters(votes) ensures w in Asking(g, n) {
      var i :| 0 <= i < |votes| && votes[i].window == w;
      assert votes[i] in votes && votes[i] in g;
      var j :| 0 <= j < |g| && g[j] == votes[i];
      assert Voted(g, w);
    }
    forall w | w in Asking(g, n) ensures w in Voters(votes) {
      var i :| 0 <= i < |g| && g[i].window == w;
      assert g[i] in g && Voted(votes, g[i].window);
    }
  }

  // Quality

  /** The best share a window has in g; zero when it has none. */
  function WindowBest(g: seq<Ballot>, w: nat): real {
    if g == [] then 0.0
    else
      var (before, last) := (WindowBest(g[..|g| - 1], w), g[|g| - 1]);
      if last.window == w && Worth(last.c) > before then Worth(last.c) else before
  }

  function SumOfBests(g: seq<Ballot>, n: nat): real {
    if n == 0 then 0.0 else SumOfBests(g, n - 1) + WindowBest(g, n - 1)
  }

  lemma {:induction false} BestIsLargest(g: seq<Ballot>, w: nat)
    ensures WindowBest(g, w) >= 0.0
    ensures forall x | x in g && x.window == w :: WindowBest(g, w) >= Worth(x.c)
    ensures WindowBest(g, w) > 0.0 ==> exists x :: x in g && x.window == w && Worth(x.c) == WindowBest(g, w)
  {
    if g != [] {
      var (rest, last) := (g[..|g| - 1], g[|g| - 1]);
      BestIsLargest(rest, w);
      assert forall x :: x in g <==> x in rest || x == last by { assert g == rest + [last]; }
    }
  }

  lemma RankLowersWorth(a: Candidate, b: Candidate)
    requires a.rank < b.rank
    ensures Worth(a) > Worth(b) > 0.0
  {
    FusionLaws.SmallerRankMore(1.0, RRF_K, a.rank, b.rank);
  }

  lemma {:induction false} SumChangesOnce(g: seq<Ballot>, x: Ballot, n: nat)
    ensures SumOfBests(g + [x], n)
      == SumOfBests(g, n) + (if x.window < n then WindowBest(g + [x], x.window) - WindowBest(g, x.window) else 0.0)
  {
    assert (g + [x])[..|g|] == g;
    if n > 0 { SumChangesOnce(g, x, n - 1); }
  }

  lemma {:induction false} QualityIsSumOfBests(g: seq<Ballot>, n: nat)
    requires InRankOrder(g) && forall x | x in g :: x.window < n
    ensures Quality(Votes(g)) == SumOfBests(g, n)
  {
    if g == [] {
      NoBests(n);
    } else {
      hide Quality, Votes, SumOfBests, WindowBest;
      var (rest, last) := (g[..|g| - 1], g[|g| - 1]);
      assert g == rest + [last] && last in g;
      forall x | x in rest ensures x.window < n { assert x in g; }
      QualityIsSumOfBests(rest, n);
      SumChangesOnce(rest, last, n);
      QualityStep(rest, last);
    }
  }

  lemma {:induction false} NoBests(n: nat)
    ensures SumOfBests([], n) == 0.0
  {
    if n > 0 { NoBests(n - 1); }
  }

  lemma BestStep(g: seq<Ballot>, x: Ballot)
    requires InRankOrder(g + [x])
    ensures WindowBest(g + [x], x.window) == if Voted(g, x.window) then WindowBest(g, x.window) else Worth(x.c)
    ensures !Voted(g, x.window) ==> WindowBest(g, x.window) == 0.0
  {
    hide Worth;
    var all := g + [x];
    assert all[..|g|] == g && all[|g|] == x;
    BestIsLargest(g, x.window);
    RankLowersWorth(x.c, x.c.(rank := x.c.rank + 1));
    if Voted(g, x.window) {
      var j :| 0 <= j < |g| && g[j].window == x.window;
      assert all[j] == g[j] && g[j] in g;
      RankLowersWorth(g[j].c, x.c);
    } else {
      forall y | y in g ensures y.window != x.window {
        var j :| 0 <= j < |g| && g[j] == y;
      }
    }
  }

  lemma QualityStep(g: seq<Ballot>, x: Ballot)
    requires InRankOrder(g + [x])
    ensures Quality(Votes(g + [x])) - Quality(Votes(g)) == WindowBest(g + [x], x.window) - WindowBest(g, x.window)
  {
    hide Worth, WindowBest, Votes;
    assert InRankOrder(g) by { assert forall i | 0 <= i < |g| :: (g + [x])[i] == g[i]; }
    VotesGrow(g, x);
    BestStep(g, x);
    VotesAreFirst(g);
    VotersAskOnce(g, x.window);
    assert (Votes(g) + [x])[..|Votes(g)|] == Votes(g);
  }

  lemma VotersAskOnce(g: seq<Ballot>, w: nat)
    requires FirstOfEach(Votes(g), g)
    ensures Voted(Votes(g), w) <==> Voted(g, w)
  {
    hide Votes;
    var votes := Votes(g);
    VotesAreBallots(g);
    if Voted(votes, w) {
      var i :| 0 <= i < |votes| && votes[i].window == w;
      assert votes[i] in votes;
      var j :| 0 <= j < |g| && g[j] == votes[i];
      assert g[j].window == w;
    }
    if Voted(g, w) {
      var i :| 0 <= i < |g| && g[i].window == w;
      assert g[i] in g;
    }
  }

  /** Quality is the sum over all windows of the best share each has in the moment. */
  lemma QualitySumsTheBests(t: Tables, found: Found, width: real, b: Bucket)
    requires width != 0.0 && Searched(found) && In(Ballots(found), width, b) != []
    ensures var g := In(Ballots(found), width, b);
      MomentOf(t, g).quality == SumOfBests(g, |found|)
  {
    BallotsInOrder(found);
    BucketInOrder(Ballots(found), width, b);
    InAreBallots(Ballots(found), width, b);
    forall x | x in In(Ballots(found), width, b) ensures x.window < |found| {
      var i :| 0 <= i < |Ballots(found)| && Ballots(found)[i] == x;
    }
    QualityIsSumOfBests(In(Ballots(found), width, b), |found|);
  }

  // The moment shown

  lemma {:induction false} TopIsFirst(g: seq<Ballot>, first: real) returns (i: nat)
    requires g != []
    ensures i < |g| && Top(g, first) == (g[i].c.ts, Worth(g[i].c))
    ensures forall j | 0 <= j < |g| :: Worth(g[j].c) <= Worth(g[i].c)
    ensures forall j | 0 <= j < i :: Worth(g[j].c) < Worth(g[i].c)
  {
    var n := |g| - 1;
    RankLowersWorth(g[n].c, g[n].c.(rank := g[n].c.rank + 1));
    if n == 0 {
      i := 0;
    } else {
      i := TopIsFirst(g[..n], first);
      assert forall j | 0 <= j < n :: g[..n][j] == g[j];
      if Worth(g[n].c) > Worth(g[i].c) { i := n; }
    }
  }

  /** No ballot of g has a smaller rank than ballot i, and no earlier one an equal rank. */
  ghost predicate IsTopBallot(g: seq<Ballot>, i: nat) {
    && i < |g|
    && (forall j | 0 <= j < |g| :: g[i].c.rank <= g[j].c.rank)
    && (forall j | 0 <= j < i :: g[i].c.rank < g[j].c.rank)
  }

  /** The moment is shown at the first of its best-ranked candidates, however the windows voted. */
  lemma MomentIsTheBestBallot(t: Tables, g: seq<Ballot>)
    requires g != []
    ensures exists i: nat :: IsTopBallot(g, i) && MomentOf(t, g).ts == g[i].c.ts
  {
    var i := TopIsFirst(g, g[0].c.ts);
    forall j | 0 <= j < |g| ensures g[i].c.rank <= g[j].c.rank {
      if g[j].c.rank < g[i].c.rank { RankLowersWorth(g[j].c, g[i].c); }
    }
    forall j | 0 <= j < i ensures g[i].c.rank < g[j].c.rank {}
  }

  lemma StrongerOrders()
    ensures TotalPreorder(Stronger)
  {
    forall a: AudioHit, b: AudioHit ensures Stronger(a, b) || Stronger(b, a) {}
    forall a: AudioHit, b: AudioHit, c: AudioHit | Stronger(a, b) && Stronger(b, c) ensures Stronger(a, c) {}
  }

  /** One hit for each bucket voted in, by coverage and then quality, ties in order of first appearance. */
  lemma MomentsAreRanked(t: Tables, found: Found, width: real)
    requires width != 0.0
    ensures var keys := Keys([], BucketsOf(Ballots(found), width));
      && Distinct(keys)
      && (forall x | x in Ballots(found) :: BucketOf(x.c, width) in keys)
      && StablySorts(AllMoments(t, Ballots(found), width), Answer(t, found, width), Stronger)
  {
    var ballots := Ballots(found);
    KeysDistinct([], BucketsOf(ballots, width));
    forall x | x in ballots ensures BucketOf(x.c, width) in Keys([], BucketsOf(ballots, width)) {
      var i :| 0 <= i < |ballots| && ballots[i] == x;
      assert BucketsOf(ballots, width)[i] == BucketOf(x.c, width);
    }
    StrongerOrders();
    StableSortIsStable(AllMoments(t, ballots, width), Stronger);
  }

  /** Of two moments in the answer the first covers more windows, or as many with no smaller quality. */
  lemma AnswerIsBestFirst(t: Tables, found: Found, width: real, i: nat, j: nat)
    requires width != 0.0 && i < j < |Answer(t, found, width)|
    ensures var (a, b) := (Answer(t, found, width)[i], Answer(t, found, width)[j]);
      a.coverage > b.coverage || (a.coverage == b.coverage && a.quality >= b.quality)
  {
    hide AllMoments;
    StrongerOrders();
    StableSortIsStable(AllMoments(t, Ballots(found), width), Stronger);
    SortedAt(Answer(t, found, width), Stronger, i, j);
  }

  /** No moment that the cut drops covers more windows than a kept one, or as many with a larger quality. */
  lemma CutKeepsTheBest(t: Tables, found: Found, width: real, k: int, i: nat, j: nat)
    requires width != 0.0 && i < |Upto(Answer(t, found, width), k)| <= j < |Answer(t, found, width)|
    ensures var (kept, cut) := (Upto(Answer(t, found, width), k)[i], Answer(t, found, width)[j]);
      && cut.coverage <= kept.coverage
      && (cut.coverage == kept.coverage ==> cut.quality <= kept.quality)
  {
    hide Answer;
    UptoIsPrefix(Answer(t, found, width), k);
    AnswerIsBestFirst(t, found, width, i, j);
  }

  // What is voted with, and what a moment tells of it

  /** Candidate i of window w is a transcript row, and x its ballot. */
  ghost predicate Casts(found: Found, w: nat, i: nat, x: Ballot) {
    && w < |found| && i < |found[w].1|
    && var c := found[w].1[i];
    c.modality == Spoken && c.segment.Some? && x == Ballot(w, found[w].0, c)
  }

  lemma {:induction false} CastHas(window: nat, asked: Window, cands: seq<Candidate>, x: Ballot)
    ensures x in Cast(window, asked, cands) <==>
      exists i :: 0 <= i < |cands| && cands[i].modality == Spoken && cands[i].segment.Some? && x == Ballot(window, asked, cands[i])
  {
    if cands != [] {
      var n := |cands| - 1;
      CastHas(window, asked, cands[..n], x);
      assert cands == cands[..n] + [cands[n]];
    }
  }

  /** The transcript rows of every window vote, and nothing else does. */
  lemma {:induction false} EveryRowVotes(found: Found, x: Ballot)
    ensures x in Ballots(found) <==> exists w: nat, i: nat :: Casts(found, w, i, x)
  {
    if found != [] {
      hide Cast;
      var n := |found| - 1;
      EveryRowVotes(found[..n], x);
      CastHas(n, found[n].0, found[n].1, x);
      if w: nat, i: nat :| Casts(found[..n], w, i, x) { assert Casts(found, w, i, x); }
      if w: nat, i: nat :| Casts(found, w, i, x) {
        if w < n { assert Casts(found[..n], w, i, x); }
      }
      if i :| 0 <= i < |found[n].1| && found[n].1[i].modality == Spoken && found[n].1[i].segment.Some?
              && x == Ballot(n, found[n].0, found[n].1[i])
      {
        assert Casts(found, n, i, x);
      }
    }
  }

  function Scores(evidence: seq<Evidence>): real {
    if evidence == [] then 0.0 else Scores(evidence[..|evidence| - 1]) + evidence[|evidence| - 1].score
  }

  /** The evidence row tells of ballot b, and its score is 1 / (60 + rank). */
  ghost predicate TellsOf(t: Tables, e: Evidence, b: Ballot) {
    && b.c.segment.Some? && e.segment == b.c.segment.value && e.matched == t.textOf(e.segment)
    && e.text == b.asked.text && e.kind == b.asked.kind && e.ts == b.c.ts
    && e.score * (60 + b.c.rank) as real == 1.0
  }

  lemma {:induction false} QualityIsScores(t: Tables, votes: seq<Ballot>)
    ensures Quality(votes) == Scores(Explained(t, votes))
  {
    if votes != [] {
      var n := |votes| - 1;
      QualityIsScores(t, votes[..n]);
      assert Explained(t, votes)[..n] == Explained(t, votes[..n]);
    }
  }

  /** A moment's evidence: one row for the first ballot of each window that found it; their scores make the quality. */
  lemma EvidenceTells(t: Tables, g: seq<Ballot>)
    requires g != [] && InRankOrder(g) && forall x | x in g :: x.c.segment.Some?
    ensures var hit := MomentOf(t, g);
      && hit.video == g[0].c.video && hit.scene == t.sceneAt(hit.video, hit.ts)
      && hit.quality == Scores(hit.evidence)
      && |hit.evidence| == |Votes(g)|
      && forall i | 0 <= i < |hit.evidence| :: IsFirst(Votes(g)[i], g) && TellsOf(t, hit.evidence[i], Votes(g)[i])
  {
    hide Votes, IsFirst, Voted, TellsOf, EvidenceOf, InRankOrder, Top, Voters, Quality, Scores;
    VotesAreFirst(g);
    VotesAreBallots(g);
    QualityIsScores(t, Votes(g));
    forall i | 0 <= i < |Votes(g)| ensures IsFirst(Votes(g)[i], g) && TellsOf(t, EvidenceOf(t, Votes(g)[i]), Votes(g)[i]) {
      assert Votes(g)[i] in Votes(g);
      BallotIsTold(t, Votes(g)[i]);
    }
  }

  lemma BallotIsTold(t: Tables, b: Ballot)
    requires b.c.segment.Some?
    ensures TellsOf(t, EvidenceOf(t, b), b)
  {
    Undivided(1.0, (60 + b.c.rank) as real);
  }
}
