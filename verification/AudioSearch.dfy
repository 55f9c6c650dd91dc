/** Searching by an audio clip (src/kanomori/retrieval/audio.py): windows of the clip, a transcript search for each,
    and the coverage vote. */
module AudioSearch {
  import opened Basics
  import opened Candidates
  import opened Sorting
  import opened Fusion
  import opened Merge
  import opened MergeLaws
  import opened AudioQuery
  import opened Audio
  import opened AudioLaws
  import Transcript

  const BUCKET_SEC := 8.0

  /** The ranked rows of the two transcript queries for a text. */
  datatype Index = Index(lexical: string -> seq<Candidate>, dense: string -> seq<Candidate>)

  function AllText(segments: seq<AsrSegment>): string {
    if segments == [] then ""
    else
      var text := if segments[0].text.Some? then segments[0].text.value else "";
      if |segments| == 1 then text else text + " " + AllText(segments[1..])
  }

  function Asked(index: Index, w: Window): (Window, seq<Candidate>) {
    (w, Transcript.Hybrid(index.lexical(w.norm), index.dense(w.norm)))
  }

  /** Each window of the clip with the answer to its search. */
  function PerWindow(text: Text, index: Index, segments: seq<AsrSegment>): (found: Found)
    ensures |found| == |Windows(text, segments)|
  {
    var windows := Windows(text, segments);
    seq(|windows|, i requires 0 <= i < |windows| => Asked(index, windows[i]))
  }

  method AudioCandidates(t: Tables, text: Text, index: Index, segments: seq<AsrSegment>, k: int)
    returns (fullText: string, hits: seq<AudioHit>)
    ensures fullText == text.normalize(AllText(segments))
    ensures hits == Upto(Answer(t, PerWindow(text, index, segments), BUCKET_SEC), k)
  {
    hide Windows, Answer, Ballots, Transcript.Hybrid, AllText;
    fullText := text.normalize(AllText(segments));
    var windows := BuildWindows(text, segments);
    var found: Found := [];
    for i := 0 to |windows|
      invariant found == seq(i, j requires 0 <= j < i => Asked(index, windows[j]))
    {
      var cands := Transcript.Search(index.lexical(windows[i].norm), index.dense(windows[i].norm));
      found := found + [(windows[i], cands)];
    }
    var answer := AggregateCoverage(t, found, BUCKET_SEC, k);
    if Ballots(found) == [] { NoAnswer(t, found); }
    hits := answer.value;
  }

  lemma NoAnswer(t: Tables, found: Found)
    requires Ballots(found) == []
    ensures Answer(t, found, BUCKET_SEC) == []
  {
    NoKeys(BUCKET_SEC);
  }

  lemma EachIsSearched(text: Text, index: Index, segments: seq<AsrSegment>)
    ensures Searched(PerWindow(text, index, segments))
  {
    forall w | 0 <= w < |PerWindow(text, index, segments)| ensures RanksAscend(PerWindow(text, index, segments)[w].1) {
      var norm := Windows(text, segments)[w].norm;
      SearchRanksAscend(index.lexical(norm), index.dense(norm));
    }
  }

  lemma HitHasBucket(t: Tables, found: Found, hit: AudioHit) returns (b: Bucket)
    requires hit in Answer(t, found, BUCKET_SEC)
    ensures var g := In(Ballots(found), BUCKET_SEC, b);
      g != [] && hit == MomentOf(t, g)
  {
    hide MomentOf, In, Keys;
    var all := AllMoments(t, Ballots(found), BUCKET_SEC);
    StrongerOrders();
    StableSortIsStable(all, Stronger);
    assert hit in multiset(Answer(t, found, BUCKET_SEC));
    var i :| 0 <= i < |all| && all[i] == hit;
    b := Keys([], BucketsOf(Ballots(found), BUCKET_SEC))[i];
    KeyHasBallots(Ballots(found), BUCKET_SEC, b);
  }

  /**
   * For every clip and whatever the searches return: a moment counts the windows that found it, one evidence row
   * each and at most twice the kept segments, and its quality sums the best share of every window.
   */
  lemma EveryHitIsCounted(t: Tables, text: Text, index: Index, segments: seq<AsrSegment>, k: int, hit: AudioHit)
    requires hit in Upto(Answer(t, PerWindow(text, index, segments), BUCKET_SEC), k)
    ensures exists b :: var g := In(Ballots(PerWindow(text, index, segments)), BUCKET_SEC, b);
      && g != [] && hit == MomentOf(t, g)
      && hit.coverage == |hit.evidence| == |Asking(g, |Windows(text, segments)|)|
      && 0 < hit.coverage <= 2 * |CleanAll(text, segments)|
      && hit.quality == SumOfBests(g, |Windows(text, segments)|)
  {
    hide Windows, PerWindow, Ballots, MomentOf, In, Asking, SumOfBests, Answer, CleanAll, Searched;
    var found := PerWindow(text, index, segments);
    EachIsSearched(text, index, segments);
    var b := HitHasBucket(t, found, hit);
    CoverageCountsWindows(t, found, BUCKET_SEC, b);
    QualitySumsTheBests(t, found, BUCKET_SEC, b);
    WindowsAreBounded(text, segments);
  }

  /** All that votes for one moment is of one video and at most eight seconds apart. */
  lemma MomentsAreClose(found: Found, b: Bucket, x: Ballot, y: Ballot)
    requires x in In(Ballots(found), BUCKET_SEC, b) && y in In(Ballots(found), BUCKET_SEC, b)
    ensures x.c.video == y.c.video && -8.0 <= x.c.ts - y.c.ts <= 8.0
  {
    InAreBallots(Ballots(found), BUCKET_SEC, b);
    MergedAreClose(x.c, y.c, BUCKET_SEC);
  }

  /** What each answered moment tells: the video and scene, and the evidence that makes up its quality. */
  lemma EveryHitTells(t: Tables, text: Text, index: Index, segments: seq<AsrSegment>, k: int, hit: AudioHit)
    requires hit in Upto(Answer(t, PerWindow(text, index, segments), BUCKET_SEC), k)
    ensures hit.scene == t.sceneAt(hit.video, hit.ts) && hit.quality == Scores(hit.evidence)
    ensures forall i | 0 <= i < |hit.evidence| ::
      exists x | x in Ballots(PerWindow(text, index, segments)) :: x.c.video == hit.video && TellsOf(t, hit.evidence[i], x)
  {
    hide Windows, PerWindow, Ballots, MomentOf, Answer, Searched, TellsOf, Votes;
    var found := PerWindow(text, index, segments);
    EachIsSearched(text, index, segments);
    var b := HitHasBucket(t, found, hit);
    var g := In(Ballots(found), BUCKET_SEC, b);
    BallotsInOrder(found);
    BucketInOrder(Ballots(found), BUCKET_SEC, b);
    InAreBallots(Ballots(found), BUCKET_SEC, b);
    forall x | x in g ensures x.c.segment.Some? {
      var i :| 0 <= i < |Ballots(found)| && Ballots(found)[i] == x;
    }
    EvidenceTells(t, g);
    VotesAreBallots(g);
    forall i | 0 <= i < |hit.evidence|
      ensures exists x | x in Ballots(found) :: x.c.video == hit.video && TellsOf(t, hit.evidence[i], x)
    {
      var x := Votes(g)[i];
      assert x in Votes(g) && x in g && g[0] in g;
      MomentsAreClose(found, b, x, g[0]);
    }
  }

  /** Each kept segment is searched for by its normalized text, and the last search is for all kept segments. */
  lemma WhatIsAsked(text: Text, index: Index, segments: seq<AsrSegment>)
    requires CleanAll(text, segments) != []
    ensures var (clean, found) := (CleanAll(text, segments), PerWindow(text, index, segments));
      && |clean| < |found|
      && (forall i | 0 <= i < |clean| ::
            var query := text.normalize(clean[i].text);
            found[i].1 == Transcript.Hybrid(index.lexical(query), index.dense(query)))
      && var all := text.normalize(Joined(clean));
         found[|found| - 1].1 == Transcript.Hybrid(index.lexical(all), index.dense(all))
  {
    hide Windows, CleanAll, Transcript.Hybrid, Joined;
    WindowsSay(text, segments);
  }

  /** The text of the clip is that of all its segments, blanks between them, also of those that are not kept. */
  lemma AllTextAppends(segments: seq<AsrSegment>, last: AsrSegment)
    ensures var text := if last.text.Some? then last.text.value else "";
      AllText(segments + [last]) == if segments == [] then text else AllText(segments) + " " + text
  {
    var (all, text) := (segments + [last], if last.text.Some? then last.text.value else "");
    if |segments| > 1 {
      assert all[1..] == segments[1..] + [last];
      AllTextAppends(segments[1..], last);
      var first := if segments[0].text.Some? then segments[0].text.value else "";
      assert first + " " + (AllText(segments[1..]) + " " + text) == first + " " + AllText(segments[1..]) + " " + text;
    } else if |segments| == 1 {
      assert all[1..] == [last];
    } else {
      assert all == [last];
    }
  }
}
