/** Hybrid transcript search (src/kanomori/retrieval/transcript.py): fuse, deduplicate, re-rank. */
module Transcript {
  import opened Basics
  import opened Candidates
  import opened Fusion
  import opened FusionLaws
  import opened Sorting

  const RRF_K := 60

  function Segment(c: Candidate): Option<nat> { c.segment }

  function Lists(lexical: seq<Candidate>, dense: seq<Candidate>): (lists: seq<seq<Option<nat>>>)
    ensures |lists| == 2
  {
    [Keyed(lexical, Segment), Keyed(dense, Segment)]
  }

  lemma FusedHasBase(lexical: seq<Candidate>, dense: seq<Candidate>, x: Option<nat>)
    requires exists l :: 0 <= l < 2 && x in Lists(lexical, dense)[l]
    ensures First(lexical + dense, Segment, x).Some?
  {
    var l :| 0 <= l < 2 && x in Lists(lexical, dense)[l];
    var i :| 0 <= i < |Lists(lexical, dense)[l]| && Lists(lexical, dense)[l][i] == x;
    var at := if l == 0 then i else |lexical| + i;
    assert Segment((lexical + dense)[at]) == x;
  }

  /** Entry i of the fused ranking, dressed in the row of the first candidate with its segment. */
  function Answered(lexical: seq<Candidate>, dense: seq<Candidate>, fused: (Option<nat>, real), i: nat): Candidate {
    match First(lexical + dense, Segment, fused.0)
    case Some(base) => Candidate(base.video, base.ts, Spoken, i, Some(fused.1), fused.0)
    case None => Candidate(0, 0.0, Spoken, i, Some(fused.1), fused.0)
  }

  function Hybrid(lexical: seq<Candidate>, dense: seq<Candidate>): seq<Candidate> {
    var fused := Fuse(Lists(lexical, dense), Ones(2), RRF_K);
    seq(|fused|, i requires 0 <= i < |fused| => Answered(lexical, dense, fused[i], i))
  }

  method Search(lexical: seq<Candidate>, dense: seq<Candidate>) returns (out: seq<Candidate>)
    ensures out == Hybrid(lexical, dense)
  {
    hide Fuse, First;
    var bySegment := SetDefaults(lexical + dense, Segment);
    var lists := Lists(lexical, dense);
    var ranking := ReciprocalRankFusion(lists, RRF_K, None);
    var fused := ranking.items;
    FuseMeaning(lists, Ones(2), RRF_K);
    out := [];
    for rank := 0 to |fused|
      invariant out == seq(rank, i requires 0 <= i < rank => Answered(lexical, dense, fused[i], i))
    {
      FusedHasBase(lexical, dense, fused[rank].0);
      var base := bySegment[fused[rank].0];
      out := out + [Candidate(base.video, base.ts, Spoken, rank, Some(fused[rank].1), fused[rank].0)];
    }
  }

  /** What a database query returns: each row once. */
  ghost predicate Rows(cands: seq<Candidate>) {
    Distinct(Keyed(cands, Segment))
  }

  /** Re-ranked from zero, best first, over distinct segments. */
  lemma SearchIsRanked(lexical: seq<Candidate>, dense: seq<Candidate>)
    ensures var out := Hybrid(lexical, dense);
      && (forall i | 0 <= i < |out| :: out[i].rank == i && out[i].modality == Spoken)
      && (forall i, j | 0 <= i < j < |out| :: out[i].segment != out[j].segment && out[i].raw.value >= out[j].raw.value)
  {
    FuseMeaning(Lists(lexical, dense), Ones(2), RRF_K);
  }

  /** Every segment either search found is answered. */
  lemma EverySegmentIsAnswered(lexical: seq<Candidate>, dense: seq<Candidate>, c: Candidate)
    requires c in lexical + dense
    ensures exists i :: 0 <= i < |Hybrid(lexical, dense)| && Hybrid(lexical, dense)[i].segment == c.segment
  {
    var (lists, all) := (Lists(lexical, dense), lexical + dense);
    var fused := Fuse(lists, Ones(2), RRF_K);
    FuseMeaning(lists, Ones(2), RRF_K);
    var at :| 0 <= at < |all| && all[at] == c;
    if at < |lexical| { assert lists[0][at] == c.segment; } else { assert lists[1][at - |lexical|] == c.segment; }
    assert (c.segment, Score(lists, Ones(2), RRF_K, c.segment)) in fused;
    var i :| 0 <= i < |fused| && fused[i].0 == c.segment;
    assert Hybrid(lexical, dense)[i].segment == c.segment;
  }

  /** Every answer is a row one of the searches found, the first with its segment. */
  lemma EveryAnswerIsARow(lexical: seq<Candidate>, dense: seq<Candidate>, i: nat) returns (at: nat)
    requires i < |Hybrid(lexical, dense)|
    ensures var (a, all) := (Hybrid(lexical, dense)[i], lexical + dense);
      && at < |all|
      && all[at].segment == a.segment && all[at].video == a.video && all[at].ts == a.ts
      && forall j | 0 <= j < at :: all[j].segment != a.segment
  {
    var lists := Lists(lexical, dense);
    FuseMeaning(lists, Ones(2), RRF_K);
    var x := Fuse(lists, Ones(2), RRF_K)[i].0;
    FusedHasBase(lexical, dense, x);
    at := FirstIsEarliest(lexical + dense, Segment, x);
    assert forall j | 0 <= j < at :: Segment((lexical + dense)[j]) != x;
  }

  /** Up to sixty rows a search, what both searches found comes before what only one found. */
  lemma AgreementLeads(lexical: seq<Candidate>, dense: seq<Candidate>, k: nat, i: nat, j: nat)
    requires Rows(lexical) && Rows(dense) && |lexical| <= k && |dense| <= k && k <= 60
    requires i < |Hybrid(lexical, dense)| && j < |Hybrid(lexical, dense)|
    requires var (x, y) := (Hybrid(lexical, dense)[i].segment, Hybrid(lexical, dense)[j].segment);
      && x in Keyed(lexical, Segment) && x in Keyed(dense, Segment)
      && !(y in Keyed(lexical, Segment) && y in Keyed(dense, Segment))
    ensures i < j
  {
    var lists := Lists(lexical, dense);
    var fused := Fuse(lists, Ones(2), RRF_K);
    assert InTwo(lists, fused[i].0) by { assert fused[i].0 in lists[0] && fused[i].0 in lists[1]; }
    AgreementBeatsOne(lists, Ones(2), RRF_K, 60, fused[i].0, fused[j].0);
    HigherIsAbove(lists, Ones(2), RRF_K, fused[i].0, fused[j].0);
  }

  /** The score of an answer is 1 / (60 + rank) for each of the two lists it is in. */
  lemma AnswerScore(lexical: seq<Candidate>, dense: seq<Candidate>, i: nat) returns (p: real, q: real)
    requires Rows(lexical) && Rows(dense) && i < |Hybrid(lexical, dense)|
    ensures var a := Hybrid(lexical, dense)[i];
      && a.raw == Some(p + q)
      && Gives(Keyed(lexical, Segment), 1.0, 60, a.segment, p) && Gives(Keyed(dense, Segment), 1.0, 60, a.segment, q)
  {
    var (a, lists) := (Hybrid(lexical, dense)[i], Lists(lexical, dense));
    FuseMeaning(lists, Ones(2), RRF_K);
    p, q := ListScore(lists[0], 1.0, 60, a.segment), ListScore(lists[1], 1.0, 60, a.segment);
    TwoLists(lists[0], lists[1], 60, a.segment);
    assert lists == [lists[0], lists[1]];
    GivesShare(lists[0], 1.0, 60, a.segment);
    GivesShare(lists[1], 1.0, 60, a.segment);
  }
}
