/** Screenshot search (src/kanomori/retrieval/screenshot.py): image hash, dense image and OCR, fused. */
module Screenshot {
  import opened Basics
  import opened Candidates
  import opened Fusion
  import opened FusionLaws
  import opened Sorting

  const RRF_K := 60

  type Key = (Modality, Option<nat>)

  function KeyOf(c: Candidate): Key { (c.modality, c.segment) }

  function Lists(hashed: seq<Candidate>, dense: seq<Candidate>, texts: seq<Candidate>): (lists: seq<seq<Key>>)
    ensures |lists| == 3
  {
    [Keyed(hashed, KeyOf), Keyed(dense, KeyOf), Keyed(texts, KeyOf)]
  }

  lemma FusedHasBase(hashed: seq<Candidate>, dense: seq<Candidate>, texts: seq<Candidate>, x: Key)
    requires exists l :: 0 <= l < 3 && x in Lists(hashed, dense, texts)[l]
    ensures First(hashed + dense + texts, KeyOf, x).Some?
  {
    var l :| 0 <= l < 3 && x in Lists(hashed, dense, texts)[l];
    var i :| 0 <= i < |Lists(hashed, dense, texts)[l]| && Lists(hashed, dense, texts)[l][i] == x;
    var at := if l == 0 then i else if l == 1 then |hashed| + i else |hashed| + |dense| + i;
    assert KeyOf((hashed + dense + texts)[at]) == x;
  }

  /** Entry i of the fused ranking: the first candidate with its key, given the new rank and score. */
  function Answered(all: seq<Candidate>, fused: (Key, real), i: nat): Candidate {
    match First(all, KeyOf, fused.0)
    case Some(base) => base.(rank := i, raw := Some(fused.1))
    case None => Candidate(0, 0.0, fused.0.0, i, Some(fused.1), fused.0.1)
  }

  function Fused(hashed: seq<Candidate>, dense: seq<Candidate>, texts: seq<Candidate>): seq<Candidate> {
    var fused := Fuse(Lists(hashed, dense, texts), Ones(3), RRF_K);
    seq(|fused|, i requires 0 <= i < |fused| => Answered(hashed + dense + texts, fused[i], i))
  }

  method Search(hashed: seq<Candidate>, dense: seq<Candidate>, texts: seq<Candidate>, k: int)
    returns (out: seq<Candidate>)
    ensures out == Upto(Fused(hashed, dense, texts), k)
  {
    hide Fuse, First;
    var all := hashed + dense + texts;
    var byKey := SetDefaults(all, KeyOf);
    var lists := Lists(hashed, dense, texts);
    var ranking := ReciprocalRankFusion(lists, RRF_K, None);
    var fused := ranking.items;
    FuseMeaning(lists, Ones(3), RRF_K);
    out := [];
    for rank := 0 to |fused|
      invariant out == seq(rank, i requires 0 <= i < rank => Answered(all, fused[i], i))
    {
      FusedHasBase(hashed, dense, texts, fused[rank].0);
      var base := byKey[fused[rank].0];
      out := out + [base.(rank := rank, raw := Some(fused[rank].1))];
    }
    out := Upto(out, k);
  }

  /** The two visual queries return frames, the text query OCR rows; each row once. */
  ghost predicate Queried(hashed: seq<Candidate>, dense: seq<Candidate>, texts: seq<Candidate>) {
    && Distinct(Keyed(hashed, KeyOf)) && Distinct(Keyed(dense, KeyOf)) && Distinct(Keyed(texts, KeyOf))
    && (forall c | c in hashed + dense :: c.modality == Visual)
    && (forall c | c in texts :: c.modality == Written)
  }

  lemma KeyAt(hashed: seq<Candidate>, dense: seq<Candidate>, texts: seq<Candidate>, i: nat)
    requires i < |Fused(hashed, dense, texts)|
    ensures var (full, fused) := (Fused(hashed, dense, texts), Fuse(Lists(hashed, dense, texts), Ones(3), RRF_K));
      |full| == |fused| && KeyOf(full[i]) == fused[i].0 && full[i].rank == i && full[i].raw == Some(fused[i].1)
  {
    FuseMeaning(Lists(hashed, dense, texts), Ones(3), RRF_K);
    FusedHasBase(hashed, dense, texts, Fuse(Lists(hashed, dense, texts), Ones(3), RRF_K)[i].0);
  }

  /** The answer is ranked from zero, best first, over distinct keys. */
  lemma SearchIsDeduplicated(hashed: seq<Candidate>, dense: seq<Candidate>, texts: seq<Candidate>, k: nat)
    ensures var out := Upto(Fused(hashed, dense, texts), k);
      && |out| <= k
      && (forall i | 0 <= i < |out| :: out[i].rank == i)
      && (forall i, j | 0 <= i < j < |out| :: KeyOf(out[i]) != KeyOf(out[j]) && out[i].raw.value >= out[j].raw.value)
  {
    var full := Fused(hashed, dense, texts);
    var out := Upto(full, k);
    forall i | 0 <= i < |out| ensures out[i].rank == i { KeyAt(hashed, dense, texts, i); }
    forall i, j | 0 <= i < j < |out|
      ensures KeyOf(out[i]) != KeyOf(out[j]) && out[i].raw.value >= out[j].raw.value
    {
      KeyAt(hashed, dense, texts, i);
      KeyAt(hashed, dense, texts, j);
      FuseMeaning(Lists(hashed, dense, texts), Ones(3), RRF_K);
    }
  }

  /** Cutting at k loses only candidates whose fused score no kept one is below. */
  lemma CutKeepsTheBest(hashed: seq<Candidate>, dense: seq<Candidate>, texts: seq<Candidate>, k: nat, c: Candidate)
    requires c in hashed + dense + texts
    ensures var out := Upto(Fused(hashed, dense, texts), k);
      || KeyOf(c) in Keyed(out, KeyOf)
      || (|out| == k && forall i | 0 <= i < k ::
            out[i].raw.value >= Score(Lists(hashed, dense, texts), Ones(3), RRF_K, KeyOf(c)))
  {
    var lists := Lists(hashed, dense, texts);
    var fused := Fuse(lists, Ones(3), RRF_K);
    var out := Upto(Fused(hashed, dense, texts), k);
    IsListed(hashed, dense, texts, c);
    var at := WhereFused(lists, KeyOf(c));
    KeyAt(hashed, dense, texts, at);
    if at < k {
      assert Keyed(out, KeyOf)[at] == KeyOf(c);
    } else {
      forall i | 0 <= i < k ensures out[i].raw.value >= fused[at].1 {
        KeyAt(hashed, dense, texts, i);
        Descends(lists, i, at);
      }
    }
  }

  lemma WhereFused(lists: seq<seq<Key>>, x: Key) returns (at: nat)
    requires |lists| == 3 && exists l :: 0 <= l < 3 && x in lists[l]
    ensures var fused := Fuse(lists, Ones(3), RRF_K);
      at < |fused| && fused[at] == (x, Score(lists, Ones(3), RRF_K, x))
  {
    FuseMeaning(lists, Ones(3), RRF_K);
    var fused := Fuse(lists, Ones(3), RRF_K);
    assert (x, Score(lists, Ones(3), RRF_K, x)) in fused;
    at :| 0 <= at < |fused| && fused[at] == (x, Score(lists, Ones(3), RRF_K, x));
  }

  lemma Descends(lists: seq<seq<Key>>, i: nat, j: nat)
    requires |lists| == 3 && i < j < |Fuse(lists, Ones(3), RRF_K)|
    ensures Fuse(lists, Ones(3), RRF_K)[i].1 >= Fuse(lists, Ones(3), RRF_K)[j].1
  {
    FuseMeaning(lists, Ones(3), RRF_K);
  }

  lemma IsListed(hashed: seq<Candidate>, dense: seq<Candidate>, texts: seq<Candidate>, c: Candidate)
    requires c in hashed + dense + texts
    ensures exists l :: 0 <= l < 3 && KeyOf(c) in Lists(hashed, dense, texts)[l]
  {
    var (all, lists) := (hashed + dense + texts, Lists(hashed, dense, texts));
    var at :| 0 <= at < |all| && all[at] == c;
    if at < |hashed| {
      assert lists[0][at] == KeyOf(c);
    } else if at < |hashed| + |dense| {
      assert lists[1][at - |hashed|] == KeyOf(c);
    } else {
      assert lists[2][at - |hashed| - |dense|] == KeyOf(c);
    }
  }

  /** A frame and an OCR row never share a key, even with the same id: text rows score on their own. */
  lemma TextStandsAlone(hashed: seq<Candidate>, dense: seq<Candidate>, texts: seq<Candidate>, i: nat)
    requires Queried(hashed, dense, texts) && i < |texts|
    ensures !InTwo(Lists(hashed, dense, texts), KeyOf(texts[i]))
    ensures Score(Lists(hashed, dense, texts), Ones(3), RRF_K, KeyOf(texts[i])) == 1.0 / (RRF_K + i) as real
  {
    var (lists, x) := (Lists(hashed, dense, texts), KeyOf(texts[i]));
    forall j | 0 <= j < |hashed| ensures lists[0][j] != x { assert hashed[j] in hashed + dense; }
    forall j | 0 <= j < |dense| ensures lists[1][j] != x { assert dense[j] in hashed + dense; }
    assert lists[..2] == [lists[0], lists[1]];
    AbsentScore(lists[..2], Ones(3), RRF_K, x);
    assert lists[2][i] == x;
    ScoreAtRank(lists[2], 1.0, RRF_K, i);
  }

  /** Up to sixty rows a query, a frame both visual queries found precedes all that one query found. */
  lemma AgreementLeads(hashed: seq<Candidate>, dense: seq<Candidate>, texts: seq<Candidate>, k: nat, i: nat, j: nat)
    requires Queried(hashed, dense, texts) && k <= 60 && |hashed| <= k && |dense| <= k && |texts| <= k
    requires i < |Fused(hashed, dense, texts)| && j < |Fused(hashed, dense, texts)|
    requires var (x, y) := (KeyOf(Fused(hashed, dense, texts)[i]), KeyOf(Fused(hashed, dense, texts)[j]));
      && x in Keyed(hashed, KeyOf) && x in Keyed(dense, KeyOf)
      && !(y in Keyed(hashed, KeyOf) && y in Keyed(dense, KeyOf))
    ensures i < j
  {
    KeyAt(hashed, dense, texts, i);
    KeyAt(hashed, dense, texts, j);
    var (x, y) := (KeyOf(Fused(hashed, dense, texts)[i]), KeyOf(Fused(hashed, dense, texts)[j]));
    SharedIsAbove(hashed, dense, texts, x, y);
  }

  lemma SharedIsAbove(hashed: seq<Candidate>, dense: seq<Candidate>, texts: seq<Candidate>, x: Key, y: Key)
    requires Queried(hashed, dense, texts) && |hashed| <= 60 && |dense| <= 60 && |texts| <= 60
    requires x in Keyed(hashed, KeyOf) && x in Keyed(dense, KeyOf)
    requires !(y in Keyed(hashed, KeyOf) && y in Keyed(dense, KeyOf))
    ensures Placed(Fuse(Lists(hashed, dense, texts), Ones(3), RRF_K), x, y)
  {
    var lists := Lists(hashed, dense, texts);
    assert InTwo(lists, x) by { assert x in lists[0] && x in lists[1]; }
    if InTwo(lists, y) { OnlyVisualAgree(hashed, dense, texts, y); }
    AgreementBeatsOne(lists, Ones(3), RRF_K, 60, x, y);
    HigherIsAbove(lists, Ones(3), RRF_K, x, y);
  }

  lemma OnlyVisualAgree(hashed: seq<Candidate>, dense: seq<Candidate>, texts: seq<Candidate>, y: Key)
    requires Queried(hashed, dense, texts) && InTwo(Lists(hashed, dense, texts), y)
    ensures y in Keyed(hashed, KeyOf) && y in Keyed(dense, KeyOf)
  {
    var lists := Lists(hashed, dense, texts);
    if y in lists[2] {
      var i :| 0 <= i < |lists[2]| && lists[2][i] == y;
      assert KeyOf(texts[i]) == y;
      TextStandsAlone(hashed, dense, texts, i);
    }
  }

  /** Every answer is a row that a query found, the first with its key, under a new rank and score. */
  lemma EveryAnswerIsARow(hashed: seq<Candidate>, dense: seq<Candidate>, texts: seq<Candidate>, i: nat) returns (at: nat)
    requires i < |Fused(hashed, dense, texts)|
    ensures var (a, all) := (Fused(hashed, dense, texts)[i], hashed + dense + texts);
      && at < |all|
      && a == all[at].(rank := i, raw := a.raw)
      && forall j | 0 <= j < at :: (all[j].modality, all[j].segment) != (a.modality, a.segment)
  {
    var (lists, all) := (Lists(hashed, dense, texts), hashed + dense + texts);
    FuseMeaning(lists, Ones(3), RRF_K);
    var x := Fuse(lists, Ones(3), RRF_K)[i].0;
    FusedHasBase(hashed, dense, texts, x);
    at := FirstIsEarliest(all, KeyOf, x);
    assert forall j | 0 <= j < at :: KeyOf(all[j]) != x;
  }

  /** The score of an answer is 1 / (60 + rank) for each of the three lists it is in. */
  lemma AnswerScore(hashed: seq<Candidate>, dense: seq<Candidate>, texts: seq<Candidate>, i: nat)
    returns (p: real, q: real, r: real)
    requires Queried(hashed, dense, texts) && i < |Fused(hashed, dense, texts)|
    ensures var a := Fused(hashed, dense, texts)[i]; var x := KeyOf(a);
      && a.raw == Some(p + q + r)
      && Gives(Keyed(hashed, KeyOf), 1.0, 60, x, p) && Gives(Keyed(dense, KeyOf), 1.0, 60, x, q)
      && Gives(Keyed(texts, KeyOf), 1.0, 60, x, r)
  {
    hide Fused, Fuse, Score, ListScore, Gives, KeyOf, Ones;
    var lists := Lists(hashed, dense, texts);
    ScoreAt(hashed, dense, texts, i);
    var x := KeyOf(Fused(hashed, dense, texts)[i]);
    p, q, r := ListScore(lists[0], 1.0, 60, x), ListScore(lists[1], 1.0, 60, x), ListScore(lists[2], 1.0, 60, x);
    ThreeLists(lists, x);
    GivesShare(lists[0], 1.0, 60, x);
    GivesShare(lists[1], 1.0, 60, x);
    GivesShare(lists[2], 1.0, 60, x);
  }

  lemma ScoreAt(hashed: seq<Candidate>, dense: seq<Candidate>, texts: seq<Candidate>, i: nat)
    requires i < |Fused(hashed, dense, texts)|
    ensures |Ones(3)| == 3
    ensures var a := Fused(hashed, dense, texts)[i];
      a.raw == Some(Score(Lists(hashed, dense, texts), Ones(3), RRF_K, KeyOf(a)))
  {
    hide Fused, Fuse, Score;
    KeyAt(hashed, dense, texts, i);
    FuseMeaning(Lists(hashed, dense, texts), Ones(3), RRF_K);
  }

  lemma ThreeLists(lists: seq<seq<Key>>, x: Key)
    requires |lists| == 3
    ensures Score(lists, Ones(3), 60, x)
      == ListScore(lists[0], 1.0, 60, x) + ListScore(lists[1], 1.0, 60, x) + ListScore(lists[2], 1.0, 60, x)
  {
    var (one, two) := (lists[..1], lists[..2]);
    assert two[..1] == one && one[..0] == [];
    assert Score(one, Ones(3), 60, x) == Score([], Ones(3), 60, x) + ListScore(lists[0], 1.0, 60, x);
    assert Score(two, Ones(3), 60, x) == Score(one, Ones(3), 60, x) + ListScore(lists[1], 1.0, 60, x);
  }
}
