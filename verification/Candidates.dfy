/** One retrieval candidate (src/kanomori/models.py), and the lookup both fusing searches share. */
module Candidates {
  import opened Basics

  datatype Modality = Spoken | Written | Visual | Scene | Audio

  datatype Candidate = Candidate(
    video: nat, ts: real, modality: Modality, rank: nat, raw: Option<real>, segment: Option<nat>)

  function Keyed<K>(cands: seq<Candidate>, key: Candidate -> K): (keys: seq<K>)
    ensures |keys| == |cands| && forall i | 0 <= i < |cands| :: keys[i] == key(cands[i])
  {
    seq(|cands|, i requires 0 <= i < |cands| => key(cands[i]))
  }

  /** The candidate a dict filled with setdefault, in this order, keeps under x. */
  function First<K(==)>(cands: seq<Candidate>, key: Candidate -> K, x: K): (c: Option<Candidate>)
    ensures c.Some? <==> exists i :: 0 <= i < |cands| && key(cands[i]) == x
    ensures c.Some? ==> c.value in cands && key(c.value) == x
  {
    if cands == [] then None
    else
      var n := |cands| - 1;
      var before := First(cands[..n], key, x);
      if before.None? && key(cands[n]) == x then
        assert key(cands[n]) == x;
        Some(cands[n])
      else
        assert forall i | 0 <= i < n :: cands[..n][i] == cands[i];
        assert before.Some? ==> before.value in cands;
        before
  }

  /** It is the earliest one. */
  lemma {:induction false} FirstIsEarliest<K>(cands: seq<Candidate>, key: Candidate -> K, x: K) returns (i: nat)
    requires First(cands, key, x).Some?
    ensures i < |cands| && First(cands, key, x) == Some(cands[i]) && key(cands[i]) == x
    ensures forall j | 0 <= j < i :: key(cands[j]) != x
  {
    var n := |cands| - 1;
    if First(cands[..n], key, x).Some? {
      i := FirstIsEarliest(cands[..n], key, x);
      assert forall j | 0 <= j < i :: cands[..n][j] == cands[j];
    } else {
      i := n;
      assert forall j | 0 <= j < n :: cands[..n][j] == cands[j];
    }
  }

  function Kept<K(==)>(before: Option<Candidate>, c: Candidate, key: Candidate -> K, x: K): Option<Candidate> {
    if before.None? && key(c) == x then Some(c) else before
  }

  method SetDefaults<K(==)>(cands: seq<Candidate>, key: Candidate -> K) returns (byKey: map<K, Candidate>)
    ensures forall x :: x in byKey <==> First(cands, key, x).Some?
    ensures forall x | x in byKey :: Some(byKey[x]) == First(cands, key, x)
  {
    byKey := map[];
    for i := 0 to |cands|
      invariant forall x :: x in byKey <==> First(cands[..i], key, x).Some?
      invariant forall x | x in byKey :: Some(byKey[x]) == First(cands[..i], key, x)
    {
      forall x ensures First(cands[..i + 1], key, x) == Kept(First(cands[..i], key, x), cands[i], key, x) {
        assert cands[..i + 1][..i] == cands[..i] && cands[..i + 1][i] == cands[i];
      }
      var x := key(cands[i]);
      if x !in byKey {
        byKey := byKey[x := cands[i]];
        assert Some(byKey[x]) == First(cands[..i + 1], key, x);
        assert forall y | y in byKey && y != x :: Some(byKey[y]) == First(cands[..i + 1], key, y);
      } else {
        assert forall y | y in byKey :: Some(byKey[y]) == First(cands[..i + 1], key, y);
      }
    }
    assert cands[..|cands|] == cands;
  }
}
