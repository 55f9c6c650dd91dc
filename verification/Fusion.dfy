/** Reciprocal rank fusion (src/kanomori/fusion.py). Scores are exact reals. */
module Fusion {
  import opened Basics
  import opened Sorting

  datatype Fused<T> = Ranked(items: seq<(T, real)>) | ValueError | ZeroDivisionError

  /** weight / (k + rank); the code raises where k + rank is zero. */
  function Share(weight: real, k: int, rank: nat): real {
    if k + rank == 0 then 0.0 else weight / (k + rank) as real
  }

  /** What one list gives to x: a share for each of its occurrences. */
  function ListScore<T(==)>(items: seq<T>, weight: real, k: int, x: T): real {
    if items == [] then 0.0
    else
      var n := |items| - 1;
      ListScore(items[..n], weight, k, x) + (if items[n] == x then Share(weight, k, n) else 0.0)
  }

  function Score<T(==)>(lists: seq<seq<T>>, weights: seq<real>, k: int, x: T): real
    requires |lists| <= |weights|
  {
    if lists == [] then 0.0
    else
      var n := |lists| - 1;
      Score(lists[..n], weights, k, x) + ListScore(lists[n], weights[n], k, x)
  }

  /** The items in order of first appearance: the keys of a Python dict filled in this order. */
  function Keys<T(==)>(keys: seq<T>, items: seq<T>): seq<T> {
    if items == [] then keys
    else
      var n := |items| - 1;
      var before := Keys(keys, items[..n]);
      if items[n] in before then before else before + [items[n]]
  }

  function AllKeys<T(==)>(lists: seq<seq<T>>): seq<T> {
    if lists == [] then [] else Keys(AllKeys(lists[..|lists| - 1]), lists[|lists| - 1])
  }

  predicate ScoreDescending<T>(a: (T, real), b: (T, real)) {
    a.1 >= b.1
  }

  /** The unsorted dictionary items. */
  function Scored<T(==)>(lists: seq<seq<T>>, weights: seq<real>, k: int, keys: seq<T>): seq<(T, real)>
    requires |lists| <= |weights|
  {
    seq(|keys|, i requires 0 <= i < |keys| => (keys[i], Score(lists, weights, k, keys[i])))
  }

  function Fuse<T(==)>(lists: seq<seq<T>>, weights: seq<real>, k: int): seq<(T, real)>
    requires |lists| <= |weights|
  {
    StableSort(Scored(lists, weights, k, AllKeys(lists)), ScoreDescending)
  }

  function Ones(n: nat): seq<real> {
    seq(n, i requires 0 <= i < n => 1.0)
  }

  /** Does some rank of the first n lists make k + rank zero? */
  predicate HitsZero<T>(lists: seq<seq<T>>, k: int, n: nat)
    requires n <= |lists|
  {
    exists i | 0 <= i < n :: k <= 0 && |lists[i]| > -k
  }

  lemma {:induction false} KeysDistinct<T>(keys: seq<T>, items: seq<T>)
    requires Distinct(keys)
    ensures Distinct(Keys(keys, items))
    ensures forall x :: x in Keys(keys, items) <==> x in keys || x in items
  {
    if items != [] {
      var n := |items| - 1;
      KeysDistinct(keys, items[..n]);
      assert items == items[..n] + [items[n]];
    }
  }

  lemma {:induction false} AllKeysDistinct<T>(lists: seq<seq<T>>)
    ensures Distinct(AllKeys(lists))
    ensures forall x :: x in AllKeys(lists) <==> exists i :: 0 <= i < |lists| && x in lists[i]
  {
    if lists != [] {
      var n := |lists| - 1;
      AllKeysDistinct(lists[..n]);
      KeysDistinct(AllKeys(lists[..n]), lists[n]);
      forall x ensures x in AllKeys(lists) <==> exists i :: 0 <= i < |lists| && x in lists[i] {
        if x in AllKeys(lists[..n]) {
          var i :| 0 <= i < n && x in lists[..n][i];
          assert x in lists[i];
        }
        if i :| 0 <= i < |lists| && x in lists[i] && i < n { assert x in lists[..n][i]; }
      }
    }
  }

  /** The dictionary after some lists and part of the next: its keys in order of insertion, and their sums. */
  ghost predicate Accumulated<T(!new)>(
    keys: seq<T>, scores: map<T, real>, lists: seq<seq<T>>, items: seq<T>, weights: seq<real>, k: int)
  {
    && |lists| < |weights|
    && keys == Keys(AllKeys(lists), items)
    && (forall x :: x in keys <==> x in scores)
    && (forall x | x in keys :: scores[x] == Score(lists, weights, k, x) + ListScore(items, weights[|lists|], k, x))
  }

  lemma OneMoreItem<T(!new)>(
    keys: seq<T>, scores: map<T, real>, lists: seq<seq<T>>, items: seq<T>, weights: seq<real>, k: int, x: T)
    requires Accumulated(keys, scores, lists, items, weights, k)
    ensures var sum := (if x in scores then scores[x] else 0.0) + Share(weights[|lists|], k, |items|);
      Accumulated(if x in scores then keys else keys + [x], scores[x := sum], lists, items + [x], weights, k)
  {
    assert (items + [x])[..|items|] == items;
    if x !in scores { NothingYet(lists, items, weights, k, x); }
  }

  /** The inner loop. */
  method AddList<T(==, !new)>(
      keys: seq<T>, scores: map<T, real>, ghost lists: seq<seq<T>>, items: seq<T>,
      weight: real, ghost weights: seq<real>, k: int)
    returns (ok: bool, keys': seq<T>, scores': map<T, real>)
    requires Accumulated(keys, scores, lists, [], weights, k) && weight == weights[|lists|]
    ensures ok <==> !(k <= 0 && |items| > -k)
    ensures ok ==> Accumulated(keys', scores', lists, items, weights, k)
  {
    hide Accumulated, Keys, AllKeys, Score, ListScore;
    keys', scores' := keys, scores;
    for rank := 0 to |items|
      invariant Accumulated(keys', scores', lists, items[..rank], weights, k)
      invariant k <= 0 ==> rank <= -k
    {
      if k + rank == 0 {
        return false, keys', scores';
      }
      var item := items[rank];
      assert items[..rank + 1] == items[..rank] + [item];
      OneMoreItem(keys', scores', lists, items[..rank], weights, k, item);
      var score := (if item in scores' then scores'[item] else 0.0) + weight / (k + rank) as real;
      keys' := if item in scores' then keys' else keys' + [item];
      scores' := scores'[item := score];
    }
    assert items[..|items|] == items;
    ok := true;
  }

  ghost predicate Summed<T(!new)>(keys: seq<T>, scores: map<T, real>, lists: seq<seq<T>>, weights: seq<real>, k: int) {
    && |lists| <= |weights|
    && keys == AllKeys(lists)
    && (forall x :: x in keys <==> x in scores)
    && (forall x | x in keys :: scores[x] == Score(lists, weights, k, x))
  }

  lemma ListBegins<T(!new)>(keys: seq<T>, scores: map<T, real>, lists: seq<seq<T>>, weights: seq<real>, k: int)
    requires Summed(keys, scores, lists, weights, k) && |lists| < |weights|
    ensures Accumulated(keys, scores, lists, [], weights, k)
  {
  }

  lemma ListEnds<T(!new)>(
    keys: seq<T>, scores: map<T, real>, lists: seq<seq<T>>, items: seq<T>, weights: seq<real>, k: int)
    requires Accumulated(keys, scores, lists, items, weights, k)
    ensures Summed(keys, scores, lists + [items], weights, k)
  {
    assert (lists + [items])[..|lists|] == lists;
  }

  /** The nested loops: accumulate into a dictionary, then sort. */
  method ReciprocalRankFusion<T(==, !new)>(lists: seq<seq<T>>, k: int, weights: Option<seq<real>>) returns (r: Fused<T>)
    ensures var w := if weights.Some? then weights.value else Ones(|lists|);
      r == if HitsZero(lists, k, if |w| < |lists| then |w| else |lists|) then ZeroDivisionError
           else if |w| != |lists| then ValueError
           else Ranked(Fuse(lists, w, k))
  {
    hide Accumulated, Keys, AllKeys, Score, ListScore, Summed;
    var w := if weights.Some? then weights.value else Ones(|lists|);
    var end := if |w| < |lists| then |w| else |lists|;
    var keys: seq<T>, scores: map<T, real> := [], map[];
    NothingSummed<T>(w, k);
    for i := 0 to end
      invariant Summed(keys, scores, lists[..i], w, k)
      invariant !HitsZero(lists, k, i)
    {
      ListBegins(keys, scores, lists[..i], w, k);
      var ok;
      ok, keys, scores := AddList(keys, scores, lists[..i], lists[i], w[i], w, k);
      if !ok {
        assert HitsZero(lists, k, end);
        return ZeroDivisionError;
      }
      ListEnds(keys, scores, lists[..i], lists[i], w, k);
      assert lists[..i + 1] == lists[..i] + [lists[i]];
    }
    if |w| != |lists| {
      return ValueError;
    }
    assert lists[..|lists|] == lists;
    SummedIsScored(keys, scores, lists, w, k);
    r := Ranked(StableSort(seq(|keys|, i requires 0 <= i < |keys| => (keys[i], scores[keys[i]])), ScoreDescending));
  }

  lemma NothingSummed<T(!new)>(weights: seq<real>, k: int)
    ensures Summed<T>([], map[], [], weights, k)
  {
  }

  lemma SummedIsScored<T(!new)>(keys: seq<T>, scores: map<T, real>, lists: seq<seq<T>>, weights: seq<real>, k: int)
    requires Summed(keys, scores, lists, weights, k)
    ensures keys == AllKeys(lists) && forall x | x in keys :: x in scores
    ensures seq(|keys|, i requires 0 <= i < |keys| => (keys[i], scores[keys[i]])) == Scored(lists, weights, k, keys)
  {
  }

  lemma {:induction false} AbsentFromList<T>(items: seq<T>, weight: real, k: int, x: T)
    requires x !in items
    ensures ListScore(items, weight, k, x) == 0.0
  {
    if items != [] { AbsentFromList(items[..|items| - 1], weight, k, x); }
  }

  lemma {:induction false} AbsentScore<T>(lists: seq<seq<T>>, weights: seq<real>, k: int, x: T)
    requires |lists| <= |weights| && forall i | 0 <= i < |lists| :: x !in lists[i]
    ensures Score(lists, weights, k, x) == 0.0
  {
    if lists != [] {
      var n := |lists| - 1;
      AbsentScore(lists[..n], weights, k, x);
      AbsentFromList(lists[n], weights[n], k, x);
    }
  }

  lemma NothingYet<T>(lists: seq<seq<T>>, items: seq<T>, weights: seq<real>, k: int, x: T)
    requires |lists| < |weights| && x !in Keys(AllKeys(lists), items)
    ensures Score(lists, weights, k, x) + ListScore(items, weights[|lists|], k, x) == 0.0
  {
    AllKeysDistinct(lists);
    KeysDistinct(AllKeys(lists), items);
    AbsentScore(lists, weights, k, x);
    AbsentFromList(items, weights[|lists|], k, x);
  }
}
