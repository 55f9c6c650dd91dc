/** What reciprocal rank fusion promises: a conserved sum, a total order, and who outranks whom. */
module FusionLaws {
  import opened Basics
  import opened Sorting
  import opened Fusion

  /** Every occurrence of a in xs comes before every occurrence of b. */
  ghost predicate Before<T>(xs: seq<T>, a: T, b: T) {
    forall i, j | 0 <= i < |xs| && 0 <= j < |xs| && xs[i] == a && xs[j] == b :: i < j
  }

  ghost predicate Placed<T>(fused: seq<(T, real)>, x: T, y: T) {
    forall i, j | 0 <= i < |fused| && 0 <= j < |fused| && fused[i].0 == x && fused[j].0 == y :: i < j
  }

  lemma ScoreOrder<T(!new)>()
    ensures TotalPreorder<(T, real)>(ScoreDescending)
  {
    forall a: (T, real), b: (T, real) ensures ScoreDescending(a, b) || ScoreDescending(b, a) {}
    forall a: (T, real), b: (T, real), c: (T, real) | ScoreDescending(a, b) && ScoreDescending(b, c)
      ensures ScoreDescending(a, c) {}
  }

  lemma {:induction false} InsertPlaces<T(!new)>(x: T, xs: seq<T>, b: T, leq: (T, T) -> bool)
    requires x !in xs && x != b && leq(x, b)
    ensures Before(Insert(x, xs, leq), x, b)
  {
    if xs != [] && !leq(x, xs[0]) {
      InsertPlaces(x, xs[1..], b, leq);
      Prepends(xs[0], Insert(x, xs[1..], leq), x, b);
    }
  }

  lemma Prepends<T>(z: T, xs: seq<T>, a: T, b: T)
    requires Before(xs, a, b) && z != b
    ensures Before([z] + xs, a, b)
  {
    var all := [z] + xs;
    forall i, j | 0 <= i < |all| && 0 <= j < |all| && all[i] == a && all[j] == b ensures i < j {
      if i > 0 { assert xs[i - 1] == a && xs[j - 1] == b; }
    }
  }

  lemma {:induction false} InsertKeepsOrder<T(!new)>(x: T, xs: seq<T>, a: T, b: T, leq: (T, T) -> bool)
    requires Before(xs, a, b) && x != a && x != b
    ensures Before(Insert(x, xs, leq), a, b)
  {
    if xs == [] {
    } else if leq(x, xs[0]) {
      Prepends(x, xs, a, b);
    } else {
      var rest := xs[1..];
      forall i, j | 0 <= i < |rest| && 0 <= j < |rest| && rest[i] == a && rest[j] == b ensures i < j {
        assert xs[i + 1] == a && xs[j + 1] == b;
      }
      InsertKeepsOrder(x, rest, a, b, leq);
      if xs[0] == b {
        assert a != b;
        forall i | 0 <= i < |rest| ensures rest[i] != a { assert rest[i] == xs[i + 1]; }
        InsertAdds(x, rest, leq);
        var inserted := Insert(x, rest, leq);
        assert a !in inserted by { assert a !in multiset(inserted); }
        assert a !in Insert(x, xs, leq) by {
          assert Insert(x, xs, leq) == [b] + inserted;
        }
      } else {
        Prepends(xs[0], Insert(x, rest, leq), a, b);
      }
    }
  }

  /** Python's stable sort keeps an element ahead of every later one that is not strictly smaller. */
  lemma {:induction false} SortOrder<T(!new)>(xs: seq<T>, p: nat, q: nat, leq: (T, T) -> bool)
    requires TotalPreorder(leq) && Distinct(xs) && p < q < |xs|
    ensures leq(xs[p], xs[q]) ==> Before(StableSort(xs, leq), xs[p], xs[q])
    ensures !leq(xs[p], xs[q]) ==> Before(StableSort(xs, leq), xs[q], xs[p])
  {
    var rest := xs[1..];
    var sorted := StableSort(rest, leq);
    SortKeepsElements(rest, leq);
    forall i | 0 <= i < |rest| ensures rest[i] == xs[i + 1] && rest[i] != xs[0] {}
    if p > 0 {
      SortOrder(rest, p - 1, q - 1, leq);
      if leq(xs[p], xs[q]) {
        InsertKeepsOrder(xs[0], sorted, xs[p], xs[q], leq);
      } else {
        InsertKeepsOrder(xs[0], sorted, xs[q], xs[p], leq);
      }
    } else if leq(xs[0], xs[q]) {
      InsertPlaces(xs[0], sorted, xs[q], leq);
    } else {
      StrictlySmallerFirst(xs, q, leq);
    }
  }

  lemma StrictlySmallerFirst<T(!new)>(xs: seq<T>, q: nat, leq: (T, T) -> bool)
    requires TotalPreorder(leq) && 0 < q < |xs| && !leq(xs[0], xs[q])
    ensures Before(StableSort(xs, leq), xs[q], xs[0])
  {
    var ys := StableSort(xs, leq);
    StableSortIsStable(xs, leq);
    assert Compare(xs[0], xs[0]) && Compare(xs[0], xs[q]);
    forall i, j | 0 <= i < |ys| && 0 <= j < |ys| && ys[i] == xs[q] && ys[j] == xs[0] ensures i < j {
      if j < i { SortedAt(ys, leq, j, i); }
    }
  }

  /** The output is a function of the sums: each item once, with its sum, in an order that is decided. */
  lemma FuseMeaning<T(!new)>(lists: seq<seq<T>>, weights: seq<real>, k: int)
    requires |lists| <= |weights|
    ensures var out := Fuse(lists, weights, k);
      && |out| == |AllKeys(lists)|
      && (forall i | 0 <= i < |out| ::
            out[i].1 == Score(lists, weights, k, out[i].0) && exists l :: 0 <= l < |lists| && out[i].0 in lists[l])
      && (forall x | (exists l :: 0 <= l < |lists| && x in lists[l]) ::
            (x, Score(lists, weights, k, x)) in out)
      && (forall i, j | 0 <= i < j < |out| :: out[i].0 != out[j].0 && out[i].1 >= out[j].1)
  {
    var keys := AllKeys(lists);
    var scored := Scored(lists, weights, k, keys);
    var out := Fuse(lists, weights, k);
    AllKeysDistinct(lists);
    ScoreOrder<T>();
    SortKeepsElements(scored, ScoreDescending);
    StableSortIsStable(scored, ScoreDescending);
    forall i | 0 <= i < |out| ensures out[i].1 == Score(lists, weights, k, out[i].0) && out[i].0 in keys {
      assert out[i] in scored;
    }
    forall x | x in keys ensures (x, Score(lists, weights, k, x)) in out {
      var p :| 0 <= p < |keys| && keys[p] == x;
      assert scored[p] == (x, Score(lists, weights, k, x));
    }
    StaysDistinct(scored, out);
    forall i, j | 0 <= i < j < |out| ensures out[i].0 != out[j].0 && out[i].1 >= out[j].1 {
      SortedAt(out, ScoreDescending, i, j);
    }
  }

  /** Between an item seen first and one seen later: the first is placed above iff its sum is no smaller. */
  lemma FuseOrder<T(!new)>(lists: seq<seq<T>>, weights: seq<real>, k: int, p: nat, q: nat)
    requires |lists| <= |weights| && p < q < |AllKeys(lists)|
    ensures var keys := AllKeys(lists); var out := Fuse(lists, weights, k);
      if Score(lists, weights, k, keys[p]) >= Score(lists, weights, k, keys[q])
      then Placed(out, keys[p], keys[q]) else Placed(out, keys[q], keys[p])
  {
    var keys := AllKeys(lists);
    var scored := Scored(lists, weights, k, keys);
    var out := Fuse(lists, weights, k);
    AllKeysDistinct(lists);
    ScoreOrder<T>();
    SortOrder(scored, p, q, ScoreDescending);
    FuseMeaning(lists, weights, k);
    forall i | 0 <= i < |out| && out[i].0 == keys[p] ensures out[i] == scored[p] {}
    forall i | 0 <= i < |out| && out[i].0 == keys[q] ensures out[i] == scored[q] {}
  }

  /** A strictly larger sum is placed above, whichever was seen first. */
  lemma HigherIsAbove<T(!new)>(lists: seq<seq<T>>, weights: seq<real>, k: int, x: T, y: T)
    requires |lists| <= |weights| && Score(lists, weights, k, x) > Score(lists, weights, k, y)
    ensures Placed(Fuse(lists, weights, k), x, y)
  {
    FuseMeaning(lists, weights, k);
  }

  // Conservation

  function ListTotal(weight: real, k: int, n: nat): real {
    if n == 0 then 0.0 else ListTotal(weight, k, n - 1) + Share(weight, k, n - 1)
  }

  /** Everything the lists hand out: one share for each position of each list. */
  function HandedOut<T>(lists: seq<seq<T>>, weights: seq<real>, k: int): real
    requires |lists| <= |weights|
  {
    if lists == [] then 0.0
    else
      var n := |lists| - 1;
      HandedOut(lists[..n], weights, k) + ListTotal(weights[n], k, |lists[n]|)
  }

  function SumOf<T>(xs: seq<T>, f: T -> real): real {
    if xs == [] then 0.0 else f(xs[0]) + SumOf(xs[1..], f)
  }

  function Total<T>(fused: seq<(T, real)>): real {
    if fused == [] then 0.0 else fused[0].1 + Total(fused[1..])
  }

  lemma {:induction false} SumAdds<T(!new)>(xs: seq<T>, f: T -> real, g: T -> real, h: T -> real)
    requires forall x | x in xs :: f(x) == g(x) + h(x)
    ensures SumOf(xs, f) == SumOf(xs, g) + SumOf(xs, h)
  {
    if xs != [] { SumAdds(xs[1..], f, g, h); }
  }

  lemma {:induction false} SumOfOne<T(!new)>(xs: seq<T>, x: T, value: real)
    requires Distinct(xs)
    ensures SumOf(xs, y => if y == x then value else 0.0) == if x in xs then value else 0.0
  {
    if xs != [] {
      assert xs == [xs[0]] + xs[1..];
      if x in xs[1..] {
        var i :| 0 <= i < |xs[1..]| && xs[1..][i] == x;
        assert xs[i + 1] == x;
      }
      SumOfOne(xs[1..], x, value);
    }
  }

  lemma {:induction false} ListSum<T(!new)>(keys: seq<T>, items: seq<T>, weight: real, k: int)
    requires Distinct(keys) && forall x | x in items :: x in keys
    ensures SumOf(keys, x => ListScore(items, weight, k, x)) == ListTotal(weight, k, |items|)
  {
    if items == [] {
      SumOfZero(keys, x => ListScore(items, weight, k, x));
    } else {
      var n := |items| - 1;
      ListSum(keys, items[..n], weight, k);
      SumOfOne(keys, items[n], Share(weight, k, n));
      SumAdds(keys, x => ListScore(items, weight, k, x), x => ListScore(items[..n], weight, k, x),
        x => if x == items[n] then Share(weight, k, n) else 0.0);
    }
  }

  lemma {:induction false} SumOfZero<T(!new)>(xs: seq<T>, f: T -> real)
    requires forall x | x in xs :: f(x) == 0.0
    ensures SumOf(xs, f) == 0.0
  {
    if xs != [] { SumOfZero(xs[1..], f); }
  }

  lemma {:induction false} ScoreSum<T(!new)>(keys: seq<T>, lists: seq<seq<T>>, weights: seq<real>, k: int)
    requires |lists| <= |weights| && Distinct(keys)
    requires forall l, x | 0 <= l < |lists| && x in lists[l] :: x in keys
    ensures SumOf(keys, x => Score(lists, weights, k, x)) == HandedOut(lists, weights, k)
  {
    if lists == [] {
      SumOfZero(keys, x => Score(lists, weights, k, x));
    } else {
      var n := |lists| - 1;
      forall l, x | 0 <= l < n && x in lists[..n][l] ensures x in keys { assert x in lists[l]; }
      ScoreSum(keys, lists[..n], weights, k);
      ListSum(keys, lists[n], weights[n], k);
      SumAdds(keys, x => Score(lists, weights, k, x), x => Score(lists[..n], weights, k, x),
        x => ListScore(lists[n], weights[n], k, x));
    }
  }

  lemma {:induction false} SortKeepsTotal<T(!new)>(xs: seq<(T, real)>, leq: ((T, real), (T, real)) -> bool)
    ensures Total(StableSort(xs, leq)) == Total(xs)
  {
    if xs != [] {
      SortKeepsTotal(xs[1..], leq);
      InsertTotal(xs[0], StableSort(xs[1..], leq), leq);
    }
  }

  lemma {:induction false} InsertTotal<T(!new)>(x: (T, real), xs: seq<(T, real)>, leq: ((T, real), (T, real)) -> bool)
    ensures Total(Insert(x, xs, leq)) == x.1 + Total(xs)
  {
    if xs == [] {
    } else if leq(x, xs[0]) {
      assert ([x] + xs)[1..] == xs;
    } else {
      InsertTotal(x, xs[1..], leq);
      assert Insert(x, xs, leq)[1..] == Insert(x, xs[1..], leq);
    }
  }

  lemma {:induction false} ScoredTotal<T(!new)>(lists: seq<seq<T>>, weights: seq<real>, k: int, keys: seq<T>)
    requires |lists| <= |weights|
    ensures Total(Scored(lists, weights, k, keys)) == SumOf(keys, x => Score(lists, weights, k, x))
  {
    if keys != [] {
      assert Scored(lists, weights, k, keys)[1..] == Scored(lists, weights, k, keys[1..]);
      ScoredTotal(lists, weights, k, keys[1..]);
    }
  }

  /** No score is lost or made up: the fused scores add up to the shares of all positions. */
  lemma ScoreIsConserved<T(!new)>(lists: seq<seq<T>>, weights: seq<real>, k: int)
    requires |lists| <= |weights|
    ensures Total(Fuse(lists, weights, k)) == HandedOut(lists, weights, k)
  {
    var keys := AllKeys(lists);
    AllKeysDistinct(lists);
    SortKeepsTotal(Scored(lists, weights, k, keys), ScoreDescending);
    ScoredTotal(lists, weights, k, keys);
    ScoreSum(keys, lists, weights, k);
  }

  // Who outranks whom

  lemma {:induction false} ScoreAtRank<T(!new)>(items: seq<T>, weight: real, k: int, i: nat)
    requires Distinct(items) && i < |items|
    ensures ListScore(items, weight, k, items[i]) == Share(weight, k, i)
  {
    var n := |items| - 1;
    if i < n {
      ScoreAtRank(items[..n], weight, k, i);
    } else {
      AbsentFromList(items[..n], weight, k, items[n]);
    }
  }

  /** In every list that has y, x stands before it. */
  ghost predicate Dominates<T(!new)>(lists: seq<seq<T>>, x: T, y: T) {
    forall l, j | 0 <= l < |lists| && 0 <= j < |lists[l]| && lists[l][j] == y :: x in lists[l][..j]
  }

  /** p is what a list without repeats gives to x: its weight / (k + the rank of x), or nothing. */
  ghost predicate Gives<T>(items: seq<T>, weight: real, k: int, x: T, p: real) {
    if x in items then exists r: nat :: r < |items| && items[r] == x && p * (k + r) as real == weight else p == 0.0
  }

  lemma GivesShare<T(!new)>(items: seq<T>, weight: real, k: int, x: T)
    requires Distinct(items) && k > 0
    ensures Gives(items, weight, k, x, ListScore(items, weight, k, x))
  {
    if x in items {
      var r: nat :| r < |items| && items[r] == x;
      ScoreAtRank(items, weight, k, r);
      Undivided(weight, (k + r) as real);
    } else {
      AbsentFromList(items, 1.0, k, x);
    }
  }

  lemma SmallerRankMore(weight: real, k: int, i: nat, j: nat)
    requires weight > 0.0 && k > 0 && i < j
    ensures Share(weight, k, i) > Share(weight, k, j) > 0.0
  {
    var (a, b) := ((k + i) as real, (k + j) as real);
    assert 0.0 < a < b;
    Reciprocal(weight, a, b);
  }

  lemma Cancel(p: real, q: real, c: real)
    requires c > 0.0 && p * c > q * c
    ensures p > q
  {
  }

  lemma Reciprocal(weight: real, a: real, b: real)
    requires weight > 0.0 && 0.0 < a < b
    ensures weight / a > weight / b > 0.0
  {
    var (p, q) := (weight / a, weight / b);
    assert p * a == weight && q * b == weight;
    Cancel(p, 0.0, a);
    Cancel(q, 0.0, b);
    assert p * b > p * a;
    Cancel(p, q, b);
  }

  lemma ListDominance<T(!new)>(items: seq<T>, weight: real, k: int, x: T, y: T)
    requires Distinct(items) && weight > 0.0 && k > 0
    requires forall j | 0 <= j < |items| && items[j] == y :: x in items[..j]
    ensures ListScore(items, weight, k, x) >= ListScore(items, weight, k, y)
    ensures y in items ==> ListScore(items, weight, k, x) > ListScore(items, weight, k, y)
  {
    if y in items {
      var j :| 0 <= j < |items| && items[j] == y;
      var i :| 0 <= i < j && items[..j][i] == x;
      ScoreAtRank(items, weight, k, i);
      ScoreAtRank(items, weight, k, j);
      SmallerRankMore(weight, k, i, j);
    } else {
      AbsentFromList(items, weight, k, y);
      if x in items {
        var i :| 0 <= i < |items| && items[i] == x;
        ScoreAtRank(items, weight, k, i);
        SmallerRankMore(weight, k, i, i + 1);
      } else {
        AbsentFromList(items, weight, k, x);
      }
    }
  }

  lemma {:induction false} DominanceScore<T(!new)>(lists: seq<seq<T>>, weights: seq<real>, k: int, x: T, y: T)
    requires |lists| <= |weights| && k > 0 && Dominates(lists, x, y)
    requires forall l | 0 <= l < |lists| :: Distinct(lists[l]) && weights[l] > 0.0
    ensures Score(lists, weights, k, x) >= Score(lists, weights, k, y)
    ensures (exists l :: 0 <= l < |lists| && y in lists[l])
        ==> Score(lists, weights, k, x) > Score(lists, weights, k, y)
  {
    if lists != [] {
      var n := |lists| - 1;
      forall l, j | 0 <= l < n && 0 <= j < |lists[..n][l]| && lists[..n][l][j] == y ensures x in lists[..n][l][..j] {
        assert lists[l][j] == y;
      }
      DominanceScore(lists[..n], weights, k, x, y);
      ListDominance(lists[n], weights[n], k, x, y);
      if l :| 0 <= l < |lists| && y in lists[l] && l < n { assert y in lists[..n][l]; }
    }
  }

  /** An item ranked better in every list that contains another one is placed above it. */
  lemma DominanceIsRespected<T(!new)>(lists: seq<seq<T>>, weights: seq<real>, k: int, x: T, y: T)
    requires |lists| <= |weights| && k > 0 && Dominates(lists, x, y)
    requires forall l | 0 <= l < |lists| :: Distinct(lists[l]) && weights[l] > 0.0
    requires exists l :: 0 <= l < |lists| && y in lists[l]
    ensures Placed(Fuse(lists, weights, k), x, y)
  {
    DominanceScore(lists, weights, k, x, y);
    HigherIsAbove(lists, weights, k, x, y);
  }

  // Two lists: the intersection first

  lemma TwoLists<T(!new)>(a: seq<T>, b: seq<T>, k: int, x: T)
    ensures Score([a, b], Ones(2), k, x) == ListScore(a, 1.0, k, x) + ListScore(b, 1.0, k, x)
  {
    assert [a, b][..1] == [a] && [a][..0] == [];
    assert Score([a], Ones(2), k, x) == Score([], Ones(2), k, x) + ListScore(a, 1.0, k, x);
  }

  lemma AtLeastLast<T(!new)>(items: seq<T>, k: int, n: nat, x: T)
    requires Distinct(items) && x in items && |items| <= n <= k
    ensures 1.0 / (k + n - 1) as real <= ListScore(items, 1.0, k, x) <= 1.0 / k as real
  {
    var i :| 0 <= i < |items| && items[i] == x;
    ScoreAtRank(items, 1.0, k, i);
    if i > 0 { SmallerRankMore(1.0, k, 0, i); }
    if i < n - 1 { SmallerRankMore(1.0, k, i, n - 1); }
  }

  lemma TwiceLast(k: int, n: nat)
    requires 0 < n <= k
    ensures 2.0 / (k + n - 1) as real > 1.0 / k as real
    ensures 2.0 / (k + n - 1) as real == 1.0 / (k + n - 1) as real + 1.0 / (k + n - 1) as real
  {
    var (a, b) := ((k + n - 1) as real, k as real);
    assert a < 2.0 * b;
    var (p, q) := (1.0 / a, 1.0 / b);
    assert p * a == 1.0 && q * b == 1.0;
    assert (2.0 / a) * a == 2.0;
    assert (2.0 / a - (p + p)) * a == 0.0;
    Cancel(q, 0.0, b);
    assert q * a < q * (2.0 * b);
    Cancel(p + p, q, a);
  }

  ghost predicate InTwo<T(!new)>(lists: seq<seq<T>>, x: T) {
    exists i, j :: 0 <= i < j < |lists| && x in lists[i] && x in lists[j]
  }

  ghost predicate Short<T(!new)>(lists: seq<seq<T>>, n: nat) {
    forall l | 0 <= l < |lists| :: Distinct(lists[l]) && |lists[l]| <= n
  }

  ghost predicate Unweighted<T>(lists: seq<seq<T>>, weights: seq<real>) {
    |lists| <= |weights| && forall l | 0 <= l < |lists| :: weights[l] == 1.0
  }

  lemma {:induction false} AtMostHead<T(!new)>(lists: seq<seq<T>>, weights: seq<real>, k: int, n: nat, y: T)
    requires Short(lists, n) && Unweighted(lists, weights) && 0 < k && n <= k && !InTwo(lists, y)
    ensures Score(lists, weights, k, y) <= 1.0 / k as real
  {
    if lists != [] {
      var m := |lists| - 1;
      if y in lists[m] {
        AbsentScore(lists[..m], weights, k, y);
        AtLeastLast(lists[m], k, n, y);
      } else {
        AbsentFromList(lists[m], 1.0, k, y);
        AtMostHead(lists[..m], weights, k, n, y);
      }
    }
  }

  lemma {:induction false} AtLeastOnce<T(!new)>(lists: seq<seq<T>>, weights: seq<real>, k: int, n: nat, x: T)
    requires Short(lists, n) && Unweighted(lists, weights) && 0 < n <= k
    ensures Score(lists, weights, k, x) >= 0.0
    ensures (exists l :: 0 <= l < |lists| && x in lists[l]) ==> Score(lists, weights, k, x) >= 1.0 / (k + n - 1) as real
    ensures InTwo(lists, x) ==> Score(lists, weights, k, x) >= 1.0 / (k + n - 1) as real + 1.0 / (k + n - 1) as real
  {
    SmallerRankMore(1.0, k, n - 1, n);
    if lists != [] {
      var m := |lists| - 1;
      AtLeastOnce(lists[..m], weights, k, n, x);
      if x in lists[m] { AtLeastLast(lists[m], k, n, x); } else { AbsentFromList(lists[m], 1.0, k, x); }
      if l :| 0 <= l < |lists| && x in lists[l] && l < m { assert x in lists[..m][l]; }
      if InTwo(lists, x) {
        var i, j :| 0 <= i < j < |lists| && x in lists[i] && x in lists[j];
        assert x in lists[..m][i];
        assert j < m ==> x in lists[..m][j];
      }
    }
  }

  lemma AgreementBeatsOne<T(!new)>(lists: seq<seq<T>>, weights: seq<real>, k: int, n: nat, x: T, y: T)
    requires Short(lists, n) && Unweighted(lists, weights) && n <= k && InTwo(lists, x) && !InTwo(lists, y)
    ensures Score(lists, weights, k, x) > Score(lists, weights, k, y)
  {
    assert n > 0 by {
      var i, j :| 0 <= i < j < |lists| && x in lists[i] && x in lists[j];
      assert |lists[i]| <= n;
    }
    TwiceLast(k, n);
    AtMostHead(lists, weights, k, n, y);
    AtLeastOnce(lists, weights, k, n, x);
  }

  /** Fusing duplicate-free lists of at most n items puts all that two lists share above all the rest. */
  ghost predicate AgreementFirst(k: int, n: nat) {
    forall lists: seq<seq<int>>, x, y | Short(lists, n) && InTwo(lists, x) && !InTwo(lists, y) ::
      Placed(Fuse(lists, Ones(|lists|), k), x, y)
  }

  /** The rank-k item of two lists of k + 1 against the head of one: the smallest failing pair. */
  function Left(k: nat): seq<int> { seq(k + 1, i requires 0 <= i <= k => i as int) }

  function Right(k: nat): seq<int> { seq(k + 1, i requires 0 <= i <= k => if i == k then k else -1 - i) }

  lemma HeadTiesWithLast(k: nat)
    requires k > 0
    ensures Score([Left(k), Right(k)], Ones(2), k, k) == Score([Left(k), Right(k)], Ones(2), k, 0)
  {
    var (a: seq<int>, b: seq<int>) := (Left(k), Right(k));
    TwoLists<int>(a, b, k, k);
    TwoLists<int>(a, b, k, 0);
    ScoreAtRank<int>(a, 1.0, k, k);
    ScoreAtRank<int>(b, 1.0, k, k);
    ScoreAtRank<int>(a, 1.0, k, 0);
    AbsentFromList<int>(b, 1.0, k, 0);
    Halves(k);
  }

  lemma HeadIsAboveLast(k: nat)
    requires k > 0
    ensures !Placed(Fuse([Left(k), Right(k)], Ones(2), k), k, 0)
  {
    var (lists, weights) := ([Left(k), Right(k)], Ones(2));
    var out := Fuse(lists, weights, k);
    HeadTiesWithLast(k);
    KeysOf(Left(k), Right(k));
    assert AllKeys(lists)[0] == Left(k)[0] == 0 && AllKeys(lists)[k] == Left(k)[k] == k;
    FuseOrder<int>(lists, weights, k, 0, k);
    assert Placed<int>(out, 0, k);
    IsListed(lists, weights, k, 0);
    IsListed(lists, weights, k, k);
    var i :| 0 <= i < |out| && out[i].0 == 0;
    var j :| 0 <= j < |out| && out[j].0 == k;
  }

  lemma IsListed(lists: seq<seq<int>>, weights: seq<real>, k: int, x: int)
    requires lists != [] && |lists| <= |weights| && x in lists[0]
    ensures exists i :: 0 <= i < |Fuse(lists, weights, k)| && Fuse(lists, weights, k)[i].0 == x
  {
    FuseMeaning(lists, weights, k);
    var out := Fuse(lists, weights, k);
    assert (x, Score(lists, weights, k, x)) in out;
    var i :| 0 <= i < |out| && out[i] == (x, Score(lists, weights, k, x));
  }

  lemma Halves(k: nat)
    requires k > 0
    ensures 1.0 / (k + k) as real + 1.0 / (k + k) as real == 1.0 / k as real
  {
    var (a, b) := ((k + k) as real, k as real);
    assert a == b + b;
    var (p, q) := (1.0 / a, 1.0 / b);
    assert p * a == 1.0 && q * b == 1.0;
    assert (p + p) * b == p * a;
    assert (p + p - q) * b == 0.0;
  }

  /** The first list's items come first, in its order. */
  lemma KeysOf(a: seq<int>, b: seq<int>)
    requires Distinct(a)
    ensures a <= AllKeys([a, b])
  {
    assert [a, b][..1] == [a] && [a][..0] == [];
    assert AllKeys([a]) == Keys([], a);
    KeysOfDistinct(a);
    KeysExtend(a, b);
  }

  lemma {:induction false} KeysOfDistinct(a: seq<int>)
    requires Distinct(a)
    ensures Keys([], a) == a
  {
    if a != [] {
      KeysOfDistinct(a[..|a| - 1]);
      assert a == a[..|a| - 1] + [a[|a| - 1]];
    }
  }

  lemma {:induction false} KeysExtend(keys: seq<int>, items: seq<int>)
    ensures keys <= Keys(keys, items)
  {
    if items != [] { KeysExtend(keys, items[..|items| - 1]); }
  }

  /** Sixty items at k = 60 are the most for which agreement always wins; at 61 the head of one list ties. */
  lemma AgreementFirstIff(k: int, n: nat)
    requires k > 0
    ensures AgreementFirst(k, n) <==> n <= k
  {
    if n <= k {
      forall lists: seq<seq<int>>, x, y | Short(lists, n) && InTwo(lists, x) && !InTwo(lists, y)
        ensures Placed(Fuse(lists, Ones(|lists|), k), x, y)
      {
        AgreementBeatsOne(lists, Ones(|lists|), k, n, x, y);
        HigherIsAbove(lists, Ones(|lists|), k, x, y);
      }
    } else {
      HeadIsAboveLast(k);
      var lists := [Left(k), Right(k)];
      assert lists[0][k] == k && lists[1][k] == k;
      assert Short(lists, n) && InTwo(lists, k) && !InTwo(lists, 0);
    }
  }
}
