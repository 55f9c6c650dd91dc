/** Python's sorted(): a stable sort under a total preorder, and why that pins down its result. */
module Sorting {

  /** True; names two elements whose order a proof is about (it triggers TotalPreorder below). */
  ghost predicate Compare<T>(a: T, b: T) { true }

  ghost predicate TotalPreorder<T(!new)>(leq: (T, T) -> bool) {
    && (forall a, b {:trigger Compare(a, b)} :: leq(a, b) || leq(b, a))
    && (forall a, b, c {:trigger Compare(a, b), Compare(b, c)} :: leq(a, b) && leq(b, c) ==> leq(a, c))
  }

  ghost predicate Sorted<T>(xs: seq<T>, leq: (T, T) -> bool) {
    xs == [] || ((forall y | y in xs[1..] :: leq(xs[0], y)) && Sorted(xs[1..], leq))
  }

  lemma {:induction false} SortedAt<T(!new)>(xs: seq<T>, leq: (T, T) -> bool, i: nat, j: nat)
    requires Sorted(xs, leq) && i < j < |xs|
    ensures leq(xs[i], xs[j])
  {
    if i == 0 {
      assert xs[j] == xs[1..][j - 1];
    } else {
      SortedAt(xs[1..], leq, i - 1, j - 1);
    }
  }

  /** The elements of xs that tie with pivot, in their order of appearance. */
  function Ties<T>(xs: seq<T>, pivot: T, leq: (T, T) -> bool): seq<T> {
    if xs == [] then []
    else (if leq(xs[0], pivot) && leq(pivot, xs[0]) then [xs[0]] else []) + Ties(xs[1..], pivot, leq)
  }

  /** ys is xs sorted, every group of ties keeping its order. */
  ghost predicate StablySorts<T(!new)>(xs: seq<T>, ys: seq<T>, leq: (T, T) -> bool) {
    && Sorted(ys, leq)
    && multiset(ys) == multiset(xs)
    && forall p: T :: Ties(ys, p, leq) == Ties(xs, p, leq)
  }

  function Insert<T>(x: T, xs: seq<T>, leq: (T, T) -> bool): seq<T> {
    if xs == [] then [x]
    else if leq(x, xs[0]) then [x] + xs
    else [xs[0]] + Insert(x, xs[1..], leq)
  }

  function StableSort<T>(xs: seq<T>, leq: (T, T) -> bool): seq<T> {
    if xs == [] then [] else Insert(xs[0], StableSort(xs[1..], leq), leq)
  }

  lemma {:induction false} InsertAdds<T>(x: T, xs: seq<T>, leq: (T, T) -> bool)
    ensures multiset(Insert(x, xs, leq)) == multiset{x} + multiset(xs)
  {
    if xs != [] && !leq(x, xs[0]) {
      InsertAdds(x, xs[1..], leq);
      assert xs == [xs[0]] + xs[1..];
    }
  }

  lemma {:induction false} InsertSorts<T(!new)>(x: T, xs: seq<T>, leq: (T, T) -> bool)
    requires TotalPreorder(leq) && Sorted(xs, leq)
    ensures Sorted(Insert(x, xs, leq), leq)
  {
    if xs == [] {
    } else if leq(x, xs[0]) {
      assert ([x] + xs)[1..] == xs;
      forall y | y in xs ensures leq(x, y) {
        assert Compare(x, xs[0]) && Compare(xs[0], y);
        assert y == xs[0] || y in xs[1..];
      }
    } else {
      var rest := Insert(x, xs[1..], leq);
      InsertSorts(x, xs[1..], leq);
      InsertAdds(x, xs[1..], leq);
      assert Compare(x, xs[0]);
      assert ([xs[0]] + rest)[1..] == rest;
      forall y | y in rest ensures leq(xs[0], y) {
        assert y in multiset(rest);
        assert y == x || y in xs[1..];
      }
    }
  }

  /** Of two elements out of order at most one ties with p. */
  lemma OneTies<T(!new)>(x: T, y: T, p: T, leq: (T, T) -> bool)
    requires TotalPreorder(leq) && !leq(x, y)
    ensures !(leq(x, p) && leq(p, x)) || !(leq(y, p) && leq(p, y))
  {
    assert Compare(x, p) && Compare(p, y);
  }

  lemma {:induction false} InsertKeepsTies<T(!new)>(x: T, xs: seq<T>, p: T, leq: (T, T) -> bool)
    requires TotalPreorder(leq)
    ensures Ties(Insert(x, xs, leq), p, leq) == Ties([x] + xs, p, leq)
  {
    hide Ties, TotalPreorder;
    if xs != [] && !leq(x, xs[0]) {
      var (y, rest) := (xs[0], xs[1..]);
      InsertKeepsTies(x, rest, p, leq);
      TiesOfCons(y, Insert(x, rest, leq), p, leq);
      TiesOfCons(x, rest, p, leq);
      assert [y] + rest == xs;
      TiesOfCons(y, rest, p, leq);
      TiesOfCons(x, xs, p, leq);
      OneTies(x, y, p, leq);
      assert Insert(x, xs, leq) == [y] + Insert(x, rest, leq);
    } else {
      assert Insert(x, xs, leq) == [x] + xs;
    }
  }

  lemma TiesOfCons<T>(x: T, xs: seq<T>, p: T, leq: (T, T) -> bool)
    ensures Ties([x] + xs, p, leq) == (if leq(x, p) && leq(p, x) then [x] else []) + Ties(xs, p, leq)
  {
    assert ([x] + xs)[1..] == xs;
  }

  lemma {:induction false} StableSortIsStable<T(!new)>(xs: seq<T>, leq: (T, T) -> bool)
    requires TotalPreorder(leq)
    ensures StablySorts(xs, StableSort(xs, leq), leq)
  {
    if xs != [] {
      var rest := StableSort(xs[1..], leq);
      StableSortIsStable(xs[1..], leq);
      InsertSorts(xs[0], rest, leq);
      InsertAdds(xs[0], rest, leq);
      assert xs == [xs[0]] + xs[1..];
      forall p: T ensures Ties(StableSort(xs, leq), p, leq) == Ties(xs, p, leq) {
        InsertKeepsTies(xs[0], rest, p, leq);
        assert ([xs[0]] + rest)[1..] == rest;
        assert Ties(rest, p, leq) == Ties(xs[1..], p, leq);
      }
    }
  }

  /** A stable sort has one possible result: whatever algorithm Python uses returns StableSort. */
  lemma {:induction false} StableSortIsUnique<T(!new)>(xs: seq<T>, ys: seq<T>, zs: seq<T>, leq: (T, T) -> bool)
    requires TotalPreorder(leq) && StablySorts(xs, ys, leq) && StablySorts(xs, zs, leq)
    ensures ys == zs
  {
    SameTiesSameSeq(ys, zs, leq);
  }

  lemma {:induction false} TiesOfSelf<T(!new)>(xs: seq<T>, leq: (T, T) -> bool)
    requires TotalPreorder(leq) && xs != []
    ensures Ties(xs, xs[0], leq) == [xs[0]] + Ties(xs[1..], xs[0], leq)
  {
    assert Compare(xs[0], xs[0]);
  }

  lemma {:induction false} SameTiesSameSeq<T(!new)>(ys: seq<T>, zs: seq<T>, leq: (T, T) -> bool)
    requires TotalPreorder(leq) && Sorted(ys, leq) && Sorted(zs, leq)
    requires multiset(ys) == multiset(zs)
    requires forall p: T :: Ties(ys, p, leq) == Ties(zs, p, leq)
    ensures ys == zs
    decreases |ys|
  {
    assert |ys| == |multiset(ys)| == |zs|;
    if ys != [] {
      SameHead(ys, zs, leq);
      SameMultisetOfTail(ys, zs);
      forall p: T ensures Ties(ys[1..], p, leq) == Ties(zs[1..], p, leq) {
        TiesOfTail(ys, zs, p, leq);
      }
      SameTiesSameSeq(ys[1..], zs[1..], leq);
      assert ys == [ys[0]] + ys[1..] == [zs[0]] + zs[1..] == zs;
    }
  }

  lemma SameMultisetOfTail<T>(ys: seq<T>, zs: seq<T>)
    requires ys != [] && zs != [] && ys[0] == zs[0] && multiset(ys) == multiset(zs)
    ensures multiset(ys[1..]) == multiset(zs[1..])
  {
    assert ys == [ys[0]] + ys[1..] && zs == [zs[0]] + zs[1..];
    assert multiset(ys[1..]) == multiset(ys) - multiset{ys[0]};
    assert multiset(zs[1..]) == multiset(zs) - multiset{zs[0]};
  }

  lemma SameHead<T(!new)>(ys: seq<T>, zs: seq<T>, leq: (T, T) -> bool)
    requires TotalPreorder(leq) && Sorted(ys, leq) && Sorted(zs, leq)
    requires multiset(ys) == multiset(zs) && ys != [] && zs != []
    requires Ties(ys, ys[0], leq) == Ties(zs, ys[0], leq)
    ensures ys[0] == zs[0]
  {
    FirstsTie(ys, zs, leq);
    TiesOfSelf(ys, leq);
    assert Ties(zs, ys[0], leq)[0] == zs[0];
  }

  lemma TiesOfTail<T>(ys: seq<T>, zs: seq<T>, p: T, leq: (T, T) -> bool)
    requires ys != [] && zs != [] && ys[0] == zs[0] && Ties(ys, p, leq) == Ties(zs, p, leq)
    ensures Ties(ys[1..], p, leq) == Ties(zs[1..], p, leq)
  {
    var head := if leq(ys[0], p) && leq(p, ys[0]) then [ys[0]] else [];
    assert Ties(ys[1..], p, leq) == Ties(ys, p, leq)[|head|..];
    assert Ties(zs[1..], p, leq) == Ties(zs, p, leq)[|head|..];
  }

  lemma FirstsTie<T(!new)>(ys: seq<T>, zs: seq<T>, leq: (T, T) -> bool)
    requires TotalPreorder(leq) && Sorted(ys, leq) && Sorted(zs, leq)
    requires multiset(ys) == multiset(zs) && ys != [] && zs != []
    ensures leq(ys[0], zs[0]) && leq(zs[0], ys[0])
  {
    assert ys[0] in multiset(zs) && zs[0] in multiset(ys);
    assert Compare(ys[0], zs[0]);
    assert zs[0] == ys[0] || zs[0] in ys[1..];
    assert ys[0] == zs[0] || ys[0] in zs[1..];
    assert Compare(ys[0], ys[0]);
  }

  /** Sorting changes the order only: the same elements, in particular as many of them. */
  lemma SortKeepsElements<T(!new)>(xs: seq<T>, leq: (T, T) -> bool)
    requires TotalPreorder(leq)
    ensures |StableSort(xs, leq)| == |xs|
    ensures forall x :: x in StableSort(xs, leq) <==> x in xs
  {
    StableSortIsStable(xs, leq);
    var ys := StableSort(xs, leq);
    assert |multiset(ys)| == |multiset(xs)|;
    forall x ensures x in ys <==> x in xs {
      assert x in multiset(ys) <==> x in multiset(xs);
    }
  }

  ghost predicate Distinct<T>(xs: seq<T>) {
    forall i, j | 0 <= i < j < |xs| :: xs[i] != xs[j]
  }

  lemma {:induction false} OnceEach<T(!new)>(xs: seq<T>, x: T)
    requires Distinct(xs)
    ensures multiset(xs)[x] <= 1
  {
    if xs != [] {
      OnceEach(xs[1..], x);
      assert xs == [xs[0]] + xs[1..];
      if x in xs[1..] {
        var i :| 0 <= i < |xs[1..]| && xs[1..][i] == x;
        assert xs[i + 1] == x && x != xs[0];
      }
    }
  }

  /** A permutation of distinct elements has no repeat. */
  lemma StaysDistinct<T(!new)>(xs: seq<T>, ys: seq<T>)
    requires Distinct(xs) && multiset(xs) == multiset(ys)
    ensures Distinct(ys)
  {
    forall i, j | 0 <= i < j < |ys| ensures ys[i] != ys[j] {
      if ys[i] == ys[j] {
        assert ys == ys[..i] + [ys[i]] + ys[i + 1..j] + [ys[j]] + ys[j + 1..];
        assert multiset(ys)[ys[i]] >= 2;
        OnceEach(xs, ys[i]);
      }
    }
  }
}
