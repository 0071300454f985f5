/** Lexicographic order on strings and sorting by a string key. */
module Ordering {
  /** `a <= b` as JavaScript compares strings, character by character. */
  predicate Leq(a: string, b: string) {
    a == "" || (b != "" && (a[0] < b[0] || (a[0] == b[0] && Leq(a[1..], b[1..]))))
  }

  predicate Less(a: string, b: string) {
    a != b && Leq(a, b)
  }

  lemma {:induction false} LeqTotal(a: string, b: string)
    ensures Leq(a, b) || Leq(b, a)
  {
    if a != "" && b != "" {
      LeqTotal(a[1..], b[1..]);
    }
  }

  lemma {:induction false} LeqAntisymmetric(a: string, b: string)
    requires Leq(a, b) && Leq(b, a)
    ensures a == b
  {
    if a != "" && b != "" {
      LeqAntisymmetric(a[1..], b[1..]);
      assert a == [a[0]] + a[1..] && b == [b[0]] + b[1..];
    }
  }

  lemma {:induction false} LeqTransitive(a: string, b: string, c: string)
    requires Leq(a, b) && Leq(b, c)
    ensures Leq(a, c)
  {
    if a != "" && a[0] == b[0] && b[0] == c[0] {
      LeqTransitive(a[1..], b[1..], c[1..]);
    }
  }

  /** The texts first differ at position `i`, where `a` has the smaller character. */
  ghost predicate IsSmallerAt(a: string, b: string, i: nat) {
    i < |a| && i < |b| && a[..i] == b[..i] && a[i] < b[i]
  }

  lemma SmallerLater(a: string, b: string, i: nat)
    requires a != "" && b != "" && a[0] == b[0]
    ensures IsSmallerAt(a, b, i + 1) <==> IsSmallerAt(a[1..], b[1..], i)
  {
    if i < |a| - 1 && i < |b| - 1 {
      assert a[..i + 1] == [a[0]] + a[1..][..i] && b[..i + 1] == [b[0]] + b[1..][..i];
      assert a[1..][..i] == a[..i + 1][1..] && b[1..][..i] == b[..i + 1][1..];
    }
  }

  lemma PrefixLater(a: string, b: string)
    requires a != "" && b != ""
    ensures a <= b <==> a[0] == b[0] && a[1..] <= b[1..]
  {
    assert a == [a[0]] + a[1..] && b == [b[0]] + b[1..];
  }

  lemma NotSmallerBehind(a: string, b: string, i: nat)
    requires IsSmallerAt(a, b, i)
    ensures a[0] < b[0] || (a[0] == b[0] && i > 0)
  {
    if i > 0 {
      assert a[0] == a[..i][0] && b[0] == b[..i][0];
    }
  }

  /** `a` is a prefix of `b`, or smaller where they first differ. */
  lemma {:induction false} LeqMeans(a: string, b: string)
    ensures Leq(a, b) <==> a <= b || exists i: nat :: IsSmallerAt(a, b, i)
  {
    if a != "" && b != "" {
      LeqMeans(a[1..], b[1..]);
      PrefixLater(a, b);
      if a[0] < b[0] {
        assert IsSmallerAt(a, b, 0);
      }
      if i: nat :| IsSmallerAt(a[1..], b[1..], i) && a[0] == b[0] {
        SmallerLater(a, b, i);
      }
      if i: nat :| IsSmallerAt(a, b, i) {
        NotSmallerBehind(a, b, i);
        if a[0] == b[0] {
          SmallerLater(a, b, i - 1);
        }
      }
    }
  }

  // ---- Sorting -----------------------------------------------------------------

  ghost predicate SortedBy<T>(key: T -> string, xs: seq<T>) {
    forall i, j :: 0 <= i < j < |xs| ==> Leq(key(xs[i]), key(xs[j]))
  }

  function InsertBy<T>(key: T -> string, x: T, xs: seq<T>): seq<T> {
    if xs == [] then [x]
    else if Less(key(x), key(xs[0])) then [x] + xs
    else [xs[0]] + InsertBy(key, x, xs[1..])
  }

  /** Stable sort: `x` goes after the elements it ties with. */
  function SortBy<T>(key: T -> string, xs: seq<T>): seq<T> {
    if xs == [] then [] else InsertBy(key, xs[|xs| - 1], SortBy(key, xs[..|xs| - 1]))
  }

  lemma {:induction false} InsertByMembers<T>(key: T -> string, x: T, xs: seq<T>)
    ensures multiset(InsertBy(key, x, xs)) == multiset(xs) + multiset{x}
  {
    if xs != [] && !Less(key(x), key(xs[0])) {
      InsertByMembers(key, x, xs[1..]);
      assert xs == [xs[0]] + xs[1..];
    }
  }

  lemma {:induction false} InsertBySorted<T>(key: T -> string, x: T, xs: seq<T>)
    requires SortedBy(key, xs)
    ensures SortedBy(key, InsertBy(key, x, xs))
  {
    if xs != [] {
      LeqTotal(key(x), key(xs[0]));
      if Less(key(x), key(xs[0])) {
        forall i | 0 <= i < |xs|
          ensures Leq(key(x), key(xs[i]))
        {
          if i > 0 {
            LeqTransitive(key(x), key(xs[0]), key(xs[i]));
          }
        }
      } else {
        var rest := InsertBy(key, x, xs[1..]);
        InsertBySorted(key, x, xs[1..]);
        InsertByMembers(key, x, xs[1..]);
        forall y | y in rest
          ensures Leq(key(xs[0]), key(y))
        {
          assert y in multiset(rest);
          assert y == x || y in xs[1..];
        }
      }
    }
  }

  /** Sorting permutes its input into key order. */
  lemma {:induction false} SortBySorts<T>(key: T -> string, xs: seq<T>)
    ensures multiset(SortBy(key, xs)) == multiset(xs) && SortedBy(key, SortBy(key, xs))
  {
    if xs != [] {
      var init, last := xs[..|xs| - 1], xs[|xs| - 1];
      SortBySorts(key, init);
      InsertByMembers(key, last, SortBy(key, init));
      InsertBySorted(key, last, SortBy(key, init));
      assert xs == init + [last];
    }
  }

  ghost predicate DistinctKeys<T>(key: T -> string, xs: seq<T>) {
    forall i, j :: 0 <= i < j < |xs| ==> key(xs[i]) != key(xs[j])
  }

  /** With distinct keys there is only one sorted arrangement of the same elements. */
  lemma {:induction false} SortedUnique<T>(key: T -> string, xs: seq<T>, ys: seq<T>)
    requires SortedBy(key, xs) && SortedBy(key, ys) && DistinctKeys(key, xs) && multiset(xs) == multiset(ys)
    ensures xs == ys
  {
    assert |xs| == |multiset(xs)| == |multiset(ys)| == |ys|;
    if xs != [] {
      SameTails(key, xs, ys);
      SortedUnique(key, xs[1..], ys[1..]);
      assert xs == [xs[0]] + xs[1..] && ys == [ys[0]] + ys[1..];
    }
  }

  lemma SameTails<T>(key: T -> string, xs: seq<T>, ys: seq<T>)
    requires SortedBy(key, xs) && SortedBy(key, ys) && DistinctKeys(key, xs) && multiset(xs) == multiset(ys)
    requires xs != [] && ys != []
    ensures xs[0] == ys[0] && multiset(xs[1..]) == multiset(ys[1..])
  {
    assert xs[0] in multiset(ys) && ys[0] in multiset(xs);
    SameLeast(key, xs, ys);
    TailMultiset(xs);
    TailMultiset(ys);
  }

  lemma TailMultiset<T>(xs: seq<T>)
    requires xs != []
    ensures multiset(xs[1..]) == multiset(xs) - multiset{xs[0]}
  {
    assert xs == [xs[0]] + xs[1..];
  }

  lemma SameLeast<T>(key: T -> string, xs: seq<T>, ys: seq<T>)
    requires SortedBy(key, xs) && SortedBy(key, ys) && DistinctKeys(key, xs)
    requires xs != [] && ys != [] && xs[0] in ys && ys[0] in xs
    ensures xs[0] == ys[0]
  {
    var i :| 0 <= i < |ys| && ys[i] == xs[0];
    var j :| 0 <= j < |xs| && xs[j] == ys[0];
    if i > 0 && j > 0 {
      LeqAntisymmetric(key(xs[0]), key(ys[0]));
    }
  }

  // ---- What a stable sort depends on ---------------------------------------------

  /** The elements with key `k`, in order. */
  function WithKey<T>(key: T -> string, k: string, xs: seq<T>): seq<T> {
    if xs == [] then []
    else if key(xs[0]) == k then [xs[0]] + WithKey(key, k, xs[1..])
    else WithKey(key, k, xs[1..])
  }

  lemma {:induction false} WithKeyConcat<T>(key: T -> string, k: string, xs: seq<T>, ys: seq<T>)
    ensures WithKey(key, k, xs + ys) == WithKey(key, k, xs) + WithKey(key, k, ys)
  {
    if xs == [] {
      assert xs + ys == ys;
    } else {
      assert (xs + ys)[1..] == xs[1..] + ys;
      WithKeyConcat(key, k, xs[1..], ys);
    }
  }

  lemma {:induction false} WithKeyMembers<T>(key: T -> string, k: string, xs: seq<T>)
    ensures forall x :: x in WithKey(key, k, xs) <==> x in xs && key(x) == k
  {
    if xs != [] {
      WithKeyMembers(key, k, xs[1..]);
      assert xs == [xs[0]] + xs[1..];
    }
  }

  lemma {:induction false} NoneWithKey<T>(key: T -> string, k: string, xs: seq<T>)
    requires forall x :: x in xs ==> key(x) != k
    ensures WithKey(key, k, xs) == []
  {
    if xs != [] {
      NoneWithKey(key, k, xs[1..]);
    }
  }

  lemma {:induction false} InsertByIsStable<T>(key: T -> string, k: string, x: T, xs: seq<T>)
    requires SortedBy(key, xs)
    ensures WithKey(key, k, InsertBy(key, x, xs)) == WithKey(key, k, xs) + WithKey(key, k, [x])
  {
    if xs == [] {
    } else if Less(key(x), key(xs[0])) {
      WithKeyConcat(key, k, [x], xs);
      if key(x) == k {
        WithKeyMembers(key, k, xs);
        forall y | y in xs ensures key(y) != k {
          var i :| 0 <= i < |xs| && xs[i] == y;
          if key(y) == k {
            LeqTotal(key(xs[0]), key(xs[0]));
            LeqAntisymmetric(key(x), key(xs[0]));
          }
        }
        NoneWithKey(key, k, xs);
      }
    } else {
      InsertByIsStable(key, k, x, xs[1..]);
    }
  }

  /** Sorting keeps the elements of every key in their order. */
  lemma {:induction false} SortByIsStable<T>(key: T -> string, k: string, xs: seq<T>)
    ensures WithKey(key, k, SortBy(key, xs)) == WithKey(key, k, xs)
  {
    if xs != [] {
      var init, last := xs[..|xs| - 1], xs[|xs| - 1];
      SortByIsStable(key, k, init);
      SortBySorts(key, init);
      InsertByIsStable(key, k, last, SortBy(key, init));
      WithKeyConcat(key, k, init, [last]);
      assert xs == init + [last];
    }
  }

  /** The same elements of every key, in the same order. */
  ghost predicate SameByKey<T(!new)>(key: T -> string, xs: seq<T>, ys: seq<T>) {
    forall k :: WithKey(key, k, xs) == WithKey(key, k, ys)
  }

  lemma SameByKeyMembers<T(!new)>(key: T -> string, xs: seq<T>, ys: seq<T>)
    requires SameByKey(key, xs, ys)
    ensures forall y :: y in xs <==> y in ys
  {
    forall y ensures y in xs <==> y in ys {
      WithKeyMembers(key, key(y), xs);
      WithKeyMembers(key, key(y), ys);
      assert WithKey(key, key(y), xs) == WithKey(key, key(y), ys);
    }
  }

  lemma {:induction false} SameSorted<T(!new)>(key: T -> string, xs: seq<T>, ys: seq<T>)
    requires SortedBy(key, xs) && SortedBy(key, ys) && SameByKey(key, xs, ys)
    ensures xs == ys
  {
    SameByKeyMembers(key, xs, ys);
    assert ys != [] ==> ys[0] in xs;
    if xs != [] {
      assert xs[0] in ys;
      SameLeastKey(key, xs, ys);
      assert xs[0] == ys[0] by {
        assert WithKey(key, key(xs[0]), xs)[0] == WithKey(key, key(xs[0]), ys)[0];
      }
      forall k ensures WithKey(key, k, xs[1..]) == WithKey(key, k, ys[1..]) {
        assert WithKey(key, k, xs) == WithKey(key, k, ys);
        if key(xs[0]) == k {
          assert WithKey(key, k, xs[1..]) == WithKey(key, k, xs)[1..];
          assert WithKey(key, k, ys[1..]) == WithKey(key, k, ys)[1..];
        }
      }
      SameSorted(key, xs[1..], ys[1..]);
      assert xs == [xs[0]] + xs[1..] && ys == [ys[0]] + ys[1..];
    }
  }

  lemma SameLeastKey<T>(key: T -> string, xs: seq<T>, ys: seq<T>)
    requires SortedBy(key, xs) && SortedBy(key, ys) && xs != [] && ys != [] && xs[0] in ys && ys[0] in xs
    ensures key(xs[0]) == key(ys[0])
  {
    var i :| 0 <= i < |ys| && ys[i] == xs[0];
    var j :| 0 <= j < |xs| && xs[j] == ys[0];
    if i > 0 && j > 0 {
      LeqAntisymmetric(key(xs[0]), key(ys[0]));
    }
  }

  /** Two sequences sort to the same exactly if they have the same elements of every key in the same order. */
  lemma SortsAlikeIff<T(!new)>(key: T -> string, xs: seq<T>, ys: seq<T>)
    ensures SortBy(key, xs) == SortBy(key, ys) <==> SameByKey(key, xs, ys)
  {
    var sx, sy := SortBy(key, xs), SortBy(key, ys);
    forall k ensures WithKey(key, k, sx) == WithKey(key, k, xs) && WithKey(key, k, sy) == WithKey(key, k, ys) {
      SortByIsStable(key, k, xs);
      SortByIsStable(key, k, ys);
    }
    if SameByKey(key, xs, ys) {
      SortBySorts(key, xs);
      SortBySorts(key, ys);
      assert SameByKey(key, sx, sy);
      SameSorted(key, sx, sy);
    }
    if sx == sy {
      forall k ensures WithKey(key, k, xs) == WithKey(key, k, ys) {
        assert WithKey(key, k, sx) == WithKey(key, k, sy);
      }
    }
  }

  /** Sorting a sorted sequence changes nothing. */
  lemma SortedStays<T(!new)>(key: T -> string, xs: seq<T>)
    requires SortedBy(key, xs)
    ensures SortBy(key, xs) == xs
  {
    SortBySorts(key, xs);
    forall k ensures WithKey(key, k, SortBy(key, xs)) == WithKey(key, k, xs) {
      SortByIsStable(key, k, xs);
    }
    SameSorted(key, SortBy(key, xs), xs);
  }

  /** Distinct keys leave nothing to order within a key. */
  lemma {:induction false} DistinctWithKey<T>(key: T -> string, k: string, xs: seq<T>, x: T)
    requires DistinctKeys(key, xs) && x in xs && key(x) == k
    ensures WithKey(key, k, xs) == [x]
  {
    WithKeyMembers(key, k, xs[1..]);
    if xs[0] == x {
      NoneWithKey(key, k, xs[1..]);
    } else {
      DistinctWithKey(key, k, xs[1..], x);
    }
  }

  lemma SameDistinctMembers<T(!new)>(key: T -> string, k: string, xs: seq<T>, ys: seq<T>)
    requires DistinctKeys(key, xs) && DistinctKeys(key, ys) && forall x :: x in xs <==> x in ys
    ensures WithKey(key, k, xs) == WithKey(key, k, ys)
  {
    WithKeyMembers(key, k, xs);
    WithKeyMembers(key, k, ys);
    if x :| x in xs && key(x) == k {
      DistinctWithKey(key, k, xs, x);
      DistinctWithKey(key, k, ys, x);
    } else {
      NoneWithKey(key, k, xs);
      NoneWithKey(key, k, ys);
    }
  }

  // ---- Sorting projections --------------------------------------------------------

  function Map<S, T>(f: S -> T, xs: seq<S>): seq<T> {
    if xs == [] then [] else Map(f, xs[..|xs| - 1]) + [f(xs[|xs| - 1])]
  }

  lemma {:induction false} MapAt<S, T>(f: S -> T, xs: seq<S>)
    ensures |Map(f, xs)| == |xs| && forall i :: 0 <= i < |xs| ==> Map(f, xs)[i] == f(xs[i])
  {
    if xs != [] {
      MapAt(f, xs[..|xs| - 1]);
    }
  }

  lemma MapCons<S, T>(f: S -> T, x: S, xs: seq<S>)
    ensures Map(f, [x] + xs) == [f(x)] + Map(f, xs)
  {
    MapAt(f, xs);
    MapAt(f, [x] + xs);
  }

  lemma {:induction false} InsertByMap<S, T>(f: S -> T, keyS: S -> string, keyT: T -> string, x: S, xs: seq<S>)
    requires forall y :: y == x || y in xs ==> keyS(y) == keyT(f(y))
    ensures Map(f, InsertBy(keyS, x, xs)) == InsertBy(keyT, f(x), Map(f, xs))
  {
    MapCons(f, x, xs);
    if xs != [] {
      var rest := xs[1..];
      assert xs == [xs[0]] + rest;
      MapCons(f, xs[0], rest);
      MapCons(f, xs[0], InsertBy(keyS, x, rest));
      InsertByMap(f, keyS, keyT, x, rest);
    }
  }

  /** Sorting before or after a projection that keeps the keys gives the same. */
  lemma {:induction false} SortByMap<S, T>(f: S -> T, keyS: S -> string, keyT: T -> string, xs: seq<S>)
    requires forall y :: y in xs ==> keyS(y) == keyT(f(y))
    ensures Map(f, SortBy(keyS, xs)) == SortBy(keyT, Map(f, xs))
  {
    if xs != [] {
      var init, last := xs[..|xs| - 1], xs[|xs| - 1];
      SortByMap(f, keyS, keyT, init);
      SortBySorts(keyS, init);
      assert forall y :: y in SortBy(keyS, init) ==> y in multiset(SortBy(keyS, init));
      assert forall y :: y in init ==> y in xs;
      InsertByMap(f, keyS, keyT, last, SortBy(keyS, init));
      MapAt(f, xs);
      assert Map(f, xs)[..|xs| - 1] == Map(f, init);
    }
  }

  // ---- Counting -------------------------------------------------------------------

  function Count<T>(p: T -> bool, xs: seq<T>): nat {
    if xs == [] then 0 else Count(p, xs[..|xs| - 1]) + if p(xs[|xs| - 1]) then 1 else 0
  }

  lemma {:induction false} CountConcat<T>(p: T -> bool, xs: seq<T>, ys: seq<T>)
    ensures Count(p, xs + ys) == Count(p, xs) + Count(p, ys)
  {
    if ys == [] {
      assert xs + ys == xs;
    } else {
      assert (xs + ys)[..|xs + ys| - 1] == xs + ys[..|ys| - 1];
      CountConcat(p, xs, ys[..|ys| - 1]);
    }
  }

  lemma {:induction false} CountInsertBy<T>(p: T -> bool, key: T -> string, x: T, xs: seq<T>)
    ensures Count(p, InsertBy(key, x, xs)) == Count(p, xs) + if p(x) then 1 else 0
  {
    assert [x][..0] == [];
    assert Count(p, [x]) == if p(x) then 1 else 0;
    if xs != [] {
      if Less(key(x), key(xs[0])) {
        CountConcat(p, [x], xs);
      } else {
        CountInsertBy(p, key, x, xs[1..]);
        CountConcat(p, [xs[0]], InsertBy(key, x, xs[1..]));
        CountConcat(p, [xs[0]], xs[1..]);
        assert xs == [xs[0]] + xs[1..];
      }
    }
  }

  lemma {:induction false} CountSortBy<T>(p: T -> bool, key: T -> string, xs: seq<T>)
    ensures Count(p, SortBy(key, xs)) == Count(p, xs)
  {
    if xs != [] {
      CountSortBy(p, key, xs[..|xs| - 1]);
      CountInsertBy(p, key, xs[|xs| - 1], SortBy(key, xs[..|xs| - 1]));
    }
  }

  lemma {:induction false} CountMap<S, T>(p: S -> bool, q: T -> bool, f: S -> T, xs: seq<S>)
    requires forall x :: x in xs ==> p(x) == q(f(x))
    ensures Count(q, Map(f, xs)) == Count(p, xs)
  {
    if xs != [] {
      assert forall x :: x in xs[..|xs| - 1] ==> x in xs;
      CountMap(p, q, f, xs[..|xs| - 1]);
    }
  }

  /** Two different members count twice. */
  lemma {:induction false} CountTwo<T>(p: T -> bool, xs: seq<T>, x: T, y: T)
    requires x in xs && y in xs && x != y && p(x) && p(y)
    ensures Count(p, xs) >= 2
  {
    var init, last := xs[..|xs| - 1], xs[|xs| - 1];
    assert xs == init + [last];
    if x in init && y in init {
      CountTwo(p, init, x, y);
    } else {
      CountOne(p, init, if x in init then x else y);
    }
  }

  lemma {:induction false} CountOne<T>(p: T -> bool, xs: seq<T>, x: T)
    requires x in xs && p(x)
    ensures Count(p, xs) >= 1
  {
    assert xs == xs[..|xs| - 1] + [xs[|xs| - 1]];
    if x != xs[|xs| - 1] {
      CountOne(p, xs[..|xs| - 1], x);
    }
  }

  /** A permutation of distinct keys has distinct keys. */
  lemma {:induction false} DistinctKeysPermute<T>(key: T -> string, xs: seq<T>, ys: seq<T>)
    requires DistinctKeys(key, xs) && multiset(xs) == multiset(ys)
    ensures DistinctKeys(key, ys)
    decreases |ys|
  {
    if ys != [] {
      assert ys == [ys[0]] + ys[1..];
      assert ys[0] in multiset(xs);
      var rest := TakeOut(key, xs, ys[0]);
      assert multiset(ys[1..]) == multiset(ys) - multiset{ys[0]};
      DistinctKeysPermute(key, rest, ys[1..]);
      forall y | y in ys[1..] ensures key(y) != key(ys[0]) {
        assert y in multiset(ys[1..]);
        assert y in rest;
      }
    }
  }

  /** The sequence without one occurrence of `x`. */
  lemma TakeOut<T>(key: T -> string, xs: seq<T>, x: T) returns (rest: seq<T>)
    requires DistinctKeys(key, xs) && x in xs
    ensures multiset(rest) == multiset(xs) - multiset{x} && DistinctKeys(key, rest)
    ensures forall y :: y in rest ==> key(y) != key(x)
  {
    var i :| 0 <= i < |xs| && xs[i] == x;
    var before, after := xs[..i], xs[i + 1..];
    rest := before + after;
    assert xs == before + ([x] + after);
    WithoutOne(before, x, after);
    DistinctConcat(key, before, [x] + after);
    DistinctConcat(key, [x], after);
    DistinctConcat(key, before, after);
  }

  lemma WithoutOne<T>(before: seq<T>, x: T, after: seq<T>)
    ensures multiset(before + after) == multiset(before + ([x] + after)) - multiset{x}
  {
  }

  lemma DistinctConcat<T>(key: T -> string, xs: seq<T>, ys: seq<T>)
    ensures DistinctKeys(key, xs + ys) <==>
            DistinctKeys(key, xs) && DistinctKeys(key, ys) && forall x, y :: x in xs && y in ys ==> key(x) != key(y)
  {
    var all := xs + ys;
    if DistinctKeys(key, all) {
      forall i, j | 0 <= i < j < |xs| ensures key(xs[i]) != key(xs[j]) {
        assert all[i] == xs[i] && all[j] == xs[j];
      }
      forall i, j | 0 <= i < j < |ys| ensures key(ys[i]) != key(ys[j]) {
        assert all[|xs| + i] == ys[i] && all[|xs| + j] == ys[j];
      }
      forall x, y | x in xs && y in ys ensures key(x) != key(y) {
        var i :| 0 <= i < |xs| && xs[i] == x;
        var j :| 0 <= j < |ys| && ys[j] == y;
        assert all[i] == x && all[|xs| + j] == y;
      }
    }
    if DistinctKeys(key, xs) && DistinctKeys(key, ys) && (forall x, y :: x in xs && y in ys ==> key(x) != key(y)) {
      forall i, j | 0 <= i < j < |all| ensures key(all[i]) != key(all[j]) {
        assert i < |xs| ==> all[i] in xs;
        assert j >= |xs| ==> all[j] in ys;
      }
    }
  }

  // ---- Sets of strings -----------------------------------------------------------

  predicate StrictlySorted(xs: seq<string>) {
    forall i, j :: 0 <= i < j < |xs| ==> Less(xs[i], xs[j])
  }

  lemma {:induction false} NeighboursSuffice(steps: seq<string>, i: nat, j: nat)
    requires i < j < |steps| && forall n :: 0 <= n < |steps| - 1 ==> Less(steps[n], steps[n + 1])
    ensures Less(steps[i], steps[j])
    decreases j
  {
    if i < j - 1 {
      NeighboursSuffice(steps, i, j - 1);
      assert Less(steps[j - 1], steps[j - 1 + 1]);
      LeqTransitive(steps[i], steps[j - 1], steps[j]);
      if steps[i] == steps[j] {
        LeqAntisymmetric(steps[i], steps[j - 1]);
      }
    }
  }

  predicate IsLeast(x: string, s: set<string>) {
    x in s && forall y :: y in s ==> Leq(x, y)
  }

  lemma {:induction false} LeastExists(s: set<string>)
    requires s != {}
    ensures exists x :: IsLeast(x, s)
  {
    var a :| a in s;
    LeqTotal(a, a);
    if s != {a} {
      LeastExists(s - {a});
      var b :| IsLeast(b, s - {a});
      LeqTotal(a, b);
      var m := if Leq(a, b) then a else b;
      forall y | y in s
        ensures Leq(m, y)
      {
        if y != a && Leq(a, b) {
          LeqTransitive(a, b, y);
        }
      }
      assert IsLeast(m, s);
    } else {
      assert IsLeast(a, s);
    }
  }

  lemma LeastUnique(s: set<string>)
    ensures forall x, y :: IsLeast(x, s) && IsLeast(y, s) ==> x == y
  {
    forall x, y | IsLeast(x, s) && IsLeast(y, s)
      ensures x == y
    {
      LeqAntisymmetric(x, y);
    }
  }

  /** `Array.from(set).sort()`. */
  function SortedSet(s: set<string>): (xs: seq<string>)
    ensures StrictlySorted(xs) && (forall x :: x in xs <==> x in s)
    decreases s
  {
    if s == {} then []
    else
      LeastExists(s);
      LeastUnique(s);
      var x :| IsLeast(x, s);
      [x] + SortedSet(s - {x})
  }

  /** The sorted listing of a set is determined by its members. */
  lemma {:induction false} StrictlySortedUnique(xs: seq<string>, ys: seq<string>)
    requires StrictlySorted(xs) && StrictlySorted(ys) && forall x :: x in xs <==> x in ys
    ensures xs == ys
  {
    assert ys != [] ==> ys[0] in xs;
    if xs != [] {
      assert xs[0] in ys;
      assert xs[0] == ys[0] by {
        if xs[0] != ys[0] {
          LeqAntisymmetric(xs[0], ys[0]);
        }
      }
      forall x
        ensures x in xs[1..] <==> x in ys[1..]
      {
        assert x in xs[1..] <==> x in xs && x != xs[0];
        assert x in ys[1..] <==> x in ys && x != ys[0];
      }
      StrictlySortedUnique(xs[1..], ys[1..]);
      assert xs == [xs[0]] + xs[1..] && ys == [ys[0]] + ys[1..];
    }
  }

  lemma {:induction false} StrictlySortedCardinality(xs: seq<string>)
    requires StrictlySorted(xs)
    ensures |set x | x in xs| == |xs|
  {
    if xs != [] {
      StrictlySortedCardinality(xs[1..]);
      assert (set x | x in xs) == {xs[0]} + (set x | x in xs[1..]);
    }
  }
}
