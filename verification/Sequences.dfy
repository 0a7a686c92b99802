/** List folds several parts of the system share. */
module Sequences {

  predicate NoDuplicates<T(==)>(xs: seq<T>) {
    forall i, j :: 0 <= i < j < |xs| ==> xs[i] != xs[j]
  }

  /** Keeps the first occurrence of each element, in order: `if x not in out: out.append(x)`. */
  function Dedup<T(==,!new)>(xs: seq<T>): (r: seq<T>)
    ensures NoDuplicates(r) && |r| <= |xs|
    ensures forall x :: x in r <==> x in xs
  {
    if xs == [] then []
    else
      var r := Dedup(xs[..|xs| - 1]);
      var last := xs[|xs| - 1];
      assert xs == xs[..|xs| - 1] + [last];
      if last in r then r else r + [last]
  }

  /** Elements keep the order in which they first occur. */
  lemma {:induction false} DedupKeepsOrder<T(!new)>(xs: seq<T>, i: nat, j: nat) returns (p: nat, q: nat)
    requires i < j < |Dedup(xs)|
    ensures p < q < |xs| && xs[p] == Dedup(xs)[i] && xs[q] == Dedup(xs)[j]
    ensures xs[p] !in xs[..p] && xs[q] !in xs[..q]
  {
    var init := xs[..|xs| - 1];
    assert forall k :: 0 <= k <= |init| ==> xs[..k] == init[..k];
    if j < |Dedup(init)| {
      p, q := DedupKeepsOrder(init, i, j);
    } else {
      q := |xs| - 1;
      p := FirstOccurrence(init, Dedup(init)[i]);
    }
  }

  lemma {:induction false} FirstOccurrence<T(!new)>(xs: seq<T>, x: T) returns (p: nat)
    requires x in xs
    ensures p < |xs| && xs[p] == x && x !in xs[..p]
  {
    if xs[0] == x {
      p := 0;
    } else {
      p := FirstOccurrence(xs[1..], x);
      assert xs[..p + 1] == [xs[0]] + xs[1..][..p];
      p := p + 1;
    }
  }

  lemma {:induction false} DedupOfDistinct<T(!new)>(xs: seq<T>)
    requires NoDuplicates(xs)
    ensures Dedup(xs) == xs
  {
    if xs != [] {
      DedupOfDistinct(xs[..|xs| - 1]);
      assert xs == xs[..|xs| - 1] + [xs[|xs| - 1]];
    }
  }

  /** `[x for x in xs if keep(x)]` */
  function Filter<T(!new)>(xs: seq<T>, keep: T -> bool): (r: seq<T>)
    ensures |r| <= |xs|
    ensures forall x :: x in r <==> x in xs && keep(x)
  {
    if xs == [] then []
    else
      var r := Filter(xs[..|xs| - 1], keep);
      var last := xs[|xs| - 1];
      assert xs == xs[..|xs| - 1] + [last];
      if keep(last) then r + [last] else r
  }

  lemma FilterSnoc<T(!new)>(xs: seq<T>, x: T, keep: T -> bool)
    ensures Filter(xs + [x], keep) == if keep(x) then Filter(xs, keep) + [x] else Filter(xs, keep)
  {
  }

  lemma DedupFilterSnoc<T(!new)>(xs: seq<T>, x: T, keep: T -> bool)
    ensures var before := Dedup(Filter(xs, keep));
      Dedup(Filter(xs + [x], keep)) == if keep(x) && x !in before then before + [x] else before
  {
  }

  lemma Associative<T>(a: seq<T>, b: seq<T>, c: seq<T>)
    ensures a + (b + c) == a + b + c
  {
  }

  lemma FilterOfThree<T(!new)>(xs: seq<T>, init: seq<T>, last: T, keep: T -> bool)
    requires Filter(xs + init, keep) == Filter(xs, keep) + Filter(init, keep)
    ensures Filter(xs + (init + [last]), keep) == Filter(xs, keep) + Filter(init + [last], keep)
  {
    hide Filter;
    Associative(xs, init, [last]);
    FilterSnoc(xs + init, last, keep);
    FilterSnoc(init, last, keep);
    Associative(Filter(xs, keep), Filter(init, keep), [last]);
  }

  lemma {:induction false} FilterConcat<T(!new)>(xs: seq<T>, ys: seq<T>, keep: T -> bool)
    ensures Filter(xs + ys, keep) == Filter(xs, keep) + Filter(ys, keep)
  {
    if ys == [] {
      assert xs + ys == xs;
    } else {
      var init, last := ys[..|ys| - 1], ys[|ys| - 1];
      FilterConcat(xs, init, keep);
      FilterOfThree(xs, init, last, keep);
      assert ys == init + [last];
    }
  }

  lemma {:induction false} FilterSame<T(!new)>(xs: seq<T>, p: T -> bool, q: T -> bool)
    requires forall x <- xs :: p(x) == q(x)
    ensures Filter(xs, p) == Filter(xs, q)
  {
    if xs != [] { FilterSame(xs[..|xs| - 1], p, q); }
  }

  function Both<T>(p: T -> bool, q: T -> bool): T -> bool {
    (x: T) => p(x) && q(x)
  }

  lemma {:induction false} FilterTwice<T(!new)>(xs: seq<T>, p: T -> bool, q: T -> bool)
    ensures Filter(Filter(xs, p), q) == Filter(xs, Both(p, q))
  {
    if xs != [] {
      FilterTwice(xs[..|xs| - 1], p, q);
      FilterSnoc(Filter(xs[..|xs| - 1], p), xs[|xs| - 1], q);
    }
  }

  lemma {:induction false} FilterAll<T(!new)>(xs: seq<T>, keep: T -> bool)
    requires forall x :: x in xs ==> keep(x)
    ensures Filter(xs, keep) == xs
  {
    if xs != [] {
      FilterAll(xs[..|xs| - 1], keep);
      assert xs == xs[..|xs| - 1] + [xs[|xs| - 1]];
    }
  }

  lemma {:induction false} FilterNone<T(!new)>(xs: seq<T>, keep: T -> bool)
    requires forall x <- xs :: !keep(x)
    ensures Filter(xs, keep) == []
  {
    if xs != [] { FilterNone(xs[..|xs| - 1], keep); }
  }

  predicate HasKey<T, K(==)>(xs: seq<T>, key: T -> K, k: K) {
    exists i :: 0 <= i < |xs| && key(xs[i]) == k
  }

  ghost predicate DistinctBy<T(!new), K(!new)>(xs: seq<T>, key: T -> K) {
    forall i, j :: 0 <= i < j < |xs| ==> key(xs[i]) != key(xs[j])
  }

  /** The first element of every key, in order. */
  function FirstBy<T(!new), K(==, !new)>(xs: seq<T>, key: T -> K): (r: seq<T>)
    ensures DistinctBy(r, key)
    ensures forall x <- r :: x in xs
    ensures forall x <- xs :: HasKey(r, key, key(x))
  {
    if xs == [] then []
    else
      var before, last := FirstBy(xs[..|xs| - 1], key), xs[|xs| - 1];
      assert xs == xs[..|xs| - 1] + [last];
      if HasKey(before, key, key(last)) then before
      else
        HasKeySnoc(before, last, key);
        before + [last]
  }

  lemma HasKeySnoc<T(!new), K(!new)>(xs: seq<T>, x: T, key: T -> K)
    ensures forall k :: HasKey(xs + [x], key, k) <==> HasKey(xs, key, k) || key(x) == k
  {
    assert forall i :: 0 <= i < |xs| ==> (xs + [x])[i] == xs[i];
    assert (xs + [x])[|xs|] == x;
  }

  lemma FirstBySnoc<T(!new), K(!new)>(xs: seq<T>, x: T, key: T -> K)
    ensures FirstBy(xs + [x], key) == if HasKey(FirstBy(xs, key), key, key(x)) then FirstBy(xs, key)
        else FirstBy(xs, key) + [x]
  {
  }

  function Count<T>(xs: seq<T>, p: T -> bool): nat {
    if xs == [] then 0 else (if p(xs[0]) then 1 else 0) + Count(xs[1..], p)
  }

  lemma {:induction false} CountConcat<T>(xs: seq<T>, ys: seq<T>, p: T -> bool)
    ensures Count(xs + ys, p) == Count(xs, p) + Count(ys, p)
  {
    if xs == [] {
      assert xs + ys == ys;
    } else {
      CountConcat(xs[1..], ys, p);
      assert (xs + ys)[1..] == xs[1..] + ys;
    }
  }

  lemma {:induction false} CountNone<T>(xs: seq<T>, p: T -> bool)
    requires forall x <- xs :: !p(x)
    ensures Count(xs, p) == 0
  {
    if xs != [] { CountNone(xs[1..], p); }
  }

  function Take<T>(xs: seq<T>, n: nat): (r: seq<T>)
    ensures |r| <= n && r <= xs
  {
    if |xs| <= n then xs else xs[..n]
  }
}
