/** Python's stable `sorted` on the pair keys the repository sorts by, and the fact that
    such a list is determined by its elements once the keys are distinct. */
module Sorting {
  import Text

  /** `(created_at, id)`; instants are integers. */
  datatype Key = Key(at: int, id: string)

  /** Plain strings sort by themselves. */
  function ByText(s: string): Key { Key(0, s) }

  predicate KeyLe(a: Key, b: Key) {
    a.at < b.at || (a.at == b.at && Text.Le(a.id, b.id))
  }

  lemma KeyLeTotal(a: Key, b: Key)
    ensures KeyLe(a, b) || KeyLe(b, a)
  {
    Text.LeTotal(a.id, b.id);
  }

  lemma KeyLeAntisymmetric(a: Key, b: Key)
    requires KeyLe(a, b) && KeyLe(b, a)
    ensures a == b
  {
    Text.LeAntisymmetric(a.id, b.id);
  }

  lemma KeyLeTransitive(a: Key, b: Key, c: Key)
    requires KeyLe(a, b) && KeyLe(b, c)
    ensures KeyLe(a, c)
  {
    if a.at == b.at == c.at {
      Text.LeTransitive(a.id, b.id, c.id);
    }
  }

  ghost predicate SortedBy<T>(xs: seq<T>, key: T -> Key) {
    forall i, j :: 0 <= i < j < |xs| ==> KeyLe(key(xs[i]), key(xs[j]))
  }

  /** Puts x behind every element whose key is not larger: ties keep their order. */
  function Insert<T>(xs: seq<T>, x: T, key: T -> Key): (r: seq<T>)
    ensures multiset(r) == multiset(xs) + multiset{x}
  {
    var n := |xs|;
    if n == 0 then [x]
    else if KeyLe(key(xs[n - 1]), key(x)) then xs + [x]
    else
      assert xs == xs[..n - 1] + [xs[n - 1]];
      Insert(xs[..n - 1], x, key) + [xs[n - 1]]
  }

  lemma InsertHas<T>(xs: seq<T>, x: T, key: T -> Key, y: T)
    ensures y in Insert(xs, x, key) <==> y == x || y in xs
  {
  }

  lemma {:induction false} InsertSorted<T>(xs: seq<T>, x: T, key: T -> Key)
    requires SortedBy(xs, key)
    ensures SortedBy(Insert(xs, x, key), key)
  {
    var n := |xs|;
    if n == 0 {
    } else if KeyLe(key(xs[n - 1]), key(x)) {
      forall i | 0 <= i < n
        ensures KeyLe(key(xs[i]), key(x))
      {
        if i < n - 1 {
          KeyLeTransitive(key(xs[i]), key(xs[n - 1]), key(x));
        }
      }
    } else {
      var front := Insert(xs[..n - 1], x, key);
      InsertSorted(xs[..n - 1], x, key);
      forall i | 0 <= i < |front|
        ensures KeyLe(key(front[i]), key(xs[n - 1]))
      {
        InsertHas(xs[..n - 1], x, key, front[i]);
        KeyLeTotal(key(xs[n - 1]), key(x));
      }
    }
  }

  function Sort<T>(xs: seq<T>, key: T -> Key): (r: seq<T>)
    ensures multiset(r) == multiset(xs)
    ensures SortedBy(r, key)
  {
    if xs == [] then []
    else
      assert xs == xs[..|xs| - 1] + [xs[|xs| - 1]];
      var front := Sort(xs[..|xs| - 1], key);
      InsertSorted(front, xs[|xs| - 1], key);
      Insert(front, xs[|xs| - 1], key)
  }

  lemma SortHas<T>(xs: seq<T>, key: T -> Key, x: T)
    ensures x in Sort(xs, key) <==> x in xs
  {
    assert x in Sort(xs, key) <==> x in multiset(Sort(xs, key));
  }

  ghost predicate DistinctKeys<T>(xs: seq<T>, key: T -> Key) {
    forall i, j :: 0 <= i < j < |xs| ==> key(xs[i]) != key(xs[j])
  }

  lemma {:induction false} InsertKeepsDistinct<T>(xs: seq<T>, x: T, key: T -> Key)
    requires DistinctKeys(xs, key)
    requires forall y :: y in xs ==> key(y) != key(x)
    ensures DistinctKeys(Insert(xs, x, key), key)
  {
    var n := |xs|;
    if n > 0 && !KeyLe(key(xs[n - 1]), key(x)) {
      var front := Insert(xs[..n - 1], x, key);
      InsertKeepsDistinct(xs[..n - 1], x, key);
      forall i | 0 <= i < |front|
        ensures key(front[i]) != key(xs[n - 1])
      {
        InsertHas(xs[..n - 1], x, key, front[i]);
      }
    }
  }

  lemma {:induction false} SortKeepsDistinct<T>(xs: seq<T>, key: T -> Key)
    requires DistinctKeys(xs, key)
    ensures DistinctKeys(Sort(xs, key), key)
  {
    if xs != [] {
      var n := |xs|;
      SortKeepsDistinct(xs[..n - 1], key);
      forall y | y in Sort(xs[..n - 1], key)
        ensures key(y) != key(xs[n - 1])
      {
        SortHas(xs[..n - 1], key, y);
      }
      InsertKeepsDistinct(Sort(xs[..n - 1], key), xs[n - 1], key);
    }
  }

  /** A sorted list with distinct keys is determined by which elements it has. */
  lemma {:induction false} SortedIsCanonical<T>(xs: seq<T>, ys: seq<T>, key: T -> Key)
    requires SortedBy(xs, key) && SortedBy(ys, key)
    requires DistinctKeys(xs, key) && DistinctKeys(ys, key)
    requires forall x :: x in xs ==> x in ys
    requires forall y :: y in ys ==> y in xs
    ensures xs == ys
  {
    if xs == [] {
      assert forall j :: 0 <= j < |ys| ==> ys[j] in xs;
    } else {
      assert xs[0] in ys;
      var x, y := xs[|xs| - 1], ys[|ys| - 1];
      assert x in ys && y in xs;
      assert KeyLe(key(y), key(x)) || x == y;
      assert KeyLe(key(x), key(y)) || x == y;
      if x != y {
        KeyLeAntisymmetric(key(x), key(y));
        assert false;
      }
      var xs', ys' := xs[..|xs| - 1], ys[..|ys| - 1];
      assert xs == xs' + [x] && ys == ys' + [y];
      forall z | z in xs'
        ensures z in ys'
      {
        assert z in xs && key(z) != key(x) && z in ys;
      }
      forall z | z in ys'
        ensures z in xs'
      {
        assert z in ys && key(z) != key(y) && z in xs;
      }
      SortedIsCanonical(xs', ys', key);
    }
  }
}
