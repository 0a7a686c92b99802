/** The sequence numbers the store gives a slot's updates, and the order they are read back in. */
module UpdateNumbers {
  import opened Options
  import opened Sorting
  import opened Claims
  import opened SlotReader

  /** The largest number a slot's stored updates carry, or 0. */
  function Highwater(links: seq<Link>): (high: nat)
    ensures forall l <- links :: l.chain.Some? ==> l.chain.value <= high
  {
    if links == [] then 0
    else
      var high, last := Highwater(links[..|links| - 1]), links[|links| - 1];
      if last.chain.Some? && last.chain.value > high then last.chain.value else high
  }

  /** New rows of a slot as the store writes them, numbered on from `high`. */
  function Stamped(rows: seq<Update>, high: nat): (r: seq<Link>)
    ensures |r| == |rows| && forall i :: 0 <= i < |rows| ==> r[i] == Link(rows[i], Some(high + 1 + i))
  {
    seq(|rows|, i requires 0 <= i < |rows| => Link(rows[i], Some(high + 1 + i)))
  }

  /** Every stored update has a number, and no two the same. */
  ghost predicate Numbered(links: seq<Link>) {
    && (forall l <- links :: l.chain.Some?)
    && forall i, j :: 0 <= i < j < |links| ==> links[i].chain != links[j].chain
  }

  /** After a write the rows are read back somewhere among the old ones, by bead id. */
  ghost predicate Written(before: seq<Link>, rows: seq<Update>, after: seq<Link>) {
    multiset(after) == multiset(before + Stamped(rows, Highwater(before)))
  }

  function ByChain(l: Link): Key { Key(if l.chain.Some? then l.chain.value else 0, "") }

  lemma InChainHas(links: seq<Link>)
    ensures forall l :: l in InChain(links) <==> l in links
  {
    var sorted := Sort(PlacedAll(links), ByPlace);
    SortedHas(links, sorted);
    forall l | l in links
      ensures l in InChain(links)
    {
      var i :| 0 <= i < |links| && links[i] == l;
      assert PlacedAll(links)[i] in sorted;
      var k :| 0 <= k < |sorted| && sorted[k] == PlacedAll(links)[i];
      assert LinksIn(sorted)[k] == l;
    }
    forall l | l in InChain(links)
      ensures l in links
    {
      var k :| 0 <= k < |sorted| && LinksIn(sorted)[k] == l;
      assert PlacedAll(links)[sorted[k].at] == sorted[k];
    }
  }

  lemma InChainSorted(links: seq<Link>)
    requires Numbered(links)
    ensures SortedBy(InChain(links), ByChain) && DistinctKeys(InChain(links), ByChain)
  {
    hide Sort;
    var sorted := Sort(PlacedAll(links), ByPlace);
    SortInSequence(PlacedAll(links));
    SortedHas(links, sorted);
    forall i, j | 0 <= i < j < |sorted|
      ensures KeyLe(ByChain(sorted[i].link), ByChain(sorted[j].link))
      ensures ByChain(sorted[i].link) != ByChain(sorted[j].link)
    {
      var p, q := sorted[i].at, sorted[j].at;
      assert Before(sorted[i], sorted[j]) && links[p].chain != links[q].chain;
      assert links[p] in links && links[q] in links;
    }
  }

  lemma StampedLater(before: seq<Link>, rows: seq<Update>)
    requires SortedBy(before, ByChain) && DistinctKeys(before, ByChain) && forall l <- before :: l.chain.Some?
    ensures var all := before + Stamped(rows, Highwater(before));
      SortedBy(all, ByChain) && DistinctKeys(all, ByChain)
  {
    var high := Highwater(before);
    var all := before + Stamped(rows, high);
    forall i, j | 0 <= i < j < |all|
      ensures KeyLe(ByChain(all[i]), ByChain(all[j])) && ByChain(all[i]) != ByChain(all[j])
    {
      if j >= |before| && i < |before| { assert before[i] in before; }
    }
  }

  lemma HighwaterOfSame(xs: seq<Link>, ys: seq<Link>)
    requires forall l :: l in xs <==> l in ys
    ensures Highwater(xs) == Highwater(ys)
  {
    HighwaterReached(xs);
    HighwaterReached(ys);
  }

  lemma {:induction false} HighwaterReached(links: seq<Link>)
    ensures Highwater(links) > 0 ==> exists l :: l in links && l.chain == Some(Highwater(links))
  {
    if links != [] {
      HighwaterReached(links[..|links| - 1]);
      assert links[|links| - 1] in links;
      assert forall l <- links[..|links| - 1] :: l in links;
    }
  }

  lemma NumberedAfter(before: seq<Link>, rows: seq<Update>, after: seq<Link>)
    requires Numbered(before) && Written(before, rows, after)
    ensures Numbered(after)
  {
    var all := before + Stamped(rows, Highwater(before));
    forall i, j | 0 <= i < j < |all|
      ensures all[i].chain != all[j].chain
    {
      if j >= |before| && i < |before| { assert before[i] in before; }
    }
    DistinctChainsPermute(all, after);
    forall l | l in after
      ensures l.chain.Some?
    {
      assert l in multiset(all);
      assert l in all;
    }
  }

  lemma DistinctChainsPermute(xs: seq<Link>, ys: seq<Link>)
    requires multiset(xs) == multiset(ys)
    requires forall i, j :: 0 <= i < j < |xs| ==> xs[i].chain != xs[j].chain
    ensures forall i, j :: 0 <= i < j < |ys| ==> ys[i].chain != ys[j].chain
  {
    forall i, j | 0 <= i < j < |ys|
      ensures ys[i].chain != ys[j].chain
    {
      assert ys[i] in multiset(xs) && ys[j] in multiset(xs);
      var p :| 0 <= p < |xs| && xs[p] == ys[i];
      var q :| 0 <= q < |xs| && xs[q] == ys[j];
      if p == q {
        TwiceInMultiset(ys, i, j);
        OnceInMultiset(xs, p);
        assert false;
      }
    }
  }

  lemma TwiceInMultiset(ys: seq<Link>, i: nat, j: nat)
    requires i < j < |ys| && ys[i] == ys[j]
    ensures multiset(ys)[ys[i]] >= 2
  {
    assert ys == ys[..j] + [ys[j]] + ys[j + 1..];
    assert ys[..j][i] == ys[i] && ys[i] in ys[..j];
  }

  lemma OnceInMultiset(xs: seq<Link>, p: nat)
    requires p < |xs| && forall i, j :: 0 <= i < j < |xs| ==> xs[i].chain != xs[j].chain
    ensures multiset(xs)[xs[p]] == 1
  {
    assert xs == xs[..p] + [xs[p]] + xs[p + 1..];
    assert xs[p] !in xs[..p] && xs[p] !in xs[p + 1..];
  }

  /** In a numbered slot, wherever the new rows are read back, the reader goes through them last. */
  lemma WrittenComeLast(before: seq<Link>, rows: seq<Update>, after: seq<Link>)
    requires Numbered(before) && Written(before, rows, after)
    ensures Ordered(after) == Ordered(before) + rows
  {
    hide InChain, Highwater;
    var high := Highwater(before);
    var front, all := InChain(before), InChain(before) + Stamped(rows, high);
    NumberedAfter(before, rows, after);
    InChainSorted(before);
    InChainSorted(after);
    InChainHas(before);
    InChainHas(after);
    HighwaterOfSame(before, front);
    StampedLater(front, rows);
    forall l
      ensures l in InChain(after) <==> l in all
    {
      assert l in after <==> l in multiset(before + Stamped(rows, high));
    }
    SortedIsCanonical(InChain(after), all, ByChain);
    assert UpdatesIn(all) == UpdatesIn(front) + rows;
  }

  /** Updates without a number, from the store's older files, are read back behind all others and take
      their positions. Once one of them is a conflict mark, numbered rows never clear it: only a
      supersession or retraction behind it in those files does. */
  lemma LegacyMarksClearedIff(stored: seq<Link>, legacy: seq<Link>, m: nat)
    requires forall l <- stored :: l.chain.Some? && l.chain.value <= |stored|
    requires forall l <- legacy :: l.chain.None?
    requires m < |legacy| && Marks(legacy[m].update) && forall j :: m < j < |legacy| ==> !Marks(legacy[j].update)
    ensures Cleared(Ordered(stored + legacy)) <==> exists i :: m < i < |legacy| && Settles(legacy[i].update)
  {
    hide Ordered, Marks, Settles, Cleared;
    var links, at := stored + legacy, |stored| + m;
    assert links[at] == legacy[m];
    ClearedIff(links);
    forall i | 0 <= i < |links| && Settles(links[i].update) && ReadAfterAll(links, i, Marks)
      ensures exists k :: m < k < |legacy| && Settles(legacy[k].update)
    {
      assert Before(PlacedAll(links)[at], PlacedAll(links)[i]);
      if i < |stored| { NumberedNotBehind(stored, legacy, m, i); }
      assert links[i] == legacy[i - |stored|] && legacy[i - |stored|] in legacy;
    }
    forall k | m < k < |legacy| && Settles(legacy[k].update)
      ensures ReadAfterAll(links, |stored| + k, Marks) && Settles(links[|stored| + k].update)
    {
      BehindAllMarks(stored, legacy, m, k);
    }
  }

  lemma NumberedNotBehind(stored: seq<Link>, legacy: seq<Link>, m: nat, i: nat)
    requires i < |stored| && stored[i].chain.Some? && stored[i].chain.value <= |stored|
    requires m < |legacy| && legacy[m].chain.None?
    ensures var placed := PlacedAll(stored + legacy); !Before(placed[|stored| + m], placed[i])
  {
    assert (stored + legacy)[i] == stored[i] && (stored + legacy)[|stored| + m] == legacy[m];
  }

  lemma BehindAllMarks(stored: seq<Link>, legacy: seq<Link>, m: nat, k: nat)
    requires forall l <- stored :: l.chain.Some? && l.chain.value <= |stored|
    requires forall l <- legacy :: l.chain.None?
    requires m < k < |legacy| && forall j :: m < j < |legacy| ==> !Marks(legacy[j].update)
    ensures ReadAfterAll(stored + legacy, |stored| + k, Marks)
  {
    hide Marks;
    var links := stored + legacy;
    assert links[|stored| + k] == legacy[k] && legacy[k] in legacy;
    forall j | 0 <= j < |links| && Marks(links[j].update)
      ensures Before(PlacedAll(links)[j], PlacedAll(links)[|stored| + k])
    {
      if j < |stored| {
        assert links[j] == stored[j] && stored[j] in stored;
      } else {
        assert links[j] == legacy[j - |stored|] && legacy[j - |stored|] in legacy;
      }
    }
  }
}
