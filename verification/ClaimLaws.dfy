/** Currency only ever shrinks as updates arrive, and no order of arrival matters. */
module ClaimLaws {
  import opened Options
  import opened Sequences
  import opened Sorting
  import opened Claims

  ghost predicate Includes(more: seq<Update>, fewer: seq<Update>) {
    forall u <- fewer :: u in more
  }

  /** `later` sees at least what `earlier` sees; no as_of at all sees everything. */
  predicate Later(earlier: Option<nat>, later: Option<nat>) {
    later.None? || (earlier.Some? && earlier.value <= later.value)
  }

  lemma VisibilityIsUpwardClosed(u: Update, earlier: Option<nat>, later: Option<nat>)
    requires Later(earlier, later) && UpdateVisible(u, earlier)
    ensures UpdateVisible(u, later)
  {
  }

  /** A claim visibly superseded or retracted stays so, whatever is logged afterwards. */
  lemma EndedForGood(c: Claim, fewer: seq<Update>, more: seq<Update>, earlier: Option<nat>, later: Option<nat>)
    requires Includes(more, fewer) && Later(earlier, later) && Ended(c, fewer, earlier)
    ensures Ended(c, more, later) && !IsClaimCurrent(c, more, later)
  {
    hide Ends;
    var i :| 0 <= i < |fewer| && UpdateVisible(fewer[i], earlier) && Ends(fewer[i], c);
    assert fewer[i] in more;
    var j :| 0 <= j < |more| && more[j] == fewer[i];
    VisibilityIsUpwardClosed(fewer[i], earlier, later);
    assert UpdateVisible(more[j], later) && Ends(more[j], c);
  }

  lemma ContestedForGood(c: Claim, fewer: seq<Update>, more: seq<Update>, asOf: Option<nat>)
    requires Includes(more, fewer) && Contested(c, fewer, asOf)
    ensures Contested(c, more, asOf)
  {
    hide UpdateVisible;
    var i :| 0 <= i < |fewer| && fewer[i].decision == "conflict" && UpdateVisible(fewer[i], asOf)
        && fewer[i].target == c.id;
    assert fewer[i] in more;
    var j :| 0 <= j < |more| && more[j] == fewer[i];
  }

  lemma CurrencyIsAntitone(c: Claim, fewer: seq<Update>, more: seq<Update>, asOf: Option<nat>)
    requires Includes(more, fewer) && IsClaimCurrent(c, more, asOf)
    ensures IsClaimCurrent(c, fewer, asOf)
  {
    hide Ended;
    if Ended(c, fewer, asOf) {
      EndedForGood(c, fewer, more, asOf, asOf);
    }
  }

  /** With claims fixed, more updates leave a sub-list of the current claims. */
  lemma CurrentClaimsShrink(claims: seq<Claim>, fewer: seq<Update>, more: seq<Update>, asOf: Option<nat>)
    requires Includes(more, fewer)
    ensures CurrentClaims(claims, more, asOf) == Filter(CurrentClaims(claims, fewer, asOf), Current(more, asOf))
  {
    hide IsClaimCurrent, History;
    var history := History(claims, asOf);
    FilterTwice(history, Current(fewer, asOf), Current(more, asOf));
    forall c | c in history
      ensures Current(more, asOf)(c) == Both(Current(fewer, asOf), Current(more, asOf))(c)
    {
      if IsClaimCurrent(c, more, asOf) { CurrencyIsAntitone(c, fewer, more, asOf); }
    }
    FilterSame(history, Current(more, asOf), Both(Current(fewer, asOf), Current(more, asOf)));
  }

  lemma {:induction false} LastOfFilter<T(!new)>(xs: seq<T>, keep: T -> bool) returns (i: nat)
    requires Filter(xs, keep) != []
    ensures i < |xs| && xs[i] == Filter(xs, keep)[|Filter(xs, keep)| - 1]
  {
    if keep(xs[|xs| - 1]) {
      i := |xs| - 1;
    } else {
      i := LastOfFilter(xs[..|xs| - 1], keep);
    }
  }

  lemma {:induction false} FilterKeepsSorted<T(!new)>(xs: seq<T>, keep: T -> bool, key: T -> Key)
    requires SortedBy(xs, key)
    ensures SortedBy(Filter(xs, keep), key)
  {
    if xs != [] {
      FilterKeepsSorted(xs[..|xs| - 1], keep, key);
      var front := Filter(xs[..|xs| - 1], keep);
      forall i | 0 <= i < |front|
        ensures KeyLe(key(front[i]), key(xs[|xs| - 1]))
      {
        assert front[i] in front;
      }
    }
  }

  /** So the chosen current claim never moves later in temporal order, and is never regained. */
  lemma CurrentClaimNeverLater(claims: seq<Claim>, fewer: seq<Update>, more: seq<Update>, asOf: Option<nat>)
    requires Includes(more, fewer)
    ensures var before, after := SlotOf(claims, fewer, asOf), SlotOf(claims, more, asOf);
      && after.history == before.history
      && (after.current.Some? ==>
            before.current.Some? && KeyLe(SortKey(after.current.value), SortKey(before.current.value)))
      && (forall c <- before.conflicts :: c in after.conflicts)
  {
    hide History, IsClaimCurrent, Timeline, Status;
    var history := History(claims, asOf);
    var before, after := CurrentClaims(claims, fewer, asOf), CurrentClaims(claims, more, asOf);
    CurrentClaimsShrink(claims, fewer, more, asOf);
    if after != [] {
      var i := LastOfFilter(before, Current(more, asOf));
      HistoryMeaning(claims, asOf);
      FilterKeepsSorted(history, Current(fewer, asOf), SortKey);
      KeyLeTotal(SortKey(before[i]), SortKey(before[i]));
    }
    forall c | c in FindConflicts(history, fewer, asOf)
      ensures c in FindConflicts(history, more, asOf)
    {
      ContestedForGood(c, fewer, more, asOf);
    }
  }

  lemma HistoryMeaning(claims: seq<Claim>, asOf: Option<nat>)
    ensures SortedBy(History(claims, asOf), SortKey)
    ensures forall c :: c in History(claims, asOf) <==> c in claims && ClaimVisible(c, asOf)
  {
    hide ClaimVisible, SortKey;
    forall c { SortHas(Filter(claims, Visible(asOf)), SortKey, c); }
  }

  /** The current claim is one that no visible update has ended, and the temporally last of those. */
  lemma CurrentMeaning(claims: seq<Claim>, updates: seq<Update>, asOf: Option<nat>)
    ensures var current := SlotOf(claims, updates, asOf).current;
      && (current.None? <==> forall c <- claims :: !IsClaimCurrent(c, updates, asOf))
      && (current.Some? ==>
            && current.value in claims && IsClaimCurrent(current.value, updates, asOf)
            && forall c <- claims :: IsClaimCurrent(c, updates, asOf) ==> KeyLe(SortKey(c), SortKey(current.value)))
  {
    hide Ended, ClaimVisible, History, Timeline, Status, FindConflicts, SortKey, KeyLe;
    var current := CurrentClaims(claims, updates, asOf);
    HistoryMeaning(claims, asOf);
    FilterKeepsSorted(History(claims, asOf), Current(updates, asOf), SortKey);
    assert forall c :: c in current <==> c in claims && IsClaimCurrent(c, updates, asOf);
    if current != [] {
      var last := current[|current| - 1];
      assert last in current;
      forall c | c in current
        ensures KeyLe(SortKey(c), SortKey(last))
      {
        var i :| 0 <= i < |current| && current[i] == c;
        KeyLeTotal(SortKey(c), SortKey(c));
      }
    }
  }

  /** A visible conflict update on a visible claim makes the slot a conflict; short of that it is
      active exactly when it has a current claim. */
  lemma StatusMeaning(claims: seq<Claim>, updates: seq<Update>, asOf: Option<nat>)
    ensures var slot := SlotOf(claims, updates, asOf);
      && (slot.status.Conflict? <==> exists c <- claims :: ClaimVisible(c, asOf) && Contested(c, updates, asOf))
      && (slot.status.Active? <==> !slot.status.Conflict? && slot.current.Some?)
  {
    hide Contested, ClaimVisible, History, Timeline, CurrentClaims;
    var conflicts := FindConflicts(History(claims, asOf), updates, asOf);
    HistoryMeaning(claims, asOf);
    assert conflicts != [] ==> conflicts[0] in conflicts;
  }

  /** Which updates were logged decides a slot; in which order, and how often, does not. */
  lemma OrderFree(claims: seq<Claim>, us: seq<Update>, vs: seq<Update>, asOf: Option<nat>)
    requires Includes(us, vs) && Includes(vs, us)
    ensures var a, b := SlotOf(claims, us, asOf), SlotOf(claims, vs, asOf);
      a.current == b.current && a.history == b.history && a.conflicts == b.conflicts && a.status == b.status
    ensures CurrentClaims(claims, us, asOf) == CurrentClaims(claims, vs, asOf)
  {
    hide History, IsClaimCurrent, Contested, Timeline;
    var history := History(claims, asOf);
    forall c | c in history
      ensures Current(us, asOf)(c) == Current(vs, asOf)(c)
      ensures Conflicting(us, asOf)(c) == Conflicting(vs, asOf)(c)
    {
      if IsClaimCurrent(c, us, asOf) { CurrencyIsAntitone(c, vs, us, asOf); }
      if IsClaimCurrent(c, vs, asOf) { CurrencyIsAntitone(c, us, vs, asOf); }
      if Contested(c, us, asOf) { ContestedForGood(c, us, vs, asOf); }
      if Contested(c, vs, asOf) { ContestedForGood(c, vs, us, asOf); }
    }
    FilterSame(history, Current(us, asOf), Current(vs, asOf));
    FilterSame(history, Conflicting(us, asOf), Conflicting(vs, asOf));
  }

  /** Over the whole store: permuting the update log changes no slot but for its timeline. */
  lemma PermutedLogSameSlots(claims: seq<Claim>, us: seq<Update>, vs: seq<Update>, asOf: Option<nat>, key: string)
    requires multiset(us) == multiset(vs)
    ensures var a, b := SlotAt(claims, us, asOf, key), SlotAt(claims, vs, asOf, key);
      a.current == b.current && a.history == b.history && a.conflicts == b.conflicts && a.status == b.status
  {
    hide BaseKey, SlotOf, BaseOf;
    forall u
      ensures u in us <==> u in vs
    {
      assert u in multiset(us) <==> u in multiset(vs);
    }
    OrderFree(Bucket(claims, key), UpdateBucket(us, BaseKey(key)), UpdateBucket(vs, BaseKey(key)), asOf);
  }

  lemma {:induction false} FilterKeepsDistinct<T(!new)>(xs: seq<T>, keep: T -> bool, key: T -> Key)
    requires DistinctKeys(xs, key)
    ensures DistinctKeys(Filter(xs, keep), key)
  {
    if xs != [] {
      FilterKeepsDistinct(xs[..|xs| - 1], keep, key);
      var front := Filter(xs[..|xs| - 1], keep);
      forall i | 0 <= i < |front|
        ensures key(front[i]) != key(xs[|xs| - 1])
      {
        assert front[i] in front;
      }
    }
  }

  /** Nor does the order the claims were logged in, when no two share instant and id. */
  lemma ClaimOrderFree(cs: seq<Claim>, ds: seq<Claim>, updates: seq<Update>, asOf: Option<nat>)
    requires forall c :: c in cs <==> c in ds
    requires DistinctKeys(cs, SortKey) && DistinctKeys(ds, SortKey)
    ensures SlotOf(cs, updates, asOf) == SlotOf(ds, updates, asOf)
  {
    hide ClaimVisible, IsClaimCurrent, Contested, Timeline, SortKey;
    var fs, gs := Filter(cs, Visible(asOf)), Filter(ds, Visible(asOf));
    FilterKeepsDistinct(cs, Visible(asOf), SortKey);
    FilterKeepsDistinct(ds, Visible(asOf), SortKey);
    SortKeepsDistinct(fs, SortKey);
    SortKeepsDistinct(gs, SortKey);
    forall c
      ensures c in Sort(fs, SortKey) <==> c in Sort(gs, SortKey)
    {
      SortHas(fs, SortKey, c);
      SortHas(gs, SortKey, c);
    }
    SortedIsCanonical(Sort(fs, SortKey), Sort(gs, SortKey), SortKey);
  }
}
