/** The two readers of a slot side by side: when `resolve_all_current_state` and `resolve_current_state`
    agree, before and after a conflict resolution. */
module ReaderAgreement {
  import opened Options
  import opened Text
  import opened Sequences
  import opened Sorting
  import opened Claims
  import opened ClaimKeys
  import ClaimLaws
  import opened ConflictReview
  import opened SlotReader
  import opened UpdateNumbers

  ghost predicate SameUpdates(us: seq<Update>, vs: seq<Update>) {
    forall u :: u in us <==> u in vs
  }

  /** On a claim with an id both readers go by the same updates. */
  lemma StandsAlike(c: Claim, logged: seq<Update>, ordered: seq<Update>)
    requires SameUpdates(logged, ordered) && IdOf(c) != ""
    ensures Standing(ordered)(c) <==> IsClaimCurrent(c, logged, None)
    ensures Marked(ordered)(c) <==> Contested(c, logged, None)
  {
    assert forall u :: TargetOf(u) == IdOf(c) <==> u.target == c.id;
    if Standing(ordered)(c) {
      forall i | 0 <= i < |logged|
        ensures !Ends(logged[i], c)
      {
        assert logged[i] in ordered;
        assert Settles(logged[i]) ==> TargetOf(logged[i]) in TargetsOf(ordered, Settles);
      }
    } else {
      var u :| u in ordered && Settles(u) && TargetOf(u) == IdOf(c);
      var i :| 0 <= i < |logged| && logged[i] == u;
      assert Ends(logged[i], c);
    }
    if Marked(ordered)(c) {
      var u :| u in ordered && Marks(u) && TargetOf(u) == IdOf(c);
      var i :| 0 <= i < |logged| && logged[i] == u;
      assert Contested(c, logged, None);
    }
    if Contested(c, logged, None) {
      var i :| 0 <= i < |logged| && logged[i].decision == "conflict" && logged[i].target == c.id;
      assert logged[i] in ordered && Marks(logged[i]);
      assert TargetOf(logged[i]) in TargetsOf(ordered, Marks);
    }
  }

  lemma EmptyAlike<T(!new)>(xs: seq<T>, ys: seq<T>, p: T -> bool, q: T -> bool)
    requires forall x :: x in xs <==> x in ys
    requires forall x <- xs :: p(x) == q(x)
    ensures Filter(xs, p) == [] <==> Filter(ys, q) == []
  {
    if Filter(xs, p) != [] {
      var x := Filter(xs, p)[0];
      assert x in Filter(xs, p) && x in Filter(ys, q);
    }
    if Filter(ys, q) != [] {
      var y := Filter(ys, q)[0];
      assert y in Filter(ys, q) && y in Filter(xs, p);
    }
  }

  lemma HistoryHas(claims: seq<Claim>)
    ensures forall c :: c in claims <==> c in History(claims, None)
  {
    FilterAll(claims, Visible(None));
    forall c { SortHas(claims, SortKey, c); }
  }

  /** The readers give one slot the same status exactly when nothing is marked as a conflict or the
      marks are not cleared. */
  lemma StatusesAgreeIff(claims: seq<Claim>, logged: seq<Update>, ordered: seq<Update>)
    requires claims != [] && (forall c <- claims :: IdOf(c) != "") && SameUpdates(logged, ordered)
    ensures ViewOf(claims, ordered).status == Some(SlotOf(claims, logged, None).status)
            <==> SlotOf(claims, logged, None).conflicts == [] || !Cleared(ordered)
  {
    hide Standing, Marked, Current, Conflicting, History, SameUpdates, Cleared, Timeline, Pick;
    HistoryHas(claims);
    var history := History(claims, None);
    forall c | c in history
      ensures Current(logged, None)(c) == Standing(ordered)(c)
      ensures Conflicting(logged, None)(c) == Marked(ordered)(c)
    {
      AlikeAt(c, logged, ordered);
    }
    EmptyAlike(history, claims, Current(logged, None), Standing(ordered));
    EmptyAlike(history, claims, Conflicting(logged, None), Marked(ordered));
  }

  lemma AlikeAt(c: Claim, logged: seq<Update>, ordered: seq<Update>)
    requires SameUpdates(logged, ordered) && IdOf(c) != ""
    ensures Current(logged, None)(c) == Standing(ordered)(c) && Conflicting(logged, None)(c) == Marked(ordered)(c)
  {
    hide Standing, Marked;
    StandsAlike(c, logged, ordered);
  }

  // ---------------------------------------------------------------- after a resolution

  lemma SettledLast(us: seq<Update>, rows: seq<Update>)
    requires rows != [] && forall u <- rows :: Settles(u) && !Marks(u)
    ensures LastOf(us + rows, Settles) == |us| + |rows| - 1 && LastOf(us + rows, Marks) < |us|
    ensures LastOf(us + rows, Marks) >= 0 <==> exists u :: u in us && Marks(u)
  {
    hide Settles, Marks, LastOf;
    var all := us + rows;
    assert all[|all| - 1] == rows[|rows| - 1] && rows[|rows| - 1] in rows;
    assert forall i :: |us| <= i < |all| ==> all[i] == rows[i - |us|] && rows[i - |us|] in rows;
    var m := LastOf(all, Marks);
    forall u | u in us && Marks(u)
      ensures m >= 0
    {
      var i :| 0 <= i < |us| && us[i] == u;
      assert all[i] == u;
    }
  }

  lemma TargetsOfBoth(us: seq<Update>, vs: seq<Update>, kind: Update -> bool)
    ensures TargetsOf(us + vs, kind) == TargetsOf(us, kind) + TargetsOf(vs, kind)
  {
  }

  lemma RowsSettle(resolution: string, subject: string, slot: string, a: string, b: string)
    ensures var rows := ResolutionToClaimUpdates(resolution, subject, slot, a, b);
      && (forall u <- rows :: Settles(u) && !Marks(u) && u.subject == subject && u.slot == slot)
      && TargetsOf(rows, Settles) == TakenOut(ChoiceOf(resolution), Strip(a), Strip(b))
  {
    hide Norm, Strip;
  }

  /** A resolution that writes anything clears every conflict mark the reader saw, and takes out of the
      standing claims exactly those it names. */
  lemma ResolutionClears(claims: seq<Claim>, us: seq<Update>, resolution: string, subject: string, slot: string,
                         a: string, b: string)
    requires ResolutionToClaimUpdates(resolution, subject, slot, a, b) != []
    ensures var all := us + ResolutionToClaimUpdates(resolution, subject, slot, a, b);
      && ViewOf(claims, all).conflicts == []
      && (Cleared(all) <==> exists u :: u in us && Marks(u))
      && forall c: Claim :: Standing(all)(c)
           <==> Standing(us)(c) && IdOf(c) !in TakenOut(ChoiceOf(resolution), Strip(a), Strip(b))
  {
    hide ResolutionToClaimUpdates, TakenOut, ChoiceOf, Strip, LastOf, Settles, Marks, Pick;
    var rows := ResolutionToClaimUpdates(resolution, subject, slot, a, b);
    RowsSettle(resolution, subject, slot, a, b);
    SettledLast(us, rows);
    TargetsOfBoth(us, rows, Settles);
    TargetsOfBoth(us, rows, Marks);
    if !Cleared(us + rows) {
      assert TargetsOf(us + rows, Marks) == {};
      FilterNone(claims, Marked(us + rows));
    }
  }

  // ---------------------------------------------------------------- the slot in the store

  /** A slot both readers see whole: no other slot's claims or updates are mixed in, its claims have
      ids and no scope. */
  ghost predicate OneSlot(claims: seq<Claim>, subject: string, slot: string) {
    && subject != "" && slot != "" && ColonsOutside(subject, slot) && !HasSeparator(BaseOf(subject, slot))
    && (exists c :: c in claims && OfSlot(subject, slot)(c))
    && forall c <- claims :: OfSlot(subject, slot)(c) ==> Strip(c.scope) == "" && IdOf(c) != ""
  }

  lemma OwnBase(subject: string, slot: string)
    requires subject != "" && slot != "" && ColonsOutside(subject, slot) && !HasSeparator(BaseOf(subject, slot))
    ensures SlotKey(subject, slot, "") == BaseOf(subject, slot) == BaseKey(SlotKey(subject, slot, ""))
    ensures forall u, v, w :: u != "" && v != "" && SlotKey(u, v, w) == BaseOf(subject, slot)
              ==> u == subject && v == slot && w == ""
    ensures forall u, v :: u != "" && v != "" && BaseOf(u, v) == BaseOf(subject, slot) ==> u == subject && v == slot
  {
    hide BaseKey, HasSeparator, ColonsOutside;
    BaseKeyRecoversIff(subject, slot, "");
    KeyIsOwnIff(subject, slot, "");
    assert forall u, v :: BaseOf(u, v) == SlotKey(u, v, "");
  }

  lemma SlotClaims(claims: seq<Claim>, subject: string, slot: string)
    requires OneSlot(claims, subject, slot)
    ensures Bucket(claims, SlotKey(subject, slot, "")) == Filter(claims, OfSlot(subject, slot))
    ensures Filter(claims, OfSlot(subject, slot)) != []
    ensures forall c <- Filter(claims, OfSlot(subject, slot)) :: IdOf(c) != ""
  {
    hide BaseKey, HasSeparator, ColonsOutside, SlotKey, BaseOf, Strip;
    OwnBase(subject, slot);
    FilterSame(claims, InBucket(SlotKey(subject, slot, "")), OfSlot(subject, slot));
    var c :| c in claims && OfSlot(subject, slot)(c);
    assert c in Filter(claims, OfSlot(subject, slot));
  }

  lemma OrderedHas(links: seq<Link>)
    ensures SameUpdates(UpdatesIn(links), Ordered(links))
  {
    hide InChain;
    InChainHas(links);
    forall u
      ensures u in UpdatesIn(links) <==> u in UpdatesIn(InChain(links))
    {
      UpdateHas(links, u);
      UpdateHas(InChain(links), u);
    }
  }

  lemma UpdateHas(links: seq<Link>, u: Update)
    ensures u in UpdatesIn(links) <==> exists l :: l in links && l.update == u
  {
    if u in UpdatesIn(links) {
      var i :| 0 <= i < |links| && UpdatesIn(links)[i] == u;
      assert links[i] in links;
    }
    forall l | l in links && l.update == u
      ensures u in UpdatesIn(links)
    {
      var i :| 0 <= i < |links| && links[i] == l;
      assert UpdatesIn(links)[i] == u;
    }
  }

  /** Both readers go by the same updates, in their own orders. */
  lemma SlotUpdates(links: seq<Link>, subject: string, slot: string)
    requires subject != "" && slot != "" && ColonsOutside(subject, slot) && !HasSeparator(BaseOf(subject, slot))
    ensures SameUpdates(UpdateBucket(UpdatesIn(links), BaseOf(subject, slot)),
                        Ordered(Filter(links, LinkOfSlot(subject, slot))))
  {
    hide BaseKey, HasSeparator, ColonsOutside, SlotKey, BaseOf, Ordered;
    OwnBase(subject, slot);
    var own := Filter(links, LinkOfSlot(subject, slot));
    OrderedHas(own);
    forall u
      ensures u in UpdateBucket(UpdatesIn(links), BaseOf(subject, slot)) <==> u in UpdatesIn(own)
    {
      UpdateHas(links, u);
      UpdateHas(own, u);
    }
  }

  /** The slot as the resolver of all slots shows it. */
  function Listed(claims: seq<Claim>, links: seq<Link>, subject: string, slot: string): SlotState {
    SlotAt(claims, UpdatesIn(links), None, SlotKey(subject, slot, ""))
  }

  /** The readers give a slot the same status exactly when the resolver of all slots shows no conflict
      or the other reader does not take the marks as cleared. */
  lemma ReadersAgreeIff(claims: seq<Claim>, links: seq<Link>, subject: string, slot: string)
    requires OneSlot(claims, subject, slot)
    ensures ReadSlot(claims, links, subject, slot).status == Some(Listed(claims, links, subject, slot).status)
            <==> Listed(claims, links, subject, slot).conflicts == []
                 || !Cleared(Ordered(Filter(links, LinkOfSlot(subject, slot))))
  {
    hide OneSlot, SlotKey, BaseOf, Cleared, Ordered, ViewOf, SlotOf, Bucket, UpdateBucket, Filter, SameUpdates, BaseKey;
    SlotClaims(claims, subject, slot);
    BaseIsOwn(claims, subject, slot);
    SlotUpdates(links, subject, slot);
    StatusesAgreeIff(Filter(claims, OfSlot(subject, slot)), UpdateBucket(UpdatesIn(links), BaseOf(subject, slot)),
                     Ordered(Filter(links, LinkOfSlot(subject, slot))));
  }

  lemma BaseIsOwn(claims: seq<Claim>, subject: string, slot: string)
    requires OneSlot(claims, subject, slot)
    ensures subject != "" && slot != "" && ColonsOutside(subject, slot) && !HasSeparator(BaseOf(subject, slot))
    ensures BaseKey(SlotKey(subject, slot, "")) == BaseOf(subject, slot)
  {
    hide BaseKey, HasSeparator, ColonsOutside;
    OwnBase(subject, slot);
  }

  // ---------------------------------------------------------------- a resolution in the store

  /** The rows are written to a numbered slot and read back in whatever place. */
  ghost predicate Recorded(before: seq<Link>, rows: seq<Update>, after: seq<Link>, subject: string, slot: string) {
    && Numbered(Filter(before, LinkOfSlot(subject, slot)))
    && Written(Filter(before, LinkOfSlot(subject, slot)), rows, Filter(after, LinkOfSlot(subject, slot)))
  }

  lemma RecordedOrder(before: seq<Link>, rows: seq<Update>, after: seq<Link>, subject: string, slot: string)
    requires Recorded(before, rows, after, subject, slot)
    ensures Ordered(Filter(after, LinkOfSlot(subject, slot)))
            == Ordered(Filter(before, LinkOfSlot(subject, slot))) + rows
  {
    hide Numbered, Written, Ordered, Filter;
    WrittenComeLast(Filter(before, LinkOfSlot(subject, slot)), rows, Filter(after, LinkOfSlot(subject, slot)));
  }

  lemma ReadAfter(claims: seq<Claim>, before: seq<Link>, rows: seq<Update>, after: seq<Link>, subject: string,
                  slot: string)
    requires Recorded(before, rows, after, subject, slot)
    ensures ReadSlot(claims, after, subject, slot)
            == ViewOf(Filter(claims, OfSlot(subject, slot)), Ordered(Filter(before, LinkOfSlot(subject, slot))) + rows)
  {
    hide Recorded, ViewOf, Ordered, Filter;
    RecordedOrder(before, rows, after, subject, slot);
  }

  /** To the resolver of all slots the rows might as well be at the end of the log. */
  lemma ListedAfter(claims: seq<Claim>, before: seq<Link>, rows: seq<Update>, after: seq<Link>, subject: string,
                    slot: string)
    requires OneSlot(claims, subject, slot) && Recorded(before, rows, after, subject, slot)
    requires forall u <- rows :: u.subject == subject && u.slot == slot
    ensures var a, b := Listed(claims, after, subject, slot),
                        SlotAt(claims, UpdatesIn(before) + rows, None, SlotKey(subject, slot, ""));
      a.current == b.current && a.conflicts == b.conflicts && a.status == b.status
  {
    hide OneSlot, Recorded, SlotKey, BaseOf, BaseKey, Ordered, SlotOf, Bucket, ColonsOutside, HasSeparator, Filter;
    BaseIsOwn(claims, subject, slot);
    RecordedOrder(before, rows, after, subject, slot);
    SlotUpdates(before, subject, slot);
    SlotUpdates(after, subject, slot);
    var base := BaseOf(subject, slot);
    var logged := UpdateBucket(UpdatesIn(before) + rows, base);
    BucketOfBoth(UpdatesIn(before), rows, base);
    FilterAll(rows, InUpdateBucket(base));
    ClaimLaws.OrderFree(Bucket(claims, SlotKey(subject, slot, "")), UpdateBucket(UpdatesIn(after), base), logged, None);
  }

  lemma ConflictHasMark(claims: seq<Claim>, links: seq<Link>, subject: string, slot: string)
    requires OneSlot(claims, subject, slot) && Listed(claims, links, subject, slot).conflicts != []
    ensures exists u :: u in Ordered(Filter(links, LinkOfSlot(subject, slot))) && Marks(u)
  {
    hide OneSlot, SlotKey, BaseOf, BaseKey, Ordered, ColonsOutside, HasSeparator, Marked, Standing, History, Timeline;
    BaseIsOwn(claims, subject, slot);
    SlotClaims(claims, subject, slot);
    SlotUpdates(links, subject, slot);
    HistoryHas(Filter(claims, OfSlot(subject, slot)));
    var ordered := Ordered(Filter(links, LinkOfSlot(subject, slot)));
    var c := Listed(claims, links, subject, slot).conflicts[0];
    assert c in Listed(claims, links, subject, slot).conflicts;
    StandsAlike(c, UpdateBucket(UpdatesIn(links), BaseOf(subject, slot)), ordered);
    MarkedHasMark(c, ordered);
  }

  lemma MarkedHasMark(c: Claim, us: seq<Update>)
    requires Marked(us)(c)
    ensures exists u :: u in us && Marks(u)
  {
  }

  /** After a resolution that writes anything the reader of one slot shows no conflict; the resolver of
      all slots gives the same status exactly when it showed none before. */
  lemma ReadersAgreeAfterResolutionIff(claims: seq<Claim>, before: seq<Link>, after: seq<Link>, resolution: string,
                                       subject: string, slot: string, a: string, b: string)
    requires OneSlot(claims, subject, slot)
    requires var rows := ResolutionToClaimUpdates(resolution, subject, slot, a, b);
      rows != [] && Recorded(before, rows, after, subject, slot)
    ensures ReadSlot(claims, after, subject, slot).conflicts == []
    ensures ReadSlot(claims, after, subject, slot).status == Some(Listed(claims, after, subject, slot).status)
            <==> Listed(claims, before, subject, slot).conflicts == []
  {
    hide OneSlot, Recorded, ResolutionToClaimUpdates, SlotAt, ViewOf, Ordered, Cleared, Filter, Settles, Marks,
         ReadSlot,
         TakenOut, ChoiceOf, Strip, Listed, SlotKey, BaseKey, BaseOf;
    var rows := ResolutionToClaimUpdates(resolution, subject, slot, a, b);
    RowsSettle(resolution, subject, slot, a, b);
    ReadAfter(claims, before, rows, after, subject, slot);
    RecordedOrder(before, rows, after, subject, slot);
    ResolutionClears(Filter(claims, OfSlot(subject, slot)), Ordered(Filter(before, LinkOfSlot(subject, slot))),
                     resolution, subject, slot, a, b);
    ReadersAgreeIff(claims, after, subject, slot);
    ListedConflicts(claims, before, after, resolution, subject, slot, a, b);
    if Listed(claims, before, subject, slot).conflicts != [] {
      ConflictHasMark(claims, before, subject, slot);
    }
  }

  lemma ListedConflicts(claims: seq<Claim>, before: seq<Link>, after: seq<Link>, resolution: string, subject: string,
                        slot: string, a: string, b: string)
    requires OneSlot(claims, subject, slot)
    requires Recorded(before, ResolutionToClaimUpdates(resolution, subject, slot, a, b), after, subject, slot)
    ensures Listed(claims, after, subject, slot).conflicts == Listed(claims, before, subject, slot).conflicts
  {
    hide OneSlot, Recorded, ResolutionToClaimUpdates, SlotAt, TakenOut, ChoiceOf, Strip, SlotKey, BaseKey, BaseOf,
         Settles,
         Marks, Latest, Status, Stays, CurrentClaims;
    var rows := ResolutionToClaimUpdates(resolution, subject, slot, a, b);
    RowsSettle(resolution, subject, slot, a, b);
    BaseIsOwn(claims, subject, slot);
    ListedAfter(claims, before, rows, after, subject, slot);
    ResolvedSlot(claims, UpdatesIn(before), None, resolution, subject, slot, "", a, b);
  }

  /** In the reader of one slot preferring A makes A current exactly when A had not been ended. */
  lemma PreferAInReaderIff(claims: seq<Claim>, before: seq<Link>, after: seq<Link>, resolution: string,
                           subject: string, slot: string, a: Claim, b: Claim)
    requires ChoiceOf(resolution).PreferA? && Named(a) && Named(b) && a.id != b.id
    requires Recorded(before, ResolutionToClaimUpdates(resolution, subject, slot, a.id.value, b.id.value), after,
                      subject, slot)
    ensures var view := ReadSlot(claims, after, subject, slot);
      view.status == Some(Active) && view.current.Some? && view.current.value.id == a.id
      <==> exists c :: c in Filter(claims, OfSlot(subject, slot)) && c.id == a.id
                       && Standing(Ordered(Filter(before, LinkOfSlot(subject, slot))))(c)
  {
    hide Recorded, ResolutionToClaimUpdates, Ordered, Cleared, Settles, Marks, TakenOut, ChoiceOf, Strip, Standing,
         Marked;
    var rows := ResolutionToClaimUpdates(resolution, subject, slot, a.id.value, b.id.value);
    var us := Ordered(Filter(before, LinkOfSlot(subject, slot)));
    var own := Filter(claims, OfSlot(subject, slot));
    ReadAfter(claims, before, rows, after, subject, slot);
    PreferARow(us, resolution, subject, slot, a, b);
    ResolutionClears(own, us, resolution, subject, slot, a.id.value, b.id.value);
    ByIdFinds(Filter(own, Standing(us + rows)), a.id);
  }

  lemma PreferARow(us: seq<Update>, resolution: string, subject: string, slot: string, a: Claim, b: Claim)
    requires ChoiceOf(resolution).PreferA? && Named(a) && Named(b) && a.id != b.id
    ensures var rows := ResolutionToClaimUpdates(resolution, subject, slot, a.id.value, b.id.value);
      && rows != [] && LatestReplacement(us + rows) == a.id.value
      && TakenOut(ChoiceOf(resolution), Strip(a.id.value), Strip(b.id.value)) == {b.id.value}
  {
    hide Norm, Strip, LatestReplacement;
    ReplacementSnoc(us, Supersede(subject, slot, b.id.value, a.id.value));
  }

  lemma {:induction false} ByIdFinds(claims: seq<Claim>, id: Option<string>)
    ensures ById(claims, id).Some? <==> exists c :: c in claims && c.id == id
    ensures ById(claims, id).Some? ==> ById(claims, id).value in claims && ById(claims, id).value.id == id
  {
    if claims != [] {
      ByIdFinds(claims[..|claims| - 1], id);
      assert claims[|claims| - 1] in claims;
      assert forall c <- claims :: c in claims[..|claims| - 1] || c == claims[|claims| - 1];
    }
  }

  /** After preferring an unended A, the only claim of its id, the readers agree on claim and status
      exactly when the resolver of all slots showed no conflict and A is the temporally last of the
      current claims other than B. */
  lemma PreferAReadersAgreeIff(claims: seq<Claim>, before: seq<Link>, after: seq<Link>, resolution: string,
                               subject: string, slot: string, a: Claim, b: Claim)
    requires OneSlot(claims, subject, slot)
    requires ChoiceOf(resolution).PreferA? && Named(a) && Named(b) && a.id != b.id
    requires a in Filter(claims, OfSlot(subject, slot))
    requires forall c <- Filter(claims, OfSlot(subject, slot)) :: c.id == a.id ==> c == a
    requires Standing(Ordered(Filter(before, LinkOfSlot(subject, slot))))(a)
    requires Recorded(before, ResolutionToClaimUpdates(resolution, subject, slot, a.id.value, b.id.value), after,
                      subject, slot)
    ensures var view, listed := ReadSlot(claims, after, subject, slot), Listed(claims, after, subject, slot);
      var current := CurrentClaims(Filter(claims, OfSlot(subject, slot)),
                                   UpdateBucket(UpdatesIn(before), BaseOf(subject, slot)), None);
      && view.current == Some(a) && view.status == Some(Active)
      && (view.current == listed.current && view.status == Some(listed.status)
          <==> Listed(claims, before, subject, slot).conflicts == []
               && Latest(Filter(current, Stays({b.id.value}))) == Some(a))
  {
    hide OneSlot, Recorded, ResolutionToClaimUpdates, Ordered, Cleared, Settles, Marks, TakenOut, ChoiceOf, Strip,
         Standing,
         ReadSlot, SlotKey, BaseKey, BaseOf, Stays, Latest, CurrentClaims, SlotAt, UpdateBucket, Bucket;
    var rows := ResolutionToClaimUpdates(resolution, subject, slot, a.id.value, b.id.value);
    BaseIsOwn(claims, subject, slot);
    SlotClaims(claims, subject, slot);
    PreferAInReaderIff(claims, before, after, resolution, subject, slot, a, b);
    CurrentIsOfSlot(claims, after, subject, slot);
    RowsSettle(resolution, subject, slot, a.id.value, b.id.value);
    ListedAfter(claims, before, rows, after, subject, slot);
    PreferAEndsWithAIff(claims, UpdatesIn(before), None, resolution, subject, slot, "", a, b);
  }

  lemma CurrentIsOfSlot(claims: seq<Claim>, links: seq<Link>, subject: string, slot: string)
    ensures var view := ReadSlot(claims, links, subject, slot);
      view.current.Some? ==> view.current.value in Filter(claims, OfSlot(subject, slot))
  {
    hide Ordered, Standing;
    var us := Ordered(Filter(links, LinkOfSlot(subject, slot)));
    ByIdFinds(Filter(Filter(claims, OfSlot(subject, slot)), Standing(us)), Some(LatestReplacement(us)));
  }
}
