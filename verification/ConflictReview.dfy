/** What a user's choice in a conflict review writes, and what the resolver then shows. */
module ConflictReview {
  import opened Options
  import opened Text
  import opened Sequences
  import opened Claims

  function Supersede(subject: string, slot: string, target: string, replacement: string): Update {
    Update(Some(target), Some(replacement), subject, slot, "supersede", None)
  }

  function Retract(subject: string, slot: string, target: string): Update {
    Update(Some(target), None, subject, slot, "retract", None)
  }

  /** `resolution_to_claim_updates`; the rows carry no timestamp. */
  function ResolutionToClaimUpdates(resolution: string, subject: string, slot: string, a: string,
      b: string): seq<Update> {
    var r, a, b := Norm(resolution), Strip(a), Strip(b);
    if r == "prefer_a" then
      if a == "" || b == "" then [] else [Supersede(subject, slot, b, a)]
    else if r == "prefer_b" then
      if a == "" || b == "" then [] else [Supersede(subject, slot, a, b)]
    else if r == "retract_both" then
      (if a != "" then [Retract(subject, slot, a)] else []) + (if b != "" then [Retract(subject, slot, b)] else [])
    else []
  }

  datatype Choice = PreferA | PreferB | RetractBoth | NoWrite

  /** The documented choices; `defer`, `both_valid` and anything unknown write nothing. */
  function ChoiceOf(resolution: string): Choice {
    if Norm(resolution) == "prefer_a" then PreferA
    else if Norm(resolution) == "prefer_b" then PreferB
    else if Norm(resolution) == "retract_both" then RetractBoth
    else NoWrite
  }

  /** The ids the choice takes out of the slot. */
  function TakenOut(choice: Choice, a: string, b: string): set<string> {
    match choice
    case PreferA => if a != "" && b != "" then {b} else {}
    case PreferB => if a != "" && b != "" then {a} else {}
    case RetractBoth => {a, b} - {""}
    case NoWrite => {}
  }

  function Stays(out: set<string>): Claim -> bool {
    (c: Claim) => c.id.None? || c.id.value !in out
  }

  /** The rows are visible at every as_of and end exactly the claims the choice names. */
  lemma RowsEnd(resolution: string, subject: string, slot: string, a: string, b: string, c: Claim, asOf: Option<nat>)
    ensures var rows := ResolutionToClaimUpdates(resolution, subject, slot, a, b);
      && (Ended(c, rows, asOf) <==> !Stays(TakenOut(ChoiceOf(resolution), Strip(a), Strip(b)))(c))
      && !Contested(c, rows, asOf)
  {
    hide Norm, Strip;
    var rows := ResolutionToClaimUpdates(resolution, subject, slot, a, b);
    assert forall u <- rows :: UpdateVisible(u, asOf) && (u.decision == "supersede" || u.decision == "retract");
    assert "conflict"[0] != "supersede"[0] && "conflict"[0] != "retract"[0];
    assert Ended(c, rows, asOf) <==> exists u <- rows :: u.target == c.id;
    assert ChoiceOf(resolution).PreferA? && Strip(a) != "" && Strip(b) != "" ==> rows[0].target == Some(Strip(b));
    assert ChoiceOf(resolution).PreferB? && Strip(a) != "" && Strip(b) != "" ==> rows[0].target == Some(Strip(a));
    if ChoiceOf(resolution).RetractBoth? {
      var ra := if Strip(a) != "" then [Retract(subject, slot, Strip(a))] else [];
      var rb := if Strip(b) != "" then [Retract(subject, slot, Strip(b))] else [];
      assert rows == ra + rb;
      assert forall u :: u in rows <==> u in ra || u in rb;
      assert Strip(a) != "" ==> ra[0] in ra;
      assert Strip(b) != "" ==> rb[0] in rb;
    }
  }

  lemma EndedByEither(c: Claim, us: seq<Update>, vs: seq<Update>, asOf: Option<nat>)
    ensures Ended(c, us + vs, asOf) <==> Ended(c, us, asOf) || Ended(c, vs, asOf)
    ensures Contested(c, us + vs, asOf) <==> Contested(c, us, asOf) || Contested(c, vs, asOf)
  {
    hide Ends, UpdateVisible;
    var ws := us + vs;
    assert forall i :: 0 <= i < |us| ==> ws[i] == us[i];
    assert forall i :: 0 <= i < |vs| ==> ws[|us| + i] == vs[i];
    assert forall i :: |us| <= i < |ws| ==> ws[i] == vs[i - |us|];
  }

  lemma RowsInBucket(resolution: string, subject: string, slot: string, a: string, b: string)
    requires subject != "" && slot != ""
    ensures var rows := ResolutionToClaimUpdates(resolution, subject, slot, a, b);
      UpdateBucket(rows, BaseOf(subject, slot)) == rows
  {
    hide Norm, Strip;
    FilterAll(ResolutionToClaimUpdates(resolution, subject, slot, a, b), InUpdateBucket(BaseOf(subject, slot)));
  }

  /** A resolution takes exactly the claims it names out of every bucket of its subject and slot,
      and touches neither the history nor the conflicts. */
  lemma ResolutionDoesWhatItSays(claims: seq<Claim>, updates: seq<Update>, asOf: Option<nat>, resolution: string,
                                 subject: string, slot: string, scope: string, a: string, b: string)
    requires subject != "" && slot != "" && BaseKey(SlotKey(subject, slot, scope)) == BaseOf(subject, slot)
    ensures var rows := ResolutionToClaimUpdates(resolution, subject, slot, a, b);
      var base, bucket := BaseOf(subject, slot), Bucket(claims, SlotKey(subject, slot, scope));
      var before, after := UpdateBucket(updates, base), UpdateBucket(updates + rows, base);
      && CurrentClaims(bucket, after, asOf)
         == Filter(CurrentClaims(bucket, before, asOf), Stays(TakenOut(ChoiceOf(resolution), Strip(a), Strip(b))))
      && FindConflicts(History(bucket, asOf), after, asOf) == FindConflicts(History(bucket, asOf), before, asOf)
  {
    hide BaseKey, SlotKey, BaseOf, Bucket, History, Strip, Norm, ResolutionToClaimUpdates, ChoiceOf, TakenOut,
         Ended, Contested, UpdateBucket, Stays;
    var rows := ResolutionToClaimUpdates(resolution, subject, slot, a, b);
    var base, bucket := BaseOf(subject, slot), Bucket(claims, SlotKey(subject, slot, scope));
    var out := TakenOut(ChoiceOf(resolution), Strip(a), Strip(b));
    var before, after := UpdateBucket(updates, base), UpdateBucket(updates + rows, base);
    BucketOfBoth(updates, rows, base);
    RowsInBucket(resolution, subject, slot, a, b);
    var history := History(bucket, asOf);
    forall c | c in history
      ensures Current(after, asOf)(c) == Both(Current(before, asOf), Stays(out))(c)
      ensures Conflicting(after, asOf)(c) == Conflicting(before, asOf)(c)
    {
      RowsEnd(resolution, subject, slot, a, b, c, asOf);
      EndedByEither(c, before, rows, asOf);
    }
    FilterTwice(history, Current(before, asOf), Stays(out));
    FilterSame(history, Current(after, asOf), Both(Current(before, asOf), Stays(out)));
    FilterSame(history, Conflicting(after, asOf), Conflicting(before, asOf));
  }

  lemma BucketOfBoth(us: seq<Update>, vs: seq<Update>, base: string)
    ensures UpdateBucket(us + vs, base) == UpdateBucket(us, base) + UpdateBucket(vs, base)
  {
    hide BaseOf;
    FilterConcat(us, vs, InUpdateBucket(base));
  }

  /** Where the slot key does not give its base back, a resolution is never seen at all. */
  lemma ResolutionLostOtherwise(claims: seq<Claim>, updates: seq<Update>, asOf: Option<nat>, resolution: string,
                                subject: string, slot: string, scope: string, a: string, b: string)
    requires subject != "" && slot != "" && BaseKey(SlotKey(subject, slot, scope)) != BaseOf(subject, slot)
    ensures var rows := ResolutionToClaimUpdates(resolution, subject, slot, a, b);
      var key := SlotKey(subject, slot, scope);
      SlotAt(claims, updates + rows, asOf, key) == SlotAt(claims, updates, asOf, key)
  {
    hide BaseOf, SlotKey, Norm, Strip, Bucket, SlotOf, BaseKey;
    var rows := ResolutionToClaimUpdates(resolution, subject, slot, a, b);
    var base := BaseKey(SlotKey(subject, slot, scope));
    FilterNone(rows, InUpdateBucket(base));
    BucketOfBoth(updates, rows, base);
    assert UpdateBucket(updates, base) + [] == UpdateBucket(updates, base);
  }

  /** What a resolution makes of a slot, in terms of what the slot was before. */
  lemma ResolvedSlot(claims: seq<Claim>, updates: seq<Update>, asOf: Option<nat>, resolution: string,
                     subject: string, slot: string, scope: string, a: string, b: string)
    requires subject != "" && slot != "" && BaseKey(SlotKey(subject, slot, scope)) == BaseOf(subject, slot)
    ensures var rows, key := ResolutionToClaimUpdates(resolution, subject, slot, a, b), SlotKey(subject, slot, scope);
      var before, after := SlotAt(claims, updates, asOf, key), SlotAt(claims, updates + rows, asOf, key);
      var stay := Filter(CurrentClaims(Bucket(claims, key), UpdateBucket(updates, BaseKey(key)), asOf),
                         Stays(TakenOut(ChoiceOf(resolution), Strip(a), Strip(b))));
      && after.current == Latest(stay) && after.conflicts == before.conflicts
      && after.status == Status(stay, before.conflicts)
  {
    hide BaseKey, SlotKey, BaseOf, Bucket, History, Strip, Norm, ResolutionToClaimUpdates, ChoiceOf, UpdateBucket,
         CurrentClaims, FindConflicts, Timeline, TakenOut, Stays, Status, Latest;
    ResolutionDoesWhatItSays(claims, updates, asOf, resolution, subject, slot, scope, a, b);
  }

  /** No resolution settles a conflict mark: a slot is in conflict after one exactly when it was before. */
  lemma ConflictOutlivesResolution(claims: seq<Claim>, updates: seq<Update>, asOf: Option<nat>, resolution: string,
                                   subject: string, slot: string, scope: string, a: string, b: string)
    requires subject != "" && slot != ""
    ensures var rows, key := ResolutionToClaimUpdates(resolution, subject, slot, a, b), SlotKey(subject, slot, scope);
      var before, after := SlotAt(claims, updates, asOf, key), SlotAt(claims, updates + rows, asOf, key);
      after.status.Conflict? <==> before.status.Conflict?
  {
    hide BaseKey, SlotKey, BaseOf, Bucket, Strip, Norm, ResolutionToClaimUpdates, ChoiceOf, UpdateBucket,
         CurrentClaims, FindConflicts, Timeline, TakenOut, Stays, Latest, History;
    if BaseKey(SlotKey(subject, slot, scope)) == BaseOf(subject, slot) {
      ResolvedSlot(claims, updates, asOf, resolution, subject, slot, scope, a, b);
    } else {
      ResolutionLostOtherwise(claims, updates, asOf, resolution, subject, slot, scope, a, b);
    }
  }

  /** The claim has an id a resolution can name. */
  predicate Named(c: Claim) {
    c.id.Some? && c.id.value != "" && Strip(c.id.value) == c.id.value
  }

  /** Preferring A leaves the slot active with A exactly when nothing contests the slot and A is the
      temporally last of its current claims other than B. */
  lemma PreferAEndsWithAIff(claims: seq<Claim>, updates: seq<Update>, asOf: Option<nat>, resolution: string,
                            subject: string, slot: string, scope: string, a: Claim, b: Claim)
    requires subject != "" && slot != "" && BaseKey(SlotKey(subject, slot, scope)) == BaseOf(subject, slot)
    requires ChoiceOf(resolution).PreferA? && Named(a) && Named(b)
    ensures var rows := ResolutionToClaimUpdates(resolution, subject, slot, a.id.value, b.id.value);
      var key := SlotKey(subject, slot, scope);
      var before, after := SlotAt(claims, updates, asOf, key), SlotAt(claims, updates + rows, asOf, key);
      var current := CurrentClaims(Bucket(claims, key), UpdateBucket(updates, BaseKey(key)), asOf);
      after.current == Some(a) && after.status.Active?
      <==> before.conflicts == [] && Latest(Filter(current, Stays({b.id.value}))) == Some(a)
  {
    hide BaseKey, SlotKey, BaseOf, Bucket, Strip, Norm, ResolutionToClaimUpdates, ChoiceOf, UpdateBucket,
         CurrentClaims, FindConflicts, Timeline, Stays, History;
    ResolvedSlot(claims, updates, asOf, resolution, subject, slot, scope, a.id.value, b.id.value);
  }

  /** With only A and B current and nothing contested, preferring A leaves the slot active with A. */
  lemma PreferAEndsWithA(claims: seq<Claim>, updates: seq<Update>, asOf: Option<nat>, resolution: string,
                         subject: string, slot: string, scope: string, a: Claim, b: Claim)
    requires subject != "" && slot != "" && BaseKey(SlotKey(subject, slot, scope)) == BaseOf(subject, slot)
    requires ChoiceOf(resolution).PreferA? && Named(a) && Named(b) && a.id != b.id
    requires var key := SlotKey(subject, slot, scope);
      && CurrentClaims(Bucket(claims, key), UpdateBucket(updates, BaseKey(key)), asOf) in {[a, b], [b, a]}
      && SlotAt(claims, updates, asOf, key).conflicts == []
    ensures var rows := ResolutionToClaimUpdates(resolution, subject, slot, a.id.value, b.id.value);
      var after := SlotAt(claims, updates + rows, asOf, SlotKey(subject, slot, scope));
      after.current == Some(a) && after.status.Active?
  {
    hide BaseKey, SlotKey, BaseOf, Bucket, History, Strip, Norm, ResolutionToClaimUpdates, ChoiceOf, UpdateBucket,
         CurrentClaims, FindConflicts, Timeline;
    ResolutionDoesWhatItSays(claims, updates, asOf, resolution, subject, slot, scope, a.id.value, b.id.value);
    KeepsOne(a, b, Stays({b.id.value}));
  }

  /** And preferring B afterwards leaves nothing current: supersession is never taken back. */
  lemma PreferBothLeavesNothing(claims: seq<Claim>, updates: seq<Update>, asOf: Option<nat>, first: string,
      second: string,
                                subject: string, slot: string, scope: string, a: Claim, b: Claim)
    requires subject != "" && slot != "" && BaseKey(SlotKey(subject, slot, scope)) == BaseOf(subject, slot)
    requires ChoiceOf(first).PreferA? && ChoiceOf(second).PreferB? && Named(a) && Named(b) && a.id != b.id
    requires var key := SlotKey(subject, slot, scope);
      && CurrentClaims(Bucket(claims, key), UpdateBucket(updates, BaseKey(key)), asOf) in {[a, b], [b, a]}
      && SlotAt(claims, updates, asOf, key).conflicts == []
    ensures var once := updates + ResolutionToClaimUpdates(first, subject, slot, a.id.value, b.id.value);
      var twice := once + ResolutionToClaimUpdates(second, subject, slot, a.id.value, b.id.value);
      var after := SlotAt(claims, twice, asOf, SlotKey(subject, slot, scope));
      after.current == None && after.status.Retracted?
  {
    hide BaseKey, SlotKey, BaseOf, Bucket, History, Strip, Norm, ResolutionToClaimUpdates, ChoiceOf, UpdateBucket,
         CurrentClaims, FindConflicts, Timeline;
    var once := updates + ResolutionToClaimUpdates(first, subject, slot, a.id.value, b.id.value);
    ResolutionDoesWhatItSays(claims, updates, asOf, first, subject, slot, scope, a.id.value, b.id.value);
    ResolutionDoesWhatItSays(claims, once, asOf, second, subject, slot, scope, a.id.value, b.id.value);
    KeepsOne(a, b, Stays({b.id.value}));
    KeepsNone(a, Stays({a.id.value}));
  }

  lemma KeepsOne(a: Claim, b: Claim, keep: Claim -> bool)
    requires keep(a) && !keep(b)
    ensures Filter([a, b], keep) == [a] && Filter([b, a], keep) == [a]
  {
  }

  lemma KeepsNone(a: Claim, keep: Claim -> bool)
    requires !keep(a)
    ensures Filter([a], keep) == []
  {
  }
}
