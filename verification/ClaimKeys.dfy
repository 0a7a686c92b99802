/** The string key claims are bucketed by, and when it can be taken apart again. */
module ClaimKeys {
  import opened Options
  import opened Text
  import opened Sequences
  import opened Sorting
  import opened Claims

  ghost predicate HasSeparator(s: string) {
    exists i :: 0 <= i < |s| - 1 && s[i] == ':' && s[i + 1] == ':'
  }

  lemma {:induction false} FirstSeparatorIsFirst(s: string)
    ensures var n := FirstSeparator(s);
      && (n < |s| ==> n + 1 < |s| && s[n] == ':' && s[n + 1] == ':')
      && (forall i :: 0 <= i < n && i + 1 < |s| ==> !(s[i] == ':' && s[i + 1] == ':'))
  {
    if s != "" && !(|s| >= 2 && s[0] == ':' && s[1] == ':') {
      FirstSeparatorIsFirst(s[1..]);
      var n := FirstSeparator(s);
      forall i | 0 <= i < n && i + 1 < |s|
        ensures !(s[i] == ':' && s[i + 1] == ':')
      {
        if i > 0 { assert s[1..][i - 1] == s[i] && s[1..][i] == s[i + 1]; }
      }
    }
  }

  /** The base key gives back subject and slot exactly when neither runs into a "::". */
  lemma BaseKeyRecoversIff(subject: string, slot: string, scope: string)
    requires slot != ""
    ensures BaseKey(SlotKey(subject, slot, scope)) == BaseOf(subject, slot)
            <==> !HasSeparator(BaseOf(subject, slot)) && (scope != "" ==> slot[|slot| - 1] != ':')
  {
    var x := BaseOf(subject, slot);
    var key := SlotKey(subject, slot, scope);
    var n := FirstSeparator(key);
    FirstSeparatorIsFirst(key);
    assert x == key[..|x|];
    assert x[|x| - 1] == slot[|slot| - 1];
    if scope != "" {
      assert key[|x|] == ':' && key[|x| + 1] == ':';
    }
    if n < |x| {
      assert |BaseKey(key)| < |x|;
    } else {
      assert n == |x|;
      assert !HasSeparator(x);
    }
  }

  predicate ColonFree(s: string) { ':' !in s }

  lemma ColonFreeHasNoSeparator(subject: string, slot: string)
    requires ColonFree(subject) && ColonFree(slot)
    ensures !HasSeparator(BaseOf(subject, slot))
  {
  }

  /** Colon-free text in front of a colon, or of nothing, is determined by the whole. */
  lemma PrefixIsDetermined(a: string, r: string, b: string, t: string)
    requires ColonFree(a) && ColonFree(b) && a + r == b + t
    requires (r == "" || r[0] == ':') && (t == "" || t[0] == ':')
    ensures a == b && r == t
  {
    var s := a + r;
    assert forall i :: 0 <= i < |a| ==> s[i] == a[i] && a[i] in a;
    assert forall i :: 0 <= i < |b| ==> s[i] == b[i] && b[i] in b;
    assert |a| < |s| ==> s[|a|] == r[0];
    assert |b| < |s| ==> s[|b|] == t[0];
    assert |a| == |b|;
    assert a == s[..|a|] && b == s[..|b|] && r == s[|a|..] && t == s[|b|..];
  }

  /** On colon-free subjects and slots the key is injective, whatever the scopes. */
  lemma SlotKeyInjective(subject: string, slot: string, scope: string, subject': string, slot': string, scope': string)
    requires ColonFree(subject) && ColonFree(slot) && ColonFree(subject') && ColonFree(slot')
    requires SlotKey(subject, slot, scope) == SlotKey(subject', slot', scope')
    ensures subject == subject' && slot == slot' && scope == scope'
  {
    var tail := if scope == "" then "" else "::" + scope;
    var tail' := if scope' == "" then "" else "::" + scope';
    assert SlotKey(subject, slot, scope) == subject + (":" + (slot + tail));
    assert SlotKey(subject', slot', scope') == subject' + (":" + (slot' + tail'));
    PrefixIsDetermined(subject, ":" + (slot + tail), subject', ":" + (slot' + tail'));
    assert (":" + (slot + tail))[1..] == slot + tail && (":" + (slot' + tail'))[1..] == slot' + tail';
    PrefixIsDetermined(slot, tail, slot', tail');
    if scope != "" { assert tail[2..] == scope; }
    if scope' != "" { assert tail'[2..] == scope'; }
  }

  /** With colons, distinct slots share a key, and a slot can lose its own updates. */
  lemma ColonsCollide()
    ensures SlotKey("a", "b", "c") == SlotKey("a", "b::c", "")
    ensures SlotKey("a:b", "c", "") == SlotKey("a", "b:c", "")
    ensures BaseKey(SlotKey("a", "b::c", "")) != BaseOf("a", "b::c")
  {
    assert "a:b" + "::" + "c" == "a:b::c";
    assert "a" + ":" + "b" == "a:b" && "a" + ":" + "b::c" == "a:b::c";
    assert "a:b" + ":" + "c" == "a:b:c" && "a" + ":" + "b:c" == "a:b:c";
    BaseKeyRecoversIff("a", "b::c", "");
    var x := BaseOf("a", "b::c");
    assert x[3] == ':' && x[4] == ':';
  }

  // ---------------------------------------------------------------- shared keys

  /** No colon of `s` has text on both sides but the one at n. */
  ghost predicate SplitsOnlyAt(s: string, n: int) {
    forall i :: 1 <= i < |s| - 1 && s[i] == ':' ==> i == n
  }

  /** Can `s` be read as one subject and slot only, that of the colon at n? */
  ghost predicate ReadOnlyAt(s: string, n: int) {
    forall u: string, v: string :: u != "" && v != "" && BaseOf(u, v) == s ==> |u| == n
  }

  lemma ReadOnlyAtIff(s: string, n: int)
    ensures ReadOnlyAt(s, n) <==> SplitsOnlyAt(s, n)
  {
    if SplitsOnlyAt(s, n) {
      forall u: string, v: string | u != "" && v != "" && BaseOf(u, v) == s
        ensures |u| == n
      {
        assert s[|u|] == ':';
      }
    } else {
      var i :| 1 <= i < |s| - 1 && s[i] == ':' && i != n;
      assert BaseOf(s[..i], s[i + 1..]) == s;
    }
  }

  /** No colon in the subject but in front, and none in the slot but at its end. */
  predicate ColonsOutside(subject: string, slot: string)
    requires subject != "" && slot != ""
  {
    ':' !in subject[1..] && ':' !in slot[..|slot| - 1]
  }

  lemma ColonsOutsideIff(subject: string, slot: string)
    requires subject != "" && slot != ""
    ensures ColonsOutside(subject, slot) <==> SplitsOnlyAt(BaseOf(subject, slot), |subject|)
  {
    var s := BaseOf(subject, slot);
    assert forall i :: 1 <= i < |subject| ==> s[i] == subject[1..][i - 1];
    assert forall i :: |subject| < i < |s| - 1 ==> s[i] == slot[..|slot| - 1][i - |subject| - 1];
    if !ColonsOutside(subject, slot) {
      if ':' in subject[1..] {
        var k :| 0 <= k < |subject[1..]| && subject[1..][k] == ':';
        assert s[k + 1] == ':';
      } else {
        var k :| 0 <= k < |slot[..|slot| - 1]| && slot[..|slot| - 1][k] == ':';
        assert s[|subject| + 1 + k] == ':';
      }
    }
  }

  /** Every scoped slot shares its bucket with an unscoped one. */
  lemma ScopedKeyIsShared(subject: string, slot: string, scope: string)
    requires scope != ""
    ensures SlotKey(subject, slot, scope) == SlotKey(BaseOf(subject, slot) + ":", scope, "")
  {
    assert BaseOf(subject, slot) + "::" + scope == (BaseOf(subject, slot) + ":") + ":" + scope;
  }

  /** No other subject, slot and scope has the key. */
  ghost predicate KeyIsOwn(subject: string, slot: string, scope: string) {
    forall u: string, v: string, w: string :: u != "" && v != "" && SlotKey(u, v, w) == SlotKey(subject, slot, scope)
      ==> u == subject && v == slot && w == scope
  }

  lemma ScopedReadingSplits(u: string, v: string, w: string)
    requires v != "" && w != ""
    ensures !SplitsOnlyAt(SlotKey(u, v, w), |u|)
  {
    var s, i := SlotKey(u, v, w), |u| + 1 + |v|;
    assert s[i] == ':' && 1 <= i < |s| - 1;
  }

  lemma OnlyReading(subject: string, slot: string, u: string, v: string, w: string)
    requires v != "" && SlotKey(u, v, w) == BaseOf(subject, slot) && SplitsOnlyAt(BaseOf(subject, slot), |subject|)
    requires u != "" && slot != ""
    ensures u == subject && v == slot && w == ""
  {
    var s := BaseOf(subject, slot);
    assert s[|u|] == ':' && |u| == |subject|;
    assert u == s[..|u|] == subject;
    if w != "" { ScopedReadingSplits(u, v, w); }
    assert v == s[|u| + 1..] == slot;
  }

  /** A slot has its key to itself exactly when it has no scope, its subject no colon but in front and
      its slot none but at the end. */
  lemma KeyIsOwnIff(subject: string, slot: string, scope: string)
    requires subject != "" && slot != ""
    ensures KeyIsOwn(subject, slot, scope) <==> scope == "" && ColonsOutside(subject, slot)
  {
    ColonsOutsideIff(subject, slot);
    if scope != "" {
      ScopedKeyIsShared(subject, slot, scope);
      assert |BaseOf(subject, slot) + ":"| > |subject|;
    } else if ColonsOutside(subject, slot) {
      forall u: string, v: string, w: string | u != "" && v != "" && SlotKey(u, v, w) == SlotKey(subject, slot, scope)
        ensures u == subject && v == slot && w == scope
      {
        OnlyReading(subject, slot, u, v, w);
      }
    } else {
      SharedReading(subject, slot);
    }
  }

  lemma SharedReading(subject: string, slot: string)
    requires subject != "" && slot != "" && !ColonsOutside(subject, slot)
    ensures exists u: string, v: string ::
              u != "" && v != "" && |u| != |subject| && SlotKey(u, v, "") == SlotKey(subject, slot, "")
  {
    ColonsOutsideIff(subject, slot);
    ReadOnlyAtIff(BaseOf(subject, slot), |subject|);
    var u: string, v: string :| u != "" && v != "" && BaseOf(u, v) == BaseOf(subject, slot) && |u| != |subject|;
    assert SlotKey(u, v, "") == SlotKey(subject, slot, "");
  }

  // ---------------------------------------------------------------- isolation

  lemma BucketWithout(xs: seq<Claim>, c: Claim, ys: seq<Claim>, key: string)
    requires !InBucket(key)(c)
    ensures Bucket(xs + [c] + ys, key) == Bucket(xs + ys, key)
  {
    hide KeyOf;
    FilterConcat(xs + [c], ys, InBucket(key));
    FilterSnoc(xs, c, InBucket(key));
    FilterConcat(xs, ys, InBucket(key));
  }

  lemma UpdateBucketWithout(xs: seq<Update>, u: Update, ys: seq<Update>, base: string)
    requires !InUpdateBucket(base)(u)
    ensures UpdateBucket(xs + [u] + ys, base) == UpdateBucket(xs + ys, base)
  {
    hide BaseOf;
    FilterConcat(xs + [u], ys, InUpdateBucket(base));
    FilterSnoc(xs, u, InUpdateBucket(base));
    FilterConcat(xs, ys, InUpdateBucket(base));
  }

  /** What the slot at `key` shows does not depend on claim c, wherever it is logged. */
  ghost predicate ClaimLeaves(c: Claim, key: string) {
    forall xs: seq<Claim>, ys: seq<Claim>, updates: seq<Update>, asOf: Option<nat> ::
      SameWithClaim(xs, c, ys, updates, asOf, key)
  }

  ghost predicate SameWithClaim(xs: seq<Claim>, c: Claim, ys: seq<Claim>, updates: seq<Update>, asOf: Option<nat>,
                                key: string) {
    SlotAt(xs + [c] + ys, updates, asOf, key) == SlotAt(xs + ys, updates, asOf, key)
  }

  lemma OnlyClaim(c: Claim, key: string)
    requires InBucket(key)(c)
    ensures !SameWithClaim([], c, [], [], None, key)
  {
    var with, without := Bucket([] + [c] + [], key), Bucket([] + [], key);
    assert [] + [c] + [] == [c] && [c][..0] == [];
    assert with == [c] && without == [];
    SortHas(Filter(with, Visible(None)), SortKey, c);
    assert c in SlotAt([] + [c] + [], [], None, key).history;
    assert SlotAt([] + [], [], None, key).history == [];
  }

  /** A claim is felt at exactly one key. */
  lemma ClaimLeavesIff(c: Claim, key: string)
    ensures ClaimLeaves(c, key) <==> !InBucket(key)(c)
  {
    if InBucket(key)(c) {
      OnlyClaim(c, key);
    } else {
      hide SlotOf, Bucket;
      forall xs: seq<Claim>, ys: seq<Claim>, updates: seq<Update>, asOf: Option<nat>
        ensures SameWithClaim(xs, c, ys, updates, asOf, key)
      {
        BucketWithout(xs, c, ys, key);
      }
    }
  }

  /** No claim of another subject, slot or scope is felt at the slot. */
  ghost predicate ClaimsApart(subject: string, slot: string, scope: string) {
    forall c: Claim :: c.subject != "" && c.slot != "" && (c.subject, c.slot, Strip(c.scope)) != (subject, slot, scope)
      ==> ClaimLeaves(c, SlotKey(subject, slot, scope))
  }

  /** A slot is safe from all other slots' claims exactly when its key is its own. */
  lemma ClaimsApartIff(subject: string, slot: string, scope: string)
    requires subject != "" && slot != ""
    ensures ClaimsApart(subject, slot, scope) <==> scope == "" && ColonsOutside(subject, slot)
  {
    hide ClaimLeaves, SlotKey, ColonsOutside, Strip;
    var key := SlotKey(subject, slot, scope);
    KeyIsOwnIff(subject, slot, scope);
    if scope == "" && ColonsOutside(subject, slot) {
      forall c: Claim | c.subject != "" && c.slot != ""
                        && (c.subject, c.slot, Strip(c.scope)) != (subject, slot, scope)
        ensures ClaimLeaves(c, key)
      {
        ClaimLeavesIff(c, key);
      }
    } else {
      var u, v := OtherReading(subject, slot, scope);
      var c := Claim(None, u, v, "", "", None, None);
      StripNothing();
      ClaimLeavesIff(c, key);
    }
  }

  lemma StripNothing()
    ensures Strip("") == ""
  {
  }

  lemma OtherReading(subject: string, slot: string, scope: string) returns (u: string, v: string)
    requires subject != "" && slot != "" && !(scope == "" && ColonsOutside(subject, slot))
    ensures u != "" && v != "" && u != subject && SlotKey(u, v, "") == SlotKey(subject, slot, scope)
  {
    if scope != "" {
      ScopedKeyIsShared(subject, slot, scope);
      u, v := BaseOf(subject, slot) + ":", scope;
      assert |u| > |subject|;
    } else {
      SharedReading(subject, slot);
      u, v :| u != "" && v != "" && |u| != |subject| && SlotKey(u, v, "") == SlotKey(subject, slot, "");
    }
  }

  ghost predicate UpdateLeaves(u: Update, key: string) {
    forall claims: seq<Claim>, xs: seq<Update>, ys: seq<Update>, asOf: Option<nat> ::
      SameWithUpdate(claims, xs, u, ys, asOf, key)
  }

  ghost predicate SameWithUpdate(claims: seq<Claim>, xs: seq<Update>, u: Update, ys: seq<Update>, asOf: Option<nat>,
                                 key: string) {
    SlotAt(claims, xs + [u] + ys, asOf, key) == SlotAt(claims, xs + ys, asOf, key)
  }

  lemma OnlyUpdate(u: Update, key: string)
    requires InUpdateBucket(BaseKey(key))(u)
    ensures !SameWithUpdate([], [], u, [], None, key)
  {
    hide BaseKey, BaseOf;
    var base := BaseKey(key);
    assert [] + [u] + [] == [u] && [u][..0] == [];
    assert UpdateBucket([u], base) == [u] && UpdateBucket([] + [], base) == [];
    assert Filter([u], UpdateShown(None)) == [u] && Filter([], UpdateShown(None)) == [];
    var empty := History(Bucket([], key), None);
    assert |Timeline(empty, [u], None)| == |Timeline(empty, [], None)| + 1;
  }

  /** An update is felt at exactly the keys with its base. */
  lemma UpdateLeavesIff(u: Update, key: string)
    ensures UpdateLeaves(u, key) <==> !InUpdateBucket(BaseKey(key))(u)
  {
    if InUpdateBucket(BaseKey(key))(u) {
      OnlyUpdate(u, key);
    } else {
      hide SlotOf, UpdateBucket, BaseKey;
      forall claims: seq<Claim>, xs: seq<Update>, ys: seq<Update>, asOf: Option<nat>
        ensures SameWithUpdate(claims, xs, u, ys, asOf, key)
      {
        UpdateBucketWithout(xs, u, ys, BaseKey(key));
      }
    }
  }

  /** No update of another subject and slot is felt at the slot, in whatever scope. */
  ghost predicate UpdatesApart(subject: string, slot: string, scope: string) {
    forall u: Update :: u.subject != "" && u.slot != "" && (u.subject, u.slot) != (subject, slot)
      ==> UpdateLeaves(u, SlotKey(subject, slot, scope))
  }

  /** A slot is safe from all other slots' updates exactly when what its base key was cut to can only
      be read as its own subject and slot, or not at all. */
  lemma UpdatesApartIff(subject: string, slot: string, scope: string)
    requires subject != "" && slot != ""
    ensures var base := BaseKey(SlotKey(subject, slot, scope));
      UpdatesApart(subject, slot, scope)
      <==> SplitsOnlyAt(base, if base == BaseOf(subject, slot) then |subject| else -1)
  {
    hide UpdateLeaves, SlotKey, BaseKey;
    var key := SlotKey(subject, slot, scope);
    var base := BaseKey(key);
    var n := if base == BaseOf(subject, slot) then |subject| else -1;
    ReadOnlyAtIff(base, n);
    if SplitsOnlyAt(base, n) {
      forall u: Update | u.subject != "" && u.slot != "" && (u.subject, u.slot) != (subject, slot)
        ensures UpdateLeaves(u, key)
      {
        UpdateLeavesIff(u, key);
        if BaseOf(u.subject, u.slot) == base {
          assert |u.subject| == n;
          SameReading(subject, slot, u.subject, u.slot);
        }
      }
    } else {
      var p, q :| p != "" && q != "" && BaseOf(p, q) == base && |p| != n;
      UpdateLeavesIff(Update(None, None, p, q, "", None), key);
    }
  }

  lemma SameReading(subject: string, slot: string, u: string, v: string)
    requires BaseOf(u, v) == BaseOf(subject, slot) && |u| == |subject|
    ensures u == subject && v == slot
  {
    var s := BaseOf(subject, slot);
    assert u == s[..|u|] == subject && v == s[|u| + 1..] == slot;
  }

  /** Updates reach a slot, and only its own do, exactly when its colons are outside and, in a scope,
      the slot ends in none. */
  lemma OwnUpdatesOnlyIff(subject: string, slot: string, scope: string)
    requires subject != "" && slot != ""
    ensures BaseKey(SlotKey(subject, slot, scope)) == BaseOf(subject, slot) && UpdatesApart(subject, slot, scope)
            <==> ColonsOutside(subject, slot) && (scope != "" ==> slot[|slot| - 1] != ':')
                 && !HasSeparator(BaseOf(subject, slot))
  {
    hide UpdatesApart, BaseKey, SlotKey, HasSeparator;
    BaseKeyRecoversIff(subject, slot, scope);
    UpdatesApartIff(subject, slot, scope);
    ColonsOutsideIff(subject, slot);
  }

  /** On colon-free names a claim leaves every slot but its own as it was, whatever the scopes. */
  lemma ClaimTouchesItsSlotOnly(xs: seq<Claim>, c: Claim, ys: seq<Claim>, updates: seq<Update>, asOf: Option<nat>,
                                subject: string, slot: string, scope: string)
    requires ColonFree(subject) && ColonFree(slot) && ColonFree(c.subject) && ColonFree(c.slot)
    requires (subject, slot, scope) != (c.subject, c.slot, Strip(c.scope))
    ensures var key := SlotKey(subject, slot, scope);
      SlotAt(xs + [c] + ys, updates, asOf, key) == SlotAt(xs + ys, updates, asOf, key)
  {
    hide SlotOf, SlotKey, Bucket, Strip;
    if KeyOf(c) == SlotKey(subject, slot, scope) {
      SlotKeyInjective(subject, slot, scope, c.subject, c.slot, Strip(c.scope));
    }
    BucketWithout(xs, c, ys, SlotKey(subject, slot, scope));
  }

  /** On colon-free names an update leaves every other subject and slot as it was. */
  lemma UpdateTouchesItsSlotOnly(claims: seq<Claim>, xs: seq<Update>, u: Update, ys: seq<Update>, asOf: Option<nat>,
                                 subject: string, slot: string, scope: string)
    requires ColonFree(subject) && ColonFree(slot) && slot != "" && ColonFree(u.subject) && ColonFree(u.slot)
    requires (subject, slot) != (u.subject, u.slot)
    ensures var key := SlotKey(subject, slot, scope);
      SlotAt(claims, xs + [u] + ys, asOf, key) == SlotAt(claims, xs + ys, asOf, key)
  {
    hide SlotOf, UpdateBucket;
    var key := SlotKey(subject, slot, scope);
    ColonFreeHasNoSeparator(subject, slot);
    assert slot[|slot| - 1] in slot;
    BaseKeyRecoversIff(subject, slot, scope);
    if BaseOf(u.subject, u.slot) == BaseKey(key) {
      SlotKeyInjective(subject, slot, "", u.subject, u.slot, "");
    }
    UpdateBucketWithout(xs, u, ys, BaseKey(key));
  }
}
