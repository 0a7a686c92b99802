/** `resolve_current_state`, the reader of a single slot that retrieval, storylines and update
    reconciliation use. It orders updates by sequence number and lets a resolution clear the conflict
    marks before it. */
module SlotReader {
  import opened Options
  import opened Sequences
  import opened Sorting
  import opened Claims

  /** An update as it is read back; `chain` is its sequence number, None when it is not a number. */
  datatype Link = Link(update: Update, chain: Option<nat>)

  /** No status stands for `not_found`. */
  datatype View = View(current: Option<Claim>, history: seq<Claim>, conflicts: seq<Claim>, status: Option<SlotStatus>)

  function OrEmpty(t: Option<string>): string {
    if t.Some? then t.value else ""
  }

  function IdOf(c: Claim): string { OrEmpty(c.id) }

  function TargetOf(u: Update): string { OrEmpty(u.target) }

  // ---------------------------------------------------------------- the order of updates

  datatype Placed = Placed(place: nat, at: nat, link: Link)

  function ByPlace(x: Placed): Key { Key(x.place, "") }

  /** An update without a number takes its position. */
  function PlaceOf(links: seq<Link>, i: nat): nat
    requires i < |links|
  {
    if links[i].chain.Some? then links[i].chain.value else i
  }

  function PlacedAll(links: seq<Link>): (r: seq<Placed>)
    ensures |r| == |links| && forall i :: 0 <= i < |links| ==> r[i] == Placed(PlaceOf(links, i), i, links[i])
  {
    seq(|links|, i requires 0 <= i < |links| => Placed(PlaceOf(links, i), i, links[i]))
  }

  function LinksIn(xs: seq<Placed>): (r: seq<Link>)
    ensures |r| == |xs| && forall i :: 0 <= i < |xs| ==> r[i] == xs[i].link
  {
    seq(|xs|, i requires 0 <= i < |xs| => xs[i].link)
  }

  function UpdatesIn(links: seq<Link>): (r: seq<Update>)
    ensures |r| == |links| && forall i :: 0 <= i < |links| ==> r[i] == links[i].update
  {
    seq(|links|, i requires 0 <= i < |links| => links[i].update)
  }

  function InChain(links: seq<Link>): (r: seq<Link>)
    ensures |r| == |links|
  {
    var sorted := Sort(PlacedAll(links), ByPlace);
    assert |multiset(sorted)| == |multiset(PlacedAll(links))|;
    LinksIn(sorted)
  }

  /** The updates of one slot in the order the reader goes through them. */
  function Ordered(links: seq<Link>): (r: seq<Update>)
    ensures |r| == |links|
  {
    UpdatesIn(InChain(links))
  }

  // ---------------------------------------------------------------- what a slot shows

  predicate Marks(u: Update) { TargetOf(u) != "" && u.decision == "conflict" }

  predicate Settles(u: Update) { TargetOf(u) != "" && u.decision in {"supersede", "retract"} }

  predicate Replaces(u: Update) { TargetOf(u) != "" && u.decision == "supersede" && OrEmpty(u.replacement) != "" }

  /** The index of the last update of the kind, or -1. */
  function LastOf(us: seq<Update>, kind: Update -> bool): (n: int)
    ensures -1 <= n < |us|
    ensures n >= 0 ==> kind(us[n])
    ensures forall i :: n < i < |us| ==> !kind(us[i])
  {
    if us == [] then -1
    else if kind(us[|us| - 1]) then |us| - 1
    else LastOf(us[..|us| - 1], kind)
  }

  function LatestReplacement(us: seq<Update>): string {
    var n := LastOf(us, Replaces);
    if n < 0 then "" else OrEmpty(us[n].replacement)
  }

  /** Was the last conflict mark followed by a supersession or retraction, of whichever claim? */
  predicate Cleared(us: seq<Update>) {
    0 <= LastOf(us, Marks) < LastOf(us, Settles)
  }

  function TargetsOf(us: seq<Update>, kind: Update -> bool): set<string> {
    set u | u in us && kind(u) :: TargetOf(u)
  }

  function Standing(us: seq<Update>): Claim -> bool {
    (c: Claim) => IdOf(c) !in TargetsOf(us, Settles)
  }

  function Marked(us: seq<Update>): Claim -> bool {
    (c: Claim) => IdOf(c) in TargetsOf(us, Marks)
  }

  /** The claim the latest supersession installed, if it stands, else the last standing one. */
  function Pick(active: seq<Claim>, replacement: string): Option<Claim> {
    if replacement != "" && ById(active, Some(replacement)).Some? then ById(active, Some(replacement))
    else Latest(active)
  }

  function ViewOf(claims: seq<Claim>, us: seq<Update>): View {
    if claims == [] then View(None, [], [], None)
    else
      var active := Filter(claims, Standing(us));
      var conflicts := if Cleared(us) then [] else Filter(claims, Marked(us));
      var current := Pick(active, LatestReplacement(us));
      View(current, claims, conflicts, Some(Status(active, conflicts)))
  }

  function OfSlot(subject: string, slot: string): Claim -> bool {
    (c: Claim) => c.subject == subject && c.slot == slot
  }

  function LinkOfSlot(subject: string, slot: string): Link -> bool {
    (l: Link) => l.update.subject == subject && l.update.slot == slot
  }

  function ReadSlot(claims: seq<Claim>, links: seq<Link>, subject: string, slot: string): View {
    ViewOf(Filter(claims, OfSlot(subject, slot)), Ordered(Filter(links, LinkOfSlot(subject, slot))))
  }

  // ---------------------------------------------------------------- the loop

  /** What the loop over the ordered updates has collected. */
  datatype Tally = Tally(retracted: set<string>, superseded: set<string>, marked: set<string>,
                         replacement: string, lastMark: int, lastSettled: int)

  ghost predicate Collected(t: Tally, us: seq<Update>) {
    && t.retracted + t.superseded == TargetsOf(us, Settles) && t.marked == TargetsOf(us, Marks)
    && t.replacement == LatestReplacement(us)
    && t.lastMark == LastOf(us, Marks) && t.lastSettled == LastOf(us, Settles)
  }

  lemma LastOfSnoc(us: seq<Update>, u: Update, kind: Update -> bool)
    ensures LastOf(us + [u], kind) == if kind(u) then |us| else LastOf(us, kind)
  {
    assert (us + [u])[..|us|] == us;
  }

  lemma TargetsSnoc(us: seq<Update>, u: Update, kind: Update -> bool)
    ensures TargetsOf(us + [u], kind) == TargetsOf(us, kind) + if kind(u) then {TargetOf(u)} else {}
  {
  }

  lemma ReplacementSnoc(us: seq<Update>, u: Update)
    ensures LatestReplacement(us + [u]) == if Replaces(u) then OrEmpty(u.replacement) else LatestReplacement(us)
  {
    LastOfSnoc(us, u, Replaces);
  }

  method Collect(us: seq<Update>) returns (t: Tally)
    ensures Collected(t, us)
  {
    hide LastOf, TargetsOf, LatestReplacement;
    t := Tally({}, {}, {}, "", -1, -1);
    NothingCollected();
    var order := 0;
    while order < |us|
      invariant 0 <= order <= |us| && Collected(t, us[..order])
    {
      var u := us[order];
      assert us[..order + 1] == us[..order] + [u];
      TargetsSnoc(us[..order], u, Settles);
      TargetsSnoc(us[..order], u, Marks);
      LastOfSnoc(us[..order], u, Settles);
      LastOfSnoc(us[..order], u, Marks);
      ReplacementSnoc(us[..order], u);
      var target := TargetOf(u);
      if target != "" {
        if u.decision == "retract" {
          t := t.(retracted := t.retracted + {target}, lastSettled := order);
        } else if u.decision == "supersede" {
          t := t.(superseded := t.superseded + {target}, lastSettled := order);
          if OrEmpty(u.replacement) != "" {
            t := t.(replacement := OrEmpty(u.replacement));
          }
        } else if u.decision == "conflict" {
          t := t.(marked := t.marked + {target}, lastMark := order);
        }
      }
      order := order + 1;
    }
    assert us[..|us|] == us;
  }

  lemma NothingCollected()
    ensures Collected(Tally({}, {}, {}, "", -1, -1), [])
  {
  }

  method ResolveCurrentState(claims: seq<Claim>, links: seq<Link>, subject: string, slot: string) returns (view: View)
    ensures view == ReadSlot(claims, links, subject, slot)
  {
    hide Ordered, Filter, LastOf, TargetsOf, LatestReplacement;
    var slotClaims := Filter(claims, OfSlot(subject, slot));
    var slotUpdates := Ordered(Filter(links, LinkOfSlot(subject, slot)));
    if slotClaims == [] { return View(None, [], [], None); }
    var t := Collect(slotUpdates);
    var stands := (c: Claim) => IdOf(c) !in t.retracted && IdOf(c) !in t.superseded;
    var marked := (c: Claim) => IdOf(c) in t.marked;
    FilterSame(slotClaims, stands, Standing(slotUpdates));
    FilterSame(slotClaims, marked, Marked(slotUpdates));
    var active := Filter(slotClaims, stands);
    var resolved := t.lastMark >= 0 && t.lastSettled > t.lastMark;
    var conflicts := if resolved then [] else Filter(slotClaims, marked);
    var current := if t.replacement != "" then ById(active, Some(t.replacement)) else None;
    if current.None? {
      current := Latest(active);
    }
    var status := if current.Some? then Active else Retracted;
    if conflicts != [] {
      status := Conflict;
    }
    view := View(current, slotClaims, conflicts, Some(status));
  }

  // ---------------------------------------------------------------- clearing, told from the log

  predicate Before(x: Placed, y: Placed) {
    x.place < y.place || (x.place == y.place && x.at < y.at)
  }

  ghost predicate InSequence(xs: seq<Placed>) {
    forall i, j :: 0 <= i < j < |xs| ==> Before(xs[i], xs[j])
  }

  lemma {:induction false} InsertInSequence(xs: seq<Placed>, x: Placed)
    requires InSequence(xs) && forall y <- xs :: y.at < x.at
    ensures InSequence(Insert(xs, x, ByPlace))
  {
    var n := |xs|;
    if n > 0 {
      PlacesCompare(xs[n - 1], x);
      assert xs[n - 1] in xs;
      if KeyLe(ByPlace(xs[n - 1]), ByPlace(x)) {
      } else {
        var front := Insert(xs[..n - 1], x, ByPlace);
        InsertInSequence(xs[..n - 1], x);
        forall i | 0 <= i < |front|
          ensures Before(front[i], xs[n - 1])
        {
          InsertHas(xs[..n - 1], x, ByPlace, front[i]);
        }
      }
    }
  }

  lemma PlacesCompare(x: Placed, y: Placed)
    ensures KeyLe(ByPlace(x), ByPlace(y)) <==> x.place <= y.place
  {
  }

  lemma {:induction false} SortInSequence(xs: seq<Placed>)
    requires forall i, j :: 0 <= i < j < |xs| ==> xs[i].at < xs[j].at
    ensures InSequence(Sort(xs, ByPlace))
  {
    hide Before;
    if xs != [] {
      var init, last := xs[..|xs| - 1], xs[|xs| - 1];
      SortInSequence(init);
      forall y | y in Sort(init, ByPlace)
        ensures y.at < last.at
      {
        SortHas(init, ByPlace, y);
      }
      InsertInSequence(Sort(init, ByPlace), last);
    }
  }

  /** Is update i read after every update of the kind? */
  ghost predicate ReadAfterAll(links: seq<Link>, i: nat, kind: Update -> bool)
    requires i < |links|
  {
    forall j :: 0 <= j < |links| && kind(links[j].update) ==> Before(PlacedAll(links)[j], PlacedAll(links)[i])
  }

  lemma SortedHas(links: seq<Link>, sorted: seq<Placed>)
    requires sorted == Sort(PlacedAll(links), ByPlace)
    ensures |sorted| == |links|
    ensures forall k :: 0 <= k < |sorted| ==> sorted[k].at < |links| && PlacedAll(links)[sorted[k].at] == sorted[k]
    ensures forall i :: 0 <= i < |links| ==> PlacedAll(links)[i] in sorted
  {
    assert |multiset(sorted)| == |multiset(PlacedAll(links))|;
    forall k | 0 <= k < |sorted|
      ensures sorted[k].at < |links| && PlacedAll(links)[sorted[k].at] == sorted[k]
    {
      SortHas(PlacedAll(links), ByPlace, sorted[k]);
    }
    forall i | 0 <= i < |links|
      ensures PlacedAll(links)[i] in sorted
    {
      SortHas(PlacedAll(links), ByPlace, PlacedAll(links)[i]);
    }
  }

  /** Where the ordered updates come from. */
  lemma OrderedFrom(links: seq<Link>) returns (sorted: seq<Placed>)
    ensures |sorted| == |links| == |Ordered(links)| && InSequence(sorted)
    ensures forall k :: 0 <= k < |sorted| ==>
              && sorted[k].at < |links| && PlacedAll(links)[sorted[k].at] == sorted[k]
              && Ordered(links)[k] == links[sorted[k].at].update
    ensures forall i :: 0 <= i < |links| ==> PlacedAll(links)[i] in sorted
  {
    hide Before;
    sorted := Sort(PlacedAll(links), ByPlace);
    SortInSequence(PlacedAll(links));
    SortedHas(links, sorted);
  }

  lemma ClearedReadsAfter(links: seq<Link>)
    requires Cleared(Ordered(links))
    ensures exists j :: 0 <= j < |links| && Marks(links[j].update)
    ensures exists i :: 0 <= i < |links| && Settles(links[i].update) && ReadAfterAll(links, i, Marks)
  {
    hide Marks, Settles, PlacedAll, Ordered;
    var sorted := OrderedFrom(links);
    var us := Ordered(links);
    var m, n := LastOf(us, Marks), LastOf(us, Settles);
    forall j | 0 <= j < |links| && Marks(links[j].update)
      ensures Before(PlacedAll(links)[j], sorted[n])
    {
      var k :| 0 <= k < |sorted| && sorted[k] == PlacedAll(links)[j];
      assert Marks(us[k]);
    }
    assert Marks(links[sorted[m].at].update);
    assert Settles(links[sorted[n].at].update) && ReadAfterAll(links, sorted[n].at, Marks);
  }

  lemma ReadAfterClears(links: seq<Link>, j: nat, i: nat)
    requires j < |links| && Marks(links[j].update)
    requires i < |links| && Settles(links[i].update) && ReadAfterAll(links, i, Marks)
    ensures Cleared(Ordered(links))
  {
    hide Marks, Settles, PlacedAll, Ordered;
    var sorted := OrderedFrom(links);
    var us := Ordered(links);
    var l :| 0 <= l < |sorted| && sorted[l] == PlacedAll(links)[j];
    var k :| 0 <= k < |sorted| && sorted[k] == PlacedAll(links)[i];
    assert Marks(us[l]) && Settles(us[k]);
    var m := LastOf(us, Marks);
    assert Before(PlacedAll(links)[sorted[m].at], PlacedAll(links)[i]);
    assert k > m;
  }

  /** A slot's conflict marks are cleared exactly when there are some and one supersession or
      retraction is read after all of them; numbers count first, then positions. */
  lemma ClearedIff(links: seq<Link>)
    ensures Cleared(Ordered(links)) <==>
            && (exists j :: 0 <= j < |links| && Marks(links[j].update))
            && exists i :: 0 <= i < |links| && Settles(links[i].update) && ReadAfterAll(links, i, Marks)
  {
    hide Cleared, Ordered, Marks, Settles, ReadAfterAll;
    if Cleared(Ordered(links)) {
      ClearedReadsAfter(links);
    }
    forall j, i | 0 <= j < |links| && Marks(links[j].update)
                  && 0 <= i < |links| && Settles(links[i].update) && ReadAfterAll(links, i, Marks)
      ensures Cleared(Ordered(links))
    {
      ReadAfterClears(links, j, i);
    }
  }
}
