/** Current truth from append-only claims and updates: bucketing by slot key, currency, conflicts,
    timeline, status. */
module Claims {
  import opened Options
  import opened Text
  import opened Sequences
  import opened Sorting

  /** `since` is the first of effective_from, observed_at, recorded_at and created_at that parses;
      `until` is effective_to. Instants count from the earliest one. */
  datatype Claim = Claim(id: Option<string>, subject: string, slot: string, scope: string, value: string,
                         since: Option<nat>, until: Option<nat>)

  datatype Update = Update(target: Option<string>, replacement: Option<string>, subject: string, slot: string,
                           decision: string, at: Option<nat>)

  datatype Entry = Entry(kind: string, claim: Option<Claim>, update: Option<Update>)

  datatype SlotStatus = Active | Retracted | Conflict

  datatype SlotState = SlotState(current: Option<Claim>, history: seq<Claim>, conflicts: seq<Claim>,
                                 timeline: seq<Entry>, status: SlotStatus)

  // ---------------------------------------------------------------- visibility and currency

  predicate ClaimVisible(c: Claim, asOf: Option<nat>) {
    asOf.Some? ==> && (c.since.Some? ==> c.since.value <= asOf.value)
                   && (c.until.Some? ==> asOf.value < c.until.value)
  }

  predicate UpdateVisible(u: Update, asOf: Option<nat>) {
    asOf.Some? && u.at.Some? ==> u.at.value <= asOf.value
  }

  function SortKey(c: Claim): Key {
    Key(if c.since.Some? then c.since.value else 0, if c.id.Some? then c.id.value else "")
  }

  /** Does the update end the claim? */
  predicate Ends(u: Update, c: Claim) {
    u.target == c.id && u.decision in {"supersede", "retract"}
  }

  predicate Ended(c: Claim, updates: seq<Update>, asOf: Option<nat>) {
    exists i :: 0 <= i < |updates| && UpdateVisible(updates[i], asOf) && Ends(updates[i], c)
  }

  predicate IsClaimCurrent(c: Claim, updates: seq<Update>, asOf: Option<nat>) {
    ClaimVisible(c, asOf) && !Ended(c, updates, asOf)
  }

  predicate Contested(c: Claim, updates: seq<Update>, asOf: Option<nat>) {
    exists i :: 0 <= i < |updates| && updates[i].decision == "conflict" && UpdateVisible(updates[i], asOf)
                && updates[i].target == c.id
  }

  function Visible(asOf: Option<nat>): Claim -> bool {
    (c: Claim) => ClaimVisible(c, asOf)
  }

  function Current(updates: seq<Update>, asOf: Option<nat>): Claim -> bool {
    (c: Claim) => IsClaimCurrent(c, updates, asOf)
  }

  function Conflicting(updates: seq<Update>, asOf: Option<nat>): Claim -> bool {
    (c: Claim) => Contested(c, updates, asOf) && ClaimVisible(c, asOf)
  }

  function FindConflicts(claims: seq<Claim>, updates: seq<Update>, asOf: Option<nat>): seq<Claim> {
    Filter(claims, Conflicting(updates, asOf))
  }

  // ---------------------------------------------------------------- timeline

  /** The last claim listed under an id. */
  function ById(claims: seq<Claim>, id: Option<string>): Option<Claim> {
    if claims == [] then None
    else if claims[|claims| - 1].id == id then Some(claims[|claims| - 1])
    else ById(claims[..|claims| - 1], id)
  }

  function Asserted(claims: seq<Claim>): (r: seq<Entry>)
    ensures |r| == |claims| && forall i :: 0 <= i < |claims| ==> r[i] == Entry("assert", Some(claims[i]), None)
  {
    seq(|claims|, i requires 0 <= i < |claims| => Entry("assert", Some(claims[i]), None))
  }

  function UpdateShown(asOf: Option<nat>): Update -> bool {
    (u: Update) => UpdateVisible(u, asOf)
  }

  function Modified(claims: seq<Claim>, updates: seq<Update>): (r: seq<Entry>)
    ensures |r| == |updates|
    ensures forall i :: 0 <= i < |updates| ==>
              r[i] == Entry(updates[i].decision, ById(claims, updates[i].target), Some(updates[i]))
  {
    seq(|updates|, i requires 0 <= i < |updates| =>
      Entry(updates[i].decision, ById(claims, updates[i].target), Some(updates[i])))
  }

  /** Visible claims in temporal order, then visible updates as logged. */
  function Timeline(claims: seq<Claim>, updates: seq<Update>, asOf: Option<nat>): seq<Entry> {
    Asserted(Filter(Sort(claims, SortKey), Visible(asOf))) + Modified(claims, Filter(updates, UpdateShown(asOf)))
  }

  // ---------------------------------------------------------------- buckets

  function BaseOf(subject: string, slot: string): string {
    subject + ":" + slot
  }

  function SlotKey(subject: string, slot: string, scope: string): string {
    if scope == "" then BaseOf(subject, slot) else BaseOf(subject, slot) + "::" + scope
  }

  function KeyOf(c: Claim): string {
    SlotKey(c.subject, c.slot, Strip(c.scope))
  }

  /** Where "::" first starts in s, or |s|. */
  function FirstSeparator(s: string): (n: nat)
    ensures n <= |s|
  {
    if s == "" then 0
    else if |s| >= 2 && s[0] == ':' && s[1] == ':' then 0
    else 1 + FirstSeparator(s[1..])
  }

  /** `key.split("::")[0]` */
  function BaseKey(key: string): string {
    key[..FirstSeparator(key)]
  }

  function InBucket(key: string): Claim -> bool {
    (c: Claim) => c.subject != "" && c.slot != "" && KeyOf(c) == key
  }

  function InUpdateBucket(base: string): Update -> bool {
    (u: Update) => u.subject != "" && u.slot != "" && BaseOf(u.subject, u.slot) == base
  }

  function Bucket(claims: seq<Claim>, key: string): seq<Claim> {
    Filter(claims, InBucket(key))
  }

  function UpdateBucket(updates: seq<Update>, base: string): seq<Update> {
    Filter(updates, InUpdateBucket(base))
  }

  // ---------------------------------------------------------------- one slot

  function History(claims: seq<Claim>, asOf: Option<nat>): seq<Claim> {
    Sort(Filter(claims, Visible(asOf)), SortKey)
  }

  function CurrentClaims(claims: seq<Claim>, updates: seq<Update>, asOf: Option<nat>): seq<Claim> {
    Filter(History(claims, asOf), Current(updates, asOf))
  }

  function Latest(claims: seq<Claim>): Option<Claim> {
    if claims == [] then None else Some(claims[|claims| - 1])
  }

  function Status(current: seq<Claim>, conflicts: seq<Claim>): SlotStatus {
    if conflicts != [] then Conflict else if current != [] then Active else Retracted
  }

  /** What a slot shows of its bucket's claims and its base key's updates. */
  function SlotOf(claims: seq<Claim>, updates: seq<Update>, asOf: Option<nat>): SlotState {
    var history := History(claims, asOf);
    var current := CurrentClaims(claims, updates, asOf);
    var conflicts := FindConflicts(history, updates, asOf);
    SlotState(Latest(current), history, conflicts, Timeline(history, updates, asOf), Status(current, conflicts))
  }

  function SlotAt(claims: seq<Claim>, updates: seq<Update>, asOf: Option<nat>, key: string): SlotState {
    SlotOf(Bucket(claims, key), UpdateBucket(updates, BaseKey(key)), asOf)
  }

  // ---------------------------------------------------------------- the loops

  lemma AssertedNext(xs: seq<Claim>, c: Claim, asOf: Option<nat>)
    ensures Asserted(Filter(xs + [c], Visible(asOf)))
            == Asserted(Filter(xs, Visible(asOf))) + if ClaimVisible(c, asOf)
                then [Entry("assert", Some(c), None)] else []
  {
    hide ClaimVisible, Filter;
    FilterSnoc(xs, c, Visible(asOf));
  }

  method AssertEntries(claims: seq<Claim>, asOf: Option<nat>) returns (timeline: seq<Entry>)
    ensures timeline == Asserted(Filter(Sort(claims, SortKey), Visible(asOf)))
  {
    hide ClaimVisible, Filter, Asserted, SortKey, Sort, KeyLe;
    timeline := [];
    var sorted := Sort(claims, SortKey);
    var i := 0;
    while i < |sorted|
      invariant 0 <= i <= |sorted|
      invariant timeline == Asserted(Filter(sorted[..i], Visible(asOf)))
    {
      assert sorted[..i + 1] == sorted[..i] + [sorted[i]];
      AssertedNext(sorted[..i], sorted[i], asOf);
      if ClaimVisible(sorted[i], asOf) {
        timeline := timeline + [Entry("assert", Some(sorted[i]), None)];
      }
      i := i + 1;
    }
    assert sorted[..|sorted|] == sorted;
  }

  lemma ModifiedNext(claims: seq<Claim>, xs: seq<Update>, u: Update, asOf: Option<nat>)
    ensures Modified(claims, Filter(xs + [u], UpdateShown(asOf)))
            == Modified(claims, Filter(xs, UpdateShown(asOf)))
               + if UpdateVisible(u, asOf) then [Entry(u.decision, ById(claims, u.target), Some(u))] else []
  {
    hide UpdateVisible, Filter, ById;
    FilterSnoc(xs, u, UpdateShown(asOf));
  }

  method ModifyEntries(claims: seq<Claim>, updates: seq<Update>, asOf: Option<nat>) returns (timeline: seq<Entry>)
    ensures timeline == Modified(claims, Filter(updates, UpdateShown(asOf)))
  {
    hide UpdateVisible, Filter, Modified, ById;
    timeline := [];
    var i := 0;
    while i < |updates|
      invariant 0 <= i <= |updates|
      invariant timeline == Modified(claims, Filter(updates[..i], UpdateShown(asOf)))
    {
      var u := updates[i];
      assert updates[..i + 1] == updates[..i] + [u];
      ModifiedNext(claims, updates[..i], u, asOf);
      if UpdateVisible(u, asOf) {
        timeline := timeline + [Entry(u.decision, ById(claims, u.target), Some(u))];
      }
      i := i + 1;
    }
    assert updates[..|updates|] == updates;
  }

  method BuildClaimTimeline(claims: seq<Claim>, updates: seq<Update>, asOf: Option<nat>) returns (timeline: seq<Entry>)
    ensures timeline == Timeline(claims, updates, asOf)
  {
    var asserted := AssertEntries(claims, asOf);
    var modified := ModifyEntries(claims, updates, asOf);
    timeline := asserted + modified;
  }

  ghost predicate Grouped(buckets: map<string, seq<Claim>>, claims: seq<Claim>) {
    && (forall key :: Bucket(claims, key) == if key in buckets then buckets[key] else [])
    && (forall key <- buckets :: |buckets[key]| > 0)
  }

  lemma GroupNext(buckets: map<string, seq<Claim>>, claims: seq<Claim>, c: Claim, key: string)
    requires Grouped(buckets, claims) && key == KeyOf(c)
    ensures c.subject == "" || c.slot == "" ==> Grouped(buckets, claims + [c])
    ensures c.subject != "" && c.slot != "" ==>
              Grouped(buckets[key := (if key in buckets then buckets[key] else []) + [c]], claims + [c])
  {
    hide KeyOf, Filter;
    forall k
      ensures Bucket(claims + [c], k)
              == if c.subject != "" && c.slot != "" && k == key then Bucket(claims, k) + [c] else Bucket(claims, k)
    {
      FilterSnoc(claims, c, InBucket(k));
    }
  }

  method GroupClaims(claims: seq<Claim>) returns (buckets: map<string, seq<Claim>>, order: seq<string>)
    ensures Grouped(buckets, claims)
    ensures NoDuplicates(order) && forall key :: key in order <==> key in buckets
  {
    buckets, order := map[], [];
    var i := 0;
    assert Grouped(buckets, []);
    hide KeyOf, Grouped;
    while i < |claims|
      invariant 0 <= i <= |claims| && Grouped(buckets, claims[..i])
      invariant NoDuplicates(order) && forall key :: key in order <==> key in buckets
    {
      var c := claims[i];
      assert claims[..i + 1] == claims[..i] + [c];
      var key := KeyOf(c);
      GroupNext(buckets, claims[..i], c, key);
      if c.subject != "" && c.slot != "" {
        if key !in buckets {
          buckets, order := buckets[key := []], order + [key];
        }
        buckets := buckets[key := buckets[key] + [c]];
      }
      i := i + 1;
    }
    assert claims[..|claims|] == claims;
  }

  ghost predicate UpdatesGrouped(buckets: map<string, seq<Update>>, updates: seq<Update>) {
    forall base :: UpdateBucket(updates, base) == if base in buckets then buckets[base] else []
  }

  lemma GroupUpdateNext(buckets: map<string, seq<Update>>, updates: seq<Update>, u: Update)
    requires UpdatesGrouped(buckets, updates)
    ensures var base := BaseOf(u.subject, u.slot);
      var before := if base in buckets then buckets[base] else [];
      UpdatesGrouped(if u.subject != "" && u.slot != "" then buckets[base := before + [u]] else buckets, updates + [u])
  {
  }

  method GroupUpdates(updates: seq<Update>) returns (buckets: map<string, seq<Update>>)
    ensures UpdatesGrouped(buckets, updates)
  {
    buckets := map[];
    var i := 0;
    assert UpdatesGrouped(buckets, []);
    hide UpdatesGrouped, BaseOf;
    while i < |updates|
      invariant 0 <= i <= |updates| && UpdatesGrouped(buckets, updates[..i])
    {
      var u := updates[i];
      assert updates[..i + 1] == updates[..i] + [u];
      GroupUpdateNext(buckets, updates[..i], u);
      if u.subject != "" && u.slot != "" {
        var base := BaseOf(u.subject, u.slot);
        buckets := buckets[base := (if base in buckets then buckets[base] else []) + [u]];
      }
      i := i + 1;
    }
    assert updates[..|updates|] == updates;
  }

  /** Slots of `slots` with the given status. */
  ghost function WithStatus(slots: map<string, SlotState>, status: SlotStatus): set<string> {
    set key | key in slots && slots[key].status == status
  }

  ghost predicate Tallied(slots: map<string, SlotState>, active: nat, conflict: nat) {
    active == |WithStatus(slots, Active)| && conflict == |WithStatus(slots, Conflict)|
  }

  lemma NoSlots(claims: seq<Claim>, updates: seq<Update>, asOf: Option<nat>)
    ensures Tallied(map[], 0, 0) && Resolved(map[], claims, updates, asOf)
  {
  }

  lemma ResolvedNext(slots: map<string, SlotState>, claims: seq<Claim>, updates: seq<Update>, asOf: Option<nat>,
      key: string)
    requires Resolved(slots, claims, updates, asOf)
    ensures Resolved(slots[key := SlotAt(claims, updates, asOf, key)], claims, updates, asOf)
  {
  }

  lemma GroupedKeys(buckets: map<string, seq<Claim>>, claims: seq<Claim>)
    requires Grouped(buckets, claims)
    ensures forall key :: key in buckets <==> |Bucket(claims, key)| > 0
  {
  }

  lemma StatusAdded(slots: map<string, SlotState>, key: string, slot: SlotState, status: SlotStatus)
    requires key !in slots
    ensures |WithStatus(slots[key := slot], status)|
            == |WithStatus(slots, status)| + if slot.status == status then 1 else 0
  {
    var before, after := WithStatus(slots, status), WithStatus(slots[key := slot], status);
    assert after == before + if slot.status == status then {key} else {};
  }

  ghost predicate Resolved(slots: map<string, SlotState>, claims: seq<Claim>, updates: seq<Update>, asOf: Option<nat>) {
    forall key <- slots :: slots[key] == SlotAt(claims, updates, asOf, key)
  }

  lemma TalliedNext(slots: map<string, SlotState>, active: nat, conflict: nat, key: string, slot: SlotState)
    requires key !in slots && Tallied(slots, active, conflict)
    ensures Tallied(slots[key := slot], active + if slot.status == Active then 1 else 0,
                    conflict + if slot.status == Conflict then 1 else 0)
  {
    hide WithStatus;
    StatusAdded(slots, key, slot, Active);
    StatusAdded(slots, key, slot, Conflict);
  }

  /** The entry of the resolver's loop for one key. */
  method ResolveKey(slotClaims: map<string, seq<Claim>>, slotUpdates: map<string, seq<Update>>, key: string,
                    ghost claims: seq<Claim>, ghost updates: seq<Update>, asOf: Option<nat>)
    returns (slot: SlotState)
    requires Grouped(slotClaims, claims) && UpdatesGrouped(slotUpdates, updates) && key in slotClaims
    ensures slot == SlotAt(claims, updates, asOf, key)
  {
    hide Bucket, UpdateBucket, SlotOf;
    var base := if FirstSeparator(key) < |key| then key[..FirstSeparator(key)] else key;
    assert base == BaseKey(key);
    slot := ResolveSlot(slotClaims[key], if base in slotUpdates then slotUpdates[base] else [], asOf);
  }

  method ResolveNext(slotClaims: map<string, seq<Claim>>, slotUpdates: map<string, seq<Update>>, key: string,
                     ghost claims: seq<Claim>, ghost updates: seq<Update>, asOf: Option<nat>,
                     slots0: map<string, SlotState>, active0: nat, conflict0: nat)
    returns (slots: map<string, SlotState>, active: nat, conflict: nat)
    requires Grouped(slotClaims, claims) && UpdatesGrouped(slotUpdates, updates)
    requires key in slotClaims && key !in slots0
    requires Resolved(slots0, claims, updates, asOf) && Tallied(slots0, active0, conflict0)
    ensures slots.Keys == slots0.Keys + {key}
    ensures Resolved(slots, claims, updates, asOf) && Tallied(slots, active, conflict)
  {
    hide SlotAt, Tallied, Grouped, UpdatesGrouped, Resolved;
    var slot := ResolveKey(slotClaims, slotUpdates, key, claims, updates, asOf);
    TalliedNext(slots0, active0, conflict0, key, slot);
    ResolvedNext(slots0, claims, updates, asOf, key);
    slots, active, conflict := slots0[key := slot], active0, conflict0;
    if slot.status == Conflict {
      conflict := conflict + 1;
    } else if slot.status == Active {
      active := active + 1;
    }
  }

  /** Every bucket resolved, with the counters. */
  method ResolveAllCurrentState(claims: seq<Claim>, updates: seq<Update>, asOf: Option<nat>)
    returns (slots: map<string, SlotState>, total: nat, active: nat, conflict: nat)
    ensures forall key :: key in slots <==> |Bucket(claims, key)| > 0
    ensures Resolved(slots, claims, updates, asOf)
    ensures total == |slots| && Tallied(slots, active, conflict)
  {
    hide Bucket, Tallied, Grouped, UpdatesGrouped, Resolved, SlotAt, KeyOf, BaseOf;
    var slotClaims, order := GroupClaims(claims);
    var slotUpdates := GroupUpdates(updates);
    GroupedKeys(slotClaims, claims);
    NoSlots(claims, updates, asOf);
    slots, active, conflict := map[], 0, 0;
    var i := 0;
    while i < |order|
      invariant 0 <= i <= |order|
      invariant forall key :: key in slots <==> key in order[..i]
      invariant Resolved(slots, claims, updates, asOf) && Tallied(slots, active, conflict)
    {
      var key := order[i];
      assert key in order && order[..i + 1] == order[..i] + [key];
      slots, active, conflict :=
        ResolveNext(slotClaims, slotUpdates, key, claims, updates, asOf, slots, active, conflict);
      i := i + 1;
    }
    assert order[..|order|] == order;
    total := |slots|;
  }

  method ResolveSlot(claims: seq<Claim>, updates: seq<Update>, asOf: Option<nat>) returns (slot: SlotState)
    ensures slot == SlotOf(claims, updates, asOf)
  {
    var visible := Sort(Filter(claims, Visible(asOf)), SortKey);
    var current := Filter(visible, Current(updates, asOf));
    var conflicts := FindConflicts(visible, updates, asOf);
    var timeline := BuildClaimTimeline(visible, updates, asOf);
    var currentClaim := if current == [] then None else Some(current[|current| - 1]);
    var status := if conflicts != [] then Conflict else if currentClaim.Some? then Active else Retracted;
    slot := SlotState(currentClaim, visible, conflicts, timeline, status);
  }
}
