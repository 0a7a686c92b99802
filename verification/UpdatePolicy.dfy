/** Claim update emission: explicit agent rows become canonical updates, reconciliation only ever
    advises, and no update is issued twice. */
module UpdatePolicy {
  import opened Options
  import opened Text
  import opened Sequences
  import opened Sorting

  /** An explicit row with both spellings of its claim ids; missing text is "". */
  datatype Raw =
    | NotObject
    | Given(decision: string, target: string, claimId: string, replacement: string, successor: string,
            subject: string, slot: string, reason: string, trigger: string, evidence: seq<string>,
            hash: string, confidence: Option<real>)

  datatype Update = Update(decision: string, target: string, replacement: string, subject: string, slot: string,
                           reason: string, trigger: string, evidence: seq<string>, hash: string, confidence: real)

  datatype NewClaim = NewClaim(subject: string, slot: string, id: string, value: string, confidence: Option<real>)

  datatype Existing = Existing(id: string, value: string, sourceBead: string)

  datatype DedupeKey =
    | Grounding(target: string, decision: string, replacement: string, hash: string)
    | Fallback(target: string, decision: string, replacement: string, trigger: string)

  const AGENT_SOURCES := {"inline_agent", "delegated_semantic_agent", "repair_agent", "explicit_agent_action"}

  /** What emission takes from elsewhere: the grounding hash and the slot's current claim. */
  datatype World = World(hash: Update -> string, resolve: (string, string) -> Option<Existing>)

  function CoerceConfidence(c: Option<real>): (r: real)
    ensures 0.0 <= r <= 1.0
    ensures c.Some? && 0.0 <= c.value <= 1.0 ==> r == c.value
  {
    if c.None? then 0.8 else if c.value < 0.0 then 0.0 else if c.value > 1.0 then 1.0 else c.value
  }

  // ---------------------------------------------------------------- grounding

  function Evidence(listed: seq<string>, trigger: string): seq<string> {
    var given := StripAll(Filter(listed, NotBlank));
    Sort(Dedup(if Strip(trigger) != "" then given + [Strip(trigger)] else given), ByText)
  }

  function WithGrounding(w: World, u: Update): Update {
    var v := u.(evidence := Evidence(u.evidence, u.trigger));
    if Strip(u.hash) == "" then v.(hash := w.hash(v)) else v
  }

  function KeyOf(u: Update): DedupeKey {
    if Strip(u.target) != "" && Strip(u.hash) != ""
    then Grounding(Strip(u.target), Norm(u.decision), Strip(u.replacement), Strip(u.hash))
    else Fallback(Strip(u.target), Norm(u.decision), Strip(u.replacement), Strip(u.trigger))
  }

  /** The evidence is a sorted set of bead ids that includes the trigger bead. */
  ghost predicate Grounded(u: Update) {
    && SortedBy(u.evidence, ByText) && NoDuplicates(u.evidence)
    && Strip(u.trigger) != "" && Strip(u.trigger) in u.evidence
    && forall x <- u.evidence :: Stripped(x) && x != ""
  }

  lemma SortedSetLaws(xs: seq<string>)
    ensures var r := Sort(Dedup(xs), ByText);
      SortedBy(r, ByText) && NoDuplicates(r) && forall x :: x in r <==> x in xs
  {
    var r := Sort(Dedup(xs), ByText);
    assert forall i, j :: 0 <= i < j < |Dedup(xs)| ==> ByText(Dedup(xs)[i]) != ByText(Dedup(xs)[j]);
    SortKeepsDistinct(Dedup(xs), ByText);
    assert forall i, j :: 0 <= i < j < |r| ==> ByText(r[i]) != ByText(r[j]);
    forall x { SortHas(Dedup(xs), ByText, x); }
  }

  lemma GivenEvidence(listed: seq<string>)
    ensures forall x <- StripAll(Filter(listed, NotBlank)) :: Stripped(x) && x != ""
  {
  }

  lemma GivenKept(listed: seq<string>, x: string)
    requires x in listed && NotBlank(x)
    ensures Strip(x) in StripAll(Filter(listed, NotBlank))
  {
  }

  /** Grounding keeps every listed bead and adds the trigger. */
  lemma GroundingGrounds(w: World, u: Update)
    requires Strip(u.trigger) != ""
    ensures Grounded(WithGrounding(w, u))
    ensures forall x <- u.evidence :: NotBlank(x) ==> Strip(x) in WithGrounding(w, u).evidence
  {
    hide NotBlank, Filter, StripAll, Dedup, SortedBy;
    var given := StripAll(Filter(u.evidence, NotBlank));
    GivenEvidence(u.evidence);
    SortedSetLaws(given + [Strip(u.trigger)]);
    forall x | x in u.evidence && NotBlank(x)
      ensures Strip(x) in given
    {
      GivenKept(u.evidence, x);
    }
  }

  // ---------------------------------------------------------------- explicit rows

  const INVALIDATING := {"supersede", "retract", "conflict"}

  /** The update an explicit row stands for. A row without a known decision or a target stands for
      none, nor does one that would invalidate a claim without a trigger bead. */
  function Explicit(w: World, x: Raw, trigger: string): Option<Update> {
    if x.NotObject? then None
    else
      var decision, target := Norm(x.decision), Strip(Or(x.target, x.claimId));
      var bead := Or(Strip(x.trigger), trigger);
      if decision !in {"reaffirm"} + INVALIDATING || target == "" || (decision in INVALIDATING && bead == "") then None
      else
        Some(WithGrounding(w, Update(decision, target, Strip(Or(x.replacement, x.successor)), Strip(x.subject),
                                     Strip(x.slot), Or(Strip(x.reason), "session decision pass"), bead,
                                     x.evidence, Strip(x.hash), CoerceConfidence(x.confidence))))
  }

  function ExplicitUpdates(w: World, xs: seq<Raw>, trigger: string): seq<Update> {
    if xs == [] then []
    else
      var before, u := ExplicitUpdates(w, xs[..|xs| - 1], trigger), Explicit(w, xs[|xs| - 1], trigger);
      if u.Some? then before + [u.value] else before
  }

  method NormalizeExplicitUpdates(w: World, xs: seq<Raw>, trigger: string) returns (out: seq<Update>)
    ensures out == ExplicitUpdates(w, xs, trigger)
  {
    hide Explicit, Strip;
    out := [];
    var i := 0;
    while i < |xs|
      invariant 0 <= i <= |xs| && out == ExplicitUpdates(w, xs[..i], trigger)
    {
      assert xs[..i + 1][..i] == xs[..i];
      var u := Explicit(w, xs[i], trigger);
      if u.Some? { out := out + [u.value]; }
      i := i + 1;
    }
    assert xs[..|xs|] == xs;
  }

  // ---------------------------------------------------------------- reconciliation

  /** What the window's current state suggests about a new claim. */
  function Reconciled(w: World, c: NewClaim, trigger: string): Option<Update> {
    var subject, slot, id := Strip(c.subject), Strip(c.slot), Strip(c.id);
    if subject == "" || slot == "" || id == "" then None
    else
      var existing := w.resolve(subject, slot);
      if existing.None? then None
      else
        var current := Strip(existing.value.id);
        if current == "" || current == id then None
        else
          var same := existing.value.value == c.value;
          var source := Strip(existing.value.sourceBead);
          Some(WithGrounding(w, Update(
            if same then "reaffirm" else "supersede", current, if same then "" else id, subject, slot,
            if same then "session-window decision pass: reaffirm existing claim"
            else "session-window decision pass: new claim supersedes existing",
            trigger, [trigger] + (if source != "" then [source] else []), "", CoerceConfidence(c.confidence))))
  }

  function ReconciledUpdates(w: World, cs: seq<NewClaim>, trigger: string): seq<Update> {
    if cs == [] then []
    else
      var before, u := ReconciledUpdates(w, cs[..|cs| - 1], trigger), Reconciled(w, cs[|cs| - 1], trigger);
      if u.Some? then before + [u.value] else before
  }

  // ---------------------------------------------------------------- emission

  /** A loop of emission: keeps what has an unseen key. `all` is what came before. */
  method KeepFirst(us: seq<Update>, before: seq<Update>, ghost all: seq<Update>, seen0: set<DedupeKey>)
    returns (kept: seq<Update>, seen: set<DedupeKey>)
    requires before == FirstBy(all, KeyOf) && forall k :: k in seen0 <==> HasKey(before, KeyOf, k)
    ensures before + kept == FirstBy(all + us, KeyOf)
    ensures forall k :: k in seen <==> HasKey(before + kept, KeyOf, k)
  {
    hide KeyOf, HasKey, FirstBy;
    kept, seen := [], seen0;
    var i := 0;
    assert before + [] == before && all + us[..0] == all;
    while i < |us|
      invariant 0 <= i <= |us| && before + kept == FirstBy(all + us[..i], KeyOf)
      invariant forall k :: k in seen <==> HasKey(before + kept, KeyOf, k)
    {
      var u := us[i];
      assert all + us[..i + 1] == (all + us[..i]) + [u];
      FirstBySnoc(all + us[..i], u, KeyOf);
      if KeyOf(u) !in seen {
        HasKeySnoc(before + kept, u, KeyOf);
        assert before + (kept + [u]) == before + kept + [u];
        kept, seen := kept + [u], seen + {KeyOf(u)};
      }
      i := i + 1;
    }
    assert us[..|us|] == us;
  }

  method Reconcile(w: World, cs: seq<NewClaim>, trigger: string) returns (out: seq<Update>)
    ensures out == ReconciledUpdates(w, cs, trigger)
  {
    hide Reconciled;
    out := [];
    var i := 0;
    while i < |cs|
      invariant 0 <= i <= |cs| && out == ReconciledUpdates(w, cs[..i], trigger)
    {
      assert cs[..i + 1][..i] == cs[..i];
      var u := Reconciled(w, cs[i], trigger);
      if u.Some? { out := out + [u.value]; }
      i := i + 1;
    }
    assert cs[..|cs|] == cs;
  }

  /** How emission splits the explicit and the suggested updates under a source. */
  ghost predicate Split(explicit: seq<Update>, suggested: seq<Update>, source: string, emitted: seq<Update>,
      advisory: seq<Update>) {
    && emitted + advisory == FirstBy(explicit + suggested, KeyOf)
    && emitted == if Strip(source) in AGENT_SOURCES then FirstBy(explicit, KeyOf) else []
  }

  /** `emit_claim_updates`: what is written to the bead, and what is only logged as advice. Together
      they are the first update of every key; only explicit rows of a named agent are written. */
  method EmitClaimUpdates(w: World, explicitRows: seq<Raw>, newClaims: seq<NewClaim>, triggerBead: string,
      source: string)
    returns (emitted: seq<Update>, advisory: seq<Update>)
    ensures Strip(triggerBead) == "" ==> emitted == [] && advisory == []
    ensures Strip(triggerBead) != "" ==>
              Split(ExplicitUpdates(w, explicitRows, Strip(triggerBead)), ReconciledUpdates(w, newClaims,
                  Strip(triggerBead)),
                    source, emitted, advisory)
  {
    hide KeyOf, ExplicitUpdates, ReconciledUpdates, HasKey;
    emitted, advisory := [], [];
    var trigger := Strip(triggerBead);
    if trigger == "" { return; }
    var explicit := NormalizeExplicitUpdates(w, explicitRows, trigger);
    var first, seen := KeepFirst(explicit, [], [], NoKeys());
    assert [] + first == first && [] + explicit == explicit;
    var suggested := Reconcile(w, newClaims, trigger);
    var more, seen' := KeepFirst(suggested, first, explicit, seen);
    if Strip(source) in AGENT_SOURCES {
      emitted, advisory := first, more;
    } else {
      advisory := first + more;
      assert [] + advisory == advisory;
    }
  }

  function NoKeys(): (r: set<DedupeKey>)
    ensures forall k :: k in r <==> HasKey([], KeyOf, k)
  {
    {}
  }

  lemma {:induction false} ExplicitAreGrounded(w: World, xs: seq<Raw>, trigger: string)
    requires Strip(trigger) == trigger != ""
    ensures forall u <- ExplicitUpdates(w, xs, trigger) :: Grounded(u)
  {
    hide Grounded, Norm, WithGrounding;
    if xs != [] {
      ExplicitAreGrounded(w, xs[..|xs| - 1], trigger);
      OneExplicitGrounded(w, xs[|xs| - 1], trigger);
    }
  }

  lemma OneExplicitGrounded(w: World, x: Raw, trigger: string)
    requires Strip(trigger) == trigger != ""
    ensures Explicit(w, x, trigger).Some? ==> Grounded(Explicit(w, x, trigger).value)
  {
    hide Grounded, Norm, WithGrounding;
    if Explicit(w, x, trigger).Some? {
      var t := Or(Strip(x.trigger), trigger);
      assert Strip(t) == t;
      GroundingGrounds(w, Update(Norm(x.decision), Strip(Or(x.target, x.claimId)),
                                 Strip(Or(x.replacement, x.successor)), Strip(x.subject), Strip(x.slot),
                                 Or(Strip(x.reason), "session decision pass"), t, x.evidence, Strip(x.hash),
                                 CoerceConfidence(x.confidence)));
    }
  }

  /** Reconciliation reaffirms an equal value, supersedes a different one, and never names the new
      claim itself as its target. */
  lemma ReconciliationLaws(w: World, c: NewClaim, trigger: string)
    requires Strip(trigger) == trigger != "" && Reconciled(w, c, trigger).Some?
    ensures var u := Reconciled(w, c, trigger).value;
      && Grounded(u)
      && u.target != Strip(c.id)
      && w.resolve(u.subject, u.slot).Some?
      && (u.decision == "reaffirm" <==> w.resolve(u.subject, u.slot).value.value == c.value)
      && (u.decision != "reaffirm" ==> u.decision == "supersede" && u.replacement == Strip(c.id))
  {
    hide Grounded;
    var e := w.resolve(Strip(c.subject), Strip(c.slot)).value;
    var same, source := e.value == c.value, Strip(e.sourceBead);
    GroundingGrounds(w, Update(
      if same then "reaffirm" else "supersede", Strip(e.id), if same then "" else Strip(c.id),
      Strip(c.subject), Strip(c.slot),
      if same then "session-window decision pass: reaffirm existing claim"
      else "session-window decision pass: new claim supersedes existing",
      trigger, [trigger] + (if source != "" then [source] else []), "", CoerceConfidence(c.confidence)));
    assert "reaffirm"[0] != "supersede"[0];
  }

  lemma {:induction false} ReconciledAreGrounded(w: World, cs: seq<NewClaim>, trigger: string)
    requires Strip(trigger) == trigger != ""
    ensures forall u <- ReconciledUpdates(w, cs, trigger) :: Grounded(u)
  {
    hide Grounded, Reconciled;
    if cs != [] {
      ReconciledAreGrounded(w, cs[..|cs| - 1], trigger);
      if Reconciled(w, cs[|cs| - 1], trigger).Some? { ReconciliationLaws(w, cs[|cs| - 1], trigger); }
    }
  }

  /** Authority: whatever is emitted came from an explicit row under an agent source, never from
      reconciliation; keys never repeat across what is emitted and advised; and all of it is grounded. */
  lemma EmissionSeparatesAuthority(w: World, explicitRows: seq<Raw>, newClaims: seq<NewClaim>, trigger: string,
                                   source: string, emitted: seq<Update>, advisory: seq<Update>)
    requires Strip(trigger) == trigger != ""
    requires Split(ExplicitUpdates(w, explicitRows, trigger), ReconciledUpdates(w, newClaims, trigger), source,
        emitted, advisory)
    ensures emitted != [] ==> Strip(source) in AGENT_SOURCES
    ensures forall u <- emitted :: u in ExplicitUpdates(w, explicitRows, trigger)
    ensures DistinctBy(emitted + advisory, KeyOf)
    ensures forall u <- emitted + advisory :: Grounded(u)
  {
    hide KeyOf, Grounded, ExplicitUpdates, ReconciledUpdates, FirstBy, HasKey, DistinctBy;
    ExplicitAreGrounded(w, explicitRows, trigger);
    ReconciledAreGrounded(w, newClaims, trigger);
  }
}
