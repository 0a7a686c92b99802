/** A conflict resolution from the user's choice to the slot it settles: its rows are emitted as an
    explicit agent action, written to the log, and read by the resolver. */
module ResolutionPipeline {
  import opened Options
  import opened Text
  import opened Sequences
  import Claims
  import ClaimLaws
  import ConflictReview
  import opened UpdatePolicy

  const SOURCE := "explicit_agent_action"

  function OrEmpty(t: Option<string>): string {
    if t.Some? then t.value else ""
  }

  /** A resolution row as it is handed to emission. */
  function Authored(u: Claims.Update, trigger: string, reason: string): Raw {
    Given(u.decision, OrEmpty(u.target), "", OrEmpty(u.replacement), "", u.subject, u.slot, reason, trigger, [], "",
          None)
  }

  function AuthoredAll(us: seq<Claims.Update>, trigger: string, reason: string): (r: seq<Raw>)
    ensures |r| == |us| && forall i :: 0 <= i < |us| ==> r[i] == Authored(us[i], trigger, reason)
  {
    seq(|us|, i requires 0 <= i < |us| => Authored(us[i], trigger, reason))
  }

  /** An emitted update as the resolver reads it back; emission stamps no instant. */
  function Persisted(u: Update): Claims.Update {
    var replacement := if u.replacement == "" then None else Some(u.replacement);
    Claims.Update(Some(u.target), replacement, u.subject, u.slot, u.decision, None)
  }

  /** What the resolver and emission agree on: a row with normal fields. */
  ghost predicate Plain(u: Claims.Update, subject: string, slot: string) {
    && u.target.Some? && u.target.value != "" && Stripped(u.target.value)
    && (u.replacement.Some? ==> u.replacement.value != "" && Stripped(u.replacement.value))
    && u.subject == subject && u.slot == slot && u.at.None?
    && u.decision in {"supersede", "retract"}
  }

  lemma RowsArePlain(resolution: string, subject: string, slot: string, a: string, b: string)
    ensures forall u <- ConflictReview.ResolutionToClaimUpdates(resolution, subject, slot, a, b) ::
              Plain(u, subject, slot)
  {
    hide Norm, Strip;
  }

  lemma DecisionsAreNormal()
    ensures Norm("supersede") == "supersede" && Norm("retract") == "retract"
  {
    assert Strip("supersede") == "supersede" && Strip("retract") == "retract";
    assert Lower("supersede") == "supersede";
    assert Lower("retract") == "retract";
  }

  /** Emission takes a plain row up unchanged. */
  lemma EmittedUnchanged(w: World, u: Claims.Update, subject: string, slot: string, bead: string, reason: string,
                         trigger: string)
    requires Plain(u, subject, slot) && Stripped(subject) && Stripped(slot) && Strip(trigger) == trigger != ""
    ensures var v := Explicit(w, Authored(u, bead, reason), trigger);
      v.Some? && Persisted(v.value) == u
  {
    hide Norm, Evidence;
    DecisionsAreNormal();
    StripOfStripped(u.target.value);
    if u.replacement.Some? { StripOfStripped(u.replacement.value); }
    StripOfStripped("");
  }

  lemma StripOfStripped(s: string)
    requires Stripped(s)
    ensures Strip(s) == s
  {
  }

  /** Every row reaches the explicit updates, and nothing else does. */
  lemma {:induction false} ExplicitAreRows(w: World, us: seq<Claims.Update>, subject: string, slot: string,
                                           bead: string, reason: string, trigger: string)
    requires forall u <- us :: Plain(u, subject, slot)
    requires Stripped(subject) && Stripped(slot) && Strip(trigger) == trigger != ""
    ensures var vs := ExplicitUpdates(w, AuthoredAll(us, bead, reason), trigger);
      |vs| == |us| && forall i :: 0 <= i < |us| ==> Persisted(vs[i]) == us[i]
    decreases |us|
  {
    hide Explicit, Plain, Persisted;
    if us != [] {
      var init, last := us[..|us| - 1], us[|us| - 1];
      assert last in us && forall u <- init :: u in us;
      ExplicitAreRows(w, init, subject, slot, bead, reason, trigger);
      EmittedUnchanged(w, last, subject, slot, bead, reason, trigger);
      assert AuthoredAll(us, bead, reason)[..|us| - 1] == AuthoredAll(init, bead, reason);
    }
  }

  lemma SameKeySameRow(u: Update, v: Update, subject: string, slot: string)
    requires Plain(Persisted(u), subject, slot) && Plain(Persisted(v), subject, slot) && KeyOf(u) == KeyOf(v)
    ensures Persisted(u) == Persisted(v)
  {
    hide Norm;
    DecisionsAreNormal();
    StripOfStripped("");
  }

  function PersistedAll(us: seq<Update>): (r: seq<Claims.Update>)
    ensures |r| == |us| && forall i :: 0 <= i < |us| ==> r[i] == Persisted(us[i])
  {
    seq(|us|, i requires 0 <= i < |us| => Persisted(us[i]))
  }

  /** Deduplication drops only rows that repeat another. */
  lemma FirstByKeepsRows(vs: seq<Update>, us: seq<Claims.Update>, subject: string, slot: string)
    requires |vs| == |us| && forall i :: 0 <= i < |us| ==> Persisted(vs[i]) == us[i] && Plain(us[i], subject, slot)
    ensures forall u :: u in PersistedAll(FirstBy(vs, KeyOf)) <==> u in us
  {
    hide Persisted, Plain, KeyOf;
    var kept := FirstBy(vs, KeyOf);
    forall u | u in PersistedAll(kept)
      ensures u in us
    {
      var i :| 0 <= i < |kept| && PersistedAll(kept)[i] == u;
      assert kept[i] in kept && kept[i] in vs;
      var j :| 0 <= j < |vs| && vs[j] == kept[i];
      assert us[j] == u;
    }
    forall u | u in us
      ensures u in PersistedAll(kept)
    {
      var i :| 0 <= i < |us| && us[i] == u;
      assert vs[i] in vs;
      var j :| 0 <= j < |kept| && KeyOf(kept[j]) == KeyOf(vs[i]);
      assert kept[j] in kept && kept[j] in vs;
      var k :| 0 <= k < |vs| && vs[k] == kept[j];
      SameKeySameRow(vs[k], vs[i], subject, slot);
      assert PersistedAll(kept)[j] == u;
    }
  }

  /** What emission writes for a resolution is, up to order and repeats, the resolution's rows. */
  lemma EmissionWritesTheRows(w: World, resolution: string, subject: string, slot: string, a: string, b: string,
                              bead: string, reason: string, trigger: string, emitted: seq<Update>,
                              advisory: seq<Update>)
    requires Stripped(subject) && Stripped(slot) && Strip(trigger) == trigger != ""
    requires var rows := ConflictReview.ResolutionToClaimUpdates(resolution, subject, slot, a, b);
      Split(ExplicitUpdates(w, AuthoredAll(rows, bead, reason), trigger), ReconciledUpdates(w, [], trigger),
            SOURCE, emitted, advisory)
    ensures forall u :: u in PersistedAll(emitted)
                        <==> u in ConflictReview.ResolutionToClaimUpdates(resolution, subject, slot, a, b)
    ensures advisory == []
  {
    hide ConflictReview.ResolutionToClaimUpdates, Plain, Persisted, KeyOf, FirstBy, ExplicitUpdates, Strip, Norm;
    var rows := ConflictReview.ResolutionToClaimUpdates(resolution, subject, slot, a, b);
    var explicit := ExplicitUpdates(w, AuthoredAll(rows, bead, reason), trigger);
    RowsArePlain(resolution, subject, slot, a, b);
    ExplicitAreRows(w, rows, subject, slot, bead, reason, trigger);
    FirstByKeepsRows(explicit, rows, subject, slot);
    SourceIsAgent();
    assert explicit + ReconciledUpdates(w, [], trigger) == explicit;
    assert emitted + advisory == emitted;
  }

  lemma SourceIsAgent()
    ensures Strip(SOURCE) in AGENT_SOURCES
  {
    StripOfStripped(SOURCE);
  }

  /** From choice to slot: whatever order the log is read in, once the emitted rows are in it the slot's
      current claims are the former ones less exactly those the choice names, and its conflicts are
      what they were. */
  lemma ResolutionReachesTheSlot(w: World, resolution: string, subject: string, slot: string, scope: string, a: string,
                                 b: string, bead: string, reason: string, trigger: string, emitted: seq<Update>,
                                 advisory: seq<Update>, claims: seq<Claims.Claim>, log: seq<Claims.Update>,
                                 after: seq<Claims.Update>, asOf: Option<nat>)
    requires Stripped(subject) && Stripped(slot) && Strip(trigger) == trigger != "" && subject != "" && slot != ""
    requires Claims.BaseKey(Claims.SlotKey(subject, slot, scope)) == Claims.BaseOf(subject, slot)
    requires var rows := ConflictReview.ResolutionToClaimUpdates(resolution, subject, slot, a, b);
      Split(ExplicitUpdates(w, AuthoredAll(rows, bead, reason), trigger), ReconciledUpdates(w, [], trigger),
            SOURCE, emitted, advisory)
    requires forall u :: u in after <==> u in log || u in PersistedAll(emitted)
    ensures var key := Claims.SlotKey(subject, slot, scope);
      var bucket, base := Claims.Bucket(claims, key), Claims.BaseOf(subject, slot);
      var out := ConflictReview.TakenOut(ConflictReview.ChoiceOf(resolution), Strip(a), Strip(b));
      && Claims.CurrentClaims(bucket, Claims.UpdateBucket(after, base), asOf)
         == Filter(Claims.CurrentClaims(bucket, Claims.UpdateBucket(log, base), asOf), ConflictReview.Stays(out))
      && Claims.SlotAt(claims, after, asOf, key).conflicts == Claims.SlotAt(claims, log, asOf, key).conflicts
  {
    hide ConflictReview.ResolutionToClaimUpdates, Split, Claims.SlotKey, Claims.BaseOf, Claims.BaseKey, Claims.Bucket,
         Claims.CurrentClaims, Claims.FindConflicts, Claims.Timeline, Claims.History, Claims.Status, Strip,
         ConflictReview.TakenOut, ConflictReview.ChoiceOf, ConflictReview.Stays;
    var rows := ConflictReview.ResolutionToClaimUpdates(resolution, subject, slot, a, b);
    var key, base := Claims.SlotKey(subject, slot, scope), Claims.BaseOf(subject, slot);
    EmissionWritesTheRows(w, resolution, subject, slot, a, b, bead, reason, trigger, emitted, advisory);
    ConflictReview.ResolutionDoesWhatItSays(claims, log, asOf, resolution, subject, slot, scope, a, b);
    var bucket := Claims.Bucket(claims, key);
    ClaimLaws.OrderFree(bucket, Claims.UpdateBucket(after, base), Claims.UpdateBucket(log + rows, base), asOf);
  }
}
