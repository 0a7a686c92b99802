/** The association payload validator: `validate_and_normalize_inference_payload`.
    Enqueue and merge both run it, so what it makes of its own output matters. */
module Inference {
  import opened Options
  import opened Text

  datatype Mode = Strict | Permissive

  /** The relation vocabulary: canonical names, and aliases that stand for other names. */
  datatype Relations = Relations(canonical: set<string>, aliases: map<string, string>) {

    /** What the shipped tables satisfy: canonical names are already normalised, are not
        aliases themselves, and include the permissive fallback. */
    ghost predicate Valid() {
      && "" !in canonical
      && "associated_with" in canonical
      && forall c :: c in canonical ==> Norm(c) == c && c !in aliases
    }

    function Normalize(relation: string): string {
      var v := Norm(relation);
      if v == "" then "associated_with" else if v in aliases then aliases[v] else v
    }
  }

  /** An authored association; `confidence` is None when missing or not a number. */
  datatype Payload = Payload(
    source: string, target: string, relationship: string,
    reasonText: string, rationale: string,
    confidence: Option<real>, provenance: string)

  datatype Record = Record(
    source: string, target: string, relationship: string, relationshipRaw: string,
    reasonText: string, confidence: Option<real>, provenance: string, normalized: bool)

  datatype Reason =
    | MissingSourceOrTarget
    | SelfLink
    | MissingReasonText
    | MissingOrInvalidConfidence
    | Noncanonical(relation: string)

  datatype Verdict = Verdict(record: Record, reasons: seq<Reason>) {
    predicate Ok() { reasons == [] }
  }

  type Triple = (string, string, string)

  function TripleOf(r: Record): Triple {
    (r.source, r.target, r.relationship)
  }

  function CoerceConfidence(c: Option<real>): Option<real> {
    if c.Some? && 0.0 <= c.value <= 1.0 then c else None
  }

  function Provenance(p: string): string {
    Or(Norm(Or(p, "model_inferred")), "model_inferred")
  }

  function When<T>(c: bool, x: T): seq<T> {
    if c then [x] else []
  }

  function Validate(rel: Relations, mode: Mode, p: Payload): Verdict {
    var source := Strip(p.source);
    var target := Strip(p.target);
    var raw := Norm(p.relationship);
    var provenance := Provenance(p.provenance);
    var reason := Or(Strip(p.reasonText), Strip(p.rationale));
    var confidence := CoerceConfidence(p.confidence);
    var normal := if raw == "" then "" else rel.Normalize(raw);
    var known := normal in rel.canonical;
    var relationship := if known || mode.Strict? then normal else "associated_with";
    var applied := if known || mode.Strict? then raw != "" && normal != raw else true;
    Verdict(
      Record(source, target, relationship, raw, reason, confidence, provenance, applied),
      When(source == "" || target == "", MissingSourceOrTarget)
      + When(source != "" && source == target, SelfLink)
      + When(provenance == "model_inferred" && reason == "", MissingReasonText)
      + When(provenance == "model_inferred" && confidence.None?, MissingOrInvalidConfidence)
      + When(!known && mode.Strict?, Noncanonical(raw)))
  }

  /** What merge rebuilds from a queued record before validating it again. The raw relation
      is passed along, but the validator derives its own from `relationship`. */
  function Requeue(r: Record): Payload {
    Payload(r.source, r.target, r.relationship, r.reasonText, "", r.confidence, Or(r.provenance, "model_inferred"))
  }

  /** The shape of every accepted record. */
  ghost predicate WellShaped(rel: Relations, r: Record) {
    && Stripped(r.source) && Stripped(r.target) && Stripped(r.reasonText)
    && r.source != "" && r.target != "" && r.source != r.target
    && r.relationship in rel.canonical
    && r.provenance != "" && Norm(r.provenance) == r.provenance
    && (r.provenance == "model_inferred" ==> r.reasonText != "" && r.confidence.Some?)
    && CoerceConfidence(r.confidence) == r.confidence
  }

  lemma AcceptedIsWellShaped(rel: Relations, mode: Mode, p: Payload)
    requires rel.Valid()
    requires Validate(rel, mode, p).Ok()
    ensures WellShaped(rel, Validate(rel, mode, p).record)
  {
    NormTwice(Or(p.provenance, "model_inferred"));
    ModelInferredIsNormal();
  }

  lemma ModelInferredIsNormal()
    ensures Norm("model_inferred") == "model_inferred"
  {
  }

  /** The validator accepts its own output: same endpoints, relation, reason, confidence and
      provenance. Only the trace of the normalisation is forgotten. */
  lemma AcceptsOwnOutput(rel: Relations, mode: Mode, r: Record)
    requires rel.Valid() && WellShaped(rel, r)
    ensures Validate(rel, mode, Requeue(r)).Ok()
    ensures Validate(rel, mode, Requeue(r)).record == r.(relationshipRaw := r.relationship, normalized := false)
  {
    assert rel.Normalize(r.relationship) == r.relationship;
    assert Provenance(Requeue(r).provenance) == r.provenance;
    var q := Requeue(r);
    assert Strip(q.source) == r.source && Strip(q.target) == r.target && Strip(q.reasonText) == r.reasonText;
    assert Norm(q.relationship) == r.relationship;
  }

  /** So an association merged from the queue shows the relation its author wrote if and only if the
      author wrote a canonical one. */
  lemma AuthoredRelationSurvivesIff(rel: Relations, mode: Mode, p: Payload)
    requires rel.Valid()
    requires Validate(rel, mode, p).Ok()
    ensures var r := Validate(rel, mode, p).record;
      Validate(rel, mode, Requeue(r)).record.relationshipRaw == Norm(p.relationship)
      <==> Norm(p.relationship) in rel.canonical
  {
    var r := Validate(rel, mode, p).record;
    AcceptedIsWellShaped(rel, mode, p);
    AcceptsOwnOutput(rel, mode, r);
    NormTwice(p.relationship);
  }
}
