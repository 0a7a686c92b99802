/** What a good queued row is, what replaying one keeps, and why merge's own checks are redundant. */
module SideLogLaws {
  import opened Text
  import opened Inference
  import opened SideLog

  /** What holds of a queued row from the moment apply writes it: it is within its session's
      reach, and any association that effectively matches an append also matches as stored. */
  ghost predicate RowOk(I: Index, s: string, r: Row) {
    match r
    case Promotion(b, _) => I.Owns(s, b)
    case Append(id, rec, _) =>
      && rec.source != "" && rec.target != "" && Norm(rec.relationship) == rec.relationship
      && I.Owns(s, rec.source) && rec.target in I.beads
      && (forall k :: k in I.assocs && I.assocs[k].EffectiveKey() == TripleOf(rec)
                      ==> I.assocs[k].StoredKey() == TripleOf(rec))
      && (id in I.assocs ==> I.assocs[id].StoredKey() == TripleOf(rec))
    case Lifecycle(_, _, _, _, _, _, _) => Applies(I, s, r)
    case Diagnostic => true
  }

  /** What merge stores of a queued record: the relation as normalised. */
  function Requeued(rec: Record): Record {
    rec.(relationshipRaw := rec.relationship, normalized := false)
  }

  /** What one good row does, without the validator: every check but deduplication and the
      ban on model-inferred `precedes` has become redundant. */
  ghost function Act(s: string, I: Index, r: Row): Index {
    match r
    case Promotion(b, at) => Promote(I, b, at)
    case Append(id, rec, at) =>
      if ModelPrecedes(rec.relationship, rec.provenance) then I else Land(I, id, Requeued(rec), at)
    case Lifecycle(_, _, _, _, _, _, _) =>
      if Applies(I, s, r) then PatchAll(I, k => Effect(r, k)) else I
    case Diagnostic => I
  }

  ghost predicate WellFormed(cfg: Config, r: Row) {
    r.Append? ==> WellShaped(cfg.relations, r.record)
  }

  /** Merge's second validation changes nothing and rejects nothing that apply queued. */
  lemma RevalidationIsRedundant(cfg: Config, s: string, I: Index, r: Row)
    requires cfg.relations.Valid() && WellFormed(cfg, r) && RowOk(I, s, r)
    ensures Step(cfg, s, I, r) == Act(s, I, r)
  {
    if r.Append? {
      NormTwice(r.record.relationship);
      AcceptsOwnOutput(cfg.relations, cfg.mode, r.record);
    }
  }

  ghost predicate SameIdentity(a: Assoc, b: Assoc) {
    b == a.(status := b.status, confidence := b.confidence, life := b.life)
  }

  /** J extends I: no bead or association disappears or changes what it is, and no promotion
      mark is taken back or stamped again. */
  ghost predicate Extends(I: Index, J: Index) {
    && (forall b :: b in I.beads ==> b in J.beads && J.beads[b].session == I.beads[b].session
                                     && (I.beads[b].marked ==> J.beads[b] == I.beads[b]))
    && (forall k :: k in I.assocs ==> k in J.assocs && SameIdentity(I.assocs[k], J.assocs[k]))
  }

  lemma PatchAllExtends(I: Index, f: string -> Patch)
    requires I.Valid()
    ensures PatchAll(I, f).Valid() && Extends(I, PatchAll(I, f))
    ensures PatchAll(I, f).assocs.Keys == I.assocs.Keys
  {
  }

  lemma LandExtends(I: Index, id: string, r: Record, at: int)
    requires I.Valid()
    requires id in I.assocs ==> Stored(I, TripleOf(r))
    ensures Land(I, id, r, at).Valid() && Extends(I, Land(I, id, r, at))
  {
  }

  lemma ActExtends(s: string, I: Index, r: Row)
    requires I.Valid() && RowOk(I, s, r)
    ensures Act(s, I, r).Valid()
    ensures Extends(I, Act(s, I, r))
    ensures Act(s, I, r).beads.Keys == I.beads.Keys
  {
    if r.Lifecycle? { PatchAllExtends(I, k => Effect(r, k)); }
    if r.Append? { LandExtends(I, r.id, Requeued(r.record), r.at); }
  }

  /** A row that names existing things stays good while the index is only extended. */
  lemma ExtensionKeepsRowOk(I: Index, J: Index, t: string, q: Row)
    requires Extends(I, J) && RowOk(I, t, q)
    requires J.assocs.Keys == I.assocs.Keys
    ensures RowOk(J, t, q)
  {
  }

  lemma LandKeepsRowOk(I: Index, id: string, rec: Record, at: int, t: string, q: Row)
    requires I.Valid() && RowOk(I, t, q)
    requires rec.source != "" && rec.target != "" && Norm(rec.relationship) == rec.relationship
    requires id in I.assocs ==> Stored(I, TripleOf(rec))
    requires q.Append? ==> q.id != id
    ensures RowOk(Land(I, id, rec, at), t, q)
  {
  }

  /** A row stays good while others are replayed, whatever session they belong to. */
  lemma ActKeepsRowOk(I: Index, s: string, r: Row, t: string, q: Row)
    requires I.Valid() && RowOk(I, s, r) && RowOk(I, t, q)
    requires r.Append? && q.Append? ==> r.id != q.id
    ensures RowOk(Act(s, I, r), t, q)
  {
    match r
    case Promotion(b, at) => ExtensionKeepsRowOk(I, Promote(I, b, at), t, q);
    case Append(id, rec, at) => LandKeepsRowOk(I, id, Requeued(rec), at, t, q);
    case Lifecycle(_, _, _, _, _, _, _) =>
      PatchAllExtends(I, k => Effect(r, k));
      ExtensionKeepsRowOk(I, PatchAll(I, k => Effect(r, k)), t, q);
    case Diagnostic =>
  }
}
