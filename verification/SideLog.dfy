/** The crawler side log: the rows `apply_crawler_updates` queues for a session and what
    `merge_crawler_updates` makes of them. Associations are addressed by id, as the source's
    `assoc_by_id` does; CrawlerStore ties the list the source keeps to this view. */
module SideLog {
  import opened Options
  import opened Text
  import opened Inference

  datatype Config = Config(relations: Relations, mode: Mode)

  datatype Bead = Bead(session: string, marked: bool, markedAt: int, scope: string)

  /** The fields lifecycle rows leave on an association; None is a missing field. */
  datatype Life = Life(
    retractedAt: Option<int>, reaffirmedAt: Option<int>, supersededAt: Option<int>,
    reason: Option<string>, provenance: Option<string>,
    supersededBy: Option<string>, supersedes: Option<string>)

  const NO_LIFE := Life(None, None, None, None, None, None, None)

  /** `sourceAlt` and `targetAlt` are the legacy `*_bead_id` spellings, "" when absent. */
  datatype Assoc = Assoc(
    id: string, source: string, sourceAlt: string, target: string, targetAlt: string,
    relationship: string, relationshipRaw: string, provenance: string,
    status: string, confidence: Option<real>, createdAt: int, life: Life)
  {
    function Src(): string { Or(source, sourceAlt) }

    function Tgt(): string { Or(target, targetAlt) }

    /** What enqueue compares: either spelling, relation normalised. */
    function EffectiveKey(): Triple { (Src(), Tgt(), Norm(relationship)) }

    /** What merge compares: the canonical fields as stored. */
    function StoredKey(): Triple { (source, target, relationship) }
  }

  datatype Index = Index(beads: map<string, Bead>, assocs: map<string, Assoc>) {
    ghost predicate Valid() {
      && "" !in beads
      && forall k :: k in assocs ==> assocs[k].id == k
    }

    predicate Owns(s: string, bead: string) {
      bead in beads && beads[bead].session == s
    }

    predicate InScope(s: string, a: Assoc) {
      a.Src() != "" && a.Tgt() != "" && Owns(s, a.Src()) && Owns(s, a.Tgt())
    }
  }

  datatype Action = Retract | Supersede | Reaffirm | Other

  datatype Row =
    | Promotion(bead: string, at: int)
    | Append(id: string, record: Record, at: int)
    | Lifecycle(target: string, action: Action, replacement: string, reason: string,
                confidence: Option<real>, provenance: string, at: int)
    | Diagnostic

  // ---------------------------------------------------------------- lifecycle

  /** A change to one association: the fields it overwrites and the confidence it raises to. */
  datatype Patch = Patch(status: Option<string>, raised: Option<real>, life: Life)

  const NO_PATCH := Patch(None, None, NO_LIFE)

  function Later<T>(a: Option<T>, b: Option<T>): Option<T> {
    if b.Some? then b else a
  }

  function Max(a: Option<real>, b: Option<real>): Option<real> {
    if a.None? then b else if b.None? then a else if a.value < b.value then b else a
  }

  function Overlay(a: Life, b: Life): Life {
    Life(Later(a.retractedAt, b.retractedAt), Later(a.reaffirmedAt, b.reaffirmedAt),
         Later(a.supersededAt, b.supersededAt), Later(a.reason, b.reason),
         Later(a.provenance, b.provenance), Later(a.supersededBy, b.supersededBy),
         Later(a.supersedes, b.supersedes))
  }

  function Patched(a: Assoc, p: Patch): Assoc {
    a.(status := if p.status.Some? then p.status.value else a.status,
       confidence := Max(a.confidence, p.raised),
       life := Overlay(a.life, p.life))
  }

  function Join(p: Patch, q: Patch): Patch {
    Patch(Later(p.status, q.status), Max(p.raised, q.raised), Overlay(p.life, q.life))
  }

  /** Does the row make `id` the replacement of what it supersedes? */
  predicate Installs(r: Row, id: string)
    requires r.Lifecycle?
  {
    r.action.Supersede? && r.replacement != "" && r.replacement == id
  }

  function TargetPatch(r: Row): Patch
    requires r.Lifecycle?
  {
    var reason := if Strip(r.reason) == "" then None else Some(Strip(r.reason));
    var life := NO_LIFE.(reason := reason, provenance := Some(Provenance(r.provenance)));
    match r.action
    case Retract => Patch(Some("retracted"), None, life.(retractedAt := Some(r.at)))
    case Reaffirm => Patch(Some("active"), r.confidence, life.(reaffirmedAt := Some(r.at)))
    case Supersede =>
      Patch(Some("superseded"), None,
            life.(supersededAt := Some(r.at), supersededBy := if r.replacement == "" then None
                else Some(r.replacement)))
    case Other => NO_PATCH
  }

  function ReplacementPatch(r: Row): Patch
    requires r.Lifecycle?
  {
    Patch(Some("active"), None, NO_LIFE.(supersedes := Some(r.target)))
  }

  /** What the row does to association `id`; a row may name one id in both roles. */
  function Effect(r: Row, id: string): Patch
    requires r.Lifecycle?
  {
    Join(if r.target == id then TargetPatch(r) else NO_PATCH,
         if Installs(r, id) then ReplacementPatch(r) else NO_PATCH)
  }

  /** The checks merge makes before it lets a lifecycle row act. */
  predicate Applies(I: Index, s: string, r: Row)
    requires r.Lifecycle?
  {
    && r.target != "" && !r.action.Other?
    && r.target in I.assocs && I.InScope(s, I.assocs[r.target])
    && (r.action.Supersede? && r.replacement != "" ==>
          r.replacement in I.assocs && I.InScope(s, I.assocs[r.replacement]))
  }

  ghost function Each(m: map<string, Assoc>, f: (string, Assoc) -> Assoc): map<string, Assoc> {
    map k | k in m :: f(k, m[k])
  }

  /** Patches every association, each by its id. */
  ghost function PatchAll(I: Index, patch: string -> Patch): Index {
    I.(assocs := Each(I.assocs, (k, a) => Patched(a, patch(k))))
  }

  // ---------------------------------------------------------------- merge

  predicate ModelPrecedes(relationship: string, provenance: string) {
    relationship == "precedes" && Provenance(provenance) == "model_inferred"
  }

  /** The record merge lands for a queued one, or None when it quarantines or skips it. */
  function Landing(cfg: Config, I: Index, r: Record): Option<Record> {
    if r.source == "" || r.target == "" || Strip(r.relationship) == "" then None
    else if ModelPrecedes(Strip(r.relationship), r.provenance) then None
    else
      var v := Validate(cfg.relations, cfg.mode, Requeue(r));
      if v.Ok() && v.record.source in I.beads && v.record.target in I.beads then Some(v.record) else None
  }

  ghost predicate Stored(I: Index, key: Triple) {
    exists k :: k in I.assocs && I.assocs[k].StoredKey() == key
  }

  function NewAssoc(id: string, r: Record, at: int): Assoc {
    Assoc(id, r.source, "", r.target, "", r.relationship, r.relationshipRaw, r.provenance,
          "active", r.confidence, at, NO_LIFE)
  }

  function Marked(b: Bead, at: int): Bead {
    b.(marked := true, markedAt := at, scope := "rolling_continuity")
  }

  /** The first promotion of a bead marks it; later ones leave the stamp alone. */
  function Promote(I: Index, b: string, at: int): Index {
    if b in I.beads && !I.beads[b].marked then I.(beads := I.beads[b := Marked(I.beads[b], at)]) else I
  }

  /** Appends an association unless one with the same triple is stored, whatever its status. */
  ghost function Land(I: Index, id: string, r: Record, at: int): Index {
    if Stored(I, TripleOf(r)) then I else I.(assocs := I.assocs[id := NewAssoc(id, r, at)])
  }

  /** One row of the log, replayed for session s. */
  ghost function Step(cfg: Config, s: string, I: Index, r: Row): Index {
    match r
    case Promotion(b, at) =>
      Promote(I, b, at)
    case Append(id, rec, at) =>
      var landing := Landing(cfg, I, rec);
      if landing.Some? then Land(I, id, landing.value, at) else I
    case Lifecycle(_, _, _, _, _, _, _) =>
      if Applies(I, s, r) then PatchAll(I, k => Effect(r, k)) else I
    case Diagnostic => I
  }

  ghost function Replay(cfg: Config, s: string, I: Index, rows: seq<Row>): Index
    decreases rows
  {
    if rows == [] then I else Replay(cfg, s, Step(cfg, s, I, rows[0]), rows[1..])
  }

  function WithStatus(a: Assoc): Assoc {
    if Strip(a.status) == "" then a.(status := "active") else a
  }

  /** Merge ends by giving every association without a status the status active. */
  ghost function Settle(I: Index): Index {
    I.(assocs := Each(I.assocs, (k, a) => WithStatus(a)))
  }

  /** The index after a merge of `rows`; an empty log returns early. */
  ghost function Merged(cfg: Config, s: string, I: Index, rows: seq<Row>): Index {
    if rows == [] then I else Settle(Replay(cfg, s, I, rows))
  }

  // ---------------------------------------------------------------- enqueue

  datatype Authored = Authored(payload: Payload, id: string)

  datatype LifeRequest = LifeRequest(
    target: string, action: Action, replacement: string, reason: string,
    confidence: Option<real>, provenance: string)

  /** One normalised update payload with what the call reads from its surroundings: the
      session's own beads, the visible beads, and the ids and instant it stamps rows with. */
  datatype Batch = Batch(
    promotions: seq<string>, assocs: seq<Authored>, lifecycle: seq<LifeRequest>,
    diagnostics: nat, surface: set<string>, visible: set<string>, historical: bool, now: int)
  {
    function Allowed(): set<string> {
      if historical || visible == {} then surface else visible
    }

    function Ids(): set<string> {
      set x | x in assocs :: x.id
    }
  }

  ghost function EffectiveKeys(I: Index): set<Triple> {
    set k | k in I.assocs :: I.assocs[k].EffectiveKey()
  }

  function DedupeKey(r: Record): Triple {
    (Strip(r.source), Strip(r.target), Norm(r.relationship))
  }

  predicate Promotable(I: Index, s: string, b: Batch, bead: string) {
    I.Owns(s, bead) && bead in b.surface
  }

  function QueuedPromotions(I: Index, s: string, b: Batch, beads: seq<string>): seq<Row> {
    if beads == [] then []
    else When(Promotable(I, s, b, beads[0]), Promotion(beads[0], b.now))
         + QueuedPromotions(I, s, b, beads[1..])
  }

  /** The row an authored association would be queued as, unless it is quarantined or out of
      the session's reach. */
  function Candidate(cfg: Config, I: Index, s: string, b: Batch, x: Authored): Option<Row> {
    var p := x.payload;
    if Strip(p.relationship) == "" || ModelPrecedes(Norm(p.relationship), p.provenance) then None
    else
      var v := Validate(cfg.relations, cfg.mode, p);
      var r := v.record;
      if v.Ok() && I.Owns(s, r.source) && r.target in I.beads && r.source in b.surface && r.target in b.Allowed()
      then Some(Append(x.id, r, b.now))
      else None
  }

  function Candidates(cfg: Config, I: Index, s: string, b: Batch, xs: seq<Authored>): seq<Row> {
    if xs == [] then []
    else
      var row := Candidate(cfg, I, s, b, xs[0]);
      (if row.Some? then [row.value] else []) + Candidates(cfg, I, s, b, xs[1..])
  }

  /** Drops appends whose key is already known, in the index or earlier in this call. */
  function Deduped(rows: seq<Row>, seen: set<Triple>): seq<Row> {
    if rows == [] then []
    else if !rows[0].Append? then Deduped(rows[1..], seen)
    else
      var key := DedupeKey(rows[0].record);
      if key in seen then Deduped(rows[1..], seen) else [rows[0]] + Deduped(rows[1..], seen + {key})
  }

  predicate Requestable(I: Index, s: string, b: Batch, q: LifeRequest) {
    && q.target != "" && !q.action.Other?
    && q.target in I.assocs
    && I.Owns(s, I.assocs[q.target].Src()) && I.Owns(s, I.assocs[q.target].Tgt())
    && I.assocs[q.target].Src() in b.surface && I.assocs[q.target].Tgt() in b.Allowed()
    && (q.action.Supersede? && q.replacement != "" ==>
          && q.replacement in I.assocs
          && I.Owns(s, I.assocs[q.replacement].Src()) && I.Owns(s, I.assocs[q.replacement].Tgt()))
  }

  function LifecycleRow(q: LifeRequest, now: int): Row {
    Lifecycle(q.target, q.action, q.replacement, q.reason, q.confidence, q.provenance, now)
  }

  function QueuedLifecycle(I: Index, s: string, b: Batch, qs: seq<LifeRequest>): seq<Row> {
    if qs == [] then []
    else When(Requestable(I, s, b, qs[0]), LifecycleRow(qs[0], b.now)) + QueuedLifecycle(I, s, b, qs[1..])
  }

  function Diagnostics(n: nat): seq<Row> {
    seq(n, i => Diagnostic)
  }

  /** Everything one call of apply appends to the session's log. */
  ghost function Queued(cfg: Config, I: Index, s: string, b: Batch): seq<Row> {
    Diagnostics(b.diagnostics)
    + QueuedPromotions(I, s, b, b.promotions)
    + Deduped(Candidates(cfg, I, s, b, b.assocs), EffectiveKeys(I))
    + QueuedLifecycle(I, s, b, b.lifecycle)
  }
}
