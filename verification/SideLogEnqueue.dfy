/** What apply queues is what merge expects: every row it writes is good. */
module SideLogEnqueue {
  import opened Options
  import opened Inference
  import opened SideLog
  import opened SideLogLaws
  import opened SideLogReplay

  /** The ids a call stamps its rows with are new and pairwise distinct. */
  ghost predicate FreshIds(b: Batch, taken: set<string>) {
    && b.Ids() !! taken
    && forall i, j :: 0 <= i < j < |b.assocs| ==> b.assocs[i].id != b.assocs[j].id
  }

  lemma DedupeKeyIsTriple(cfg: Config, r: Record)
    requires cfg.relations.Valid() && WellShaped(cfg.relations, r)
    ensures DedupeKey(r) == TripleOf(r)
  {
  }

  /** A candidate is good but for deduplication, which needs its key to be new. */
  lemma CandidateOk(cfg: Config, I: Index, s: string, b: Batch, x: Authored)
    requires cfg.relations.Valid() && x.id !in I.assocs
    requires Candidate(cfg, I, s, b, x).Some?
    ensures var row := Candidate(cfg, I, s, b, x).value;
      && row.Append? && row.id == x.id && WellFormed(cfg, row)
      && DedupeKey(row.record) == TripleOf(row.record)
      && (DedupeKey(row.record) !in EffectiveKeys(I) ==> RowOk(I, s, row))
  {
    var r := Validate(cfg.relations, cfg.mode, x.payload).record;
    AcceptedIsWellShaped(cfg.relations, cfg.mode, x.payload);
    DedupeKeyIsTriple(cfg, r);
    assert forall k :: k in I.assocs ==> I.assocs[k].EffectiveKey() in EffectiveKeys(I);
  }

  /** What holds of every candidate. */
  ghost predicate CandidateRow(cfg: Config, I: Index, s: string, ids: set<string>, row: Row) {
    && row.Append? && row.id in ids && row.id !in I.assocs && WellFormed(cfg, row)
    && DedupeKey(row.record) == TripleOf(row.record)
    && (DedupeKey(row.record) !in EffectiveKeys(I) ==> RowOk(I, s, row))
  }

  ghost predicate DistinctAppends(rows: seq<Row>) {
    forall i, j :: 0 <= i < j < |rows| && rows[i].Append? && rows[j].Append? ==> rows[i].id != rows[j].id
  }

  lemma {:induction false} CandidatesFrom(cfg: Config, I: Index, s: string, b: Batch, xs: seq<Authored>, row: Row)
    requires row in Candidates(cfg, I, s, b, xs)
    ensures exists x :: x in xs && Candidate(cfg, I, s, b, x) == Some(row)
  {
    if Candidate(cfg, I, s, b, xs[0]) == Some(row) {
      assert xs[0] in xs;
    } else {
      CandidatesFrom(cfg, I, s, b, xs[1..], row);
    }
  }

  lemma {:induction false} CandidatesDistinct(cfg: Config, I: Index, s: string, b: Batch, xs: seq<Authored>)
    requires forall i, j :: 0 <= i < j < |xs| ==> xs[i].id != xs[j].id
    ensures DistinctAppends(Candidates(cfg, I, s, b, xs))
  {
    if xs != [] {
      var rest := Candidates(cfg, I, s, b, xs[1..]);
      CandidatesDistinct(cfg, I, s, b, xs[1..]);
      forall row | row in rest
        ensures row.Append? && row.id != xs[0].id
      {
        CandidatesFrom(cfg, I, s, b, xs[1..], row);
      }
    }
  }

  lemma CandidatesOk(cfg: Config, I: Index, s: string, b: Batch, row: Row)
    requires cfg.relations.Valid() && FreshIds(b, I.assocs.Keys)
    requires row in Candidates(cfg, I, s, b, b.assocs)
    ensures CandidateRow(cfg, I, s, b.Ids(), row)
  {
    CandidatesFrom(cfg, I, s, b, b.assocs, row);
    var x :| x in b.assocs && Candidate(cfg, I, s, b, x) == Some(row);
    assert x.id in b.Ids();
    CandidateOk(cfg, I, s, b, x);
  }

  /** Good, well-formed rows whose append ids are pairwise distinct and drawn from `ids`. */
  ghost predicate RowsOk(cfg: Config, I: Index, s: string, rows: seq<Row>, ids: set<string>) {
    && LogOk(I, s, rows)
    && (forall r :: r in rows ==> WellFormed(cfg, r))
    && (forall r :: r in rows && r.Append? ==> r.id in ids)
  }

  lemma OkConcat(cfg: Config, I: Index, s: string, rows: seq<Row>, ids: set<string>, more: seq<Row>, ids': set<string>)
    requires RowsOk(cfg, I, s, rows, ids) && RowsOk(cfg, I, s, more, ids') && ids !! ids'
    ensures RowsOk(cfg, I, s, rows + more, ids + ids')
  {
  }

  lemma {:induction false} DedupedOk(cfg: Config, I: Index, s: string, rows: seq<Row>, seen: set<Triple>,
      ids: set<string>)
    requires EffectiveKeys(I) <= seen
    requires forall row :: row in rows ==> CandidateRow(cfg, I, s, ids, row)
    requires DistinctAppends(rows)
    ensures forall row :: row in Deduped(rows, seen) ==> row in rows && RowOk(I, s, row)
    ensures DistinctAppends(Deduped(rows, seen))
    decreases rows
  {
    if rows != [] {
      assert rows[0] in rows;
      var key := DedupeKey(rows[0].record);
      if key in seen {
        DedupedOk(cfg, I, s, rows[1..], seen, ids);
      } else {
        DedupedOk(cfg, I, s, rows[1..], seen + {key}, ids);
        var rest := Deduped(rows[1..], seen + {key});
        forall j | 0 <= j < |rest|
          ensures rest[j].Append? ==> rest[j].id != rows[0].id
        {
          assert rest[j] in rows[1..];
        }
      }
    }
  }

  lemma {:induction false} QueuedPromotionsOk(I: Index, s: string, b: Batch, beads: seq<string>)
    ensures forall r :: r in QueuedPromotions(I, s, b, beads) ==> r.Promotion? && RowOk(I, s, r)
  {
    if beads != [] { QueuedPromotionsOk(I, s, b, beads[1..]); }
  }

  lemma {:induction false} QueuedLifecycleOk(I: Index, s: string, b: Batch, qs: seq<LifeRequest>)
    requires I.Valid()
    ensures forall r :: r in QueuedLifecycle(I, s, b, qs) ==> r.Lifecycle? && RowOk(I, s, r)
  {
    if qs != [] { QueuedLifecycleOk(I, s, b, qs[1..]); }
  }

  lemma NoAppendsOk(cfg: Config, I: Index, s: string, rows: seq<Row>)
    requires forall r :: r in rows ==> !r.Append? && RowOk(I, s, r)
    ensures RowsOk(cfg, I, s, rows, {})
  {
  }

  lemma AppendsOk(cfg: Config, I: Index, s: string, b: Batch)
    requires cfg.relations.Valid() && FreshIds(b, I.assocs.Keys)
    ensures RowsOk(cfg, I, s, Deduped(Candidates(cfg, I, s, b, b.assocs), EffectiveKeys(I)), b.Ids())
  {
    var rows := Candidates(cfg, I, s, b, b.assocs);
    forall row | row in rows { CandidatesOk(cfg, I, s, b, row); }
    CandidatesDistinct(cfg, I, s, b, b.assocs);
    DedupedOk(cfg, I, s, rows, EffectiveKeys(I), b.Ids());
    var kept := Deduped(rows, EffectiveKeys(I));
    forall i | 0 <= i < |kept|
      ensures RowOk(I, s, kept[i])
    {
      assert kept[i] in kept;
    }
  }

  lemma QueuedOk(cfg: Config, I: Index, s: string, b: Batch)
    requires cfg.relations.Valid() && I.Valid() && FreshIds(b, I.assocs.Keys)
    ensures RowsOk(cfg, I, s, Queued(cfg, I, s, b), b.Ids())
  {
    var diagnostics := Diagnostics(b.diagnostics);
    var promotions := QueuedPromotions(I, s, b, b.promotions);
    var appends := Deduped(Candidates(cfg, I, s, b, b.assocs), EffectiveKeys(I));
    var lifecycle := QueuedLifecycle(I, s, b, b.lifecycle);
    NoAppendsOk(cfg, I, s, diagnostics);
    QueuedPromotionsOk(I, s, b, b.promotions);
    NoAppendsOk(cfg, I, s, promotions);
    AppendsOk(cfg, I, s, b);
    QueuedLifecycleOk(I, s, b, b.lifecycle);
    NoAppendsOk(cfg, I, s, lifecycle);
    OkConcat(cfg, I, s, diagnostics, {}, promotions, {});
    OkConcat(cfg, I, s, diagnostics + promotions, {} + {}, appends, b.Ids());
    OkConcat(cfg, I, s, diagnostics + promotions + appends, {} + {} + b.Ids(), lifecycle, {});
    assert {} + {} + b.Ids() + {} == b.Ids();
  }
}
