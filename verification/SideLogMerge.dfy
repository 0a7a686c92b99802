/** What a merge adds: which queued associations land, and which stamp a promoted bead keeps. */
module SideLogMerge {
  import opened Inference
  import opened SideLog
  import opened Patches
  import opened SideLogLaws
  import opened SideLogReplay
  import opened SideLogCommute
  import opened SideLogRuns

  /** Does the row append an association that merge does not ban? */
  predicate Appends(r: Row) {
    r.Append? && !ModelPrecedes(r.record.relationship, r.record.provenance)
  }

  /** Row i is the first to append its triple, and the index does not hold it. */
  ghost predicate Lands(I: Index, rows: seq<Row>, i: nat) {
    && i < |rows| && Appends(rows[i]) && !Stored(I, TripleOf(rows[i].record))
    && forall j :: 0 <= j < i && Appends(rows[j]) ==> TripleOf(rows[j].record) != TripleOf(rows[i].record)
  }

  lemma StoredAfterAct(s: string, I: Index, r: Row, key: Triple)
    requires I.Valid() && RowOk(I, s, r)
    ensures Stored(Act(s, I, r), key) <==> Stored(I, key) || (Appends(r) && TripleOf(r.record) == key)
  {
    hide ModelPrecedes, Effect;
    if r.Lifecycle? {
      StoredUnderPatch(I, k => Effect(r, k), key);
    } else if Appends(r) {
      assert TripleOf(Requeued(r.record)) == TripleOf(r.record);
      assert r.id in I.assocs ==> Stored(I, TripleOf(r.record));
      LandStored(I, r.id, Requeued(r.record), r.at, key);
    }
  }

  function Landed(r: Row): Assoc
    requires r.Append?
  {
    NewAssoc(r.id, Requeued(r.record), r.at)
  }

  /** Once landed it is left as it is: no other row of a good log names it. */
  lemma LandedStays(s: string, I: Index, rows: seq<Row>)
    requires I.Valid() && LogOk(I, s, rows) && Lands(I, rows, 0)
    ensures rows[0].id in Acts(s, I, rows).assocs && Acts(s, I, rows).assocs[rows[0].id] == Landed(rows[0])
  {
    hide ModelPrecedes, Landed;
    var r, C := rows[0], Act(s, I, rows[0]);
    TailOk(s, I, rows);
    IsNew(s, I, r);
    ActLands(s, I, r);
    ActsPatch(s, C, rows[1..], r.id);
    forall j | 0 <= j < |rows[1..]|
      ensures !Names(rows[1..][j], r.id)
    {
      assert RowOk(I, s, rows[j + 1]);
    }
    NobodyWrites(rows[1..], r.id);
    NoPatchIsIdentity(Landed(r));
  }

  lemma IsNew(s: string, I: Index, r: Row)
    requires r.Append? && RowOk(I, s, r) && !Stored(I, TripleOf(r.record))
    ensures r.id !in I.assocs
  {
  }

  lemma ActLands(s: string, I: Index, r: Row)
    requires Appends(r) && !Stored(I, TripleOf(r.record))
    ensures r.id in Act(s, I, r).assocs && Act(s, I, r).assocs[r.id] == Landed(r)
  {
    assert TripleOf(Requeued(r.record)) == TripleOf(r.record);
  }

  lemma {:induction false} ActsLand(s: string, I: Index, rows: seq<Row>, i: nat)
    requires I.Valid() && LogOk(I, s, rows) && Lands(I, rows, i)
    ensures rows[i].id in Acts(s, I, rows).assocs && Acts(s, I, rows).assocs[rows[i].id] == Landed(rows[i])
    decreases rows
  {
    hide ModelPrecedes, Stored, Landed, RowOk, Act;
    TailOk(s, I, rows);
    if i == 0 {
      LandedStays(s, I, rows);
    } else {
      StoredAfterAct(s, I, rows[0], TripleOf(rows[i].record));
      assert forall j :: 0 <= j < i - 1 ==> rows[1..][j] == rows[j + 1];
      ActsLand(s, Act(s, I, rows[0]), rows[1..], i - 1);
    }
  }

  lemma ActAddsOnly(s: string, I: Index, r: Row, k: string)
    requires k in Act(s, I, r).assocs && k !in I.assocs
    ensures Appends(r) && r.id == k && !Stored(I, TripleOf(r.record))
  {
  }

  lemma {:induction false} ActsAddOnlyLanded(s: string, I: Index, rows: seq<Row>, k: string) returns (i: nat)
    requires I.Valid() && LogOk(I, s, rows) && k in Acts(s, I, rows).assocs && k !in I.assocs
    ensures Lands(I, rows, i) && rows[i].id == k
    decreases rows
  {
    hide ModelPrecedes, Stored, RowOk, Act;
    if rows == [] {
      assert false;
    } else {
      var C := Act(s, I, rows[0]);
      TailOk(s, I, rows);
      if k in C.assocs {
        ActAddsOnly(s, I, rows[0], k);
        i := 0;
      } else {
        var n := ActsAddOnlyLanded(s, C, rows[1..], k);
        i := n + 1;
        StoredAfterAct(s, I, rows[0], TripleOf(rows[i].record));
        forall j | 0 <= j < i && Appends(rows[j])
          ensures TripleOf(rows[j].record) != TripleOf(rows[i].record)
        {
          if j > 0 { assert rows[1..][j - 1] == rows[j]; }
        }
      }
    }
  }

  /** A merge adds exactly the associations of the first good append of every triple the index did
      not hold, each exactly as it was queued and active. */
  lemma MergeAddsExactly(cfg: Config, st: State, s: string)
    requires Inv(cfg, st)
    ensures var rows := st.Log(s);
      var J := Merged(cfg, s, st.index, rows);
      && (forall i: nat :: Lands(st.index, rows, i) ==>
            && rows[i].id in J.assocs
            && J.assocs[rows[i].id] == NewAssoc(rows[i].id, Requeued(rows[i].record), rows[i].at))
      && (forall k :: k in J.assocs && k !in st.index.assocs ==>
            exists i: nat :: Lands(st.index, rows, i) && rows[i].id == k)
  {
    hide Lands, Inv, NewAssoc;
    var rows := st.Log(s);
    var D := Acts(s, st.index, rows);
    var J := Merged(cfg, s, st.index, rows);
    MergedIs(cfg, st, s);
    IndexIsValid(cfg, st);
    ActsExtend(s, st.index, rows);
    SettleExtends(D);
    forall i: nat | Lands(st.index, rows, i)
      ensures i < |rows| && rows[i].Append? && rows[i].id in J.assocs
      ensures J.assocs[rows[i].id] == NewAssoc(rows[i].id, Requeued(rows[i].record), rows[i].at)
    {
      LandedIsAppend(st.index, rows, i);
      ActsLand(s, st.index, rows, i);
      ActiveStays(rows[i].id, Requeued(rows[i].record), rows[i].at);
    }
    forall k | k in J.assocs && k !in st.index.assocs
      ensures exists i: nat :: Lands(st.index, rows, i) && rows[i].id == k
    {
      var i := ActsAddOnlyLanded(s, st.index, rows, k);
    }
  }

  lemma LandedIsAppend(I: Index, rows: seq<Row>, i: nat)
    requires Lands(I, rows, i)
    ensures i < |rows| && rows[i].Append?
  {
  }

  lemma IndexIsValid(cfg: Config, st: State)
    requires Inv(cfg, st)
    ensures st.index.Valid()
  {
  }

  // ---------------------------------------------------------------- promotions

  predicate Promotes(r: Row, b: string) {
    r.Promotion? && r.bead == b
  }

  lemma ActBead(s: string, I: Index, r: Row, b: string)
    requires b in I.beads
    ensures b in Act(s, I, r).beads
    ensures Act(s, I, r).beads[b] == if Promotes(r, b)
        && !I.beads[b].marked then Marked(I.beads[b], r.at) else I.beads[b]
  {
  }

  lemma {:induction false} UnpromotedStays(s: string, I: Index, rows: seq<Row>, b: string)
    requires b in I.beads && (I.beads[b].marked || forall r :: r in rows ==> !Promotes(r, b))
    ensures b in Acts(s, I, rows).beads && Acts(s, I, rows).beads[b] == I.beads[b]
    decreases rows
  {
    hide Act, Promotes;
    if rows != [] {
      assert rows[0] in rows;
      ActBead(s, I, rows[0], b);
      UnpromotedStays(s, Act(s, I, rows[0]), rows[1..], b);
    }
  }

  lemma {:induction false} FirstStampStays(s: string, I: Index, rows: seq<Row>, i: nat, b: string)
    requires b in I.beads && !I.beads[b].marked && i < |rows| && Promotes(rows[i], b)
    requires forall j :: 0 <= j < i ==> !Promotes(rows[j], b)
    ensures b in Acts(s, I, rows).beads && Acts(s, I, rows).beads[b] == Marked(I.beads[b], rows[i].at)
    decreases rows
  {
    hide Act;
    ActBead(s, I, rows[0], b);
    if i == 0 {
      UnpromotedStays(s, Act(s, I, rows[0]), rows[1..], b);
    } else {
      FirstStampStays(s, Act(s, I, rows[0]), rows[1..], i - 1, b);
    }
  }

  /** A bead that was marked before, or that no queued promotion names, is as it was. */
  lemma MergeLeavesBead(cfg: Config, st: State, s: string, b: string)
    requires Inv(cfg, st) && b in st.index.beads
    requires st.index.beads[b].marked || forall r :: r in st.Log(s) ==> !Promotes(r, b)
    ensures var J := Merged(cfg, s, st.index, st.Log(s));
      b in J.beads && J.beads[b] == st.index.beads[b]
  {
    hide Inv, Promotes;
    MergedIs(cfg, st, s);
    UnpromotedStays(s, st.index, st.Log(s), b);
  }

  /** Any other is marked with the stamp of the first promotion queued for it. */
  lemma MergeStampsFirst(cfg: Config, st: State, s: string, b: string, i: nat)
    requires Inv(cfg, st) && b in st.index.beads && !st.index.beads[b].marked
    requires i < |st.Log(s)| && Promotes(st.Log(s)[i], b) && forall j :: 0 <= j < i ==> !Promotes(st.Log(s)[j], b)
    ensures var J := Merged(cfg, s, st.index, st.Log(s));
      b in J.beads && J.beads[b] == Marked(st.index.beads[b], st.Log(s)[i].at)
  {
    hide Inv;
    MergedIs(cfg, st, s);
    FirstStampStays(s, st.index, st.Log(s), i, b);
  }

  // ---------------------------------------------------------------- enqueue

  lemma {:induction false} DedupedKeepsKeys(rows: seq<Row>, seen: set<Triple>, row: Row)
    requires row in rows && row.Append?
    ensures
      || DedupeKey(row.record) in seen
      || exists r :: r in Deduped(rows, seen) && r.Append? && DedupeKey(r.record) == DedupeKey(row.record)
    decreases rows
  {
    hide DedupeKey;
    if rows[0].Append? && DedupeKey(rows[0].record) !in seen {
      var more := seen + {DedupeKey(rows[0].record)};
      assert Deduped(rows, seen) == [rows[0]] + Deduped(rows[1..], more);
      assert rows[0] in Deduped(rows, seen);
      if row in rows[1..] {
        DedupedKeepsKeys(rows[1..], more, row);
        assert forall r :: r in Deduped(rows[1..], more) ==> r in Deduped(rows, seen);
      }
    } else if row in rows[1..] {
      DedupedKeepsKeys(rows[1..], seen, row);
    }
  }

  lemma {:induction false} CandidatesHave(cfg: Config, I: Index, s: string, b: Batch, xs: seq<Authored>, x: Authored)
    requires x in xs && Candidate(cfg, I, s, b, x).Some?
    ensures Candidate(cfg, I, s, b, x).value in Candidates(cfg, I, s, b, xs)
    ensures Candidate(cfg, I, s, b, x).value.Append?
  {
    hide Validate;
    if xs[0] != x { CandidatesHave(cfg, I, s, b, xs[1..], x); }
  }

  /** Nothing acceptable is dropped: the key of every acceptable association is in the index, or
      queued by this call. */
  lemma EnqueueComplete(cfg: Config, I: Index, s: string, b: Batch, x: Authored)
    requires x in b.assocs && Candidate(cfg, I, s, b, x).Some?
    ensures Candidate(cfg, I, s, b, x).value.Append?
    ensures var key := DedupeKey(Candidate(cfg, I, s, b, x).value.record);
      key in EffectiveKeys(I) || exists r :: r in Queued(cfg, I, s, b) && r.Append? && DedupeKey(r.record) == key
  {
    hide Candidate, DedupeKey, EffectiveKeys;
    CandidatesHave(cfg, I, s, b, b.assocs, x);
    var rows := Candidates(cfg, I, s, b, b.assocs);
    DedupedKeepsKeys(rows, EffectiveKeys(I), Candidate(cfg, I, s, b, x).value);
    assert forall r :: r in Deduped(rows, EffectiveKeys(I)) ==> r in Queued(cfg, I, s, b);
  }
}
