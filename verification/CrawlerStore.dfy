/** The store as the source keeps it: an association list edited in place, a bead table and one
    log per session. Its methods are the source's loops; each is tied to one transition of
    SideLogRuns. */
module CrawlerStore {
  import opened Options
  import opened Text
  import opened Inference
  import opened Sorting
  import opened SideLog
  import opened SideLogLaws
  import opened SideLogReplay
  import opened SideLogEnqueue
  import opened SideLogRuns

  ghost predicate DistinctIds(xs: seq<Assoc>) {
    forall i, j :: 0 <= i < j < |xs| ==> xs[i].id != xs[j].id
  }

  ghost function ById(xs: seq<Assoc>): map<string, Assoc>
    requires DistinctIds(xs)
  {
    map i | 0 <= i < |xs| :: xs[i].id := xs[i]
  }

  function SortKey(a: Assoc): Key {
    Key(a.createdAt, a.id)
  }

  lemma ByIdHas(xs: seq<Assoc>, a: Assoc)
    requires DistinctIds(xs)
    ensures a in xs <==> a.id in ById(xs) && ById(xs)[a.id] == a
  {
  }

  /** The list merge writes is determined by the associations it holds. */
  lemma ListIsCanonical(xs: seq<Assoc>, ys: seq<Assoc>)
    requires DistinctIds(xs) && DistinctIds(ys) && ById(xs) == ById(ys)
    requires SortedBy(xs, SortKey) && SortedBy(ys, SortKey)
    ensures xs == ys
  {
    forall a | a in xs
      ensures a in ys
    {
      ByIdHas(xs, a);
      ByIdHas(ys, a);
    }
    forall a | a in ys
      ensures a in xs
    {
      ByIdHas(xs, a);
      ByIdHas(ys, a);
    }
    SortedIsCanonical(xs, ys, SortKey);
  }

  lemma SortKeepsById(xs: seq<Assoc>)
    requires DistinctIds(xs)
    ensures DistinctIds(Sort(xs, SortKey)) && ById(Sort(xs, SortKey)) == ById(xs)
  {
    var ys := Sort(xs, SortKey);
    assert DistinctIds(ys) by { PermutedDistinct(xs, ys); }
    forall a | a in xs || a in ys
      ensures a in xs && a in ys
    {
      SortHas(xs, SortKey, a);
    }
    forall k | k in ById(xs)
      ensures k in ById(ys) && ById(ys)[k] == ById(xs)[k]
    {
      ByIdHas(xs, ById(xs)[k]);
      ByIdHas(ys, ById(xs)[k]);
    }
    forall k | k in ById(ys)
      ensures k in ById(xs)
    {
      ByIdHas(ys, ById(ys)[k]);
      ByIdHas(xs, ById(ys)[k]);
    }
  }

  lemma PermutedDistinct(xs: seq<Assoc>, ys: seq<Assoc>)
    requires DistinctIds(xs) && multiset(xs) == multiset(ys)
    ensures DistinctIds(ys)
  {
    forall i, j | 0 <= i < j < |ys|
      ensures ys[i].id != ys[j].id
    {
      assert ys[i] in multiset(xs) && ys[j] in multiset(xs);
      if ys[i] == ys[j] {
        CountOfDistinct(xs, ys[i]);
        CountOfRepeated(ys, i, j);
        assert false;
      }
    }
  }

  lemma CountOfRepeated(ys: seq<Assoc>, i: nat, j: nat)
    requires i < j < |ys| && ys[i] == ys[j]
    ensures multiset(ys)[ys[i]] >= 2
  {
    assert ys == ys[..i] + [ys[i]] + ys[i + 1..j] + [ys[j]] + ys[j + 1..];
  }

  lemma {:induction false} CountOfDistinct(xs: seq<Assoc>, a: Assoc)
    requires DistinctIds(xs)
    ensures multiset(xs)[a] <= 1
  {
    if xs != [] {
      CountOfDistinct(xs[1..], a);
      assert xs == [xs[0]] + xs[1..];
    }
  }

  // ---------------------------------------------------------------- enqueue loops

  method PromotionRows(I: Index, s: string, b: Batch) returns (rows: seq<Row>)
    ensures rows == QueuedPromotions(I, s, b, b.promotions)
  {
    rows := [];
    var todo := b.promotions;
    while todo != []
      invariant rows + QueuedPromotions(I, s, b, todo) == QueuedPromotions(I, s, b, b.promotions)
    {
      var bead := todo[0];
      ghost var rest := QueuedPromotions(I, s, b, todo[1..]);
      if bead in I.beads && I.beads[bead].session == s && bead in b.surface {
        assert rows + ([Promotion(bead, b.now)] + rest) == rows + [Promotion(bead, b.now)] + rest;
        rows := rows + [Promotion(bead, b.now)];
      } else {
        assert [] + rest == rest;
      }
      todo := todo[1..];
    }
  }

  lemma CandidatesNext(cfg: Config, I: Index, s: string, b: Batch, xs: seq<Authored>, row: Option<Row>,
      seen: set<Triple>)
    requires xs != [] && row == Candidate(cfg, I, s, b, xs[0])
    ensures row.Some? ==> row.value.Append?
    ensures Deduped(Candidates(cfg, I, s, b, xs), seen) ==
            (var rest := Candidates(cfg, I, s, b, xs[1..]);
             if row.None? || DedupeKey(row.value.record) in seen then Deduped(rest, seen)
             else [row.value] + Deduped(rest, seen + {DedupeKey(row.value.record)}))
  {
    var rest := Candidates(cfg, I, s, b, xs[1..]);
    if row.Some? {
      assert ([row.value] + rest)[1..] == rest;
    } else {
      assert [] + rest == rest;
    }
  }

  method AppendRows(cfg: Config, I: Index, s: string, b: Batch, existing: set<Triple>) returns (rows: seq<Row>)
    ensures rows == Deduped(Candidates(cfg, I, s, b, b.assocs), existing)
  {
    hide Candidate, DedupeKey, Deduped;
    rows := [];
    var queued: set<Triple> := {};
    var todo := b.assocs;
    assert existing + queued == existing;
    assert rows + Deduped(Candidates(cfg, I, s, b, todo), existing)
        == Deduped(Candidates(cfg, I, s, b, todo), existing);
    while todo != []
      invariant rows + Deduped(Candidates(cfg, I, s, b, todo), existing + queued)
                == Deduped(Candidates(cfg, I, s, b, b.assocs), existing)
    {
      var row := Candidate(cfg, I, s, b, todo[0]);
      CandidatesNext(cfg, I, s, b, todo, row, existing + queued);
      if row.Some? {
        var key := DedupeKey(row.value.record);
        if key !in existing && key !in queued {
          ghost var rest := Deduped(Candidates(cfg, I, s, b, todo[1..]), existing + queued + {key});
          assert rows + ([row.value] + rest) == rows + [row.value] + rest;
          assert existing + (queued + {key}) == existing + queued + {key};
          queued := queued + {key};
          rows := rows + [row.value];
        }
      }
      todo := todo[1..];
    }
    NoCandidates(cfg, I, s, b, existing + queued);
  }

  lemma NoCandidates(cfg: Config, I: Index, s: string, b: Batch, seen: set<Triple>)
    ensures Deduped(Candidates(cfg, I, s, b, []), seen) == []
  {
  }

  method LifecycleRows(I: Index, s: string, b: Batch) returns (rows: seq<Row>)
    ensures rows == QueuedLifecycle(I, s, b, b.lifecycle)
  {
    rows := [];
    var todo := b.lifecycle;
    while todo != []
      invariant rows + QueuedLifecycle(I, s, b, todo) == QueuedLifecycle(I, s, b, b.lifecycle)
    {
      ghost var rest := QueuedLifecycle(I, s, b, todo[1..]);
      if Requestable(I, s, b, todo[0]) {
        var row := LifecycleRow(todo[0], b.now);
        assert rows + ([row] + rest) == rows + [row] + rest;
        rows := rows + [row];
      } else {
        assert [] + rest == rest;
      }
      todo := todo[1..];
    }
  }

  lemma ByIdAppend(xs: seq<Assoc>, a: Assoc)
    requires DistinctIds(xs) && forall i :: 0 <= i < |xs| ==> xs[i].id != a.id
    ensures DistinctIds(xs + [a]) && ById(xs + [a]) == ById(xs)[a.id := a]
  {
    var ys := xs + [a];
    forall k | k in ById(xs)[a.id := a]
      ensures k in ById(ys)
    {
      if k == a.id {
        assert ys[|xs|].id == k;
      } else {
        var i :| 0 <= i < |xs| && xs[i].id == k;
        assert ys[i].id == k;
      }
    }
  }

  lemma ByIdUpdate(xs: seq<Assoc>, p: nat, a: Assoc)
    requires DistinctIds(xs) && p < |xs| && a.id == xs[p].id
    ensures DistinctIds(xs[p := a]) && ById(xs[p := a]) == ById(xs)[a.id := a]
  {
    assert forall i :: 0 <= i < |xs| ==> xs[p := a][i].id == xs[i].id;
  }

  ghost function KeysOf(m: map<string, Assoc>): set<Triple> {
    EffectiveKeys(Index(map[], m))
  }

  lemma KeysOfInsert(m: map<string, Assoc>, a: Assoc)
    requires a.id !in m
    ensures KeysOf(m[a.id := a]) == KeysOf(m) + {a.EffectiveKey()}
  {
    var n := m[a.id := a];
    forall key
      ensures key in KeysOf(n) <==> key in KeysOf(m) + {a.EffectiveKey()}
    {
      KeysOfHas(n, key);
      KeysOfHas(m, key);
      assert n[a.id] == a;
      assert forall k :: k in m ==> n[k] == m[k];
    }
  }

  lemma KeysOfHas(m: map<string, Assoc>, key: Triple)
    ensures key in KeysOf(m) <==> exists k :: k in m && m[k].EffectiveKey() == key
  {
  }

  /** A key with all its parts; the source's table holds no other. */
  predicate Full(key: Triple) {
    key.0 != "" && key.1 != "" && key.2 != ""
  }

  ghost function FullKeys(m: map<string, Assoc>): set<Triple> {
    set k | k in KeysOf(m) && Full(k)
  }

  lemma FullKeysInsert(m: map<string, Assoc>, a: Assoc)
    requires a.id !in m
    ensures FullKeys(m[a.id := a]) == FullKeys(m) + if Full(a.EffectiveKey()) then {a.EffectiveKey()} else {}
  {
    hide Full, KeysOf;
    KeysOfInsert(m, a);
  }

  lemma NoKeys()
    ensures FullKeys(map[]) == {}
  {
  }

  /** The two tables apply builds from the association list. */
  method Tables(xs: seq<Assoc>) returns (byId: map<string, Assoc>, keys: set<Triple>)
    requires DistinctIds(xs)
    ensures byId == ById(xs) && keys == FullKeys(byId)
  {
    hide Norm, Full, FullKeys;
    NoKeys();
    byId, keys := map[], {};
    var i := 0;
    while i < |xs|
      invariant 0 <= i <= |xs|
      invariant byId == ById(xs[..i]) && keys == FullKeys(byId)
    {
      var a := xs[i];
      assert xs[..i + 1] == xs[..i] + [a];
      ByIdAppend(xs[..i], a);
      FullKeysInsert(byId, a);
      byId := byId[a.id := a];
      if Full(a.EffectiveKey()) {
        keys := keys + {a.EffectiveKey()};
      }
      i := i + 1;
    }
    assert xs[..|xs|] == xs;
  }

  lemma CandidateKeyIsFull(cfg: Config, I: Index, s: string, b: Batch, x: Authored)
    requires cfg.relations.Valid() && Candidate(cfg, I, s, b, x).Some?
    ensures Candidate(cfg, I, s, b, x).value.Append? && Full(DedupeKey(Candidate(cfg, I, s, b, x).value.record))
  {
    AcceptedIsWellShaped(cfg.relations, cfg.mode, x.payload);
  }

  lemma {:induction false} CandidateKeysAreFull(cfg: Config, I: Index, s: string, b: Batch, xs: seq<Authored>)
    requires cfg.relations.Valid()
    ensures forall r <- Candidates(cfg, I, s, b, xs) :: r.Append? && Full(DedupeKey(r.record))
  {
    hide Candidate, DedupeKey, Full;
    if xs != [] {
      if Candidate(cfg, I, s, b, xs[0]).Some? { CandidateKeyIsFull(cfg, I, s, b, xs[0]); }
      CandidateKeysAreFull(cfg, I, s, b, xs[1..]);
    }
  }

  /** Deduplicating full keys, a table without the others does as well. */
  lemma {:induction false} DedupedNeedsFullOnly(rows: seq<Row>, seen: set<Triple>, full: set<Triple>)
    requires forall r <- rows :: r.Append? && Full(DedupeKey(r.record))
    requires forall k :: Full(k) ==> (k in seen <==> k in full)
    ensures Deduped(rows, seen) == Deduped(rows, full)
    decreases rows
  {
    hide DedupeKey, Full;
    if rows != [] {
      assert rows[0] in rows && forall r <- rows[1..] :: r in rows;
      var key := DedupeKey(rows[0].record);
      if key in seen {
        DedupedNeedsFullOnly(rows[1..], seen, full);
      } else {
        DedupedNeedsFullOnly(rows[1..], seen + {key}, full + {key});
      }
    }
  }

  // ---------------------------------------------------------------- merge loop

  /** Where each id sits in the list; the source holds references instead. */
  ghost predicate Located(xs: seq<Assoc>, at: map<string, nat>) {
    && (forall k :: k in at ==> at[k] < |xs| && xs[at[k]].id == k)
    && (forall i :: 0 <= i < |xs| && xs[i].id != "" ==> xs[i].id in at)
  }

  lemma LocatedMeansIndexed(xs: seq<Assoc>, at: map<string, nat>, k: string)
    requires DistinctIds(xs) && Located(xs, at) && k != ""
    ensures k in at <==> k in ById(xs)
    ensures k in at ==> ById(xs)[k] == xs[at[k]]
  {
  }

  lemma EffectInSteps(a: Assoc, r: Row, k: string)
    requires r.Lifecycle?
    ensures var b := if r.target == k then Patched(a, TargetPatch(r)) else a;
      Patched(a, Effect(r, k)) == if Installs(r, k) then Patched(b, ReplacementPatch(r)) else b
  {
  }

  /** The association table after editing the target and then the replacement, if any. */
  ghost function Edited(m: map<string, Assoc>, r: Row): map<string, Assoc>
    requires r.Lifecycle? && r.target in m && (Installs(r, r.replacement) ==> r.replacement in m)
  {
    var n := m[r.target := Patched(m[r.target], TargetPatch(r))];
    if Installs(r, r.replacement) then n[r.replacement := Patched(n[r.replacement], ReplacementPatch(r))] else n
  }

  lemma EditIsPatchAll(I: Index, r: Row)
    requires r.Lifecycle? && r.target in I.assocs && (Installs(r, r.replacement) ==> r.replacement in I.assocs)
    ensures Edited(I.assocs, r) == PatchAll(I, k => Effect(r, k)).assocs
  {
    hide TargetPatch, ReplacementPatch, Patched;
    var J := PatchAll(I, k => Effect(r, k));
    forall k | k in I.assocs
      ensures Edited(I.assocs, r)[k] == J.assocs[k]
    {
      EffectInSteps(I.assocs[k], r, k);
    }
  }

  /** The fields a lifecycle row sets on its target. */
  method EditTarget(a: Assoc, r: Row) returns (b: Assoc)
    requires r.Lifecycle? && !r.action.Other?
    ensures b == Patched(a, TargetPatch(r))
  {
    b := a.(life := a.life.(provenance := Some(Provenance(r.provenance))));
    if Strip(r.reason) != "" {
      b := b.(life := b.life.(reason := Some(Strip(r.reason))));
    }
    if r.action.Retract? {
      b := b.(status := "retracted", life := b.life.(retractedAt := Some(r.at)));
    } else if r.action.Reaffirm? {
      b := b.(status := "active", life := b.life.(reaffirmedAt := Some(r.at)));
      if r.confidence.Some? {
        b := b.(confidence :=
          if b.confidence.Some? && b.confidence.value >= r.confidence.value then b.confidence else r.confidence);
      }
    } else {
      b := b.(status := "superseded", life := b.life.(supersededAt := Some(r.at)));
      if r.replacement != "" {
        b := b.(life := b.life.(supersededBy := Some(r.replacement)));
      }
    }
  }

  /** The checks of the lifecycle branch, against the position table. */
  method MayEdit(beads: map<string, Bead>, xs: seq<Assoc>, at: map<string, nat>, s: string, r: Row) returns (ok: bool)
    requires DistinctIds(xs) && Located(xs, at) && r.Lifecycle?
    ensures ok <==> Applies(Index(beads, ById(xs)), s, r)
    ensures ok ==> r.target in at && (Installs(r, r.replacement) ==> r.replacement in at)
  {
    var scope := Index(beads, map[]);
    if r.target == "" || r.action.Other? { return false; }
    LocatedMeansIndexed(xs, at, r.target);
    if r.target !in at || !scope.InScope(s, xs[at[r.target]]) { return false; }
    if r.action.Supersede? && r.replacement != "" {
      LocatedMeansIndexed(xs, at, r.replacement);
      if r.replacement !in at || !scope.InScope(s, xs[at[r.replacement]]) { return false; }
    }
    return true;
  }

  lemma PlaceKept(xs: seq<Assoc>, at: map<string, nat>, p: nat, a: Assoc)
    requires DistinctIds(xs) && Located(xs, at) && p < |xs| && a.id == xs[p].id
    ensures Located(xs[p := a], at)
  {
  }

  method PatchTarget(xs: seq<Assoc>, at: map<string, nat>, r: Row) returns (zs: seq<Assoc>)
    requires DistinctIds(xs) && Located(xs, at) && r.Lifecycle? && !r.action.Other? && r.target in at && r.target != ""
    ensures DistinctIds(zs) && Located(zs, at) && |zs| == |xs|
    ensures r.target in ById(xs) && ById(zs) == ById(xs)[r.target := Patched(ById(xs)[r.target], TargetPatch(r))]
  {
    var a := EditTarget(xs[at[r.target]], r);
    PlaceKept(xs, at, at[r.target], a);
    ByIdUpdate(xs, at[r.target], a);
    LocatedMeansIndexed(xs, at, r.target);
    zs := xs[at[r.target] := a];
  }

  method PatchReplacement(xs: seq<Assoc>, at: map<string, nat>, r: Row) returns (zs: seq<Assoc>)
    requires DistinctIds(xs) && Located(xs, at) && r.Lifecycle? && r.replacement in at && r.replacement != ""
    ensures DistinctIds(zs) && Located(zs, at) && |zs| == |xs|
    ensures r.replacement in ById(xs)
    ensures ById(zs) == ById(xs)[r.replacement := Patched(ById(xs)[r.replacement], ReplacementPatch(r))]
  {
    var p := at[r.replacement];
    var a := xs[p].(status := "active", life := xs[p].life.(supersedes := Some(r.target)));
    assert a == Patched(xs[p], ReplacementPatch(r));
    PlaceKept(xs, at, p, a);
    ByIdUpdate(xs, p, a);
    LocatedMeansIndexed(xs, at, r.replacement);
    zs := xs[p := a];
  }

  lemma EditActs(s: string, I: Index, r: Row, m: map<string, Assoc>)
    requires r.Lifecycle? && Applies(I, s, r) && m == Edited(I.assocs, r)
    ensures Index(I.beads, m) == Act(s, I, r)
  {
    EditIsPatchAll(I, r);
  }

  /** The lifecycle branch of the merge loop. */
  method EditLifecycle(beads: map<string, Bead>, xs: seq<Assoc>, at: map<string, nat>, s: string, r: Row)
    returns (zs: seq<Assoc>, applied: bool)
    requires DistinctIds(xs) && Located(xs, at) && r.Lifecycle?
    ensures DistinctIds(zs) && Located(zs, at) && |zs| == |xs|
    ensures Index(beads, ById(zs)) == Act(s, Index(beads, ById(xs)), r)
    ensures applied <==> Applies(Index(beads, ById(xs)), s, r)
  {
    zs := xs;
    applied := MayEdit(beads, xs, at, s, r);
    if applied {
      zs := PatchTarget(xs, at, r);
      if r.action.Supersede? && r.replacement != "" {
        zs := PatchReplacement(zs, at, r);
      }
      EditActs(s, Index(beads, ById(xs)), r, ById(zs));
    }
  }

  /** Merge's own look at a queued append: it bans model-inferred `precedes` and validates. */
  method Revalidate(cfg: Config, beads: map<string, Bead>, r: Row) returns (landing: Option<Record>)
    requires cfg.relations.Valid() && r.Append? && WellFormed(cfg, r)
    requires r.record.source in beads && r.record.target in beads
    ensures landing == if ModelPrecedes(r.record.relationship, r.record.provenance) then None
        else Some(Requeued(r.record))
  {
    NormTwice(r.record.relationship);
    AcceptsOwnOutput(cfg.relations, cfg.mode, r.record);
    landing := Landing(cfg, Index(beads, map[]), r.record);
  }

  /** Merge's `exists` scan. */
  method Exists(ghost beads: map<string, Bead>, xs: seq<Assoc>, key: Triple) returns (found: bool)
    requires DistinctIds(xs)
    ensures found <==> Stored(Index(beads, ById(xs)), key)
  {
    found := false;
    var i := 0;
    while i < |xs| && !found
      invariant 0 <= i <= |xs|
      invariant found <==> exists j :: 0 <= j < i && xs[j].StoredKey() == key
    {
      found := xs[i].StoredKey() == key;
      i := i + 1;
    }
    StoredIffListed(beads, xs, key);
  }

  lemma StoredIffListed(beads: map<string, Bead>, xs: seq<Assoc>, key: Triple)
    requires DistinctIds(xs)
    ensures Stored(Index(beads, ById(xs)), key) <==> exists j :: 0 <= j < |xs| && xs[j].StoredKey() == key
  {
    if j :| 0 <= j < |xs| && xs[j].StoredKey() == key {
      assert xs[j].id in ById(xs);
    }
  }

  /** An id already in the index belongs to an association the scan would have found. */
  lemma IdIsNew(beads: map<string, Bead>, xs: seq<Assoc>, s: string, r: Row)
    requires DistinctIds(xs) && r.Append? && RowOk(Index(beads, ById(xs)), s, r)
    requires !Stored(Index(beads, ById(xs)), TripleOf(r.record))
    ensures forall i :: 0 <= i < |xs| ==> xs[i].id != r.id
  {
  }

  lemma LocatedAppend(xs: seq<Assoc>, at: map<string, nat>, a: Assoc)
    requires Located(xs, at) && forall i :: 0 <= i < |xs| ==> xs[i].id != a.id
    ensures Located(xs + [a], at[a.id := |xs|])
  {
  }

  /** The append branch of the merge loop. */
  method AppendAssociation(cfg: Config, beads: map<string, Bead>, xs: seq<Assoc>, at: map<string, nat>, s: string,
      r: Row)
    returns (zs: seq<Assoc>, at': map<string, nat>)
    requires cfg.relations.Valid() && DistinctIds(xs) && Located(xs, at) && r.Append? && WellFormed(cfg, r)
    requires RowOk(Index(beads, ById(xs)), s, r)
    ensures DistinctIds(zs) && Located(zs, at')
    ensures Index(beads, ById(zs)) == Act(s, Index(beads, ById(xs)), r)
  {
    zs, at' := xs, at;
    var landing := Revalidate(cfg, beads, r);
    if landing.Some? {
      var found := Exists(beads, xs, TripleOf(landing.value));
      if !found {
        var a := NewAssoc(r.id, landing.value, r.at);
        IdIsNew(beads, xs, s, r);
        ByIdAppend(xs, a);
        LocatedAppend(xs, at, a);
        zs, at' := xs + [a], at[r.id := |xs|];
      }
    }
  }

  method MarkPromoted(beads: map<string, Bead>, ghost assocs: map<string, Assoc>, r: Row)
    returns (beads': map<string, Bead>)
    requires r.Promotion?
    ensures Index(beads', assocs) == Promote(Index(beads, assocs), r.bead, r.at)
  {
    beads' := beads;
    if r.bead in beads && !beads[r.bead].marked {
      beads' := beads[r.bead := beads[r.bead].(marked := true, markedAt := r.at, scope := "rolling_continuity")];
    }
  }

  /** The merge loop over a session's rows. */
  method ReplayRows(cfg: Config, s: string, beads0: map<string, Bead>, assocs0: seq<Assoc>, rows: seq<Row>)
    returns (beads: map<string, Bead>, assocs: seq<Assoc>)
    requires cfg.relations.Valid() && DistinctIds(assocs0) && Index(beads0, ById(assocs0)).Valid()
    requires LogOk(Index(beads0, ById(assocs0)), s, rows) && forall r :: r in rows ==> WellFormed(cfg, r)
    ensures DistinctIds(assocs)
    ensures Index(beads, ById(assocs)) == Replay(cfg, s, Index(beads0, ById(assocs0)), rows)
  {
    beads, assocs := beads0, assocs0;
    ghost var I0 := Index(beads0, ById(assocs0));
    var at := Locate(assocs);
    var todo := rows;
    while todo != []
      invariant DistinctIds(assocs) && Located(assocs, at) && Index(beads, ById(assocs)).Valid()
      invariant LogOk(Index(beads, ById(assocs)), s, todo)
      invariant forall r :: r in todo ==> WellFormed(cfg, r)
      invariant Acts(s, Index(beads, ById(assocs)), todo) == Acts(s, I0, rows)
    {
      var r := todo[0];
      assert r in todo;
      TailOk(s, Index(beads, ById(assocs)), todo);
      if r.Promotion? {
        beads := MarkPromoted(beads, ById(assocs), r);
      } else if r.Append? {
        assocs, at := AppendAssociation(cfg, beads, assocs, at, s, r);
      } else if r.Lifecycle? {
        var applied;
        assocs, applied := EditLifecycle(beads, assocs, at, s, r);
      }
      todo := todo[1..];
    }
    ReplayIsActs(cfg, s, I0, rows);
  }

  method Locate(xs: seq<Assoc>) returns (at: map<string, nat>)
    requires DistinctIds(xs)
    ensures Located(xs, at)
  {
    at := map[];
    var i := 0;
    while i < |xs|
      invariant 0 <= i <= |xs|
      invariant forall k :: k in at ==> at[k] < i && xs[at[k]].id == k
      invariant forall j :: 0 <= j < i && xs[j].id != "" ==> xs[j].id in at
    {
      if xs[i].id != "" {
        at := at[xs[i].id := i];
      }
      i := i + 1;
    }
  }

  lemma Find(xs: seq<Assoc>, k: string) returns (i: nat)
    requires DistinctIds(xs) && k in ById(xs)
    ensures i < |xs| && xs[i].id == k && ById(xs)[k] == xs[i]
  {
    i :| 0 <= i < |xs| && xs[i].id == k;
  }

  /** Editing every element in place is editing every entry of the table. */
  lemma EachById(xs: seq<Assoc>, zs: seq<Assoc>, f: Assoc -> Assoc)
    requires DistinctIds(xs) && |zs| == |xs|
    requires forall j :: 0 <= j < |xs| ==> zs[j] == f(xs[j]) && zs[j].id == xs[j].id
    ensures DistinctIds(zs) && ById(zs) == Each(ById(xs), (k, a) => f(a))
  {
    var m, n := ById(xs), ById(zs);
    forall k | k in m
      ensures k in n && n[k] == f(m[k])
    {
      var j := Find(xs, k);
      assert zs[j].id == k;
    }
    forall k | k in n
      ensures k in m
    {
      var j := Find(zs, k);
      assert xs[j].id == k;
    }
  }

  lemma SettledById(beads: map<string, Bead>, xs: seq<Assoc>, zs: seq<Assoc>)
    requires DistinctIds(xs) && |zs| == |xs|
    requires forall j :: 0 <= j < |xs| ==> zs[j] == WithStatus(xs[j]) && zs[j].id == xs[j].id
    ensures DistinctIds(zs) && Index(beads, ById(zs)) == Settle(Index(beads, ById(xs)))
  {
    EachById(xs, zs, WithStatus);
    assert ById(zs) == Settle(Index(beads, ById(xs))).assocs;
  }

  /** The last pass of the merge: missing statuses become active. */
  method FillStatus(ghost beads: map<string, Bead>, xs: seq<Assoc>) returns (zs: seq<Assoc>)
    requires DistinctIds(xs)
    ensures DistinctIds(zs) && Index(beads, ById(zs)) == Settle(Index(beads, ById(xs)))
  {
    zs := xs;
    var i := 0;
    while i < |zs|
      invariant 0 <= i <= |zs| == |xs|
      invariant forall j :: 0 <= j < i ==> zs[j] == WithStatus(xs[j]) && zs[j].id == xs[j].id
      invariant forall j :: i <= j < |xs| ==> zs[j] == xs[j]
    {
      if Strip(zs[i].status) == "" {
        zs := zs[i := zs[i].(status := "active")];
      }
      i := i + 1;
    }
    SettledById(beads, xs, zs);
  }

  // ---------------------------------------------------------------- the store

  class Store {
    const cfg: Config
    var beads: map<string, Bead>
    var assocs: seq<Assoc>
    var logs: map<string, seq<Row>>
    ghost var issued: set<string>

    ghost predicate Valid()
      reads this
    {
      DistinctIds(assocs) && Inv(cfg, Model())
    }

    ghost function Model(): State
      reads this
      requires DistinctIds(assocs)
    {
      State(Index(beads, ById(assocs)), logs, issued)
    }

    constructor (cfg: Config, beads: map<string, Bead>, assocs: seq<Assoc>)
      requires cfg.relations.Valid() && "" !in beads && DistinctIds(assocs)
      ensures Valid() && this.cfg == cfg
      ensures Model() == State(Index(beads, ById(assocs)), map[], ById(assocs).Keys)
    {
      this.cfg, this.beads, this.assocs, this.logs, this.issued := cfg, beads, assocs, map[], ById(assocs).Keys;
      new;
      InitiallyInv(cfg, Model());
    }

    function Log(s: string): seq<Row>
      reads this
    {
      if s in logs then logs[s] else []
    }

    /** The store commits a bead under a new id. */
    method AddBead(id: string, bead: Bead)
      requires Valid() && id != "" && id !in beads
      modifies this`beads
      ensures Valid() && Model() == Next(cfg, old(Model()), NewBead(id, bead))
    {
      ghost var before := Model();
      beads := beads[id := bead];
      NextKeepsInv(cfg, before, NewBead(id, bead));
    }

    /** Filters one update against the index and appends what survives to the session's log. */
    method ApplyCrawlerUpdates(s: string, b: Batch) returns (marks: nat, appended: nat, lifecycle: nat)
      requires Valid() && FreshIds(b, issued)
      modifies this
      ensures Valid() && Model() == Next(cfg, old(Model()), Apply(s, b))
      ensures assocs == old(assocs) && beads == old(beads)
      ensures |Log(s)| == |old(Log(s))| + b.diagnostics + marks + appended + lifecycle
    {
      ghost var before := Model();
      var byId, existing := Tables(assocs);
      var I := Index(beads, byId);
      SameKeys(I);
      CandidateKeysAreFull(cfg, I, s, b, b.assocs);
      DedupedNeedsFullOnly(Candidates(cfg, I, s, b, b.assocs), EffectiveKeys(I), existing);
      var promotions := PromotionRows(I, s, b);
      var appends := AppendRows(cfg, I, s, b, existing);
      var changes := LifecycleRows(I, s, b);
      marks, appended, lifecycle := |promotions|, |appends|, |changes|;
      var rows := Diagnostics(b.diagnostics) + promotions + appends + changes;
      assert rows == Queued(cfg, before.index, s, b);
      logs := logs[s := Log(s) + rows];
      issued := issued + b.Ids();
      assert Model() == Next(cfg, before, Apply(s, b));
      NextKeepsInv(cfg, before, Apply(s, b));
    }

    /** Replays the session's log into the index, sorts the list and clears the log; `crash` is
        a process that dies after the index is written and before the log is cleared. */
    method MergeCrawlerUpdates(s: string, crash: bool)
      requires Valid()
      modifies this
      ensures Valid() && Model() == Next(cfg, old(Model()), if crash then CrashedMerge(s) else Merge(s))
      ensures old(Log(s)) == [] ==> assocs == old(assocs)
      ensures old(Log(s)) != [] ==> SortedBy(assocs, SortKey)
    {
      hide SortedBy, Replay, Settle, Inv;
      ghost var before := Model();
      var rows := Log(s);
      ReadyToReplay(cfg, before, s);
      if rows != [] {
        var merged;
        beads, merged := ReplayRows(cfg, s, beads, assocs, rows);
        merged := FillStatus(beads, merged);
        SortKeepsById(merged);
        assocs := Sort(merged, SortKey);
      }
      if !crash {
        logs := logs[s := []];
      }
      NextKeepsInv(cfg, before, if crash then CrashedMerge(s) else Merge(s));
    }
  }

  lemma ReadyToReplay(cfg: Config, st: State, s: string)
    requires Inv(cfg, st)
    ensures cfg.relations.Valid() && st.index.Valid() && LogOk(st.index, s, st.Log(s))
    ensures forall r :: r in st.Log(s) ==> WellFormed(cfg, r)
  {
    assert GoodLog(cfg, st.index, s, st.Log(s), st.issued);
  }

  lemma SameKeys(I: Index)
    ensures KeysOf(I.assocs) == EffectiveKeys(I)
  {
  }
}
