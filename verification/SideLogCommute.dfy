/** Rows of different sessions commute, and so do whole logs. */
module SideLogCommute {
  import opened Inference
  import opened SideLog
  import opened SideLogLaws
  import opened SideLogReplay

  lemma EachCommutes(m: map<string, Assoc>, f: (string, Assoc) -> Assoc, g: (string, Assoc) -> Assoc)
    requires forall k :: k in m ==> f(k, g(k, m[k])) == g(k, f(k, m[k]))
    ensures Each(Each(m, f), g) == Each(Each(m, g), f)
  {
  }

  lemma StoredUnderPatch(I: Index, f: string -> Patch, key: Triple)
    ensures Stored(PatchAll(I, f), key) <==> Stored(I, key)
  {
    var J := PatchAll(I, f);
    if Stored(I, key) {
      var k :| k in I.assocs && I.assocs[k].StoredKey() == key;
      assert k in J.assocs && J.assocs[k].StoredKey() == key;
    }
  }

  lemma PatchThenLand(I: Index, f: string -> Patch, id: string, r: Record, at: int)
    requires Stored(I, TripleOf(r)) || (id !in I.assocs && f(id) == NO_PATCH)
    ensures PatchAll(Land(I, id, r, at), f) == Land(PatchAll(I, f), id, r, at)
  {
    StoredUnderPatch(I, f, TripleOf(r));
    if !Stored(I, TripleOf(r)) {
      NoPatchIsIdentity(NewAssoc(id, r, at));
      assert PatchAll(Land(I, id, r, at), f).assocs == Land(PatchAll(I, f), id, r, at).assocs;
    }
  }

  lemma PatchesCommute(a: Assoc, p: Patch, q: Patch)
    requires p == NO_PATCH || q == NO_PATCH
    ensures Patched(Patched(a, p), q) == Patched(Patched(a, q), p)
  {
  }

  lemma PatchThenPatch(I: Index, f: string -> Patch, g: string -> Patch)
    requires forall k :: k in I.assocs ==> f(k) == NO_PATCH || g(k) == NO_PATCH
    ensures PatchAll(PatchAll(I, f), g) == PatchAll(PatchAll(I, g), f)
  {
    var p := (k: string, a: Assoc) => Patched(a, f(k));
    var q := (k: string, a: Assoc) => Patched(a, g(k));
    forall k | k in I.assocs
      ensures p(k, q(k, I.assocs[k])) == q(k, p(k, I.assocs[k]))
    {
      PatchesCommute(I.assocs[k], f(k), g(k));
    }
    EachCommutes(I.assocs, p, q);
  }

  lemma LandThenLand(I: Index, id: string, r: Record, at: int, id': string, r': Record, at': int)
    requires id != id' && TripleOf(r) != TripleOf(r')
    requires id in I.assocs ==> Stored(I, TripleOf(r))
    requires id' in I.assocs ==> Stored(I, TripleOf(r'))
    ensures Land(Land(I, id, r, at), id', r', at') == Land(Land(I, id', r', at'), id, r, at)
  {
    LandStored(I, id, r, at, TripleOf(r'));
    LandStored(I, id', r', at', TripleOf(r));
  }

  lemma LandStored(I: Index, id: string, r: Record, at: int, key: Triple)
    requires id in I.assocs ==> Stored(I, TripleOf(r))
    ensures Stored(Land(I, id, r, at), key) <==> Stored(I, key) || key == TripleOf(r)
  {
    var J := Land(I, id, r, at);
    if !Stored(I, TripleOf(r)) {
      assert J.assocs[id].StoredKey() == TripleOf(r);
      forall k | k in I.assocs && I.assocs[k].StoredKey() == key
        ensures J.assocs[k].StoredKey() == key
      {
      }
    }
  }

  lemma PatchesDisjoint(I: Index, s: string, r: Row, t: string, q: Row, k: string)
    requires s != t && r.Lifecycle? && q.Lifecycle? && RowOk(I, s, r) && RowOk(I, t, q)
    ensures Effect(r, k) == NO_PATCH || Effect(q, k) == NO_PATCH
  {
  }

  lemma UnnamedUntouched(I: Index, s: string, r: Row, k: string)
    requires r.Lifecycle? && RowOk(I, s, r) && k !in I.assocs
    ensures Effect(r, k) == NO_PATCH
  {
  }

  lemma AppendsCommute(I: Index, s: string, r: Row, t: string, q: Row)
    requires I.Valid() && s != t && RowOk(I, s, r) && RowOk(I, t, q)
    requires r.Append? && q.Append? && r.id != q.id
    ensures Act(t, Act(s, I, r), q) == Act(s, Act(t, I, q), r)
  {
    LandThenLand(I, r.id, Requeued(r.record), r.at, q.id, Requeued(q.record), q.at);
  }

  lemma LifecyclesCommute(I: Index, s: string, r: Row, t: string, q: Row)
    requires I.Valid() && s != t && RowOk(I, s, r) && RowOk(I, t, q)
    requires r.Lifecycle? && q.Lifecycle?
    ensures Act(t, Act(s, I, r), q) == Act(s, Act(t, I, q), r)
  {
    ActKeepsRowOk(I, s, r, t, q);
    ActKeepsRowOk(I, t, q, s, r);
    forall k { PatchesDisjoint(I, s, r, t, q, k); }
    PatchThenPatch(I, k => Effect(r, k), k => Effect(q, k));
  }

  lemma AppendLifecycleCommute(I: Index, s: string, r: Row, t: string, q: Row)
    requires I.Valid() && RowOk(I, s, r) && RowOk(I, t, q)
    requires r.Append? && q.Lifecycle?
    ensures Act(t, Act(s, I, r), q) == Act(s, Act(t, I, q), r)
  {
    ActKeepsRowOk(I, s, r, t, q);
    if r.id !in I.assocs { UnnamedUntouched(I, t, q, r.id); }
    PatchThenLand(I, k => Effect(q, k), r.id, Requeued(r.record), r.at);
  }

  lemma PromotionCommutes(I: Index, s: string, r: Row, t: string, q: Row)
    requires I.Valid() && s != t && RowOk(I, s, r) && RowOk(I, t, q)
    requires r.Promotion?
    ensures Act(t, Act(s, I, r), q) == Act(s, Act(t, I, q), r)
  {
    ActKeepsRowOk(I, s, r, t, q);
  }

  lemma RowsCommute(I: Index, s: string, r: Row, t: string, q: Row)
    requires I.Valid() && s != t && RowOk(I, s, r) && RowOk(I, t, q)
    requires r.Append? && q.Append? ==> r.id != q.id
    ensures Act(t, Act(s, I, r), q) == Act(s, Act(t, I, q), r)
  {
    if r.Promotion? { PromotionCommutes(I, s, r, t, q); }
    else if q.Promotion? { PromotionCommutes(I, t, q, s, r); }
    else if r.Append? && q.Append? { AppendsCommute(I, s, r, t, q); }
    else if r.Append? && q.Lifecycle? { AppendLifecycleCommute(I, s, r, t, q); }
    else if r.Lifecycle? && q.Append? { AppendLifecycleCommute(I, t, q, s, r); }
    else if r.Lifecycle? && q.Lifecycle? { LifecyclesCommute(I, s, r, t, q); }
  }

  /** Logs of two sessions share no append id. */
  ghost predicate NoSharedIds(rows: seq<Row>, more: seq<Row>) {
    forall r, q :: r in rows && q in more && r.Append? && q.Append? ==> r.id != q.id
  }

  lemma {:induction false} RowCommutesWithLog(I: Index, s: string, r: Row, t: string, rows: seq<Row>)
    requires I.Valid() && s != t && RowOk(I, s, r) && LogOk(I, t, rows)
    requires NoSharedIds([r], rows)
    ensures Acts(t, Act(s, I, r), rows) == Act(s, Acts(t, I, rows), r)
    decreases rows
  {
    if rows != [] {
      var q := rows[0];
      assert r in [r] && q in rows;
      RowsCommute(I, s, r, t, q);
      TailOk(t, I, rows);
      ActKeepsRowOk(I, t, q, s, r);
      RowCommutesWithLog(Act(t, I, q), s, r, t, rows[1..]);
    }
  }

  lemma ActKeepsOtherLogOk(I: Index, s: string, r: Row, t: string, rows: seq<Row>)
    requires I.Valid() && s != t && RowOk(I, s, r) && LogOk(I, t, rows)
    requires NoSharedIds([r], rows)
    ensures LogOk(Act(s, I, r), t, rows)
  {
    forall i | 0 <= i < |rows|
      ensures RowOk(Act(s, I, r), t, rows[i])
    {
      assert r in [r] && rows[i] in rows;
      ActKeepsRowOk(I, s, r, t, rows[i]);
    }
  }

  lemma {:induction false} ActsKeepOtherLogOk(I: Index, s: string, rows: seq<Row>, t: string, more: seq<Row>)
    requires I.Valid() && s != t && LogOk(I, s, rows) && LogOk(I, t, more)
    requires NoSharedIds(rows, more)
    ensures LogOk(Acts(s, I, rows), t, more)
    decreases rows
  {
    if rows != [] {
      assert rows[0] in rows;
      ActKeepsOtherLogOk(I, s, rows[0], t, more);
      TailOk(s, I, rows);
      ActsKeepOtherLogOk(Act(s, I, rows[0]), s, rows[1..], t, more);
    }
  }

  lemma {:induction false} LogsCommute(I: Index, s: string, rows: seq<Row>, t: string, more: seq<Row>)
    requires I.Valid() && s != t && LogOk(I, s, rows) && LogOk(I, t, more)
    requires NoSharedIds(rows, more)
    ensures Acts(t, Acts(s, I, rows), more) == Acts(s, Acts(t, I, more), rows)
    decreases rows
  {
    if rows != [] {
      var r := rows[0];
      assert r in rows;
      TailOk(s, I, rows);
      RowCommutesWithLog(I, s, r, t, more);
      ActKeepsOtherLogOk(I, s, r, t, more);
      LogsCommute(Act(s, I, r), s, rows[1..], t, more);
    }
  }

  // ---------------------------------------------------------------- settling

  lemma SettlePatched(a: Assoc, p: Patch)
    requires p.status.Some? ==> Text.Strip(p.status.value) != ""
    ensures WithStatus(Patched(a, p)) == Patched(WithStatus(a), p)
  {
  }

  lemma EffectStatus(r: Row, k: string)
    requires r.Lifecycle?
    ensures Effect(r, k).status.Some? ==> Text.Strip(Effect(r, k).status.value) != ""
  {
  }

  lemma SettlePatchAll(I: Index, f: string -> Patch)
    requires forall k :: f(k).status.Some? ==> Text.Strip(f(k).status.value) != ""
    ensures PatchAll(Settle(I), f) == Settle(PatchAll(I, f))
  {
    var p := (k: string, a: Assoc) => Patched(a, f(k));
    var q := (k: string, a: Assoc) => WithStatus(a);
    forall k | k in I.assocs
      ensures p(k, q(k, I.assocs[k])) == q(k, p(k, I.assocs[k]))
    {
      SettlePatched(I.assocs[k], f(k));
    }
    EachCommutes(I.assocs, p, q);
  }

  lemma SettleKeepsRowOk(I: Index, s: string, r: Row)
    requires I.Valid() && RowOk(I, s, r)
    ensures Settle(I).Valid() && RowOk(Settle(I), s, r)
  {
    SettleExtends(I);
    ExtensionKeepsRowOk(I, Settle(I), s, r);
  }

  lemma SettleExtends(I: Index)
    requires I.Valid()
    ensures Settle(I).Valid() && Extends(I, Settle(I)) && Settle(I).assocs.Keys == I.assocs.Keys
  {
  }

  /** Filling in missing statuses can wait: it commutes with every row. */
  lemma SettleCommutes(s: string, I: Index, r: Row)
    requires I.Valid() && RowOk(I, s, r)
    ensures Act(s, Settle(I), r) == Settle(Act(s, I, r))
  {
    SettleKeepsRowOk(I, s, r);
    if r.Lifecycle? {
      forall k { EffectStatus(r, k); }
      SettlePatchAll(I, k => Effect(r, k));
    } else if r.Append? {
      SettleLand(I, r.id, Requeued(r.record), r.at);
    }
  }

  lemma ActiveStays(id: string, r: Record, at: int)
    ensures WithStatus(NewAssoc(id, r, at)) == NewAssoc(id, r, at)
  {
  }

  lemma SettleLand(I: Index, id: string, r: Record, at: int)
    ensures Settle(Land(I, id, r, at)) == Land(Settle(I), id, r, at)
  {
    StoredUnderSettle(I, TripleOf(r));
    ActiveStays(id, r, at);
    hide Stored, NewAssoc, WithStatus;
    if !Stored(I, TripleOf(r)) {
      assert Settle(Land(I, id, r, at)).assocs == Land(Settle(I), id, r, at).assocs;
    }
  }

  lemma StoredUnderSettle(I: Index, key: Triple)
    ensures Stored(Settle(I), key) <==> Stored(I, key)
  {
    var J := Settle(I);
    if Stored(I, key) {
      var k :| k in I.assocs && I.assocs[k].StoredKey() == key;
      assert k in J.assocs && J.assocs[k].StoredKey() == key;
    }
  }

  lemma {:induction false} ActsSettle(s: string, I: Index, rows: seq<Row>)
    requires I.Valid() && LogOk(I, s, rows)
    ensures Acts(s, Settle(I), rows) == Settle(Acts(s, I, rows))
    decreases rows
  {
    if rows != [] {
      SettleCommutes(s, I, rows[0]);
      TailOk(s, I, rows);
      ActsSettle(s, Act(s, I, rows[0]), rows[1..]);
    }
  }

  lemma SettleTwice(I: Index)
    ensures Settle(Settle(I)) == Settle(I)
  {
  }

  // ---------------------------------------------------------------- new beads

  function AddBead(I: Index, id: string, b: Bead): Index {
    I.(beads := I.beads[id := b])
  }

  lemma AddBeadKeepsRowOk(I: Index, id: string, b: Bead, s: string, r: Row)
    requires I.Valid() && id != "" && id !in I.beads && RowOk(I, s, r)
    ensures RowOk(AddBead(I, id, b), s, r)
  {
  }

  lemma AddBeadCommutes(I: Index, id: string, b: Bead, s: string, r: Row)
    requires I.Valid() && id != "" && id !in I.beads && RowOk(I, s, r)
    ensures Act(s, AddBead(I, id, b), r) == AddBead(Act(s, I, r), id, b)
  {
    AddBeadKeepsRowOk(I, id, b, s, r);
  }

  lemma {:induction false} ActsAddBead(s: string, I: Index, id: string, b: Bead, rows: seq<Row>)
    requires I.Valid() && id != "" && id !in I.beads && LogOk(I, s, rows)
    ensures Acts(s, AddBead(I, id, b), rows) == AddBead(Acts(s, I, rows), id, b)
    decreases rows
  {
    if rows != [] {
      AddBeadCommutes(I, id, b, s, rows[0]);
      ActExtends(s, I, rows[0]);
      TailOk(s, I, rows);
      ActsAddBead(s, Act(s, I, rows[0]), id, b, rows[1..]);
    }
  }
}
