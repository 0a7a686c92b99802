/** Whole logs: replaying one is patching what is there and adding what is missing, and doing
    it twice is doing it once. */
module SideLogReplay {
  import opened Options
  import opened Inference
  import opened SideLog
  import opened Patches
  import opened SideLogLaws

  ghost function Acts(s: string, I: Index, rows: seq<Row>): Index
    decreases rows
  {
    if rows == [] then I else Acts(s, Act(s, I, rows[0]), rows[1..])
  }

  /** A log as apply leaves it: good rows, and no append id used twice. */
  ghost predicate LogOk(I: Index, s: string, rows: seq<Row>) {
    && (forall i :: 0 <= i < |rows| ==> RowOk(I, s, rows[i]))
    && (forall i, j :: 0 <= i < j < |rows| && rows[i].Append? && rows[j].Append? ==> rows[i].id != rows[j].id)
  }

  lemma NoActs(s: string, I: Index)
    ensures Acts(s, I, []) == I
  {
  }

  lemma TailOk(s: string, I: Index, rows: seq<Row>)
    requires I.Valid() && LogOk(I, s, rows) && rows != []
    ensures Act(s, I, rows[0]).Valid() && LogOk(Act(s, I, rows[0]), s, rows[1..])
  {
    ActExtends(s, I, rows[0]);
    forall i | 0 <= i < |rows[1..]|
      ensures RowOk(Act(s, I, rows[0]), s, rows[1..][i])
    {
      ActKeepsRowOk(I, s, rows[0], s, rows[i + 1]);
    }
  }

  lemma ExtendsTrans(I: Index, J: Index, K: Index)
    requires Extends(I, J) && Extends(J, K)
    ensures Extends(I, K)
  {
  }

  lemma {:induction false} ReplayIsActs(cfg: Config, s: string, I: Index, rows: seq<Row>)
    requires cfg.relations.Valid() && I.Valid() && LogOk(I, s, rows)
    requires forall r :: r in rows ==> WellFormed(cfg, r)
    ensures Replay(cfg, s, I, rows) == Acts(s, I, rows)
    decreases rows
  {
    if rows != [] {
      RevalidationIsRedundant(cfg, s, I, rows[0]);
      TailOk(s, I, rows);
      ReplayIsActs(cfg, s, Act(s, I, rows[0]), rows[1..]);
    }
  }

  lemma {:induction false} ActsSplit(s: string, I: Index, rows: seq<Row>, more: seq<Row>)
    ensures Acts(s, I, rows + more) == Acts(s, Acts(s, I, rows), more)
    decreases rows
  {
    if rows == [] {
      assert rows + more == more;
    } else {
      assert (rows + more)[1..] == rows[1..] + more;
      ActsSplit(s, Act(s, I, rows[0]), rows[1..], more);
    }
  }

  lemma {:induction false} ActsExtend(s: string, I: Index, rows: seq<Row>)
    requires I.Valid() && LogOk(I, s, rows)
    ensures Acts(s, I, rows).Valid() && Extends(I, Acts(s, I, rows))
    ensures Acts(s, I, rows).beads.Keys == I.beads.Keys
    decreases rows
  {
    if rows != [] {
      ActExtends(s, I, rows[0]);
      TailOk(s, I, rows);
      ActsExtend(s, Act(s, I, rows[0]), rows[1..]);
      ExtendsTrans(I, Act(s, I, rows[0]), Acts(s, I, rows));
    }
  }

  /** A row with nothing left to add: its bead is marked, its association stored or banned. */
  ghost predicate Done(I: Index, r: Row) {
    match r
    case Promotion(b, _) => b in I.beads ==> I.beads[b].marked
    case Append(_, rec, _) => ModelPrecedes(rec.relationship, rec.provenance) || Stored(I, TripleOf(rec))
    case _ => true
  }

  lemma DoneStays(I: Index, J: Index, r: Row)
    requires Extends(I, J) && I.beads.Keys == J.beads.Keys && Done(I, r)
    ensures Done(J, r)
  {
  }

  lemma ActIsDone(s: string, I: Index, r: Row)
    ensures Done(Act(s, I, r), r)
  {
    if r.Append? && !ModelPrecedes(r.record.relationship, r.record.provenance) && !Stored(I, TripleOf(r.record)) {
      assert Act(s, I, r).assocs[r.id].StoredKey() == TripleOf(r.record);
    }
  }

  lemma {:induction false} ActsAreDone(s: string, I: Index, rows: seq<Row>)
    requires I.Valid() && LogOk(I, s, rows)
    ensures forall r :: r in rows ==> Done(Acts(s, I, rows), r)
    decreases rows
  {
    if rows != [] {
      TailOk(s, I, rows);
      ActIsDone(s, I, rows[0]);
      ActsExtend(s, Act(s, I, rows[0]), rows[1..]);
      DoneStays(Act(s, I, rows[0]), Acts(s, I, rows), rows[0]);
      ActsAreDone(s, Act(s, I, rows[0]), rows[1..]);
    }
  }

  lemma NoPatchIsIdentity(a: Assoc)
    ensures Patched(a, NO_PATCH) == a
  {
  }

  lemma ActPatches(s: string, I: Index, r: Row, k: string)
    requires I.Valid() && RowOk(I, s, r) && k in I.assocs
    ensures k in Act(s, I, r).assocs
    ensures Act(s, I, r).assocs[k] == Patched(I.assocs[k], if r.Lifecycle? then Effect(r, k) else NO_PATCH)
  {
    NoPatchIsIdentity(I.assocs[k]);
  }

  /** What a log does to an association that was there before it. */
  lemma {:induction false} ActsPatch(s: string, I: Index, rows: seq<Row>, k: string)
    requires I.Valid() && LogOk(I, s, rows) && k in I.assocs
    ensures k in Acts(s, I, rows).assocs
    ensures Acts(s, I, rows).assocs[k] == Patched(I.assocs[k], LogPatch(rows, k))
    decreases rows
  {
    if rows != [] {
      var J := Act(s, I, rows[0]);
      var p := if rows[0].Lifecycle? then Effect(rows[0], k) else NO_PATCH;
      TailOk(s, I, rows);
      ActPatches(s, I, rows[0], k);
      ActsPatch(s, J, rows[1..], k);
      PatchedTwice(I.assocs[k], p, LogPatch(rows[1..], k));
    }
  }

  lemma ActOfDone(s: string, I: Index, r: Row)
    requires I.Valid() && RowOk(I, s, r) && Done(I, r)
    ensures Act(s, I, r).beads == I.beads && Act(s, I, r).assocs.Keys == I.assocs.Keys
  {
  }

  lemma {:induction false} ActsOfDone(s: string, I: Index, rows: seq<Row>)
    requires I.Valid() && LogOk(I, s, rows)
    requires forall r :: r in rows ==> Done(I, r)
    ensures Acts(s, I, rows).beads == I.beads && Acts(s, I, rows).assocs.Keys == I.assocs.Keys
    decreases rows
  {
    if rows != [] {
      var J := Act(s, I, rows[0]);
      TailOk(s, I, rows);
      ActOfDone(s, I, rows[0]);
      ActExtends(s, I, rows[0]);
      forall r | r in rows[1..]
        ensures Done(J, r)
      {
        DoneStays(I, J, r);
      }
      ActsOfDone(s, J, rows[1..]);
    }
  }

  lemma {:induction false} OthersNotNamed(s: string, I: Index, rows: seq<Row>, k: string)
    requires LogOk(I, s, rows) && k !in I.assocs
    ensures LogPatch(rows, k) == NO_PATCH
  {
    forall j | 0 <= j < |rows|
      ensures !Names(rows[j], k)
    {
      assert RowOk(I, s, rows[j]);
    }
    NobodyWrites(rows, k);
  }

  lemma {:induction false} ActsKeepLogOk(s: string, I: Index, rows: seq<Row>, more: seq<Row>)
    requires I.Valid() && LogOk(I, s, rows + more)
    ensures Acts(s, I, rows).Valid() && LogOk(Acts(s, I, rows), s, more)
    decreases rows
  {
    if rows == [] {
      assert rows + more == more;
    } else {
      TailOk(s, I, rows + more);
      assert (rows + more)[1..] == rows[1..] + more;
      ActsKeepLogOk(s, Act(s, I, rows[0]), rows[1..], more);
    }
  }

  lemma LandKeepsOwnRowOk(I: Index, s: string, r: Row)
    requires I.Valid() && r.Append? && RowOk(I, s, r)
    ensures RowOk(Land(I, r.id, Requeued(r.record), r.at), s, r)
  {
  }

  lemma ActKeepsOwnRowOk(I: Index, s: string, r: Row)
    requires I.Valid() && RowOk(I, s, r)
    ensures RowOk(Act(s, I, r), s, r)
  {
    if r.Append? {
      LandKeepsOwnRowOk(I, s, r);
    } else {
      ActKeepsRowOk(I, s, r, s, r);
    }
  }

  /** May q follow or be replayed with `rows`: its id is not taken by a different row. */
  ghost predicate Apart(rows: seq<Row>, q: Row) {
    q.Append? ==> forall r :: r in rows && r.Append? ==> r == q || r.id != q.id
  }

  lemma {:induction false} ActsKeepRowOk(s: string, I: Index, rows: seq<Row>, t: string, q: Row)
    requires I.Valid() && LogOk(I, s, rows) && RowOk(I, t, q)
    requires Apart(rows, q) && (s == t || q !in rows)
    ensures RowOk(Acts(s, I, rows), t, q)
    decreases rows
  {
    if rows != [] {
      var J := Act(s, I, rows[0]);
      TailOk(s, I, rows);
      assert rows[0] in rows;
      if s == t && rows[0] == q { ActKeepsOwnRowOk(I, s, q); } else { ActKeepsRowOk(I, s, rows[0], t, q); }
      ActsKeepRowOk(s, J, rows[1..], t, q);
    }
  }

  /** A log stays fit to be replayed after it has been. */
  lemma ActsKeepOwnLogOk(s: string, I: Index, rows: seq<Row>)
    requires I.Valid() && LogOk(I, s, rows)
    ensures LogOk(Acts(s, I, rows), s, rows)
  {
    forall i | 0 <= i < |rows|
      ensures RowOk(Acts(s, I, rows), s, rows[i])
    {
      ActsKeepRowOk(s, I, rows, s, rows[i]);
    }
  }

  /** Crash replay is harmless: replaying a log that has been replayed changes nothing. */
  lemma ReplayTwice(s: string, I: Index, rows: seq<Row>)
    requires I.Valid() && LogOk(I, s, rows)
    ensures Acts(s, Acts(s, I, rows), rows) == Acts(s, I, rows)
  {
    var J := Acts(s, I, rows);
    ActsExtend(s, I, rows);
    ActsKeepOwnLogOk(s, I, rows);
    ActsAreDone(s, I, rows);
    ActsOfDone(s, J, rows);
    forall k | k in J.assocs
      ensures k in Acts(s, J, rows).assocs && Acts(s, J, rows).assocs[k] == J.assocs[k]
    {
      ActsPatch(s, J, rows, k);
      if k in I.assocs {
        ActsPatch(s, I, rows, k);
        PatchAgain(I.assocs[k], LogPatch(rows, k));
      } else {
        OthersNotNamed(s, I, rows, k);
      }
    }
    assert Acts(s, J, rows).assocs == J.assocs;
  }

  lemma ActOfStored(s: string, I: Index, r: Row)
    requires r.Append? && Stored(I, TripleOf(r.record))
    ensures Act(s, I, r) == I
  {
  }

  /** A retraction of a stored association acts, and leaves it stored. */
  lemma RetractOfStored(s: string, I: Index, r: Row)
    requires I.Valid() && r.Lifecycle? && r.action.Retract? && Applies(I, s, r)
    ensures var K := Act(s, I, r);
      && r.target in K.assocs && K.assocs[r.target].status == "retracted"
      && Stored(K, I.assocs[r.target].StoredKey())
  {
    ActPatches(s, I, r, r.target);
    assert Act(s, I, r).assocs[r.target].StoredKey() == I.assocs[r.target].StoredKey();
  }

  /** Without the run invariant it is false: a lifecycle row queued before the append it names
      is refused on the first pass and acts on the second. */
  lemma ReplayNeedsNamedTargets(rec: Record)
    requires rec.source == "a" && rec.target == "b" && rec.relationship == "supports"
    ensures var bead := Bead("s", false, 0, "");
      var I := Index(map["a" := bead, "b" := bead], map[]);
      var rows := [Lifecycle("x", Retract, "", "", None, "", 1), Append("x", rec, 2)];
      I.Valid() && Acts("s", Acts("s", I, rows), rows) != Acts("s", I, rows)
  {
    hide PatchAll, Stored, Effect;
    var bead := Bead("s", false, 0, "");
    var I := Index(map["a" := bead, "b" := bead], map[]);
    var late := Lifecycle("x", Retract, "", "", None, "", 1);
    var append := Append("x", rec, 2);
    ActsOfTwo("s", I, late, append);
    var J := Act("s", I, append);
    NothingStored(I, TripleOf(Requeued(rec)));
    assert J.assocs == map["x" := NewAssoc("x", Requeued(rec), 2)];
    ActsOfTwo("s", J, late, append);
    RetractOfStored("s", J, late);
    ActOfStored("s", Act("s", J, late), append);
  }

  lemma NothingStored(I: Index, key: Triple)
    requires I.assocs == map[]
    ensures !Stored(I, key)
  {
  }

  lemma ActsOfTwo(s: string, I: Index, r: Row, q: Row)
    ensures Acts(s, I, [r, q]) == Act(s, Act(s, I, r), q)
  {
    var J := Act(s, I, r);
    assert [r, q][1..] == [q] && [q][1..] == [];
    assert Acts(s, I, [r, q]) == Acts(s, J, [q]) == Acts(s, Act(s, J, q), []);
  }
}
