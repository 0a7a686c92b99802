/** Whole runs: many sessions, any interleaving of new beads, applies, merges, and merges that
    crash between the index write and the log clear. */
module SideLogRuns {
  import opened SideLog
  import opened SideLogLaws
  import opened SideLogReplay
  import opened SideLogCommute
  import opened SideLogEnqueue

  /** `issued` remembers every association id ever handed out. */
  datatype State = State(index: Index, logs: map<string, seq<Row>>, issued: set<string>) {
    function Log(s: string): seq<Row> {
      if s in logs then logs[s] else []
    }
  }

  datatype Event =
    | NewBead(id: string, bead: Bead)
    | Apply(session: string, batch: Batch)
    | Merge(session: string)
    | CrashedMerge(session: string)

  ghost function Next(cfg: Config, st: State, e: Event): State {
    match e
    case NewBead(id, bead) => st.(index := AddBead(st.index, id, bead))
    case Apply(s, b) =>
      st.(logs := st.logs[s := st.Log(s) + Queued(cfg, st.index, s, b)], issued := st.issued + b.Ids())
    case Merge(s) => State(Merged(cfg, s, st.index, st.Log(s)), st.logs[s := []], st.issued)
    case CrashedMerge(s) => st.(index := Merged(cfg, s, st.index, st.Log(s)))
  }

  ghost predicate Enabled(st: State, e: Event) {
    match e
    case NewBead(id, _) => id != "" && id !in st.index.beads
    case Apply(_, b) => FreshIds(b, st.issued)
    case _ => true
  }

  ghost function Run(cfg: Config, st: State, events: seq<Event>): State
    decreases events
  {
    if events == [] then st else Run(cfg, Next(cfg, st, events[0]), events[1..])
  }

  ghost predicate Possible(cfg: Config, st: State, events: seq<Event>)
    decreases events
  {
    events == [] || (Enabled(st, events[0]) && Possible(cfg, Next(cfg, st, events[0]), events[1..]))
  }

  ghost predicate GoodLog(cfg: Config, I: Index, s: string, rows: seq<Row>, issued: set<string>) {
    RowsOk(cfg, I, s, rows, issued)
  }

  ghost predicate Inv(cfg: Config, st: State) {
    && cfg.relations.Valid() && st.index.Valid()
    && st.index.assocs.Keys <= st.issued
    && (forall s :: GoodLog(cfg, st.index, s, st.Log(s), st.issued))
    && (forall s, t :: s != t ==> NoSharedIds(st.Log(s), st.Log(t)))
  }

  /** Nothing queued, whatever the index holds. */
  lemma InitiallyInv(cfg: Config, st: State)
    requires cfg.relations.Valid() && st.index.Valid() && st.index.assocs.Keys <= st.issued && st.logs == map[]
    ensures Inv(cfg, st)
  {
  }

  /** In a good state, a merge is Acts followed by Settle. */
  lemma MergedIs(cfg: Config, st: State, s: string)
    requires Inv(cfg, st)
    ensures LogOk(st.index, s, st.Log(s))
    ensures Merged(cfg, s, st.index, st.Log(s)) ==
            if st.Log(s) == [] then st.index else Settle(Acts(s, st.index, st.Log(s)))
  {
    assert GoodLog(cfg, st.index, s, st.Log(s), st.issued);
    ReplayIsActs(cfg, s, st.index, st.Log(s));
  }

  // ---------------------------------------------------------------- the invariant

  lemma NewBeadKeepsInv(cfg: Config, st: State, id: string, b: Bead)
    requires Inv(cfg, st) && id != "" && id !in st.index.beads
    ensures Inv(cfg, st.(index := AddBead(st.index, id, b)))
  {
    var st' := st.(index := AddBead(st.index, id, b));
    forall s
      ensures GoodLog(cfg, st'.index, s, st'.Log(s), st'.issued)
    {
      assert GoodLog(cfg, st.index, s, st.Log(s), st.issued);
      forall i | 0 <= i < |st.Log(s)|
        ensures RowOk(st'.index, s, st.Log(s)[i])
      {
        AddBeadKeepsRowOk(st.index, id, b, s, st.Log(s)[i]);
      }
    }
    assert forall s :: st'.Log(s) == st.Log(s);
  }

  /** Queueing good rows with new ids. */
  lemma EnqueueKeepsInv(cfg: Config, st: State, s: string, rows: seq<Row>, ids: set<string>)
    requires Inv(cfg, st) && RowsOk(cfg, st.index, s, rows, ids) && ids !! st.issued
    ensures Inv(cfg, st.(logs := st.logs[s := st.Log(s) + rows], issued := st.issued + ids))
  {
    var st' := st.(logs := st.logs[s := st.Log(s) + rows], issued := st.issued + ids);
    forall t
      ensures GoodLog(cfg, st'.index, t, st'.Log(t), st'.issued)
    {
      assert GoodLog(cfg, st.index, t, st.Log(t), st.issued);
      if t == s { OkConcat(cfg, st.index, s, st.Log(s), st.issued, rows, ids); }
    }
    forall t, u | t != u
      ensures NoSharedIds(st'.Log(t), st'.Log(u))
    {
      assert GoodLog(cfg, st.index, t, st.Log(t), st.issued);
      assert GoodLog(cfg, st.index, u, st.Log(u), st.issued);
      assert NoSharedIds(st.Log(t), st.Log(u));
    }
  }

  lemma ApplyKeepsInv(cfg: Config, st: State, s: string, b: Batch)
    requires Inv(cfg, st) && FreshIds(b, st.issued)
    ensures Inv(cfg, Next(cfg, st, Apply(s, b)))
  {
    QueuedOk(cfg, st.index, s, b);
    EnqueueKeepsInv(cfg, st, s, Queued(cfg, st.index, s, b), b.Ids());
  }

  lemma ActKeys(s: string, I: Index, r: Row)
    ensures Act(s, I, r).assocs.Keys <= I.assocs.Keys + if r.Append? then {r.id} else {}
  {
  }

  lemma {:induction false} ActsKeys(s: string, I: Index, rows: seq<Row>, ids: set<string>)
    requires I.Valid() && LogOk(I, s, rows)
    requires forall r :: r in rows && r.Append? ==> r.id in ids
    ensures Acts(s, I, rows).assocs.Keys <= I.assocs.Keys + ids
    decreases rows
  {
    hide Act;
    if rows != [] {
      assert rows[0] in rows;
      ActKeys(s, I, rows[0]);
      TailOk(s, I, rows);
      ActsKeys(s, Act(s, I, rows[0]), rows[1..], ids);
    }
  }

  lemma SettleKeepsLogOk(I: Index, s: string, rows: seq<Row>)
    requires I.Valid() && LogOk(I, s, rows)
    ensures LogOk(Settle(I), s, rows)
  {
    forall i | 0 <= i < |rows| { SettleKeepsRowOk(I, s, rows[i]); }
  }

  lemma MergedKeepsLogOk(cfg: Config, st: State, s: string, t: string)
    requires Inv(cfg, st)
    ensures LogOk(Merged(cfg, s, st.index, st.Log(s)), t, st.Log(t))
  {
    var J := Acts(s, st.index, st.Log(s));
    MergedIs(cfg, st, s);
    MergedIs(cfg, st, t);
    ActsExtend(s, st.index, st.Log(s));
    if s == t {
      ActsKeepOwnLogOk(s, st.index, st.Log(s));
    } else {
      assert NoSharedIds(st.Log(s), st.Log(t));
      ActsKeepOtherLogOk(st.index, s, st.Log(s), t, st.Log(t));
    }
    SettleKeepsLogOk(J, t, st.Log(t));
  }

  lemma MergedKeepsIndex(cfg: Config, st: State, s: string)
    requires Inv(cfg, st)
    ensures var J := Merged(cfg, s, st.index, st.Log(s));
      J.Valid() && J.assocs.Keys <= st.issued && Extends(st.index, J)
  {
    var J := Acts(s, st.index, st.Log(s));
    MergedIs(cfg, st, s);
    assert GoodLog(cfg, st.index, s, st.Log(s), st.issued);
    ActsExtend(s, st.index, st.Log(s));
    ActsKeys(s, st.index, st.Log(s), st.issued);
    SettleExtends(J);
    ExtendsTrans(st.index, J, Settle(J));
  }

  lemma CrashKeepsInv(cfg: Config, st: State, s: string)
    requires Inv(cfg, st)
    ensures Inv(cfg, Next(cfg, st, CrashedMerge(s)))
  {
    var st' := Next(cfg, st, CrashedMerge(s));
    MergedKeepsIndex(cfg, st, s);
    forall t
      ensures GoodLog(cfg, st'.index, t, st'.Log(t), st'.issued)
    {
      MergedKeepsLogOk(cfg, st, s, t);
      assert GoodLog(cfg, st.index, t, st.Log(t), st.issued);
    }
    forall t, u | t != u
      ensures NoSharedIds(st'.Log(t), st'.Log(u))
    {
      assert NoSharedIds(st.Log(t), st.Log(u));
    }
  }

  lemma ClearKeepsInv(cfg: Config, st: State, s: string)
    requires Inv(cfg, st)
    ensures Inv(cfg, st.(logs := st.logs[s := []]))
  {
    var st' := st.(logs := st.logs[s := []]);
    forall t
      ensures GoodLog(cfg, st'.index, t, st'.Log(t), st'.issued)
    {
      assert GoodLog(cfg, st.index, t, st.Log(t), st.issued);
    }
    forall t, u | t != u
      ensures NoSharedIds(st'.Log(t), st'.Log(u))
    {
      assert NoSharedIds(st.Log(t), st.Log(u));
    }
  }

  lemma NextKeepsInv(cfg: Config, st: State, e: Event)
    requires Inv(cfg, st) && Enabled(st, e)
    ensures Inv(cfg, Next(cfg, st, e))
  {
    match e
    case NewBead(id, b) => NewBeadKeepsInv(cfg, st, id, b);
    case Apply(s, b) => ApplyKeepsInv(cfg, st, s, b);
    case Merge(s) =>
      CrashKeepsInv(cfg, st, s);
      ClearKeepsInv(cfg, Next(cfg, st, CrashedMerge(s)), s);
    case CrashedMerge(s) => CrashKeepsInv(cfg, st, s);
  }
}
