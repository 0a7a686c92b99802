/** Where the moment of a merge does matter: a lifecycle request for an association that is still
    in the log. */
module SideLogTimingLimits {
  import opened Options
  import opened Inference
  import opened SideLog
  import opened SideLogLaws
  import opened SideLogReplay
  import opened SideLogEnqueue
  import opened SideLogRuns
  import opened SideLogTiming

  /** A batch that only asks to retract one association. */
  function OnlyRetract(id: string, surface: set<string>, now: int): Batch {
    Batch([], [], [LifeRequest(id, Retract, "", "", None, "")], 0, surface, {}, false, now)
  }

  lemma RetractQueued(cfg: Config, I: Index, s: string, id: string, surface: set<string>, now: int)
    ensures var b := OnlyRetract(id, surface, now);
      Queued(cfg, I, s, b) == if Requestable(I, s, b, b.lifecycle[0]) then [LifecycleRow(b.lifecycle[0], now)] else []
  {
    var b := OnlyRetract(id, surface, now);
    assert b.lifecycle[1..] == [];
    assert QueuedLifecycle(I, s, b, []) == [];
    assert Diagnostics(0) == [];
  }

  lemma OneAct(s: string, I: Index, r: Row)
    ensures Acts(s, I, [r]) == Act(s, I, r)
  {
  }

  /** One append merged into an index without its triple: the association is there, and active. */
  lemma AppendLands(cfg: Config, st: State, s: string, row: Row)
    requires Inv(cfg, st) && st.Log(s) == [row] && row.Append? && row.id !in st.index.assocs
    requires !ModelPrecedes(row.record.relationship, row.record.provenance) && !Stored(st.index, TripleOf(row.record))
    ensures var J := Merged(cfg, s, st.index, [row]);
      && J.beads == st.index.beads && row.id in J.assocs
      && J.assocs[row.id] == NewAssoc(row.id, Requeued(row.record), row.at)
  {
    MergedIs(cfg, st, s);
    OneAct(s, st.index, row);
    assert Act(s, st.index, row) == Land(st.index, row.id, Requeued(row.record), row.at);
  }

  lemma RetractApplies(cfg: Config, st: State, s: string, row: Row, q: Row)
    requires Inv(cfg, st) && st.Log(s) == [q] && q.Lifecycle? && q.action.Retract? && Applies(st.index, s, q)
    ensures var J := Merged(cfg, s, st.index, [q]);
      q.target in J.assocs && J.assocs[q.target].status == "retracted"
  {
    MergedIs(cfg, st, s);
    OneAct(s, st.index, q);
    ActPatches(s, st.index, q, q.target);
  }

  /** One call queues exactly one association, new and between two beads of the session. */
  ghost predicate QueuesOne(cfg: Config, st: State, s: string, b: Batch, row: Row) {
    && Inv(cfg, st) && st.logs == map[] && FreshIds(b, st.issued)
    && Queued(cfg, st.index, s, b) == [row] && row.Append? && row.id != "" && row.id in b.Ids()
    && !ModelPrecedes(row.record.relationship, row.record.provenance)
    && !Stored(st.index, TripleOf(row.record)) && st.index.Owns(s, row.record.target)
  }

  function RetractOf(row: Row, now: int): Batch
    requires row.Append?
  {
    OnlyRetract(row.id, {row.record.source, row.record.target}, now)
  }

  lemma AfterApply(cfg: Config, st: State, s: string, b: Batch, row: Row)
    requires QueuesOne(cfg, st, s, b, row)
    ensures var st' := Next(cfg, st, Apply(s, b));
      Inv(cfg, st') && st'.index == st.index && st'.Log(s) == [row] && row.id !in st'.index.assocs
      && RowOk(st'.index, s, row)
  {
    hide Queued;
    var st' := Next(cfg, st, Apply(s, b));
    NextKeepsInv(cfg, st, Apply(s, b));
    MergedIs(cfg, st', s);
    assert st'.Log(s) == [row] && st'.Log(s)[0] == row;
  }

  lemma RetractBetween(cfg: Config, st: State, s: string, b: Batch, row: Row, now: int)
    requires QueuesOne(cfg, st, s, b, row)
    ensures var I := Run(cfg, st, [Apply(s, b), Merge(s), Apply(s, RetractOf(row, now)), Merge(s)]).index;
      row.id in I.assocs && I.assocs[row.id].status == "retracted"
  {
    hide Queued, Merged, Inv;
    var retract := RetractOf(row, now);
    var q := LifecycleRow(retract.lifecycle[0], now);
    var s1 := Next(cfg, st, Apply(s, b));
    AfterApply(cfg, st, s, b, row);
    AppendLands(cfg, s1, s, row);
    var s2 := Next(cfg, s1, Merge(s));
    NextKeepsInv(cfg, s1, Merge(s));
    RetractQueued(cfg, s2.index, s, row.id, {row.record.source, row.record.target}, now);
    assert Requestable(s2.index, s, retract, retract.lifecycle[0]);
    var s3 := Next(cfg, s2, Apply(s, retract));
    assert s3.Log(s) == [q];
    NextKeepsInv(cfg, s2, Apply(s, retract));
    RetractApplies(cfg, s3, s, row, q);
    RunOfFour(cfg, st, Apply(s, b), Merge(s), Apply(s, retract), Merge(s));
  }

  lemma RetractTooEarly(cfg: Config, st: State, s: string, b: Batch, row: Row, now: int)
    requires QueuesOne(cfg, st, s, b, row)
    ensures var I := Run(cfg, st, [Apply(s, b), Apply(s, RetractOf(row, now)), Merge(s)]).index;
      row.id in I.assocs && I.assocs[row.id].status == "active"
  {
    hide Queued, Merged, Inv;
    var s1 := Next(cfg, st, Apply(s, b));
    AfterApply(cfg, st, s, b, row);
    RetractQueued(cfg, s1.index, s, row.id, {row.record.source, row.record.target}, now);
    var s2 := Next(cfg, s1, Apply(s, RetractOf(row, now)));
    assert s2.Log(s) == [row] + [] == [row] && s2.index == s1.index;
    AppendLands(cfg, s1, s, row);
    RunOfThree(cfg, st, Apply(s, b), Apply(s, RetractOf(row, now)), Merge(s));
  }

  /** The restriction is needed: for every association a session queues between two of its own
      beads, asking to retract it works after a merge and is ignored before one. */
  lemma LifecycleTimingMatters(cfg: Config, st: State, s: string, b: Batch, row: Row, now: int)
    requires QueuesOne(cfg, st, s, b, row)
    ensures var between := [Apply(s, b), Merge(s), Apply(s, RetractOf(row, now)), Merge(s)];
      var after := [Apply(s, b), Apply(s, RetractOf(row, now)), Merge(s)];
      && WithoutMerges(between) == WithoutMerges(after)
      && Run(cfg, st, between).index != Run(cfg, st, after).index
  {
    hide Run;
    var x, y := Apply(s, b), Apply(s, RetractOf(row, now));
    RetractBetween(cfg, st, s, b, row, now);
    RetractTooEarly(cfg, st, s, b, row, now);
    WithoutMergesOf(x, y, Merge(s));
  }

  lemma WithoutMergesOf(x: Event, y: Event, m: Event)
    requires x.Apply? && y.Apply? && m.Merge?
    ensures WithoutMerges([x, m, y, m]) == WithoutMerges([x, y, m]) == [x, y]
  {
    assert WithoutMerges([m]) == [] by { assert [m][1..] == []; }
    assert WithoutMerges([y, m]) == [y] by { assert [y, m][1..] == [m]; }
    assert WithoutMerges([m, y, m]) == [y] by { assert [m, y, m][1..] == [y, m]; }
    assert [x, m, y, m][1..] == [m, y, m] && [x, y, m][1..] == [y, m];
  }

  lemma RunOfThree(cfg: Config, st: State, a: Event, b: Event, c: Event)
    ensures Run(cfg, st, [a, b, c]) == Next(cfg, Next(cfg, Next(cfg, st, a), b), c)
  {
    hide Next;
    assert [a, b, c][1..] == [b, c] && [b, c][1..] == [c] && [c][1..] == [];
    var s1 := Next(cfg, st, a);
    var s2 := Next(cfg, s1, b);
    assert Run(cfg, s2, [c]) == Next(cfg, s2, c);
    assert Run(cfg, s1, [b, c]) == Run(cfg, s2, [c]);
  }

  lemma RunOfFour(cfg: Config, st: State, a: Event, b: Event, c: Event, d: Event)
    ensures Run(cfg, st, [a, b, c, d]) == Next(cfg, Next(cfg, Next(cfg, Next(cfg, st, a), b), c), d)
  {
    hide Next;
    assert [a, b, c, d][1..] == [b, c, d];
    RunOfThree(cfg, Next(cfg, st, a), b, c, d);
  }
}
