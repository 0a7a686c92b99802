/** Over every run: nothing is lost, nothing is repeated, and crashes leave no trace. */
module SideLogSafety {
  import opened SideLog
  import opened SideLogLaws
  import opened SideLogReplay
  import opened SideLogCommute
  import opened SideLogRuns

  /** Every association that J has and I0 did not is the only one with its endpoints and
      relation, whatever the status or the spelling of the other. */
  ghost predicate Unrepeated(I0: Index, J: Index) {
    forall k, k' :: k in J.assocs && k' in J.assocs && k != k' && k !in I0.assocs
                    ==> J.assocs[k].EffectiveKey() != J.assocs[k'].EffectiveKey()
  }

  lemma SameKeysUnrepeated(I0: Index, I: Index, J: Index)
    requires Unrepeated(I0, I) && Extends(I, J) && I.assocs.Keys == J.assocs.Keys
    ensures Unrepeated(I0, J)
  {
  }

  lemma LandUnrepeated(I0: Index, s: string, I: Index, r: Row)
    requires I.Valid() && r.Append? && RowOk(I, s, r) && Unrepeated(I0, I)
    ensures Unrepeated(I0, Land(I, r.id, Requeued(r.record), r.at))
  {
  }

  lemma ActUnrepeated(I0: Index, s: string, I: Index, r: Row)
    requires I.Valid() && RowOk(I, s, r) && Unrepeated(I0, I)
    ensures Unrepeated(I0, Act(s, I, r))
  {
    hide Land, Unrepeated, Extends;
    ActExtends(s, I, r);
    if r.Append? {
      LandUnrepeated(I0, s, I, r);
    } else {
      SameKeysUnrepeated(I0, I, Act(s, I, r));
    }
  }

  lemma {:induction false} ActsUnrepeated(I0: Index, s: string, I: Index, rows: seq<Row>)
    requires I.Valid() && LogOk(I, s, rows) && Unrepeated(I0, I)
    ensures Unrepeated(I0, Acts(s, I, rows))
    decreases rows
  {
    if rows != [] {
      ActUnrepeated(I0, s, I, rows[0]);
      TailOk(s, I, rows);
      ActsUnrepeated(I0, s, Act(s, I, rows[0]), rows[1..]);
    }
  }

  lemma MergedUnrepeated(cfg: Config, I0: Index, st: State, s: string)
    requires Inv(cfg, st) && Unrepeated(I0, st.index)
    ensures Unrepeated(I0, Merged(cfg, s, st.index, st.Log(s)))
  {
    var J := Acts(s, st.index, st.Log(s));
    MergedIs(cfg, st, s);
    ActsUnrepeated(I0, s, st.index, st.Log(s));
    ActsExtend(s, st.index, st.Log(s));
    SettleExtends(J);
    SameKeysUnrepeated(I0, J, Settle(J));
  }

  lemma NextIsSafe(cfg: Config, I0: Index, st: State, e: Event)
    requires Inv(cfg, st) && Enabled(st, e) && Extends(I0, st.index) && Unrepeated(I0, st.index)
    ensures var st' := Next(cfg, st, e);
      Inv(cfg, st') && Extends(I0, st'.index) && Unrepeated(I0, st'.index)
  {
    hide Inv, Merged, Unrepeated;
    var st' := Next(cfg, st, e);
    NextKeepsInv(cfg, st, e);
    match e
    case NewBead(id, b) =>
      assert Extends(st.index, st'.index);
      ExtendsTrans(I0, st.index, st'.index);
      SameKeysUnrepeated(I0, st.index, st'.index);
    case Apply(_, _) =>
    case Merge(s) =>
      MergedKeepsIndex(cfg, st, s);
      ExtendsTrans(I0, st.index, st'.index);
      MergedUnrepeated(cfg, I0, st, s);
    case CrashedMerge(s) =>
      MergedKeepsIndex(cfg, st, s);
      ExtendsTrans(I0, st.index, st'.index);
      MergedUnrepeated(cfg, I0, st, s);
  }

  lemma {:induction false} RunIsSafeFrom(cfg: Config, I0: Index, st: State, events: seq<Event>)
    requires Inv(cfg, st) && Possible(cfg, st, events) && Extends(I0, st.index) && Unrepeated(I0, st.index)
    ensures var st' := Run(cfg, st, events);
      Inv(cfg, st') && Extends(I0, st'.index) && Unrepeated(I0, st'.index)
    decreases events
  {
    if events != [] {
      NextIsSafe(cfg, I0, st, events[0]);
      RunIsSafeFrom(cfg, I0, Next(cfg, st, events[0]), events[1..]);
    }
  }

  /** Over every run of many sessions, crashes included: no association is removed or changes
      its endpoints, no promotion mark is unset or stamped again, and the index never gains an
      association that effectively repeats another. */
  lemma RunIsSafe(cfg: Config, st: State, events: seq<Event>)
    requires Inv(cfg, st) && Possible(cfg, st, events)
    ensures var st' := Run(cfg, st, events);
      Inv(cfg, st') && Extends(st.index, st'.index) && Unrepeated(st.index, st'.index)
  {
    RunIsSafeFrom(cfg, st.index, st, events);
  }

  // ---------------------------------------------------------------- crashes

  /** The same run with every crashed merge completed. */
  function WithoutCrashes(events: seq<Event>): seq<Event> {
    if events == [] then []
    else
      var e := events[0];
      [if e.CrashedMerge? then Merge(e.session) else e] + WithoutCrashes(events[1..])
  }

  /** How the state c of a run with crashes relates to the state d of the same run without:
      same index, and each log of c carries a residue whose replay has no effect. */
  ghost predicate Residue(c: State, d: State, s: string) {
    var n := |c.Log(s)| - |d.Log(s)|;
    && n >= 0 && c.Log(s)[n..] == d.Log(s)
    && Acts(s, c.index, c.Log(s)[..n]) == c.index
    && (n > 0 ==> Settle(c.index) == c.index)
  }

  ghost predicate Related(cfg: Config, c: State, d: State) {
    && Inv(cfg, c) && Inv(cfg, d)
    && c.index == d.index && c.issued == d.issued
    && forall s :: Residue(c, d, s)
  }

  lemma PrefixOk(I: Index, s: string, rows: seq<Row>, n: nat)
    requires LogOk(I, s, rows) && n <= |rows|
    ensures LogOk(I, s, rows[..n])
  {
  }

  lemma ResidueUnderApply(c: State, d: State, s: string, rows: seq<Row>, b: Batch, t: string)
    requires Residue(c, d, t)
    ensures Residue(c.(logs := c.logs[s := c.Log(s) + rows], issued := c.issued + b.Ids()),
                    d.(logs := d.logs[s := d.Log(s) + rows], issued := d.issued + b.Ids()), t)
  {
    hide Acts, Settle;
    if s == t {
      var n := |c.Log(s)| - |d.Log(s)|;
      assert (c.Log(s) + rows)[n..] == c.Log(s)[n..] + rows;
      assert (c.Log(s) + rows)[..n] == c.Log(s)[..n];
    }
  }

  lemma ResidueUnderNewBead(c: State, d: State, id: string, b: Bead, t: string)
    requires Residue(c, d, t) && c.index.Valid() && LogOk(c.index, t, c.Log(t))
    requires id != "" && id !in c.index.beads
    ensures Residue(c.(index := AddBead(c.index, id, b)), d.(index := AddBead(d.index, id, b)), t)
  {
    var n := |c.Log(t)| - |d.Log(t)|;
    PrefixOk(c.index, t, c.Log(t), n);
    ActsAddBead(t, c.index, id, b, c.Log(t)[..n]);
  }

  /** A merge does the same with and without the residue. */
  lemma ResidueMergesAway(cfg: Config, c: State, d: State, s: string)
    requires Related(cfg, c, d)
    ensures Merged(cfg, s, c.index, c.Log(s)) == Merged(cfg, s, d.index, d.Log(s))
    ensures Acts(s, c.index, c.Log(s)) == Acts(s, d.index, d.Log(s))
  {
    hide Merged, Settle, Acts, Inv;
    assert Residue(c, d, s);
    var n := |c.Log(s)| - |d.Log(s)|;
    MergedIs(cfg, c, s);
    MergedIs(cfg, d, s);
    assert c.Log(s) == c.Log(s)[..n] + d.Log(s);
    ActsSplit(s, c.index, c.Log(s)[..n], d.Log(s));
    NoActs(s, d.index);
  }

  lemma SeparateFromPrefix(cfg: Config, st: State, s: string, t: string, n: nat)
    requires Inv(cfg, st) && s != t && n <= |st.Log(t)|
    ensures st.index.Valid() && NoSharedIds(st.Log(s), st.Log(t)[..n])
  {
    hide GoodLog;
    assert NoSharedIds(st.Log(s), st.Log(t));
  }

  /** Other sessions' residues stay without effect. */
  lemma OtherResidueStays(cfg: Config, c: State, d: State, s: string, t: string)
    requires Related(cfg, c, d) && s != t
    ensures var n := |c.Log(t)| - |d.Log(t)|;
      var J := Merged(cfg, s, c.index, c.Log(s));
      && n >= 0 && Acts(t, J, c.Log(t)[..n]) == J
      && (n > 0 ==> Settle(J) == J)
  {
    hide Acts, Settle, Merged, Inv, LogOk, NoSharedIds, Extends;
    assert Residue(c, d, t);
    var n := |c.Log(t)| - |d.Log(t)|;
    var stale := c.Log(t)[..n];
    var J := Acts(s, c.index, c.Log(s));
    MergedIs(cfg, c, s);
    MergedIs(cfg, c, t);
    PrefixOk(c.index, t, c.Log(t), n);
    SeparateFromPrefix(cfg, c, s, t, n);
    LogsCommute(c.index, s, c.Log(s), t, stale);
    ActsExtend(s, c.index, c.Log(s));
    ActsKeepOtherLogOk(c.index, s, c.Log(s), t, stale);
    ActsSettle(t, J, stale);
    SettleTwice(J);
  }

  /** After a crash the whole log is a residue. */
  lemma OwnResidueAfterCrash(cfg: Config, c: State, s: string)
    requires Inv(cfg, c)
    ensures var J := Merged(cfg, s, c.index, c.Log(s));
      Acts(s, J, c.Log(s)) == J && (c.Log(s) != [] ==> Settle(J) == J)
  {
    var J := Acts(s, c.index, c.Log(s));
    MergedIs(cfg, c, s);
    ReplayTwice(s, c.index, c.Log(s));
    ActsExtend(s, c.index, c.Log(s));
    ActsKeepOwnLogOk(s, c.index, c.Log(s));
    ActsSettle(s, J, c.Log(s));
    SettleTwice(J);
  }

  lemma MergeKeepsOwnResidue(cfg: Config, c: State, d: State, s: string, crash: bool)
    requires Related(cfg, c, d)
    ensures Residue(Next(cfg, c, if crash then CrashedMerge(s) else Merge(s)), Next(cfg, d, Merge(s)), s)
  {
    hide Merged;
    OwnResidueAfterCrash(cfg, c, s);
    assert c.Log(s)[..|c.Log(s)|] == c.Log(s);
  }

  lemma MergeKeepsOtherResidue(cfg: Config, c: State, d: State, s: string, crash: bool, t: string)
    requires Related(cfg, c, d) && s != t
    ensures Residue(Next(cfg, c, if crash then CrashedMerge(s) else Merge(s)), Next(cfg, d, Merge(s)), t)
  {
    hide Merged, Inv, Settle;
    assert Residue(c, d, t);
    OtherResidueStays(cfg, c, d, s, t);
  }

  lemma MergeStaysRelated(cfg: Config, c: State, d: State, s: string, crash: bool)
    requires Related(cfg, c, d)
    ensures Related(cfg, Next(cfg, c, if crash then CrashedMerge(s) else Merge(s)), Next(cfg, d, Merge(s)))
  {
    hide Merged, Inv, Residue;
    var e := if crash then CrashedMerge(s) else Merge(s);
    var c', d' := Next(cfg, c, e), Next(cfg, d, Merge(s));
    NextKeepsInv(cfg, c, e);
    NextKeepsInv(cfg, d, Merge(s));
    ResidueMergesAway(cfg, c, d, s);
    forall t
      ensures Residue(c', d', t)
    {
      if t == s { MergeKeepsOwnResidue(cfg, c, d, s, crash); } else { MergeKeepsOtherResidue(cfg, c, d, s, crash, t); }
    }
  }

  lemma NextStaysRelated(cfg: Config, c: State, d: State, e: Event)
    requires Related(cfg, c, d) && Enabled(c, e)
    ensures var e' := if e.CrashedMerge? then Merge(e.session) else e;
      Enabled(d, e') && Related(cfg, Next(cfg, c, e), Next(cfg, d, e'))
  {
    match e
    case NewBead(id, b) =>
      NewBeadKeepsInv(cfg, c, id, b);
      NewBeadKeepsInv(cfg, d, id, b);
      forall t
        ensures Residue(Next(cfg, c, e), Next(cfg, d, e), t)
      {
        assert Residue(c, d, t);
        MergedIs(cfg, c, t);
        ResidueUnderNewBead(c, d, id, b, t);
      }
    case Apply(s, b) =>
      ApplyKeepsInv(cfg, c, s, b);
      ApplyKeepsInv(cfg, d, s, b);
      forall t
        ensures Residue(Next(cfg, c, e), Next(cfg, d, e), t)
      {
        assert Residue(c, d, t);
        ResidueUnderApply(c, d, s, Queued(cfg, c.index, s, b), b, t);
      }
    case Merge(s) => MergeStaysRelated(cfg, c, d, s, false);
    case CrashedMerge(s) => MergeStaysRelated(cfg, c, d, s, true);
  }

  lemma {:induction false} RunsStayRelated(cfg: Config, c: State, d: State, events: seq<Event>)
    requires Related(cfg, c, d) && Possible(cfg, c, events)
    ensures Possible(cfg, d, WithoutCrashes(events))
    ensures Related(cfg, Run(cfg, c, events), Run(cfg, d, WithoutCrashes(events)))
    decreases events
  {
    if events != [] {
      var e := events[0];
      var e' := if e.CrashedMerge? then Merge(e.session) else e;
      NextStaysRelated(cfg, c, d, e);
      RunsStayRelated(cfg, Next(cfg, c, e), Next(cfg, d, e'), events[1..]);
      assert WithoutCrashes(events)[1..] == WithoutCrashes(events[1..]);
    }
  }

  lemma StartsRelated(cfg: Config, st: State)
    requires Inv(cfg, st)
    ensures Related(cfg, st, st)
  {
    forall s
      ensures Residue(st, st, s)
    {
      assert st.Log(s)[..0] == [];
    }
  }

  /** Crashes between the index write and the log clear are invisible: at the end of any run
      (hence at every point of it) the index is what it would be had no merge crashed. */
  lemma CrashesLeaveNoTrace(cfg: Config, st: State, events: seq<Event>)
    requires Inv(cfg, st) && Possible(cfg, st, events)
    ensures Possible(cfg, st, WithoutCrashes(events))
    ensures Run(cfg, st, events).index == Run(cfg, st, WithoutCrashes(events)).index
  {
    StartsRelated(cfg, st);
    RunsStayRelated(cfg, st, st, events);
  }
}
