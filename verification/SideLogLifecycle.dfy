/** What a merge leaves on one association. */
module SideLogLifecycle {
  import opened SideLog
  import opened Patches
  import opened SideLogLaws
  import opened SideLogReplay
  import opened SideLogRuns

  lemma MergedAssoc(cfg: Config, st: State, s: string, k: string)
    requires Inv(cfg, st) && k in st.index.assocs && st.Log(s) != []
    ensures var J := Merged(cfg, s, st.index, st.Log(s));
      k in J.assocs && J.assocs[k] == WithStatus(Patched(st.index.assocs[k], LogPatch(st.Log(s), k)))
  {
    MergedIs(cfg, st, s);
    ActsPatch(s, st.index, st.Log(s), k);
  }

  /** The last queued row that names an association, as target or as replacement, decides its
      status. */
  lemma LastRowDecidesStatus(cfg: Config, st: State, s: string, k: string, last: nat)
    requires Inv(cfg, st) && k in st.index.assocs
    requires last < |st.Log(s)| && Names(st.Log(s)[last], k)
    requires forall j :: last < j < |st.Log(s)| ==> !Names(st.Log(s)[j], k)
    ensures var J := Merged(cfg, s, st.index, st.Log(s));
      k in J.assocs && J.assocs[k].status == StatusGiven(st.Log(s)[last], k)
  {
    MergedAssoc(cfg, st, s, k);
    LastWriterDecides(st.Log(s), k, last);
  }

  /** Its confidence becomes the largest of the old value and what reaffirming rows offer: never
      below any of them, and always one of them. */
  lemma ConfidenceIsMaximum(cfg: Config, st: State, s: string, k: string)
    requires Inv(cfg, st) && k in st.index.assocs && st.Log(s) != []
    ensures k in Merged(cfg, s, st.index, st.Log(s)).assocs
    ensures var rows := st.Log(s);
      var before := st.index.assocs[k].confidence;
      var after := Merged(cfg, s, st.index, rows).assocs[k].confidence;
      && (before.Some? ==> after.Some? && before.value <= after.value)
      && (forall j, c :: 0 <= j < |rows| && Offers(rows[j], k, c) ==> after.Some? && c <= after.value)
      && (after == before || exists j :: 0 <= j < |rows| && after.Some? && Offers(rows[j], k, after.value))
  {
    MergedAssoc(cfg, st, s, k);
    ConfidenceIsLargestOffer(st.Log(s), k);
  }

  /** An association with an endpoint outside the merged session is not touched, except that a
      missing status becomes the active it stands for. */
  lemma OutOfScopeUntouched(cfg: Config, st: State, s: string, k: string)
    requires Inv(cfg, st) && k in st.index.assocs && !st.index.InScope(s, st.index.assocs[k])
    ensures var J := Merged(cfg, s, st.index, st.Log(s));
      k in J.assocs && WithStatus(J.assocs[k]) == WithStatus(st.index.assocs[k])
  {
    var rows := st.Log(s);
    if rows == [] {
      MergedIs(cfg, st, s);
    } else {
      MergedAssoc(cfg, st, s, k);
      MergedIs(cfg, st, s);
      forall j | 0 <= j < |rows|
        ensures !Names(rows[j], k)
      {
        assert RowOk(st.index, s, rows[j]);
      }
      NobodyWrites(rows, k);
      NoPatchIsIdentity(st.index.assocs[k]);
    }
  }
}
