/** The index once every log has been replayed, in whichever order. */
module SideLogDrain {
  import opened SideLog
  import opened SideLogLaws
  import opened SideLogReplay
  import opened SideLogCommute
  import opened SideLogRuns

  function LogIn(logs: map<string, seq<Row>>, s: string): seq<Row> {
    if s in logs then logs[s] else []
  }

  ghost predicate LogsOk(I: Index, logs: map<string, seq<Row>>) {
    && I.Valid()
    && (forall s :: LogOk(I, s, LogIn(logs, s)))
    && (forall s, t :: s != t ==> NoSharedIds(LogIn(logs, s), LogIn(logs, t)))
  }

  /** The index once the logs of the listed sessions have been replayed, in that order. */
  ghost function Drain(I: Index, logs: map<string, seq<Row>>, order: seq<string>): Index
    decreases order
  {
    if order == [] then I
    else Drain(Acts(order[0], I, LogIn(logs, order[0])), logs[order[0] := []], order[1..])
  }

  lemma OneDrained(I: Index, logs: map<string, seq<Row>>, s: string)
    requires LogsOk(I, logs)
    ensures LogsOk(Acts(s, I, LogIn(logs, s)), logs[s := []])
    ensures Extends(I, Acts(s, I, LogIn(logs, s)))
  {
    var J := Acts(s, I, LogIn(logs, s));
    var logs' := logs[s := []];
    assert LogOk(I, s, LogIn(logs, s));
    ActsExtend(s, I, LogIn(logs, s));
    forall t
      ensures LogOk(J, t, LogIn(logs', t))
    {
      assert LogOk(I, t, LogIn(logs, t));
      if t != s {
        assert NoSharedIds(LogIn(logs, s), LogIn(logs, t));
        ActsKeepOtherLogOk(I, s, LogIn(logs, s), t, LogIn(logs, t));
      }
    }
    forall t, u | t != u
      ensures NoSharedIds(LogIn(logs', t), LogIn(logs', u))
    {
      assert NoSharedIds(LogIn(logs, t), LogIn(logs, u));
    }
  }

  /** Replaying one session's log first makes no difference. */
  lemma {:induction false} DrainOneFirst(I: Index, logs: map<string, seq<Row>>, order: seq<string>, s: string)
    requires LogsOk(I, logs) && s in order
    ensures Drain(Acts(s, I, LogIn(logs, s)), logs[s := []], order) == Drain(I, logs, order)
    decreases order
  {
    hide Acts;
    var o, rest := order[0], order[1..];
    var Ls, Lo := LogIn(logs, s), LogIn(logs, o);
    if o == s {
      NoActs(s, Acts(s, I, Ls));
      assert logs[s := []][s := []] == logs[s := []];
    } else {
      assert LogOk(I, s, Ls) && LogOk(I, o, Lo) && NoSharedIds(Ls, Lo);
      LogsCommute(I, s, Ls, o, Lo);
      OneDrained(I, logs, o);
      DrainOneFirst(Acts(o, I, Lo), logs[o := []], rest, s);
      assert logs[s := []][o := []] == logs[o := []][s := []];
    }
  }

  lemma {:induction false} DrainExtends(I: Index, logs: map<string, seq<Row>>, order: seq<string>)
    requires LogsOk(I, logs)
    ensures Drain(I, logs, order).Valid() && Extends(I, Drain(I, logs, order))
    ensures Drain(I, logs, order).beads.Keys == I.beads.Keys
    decreases order
  {
    if order != [] {
      var J := Acts(order[0], I, LogIn(logs, order[0]));
      OneDrained(I, logs, order[0]);
      assert LogOk(I, order[0], LogIn(logs, order[0]));
      ActsExtend(order[0], I, LogIn(logs, order[0]));
      DrainExtends(J, logs[order[0] := []], order[1..]);
      ExtendsTrans(I, J, Drain(I, logs, order));
    }
  }

  /** Rows of a session with nothing queued can act before or after the rest is drained. */
  lemma {:induction false} DrainCommutes(I: Index, logs: map<string, seq<Row>>, order: seq<string>, s: string,
      rows: seq<Row>)
    requires LogsOk(I, logs[s := rows]) && LogsOk(I, logs) && LogIn(logs, s) == []
    ensures Drain(Acts(s, I, rows), logs, order) == Acts(s, Drain(I, logs, order), rows)
    decreases order
  {
    if order != [] {
      var o, rest := order[0], order[1..];
      var lone := logs[s := rows];
      if o == s {
        assert logs[s := []][s := rows] == lone;
        OneDrained(I, logs, s);
        DrainCommutes(I, logs[s := []], rest, s, rows);
      } else {
        var Lo := LogIn(logs, o);
        assert LogOk(I, s, LogIn(lone, s)) && LogOk(I, o, LogIn(lone, o));
        assert NoSharedIds(LogIn(lone, s), LogIn(lone, o));
        LogsCommute(I, s, rows, o, Lo);
        OneDrained(I, logs, o);
        OneDrained(I, lone, o);
        assert lone[o := []] == logs[o := []][s := rows];
        DrainCommutes(Acts(o, I, Lo), logs[o := []], rest, s, rows);
      }
    }
  }

  lemma LoneLogOk(I: Index, logs: map<string, seq<Row>>, s: string, rows: seq<Row>)
    requires LogsOk(I, logs[s := LogIn(logs, s) + rows]) && LogsOk(I, logs)
    ensures LogsOk(Acts(s, I, LogIn(logs, s)), logs[s := []][s := rows])
  {
    var J := Acts(s, I, LogIn(logs, s));
    var longer, lone := logs[s := LogIn(logs, s) + rows], logs[s := []][s := rows];
    assert LogOk(I, s, LogIn(longer, s));
    ActsKeepLogOk(s, I, LogIn(logs, s), rows);
    OneDrained(I, logs, s);
    forall t
      ensures LogOk(J, t, LogIn(lone, t))
    {
      assert LogOk(J, t, LogIn(logs[s := []], t));
    }
    forall t, u | t != u
      ensures NoSharedIds(LogIn(lone, t), LogIn(lone, u))
    {
      assert NoSharedIds(LogIn(longer, t), LogIn(longer, u));
    }
  }

  lemma DrainLonger(I: Index, logs: map<string, seq<Row>>, order: seq<string>, s: string, rows: seq<Row>)
    requires LogsOk(I, logs[s := LogIn(logs, s) + rows]) && s in order
    ensures Drain(I, logs[s := LogIn(logs, s) + rows], order) ==
            Drain(Acts(s, Acts(s, I, LogIn(logs, s)), rows), logs[s := []], order)
  {
    var longer := logs[s := LogIn(logs, s) + rows];
    DrainOneFirst(I, longer, order, s);
    assert longer[s := []] == logs[s := []];
    ActsSplit(s, I, LogIn(logs, s), rows);
  }

  /** Rows added to one session's log act after everything else has been drained. */
  lemma DrainAppended(I: Index, logs: map<string, seq<Row>>, order: seq<string>, s: string, rows: seq<Row>)
    requires LogsOk(I, logs[s := LogIn(logs, s) + rows]) && LogsOk(I, logs) && s in order
    ensures Drain(I, logs[s := LogIn(logs, s) + rows], order) == Acts(s, Drain(I, logs, order), rows)
  {
    DrainLonger(I, logs, order, s, rows);
    OneDrained(I, logs, s);
    LoneLogOk(I, logs, s, rows);
    DrainCommutes(Acts(s, I, LogIn(logs, s)), logs[s := []], order, s, rows);
    DrainOneFirst(I, logs, order, s);
  }

  lemma {:induction false} DrainSettled(I: Index, logs: map<string, seq<Row>>, order: seq<string>)
    requires LogsOk(I, logs)
    ensures Drain(Settle(I), logs, order) == Settle(Drain(I, logs, order))
    decreases order
  {
    if order != [] {
      assert LogOk(I, order[0], LogIn(logs, order[0]));
      ActsSettle(order[0], I, LogIn(logs, order[0]));
      OneDrained(I, logs, order[0]);
      DrainSettled(Acts(order[0], I, LogIn(logs, order[0])), logs[order[0] := []], order[1..]);
    }
  }

  lemma {:induction false} DrainWithBead(I: Index, logs: map<string, seq<Row>>, order: seq<string>, id: string, b: Bead)
    requires LogsOk(I, logs) && id != "" && id !in I.beads
    ensures Drain(AddBead(I, id, b), logs, order) == AddBead(Drain(I, logs, order), id, b)
    decreases order
  {
    if order != [] {
      var rows := LogIn(logs, order[0]);
      assert LogOk(I, order[0], rows);
      ActsAddBead(order[0], I, id, b, rows);
      OneDrained(I, logs, order[0]);
      ActsExtend(order[0], I, rows);
      DrainWithBead(Acts(order[0], I, rows), logs[order[0] := []], order[1..], id, b);
    }
  }

  lemma {:induction false} DrainNothing(I: Index, logs: map<string, seq<Row>>, order: seq<string>)
    requires forall s :: LogIn(logs, s) == []
    ensures Drain(I, logs, order) == I
    decreases order
  {
    if order != [] {
      var logs' := logs[order[0] := []];
      forall s
        ensures LogIn(logs', s) == []
      {
        assert LogIn(logs, s) == [];
      }
      DrainNothing(I, logs', order[1..]);
    }
  }

  /** Every append id in the logs is one of `ids`. */
  ghost predicate IdsWithin(logs: map<string, seq<Row>>, ids: set<string>) {
    forall s :: RowIdsWithin(LogIn(logs, s), ids)
  }

  ghost predicate RowIdsWithin(rows: seq<Row>, ids: set<string>) {
    forall r :: r in rows && r.Append? ==> r.id in ids
  }

  lemma {:induction false} DrainKeys(I: Index, logs: map<string, seq<Row>>, order: seq<string>, ids: set<string>)
    requires LogsOk(I, logs) && IdsWithin(logs, ids) && I.assocs.Keys <= ids
    ensures Drain(I, logs, order).assocs.Keys <= ids
    decreases order
  {
    if order != [] {
      assert LogOk(I, order[0], LogIn(logs, order[0])) && RowIdsWithin(LogIn(logs, order[0]), ids);
      ActsKeys(order[0], I, LogIn(logs, order[0]), ids);
      OneDrained(I, logs, order[0]);
      var logs' := logs[order[0] := []];
      forall s
        ensures RowIdsWithin(LogIn(logs', s), ids)
      {
        assert RowIdsWithin(LogIn(logs, s), ids);
      }
      DrainKeys(Acts(order[0], I, LogIn(logs, order[0])), logs', order[1..], ids);
    }
  }

  lemma {:induction false} DrainKeepsRows(I: Index, logs: map<string, seq<Row>>, order: seq<string>, s: string,
      rows: seq<Row>)
    requires LogsOk(I, logs[s := LogIn(logs, s) + rows]) && LogsOk(I, logs)
    ensures LogOk(Drain(I, logs, order), s, rows)
    decreases order
  {
    var longer := logs[s := LogIn(logs, s) + rows];
    if order == [] {
      assert LogOk(I, s, LogIn(longer, s));
      forall i | 0 <= i < |rows|
        ensures rows[i] == LogIn(longer, s)[|LogIn(logs, s)| + i]
      {
      }
    } else {
      var o := order[0];
      var logs' := logs[o := []];
      OneDrained(I, logs, o);
      if o == s {
        LoneLogOk(I, logs, s, rows);
        assert LogIn(logs', s) + rows == rows;
      } else {
        OneDrained(I, longer, o);
        assert longer[o := []] == logs'[s := LogIn(logs', s) + rows];
      }
      DrainKeepsRows(Acts(o, I, LogIn(logs, o)), logs', order[1..], s, rows);
    }
  }

  lemma InvLogsOk(cfg: Config, st: State)
    requires Inv(cfg, st)
    ensures LogsOk(st.index, st.logs) && IdsWithin(st.logs, st.issued)
  {
    forall s
      ensures LogOk(st.index, s, LogIn(st.logs, s))
      ensures RowIdsWithin(LogIn(st.logs, s), st.issued)
    {
      assert LogIn(st.logs, s) == st.Log(s);
      assert GoodLog(cfg, st.index, s, st.Log(s), st.issued);
    }
    forall s, t | s != t
      ensures NoSharedIds(LogIn(st.logs, s), LogIn(st.logs, t))
    {
      assert NoSharedIds(st.Log(s), st.Log(t));
    }
  }
}
