/** When merges happen does not matter: queueing refines applying at once. */
module SideLogTiming {
  import opened Inference
  import opened SideLog
  import opened SideLogLaws
  import opened SideLogReplay
  import opened SideLogCommute
  import opened SideLogEnqueue
  import opened SideLogRuns
  import opened SideLogSafety
  import opened SideLogDrain
  import opened SideLogRequests

  /** What an event does when every apply takes effect at once and merges do nothing. */
  ghost function AtOnce(cfg: Config, I: Index, e: Event): Index {
    match e
    case NewBead(id, b) => AddBead(I, id, b)
    case Apply(s, b) => Replay(cfg, s, I, Queued(cfg, I, s, b))
    case _ => I
  }

  /** The simple form of the protocol. */
  ghost function Immediate(cfg: Config, I: Index, events: seq<Event>): Index
    decreases events
  {
    if events == [] then I else Immediate(cfg, AtOnce(cfg, I, events[0]), events[1..])
  }

  /** Every apply sees the associations named by the requests it would be granted if all had taken
      effect at once; E is the index of the simple form. */
  ghost predicate SeesAll(cfg: Config, st: State, E: Index, events: seq<Event>)
    decreases events
  {
    events == [] ||
    (&& (events[0].Apply? ==> SeesRequests(st.index, E, events[0].session, events[0].batch))
     && SeesAll(cfg, Next(cfg, st, events[0]), AtOnce(cfg, E, events[0]), events[1..]))
  }

  /** No apply asks for a lifecycle change of an association that waits in its own session's log.
      (Apply ignores such a request, and would not after a merge; see SideLogTimingLimits.) */
  ghost predicate NamesNothingPending(cfg: Config, st: State, events: seq<Event>)
    decreases events
  {
    events == [] ||
    (&& (events[0].Apply? ==> NamesNone(events[0].batch, PendingIds(st, events[0].session)))
     && NamesNothingPending(cfg, Next(cfg, st, events[0]), events[1..]))
  }

  // ---------------------------------------------------------------- the two dedupe layers

  /** Keys new in E are stored there as they effectively are. */
  ghost predicate NewKeysStored(I: Index, E: Index) {
    forall key :: key in EffectiveKeys(E) && key !in EffectiveKeys(I) ==> Stored(E, key)
  }

  lemma {:induction false} CandidatesSame(cfg: Config, I: Index, E: Index, s: string, b: Batch, xs: seq<Authored>)
    requires SameBeads(I, E)
    ensures Candidates(cfg, I, s, b, xs) == Candidates(cfg, E, s, b, xs)
  {
    if xs != [] {
      assert Candidate(cfg, I, s, b, xs[0]) == Candidate(cfg, E, s, b, xs[0]);
      CandidatesSame(cfg, I, E, s, b, xs[1..]);
    }
  }

  lemma StoredStays(s: string, C: Index, r: Row, key: Triple)
    requires r.Append? && r.id !in C.assocs && Stored(C, key)
    ensures Stored(Act(s, C, r), key)
  {
    LandStored(C, r.id, Requeued(r.record), r.at, key);
  }

  /** What enqueue lets through because a row is still in the log, merge drops because it has
      landed by then: the lazy queue and the immediate one have the same effect. */
  lemma {:induction false} DedupeLayersAgree(s: string, C: Index, rows: seq<Row>, lazy: set<Triple>, eager: set<Triple>)
    requires lazy <= eager && forall key :: key in eager && key !in lazy ==> Stored(C, key)
    requires forall r :: r in rows ==> r.Append? && r.id !in C.assocs && DedupeKey(r.record) == TripleOf(r.record)
    requires DistinctAppends(rows)
    ensures Acts(s, C, Deduped(rows, lazy)) == Acts(s, C, Deduped(rows, eager))
    decreases rows
  {
    hide Act, Stored;
    if rows != [] {
      var r, rest := rows[0], rows[1..];
      var key := TripleOf(r.record);
      assert r in rows;
      if key in lazy {
        DedupeLayersAgree(s, C, rest, lazy, eager);
      } else if key in eager {
        ActOfStored(s, C, r);
        assert Deduped(rows, lazy)[1..] == Deduped(rest, lazy + {key});
        DedupeLayersAgree(s, C, rest, lazy + {key}, eager);
      } else {
        var C' := Act(s, C, r);
        ActKeys(s, C, r);
        forall k | k in eager && k !in lazy
          ensures Stored(C', k)
        {
          StoredStays(s, C, r, k);
        }
        forall q | q in rest
          ensures q.id !in C'.assocs
        {
          var j :| 0 <= j < |rest| && rest[j] == q;
          assert rows[j + 1] == q;
        }
        assert Deduped(rows, lazy)[1..] == Deduped(rest, lazy + {key});
        assert Deduped(rows, eager)[1..] == Deduped(rest, eager + {key});
        DedupeLayersAgree(s, C', rest, lazy + {key}, eager + {key});
      }
    }
  }

  // ---------------------------------------------------------------- the simulation

  /** Associations J has and I had not carry their key in the canonical fields. */
  ghost predicate NewStored(I: Index, J: Index) {
    forall k :: k in J.assocs && k !in I.assocs ==> J.assocs[k].StoredKey() == J.assocs[k].EffectiveKey()
  }

  lemma SameKeysNewStored(I0: Index, I: Index, J: Index)
    requires NewStored(I0, I) && Extends(I, J) && I.assocs.Keys == J.assocs.Keys
    ensures NewStored(I0, J)
  {
  }

  lemma LandNewStored(I0: Index, s: string, I: Index, r: Row)
    requires r.Append? && RowOk(I, s, r) && NewStored(I0, I)
    ensures NewStored(I0, Land(I, r.id, Requeued(r.record), r.at))
  {
  }

  lemma ActNewStored(I0: Index, s: string, I: Index, r: Row)
    requires I.Valid() && RowOk(I, s, r) && NewStored(I0, I)
    ensures NewStored(I0, Act(s, I, r))
  {
    if r.Append? {
      LandNewStored(I0, s, I, r);
    } else {
      ActExtends(s, I, r);
      SameKeysNewStored(I0, I, Act(s, I, r));
    }
  }

  lemma {:induction false} ActsNewStored(I0: Index, s: string, I: Index, rows: seq<Row>)
    requires I.Valid() && LogOk(I, s, rows) && NewStored(I0, I)
    ensures NewStored(I0, Acts(s, I, rows))
    decreases rows
  {
    if rows != [] {
      ActNewStored(I0, s, I, rows[0]);
      TailOk(s, I, rows);
      ActsNewStored(I0, s, Act(s, I, rows[0]), rows[1..]);
    }
  }

  lemma {:induction false} DrainNewStored(I0: Index, I: Index, logs: map<string, seq<Row>>, order: seq<string>)
    requires LogsOk(I, logs) && NewStored(I0, I)
    ensures NewStored(I0, Drain(I, logs, order))
    decreases order
  {
    if order != [] {
      assert LogOk(I, order[0], LogIn(logs, order[0]));
      ActsNewStored(I0, order[0], I, LogIn(logs, order[0]));
      OneDrained(I, logs, order[0]);
      DrainNewStored(I0, Acts(order[0], I, LogIn(logs, order[0])), logs[order[0] := []], order[1..]);
    }
  }

  /** E is what the index becomes once the logs are drained. */
  ghost predicate Simulates(cfg: Config, st: State, E: Index, order: seq<string>) {
    Inv(cfg, st) && Settle(Drain(st.index, st.logs, order)) == E
  }

  /** What the index looks like once everything queued has landed. */
  lemma DrainedIndex(cfg: Config, st: State, E: Index, order: seq<string>)
    requires Simulates(cfg, st, E, order)
    ensures E.Valid() && E.assocs.Keys <= st.issued && OnlyFresh(st.index, st.logs, E)
    ensures SameBeads(st.index, E) && Extends(st.index, E) && NewKeysStored(st.index, E)
    ensures EffectiveKeys(st.index) <= EffectiveKeys(E)
  {
    var I, D := st.index, Drain(st.index, st.logs, order);
    InvLogsOk(cfg, st);
    DrainExtends(I, st.logs, order);
    DrainNewStored(I, I, st.logs, order);
    DrainKeys(I, st.logs, order, st.issued);
    DrainedOnlyFresh(cfg, st, order);
    SettleExtends(D);
    SameKeysNewStored(I, D, E);
    ExtendsTrans(I, D, E);
    ExtendedKeys(I, E);
  }

  lemma ExtendedKeys(I: Index, E: Index)
    requires Extends(I, E) && NewStored(I, E)
    ensures NewKeysStored(I, E) && EffectiveKeys(I) <= EffectiveKeys(E)
  {
  }

  lemma {:induction false} PromotionsSame(I: Index, E: Index, s: string, b: Batch, beads: seq<string>)
    requires SameBeads(I, E)
    ensures QueuedPromotions(I, s, b, beads) == QueuedPromotions(E, s, b, beads)
  {
    if beads != [] { PromotionsSame(I, E, s, b, beads[1..]); }
  }

  lemma {:induction false} NoAppendsKeepAssocs(s: string, I: Index, rows: seq<Row>)
    requires forall r :: r in rows ==> r.Promotion? || r.Diagnostic?
    ensures Acts(s, I, rows).assocs == I.assocs
    decreases rows
  {
    if rows != [] {
      assert rows[0] in rows;
      NoAppendsKeepAssocs(s, Act(s, I, rows[0]), rows[1..]);
    }
  }

  /** The two queues differ, but not in what they do once the backlog has landed. */
  lemma QueuesAgree(cfg: Config, I: Index, E: Index, s: string, b: Batch)
    requires cfg.relations.Valid() && FreshIds(b, E.assocs.Keys) && SeesRequests(I, E, s, b)
    requires SameBeads(I, E) && Extends(I, E) && NewKeysStored(I, E) && EffectiveKeys(I) <= EffectiveKeys(E)
    ensures Acts(s, E, Queued(cfg, I, s, b)) == Acts(s, E, Queued(cfg, E, s, b))
  {
    hide Queued, QueuedLifecycle, NewKeysStored, Extends, SeesRequests;
    AppendsAgree(cfg, I, E, s, b);
    PromotionsSame(I, E, s, b, b.promotions);
    DecidedAlikeIff(I, E, s, b);
    QueuedInParts(cfg, I, E, s, b);
    QueuedInParts(cfg, E, E, s, b);
  }

  lemma AppendsAgree(cfg: Config, I: Index, E: Index, s: string, b: Batch)
    requires cfg.relations.Valid() && FreshIds(b, E.assocs.Keys)
    requires SameBeads(I, E) && NewKeysStored(I, E) && EffectiveKeys(I) <= EffectiveKeys(E)
    ensures var C := Acts(s, E, Diagnostics(b.diagnostics) + QueuedPromotions(I, s, b, b.promotions));
      Acts(s, C, Deduped(Candidates(cfg, I, s, b, b.assocs), EffectiveKeys(I)))
      == Acts(s, C, Deduped(Candidates(cfg, E, s, b, b.assocs), EffectiveKeys(E)))
  {
    var front := Diagnostics(b.diagnostics) + QueuedPromotions(I, s, b, b.promotions);
    var rows := Candidates(cfg, I, s, b, b.assocs);
    var C := Acts(s, E, front);
    CandidatesSame(cfg, I, E, s, b, b.assocs);
    QueuedPromotionsOk(I, s, b, b.promotions);
    NoAppendsKeepAssocs(s, E, front);
    assert forall key :: Stored(E, key) ==> Stored(C, key);
    forall r | r in rows { CandidatesOk(cfg, E, s, b, r); }
    CandidatesDistinct(cfg, I, s, b, b.assocs);
    DedupeLayersAgree(s, C, rows, EffectiveKeys(I), EffectiveKeys(E));
  }

  lemma QueuedInParts(cfg: Config, I: Index, E: Index, s: string, b: Batch)
    ensures var C := Acts(s, E, Diagnostics(b.diagnostics) + QueuedPromotions(I, s, b, b.promotions));
      Acts(s, E, Queued(cfg, I, s, b))
      == Acts(s, Acts(s, C, Deduped(Candidates(cfg, I, s, b, b.assocs), EffectiveKeys(I))),
              QueuedLifecycle(I, s, b, b.lifecycle))
  {
    var front := Diagnostics(b.diagnostics) + QueuedPromotions(I, s, b, b.promotions);
    var appends := Deduped(Candidates(cfg, I, s, b, b.assocs), EffectiveKeys(I));
    ActsSplit(s, E, front, appends);
    ActsSplit(s, E, front + appends, QueuedLifecycle(I, s, b, b.lifecycle));
  }

  lemma ApplyDrained(cfg: Config, st: State, E: Index, order: seq<string>, s: string, b: Batch)
    requires Simulates(cfg, st, E, order) && s in order && FreshIds(b, st.issued)
    ensures var st' := Next(cfg, st, Apply(s, b));
      && Inv(cfg, st') && LogOk(E, s, Queued(cfg, st.index, s, b))
      && Settle(Drain(st'.index, st'.logs, order)) == Acts(s, E, Queued(cfg, st.index, s, b))
  {
    hide Queued, Drain, Settle;
    var rows := Queued(cfg, st.index, s, b);
    var D := Drain(st.index, st.logs, order);
    var st' := Next(cfg, st, Apply(s, b));
    ApplyKeepsInv(cfg, st, s, b);
    InvLogsOk(cfg, st);
    InvLogsOk(cfg, st');
    DrainAppended(st.index, st.logs, order, s, rows);
    DrainKeepsRows(st.index, st.logs, order, s, rows);
    DrainExtends(st.index, st.logs, order);
    ActsSettle(s, D, rows);
    forall i | 0 <= i < |rows|
      ensures RowOk(E, s, rows[i])
    {
      SettleKeepsRowOk(D, s, rows[i]);
    }
  }

  /** One apply stays in step with the simple form if and only if it sees the associations named by
      the requests it would be granted there. */
  lemma ApplySimulatesIff(cfg: Config, st: State, E: Index, order: seq<string>, s: string, b: Batch)
    requires Simulates(cfg, st, E, order) && s in order && FreshIds(b, st.issued)
    ensures Simulates(cfg, Next(cfg, st, Apply(s, b)), AtOnce(cfg, E, Apply(s, b)), order)
            <==> SeesRequests(st.index, E, s, b)
  {
    hide Queued, Drain, EffectiveKeys, Settle, SeesRequests, OnlyFresh, LogOk;
    ApplyDrained(cfg, st, E, order, s, b);
    DrainedIndex(cfg, st, E, order);
    QueuedOk(cfg, E, s, b);
    ReplayIsActs(cfg, s, E, Queued(cfg, E, s, b));
    if SeesRequests(st.index, E, s, b) {
      QueuesAgree(cfg, st.index, E, s, b);
    } else {
      UnseenIsFelt(cfg, st.index, st.logs, E, s, b);
    }
  }

  lemma MergeSimulates(cfg: Config, st: State, E: Index, order: seq<string>, s: string)
    requires Simulates(cfg, st, E, order) && s in order
    ensures Simulates(cfg, Next(cfg, st, Merge(s)), E, order)
  {
    var I, logs := st.index, st.logs;
    var J := Acts(s, I, st.Log(s));
    NextKeepsInv(cfg, st, Merge(s));
    InvLogsOk(cfg, st);
    MergedIs(cfg, st, s);
    DrainOneFirst(I, logs, order, s);
    OneDrained(I, logs, s);
    DrainSettled(J, logs[s := []], order);
    SettleTwice(Drain(J, logs[s := []], order));
  }

  lemma NewBeadSimulates(cfg: Config, st: State, E: Index, order: seq<string>, id: string, b: Bead)
    requires Simulates(cfg, st, E, order) && id != "" && id !in st.index.beads
    ensures Simulates(cfg, Next(cfg, st, NewBead(id, b)), AddBead(E, id, b), order)
  {
    NewBeadKeepsInv(cfg, st, id, b);
    InvLogsOk(cfg, st);
    DrainWithBead(st.index, st.logs, order, id, b);
  }

  predicate Covers(order: seq<string>, events: seq<Event>) {
    forall e :: e in events ==> e.NewBead? || e.session in order
  }

  lemma StepSimulates(cfg: Config, st: State, E: Index, order: seq<string>, e: Event)
    requires Simulates(cfg, st, E, order) && Enabled(st, e) && Covers(order, [e]) && !e.CrashedMerge?
    requires e.Apply? ==> SeesRequests(st.index, E, e.session, e.batch)
    ensures Simulates(cfg, Next(cfg, st, e), AtOnce(cfg, E, e), order)
  {
    hide Simulates, SeesRequests, Next, Replay, Queued, AddBead;
    assert e in [e];
    match e {
      case NewBead(id, b) => NewBeadSimulates(cfg, st, E, order, id, b);
      case Apply(s, b) => ApplySimulatesIff(cfg, st, E, order, s, b);
      case Merge(s) => MergeSimulates(cfg, st, E, order, s);
    }
  }

  lemma {:induction false} RunSimulates(cfg: Config, st: State, E: Index, order: seq<string>, events: seq<Event>)
    requires Simulates(cfg, st, E, order) && Possible(cfg, st, events) && Covers(order, events)
    requires SeesAll(cfg, st, E, events) && forall e :: e in events ==> !e.CrashedMerge?
    ensures Simulates(cfg, Run(cfg, st, events), Immediate(cfg, E, events), order)
    decreases events
  {
    hide Simulates, Next, AtOnce, Enabled, SeesRequests;
    if events != [] {
      assert events[0] in events;
      StepSimulates(cfg, st, E, order, events[0]);
      RunSimulates(cfg, Next(cfg, st, events[0]), AtOnce(cfg, E, events[0]), order, events[1..]);
    }
  }

  // ---------------------------------------------------------------- the guard, and crashes

  lemma PendingElsewhere(cfg: Config, st: State, E: Index, order: seq<string>, s: string, b: Batch)
    requires Simulates(cfg, st, E, order) && NamesNone(b, PendingIds(st, s))
    ensures SeesRequests(st.index, E, s, b)
  {
    hide SeesRequests, OnlyFresh, PendingIds;
    DrainedIndex(cfg, st, E, order);
    PendingElsewhereIsRefused(st, E, s, b);
  }

  lemma {:induction false} CleanRunSeesAll(cfg: Config, st: State, E: Index, order: seq<string>, events: seq<Event>)
    requires Simulates(cfg, st, E, order) && Possible(cfg, st, events) && Covers(order, events)
    requires NamesNothingPending(cfg, st, events) && forall e :: e in events ==> !e.CrashedMerge?
    ensures SeesAll(cfg, st, E, events)
    decreases events
  {
    hide Simulates, Next, AtOnce, Enabled, SeesRequests, PendingIds, NamesNone;
    if events != [] {
      var e := events[0];
      assert e in events;
      if e.Apply? { PendingElsewhere(cfg, st, E, order, e.session, e.batch); }
      StepSimulates(cfg, st, E, order, e);
      CleanRunSeesAll(cfg, Next(cfg, st, e), AtOnce(cfg, E, e), order, events[1..]);
    }
  }

  /** A run with crashes has the index of the run without, so it sees the same. */
  lemma {:induction false} SeesAllDespiteCrashes(cfg: Config, c: State, d: State, E: Index, events: seq<Event>)
    requires Related(cfg, c, d) && Possible(cfg, c, events)
    ensures SeesAll(cfg, c, E, events) <==> SeesAll(cfg, d, E, WithoutCrashes(events))
    decreases events
  {
    hide Next, Enabled, SeesRequests, Residue, Inv, Replay, Queued, AddBead;
    if events != [] {
      var e := events[0];
      var e' := if e.CrashedMerge? then Merge(e.session) else e;
      NextStaysRelated(cfg, c, d, e);
      SeesAllDespiteCrashes(cfg, Next(cfg, c, e), Next(cfg, d, e'), AtOnce(cfg, E, e), events[1..]);
      assert WithoutCrashes(events)[0] == e' && WithoutCrashes(events)[1..] == WithoutCrashes(events[1..]);
    }
  }

  /** And it has at least its logs, so it waits for at least the same associations. */
  lemma RelatedPending(cfg: Config, c: State, d: State, s: string)
    requires Related(cfg, c, d)
    ensures PendingIds(d, s) <= PendingIds(c, s)
  {
    hide Acts, Settle, Inv;
    assert Residue(c, d, s);
    var n := |c.Log(s)| - |d.Log(s)|;
    forall r | r in d.Log(s)
      ensures r in c.Log(s)
    {
      assert r in c.Log(s)[n..];
    }
  }

  lemma {:induction false} NamesNothingWithoutCrashes(cfg: Config, c: State, d: State, events: seq<Event>)
    requires Related(cfg, c, d) && Possible(cfg, c, events) && NamesNothingPending(cfg, c, events)
    ensures NamesNothingPending(cfg, d, WithoutCrashes(events))
    decreases events
  {
    hide Related, PendingIds, Next, Enabled;
    if events != [] {
      var e := events[0];
      var e' := if e.CrashedMerge? then Merge(e.session) else e;
      if e.Apply? { RelatedPending(cfg, c, d, e.session); }
      NextStaysRelated(cfg, c, d, e);
      NamesNothingWithoutCrashes(cfg, Next(cfg, c, e), Next(cfg, d, e'), events[1..]);
      assert WithoutCrashes(events)[0] == e' && WithoutCrashes(events)[1..] == WithoutCrashes(events[1..]);
    }
  }

  function Sessions(events: seq<Event>): (order: seq<string>)
    ensures Covers(order, events)
  {
    if events == [] then []
    else (if events[0].NewBead? then [] else [events[0].session]) + Sessions(events[1..])
  }

  lemma {:induction false} ImmediateIgnoresCrashes(cfg: Config, I: Index, events: seq<Event>)
    ensures Immediate(cfg, I, WithoutCrashes(events)) == Immediate(cfg, I, events)
    ensures forall e :: e in WithoutCrashes(events) ==> !e.CrashedMerge?
    decreases events
  {
    if events != [] {
      var e := events[0];
      ImmediateIgnoresCrashes(cfg, AtOnce(cfg, I, e), events[1..]);
      assert WithoutCrashes(events)[1..] == WithoutCrashes(events[1..]);
      assert e in events;
      assert forall x :: x in events[1..] ==> x in events;
    }
  }

  lemma StartsInStep(cfg: Config, st: State, order: seq<string>)
    requires Inv(cfg, st) && st.logs == map[]
    ensures Simulates(cfg, st, Settle(st.index), order) && Related(cfg, st, st)
  {
    hide Settle, Inv;
    StartsRelated(cfg, st);
    DrainNothing(st.index, st.logs, order);
  }

  /** A run sees all it is granted when no request names an association waiting in its own session's
      log; what other sessions wait for it is refused before and after a merge. */
  lemma NothingPendingSeesAll(cfg: Config, st: State, events: seq<Event>)
    requires Inv(cfg, st) && st.logs == map[] && Possible(cfg, st, events) && NamesNothingPending(cfg, st, events)
    ensures SeesAll(cfg, st, Settle(st.index), events)
  {
    hide Settle, NamesNothingPending, SeesAll, Inv, Simulates, Related;
    var clean := WithoutCrashes(events);
    StartsInStep(cfg, st, Sessions(clean));
    RunsStayRelated(cfg, st, st, events);
    NamesNothingWithoutCrashes(cfg, st, st, events);
    ImmediateIgnoresCrashes(cfg, Settle(st.index), events);
    CleanRunSeesAll(cfg, st, Settle(st.index), Sessions(clean), clean);
    SeesAllDespiteCrashes(cfg, st, st, Settle(st.index), events);
  }

  /** Queueing refines applying at once. For every run over many sessions, with merges and crashes
      anywhere, in which every apply sees the associations its requests name: once every log has been
      merged, the index is the one immediate application would have produced. */
  lemma QueueingRefinesImmediate(cfg: Config, st: State, events: seq<Event>)
    requires Inv(cfg, st) && st.logs == map[] && Possible(cfg, st, events)
    requires SeesAll(cfg, st, Settle(st.index), events)
    requires forall s :: Run(cfg, st, events).Log(s) == []
    ensures Settle(Run(cfg, st, events).index) == Immediate(cfg, Settle(st.index), events)
  {
    hide Settle, SeesAll, Inv;
    var clean := WithoutCrashes(events);
    var order := Sessions(clean);
    StartsInStep(cfg, st, order);
    RunsStayRelated(cfg, st, st, events);
    SeesAllDespiteCrashes(cfg, st, st, Settle(st.index), events);
    ImmediateIgnoresCrashes(cfg, Settle(st.index), events);
    RunSimulates(cfg, st, Settle(st.index), order, clean);
    var end := Run(cfg, st, clean);
    forall s
      ensures LogIn(end.logs, s) == []
    {
      assert Residue(Run(cfg, st, events), end, s);
    }
    DrainNothing(end.index, end.logs, order);
  }

  /** The run without its merges. */
  function WithoutMerges(events: seq<Event>): seq<Event> {
    if events == [] then []
    else (if events[0].Merge? || events[0].CrashedMerge? then [] else [events[0]]) + WithoutMerges(events[1..])
  }

  lemma {:induction false} ImmediateIgnoresMerges(cfg: Config, I: Index, events: seq<Event>)
    ensures Immediate(cfg, I, WithoutMerges(events)) == Immediate(cfg, I, events)
    decreases events
  {
    if events != [] {
      var J := AtOnce(cfg, I, events[0]);
      ImmediateIgnoresMerges(cfg, J, events[1..]);
      if !events[0].Merge? && !events[0].CrashedMerge? {
        assert WithoutMerges(events)[1..] == WithoutMerges(events[1..]);
      } else {
        assert J == I && WithoutMerges(events) == WithoutMerges(events[1..]);
      }
    }
  }

  lemma NextStaysSettled(cfg: Config, st: State, e: Event)
    requires Settle(st.index) == st.index
    ensures Settle(Next(cfg, st, e).index) == Next(cfg, st, e).index
  {
    hide Replay, Queued;
    match e
    case NewBead(id, b) =>
    case Apply(_, _) =>
    case Merge(s) => SettleTwice(Replay(cfg, s, st.index, st.Log(s)));
    case CrashedMerge(s) => SettleTwice(Replay(cfg, s, st.index, st.Log(s)));
  }

  lemma {:induction false} RunStaysSettled(cfg: Config, st: State, events: seq<Event>)
    requires Settle(st.index) == st.index
    ensures Settle(Run(cfg, st, events).index) == Run(cfg, st, events).index
    decreases events
  {
    hide Next, Settle;
    if events != [] {
      NextStaysSettled(cfg, st, events[0]);
      RunStaysSettled(cfg, Next(cfg, st, events[0]), events[1..]);
    }
  }

  /** Merge timing does not matter: two schedules of the same applies that both end flushed end with
      the same index, up to missing statuses that stand for active, and with no such status at the
      start with the very same index. */
  lemma MergeTimingIsIrrelevant(cfg: Config, st: State, events: seq<Event>, other: seq<Event>)
    requires Inv(cfg, st) && st.logs == map[]
    requires Possible(cfg, st, events) && Possible(cfg, st, other)
    requires SeesAll(cfg, st, Settle(st.index), events) && SeesAll(cfg, st, Settle(st.index), other)
    requires WithoutMerges(events) == WithoutMerges(other)
    requires forall s :: Run(cfg, st, events).Log(s) == []
    requires forall s :: Run(cfg, st, other).Log(s) == []
    ensures Settle(Run(cfg, st, events).index) == Settle(Run(cfg, st, other).index)
    ensures Settle(st.index) == st.index ==> Run(cfg, st, events).index == Run(cfg, st, other).index
  {
    hide Settle, SeesAll;
    QueueingRefinesImmediate(cfg, st, events);
    QueueingRefinesImmediate(cfg, st, other);
    ImmediateIgnoresMerges(cfg, Settle(st.index), events);
    ImmediateIgnoresMerges(cfg, Settle(st.index), other);
    if Settle(st.index) == st.index {
      RunStaysSettled(cfg, st, events);
      RunStaysSettled(cfg, st, other);
    }
  }
}
