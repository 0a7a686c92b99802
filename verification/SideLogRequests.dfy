/** Lifecycle requests and the backlog: which requests a call decides as it would once everything
    queued has been merged. */
module SideLogRequests {
  import opened SideLog
  import opened Patches
  import opened SideLogLaws
  import opened SideLogReplay
  import opened SideLogEnqueue
  import opened SideLogRuns
  import opened SideLogDrain

  /** The associations a request is decided by. */
  function AskedOf(q: LifeRequest): set<string> {
    {q.target} + if q.action.Supersede? && q.replacement != "" then {q.replacement} else {}
  }

  predicate NamesNone(b: Batch, ids: set<string>) {
    forall q <- b.lifecycle :: AskedOf(q) !! ids
  }

  ghost predicate SameBeads(I: Index, E: Index) {
    && I.beads.Keys == E.beads.Keys
    && forall b :: b in I.beads ==> I.beads[b].session == E.beads[b].session
  }

  /** Every request E would grant names only associations I already holds. */
  ghost predicate SeesRequests(I: Index, E: Index, s: string, b: Batch) {
    forall q <- b.lifecycle :: Requestable(E, s, b, q) ==> AskedOf(q) <= I.assocs.Keys
  }

  lemma GrantedWhenSeen(I: Index, E: Index, s: string, b: Batch, q: LifeRequest)
    requires SameBeads(I, E) && Extends(I, E)
    ensures Requestable(I, s, b, q) <==> Requestable(E, s, b, q) && AskedOf(q) <= I.assocs.Keys
  {
  }

  lemma {:induction false} GrantsFewer(I: Index, E: Index, s: string, b: Batch, qs: seq<LifeRequest>)
    requires SameBeads(I, E) && Extends(I, E)
    ensures |QueuedLifecycle(I, s, b, qs)| <= |QueuedLifecycle(E, s, b, qs)|
    ensures |QueuedLifecycle(I, s, b, qs)| == |QueuedLifecycle(E, s, b, qs)|
            ==> forall q <- qs :: Requestable(I, s, b, q) == Requestable(E, s, b, q)
  {
    hide Requestable, Extends, SameBeads;
    if qs != [] {
      GrantedWhenSeen(I, E, s, b, qs[0]);
      GrantsFewer(I, E, s, b, qs[1..]);
    }
  }

  lemma {:induction false} GrantsSame(I: Index, E: Index, s: string, b: Batch, qs: seq<LifeRequest>)
    requires forall q <- qs :: Requestable(I, s, b, q) == Requestable(E, s, b, q)
    ensures QueuedLifecycle(I, s, b, qs) == QueuedLifecycle(E, s, b, qs)
  {
    hide Requestable;
    if qs != [] {
      assert qs[0] in qs && forall q <- qs[1..] :: q in qs;
      GrantsSame(I, E, s, b, qs[1..]);
    }
  }

  /** A call decides its requests before the backlog lands as it would afterwards exactly when it
      sees every association the granted ones name. */
  lemma DecidedAlikeIff(I: Index, E: Index, s: string, b: Batch)
    requires SameBeads(I, E) && Extends(I, E)
    ensures QueuedLifecycle(I, s, b, b.lifecycle) == QueuedLifecycle(E, s, b, b.lifecycle) <==> SeesRequests(I, E, s, b)
  {
    hide Requestable, Extends, SameBeads;
    forall q { GrantedWhenSeen(I, E, s, b, q); }
    GrantsFewer(I, E, s, b, b.lifecycle);
    if SeesRequests(I, E, s, b) { GrantsSame(I, E, s, b, b.lifecycle); }
  }

  // ---------------------------------------------------------------- what a drain adds

  /** Is association `id` queued in session t's log? */
  ghost predicate Queues(logs: map<string, seq<Row>>, t: string, id: string) {
    exists r :: r in LogIn(logs, t) && r.Append? && r.id == id
  }

  /** As it was queued by the session its source belongs to, and untouched since. */
  ghost predicate FreshFrom(I: Index, logs: map<string, seq<Row>>, a: Assoc) {
    a.life == NO_LIFE && exists t :: Queues(logs, t, a.id) && I.Owns(t, a.Src())
  }

  ghost predicate OnlyFresh(I: Index, logs: map<string, seq<Row>>, J: Index) {
    forall k :: k in J.assocs && k !in I.assocs ==> FreshFrom(I, logs, J.assocs[k])
  }

  /** Rows of session t's log as it was when it was good on I. */
  ghost predicate RowsFrom(I: Index, logs: map<string, seq<Row>>, t: string, rows: seq<Row>) {
    forall r <- rows :: r in LogIn(logs, t) && RowOk(I, t, r)
  }

  lemma LandOnlyFresh(I: Index, logs: map<string, seq<Row>>, t: string, J: Index, r: Row)
    requires OnlyFresh(I, logs, J) && r.Append? && r in LogIn(logs, t) && RowOk(I, t, r) && RowOk(J, t, r)
    ensures OnlyFresh(I, logs, Land(J, r.id, Requeued(r.record), r.at))
  {
    var a := NewAssoc(r.id, Requeued(r.record), r.at);
    assert Queues(logs, t, r.id);
    assert FreshFrom(I, logs, a);
  }

  lemma ActOnlyFresh(I: Index, logs: map<string, seq<Row>>, t: string, J: Index, r: Row)
    requires OnlyFresh(I, logs, J) && r in LogIn(logs, t) && RowOk(I, t, r) && RowOk(J, t, r) && J.Valid()
    ensures OnlyFresh(I, logs, Act(t, J, r))
  {
    if r.Append? {
      LandOnlyFresh(I, logs, t, J, r);
    } else if r.Lifecycle? {
      hide FreshFrom;
      forall k | k in J.assocs && k !in I.assocs
        ensures Act(t, J, r).assocs[k] == J.assocs[k]
      {
        ActPatches(t, J, r, k);
        assert Effect(r, k) == NO_PATCH;
        NoPatchIsIdentity(J.assocs[k]);
      }
    }
  }

  lemma {:induction false} ActsOnlyFresh(I: Index, logs: map<string, seq<Row>>, t: string, J: Index, rows: seq<Row>)
    requires OnlyFresh(I, logs, J) && RowsFrom(I, logs, t, rows) && J.Valid() && LogOk(J, t, rows)
    ensures OnlyFresh(I, logs, Acts(t, J, rows))
    decreases rows
  {
    hide OnlyFresh, RowOk, Act;
    if rows != [] {
      assert rows[0] in rows && forall r <- rows[1..] :: r in rows;
      TailOk(t, J, rows);
      ActOnlyFresh(I, logs, t, J, rows[0]);
      ActsOnlyFresh(I, logs, t, Act(t, J, rows[0]), rows[1..]);
    }
  }

  /** Whatever a drain adds was queued by the session that owns its source. */
  lemma {:induction false} DrainOnlyFresh(I: Index, logs: map<string, seq<Row>>, J: Index,
                                          left: map<string, seq<Row>>, order: seq<string>)
    requires OnlyFresh(I, logs, J) && LogsOk(J, left)
    requires forall t :: RowsFrom(I, logs, t, LogIn(left, t))
    ensures OnlyFresh(I, logs, Drain(J, left, order))
    decreases order
  {
    hide OnlyFresh, Acts;
    if order != [] {
      var o := order[0];
      assert LogOk(J, o, LogIn(left, o)) && RowsFrom(I, logs, o, LogIn(left, o));
      ActsOnlyFresh(I, logs, o, J, LogIn(left, o));
      OneDrained(J, left, o);
      var left' := left[o := []];
      forall t
        ensures RowsFrom(I, logs, t, LogIn(left', t))
      {
        assert RowsFrom(I, logs, t, LogIn(left, t));
      }
      DrainOnlyFresh(I, logs, Acts(o, J, LogIn(left, o)), left', order[1..]);
    }
  }

  lemma SettleOnlyFresh(I: Index, logs: map<string, seq<Row>>, J: Index)
    requires OnlyFresh(I, logs, J)
    ensures OnlyFresh(I, logs, Settle(J))
  {
    forall k | k in J.assocs && k !in I.assocs
      ensures FreshFrom(I, logs, WithStatus(J.assocs[k]))
    {
      assert FreshFrom(I, logs, J.assocs[k]);
    }
  }

  lemma DrainedOnlyFresh(cfg: Config, st: State, order: seq<string>)
    requires Inv(cfg, st)
    ensures OnlyFresh(st.index, st.logs, Settle(Drain(st.index, st.logs, order)))
  {
    hide Drain, Settle;
    InvLogsOk(cfg, st);
    forall t
      ensures RowsFrom(st.index, st.logs, t, LogIn(st.logs, t))
    {
      assert LogOk(st.index, t, LogIn(st.logs, t));
    }
    DrainOnlyFresh(st.index, st.logs, st.index, st.logs, order);
    SettleOnlyFresh(st.index, st.logs, Drain(st.index, st.logs, order));
  }

  // ---------------------------------------------------------------- a guard to check beforehand

  /** What session s waits for: queued in its own log and not in the index. */
  function PendingIds(st: State, s: string): set<string> {
    (set r | r in st.Log(s) && r.Append? :: r.id) - st.index.assocs.Keys
  }

  lemma FreshOfOwnIsPending(st: State, E: Index, s: string, x: string)
    requires OnlyFresh(st.index, st.logs, E) && E.Valid() && x in E.assocs && x !in st.index.assocs
    requires st.index.Owns(s, E.assocs[x].Src())
    ensures x in PendingIds(st, s)
  {
    assert FreshFrom(st.index, st.logs, E.assocs[x]);
  }

  /** A call that names nothing its own session waits for sees every association it is granted,
      whatever other sessions wait for. */
  lemma PendingElsewhereIsRefused(st: State, E: Index, s: string, b: Batch)
    requires SameBeads(st.index, E) && OnlyFresh(st.index, st.logs, E) && E.Valid()
    requires NamesNone(b, PendingIds(st, s))
    ensures SeesRequests(st.index, E, s, b)
  {
    hide OnlyFresh, PendingIds;
    forall q, x | q in b.lifecycle && Requestable(E, s, b, q) && x in AskedOf(q)
      ensures x in st.index.assocs
    {
      if x !in st.index.assocs { FreshOfOwnIsPending(st, E, s, x); }
    }
  }

  // ---------------------------------------------------------------- an unseen request is felt

  lemma {:induction false} LifeIsLeft(rows: seq<Row>, r: Row, k: string)
    requires r in rows && r.Lifecycle? && Effect(r, k).life != NO_LIFE
    ensures LogPatch(rows, k).life != NO_LIFE
  {
    hide Effect;
    if rows[0] != r { LifeIsLeft(rows[1..], r, k); }
  }

  lemma RequestLeavesLife(q: LifeRequest, now: int, k: string)
    requires q.target != "" && !q.action.Other? && k in AskedOf(q)
    ensures Effect(LifecycleRow(q, now), k).life != NO_LIFE
  {
  }

  lemma {:induction false} GrantedIsQueued(E: Index, s: string, b: Batch, qs: seq<LifeRequest>, q: LifeRequest)
    requires q in qs && Requestable(E, s, b, q)
    ensures LifecycleRow(q, b.now) in QueuedLifecycle(E, s, b, qs)
  {
    hide Requestable;
    if q != qs[0] { GrantedIsQueued(E, s, b, qs[1..], q); }
  }

  /** A call that misses a request leaves a different index behind. */
  lemma UnseenIsFelt(cfg: Config, I: Index, logs: map<string, seq<Row>>, E: Index, s: string, b: Batch)
    requires cfg.relations.Valid() && I.Valid() && E.Valid() && FreshIds(b, I.assocs.Keys) && FreshIds(b, E.assocs.Keys)
    requires OnlyFresh(I, logs, E) && LogOk(E, s, Queued(cfg, I, s, b)) && !SeesRequests(I, E, s, b)
    ensures Acts(s, E, Queued(cfg, I, s, b)) != Acts(s, E, Queued(cfg, E, s, b))
  {
    hide OnlyFresh, AskedOf, Effect, LogPatch, Requestable;
    var q, x :| q in b.lifecycle && Requestable(E, s, b, q) && x in AskedOf(q) && x !in I.assocs;
    assert q.target != "" && !q.action.Other? && x in E.assocs by { AskedIsHeld(E, s, b, q, x); }
    var lazy, eager := Queued(cfg, I, s, b), Queued(cfg, E, s, b);
    QueuedOk(cfg, I, s, b);
    QueuedOk(cfg, E, s, b);
    OthersNotNamed(s, I, lazy, x);
    GrantedIsQueued(E, s, b, b.lifecycle, q);
    RequestLeavesLife(q, b.now, x);
    LifeIsLeft(eager, LifecycleRow(q, b.now), x);
    ActsPatch(s, E, lazy, x);
    ActsPatch(s, E, eager, x);
    assert E.assocs[x].life == NO_LIFE by { assert OnlyFresh(I, logs, E); FreshHasNoLife(I, logs, E, x); }
    NoPatchIsIdentity(E.assocs[x]);
  }

  lemma AskedIsHeld(E: Index, s: string, b: Batch, q: LifeRequest, x: string)
    requires Requestable(E, s, b, q) && x in AskedOf(q)
    ensures q.target != "" && !q.action.Other? && x in E.assocs
  {
  }

  lemma FreshHasNoLife(I: Index, logs: map<string, seq<Row>>, E: Index, x: string)
    requires OnlyFresh(I, logs, E) && x in E.assocs && x !in I.assocs
    ensures E.assocs[x].life == NO_LIFE
  {
  }
}
