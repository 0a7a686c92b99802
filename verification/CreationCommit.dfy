/** Handing normalised creation rows to the store: the current turn's bead first, then the beads
    derived from it. */
module CreationCommit {
  import opened Text
  import opened Sequences
  import opened Creation
  import opened CreationLaws

  /** The store's answer to one row; an exception is Raised. */
  datatype Outcome = Raised | Stored(id: string)

  datatype Failure = NotCommitted(row: nat) | PersistenceFailed(row: nat)

  /** `handed` lists the rows given to the store, in order. */
  datatype Commit =
    | Aborted
    | Committed(current: string, handed: seq<Row>, derivedIds: seq<string>, failures: seq<Failure>)

  /** The parents the store is handed: every one that is named, in order, the sentinel replaced. */
  function Grounded(parents: seq<string>, current: string): (r: seq<string>)
    ensures var named := Filter(parents, NotBlank);
      && |r| == |named|
      && forall i :: 0 <= i < |named| ==> r[i] == if named[i] == CURRENT_TURN then current else named[i]
    ensures CURRENT_TURN in parents ==> current in r
    ensures CURRENT_TURN in r ==> current == CURRENT_TURN
    ensures forall p <- r :: p == current || p in parents
  {
    var named := Filter(parents, NotBlank);
    var r := seq(|named|, i requires 0 <= i < |named| => if named[i] == CURRENT_TURN then current else named[i]);
    assert forall i :: 0 <= i < |named| ==> named[i] in named;
    assert CURRENT_TURN in parents ==> current in r by {
      assert Stripped(CURRENT_TURN);
      if CURRENT_TURN in parents {
        var i :| 0 <= i < |named| && named[i] == CURRENT_TURN;
        assert r[i] == current;
      }
    }
    r
  }

  /** Is this what the store should be handed for a derived row? */
  ghost predicate GroundedRow(handed: Row, row: Row, current: string) {
    && handed == row.(parents := Grounded(row.parents, current))
    && current in handed.parents
    && (CURRENT_TURN in handed.parents ==> current == CURRENT_TURN)
  }

  /** The ids the store gave derived rows before row n. */
  function DerivedIds(outcomes: seq<Outcome>, n: nat): seq<string>
    requires 1 <= n <= |outcomes|
  {
    if n == 1 then []
    else if outcomes[n - 1].Raised? || outcomes[n - 1].id == "" then DerivedIds(outcomes, n - 1)
    else DerivedIds(outcomes, n - 1) + [outcomes[n - 1].id]
  }

  /** The derived rows before row n that failed, with the reason. */
  function DerivedFailures(outcomes: seq<Outcome>, committed: bool, n: nat): seq<Failure>
    requires 1 <= n <= |outcomes|
  {
    if n == 1 then []
    else if !committed then DerivedFailures(outcomes, committed, n - 1) + [NotCommitted(n - 1)]
    else if outcomes[n - 1].Raised? then DerivedFailures(outcomes, committed, n - 1) + [PersistenceFailed(n - 1)]
    else DerivedFailures(outcomes, committed, n - 1)
  }

  /** When the store never answers with an empty id, every derived row ends as an id or a failure. */
  lemma {:induction false} DerivedRowsAccounted(outcomes: seq<Outcome>, n: nat)
    requires 1 <= n <= |outcomes| && forall o <- outcomes :: o != Stored("")
    ensures |DerivedIds(outcomes, n)| + |DerivedFailures(outcomes, true, n)| == n - 1
  {
    if n > 1 {
      assert outcomes[n - 1] in outcomes;
      DerivedRowsAccounted(outcomes, n - 1);
    }
  }

  /** The creation loop of apply. A derived row is handed over only once the current turn's bead
      has an id, with the sentinel replaced by that id. */
  method CommitRows(rows: seq<Row>, outcomes: seq<Outcome>) returns (r: Commit)
    requires NormalForm(rows) && |outcomes| == |rows|
    ensures r.Aborted? <==> rows != [] && outcomes[0].Raised?
    ensures r.Committed? && rows == [] ==> r == Committed("", [], [], [])
    ensures r.Committed? && rows != [] ==>
              && r.current == outcomes[0].id
              && |r.handed| == (if r.current == "" then 1 else |rows|) && r.handed[0] == rows[0]
              && forall i :: 1 <= i < |r.handed| ==> GroundedRow(r.handed[i], rows[i], r.current)
    ensures r.Committed? && rows != [] ==>
              && r.derivedIds == (if r.current == "" then [] else DerivedIds(outcomes, |rows|))
              && r.failures == DerivedFailures(outcomes, r.current != "", |rows|)
  {
    hide NotBlank, Grounded, Filter;
    var current, handed, derivedIds := "", [], [];
    var failures: seq<Failure> := [];
    var i := 0;
    while i < |rows|
      invariant 0 <= i <= |rows|
      invariant i == 0 ==> current == "" && handed == [] && derivedIds == [] && failures == []
      invariant i > 0 ==> outcomes[0].Stored? && current == outcomes[0].id
      invariant i > 0 ==> |handed| == (if current == "" then 1 else i) && handed[0] == rows[0]
      invariant forall j :: 1 <= j < |handed| ==> GroundedRow(handed[j], rows[j], current)
      invariant i > 0 ==> derivedIds == if current == "" then [] else DerivedIds(outcomes, i)
      invariant i > 0 ==> failures == DerivedFailures(outcomes, current != "", i)
    {
      var derived := rows[i].role == "derived";
      var row := rows[i];
      if derived && current == "" {
        failures := failures + [NotCommitted(i)];
      } else {
        if derived {
          row := row.(parents := Grounded(row.parents, current));
        }
        handed := handed + [row];
        if outcomes[i].Raised? {
          if !derived { return Aborted; }
          failures := failures + [PersistenceFailed(i)];
        } else if !derived {
          current := outcomes[i].id;
        } else if outcomes[i].id != "" {
          derivedIds := derivedIds + [outcomes[i].id];
        }
      }
      i := i + 1;
    }
    r := Committed(current, handed, derivedIds, failures);
  }
}
