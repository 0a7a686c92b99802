/** What the creation-row normaliser guarantees: its output has one shape, every input row is
    accounted for once, and a second pass keeps what the first returned. */
module CreationLaws {
  import opened Text
  import opened Sequences
  import opened Creation

  // ---------------------------------------------------------------- shape

  ghost predicate NormalForm(rows: seq<Row>) {
    && |rows| <= 3
    && (rows != [] ==> rows[0].role == "current_turn" && rows[0].turns != [])
    && (forall i :: 1 <= i < |rows| ==> rows[i].role == "derived" && CURRENT_TURN in rows[i].parents)
  }

  /** The row is the input row at its position, but for role and parents. */
  ghost predicate ComesFrom(c: Contract, xs: seq<Raw>, x: Candidate) {
    && x.at < |xs| && xs[x.at].Fields?
    && x.row == Prepared(c, xs[x.at]).(role := x.row.role, parents := x.row.parents)
  }

  ghost predicate InOrder(cs: seq<Candidate>) {
    forall i, j :: 0 <= i < j < |cs| ==> cs[i].at < cs[j].at
  }

  lemma {:induction false} CandidatesInOrder(c: Contract, xs: seq<Raw>, k: nat)
    requires k <= |xs|
    ensures InOrder(Candidates(c, xs, k))
    ensures forall x :: x in Candidates(c, xs, k) ==> k <= x.at && ComesFrom(c, xs, x)
    decreases |xs| - k
  {
    hide Prepared;
    if k < |xs| { CandidatesInOrder(c, xs, k + 1); }
  }

  lemma {:induction false} DerivedFrom(cs: seq<Candidate>, p: nat, k: nat)
    requires k <= |cs|
    ensures forall x <- Derived(cs, p, k) :: exists i :: k <= i < |cs| && x == AsDerived(cs[i])
    decreases |cs| - k
  {
    hide AsDerived, Claims;
    if k < |cs| { DerivedFrom(cs, p, k + 1); }
  }

  lemma {:induction false} DerivedInOrder(cs: seq<Candidate>, p: nat, k: nat)
    requires k <= |cs| && InOrder(cs)
    ensures InOrder(Derived(cs, p, k))
    decreases |cs| - k
  {
    hide AsDerived, Claims;
    if k < |cs| {
      DerivedInOrder(cs, p, k + 1);
      DerivedFrom(cs, p, k + 1);
      var rest := Derived(cs, p, k + 1);
      forall j | 0 <= j < |rest|
        ensures cs[k].at < rest[j].at
      {
        assert rest[j] in rest;
        var i :| k + 1 <= i < |cs| && rest[j] == AsDerived(cs[i]);
      }
    }
  }

  lemma DerivedComeFrom(c: Contract, xs: seq<Raw>, cs: seq<Candidate>, p: nat)
    requires InOrder(cs) && forall x <- cs :: ComesFrom(c, xs, x)
    ensures forall x <- Derived(cs, p, 0) ::
              x.row.role == "derived" && CURRENT_TURN in x.row.parents && ComesFrom(c, xs, x)
  {
    hide AsDerived, Claims, Prepared;
    DerivedFrom(cs, p, 0);
    forall x | x in Derived(cs, p, 0)
      ensures x.row.role == "derived" && CURRENT_TURN in x.row.parents && ComesFrom(c, xs, x)
    {
      var i :| 0 <= i < |cs| && x == AsDerived(cs[i]);
      assert cs[i] in cs;
    }
  }

  /** Either no rows, or the current turn's row first and at most two derived rows in input
      order, each naming the current turn and otherwise as its input row reads. */
  lemma RowsHaveNormalForm(c: Contract, xs: seq<Raw>)
    ensures NormalForm(Rows(c, xs))
    ensures Rows(c, xs) != [] ==> Rows(c, xs) == RowsOf(Ordered(c, xs)) && InOrder(Ordered(c, xs)[1..])
    ensures forall i :: 0 <= i < |Ordered(c, xs)| ==> ComesFrom(c, xs, Ordered(c, xs)[i])
  {
    hide Prepared, Claims, AsDerived;
    var cs := Candidates(c, xs, 0);
    CandidatesInOrder(c, xs, 0);
    if cs != [] {
      var p := Primary(cs);
      assert cs[p] in cs;
      DerivedInOrder(cs, p, 0);
      DerivedComeFrom(c, xs, cs, p);
      var kept := Take(Derived(cs, p, 0), 2);
      var ordered := Ordered(c, xs);
      assert ordered[1..] == kept;
      forall i | 0 <= i < |ordered|
        ensures ComesFrom(c, xs, ordered[i])
        ensures i >= 1 ==> ordered[i].row.role == "derived" && CURRENT_TURN in ordered[i].row.parents
      {
        if i >= 1 { assert ordered[i] == kept[i - 1] && kept[i - 1] in Derived(cs, p, 0); }
      }
    }
  }

  // ---------------------------------------------------------------- accounting

  function At(i: nat): Candidate -> bool { (x: Candidate) => x.at == i }

  function DropsRow(i: nat): Diagnostic -> bool { (d: Diagnostic) => d.Drop() && d.row == i }

  lemma FieldsDropNothing(c: Contract, k: nat, x: Raw)
    requires x.Fields?
    ensures forall d <- FieldDiagnostics(c, k, x) :: !d.Drop()
  {
  }

  /** Every row is a candidate or was reported as no object. */
  lemma {:induction false} CandidatesAccount(c: Contract, xs: seq<Raw>, k: nat, i: nat)
    requires k <= |xs|
    ensures Count(Candidates(c, xs, k), At(i)) + Count(RowDiagnostics(c, xs, k), DropsRow(i))
            == if k <= i < |xs| then 1 else 0
    decreases |xs| - k
  {
    hide Prepared, FieldDiagnostics;
    if k < |xs| {
      CandidatesAccount(c, xs, k + 1, i);
      var rest := RowDiagnostics(c, xs, k + 1);
      if xs[k].Fields? {
        var found := FieldDiagnostics(c, k, xs[k]);
        FieldsDropNothing(c, k, xs[k]);
        CountNone(found, DropsRow(i));
        CountConcat(found, rest, DropsRow(i));
        CountConcat([Candidate(k, Prepared(c, xs[k]))], Candidates(c, xs, k + 1), At(i));
      } else {
        CountConcat([NotAnObject(k)], rest, DropsRow(i));
      }
    }
  }

  /** Every candidate but the primary is derived or was reported as a duplicate. */
  lemma {:induction false} DerivedAccount(cs: seq<Candidate>, p: nat, k: nat, i: nat)
    requires k <= |cs| && p < |cs|
    ensures Count(cs[k..], At(i))
            == Count(Derived(cs, p, k), At(i)) + Count(Duplicates(cs, p, k), DropsRow(i))
               + if k <= p && cs[p].at == i then 1 else 0
    decreases |cs| - k
  {
    hide AsDerived, Claims;
    if k < |cs| {
      DerivedAccount(cs, p, k + 1, i);
      assert cs[k..][1..] == cs[k + 1..];
    }
  }

  lemma {:induction false} LimitAccounts(cs: seq<Candidate>, i: nat)
    ensures Count(OverLimit(cs), DropsRow(i)) == Count(cs, At(i))
  {
    if cs != [] {
      LimitAccounts(cs[1..], i);
      assert OverLimit(cs)[1..] == OverLimit(cs[1..]);
    }
  }

  lemma ShapeAccounts(c: Contract, xs: seq<Raw>, i: nat)
    ensures Count(Candidates(c, xs, 0), At(i))
            == Count(Ordered(c, xs), At(i)) + Count(ShapeDiagnostics(c, xs), DropsRow(i))
  {
    hide Prepared, Claims, AsDerived;
    var cs := Candidates(c, xs, 0);
    if cs != [] {
      var p := Primary(cs);
      var derived := Derived(cs, p, 0);
      var kept := Take(derived, 2);
      var over := derived[|kept|..];
      DerivedAccount(cs, p, 0, i);
      assert cs[0..] == cs && derived == kept + over;
      CountConcat(kept, over, At(i));
      CountConcat([AsPrimary(cs[p])], kept, At(i));
      LimitAccounts(over, i);
      CountConcat(Duplicates(cs, p, 0), OverLimit(over), DropsRow(i));
    }
  }

  lemma FieldsNotMissing(c: Contract, at: nat, x: Raw)
    requires x.Fields?
    ensures forall d <- FieldDiagnostics(c, at, x) :: !d.MissingSourceTurns?
  {
    hide Known, AsBool, Title;
  }

  lemma {:induction false} RowsNotMissing(c: Contract, xs: seq<Raw>, k: nat)
    requires k <= |xs|
    ensures forall d <- RowDiagnostics(c, xs, k) :: !d.MissingSourceTurns?
    decreases |xs| - k
  {
    hide FieldDiagnostics;
    if k < |xs| {
      if xs[k].Fields? { FieldsNotMissing(c, k, xs[k]); }
      RowsNotMissing(c, xs, k + 1);
    }
  }

  lemma {:induction false} DuplicatesNotMissing(cs: seq<Candidate>, p: nat, k: nat)
    requires k <= |cs|
    ensures forall d <- Duplicates(cs, p, k) :: !d.MissingSourceTurns?
    decreases |cs| - k
  {
    hide Claims;
    if k < |cs| { DuplicatesNotMissing(cs, p, k + 1); }
  }

  lemma NoEarlyMissing(c: Contract, xs: seq<Raw>)
    ensures forall d <- RowDiagnostics(c, xs, 0) + ShapeDiagnostics(c, xs) :: !d.MissingSourceTurns?
  {
    hide Claims, AsDerived;
    RowsNotMissing(c, xs, 0);
    var cs := Candidates(c, xs, 0);
    if cs != [] { DuplicatesNotMissing(cs, Primary(cs), 0); }
  }

  lemma ReturnedUnlessUngrounded(c: Contract, xs: seq<Raw>)
    ensures Rows(c, xs) == RowsOf(Ordered(c, xs)) || Rows(c, xs) == []
    ensures Rows(c, xs) == [] && Ordered(c, xs) != [] <==> exists d <- Diagnosed(c, xs) :: d.MissingSourceTurns?
  {
    hide Ordered, RowDiagnostics, ShapeDiagnostics;
    NoEarlyMissing(c, xs);
    var ordered, early := Ordered(c, xs), RowDiagnostics(c, xs, 0) + ShapeDiagnostics(c, xs);
    if Ungrounded(ordered) {
      assert Diagnosed(c, xs)[|early|] == MissingSourceTurns(ordered[0].at);
    } else {
      assert Diagnosed(c, xs) == early;
    }
  }

  /** Every input row is either kept or reported dropped, exactly once; positions outside the
      input are never named. The kept rows are the ones returned, unless the current turn among them
      has no source turns: then, and only then, nothing is returned and a diagnostic says so. */
  lemma EveryRowAccountedOnce(c: Contract, xs: seq<Raw>, i: nat)
    ensures Count(Ordered(c, xs), At(i)) + Count(Diagnosed(c, xs), DropsRow(i)) == if i < |xs| then 1 else 0
    ensures Rows(c, xs) == RowsOf(Ordered(c, xs)) || Rows(c, xs) == []
    ensures Rows(c, xs) == [] && Ordered(c, xs) != [] <==> exists d <- Diagnosed(c, xs) :: d.MissingSourceTurns?
  {
    ReturnedUnlessUngrounded(c, xs);
    hide Candidates, Ordered;
    var ordered := Ordered(c, xs);
    var last := if Ungrounded(ordered) then [MissingSourceTurns(ordered[0].at)] else [];
    CandidatesAccount(c, xs, 0, i);
    ShapeAccounts(c, xs, i);
    CountConcat(RowDiagnostics(c, xs, 0), ShapeDiagnostics(c, xs), DropsRow(i));
    CountConcat(RowDiagnostics(c, xs, 0) + ShapeDiagnostics(c, xs), last, DropsRow(i));
  }

  // ---------------------------------------------------------------- a second pass

  /** A returned row, handed in again. */
  function Again(r: Row): Raw {
    Fields(r.role, r.kind, r.title, Many(r.summary), Many(r.turns), r.parents, Truth(r.eligible), r.extra)
  }

  function AllAgain(rows: seq<Row>): (r: seq<Raw>)
    ensures |r| == |rows| && forall i :: 0 <= i < |rows| ==> r[i] == Again(rows[i])
  {
    seq(|rows|, i requires 0 <= i < |rows| => Again(rows[i]))
  }

  /** What a second pass makes of a row: a title cut at 200 characters may end in white space,
      and is stripped again. */
  function Recut(c: Contract, r: Row): Row {
    r.(title := Strip(r.title), eligible := r.eligible && c.reasons(Strip(r.title), r.extra) == [])
  }

  lemma {:induction false} RStripShorter(s: string)
    ensures |RStrip(s)| <= |s|
  {
    if s != "" && IsSpace(s[|s| - 1]) { RStripShorter(s[..|s| - 1]); }
  }

  lemma {:induction false} LStripShorter(s: string)
    ensures |LStrip(s)| <= |s|
  {
    if s != "" && IsSpace(s[0]) { LStripShorter(s[1..]); }
  }

  lemma TitleTwice(raw: string)
    ensures Title(Title(raw)) == Strip(Title(raw))
  {
    var t := Title(raw);
    assert t != "" && !IsSpace(t[0]);
    LStripShorter(t);
    RStripShorter(LStrip(t));
    assert Strip(t) != "";
  }

  lemma StrippedAgain(xs: seq<string>)
    requires forall x :: x in xs ==> Stripped(x) && x != ""
    ensures StripAll(Filter(xs, NotBlank)) == xs
  {
  }

  lemma SummaryAgain(xs: seq<string>)
    ensures var r := Take(StripAll(Filter(xs, NotBlank)), 5); Take(StripAll(Filter(r, NotBlank)), 5) == r
  {
    var items := Filter(xs, NotBlank);
    var r := Take(StripAll(items), 5);
    forall t | t in r
      ensures Stripped(t) && t != ""
    {
      var i :| 0 <= i < |r| && t == r[i];
      assert r[i] == Strip(items[i]) && items[i] in items;
    }
    StrippedAgain(r);
  }

  lemma TurnsAgain(xs: seq<string>)
    ensures var r := Take(Filter(xs, NotBlank), 5); Take(Filter(r, NotBlank), 5) == r
  {
    hide NotBlank;
    FilterAll(Take(Filter(xs, NotBlank), 5), NotBlank);
  }

  lemma KnownAgain(c: Contract, extra: map<string, string>)
    ensures Known(c, Known(c, extra)) == Known(c, extra)
  {
  }

  lemma PreparedAgain(c: Contract, x: Raw, role: string, parents: seq<string>)
    requires x.Fields?
    ensures var r := Prepared(c, x).(role := role, parents := parents);
      Prepared(c, Again(r)) == Recut(c, r) && Unknown(c, Again(r)) == {}
  {
    hide Strip, StripAll, Filter, Take, Title, Norm, Known;
    TitleTwice(x.title);
    SummaryAgain(x.summary.Listed());
    TurnsAgain(x.turns.Listed());
    KnownAgain(c, x.extra);
    NoneUnknown(c, x.extra);
  }

  lemma NoneUnknown(c: Contract, extra: map<string, string>)
    ensures forall k <- Known(c, extra) :: k in c.known
  {
  }

  lemma RoleNames()
    ensures Norm("current_turn") == "current_turn" && Norm("derived") == "derived"
  {
  }

  lemma {:induction false} CandidatesOf(c: Contract, ys: seq<Raw>, k: nat)
    requires k <= |ys| && forall y :: y in ys ==> y.Fields?
    ensures |Candidates(c, ys, k)| == |ys| - k
    ensures forall i :: k <= i < |ys| ==> Candidates(c, ys, k)[i - k] == Candidate(i, Prepared(c, ys[i]))
    decreases |ys| - k
  {
    hide Prepared;
    if k < |ys| { CandidatesOf(c, ys, k + 1); }
  }

  lemma {:induction false} NoRowDropped(c: Contract, ys: seq<Raw>, k: nat)
    requires k <= |ys| && forall y :: y in ys ==> y.Fields?
    ensures forall d <- RowDiagnostics(c, ys, k) :: !d.Drop()
    decreases |ys| - k
  {
    hide FieldDiagnostics;
    if k < |ys| {
      FieldsDropNothing(c, k, ys[k]);
      NoRowDropped(c, ys, k + 1);
    }
  }

  lemma {:induction false} DerivedStay(cs: seq<Candidate>, k: nat)
    requires 1 <= k <= |cs|
    requires forall i :: k <= i < |cs| ==> !Claims(cs[i]) && AsDerived(cs[i]) == cs[i]
    ensures Derived(cs, 0, k) == cs[k..] && Duplicates(cs, 0, k) == []
    decreases |cs| - k
  {
    hide AsDerived, Claims;
    if k < |cs| { DerivedStay(cs, k + 1); }
  }

  lemma SettledParents(parents: seq<string>)
    ensures WithSentinel(WithSentinel(parents)) == WithSentinel(parents)
  {
    var once := WithSentinel(parents);
    assert NotBlank(CURRENT_TURN) by { assert Stripped(CURRENT_TURN); }
    FilterAll(once, NotBlank);
  }

  lemma DerivedTwice(x: Candidate)
    ensures AsDerived(AsDerived(x)) == AsDerived(x)
  {
    hide WithSentinel;
    SettledParents(x.row.parents);
  }

  lemma DerivedRowsSettled(c: Contract, xs: seq<Raw>, i: nat)
    requires 1 <= i < |Ordered(c, xs)|
    ensures AsDerived(Ordered(c, xs)[i]) == Ordered(c, xs)[i]
  {
    hide Claims, Prepared, AsDerived, Candidates, FirstClaim, Primary, Derived;
    var cs := Candidates(c, xs, 0);
    var derived := Derived(cs, Primary(cs), 0);
    DerivedFrom(cs, Primary(cs), 0);
    var x := Ordered(c, xs)[i];
    assert x == derived[i - 1] && x in derived;
    var j :| 0 <= j < |cs| && x == AsDerived(cs[j]);
    DerivedTwice(cs[j]);
  }

  lemma RowAgain(c: Contract, xs: seq<Raw>, i: nat)
    requires Rows(c, xs) != [] && i < |Rows(c, xs)|
    ensures var r := Rows(c, xs)[i]; Prepared(c, Again(r)) == Recut(c, r) && Unknown(c, Again(r)) == {}
  {
    hide Prepared, Recut, Unknown;
    RowsHaveNormalForm(c, xs);
    var x := Ordered(c, xs)[i];
    PreparedAgain(c, xs[x.at], x.row.role, x.row.parents);
  }

  /** The candidates of a second pass, one for each returned row. */
  lemma SecondPassCandidates(c: Contract, xs: seq<Raw>, i: nat)
    requires Rows(c, xs) != [] && i < |Rows(c, xs)|
    ensures var rows := Rows(c, xs);
      var cs := Candidates(c, AllAgain(rows), 0);
      && |cs| == |rows|
      && cs[i] == Candidate(i, Recut(c, rows[i]))
      && (if i == 0 then Claims(cs[0]) && AsPrimary(cs[0]) == cs[0] else !Claims(cs[i]) && AsDerived(cs[i]) == cs[i])
  {
    hide Prepared, Candidates, WithSentinel;
    RowsHaveNormalForm(c, xs);
    RoleNames();
    CandidatesOf(c, AllAgain(Rows(c, xs)), 0);
    RowAgain(c, xs, i);
    if i >= 1 { DerivedRowsSettled(c, xs, i); }
  }

  lemma SettledOrder(c: Contract, ys: seq<Raw>)
    requires ys != [] && forall y :: y in ys ==> y.Fields?
    requires var cs := Candidates(c, ys, 0);
      && 1 <= |cs| <= 3 && Claims(cs[0]) && AsPrimary(cs[0]) == cs[0]
      && (forall i :: 1 <= i < |cs| ==> !Claims(cs[i]) && AsDerived(cs[i]) == cs[i])
    ensures Ordered(c, ys) == Candidates(c, ys, 0)
    ensures forall d <- Diagnosed(c, ys) :: !d.Drop()
  {
    hide Candidates, Claims, AsDerived, AsPrimary;
    var cs := Candidates(c, ys, 0);
    assert Primary(cs) == 0;
    DerivedStay(cs, 1);
    assert [cs[0]] + cs[1..] == cs;
    NoRowDropped(c, ys, 0);
  }

  /** Normalising the returned rows again returns them in the same order with the same roles,
      parents and source turns, and drops none. */
  lemma SecondPassKeepsRows(c: Contract, xs: seq<Raw>)
    ensures var rows := Rows(c, xs);
      var again := Rows(c, AllAgain(rows));
      && |again| == |rows|
      && (forall i :: 0 <= i < |rows| ==> again[i] == Recut(c, rows[i]))
      && (forall d <- Diagnosed(c, AllAgain(rows)) :: !d.Drop())
  {
    hide Ordered, Candidates, Claims, AsDerived, AsPrimary, RowDiagnostics, ShapeDiagnostics;
    var rows := Rows(c, xs);
    var ys := AllAgain(rows);
    if rows == [] {
      NoRows(c);
    } else {
      RowsHaveNormalForm(c, xs);
      forall i | 0 <= i < |rows| { SecondPassCandidates(c, xs, i); }
      SettledOrder(c, ys);
    }
  }

  lemma NoRows(c: Contract)
    ensures Ordered(c, []) == [] && Diagnosed(c, []) == []
  {
  }

  /** The second pass changes nothing at all exactly when no title was cut in front of white space. */
  lemma SecondPassIdentityIff(c: Contract, xs: seq<Raw>)
    ensures var rows := Rows(c, xs);
      Rows(c, AllAgain(rows)) == rows <==> forall i :: 0 <= i < |rows| ==> Stripped(rows[i].title)
  {
    hide Ordered, AllAgain;
    var rows := Rows(c, xs);
    var again := Rows(c, AllAgain(rows));
    SecondPassKeepsRows(c, xs);
    RowsHaveNormalForm(c, xs);
    forall i | 0 <= i < |rows|
      ensures again[i] == rows[i] <==> Stripped(rows[i].title)
    {
      var x := Ordered(c, xs)[i];
      assert rows[i].eligible ==> c.reasons(rows[i].title, rows[i].extra) == [];
      assert again[i].title == Strip(rows[i].title);
    }
  }

  /** Such a title exists: 199 letters, a space and one more letter. */
  lemma SecondPassMayRecut(c: Contract) returns (xs: seq<Raw>)
    ensures |Rows(c, xs)| == 1 && Rows(c, AllAgain(Rows(c, xs))) != Rows(c, xs)
  {
    var letters := seq(199, _ => 'a');
    var title := letters + [' ', 'b'];
    assert Stripped(title);
    xs := [Fields("", "", title, Missing, One("turn"), [], Unset, map[])];
    assert Title(title) == letters + [' '];
    assert Stripped("turn");
    var cs := Candidates(c, xs, 0);
    CandidatesOf(c, xs, 0);
    assert Filter(["turn"], NotBlank) == ["turn"];
    assert Ordered(c, xs) == [AsPrimary(cs[0])] by { assert Derived(cs, 0, 0) == []; }
    var row := Rows(c, xs)[0];
    assert row.title == letters + [' '] && !Stripped(row.title);
    SecondPassIdentityIff(c, xs);
  }
}
