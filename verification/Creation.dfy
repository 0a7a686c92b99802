/** Bead creation rows: the normaliser that shapes an authored `beads_create` list, and the loop
    that hands the result to the store. */
module Creation {
  import opened Text
  import opened Sequences

  const CURRENT_TURN := "$current_turn"

  /** An authored text list: absent, a bare string, or a list. */
  datatype Items = Missing | One(text: string) | Many(items: seq<string>) {
    function Listed(): seq<string> {
      match this
      case Missing => []
      case One(t) => [t]
      case Many(xs) => xs
    }
  }

  datatype Flag = Unset | Truth(value: bool) | Number(n: int) | Word(word: string) | OtherValue

  /** One element of `beads_create`. A missing text field is "". */
  datatype Raw =
    | NotObject
    | Fields(role: string, kind: string, title: string, summary: Items, turns: Items,
             parents: seq<string>, eligible: Flag, extra: map<string, string>)

  datatype Row = Row(role: string, kind: string, title: string, summary: seq<string>, turns: seq<string>,
                     parents: seq<string>, eligible: bool, extra: map<string, string>)

  /** Every diagnostic names the input row it is about. */
  datatype Diagnostic =
    | NotAnObject(row: nat)
    | UnknownDropped(row: nat, fields: set<string>)
    | EligibilityDefaulted(row: nat)
    | Downgraded(row: nat, reasons: seq<string>)
    | DuplicateCurrentTurn(row: nat)
    | DerivedLimit(row: nat)
    | MissingSourceTurns(row: nat)
  {
    /** Does it report that the row was dropped? */
    predicate Drop() { NotAnObject? || DuplicateCurrentTurn? || DerivedLimit? }
  }

  /** What the normaliser takes from elsewhere: the known field names and the eligibility rules,
      which look at the title and the fields carried along. */
  datatype Contract = Contract(known: set<string>, reasons: (string, map<string, string>) -> seq<string>)

  datatype Candidate = Candidate(at: nat, row: Row)

  predicate AsBool(f: Flag) {
    match f
    case Truth(b) => b
    case Number(n) => n != 0
    case Word(w) => Norm(w) in {"1", "true", "yes", "on"}
    case _ => false
  }

  function Unknown(c: Contract, x: Raw): set<string>
    requires x.Fields?
  {
    set k | k in x.extra && k !in c.known
  }

  function Known(c: Contract, extra: map<string, string>): map<string, string> {
    map k | k in extra && k in c.known :: extra[k]
  }

  function Title(raw: string): string {
    Take(Or(Strip(raw), "assistant turn"), 200)
  }

  function Prepared(c: Contract, x: Raw): Row
    requires x.Fields?
  {
    var title := Title(x.title);
    var extra := Known(c, x.extra);
    Row(x.role, Or(Strip(x.kind), "context"), title,
        Take(StripAll(Filter(x.summary.Listed(), NotBlank)), 5),
        Take(Filter(x.turns.Listed(), NotBlank), 5),
        x.parents, AsBool(x.eligible) && c.reasons(title, extra) == [], extra)
  }

  function FieldDiagnostics(c: Contract, at: nat, x: Raw): seq<Diagnostic>
    requires x.Fields?
  {
    var reasons := c.reasons(Title(x.title), Known(c, x.extra));
    (if Unknown(c, x) != {} then [UnknownDropped(at, Unknown(c, x))] else [])
    + (if x.eligible.Unset? then [EligibilityDefaulted(at)] else [])
    + (if AsBool(x.eligible) && reasons != [] then [Downgraded(at, reasons)] else [])
  }

  function Candidates(c: Contract, xs: seq<Raw>, k: nat): seq<Candidate>
    requires k <= |xs|
    decreases |xs| - k
  {
    if k == |xs| then []
    else if xs[k].Fields? then [Candidate(k, Prepared(c, xs[k]))] + Candidates(c, xs, k + 1)
    else Candidates(c, xs, k + 1)
  }

  function RowDiagnostics(c: Contract, xs: seq<Raw>, k: nat): seq<Diagnostic>
    requires k <= |xs|
    decreases |xs| - k
  {
    if k == |xs| then []
    else (if xs[k].Fields? then FieldDiagnostics(c, k, xs[k]) else [NotAnObject(k)]) + RowDiagnostics(c, xs, k + 1)
  }

  predicate Claims(x: Candidate) { Norm(x.row.role) == "current_turn" }

  function FirstClaim(cs: seq<Candidate>): (p: int)
    ensures -1 <= p < |cs|
    ensures p >= 0 ==> Claims(cs[p])
    ensures forall i :: 0 <= i < (if p < 0 then |cs| else p) ==> !Claims(cs[i])
  {
    if cs == [] then -1
    else if Claims(cs[0]) then 0
    else
      var p := FirstClaim(cs[1..]);
      if p < 0 then -1 else p + 1
  }

  /** The first row that says it is the current turn, else the first row. */
  function Primary(cs: seq<Candidate>): (p: nat)
    requires cs != []
    ensures p < |cs|
  {
    if FirstClaim(cs) < 0 then 0 else FirstClaim(cs)
  }

  function AsPrimary(x: Candidate): Candidate {
    x.(row := x.row.(role := "current_turn"))
  }

  function WithSentinel(parents: seq<string>): seq<string> {
    var named := Filter(parents, NotBlank);
    if CURRENT_TURN in named then named else named + [CURRENT_TURN]
  }

  function AsDerived(x: Candidate): (y: Candidate)
    ensures y.at == x.at && y.row.role == "derived" && CURRENT_TURN in y.row.parents
    ensures x.row == y.row.(role := x.row.role, parents := x.row.parents)
  {
    x.(row := x.row.(role := "derived", parents := WithSentinel(x.row.parents)))
  }

  /** The derived rows among cs[k..], before the limit of two. */
  function Derived(cs: seq<Candidate>, p: nat, k: nat): seq<Candidate>
    requires k <= |cs|
    decreases |cs| - k
  {
    if k == |cs| then []
    else if k == p || Claims(cs[k]) then Derived(cs, p, k + 1)
    else [AsDerived(cs[k])] + Derived(cs, p, k + 1)
  }

  function Duplicates(cs: seq<Candidate>, p: nat, k: nat): seq<Diagnostic>
    requires k <= |cs|
    decreases |cs| - k
  {
    if k == |cs| then []
    else if k == p || !Claims(cs[k]) then Duplicates(cs, p, k + 1)
    else [DuplicateCurrentTurn(cs[k].at)] + Duplicates(cs, p, k + 1)
  }

  function OverLimit(cs: seq<Candidate>): (r: seq<Diagnostic>)
    ensures |r| == |cs|
  {
    seq(|cs|, i requires 0 <= i < |cs| => DerivedLimit(cs[i].at))
  }

  /** The rows the normaliser settles on, with the input positions they come from, before the
      current turn is checked for source turns. */
  function Ordered(c: Contract, xs: seq<Raw>): seq<Candidate> {
    var cs := Candidates(c, xs, 0);
    if cs == [] then []
    else
      var p := Primary(cs);
      [AsPrimary(cs[p])] + Take(Derived(cs, p, 0), 2)
  }

  function ShapeDiagnostics(c: Contract, xs: seq<Raw>): seq<Diagnostic> {
    var cs := Candidates(c, xs, 0);
    if cs == [] then []
    else
      var p := Primary(cs);
      var derived := Derived(cs, p, 0);
      Duplicates(cs, p, 0) + OverLimit(derived[|Take(derived, 2)|..])
  }

  predicate Ungrounded(ordered: seq<Candidate>) {
    ordered != [] && ordered[0].row.turns == []
  }

  function RowsOf(cs: seq<Candidate>): (r: seq<Row>)
    ensures |r| == |cs|
    ensures forall i :: 0 <= i < |cs| ==> r[i] == cs[i].row
  {
    seq(|cs|, i requires 0 <= i < |cs| => cs[i].row)
  }

  function Rows(c: Contract, xs: seq<Raw>): seq<Row> {
    var ordered := Ordered(c, xs);
    if Ungrounded(ordered) then [] else RowsOf(ordered)
  }

  function Diagnosed(c: Contract, xs: seq<Raw>): seq<Diagnostic> {
    var ordered := Ordered(c, xs);
    RowDiagnostics(c, xs, 0) + ShapeDiagnostics(c, xs)
    + (if Ungrounded(ordered) then [MissingSourceTurns(ordered[0].at)] else [])
  }

  // ---------------------------------------------------------------- the loops

  method Prepare(c: Contract, xs: seq<Raw>) returns (cs: seq<Candidate>, diagnostics: seq<Diagnostic>)
    ensures cs == Candidates(c, xs, 0) && diagnostics == RowDiagnostics(c, xs, 0)
  {
    cs, diagnostics := [], [];
    var k := 0;
    while k < |xs|
      invariant 0 <= k <= |xs|
      invariant cs + Candidates(c, xs, k) == Candidates(c, xs, 0)
      invariant diagnostics + RowDiagnostics(c, xs, k) == RowDiagnostics(c, xs, 0)
    {
      ghost var restRows, restDiagnostics := Candidates(c, xs, k + 1), RowDiagnostics(c, xs, k + 1);
      match xs[k] {
        case NotObject =>
          assert diagnostics + ([NotAnObject(k)] + restDiagnostics) == diagnostics + [NotAnObject(k)] + restDiagnostics;
          diagnostics := diagnostics + [NotAnObject(k)];
        case Fields(_, _, _, _, _, _, _, _) =>
          var row, found := Candidate(k, Prepared(c, xs[k])), FieldDiagnostics(c, k, xs[k]);
          assert cs + ([row] + restRows) == cs + [row] + restRows;
          assert diagnostics + (found + restDiagnostics) == diagnostics + found + restDiagnostics;
          cs, diagnostics := cs + [row], diagnostics + found;
      }
      k := k + 1;
    }
  }

  method Assign(cs: seq<Candidate>, p: nat)
    returns (primary: seq<Candidate>, derived: seq<Candidate>, dropped: seq<Diagnostic>)
    requires p < |cs|
    ensures primary == [AsPrimary(cs[p])] && derived == Derived(cs, p, 0) && dropped == Duplicates(cs, p, 0)
  {
    hide AsDerived, Claims;
    primary, derived, dropped := [], [], [];
    var k := 0;
    while k < |cs|
      invariant 0 <= k <= |cs|
      invariant primary == if k <= p then [] else [AsPrimary(cs[p])]
      invariant derived + Derived(cs, p, k) == Derived(cs, p, 0)
      invariant dropped + Duplicates(cs, p, k) == Duplicates(cs, p, 0)
    {
      ghost var restDerived, restDropped := Derived(cs, p, k + 1), Duplicates(cs, p, k + 1);
      if k == p {
        primary := primary + [AsPrimary(cs[k])];
      } else if Claims(cs[k]) {
        var d := DuplicateCurrentTurn(cs[k].at);
        assert dropped + ([d] + restDropped) == dropped + [d] + restDropped;
        dropped := dropped + [d];
      } else {
        var row := AsDerived(cs[k]);
        assert derived + ([row] + restDerived) == derived + [row] + restDerived;
        derived := derived + [row];
      }
      k := k + 1;
    }
  }

  /** `_normalize_creation_rows_with_diagnostics` */
  method NormalizeCreationRows(c: Contract, xs: seq<Raw>) returns (rows: seq<Row>, diagnostics: seq<Diagnostic>)
    ensures rows == Rows(c, xs) && diagnostics == Diagnosed(c, xs)
  {
    var cs;
    cs, diagnostics := Prepare(c, xs);
    var ordered: seq<Candidate> := [];
    if cs != [] {
      var primary, derived, dropped := Assign(cs, Primary(cs));
      diagnostics := diagnostics + dropped;
      var kept := Take(derived, 2);
      if |derived| > 2 {
        diagnostics := diagnostics + OverLimit(derived[2..]);
      }
      ordered := primary + kept;
      assert diagnostics == RowDiagnostics(c, xs, 0) + ShapeDiagnostics(c, xs);
    }
    if ordered != [] && ordered[0].row.turns == [] {
      return [], diagnostics + [MissingSourceTurns(ordered[0].at)];
    }
    rows := RowsOf(ordered);
  }
}
