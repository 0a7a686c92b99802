/** The association rows and the usage log as recall and flush update them in place. */
module EdgeStore {
  import opened Options
  import opened Text
  import opened Sequences
  import opened Inference
  import opened EdgeUsage
  import opened EdgeUsageRuns

  type Pair = (string, string)

  /** The last active association between the pair with a relationship, if any. */
  function Winner(edges: seq<Edge>, pair: Pair): Option<Triple> {
    if edges == [] then None
    else
      var last := edges[|edges| - 1];
      if last.Active() && pair.0 != "" && pair.1 != "" && last.Key().2 != "" && (last.source, last.target) == pair
      then Some(last.Key())
      else Winner(edges[..|edges| - 1], pair)
  }

  lemma {:induction false} WinnerIsAnEdge(edges: seq<Edge>, pair: Pair)
    requires Winner(edges, pair).Some?
    ensures exists a <- edges :: a.Active() && a.Key() == Winner(edges, pair).value && (a.source, a.target) == pair
  {
    var last := edges[|edges| - 1];
    hide Norm;
    if last.Active() && pair.0 != "" && pair.1 != "" && last.Key().2 != "" && (last.source, last.target) == pair {
      assert last in edges;
    } else {
      WinnerIsAnEdge(edges[..|edges| - 1], pair);
    }
  }

  /** The association a path edge stands for, in its own orientation if there is one. */
  function OnPath(edges: seq<Edge>, p: Pair): Option<Triple> {
    if p.0 == "" || p.1 == "" then None
    else if Winner(edges, p).Some? then Winner(edges, p)
    else Winner(edges, (p.1, p.0))
  }

  /** Did the key contribute: both ends delivered, or some path edge stands for it? */
  ghost predicate Contributed(edges: seq<Edge>, delivered: set<string>, path: seq<Pair>, key: Triple) {
    || (|delivered| >= 2 && key.0 in delivered && key.1 in delivered && Winner(edges, (key.0, key.1)) == Some(key))
    || (exists p <- path :: OnPath(edges, p) == Some(key))
  }

  /** The table of pairs, with the keys in the order their pairs were first seen. */
  method PairTable(edges: seq<Edge>) returns (table: map<Pair, Triple>, order: seq<Pair>)
    ensures forall p :: Winner(edges, p) == if p in table then Some(table[p]) else None
    ensures NoDuplicates(order) && forall p :: p in order <==> p in table
  {
    hide Norm;
    table, order := map[], [];
    var i := 0;
    while i < |edges|
      invariant 0 <= i <= |edges|
      invariant forall p :: Winner(edges[..i], p) == if p in table then Some(table[p]) else None
      invariant NoDuplicates(order) && forall p :: p in order <==> p in table
    {
      var a := edges[i];
      assert edges[..i + 1][..i] == edges[..i];
      if a.Active() && a.source != "" && a.target != "" && a.Key().2 != "" {
        var p := (a.source, a.target);
        if p !in table { order := order + [p]; }
        table := table[p := a.Key()];
      }
      i := i + 1;
    }
    assert edges[..|edges|] == edges;
  }

  method DeliveredPairs(edges: seq<Edge>, delivered: set<string>, table: map<Pair, Triple>, order: seq<Pair>)
    returns (used: seq<Triple>)
    requires forall p :: Winner(edges, p) == if p in table then Some(table[p]) else None
    requires forall p :: p in order <==> p in table
    ensures NoDuplicates(used)
    ensures forall key :: key in used <==>
              key.0 in delivered && key.1 in delivered && Winner(edges, (key.0, key.1)) == Some(key)
  {
    used := [];
    var i := 0;
    while i < |order|
      invariant 0 <= i <= |order| && NoDuplicates(used)
      invariant forall key :: key in used <==>
                  exists j :: 0 <= j < i && order[j].0 in delivered && order[j].1 in delivered && table[order[j]] == key
    {
      var key := table[order[i]];
      if order[i].0 in delivered && order[i].1 in delivered && key !in used {
        used := used + [key];
      }
      i := i + 1;
    }
    DeliveredKeys(edges, delivered, table, order, used);
  }

  method PathPairs(edges: seq<Edge>, path: seq<Pair>, table: map<Pair, Triple>, before: seq<Triple>)
    returns (used: seq<Triple>)
    requires forall p :: Winner(edges, p) == if p in table then Some(table[p]) else None
    requires NoDuplicates(before)
    ensures NoDuplicates(used)
    ensures forall key :: key in used <==> key in before || exists p <- path :: OnPath(edges, p) == Some(key)
  {
    hide Winner;
    used := before;
    var i := 0;
    while i < |path|
      invariant 0 <= i <= |path| && NoDuplicates(used)
      invariant forall key :: key in used <==> key in before || exists p <- path[..i] :: OnPath(edges, p) == Some(key)
    {
      var p := path[i];
      assert path[..i + 1] == path[..i] + [p];
      if p.0 != "" && p.1 != "" {
        var key := if p in table then Some(table[p])
                   else if (p.1, p.0) in table then Some(table[(p.1, p.0)])
                   else None;
        assert key == OnPath(edges, p);
        if key.Some? && key.value !in used {
          used := used + [key.value];
        }
      }
      i := i + 1;
    }
    assert path[..|path|] == path;
  }

  /** Which associations contributed to an answer: duplicate-free, and only real active ones. */
  method CollectUsedEdgePairs(edges: seq<Edge>, delivered: set<string>, path: seq<Pair>) returns (used: seq<Triple>)
    ensures NoDuplicates(used)
    ensures forall key :: key in used <==> Contributed(edges, delivered, path, key)
    ensures forall key <- used :: exists a <- edges :: a.Active() && a.Key() == key
  {
    hide Winner, OnPath;
    var table, order := PairTable(edges);
    used := [];
    if |delivered| >= 2 {
      used := DeliveredPairs(edges, delivered, table, order);
    }
    used := PathPairs(edges, path, table, used);
    forall key | key in used
      ensures exists a <- edges :: a.Active() && a.Key() == key
    {
      ContributedIsAnEdge(edges, delivered, path, key);
    }
  }

  lemma DeliveredKeys(edges: seq<Edge>, delivered: set<string>, table: map<Pair, Triple>, order: seq<Pair>,
      used: seq<Triple>)
    requires forall p :: Winner(edges, p) == if p in table then Some(table[p]) else None
    requires forall p :: p in order <==> p in table
    requires forall key :: key in used <==>
               exists j :: 0 <= j < |order| && order[j].0 in delivered && order[j].1 in delivered
                   && table[order[j]] == key
    ensures forall key :: key in used <==>
              key.0 in delivered && key.1 in delivered && Winner(edges, (key.0, key.1)) == Some(key)
  {
    forall key
      ensures key in used <==> key.0 in delivered && key.1 in delivered && Winner(edges, (key.0, key.1)) == Some(key)
    {
      if key.0 in delivered && key.1 in delivered && Winner(edges, (key.0, key.1)) == Some(key) {
        var p := (key.0, key.1);
        assert p in order;
      }
      if key in used {
        var j :| 0 <= j < |order| && order[j].0 in delivered && order[j].1 in delivered && table[order[j]] == key;
        assert order[j] in order;
        WinnerIsAnEdge(edges, order[j]);
      }
    }
  }

  lemma ContributedIsAnEdge(edges: seq<Edge>, delivered: set<string>, path: seq<Pair>, key: Triple)
    requires Contributed(edges, delivered, path, key)
    ensures exists a <- edges :: a.Active() && a.Key() == key
  {
    if |delivered| >= 2 && key.0 in delivered && key.1 in delivered && Winner(edges, (key.0, key.1)) == Some(key) {
      WinnerIsAnEdge(edges, (key.0, key.1));
    } else {
      var p :| p in path && OnPath(edges, p) == Some(key);
      if Winner(edges, p).Some? { WinnerIsAnEdge(edges, p); } else { WinnerIsAnEdge(edges, (p.1, p.0)); }
    }
  }

  /** The rows a fold reinforces. */
  function Touched(lines: seq<Line>): Edge -> bool {
    (a: Edge) => a.Active() && Gain(lines, a) > 0
  }

  /** One row of that pass. */
  method ReinforceRow(a: Edge, counts: map<Triple, nat>, ghost lines: seq<Line>, now: int) returns (b: Edge, hit: bool)
    requires forall key :: Get(counts, key) == Uses(lines, key)
    ensures b == Reinforced(a, lines, now) && hit == Touched(lines)(a)
  {
    hide Norm, Uses;
    var n := Get(counts, a.Key()) + Get(counts, a.Mirror());
    b, hit := a, a.Active() && n > 0;
    if hit {
      b := a.(count := a.count + n, reinforcedAt := Some(now));
    }
  }

  /** The pass over the association rows. */
  method FoldRows(edges: seq<Edge>, counts: map<Triple, nat>, ghost lines: seq<Line>, now: int)
    returns (rows: seq<Edge>, reinforced: nat)
    requires forall key :: Get(counts, key) == Uses(lines, key)
    ensures rows == Folded(edges, lines, now)
    ensures reinforced == Count(edges, Touched(lines))
  {
    hide Get, Uses, Reinforced, Touched;
    rows, reinforced := [], 0;
    var i := 0;
    while i < |edges|
      invariant 0 <= i == |rows| <= |edges|
      invariant forall j :: 0 <= j < i ==> rows[j] == Reinforced(edges[j], lines, now)
      invariant reinforced == Count(edges[..i], Touched(lines))
    {
      assert edges[..i + 1] == edges[..i] + [edges[i]];
      CountConcat(edges[..i], [edges[i]], Touched(lines));
      var row, hit := ReinforceRow(edges[i], counts, lines, now);
      if hit { reinforced := reinforced + 1; }
      rows := rows + [row];
      i := i + 1;
    }
    assert edges[..|edges|] == edges;
  }

  lemma NothingTouched(edges: seq<Edge>, lines: seq<Line>)
    requires !Used(lines)
    ensures Count(edges, Touched(lines)) == 0
  {
  }

  datatype CrashPoint = NoCrash | BeforeWrite | BeforeTruncate

  /** The steps one fold goes through, up to where it stops. */
  ghost function FoldSteps(log: seq<Line>, max: nat, now: int, crash: CrashPoint): seq<Step> {
    if crash.BeforeWrite? || (crash.BeforeTruncate? && !Used(Take(log, max))) then [Begin(0, max), Crash(0)]
    else if !Used(Take(log, max)) then [Begin(0, max), Discard(0)]
    else [Begin(0, max), Write(0, now), if crash.BeforeTruncate? then CrashWritten else Truncate]
  }

  lemma FoldIsARun(st: State, max: nat, now: int, crash: CrashPoint)
    requires Idle(st)
    ensures var steps := FoldSteps(st.log, max, now, crash);
      && Possible(st, steps)
      && Idle(Run(st, steps))
      && Run(st, steps).log == (if crash.NoCrash? then [] else st.log)
      && Run(st, steps).edges == if crash.BeforeWrite? || !Used(Take(st.log, max)) then st.edges
                                 else Folded(st.edges, Take(st.log, max), now)
  {
    hide Used, Folded;
    var steps := FoldSteps(st.log, max, now, crash);
    var s1 := Next(st, steps[0]);
    var s2 := Next(s1, steps[1]);
    assert s2.read == map[];
    if |steps| == 2 {
      assert steps[1..] == [steps[1]];
      assert Possible(s1, [steps[1]]) && Run(s1, [steps[1]]) == s2;
    } else {
      assert steps[1..][1..] == [steps[2]];
      var s3 := Next(s2, steps[2]);
      assert Possible(s2, [steps[2]]) && Run(s2, [steps[2]]) == s3;
    }
  }

  class Store {
    var edges: seq<Edge>
    var log: seq<Line>

    constructor (edges: seq<Edge>)
      ensures this.edges == edges && log == []
    {
      this.edges, log := edges, [];
    }

    ghost function Model(): State
      reads this
    {
      State(edges, log, map[], None)
    }

    method RecordEdgeUsage(pairs: seq<Triple>) returns (recorded: nat)
      modifies this`log
      ensures Model() == Next(old(Model()), Step.Record(pairs))
      ensures recorded == |LineOf(pairs)|
    {
      var rows := LineOf(pairs);
      if rows == [] { return 0; }
      log := log + [rows];
      recorded := |rows|;
    }

    /** One fold, with nothing recorded meanwhile. */
    method FoldEdgeUsage(maxRows: nat, now: int, crash: CrashPoint) returns (reinforced: nat)
      modifies this
      ensures var steps := FoldSteps(old(log), maxRows, now, crash);
        Possible(old(Model()), steps) && Model() == Run(old(Model()), steps)
      ensures reinforced == if crash.BeforeWrite? then 0 else Count(old(edges), Touched(Take(old(log), maxRows)))
    {
      reinforced := 0;
      FoldIsARun(Model(), maxRows, now, crash);
      var lines := Take(log, maxRows);
      var counts := Tally(lines);
      if counts == map[] {
        NothingTouched(edges, lines);
        if crash.NoCrash? { log := []; }
        return;
      }
      if crash.BeforeWrite? { return; }
      var rows;
      rows, reinforced := FoldRows(edges, counts, lines, now);
      edges := rows;
      if crash.BeforeTruncate? { return; }
      log := [];
    }
  }
}
