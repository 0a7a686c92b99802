/** Edge reinforcement: recall appends the edges it used to a log, and a flush folds the log into
    the reinforcement counts of the association rows and truncates it. */
module EdgeUsage {
  import opened Options
  import opened Text
  import opened Sequences
  import opened Inference

  /** `source` and `target` are the effective endpoints, whichever spelling the row uses. */
  datatype Edge = Edge(source: string, target: string, relationship: string, status: string,
                       count: int, reinforcedAt: Option<int>)
  {
    function Key(): Triple { (source, target, Norm(relationship)) }

    function Mirror(): Triple { (target, source, Norm(relationship)) }

    predicate Active() {
      Or(Norm(Or(status, "active")), "active") !in {"retracted", "superseded", "inactive"}
    }

    /** Its endpoints differ, so an edge is used in one orientation or the other. */
    predicate Proper() { source != target }
  }

  /** One log line: the edges of one recall event. */
  type Line = seq<Triple>

  function Normal(e: Triple): Triple { (e.0, e.1, Norm(e.2)) }

  /** A logged edge counts when both endpoints are there and it normalises to the key. */
  function Names(key: Triple): Triple -> bool {
    (e: Triple) => e.0 != "" && e.1 != "" && Normal(e) == key
  }

  /** How often the log names the key. */
  function Uses(log: seq<Line>, key: Triple): nat {
    if log == [] then 0 else Uses(log[..|log| - 1], key) + Count(log[|log| - 1], Names(key))
  }

  /** What fold adds to an association: the uses of its key and of the mirrored key. */
  function Gain(log: seq<Line>, a: Edge): nat {
    Uses(log, a.Key()) + Uses(log, a.Mirror())
  }

  function Reinforced(a: Edge, log: seq<Line>, now: int): Edge {
    if a.Active() && Gain(log, a) > 0 then a.(count := a.count + Gain(log, a), reinforcedAt := Some(now)) else a
  }

  function Folded(edges: seq<Edge>, log: seq<Line>, now: int): (r: seq<Edge>)
    ensures |r| == |edges| && forall i :: 0 <= i < |edges| ==> r[i] == Reinforced(edges[i], log, now)
  {
    seq(|edges|, i requires 0 <= i < |edges| => Reinforced(edges[i], log, now))
  }

  /** The line one recorded event appends, if any edge has both endpoints. */
  function LineOf(pairs: seq<Triple>): Line {
    Filter(pairs, (e: Triple) => e.0 != "" && e.1 != "")
  }

  function Appended(log: seq<Line>, pairs: seq<Triple>): seq<Line> {
    if LineOf(pairs) == [] then log else log + [LineOf(pairs)]
  }

  /** Does the log name any edge at all? Fold stops early when it does not. */
  ghost predicate Used(log: seq<Line>) {
    exists key :: Uses(log, key) > 0
  }

  // ---------------------------------------------------------------- laws

  lemma {:induction false} UsesConcat(a: seq<Line>, b: seq<Line>, key: Triple)
    ensures Uses(a + b, key) == Uses(a, key) + Uses(b, key)
  {
    if b == [] {
      assert a + b == a;
    } else {
      UsesConcat(a, b[..|b| - 1], key);
      assert (a + b)[..|a + b| - 1] == a + b[..|b| - 1];
    }
  }

  lemma GainConcat(a: seq<Line>, b: seq<Line>, e: Edge)
    ensures Gain(a + b, e) == Gain(a, e) + Gain(b, e)
  {
    UsesConcat(a, b, e.Key());
    UsesConcat(a, b, e.Mirror());
  }

  ghost predicate SameCounts(xs: seq<Edge>, ys: seq<Edge>) {
    |xs| == |ys| && forall i :: 0 <= i < |xs| ==> xs[i] == ys[i].(reinforcedAt := xs[i].reinforcedAt)
  }

  lemma ReinforcedTwice(e: Edge, a: seq<Line>, b: seq<Line>, t: int, u: int, v: int)
    ensures Reinforced(Reinforced(e, a, t), b, u).count == Reinforced(e, a + b, v).count
  {
    hide Norm, Uses;
    GainConcat(a, b, e);
  }

  /** Folding two logs one after the other counts as folding their concatenation. */
  lemma FoldIsHomomorphism(edges: seq<Edge>, a: seq<Line>, b: seq<Line>, t: int, u: int, v: int)
    ensures SameCounts(Folded(Folded(edges, a, t), b, u), Folded(edges, a + b, v))
  {
    hide Gain;
    forall i | 0 <= i < |edges| { ReinforcedTwice(edges[i], a, b, t, u, v); }
  }

  /** Logged edges that match an association in either orientation. */
  function Matches(a: Edge): Triple -> bool {
    (e: Triple) => Names(a.Key())(e) || Names(a.Mirror())(e)
  }

  function MatchesIn(log: seq<Line>, a: Edge): nat {
    if log == [] then 0 else MatchesIn(log[..|log| - 1], a) + Count(log[|log| - 1], Matches(a))
  }

  lemma {:induction false} CountMatches(line: Line, a: Edge)
    ensures Count(line, Names(a.Key())) + Count(line, Names(a.Mirror()))
            == if a.Proper() then Count(line, Matches(a)) else 2 * Count(line, Matches(a))
  {
    hide Norm;
    if line != [] { CountMatches(line[1..], a); }
  }

  /** An active association gains one for every logged edge that matches it in either orientation;
      a loop matches in both and gains two. An inactive one is left alone. */
  lemma {:induction false} GainCountsMatches(log: seq<Line>, a: Edge)
    ensures Gain(log, a) == if a.Proper() then MatchesIn(log, a) else 2 * MatchesIn(log, a)
  {
    hide Norm;
    if log != [] {
      GainCountsMatches(log[..|log| - 1], a);
      CountMatches(log[|log| - 1], a);
    }
  }

  lemma IncrementIs(a: Edge, log: seq<Line>, now: int)
    ensures Reinforced(a, log, now).count - a.count
            == if !a.Active() then 0 else if a.Proper() then MatchesIn(log, a) else 2 * MatchesIn(log, a)
    ensures !a.Active() ==> Reinforced(a, log, now) == a
  {
    hide Norm;
    GainCountsMatches(log, a);
  }

  // ---------------------------------------------------------------- the loops

  function Get(counts: map<Triple, nat>, key: Triple): nat {
    if key in counts then counts[key] else 0
  }

  ghost predicate Tallies(counts: map<Triple, nat>, log: seq<Line>, line: Line) {
    && (forall key :: Get(counts, key) == Uses(log, key) + Count(line, Names(key)))
    && (forall key <- counts :: counts[key] > 0)
  }

  lemma CountLast(line: Line, j: nat, key: Triple)
    requires j < |line|
    ensures Count(line[..j + 1], Names(key)) == Count(line[..j], Names(key)) + if Names(key)(line[j]) then 1 else 0
  {
    assert line[..j + 1] == line[..j] + [line[j]];
    CountConcat(line[..j], [line[j]], Names(key));
  }

  /** The aggregation of one event into `counts`. */
  method TallyLine(counts0: map<Triple, nat>, ghost log: seq<Line>, line: Line) returns (counts: map<Triple, nat>)
    requires Tallies(counts0, log, [])
    ensures Tallies(counts, log + [line], [])
  {
    hide Norm;
    counts := counts0;
    var j := 0;
    while j < |line|
      invariant 0 <= j <= |line|
      invariant Tallies(counts, log, line[..j])
    {
      var e := line[j];
      var key := Normal(e);
      forall k { CountLast(line, j, k); }
      if e.0 != "" && e.1 != "" {
        counts := counts[key := Get(counts, key) + 1];
      }
      j := j + 1;
    }
    assert line[..|line|] == line;
    assert (log + [line])[..|log|] == log;
  }

  method Tally(log: seq<Line>) returns (counts: map<Triple, nat>)
    ensures forall key :: Get(counts, key) == Uses(log, key)
    ensures counts == map[] <==> !Used(log)
  {
    counts := map[];
    var i := 0;
    while i < |log|
      invariant 0 <= i <= |log|
      invariant Tallies(counts, log[..i], [])
    {
      assert log[..i + 1] == log[..i] + [log[i]];
      counts := TallyLine(counts, log[..i], log[i]);
      i := i + 1;
    }
    assert log[..|log|] == log;
    if counts != map[] {
      var key :| key in counts;
      assert Get(counts, key) > 0;
    }
  }
}
