/** Where the reinforcement promise fails: a fold that leaves part of the log unread, uses recorded
    while it is under way, and two folds that overlap. */
module EdgeUsageLosses {
  import opened Options
  import opened Text
  import opened Sequences
  import opened Inference
  import opened EdgeUsage
  import opened EdgeUsageRuns

  /** The first step of a run. */
  lemma FirstStep(st: State, x: Step, rest: seq<Step>, a: Edge, i: nat)
    requires Enabled(st, x) && Possible(Next(st, x), rest)
    ensures Possible(st, [x] + rest) && Run(st, [x] + rest) == Run(Next(st, x), rest)
    ensures Lost(st, [x] + rest, a) == LostBy(st, x, a) + Lost(Next(st, x), rest, a)
    ensures OneAtATime(st, [x] + rest) <==> (x.Begin? ==> Idle(st)) && OneAtATime(Next(st, x), rest)
    ensures StaysActive(st, [x] + rest, i)
            <==> (x.Write? ==> i < |st.edges| && st.edges[i].Active()) && StaysActive(Next(st, x), rest, i)
  {
    hide Next, LostBy, Enabled;
    assert ([x] + rest)[1..] == rest;
  }

  /** One fold, with uses recorded before and after it writes the index. */
  function Interrupted(f: nat, max: nat, p: seq<Triple>, now: int, q: seq<Triple>): seq<Step> {
    [Begin(f, max)] + ([Step.Record(p)] + ([Write(f, now)] + ([Step.Record(q)] + ([Truncate] + []))))
  }

  /** What such a fold never counts: the log beyond the rows it reads, and both records. */
  function Unread(log: seq<Line>, max: nat, p: seq<Triple>, q: seq<Triple>, a: Edge): nat {
    Gain(log[|Take(log, max)|..], a) + Gain(Appended([], p), a) + Gain(Appended([], q), a)
  }

  lemma InterruptedRun(st: State, f: nat, max: nat, p: seq<Triple>, now: int, q: seq<Triple>, i: nat)
    requires Idle(st) && Used(Take(st.log, max)) && i < |st.edges| && st.edges[i].Active()
    ensures var steps := Interrupted(f, max, p, now, q);
      && Folds(st, steps, i) && NoReplay(steps)
      && Run(st, steps).log == []
      && Lost(st, steps, st.edges[i]) == Unread(st.log, max, p, q, st.edges[i])
  {
    hide Used, Gain, Folded, Appended;
    var a, lines := st.edges[i], Take(st.log, max);
    var s1 := Next(st, Begin(f, max));
    var s2 := Next(s1, Step.Record(p));
    var s3 := Next(s2, Write(f, now));
    var s4 := Next(s3, Step.Record(q));
    var s5 := Next(s4, Truncate);
    assert s2.read[f] == lines;
    assert s5.read == map[];
    FirstStep(s4, Truncate, [], a, i);
    FirstStep(s3, Step.Record(q), [Truncate] + [], a, i);
    FirstStep(s2, Write(f, now), [Step.Record(q)] + ([Truncate] + []), a, i);
    FirstStep(s1, Step.Record(p), [Write(f, now)] + ([Step.Record(q)] + ([Truncate] + [])), a, i);
    FirstStep(st, Begin(f, max), [Step.Record(p)] + ([Write(f, now)] + ([Step.Record(q)] + ([Truncate] + []))), a, i);
    FrontGain(lines, st.log, a);
    AppendedGain(st.log, p, a);
    AppendedGain(s2.log, q, a);
  }

  /** A fold that reads only `max` rows, or during which uses are recorded before or after the index
      write, keeps its promise to an edge exactly when none of what it leaves unread names the edge. */
  lemma InterruptedFoldKeepsIff(st: State, f: nat, max: nat, p: seq<Triple>, now: int, q: seq<Triple>, i: nat)
    requires Idle(st) && Used(Take(st.log, max)) && i < |st.edges| && st.edges[i].Active()
    ensures var steps := Interrupted(f, max, p, now, q);
      Folds(st, steps, i) && (Kept(st, steps, i) <==> Unread(st.log, max, p, q, st.edges[i]) == 0)
  {
    hide Used, Gain, Unread, Interrupted, Clean, Lost;
    InterruptedRun(st, f, max, p, now, q, i);
    AtLeastOnceIff(st, Interrupted(f, max, p, now, q), i);
    NothingLostIff(st, Interrupted(f, max, p, now, q), st.edges[i]);
  }

  /** A fold that finds no usable edge in what it reads discards the rest unread as well. */
  lemma DiscardKeepsIff(st: State, f: nat, max: nat, p: seq<Triple>, i: nat)
    requires Idle(st) && !Used(Take(st.log, max)) && i < |st.edges|
    ensures var steps := [Begin(f, max)] + ([Step.Record(p)] + ([Discard(f)] + []));
      Folds(st, steps, i) && (Kept(st, steps, i) <==> Unread(st.log, max, p, [], st.edges[i]) == 0)
  {
    hide Used, Gain, Folded;
    var a, lines := st.edges[i], Take(st.log, max);
    var steps := [Begin(f, max)] + ([Step.Record(p)] + ([Discard(f)] + []));
    var s1 := Next(st, Begin(f, max));
    var s2 := Next(s1, Step.Record(p));
    assert Next(s2, Discard(f)).read == map[];
    FirstStep(s2, Discard(f), [], a, i);
    FirstStep(s1, Step.Record(p), [Discard(f)] + [], a, i);
    FirstStep(st, Begin(f, max), [Step.Record(p)] + ([Discard(f)] + []), a, i);
    FrontGain(lines, st.log, a);
    UnusedHasNoGain(lines, a);
    AppendedGain(st.log, p, a);
    NoGain(a);
    AtLeastOnceIff(st, steps, i);
    NothingLostIff(st, steps, a);
  }

  /** Two folds that read the same log, one after the other under the lock. */
  function Overlapping(max: nat, t: int, u: int): seq<Step> {
    [Begin(0, max)] + ([Begin(1, max)] + ([Write(0, t)] + ([Truncate] + ([Write(1, u)] + ([Truncate] + [])))))
  }

  lemma OverlappingRun(st: State, max: nat, t: int, u: int, i: nat)
    requires Idle(st) && Used(Take(st.log, max)) && i < |st.edges| && st.edges[i].Active()
    ensures var steps, a := Overlapping(max, t, u), st.edges[i];
      && Possible(st, steps) && StaysActive(st, steps, i)
      && Run(st, steps).log == [] && Idle(Run(st, steps))
      && Lost(st, steps, a) == Gain(st.log, a) - 2 * Gain(Take(st.log, max), a)
  {
    hide Used, Gain, Folded;
    var a, lines := st.edges[i], Take(st.log, max);
    var s1 := Next(st, Begin(0, max));
    var s2 := Next(s1, Begin(1, max));
    var s3 := Next(s2, Write(0, t));
    var s4 := Next(s3, Truncate);
    var s5 := Next(s4, Write(1, u));
    assert s2.read[0] == s2.read[1] == lines && s4.read[1] == lines;
    FoldedStaysActive(s2.edges, lines, t, i);
    FirstStep(s5, Truncate, [], a, i);
    FirstStep(s4, Write(1, u), [Truncate] + [], a, i);
    FirstStep(s3, Truncate, [Write(1, u)] + ([Truncate] + []), a, i);
    FirstStep(s2, Write(0, t), [Truncate] + ([Write(1, u)] + ([Truncate] + [])), a, i);
    FirstStep(s1, Begin(1, max), [Write(0, t)] + ([Truncate] + ([Write(1, u)] + ([Truncate] + []))), a, i);
    var afterFirst := [Begin(1, max)] + ([Write(0, t)] + ([Truncate] + ([Write(1, u)] + ([Truncate] + []))));
    FirstStep(st, Begin(0, max), afterFirst, a, i);
    NoGain(a);
  }

  lemma OverlapOnlyFolds(max: nat, t: int, u: int)
    ensures forall step <- Overlapping(max, t, u) :: !step.CrashWritten? && !step.Record?
  {
  }

  /** Overlapping folds count every use they read twice, without any crash. */
  lemma OverlapCountsTwice(st: State, max: nat, t: int, u: int, i: nat)
    requires Idle(st) && Used(Take(st.log, max)) && i < |st.edges| && st.edges[i].Active()
    ensures var steps, a := Overlapping(max, t, u), st.edges[i];
      && Possible(st, steps) && NoReplay(steps) && Run(st, steps).log == []
      && i < |Run(st, steps).edges|
      && Run(st, steps).edges[i].count == a.count + 2 * Gain(Take(st.log, max), a)
  {
    hide Gain, Possible, Lost, StaysActive, Run, Recorded, Replayed, Overlapping, Used, Take;
    OverlapOnlyFolds(max, t, u);
    var steps, a := Overlapping(max, t, u), st.edges[i];
    OverlappingRun(st, max, t, u, i);
    Ledger(st, steps, i, a);
    NothingReplayed(st, steps, a);
    NothingRecorded(steps, a);
    NoGain(a);
  }

  lemma FoldedStaysActive(edges: seq<Edge>, lines: seq<Line>, now: int, i: nat)
    requires i < |edges|
    ensures Folded(edges, lines, now)[i].Active() == edges[i].Active()
  {
    hide Gain, Norm;
  }

  lemma {:induction false} NothingRecorded(steps: seq<Step>, a: Edge)
    requires forall step <- steps :: !step.Record?
    ensures Recorded(steps, a) == 0
  {
    if steps != [] {
      assert steps[0] in steps && forall step <- steps[1..] :: step in steps;
      NothingRecorded(steps[1..], a);
    }
  }

  /** A run that breaks the promise: one use logged, a second one recorded while the fold is under way. */
  lemma PromiseCanFail()
    ensures var pair := ("a", "b", "supports");
      var st := State([Edge("a", "b", "supports", "active", 0, None)], [[pair]], map[], None);
      var steps := Interrupted(0, 20000, [pair], 0, []);
      Folds(st, steps, 0) && !Kept(st, steps, 0)
  {
    hide Gain, Interrupted, Norm, Uses, Appended, Folds, Kept;
    var pair := ("a", "b", "supports");
    var e := Edge("a", "b", "supports", "active", 0, None);
    var st := State([e], [[pair]], map[], None);
    OneUse(pair, e);
    ActiveIsActive(e);
    assert Take(st.log, 20000) == [[pair]] && Used([[pair]]);
    InterruptedFoldKeepsIff(st, 0, 20000, [pair], 0, [], 0);
  }

  lemma OneUse(pair: Triple, e: Edge)
    requires pair == (e.source, e.target, e.relationship) && e.source != "" && e.target != ""
    ensures LineOf([pair]) == [pair] && Uses([[pair]], e.Key()) > 0 && Gain(Appended([], [pair]), e) > 0
  {
    hide Norm;
    assert [pair][..0] == [] && [pair][1..] == [] && [[pair]][..0] == [];
    assert Count([pair], Names(e.Key())) == 1;
    assert [] + [[pair]] == [[pair]];
  }

  lemma ActiveIsActive(e: Edge)
    requires e.status == "active"
    ensures e.Active()
  {
    assert Strip("active") == "active";
    assert Lower("active") == "active";
    assert |"active"| == 6 && |"retracted"| == 9 && |"superseded"| == 10 && |"inactive"| == 8;
  }
}
