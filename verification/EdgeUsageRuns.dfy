/** Runs of recording, folding and crashing: what is counted, what is still pending, and what a
    crash, a badly timed record or a second fold does to the total. */
module EdgeUsageRuns {
  import opened Options
  import opened Text
  import opened Sequences
  import opened Inference
  import opened EdgeUsage

  /** A fold reads the log outside the store lock, so several may have read it (`read`, by fold). It
      then takes the lock, writes the index and truncates; `written` is what the fold between those
      two steps had read. */
  datatype State = State(edges: seq<Edge>, log: seq<Line>, read: map<nat, seq<Line>>, written: Option<seq<Line>>)

  datatype Step =
    | Record(pairs: seq<Triple>)
    | Begin(fold: nat, max: nat)
    | Write(fold: nat, now: int)
    | Truncate
    | Discard(fold: nat)
    | Crash(fold: nat)
    | CrashWritten
    | Append(edge: Edge)
    | SetStatus(at: nat, status: string)

  /** A fold that read no usable edge discards the log at once, without the lock. */
  ghost predicate Enabled(st: State, step: Step) {
    match step
    case Begin(f, _) => f !in st.read
    case Write(f, _) => f in st.read && Used(st.read[f]) && st.written.None?
    case Truncate => st.written.Some?
    case Discard(f) => f in st.read && !Used(st.read[f])
    case Crash(f) => f in st.read
    case CrashWritten => st.written.Some?
    case SetStatus(i, _) => i < |st.edges|
    case _ => true
  }

  ghost function Next(st: State, step: Step): State
    requires Enabled(st, step)
  {
    match step
    case Record(pairs) => st.(log := Appended(st.log, pairs))
    case Begin(f, max) => st.(read := st.read[f := Take(st.log, max)])
    case Write(f, now) =>
      st.(edges := Folded(st.edges, st.read[f], now), read := st.read - {f}, written := Some(st.read[f]))
    case Truncate => st.(log := [], written := None)
    case Discard(f) => st.(log := [], read := st.read - {f})
    case Crash(f) => st.(read := st.read - {f})
    case CrashWritten => st.(written := None)
    case Append(e) => st.(edges := st.edges + [e])
    case SetStatus(i, s) => st.(edges := st.edges[i := st.edges[i].(status := s)])
  }

  ghost predicate Possible(st: State, steps: seq<Step>)
    decreases |steps|
  {
    steps == [] || (Enabled(st, steps[0]) && Possible(Next(st, steps[0]), steps[1..]))
  }

  ghost function Run(st: State, steps: seq<Step>): State
    requires Possible(st, steps)
    decreases |steps|
  {
    if steps == [] then st else Run(Next(st, steps[0]), steps[1..])
  }

  /** No fold under way. */
  ghost predicate Idle(st: State) {
    st.read == map[] && st.written.None?
  }

  /** Association i is active whenever a fold writes the index. */
  ghost predicate StaysActive(st: State, steps: seq<Step>, i: nat)
    requires Possible(st, steps)
    decreases |steps|
  {
    steps == [] ||
    (&& (steps[0].Write? ==> i < |st.edges| && st.edges[i].Active())
     && StaysActive(Next(st, steps[0]), steps[1..], i))
  }

  // ---------------------------------------------------------------- the ledger

  /** Uses that are already counted but still in the log. */
  ghost function InFlight(st: State, a: Edge): nat {
    if st.written.Some? then Gain(st.written.value, a) else 0
  }

  ghost function Recorded(steps: seq<Step>, a: Edge): nat {
    if steps == [] then 0
    else (if steps[0].Record? then Gain(Appended([], steps[0].pairs), a) else 0) + Recorded(steps[1..], a)
  }

  /** Uses a crash between the index write and the truncation leaves to be counted again. */
  ghost function Replayed(st: State, steps: seq<Step>, a: Edge): nat
    requires Possible(st, steps)
    decreases |steps|
  {
    if steps == [] then 0
    else (if steps[0].CrashWritten? then InFlight(st, a) else 0) + Replayed(Next(st, steps[0]), steps[1..], a)
  }

  /** What one step throws away beyond what its fold has counted. Negative when the fold counted
      uses that another had counted and truncated before. */
  ghost function LostBy(st: State, step: Step, a: Edge): int
    requires Enabled(st, step)
  {
    match step
    case Truncate => Gain(st.log, a) - Gain(st.written.value, a)
    case Discard(f) => Gain(st.log, a)
    case _ => 0
  }

  ghost function Lost(st: State, steps: seq<Step>, a: Edge): int
    requires Possible(st, steps)
    decreases |steps|
  {
    if steps == [] then 0 else LostBy(st, steps[0], a) + Lost(Next(st, steps[0]), steps[1..], a)
  }

  ghost function Total(st: State, i: nat, a: Edge): int
    requires i < |st.edges|
  {
    st.edges[i].count + Gain(st.log, a) - InFlight(st, a)
  }

  ghost predicate SameEnds(a: Edge, b: Edge) {
    a.source == b.source && a.target == b.target && a.relationship == b.relationship
  }

  lemma UnusedHasNoGain(log: seq<Line>, a: Edge)
    requires !Used(log)
    ensures Gain(log, a) == 0
  {
    assert Uses(log, a.Key()) == 0 && Uses(log, a.Mirror()) == 0;
  }

  lemma NoGain(a: Edge)
    ensures Gain([], a) == 0
  {
  }

  lemma AppendedGain(log: seq<Line>, pairs: seq<Triple>, a: Edge)
    ensures Gain(Appended(log, pairs), a) == Gain(log, a) + Gain(Appended([], pairs), a)
  {
    NoGain(a);
    if LineOf(pairs) != [] {
      assert [] + [LineOf(pairs)] == [LineOf(pairs)];
      GainConcat(log, [LineOf(pairs)], a);
    }
  }

  /** One step of the ledger. */
  lemma StepBalances(st: State, step: Step, i: nat, a: Edge)
    requires Enabled(st, step) && i < |st.edges| && SameEnds(a, st.edges[i])
    requires step.Write? ==> st.edges[i].Active()
    ensures var next := Next(st, step);
      && i < |next.edges| && SameEnds(a, next.edges[i])
      && Total(next, i, a) + LostBy(st, step, a)
         == Total(st, i, a) + (if step.Record? then Gain(Appended([], step.pairs), a) else 0)
            + if step.CrashWritten? then InFlight(st, a) else 0
  {
    hide Norm, Uses;
    match step
    case Record(pairs) => AppendedGain(st.log, pairs, a);
    case Write(f, now) => assert Gain(st.read[f], st.edges[i]) == Gain(st.read[f], a);
    case Truncate => NoGain(a);
    case Discard(f) => NoGain(a);
    case _ =>
  }

  /** Over every run, several folds at once included: what is counted and pending, corrected for uses
      in flight, is what there was at the start plus what was recorded plus what crashes replay, less
      what truncations lose. */
  lemma {:induction false} Ledger(st: State, steps: seq<Step>, i: nat, a: Edge)
    requires Possible(st, steps) && i < |st.edges| && SameEnds(a, st.edges[i]) && StaysActive(st, steps, i)
    ensures var end := Run(st, steps);
      && i < |end.edges| && SameEnds(a, end.edges[i])
      && Total(end, i, a) + Lost(st, steps, a) == Total(st, i, a) + Recorded(steps, a) + Replayed(st, steps, a)
    decreases |steps|
  {
    hide Gain, Next, Enabled, LostBy;
    if steps != [] {
      StepBalances(st, steps[0], i, a);
      Ledger(Next(st, steps[0]), steps[1..], i, a);
    }
  }

  // ---------------------------------------------------------------- one fold at a time

  /** No fold begins while another is under way. */
  ghost predicate OneAtATime(st: State, steps: seq<Step>)
    requires Possible(st, steps)
    decreases |steps|
  {
    steps == [] || ((steps[0].Begin? ==> Idle(st)) && OneAtATime(Next(st, steps[0]), steps[1..]))
  }

  /** Nothing that concerns the edge is thrown away unread: at every truncation, what follows the
      fold's reading in the log does not name it. */
  ghost predicate Clean(st: State, steps: seq<Step>, a: Edge)
    requires Possible(st, steps)
    decreases |steps|
  {
    steps == [] || (CleanStep(st, steps[0], a) && Clean(Next(st, steps[0]), steps[1..], a))
  }

  ghost predicate CleanStep(st: State, step: Step, a: Edge)
    requires Enabled(st, step)
  {
    match step
    case Truncate => |st.written.value| <= |st.log| && Gain(st.log[|st.written.value|..], a) == 0
    case Discard(f) => |st.read[f]| <= |st.log| && Gain(st.log[|st.read[f]|..], a) == 0
    case _ => true
  }

  /** What the fold under way has read is the front of the log. */
  ghost predicate Orderly(st: State) {
    && (forall f <- st.read :: st.read[f] <= st.log && st.written.None? && st.read.Keys == {f})
    && (st.written.Some? ==> st.written.value <= st.log)
  }

  lemma NextIsOrderly(st: State, step: Step)
    requires Orderly(st) && Enabled(st, step) && (step.Begin? ==> Idle(st))
    ensures Orderly(Next(st, step))
  {
    hide Used, Folded, LineOf;
  }

  lemma FrontGain(front: seq<Line>, log: seq<Line>, a: Edge)
    requires front <= log
    ensures Gain(log, a) == Gain(front, a) + Gain(log[|front|..], a)
  {
    assert log == front + log[|front|..];
    GainConcat(front, log[|front|..], a);
  }

  lemma LossOfStep(st: State, step: Step, a: Edge)
    requires Orderly(st) && Enabled(st, step)
    ensures LostBy(st, step, a) >= 0
    ensures LostBy(st, step, a) == 0 <==> CleanStep(st, step, a)
  {
    hide Gain;
    match step
    case Truncate => FrontGain(st.written.value, st.log, a);
    case Discard(f) =>
      FrontGain(st.read[f], st.log, a);
      UnusedHasNoGain(st.read[f], a);
    case _ =>
  }

  /** With one fold at a time a run never counts too much by overlap, and it loses nothing exactly
      when every truncation was clean. */
  lemma {:induction false} NothingLostIff(st: State, steps: seq<Step>, a: Edge)
    requires Possible(st, steps) && OneAtATime(st, steps) && Orderly(st)
    ensures Lost(st, steps, a) >= 0
    ensures Lost(st, steps, a) == 0 <==> Clean(st, steps, a)
    decreases |steps|
  {
    hide Next, Enabled, LostBy, CleanStep, Orderly;
    if steps != [] {
      LossOfStep(st, steps[0], a);
      NextIsOrderly(st, steps[0]);
      NothingLostIff(Next(st, steps[0]), steps[1..], a);
    }
  }

  /** No crash falls between an index write and its truncation. */
  ghost predicate NoReplay(steps: seq<Step>) {
    forall step <- steps :: !step.CrashWritten?
  }

  lemma {:induction false} NothingReplayed(st: State, steps: seq<Step>, a: Edge)
    requires Possible(st, steps) && NoReplay(steps)
    ensures Replayed(st, steps, a) == 0
    decreases |steps|
  {
    if steps != [] {
      assert steps[0] in steps && forall step <- steps[1..] :: step in steps;
      NothingReplayed(Next(st, steps[0]), steps[1..], a);
    }
  }

  /** Association i has counted or pending everything it started with or was given. */
  ghost predicate Kept(st: State, steps: seq<Step>, i: nat)
    requires Possible(st, steps) && i < |st.edges|
  {
    var end, a := Run(st, steps), st.edges[i];
    i < |end.edges| && end.edges[i].count + Gain(end.log, a) >= a.count + Gain(st.log, a) + Recorded(steps, a)
  }

  /** A run of whole folds, one at a time, in which association i stays active. */
  ghost predicate Folds(st: State, steps: seq<Step>, i: nat) {
    && Possible(st, steps) && i < |st.edges| && StaysActive(st, steps, i) && OneAtATime(st, steps)
    && Idle(st) && Idle(Run(st, steps))
  }

  /** At least once: when every truncation is clean, an association has counted or pending every use
      it started with or was given, and any excess is exactly what crashes replayed. */
  lemma AtLeastOnce(st: State, steps: seq<Step>, i: nat)
    requires Folds(st, steps, i) && Clean(st, steps, st.edges[i])
    ensures var end, a := Run(st, steps), st.edges[i];
      && i < |end.edges|
      && end.edges[i].count + Gain(end.log, a)
         == a.count + Gain(st.log, a) + Recorded(steps, a) + Replayed(st, steps, a)
    ensures Kept(st, steps, i)
  {
    hide Gain;
    Ledger(st, steps, i, st.edges[i]);
    NothingLostIff(st, steps, st.edges[i]);
  }

  /** And without a replay the promise holds only then: an unclean truncation loses uses for good. */
  lemma AtLeastOnceIff(st: State, steps: seq<Step>, i: nat)
    requires Folds(st, steps, i) && NoReplay(steps)
    ensures Kept(st, steps, i) <==> Clean(st, steps, st.edges[i])
  {
    hide Gain;
    Ledger(st, steps, i, st.edges[i]);
    NothingLostIff(st, steps, st.edges[i]);
    NothingReplayed(st, steps, st.edges[i]);
  }

  /** Exactly once, for an edge between different beads: its count grows by the recorded edges that
      match it in either orientation, less those still pending, if and only if no truncation was unclean. */
  lemma ExactlyOnce(st: State, steps: seq<Step>, i: nat)
    requires Folds(st, steps, i) && NoReplay(steps) && st.log == [] && st.edges[i].Proper()
    ensures var end, a := Run(st, steps), st.edges[i];
      && i < |end.edges|
      && (end.edges[i].count + MatchesIn(end.log, a) == a.count + MatchesIn(RecordedLog(steps), a)
          <==> Clean(st, steps, a))
  {
    hide Gain;
    var end, a := Run(st, steps), st.edges[i];
    Ledger(st, steps, i, a);
    NothingLostIff(st, steps, a);
    NothingReplayed(st, steps, a);
    RecordedIsLog(steps, a);
    GainCountsMatches(end.log, a);
    GainCountsMatches(RecordedLog(steps), a);
    NoGain(a);
  }

  /** Every line a run records. */
  ghost function RecordedLog(steps: seq<Step>): seq<Line> {
    if steps == [] then []
    else (if steps[0].Record? then Appended([], steps[0].pairs) else []) + RecordedLog(steps[1..])
  }

  lemma {:induction false} RecordedIsLog(steps: seq<Step>, a: Edge)
    ensures Recorded(steps, a) == Gain(RecordedLog(steps), a)
  {
    hide Gain, Appended;
    NoGain(a);
    if steps != [] {
      RecordedIsLog(steps[1..], a);
      GainConcat(if steps[0].Record? then Appended([], steps[0].pairs) else [], RecordedLog(steps[1..]), a);
    }
  }

  /** Truncations are clean when nothing is recorded while a fold is under way and the log never
      outgrows what a fold reads. */
  ghost predicate Careful(st: State, steps: seq<Step>)
    requires Possible(st, steps)
    decreases |steps|
  {
    steps == [] ||
    (&& (steps[0].Record? ==> Idle(st))
     && (steps[0].Begin? ==> Idle(st) && |st.log| <= steps[0].max)
     && Careful(Next(st, steps[0]), steps[1..]))
  }

  ghost predicate AllRead(st: State) {
    && (forall f <- st.read :: st.read[f] == st.log && st.written.None? && st.read.Keys == {f})
    && (st.written.Some? ==> st.written.value == st.log)
  }

  lemma NextIsAllRead(st: State, step: Step)
    requires AllRead(st) && Enabled(st, step)
    requires step.Record? ==> Idle(st)
    requires step.Begin? ==> Idle(st) && |st.log| <= step.max
    ensures AllRead(Next(st, step))
  {
    hide Used, Folded, LineOf;
  }

  lemma {:induction false} CarefulIsClean(st: State, steps: seq<Step>, a: Edge)
    requires Possible(st, steps) && Careful(st, steps) && AllRead(st)
    ensures OneAtATime(st, steps) && Clean(st, steps, a)
    decreases |steps|
  {
    hide Next, Enabled, AllRead;
    if steps != [] {
      NextIsAllRead(st, steps[0]);
      CleanWhenAllRead(st, steps[0], a);
      CarefulIsClean(Next(st, steps[0]), steps[1..], a);
    }
  }

  lemma CleanWhenAllRead(st: State, step: Step, a: Edge)
    requires AllRead(st) && Enabled(st, step)
    ensures CleanStep(st, step, a)
  {
    NoGain(a);
    assert st.log[|st.log|..] == [];
  }
}
