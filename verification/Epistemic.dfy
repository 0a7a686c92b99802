/** The pressure a conflict between two claims of one slot has built up, before rounding. */
module Epistemic {
  import opened Options
  import opened Text

  /** What the score reads of a claim: `created` in seconds, if it parses; a chain position that is
      not a number counts as zero. */
  datatype Side = Side(scope: string, created: Option<real>, chainSeq: nat)

  function Clamp(x: real): (r: real)
    ensures 0.0 <= r <= 1.0
    ensures r == 1.0 <==> x >= 1.0
    ensures r == 0.0 <==> x <= 0.0
    ensures 0.0 <= x <= 1.0 ==> r == x
  {
    if x < 0.0 then 0.0 else if x > 1.0 then 1.0 else x
  }

  function AbsReal(x: real): real { if x < 0.0 then -x else x }

  function AbsInt(x: int): nat { if x < 0 then -x else x }

  function ComputeEpistemicConflictScore(chainSeqGap: int, timeDeltaDays: real): (score: real)
    ensures 0.0 <= score <= 1.0
    ensures score == 1.0 <==> timeDeltaDays >= 180.0 && AbsInt(chainSeqGap) >= 10
    ensures score == 0.0 <==> timeDeltaDays <= 0.0 && chainSeqGap == 0
  {
    var time := Clamp(timeDeltaDays / 180.0);
    var gap := AbsInt(chainSeqGap);
    var seq_ := if gap == 0 then 0.0 else Clamp(gap as real / 10.0);
    Clamp(0.6 * time + 0.4 * seq_)
  }

  function ConflictScoreForPair(a: Side, b: Side): real {
    if Strip(a.scope) != Strip(b.scope) then 0.0
    else
      var days := if a.created.Some?
          && b.created.Some? then AbsReal(b.created.value - a.created.value) / 86400.0 else 0.0;
      ComputeEpistemicConflictScore(AbsInt(b.chainSeq - a.chainSeq), days)
  }

  /** Bounded, blind to which claim comes first, and zero exactly for claims of different scopes
      or claims that neither time nor sequence sets apart. */
  lemma PairScoreLaws(a: Side, b: Side)
    ensures 0.0 <= ConflictScoreForPair(a, b) <= 1.0
    ensures ConflictScoreForPair(a, b) == ConflictScoreForPair(b, a)
    ensures ConflictScoreForPair(a, b) == 0.0 <==>
            || Strip(a.scope) != Strip(b.scope)
            || (a.chainSeq == b.chainSeq && (a.created.Some? && b.created.Some? ==> a.created == b.created))
  {
    hide Strip;
    if a.created.Some? && b.created.Some? {
      assert AbsReal(b.created.value - a.created.value) == AbsReal(a.created.value - b.created.value);
    }
  }
}
