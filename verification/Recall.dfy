/** Evidence recall: the ranked dia ids the runner extracts, and what is scored on them. */
module Recall {
  import opened Text
  import opened Sequences

  /** The dia ids of the ranked beads that have one, repeats included. */
  function Mapped(beads: seq<string>, table: map<string, string>): seq<string> {
    if beads == [] then []
    else
      var before, bead := Mapped(beads[..|beads| - 1], table), Strip(beads[|beads| - 1]);
      if bead != "" && bead in table then before + [table[bead]] else before
  }

  method ExtractDiaIds(beads: seq<string>, table: map<string, string>) returns (out: seq<string>)
    ensures out == Dedup(Mapped(beads, table))
  {
    hide Strip;
    out := [];
    var i := 0;
    while i < |beads|
      invariant 0 <= i <= |beads| && out == Dedup(Mapped(beads[..i], table))
    {
      assert beads[..i + 1][..i] == beads[..i];
      var bead := Strip(beads[i]);
      if bead != "" && bead in table {
        var dia := table[bead];
        ghost var before := Mapped(beads[..i], table);
        assert (before + [dia])[..|before|] == before;
        if dia !in out { out := out + [dia]; }
      }
      i := i + 1;
    }
    assert beads[..|beads|] == beads;
  }

  // ---------------------------------------------------------------- recall and rank

  function Elements(xs: seq<string>): set<string> {
    set x | x in xs
  }

  function GoldSet(gold: seq<string>): set<string> {
    Elements(StripAll(Filter(gold, NotBlank)))
  }

  function InGold(gold: set<string>): string -> bool {
    (d: string) => d in gold
  }

  function Top(ranked: seq<string>, k: int): seq<string> {
    Take(ranked, if k < 0 then 0 else k)
  }

  /** Gold ids among the first k, counted with repeats. */
  function Hits(ranked: seq<string>, gold: set<string>, k: int): nat {
    Count(Top(ranked, k), InGold(gold))
  }

  function RecallAt(ranked: seq<string>, gold: set<string>, k: int): real
    requires gold != {}
  {
    Hits(ranked, gold, k) as real / |gold| as real
  }

  /** The position of the first gold id, or |ranked|. */
  function FirstHit(ranked: seq<string>, gold: set<string>): (i: nat)
    ensures i <= |ranked|
    ensures i < |ranked| ==> ranked[i] in gold
    ensures forall j :: 0 <= j < i ==> ranked[j] !in gold
  {
    if ranked == [] || ranked[0] in gold then 0 else 1 + FirstHit(ranked[1..], gold)
  }

  function ReciprocalRank(ranked: seq<string>, gold: set<string>): real {
    if FirstHit(ranked, gold) == |ranked| then 0.0 else 1.0 / (FirstHit(ranked, gold) + 1) as real
  }

  lemma HitsUpTo(ranked: seq<string>, gold: set<string>, j: nat, k: nat)
    requires j <= k
    ensures Hits(ranked, gold, j) <= Hits(ranked, gold, k)
  {
    var a, b := Take(ranked, j), Take(ranked, k);
    assert b == a + b[|a|..];
    CountConcat(a, b[|a|..], InGold(gold));
  }

  /** Recall at k never falls as k grows. */
  lemma RecallIsMonotone(ranked: seq<string>, gold: set<string>, j: int, k: int)
    requires gold != {} && j <= k
    ensures RecallAt(ranked, gold, j) <= RecallAt(ranked, gold, k)
  {
    HitsUpTo(ranked, gold, if j < 0 then 0 else j, if k < 0 then 0 else k);
    hide Hits;
    SharesGrow(Hits(ranked, gold, j), Hits(ranked, gold, k), |gold|);
  }

  lemma SharesGrow(a: nat, b: nat, n: nat)
    requires a <= b && n > 0
    ensures a as real / n as real <= b as real / n as real
  {
  }

  lemma {:induction false} DistinctHits(xs: seq<string>, gold: set<string>)
    requires NoDuplicates(xs)
    ensures Count(xs, InGold(gold)) == |gold * Elements(xs)|
  {
    if xs == [] {
      assert gold * Elements(xs) == {};
    } else {
      DistinctHits(xs[1..], gold);
      assert xs[0] !in xs[1..];
      assert gold * Elements(xs) == gold * Elements(xs[1..]) + if xs[0] in gold then {xs[0]} else {};
    }
  }

  lemma HitsBounded(ranked: seq<string>, gold: set<string>, k: int)
    requires NoDuplicates(ranked)
    ensures Hits(ranked, gold, k) <= |gold|
    ensures Hits(ranked, gold, k) == |gold| <==> forall d <- gold :: d in Top(ranked, k)
  {
    var found := gold * Elements(Top(ranked, k));
    DistinctHits(Top(ranked, k), gold);
    Subset(found, gold);
    assert found == gold <==> forall d <- gold :: d in Top(ranked, k);
  }

  lemma Ratio(a: nat, b: nat)
    requires a <= b && 0 < b
    ensures 0.0 <= a as real / b as real <= 1.0
    ensures a as real / b as real == 1.0 <==> a == b
  {
  }

  /** Without repeats recall is at most 1, and 1 exactly when every gold id is among the first k. */
  lemma RecallAtMostOne(ranked: seq<string>, gold: set<string>, k: int)
    requires gold != {} && NoDuplicates(ranked)
    ensures 0.0 <= RecallAt(ranked, gold, k) <= 1.0
    ensures RecallAt(ranked, gold, k) == 1.0 <==> forall d <- gold :: d in Top(ranked, k)
  {
    hide Hits;
    HitsBounded(ranked, gold, k);
    Ratio(Hits(ranked, gold, k), |gold|);
  }

  lemma Subset(a: set<string>, b: set<string>)
    requires a <= b
    ensures |a| <= |b| && (|a| == |b| ==> a == b)
  {
    assert b == a + (b - a);
  }

  /** With repeats it can exceed 1. */
  lemma RepeatsOvercount(d: string)
    ensures RecallAt([d, d], {d}, 2) == 2.0
  {
    assert Top([d, d], 2) == [d, d] && [d, d][1..] == [d];
    assert Count([d], InGold({d})) == 1;
    assert Hits([d, d], {d}, 2) == 2 && |{d}| == 1;
  }

  /** Recall of the list stays at most 1 for every gold set, at every k. */
  ghost predicate NeverExceedsOne(ranked: seq<string>) {
    forall gold: set<string>, k: int :: gold != {} ==> RecallAt(ranked, gold, k) <= 1.0
  }

  lemma RepeatCountsTwice(ranked: seq<string>, i: nat, j: nat)
    requires i < j < |ranked| && ranked[i] == ranked[j]
    ensures Hits(ranked, {ranked[i]}, |ranked|) >= 2
  {
    var d, p := ranked[i], InGold({ranked[i]});
    var front, middle, back := ranked[..i], ranked[i + 1..j], ranked[j + 1..];
    assert ranked == front + ([d] + (middle + ([d] + back)));
    CountConcat(front, [d] + (middle + ([d] + back)), p);
    CountConcat([d], middle + ([d] + back), p);
    CountConcat(middle, [d] + back, p);
    CountConcat([d], back, p);
    LastIsHit(d, {d});
    assert Top(ranked, |ranked|) == ranked;
  }

  /** Recall never exceeds 1 exactly when the ranked list has no repeats. */
  lemma RecallBoundedIff(ranked: seq<string>)
    ensures NeverExceedsOne(ranked) <==> NoDuplicates(ranked)
  {
    if NoDuplicates(ranked) {
      forall gold: set<string>, k: int | gold != {}
        ensures RecallAt(ranked, gold, k) <= 1.0
      {
        RecallAtMostOne(ranked, gold, k);
      }
    } else {
      var i, j :| 0 <= i < j < |ranked| && ranked[i] == ranked[j];
      RepeatCountsTwice(ranked, i, j);
      var gold := {ranked[i]};
      assert |gold| == 1;
      assert RecallAt(ranked, gold, |ranked|) == Hits(ranked, gold, |ranked|) as real;
    }
  }

  /** No two different dia ids of the list strip alike. */
  ghost predicate StripApart(ids: seq<string>) {
    forall d <- ids, e <- ids :: Strip(d) == Strip(e) ==> d == e
  }

  lemma StripAllDistinctIff(ids: seq<string>)
    requires NoDuplicates(ids)
    ensures NoDuplicates(StripAll(ids)) <==> StripApart(ids)
  {
    hide Strip;
    if !NoDuplicates(StripAll(ids)) {
      var i, j :| 0 <= i < j < |ids| && StripAll(ids)[i] == StripAll(ids)[j];
      assert ids[i] in ids && ids[j] in ids;
    } else {
      forall d, e | d in ids && e in ids && Strip(d) == Strip(e)
        ensures d == e
      {
        var i :| 0 <= i < |ids| && ids[i] == d;
        var j :| 0 <= j < |ids| && ids[j] == e;
        assert StripAll(ids)[i] == StripAll(ids)[j];
      }
    }
  }

  /** On what the runner extracts, recall never exceeds 1 exactly when no two different dia ids of
      the ranked beads strip alike: the runner tells ids apart unstripped, the scorer stripped. */
  lemma ExtractedRecallBoundedIff(beads: seq<string>, table: map<string, string>)
    ensures NeverExceedsOne(StripAll(Dedup(Mapped(beads, table)))) <==> StripApart(Mapped(beads, table))
  {
    hide NeverExceedsOne, Strip;
    var ids := Mapped(beads, table);
    RecallBoundedIff(StripAll(Dedup(ids)));
    StripAllDistinctIff(Dedup(ids));
  }

  lemma {:induction false} MappedFrom(beads: seq<string>, table: map<string, string>)
    ensures forall d <- Mapped(beads, table) :: d in table.Values
  {
    hide Strip;
    if beads != [] { MappedFrom(beads[..|beads| - 1], table); }
  }

  /** A table of stripped ids, as the benchmark's loader builds it, is safe. */
  lemma ExtractedHasNoRepeats(beads: seq<string>, table: map<string, string>)
    requires forall d <- table.Values :: Stripped(d)
    ensures StripApart(Mapped(beads, table)) && NeverExceedsOne(StripAll(Dedup(Mapped(beads, table))))
  {
    hide NeverExceedsOne;
    MappedFrom(beads, table);
    ExtractedRecallBoundedIff(beads, table);
  }

  lemma TwoSpellings()
    ensures Strip("a") == "a" && Strip("b") == "b" && Strip("D1") == "D1" && Strip("D1 ") == "D1"
  {
  }

  lemma MappedSpellings(table: map<string, string>)
    requires table == map["a" := "D1", "b" := "D1 "]
    ensures Mapped(["a", "b"], table) == ["D1", "D1 "]
  {
    hide Strip;
    TwoSpellings();
    assert ["a", "b"][..1] == ["a"] && ["a"][..0] == [];
    assert Mapped(["a"], table) == ["D1"];
  }

  /** Otherwise one id in two spellings is counted twice. */
  lemma UnstrippedTableOvercounts()
    ensures var table := map["a" := "D1", "b" := "D1 "];
      var ranked := StripAll(Dedup(Mapped(["a", "b"], table)));
      RecallAt(ranked, {"D1"}, 2) == 2.0
  {
    hide Strip, RecallAt, Mapped, Dedup;
    TwoSpellings();
    MappedSpellings(map["a" := "D1", "b" := "D1 "]);
    assert |"D1"| != |"D1 "|;
    DedupOfDistinct(["D1", "D1 "]);
    RepeatsOvercount("D1");
    assert StripAll(["D1", "D1 "]) == ["D1", "D1"];
  }

  /** The reciprocal of the first gold rank; positive exactly when something was hit. */
  lemma ReciprocalRankLaws(ranked: seq<string>, gold: set<string>)
    ensures forall i :: 0 <= i < |ranked| && ranked[i] in gold && (forall j :: 0 <= j < i ==> ranked[j] !in gold) ==>
              ReciprocalRank(ranked, gold) == 1.0 / (i + 1) as real
    ensures 0.0 <= ReciprocalRank(ranked, gold) <= 1.0
    ensures ReciprocalRank(ranked, gold) > 0.0 <==> exists d <- ranked :: d in gold
    ensures forall i :: 0 <= i < |ranked| && ranked[i] in gold ==>
              ReciprocalRank(ranked, gold) >= 1.0 / (i + 1) as real
  {
    var f := FirstHit(ranked, gold);
    if f < |ranked| {
      assert ranked[f] in ranked;
      forall i | 0 <= i < |ranked| && ranked[i] in gold
        ensures 1.0 / (f + 1) as real >= 1.0 / (i + 1) as real
      {
        Reciprocals(f + 1, i + 1);
      }
      Reciprocals(1, f + 1);
    }
  }

  lemma Reciprocals(a: nat, b: nat)
    requires 1 <= a <= b
    ensures 1.0 / a as real >= 1.0 / b as real > 0.0
  {
  }

  // ---------------------------------------------------------------- the scorer

  /** The ranks of gold ids, in order. */
  function HitRanks(ranked: seq<string>, gold: set<string>): (r: seq<int>)
    ensures forall i, j :: 0 <= i < j < |r| ==> r[i] < r[j]
    ensures forall x <- r :: 1 <= x <= |ranked| && ranked[x - 1] in gold
    ensures forall i :: 0 <= i < |ranked| && ranked[i] in gold ==> i + 1 in r
  {
    if ranked == [] then []
    else
      var n := |ranked|;
      var before := HitRanks(ranked[..n - 1], gold);
      assert forall i :: 0 <= i < |before| ==> before[i] in before;
      if ranked[n - 1] in gold then before + [n] else before
  }

  function AtMost(k: int): int -> bool { (r: int) => r <= k }

  lemma {:induction false} RanksCountHits(ranked: seq<string>, gold: set<string>, k: int)
    ensures Count(HitRanks(ranked, gold), AtMost(k)) == Hits(ranked, gold, k)
  {
    hide InGold;
    if ranked != [] {
      var init, last := ranked[..|ranked| - 1], ranked[|ranked| - 1];
      RanksCountHits(init, gold, k);
      CountConcat(HitRanks(init, gold), [|ranked|], AtMost(k));
      if k >= |ranked| {
        assert Top(init, k) == init && Top(ranked, k) == init + [last];
        CountConcat(init, [last], InGold(gold));
        LastIsHit(last, gold);
      } else {
        assert Top(ranked, k) == Top(init, k);
      }
    }
  }

  lemma LastIsHit(d: string, gold: set<string>)
    ensures Count([d], InGold(gold)) == if d in gold then 1 else 0
  {
  }

  lemma FirstRank(ranked: seq<string>, gold: set<string>)
    ensures HitRanks(ranked, gold) == [] <==> FirstHit(ranked, gold) == |ranked|
    ensures HitRanks(ranked, gold) != [] ==> HitRanks(ranked, gold)[0] == FirstHit(ranked, gold) + 1
  {
  }

  function Min(xs: seq<int>): (m: int)
    requires xs != []
    ensures m in xs && forall x <- xs :: m <= x
  {
    if |xs| == 1 then xs[0]
    else
      var m := Min(xs[1..]);
      assert forall x <- xs :: x == xs[0] || x in xs[1..];
      if xs[0] <= m then xs[0] else m
  }

  /** Recall at each k, reciprocal rank, and whether anything was hit; with no gold evidence all
      of them are vacuously perfect. */
  method ComputeEvidenceRecall(gold: seq<string>, retrieved: seq<string>, ks: seq<int>)
    returns (vacuous: bool, recalls: seq<real>, mrr: real, hitAny: bool)
    ensures vacuous <==> GoldSet(gold) == {}
    ensures |recalls| == |ks|
    ensures vacuous ==> mrr == 1.0 && hitAny && forall i :: 0 <= i < |ks| ==> recalls[i] == 1.0
    ensures !vacuous ==> forall i :: 0 <= i < |ks| ==> recalls[i] == RecallAt(StripAll(retrieved), GoldSet(gold), ks[i])
    ensures !vacuous ==> mrr == ReciprocalRank(StripAll(retrieved), GoldSet(gold))
    ensures !vacuous ==> (hitAny <==> exists d <- StripAll(retrieved) :: d in GoldSet(gold))
  {
    hide Strip, NotBlank, Filter, HitRanks, RecallAt, ReciprocalRank;
    var goldSet := GoldSet(gold);
    if goldSet == {} {
      return true, seq(|ks|, _ => 1.0), 1.0, true;
    }
    var ranked := StripAll(retrieved);
    var ranks := CollectRanks(ranked, goldSet);
    vacuous := false;
    recalls := RecallsAt(ranked, goldSet, ranks, ks);
    mrr := BestRank(ranked, goldSet, ranks);
    hitAny := ranks != [];
    FirstRank(ranked, goldSet);
    ReciprocalRankLaws(ranked, goldSet);
  }

  method RecallsAt(ranked: seq<string>, gold: set<string>, ranks: seq<int>, ks: seq<int>) returns (recalls: seq<real>)
    requires ranks == HitRanks(ranked, gold) && gold != {}
    ensures |recalls| == |ks| && forall i :: 0 <= i < |ks| ==> recalls[i] == RecallAt(ranked, gold, ks[i])
  {
    hide HitRanks, Hits, Count;
    recalls := [];
    var i := 0;
    while i < |ks|
      invariant 0 <= i == |recalls| <= |ks|
      invariant forall j :: 0 <= j < i ==> recalls[j] == RecallAt(ranked, gold, ks[j])
    {
      RanksCountHits(ranked, gold, ks[i]);
      recalls := recalls + [Count(ranks, AtMost(ks[i])) as real / |gold| as real];
      i := i + 1;
    }
  }

  method BestRank(ranked: seq<string>, gold: set<string>, ranks: seq<int>) returns (mrr: real)
    requires ranks == HitRanks(ranked, gold)
    ensures mrr == ReciprocalRank(ranked, gold)
  {
    FirstRank(ranked, gold);
    hide HitRanks;
    mrr := 0.0;
    if ranks != [] {
      assert Min(ranks) == ranks[0];
      mrr := 1.0 / Min(ranks) as real;
    }
  }

  method CollectRanks(ranked: seq<string>, gold: set<string>) returns (ranks: seq<int>)
    ensures ranks == HitRanks(ranked, gold)
  {
    ranks := [];
    var rank := 0;
    while rank < |ranked|
      invariant 0 <= rank <= |ranked| && ranks == HitRanks(ranked[..rank], gold)
    {
      assert ranked[..rank + 1][..rank] == ranked[..rank];
      rank := rank + 1;
      if ranked[rank - 1] in gold {
        ranks := ranks + [rank];
      }
    }
    assert ranked[..|ranked|] == ranked;
  }
}
