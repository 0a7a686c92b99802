/** Answer and evidence scores of the LoCoMo benchmark, before rounding: token F1 over multisets,
    recall at k and reciprocal rank over a ranked list. */
module Scoring {
  import opened Text
  import opened Sequences

  // ---------------------------------------------------------------- token F1

  function Overlap(a: seq<string>, b: seq<string>): nat {
    |multiset(a) * multiset(b)|
  }

  /** F1 of two token lists of m and n tokens that share `same`. */
  function F1Of(same: nat, m: nat, n: nat): real {
    if m == 0 && n == 0 then 1.0
    else if m == 0 || n == 0 || same == 0 then 0.0
    else
      var precision := same as real / m as real;
      var recall := same as real / n as real;
      assert precision + recall > 0.0;
      2.0 * precision * recall / (precision + recall)
  }

  function TokenF1(pred: seq<string>, gold: seq<string>): real {
    F1Of(Overlap(pred, gold), |pred|, |gold|)
  }

  lemma OverlapBounds(a: seq<string>, b: seq<string>)
    ensures Overlap(a, b) == Overlap(b, a)
    ensures Overlap(a, b) <= |a| && Overlap(a, b) <= |b|
    ensures Overlap(a, b) == |a| == |b| <==> multiset(a) == multiset(b)
  {
    var x, y := multiset(a), multiset(b);
    assert x * y == y * x;
    assert x == (x * y) + (x - y);
    assert y == (x * y) + (y - x);
    if Overlap(a, b) == |a| == |b| {
      assert |x - y| == 0 && |y - x| == 0;
      assert x - y == multiset{} && y - x == multiset{};
    }
    if x == y { assert x * y == x; }
  }

  lemma HarmonicMean(c: real, m: real, n: real)
    requires c > 0.0 && m > 0.0 && n > 0.0
    ensures c / m + c / n > 0.0
    ensures 2.0 * (c / m) * (c / n) / (c / m + c / n) == 2.0 * c / (m + n)
  {
  }

  lemma F1Closed(pred: seq<string>, gold: seq<string>)
    requires Overlap(pred, gold) > 0
    ensures TokenF1(pred, gold) == 2.0 * Overlap(pred, gold) as real / (|pred| + |gold|) as real
  {
    hide Overlap;
    OverlapBounds(pred, gold);
    HarmonicMean(Overlap(pred, gold) as real, |pred| as real, |gold| as real);
  }

  /** F1 is blind to order and to which side is gold, lies in [0, 1], and is 1 exactly for equal
      token multisets and 0 exactly for disjoint ones, not both empty. */
  lemma F1Laws(pred: seq<string>, gold: seq<string>)
    ensures TokenF1(pred, gold) == TokenF1(gold, pred)
    ensures 0.0 <= TokenF1(pred, gold) <= 1.0
    ensures TokenF1(pred, gold) == 1.0 <==> multiset(pred) == multiset(gold)
    ensures TokenF1(pred, gold) == 0.0 <==> Overlap(pred, gold) == 0 && (pred != [] || gold != [])
  {
    OverlapBounds(pred, gold);
    var c, total := Overlap(pred, gold), |pred| + |gold|;
    if c > 0 {
      F1Closed(pred, gold);
      F1Closed(gold, pred);
      RatioLaws(2 * c, total);
    } else if multiset(pred) == multiset(gold) {
      assert |pred| == 0 && |gold| == 0;
    }
  }

  lemma RatioLaws(a: nat, b: nat)
    requires 0 < a <= b
    ensures 0.0 < a as real / b as real <= 1.0
    ensures a as real / b as real == 1.0 <==> a == b
  {
  }

  lemma F1IgnoresOrder(pred: seq<string>, pred': seq<string>, gold: seq<string>, gold': seq<string>)
    requires multiset(pred) == multiset(pred') && multiset(gold) == multiset(gold')
    ensures TokenF1(pred, gold) == TokenF1(pred', gold')
  {
    hide F1Of;
    assert |multiset(pred)| == |pred| && |multiset(pred')| == |pred'|;
    assert |multiset(gold)| == |gold| && |multiset(gold')| == |gold'|;
  }

  // ---------------------------------------------------------------- answers by category

  /** The parts of s between separators. */
  function Split(s: string, separator: char): (r: seq<string>)
    ensures |r| >= 1
  {
    if s == "" then [""]
    else
      var rest := Split(s[1..], separator);
      if s[0] == separator then [""] + rest else [[s[0]] + rest[0]] + rest[1..]
  }

  function SubAnswers(answer: string): seq<string> {
    StripAll(Filter(Split(answer, ','), NotBlank))
  }

  function Best(tokens: string -> seq<string>, prediction: string, subs: seq<string>): (r: real)
    requires subs != []
    ensures forall s <- subs :: TokenF1(tokens(prediction), tokens(s)) <= r
    ensures exists s <- subs :: TokenF1(tokens(prediction), tokens(s)) == r
  {
    var last := TokenF1(tokens(prediction), tokens(subs[|subs| - 1]));
    assert subs == subs[..|subs| - 1] + [subs[|subs| - 1]];
    if |subs| == 1 then last
    else
      var before := Best(tokens, prediction, subs[..|subs| - 1]);
      if before < last then last else before
  }

  /** `tokens` stands for the text normalisation. */
  function MultihopF1(tokens: string -> seq<string>, prediction: string, answer: string): real {
    var subs := SubAnswers(answer);
    if subs == [] then TokenF1(tokens(prediction), tokens(answer)) else Best(tokens, prediction, subs)
  }

  function ScoreAnswer(tokens: string -> seq<string>, category: nat, prediction: string, answer: string): real {
    if category == 1 then MultihopF1(tokens, prediction, answer)
    else if category == 3 then TokenF1(tokens(prediction), tokens(Strip(Split(answer, ';')[0])))
    else if category == 5 then 1.0
    else TokenF1(tokens(prediction), tokens(answer))
  }

  /** Every score is in [0, 1]; a multi-hop answer is right exactly when it matches some part. */
  lemma ScoresBounded(tokens: string -> seq<string>, category: nat, prediction: string, answer: string)
    ensures 0.0 <= ScoreAnswer(tokens, category, prediction, answer) <= 1.0
    ensures SubAnswers(answer) != [] ==>
              (MultihopF1(tokens, prediction, answer) == 1.0 <==>
               exists s <- SubAnswers(answer) :: multiset(tokens(prediction)) == multiset(tokens(s)))
  {
    hide TokenF1, SubAnswers, Split;
    forall s { F1Laws(tokens(prediction), tokens(s)); }
    if SubAnswers(answer) != [] {
      var r := Best(tokens, prediction, SubAnswers(answer));
      assert exists s <- SubAnswers(answer) :: TokenF1(tokens(prediction), tokens(s)) == r;
    }
  }
}
