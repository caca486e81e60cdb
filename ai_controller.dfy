/**
 * The performance figures `getRecommendation` hands to the recommendation
 * service (server/src/controllers/aiController.ts, lines 10-44).
 */
module AiController {
  import opened Common
  import opened Types
  import UserController

  /** What is sent along with the attempts: the overall mean and a mean per category name. */
  datatype Metrics = Metrics(averageScore: real, categoryScores: map<string, real>)

  /** The running `categoryScores[name]` and `categoryCount[name]` of one category name. */
  datatype Running = Running(sum: real, count: nat)

  /**
   * `!categoryScores[name]`: a missing entry (undefined) and a sum of 0 are
   * both falsy, so both restart the entry.
   */
  predicate Falsy(entry: Option<real>) {
    entry.None? || entry.value == 0.0
  }

  /** The running entry after the percentages `ps` of one name, in attempt order. */
  function Run(ps: seq<real>): (r: Running)
    ensures ps != [] ==> r.count >= 1
  {
    if ps == [] then Running(0.0, 0)
    else
      var r0 := Run(ps[..|ps| - 1]);
      var p := ps[|ps| - 1];
      if r0.sum == 0.0 then Running(p, 1) else Running(r0.sum + p, r0.count + 1)
  }

  /** The percentages of the attempts in categories named `name`, in order. */
  function PctsOf(s: seq<AttemptWithCategory>, name: string): (ps: seq<real>)
    ensures ps == [] <==> name !in Names(s)
  {
    if s == [] then []
    else PctsOf(s[..|s| - 1], name) + (if s[|s| - 1].category.name == name then [s[|s| - 1].attempt.percentage] else [])
  }

  /** The category names that occur: the keys of `categoryScores`. */
  function Names(s: seq<AttemptWithCategory>): set<string> {
    if s == [] then {} else Names(s[..|s| - 1]) + {s[|s| - 1].category.name}
  }

  /** A name is a key exactly when some attempt's category carries it. */
  lemma {:induction false} NamesAreTheCategoryNames(s: seq<AttemptWithCategory>, name: string)
    ensures name in Names(s) <==> exists i :: 0 <= i < |s| && s[i].category.name == name
  {
    if s != [] {
      var init := s[..|s| - 1];
      NamesAreTheCategoryNames(init, name);
      assert forall i :: 0 <= i < |init| ==> init[i] == s[i];
    }
  }

  /** The value the second pass leaves for a name: its running sum over its running count. */
  function MeanOf(r: Running): real
    requires r.count > 0
  {
    r.sum / r.count as real
  }

  lemma {:induction false} NamesSnoc(s: seq<AttemptWithCategory>, x: AttemptWithCategory)
    ensures Names(s + [x]) == Names(s) + {x.category.name}
  {
    assert (s + [x])[..|s|] == s;
  }

  lemma {:induction false} PctsSnoc(s: seq<AttemptWithCategory>, x: AttemptWithCategory, n: string)
    ensures PctsOf(s + [x], n) == PctsOf(s, n) + (if x.category.name == n then [x.attempt.percentage] else [])
  {
    assert (s + [x])[..|s|] == s;
  }

  /** `categoryScores` and `categoryCount` hold the running entries of the attempts `s`. */
  ghost predicate Sums(categoryScores: map<string, real>, categoryCount: map<string, nat>, s: seq<AttemptWithCategory>) {
    categoryScores.Keys == Names(s) && categoryCount.Keys == Names(s) &&
    forall n :: n in categoryScores ==> Running(categoryScores[n], categoryCount[n]) == Run(PctsOf(s, n))
  }

  /** The entry of name `n` after adding percentage `p`: restarted when falsy, else accumulated. */
  function Added(categoryScores: map<string, real>, categoryCount: map<string, nat>, n: string, p: real): Running {
    if Falsy(if n in categoryScores then Some(categoryScores[n]) else None) then Running(0.0 + p, 0 + 1)
    else Running(categoryScores[n] + p, (if n in categoryCount then categoryCount[n] else 0) + 1)
  }

  /** `categoryScores` after one iteration of the first `forEach` over attempt `x`. */
  function ScoresAfter(sc: map<string, real>, ct: map<string, nat>, x: AttemptWithCategory): map<string, real> {
    sc[x.category.name := Added(sc, ct, x.category.name, x.attempt.percentage).sum]
  }

  /** `categoryCount` after one iteration of the first `forEach` over attempt `x`. */
  function CountsAfter(sc: map<string, real>, ct: map<string, nat>, x: AttemptWithCategory): map<string, nat> {
    ct[x.category.name := Added(sc, ct, x.category.name, x.attempt.percentage).count]
  }

  /** One iteration of the first `forEach` keeps `Sums`: only the last attempt's own name changes. */
  lemma SumsStep(sc: map<string, real>, ct: map<string, nat>, s: seq<AttemptWithCategory>)
    requires s != [] && Sums(sc, ct, s[..|s| - 1])
    ensures Sums(ScoresAfter(sc, ct, s[|s| - 1]), CountsAfter(sc, ct, s[|s| - 1]), s)
  {
    var p, x := s[..|s| - 1], s[|s| - 1];
    SplitLast(s);
    var sc', ct' := ScoresAfter(sc, ct, x), CountsAfter(sc, ct, x);
    assert sc'.Keys == Names(s) && ct'.Keys == Names(s) by {
      NamesSnoc(p, x);
    }
    forall k | k in sc' ensures Running(sc'[k], ct'[k]) == Run(PctsOf(s, k)) {
      if k == x.category.name {
        SumsStepOwn(sc, ct, p, x);
      } else {
        SumsStepOther(sc, ct, p, x, k);
      }
    }
  }

  /** Both maps after the first `forEach` has run over `s`. */
  function Accumulate(s: seq<AttemptWithCategory>): (map<string, real>, map<string, nat>)
  {
    if s == [] then (map[], map[])
    else
      var acc := Accumulate(s[..|s| - 1]);
      (ScoresAfter(acc.0, acc.1, s[|s| - 1]), CountsAfter(acc.0, acc.1, s[|s| - 1]))
  }

  /** The maps the first `forEach` builds hold the running sums and counts of every name. */
  lemma {:induction false} AccumulateSums(s: seq<AttemptWithCategory>)
    ensures Sums(Accumulate(s).0, Accumulate(s).1, s)
  {
    if s != [] {
      var p := s[..|s| - 1];
      AccumulateSums(p);
      SumsStep(Accumulate(p).0, Accumulate(p).1, s);
    }
  }

  /** The attempt's own name: its running entry takes one more percentage. */
  lemma SumsStepOwn(sc: map<string, real>, ct: map<string, nat>, s: seq<AttemptWithCategory>, x: AttemptWithCategory)
    requires Sums(sc, ct, s)
    ensures var n := x.category.name;
      Running(ScoresAfter(sc, ct, x)[n], CountsAfter(sc, ct, x)[n]) == Run(PctsOf(s + [x], n))
  {
    var n, p := x.category.name, x.attempt.percentage;
    var prev, ps := PctsOf(s, n), PctsOf(s + [x], n);
    PctsSnoc(s, x, n);
    assert ps == prev + [p];
    assert ps[..|ps| - 1] == prev;
    if n in sc {
      assert Running(sc[n], ct[n]) == Run(prev);
    } else {
      assert n !in Names(s);
      assert prev == [];
    }
  }

  /** Any other name keeps its entry. */
  lemma SumsStepOther(sc: map<string, real>, ct: map<string, nat>, s: seq<AttemptWithCategory>, x: AttemptWithCategory, k: string)
    requires Sums(sc, ct, s)
    requires k in ScoresAfter(sc, ct, x) && k != x.category.name
    ensures Running(ScoresAfter(sc, ct, x)[k], CountsAfter(sc, ct, x)[k]) == Run(PctsOf(s + [x], k))
  {
    PctsSnoc(s, x, k);
    assert PctsOf(s + [x], k) == PctsOf(s, k) + [] == PctsOf(s, k);
    assert ScoresAfter(sc, ct, x)[k] == sc[k] && CountsAfter(sc, ct, x)[k] == ct[k];
    assert Running(sc[k], ct[k]) == Run(PctsOf(s, k));
  }

  /** Every name that occurs has been counted at least once. */
  lemma SumsCountsPositive(sc: map<string, real>, ct: map<string, nat>, s: seq<AttemptWithCategory>)
    requires Sums(sc, ct, s)
    ensures forall n :: n in ct ==> ct[n] > 0
  {
    forall n | n in ct ensures ct[n] > 0 {
      assert Run(PctsOf(s, n)).count == ct[n];
    }
  }

  /** The body of the first `forEach`, for one attempt. */
  method AddAttempt(categoryScores: map<string, real>, categoryCount: map<string, nat>, attempt: AttemptWithCategory)
    returns (scores: map<string, real>, counts: map<string, nat>)
    ensures scores == ScoresAfter(categoryScores, categoryCount, attempt)
    ensures counts == CountsAfter(categoryScores, categoryCount, attempt)
  {
    scores, counts := categoryScores, categoryCount;
    var categoryName := attempt.category.name;
    var entry := if categoryName in scores then Some(scores[categoryName]) else None;
    if Falsy(entry) {
      scores := scores[categoryName := 0.0];
      counts := counts[categoryName := 0];
    }
    scores := scores[categoryName := scores[categoryName] + attempt.attempt.percentage];
    counts := counts[categoryName := (if categoryName in counts then counts[categoryName] else 0) + 1];
  }

  /** The first pass, over the user's completed attempts. */
  method SumByName(attempts: seq<AttemptWithCategory>) returns (categoryScores: map<string, real>, categoryCount: map<string, nat>)
    ensures Sums(categoryScores, categoryCount, attempts)
    ensures forall n :: n in categoryCount ==> categoryCount[n] > 0
  {
    categoryScores, categoryCount := map[], map[];
    var i := 0;
    while i < |attempts|
      invariant 0 <= i <= |attempts|
      invariant (categoryScores, categoryCount) == Accumulate(attempts[..i])
    {
      assert attempts[..i + 1][..i] == attempts[..i];
      categoryScores, categoryCount := AddAttempt(categoryScores, categoryCount, attempts[i]);
      i := i + 1;
    }
    assert attempts[..|attempts|] == attempts;
    AccumulateSums(attempts);
    SumsCountsPositive(categoryScores, categoryCount, attempts);
  }

  /** The second pass: every key's sum becomes its mean; the order of the keys does not matter. */
  method AverageByName(sums: map<string, real>, counts: map<string, nat>) returns (categoryScores: map<string, real>)
    requires sums.Keys == counts.Keys && forall n :: n in counts ==> counts[n] > 0
    ensures categoryScores.Keys == sums.Keys
    ensures forall n :: n in sums ==> categoryScores[n] == sums[n] / counts[n] as real
  {
    categoryScores := sums;
    var keys := sums.Keys;
    while keys != {}
      invariant keys <= sums.Keys && categoryScores.Keys == sums.Keys
      invariant forall n :: n in keys ==> categoryScores[n] == sums[n]
      invariant forall n :: n in sums && n !in keys ==> categoryScores[n] == sums[n] / counts[n] as real
      decreases keys
    {
      var category :| category in keys;
      categoryScores := categoryScores[category := categoryScores[category] / counts[category] as real];
      keys := keys - {category};
    }
  }

  /** The metrics of `getRecommendation` for `userId`, over the attempt table. */
  method RecommendationMetrics(table: seq<AttemptWithCategory>, userId: Id) returns (m: Metrics)
    ensures var s := UserController.CompletedBy(table, userId);
      m.averageScore == (if |s| > 0 then UserController.SumPct(s) / |s| as real else 0.0) &&
      m.categoryScores.Keys == Names(s) &&
      forall n :: n in m.categoryScores ==> Run(PctsOf(s, n)).count > 0 && m.categoryScores[n] == MeanOf(Run(PctsOf(s, n)))
  {
    var attempts := UserController.CompletedBy(table, userId);
    var averageScore := if |attempts| > 0 then UserController.SumPct(attempts) / |attempts| as real else 0.0;
    var sums, counts := SumByName(attempts);
    var categoryScores := AverageByName(sums, counts);
    assert forall n :: n in sums ==> Running(sums[n], counts[n]) == Run(PctsOf(attempts, n));
    m := Metrics(averageScore, categoryScores);
  }

  // ---------------------------------------------------------------------
  // What the reset does

  function Sum(ps: seq<real>): real {
    if ps == [] then 0.0 else Sum(ps[..|ps| - 1]) + ps[|ps| - 1]
  }

  /** The number of 0% attempts before the first non-zero one. */
  function LeadingZeros(ps: seq<real>): (n: nat)
    ensures n <= |ps|
  {
    if ps == [] || ps[0] != 0.0 then 0 else 1 + LeadingZeros(ps[1..])
  }

  predicate AllZero(ps: seq<real>) {
    forall i :: 0 <= i < |ps| ==> ps[i] == 0.0
  }

  predicate NonNegative(ps: seq<real>) {
    forall i :: 0 <= i < |ps| ==> ps[i] >= 0.0
  }

  lemma {:induction false} LeadingZerosSnoc(ps: seq<real>, p: real)
    ensures AllZero(ps) ==> LeadingZeros(ps + [p]) == |ps| + (if p == 0.0 then 1 else 0)
    ensures !AllZero(ps) ==> LeadingZeros(ps + [p]) == LeadingZeros(ps)
  {
    if ps != [] {
      assert (ps + [p])[1..] == ps[1..] + [p];
      assert (ps + [p])[0] == ps[0];
      LeadingZerosSnoc(ps[1..], p);
      assert AllZero(ps) ==> AllZero(ps[1..]) by {
        forall i | 0 <= i < |ps[1..]| ensures ps[1..][i] == ps[i + 1] { }
      }
      if ps[0] == 0.0 && !AllZero(ps) {
        var i :| 0 <= i < |ps| && ps[i] != 0.0;
        assert ps[1..][i - 1] == ps[i];
      }
    } else {
      assert [] + [p] == [p];
      assert [p][1..] == [];
    }
  }

  lemma {:induction false} SumOfNonNegative(ps: seq<real>)
    requires NonNegative(ps)
    ensures Sum(ps) >= 0.0
    ensures Sum(ps) == 0.0 <==> AllZero(ps)
  {
    if ps != [] {
      var init := ps[..|ps| - 1];
      assert forall i :: 0 <= i < |init| ==> init[i] == ps[i];
      SumOfNonNegative(init);
    }
  }

  /**
   * For non-negative percentages the running sum is the true sum, but the
   * count leaves out the 0% attempts that come before the first non-zero one
   * (and is 1 when all of them are 0%).
   */
  lemma {:induction false} RunDropsLeadingZeros(ps: seq<real>)
    requires NonNegative(ps) && ps != []
    ensures Run(ps).sum == Sum(ps)
    ensures Run(ps).count == if AllZero(ps) then 1 else |ps| - LeadingZeros(ps)
  {
    var init, p := ps[..|ps| - 1], ps[|ps| - 1];
    assert ps == init + [p];
    assert NonNegative(init) by {
      forall i | 0 <= i < |init| ensures init[i] == ps[i] { }
    }
    LeadingZerosSnoc(init, p);
    SumOfNonNegative(init);
    if init != [] {
      RunDropsLeadingZeros(init);
    }
    assert AllZero(ps) <==> AllZero(init) && p == 0.0 by {
      forall i | 0 <= i < |init| ensures init[i] == ps[i] { }
    }
  }

  /** A 0% attempt followed by a 100% one in the same category averages 100, not 50. */
  lemma ZeroThenHundredAveragesHundred()
    ensures Run([0.0, 100.0]) == Running(100.0, 1)
    ensures MeanOf(Run([0.0, 100.0])) == 100.0
  {
    assert [0.0, 100.0][..1] == [0.0];
    assert [0.0][..0] == [];
  }

  /** Two categories with different ids but the same name share one entry. */
  lemma GroupedByNameNotId(a: AttemptWithCategory, b: AttemptWithCategory)
    requires a.category.name == b.category.name && a.category.id != b.category.id
    ensures Names([a, b]) == {a.category.name}
    ensures PctsOf([a, b], a.category.name) == [a.attempt.percentage, b.attempt.percentage]
  {
    assert [a, b][..1] == [a];
    assert [a][..0] == [];
    assert Names([a]) == {a.category.name};
  }
}
