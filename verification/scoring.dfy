/**
 * The weighted aggregation shared by the per-criterion, one-shot and double-pass graders
 * (the `aggregate` method that per_criterion_grader.py, per_criterion_one_shot_grader.py and
 * double_pass_per_criterion_one_shot_grader.py each carry a copy of).
 */
module Scoring {
  import opened Wrappers
  import opened Types

  /** Python's `max(0.0, min(1.0, x))`. */
  function Clamp01(x: real): (r: real)
    ensures 0.0 <= r <= 1.0
    ensures 0.0 <= x <= 1.0 ==> r == x
    ensures x < 0.0 ==> r == 0.0
    ensures x > 1.0 ==> r == 1.0
  {
    if 0.0 > (if 1.0 < x then 1.0 else x) then 0.0 else if 1.0 < x then 1.0 else x
  }

  /** The weights of a list of reports, in order. */
  function WeightsOf(rs: seq<CriterionReport>): (ws: seq<real>)
    ensures |ws| == |rs| && forall i :: 0 <= i < |rs| ==> ws[i] == rs[i].weight
  {
    seq(|rs|, i requires 0 <= i < |rs| => rs[i].weight)
  }

  function Max0(w: real): real { if w > 0.0 then w else 0.0 }

  /** Σ max(0, w): the total weight of the positive criteria. */
  function PositiveTotal(ws: seq<real>): real
  {
    if |ws| == 0 then 0.0 else PositiveTotal(ws[..|ws| - 1]) + Max0(ws[|ws| - 1])
  }

  /** Σ |w| over the negative weights. */
  function NegativeTotal(ws: seq<real>): real
  {
    if |ws| == 0 then 0.0
    else NegativeTotal(ws[..|ws| - 1]) + (if ws[|ws| - 1] < 0.0 then -ws[|ws| - 1] else 0.0)
  }

  /** What one report adds to the weighted sum: its weight when MET, nothing when UNMET. */
  function Credit(r: CriterionReport): real
  {
    (if r.verdict == Met then 1.0 else 0.0) * r.weight
  }

  /** Σ (1 if MET else 0) · weight, in report order. */
  function WeightedSum(rs: seq<CriterionReport>): real
  {
    if |rs| == 0 then 0.0 else WeightedSum(rs[..|rs| - 1]) + Credit(rs[|rs| - 1])
  }

  /** The normalised score for a weighted sum, given the positive and negative totals. */
  function NormalizedScore(sum: real, positive: real, negative: real): real
  {
    if positive > 0.0 then Clamp01(sum / positive)
    else if negative > 0.0 then Clamp01(1.0 + sum / negative)
    else 0.0
  }

  /**
   * The shared aggregation. The raw score is always the weighted sum and is also reported as
   * the judge's own score; the score is that sum, or its normalisation into [0, 1].
   */
  function Aggregate(rs: seq<CriterionReport>, normalize: bool): (r: EvaluationReport)
    ensures r.rawScore == Some(WeightedSum(rs)) && r.llmRawScore == r.rawScore
    ensures r.report == Some(rs) && r.error == None
    ensures normalize ==> 0.0 <= r.score <= 1.0
    ensures !normalize ==> r.score == WeightedSum(rs)
  {
    var sum := WeightedSum(rs);
    var score := if normalize then NormalizedScore(sum, PositiveTotal(WeightsOf(rs)), NegativeTotal(WeightsOf(rs))) else sum;
    EvaluationReport(score, Some(sum), Some(sum), Some(rs), None)
  }

  lemma WeightsOfPrefix(rs: seq<CriterionReport>)
    requires |rs| > 0
    ensures WeightsOf(rs)[..|rs| - 1] == WeightsOf(rs[..|rs| - 1])
  {
  }

  /**
   * Whatever the verdicts, the weighted sum lies between minus the negative total and the
   * positive total, and both totals are non-negative.
   */
  lemma {:induction false} SumBounds(rs: seq<CriterionReport>)
    ensures 0.0 <= PositiveTotal(WeightsOf(rs)) && 0.0 <= NegativeTotal(WeightsOf(rs))
    ensures -NegativeTotal(WeightsOf(rs)) <= WeightedSum(rs) <= PositiveTotal(WeightsOf(rs))
  {
    if |rs| > 0 {
      SumBounds(rs[..|rs| - 1]);
      WeightsOfPrefix(rs);
    }
  }

  /** A zero positive total means no weight is above zero. */
  lemma {:induction false} ZeroPositiveTotalMeansNoPositive(ws: seq<real>)
    requires PositiveTotal(ws) == 0.0
    ensures forall i :: 0 <= i < |ws| ==> ws[i] <= 0.0
  {
    if |ws| > 0 {
      NonNegativePositiveTotal(ws[..|ws| - 1]);
      ZeroPositiveTotalMeansNoPositive(ws[..|ws| - 1]);
      assert forall i :: 0 <= i < |ws| - 1 ==> ws[i] == ws[..|ws| - 1][i];
    }
  }

  lemma {:induction false} NonNegativePositiveTotal(ws: seq<real>)
    ensures PositiveTotal(ws) >= 0.0
  {
    if |ws| > 0 {
      NonNegativePositiveTotal(ws[..|ws| - 1]);
    }
  }

  /**
   * With positive weight present the normalised score is the weighted sum over the positive
   * total, clamped; MET negative criteria subtract from that budget.
   */
  lemma PositiveRubricScore(rs: seq<CriterionReport>)
    requires PositiveTotal(WeightsOf(rs)) > 0.0
    ensures Aggregate(rs, true).score == Clamp01(WeightedSum(rs) / PositiveTotal(WeightsOf(rs)))
  {
  }

  /**
   * For an all-negative rubric the score starts at 1 and each MET criterion removes its share
   * of the negative total; no clamping is ever needed.
   */
  lemma AllNegativeScore(rs: seq<CriterionReport>)
    requires PositiveTotal(WeightsOf(rs)) == 0.0 && NegativeTotal(WeightsOf(rs)) > 0.0
    ensures Aggregate(rs, true).score == 1.0 + WeightedSum(rs) / NegativeTotal(WeightsOf(rs))
  {
    SumBounds(rs);
    var n := NegativeTotal(WeightsOf(rs));
    var s := WeightedSum(rs);
    DivideWithinMinusOneAndZero(s, n);
  }

  lemma DivideWithinMinusOneAndZero(s: real, n: real)
    requires n > 0.0 && -n <= s <= 0.0
    ensures 0.0 <= 1.0 + s / n <= 1.0
  {
    assert s / n >= -1.0 by {
      assert (s + n) / n >= 0.0;
    }
  }

  /** A rubric with no nonzero weight normalises to 0. */
  lemma ZeroWeightScore(rs: seq<CriterionReport>)
    requires PositiveTotal(WeightsOf(rs)) == 0.0 && NegativeTotal(WeightsOf(rs)) == 0.0
    ensures Aggregate(rs, true).score == 0.0
  {
  }

  /** With nothing MET the weighted sum is 0. */
  lemma {:induction false} NothingMetSum(rs: seq<CriterionReport>)
    requires forall i :: 0 <= i < |rs| ==> rs[i].verdict == Unmet
    ensures WeightedSum(rs) == 0.0
  {
    if |rs| > 0 {
      NothingMetSum(rs[..|rs| - 1]);
    }
  }

  /** With everything MET the weighted sum is the positive total minus the negative total. */
  lemma {:induction false} EverythingMetSum(rs: seq<CriterionReport>)
    requires forall i :: 0 <= i < |rs| ==> rs[i].verdict == Met
    ensures WeightedSum(rs) == PositiveTotal(WeightsOf(rs)) - NegativeTotal(WeightsOf(rs))
  {
    if |rs| > 0 {
      EverythingMetSum(rs[..|rs| - 1]);
      WeightsOfPrefix(rs);
    }
  }

  /** An all-negative rubric with nothing MET scores 1.0 with raw score 0. */
  lemma AllNegativeNothingMet(rs: seq<CriterionReport>)
    requires PositiveTotal(WeightsOf(rs)) == 0.0 && NegativeTotal(WeightsOf(rs)) > 0.0
    requires forall i :: 0 <= i < |rs| ==> rs[i].verdict == Unmet
    ensures Aggregate(rs, true).score == 1.0 && Aggregate(rs, true).rawScore == Some(0.0)
  {
    NothingMetSum(rs);
  }

  /** An all-negative rubric with everything MET scores 0.0 with raw score minus the negative total. */
  lemma AllNegativeEverythingMet(rs: seq<CriterionReport>)
    requires PositiveTotal(WeightsOf(rs)) == 0.0 && NegativeTotal(WeightsOf(rs)) > 0.0
    requires forall i :: 0 <= i < |rs| ==> rs[i].verdict == Met
    ensures Aggregate(rs, true).score == 0.0
    ensures Aggregate(rs, true).rawScore == Some(-NegativeTotal(WeightsOf(rs)))
  {
    EverythingMetSum(rs);
    NegativeOverItself(NegativeTotal(WeightsOf(rs)));
  }

  /** Replacing one report changes the weighted sum by the difference of the two credits. */
  lemma {:induction false} SumAfterUpdate(rs: seq<CriterionReport>, k: nat, x: CriterionReport)
    requires k < |rs|
    ensures WeightedSum(rs[k := x]) == WeightedSum(rs) - Credit(rs[k]) + Credit(x)
  {
    var n := |rs| - 1;
    if k < n {
      SumAfterUpdate(rs[..n], k, x);
      assert rs[k := x][..n] == rs[..n][k := x];
    } else {
      assert rs[k := x][..n] == rs[..n];
    }
  }

  /** Replacing one report by one of the same weight keeps both totals. */
  lemma {:induction false} TotalsAfterUpdate(rs: seq<CriterionReport>, k: nat, x: CriterionReport)
    requires k < |rs| && x.weight == rs[k].weight
    ensures WeightsOf(rs[k := x]) == WeightsOf(rs)
  {
  }

  lemma NormalizedMonotone(s1: real, s2: real, p: real, n: real)
    requires s1 <= s2 && p >= 0.0 && n >= 0.0
    ensures NormalizedScore(s1, p, n) <= NormalizedScore(s2, p, n)
  {
    if p > 0.0 {
      DivMonotone(s1, s2, p);
    } else if n > 0.0 {
      DivMonotone(s1, s2, n);
    }
  }

  /**
   * Turning one positive criterion from UNMET to MET never lowers the score, and turning one
   * negative criterion from UNMET to MET never raises it, normalised or not.
   */
  lemma FlipMonotone(rs: seq<CriterionReport>, k: nat, normalize: bool)
    requires k < |rs| && rs[k].verdict == Unmet
    ensures rs[k].weight >= 0.0 ==> Aggregate(rs, normalize).score <= Aggregate(rs[k := rs[k].(verdict := Met)], normalize).score
    ensures rs[k].weight < 0.0 ==> Aggregate(rs[k := rs[k].(verdict := Met)], normalize).score <= Aggregate(rs, normalize).score
  {
    var x := rs[k].(verdict := Met);
    SumAfterUpdate(rs, k, x);
    TotalsAfterUpdate(rs, k, x);
    SumBounds(rs);
    var p, n := PositiveTotal(WeightsOf(rs)), NegativeTotal(WeightsOf(rs));
    if rs[k].weight >= 0.0 {
      NormalizedMonotone(WeightedSum(rs), WeightedSum(rs[k := x]), p, n);
    } else {
      NormalizedMonotone(WeightedSum(rs[k := x]), WeightedSum(rs), p, n);
    }
  }

  lemma DivMonotone(a: real, b: real, d: real)
    requires a <= b && d > 0.0
    ensures a / d <= b / d
  {
  }

  lemma NegativeOverItself(n: real)
    requires n > 0.0
    ensures 1.0 + (-n) / n == 0.0
  {
  }

  lemma SumsSnoc(rs: seq<CriterionReport>, x: CriterionReport)
    ensures WeightedSum(rs + [x]) == WeightedSum(rs) + Credit(x)
    ensures WeightsOf(rs + [x]) == WeightsOf(rs) + [x.weight]
    ensures PositiveTotal(WeightsOf(rs + [x])) == PositiveTotal(WeightsOf(rs)) + Max0(x.weight)
    ensures NegativeTotal(WeightsOf(rs + [x])) == NegativeTotal(WeightsOf(rs)) + (if x.weight < 0.0 then -x.weight else 0.0)
  {
    assert (rs + [x])[..|rs|] == rs;
    assert (WeightsOf(rs) + [x.weight])[..|rs|] == WeightsOf(rs);
  }

  /** One of three equal negative criteria MET: score 2/3, raw score -1. */
  lemma OneOfThreeNegativesExample()
    ensures var rs := [CriterionReport(-1.0, "a", Met, ""), CriterionReport(-1.0, "b", Unmet, ""), CriterionReport(-1.0, "c", Unmet, "")];
      Aggregate(rs, true).score == 2.0 / 3.0 && Aggregate(rs, true).rawScore == Some(-1.0)
  {
    var a, b, c := CriterionReport(-1.0, "a", Met, ""), CriterionReport(-1.0, "b", Unmet, ""), CriterionReport(-1.0, "c", Unmet, "");
    ThreeSums(a, b, c);
    AllNegativeScore([a, b, c]);
    assert 1.0 + -1.0 / 3.0 == 2.0 / 3.0;
  }

  /** The three running sums of a three-report list. */
  lemma ThreeSums(a: CriterionReport, b: CriterionReport, c: CriterionReport)
    ensures WeightedSum([a, b, c]) == Credit(a) + Credit(b) + Credit(c)
    ensures PositiveTotal(WeightsOf([a, b, c])) == Max0(a.weight) + Max0(b.weight) + Max0(c.weight)
    ensures NegativeTotal(WeightsOf([a, b, c])) ==
      (if a.weight < 0.0 then -a.weight else 0.0) + (if b.weight < 0.0 then -b.weight else 0.0) + (if c.weight < 0.0 then -c.weight else 0.0)
  {
    TwoSums(a, b);
    SumsSnoc([a, b], c);
    assert [a, b] + [c] == [a, b, c];
  }

  lemma TwoSums(a: CriterionReport, b: CriterionReport)
    ensures WeightedSum([a, b]) == Credit(a) + Credit(b)
    ensures PositiveTotal(WeightsOf([a, b])) == Max0(a.weight) + Max0(b.weight)
    ensures NegativeTotal(WeightsOf([a, b])) ==
      (if a.weight < 0.0 then -a.weight else 0.0) + (if b.weight < 0.0 then -b.weight else 0.0)
  {
    SumsSnoc([], a);
    assert [] + [a] == [a];
    SumsSnoc([a], b);
    assert [a] + [b] == [a, b];
  }

  /** Three criteria of weight 1, exactly one of them MET, in any position: score 1/3. */
  lemma OneOfThreeMetScore(a: CriterionReport, b: CriterionReport, c: CriterionReport)
    requires a.weight == 1.0 && b.weight == 1.0 && c.weight == 1.0
    requires (if a.verdict == Met then 1 else 0) + (if b.verdict == Met then 1 else 0) + (if c.verdict == Met then 1 else 0) == 1
    ensures Aggregate([a, b, c], true).score == 1.0 / 3.0
  {
    ThreeSums(a, b, c);
    PositiveRubricScore([a, b, c]);
  }

  /** Mixed rubric 2, 1, 1 MET and -0.5 UNMET: raw score 4 and a clamped score of 1. */
  lemma MixedRubricExample()
    ensures var rs := [CriterionReport(2.0, "a", Met, ""), CriterionReport(1.0, "b", Met, ""),
                       CriterionReport(1.0, "c", Met, ""), CriterionReport(-0.5, "d", Unmet, "")];
      Aggregate(rs, true).score == 1.0 && Aggregate(rs, true).rawScore == Some(4.0)
  {
    var a, b := CriterionReport(2.0, "a", Met, ""), CriterionReport(1.0, "b", Met, "");
    var c, d := CriterionReport(1.0, "c", Met, ""), CriterionReport(-0.5, "d", Unmet, "");
    ThreeSums(a, b, c);
    SumsSnoc([a, b, c], d);
    assert [a, b, c] + [d] == [a, b, c, d];
    assert WeightedSum([a, b, c, d]) == 4.0;
    assert PositiveTotal(WeightsOf([a, b, c, d])) == 4.0;
    PositiveRubricScore([a, b, c, d]);
  }

  /**
   * The aggregation as each of the three source files computes it: three running sums over the
   * judge results, then the normalisation chain. It equals the functional definition.
   */
  method RunningAggregate(judgeResults: seq<CriterionReport>, normalize: bool) returns (r: EvaluationReport)
    ensures r == Aggregate(judgeResults, normalize)
  {
    var ws := WeightsOf(judgeResults);
    var totalPositiveWeight := 0.0;
    var totalNegativeWeight := 0.0;
    var weightedScoreSum := 0.0;
    var i := 0;
    while i < |judgeResults|
      invariant 0 <= i <= |judgeResults|
      invariant totalPositiveWeight == PositiveTotal(ws[..i])
      invariant totalNegativeWeight == NegativeTotal(ws[..i])
      invariant weightedScoreSum == WeightedSum(judgeResults[..i])
    {
      var report := judgeResults[i];
      assert ws[..i + 1][..i] == ws[..i] && judgeResults[..i + 1][..i] == judgeResults[..i];
      totalPositiveWeight := totalPositiveWeight + (if 0.0 < report.weight then report.weight else 0.0);
      if report.weight < 0.0 {
        totalNegativeWeight := totalNegativeWeight + (if report.weight < 0.0 then -report.weight else report.weight);
      }
      weightedScoreSum := weightedScoreSum + (if report.verdict == Met then 1.0 else 0.0) * report.weight;
      i := i + 1;
    }
    assert ws[..i] == ws && judgeResults[..i] == judgeResults;

    var rawScore := weightedScoreSum;
    var score: real;
    if normalize {
      if totalPositiveWeight > 0.0 {
        score := Clamp01(weightedScoreSum / totalPositiveWeight);
      } else if totalNegativeWeight > 0.0 {
        // All-negative rubric: the score starts at 1.0 and MET errors subtract from it.
        score := Clamp01(1.0 + weightedScoreSum / totalNegativeWeight);
      } else {
        score := 0.0;
      }
    } else {
      score := rawScore;
    }
    r := EvaluationReport(score, Some(rawScore), Some(rawScore), Some(judgeResults), None);
  }
}
