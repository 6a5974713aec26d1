/**
 * The holistic grader (src/rubric/autograders/rubric_as_judge_grader.py): the judge returns one
 * 0-100 score for the whole rubric, which is rescaled onto the weighted-sum scale of the
 * per-criterion graders.
 */
module RubricAsJudgeGrader {
  import opened Wrappers
  import opened Types
  import opened Schemas
  import Scoring

  /** What the holistic judge is told: the numbered, labelled criteria, the query and the response. */
  datatype Request = Request(criteria: seq<Listed>, query: Option<string>, response: string)

  /** The injected judge: from a request to a holistic answer. */
  type Generate = Request -> RubricAsJudgeOutput

  /** What `judge` hands to `aggregate`: the model's score and the rubric's two weight totals. */
  datatype JudgeResult = JudgeResult(llmScore: real, totalPositiveWeight: real, totalNegativeWeight: real)

  /**
   * The single pass over the rubric in `judge`: a weight of at least zero is added to the
   * positive total, any other weight's magnitude to the negative total. These are the same
   * totals the shared aggregation uses.
   */
  function WeightTotals(rubric: seq<Criterion>): (t: (real, real))
    ensures t.0 == Scoring.PositiveTotal(seq(|rubric|, i requires 0 <= i < |rubric| => rubric[i].weight))
    ensures t.1 == Scoring.NegativeTotal(seq(|rubric|, i requires 0 <= i < |rubric| => rubric[i].weight))
  {
    if |rubric| == 0 then (0.0, 0.0)
    else
      var front := rubric[..|rubric| - 1];
      var prefix := WeightTotals(front);
      var w := rubric[|rubric| - 1].weight;
      var ws := seq(|rubric|, i requires 0 <= i < |rubric| => rubric[i].weight);
      assert ws[..|rubric| - 1] == seq(|front|, i requires 0 <= i < |front| => front[i].weight);
      assert ws[|ws| - 1] == w;
      if w >= 0.0 then (prefix.0 + w, prefix.1) else (prefix.0, prefix.1 + -w)
  }

  /** `judge`: the model's verbatim score together with the rubric's weight totals. */
  function Judge(toGrade: string, rubric: seq<Criterion>, query: Option<string>, generate: Generate): (j: JudgeResult)
    ensures j.llmScore == generate(Request(Present(rubric), query, toGrade)).overallScore
    ensures j.totalPositiveWeight == Scoring.PositiveTotal(seq(|rubric|, i requires 0 <= i < |rubric| => rubric[i].weight))
    ensures j.totalNegativeWeight == Scoring.NegativeTotal(seq(|rubric|, i requires 0 <= i < |rubric| => rubric[i].weight))
  {
    var totals := WeightTotals(rubric);
    var result := generate(Request(Present(rubric), query, toGrade));
    JudgeResult(result.overallScore, totals.0, totals.1)
  }

  /** The synthetic weighted-sum raw score for a holistic score. */
  function SyntheticRaw(j: JudgeResult): real
  {
    if j.totalPositiveWeight > 0.0 then (j.llmScore / 100.0) * j.totalPositiveWeight
    else if j.totalNegativeWeight > 0.0 then -j.totalNegativeWeight * (1.0 - j.llmScore / 100.0)
    else 0.0
  }

  /**
   * `aggregate`: the model's score is kept verbatim, the raw score is its synthetic weighted
   * sum, the normalised score is the model's score over 100 clamped to [0, 1], and there is no
   * per-criterion report.
   */
  function Aggregate(j: JudgeResult, normalize: bool): (r: EvaluationReport)
    ensures r.llmRawScore == Some(j.llmScore) && r.rawScore == Some(SyntheticRaw(j))
    ensures r.report == None && r.error == None
    ensures normalize ==> r.score == Scoring.Clamp01(j.llmScore / 100.0)
    ensures !normalize ==> r.score == SyntheticRaw(j)
  {
    var llmRawScore := j.llmScore;
    var rawScore := SyntheticRaw(j);
    var score := if normalize then Scoring.Clamp01(j.llmScore / 100.0) else rawScore;
    EvaluationReport(score, Some(rawScore), Some(llmRawScore), None, None)
  }

  lemma ScaleWithin(x: real, t: real)
    requires 0.0 <= x <= 1.0 && t >= 0.0
    ensures 0.0 <= x * t <= t
  {
  }

  lemma NegativeScaleWithin(x: real, n: real)
    requires 0.0 <= x <= 1.0 && n > 0.0
    ensures -n <= -n * (1.0 - x) <= 0.0
  {
    ScaleWithin(1.0 - x, n);
    assert -n * (1.0 - x) == -((1.0 - x) * n);
  }

  lemma PercentInUnit(s: real)
    requires 0.0 <= s <= 100.0
    ensures 0.0 <= s / 100.0 <= 1.0
  {
  }

  /**
   * For a score in 0..100 the synthetic raw score lands where a per-criterion weighted sum can:
   * between minus the negative total and the positive total.
   */
  lemma SyntheticRawInSumRange(j: JudgeResult)
    requires 0.0 <= j.llmScore <= 100.0
    requires j.totalPositiveWeight >= 0.0 && j.totalNegativeWeight >= 0.0
    ensures -j.totalNegativeWeight <= SyntheticRaw(j) <= j.totalPositiveWeight
  {
    PercentInUnit(j.llmScore);
    var x := j.llmScore / 100.0;
    if j.totalPositiveWeight > 0.0 {
      assert SyntheticRaw(j) == x * j.totalPositiveWeight;
      ScaleWithin(x, j.totalPositiveWeight);
    } else if j.totalNegativeWeight > 0.0 {
      assert SyntheticRaw(j) == -j.totalNegativeWeight * (1.0 - x);
      NegativeScaleWithin(x, j.totalNegativeWeight);
    }
  }

  lemma DivideBack(a: real, t: real, q: real)
    requires t > 0.0 && q * t == a
    ensures a / t == q
  {
  }

  /**
   * Normalising the synthetic raw score with the per-criterion formula gives back the holistic
   * normalised score, so the two scales agree.
   */
  lemma RescaleAgreesWithSharedNormalization(j: JudgeResult)
    requires j.totalPositiveWeight >= 0.0 && j.totalNegativeWeight >= 0.0
    requires j.totalPositiveWeight > 0.0 || j.totalNegativeWeight > 0.0
    ensures Scoring.NormalizedScore(SyntheticRaw(j), j.totalPositiveWeight, j.totalNegativeWeight) == Aggregate(j, true).score
  {
    var x := j.llmScore / 100.0;
    if j.totalPositiveWeight > 0.0 {
      var raw := SyntheticRaw(j);
      assert raw == x * j.totalPositiveWeight;
      DivideBack(raw, j.totalPositiveWeight, x);
      assert Scoring.NormalizedScore(raw, j.totalPositiveWeight, j.totalNegativeWeight) == Scoring.Clamp01(x);
    } else {
      var raw := SyntheticRaw(j);
      assert raw == -j.totalNegativeWeight * (1.0 - x);
      assert (x - 1.0) * j.totalNegativeWeight == raw;
      DivideBack(raw, j.totalNegativeWeight, x - 1.0);
      assert Scoring.NormalizedScore(raw, j.totalPositiveWeight, j.totalNegativeWeight) == Scoring.Clamp01(1.0 + raw / j.totalNegativeWeight);
    }
  }

  /** The normalised holistic score depends on the model's score alone, never on the weights. */
  lemma NormalizedIgnoresWeights(llm: real, p1: real, n1: real, p2: real, n2: real)
    ensures Aggregate(JudgeResult(llm, p1, n1), true).score == Aggregate(JudgeResult(llm, p2, n2), true).score
  {
  }

  /** 85 with weights 10 and 5: raw score 12.75 and normalised score 0.85. */
  lemma PositiveExample()
    ensures Aggregate(JudgeResult(85.0, 15.0, 0.0), true).rawScore == Some(12.75)
    ensures Aggregate(JudgeResult(85.0, 15.0, 0.0), true).score == 0.85
  {
  }

  /** All-negative rubric: 100 maps to raw score 0 and 0 maps to minus the negative total. */
  lemma AllNegativeEndpoints(n: real)
    requires n > 0.0
    ensures SyntheticRaw(JudgeResult(100.0, 0.0, n)) == 0.0
    ensures SyntheticRaw(JudgeResult(0.0, 0.0, n)) == -n
  {
  }
}
