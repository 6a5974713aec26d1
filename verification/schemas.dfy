/**
 * The structured judge outputs (src/rubric/autograders/schemas.py). A status is a
 * `Verdict`, so it can only be MET or UNMET.
 */
module Schemas {
  import opened Types

  /** The answer of a single-criterion judge call. */
  datatype PerCriterionOutput = PerCriterionOutput(criterionStatus: Verdict, explanation: string)

  /** One entry of a one-shot answer; `criterionNumber` is meant as a 1-based rubric position. */
  datatype CriterionEvaluation = CriterionEvaluation(criterionNumber: int, criterionStatus: Verdict, explanation: string)

  /** A one-shot answer as the model produced it. */
  datatype OneShotAnswer = OneShotAnswer(criteriaEvaluations: seq<CriterionEvaluation>)

  /** A validated one-shot answer: the schema demands at least one evaluation. */
  type OneShotOutput = o: OneShotAnswer | |o.criteriaEvaluations| >= 1
    witness OneShotAnswer([CriterionEvaluation(1, Unmet, "")])

  /** A holistic answer; the schema puts no bound on `overallScore`. */
  datatype RubricAsJudgeOutput = RubricAsJudgeOutput(overallScore: real, explanation: string)
}
