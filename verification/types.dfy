/**
 * Value objects of the rubric grader (src/rubric/types.py): criteria, per-criterion
 * reports and the final evaluation report.
 */
module Types {
  import opened Wrappers

  /** A criterion's outcome; the source's `Literal["MET", "UNMET"]`. */
  datatype Verdict = Met | Unmet

  /** Whether a criterion describes a desired trait or an error. */
  datatype Polarity = Positive | Negative

  /** The polarity label every grader attaches to a criterion: negative exactly when its weight is below zero. */
  function PolarityOf(weight: real): (p: Polarity)
    ensures p == Negative <==> weight < 0.0
    ensures weight == 0.0 ==> p == Positive
  {
    if weight < 0.0 then Negative else Positive
  }

  /** An immutable weighted requirement; the sign of the weight fixes its polarity. */
  datatype Criterion = Criterion(weight: real, requirement: string)

  /** A criterion annotated with the judge's verdict and its justification. */
  datatype CriterionReport = CriterionReport(weight: real, requirement: string, verdict: Verdict, reason: string)

  /** The criterion a report was made for. */
  function CriterionOf(r: CriterionReport): Criterion
  {
    Criterion(r.weight, r.requirement)
  }

  /** A report for `c` that copies its weight and requirement. */
  function ReportFor(c: Criterion, verdict: Verdict, reason: string): (r: CriterionReport)
    ensures CriterionOf(r) == c && r.verdict == verdict && r.reason == reason
  {
    CriterionReport(c.weight, c.requirement, verdict, reason)
  }

  /** The final result of one grading call; absent Python fields are `None`. */
  datatype EvaluationReport = EvaluationReport(
    score: real,
    rawScore: Option<real>,
    llmRawScore: Option<real>,
    report: Option<seq<CriterionReport>>,
    error: Option<string>)

  /** The reason recorded for a rubric position that no judge entry covers. */
  const NotFoundReason: string := "Evaluation not found in response"

  /** One numbered line of the criteria list the one-shot and holistic judges are shown. */
  datatype Listed = Listed(number: int, polarity: Polarity, weight: real, requirement: string)

  /** The criteria as presented to a batch judge: 1-based numbers in the given order, with polarity labels. */
  function Present(rubric: seq<Criterion>): (lines: seq<Listed>)
    ensures |lines| == |rubric|
    ensures forall i :: 0 <= i < |rubric| ==>
      lines[i].number == i + 1 && lines[i].weight == rubric[i].weight &&
      lines[i].requirement == rubric[i].requirement &&
      (lines[i].polarity == Negative <==> rubric[i].weight < 0.0)
  {
    seq(|rubric|, i requires 0 <= i < |rubric| =>
      Listed(i + 1, PolarityOf(rubric[i].weight), rubric[i].weight, rubric[i].requirement))
  }

  /** Python's `list(reversed(s))`. */
  function Reverse<T>(s: seq<T>): (r: seq<T>)
    ensures |r| == |s|
    ensures forall i :: 0 <= i < |s| ==> r[i] == s[|s| - 1 - i]
  {
    if |s| == 0 then [] else [s[|s| - 1]] + Reverse(s[..|s| - 1])
  }

  /** One position of a reversal, as a fact a caller can use without unfolding `Reverse`. */
  lemma ReverseAt<T>(s: seq<T>, i: int)
    requires 0 <= i < |s|
    ensures |Reverse(s)| == |s| && Reverse(s)[i] == s[|s| - 1 - i]
  {
  }
}
