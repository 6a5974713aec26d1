/**
 * The per-criterion grader (src/rubric/autograders/per_criterion_grader.py): one independent
 * judge call per criterion. The concurrent `asyncio.gather` fan-out is a sequential map here;
 * gather returns results in input order, which is what the map preserves.
 */
module PerCriterionGrader {
  import opened Wrappers
  import opened Types
  import opened Schemas
  import Scoring

  /** What a single judge call is told: the polarity label, the requirement, the query and the response. */
  datatype Request = Request(polarity: Polarity, requirement: string, query: Option<string>, response: string)

  /** The injected judge: from a request to a validated single-criterion answer. */
  type Generate = Request -> PerCriterionOutput

  /** The request for one criterion; it is labelled negative exactly when the weight is below zero. */
  function RequestFor(c: Criterion, toGrade: string, query: Option<string>): (q: Request)
    ensures q.polarity == Negative <==> c.weight < 0.0
    ensures q.requirement == c.requirement && q.query == query && q.response == toGrade
  {
    Request(PolarityOf(c.weight), c.requirement, query, toGrade)
  }

  /** `_judge_single_criterion`: the report copies the criterion and takes the judge's verdict and reason. */
  function JudgeSingle(c: Criterion, toGrade: string, query: Option<string>, generate: Generate): (r: CriterionReport)
    ensures CriterionOf(r) == c
    ensures var out := generate(RequestFor(c, toGrade, query));
      r.verdict == out.criterionStatus && r.reason == out.explanation
  {
    var result := generate(RequestFor(c, toGrade, query));
    ReportFor(c, result.criterionStatus, result.explanation)
  }

  /** `judge`: exactly one report per criterion, in rubric order. */
  function Judge(toGrade: string, rubric: seq<Criterion>, query: Option<string>, generate: Generate): (rs: seq<CriterionReport>)
    ensures |rs| == |rubric|
    ensures forall i :: 0 <= i < |rubric| ==> rs[i] == JudgeSingle(rubric[i], toGrade, query, generate)
    ensures forall i :: 0 <= i < |rubric| ==> CriterionOf(rs[i]) == rubric[i]
  {
    if |rubric| == 0 then []
    else Judge(toGrade, rubric[..|rubric| - 1], query, generate) + [JudgeSingle(rubric[|rubric| - 1], toGrade, query, generate)]
  }

  /** Judging two rubric pieces separately and concatenating gives the reports for the whole rubric. */
  lemma JudgeAppend(toGrade: string, a: seq<Criterion>, b: seq<Criterion>, query: Option<string>, generate: Generate)
    ensures Judge(toGrade, a + b, query, generate) == Judge(toGrade, a, query, generate) + Judge(toGrade, b, query, generate)
  {
    var whole := Judge(toGrade, a + b, query, generate);
    var parts := Judge(toGrade, a, query, generate) + Judge(toGrade, b, query, generate);
    assert |whole| == |parts|;
    forall i | 0 <= i < |whole|
      ensures whole[i] == parts[i]
    {
      if i < |a| {
        assert (a + b)[i] == a[i];
      } else {
        assert (a + b)[i] == b[i - |a|];
      }
    }
  }
}
