/**
 * The shared grading workflow (src/rubric/autograders/base.py): rebuild the submission into
 * one string, judge, aggregate with the autograder's own normalisation setting, then apply the
 * optional length penalty. The four strategies are the constructors of `Strategy`.
 */
module Autograders {
  import opened Wrappers
  import opened Types
  import opened LengthPenalties
  import Scoring
  import PerCriterionGrader
  import OneShotGrader
  import DoublePassGrader
  import RubricAsJudgeGrader

  /** `ToGradeInput`: a plain string or a dict whose `thinking`/`output` keys may be missing. */
  datatype Submission = Text(text: string) | Parts(thinking: Option<string>, output: Option<string>)

  /** The judge strategy of a grader, each with its injected judge. */
  datatype Strategy =
    | PerCriterion(perCriterionGenerate: PerCriterionGrader.Generate)
    | OneShot(oneShotGenerate: OneShotGrader.Generate)
    | DoublePass(doublePassGenerate: DoublePassGrader.Generate)
    | RubricAsJudge(holisticGenerate: RubricAsJudgeGrader.Generate)

  /** The autograder state that `grade` reads. */
  datatype Autograder = Autograder(strategy: Strategy, normalize: bool, lengthPenalty: Option<LengthPenalty>)

  /** Python's `d.get(key, "")` on an optional field. */
  function OrEmpty(s: Option<string>): string
  {
    match s
    case Some(v) => v
    case None => ""
  }

  /** Python's `sep.join(parts)`. */
  function Join(parts: seq<string>, sep: string): string
  {
    if |parts| == 0 then ""
    else if |parts| == 1 then parts[0]
    else parts[0] + sep + Join(parts[1..], sep)
  }

  lemma JoinUpToTwo(parts: seq<string>, sep: string)
    requires |parts| <= 2
    ensures |parts| == 1 ==> Join(parts, sep) == parts[0]
    ensures |parts| == 2 ==> Join(parts, sep) == parts[0] + sep + parts[1]
  {
    if |parts| == 2 {
      assert parts[1..] == [parts[1]];
    }
  }

  /**
   * The string handed to `judge`. A dict is rebuilt as a thinking block then an output block,
   * each only when non-empty, separated by a newline when both are present.
   */
  function JudgeInput(sub: Submission): (s: string)
    ensures sub.Text? ==> s == sub.text
    ensures sub.Parts? ==> (s ==
      (if OrEmpty(sub.thinking) != "" then "<thinking>" + OrEmpty(sub.thinking) + "</thinking>" else "") +
      (if OrEmpty(sub.thinking) != "" && OrEmpty(sub.output) != "" then "\n" else "") +
      (if OrEmpty(sub.output) != "" then "<output>" + OrEmpty(sub.output) + "</output>" else ""))
  {
    match sub
    case Text(text) => text
    case Parts(thinkingField, outputField) =>
      var thinking := OrEmpty(thinkingField);
      var output := OrEmpty(outputField);
      var parts := (if thinking != "" then ["<thinking>" + thinking + "</thinking>"] else []) +
                   (if output != "" then ["<output>" + output + "</output>"] else []);
      JoinUpToTwo(parts, "\n");
      if |parts| > 0 then Join(parts, "\n") else ""
  }

  /** A submission whose sections are both empty or missing is judged as the empty string. */
  lemma EmptyPartsGiveEmptyInput(thinking: Option<string>, output: Option<string>)
    requires OrEmpty(thinking) == "" && OrEmpty(output) == ""
    ensures JudgeInput(Parts(thinking, output)) == ""
  {
  }

  /**
   * The sections the length penalty measures. A dict's missing keys count as empty; how a
   * plain string is split into sections is the supplied `split`.
   */
  function PenaltySections(sub: Submission, split: string -> Sections): Sections
  {
    match sub
    case Text(text) => split(text)
    case Parts(thinking, output) => Sections(OrEmpty(thinking), OrEmpty(output))
  }

  /** `judge` followed by `aggregate`, dispatched on the strategy. */
  function JudgeAndAggregate(strategy: Strategy, toGrade: string, rubric: seq<Criterion>, query: Option<string>, normalize: bool): (r: EvaluationReport)
    ensures normalize ==> 0.0 <= r.score <= 1.0
    ensures !normalize ==> r.rawScore == Some(r.score)
    ensures r.error == None
    ensures strategy.RubricAsJudge? <==> r.report.None?
    ensures r.report.Some? ==> (|r.report.value| == |rubric| &&
      forall i :: 0 <= i < |rubric| ==> CriterionOf(r.report.value[i]) == rubric[i])
  {
    match strategy
    case PerCriterion(generate) => Scoring.Aggregate(PerCriterionGrader.Judge(toGrade, rubric, query, generate), normalize)
    case OneShot(generate) => Scoring.Aggregate(OneShotGrader.Judge(toGrade, rubric, query, generate), normalize)
    case DoublePass(generate) => Scoring.Aggregate(DoublePassGrader.Judge(toGrade, rubric, query, generate), normalize)
    case RubricAsJudge(generate) => RubricAsJudgeGrader.Aggregate(RubricAsJudgeGrader.Judge(toGrade, rubric, query, generate), normalize)
  }

  function Abs(x: real): real { if x < 0.0 then -x else x }

  /**
   * The penalty step of `grade`: the penalty's magnitude is subtracted whatever its sign, the
   * result is floored at 0 when normalising, and only the score, raw score and report survive.
   */
  function ApplyPenalty(report: EvaluationReport, penalty: real, normalize: bool): (r: EvaluationReport)
    ensures !normalize ==> r.score == report.score - Abs(penalty)
    ensures normalize ==> r.score == (if report.score - Abs(penalty) > 0.0 then report.score - Abs(penalty) else 0.0)
    ensures report.score >= 0.0 ==> r.score <= report.score
    ensures r.rawScore == report.rawScore && r.report == report.report
    ensures r.llmRawScore == None && r.error == None
  {
    var adjustedScore := if penalty < 0.0 then report.score + penalty else report.score - penalty;
    var adjustedScore' := if normalize then (if 0.0 < adjustedScore then adjustedScore else 0.0) else adjustedScore;
    EvaluationReport(adjustedScore', report.rawScore, None, report.report, None)
  }

  /**
   * `grade`: judge the rebuilt string, aggregate with the autograder's normalisation setting and,
   * when a length penalty is configured, subtract it. `split` turns a plain string into its
   * sections and `wordCount` is the default counter.
   */
  function Grade(g: Autograder, toGrade: Submission, rubric: seq<Criterion>, query: Option<string>,
                 split: string -> Sections, wordCount: string -> nat): (r: EvaluationReport)
    ensures var base := JudgeAndAggregate(g.strategy, JudgeInput(toGrade), rubric, query, g.normalize);
      && (g.lengthPenalty.None? ==> r == base)
      && r.rawScore == base.rawScore && r.report == base.report
      && r.score <= base.score
      && (g.lengthPenalty.Some? ==> r.llmRawScore == None)
    ensures g.normalize ==> 0.0 <= r.score <= 1.0
    ensures r.error == None
    ensures g.strategy.RubricAsJudge? <==> r.report.None?
    ensures r.report.Some? ==> (|r.report.value| == |rubric| &&
      forall i :: 0 <= i < |rubric| ==> CriterionOf(r.report.value[i]) == rubric[i])
  {
    var toGradeStr := JudgeInput(toGrade);
    var report := JudgeAndAggregate(g.strategy, toGradeStr, rubric, query, g.normalize);
    match g.lengthPenalty
    case None => report
    case Some(cfg) =>
      var count := CountedLength(PenaltySections(toGrade, split), cfg, Counter(cfg, wordCount));
      ApplyPenalty(report, Penalty(count, cfg), g.normalize)
  }

  /**
   * The strategy constructors as written: each accepts only `normalize` besides its judge and
   * forwards only that to the base class, so a `length_penalty` keyword is rejected and every
   * grader they build has no penalty.
   */
  function NewGraderAsWritten(strategy: Strategy, normalize: bool, lengthPenalty: Option<LengthPenalty>): (r: Result<Autograder, string>)
    ensures r.Failure? <==> lengthPenalty.Some?
    ensures r.Success? ==> r.value == Autograder(strategy, normalize, None)
  {
    if lengthPenalty.Some? then Failure("unexpected keyword argument 'length_penalty'")
    else Success(Autograder(strategy, normalize, None))
  }

  /** As written, the penalty branch of `grade` is unreachable through the strategy constructors. */
  lemma PenaltyUnreachableAsWritten(strategy: Strategy, normalize: bool, lengthPenalty: Option<LengthPenalty>,
                                    toGrade: Submission, rubric: seq<Criterion>, query: Option<string>,
                                    split: string -> Sections, wordCount: string -> nat)
    requires NewGraderAsWritten(strategy, normalize, lengthPenalty).Success?
    ensures Grade(NewGraderAsWritten(strategy, normalize, lengthPenalty).value, toGrade, rubric, query, split, wordCount) ==
      JudgeAndAggregate(strategy, JudgeInput(toGrade), rubric, query, normalize)
  {
  }

  /** The configuration the length-penalty tests construct a per-criterion grader with is refused as written. */
  lemma PenaltyConfigurationRefusedAsWritten(generate: PerCriterionGrader.Generate)
    ensures NewGraderAsWritten(PerCriterion(generate), true, Some(LengthPenalty(5, 10, 0.5, 1, None, All))).Failure?
  {
  }

  /** The intended constructors: the length penalty is kept for `grade`. */
  function NewGrader(strategy: Strategy, normalize: bool, lengthPenalty: Option<LengthPenalty>): (g: Autograder)
    ensures g.strategy == strategy && g.normalize == normalize && g.lengthPenalty == lengthPenalty
  {
    Autograder(strategy, normalize, lengthPenalty)
  }

  /** With the intended constructors, a configured penalty is measured and subtracted. */
  lemma NewGraderAppliesPenalty(strategy: Strategy, normalize: bool, cfg: LengthPenalty,
                                toGrade: Submission, rubric: seq<Criterion>, query: Option<string>,
                                split: string -> Sections, wordCount: string -> nat)
    ensures var count := CountedLength(PenaltySections(toGrade, split), cfg, Counter(cfg, wordCount));
      Grade(NewGrader(strategy, normalize, Some(cfg)), toGrade, rubric, query, split, wordCount) ==
        ApplyPenalty(JudgeAndAggregate(strategy, JudgeInput(toGrade), rubric, query, normalize), Penalty(count, cfg), normalize)
  {
  }

  /** Unnormalised, raw score 15 and a full penalty of 50: the score drops to -35. */
  lemma RawScorePenaltyExample()
    ensures ApplyPenalty(EvaluationReport(15.0, Some(15.0), Some(15.0), None, None),
                         Penalty(15, LengthPenalty(5, 10, 50.0, 1, None, All)), false).score == -35.0
  {
  }

  /** Normalised, score 1 and a full penalty of 0.5: the score drops to 0.5. */
  lemma NormalizedPenaltyExample()
    ensures ApplyPenalty(EvaluationReport(1.0, Some(15.0), Some(15.0), None, None),
                         Penalty(15, LengthPenalty(5, 10, 0.5, 1, None, All)), true).score == 0.5
  {
  }

  /** A positive or a negative cap penalty of the same size costs the same. */
  lemma PenaltySignIrrelevant(report: EvaluationReport, p: real, normalize: bool)
    ensures ApplyPenalty(report, p, normalize) == ApplyPenalty(report, -p, normalize)
  {
  }
}
