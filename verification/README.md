# Rubric grading core, in Dafny

This project models the scoring and reconciliation core of the `rubric` library. The library grades a
free-text response against a weighted rubric of natural-language criteria, with a language model as
the judge. The model covers:

- the shared aggregation of MET/UNMET verdicts into a weighted sum and a normalised score, including
  mixed-polarity, all-negative and zero-weight rubrics;
- the four judging strategies:
  - per-criterion: one judge call per criterion;
  - one-shot: a single call whose numbered answers are matched back to the rubric;
  - double-pass: two one-shot calls, the second over the reversed rubric, merged conservatively by
    polarity;
  - rubric-as-judge: one holistic 0-100 score, rescaled onto the weighted-sum scale;
- the length penalty curve and how `grade` applies it;
- the rebuilding of a thinking/output submission into the judge's input string;
- `Rubric.validate_and_create_criteria`, which turns the accepted rubric shapes into an ordered
  criterion list or an indexed error;
- `Rubric.grade`, which delegates to the chosen grader.

The judge is a function parameter of each strategy (`Generate`), applied to a request that carries
what the prompt is built from. The request holds the criterion numbers, polarities, weights,
requirements, the optional query and the response. It does not hold the prompt wording. The double-pass judge is also given which of its two calls it answers. Concurrent
fan-out (`asyncio.gather`) is an order-preserving sequential map. Parsed YAML/JSON is the `Json`
datatype. The three per-criterion source files carry identical copies of `aggregate`
(src/rubric/autograders/per_criterion_grader.py:183-215,
src/rubric/autograders/per_criterion_one_shot_grader.py:176-208 and
src/rubric/autograders/double_pass_per_criterion_one_shot_grader.py:135-167); the model defines it once, as the
functional `Scoring.Aggregate` and the loop-based `Scoring.RunningAggregate` proved equal to it.

Modules: `Wrappers` (Option/Result), `Types` (src/rubric/types.py), `Schemas`
(src/rubric/autograders/schemas.py), `LengthPenalties`, `Scoring`, `PerCriterionGrader`,
`OneShotGrader`, `DoublePassGrader`, `RubricAsJudgeGrader`, `Autograders`
(src/rubric/autograders/base.py), `Rubrics` (src/rubric/rubric.py).

Details of the source the model follows:

- The penalty is applied as score minus the penalty's magnitude whatever its sign
  (src/rubric/autograders/base.py:129). It is floored at 0 only when normalising.
- A thinking/output submission is rebuilt with a newline between the two blocks, and an empty
  section is omitted (src/rubric/autograders/base.py:110-115).
- In the double-pass merge, an UNMET verdict with no UNMET pass falls back to pass 1's entry, else
  pass 2's (src/rubric/autograders/double_pass_per_criterion_one_shot_grader.py:119-122). So a
  positive criterion MET in one pass and missing from the other keeps that MET explanation.
- None of the three `aggregate` methods sets `error`; the model's reports always have `error == None`.

## Model

| member | source | states |
|---|---|---|
| `Types.PolarityOf` | src/rubric/autograders/per_criterion_grader.py:147 | A criterion is negative exactly when its weight is below 0; weight 0 is positive. |
| `Types.Present` | src/rubric/autograders/per_criterion_one_shot_grader.py:114-124 | One listing per criterion, in rubric order, numbered from 1, with that criterion's polarity, weight and requirement. |
| `Types.Reverse` | src/rubric/autograders/double_pass_per_criterion_one_shot_grader.py:79 | The reversed rubric has the same length and holds element n-1-i at position i. |
| `LengthPenalties.CountedLength` | src/rubric/types.py:75-78 | OUTPUT_ONLY measures the output, THINKING_ONLY the thinking, ALL both sections. |
| `LengthPenalties.Penalty` | src/rubric/types.py:57-59 | No penalty up to the free budget, and the full cap penalty from the cap on. |
| `LengthPenalties.PenaltyFollowsCurve` | src/rubric/types.py:60 | Strictly between budget and cap, the penalty is the cap penalty times the progress fraction raised to the exponent. |
| `LengthPenalties.Ratio` | src/rubric/types.py:60 | For a count strictly between budget and cap, the progress fraction lies strictly between 0 and 1. |
| `LengthPenalties.RatioMonotone` | src/rubric/types.py:60 | A larger count strictly between budget and cap has a progress fraction at least as large. |
| `LengthPenalties.PowInOpenUnit` | src/rubric/types.py:60 | A positive power of a fraction strictly inside (0, 1) stays strictly inside (0, 1). |
| `LengthPenalties.PowMonotone` | src/rubric/types.py:57-60 | On [0, 1] the curve's power is monotone in its base and stays in [0, 1], which is what makes the penalty grow with the count. |
| `LengthPenalties.PowAntitoneInExponent` | src/rubric/types.py:71 | On [0, 1] a larger exponent never gives a larger power. |
| `LengthPenalties.HigherExponentMoreLenient` | src/rubric/types.py:71 | Raising the exponent, all else equal, never raises the penalty at any count: a higher exponent is more lenient. |
| `LengthPenalties.CurveMeetsEnds` | src/rubric/types.py:57-60 | The curve gives 0 at the free budget and the cap penalty at the cap, so the three cases of the formula join up. |
| `LengthPenalties.DefaultPenaltyBounds` | src/rubric/types.py:110-115 | With the default budget 6000, cap 8000, cap penalty 0.5 and type ALL, up to 6000 words cost nothing, from 8000 on the cost is 0.5, and every cost lies in [0, 0.5], whatever the exponent. |
| `LengthPenalties.InteriorPenaltyBetween` | src/rubric/types.py:57-60 | Strictly between budget and cap, a positive cap penalty is charged strictly partially. |
| `LengthPenalties.PenaltyWithinCap` | src/rubric/types.py:68-70 | A non-negative cap penalty bounds every penalty, and no penalty is negative. |
| `LengthPenalties.PenaltyMonotone` | src/rubric/types.py:57-60 | A longer submission is never penalised less. |
| `LengthPenalties.HalfwayIsHalf` | src/rubric/types.py:60 | With a linear curve, the midpoint of budget and cap costs half the cap penalty. |
| `LengthPenalties.HalfwayExample` | tests/autograders/test_length_penalty.py:40-45 | Budget 100, cap 200, cap penalty 50: 150 words cost 25. |
| `Scoring.Clamp01` | src/rubric/autograders/per_criterion_grader.py:198 | The result is in [0, 1], unchanged inside it, 0 below and 1 above. |
| `Scoring.Aggregate` | src/rubric/autograders/per_criterion_grader.py:183-215 | The raw and LLM raw scores are the weighted sum, the report is the judge results unchanged, a normalised score is in [0, 1], an unnormalised one is the weighted sum. |
| `Scoring.RunningAggregate` | src/rubric/autograders/per_criterion_grader.py:183-215 | The three running sums and the normalisation chain compute exactly the functional aggregation. |
| `Scoring.SumBounds` | src/rubric/autograders/per_criterion_grader.py:186-192 | Both weight totals are non-negative, and the weighted sum lies between minus the negative total and the positive total. |
| `Scoring.ZeroPositiveTotalMeansNoPositive` | src/rubric/autograders/per_criterion_grader.py:186 | A zero positive total means no criterion has positive weight. |
| `Scoring.NonNegativePositiveTotal` | src/rubric/autograders/per_criterion_grader.py:186 | The positive total is never negative. |
| `Scoring.PositiveRubricScore` | src/rubric/autograders/per_criterion_grader.py:197-198 | With positive weight present, the score is the weighted sum over the positive total, clamped. |
| `Scoring.AllNegativeScore` | src/rubric/autograders/per_criterion_grader.py:199-204 | For an all-negative rubric the score is 1 plus the weighted sum over the negative total, already within [0, 1] without clamping. |
| `Scoring.ZeroWeightScore` | src/rubric/autograders/per_criterion_grader.py:205-206 | With no non-zero weight, the normalised score is 0. |
| `Scoring.NothingMetSum` | src/rubric/autograders/per_criterion_grader.py:190-192 | When nothing is MET the weighted sum is 0. |
| `Scoring.EverythingMetSum` | src/rubric/autograders/per_criterion_grader.py:186-192 | When everything is MET the weighted sum is the positive total minus the negative total. |
| `Scoring.AllNegativeNothingMet` | tests/autograders/test_per_criterion_grader_class.py:81-98 | All-negative rubric with every criterion UNMET: score 1, raw score 0. |
| `Scoring.AllNegativeEverythingMet` | tests/autograders/test_per_criterion_grader_class.py:103-120 | All-negative rubric with every criterion MET: score 0, raw score minus the negative total. |
| `Scoring.SumAfterUpdate` | src/rubric/autograders/per_criterion_grader.py:190-192 | Replacing one report changes the weighted sum by exactly the difference of the two credits. |
| `Scoring.TotalsAfterUpdate` | src/rubric/autograders/per_criterion_grader.py:186-189 | Changing a report's verdict leaves the weight totals unchanged. |
| `Scoring.NormalizedMonotone` | src/rubric/autograders/per_criterion_grader.py:196-206 | For fixed totals, normalisation never reverses the order of two weighted sums. |
| `Scoring.FlipMonotone` | src/rubric/autograders/per_criterion_grader.py:190-208 | Turning an UNMET criterion MET never lowers the score if it is positive and never raises it if it is negative, normalised or not. |
| `Scoring.OneOfThreeNegativesExample` | tests/autograders/test_per_criterion_grader_class.py:125-150 | One of three weight -1 criteria MET: score 2/3, raw score -1. |
| `Scoring.OneOfThreeMetScore` | src/rubric/autograders/per_criterion_grader.py:190-198 | Three weight 1 criteria with only one MET score 1/3. |
| `Scoring.MixedRubricExample` | src/rubric/autograders/per_criterion_grader.py:186-198 | Weights 2, 1, 1 MET and -0.5 UNMET: raw score 4, score 1. |
| `PerCriterionGrader.RequestFor` | src/rubric/autograders/per_criterion_grader.py:147-161 | The request is labelled negative exactly for negative weight and carries the requirement, query and response. |
| `PerCriterionGrader.JudgeSingle` | src/rubric/autograders/per_criterion_grader.py:144-173 | The report keeps the criterion's weight and requirement and takes the judge's verdict and explanation. |
| `PerCriterionGrader.Judge` | src/rubric/autograders/per_criterion_grader.py:175-181 | One report per criterion, in rubric order, each judged independently of the others. |
| `PerCriterionGrader.JudgeAppend` | src/rubric/autograders/per_criterion_grader.py:175-181 | Judging a concatenated rubric is concatenating the judgements, so no criterion's result depends on the others. |
| `OneShotGrader.KeyedMap` | src/rubric/autograders/per_criterion_one_shot_grader.py:145-147 | Every answer's key is present in the map. |
| `OneShotGrader.LastNumbered` | src/rubric/autograders/per_criterion_one_shot_grader.py:145-147 | Nothing is found exactly when no answer has that number; otherwise the answer found has that number and no later answer does. |
| `OneShotGrader.KeyedLookup` | src/rubric/autograders/per_criterion_one_shot_grader.py:145-152 | Looking up the dict built with an injective key finds the last answer with that number. |
| `OneShotGrader.InOrderLookup` | src/rubric/autograders/per_criterion_one_shot_grader.py:145-152 | When the answers are numbered 1, 2, 3, ... in order, the lookup for number p finds the p-th answer. |
| `OneShotGrader.ReportAt` | src/rubric/autograders/per_criterion_one_shot_grader.py:152-172 | A found answer supplies verdict and explanation; a missing one gives UNMET with the not-found reason; the criterion is kept. |
| `OneShotGrader.Reconcile` | src/rubric/autograders/per_criterion_one_shot_grader.py:144-174 | The i-th report is built from the last answer numbered i+1, in rubric order. |
| `OneShotGrader.Judge` | src/rubric/autograders/per_criterion_one_shot_grader.py:111-174 | One report per criterion, in rubric order, keeping each criterion. Report i is built from the last answer the judge gave for number i + 1, or is UNMET when there is none. |
| `OneShotGrader.MissingEntryIsUnmet` | src/rubric/autograders/per_criterion_one_shot_grader.py:163-172 | A criterion with no answer is UNMET with the not-found reason. |
| `OneShotGrader.LaterEntryWins` | src/rubric/autograders/per_criterion_one_shot_grader.py:145-147 | An appended answer for an in-range number overrides any earlier one for that criterion, and every other criterion's report stays as it was. |
| `OneShotGrader.OutOfRangeIgnored` | src/rubric/autograders/per_criterion_one_shot_grader.py:145-152 | An answer numbered outside 1..n has no effect on the reports. |
| `DoublePassGrader.Mirror` | src/rubric/autograders/double_pass_per_criterion_one_shot_grader.py:97-101 | n-k+1 maps 1..n onto itself and is its own inverse. |
| `DoublePassGrader.MirrorInjective` | src/rubric/autograders/double_pass_per_criterion_one_shot_grader.py:97-101 | Distinct pass-2 numbers land on distinct original positions. |
| `DoublePassGrader.ReversedListingMirrors` | src/rubric/autograders/double_pass_per_criterion_one_shot_grader.py:79-101 | The criterion listed k-th in pass 2 is original criterion n-k+1. |
| `DoublePassGrader.FirstSayingPair` | src/rubric/autograders/double_pass_per_criterion_one_shot_grader.py:119-122 | The fallback search picks the first pass with the verdict, else the default. |
| `DoublePassGrader.Merge` | src/rubric/autograders/double_pass_per_criterion_one_shot_grader.py:109-128 | Positive: MET iff both passes say MET. Negative: MET iff either does. The explanation comes from the MET pass, else the first UNMET pass, else pass 1, else pass 2, else the not-found reason. |
| `DoublePassGrader.AgreementKeepsPass1` | src/rubric/autograders/double_pass_per_criterion_one_shot_grader.py:116-122 | When both passes agree, the verdict is theirs and the explanation pass 1's. |
| `DoublePassGrader.MergedReport` | src/rubric/autograders/double_pass_per_criterion_one_shot_grader.py:124-131 | The report keeps the criterion and carries the merge by that criterion's polarity. |
| `DoublePassGrader.Reconcile` | src/rubric/autograders/double_pass_per_criterion_one_shot_grader.py:90-133 | The i-th report merges pass 1's last answer numbered i+1 with pass 2's last answer numbered n-i. |
| `DoublePassGrader.Judge` | src/rubric/autograders/double_pass_per_criterion_one_shot_grader.py:75-133 | One report per criterion, in rubric order, keeping each criterion. Pass 1 is asked about the rubric and pass 2 about it reversed. Report i merges pass 1's last answer for number i + 1 with pass 2's last answer for the mirrored number n - i. |
| `DoublePassGrader.SingleCriterionDisagreement` | tests/autograders/test_double_pass_per_criterion_one_shot_grader.py:116-154 | One positive criterion, pass 1 saying MET and pass 2 UNMET: the verdict is UNMET with pass 2's explanation. |
| `DoublePassGrader.PositiveNeedsBothPasses` | src/rubric/autograders/double_pass_per_criterion_one_shot_grader.py:109-114 | A positive criterion is MET iff both passes answered MET for it. |
| `DoublePassGrader.NegativeNeedsOnePass` | src/rubric/autograders/double_pass_per_criterion_one_shot_grader.py:109-114 | A negative criterion is MET iff at least one pass answered MET for it. |
| `DoublePassGrader.AgreeingPassesMatchOneShot` | src/rubric/autograders/double_pass_per_criterion_one_shot_grader.py:90-133 | When pass 2 agrees with pass 1 on every criterion, double-pass reconciliation equals one-shot reconciliation of pass 1. |
| `DoublePassGrader.ThreePositiveExample` | tests/autograders/test_double_pass_per_criterion_one_shot_grader.py:55-110 | For any three positive criteria and in-order passes saying MET/MET/UNMET and, reversed, UNMET/MET/UNMET, the verdicts are UNMET, MET, UNMET, the first with the explanation pass 2 gave it. |
| `DoublePassGrader.ThreePositiveScore` | tests/autograders/test_double_pass_per_criterion_one_shot_grader.py:111-112 | With all three weights 1, that example scores 1/3. |
| `RubricAsJudgeGrader.WeightTotals` | src/rubric/autograders/rubric_as_judge_grader.py:110-118 | The judge's running totals equal the shared positive and negative weight totals. |
| `RubricAsJudgeGrader.Judge` | src/rubric/autograders/rubric_as_judge_grader.py:103-153 | The result carries the judge's holistic score and the rubric's two weight totals. |
| `RubricAsJudgeGrader.Aggregate` | src/rubric/autograders/rubric_as_judge_grader.py:155-190 | The LLM raw score is the holistic score, the raw score its rescaling, there is no report, and the normalised score is the holistic score over 100, clamped. |
| `RubricAsJudgeGrader.SyntheticRawInSumRange` | src/rubric/autograders/rubric_as_judge_grader.py:166-178 | For a 0-100 score the rescaled raw score lies in the range of weighted sums the rubric allows. |
| `RubricAsJudgeGrader.RescaleAgreesWithSharedNormalization` | src/rubric/autograders/rubric_as_judge_grader.py:166-183 | Normalising the rescaled raw score the shared way gives back the holistic score's normalised value. |
| `RubricAsJudgeGrader.NormalizedIgnoresWeights` | src/rubric/autograders/rubric_as_judge_grader.py:180-181 | The normalised score depends on the holistic score only. |
| `RubricAsJudgeGrader.PositiveExample` | tests/autograders/test_rubric_as_judge_grader.py:20-40 | Holistic 85 over positive weight 15: raw score 12.75, score 0.85. |
| `RubricAsJudgeGrader.AllNegativeEndpoints` | src/rubric/autograders/rubric_as_judge_grader.py:171-176 | For an all-negative rubric, 100 rescales to 0 and 0 to minus the negative total. |
| `Autograders.JudgeInput` | src/rubric/autograders/base.py:103-115 | A string is judged as is. A dict gives a thinking block and an output block, each only when non-empty, joined by a newline when both exist. |
| `Autograders.EmptyPartsGiveEmptyInput` | src/rubric/autograders/base.py:110-115 | A dict with both sections empty or missing is judged as the empty string. |
| `Autograders.JudgeAndAggregate` | src/rubric/autograders/base.py:118-119 | A normalised score is in [0, 1], an unnormalised one is the raw score, and only rubric-as-judge lacks a per-criterion report. Reports keep rubric order. |
| `Autograders.ApplyPenalty` | src/rubric/autograders/base.py:128-134 | The score drops by the penalty's magnitude, floored at 0 when normalising. The raw score and report are kept; the LLM raw score and error are dropped. |
| `Autograders.Grade` | src/rubric/autograders/base.py:77-136 | Without a penalty the aggregated report is returned unchanged. A penalty never raises the score and leaves the raw score and report alone. Normalised scores stay in [0, 1]. |
| `Autograders.NewGraderAsWritten` | src/rubric/autograders/per_criterion_grader.py:133-142 | The constructor refuses a length penalty, and every grader it builds has none. |
| `Autograders.PenaltyUnreachableAsWritten` | src/rubric/autograders/base.py:121-136 | Through the strategy constructors as written, `grade` never applies a penalty. |
| `Autograders.PenaltyConfigurationRefusedAsWritten` | tests/autograders/test_length_penalty.py:88-98 | The tests' penalised grader cannot be constructed as written. |
| `Autograders.NewGrader` | src/rubric/autograders/base.py:37-49 | The intended constructor keeps strategy, normalisation and length penalty. |
| `Autograders.NewGraderAppliesPenalty` | src/rubric/autograders/base.py:121-134 | With the intended constructor, the measured penalty is subtracted from the aggregated report. |
| `Autograders.RawScorePenaltyExample` | tests/autograders/test_length_penalty.py:140-155 | Unnormalised raw score 15 with a full penalty of 50 gives -35. |
| `Autograders.NormalizedPenaltyExample` | tests/autograders/test_length_penalty.py:88-105 | Normalised score 1 with a full penalty of 0.5 gives 0.5. |
| `Autograders.PenaltySignIrrelevant` | src/rubric/autograders/base.py:129 | A penalty and its negation cost the same. |
| `Rubrics.TopLevelItems` | src/rubric/rubric.py:57-76 | A "rubric" key is unwrapped once, and a "rubric" key inside it is not unwrapped again. An object left over must hold a "sections" list, or fails with a missing key or a non-list. Anything else must be a list. |
| `Rubrics.Expand` | src/rubric/rubric.py:83-97 | A top-level item must be an object. Its "criteria" list, if present, is spliced in; otherwise the item itself is kept. |
| `Rubrics.Flatten` | src/rubric/rubric.py:81-97 | Succeeds iff every top-level item is accepted; otherwise the error names the first rejected item's index. |
| `Rubrics.FlattenAppend` | src/rubric/rubric.py:81-97 | Flattening accepted items preserves their relative order: it distributes over concatenation. |
| `Rubrics.FlattenPlain` | src/rubric/rubric.py:96-97 | Objects without "criteria" pass through unchanged, in order. |
| `Rubrics.FieldProblems` | src/rubric/rubric.py:110-119 | The failing fields are listed in declaration order, each at most once: weight when it is missing or not a number, requirement when it is missing or not a string. |
| `Rubrics.CriterionFrom` | src/rubric/rubric.py:111 | The criterion takes the entry's weight and requirement; other keys are ignored. |
| `Rubrics.CreateCriteria` | src/rubric/rubric.py:102-123 | Succeeds iff every entry is valid, with one criterion per entry in order. Otherwise the error names the first bad entry's flattened index. |
| `Rubrics.ValidateAndCreateCriteria` | src/rubric/rubric.py:46-123 | Loading succeeds exactly when the top-level shape is right, every item flattens, at least one entry results and every entry is valid. Otherwise the first error in that order is raised: shape, item, "no criteria", then the first invalid entry. On success the criteria match the flattened entries one for one. |
| `Rubrics.ShapesAgree` | src/rubric/rubric.py:51-55 | A flat list, a list holding one section, a "sections" object and that object under "rubric" yield the same result. |
| `Rubrics.OneLevelOnly` | src/rubric/rubric.py:88-97 | A nested "criteria" inside a section is not spliced again: that entry is validated as a criterion and fails on both fields at flattened index 0. |
| `Rubrics.EmptySectionHasNoCriteria` | src/rubric/rubric.py:99-100 | A lone section with an empty criteria list gives "no criteria". |
| `Rubrics.DefaultAutograder` | src/rubric/rubric.py:41-42 | Without a grader, per-criterion judging is used, normalised and without penalty. |
| `Rubrics.Grade` | src/rubric/rubric.py:25-43 | A given grader grades exactly this rubric's criteria. Without one, the score is in [0, 1] and the raw score is the weighted sum of the reports. Reports keep rubric order. |

## Findings

| source | as written | input that shows it | evidently intended | confidence | as-written member | corrected member |
|---|---|---|---|---|---|---|
| src/rubric/autograders/per_criterion_grader.py:133-140 | The four strategy constructors accept only `system_prompt` and `normalize` besides the judge. They call the base constructor with `normalize` alone. | `PerCriterionGrader(generate_fn=g, normalize=True, length_penalty=LengthPenalty(free_budget=5, max_cap=10, penalty_at_cap=0.5))`, as in tests/autograders/test_length_penalty.py:88-98, is refused. No grader built by these constructors ever reaches the penalty branch of `grade`. | The constructors take `length_penalty` and forward it, so `grade` subtracts the penalty. | not executed | `Autograders.PenaltyUnreachableAsWritten` | `Autograders.NewGraderAppliesPenalty` |

The same constructor shape appears at src/rubric/autograders/per_criterion_one_shot_grader.py:100-107,
src/rubric/autograders/double_pass_per_criterion_one_shot_grader.py:33-40 and
src/rubric/autograders/rubric_as_judge_grader.py:92-99. The rest of the model builds graders with the
corrected `Autograders.NewGrader`, or with the `Autograder` datatype directly.

## Left out

- Calls to the language model, the Gemini client and `generate` (src/rubric/utils.py:23-35, src/rubric/autograders/base.py:51-55): the judge is a function parameter.
- Prompt text and system prompts: requests carry only the data the prompts are built from.
- Concurrency (`asyncio.gather`): modelled as an order-preserving sequential map.
- PerCriterionGrader.Judge and OneShotGrader.Judge: the judge is a pure function of its request, so identical requests (two equal criteria, say) always get identical answers. A judge with state or randomness is not modelled. The double-pass judge is also told which pass it answers, which stands in for whatever makes its two calls differ.
- `Rubric.from_yaml`, `from_json`, `from_file` and `from_dict`: file access and the YAML/JSON parsers. Validation is modelled over the already-parsed `Json` value.
- `parse_json_to_dict` (src/rubric/utils.py:9-20): regular-expression cleanup before JSON parsing.
- Retries and fallback verdicts (`max_retries`, `default_fallback_verdicts`): declared on the base class, but no strategy uses them.
- The tests' string, float and alternative-key criterion numbers, and "Error parsing judge response": that parsing is not in the strategy code. Criterion numbers are integers here.
- Pydantic coercion (a numeric string or a boolean accepted as a weight, for instance) and the Python type names in error messages. A weight must be a `JNumber` and a requirement a `JString`. A non-string key (the "Failed to create criterion" path) cannot occur, because `Json` object keys are strings.
- `compute_length_penalty`, `normalize_to_grade_input` and `word_count` are imported but are not part of this model. The counter is a parameter, and so is the splitting of a plain string into thinking and output sections.
- LengthPenalties.CountedLength: under ALL, the model counts the two sections separately and adds the counts. A counter applied to a concatenation of the sections may count differently at the seam.
- LengthPenalties.Penalty: the exponent is a natural number, because Dafny's reals have no fractional powers. The default exponent 1.6 is therefore not modelled, and the curve's bounds and monotonicity are proved for natural exponents only.
- Floating point: weights and scores are exact reals, so rounding is not modelled.
- The report a failed grading would carry: the documentation says the score defaults to 0.0, but the field has no default and no grader in src/rubric/autograders builds such a report.
- `Autograders.Grade` is given a `Submission`, as the base class accepts. `Rubric.grade` annotates its input as a string only.
- `EvaluationReport` defaults and pydantic's `frozen` configuration: every field is given explicitly here.
