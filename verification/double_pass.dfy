/**
 * The double-pass one-shot grader (src/rubric/autograders/double_pass_per_criterion_one_shot_grader.py):
 * the one-shot judge runs on the rubric and on the reversed rubric, and the two answers are
 * merged conservatively per criterion. The two concurrent calls are two separate judge calls:
 * the judge is told which pass it answers, so the passes may disagree even on identical prompts.
 */
module DoublePassGrader {
  import opened Wrappers
  import opened Types
  import opened Schemas
  import OneShotGrader
  import Scoring

  /** Which of the two judge calls is being made. */
  datatype Pass = First | Second

  /** The injected judge: each call is identified by its pass, so the two calls are independent. */
  type Generate = (Pass, OneShotGrader.Request) -> OneShotOutput

  /** Position k of an n-criterion list read backwards is position n - k + 1 of the list. */
  function Mirror(n: int, k: int): (j: int)
    ensures 1 <= k <= n <==> 1 <= j <= n
    ensures n - j + 1 == k
  {
    n - k + 1
  }

  /** Mirroring is injective, so keying pass 2 by it loses no entry that a plain key would keep. */
  lemma MirrorInjective(n: int)
    ensures forall a, b :: Mirror(n, a) == Mirror(n, b) ==> a == b
  {
  }

  /** Line k of the reversed presentation shows criterion n - k + 1 of the rubric. */
  lemma ReversedListingMirrors(rubric: seq<Criterion>, k: int)
    requires 1 <= k <= |rubric|
    ensures var line := Present(Reverse(rubric))[k - 1];
      var c := rubric[Mirror(|rubric|, k) - 1];
      line.number == k && line.weight == c.weight && line.requirement == c.requirement &&
      (line.polarity == Negative <==> c.weight < 0.0)
  {
    var rev := Reverse(rubric);
    ReverseAt(rubric, k - 1);
    assert Mirror(|rubric|, k) - 1 == |rubric| - 1 - (k - 1);
    var line := Present(rev)[k - 1];
    assert line.number == k && line.weight == rev[k - 1].weight && line.requirement == rev[k - 1].requirement;
    assert line.polarity == Negative <==> rev[k - 1].weight < 0.0;
  }

  /** Whether a pass has an entry for the criterion and that entry says `v`. */
  predicate Says(e: Option<CriterionEvaluation>, v: Verdict)
  {
    e.Some? && e.value.criterionStatus == v
  }

  /** Python's `next((e for e in candidates if e and e.criterion_status == v), default)`. */
  function FirstSaying(candidates: seq<Option<CriterionEvaluation>>, v: Verdict, default: Option<CriterionEvaluation>): Option<CriterionEvaluation>
  {
    if |candidates| == 0 then default
    else if Says(candidates[0], v) then candidates[0]
    else FirstSaying(candidates[1..], v, default)
  }

  lemma FirstSayingPair(a: Option<CriterionEvaluation>, b: Option<CriterionEvaluation>, v: Verdict, default: Option<CriterionEvaluation>)
    ensures FirstSaying([a, b], v, default) == if Says(a, v) then a else if Says(b, v) then b else default
  {
    assert [a, b][1..] == [b] && [b][1..] == [];
    assert FirstSaying([b], v, default) == if Says(b, v) then b else FirstSaying([], v, default);
  }

  /**
   * The merge of one criterion's two entries: AND of the MET votes for a positive criterion,
   * OR for a negative one, with the explanation drawn as the source draws it.
   */
  function Merge(polarity: Polarity, pass1: Option<CriterionEvaluation>, pass2: Option<CriterionEvaluation>): (m: (Verdict, string))
    ensures polarity == Positive ==> (m.0 == Met <==> Says(pass1, Met) && Says(pass2, Met))
    ensures polarity == Negative ==> (m.0 == Met <==> Says(pass1, Met) || Says(pass2, Met))
    ensures m.0 == Met ==> m.1 == (if Says(pass1, Met) then pass1.value.explanation else pass2.value.explanation)
    ensures m.0 == Unmet ==> (m.1 ==
      if Says(pass1, Unmet) then pass1.value.explanation
      else if Says(pass2, Unmet) then pass2.value.explanation
      else if pass1.Some? then pass1.value.explanation
      else if pass2.Some? then pass2.value.explanation
      else NotFoundReason)
  {
    var pass1Met := Says(pass1, Met);
    var pass2Met := Says(pass2, Met);
    var isMet := if polarity == Negative then pass1Met || pass2Met else pass1Met && pass2Met;
    FirstSayingPair(pass1, pass2, Unmet, if pass1.Some? then pass1 else pass2);
    var source :=
      if isMet then (if pass1Met then pass1 else pass2)
      else FirstSaying([pass1, pass2], Unmet, if pass1.Some? then pass1 else pass2);
    (if isMet then Met else Unmet, if source.Some? then source.value.explanation else NotFoundReason)
  }

  /** When both passes have an entry and agree, the merge keeps that verdict and pass 1's explanation. */
  lemma AgreementKeepsPass1(polarity: Polarity, e1: CriterionEvaluation, e2: CriterionEvaluation)
    requires e1.criterionStatus == e2.criterionStatus
    ensures Merge(polarity, Some(e1), Some(e2)) == (e1.criterionStatus, e1.explanation)
  {
  }

  /** The merged report for one criterion, given the entry each pass has for it. */
  function MergedReport(c: Criterion, pass1: Option<CriterionEvaluation>, pass2: Option<CriterionEvaluation>): (r: CriterionReport)
    ensures CriterionOf(r) == c
    ensures (r.verdict, r.reason) == Merge(PolarityOf(c.weight), pass1, pass2)
  {
    var m := Merge(PolarityOf(c.weight), pass1, pass2);
    ReportFor(c, m.0, m.1)
  }

  /**
   * The reconciliation half of `judge`: pass 1 is keyed by entry number, pass 2 by the mirrored
   * number, and each rubric position merges the last entry each pass has for it.
   */
  function Reconcile(rubric: seq<Criterion>, evals1: seq<CriterionEvaluation>, evals2: seq<CriterionEvaluation>): (rs: seq<CriterionReport>)
    ensures |rs| == |rubric|
    ensures forall i :: 0 <= i < |rubric| ==>
      rs[i] == MergedReport(rubric[i], OneShotGrader.LastNumbered(evals1, i + 1),
                            OneShotGrader.LastNumbered(evals2, Mirror(|rubric|, i + 1)))
  {
    var n := |rubric|;
    var pass1Map := OneShotGrader.KeyedMap(evals1, OneShotGrader.Identity);
    var pass2Map := OneShotGrader.KeyedMap(evals2, k => Mirror(n, k));
    var rs := seq(n, i requires 0 <= i < n => MergedReport(rubric[i], Get(pass1Map, i + 1), Get(pass2Map, i + 1)));
    assert forall i :: 0 <= i < n ==>
      rs[i] == MergedReport(rubric[i], OneShotGrader.LastNumbered(evals1, i + 1), OneShotGrader.LastNumbered(evals2, Mirror(n, i + 1))) by {
      forall p | 1 <= p <= n
        ensures Get(pass1Map, p) == OneShotGrader.LastNumbered(evals1, p)
        ensures Get(pass2Map, p) == OneShotGrader.LastNumbered(evals2, Mirror(n, p))
      {
        OneShotGrader.KeyedLookup(evals1, OneShotGrader.Identity, p);
        MirrorInjective(n);
        OneShotGrader.KeyedLookup(evals2, k => Mirror(n, k), Mirror(n, p));
        assert Mirror(n, Mirror(n, p)) == p;
      }
    }
    rs
  }

  /** `judge`: ask the judge about the rubric and about its reverse, then reconcile. */
  function Judge(toGrade: string, rubric: seq<Criterion>, query: Option<string>, generate: Generate): (rs: seq<CriterionReport>)
    ensures |rs| == |rubric|
    ensures forall i :: 0 <= i < |rubric| ==> CriterionOf(rs[i]) == rubric[i]
    ensures var answer1 := generate(First, OneShotGrader.Request(Present(rubric), query, toGrade)).criteriaEvaluations;
      var answer2 := generate(Second, OneShotGrader.Request(Present(Reverse(rubric)), query, toGrade)).criteriaEvaluations;
      forall i :: 0 <= i < |rubric| ==>
        rs[i] == MergedReport(rubric[i], OneShotGrader.LastNumbered(answer1, i + 1),
                              OneShotGrader.LastNumbered(answer2, Mirror(|rubric|, i + 1)))
  {
    var resultPass1 := generate(First, OneShotGrader.Request(Present(rubric), query, toGrade));
    var resultPass2 := generate(Second, OneShotGrader.Request(Present(Reverse(rubric)), query, toGrade));
    Reconcile(rubric, resultPass1.criteriaEvaluations, resultPass2.criteriaEvaluations)
  }

  /** A positive criterion is MET only when both passes have an entry for it and both say MET. */
  lemma PositiveNeedsBothPasses(rubric: seq<Criterion>, evals1: seq<CriterionEvaluation>, evals2: seq<CriterionEvaluation>, i: nat)
    requires i < |rubric| && rubric[i].weight >= 0.0
    ensures Reconcile(rubric, evals1, evals2)[i].verdict == Met <==>
      Says(OneShotGrader.LastNumbered(evals1, i + 1), Met) &&
      Says(OneShotGrader.LastNumbered(evals2, |rubric| - i), Met)
  {
  }

  /** A negative criterion is MET as soon as either pass has an entry for it saying MET. */
  lemma NegativeNeedsOnePass(rubric: seq<Criterion>, evals1: seq<CriterionEvaluation>, evals2: seq<CriterionEvaluation>, i: nat)
    requires i < |rubric| && rubric[i].weight < 0.0
    ensures Reconcile(rubric, evals1, evals2)[i].verdict == Met <==>
      Says(OneShotGrader.LastNumbered(evals1, i + 1), Met) ||
      Says(OneShotGrader.LastNumbered(evals2, |rubric| - i), Met)
  {
  }

  /**
   * When every criterion has an entry in both passes and the passes agree on each, the double
   * pass returns exactly what the single one-shot pass 1 would have returned.
   */
  lemma AgreeingPassesMatchOneShot(rubric: seq<Criterion>, evals1: seq<CriterionEvaluation>, evals2: seq<CriterionEvaluation>)
    requires forall p :: 1 <= p <= |rubric| ==>
      OneShotGrader.LastNumbered(evals1, p).Some? && OneShotGrader.LastNumbered(evals2, Mirror(|rubric|, p)).Some? &&
      OneShotGrader.LastNumbered(evals1, p).value.criterionStatus == OneShotGrader.LastNumbered(evals2, Mirror(|rubric|, p)).value.criterionStatus
    ensures Reconcile(rubric, evals1, evals2) == OneShotGrader.Reconcile(rubric, evals1)
  {
    var a, b := Reconcile(rubric, evals1, evals2), OneShotGrader.Reconcile(rubric, evals1);
    forall i | 0 <= i < |rubric|
      ensures a[i] == b[i]
    {
      var e1 := OneShotGrader.LastNumbered(evals1, i + 1);
      var e2 := OneShotGrader.LastNumbered(evals2, Mirror(|rubric|, i + 1));
      AgreementKeepsPass1(PolarityOf(rubric[i].weight), e1.value, e2.value);
    }
  }

  /**
   * The three-criterion example: pass 1 says MET, MET, UNMET; pass 2 (reversed) says UNMET, MET,
   * UNMET. Only the second criterion is MET in both passes. The first takes pass 2's explanation,
   * pass 2 being the first to say UNMET about it.
   */
  lemma ThreePositiveExample(rubric: seq<Criterion>, evals1: seq<CriterionEvaluation>, evals2: seq<CriterionEvaluation>)
    requires |rubric| == 3 && rubric[0].weight >= 0.0 && rubric[1].weight >= 0.0 && rubric[2].weight >= 0.0
    requires |evals1| == 3 && |evals2| == 3 && OneShotGrader.InOrder(evals1) && OneShotGrader.InOrder(evals2)
    requires evals1[0].criterionStatus == Met && evals1[1].criterionStatus == Met && evals1[2].criterionStatus == Unmet
    requires evals2[0].criterionStatus == Unmet && evals2[1].criterionStatus == Met && evals2[2].criterionStatus == Unmet
    ensures var rs := Reconcile(rubric, evals1, evals2);
      rs[0].verdict == Unmet && rs[1].verdict == Met && rs[2].verdict == Unmet &&
      rs[0].reason == evals2[2].explanation
  {
    OneShotGrader.InOrderLookup(evals1, 1);
    OneShotGrader.InOrderLookup(evals1, 2);
    OneShotGrader.InOrderLookup(evals1, 3);
    OneShotGrader.InOrderLookup(evals2, 1);
    OneShotGrader.InOrderLookup(evals2, 2);
    OneShotGrader.InOrderLookup(evals2, 3);
    var rs := Reconcile(rubric, evals1, evals2);
    assert Mirror(3, 1) == 3 && Mirror(3, 2) == 2 && Mirror(3, 3) == 1;
    assert rs[0] == MergedReport(rubric[0], Some(evals1[0]), Some(evals2[2]));
    assert rs[1] == MergedReport(rubric[1], Some(evals1[1]), Some(evals2[1]));
    assert rs[2] == MergedReport(rubric[2], Some(evals1[2]), Some(evals2[0]));
    assert PolarityOf(rubric[0].weight) == Positive;
    assert Says(Some(evals1[0]), Met) && !Says(Some(evals1[0]), Unmet) && Says(Some(evals2[2]), Unmet);
    AgreementKeepsPass1(PolarityOf(rubric[1].weight), evals1[1], evals2[1]);
    AgreementKeepsPass1(PolarityOf(rubric[2].weight), evals1[2], evals2[0]);
  }

  /** The same example with three criteria of weight 1 scores 1/3. */
  lemma ThreePositiveScore(rubric: seq<Criterion>, evals1: seq<CriterionEvaluation>, evals2: seq<CriterionEvaluation>)
    requires |rubric| == 3 && rubric[0].weight == 1.0 && rubric[1].weight == 1.0 && rubric[2].weight == 1.0
    requires |evals1| == 3 && |evals2| == 3 && OneShotGrader.InOrder(evals1) && OneShotGrader.InOrder(evals2)
    requires evals1[0].criterionStatus == Met && evals1[1].criterionStatus == Met && evals1[2].criterionStatus == Unmet
    requires evals2[0].criterionStatus == Unmet && evals2[1].criterionStatus == Met && evals2[2].criterionStatus == Unmet
    ensures Scoring.Aggregate(Reconcile(rubric, evals1, evals2), true).score == 1.0 / 3.0
  {
    ThreePositiveExample(rubric, evals1, evals2);
    var rs := Reconcile(rubric, evals1, evals2);
    assert rs == [rs[0], rs[1], rs[2]];
    Scoring.OneOfThreeMetScore(rs[0], rs[1], rs[2]);
  }

  /**
   * One positive criterion on which the passes disagree: pass 1 says MET, pass 2 UNMET. The
   * criterion is UNMET and takes pass 2's explanation, although both passes see the same listing.
   */
  lemma SingleCriterionDisagreement(toGrade: string, c: Criterion, query: Option<string>, reason1: string, reason2: string)
    requires c.weight >= 0.0
    ensures var generate: Generate := (pass, req) =>
        if pass == First then OneShotAnswer([CriterionEvaluation(1, Met, reason1)])
        else OneShotAnswer([CriterionEvaluation(1, Unmet, reason2)]);
      var rs := Judge(toGrade, [c], query, generate);
      rs[0].verdict == Unmet && rs[0].reason == reason2
  {
    var generate: Generate := (pass, req) =>
      if pass == First then OneShotAnswer([CriterionEvaluation(1, Met, reason1)])
      else OneShotAnswer([CriterionEvaluation(1, Unmet, reason2)]);
    var e1, e2 := CriterionEvaluation(1, Met, reason1), CriterionEvaluation(1, Unmet, reason2);
    assert OneShotGrader.LastNumbered([e1], 1) == Some(e1);
    assert OneShotGrader.LastNumbered([e2], Mirror(1, 1)) == Some(e2);
    assert Says(Some(e1), Met) && !Says(Some(e1), Unmet) && Says(Some(e2), Unmet);
  }
}
