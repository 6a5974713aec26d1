/**
 * The one-shot grader (src/rubric/autograders/per_criterion_one_shot_grader.py): one judge
 * call evaluates the whole numbered rubric, and its entries are matched back to rubric
 * positions by number.
 */
module OneShotGrader {
  import opened Wrappers
  import opened Types
  import opened Schemas
  import Scoring

  /** What the batch judge is told: the numbered, labelled criteria, the query and the response. */
  datatype Request = Request(criteria: seq<Listed>, query: Option<string>, response: string)

  /** The injected judge: from a request to a validated one-shot answer. */
  type Generate = Request -> OneShotOutput

  /**
   * A dict comprehension `{key(e.criterion_number): e for e in evals}`: entries are inserted in
   * order, so a later entry replaces an earlier one with the same key.
   */
  function KeyedMap(evals: seq<CriterionEvaluation>, key: int -> int): (m: map<int, CriterionEvaluation>)
    ensures forall i :: 0 <= i < |evals| ==> key(evals[i].criterionNumber) in m
  {
    if |evals| == 0 then map[]
    else
      var last := evals[|evals| - 1];
      KeyedMap(evals[..|evals| - 1], key)[key(last.criterionNumber) := last]
  }

  /** The entry a lookup by number should find: the last one carrying that number, if any. */
  function LastNumbered(evals: seq<CriterionEvaluation>, k: int): (r: Option<CriterionEvaluation>)
    ensures r.None? <==> forall i :: 0 <= i < |evals| ==> evals[i].criterionNumber != k
    ensures r.Some? ==> r.value.criterionNumber == k
    ensures r.Some? ==> exists i :: (0 <= i < |evals| && evals[i] == r.value &&
      forall j :: i < j < |evals| ==> evals[j].criterionNumber != k)
  {
    if |evals| == 0 then None
    else if evals[|evals| - 1].criterionNumber == k then Some(evals[|evals| - 1])
    else
      var r := LastNumbered(evals[..|evals| - 1], k);
      assert forall i :: 0 <= i < |evals| - 1 ==> evals[..|evals| - 1][i] == evals[i];
      r
  }

  /** Keying by an injective function finds, at `key(k)`, exactly the last entry numbered `k`. */
  lemma {:induction false} KeyedLookup(evals: seq<CriterionEvaluation>, key: int -> int, k: int)
    requires forall a, b :: key(a) == key(b) ==> a == b
    ensures Get(KeyedMap(evals, key), key(k)) == LastNumbered(evals, k)
  {
    if |evals| > 0 {
      KeyedLookup(evals[..|evals| - 1], key, k);
    }
  }

  /** A response that numbers its entries 1, 2, 3, ... in order. */
  predicate InOrder(evals: seq<CriterionEvaluation>)
  {
    forall i :: 0 <= i < |evals| ==> evals[i].criterionNumber == i + 1
  }

  /** In an in-order response the entry numbered `p` is the `p`-th one. */
  lemma InOrderLookup(evals: seq<CriterionEvaluation>, p: int)
    requires InOrder(evals) && 1 <= p <= |evals|
    ensures LastNumbered(evals, p) == Some(evals[p - 1])
  {
    var r := LastNumbered(evals, p);
    assert evals[p - 1].criterionNumber == p;
    var i :| 0 <= i < |evals| && evals[i] == r.value && forall j :: i < j < |evals| ==> evals[j].criterionNumber != p;
    assert evals[i].criterionNumber == i + 1;
  }

  /** The identity key of the pass-1 map. */
  function Identity(k: int): int { k }

  /** `EvaluationMap`: the response entries keyed by their own number. */
  function EvaluationMap(evals: seq<CriterionEvaluation>): map<int, CriterionEvaluation>
  {
    KeyedMap(evals, Identity)
  }

  /** The report for a rubric criterion given the entry found for its position, if any. */
  function ReportAt(c: Criterion, found: Option<CriterionEvaluation>): (r: CriterionReport)
    ensures CriterionOf(r) == c
    ensures found.Some? ==> r.verdict == found.value.criterionStatus && r.reason == found.value.explanation
    ensures found.None? ==> r.verdict == Unmet && r.reason == NotFoundReason
  {
    match found
    case Some(e) => ReportFor(c, e.criterionStatus, e.explanation)
    case None => ReportFor(c, Unmet, NotFoundReason)
  }

  /**
   * The reconciliation half of `judge`: the criterion at 1-based position p takes the last
   * entry numbered p, or becomes UNMET when there is none; the batch never fails.
   */
  function Reconcile(rubric: seq<Criterion>, evals: seq<CriterionEvaluation>): (rs: seq<CriterionReport>)
    ensures |rs| == |rubric|
    ensures forall i :: 0 <= i < |rubric| ==> rs[i] == ReportAt(rubric[i], LastNumbered(evals, i + 1))
  {
    var evaluationMap := EvaluationMap(evals);
    var rs := seq(|rubric|, i requires 0 <= i < |rubric| => ReportAt(rubric[i], Get(evaluationMap, i + 1)));
    assert forall i :: 0 <= i < |rubric| ==> rs[i] == ReportAt(rubric[i], LastNumbered(evals, i + 1)) by {
      forall p | 1 <= p <= |rubric|
        ensures Get(evaluationMap, p) == LastNumbered(evals, p)
      {
        KeyedLookup(evals, Identity, p);
      }
    }
    rs
  }

  /** `judge`: present the numbered rubric, ask the judge once, reconcile its entries. */
  function Judge(toGrade: string, rubric: seq<Criterion>, query: Option<string>, generate: Generate): (rs: seq<CriterionReport>)
    ensures |rs| == |rubric|
    ensures forall i :: 0 <= i < |rubric| ==> CriterionOf(rs[i]) == rubric[i]
    ensures var answer := generate(Request(Present(rubric), query, toGrade)).criteriaEvaluations;
      forall i :: 0 <= i < |rubric| ==> rs[i] == ReportAt(rubric[i], LastNumbered(answer, i + 1))
  {
    var result := generate(Request(Present(rubric), query, toGrade));
    Reconcile(rubric, result.criteriaEvaluations)
  }

  /** A position no entry is numbered with becomes UNMET with the not-found reason; the others are unaffected. */
  lemma MissingEntryIsUnmet(rubric: seq<Criterion>, evals: seq<CriterionEvaluation>, i: nat)
    requires i < |rubric|
    requires forall j :: 0 <= j < |evals| ==> evals[j].criterionNumber != i + 1
    ensures Reconcile(rubric, evals)[i] == CriterionReport(rubric[i].weight, rubric[i].requirement, Unmet, NotFoundReason)
  {
  }

  /**
   * An entry numbered p is attached to position p, overriding every earlier entry numbered p;
   * every other position keeps the report it had.
   */
  lemma LaterEntryWins(rubric: seq<Criterion>, evals: seq<CriterionEvaluation>, e: CriterionEvaluation)
    requires 1 <= e.criterionNumber <= |rubric|
    ensures var rs := Reconcile(rubric, evals + [e]);
      rs[e.criterionNumber - 1].verdict == e.criterionStatus && rs[e.criterionNumber - 1].reason == e.explanation
    ensures forall i :: 0 <= i < |rubric| && i != e.criterionNumber - 1 ==>
      Reconcile(rubric, evals + [e])[i] == Reconcile(rubric, evals)[i]
  {
    var all := evals + [e];
    assert all[|all| - 1] == e;
    assert all[..|all| - 1] == evals;
    var a, b := Reconcile(rubric, all), Reconcile(rubric, evals);
    forall i | 0 <= i < |rubric| && i != e.criterionNumber - 1
      ensures a[i] == b[i]
    {
      assert LastNumbered(all, i + 1) == LastNumbered(evals, i + 1);
    }
  }

  /** An entry numbered outside 1..n changes nothing. */
  lemma OutOfRangeIgnored(rubric: seq<Criterion>, evals: seq<CriterionEvaluation>, e: CriterionEvaluation)
    requires e.criterionNumber < 1 || e.criterionNumber > |rubric|
    ensures Reconcile(rubric, evals + [e]) == Reconcile(rubric, evals)
  {
    var all := evals + [e];
    assert all[..|all| - 1] == evals;
    var a, b := Reconcile(rubric, all), Reconcile(rubric, evals);
    forall i | 0 <= i < |rubric|
      ensures a[i] == b[i]
    {
      assert LastNumbered(all, i + 1) == LastNumbered(evals, i + 1);
    }
  }
}
