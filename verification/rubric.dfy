/**
 * Loading a rubric from parsed data and grading with it (src/rubric/rubric.py). Parsed YAML or
 * JSON is the `Json` datatype; parsing itself and file access are outside the model.
 */
module Rubrics {
  import opened Wrappers
  import opened Types
  import opened LengthPenalties
  import Scoring
  import PerCriterionGrader
  import Autograders

  /** A parsed YAML/JSON value. Object keys are strings. */
  datatype Json =
    | JNull
    | JBool(b: bool)
    | JNumber(n: real)
    | JString(s: string)
    | JArray(elems: seq<Json>)
    | JObject(obj: map<string, Json>)

  /** The `ValueError`s `validate_and_create_criteria` raises, with the index each one names. */
  datatype RubricError =
    | SectionsNotList
    | MissingSectionsKey
    | NotAList
    | NoCriteria
    | ItemNotObject(itemIndex: nat)
    | CriteriaNotList(itemIndex: nat)
    | CriterionNotObject(criterionIndex: nat)
    | CriterionInvalid(criterionIndex: nat, fields: seq<string>)

  /**
   * The top-level list: a "rubric" key is unwrapped once; an object that remains must carry a
   * "sections" list; anything else must itself be a list.
   */
  function TopLevelItems(data: Json): (r: Result<seq<Json>, RubricError>)
    ensures data.JArray? ==> r == Success(data.elems)
    ensures !data.JArray? && !data.JObject? ==> r == Failure(NotAList)
    ensures data.JObject? && "rubric" !in data.obj && "sections" !in data.obj ==> r == Failure(MissingSectionsKey)
    ensures data.JObject? && "rubric" !in data.obj && "sections" in data.obj ==>
      r == (if data.obj["sections"].JArray? then Success(data.obj["sections"].elems) else Failure(SectionsNotList))
    ensures data.JObject? && "rubric" in data.obj && data.obj["rubric"].JArray? ==> r == Success(data.obj["rubric"].elems)
    ensures data.JObject? && "rubric" in data.obj && data.obj["rubric"].JObject? ==>
      var inner := data.obj["rubric"].obj;
      r == (if "sections" !in inner then Failure(MissingSectionsKey)
            else if inner["sections"].JArray? then Success(inner["sections"].elems)
            else Failure(SectionsNotList))
    ensures data.JObject? && "rubric" in data.obj && !data.obj["rubric"].JArray? && !data.obj["rubric"].JObject? ==>
      r == Failure(NotAList)
  {
    var unwrapped := if data.JObject? && "rubric" in data.obj then data.obj["rubric"] else data;
    if unwrapped.JObject? then
      if "sections" in unwrapped.obj then
        var sections := unwrapped.obj["sections"];
        if sections.JArray? then Success(sections.elems) else Failure(SectionsNotList)
      else Failure(MissingSectionsKey)
    else if unwrapped.JArray? then Success(unwrapped.elems)
    else Failure(NotAList)
  }

  /** A top-level item is accepted when it is an object whose "criteria" value, if any, is a list. */
  predicate ItemOk(item: Json)
  {
    item.JObject? && ("criteria" in item.obj ==> item.obj["criteria"].JArray?)
  }

  /** The error a rejected top-level item at `index` raises. */
  function ItemError(item: Json, index: nat): RubricError
  {
    if !item.JObject? then ItemNotObject(index) else CriteriaNotList(index)
  }

  /** What one top-level item contributes: its "criteria" list spliced in, or itself. */
  function Expand(item: Json, index: nat): (r: Result<seq<Json>, RubricError>)
    ensures r.Success? <==> ItemOk(item)
    ensures r.Failure? ==> r.error == ItemError(item, index)
    ensures r.Success? && "criteria" in item.obj ==> r.value == item.obj["criteria"].elems
    ensures r.Success? && "criteria" !in item.obj ==> r.value == [item]
  {
    if !item.JObject? then Failure(ItemNotObject(index))
    else if "criteria" in item.obj then
      var sectionCriteria := item.obj["criteria"];
      if sectionCriteria.JArray? then Success(sectionCriteria.elems) else Failure(CriteriaNotList(index))
    else Success([item])
  }

  /** The flattened criterion list; the first rejected item, by index, decides the error. */
  function Flatten(items: seq<Json>): (r: Result<seq<Json>, RubricError>)
    ensures r.Success? <==> forall i :: 0 <= i < |items| ==> ItemOk(items[i])
    ensures r.Failure? ==> exists i :: (0 <= i < |items| && !ItemOk(items[i]) && r.error == ItemError(items[i], i) &&
      forall j :: 0 <= j < i ==> ItemOk(items[j]))
  {
    if |items| == 0 then Success([])
    else
      var n := |items| - 1;
      var front := items[..n];
      assert forall j :: 0 <= j < n ==> front[j] == items[j];
      match Flatten(front)
      case Failure(e) => Failure(e)
      case Success(prefix) =>
        match Expand(items[n], n)
        case Failure(e) => Failure(e)
        case Success(part) => Success(prefix + part)
  }

  /** Flattening distributes over concatenation of accepted items. */
  lemma {:induction false} FlattenAppend(a: seq<Json>, b: seq<Json>)
    requires forall i :: 0 <= i < |a| ==> ItemOk(a[i])
    requires forall i :: 0 <= i < |b| ==> ItemOk(b[i])
    ensures Flatten(a + b).Success? && Flatten(a).Success? && Flatten(b).Success?
    ensures Flatten(a + b).value == Flatten(a).value + Flatten(b).value
    decreases |b|
  {
    if |b| == 0 {
      assert a + b == a;
    } else {
      var n := |b| - 1;
      assert (a + b)[..|a + b| - 1] == a + b[..n];
      assert (a + b)[|a + b| - 1] == b[n];
      FlattenAppend(a, b[..n]);
      var pa, pb := Flatten(a).value, Flatten(b[..n]).value;
      var part := Expand(b[n], n).value;
      assert Expand(b[n], |a + b| - 1).value == part;
      assert Flatten(a + b).value == Flatten(a + b[..n]).value + part;
      assert Flatten(b).value == pb + part;
    }
  }

  /** A single accepted item flattens to exactly what it contributes. */
  lemma FlattenSingle(item: Json)
    requires ItemOk(item)
    ensures Flatten([item]) == Success(Expand(item, 0).value)
  {
    assert [item][..0] == [];
    assert Flatten([item][..0]) == Success([]);
    assert [] + Expand(item, 0).value == Expand(item, 0).value;
  }

  /** Items that are objects without a "criteria" key pass through flattening unchanged, in order. */
  lemma {:induction false} FlattenPlain(items: seq<Json>)
    requires forall i :: 0 <= i < |items| ==> items[i].JObject? && "criteria" !in items[i].obj
    ensures Flatten(items) == Success(items)
  {
    if |items| > 0 {
      var n := |items| - 1;
      FlattenPlain(items[..n]);
      assert items[..n] + [items[n]] == items;
    }
  }

  /** Every flattened entry is an object whose "weight" is a number and whose "requirement" is a string. */
  predicate WeightOk(entry: map<string, Json>) { "weight" in entry && entry["weight"].JNumber? }
  predicate RequirementOk(entry: map<string, Json>) { "requirement" in entry && entry["requirement"].JString? }

  /** The fields of an object entry that fail validation, in declaration order. */
  function FieldProblems(entry: map<string, Json>): (fields: seq<string>)
    ensures "weight" in fields <==> !WeightOk(entry)
    ensures "requirement" in fields <==> !RequirementOk(entry)
    ensures |fields| == 0 <==> WeightOk(entry) && RequirementOk(entry)
    ensures |fields| <= 2 && forall i :: 0 <= i < |fields| ==> fields[i] == "weight" || fields[i] == "requirement"
    ensures forall i, j :: 0 <= i < j < |fields| ==> fields[i] == "weight" && fields[j] == "requirement"
  {
    (if WeightOk(entry) then [] else ["weight"]) + (if RequirementOk(entry) then [] else ["requirement"])
  }

  predicate EntryOk(entry: Json)
  {
    entry.JObject? && WeightOk(entry.obj) && RequirementOk(entry.obj)
  }

  /** The error a rejected flattened entry at `index` raises. */
  function EntryError(entry: Json, index: nat): RubricError
  {
    if !entry.JObject? then CriterionNotObject(index) else CriterionInvalid(index, FieldProblems(entry.obj))
  }

  /** The criterion an accepted entry builds; any other keys are ignored. */
  function CriterionFrom(entry: Json): (c: Criterion)
    requires EntryOk(entry)
    ensures JNumber(c.weight) == entry.obj["weight"] && JString(c.requirement) == entry.obj["requirement"]
  {
    Criterion(entry.obj["weight"].n, entry.obj["requirement"].s)
  }

  /** One criterion per flattened entry, in order; the first rejected entry decides the error. */
  function CreateCriteria(entries: seq<Json>): (r: Result<seq<Criterion>, RubricError>)
    ensures r.Success? <==> forall i :: 0 <= i < |entries| ==> EntryOk(entries[i])
    ensures r.Success? ==> (|r.value| == |entries| &&
      forall i :: 0 <= i < |entries| ==> r.value[i] == CriterionFrom(entries[i]))
    ensures r.Failure? ==> exists i :: (0 <= i < |entries| && !EntryOk(entries[i]) && r.error == EntryError(entries[i], i) &&
      forall j :: 0 <= j < i ==> EntryOk(entries[j]))
  {
    if |entries| == 0 then Success([])
    else
      var n := |entries| - 1;
      var front := entries[..n];
      assert forall j :: 0 <= j < n ==> front[j] == entries[j];
      match CreateCriteria(front)
      case Failure(e) => Failure(e)
      case Success(prefix) =>
        if EntryOk(entries[n]) then Success(prefix + [CriterionFrom(entries[n])])
        else Failure(EntryError(entries[n], n))
  }

  /** `validate_and_create_criteria`. */
  function ValidateAndCreateCriteria(data: Json): (r: Result<seq<Criterion>, RubricError>)
    ensures TopLevelItems(data).Failure? ==> r == Failure(TopLevelItems(data).error)
    ensures TopLevelItems(data).Success? && |TopLevelItems(data).value| == 0 ==> r == Failure(NoCriteria)
    ensures r.Success? ==> |r.value| > 0
    ensures TopLevelItems(data).Success? && Flatten(TopLevelItems(data).value).Failure? ==>
      r == Failure(Flatten(TopLevelItems(data).value).error)
    ensures TopLevelItems(data).Success? && Flatten(TopLevelItems(data).value).Success? ==>
      var entries := Flatten(TopLevelItems(data).value).value;
      r == (if |entries| == 0 then Failure(NoCriteria) else CreateCriteria(entries))
    ensures r.Success? <==> (TopLevelItems(data).Success? && Flatten(TopLevelItems(data).value).Success? &&
      var entries := Flatten(TopLevelItems(data).value).value;
      |entries| > 0 && forall i :: 0 <= i < |entries| ==> EntryOk(entries[i]))
    ensures r.Success? ==> (TopLevelItems(data).Success? && Flatten(TopLevelItems(data).value).Success? &&
      var entries := Flatten(TopLevelItems(data).value).value;
      |r.value| == |entries| && (forall i :: 0 <= i < |entries| ==> EntryOk(entries[i])) &&
      forall i :: 0 <= i < |entries| ==> r.value[i] == CriterionFrom(entries[i]))
  {
    match TopLevelItems(data)
    case Failure(e) => Failure(e)
    case Success(items) =>
      if |items| == 0 then Failure(NoCriteria)
      else
        match Flatten(items)
        case Failure(e) => Failure(e)
        case Success(flattened) =>
          if |flattened| == 0 then Failure(NoCriteria)
          else CreateCriteria(flattened)
  }

  /** A section wrapping a list of criteria, with any other keys of its own. */
  function Section(extra: map<string, Json>, criteria: seq<Json>): Json
  {
    JObject(extra["criteria" := JArray(criteria)])
  }

  /**
   * The four accepted shapes agree: a flat list, a list holding one section, an object with a
   * "sections" list, and that object under a "rubric" key yield the same result.
   */
  lemma ShapesAgree(extra: map<string, Json>, entries: seq<Json>)
    requires forall i :: 0 <= i < |entries| ==> entries[i].JObject? && "criteria" !in entries[i].obj
    ensures var sections := JArray([Section(extra, entries)]);
      var flat := ValidateAndCreateCriteria(JArray(entries));
      && ValidateAndCreateCriteria(sections) == flat
      && ValidateAndCreateCriteria(JObject(map["sections" := sections])) == flat
      && ValidateAndCreateCriteria(JObject(map["rubric" := JObject(map["sections" := sections])])) == flat
  {
    var section := Section(extra, entries);
    var sections := JArray([section]);
    var wrapped := JObject(map["sections" := sections]);
    var outer := JObject(map["rubric" := wrapped]);
    assert TopLevelItems(wrapped) == Success([section]);
    assert TopLevelItems(outer) == Success([section]);
    SameItemsSameResult(sections, wrapped);
    SameItemsSameResult(sections, outer);
    FlattenPlain(entries);
    assert Expand(section, 0) == Success(entries);
    FlattenSingle(section);
  }

  /** Validation sees the input only through its top-level items. */
  lemma SameItemsSameResult(a: Json, b: Json)
    requires TopLevelItems(a) == TopLevelItems(b)
    ensures ValidateAndCreateCriteria(a) == ValidateAndCreateCriteria(b)
  {
  }

  /**
   * Splicing is one level deep: a section's entry that itself holds "criteria" is validated as a
   * criterion, so an entry carrying only that key fails on both fields, at flattened index 0.
   */
  lemma OneLevelOnly(inner: seq<Json>)
    ensures var nested := JObject(map["criteria" := JArray(inner)]);
      ValidateAndCreateCriteria(JArray([JObject(map["criteria" := JArray([nested])])])) ==
        Failure(CriterionInvalid(0, ["weight", "requirement"]))
  {
    var nested := JObject(map["criteria" := JArray(inner)]);
    var outer := JObject(map["criteria" := JArray([nested])]);
    FlattenSingle(outer);
    assert [nested][..0] == [];
    assert FieldProblems(nested.obj) == ["weight", "requirement"];
  }

  /** A section whose criteria list is empty, alone, leaves nothing to grade. */
  lemma EmptySectionHasNoCriteria(extra: map<string, Json>)
    ensures ValidateAndCreateCriteria(JArray([Section(extra, [])])) == Failure(NoCriteria)
  {
    var section := Section(extra, []);
    FlattenSingle(section);
  }

  /** A rubric: its criteria, in order. */
  datatype Rubric = Rubric(criteria: seq<Criterion>)

  /** The autograder used when none is given: per-criterion judging, normalised, no length penalty. */
  function DefaultAutograder(generate: PerCriterionGrader.Generate): (g: Autograders.Autograder)
    ensures g.strategy.PerCriterion? && g.normalize && g.lengthPenalty.None?
  {
    Autograders.NewGrader(Autograders.PerCriterion(generate), true, None)
  }

  /**
   * `Rubric.grade`: the given grader, or the default one, grades against exactly this rubric's
   * criteria. `defaultGenerate` stands for the library's default judge.
   */
  function Grade(rubric: Rubric, toGrade: Autograders.Submission, autograder: Option<Autograders.Autograder>,
                 query: Option<string>, defaultGenerate: PerCriterionGrader.Generate,
                 split: string -> Sections, wordCount: string -> nat): (r: EvaluationReport)
    ensures autograder.Some? ==> r == Autograders.Grade(autograder.value, toGrade, rubric.criteria, query, split, wordCount)
    ensures autograder.None? ==> 0.0 <= r.score <= 1.0 && r.report.Some? && r.error == None
    ensures autograder.None? ==> r.rawScore == Some(Scoring.WeightedSum(r.report.value))
    ensures r.report.Some? ==> (|r.report.value| == |rubric.criteria| &&
      forall i :: 0 <= i < |rubric.criteria| ==> CriterionOf(r.report.value[i]) == rubric.criteria[i])
  {
    var g := if autograder.Some? then autograder.value else DefaultAutograder(defaultGenerate);
    Autograders.Grade(g, toGrade, rubric.criteria, query, split, wordCount)
  }
}
