/**
 Grading a paper and shaping one.  How quantities compare is an arbitrary input, and so is
 the reply of the grading model, of which only the lines in the rubric format matter.
 */
module Assessment {
  import opened Common
  import opened Normalization
  import opened Sorting

  datatype QuestionType = Mcq | TrueFalse | ShortAnswer | Numeric | Structured

  predicate Objective(kind: QuestionType) {
    kind == Mcq || kind == TrueFalse || kind == Numeric
  }

  type Marks = n: nat | n >= 1 witness 1

  datatype Spec = Spec(
    number: nat, kind: QuestionType, marks: Marks,
    correctOption: Option<int>, correctBoolean: Option<bool>, correctNumeric: Option<real>, unit: string, expected: string)

  datatype Response = Response(
    number: nat, chosenOption: Option<int>, booleanAnswer: Option<bool>, numericAnswer: Option<real>, unit: string, text: string)

  datatype Verdict = Verified | Refuted | NotApplicable

  // Comparison of two quantities with units, of two bare numbers, and of two texts but for letter case.
  datatype Comparison = Comparison(quantities: (Spec, Response) -> Verdict, numbers: (real, real) -> Verdict, lower: Casing)

  datatype Grade = Grade(number: nat, awarded: real, possible: Marks, correct: bool, byModel: bool, review: bool)

  // ---- grading one question without a model --------------------------------------------

  function AllOrNothing(spec: Spec, correct: bool): Grade {
    Grade(spec.number, if correct then spec.marks as real else 0.0, spec.marks, correct, false, false)
  }

  function GradeNumeric(spec: Spec, response: Response, comparison: Comparison): Grade {
    if spec.correctNumeric.None? || response.numericAnswer.None? then AllOrNothing(spec, false)
    else if |spec.unit| > 0 && |response.unit| > 0 then
      var verdict := comparison.quantities(spec, response);
      if verdict == NotApplicable then AllOrNothing(spec, false).(review := true)
      else AllOrNothing(spec, verdict == Verified)
    else AllOrNothing(spec, comparison.numbers(response.numericAnswer.value, spec.correctNumeric.value) == Verified)
  }

  function GradeObjective(spec: Spec, response: Response, comparison: Comparison): Grade
    requires Objective(spec.kind)
  {
    match spec.kind
    case Mcq => AllOrNothing(spec, spec.correctOption.Some? && response.chosenOption == spec.correctOption)
    case TrueFalse => AllOrNothing(spec, spec.correctBoolean.Some? && response.booleanAnswer == spec.correctBoolean)
    case Numeric => GradeNumeric(spec, response, comparison)
  }

  predicate ExactMatch(spec: Spec, response: Response, comparison: Comparison) {
    && |spec.expected| > 0 && |response.text| > 0
    && NormalizeForHash(response.text, comparison.lower) == NormalizeForHash(spec.expected, comparison.lower)
  }

  /** The last response of each number. */
  function ByNumber(responses: seq<Response>): map<nat, Response> {
    if |responses| == 0 then map[]
    else ByNumber(responses[..|responses| - 1])[responses[|responses| - 1].number := responses[|responses| - 1]]
  }

  /** The grade code can give, if it can. */
  function Deterministic(spec: Spec, responses: map<nat, Response>, comparison: Comparison): Option<Grade> {
    if spec.number !in responses then Some(AllOrNothing(spec, false))
    else if Objective(spec.kind) then Some(GradeObjective(spec, responses[spec.number], comparison))
    else if ExactMatch(spec, responses[spec.number], comparison) then Some(AllOrNothing(spec, true))
    else None
  }

  datatype GradingPlan = GradingPlan(deterministic: seq<Grade>, needsModel: seq<Spec>)
  {
    function ModelCalls(): nat {
      if |needsModel| > 0 then 1 else 0
    }
  }

  function WithQuestion(earlier: GradingPlan, spec: Spec, grade: Option<Grade>): GradingPlan {
    if grade.Some? then earlier.(deterministic := earlier.deterministic + [grade.value])
    else earlier.(needsModel := earlier.needsModel + [spec])
  }

  function Plan(specs: seq<Spec>, responses: map<nat, Response>, comparison: Comparison): GradingPlan {
    if |specs| == 0 then GradingPlan([], [])
    else
      var earlier, spec := Plan(specs[..|specs| - 1], responses, comparison), specs[|specs| - 1];
      WithQuestion(earlier, spec, Deterministic(spec, responses, comparison))
  }

  method PlanGrading(specs: seq<Spec>, responses: seq<Response>, comparison: Comparison) returns (plan: GradingPlan)
    ensures plan == Plan(specs, ByNumber(responses), comparison)
  {
    var byNumber := ByNumber(responses);
    var deterministic: seq<Grade> := [];
    var pending: seq<Spec> := [];
    for i := 0 to |specs|
      invariant GradingPlan(deterministic, pending) == Plan(specs[..i], byNumber, comparison)
    {
      assert specs[..i + 1][..i] == specs[..i];
      var spec := specs[i];
      if spec.number !in byNumber {
        deterministic := deterministic + [Grade(spec.number, 0.0, spec.marks, false, false, false)];
        continue;
      }
      var response := byNumber[spec.number];
      if Objective(spec.kind) {
        deterministic := deterministic + [GradeObjective(spec, response, comparison)];
        continue;
      }
      if ExactMatch(spec, response, comparison) {
        deterministic := deterministic + [Grade(spec.number, spec.marks as real, spec.marks, true, false, false)];
        continue;
      }
      pending := pending + [spec];
    }
    assert specs[..|specs|] == specs;
    plan := GradingPlan(deterministic, pending);
  }

  // ---- the model's reply ------------------------------------------------------------------

  // A line of the reply in the rubric format; marks are not negative because the format has no sign.
  datatype RubricLine = RubricLine(number: nat, marks: real)

  predicate Unsigned(lines: seq<RubricLine>) {
    forall l :: l in lines ==> l.marks >= 0.0
  }

  function Awarded(lines: seq<RubricLine>): map<nat, real> {
    if |lines| == 0 then map[] else Awarded(lines[..|lines| - 1])[lines[|lines| - 1].number := lines[|lines| - 1].marks]
  }

  function Clamped(marks: real, possible: real): real {
    var least := if marks < possible then marks else possible;
    if least < 0.0 then 0.0 else least
  }

  function FromRubric(spec: Spec, awarded: map<nat, real>): Grade {
    if spec.number !in awarded then Grade(spec.number, 0.0, spec.marks, false, true, true)
    else
      var clamped := Clamped(awarded[spec.number], spec.marks as real);
      Grade(spec.number, clamped, spec.marks, clamped >= spec.marks as real, true, clamped != awarded[spec.number])
  }

  function AllFromRubric(pending: seq<Spec>, awarded: map<nat, real>): seq<Grade> {
    if |pending| == 0 then [] else AllFromRubric(pending[..|pending| - 1], awarded) + [FromRubric(pending[|pending| - 1], awarded)]
  }

  method ParseRubricResponse(lines: seq<RubricLine>, pending: seq<Spec>) returns (graded: seq<Grade>)
    ensures graded == AllFromRubric(pending, Awarded(lines))
  {
    var awarded: map<nat, real> := map[];
    for i := 0 to |lines|
      invariant awarded == Awarded(lines[..i])
    {
      assert lines[..i + 1][..i] == lines[..i];
      awarded := awarded[lines[i].number := lines[i].marks];
    }
    assert lines[..|lines|] == lines;
    graded := [];
    for i := 0 to |pending|
      invariant graded == AllFromRubric(pending[..i], awarded)
    {
      assert pending[..i + 1][..i] == pending[..i];
      var spec := pending[i];
      if spec.number !in awarded {
        graded := graded + [Grade(spec.number, 0.0, spec.marks, false, true, true)];
        continue;
      }
      var marks := awarded[spec.number];
      var clamped := Clamped(marks, spec.marks as real);
      graded := graded + [Grade(spec.number, clamped, spec.marks, clamped >= spec.marks as real, true, clamped != marks)];
    }
    assert pending[..|pending|] == pending;
  }

  // ---- the report ---------------------------------------------------------------------------

  datatype Report = Report(graded: seq<Grade>, totalAwarded: real, totalPossible: nat, modelCalls: nat)

  predicate ByQuestion(a: Grade, b: Grade) {
    a.number <= b.number
  }

  function SumAwarded(graded: seq<Grade>): real {
    if |graded| == 0 then 0.0 else graded[0].awarded + SumAwarded(graded[1..])
  }

  function SumPossible(graded: seq<Grade>): nat {
    if |graded| == 0 then 0 else graded[0].possible + SumPossible(graded[1..])
  }

  // Rounds to a number of hundredths.
  type Rounding = real -> int

  ghost predicate ToHundredths(round: Rounding) {
    forall x :: -0.5 <= round(x) as real - 100.0 * x <= 0.5
  }

  function Assemble(deterministic: seq<Grade>, fromModel: seq<Grade>, modelCalls: nat, round: Rounding): Report {
    var graded := Sort(deterministic + fromModel, ByQuestion);
    Report(graded, round(SumAwarded(graded)) as real / 100.0, SumPossible(graded), modelCalls)
  }

  function Graded(specs: seq<Spec>, responses: seq<Response>, lines: seq<RubricLine>, comparison: Comparison, round: Rounding): Report {
    var plan := Plan(specs, ByNumber(responses), comparison);
    Assemble(plan.deterministic, AllFromRubric(plan.needsModel, Awarded(lines)), plan.ModelCalls(), round)
  }

  // ---- conservation ---------------------------------------------------------------------------

  predicate Fair(g: Grade) {
    0.0 <= g.awarded <= g.possible as real
  }

  predicate AllFair(graded: seq<Grade>) {
    forall g :: g in graded ==> Fair(g)
  }

  // A question's number and marks.
  function Slots(specs: seq<Spec>): multiset<(nat, nat)> {
    if |specs| == 0 then multiset{} else Slots(specs[..|specs| - 1]) + multiset{(specs[|specs| - 1].number, specs[|specs| - 1].marks)}
  }

  function Filled(graded: seq<Grade>): multiset<(nat, nat)> {
    if |graded| == 0 then multiset{} else Filled(graded[1..]) + multiset{(graded[0].number, graded[0].possible)}
  }

  function TotalMarks(specs: seq<Spec>): nat {
    if |specs| == 0 then 0 else TotalMarks(specs[..|specs| - 1]) + specs[|specs| - 1].marks
  }

  lemma {:induction false} FilledAppend(a: seq<Grade>, b: seq<Grade>)
    ensures Filled(a + b) == Filled(a) + Filled(b) && SumPossible(a + b) == SumPossible(a) + SumPossible(b)
  {
    if |a| == 0 {
      assert a + b == b;
    } else {
      assert (a + b)[1..] == a[1..] + b;
      FilledAppend(a[1..], b);
    }
  }

  lemma FilledOne(g: Grade)
    ensures Filled([g]) == multiset{(g.number, g.possible)} && SumPossible([g]) == g.possible
  {
    var one := [g];
    assert |one[1..]| == 0;
  }

  lemma {:induction false} InsertKeepsTotals(g: Grade, graded: seq<Grade>)
    ensures var r := Insert(g, graded, ByQuestion);
            Filled(r) == Filled([g] + graded) && SumPossible(r) == SumPossible([g] + graded)
    decreases |graded|
  {
    FilledOne(g);
    FilledAppend([g], graded);
    if |graded| > 0 && !ByQuestion(g, graded[0]) {
      InsertKeepsTotals(g, graded[1..]);
      FilledAppend([g], graded[1..]);
      var rest := Insert(g, graded[1..], ByQuestion);
      assert ([graded[0]] + rest)[1..] == rest;
    }
  }

  lemma {:induction false} SortKeepsTotals(graded: seq<Grade>)
    ensures Filled(Sort(graded, ByQuestion)) == Filled(graded) && SumPossible(Sort(graded, ByQuestion)) == SumPossible(graded)
  {
    if |graded| > 0 {
      var rest := Sort(graded[1..], ByQuestion);
      SortKeepsTotals(graded[1..]);
      InsertKeepsTotals(graded[0], rest);
      FilledAppend([graded[0]], rest);
      FilledAppend([graded[0]], graded[1..]);
      assert [graded[0]] + graded[1..] == graded;
    }
  }

  lemma DeterministicKeepsTheSlot(spec: Spec, responses: map<nat, Response>, comparison: Comparison)
    ensures var g := Deterministic(spec, responses, comparison);
            g.Some? ==> g.value.number == spec.number && g.value.possible == spec.marks && Fair(g.value)
  {
  }

  predicate KeepsThePaper(plan: GradingPlan, specs: seq<Spec>) {
    && Filled(plan.deterministic) + Slots(plan.needsModel) == Slots(specs)
    && SumPossible(plan.deterministic) + TotalMarks(plan.needsModel) == TotalMarks(specs)
    && AllFair(plan.deterministic)
  }

  lemma OneMoreQuestion(earlier: GradingPlan, specs: seq<Spec>, spec: Spec, grade: Option<Grade>)
    requires KeepsThePaper(earlier, specs)
    requires grade.Some? ==> grade.value.number == spec.number && grade.value.possible == spec.marks && Fair(grade.value)
    ensures KeepsThePaper(WithQuestion(earlier, spec, grade), specs + [spec])
  {
    if grade.Some? {
      OneMoreGrade(earlier, specs, spec, grade.value);
    } else {
      OneMorePending(earlier, specs, spec);
    }
  }

  lemma OneMoreGrade(earlier: GradingPlan, specs: seq<Spec>, spec: Spec, grade: Grade)
    requires KeepsThePaper(earlier, specs)
    requires grade.number == spec.number && grade.possible == spec.marks && Fair(grade)
    ensures KeepsThePaper(WithQuestion(earlier, spec, Some(grade)), specs + [spec])
  {
    var one := multiset{(spec.number, spec.marks)};
    FilledAppend(earlier.deterministic, [grade]);
    FilledOne(grade);
    OneMoreSlot(specs, spec);
    SlotMoves(Filled(earlier.deterministic), one, Slots(earlier.needsModel));
  }

  lemma OneMoreSlot(specs: seq<Spec>, spec: Spec)
    ensures Slots(specs + [spec]) == Slots(specs) + multiset{(spec.number, spec.marks)}
    ensures TotalMarks(specs + [spec]) == TotalMarks(specs) + spec.marks
  {
    assert (specs + [spec])[..|specs|] == specs;
  }

  lemma SlotMoves(filled: multiset<(nat, nat)>, one: multiset<(nat, nat)>, pending: multiset<(nat, nat)>)
    ensures filled + one + pending == filled + pending + one
  {
  }

  lemma OneMorePending(earlier: GradingPlan, specs: seq<Spec>, spec: Spec)
    requires KeepsThePaper(earlier, specs)
    ensures KeepsThePaper(WithQuestion(earlier, spec, None), specs + [spec])
  {
    OneMoreSlot(specs, spec);
    OneMoreSlot(earlier.needsModel, spec);
  }

  lemma {:induction false} PlanKeepsThePaper(specs: seq<Spec>, responses: map<nat, Response>, comparison: Comparison)
    ensures KeepsThePaper(Plan(specs, responses, comparison), specs)
  {
    if |specs| > 0 {
      var front, spec := specs[..|specs| - 1], specs[|specs| - 1];
      assert front + [spec] == specs;
      PlanKeepsThePaper(front, responses, comparison);
      DeterministicKeepsTheSlot(spec, responses, comparison);
      OneMoreQuestion(Plan(front, responses, comparison), front, spec, Deterministic(spec, responses, comparison));
    }
  }

  lemma {:induction false} RubricKeepsThePaper(pending: seq<Spec>, awarded: map<nat, real>)
    ensures var graded := AllFromRubric(pending, awarded);
            Filled(graded) == Slots(pending) && SumPossible(graded) == TotalMarks(pending) && AllFair(graded)
  {
    if |pending| > 0 {
      var front, spec := pending[..|pending| - 1], pending[|pending| - 1];
      RubricKeepsThePaper(front, awarded);
      FilledAppend(AllFromRubric(front, awarded), [FromRubric(spec, awarded)]);
      FilledOne(FromRubric(spec, awarded));
    }
  }

  lemma {:induction false} FairSums(graded: seq<Grade>)
    requires AllFair(graded)
    ensures 0.0 <= SumAwarded(graded) <= SumPossible(graded) as real
  {
    if |graded| > 0 {
      assert graded[0] in graded;
      FairSums(graded[1..]);
    }
  }

  lemma RoundingStaysInside(x: real, cents: int, total: nat)
    requires -0.5 <= cents as real - 100.0 * x <= 0.5 && 0.0 <= x <= total as real
    ensures 0.0 <= cents as real / 100.0 <= total as real
  {
    assert 0 <= cents <= 100 * total;
  }

  lemma AssemblingKeepsTotals(deterministic: seq<Grade>, fromModel: seq<Grade>, modelCalls: nat, round: Rounding)
    requires ToHundredths(round) && AllFair(deterministic) && AllFair(fromModel)
    ensures var report := Assemble(deterministic, fromModel, modelCalls, round);
            && Filled(report.graded) == Filled(deterministic) + Filled(fromModel)
            && Sorted(report.graded, ByQuestion) && AllFair(report.graded)
            && report.totalPossible == SumPossible(deterministic) + SumPossible(fromModel)
            && 0.0 <= report.totalAwarded <= report.totalPossible as real
            && -0.005 <= report.totalAwarded - SumAwarded(report.graded) <= 0.005
  {
    var all := deterministic + fromModel;
    var graded := Sort(all, ByQuestion);
    FilledAppend(deterministic, fromModel);
    SortKeepsTotals(all);
    SortIsSorted(all, ByQuestion);
    forall g | g in graded ensures Fair(g) {
      SortMembers(all, ByQuestion, g);
    }
    FairSums(graded);
    assert -0.5 <= round(SumAwarded(graded)) as real - 100.0 * SumAwarded(graded) <= 0.5;
    RoundingStaysInside(SumAwarded(graded), round(SumAwarded(graded)), SumPossible(graded));
  }

  /**
   Whatever the students answered and whatever the model replied: the report holds exactly
   one grade for every question of the paper, in order, the possible marks are those of the
   paper, the awarded marks lie between zero and that total and are the sum of the grades to the
   nearest hundredth, and at most one model call is planned, none when code could grade everything.
   */
  lemma GradingConservesThePaper(
    specs: seq<Spec>, responses: seq<Response>, lines: seq<RubricLine>, comparison: Comparison, round: Rounding)
    requires ToHundredths(round)
    ensures var report := Graded(specs, responses, lines, comparison, round);
            && Filled(report.graded) == Slots(specs)
            && Sorted(report.graded, ByQuestion) && AllFair(report.graded)
            && report.totalPossible == TotalMarks(specs)
            && 0.0 <= report.totalAwarded <= report.totalPossible as real
            && -0.005 <= report.totalAwarded - SumAwarded(report.graded) <= 0.005
            && report.modelCalls <= 1
            && (report.modelCalls == 0 <==> |Plan(specs, ByNumber(responses), comparison).needsModel| == 0)
  {
    var plan := Plan(specs, ByNumber(responses), comparison);
    var fromModel := AllFromRubric(plan.needsModel, Awarded(lines));
    PlanKeepsThePaper(specs, ByNumber(responses), comparison);
    RubricKeepsThePaper(plan.needsModel, Awarded(lines));
    AssemblingKeepsTotals(plan.deterministic, fromModel, plan.ModelCalls(), round);
  }

  /** A mark the model gives is kept as it is or the grade is flagged; a question it skipped is flagged, never just zero. */
  lemma {:induction false} ModelMarksAreKeptOrFlagged(spec: Spec, lines: seq<RubricLine>)
    requires Unsigned(lines)
    ensures var g := FromRubric(spec, Awarded(lines));
            && (!g.review <==> spec.number in Awarded(lines) && Awarded(lines)[spec.number] <= spec.marks as real)
            && (!g.review ==> g.awarded == Awarded(lines)[spec.number])
  {
    AwardedIsUnsigned(lines);
  }

  lemma {:induction false} AwardedIsUnsigned(lines: seq<RubricLine>)
    requires Unsigned(lines)
    ensures forall n :: n in Awarded(lines) ==> Awarded(lines)[n] >= 0.0
  {
    if |lines| > 0 {
      assert lines[|lines| - 1] in lines;
      AwardedIsUnsigned(lines[..|lines| - 1]);
    }
  }

  // ---- what an answer earns ---------------------------------------------------------------

  /** The last response with the number, if there is one. */
  ghost predicate IsAnswer(responses: seq<Response>, number: nat, answer: Option<Response>) {
    match answer
    case None => forall j :: 0 <= j < |responses| ==> responses[j].number != number
    case Some(r) =>
      exists j :: 0 <= j < |responses| && responses[j] == r && r.number == number
        && forall k :: j < k < |responses| ==> responses[k].number != number
  }

  lemma {:induction false} AnswersByNumber(responses: seq<Response>, number: nat, answer: Option<Response>)
    requires IsAnswer(responses, number, answer)
    ensures number in ByNumber(responses) <==> answer.Some?
    ensures answer.Some? ==> ByNumber(responses)[number] == answer.value
  {
    if |responses| > 0 {
      var front, last := responses[..|responses| - 1], responses[|responses| - 1];
      if last.number != number {
        if answer.Some? {
          var j :| 0 <= j < |responses| && responses[j] == answer.value && forall k :: j < k < |responses| ==> responses[k].number != number;
          assert front[j] == answer.value;
        }
        AnswersByNumber(front, number, answer);
      }
    }
  }

  predicate OnlyOne(specs: seq<Spec>, i: nat) {
    i < |specs| && forall j :: 0 <= j < |specs| && j != i ==> specs[j].number != specs[i].number
  }

  /** The plan holds the grade of every question that has one, and the questions that have none, and nothing else. */
  ghost predicate Splits(plan: GradingPlan, specs: seq<Spec>, grade: Spec -> Option<Grade>) {
    && (forall g :: g in plan.deterministic ==> exists s :: s in specs && grade(s) == Some(g))
    && (forall s :: s in specs && grade(s).Some? ==> grade(s).value in plan.deterministic)
    && (forall s :: s in plan.needsModel <==> s in specs && grade(s).None?)
  }

  lemma OneMoreSplits(earlier: GradingPlan, specs: seq<Spec>, spec: Spec, grade: Spec -> Option<Grade>)
    requires Splits(earlier, specs, grade)
    ensures Splits(WithQuestion(earlier, spec, grade(spec)), specs + [spec], grade)
  {
    var all := specs + [spec];
    assert forall s :: s in all <==> s in specs || s == spec;
  }

  function Grader(responses: map<nat, Response>, comparison: Comparison): Spec -> Option<Grade> {
    (s: Spec) => Deterministic(s, responses, comparison)
  }

  lemma {:induction false} PlanSplits(specs: seq<Spec>, responses: map<nat, Response>, comparison: Comparison)
    ensures Splits(Plan(specs, responses, comparison), specs, Grader(responses, comparison))
  {
    if |specs| > 0 {
      var front, spec := specs[..|specs| - 1], specs[|specs| - 1];
      PlanSplits(front, responses, comparison);
      OneMoreSplits(Plan(front, responses, comparison), front, spec, Grader(responses, comparison));
      assert front + [spec] == specs;
    }
  }

  lemma {:induction false} RubricMembers(pending: seq<Spec>, awarded: map<nat, real>)
    ensures forall g :: g in AllFromRubric(pending, awarded) ==> exists s :: s in pending && g == FromRubric(s, awarded)
    ensures forall s :: s in pending ==> FromRubric(s, awarded) in AllFromRubric(pending, awarded)
  {
    if |pending| > 0 {
      RubricMembers(pending[..|pending| - 1], awarded);
    }
  }

  /** The grade a question gets: from code if code can grade it, else from the rubric. */
  function GradeOf(spec: Spec, responses: seq<Response>, lines: seq<RubricLine>, comparison: Comparison): Grade {
    var grade := Deterministic(spec, ByNumber(responses), comparison);
    if grade.Some? then grade.value else FromRubric(spec, Awarded(lines))
  }

  lemma ReportHolds(
    specs: seq<Spec>, responses: seq<Response>, lines: seq<RubricLine>, comparison: Comparison, round: Rounding, g: Grade)
    ensures g in Graded(specs, responses, lines, comparison, round).graded
            <==> exists s :: s in specs && g == GradeOf(s, responses, lines, comparison)
  {
    var plan := Plan(specs, ByNumber(responses), comparison);
    var fromModel := AllFromRubric(plan.needsModel, Awarded(lines));
    PlanSplits(specs, ByNumber(responses), comparison);
    RubricMembers(plan.needsModel, Awarded(lines));
    SortMembers(plan.deterministic + fromModel, ByQuestion, g);
  }

  /**
   The report's one grade for a question: so many marks out of its own, right or not, whether to be
   reviewed, and by whom.
   */
  ghost predicate Earns(report: Report, spec: Spec, awarded: real, correct: bool, review: bool, byModel: bool) {
    && Grade(spec.number, awarded, spec.marks, correct, byModel, review) in report.graded
    && forall g :: g in report.graded && g.number == spec.number ==> g == Grade(spec.number, awarded, spec.marks, correct, byModel, review)
  }

  lemma GradeKeepsTheSlot(spec: Spec, responses: seq<Response>, lines: seq<RubricLine>, comparison: Comparison)
    ensures var g := GradeOf(spec, responses, lines, comparison); g.number == spec.number && g.possible == spec.marks
  {
    DeterministicKeepsTheSlot(spec, ByNumber(responses), comparison);
  }

  lemma SameNumberSameSpec(specs: seq<Spec>, i: nat, s: Spec)
    requires OnlyOne(specs, i) && s in specs && s.number == specs[i].number
    ensures s == specs[i]
  {
    var j :| 0 <= j < |specs| && specs[j] == s;
  }

  lemma OneGradeInReport(
    specs: seq<Spec>, responses: seq<Response>, lines: seq<RubricLine>, comparison: Comparison, round: Rounding, i: nat)
    requires OnlyOne(specs, i)
    ensures var g := GradeOf(specs[i], responses, lines, comparison);
            Earns(Graded(specs, responses, lines, comparison, round), specs[i], g.awarded, g.correct, g.review, g.byModel)
  {
    var report, grade := Graded(specs, responses, lines, comparison, round), GradeOf(specs[i], responses, lines, comparison);
    assert specs[i] in specs;
    GradeKeepsTheSlot(specs[i], responses, lines, comparison);
    ReportHolds(specs, responses, lines, comparison, round, grade);
    forall g | g in report.graded && g.number == specs[i].number ensures g == grade {
      OnlyItsGrade(specs, responses, lines, comparison, round, i, g);
    }
  }

  lemma OnlyItsGrade(
    specs: seq<Spec>, responses: seq<Response>, lines: seq<RubricLine>, comparison: Comparison, round: Rounding, i: nat, g: Grade)
    requires OnlyOne(specs, i) && g in Graded(specs, responses, lines, comparison, round).graded && g.number == specs[i].number
    ensures g == GradeOf(specs[i], responses, lines, comparison)
  {
    ReportHolds(specs, responses, lines, comparison, round, g);
    var s :| s in specs && g == GradeOf(s, responses, lines, comparison);
    GradeKeepsTheSlot(s, responses, lines, comparison);
    SameNumberSameSpec(specs, i, s);
  }

  /** A choice or a true-or-false question earns all its marks when its last response names the key, and nothing otherwise. */
  lemma KeyEarnsTheMarks(
    specs: seq<Spec>, responses: seq<Response>, lines: seq<RubricLine>, comparison: Comparison, round: Rounding,
    i: nat, answer: Option<Response>)
    requires OnlyOne(specs, i) && IsAnswer(responses, specs[i].number, answer)
    requires specs[i].kind == Mcq || specs[i].kind == TrueFalse
    ensures var spec := specs[i];
            var right := answer.Some? && if spec.kind == Mcq
                                         then spec.correctOption.Some? && answer.value.chosenOption == spec.correctOption
                                         else spec.correctBoolean.Some? && answer.value.booleanAnswer == spec.correctBoolean;
            Earns(Graded(specs, responses, lines, comparison, round), spec, if right then spec.marks as real else 0.0, right, false, false)
  {
    AnswersByNumber(responses, specs[i].number, answer);
    OneGradeInReport(specs, responses, lines, comparison, round, i);
  }

  /**
   A numeric question earns all its marks when the comparison verifies the answer, and nothing
   otherwise; it is left to a human where both sides name a unit and cannot be compared.
   */
  lemma VerdictEarnsTheMarks(
    specs: seq<Spec>, responses: seq<Response>, lines: seq<RubricLine>, comparison: Comparison, round: Rounding,
    i: nat, answer: Option<Response>)
    requires OnlyOne(specs, i) && IsAnswer(responses, specs[i].number, answer) && specs[i].kind == Numeric
    ensures var spec, report := specs[i], Graded(specs, responses, lines, comparison, round);
            if answer.None? || answer.value.numericAnswer.None? || spec.correctNumeric.None? then
              Earns(report, spec, 0.0, false, false, false)
            else
              var units := spec.unit != "" && answer.value.unit != "";
              var verdict := if units then comparison.quantities(spec, answer.value)
                             else comparison.numbers(answer.value.numericAnswer.value, spec.correctNumeric.value);
              Earns(report, spec, if verdict == Verified then spec.marks as real else 0.0, verdict == Verified,
                    units && verdict == NotApplicable, false)
  {
    AnswersByNumber(responses, specs[i].number, answer);
    OneGradeInReport(specs, responses, lines, comparison, round, i);
  }

  /**
   A short or structured answer earns nothing when it is missing, all its marks when it has the words
   of the expected answer up to letter case and spacing, and otherwise what the last line of the rubric
   for its number gives, within its marks; without a line it is left to a human.
   */
  lemma WordsEarnTheMarks(
    specs: seq<Spec>, responses: seq<Response>, lines: seq<RubricLine>, comparison: Comparison, round: Rounding,
    i: nat, answer: Option<Response>, line: Option<real>)
    requires OnlyOne(specs, i) && IsAnswer(responses, specs[i].number, answer) && IsLastLine(lines, specs[i].number, line)
    requires (specs[i].kind == ShortAnswer || specs[i].kind == Structured) && ByWord(comparison.lower)
    ensures var spec, report := specs[i], Graded(specs, responses, lines, comparison, round);
            var marks := spec.marks as real;
            if answer.None? then Earns(report, spec, 0.0, false, false, false)
            else if spec.expected != "" && answer.value.text != ""
                 && LowerWords(Words(answer.value.text), comparison.lower) == LowerWords(Words(spec.expected), comparison.lower)
            then Earns(report, spec, marks, true, false, false)
            else if line.None? then Earns(report, spec, 0.0, false, true, true)
            else if line.value > marks then Earns(report, spec, marks, true, true, true)
            else if line.value < 0.0 then Earns(report, spec, 0.0, false, true, true)
            else Earns(report, spec, line.value, line.value == marks, false, true)
  {
    AnswersByNumber(responses, specs[i].number, answer);
    LinesByNumber(lines, specs[i].number, line);
    OneGradeInReport(specs, responses, lines, comparison, round, i);
    if answer.Some? {
      SameKeyIffSameWords(answer.value.text, specs[i].expected, comparison.lower);
    }
  }

  ghost predicate IsLastLine(lines: seq<RubricLine>, number: nat, marks: Option<real>) {
    match marks
    case None => forall j :: 0 <= j < |lines| ==> lines[j].number != number
    case Some(m) =>
      exists j :: 0 <= j < |lines| && lines[j] == RubricLine(number, m) && forall k :: j < k < |lines| ==> lines[k].number != number
  }

  lemma {:induction false} LinesByNumber(lines: seq<RubricLine>, number: nat, marks: Option<real>)
    requires IsLastLine(lines, number, marks)
    ensures number in Awarded(lines) <==> marks.Some?
    ensures marks.Some? ==> Awarded(lines)[number] == marks.value
  {
    if |lines| > 0 {
      var front, last := lines[..|lines| - 1], lines[|lines| - 1];
      if last.number != number {
        if marks.Some? {
          var j :| 0 <= j < |lines| && lines[j] == RubricLine(number, marks.value) && forall k :: j < k < |lines| ==> lines[k].number != number;
          assert front[j] == lines[j];
        }
        LinesByNumber(front, number, marks);
      }
    }
  }

  /** The response is right by the key of the question. */
  predicate IsRight(spec: Spec, r: Response, comparison: Comparison) {
    match spec.kind
    case Mcq => spec.correctOption.Some? && r.chosenOption == spec.correctOption
    case TrueFalse => spec.correctBoolean.Some? && r.booleanAnswer == spec.correctBoolean
    case Numeric =>
      && spec.correctNumeric.Some? && r.numericAnswer.Some?
      && (if spec.unit != "" && r.unit != "" then comparison.quantities(spec, r)
          else comparison.numbers(r.numericAnswer.value, spec.correctNumeric.value)) == Verified
    case _ =>
      && spec.expected != "" && r.text != ""
      && LowerWords(Words(r.text), comparison.lower) == LowerWords(Words(spec.expected), comparison.lower)
  }

  ghost predicate AnsweredRight(spec: Spec, responses: seq<Response>, comparison: Comparison) {
    exists r :: IsAnswer(responses, spec.number, Some(r)) && IsRight(spec, r, comparison)
  }

  lemma RightIsFull(spec: Spec, responses: seq<Response>, comparison: Comparison)
    requires AnsweredRight(spec, responses, comparison) && ByWord(comparison.lower)
    ensures Deterministic(spec, ByNumber(responses), comparison)
         == Some(Grade(spec.number, spec.marks as real, spec.marks, true, false, false))
  {
    var r :| IsAnswer(responses, spec.number, Some(r)) && IsRight(spec, r, comparison);
    AnswersByNumber(responses, spec.number, Some(r));
    if spec.kind == ShortAnswer || spec.kind == Structured {
      SameKeyIffSameWords(r.text, spec.expected, comparison.lower);
    }
  }

  predicate AllFull(graded: seq<Grade>) {
    forall g :: g in graded ==> g.correct && g.awarded == g.possible as real
  }

  lemma {:induction false} FullSums(graded: seq<Grade>)
    requires AllFull(graded)
    ensures SumAwarded(graded) == SumPossible(graded) as real
  {
    if |graded| > 0 {
      assert graded[0] in graded;
      FullSums(graded[1..]);
    }
  }

  lemma NearestToWhole(cents: int, total: nat)
    requires -0.5 <= cents as real - 100.0 * total as real <= 0.5
    ensures cents as real / 100.0 == total as real
  {
    assert -1 < cents - 100 * total < 1;
  }

  /** A paper answered right throughout earns all its marks, and no model is called for it. */
  lemma RightPaperEarnsEverything(
    specs: seq<Spec>, responses: seq<Response>, lines: seq<RubricLine>, comparison: Comparison, round: Rounding)
    requires ToHundredths(round) && ByWord(comparison.lower)
    requires forall s :: s in specs ==> AnsweredRight(s, responses, comparison)
    ensures var report := Graded(specs, responses, lines, comparison, round);
            && report.totalAwarded == TotalMarks(specs) as real && report.totalPossible == TotalMarks(specs)
            && AllFull(report.graded) && report.modelCalls == 0
  {
    var report, plan := Graded(specs, responses, lines, comparison, round), Plan(specs, ByNumber(responses), comparison);
    GradingConservesThePaper(specs, responses, lines, comparison, round);
    forall g | g in report.graded ensures g.correct && g.awarded == g.possible as real {
      ReportHolds(specs, responses, lines, comparison, round, g);
      var s :| s in specs && g == GradeOf(s, responses, lines, comparison);
      RightIsFull(s, responses, comparison);
    }
    FullSums(report.graded);
    TotalIsRounded(specs, responses, lines, comparison, round);
    NearestToWhole(round(SumAwarded(report.graded)), report.totalPossible);
    PlanSplits(specs, ByNumber(responses), comparison);
    if |plan.needsModel| > 0 {
      assert plan.needsModel[0] in plan.needsModel;
      RightIsFull(plan.needsModel[0], responses, comparison);
    }
  }

  lemma TotalIsRounded(
    specs: seq<Spec>, responses: seq<Response>, lines: seq<RubricLine>, comparison: Comparison, round: Rounding)
    requires ToHundredths(round)
    ensures var report := Graded(specs, responses, lines, comparison, round);
            && report.totalAwarded == round(SumAwarded(report.graded)) as real / 100.0
            && report.totalPossible == SumPossible(report.graded)
            && -0.5 <= round(SumAwarded(report.graded)) as real - 100.0 * SumAwarded(report.graded) <= 0.5
  {
  }

  // ---- the shape of a paper ----------------------------------------------------------------

  datatype Limits = Limits(maxQuestions: Marks, maxDuration: Marks)

  function LimitsFor(pro: bool): Limits {
    if pro then Limits(50, 180) else Limits(10, 30)
  }

  // A question type and its share of the paper in hundredths.
  datatype Share = Share(kind: QuestionType, percent: nat)

  const MIX_SHORT := [Share(Mcq, 60), Share(TrueFalse, 20), Share(Numeric, 20)]
  const MIX_LONG := [Share(Mcq, 40), Share(Numeric, 25), Share(ShortAnswer, 20), Share(Structured, 15)]
  const LONG_PAPER_MINUTES := 45

  datatype Part = Part(kind: QuestionType, count: int)

  datatype Blueprint = Blueprint(duration: nat, questions: int, totalMarks: nat, mix: seq<Part>, reduced: bool)

  /** A share of a count, truncated toward zero. */
  function Truncated(count: int, percent: nat): int {
    if count >= 0 then count * percent / 100 else -(-count * percent / 100)
  }

  function AskedDuration(minutes: int): nat {
    if minutes < 5 then 5 else minutes
  }

  function Duration(minutes: int, limits: Limits): nat {
    if AskedDuration(minutes) > limits.maxDuration then limits.maxDuration else AskedDuration(minutes)
  }

  /** Zero questions count as none asked for: then the paper's length decides. */
  function AskedCount(minutes: int, requested: Option<int>, limits: Limits): int {
    if requested.Some? && requested.value != 0 then requested.value
    else if Duration(minutes, limits) / 2 < 3 then 3 else Duration(minutes, limits) / 2
  }

  function Count(minutes: int, requested: Option<int>, limits: Limits): int {
    var count := AskedCount(minutes, requested, limits);
    if count > limits.maxQuestions then limits.maxQuestions else count
  }

  function Mix(duration: nat): seq<Share> {
    if duration >= LONG_PAPER_MINUTES then MIX_LONG else MIX_SHORT
  }

  function Parts(count: int, shares: seq<Share>): seq<Part> {
    if |shares| == 0 then []
    else Parts(count, shares[..|shares| - 1]) + [Part(shares[|shares| - 1].kind, Truncated(count, shares[|shares| - 1].percent))]
  }

  function Assigned(parts: seq<Part>): int {
    if |parts| == 0 then 0 else Assigned(parts[..|parts| - 1]) + parts[|parts| - 1].count
  }

  function Positive(parts: seq<Part>): seq<Part> {
    if |parts| == 0 then []
    else Positive(parts[..|parts| - 1]) + if parts[|parts| - 1].count > 0 then [parts[|parts| - 1]] else []
  }

  /** Every share but the last truncated; the last takes the remainder; empty parts go. */
  function Split(count: int, shares: seq<Share>): seq<Part>
    requires |shares| > 0
  {
    var parts := Parts(count, shares[..|shares| - 1]);
    Positive(parts + [Part(shares[|shares| - 1].kind, count - Assigned(parts))])
  }

  lemma AssignedSnoc(parts: seq<Part>, last: Part)
    ensures Assigned(parts + [last]) == Assigned(parts) + last.count
  {
    assert (parts + [last])[..|parts|] == parts;
  }

  method SplitQuestions(count: int, shares: seq<Share>) returns (mix: seq<Part>)
    requires |shares| > 0
    ensures mix == Split(count, shares)
  {
    var front := shares[..|shares| - 1];
    var given := 0;
    mix := [];
    for i := 0 to |front|
      invariant mix == Parts(count, front[..i]) && given == Assigned(mix)
    {
      assert front[..i + 1][..i] == front[..i];
      var n := Truncated(count, front[i].percent);
      AssignedSnoc(mix, Part(front[i].kind, n));
      mix := mix + [Part(front[i].kind, n)];
      given := given + n;
    }
    assert front[..|front|] == front;
    mix := Positive(mix + [Part(shares[|shares| - 1].kind, count - given)]);
  }

  method BuildBlueprint(minutes: int, requested: Option<int>, limits: Limits) returns (b: Blueprint)
    ensures b.duration == Duration(minutes, limits) == b.totalMarks
    ensures b.questions == Count(minutes, requested, limits)
    ensures b.mix == Split(b.questions, Mix(b.duration))
    ensures b.reduced <==> AskedDuration(minutes) > limits.maxDuration || AskedCount(minutes, requested, limits) > limits.maxQuestions
    ensures b.reduced <==> b.duration < AskedDuration(minutes) || b.questions < AskedCount(minutes, requested, limits)
  {
    var reduced := false;
    var duration := if minutes < 5 then 5 else minutes;
    if duration > limits.maxDuration {
      reduced := true;
      duration := limits.maxDuration;
    }
    var count := if duration / 2 < 3 then 3 else duration / 2;
    if requested.Some? && requested.value != 0 {
      count := requested.value;
    }
    if count > limits.maxQuestions {
      reduced := true;
      count := limits.maxQuestions;
    }
    var mix := SplitQuestions(count, if duration >= LONG_PAPER_MINUTES then MIX_LONG else MIX_SHORT);
    b := Blueprint(duration, count, duration, mix, reduced);
  }

  predicate NoneNegative(parts: seq<Part>) {
    forall p :: p in parts ==> p.count >= 0
  }

  predicate NonePositive(parts: seq<Part>) {
    forall p :: p in parts ==> p.count <= 0
  }

  lemma {:induction false} PositivePartsAre(parts: seq<Part>)
    ensures forall p :: p in Positive(parts) ==> p.count > 0
  {
    if |parts| > 0 {
      PositivePartsAre(parts[..|parts| - 1]);
    }
  }

  lemma {:induction false} PositivePartsKeepTheSum(parts: seq<Part>)
    requires NoneNegative(parts)
    ensures Assigned(Positive(parts)) == Assigned(parts)
  {
    if |parts| > 0 {
      var front, last := parts[..|parts| - 1], parts[|parts| - 1];
      assert last in parts;
      PositivePartsKeepTheSum(front);
      if last.count > 0 {
        AssignedSnoc(Positive(front), last);
      } else {
        assert Positive(parts) == Positive(front);
      }
    }
  }

  lemma {:induction false} NothingPositiveIsLeft(parts: seq<Part>)
    requires NonePositive(parts)
    ensures |Positive(parts)| == 0
  {
    if |parts| > 0 {
      assert parts[|parts| - 1] in parts;
      NothingPositiveIsLeft(parts[..|parts| - 1]);
    }
  }

  /** An amount lies between nothing and a share of the count, on the count's side of zero. */
  predicate WithinShare(count: int, percent: nat, amount: int) {
    if count >= 0 then 0 <= 100 * amount <= count * percent else count * percent <= 100 * amount <= 0
  }

  lemma TruncatedIsWithinShare(count: int, percent: nat)
    ensures WithinShare(count, percent, Truncated(count, percent))
  {
    if count >= 0 {
      assert count * percent >= 0;
    } else {
      assert -count * percent >= 0;
    }
  }

  lemma SharesAdd(count: int, p: nat, a: int, q: nat, b: int)
    requires WithinShare(count, p, a) && WithinShare(count, q, b)
    ensures WithinShare(count, p + q, a + b)
  {
    assert count * (p + q) == count * p + count * q;
  }

  function Percent(shares: seq<Share>): nat {
    if |shares| == 0 then 0 else Percent(shares[..|shares| - 1]) + shares[|shares| - 1].percent
  }

  lemma {:induction false} PartsAreWithinShares(count: int, shares: seq<Share>)
    ensures WithinShare(count, Percent(shares), Assigned(Parts(count, shares)))
    ensures if count >= 0 then NoneNegative(Parts(count, shares)) else NonePositive(Parts(count, shares))
  {
    if |shares| > 0 {
      var front, last := shares[..|shares| - 1], shares[|shares| - 1];
      PartsAreWithinShares(count, front);
      TruncatedIsWithinShare(count, last.percent);
      AssignedSnoc(Parts(count, front), Part(last.kind, Truncated(count, last.percent)));
      SharesAdd(count, Percent(front), Assigned(Parts(count, front)), last.percent, Truncated(count, last.percent));
    }
  }

  lemma RemainderIsOnTheCountsSide(count: int, percent: nat, given: int)
    requires percent <= 100 && WithinShare(count, percent, given)
    ensures if count >= 0 then count - given >= 0 else count - given <= 0
  {
    assert count * 100 == count * percent + count * (100 - percent);
    if count >= 0 {
      assert count * (100 - percent) >= 0;
    } else {
      assert -count * (100 - percent) >= 0;
    }
  }

  /**
   For any shares that leave a remainder, the parts are positive, and they add up to the count exactly
   when it is not negative.
   */
  lemma SplitAddsUpIff(count: int, shares: seq<Share>)
    requires |shares| > 0 && Percent(shares[..|shares| - 1]) <= 100
    ensures forall p :: p in Split(count, shares) ==> p.count > 0
    ensures Assigned(Split(count, shares)) == count <==> count >= 0
  {
    var front := shares[..|shares| - 1];
    var parts := Parts(count, front);
    var last := Part(shares[|shares| - 1].kind, count - Assigned(parts));
    PartsAreWithinShares(count, front);
    RemainderIsOnTheCountsSide(count, Percent(front), Assigned(parts));
    AssignedSnoc(parts, last);
    PositivePartsAre(parts + [last]);
    if count >= 0 {
      PositivePartsKeepTheSum(parts + [last]);
    } else {
      NothingPositiveIsLeft(parts + [last]);
    }
  }

  /**
   A blueprint stays within the plan's ceilings; its parts are positive and add up, unless a negative
   number was asked for.
   */
  lemma BlueprintIsConsistent(minutes: int, requested: Option<int>, pro: bool)
    ensures var limits := LimitsFor(pro);
            var duration, count := Duration(minutes, limits), Count(minutes, requested, limits);
            var mix := Split(count, Mix(duration));
            && 5 <= duration <= limits.maxDuration && count <= limits.maxQuestions
            && (forall p :: p in mix ==> p.count > 0)
            && (Assigned(mix) == count <==> requested.None? || requested.value >= 0)
  {
    var limits := LimitsFor(pro);
    var duration := Duration(minutes, limits);
    SharesLeaveARemainder(Mix(duration));
    SplitAddsUpIff(Count(minutes, requested, limits), Mix(duration));
  }

  lemma SharesLeaveARemainder(shares: seq<Share>)
    requires shares == MIX_SHORT || shares == MIX_LONG
    ensures |shares| > 0 && Percent(shares[..|shares| - 1]) <= 100
  {
    var front := shares[..|shares| - 1];
    assert Percent(front[..0]) == 0;
    assert front[..1][..0] == front[..0] && front[..2][..1] == front[..1];
    assert Percent(front[..1]) == shares[0].percent;
    assert Percent(front[..2]) == shares[0].percent + shares[1].percent;
    if |front| == 3 {
      assert front[..3][..2] == front[..2] && front[..3] == front;
      assert Percent(front) == 85;
    } else {
      assert front[..2] == front;
    }
  }

  // ---- what a paper holds, kind by kind --------------------------------------------------

  function CountOf(parts: seq<Part>, kind: QuestionType): int {
    if |parts| == 0 then 0
    else CountOf(parts[..|parts| - 1], kind) + if parts[|parts| - 1].kind == kind then parts[|parts| - 1].count else 0
  }

  lemma CountOfSnoc(parts: seq<Part>, last: Part, kind: QuestionType)
    ensures CountOf(parts + [last], kind) == CountOf(parts, kind) + if last.kind == kind then last.count else 0
  {
    assert (parts + [last])[..|parts|] == parts;
  }

  lemma {:induction false} EmptyPartsCountNothing(parts: seq<Part>, kind: QuestionType)
    requires NoneNegative(parts)
    ensures CountOf(Positive(parts), kind) == CountOf(parts, kind)
  {
    if |parts| > 0 {
      var front, last := parts[..|parts| - 1], parts[|parts| - 1];
      assert last in parts;
      EmptyPartsCountNothing(front, kind);
      if last.count > 0 {
        CountOfSnoc(Positive(front), last, kind);
      } else {
        assert Positive(parts) == Positive(front);
      }
    }
  }

  lemma PartsOfTwo(count: int, a: Share, b: Share)
    ensures Parts(count, [a, b]) == [Part(a.kind, Truncated(count, a.percent)), Part(b.kind, Truncated(count, b.percent))]
  {
    var two, one := [a, b], [a];
    assert two[..1] == one && |one[..0]| == 0;
    assert Parts(count, one) == [] + [Part(a.kind, Truncated(count, a.percent))];
  }

  lemma PartsOfThree(count: int, a: Share, b: Share, c: Share)
    ensures Parts(count, [a, b, c]) == Parts(count, [a, b]) + [Part(c.kind, Truncated(count, c.percent))]
  {
    var three := [a, b, c];
    assert three[..2] == [a, b];
  }

  /** Two, three and four parts, counted one by one. */
  lemma CountOfTwo(p: Part, q: Part, kind: QuestionType)
    ensures CountOf([p, q], kind) == (if p.kind == kind then p.count else 0) + if q.kind == kind then q.count else 0
    ensures Assigned([p, q]) == p.count + q.count
  {
    var two, one := [p, q], [p];
    assert two[..1] == one && |one[..0]| == 0;
    assert CountOf(one, kind) == if p.kind == kind then p.count else 0;
    assert Assigned(one) == p.count;
  }

  lemma CountOfThree(p: Part, q: Part, r: Part, kind: QuestionType)
    ensures CountOf([p, q, r], kind) == CountOf([p, q], kind) + if r.kind == kind then r.count else 0
    ensures Assigned([p, q, r]) == p.count + q.count + r.count
  {
    var three := [p, q, r];
    assert three[..2] == [p, q];
    CountOfTwo(p, q, kind);
  }

  /** 60 percent choices, 20 percent true-or-false, each truncated, and the rest numeric. */
  function ShortShare(n: int, kind: QuestionType): int {
    match kind
    case Mcq => n * 60 / 100
    case TrueFalse => n * 20 / 100
    case Numeric => n - n * 60 / 100 - n * 20 / 100
    case _ => 0
  }

  /** 40 percent choices, 25 percent numeric, 20 percent short answers, each truncated, and the rest structured. */
  function LongShare(n: int, kind: QuestionType): int {
    match kind
    case Mcq => n * 40 / 100
    case Numeric => n * 25 / 100
    case ShortAnswer => n * 20 / 100
    case Structured => n - n * 40 / 100 - n * 25 / 100 - n * 20 / 100
    case _ => 0
  }

  /** A short paper of n questions, part by part. */
  lemma ShortPaper(n: nat, kind: QuestionType)
    ensures CountOf(Split(n, MIX_SHORT), kind) == ShortShare(n, kind)
  {
    var front := MIX_SHORT[..2];
    assert front == [Share(Mcq, 60), Share(TrueFalse, 20)];
    PartsOfTwo(n, Share(Mcq, 60), Share(TrueFalse, 20));
    var p, q := Part(Mcq, n * 60 / 100), Part(TrueFalse, n * 20 / 100);
    var r := Part(Numeric, n - (p.count + q.count));
    CountOfTwo(p, q, kind);
    CountOfThree(p, q, r, kind);
    assert Parts(n, front) + [r] == [p, q, r];
    EmptyPartsCountNothing([p, q, r], kind);
  }

  /** A long paper of n questions, part by part. */
  lemma LongPaper(n: nat, kind: QuestionType)
    ensures CountOf(Split(n, MIX_LONG), kind) == LongShare(n, kind)
  {
    var front := MIX_LONG[..3];
    assert front == [Share(Mcq, 40), Share(Numeric, 25), Share(ShortAnswer, 20)];
    PartsOfTwo(n, Share(Mcq, 40), Share(Numeric, 25));
    PartsOfThree(n, Share(Mcq, 40), Share(Numeric, 25), Share(ShortAnswer, 20));
    var p, q, r := Part(Mcq, n * 40 / 100), Part(Numeric, n * 25 / 100), Part(ShortAnswer, n * 20 / 100);
    var last := Part(Structured, n - (p.count + q.count + r.count));
    CountOfTwo(p, q, kind);
    CountOfThree(p, q, r, kind);
    CountOfSnoc([p, q, r], last, kind);
    assert Parts(n, front) == [p, q, r];
    EmptyPartsCountNothing([p, q, r] + [last], kind);
  }

  /**
   The paper for a request, in numbers: five minutes at least and 180 or 30 at most by plan; as many
   questions as were asked for, or one for two minutes but three at least, and 50 or 10 at most; the
   mix of a short paper under 45 minutes.
   */
  lemma PaperInNumbers(minutes: int, requested: Option<int>, pro: bool)
    ensures var limits := LimitsFor(pro);
            var duration, n := Duration(minutes, limits), Count(minutes, requested, limits);
            var most, longest := if pro then 50 else 10, if pro then 180 else 30;
            && duration == (if minutes < 5 then 5 else if minutes > longest then longest else minutes)
            && (requested.Some? && requested.value != 0 ==> n == if requested.value > most then most else requested.value)
            && (requested.None? || requested.value == 0 ==>
                  n == if duration < 8 then 3 else if duration >= 2 * most then most else duration / 2)
            && (n >= 0 && duration < 45 ==> forall kind :: CountOf(Split(n, Mix(duration)), kind) == ShortShare(n, kind))
            && (n >= 0 && duration >= 45 ==> forall kind :: CountOf(Split(n, Mix(duration)), kind) == LongShare(n, kind))
  {
    var n := Count(minutes, requested, LimitsFor(pro));
    if n >= 0 {
      forall kind ensures CountOf(Split(n, MIX_SHORT), kind) == ShortShare(n, kind) {
        ShortPaper(n, kind);
      }
      forall kind ensures CountOf(Split(n, MIX_LONG), kind) == LongShare(n, kind) {
        LongPaper(n, kind);
      }
    }
  }
}
