/** Assignment configuration: rubrics, questions and the assignment that holds them, with the
    checks the configuration loader applies. */
module AssignmentConfig {
  import opened Wrappers
  import opened PyDict
  import opened Json

  /** A grading rubric; `noSubmission` defaults to 0 and every other field to absent. */
  datatype Rubric = Rubric(
    criteria: Option<seq<string>>,
    noSubmission: real,
    attempted: Option<real>,
    mostlyCorrect: Option<real>,
    correct: Option<real>,
    instructions: Option<string>,
    customScoring: Option<Dict<Json>>)

  /** `RubricConfig()` with no fields given: nothing is set except the no-submission amount, 0. */
  function DefaultRubric(): (r: Rubric)
    ensures r.noSubmission == 0.0
    ensures r.attempted.None? && r.mostlyCorrect.None? && r.correct.None?
    ensures r.criteria.None? && r.instructions.None? && r.customScoring.None?
  {
    Rubric(None, 0.0, None, None, None, None, None)
  }

  datatype Question = Question(
    id: string,
    text: string,
    points: real,
    answerKey: Option<string>,
    rubric: Option<Rubric>,
    questionType: Option<string>)

  datatype Assignment = Assignment(
    assignmentId: string,
    assignmentName: string,
    courseCode: Option<string>,
    term: Option<string>,
    questions: seq<Question>,
    generalRubric: Option<Rubric>,
    answerKeyText: Option<string>,
    totalPoints: Option<real>,
    gradingInstructions: Option<string>,
    allowPartialCredit: bool)

  /** How `total_points` appears in the loaded configuration. */
  datatype TotalPointsField = Omitted | ExplicitNull | Given(value: real)

  /** What validation guarantees of a loaded configuration. */
  predicate ValidAssignment(a: Assignment) {
    |a.questions| >= 1 && forall i :: 0 <= i < |a.questions| ==> a.questions[i].points > 0.0
  }

  function SumPoints(qs: seq<Question>): real {
    if |qs| == 0 then 0.0 else SumPoints(qs[..|qs| - 1]) + qs[|qs| - 1].points
  }

  lemma {:induction false} SumPointsBounds(qs: seq<Question>)
    requires forall i :: 0 <= i < |qs| ==> qs[i].points > 0.0
    ensures forall i :: 0 <= i < |qs| ==> SumPoints(qs) >= qs[i].points
    ensures |qs| > 0 ==> SumPoints(qs) > 0.0
  {
    if |qs| > 0 {
      SumPointsBounds(qs[..|qs| - 1]);
      assert forall i :: 0 <= i < |qs| - 1 ==> qs[..|qs| - 1][i] == qs[i];
    }
  }

  /** The `total_points` validator runs in "before" mode, so it fills in the sum of the question
      points only when the field is present and null; an omitted field keeps its default (absent). */
  function ResolveTotalPoints(field: TotalPointsField, questions: seq<Question>): (r: Option<real>)
    requires forall i :: 0 <= i < |questions| ==> questions[i].points > 0.0
    ensures field.Omitted? <==> r.None?
    ensures field.Given? ==> r == Some(field.value)
    ensures field.ExplicitNull? && |questions| > 0 ==>
      r.value > 0.0 && forall i :: 0 <= i < |questions| ==> r.value >= questions[i].points
  {
    SumPointsBounds(questions);
    match field
    case Omitted => None
    case ExplicitNull => Some(SumPoints(questions))
    case Given(v) => Some(v)
  }

  /** Builds a configuration the way the model class validates one: at least one question and
      every question worth more than zero points, else the load fails. */
  function MakeAssignment(assignmentId: string, assignmentName: string, courseCode: Option<string>,
                          term: Option<string>, questions: seq<Question>, generalRubric: Option<Rubric>,
                          answerKeyText: Option<string>, totalPoints: TotalPointsField,
                          gradingInstructions: Option<string>, allowPartialCredit: bool): (r: Option<Assignment>)
    ensures r.Some? <==> |questions| >= 1 && forall i :: 0 <= i < |questions| ==> questions[i].points > 0.0
    ensures r.Some? ==> ValidAssignment(r.value) && r.value.questions == questions
    ensures r.Some? && totalPoints.Omitted? ==> r.value.totalPoints.None?
  {
    if |questions| >= 1 && forall i :: 0 <= i < |questions| ==> questions[i].points > 0.0 then
      Some(Assignment(assignmentId, assignmentName, courseCode, term, questions, generalRubric,
                      answerKeyText, ResolveTotalPoints(totalPoints, questions), gradingInstructions,
                      allowPartialCredit))
    else
      None
  }

  /** Position of the first question with the given id, or -1. */
  function FirstQuestion(qs: seq<Question>, id: string): (r: int)
    ensures -1 <= r < |qs|
    ensures r >= 0 ==> qs[r].id == id && forall j :: 0 <= j < r ==> qs[j].id != id
    ensures r == -1 ==> forall j :: 0 <= j < |qs| ==> qs[j].id != id
  {
    if |qs| == 0 then -1
    else if qs[0].id == id then 0
    else
      var r := FirstQuestion(qs[1..], id);
      if r == -1 then -1 else r + 1
  }

  /** The rubric that governs a question: its own if it has one, else the general rubric;
      an unknown id has none. Duplicate ids resolve to the first question. */
  function GetQuestionRubric(a: Assignment, id: string): (r: Option<Rubric>)
    ensures (forall j :: 0 <= j < |a.questions| ==> a.questions[j].id != id) ==> r.None?
    ensures forall j ::
      (0 <= j < |a.questions| && a.questions[j].id == id
       && (forall k :: 0 <= k < j ==> a.questions[k].id != id))
      ==> r == (if a.questions[j].rubric.Some? then a.questions[j].rubric else a.generalRubric)
  {
    var i := FirstQuestion(a.questions, id);
    if i == -1 then None
    else if a.questions[i].rubric.Some? then a.questions[i].rubric
    else a.generalRubric
  }

  /** `total_points or 0.0`: the maximum score the error and empty grades report. */
  function TotalOrZero(a: Assignment): real {
    match a.totalPoints
    case Some(t) => t
    case None => 0.0
  }
}
