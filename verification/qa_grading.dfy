/** The question-by-question grading agent: one model call per question on the extracted answer,
    the reply turned into a validated question grade (or the fixed error grade), the per-submission
    totals, and the fixed grades for a failed or an empty submission. The chat model and the JSON
    and float parsers are parameters. */
module QaGrading {
  import opened Wrappers
  import opened Text
  import opened PyDict
  import opened Json
  import opened AssignmentConfig
  import opened GradingResult
  import opened PromptBuilder
  import opened AnswerExtraction
  import opened Seqs

  datatype Services = Services(
    gradeQuestion: QuestionPrompt -> Option<string>, // the chat call; None when it raises
    decode: string -> Option<Json>,                  // json.loads
    fenced: string -> Option<string>,                // the JSON object inside a fenced code block
    parseFloat: string -> Option<real>)              // float() on a string

  /** What the model is shown in place of a blank answer. */
  const NoAnswer: string := "No answer provided"

  /** The answer assumed for a question the extraction has no entry for. */
  const MissingAnswer: Answer := Answer("", [], false, Some("Question not found in extraction"))

  const ErrorReasoning: string := "Error: Unable to grade this question due to processing failure"
  const ErrorFeedback: string := "Please contact instructor for manual review"
  const DefaultReasoning: string := "No reasoning provided"

  /** A string with a non-space character is not blank. */
  lemma NotBlankAt(s: string, i: nat)
    requires i < |s| && !IsSpace(s[i])
    ensures !IsBlank(s)
  {
    BlankIffAllSpace(s);
  }

  /** The answer text the model is shown: a blank answer is replaced, so the model always sees
      something to grade. */
  function ShownAnswer(text: string): (r: string)
    ensures IsBlank(text) ==> r == NoAnswer
    ensures !IsBlank(text) ==> r == text
    ensures !IsBlank(r)
  {
    if IsBlank(text) then
      assert NoAnswer[0] == 'N';
      NotBlankAt(NoAnswer, 0);
      NoAnswer
    else text
  }

  /** The single-question prompt the model is asked with. A blank answer is still sent to the
      model, as the placeholder text. */
  function AskedPrompt(m: Mode, a: Assignment, q: Question, ans: Answer, context: Option<string>): (p: QuestionPrompt)
    ensures p.question == FormatQuestion(m, a, q)
    ensures IsBlank(ans.text) ==> p.studentAnswer == NoAnswer
    ensures !IsBlank(ans.text) ==> p.studentAnswer == ans.text
    ensures !IsBlank(p.studentAnswer)
  {
    BuildQuestionPrompt(m, a, q, ShownAnswer(ans.text), context)
  }

  // ----- Reading the reply -----

  /** A required string field with a default: the default when the key is missing, the string
      when it holds one, and a validation failure for any other value (null included). */
  function StrField(fields: Dict<Json>, key: string, default: string): (r: Option<string>)
    ensures Field(fields, key).None? ==> r == Some(default)
    ensures Field(fields, key).Some? ==> (r.Some? <==> Field(fields, key).value.JStr?)
    ensures Field(fields, key).Some? && r.Some? ==> r.value == Field(fields, key).value.s
  {
    match Field(fields, key)
    case None => Some(default)
    case Some(v) => if v.JStr? then Some(v.s) else None
  }

  /** A float field with a default, through `float()`. */
  function FloatField(fields: Dict<Json>, key: string, default: real, parse: string -> Option<real>): (r: Option<real>)
    ensures Field(fields, key).None? ==> r == Some(default)
    ensures Field(fields, key).Some? ==> r == ToFloat(Field(fields, key).value, parse)
  {
    match Field(fields, key)
    case None => Some(default)
    case Some(v) => ToFloat(v, parse)
  }

  /** An optional string field: absent or null is None; the outer None is a validation failure. */
  function OptStrField(fields: Dict<Json>, key: string): (r: Option<Option<string>>)
    ensures r == Some(None) <==> Field(fields, key).None? || Field(fields, key) == Some(JNull)
    ensures r.Some? && r.value.Some? ==> Field(fields, key) == Some(JStr(r.value.value))
    ensures r.None? <==> Field(fields, key).Some? && !Field(fields, key).value.JNull? && !Field(fields, key).value.JStr?
  {
    match Field(fields, key)
    case None => Some(None)
    case Some(v) =>
      match v
      case JNull => Some(None)
      case JStr(t) => Some(Some(t))
      case _ => None
  }

  /** The strings of a list whose every item is a string. */
  function Strings(items: seq<Json>): (r: Option<seq<string>>)
    ensures r.Some? <==> forall i :: 0 <= i < |items| ==> items[i].JStr?
    ensures r.Some? ==> |r.value| == |items| && forall i :: 0 <= i < |items| ==> items[i] == JStr(r.value[i])
  {
    if |items| == 0 then Some([])
    else
      var rest := Strings(items[1..]);
      assert forall i :: 1 <= i < |items| ==> items[i] == items[1..][i - 1];
      if items[0].JStr? && rest.Some? then
        var r := [items[0].s] + rest.value;
        assert forall i :: 1 <= i < |items| ==> r[i] == rest.value[i - 1];
        Some(r)
      else None
  }

  /** An optional list-of-strings field. */
  function OptStrListField(fields: Dict<Json>, key: string): (r: Option<Option<seq<string>>>)
    ensures r == Some(None) <==> Field(fields, key).None? || Field(fields, key) == Some(JNull)
    ensures r.Some? && r.value.Some? ==>
      Field(fields, key).Some? && Field(fields, key).value.JArr? && Strings(Field(fields, key).value.items) == r.value
  {
    match Field(fields, key)
    case None => Some(None)
    case Some(v) =>
      match v
      case JNull => Some(None)
      case JArr(items) => if Strings(items).Some? then Some(Strings(items)) else None
      case _ => None
  }

  /** An optional string-to-float mapping field: every value must convert. */
  function OptFloatDictField(fields: Dict<Json>, key: string, parse: string -> Option<real>): (r: Option<Option<Dict<real>>>)
    ensures r == Some(None) <==> Field(fields, key).None? || Field(fields, key) == Some(JNull)
    ensures r.Some? && r.value.Some? ==> Field(fields, key).Some? && Field(fields, key).value.JObj?
    ensures r.Some? && r.value.Some? && Field(fields, key).Some? && Field(fields, key).value.JObj? ==>
      var d := Field(fields, key).value.fields;
      && Keys(r.value.value) == Keys(d)
      && forall i :: 0 <= i < |d| ==> ToFloat(d[i].1, parse) == Some(r.value.value[i].1)
  {
    match Field(fields, key)
    case None => Some(None)
    case Some(v) =>
      match v
      case JNull => Some(None)
      case JObj(d) =>
        if forall i :: 0 <= i < |d| ==> ToFloat(d[i].1, parse).Some? then
          Some(Some(seq(|d|, i requires 0 <= i < |d| => (d[i].0, ToFloat(d[i].1, parse).value))))
        else None
      case _ => None
  }

  /** Builds the question grade from a decoded reply: the reply's own question id, score and
      maximum take precedence over the configured ones, the extraction flags are carried over, and
      anything that does not convert or validate fails (None). */
  function ConvertQuestionGrade(data: Json, q: Question, ans: Answer, parse: string -> Option<real>): (r: Option<QuestionGrade>)
    ensures !data.JObj? ==> r.None?
    ensures r.Some? ==> QuestionGradeAccepted(r.value.score, r.value.maxScore)
    ensures r.Some? ==> r.value.extractedFromImage == ans.fromImage && r.value.imageNotes == ans.notes
    ensures r.Some? ==> (Field(data.fields, "question_id").None? ==> r.value.questionId == q.id)
    ensures r.Some? ==> (Field(data.fields, "score").None? ==> r.value.score == 0.0)
    ensures r.Some? ==> (Field(data.fields, "score").Some? ==>
                          ToFloat(Field(data.fields, "score").value, parse) == Some(r.value.score))
    ensures r.Some? ==> (Field(data.fields, "max_score").None? ==> r.value.maxScore == q.points)
    ensures r.Some? ==> (Field(data.fields, "max_score").Some? ==>
                          ToFloat(Field(data.fields, "max_score").value, parse) == Some(r.value.maxScore))
  {
    if !data.JObj? then None
    else
      var f := data.fields;
      var id := StrField(f, "question_id", q.id);
      var score := FloatField(f, "score", 0.0, parse);
      var maxScore := FloatField(f, "max_score", q.points, parse);
      var reasoning := StrField(f, "reasoning", DefaultReasoning);
      var feedback := OptStrField(f, "feedback");
      var met := OptStrListField(f, "criteria_met");
      var missed := OptStrListField(f, "criteria_missed");
      var deductions := OptFloatDictField(f, "deductions", parse);
      if id.Some? && score.Some? && maxScore.Some? && reasoning.Some? && feedback.Some?
         && met.Some? && missed.Some? && deductions.Some? then
        MakeQuestionGrade(id.value, score.value, maxScore.value, reasoning.value, feedback.value,
                          met.value, missed.value, deductions.value, ans.fromImage, ans.notes)
      else None
  }

  /** `_create_error_question_grade`: nothing earned, the configured maximum, a fixed explanation. */
  function ErrorQuestionGrade(q: Question, ans: Answer): (g: QuestionGrade)
    requires q.points > 0.0
    ensures g.questionId == q.id && g.score == 0.0 && g.maxScore == q.points
    ensures g.reasoning == ErrorReasoning && g.feedback == Some(ErrorFeedback)
    ensures g.extractedFromImage == ans.fromImage && g.imageNotes == ans.notes
  {
    MakeQuestionGrade(q.id, 0.0, q.points, ErrorReasoning, Some(ErrorFeedback), None, None, None,
                      ans.fromImage, ans.notes).value
  }

  /** `grade_single_question`. The model is always asked (a blank answer as the placeholder). A
      failed call, an unparsable or empty reply, or a reply that does not convert gives the error
      grade; otherwise the converted grade. Either way the result is a valid grade carrying the
      extraction flags. */
  function GradeSingleQuestion(m: Mode, a: Assignment, q: Question, ans: Answer, context: Option<string>,
                               s: Services): (g: QuestionGrade)
    requires q.points > 0.0
    ensures QuestionGradeAccepted(g.score, g.maxScore)
    ensures g.extractedFromImage == ans.fromImage && g.imageNotes == ans.notes
    ensures var reply := s.gradeQuestion(AskedPrompt(m, a, q, ans, context));
      var data := if reply.Some? then ParseModelJson(reply.value, s.decode, s.fenced) else None;
      && (data.None? || !Truthy(data.value) ==> g == ErrorQuestionGrade(q, ans))
      && (data.Some? && Truthy(data.value) && ConvertQuestionGrade(data.value, q, ans, s.parseFloat).Some? ==>
            g == ConvertQuestionGrade(data.value, q, ans, s.parseFloat).value)
      && (g != ErrorQuestionGrade(q, ans) ==> data.Some? && data.value.JObj?)
  {
    var reply := s.gradeQuestion(AskedPrompt(m, a, q, ans, context));
    var data := if reply.Some? then ParseModelJson(reply.value, s.decode, s.fenced) else None;
    if data.None? || !Truthy(data.value) then ErrorQuestionGrade(q, ans)
    else
      match ConvertQuestionGrade(data.value, q, ans, s.parseFloat)
      case Some(g) => g
      case None => ErrorQuestionGrade(q, ans)
  }

  // ----- The whole submission -----

  /** One line of context: the other question's id and the start of its answer, always with `...`. */
  function ContextLine(id: string, ans: Answer): (line: string)
    ensures StartsWith(line, id + ": ") && EndsWith(line, "...")
    ensures |line| <= |id| + 2 + 100 + 3
  {
    var line := id + ": " + Take(ans.text, 100) + "...";
    assert line[..|id| + 2] == id + ": ";
    assert line[|line| - 3..] == "...";
    line
  }

  /** The context lines for question `id`: one per extracted answer of another question, in the
      extraction's order. */
  function OtherLines(answers: Dict<Answer>, id: string): (lines: seq<string>)
    ensures |lines| <= |answers|
    ensures !HasKey(answers, id) ==> |lines| == |answers|
    ensures forall i :: 0 <= i < |lines| ==>
      exists j :: 0 <= j < |answers| && answers[j].0 != id && lines[i] == ContextLine(answers[j].0, answers[j].1)
  {
    if |answers| == 0 then []
    else
      var rest := OtherLines(answers[1..], id);
      assert forall j :: 1 <= j < |answers| ==> answers[j] == answers[1..][j - 1];
      assert !HasKey(answers, id) ==> !HasKey(answers[1..], id) by {
        if HasKey(answers[1..], id) {
          var j :| 0 <= j < |answers[1..]| && answers[1..][j].0 == id;
          assert answers[j + 1].0 == id;
        }
      }
      if answers[0].0 != id then
        var lines := [ContextLine(answers[0].0, answers[0].1)] + rest;
        assert forall i :: 1 <= i < |lines| ==> lines[i] == rest[i - 1];
        lines
      else rest
  }

  function ContextLineOf(p: (string, Answer)): string {
    ContextLine(p.0, p.1)
  }

  /** Entries for questions other than `id`. */
  function OtherThan(id: string): ((string, Answer)) -> bool {
    (p: (string, Answer)) => p.0 != id
  }

  /** The context lines are exactly the lines of the other questions' answers, in order. */
  lemma {:induction false} OtherLinesAreOthers(answers: Dict<Answer>, id: string)
    ensures OtherLines(answers, id) == Map(ContextLineOf, Filter(answers, OtherThan(id)))
  {
    if |answers| > 0 {
      var rest := Filter(answers[1..], OtherThan(id));
      OtherLinesAreOthers(answers[1..], id);
      if answers[0].0 != id {
        MapAppend(ContextLineOf, [answers[0]], rest);
      }
    }
  }

  /** How many other answers the context shows. */
  const ContextAnswers: nat := 3

  /** The context for question `id`: none for a single-question assignment, else the first three
      other answers' lines (possibly none at all, which the prompt then leaves out). */
  function ContextFor(answers: Dict<Answer>, id: string, questionCount: nat): (c: Option<string>)
    ensures questionCount <= 1 <==> c.None?
    ensures c.Some? ==> c.value == Join(Take(OtherLines(answers, id), ContextAnswers), "\n")
  {
    if questionCount > 1 then Some(Join(Take(OtherLines(answers, id), ContextAnswers), "\n")) else None
  }

  /** With several questions the context joins the lines of the first three other answers. */
  lemma ContextShowsFirstOthers(answers: Dict<Answer>, id: string, questionCount: nat)
    requires questionCount > 1
    ensures var others := Filter(answers, OtherThan(id));
      var shown := if |others| <= ContextAnswers then |others| else ContextAnswers;
      ContextFor(answers, id, questionCount) == Some(Join(Map(ContextLineOf, others[..shown]), "\n"))
  {
    var others := Filter(answers, OtherThan(id));
    var shown := if |others| <= ContextAnswers then |others| else ContextAnswers;
    OtherLinesAreOthers(answers, id);
    MapSlice(ContextLineOf, others, 0, shown);
    assert others[0..shown] == others[..shown];
  }

  /** The grade of one question of the assignment, with its extracted answer and context. */
  function GradeQuestion(m: Mode, a: Assignment, q: Question, answers: Dict<Answer>, s: Services): (g: QuestionGrade)
    requires q.points > 0.0
    ensures QuestionGradeAccepted(g.score, g.maxScore)
    ensures HasKey(answers, q.id) ==> g.extractedFromImage == Get(answers, q.id).value.fromImage
    ensures !HasKey(answers, q.id) ==> !g.extractedFromImage && g.imageNotes == MissingAnswer.notes
  {
    GradeSingleQuestion(m, a, q, GetOr(answers, q.id, MissingAnswer), ContextFor(answers, q.id, |a.questions|), s)
  }

  function GradeAll(m: Mode, a: Assignment, qs: seq<Question>, answers: Dict<Answer>, s: Services): (gs: seq<QuestionGrade>)
    requires forall i :: 0 <= i < |qs| ==> qs[i].points > 0.0
    ensures |gs| == |qs|
    ensures forall i :: 0 <= i < |qs| ==> gs[i] == GradeQuestion(m, a, qs[i], answers, s)
    ensures forall i :: 0 <= i < |qs| ==> QuestionGradeAccepted(gs[i].score, gs[i].maxScore)
  {
    seq(|qs|, i requires 0 <= i < |qs| => GradeQuestion(m, a, qs[i], answers, s))
  }

  /** `grade_submission_with_extraction`. For a validated configuration every step succeeds, so
      the error grade is never produced: one grade per configured question in order, the totals
      are the sums of the question scores and maxima, and the comment is left to the report. */
  function GradeSubmissionWithExtraction(m: Mode, a: Assignment, studentName: string, answers: Dict<Answer>,
                                         studentId: Option<string>, submissionFile: Option<string>,
                                         model: string, now: string, s: Services): (g: AssignmentGrade)
    requires ValidAssignment(a)
    ensures |g.questions| == |a.questions|
    ensures forall i :: 0 <= i < |a.questions| ==> g.questions[i] == GradeQuestion(m, a, a.questions[i], answers, s)
    ensures g.totalScore == SumScores(g.questions) && g.maxScore == SumMaxScores(g.questions)
    ensures g.totalScore >= 0.0 && g.maxScore > 0.0
    ensures g.studentName == studentName && g.overallComment.None? && !g.requiresHumanReview
  {
    var gs := GradeAll(m, a, a.questions, answers, s);
    SumsOfAcceptedGrades(gs);
    MakeAssignmentGrade(studentName, studentId, submissionFile, a.assignmentId, Some(a.assignmentName),
                        SumScores(gs), SumMaxScores(gs), gs, None, now, Some(model), false, None).value
  }

  // ----- Fixed grades -----

  /** A zero grade for every configured question, with the given explanation. */
  function ZeroGrades(qs: seq<Question>, reasoning: string, feedback: string): (gs: seq<QuestionGrade>)
    requires forall i :: 0 <= i < |qs| ==> qs[i].points > 0.0
    ensures |gs| == |qs|
    ensures forall i :: 0 <= i < |qs| ==>
      && gs[i].questionId == qs[i].id && gs[i].score == 0.0 && gs[i].maxScore == qs[i].points
      && gs[i].reasoning == reasoning && gs[i].feedback == Some(feedback) && !gs[i].extractedFromImage
  {
    seq(|qs|, i requires 0 <= i < |qs| =>
      MakeQuestionGrade(qs[i].id, 0.0, qs[i].points, reasoning, Some(feedback), None, None, None, false, None).value)
  }

  /** Zero grades at the configured maxima sum to nothing earned out of the configured points. */
  lemma {:induction false} ZeroGradesSum(qs: seq<Question>, gs: seq<QuestionGrade>)
    requires |gs| == |qs|
    requires forall i :: 0 <= i < |qs| ==> gs[i].score == 0.0 && gs[i].maxScore == qs[i].points
    ensures SumScores(gs) == 0.0 && SumMaxScores(gs) == SumPoints(qs)
  {
    if |qs| > 0 {
      ZeroGradesSum(qs[..|qs| - 1], gs[..|gs| - 1]);
    }
  }

  const ErrorComment: string := "Error processing submission - requires manual review"
  const ErrorReviewReason: string := "Processing error during automated grading"
  const EmptyReasoning: string := "No submission or empty submission"
  const EmptyFeedback: string := "No response provided for this question"
  const EmptyComment: string := "No submission provided"

  /** `_create_error_grade`: zero for every question and flagged for review. Its maximum is the
      configured total, or 0 when there is none, and a zero maximum fails validation: the error
      grade itself raises (None) exactly when the configuration has no positive total. */
  function ErrorGrade(a: Assignment, studentName: string, studentId: Option<string>, submissionFile: Option<string>,
                      model: string, now: string): (r: Option<AssignmentGrade>)
    requires ValidAssignment(a)
    ensures r.Some? <==> TotalOrZero(a) > 0.0
    ensures r.Some? ==>
      && r.value.totalScore == 0.0 && r.value.maxScore == TotalOrZero(a)
      && r.value.requiresHumanReview && r.value.reviewReason == Some(ErrorReviewReason)
      && r.value.overallComment == Some(ErrorComment)
      && r.value.questions == ZeroGrades(a.questions, ErrorReasoning, ErrorFeedback)
  {
    MakeAssignmentGrade(studentName, studentId, submissionFile, a.assignmentId, Some(a.assignmentName), 0.0,
                        TotalOrZero(a), ZeroGrades(a.questions, ErrorReasoning, ErrorFeedback), Some(ErrorComment),
                        now, Some(model), true, Some(ErrorReviewReason))
  }

  /** `grade_empty_submission`: zero for every question, not flagged; it raises (None) under the
      same condition as the error grade. */
  function EmptyGrade(a: Assignment, studentName: string, studentId: Option<string>, submissionFile: Option<string>,
                      model: string, now: string): (r: Option<AssignmentGrade>)
    requires ValidAssignment(a)
    ensures r.Some? <==> TotalOrZero(a) > 0.0
    ensures r.Some? ==>
      && r.value.totalScore == 0.0 && r.value.maxScore == TotalOrZero(a)
      && !r.value.requiresHumanReview && r.value.reviewReason.None?
      && r.value.overallComment == Some(EmptyComment)
      && r.value.questions == ZeroGrades(a.questions, EmptyReasoning, EmptyFeedback)
  {
    MakeAssignmentGrade(studentName, studentId, submissionFile, a.assignmentId, Some(a.assignmentName), 0.0,
                        TotalOrZero(a), ZeroGrades(a.questions, EmptyReasoning, EmptyFeedback), Some(EmptyComment),
                        now, Some(model), false, None)
  }

  /** The fixed grades are internally consistent only when the configured total equals the sum of
      the question points: their question maxima always add up to that sum. */
  lemma FixedGradesQuestionsSum(a: Assignment, reasoning: string, feedback: string)
    requires ValidAssignment(a)
    ensures var gs := ZeroGrades(a.questions, reasoning, feedback);
      SumScores(gs) == 0.0 && SumMaxScores(gs) == SumPoints(a.questions)
  {
    ZeroGradesSum(a.questions, ZeroGrades(a.questions, reasoning, feedback));
  }

  /** When the model cannot be reached at all, every question gets the error grade and the
      submission scores nothing out of the configured points. */
  lemma ModelUnavailableScoresZero(m: Mode, a: Assignment, studentName: string, answers: Dict<Answer>,
                                   studentId: Option<string>, submissionFile: Option<string>,
                                   model: string, now: string, s: Services)
    requires ValidAssignment(a)
    requires forall p :: s.gradeQuestion(p).None?
    ensures var g := GradeSubmissionWithExtraction(m, a, studentName, answers, studentId, submissionFile, model, now, s);
      && g.totalScore == 0.0 && g.maxScore == SumPoints(a.questions)
      && forall i :: 0 <= i < |g.questions| ==> g.questions[i].reasoning == ErrorReasoning
  {
    var g := GradeSubmissionWithExtraction(m, a, studentName, answers, studentId, submissionFile, model, now, s);
    forall i | 0 <= i < |a.questions|
      ensures g.questions[i].score == 0.0 && g.questions[i].maxScore == a.questions[i].points
      ensures g.questions[i].reasoning == ErrorReasoning
    {
      var q := a.questions[i];
      var ans := GetOr(answers, q.id, MissingAnswer);
      var ctx := ContextFor(answers, q.id, |a.questions|);
      assert s.gradeQuestion(AskedPrompt(m, a, q, ans, ctx)).None?;
      assert g.questions[i] == ErrorQuestionGrade(q, ans);
    }
    ZeroGradesSum(a.questions, g.questions);
  }
}
