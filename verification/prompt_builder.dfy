/** What the grading prompts disclose to the model. The wording of the prompts is not modelled;
    each prompt is a record of the pieces of the configuration it carries, so the rules about
    which pieces appear in which grading mode can be stated and compared. */
module PromptBuilder {
  import opened Wrappers
  import opened Text
  import opened PyDict
  import opened Json
  import opened AssignmentConfig

  /** The three grading modes. */
  datatype Mode = Basic | Standard | Full

  /** The constructor's mode check: an unrecognised mode falls back to full disclosure. */
  function NormalizeMode(mode: string): (m: Mode)
    ensures m == Basic <==> mode == "basic"
    ensures m == Standard <==> mode == "standard"
    ensures m == Full <==> mode != "basic" && mode != "standard"
  {
    if mode == "basic" then Basic else if mode == "standard" then Standard else Full
  }

  /** The name the command line and output directories use for a mode. */
  function ModeName(m: Mode): (s: string)
    ensures NormalizeMode(s) == m
  {
    match m
    case Basic => "basic"
    case Standard => "standard"
    case Full => "full"
  }

  /** Python truthiness of an optional string: present and non-empty. */
  predicate SomeText(o: Option<string>) {
    o.Some? && o.value != ""
  }

  /** The same for an optional real: present and non-zero. */
  predicate SomeAmount(o: Option<real>) {
    o.Some? && o.value != 0.0
  }

  /** The pieces of a rubric a prompt shows. */
  datatype RubricBlock = RubricBlock(
    criteria: seq<string>,        // the criteria list, empty when the block is left out
    fullCredit: Option<real>,
    mostlyCorrect: Option<real>,
    attempted: Option<real>,
    noSubmission: real,
    instructions: Option<string>,
    customScoring: Dict<Json>)    // empty when the block is left out

  /** The rubric as the prompt shows it. The criteria and the additional instructions appear only in
      standard and full mode; the scoring lines and the custom rules appear in every mode. The
      full-credit line uses the rubric's own `correct` amount, else the question's points when they
      are given and non-zero, else it is left out. */
  function FormatRubric(m: Mode, r: Rubric, points: Option<real>): (b: RubricBlock)
    ensures |b.criteria| > 0 <==> m != Basic && r.criteria.Some? && |r.criteria.value| > 0
    ensures |b.criteria| > 0 ==> b.criteria == r.criteria.value
    ensures b.instructions.Some? <==> m != Basic && SomeText(r.instructions)
    ensures b.instructions.Some? ==> b.instructions == r.instructions
    ensures r.correct.Some? ==> b.fullCredit == r.correct
    ensures r.correct.None? && SomeAmount(points) ==> b.fullCredit == points
    ensures r.correct.None? && !SomeAmount(points) ==> b.fullCredit.None?
    ensures b.noSubmission == r.noSubmission && b.mostlyCorrect == r.mostlyCorrect && b.attempted == r.attempted
    ensures b.customScoring == if r.customScoring.Some? then r.customScoring.value else []
  {
    var criteria := if m != Basic && r.criteria.Some? then r.criteria.value else [];
    var full := if r.correct.Some? then r.correct else if SomeAmount(points) then points else None;
    var instructions := if m != Basic && SomeText(r.instructions) then r.instructions else None;
    var custom := if r.customScoring.Some? then r.customScoring.value else [];
    RubricBlock(criteria, full, r.mostlyCorrect, r.attempted, r.noSubmission, instructions, custom)
  }

  /** A rubric left at its defaults shows the same block in every mode: a zero for no submission,
      the question's points as full credit when they are given and non-zero, and nothing else. */
  lemma DefaultRubricBlock(m: Mode, points: Option<real>)
    ensures var b := FormatRubric(m, DefaultRubric(), points);
      && b == FormatRubric(Full, DefaultRubric(), points)
      && b.criteria == [] && b.instructions.None? && b.customScoring == []
      && b.noSubmission == 0.0 && b.attempted.None? && b.mostlyCorrect.None?
      && (b.fullCredit.Some? <==> SomeAmount(points))
      && (b.fullCredit.Some? ==> b.fullCredit == points)
  {
  }

  /** `b` shows nothing `c` does not: every block `b` includes, `c` includes with the same content. */
  predicate RubricWithin(b: RubricBlock, c: RubricBlock) {
    && (|b.criteria| == 0 || b.criteria == c.criteria)
    && (b.instructions.None? || b.instructions == c.instructions)
    && b.fullCredit == c.fullCredit && b.mostlyCorrect == c.mostlyCorrect && b.attempted == c.attempted
    && b.noSubmission == c.noSubmission && b.customScoring == c.customScoring
  }

  /** The effective rubric of a question: its own, or else the general rubric. */
  function EffectiveRubric(a: Assignment, q: Question): (r: Option<Rubric>)
    ensures q.rubric.Some? ==> r == q.rubric
    ensures q.rubric.None? ==> r == a.generalRubric
  {
    if q.rubric.Some? then q.rubric else a.generalRubric
  }

  /** One question as the whole-assignment prompt shows it. */
  datatype QuestionBlock = QuestionBlock(
    id: string,
    text: string,
    points: real,
    answerKey: Option<string>,
    rubric: Option<RubricBlock>)

  function FormatQuestion(m: Mode, a: Assignment, q: Question): (b: QuestionBlock)
    ensures b.id == q.id && b.text == q.text && b.points == q.points
    ensures b.answerKey.Some? <==> m == Full && SomeText(q.answerKey)
    ensures b.answerKey.Some? ==> b.answerKey == q.answerKey
    ensures b.rubric.Some? <==> q.rubric.Some? || a.generalRubric.Some?
  {
    var key := if m == Full && SomeText(q.answerKey) then q.answerKey else None;
    var rubric := EffectiveRubric(a, q);
    QuestionBlock(q.id, q.text, q.points, key,
                  if rubric.Some? then Some(FormatRubric(m, rubric.value, Some(q.points))) else None)
  }

  function FormatQuestions(m: Mode, a: Assignment, qs: seq<Question>): (bs: seq<QuestionBlock>)
    ensures |bs| == |qs|
    ensures forall i :: 0 <= i < |qs| ==> bs[i] == FormatQuestion(m, a, qs[i])
  {
    if |qs| == 0 then [] else [FormatQuestion(m, a, qs[0])] + FormatQuestions(m, a, qs[1..])
  }

  /** The whole-assignment system prompt. */
  datatype SystemPrompt = SystemPrompt(
    assignmentName: string,
    courseCode: Option<string>,
    term: Option<string>,
    totalPoints: Option<real>,
    instructions: Option<string>,
    questions: seq<QuestionBlock>,
    generalRubric: Option<RubricBlock>,
    answerKeyDocument: Option<string>,
    partialCredit: bool)

  /** Whether any question carries its own rubric. */
  predicate AnyQuestionRubric(qs: seq<Question>) {
    exists i :: 0 <= i < |qs| && qs[i].rubric.Some?
  }

  /** `build_system_prompt`: the assignment's own details, every question (with its answer key in
      full mode and its effective rubric), the general rubric on its own only when no question has a
      rubric of its own, and the complete answer-key document in full mode. */
  function BuildSystemPrompt(m: Mode, a: Assignment): (p: SystemPrompt)
    ensures |p.questions| == |a.questions|
    ensures p.generalRubric.Some? <==> a.generalRubric.Some? && !AnyQuestionRubric(a.questions)
    ensures p.answerKeyDocument.Some? <==> m == Full && SomeText(a.answerKeyText)
    ensures p.answerKeyDocument.Some? ==> p.answerKeyDocument == a.answerKeyText
    ensures p.courseCode.Some? <==> SomeText(a.courseCode)
  {
    SystemPrompt(
      a.assignmentName,
      if SomeText(a.courseCode) then a.courseCode else None,
      if SomeText(a.term) then a.term else None,
      a.totalPoints,
      if SomeText(a.gradingInstructions) then a.gradingInstructions else None,
      FormatQuestions(m, a, a.questions),
      if a.generalRubric.Some? && !AnyQuestionRubric(a.questions)
      then Some(FormatRubric(m, a.generalRubric.value, None)) else None,
      if m == Full && SomeText(a.answerKeyText) then a.answerKeyText else None,
      a.allowPartialCredit)
  }

  /** The context shown with a single question: at most 500 characters, then `...` when cut. */
  const ContextLimit: nat := 500

  /** The single-question prompt pair (system and user parts together). */
  datatype QuestionPrompt = QuestionPrompt(
    assignmentName: string,
    courseCode: Option<string>,
    question: QuestionBlock,
    studentAnswer: string,
    context: Option<string>)

  /** `build_single_question_prompt`. The question block follows the same disclosure rules as in
      the whole-assignment prompt; a context is shown only when it is non-empty, cut to its first
      500 characters plus `...` when longer. */
  function BuildQuestionPrompt(m: Mode, a: Assignment, q: Question, answer: string, context: Option<string>)
    : (p: QuestionPrompt)
    ensures p.question == FormatQuestion(m, a, q) && p.studentAnswer == answer
    ensures p.context.Some? <==> SomeText(context)
    ensures p.context.Some? && |context.value| <= ContextLimit ==> p.context == context
    ensures p.context.Some? && |context.value| > ContextLimit ==>
      && |p.context.value| == ContextLimit + 3 && StartsWith(p.context.value, context.value[..ContextLimit])
      && EndsWith(p.context.value, "...")
  {
    QuestionPrompt(a.assignmentName, if SomeText(a.courseCode) then a.courseCode else None,
                   FormatQuestion(m, a, q), answer,
                   if SomeText(context) then Some(Ellipsize(context.value, ContextLimit)) else None)
  }

  // ----- Disclosure is nested -----

  /** The order of the modes by how much they disclose. */
  predicate ModeLe(m: Mode, n: Mode) {
    m == Basic || n == Full || m == n
  }

  predicate QuestionWithin(b: QuestionBlock, c: QuestionBlock) {
    && b.id == c.id && b.text == c.text && b.points == c.points
    && (b.answerKey.None? || b.answerKey == c.answerKey)
    && (b.rubric.Some? <==> c.rubric.Some?)
    && (b.rubric.Some? ==> RubricWithin(b.rubric.value, c.rubric.value))
  }

  predicate SystemWithin(p: SystemPrompt, q: SystemPrompt) {
    && p.assignmentName == q.assignmentName && p.courseCode == q.courseCode && p.term == q.term
    && p.totalPoints == q.totalPoints && p.instructions == q.instructions
    && p.partialCredit == q.partialCredit
    && |p.questions| == |q.questions|
    && (forall i :: 0 <= i < |p.questions| ==> QuestionWithin(p.questions[i], q.questions[i]))
    && (p.generalRubric.Some? <==> q.generalRubric.Some?)
    && (p.generalRubric.Some? ==> RubricWithin(p.generalRubric.value, q.generalRubric.value))
    && (p.answerKeyDocument.None? || p.answerKeyDocument == q.answerKeyDocument)
  }

  /** A mode that discloses more shows every rubric piece a lesser mode shows. */
  lemma RubricDisclosureNested(m: Mode, n: Mode, r: Rubric, points: Option<real>)
    requires ModeLe(m, n)
    ensures RubricWithin(FormatRubric(m, r, points), FormatRubric(n, r, points))
  {
  }

  lemma QuestionDisclosureNested(m: Mode, n: Mode, a: Assignment, q: Question)
    requires ModeLe(m, n)
    ensures QuestionWithin(FormatQuestion(m, a, q), FormatQuestion(n, a, q))
  {
    var r := EffectiveRubric(a, q);
    if r.Some? {
      RubricDisclosureNested(m, n, r.value, Some(q.points));
    }
  }

  /** Basic ⊆ standard ⊆ full for the whole-assignment prompt. */
  lemma SystemDisclosureNested(m: Mode, n: Mode, a: Assignment)
    requires ModeLe(m, n)
    ensures SystemWithin(BuildSystemPrompt(m, a), BuildSystemPrompt(n, a))
  {
    var p := BuildSystemPrompt(m, a);
    var q := BuildSystemPrompt(n, a);
    forall i | 0 <= i < |p.questions| ensures QuestionWithin(p.questions[i], q.questions[i]) {
      QuestionDisclosureNested(m, n, a, a.questions[i]);
    }
    if a.generalRubric.Some? {
      RubricDisclosureNested(m, n, a.generalRubric.value, None);
    }
  }

  /** Basic ⊆ standard ⊆ full for the single-question prompt. */
  lemma QuestionPromptDisclosureNested(m: Mode, n: Mode, a: Assignment, q: Question, answer: string,
                                       context: Option<string>)
    requires ModeLe(m, n)
    ensures var p := BuildQuestionPrompt(m, a, q, answer, context);
      var p' := BuildQuestionPrompt(n, a, q, answer, context);
      QuestionWithin(p.question, p'.question) && p.context == p'.context && p.studentAnswer == p'.studentAnswer
  {
    QuestionDisclosureNested(m, n, a, q);
  }

  /** No answer key of any kind reaches the model outside full mode. */
  lemma AnswerKeysOnlyInFull(m: Mode, a: Assignment)
    requires m != Full
    ensures var p := BuildSystemPrompt(m, a);
      p.answerKeyDocument.None? && forall i :: 0 <= i < |p.questions| ==> p.questions[i].answerKey.None?
  {
  }

  /** Basic mode shows no criteria and no rubric instructions anywhere. */
  lemma BasicShowsNoCriteria(a: Assignment)
    ensures var p := BuildSystemPrompt(Basic, a);
      && (forall i :: 0 <= i < |p.questions| && p.questions[i].rubric.Some? ==>
            |p.questions[i].rubric.value.criteria| == 0 && p.questions[i].rubric.value.instructions.None?)
      && (p.generalRubric.Some? ==> |p.generalRubric.value.criteria| == 0 && p.generalRubric.value.instructions.None?)
  {
  }
}
