/** Grading results: the per-question grade, the per-submission grade, the checks the model
    classes apply when one is built, percentages, letter grades and the flat export row. */
module GradingResult {
  import opened Wrappers
  import opened Text
  import opened PyDict

  datatype QuestionGrade = QuestionGrade(
    questionId: string,
    score: real,
    maxScore: real,
    reasoning: string,
    feedback: Option<string>,
    criteriaMet: Option<seq<string>>,
    criteriaMissed: Option<seq<string>>,
    deductions: Option<Dict<real>>,
    extractedFromImage: bool,
    imageNotes: Option<string>)

  datatype AssignmentGrade = AssignmentGrade(
    studentName: string,
    studentId: Option<string>,
    submissionFile: Option<string>,
    assignmentId: string,
    assignmentName: Option<string>,
    totalScore: real,
    maxScore: real,
    questions: seq<QuestionGrade>,
    overallComment: Option<string>,
    strengths: Option<seq<string>>,
    areasForImprovement: Option<seq<string>>,
    gradedAt: string,
    gradedBy: string,
    llmModel: Option<string>,
    requiresHumanReview: bool,
    reviewReason: Option<string>)

  /** The field constraints a question grade passes: a non-negative score and a positive maximum.
      The "score may not exceed max_score" validator is declared on `score`, which is validated
      before `max_score`, so it never sees a maximum and never rejects anything. */
  predicate QuestionGradeAccepted(score: real, maxScore: real) {
    score >= 0.0 && maxScore > 0.0
  }

  /** Constructing a question grade: None when validation raises. */
  function MakeQuestionGrade(questionId: string, score: real, maxScore: real, reasoning: string,
                             feedback: Option<string>, criteriaMet: Option<seq<string>>,
                             criteriaMissed: Option<seq<string>>, deductions: Option<Dict<real>>,
                             extractedFromImage: bool, imageNotes: Option<string>): (r: Option<QuestionGrade>)
    ensures r.Some? <==> score >= 0.0 && maxScore > 0.0
    ensures r.Some? ==> r.value.score == score && r.value.maxScore == maxScore && r.value.questionId == questionId
  {
    if QuestionGradeAccepted(score, maxScore) then
      Some(QuestionGrade(questionId, score, maxScore, reasoning, feedback, criteriaMet, criteriaMissed,
                         deductions, extractedFromImage, imageNotes))
    else None
  }

  /** A score above the maximum is accepted: the ordering check is unreachable. */
  lemma ScoreAboveMaxAccepted()
    ensures var g := MakeQuestionGrade("q1", 12.0, 10.0, "r", None, None, None, None, false, None);
      g.Some? && g.value.score > g.value.maxScore
  {
  }

  function SumScores(qs: seq<QuestionGrade>): real {
    if |qs| == 0 then 0.0 else SumScores(qs[..|qs| - 1]) + qs[|qs| - 1].score
  }

  function SumMaxScores(qs: seq<QuestionGrade>): real {
    if |qs| == 0 then 0.0 else SumMaxScores(qs[..|qs| - 1]) + qs[|qs| - 1].maxScore
  }

  /** Every accepted question grade has a positive maximum, so a non-empty list sums to a
      positive maximum and a non-negative total. */
  lemma {:induction false} SumsOfAcceptedGrades(qs: seq<QuestionGrade>)
    requires forall i :: 0 <= i < |qs| ==> QuestionGradeAccepted(qs[i].score, qs[i].maxScore)
    ensures SumScores(qs) >= 0.0
    ensures |qs| > 0 ==> SumMaxScores(qs) > 0.0
  {
    if |qs| > 0 {
      SumsOfAcceptedGrades(qs[..|qs| - 1]);
    }
  }

  /** The field constraints an assignment grade passes. The total-versus-maximum validator is
      unreachable for the same field-order reason, and a total that differs from the sum of the
      question scores only logs a warning. */
  predicate AssignmentGradeAccepted(totalScore: real, maxScore: real, questions: seq<QuestionGrade>) {
    totalScore >= 0.0 && maxScore > 0.0 && |questions| >= 1
  }

  /** Constructing an assignment grade: None when validation raises. */
  function MakeAssignmentGrade(studentName: string, studentId: Option<string>, submissionFile: Option<string>,
                               assignmentId: string, assignmentName: Option<string>, totalScore: real,
                               maxScore: real, questions: seq<QuestionGrade>, overallComment: Option<string>,
                               gradedAt: string, llmModel: Option<string>,
                               requiresHumanReview: bool, reviewReason: Option<string>): (r: Option<AssignmentGrade>)
    ensures r.Some? <==> totalScore >= 0.0 && maxScore > 0.0 && |questions| >= 1
    ensures r.Some? ==>
      && r.value.totalScore == totalScore && r.value.maxScore == maxScore
      && r.value.questions == questions && r.value.studentName == studentName
      && r.value.requiresHumanReview == requiresHumanReview && r.value.reviewReason == reviewReason
      && r.value.overallComment == overallComment && r.value.strengths.None?
  {
    if AssignmentGradeAccepted(totalScore, maxScore, questions) then
      Some(AssignmentGrade(studentName, studentId, submissionFile, assignmentId, assignmentName,
                           totalScore, maxScore, questions, overallComment, None, None, gradedAt, "AI",
                           llmModel, requiresHumanReview, reviewReason))
    else None
  }

  /** A grade whose maximum is zero (an assignment without total points) cannot be built. */
  lemma ZeroMaximumRejected(q: QuestionGrade)
    ensures MakeAssignmentGrade("s", None, None, "a", None, 0.0, 0.0, [q], None, "t", None, false, None).None?
  {
  }

  /** `score / max_score * 100`, or 0 when the maximum is not positive. */
  function Percentage(score: real, maxScore: real): (p: real)
    ensures maxScore > 0.0 ==> p * maxScore == score * 100.0
    ensures maxScore > 0.0 && 0.0 <= score <= maxScore ==> 0.0 <= p <= 100.0
    ensures maxScore <= 0.0 ==> p == 0.0
  {
    if maxScore > 0.0 then score / maxScore * 100.0 else 0.0
  }

  /** The integer nearest to `y`, the even one of two equally near (Python's `round`). */
  function RoundHalfEven(y: real): (n: int)
    ensures n as real - 0.5 <= y <= n as real + 0.5
    ensures y == n as real - 0.5 || y == n as real + 0.5 ==> n % 2 == 0
  {
    var f := y.Floor;
    var d := y - f as real;
    if d < 0.5 then f
    else if d > 0.5 then f + 1
    else if f % 2 == 0 then f
    else f + 1
  }

  /** Only one integer is that near and, on a tie, even. */
  lemma RoundHalfEvenUnique(y: real, m: int)
    requires m as real - 0.5 <= y <= m as real + 0.5
    requires y == m as real - 0.5 || y == m as real + 0.5 ==> m % 2 == 0
    ensures m == RoundHalfEven(y)
  {
  }

  /** `round(x, 2)`: the nearest number of hundredths, ties to the even one. */
  function Round2(x: real): (r: real)
    ensures r * 100.0 == RoundHalfEven(x * 100.0) as real
    ensures -0.005 <= r - x <= 0.005
  {
    RoundHalfEven(x * 100.0) as real / 100.0
  }

  /** Rounding a number already in hundredths keeps it. */
  lemma Round2Keeps(n: int)
    ensures Round2(n as real / 100.0) == n as real / 100.0
  {
    RoundHalfEvenUnique(n as real, n);
  }

  /** One point out of three is exported as 33.33 percent. */
  lemma ThirdRounded()
    ensures Round2(Percentage(1.0, 3.0)) == 33.33
  {
    assert Percentage(1.0, 3.0) * 100.0 == 10000.0 / 3.0;
    RoundHalfEvenUnique(10000.0 / 3.0, 3333);
  }

  /** A letter scale: letters with their minimum percentages, in the dictionary's order. */
  type Scale = seq<(string, real)>

  const DefaultScale: Scale := [("A", 90.0), ("B", 80.0), ("C", 70.0), ("D", 60.0), ("F", 0.0)]

  /** The scale entry chosen for `pct` among the first `n` entries: the highest threshold not
      above `pct`, the earliest one among equal thresholds (the sort is stable). */
  function BestEntry(scale: Scale, pct: real, n: nat): (r: Option<nat>)
    requires n <= |scale|
    ensures r.Some? ==> r.value < n && scale[r.value].1 <= pct
    ensures r.Some? ==> forall j :: 0 <= j < n && scale[j].1 <= pct ==> scale[j].1 <= scale[r.value].1
    ensures r.Some? ==> forall j :: 0 <= j < r.value && scale[j].1 <= pct ==> scale[j].1 < scale[r.value].1
    ensures r.None? <==> forall j :: 0 <= j < n ==> scale[j].1 > pct
  {
    if n == 0 then None
    else
      var b := BestEntry(scale, pct, n - 1);
      if scale[n - 1].1 <= pct && (b.None? || scale[n - 1].1 > scale[b.value].1) then Some(n - 1)
      else b
  }

  /** Entry `j` is reached by `pct`, no reached entry has a higher threshold, and no earlier
      reached entry has the same threshold. */
  predicate ChosenEntry(scale: Scale, pct: real, j: int) {
    && 0 <= j < |scale| && scale[j].1 <= pct
    && forall k :: 0 <= k < |scale| && scale[k].1 <= pct ==>
         scale[k].1 < scale[j].1 || (scale[k].1 == scale[j].1 && k >= j)
  }

  /** The letter for a percentage: scan the scale from the highest threshold down and take the
      first one the percentage reaches; "F" when it reaches none. */
  function LetterGrade(pct: real, scale: Scale): (letter: string)
    ensures (forall j :: 0 <= j < |scale| ==> scale[j].1 > pct) ==> letter == "F"
    ensures forall j :: ChosenEntry(scale, pct, j) ==> letter == scale[j].0
  {
    var b := BestEntry(scale, pct, |scale|);
    if b.Some? then scale[b.value].0 else "F"
  }

  /** The default scale's bands. */
  lemma DefaultScaleBands(pct: real)
    ensures LetterGrade(pct, DefaultScale) ==
      if pct >= 90.0 then "A" else if pct >= 80.0 then "B" else if pct >= 70.0 then "C"
      else if pct >= 60.0 then "D" else "F"
  {
    var s := DefaultScale;
    if pct >= 90.0 {
      assert ChosenEntry(s, pct, 0);
    } else if pct >= 80.0 {
      assert ChosenEntry(s, pct, 1);
    } else if pct >= 70.0 {
      assert ChosenEntry(s, pct, 2);
    } else if pct >= 60.0 {
      assert ChosenEntry(s, pct, 3);
    } else if pct >= 0.0 {
      assert ChosenEntry(s, pct, 4);
    }
  }

  function GradePercentage(g: AssignmentGrade): real {
    Percentage(g.totalScore, g.maxScore)
  }

  function GradeLetter(g: AssignmentGrade): string {
    LetterGrade(GradePercentage(g), DefaultScale)
  }

  /** A cell of the flat export row. */
  datatype Cell = Text(s: string) | Number(n: real) | Flag(b: bool) | Missing

  function OptText(o: Option<string>): Cell {
    match o
    case Some(s) => Text(s)
    case None => Missing
  }

  const SummaryColumns: seq<string> := [
    "student_name", "student_id", "submission_file", "assignment_id", "assignment_name",
    "total_score", "max_score", "percentage", "letter_grade", "overall_comment",
    "graded_at", "graded_by", "llm_model", "requires_human_review", "review_reason"]

  function SummaryCells(g: AssignmentGrade): (cells: seq<(string, Cell)>)
    ensures Keys(cells) == SummaryColumns
  {
    [("student_name", Text(g.studentName)), ("student_id", OptText(g.studentId)),
     ("submission_file", OptText(g.submissionFile)), ("assignment_id", Text(g.assignmentId)),
     ("assignment_name", OptText(g.assignmentName)), ("total_score", Number(g.totalScore)),
     ("max_score", Number(g.maxScore)), ("percentage", Number(Round2(GradePercentage(g)))),
     ("letter_grade", Text(GradeLetter(g))), ("overall_comment", OptText(g.overallComment)),
     ("graded_at", Text(g.gradedAt)), ("graded_by", Text(g.gradedBy)), ("llm_model", OptText(g.llmModel)),
     ("requires_human_review", Flag(g.requiresHumanReview)), ("review_reason", OptText(g.reviewReason))]
  }

  /** The five columns written for one question, keyed by its id. */
  function QuestionCells(q: QuestionGrade): seq<(string, Cell)> {
    [(q.questionId + "_score", Number(q.score)),
     (q.questionId + "_max_score", Number(q.maxScore)),
     (q.questionId + "_percentage", Number(Round2(Percentage(q.score, q.maxScore)))),
     (q.questionId + "_reasoning", Text(q.reasoning)),
     (q.questionId + "_feedback", OptText(q.feedback))]
  }

  function AllQuestionCells(qs: seq<QuestionGrade>): seq<(string, Cell)> {
    if |qs| == 0 then [] else AllQuestionCells(qs[..|qs| - 1]) + QuestionCells(qs[|qs| - 1])
  }

  /** The flat export row: the fifteen summary columns, then five columns per question written in
      question order into the same dictionary (a later write to an existing column replaces it). */
  function FlatRow(g: AssignmentGrade): (row: Dict<Cell>)
    ensures DistinctKeys(row)
    ensures forall k :: HasKey(row, k) <==> k in SummaryColumns || HasKey(AllQuestionCells(g.questions), k)
  {
    var pairs := SummaryCells(g) + AllQuestionCells(g.questions);
    FromPairsKeys(pairs);
    KeysAreHasKey(SummaryCells(g));
    forall k ensures HasKey(pairs, k) <==> k in SummaryColumns || HasKey(AllQuestionCells(g.questions), k) {
      HasKeyAppend(SummaryCells(g), AllQuestionCells(g.questions), k);
    }
    FromPairs(pairs)
  }

  lemma SummaryColumnsDistinct()
    ensures forall i, j :: 0 <= i < j < |SummaryColumns| ==> SummaryColumns[i] != SummaryColumns[j]
  {
  }

  /** A summary column that no question cell writes keeps its summary value in the flat row. */
  lemma FlatRowSummaryValue(g: AssignmentGrade, i: nat)
    requires i < |SummaryColumns| && !HasKey(AllQuestionCells(g.questions), SummaryColumns[i])
    ensures Get(FlatRow(g), SummaryColumns[i]) == Some(SummaryCells(g)[i].1)
  {
    var s := SummaryCells(g);
    var qc := AllQuestionCells(g.questions);
    var pairs := s + qc;
    SummaryColumnsDistinct();
    forall j | i < j < |pairs| ensures pairs[j].0 != pairs[i].0 {
      if j < |s| {
        assert pairs[j].0 == SummaryColumns[j];
      } else {
        assert pairs[j] == qc[j - |s|];
      }
    }
    assert pairs[i].0 == SummaryColumns[i];
    FromPairsLastWins(pairs, i);
  }

  /** Unless a question cell overwrites it, the row's percentage is the grade's percentage
      rounded to two decimals. */
  lemma FlatRowPercentage(g: AssignmentGrade)
    requires !HasKey(AllQuestionCells(g.questions), "percentage")
    ensures Get(FlatRow(g), "percentage") == Some(Number(Round2(GradePercentage(g))))
  {
    PercentageColumn(g);
    FlatRowSummaryValue(g, 7);
  }

  lemma PercentageColumn(g: AssignmentGrade)
    ensures SummaryColumns[7] == "percentage"
    ensures SummaryCells(g)[7].1 == Number(Round2(GradePercentage(g)))
  {
  }

  /** A question id of "total" writes its score over the summary's `total_score` column. */
  lemma QuestionIdCanOverwriteSummary(g: AssignmentGrade)
    requires |g.questions| == 1 && g.questions[0].questionId == "total"
    ensures Get(FlatRow(g), "total_score") == Some(Number(g.questions[0].score))
  {
    var pairs := SummaryCells(g) + AllQuestionCells(g.questions);
    assert AllQuestionCells(g.questions) == QuestionCells(g.questions[0]);
    assert pairs[15].0 == "total_score";
    assert forall j :: 15 < j < |pairs| ==> pairs[j].0 != "total_score";
    FromPairsLastWins(pairs, 15);
  }
}
