/** The command-line batch workflow: load the configuration, then for each submission file in
    order either grade it (extract, grade question by question, report) or give it the empty
    grade, and finally save the results under a mode-specific output id. The document lister,
    the services and the file writer are parameters. */
module CliWorkflow {
  import opened Wrappers
  import opened Text
  import opened PyDict
  import opened AssignmentConfig
  import opened GradingResult
  import opened PromptBuilder
  import AnswerExtraction
  import QaGrading
  import ReportGenerator
  import StudentIds

  /** One file of the submissions directory with its size in bytes. */
  datatype SubmissionFile = SubmissionFile(path: string, size: nat)

  /** The answer-key document named on the command line: whether it exists and its text ("" when
      unreadable). */
  datatype AnswerKeyFile = AnswerKeyFile(exists_: bool, text: string)

  /** The workflow's settings and the services of its three stages. */
  datatype Pipeline = Pipeline(
    mode: string,
    enableImages: bool,
    model: string,
    now: string,
    extraction: AnswerExtraction.Services,
    grading: QaGrading.Services,
    report: ReportGenerator.Services)

  // ----- Configuration and naming -----

  /** `load_assignment_config`: fails when the configuration does not load or a named answer-key
      file is missing; a readable answer key replaces the configured answer-key text. */
  function LoadConfig(loaded: Option<Assignment>, answerKey: Option<AnswerKeyFile>): (r: Option<Assignment>)
    ensures r.Some? <==> loaded.Some? && (answerKey.None? || answerKey.value.exists_)
    ensures r.Some? ==> r.value.questions == loaded.value.questions && r.value.totalPoints == loaded.value.totalPoints
    ensures r.Some? && answerKey.Some? && answerKey.value.text != "" ==> r.value.answerKeyText == Some(answerKey.value.text)
    ensures r.Some? && (answerKey.None? || answerKey.value.text == "") ==> r.value == loaded.value
  {
    if loaded.None? then None
    else if answerKey.None? then loaded
    else if !answerKey.value.exists_ then None
    else if answerKey.value.text != "" then Some(loaded.value.(answerKeyText := Some(answerKey.value.text)))
    else loaded
  }

  /** The output directory and results id: the assignment id, suffixed with the mode as given
      unless that is exactly "full". */
  function OutputId(assignmentId: string, mode: string): (r: string)
    ensures mode == "full" ==> r == assignmentId
    ensures mode != "full" ==> StartsWith(r, assignmentId + "_") && r[|assignmentId| + 1..] == mode
  {
    if mode != "full" then
      var r := assignmentId + "_" + mode;
      assert r[..|assignmentId| + 1] == assignmentId + "_";
      r
    else assignmentId
  }

  /** Runs in different modes never share an output directory. */
  lemma OutputIdsSeparateModes(assignmentId: string, m1: string, m2: string)
    requires m1 != m2
    ensures OutputId(assignmentId, m1) != OutputId(assignmentId, m2)
  {
    if m1 != "full" && m2 != "full" {
      assert OutputId(assignmentId, m1)[|assignmentId| + 1..] == m1;
      assert OutputId(assignmentId, m2)[|assignmentId| + 1..] == m2;
    } else if m1 == "full" {
      assert |OutputId(assignmentId, m2)| > |assignmentId|;
    } else {
      assert |OutputId(assignmentId, m1)| > |assignmentId|;
    }
  }

  // ----- One file -----

  /** Whether any extracted answer has non-blank text. */
  predicate HasContent(answers: Dict<AnswerExtraction.Answer>) {
    exists i :: 0 <= i < |answers| && !IsBlank(answers[i].1.text)
  }

  /** The answers extracted from a file. */
  function Extracted(a: Assignment, f: SubmissionFile, p: Pipeline): Dict<AnswerExtraction.Answer> {
    AnswerExtraction.ExtractAnswers(f.path, a, p.enableImages, p.extraction)
  }

  /** A file gets the empty grade when it has no bytes or nothing non-blank was extracted from it. */
  predicate NeedsEmptyGrade(a: Assignment, f: SubmissionFile, p: Pipeline) {
    f.size == 0 || !HasContent(Extracted(a, f, p))
  }

  /** The report's fields written over the grade; nothing else changes. */
  function ApplyReport(g: AssignmentGrade, rep: ReportGenerator.Report): (r: AssignmentGrade)
    ensures r.overallComment == Some(rep.overallComment)
    ensures r.strengths == rep.strengths && r.areasForImprovement == rep.areasForImprovement
    ensures r.requiresHumanReview == rep.requiresHumanReview && r.reviewReason == rep.reviewReason
    ensures r.(overallComment := g.overallComment, strengths := g.strengths,
               areasForImprovement := g.areasForImprovement, requiresHumanReview := g.requiresHumanReview,
               reviewReason := g.reviewReason) == g
  {
    g.(overallComment := Some(rep.overallComment), strengths := rep.strengths,
       areasForImprovement := rep.areasForImprovement, requiresHumanReview := rep.requiresHumanReview,
       reviewReason := rep.reviewReason)
  }

  /** The three-stage grade of a file with content: extract, grade, then the report on top. */
  function GradeWithReport(a: Assignment, f: SubmissionFile, p: Pipeline): (g: AssignmentGrade)
    requires ValidAssignment(a)
    ensures g.totalScore == SumScores(g.questions) && g.maxScore == SumMaxScores(g.questions)
    ensures |g.questions| == |a.questions|
    ensures g.studentName == StudentIds.QaName(Basename(f.path))
    ensures (g.requiresHumanReview, g.reviewReason)
            == ReportGenerator.ReviewCheck(g.questions, ReportGenerator.Statistics(g.questions))
  {
    var filename := Basename(f.path);
    var graded := QaGrading.GradeSubmissionWithExtraction(
      NormalizeMode(p.mode), a, StudentIds.QaName(filename), Extracted(a, f, p),
      Some(StudentIds.QaStudentId(filename)), Some(filename), p.model, p.now, p.grading);
    ApplyReport(graded, ReportGenerator.GenerateReport(graded.questions, a, p.report))
  }

  /** What one file contributes, or None when processing it raises out of the loop. The empty
      grade and, in the handler, the error grade both fail validation exactly when the
      configuration has no positive total; nothing else in the pipeline raises. */
  function ProcessFile(a: Assignment, f: SubmissionFile, p: Pipeline): (r: Option<AssignmentGrade>)
    requires ValidAssignment(a)
    ensures r.None? <==> NeedsEmptyGrade(a, f, p) && TotalOrZero(a) <= 0.0
    ensures r.Some? && NeedsEmptyGrade(a, f, p) ==>
      && r.value.totalScore == 0.0 && !r.value.requiresHumanReview
      && r.value.overallComment == Some(QaGrading.EmptyComment)
    ensures r.Some? && !NeedsEmptyGrade(a, f, p) ==> r.value == GradeWithReport(a, f, p)
    ensures r.Some? ==> r.value.studentName == StudentIds.QaName(Basename(f.path))
  {
    var filename := Basename(f.path);
    var name := StudentIds.QaName(filename);
    var id := Some(StudentIds.QaStudentId(filename));
    if NeedsEmptyGrade(a, f, p) then
      match QaGrading.EmptyGrade(a, name, id, Some(filename), p.model, p.now)
      case Some(g) => Some(g)
      case None =>
        // the handler's error grade fails validation for the same reason
        var e := QaGrading.ErrorGrade(a, name, id, Some(filename), p.model, p.now);
        assert e.None?;
        None
    else Some(GradeWithReport(a, f, p))
  }

  // ----- The batch -----

  /** The per-file loop: one grade per file in order, stopping at the first file that raises. */
  method CollectGrades(files: seq<SubmissionFile>, outcome: SubmissionFile -> Option<AssignmentGrade>)
    returns (r: Option<seq<AssignmentGrade>>)
    ensures r.None? <==> exists i :: 0 <= i < |files| && outcome(files[i]).None?
    ensures r.Some? ==> |r.value| == |files| && forall i :: 0 <= i < |files| ==> Some(r.value[i]) == outcome(files[i])
  {
    var grades: seq<AssignmentGrade> := [];
    var i := 0;
    while i < |files|
      invariant 0 <= i <= |files| && |grades| == i
      invariant forall j :: 0 <= j < i ==> Some(grades[j]) == outcome(files[j])
    {
      var g := outcome(files[i]);
      if g.None? {
        return None;
      }
      grades := grades + [g.value];
      i := i + 1;
    }
    return Some(grades);
  }

  /** `process_all_submissions`: no grades without a configuration or a submissions directory;
      otherwise exactly one grade per file in order, unless some file raises, which ends the
      whole batch (None). */
  method ProcessAllSubmissions(cfg: Option<Assignment>, dirExists: bool, files: seq<SubmissionFile>, p: Pipeline)
    returns (r: Option<seq<AssignmentGrade>>)
    requires cfg.Some? ==> ValidAssignment(cfg.value)
    ensures cfg.None? || !dirExists ==> r == Some([])
    ensures cfg.Some? && dirExists ==>
      (r.None? <==> exists i :: 0 <= i < |files| && ProcessFile(cfg.value, files[i], p).None?)
    ensures cfg.Some? && dirExists && r.Some? ==>
      |r.value| == |files| && forall i :: 0 <= i < |files| ==> Some(r.value[i]) == ProcessFile(cfg.value, files[i], p)
  {
    if cfg.None? || !dirExists {
      return Some([]);
    }
    var a := cfg.value;
    r := CollectGrades(files, f => ProcessFile(a, f, p));
  }

  /** `run`: succeeds exactly when the configuration loads, the batch neither raises nor comes
      out empty, and the results are saved. */
  method Run(loaded: Option<Assignment>, answerKey: Option<AnswerKeyFile>, dirExists: bool,
             files: seq<SubmissionFile>, p: Pipeline, saveOk: string -> bool)
    returns (ok: bool)
    requires loaded.Some? ==> ValidAssignment(loaded.value)
    ensures ok <==>
      && LoadConfig(loaded, answerKey).Some? && dirExists && |files| > 0
      && (forall i :: 0 <= i < |files| ==> ProcessFile(LoadConfig(loaded, answerKey).value, files[i], p).Some?)
      && saveOk(OutputId(LoadConfig(loaded, answerKey).value.assignmentId, p.mode))
  {
    var cfg := LoadConfig(loaded, answerKey);
    if cfg.None? {
      return false;
    }
    var grades := ProcessAllSubmissions(cfg, dirExists, files, p);
    if grades.None? || |grades.value| == 0 {
      return false;
    }
    ok := saveOk(OutputId(cfg.value.assignmentId, p.mode));
  }

  /** Without a configured total, a single empty file makes the whole batch fail; with a positive
      total no file ever does. */
  lemma EmptyFileNeedsTotal(a: Assignment, f: SubmissionFile, p: Pipeline)
    requires ValidAssignment(a)
    ensures f.size == 0 && a.totalPoints.None? ==> ProcessFile(a, f, p).None?
    ensures TotalOrZero(a) > 0.0 ==> ProcessFile(a, f, p).Some?
  {
  }
}
