/** Report synthesis over a submission's question grades: the statistics, the strengths and areas
    for improvement picked by percentage band, the overall comment (the model's, cleaned up, or a
    templated fallback) and the rule that flags a grade for human review. The chat model and
    float formatting are parameters. */
module ReportGenerator {
  import opened Wrappers
  import opened Text
  import opened AssignmentConfig
  import opened GradingResult

  /** Float formatting: `str(x)`, `f"{x:.0f}"` and `f"{x:.1f}"`. */
  datatype Formats = Formats(str: real -> string, fixed0: real -> string, fixed1: real -> string)

  /** What the comment call is given. */
  datatype CommentRequest = CommentRequest(
    assignmentName: string,
    stats: Stats,
    grades: seq<QuestionGrade>,
    strengths: seq<string>,
    weaknesses: seq<string>)

  datatype Services = Services(comment: CommentRequest -> Option<string>, formats: Formats)

  // ----- Statistics -----

  /** How many grades have full marks (score equal to the maximum). */
  function CountPerfect(gs: seq<QuestionGrade>): (n: nat)
    ensures n <= |gs|
  {
    if |gs| == 0 then 0 else CountPerfect(gs[..|gs| - 1]) + (if gs[|gs| - 1].score == gs[|gs| - 1].maxScore then 1 else 0)
  }

  /** How many grades scored nothing. */
  function CountZero(gs: seq<QuestionGrade>): (n: nat)
    ensures n <= |gs|
  {
    if |gs| == 0 then 0 else CountZero(gs[..|gs| - 1]) + (if gs[|gs| - 1].score == 0.0 then 1 else 0)
  }

  datatype Stats = Stats(totalScore: real, maxScore: real, percentage: real, numPerfect: nat, numZero: nat)

  /** `_calculate_statistics` (the mean and median of the question percentages feed only the
      comment prompt and are not kept). */
  function Statistics(gs: seq<QuestionGrade>): (st: Stats)
    ensures st.totalScore == SumScores(gs) && st.maxScore == SumMaxScores(gs)
    ensures st.percentage == Percentage(SumScores(gs), SumMaxScores(gs))
    ensures st.numPerfect == CountPerfect(gs) && st.numZero == CountZero(gs)
    ensures gs == [] ==> st == Stats(0.0, 0.0, 0.0, 0, 0)
  {
    if |gs| == 0 then Stats(0.0, 0.0, 0.0, 0, 0)
    else
      var total := SumScores(gs);
      var max := SumMaxScores(gs);
      Stats(total, max, Percentage(total, max), CountPerfect(gs), CountZero(gs))
  }

  /** When every validated grade scored nothing, all of them count as zeros and none as perfect
      (a validated maximum is positive). */
  lemma {:induction false} AllZeroCounts(gs: seq<QuestionGrade>)
    requires forall i :: 0 <= i < |gs| ==> gs[i].score == 0.0 && gs[i].maxScore > 0.0
    ensures CountZero(gs) == |gs| && CountPerfect(gs) == 0
  {
    if |gs| > 0 {
      AllZeroCounts(gs[..|gs| - 1]);
    }
  }

  // ----- Strengths and weaknesses -----

  /** What one question contributes: a strength, an area for improvement, or nothing. */
  datatype Note = Strength(text: string) | Weakness(text: string) | Silent

  /** Python's truthiness of an optional list. */
  predicate NonEmpty(o: Option<seq<string>>) {
    o.Some? && |o.value| > 0
  }

  /** The label a note starts with: the first 50 characters of the configured question's text, or
      the grade's own id when no configured question has it. */
  function QuestionLabel(a: Assignment, g: QuestionGrade): (shown: string)
    ensures FirstQuestion(a.questions, g.questionId) >= 0 ==>
      shown == Take(a.questions[FirstQuestion(a.questions, g.questionId)].text, 50)
    ensures FirstQuestion(a.questions, g.questionId) < 0 ==> shown == g.questionId
  {
    var i := FirstQuestion(a.questions, g.questionId);
    if i >= 0 then Take(a.questions[i].text, 50) else g.questionId
  }

  /** The note for one question, chosen by its percentage: 90 and above is praised, 75 to 90 only
      when some criteria were met, below 60 is always an area for improvement, 60 to 75 only when
      some criteria were missed. */
  function QuestionNote(a: Assignment, g: QuestionGrade, f: Formats): (n: Note)
    ensures var pct := Percentage(g.score, g.maxScore);
      && (n.Strength? <==> pct >= 90.0 || (75.0 <= pct < 90.0 && NonEmpty(g.criteriaMet)))
      && (n.Weakness? <==> pct < 60.0 || (60.0 <= pct < 75.0 && NonEmpty(g.criteriaMissed)))
    ensures !n.Silent? ==> StartsWith(n.text, QuestionLabel(a, g) + ": ")
    ensures n.Weakness? && Percentage(g.score, g.maxScore) >= 60.0 ==>
      EndsWith(n.text, g.criteriaMissed.value[0])
  {
    var pct := Percentage(g.score, g.maxScore);
    var head := QuestionLabel(a, g) + ": ";
    var n :=
      if pct >= 90.0 then
        Strength(head + (if NonEmpty(g.criteriaMet) then "Excellent work - " + Join(Take(g.criteriaMet.value, 2), ", ")
                         else "Excellent performance (" + f.fixed0(pct) + "%)"))
      else if pct >= 75.0 then
        (if NonEmpty(g.criteriaMet) then Strength(head + "Strong understanding demonstrated") else Silent)
      else if pct < 60.0 then
        Weakness(head + (if NonEmpty(g.criteriaMissed) then Join(Take(g.criteriaMissed.value, 2), ", ")
                         else "Significant improvement needed (" + f.fixed0(pct) + "%)"))
      else if NonEmpty(g.criteriaMissed) then
        Weakness(head + "Minor improvements needed - " + g.criteriaMissed.value[0])
      else Silent;
    assert !n.Silent? ==> n.text[..|head|] == head;
    n
  }

  /** The texts of the strengths among the notes of a list, in order. */
  function Strengths<X>(note: X -> Note, xs: seq<X>): (ss: seq<string>)
    ensures |ss| <= |xs|
    ensures forall t :: t in ss <==> exists i :: 0 <= i < |xs| && note(xs[i]) == Strength(t)
  {
    if |xs| == 0 then []
    else
      var init := Strengths(note, xs[..|xs| - 1]);
      assert forall i :: 0 <= i < |xs| - 1 ==> xs[..|xs| - 1][i] == xs[i];
      var n := note(xs[|xs| - 1]);
      if n.Strength? then init + [n.text] else init
  }

  /** The texts of the areas for improvement among the notes of a list, in order. */
  function Weaknesses<X>(note: X -> Note, xs: seq<X>): (ws: seq<string>)
    ensures |ws| <= |xs|
    ensures forall t :: t in ws <==> exists i :: 0 <= i < |xs| && note(xs[i]) == Weakness(t)
  {
    if |xs| == 0 then []
    else
      var init := Weaknesses(note, xs[..|xs| - 1]);
      assert forall i :: 0 <= i < |xs| - 1 ==> xs[..|xs| - 1][i] == xs[i];
      var n := note(xs[|xs| - 1]);
      if n.Weakness? then init + [n.text] else init
  }

  /** Every strength in question order, before truncation. */
  function AllStrengths(a: Assignment, gs: seq<QuestionGrade>, f: Formats): (ss: seq<string>)
    ensures |ss| <= |gs|
    ensures forall t :: t in ss <==> exists i :: 0 <= i < |gs| && QuestionNote(a, gs[i], f) == Strength(t)
  {
    Strengths(g => QuestionNote(a, g, f), gs)
  }

  /** Every area for improvement in question order, before truncation. */
  function AllWeaknesses(a: Assignment, gs: seq<QuestionGrade>, f: Formats): (ws: seq<string>)
    ensures |ws| <= |gs|
    ensures forall t :: t in ws <==> exists i :: 0 <= i < |gs| && QuestionNote(a, gs[i], f) == Weakness(t)
  {
    Weaknesses(g => QuestionNote(a, g, f), gs)
  }

  /** How many notes of each kind are reported. */
  const MaxNotes: nat := 5

  /** `_identify_strengths_and_weaknesses`: the first five of each, in question order. */
  function StrengthsAndWeaknesses(a: Assignment, gs: seq<QuestionGrade>, f: Formats): (r: (seq<string>, seq<string>))
    ensures |r.0| <= MaxNotes && |r.1| <= MaxNotes
    ensures |r.0| <= |AllStrengths(a, gs, f)| && |r.1| <= |AllWeaknesses(a, gs, f)|
    ensures r.0 == AllStrengths(a, gs, f)[..|r.0|] && r.1 == AllWeaknesses(a, gs, f)[..|r.1|]
    ensures |AllStrengths(a, gs, f)| <= MaxNotes ==> r.0 == AllStrengths(a, gs, f)
    ensures |AllWeaknesses(a, gs, f)| <= MaxNotes ==> r.1 == AllWeaknesses(a, gs, f)
  {
    (Take(AllStrengths(a, gs, f), MaxNotes), Take(AllWeaknesses(a, gs, f), MaxNotes))
  }

  /** A question at 90% or more is always among the strengths before truncation, and one under
      60% always among the areas for improvement. */
  lemma BandsAlwaysNoted(a: Assignment, gs: seq<QuestionGrade>, f: Formats, i: nat)
    requires i < |gs|
    ensures Percentage(gs[i].score, gs[i].maxScore) >= 90.0 ==> QuestionNote(a, gs[i], f).text in AllStrengths(a, gs, f)
    ensures Percentage(gs[i].score, gs[i].maxScore) < 60.0 ==> QuestionNote(a, gs[i], f).text in AllWeaknesses(a, gs, f)
  {
  }

  // ----- Overall comment -----

  /** The model's comment, stripped, without one pair of surrounding double quotes. */
  function CleanComment(reply: string): (c: string)
    ensures var t := Strip(reply);
      && (|t| >= 2 && t[0] == '"' && t[|t| - 1] == '"' ==> c == t[1..|t| - 1])
      && (t == "\"" ==> c == "")
      && (!StartsWith(t, "\"") || !EndsWith(t, "\"") ==> c == t)
    ensures |c| <= |reply|
  {
    var t := Strip(reply);
    if StartsWith(t, "\"") && EndsWith(t, "\"") then
      (if |t| >= 2 then t[1..|t| - 1] else "")
    else t
  }

  /** The fallback comment's five openings, from the best band to the worst. */
  const FallbackOpenings: seq<string> := [
    "Excellent work! You demonstrated strong understanding across all questions.",
    "Very good work overall. You showed solid understanding with room for minor improvements.",
    "Good effort. You demonstrated understanding of key concepts, but some areas need more attention.",
    "Satisfactory work. Please review the feedback and work on strengthening your understanding.",
    "This assignment needs significant improvement. Please review the detailed feedback and seek help on challenging topics."]

  /** The fallback comment's band: 90 and above, 80 to 90, 70 to 80, 60 to 70, below 60. */
  function CommentBand(pct: real): (b: nat)
    ensures b < |FallbackOpenings|
    ensures b == 0 <==> pct >= 90.0
    ensures b == 1 <==> 80.0 <= pct < 90.0
    ensures b == 2 <==> 70.0 <= pct < 80.0
    ensures b == 3 <==> 60.0 <= pct < 70.0
    ensures b == 4 <==> pct < 60.0
  {
    if pct >= 90.0 then 0 else if pct >= 80.0 then 1 else if pct >= 70.0 then 2 else if pct >= 60.0 then 3 else 4
  }

  /** A higher percentage never gets a harsher opening. */
  lemma CommentBandMonotone(p: real, q: real)
    requires p <= q
    ensures CommentBand(q) <= CommentBand(p)
  {
  }

  /** The templated comment used when the model call fails: the band's opening and the score line. */
  function FallbackComment(st: Stats, f: Formats): (c: string)
    ensures StartsWith(c, FallbackOpenings[CommentBand(st.percentage)] + " Score: ")
    ensures EndsWith(c, f.fixed1(st.percentage) + "%)")
  {
    var head := FallbackOpenings[CommentBand(st.percentage)] + " Score: ";
    var tail := f.fixed1(st.percentage) + "%)";
    var c := head + f.str(st.totalScore) + "/" + f.str(st.maxScore) + " (" + tail;
    assert c[..|head|] == head;
    assert c[|c| - |tail|..] == tail;
    c
  }

  /** `_generate_overall_comment`. */
  function OverallComment(a: Assignment, gs: seq<QuestionGrade>, st: Stats, strengths: seq<string>,
                          weaknesses: seq<string>, s: Services): (c: string)
    ensures var reply := s.comment(CommentRequest(a.assignmentName, st, gs, strengths, weaknesses));
      && (reply.Some? ==> c == CleanComment(reply.value))
      && (reply.None? ==> c == FallbackComment(st, s.formats))
  {
    match s.comment(CommentRequest(a.assignmentName, st, gs, strengths, weaknesses))
    case Some(reply) => CleanComment(reply)
    case None => FallbackComment(st, s.formats)
  }

  // ----- Human review -----

  /** Whether a question's image extraction reported an error. */
  predicate ImageIssue(g: QuestionGrade) {
    g.extractedFromImage && Contains(Lower(g.imageNotes.GetOr("")), "error")
  }

  /** Whether a question scored nothing with too short an explanation. */
  predicate UnclearZero(g: QuestionGrade) {
    g.score == 0.0 && |g.reasoning| < 50
  }

  function CountImageIssues(gs: seq<QuestionGrade>): (n: nat)
    ensures n <= |gs|
    ensures n > 0 <==> exists i :: 0 <= i < |gs| && ImageIssue(gs[i])
  {
    if |gs| == 0 then 0
    else
      var init := CountImageIssues(gs[..|gs| - 1]);
      assert forall i :: 0 <= i < |gs| - 1 ==> gs[..|gs| - 1][i] == gs[i];
      init + (if ImageIssue(gs[|gs| - 1]) then 1 else 0)
  }

  function CountUnclearZeros(gs: seq<QuestionGrade>): (n: nat)
    ensures n <= |gs|
    ensures n > 0 <==> exists i :: 0 <= i < |gs| && UnclearZero(gs[i])
  {
    if |gs| == 0 then 0
    else
      var init := CountUnclearZeros(gs[..|gs| - 1]);
      assert forall i :: 0 <= i < |gs| - 1 ==> gs[..|gs| - 1][i] == gs[i];
      init + (if UnclearZero(gs[|gs| - 1]) then 1 else 0)
  }

  /** Why a grade is flagged; the counted reasons carry their count. */
  datatype Reason = MostlyZero | NearPerfect | ImageIssues(count: nat) | UnclearZeros(count: nat)

  function ReasonText(r: Reason): string {
    match r
    case MostlyZero => "More than half of questions received zero points"
    case NearPerfect => "Near-perfect score with some deductions - verify grading"
    case ImageIssues(n) => NatToString(n) + " question(s) had image extraction issues"
    case UnclearZeros(n) => NatToString(n) + " question(s) received zero with minimal explanation"
  }

  /** The review reasons that apply, in their fixed order. */
  function ReviewReasons(gs: seq<QuestionGrade>, st: Stats): (rs: seq<Reason>)
    ensures MostlyZero in rs <==> 2 * st.numZero > |gs|
    ensures NearPerfect in rs <==> st.percentage > 95.0 && st.numPerfect < |gs|
    ensures (exists n :: ImageIssues(n) in rs) <==> exists i :: 0 <= i < |gs| && ImageIssue(gs[i])
    ensures (exists n :: UnclearZeros(n) in rs) <==> exists i :: 0 <= i < |gs| && UnclearZero(gs[i])
    ensures ImageIssues(CountImageIssues(gs)) in rs || CountImageIssues(gs) == 0
    ensures UnclearZeros(CountUnclearZeros(gs)) in rs || CountUnclearZeros(gs) == 0
    ensures |rs| <= 4
  {
    var images := CountImageIssues(gs);
    var unclear := CountUnclearZeros(gs);
    (if 2 * st.numZero > |gs| then [MostlyZero] else [])
      + (if st.percentage > 95.0 && st.numPerfect < |gs| then [NearPerfect] else [])
      + (if images > 0 then [ImageIssues(images)] else [])
      + (if unclear > 0 then [UnclearZeros(unclear)] else [])
  }

  function ReasonTexts(rs: seq<Reason>): (ts: seq<string>)
    ensures |ts| == |rs| && forall i :: 0 <= i < |rs| ==> ts[i] == ReasonText(rs[i])
  {
    seq(|rs|, i requires 0 <= i < |rs| => ReasonText(rs[i]))
  }

  /** `_check_human_review_needed`: flagged exactly when one of the four conditions holds, with
      the reasons' texts joined by "; ". */
  function ReviewCheck(gs: seq<QuestionGrade>, st: Stats): (r: (bool, Option<string>))
    ensures r.0 <==>
      || 2 * st.numZero > |gs|
      || (st.percentage > 95.0 && st.numPerfect < |gs|)
      || (exists i :: 0 <= i < |gs| && ImageIssue(gs[i]))
      || (exists i :: 0 <= i < |gs| && UnclearZero(gs[i]))
    ensures r.0 <==> r.1.Some?
    ensures r.1.Some? ==> r.1.value == Join(ReasonTexts(ReviewReasons(gs, st)), "; ")
  {
    var rs := ReviewReasons(gs, st);
    assert |rs| > 0 <==> MostlyZero in rs || NearPerfect in rs || (exists n :: ImageIssues(n) in rs)
                         || (exists n :: UnclearZeros(n) in rs);
    if |rs| > 0 then (true, Some(Join(ReasonTexts(rs), "; "))) else (false, None)
  }

  /** A submission whose validated grades all scored nothing is always flagged. */
  lemma AllZeroFlagged(gs: seq<QuestionGrade>)
    requires |gs| > 0
    requires forall i :: 0 <= i < |gs| ==> gs[i].score == 0.0 && gs[i].maxScore > 0.0
    ensures ReviewCheck(gs, Statistics(gs)).0
  {
    AllZeroCounts(gs);
  }

  // ----- The report -----

  datatype Report = Report(
    totalScore: real,
    maxScore: real,
    overallComment: string,
    strengths: Option<seq<string>>,
    areasForImprovement: Option<seq<string>>,
    requiresHumanReview: bool,
    reviewReason: Option<string>)

  /** The report returned when generation raises: recomputed sums, a fixed comment, no lists,
      flagged for review with the error in the reason. The failures that lead here (a malformed
      grade object, an interpolation error) are not produced by this model, so this report is
      reached only when a caller supplies the error text itself. */
  function ReportOnError(gs: seq<QuestionGrade>, error: string): (r: Report)
    ensures r.totalScore == SumScores(gs) && r.maxScore == SumMaxScores(gs)
    ensures r.requiresHumanReview && r.reviewReason == Some("Report generation error: " + error)
    ensures r.strengths.None? && r.areasForImprovement.None?
  {
    Report(SumScores(gs), SumMaxScores(gs),
           "Report generation encountered an error. Please review individual question feedback.",
           None, None, true, Some("Report generation error: " + error))
  }

  /** `generate_report`. Every step it guards already handles its own failures, so the report is
      always the computed one: totals are the sums, at most five notes of each kind, and the
      review flag is the review rule's. */
  function GenerateReport(gs: seq<QuestionGrade>, a: Assignment, s: Services): (r: Report)
    ensures r.totalScore == SumScores(gs) && r.maxScore == SumMaxScores(gs)
    ensures r.strengths.Some? && |r.strengths.value| <= MaxNotes
    ensures r.areasForImprovement.Some? && |r.areasForImprovement.value| <= MaxNotes
    ensures (r.requiresHumanReview, r.reviewReason) == ReviewCheck(gs, Statistics(gs))
  {
    var st := Statistics(gs);
    var (strengths, weaknesses) := StrengthsAndWeaknesses(a, gs, s.formats);
    var comment := OverallComment(a, gs, st, strengths, weaknesses, s);
    var (review, reason) := ReviewCheck(gs, st);
    Report(st.totalScore, st.maxScore, comment, Some(strengths), Some(weaknesses), review, reason)
  }
}
