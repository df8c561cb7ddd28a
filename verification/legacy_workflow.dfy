/** The first-generation grader for one fixed homework: each submission's text is graded by the
    model against a fixed list of questions, the CSV manager records one entry per file (graded,
    empty or failed), flattens the entries into rows, and summarises the totals. */
module LegacyWorkflow {
  import opened Wrappers
  import opened Text
  import opened PyDict
  import opened Json
  import opened Seqs
  import opened StudentIds
  import OutputManager

  // ----- Gradings -----

  /** The homework's questions, in order. */
  function Questions(): seq<string> {
    ["question_1", "question_2"]
  }

  /** `{"score": 0, "reasoning": reasoning}` */
  function ZeroDetail(reasoning: string): Json {
    JObj([("score", JNum(0.0)), ("reasoning", JStr(reasoning))])
  }

  /** The grading built by assigning the zero detail with one reasoning to every question in
      turn: the shape shared by the fallback, empty-submission and error gradings. */
  function UniformGrading(questions: seq<string>, reasoning: string): Dict<Json> {
    FromPairs(seq(|questions|, i requires 0 <= i < |questions| => (questions[i], ZeroDetail(reasoning))))
  }

  /** `GradingAgent._create_default_grading` */
  function DefaultGrading(questions: seq<string>): Dict<Json> {
    UniformGrading(questions, "Error in grading - default score assigned")
  }

  /** `GradingWorkflow._create_empty_grading` */
  function EmptyGrading(): Dict<Json> {
    UniformGrading(Questions(), "No submission or empty submission")
  }

  /** `GradingWorkflow._create_error_grading` */
  function ErrorGrading(): Dict<Json> {
    UniformGrading(Questions(), "Error processing submission")
  }

  // ----- Totals -----

  /** A graded value the total counts: an object holding "score". */
  predicate Scored(v: Json) {
    v.JObj? && HasKey(v.fields, "score")
  }

  /** What a scored value adds: its score, which must be a number (anything else raises). */
  function ScoreOf(v: Json): Option<real> {
    if Scored(v) then NumberValue(Get(v.fields, "score").value) else None
  }

  function Scores(vs: seq<Json>): (r: seq<Option<real>>)
    ensures |r| == |vs| && forall k :: 0 <= k < |vs| ==> r[k] == ScoreOf(vs[k])
  {
    seq(|vs|, k requires 0 <= k < |vs| => ScoreOf(vs[k]))
  }

  /** `GradingAgent.calculate_total_score`: the sum of the scores of the scored values only. A
      grading that is not an object has no items, and a score that is not a number cannot be
      added: both raise (None). */
  function TotalScore(g: Json): (r: Option<real>)
    ensures r.Some? ==> g.JObj?
  {
    if g.JObj? then SumValues(Scores(Filter(Values(g.fields), Scored))) else None
  }

  /** `Some(total + t)` for a sum `t` that may have raised. */
  function Shift(total: real, t: Option<real>): Option<real> {
    if t.Some? then Some(total + t.value) else None
  }

  lemma ShiftShift(a: real, b: real, t: Option<real>)
    ensures Shift(a, Shift(b, t)) == Shift(a + b, t)
  {
  }

  /** An item that is not a scored object does not change the total. */
  lemma TotalScoreSkip(d: Dict<Json>)
    requires d != [] && !Scored(d[0].1)
    ensures TotalScore(JObj(d)) == TotalScore(JObj(d[1..]))
  {
    var vs := Values(d);
    assert vs[1..] == Values(d[1..]);
    assert Filter(vs, Scored) == Filter(vs[1..], Scored);
  }

  /** Adding up scores from the front: the first score plus the sum of the rest. */
  lemma SumScoresCons(v: Json, kept: seq<Json>)
    ensures SumValues(Scores([v] + kept)) ==
      (if ScoreOf(v).Some? then Shift(ScoreOf(v).value, SumValues(Scores(kept))) else None)
  {
    var all := Scores([v] + kept);
    assert all[0] == ScoreOf(v) && all[1..] == Scores(kept);
  }

  /** A scored first item adds its score to the total of the others, or raises when the score
      is not a number. */
  lemma TotalScoreAdd(d: Dict<Json>)
    requires d != [] && Scored(d[0].1)
    ensures TotalScore(JObj(d)) ==
      (if ScoreOf(d[0].1).Some? then Shift(ScoreOf(d[0].1).value, TotalScore(JObj(d[1..]))) else None)
  {
    var vs := Values(d);
    assert vs[1..] == Values(d[1..]);
    var kept := Filter(vs[1..], Scored);
    assert Filter(vs, Scored) == [d[0].1] + kept;
    SumScoresCons(d[0].1, kept);
  }

  /** The same total, item by item from the front: an item that is not a scored object is
      skipped, a scored one adds its score, a score that is not a number raises. */
  function ItemsTotal(d: Dict<Json>): Option<real>
  {
    if d == [] then Some(0.0)
    else if !Scored(d[0].1) then ItemsTotal(d[1..])
    else if ScoreOf(d[0].1).None? then None
    else Shift(ScoreOf(d[0].1).value, ItemsTotal(d[1..]))
  }

  /** The item-by-item total agrees with the filtered sum. */
  lemma {:induction false} ItemsTotalIsTotal(d: Dict<Json>)
    ensures ItemsTotal(d) == TotalScore(JObj(d))
  {
    if d == [] {
      assert Values(d) == [];
    } else {
      if Scored(d[0].1) {
        TotalScoreAdd(d);
      } else {
        TotalScoreSkip(d);
      }
      ItemsTotalIsTotal(d[1..]);
    }
  }

  /** The loop of `calculate_total_score`: start from 0, add the score of every item that is an
      object holding "score", in order. */
  method CalculateTotalScore(g: Json) returns (r: Option<real>)
    ensures r == TotalScore(g)
  {
    if !g.JObj? {
      return None;
    }
    var items := g.fields;
    var total := 0.0;
    var i := 0;
    assert items[0..] == items;
    while i < |items|
      invariant 0 <= i <= |items|
      invariant Shift(total, ItemsTotal(items[i..])) == ItemsTotal(items)
    {
      var v := items[i].1;
      assert items[i..][0] == items[i] && items[i..][1..] == items[i + 1..];
      if Scored(v) {
        var n := NumberValue(Get(v.fields, "score").value);
        if n.None? {
          ItemsTotalIsTotal(items);
          return None;
        }
        ShiftShift(total, n.value, ItemsTotal(items[i + 1..]));
        total := total + n.value;
      }
      i := i + 1;
    }
    ItemsTotalIsTotal(items);
    return Some(total);
  }

  lemma {:induction false} SumOfZeros(vs: seq<Option<real>>)
    requires forall k :: 0 <= k < |vs| ==> vs[k] == Some(0.0)
    ensures SumValues(vs) == Some(0.0)
  {
    if vs != [] {
      assert forall k :: 0 <= k < |vs| - 1 ==> vs[1..][k] == vs[k + 1];
      SumOfZeros(vs[1..]);
    }
  }

  lemma ZeroDetailScored(reasoning: string)
    ensures Scored(ZeroDetail(reasoning)) && ScoreOf(ZeroDetail(reasoning)) == Some(0.0)
  {
    assert ZeroDetail(reasoning).fields[0].0 == "score";
  }

  /** The uniform grading has exactly one entry per question (and none for anything else), each
      the zero detail with the given reasoning, so it adds up to 0. */
  lemma UniformGradingShape(questions: seq<string>, reasoning: string)
    ensures DistinctKeys(UniformGrading(questions, reasoning))
    ensures forall q :: HasKey(UniformGrading(questions, reasoning), q) <==> q in questions
    ensures forall i :: 0 <= i < |UniformGrading(questions, reasoning)| ==>
      UniformGrading(questions, reasoning)[i].1 == ZeroDetail(reasoning)
    ensures TotalScore(JObj(UniformGrading(questions, reasoning))) == Some(0.0)
  {
    var pairs := seq(|questions|, i requires 0 <= i < |questions| => (questions[i], ZeroDetail(reasoning)));
    var r := FromPairs(pairs);
    FromPairsKeys(pairs);
    FromPairsValues(pairs, ZeroDetail(reasoning));
    forall q ensures HasKey(pairs, q) <==> q in questions {
      if q in questions {
        var i :| 0 <= i < |questions| && questions[i] == q;
        assert pairs[i].0 == q;
      }
    }
    var vs := Values(r);
    ZeroDetailScored(reasoning);
    assert forall k :: 0 <= k < |vs| ==> Scored(vs[k]);
    FilterKeepsAll(vs, Scored);
    assert forall k :: 0 <= k < |vs| ==> ScoreOf(vs[k]) == Some(0.0);
    SumOfZeros(Scores(vs));
  }

  // ----- Grading one submission -----

  /** The calls the workflow makes outside this model. */
  datatype Services = Services(
    extract: string -> string,                // the document's text; an unreadable file gives ""
    ask: (string, string) -> Option<string>,  // the model's reply for a student name and text, None when the call raises
    decode: string -> Option<Json>)           // `json.loads`, None on a decoding error

  /** `GradingAgent.grade_submission`: the decoded reply, whatever JSON value it is; the default
      grading when the reply does not decode or the call raises. */
  function GradeSubmission(name: string, text: string, questions: seq<string>, s: Services): (r: Json)
    ensures s.ask(name, text).None? ==> r == JObj(DefaultGrading(questions))
    ensures s.ask(name, text).Some? && s.decode(s.ask(name, text).value).None? ==>
      r == JObj(DefaultGrading(questions))
    ensures s.ask(name, text).Some? && s.decode(s.ask(name, text).value).Some? ==>
      r == s.decode(s.ask(name, text).value).value
  {
    match s.ask(name, text)
    case None => JObj(DefaultGrading(questions))
    case Some(reply) =>
      match s.decode(reply)
      case None => JObj(DefaultGrading(questions))
      case Some(v) => v
  }

  /** Whatever goes wrong in grading, the fallback names every question once and adds up to 0. */
  lemma DefaultGradingZero(questions: seq<string>)
    ensures forall q :: HasKey(DefaultGrading(questions), q) <==> q in questions
    ensures DistinctKeys(DefaultGrading(questions))
    ensures TotalScore(JObj(DefaultGrading(questions))) == Some(0.0)
  {
    UniformGradingShape(questions, "Error in grading - default score assigned");
  }

  /** The arguments one iteration of the batch hands to `add_grading_result`. */
  datatype Grading = Grading(studentName: string, filename: string, details: Dict<Json>, total: real)

  /** One iteration of `process_all_submissions` for a file: blank text gets the empty grading
      with total 0; otherwise the submission is graded and added up, and a grading that cannot
      be added up raises inside the iteration, which records the error grading with total 0.
      The student name comes from the corrected name extraction. */
  function GradeFile(filename: string, s: Services): Grading {
    var name := LegacyName(filename);
    var text := s.extract(filename);
    if Strip(text) == "" then Grading(name, filename, EmptyGrading(), 0.0)
    else
      var g := GradeSubmission(name, text, Questions(), s);
      var total := TotalScore(g);
      if total.Some? then Grading(name, filename, g.fields, total.value)
      else Grading(name, filename, ErrorGrading(), 0.0)
  }

  /** Every file is recorded under its own name, with a total that is exactly what its recorded
      details add up to; the details are the empty grading for blank text, the error grading
      when the graded result cannot be added up, and the graded result otherwise. */
  lemma GradeFileRecords(filename: string, s: Services)
    ensures GradeFile(filename, s).filename == filename
    ensures GradeFile(filename, s).studentName == LegacyName(filename)
    ensures TotalScore(JObj(GradeFile(filename, s).details)) == Some(GradeFile(filename, s).total)
    ensures Strip(s.extract(filename)) == "" ==> GradeFile(filename, s).details == EmptyGrading()
    ensures Strip(s.extract(filename)) != "" ==>
      var g := GradeSubmission(LegacyName(filename), s.extract(filename), Questions(), s);
      if TotalScore(g).Some? then GradeFile(filename, s).details == g.fields
      else GradeFile(filename, s).details == ErrorGrading() && GradeFile(filename, s).total == 0.0
  {
    UniformGradingShape(Questions(), "No submission or empty submission");
    UniformGradingShape(Questions(), "Error processing submission");
  }

  // ----- The CSV manager -----

  /** The SpeedGrader page an entry links to, identified by the student id it embeds. */
  datatype GraderLink = GraderLink(studentId: string)

  /** One stored result. */
  datatype CsvEntry = CsvEntry(
    studentName: string,
    filename: string,
    studentId: string,
    url: GraderLink,
    totalScore: real,
    gradingDetails: Dict<Json>)

  /** The fixed part of every link's address: the SpeedGrader page of the assignment, up to the
      student id. */
  function SpeedGraderPage(l: GraderLink): string {
    "https://boisestatecanvas.instructure.com/courses/42497/gradebook/speed_grader?assignment_id=1479096&student_id="
  }

  /** The link's address: the fixed page address followed by the id. */
  function LinkText(l: GraderLink): string {
    SpeedGraderPage(l) + l.studentId
  }

  /** The student id an address points at: what follows the fixed page address. */
  function UrlStudentId(url: string): Option<string> {
    var page := SpeedGraderPage(GraderLink(""));
    if |url| >= |page| && url[..|page|] == page then Some(url[|page|..]) else None
  }

  /** Reading the id back out of a link's address gives the id it was built from. */
  lemma LinkNamesStudent(l: GraderLink)
    ensures UrlStudentId(LinkText(l)) == Some(l.studentId)
  {
    var page := SpeedGraderPage(l);
    assert page == SpeedGraderPage(GraderLink(""));
    assert LinkText(l)[..|page|] == page && LinkText(l)[|page|..] == l.studentId;
  }

  /** The entry `add_grading_result` builds. */
  function NewEntry(g: Grading): CsvEntry {
    var id := CsvStudentId(g.filename);
    CsvEntry(g.studentName, g.filename, id, GraderLink(id), g.total, g.details)
  }

  /** An entry keeps what it was given, takes its id from the file name, and links to the
      grader page of exactly that id (whose address gives the id back, `LinkNamesStudent`). */
  lemma NewEntryFields(g: Grading)
    ensures NewEntry(g).studentName == g.studentName && NewEntry(g).filename == g.filename
    ensures NewEntry(g).totalScore == g.total && NewEntry(g).gradingDetails == g.details
    ensures NewEntry(g).studentId == CsvStudentId(g.filename) && NewEntry(g).url.studentId == NewEntry(g).studentId
  {
  }

  /** `CSVManager.add_grading_result`: exactly one entry more, and the earlier ones untouched. */
  function AddGradingResult(results: seq<CsvEntry>, g: Grading): (r: seq<CsvEntry>)
    ensures |r| == |results| + 1 && r[..|results|] == results
    ensures r[|results|] == NewEntry(g)
  {
    results + [NewEntry(g)]
  }

  /** The entry's total is what its details add up to. */
  predicate AddsUp(e: CsvEntry) {
    TotalScore(JObj(e.gradingDetails)) == Some(e.totalScore)
  }

  /** Every entry the batch records adds up, whichever way its file went. */
  lemma EntryAddsUp(filename: string, s: Services)
    ensures AddsUp(NewEntry(GradeFile(filename, s)))
  {
    GradeFileRecords(filename, s);
  }

  // ----- Flattening for the CSV file -----

  /** A CSV cell: a value as the model or the workflow gave it, or the SpeedGrader link (written
      out as its address). */
  datatype RowCell = Value(v: Json) | Link(link: GraderLink)

  /** The five columns every row starts with. */
  function BaseRow(e: CsvEntry): Dict<RowCell> {
    [("student_name", Value(JStr(e.studentName))), ("filename", Value(JStr(e.filename))),
     ("student_id", Value(JStr(e.studentId))), ("url", Link(e.url)), ("total_score", Value(JNum(e.totalScore)))]
  }

  function ScoreCell(detail: Json): RowCell {
    if detail.JObj? then Value(GetOr(detail.fields, "score", JNum(0.0))) else Value(JNum(0.0))
  }

  function ReasoningCell(detail: Json): RowCell {
    if detail.JObj? then Value(GetOr(detail.fields, "reasoning", JStr(""))) else Value(JStr("Error in grading"))
  }

  function DetailPairs(details: Dict<Json>): (r: seq<(string, RowCell)>)
    ensures |r| == 2 * |details|
    ensures forall k :: 0 <= k < |details| ==>
      && r[2 * k] == (details[k].0 + "_score", ScoreCell(details[k].1))
      && r[2 * k + 1] == (details[k].0 + "_reasoning", ReasoningCell(details[k].1))
  {
    if details == [] then []
    else
      var q := details[0].0;
      var rest := DetailPairs(details[1..]);
      var r := [(q + "_score", ScoreCell(details[0].1)), (q + "_reasoning", ReasoningCell(details[0].1))] + rest;
      assert forall j :: 2 <= j < |r| ==> r[j] == rest[j - 2];
      r
  }

  /** The row `save_to_csv` writes for an entry: the base columns, then the columns of every
      question assigned in turn. */
  function FlattenRow(e: CsvEntry): Dict<RowCell> {
    FromPairs(BaseRow(e) + DetailPairs(e.gradingDetails))
  }

  lemma SuffixCancel(a: string, b: string, t: string)
    requires a + t == b + t
    ensures a == b
  {
    assert a == (a + t)[..|a|];
    assert b == (b + t)[..|b|];
  }

  /** A score column never coincides with a reasoning column. */
  lemma ScoreNotReasoning(a: string, b: string)
    ensures a + "_score" != b + "_reasoning"
  {
    var x := a + "_score";
    var y := b + "_reasoning";
    assert x[|x| - 1] == 'e';
    assert y[|y| - 1] == 'g';
  }

  /** A base column other than the total is never a question's column. */
  lemma NotDetailColumn(c: string, q: string)
    requires c in ["student_name", "filename", "student_id", "url"]
    ensures q + "_score" != c && q + "_reasoning" != c
  {
    var x := q + "_score";
    var y := q + "_reasoning";
    assert x[|x| - 2] == 'r' && y[|y| - 2] == 'n';
  }

  /** A pair assigned after a fixed prefix, whose key nothing later reassigns, is what the
      built dictionary holds for that key. */
  lemma LaterPairWins<X>(base: seq<(string, X)>, rest: seq<(string, X)>, k: nat)
    requires k < |rest| && forall j :: k < j < |rest| ==> rest[j].0 != rest[k].0
    ensures Get(FromPairs(base + rest), rest[k].0) == Some(rest[k].1)
  {
    var pairs := base + rest;
    assert forall j :: |base| <= j < |pairs| ==> pairs[j] == rest[j - |base|];
    FromPairsLastWins(pairs, |base| + k);
  }

  /** A pair of the prefix whose key neither the prefix nor the rest reassigns is what the built
      dictionary holds for that key. */
  lemma EarlierPairWins<X>(base: seq<(string, X)>, rest: seq<(string, X)>, k: nat)
    requires k < |base| && forall j :: k < j < |base| ==> base[j].0 != base[k].0
    requires forall j :: 0 <= j < |rest| ==> rest[j].0 != base[k].0
    ensures Get(FromPairs(base + rest), base[k].0) == Some(base[k].1)
  {
    var pairs := base + rest;
    assert forall j :: |base| <= j < |pairs| ==> pairs[j] == rest[j - |base|];
    FromPairsLastWins(pairs, k);
  }

  /** A name that is no question of the details names none of their columns. */
  lemma DetailColumnsAvoid(d: Dict<Json>, q: string)
    requires !HasKey(d, q)
    ensures forall j :: 0 <= j < |DetailPairs(d)| ==>
      DetailPairs(d)[j].0 != q + "_score" && DetailPairs(d)[j].0 != q + "_reasoning"
  {
    var dp := DetailPairs(d);
    forall j | 0 <= j < |dp| ensures dp[j].0 != q + "_score" && dp[j].0 != q + "_reasoning" {
      var m := j / 2;
      ScoreNotReasoning(q, d[m].0);
      ScoreNotReasoning(d[m].0, q);
      if d[m].0 + "_score" == q + "_score" {
        SuffixCancel(d[m].0, q, "_score");
      }
      if d[m].0 + "_reasoning" == q + "_reasoning" {
        SuffixCancel(d[m].0, q, "_reasoning");
      }
    }
  }

  /** With distinct question names, no column of the details is named twice. */
  lemma {:induction false} DetailColumnsDistinct(d: Dict<Json>)
    requires DistinctKeys(d)
    ensures forall i, j :: 0 <= i < j < |DetailPairs(d)| ==> DetailPairs(d)[i].0 != DetailPairs(d)[j].0
  {
    if d != [] {
      var q := d[0].0;
      var rest := d[1..];
      assert forall i, j :: 0 <= i < j < |rest| ==> rest[i].0 != rest[j].0 by {
        assert forall i :: 0 <= i < |rest| ==> rest[i] == d[i + 1];
      }
      assert !HasKey(rest, q) by {
        assert forall i :: 0 <= i < |rest| ==> rest[i] == d[i + 1];
      }
      DetailColumnsDistinct(rest);
      DetailColumnsAvoid(rest, q);
      ScoreNotReasoning(q, q);
      var dp := DetailPairs(d);
      assert dp == dp[..2] + DetailPairs(rest);
      TwoThenDistinct(dp[..2], DetailPairs(rest));
    }
  }

  /** Two differently named pairs ahead of a list of distinct names none of which they use. */
  lemma TwoThenDistinct<X>(head: seq<(string, X)>, tail: seq<(string, X)>)
    requires |head| == 2 && head[0].0 != head[1].0
    requires forall j :: 0 <= j < |tail| ==> tail[j].0 != head[0].0 && tail[j].0 != head[1].0
    requires forall i, j :: 0 <= i < j < |tail| ==> tail[i].0 != tail[j].0
    ensures forall i, j :: 0 <= i < j < |head + tail| ==> (head + tail)[i].0 != (head + tail)[j].0
  {
    var all := head + tail;
    forall i, j | 0 <= i < j < |all| ensures all[i].0 != all[j].0 {
      if i >= 2 {
        assert all[i] == tail[i - 2] && all[j] == tail[j - 2];
      } else if j >= 2 {
        assert all[j] == tail[j - 2];
      }
    }
  }

  /** Each question of a dict's details gets its own two cells: the detail's score (0 if it has
      none) and reasoning ("" if it has none) when the detail is a dict, and 0 with "Error in
      grading" when it is not. */
  lemma RowDetailCells(e: CsvEntry, k: nat)
    requires DistinctKeys(e.gradingDetails) && k < |e.gradingDetails|
    ensures var (q, v) := e.gradingDetails[k];
      && Get(FlattenRow(e), q + "_score") ==
         Some(Value(if v.JObj? then GetOr(v.fields, "score", JNum(0.0)) else JNum(0.0)))
      && Get(FlattenRow(e), q + "_reasoning") ==
         Some(Value(if v.JObj? then GetOr(v.fields, "reasoning", JStr("")) else JStr("Error in grading")))
  {
    var d := e.gradingDetails;
    DetailColumnsDistinct(d);
    LaterPairWins(BaseRow(e), DetailPairs(d), 2 * k);
    LaterPairWins(BaseRow(e), DetailPairs(d), 2 * k + 1);
  }

  /** No column of the details is one of the first four base columns. */
  lemma DetailColumnsNotBase(d: Dict<Json>, c: string)
    requires c in ["student_name", "filename", "student_id", "url"]
    ensures forall j :: 0 <= j < |DetailPairs(d)| ==> DetailPairs(d)[j].0 != c
  {
    var dp := DetailPairs(d);
    forall j | 0 <= j < |dp| ensures dp[j].0 != c {
      NotDetailColumn(c, d[j / 2].0);
    }
  }

  /** One of the first four base columns keeps the entry's value. */
  lemma RowBaseCell(e: CsvEntry, k: nat)
    requires k < 4
    ensures Get(FlattenRow(e), BaseRow(e)[k].0) == Some(BaseRow(e)[k].1)
  {
    DetailColumnsNotBase(e.gradingDetails, BaseRow(e)[k].0);
    EarlierPairWins(BaseRow(e), DetailPairs(e.gradingDetails), k);
  }

  /** The base columns keep the entry's values. */
  lemma RowBaseCells(e: CsvEntry)
    ensures Get(FlattenRow(e), "student_name") == Some(Value(JStr(e.studentName)))
    ensures Get(FlattenRow(e), "filename") == Some(Value(JStr(e.filename)))
    ensures Get(FlattenRow(e), "student_id") == Some(Value(JStr(e.studentId)))
    ensures Get(FlattenRow(e), "url") == Some(Link(e.url))
  {
    RowBaseCell(e, 0);
    RowBaseCell(e, 1);
    RowBaseCell(e, 2);
    RowBaseCell(e, 3);
  }

  /** The total column keeps the entry's total unless a question is named "total", whose score
      column is the same "total_score". */
  lemma RowTotalCell(e: CsvEntry)
    requires !HasKey(e.gradingDetails, "total")
    ensures Get(FlattenRow(e), "total_score") == Some(Value(JNum(e.totalScore)))
  {
    DetailColumnsAvoid(e.gradingDetails, "total");
    assert "total" + "_score" == "total_score";
    EarlierPairWins(BaseRow(e), DetailPairs(e.gradingDetails), 4);
  }

  /** A question named "total" overwrites the total column with its own score. */
  lemma TotalQuestionShadowsTotal(e: CsvEntry, v: Json)
    requires e.gradingDetails == [("total", v)]
    ensures Get(FlattenRow(e), "total_score") == Some(ScoreCell(v))
  {
    assert "total" + "_score" == "total_score";
    RowDetailCells(e, 0);
  }

  // ----- Summary statistics -----

  /** The statistics `get_summary_stats` reports for a non-empty list of results. */
  datatype Stats = Stats(
    totalStudents: nat,
    averageScore: real,
    highestScore: real,
    lowestScore: real,
    studentsWithZero: nat,
    studentsWithFullMarks: nat)

  function TotalScores(results: seq<CsvEntry>): (s: seq<real>)
    ensures |s| == |results| && forall i :: 0 <= i < |results| ==> s[i] == results[i].totalScore
  {
    seq(|results|, i requires 0 <= i < |results| => results[i].totalScore)
  }

  /** A total of 1 or more counts as full marks. */
  predicate FullMarks(x: real) {
    x >= 1.0
  }

  /** `CSVManager.get_summary_stats`: nothing (the empty dict) without results; otherwise the
      count, the mean, the extremes, and how many totals are exactly 0 and how many at least 1. */
  function SummaryStats(results: seq<CsvEntry>): (r: Option<Stats>)
    ensures r.None? <==> results == []
    ensures r.Some? ==> r.value.totalStudents == |results|
  {
    if results == [] then None
    else
      var s := TotalScores(results);
      Some(Stats(|s|, OutputManager.Average(s), OutputManager.Highest(s), OutputManager.Lowest(s),
                 |Filter(s, OutputManager.IsZero)|, |Filter(s, FullMarks)|))
  }

  /** The extremes are totals that bound all the others. */
  lemma SummaryStatsExtremes(results: seq<CsvEntry>)
    requires results != []
    ensures var st := SummaryStats(results).value; var s := TotalScores(results);
      && st.highestScore in s && st.lowestScore in s
      && (forall i :: 0 <= i < |s| ==> st.lowestScore <= s[i] <= st.highestScore)
  {
  }

  /** No total is zero exactly when the zero count is 0, and every total is at least 1 exactly
      when all results count as full marks. */
  lemma SummaryStatsCounts(results: seq<CsvEntry>)
    requires results != []
    ensures var st := SummaryStats(results).value; var s := TotalScores(results);
      && (st.studentsWithZero == 0 <==> forall i :: 0 <= i < |s| ==> s[i] != 0.0)
      && (st.studentsWithFullMarks == |s| <==> forall i :: 0 <= i < |s| ==> s[i] >= 1.0)
  {
    var s := TotalScores(results);
    FilterKeepsNone(s, OutputManager.IsZero);
    FilterKeepsAll(s, FullMarks);
  }

  /** The average times the count is the sum of the totals. */
  lemma SummaryStatsAverage(results: seq<CsvEntry>)
    requires results != []
    ensures var s := TotalScores(results);
      SummaryStats(results).value.averageScore * (|s| as real) == OutputManager.Total(s)
  {
    var s := TotalScores(results);
    var avg := OutputManager.Average(s);
    assert avg * (|s| as real) == OutputManager.Total(s);
    assert SummaryStats(results).value.averageScore == avg;
  }

  /** The average lies between the extremes, and no total is counted both as zero and as full
      marks. */
  lemma SummaryStatsConsistent(results: seq<CsvEntry>)
    requires results != []
    ensures var st := SummaryStats(results).value;
      && st.lowestScore <= st.averageScore <= st.highestScore
      && st.studentsWithZero + st.studentsWithFullMarks <= st.totalStudents
  {
    var s := TotalScores(results);
    OutputManager.AverageBounds(s, OutputManager.Lowest(s), OutputManager.Highest(s));
    FilterDisjoint(s, OutputManager.IsZero, FullMarks);
  }

  // ----- The batch -----

  /** The per-file loop: the entry for each file is added in order, one per file. */
  method RecordAll(files: seq<string>, record: string -> CsvEntry) returns (results: seq<CsvEntry>)
    ensures |results| == |files|
    ensures forall i :: 0 <= i < |files| ==> results[i] == record(files[i])
  {
    results := [];
    var i := 0;
    while i < |files|
      invariant 0 <= i <= |files| && |results| == i
      invariant forall j :: 0 <= j < i ==> results[j] == record(files[j])
    {
      results := results + [record(files[i])];
      i := i + 1;
    }
  }

  /** What a run leaves behind: the stored results, the CSV rows and the summary. */
  datatype Run = Run(results: seq<CsvEntry>, rows: seq<Dict<RowCell>>, stats: Option<Stats>)

  /** `save_results` and `get_summary_stats` over the stored results: one flattened row per
      entry, in order, and the statistics of those entries. */
  function Report(results: seq<CsvEntry>): (r: Run)
    ensures r.results == results && |r.rows| == |results|
    ensures forall i :: 0 <= i < |results| ==> r.rows[i] == FlattenRow(results[i])
    ensures r.stats == SummaryStats(results) && (r.stats.Some? <==> results != [])
  {
    Run(results, seq(|results|, i requires 0 <= i < |results| => FlattenRow(results[i])), SummaryStats(results))
  }

  /** `GradingWorkflow.process_all_submissions` over the submission file names: nothing at all
      without files; otherwise exactly one entry per file in order, each carrying a total that
      its details add up to, and the report (rows and statistics) of those entries. */
  method ProcessAllSubmissions(files: seq<string>, s: Services) returns (r: Option<Run>)
    ensures r.None? <==> files == []
    ensures r.Some? ==> |r.value.results| == |files|
    ensures r.Some? ==> forall i :: 0 <= i < |files| ==> r.value.results[i] == NewEntry(GradeFile(files[i], s))
    ensures r.Some? ==> forall i :: 0 <= i < |files| ==> AddsUp(r.value.results[i])
    ensures r.Some? ==> r.value == Report(r.value.results)
  {
    if files == [] {
      return None;
    }
    var results := RecordAll(files, f => NewEntry(GradeFile(f, s)));
    forall i | 0 <= i < |files| ensures AddsUp(results[i]) {
      EntryAddsUp(files[i], s);
    }
    var run := Report(results);
    return Some(run);
  }
}
