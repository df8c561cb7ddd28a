/** The configuration generator: the model reads the questions (and, when there is one, the answer
    key) and proposes the questions, their points and the instructions; the generator completes
    that proposal into a full assignment configuration, checks configurations for missing or
    invalid fields, and previews question text. The document reader and the model are
    parameters. */
module ConfigGenerator {
  import opened Wrappers
  import opened Text
  import opened PyDict
  import opened Json
  import opened Seqs

  /** What the model is shown: the assignment name, the question text, and the answer-key text
      when it is non-empty. The fixed instructions and layout around them are not modelled. */
  datatype ConfigRequest = ConfigRequest(assignmentName: string, questionsText: string, answerKeyText: Option<string>)

  /** The document reader ("" for a missing or unsupported file), the model, and the JSON
      decoder with the fenced-block search used by the reply parser. */
  datatype Services = Services(
    read: string -> string,
    ask: ConfigRequest -> string,
    decode: string -> Option<Json>,
    fenced: string -> Option<string>)

  /** Why generation raises. */
  datatype GenError =
    | NoText(path: string)     // the questions document gave no text
    | NoConfig                 // the reply held no JSON, or only a falsy one
    | NotAnObject              // the reply's JSON is not an object, so it has no `get`
    | BadPoints                // the points fallback could not add up the question points
    | Unmeasured               // the questions value has no length, so the closing log line raises

  // ----- Completing the proposal -----

  /** A generated configuration: the given id and name, the course and term, and the model's
      questions, total and instructions as completed. The remaining fields are fixed. */
  datatype GeneratedConfig = GeneratedConfig(
    assignmentId: string,
    assignmentName: string,
    courseCode: string,
    term: string,
    questions: Json,
    totalPoints: Json,
    gradingInstructions: Json)

  /** The instructions used when the model proposes none. */
  function DefaultInstructions(): string {
    "Grade fairly and consistently. Provide detailed feedback."
  }

  /** `value or default` for an optional string: None and "" both take the default. */
  function OrDefault(value: Option<string>, default: string): (r: string)
    ensures value.Some? && value.value != "" ==> r == value.value
    ensures value.None? || value.value == "" ==> r == default
  {
    if value.Some? && value.value != "" then value.value else default
  }

  /** What one question adds to the fallback total: it must be an object, and a missing points
      field counts as 0. */
  function ItemValue(q: Json): (r: Option<real>)
    ensures r.Some? <==> q.JObj? && NumberValue(GetOr(q.fields, "points", JNum(0.0))).Some?
    ensures q.JObj? && !HasKey(q.fields, "points") ==> r == Some(0.0)
  {
    if q.JObj? then NumberValue(GetOr(q.fields, "points", JNum(0.0))) else None
  }

  /** `sum(q.get("points", 0) for q in items)`, raising (None) when some item cannot be added. */
  function SumItemPoints(items: seq<Json>): (r: Option<real>)
    ensures r.Some? <==> forall k :: 0 <= k < |items| ==> ItemValue(items[k]).Some?
  {
    var vs := seq(|items|, k requires 0 <= k < |items| => ItemValue(items[k]));
    assert forall k :: 0 <= k < |items| ==> vs[k] == ItemValue(items[k]);
    SumValues(vs)
  }

  /** The fallback total over the questions value: it must be iterable (a list, or an empty
      string or object), and then every item is summed. */
  function SumPoints(questions: Json): (r: Option<real>)
    ensures questions == JArr([]) ==> r == Some(0.0)
    ensures questions.JArr? ==> r == SumItemPoints(questions.items)
    ensures PyIter(questions).None? ==> r.None?
  {
    match PyIter(questions)
    case None => None
    case Some(items) => SumItemPoints(items)
  }

  /** The configuration as the dictionary that is saved and later checked; partial credit is on
      and the creator and version are fixed. */
  function ToDict(c: GeneratedConfig): Dict<Json> {
    [("assignment_id", JStr(c.assignmentId)),
     ("assignment_name", JStr(c.assignmentName)),
     ("course_code", JStr(c.courseCode)),
     ("term", JStr(c.term)),
     ("questions", c.questions),
     ("total_points", c.totalPoints),
     ("grading_instructions", c.gradingInstructions),
     ("allow_partial_credit", JBool(true)),
     ("created_by", JStr("ConfigGeneratorAgent")),
     ("version", JStr("1.0"))]
  }

  /** The configuration completed from the model's questions, total and instructions: the
      total when truthy and otherwise the sum of the question points, which can raise; the
      log line that reports the result takes the length of the questions value, which raises
      when it has none. */
  function Completion(assignmentId: string, assignmentName: string, course: Option<string>, term: Option<string>,
                      questions: Json, total: Json, instructions: Json): Result<GeneratedConfig, GenError>
  {
    var courseCode := OrDefault(course, "UNKNOWN");
    var termText := OrDefault(term, "Unknown Term");
    if Truthy(total) then
      if PyLen(questions).None? then Failure(Unmeasured)
      else Success(GeneratedConfig(assignmentId, assignmentName, courseCode, termText, questions, total, instructions))
    else
      match SumPoints(questions)
      case None => Failure(BadPoints)
      case Some(sum) => Success(GeneratedConfig(assignmentId, assignmentName, courseCode, termText, questions, JNum(sum), instructions))
  }

  /** Completion keeps the id, name, questions and instructions, defaults the course and term to
      "UNKNOWN" and "Unknown Term", keeps a truthy total and otherwise replaces it with the sum of
      the question points, and fails exactly when that sum cannot be taken or the questions value
      has no length. */
  lemma CompletionShape(assignmentId: string, assignmentName: string, course: Option<string>, term: Option<string>,
                        questions: Json, total: Json, instructions: Json)
    ensures var r := Completion(assignmentId, assignmentName, course, term, questions, total, instructions);
      && (r.Success? <==> PyLen(questions).Some? && (Truthy(total) || SumPoints(questions).Some?))
      && (r.Failure? ==> (r.error == BadPoints <==> !Truthy(total)))
      && (r.Failure? ==> (r.error == Unmeasured <==> Truthy(total)))
      && (r.Success? ==>
           && r.value.assignmentId == assignmentId && r.value.assignmentName == assignmentName
           && (course.Some? && course.value != "" ==> r.value.courseCode == course.value)
           && (course.None? || course.value == "" ==> r.value.courseCode == "UNKNOWN")
           && (term.Some? && term.value != "" ==> r.value.term == term.value)
           && (term.None? || term.value == "" ==> r.value.term == "Unknown Term")
           && r.value.questions == questions && r.value.gradingInstructions == instructions
           && (Truthy(total) ==> r.value.totalPoints == total)
           && (!Truthy(total) ==> SumPoints(questions).Some? && r.value.totalPoints == JNum(SumPoints(questions).value)))
  {
    var courseCode := OrDefault(course, "UNKNOWN");
    var termText := OrDefault(term, "Unknown Term");
    var r := Completion(assignmentId, assignmentName, course, term, questions, total, instructions);
    if Truthy(total) && PyLen(questions).None? {
      assert r == Failure(Unmeasured);
    } else if Truthy(total) {
      assert r == Success(GeneratedConfig(assignmentId, assignmentName, courseCode, termText, questions, total, instructions));
    } else if SumPoints(questions).Some? {
      var t := JNum(SumPoints(questions).value);
      assert r == Success(GeneratedConfig(assignmentId, assignmentName, courseCode, termText, questions, t, instructions));
    } else {
      assert r == Failure(BadPoints);
      assert PyLen(questions).None? ==> SumPoints(questions).None?;
    }
  }

  /** The model's proposal completed: its questions (an empty list when it has none), its total
      (None when it has none) and its instructions (the default ones when it has none). */
  function CompleteProposal(proposal: Dict<Json>, assignmentId: string, assignmentName: string,
                            course: Option<string>, term: Option<string>): Result<GeneratedConfig, GenError>
  {
    Completion(assignmentId, assignmentName, course, term,
               GetOr(proposal, "questions", JArr([])), GetOr(proposal, "total_points", JNull),
               GetOr(proposal, "grading_instructions", JStr(DefaultInstructions())))
  }

  /** `generate_config`: read the questions (raising when they give no text), ask the model,
      parse its reply, and complete the proposal. */
  function GenerateConfig(assignmentId: string, assignmentName: string, questionsPath: string,
                          answerKeyPath: Option<string>, course: Option<string>, term: Option<string>,
                          s: Services): Result<GeneratedConfig, GenError> {
    var questionsText := s.read(questionsPath);
    if questionsText == "" then Failure(NoText(questionsPath))
    else
      var reply := s.ask(Request(assignmentName, questionsText, answerKeyPath, s));
      var parsed := ParseModelJson(reply, s.decode, s.fenced);
      if parsed.None? || !Truthy(parsed.value) then Failure(NoConfig)
      else if !parsed.value.JObj? then Failure(NotAnObject)
      else CompleteProposal(parsed.value.fields, assignmentId, assignmentName, course, term)
  }

  /** The request for the model: the answer key is read only when a path is given, and shown only
      when its text is non-empty. */
  function Request(assignmentName: string, questionsText: string, answerKeyPath: Option<string>, s: Services): (r: ConfigRequest)
    ensures r.assignmentName == assignmentName && r.questionsText == questionsText
    ensures r.answerKeyText.Some? <==> answerKeyPath.Some? && answerKeyPath.value != "" && s.read(answerKeyPath.value) != ""
    ensures r.answerKeyText.Some? ==> r.answerKeyText.value == s.read(answerKeyPath.value)
  {
    var answerKey := if answerKeyPath.Some? && answerKeyPath.value != "" then s.read(answerKeyPath.value) else "";
    ConfigRequest(assignmentName, questionsText, if answerKey != "" then Some(answerKey) else None)
  }

  /** The reply the model gives for a questions document, parsed. */
  function ParsedReply(assignmentName: string, questionsPath: string, answerKeyPath: Option<string>, s: Services): Option<Json> {
    var reply := s.ask(Request(assignmentName, s.read(questionsPath), answerKeyPath, s));
    ParseModelJson(reply, s.decode, s.fenced)
  }

  /** Generation raises when the questions document gives no text, and when the reply holds no
      JSON or only a falsy one, or one that is not an object. */
  lemma GenerateFailures(assignmentId: string, assignmentName: string, questionsPath: string,
                         answerKeyPath: Option<string>, course: Option<string>, term: Option<string>, s: Services)
    ensures s.read(questionsPath) == "" ==>
      GenerateConfig(assignmentId, assignmentName, questionsPath, answerKeyPath, course, term, s) == Failure(NoText(questionsPath))
    ensures s.read(questionsPath) != "" ==>
      var parsed := ParsedReply(assignmentName, questionsPath, answerKeyPath, s);
      (parsed.None? || !Truthy(parsed.value) ==>
         GenerateConfig(assignmentId, assignmentName, questionsPath, answerKeyPath, course, term, s) == Failure(NoConfig))
      && (parsed.Some? && Truthy(parsed.value) && !parsed.value.JObj? ==>
         GenerateConfig(assignmentId, assignmentName, questionsPath, answerKeyPath, course, term, s) == Failure(NotAnObject))
  {
  }

  /** A successful generation is the completion of the model's non-empty object proposal. */
  lemma GenerateSuccess(assignmentId: string, assignmentName: string, questionsPath: string,
                        answerKeyPath: Option<string>, course: Option<string>, term: Option<string>, s: Services)
    ensures var r := GenerateConfig(assignmentId, assignmentName, questionsPath, answerKeyPath, course, term, s);
      var parsed := ParsedReply(assignmentName, questionsPath, answerKeyPath, s);
      && (r.Success? <==>
           && s.read(questionsPath) != "" && parsed.Some? && parsed.value.JObj? && |parsed.value.fields| > 0
           && CompleteProposal(parsed.value.fields, assignmentId, assignmentName, course, term).Success?)
      && (r.Success? ==> r == CompleteProposal(parsed.value.fields, assignmentId, assignmentName, course, term))
  {
  }

  // ----- Checking a configuration -----

  /** One problem found in a configuration; questions are numbered from 1. */
  datatype Issue =
    | MissingField(field: string)
    | NoQuestions
    | MissingId(question: nat)
    | MissingText(question: nat)
    | MissingPoints(question: nat)
    | InvalidPoints(question: nat)

  /** How an issue is reported. */
  function Message(issue: Issue): (r: string)
    ensures issue.MissingField? ==> StartsWith(r, "Missing required field: ")
    ensures issue.MissingId? || issue.MissingText? || issue.MissingPoints? || issue.InvalidPoints? ==> StartsWith(r, "Question ")
  {
    match issue
    case MissingField(f) => "Missing required field: " + f
    case NoQuestions => "No questions found in configuration"
    case MissingId(i) => "Question " + NatToString(i) + ": Missing 'id' field"
    case MissingText(i) => "Question " + NatToString(i) + ": Missing 'text' field"
    case MissingPoints(i) => "Question " + NatToString(i) + ": Missing 'points' field"
    case InvalidPoints(i) => "Question " + NatToString(i) + ": Invalid points value"
  }

  /** The top-level fields every configuration needs. */
  function RequiredFields(): seq<string> {
    ["assignment_id", "assignment_name", "questions"]
  }

  /** The required fields the configuration lacks, in order. */
  function MissingFields(config: Dict<Json>): (r: seq<string>)
    ensures Distinct(r)
    ensures forall f :: f in r <==> f in RequiredFields() && !HasKey(config, f)
  {
    FilterDistinct(RequiredFields(), f => !HasKey(config, f));
    Filter(RequiredFields(), f => !HasKey(config, f))
  }

  /** `v <= 0` for a point value: numbers and booleans compare, anything else raises (None). */
  function AtMostZero(v: Json): (r: Option<bool>)
    ensures r.Some? <==> v.JNum? || v.JBool?
    ensures v.JNum? ==> r == Some(v.n <= 0.0)
  {
    match v
    case JNum(n) => Some(n <= 0.0)
    case JBool(b) => Some(!b)
    case _ => None
  }

  /** What checking one question finds: which of id, text and points it has, and whether the
      points it has are at most 0. */
  datatype Facts = Facts(hasId: bool, hasText: bool, hasPoints: bool, pointsAtMostZero: bool)

  /** Checking one question: `key in question` for each field, then `question["points"] <= 0`
      when points are present. A value that is not a container, or points that cannot be indexed
      or compared with 0, raise (None). */
  function Inspect(q: Json): (r: Option<Facts>)
    ensures r.None? <==>
      || PyIn("id", q).None?
      || (PyIn("points", q) == Some(true) &&
          (PyIndex(q, "points").None? || AtMostZero(PyIndex(q, "points").value).None?))
    ensures r.Some? ==>
      && r.value.hasId == (PyIn("id", q) == Some(true))
      && r.value.hasText == (PyIn("text", q) == Some(true))
      && r.value.hasPoints == (PyIn("points", q) == Some(true))
      && (r.value.pointsAtMostZero <==> r.value.hasPoints && AtMostZero(PyIndex(q, "points").value) == Some(true))
  {
    if PyIn("id", q).None? then None
    else
      var hasId := PyIn("id", q).value;
      var hasText := PyIn("text", q).value;
      var hasPoints := PyIn("points", q).value;
      if !hasPoints then Some(Facts(hasId, hasText, false, false))
      else if PyIndex(q, "points").None? then None
      else
        var z := AtMostZero(PyIndex(q, "points").value);
        if z.None? then None else Some(Facts(hasId, hasText, true, z.value))
  }

  /** Checking every question of a list, in order; None when one of them raises. */
  function InspectAll(items: seq<Json>): (r: Option<seq<Facts>>)
    ensures r.Some? <==> forall k :: 0 <= k < |items| ==> Inspect(items[k]).Some?
    ensures r.Some? ==> |r.value| == |items| && forall k :: 0 <= k < |items| ==> Some(r.value[k]) == Inspect(items[k])
  {
    if forall k :: 0 <= k < |items| ==> Inspect(items[k]).Some? then
      Some(seq(|items|, k requires 0 <= k < |items| => Inspect(items[k]).value))
    else None
  }

  /** Checking the questions value: `len` and iteration raise for a value without a length. */
  function InspectQuestions(v: Json): (r: Option<seq<Facts>>)
    ensures r.Some? <==> PyIter(v).Some? && InspectAll(PyIter(v).value).Some?
    ensures r.Some? ==> r == InspectAll(PyIter(v).value) && (r.value == [] <==> PyLen(v) == Some(0))
  {
    match PyIter(v)
    case None => None
    case Some(items) => InspectAll(items)
  }

  /** The question an issue is about, or -1 for an issue about the whole configuration. */
  function QuestionOf(issue: Issue): int {
    match issue
    case MissingField(_) => -1
    case NoQuestions => -1
    case MissingId(n) => n
    case MissingText(n) => n
    case MissingPoints(n) => n
    case InvalidPoints(n) => n
  }

  /** The issues of question number `n`: id, text and points in that order; points that are
      present are invalid when at most 0. */
  function QuestionIssues(f: Facts, n: nat): (r: seq<Issue>)
    ensures forall k :: 0 <= k < |r| ==> QuestionOf(r[k]) == n
  {
    (if !f.hasId then [MissingId(n)] else [])
    + (if !f.hasText then [MissingText(n)] else [])
    + (if !f.hasPoints then [MissingPoints(n)] else if f.pointsAtMostZero then [InvalidPoints(n)] else [])
  }

  /** A question is reported for a missing id, a missing text, missing points, and points at
      most 0, each exactly when checking it found that; missing points are never also invalid. */
  lemma QuestionIssuesReport(f: Facts, n: nat)
    ensures MissingId(n) in QuestionIssues(f, n) <==> !f.hasId
    ensures MissingText(n) in QuestionIssues(f, n) <==> !f.hasText
    ensures MissingPoints(n) in QuestionIssues(f, n) <==> !f.hasPoints
    ensures InvalidPoints(n) in QuestionIssues(f, n) <==> f.hasPoints && f.pointsAtMostZero
  {
  }

  /** The issue lists of the questions numbered from `first` on, one per question. */
  function IssueLists(fs: seq<Facts>, first: nat): (r: seq<seq<Issue>>)
    ensures |r| == |fs| && forall k :: 0 <= k < |fs| ==> r[k] == QuestionIssues(fs[k], first + k)
    decreases |fs|
  {
    if fs == [] then [] else [QuestionIssues(fs[0], first)] + IssueLists(fs[1..], first + 1)
  }

  /** The issues of the questions numbered from `first` on, in order. */
  function QuestionsIssues(fs: seq<Facts>, first: nat): seq<Issue> {
    Flatten(IssueLists(fs, first))
  }

  /** An issue is among the issues of a run of questions exactly when it is about one of them
      and among that question's own issues. */
  lemma QuestionsIssuesAt(fs: seq<Facts>, first: nat, issue: Issue)
    ensures issue in QuestionsIssues(fs, first) <==>
      first <= QuestionOf(issue) < first + |fs| && issue in QuestionIssues(fs[QuestionOf(issue) - first], QuestionOf(issue))
  {
    var ss := IssueLists(fs, first);
    var tag := (i: Issue) => QuestionOf(i) - first;
    forall k, y | 0 <= k < |ss| && y in ss[k] ensures tag(y) == k {
      var j :| 0 <= j < |ss[k]| && ss[k][j] == y;
    }
    FlattenTagged(ss, tag, issue);
  }

  /** The issues of the question list: an empty list is reported, then each question's. */
  function ListIssues(fs: seq<Facts>): seq<Issue> {
    (if fs == [] then [NoQuestions] else []) + QuestionsIssues(fs, 1)
  }

  /** The question list reports no missing field, reports the empty list exactly when it is
      empty, and reports about a question exactly what that question's own check finds. */
  lemma ListIssuesReport(fs: seq<Facts>, issue: Issue)
    ensures !issue.MissingField? || issue !in ListIssues(fs)
    ensures NoQuestions in ListIssues(fs) <==> fs == []
    ensures QuestionOf(issue) >= 0 ==>
      (issue in ListIssues(fs) <==> 1 <= QuestionOf(issue) <= |fs| && issue in QuestionIssues(fs[QuestionOf(issue) - 1], QuestionOf(issue)))
  {
    var tail := QuestionsIssues(fs, 1);
    assert ListIssues(fs) == (if fs == [] then [NoQuestions] else []) + tail;
    QuestionsIssuesAt(fs, 1, issue);
    QuestionsIssuesAt(fs, 1, NoQuestions);
  }

  /** The missing-field issues: one per required field the configuration lacks, in order. */
  function MissingIssues(config: Dict<Json>): (r: seq<Issue>)
    ensures forall k :: 0 <= k < |r| ==> r[k].MissingField?
    ensures forall f :: multiset(r)[MissingField(f)] == if f in RequiredFields() && !HasKey(config, f) then 1 else 0
  {
    var fields := MissingFields(config);
    var r := seq(|fields|, k requires 0 <= k < |fields| => MissingField(fields[k]));
    assert forall f :: MissingField(f) in r <==> f in fields by {
      forall f ensures MissingField(f) in r <==> f in fields {
        if f in fields {
          var k :| 0 <= k < |fields| && fields[k] == f;
          assert r[k] == MissingField(f);
        }
      }
    }
    assert Distinct(r) by {
      forall i, j | 0 <= i < j < |r| ensures r[i] != r[j] {
        assert fields[i] != fields[j];
      }
    }
    DistinctCounts(r);
    r
  }

  /** The issues found in the questions value: none when the configuration has no questions,
      None when checking them raises. */
  function QuestionValueIssues(config: Dict<Json>): Option<seq<Issue>> {
    if !HasKey(config, "questions") then Some([])
    else
      match InspectQuestions(Get(config, "questions").value)
      case None => None
      case Some(fs) => Some(ListIssues(fs))
  }

  /** `validate_config`: the missing required fields, then whether the question list is empty,
      then each question's issues; valid exactly when nothing was found. Checking raises (None)
      when the questions value has no length or some question cannot be checked. */
  function ValidateConfig(config: Dict<Json>): (r: Option<(bool, seq<Issue>)>)
    ensures r.None? <==> HasKey(config, "questions") && InspectQuestions(Get(config, "questions").value).None?
    ensures r.Some? ==> (r.value.0 <==> r.value.1 == [])
  {
    match QuestionValueIssues(config)
    case None => None
    case Some(rest) =>
      var issues := MissingIssues(config) + rest;
      Some((issues == [], issues))
  }

  /** Each missing required field is reported, exactly once, and no other field is. */
  lemma ValidateConfigMissingFields(config: Dict<Json>, f: string)
    requires ValidateConfig(config).Some?
    ensures multiset(ValidateConfig(config).value.1)[MissingField(f)] ==
      if f in RequiredFields() && !HasKey(config, f) then 1 else 0
  {
    var rest := QuestionValueIssues(config).value;
    if HasKey(config, "questions") {
      ListIssuesReport(InspectQuestions(Get(config, "questions").value).value, MissingField(f));
    }
    assert MissingField(f) !in rest;
    assert multiset(ValidateConfig(config).value.1) == multiset(MissingIssues(config)) + multiset(rest);
  }

  /** The empty question list is reported exactly when the configuration has an empty
      questions value. */
  lemma ValidateConfigNoQuestions(config: Dict<Json>)
    requires ValidateConfig(config).Some?
    ensures NoQuestions in ValidateConfig(config).value.1 <==>
      HasKey(config, "questions") && PyLen(Get(config, "questions").value) == Some(0)
  {
    assert NoQuestions !in MissingIssues(config);
    if HasKey(config, "questions") {
      ListIssuesReport(InspectQuestions(Get(config, "questions").value).value, NoQuestions);
    }
  }

  /** Question number n (from 1) is reported for a missing id, text or points, or for points at
      most 0, exactly as checking that question finds; no issue names a question that is not
      there. */
  lemma ValidateConfigQuestion(config: Dict<Json>, issue: Issue)
    requires ValidateConfig(config).Some? && QuestionOf(issue) >= 0
    ensures !HasKey(config, "questions") ==> issue !in ValidateConfig(config).value.1
    ensures HasKey(config, "questions") ==>
      var fs := InspectQuestions(Get(config, "questions").value).value;
      var n := QuestionOf(issue);
      (issue in ValidateConfig(config).value.1 <==> 1 <= n <= |fs| && issue in QuestionIssues(fs[n - 1], n))
  {
    assert issue !in MissingIssues(config);
    if HasKey(config, "questions") {
      ListIssuesReport(InspectQuestions(Get(config, "questions").value).value, issue);
    }
  }

  /** The saved form of a generated configuration has every required field, so checking it
      reports none missing: what it reports is exactly what its question list gives. */
  lemma GeneratedValidation(c: GeneratedConfig)
    ensures MissingIssues(ToDict(c)) == []
    ensures ValidateConfig(ToDict(c)).None? <==> InspectQuestions(c.questions).None?
    ensures ValidateConfig(ToDict(c)).Some? ==>
      ValidateConfig(ToDict(c)).value.1 == ListIssues(InspectQuestions(c.questions).value)
  {
    var d := ToDict(c);
    assert d[0].0 == "assignment_id" && d[1].0 == "assignment_name" && d[4].0 == "questions";
    assert forall g :: g in RequiredFields() ==> HasKey(d, g);
    assert MissingFields(d) == [];
    IndexOfUnique(d, "questions", 4);
  }

  // ----- Previewing -----

  /** The question-text line of the preview: text over 100 characters is cut to its first 100
      followed by "..."; a list or an object is shown when short, while a long one raises
      (None), since a sliced list cannot be joined to a string and an object cannot be sliced;
      anything without a length raises too. */
  function TextPreview(question: Dict<Json>, show: Json -> string): (r: Option<string>)
    ensures GetOr(question, "text", JStr("")).JStr? ==>
      var t := GetOr(question, "text", JStr("")).s;
      && r.Some?
      && (|t| <= 100 ==> r.value == t)
      && (|t| > 100 ==> |r.value| == 103 && r.value[..100] == t[..100] && EndsWith(r.value, "..."))
    ensures r.None? <==> PyLen(GetOr(question, "text", JStr(""))).None?
                         || (GetOr(question, "text", JStr("")).JObj? && |GetOr(question, "text", JStr("")).fields| > 100)
                         || (GetOr(question, "text", JStr("")).JArr? && |GetOr(question, "text", JStr("")).items| > 100)
  {
    match GetOr(question, "text", JStr(""))
    case JStr(t) => Some(Ellipsize(t, 100))
    case JArr(items) => if |items| > 100 then None else Some(show(JArr(items)))
    case JObj(fields) => if |fields| > 100 then None else Some(show(JObj(fields)))
    case _ => None
  }
}
