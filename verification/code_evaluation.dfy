/** The code-evaluation agent: the chat model's review of a code submission, optionally the
    submission's Python run against test cases (refused outright when the code matches one of the
    dangerous patterns), and an overall assessment assembled from both. The chat model, the
    decoder, the Python interpreter and Python's `str` of non-string values are parameters. */
module CodeEvaluation {
  import opened Wrappers
  import opened Text
  import opened PyDict
  import opened Json
  import opened Seqs
  import opened CodeExtraction
  import AssignmentConfig

  /** What one run of the interpreter did with the code and its standard input. */
  datatype RunOutcome =
    | Finished(stdout: string, stderr: string)
    | TimedOut
    | Raised(message: string)         // starting the interpreter failed

  /** The services the agent calls. */
  datatype Services = Services(
    review: (AssignmentConfig.Assignment, string, seq<CodeFile>) -> Result<string, string>, // the model's reply, or why the call raised
    decode: string -> Result<Dict<Json>, string>,  // `json.loads` of a brace span: an object, or the decoder's message
    run: (string, string) -> RunOutcome,           // the code run on the given standard input, with the 5 s limit
    show: Json -> string,                          // Python's `str` of a value that is not a string
    raiseText: Json -> string,                     // the message of the exception raised where a value cannot be used
    percent: (nat, nat) -> string)                 // `f"{passed/total*100:.0f}"`

  // ----- The model's review -----

  const SeeEvaluation: string := "See evaluation"

  /** `_parse_evaluation_response`: the object between the first `{` and the last `}`; with no such
      span, the reply under "evaluation" and "See evaluation" under the four dimensions; when the
      span does not decode, the reply and the decoder's message. */
  function ParseEvaluation(reply: string, decode: string -> Result<Dict<Json>, string>): (r: Dict<Json>)
    ensures BraceSpan(reply).Some? && decode(BraceSpan(reply).value).Success? ==> r == decode(BraceSpan(reply).value).value
    ensures BraceSpan(reply).None? ==>
      && Keys(r) == ["evaluation", "correctness", "code_quality", "efficiency", "style"]
      && forall i :: 1 <= i < |r| ==> r[i].1 == JStr(SeeEvaluation)
    ensures BraceSpan(reply).Some? && decode(BraceSpan(reply).value).Failure? ==>
      r == [("evaluation", JStr(reply)), ("parse_error", JStr(decode(BraceSpan(reply).value).error))]
  {
    match BraceSpan(reply)
    case None =>
      [("evaluation", JStr(reply)), ("correctness", JStr(SeeEvaluation)), ("code_quality", JStr(SeeEvaluation)),
       ("efficiency", JStr(SeeEvaluation)), ("style", JStr(SeeEvaluation))]
    case Some(span) =>
      match decode(span)
      case Success(d) => d
      case Failure(msg) => [("evaluation", JStr(reply)), ("parse_error", JStr(msg))]
  }

  /** A reply that does not decode is never lost: it is kept under "evaluation". */
  lemma ReplyKept(reply: string, decode: string -> Result<Dict<Json>, string>)
    requires BraceSpan(reply).None? || decode(BraceSpan(reply).value).Failure?
    ensures Get(ParseEvaluation(reply, decode), "evaluation") == Some(JStr(reply))
  {
  }

  /** `ai_evaluate_code`: the parsed reply, or the fixed error review when the call raises. */
  function AiEvaluate(reply: Result<string, string>, decode: string -> Result<Dict<Json>, string>): (r: Dict<Json>)
    ensures reply.Success? ==> r == ParseEvaluation(reply.value, decode)
    ensures reply.Failure? ==>
      && Get(r, "correctness") == Some(JStr("Error during evaluation"))
      && Get(r, "error") == Some(JStr(reply.error))
      && Get(r, "strengths").None? && Get(r, "improvements").None?
  {
    match reply
    case Success(t) => ParseEvaluation(t, decode)
    case Failure(e) =>
      var r := [("correctness", JStr("Error during evaluation")), ("style", JStr("Could not evaluate")),
                ("efficiency", JStr("Could not evaluate")), ("error", JStr(e))];
      IndexOfUnique(r, "error", 3);
      r
  }

  // ----- Dangerous patterns -----

  /** A dangerous pattern: its source text, and the words it matches in order, separated by
      whitespace runs that must be non-empty (`\s+`) or may be empty (`\s*`). */
  datatype Pattern = Pattern(source: string, words: seq<string>, oneOrMore: bool)

  /** The patterns that block a run, in the order they are tried. */
  function DangerousPatterns(): seq<Pattern> {
    [ Pattern("import\\s+os", ["import", "os"], true),
      Pattern("import\\s+subprocess", ["import", "subprocess"], true),
      Pattern("import\\s+sys", ["import", "sys"], true),
      Pattern("from\\s+os\\s+import", ["from", "os", "import"], true),
      Pattern("from\\s+subprocess\\s+import", ["from", "subprocess", "import"], true),
      Pattern("__import__", ["__import__"], true),
      Pattern("eval\\s*\\(", ["eval", "("], false),
      Pattern("exec\\s*\\(", ["exec", "("], false),
      Pattern("compile\\s*\\(", ["compile", "("], false) ]
  }

  /** The index just past the whitespace run starting at `i`. */
  function SkipSpaces(code: string, i: nat): (j: nat)
    requires i <= |code|
    ensures i <= j <= |code|
    ensures forall k :: i <= k < j ==> IsSpace(code[k])
    ensures j < |code| ==> !IsSpace(code[j])
    decreases |code| - i
  {
    if i < |code| && IsSpace(code[i]) then SkipSpaces(code, i + 1) else i
  }

  /** The words match from `i` on, each whitespace run between them taken whole. */
  predicate MatchAt(code: string, i: nat, words: seq<string>, oneOrMore: bool)
    requires i <= |code|
    decreases |words|
  {
    if words == [] then true
    else
      var e := i + |words[0]|;
      && e <= |code| && code[i..e] == words[0]
      && (|words| == 1 ||
          var j := SkipSpaces(code, e);
          (!oneOrMore || j > e) && MatchAt(code, j, words[1..], oneOrMore))
  }

  /** Only whitespace from `i` up to `j`. */
  predicate AllSpace(code: string, i: nat, j: nat)
    requires i <= j <= |code|
  {
    forall k :: i <= k < j ==> IsSpace(code[k])
  }

  /** The regular-expression reading: each whitespace run may stop anywhere, as the regex engine
      backtracks. */
  ghost predicate RegexMatchAt(code: string, i: nat, words: seq<string>, oneOrMore: bool)
    requires i <= |code|
    decreases |words|
  {
    if words == [] then true
    else
      var e := i + |words[0]|;
      && e <= |code| && code[i..e] == words[0]
      && (|words| == 1 ||
          exists j :: (if oneOrMore then e + 1 else e) <= j <= |code| && AllSpace(code, e, j)
                      && RegexMatchAt(code, j, words[1..], oneOrMore))
  }

  /** Every word is non-empty and starts with a non-space character. */
  predicate SolidWords(words: seq<string>) {
    forall m :: 0 <= m < |words| ==> words[m] != "" && !IsSpace(words[m][0])
  }

  /** With solid words, taking each whitespace run whole matches exactly when the backtracking
      reading does. */
  lemma {:induction false} GreedyAgrees(code: string, i: nat, words: seq<string>, oneOrMore: bool)
    requires i <= |code| && SolidWords(words)
    ensures MatchAt(code, i, words, oneOrMore) <==> RegexMatchAt(code, i, words, oneOrMore)
    decreases |words|
  {
    if |words| > 1 {
      var e := i + |words[0]|;
      if e <= |code| && code[i..e] == words[0] {
        var rest := words[1..];
        assert SolidWords(rest) by {
          forall m | 0 <= m < |rest| ensures rest[m] != "" && !IsSpace(rest[m][0]) {
            assert rest[m] == words[m + 1];
          }
        }
        var j := SkipSpaces(code, e);
        GreedyAgrees(code, j, rest, oneOrMore);
        if RegexMatchAt(code, i, words, oneOrMore) {
          var m :| (if oneOrMore then e + 1 else e) <= m <= |code| && AllSpace(code, e, m)
                   && RegexMatchAt(code, m, rest, oneOrMore);
          RunEndsAtWord(code, e, m, rest, oneOrMore);
        }
      }
    }
  }

  /** A whitespace run followed by a match of a solid word ends exactly where `SkipSpaces`
      stops. */
  lemma RunEndsAtWord(code: string, e: nat, m: nat, rest: seq<string>, oneOrMore: bool)
    requires e <= m <= |code| && AllSpace(code, e, m)
    requires rest != [] && rest[0] != "" && !IsSpace(rest[0][0])
    requires RegexMatchAt(code, m, rest, oneOrMore)
    ensures m == SkipSpaces(code, e)
  {
    var w := rest[0];
    assert m + |w| <= |code| && code[m..m + |w|] == w;
    assert code[m] == w[0];
  }

  /** Every dangerous pattern's words are solid, so the greedy reading is the regex's. */
  lemma DangerousPatternsSolid(k: nat)
    requires k < |DangerousPatterns()|
    ensures SolidWords(DangerousPatterns()[k].words)
  {
    var ws := DangerousPatterns()[k].words;
    forall m | 0 <= m < |ws| ensures ws[m] != "" && !IsSpace(ws[m][0]) {
      assert ws[m][0] in "iosfc_e(";
    }
  }

  /** `re.search`: the pattern matches somewhere in the code. */
  predicate Found(code: string, p: Pattern) {
    exists i :: 0 <= i <= |code| && MatchAt(code, i, p.words, p.oneOrMore)
  }

  /** The first of the patterns, in order, found in the code. */
  function FirstFound(code: string, ps: seq<Pattern>): (r: Option<Pattern>)
    ensures r.None? <==> forall k :: 0 <= k < |ps| ==> !Found(code, ps[k])
    ensures r.Some? ==> exists k :: 0 <= k < |ps| && ps[k] == r.value && Found(code, ps[k])
                                   && forall k' :: 0 <= k' < k ==> !Found(code, ps[k'])
  {
    if ps == [] then None
    else if Found(code, ps[0]) then Some(ps[0])
    else
      var r := FirstFound(code, ps[1..]);
      assert forall k :: 1 <= k < |ps| ==> ps[k] == ps[1..][k - 1];
      if r.Some? then
        var k :| 0 <= k < |ps[1..]| && ps[1..][k] == r.value && Found(code, ps[1..][k])
                 && forall k' :: 0 <= k' < k ==> !Found(code, ps[1..][k']);
        assert ps[k + 1] == r.value;
        r
      else r
  }

  /** The dangerous pattern that blocks the code, if any. */
  function Blocker(code: string): Option<Pattern> {
    FirstFound(code, DangerousPatterns())
  }

  /** A match contains each of its words. */
  lemma {:induction false} MatchContainsWords(code: string, i: nat, words: seq<string>, oneOrMore: bool, m: nat)
    requires i <= |code| && MatchAt(code, i, words, oneOrMore)
    requires m < |words|
    ensures Contains(code, words[m])
    decreases |words|
  {
    if m == 0 {
      assert OccursAt(code, words[0], i);
    } else {
      assert words[1..][m - 1] == words[m];
      MatchContainsWords(code, SkipSpaces(code, i + |words[0]|), words[1..], oneOrMore, m - 1);
    }
  }

  /** A pattern is not found in code that lacks one of its words. */
  lemma NotFoundWithout(code: string, p: Pattern, m: nat)
    requires m < |p.words| && !Contains(code, p.words[m])
    ensures !Found(code, p)
  {
    if Found(code, p) {
      var i :| 0 <= i <= |code| && MatchAt(code, i, p.words, p.oneOrMore);
      MatchContainsWords(code, i, p.words, p.oneOrMore, m);
    }
  }

  /** Code that mentions none of "import", "eval", "exec" and "compile" is never blocked. */
  lemma NoKeywordNoBlocker(code: string)
    requires !Contains(code, "import") && !Contains(code, "eval")
    requires !Contains(code, "exec") && !Contains(code, "compile")
    ensures Blocker(code).None?
  {
    var ps := DangerousPatterns();
    ContainsSuffix(code, "__", "import__");
    ContainsPrefix(code, "import", "__");
    assert "__import__" == "__" + "import__" && "import__" == "import" + "__";
    NotFoundWithout(code, ps[0], 0);
    NotFoundWithout(code, ps[1], 0);
    NotFoundWithout(code, ps[2], 0);
    NotFoundWithout(code, ps[3], 2);
    NotFoundWithout(code, ps[4], 2);
    NotFoundWithout(code, ps[5], 0);
    NotFoundWithout(code, ps[6], 0);
    NotFoundWithout(code, ps[7], 0);
    NotFoundWithout(code, ps[8], 0);
  }

  /** A string that contains `a + b` contains `a`. */
  lemma ContainsPrefix(s: string, a: string, b: string)
    ensures Contains(s, a + b) ==> Contains(s, a)
  {
    if Contains(s, a + b) {
      var i :| 0 <= i <= |s| - |a + b| && OccursAt(s, a + b, i);
      assert s[i..i + |a|] == (a + b)[..|a|];
      assert OccursAt(s, a, i);
    }
  }

  /** `import` and `os` separated by any non-empty whitespace are blocked, wherever they appear. */
  lemma ImportOsBlocked(before: string, gap: string, after: string)
    requires gap != [] && forall k :: 0 <= k < |gap| ==> IsSpace(gap[k])
    ensures Blocker(before + "import" + gap + "os" + after).Some?
  {
    var code := before + "import" + gap + "os" + after;
    var i := |before|;
    var p := DangerousPatterns()[0];
    assert p.words == ["import", "os"] && p.oneOrMore;
    assert code[i..i + 6] == "import";
    assert code[i + 6 + |gap|..i + 8 + |gap|] == "os";
    SkipRun(code, i + 6, i + 6 + |gap|);
    assert MatchAt(code, i + 6 + |gap|, p.words[1..], true);
    assert MatchAt(code, i, p.words, true);
    assert Found(code, p);
  }

  /** A whitespace run from `i` up to a non-space character at `j` is skipped to `j`. */
  lemma SkipRun(code: string, i: nat, j: nat)
    requires i <= j < |code| && AllSpace(code, i, j) && !IsSpace(code[j])
    ensures SkipSpaces(code, i) == j
    decreases j - i
  {
    if i < j {
      SkipRun(code, i + 1, j);
    }
  }

  // ----- One test -----

  /** The entry `_execute_python_test` reports for one test case. */
  datatype TestDetail = TestDetail(
    description: Json,
    input: Json,
    expectedOutput: Json,
    actualOutput: Option<string>,
    passed: bool,
    error: Option<string>,
    timeout: nat)

  /** The interpreter's time limit, in seconds. */
  const TimeLimit: nat := 5

  /** `str(test_case.get("expected_output", ""))` */
  function ExpectedText(tc: Dict<Json>, show: Json -> string): string {
    var v := Get(tc, "expected_output");
    if v.None? then "" else if v.value.JStr? then v.value.s else show(v.value)
  }

  /** `test_case.get("input", "")` as piped to the interpreter: a string, or nothing for a missing
      or null input; any other value cannot be piped (None). */
  function Stdin(tc: Dict<Json>): Option<string> {
    var v := Get(tc, "input");
    if v.None? || v.value.JNull? then Some("")
    else if v.value.JStr? then Some(v.value.s)
    else None
  }

  /** `_execute_python_test`: blocked code never runs; otherwise the test passes exactly when the
      stripped output equals the stripped expected text. */
  function ExecuteTest(code: string, tc: Dict<Json>, s: Services): (d: TestDetail)
    ensures d.passed <==>
      && Blocker(code).None? && Stdin(tc).Some? && s.run(code, Stdin(tc).value).Finished?
      && Strip(s.run(code, Stdin(tc).value).stdout) == Strip(ExpectedText(tc, s.show))
    ensures Blocker(code).Some? ==>
      d.error == Some("Security: Dangerous code pattern detected: " + Blocker(code).value.source) && d.actualOutput.None?
    ensures d.actualOutput.Some? ==>
      && Blocker(code).None? && Stdin(tc).Some? && s.run(code, Stdin(tc).value).Finished?
      && d.actualOutput.value == Strip(s.run(code, Stdin(tc).value).stdout)
    ensures d.description == GetOr(tc, "description", JStr("Test")) && d.timeout == TimeLimit
  {
    var base := TestDetail(GetOr(tc, "description", JStr("Test")), GetOr(tc, "input", JNull),
                           GetOr(tc, "expected_output", JNull), None, false, None, TimeLimit);
    match Blocker(code)
    case Some(p) => base.(error := Some("Security: Dangerous code pattern detected: " + p.source))
    case None =>
      match Stdin(tc)
      case None => base.(error := Some(s.raiseText(Get(tc, "input").value)))
      case Some(stdin) =>
        match s.run(code, stdin)
        case Finished(out, err) =>
          var actual := Strip(out);
          base.(actualOutput := Some(actual), passed := actual == Strip(ExpectedText(tc, s.show)),
                error := if err != "" then Some(err) else None)
        case TimedOut => base.(error := Some("Timeout exceeded (5s)"))
        case Raised(msg) => base.(error := Some(msg))
  }

  /** Blocked code fails every test, whatever the interpreter would have done with it. */
  lemma BlockedNeverRuns(code: string, tc: Dict<Json>, s: Services, run: (string, string) -> RunOutcome)
    requires Blocker(code).Some?
    ensures !ExecuteTest(code, tc, s).passed
    ensures ExecuteTest(code, tc, s) == ExecuteTest(code, tc, s.(run := run))
  {
  }

  // ----- Running the tests -----

  /** How a test run ended. */
  datatype Status = Completed | Failed | Unsupported

  /** The `test_results` dictionary. */
  datatype TestReport =
    | Skipped                         // tests given while execution is disabled
    | Report(status: Status, message: Option<string>, passed: nat, failed: nat, details: seq<TestDetail>)

  /** The number of passing entries. */
  function CountPassed(details: seq<TestDetail>): (n: nat)
    ensures n <= |details|
  {
    if details == [] then 0
    else (if details[0].passed then 1 else 0) + CountPassed(details[1..])
  }

  lemma {:induction false} CountPassedAppend(details: seq<TestDetail>, d: TestDetail)
    ensures CountPassed(details + [d]) == CountPassed(details) + (if d.passed then 1 else 0)
  {
    if details != [] {
      assert (details + [d])[1..] == details[1..] + [d];
      CountPassedAppend(details[1..], d);
    }
  }

  /** The Python files' contents, each followed by a blank line, in order. */
  function PythonCode(files: seq<CodeFile>): string {
    var py := Filter(files, IsPython);
    Flatten(seq(|py|, i requires 0 <= i < |py| => py[i].content + "\n\n"))
  }

  predicate IsPython(f: CodeFile) {
    f.language == Python
  }

  /** The per-test loop: one entry per test case in order, tallied, stopping at the first test case
      that is not an object (None, with the entries so far). */
  method Tally(tests: seq<Json>, exec: Dict<Json> -> TestDetail)
    returns (details: seq<TestDetail>, passed: nat, failed: nat, stoppedAt: Option<nat>)
    ensures passed + failed == |details| && passed == CountPassed(details)
    ensures |details| <= |tests|
    ensures forall i :: 0 <= i < |details| ==> tests[i].JObj? && details[i] == exec(tests[i].fields)
    ensures stoppedAt.None? <==> forall i :: 0 <= i < |tests| ==> tests[i].JObj?
    ensures stoppedAt.None? ==> |details| == |tests|
    ensures stoppedAt.Some? ==> stoppedAt.value == |details| < |tests| && !tests[|details|].JObj?
  {
    details, passed, failed := [], 0, 0;
    var i := 0;
    while i < |tests|
      invariant 0 <= i <= |tests| && |details| == i
      invariant passed + failed == i && passed == CountPassed(details)
      invariant forall j :: 0 <= j < i ==> tests[j].JObj? && details[j] == exec(tests[j].fields)
    {
      if !tests[i].JObj? {
        return details, passed, failed, Some(i);
      }
      var d := exec(tests[i].fields);
      CountPassedAppend(details, d);
      details := details + [d];
      if d.passed {
        passed := passed + 1;
      } else {
        failed := failed + 1;
      }
      i := i + 1;
    }
    stoppedAt := None;
  }

  /** `_run_python_tests`: one entry per test case in order, tallied; when the code cannot be
      written out the run fails before any test, and a test case that is not an object ends the run
      as failed with the entries so far. */
  method RunPythonTests(files: seq<CodeFile>, tests: seq<Json>, writeError: Option<string>, s: Services)
    returns (r: TestReport)
    ensures r.Report? && r.passed + r.failed == |r.details| && r.passed == CountPassed(r.details)
    ensures writeError.Some? ==> r == Report(Failed, writeError, 0, 0, [])
    ensures |r.details| <= |tests|
    ensures forall i :: 0 <= i < |r.details| ==>
      tests[i].JObj? && r.details[i] == ExecuteTest(PythonCode(files), tests[i].fields, s)
    ensures writeError.None? ==>
      (r.status == Completed <==> forall i :: 0 <= i < |tests| ==> tests[i].JObj?)
    ensures r.status == Completed ==> |r.details| == |tests| && r.message.None?
    ensures r.status != Completed ==> r.message.Some?
  {
    if writeError.Some? {
      return Report(Failed, writeError, 0, 0, []);
    }
    var code := PythonCode(files);
    var details, passed, failed, stoppedAt := Tally(tests, tc => ExecuteTest(code, tc, s));
    if stoppedAt.Some? {
      return Report(Failed, Some(s.raiseText(tests[stoppedAt.value])), passed, failed, details);
    }
    return Report(Completed, None, passed, failed, details);
  }

  /** `run_test_cases`: no files is an error; otherwise the first file's language decides, and only
      Python is run. */
  method RunTestCases(files: seq<CodeFile>, tests: seq<Json>, writeError: Option<string>, s: Services)
    returns (r: TestReport)
    ensures r.Report?
    ensures files == [] ==> r == Report(Failed, Some("No code files to test"), 0, 0, [])
    ensures files != [] && files[0].language != Python ==>
      r.status == Unsupported && r.passed == 0 && r.failed == 0 && r.details == []
    ensures files != [] && files[0].language == Java ==> r.message == Some("Java test execution not yet implemented")
    ensures files != [] && files[0].language !in {Python, Java} ==>
      r.message == Some("Testing not supported for " + Name(files[0].language))
    ensures files != [] && files[0].language == Python ==>
      && r.passed + r.failed == |r.details| && r.passed == CountPassed(r.details) && |r.details| <= |tests|
      && forall i :: 0 <= i < |r.details| ==>
           tests[i].JObj? && r.details[i] == ExecuteTest(PythonCode(files), tests[i].fields, s)
  {
    if files == [] {
      return Report(Failed, Some("No code files to test"), 0, 0, []);
    }
    match files[0].language
    case Python => r := RunPythonTests(files, tests, writeError, s);
    case Java => r := Report(Unsupported, Some("Java test execution not yet implemented"), 0, 0, []);
    case _ => r := Report(Unsupported, Some("Testing not supported for " + Name(files[0].language)), 0, 0, []);
  }

  // ----- The overall assessment -----

  /** One entry of the assessment's parts. */
  datatype Line =
    | CorrectnessLine(text: string)
    | TestLine(passed: nat, total: nat)
    | EmptyLine                       // a completed run with no tests
    | StrengthsHeading
    | ImprovementsHeading
    | Bullet(item: string)

  /** `f"{v[:n]}"` for the correctness entry: strings and lists can be sliced, anything else
      raises (Failure, carrying the value). */
  function SliceText(v: Json, n: nat, show: Json -> string): (r: Result<string, Json>)
    ensures v.JStr? ==> r == Success(Take(v.s, n))
    ensures r.Failure? <==> !(v.JStr? || v.JArr?)
  {
    match v
    case JStr(t) => Success(Take(t, n))
    case JArr(items) => Success(show(JArr(Take(items, n))))
    case _ => Failure(v)
  }

  /** The items of `v[:3]` as `f"{item}"` renders them. */
  function FirstThree(v: Json, show: Json -> string): (r: Result<seq<string>, Json>)
    ensures r.Success? <==> v.JStr? || v.JArr?
    ensures r.Success? ==> |r.value| <= 3
    ensures v.JStr? ==> (r.Success? && |r.value| == (if |v.s| < 3 then |v.s| else 3)
                         && forall i :: 0 <= i < |r.value| ==> r.value[i] == [v.s[i]])
    ensures v.JArr? ==> r.Success? && |r.value| == (if |v.items| < 3 then |v.items| else 3)
  {
    match v
    case JStr(t) =>
      var cs := Take(t, 3);
      Success(seq(|cs|, i requires 0 <= i < |cs| => [cs[i]]))
    case JArr(items) =>
      var xs := Take(items, 3);
      Success(seq(|xs|, i requires 0 <= i < |xs| => if xs[i].JStr? then xs[i].s else show(xs[i])))
    case _ => Failure(v)
  }

  /** Whether the review holds a truthy value under `key`. */
  predicate Mentions(ai: Dict<Json>, key: string) {
    Get(ai, key).Some? && Truthy(Get(ai, key).value)
  }

  /** A heading followed by the bullets of a list entry, when the entry is truthy. */
  function Section(ai: Dict<Json>, key: string, heading: Line, show: Json -> string): (r: Result<seq<Line>, Json>)
    ensures !Mentions(ai, key) ==> r == Success([])
    ensures Mentions(ai, key) && r.Success? ==>
      1 <= |r.value| <= 4 && r.value[0] == heading && forall i :: 1 <= i < |r.value| ==> r.value[i].Bullet?
  {
    if !Mentions(ai, key) then Success([])
    else match FirstThree(Get(ai, key).value, show)
      case Failure(v) => Failure(v)
      case Success(items) => Success([heading] + seq(|items|, i requires 0 <= i < |items| => Bullet(items[i])))
  }

  /** The correctness part. */
  function CorrectnessPart(ai: Dict<Json>, show: Json -> string): (r: Result<seq<Line>, Json>)
  {
    if !Mentions(ai, "correctness") then Success([])
    else match SliceText(Get(ai, "correctness").value, 200, show)
      case Failure(v) => Failure(v)
      case Success(t) => Success([CorrectnessLine(t)])
  }

  /** The test part: present only for a completed run. */
  function TestPart(tests: Option<TestReport>): seq<Line> {
    if tests.Some? && tests.value.Report? && tests.value.status == Completed then
      var total := tests.value.passed + tests.value.failed;
      [if total > 0 then TestLine(tests.value.passed, total) else EmptyLine]
    else []
  }

  /** `_generate_overall_assessment` before the parts are put into words: correctness, tests,
      strengths, improvements, in that order; the first value that cannot be sliced raises. */
  function Assess(ai: Dict<Json>, tests: Option<TestReport>, show: Json -> string): Result<seq<Line>, Json> {
    match CorrectnessPart(ai, show)
    case Failure(v) => Failure(v)
    case Success(c) =>
      match Section(ai, "strengths", StrengthsHeading, show)
      case Failure(v) => Failure(v)
      case Success(st) =>
        match Section(ai, "improvements", ImprovementsHeading, show)
        case Failure(v) => Failure(v)
        case Success(im) => Success(c + TestPart(tests) + st + im)
  }

  /** Nothing is said exactly when the review mentions neither correctness, strengths nor
      improvements and no run completed. */
  lemma AssessEmpty(ai: Dict<Json>, tests: Option<TestReport>, show: Json -> string)
    requires Assess(ai, tests, show).Success?
    ensures Assess(ai, tests, show).value == [] <==>
      && !Mentions(ai, "correctness") && !Mentions(ai, "strengths") && !Mentions(ai, "improvements")
      && !(tests.Some? && tests.value.Report? && tests.value.status == Completed)
  {
  }

  /** At most one correctness line of at most 200 characters when the entry is a string, at most
      one test line, and at most three bullets under each heading. */
  lemma AssessBounds(ai: Dict<Json>, tests: Option<TestReport>, show: Json -> string)
    requires Assess(ai, tests, show).Success?
    ensures var lines := Assess(ai, tests, show).value;
      && |lines| <= 10
      && (forall i :: 0 <= i < |lines| && lines[i].CorrectnessLine? && Get(ai, "correctness").value.JStr? ==>
            |lines[i].text| <= 200)
      && (Mentions(ai, "correctness") <==> |lines| > 0 && lines[0].CorrectnessLine?)
  {
  }

  /** A truthy entry that can be neither sliced nor listed. */
  predicate Unsliceable(ai: Dict<Json>, key: string) {
    Mentions(ai, key) && !(Get(ai, key).value.JStr? || Get(ai, key).value.JArr?)
  }

  /** The assessment raises exactly when correctness, strengths or improvements holds a truthy
      value that is neither a string nor a list; the test results never make it raise. */
  lemma AssessRaises(ai: Dict<Json>, tests: Option<TestReport>, show: Json -> string)
    ensures Assess(ai, tests, show).Failure? <==>
      Unsliceable(ai, "correctness") || Unsliceable(ai, "strengths") || Unsliceable(ai, "improvements")
  {
  }

  /** One part in words. */
  function LineText(l: Line, percent: (nat, nat) -> string): string {
    match l
    case CorrectnessLine(t) => "Correctness: " + t
    case TestLine(p, t) =>
      "\n\nTest Results: " + NatToString(p) + "/" + NatToString(t) + " tests passed (" + percent(p, t) + "%)"
    case EmptyLine => ""
    case StrengthsHeading => "\n\nStrengths:"
    case ImprovementsHeading => "\n\nAreas for Improvement:"
    case Bullet(x) => "- " + x
  }

  const NothingToSay: string := "Code evaluation completed"

  /** The parts joined by newlines, or the fixed sentence when there are none. */
  function AssessmentText(lines: seq<Line>, percent: (nat, nat) -> string): (r: string)
    ensures lines == [] ==> r == NothingToSay
    ensures |lines| == 1 ==> r == LineText(lines[0], percent)
  {
    if lines == [] then NothingToSay
    else Join(seq(|lines|, i requires 0 <= i < |lines| => LineText(lines[i], percent)), "\n")
  }

  // ----- The whole evaluation -----

  /** The dictionary `evaluate_code` returns (its `score_breakdown` is always empty). */
  datatype Evaluation = Evaluation(ai: Dict<Json>, tests: Option<TestReport>, assessment: string)

  /** Python's truthiness of the optional test-case list. */
  predicate HasTests(tests: Option<seq<Json>>) {
    tests.Some? && tests.value != []
  }

  /** `evaluate_code`: the model's review; the tests run only when execution is enabled and there
      are test cases, and are reported skipped when there are test cases but execution is disabled;
      an assessment that raises turns the whole result into the error result. */
  method EvaluateCode(sub: CodeSubmission, config: AssignmentConfig.Assignment, tests: Option<seq<Json>>,
                      enableExecution: bool, writeError: Option<string>, s: Services)
    returns (r: Evaluation)
    ensures var ai := AiEvaluate(s.review(config, sub.combinedCode, sub.files), s.decode);
      var raises := Unsliceable(ai, "correctness") || Unsliceable(ai, "strengths") || Unsliceable(ai, "improvements");
      && (raises ==> r.ai == [] && r.tests.None? && StartsWith(r.assessment, "Error during evaluation: "))
      && (!raises ==>
            && r.ai == ai
            && Assess(ai, r.tests, s.show).Success?
            && r.assessment == AssessmentText(Assess(ai, r.tests, s.show).value, s.percent)
            && (r.tests.Some? && r.tests.value.Report? <==> enableExecution && HasTests(tests))
            && (r.tests == Some(Skipped) <==> !enableExecution && HasTests(tests))
            && (r.tests.None? <==> !HasTests(tests)))
    ensures r.tests.Some? && r.tests.value.Report? && sub.files == [] ==> r.tests.value.status == Failed
  {
    var ai := AiEvaluate(s.review(config, sub.combinedCode, sub.files), s.decode);
    var tr: Option<TestReport> := None;
    if enableExecution && HasTests(tests) {
      var report := RunTestCases(sub.files, tests.value, writeError, s);
      tr := Some(report);
    } else if HasTests(tests) && !enableExecution {
      tr := Some(Skipped);
    }
    AssessRaises(ai, tr, s.show);
    match Assess(ai, tr, s.show)
    case Failure(v) =>
      var msg := "Error during evaluation: " + s.raiseText(v);
      assert msg[..|"Error during evaluation: "|] == "Error during evaluation: ";
      r := Evaluation([], None, msg);
    case Success(lines) =>
      r := Evaluation(ai, tr, AssessmentText(lines, s.percent));
  }
}
