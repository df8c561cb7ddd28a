/** The student name and id extractors used outside the submission grouper: the grading agent's
    id scan and regular-expression name cleanup, the CSV manager's positional id, and the
    first-generation grading agent's replace chain. The lemmas place them side by side with
    the grouper's parser: where they agree, and inputs on which they part ways. */
module StudentIds {
  import opened Wrappers
  import opened Text
  import opened SubmissionGrouper

  // ----- Stems -----

  /** A dot-free root followed by a one-dot extension: both stem functions give back the root. */
  lemma StemOfComposed(root: string, ext: string)
    requires '.' !in root
    requires ext == "" || (ext[0] == '.' && '.' !in ext[1..])
    ensures BeforeLastDot(root + ext) == root
    ensures BeforeFirstDot(root + ext) == root
  {
    var s := root + ext;
    assert forall j :: 0 <= j < |root| ==> s[j] != '.';
    assert forall j :: |root| < j < |s| ==> s[j] != '.' by {
      forall j | |root| < j < |s| ensures s[j] != '.' {
        assert s[j] == ext[1..][j - |root| - 1];
      }
    }
    assert s[..|root|] == root;
  }

  lemma StripUnspaced(s: string)
    requires |s| > 0 && !IsSpace(s[0]) && !IsSpace(s[|s| - 1])
    ensures Strip(s) == s
  {
    assert TrimLeft(s) == s;
  }

  // ----- Ids -----

  /** `QAGradingAgent.extract_student_id`: split the stem (before the last dot) on `_`; a second
      token spelled exactly `LATE` makes the third token the id, whatever it is; otherwise the
      first all-digit token of at least four characters after the name; else `unknown`. */
  function QaStudentId(filename: string): string {
    QaIdOfTokens(Split(BeforeLastDot(filename), '_'))
  }

  function QaIdOfTokens(parts: seq<string>): (r: string)
    ensures r == "unknown" || (|parts| >= 2 && r in parts[1..])
    ensures r == "unknown" || IsIdToken(r) || (|parts| >= 3 && parts[1] == "LATE" && r == parts[2])
  {
    if |parts| >= 2 then
      if parts[1] == "LATE" && |parts| >= 3 then
        assert parts[1..][1] == parts[2];
        parts[2]
      else
        var k := FirstId(parts[1..]);
        if k.Some? then parts[1..][k.value] else "unknown"
    else "unknown"
  }

  /** `CSVManager._extract_student_id`: split the stem (before the first dot) on `_`; the third
      token after a second token spelled exactly `LATE`, otherwise the second token, unchecked. */
  function CsvStudentId(filename: string): string {
    CsvIdOfTokens(Split(BeforeFirstDot(filename), '_'))
  }

  function CsvIdOfTokens(parts: seq<string>): (r: string)
    ensures |parts| < 2 ==> r == "unknown"
    ensures |parts| >= 2 ==> r in parts[1..] && (r == parts[1] || (parts[1] == "LATE" && r == parts[2]))
  {
    if |parts| >= 2 then
      if parts[1] == "LATE" && |parts| >= 3 then
        assert parts[1..][1] == parts[2];
        parts[2]
      else parts[1]
    else "unknown"
  }

  /** The requirements under which a composed file name round-trips through the grouper. */
  predicate ComposedParts(name: string, studentId: string, submissionId: string, rest: seq<string>, ext: string) {
    && PlainToken(name) && IsIdToken(studentId) && IsIdToken(submissionId)
    && (forall i :: 0 <= i < |rest| ==> PlainToken(rest[i]))
    && ExtensionShape(ext)
  }

  /** No extension, or a dot followed by neither dots nor slashes. */
  predicate ExtensionShape(ext: string) {
    ext == "" || (ext[0] == '.' && '.' !in ext[1..] && '/' !in ext)
  }

  /** Both stems of `Join(parts, "_") + ext` split back into `parts`, so both id extractors see
      exactly those tokens. */
  lemma StemsOfJoin(f: string, parts: seq<string>, ext: string)
    requires |parts| >= 1 && forall i :: 0 <= i < |parts| ==> PlainToken(parts[i])
    requires ExtensionShape(ext) && f == Join(parts, "_") + ext
    ensures Split(BeforeLastDot(f), '_') == parts && Split(BeforeFirstDot(f), '_') == parts
    ensures QaStudentId(f) == QaIdOfTokens(parts) && CsvStudentId(f) == CsvIdOfTokens(parts)
  {
    JoinPlain(parts);
    StemOfComposed(Join(parts, "_"), ext);
    SplitJoin(parts, '_');
  }

  /** After a `LATE` second token both extractors take the third token. */
  lemma LateTokens(parts: seq<string>)
    requires |parts| >= 3 && parts[1] == "LATE"
    ensures QaIdOfTokens(parts) == parts[2] && CsvIdOfTokens(parts) == parts[2]
  {
  }

  /** On file names the submission system composes, all three id extractors agree. */
  lemma IdExtractorsAgreeOnComposed(name: string, late: bool, studentId: string, submissionId: string,
                                    rest: seq<string>, ext: string)
    requires ComposedParts(name, studentId, submissionId, rest, ext)
    ensures var f := ComposeFilename(name, late, studentId, submissionId, rest, ext);
      && QaStudentId(f) == studentId
      && CsvStudentId(f) == studentId
      && ParseFilename(f).studentId == studentId
  {
    var f := ComposeFilename(name, late, studentId, submissionId, rest, ext);
    var parts := [name] + ComposeTail(late, studentId, submissionId, rest);
    ParseComposeRoundTrip(name, late, studentId, submissionId, rest, ext);
    ComposeTailPlain(name, late, studentId, submissionId, rest);
    StemsOfJoin(f, parts, ext);
    ComposedTokenIds(name, late, studentId, submissionId, rest);
  }

  /** The tokens of a composed name give both extractors the student id. */
  lemma ComposedTokenIds(name: string, late: bool, studentId: string, submissionId: string, rest: seq<string>)
    requires IsIdToken(studentId)
    ensures var parts := [name] + ComposeTail(late, studentId, submissionId, rest);
      QaIdOfTokens(parts) == studentId && CsvIdOfTokens(parts) == studentId
  {
    var parts := [name] + ComposeTail(late, studentId, submissionId, rest);
    if late {
      assert parts[1] == "LATE" && parts[2] == studentId;
      LateTokens(parts);
    } else {
      assert parts[1] == studentId;
      assert IsDigit(studentId[0]) && !IsDigit("LATE"[0]);
      TokensAfterName(parts, studentId);
    }
  }

  /** With a numeric second token, both id extractors return it. */
  lemma TokensAfterName(parts: seq<string>, studentId: string)
    requires |parts| >= 2 && parts[1] == studentId && IsIdToken(studentId) && studentId != "LATE"
    ensures QaIdOfTokens(parts) == studentId && CsvIdOfTokens(parts) == studentId
  {
    assert parts[1..][0] == studentId;
  }

  /** After a `LATE` marker the grading agent and the CSV manager take the next token as the id
      without checking it, while the grouper insists on digits and reports `unknown`. */
  lemma LateTokenUnchecked(name: string, t: string, ext: string)
    requires PlainToken(name) && PlainToken(t) && !IsIdToken(t) && ExtensionShape(ext)
    ensures var f := name + "_LATE_" + t + ext;
      && QaStudentId(f) == t
      && CsvStudentId(f) == t
      && ParseFilename(f).isLate && ParseFilename(f).studentId == "unknown"
  {
    LateSpelled(name, t, ext);
    LateThenToken(name, t, ext);
  }

  /** `_LATE_` is the late marker between two separators. */
  lemma LateSpelled(a: string, b: string, c: string)
    ensures a + "_LATE_" + b + c == a + "_" + "LATE" + "_" + b + c
    ensures a + "_LATE" + c == a + "_" + "LATE" + c
  {
  }

  lemma LateThenToken(name: string, t: string, ext: string)
    requires PlainToken(name) && PlainToken(t) && !IsIdToken(t) && ExtensionShape(ext)
    ensures var f := name + "_" + "LATE" + "_" + t + ext;
      && QaStudentId(f) == t
      && CsvStudentId(f) == t
      && ParseFilename(f).isLate && ParseFilename(f).studentId == "unknown"
  {
    LatePlain();
    LateThenTokenIds(name, t, ext);
    LateThenTokenParse(name, t, ext);
  }

  lemma LatePlain()
    ensures PlainToken("LATE")
  {
  }

  lemma LateThenTokenIds(name: string, t: string, ext: string)
    requires PlainToken(name) && PlainToken("LATE") && PlainToken(t) && ExtensionShape(ext)
    ensures var f := name + "_" + "LATE" + "_" + t + ext;
      QaStudentId(f) == t && CsvStudentId(f) == t
  {
    ThreeTokenIds(name, "LATE", t, ext);
    LateTokens([name, "LATE", t]);
  }

  lemma LateThenTokenParse(name: string, t: string, ext: string)
    requires PlainToken(name) && PlainToken("LATE") && PlainToken(t) && !IsIdToken(t) && ExtensionShape(ext)
    ensures var f := name + "_" + "LATE" + "_" + t + ext;
      ParseFilename(f).isLate && ParseFilename(f).studentId == "unknown"
  {
    var f := name + "_" + "LATE" + "_" + t + ext;
    ThreeTokenParse(name, "LATE", t, ext);
    LateTail(name, ["LATE", t], ext, f);
  }

  /** What the two id extractors see in `a_b_c` followed by an extension. */
  lemma ThreeTokenIds(a: string, b: string, c: string, ext: string)
    requires PlainToken(a) && PlainToken(b) && PlainToken(c) && ExtensionShape(ext)
    ensures var f := a + "_" + b + "_" + c + ext;
      && QaStudentId(f) == QaIdOfTokens([a, b, c])
      && CsvStudentId(f) == CsvIdOfTokens([a, b, c])
  {
    var f := a + "_" + b + "_" + c + ext;
    JoinThree(a, b, c, ext);
    StemsOfJoin(f, [a, b, c], ext);
  }

  /** What the grouper sees in `a_b_c` followed by an extension. */
  lemma ThreeTokenParse(a: string, b: string, c: string, ext: string)
    requires PlainToken(a) && PlainToken(b) && PlainToken(c) && ExtensionShape(ext)
    ensures var f := a + "_" + b + "_" + c + ext;
      ParseFilename(f) == ParseTail(a, [b, c], ext, f)
  {
    var parts := [a, b, c];
    var f := a + "_" + b + "_" + c + ext;
    JoinThree(a, b, c, ext);
    ParseOfParts(f, parts, ext);
    assert parts[1..] == [b, c];
  }

  /** What the three parsers see in `a_b` followed by an extension. */
  lemma TwoTokens(a: string, b: string, ext: string)
    requires PlainToken(a) && PlainToken(b) && ExtensionShape(ext)
    ensures var f := a + "_" + b + ext;
      && QaStudentId(f) == QaIdOfTokens([a, b])
      && CsvStudentId(f) == CsvIdOfTokens([a, b])
      && ParseFilename(f) == ParseTail(a, [b], ext, f)
  {
    var parts := [a, b];
    var f := a + "_" + b + ext;
    JoinCons(a, [b], "_");
    assert f == Join(parts, "_") + ext;
    StemsOfJoin(f, parts, ext);
    ParseOfParts(f, parts, ext);
    assert parts[1..] == [b];
  }

  lemma JoinThree(a: string, b: string, c: string, ext: string)
    ensures a + "_" + b + "_" + c + ext == Join([a, b, c], "_") + ext
  {
    JoinCons(b, [c], "_");
    JoinCons(a, [b, c], "_");
    assert [a] + [b, c] == [a, b, c];
    assert [b] + [c] == [b, c];
  }

  /** The grouper on a `LATE` marker followed by tokens none of which is an id: late, no id. */
  lemma LateTail(name: string, tail: seq<string>, ext: string, f: string)
    requires |tail| >= 1 && tail[0] == "LATE"
    requires forall i :: 1 <= i < |tail| ==> !IsIdToken(tail[i])
    ensures ParseTail(name, tail, ext, f).isLate
    ensures ParseTail(name, tail, ext, f).studentId == "unknown"
  {
    TailStudentId(name, tail, ext, f);
    LateIsUpper();
    NoIdsFront(tail[1..]);
  }

  /** Without id tokens the front reading finds no ids. */
  lemma {:induction false} NoIdsFront(parts: seq<string>)
    requires forall i :: 0 <= i < |parts| ==> !IsIdToken(parts[i])
    ensures FrontIds(parts) == (None, None)
  {
    if |parts| > 0 {
      NoIdsFront(parts[1..]);
    }
  }

  /** The grouper's lateness and student id, read from the front of the tokens after the name. */
  lemma TailStudentId(name: string, tail: seq<string>, ext: string, f: string)
    requires |tail| >= 1
    ensures var late := Upper(tail[0]) == "LATE";
      var ts := tail[(if late then 1 else 0)..];
      && ParseTail(name, tail, ext, f).isLate == late
      && ParseTail(name, tail, ext, f).studentId == FrontIds(ts).0.GetOr("unknown")
  {
    var late := Upper(tail[0]) == "LATE";
    ScanTokensIds(tail[(if late then 1 else 0)..]);
  }

  /** A second token that is neither an id nor a late marker in any case: the CSV manager reports
      it as the id, the grading agent and the grouper skip it and find the numeric id. */
  lemma CsvTakesSecondToken(name: string, t: string, studentId: string, ext: string)
    requires PlainToken(name) && PlainToken(t) && Upper(t) != "LATE" && !IsIdToken(t) && IsIdToken(studentId)
    requires ExtensionShape(ext)
    ensures var f := name + "_" + t + "_" + studentId + ext;
      && CsvStudentId(f) == t
      && QaStudentId(f) == studentId
      && ParseFilename(f).studentId == studentId
  {
    var f := name + "_" + t + "_" + studentId + ext;
    IdTokenPlain(studentId);
    ThreeTokenIds(name, t, studentId, ext);
    ThreeTokenParse(name, t, studentId, ext);
    SkippedTokenExtractors(name, t, studentId);
    SkippedTokenTail(name, t, studentId, ext, f);
  }

  lemma SkippedTokenExtractors(name: string, t: string, studentId: string)
    requires Upper(t) != "LATE" && !IsIdToken(t) && IsIdToken(studentId)
    ensures CsvIdOfTokens([name, t, studentId]) == t && QaIdOfTokens([name, t, studentId]) == studentId
  {
    assert t != "LATE" by { LateIsUpper(); }
    assert [name, t, studentId][1..] == [t, studentId];
    assert FirstId([t, studentId]) == Some(1) by {
      assert [t, studentId][1..] == [studentId];
    }
  }

  /** The grouper skips a token that is neither a late marker nor an id, and takes the id after it. */
  lemma SkippedTokenTail(name: string, t: string, studentId: string, ext: string, f: string)
    requires Upper(t) != "LATE" && !IsIdToken(t) && IsIdToken(studentId)
    ensures ParseTail(name, [t, studentId], ext, f).studentId == studentId
  {
    var tail := [t, studentId];
    TailStudentId(name, tail, ext, f);
    assert tail[0..] == tail && tail[1..] == [studentId];
  }

  /** A bare `LATE` marker: the CSV manager returns the marker itself as the id. */
  lemma CsvLateAlone(name: string, ext: string)
    requires PlainToken(name) && ExtensionShape(ext)
    ensures var f := name + "_LATE" + ext;
      && CsvStudentId(f) == "LATE"
      && QaStudentId(f) == "unknown"
      && ParseFilename(f).studentId == "unknown"
  {
    LateSpelled(name, "", ext);
    LateAlone(name, ext);
  }

  lemma LateAlone(name: string, ext: string)
    requires PlainToken(name) && ExtensionShape(ext)
    ensures var f := name + "_" + "LATE" + ext;
      && CsvStudentId(f) == "LATE"
      && QaStudentId(f) == "unknown"
      && ParseFilename(f).studentId == "unknown"
  {
    var f := name + "_" + "LATE" + ext;
    assert PlainToken("LATE");
    TwoTokens(name, "LATE", ext);
    assert !IsIdToken("LATE") by { assert !IsDigit("LATE"[0]); }
    assert [name, "LATE"][1..] == ["LATE"];
    assert FirstId(["LATE"]) == None by { assert ["LATE"][1..] == []; }
    LateTail(name, ["LATE"], ext, f);
  }

  // ----- Names -----

  /** The regular expressions the grading agent deletes from a stem, all matched ignoring case. */
  datatype Pattern =
    | TagNumber(tag: string)     // `_TAG\d+_`
    | TagBeforeSep(tag: string)  // `_TAG\d+(?=_)`: the marker, leaving the `_` after it
    | Word(word: string)         // `_WORD`
    | Token(word: string)        // `_WORD(?=_|$)`: the word as a whole token
    | NumberAtEnd(lead: char)    // `LEAD\d+$`
    | ParenNumber                // `\(\d+\)`

  /** The character every match of `p` starts with. */
  function Lead(p: Pattern): char {
    match p
    case TagNumber(_) => '_'
    case TagBeforeSep(_) => '_'
    case Word(_) => '_'
    case Token(_) => '_'
    case NumberAtEnd(c) => c
    case ParenNumber => '('
  }

  /** The number of decimal digits starting at offset `i` of `s`. */
  function DigitRun(s: string, i: nat): (n: nat)
    ensures i + n <= |s| || n == 0
    decreases |s| - i
  {
    if i < |s| && IsDigit(s[i]) then 1 + DigitRun(s, i + 1) else 0
  }

  /** A stretch of `n` digits that ends the string or is followed by a non-digit is the whole run. */
  lemma {:induction false} DigitRunIs(s: string, i: nat, n: nat)
    requires i + n <= |s| && forall j :: i <= j < i + n ==> IsDigit(s[j])
    requires i + n == |s| || !IsDigit(s[i + n])
    ensures DigitRun(s, i) == n
    decreases n
  {
    if n > 0 {
      DigitRunIs(s, i + 1, n - 1);
    }
  }

  /** The length of the match of `p` at offset `i` of `s`, or 0 when `p` does not match there.
      `\d+` is greedy, and a digit is never the character that follows it in a pattern, so the
      maximal digit run is the only candidate. */
  function MatchAt(p: Pattern, s: string, i: nat): (n: nat)
    ensures n > 0 ==> i + n <= |s| && s[i] == Lead(p)
  {
    match p
    case TagNumber(tag) =>
      var j := i + 1 + |tag|;
      var d := DigitRun(s, j);
      if i < |s| && s[i] == '_' && j <= |s| && SameAt(s, i + 1, tag, true, 0) && d > 0
         && j + d < |s| && s[j + d] == '_'
      then |tag| + d + 2 else 0
    case TagBeforeSep(tag) =>
      var j := i + 1 + |tag|;
      var d := DigitRun(s, j);
      if i < |s| && s[i] == '_' && j <= |s| && SameAt(s, i + 1, tag, true, 0) && d > 0
         && j + d < |s| && s[j + d] == '_'
      then |tag| + d + 1 else 0
    case Word(w) =>
      if i < |s| && s[i] == '_' && i + 1 + |w| <= |s| && SameAt(s, i + 1, w, true, 0) then |w| + 1 else 0
    case Token(w) =>
      var e := i + 1 + |w|;
      if i < |s| && s[i] == '_' && e <= |s| && SameAt(s, i + 1, w, true, 0) && (e == |s| || s[e] == '_')
      then |w| + 1 else 0
    case NumberAtEnd(c) =>
      var d := DigitRun(s, i + 1);
      if i < |s| && s[i] == c && d > 0 && i + 1 + d == |s| then d + 1 else 0
    case ParenNumber =>
      var d := DigitRun(s, i + 1);
      if i < |s| && s[i] == '(' && d > 0 && i + 1 + d < |s| && s[i + 1 + d] == ')' then d + 2 else 0
  }

  /** `re.sub(p, "", s[i:])`: matches are deleted left to right without overlapping. */
  function Sub(p: Pattern, s: string, i: nat): (r: string)
    ensures i <= |s| ==> |r| <= |s| - i
    decreases |s| - i
  {
    if i >= |s| then ""
    else
      var n := MatchAt(p, s, i);
      if n > 0 then Sub(p, s, i + n) else [s[i]] + Sub(p, s, i + 1)
  }

  /** Where the pattern's first character never occurs, nothing is deleted. */
  lemma {:induction false} SubWithoutLead(p: Pattern, s: string, i: nat)
    requires i <= |s| && forall j :: i <= j < |s| ==> s[j] != Lead(p)
    ensures Sub(p, s, i) == s[i..]
    decreases |s| - i
  {
    if i < |s| {
      SubWithoutLead(p, s, i + 1);
      assert s[i..] == [s[i]] + s[i + 1..];
    }
  }

  /** The patterns applied one after the other. */
  function SubAll(ps: seq<Pattern>, s: string): string {
    if |ps| == 0 then s else SubAll(ps[1..], Sub(ps[0], s, 0))
  }

  /** Patterns that each leave `s` unchanged leave it unchanged together. */
  lemma {:induction false} SubAllKeeps(ps: seq<Pattern>, s: string)
    requires forall k :: 0 <= k < |ps| ==> Sub(ps[k], s, 0) == s
    ensures SubAll(ps, s) == s
  {
    if |ps| > 0 {
      SubAllKeeps(ps[1..], s);
    }
  }

  lemma SubAllWithoutLeads(ps: seq<Pattern>, s: string)
    requires forall k :: 0 <= k < |ps| ==> Lead(ps[k]) !in s
    ensures SubAll(ps, s) == s
  {
    forall k | 0 <= k < |ps| ensures Sub(ps[k], s, 0) == s {
      SubWithoutLead(ps[k], s, 0);
    }
    SubAllKeeps(ps, s);
  }

  /** The grading agent's list, in its order. */
  const QaNamePatterns: seq<Pattern> := [TagNumber("CS"), TagNumber("HW"), Word("LATE"), Word("complete"),
                                         NumberAtEnd('_'), ParenNumber, NumberAtEnd('-')]

  /** `QAGradingAgent.extract_student_name` as written: every pattern is deleted from the whole
      stem (before the last dot), then the first `_`-token is stripped. Deleting a pattern that
      begins and ends with `_` glues its neighbours together, and `_LATE` also matches the start
      of `_latex`; both can change the first token. */
  function QaNameAsWritten(filename: string): (r: string)
    ensures '_' !in r
  {
    Strip(Split(SubAll(QaNamePatterns, BeforeLastDot(filename)), '_')[0])
  }

  /** The grading agent's list with the two defects removed, in the same order: a course or
      homework marker leaves the `_` that follows it, and `_LATE` and `_complete` match only whole
      tokens. */
  const QaNameFixedPatterns: seq<Pattern> := [TagBeforeSep("CS"), TagBeforeSep("HW"), Token("LATE"), Token("complete"),
                                              NumberAtEnd('_'), ParenNumber, NumberAtEnd('-')]

  /** The grading agent's name extraction with the gluing removed: the same seven passes in the
      same order, none of which can join two `_`-tokens, then the first `_`-token stripped. */
  function QaName(filename: string): (r: string)
    ensures '_' !in r
  {
    Strip(Split(SubAll(QaNameFixedPatterns, BeforeLastDot(filename)), '_')[0])
  }

  /** Patterns whose match, when it starts at a `_`, stops at the end of the text or just before
      another `_`. */
  predicate KeepsSeparator(p: Pattern) {
    !p.TagNumber? && !p.Word?
  }

  lemma MatchBeforeSeparator(p: Pattern, s: string, i: nat)
    requires KeepsSeparator(p) && i < |s| && s[i] == '_' && MatchAt(p, s, i) > 0
    ensures i + MatchAt(p, s, i) == |s| || s[i + MatchAt(p, s, i)] == '_'
  {
  }

  /** Scanning from a `_` (or from the end) with such a pattern gives nothing or a text that
      starts with `_`. */
  lemma {:induction false} SubFromSeparator(p: Pattern, s: string, i: nat)
    requires KeepsSeparator(p) && i <= |s| && (i == |s| || s[i] == '_')
    ensures var r := Sub(p, s, i); r == [] || r[0] == '_'
    decreases |s| - i
  {
    if i < |s| {
      var n := MatchAt(p, s, i);
      if n > 0 {
        MatchBeforeSeparator(p, s, i);
        SubFromSeparator(p, s, i + n);
      }
    }
  }

  /** Passes that keep separators leave a first token without `_` or copy markers in place, still
      followed by a `_` or by nothing. */
  lemma {:induction false} FirstTokenKept(ps: seq<Pattern>, name: string, t: string)
    requires forall k :: 0 <= k < |ps| ==> KeepsSeparator(ps[k]) && Lead(ps[k]) in "_(-"
    requires '_' !in name && NoCopyMarker(name) && (t == [] || t[0] == '_')
    ensures var r := SubAll(ps, name + t);
      |name| <= |r| && r[..|name|] == name && (|r| == |name| || r[|name|] == '_')
  {
    if |ps| > 0 {
      var s, p := name + t, ps[0];
      forall j | 0 <= j < |name| ensures s[j] != Lead(p) {
        assert s[j] == name[j];
      }
      SubWithoutLeadTo(p, s, 0, |name|);
      SubFromSeparator(p, s, |name|);
      assert s[0..|name|] == name;
      FirstTokenKept(ps[1..], name, Sub(p, s, |name|));
    }
  }

  /** A stem whose first token has no copy marker: the corrected name is that token, stripped. */
  lemma QaNameFirstToken(f: string, name: string, t: string)
    requires BeforeLastDot(f) == name + t
    requires '_' !in name && NoCopyMarker(name) && (t == [] || t[0] == '_')
    ensures QaName(f) == Strip(name)
  {
    var ps := QaNameFixedPatterns;
    assert forall k :: 0 <= k < |ps| ==> KeepsSeparator(ps[k]) && Lead(ps[k]) in "_(-";
    FirstTokenKept(ps, name, t);
    var r := SubAll(ps, name + t);
    if |r| == |name| {
      assert r == name;
      SplitNoSep(name, '_');
    } else {
      assert r == name + ['_'] + r[|name| + 1..];
      SplitAtSep(name, r[|name| + 1..], '_');
    }
  }

  /** `re.sub` with two patterns that match at the same places gives the same text. */
  lemma {:induction false} SubSameMatches(p: Pattern, q: Pattern, s: string, i: nat)
    requires i <= |s| && forall j :: i <= j < |s| ==> MatchAt(p, s, j) == MatchAt(q, s, j)
    ensures Sub(p, s, i) == Sub(q, s, i)
    decreases |s| - i
  {
    if i < |s| {
      var k := SubStep(p, s, i);
      SameStep(p, q, s, i, k);
      SubSameMatches(p, q, s, k);
    }
  }

  /** The step from `i` is the same for both patterns when they match alike at `i`. */
  lemma SameStep(p: Pattern, q: Pattern, s: string, i: nat, k: nat)
    requires i < |s| && MatchAt(p, s, i) == MatchAt(q, s, i)
    requires k == (if MatchAt(p, s, i) > 0 then i + MatchAt(p, s, i) else i + 1)
    ensures Sub(q, s, i) == (if MatchAt(p, s, i) > 0 then Sub(q, s, k) else [s[i]] + Sub(q, s, k))
  {
    var k' := SubStep(q, s, i);
  }

  /** One step of the scan: a match at `i` is skipped, otherwise `s[i]` is copied. */
  lemma SubStep(p: Pattern, s: string, i: nat) returns (k: nat)
    requires i < |s|
    ensures i < k <= |s|
    ensures MatchAt(p, s, i) > 0 ==> k == i + MatchAt(p, s, i) && Sub(p, s, i) == Sub(p, s, k)
    ensures MatchAt(p, s, i) == 0 ==> k == i + 1 && Sub(p, s, i) == [s[i]] + Sub(p, s, k)
  {
    var n := MatchAt(p, s, i);
    k := if n > 0 then i + n else i + 1;
  }

  /** Two pattern lists that match at the same places at every pass give the same text. */
  lemma {:induction false} SubAllAgree(ps: seq<Pattern>, qs: seq<Pattern>, s: string)
    requires |ps| == |qs|
    requires forall k, j :: 0 <= k < |ps| && 0 <= j < |SubAll(ps[..k], s)| ==>
      MatchAt(ps[k], SubAll(ps[..k], s), j) == MatchAt(qs[k], SubAll(ps[..k], s), j)
    ensures SubAll(ps, s) == SubAll(qs, s)
  {
    if |ps| > 0 {
      assert SubAll(ps[..0], s) == s;
      SubSameMatches(ps[0], qs[0], s, 0);
      var g := Sub(ps[0], s, 0);
      forall k, j | 0 <= k < |ps| - 1 && 0 <= j < |SubAll(ps[1..][..k], g)|
        ensures MatchAt(ps[1..][k], SubAll(ps[1..][..k], g), j) == MatchAt(qs[1..][k], SubAll(ps[1..][..k], g), j)
      {
        assert ps[..k + 1][1..] == ps[1..][..k];
        assert SubAll(ps[..k + 1], s) == SubAll(ps[1..][..k], g);
      }
      SubAllAgree(ps[1..], qs[1..], g);
    }
  }

  /** The stem after the first `k` of the grading agent's passes. */
  function Stage(k: nat, s: string): string
    requires k <= |QaNamePatterns|
  {
    SubAll(QaNamePatterns[..k], s)
  }

  /** Neither defect shows on stem `s`: at each of the four underscore-led passes, the corrected
      pattern matches exactly where the written one does. */
  predicate Untriggered(s: string) {
    forall k, j :: 0 <= k < 4 && 0 <= j < |Stage(k, s)| ==>
      MatchAt(QaNamePatterns[k], Stage(k, s), j) == MatchAt(QaNameFixedPatterns[k], Stage(k, s), j)
  }

  /** Where neither defect shows, the corrected extractor returns what the grading agent returns. */
  lemma QaNameAgreesUntriggered(f: string)
    requires Untriggered(BeforeLastDot(f))
    ensures QaName(f) == QaNameAsWritten(f)
  {
    var s := BeforeLastDot(f);
    forall k, j | 0 <= k < |QaNamePatterns| && 0 <= j < |SubAll(QaNamePatterns[..k], s)|
      ensures MatchAt(QaNamePatterns[k], SubAll(QaNamePatterns[..k], s), j)
           == MatchAt(QaNameFixedPatterns[k], SubAll(QaNamePatterns[..k], s), j)
    {
      if k < 4 {
        assert Stage(k, s) == SubAll(QaNamePatterns[..k], s);
      } else {
        assert QaNamePatterns[k] == QaNameFixedPatterns[k];
      }
    }
    SubAllAgree(QaNamePatterns, QaNameFixedPatterns, s);
  }

  /** A copy number on the name ahead of a trailing id: both extractors delete the id and then
      the copy number, so `alice-2_12345.pdf` gives `alice` either way. */
  lemma QaNameCopyBeforeId(name: string, copy: string, id: string, ext: string)
    requires PlainToken(name) && NoCopyMarker(name) && |name| > 0 && !IsSpace(name[0]) && !IsSpace(name[|name| - 1])
    requires IsDigits(copy) && IsDigits(id) && ExtensionShape(ext)
    ensures QaNameAsWritten(name + "-" + copy + "_" + id + ext) == name
    ensures QaName(name + "-" + copy + "_" + id + ext) == name
  {
    var s := CopyIdLayout(name, copy, id);
    StemOfComposed(s, ext);
    CopyIdSubAll(QaNamePatterns, name, copy, id);
    CopyIdSubAll(QaNameFixedPatterns, name, copy, id);
    SplitNoSep(name, '_');
    StripUnspaced(name);
  }

  /** Either extractor's passes reduce `name-copy_id` to `name`. */
  lemma CopyIdSubAll(ps: seq<Pattern>, name: string, copy: string, id: string)
    requires ps == QaNamePatterns || ps == QaNameFixedPatterns
    requires PlainToken(name) && NoCopyMarker(name) && IsDigits(copy) && IsDigits(id)
    ensures SubAll(ps, name + "-" + copy + "_" + id) == name
  {
    var s := CopyIdLayout(name, copy, id);
    var u := |name| + 1 + |copy|;
    forall k | 0 <= k < 4 ensures Sub(ps[k], s, 0) == s {
      assert ps[k] in ps[..4];
      LetterLedKeeps(ps[k], s, u);
    }
    FirstFourKeep(ps, s);
    assert ps[4..] == [NumberAtEnd('_'), ParenNumber, NumberAtEnd('-')];
    CopyIdLastThree(name, copy, id, s);
  }

  /** Where `name-copy_id` puts its pieces. */
  lemma CopyIdLayout(name: string, copy: string, id: string) returns (s: string)
    requires PlainToken(name) && NoCopyMarker(name) && IsDigits(copy) && IsDigits(id)
    ensures s == name + "-" + copy + "_" + id && '.' !in s
    ensures var u := |name| + 1 + |copy|;
      && |s| == u + 1 + |id| && s[u] == '_' && s[|name|] == '-' && s[..|name|] == name
      && (forall j :: 0 <= j < |s| && j != u ==> s[j] != '_')
      && (forall j :: 0 <= j < |s| ==> s[j] != '(')
      && (forall j :: |name| + 1 <= j < u ==> IsDigit(s[j]))
      && (forall j :: u + 1 <= j < |s| ==> IsDigit(s[j]))
  {
    s := name + "-" + copy + "_" + id;
    var u := |name| + 1 + |copy|;
    forall j | 0 <= j < |s| ensures s[j] != '.' && s[j] != '(' && (j != u ==> s[j] != '_')
      ensures |name| + 1 <= j < u ==> IsDigit(s[j])
      ensures u + 1 <= j ==> IsDigit(s[j])
    {
      if j < |name| {
        assert s[j] == name[j];
      } else if |name| < j < u {
        assert s[j] == copy[j - |name| - 1];
      } else if u < j {
        assert s[j] == id[j - u - 1];
      }
    }
    assert s[..|name|] == name;
  }

  /** An underscore-led pattern whose word starts with a letter matches nowhere in a text whose
      only `_` is followed by a digit. */
  lemma LetterLedKeeps(p: Pattern, s: string, u: nat)
    requires p in QaNamePatterns[..4] || p in QaNameFixedPatterns[..4]
    requires u + 1 < |s| && IsDigit(s[u + 1]) && forall j :: 0 <= j < |s| && j != u ==> s[j] != '_'
    ensures Sub(p, s, 0) == s
  {
    forall j | 0 <= j < |s| ensures MatchAt(p, s, j) == 0 {
      if j == u {
        var w := if p.TagNumber? || p.TagBeforeSep? then p.tag else p.word;
        assert LowerChar(s[u + 1]) != LowerChar(w[0]);
        assert !SameAt(s, u + 1, w, true, 0);
      }
    }
    SubSkipTo(p, s, 0, |s|);
    assert s[0..|s|] == s;
  }

  /** Passes that each keep the text leave it for the rest of the list. */
  lemma FirstFourKeep(ps: seq<Pattern>, s: string)
    requires |ps| >= 4 && forall k :: 0 <= k < 4 ==> Sub(ps[k], s, 0) == s
    ensures SubAll(ps, s) == SubAll(ps[4..], s)
  {
    LeadingPassesKeep(ps, s, 4);
  }

  lemma {:induction false} LeadingPassesKeep(ps: seq<Pattern>, s: string, n: nat)
    requires n <= |ps| && forall k :: 0 <= k < n ==> Sub(ps[k], s, 0) == s
    ensures SubAll(ps, s) == SubAll(ps[n..], s)
  {
    if n > 0 {
      LeadingPassesKeep(ps[1..], s, n - 1);
      assert ps[1..][n - 1..] == ps[n..];
    }
  }

  /** The trailing id goes with `_\d+$`, then the copy number with `-\d+$`. */
  lemma CopyIdLastThree(name: string, copy: string, id: string, s: string)
    requires PlainToken(name) && NoCopyMarker(name) && IsDigits(copy) && IsDigits(id)
    requires s == name + "-" + copy + "_" + id
    ensures SubAll([NumberAtEnd('_'), ParenNumber, NumberAtEnd('-')], s) == name
  {
    var s1 := IdPass(name, copy, id, s);
    SubWithoutLead(ParenNumber, s1, 0);
    assert s1[0..] == s1;
    CopyPass(name, copy, s1);
    ThreePasses([NumberAtEnd('_'), ParenNumber, NumberAtEnd('-')], s, s1, s1, name);
  }

  lemma ThreePasses(ps: seq<Pattern>, s: string, a: string, b: string, c: string)
    requires |ps| == 3 && Sub(ps[0], s, 0) == a && Sub(ps[1], a, 0) == b && Sub(ps[2], b, 0) == c
    ensures SubAll(ps, s) == c
  {
    assert SubAll(ps, s) == SubAll(ps[1..], a);
    assert ps[1..][0] == ps[1] && SubAll(ps[1..], a) == SubAll(ps[2..], b);
    assert ps[2..][0] == ps[2] && ps[2..][1..] == [];
  }

  /** `_\d+$` deletes the trailing id of `name-copy_id`. */
  lemma IdPass(name: string, copy: string, id: string, s: string) returns (s1: string)
    requires PlainToken(name) && NoCopyMarker(name) && IsDigits(copy) && IsDigits(id)
    requires s == name + "-" + copy + "_" + id
    ensures s1 == name + "-" + copy && Sub(NumberAtEnd('_'), s, 0) == s1 && '(' !in s1
  {
    var s' := CopyIdLayout(name, copy, id);
    var u := |name| + 1 + |copy|;
    var p := NumberAtEnd('_');
    SubWithoutLeadTo(p, s, 0, u);
    DigitRunIs(s, u + 1, |id|);
    SubAtMatch(p, s, u, |s|);
    SubAtEnd(p, s);
    s1 := s[0..u];
    assert s1 == name + "-" + copy;
  }

  /** `-\d+$` deletes the copy number of `name-copy`. */
  lemma CopyPass(name: string, copy: string, s1: string)
    requires NoCopyMarker(name) && IsDigits(copy) && s1 == name + "-" + copy
    ensures Sub(NumberAtEnd('-'), s1, 0) == name
  {
    var p := NumberAtEnd('-');
    forall j | 0 <= j < |name| ensures s1[j] != '-' {
      assert s1[j] == name[j];
    }
    forall j | |name| + 1 <= j < |s1| ensures IsDigit(s1[j]) {
      assert s1[j] == copy[j - |name| - 1];
    }
    SubWithoutLeadTo(p, s1, 0, |name|);
    DigitRunIs(s1, |name| + 1, |copy|);
    SubAtMatch(p, s1, |name|, |s1|);
    SubAtEnd(p, s1);
    assert s1[0..|name|] == name;
  }

  /** A stretch where the pattern matches nowhere is copied unchanged. */
  lemma SubSkipTo(p: Pattern, s: string, i: nat, k: nat)
    requires i <= k <= |s|
    requires forall j :: i <= j < k ==> MatchAt(p, s, j) == 0
    ensures Sub(p, s, i) == s[i..k] + Sub(p, s, k)
  {
    CopiedStretch(s, (j: nat) => Sub(p, s, j), i, k);
  }


  /** A course marker `_CS<digits>_` between the name and the next token: the grading agent glues
      that token onto the name (`alice_CS361_HW5.pdf` gives `aliceHW5`). */
  lemma QaNameGluesCourseMarker(name: string, course: string, next: string, ext: string)
    requires PlainToken(name) && NoCopyMarker(name) && |name| > 0 && !IsSpace(name[0])
    requires PlainToken(next) && NoCopyMarker(next) && |next| > 0 && !IsSpace(next[|next| - 1])
    requires |course| > 0 && forall k :: 0 <= k < |course| ==> IsDigit(course[k])
    requires ExtensionShape(ext)
    ensures QaNameAsWritten(name + "_CS" + course + "_" + next + ext) == name + next
  {
    var stem := name + "_CS" + course + "_" + next;
    CourseStem(name, course, next, ext);
    var glued := name + next;
    CourseMarkerStep(name, course, next);
    LaterPatternsKeep(glued);
    SubAllAfterFirst(stem, glued);
    SplitNoSep(glued, '_');
    StripUnspaced(glued);
  }

  /** The corrected extractor returns the name of the same file. */
  lemma QaNameSkipsCourseMarker(name: string, course: string, next: string, ext: string)
    requires PlainToken(name) && NoCopyMarker(name) && |name| > 0 && !IsSpace(name[0])
    requires !IsSpace(name[|name| - 1])
    requires PlainToken(next) && NoCopyMarker(next)
    requires |course| > 0 && forall k :: 0 <= k < |course| ==> IsDigit(course[k])
    requires ExtensionShape(ext)
    ensures QaName(name + "_CS" + course + "_" + next + ext) == name
  {
    CourseStem(name, course, next, ext);
    MarkerRegroup(name, course, next);
    QaNameFirstToken(name + "_CS" + course + "_" + next + ext, name, "_CS" + course + "_" + next);
    StripUnspaced(name);
  }

  /** The stem of a name with a course marker, and the characters it is free of. */
  lemma CourseStem(name: string, course: string, next: string, ext: string)
    requires PlainToken(name) && NoCopyMarker(name) && PlainToken(next) && NoCopyMarker(next)
    requires forall k :: 0 <= k < |course| ==> IsDigit(course[k])
    requires ExtensionShape(ext)
    ensures var stem := name + "_CS" + course + "_" + next;
      BeforeLastDot(stem + ext) == stem && NoCopyMarker(stem)
  {
    var stem := name + "_CS" + course + "_" + next;
    assert '.' !in course && '(' !in course && '-' !in course by {
      forall k | 0 <= k < |course| ensures course[k] != '.' && course[k] != '(' && course[k] != '-' {
        assert IsDigit(course[k]);
      }
    }
    StemOfComposed(stem, ext);
  }

  /** When the first pattern turns `s` into `g` and the others keep `g`, the list turns `s` into `g`. */
  lemma SubAllAfterFirst(s: string, g: string)
    requires Sub(QaNamePatterns[0], s, 0) == g && SubAll(QaNamePatterns[1..], g) == g
    ensures SubAll(QaNamePatterns, s) == g
  {
  }

  /** A string without underscores or copy markers survives every pattern after the first. */
  lemma LaterPatternsKeep(s: string)
    requires '_' !in s && NoCopyMarker(s)
    ensures SubAll(QaNamePatterns[1..], s) == s
  {
    var ps := QaNamePatterns[1..];
    assert forall k :: 0 <= k < |ps| ==> Lead(ps[k]) in ['_', '(', '-'];
    SubAllWithoutLeads(ps, s);
  }

  /** Deleting `_CS<digits>_` from between two underscore-free tokens glues them together. */
  lemma CourseMarkerStep(a: string, course: string, b: string)
    requires '_' !in a && '_' !in b
    requires |course| > 0 && forall k :: 0 <= k < |course| ==> IsDigit(course[k])
    ensures Sub(TagNumber("CS"), a + "_CS" + course + "_" + b, 0) == a + b
  {
    var p := TagNumber("CS");
    var m := "_CS" + course + "_";
    var s := a + m + b;
    var i, e := |a|, |a| + |m|;
    MarkerRegroup(a, course, b);
    MarkerLayout(a, course, b);
    SubWithoutLeadTo(p, s, 0, i);
    MarkerMatch(a, course, b);
    SubAtMatch(p, s, i, e);
    SubWithoutLeadTo(p, s, e, |s|);
    SubAtEnd(p, s);
    DeletedOnce(s, (j: nat) => Sub(p, s, j), i, e);
  }

  /** The marker matches where it starts, and spans its whole length. */
  lemma MarkerMatch(a: string, course: string, b: string)
    requires '_' !in a && '_' !in b
    requires |course| > 0 && forall k :: 0 <= k < |course| ==> IsDigit(course[k])
    ensures MatchAt(TagNumber("CS"), a + ("_CS" + course + "_") + b, |a|) == |course| + 4
  {
    var s, i := a + ("_CS" + course + "_") + b, |a|;
    MarkerLayout(a, course, b);
    DigitRunIs(s, i + 3, |course|);
    assert SameAt(s, i + 1, "CS", true, 0);
  }

  /** A stretch free of the pattern's first character is copied unchanged. */
  lemma SubWithoutLeadTo(p: Pattern, s: string, i: nat, k: nat)
    requires i <= k <= |s| && forall j :: i <= j < k ==> s[j] != Lead(p)
    ensures Sub(p, s, i) == s[i..k] + Sub(p, s, k)
  {
    SubSkipTo(p, s, i, k);
  }

  /** A scan that copies up to `i`, jumps from `i` to `e` and copies the rest deletes `s[i..e]`. */
  lemma DeletedOnce(s: string, f: nat -> string, i: nat, e: nat)
    requires i <= e <= |s|
    requires f(0) == s[0..i] + f(i) && f(i) == f(e) && f(e) == s[e..|s|] + f(|s|) && f(|s|) == ""
    ensures f(0) == s[..i] + s[e..]
  {
    assert s[e..|s|] + "" == s[e..];
  }

  lemma SubAtEnd(p: Pattern, s: string)
    ensures Sub(p, s, |s|) == ""
  {
  }

  /** A match at `i` is deleted and the scan resumes after it. */
  lemma SubAtMatch(p: Pattern, s: string, i: nat, e: nat)
    requires i < e && i < |s| && MatchAt(p, s, i) == e - i
    ensures Sub(p, s, i) == Sub(p, s, e)
  {
  }

  /** The groupings of `a_CS<course>_b` the proofs use. */
  lemma MarkerRegroup(a: string, course: string, b: string)
    ensures a + "_CS" + course + "_" + b == a + ("_CS" + course + "_") + b
    ensures a + "_CS" + course + "_" + b == a + ['_'] + ("CS" + course + "_" + b)
  {
    assert "_CS" == ['_'] + "CS";
  }

  /** Where each piece of `a_CS<course>_b` sits. */
  lemma MarkerLayout(a: string, course: string, b: string)
    requires '_' !in a && '_' !in b
    requires forall k :: 0 <= k < |course| ==> IsDigit(course[k])
    ensures var s, i, e := a + ("_CS" + course + "_") + b, |a|, |a| + |course| + 4;
      && |s| == e + |b| && s[0..i] == a && s[e..|s|] == b
      && (forall j :: 0 <= j < i ==> s[j] != Lead(TagNumber("CS")))
      && (forall j :: e <= j < |s| ==> s[j] != Lead(TagNumber("CS")))
      && s[i] == '_' && s[i + 1] == 'C' && s[i + 2] == 'S' && s[e - 1] == '_'
      && (forall j :: i + 3 <= j < i + 3 + |course| ==> IsDigit(s[j]))
      && !IsDigit(s[e - 1])
  {
    var s, i, e := a + ("_CS" + course + "_") + b, |a|, |a| + |course| + 4;
    forall j | 0 <= j < i ensures s[j] != '_' {
      assert s[j] == a[j];
    }
    forall j | e <= j < |s| ensures s[j] != '_' {
      assert s[j] == b[j - e];
    }
    forall j | i + 3 <= j < i + 3 + |course| ensures IsDigit(s[j]) {
      assert s[j] == course[j - i - 3];
    }
  }

  /** A name composed of plain parts free of copy markers, with an extension: both stems are the
      joined parts, and they hold no copy marker. */
  lemma JoinedStem(f: string, parts: seq<string>, ext: string)
    requires |parts| >= 1 && forall i :: 0 <= i < |parts| ==> PlainToken(parts[i]) && NoCopyMarker(parts[i])
    requires ExtensionShape(ext) && f == Join(parts, "_") + ext
    ensures BeforeLastDot(f) == Join(parts, "_") && BeforeFirstDot(f) == Join(parts, "_")
    ensures NoCopyMarker(Join(parts, "_")) && forall i :: 0 <= i < |parts| ==> '_' !in parts[i]
  {
    JoinPlain(parts);
    StemOfComposed(Join(parts, "_"), ext);
    JoinAvoids(parts, "_", '(');
    JoinAvoids(parts, "_", '-');
  }

  /** Parts free of copy markers: the corrected name is the stripped first part. */
  lemma QaNameOfJoin(f: string, parts: seq<string>, ext: string)
    requires |parts| >= 1 && forall i :: 0 <= i < |parts| ==> PlainToken(parts[i]) && NoCopyMarker(parts[i])
    requires ExtensionShape(ext) && f == Join(parts, "_") + ext
    ensures QaName(f) == Strip(parts[0])
  {
    JoinedStem(f, parts, ext);
    var t := JoinFirst(parts);
    QaNameFirstToken(f, parts[0], t);
  }

  /** What follows the first part of joined parts: nothing, or a `_` and the rest. */
  lemma JoinFirst(parts: seq<string>) returns (t: string)
    requires |parts| >= 1
    ensures Join(parts, "_") == parts[0] + t && (t == [] || t[0] == '_')
  {
    if |parts| == 1 {
      t := [];
    } else {
      t := "_" + Join(parts[1..], "_");
    }
  }

  lemma JoinTwo(a: string, b: string, ext: string, f: string)
    requires f == a + "_" + b + ext
    ensures f == Join([a, b], "_") + ext
  {
    assert [a, b][1..] == [b];
  }

  /** Neither a parenthesis nor a hyphen, the characters that start a copy number. */
  predicate NoCopyMarker(p: string) {
    '(' !in p && '-' !in p
  }

  /** Every part of a composed name other than the name and the remainder is free of copy markers. */
  lemma ComposedPartsUnmarked(name: string, late: bool, studentId: string, submissionId: string, rest: seq<string>)
    requires IsIdToken(studentId) && IsIdToken(submissionId)
    requires NoCopyMarker(name) && forall i :: 0 <= i < |rest| ==> NoCopyMarker(rest[i])
    ensures var parts := [name] + ComposeTail(late, studentId, submissionId, rest);
      forall i :: 0 <= i < |parts| ==> NoCopyMarker(parts[i])
  {
    assert forall j :: 0 <= j < |studentId| ==> IsDigit(studentId[j]);
    assert forall j :: 0 <= j < |submissionId| ==> IsDigit(submissionId[j]);
  }

  /** On composed file names without copy markers and with an unpadded name, the corrected name
      extractor returns the grouper's student name. */
  lemma QaNameAgreesWithGrouper(name: string, late: bool, studentId: string, submissionId: string,
                                rest: seq<string>, ext: string)
    requires ComposedParts(name, studentId, submissionId, rest, ext) && Strip(name) == name
    requires NoCopyMarker(name) && forall i :: 0 <= i < |rest| ==> NoCopyMarker(rest[i])
    ensures var f := ComposeFilename(name, late, studentId, submissionId, rest, ext);
      QaName(f) == name && ParseFilename(f).studentName == name
  {
    var f := ComposeFilename(name, late, studentId, submissionId, rest, ext);
    var parts := [name] + ComposeTail(late, studentId, submissionId, rest);
    ParseComposeRoundTrip(name, late, studentId, submissionId, rest, ext);
    ComposeTailPlain(name, late, studentId, submissionId, rest);
    ComposedPartsUnmarked(name, late, studentId, submissionId, rest);
    QaNameOfJoin(f, parts, ext);
  }

  /** `_LATE`, matched ignoring case, also deletes the start of a `_latex` token, and what is left of
      the token is glued onto the name. */
  lemma QaNameCutsLatex(f: string)
    requires f == "jo_latex.pdf"
    ensures QaNameAsWritten(f) == "jox"
  {
    var stem := "jo_latex";
    StemOfComposed(stem, ".pdf");
    assert stem + ".pdf" == f;
    LatexSubAll(stem);
    WholeToken("jox");
  }

  lemma LatexSubAll(s: string)
    requires s == "jo_latex"
    ensures SubAll(QaNamePatterns, s) == "jox"
  {
    TagMissesLatex(s, "CS");
    TagMissesLatex(s, "HW");
    LatexStep(s);
    SubAllThree(QaNamePatterns, s, "jox");
    SubAllWithoutLeads(QaNamePatterns[3..], "jox");
  }

  /** The corrected extractor keeps the name of the same file. */
  lemma QaNameKeepsLatex(f: string)
    requires f == "jo_latex.pdf"
    ensures QaName(f) == "jo"
  {
    JoinTwo("jo", "latex", ".pdf", f);
    QaNameOfJoin(f, ["jo", "latex"], ".pdf");
    ShortWordStripped("jo");
  }

  lemma ShortWordStripped(s: string)
    requires s == "jo"
    ensures Strip(s) == s
  {
    StripUnspaced(s);
  }

  lemma SubAllThree(ps: seq<Pattern>, s: string, g: string)
    requires |ps| >= 3 && Sub(ps[0], s, 0) == s && Sub(ps[1], s, 0) == s && Sub(ps[2], s, 0) == g
    ensures SubAll(ps, s) == SubAll(ps[3..], g)
  {
    assert SubAll(ps, s) == SubAll(ps[1..], s);
    assert ps[1..][0] == ps[1] && ps[1..][1..] == ps[2..];
    assert SubAll(ps[1..], s) == SubAll(ps[2..], s);
    assert ps[2..][0] == ps[2] && ps[2..][1..] == ps[3..];
  }

  lemma WholeToken(s: string)
    requires s == "jox"
    ensures Strip(Split(s, '_')[0]) == s
  {
    SplitNoSep(s, '_');
    StripUnspaced(s);
  }

  lemma TagMissesLatex(s: string, tag: string)
    requires s == "jo_latex" && (tag == "CS" || tag == "HW")
    ensures Sub(TagNumber(tag), s, 0) == s
  {
    var p := TagNumber(tag);
    assert !SameAt(s, 3, tag, true, 0);
    assert MatchAt(p, s, 2) == 0;
    SubSkipTo(p, s, 0, |s|);
    assert s[0..|s|] == s;
  }

  lemma LatexStep(s: string)
    requires s == "jo_latex"
    ensures Sub(Word("LATE"), s, 0) == "jox"
  {
    var p := Word("LATE");
    SubSkipTo(p, s, 0, 2);
    assert SameAt(s, 3, "LATE", true, 0);
    assert MatchAt(p, s, 2) == 5;
    assert Sub(p, s, 7) == "x";
    assert s[0..2] == "jo";
  }

  // ----- The first-generation agent's name -----

  /** Every occurrence of each string deleted in turn (`str.replace(p, "")`; an empty pattern
      leaves the text as it is). */
  function RemoveAll(pats: seq<string>, s: string): string {
    if |pats| == 0 then s
    else RemoveAll(pats[1..], if pats[0] == "" then s else ReplaceAll(s, pats[0], ""))
  }

  /** Strings whose first character does not occur in `s` leave it unchanged. */
  lemma {:induction false} RemoveAllKeeps(pats: seq<string>, s: string)
    requires forall k :: 0 <= k < |pats| && pats[k] != "" ==> pats[k][0] !in s
    ensures RemoveAll(pats, s) == s
  {
    if |pats| > 0 {
      if pats[0] != "" {
        ReplaceKeeps(s, pats[0]);
      }
      RemoveAllKeeps(pats[1..], s);
    }
  }

  lemma ReplaceKeeps(s: string, pat: string)
    requires |pat| > 0 && forall j :: 0 <= j < |s| ==> !SameAt(s, j, pat, false, 0)
    ensures ReplaceAll(s, pat, "") == s
  {
    ReplaceSkipTo(s, pat, "", false, 0, |s|);
    assert s[0..|s|] == s;
  }

  /** The fixed strings `GradingAgent.extract_student_name` deletes, in its order. */
  const LegacyRemovals: seq<string> := ["_CS361_HW5_FA25", "_LATE", "_complete", "_1", "_2", "(1)", "-1", "-2"]

  /** `GradingAgent.extract_student_name` as written: the stem before the first dot, every fixed
      string deleted wherever it occurs, then the first `_`-token. Deleting `_1` or `_2` from an id
      that starts with that digit glues the rest of the id onto the name. */
  function LegacyNameAsWritten(filename: string): (r: string)
    ensures '_' !in r
  {
    Split(RemoveAll(LegacyRemovals, BeforeFirstDot(filename)), '_')[0]
  }

  /** The copy markers, the only removals that can occur inside the name token. */
  const CopyMarkers: seq<string> := ["(1)", "-1", "-2"]

  /** The first-generation name extraction with the gluing removed. */
  function LegacyName(filename: string): (r: string)
    ensures '_' !in r
  {
    Split(RemoveAll(CopyMarkers, BeforeFirstDot(filename)), '_')[0]
  }

  /** An id starting with 2 loses its separator: the name comes back with digits attached. */
  lemma LegacyNameGluesId(f: string)
    requires f == "bo_2024.py"
    ensures LegacyNameAsWritten(f) == "bo024"
  {
    var stem := "bo_2024";
    StemOfComposed(stem, ".py");
    assert stem + ".py" == f;
    LegacyRemovalSteps(stem);
    GluedIdToken("bo024");
  }

  lemma GluedIdToken(s: string)
    requires s == "bo024"
    ensures Split(s, '_')[0] == s
  {
    SplitNoSep(s, '_');
  }

  lemma LegacyRemovalSteps(s: string)
    requires s == "bo_2024"
    ensures RemoveAll(LegacyRemovals, s) == "bo024"
  {
    var ps := LegacyRemovals;
    UnderscoreMissesId(s, ps[0]);
    UnderscoreMissesId(s, ps[1]);
    UnderscoreMissesId(s, ps[2]);
    UnderscoreMissesId(s, ps[3]);
    RemovePrefixKeeps(ps, 4, s);
    UnderscoreTwoStep(s);
    assert ps[4..][0] == "_2" && ps[4..][1..] == ps[5..];
    RemoveAllKeeps(ps[5..], "bo024");
  }

  /** Leading strings that change nothing can be dropped from the chain. */
  lemma {:induction false} RemovePrefixKeeps(pats: seq<string>, n: nat, s: string)
    requires n <= |pats|
    requires forall k :: 0 <= k < n && pats[k] != "" ==> ReplaceAll(s, pats[k], "") == s
    ensures RemoveAll(pats, s) == RemoveAll(pats[n..], s)
  {
    if n > 0 {
      RemovePrefixKeeps(pats[1..], n - 1, s);
      assert pats[1..][n - 1..] == pats[n..];
    }
  }

  lemma UnderscoreMissesId(s: string, pat: string)
    requires s == "bo_2024" && |pat| >= 2 && pat[0] == '_' && pat[1] != '2'
    ensures ReplaceAll(s, pat, "") == s
  {
    forall j | 0 <= j < |s| ensures !SameAt(s, j, pat, false, 0) {
      if j == 2 {
        assert s[3] == '2';
      }
    }
    ReplaceKeeps(s, pat);
  }

  lemma UnderscoreTwoStep(s: string)
    requires s == "bo_2024"
    ensures ReplaceAll(s, "_2", "") == "bo024"
  {
    ReplaceSkipTo(s, "_2", "", false, 0, 2);
    assert SameAt(s, 2, "_2", false, 0);
    ReplaceSkipTo(s, "_2", "", false, 4, 7);
    assert s[0..2] == "bo" && s[4..7] == "024";
  }

  /** The corrected extractor keeps the name of the same file. */
  lemma LegacyNameKeepsName(f: string)
    requires f == "bo_2024.py"
    ensures LegacyName(f) == "bo"
  {
    JoinTwo("bo", "2024", ".py", f);
    LegacyNameOfJoin(f, ["bo", "2024"], ".py");
  }

  /** Parts free of copy markers: the corrected name is the first part. */
  lemma LegacyNameOfJoin(f: string, parts: seq<string>, ext: string)
    requires |parts| >= 1 && forall i :: 0 <= i < |parts| ==> PlainToken(parts[i]) && NoCopyMarker(parts[i])
    requires ExtensionShape(ext) && f == Join(parts, "_") + ext
    ensures LegacyName(f) == parts[0]
  {
    var stem := Join(parts, "_");
    JoinedStem(f, parts, ext);
    CopyMarkersKeep(stem);
    SplitJoin(parts, '_');
  }

  /** A stem without copy markers survives the corrected chain. */
  lemma CopyMarkersKeep(s: string)
    requires NoCopyMarker(s)
    ensures RemoveAll(CopyMarkers, s) == s
  {
    assert forall k :: 0 <= k < |CopyMarkers| ==> CopyMarkers[k][0] in ['(', '-'];
    RemoveAllKeeps(CopyMarkers, s);
  }

  /** On composed file names without copy markers, the corrected first-generation extractor returns
      the grouper's student name. */
  lemma LegacyNameAgreesWithGrouper(name: string, late: bool, studentId: string, submissionId: string,
                                    rest: seq<string>, ext: string)
    requires ComposedParts(name, studentId, submissionId, rest, ext)
    requires NoCopyMarker(name) && forall i :: 0 <= i < |rest| ==> NoCopyMarker(rest[i])
    ensures var f := ComposeFilename(name, late, studentId, submissionId, rest, ext);
      LegacyName(f) == name && ParseFilename(f).studentName == name
  {
    var f := ComposeFilename(name, late, studentId, submissionId, rest, ext);
    var parts := [name] + ComposeTail(late, studentId, submissionId, rest);
    ParseComposeRoundTrip(name, late, studentId, submissionId, rest, ext);
    ComposeTailPlain(name, late, studentId, submissionId, rest);
    ComposedPartsUnmarked(name, late, studentId, submissionId, rest);
    LegacyNameOfJoin(f, parts, ext);
  }
}
