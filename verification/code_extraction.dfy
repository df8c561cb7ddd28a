/** The code-submission extraction agent: one student's code files read in sorted path order,
    each tagged with its language, a syntax verdict, its structure and (for several files) a
    one-line purpose, then joined under per-file banners and summarised. Reading the files,
    compiling Python, the structure extraction and the chat model are parameters. */
module CodeExtraction {
  import opened Wrappers
  import opened Text
  import opened Seqs
  import Sorting

  datatype Language = Python | Java | Cpp | C | JavaScript | TypeScript | Unknown

  /** The language's name as the agent reports it. */
  function Name(l: Language): string {
    match l
    case Python => "python"
    case Java => "java"
    case Cpp => "cpp"
    case C => "c"
    case JavaScript => "javascript"
    case TypeScript => "typescript"
    case Unknown => "unknown"
  }

  /** The extension each known language is recognised by (none for `Unknown`). */
  function Extension(l: Language): string {
    match l
    case Python => ".py"
    case Java => ".java"
    case Cpp => ".cpp"
    case C => ".c"
    case JavaScript => ".js"
    case TypeScript => ".ts"
    case Unknown => ""
  }

  /** The language a lower-case extension names, if any. */
  function LanguageOfExtension(ext: string): (r: Language)
    ensures r != Unknown ==> ext == Extension(r)
    ensures r == Unknown ==> forall l: Language :: l != Unknown ==> ext != Extension(l)
  {
    if ext == ".py" then Python
    else if ext == ".java" then Java
    else if ext == ".cpp" then Cpp
    else if ext == ".c" then C
    else if ext == ".js" then JavaScript
    else if ext == ".ts" then TypeScript
    else Unknown
  }

  /** Each known extension names its own language. */
  lemma LanguageOfOwnExtension(l: Language)
    requires l != Unknown
    ensures LanguageOfExtension(Extension(l)) == l
  {
  }

  /** `_detect_language`: the lower-cased extension of the file name looked up among the known
      ones; anything else is `Unknown`. */
  function DetectLanguage(filename: string): (r: Language)
    ensures r != Unknown ==> Lower(SplitExt(filename).1) == Extension(r)
    ensures r == Unknown ==> forall l: Language :: l != Unknown ==> Lower(SplitExt(filename).1) != Extension(l)
  {
    LanguageOfExtension(Lower(SplitExt(filename).1))
  }

  /** Lower-casing undoes upper-casing on lower-case letters and dots. */
  lemma LowerUpper(ext: string)
    requires forall i :: 0 <= i < |ext| ==> ext[i] == '.' || 'a' <= ext[i] <= 'z'
    ensures Lower(Upper(ext)) == ext
  {
    var u := Upper(ext);
    forall i | 0 <= i < |ext| ensures Lower(u)[i] == ext[i] {
      LowerOfUpper(ext[i]);
    }
  }

  lemma LowerOfUpper(c: char)
    requires c == '.' || 'a' <= c <= 'z'
    ensures LowerChar(UpperChar(c)) == c
  {
  }

  /** A dot followed by characters that are neither dots nor slashes. */
  lemma DotWordShape(e: string)
    requires |e| > 0 && e[0] == '.' && forall i :: 1 <= i < |e| ==> e[i] != '.' && e[i] != '/'
    ensures '.' !in e[1..] && '/' !in e
  {
    assert forall i :: 0 <= i < |e[1..]| ==> e[1..][i] == e[i + 1];
  }

  /** A dot followed by lower-case letters, in either letter case, is a single dot followed by
      letters, and lower-cases to the original. */
  lemma DotWordCases(ext: string, upper: bool)
    requires |ext| > 0 && ext[0] == '.' && forall i :: 1 <= i < |ext| ==> 'a' <= ext[i] <= 'z'
    ensures var e := if upper then Upper(ext) else ext;
      e[0] == '.' && '.' !in e[1..] && '/' !in e && Lower(e) == ext
  {
    LowerUpper(ext);
    if upper {
      var e := Upper(ext);
      assert e[0] == '.' && forall i :: 1 <= i < |e| ==> e[i] != '.' && e[i] != '/' by {
        forall i | 1 <= i < |e| ensures e[i] != '.' && e[i] != '/' {
          assert 'a' <= ext[i] <= 'z';
        }
      }
      DotWordShape(e);
    } else {
      DotWordShape(ext);
      assert Lower(ext) == ext by {
        forall i | 0 <= i < |ext| ensures Lower(ext)[i] == ext[i] {
          assert 'a' <= ext[i] <= 'z' || ext[i] == '.';
        }
      }
    }
  }

  /** Every known extension is a dot followed by lower-case letters. */
  lemma ExtensionIsDotWord(l: Language)
    requires l != Unknown
    ensures var ext := Extension(l);
      |ext| > 0 && ext[0] == '.' && forall i :: 1 <= i < |ext| ==> 'a' <= ext[i] <= 'z'
  {
  }

  /** A file named with a known language's extension, in any letter case, is detected as that
      language. */
  lemma DetectExtension(stem: string, l: Language, upper: bool)
    requires l != Unknown
    requires '.' !in stem && |stem| > 0 && stem[|stem| - 1] != '/'
    ensures DetectLanguage(stem + (if upper then Upper(Extension(l)) else Extension(l))) == l
  {
    var ext := Extension(l);
    var e := if upper then Upper(ext) else ext;
    ExtensionIsDotWord(l);
    DotWordCases(ext, upper);
    SplitExtOfStem(stem, e);
    assert Lower(SplitExt(stem + e).1) == ext;
    LanguageOfOwnExtension(l);
  }

  // ----- One file -----

  /** What `analyze_code_syntax` reports. */
  datatype SyntaxReport = SyntaxReport(valid: bool, errors: seq<string>)

  /** `analyze_code_syntax`: Python is valid when it compiles (`compile` gives the message of a
      failed compilation); Java when a class is declared; anything else when it is not blank. */
  function AnalyzeSyntax(code: string, l: Language, compile: string -> Option<string>): (r: SyntaxReport)
    ensures l == Python ==> (r.valid <==> compile(code).None?)
    ensures l == Java ==> (r.valid <==> Contains(code, "class "))
    ensures l != Python && l != Java ==> (r.valid <==> !IsBlank(code)) && r.errors == []
    ensures r.valid ==> r.errors == []
    ensures l == Python || l == Java ==> (r.valid <==> r.errors == [])
    ensures |r.errors| <= 1
  {
    match l
    case Python =>
      if compile(code).None? then SyntaxReport(true, [])
      else SyntaxReport(false, [compile(code).value])
    case Java =>
      if Contains(code, "class ") || Contains(code, "public class ") then
        assert "public " + "class " == "public class ";
        ContainsSuffix(code, "public ", "class ");
        SyntaxReport(true, [])
      else SyntaxReport(false, ["No class definition found"])
    case _ =>
      SyntaxReport(!IsBlank(code), [])
  }

  /** A string that contains `a + b` contains `b`. */
  lemma ContainsSuffix(s: string, a: string, b: string)
    ensures Contains(s, a + b) ==> Contains(s, b)
  {
    if Contains(s, a + b) {
      var i :| 0 <= i <= |s| - |a + b| && OccursAt(s, a + b, i);
      assert s[i + |a|..i + |a| + |b|] == (a + b)[|a|..];
      assert OccursAt(s, b, i + |a|);
    }
  }

  /** The functions, classes and imports found in a file. */
  datatype Structure = Structure(functions: seq<string>, classes: seq<string>, imports: seq<string>, mainFound: bool)

  const NoStructure: Structure := Structure([], [], [], false)

  /** `extract_code_structure`: only Python and Java files are inspected (`inspect` stands for the
      Python syntax tree walk and the Java regular expressions). */
  function ExtractStructure(code: string, l: Language, inspect: (string, Language) -> Structure): (r: Structure)
    ensures l == Python || l == Java ==> r == inspect(code, l)
    ensures l != Python && l != Java ==> r == NoStructure
  {
    if l == Python || l == Java then inspect(code, l) else NoStructure
  }

  /** `_determine_file_purpose` from the model's reply (None when the call raises): the stripped
      reply cut to 200 characters. */
  function Purpose(reply: Option<string>): (r: Option<string>)
    ensures r.None? <==> reply.None?
    ensures r.Some? ==> |r.value| <= 200 && StartsWith(Strip(reply.value), r.value)
    ensures r.Some? && |Strip(reply.value)| <= 200 ==> r.value == Strip(reply.value)
  {
    if reply.None? then None else Some(Take(Strip(reply.value), 200))
  }

  /** The characters `str.splitlines` ends a line at. */
  predicate IsLineBreak(c: char) {
    || c == '\n' || c == '\r' || c == '\U{000B}' || c == '\U{000C}' || ('\U{001C}' <= c <= '\U{001E}')
    || c == '\U{0085}' || c == '\U{2028}' || c == '\U{2029}'
  }

  /** The index of the first line break, or the length when there is none. */
  function BreakIndex(s: string): (b: nat)
    ensures b <= |s|
    ensures b < |s| ==> IsLineBreak(s[b])
    ensures forall i :: 0 <= i < b ==> !IsLineBreak(s[i])
  {
    if s == "" || IsLineBreak(s[0]) then 0 else 1 + BreakIndex(s[1..])
  }

  /** The length of the first line together with its terminator, `\r\n` being one terminator. */
  function LineEnd(s: string): (k: nat)
    requires s != ""
    ensures 1 <= k <= |s|
  {
    var b := BreakIndex(s);
    if b == |s| then |s|
    else if s[b] == '\r' && b + 1 < |s| && s[b + 1] == '\n' then b + 2
    else b + 1
  }

  /** `len(s.splitlines())` */
  function LineCount(s: string): (n: nat)
    ensures n == 0 <==> s == ""
    ensures n <= |s|
    decreases |s|
  {
    if s == "" then 0 else 1 + LineCount(s[LineEnd(s)..])
  }

  /** A non-empty text without line breaks is one line. */
  lemma LineCountOneLine(s: string)
    requires s != "" && forall i :: 0 <= i < |s| ==> !IsLineBreak(s[i])
    ensures LineCount(s) == 1
  {
    assert BreakIndex(s) == |s|;
  }

  /** A line ended by `\n`, or by `\r\n`, adds exactly one to the count of what follows. */
  lemma LineCountConsLine(line: string, crlf: bool, rest: string)
    requires forall i :: 0 <= i < |line| ==> !IsLineBreak(line[i])
    ensures LineCount(line + (if crlf then "\r\n" else "\n") + rest) == 1 + LineCount(rest)
  {
    if crlf {
      var s := line + "\r\n" + rest;
      assert s[|line|] == '\r';
      BreakAfterLine(line, s);
      assert s[|line| + 1] == '\n';
      assert s[|line| + 2..] == rest;
    } else {
      assert line + "\n" + rest == line + ['\n'] + rest;
      LineCountConsBreak(line, '\n', rest);
    }
  }

  /** The Unicode next-line and line and paragraph separators end a line too: `a\u0085b` is two lines. */
  lemma LineCountUnicodeBreaks(a: char, b: char)
    requires !IsLineBreak(a) && !IsLineBreak(b)
    ensures LineCount([a, '\U{0085}', b]) == 2
    ensures LineCount([a, '\U{2028}', b]) == 2
    ensures LineCount([a, '\U{2029}', b]) == 2
  {
    forall brk | brk in ['\U{0085}', '\U{2028}', '\U{2029}']
      ensures LineCount([a, brk, b]) == 2
    {
      assert [a, brk, b] == [a] + [brk] + [b];
      LineCountConsBreak([a], brk, [b]);
      LineCountOneLine([b]);
    }
  }

  /** A line ended by any break other than `\r` adds exactly one to the count of what follows. */
  lemma LineCountConsBreak(line: string, brk: char, rest: string)
    requires IsLineBreak(brk) && brk != '\r'
    requires forall i :: 0 <= i < |line| ==> !IsLineBreak(line[i])
    ensures LineCount(line + [brk] + rest) == 1 + LineCount(rest)
  {
    var s := line + [brk] + rest;
    assert s[|line|] == brk;
    BreakAfterLine(line, s);
    assert s[|line| + 1..] == rest;
  }

  lemma BreakAfterLine(line: string, s: string)
    requires |line| < |s| && s[..|line|] == line && IsLineBreak(s[|line|])
    requires forall i :: 0 <= i < |line| ==> !IsLineBreak(line[i])
    ensures BreakIndex(s) == |line|
  {
    var b := BreakIndex(s);
  }

  /** One entry of the `files` list. */
  datatype CodeFile = CodeFile(
    filename: string,
    content: string,
    language: Language,
    syntaxValid: bool,
    syntaxErrors: seq<string>,
    structure: Structure,
    purpose: Option<string>,
    lineCount: nat)

  /** The file reader, the compiler, the structure extraction and the chat call. */
  datatype Services = Services(
    read: string -> Result<string, string>,       // the text (UTF-8, else Latin-1), or why it cannot be opened
    compile: string -> Option<string>,            // None when Python source compiles, else the error line
    inspect: (string, Language) -> Structure,     // the syntax tree walk or the Java regular expressions
    describe: (string, string, Language) -> Option<string>) // the purpose request; None when it raises

  /** One file's entry; the purpose is asked for (with the first 2000 characters) only when the
      submission has several files. */
  function MakeFile(path: string, content: string, several: bool, s: Services): (f: CodeFile)
    ensures f.filename == Basename(path) && f.content == content
    ensures f.language == DetectLanguage(f.filename)
    ensures f.syntaxValid == AnalyzeSyntax(content, f.language, s.compile).valid
    ensures f.lineCount == LineCount(content)
    ensures !several ==> f.purpose.None?
    ensures f.purpose.Some? ==> |f.purpose.value| <= 200
  {
    var filename := Basename(path);
    var l := DetectLanguage(filename);
    var syntax := AnalyzeSyntax(content, l, s.compile);
    var purpose := if several then Purpose(s.describe(filename, Take(content, 2000), l)) else None;
    CodeFile(filename, content, l, syntax.valid, syntax.errors, ExtractStructure(content, l, s.inspect),
             purpose, LineCount(content))
  }

  // ----- Concatenation -----

  /** The banner's horizontal rule, `"=" * 70`. */
  function Rule(): (r: string)
    ensures |r| == 70 && forall i :: 0 <= i < 70 ==> r[i] == '='
  {
    seq(70, i => '=')
  }

  /** A purpose is shown when it is a non-empty string. */
  predicate ShowsPurpose(f: CodeFile) {
    f.purpose.Some? && f.purpose.value != ""
  }

  /** The banner in front of a file's content. */
  function Header(f: CodeFile): string {
    "\n" + Rule() + "\nFile: " + f.filename + " (" + Name(f.language) + ")\n"
      + (if ShowsPurpose(f) then "Purpose: " + f.purpose.value + "\n" else "")
      + Rule() + "\n\n"
  }

  /** The banner opens with a rule and the file name and closes with a rule and a blank line; the
      language name always shows, the purpose line only when there is a purpose to show. */
  lemma HeaderShape(f: CodeFile)
    ensures StartsWith(Header(f), "\n" + Rule() + "\nFile: " + f.filename)
    ensures EndsWith(Header(f), Rule() + "\n\n")
    ensures |Header(f)| == 154 + |f.filename| + |Name(f.language)| + (if ShowsPurpose(f) then 10 + |f.purpose.value| else 0)
  {
    var lead := "\n" + Rule() + "\nFile: " + f.filename;
    assert Header(f)[..|lead|] == lead;
  }

  /** A file's banner, its content and a blank line. */
  function Block(f: CodeFile): string {
    Header(f) + f.content + "\n\n"
  }

  /** `concatenate_code_files`: each file's banner, content and a blank line, in order. */
  function Concatenate(files: seq<CodeFile>): string {
    Flatten(Map(Block, files))
  }

  /** Concatenating two lists of files concatenates their texts. */
  lemma ConcatenateAppend(a: seq<CodeFile>, b: seq<CodeFile>)
    ensures Concatenate(a + b) == Concatenate(a) + Concatenate(b)
  {
    MapAppend(Block, a, b);
    FlattenAppend(Map(Block, a), Map(Block, b));
  }

  /** Every file's content appears, right after its banner, between the text of the files before it
      and the text of the files after it. */
  lemma ConcatenateAt(files: seq<CodeFile>, i: nat)
    requires i < |files|
    ensures Concatenate(files) == Concatenate(files[..i]) + Block(files[i]) + Concatenate(files[i + 1..])
  {
    var bs := Map(Block, files);
    MapSlice(Block, files, 0, i);
    MapSlice(Block, files, i + 1, |files|);
    assert files[0..i] == files[..i] && bs[0..i] == bs[..i];
    assert files[i + 1..|files|] == files[i + 1..] && bs[i + 1..|bs|] == bs[i + 1..];
    FlattenAt(bs, i);
  }

  // ----- The submission -----

  /** The languages of a list of files. */
  function Languages(files: seq<CodeFile>): set<Language> {
    set f | f in files :: f.language
  }

  /** Every language, in the order of its name. */
  function ByName(): seq<Language> {
    [C, Cpp, Java, JavaScript, Python, TypeScript, Unknown]
  }

  /** One name orders before another and differs from it. */
  predicate NameBefore(a: Language, b: Language) {
    Sorting.StrLe(Name(a), Name(b)) && Name(a) != Name(b)
  }

  /** Neighbours in `ByName` are in name order. */
  lemma ByNameAdjacent(i: nat)
    requires i + 1 < |ByName()|
    ensures NameBefore(ByName()[i], ByName()[i + 1])
  {
    if i == 0 {
      assert Name(ByName()[1])[1..] == "pp";
    } else if i == 2 {
      assert Name(ByName()[2])[1..] == "ava" && Name(ByName()[3])[1..] == "avascript";
      assert Name(ByName()[2])[2..] == "va" && Name(ByName()[3])[2..] == "vascript";
      assert Name(ByName()[2])[3..] == "a" && Name(ByName()[3])[3..] == "ascript";
    }
  }

  /** `NameBefore` chains. */
  lemma NameBeforeTransitive(a: Language, b: Language, c: Language)
    requires NameBefore(a, b) && NameBefore(b, c)
    ensures NameBefore(a, c)
  {
    Sorting.StrLeTransitive(Name(a), Name(b), Name(c));
    if Name(a) == Name(c) {
      Sorting.StrLeAntisymmetric(Name(a), Name(b));
    }
  }

  /** `ByName` lists the languages in strictly increasing name order. */
  lemma {:induction false} ByNameChain(i: nat, j: nat)
    requires i < j < |ByName()|
    ensures NameBefore(ByName()[i], ByName()[j])
    decreases j - i
  {
    ByNameAdjacent(j - 1);
    if i < j - 1 {
      ByNameChain(i, j - 1);
      NameBeforeTransitive(ByName()[i], ByName()[j - 1], ByName()[j]);
    }
  }

  lemma ByNameOrdered()
    ensures forall i, j :: 0 <= i < j < |ByName()| ==> NameBefore(ByName()[i], ByName()[j])
  {
    forall i, j | 0 <= i < j < |ByName()| ensures NameBefore(ByName()[i], ByName()[j]) {
      ByNameChain(i, j);
    }
  }

  lemma InByName(l: Language)
    ensures l in ByName()
  {
    match l
    case C => assert ByName()[0] == l;
    case Cpp => assert ByName()[1] == l;
    case Java => assert ByName()[2] == l;
    case JavaScript => assert ByName()[3] == l;
    case Python => assert ByName()[4] == l;
    case TypeScript => assert ByName()[5] == l;
    case Unknown => assert ByName()[6] == l;
  }

  /** `l in found`, as a guard. */
  function In(found: set<Language>): Language -> bool {
    l => l in found
  }

  /** The names of a list of languages. */
  function Names(ls: seq<Language>): (r: seq<string>)
    ensures |r| == |ls| && forall i :: 0 <= i < |ls| ==> r[i] == Name(ls[i])
  {
    seq(|ls|, i requires 0 <= i < |ls| => Name(ls[i]))
  }

  /** `sorted(languages)`: the names of the given languages, in name order. */
  function SortedNames(found: set<Language>): (r: seq<string>)
    ensures |r| <= |ByName()|
  {
    Names(Filter(ByName(), In(found)))
  }

  /** The sorted names are strictly increasing: in order, and each once. */
  lemma SortedNamesOrdered(found: set<Language>)
    ensures var r := SortedNames(found);
      forall i, j :: 0 <= i < j < |r| ==> Sorting.StrLe(r[i], r[j]) && r[i] != r[j]
  {
    var ls := Filter(ByName(), In(found));
    ByNameOrdered();
    FilterKeepsOrder(ByName(), In(found), NameBefore);
    assert forall i, j :: 0 <= i < j < |ls| ==> NameBefore(ls[i], ls[j]);
  }

  /** The sorted names are exactly the names of the given languages. */
  lemma SortedNamesMembers(found: set<Language>)
    ensures var r := SortedNames(found);
      forall n :: n in r <==> exists l :: l in found && Name(l) == n
  {
    var ls := Filter(ByName(), In(found));
    FilterByNameMembers(found);
    forall n ensures n in Names(ls) <==> exists l :: l in found && Name(l) == n {
      NamesMembers(ls, n);
    }
  }

  /** Filtering every language keeps exactly the chosen ones. */
  lemma FilterByNameMembers(found: set<Language>)
    ensures forall l :: l in Filter(ByName(), In(found)) <==> l in found
  {
    forall l ensures l in Filter(ByName(), In(found)) <==> l in found {
      InByName(l);
      assert In(found)(l) == (l in found);
    }
  }

  /** A name is among the names of a list exactly when some language of the list has it. */
  lemma NamesMembers(ls: seq<Language>, n: string)
    ensures n in Names(ls) <==> exists l :: l in ls && Name(l) == n
  {
    var r := Names(ls);
    if n in r {
      var k :| 0 <= k < |r| && r[k] == n;
      assert ls[k] in ls;
    }
    if exists l :: l in ls && Name(l) == n {
      var l :| l in ls && Name(l) == n;
      var k :| 0 <= k < |ls| && ls[k] == l;
      assert r[k] == n;
    }
  }

  /** What the summary paragraph says, before it is put into words. */
  datatype Analysis = Analysis(
    fileCount: nat,
    languages: seq<string>,          // sorted language names
    fileList: Option<seq<string>>,   // the file names, listed only for several files
    invalidFiles: nat,               // the warning line appears exactly when this is positive
    structure: Option<(nat, nat)>)   // function and class totals, shown when either is positive

  predicate IsInvalid(f: CodeFile) {
    !f.syntaxValid
  }

  function FunctionTotal(files: seq<CodeFile>): (n: nat)
    ensures n > 0 <==> exists i :: 0 <= i < |files| && |files[i].structure.functions| > 0
  {
    if files == [] then 0
    else
      assert forall i :: 1 <= i < |files| ==> files[i] == files[1..][i - 1];
      |files[0].structure.functions| + FunctionTotal(files[1..])
  }

  function ClassTotal(files: seq<CodeFile>): (n: nat)
    ensures n > 0 <==> exists i :: 0 <= i < |files| && |files[i].structure.classes| > 0
  {
    if files == [] then 0
    else
      assert forall i :: 1 <= i < |files| ==> files[i] == files[1..][i - 1];
      |files[0].structure.classes| + ClassTotal(files[1..])
  }

  /** `_generate_submission_analysis` */
  function Analyze(files: seq<CodeFile>): (a: Analysis)
    ensures a.fileCount == |files|
    ensures a.languages == SortedNames(Languages(files))
    ensures a.fileList.Some? <==> |files| > 1
    ensures a.fileList.Some? ==>
      |a.fileList.value| == |files| && forall i :: 0 <= i < |files| ==> a.fileList.value[i] == files[i].filename
    ensures a.invalidFiles <= |files|
    ensures a.invalidFiles > 0 <==> exists i :: 0 <= i < |files| && !files[i].syntaxValid
    ensures a.structure.Some? <==>
      exists i :: 0 <= i < |files| && (|files[i].structure.functions| > 0 || |files[i].structure.classes| > 0)
  {
    var invalid := Filter(files, IsInvalid);
    FilterKeepsNone(files, IsInvalid);
    var fs := FunctionTotal(files);
    var cs := ClassTotal(files);
    Analysis(
      |files|,
      SortedNames(Languages(files)),
      if |files| > 1 then Some(seq(|files|, i requires 0 <= i < |files| => files[i].filename)) else None,
      |invalid|,
      if fs > 0 || cs > 0 then Some((fs, cs)) else None)
  }

  /** The summary paragraph in words. */
  function Render(a: Analysis): string {
    var lead := "Student submitted " + NatToString(a.fileCount) + " file(s) in " + Join(a.languages, ", ") + ".";
    var list := if a.fileList.None? then "" else
      var names := a.fileList.value;
      "\n\nFiles:\n" + Join(seq(|names|, i requires 0 <= i < |names| => "- " + names[i]), "\n");
    var warning := if a.invalidFiles > 0 then
      "\n\nWarning: " + NatToString(a.invalidFiles) + " file(s) have syntax errors." else "";
    var shape := if a.structure.None? then "" else
      "\n\nCode structure: " + NatToString(a.structure.value.0) + " function(s), "
      + NatToString(a.structure.value.1) + " class(es).";
    lead + list + warning + shape
  }

  /** The dictionary `extract_code_submission` returns. */
  datatype CodeSubmission = CodeSubmission(
    files: seq<CodeFile>,
    combinedCode: string,
    languages: set<Language>,
    analysis: string,
    totalLines: nat,
    fileCount: nat)

  function TotalLines(files: seq<CodeFile>): nat {
    if files == [] then 0 else files[0].lineCount + TotalLines(files[1..])
  }

  /** The error of the first path, in order, that cannot be read. */
  function FirstFailure(paths: seq<string>, read: string -> Result<string, string>): (r: Option<string>)
    ensures r.None? <==> forall p :: p in paths ==> read(p).Success?
    ensures r.Some? ==> exists p :: p in paths && read(p) == Failure(r.value)
  {
    if paths == [] then None
    else if read(paths[0]).Failure? then Some(read(paths[0]).error)
    else
      var r := FirstFailure(paths[1..], read);
      assert forall p :: p in paths ==> p == paths[0] || p in paths[1..];
      r
  }

  /** Sequences with the same elements, counted, have the same members. */
  lemma SameMembers<T>(a: seq<T>, b: seq<T>)
    requires multiset(a) == multiset(b)
    ensures forall x :: x in a <==> x in b
  {
    assert forall x :: x in a <==> x in multiset(a);
    assert forall x :: x in b <==> x in multiset(b);
  }

  /** The paths in sorted order: the same paths, each as often. */
  function SortedPaths(paths: seq<string>): (r: seq<string>)
    ensures |r| == |paths| && forall p :: p in r <==> p in paths
    ensures forall i, j :: 0 <= i < j < |r| ==> Sorting.StrLe(r[i], r[j])
  {
    var r := Sorting.SortStrings(paths);
    SameMembers(paths, r);
    r
  }

  /** One entry per readable path, in order. */
  function ReadFiles(paths: seq<string>, several: bool, s: Services): (r: seq<CodeFile>)
    requires forall p :: p in paths ==> s.read(p).Success?
    ensures |r| == |paths|
    ensures forall i :: 0 <= i < |paths| ==> r[i] == MakeFile(paths[i], s.read(paths[i]).value, several, s)
  {
    seq(|paths|, i requires 0 <= i < |paths| => MakeFile(paths[i], s.read(paths[i]).value, several, s))
  }

  /** The submission built from files that were all read. */
  function Assemble(files: seq<CodeFile>): CodeSubmission {
    CodeSubmission(files, Concatenate(files), Languages(files), Render(Analyze(files)), TotalLines(files), |files|)
  }

  /** `extract_code_submission`: the files read in sorted path order and assembled, or, when one
      cannot be read, the empty result with the error as its analysis. */
  function ExtractCodeSubmission(paths: seq<string>, s: Services): CodeSubmission {
    var sorted := SortedPaths(paths);
    match FirstFailure(sorted, s.read)
    case Some(msg) =>
      CodeSubmission([], "", {}, "Error extracting code: " + msg, 0, 0)
    case None =>
      Assemble(ReadFiles(sorted, |paths| > 1, s))
  }

  /** When some file cannot be read: no files, no text, no languages, no lines, and the analysis
      reports the error. */
  lemma ExtractUnreadable(paths: seq<string>, s: Services)
    requires exists p :: p in paths && s.read(p).Failure?
    ensures var r := ExtractCodeSubmission(paths, s);
      && r.files == [] && r.fileCount == 0 && r.combinedCode == "" && r.languages == {} && r.totalLines == 0
      && StartsWith(r.analysis, "Error extracting code: ")
  {
    var sorted := SortedPaths(paths);
    var p :| p in paths && s.read(p).Failure?;
    assert p in sorted;
    var msg := FirstFailure(sorted, s.read);
    assert msg.Some?;
    assert ExtractCodeSubmission(paths, s) == CodeSubmission([], "", {}, "Error extracting code: " + msg.value, 0, 0);
  }

  /** When every file can be read: one entry per path, in sorted path order, their joined text,
      their languages, their line total and the summary of them. */
  lemma ExtractEveryFile(paths: seq<string>, s: Services)
    requires forall p :: p in paths ==> s.read(p).Success?
    ensures var r := ExtractCodeSubmission(paths, s);
      && |r.files| == |paths| == r.fileCount
      && (forall i :: 0 <= i < |paths| ==>
            var p := SortedPaths(paths)[i];
            p in paths && r.files[i] == MakeFile(p, s.read(p).value, |paths| > 1, s))
      && r.combinedCode == Concatenate(r.files)
      && r.languages == Languages(r.files)
      && r.totalLines == TotalLines(r.files)
      && r.analysis == Render(Analyze(r.files))
  {
    var sorted := SortedPaths(paths);
    var files := ReadFiles(sorted, |paths| > 1, s);
    assert FirstFailure(sorted, s.read).None?;
    assert ExtractCodeSubmission(paths, s) == Assemble(files);
    forall i | 0 <= i < |paths| ensures sorted[i] in paths {
      assert sorted[i] in sorted;
    }
  }

  /** The line total counts every line of every file. */
  lemma {:induction false} TotalLinesAppend(a: seq<CodeFile>, b: seq<CodeFile>)
    ensures TotalLines(a + b) == TotalLines(a) + TotalLines(b)
  {
    if a == [] {
      assert a + b == b;
    } else {
      assert (a + b)[1..] == a[1..] + b;
      TotalLinesAppend(a[1..], b);
    }
  }
}
