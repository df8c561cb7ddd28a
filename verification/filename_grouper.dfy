/** Parsing of LMS submission file names (`name[_LATE]_studentId_submissionId_remainder.ext`),
    grouping files by student, and sorting and categorising the files of a submission. */
module SubmissionGrouper {
  import opened Wrappers
  import opened Text
  import opened PyDict
  import opened Sorting

  datatype ParsedName = ParsedName(
    studentName: string,
    isLate: bool,
    studentId: string,
    submissionId: Option<string>,
    remainder: string,
    extension: string,
    originalFilename: string)

  /** The late marker is already upper case. */
  lemma LateIsUpper()
    ensures Upper("LATE") == "LATE"
  {
    UpperKeeps("LATE");
  }

  /** An id token: all digits, at least four of them. */
  predicate IsIdToken(p: string) {
    IsDigits(p) && |p| >= 4
  }

  /** What the token loop has collected so far. */
  datatype Scan = Scan(studentId: Option<string>, submissionId: Option<string>, rest: seq<string>)

  /** One step of the loop: the first id token is the student id, the second the submission id,
      every other token (including later id tokens) joins the remainder. */
  function ScanStep(s: Scan, p: string): Scan {
    if IsIdToken(p) && s.studentId.None? then s.(studentId := Some(p))
    else if IsIdToken(p) && s.submissionId.None? then s.(submissionId := Some(p))
    else s.(rest := s.rest + [p])
  }

  function ScanTokens(parts: seq<string>): Scan {
    if |parts| == 0 then Scan(None, None, [])
    else ScanStep(ScanTokens(parts[..|parts| - 1]), parts[|parts| - 1])
  }

  /** The first id token of `parts`, with its position. */
  function FirstId(parts: seq<string>): (r: Option<nat>)
    ensures r.Some? ==>
      && r.value < |parts| && IsIdToken(parts[r.value])
      && forall j :: 0 <= j < r.value ==> !IsIdToken(parts[j])
    ensures r.None? ==> forall j :: 0 <= j < |parts| ==> !IsIdToken(parts[j])
  {
    if |parts| == 0 then None
    else if IsIdToken(parts[0]) then Some(0)
    else
      var r := FirstId(parts[1..]);
      if r.None? then None else Some(r.value + 1)
  }

  function OptBag(o: Option<string>): multiset<string> {
    if o.Some? then multiset{o.value} else multiset{}
  }

  /** The ids as `(student id, submission id)`. */
  function Ids(s: Scan): (Option<string>, Option<string>) {
    (s.studentId, s.submissionId)
  }

  /** The id token at a position, if there is one. */
  function TokenAt(parts: seq<string>, k: Option<nat>): Option<string>
    requires k.Some? ==> k.value < |parts|
  {
    if k.Some? then Some(parts[k.value]) else None
  }

  /** The ids read from the front, independently of the loop: the student id is the first id
      token, the submission id the first id token after it. */
  function FrontIds(parts: seq<string>): (Option<string>, Option<string>) {
    if |parts| == 0 then (None, None)
    else if IsIdToken(parts[0]) then (Some(parts[0]), TokenAt(parts[1..], FirstId(parts[1..])))
    else FrontIds(parts[1..])
  }

  /** What one more token does to the ids, mirroring the loop step. */
  function IdStep(ids: (Option<string>, Option<string>), p: string): (Option<string>, Option<string>) {
    if IsIdToken(p) && ids.0.None? then (Some(p), ids.1)
    else if IsIdToken(p) && ids.1.None? then (ids.0, Some(p))
    else ids
  }

  /** Every token is accounted for exactly once: as the student id, the submission id or in the remainder. */
  lemma {:induction false} ScanTokensAccounting(parts: seq<string>)
    ensures multiset(parts) == ScanBag(ScanTokens(parts))
  {
    if |parts| > 0 {
      var init := parts[..|parts| - 1];
      var p := parts[|parts| - 1];
      ScanTokensAccounting(init);
      assert parts == init + [p];
      assert multiset(parts) == multiset(init) + multiset{p};
      ScanStepAccounting(ScanTokens(init), p);
    }
  }

  /** Every token a scan holds, wherever it put it. */
  function ScanBag(s: Scan): multiset<string> {
    multiset(s.rest) + OptBag(s.studentId) + OptBag(s.submissionId)
  }

  lemma ScanStepAccounting(s: Scan, p: string)
    ensures ScanBag(ScanStep(s, p)) == ScanBag(s) + multiset{p}
  {
    var s' := ScanStep(s, p);
    if IsIdToken(p) && s.studentId.None? {
      assert OptBag(s'.studentId) == multiset{p} && s'.rest == s.rest;
    } else if IsIdToken(p) && s.submissionId.None? {
      assert OptBag(s'.submissionId) == multiset{p} && s'.rest == s.rest;
    } else {
      assert multiset(s'.rest) == multiset(s.rest) + multiset{p};
    }
  }

  /** The loop's ids agree with the definition read from the front. */
  lemma {:induction false} ScanTokensIds(parts: seq<string>)
    ensures Ids(ScanTokens(parts)) == FrontIds(parts)
  {
    if |parts| > 0 {
      var init := parts[..|parts| - 1];
      var p := parts[|parts| - 1];
      ScanTokensIds(init);
      assert parts == init + [p];
      assert Ids(ScanStep(ScanTokens(init), p)) == IdStep(Ids(ScanTokens(init)), p);
      FrontIdsSnoc(init, p);
    }
  }

  /** The loop only ever records id tokens, and a submission id only after a student id. */
  lemma {:induction false} ScanIdsAreIds(parts: seq<string>)
    ensures var s := ScanTokens(parts);
      && (s.studentId.Some? ==> IsIdToken(s.studentId.value))
      && (s.submissionId.Some? ==> IsIdToken(s.submissionId.value) && s.studentId.Some?)
  {
    if |parts| > 0 {
      ScanIdsAreIds(parts[..|parts| - 1]);
    }
  }

  /** Reading one more token from the back changes the front reading as the loop step does. */
  lemma {:induction false} FrontIdsSnoc(init: seq<string>, p: string)
    ensures FrontIds(init + [p]) == IdStep(FrontIds(init), p)
  {
    var parts := init + [p];
    if |init| == 0 {
      assert parts == [p] && parts[1..] == [];
    } else {
      assert parts[0] == init[0] && parts[1..] == init[1..] + [p];
      if IsIdToken(init[0]) {
        FirstIdSnoc(init[1..], p);
        var k := FirstId(init[1..]);
        if k.Some? {
          assert parts[1..][k.value] == init[1..][k.value];
        } else if IsIdToken(p) {
          assert parts[1..][|init| - 1] == p;
        }
      } else {
        FrontIdsSnoc(init[1..], p);
      }
    }
  }

  lemma FirstIdSnoc(init: seq<string>, p: string)
    ensures FirstId(init + [p]) == if FirstId(init).Some? then FirstId(init)
      else if IsIdToken(p) then Some(|init|) else None
  {
    var r := FirstId(init + [p]);
    var r0 := FirstId(init);
    if r0.Some? {
      FirstIdUnique(init + [p], r0.value);
    } else if IsIdToken(p) {
      FirstIdUnique(init + [p], |init|);
    } else {
      assert forall j :: 0 <= j < |init| + 1 ==> !IsIdToken((init + [p])[j]);
    }
  }

  lemma FirstIdUnique(parts: seq<string>, i: nat)
    requires i < |parts| && IsIdToken(parts[i])
    requires forall j :: 0 <= j < i ==> !IsIdToken(parts[j])
    ensures FirstId(parts) == Some(i)
  {
  }

  /** Once both ids are found, every further token goes to the remainder unchanged. */
  lemma {:induction false} ScanAfterIds(sid: string, sub: string, rem: seq<string>)
    requires IsIdToken(sid) && IsIdToken(sub)
    ensures ScanTokens([sid, sub] + rem) == Scan(Some(sid), Some(sub), rem)
  {
    if |rem| > 0 {
      ScanAfterIds(sid, sub, rem[..|rem| - 1]);
      assert ([sid, sub] + rem)[..|[sid, sub] + rem| - 1] == [sid, sub] + rem[..|rem| - 1];
      assert rem[..|rem| - 1] + [rem[|rem| - 1]] == rem;
    } else {
      assert [sid, sub] + rem == [sid, sub];
      assert [sid, sub][..1] == [sid];
      assert [sid][..0] == [];
      assert ScanTokens([sid]) == Scan(Some(sid), None, []);
    }
  }

  /** The fields after the name, parsed from the tokens that follow it. */
  function ParseTail(name: string, tail: seq<string>, ext: string, filename: string): (r: ParsedName)
    requires |tail| >= 1
    ensures r.studentId == "unknown" || IsIdToken(r.studentId)
    ensures r.submissionId.Some? ==> IsIdToken(r.submissionId.value) && r.studentId != "unknown"
  {
    var late := Upper(tail[0]) == "LATE";
    var scan := ScanTokens(tail[(if late then 1 else 0)..]);
    ScanIdsAreIds(tail[(if late then 1 else 0)..]);
    assert !IsIdToken("unknown") by { assert !IsDigit("unknown"[0]); }
    ParsedName(name, late, scan.studentId.GetOr("unknown"), scan.submissionId, Join(scan.rest, "_"), ext, filename)
  }

  /** `parse_filename`: the name before the first underscore, an optional `LATE` marker
      (any case) right after it, then the id tokens; a name with no underscore has an unknown id. */
  function ParseFilename(filename: string): (r: ParsedName)
    ensures r.extension == SplitExt(filename).1 && r.originalFilename == filename
    ensures '_' !in r.studentName
    ensures r.studentId == "unknown" || IsIdToken(r.studentId)
    ensures r.submissionId.Some? ==> IsIdToken(r.submissionId.value) && r.studentId != "unknown"
  {
    var (root, ext) := SplitExt(filename);
    var parts := Split(root, '_');
    if |parts| < 2 then ParsedName(parts[0], false, "unknown", None, "", ext, filename)
    else ParseTail(parts[0], parts[1..], ext, filename)
  }

  /** A file name without an underscore keeps its whole stem as the name and has no ids. */
  lemma ParseWithoutUnderscore(filename: string)
    requires '_' !in SplitExt(filename).0
    ensures ParseFilename(filename) == ParsedName(SplitExt(filename).0, false, "unknown", None, "",
                                                  SplitExt(filename).1, filename)
  {
    SplitNoSep(SplitExt(filename).0, '_');
  }

  /** The name is the stem up to the first underscore. */
  lemma ParsedNameIsStemPrefix(filename: string)
    ensures StartsWith(SplitExt(filename).0, ParseFilename(filename).studentName)
  {
    var root := SplitExt(filename).0;
    var parts := Split(root, '_');
    JoinSplit(root, '_');
    if |parts| >= 2 {
      JoinCons(parts[0], parts[1..], "_");
      assert parts == [parts[0]] + parts[1..];
    } else {
      SplitNoSep(root, '_');
    }
  }

  /** The tokens after the name in a composed file name. */
  function ComposeTail(late: bool, studentId: string, submissionId: string, rest: seq<string>): seq<string> {
    (if late then ["LATE"] else []) + [studentId, submissionId] + rest
  }

  /** The file name a submission system writes for the given parts. */
  function ComposeFilename(name: string, late: bool, studentId: string, submissionId: string,
                           rest: seq<string>, ext: string): string
  {
    Join([name] + ComposeTail(late, studentId, submissionId, rest), "_") + ext
  }

  predicate PlainToken(p: string) {
    '_' !in p && '.' !in p && '/' !in p
  }

  /** Parsing a composed file name recovers every part (remainder tokens may themselves be ids). */
  lemma ParseComposeRoundTrip(name: string, late: bool, studentId: string, submissionId: string,
                              rest: seq<string>, ext: string)
    requires PlainToken(name) && IsIdToken(studentId) && IsIdToken(submissionId)
    requires forall i :: 0 <= i < |rest| ==> PlainToken(rest[i])
    requires ext == "" || (ext[0] == '.' && '.' !in ext[1..] && '/' !in ext)
    ensures var f := ComposeFilename(name, late, studentId, submissionId, rest, ext);
      ParseFilename(f) == ParsedName(name, late, studentId, Some(submissionId), Join(rest, "_"), ext, f)
  {
    var tail := ComposeTail(late, studentId, submissionId, rest);
    var f := ComposeFilename(name, late, studentId, submissionId, rest, ext);
    ComposeTailPlain(name, late, studentId, submissionId, rest);
    ParseOfParts(f, [name] + tail, ext);
    assert ([name] + tail)[1..] == tail;
    TailAfterName(name, late, studentId, submissionId, rest, ext, f);
  }

  lemma ComposeTailPlain(name: string, late: bool, studentId: string, submissionId: string, rest: seq<string>)
    requires PlainToken(name) && IsIdToken(studentId) && IsIdToken(submissionId)
    requires forall i :: 0 <= i < |rest| ==> PlainToken(rest[i])
    ensures var parts := [name] + ComposeTail(late, studentId, submissionId, rest);
      |parts| >= 2 && forall i :: 0 <= i < |parts| ==> PlainToken(parts[i])
  {
    var parts := [name] + ComposeTail(late, studentId, submissionId, rest);
    IdTokenPlain(studentId);
    IdTokenPlain(submissionId);
    assert PlainToken("LATE");
    var k := |parts| - |rest|;
    forall i | 0 <= i < |parts| ensures PlainToken(parts[i]) {
      if i >= k {
        assert parts[i] == rest[i - k];
      } else if late {
        assert parts[i] in [name, "LATE", studentId, submissionId];
      } else {
        assert parts[i] in [name, studentId, submissionId];
      }
    }
  }

  lemma IdTokenPlain(s: string)
    requires IsIdToken(s)
    ensures PlainToken(s)
  {
    assert forall c :: c in s ==> IsDigit(c) by {
      forall c | c in s ensures IsDigit(c) {
        var i :| 0 <= i < |s| && s[i] == c;
      }
    }
  }

  /** Parsing `Join(parts, "_") + ext` sees exactly `parts` and `ext`. */
  lemma ParseOfParts(f: string, parts: seq<string>, ext: string)
    requires |parts| >= 2 && forall i :: 0 <= i < |parts| ==> PlainToken(parts[i])
    requires ext == "" || (ext[0] == '.' && '.' !in ext[1..] && '/' !in ext)
    requires f == Join(parts, "_") + ext
    ensures ParseFilename(f) == ParseTail(parts[0], parts[1..], ext, f)
  {
    var root := Join(parts, "_");
    SplitJoin(parts, '_');
    JoinPlain(parts);
    SplitExtOfPlainRoot(root, ext);
  }

  lemma TailAfterName(name: string, late: bool, studentId: string, submissionId: string, rest: seq<string>,
                      ext: string, f: string)
    requires IsIdToken(studentId) && IsIdToken(submissionId)
    ensures ParseTail(name, ComposeTail(late, studentId, submissionId, rest), ext, f)
      == ParsedName(name, late, studentId, Some(submissionId), Join(rest, "_"), ext, f)
  {
    var tail := ComposeTail(late, studentId, submissionId, rest);
    if late {
      assert tail[0] == "LATE";
      LateIsUpper();
    } else {
      assert tail[0] == studentId;
      assert Upper(studentId)[0] == studentId[0];
      assert IsDigit(studentId[0]);
    }
    assert tail[(if late then 1 else 0)..] == [studentId, submissionId] + rest;
    ScanAfterIds(studentId, submissionId, rest);
  }

  lemma {:induction false} JoinPlain(parts: seq<string>)
    requires |parts| >= 1 && forall i :: 0 <= i < |parts| ==> PlainToken(parts[i])
    ensures '.' !in Join(parts, "_") && '/' !in Join(parts, "_")
    ensures |parts| >= 2 ==> '_' in Join(parts, "_")
  {
    if |parts| >= 2 {
      JoinPlain(parts[1..]);
      assert Join(parts, "_")[|parts[0]|] == '_';
    }
  }

  lemma SplitExtOfPlainRoot(root: string, ext: string)
    requires '.' !in root && '/' !in root && '_' in root
    requires ext == "" || (ext[0] == '.' && '.' !in ext[1..] && '/' !in ext)
    ensures SplitExt(root + ext) == (root, ext)
  {
    SplitExtOfStem(root, ext);
  }

  /** A worked example of the file-name convention: a late submission. */
  lemma LateFilenameExample()
    ensures ParseFilename("lawfordjack_LATE_101445_22007124_HW8.py")
      == ParsedName("lawfordjack", true, "101445", Some("22007124"), "HW8", ".py",
                    "lawfordjack_LATE_101445_22007124_HW8.py")
  {
    var f := ComposeFilename("lawfordjack", true, "101445", "22007124", ["HW8"], ".py");
    assert IsIdToken("101445") && IsIdToken("22007124");
    ParseComposeRoundTrip("lawfordjack", true, "101445", "22007124", ["HW8"], ".py");
    ComposeExample1();
  }

  lemma ComposeExample1()
    ensures ComposeFilename("lawfordjack", true, "101445", "22007124", ["HW8"], ".py")
      == "lawfordjack_LATE_101445_22007124_HW8.py"
    ensures Join(["HW8"], "_") == "HW8"
  {
    var parts := ["lawfordjack", "LATE", "101445", "22007124", "HW8"];
    assert ["lawfordjack"] + ComposeTail(true, "101445", "22007124", ["HW8"]) == parts;
    JoinFive("lawfordjack", "LATE", "101445", "22007124", "HW8");
    assert "lawfordjack" + "_" + "LATE" == "lawfordjack_LATE";
    assert "lawfordjack_LATE" + "_" + "101445" == "lawfordjack_LATE_101445";
    assert "lawfordjack_LATE_101445" + "_" + "22007124" == "lawfordjack_LATE_101445_22007124";
    assert "lawfordjack_LATE_101445_22007124" + "_" + "HW8" == "lawfordjack_LATE_101445_22007124_HW8";
    assert "lawfordjack_LATE_101445_22007124_HW8" + ".py" == "lawfordjack_LATE_101445_22007124_HW8.py";
  }

  lemma JoinFive(a: string, b: string, c: string, d: string, e: string)
    ensures Join([a, b, c, d, e], "_") == a + "_" + b + "_" + c + "_" + d + "_" + e
  {
    assert Join([e], "_") == e;
    JoinCons(d, [e], "_");
    JoinCons(c, [d, e], "_");
    JoinCons(b, [c, d, e], "_");
    JoinCons(a, [b, c, d, e], "_");
    assert [a] + [b, c, d, e] == [a, b, c, d, e];
    assert [b] + [c, d, e] == [b, c, d, e];
    assert [c] + [d, e] == [c, d, e];
    assert [d] + [e] == [d, e];
  }

  /** `identify_student_key`: `{student_name}_{student_id}`. */
  function StudentKey(p: ParsedName): string {
    p.studentName + "_" + p.studentId
  }

  /** Neither part of a key contains an underscore, so the key determines the name and the id. */
  lemma StudentKeyInjective(a: ParsedName, b: ParsedName)
    requires '_' !in a.studentName && '_' !in a.studentId
    requires '_' !in b.studentName && '_' !in b.studentId
    ensures StudentKey(a) == StudentKey(b) <==> a.studentName == b.studentName && a.studentId == b.studentId
  {
    if StudentKey(a) == StudentKey(b) {
      SplitJoin([a.studentName, a.studentId], '_');
      SplitJoin([b.studentName, b.studentId], '_');
      assert Join([a.studentName, a.studentId], "_") == StudentKey(a);
      assert Join([b.studentName, b.studentId], "_") == StudentKey(b);
    }
  }

  lemma ParsedKeyParts(filename: string)
    ensures '_' !in ParseFilename(filename).studentName && '_' !in ParseFilename(filename).studentId
  {
    var id := ParseFilename(filename).studentId;
    if id != "unknown" {
      assert forall k :: 0 <= k < |id| ==> IsDigit(id[k]);
    }
  }

  function FileKey(path: string): string {
    StudentKey(ParseFilename(Basename(path)))
  }

  /** The items whose key is `k`, in input order. */
  function ItemsWithKey<T>(items: seq<T>, key: T -> string, k: string): (r: seq<T>)
    ensures |r| <= |items|
    ensures forall i :: 0 <= i < |r| ==> key(r[i]) == k
  {
    if |items| == 0 then []
    else
      var init := ItemsWithKey(items[..|items| - 1], key, k);
      var p := items[|items| - 1];
      if key(p) == k then init + [p] else init
  }

  /** `defaultdict(list)` grouping: one group per key in order of first appearance, each holding
      its items in input order. */
  function GroupByKey<T>(items: seq<T>, key: T -> string): Dict<seq<T>> {
    if |items| == 0 then []
    else
      var d := GroupByKey(items[..|items| - 1], key);
      var p := items[|items| - 1];
      Set(d, key(p), GetOr(d, key(p), []) + [p])
  }

  /** Each group holds exactly the items with its key, and no group is empty. */
  lemma {:induction false} GroupsAreFilters<T>(items: seq<T>, key: T -> string, k: string)
    ensures Get(GroupByKey(items, key), k) ==
      if ItemsWithKey(items, key, k) == [] then None else Some(ItemsWithKey(items, key, k))
    ensures DistinctKeys(GroupByKey(items, key))
  {
    if |items| > 0 {
      var init := items[..|items| - 1];
      var p := items[|items| - 1];
      var d := GroupByKey(init, key);
      GroupsAreFilters(init, key, k);
      GroupsAreFilters(init, key, key(p));
      SetGet(d, key(p), GetOr(d, key(p), []) + [p], k);
      SetKeepsDistinct(d, key(p), GetOr(d, key(p), []) + [p]);
    }
  }

  /** `group_files_by_student`: files grouped under `{student_name}_{student_id}`. */
  function GroupFilesByStudent(paths: seq<string>): Dict<seq<string>> {
    GroupByKey(paths, FileKey)
  }

  function TotalSize<T>(d: Dict<seq<T>>): nat {
    if |d| == 0 then 0 else TotalSize(d[..|d| - 1]) + |d[|d| - 1].1|
  }

  lemma {:induction false} TotalSizeUpdate<T>(d: Dict<seq<T>>, i: nat, v: seq<T>)
    requires i < |d|
    ensures TotalSize(d[i := (d[i].0, v)]) + |d[i].1| == TotalSize(d) + |v|
  {
    var d' := d[i := (d[i].0, v)];
    if i < |d| - 1 {
      assert d'[..|d| - 1] == d[..|d| - 1][i := (d[i].0, v)];
      TotalSizeUpdate(d[..|d| - 1], i, v);
    } else {
      assert d'[..|d| - 1] == d[..|d| - 1];
    }
  }

  /** Grouping neither loses nor duplicates an item. */
  lemma {:induction false} GroupingKeepsEveryItem<T>(items: seq<T>, key: T -> string)
    ensures TotalSize(GroupByKey(items, key)) == |items|
  {
    if |items| > 0 {
      var init := items[..|items| - 1];
      var p := items[|items| - 1];
      var d := GroupByKey(init, key);
      GroupingKeepsEveryItem(init, key);
      var k := key(p);
      var i := IndexOf(d, k);
      if i >= 0 {
        TotalSizeUpdate(d, i, d[i].1 + [p]);
        assert d[i := (k, d[i].1 + [p])] == d[i := (d[i].0, d[i].1 + [p])];
      } else {
        assert (d + [(k, [p])])[..|d|] == d;
      }
    }
  }

  /** The name and id a path's file name parses to. */
  function NameAndId(path: string): (string, string) {
    var p := ParseFilename(Basename(path));
    (p.studentName, p.studentId)
  }

  /** Every item of `items` has the same `view` as `first`. */
  function AllAgree<T>(items: seq<T>, view: T -> (string, string), first: (string, string)): (ok: bool)
    ensures ok <==> forall i :: 0 <= i < |items| ==> view(items[i]) == first
  {
    if |items| == 0 then true
    else view(items[0]) == first && AllAgree(items[1..], view, first)
  }

  /** The consistency check for any notion of "who a file belongs to": every item agrees with the first. */
  function ConsistentGroup<T>(items: seq<T>, view: T -> (string, string)): (ok: bool)
    ensures ok <==> forall i :: 0 <= i < |items| ==> view(items[i]) == view(items[0])
  {
    |items| <= 1 || AllAgree(items[1..], view, view(items[0]))
  }

  /** `validate_group_consistency`: every file of the group parses to the first file's name and id. */
  function ValidateGroupConsistency(paths: seq<string>): bool {
    ConsistentGroup(paths, NameAndId)
  }

  /** Files with the same key parse to the same name and id. */
  lemma SameKeySameStudent(a: string, b: string)
    requires FileKey(a) == FileKey(b)
    ensures NameAndId(a) == NameAndId(b)
  {
    ParsedKeyParts(Basename(a));
    ParsedKeyParts(Basename(b));
    StudentKeyInjective(ParseFilename(Basename(a)), ParseFilename(Basename(b)));
  }

  /** Every group the grouper builds passes the consistency check. */
  lemma GroupsAreConsistent(paths: seq<string>, k: string)
    requires Get(GroupFilesByStudent(paths), k).Some?
    ensures ValidateGroupConsistency(Get(GroupFilesByStudent(paths), k).value)
  {
    GroupsAreFilters(paths, FileKey, k);
    var g := ItemsWithKey(paths, FileKey, k);
    forall i | 0 <= i < |g| ensures NameAndId(g[i]) == NameAndId(g[0]) {
      SameKeySameStudent(g[i], g[0]);
    }
    assert ConsistentGroup(g, NameAndId);
  }

  datatype StudentInfo = StudentInfo(studentName: string, studentId: string, isLate: bool,
                                     fileCount: nat, submissionId: Option<string>)

  /** `get_student_info`: read from the first file; the count covers the whole group. */
  function GetStudentInfo(paths: seq<string>): (r: StudentInfo)
    ensures r.fileCount == |paths|
    ensures |paths| == 0 ==> r == StudentInfo("unknown", "unknown", false, 0, None)
    ensures |paths| > 0 ==> (r.studentName, r.studentId) == NameAndId(paths[0])
  {
    if |paths| == 0 then StudentInfo("unknown", "unknown", false, 0, None)
    else
      var p := ParseFilename(Basename(paths[0]));
      StudentInfo(p.studentName, p.studentId, p.isLate, |paths|, p.submissionId)
  }

  /** For a group built by the grouper, the info read from its first file describes every file. */
  lemma GroupInfoDescribesEveryFile(paths: seq<string>, k: string, i: nat)
    requires Get(GroupFilesByStudent(paths), k).Some?
    requires i < |Get(GroupFilesByStudent(paths), k).value|
    ensures var g := Get(GroupFilesByStudent(paths), k).value;
      (GetStudentInfo(g).studentName, GetStudentInfo(g).studentId) == NameAndId(g[i])
  {
    GroupsAreConsistent(paths, k);
  }

  /** `sort_files_by_name`: the same files, ordered by file name. */
  function SortFilesByName(paths: seq<string>): (r: seq<string>)
    ensures multiset(r) == multiset(paths)
    ensures forall i, j :: 0 <= i < j < |r| ==> StrLe(Basename(r[i]), Basename(r[j]))
  {
    SortByKey(paths, Basename)
  }

  datatype FileKind = Code | Document | Other

  /** The kind of a file by its lower-cased extension. */
  function KindOf(path: string): FileKind {
    var ext := Lower(SplitExt(path).1);
    if ext in [".py", ".java", ".cpp", ".c", ".js", ".ts"] then Code
    else if ext in [".pdf", ".docx", ".txt", ".doc", ".md"] then Document
    else Other
  }

  function ItemsOfKind<T>(items: seq<T>, classify: T -> FileKind, kind: FileKind): (r: seq<T>)
    ensures forall i :: 0 <= i < |r| ==> classify(r[i]) == kind
  {
    if |items| == 0 then []
    else
      var init := ItemsOfKind(items[..|items| - 1], classify, kind);
      if classify(items[|items| - 1]) == kind then init + [items[|items| - 1]] else init
  }

  /** The three kinds split the list: every item lands in exactly one of them. */
  ghost predicate Partitioned<T>(items: seq<T>, classify: T -> FileKind) {
    multiset(ItemsOfKind(items, classify, Code)) + multiset(ItemsOfKind(items, classify, Document))
      + multiset(ItemsOfKind(items, classify, Other)) == multiset(items)
  }

  /** The three kinds split any list. */
  lemma {:induction false} KindsPartition<T>(items: seq<T>, classify: T -> FileKind)
    ensures Partitioned(items, classify)
  {
    if |items| > 0 {
      KindsPartition(items[..|items| - 1], classify);
      KindsStep(items, classify);
    }
  }

  /** The last item adds itself to exactly one kind. */
  lemma KindsStep<T>(items: seq<T>, classify: T -> FileKind)
    requires |items| > 0 && Partitioned(items[..|items| - 1], classify)
    ensures Partitioned(items, classify)
  {
    LastBag(items);
  }

  lemma LastBag<T>(items: seq<T>)
    requires |items| > 0
    ensures multiset(items) == multiset(items[..|items| - 1]) + multiset{items[|items| - 1]}
  {
    assert items == items[..|items| - 1] + [items[|items| - 1]];
  }

  datatype Categorized = Categorized(code: seq<string>, document: seq<string>, other: seq<string>)

  /** `categorize_files_by_type`: code, documents and everything else, each in input order. */
  function CategorizeFilesByType(paths: seq<string>): (r: Categorized)
    ensures multiset(r.code) + multiset(r.document) + multiset(r.other) == multiset(paths)
    ensures forall i :: 0 <= i < |r.code| ==> KindOf(r.code[i]) == Code
    ensures forall i :: 0 <= i < |r.document| ==> KindOf(r.document[i]) == Document
    ensures forall i :: 0 <= i < |r.other| ==> KindOf(r.other[i]) == Other
  {
    KindsPartition(paths, KindOf);
    Categorized(ItemsOfKind(paths, KindOf, Code), ItemsOfKind(paths, KindOf, Document),
                ItemsOfKind(paths, KindOf, Other))
  }

  /** The extension decides the kind, whatever the case of its letters. */
  lemma UpperCaseCodeExample()
    ensures KindOf("/path/Helper.JAVA") == Code
  {
    SplitExtOfStem("/path/Helper", ".JAVA");
    assert "/path/Helper" + ".JAVA" == "/path/Helper.JAVA";
    assert Lower(".JAVA") == ".java";
  }

  lemma DocumentExample()
    ensures KindOf("/path/readme.pdf") == Document
  {
    SplitExtOfStem("/path/readme", ".pdf");
    assert "/path/readme" + ".pdf" == "/path/readme.pdf";
    assert Lower(".pdf") == ".pdf";
  }

  lemma OtherExample()
    ensures KindOf("/path/diagram.png") == Other
  {
    SplitExtOfStem("/path/diagram", ".png");
    assert "/path/diagram" + ".png" == "/path/diagram.png";
    assert Lower(".png") == ".png";
  }
}
