/** The output stage: the CSV column order, the letter-grade distribution, the per-question and
    per-batch score statistics, and the list of submissions flagged for review. Writing the
    files, the timestamps and the console printing are not modelled. */
module OutputManager {
  import opened Wrappers
  import opened PyDict
  import opened GradingResult
  import Sorting
  import opened Seqs

  // ----- CSV columns -----

  /** Appends the keys not yet present, in order. */
  function AddNew(cols: seq<string>, ks: seq<string>): (r: seq<string>)
    ensures Distinct(cols) ==> Distinct(r)
    ensures |cols| <= |r| && r[..|cols|] == cols
    ensures forall k :: k in r <==> k in cols || k in ks
    decreases |ks|
  {
    if ks == [] then cols
    else
      var next := if ks[0] in cols then cols else cols + [ks[0]];
      assert next[..|cols|] == cols;
      var r := AddNew(next, ks[1..]);
      assert r[..|cols|] == r[..|next|][..|cols|];
      assert ks == [ks[0]] + ks[1..];
      r
  }

  /** Keys none of which are present yet and which do not repeat are appended as they are. */
  lemma {:induction false} AddNewFresh(cols: seq<string>, ks: seq<string>)
    requires Distinct(ks) && forall k :: k in ks ==> k !in cols
    ensures AddNew(cols, ks) == cols + ks
    decreases |ks|
  {
    if ks != [] {
      var next := cols + [ks[0]];
      FreshTail(cols, ks);
      AddNewFresh(next, ks[1..]);
      AddNewUnfold(cols, ks);
      AppendFront(cols, ks);
    }
  }

  lemma AppendFront(cols: seq<string>, ks: seq<string>)
    requires ks != []
    ensures (cols + [ks[0]]) + ks[1..] == cols + ks
  {
    assert ks == [ks[0]] + ks[1..];
  }

  /** One step of `AddNew` on a key not yet present. */
  lemma AddNewUnfold(cols: seq<string>, ks: seq<string>)
    requires ks != [] && ks[0] !in cols
    ensures AddNew(cols, ks) == AddNew(cols + [ks[0]], ks[1..])
  {
  }

  /** The rest of fresh, non-repeating keys is fresh after the first is appended. */
  lemma FreshTail(cols: seq<string>, ks: seq<string>)
    requires ks != [] && Distinct(ks) && forall k :: k in ks ==> k !in cols
    ensures Distinct(ks[1..]) && forall k :: k in ks[1..] ==> k !in cols + [ks[0]]
  {
    forall k | k in ks[1..] ensures k !in cols + [ks[0]] {
      var j :| 0 <= j < |ks[1..]| && ks[1..][j] == k;
      assert ks[j + 1] != ks[0];
    }
  }

  /** The columns of a table built from rows of dictionaries: every key of every row, in order
      of first appearance. */
  function Columns(rows: seq<Dict<Cell>>): (cols: seq<string>)
    ensures Distinct(cols)
    ensures forall k :: k in cols <==> exists i :: 0 <= i < |rows| && HasKey(rows[i], k)
  {
    if rows == [] then []
    else
      var init := rows[..|rows| - 1];
      var last := rows[|rows| - 1];
      KeysAreHasKey(last);
      assert forall k :: (exists i :: 0 <= i < |rows| && HasKey(rows[i], k)) <==>
                         (exists i :: 0 <= i < |init| && HasKey(init[i], k)) || HasKey(last, k) by {
        assert forall i :: 0 <= i < |init| ==> init[i] == rows[i];
      }
      AddNew(Columns(init), Keys(last))
  }

  /** The first row's keys, when they do not repeat, are the first columns in their order. */
  lemma {:induction false} FirstRowLeads(rows: seq<Dict<Cell>>)
    requires |rows| > 0 && DistinctKeys(rows[0])
    ensures |Columns(rows)| >= |rows[0]| && Columns(rows)[..|rows[0]|] == Keys(rows[0])
  {
    if |rows| == 1 {
      assert rows[..0] == [];
      AddNewFresh([], Keys(rows[0]));
    } else {
      var init := rows[..|rows| - 1];
      FirstRowLeads(init);
      var c := Columns(init);
      var r := AddNew(c, Keys(rows[|rows| - 1]));
      assert r[..|c|] == c;
      assert r[..|rows[0]|] == r[..|c|][..|rows[0]|];
    }
  }

  const PriorityColumns: seq<string> :=
    ["student_name", "student_id", "total_score", "max_score", "percentage", "letter_grade"]

  predicate IsPriority(c: string) {
    c in PriorityColumns
  }

  predicate NotPriority(c: string) {
    c !in PriorityColumns
  }

  /** `col in columns`, as a guard. */
  function InSeq(cols: seq<string>): string -> bool {
    c => c in cols
  }

  /** `col not in columns`, as a guard. */
  function NotInSeq(cols: seq<string>): string -> bool {
    c => c !in cols
  }

  lemma PriorityColumnsDistinct()
    ensures Distinct(PriorityColumns)
  {
  }

  /** The two blocks of the column order together hold every column exactly once. */
  lemma JoinedBlocksPermute(all: seq<string>, first: seq<string>, rest: seq<string>)
    requires Distinct(all)
    requires first == Filter(PriorityColumns, InSeq(all)) && rest == Filter(all, NotInSeq(first))
    ensures Distinct(first + rest) && multiset(first + rest) == multiset(all)
  {
    JoinedBlocksCount(all, first, rest);
    PriorityColumnsDistinct();
    FilterDistinct(PriorityColumns, InSeq(all));
    FilterDistinct(all, NotInSeq(first));
    DistinctConcat(first, rest);
  }

  lemma JoinedBlocksCount(all: seq<string>, first: seq<string>, rest: seq<string>)
    requires Distinct(all)
    requires first == Filter(PriorityColumns, InSeq(all)) && rest == Filter(all, NotInSeq(first))
    ensures multiset(first + rest) == multiset(all)
  {
    PriorityColumnsDistinct();
    BlocksCount(all, PriorityColumns, first, rest);
  }

  /** The chosen members of `all`, in the order of `lead`, and then the rest of `all`: every
      member of `all` once. */
  lemma BlocksCount(all: seq<string>, lead: seq<string>, first: seq<string>, rest: seq<string>)
    requires Distinct(all) && Distinct(lead)
    requires first == Filter(lead, InSeq(all)) && rest == Filter(all, NotInSeq(first))
    ensures multiset(first + rest) == multiset(all)
  {
    DistinctCounts(all);
    DistinctCounts(lead);
    FilterCounts(lead, InSeq(all));
    FilterCounts(all, NotInSeq(first));
    forall c ensures multiset(first + rest)[c] == multiset(all)[c] {
      assert multiset(first + rest)[c] == multiset(first)[c] + multiset(rest)[c];
      if c in first {
        assert multiset(first)[c] == 1 && multiset(rest)[c] == 0 && c in all;
      } else {
        assert multiset(first)[c] == 0;
      }
    }
  }

  lemma DistinctConcat<T>(a: seq<T>, b: seq<T>)
    requires Distinct(a) && Distinct(b) && forall x :: x in a ==> x !in b
    ensures Distinct(a + b)
  {
    var r := a + b;
    forall i, j | 0 <= i < j < |r| ensures r[i] != r[j] {
      if j < |a| {
        assert r[i] == a[i] && r[j] == a[j];
      } else if i >= |a| {
        assert r[i] == b[i - |a|] && r[j] == b[j - |a|];
      } else {
        assert r[i] in a && r[j] == b[j - |a|];
      }
    }
  }

  /** The CSV column order: the priority columns that are present, in their fixed order, then
      every other column in its original order. */
  function OrderColumns(all: seq<string>): (r: seq<string>)
    ensures forall c :: c in r <==> c in all
    ensures forall i, j :: 0 <= i < j < |r| && IsPriority(r[j]) ==> IsPriority(r[i])
  {
    var first := Filter(PriorityColumns, InSeq(all));
    var rest := Filter(all, NotInSeq(first));
    assert forall c :: c in rest ==> NotPriority(c);
    first + rest
  }

  /** For columns without repeats the order is a permutation of them. */
  lemma OrderColumnsPermutes(all: seq<string>)
    requires Distinct(all)
    ensures Distinct(OrderColumns(all)) && multiset(OrderColumns(all)) == multiset(all)
  {
    var first := Filter(PriorityColumns, InSeq(all));
    JoinedBlocksPermute(all, first, Filter(all, NotInSeq(first)));
  }

  /** The priority columns come in their fixed order and the others in their original order. */
  lemma OrderColumnsKeepsOrder(all: seq<string>)
    ensures Filter(OrderColumns(all), IsPriority) == Filter(PriorityColumns, InSeq(all))
    ensures Filter(OrderColumns(all), NotPriority) == Filter(all, NotPriority)
  {
    var first := Filter(PriorityColumns, InSeq(all));
    var rest := Filter(all, NotInSeq(first));
    assert forall c :: c in rest ==> NotPriority(c);
    FilterAppend(first, rest, IsPriority);
    FilterAppend(first, rest, NotPriority);
    FilterKeepsNone(rest, IsPriority);
    FilterKeepsNone(first, NotPriority);
    FilterKeepsAll(first, IsPriority);
    FilterTwice(all, NotInSeq(first), NotPriority);
  }

  function FlatRows(gs: seq<AssignmentGrade>): (rows: seq<Dict<Cell>>)
    ensures |rows| == |gs| && forall i :: 0 <= i < |gs| ==> rows[i] == FlatRow(gs[i])
  {
    seq(|gs|, i requires 0 <= i < |gs| => FlatRow(gs[i]))
  }

  /** The CSV header: every column of every grade's flat row, once, priority columns first. */
  function CsvHeader(gs: seq<AssignmentGrade>): (cols: seq<string>)
    ensures Distinct(cols)
    ensures forall c :: c in cols <==> exists i :: 0 <= i < |gs| && HasKey(FlatRow(gs[i]), c)
  {
    var all := Columns(FlatRows(gs));
    OrderColumnsPermutes(all);
    OrderColumns(all)
  }

  /** Every priority column is one of the summary columns of a flat row. */
  lemma PriorityColumnsAreSummary()
    ensures forall c :: c in PriorityColumns ==> c in SummaryColumns
  {
    assert PriorityColumns[0] == SummaryColumns[0] && PriorityColumns[1] == SummaryColumns[1];
    assert PriorityColumns[2] == SummaryColumns[5] && PriorityColumns[3] == SummaryColumns[6];
    assert PriorityColumns[4] == SummaryColumns[7] && PriorityColumns[5] == SummaryColumns[8];
  }

  lemma PriorityColumnsPresent(gs: seq<AssignmentGrade>)
    requires |gs| > 0
    ensures forall c :: c in PriorityColumns ==> c in Columns(FlatRows(gs))
  {
    var rows := FlatRows(gs);
    PriorityColumnsAreSummary();
    forall c | c in PriorityColumns ensures c in Columns(rows) {
      assert HasKey(rows[0], c);
    }
  }

  /** With at least one grade the header starts with all six priority columns, in order. */
  lemma HeaderStartsWithPriority(gs: seq<AssignmentGrade>)
    requires |gs| > 0
    ensures |CsvHeader(gs)| >= |PriorityColumns|
    ensures CsvHeader(gs)[..|PriorityColumns|] == PriorityColumns
  {
    var all := Columns(FlatRows(gs));
    var r := CsvHeader(gs);
    assert Filter(r, IsPriority) == PriorityColumns by {
      PriorityColumnsPresent(gs);
      FilterKeepsAll(PriorityColumns, InSeq(all));
      OrderColumnsKeepsOrder(all);
    }
    PriorityBlock(r);
  }

  /** A sequence whose priority members come first and are exactly the priority columns in order
      starts with them. */
  lemma PriorityBlock(r: seq<string>)
    requires Filter(r, IsPriority) == PriorityColumns
    requires forall i, j :: 0 <= i < j < |r| && IsPriority(r[j]) ==> IsPriority(r[i])
    ensures |r| >= |PriorityColumns| && r[..|PriorityColumns|] == PriorityColumns
  {
    FilterLeads(r, IsPriority);
  }

  // ----- Letter-grade distribution -----

  /** The distribution dictionary, whose keys are fixed to A, B, C, D and F in that order. */
  datatype LetterCounts = LetterCounts(a: nat, b: nat, c: nat, d: nat, f: nat)

  predicate IsLetter(l: string) {
    l == "A" || l == "B" || l == "C" || l == "D" || l == "F"
  }

  /** `distribution.get(letter)` */
  function CountFor(dist: LetterCounts, letter: string): (r: Option<nat>)
    ensures r.Some? <==> IsLetter(letter)
  {
    if letter == "A" then Some(dist.a)
    else if letter == "B" then Some(dist.b)
    else if letter == "C" then Some(dist.c)
    else if letter == "D" then Some(dist.d)
    else if letter == "F" then Some(dist.f)
    else None
  }

  function Sum(dist: LetterCounts): nat {
    dist.a + dist.b + dist.c + dist.d + dist.f
  }

  /** `if letter in distribution: distribution[letter] += 1` */
  function Tally(dist: LetterCounts, letter: string): (r: LetterCounts)
    ensures IsLetter(letter) ==> CountFor(r, letter) == Some(CountFor(dist, letter).value + 1)
    ensures IsLetter(letter) ==> Sum(r) == Sum(dist) + 1
    ensures !IsLetter(letter) ==> r == dist
    ensures forall k :: k != letter ==> CountFor(r, k) == CountFor(dist, k)
  {
    if letter == "A" then dist.(a := dist.a + 1)
    else if letter == "B" then dist.(b := dist.b + 1)
    else if letter == "C" then dist.(c := dist.c + 1)
    else if letter == "D" then dist.(d := dist.d + 1)
    else if letter == "F" then dist.(f := dist.f + 1)
    else dist
  }

  /** How many of the letters are `letter`. */
  function CountLetter(ls: seq<string>, letter: string): (n: nat)
    ensures n <= |ls|
  {
    if ls == [] then 0
    else CountLetter(ls[..|ls| - 1], letter) + (if ls[|ls| - 1] == letter then 1 else 0)
  }

  /** The distribution loop over the grades' letters, in grade order: each key counts its
      letter, a letter outside the keys is dropped, so the counts add up to the number of
      letters exactly when every letter is a key. */
  function Distribution(ls: seq<string>): (dist: LetterCounts)
    ensures dist == LetterCounts(CountLetter(ls, "A"), CountLetter(ls, "B"), CountLetter(ls, "C"),
                                 CountLetter(ls, "D"), CountLetter(ls, "F"))
    ensures Sum(dist) <= |ls|
    ensures (forall i :: 0 <= i < |ls| ==> IsLetter(ls[i])) ==> Sum(dist) == |ls|
  {
    if ls == [] then LetterCounts(0, 0, 0, 0, 0)
    else
      var init := ls[..|ls| - 1];
      assert forall i :: 0 <= i < |init| ==> init[i] == ls[i];
      var d := Distribution(init);
      TallyCounts(d, ls[|ls| - 1]);
      Tally(d, ls[|ls| - 1])
  }

  /** Tallying a letter adds one to its own count and nothing to the others. */
  lemma TallyCounts(d: LetterCounts, x: string)
    ensures Tally(d, x) == LetterCounts(d.a + (if x == "A" then 1 else 0), d.b + (if x == "B" then 1 else 0),
                                        d.c + (if x == "C" then 1 else 0), d.d + (if x == "D" then 1 else 0),
                                        d.f + (if x == "F" then 1 else 0))
  {
  }

  function GradeLetters(gs: seq<AssignmentGrade>): (ls: seq<string>)
    ensures |ls| == |gs| && forall i :: 0 <= i < |gs| ==> ls[i] == GradeLetter(gs[i])
  {
    seq(|gs|, i requires 0 <= i < |gs| => GradeLetter(gs[i]))
  }

  /** Under the default scale every grade carries one of the five letters. */
  lemma LetterIsCounted(g: AssignmentGrade)
    ensures IsLetter(GradeLetter(g))
  {
    DefaultScaleBands(GradePercentage(g));
  }

  /** `_calculate_grade_distribution`: each of A, B, C, D, F with the number of grades carrying
      that letter under the default scale; the counts add up to the number of grades, so no grade
      is dropped or counted twice. */
  function GradeDistribution(gs: seq<AssignmentGrade>): (dist: LetterCounts)
    ensures forall l :: IsLetter(l) ==> CountFor(dist, l) == Some(CountLetter(GradeLetters(gs), l))
    ensures Sum(dist) == |gs|
  {
    var ls := GradeLetters(gs);
    assert forall l :: IsLetter(l) ==> CountFor(Distribution(ls), l) == Some(CountLetter(ls, l));
    assert forall i :: 0 <= i < |ls| ==> IsLetter(ls[i]) by {
      forall i | 0 <= i < |ls| ensures IsLetter(ls[i]) {
        LetterIsCounted(gs[i]);
      }
    }
    Distribution(ls)
  }

  // ----- Score statistics -----

  function Total(s: seq<real>): real {
    if s == [] then 0.0 else Total(s[..|s| - 1]) + s[|s| - 1]
  }

  lemma {:induction false} TotalBounds(s: seq<real>, lo: real, hi: real)
    requires forall i :: 0 <= i < |s| ==> lo <= s[i] <= hi
    ensures (|s| as real) * lo <= Total(s) <= (|s| as real) * hi
  {
    if s != [] {
      TotalBounds(s[..|s| - 1], lo, hi);
    }
  }

  function Highest(s: seq<real>): (m: real)
    requires |s| > 0
    ensures m in s && forall i :: 0 <= i < |s| ==> s[i] <= m
  {
    if |s| == 1 then s[0]
    else
      var m := Highest(s[1..]);
      assert forall i :: 1 <= i < |s| ==> s[i] == s[1..][i - 1];
      if s[0] >= m then s[0] else m
  }

  function Lowest(s: seq<real>): (m: real)
    requires |s| > 0
    ensures m in s && forall i :: 0 <= i < |s| ==> m <= s[i]
  {
    if |s| == 1 then s[0]
    else
      var m := Lowest(s[1..]);
      assert forall i :: 1 <= i < |s| ==> s[i] == s[1..][i - 1];
      if s[0] <= m then s[0] else m
  }

  function Below(m: real): real -> bool {
    x => x < m
  }

  function Above(m: real): real -> bool {
    x => x > m
  }

  function AtLeast(m: real): real -> bool {
    x => x >= m
  }

  predicate IsZero(x: real) {
    x == 0.0
  }

  /** In ascending order, fewer than `k` elements lie below the `k`-th and fewer than the
      remaining ones above it. */
  lemma SortedRank(r: seq<real>, k: nat)
    requires k < |r| && forall i, j :: 0 <= i < j < |r| ==> r[i] <= r[j]
    ensures |Filter(r, Below(r[k]))| <= k
    ensures |Filter(r, Above(r[k]))| <= |r| - k - 1
  {
    assert r == r[..k] + r[k..];
    FilterAppend(r[..k], r[k..], Below(r[k]));
    FilterKeepsNone(r[k..], Below(r[k]));
    assert r == r[..k + 1] + r[k + 1..];
    FilterAppend(r[..k + 1], r[k + 1..], Above(r[k]));
    FilterKeepsNone(r[..k + 1], Above(r[k]));
  }

  /** `sorted(scores)[len(scores) // 2]` */
  function Median(scores: seq<real>): (m: real)
    requires |scores| > 0
    ensures m in scores
    ensures |Filter(scores, Below(m))| <= |scores| / 2
    ensures |Filter(scores, Above(m))| < |scores| - |scores| / 2
  {
    var sorted := Sorting.SortReals(scores);
    var m := sorted[|scores| / 2];
    assert m in multiset(scores) by {
      assert m in multiset(sorted);
    }
    SortedRank(sorted, |scores| / 2);
    FilterPermutation(scores, sorted, Below(m));
    FilterPermutation(scores, sorted, Above(m));
    m
  }

  /** `sum(scores) / len(scores)` */
  function Average(scores: seq<real>): (avg: real)
    requires |scores| > 0
    ensures avg * (|scores| as real) == Total(scores)
  {
    Total(scores) / (|scores| as real)
  }

  /** The average lies between any bounds of the scores. */
  lemma AverageBounds(scores: seq<real>, lo: real, hi: real)
    requires |scores| > 0 && forall i :: 0 <= i < |scores| ==> lo <= scores[i] <= hi
    ensures lo <= Average(scores) <= hi
  {
    var n := |scores| as real;
    var avg := Average(scores);
    assert avg * n == Total(scores);
    TotalBounds(scores, lo, hi);
    if avg < lo {
      ScaleStrict(avg, lo, n);
    }
    if avg > hi {
      ScaleStrict(hi, avg, n);
    }
  }

  lemma ScaleStrict(a: real, b: real, n: real)
    requires a < b && n > 0.0
    ensures a * n < b * n
  {
  }

  /** The statistics written for a list of scores against a maximum (per question, and for the
      whole batch against the first grade's maximum). */
  datatype ScoreStats = ScoreStats(
    count: nat,
    maxScore: real,
    average: real,
    median: real,
    highest: real,
    lowest: real,
    averagePercentage: real,
    zeros: nat,
    fulls: nat)

  function StatsOf(scores: seq<real>, maxScore: real): (st: ScoreStats)
    requires |scores| > 0
    ensures st.count == |scores| && st.maxScore == maxScore
    ensures st.lowest in scores && st.highest in scores && st.median in scores
    ensures forall i :: 0 <= i < |scores| ==> st.lowest <= scores[i] <= st.highest
    ensures st.average == Average(scores) && st.lowest <= st.average <= st.highest
    ensures |Filter(scores, Below(st.median))| <= |scores| / 2
    ensures |Filter(scores, Above(st.median))| < |scores| - |scores| / 2
    ensures st.averagePercentage == Percentage(st.average, maxScore)
    ensures st.zeros <= |scores| && (st.zeros == 0 <==> forall i :: 0 <= i < |scores| ==> scores[i] != 0.0)
    ensures st.fulls <= |scores| && (st.fulls == |scores| <==> forall i :: 0 <= i < |scores| ==> scores[i] >= maxScore)
  {
    var lo := Lowest(scores);
    var hi := Highest(scores);
    var avg := Average(scores);
    AverageBounds(scores, lo, hi);
    var zeros := Filter(scores, IsZero);
    FilterKeepsNone(scores, IsZero);
    var fulls := Filter(scores, AtLeast(maxScore));
    FilterKeepsAll(scores, AtLeast(maxScore));
    ScoreStats(|scores|, maxScore, avg, Median(scores), hi, lo, Percentage(avg, maxScore), |zeros|, |fulls|)
  }

  // ----- Per-question statistics -----

  predicate HasQuestion(g: AssignmentGrade, id: string) {
    exists i :: 0 <= i < |g.questions| && g.questions[i].questionId == id
  }

  /** The first entry for `id` in a submission's grades (the inner loop's `break`). */
  function FirstMatch(qs: seq<QuestionGrade>, id: string): (r: Option<QuestionGrade>)
    ensures r.None? <==> forall i :: 0 <= i < |qs| ==> qs[i].questionId != id
    ensures r.Some? ==> exists i :: 0 <= i < |qs| && qs[i] == r.value && r.value.questionId == id
                         && forall j :: 0 <= j < i ==> qs[j].questionId != id
  {
    if qs == [] then None
    else if qs[0].questionId == id then Some(qs[0])
    else
      var r := FirstMatch(qs[1..], id);
      assert forall i :: 1 <= i < |qs| ==> qs[i] == qs[1..][i - 1];
      assert r.Some? ==> exists i :: 0 <= i < |qs| && qs[i] == r.value && r.value.questionId == id
                                     && forall j :: 0 <= j < i ==> qs[j].questionId != id by {
        if r.Some? {
          var i :| 0 <= i < |qs[1..]| && qs[1..][i] == r.value && r.value.questionId == id
                   && forall j :: 0 <= j < i ==> qs[1..][j].questionId != id;
          assert qs[i + 1] == r.value;
        }
      }
      r
  }

  /** The first entry for `id` of every grade that has one, in grade order. */
  function Matches(gs: seq<AssignmentGrade>, id: string): (ms: seq<QuestionGrade>)
    ensures |ms| <= |gs|
    ensures forall k :: 0 <= k < |ms| ==> ms[k].questionId == id
    ensures |ms| == |gs| <==> forall i :: 0 <= i < |gs| ==> HasQuestion(gs[i], id)
    ensures |ms| > 0 <==> exists i :: 0 <= i < |gs| && HasQuestion(gs[i], id)
  {
    if gs == [] then []
    else
      var init := gs[..|gs| - 1];
      var last := gs[|gs| - 1];
      var m := FirstMatch(last.questions, id);
      assert forall i :: 0 <= i < |init| ==> init[i] == gs[i];
      assert m.Some? <==> HasQuestion(last, id);
      Matches(init, id) + (if m.Some? then [m.value] else [])
  }

  function Scores(qs: seq<QuestionGrade>): (s: seq<real>)
    ensures |s| == |qs| && forall i :: 0 <= i < |qs| ==> s[i] == qs[i].score
  {
    seq(|qs|, i requires 0 <= i < |qs| => qs[i].score)
  }

  /** Every question id used by any grade. */
  function QuestionIds(gs: seq<AssignmentGrade>): set<string> {
    set i, j | 0 <= i < |gs| && 0 <= j < |gs[i].questions| :: gs[i].questions[j].questionId
  }

  /** The statistics for one question id: over the first entry for it in each grade that has
      one, against the maximum of the last such entry. */
  function QuestionStats(gs: seq<AssignmentGrade>, id: string): (st: ScoreStats)
    requires id in QuestionIds(gs)
    ensures 1 <= st.count <= |gs|
    ensures st.count == |gs| <==> forall i :: 0 <= i < |gs| ==> HasQuestion(gs[i], id)
  {
    var ms := Matches(gs, id);
    assert |ms| > 0 by {
      var i, j :| 0 <= i < |gs| && 0 <= j < |gs[i].questions| && gs[i].questions[j].questionId == id;
      assert HasQuestion(gs[i], id);
    }
    StatsOf(Scores(ms), ms[|ms| - 1].maxScore)
  }

  /** `_calculate_question_statistics`: one entry per question id any grade uses; none without
      grades. */
  function QuestionStatistics(gs: seq<AssignmentGrade>): (r: map<string, ScoreStats>)
    ensures r.Keys == QuestionIds(gs)
    ensures gs == [] ==> r == map[]
    ensures forall id :: id in r ==> r[id] == QuestionStats(gs, id)
  {
    var ids := QuestionIds(gs);
    map id | id in ids :: QuestionStats(gs, id)
  }

  // ----- Flagged submissions and the summaries -----

  datatype FlaggedEntry = FlaggedEntry(studentName: string, reason: Option<string>, score: real)

  function Entry(g: AssignmentGrade): FlaggedEntry {
    FlaggedEntry(g.studentName, g.reviewReason, g.totalScore)
  }

  /** The `flagged_for_review` list: one entry per grade that requires human review. */
  function Flagged(gs: seq<AssignmentGrade>): (r: seq<FlaggedEntry>)
    ensures |r| <= |gs|
    ensures forall e :: e in r <==> exists i :: 0 <= i < |gs| && gs[i].requiresHumanReview && e == Entry(gs[i])
  {
    if gs == [] then []
    else
      var init := gs[..|gs| - 1];
      var last := gs[|gs| - 1];
      assert forall i :: 0 <= i < |init| ==> init[i] == gs[i];
      Flagged(init) + (if last.requiresHumanReview then [Entry(last)] else [])
  }

  /** The flagged list keeps input order: flagging a concatenation flags each part in turn. */
  lemma {:induction false} FlaggedAppend(a: seq<AssignmentGrade>, b: seq<AssignmentGrade>)
    ensures Flagged(a + b) == Flagged(a) + Flagged(b)
  {
    if b != [] {
      assert (a + b)[..|a + b| - 1] == a + b[..|b| - 1];
      assert (a + b)[|a + b| - 1] == b[|b| - 1];
      FlaggedAppend(a, b[..|b| - 1]);
    } else {
      assert a + b == a;
    }
  }

  /** The `requires_review` count of the console summary. */
  function ReviewCount(gs: seq<AssignmentGrade>): nat {
    if gs == [] then 0 else (if gs[0].requiresHumanReview then 1 else 0) + ReviewCount(gs[1..])
  }

  /** The console count and the flagged list agree. */
  lemma {:induction false} ReviewCountIsFlagged(gs: seq<AssignmentGrade>)
    ensures ReviewCount(gs) == |Flagged(gs)|
  {
    if gs != [] {
      ReviewCountIsFlagged(gs[1..]);
      assert gs == [gs[0]] + gs[1..];
      FlaggedAppend([gs[0]], gs[1..]);
      assert Flagged([gs[0]]) == (if gs[0].requiresHumanReview then [Entry(gs[0])] else []) by {
        assert [gs[0]][..0] == [];
      }
    }
  }

  function TotalScores(gs: seq<AssignmentGrade>): (s: seq<real>)
    ensures |s| == |gs| && forall i :: 0 <= i < |gs| ==> s[i] == gs[i].totalScore
  {
    seq(|gs|, i requires 0 <= i < |gs| => gs[i].totalScore)
  }

  /** The batch statistics: total scores against the first grade's maximum. */
  function BatchStats(gs: seq<AssignmentGrade>): (st: ScoreStats)
    requires |gs| > 0
    ensures st.count == |gs| && st.maxScore == gs[0].maxScore
    ensures st.fulls == |gs| <==> forall i :: 0 <= i < |gs| ==> gs[i].totalScore >= gs[0].maxScore
    ensures st.zeros == 0 <==> forall i :: 0 <= i < |gs| ==> gs[i].totalScore != 0.0
    ensures forall i :: 0 <= i < |gs| ==> st.lowest <= gs[i].totalScore <= st.highest
  {
    StatsOf(TotalScores(gs), gs[0].maxScore)
  }

  /** `get_summary_stats`: all zeros without grades; otherwise the batch statistics and the
      number of grades that require review. */
  datatype ConsoleSummary = NoStudents | Students(stats: ScoreStats, requiresReview: nat)

  function SummaryStats(gs: seq<AssignmentGrade>): (r: ConsoleSummary)
    ensures r.NoStudents? <==> gs == []
    ensures r.Students? ==> r.stats.count == |gs| && r.stats.maxScore == gs[0].maxScore
    ensures r.Students? ==> r.requiresReview == |Flagged(gs)| <= |gs|
  {
    if gs == [] then NoStudents
    else
      ReviewCountIsFlagged(gs);
      Students(BatchStats(gs), ReviewCount(gs))
  }

  /** The summary file: only the id and a zero count without grades; otherwise the statistics,
      the distribution, the per-question statistics and the flagged list. */
  datatype SessionSummary =
    | EmptySession(assignmentId: string)
    | Session(
        assignmentId: string,
        assignmentName: Option<string>,
        statistics: ScoreStats,
        distribution: LetterCounts,
        questionStatistics: map<string, ScoreStats>,
        flagged: seq<FlaggedEntry>)

  function SummaryFile(assignmentId: string, gs: seq<AssignmentGrade>): (r: SessionSummary)
    ensures r.assignmentId == assignmentId
    ensures r.EmptySession? <==> gs == []
    ensures r.Session? ==> r.assignmentName == gs[0].assignmentName
  {
    if gs == [] then EmptySession(assignmentId)
    else
      Session(assignmentId, gs[0].assignmentName, BatchStats(gs), GradeDistribution(gs),
                 QuestionStatistics(gs), Flagged(gs))
  }

  /** The summary file and the console summary report the same statistics and review count; the
      distribution counts every grade once and the per-question statistics cover every question id. */
  lemma SummaryFileAgrees(assignmentId: string, gs: seq<AssignmentGrade>)
    requires gs != []
    ensures var r := SummaryFile(assignmentId, gs);
      && SummaryStats(gs) == Students(r.statistics, |r.flagged|)
      && Sum(r.distribution) == |gs| && r.questionStatistics.Keys == QuestionIds(gs)
  {
    ReviewCountIsFlagged(gs);
  }
}
