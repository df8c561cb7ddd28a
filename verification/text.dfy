/** Python string operations on `seq<char>`, restricted to the ASCII behaviour the grading code relies on. */
module Text {

  /** Characters `str.strip()` removes (the ASCII whitespace and separator controls). */
  predicate IsSpace(c: char) {
    c == ' ' || c == '\t' || c == '\n' || c == '\r' || c == '\U{000B}' || c == '\U{000C}'
    || ('\U{001C}' <= c <= '\U{001F}')
  }

  predicate IsDigit(c: char) {
    '0' <= c <= '9'
  }

  /** `s.isdigit()`: non-empty and every character a decimal digit. */
  predicate IsDigits(s: string) {
    |s| > 0 && forall i :: 0 <= i < |s| ==> IsDigit(s[i])
  }

  /** `s.lstrip()` */
  function TrimLeft(s: string): (r: string)
    ensures |r| <= |s| && r == s[|s| - |r|..]
    ensures r == [] || !IsSpace(r[0])
    ensures forall i :: 0 <= i < |s| - |r| ==> IsSpace(s[i])
  {
    if |s| > 0 && IsSpace(s[0]) then TrimLeft(s[1..]) else s
  }

  /** `s.rstrip()` */
  function TrimRight(s: string): (r: string)
    ensures |r| <= |s| && r == s[..|r|]
    ensures r == [] || !IsSpace(r[|r| - 1])
    ensures forall i :: |r| <= i < |s| ==> IsSpace(s[i])
  {
    if |s| > 0 && IsSpace(s[|s| - 1]) then TrimRight(s[..|s| - 1]) else s
  }

  /** `r` sits at offset `a` of `s` and only whitespace surrounds it. */
  predicate SpaceFramed(s: string, r: string, a: nat) {
    && a + |r| <= |s|
    && s[a..a + |r|] == r
    && (forall i :: 0 <= i < a ==> IsSpace(s[i]))
    && (forall i :: a + |r| <= i < |s| ==> IsSpace(s[i]))
  }

  /** `s.strip()`: the infix of `s` that neither starts nor ends with whitespace and is framed by whitespace. */
  function Strip(s: string): (r: string)
    ensures |r| <= |s| && SpaceFramed(s, r, |s| - |TrimLeft(s)|)
    ensures r == [] || (!IsSpace(r[0]) && !IsSpace(r[|r| - 1]))
  {
    TrimBoth(s);
    TrimRight(TrimLeft(s))
  }

  lemma TrimBoth(s: string)
    ensures SpaceFramed(s, TrimRight(TrimLeft(s)), |s| - |TrimLeft(s)|)
  {
    var l := TrimLeft(s);
    Framed(s, l, TrimRight(l), |s| - |l|);
  }

  /** Whitespace before offset `a`, and a prefix `r` of the rest followed only by whitespace. */
  lemma Framed(s: string, l: string, r: string, a: nat)
    requires a + |l| == |s| && l == s[a..] && |r| <= |l| && r == l[..|r|]
    requires forall i :: 0 <= i < a ==> IsSpace(s[i])
    requires forall j :: |r| <= j < |l| ==> IsSpace(l[j])
    ensures SpaceFramed(s, r, a)
  {
    assert s[a..a + |r|] == r;
    forall i | a + |r| <= i < |s|
      ensures IsSpace(s[i])
    {
      assert s[i] == l[i - a];
    }
  }

  /** `not s or s.strip() == ""`: empty or only whitespace. */
  predicate IsBlank(s: string) {
    Strip(s) == ""
  }

  lemma BlankIffAllSpace(s: string)
    ensures IsBlank(s) <==> forall i :: 0 <= i < |s| ==> IsSpace(s[i])
  {
    var r := Strip(s);
    if r != "" {
      assert s[|s| - |TrimLeft(s)|] == r[0];
    }
  }

  lemma StripIdempotent(s: string)
    ensures Strip(Strip(s)) == Strip(s)
  {
    var r := Strip(s);
    if r != "" {
      assert TrimLeft(r) == r;
      assert TrimRight(r) == r;
    }
  }

  function LowerChar(c: char): char {
    if 'A' <= c <= 'Z' then (c as int + 32) as char else c
  }

  function UpperChar(c: char): char {
    if 'a' <= c <= 'z' then (c as int - 32) as char else c
  }

  /** `s.lower()` on ASCII letters. */
  function Lower(s: string): (r: string)
    ensures |r| == |s| && forall i :: 0 <= i < |s| ==> r[i] == LowerChar(s[i])
  {
    if |s| == 0 then [] else [LowerChar(s[0])] + Lower(s[1..])
  }

  /** `s.upper()` on ASCII letters. */
  function Upper(s: string): (r: string)
    ensures |r| == |s| && forall i :: 0 <= i < |s| ==> r[i] == UpperChar(s[i])
  {
    if |s| == 0 then [] else [UpperChar(s[0])] + Upper(s[1..])
  }

  /** A string without lower-case letters is its own upper-case form. */
  lemma UpperKeeps(s: string)
    requires forall i :: 0 <= i < |s| ==> !('a' <= s[i] <= 'z')
    ensures Upper(s) == s
  {
  }

  predicate StartsWith(s: string, p: string) {
    |p| <= |s| && s[..|p|] == p
  }

  predicate EndsWith(s: string, p: string) {
    |p| <= |s| && s[|s| - |p|..] == p
  }

  /** `sub in s` */
  predicate Contains(s: string, sub: string) {
    exists i :: 0 <= i <= |s| - |sub| && OccursAt(s, sub, i)
  }

  predicate OccursAt(s: string, sub: string, i: int) {
    0 <= i <= |s| - |sub| && s[i..i + |sub|] == sub
  }

  /** `s[:n]` for a non-negative `n`. */
  function Take<T>(s: seq<T>, n: nat): (r: seq<T>)
    ensures |r| == if |s| <= n then |s| else n
    ensures r == s[..|r|]
  {
    if |s| <= n then s else s[..n]
  }

  /** A preview of `s`: the first `n` characters followed by `...` when `s` is longer than `n`. */
  function Ellipsize(s: string, n: nat): (r: string)
    ensures |s| <= n ==> r == s
    ensures |s| > n ==> |r| == n + 3 && StartsWith(r, s[..n]) && EndsWith(r, "...")
  {
    if |s| > n then s[..n] + "..." else s
  }

  /** `s.split(sep)` for a one-character separator. */
  function Split(s: string, sep: char): (parts: seq<string>)
    ensures |parts| >= 1
    ensures forall i :: 0 <= i < |parts| ==> sep !in parts[i]
  {
    if |s| == 0 then [""]
    else
      var rest := Split(s[1..], sep);
      if s[0] == sep then [""] + rest
      else [[s[0]] + rest[0]] + rest[1..]
  }

  /** `sep.join(parts)` */
  function Join(parts: seq<string>, sep: string): string
  {
    if |parts| == 0 then ""
    else if |parts| == 1 then parts[0]
    else parts[0] + sep + Join(parts[1..], sep)
  }

  lemma {:induction false} JoinCons(p: string, ps: seq<string>, sep: string)
    requires |ps| >= 1
    ensures Join([p] + ps, sep) == p + sep + Join(ps, sep)
  {
    assert ([p] + ps)[1..] == ps;
  }

  /** Re-joining the pieces of a split gives back the original string. */
  lemma {:induction false} JoinSplit(s: string, sep: char)
    ensures Join(Split(s, sep), [sep]) == s
  {
    if |s| > 0 {
      var rest := Split(s[1..], sep);
      JoinSplit(s[1..], sep);
      if s[0] == sep {
        JoinCons("", rest, [sep]);
      } else if |rest| == 1 {
        assert Split(s, sep) == [[s[0]] + rest[0]];
      } else {
        JoinCons(rest[0], rest[1..], [sep]);
        assert rest == [rest[0]] + rest[1..];
        JoinCons([s[0]] + rest[0], rest[1..], [sep]);
        assert Split(s, sep) == [[s[0]] + rest[0]] + rest[1..];
      }
    }
  }

  lemma {:induction false} SplitNoSep(a: string, sep: char)
    requires sep !in a
    ensures Split(a, sep) == [a]
  {
    if |a| > 0 {
      SplitNoSep(a[1..], sep);
      assert [a[0]] + a[1..] == a;
    }
  }

  lemma {:induction false} SplitAtSep(a: string, b: string, sep: char)
    requires sep !in a
    ensures Split(a + [sep] + b, sep) == [a] + Split(b, sep)
  {
    if |a| == 0 {
      assert a + [sep] + b == [sep] + b;
      assert ([sep] + b)[1..] == b;
    } else {
      SplitAtSep(a[1..], b, sep);
      assert (a + [sep] + b)[1..] == a[1..] + [sep] + b;
      assert [a[0]] + a[1..] == a;
    }
  }

  /** Splitting a join of separator-free pieces gives back the pieces. */
  lemma {:induction false} SplitJoin(parts: seq<string>, sep: char)
    requires |parts| >= 1
    requires forall i :: 0 <= i < |parts| ==> sep !in parts[i]
    ensures Split(Join(parts, [sep]), sep) == parts
  {
    if |parts| == 1 {
      SplitNoSep(parts[0], sep);
    } else {
      SplitJoin(parts[1..], sep);
      SplitAtSep(parts[0], Join(parts[1..], [sep]), sep);
      assert parts == [parts[0]] + parts[1..];
    }
  }

  /** Index of the last occurrence of `c` in `s`, or -1 (`s.rfind(c)`). */
  function LastIndex(s: string, c: char): (r: int)
    ensures -1 <= r < |s|
    ensures r >= 0 ==> s[r] == c
    ensures forall j :: r < j < |s| ==> s[j] != c
  {
    if |s| == 0 then -1
    else if s[|s| - 1] == c then |s| - 1
    else LastIndex(s[..|s| - 1], c)
  }

  lemma {:induction false} LastIndexAppend(a: string, b: string, c: char)
    ensures LastIndex(a + b, c) == if c in b then |a| + LastIndex(b, c) else LastIndex(a, c)
  {
    if |b| > 0 {
      assert (a + b)[..|a + b| - 1] == a + b[..|b| - 1];
      LastIndexAppend(a, b[..|b| - 1], c);
      if b[|b| - 1] != c {
        assert c in b ==> c in b[..|b| - 1] by {
          if c in b {
            var j :| 0 <= j < |b| && b[j] == c;
            assert b[..|b| - 1][j] == c;
          }
        }
      }
    } else {
      assert a + b == a;
    }
  }

  /** `os.path.basename(path)`: everything after the last `/`. */
  function Basename(path: string): (r: string)
    ensures '/' !in r
    ensures |r| <= |path| && r == path[|path| - |r|..]
    ensures |r| < |path| ==> path[|path| - |r| - 1] == '/'
  {
    if |path| == 0 || path[|path| - 1] == '/' then ""
    else Basename(path[..|path| - 1]) + [path[|path| - 1]]
  }

  /** `os.path.splitext(path)`: the extension is the last `.`-suffix of the final path component,
      unless every character before that dot in the component is itself a dot (as in `.bashrc`). */
  function SplitExt(path: string): (r: (string, string))
    ensures r.0 + r.1 == path
    ensures r.1 == "" || (r.1[0] == '.' && '.' !in r.1[1..] && '/' !in r.1)
  {
    var sepIndex := LastIndex(path, '/');
    var dotIndex := LastIndex(path, '.');
    if dotIndex > sepIndex && exists k :: sepIndex + 1 <= k < dotIndex && path[k] != '.' then
      assert forall j :: 1 <= j < |path| - dotIndex ==> path[dotIndex..][j] == path[dotIndex + j];
      (path[..dotIndex], path[dotIndex..])
    else (path, "")
  }

  /** A stem without dots whose last character is not `/`, followed by a one-dot extension,
      splits back into the two. */
  lemma SplitExtOfStem(stem: string, ext: string)
    requires '.' !in stem && |stem| > 0 && stem[|stem| - 1] != '/'
    requires ext == "" || (ext[0] == '.' && '.' !in ext[1..] && '/' !in ext)
    ensures SplitExt(stem + ext) == (stem, ext)
  {
    var p := stem + ext;
    LastIndexAppend(stem, ext, '/');
    LastIndexAppend(stem, ext, '.');
    if ext == "" {
      assert p == stem;
    } else {
      assert LastIndex(ext, '.') == 0;
      assert p[..|stem|] == stem && p[|stem|..] == ext;
      assert p[|stem| - 1] != '.';
    }
  }

  /** `s.rsplit(".", 1)[0]`: everything before the last dot. */
  function BeforeLastDot(s: string): (r: string)
    ensures StartsWith(s, r)
    ensures '.' in s ==> |r| < |s| && s[|r|] == '.' && '.' !in s[|r| + 1..]
    ensures '.' !in s ==> r == s
  {
    var k := LastIndex(s, '.');
    if k >= 0 then s[..k] else s
  }

  /** `s.split(".")[0]`: everything before the first dot. */
  function BeforeFirstDot(s: string): (r: string)
    ensures StartsWith(s, r) && '.' !in r
    ensures |r| < |s| ==> s[|r|] == '.'
  {
    if |s| == 0 || s[0] == '.' then "" else [s[0]] + BeforeFirstDot(s[1..])
  }

  lemma {:induction false} BeforeFirstDotIsFirstSplit(s: string)
    ensures BeforeFirstDot(s) == Split(s, '.')[0]
  {
    if |s| > 0 && s[0] != '.' {
      BeforeFirstDotIsFirstSplit(s[1..]);
    }
  }

  /** `pat` occurs at offset `i` of `s`, from its `k`-th character on; with `ignoreCase` letters
      compare without regard to ASCII case. */
  predicate SameAt(s: string, i: nat, pat: string, ignoreCase: bool, k: nat)
    decreases |pat| - k
  {
    k >= |pat|
    || (i + k < |s|
        && (if ignoreCase then LowerChar(s[i + k]) == LowerChar(pat[k]) else s[i + k] == pat[k])
        && SameAt(s, i, pat, ignoreCase, k + 1))
  }

  lemma {:induction false} SameAtExact(s: string, i: nat, pat: string, k: nat)
    requires k <= |pat| && i + k <= |s|
    ensures SameAt(s, i, pat, false, k) <==> i + |pat| <= |s| && s[i + k..i + |pat|] == pat[k..]
    decreases |pat| - k
  {
    if k < |pat| && i + k < |s| {
      SameAtExact(s, i, pat, k + 1);
      if i + |pat| <= |s| {
        assert s[i + k..i + |pat|] == [s[i + k]] + s[i + k + 1..i + |pat|];
        assert pat[k..] == [pat[k]] + pat[k + 1..];
      }
    }
  }

  /** `s.replace(pat, rep)`: every non-overlapping occurrence of `pat`, scanned left to right. */
  function ReplaceAll(s: string, pat: string, rep: string): string
    requires |pat| > 0
  {
    ReplaceFrom(s, pat, rep, false, 0)
  }

  /** Replacement over `s[i..]`, optionally ignoring ASCII case when matching. */
  function ReplaceFrom(s: string, pat: string, rep: string, ignoreCase: bool, i: nat): (r: string)
    requires |pat| > 0
    ensures rep == "" && i <= |s| ==> |r| <= |s| - i
    decreases |s| - i
  {
    if i >= |s| then ""
    else if SameAt(s, i, pat, ignoreCase, 0) then rep + ReplaceFrom(s, pat, rep, ignoreCase, i + |pat|)
    else [s[i]] + ReplaceFrom(s, pat, rep, ignoreCase, i + 1)
  }

  /** Where the first character of the pattern never appears (in either case), nothing is replaced. */
  lemma {:induction false} ReplaceAbsent(s: string, pat: string, rep: string, ignoreCase: bool, i: nat)
    requires |pat| > 0 && i <= |s|
    requires forall j :: i <= j < |s| ==> LowerChar(s[j]) != LowerChar(pat[0])
    ensures ReplaceFrom(s, pat, rep, ignoreCase, i) == s[i..]
    decreases |s| - i
  {
    if i < |s| {
      assert !SameAt(s, i, pat, ignoreCase, 0);
      ReplaceAbsent(s, pat, rep, ignoreCase, i + 1);
      assert s[i..] == [s[i]] + s[i + 1..];
    }
  }

  /** A scan that copies each character of a stretch and carries on after it produces the
      stretch followed by what the scan produces from its end. */
  lemma {:induction false} CopiedStretch(s: string, f: nat -> string, i: nat, k: nat)
    requires i <= k <= |s|
    requires forall j :: i <= j < k ==> f(j) == [s[j]] + f(j + 1)
    ensures f(i) == s[i..k] + f(k)
    decreases k - i
  {
    if i < k {
      CopiedStretch(s, f, i + 1, k);
      assert s[i..k] == [s[i]] + s[i + 1..k];
    }
  }

  /** A stretch where the pattern occurs nowhere is copied unchanged. */
  lemma ReplaceSkipTo(s: string, pat: string, rep: string, ignoreCase: bool, i: nat, k: nat)
    requires |pat| > 0 && i <= k <= |s|
    requires forall j :: i <= j < k ==> !SameAt(s, j, pat, ignoreCase, 0)
    ensures ReplaceFrom(s, pat, rep, ignoreCase, i) == s[i..k] + ReplaceFrom(s, pat, rep, ignoreCase, k)
  {
    CopiedStretch(s, (j: nat) => ReplaceFrom(s, pat, rep, ignoreCase, j), i, k);
  }

  /** A character outside every part and the separator is outside the join. */
  lemma {:induction false} JoinAvoids(parts: seq<string>, sep: string, c: char)
    requires c !in sep && forall i :: 0 <= i < |parts| ==> c !in parts[i]
    ensures c !in Join(parts, sep)
  {
    if |parts| > 1 {
      JoinAvoids(parts[1..], sep, c);
    }
  }

  function DigitString(d: nat): (r: string)
    requires d < 10
  {
    ["0123456789"[d]]
  }

  /** `str(n)` for a natural number. */
  function NatToString(n: nat): (r: string)
    ensures IsDigits(r)
    ensures n >= 10 ==> r[0] != '0'
  {
    if n < 10 then DigitString(n) else NatToString(n / 10) + DigitString(n % 10)
  }
}
