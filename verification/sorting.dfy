/** Python's `sorted` over strings compared by code point, or over any key with a total preorder. */
module Sorting {

  /** `a <= b` for Python strings: lexicographic by code point, a prefix first. */
  predicate StrLe(a: string, b: string)
    decreases |a|
  {
    if |a| == 0 then true
    else if |b| == 0 then false
    else if a[0] != b[0] then a[0] < b[0]
    else StrLe(a[1..], b[1..])
  }

  lemma {:induction false} StrLeTotal(a: string, b: string)
    ensures StrLe(a, b) || StrLe(b, a)
    decreases |a|
  {
    if |a| > 0 && |b| > 0 && a[0] == b[0] {
      StrLeTotal(a[1..], b[1..]);
    }
  }

  lemma {:induction false} StrLeTransitive(a: string, b: string, c: string)
    requires StrLe(a, b) && StrLe(b, c)
    ensures StrLe(a, c)
    decreases |a|
  {
    if |a| > 0 && |b| > 0 && |c| > 0 && a[0] == b[0] && b[0] == c[0] {
      StrLeTransitive(a[1..], b[1..], c[1..]);
    }
  }

  /** Two strings each at most the other are equal. */
  lemma {:induction false} StrLeAntisymmetric(a: string, b: string)
    requires StrLe(a, b) && StrLe(b, a)
    ensures a == b
    decreases |a|
  {
    if |a| > 0 && |b| > 0 {
      StrLeAntisymmetric(a[1..], b[1..]);
      assert a == [a[0]] + a[1..] && b == [b[0]] + b[1..];
    }
  }

  /** `le` orders every pair and is transitive. */
  ghost predicate TotalPreorder<T(!new)>(le: (T, T) -> bool) {
    && (forall a, b :: le(a, b) || le(b, a))
    && (forall a, b, c :: le(a, b) && le(b, c) ==> le(a, c))
  }

  lemma StrLeIsTotalPreorder()
    ensures TotalPreorder((a: string, b: string) => StrLe(a, b))
  {
    forall a: string, b: string ensures StrLe(a, b) || StrLe(b, a) {
      StrLeTotal(a, b);
    }
    forall a: string, b: string, c: string | StrLe(a, b) && StrLe(b, c) ensures StrLe(a, c) {
      StrLeTransitive(a, b, c);
    }
  }

  predicate SortedBy<T>(s: seq<T>, le: (T, T) -> bool) {
    forall i, j :: 0 <= i < j < |s| ==> le(s[i], s[j])
  }

  /** Places `x` after every element that orders before or level with it, so that level elements
      keep their input order (`sorted` is stable). */
  function Insert<T(!new)>(x: T, s: seq<T>, le: (T, T) -> bool): (r: seq<T>)
    requires TotalPreorder(le) && SortedBy(s, le)
    ensures SortedBy(r, le)
    ensures multiset(r) == multiset(s) + multiset{x}
    ensures |r| == |s| + 1
  {
    if |s| == 0 then [x]
    else if !le(s[0], x) then
      [x] + s
    else
      var rest := Insert(x, s[1..], le);
      assert s == [s[0]] + s[1..];
      LowerBoundKept(s[0], x, s[1..], rest, le);
      ConsSorted(s[0], rest, le);
      [s[0]] + rest
  }

  lemma ConsSorted<T>(y: T, rest: seq<T>, le: (T, T) -> bool)
    requires SortedBy(rest, le) && forall k :: 0 <= k < |rest| ==> le(y, rest[k])
    ensures SortedBy([y] + rest, le)
  {
    var r := [y] + rest;
    forall i, j | 0 <= i < j < |r| ensures le(r[i], r[j]) {
      assert r[j] == rest[j - 1];
      if i > 0 { assert r[i] == rest[i - 1]; }
    }
  }

  /** A lower bound of `x` and of every element of `t` bounds every element of a permutation of
      `t` with `x` added. */
  lemma LowerBoundKept<T(!new)>(y: T, x: T, t: seq<T>, rest: seq<T>, le: (T, T) -> bool)
    requires multiset(rest) == multiset(t) + multiset{x}
    requires le(y, x) && forall m :: 0 <= m < |t| ==> le(y, t[m])
    ensures forall k :: 0 <= k < |rest| ==> le(y, rest[k])
  {
    forall k | 0 <= k < |rest| ensures le(y, rest[k]) {
      assert rest[k] in multiset(rest);
      if rest[k] != x {
        assert rest[k] in multiset(t);
        var m :| 0 <= m < |t| && t[m] == rest[k];
      }
    }
  }

  /** `sorted(s)` under `le`: an ordered permutation of `s`. */
  function Sort<T(!new)>(s: seq<T>, le: (T, T) -> bool): (r: seq<T>)
    requires TotalPreorder(le)
    ensures SortedBy(r, le)
    ensures multiset(r) == multiset(s)
    ensures |r| == |s|
  {
    if |s| == 0 then []
    else
      assert s == s[..|s| - 1] + [s[|s| - 1]];
      Insert(s[|s| - 1], Sort(s[..|s| - 1], le), le)
  }

  /** `sorted(strings)` */
  function SortStrings(s: seq<string>): (r: seq<string>)
    ensures SortedBy(r, (a: string, b: string) => StrLe(a, b))
    ensures multiset(r) == multiset(s)
  {
    StrLeIsTotalPreorder();
    Sort(s, (a: string, b: string) => StrLe(a, b))
  }

  /** `sorted(items, key=key)` for a string-valued key. */
  function SortByKey<T(!new)>(items: seq<T>, key: T -> string): (r: seq<T>)
    ensures forall i, j :: 0 <= i < j < |r| ==> StrLe(key(r[i]), key(r[j]))
    ensures multiset(r) == multiset(items) && |r| == |items|
  {
    var le := (a: T, b: T) => StrLe(key(a), key(b));
    forall a: T, b: T ensures le(a, b) || le(b, a) {
      StrLeTotal(key(a), key(b));
    }
    forall a: T, b: T, c: T | le(a, b) && le(b, c) ensures le(a, c) {
      StrLeTransitive(key(a), key(b), key(c));
    }
    var r := Sort(items, le);
    assert forall i, j :: 0 <= i < j < |r| ==> le(r[i], r[j]);
    r
  }

  /** `sorted(reals)` */
  function SortReals(s: seq<real>): (r: seq<real>)
    ensures forall i, j :: 0 <= i < j < |r| ==> r[i] <= r[j]
    ensures multiset(r) == multiset(s) && |r| == |s|
  {
    var le := (a: real, b: real) => a <= b;
    assert TotalPreorder(le);
    var r := Sort(s, le);
    assert forall i, j :: 0 <= i < j < |r| ==> le(r[i], r[j]);
    r
  }
}
