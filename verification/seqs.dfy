/** Python list comprehensions with a guard, and sequences without repeats. */
module Seqs {

  predicate Distinct<T(==)>(s: seq<T>) {
    forall i, j :: 0 <= i < j < |s| ==> s[i] != s[j]
  }

  /** The elements of `s` that satisfy `p`, in their order (a list comprehension with a guard). */
  function Filter<T(==,!new)>(s: seq<T>, p: T -> bool): (r: seq<T>)
    ensures |r| <= |s|
    ensures forall x :: x in r <==> x in s && p(x)
  {
    if s == [] then []
    else
      var rest := Filter(s[1..], p);
      assert forall x :: x in s <==> x == s[0] || x in s[1..];
      if p(s[0]) then [s[0]] + rest else rest
  }

  /** Each element is kept as often as it occurs, or not at all. */
  lemma {:induction false} FilterCounts<T(!new)>(s: seq<T>, p: T -> bool)
    ensures forall x :: multiset(Filter(s, p))[x] == if p(x) then multiset(s)[x] else 0
  {
    if s != [] {
      assert s == [s[0]] + s[1..];
      FilterCounts(s[1..], p);
    }
  }

  /** Nothing is dropped exactly when every element passes. */
  lemma {:induction false} FilterKeepsAll<T(!new)>(s: seq<T>, p: T -> bool)
    ensures (forall i :: 0 <= i < |s| ==> p(s[i])) <==> Filter(s, p) == s
    ensures (forall i :: 0 <= i < |s| ==> p(s[i])) <==> |Filter(s, p)| == |s|
  {
    if s != [] {
      FilterKeepsAll(s[1..], p);
      assert forall i :: 1 <= i < |s| ==> s[i] == s[1..][i - 1];
      assert s == [s[0]] + s[1..];
    }
  }

  /** When the elements that pass come before all the others, they form a prefix. */
  lemma {:induction false} FilterLeads<T(!new)>(s: seq<T>, p: T -> bool)
    requires forall i, j :: 0 <= i < j < |s| && p(s[j]) ==> p(s[i])
    ensures s[..|Filter(s, p)|] == Filter(s, p)
  {
    if s != [] {
      if p(s[0]) {
        var t := s[1..];
        forall i, j | 0 <= i < j < |t| && p(t[j]) ensures p(t[i]) {
          assert t[j] == s[j + 1] && t[i] == s[i + 1];
        }
        FilterLeads(t, p);
      } else {
        assert forall i :: 0 <= i < |s| ==> !p(s[i]);
        FilterKeepsNone(s, p);
      }
    }
  }

  /** Two guards that no element passes together keep, between them, at most every element. */
  lemma {:induction false} FilterDisjoint<T(!new)>(s: seq<T>, p: T -> bool, q: T -> bool)
    requires forall i :: 0 <= i < |s| ==> !(p(s[i]) && q(s[i]))
    ensures |Filter(s, p)| + |Filter(s, q)| <= |s|
  {
    if s != [] {
      assert forall i :: 1 <= i < |s| ==> s[i] == s[1..][i - 1];
      FilterDisjoint(s[1..], p, q);
    }
  }

  /** Nothing is kept exactly when no element passes. */
  lemma FilterKeepsNone<T(!new)>(s: seq<T>, p: T -> bool)
    ensures (forall i :: 0 <= i < |s| ==> !p(s[i])) <==> Filter(s, p) == []
  {
    var r := Filter(s, p);
    if r != [] {
      assert r[0] in r;
    }
    forall i | 0 <= i < |s| && p(s[i]) ensures r != [] {
      assert s[i] in r;
    }
  }

  lemma {:induction false} FilterDistinct<T(!new)>(s: seq<T>, p: T -> bool)
    requires Distinct(s)
    ensures Distinct(Filter(s, p))
  {
    if s != [] {
      assert Distinct(s[1..]);
      assert s[0] !in s[1..] by {
        forall k | 0 <= k < |s[1..]| ensures s[1..][k] != s[0] {
          assert s[k + 1] != s[0];
        }
      }
      FilterDistinct(s[1..], p);
    }
  }

  lemma {:induction false} FilterAppend<T(!new)>(a: seq<T>, b: seq<T>, p: T -> bool)
    ensures Filter(a + b, p) == Filter(a, p) + Filter(b, p)
  {
    if a != [] {
      assert (a + b)[0] == a[0] && (a + b)[1..] == a[1..] + b;
      FilterAppend(a[1..], b, p);
    } else {
      assert a + b == b;
    }
  }

  /** Two guards that agree on every element keep the same elements. */
  lemma {:induction false} FilterAgrees<T(!new)>(s: seq<T>, p: T -> bool, q: T -> bool)
    requires forall x :: x in s ==> p(x) == q(x)
    ensures Filter(s, p) == Filter(s, q)
  {
    if s != [] {
      FilterAgrees(s[1..], p, q);
    }
  }

  /** Filtering twice keeps what the second guard keeps, when it implies the first. */
  lemma {:induction false} FilterTwice<T(!new)>(s: seq<T>, p: T -> bool, q: T -> bool)
    requires forall x :: x in s && q(x) ==> p(x)
    ensures Filter(Filter(s, p), q) == Filter(s, q)
  {
    if s != [] {
      FilterTwice(s[1..], p, q);
    }
  }

  /** In a sequence without repeats every member occurs once. */
  lemma {:induction false} DistinctCounts<T>(s: seq<T>)
    requires Distinct(s)
    ensures forall x :: multiset(s)[x] == if x in s then 1 else 0
  {
    if s != [] {
      assert s == [s[0]] + s[1..];
      assert Distinct(s[1..]);
      assert s[0] !in s[1..] by {
        forall k | 0 <= k < |s[1..]| ensures s[1..][k] != s[0] {
          assert s[k + 1] != s[0];
        }
      }
      DistinctCounts(s[1..]);
    }
  }

  /** A guard keeps as many elements of a sequence as of any permutation of it. */
  lemma FilterPermutation<T(!new)>(a: seq<T>, b: seq<T>, p: T -> bool)
    requires multiset(a) == multiset(b)
    ensures |Filter(a, p)| == |Filter(b, p)|
  {
    FilterCounts(a, p);
    FilterCounts(b, p);
    assert multiset(Filter(a, p)) == multiset(Filter(b, p));
    assert |multiset(Filter(a, p))| == |Filter(a, p)|;
  }

  /** Filtering keeps the relative order of the kept elements. */
  lemma {:induction false} FilterKeepsOrder<T(!new)>(s: seq<T>, p: T -> bool, before: (T, T) -> bool)
    requires forall i, j :: 0 <= i < j < |s| ==> before(s[i], s[j])
    ensures forall i, j :: 0 <= i < j < |Filter(s, p)| ==> before(Filter(s, p)[i], Filter(s, p)[j])
  {
    if s != [] {
      var rest := Filter(s[1..], p);
      FilterKeepsOrder(s[1..], p, before);
      if p(s[0]) {
        forall x | x in rest ensures before(s[0], x) {
          var k :| 0 <= k < |s[1..]| && s[1..][k] == x;
          assert s[k + 1] == x;
        }
      }
    }
  }

  /** `f` applied to each element, in order. */
  function Map<X, Y>(f: X -> Y, s: seq<X>): (r: seq<Y>)
    ensures |r| == |s| && forall i :: 0 <= i < |s| ==> r[i] == f(s[i])
  {
    seq(|s|, i requires 0 <= i < |s| => f(s[i]))
  }

  /** Mapping over a non-empty list maps its head, then its tail. */
  lemma MapCons<X, Y>(f: X -> Y, s: seq<X>)
    requires |s| > 0
    ensures Map(f, s) == [f(s[0])] + Map(f, s[1..])
  {
    assert s == [s[0]] + s[1..];
    MapAppend(f, [s[0]], s[1..]);
  }

  /** Mapping over two lists joined maps each and joins the results. */
  lemma MapAppend<X, Y>(f: X -> Y, a: seq<X>, b: seq<X>)
    ensures Map(f, a + b) == Map(f, a) + Map(f, b)
  {
    var whole, left, right := Map(f, a + b), Map(f, a), Map(f, b);
    forall i | 0 <= i < |whole|
      ensures whole[i] == (left + right)[i]
    {
      if i < |a| {
        assert (a + b)[i] == a[i];
      } else {
        assert (a + b)[i] == b[i - |a|];
      }
    }
  }

  /** Mapping commutes with slicing. */
  lemma MapSlice<X, Y>(f: X -> Y, s: seq<X>, i: nat, j: nat)
    requires i <= j <= |s|
    ensures Map(f, s)[i..j] == Map(f, s[i..j])
  {
  }

  /** The sequences of a list joined end to end, in order. */
  function Flatten<T>(ss: seq<seq<T>>): (r: seq<T>)
  {
    if ss == [] then [] else ss[0] + Flatten(ss[1..])
  }

  /** Flattening two lists flattens each and joins the results. */
  lemma {:induction false} FlattenAppend<T>(a: seq<seq<T>>, b: seq<seq<T>>)
    ensures Flatten(a + b) == Flatten(a) + Flatten(b)
  {
    if a == [] {
      assert a + b == b;
    } else {
      assert (a + b)[0] == a[0] && (a + b)[1..] == a[1..] + b;
      FlattenAppend(a[1..], b);
    }
  }

  /** Each part sits in the flattening between the parts before it and the parts after it. */
  lemma FlattenAt<T>(ss: seq<seq<T>>, i: nat)
    requires i < |ss|
    ensures Flatten(ss) == Flatten(ss[..i]) + ss[i] + Flatten(ss[i + 1..])
  {
    assert ss == ss[..i] + ss[i..];
    FlattenAppend(ss[..i], ss[i..]);
    assert ss[i..][1..] == ss[i + 1..];
  }

  /** An element of a flattening comes from one of the parts, and every part's elements are in
      it. */
  lemma {:induction false} FlattenMember<T>(ss: seq<seq<T>>, x: T)
    ensures x in Flatten(ss) <==> exists k :: 0 <= k < |ss| && x in ss[k]
  {
    if ss != [] {
      FlattenMember(ss[1..], x);
      if x in Flatten(ss[1..]) {
        var k :| 0 <= k < |ss[1..]| && x in ss[1..][k];
        assert ss[k + 1] == ss[1..][k];
      }
      if exists k :: 0 <= k < |ss| && x in ss[k] {
        var k :| 0 <= k < |ss| && x in ss[k];
        if k > 0 {
          assert ss[1..][k - 1] == ss[k];
        }
      }
    }
  }

  /** When every part holds only elements tagged with its own position, an element is in the
      flattening exactly when it is in the part its tag names. */
  lemma FlattenTagged<T>(ss: seq<seq<T>>, tag: T -> int, x: T)
    requires forall k, y :: 0 <= k < |ss| && y in ss[k] ==> tag(y) == k
    ensures x in Flatten(ss) <==> 0 <= tag(x) < |ss| && x in ss[tag(x)]
  {
    FlattenMember(ss, x);
  }
}
