/** Python dictionaries as insertion-ordered association lists: assigning to an existing key
    replaces its value in place, assigning to a new key appends it. */
module PyDict {
  import opened Wrappers

  type Dict<V> = seq<(string, V)>

  predicate DistinctKeys<V>(d: Dict<V>) {
    forall i, j :: 0 <= i < j < |d| ==> d[i].0 != d[j].0
  }

  function Keys<V>(d: Dict<V>): (ks: seq<string>)
    ensures |ks| == |d| && forall i :: 0 <= i < |d| ==> ks[i] == d[i].0
  {
    seq(|d|, i requires 0 <= i < |d| => d[i].0)
  }

  predicate HasKey<V>(d: Dict<V>, k: string) {
    exists i :: 0 <= i < |d| && d[i].0 == k
  }

  /** A key occurs in a concatenation exactly when it occurs in one of the parts. */
  lemma HasKeyAppend<V>(a: Dict<V>, b: Dict<V>, k: string)
    ensures HasKey(a + b, k) <==> HasKey(a, k) || HasKey(b, k)
  {
    if HasKey(a, k) {
      var i :| 0 <= i < |a| && a[i].0 == k;
      assert (a + b)[i].0 == k;
    }
    if HasKey(b, k) {
      var i :| 0 <= i < |b| && b[i].0 == k;
      assert (a + b)[|a| + i].0 == k;
    }
    if HasKey(a + b, k) {
      var i :| 0 <= i < |a + b| && (a + b)[i].0 == k;
      if i < |a| { assert a[i].0 == k; } else { assert b[i - |a|].0 == k; }
    }
  }

  lemma KeysAreHasKey<V>(d: Dict<V>)
    ensures forall k :: k in Keys(d) <==> HasKey(d, k)
  {
    forall k | HasKey(d, k) ensures k in Keys(d) {
      var i :| 0 <= i < |d| && d[i].0 == k;
      assert Keys(d)[i] == k;
    }
  }

  /** Two dictionaries with the same keys in the same order answer every membership test alike,
      and one has distinct keys exactly when the other does. */
  lemma SameKeys<V, W>(a: Dict<V>, b: Dict<W>)
    requires Keys(a) == Keys(b)
    ensures forall k :: HasKey(a, k) <==> HasKey(b, k)
    ensures DistinctKeys(a) <==> DistinctKeys(b)
  {
    assert forall i :: 0 <= i < |a| ==> a[i].0 == Keys(a)[i] == Keys(b)[i] == b[i].0;
  }

  /** Position of the first entry for `k`, or -1. */
  function IndexOf<V>(d: Dict<V>, k: string): (i: int)
    ensures -1 <= i < |d|
    ensures i >= 0 ==> d[i].0 == k && forall j :: 0 <= j < i ==> d[j].0 != k
    ensures i == -1 <==> !HasKey(d, k)
  {
    if |d| == 0 then -1
    else if d[0].0 == k then 0
    else
      var i := IndexOf(d[1..], k);
      assert HasKey(d, k) ==> HasKey(d[1..], k) by {
        if HasKey(d, k) {
          var j :| 0 <= j < |d| && d[j].0 == k;
          assert d[1..][j - 1].0 == k;
        }
      }
      if i == -1 then -1 else i + 1
  }

  lemma IndexOfUnique<V>(d: Dict<V>, k: string, i: nat)
    requires i < |d| && d[i].0 == k
    requires forall j :: 0 <= j < i ==> d[j].0 != k
    ensures IndexOf(d, k) == i
  {
    assert HasKey(d, k);
  }

  /** `d.get(k)`: the value stored under `k`, if any. */
  function Get<V>(d: Dict<V>, k: string): (r: Option<V>)
    ensures r.None? <==> !HasKey(d, k)
    ensures r.Some? ==> exists i :: 0 <= i < |d| && d[i] == (k, r.value)
  {
    var i := IndexOf(d, k);
    if i >= 0 then Some(d[i].1) else None
  }

  /** `d.get(k, default)` */
  function GetOr<V>(d: Dict<V>, k: string, default: V): V {
    Get(d, k).GetOr(default)
  }

  /** `d[k] = v` */
  function Set<V>(d: Dict<V>, k: string, v: V): (r: Dict<V>)
    ensures HasKey(d, k) ==> |r| == |d| && Keys(r) == Keys(d)
    ensures !HasKey(d, k) ==> r == d + [(k, v)]
  {
    var i := IndexOf(d, k);
    if i >= 0 then d[i := (k, v)] else d + [(k, v)]
  }

  lemma SetKeepsDistinct<V>(d: Dict<V>, k: string, v: V)
    requires DistinctKeys(d)
    ensures DistinctKeys(Set(d, k, v))
  {
    if HasKey(d, k) {
      assert Keys(Set(d, k, v)) == Keys(d);
      assert forall i :: 0 <= i < |d| ==> Set(d, k, v)[i].0 == Keys(d)[i];
    }
  }

  /** After `d[k] = v`, reading `k` gives `v` and every other key reads as before. */
  lemma SetGet<V>(d: Dict<V>, k: string, v: V, k': string)
    ensures Get(Set(d, k, v), k) == Some(v)
    ensures k' != k ==> Get(Set(d, k, v), k') == Get(d, k')
  {
    var i := IndexOf(d, k);
    var r := Set(d, k, v);
    assert forall m :: 0 <= m < |d| ==> r[m].0 == d[m].0;
    if i >= 0 {
      IndexOfUnique(r, k, i);
    } else {
      IndexOfUnique(r, k, |d|);
    }
    if k' != k {
      var j := IndexOf(d, k');
      if j >= 0 {
        IndexOfUnique(r, k', j);
      }
    }
  }

  /** The dictionary built by assigning `pairs` in order (a dict literal or comprehension). */
  function FromPairs<V>(pairs: seq<(string, V)>): (d: Dict<V>)
  {
    if |pairs| == 0 then []
    else Set(FromPairs(pairs[..|pairs| - 1]), pairs[|pairs| - 1].0, pairs[|pairs| - 1].1)
  }

  /** A dictionary built from pairs has one entry per distinct key of the pairs. */
  lemma {:induction false} FromPairsKeys<V>(pairs: seq<(string, V)>)
    ensures DistinctKeys(FromPairs(pairs))
    ensures forall k :: HasKey(FromPairs(pairs), k) <==> HasKey(pairs, k)
  {
    if |pairs| > 0 {
      var init := pairs[..|pairs| - 1];
      var last := pairs[|pairs| - 1];
      FromPairsKeys(init);
      SetKeepsDistinct(FromPairs(init), last.0, last.1);
      forall k ensures HasKey(FromPairs(pairs), k) <==> HasKey(pairs, k) {
        SetGet(FromPairs(init), last.0, last.1, k);
        if HasKey(pairs, k) && last.0 != k {
          var i :| 0 <= i < |pairs| && pairs[i].0 == k;
          assert init[i].0 == k;
        }
        if HasKey(init, k) {
          var i :| 0 <= i < |init| && init[i].0 == k;
          assert pairs[i].0 == k;
        }
      }
    }
  }

  /** With several assignments to one key, the last one is the value that remains. */
  lemma {:induction false} FromPairsLastWins<V>(pairs: seq<(string, V)>, i: nat)
    requires i < |pairs|
    requires forall j :: i < j < |pairs| ==> pairs[j].0 != pairs[i].0
    ensures Get(FromPairs(pairs), pairs[i].0) == Some(pairs[i].1)
  {
    var init := pairs[..|pairs| - 1];
    var last := pairs[|pairs| - 1];
    SetGet(FromPairs(init), last.0, last.1, pairs[i].0);
    if i < |pairs| - 1 {
      FromPairsLastWins(init, i);
    }
  }

  /** When every assignment stores the same value, so does every entry of the result. */
  lemma {:induction false} FromPairsValues<V>(pairs: seq<(string, V)>, v: V)
    requires forall i :: 0 <= i < |pairs| ==> pairs[i].1 == v
    ensures forall i :: 0 <= i < |FromPairs(pairs)| ==> FromPairs(pairs)[i].1 == v
  {
    if |pairs| > 0 {
      var init := pairs[..|pairs| - 1];
      FromPairsValues(init, v);
    }
  }

  /** The values of `d` as a list, in key order. */
  function Values<V>(d: Dict<V>): (vs: seq<V>)
    ensures |vs| == |d| && forall i :: 0 <= i < |d| ==> vs[i] == d[i].1
  {
    seq(|d|, i requires 0 <= i < |d| => d[i].1)
  }
}
