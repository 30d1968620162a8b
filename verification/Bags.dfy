/** Sequences compared as bags, and shuffles of an index range. */
module Bags {
  import opened Matrices

  /** Two equal bags stay equal when the last element of one is taken out of both. */
  lemma TakeLast<T>(a: seq<T>, b: seq<T>) returns (k: nat)
    requires multiset(a) == multiset(b) && |a| > 0
    ensures k < |b| && b[k] == a[|a| - 1]
    ensures multiset(a[..|a| - 1]) == multiset(b[..k] + b[k + 1..])
  {
    var n := |a| - 1;
    assert a == a[..n] + [a[n]];
    assert a[n] in multiset(b);
    k :| 0 <= k < |b| && b[k] == a[n];
    assert b == b[..k] + [b[k]] + b[k + 1..];
    assert multiset(b[..k] + b[k + 1..]) == multiset(b) - multiset{b[k]};
    assert multiset(a[..n]) == multiset(a) - multiset{a[n]};
  }

  lemma SameLength<T>(a: seq<T>, b: seq<T>)
    requires multiset(a) == multiset(b)
    ensures |a| == |b|
  {
    assert |a| == |multiset(a)| == |multiset(b)| == |b|;
  }

  predicate Indices(idx: seq<nat>, n: nat) {
    forall i :: 0 <= i < |idx| ==> idx[i] < n
  }

  function Select<T>(xs: seq<T>, idx: seq<nat>): (r: seq<T>)
    requires Indices(idx, |xs|)
    ensures |r| == |idx|
  {
    seq(|idx|, i requires 0 <= i < |idx| => xs[idx[i]])
  }

  function Iota(n: nat): seq<nat> {
    seq(n, i => i)
  }

  /** A shuffle of 0 .. n-1. */
  ghost predicate IsShuffle(s: seq<nat>, n: nat) {
    multiset(s) == multiset(Iota(n))
  }

  lemma ShuffleBounds(s: seq<nat>, n: nat)
    requires IsShuffle(s, n)
    ensures |s| == n && Indices(s, n)
  {
    SameLength(s, Iota(n));
    forall i | 0 <= i < n
      ensures s[i] < n
    {
      assert s[i] in multiset(Iota(n));
    }
  }

  lemma ShuffleHits(s: seq<nat>, n: nat, x: nat) returns (i: nat)
    requires IsShuffle(s, n) && x < n
    ensures i < |s| && s[i] == x
  {
    assert Iota(n)[x] == x;
    assert x in multiset(s);
    i :| 0 <= i < |s| && s[i] == x;
  }

  lemma {:induction false} IotaOnce(n: nat, x: nat)
    requires x < n
    ensures multiset(Iota(n))[x] == 1
  {
    assert Iota(n) == Iota(n - 1) + [n - 1];
    if x < n - 1 {
      IotaOnce(n - 1, x);
    } else {
      assert x !in Iota(n - 1);
    }
  }

  lemma ShuffleDistinct(s: seq<nat>, n: nat, i: nat, j: nat)
    requires IsShuffle(s, n) && i < j < |s| == n
    ensures s[i] != s[j]
  {
    ShuffleBounds(s, n);
    IotaOnce(n, s[j]);
    assert s == s[..j] + [s[j]] + s[j + 1..];
    assert s[..j][i] == s[i];
    assert s[j] in s[..j] ==> multiset(s)[s[j]] >= 2;
  }

  /** Selecting by equal bags of indices gives equal bags of elements. */
  lemma {:induction false} SelectPermutes<T>(xs: seq<T>, a: seq<nat>, b: seq<nat>)
    requires multiset(a) == multiset(b) && Indices(a, |xs|) && Indices(b, |xs|)
    ensures multiset(Select(xs, a)) == multiset(Select(xs, b))
    decreases |a|
  {
    SameLength(a, b);
    if |a| > 0 {
      var n := |a| - 1;
      var k := TakeLast(a, b);
      SelectPermutes(xs, a[..n], b[..k] + b[k + 1..]);
      var x, y := Select(xs, a), Select(xs, b);
      assert x == Select(xs, a[..n]) + [x[n]];
      assert y == y[..k] + [y[k]] + y[k + 1..];
      assert y[..k] + y[k + 1..] == Select(xs, b[..k] + b[k + 1..]);
    }
  }

  /** Selecting through a shuffle only rearranges. */
  lemma SelectShuffle<T>(xs: seq<T>, order: seq<nat>)
    requires IsShuffle(order, |xs|) && Indices(order, |xs|)
    ensures multiset(Select(xs, order)) == multiset(xs)
  {
    SelectPermutes(xs, order, Iota(|xs|));
    assert Select(xs, Iota(|xs|)) == xs;
  }

  lemma {:induction false} FlattenRemove<T>(rows: seq<seq<T>>, k: nat)
    requires k < |rows|
    ensures multiset(Flatten(rows)) == multiset(Flatten(rows[..k] + rows[k + 1..])) + multiset(rows[k])
  {
    assert rows == rows[..k] + [rows[k]] + rows[k + 1..];
    FlattenConcat(rows[..k] + [rows[k]], rows[k + 1..]);
    FlattenConcat(rows[..k], [rows[k]]);
    FlattenConcat(rows[..k], rows[k + 1..]);
    assert Flatten([rows[k]]) == rows[k];
  }

  /** Equal bags of blocks hold equal bags of elements. */
  lemma {:induction false} FlattenPermutes<T>(a: seq<seq<T>>, b: seq<seq<T>>)
    requires multiset(a) == multiset(b)
    ensures multiset(Flatten(a)) == multiset(Flatten(b))
    decreases |a|
  {
    SameLength(a, b);
    if |a| > 0 {
      var k := TakeLast(a, b);
      FlattenRemove(b, k);
      FlattenPermutes(a[..|a| - 1], b[..k] + b[k + 1..]);
    }
  }
}
