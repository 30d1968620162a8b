/** Runs of different lengths laid end to end, and their running totals. */
module Ragged {

  /** Total length of the first b runs. */
  function Cum(lens: seq<nat>, b: nat): nat
    requires b <= |lens|
  {
    if b == 0 then 0 else Cum(lens, b - 1) + lens[b - 1]
  }

  lemma {:induction false} CumMonotone(lens: seq<nat>, a: nat, b: nat)
    requires a <= b <= |lens|
    ensures Cum(lens, a) <= Cum(lens, b)
    decreases b - a
  {
    if a < b {
      CumMonotone(lens, a + 1, b);
    }
  }

  /** Every position below the total lies in some run ... */
  lemma {:induction false} Locate(lens: seq<nat>, n: nat, p: nat) returns (b: nat, o: nat)
    requires n <= |lens| && p < Cum(lens, n)
    ensures b < n && o < lens[b] && p == Cum(lens, b) + o
    decreases n
  {
    if p < Cum(lens, n - 1) {
      b, o := Locate(lens, n - 1, p);
    } else {
      b, o := n - 1, p - Cum(lens, n - 1);
    }
  }

  /** ... and in no other. */
  lemma LocateUnique(lens: seq<nat>, b: nat, o: nat, b': nat, o': nat)
    requires b < |lens| && o < lens[b] && b' < |lens| && o' < lens[b']
    requires Cum(lens, b) + o == Cum(lens, b') + o'
    ensures b == b' && o == o'
  {
    if b < b' {
      CumMonotone(lens, b + 1, b');
    } else if b' < b {
      CumMonotone(lens, b' + 1, b);
    }
  }

  lemma {:induction false} CumOfEqualRuns(lens: seq<nat>, len: nat, b: nat)
    requires b <= |lens| && forall i :: 0 <= i < b ==> lens[i] == len
    ensures Cum(lens, b) == b * len
  {
    if b > 0 {
      CumOfEqualRuns(lens, len, b - 1);
      assert (b - 1) * len + len == b * len;
    }
  }

  /** The first n + 1 running totals. */
  ghost predicate PrefixUpTo(table: seq<nat>, lens: seq<nat>, n: nat) {
    n <= |lens| && |table| == n + 1 && forall b :: 0 <= b <= n ==> table[b] == Cum(lens, b)
  }

  lemma PrefixStep(table: seq<nat>, lens: seq<nat>, n: nat)
    requires PrefixUpTo(table, lens, n) && n < |lens|
    ensures PrefixUpTo(table + [table[|table| - 1] + lens[n]], lens, n + 1)
  {
  }

  /** A table of running totals: starts at zero and grows by each run's length. */
  ghost predicate IsPrefixTable(table: seq<nat>, lens: seq<nat>) {
    PrefixUpTo(table, lens, |lens|)
  }
}
