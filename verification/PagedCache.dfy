/** Reading a cached sequence through its slice of the page table. */
module PagedCache {
  import opened Arithmetic
  import opened Bags
  import opened Matrices

  // How many rows the copy of logical page i moves.
  function CopyLen(size: nat, len: nat, i: nat): nat
    requires i * size <= len
  {
    if size <= len - i * size then size else len - i * size
  }

  // The copy of logical page i stays inside a segment of len rows.
  ghost predicate PageFits(table: seq<nat>, size: nat, len: nat, i: nat) {
    i < |table| && i * size <= len && table[i] * size + CopyLen(size, len, i) <= len
  }

  /** Every copy that the table asks for stays inside a segment of len rows. */
  ghost predicate InSegment(table: seq<nat>, size: nat, len: nat) {
    && size > 0 && |table| == CeilDiv(len, size)
    && (forall i :: 0 <= i < |table| ==> PageFits(table, size, len, i))
  }

  function PhysicalRow(table: seq<nat>, size: nat, j: nat): nat
    requires size > 0 && j / size < |table|
  {
    table[j / size] * size + j % size
  }

  lemma PageOfRow(size: nat, len: nat, j: nat)
    requires size > 0 && j < len
    ensures j / size < CeilDiv(len, size) && j == (j / size) * size + j % size && j % size < size
  {
    CeilDivCounts(len, size);
    DivModEquation(j, size);
    if j / size >= CeilDiv(len, size) {
      MulMonotone(CeilDiv(len, size), j / size, size);
    }
  }

  lemma PhysicalRowInSegment(table: seq<nat>, size: nat, len: nat, j: nat)
    requires InSegment(table, size, len) && j < len
    ensures j / size < |table| && PhysicalRow(table, size, j) < len
  {
    PageOfRow(size, len, j);
    var i, o := j / size, j % size;
    assert o < CopyLen(size, len, i);
    assert PageFits(table, size, len, i);
  }

  /** The sequence as the page table presents it: logical row j is physical row PhysicalRow(j). */
  function Gather<T>(rows: seq<T>, table: seq<nat>, size: nat): (r: seq<T>)
    requires InSegment(table, size, |rows|)
    ensures |r| == |rows|
  {
    seq(|rows|, j requires 0 <= j < |rows| =>
      PhysicalRowInSegment(table, size, |rows|, j);
      rows[PhysicalRow(table, size, j)])
  }

  lemma GatherAt<T>(rows: seq<T>, table: seq<nat>, size: nat, i: nat, start: nat, j: nat)
    requires InSegment(table, size, |rows|) && i < |table| && start == i * size <= |rows|
    requires start <= j < start + CopyLen(size, |rows|, i)
    ensures j < |rows| && 0 <= table[i] * size + (j - start) < |rows|
    ensures Gather(rows, table, size)[j] == rows[table[i] * size + (j - start)]
  {
    DivUnique(j, size, i, j - start);
    assert PageFits(table, size, |rows|, i);
  }

  /** One page of the gathered sequence is one contiguous block of the cache. */
  lemma GatherPage<T>(rows: seq<T>, table: seq<nat>, size: nat, i: nat)
    requires InSegment(table, size, |rows|) && i < |table|
    ensures PageFits(table, size, |rows|, i)
    ensures var n := CopyLen(size, |rows|, i);
            && i * size + n <= |rows|
            && Gather(rows, table, size)[i * size..i * size + n] == rows[table[i] * size..table[i] * size + n]
  {
    assert PageFits(table, size, |rows|, i);
    PageRows(rows, table, size, i, i * size, table[i] * size, CopyLen(size, |rows|, i));
  }

  lemma PageRows<T>(rows: seq<T>, table: seq<nat>, size: nat, i: nat, start: nat, phys: nat, n: nat)
    requires InSegment(table, size, |rows|) && PageFits(table, size, |rows|, i)
    requires start == i * size && phys == table[i] * size && n == CopyLen(size, |rows|, i)
    ensures start + n <= |rows| && Gather(rows, table, size)[start..start + n] == rows[phys..phys + n]
  {
    PageElements(rows, table, size, i, start, phys, n);
    SlicesAgree(Gather(rows, table, size), start, rows, phys, n);
  }

  lemma PageElements<T>(rows: seq<T>, table: seq<nat>, size: nat, i: nat, start: nat, phys: nat, n: nat)
    requires InSegment(table, size, |rows|) && PageFits(table, size, |rows|, i)
    requires start == i * size && phys == table[i] * size && n == CopyLen(size, |rows|, i)
    ensures start + n <= |rows| && phys + n <= |rows|
    ensures forall j :: start <= j < start + n ==> Gather(rows, table, size)[j] == rows[phys + (j - start)]
  {
    forall j | start <= j < start + n
      ensures Gather(rows, table, size)[j] == rows[phys + (j - start)]
    {
      GatherAt(rows, table, size, i, start, j);
    }
  }

  lemma SlicesAgree<T>(a: seq<T>, from: nat, b: seq<T>, to: nat, n: nat)
    requires from + n <= |a| && to + n <= |b|
    requires forall j :: from <= j < from + n ==> a[j] == b[to + (j - from)]
    ensures a[from..from + n] == b[to..to + n]
  {
    var x, y := a[from..from + n], b[to..to + n];
    forall k | 0 <= k < n
      ensures x[k] == y[k]
    {
      assert a[from + k] == b[to + k];
    }
  }

  // ----- a shuffled table stays in its segment exactly when no partial page moves

  // Pages i and p hold equally many rows, or only whole pages are involved.
  predicate SamePage(i: nat, p: nat, size: nat, len: nat)
    requires size > 0
  {
    var pages := CeilDiv(len, size);
    i < pages && p < pages && (len % size == 0 || i == p || (i + 1 < pages && p + 1 < pages))
  }

  lemma SamePageLength(i: nat, p: nat, size: nat, len: nat)
    requires size > 0 && SamePage(i, p, size, len)
    ensures i * size <= len && p * size <= len
    ensures CopyLen(size, len, i) == CopyLen(size, len, p) && p * size + CopyLen(size, len, i) <= len
  {
    StartsBefore(i, size, len);
    StartsBefore(p, size, len);
  }

  ghost predicate KeepsPartialPage(table: seq<nat>, size: nat, len: nat)
    requires size > 0
  {
    len % size == 0 || (|table| > 0 && table[|table| - 1] == |table| - 1)
  }

  lemma ShufflePagesMatch(table: seq<nat>, size: nat, len: nat, i: nat)
    requires size > 0 && IsShuffle(table, CeilDiv(len, size)) && KeepsPartialPage(table, size, len)
    requires i < |table|
    ensures SamePage(i, table[i], size, len)
  {
    var pages := CeilDiv(len, size);
    ShuffleBounds(table, pages);
    if len % size != 0 && i + 1 < pages {
      ShuffleDistinct(table, pages, i, pages - 1);
    }
  }

  lemma PartialPageLeaves(table: seq<nat>, size: nat, len: nat)
    requires size > 0 && IsShuffle(table, CeilDiv(len, size)) && !KeepsPartialPage(table, size, len)
    ensures !InSegment(table, size, len)
  {
    var pages := CeilDiv(len, size);
    CeilDivCases(len, size);
    ShuffleBounds(table, pages);
    var i := ShuffleHits(table, pages, pages - 1);
    StartsBefore(i, size, len);
    assert CopyLen(size, len, i) == size;
    if InSegment(table, size, len) {
      assert PageFits(table, size, len, i);
    }
    CeilDivCounts(len, size);
    MulSucc(pages - 1, size);
    DivModEquation(len, size);
    MulSucc(len / size, size);
  }

  /** A shuffled table keeps every copy inside the sequence's segment exactly when the pages
      divide its length, or its partial last page is left in place. */
  lemma ShuffleInSegment(table: seq<nat>, size: nat, len: nat)
    requires size > 0 && IsShuffle(table, CeilDiv(len, size))
    ensures InSegment(table, size, len) <==> KeepsPartialPage(table, size, len)
  {
    if KeepsPartialPage(table, size, len) {
      ShuffleBounds(table, CeilDiv(len, size));
      forall i | 0 <= i < |table|
        ensures PageFits(table, size, len, i)
      {
        ShufflePagesMatch(table, size, len, i);
        SamePageLength(i, table[i], size, len);
      }
    } else {
      PartialPageLeaves(table, size, len);
    }
  }

  /** The page size suits the length: pages divide it, or one page holds it all. */
  predicate PageSizeFits(size: nat, len: nat)
    requires size > 0
  {
    len % size == 0 || len < size
  }

  // The page numbers in order, but for the last two.
  function LastTwoSwapped(n: nat): seq<nat>
    requires n >= 2
  {
    Iota(n - 2) + [n - 1, n - 2]
  }

  lemma LastTwoSwappedIsShuffle(n: nat)
    requires n >= 2
    ensures IsShuffle(LastTwoSwapped(n), n)
  {
    assert Iota(n) == Iota(n - 2) + [n - 2, n - 1];
  }

  lemma FittingSizeKeepsPartialPage(table: seq<nat>, size: nat, len: nat)
    requires size > 0 && IsShuffle(table, CeilDiv(len, size)) && PageSizeFits(size, len)
    ensures KeepsPartialPage(table, size, len)
  {
    if len % size != 0 {
      CeilDivCases(len, size);
      DivUnique(len, size, 0, len);
      ShuffleBounds(table, 1);
    }
  }

  lemma OtherSizesLosePartialPage(size: nat, len: nat)
    requires size > 0 && !PageSizeFits(size, len)
    ensures CeilDiv(len, size) >= 2
    ensures !KeepsPartialPage(LastTwoSwapped(CeilDiv(len, size)), size, len)
  {
    CeilDivCases(len, size);
    DivModEquation(len, size);
  }

  /** No shuffle at all leads a copy out of the segment exactly when the page size suits the length. */
  lemma EveryShuffleInSegment(size: nat, len: nat)
    requires size > 0
    ensures (forall table :: IsShuffle(table, CeilDiv(len, size)) ==> InSegment(table, size, len))
       <==> PageSizeFits(size, len)
  {
    if PageSizeFits(size, len) {
      forall table | IsShuffle(table, CeilDiv(len, size))
        ensures InSegment(table, size, len)
      {
        FittingSizeKeepsPartialPage(table, size, len);
        ShuffleInSegment(table, size, len);
      }
    } else {
      OtherSizesLosePartialPage(size, len);
      var table := LastTwoSwapped(CeilDiv(len, size));
      LastTwoSwappedIsShuffle(CeilDiv(len, size));
      ShuffleInSegment(table, size, len);
    }
  }

  // ----- gathering through a shuffled table only rearranges the rows

  /** The cache cut into its physical pages. */
  function Pages<T>(rows: seq<T>, size: nat): (pages: seq<seq<T>>)
    requires size > 0
    ensures |pages| == CeilDiv(|rows|, size)
  {
    seq(CeilDiv(|rows|, size), p requires 0 <= p < CeilDiv(|rows|, size) =>
      StartsBefore(p, size, |rows|);
      rows[p * size..p * size + CopyLen(size, |rows|, p)])
  }

  // Row count after the first i pages.
  function Reached(size: nat, len: nat, i: nat): nat {
    if i * size <= len then i * size else len
  }

  lemma ReachedStep(size: nat, len: nat, i: nat)
    requires size > 0 && i < CeilDiv(len, size)
    ensures Reached(size, len, i) == i * size <= len
    ensures Reached(size, len, i + 1) == i * size + CopyLen(size, len, i) <= len
  {
    StartsBefore(i, size, len);
    MulSucc(i, size);
  }

  /** Physical page table[i] holds rows Reached(i) up to Reached(i + 1) of the gathered sequence. */
  lemma PickedPage<T>(rows: seq<T>, table: seq<nat>, size: nat, i: nat)
    requires InSegment(table, size, |rows|) && i < |table| && SamePage(i, table[i], size, |rows|)
    ensures 0 <= Reached(size, |rows|, i) <= Reached(size, |rows|, i + 1) <= |rows|
    ensures Pages(rows, size)[table[i]]
         == Gather(rows, table, size)[Reached(size, |rows|, i)..Reached(size, |rows|, i + 1)]
  {
    ReachedStep(size, |rows|, i);
    GatherPage(rows, table, size, i);
    SamePageLength(i, table[i], size, |rows|);
  }

  ghost predicate IsCut<T>(chunks: seq<seq<T>>, g: seq<T>, cuts: seq<nat>, i: nat) {
    i < |chunks| && i + 1 < |cuts| && cuts[i] <= cuts[i + 1] <= |g| && chunks[i] == g[cuts[i]..cuts[i + 1]]
  }

  /** Consecutive slices of a sequence, laid end to end, give the sequence up to the last cut. */
  lemma {:induction false} FlattenCuts<T>(chunks: seq<seq<T>>, g: seq<T>, cuts: seq<nat>)
    requires |cuts| == |chunks| + 1 && cuts[0] == 0
    requires forall i :: 0 <= i < |chunks| ==> IsCut(chunks, g, cuts, i)
    ensures cuts[|chunks|] <= |g| && Flatten(chunks) == g[..cuts[|chunks|]]
  {
    var n := |chunks|;
    if n > 0 {
      var chunks', cuts' := chunks[..n - 1], cuts[..n];
      forall i | 0 <= i < n - 1
        ensures IsCut(chunks', g, cuts', i)
      {
        assert IsCut(chunks, g, cuts, i);
      }
      FlattenCuts(chunks', g, cuts');
      assert IsCut(chunks, g, cuts, n - 1);
      assert chunks[n - 1] == g[cuts[n - 1]..cuts[n]];
      assert g[..cuts[n]] == g[..cuts[n - 1]] + g[cuts[n - 1]..cuts[n]];
    }
  }

  /** Physical pages, taken in table order, line up to the gathered sequence. */
  lemma ShuffleLinesUp<T>(rows: seq<T>, table: seq<nat>, size: nat)
    requires size > 0 && IsShuffle(table, CeilDiv(|rows|, size)) && InSegment(table, size, |rows|)
    ensures Indices(table, CeilDiv(|rows|, size))
    ensures Flatten(Select(Pages(rows, size), table)) == Gather(rows, table, size)
  {
    var n := |table|;
    ShuffleBounds(table, n);
    ShuffleInSegment(table, size, |rows|);
    var picked, g := Select(Pages(rows, size), table), Gather(rows, table, size);
    var cuts := seq(n + 1, i requires 0 <= i <= n => Reached(size, |rows|, i));
    forall i | 0 <= i < n
      ensures IsCut(picked, g, cuts, i)
    {
      ShufflePagesMatch(table, size, |rows|, i);
      PickedPage(rows, table, size, i);
    }
    FlattenCuts(picked, g, cuts);
    CeilDivCounts(|rows|, size);
    assert g[..|rows|] == g;
  }

  lemma IotaRow(size: nat, len: nat, j: nat)
    requires size > 0 && j < len
    ensures j / size < CeilDiv(len, size) && PhysicalRow(Iota(CeilDiv(len, size)), size, j) == j
  {
    PageOfRow(size, len, j);
  }

  /** The identity table presents the cache as it is stored. */
  lemma GatherIota<T>(rows: seq<T>, size: nat)
    requires size > 0
    ensures InSegment(Iota(CeilDiv(|rows|, size)), size, |rows|)
    ensures Gather(rows, Iota(CeilDiv(|rows|, size)), size) == rows
  {
    var iota := Iota(CeilDiv(|rows|, size));
    CeilDivCases(|rows|, size);
    ShuffleInSegment(iota, size, |rows|);
    var g := Gather(rows, iota, size);
    forall j | 0 <= j < |rows|
      ensures g[j] == rows[j]
    {
      IotaRow(size, |rows|, j);
    }
  }

  /** Gathering through any shuffled table that stays in its segment rearranges the rows: none is
      lost, none is read twice. */
  lemma GatherRearranges<T>(rows: seq<T>, table: seq<nat>, size: nat)
    requires size > 0 && IsShuffle(table, CeilDiv(|rows|, size)) && InSegment(table, size, |rows|)
    ensures multiset(Gather(rows, table, size)) == multiset(rows)
  {
    var iota := Iota(CeilDiv(|rows|, size));
    GatherIota(rows, size);
    ShuffleLinesUp(rows, table, size);
    ShuffleLinesUp(rows, iota, size);
    SelectPermutes(Pages(rows, size), table, iota);
    FlattenPermutes(Select(Pages(rows, size), table), Select(Pages(rows, size), iota));
  }

  /** The cached rows as the page table presents them, or as they are stored when there is none. */
  function Presented<T>(rows: seq<T>, size: nat, table: seq<nat>): (r: seq<T>)
    requires size > 0 && |rows| > 0 ==> InSegment(table, size, |rows|)
    ensures |r| == |rows|
  {
    if size > 0 && |rows| > 0 then Gather(rows, table, size) else rows
  }
}
