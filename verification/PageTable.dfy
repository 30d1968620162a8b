/** Building the page table: a prefix table of page counts, and for every sequence a
    shuffled slice of physical page numbers. */
module PageTable {
  import opened Arithmetic
  import opened Bags
  import opened Ragged

  function PagesOf(cacheLens: seq<nat>, size: nat): (pages: seq<nat>)
    requires size > 0
    ensures |pages| == |cacheLens|
  {
    seq(|cacheLens|, b requires 0 <= b < |cacheLens| => CeilDiv(cacheLens[b], size))
  }

  /** std::shuffle with its random choices made explicit: position i receives the element that
      was at order[i]. */
  method Shuffle(pages: array<nat>, order: seq<nat>)
    requires IsShuffle(order, pages.Length) && Indices(order, pages.Length)
    modifies pages
    ensures pages[..] == Select(old(pages[..]), order)
    ensures multiset(pages[..]) == multiset(old(pages[..]))
    ensures forall i :: 0 <= i < pages.Length ==> pages[i] == old(pages[order[i]])
  {
    ShuffleBounds(order, pages.Length);
    var before := pages[..];
    for i := 0 to pages.Length
      invariant pages[..i] == Select(before, order)[..i]
    {
      pages[i] := before[order[i]];
    }
    SelectShuffle(before, order);
  }

  method ShuffledPages(n: nat, order: seq<nat>) returns (physicalPages: array<nat>)
    requires IsShuffle(order, n)
    ensures fresh(physicalPages) && physicalPages[..] == order
  {
    ShuffleBounds(order, n);
    physicalPages := new nat[n](i => i);
    assert physicalPages[..] == Iota(n);
    Shuffle(physicalPages, order);
  }

  /** A prefix table starts at zero and steps, sequence by sequence, by the fewest pages that hold it. */
  ghost predicate CountsPages(numPagesPerSeq: seq<nat>, cacheLens: seq<nat>, size: nat) {
    && |numPagesPerSeq| == |cacheLens| + 1 && numPagesPerSeq[0] == 0
    && forall b, b' :: 0 <= b < b' <= |cacheLens| && b' == b + 1 ==>
         HoldsBetween(numPagesPerSeq[b], numPagesPerSeq[b'], cacheLens[b], size)
  }

  // The pages between two table entries hold the length, and one fewer would not.
  predicate HoldsBetween(from: nat, to: nat, len: nat, size: nat) {
    from <= to && (to - from) * size >= len && (from < to ==> (to - from - 1) * size < len)
  }

  lemma PrefixCountsPages(numPagesPerSeq: seq<nat>, cacheLens: seq<nat>, size: nat)
    requires size > 0 && IsPrefixTable(numPagesPerSeq, PagesOf(cacheLens, size))
    ensures CountsPages(numPagesPerSeq, cacheLens, size)
  {
    forall b, b' | 0 <= b < b' <= |cacheLens| && b' == b + 1
      ensures HoldsBetween(numPagesPerSeq[b], numPagesPerSeq[b'], cacheLens[b], size)
    {
      assert numPagesPerSeq[b'] - numPagesPerSeq[b] == CeilDiv(cacheLens[b], size);
      CeilDivCounts(cacheLens[b], size);
      CeilDivCases(cacheLens[b], size);
      DivUnique(0, size, 0, 0);
    }
  }

  /** The first loop: one prefix entry per sequence, and the total page count. */
  method CountPages(cacheLens: seq<nat>, size: nat) returns (numPagesPerSeq: seq<nat>, numPages: nat)
    requires size > 0
    ensures IsPrefixTable(numPagesPerSeq, PagesOf(cacheLens, size))
    ensures CountsPages(numPagesPerSeq, cacheLens, size) && numPages == numPagesPerSeq[|cacheLens|]
  {
    ghost var pages := PagesOf(cacheLens, size);
    numPagesPerSeq := [0];
    numPages := 0;
    for b := 0 to |cacheLens|
      invariant PrefixUpTo(numPagesPerSeq, pages, b) && numPages == numPagesPerSeq[b]
    {
      PrefixStep(numPagesPerSeq, pages, b);
      var pagesPerSeq := CeilDiv(cacheLens[b], size);
      assert pagesPerSeq == pages[b];
      numPagesPerSeq := numPagesPerSeq + [numPagesPerSeq[|numPagesPerSeq| - 1] + pagesPerSeq];
      numPages := numPages + pagesPerSeq;
    }
    PrefixCountsPages(numPagesPerSeq, cacheLens, size);
  }

  /** Sequence b's slice of the table. */
  function Slice(table: seq<nat>, numPagesPerSeq: seq<nat>, b: nat): seq<nat>
    requires b + 1 < |numPagesPerSeq| && numPagesPerSeq[b] <= numPagesPerSeq[b + 1] <= |table|
  {
    table[numPagesPerSeq[b]..numPagesPerSeq[b + 1]]
  }

  ghost predicate SliceIs(table: seq<nat>, numPagesPerSeq: seq<nat>, b: nat, order: seq<nat>) {
    b + 1 < |numPagesPerSeq| && numPagesPerSeq[b] <= numPagesPerSeq[b + 1] <= |table|
    && Slice(table, numPagesPerSeq, b) == order
  }

  // Logical block blk of sequence b lies in this physical page.
  ghost predicate PageAt(table: seq<nat>, numPagesPerSeq: seq<nat>, b: nat, blk: nat, page: nat) {
    b < |numPagesPerSeq| && numPagesPerSeq[b] + blk < |table| && table[numPagesPerSeq[b] + blk] == page
  }

  lemma SlicesGivePages(table: seq<nat>, numPagesPerSeq: seq<nat>, orders: seq<seq<nat>>)
    requires forall b :: 0 <= b < |orders| ==> SliceIs(table, numPagesPerSeq, b, orders[b])
    ensures forall b: nat, blk: nat :: b < |orders| && blk < |orders[b]| ==>
              PageAt(table, numPagesPerSeq, b, blk, orders[b][blk])
  {
    forall b: nat, blk: nat | b < |orders| && blk < |orders[b]|
      ensures PageAt(table, numPagesPerSeq, b, blk, orders[b][blk])
    {
      assert SliceIs(table, numPagesPerSeq, b, orders[b]);
      assert Slice(table, numPagesPerSeq, b)[blk] == orders[b][blk];
    }
  }

  /** One shuffle of the physical page numbers for every sequence. */
  ghost predicate AreShuffles(orders: seq<seq<nat>>, pages: seq<nat>) {
    |orders| == |pages| && forall b :: 0 <= b < |pages| ==> IsShuffle(orders[b], pages[b])
  }

  /** Counts the pages of every sequence, then fills each sequence's slice of the table with a
      shuffle of its physical page numbers. */
  method BuildPageTable(cacheLens: seq<nat>, size: nat, orders: seq<seq<nat>>)
    returns (numPagesPerSeq: seq<nat>, pageMapping: array<nat>)
    requires size > 0 && AreShuffles(orders, PagesOf(cacheLens, size))
    ensures fresh(pageMapping)
    ensures IsPrefixTable(numPagesPerSeq, PagesOf(cacheLens, size))
    ensures CountsPages(numPagesPerSeq, cacheLens, size) && pageMapping.Length == numPagesPerSeq[|cacheLens|]
    ensures forall b :: 0 <= b < |cacheLens| ==> SliceIs(pageMapping[..], numPagesPerSeq, b, orders[b])
    ensures forall b: nat, blk: nat :: b < |orders| && blk < |orders[b]| ==>
              PageAt(pageMapping[..], numPagesPerSeq, b, blk, orders[b][blk])
  {
    ghost var pages := PagesOf(cacheLens, size);
    var numPages;
    numPagesPerSeq, numPages := CountPages(cacheLens, size);
    pageMapping := new nat[numPages](_ => 0);
    for b := 0 to |cacheLens|
      invariant forall k :: 0 <= k < b ==> SliceIs(pageMapping[..], numPagesPerSeq, k, orders[k])
    {
      FillSlice(pageMapping, numPagesPerSeq, pages, b, orders);
    }
    SlicesGivePages(pageMapping[..], numPagesPerSeq, orders);
  }

  /** One round of the second loop: shuffles sequence b's pages and writes them to its slice. */
  method FillSlice(pageMapping: array<nat>, numPagesPerSeq: seq<nat>, ghost pages: seq<nat>, b: nat,
                   orders: seq<seq<nat>>)
    requires IsPrefixTable(numPagesPerSeq, pages) && AreShuffles(orders, pages) && b < |pages|
    requires pageMapping.Length == numPagesPerSeq[|pages|]
    requires forall k :: 0 <= k < b ==> SliceIs(pageMapping[..], numPagesPerSeq, k, orders[k])
    modifies pageMapping
    ensures forall k :: 0 <= k < b + 1 ==> SliceIs(pageMapping[..], numPagesPerSeq, k, orders[k])
  {
    CumMonotone(pages, b + 1, |pages|);
    var start, before := numPagesPerSeq[b], pageMapping[..];
    var physicalPages := ShuffledPages(numPagesPerSeq[b + 1] - start, orders[b]);
    CopyPages(pageMapping, start, physicalPages);
    ShuffleBounds(orders[b], pages[b]);
    EarlierSlicesStay(before, pageMapping[..], numPagesPerSeq, pages, b, orders);
  }

  lemma EarlierSlicesStay(before: seq<nat>, after: seq<nat>, numPagesPerSeq: seq<nat>, pages: seq<nat>, b: nat,
                          orders: seq<seq<nat>>)
    requires IsPrefixTable(numPagesPerSeq, pages) && b < |orders| == |pages|
    requires |before| == |after| && numPagesPerSeq[b] <= numPagesPerSeq[b + 1] <= |before|
    requires before[..numPagesPerSeq[b]] == after[..numPagesPerSeq[b]]
    requires after[numPagesPerSeq[b]..numPagesPerSeq[b + 1]] == orders[b]
    requires forall k :: 0 <= k < b ==> SliceIs(before, numPagesPerSeq, k, orders[k])
    ensures forall k :: 0 <= k < b + 1 ==> SliceIs(after, numPagesPerSeq, k, orders[k])
  {
    forall k | 0 <= k < b
      ensures SliceIs(after, numPagesPerSeq, k, orders[k])
    {
      CumMonotone(pages, k + 1, b);
      assert SliceIs(before, numPagesPerSeq, k, orders[k]);
      var n := numPagesPerSeq[b];
      var lo, hi := numPagesPerSeq[k], numPagesPerSeq[k + 1];
      assert before[..n][lo..hi] == after[..n][lo..hi];
    }
  }

  method CopyPages(pageMapping: array<nat>, start: nat, physicalPages: array<nat>)
    requires pageMapping != physicalPages && start + physicalPages.Length <= pageMapping.Length
    modifies pageMapping
    ensures pageMapping[..start] == old(pageMapping[..start])
    ensures pageMapping[start..start + physicalPages.Length] == physicalPages[..]
    ensures pageMapping[start + physicalPages.Length..] == old(pageMapping[start + physicalPages.Length..])
  {
    for blk := 0 to physicalPages.Length
      invariant forall i :: 0 <= i < pageMapping.Length ==>
                  pageMapping[i] == if start <= i < start + blk then physicalPages[i - start] else old(pageMapping[i])
    {
      var logicalIdx := start + blk;
      pageMapping[logicalIdx] := physicalPages[blk];
    }
  }

  /** The slot of a sequence's logical block. */
  function Slot(numPagesPerSeq: seq<nat>, b: nat, blk: nat): nat
    requires b < |numPagesPerSeq|
  {
    numPagesPerSeq[b] + blk
  }

  lemma SlotInTable(numPagesPerSeq: seq<nat>, pages: seq<nat>, b: nat, blk: nat)
    requires IsPrefixTable(numPagesPerSeq, pages) && b < |pages| && blk < pages[b]
    ensures Slot(numPagesPerSeq, b, blk) < numPagesPerSeq[|pages|]
  {
    CumMonotone(pages, b + 1, |pages|);
  }

  /** Every table slot belongs to exactly one (sequence, logical block) pair. */
  lemma SlotOwner(numPagesPerSeq: seq<nat>, pages: seq<nat>, slot: nat) returns (b: nat, blk: nat)
    requires IsPrefixTable(numPagesPerSeq, pages) && slot < numPagesPerSeq[|pages|]
    ensures b < |pages| && blk < pages[b] && Slot(numPagesPerSeq, b, blk) == slot
    ensures forall b': nat, blk': nat ::
              (b' < |pages| && blk' < pages[b'] && Slot(numPagesPerSeq, b', blk') == slot) ==> b' == b && blk' == blk
  {
    b, blk := Locate(pages, |pages|, slot);
    forall b': nat, blk': nat | b' < |pages| && blk' < pages[b'] && Slot(numPagesPerSeq, b', blk') == slot
      ensures b' == b && blk' == blk
    {
      LocateUnique(pages, b, blk, b', blk');
    }
  }

  /** For fixed lengths the check computes the slice start as b * (len / size) instead of reading
      the prefix table. The two agree for every sequence exactly when the pages divide the length
      or there is at most one sequence. */
  lemma FixedLengthShortcut(len: nat, size: nat, batch: nat)
    requires size > 0
    ensures (forall b: nat :: b < batch ==> Cum(PagesOf(seq(batch, _ => len), size), b) == b * (len / size))
       <==> len % size == 0 || batch <= 1
  {
    var pages := PagesOf(seq(batch, _ => len), size);
    CeilDivCases(len, size);
    forall b: nat | b < batch
      ensures Cum(pages, b) == b * CeilDiv(len, size)
    {
      CumOfEqualRuns(pages, CeilDiv(len, size), b);
    }
    if len % size != 0 && batch > 1 {
      assert Cum(pages, 1) == CeilDiv(len, size) != 1 * (len / size);
    }
  }
}
