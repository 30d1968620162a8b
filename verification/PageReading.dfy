/** Reading back the page table that a launch was set up with: when the check finds every sequence's own
    pages, for one draw of shuffles and for all of them. */
module PageReading {
  import opened Arithmetic
  import opened Attention
  import opened Bags
  import opened GroupedAttention
  import opened HostCheck
  import opened LaunchSetup
  import opened Matrices
  import opened PagedCache
  import opened PageTable
  import opened Ragged
  import opened SequenceTables

  /** The start index finds every sequence's own pages: always in variable-length mode; with fixed lengths
      when pages divide the length, one page holds it, or there is only one sequence. */
  predicate SlicesFindable(isVarLen: bool, seqLenKVCache: nat, pageSize: nat, batch: nat)
    requires pageSize > 0
  {
    isVarLen || PageSizeFits(pageSize, seqLenKVCache) || batch <= 1
  }

  lemma SliceIsOrder(t: LaunchTables, s: LaunchShape, orders: seq<seq<nat>>, b: nat)
    requires t.Cover(s.batch) && t.pageSize > 0 && FilledFrom(t, s, orders) && b < s.batch
    requires SlicesFindable(t.isVarLen, s.seqLenKVCache, t.pageSize, s.batch)
    ensures t.TableSlice(b, t.ShapeOf(s).cache[b]) == orders[b]
  {
    var len := t.ShapeOf(s).cache[b];
    FilledSlice(t, s, orders, b);
    if t.isVarLen {
      StartedSlice(t, b, len, orders[b]);
    } else {
      FixedSlice(t, s, orders, b);
    }
  }

  lemma FixedSlice(t: LaunchTables, s: LaunchShape, orders: seq<seq<nat>>, b: nat)
    requires !t.isVarLen && t.Cover(s.batch) && t.pageSize > 0 && FilledFrom(t, s, orders) && b < s.batch
    requires SlicesFindable(false, s.seqLenKVCache, t.pageSize, s.batch)
    ensures t.TableSlice(b, s.seqLenKVCache) == orders[b]
  {
    if s.seqLenKVCache % t.pageSize == 0 || s.batch <= 1 {
      FilledSlice(t, s, orders, b);
      ShortcutStart(t, s, b);
      StartedSlice(t, b, s.seqLenKVCache, orders[b]);
    } else {
      SinglePageSlice(t, s, orders, b);
    }
  }

  // What a filled table says of one sequence.
  lemma FilledSlice(t: LaunchTables, s: LaunchShape, orders: seq<seq<nat>>, b: nat)
    requires t.Cover(s.batch) && t.pageSize > 0 && FilledFrom(t, s, orders) && b < s.batch
    ensures var start, n := Cum(PagesOf(t.ShapeOf(s).cache, t.pageSize), b), CeilDiv(t.ShapeOf(s).cache[b], t.pageSize);
            && b < |t.numPagesPerSeq| && t.numPagesPerSeq[b] == start
            && start + n <= |t.pageTable| && t.pageTable[start..start + n] == orders[b]
            && IsShuffle(orders[b], n)
  {
    SliceStarts(t.pageTable, t.numPagesPerSeq, PagesOf(t.ShapeOf(s).cache, t.pageSize), b, orders[b]);
  }

  lemma SliceStarts(table: seq<nat>, numPagesPerSeq: seq<nat>, pages: seq<nat>, b: nat, order: seq<nat>)
    requires IsPrefixTable(numPagesPerSeq, pages) && b < |pages| && SliceIs(table, numPagesPerSeq, b, order)
    ensures var start := Cum(pages, b);
            && numPagesPerSeq[b] == start && start + pages[b] <= |table| && table[start..start + pages[b]] == order
  {
    assert numPagesPerSeq[b] == Cum(pages, b) && numPagesPerSeq[b + 1] == Cum(pages, b + 1);
  }

  lemma StartedSlice(t: LaunchTables, b: nat, len: nat, order: seq<nat>)
    requires t.pageSize > 0 && (t.isVarLen ==> b < |t.numPagesPerSeq|)
    requires var start, n := t.StartPageIdx(b, len), CeilDiv(len, t.pageSize);
             start + n <= |t.pageTable| && t.pageTable[start..start + n] == order
    ensures t.TableSlice(b, len) == order
  {
  }

  /** With fixed lengths the shortcut start is the prefix entry, if the two agree for this many sequences. */
  lemma ShortcutStart(t: LaunchTables, s: LaunchShape, b: nat)
    requires !t.isVarLen && t.Cover(s.batch) && t.pageSize > 0 && b < s.batch
    requires s.seqLenKVCache % t.pageSize == 0 || s.batch <= 1
    ensures t.StartPageIdx(b, s.seqLenKVCache) == Cum(PagesOf(t.ShapeOf(s).cache, t.pageSize), b)
  {
    assert t.ShapeOf(s).cache == seq(s.batch, _ => s.seqLenKVCache);
    FixedLengthShortcut(s.seqLenKVCache, t.pageSize, s.batch);
  }

  /** When one page holds a fixed length, every slice is [0], and so is the one at the start of the table. */
  lemma SinglePageSlice(t: LaunchTables, s: LaunchShape, orders: seq<seq<nat>>, b: nat)
    requires !t.isVarLen && t.Cover(s.batch) && t.pageSize > 0 && FilledFrom(t, s, orders) && b < s.batch
    requires s.seqLenKVCache % t.pageSize != 0 && s.seqLenKVCache < t.pageSize
    ensures t.TableSlice(b, s.seqLenKVCache) == orders[b]
  {
    CeilDivCases(s.seqLenKVCache, t.pageSize);
    DivUnique(s.seqLenKVCache, t.pageSize, 0, s.seqLenKVCache);
    FilledSlice(t, s, orders, 0);
    FilledSlice(t, s, orders, b);
    OnlyShuffle(orders[0]);
    OnlyShuffle(orders[b]);
    StartsAtZero(t, b, s.seqLenKVCache);
  }

  lemma OnlyShuffle(order: seq<nat>)
    requires IsShuffle(order, 1)
    ensures order == [0]
  {
    ShuffleBounds(order, 1);
  }

  lemma StartsAtZero(t: LaunchTables, b: nat, len: nat)
    requires !t.isVarLen && t.pageSize > 0 && len / t.pageSize == 0
    ensures t.StartPageIdx(b, len) == 0
  {
  }

  /** The slices are where the check looks for them, and no shuffle moves a partial last page. */
  ghost predicate PagesSuit(orders: seq<seq<nat>>, size: nat, cache: seq<nat>, isVarLen: bool, seqLenKVCache: nat)
    requires size > 0 && |orders| == |cache|
  {
    && SlicesFindable(isVarLen, seqLenKVCache, size, |cache|)
    && forall b :: 0 <= b < |cache| ==> KeepsPartialPage(orders[b], size, cache[b])
  }

  /** Every sequence's copies stay inside its segments, and its pages are read once each. */
  ghost predicate ReadsShuffles(t: LaunchTables, s: LaunchShape)
    requires t.Cover(s.batch)
  {
    t.PagingOf(s).Fit(t.ShapeOf(s).cache) && Shuffled(t.PagingOf(s), t.ShapeOf(s).cache)
  }

  lemma SuitedPagesRead(t: LaunchTables, s: LaunchShape, orders: seq<seq<nat>>)
    requires t.Cover(s.batch) && t.pageSize > 0 && FilledFrom(t, s, orders)
    requires PagesSuit(orders, t.pageSize, t.ShapeOf(s).cache, t.isVarLen, s.seqLenKVCache)
    ensures ReadsShuffles(t, s)
  {
    var cache := t.ShapeOf(s).cache;
    forall b | 0 <= b < s.batch
      ensures t.PagingOf(s).Table(b) == orders[b] && InSegment(orders[b], t.pageSize, cache[b])
      ensures IsShuffle(orders[b], CeilDiv(cache[b], t.pageSize))
    {
      SliceIsOrder(t, s, orders, b);
      ShuffleInSegment(orders[b], t.pageSize, cache[b]);
    }
  }

  /** Slices that overlap in one entry cannot both be shuffles that leave their last page in place. */
  lemma OverlappingSlices(table: seq<nat>, q: nat, size: nat, len: nat)
    requires size > 0 && len % size != 0 && q == len / size > 0 && 2 * q + 1 <= |table|
    requires IsShuffle(table[..q + 1], CeilDiv(len, size)) && InSegment(table[..q + 1], size, len)
    requires IsShuffle(table[q..2 * q + 1], CeilDiv(len, size))
    ensures !InSegment(table[q..2 * q + 1], size, len)
  {
    CeilDivCases(len, size);
    ShuffleInSegment(table[..q + 1], size, len);
    ShuffleInSegment(table[q..2 * q + 1], size, len);
    assert table[q..2 * q + 1][0] == table[..q + 1][q] == q;
    ShuffleDistinct(table[q..2 * q + 1], q + 1, 0, q);
  }

  lemma ReadSlicesAreFindable(t: LaunchTables, s: LaunchShape)
    requires t.Cover(s.batch) && t.pageSize > 0 && ReadsShuffles(t, s)
    ensures SlicesFindable(t.isVarLen, s.seqLenKVCache, t.pageSize, s.batch)
  {
    if !SlicesFindable(t.isVarLen, s.seqLenKVCache, t.pageSize, s.batch) {
      var len, size, q := s.seqLenKVCache, t.pageSize, s.seqLenKVCache / t.pageSize;
      CeilDivCases(len, size);
      DivModEquation(len, size);
      ShortcutSlice(t, s, 0, q);
      ShortcutSlice(t, s, 1, q);
      OverlappingSlices(t.pageTable, q, size, len);
    }
  }

  // The slice that the shortcut finds when a page is left over.
  lemma ShortcutSlice(t: LaunchTables, s: LaunchShape, b: nat, q: nat)
    requires t.Cover(s.batch) && t.pageSize > 0 && !t.isVarLen && ReadsShuffles(t, s) && b < s.batch
    requires s.seqLenKVCache % t.pageSize != 0 && q == s.seqLenKVCache / t.pageSize
    ensures b * q + q + 1 <= |t.pageTable|
    ensures IsShuffle(t.pageTable[b * q..b * q + q + 1], CeilDiv(s.seqLenKVCache, t.pageSize))
    ensures InSegment(t.pageTable[b * q..b * q + q + 1], t.pageSize, s.seqLenKVCache)
  {
    CeilDivCases(s.seqLenKVCache, t.pageSize);
    assert t.ShapeOf(s).cache[b] == s.seqLenKVCache;
    assert InSegment(t.PagingOf(s).Table(b), t.pageSize, s.seqLenKVCache);
  }

  /** A launch filled from these shuffles reads back, for every sequence, a shuffle of its own pages inside
      its own segments, exactly when the slices can be found and no partial last page is moved. */
  lemma PagingIsShuffled(t: LaunchTables, s: LaunchShape, orders: seq<seq<nat>>)
    requires t.Cover(s.batch) && t.pageSize > 0 && FilledFrom(t, s, orders)
    ensures ReadsShuffles(t, s) <==> PagesSuit(orders, t.pageSize, t.ShapeOf(s).cache, t.isVarLen, s.seqLenKVCache)
  {
    if ReadsShuffles(t, s) {
      ReadSlicesAreFindable(t, s);
      forall b | 0 <= b < s.batch
        ensures KeepsPartialPage(orders[b], t.pageSize, t.ShapeOf(s).cache[b])
      {
        ReadPageStays(t, s, orders, b);
      }
    } else if PagesSuit(orders, t.pageSize, t.ShapeOf(s).cache, t.isVarLen, s.seqLenKVCache) {
      SuitedPagesRead(t, s, orders);
    }
  }

  lemma ReadPageStays(t: LaunchTables, s: LaunchShape, orders: seq<seq<nat>>, b: nat)
    requires t.Cover(s.batch) && t.pageSize > 0 && FilledFrom(t, s, orders) && b < s.batch
    requires ReadsShuffles(t, s) && SlicesFindable(t.isVarLen, s.seqLenKVCache, t.pageSize, s.batch)
    ensures KeepsPartialPage(orders[b], t.pageSize, t.ShapeOf(s).cache[b])
  {
    SliceIsOrder(t, s, orders, b);
    SliceInSegment(t, s, b);
    FilledSlice(t, s, orders, b);
    StaysInSegment(orders[b], t.pageSize, t.ShapeOf(s).cache[b]);
  }

  lemma SliceInSegment(t: LaunchTables, s: LaunchShape, b: nat)
    requires t.Cover(s.batch) && t.pageSize > 0 && b < s.batch && ReadsShuffles(t, s)
    ensures t.ShapeOf(s).cache[b] > 0 ==>
              InSegment(t.TableSlice(b, t.ShapeOf(s).cache[b]), t.pageSize, t.ShapeOf(s).cache[b])
  {
    assert t.PagingOf(s).Table(b) == t.TableSlice(b, t.ShapeOf(s).cache[b]);
  }

  lemma StaysInSegment(order: seq<nat>, size: nat, len: nat)
    requires size > 0 && IsShuffle(order, CeilDiv(len, size)) && (len > 0 ==> InSegment(order, size, len))
    ensures KeepsPartialPage(order, size, len)
  {
    if len > 0 {
      ShuffleInSegment(order, size, len);
    } else {
      DivUnique(0, size, 0, 0);
    }
  }

  // ----- the page sizes that work whatever is drawn

  predicate PageSizesFit(size: nat, cache: seq<nat>)
    requires size > 0
  {
    forall b :: 0 <= b < |cache| ==> PageSizeFits(size, cache[b])
  }

  lemma FittingSizesSuit(orders: seq<seq<nat>>, size: nat, cache: seq<nat>, isVarLen: bool, seqLenKVCache: nat)
    requires size > 0 && AreShuffles(orders, PagesOf(cache, size)) && PageSizesFit(size, cache)
    requires !isVarLen ==> cache == seq(|cache|, _ => seqLenKVCache)
    ensures PagesSuit(orders, size, cache, isVarLen, seqLenKVCache)
  {
    if !isVarLen && |cache| > 0 {
      assert PageSizeFits(size, cache[0]);
    }
    forall b | 0 <= b < |cache|
      ensures KeepsPartialPage(orders[b], size, cache[b])
    {
      FittingSizeKeepsPartialPage(orders[b], size, cache[b]);
    }
  }

  /** Every draw of shuffles that the tables may be filled from is read back as it should be. */
  ghost predicate EveryDrawReads(t: LaunchTables, s: LaunchShape)
    requires t.Cover(s.batch) && t.pageSize > 0
  {
    forall t', orders ::
      SameLengths(t', t) && t'.Cover(s.batch) && FilledFrom(t', s, orders) ==> ReadsShuffles(t', s)
  }

  predicate SameLengths(t': LaunchTables, t: LaunchTables) {
    t' == t.(pageTable := t'.pageTable, numPagesPerSeq := t'.numPagesPerSeq)
  }

  // The prefix table and the page table that the two loops of the set-up leave.
  function PrefixTable(pages: seq<nat>): seq<nat> {
    seq(|pages| + 1, b requires 0 <= b <= |pages| => Cum(pages, b))
  }

  lemma {:induction false} FlattenRagged(rows: seq<seq<nat>>, pages: seq<nat>, b: nat)
    requires |rows| == |pages| && b < |rows| && forall k :: 0 <= k < |rows| ==> |rows[k]| == pages[k]
    ensures Cum(pages, b + 1) <= |Flatten(rows)| == Cum(pages, |rows|)
    ensures Flatten(rows)[Cum(pages, b)..Cum(pages, b + 1)] == rows[b]
  {
    RaggedLength(rows, pages, b);
    RaggedLength(rows, pages, b + 1);
    RaggedLength(rows, pages, |rows|);
    CumMonotone(pages, b + 1, |pages|);
    assert rows[..|rows|] == rows && rows[..b + 1][..b] == rows[..b];
    FlattenJoin(rows, b + 1, |rows|);
  }

  lemma {:induction false} RaggedLength(rows: seq<seq<nat>>, pages: seq<nat>, n: nat)
    requires n <= |rows| == |pages| && forall k :: 0 <= k < |rows| ==> |rows[k]| == pages[k]
    ensures |Flatten(rows[..n])| == Cum(pages, n)
  {
    if n > 0 {
      RaggedLength(rows, pages, n - 1);
      assert rows[..n][..n - 1] == rows[..n - 1];
    }
  }

  /** Any draw of shuffles can fill the tables. */
  lemma FillTables(t: LaunchTables, s: LaunchShape, orders: seq<seq<nat>>) returns (t': LaunchTables)
    requires t.Cover(s.batch) && t.pageSize > 0 && AreShuffles(orders, PagesOf(t.ShapeOf(s).cache, t.pageSize))
    ensures SameLengths(t', t) && t'.Cover(s.batch) && FilledFrom(t', s, orders) && t'.ShapeOf(s) == t.ShapeOf(s)
  {
    var pages := PagesOf(t.ShapeOf(s).cache, t.pageSize);
    t' := t.(pageTable := Flatten(orders), numPagesPerSeq := PrefixTable(pages));
    PagesKeepShape(t, t', s);
    OrdersFill(orders, pages);
  }

  lemma OrdersFill(orders: seq<seq<nat>>, pages: seq<nat>)
    requires AreShuffles(orders, pages)
    ensures IsPrefixTable(PrefixTable(pages), pages)
    ensures forall b :: 0 <= b < |orders| ==> SliceIs(Flatten(orders), PrefixTable(pages), b, orders[b])
  {
    forall b | 0 <= b < |orders|
      ensures |orders[b]| == pages[b]
    {
      ShuffleBounds(orders[b], pages[b]);
    }
    forall b | 0 <= b < |orders|
      ensures SliceIs(Flatten(orders), PrefixTable(pages), b, orders[b])
    {
      FlattenRagged(orders, pages, b);
    }
  }

  // One shuffle per sequence, all in order but one.
  lemma MovedPartialPage(cache: seq<nat>, size: nat, b: nat) returns (orders: seq<seq<nat>>)
    requires size > 0 && b < |cache| && !PageSizeFits(size, cache[b])
    ensures AreShuffles(orders, PagesOf(cache, size)) && !KeepsPartialPage(orders[b], size, cache[b])
  {
    OtherSizesLosePartialPage(size, cache[b]);
    LastTwoSwappedIsShuffle(CeilDiv(cache[b], size));
    var pages := PagesOf(cache, size);
    orders := seq(|cache|, k requires 0 <= k < |cache| => if k == b then LastTwoSwapped(pages[b]) else Iota(pages[k]));
  }

  /** Whatever is drawn, the check reads every sequence's own pages inside its own segments, exactly when
      every cached length is a multiple of the page size or shorter than a page. */
  lemma EveryDrawReadsItsPages(t: LaunchTables, s: LaunchShape)
    requires t.Cover(s.batch) && t.pageSize > 0
    ensures EveryDrawReads(t, s) <==> PageSizesFit(t.pageSize, t.ShapeOf(s).cache)
  {
    var cache := t.ShapeOf(s).cache;
    if PageSizesFit(t.pageSize, cache) {
      forall t', orders | SameLengths(t', t) && t'.Cover(s.batch) && FilledFrom(t', s, orders)
        ensures ReadsShuffles(t', s)
      {
        PagesKeepShape(t, t', s);
        FilledDrawReads(t', s, orders);
      }
    } else {
      var b :| 0 <= b < |cache| && !PageSizeFits(t.pageSize, cache[b]);
      var orders := MovedPartialPage(cache, t.pageSize, b);
      var t' := FillTables(t, s, orders);
      PagingIsShuffled(t', s, orders);
    }
  }

  lemma FilledDrawReads(t: LaunchTables, s: LaunchShape, orders: seq<seq<nat>>)
    requires t.Cover(s.batch) && t.pageSize > 0 && FilledFrom(t, s, orders)
    requires PageSizesFit(t.pageSize, t.ShapeOf(s).cache)
    ensures ReadsShuffles(t, s)
  {
    var cache := t.ShapeOf(s).cache;
    assert !t.isVarLen ==> cache == seq(|cache|, _ => s.seqLenKVCache);
    FittingSizesSuit(orders, t.pageSize, cache, t.isVarLen, s.seqLenKVCache);
    PagingIsShuffled(t, s, orders);
  }

  /** The page size suits the cached lengths whatever is drawn, or at least suits this draw. */
  ghost predicate Readable(orders: seq<seq<nat>>, size: nat, cache: seq<nat>, isVarLen: bool, seqLenKVCache: nat)
    requires size > 0 && |orders| == |cache|
  {
    PageSizesFit(size, cache) || PagesSuit(orders, size, cache, isVarLen, seqLenKVCache)
  }

  /** In variable-length mode the reported maximum does not matter. */
  lemma ReadableAnyMaximum(orders: seq<seq<nat>>, size: nat, cache: seq<nat>, isVarLen: bool, len: nat, len': nat)
    requires size > 0 && |orders| == |cache| && (isVarLen || len == len')
    requires Readable(orders, size, cache, isVarLen, len)
    ensures Readable(orders, size, cache, isVarLen, len')
  {
  }

  lemma ReadableDrawReads(t: LaunchTables, s: LaunchShape, orders: seq<seq<nat>>)
    requires t.Cover(s.batch) && t.pageSize > 0 && FilledFrom(t, s, orders)
    requires Readable(orders, t.pageSize, t.ShapeOf(s).cache, t.isVarLen, s.seqLenKVCache)
    ensures ReadsShuffles(t, s)
  {
    if PageSizesFit(t.pageSize, t.ShapeOf(s).cache) {
      FilledDrawReads(t, s, orders);
    } else {
      PagingIsShuffled(t, s, orders);
    }
  }

  /** A launch that reads back its pages leaves the output of the planned launch without paging. */
  lemma LaunchMeaning(sm: Softmax, causal: bool, s: LaunchShape, t: LaunchTables, bufs: Buffers, plan: Shape)
    requires t.Cover(s.batch) && t.ShapeOf(s) == plan && plan.Valid() && bufs.Fit(plan) && sm.Valid()
    requires t.pageSize > 0 ==> ReadsShuffles(t, s)
    ensures ProblemOf(sm, causal, s, t, bufs).Valid() && Problem(sm, causal, plan, bufs, CONTIGUOUS).Valid()
    ensures ProblemOf(sm, causal, s, t, bufs).Output() == Problem(sm, causal, plan, bufs, CONTIGUOUS).Output()
  {
    var p := ProblemOf(sm, causal, s, t, bufs);
    PagingPreservesOutput(p);
    assert p.(paging := CONTIGUOUS) == Problem(sm, causal, plan, bufs, CONTIGUOUS);
  }

  /** With sampled lengths, a page size works for every sample exactly when it divides the alignment of
      cached lengths. */
  lemma SampledPageSizes(size: nat, seqLenKVCache: nat)
    requires size > 0 && seqLenKVCache > 0
    ensures (forall samples: seq<Sample> :: (forall i :: 0 <= i < |samples| ==> samples[i].cache > 0) ==>
               PageSizesFit(size, Lengths(RawCache(samples, seqLenKVCache), ALIGNMENT_KV_CACHE)))
       <==> ALIGNMENT_KV_CACHE % size == 0
  {
    if ALIGNMENT_KV_CACHE % size == 0 {
      forall samples: seq<Sample> | forall i :: 0 <= i < |samples| ==> samples[i].cache > 0
        ensures PageSizesFit(size, Lengths(RawCache(samples, seqLenKVCache), ALIGNMENT_KV_CACHE))
      {
        forall i | 0 <= i < |samples|
          ensures PageSizeFits(size, Lengths(RawCache(samples, seqLenKVCache), ALIGNMENT_KV_CACHE)[i])
        {
          AlignedLengthFits(size, samples[i].cache);
        }
      }
    } else {
      var n := UnalignedMultiple(size);
      var samples := [Sample(1, 1, n)];
      var cache := Lengths(RawCache(samples, seqLenKVCache), ALIGNMENT_KV_CACHE);
      assert cache[0] == n;
      assert !PageSizeFits(size, cache[0]);
    }
  }

  lemma AlignedLengthFits(size: nat, sample: nat)
    requires size > 0 && ALIGNMENT_KV_CACHE % size == 0
    ensures PageSizeFits(size, RoundUp(sample, ALIGNMENT_KV_CACHE))
  {
    var n := CeilDiv(sample, ALIGNMENT_KV_CACHE);
    DivModEquation(ALIGNMENT_KV_CACHE, size);
    var k := ALIGNMENT_KV_CACHE / size;
    assert n * (k * size) == (n * k) * size;
    DivUnique(n * ALIGNMENT_KV_CACHE, size, n * k, 0);
  }

  // Of two neighbouring multiples of the alignment past one page, at most one is a multiple of the page size.
  lemma UnalignedMultiple(size: nat) returns (n: nat)
    requires size > 0 && ALIGNMENT_KV_CACHE % size != 0
    ensures n > 0 && RoundUp(n, ALIGNMENT_KV_CACHE) == n && !PageSizeFits(size, n)
  {
    n := size * ALIGNMENT_KV_CACHE;
    if n % size == 0 {
      DivModEquation(n, size);
      n := n + ALIGNMENT_KV_CACHE;
      StepOffMultiple(size, n - ALIGNMENT_KV_CACHE, ALIGNMENT_KV_CACHE);
    }
  }

  lemma StepOffMultiple(size: nat, n: nat, step: nat)
    requires size > 0 && n % size == 0 && step % size != 0
    ensures (n + step) % size != 0
  {
    DivModEquation(n, size);
    DivModEquation(step, size);
    var q := n / size + step / size;
    assert n + step == q * size + step % size;
    DivUnique(n + step, size, q, step % size);
  }
}
