/** Assembling one head's keys and values: cached rows first, page by page or in one
    piece, then the new rows. */
module KVGather {
  import opened Arithmetic
  import opened Matrices
  import opened PagedCache

  /** Copies src into dst from position at on. */
  method Memcpy<T>(dst: array<T>, at: nat, src: seq<T>)
    requires at + |src| <= dst.Length
    modifies dst
    ensures dst[..at] == old(dst[..at]) && dst[at..at + |src|] == src
    ensures dst[at + |src|..] == old(dst[at + |src|..])
  {
    forall i | 0 <= i < |src| {
      dst[at + i] := src[i];
    }
  }

  /** The first i pages' rows of the gathered sequence, in flat elements. */
  ghost function GatheredUpTo(rows: seq<seq<real>>, table: seq<nat>, size: nat, i: nat): seq<real>
    requires InSegment(table, size, |rows|)
  {
    Flatten(Gather(rows, table, size)[..Reached(size, |rows|, i)])
  }

  lemma GatherUniform(rows: seq<seq<real>>, table: seq<nat>, size: nat, width: nat)
    requires InSegment(table, size, |rows|) && Uniform(rows, width)
    ensures Uniform(Gather(rows, table, size), width)
  {
    var g := Gather(rows, table, size);
    forall j | 0 <= j < |g|
      ensures |g[j]| == width
    {
      PhysicalRowInSegment(table, size, |rows|, j);
    }
  }

  lemma GatheredLength(rows: seq<seq<real>>, table: seq<nat>, size: nat, width: nat, i: nat)
    requires InSegment(table, size, |rows|) && Uniform(rows, width)
    ensures |GatheredUpTo(rows, table, size, i)| == Reached(size, |rows|, i) * width <= |rows| * width
  {
    GatherUniform(rows, table, size, width);
    FlattenLength(Gather(rows, table, size)[..Reached(size, |rows|, i)], width);
    MulMonotone(Reached(size, |rows|, i), |rows|, width);
  }

  /** Page i adds the rows of its physical page. */
  lemma GatheredStep(rows: seq<seq<real>>, table: seq<nat>, size: nat, i: nat, lo: nat, len: nat)
    requires InSegment(table, size, |rows|) && PageFits(table, size, |rows|, i)
    requires lo == table[i] * size && len == CopyLen(size, |rows|, i)
    ensures lo + len <= |rows|
    ensures GatheredUpTo(rows, table, size, i + 1) == GatheredUpTo(rows, table, size, i) + Flatten(rows[lo..lo + len])
  {
    GatherPage(rows, table, size, i);
    ReachedStep(size, |rows|, i);
    FlattenJoin(Gather(rows, table, size), Reached(size, |rows|, i), Reached(size, |rows|, i + 1));
  }

  /** Rows lo up to lo + n of a segment, as elements of the buffer it lies in. */
  lemma SegmentElements(buf: seq<real>, offset: nat, rows: seq<seq<real>>, width: nat, lo: nat, n: nat)
    requires Uniform(rows, width) && lo + n <= |rows|
    requires offset + |Flatten(rows)| <= |buf| && buf[offset..offset + |Flatten(rows)|] == Flatten(rows)
    ensures |Flatten(rows[lo..lo + n])| == n * width
    ensures offset + lo * width + n * width <= |buf|
    ensures buf[offset + lo * width..offset + lo * width + n * width] == Flatten(rows[lo..lo + n])
  {
    FlattenLength(rows[lo..lo + n], width);
    FlattenSlice(rows, width, lo, lo + n);
    SliceOfSlice(buf, offset, |Flatten(rows)|, lo * width, (lo + n) * width);
  }

  lemma SliceOfSlice(s: seq<real>, offset: nat, len: nat, a: nat, b: nat)
    requires offset + len <= |s| && a <= b <= len
    ensures s[offset..offset + len][a..b] == s[offset + a..offset + b]
  {
    var x, y := s[offset..offset + len][a..b], s[offset + a..offset + b];
    assert forall k :: 0 <= k < b - a ==> x[k] == y[k];
  }

  // The source writes each product in its own order.
  lemma CopyArithmetic(width: nat, i: nat, size: nat, lo: nat)
    requires lo == i * size
    ensures width * i * size == lo * width
  {
    MulCommutes(width, lo);
    assert width * i * size == width * (i * size);
  }

  /** Page i's copy starts where the pages before it end. */
  method CopyTarget(ghost rows: seq<seq<real>>, ghost table: seq<nat>, size: nat, width: nat, i: nat) returns (to: nat)
    requires InSegment(table, size, |rows|) && Uniform(rows, width) && i < |table|
    ensures to == |GatheredUpTo(rows, table, size, i)| && |GatheredUpTo(rows, table, size, i + 1)| <= |Flatten(rows)|
  {
    to := width * i * size;
    GatheredLength(rows, table, size, width, i);
    GatheredLength(rows, table, size, width, i + 1);
    FlattenLength(rows, width);
    ReachedStep(size, |rows|, i);
    CopyArithmetic(width, i, size, i * size);
  }

  method PageOffset(offset: nat, width: nat, physicalPageId: nat, size: nat, ghost lo: nat) returns (from: nat)
    requires lo == physicalPageId * size
    ensures from == offset + lo * width
  {
    CopyArithmetic(width, physicalPageId, size, lo);
    from := offset + width * physicalPageId * size;
  }

  method CopyElements(width: nat, len: nat) returns (n: nat)
    ensures n == len * width
  {
    n := width * len;
  }

  /** The elements that the copy reads are the rows of the physical page. */
  method CopySource(cache: seq<real>, offset: nat, ghost rows: seq<seq<real>>, width: nat, size: nat,
                    physicalPageId: nat, ghost lo: nat, len: nat)
    returns (from: nat, n: nat)
    requires Uniform(rows, width) && lo == physicalPageId * size && lo + len <= |rows|
    requires offset + |Flatten(rows)| <= |cache| && cache[offset..offset + |Flatten(rows)|] == Flatten(rows)
    ensures from + n <= |cache| && cache[from..from + n] == Flatten(rows[lo..lo + len])
  {
    from := PageOffset(offset, width, physicalPageId, size, lo);
    n := CopyElements(width, len);
    SegmentElements(cache, offset, rows, width, lo, len);
  }

  /** Copies one page of one cache segment. */
  method CopyPage(dst: array<real>, cache: seq<real>, offset: nat, width: nat, size: nat, cacheLen: nat,
                  ghost rows: seq<seq<real>>, ghost table: seq<nat>, i: nat, physicalPageId: nat)
    requires |rows| == cacheLen && Uniform(rows, width) && dst.Length >= |Flatten(rows)|
    requires offset + |Flatten(rows)| <= |cache| && cache[offset..offset + |Flatten(rows)|] == Flatten(rows)
    requires InSegment(table, size, cacheLen) && PageFits(table, size, cacheLen, i) && physicalPageId == table[i]
    requires GatheredUpTo(rows, table, size, i) <= dst[..]
    modifies dst
    ensures GatheredUpTo(rows, table, size, i + 1) <= dst[..]
  {
    var currentCopyLen := CopyLen(size, cacheLen, i);
    ghost var lo := physicalPageId * size;
    GatheredStep(rows, table, size, i, lo, currentCopyLen);
    var to := CopyTarget(rows, table, size, width, i);
    var from, n := CopySource(cache, offset, rows, width, size, physicalPageId, lo, currentCopyLen);
    Memcpy(dst, to, cache[from..from + n]);
    assert dst[..to + n] == dst[..to] + dst[to..to + n];
  }

  /** The rows lie in the buffer from offset on. */
  ghost predicate SegmentAt(buf: seq<real>, offset: nat, rows: seq<seq<real>>, width: nat) {
    Uniform(rows, width) && offset + |Flatten(rows)| <= |buf|
    && buf[offset..offset + |Flatten(rows)|] == Flatten(rows)
  }

  lemma ElementCount(rows: seq<seq<real>>, width: nat, n: nat)
    requires Uniform(rows, width) && |rows| == n
    ensures width * n == |Flatten(rows)|
  {
    FlattenLength(rows, width);
    MulCommutes(width, n);
  }

  /** Copies a whole segment. */
  method CopySegment(dst: array<real>, at: nat, buf: seq<real>, offset: nat, width: nat, n: nat,
                     ghost rows: seq<seq<real>>)
    requires SegmentAt(buf, offset, rows, width) && |rows| == n && at + |Flatten(rows)| <= dst.Length
    modifies dst
    ensures dst[..at] == old(dst[..at]) && dst[..at + |Flatten(rows)|] == old(dst[..at]) + Flatten(rows)
  {
    ElementCount(rows, width, n);
    Memcpy(dst, at, buf[offset..offset + width * n]);
    ghost var m := |Flatten(rows)|;
    assert dst[..at + m] == dst[..at] + dst[at..at + m];
  }

  /** Appends the new rows to the cached ones. */
  method AppendNew(dst: array<real>, buf: seq<real>, offset: nat, width: nat, cacheLen: nat, newLen: nat,
                   ghost cached: seq<seq<real>>, ghost added: seq<seq<real>>)
    requires SegmentAt(buf, offset, added, width) && Uniform(cached, width)
    requires |cached| == cacheLen && |added| == newLen
    requires Flatten(cached) <= dst[..] && dst.Length == |Flatten(cached)| + |Flatten(added)|
    modifies dst
    ensures dst[..] == Flatten(cached + added)
  {
    ElementCount(cached, width, cacheLen);
    FlattenConcat(cached, added);
    CopySegment(dst, width * cacheLen, buf, offset, width, newLen, added);
  }

  method AllocateConcat(width: nat, total: nat, ghost cached: seq<seq<real>>, ghost added: seq<seq<real>>)
    returns (dst: array<real>)
    requires Uniform(cached, width) && Uniform(added, width) && total == |added| + |cached|
    ensures fresh(dst) && dst.Length == |Flatten(cached)| + |Flatten(added)|
  {
    dst := new real[width * total];
    ElementCount(cached + added, width, total);
    FlattenConcat(cached, added);
  }

  /** The cached part: page by page through the table, keys and values together. */
  method GatherPages(kDst: array<real>, vDst: array<real>, kCache: seq<real>, vCache: seq<real>,
                     offsetKCache: nat, offsetVCache: nat, headSizeQK: nat, headSizeVO: nat, cacheLen: nat,
                     size: nat, pageTable: seq<nat>, startPageIdx: nat,
                     ghost kRows: seq<seq<real>>, ghost vRows: seq<seq<real>>, ghost table: seq<nat>)
    requires kDst != vDst && |kRows| == |vRows| == cacheLen
    requires SegmentAt(kCache, offsetKCache, kRows, headSizeQK) && kDst.Length >= |Flatten(kRows)|
    requires SegmentAt(vCache, offsetVCache, vRows, headSizeVO) && vDst.Length >= |Flatten(vRows)|
    requires InSegment(table, size, cacheLen)
    requires startPageIdx + |table| <= |pageTable| && pageTable[startPageIdx..startPageIdx + |table|] == table
    modifies kDst, vDst
    ensures Flatten(Gather(kRows, table, size)) <= kDst[..]
    ensures Flatten(Gather(vRows, table, size)) <= vDst[..]
  {
    var numPages := CeilDiv(cacheLen, size);
    for i := 0 to numPages
      invariant GatheredUpTo(kRows, table, size, i) <= kDst[..]
      invariant GatheredUpTo(vRows, table, size, i) <= vDst[..]
    {
      assert PageFits(table, size, cacheLen, i);
      var physicalPageId := pageTable[startPageIdx + i];
      assert physicalPageId == pageTable[startPageIdx..startPageIdx + |table|][i];
      CopyPage(kDst, kCache, offsetKCache, headSizeQK, size, cacheLen, kRows, table, i, physicalPageId);
      CopyPage(vDst, vCache, offsetVCache, headSizeVO, size, cacheLen, vRows, table, i, physicalPageId);
    }
    GatheredAll(kRows, table, size);
    GatheredAll(vRows, table, size);
  }

  lemma GatheredAll(rows: seq<seq<real>>, table: seq<nat>, size: nat)
    requires InSegment(table, size, |rows|)
    ensures GatheredUpTo(rows, table, size, CeilDiv(|rows|, size)) == Flatten(Gather(rows, table, size))
  {
    CeilDivCounts(|rows|, size);
    var g := Gather(rows, table, size);
    assert g[..|rows|] == g;
  }

  /** The cached part, paged or in one piece. */
  method CopyCached(kDst: array<real>, vDst: array<real>, kCache: seq<real>, vCache: seq<real>,
                    offsetKCache: nat, offsetVCache: nat, headSizeQK: nat, headSizeVO: nat, cacheLen: nat,
                    size: nat, pageTable: seq<nat>, startPageIdx: nat,
                    ghost kRows: seq<seq<real>>, ghost vRows: seq<seq<real>>, ghost table: seq<nat>)
    requires kDst != vDst && |kRows| == |vRows| == cacheLen > 0
    requires SegmentAt(kCache, offsetKCache, kRows, headSizeQK) && kDst.Length >= |Flatten(kRows)|
    requires SegmentAt(vCache, offsetVCache, vRows, headSizeVO) && vDst.Length >= |Flatten(vRows)|
    requires size > 0 ==>
      (InSegment(table, size, cacheLen) && startPageIdx + |table| <= |pageTable|
       && pageTable[startPageIdx..startPageIdx + |table|] == table)
    modifies kDst, vDst
    ensures Flatten(Presented(kRows, size, table)) <= kDst[..]
    ensures Flatten(Presented(vRows, size, table)) <= vDst[..]
  {
    if size > 0 {
      GatherPages(kDst, vDst, kCache, vCache, offsetKCache, offsetVCache, headSizeQK, headSizeVO, cacheLen,
                  size, pageTable, startPageIdx, kRows, vRows, table);
    } else {
      CopySegment(kDst, 0, kCache, offsetKCache, headSizeQK, cacheLen, kRows);
      CopySegment(vDst, 0, vCache, offsetVCache, headSizeVO, cacheLen, vRows);
    }
  }

  /** One head's keys and values: the cached rows as presented, then the new rows. */
  method ConcatKV(kCache: seq<real>, vCache: seq<real>, k: seq<real>, v: seq<real>,
                  offsetKCache: nat, offsetVCache: nat, offsetK: nat, offsetV: nat,
                  headSizeQK: nat, headSizeVO: nat, cacheLen: nat, newLen: nat,
                  size: nat, pageTable: seq<nat>, startPageIdx: nat,
                  ghost kcRows: seq<seq<real>>, ghost vcRows: seq<seq<real>>,
                  ghost kRows: seq<seq<real>>, ghost vRows: seq<seq<real>>, ghost table: seq<nat>)
    returns (kView: seq<real>, vView: seq<real>)
    requires |kcRows| == |vcRows| == cacheLen && |kRows| == |vRows| == newLen
    requires SegmentAt(kCache, offsetKCache, kcRows, headSizeQK) && SegmentAt(vCache, offsetVCache, vcRows, headSizeVO)
    requires SegmentAt(k, offsetK, kRows, headSizeQK) && SegmentAt(v, offsetV, vRows, headSizeVO)
    requires size > 0 && cacheLen > 0 ==>
      (InSegment(table, size, cacheLen) && startPageIdx + |table| <= |pageTable|
       && pageTable[startPageIdx..startPageIdx + |table|] == table)
    ensures kView == Flatten(Presented(kcRows, size, table) + kRows)
    ensures vView == Flatten(Presented(vcRows, size, table) + vRows)
  {
    if cacheLen > 0 {
      var kConcat := AllocateConcat(headSizeQK, newLen + cacheLen, kcRows, kRows);
      var vConcat := AllocateConcat(headSizeVO, newLen + cacheLen, vcRows, vRows);
      CopyCached(kConcat, vConcat, kCache, vCache, offsetKCache, offsetVCache, headSizeQK, headSizeVO, cacheLen,
                 size, pageTable, startPageIdx, kcRows, vcRows, table);
      PresentedShape(kcRows, size, table, headSizeQK);
      PresentedShape(vcRows, size, table, headSizeVO);
      AppendNew(kConcat, k, offsetK, headSizeQK, cacheLen, newLen, Presented(kcRows, size, table), kRows);
      AppendNew(vConcat, v, offsetV, headSizeVO, cacheLen, newLen, Presented(vcRows, size, table), vRows);
      kView, vView := kConcat[..], vConcat[..];
    } else {
      ElementCount(kRows, headSizeQK, newLen + cacheLen);
      ElementCount(vRows, headSizeVO, newLen + cacheLen);
      kView := k[offsetK..offsetK + headSizeQK * (newLen + cacheLen)];
      vView := v[offsetV..offsetV + headSizeVO * (newLen + cacheLen)];
      assert kcRows + kRows == kRows && vcRows + vRows == vRows;
    }
  }

  lemma PresentedShape(rows: seq<seq<real>>, size: nat, table: seq<nat>, width: nat)
    requires Uniform(rows, width) && (size > 0 && |rows| > 0 ==> InSegment(table, size, |rows|))
    ensures Uniform(Presented(rows, size, table), width)
    ensures |Flatten(Presented(rows, size, table))| == |Flatten(rows)|
  {
    if size > 0 && |rows| > 0 {
      GatherUniform(rows, table, size, width);
    }
    FlattenLength(Presented(rows, size, table), width);
    FlattenLength(rows, width);
  }
}
