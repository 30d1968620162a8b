/** Which buffer elements an output element depends on, and how. */
module BufferReads {
  import opened Arithmetic
  import opened Attention
  import opened ExtendedReals
  import opened GroupedAttention
  import opened HeadLayout
  import opened Matrices
  import opened PagedCache

  // ----- buffer elements by their coordinates

  /** Coordinate d of row i of head h of sequence b. */
  function Element(buf: seq<real>, lens: seq<nat>, heads: nat, width: nat, b: nat, h: nat, i: nat, d: nat): real
    requires InRange(lens, heads, width, b, h, i, d) && |buf| == BatchStart(lens, heads, width, |lens|)
  {
    PositionInBuffer(lens, heads, width, b, h, i, d);
    buf[Position(lens, heads, width, b, h, i, d)]
  }

  lemma RowsAtElement(buf: seq<real>, start: nat, n: nat, width: nat, i: nat, d: nat, o: nat)
    requires start + n * width <= |buf| && i < n && d < width && o == i * width + d
    ensures start + o < |buf| && RowsAt(buf, start, n, width)[i][d] == buf[start + o]
  {
    var s := buf[start..start + n * width];
    FlattenRows(s, n, width);
    FlattenAt(Rows(s, n, width), width, i, d);
  }

  lemma SegmentRows(buf: seq<real>, lens: seq<nat>, heads: nat, width: nat, b: nat, h: nat)
    requires b < |lens| && h < heads && |buf| == BatchStart(lens, heads, width, |lens|)
    ensures HeadStart(lens, heads, width, b, h) + lens[b] * width <= |buf|
    ensures Segment(buf, lens, heads, width, b, h)
         == RowsAt(buf, HeadStart(lens, heads, width, b, h), lens[b], width)
  {
    HeadFits(lens, heads, width, b, h);
  }

  lemma SegmentElement(buf: seq<real>, lens: seq<nat>, heads: nat, width: nat, b: nat, h: nat, i: nat, d: nat)
    requires InRange(lens, heads, width, b, h, i, d) && |buf| == BatchStart(lens, heads, width, |lens|)
    ensures Segment(buf, lens, heads, width, b, h)[i][d] == Element(buf, lens, heads, width, b, h, i, d)
  {
    var start, o := HeadStart(lens, heads, width, b, h), i * width + d;
    SegmentRows(buf, lens, heads, width, b, h);
    assert Position(lens, heads, width, b, h, i, d) == start + o;
    RowsAtElement(buf, start, lens[b], width, i, d, o);
  }

  /** Both buffers hold the same row. */
  ghost predicate SameRow(buf: seq<real>, buf': seq<real>, lens: seq<nat>, heads: nat, width: nat,
                          b: nat, h: nat, i: nat)
    requires b < |lens| && h < heads && i < lens[b]
    requires |buf| == |buf'| == BatchStart(lens, heads, width, |lens|)
  {
    forall d: nat :: d < width ==>
      Element(buf, lens, heads, width, b, h, i, d) == Element(buf', lens, heads, width, b, h, i, d)
  }

  lemma SameSegmentRow(buf: seq<real>, buf': seq<real>, lens: seq<nat>, heads: nat, width: nat,
                       b: nat, h: nat, i: nat)
    requires b < |lens| && h < heads && i < lens[b]
    requires |buf| == |buf'| == BatchStart(lens, heads, width, |lens|)
    requires SameRow(buf, buf', lens, heads, width, b, h, i)
    ensures Segment(buf, lens, heads, width, b, h)[i] == Segment(buf', lens, heads, width, b, h)[i]
  {
    var x, y := Segment(buf, lens, heads, width, b, h)[i], Segment(buf', lens, heads, width, b, h)[i];
    forall d: nat | d < width
      ensures x[d] == y[d]
    {
      SegmentElement(buf, lens, heads, width, b, h, i, d);
      SegmentElement(buf', lens, heads, width, b, h, i, d);
    }
  }

  /** Writing one buffer element writes one coordinate of one row of one segment. */
  lemma SegmentUpdate(buf: seq<real>, buf': seq<real>, lens: seq<nat>, heads: nat, width: nat,
                      b: nat, h: nat, i: nat, d: nat, x: real)
    requires InRange(lens, heads, width, b, h, i, d) && |buf| == BatchStart(lens, heads, width, |lens|)
    requires Position(lens, heads, width, b, h, i, d) < |buf|
    requires buf' == buf[Position(lens, heads, width, b, h, i, d) := x]
    ensures var seg := Segment(buf, lens, heads, width, b, h);
            Segment(buf', lens, heads, width, b, h) == seg[i := seg[i][d := x]]
  {
    var seg, seg' := Segment(buf, lens, heads, width, b, h), Segment(buf', lens, heads, width, b, h);
    forall r: nat, c: nat | r < lens[b] && c < width
      ensures seg'[r][c] == if r == i && c == d then x else seg[r][c]
    {
      UpdatedElement(buf, buf', lens, heads, width, b, h, i, d, x, r, c);
    }
    UpdateRows(seg, seg', width, i, d, x);
  }

  lemma UpdatedElement(buf: seq<real>, buf': seq<real>, lens: seq<nat>, heads: nat, width: nat,
                       b: nat, h: nat, i: nat, d: nat, x: real, r: nat, c: nat)
    requires InRange(lens, heads, width, b, h, i, d) && InRange(lens, heads, width, b, h, r, c)
    requires |buf| == BatchStart(lens, heads, width, |lens|)
    requires Position(lens, heads, width, b, h, i, d) < |buf|
    requires buf' == buf[Position(lens, heads, width, b, h, i, d) := x]
    ensures Segment(buf', lens, heads, width, b, h)[r][c]
         == if r == i && c == d then x else Segment(buf, lens, heads, width, b, h)[r][c]
  {
    SegmentElement(buf, lens, heads, width, b, h, r, c);
    SegmentElement(buf', lens, heads, width, b, h, r, c);
    SamePosition(lens, heads, width, b, h, i, d, r, c);
    PositionInBuffer(lens, heads, width, b, h, r, c);
    UpdateAt(buf, buf', Position(lens, heads, width, b, h, i, d), x, Position(lens, heads, width, b, h, r, c));
  }

  lemma SamePosition(lens: seq<nat>, heads: nat, width: nat, b: nat, h: nat, i: nat, d: nat, r: nat, c: nat)
    requires InRange(lens, heads, width, b, h, i, d) && InRange(lens, heads, width, b, h, r, c)
    ensures Position(lens, heads, width, b, h, r, c) == Position(lens, heads, width, b, h, i, d) <==> r == i && c == d
  {
    if Position(lens, heads, width, b, h, r, c) == Position(lens, heads, width, b, h, i, d) {
      PositionUnique(lens, heads, width, b, h, r, c, b, h, i, d);
    }
  }

  lemma UpdateAt(buf: seq<real>, buf': seq<real>, at: nat, x: real, k: nat)
    requires at < |buf| && k < |buf| && buf' == buf[at := x]
    ensures buf'[k] == if k == at then x else buf[k]
  {
  }

  lemma UpdateRows(seg: seq<seq<real>>, seg': seq<seq<real>>, width: nat, i: nat, d: nat, x: real)
    requires |seg| == |seg'| && Uniform(seg, width) && Uniform(seg', width) && i < |seg| && d < width
    requires forall r: nat, c: nat :: r < |seg| && c < width ==>
               seg'[r][c] == if r == i && c == d then x else seg[r][c]
    ensures seg' == seg[i := seg[i][d := x]]
  {
    forall r | 0 <= r < |seg|
      ensures seg'[r] == seg[i := seg[i][d := x]][r]
    {
      var row := seg[i := seg[i][d := x]][r];
      assert forall c :: 0 <= c < width ==> seg'[r][c] == row[c];
    }
  }

  // ----- the tokens of a head, in the buffers

  /** Where the page table stores the k-th cached row. */
  function StoredRow(p: Problem, b: nat, k: nat): (r: nat)
    requires p.Valid() && b < |p.shape.qo| && k < p.shape.cache[b]
    ensures r < p.shape.cache[b]
  {
    if p.paging.size > 0 then
      PhysicalRowInSegment(p.paging.Table(b), p.paging.size, p.shape.cache[b], k);
      PhysicalRow(p.paging.Table(b), p.paging.size, k)
    else k
  }

  lemma CachedToken(p: Problem, b: nat, g: nat, k: nat)
    requires p.Valid() && b < |p.shape.qo| && g < p.shape.numHeadsKV && k < p.shape.cache[b]
    ensures p.Cached(b, g)[k] == Token(p.CachedKeys(b, g)[StoredRow(p, b, k)], p.CachedValues(b, g)[StoredRow(p, b, k)])
  {
  }

  /** The tensors of a head, element by element: its own query rows, and the rows of key/value head
      KVHead(h), cached ones where the page table stores them. */
  lemma HeadElements(p: Problem, b: nat, h: nat, i: nat, k: nat, j: nat, d: nat, e: nat)
    requires p.Valid() && p.InBatch(b, h) && d < p.shape.headSizeQK && e < p.shape.headSizeVO
    requires i < p.shape.qo[b] && k < p.shape.cache[b] && j < p.shape.kv[b]
    ensures var head, s, g, r := p.HeadAt(b, h), p.shape, p.shape.KVHead(h), StoredRow(p, b, k);
            && head.queries[i][d] == Element(p.bufs.q, s.qo, s.numHeadsQ, s.headSizeQK, b, h, i, d)
            && head.cached[k].key[d] == Element(p.bufs.kCache, s.cache, s.numHeadsKV, s.headSizeQK, b, g, r, d)
            && head.cached[k].value[e] == Element(p.bufs.vCache, s.cache, s.numHeadsKV, s.headSizeVO, b, g, r, e)
            && head.added[j].key[d] == Element(p.bufs.k, s.kv, s.numHeadsKV, s.headSizeQK, b, g, j, d)
            && head.added[j].value[e] == Element(p.bufs.v, s.kv, s.numHeadsKV, s.headSizeVO, b, g, j, e)
  {
    var s, g, r := p.shape, p.shape.KVHead(h), StoredRow(p, b, k);
    CachedToken(p, b, g, k);
    SegmentElement(p.bufs.q, s.qo, s.numHeadsQ, s.headSizeQK, b, h, i, d);
    SegmentElement(p.bufs.kCache, s.cache, s.numHeadsKV, s.headSizeQK, b, g, r, d);
    SegmentElement(p.bufs.vCache, s.cache, s.numHeadsKV, s.headSizeVO, b, g, r, e);
    SegmentElement(p.bufs.k, s.kv, s.numHeadsKV, s.headSizeQK, b, g, j, d);
    SegmentElement(p.bufs.v, s.kv, s.numHeadsKV, s.headSizeVO, b, g, j, e);
  }

  /** Where that is: the row's own place in the physical page that the table lists for its logical page, or
      its own row without paging. */
  lemma StoredRowInPage(p: Problem, b: nat, k: nat, i: nat, o: nat)
    requires p.Valid() && b < |p.shape.qo| && k < p.shape.cache[b]
    ensures p.paging.size == 0 ==> StoredRow(p, b, k) == k
    ensures p.paging.size > 0 && o < p.paging.size && k == i * p.paging.size + o ==>
      (i < |p.paging.Table(b)| && StoredRow(p, b, k) == p.paging.Table(b)[i] * p.paging.size + o)
  {
    if p.paging.size > 0 && o < p.paging.size && k == i * p.paging.size + o {
      DivUnique(k, p.paging.size, i, o);
      PhysicalRowInSegment(p.paging.Table(b), p.paging.size, p.shape.cache[b], k);
      PageOfRow(p.paging.size, p.shape.cache[b], k);
    }
  }

  /** Row i is level with new key j or past it. */
  predicate Sees(p: Problem, b: nat, i: nat, j: nat)
    requires |p.shape.qo| == |p.shape.kv| && b < |p.shape.qo|
  {
    p.causal ==> j + p.shape.qo[b] <= i + p.shape.kv[b]
  }

  predicate Live(p: Problem, b: nat, i: nat)
    requires |p.shape.qo| == |p.shape.kv| && b < |p.shape.qo|
  {
    !Discarded(p.causal, p.shape.qo[b], p.shape.kv[b], i)
  }

  ghost predicate InOutput(p: Problem, b: nat, h: nat, i: nat, d: nat) {
    InRange(p.shape.qo, p.shape.numHeadsQ, p.shape.headSizeVO, b, h, i, d)
  }

  /** The element of the output buffer for one coordinate of one row of one head. */
  ghost function OutputAt(p: Problem, b: nat, h: nat, i: nat, d: nat): Ext
    requires p.Valid() && InOutput(p, b, h, i, d)
  {
    p.OutputElement(b, h, i, d);
    p.Output()[Position(p.shape.qo, p.shape.numHeadsQ, p.shape.headSizeVO, b, h, i, d)]
  }

  // The elements that belong to the key/value head of query head h.
  function NewKey(p: Problem, b: nat, h: nat, j: nat, d: nat): real
    requires p.Valid() && p.InBatch(b, h) && j < p.shape.kv[b] && d < p.shape.headSizeQK
  {
    Element(p.bufs.k, p.shape.kv, p.shape.numHeadsKV, p.shape.headSizeQK, b, p.shape.KVHead(h), j, d)
  }

  function NewValue(p: Problem, b: nat, h: nat, j: nat, d: nat): real
    requires p.Valid() && p.InBatch(b, h) && j < p.shape.kv[b] && d < p.shape.headSizeVO
  {
    Element(p.bufs.v, p.shape.kv, p.shape.numHeadsKV, p.shape.headSizeVO, b, p.shape.KVHead(h), j, d)
  }

  function CachedKey(p: Problem, b: nat, h: nat, j: nat, d: nat): real
    requires p.Valid() && p.InBatch(b, h) && j < p.shape.cache[b] && d < p.shape.headSizeQK
  {
    Element(p.bufs.kCache, p.shape.cache, p.shape.numHeadsKV, p.shape.headSizeQK, b, p.shape.KVHead(h), j, d)
  }

  function CachedValue(p: Problem, b: nat, h: nat, j: nat, d: nat): real
    requires p.Valid() && p.InBatch(b, h) && j < p.shape.cache[b] && d < p.shape.headSizeVO
  {
    Element(p.bufs.vCache, p.shape.cache, p.shape.numHeadsKV, p.shape.headSizeVO, b, p.shape.KVHead(h), j, d)
  }

  // ----- what an output element reads

  /** The buffers agree on everything that coordinate d of row i of head h may read: its query, the keys
      that the row sees, and coordinate d of their values. */
  ghost predicate SameReads(p: Problem, p': Problem, b: nat, h: nat, i: nat, d: nat)
    requires p.Valid() && p'.Valid() && p'.shape == p.shape && InOutput(p, b, h, i, d)
  {
    var s, g := p.shape, p.shape.KVHead(h);
    && SameRow(p.bufs.q, p'.bufs.q, s.qo, s.numHeadsQ, s.headSizeQK, b, h, i)
    && (forall j: nat :: j < s.cache[b] ==>
          SameRow(p.bufs.kCache, p'.bufs.kCache, s.cache, s.numHeadsKV, s.headSizeQK, b, g, j))
    && (forall j: nat :: j < s.cache[b] ==> CachedValue(p', b, h, j, d) == CachedValue(p, b, h, j, d))
    && (forall j: nat :: j < s.kv[b] && Sees(p, b, i, j) ==>
          SameRow(p.bufs.k, p'.bufs.k, s.kv, s.numHeadsKV, s.headSizeQK, b, g, j))
    && (forall j: nat :: j < s.kv[b] && Sees(p, b, i, j) ==> NewValue(p', b, h, j, d) == NewValue(p, b, h, j, d))
  }

  lemma SameCachedToken(p: Problem, p': Problem, b: nat, h: nat, i: nat, d: nat, k: nat)
    requires p.Valid() && p'.Valid() && p' == p.(bufs := p'.bufs) && InOutput(p, b, h, i, d)
    requires SameReads(p, p', b, h, i, d) && k < p.shape.cache[b]
    ensures SameAt(p'.HeadAt(b, h).cached[k], p.HeadAt(b, h).cached[k], d)
  {
    var s, g, r := p.shape, p.shape.KVHead(h), StoredRow(p, b, k);
    CachedToken(p, b, g, k);
    CachedToken(p', b, g, k);
    assert StoredRow(p', b, k) == r;
    SameSegmentRow(p.bufs.kCache, p'.bufs.kCache, s.cache, s.numHeadsKV, s.headSizeQK, b, g, r);
    SegmentElement(p.bufs.vCache, s.cache, s.numHeadsKV, s.headSizeVO, b, g, r, d);
    SegmentElement(p'.bufs.vCache, s.cache, s.numHeadsKV, s.headSizeVO, b, g, r, d);
    assert CachedValue(p', b, h, r, d) == CachedValue(p, b, h, r, d);
  }

  lemma SameNewToken(p: Problem, p': Problem, b: nat, h: nat, i: nat, d: nat, j: nat)
    requires p.Valid() && p'.Valid() && p' == p.(bufs := p'.bufs) && InOutput(p, b, h, i, d)
    requires SameReads(p, p', b, h, i, d) && j < p.shape.kv[b] && Sees(p, b, i, j)
    ensures SameAt(p'.HeadAt(b, h).added[j], p.HeadAt(b, h).added[j], d)
  {
    var s, g := p.shape, p.shape.KVHead(h);
    SameSegmentRow(p.bufs.k, p'.bufs.k, s.kv, s.numHeadsKV, s.headSizeQK, b, g, j);
    SegmentElement(p.bufs.v, s.kv, s.numHeadsKV, s.headSizeVO, b, g, j, d);
    SegmentElement(p'.bufs.v, s.kv, s.numHeadsKV, s.headSizeVO, b, g, j, d);
    assert NewValue(p', b, h, j, d) == NewValue(p, b, h, j, d);
  }

  lemma SameHeadOutput(p: Problem, p': Problem, b: nat, h: nat, i: nat, d: nat)
    requires p.Valid() && p'.Valid() && p' == p.(bufs := p'.bufs) && InOutput(p, b, h, i, d)
    requires Live(p, b, i) ==> SameReads(p, p', b, h, i, d)
    ensures p'.HeadAt(b, h).Output(p.sm, p.causal, i, d) == p.HeadAt(b, h).Output(p.sm, p.causal, i, d)
  {
    var head, head' := p.HeadAt(b, h), p'.HeadAt(b, h);
    if Live(p, b, i) {
      SameSegmentRow(p.bufs.q, p'.bufs.q, p.shape.qo, p.shape.numHeadsQ, p.shape.headSizeQK, b, h, i);
      forall k | 0 <= k < |head.Visible(p.causal, i)|
        ensures SameAt(head'.Visible(p.causal, i)[k], head.Visible(p.causal, i)[k], d)
      {
        if k < p.shape.cache[b] {
          SameCachedToken(p, p', b, h, i, d, k);
        } else {
          SameNewToken(p, p', b, h, i, d, k - p.shape.cache[b]);
        }
      }
    }
    OutputIgnoresMasked(p.sm, p.causal, head, head', i, d);
  }

  /** An output element is unchanged by any change to the buffers that leaves alone its own query row, the
      keys its row sees, and the same coordinate of their values: masked keys, other value coordinates,
      other rows, heads and sequences do not matter. A discarded row reads nothing. */
  lemma OutputIgnoresUnread(p: Problem, p': Problem, b: nat, h: nat, i: nat, d: nat)
    requires p.Valid() && p'.bufs.Fit(p.shape) && p' == p.(bufs := p'.bufs) && InOutput(p, b, h, i, d)
    requires Live(p, b, i) ==> SameReads(p, p', b, h, i, d)
    ensures OutputAt(p', b, h, i, d) == OutputAt(p, b, h, i, d)
  {
    SameHeadOutput(p, p', b, h, i, d);
    p.OutputElement(b, h, i, d);
    p'.OutputElement(b, h, i, d);
  }

  // ----- every value it may read, it does read

  lemma HeadSeesToken(p: Problem, p': Problem, b: nat, h: nat, i: nat, d: nat, k: nat, t: Token)
    requires p.Valid() && p'.Valid() && p' == p.(bufs := p'.bufs) && InOutput(p, b, h, i, d) && Live(p, b, i)
    requires k < |p.HeadAt(b, h).Visible(p.causal, i)| && p'.HeadAt(b, h) == WithToken(p.HeadAt(b, h), k, t)
    requires t.key == p.HeadAt(b, h).Visible(p.causal, i)[k].key
    requires t.At(d) != p.HeadAt(b, h).Visible(p.causal, i)[k].At(d)
    ensures OutputAt(p', b, h, i, d) != OutputAt(p, b, h, i, d)
  {
    OutputSeesVisible(p.sm, p.causal, p.HeadAt(b, h), i, d, k, t);
    p.OutputElement(b, h, i, d);
    p'.OutputElement(b, h, i, d);
  }

  // The value element of a new key, overwritten.
  function WithNewValue(p: Problem, b: nat, h: nat, j: nat, d: nat, x: real): (p': Problem)
    requires p.Valid() && p.InBatch(b, h) && j < p.shape.kv[b] && d < p.shape.headSizeVO
    ensures p'.Valid() && p' == p.(bufs := p'.bufs)
  {
    var s, g := p.shape, p.shape.KVHead(h);
    PositionInBuffer(s.kv, s.numHeadsKV, s.headSizeVO, b, g, j, d);
    p.(bufs := p.bufs.(v := p.bufs.v[Position(s.kv, s.numHeadsKV, s.headSizeVO, b, g, j, d) := x]))
  }

  function WithCachedValue(p: Problem, b: nat, h: nat, j: nat, d: nat, x: real): (p': Problem)
    requires p.Valid() && p.InBatch(b, h) && j < p.shape.cache[b] && d < p.shape.headSizeVO
    ensures p'.Valid() && p' == p.(bufs := p'.bufs)
  {
    var s, g := p.shape, p.shape.KVHead(h);
    PositionInBuffer(s.cache, s.numHeadsKV, s.headSizeVO, b, g, j, d);
    p.(bufs := p.bufs.(vCache := p.bufs.vCache[Position(s.cache, s.numHeadsKV, s.headSizeVO, b, g, j, d) := x]))
  }

  lemma ZipUpdate(keys: seq<seq<real>>, values: seq<seq<real>>, values': seq<seq<real>>, j: nat, d: nat, x: real)
    requires |keys| == |values| && j < |keys| && d < |values[j]|
    requires values' == values[j := values[j][d := x]]
    ensures Zip(keys, values') == Zip(keys, values)[j := Token(keys[j], values[j][d := x])]
  {
  }

  lemma NewTokenReplaced(p: Problem, b: nat, h: nat, j: nat, d: nat, x: real) returns (t: Token)
    requires p.Valid() && p.InBatch(b, h) && j < p.shape.kv[b] && d < p.shape.headSizeVO
    ensures var p', head := WithNewValue(p, b, h, j, d, x), p.HeadAt(b, h);
            && p'.Valid() && p'.HeadAt(b, h) == WithToken(head, p.shape.cache[b] + j, t)
            && t.key == head.added[j].key && t.At(d) == x && head.added[j].At(d) == NewValue(p, b, h, j, d)
  {
    var s, g, p' := p.shape, p.shape.KVHead(h), WithNewValue(p, b, h, j, d, x);
    var keys := Segment(p.bufs.k, s.kv, s.numHeadsKV, s.headSizeQK, b, g);
    var values := Segment(p.bufs.v, s.kv, s.numHeadsKV, s.headSizeVO, b, g);
    var values' := Segment(p'.bufs.v, s.kv, s.numHeadsKV, s.headSizeVO, b, g);
    PositionInBuffer(s.kv, s.numHeadsKV, s.headSizeVO, b, g, j, d);
    SegmentUpdate(p.bufs.v, p'.bufs.v, s.kv, s.numHeadsKV, s.headSizeVO, b, g, j, d, x);
    SegmentElement(p.bufs.v, s.kv, s.numHeadsKV, s.headSizeVO, b, g, j, d);
    t := Token(keys[j], values[j][d := x]);
    ZipUpdate(keys, values, values', j, d, x);
    assert p'.Added(b, g) == p.Added(b, g)[j := t];
    assert p'.Cached(b, g) == p.Cached(b, g);
  }

  lemma CachedTokenReplaced(p: Problem, b: nat, h: nat, j: nat, d: nat, x: real) returns (t: Token)
    requires p.Valid() && p.paging.size == 0 && p.InBatch(b, h) && j < p.shape.cache[b] && d < p.shape.headSizeVO
    ensures var p', head := WithCachedValue(p, b, h, j, d, x), p.HeadAt(b, h);
            && p'.Valid() && p'.HeadAt(b, h) == WithToken(head, j, t)
            && t.key == head.cached[j].key && t.At(d) == x && head.cached[j].At(d) == CachedValue(p, b, h, j, d)
  {
    var s, g, p' := p.shape, p.shape.KVHead(h), WithCachedValue(p, b, h, j, d, x);
    var keys, values, values' := p.CachedKeys(b, g), p.CachedValues(b, g), p'.CachedValues(b, g);
    PositionInBuffer(s.cache, s.numHeadsKV, s.headSizeVO, b, g, j, d);
    SegmentUpdate(p.bufs.vCache, p'.bufs.vCache, s.cache, s.numHeadsKV, s.headSizeVO, b, g, j, d, x);
    SegmentElement(p.bufs.vCache, s.cache, s.numHeadsKV, s.headSizeVO, b, g, j, d);
    t := Token(keys[j], values[j][d := x]);
    ZipUpdate(keys, values, values', j, d, x);
    assert p'.Cached(b, g) == p.Cached(b, g)[j := t];
    assert p'.Added(b, g) == p.Added(b, g);
  }

  /** Overwriting the value of any new key that a live row sees, in the buffer, moves the output element. */
  lemma OutputSeesNewValue(p: Problem, b: nat, h: nat, i: nat, d: nat, j: nat, x: real)
    requires p.Valid() && InOutput(p, b, h, i, d) && Live(p, b, i)
    requires j < p.shape.kv[b] && Sees(p, b, i, j) && x != NewValue(p, b, h, j, d)
    ensures OutputAt(WithNewValue(p, b, h, j, d, x), b, h, i, d) != OutputAt(p, b, h, i, d)
  {
    var t := NewTokenReplaced(p, b, h, j, d, x);
    HeadSeesToken(p, WithNewValue(p, b, h, j, d, x), b, h, i, d, p.shape.cache[b] + j, t);
  }

  lemma ContiguousOutputSeesCachedValue(p: Problem, b: nat, h: nat, i: nat, d: nat, j: nat, x: real)
    requires p.Valid() && p.paging.size == 0 && InOutput(p, b, h, i, d) && Live(p, b, i)
    requires j < p.shape.cache[b] && x != CachedValue(p, b, h, j, d)
    ensures OutputAt(WithCachedValue(p, b, h, j, d, x), b, h, i, d) != OutputAt(p, b, h, i, d)
  {
    var t := CachedTokenReplaced(p, b, h, j, d, x);
    HeadSeesToken(p, WithCachedValue(p, b, h, j, d, x), b, h, i, d, j, t);
  }

  lemma ContiguousOutputAt(p: Problem, b: nat, h: nat, i: nat, d: nat)
    requires p.Valid() && Shuffled(p.paging, p.shape.cache) && InOutput(p, b, h, i, d)
    ensures p.(paging := CONTIGUOUS).Valid()
    ensures OutputAt(p.(paging := CONTIGUOUS), b, h, i, d) == OutputAt(p, b, h, i, d)
  {
    PagingPreservesOutput(p);
  }

  /** So does overwriting any cached value, through any shuffled page table: a live row sees them all. */
  lemma OutputSeesCachedValue(p: Problem, b: nat, h: nat, i: nat, d: nat, j: nat, x: real)
    requires p.Valid() && Shuffled(p.paging, p.shape.cache) && InOutput(p, b, h, i, d) && Live(p, b, i)
    requires j < p.shape.cache[b] && x != CachedValue(p, b, h, j, d)
    ensures OutputAt(WithCachedValue(p, b, h, j, d, x), b, h, i, d) != OutputAt(p, b, h, i, d)
  {
    ContiguousOutputAt(p, b, h, i, d);
    ContiguousOutputAt(WithCachedValue(p, b, h, j, d, x), b, h, i, d);
    ContiguousOutputSeesCachedValue(p.(paging := CONTIGUOUS), b, h, i, d, j, x);
  }

  // ----- output elements are averages of the values they read

  lemma CachedTokenValue(p: Problem, b: nat, h: nat, k: nat, d: nat)
    requires p.Valid() && p.InBatch(b, h) && k < p.shape.cache[b] && d < p.shape.headSizeVO
    ensures p.HeadAt(b, h).cached[k].At(d) == CachedValue(p, b, h, StoredRow(p, b, k), d)
  {
    var s, g := p.shape, p.shape.KVHead(h);
    CachedToken(p, b, g, k);
    SegmentElement(p.bufs.vCache, s.cache, s.numHeadsKV, s.headSizeVO, b, g, StoredRow(p, b, k), d);
  }

  lemma NewTokenValue(p: Problem, b: nat, h: nat, j: nat, d: nat)
    requires p.Valid() && p.InBatch(b, h) && j < p.shape.kv[b] && d < p.shape.headSizeVO
    ensures p.HeadAt(b, h).added[j].At(d) == NewValue(p, b, h, j, d)
  {
    var s, g := p.shape, p.shape.KVHead(h);
    SegmentElement(p.bufs.v, s.kv, s.numHeadsKV, s.headSizeVO, b, g, j, d);
  }

  lemma VisibleWithin(p: Problem, b: nat, h: nat, i: nat, d: nat, lo: real, hi: real)
    requires p.Valid() && InOutput(p, b, h, i, d) && Live(p, b, i)
    requires forall j: nat :: j < p.shape.cache[b] ==> lo <= CachedValue(p, b, h, j, d) <= hi
    requires forall j: nat :: j < p.shape.kv[b] && Sees(p, b, i, j) ==> lo <= NewValue(p, b, h, j, d) <= hi
    ensures var seen := p.HeadAt(b, h).Visible(p.causal, i);
            forall k :: 0 <= k < |seen| ==> lo <= seen[k].At(d) <= hi
  {
    var seen := p.HeadAt(b, h).Visible(p.causal, i);
    forall k | 0 <= k < |seen|
      ensures lo <= seen[k].At(d) <= hi
    {
      if k < p.shape.cache[b] {
        CachedTokenValue(p, b, h, k, d);
      } else {
        NewTokenValue(p, b, h, k - p.shape.cache[b], d);
      }
    }
  }

  /** A live output element lies between any bounds on the buffer elements of the values it sees. */
  lemma OutputWithin(p: Problem, b: nat, h: nat, i: nat, d: nat, lo: real, hi: real)
    requires p.Valid() && InOutput(p, b, h, i, d) && Live(p, b, i)
    requires forall j: nat :: j < p.shape.cache[b] ==> lo <= CachedValue(p, b, h, j, d) <= hi
    requires forall j: nat :: j < p.shape.kv[b] && Sees(p, b, i, j) ==> lo <= NewValue(p, b, h, j, d) <= hi
    ensures OutputAt(p, b, h, i, d).Fin? && lo <= OutputAt(p, b, h, i, d).v <= hi
  {
    VisibleWithin(p, b, h, i, d, lo, hi);
    OutputIsAverage(p.sm, p.causal, p.HeadAt(b, h), i, d, lo, hi);
    p.OutputElement(b, h, i, d);
  }
}
