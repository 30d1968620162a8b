/** Where each head of each sequence lives in a flat buffer: sequence-major, then head,
    then row, then coordinate. */
module HeadLayout {
  import opened Arithmetic
  import opened Ragged

  /** First element of sequence b. */
  function BatchStart(lens: seq<nat>, heads: nat, width: nat, b: nat): nat
    requires b <= |lens|
  {
    width * (heads * Cum(lens, b))
  }

  /** First element of head h of sequence b, as the device kernel computes it from the cumulative table. */
  function HeadStart(lens: seq<nat>, heads: nat, width: nat, b: nat, h: nat): nat
    requires b < |lens|
  {
    width * (heads * Cum(lens, b) + lens[b] * h)
  }

  lemma Distribute(w: nat, x: nat, y: nat)
    ensures w * (x + y) == w * x + w * y
  {
  }

  lemma HeadStep(lens: seq<nat>, heads: nat, width: nat, b: nat, h: nat)
    requires b < |lens|
    ensures HeadStart(lens, heads, width, b, h) + lens[b] * width == HeadStart(lens, heads, width, b, h + 1)
  {
    var c, n := heads * Cum(lens, b), lens[b];
    Distribute(n, h, 1);
    Distribute(width, c + n * h, n);
    assert width * n == n * width;
  }

  lemma FirstHead(lens: seq<nat>, heads: nat, width: nat, b: nat)
    requires b < |lens|
    ensures HeadStart(lens, heads, width, b, 0) == BatchStart(lens, heads, width, b)
  {
  }

  lemma PastLastHead(lens: seq<nat>, heads: nat, width: nat, b: nat)
    requires b < |lens|
    ensures HeadStart(lens, heads, width, b, heads) == BatchStart(lens, heads, width, b + 1)
  {
    Distribute(heads, Cum(lens, b), lens[b]);
    assert lens[b] * heads == heads * lens[b];
  }

  lemma ScaleMonotone(w: nat, x: nat, y: nat)
    requires x <= y
    ensures w * x <= w * y
  {
  }

  /** A head's segment ends where its batch does at the latest, and inside the buffer. */
  lemma HeadFits(lens: seq<nat>, heads: nat, width: nat, b: nat, h: nat)
    requires b < |lens| && h < heads
    ensures BatchStart(lens, heads, width, b) <= HeadStart(lens, heads, width, b, h)
    ensures HeadStart(lens, heads, width, b, h) + lens[b] * width <= BatchStart(lens, heads, width, b + 1)
         <= BatchStart(lens, heads, width, |lens|)
  {
    HeadStep(lens, heads, width, b, h);
    PastLastHead(lens, heads, width, b);
    ScaleMonotone(lens[b], h + 1, heads);
    ScaleMonotone(width, heads * Cum(lens, b) + lens[b] * (h + 1), heads * Cum(lens, b) + lens[b] * heads);
    ScaleMonotone(width, heads * Cum(lens, b), heads * Cum(lens, b) + lens[b] * h);
    CumMonotone(lens, b + 1, |lens|);
    ScaleMonotone(heads, Cum(lens, b + 1), Cum(lens, |lens|));
    ScaleMonotone(width, heads * Cum(lens, b + 1), heads * Cum(lens, |lens|));
  }

  /** Flat position of coordinate d of row i of head h of sequence b. */
  function Position(lens: seq<nat>, heads: nat, width: nat, b: nat, h: nat, i: nat, d: nat): nat
    requires b < |lens|
  {
    HeadStart(lens, heads, width, b, h) + (i * width + d)
  }

  ghost predicate InRange(lens: seq<nat>, heads: nat, width: nat, b: nat, h: nat, i: nat, d: nat) {
    b < |lens| && h < heads && i < lens[b] && d < width
  }

  /** The layout, one step at a time: coordinates are next to each other, then rows, then heads, then
      sequences, and nothing comes before the first. */
  lemma PositionSteps(lens: seq<nat>, heads: nat, width: nat, b: nat, h: nat, i: nat, d: nat)
    requires b < |lens|
    ensures Position(lens, heads, width, 0, 0, 0, 0) == 0
    ensures Position(lens, heads, width, b, h, i, d + 1) == Position(lens, heads, width, b, h, i, d) + 1
    ensures Position(lens, heads, width, b, h, i + 1, d) == Position(lens, heads, width, b, h, i, d) + width
    ensures Position(lens, heads, width, b, h + 1, i, d) == Position(lens, heads, width, b, h, i, d) + lens[b] * width
    ensures b + 1 < |lens| ==>
      Position(lens, heads, width, b + 1, 0, i, d) == Position(lens, heads, width, b, heads, i, d)
  {
    MulSucc(i, width);
    HeadStep(lens, heads, width, b, h);
    PastLastHead(lens, heads, width, b);
    if b + 1 < |lens| {
      FirstHead(lens, heads, width, b + 1);
    }
    FirstHead(lens, heads, width, 0);
  }

  lemma PositionInBuffer(lens: seq<nat>, heads: nat, width: nat, b: nat, h: nat, i: nat, d: nat)
    requires InRange(lens, heads, width, b, h, i, d)
    ensures Position(lens, heads, width, b, h, i, d) < BatchStart(lens, heads, width, |lens|)
  {
    HeadFits(lens, heads, width, b, h);
    MulStrict(i, lens[b], width);
  }

  // Rows that all heads of each sequence take together.
  function HeadRows(lens: seq<nat>, heads: nat): (rows: seq<nat>)
    ensures |rows| == |lens|
  {
    seq(|lens|, b requires 0 <= b < |lens| => heads * lens[b])
  }

  lemma {:induction false} CumHeadRows(lens: seq<nat>, heads: nat, b: nat)
    requires b <= |lens|
    ensures Cum(HeadRows(lens, heads), b) == heads * Cum(lens, b)
  {
    if b > 0 {
      CumHeadRows(lens, heads, b - 1);
      Distribute(heads, Cum(lens, b - 1), lens[b - 1]);
    }
  }

  // Row i of head h of sequence b, counted from the start of the buffer.
  function RowNumber(lens: seq<nat>, heads: nat, b: nat, h: nat, i: nat): nat
    requires b < |lens|
  {
    Cum(HeadRows(lens, heads), b) + (h * lens[b] + i)
  }

  function RowPosition(row: nat, width: nat, d: nat): nat {
    row * width + d
  }

  /** The flat position read as a row number and a coordinate. */
  lemma PositionAsRow(lens: seq<nat>, heads: nat, width: nat, b: nat, h: nat, i: nat, d: nat)
    requires b < |lens|
    ensures Position(lens, heads, width, b, h, i, d) == RowPosition(RowNumber(lens, heads, b, h, i), width, d)
  {
    var start := Cum(HeadRows(lens, heads), b) + h * lens[b];
    assert HeadStart(lens, heads, width, b, h) == width * start by {
      CumHeadRows(lens, heads, b);
      MulCommutes(lens[b], h);
    }
    RowForm(width, start, i, d, RowNumber(lens, heads, b, h, i), HeadStart(lens, heads, width, b, h));
  }

  lemma RowForm(width: nat, start: nat, i: nat, d: nat, row: nat, first: nat)
    requires row == start + i && first == width * start
    ensures first + (i * width + d) == RowPosition(row, width, d)
  {
  }

  /** Every position of the buffer belongs to some (sequence, head, row, coordinate) ... */
  lemma PositionOwner(lens: seq<nat>, heads: nat, width: nat, p: nat)
    returns (b: nat, h: nat, i: nat, d: nat)
    requires p < BatchStart(lens, heads, width, |lens|)
    ensures InRange(lens, heads, width, b, h, i, d) && Position(lens, heads, width, b, h, i, d) == p
  {
    var total := heads * Cum(lens, |lens|);
    CumHeadRows(lens, heads, |lens|);
    MulCommutes(width, total);
    QuotientBelow(p, total, width);
    var row := p / width;
    d := p % width;
    var o;
    b, o := Locate(HeadRows(lens, heads), |lens|, row);
    QuotientBelow(o, heads, lens[b]);
    h, i := o / lens[b], o % lens[b];
    PositionAsRow(lens, heads, width, b, h, i, d);
  }

  /** ... and to only one: no two heads share an element. */
  lemma PositionUnique(lens: seq<nat>, heads: nat, width: nat,
                       b: nat, h: nat, i: nat, d: nat, b': nat, h': nat, i': nat, d': nat)
    requires InRange(lens, heads, width, b, h, i, d) && InRange(lens, heads, width, b', h', i', d')
    requires Position(lens, heads, width, b, h, i, d) == Position(lens, heads, width, b', h', i', d')
    ensures b == b' && h == h' && i == i' && d == d'
  {
    PositionAsRow(lens, heads, width, b, h, i, d);
    PositionAsRow(lens, heads, width, b', h', i', d');
    var rows := HeadRows(lens, heads);
    QuotientUnique(RowNumber(lens, heads, b, h, i), d, RowNumber(lens, heads, b', h', i'), d', width);
    RowInRange(lens, heads, b, h, i);
    RowInRange(lens, heads, b', h', i');
    LocateUnique(rows, b, h * lens[b] + i, b', h' * lens[b'] + i');
    QuotientUnique(h, i, h', i', lens[b]);
  }

  lemma RowInRange(lens: seq<nat>, heads: nat, b: nat, h: nat, i: nat)
    requires b < |lens| && h < heads && i < lens[b]
    ensures h * lens[b] + i < HeadRows(lens, heads)[b]
  {
    MulStrict(h, heads, lens[b]);
  }

  // ----- query heads share key/value heads

  /** After query head h the group counter is h + 1, and the key/value offsets move on exactly when
      it reaches a multiple of the group size: exactly when h + 1 starts a new key/value head. */
  lemma GroupStep(h: nat, group: nat)
    requires group > 0
    ensures (h + 1) / group == (if (h + 1) % group == 0 then h / group + 1 else h / group)
  {
    NextQuotient(h, group);
  }

  /** Every query head has a positive group size to be divided by, and finds a key/value head of its own
      sequence, exactly when the key/value head count divides the query head count. */
  lemma GroupHeadInRange(numHeadsQ: nat, numHeadsKV: nat)
    requires numHeadsKV > 0
    ensures (forall h: nat :: h < numHeadsQ ==> FindsHead(h, numHeadsQ / numHeadsKV, numHeadsKV))
       <==> numHeadsQ % numHeadsKV == 0
  {
    var group := numHeadsQ / numHeadsKV;
    DivModEquation(numHeadsQ, numHeadsKV);
    MulCommutes(group, numHeadsKV);
    if numHeadsQ % numHeadsKV == 0 {
      forall h: nat | h < numHeadsQ
        ensures FindsHead(h, group, numHeadsKV)
      {
        QuotientBelow(h, numHeadsKV, group);
      }
    } else {
      LastHeadMisses(group, numHeadsKV, numHeadsQ);
    }
  }

  predicate FindsHead(h: nat, group: nat, numHeadsKV: nat) {
    group > 0 && h / group < numHeadsKV
  }

  lemma LastHeadMisses(group: nat, numHeadsKV: nat, numHeadsQ: nat)
    requires group * numHeadsKV < numHeadsQ
    ensures !FindsHead(group * numHeadsKV, group, numHeadsKV)
  {
    if group > 0 {
      MulCommutes(group, numHeadsKV);
      DivUnique(group * numHeadsKV, group, numHeadsKV, 0);
    }
  }

  // ----- blocks laid out by a sequence loop around a head loop

  /** Everything the two loops have written before head h of sequence b. */
  ghost function Walk<T>(block: (nat, nat) -> seq<T>, heads: nat, b: nat, h: nat): seq<T>
    decreases b, h
  {
    if h > 0 then Walk(block, heads, b, h - 1) + block(b, h - 1)
    else if b > 0 then Walk(block, heads, b - 1, heads)
    else []
  }

  ghost predicate BlocksSized<T>(block: (nat, nat) -> seq<T>, lens: seq<nat>, heads: nat, width: nat) {
    forall b: nat, h: nat :: b < |lens| && h < heads ==> |block(b, h)| == lens[b] * width
  }

  /** The loops reach head h of sequence b at the layout's offset. */
  lemma {:induction false} WalkLength<T>(block: (nat, nat) -> seq<T>, lens: seq<nat>, heads: nat, width: nat,
                                         b: nat, h: nat)
    requires BlocksSized(block, lens, heads, width)
    requires b <= |lens| && h <= heads && (h > 0 ==> b < |lens|)
    ensures b < |lens| ==> |Walk(block, heads, b, h)| == HeadStart(lens, heads, width, b, h)
    ensures h == 0 ==> |Walk(block, heads, b, h)| == BatchStart(lens, heads, width, b)
    decreases b, h
  {
    if h > 0 {
      WalkLength(block, lens, heads, width, b, h - 1);
      HeadStep(lens, heads, width, b, h - 1);
    } else {
      if b > 0 {
        WalkLength(block, lens, heads, width, b - 1, heads);
        PastLastHead(lens, heads, width, b - 1);
      }
      if b < |lens| {
        FirstHead(lens, heads, width, b);
      }
    }
  }

  lemma {:induction false} WalkExtends<T>(block: (nat, nat) -> seq<T>, heads: nat, b: nat, h: nat, b': nat, h': nat)
    requires h <= heads && (b < b' || (b == b' && h <= h'))
    ensures Walk(block, heads, b, h) <= Walk(block, heads, b', h')
    decreases b', h'
  {
    if b == b' && h == h' {
    } else if h' > 0 {
      WalkExtends(block, heads, b, h, b', h' - 1);
    } else {
      WalkExtends(block, heads, b, h, b' - 1, heads);
    }
  }

  /** Each block sits in the finished output at its own offset. */
  lemma WalkBlock<T>(block: (nat, nat) -> seq<T>, lens: seq<nat>, heads: nat, width: nat, b: nat, h: nat)
    requires BlocksSized(block, lens, heads, width) && b < |lens| && h < heads
    ensures var out, start := Walk(block, heads, |lens|, 0), HeadStart(lens, heads, width, b, h);
            && |out| == BatchStart(lens, heads, width, |lens|)
            && start + |block(b, h)| <= |out|
            && out[start..start + |block(b, h)|] == block(b, h)
  {
    WalkLength(block, lens, heads, width, |lens|, 0);
    WalkLength(block, lens, heads, width, b, h);
    WalkExtends(block, heads, b, h + 1, |lens|, 0);
    assert Walk(block, heads, b, h + 1) == Walk(block, heads, b, h) + block(b, h);
  }

  lemma {:induction false} WalkAgrees<T>(f: (nat, nat) -> seq<T>, g: (nat, nat) -> seq<T>, heads: nat, b: nat, h: nat)
    requires forall b, h :: f(b, h) == g(b, h)
    ensures Walk(f, heads, b, h) == Walk(g, heads, b, h)
    decreases b, h
  {
    if h > 0 {
      WalkAgrees(f, g, heads, b, h - 1);
    } else if b > 0 {
      WalkAgrees(f, g, heads, b - 1, heads);
    }
  }
}
