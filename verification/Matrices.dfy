/** Row-major buffers: a flat sequence of n * w elements read as n rows of width w. */
module Matrices {

  predicate Uniform<T>(rows: seq<seq<T>>, w: nat) {
    forall r :: 0 <= r < |rows| ==> |rows[r]| == w
  }

  function Flatten<T>(rows: seq<seq<T>>): seq<T> {
    if |rows| == 0 then [] else Flatten(rows[..|rows| - 1]) + rows[|rows| - 1]
  }

  function Rows<T>(s: seq<T>, n: nat, w: nat): (rows: seq<seq<T>>)
    requires |s| == n * w
    ensures |rows| == n && Uniform(rows, w)
  {
    if n == 0 then []
    else
      assert (n - 1) * w + w == n * w;
      Rows(s[..(n - 1) * w], n - 1, w) + [s[(n - 1) * w..]]
  }

  lemma {:induction false} FlattenRows<T>(s: seq<T>, n: nat, w: nat)
    requires |s| == n * w
    ensures Flatten(Rows(s, n, w)) == s
  {
    if n > 0 {
      assert (n - 1) * w + w == n * w;
      FlattenRows(s[..(n - 1) * w], n - 1, w);
      var rows := Rows(s, n, w);
      assert rows[..n - 1] == Rows(s[..(n - 1) * w], n - 1, w);
    }
  }

  lemma {:induction false} FlattenLength<T>(rows: seq<seq<T>>, w: nat)
    requires Uniform(rows, w)
    ensures |Flatten(rows)| == |rows| * w
  {
    var n := |rows|;
    if n > 0 {
      FlattenLength(rows[..n - 1], w);
      assert (n - 1) * w + w == n * w;
    }
  }

  lemma {:induction false} FlattenConcat<T>(a: seq<seq<T>>, b: seq<seq<T>>)
    ensures Flatten(a + b) == Flatten(a) + Flatten(b)
  {
    if |b| == 0 {
      assert a + b == a;
    } else {
      var m := |b| - 1;
      assert (a + b)[..|a + b| - 1] == a + b[..m];
      FlattenConcat(a, b[..m]);
    }
  }

  lemma FlattenJoin<T>(rows: seq<seq<T>>, a: nat, b: nat)
    requires a <= b <= |rows|
    ensures Flatten(rows[..b]) == Flatten(rows[..a]) + Flatten(rows[a..b])
  {
    assert rows[..b] == rows[..a] + rows[a..b];
    FlattenConcat(rows[..a], rows[a..b]);
  }

  /** The elements of rows lo..hi are the flat elements lo*w..hi*w. */
  lemma {:induction false} FlattenSlice<T>(rows: seq<seq<T>>, w: nat, lo: nat, hi: nat)
    requires Uniform(rows, w) && lo <= hi <= |rows|
    ensures 0 <= lo * w <= hi * w <= |Flatten(rows)|
    ensures Flatten(rows)[lo * w..hi * w] == Flatten(rows[lo..hi])
  {
    var a, b, c := rows[..lo], rows[lo..hi], rows[hi..];
    assert rows == a + b + c;
    FlattenConcat(a + b, c);
    FlattenConcat(a, b);
    FlattenLength(a, w);
    FlattenLength(a + b, w);
    var i, j := lo * w, hi * w;
    assert |Flatten(a)| == i && |Flatten(a) + Flatten(b)| == j;
    assert (Flatten(a) + Flatten(b) + Flatten(c))[i..j] == Flatten(b);
  }

  lemma {:induction false} FlattenRow<T>(rows: seq<seq<T>>, w: nat, r: nat)
    requires Uniform(rows, w) && r < |rows|
    ensures 0 <= r * w && r * w + w <= |Flatten(rows)|
    ensures Flatten(rows)[r * w..r * w + w] == rows[r]
    ensures Flatten(rows)[..r * w] == Flatten(rows[..r])
    ensures Flatten(rows[..r + 1]) == Flatten(rows[..r]) + rows[r]
  {
    FlattenSlice(rows, w, r, r + 1);
    FlattenSlice(rows, w, 0, r);
    assert (r + 1) * w == r * w + w;
    assert rows[r..r + 1] == [rows[r]];
    assert Flatten([rows[r]]) == rows[r];
    assert rows[0..r] == rows[..r] && Flatten(rows)[0 * w..r * w] == Flatten(rows)[..r * w];
    assert rows[..r + 1][..r] == rows[..r];
  }

  /** Reading rows back out of a flattened matrix gives the matrix. */
  lemma {:induction false} RowsFlatten<T>(rows: seq<seq<T>>, w: nat)
    requires Uniform(rows, w)
    ensures |Flatten(rows)| == |rows| * w
    ensures Rows(Flatten(rows), |rows|, w) == rows
  {
    FlattenLength(rows, w);
    var n := |rows|;
    if n > 0 {
      FlattenLength(rows[..n - 1], w);
      RowsFlatten(rows[..n - 1], w);
      assert (n - 1) * w + w == n * w;
      assert Flatten(rows)[..(n - 1) * w] == Flatten(rows[..n - 1]);
      assert Flatten(rows)[(n - 1) * w..] == rows[n - 1];
      assert rows == rows[..n - 1] + [rows[n - 1]];
    }
  }

  /** Element c of row r sits at flat position r * w + c. */
  lemma FlattenAt<T>(rows: seq<seq<T>>, w: nat, r: nat, c: nat)
    requires Uniform(rows, w) && r < |rows| && c < w
    ensures r * w + c < |Flatten(rows)| && Flatten(rows)[r * w + c] == rows[r][c]
  {
    FlattenRow(rows, w, r);
    var base := r * w;
    assert Flatten(rows)[base..base + w][c] == Flatten(rows)[base + c];
  }

  lemma FlattenSplit<T>(a: seq<seq<T>>, x: seq<T>, b: seq<seq<T>>, w: nat)
    requires Uniform(a, w)
    ensures Flatten(a + [x] + b) == Flatten(a) + x + Flatten(b)
    ensures |Flatten(a)| == |a| * w
  {
    FlattenConcat(a + [x], b);
    FlattenConcat(a, [x]);
    FlattenLength(a, w);
    assert Flatten([x]) == x;
  }

  lemma UpdateMiddle<T>(a: seq<T>, x: seq<T>, b: seq<T>, c: nat, v: T)
    requires c < |x|
    ensures (a + x + b)[|a| + c := v] == a + x[c := v] + b
  {
  }

  /** Writing one flat position rewrites one element of one row and nothing else. */
  lemma FlattenUpdate<T>(rows: seq<seq<T>>, w: nat, r: nat, c: nat, x: T)
    requires Uniform(rows, w) && r < |rows| && c < w
    ensures r * w + c < |Flatten(rows)|
    ensures Uniform(rows[r := rows[r][c := x]], w)
    ensures Flatten(rows[r := rows[r][c := x]]) == Flatten(rows)[r * w + c := x]
  {
    var a, b := rows[..r], rows[r + 1..];
    var y := rows[r][c := x];
    assert rows == a + [rows[r]] + b && rows[r := y] == a + [y] + b;
    FlattenSplit(a, rows[r], b, w);
    FlattenSplit(a, y, b, w);
    UpdateMiddle(Flatten(a), rows[r], Flatten(b), c, x);
  }

  /** A matrix halfway through being rewritten: rows before r are done, row r is done before
      column c, everything after is untouched. */
  function Half<T>(done: seq<seq<T>>, todo: seq<seq<T>>, r: nat, c: nat): seq<seq<T>>
    requires |done| == |todo| && r <= |done|
    requires r < |done| ==> c <= |done[r]| == |todo[r]|
  {
    if r == |done| then done else done[..r] + [done[r][..c] + todo[r][c..]] + todo[r + 1..]
  }

  /** The flat buffer s holds matrix todo, rewritten into matrix done up to row r, column c. */
  ghost predicate Rewriting<T>(s: seq<T>, done: seq<seq<T>>, todo: seq<seq<T>>, w: nat, r: nat, c: nat) {
    && |done| == |todo| && Uniform(done, w) && Uniform(todo, w)
    && r <= |done| && c <= w
    && s == Flatten(Half(done, todo, r, c))
  }

  lemma RewritingStart<T>(s: seq<T>, done: seq<seq<T>>, todo: seq<seq<T>>, w: nat)
    requires |done| == |todo| && Uniform(done, w) && Uniform(todo, w) && s == Flatten(todo)
    ensures Rewriting(s, done, todo, w, 0, 0)
  {
    if |todo| > 0 {
      assert done[0][..0] + todo[0][0..] == todo[0];
      assert todo == todo[..0] + [todo[0]] + todo[1..];
    }
  }

  /** The next element to rewrite still holds its old value. */
  lemma RewritingRead<T>(s: seq<T>, done: seq<seq<T>>, todo: seq<seq<T>>, w: nat, r: nat, c: nat)
    requires Rewriting(s, done, todo, w, r, c) && r < |done| && c < w
    ensures r * w + c < |s| && s[r * w + c] == todo[r][c]
  {
    FlattenAt(Half(done, todo, r, c), w, r, c);
  }

  lemma HalfStep<T>(done: seq<seq<T>>, todo: seq<seq<T>>, r: nat, c: nat)
    requires |done| == |todo| && r < |done| && c < |done[r]| == |todo[r]|
    ensures |Half(done, todo, r, c)| == |done| && |Half(done, todo, r, c)[r]| == |done[r]|
    ensures Half(done, todo, r, c)[r := Half(done, todo, r, c)[r][c := done[r][c]]] == Half(done, todo, r, c + 1)
  {
    var m := Half(done, todo, r, c);
    assert m[r][c := done[r][c]] == done[r][..c + 1] + todo[r][c + 1..];
  }

  lemma RewritingWrite<T>(s: seq<T>, done: seq<seq<T>>, todo: seq<seq<T>>, w: nat, r: nat, c: nat)
    requires Rewriting(s, done, todo, w, r, c) && r < |done| && c < w
    ensures r * w + c < |s|
    ensures Rewriting(s[r * w + c := done[r][c]], done, todo, w, r, c + 1)
  {
    FlattenUpdate(Half(done, todo, r, c), w, r, c, done[r][c]);
    HalfStep(done, todo, r, c);
  }

  lemma RewritingSkip<T>(s: seq<T>, done: seq<seq<T>>, todo: seq<seq<T>>, w: nat, r: nat, c: nat, c': nat)
    requires Rewriting(s, done, todo, w, r, c) && r < |done| && c <= c' <= w
    requires forall k :: c <= k < c' ==> done[r][k] == todo[r][k]
    ensures Rewriting(s, done, todo, w, r, c')
  {
    assert done[r][..c] + todo[r][c..] == done[r][..c'] + todo[r][c'..];
  }

  lemma RewritingNextRow<T>(s: seq<T>, done: seq<seq<T>>, todo: seq<seq<T>>, w: nat, r: nat)
    requires Rewriting(s, done, todo, w, r, w) && r < |done|
    ensures Rewriting(s, done, todo, w, r + 1, 0)
  {
    assert done[r][..w] + todo[r][w..] == done[r];
    assert done[..r + 1] == done[..r] + [done[r]];
    if r + 1 < |done| {
      assert done[r + 1][..0] + todo[r + 1][0..] == todo[r + 1];
      assert todo[r + 1..] == [todo[r + 1]] + todo[r + 2..];
      assert Half(done, todo, r, w) == done[..r + 1] + [todo[r + 1]] + todo[r + 2..];
    } else {
      assert Half(done, todo, r, w) == done;
    }
  }

  /** Stores the next element of an array that is being rewritten in place. */
  method StoreElement<T>(s: array<T>, ghost done: seq<seq<T>>, ghost todo: seq<seq<T>>,
                         ghost w: nat, ghost r: nat, ghost c: nat, idx: nat, x: T)
    requires Rewriting(s[..], done, todo, w, r, c) && r < |done| && c < w
    requires idx == r * w + c < s.Length && x == done[r][c]
    modifies s
    ensures Rewriting(s[..], done, todo, w, r, c + 1)
  {
    RewritingWrite(s[..], done, todo, w, r, c);
    s[idx] := x;
  }
}
