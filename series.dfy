/**
 * Whole-column operations that the pipeline applies to table columns:
 * pandas' gap fills (ffill, bfill, fillna(0)), shift, NaN-skipping
 * reductions and rolling means with min_periods=1.  A cell of a column is a
 * real measurement or missing (NaN).
 */
module Series {
  import opened Wrappers

  type Cell = Option<real>
  type Column = seq<Cell>

  // ----------------------------------------------------------------------
  // Sums, means, maxima, tails

  function Sum(xs: seq<real>): real
  {
    if xs == [] then 0.0 else Sum(xs[..|xs| - 1]) + xs[|xs| - 1]
  }

  lemma {:induction false} SumAppend(a: seq<real>, b: seq<real>)
    ensures Sum(a + b) == Sum(a) + Sum(b)
    decreases |b|
  {
    if b == [] {
      assert a + b == a;
    } else {
      assert (a + b)[..|a + b| - 1] == a + b[..|b| - 1];
      SumAppend(a, b[..|b| - 1]);
    }
  }

  /** A sum of |xs| values that each lie in [lo, hi] lies in [|xs|*lo, |xs|*hi]. */
  lemma {:induction false} SumBounds(xs: seq<real>, lo: real, hi: real)
    requires forall k :: 0 <= k < |xs| ==> lo <= xs[k] <= hi
    ensures (|xs| as real) * lo <= Sum(xs) <= (|xs| as real) * hi
    decreases |xs|
  {
    if xs != [] {
      SumBounds(xs[..|xs| - 1], lo, hi);
    }
  }

  function Mean(xs: seq<real>): real
    requires |xs| > 0
  {
    Sum(xs) / (|xs| as real)
  }

  /** The mean of values that lie in [lo, hi] lies in [lo, hi]. */
  lemma MeanBounds(xs: seq<real>, lo: real, hi: real)
    requires |xs| > 0
    requires forall k :: 0 <= k < |xs| ==> lo <= xs[k] <= hi
    ensures lo <= Mean(xs) <= hi
  {
    SumBounds(xs, lo, hi);
    var n := |xs| as real;
    assert n * lo <= Sum(xs) <= n * hi;
    assert Mean(xs) * n == Sum(xs);
  }

  /** numpy's max of a non-empty sequence. */
  function Max(xs: seq<real>): (m: real)
    requires |xs| > 0
    ensures m in xs
    ensures forall k :: 0 <= k < |xs| ==> xs[k] <= m
  {
    if |xs| == 1 then xs[0]
    else
      var rest := Max(xs[..|xs| - 1]);
      assert forall k :: 0 <= k < |xs| - 1 ==> xs[..|xs| - 1][k] == xs[k];
      if xs[|xs| - 1] > rest then xs[|xs| - 1] else rest
  }

  /** numpy's min of a non-empty sequence. */
  function Min(xs: seq<real>): (m: real)
    requires |xs| > 0
    ensures m in xs
    ensures forall k :: 0 <= k < |xs| ==> m <= xs[k]
  {
    if |xs| == 1 then xs[0]
    else
      var rest := Min(xs[..|xs| - 1]);
      assert forall k :: 0 <= k < |xs| - 1 ==> xs[..|xs| - 1][k] == xs[k];
      if xs[|xs| - 1] < rest then xs[|xs| - 1] else rest
  }

  /** pandas `tail(n)`: the last min(n, |s|) elements. */
  function Tail<T>(s: seq<T>, n: nat): (r: seq<T>)
    ensures |r| == if n < |s| then n else |s|
    ensures forall k :: 0 <= k < |r| ==> r[k] == s[|s| - |r| + k]
  {
    if n < |s| then s[|s| - n..] else s
  }

  // ----------------------------------------------------------------------
  // Present values and the NaN-skipping reductions

  /** A column of measured values with no missing cell. */
  function Known(xs: seq<real>): (col: Column)
    ensures |col| == |xs|
  {
    seq(|xs|, k requires 0 <= k < |xs| => Some(xs[k]))
  }

  /** The present values of a column, in row order. */
  function Present(col: Column): (r: seq<real>)
    ensures |r| <= |col|
    ensures forall x :: x in r <==> Some(x) in col
  {
    if col == [] then []
    else
      var init := col[..|col| - 1];
      assert col == init + [col[|col| - 1]];
      Present(init) + (if col[|col| - 1].Some? then [col[|col| - 1].value] else [])
  }

  lemma {:induction false} PresentOfKnown(xs: seq<real>)
    ensures Present(Known(xs)) == xs
    decreases |xs|
  {
    if xs != [] {
      assert Known(xs)[..|xs| - 1] == Known(xs[..|xs| - 1]);
      PresentOfKnown(xs[..|xs| - 1]);
    }
  }

  /** pandas' mean: skips missing cells, and is missing when nothing is present. */
  function SkipNaMean(col: Column): Cell
  {
    var xs := Present(col);
    if |xs| == 0 then None else Some(Mean(xs))
  }

  /** pandas' sum: skips missing cells, and is 0 when nothing is present. */
  function SkipNaSum(col: Column): real
  {
    Sum(Present(col))
  }

  // ----------------------------------------------------------------------
  // Gap fills: ffill, bfill, fillna(0)

  /** Value of the nearest present cell at or before row i, if any. */
  function LastPresent(col: Column, i: nat): Cell
    requires i < |col|
  {
    if col[i].Some? then col[i] else if i == 0 then None else LastPresent(col, i - 1)
  }

  /** Value of the nearest present cell at or after row i, if any. */
  function NextPresent(col: Column, i: nat): Cell
    requires i < |col|
    decreases |col| - i
  {
    if col[i].Some? then col[i] else if i + 1 == |col| then None else NextPresent(col, i + 1)
  }

  /** Row j is the nearest present row at or before row i. */
  ghost predicate NearestEarlier(col: Column, i: nat, j: int)
  {
    0 <= j <= i < |col| && col[j].Some? && forall k :: j < k <= i ==> col[k].None?
  }

  /** Row j is the nearest present row at or after row i. */
  ghost predicate NearestLater(col: Column, i: nat, j: int)
  {
    i <= j < |col| && col[j].Some? && forall k :: i <= k < j ==> col[k].None?
  }

  lemma {:induction false} LastPresentIsNearestEarlier(col: Column, i: nat)
    requires i < |col|
    ensures forall j :: NearestEarlier(col, i, j) ==> LastPresent(col, i) == col[j]
    ensures LastPresent(col, i).None? <==> forall j :: 0 <= j <= i ==> col[j].None?
  {
    if col[i].Some? {
    } else if i == 0 {
    } else {
      LastPresentIsNearestEarlier(col, i - 1);
      forall j | NearestEarlier(col, i, j) ensures NearestEarlier(col, i - 1, j) {
      }
    }
  }

  lemma {:induction false} NextPresentIsNearestLater(col: Column, i: nat)
    requires i < |col|
    ensures forall j :: NearestLater(col, i, j) ==> NextPresent(col, i) == col[j]
    ensures NextPresent(col, i).None? <==> forall j :: i <= j < |col| ==> col[j].None?
    decreases |col| - i
  {
    if col[i].Some? {
    } else if i + 1 == |col| {
    } else {
      NextPresentIsNearestLater(col, i + 1);
      forall j | NearestLater(col, i, j) ensures NearestLater(col, i + 1, j) {
      }
    }
  }

  /** pandas `ffill()`: every cell takes the nearest present value at or before it. */
  function FFill(col: Column): (r: Column)
    ensures |r| == |col|
  {
    seq(|col|, i requires 0 <= i < |col| => LastPresent(col, i))
  }

  /** pandas `bfill()`: every cell takes the nearest present value at or after it. */
  function BFill(col: Column): (r: Column)
    ensures |r| == |col|
  {
    seq(|col|, i requires 0 <= i < |col| => NextPresent(col, i))
  }

  /** pandas `fillna(0)`. */
  function ZeroFill(col: Column): (r: seq<real>)
    ensures |r| == |col|
  {
    seq(|col|, i requires 0 <= i < |col| => col[i].GetOr(0.0))
  }

  /** `ffill().bfill()`: the gap policy that leaves a wholly missing column missing. */
  function FillForwardBack(col: Column): (r: Column)
    ensures |r| == |col|
  {
    BFill(FFill(col))
  }

  /** `ffill().bfill().fillna(0)`: the gap policy of the feature matrix. */
  function FillGaps(col: Column): (r: seq<real>)
    ensures |r| == |col|
  {
    ZeroFill(FillForwardBack(col))
  }

  /** Before the first present cell, bfill of the forward-filled column sees the original column. */
  lemma {:induction false} NextPresentAfterFFill(col: Column, i: nat)
    requires i < |col|
    requires LastPresent(col, i).None?
    ensures NextPresent(FFill(col), i) == NextPresent(col, i)
    decreases |col| - i
  {
    assert FFill(col)[i] == LastPresent(col, i);
    if i + 1 < |col| {
      assert FFill(col)[i + 1] == LastPresent(col, i + 1);
      if col[i + 1].None? {
        NextPresentAfterFFill(col, i + 1);
      }
    }
  }

  /**
   * The forward-then-backward fill: a present cell is kept; a missing cell
   * takes the nearest earlier present value, or failing that the nearest
   * later one; a cell stays missing exactly when the whole column is missing.
   */
  lemma FillForwardBackSpec(col: Column, i: nat)
    requires i < |col|
    ensures col[i].Some? ==> FillForwardBack(col)[i] == col[i]
    ensures forall j :: NearestEarlier(col, i, j) ==> FillForwardBack(col)[i] == col[j]
    ensures (forall j :: 0 <= j <= i ==> col[j].None?) ==>
              forall j :: NearestLater(col, i, j) ==> FillForwardBack(col)[i] == col[j]
    ensures FillForwardBack(col)[i].None? <==> forall j :: 0 <= j < |col| ==> col[j].None?
  {
    var f := FFill(col);
    assert FillForwardBack(col)[i] == NextPresent(f, i);
    LastPresentIsNearestEarlier(col, i);
    if LastPresent(col, i).Some? {
      assert f[i] == LastPresent(col, i);
      assert NextPresent(f, i) == LastPresent(col, i);
    } else {
      NextPresentAfterFFill(col, i);
      NextPresentIsNearestLater(col, i);
    }
  }

  /**
   * The gap policy of the feature matrix, cell by cell: present cells are
   * unchanged, a missing cell takes the nearest earlier present value, else
   * the nearest later one, else 0.
   */
  lemma FillGapsSpec(col: Column, i: nat)
    requires i < |col|
    ensures col[i].Some? ==> FillGaps(col)[i] == col[i].value
    ensures forall j :: NearestEarlier(col, i, j) ==> FillGaps(col)[i] == col[j].value
    ensures (forall j :: 0 <= j <= i ==> col[j].None?) ==>
              forall j :: NearestLater(col, i, j) ==> FillGaps(col)[i] == col[j].value
    ensures (forall j :: 0 <= j < |col| ==> col[j].None?) ==> FillGaps(col)[i] == 0.0
  {
    FillForwardBackSpec(col, i);
  }

  /** A forward fill never invents a value: a present result is one of the column's cells. */
  lemma {:induction false} LastPresentFrom(col: Column, i: nat)
    requires i < |col|
    ensures LastPresent(col, i).Some? ==> LastPresent(col, i) in col[..i + 1]
  {
    if col[i].None? && i > 0 {
      LastPresentFrom(col, i - 1);
      assert col[..i] <= col[..i + 1];
    }
  }

  /** Neither does a backward fill. */
  lemma {:induction false} NextPresentFrom(col: Column, i: nat)
    requires i < |col|
    ensures NextPresent(col, i).Some? ==> NextPresent(col, i) in col[i..]
    decreases |col| - i
  {
    if col[i].None? && i + 1 < |col| {
      NextPresentFrom(col, i + 1);
      assert col[i..] == [col[i]] + col[i + 1..];
    }
  }

  /** Every value the forward-then-backward fill produces is a present cell of the column. */
  lemma FillForwardBackFrom(col: Column, i: nat)
    requires i < |col|
    ensures FillForwardBack(col)[i].Some? ==> FillForwardBack(col)[i] in col
  {
    var f := FFill(col);
    NextPresentFrom(f, i);
    if NextPresent(f, i).Some? {
      var u :| u in f[i..] && u == NextPresent(f, i);
      var k :| i <= k < |f| && f[k] == u;
      LastPresentFrom(col, k);
      assert col[..k + 1] <= col;
    }
  }

  /** The worked example of the gap policy: [-, -, 5, -, 7, -] becomes [5, 5, 5, 5, 7, 7]. */
  lemma FillGapsExample()
    ensures FillGaps([None, None, Some(5.0), None, Some(7.0), None]) == [5.0, 5.0, 5.0, 5.0, 7.0, 7.0]
  {
    var col: Column := [None, None, Some(5.0), None, Some(7.0), None];
    var f := FFill(col);
    assert LastPresent(col, 1) == None;
    assert LastPresent(col, 3) == Some(5.0);
    assert LastPresent(col, 5) == Some(7.0);
    assert f == [None, None, Some(5.0), Some(5.0), Some(7.0), Some(7.0)];
    assert NextPresent(f, 2) == Some(5.0);
    assert NextPresent(f, 1) == Some(5.0);
    assert NextPresent(f, 0) == Some(5.0);
    assert BFill(f) == [Some(5.0), Some(5.0), Some(5.0), Some(5.0), Some(7.0), Some(7.0)];
  }

  // ----------------------------------------------------------------------
  // shift and rolling means

  /** pandas `shift(k)`: row i takes row i-k; the first k rows are missing. */
  function Shift(xs: seq<real>, k: nat): (r: Column)
    ensures |r| == |xs|
  {
    seq(|xs|, i requires 0 <= i < |xs| => if i >= k then Some(xs[i - k]) else None)
  }

  function Zeros(n: nat): (r: seq<real>)
    ensures |r| == n && forall k :: 0 <= k < n ==> r[k] == 0.0
  {
    seq(n, _ => 0.0)
  }

  /** `shift(k).fillna(0)` is k zeros followed by the column without its last k rows. */
  lemma LaggedIsZerosThenPrefix(xs: seq<real>, k: nat)
    ensures var m := if k < |xs| then k else |xs|;
            ZeroFill(Shift(xs, k)) == Zeros(m) + xs[..|xs| - m]
  {
  }

  /** First row of the rolling window of width w that ends at row i. */
  function WindowStart(i: nat, w: nat): nat
  {
    if i + 1 >= w then i + 1 - w else 0
  }

  /** pandas `rolling(window=w, min_periods=1).mean()`. */
  function RollingMean(col: Column, w: nat): (r: Column)
    requires w >= 1
    ensures |r| == |col|
  {
    seq(|col|, i requires 0 <= i < |col| => SkipNaMean(col[WindowStart(i, w)..i + 1]))
  }

  /**
   * On a fully measured column, row i of the rolling mean is the mean of the
   * last min(w, i+1) values.
   */
  lemma RollingMeanOfKnown(xs: seq<real>, w: nat, i: nat)
    requires w >= 1 && i < |xs|
    ensures var lo := WindowStart(i, w);
            |xs[lo..i + 1]| == (if w < i + 1 then w else i + 1) &&
            RollingMean(Known(xs), w)[i] == Some(Mean(xs[lo..i + 1]))
  {
    var lo := WindowStart(i, w);
    var win := xs[lo..i + 1];
    assert |win| == (if w < i + 1 then w else i + 1);
    RollingMeanAt(Known(xs), w, i);
    KnownSlice(xs, lo, i + 1);
    KnownMean(win);
  }

  /** A non-empty fully measured column has the plain mean as its NaN-skipping mean. */
  lemma KnownMean(xs: seq<real>)
    requires xs != []
    ensures SkipNaMean(Known(xs)) == Some(Mean(xs))
  {
    PresentOfKnown(xs);
  }

  /** Marking values present commutes with slicing. */
  lemma KnownSlice(xs: seq<real>, a: nat, b: nat)
    requires a <= b <= |xs|
    ensures Known(xs)[a..b] == Known(xs[a..b])
  {
    assert forall k :: 0 <= k < b - a ==> Known(xs)[a..b][k] == Known(xs[a..b])[k];
  }

  /**
   * Row r of a rolling mean is the NaN-skipping mean of the last min(w, r+1)
   * cells; the first row is the first cell itself.
   */
  lemma RollingMeanAt(col: Column, w: nat, r: nat)
    requires w >= 1 && r < |col|
    ensures RollingMean(col, w)[r] == SkipNaMean(col[WindowStart(r, w)..r + 1])
    ensures |col[WindowStart(r, w)..r + 1]| == (if r + 1 < w then r + 1 else w)
    ensures r == 0 ==> RollingMean(col, w)[r] == col[0]
  {
    if r == 0 {
      RollingMeanFirstRow(col, w);
    }
  }

  /** Whatever the column holds, the first row of its rolling mean is its first cell. */
  lemma RollingMeanFirstRow(col: Column, w: nat)
    requires w >= 1 && |col| > 0
    ensures RollingMean(col, w)[0] == col[0]
  {
    assert col[WindowStart(0, w)..1] == [col[0]];
    assert [col[0]][..0] == [];
    if col[0].Some? {
      assert Present([col[0]]) == [col[0].value];
      assert Sum([col[0].value]) == Sum([col[0].value][..0]) + col[0].value;
    }
  }

  /**
   * The running-sum form of a rolling window: the window ending at row i
   * sums to the window ending at row i-1, plus row i, minus the row that
   * left the window.
   */
  lemma RollingSumStep(xs: seq<real>, w: nat, i: nat)
    requires w >= 1 && 0 < i < |xs|
    ensures Sum(xs[WindowStart(i, w)..i + 1]) ==
            Sum(xs[WindowStart(i - 1, w)..i]) + xs[i] - (if i >= w then xs[i - w] else 0.0)
  {
    var lo, lo' := WindowStart(i, w), WindowStart(i - 1, w);
    assert xs[lo..i + 1][..i - lo] == xs[lo..i];
    assert Sum(xs[lo..i + 1]) == Sum(xs[lo..i]) + xs[i];
    if i >= w {
      assert lo == lo' + 1;
      assert xs[lo'..i] == [xs[lo']] + xs[lo..i];
      SumAppend([xs[lo']], xs[lo..i]);
      assert Sum([xs[lo']]) == Sum([xs[lo']][..0]) + xs[lo'];
    } else {
      assert lo == lo';
    }
  }

  /** A rolling mean of values that lie in [lo, hi] lies in [lo, hi]. */
  lemma RollingMeanBounds(xs: seq<real>, w: nat, i: nat, lo: real, hi: real)
    requires w >= 1 && i < |xs|
    requires forall k :: 0 <= k < |xs| ==> lo <= xs[k] <= hi
    ensures RollingMean(Known(xs), w)[i].Some?
    ensures lo <= RollingMean(Known(xs), w)[i].value <= hi
  {
    RollingMeanOfKnown(xs, w, i);
    var s := WindowStart(i, w);
    MeanBounds(xs[s..i + 1], lo, hi);
  }

  // ----------------------------------------------------------------------
  // Matrices: numpy 2-D arrays of reals, row by row

  type Matrix = seq<seq<real>>

  /** Every row has the same width, as in a numpy 2-D array. */
  predicate Rectangular(m: Matrix)
  {
    forall i :: 0 <= i < |m| ==> |m[i]| == Width(m)
  }

  /** Width of a matrix (0 when it has no rows). */
  function Width(m: Matrix): nat
  {
    if m == [] then 0 else |m[0]|
  }

  /** `m[:, j]`. */
  function ColumnOf(m: Matrix, j: nat): (c: seq<real>)
    requires Rectangular(m) && j < Width(m)
    ensures |c| == |m| && forall i :: 0 <= i < |m| ==> c[i] == m[i][j]
  {
    seq(|m|, i requires 0 <= i < |m| => m[i][j])
  }
}
