/**
 * Tables as the ETL steps see them: one date per row and named numeric
 * columns, and pandas' `groupby('date').agg(...)` over such a table.
 */
module Frames {
  import opened Wrappers
  import opened Series
  import opened Calendar

  /** A table: a date per row, and named numeric columns with one cell per row. */
  datatype Frame = Frame(dates: seq<Day>, columns: map<string, Column>)

  /** Every column has one cell per row. */
  predicate WellFormed(f: Frame)
  {
    forall c :: c in f.columns ==> |f.columns[c]| == |f.dates|
  }

  predicate StrictlyIncreasing(s: seq<int>)
  {
    forall i, j :: 0 <= i < j < |s| ==> s[i] < s[j]
  }

  predicate NoDuplicates<T(==)>(s: seq<T>)
  {
    forall i, j :: 0 <= i < j < |s| ==> s[i] != s[j]
  }

  /** Position of the first occurrence of x in s. */
  function IndexOf<T(==)>(s: seq<T>, x: T): (k: nat)
    requires x in s
    ensures k < |s| && s[k] == x
    ensures forall j :: 0 <= j < k ==> s[j] != x
  {
    if s[0] == x then 0 else 1 + IndexOf(s[1..], x)
  }

  lemma IndexOfPrefix<T>(s: seq<T>, n: nat, x: T)
    requires n <= |s| && x in s[..n]
    ensures IndexOf(s, x) == IndexOf(s[..n], x)
  {
    var k := IndexOf(s[..n], x);
    assert s[k] == x;
    forall j | 0 <= j < k ensures s[j] != x {
      assert s[..n][j] == s[j];
    }
  }

  // ----------------------------------------------------------------------
  // Sorted distinct keys, as groupby orders its groups

  function InsertSorted(r: seq<int>, d: int): (r': seq<int>)
    requires StrictlyIncreasing(r)
    ensures StrictlyIncreasing(r')
    ensures forall x :: x in r' <==> x in r || x == d
  {
    if r == [] then [d]
    else if d < r[0] then [d] + r
    else if d == r[0] then r
    else
      var rest := InsertSorted(r[1..], d);
      assert forall j :: 0 <= j < |rest| ==> r[0] < rest[j] by {
        forall j | 0 <= j < |rest| ensures r[0] < rest[j] {
          assert rest[j] in rest;
          if rest[j] != d {
            var k :| 0 <= k < |r[1..]| && r[1..][k] == rest[j];
            assert r[k + 1] == rest[j];
          }
        }
      }
      assert r == [r[0]] + r[1..];
      [r[0]] + rest
  }

  /** The distinct values of s in ascending order. */
  function SortedDistinct(s: seq<int>): (r: seq<int>)
    ensures StrictlyIncreasing(r)
    ensures forall d :: d in r <==> d in s
  {
    if s == [] then []
    else
      var r := InsertSorted(SortedDistinct(s[..|s| - 1]), s[|s| - 1]);
      assert s == s[..|s| - 1] + [s[|s| - 1]];
      r
  }

  /** Two ascending sequences of distinct values with the same elements are equal. */
  lemma {:induction false} AscendingUnique(a: seq<int>, b: seq<int>)
    requires StrictlyIncreasing(a) && StrictlyIncreasing(b)
    requires forall x :: x in a <==> x in b
    ensures a == b
    decreases |a|
  {
    if a != [] && b != [] {
      assert a[0] in a && a[0] in b;
      assert b[0] in b && b[0] in a;
      assert forall j :: 0 <= j < |a| ==> a[0] <= a[j];
      assert forall j :: 0 <= j < |b| ==> b[0] <= b[j];
      assert a[0] == b[0];
      forall x ensures x in a[1..] <==> x in b[1..] {
        if x in a[1..] {
          assert a[0] < x;
          assert x in b && x != b[0];
          var k :| 0 <= k < |b| && b[k] == x;
          assert b[1..][k - 1] == x;
        }
        if x in b[1..] {
          assert b[0] < x;
          assert x in a && x != a[0];
          var k :| 0 <= k < |a| && a[k] == x;
          assert a[1..][k - 1] == x;
        }
      }
      AscendingUnique(a[1..], b[1..]);
      assert a == [a[0]] + a[1..] && b == [b[0]] + b[1..];
    } else if a != [] {
      HasFirst(a);
    } else if b != [] {
      HasFirst(b);
    }
  }

  lemma HasFirst(s: seq<int>)
    requires s != []
    ensures s[0] in s
  {
  }

  /** Dates that are already ascending and distinct are their own group keys. */
  lemma SortedDistinctOfAscending(s: seq<int>)
    requires StrictlyIncreasing(s)
    ensures SortedDistinct(s) == s
  {
    AscendingUnique(SortedDistinct(s), s);
  }

  // ----------------------------------------------------------------------
  // groupby('date').agg(...)

  /** The cells of col in the rows dated d, in row order. */
  function GroupCells(dates: seq<Day>, col: Column, d: Day): (g: Column)
    requires |col| == |dates|
    ensures |g| <= |col|
  {
    if dates == [] then []
    else
      var n := |dates| - 1;
      GroupCells(dates[..n], col[..n], d) + (if dates[n] == d then [col[n]] else [])
  }

  /** The rows dated d, in increasing row order: the index of `df[df.date == d]`. */
  function DatedRows(dates: seq<Day>, d: Day): (rows: seq<nat>)
    ensures forall j :: 0 <= j < |rows| ==> rows[j] < |dates| && dates[rows[j]] == d
    ensures forall j, l :: 0 <= j < l < |rows| ==> rows[j] < rows[l]
    ensures forall i :: 0 <= i < |dates| && dates[i] == d ==> i in rows
  {
    if dates == [] then []
    else
      var n := |dates| - 1;
      var front := DatedRows(dates[..n], d);
      assert forall j :: 0 <= j < |front| ==> dates[..n][front[j]] == dates[front[j]];
      front + (if dates[n] == d then [n] else [])
  }

  /**
   * A date's group holds the cells of exactly the rows dated with it, in
   * row order.
   */
  lemma {:induction false} GroupCellsAtRows(dates: seq<Day>, col: Column, d: Day)
    requires |col| == |dates|
    ensures |GroupCells(dates, col, d)| == |DatedRows(dates, d)|
    ensures forall j :: 0 <= j < |DatedRows(dates, d)| ==>
              GroupCells(dates, col, d)[j] == col[DatedRows(dates, d)[j]]
  {
    if dates != [] {
      var n := |dates| - 1;
      GroupCellsAtRows(dates[..n], col[..n], d);
      var cells0, rows0 := GroupCells(dates[..n], col[..n], d), DatedRows(dates[..n], d);
      var cells, rows := GroupCells(dates, col, d), DatedRows(dates, d);
      assert cells == cells0 + (if dates[n] == d then [col[n]] else []);
      assert rows == rows0 + (if dates[n] == d then [n] else []);
      forall j | 0 <= j < |rows| ensures cells[j] == col[rows[j]] {
        if j < |rows0| {
          assert cells[j] == cells0[j] == col[..n][rows0[j]];
        }
      }
    }
  }

  /** When dates are distinct, the group of row k's date is row k alone. */
  lemma {:induction false} GroupCellsOfDistinct(dates: seq<Day>, col: Column, k: nat)
    requires |col| == |dates| && k < |dates|
    requires NoDuplicates(dates)
    ensures GroupCells(dates, col, dates[k]) == [col[k]]
    decreases |dates|
  {
    var n := |dates| - 1;
    NoneOutside(dates[..n], col[..n], dates[n], n);
    if k < n {
      GroupCellsOfDistinct(dates[..n], col[..n], k);
    } else {
      assert dates[n] !in dates[..n];
      NoneOutside(dates[..n], col[..n], dates[n], n);
    }
  }

  /** A date that no row carries has an empty group. */
  lemma {:induction false} NoneOutside(dates: seq<Day>, col: Column, d: Day, n: nat)
    requires |col| == |dates| == n
    ensures d !in dates ==> GroupCells(dates, col, d) == []
    decreases n
  {
    if n > 0 {
      NoneOutside(dates[..n - 1], col[..n - 1], d, n - 1);
    }
  }

  datatype Reducer = MeanOf | SumOf

  /** One aggregated cell: pandas' mean or sum over the group, both skipping missing cells. */
  function Reduce(how: Reducer, cells: Column): Cell
  {
    match how
    case MeanOf => SkipNaMean(cells)
    case SumOf => Some(SkipNaSum(cells))
  }

  function AggNames(aggs: seq<(string, Reducer)>): set<string>
  {
    set k | 0 <= k < |aggs| :: aggs[k].0
  }

  function ReducerFor(aggs: seq<(string, Reducer)>, c: string): Reducer
    requires c in AggNames(aggs)
  {
    if aggs[0].0 == c then aggs[0].1
    else
      assert c in AggNames(aggs[1..]) by {
        var k :| 0 <= k < |aggs| && aggs[k].0 == c;
        assert aggs[1..][k - 1].0 == c;
      }
      ReducerFor(aggs[1..], c)
  }

  /** The first aggregated column the table lacks, if any. */
  function FirstMissing(f: Frame, aggs: seq<(string, Reducer)>): (m: Option<string>)
    ensures m.None? <==> forall k :: 0 <= k < |aggs| ==> aggs[k].0 in f.columns
    ensures m.Some? ==> m.value in AggNames(aggs) && m.value !in f.columns
  {
    if aggs == [] then None
    else if aggs[0].0 !in f.columns then Some(aggs[0].0)
    else
      var m := FirstMissing(f, aggs[1..]);
      assert forall k :: 1 <= k < |aggs| ==> aggs[k] == aggs[1..][k - 1];
      assert m.Some? ==> m.value in AggNames(aggs) by {
        if m.Some? {
          var k :| 0 <= k < |aggs[1..]| && aggs[1..][k].0 == m.value;
          assert aggs[k + 1].0 == m.value;
        }
      }
      m
  }

  /**
   * `df.groupby('date').agg(aggs).reset_index()`: one row per distinct date,
   * in ascending order, each aggregated column reduced over that date's
   * rows; a column the table lacks is a KeyError.
   */
  function GroupByDate(f: Frame, aggs: seq<(string, Reducer)>): (r: Result<Frame>)
    requires WellFormed(f)
    ensures r.Ok? <==> forall k :: 0 <= k < |aggs| ==> aggs[k].0 in f.columns
    ensures r.Ok? ==>
              WellFormed(r.value) &&
              StrictlyIncreasing(r.value.dates) &&
              (forall d :: d in r.value.dates <==> d in f.dates) &&
              r.value.columns.Keys == AggNames(aggs)
  {
    match FirstMissing(f, aggs)
    case Some(c) => Err(MissingColumn(c))
    case None =>
      var keys := SortedDistinct(f.dates);
      Ok(Frame(keys, map c | c in AggNames(aggs) ::
                       seq(|keys|, k requires 0 <= k < |keys| =>
                             Reduce(ReducerFor(aggs, c), GroupCells(f.dates, f.columns[c], keys[k])))))
  }

  /**
   * Row k of an aggregated column reduces the group of row k's key, and that
   * group is non-empty and holds, in row order, the cells of exactly the
   * rows carrying the key.
   */
  lemma GroupByDateCell(f: Frame, aggs: seq<(string, Reducer)>, c: string, k: nat)
    requires WellFormed(f) && GroupByDate(f, aggs).Ok?
    requires c in AggNames(aggs) && k < |GroupByDate(f, aggs).value.dates|
    ensures var g := GroupByDate(f, aggs).value;
            var cells := GroupCells(f.dates, f.columns[c], g.dates[k]);
            var rows := DatedRows(f.dates, g.dates[k]);
            g.columns[c][k] == Reduce(ReducerFor(aggs, c), cells) &&
            rows != [] && |cells| == |rows| &&
            forall j :: 0 <= j < |rows| ==> cells[j] == f.columns[c][rows[j]]
  {
    var d := GroupByDate(f, aggs).value.dates[k];
    assert d in f.dates;
    var i :| 0 <= i < |f.dates| && f.dates[i] == d;
    assert i in DatedRows(f.dates, d);
    GroupCellsAtRows(f.dates, f.columns[c], d);
  }

  /**
   * Aggregating a table whose dates are already ascending and distinct
   * keeps every row: a mean column is unchanged, and a sum column turns a
   * missing cell into 0.
   */
  lemma GroupByDateOfDaily(f: Frame, aggs: seq<(string, Reducer)>, c: string)
    requires WellFormed(f) && StrictlyIncreasing(f.dates)
    requires GroupByDate(f, aggs).Ok? && c in AggNames(aggs)
    ensures GroupByDate(f, aggs).value.dates == f.dates
    ensures ReducerFor(aggs, c) == MeanOf ==> GroupByDate(f, aggs).value.columns[c] == f.columns[c]
    ensures ReducerFor(aggs, c) == SumOf ==>
              GroupByDate(f, aggs).value.columns[c] == Known(ZeroFill(f.columns[c]))
  {
    SortedDistinctOfAscending(f.dates);
    var g := GroupByDate(f, aggs).value;
    var col := f.columns[c];
    forall k | 0 <= k < |f.dates|
      ensures ReducerFor(aggs, c) == MeanOf ==> g.columns[c][k] == col[k]
      ensures ReducerFor(aggs, c) == SumOf ==> g.columns[c][k] == Some(col[k].GetOr(0.0))
    {
      GroupCellsOfDistinct(f.dates, col, k);
      SingletonReductions(col[k]);
    }
  }

  /** The mean of one cell is that cell; the sum of one cell is its value or 0. */
  lemma SingletonReductions(x: Cell)
    ensures SkipNaMean([x]) == x
    ensures SkipNaSum([x]) == x.GetOr(0.0)
  {
    assert [x][..0] == [];
    if x.Some? {
      assert Present([x]) == [x.value];
      assert Sum([x.value]) == Sum([x.value][..0]) + x.value;
    }
  }
}
