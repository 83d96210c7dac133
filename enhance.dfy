/**
 * The feature enhancement script (enhance_features.py): barangay readings
 * are averaged to city level per date, temperatures reported in Kelvin are
 * converted to Celsius, daily temperatures are joined on date and yearly
 * population and night-light figures on calendar year, and every column
 * but the case count is gap-filled.
 */
module Enhance {
  import opened Wrappers
  import opened Series
  import opened Calendar
  import opened Frames
  import opened DataUtils

  const TemperatureColumns := ["t2m_mean", "t2m_min", "t2m_max"]
  const PopulationColumns := ["pop_count_total", "pop_density_mean"]
  const LightsColumns := ["avg_rad_mean"]

  /** The offset between Kelvin and Celsius. */
  const KelvinOffset: real := 273.15

  // ----------------------------------------------------------------------
  // City-level aggregation

  /** `{col: 'mean' for col in value_columns}`. */
  function MeanAggs(cols: seq<string>): (aggs: seq<(string, Reducer)>)
    ensures |aggs| == |cols|
    ensures forall k :: 0 <= k < |cols| ==> aggs[k] == (cols[k], MeanOf)
  {
    seq(|cols|, k requires 0 <= k < |cols| => (cols[k], MeanOf))
  }

  lemma {:induction false} MeanAggsReducer(cols: seq<string>, c: string)
    requires c in cols
    ensures c in AggNames(MeanAggs(cols))
    ensures ReducerFor(MeanAggs(cols), c) == MeanOf
  {
    var aggs := MeanAggs(cols);
    var k :| 0 <= k < |cols| && cols[k] == c;
    assert aggs[k].0 == c;
    if cols[0] != c {
      assert c in cols[1..] by { assert cols[1..][k - 1] == c; }
      MeanAggsReducer(cols[1..], c);
      assert MeanAggs(cols[1..]) == aggs[1..];
    }
  }

  /** aggregate_to_city_level: group the rows by date and average each value column. */
  function AggregateToCityLevel(f: Frame, cols: seq<string>): (r: Result<Frame>)
    requires WellFormed(f)
  {
    GroupByDate(f, MeanAggs(cols))
  }

  /**
   * The aggregation succeeds exactly when every value column exists, and
   * then yields one row per distinct date, in ascending order, holding
   * the mean of each value column over that date's rows.
   */
  lemma AggregateToCityLevelSpec(f: Frame, cols: seq<string>)
    requires WellFormed(f)
    ensures AggregateToCityLevel(f, cols).Ok? <==> forall c :: c in cols ==> c in f.columns
    ensures AggregateToCityLevel(f, cols).Ok? ==>
              var g := AggregateToCityLevel(f, cols).value;
              WellFormed(g) && StrictlyIncreasing(g.dates) &&
              (forall d :: d in g.dates <==> d in f.dates) &&
              (forall c :: c in g.columns <==> c in cols) &&
              forall c, k :: c in cols && 0 <= k < |g.dates| ==>
                g.columns[c][k] == SkipNaMean(GroupCells(f.dates, f.columns[c], g.dates[k]))
  {
    var aggs := MeanAggs(cols);
    assert (forall k :: 0 <= k < |aggs| ==> aggs[k].0 in f.columns) <==>
           (forall c :: c in cols ==> c in f.columns) by {
      forall c | c in cols ensures exists k :: 0 <= k < |aggs| && aggs[k].0 == c {
        var k :| 0 <= k < |cols| && cols[k] == c;
        assert aggs[k].0 == c;
      }
    }
    if AggregateToCityLevel(f, cols).Ok? {
      var g := AggregateToCityLevel(f, cols).value;
      forall c ensures c in g.columns <==> c in cols {
        if c in cols {
          MeanAggsReducer(cols, c);
        }
      }
      forall c, k | c in cols && 0 <= k < |g.dates|
        ensures g.columns[c][k] == SkipNaMean(GroupCells(f.dates, f.columns[c], g.dates[k]))
      {
        MeanAggsReducer(cols, c);
        GroupByDateCell(f, aggs, c, k);
      }
    }
  }

  // ----------------------------------------------------------------------
  // Temperatures

  /** `city_temp[col].mean() > 100`: the column looks like Kelvin. A column with no value does not. */
  predicate LooksKelvin(col: Column)
  {
    SkipNaMean(col).Some? && SkipNaMean(col).value > 100.0
  }

  /** `city_temp[col] - 273.15`: missing cells stay missing. */
  function ToCelsius(col: Column): (r: Column)
    ensures |r| == |col|
  {
    seq(|col|, i requires 0 <= i < |col| => if col[i].Some? then Some(col[i].value - KelvinOffset) else None)
  }

  function Lower(xs: seq<real>, c: real): (r: seq<real>)
    ensures |r| == |xs|
  {
    seq(|xs|, i requires 0 <= i < |xs| => xs[i] - c)
  }

  lemma {:induction false} SumLower(xs: seq<real>, c: real)
    ensures Sum(Lower(xs, c)) == Sum(xs) - (|xs| as real) * c
  {
    if xs != [] {
      var n := |xs| - 1;
      assert Lower(xs, c)[..n] == Lower(xs[..n], c);
      SumLower(xs[..n], c);
    }
  }

  lemma {:induction false} PresentToCelsius(col: Column)
    ensures Present(ToCelsius(col)) == Lower(Present(col), KelvinOffset)
  {
    if col != [] {
      var n := |col| - 1;
      assert ToCelsius(col)[..n] == ToCelsius(col[..n]);
      PresentToCelsius(col[..n]);
    }
  }

  /** Converting a column lowers its mean by exactly the offset; a column with no value stays without one. */
  lemma ToCelsiusMean(col: Column)
    ensures SkipNaMean(ToCelsius(col)).Some? <==> SkipNaMean(col).Some?
    ensures SkipNaMean(col).Some? ==> SkipNaMean(ToCelsius(col)).value == SkipNaMean(col).value - KelvinOffset
  {
    var xs := Present(col);
    var ys := Present(ToCelsius(col));
    PresentToCelsius(col);
    assert ys == Lower(xs, KelvinOffset);
    if |xs| > 0 {
      var n := |xs| as real;
      SumLower(xs, KelvinOffset);
      assert Mean(ys) == Sum(ys) / n;
      assert Sum(ys) == Sum(xs) - n * KelvinOffset;
      ShiftedQuotient(Sum(xs), n, KelvinOffset);
      assert Mean(ys) == Mean(xs) - KelvinOffset;
    }
  }

  lemma ShiftedQuotient(s: real, n: real, c: real)
    requires n > 0.0
    ensures (s - n * c) / n == s / n - c
  {
    assert (s / n - c) * n == s - n * c;
  }

  /** Each listed column that looks like Kelvin is converted; every other column is kept. */
  function Converted(city: Frame, cols: seq<string>): (r: Frame)
    ensures r.dates == city.dates && r.columns.Keys == city.columns.Keys
  {
    Frame(city.dates, map c | c in city.columns :: if c in cols then KelvinToCelsius(city.columns[c]) else city.columns[c])
  }

  /** One column of process_temperature_data's conversion: converted when its mean exceeds 100. */
  function KelvinToCelsius(col: Column): (r: Column)
    ensures LooksKelvin(col) ==> r == ToCelsius(col)
    ensures !LooksKelvin(col) ==> r == col
  {
    if LooksKelvin(col) then ToCelsius(col) else col
  }

  lemma TemperatureNamesDistinct()
    ensures NoDuplicates(TemperatureColumns)
  {
    assert TemperatureColumns[0][5] == 'e' && TemperatureColumns[1][5] == 'i' && TemperatureColumns[2][5] == 'a';
  }

  /** process_temperature_data, as a value: the columns found, and the converted city-level frame. */
  function Temperatures(temp: Option<Frame>): Option<(seq<string>, Frame)>
    requires temp.Some? ==> WellFormed(temp.value)
  {
    if temp.None? || |temp.value.dates| == 0 then None
    else
      var available := KeepPresent(TemperatureColumns, temp.value.columns.Keys);
      if available == [] then None
      else
        KeepPresentSpec(TemperatureColumns, temp.value.columns.Keys);
        AggregateToCityLevelSpec(temp.value, available);
        Some((available, Converted(AggregateToCityLevel(temp.value, available).value, available)))
  }

  /**
   * process_temperature_data: no result for a missing or empty table or
   * one without any temperature column; otherwise the available columns
   * are averaged per date and each is converted on its own when its mean
   * exceeds 100.
   */
  method ProcessTemperatureData(temp: Option<Frame>) returns (r: Option<(seq<string>, Frame)>)
    requires temp.Some? ==> WellFormed(temp.value)
    ensures r == Temperatures(temp)
  {
    if temp.None? || |temp.value.dates| == 0 {
      return None;
    }
    var available := KeepPresent(TemperatureColumns, temp.value.columns.Keys);
    if available == [] {
      return None;
    }
    KeepPresentSpec(TemperatureColumns, temp.value.columns.Keys);
    TemperatureNamesDistinct();
    AggregateToCityLevelSpec(temp.value, available);
    var city := AggregateToCityLevel(temp.value, available).value;
    var g := ConvertKelvinColumns(city, available);
    r := Some((available, g));
  }

  /** Converting one more column changes that column alone. */
  lemma ConvertedStep(city: Frame, done: seq<string>, c: string)
    requires c !in done && c in city.columns
    ensures Converted(city, done + [c]).columns == Converted(city, done).columns[c := KelvinToCelsius(city.columns[c])]
  {
    var after := Converted(city, done + [c]).columns;
    var before := Converted(city, done).columns;
    forall k | k in after && k != c
      ensures after[k] == before[k]
    {
      assert k in done + [c] <==> k in done;
    }
    assert c in done + [c];
    MapUpdateOne(before, after, c);
  }

  /** Two maps with the same keys that differ at most at key k. */
  lemma MapUpdateOne<K, V>(before: map<K, V>, after: map<K, V>, k: K)
    requires before.Keys == after.Keys && k in after
    requires forall j :: j in after && j != k ==> after[j] == before[j]
    ensures after == before[k := after[k]]
  {
  }

  lemma ConvertedNone(city: Frame)
    ensures Converted(city, []) == city
  {
  }

  /** The conversion loop of process_temperature_data: each listed column, once, on its own mean. */
  method ConvertKelvinColumns(city: Frame, available: seq<string>) returns (g: Frame)
    requires NoDuplicates(available)
    requires forall c :: c in available ==> c in city.columns
    ensures g == Converted(city, available)
  {
    ConvertedNone(city);
    var cols := city.columns;
    for k := 0 to |available|
      invariant cols == Converted(city, available[..k]).columns
    {
      var c := available[k];
      assert available[..k + 1] == available[..k] + [c];
      assert c !in available[..k];
      ConvertedStep(city, available[..k], c);
      assert cols[c] == city.columns[c];
      ghost var before := cols;
      if LooksKelvin(cols[c]) {
        cols := cols[c := ToCelsius(cols[c])];
      }
      assert cols == before[c := KelvinToCelsius(city.columns[c])];
    }
    assert available[..|available|] == available;
    g := Frame(city.dates, cols);
  }

  /**
   * There is no result exactly for a missing or empty table or one with no
   * temperature column. Otherwise the columns are the temperature columns
   * present, in the order t2m_mean, t2m_min, t2m_max, and there is one row
   * per distinct date, in ascending order.
   */
  lemma TemperaturesSpec(temp: Option<Frame>)
    requires temp.Some? ==> WellFormed(temp.value)
    ensures Temperatures(temp).None? <==>
              temp.None? || |temp.value.dates| == 0 ||
              forall k :: 0 <= k < |TemperatureColumns| ==> TemperatureColumns[k] !in temp.value.columns
    ensures Temperatures(temp).Some? ==>
              var (names, g) := Temperatures(temp).value;
              var f := temp.value;
              (forall c :: c in names <==> c in TemperatureColumns && c in f.columns) &&
              (forall i, j :: 0 <= i < j < |names| ==>
                 IndexOf(TemperatureColumns, names[i]) < IndexOf(TemperatureColumns, names[j])) &&
              StrictlyIncreasing(g.dates) && (forall d :: d in g.dates <==> d in f.dates) &&
              (forall c :: c in g.columns <==> c in names)
  {
    if temp.Some? {
      var f := temp.value;
      KeepPresentSpec(TemperatureColumns, f.columns.Keys);
      TemperatureNamesDistinct();
      var names := KeepPresent(TemperatureColumns, f.columns.Keys);
      if names == [] {
        forall k | 0 <= k < |TemperatureColumns| ensures TemperatureColumns[k] !in f.columns {
          assert TemperatureColumns[k] !in names;
        }
      } else {
        assert names[0] in TemperatureColumns && names[0] in f.columns;
      }
      AggregateToCityLevelSpec(f, names);
    }
  }

  /**
   * For a table holding temperature column c: the result is the converted
   * city-level frame; its column c is the per-date mean of c, less 273.15
   * in every present cell when the city-level mean of c exceeds 100 (a
   * conversion that brings that mean down by exactly 273.15, ToCelsiusMean),
   * and unchanged otherwise.
   */
  lemma TemperatureColumn(f: Frame, c: string, k: nat)
    requires WellFormed(f) && |f.dates| > 0
    requires c in TemperatureColumns && c in f.columns
    ensures var names := KeepPresent(TemperatureColumns, f.columns.Keys);
            AggregateToCityLevel(f, names).Ok? &&
            var city := AggregateToCityLevel(f, names).value;
            Temperatures(Some(f)) == Some((names, Converted(city, names))) &&
            c in names && c in city.columns &&
            (k < |city.dates| ==> city.columns[c][k] == SkipNaMean(GroupCells(f.dates, f.columns[c], city.dates[k]))) &&
            Converted(city, names).columns[c] ==
              if LooksKelvin(city.columns[c]) then ToCelsius(city.columns[c]) else city.columns[c]
  {
    var names := KeepPresent(TemperatureColumns, f.columns.Keys);
    KeepPresentSpec(TemperatureColumns, f.columns.Keys);
    assert c in names;
    AggregateToCityLevelSpec(f, names);
  }

  // ----------------------------------------------------------------------
  // Joins on date and on calendar year

  /** The cell the left merge on date brings to a day: that of the first right row of the day. */
  function CellOnDate(dates: seq<Day>, col: Column, d: Day): Cell
    requires |dates| == |col|
  {
    if dates == [] then None
    else if dates[0] == d then col[0]
    else CellOnDate(dates[1..], col[1..], d)
  }

  /**
   * A day no right row carries gets a missing cell; otherwise the day gets
   * the cell of the first right row dated with it.
   */
  lemma {:induction false} CellOnDateSpec(dates: seq<Day>, col: Column, d: Day)
    requires |dates| == |col|
    ensures d !in dates ==> CellOnDate(dates, col, d) == None
    ensures d in dates ==> CellOnDate(dates, col, d) == col[IndexOf(dates, d)]
  {
    if dates != [] && dates[0] != d {
      CellOnDateSpec(dates[1..], col[1..], d);
      if d in dates {
        assert d in dates[1..];
        var k := IndexOf(dates[1..], d);
        assert dates[k + 1] == d;
        assert forall j :: 0 <= j < k + 1 ==> dates[j] != d by {
          forall j | 0 <= j < k + 1 ensures dates[j] != d {
            if j > 0 {
              assert dates[j] == dates[1..][j - 1];
            }
          }
        }
        FirstIndexUnique(dates, d, k + 1);
      }
    }
  }

  /** A position holding x with no x before it is the position IndexOf finds. */
  lemma FirstIndexUnique(s: seq<Day>, x: Day, k: nat)
    requires k < |s| && s[k] == x
    requires forall j :: 0 <= j < k ==> s[j] != x
    ensures IndexOf(s, x) == k
  {
    var m := IndexOf(s, x);
    assert !(m < k) && !(k < m);
  }

  /** The calendar year of every date. */
  function Years(dates: seq<Day>): (ys: seq<int>)
    ensures |ys| == |dates|
  {
    seq(|dates|, i requires 0 <= i < |dates| => YearOf(dates[i]))
  }

  /** `groupby('year').first()`: the first present cell, from row i on, among the rows of year y. */
  function FirstInYear(years: seq<int>, col: Column, y: int, i: nat): Cell
    requires |years| == |col| && i <= |years|
    decreases |years| - i
  {
    if i == |years| then None
    else if years[i] == y && col[i].Some? then col[i]
    else FirstInYear(years, col, y, i + 1)
  }

  /** A row of year y holding the first present value of that year from row i on. */
  ghost predicate FirstOfYear(years: seq<int>, col: Column, y: int, i: nat, k: int)
    requires |years| == |col|
  {
    i <= k < |years| && years[k] == y && col[k].Some? &&
    forall j :: i <= j < k && years[j] == y ==> col[j].None?
  }

  /**
   * The result is the value of the first row of the year that has one;
   * it is missing exactly when no row of the year has a value.
   */
  lemma {:induction false} FirstInYearSpec(years: seq<int>, col: Column, y: int, i: nat)
    requires |years| == |col| && i <= |years|
    ensures FirstInYear(years, col, y, i).Some? ==>
              exists k :: FirstOfYear(years, col, y, i, k) && col[k] == FirstInYear(years, col, y, i)
    ensures FirstInYear(years, col, y, i).None? <==>
              forall k :: i <= k < |years| && years[k] == y ==> col[k].None?
    decreases |years| - i
  {
    if i < |years| {
      if years[i] == y && col[i].Some? {
        assert FirstOfYear(years, col, y, i, i);
      } else {
        FirstInYearSpec(years, col, y, i + 1);
        if FirstInYear(years, col, y, i).Some? {
          var k :| FirstOfYear(years, col, y, i + 1, k) && col[k] == FirstInYear(years, col, y, i);
          assert FirstOfYear(years, col, y, i, k);
        }
      }
    }
  }

  /** `pd.merge(merged, right, on='date', how='left')`: the base rows, with the right columns added. */
  function JoinOnDate(base: Frame, right: Frame): (r: Frame)
    requires WellFormed(right)
    ensures r.dates == base.dates && r.columns.Keys == base.columns.Keys + right.columns.Keys
  {
    Frame(base.dates, base.columns + map c | c in right.columns ::
                        seq(|base.dates|, i requires 0 <= i < |base.dates| =>
                              CellOnDate(right.dates, right.columns[c], base.dates[i])))
  }

  /**
   * The left merge on date: a column of the right table holds, on each base
   * row, the cell of the first right row of that row's date, or nothing when
   * the right table lacks the date; the other base columns are unchanged.
   */
  lemma JoinOnDateSpec(base: Frame, right: Frame, c: string, i: nat)
    requires WellFormed(right) && i < |base.dates|
    requires c in right.columns || c in base.columns
    ensures var r := JoinOnDate(base, right);
            var d := base.dates[i];
            r.dates == base.dates && c in r.columns &&
            (c in right.columns ==>
               |r.columns[c]| == |base.dates| &&
               r.columns[c][i] == if d in right.dates then right.columns[c][IndexOf(right.dates, d)] else None) &&
            (c !in right.columns ==> r.columns[c] == base.columns[c])
  {
    if c in right.columns {
      CellOnDateSpec(right.dates, right.columns[c], base.dates[i]);
    }
  }

  /**
   * The year join: a helper `year` column keys the merge with the first
   * value of each year of the right table, and is dropped afterwards.
   */
  function JoinOnYear(base: Frame, right: Frame): (r: Frame)
    requires WellFormed(right)
    ensures r.dates == base.dates
    ensures r.columns.Keys == (base.columns.Keys + right.columns.Keys) - {"year"}
  {
    Frame(base.dates, (base.columns + map c | c in right.columns ::
                         seq(|base.dates|, i requires 0 <= i < |base.dates| =>
                               FirstInYear(Years(right.dates), right.columns[c], YearOf(base.dates[i]), 0))) - {"year"})
  }

  /**
   * The year join: a right column other than `year` holds, on each base row,
   * the first value the right table has in that row's calendar year (see
   * FirstInYearSpec); the other base columns except `year` are unchanged.
   */
  lemma JoinOnYearSpec(base: Frame, right: Frame, c: string, i: nat)
    requires WellFormed(right) && i < |base.dates| && c != "year"
    requires c in right.columns || c in base.columns
    ensures var r := JoinOnYear(base, right);
            r.dates == base.dates && "year" !in r.columns && c in r.columns &&
            (c in right.columns ==>
               |r.columns[c]| == |base.dates| &&
               r.columns[c][i] == FirstInYear(Years(right.dates), right.columns[c], YearOf(base.dates[i]), 0)) &&
            (c !in right.columns ==> r.columns[c] == base.columns[c])
  {
  }

  predicate NonEmpty(t: Option<Frame>)
  {
    t.Some? && |t.value.dates| > 0
  }

  function CountNonEmpty(temp: Option<Frame>, pop: Option<Frame>, lights: Option<Frame>): nat
  {
    (if NonEmpty(temp) then 1 else 0) + (if NonEmpty(pop) then 1 else 0) + (if NonEmpty(lights) then 1 else 0)
  }

  ghost predicate Inputs(temp: Option<Frame>, pop: Option<Frame>, lights: Option<Frame>)
  {
    (temp.Some? ==> WellFormed(temp.value)) && (pop.Some? ==> WellFormed(pop.value)) &&
    (lights.Some? ==> WellFormed(lights.value))
  }

  /** The year join of one optional yearly input, aggregated to city level first. */
  function YearlyJoin(merged: Frame, t: Option<Frame>, cols: seq<string>): (r: Result<Frame>)
    requires t.Some? ==> WellFormed(t.value)
  {
    if !NonEmpty(t) then Ok(merged)
    else
      var city := AggregateToCityLevel(t.value, cols);
      if city.Err? then Err(city.error)
      else Ok(JoinOnYear(merged, city.value))
  }

  /** The date join of the optional temperature input. */
  function DateJoin(base: Frame, temp: Option<Frame>): (r: Frame)
    requires temp.Some? ==> WellFormed(temp.value)
    ensures r.dates == base.dates
  {
    if NonEmpty(temp) then JoinOnDate(base, temp.value) else base
  }

  /** merge_enhanced_features, as a value: the merged table and the number of merged inputs. */
  function Enhanced(base: Frame, temp: Option<Frame>, pop: Option<Frame>, lights: Option<Frame>): Result<(Frame, nat)>
    requires Inputs(temp, pop, lights)
  {
    var withPop := YearlyJoin(DateJoin(base, temp), pop, PopulationColumns);
    if withPop.Err? then Err(withPop.error)
    else
      var withLights := YearlyJoin(withPop.value, lights, LightsColumns);
      if withLights.Err? then Err(withLights.error)
      else Ok((withLights.value, CountNonEmpty(temp, pop, lights)))
  }

  /**
   * One yearly block of merge_enhanced_features: a non-empty input is
   * aggregated to city level and joined on the calendar year; an empty or
   * missing one leaves the table as it is.
   */
  method MergeYearly(merged: Frame, t: Option<Frame>, cols: seq<string>) returns (r: Result<Frame>)
    requires t.Some? ==> WellFormed(t.value)
    ensures r == YearlyJoin(merged, t, cols)
  {
    if !NonEmpty(t) {
      return Ok(merged);
    }
    var city := AggregateToCityLevel(t.value, cols);
    if city.Err? {
      return Err(city.error);
    }
    return Ok(JoinOnYear(merged, city.value));
  }

  /**
   * merge_enhanced_features: each non-empty input is merged in turn into
   * the base table (temperatures on date, population and night lights on
   * calendar year), counting the merges.
   */
  method MergeEnhancedFeatures(base: Frame, temp: Option<Frame>, pop: Option<Frame>, lights: Option<Frame>)
    returns (r: Result<(Frame, nat)>)
    requires Inputs(temp, pop, lights)
    ensures r == Enhanced(base, temp, pop, lights)
  {
    ghost var fromTemp, fromPop, fromLights := NonEmpty(temp), NonEmpty(pop), NonEmpty(lights);
    assert CountNonEmpty(temp, pop, lights) ==
           (if fromTemp then 1 else 0) + (if fromPop then 1 else 0) + (if fromLights then 1 else 0);
    var merged := base;
    var mergeCount: nat := 0;
    if NonEmpty(temp) {
      merged := JoinOnDate(merged, temp.value);
      mergeCount := mergeCount + 1;
    }
    assert merged == DateJoin(base, temp);
    assert mergeCount == if fromTemp then 1 else 0;
    var withPop := MergeYearly(merged, pop, PopulationColumns);
    if withPop.Err? {
      return Err(withPop.error);
    }
    if NonEmpty(pop) {
      mergeCount := mergeCount + 1;
    }
    assert mergeCount == (if fromTemp then 1 else 0) + (if fromPop then 1 else 0);
    var withLights := MergeYearly(withPop.value, lights, LightsColumns);
    if withLights.Err? {
      return Err(withLights.error);
    }
    if NonEmpty(lights) {
      mergeCount := mergeCount + 1;
    }
    assert mergeCount == CountNonEmpty(temp, pop, lights);
    assert Enhanced(base, temp, pop, lights) == Ok((withLights.value, CountNonEmpty(temp, pop, lights)));
    return Ok((withLights.value, mergeCount));
  }

  /**
   * The merge fails only on a non-empty population or night-light table
   * lacking one of its value columns. On success the rows and their dates
   * are the base table's, the count is the number of non-empty inputs, and
   * the helper `year` column is gone after a year join.
   */
  lemma EnhancedOutcome(base: Frame, temp: Option<Frame>, pop: Option<Frame>, lights: Option<Frame>)
    requires Inputs(temp, pop, lights)
    ensures Enhanced(base, temp, pop, lights).Err? <==>
              (NonEmpty(pop) && exists c :: c in PopulationColumns && c !in pop.value.columns) ||
              (NonEmpty(lights) && exists c :: c in LightsColumns && c !in lights.value.columns)
    ensures Enhanced(base, temp, pop, lights).Ok? ==>
              Enhanced(base, temp, pop, lights).value.0.dates == base.dates &&
              Enhanced(base, temp, pop, lights).value.1 == CountNonEmpty(temp, pop, lights) &&
              ((NonEmpty(pop) || NonEmpty(lights)) ==> "year" !in Enhanced(base, temp, pop, lights).value.0.columns)
  {
    if NonEmpty(pop) {
      AggregateToCityLevelSpec(pop.value, PopulationColumns);
    }
    if NonEmpty(lights) {
      AggregateToCityLevelSpec(lights.value, LightsColumns);
    }
  }

  /**
   * After a successful merge with population data, every row holds, in each
   * population column, the first value of that row's calendar year in the
   * city-level population table, or nothing when that year has none.
   */
  lemma EnhancedPopulation(base: Frame, temp: Option<Frame>, pop: Option<Frame>, lights: Option<Frame>, c: string, i: nat)
    requires Inputs(temp, pop, lights)
    requires NonEmpty(pop) && Enhanced(base, temp, pop, lights).Ok?
    requires c in PopulationColumns && i < |base.dates|
    ensures AggregateToCityLevel(pop.value, PopulationColumns).Ok?
    ensures var city := AggregateToCityLevel(pop.value, PopulationColumns).value;
            var g := Enhanced(base, temp, pop, lights).value.0;
            c in city.columns && c in g.columns && i < |g.columns[c]| &&
            g.columns[c][i] == FirstInYear(Years(city.dates), city.columns[c], YearOf(base.dates[i]), 0)
  {
    AggregateToCityLevelSpec(pop.value, PopulationColumns);
    var city := AggregateToCityLevel(pop.value, PopulationColumns).value;
    var withPop := JoinOnYear(DateJoin(base, temp), city);
    PopulationNamesDiffer(c);
    assert YearlyJoin(DateJoin(base, temp), pop, PopulationColumns) == Ok(withPop);
    assert Enhanced(base, temp, pop, lights).value.0 == YearlyJoin(withPop, lights, LightsColumns).value;
    YearlyJoinKeeps(withPop, lights, LightsColumns, c);
  }

  /**
   * After a successful merge with night-light data, every row holds the
   * first value of its calendar year in the city-level night-light table,
   * or nothing when that year has none.
   */
  lemma EnhancedLights(base: Frame, temp: Option<Frame>, pop: Option<Frame>, lights: Option<Frame>, c: string, i: nat)
    requires Inputs(temp, pop, lights)
    requires NonEmpty(lights) && Enhanced(base, temp, pop, lights).Ok?
    requires c in LightsColumns && i < |base.dates|
    ensures AggregateToCityLevel(lights.value, LightsColumns).Ok?
    ensures var city := AggregateToCityLevel(lights.value, LightsColumns).value;
            var g := Enhanced(base, temp, pop, lights).value.0;
            c in city.columns && c in g.columns && i < |g.columns[c]| &&
            g.columns[c][i] == FirstInYear(Years(city.dates), city.columns[c], YearOf(base.dates[i]), 0)
  {
    if NonEmpty(pop) {
      AggregateToCityLevelSpec(pop.value, PopulationColumns);
    }
    AggregateToCityLevelSpec(lights.value, LightsColumns);
    var withPop := YearlyJoin(DateJoin(base, temp), pop, PopulationColumns).value;
    var city := AggregateToCityLevel(lights.value, LightsColumns).value;
    assert c == "avg_rad_mean";
    assert Enhanced(base, temp, pop, lights).value.0 == JoinOnYear(withPop, city);
    JoinOnYearSpec(withPop, city, c, i);
  }

  /**
   * After a successful merge with temperature data, a temperature column
   * that no yearly input overwrites holds, on each row, the value of the
   * temperature table's first row of that date, or nothing when the
   * temperature table lacks the date.
   */
  lemma EnhancedTemperature(base: Frame, temp: Option<Frame>, pop: Option<Frame>, lights: Option<Frame>, c: string, i: nat)
    requires Inputs(temp, pop, lights)
    requires NonEmpty(temp) && Enhanced(base, temp, pop, lights).Ok?
    requires c in temp.value.columns && c != "year" && i < |base.dates|
    requires NonEmpty(pop) ==> c !in PopulationColumns
    requires NonEmpty(lights) ==> c !in LightsColumns
    ensures var g := Enhanced(base, temp, pop, lights).value.0;
            var t := temp.value;
            var d := base.dates[i];
            c in g.columns && i < |g.columns[c]| &&
            g.columns[c][i] == if d in t.dates then t.columns[c][IndexOf(t.dates, d)] else None
  {
    var joined := JoinOnDate(base, temp.value);
    JoinOnDateSpec(base, temp.value, c, i);
    var withPop := YearlyJoin(joined, pop, PopulationColumns);
    if NonEmpty(pop) {
      AggregateToCityLevelSpec(pop.value, PopulationColumns);
      YearlyJoinKeeps(joined, pop, PopulationColumns, c);
    }
    if NonEmpty(lights) {
      AggregateToCityLevelSpec(lights.value, LightsColumns);
      YearlyJoinKeeps(withPop.value, lights, LightsColumns, c);
    }
  }

  /** No population column is called `year` or shares a name with a night-light column. */
  lemma PopulationNamesDiffer(c: string)
    requires c in PopulationColumns
    ensures c != "year" && c !in LightsColumns
  {
    assert c[0] == 'p';
  }

  /** A year join leaves alone a column that its input does not provide and that is not `year`. */
  lemma YearlyJoinKeeps(merged: Frame, t: Option<Frame>, cols: seq<string>, c: string)
    requires t.Some? ==> WellFormed(t.value)
    requires YearlyJoin(merged, t, cols).Ok?
    requires c in merged.columns && c != "year" && c !in cols
    ensures c in YearlyJoin(merged, t, cols).value.columns
    ensures YearlyJoin(merged, t, cols).value.columns[c] == merged.columns[c]
  {
    if NonEmpty(t) {
      AggregateToCityLevelSpec(t.value, cols);
    }
  }

  /** A base column that no input provides and that is not called `year` comes through unchanged. */
  lemma EnhancedKeepsBase(base: Frame, temp: Option<Frame>, pop: Option<Frame>, lights: Option<Frame>, c: string)
    requires Inputs(temp, pop, lights) && Enhanced(base, temp, pop, lights).Ok?
    requires c in base.columns && c != "year"
    requires NonEmpty(temp) ==> c !in temp.value.columns
    requires NonEmpty(pop) ==> c !in PopulationColumns
    requires NonEmpty(lights) ==> c !in LightsColumns
    ensures c in Enhanced(base, temp, pop, lights).value.0.columns
    ensures Enhanced(base, temp, pop, lights).value.0.columns[c] == base.columns[c]
  {
    if NonEmpty(pop) {
      AggregateToCityLevelSpec(pop.value, PopulationColumns);
    }
    if NonEmpty(lights) {
      AggregateToCityLevelSpec(lights.value, LightsColumns);
    }
  }

  // ----------------------------------------------------------------------
  // The gap fill of the enhanced table

  /** Every column but the case count filled forward then backward. */
  function FilledExceptTarget(f: Frame): (r: Frame)
    ensures r.dates == f.dates && r.columns.Keys == f.columns.Keys
  {
    Frame(f.dates, map c | c in f.columns :: if c == Target then f.columns[c] else FillForwardBack(f.columns[c]))
  }

  /** The missing-value loop of update_disease_files_with_features, column by column. */
  method FillMissingValues(f: Frame) returns (g: Frame)
    ensures g == FilledExceptTarget(f)
  {
    var cols := f.columns;
    var todo := f.columns.Keys;
    while todo != {}
      invariant todo <= f.columns.Keys && cols.Keys == f.columns.Keys
      invariant forall c :: c in cols ==>
                  cols[c] == if c !in todo && c != Target then FillForwardBack(f.columns[c]) else f.columns[c]
      decreases |todo|
    {
      var c :| c in todo;
      if c != Target {
        cols := cols[c := FillForwardBack(cols[c])];
      }
      todo := todo - {c};
    }
    g := Frame(f.dates, cols);
  }

  /**
   * disease_cases is left as it is; in every other column a present cell is
   * kept, a missing one takes the nearest earlier present value, else the
   * nearest later one, and stays missing only in a wholly missing column.
   */
  lemma FilledExceptTargetSpec(f: Frame, c: string, i: nat)
    requires WellFormed(f) && c in f.columns && i < |f.dates|
    ensures c == Target ==> FilledExceptTarget(f).columns[c] == f.columns[c]
    ensures c != Target ==>
              var col := f.columns[c];
              var out := FilledExceptTarget(f).columns[c];
              (col[i].Some? ==> out[i] == col[i]) &&
              (forall j :: NearestEarlier(col, i, j) ==> out[i] == col[j]) &&
              ((forall j :: 0 <= j <= i ==> col[j].None?) ==>
                 forall j :: NearestLater(col, i, j) ==> out[i] == col[j]) &&
              (out[i].None? <==> forall j :: 0 <= j < |col| ==> col[j].None?)
  {
    FillForwardBackSpec(f.columns[c], i);
  }
}
