/**
 * The data processor of the forecasting app (class DataProcessor): it picks
 * the feature columns from the columns the table has, fills gaps column by
 * column, fits a min-max scaler that it keeps as state, slices the scaled
 * matrix into training windows with one-step-ahead targets, and maps
 * normalized predictions back to case counts through the fitted scaler.
 */
module DataUtils {
  import opened Wrappers
  import opened Series
  import opened Frames

  /** The target column; the schema always puts it last. */
  const Target: string := "disease_cases"

  /** A table with this column is in the original synthetic format. */
  const LegacyMarker: string := "temperature"

  const LegacyFeatures: seq<string> := ["temperature", "humidity", "rainfall", "disease_cases"]

  /** The priority-ordered list of every covariate the richer schemas may carry. */
  const MasterFeatures: seq<string> :=
    ["precipitation", "spi3", "spi6", "precip_anomaly", "precipitation_7day", "precipitation_30day",
     "pop_count_total", "pop_density_mean", "avg_rad_mean",
     "tmin", "tmax", "tave", "temp_range", "tave_7day", "tave_30day",
     "no2", "co", "so2", "o3", "pm10", "pm25", "ndvi",
     "drinking_water_count", "drinking_water_nearest",
     "water_well_count", "water_well_nearest",
     "toilet_count", "toilet_nearest",
     "waste_basket_count", "waste_basket_nearest",
     "wastewater_plant_count", "wastewater_plant_nearest",
     "osm_wetland_nearest", "osm_reservoir_nearest",
     "osm_water_nearest", "osm_riverbank_nearest",
     "osm_river_nearest", "osm_stream_nearest",
     "osm_canal_nearest", "osm_drain_nearest",
     "clinic_count", "clinic_nearest",
     "hospital_count", "hospital_nearest",
     "pharmacy_count", "pharmacy_nearest",
     "doctors_count", "doctors_nearest",
     "rwi_mean", "rwi_median", "rwi_std"]

  // ----------------------------------------------------------------------
  // Feature schema

  /** The elements of s that are columns of the table, in the order of s. */
  function KeepPresent(s: seq<string>, cols: set<string>): seq<string>
  {
    if s == [] then []
    else KeepPresent(s[..|s| - 1], cols) + (if s[|s| - 1] in cols then [s[|s| - 1]] else [])
  }

  /**
   * Filtering by presence keeps exactly the listed columns the table has,
   * introduces no duplicate, and keeps the list's order.
   */
  lemma {:induction false} KeepPresentSpec(s: seq<string>, cols: set<string>)
    ensures forall x :: x in KeepPresent(s, cols) <==> x in s && x in cols
    ensures NoDuplicates(s) ==> NoDuplicates(KeepPresent(s, cols))
    ensures NoDuplicates(s) ==>
              forall i, j :: 0 <= i < j < |KeepPresent(s, cols)| ==>
                IndexOf(s, KeepPresent(s, cols)[i]) < IndexOf(s, KeepPresent(s, cols)[j])
    decreases |s|
  {
    if s != [] {
      var n := |s| - 1;
      var init, last := s[..n], s[n];
      assert s == init + [last];
      KeepPresentSpec(init, cols);
      var r0 := KeepPresent(init, cols);
      var r := KeepPresent(s, cols);
      assert r == r0 + (if last in cols then [last] else []);
      if NoDuplicates(s) {
        assert NoDuplicates(init);
        assert last !in init;
        forall x | x in r0 ensures IndexOf(s, x) == IndexOf(init, x) && IndexOf(s, x) < n {
          IndexOfPrefix(s, n, x);
        }
        assert last in s;
        assert IndexOf(s, last) == n;
        forall i, j | 0 <= i < j < |r| ensures IndexOf(s, r[i]) < IndexOf(s, r[j]) {
          assert r[i] in r0;
          if j < |r0| {
            assert r[j] in r0 && r[i] == r0[i] && r[j] == r0[j];
          }
        }
      }
    }
  }

  /** The master list followed by the target: the order the richer schemas follow. */
  const Ranking: seq<string> := MasterFeatures + [Target]

  /**
   * The feature columns prepare_features picks from the table's column names:
   * the legacy 4-column schema when `temperature` is a column, otherwise the
   * master list filtered to the columns present with `disease_cases`
   * appended last when present.
   */
  function FeatureSchema(cols: set<string>): seq<string>
  {
    if LegacyMarker in cols then LegacyFeatures
    else KeepPresent(MasterFeatures, cols) + (if Target in cols then [Target] else [])
  }

  /**
   * Without the legacy marker, the schema holds exactly the present columns
   * that are in the master list or are the target, with the target last
   * exactly when the table has it; as long as the master list names no
   * column twice, each appears once and in master order.
   */
  lemma FeatureSchemaRich(cols: set<string>)
    requires LegacyMarker !in cols
    ensures var fs := FeatureSchema(cols);
            (forall c :: c in fs <==> c in cols && (c in MasterFeatures || c == Target)) &&
            (Target in cols <==> |fs| > 0 && fs[|fs| - 1] == Target) &&
            (NoDuplicates(Ranking) ==>
               NoDuplicates(fs) &&
               forall i, j :: 0 <= i < j < |fs| ==> IndexOf(Ranking, fs[i]) < IndexOf(Ranking, fs[j]))
  {
    var fs := FeatureSchema(cols);
    assert Ranking[..|Ranking| - 1] == MasterFeatures;
    assert fs == KeepPresent(Ranking, cols);
    KeepPresentSpec(Ranking, cols);
    if |fs| > 0 && fs[|fs| - 1] == Target {
      assert Target in fs;
    }
  }

  /**
   * The legacy marker decides alone: a table with `temperature` gets the
   * 4-column schema whatever richer covariates it also has, target at index 3.
   */
  lemma LegacyMarkerWins(cols: set<string>, extra: set<string>)
    requires LegacyMarker in cols
    ensures FeatureSchema(cols + extra) == FeatureSchema(cols) == LegacyFeatures
    ensures NoDuplicates(LegacyFeatures) && LegacyFeatures[3] == Target
  {
  }

  /** The selection loop of prepare_features, appending each present master column in turn. */
  method ResolveFeatures(cols: set<string>) returns (features: seq<string>)
    ensures features == FeatureSchema(cols)
  {
    if LegacyMarker in cols {
      return LegacyFeatures;
    }
    features := [];
    var i := 0;
    while i < |MasterFeatures|
      invariant 0 <= i <= |MasterFeatures|
      invariant features == KeepPresent(MasterFeatures[..i], cols)
    {
      assert MasterFeatures[..i + 1][..i] == MasterFeatures[..i];
      if MasterFeatures[i] in cols {
        features := features + [MasterFeatures[i]];
      }
      i := i + 1;
    }
    assert MasterFeatures[..i] == MasterFeatures;
    if Target in cols {
      features := features + [Target];
    }
  }

  // ----------------------------------------------------------------------
  // Column selection and the gap policy

  /** `df[names]`: the named columns, or a KeyError naming one the table lacks. */
  function SelectColumns(df: Frame, names: seq<string>): (r: Result<seq<Column>>)
    ensures r.Ok? <==> forall k :: 0 <= k < |names| ==> names[k] in df.columns
    ensures r.Ok? ==> |r.value| == |names| &&
                      forall k :: 0 <= k < |names| ==> r.value[k] == df.columns[names[k]]
    ensures r.Err? ==> r.error.MissingColumn? && r.error.name in names && r.error.name !in df.columns
  {
    if names == [] then Ok([])
    else if names[0] !in df.columns then Err(MissingColumn(names[0]))
    else
      match SelectColumns(df, names[1..])
      case Err(e) => Err(e)
      case Ok(rest) =>
        assert forall k :: 1 <= k < |names| ==> names[k] == names[1..][k - 1];
        Ok([df.columns[names[0]]] + rest)
  }

  /** `ffill().bfill().fillna(0)` on every selected column, then `.values`: one row per table row. */
  function DenseRows(cols: seq<Column>, n: nat): (m: Matrix)
    requires forall k :: 0 <= k < |cols| ==> |cols[k]| == n
    ensures |m| == n && Rectangular(m) && (n > 0 ==> Width(m) == |cols|)
  {
    seq(n, i requires 0 <= i < n => seq(|cols|, j requires 0 <= j < |cols| => FillGaps(cols[j])[i]))
  }

  // ----------------------------------------------------------------------
  // Min-max scaler

  /** A MinMaxScaler(feature_range=(0, 1)): unfitted, or fitted to per-column minima and maxima. */
  datatype Scaler = Unfitted | Fitted(lo: seq<real>, hi: seq<real>)

  ghost predicate ValidScaler(s: Scaler)
  {
    s.Fitted? ==> |s.lo| == |s.hi| > 0 && forall j :: 0 <= j < |s.lo| ==> s.lo[j] <= s.hi[j]
  }

  /** `fit`: every column's minimum and maximum over the rows. */
  function Fit(m: Matrix): (s: Scaler)
    requires Rectangular(m) && |m| > 0 && Width(m) > 0
    ensures s.Fitted? && |s.lo| == Width(m) && ValidScaler(s)
    ensures forall j :: 0 <= j < Width(m) ==>
              s.lo[j] in ColumnOf(m, j) && s.hi[j] in ColumnOf(m, j) &&
              forall i :: 0 <= i < |m| ==> s.lo[j] <= m[i][j] <= s.hi[j]
  {
    Fitted(seq(Width(m), j requires 0 <= j < Width(m) => Min(ColumnOf(m, j))),
           seq(Width(m), j requires 0 <= j < Width(m) => Max(ColumnOf(m, j))))
  }

  /** The data range of column j; a constant column gets range 1, so nothing divides by zero. */
  function Span(s: Scaler, j: nat): (d: real)
    requires s.Fitted? && j < |s.lo| && j < |s.hi|
    requires s.lo[j] <= s.hi[j]
    ensures d > 0.0
  {
    if s.hi[j] == s.lo[j] then 1.0 else s.hi[j] - s.lo[j]
  }

  /** The forward map of column j: (x - min) / range. */
  function ScaleValue(s: Scaler, j: nat, x: real): real
    requires ValidScaler(s) && s.Fitted? && j < |s.lo|
  {
    (x - s.lo[j]) / Span(s, j)
  }

  /** The inverse map of column j: p * range + min. */
  function UnscaleValue(s: Scaler, j: nat, p: real): real
    requires ValidScaler(s) && s.Fitted? && j < |s.lo|
  {
    p * Span(s, j) + s.lo[j]
  }

  /**
   * Every value between the fitted minimum and maximum scales into [0, 1];
   * the minimum scales to 0 and, for a column that is not constant, the
   * maximum to 1.
   */
  lemma ScaleValueBounds(s: Scaler, j: nat, x: real)
    requires ValidScaler(s) && s.Fitted? && j < |s.lo|
    requires s.lo[j] <= x <= s.hi[j]
    ensures 0.0 <= ScaleValue(s, j, x) <= 1.0
    ensures x == s.lo[j] ==> ScaleValue(s, j, x) == 0.0
    ensures x == s.hi[j] && s.lo[j] < s.hi[j] ==> ScaleValue(s, j, x) == 1.0
  {
    var d := Span(s, j);
    if s.hi[j] == s.lo[j] {
      assert x - s.lo[j] == 0.0;
    } else {
      assert 0.0 <= x - s.lo[j] <= d;
    }
  }

  /** Unscaling undoes scaling, and scaling undoes unscaling, for every column. */
  lemma ScaleRoundTrip(s: Scaler, j: nat, x: real, p: real)
    requires ValidScaler(s) && s.Fitted? && j < |s.lo|
    ensures UnscaleValue(s, j, ScaleValue(s, j, x)) == x
    ensures ScaleValue(s, j, UnscaleValue(s, j, p)) == p
  {
    var d := Span(s, j);
    assert ScaleValue(s, j, x) * d == x - s.lo[j];
  }

  /** `transform`: every cell scaled by its column's map. */
  function Transform(s: Scaler, m: Matrix): (t: Matrix)
    requires ValidScaler(s) && s.Fitted?
    requires forall i :: 0 <= i < |m| ==> |m[i]| == |s.lo|
    ensures |t| == |m| && forall i :: 0 <= i < |m| ==> |t[i]| == |s.lo|
  {
    seq(|m|, i requires 0 <= i < |m| =>
      seq(|s.lo|, j requires 0 <= j < |s.lo| => ScaleValue(s, j, m[i][j])))
  }

  /** `inverse_transform`: every cell unscaled by its column's map. */
  function InverseTransform(s: Scaler, m: Matrix): (t: Matrix)
    requires ValidScaler(s) && s.Fitted?
    requires forall i :: 0 <= i < |m| ==> |m[i]| == |s.lo|
    ensures |t| == |m| && forall i :: 0 <= i < |m| ==> |t[i]| == |s.lo|
  {
    seq(|m|, i requires 0 <= i < |m| =>
      seq(|s.lo|, j requires 0 <= j < |s.lo| => UnscaleValue(s, j, m[i][j])))
  }

  /** A row of n zeros with p in its last cell. */
  function LastColumnRow(n: nat, p: real): (row: seq<real>)
    requires n > 0
    ensures |row| == n && row[n - 1] == p
    ensures forall k :: 0 <= k < n - 1 ==> row[k] == 0.0
  {
    Zeros(n - 1) + [p]
  }

  // ----------------------------------------------------------------------
  // prepare_features as a value

  /** prepare_features: the schema's columns, gap-filled, then fitted and scaled; or the failure. */
  function Prepare(df: Frame): Result<(Scaler, Matrix)>
    requires WellFormed(df)
  {
    var names := FeatureSchema(df.columns.Keys);
    match SelectColumns(df, names)
    case Err(e) => Err(e)
    case Ok(cols) =>
      if |df.dates| == 0 then Err(NoSamples)
      else if |names| == 0 then Err(NoFeatures)
      else
        var dense := DenseRows(cols, |df.dates|);
        var s := Fit(dense);
        Ok((s, Transform(s, dense)))
  }

  /**
   * A successful prepare_features gives one row per table row and one
   * column per schema feature, every value in [0, 1].
   */
  lemma PreparedIsUnitScaled(df: Frame)
    requires WellFormed(df) && Prepare(df).Ok?
    ensures var r := Prepare(df).value;
            var w := |FeatureSchema(df.columns.Keys)|;
            ValidScaler(r.0) && r.0.Fitted? && |r.0.lo| == w && |r.1| == |df.dates| &&
            (forall i :: 0 <= i < |r.1| ==> |r.1[i]| == w) &&
            forall i, j :: 0 <= i < |r.1| && 0 <= j < w ==> 0.0 <= r.1[i][j] <= 1.0
  {
    var cols := SelectColumns(df, FeatureSchema(df.columns.Keys)).value;
    var dense := DenseRows(cols, |df.dates|);
    var r := Prepare(df).value;
    forall i, j | 0 <= i < |r.1| && 0 <= j < |r.0.lo| ensures 0.0 <= r.1[i][j] <= 1.0 {
      ScaleValueBounds(r.0, j, dense[i][j]);
    }
  }

  /**
   * Each prepared column reaches 0 (at its minimum) and, unless the column
   * is constant, reaches 1 (at its maximum).
   */
  lemma PreparedReachesBounds(df: Frame, j: nat)
    requires WellFormed(df) && Prepare(df).Ok?
    requires j < |FeatureSchema(df.columns.Keys)|
    ensures var r := Prepare(df).value;
            Rectangular(r.1) && j < Width(r.1) &&
            0.0 in ColumnOf(r.1, j) &&
            (r.0.lo[j] < r.0.hi[j] ==> 1.0 in ColumnOf(r.1, j))
  {
    var cols := SelectColumns(df, FeatureSchema(df.columns.Keys)).value;
    var dense := DenseRows(cols, |df.dates|);
    var r := Prepare(df).value;
    var lo :| 0 <= lo < |dense| && ColumnOf(dense, j)[lo] == r.0.lo[j];
    ScaleValueBounds(r.0, j, dense[lo][j]);
    assert ColumnOf(r.1, j)[lo] == 0.0;
    if r.0.lo[j] < r.0.hi[j] {
      var hi :| 0 <= hi < |dense| && ColumnOf(dense, j)[hi] == r.0.hi[j];
      ScaleValueBounds(r.0, j, dense[hi][j]);
      assert ColumnOf(r.1, j)[hi] == 1.0;
    }
  }

  /**
   * Round trip of the target: unscaling the last column of the prepared
   * matrix gives back the gap-filled `disease_cases` column.
   */
  lemma PreparedTargetRoundTrip(df: Frame, i: nat)
    requires WellFormed(df) && Prepare(df).Ok? && Target in df.columns
    requires i < |df.dates|
    ensures var (s, m) := Prepare(df).value;
            var t := |s.lo| - 1;
            ValidScaler(s) && s.Fitted? &&
            UnscaleValue(s, t, m[i][t]) == FillGaps(df.columns[Target])[i]
  {
    var names := FeatureSchema(df.columns.Keys);
    if LegacyMarker !in df.columns.Keys {
      FeatureSchemaRich(df.columns.Keys);
    }
    var cols := SelectColumns(df, names).value;
    var dense := DenseRows(cols, |df.dates|);
    var (s, m) := Prepare(df).value;
    var t := |s.lo| - 1;
    assert names[t] == Target;
    ScaleRoundTrip(s, t, dense[i][t], 0.0);
  }

  /**
   * Predictions mapped back to case counts: each is p * range + min of the
   * target (last) column alone, whatever the other columns were fitted to.
   * Fails before any fit, and on an empty batch, which sklearn rejects.
   */
  function InverseTargets(s: Scaler, predictions: seq<real>): (r: Result<seq<real>>)
    requires ValidScaler(s)
    ensures s.Unfitted? ==> r == Err(NotFitted)
    ensures s.Fitted? && predictions == [] ==> r == Err(NoSamples)
    ensures s.Fitted? && predictions != [] ==>
              r.Ok? && |r.value| == |predictions| &&
              forall i :: 0 <= i < |predictions| ==>
                r.value[i] == UnscaleValue(s, |s.lo| - 1, predictions[i]) &&
                ScaleValue(s, |s.lo| - 1, r.value[i]) == predictions[i]
  {
    if s.Unfitted? then Err(NotFitted)
    else if predictions == [] then Err(NoSamples)
    else
      var t := |s.lo| - 1;
      var out := seq(|predictions|, i requires 0 <= i < |predictions| => UnscaleValue(s, t, predictions[i]));
      assert forall i :: 0 <= i < |predictions| ==> ScaleValue(s, t, out[i]) == predictions[i] by {
        forall i | 0 <= i < |predictions| ensures ScaleValue(s, t, out[i]) == predictions[i] {
          ScaleRoundTrip(s, t, 0.0, predictions[i]);
        }
      }
      Ok(out)
  }

  // ----------------------------------------------------------------------
  // The processor object

  /** Number of training windows for n rows and window length L. */
  function WindowCount(n: nat, L: nat): nat
  {
    if n > L then n - L else 0
  }

  class DataProcessor {
    const sequenceLength: nat
    var scaler: Scaler

    ghost predicate Valid()
      reads this
    {
      ValidScaler(scaler)
    }

    /** A fresh processor: its window length is fixed here, and its scaler is not fitted. */
    constructor (sequenceLength: nat := 30)
      ensures Valid()
      ensures this.sequenceLength == sequenceLength && scaler == Unfitted
    {
      this.sequenceLength := sequenceLength;
      scaler := Unfitted;
    }

    /**
     * prepare_features: every call that reaches the fit overwrites the
     * scaler; a KeyError before the fit leaves it as it was, and a fit that
     * sklearn rejects leaves it unfitted.
     */
    method PrepareFeatures(df: Frame) returns (r: Result<Matrix>)
      requires Valid() && WellFormed(df)
      modifies this
      ensures Valid()
      ensures Prepare(df).Ok? ==> r == Ok(Prepare(df).value.1) && scaler == Prepare(df).value.0
      ensures Prepare(df).Err? ==> r == Err(Prepare(df).error)
      ensures Prepare(df).Err? && Prepare(df).error.MissingColumn? ==> scaler == old(scaler)
      ensures Prepare(df).Err? && !Prepare(df).error.MissingColumn? ==> scaler == Unfitted
    {
      var names := ResolveFeatures(df.columns.Keys);
      var selected := SelectColumns(df, names);
      if selected.Err? {
        return Err(selected.error);
      }
      if |df.dates| == 0 || |names| == 0 {
        scaler := Unfitted;
        return Err(if |df.dates| == 0 then NoSamples else NoFeatures);
      }
      var dense := DenseRows(selected.value, |df.dates|);
      scaler := Fit(dense);
      r := Ok(Transform(scaler, dense));
    }

    /**
     * create_sequences: max(0, n - L) windows in start order, window i being
     * rows i..i+L-1 and its target the last column of row i+L; consecutive
     * windows overlap in all but one row, and each target is the last row
     * of the next window.  Data too short gives no window and no error.
     */
    method CreateSequences(data: Matrix) returns (r: Result<(seq<Matrix>, seq<real>)>)
      requires Rectangular(data)
      ensures r.Err? <==> |data| > sequenceLength && Width(data) == 0
      ensures r.Err? ==> r.error == EmptyIndex
      ensures r.Ok? ==>
                var (xs, ys) := r.value;
                var L := sequenceLength;
                |xs| == |ys| == WindowCount(|data|, L) &&
                (forall i :: 0 <= i < |xs| ==>
                   xs[i] == data[i..i + L] && ys[i] == data[i + L][Width(data) - 1]) &&
                (forall i :: 0 <= i < |xs| - 1 && L > 0 ==>
                   xs[i + 1][..L - 1] == xs[i][1..] && ys[i] == xs[i + 1][L - 1][Width(data) - 1])
    {
      var L := sequenceLength;
      if |data| > L && Width(data) == 0 {
        return Err(EmptyIndex);
      }
      var count := WindowCount(|data|, L);
      var xs: seq<Matrix> := [];
      var ys: seq<real> := [];
      var i := 0;
      while i < count
        invariant 0 <= i <= count
        invariant |xs| == i && |ys| == i
        invariant forall k :: 0 <= k < i ==> xs[k] == data[k..k + L] && ys[k] == data[k + L][Width(data) - 1]
      {
        xs := xs + [data[i..i + L]];
        ys := ys + [data[i + L][Width(data) - 1]];
        i := i + 1;
      }
      forall i | 0 <= i < |xs| - 1 && L > 0
        ensures xs[i + 1][..L - 1] == xs[i][1..] && ys[i] == xs[i + 1][L - 1][Width(data) - 1]
      {
        assert xs[i + 1][..L - 1] == data[i + 1..i + L] == xs[i][1..];
      }
      r := Ok((xs, ys));
    }

    /**
     * inverse_transform_predictions: a zero matrix as wide as the fitted
     * scaler, with the predictions written into its last column, is
     * unscaled, and its last column is returned.
     */
    method InverseTransformPredictions(predictions: seq<real>) returns (r: Result<seq<real>>)
      requires Valid()
      ensures r == InverseTargets(scaler, predictions)
    {
      if scaler.Unfitted? {
        return Err(NotFitted);
      }
      if predictions == [] {
        return Err(NoSamples);
      }
      var n := |scaler.lo|;
      var dummy := seq(|predictions|, i requires 0 <= i < |predictions| => LastColumnRow(n, predictions[i]));
      var inversed := InverseTransform(scaler, dummy);
      var targets := seq(|predictions|, i requires 0 <= i < |predictions| => inversed[i][n - 1]);
      assert forall i :: 0 <= i < |predictions| ==> targets[i] == UnscaleValue(scaler, n - 1, predictions[i]);
      assert targets == InverseTargets(scaler, predictions).value;
      r := Ok(targets);
    }
  }
}
