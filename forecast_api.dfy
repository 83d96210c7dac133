/**
 * The decision logic of the dashboard's two JSON endpoints: the forecast
 * for one disease (last window, roll-out, inverse scaling, forecast dates,
 * alert level and the reported, clamped case counts) and the current
 * status of every disease (latest count and 7-day trend).
 */
module ForecastApi {
  import opened Wrappers
  import opened Series
  import opened Calendar
  import opened Frames
  import opened DataUtils
  import opened ForecastModel

  /** Days of history the model reads. */
  const SequenceLength: nat := 30
  /** Days the dashboard forecasts. */
  const ForecastDays: nat := 14
  /** Days of history returned with a forecast. */
  const HistoryDays: nat := 30
  /** Days the trend looks back over. */
  const TrendDays: nat := 7

  // ----------------------------------------------------------------------
  // Last window and forecast dates

  /**
   * `scaled[-L:]`: the last L rows, or every row when there are fewer; since
   * `-0` is `0` in Python, L = 0 also gives every row.
   */
  function LastWindow(m: Matrix, L: nat): (w: Matrix)
    ensures L > 0 ==> |w| == if L < |m| then L else |m|
    ensures L == 0 ==> w == m
    ensures w == m[|m| - |w|..]
  {
    if L == 0 || L >= |m| then m else m[|m| - L..]
  }

  lemma LastWindowRectangular(m: Matrix, L: nat)
    requires Rectangular(m) && |m| > 0
    ensures Rectangular(LastWindow(m, L)) && |LastWindow(m, L)| > 0 && Width(LastWindow(m, L)) == Width(m)
  {
    var w := LastWindow(m, L);
    assert w[0] == m[|m| - |w|];
  }

  /** The n days after `last`. */
  function ForecastDates(last: Day, n: nat): (ds: seq<Day>)
    ensures |ds| == n
    ensures n > 0 ==> ds[0] == last + 1
    ensures forall i :: 0 <= i < n - 1 ==> ds[i + 1] == ds[i] + 1
  {
    seq(n, i requires 0 <= i < n => last + i + 1)
  }

  /** Forecast dates are strictly after the last observed day and at most n days after it. */
  lemma {:induction false} ForecastDatesAfter(last: Day, n: nat, i: nat)
    requires i < n
    ensures last < ForecastDates(last, n)[i] <= last + n
  {
    var ds := ForecastDates(last, n);
    if i > 0 {
      ForecastDatesAfter(last, n, i - 1);
      assert ds[i] == ds[i - 1] + 1;
    }
  }

  // ----------------------------------------------------------------------
  // Alert level

  datatype Alert = High | Medium | Low

  function Severity(a: Alert): nat
  {
    match a
    case Low => 0
    case Medium => 1
    case High => 2
  }

  /**
   * `np.mean` of the recent history: undefined (NaN) when the history is
   * empty or holds a missing value, which then fails every comparison.
   */
  function AverageCases(hist: Column): (avg: Option<real>)
    ensures avg.Some? <==> hist != [] && None !in hist
    ensures avg.Some? ==> exists i, j :: 0 <= i < |hist| && 0 <= j < |hist| &&
                                         hist[i].value <= avg.value <= hist[j].value
  {
    if hist == [] || None in hist then None
    else
      var xs := Present(hist);
      assert hist[0] == Some(hist[0].value);
      assert hist[0].value in xs;
      MeanBounds(xs, Min(xs), Max(xs));
      assert Some(Min(xs)) in hist && Some(Max(xs)) in hist;
      Some(Mean(xs))
  }

  /** The alert chain: above twice the average is HIGH, above 1.5 times is MEDIUM, else LOW. */
  function Classify(maxPredicted: real, avg: Option<real>): Alert
  {
    if avg.Some? && maxPredicted > avg.value * 2.0 then High
    else if avg.Some? && maxPredicted > avg.value * 1.5 then Medium
    else Low
  }

  /**
   * For a non-negative average the three levels are the three intervals
   * (2a, ∞), (1.5a, 2a] and (-∞, 1.5a]; with no defined average the level
   * is LOW.
   */
  lemma ClassifyBands(m: real, avg: Option<real>)
    ensures avg.None? ==> Classify(m, avg) == Low
    ensures avg.Some? && avg.value >= 0.0 ==>
              (Classify(m, avg) == High <==> 2.0 * avg.value < m) &&
              (Classify(m, avg) == Medium <==> 1.5 * avg.value < m <= 2.0 * avg.value) &&
              (Classify(m, avg) == Low <==> m <= 1.5 * avg.value)
  {
  }

  /** A larger predicted maximum never lowers the alert, whatever the average. */
  lemma ClassifyMonotone(m1: real, m2: real, avg: Option<real>)
    requires m1 <= m2
    ensures Severity(Classify(m1, avg)) <= Severity(Classify(m2, avg))
  {
  }

  /** With a zero average, any positive predicted maximum is HIGH. */
  lemma ClassifyZeroAverage(m: real)
    requires m > 0.0
    ensures Classify(m, Some(0.0)) == High
  {
  }

  // ----------------------------------------------------------------------
  // Python's int() and the alert message

  /** Python's `int()` of a float: truncation toward zero. */
  function Trunc(x: real): (t: int)
    ensures x >= 0.0 ==> t >= 0 && t as real <= x < t as real + 1.0
    ensures x < 0.0 ==> t <= 0 && t as real - 1.0 < x <= t as real
  {
    if x >= 0.0 then x.Floor else -((-x).Floor)
  }

  /** Reported counts: each prediction clamped at 0, then truncated. */
  function ReportedCases(cases: seq<real>): (r: seq<int>)
    ensures |r| == |cases|
    ensures forall i :: 0 <= i < |cases| ==>
              r[i] >= 0 && r[i] as real <= (if cases[i] > 0.0 then cases[i] else 0.0) < r[i] as real + 1.0
  {
    seq(|cases|, i requires 0 <= i < |cases| => Trunc(if cases[i] > 0.0 then cases[i] else 0.0))
  }

  function DigitChar(d: nat): char
    requires d < 10
  {
    "0123456789"[d]
  }

  function DigitValue(c: char): nat
  {
    if '0' <= c <= '9' then (c as int - '0' as int) else 0
  }

  /** Decimal digits of n, most significant first, as `str(n)` writes them. */
  function NatToString(n: nat): (s: string)
    ensures |s| > 0
    ensures forall k :: 0 <= k < |s| ==> '0' <= s[k] <= '9'
    decreases n
  {
    if n < 10 then [DigitChar(n)] else NatToString(n / 10) + [DigitChar(n % 10)]
  }

  /** Reads a string of decimal digits back as a number. */
  function StringToNat(s: string): nat
  {
    if s == [] then 0 else 10 * StringToNat(s[..|s| - 1]) + DigitValue(s[|s| - 1])
  }

  /** The decimal rendering loses nothing: reading it back gives the number. */
  lemma {:induction false} NatStringRoundTrip(n: nat)
    ensures StringToNat(NatToString(n)) == n
    decreases n
  {
    if n >= 10 {
      NatStringRoundTrip(n / 10);
      var s := NatToString(n);
      assert s[..|s| - 1] == NatToString(n / 10);
    }
  }

  function IntToString(i: int): (s: string)
    ensures |s| > 0
    ensures i >= 0 ==> s == NatToString(i)
    ensures i < 0 ==> s == "-" + NatToString(-i)
  {
    if i < 0 then "-" + NatToString(-i) else NatToString(i)
  }

  /** The sentence that opens the alert for each risk level. */
  function AlertOpening(level: Alert): string
  {
    match level
    case High => "High outbreak risk detected! Predicted cases may reach "
    case Medium => "Moderate outbreak risk. Predicted cases may reach "
    case Low => "Low outbreak risk. Cases expected to remain around "
  }

  /** The message the dashboard shows for a level, quoting the truncated predicted maximum. */
  function AlertMessage(level: Alert, maxPredicted: real): string
  {
    AlertOpening(level) + (IntToString(Trunc(maxPredicted)) + " cases.")
  }

  lemma SuffixOfAppend<T>(p: seq<T>, t: seq<T>)
    ensures |t| <= |p + t| && (p + t)[|p + t| - |t|..] == t
  {
  }

  /** Every message ends with the quoted count followed by " cases.". */
  lemma AlertMessageQuotesCount(level: Alert, m: real)
    ensures var msg := AlertMessage(level, m);
            var tail := IntToString(Trunc(m)) + " cases.";
            |tail| <= |msg| && msg[|msg| - |tail|..] == tail
  {
    SuffixOfAppend(AlertOpening(level), IntToString(Trunc(m)) + " cases.");
  }

  // ----------------------------------------------------------------------
  // The forecast endpoint

  datatype Forecast = Forecast(
    forecastDates: seq<Day>,
    predictedCases: seq<int>,
    historicalDates: seq<Day>,
    historicalCases: Column,
    alertLevel: Alert,
    alertMessage: string)

  /**
   * get_forecast after its route checks, for a table as load_data returns
   * it and a model object with window length modelLength and width
   * nFeatures: prepare and scale, take the last window, roll out
   * ForecastDays steps, map back to case counts, and grade the maximum
   * against the mean of the last 30 recorded counts.
   */
  function ForecastResult(df: Frame, network: Option<Network>, modelLength: nat, nFeatures: nat): Result<Forecast>
    requires WellFormed(df)
  {
    var prepared :- Prepare(df);
    var scaler := prepared.0;
    var scaled := prepared.1;
    PreparedIsUnitScaled(df);
    var window := LastWindow(scaled, SequenceLength);
    LastWindowRectangular(scaled, SequenceLength);
    var predictions :- PredictFutureResult(network, window, ForecastDays, modelLength, nFeatures);
    var cases :- InverseTargets(scaler, predictions);
    if Target !in df.columns then Err(MissingColumn(Target))
    else
      var hist := Tail(df.columns[Target], HistoryDays);
      var maxPredicted := Max(cases);
      var level := Classify(maxPredicted, AverageCases(hist));
      Ok(Forecast(ForecastDates(df.dates[|df.dates| - 1], ForecastDays), ReportedCases(cases),
                  Tail(df.dates, HistoryDays), hist, level, AlertMessage(level, maxPredicted)))
  }

  /**
   * A forecast that succeeds has ForecastDays consecutive dates starting the
   * day after the last row, as many non-negative reported counts, and at
   * most 30 days of history ending at the last row.
   */
  lemma ForecastShape(df: Frame, network: Option<Network>, modelLength: nat, nFeatures: nat)
    requires WellFormed(df) && ForecastResult(df, network, modelLength, nFeatures).Ok?
    ensures var fc := ForecastResult(df, network, modelLength, nFeatures).value;
            |df.dates| > 0 &&
            |fc.forecastDates| == |fc.predictedCases| == ForecastDays &&
            fc.forecastDates[0] == df.dates[|df.dates| - 1] + 1 &&
            (forall i :: 0 <= i < ForecastDays ==> fc.predictedCases[i] >= 0) &&
            |fc.historicalDates| == |fc.historicalCases| == (if |df.dates| < HistoryDays then |df.dates| else HistoryDays) &&
            fc.historicalDates[|fc.historicalDates| - 1] == df.dates[|df.dates| - 1]
  {
  }

  /**
   * The forecast reads the network only through the last SequenceLength
   * rows: with a table of at least that many rows, the roll-out starts from
   * exactly those scaled rows.
   */
  lemma ForecastWindow(df: Frame)
    requires WellFormed(df) && Prepare(df).Ok? && |df.dates| >= SequenceLength
    ensures var scaled := Prepare(df).value.1;
            LastWindow(scaled, SequenceLength) == scaled[|scaled| - SequenceLength..] &&
            |LastWindow(scaled, SequenceLength)| == SequenceLength
  {
    PreparedIsUnitScaled(df);
  }

  /**
   * The forecast pipeline as the endpoint runs it, on the processor and
   * model objects it keeps per disease: prepare_features refits the
   * processor's scaler to this table, or leaves it as prepare_features
   * leaves it when that fails.
   */
  method GetForecast(processor: DataProcessor, model: DiseaseOutbreakModel, df: Frame) returns (r: Result<Forecast>)
    requires processor.Valid() && WellFormed(df)
    modifies processor
    ensures processor.Valid()
    ensures r == ForecastResult(df, model.model, model.sequenceLength, model.nFeatures)
    ensures Prepare(df).Ok? ==> processor.scaler == Prepare(df).value.0
    ensures Prepare(df).Err? && Prepare(df).error.MissingColumn? ==> processor.scaler == old(processor.scaler)
    ensures Prepare(df).Err? && !Prepare(df).error.MissingColumn? ==> processor.scaler == Unfitted
  {
    var scaled :- processor.PrepareFeatures(df);
    PreparedIsUnitScaled(df);
    var window := LastWindow(scaled, SequenceLength);
    LastWindowRectangular(scaled, SequenceLength);
    var predictions :- model.PredictFuture(window, ForecastDays);
    var cases :- processor.InverseTransformPredictions(predictions);
    if Target !in df.columns {
      return Err(MissingColumn(Target));
    }
    var hist := Tail(df.columns[Target], HistoryDays);
    var maxPredicted := Max(cases);
    var level := Classify(maxPredicted, AverageCases(hist));
    r := Ok(Forecast(ForecastDates(df.dates[|df.dates| - 1], ForecastDays), ReportedCases(cases),
                     Tail(df.dates, HistoryDays), hist, level, AlertMessage(level, maxPredicted)));
  }

  // ----------------------------------------------------------------------
  // Model set-up, as written and as intended

  /**
   * initialize_models as written: every disease's model object is built
   * for 4 input features, whatever the table's schema.
   */
  method InitializeModelAsWritten(trained: Network) returns (model: DiseaseOutbreakModel)
    ensures fresh(model) && model.model == Some(trained)
    ensures model.sequenceLength == SequenceLength && model.nFeatures == 4
  {
    model := new DiseaseOutbreakModel(SequenceLength, 4, "LSTM");
    var _ := model.LoadModel(trained);
  }

  /**
   * With the 4-feature model object, every table of at least 30 rows whose
   * schema is not 4 columns wide fails at the reshape: the dashboard answers
   * only errors for the richer schemas.
   */
  lemma FixedWidthRejectsRichSchemas(df: Frame, trained: Network)
    requires WellFormed(df) && Prepare(df).Ok? && |df.dates| >= SequenceLength
    requires |FeatureSchema(df.columns.Keys)| != 4
    ensures ForecastResult(df, Some(trained), SequenceLength, 4) == Err(BadReshape)
  {
    PreparedIsUnitScaled(df);
    ForecastWindow(df);
    var scaled := Prepare(df).value.1;
    var window := LastWindow(scaled, SequenceLength);
    LastWindowRectangular(scaled, SequenceLength);
    assert |window| * Width(window) != SequenceLength * 4;
    assert PredictFutureResult(Some(trained), window, ForecastDays, SequenceLength, 4) == Err(BadReshape);
  }

  /**
   * initialize_models as intended: the model object is as wide as the
   * schema the processor will pick for the disease's table.
   */
  method InitializeModel(cols: set<string>, trained: Network) returns (model: DiseaseOutbreakModel)
    ensures fresh(model) && model.model == Some(trained)
    ensures model.sequenceLength == SequenceLength && model.nFeatures == |FeatureSchema(cols)|
  {
    var features := ResolveFeatures(cols);
    model := new DiseaseOutbreakModel(SequenceLength, |features|, "LSTM");
    var _ := model.LoadModel(trained);
  }

  /**
   * With the model object as wide as the schema, and the network trained
   * for that schema (built for 30 steps of the schema's width, as the
   * training script builds it), a table of at least 30 rows that has the
   * target column gets a full 14-day forecast.
   */
  lemma SchemaWidthServesForecast(df: Frame, trained: Network)
    requires WellFormed(df) && Prepare(df).Ok?
    requires |df.dates| >= SequenceLength && Target in df.columns
    requires trained.steps == SequenceLength && trained.width == |FeatureSchema(df.columns.Keys)|
    ensures ForecastResult(df, Some(trained), SequenceLength, |FeatureSchema(df.columns.Keys)|).Ok?
    ensures |ForecastResult(df, Some(trained), SequenceLength, |FeatureSchema(df.columns.Keys)|).value.predictedCases|
            == ForecastDays
  {
    PreparedIsUnitScaled(df);
    var prepared := Prepare(df).value;
    var scaled := prepared.1;
    var w := |FeatureSchema(df.columns.Keys)|;
    ForecastWindow(df);
    var window := LastWindow(scaled, SequenceLength);
    LastWindowRectangular(scaled, SequenceLength);
    assert |window| == SequenceLength && Width(window) == w;
    assert Reshapes(window, SequenceLength, w);
    var predictions := PredictFutureResult(Some(trained), window, ForecastDays, SequenceLength, w);
    assert predictions.Ok? && |predictions.value| == ForecastDays;
    var cases := InverseTargets(prepared.0, predictions.value);
    assert cases.Ok? && |cases.value| == ForecastDays;
  }

  // ----------------------------------------------------------------------
  // The status endpoint

  datatype Trend = Increasing | Decreasing

  /**
   * The trend over the last (up to) 7 counts: increasing exactly when the
   * newest count is recorded and exceeds the oldest one, which must be
   * recorded too; equal or missing counts give decreasing.  An empty
   * history is an IndexError.
   */
  function TrendOf(cases: Column): (r: Result<Trend>)
    ensures r.Err? <==> cases == []
    ensures r.Err? ==> r.error == EmptyIndex
    ensures r.Ok? ==>
              var first := cases[if |cases| < TrendDays then 0 else |cases| - TrendDays];
              var last := cases[|cases| - 1];
              (r.value == Increasing <==> first.Some? && last.Some? && last.value > first.value)
  {
    var recent := Tail(cases, TrendDays);
    if recent == [] then Err(EmptyIndex)
    else
      var first := recent[0];
      var last := recent[|recent| - 1];
      TailEnds(cases, TrendDays);
      if first.Some? && last.Some? && last.value > first.value then Ok(Increasing) else Ok(Decreasing)
  }

  /** The first and last of the newest n entries, read off the whole column. */
  lemma TailEnds<T>(s: seq<T>, n: nat)
    requires s != [] && n > 0
    ensures Tail(s, n) != []
    ensures Tail(s, n)[0] == s[if |s| < n then 0 else |s| - n]
    ensures Tail(s, n)[|Tail(s, n)| - 1] == s[|s| - 1]
  {
  }

  /** With a single count, or seven equal ones, the trend is decreasing. */
  lemma TrendOfFlat(x: real, n: nat)
    requires 1 <= n
    ensures TrendOf(seq(n, _ => Some(x))) == Ok(Decreasing)
  {
  }

  datatype Status = Status(disease: string, currentCases: int, date: Day, trend: Trend)

  /** What get_current_status has for one disease: no model, no file, or the table read from it. */
  datatype StatusSource = StatusSource(disease: string, modelLoaded: bool, table: Option<Frame>)

  /**
   * One disease's entry, or the failure that makes the endpoint skip it:
   * the latest count must exist and be recorded (`int()` of NaN raises).
   */
  function StatusResult(disease: string, df: Frame): (r: Result<Status>)
    requires WellFormed(df)
    ensures r.Ok? <==> Target in df.columns && |df.dates| > 0 && df.columns[Target][|df.dates| - 1].Some?
    ensures r.Ok? ==> r.value.date == df.dates[|df.dates| - 1] && r.value.disease == disease &&
                      r.value.currentCases == Trunc(df.columns[Target][|df.dates| - 1].value)
    ensures r.Ok? ==> TrendOf(df.columns[Target]).Ok? && r.value.trend == TrendOf(df.columns[Target]).value
  {
    if Target !in df.columns then Err(MissingColumn(Target))
    else
      var cases := df.columns[Target];
      if cases == [] then Err(EmptyIndex)
      else if cases[|cases| - 1].None? then Err(MissingToInt)
      else
        var trend := TrendOf(cases).value;
        Ok(Status(disease, Trunc(cases[|cases| - 1].value), df.dates[|df.dates| - 1], trend))
  }

  function StatusOf(src: StatusSource): Option<Status>
  {
    if !src.modelLoaded || src.table.None? || !WellFormed(src.table.value) then None
    else
      match StatusResult(src.disease, src.table.value)
      case Ok(s) => Some(s)
      case Err(_) => None
  }

  /** The entries of every disease that yields one, in the order of the diseases. */
  function CollectStatus(sources: seq<StatusSource>): (entries: seq<Status>)
    ensures |entries| <= |sources|
  {
    if sources == [] then []
    else
      var init := sources[..|sources| - 1];
      CollectStatus(init) +
      (match StatusOf(sources[|sources| - 1]) case Some(s) => [s] case None => [])
  }

  /**
   * Every entry comes from a disease whose model is loaded and whose table
   * was read, and names that disease; diseases without a model never appear.
   */
  lemma {:induction false} CollectStatusSound(sources: seq<StatusSource>)
    ensures forall e :: e in CollectStatus(sources) ==>
              exists k :: 0 <= k < |sources| && sources[k].modelLoaded && sources[k].table.Some? &&
                          sources[k].disease == e.disease
  {
    if sources != [] {
      var n := |sources| - 1;
      var init := sources[..n];
      CollectStatusSound(init);
      forall e | e in CollectStatus(sources)
        ensures exists k :: 0 <= k < |sources| && sources[k].modelLoaded && sources[k].table.Some? &&
                            sources[k].disease == e.disease
      {
        if e in CollectStatus(init) {
          var k :| 0 <= k < |init| && init[k].modelLoaded && init[k].table.Some? && init[k].disease == e.disease;
          assert sources[k] == init[k];
        } else {
          assert StatusOf(sources[n]) == Some(e);
          assert sources[n].modelLoaded && sources[n].table.Some?;
        }
      }
    }
  }

  /** get_current_status: each disease in turn, skipping those that yield no entry. */
  method GetCurrentStatus(sources: seq<StatusSource>) returns (entries: seq<Status>)
    ensures entries == CollectStatus(sources)
  {
    entries := [];
    var i := 0;
    while i < |sources|
      invariant 0 <= i <= |sources|
      invariant entries == CollectStatus(sources[..i])
    {
      assert sources[..i + 1][..i] == sources[..i];
      var src := sources[i];
      if src.modelLoaded && src.table.Some? && WellFormed(src.table.value) {
        var result := StatusResult(src.disease, src.table.value);
        if result.Ok? {
          entries := entries + [result.value];
        }
      }
      i := i + 1;
    }
    assert sources[..i] == sources;
  }
}
