/**
 * The atmosphere extraction script: the downscaled climate readings are
 * read chunk by chunk, only the barangays of Iloilo City are kept, the
 * kept rows are averaged per date (precipitation summed), and the daily
 * table gains a diurnal temperature range and 7- and 30-day rolling
 * means of the average temperature.
 */
module Atmosphere {
  import opened Wrappers
  import opened Series
  import opened Calendar
  import opened Frames
  import Cchain

  /** One row of the location table: a barangay (adm4) code and its city (adm3) code. */
  datatype Location = Location(adm3: string, adm4: string)

  /** One downscaled reading: a barangay, a day and its four measurements. */
  datatype Reading = Reading(barangay: string, date: Day, tmin: Cell, tmax: Cell, tave: Cell, pr: Cell)

  /** The barangay codes of Iloilo City, in location-table order. */
  function CityBarangays(locations: seq<Location>): (r: seq<string>)
    ensures forall b :: b in r <==> exists l :: l in locations && l.adm3 == Cchain.IloiloCityCode && l.adm4 == b
  {
    if locations == [] then []
    else
      var n := |locations| - 1;
      var l := locations[n];
      assert locations == locations[..n] + [l];
      CityBarangays(locations[..n]) + (if l.adm3 == Cchain.IloiloCityCode then [l.adm4] else [])
  }

  /** `chunk[chunk['adm4_pcode'].isin(brgys)]`: the readings of the listed barangays, in row order. */
  function InCity(chunk: seq<Reading>, brgys: seq<string>): (r: seq<Reading>)
    ensures |r| <= |chunk|
    ensures forall x :: x in r <==> x in chunk && x.barangay in brgys
  {
    if chunk == [] then []
    else
      var n := |chunk| - 1;
      assert chunk == chunk[..n] + [chunk[n]];
      InCity(chunk[..n], brgys) + (if chunk[n].barangay in brgys then [chunk[n]] else [])
  }

  /** Filtering distributes over concatenation. */
  lemma {:induction false} InCityAppend(a: seq<Reading>, b: seq<Reading>, brgys: seq<string>)
    ensures InCity(a + b, brgys) == InCity(a, brgys) + InCity(b, brgys)
    decreases |b|
  {
    if b == [] {
      assert a + b == a;
    } else {
      var n := |b| - 1;
      var tail := if b[n].barangay in brgys then [b[n]] else [];
      assert (a + b)[..|a + b| - 1] == a + b[..n];
      assert InCity(a + b, brgys) == InCity(a + b[..n], brgys) + tail;
      assert InCity(b, brgys) == InCity(b[..n], brgys) + tail;
      InCityAppend(a, b[..n], brgys);
      ConcatAssoc(InCity(a, brgys), InCity(b[..n], brgys), tail);
    }
  }

  lemma ConcatAssoc<T>(x: seq<T>, y: seq<T>, z: seq<T>)
    ensures (x + y) + z == x + (y + z)
  {
  }

  /** `pd.concat(chunks, ignore_index=True)`: the rows of all chunks, chunk after chunk. */
  function ConcatChunks(chunks: seq<seq<Reading>>): (r: seq<Reading>)
  {
    if chunks == [] then [] else ConcatChunks(chunks[..|chunks| - 1]) + chunks[|chunks| - 1]
  }

  /** The filtered chunks that are not empty, in reading order: the list the loop appends to. */
  function Kept(chunks: seq<seq<Reading>>, brgys: seq<string>): (r: seq<seq<Reading>>)
    ensures forall k :: 0 <= k < |r| ==> r[k] != []
  {
    if chunks == [] then []
    else
      var n := |chunks| - 1;
      var city := InCity(chunks[n], brgys);
      Kept(chunks[..n], brgys) + (if city != [] then [city] else [])
  }

  /** The combined city readings, or the failure of concatenating an empty list. */
  function Concatenated(chunks: seq<seq<Reading>>, brgys: seq<string>): Result<seq<Reading>>
  {
    var kept := Kept(chunks, brgys);
    if kept == [] then Err(NothingToConcatenate) else Ok(ConcatChunks(kept))
  }

  /**
   * The chunk loop: each chunk is filtered to the city's barangays and kept
   * when something is left; the kept chunks are concatenated.
   */
  method CollectCityReadings(chunks: seq<seq<Reading>>, brgys: seq<string>) returns (r: Result<seq<Reading>>)
    ensures r == Concatenated(chunks, brgys)
  {
    var kept: seq<seq<Reading>> := [];
    for i := 0 to |chunks|
      invariant kept == Kept(chunks[..i], brgys)
    {
      assert chunks[..i + 1][..i] == chunks[..i];
      var cityChunk := InCity(chunks[i], brgys);
      if |cityChunk| > 0 {
        kept := kept + [cityChunk];
      }
    }
    assert chunks[..|chunks|] == chunks;
    if kept == [] {
      return Err(NothingToConcatenate);
    }
    return Ok(ConcatChunks(kept));
  }

  /** Concatenating the kept chunks is filtering the whole file; nothing is kept exactly when no row qualifies. */
  lemma {:induction false} KeptIsFilteredWhole(chunks: seq<seq<Reading>>, brgys: seq<string>)
    ensures ConcatChunks(Kept(chunks, brgys)) == InCity(ConcatChunks(chunks), brgys)
    ensures Kept(chunks, brgys) == [] <==> InCity(ConcatChunks(chunks), brgys) == []
  {
    if chunks != [] {
      var n := |chunks| - 1;
      KeptIsFilteredWhole(chunks[..n], brgys);
      InCityAppend(ConcatChunks(chunks[..n]), chunks[n], brgys);
      var city := InCity(chunks[n], brgys);
      var before := Kept(chunks[..n], brgys);
      assert ConcatChunks(chunks) == ConcatChunks(chunks[..n]) + chunks[n];
      if city != [] {
        assert Kept(chunks, brgys) == before + [city];
        assert (before + [city])[..|before|] == before;
        assert ConcatChunks(before + [city]) == ConcatChunks(before) + city;
      } else {
        assert Kept(chunks, brgys) == before;
        assert ConcatChunks(before) + city == ConcatChunks(before);
      }
    }
  }

  /**
   * Reading in chunks is invisible: the combined readings are the city's
   * rows of the whole file in file order, and the concatenation fails
   * exactly when the file holds no reading of the city.
   */
  lemma ChunkingIsInvisible(chunks: seq<seq<Reading>>, brgys: seq<string>)
    ensures var whole := InCity(ConcatChunks(chunks), brgys);
            Concatenated(chunks, brgys) == if whole == [] then Err(NothingToConcatenate) else Ok(whole)
  {
    KeptIsFilteredWhole(chunks, brgys);
  }

  // ----------------------------------------------------------------------
  // groupby('date').agg(...)

  function Dates(rows: seq<Reading>): (r: seq<Day>)
    ensures |r| == |rows| && forall k :: 0 <= k < |rows| ==> r[k] == rows[k].date
  {
    seq(|rows|, k requires 0 <= k < |rows| => rows[k].date)
  }

  /** The readings as a table with one column per measurement; the barangay code is not aggregated. */
  function ReadingsTable(rows: seq<Reading>): (f: Frame)
    ensures WellFormed(f) && f.dates == Dates(rows)
    ensures f.columns.Keys == {"tmin", "tmax", "tave", "pr"}
  {
    Frame(Dates(rows), map[
      "tmin" := seq(|rows|, k requires 0 <= k < |rows| => rows[k].tmin),
      "tmax" := seq(|rows|, k requires 0 <= k < |rows| => rows[k].tmax),
      "tave" := seq(|rows|, k requires 0 <= k < |rows| => rows[k].tave),
      "pr" := seq(|rows|, k requires 0 <= k < |rows| => rows[k].pr)])
  }

  /** Temperatures averaged across barangays, precipitation summed. */
  const AtmosphereAggs: seq<(string, Reducer)> :=
    [("tmin", MeanOf), ("tmax", MeanOf), ("tave", MeanOf), ("pr", SumOf)]

  /** The per-date aggregation, which cannot miss a column. */
  function DailyClimate(rows: seq<Reading>): (f: Frame)
    ensures WellFormed(f) && StrictlyIncreasing(f.dates)
    ensures f.columns.Keys == {"tmin", "tmax", "tave", "pr"}
  {
    var aggs := AtmosphereAggs;
    assert forall k :: 0 <= k < |aggs| ==> aggs[k].0 in ReadingsTable(rows).columns;
    assert AggNames(aggs) == {"tmin", "tmax", "tave", "pr"} by {
      assert aggs[0].0 == "tmin" && aggs[1].0 == "tmax" && aggs[2].0 == "tave" && aggs[3].0 == "pr";
    }
    GroupByDate(ReadingsTable(rows), aggs).value
  }

  /**
   * One row per distinct reading date, ascending; each temperature is the
   * NaN-skipping mean over that date's readings and the precipitation is
   * their NaN-skipping sum.
   */
  lemma DailyClimateSpec(rows: seq<Reading>, k: nat)
    requires k < |DailyClimate(rows).dates|
    ensures forall d :: d in DailyClimate(rows).dates <==> d in Dates(rows)
    ensures var f := DailyClimate(rows);
            var t := ReadingsTable(rows);
            var d := f.dates[k];
            f.columns["tmin"][k] == SkipNaMean(GroupCells(t.dates, t.columns["tmin"], d)) &&
            f.columns["tmax"][k] == SkipNaMean(GroupCells(t.dates, t.columns["tmax"], d)) &&
            f.columns["tave"][k] == SkipNaMean(GroupCells(t.dates, t.columns["tave"], d)) &&
            f.columns["pr"][k] == Some(SkipNaSum(GroupCells(t.dates, t.columns["pr"], d)))
  {
    var aggs := AtmosphereAggs;
    var t := ReadingsTable(rows);
    assert aggs[0].0 == "tmin" && aggs[1].0 == "tmax" && aggs[2].0 == "tave" && aggs[3].0 == "pr";
    assert AggNames(aggs) == {"tmin", "tmax", "tave", "pr"};
    assert ReducerFor(aggs, "tmin") == MeanOf;
    assert ReducerFor(aggs, "tmax") == MeanOf by {
      assert aggs[1..][0].0 == "tmax";
    }
    assert ReducerFor(aggs, "tave") == MeanOf by {
      assert aggs[1..][1..][0].0 == "tave";
    }
    assert ReducerFor(aggs, "pr") == SumOf by {
      assert aggs[1..][1..][1..][0].0 == "pr";
    }
    GroupByDateCell(t, aggs, "tmin", k);
    GroupByDateCell(t, aggs, "tmax", k);
    GroupByDateCell(t, aggs, "tave", k);
    GroupByDateCell(t, aggs, "pr", k);
  }

  // ----------------------------------------------------------------------
  // Derived temperature features

  /** Column subtraction; a missing operand gives a missing difference. */
  function Difference(a: Column, b: Column): (r: Column)
    requires |a| == |b|
    ensures |r| == |a|
    ensures forall i :: 0 <= i < |a| ==>
              (r[i].Some? <==> a[i].Some? && b[i].Some?) &&
              (r[i].Some? ==> r[i].value == a[i].value - b[i].value)
  {
    seq(|a|, i requires 0 <= i < |a| => if a[i].Some? && b[i].Some? then Some(a[i].value - b[i].value) else None)
  }

  /** The daily table with `temp_range`, `tave_7day` and `tave_30day` added. */
  function WithDerived(f: Frame): (g: Frame)
    requires WellFormed(f) && "tmin" in f.columns && "tmax" in f.columns && "tave" in f.columns
    ensures WellFormed(g) && g.dates == f.dates
    ensures g.columns.Keys == f.columns.Keys + {"temp_range", "tave_7day", "tave_30day"}
  {
    Frame(f.dates, f.columns["temp_range" := Difference(f.columns["tmax"], f.columns["tmin"])]
                             ["tave_7day" := RollingMean(f.columns["tave"], 7)]
                             ["tave_30day" := RollingMean(f.columns["tave"], 30)])
  }

  /** The two rolling columns WithDerived adds, read back from its table. */
  lemma DerivedRollingColumns(f: Frame)
    requires WellFormed(f) && "tmin" in f.columns && "tmax" in f.columns && "tave" in f.columns
    ensures var g := WithDerived(f);
            g.columns["tave_7day"] == RollingMean(f.columns["tave"], 7) &&
            g.columns["tave_30day"] == RollingMean(f.columns["tave"], 30)
  { }

  /** The whole script as a value: the daily city climate with its derived columns. */
  function AtmosphereFeatures(locations: seq<Location>, chunks: seq<seq<Reading>>): Result<Frame>
  {
    var rows :- Concatenated(chunks, CityBarangays(locations));
    Ok(WithDerived(DailyClimate(rows)))
  }

  /**
   * The script: the chunk loop, the per-date aggregation, then the three
   * derived columns assigned one after another.
   */
  method ExtractAtmosphereFeatures(locations: seq<Location>, chunks: seq<seq<Reading>>) returns (r: Result<Frame>)
    ensures r == AtmosphereFeatures(locations, chunks)
  {
    var brgys := CityBarangays(locations);
    var rows := CollectCityReadings(chunks, brgys);
    if rows.Err? {
      return Err(rows.error);
    }
    var daily := DailyClimate(rows.value);
    var columns := daily.columns;
    columns := columns["temp_range" := Difference(columns["tmax"], columns["tmin"])];
    columns := columns["tave_7day" := RollingMean(columns["tave"], 7)];
    columns := columns["tave_30day" := RollingMean(columns["tave"], 30)];
    return Ok(Frame(daily.dates, columns));
  }

  /** The script fails only when the file holds no reading of the city; otherwise it derives from those readings. */
  lemma AtmosphereOutcome(locations: seq<Location>, chunks: seq<seq<Reading>>)
    ensures var whole := InCity(ConcatChunks(chunks), CityBarangays(locations));
            (AtmosphereFeatures(locations, chunks).Err? <==> whole == []) &&
            (whole != [] ==> AtmosphereFeatures(locations, chunks) == Ok(WithDerived(DailyClimate(whole))))
  {
    ChunkingIsInvisible(chunks, CityBarangays(locations));
  }

  /**
   * From non-empty readings the table has one ascending row per reading
   * date, the seven columns, the diurnal range wherever both extremes are
   * known, and on its first row both rolling means equal the average
   * temperature.
   */
  lemma DerivedDailySpec(rows: seq<Reading>)
    requires rows != []
    ensures var g := WithDerived(DailyClimate(rows));
            WellFormed(g) && StrictlyIncreasing(g.dates) &&
            (forall d :: d in g.dates <==> d in Dates(rows)) &&
            g.columns.Keys == {"tmin", "tmax", "tave", "pr", "temp_range", "tave_7day", "tave_30day"} &&
            (forall i :: 0 <= i < |g.dates| ==>
               (g.columns["temp_range"][i].Some? <==> g.columns["tmax"][i].Some? && g.columns["tmin"][i].Some?) &&
               (g.columns["temp_range"][i].Some? ==>
                  g.columns["temp_range"][i].value == g.columns["tmax"][i].value - g.columns["tmin"][i].value)) &&
            |g.dates| > 0 &&
            g.columns["tave_7day"][0] == g.columns["tave"][0] &&
            g.columns["tave_30day"][0] == g.columns["tave"][0]
  {
    var f := DailyClimate(rows);
    var g := WithDerived(f);
    GroupByDateDates(rows);
    assert rows[0].date in Dates(rows);
    assert |f.dates| > 0;
    RollingMeanFirstRow(f.columns["tave"], 7);
    RollingMeanFirstRow(f.columns["tave"], 30);
    assert g.columns["tave"] == f.columns["tave"];
  }

  /** The aggregated dates are the reading dates. */
  lemma GroupByDateDates(rows: seq<Reading>)
    ensures forall d :: d in DailyClimate(rows).dates <==> d in Dates(rows)
  {
    var aggs := AtmosphereAggs;
    assert forall k :: 0 <= k < |aggs| ==> aggs[k].0 in ReadingsTable(rows).columns;
  }

  /** A column with no missing cell has all its cells present. */
  lemma {:induction false} PresentOfFull(col: Column)
    requires forall k :: 0 <= k < |col| ==> col[k].Some?
    ensures |Present(col)| == |col|
    ensures forall k :: 0 <= k < |col| ==> Present(col)[k] == col[k].value
  {
    if col != [] {
      PresentOfFull(col[..|col| - 1]);
    }
  }

  /**
   * Where the average temperature is known on every day, row i of each
   * rolling mean is the plain mean of the last min(w, i+1) daily averages.
   */
  lemma TaveWindows(f: Frame, w: nat, i: nat)
    requires WellFormed(f) && "tmin" in f.columns && "tmax" in f.columns && "tave" in f.columns
    requires w == 7 || w == 30
    requires i < |f.dates|
    requires forall k :: 0 <= k < |f.dates| ==> f.columns["tave"][k].Some?
    ensures var tave := f.columns["tave"];
            var lo := if i + 1 >= w then i + 1 - w else 0;
            |Present(tave[lo..i + 1])| == |tave[lo..i + 1]| == (if w < i + 1 then w else i + 1)
    ensures var g := WithDerived(f);
            var tave := f.columns["tave"];
            var lo := if i + 1 >= w then i + 1 - w else 0;
            var out := if w == 7 then g.columns["tave_7day"] else g.columns["tave_30day"];
            out[i] == Some(Mean(Present(tave[lo..i + 1])))
  {
    var tave := f.columns["tave"];
    var lo := WindowStart(i, w);
    var win := tave[lo..i + 1];
    assert forall k :: 0 <= k < |win| ==> win[k] == tave[lo + k];
    PresentOfFull(win);
    RollingMeanAt(tave, w, i);
    DerivedRollingColumns(f);
  }
}
