/**
 * The Project CCHAIN preparation script (prepare_cchain_data.py): PIDSR
 * weekly case totals of Iloilo City are mapped to the three tracked
 * diseases, spread to one row per disease and calendar day, joined with the
 * monthly climate indices, extended with rolling precipitation means and
 * lagged case counts, and split into one eight-column file per disease.
 */
module Cchain {
  import opened Wrappers
  import opened Series
  import opened Calendar
  import opened Frames
  import opened Groups

  /** adm3_pcode of Iloilo City. */
  const IloiloCityCode := "PH063022000"

  // ----------------------------------------------------------------------
  // ICD-10 code mapping and the PIDSR filter

  /** DISEASE_MAPPING: the tracked ICD-10 codes and the disease each stands for. */
  function DiseaseOf(code: string): (r: Option<string>)
    ensures r.Some? <==> code == "A90-A91" || code == "A01" || code == "A00"
    ensures r.Some? ==> r.value in TrackedDiseases
  {
    if code == "A90-A91" then Some("dengue")
    else if code == "A01" then Some("typhoid")
    else if code == "A00" then Some("cholera")
    else None
  }

  const TrackedDiseases: set<string> := {"dengue", "typhoid", "cholera"}

  /** The mapping is one-to-one: two tracked codes never name the same disease. */
  lemma DiseaseOfInjective(a: string, b: string)
    requires DiseaseOf(a).Some? && DiseaseOf(a) == DiseaseOf(b)
    ensures a == b
  {
    assert "dengue" != "typhoid" && "dengue" != "cholera";
    assert "typhoid"[0] != "cholera"[0];
  }

  /** A row of disease_pidsr_totals.csv. */
  datatype PidsrRow = PidsrRow(pcode: string, icd10: string, date: Day, caseTotal: Cell)

  /** A weekly report of one tracked disease in Iloilo City. */
  datatype Report = Report(disease: string, date: Day, caseTotal: Cell)

  /** load_disease_data: keep Iloilo City rows with a tracked code, and name the disease. */
  function LoadDiseaseReports(rows: seq<PidsrRow>): (rs: seq<Report>)
    ensures |rs| <= |rows|
    ensures forall k :: 0 <= k < |rs| ==> rs[k].disease in TrackedDiseases
  {
    if rows == [] then []
    else
      var n := |rows| - 1;
      var row := rows[n];
      LoadDiseaseReports(rows[..n]) +
        (if row.pcode == IloiloCityCode && DiseaseOf(row.icd10).Some?
         then [Report(DiseaseOf(row.icd10).value, row.date, row.caseTotal)]
         else [])
  }

  /** The row is an Iloilo City row with a tracked code, and r is the report it becomes. */
  predicate Yields(row: PidsrRow, r: Report)
  {
    row.pcode == IloiloCityCode && DiseaseOf(row.icd10) == Some(r.disease) &&
    row.date == r.date && row.caseTotal == r.caseTotal
  }

  /** A report is loaded exactly when some Iloilo City row with its code, date and count exists. */
  lemma {:induction false} LoadDiseaseReportsSpec(rows: seq<PidsrRow>, r: Report)
    ensures r in LoadDiseaseReports(rows) <==> exists k :: 0 <= k < |rows| && Yields(rows[k], r)
  {
    if rows != [] {
      var n := |rows| - 1;
      var front := rows[..n];
      LoadDiseaseReportsSpec(front, r);
      LastRowLoads(rows, r);
      YieldingRowSplit(rows, front, r);
    }
  }

  /** A row of the table yielding r is a row of all but the last, or the last row. */
  lemma YieldingRowSplit(rows: seq<PidsrRow>, front: seq<PidsrRow>, r: Report)
    requires rows != [] && front == rows[..|rows| - 1]
    ensures (exists k :: 0 <= k < |rows| && Yields(rows[k], r)) <==>
            (exists k :: 0 <= k < |front| && Yields(front[k], r)) || Yields(rows[|rows| - 1], r)
  {
    var n := |rows| - 1;
    if exists k :: 0 <= k < |rows| && Yields(rows[k], r) {
      var k :| 0 <= k < |rows| && Yields(rows[k], r);
      if k < n {
        assert Yields(front[k], r);
      }
    }
    if exists k :: 0 <= k < n && Yields(front[k], r) {
      var k :| 0 <= k < n && Yields(front[k], r);
      assert Yields(rows[k], r);
    }
  }

  /** The last row adds r exactly when it yields r. */
  lemma LastRowLoads(rows: seq<PidsrRow>, r: Report)
    requires rows != []
    ensures r in LoadDiseaseReports(rows) <==>
            r in LoadDiseaseReports(rows[..|rows| - 1]) || Yields(rows[|rows| - 1], r)
  {
    var row := rows[|rows| - 1];
    if row.pcode == IloiloCityCode && DiseaseOf(row.icd10).Some? {
      var made := Report(DiseaseOf(row.icd10).value, row.date, row.caseTotal);
      assert LoadDiseaseReports(rows) == LoadDiseaseReports(rows[..|rows| - 1]) + [made];
      assert Yields(row, r) <==> r == made;
    } else {
      assert LoadDiseaseReports(rows) == LoadDiseaseReports(rows[..|rows| - 1]);
      assert !Yields(row, r);
    }
  }

  // ----------------------------------------------------------------------
  // Weekly reports to daily rows

  function DiseasesOf(rs: seq<Report>): (ds: seq<string>)
    ensures |ds| == |rs| && forall k :: 0 <= k < |rs| ==> ds[k] == rs[k].disease
  {
    seq(|rs|, k requires 0 <= k < |rs| => rs[k].disease)
  }

  /** The earliest report date: the start of the daily range. */
  function FirstDay(rs: seq<Report>): (d: Day)
    requires |rs| > 0
    ensures forall k :: 0 <= k < |rs| ==> d <= rs[k].date
    ensures exists k :: 0 <= k < |rs| && rs[k].date == d
  {
    if |rs| == 1 then rs[0].date
    else
      var d := FirstDay(rs[..|rs| - 1]);
      assert forall k :: 0 <= k < |rs| - 1 ==> rs[..|rs| - 1][k] == rs[k];
      if rs[|rs| - 1].date < d then rs[|rs| - 1].date else d
  }

  /** The latest report date: the end of the daily range. */
  function LastDay(rs: seq<Report>): (d: Day)
    requires |rs| > 0
    ensures forall k :: 0 <= k < |rs| ==> rs[k].date <= d
    ensures exists k :: 0 <= k < |rs| && rs[k].date == d
  {
    if |rs| == 1 then rs[0].date
    else
      var d := LastDay(rs[..|rs| - 1]);
      assert forall k :: 0 <= k < |rs| - 1 ==> rs[..|rs| - 1][k] == rs[k];
      if rs[|rs| - 1].date > d then rs[|rs| - 1].date else d
  }

  /** The length of `pd.date_range(min_date, max_date, freq='D')`: both ends included. */
  function DayCount(rs: seq<Report>): nat
    requires |rs| > 0
  {
    assert FirstDay(rs) <= rs[0].date <= LastDay(rs);
    LastDay(rs) - FirstDay(rs) + 1
  }


  /**
   * The case count the left merge on date puts on one day for one disease:
   * that of the disease's report of that day, missing when there is none.
   */
  function ReportCell(rs: seq<Report>, d: string, day: Day): Cell
  {
    if rs == [] then None
    else if rs[0].disease == d && rs[0].date == day then rs[0].caseTotal
    else ReportCell(rs[1..], d, day)
  }

  /** The merged cell is a report's count; with no report of that day it is missing. */
  lemma {:induction false} ReportCellSpec(rs: seq<Report>, d: string, day: Day)
    ensures ReportCell(rs, d, day).Some? ==>
              exists k :: 0 <= k < |rs| && rs[k].disease == d && rs[k].date == day &&
                          rs[k].caseTotal == ReportCell(rs, d, day)
    ensures (forall k :: 0 <= k < |rs| ==> rs[k].disease != d || rs[k].date != day) ==>
              ReportCell(rs, d, day).None?
  {
    if rs != [] && !(rs[0].disease == d && rs[0].date == day) {
      ReportCellSpec(rs[1..], d, day);
      if ReportCell(rs, d, day).Some? {
        var k :| 0 <= k < |rs[1..]| && rs[1..][k].disease == d && rs[1..][k].date == day &&
                 rs[1..][k].caseTotal == ReportCell(rs, d, day);
        assert rs[k + 1] == rs[1..][k];
      }
    }
  }

  /** The counts of one disease on the n days from lo, before any fill. */
  function ReportSeries(rs: seq<Report>, d: string, lo: Day, n: nat): (c: Column)
    ensures |c| == n
  {
    seq(n, t requires 0 <= t < n => ReportCell(rs, d, lo + t))
  }

  /** `ffill()` then `fillna(0)` of the merged counts. */
  function DailyCases(rs: seq<Report>, d: string, lo: Day, n: nat): (c: seq<real>)
    ensures |c| == n
  {
    ZeroFill(FFill(ReportSeries(rs, d, lo, n)))
  }

  /**
   * Each day carries the most recent report of the disease on or before it;
   * days before the disease's first report carry 0.
   */
  lemma DailyCasesSpec(rs: seq<Report>, d: string, lo: Day, n: nat, t: nat)
    requires t < n
    ensures var s := ReportSeries(rs, d, lo, n);
            (forall u :: NearestEarlier(s, t, u) ==> DailyCases(rs, d, lo, n)[t] == s[u].value) &&
            ((forall u :: 0 <= u <= t ==> s[u].None?) ==> DailyCases(rs, d, lo, n)[t] == 0.0)
  {
    var s := ReportSeries(rs, d, lo, n);
    LastPresentIsNearestEarlier(s, t);
  }

  /** The daily table: disease, date and case count columns of equal length. */
  datatype DailyTable = DailyTable(disease: seq<string>, date: seq<Day>, caseTotal: seq<real>)

  predicate DailyAligned(t: DailyTable)
  {
    |t.disease| == |t.date| == |t.caseTotal|
  }

  /** One disease's daily frame: n consecutive days from lo. */
  function DailyBlock(rs: seq<Report>, d: string, lo: Day, n: nat): (b: DailyTable)
    ensures DailyAligned(b) && |b.date| == n
  {
    DailyTable(seq(n, _ => d), seq(n, t => lo + t), DailyCases(rs, d, lo, n))
  }

  function Concat(a: DailyTable, b: DailyTable): DailyTable
  {
    DailyTable(a.disease + b.disease, a.date + b.date, a.caseTotal + b.caseTotal)
  }

  /** The per-disease frames of the given diseases, concatenated in that order. */
  function Blocks(rs: seq<Report>, names: seq<string>, lo: Day, n: nat): (t: DailyTable)
    ensures DailyAligned(t)
  {
    if names == [] then DailyTable([], [], [])
    else
      var m := |names| - 1;
      Concat(Blocks(rs, names[..m], lo, n), DailyBlock(rs, names[m], lo, n))
  }

  /** One row per listed disease and day. */
  lemma {:induction false} BlocksLength(rs: seq<Report>, names: seq<string>, lo: Day, n: nat)
    ensures |Blocks(rs, names, lo, n).date| == |names| * n
  {
    if names != [] {
      var m := |names| - 1;
      BlocksLength(rs, names[..m], lo, n);
      assert |Blocks(rs, names, lo, n).date| == m * n + n;
    }
  }

  /** resample_weekly_to_daily, as a value. */
  function Resampled(rs: seq<Report>): (r: Result<DailyTable>)
  {
    if rs == [] then Err(EmptyDateRange)
    else
      Ok(Blocks(rs, Unique(DiseasesOf(rs)), FirstDay(rs), DayCount(rs)))
  }

  /**
   * resample_weekly_to_daily: one daily frame per disease, in order of first
   * appearance, over the whole reported date range, concatenated.
   */
  method ResampleWeeklyToDaily(rs: seq<Report>) returns (r: Result<DailyTable>)
    ensures r == Resampled(rs)
  {
    if rs == [] {
      return Err(EmptyDateRange);
    }
    var daily := ConcatBlocks(rs, Unique(DiseasesOf(rs)), FirstDay(rs), DayCount(rs));
    return Ok(daily);
  }

  /** The loop of resample_weekly_to_daily: each disease's daily frame appended in turn. */
  method ConcatBlocks(rs: seq<Report>, names: seq<string>, lo: Day, n: nat) returns (daily: DailyTable)
    ensures daily == Blocks(rs, names, lo, n)
  {
    daily := DailyTable([], [], []);
    for k := 0 to |names|
      invariant daily == Blocks(rs, names[..k], lo, n)
    {
      assert names[..k + 1][..k] == names[..k];
      assert Blocks(rs, names[..k + 1], lo, n) == Concat(Blocks(rs, names[..k], lo, n), DailyBlock(rs, names[k], lo, n));
      daily := Concat(daily, DailyBlock(rs, names[k], lo, n));
    }
    assert names[..|names|] == names;
  }

  /** Within one disease, dates increase along the rows. */
  predicate GroupDatesAscending(keys: seq<string>, dates: seq<Day>)
    requires |keys| == |dates|
  {
    forall i, j :: 0 <= i < j < |keys| && keys[i] == keys[j] ==> dates[i] < dates[j]
  }

  /**
   * Row i belongs to a listed disease and to a day of the n days from lo,
   * and carries that disease's filled count for that day.
   */
  ghost predicate RowPlaced(rs: seq<Report>, t: DailyTable, names: seq<string>, lo: Day, n: nat, i: nat)
    requires DailyAligned(t) && i < |t.date|
  {
    t.disease[i] in names && lo <= t.date[i] < lo + n &&
    t.caseTotal[i] == DailyCases(rs, t.disease[i], lo, n)[t.date[i] - lo]
  }

  /** Every row is placed. */
  ghost predicate RowsPlaced(rs: seq<Report>, t: DailyTable, names: seq<string>, lo: Day, n: nat)
    requires DailyAligned(t)
  {
    forall i :: 0 <= i < |t.date| ==> RowPlaced(rs, t, names, lo, n, i)
  }

  /** A row of the concatenation comes from the front frames or from the last disease's block. */
  lemma BlocksRow(rs: seq<Report>, names: seq<string>, lo: Day, n: nat, i: nat)
    requires names != [] && i < |Blocks(rs, names, lo, n).date|
    ensures var m := |names| - 1;
            var front := Blocks(rs, names[..m], lo, n);
            var t := Blocks(rs, names, lo, n);
            if i < |front.date| then
              t.disease[i] == front.disease[i] && t.date[i] == front.date[i] && t.caseTotal[i] == front.caseTotal[i]
            else
              t.disease[i] == names[m] && t.date[i] == lo + (i - |front.date|) &&
              t.caseTotal[i] == DailyCases(rs, names[m], lo, n)[i - |front.date|]
  {
    var m := |names| - 1;
    var front := Blocks(rs, names[..m], lo, n);
    var block := DailyBlock(rs, names[m], lo, n);
    assert Blocks(rs, names, lo, n) == Concat(front, block);
  }

  /** Row i of the concatenation is placed when the front frames' rows are. */
  lemma BlocksRowPlaced(rs: seq<Report>, names: seq<string>, lo: Day, n: nat, i: nat)
    requires names != [] && i < |Blocks(rs, names, lo, n).date|
    requires RowsPlaced(rs, Blocks(rs, names[..|names| - 1], lo, n), names[..|names| - 1], lo, n)
    ensures RowPlaced(rs, Blocks(rs, names, lo, n), names, lo, n, i)
  {
    if i < |Blocks(rs, names[..|names| - 1], lo, n).date| {
      FrontRowPlaced(rs, names, lo, n, i);
    } else {
      LastBlockRowPlaced(rs, names, lo, n, i);
    }
  }

  lemma FrontRowPlaced(rs: seq<Report>, names: seq<string>, lo: Day, n: nat, i: nat)
    requires names != [] && i < |Blocks(rs, names[..|names| - 1], lo, n).date|
    requires RowsPlaced(rs, Blocks(rs, names[..|names| - 1], lo, n), names[..|names| - 1], lo, n)
    ensures i < |Blocks(rs, names, lo, n).date|
    ensures RowPlaced(rs, Blocks(rs, names, lo, n), names, lo, n, i)
  {
    var m := |names| - 1;
    var front := Blocks(rs, names[..m], lo, n);
    var t := Blocks(rs, names, lo, n);
    assert t == Concat(front, DailyBlock(rs, names[m], lo, n));
    BlocksRow(rs, names, lo, n, i);
    assert RowPlaced(rs, front, names[..m], lo, n, i);
    assert t.disease[i] == front.disease[i] && t.date[i] == front.date[i];
    assert front.disease[i] in names;
  }

  lemma LastBlockRowPlaced(rs: seq<Report>, names: seq<string>, lo: Day, n: nat, i: nat)
    requires names != [] && |Blocks(rs, names[..|names| - 1], lo, n).date| <= i < |Blocks(rs, names, lo, n).date|
    ensures RowPlaced(rs, Blocks(rs, names, lo, n), names, lo, n, i)
  {
    var m := |names| - 1;
    var front := Blocks(rs, names[..m], lo, n);
    var t := Blocks(rs, names, lo, n);
    var x := i - |front.date|;
    assert |t.date| == |front.date| + n by {
      assert t == Concat(front, DailyBlock(rs, names[m], lo, n));
    }
    BlocksRow(rs, names, lo, n, i);
    assert t.date[i] - lo == x < n;
    assert t.disease[i] == names[m] && names[m] in names;
  }


  /** The concatenated frames place every row. */
  lemma {:induction false} BlocksPlaced(rs: seq<Report>, names: seq<string>, lo: Day, n: nat)
    ensures RowsPlaced(rs, Blocks(rs, names, lo, n), names, lo, n)
  {
    if names != [] {
      var t := Blocks(rs, names, lo, n);
      BlocksPlaced(rs, names[..|names| - 1], lo, n);
      forall i | 0 <= i < |t.date| ensures RowPlaced(rs, t, names, lo, n, i) {
        BlocksRowPlaced(rs, names, lo, n, i);
      }
    }
  }

  /** Every row of the concatenation belongs to a listed disease. */
  lemma {:induction false} BlocksDiseases(rs: seq<Report>, names: seq<string>, lo: Day, n: nat, i: nat)
    requires i < |Blocks(rs, names, lo, n).date|
    ensures Blocks(rs, names, lo, n).disease[i] in names
  {
    var m := |names| - 1;
    BlocksRow(rs, names, lo, n, i);
    if i < |Blocks(rs, names[..m], lo, n).date| {
      BlocksDiseases(rs, names[..m], lo, n, i);
      assert Blocks(rs, names[..m], lo, n).disease[i] in names[..m];
    }
  }

  /** With distinct diseases, each disease's days increase along the concatenated frames. */
  lemma {:induction false} BlocksAscending(rs: seq<Report>, names: seq<string>, lo: Day, n: nat)
    requires NoDuplicates(names)
    ensures GroupDatesAscending(Blocks(rs, names, lo, n).disease, Blocks(rs, names, lo, n).date)
  {
    if names != [] {
      var m := |names| - 1;
      var front := Blocks(rs, names[..m], lo, n);
      var t := Blocks(rs, names, lo, n);
      var f := |front.date|;
      assert NoDuplicates(names[..m]);
      BlocksAscending(rs, names[..m], lo, n);
      forall i, j | 0 <= i < j < |t.disease| && t.disease[i] == t.disease[j]
        ensures t.date[i] < t.date[j]
      {
        BlocksRow(rs, names, lo, n, i);
        BlocksRow(rs, names, lo, n, j);
        if j < f {
          assert front.disease[i] == front.disease[j];
        } else if i < f {
          BlocksDiseases(rs, names[..m], lo, n, i);
          assert false;
        }
      }
    }
  }

  /** Every listed disease has a row for every day of the range. */
  lemma {:induction false} BlocksCover(rs: seq<Report>, names: seq<string>, lo: Day, n: nat, d: string, day: Day)
    requires d in names && lo <= day < lo + n
    ensures exists i :: 0 <= i < |Blocks(rs, names, lo, n).date| &&
                        Blocks(rs, names, lo, n).disease[i] == d && Blocks(rs, names, lo, n).date[i] == day
  {
    var m := |names| - 1;
    var front := Blocks(rs, names[..m], lo, n);
    var block := DailyBlock(rs, names[m], lo, n);
    var t := Blocks(rs, names, lo, n);
    assert t == Concat(front, block);
    var f := |front.date|;
    if names[m] == d {
      var x := day - lo;
      assert block.disease[x] == d && block.date[x] == day;
      assert t.disease[f + x] == d && t.date[f + x] == day;
    } else {
      assert d in names[..m];
      BlocksCover(rs, names[..m], lo, n, d, day);
      var i :| 0 <= i < f && front.disease[i] == d && front.date[i] == day;
      assert t.disease[i] == d && t.date[i] == day;
    }
  }

  /**
   * The daily table has (#diseases x #days) rows, one per disease and
   * calendar day between the first and the last report: no pair has two
   * rows (dates increase within a disease) and, by ResampledCovers, every
   * pair has one. Each row's count is its disease's filled count for its
   * day (DailyCasesSpec: the most recent report, or 0 before the first).
   */
  lemma ResampledShape(rs: seq<Report>)
    requires rs != []
    ensures Resampled(rs).Ok?
    ensures forall d :: d in Unique(DiseasesOf(rs)) <==> exists k :: 0 <= k < |rs| && rs[k].disease == d
    ensures DailyAligned(Resampled(rs).value)
    ensures GroupDatesAscending(Resampled(rs).value.disease, Resampled(rs).value.date)
    ensures RowsPlaced(rs, Resampled(rs).value, Unique(DiseasesOf(rs)), FirstDay(rs), DayCount(rs))
  {
    var names := Unique(DiseasesOf(rs));
    var lo, n := FirstDay(rs), DayCount(rs);
    assert Resampled(rs) == Ok(Blocks(rs, names, lo, n));
    BlocksPlaced(rs, names, lo, n);
    BlocksAscending(rs, names, lo, n);
    DiseasesListed(rs);
  }

  /** The daily table has one row per reported disease and day of the range. */
  lemma ResampledLength(rs: seq<Report>)
    requires rs != []
    ensures Resampled(rs).Ok?
    ensures |Resampled(rs).value.date| == |Unique(DiseasesOf(rs))| * DayCount(rs)
  {
    var names := Unique(DiseasesOf(rs));
    var lo, n := FirstDay(rs), DayCount(rs);
    var t := Blocks(rs, names, lo, n);
    assert Resampled(rs) == Ok(t);
    BlocksLength(rs, names, lo, n);
    assert |t.date| == |names| * n;
  }

  /** The listed diseases are exactly those some report names. */
  lemma DiseasesListed(rs: seq<Report>)
    ensures forall d :: d in Unique(DiseasesOf(rs)) <==> exists k :: 0 <= k < |rs| && rs[k].disease == d
  {
    forall d | d in Unique(DiseasesOf(rs)) ensures exists k :: 0 <= k < |rs| && rs[k].disease == d {
      var k :| 0 <= k < |rs| && DiseasesOf(rs)[k] == d;
    }
    forall d, k | 0 <= k < |rs| && rs[k].disease == d ensures d in Unique(DiseasesOf(rs)) {
      assert DiseasesOf(rs)[k] == d;
    }
  }

  /** Each reported disease has a daily row for every day between the first and the last report. */
  lemma ResampledCovers(rs: seq<Report>, k: nat, day: Day)
    requires k < |rs| && FirstDay(rs) <= day <= LastDay(rs)
    ensures Resampled(rs).Ok?
    ensures exists i :: 0 <= i < |Resampled(rs).value.date| &&
                        Resampled(rs).value.disease[i] == rs[k].disease && Resampled(rs).value.date[i] == day
  {
    var names := Unique(DiseasesOf(rs));
    var lo, n := FirstDay(rs), DayCount(rs);
    assert Resampled(rs) == Ok(Blocks(rs, names, lo, n));
    DiseasesListed(rs);
    assert rs[k].disease in names;
    BlocksCover(rs, names, lo, n, rs[k].disease, day);
  }

  // ----------------------------------------------------------------------
  // Monthly climate indices joined to the daily rows

  /** A climate reading as read from the file: a number, an infinity or NaN. */
  datatype Reading = Finite(x: real) | PosInf | NegInf | NotANumber

  /** `replace([np.inf, -np.inf], np.nan)`: anything but a finite number is missing. */
  function ToCell(r: Reading): (c: Cell)
    ensures c.Some? <==> r.Finite?
    ensures c.Some? ==> c.value == r.x
  {
    if r.Finite? then Some(r.x) else None
  }

  /** One monthly record of the city-level climate indices. */
  datatype ClimateRecord = ClimateRecord(date: Day, prNorm: Reading, spi3: Reading, spi6: Reading, pnp: Reading)

  /** The four joined indices. */
  datatype ClimateField = PrNorm | Spi3 | Spi6 | Pnp

  function Field(c: ClimateRecord, f: ClimateField): Reading
  {
    match f
    case PrNorm => c.prNorm
    case Spi3 => c.spi3
    case Spi6 => c.spi6
    case Pnp => c.pnp
  }

  /**
   * The value the left merge on year-month brings to a day of month ym: the
   * month's record, infinities made missing; missing when no record has
   * that month.
   */
  function MonthCell(climate: seq<ClimateRecord>, ym: YearMonth, f: ClimateField): Cell
  {
    if climate == [] then None
    else if MonthOf(climate[0].date) == ym then ToCell(Field(climate[0], f))
    else MonthCell(climate[1..], ym, f)
  }

  /** The merged value is the reading of the first record of the month, or missing without one. */
  lemma {:induction false} MonthCellSpec(climate: seq<ClimateRecord>, ym: YearMonth, f: ClimateField, k: nat)
    requires k < |climate| && MonthOf(climate[k].date) == ym
    requires forall j :: 0 <= j < k ==> MonthOf(climate[j].date) != ym
    ensures MonthCell(climate, ym, f) == ToCell(Field(climate[k], f))
  {
    if k > 0 {
      assert MonthOf(climate[0].date) != ym;
      MonthCellSpec(climate[1..], ym, f, k - 1);
    }
  }

  lemma {:induction false} MonthCellAbsent(climate: seq<ClimateRecord>, ym: YearMonth, f: ClimateField)
    requires forall j :: 0 <= j < |climate| ==> MonthOf(climate[j].date) != ym
    ensures MonthCell(climate, ym, f).None?
  {
    if climate != [] {
      MonthCellAbsent(climate[1..], ym, f);
    }
  }

  /** The merged column before any fill. */
  function RawClimate(t: DailyTable, climate: seq<ClimateRecord>, f: ClimateField): (c: Column)
    requires DailyAligned(t)
    ensures |c| == |t.date|
  {
    seq(|t.date|, i requires 0 <= i < |t.date| => MonthCell(climate, MonthOf(t.date[i]), f))
  }

  /** `merged.groupby('disease')[col].ffill()` then `.bfill()` on the merged column. */
  function ClimateColumn(t: DailyTable, climate: seq<ClimateRecord>, f: ClimateField): (c: Column)
    requires DailyAligned(t)
    ensures |c| == |t.date|
  {
    var raw := RawClimate(t, climate, f);
    GroupTransform(t.disease, GroupTransform(t.disease, raw, FFill), BFill)
  }

  /** The daily table with the four climate indices. */
  datatype MergedTable = MergedTable(daily: DailyTable, prNorm: Column, spi3: Column, spi6: Column, pnp: Column)

  predicate MergedAligned(m: MergedTable)
  {
    DailyAligned(m.daily) &&
    |m.prNorm| == |m.spi3| == |m.spi6| == |m.pnp| == |m.daily.date|
  }

  /** merge_climate_to_daily: the daily rows, unchanged, with the four filled indices. */
  function MergeClimateToDaily(t: DailyTable, climate: seq<ClimateRecord>): (m: MergedTable)
    requires DailyAligned(t)
    ensures MergedAligned(m) && m.daily == t
  {
    MergedTable(t, ClimateColumn(t, climate, PrNorm), ClimateColumn(t, climate, Spi3),
                ClimateColumn(t, climate, Spi6), ClimateColumn(t, climate, Pnp))
  }

  /**
   * Within each disease the index is filled forward then backward: row i
   * takes the forward-then-backward fill of its own disease's merged
   * values, at its place among them. A finite merged value is kept; a
   * filled value is a finite value of a row of the same disease, never of
   * another disease; the row stays missing only when no row of its disease
   * has a finite value.
   */
  lemma ClimateColumnSpec(t: DailyTable, climate: seq<ClimateRecord>, f: ClimateField, i: nat)
    requires DailyAligned(t) && i < |t.date|
    ensures var keys, raw := t.disease, RawClimate(t, climate, f);
            var block := Select(keys, raw, keys[i]);
            Rank(keys, i) < |block| &&
            ClimateColumn(t, climate, f)[i] == FillForwardBack(block)[Rank(keys, i)]
    ensures RawClimate(t, climate, f)[i].Some? ==> ClimateColumn(t, climate, f)[i] == RawClimate(t, climate, f)[i]
    ensures ClimateColumn(t, climate, f)[i].Some? ==>
              exists j :: 0 <= j < |t.date| && t.disease[j] == t.disease[i] &&
                          RawClimate(t, climate, f)[j] == ClimateColumn(t, climate, f)[i]
    ensures ClimateColumn(t, climate, f)[i].None? <==>
              forall j :: 0 <= j < |t.date| && t.disease[j] == t.disease[i] ==> RawClimate(t, climate, f)[j].None?
  {
    var keys, raw := t.disease, RawClimate(t, climate, f);
    var block := Select(keys, raw, keys[i]);
    var r := Rank(keys, i);
    GroupTransformCompose(keys, raw, FFill, BFill, FillForwardBack);
    SelectAtRank(keys, raw, i);
    var v := FillForwardBack(block)[r];
    FillForwardBackSpec(block, r);
    FillForwardBackFrom(block, r);
    if v.Some? {
      var u :| 0 <= u < |block| && block[u] == v;
      SelectFromGroup(keys, raw, keys[i], u);
    } else {
      forall j | 0 <= j < |t.date| && keys[j] == keys[i] ensures raw[j].None? {
        SelectAtRank(keys, raw, j);
      }
    }
    if forall j :: 0 <= j < |t.date| && keys[j] == keys[i] ==> raw[j].None? {
      forall u | 0 <= u < |block| ensures block[u].None? {
        SelectFromGroup(keys, raw, keys[i], u);
      }
    }
  }

  // ----------------------------------------------------------------------
  // Derived features: rolling precipitation means and lagged case counts

  function Rolling7(c: Column): (r: Column)
    ensures |r| == |c|
  {
    RollingMean(c, 7)
  }

  function Rolling30(c: Column): (r: Column)
    ensures |r| == |c|
  {
    RollingMean(c, 30)
  }

  /** pandas `shift(k)` on a column with missing cells. */
  function Lag(c: Column, k: nat): (r: Column)
    ensures |r| == |c|
  {
    seq(|c|, i requires 0 <= i < |c| => if i >= k then c[i - k] else None)
  }

  function Lag7(c: Column): (r: Column)
    ensures |r| == |c|
  {
    Lag(c, 7)
  }

  function Lag14(c: Column): (r: Column)
    ensures |r| == |c|
  {
    Lag(c, 14)
  }

  /** The merged table with the four derived columns. */
  datatype DerivedTable = DerivedTable(merged: MergedTable, pr7: Column, pr30: Column,
                                       lag7: seq<real>, lag14: seq<real>)

  /** add_derived_features, as a value: per-disease transforms, lags zero-filled. */
  function Derived(m: MergedTable): (t: DerivedTable)
    requires MergedAligned(m)
  {
    var keys := m.daily.disease;
    var cases := Known(m.daily.caseTotal);
    DerivedTable(m,
      GroupTransform(keys, m.prNorm, Rolling7), GroupTransform(keys, m.prNorm, Rolling30),
      ZeroFill(GroupTransform(keys, cases, Lag7)), ZeroFill(GroupTransform(keys, cases, Lag14)))
  }

  /**
   * add_derived_features: for each disease in turn, its rows' rolling means
   * of pr_norm and lagged case counts are written through the disease mask;
   * afterwards missing lags become 0. The rows are taken in the order the
   * script sorts them into, which the daily table already has within each
   * disease (ResampledShape).
   */
  method AddDerivedFeatures(m: MergedTable) returns (t: DerivedTable)
    requires MergedAligned(m)
    requires GroupDatesAscending(m.daily.disease, m.daily.date)
    ensures t == Derived(m)
  {
    var keys := m.daily.disease;
    var cases := Known(m.daily.caseTotal);
    var names := Unique(keys);
    var missing: Column := seq(|keys|, _ => None);
    var pr7, pr30, lag7, lag14 := missing, missing, missing, missing;
    for k := 0 to |names|
      invariant pr7 == Written(keys, GroupTransform(keys, m.prNorm, Rolling7), names[..k])
      invariant pr30 == Written(keys, GroupTransform(keys, m.prNorm, Rolling30), names[..k])
      invariant lag7 == Written(keys, GroupTransform(keys, cases, Lag7), names[..k])
      invariant lag14 == Written(keys, GroupTransform(keys, cases, Lag14), names[..k])
    {
      var d := names[k];
      assert names[..k + 1] == names[..k] + [d];
      ScatterTransform(keys, m.prNorm, Rolling7, names[..k], d);
      ScatterTransform(keys, m.prNorm, Rolling30, names[..k], d);
      ScatterTransform(keys, cases, Lag7, names[..k], d);
      ScatterTransform(keys, cases, Lag14, names[..k], d);
      pr7 := WriteGroup(keys, pr7, d, Rolling7(Select(keys, m.prNorm, d)));
      pr30 := WriteGroup(keys, pr30, d, Rolling30(Select(keys, m.prNorm, d)));
      lag7 := WriteGroup(keys, lag7, d, Lag7(Select(keys, cases, d)));
      lag14 := WriteGroup(keys, lag14, d, Lag14(Select(keys, cases, d)));
    }
    assert names[..|names|] == names;
    WrittenAll(keys, GroupTransform(keys, m.prNorm, Rolling7));
    WrittenAll(keys, GroupTransform(keys, m.prNorm, Rolling30));
    WrittenAll(keys, GroupTransform(keys, cases, Lag7));
    WrittenAll(keys, GroupTransform(keys, cases, Lag14));
    t := DerivedTable(m, pr7, pr30, ZeroFill(lag7), ZeroFill(lag14));
  }

  /**
   * Within each disease, pr_7day_avg of the disease's r-th row is the mean
   * of the present pr_norm values over its last min(7, r+1) rows, and the
   * disease's first row keeps its own pr_norm; the 30-day column works the
   * same with 30. Gathering one disease's rows of the derived column gives
   * the rolling mean of that disease's own pr_norm column.
   */
  lemma DerivedRollingSpec(m: MergedTable, i: nat)
    requires MergedAligned(m) && i < |m.daily.date|
    ensures var keys := m.daily.disease;
            var block := Select(keys, m.prNorm, keys[i]);
            var r := Rank(keys, i);
            r < |block| &&
            Derived(m).pr7[i] == SkipNaMean(block[WindowStart(r, 7)..r + 1]) &&
            Derived(m).pr30[i] == SkipNaMean(block[WindowStart(r, 30)..r + 1]) &&
            |block[WindowStart(r, 7)..r + 1]| == (if r + 1 < 7 then r + 1 else 7) &&
            (r == 0 ==> Derived(m).pr7[i] == m.prNorm[i] && Derived(m).pr30[i] == m.prNorm[i]) &&
            Select(keys, Derived(m).pr7, keys[i]) == RollingMean(block, 7) &&
            Select(keys, Derived(m).pr30, keys[i]) == RollingMean(block, 30)
  {
    var keys := m.daily.disease;
    var block := Select(keys, m.prNorm, keys[i]);
    var r := Rank(keys, i);
    GroupRollingAt(keys, m.prNorm, Rolling7, 7, i);
    GroupRollingAt(keys, m.prNorm, Rolling30, 30, i);
    RollingMeanAt(block, 7, r);
    RollingMeanAt(block, 30, r);
    GroupRollingGather(keys, m.prNorm, Rolling7, 7, keys[i]);
    GroupRollingGather(keys, m.prNorm, Rolling30, 30, keys[i]);
  }

  /** A per-disease rolling mean of width w, read at one row: the row's disease's rolling mean at the row's rank. */
  lemma GroupRollingAt(keys: seq<string>, col: Column, f: Column -> Column, w: nat, i: nat)
    requires |keys| == |col| && i < |keys| && SameLength(f) && w >= 1
    requires forall c :: f(c) == RollingMean(c, w)
    ensures var block := Select(keys, col, keys[i]);
            var r := Rank(keys, i);
            r < |block| && block[r] == col[i] &&
            GroupTransform(keys, col, f)[i] == RollingMean(block, w)[r]
  {
    var block := Select(keys, col, keys[i]);
    SelectAtRank(keys, col, i);
    TransformAt(keys, col, f, i);
    assert f(block) == RollingMean(block, w);
  }

  /** Gathering one disease's rows of a per-disease rolling mean is the rolling mean of its own rows. */
  lemma GroupRollingGather(keys: seq<string>, col: Column, f: Column -> Column, w: nat, d: string)
    requires |keys| == |col| && SameLength(f) && w >= 1
    requires forall c :: f(c) == RollingMean(c, w)
    ensures Select(keys, GroupTransform(keys, col, f), d) == RollingMean(Select(keys, col, d), w)
  {
    GatherAfterTransform(keys, col, f, d);
    assert f(Select(keys, col, d)) == RollingMean(Select(keys, col, d), w);
  }

  /**
   * Within each disease, cases_lag7 of the disease's r-th row is the case
   * count of the disease's (r-7)-th row, and 0 for its first 7 rows;
   * cases_lag14 works the same with 14.
   */
  lemma DerivedLagSpec(m: MergedTable, i: nat)
    requires MergedAligned(m) && i < |m.daily.date|
    ensures var keys := m.daily.disease;
            var block := Select(keys, m.daily.caseTotal, keys[i]);
            var r := Rank(keys, i);
            r < |block| &&
            Derived(m).lag7[i] == (if r >= 7 then block[r - 7] else 0.0) &&
            Derived(m).lag14[i] == (if r >= 14 then block[r - 14] else 0.0)
  {
    GroupLagAt(m.daily.disease, m.daily.caseTotal, Lag7, 7, i);
    GroupLagAt(m.daily.disease, m.daily.caseTotal, Lag14, 14, i);
  }

  /** A per-disease lag by k, read at one row, with missing lags as 0. */
  lemma GroupLagAt(keys: seq<string>, xs: seq<real>, f: Column -> Column, k: nat, i: nat)
    requires |keys| == |xs| && i < |keys| && SameLength(f)
    requires forall c :: f(c) == Lag(c, k)
    ensures var block := Select(keys, xs, keys[i]);
            var r := Rank(keys, i);
            r < |block| &&
            ZeroFill(GroupTransform(keys, Known(xs), f))[i] == (if r >= k then block[r - k] else 0.0)
  {
    var block := Select(keys, xs, keys[i]);
    var r := Rank(keys, i);
    SelectAtRank(keys, xs, i);
    KnownSelect(keys, xs, keys[i]);
    TransformAt(keys, Known(xs), f, i);
    assert f(Known(block)) == Lag(Known(block), k);
    var g := GroupTransform(keys, Known(xs), f);
    assert g[i] == Lag(Known(block), k)[r];
    assert g[i] == (if r >= k then Some(block[r - k]) else None);
  }

  /** Gathering a group commutes with marking every value present. */
  lemma {:induction false} KnownSelect(keys: seq<string>, xs: seq<real>, d: string)
    requires |keys| == |xs|
    ensures Select(keys, Known(xs), d) == Known(Select(keys, xs, d))
  {
    if keys != [] {
      var n := |keys| - 1;
      assert Known(xs)[..n] == Known(xs[..n]);
      KnownSelect(keys[..n], xs[..n], d);
    }
  }

  // ----------------------------------------------------------------------
  // One file per disease

  /** The selected columns, in output order. */
  const SelectedColumns := ["date", "pr_norm", "spi3", "spi6", "pnp", "pr_7day_avg", "pr_30day_avg", "case_total"]

  /** The header the files are written with. */
  const OutputColumns := ["date", "precipitation", "spi3", "spi6", "precip_anomaly",
                          "precipitation_7day", "precipitation_30day", "disease_cases"]

  /** A written disease file: its name, dates, and the seven value columns in header order. */
  datatype DiseaseFile = DiseaseFile(name: string, header: seq<string>, dates: seq<Day>, values: seq<Column>)

  /** One disease's rows of the derived table, as save_disease_files writes them. */
  function DiseaseFileOf(t: DerivedTable, d: string): (file: DiseaseFile)
    requires MergedAligned(t.merged)
    requires |t.pr7| == |t.pr30| == |t.lag7| == |t.lag14| == |t.merged.daily.date|
    ensures file.header == OutputColumns && |file.values| + 1 == |file.header|
    ensures forall c :: 0 <= c < |file.values| ==> |file.values[c]| == |file.dates|
  {
    var m := t.merged;
    var keys := m.daily.disease;
    DiseaseFile(d + "_historical_data.csv", OutputColumns, Select(keys, m.daily.date, d),
      [Select(keys, m.prNorm, d), Select(keys, m.spi3, d), Select(keys, m.spi6, d), Select(keys, m.pnp, d),
       Select(keys, t.pr7, d), Select(keys, t.pr30, d), Known(Select(keys, m.daily.caseTotal, d))])
  }

  /** save_disease_files: one file per disease, in order of first appearance. */
  function SaveDiseaseFiles(t: DerivedTable): (files: seq<DiseaseFile>)
    requires MergedAligned(t.merged)
    requires |t.pr7| == |t.pr30| == |t.lag7| == |t.lag14| == |t.merged.daily.date|
    ensures |files| == |Unique(t.merged.daily.disease)|
  {
    var names := Unique(t.merged.daily.disease);
    seq(|names|, k requires 0 <= k < |names| => DiseaseFileOf(t, names[k]))
  }

  /**
   * Each disease file has the eight renamed columns with disease_cases
   * last, one row per row of its disease, carrying that row's date, in
   * increasing date order; its climate columns are the disease's own
   * pr_norm, spi3, spi6 and pnp, then the rolling means of pr_norm, and
   * disease_cases is the disease's case_total.
   */
  lemma SaveDiseaseFilesSpec(m: MergedTable, k: nat)
    requires MergedAligned(m) && GroupDatesAscending(m.daily.disease, m.daily.date)
    requires k < |Unique(m.daily.disease)|
    ensures var files := SaveDiseaseFiles(Derived(m));
            var d := Unique(m.daily.disease)[k];
            var file := files[k];
            var keys := m.daily.disease;
            |file.header| == 8 && file.header[7] == "disease_cases" && file.header[0] == "date" &&
            file.name == d + "_historical_data.csv" &&
            file.dates == Select(keys, m.daily.date, d) &&
            |file.dates| == Count(keys, d) &&
            StrictlyIncreasing(file.dates) &&
            file.values[0] == Select(keys, m.prNorm, d) &&
            file.values[1] == Select(keys, m.spi3, d) &&
            file.values[2] == Select(keys, m.spi6, d) &&
            file.values[3] == Select(keys, m.pnp, d) &&
            file.values[4] == RollingMean(Select(keys, m.prNorm, d), 7) &&
            file.values[5] == RollingMean(Select(keys, m.prNorm, d), 30) &&
            file.values[6] == Known(Select(keys, m.daily.caseTotal, d))
  {
    var keys := m.daily.disease;
    var d := Unique(keys)[k];
    var dates := Select(keys, m.daily.date, d);
    GatherAfterTransform(keys, m.prNorm, Rolling7, d);
    GatherAfterTransform(keys, m.prNorm, Rolling30, d);
    SelectAscending(keys, m.daily.date, d);
  }

  /** One group's dates, gathered from a table whose groups ascend, ascend. */
  lemma {:induction false} SelectAscending(keys: seq<string>, dates: seq<Day>, d: string)
    requires |keys| == |dates| && GroupDatesAscending(keys, dates)
    ensures StrictlyIncreasing(Select(keys, dates, d))
  {
    if keys != [] {
      var n := |keys| - 1;
      assert GroupDatesAscending(keys[..n], dates[..n]);
      SelectAscending(keys[..n], dates[..n], d);
      var front := Select(keys[..n], dates[..n], d);
      if keys[n] == d {
        forall u | 0 <= u < |front| ensures front[u] < dates[n] {
          SelectFromGroup(keys[..n], dates[..n], d, u);
        }
      }
    }
  }
}
