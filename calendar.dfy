/**
 * Calendar dates.  A date is a day number counted from 1970-01-01; the
 * proleptic Gregorian year and month of a day number are what pandas'
 * `dt.year` and `dt.to_period('M')` read off a timestamp.
 */
module Calendar {

  /** Days since 1970-01-01. */
  type Day = int

  datatype CivilDate = CivilDate(year: int, month: int, day: int)

  /** Gregorian date of a day number (days-from-civil inverted, era by era of 400 years). */
  function CivilFromDays(n: Day): CivilDate
  {
    var z := n + 719468;
    var era := z / 146097;
    var doe := z - era * 146097;
    var yoe := (doe - doe / 1460 + doe / 36524 - doe / 146096) / 365;
    var y := yoe + era * 400;
    var doy := doe - (365 * yoe + yoe / 4 - yoe / 100);
    var mp := (5 * doy + 2) / 153;
    var d := doy - (153 * mp + 2) / 5 + 1;
    var m := if mp < 10 then mp + 3 else mp - 9;
    CivilDate(if m <= 2 then y + 1 else y, m, d)
  }

  /** pandas `dt.year`. */
  function YearOf(n: Day): int
  {
    CivilFromDays(n).year
  }

  /** pandas `dt.to_period('M')`: the calendar month a day falls in. */
  datatype YearMonth = YearMonth(year: int, month: int)

  function MonthOf(n: Day): YearMonth
  {
    var c := CivilFromDays(n);
    YearMonth(c.year, c.month)
  }

}
