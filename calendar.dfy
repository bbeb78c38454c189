/**
 * JavaScript `Date` arithmetic reduced to integers: a time value is a count of
 * milliseconds, a day number counts days from 1970-01-01, and the local time zone
 * is taken to be UTC.
 */
module Calendar {
  import opened Wrappers

  const DayMs: int := 86400000
  /** The largest magnitude of a valid time value (ECMAScript's TimeClip). */
  const MaxTime: int := 8640000000000000

  /** Days from 1970-01-01 to the proleptic Gregorian date y-m-d (month 1..12). */
  function DaysFromCivil(y: int, m: int, d: int): int
    requires 1 <= m <= 12
  {
    var y' := if m <= 2 then y - 1 else y;
    var era := y' / 400;
    var yoe := y' - era * 400;
    var mp := if m > 2 then m - 3 else m + 9;
    var doy := (153 * mp + 2) / 5 + d - 1;
    var doe := yoe * 365 + yoe / 4 - yoe / 100 + doy;
    era * 146097 + doe - 719468
  }

  /** `getDay()` of a day number: 0 is Sunday, 6 is Saturday (1970-01-01 was a Thursday). */
  function Weekday(day: int): int {
    (day + 4) % 7
  }

  predicate IsWeekend(day: int) {
    Weekday(day) == 0 || Weekday(day) == 6
  }

  /** A `Date` object: a time value, or the Invalid Date whose time value is NaN. */
  datatype JsDate = At(ms: int) | Invalid

  /** The day number a time value falls on. */
  function DayOf(ms: int): int {
    ms / DayMs
  }

  /**
   * `new Date(year, month, day)`: local midnight, `month` counted from 0 and allowed to
   * overflow into other years, `day` allowed to overflow into other months, a year in
   * 0..99 read as 1900..1999, and an argument that is NaN (`None`) or a result beyond
   * TimeClip's range giving the Invalid Date.
   */
  function MakeDate(year: Option<int>, month: Option<int>, day: Option<int>): (r: JsDate)
    ensures r.At? ==> year.Some? && month.Some? && day.Some?
    ensures r.At? ==> r.ms % DayMs == 0 && -MaxTime <= r.ms <= MaxTime
  {
    if year.None? || month.None? || day.None? then Invalid
    else
      var y := if 0 <= year.value <= 99 then 1900 + year.value else year.value;
      var ym := y + month.value / 12;
      var mn := month.value % 12;
      var t := (DaysFromCivil(ym, mn + 1, 1) + day.value - 1) * DayMs;
      if t < -MaxTime || t > MaxTime then Invalid else At(t)
  }

  /** A NaN argument always yields the Invalid Date. */
  lemma MakeDateNaN(year: Option<int>, month: Option<int>, day: Option<int>)
    requires year.None? || month.None? || day.None?
    ensures MakeDate(year, month, day) == Invalid
  {
  }

  /** The day after a valid date is one day of milliseconds later, across month ends too. */
  lemma MakeDateNextDay(year: int, month: int, day: int)
    requires MakeDate(Some(year), Some(month), Some(day)).At? && MakeDate(Some(year), Some(month), Some(day + 1)).At?
    ensures MakeDate(Some(year), Some(month), Some(day + 1)).ms == MakeDate(Some(year), Some(month), Some(day)).ms + DayMs
  {
  }

  /** Month 12 of a year is January of the next (for four-digit years). */
  lemma MonthOverflow(y: int)
    requires 100 <= y <= 200000
    ensures MakeDate(Some(y), Some(12), Some(1)) == MakeDate(Some(y + 1), Some(0), Some(1))
    ensures MakeDate(Some(y), Some(12), Some(1)).At?
  {
  }

  /** The first example date the dialog offers, 15/09/2024, is a Sunday. */
  lemma FifteenthOfSeptember2024IsSunday()
    ensures MakeDate(Some(2024), Some(8), Some(15)) == At(19981 * DayMs)
    ensures Weekday(19981) == 0
  {
    assert DaysFromCivil(2024, 9, 1) == 19967;
  }
}
