/**
 * The java.time values the scheduler compares: LocalDate (a proleptic
 * Gregorian date), its day of week, its day of month, and LocalTime with
 * truncation to whole minutes.
 */
module Dates {

  datatype LocalDate = LocalDate(year: int, month: int, day: int)

  predicate IsLeapYear(y: int) {
    (y % 4 == 0 && y % 100 != 0) || y % 400 == 0
  }

  function DaysInMonth(y: int, m: int): (n: int)
    requires 1 <= m <= 12
    ensures 28 <= n <= 31
  {
    if m == 2 then (if IsLeapYear(y) then 29 else 28)
    else if m == 4 || m == 6 || m == 9 || m == 11 then 30
    else 31
  }

  predicate ValidDate(d: LocalDate) {
    1 <= d.month <= 12 && 1 <= d.day <= DaysInMonth(d.year, d.month)
  }

  type Date = d: LocalDate | ValidDate(d) witness LocalDate(1970, 1, 1)

  /** LocalDate.isAfter: year, then month, then day. */
  predicate IsAfter(a: Date, b: Date) {
    a.year > b.year
    || (a.year == b.year && a.month > b.month)
    || (a.year == b.year && a.month == b.month && a.day > b.day)
  }

  /** LocalDate.toEpochDay: days since 1970-01-01 (civil-calendar day count). */
  function EpochDay(d: Date): int {
    var y := if d.month <= 2 then d.year - 1 else d.year;
    var era := y / 400;
    var yoe := y - era * 400;
    var mp := (d.month + 9) % 12;
    var doy := (153 * mp + 2) / 5 + d.day - 1;
    var doe := yoe * 365 + yoe / 4 - yoe / 100 + doy;
    era * 146097 + doe - 719468
  }

  /** getDayOfWeek as its ISO number: Monday is 1 and Sunday is 7 (1970-01-01 was a Thursday). */
  function DayOfWeek(d: Date): (r: int)
    ensures 1 <= r <= 7
  {
    (EpochDay(d) + 3) % 7 + 1
  }

  /** getDayOfMonth. */
  function DayOfMonth(d: Date): (r: int)
    ensures 1 <= r <= 31
  {
    d.day
  }

  /** Two integers leave the same remainder mod 7 exactly when their difference is a multiple of 7. */
  lemma SameResidueIffMultiple(x: int, y: int)
    ensures x % 7 == y % 7 <==> (x - y) % 7 == 0
  {
    var qx, qy := x / 7, y / 7;
    var d := x % 7 - y % 7;
    assert x - y == 7 * (qx - qy) + d;
    assert -7 < d < 7;
  }

  /** Two dates fall on the same weekday exactly when they are a whole number of weeks apart. */
  lemma SameWeekdayIffWholeWeeks(a: Date, b: Date)
    ensures DayOfWeek(a) == DayOfWeek(b) <==> (EpochDay(a) - EpochDay(b)) % 7 == 0
  {
    var x, y := EpochDay(a), EpochDay(b);
    SameResidueIffMultiple(x + 3, y + 3);
    assert (x + 3) - (y + 3) == x - y;
  }

  /** Within one month, epoch days are as far apart as the days of the month. */
  lemma SameMonthDays(a: Date, b: Date)
    requires a.year == b.year && a.month == b.month
    ensures EpochDay(a) - EpochDay(b) == a.day - b.day
  {
  }

  /** The epoch is day 0 and a Thursday. */
  lemma EpochIsThursday()
    ensures EpochDay(LocalDate(1970, 1, 1)) == 0
    ensures DayOfWeek(LocalDate(1970, 1, 1)) == 4
  {
  }

  /** A LocalTime: hour, minute, second and nanosecond of the day. */
  datatype LocalTime = LocalTime(hour: int, minute: int, second: int, nano: int)

  predicate ValidTime(t: LocalTime) {
    0 <= t.hour < 24 && 0 <= t.minute < 60 && 0 <= t.second < 60 && 0 <= t.nano < 1000000000
  }

  type Time = t: LocalTime | ValidTime(t) witness LocalTime(0, 0, 0, 0)

  /** LocalTime.truncatedTo(ChronoUnit.MINUTES). */
  function TruncatedToMinutes(t: Time): (r: Time)
    ensures r.hour == t.hour && r.minute == t.minute && r.second == 0 && r.nano == 0
  {
    LocalTime(t.hour, t.minute, 0, 0)
  }

  /** Two times agree at minute resolution exactly when their hours and minutes agree. */
  lemma SameMinuteIff(a: Time, b: Time)
    ensures TruncatedToMinutes(a) == TruncatedToMinutes(b) <==> (a.hour == b.hour && a.minute == b.minute)
  {
  }
}
