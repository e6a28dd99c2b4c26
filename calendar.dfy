/** Time as the report code sees it. A timestamp is a whole number of
    seconds on the application's local clock, counted from 1970-01-01
    00:00:00; a calendar date is a whole number of days from the same
    origin. The local fields (year, month, day, hour, minute, second) that
    `strftime` and `Time#hour` read are computed from the timestamp with
    the proleptic Gregorian calendar. */
module Calendar {

  type Timestamp = int
  type Day = int

  datatype CivilDate = CivilDate(year: int, month: int, day: int)

  datatype LocalTime = LocalTime(date: CivilDate, hour: int, minute: int, second: int)

  /** The calendar date a timestamp falls on. */
  function DayOf(t: Timestamp): Day { t / 86400 }

  /** Seconds elapsed since local midnight. */
  function SecondOfDay(t: Timestamp): (r: int)
    ensures 0 <= r < 86400
  {
    t % 86400
  }

  /** `Date#beginning_of_day` and `Date#end_of_day`: the first and the last
      whole second of a calendar date. */
  function BeginningOfDay(d: Day): Timestamp { d * 86400 }

  function EndOfDay(d: Day): Timestamp { d * 86400 + 86399 }

  /** A timestamp lies between the start of day `s` and the end of day `e`
      exactly when its own date lies between `s` and `e`. */
  lemma {:induction false} WithinDays(t: Timestamp, s: Day, e: Day)
    ensures BeginningOfDay(s) <= t <= EndOfDay(e) <==> s <= DayOf(t) <= e
  {
    var d := DayOf(t);
    assert d * 86400 <= t < d * 86400 + 86400;
  }

  // ---------------------------------------------------------------------
  // Gregorian calendar. Years are counted from March, so that the leap day
  // is the last day of its year; a 400-year era has 146097 days.
  // ---------------------------------------------------------------------

  /** Days of the (March-based) years of an era that come before year `yoe`. */
  function DaysBeforeYear(yoe: int): int { 365 * yoe + yoe / 4 - yoe / 100 }

  datatype EraDay = EraDay(yoe: int, doy: int)

  /** Splits a day of an era into its year of era and its day of year, by
      centuries of 36524 days (the last has 36525), four-year cycles of 1461
      days and years of 365 days (the last of a cycle has 366). */
  function SplitEra(doe: int): (r: EraDay)
    requires 0 <= doe < 146097
    ensures 0 <= r.yoe < 400 && 0 <= r.doy <= 365
    ensures DaysBeforeYear(r.yoe) + r.doy == doe
  {
    var c := if doe / 36524 < 3 then doe / 36524 else 3;
    var rem := doe - 36524 * c;
    var b := rem / 1461;
    var rem2 := rem - 1461 * b;
    var yy := if rem2 / 365 < 3 then rem2 / 365 else 3;
    assert 0 <= rem <= 36524 && 0 <= b <= 24;
    var yoe := 100 * c + 4 * b + yy;
    assert yoe / 4 == 25 * c + b;
    assert yoe / 100 == c;
    EraDay(yoe, rem2 - 365 * yy)
  }

  /** Days of the (March-based) year that come before month `mp`, where
      `mp` = 0 is March and `mp` = 11 is February. */
  function DaysBeforeMonth(mp: int): int { (153 * mp + 2) / 5 }

  /** The (March-based) month a day of the year falls in. */
  function MonthOfYear(doy: int): (mp: int)
    requires 0 <= doy <= 365
    ensures 0 <= mp <= 11
    ensures DaysBeforeMonth(mp) <= doy <= DaysBeforeMonth(mp) + 30
  {
    (5 * doy + 2) / 153
  }

  /** A date counted in March-based years: `mp` = 0 is March, `mp` = 11 is
      February of the following civil year. */
  datatype MarchDate = MarchDate(year: int, mp: int, day: int)

  function DaysFromMarch(md: MarchDate): Day
  {
    var era := md.year / 400;
    era * 146097 + DaysBeforeYear(md.year - era * 400) + DaysBeforeMonth(md.mp) + md.day - 1 - 719468
  }

  function MarchFromDays(z: Day): (md: MarchDate)
    ensures 0 <= md.mp <= 11 && 1 <= md.day <= 31
    ensures DaysFromMarch(md) == z
  {
    var shifted := z + 719468;
    var era := shifted / 146097;
    var ed := SplitEra(shifted - era * 146097);
    var mp := MonthOfYear(ed.doy);
    EraOfYear(ed.yoe + era * 400, era, ed.yoe);
    MarchDate(ed.yoe + era * 400, mp, ed.doy - DaysBeforeMonth(mp) + 1)
  }

  lemma EraOfYear(y: int, era: int, yoe: int)
    requires 0 <= yoe < 400 && y == yoe + era * 400
    ensures y / 400 == era && y - y / 400 * 400 == yoe
  {
  }

  function CivilFromMarch(md: MarchDate): CivilDate
  {
    if md.mp < 10 then CivilDate(md.year, md.mp + 3, md.day)
    else CivilDate(md.year + 1, md.mp - 9, md.day)
  }

  function MarchFromCivil(date: CivilDate): MarchDate
  {
    if date.month > 2 then MarchDate(date.year, date.month - 3, date.day)
    else MarchDate(date.year - 1, date.month + 9, date.day)
  }

  /** The civil date of day number `z`. */
  function CivilFromDays(z: Day): (r: CivilDate)
    ensures 1 <= r.month <= 12 && 1 <= r.day <= 31
  {
    CivilFromMarch(MarchFromDays(z))
  }

  /** The day number of a civil date. */
  function DaysFromCivil(date: CivilDate): Day
  {
    DaysFromMarch(MarchFromCivil(date))
  }

  /** Reading a day number as a date and counting the date back gives the
      same day number: no two days share a date. */
  lemma CivilRoundTrip(z: Day)
    ensures DaysFromCivil(CivilFromDays(z)) == z
  {
    var md := MarchFromDays(z);
    assert MarchFromCivil(CivilFromMarch(md)) == md;
  }

  lemma {:induction false} SplitTimeOfDay(sod: int)
    requires 0 <= sod < 86400
    ensures 0 <= sod / 3600 < 24 && 0 <= sod % 3600 / 60 < 60
    ensures sod / 3600 * 3600 + sod % 3600 / 60 * 60 + sod % 60 == sod
  {
    var h, rest := sod / 3600, sod % 3600;
    assert sod == h * 3600 + rest;
    assert rest == rest / 60 * 60 + sod % 60;
  }

  /** The local fields of a timestamp. */
  function Local(t: Timestamp): (r: LocalTime)
    ensures 0 <= r.hour < 24 && 0 <= r.minute < 60 && 0 <= r.second < 60
    ensures 1 <= r.date.month <= 12 && 1 <= r.date.day <= 31
    ensures r.hour * 3600 + r.minute * 60 + r.second == SecondOfDay(t)
  {
    var sod := SecondOfDay(t);
    SplitTimeOfDay(sod);
    LocalTime(CivilFromDays(DayOf(t)), sod / 3600, sod % 3600 / 60, sod % 60)
  }

  /** The local fields determine the timestamp. */
  lemma LocalDeterminesTimestamp(t: Timestamp)
    ensures DaysFromCivil(Local(t).date) * 86400
            + Local(t).hour * 3600 + Local(t).minute * 60 + Local(t).second == t
  {
    CivilRoundTrip(DayOf(t));
  }

  /** The weekday as `Time#wday` numbers it, Sunday being 0;
      1970-01-01 was a Thursday. */
  function WeekdayIndex(t: Timestamp): (r: int)
    ensures 0 <= r < 7
  {
    (DayOf(t) + 4) % 7
  }

  /** 2024-01-15 10:30:45, the instant the formatter's examples use. */
  const SampleInstant: Timestamp := 1705314645

  lemma SampleEraDay()
    ensures SplitEra(8720) == EraDay(23, 320)
  {
  }

  lemma SampleMarchDate()
    ensures MarchFromDays(19737) == MarchDate(2023, 10, 15)
  {
    assert 739205 / 146097 == 5;
    SampleEraDay();
    assert MonthOfYear(320) == 10 && DaysBeforeMonth(10) == 306;
  }

  lemma SampleDayAndTime()
    ensures DayOf(SampleInstant) == 19737 && SecondOfDay(SampleInstant) == 37845
    ensures WeekdayIndex(SampleInstant) == 1
  {
  }

  lemma SampleInstantDate()
    ensures CivilFromDays(DayOf(SampleInstant)) == CivilDate(2024, 1, 15)
  {
    SampleDayAndTime();
    SampleMarchDate();
  }
}
