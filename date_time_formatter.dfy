/** `Reports::Formatters::DateTimeFormatter`: the text of the date, weekday,
    time and duration cells of a report row. A missing (nil or blank)
    datetime is `None`. */
module DateTimeFormatter {
  import opened Common
  import opened Text
  import opened Calendar

  // ---------------------------------------------------------------------
  // date: "%d/%m/%Y"
  // ---------------------------------------------------------------------

  /** `%Y`: the year with at least four digits; a negative year is printed
      with a leading minus sign before its four digits. */
  function YearText(y: int): string
  {
    if y < 0 then "-" + ZeroPad(-y, 4) else ZeroPad(y, 4)
  }

  function FormatDate(date: CivilDate): string
    requires 1 <= date.day <= 31 && 1 <= date.month <= 12
  {
    ZeroPad(date.day, 2) + "/" + ZeroPad(date.month, 2) + "/" + YearText(date.year)
  }

  /** Reads `DD/MM/YYYY` back into a date. */
  function ParseDate(s: string): Option<CivilDate>
  {
    if |s| >= 7 && s[2] == '/' && s[5] == '/' && AllDigits(s[..2]) && AllDigits(s[3..5]) && IsIntText(s[6..])
    then Some(CivilDate(ParseInt(s[6..]), ParseNat(s[3..5]), ParseNat(s[..2])))
    else None
  }

  /** Two two-character fields and a tail, each followed by a separator. */
  lemma {:induction false} Fields(a: string, c1: char, b: string, c2: char, d: string)
    requires |a| == 2 && |b| == 2
    ensures var s := a + [c1] + b + [c2] + d;
            |s| == 6 + |d| && s[..2] == a && s[2] == c1 && s[3..5] == b && s[5] == c2 && s[6..] == d
  {
    var s := a + [c1] + b + [c2] + d;
    assert s[..2] == a;
    assert s[3..5] == b;
    assert s[6..] == d;
  }

  /** `%Y` is four digits wide for the years 0 to 9999. */
  lemma YearTextWidth(y: int)
    ensures 0 <= y < 10000 ==> |YearText(y)| == 4
  {
    if 0 <= y < 10000 {
      assert Pow10(4) == 10000;
      ZeroPadWidth(y, 4);
    }
  }

  lemma ParseYearText(y: int)
    ensures IsIntText(YearText(y)) && ParseInt(YearText(y)) == y
  {
    if y < 0 {
      NegativeYearText(y);
    } else {
      ParseZeroPad(y, 4);
    }
  }

  lemma NegativeYearText(y: int)
    requires y < 0
    ensures IsIntText("-" + ZeroPad(-y, 4)) && ParseInt("-" + ZeroPad(-y, 4)) == y
  {
    var d := ZeroPad(-y, 4);
    assert ("-" + d)[1..] == d;
    ParseZeroPad(-y, 4);
  }

  lemma ParseFormatDate(date: CivilDate)
    requires 1 <= date.day <= 31 && 1 <= date.month <= 12
    ensures ParseDate(FormatDate(date)) == Some(date)
  {
    var dd, mm, yy := ZeroPad(date.day, 2), ZeroPad(date.month, 2), YearText(date.year);
    ZeroPadWidth(date.day, 2);
    ZeroPadWidth(date.month, 2);
    Fields(dd, '/', mm, '/', yy);
    ParseZeroPad(date.day, 2);
    ParseZeroPad(date.month, 2);
    ParseYearText(date.year);
  }

  /** `date(datetime)`: "-" for a missing datetime, otherwise the local
      calendar date as zero-padded `DD/MM/YYYY`: exactly ten characters for
      the years 0 to 9999, with more year digits only beyond them. */
  function Date(t: Option<Timestamp>): (r: string)
    ensures t.None? <==> r == "-"
    ensures t.Some? ==> |r| >= 10 && r[2] == '/' && r[5] == '/'
    ensures t.Some? && 0 <= Local(t.value).date.year < 10000 ==> |r| == 10
  {
    match t
    case None => "-"
    case Some(instant) =>
      var date := Local(instant).date;
      ParseFormatDate(date);
      ZeroPadWidth(date.day, 2);
      ZeroPadWidth(date.month, 2);
      YearTextWidth(date.year);
      FormatDate(date)
  }

  /** The date text reads back to the local calendar date. */
  lemma DateReadsBack(t: Timestamp)
    ensures ParseDate(Date(Some(t))) == Some(Local(t).date)
  {
    ParseFormatDate(Local(t).date);
  }

  // ---------------------------------------------------------------------
  // time: "%H:%M:%S"
  // ---------------------------------------------------------------------

  function FormatClock(lt: LocalTime): string
    requires 0 <= lt.hour < 24 && 0 <= lt.minute < 60 && 0 <= lt.second < 60
  {
    ZeroPad(lt.hour, 2) + ":" + ZeroPad(lt.minute, 2) + ":" + ZeroPad(lt.second, 2)
  }

  /** Reads `HH:MM:SS` back into its hour, minute and second, each of
      exactly two digits. */
  function ParseClock(s: string): Option<(int, int, int)>
  {
    if |s| == 8 && s[2] == ':' && s[5] == ':' && AllDigits(s[..2]) && AllDigits(s[3..5]) && AllDigits(s[6..])
    then Some((ParseNat(s[..2]), ParseNat(s[3..5]), ParseNat(s[6..])))
    else None
  }

  lemma ParseFormatClockFields(lt: LocalTime)
    requires 0 <= lt.hour < 24 && 0 <= lt.minute < 60 && 0 <= lt.second < 60
    ensures |FormatClock(lt)| == 8
    ensures ParseClock(FormatClock(lt)) == Some((lt.hour, lt.minute, lt.second))
  {
    var hh, mm, ss := ZeroPad(lt.hour, 2), ZeroPad(lt.minute, 2), ZeroPad(lt.second, 2);
    ZeroPadWidth(lt.hour, 2);
    ZeroPadWidth(lt.minute, 2);
    ZeroPadWidth(lt.second, 2);
    Fields(hh, ':', mm, ':', ss);
    ParseZeroPad(lt.hour, 2);
    ParseZeroPad(lt.minute, 2);
    ParseZeroPad(lt.second, 2);
  }

  /** The local hour, minute and second of a timestamp. */
  function ClockFields(t: Timestamp): (int, int, int)
  {
    (Local(t).hour, Local(t).minute, Local(t).second)
  }

  lemma ParseFormatClock(t: Timestamp)
    ensures |FormatClock(Local(t))| == 8
    ensures ParseClock(FormatClock(Local(t))) == Some(ClockFields(t))
  {
    ParseFormatClockFields(Local(t));
  }

  /** `time(datetime)`: "-" for a missing datetime, otherwise the local
      clock time as zero-padded `HH:MM:SS`, which reads back to the local
      hour, minute and second. */
  function Time(t: Option<Timestamp>): (r: string)
    ensures t.None? <==> r == "-"
    ensures t.Some? ==> |r| == 8 && ParseClock(r) == Some(ClockFields(t.value))
  {
    match t
    case None => "-"
    case Some(instant) =>
      ParseFormatClock(instant);
      FormatClock(Local(instant))
  }

  /** The time text reads back to the local hour, minute and second, and
      these give the seconds elapsed since local midnight. */
  lemma TimeReadsBack(t: Timestamp)
    ensures ParseClock(Time(Some(t))) == Some(ClockFields(t))
    ensures ClockFields(t).0 * 3600 + ClockFields(t).1 * 60 + ClockFields(t).2 == SecondOfDay(t)
  {
    ParseFormatClock(t);
  }

  // ---------------------------------------------------------------------
  // weekday: I18n.l(datetime, format: "%A"), falling back to strftime("%A")
  // ---------------------------------------------------------------------

  /** The weekday names of the active I18n locale, Sunday first; `None` when
      the locale has no translation, which makes `I18n.l` raise. */
  datatype Locale = Locale(weekdayNames: Option<seq<string>>)
  {
    predicate Translates() { weekdayNames.Some? && |weekdayNames.value| == 7 }
  }

  /** The names `strftime("%A")` prints. */
  const DefaultWeekdayNames: seq<string> :=
    ["Sunday", "Monday", "Tuesday", "Wednesday", "Thursday", "Friday", "Saturday"]

  /** `weekday(datetime)`: "-" for a missing datetime; otherwise the
      localized name of the weekday, or, when localization raises, the
      default name. It never raises. */
  function Weekday(t: Option<Timestamp>, locale: Locale): (r: string)
    ensures t.None? ==> r == "-"
  {
    match t
    case None => "-"
    case Some(instant) =>
      if locale.Translates() then locale.weekdayNames.value[WeekdayIndex(instant)]
      else DefaultWeekdayNames[WeekdayIndex(instant)]
  }
  /** With a translation the locale's name for the weekday; without one a
      default name, which is never "-": the lookup never fails. */
  lemma WeekdayNames(t: Timestamp, locale: Locale)
    ensures locale.Translates() ==> Weekday(Some(t), locale) == locale.weekdayNames.value[WeekdayIndex(t)]
    ensures !locale.Translates() ==> Weekday(Some(t), locale) in DefaultWeekdayNames
    ensures !locale.Translates() ==> Weekday(Some(t), locale) != "-"
  {
  }


  // ---------------------------------------------------------------------
  // duration: "#{seconds / 3600}h #{(seconds % 3600) / 60}min"
  // ---------------------------------------------------------------------

  /** The two numbers a duration label shows. */
  datatype DurationParts = DurationParts(hours: int, minutes: int)

  function DurationText(p: DurationParts): string
    requires p.minutes >= 0
  {
    IntToString(p.hours) + "h " + NatToString(p.minutes) + "min"
  }

  /** Reads a label `<hours>h <minutes>min` back into its two numbers. */
  function ParseDuration(s: string): Option<DurationParts>
  {
    var i := IndexOf(s, 'h');
    if i < |s| && IsIntText(s[..i]) then
      match ParseMinutes(s[i..])
      case Some(m) => Some(DurationParts(ParseInt(s[..i]), m))
      case None => None
    else None
  }

  /** Reads the `h <minutes>min` part of a label. */
  function ParseMinutes(rest: string): Option<nat>
  {
    if |rest| > 5 && rest[..2] == "h " && rest[|rest| - 3..] == "min" && AllDigits(rest[2..|rest| - 3])
    then Some(ParseNat(rest[2..|rest| - 3]))
    else None
  }

  lemma ParseMinutesOf(ms: string)
    requires |ms| > 0 && AllDigits(ms)
    ensures ParseMinutes("h " + ms + "min") == Some(ParseNat(ms))
  {
    var rest := "h " + ms + "min";
    assert rest[..2] == "h ";
    assert rest[|rest| - 3..] == "min";
    assert rest[2..|rest| - 3] == ms;
  }

  /** A label built from an integer text without 'h' and a digit string
      reads back to the two numbers. */
  lemma ParseDurationOf(hs: string, ms: string)
    requires IsIntText(hs) && 'h' !in hs
    requires |ms| > 0 && AllDigits(ms)
    ensures ParseDuration(hs + "h " + ms + "min") == Some(DurationParts(ParseInt(hs), ParseNat(ms)))
  {
    var rest := "h " + ms + "min";
    var s := hs + rest;
    assert s == hs + "h " + ms + "min";
    assert s == hs + ['h'] + rest[1..];
    IndexOfPrefix(hs, 'h', rest[1..]);
    assert s[..|hs|] == hs && s[|hs|..] == rest;
    ParseMinutesOf(ms);
  }

  lemma ParseDurationText(p: DurationParts)
    requires p.minutes >= 0
    ensures ParseDuration(DurationText(p)) == Some(p)
  {
    var hs, ms := IntToString(p.hours), NatToString(p.minutes);
    assert 'h' !in hs;
    ParseDurationOf(hs, ms);
    ParseIntToString(p.hours);
    ParseNatToString(p.minutes);
  }

  /** `duration(seconds)`: "-" exactly for zero seconds; any other value is
      labelled with its whole hours and the whole minutes left over, which
      the label reads back to. Ruby's `/` and `%` floor, as Dafny's do for a
      positive divisor. */
  function Duration(seconds: int): (r: string)
    ensures r == "-" <==> seconds == 0
    ensures seconds != 0 ==> ParseDuration(r) == Some(DurationParts(seconds / 3600, seconds % 3600 / 60))
  {
    if seconds == 0 then "-"
    else
      var p := DurationParts(seconds / 3600, seconds % 3600 / 60);
      ParseDurationText(p);
      DurationText(p)
  }

  /** The label loses only the seconds below a whole minute. */
  lemma DurationLosesOnlySeconds(seconds: int)
    requires seconds != 0
    ensures ParseDuration(Duration(seconds)).Some?
    ensures var p := ParseDuration(Duration(seconds)).value;
            0 <= p.minutes < 60 && p.hours * 3600 + p.minutes * 60 == seconds - seconds % 60
  {
    var h, rest := seconds / 3600, seconds % 3600;
    assert seconds == h * 3600 + rest;
    assert rest == rest / 60 * 60 + seconds % 60;
  }

  /** A positive duration below one minute is shown as "0h 0min", not "-". */
  lemma DurationBelowMinute(seconds: int)
    requires 0 < seconds < 60
    ensures Duration(seconds) == "0h 0min"
  {
    assert seconds / 3600 == 0 && seconds % 3600 / 60 == 0;
  }

  lemma DurationExampleHalfHour()
    ensures Duration(30600) == "8h 30min"
  {
    assert 30600 / 3600 == 8 && 30600 % 3600 / 60 == 30;
    assert NatToString(30) == "30";
  }

  lemma DurationExampleWholeHours()
    ensures Duration(18000) == "5h 0min"
  {
    assert 18000 / 3600 == 5 && 18000 % 3600 / 60 == 0;
  }

  lemma DurationExampleMinutes()
    ensures Duration(2700) == "0h 45min"
  {
    assert 2700 / 3600 == 0 && 2700 % 3600 / 60 == 45;
    assert NatToString(45) == "45" && IntToString(0) == "0";
    assert DurationText(DurationParts(0, 45)) == "0h 45min";
  }

  lemma DateExample()
    ensures Date(Some(SampleInstant)) == "15/01/2024"
  {
    SampleInstantDate();
    assert Local(SampleInstant).date == CivilDate(2024, 1, 15);
    FormatDateExample();
  }

  lemma FormatDateExample()
    ensures FormatDate(CivilDate(2024, 1, 15)) == "15/01/2024"
  {
    assert NatToString(15) == "15";
    assert NatToString(2024) == "2024";
  }

  lemma TimeExample()
    ensures Time(Some(SampleInstant)) == "10:30:45"
  {
    SampleDayAndTime();
    TimeAtHalfPastTen(SampleInstant);
  }

  /** Any instant 37845 seconds after its local midnight shows 10:30:45. */
  lemma TimeAtHalfPastTen(t: Timestamp)
    requires SecondOfDay(t) == 37845
    ensures Time(Some(t)) == "10:30:45"
  {
    var lt := Local(t);
    assert lt.hour == 37845 / 3600 == 10;
    assert lt.minute == 37845 % 3600 / 60 == 30;
    assert lt.second == 37845 % 60 == 45;
    FormatClockExample(lt.date);
    assert lt == LocalTime(lt.date, 10, 30, 45);
  }

  lemma FormatClockExample(date: CivilDate)
    ensures FormatClock(LocalTime(date, 10, 30, 45)) == "10:30:45"
  {
    assert NatToString(10) == "10";
    assert NatToString(30) == "30";
    assert NatToString(45) == "45";
  }
}
