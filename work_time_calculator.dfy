/** `Reports::Calculators::WorkTimeCalculator`: seconds worked on a
    clocking, and the duration labels of one clocking and of a list. */
module WorkTimeCalculator {
  import opened Common
  import opened Text
  import opened Calendar
  import opened Clockings
  import opened DateTimeFormatter

  /** `seconds_worked`: 0 unless both times are present, otherwise the time
      from clock-in to clock-out. Timestamps are whole seconds, so the
      `to_i` truncation loses nothing. */
  function SecondsWorked(c: Clocking): (r: int)
    ensures c.clockIn.None? || c.clockOut.None? ==> r == 0
    ensures c.clockIn.Some? && c.clockOut.Some? ==> c.clockIn.value + r == c.clockOut.value
  {
    if c.clockIn.None? || c.clockOut.None? then 0 else c.clockOut.value - c.clockIn.value
  }

  /** `hours_worked`: the duration label of the seconds worked. An open
      clocking shows "-". */
  function HoursWorked(c: Clocking): (r: string)
    ensures c.IsOpen() ==> r == "-"
    ensures r == "-" <==> SecondsWorked(c) == 0
    ensures r != "-" ==> ParseDuration(r) == Some(DurationParts(SecondsWorked(c) / 3600, SecondsWorked(c) % 3600 / 60))
  {
    Duration(SecondsWorked(c))
  }

  /** `clockings.sum { |c| seconds_worked(c) }`. */
  function TotalSeconds(cs: seq<Clocking>): int
  {
    if cs == [] then 0 else TotalSeconds(cs[..|cs| - 1]) + SecondsWorked(cs[|cs| - 1])
  }

  lemma {:induction false} TotalSecondsAppend(a: seq<Clocking>, b: seq<Clocking>)
    ensures TotalSeconds(a + b) == TotalSeconds(a) + TotalSeconds(b)
    decreases |b|
  {
    if b == [] {
      assert a + b == a;
    } else {
      assert (a + b)[..|a + b| - 1] == a + b[..|b| - 1];
      TotalSecondsAppend(a, b[..|b| - 1]);
    }
  }

  /** Open clockings add nothing to the total. */
  lemma {:induction false} OpenClockingsAddNothing(cs: seq<Clocking>, open: seq<Clocking>)
    requires forall i :: 0 <= i < |open| ==> open[i].IsOpen()
    ensures TotalSeconds(cs + open) == TotalSeconds(cs)
    decreases |open|
  {
    if open == [] {
      assert cs + open == cs;
    } else {
      assert (cs + open)[..|cs + open| - 1] == cs + open[..|open| - 1];
      OpenClockingsAddNothing(cs, open[..|open| - 1]);
    }
  }

  /** When no clocking has a negative worked time, the total is never
      negative, and it is zero exactly when every clocking's time is. */
  lemma {:induction false} TotalOfOrderedClockings(cs: seq<Clocking>)
    requires forall i :: 0 <= i < |cs| ==> SecondsWorked(cs[i]) >= 0
    ensures TotalSeconds(cs) >= 0
    ensures TotalSeconds(cs) == 0 <==> forall i :: 0 <= i < |cs| ==> SecondsWorked(cs[i]) == 0
  {
    if cs != [] {
      var init := cs[..|cs| - 1];
      assert forall i :: 0 <= i < |init| ==> init[i] == cs[i];
      TotalOfOrderedClockings(init);
    }
  }

  /** `total_hours`: the duration label of the summed seconds; an empty list
      shows "-". */
  function TotalHours(cs: seq<Clocking>): (r: string)
    ensures cs == [] ==> r == "-"
    ensures r == "-" <==> TotalSeconds(cs) == 0
    ensures r != "-" ==> ParseDuration(r) == Some(DurationParts(TotalSeconds(cs) / 3600, TotalSeconds(cs) % 3600 / 60))
  {
    Duration(TotalSeconds(cs))
  }

  /** One hour of work is 3600 seconds and is labelled "1h 0min". */
  lemma OneHourExample(u: int, t: Timestamp)
    ensures SecondsWorked(Clocking(u, Some(t), Some(t + 3600))) == 3600
    ensures HoursWorked(Clocking(u, Some(t), Some(t + 3600))) == "1h 0min"
  {
    assert 3600 / 3600 == 1 && 3600 % 3600 / 60 == 0;
  }

  /** 8h, 7h30 and 9h total "24h 30min". */
  lemma ThreeDaysExample(u: int, t1: Timestamp, t2: Timestamp, t3: Timestamp)
    ensures TotalHours([Clocking(u, Some(t1), Some(t1 + 28800)),
                        Clocking(u, Some(t2), Some(t2 + 27000)),
                        Clocking(u, Some(t3), Some(t3 + 32400))]) == "24h 30min"
  {
    var a, b, c := Clocking(u, Some(t1), Some(t1 + 28800)), Clocking(u, Some(t2), Some(t2 + 27000)), Clocking(u, Some(t3), Some(t3 + 32400));
    ThreeDaysSeconds(a, b, c);
    Duration88200();
  }

  lemma ThreeDaysSeconds(a: Clocking, b: Clocking, c: Clocking)
    requires SecondsWorked(a) == 28800 && SecondsWorked(b) == 27000 && SecondsWorked(c) == 32400
    ensures TotalSeconds([a, b, c]) == 88200
  {
    assert [a, b, c][..2] == [a, b] && [a, b][..1] == [a] && [a][..0] == [];
    assert TotalSeconds([a]) == 28800;
    assert TotalSeconds([a, b]) == 55800;
  }

  lemma Duration88200()
    ensures Duration(88200) == "24h 30min"
  {
    assert 88200 / 3600 == 24 && 88200 % 3600 / 60 == 30;
    assert NatToString(24) == "24" && NatToString(30) == "30" && IntToString(24) == "24";
    assert DurationText(DurationParts(24, 30)) == "24h 30min";
  }

  /** An 8h clocking and an open one total "8h 0min". */
  lemma OpenClockingExample(u: int, t1: Timestamp, t2: Timestamp)
    ensures TotalHours([Clocking(u, Some(t1), Some(t1 + 28800)), Clocking(u, Some(t2), None)]) == "8h 0min"
  {
    var a, b := Clocking(u, Some(t1), Some(t1 + 28800)), Clocking(u, Some(t2), None);
    assert [a, b][..1] == [a] && [a][..0] == [];
    assert TotalSeconds([a]) == 28800;
    assert TotalSeconds([a, b]) == 28800;
    assert 28800 / 3600 == 8 && 28800 % 3600 / 60 == 0;
  }
}
