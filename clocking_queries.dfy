/** The clockings a report covers: `user.clockings.where(clock_in: range)
    .order(:clock_in)`, with the window running from the first second of
    the start date to the last second of the end date. Both report
    builders fetch the same set. */
module ClockingQueries {
  import opened Common
  import opened Calendar
  import opened Clockings

  /** A clocking of user `u` whose clock-in lies in the window of days
      `start`..`end`. A missing clock-in never matches a range. */
  predicate InWindow(c: Clocking, u: int, start: Day, end: Day)
  {
    c.userId == u && c.clockIn.Some? && BeginningOfDay(start) <= c.clockIn.value <= EndOfDay(end)
  }

  /** The clockings of `rows` in the window, in table order. */
  function Window(rows: seq<Clocking>, u: int, start: Day, end: Day): (r: seq<Clocking>)
    ensures |r| <= |rows|
    ensures forall i :: 0 <= i < |r| ==> InWindow(r[i], u, start, end)
    ensures forall c :: c in r <==> c in rows && InWindow(c, u, start, end)
    ensures multiset(r) <= multiset(rows)
    ensures forall x :: multiset(r)[x] == if InWindow(x, u, start, end) then multiset(rows)[x] else 0
  {
    if rows == [] then []
    else
      var init := Window(rows[..|rows| - 1], u, start, end);
      var last := rows[|rows| - 1];
      assert rows == rows[..|rows| - 1] + [last];
      if InWindow(last, u, start, end) then init + [last] else init
  }

  /** The key `order(:clock_in)` sorts by. */
  function ClockInKey(c: Clocking): int
  {
    if c.clockIn.Some? then c.clockIn.value else 0
  }

  predicate SortedByClockIn(cs: seq<Clocking>)
  {
    forall i, j :: 0 <= i < j < |cs| ==> ClockInKey(cs[i]) <= ClockInKey(cs[j])
  }

  /** Inserts `c` after every element whose key is not greater. */
  function Insert(c: Clocking, cs: seq<Clocking>): (r: seq<Clocking>)
    requires SortedByClockIn(cs)
    ensures SortedByClockIn(r)
    ensures multiset(r) == multiset(cs) + multiset{c}
    ensures |r| == |cs| + 1
  {
    if cs == [] then [c]
    else if ClockInKey(c) < ClockInKey(cs[0]) then
      ConsSorted(c, cs);
      [c] + cs
    else
      var rest := Insert(c, cs[1..]);
      assert cs == [cs[0]] + cs[1..];
      LowerBound(cs[0], c, cs[1..], rest);
      ConsSorted(cs[0], rest);
      [cs[0]] + rest
  }

  /** A key not above the first of a sorted sequence may go in front. */
  lemma ConsSorted(x: Clocking, cs: seq<Clocking>)
    requires SortedByClockIn(cs)
    requires cs != [] ==> ClockInKey(x) <= ClockInKey(cs[0])
    ensures SortedByClockIn([x] + cs)
  {
    var r := [x] + cs;
    forall i, j | 0 <= i < j < |r| ensures ClockInKey(r[i]) <= ClockInKey(r[j]) {
      if i > 0 {
        assert r[i] == cs[i - 1] && r[j] == cs[j - 1];
      } else {
        assert r[j] == cs[j - 1];
      }
    }
  }

  /** `rest` holds `tail` and `c`; all of them are at least `head`'s key,
      so its first element is too. */
  lemma LowerBound(head: Clocking, c: Clocking, tail: seq<Clocking>, rest: seq<Clocking>)
    requires SortedByClockIn([head] + tail)
    requires ClockInKey(head) <= ClockInKey(c)
    requires multiset(rest) == multiset(tail) + multiset{c}
    ensures rest != [] ==> ClockInKey(head) <= ClockInKey(rest[0])
  {
    if rest != [] {
      assert rest[0] in multiset(rest);
      if rest[0] != c {
        assert rest[0] in multiset(tail);
        var k :| 0 <= k < |tail| && tail[k] == rest[0];
        var whole := [head] + tail;
        assert whole[0] == head && whole[k + 1] == tail[k];
        assert ClockInKey(whole[0]) <= ClockInKey(whole[k + 1]);
      }
    }
  }

  /** The clockings in ascending clock-in order. */
  function SortByClockIn(cs: seq<Clocking>): (r: seq<Clocking>)
    ensures SortedByClockIn(r)
    ensures multiset(r) == multiset(cs)
    ensures |r| == |cs|
  {
    if cs == [] then []
    else
      assert cs == cs[..|cs| - 1] + [cs[|cs| - 1]];
      Insert(cs[|cs| - 1], SortByClockIn(cs[..|cs| - 1]))
  }

  lemma SameMembers(a: seq<Clocking>, b: seq<Clocking>)
    requires multiset(a) == multiset(b)
    ensures forall c :: c in a <==> c in b
  {
    forall c ensures c in a <==> c in b {
      assert c in a <==> c in multiset(a);
      assert c in b <==> c in multiset(b);
    }
  }

  /** `fetch_clockings` / `clockings_batch`: exactly the user's clockings in
      the window, each as often as the table holds it, in ascending clock-in
      order. */
  function FetchClockings(rows: seq<Clocking>, u: int, start: Day, end: Day): (r: seq<Clocking>)
    ensures SortedByClockIn(r)
    ensures multiset(r) == multiset(Window(rows, u, start, end))
    ensures forall c :: c in r <==> c in rows && InWindow(c, u, start, end)
    ensures forall i :: 0 <= i < |r| ==> r[i].clockIn.Some?
  {
    var w := Window(rows, u, start, end);
    var r := SortByClockIn(w);
    SameMembers(r, w);
    assert forall i :: 0 <= i < |r| ==> r[i].clockIn.Some? by {
      forall i | 0 <= i < |r| ensures r[i].clockIn.Some? {
        assert r[i] in w;
      }
    }
    r
  }

  /** The window by calendar dates: a clocking is fetched exactly when it is
      the user's and its clock-in falls on a date from `start` to `end`. */
  lemma FetchedByDate(rows: seq<Clocking>, u: int, start: Day, end: Day, c: Clocking)
    ensures c in FetchClockings(rows, u, start, end) <==>
            c in rows && c.userId == u && c.clockIn.Some? && start <= DayOf(c.clockIn.value) <= end
  {
    if c.clockIn.Some? {
      WithinDays(c.clockIn.value, start, end);
    }
  }

  /** An end date before the start date selects nothing. */
  lemma {:induction false} EmptyWindow(rows: seq<Clocking>, u: int, start: Day, end: Day)
    requires end < start
    ensures Window(rows, u, start, end) == []
    ensures FetchClockings(rows, u, start, end) == []
  {
    if rows != [] {
      EmptyWindow(rows[..|rows| - 1], u, start, end);
      var last := rows[|rows| - 1];
      if last.clockIn.Some? {
        WithinDays(last.clockIn.value, start, end);
      }
    }
  }
}
