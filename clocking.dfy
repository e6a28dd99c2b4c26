/** `Clocking`: one clock-in/clock-out record of a user, its validations and
    the table of records that `create` and `update` change. */
module Clockings {
  import opened Common
  import opened Calendar

  /** A row of the clockings table. A missing clock-out is an open clocking. */
  datatype Clocking = Clocking(userId: int, clockIn: Option<Timestamp>, clockOut: Option<Timestamp>)
  {
    predicate IsOpen() { clockOut.None? }
  }

  // ---------------------------------------------------------------------
  // Validations, in the order the model declares them
  // ---------------------------------------------------------------------

  /** `validates :clock_in, presence: true`. */
  function PresenceErrors(c: Clocking): (errs: seq<FieldError>)
    ensures errs == [] <==> c.clockIn.Some?
    ensures errs != [] ==> errs == [FieldError("clock_in", "can't be blank")]
  {
    if c.clockIn.None? then [FieldError("clock_in", "can't be blank")] else []
  }

  predicate ClockOutBeforeClockIn(c: Clocking)
  {
    c.clockIn.Some? && c.clockOut.Some? && c.clockOut.value < c.clockIn.value
  }

  /** `clock_out_after_clock_in` as written: skipped when either time is
      missing, and rejecting only a clock-out strictly before the clock-in. */
  function OrderingErrors(c: Clocking): (errs: seq<FieldError>)
    ensures c.clockOut.None? || c.clockIn.None? ==> errs == []
    ensures errs != [] <==> ClockOutBeforeClockIn(c)
    ensures errs != [] ==> errs == [FieldError("clock_out", "must be after clock in time")]
  {
    if c.clockOut.None? || c.clockIn.None? then []
    else if c.clockOut.value < c.clockIn.value then [FieldError("clock_out", "must be after clock in time")]
    else []
  }

  /** The ordering check as its message and the model's tests intend it: a
      clock-out must come strictly after the clock-in. */
  function IntendedOrderingErrors(c: Clocking): (errs: seq<FieldError>)
    ensures errs != [] <==> c.clockIn.Some? && c.clockOut.Some? && c.clockOut.value <= c.clockIn.value
    ensures errs != [] ==> errs == [FieldError("clock_out", "must be after clock in time")]
  {
    if c.clockOut.None? || c.clockIn.None? then []
    else if c.clockOut.value <= c.clockIn.value then [FieldError("clock_out", "must be after clock in time")]
    else []
  }

  /** A clocking that closes at the very second it opens passes the check as
      written, and is rejected by the intended one. */
  lemma EqualTimestampsPass(u: int, t: Timestamp)
    ensures OrderingErrors(Clocking(u, Some(t), Some(t))) == []
    ensures IntendedOrderingErrors(Clocking(u, Some(t), Some(t))) != []
  {
  }

  /** The two checks differ on equal timestamps only. */
  lemma IntendedDiffersOnlyOnEqual(c: Clocking)
    ensures (OrderingErrors(c) == IntendedOrderingErrors(c)) <==>
            !(c.clockIn.Some? && c.clockOut.Some? && c.clockOut.value == c.clockIn.value)
  {
  }

  /** The number of open clockings of user `u`. */
  function OpenCount(rows: seq<Clocking>, u: int): nat
  {
    if rows == [] then 0
    else OpenCount(rows[..|rows| - 1], u) + (if rows[|rows| - 1].userId == u && rows[|rows| - 1].IsOpen() then 1 else 0)
  }

  /** `Clocking.exists?(user_id: user_id, clock_out: nil)`. */
  predicate HasOpen(rows: seq<Clocking>, u: int)
  {
    exists i :: 0 <= i < |rows| && rows[i].userId == u && rows[i].IsOpen()
  }

  lemma HasOpenLast(rows: seq<Clocking>, u: int)
    requires rows != []
    ensures var last := rows[|rows| - 1];
            HasOpen(rows, u) <==> HasOpen(rows[..|rows| - 1], u) || (last.userId == u && last.IsOpen())
  {
    var init := rows[..|rows| - 1];
    if HasOpen(rows, u) {
      var i :| 0 <= i < |rows| && rows[i].userId == u && rows[i].IsOpen();
      if i < |init| {
        assert init[i] == rows[i];
      }
    }
    if HasOpen(init, u) {
      var i :| 0 <= i < |init| && init[i].userId == u && init[i].IsOpen();
      assert rows[i] == init[i];
    }
  }

  lemma {:induction false} OpenCountZero(rows: seq<Clocking>, u: int)
    ensures OpenCount(rows, u) == 0 <==> !HasOpen(rows, u)
  {
    if rows != [] {
      OpenCountZero(rows[..|rows| - 1], u);
      HasOpenLast(rows, u);
    }
  }

  lemma {:induction false} OpenCountAppend(rows: seq<Clocking>, c: Clocking, u: int)
    ensures OpenCount(rows + [c], u) == OpenCount(rows, u) + (if c.userId == u && c.IsOpen() then 1 else 0)
  {
    assert (rows + [c])[..|rows|] == rows;
  }

  /** At most one open clocking per user: the rule `single_open_clocking`
      exists to keep. */
  ghost predicate SingleOpenPerUser(rows: seq<Clocking>)
  {
    forall u :: OpenCount(rows, u) <= 1
  }

  /** `single_open_clocking`, run on create only: any open clocking of the
      same user blocks the new record, whether or not the new record is itself
      open. */
  function OpenClockingErrors(rows: seq<Clocking>, c: Clocking): (errs: seq<FieldError>)
    ensures errs != [] <==> HasOpen(rows, c.userId)
    ensures errs != [] ==> errs == [FieldError("base", "User already has an open clocking")]
  {
    if HasOpen(rows, c.userId) then [FieldError("base", "User already has an open clocking")] else []
  }

  /** The errors `create` collects: user, presence, ordering, open
      clocking. */
  function CreateErrors(users: set<int>, rows: seq<Clocking>, c: Clocking): (errs: seq<FieldError>)
    ensures errs == [] <==> c.userId in users && c.clockIn.Some? && !ClockOutBeforeClockIn(c) && !HasOpen(rows, c.userId)
    ensures c.userId !in users ==> FieldError("user", "must exist") in errs
    ensures c.clockIn.None? ==> FieldError("clock_in", "can't be blank") in errs
    ensures HasOpen(rows, c.userId) ==> FieldError("base", "User already has an open clocking") in errs
    ensures ClockOutBeforeClockIn(c) ==> FieldError("clock_out", "must be after clock in time") in errs
  {
    UserErrors(c.userId, users) + PresenceErrors(c) + OrderingErrors(c) + OpenClockingErrors(rows, c)
  }

  /** The errors `update` collects: the open-clocking check is not run. */
  function UpdateErrors(users: set<int>, c: Clocking): (errs: seq<FieldError>)
    ensures errs == [] <==> c.userId in users && c.clockIn.Some? && !ClockOutBeforeClockIn(c)
  {
    UserErrors(c.userId, users) + PresenceErrors(c) + OrderingErrors(c)
  }

  /** A successful create keeps at most one open clocking per user. */
  lemma CreatePreservesSingleOpen(users: set<int>, rows: seq<Clocking>, c: Clocking)
    requires SingleOpenPerUser(rows)
    requires CreateErrors(users, rows, c) == []
    ensures SingleOpenPerUser(rows + [c])
  {
    forall u ensures OpenCount(rows + [c], u) <= 1 {
      OpenCountAppend(rows, c, u);
      if c.userId == u {
        OpenCountZero(rows, u);
      }
    }
  }

  /** Other users' open clockings never block a create. */
  lemma OtherUsersNeverBlock(rows: seq<Clocking>, c: Clocking)
    requires forall i :: 0 <= i < |rows| && rows[i].IsOpen() ==> rows[i].userId != c.userId
    ensures OpenClockingErrors(rows, c) == []
  {
  }

  /** Closing an open clocking passes `update` for any clock-out not before
      its clock-in, even while the clocking is the user's open one. */
  lemma ClosingOnUpdateAllowed(users: set<int>, rows: seq<Clocking>, i: nat, out: Timestamp)
    requires i < |rows| && rows[i].clockIn.Some? && rows[i].IsOpen() && rows[i].userId in users
    requires rows[i].clockIn.value <= out
    ensures UpdateErrors(users, rows[i].(clockOut := Some(out))) == []
  {
  }

  /** Because `update` skips the open-clocking check, reopening a closed
      clocking can give a user two open clockings. */
  lemma UpdateCanBreakSingleOpen()
    ensures var rows := [Clocking(1, Some(0), None), Clocking(1, Some(0), Some(3600))];
            var reopened := Clocking(1, Some(0), None);
            SingleOpenPerUser(rows) && UpdateErrors({1}, reopened) == [] &&
            OpenCount(rows[1 := reopened], 1) == 2
  {
    var open, closed := Clocking(1, Some(0), None), Clocking(1, Some(0), Some(3600));
    assert [open] == [] + [open];
    assert [open, closed] == [open] + [closed];
    assert [open, open] == [open] + [open];
    forall u ensures OpenCount([open, closed], u) <= 1 {
      OpenCountAppend([], open, u);
      OpenCountAppend([open], closed, u);
    }
    OpenCountAppend([], open, 1);
    OpenCountAppend([open], open, 1);
  }

  /** The clockings table. `Create` and `Update` return the validation errors
      and change the table only when there are none. */
  class ClockingLedger {
    var rows: seq<Clocking>

    constructor ()
      ensures rows == [] && SingleOpenPerUser(rows)
    {
      rows := [];
    }

    /** `Clocking.create(attrs)`: validates against the current table,
        then inserts. A failed validation inserts nothing. `users` holds
        the ids of the existing users. */
    method Create(users: set<int>, c: Clocking) returns (errors: seq<FieldError>)
      modifies this
      ensures errors == CreateErrors(users, old(rows), c)
      ensures rows == if errors == [] then old(rows) + [c] else old(rows)
      ensures old(SingleOpenPerUser(rows)) ==> SingleOpenPerUser(rows)
    {
      errors := UserErrors(c.userId, users) + PresenceErrors(c) + OrderingErrors(c) + OpenClockingErrors(rows, c);
      if errors == [] {
        if SingleOpenPerUser(rows) {
          CreatePreservesSingleOpen(users, rows, c);
        }
        rows := rows + [c];
      }
    }

    /** `clocking.update(attrs)` on the row at `index`: only the user,
        presence and ordering are checked. */
    method Update(users: set<int>, index: nat, c: Clocking) returns (errors: seq<FieldError>)
      requires index < |rows|
      modifies this
      ensures errors == UpdateErrors(users, c)
      ensures rows == if errors == [] then old(rows)[index := c] else old(rows)
    {
      errors := UserErrors(c.userId, users) + PresenceErrors(c) + OrderingErrors(c);
      if errors == [] {
        rows := rows[index := c];
      }
    }
  }
}
