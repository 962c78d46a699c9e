/**
  Cron schedules as the scheduler sees them: a function from an instant to the
  next slot after it, and the rows a job already has.
 */
module Schedules {
  import opened Options

  const MINUTE := 60_000_000_000  // nanoseconds

  /** The next slot strictly after an instant, or None when there is none. */
  type Next = int -> Option<int>

  ghost predicate ValidSchedule(next: Next) {
    && (forall t: int :: next(t).Some? ==> next(t).value > t && next(t).value % MINUTE == 0)
    && (forall t: int, u: int | t <= u :: next(t).Some? && u < next(t).value ==> next(u) == next(t))
    && (forall t: int, u: int | t <= u :: next(t).None? ==> next(u).None?)
  }

  predicate IsSlot(next: Next, x: int) {
    next(x - 1) == Some(x)
  }

  /** time.Truncate(time.Minute). */
  function MinuteOf(t: int): int {
    t - t % MINUTE
  }

  lemma NextIsTheNextSlot(next: Next, t: int)
    requires ValidSchedule(next)
    ensures next(t).Some? ==> IsSlot(next, next(t).value) && MinuteOf(next(t).value) == next(t).value
    ensures forall x | t < x && IsSlot(next, x) :: next(t).Some? && next(t).value <= x
  {
    if next(t).Some? {
      assert next(next(t).value - 1) == next(t);
    }
    forall x | t < x && IsSlot(next, x)
      ensures next(t).Some? && next(t).value <= x
    {
      assert next(x - 1) == Some(x);
    }
  }

  function Slots(next: Next, lo: int, hi: int): set<int> {
    set x | lo < x <= hi && IsSlot(next, x)
  }

  lemma SlotsAfterNext(next: Next, lo: int, hi: int)
    requires ValidSchedule(next)
    ensures next(lo).None? || next(lo).value > hi ==> Slots(next, lo, hi) == {}
    ensures next(lo).Some? && next(lo).value <= hi ==>
              Slots(next, lo, hi) == {next(lo).value} + Slots(next, next(lo).value, hi)
  {
    NextIsTheNextSlot(next, lo);
  }

  // ---------- Execution rows of one job ----------

  datatype Trigger = Scheduled | Manual

  /** Rows keyed by scheduled_at, which is unique per job. */
  type Rows = map<int, Trigger>

  /** Every slot after `lo` up to `hi` has a row. */
  ghost predicate Covered(next: Next, rows: Rows, lo: int, hi: int) {
    forall x | lo < x <= hi && IsSlot(next, x) :: x in rows
  }

  /** No gap below any scheduled row: recovery may resume from the latest one. */
  ghost predicate GapFree(next: Next, rows: Rows, created: int) {
    forall x | x in rows && rows[x].Scheduled? :: Covered(next, rows, created, x)
  }

  /** Inserting a scheduled row; an existing row of either kind stays as it is. */
  function WithRow(rows: Rows, x: int): Rows {
    if x in rows then rows else rows[x := Scheduled]
  }

  // ---------- The latest scheduled row ----------

  /** `latest` is the greatest scheduled time, None if there is none. */
  ghost predicate IsLatest(rows: Rows, latest: Option<int>) {
    && (latest.Some? ==> latest.value in rows && rows[latest.value].Scheduled?)
    && (forall x | x in rows && rows[x].Scheduled? :: latest.Some? && x <= latest.value)
  }

  /** SELECT scheduled_at ... ORDER BY scheduled_at DESC LIMIT 1. */
  method GetLastScheduledExecution(rows: Rows) returns (latest: Option<int>)
    ensures IsLatest(rows, latest)
  {
    var rest := rows.Items;
    latest := None;
    while rest != {}
      invariant rest <= rows.Items
      invariant latest.Some? ==> latest.value in rows && rows[latest.value].Scheduled?
      invariant forall x | x in rows && rows[x].Scheduled? ::
                  (x, rows[x]) in rest || (latest.Some? && x <= latest.value)
      decreases rest
    {
      var row :| row in rest;
      rest := rest - {row};
      if row.1.Scheduled? && (latest.None? || latest.value < row.0) {
        latest := Some(row.0);
      }
    }
  }
}
