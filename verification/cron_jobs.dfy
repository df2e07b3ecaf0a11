/** The daily jobs (src/utils/cronJobs.ts): the payment-reminder invocation,
    the sweep that marks active, past-due organisations overdue and blocked,
    and the order in which the daily run performs them. The database and
    the edge function are parameters: each call's outcome is given. */
module CronJobs {
  import opened Wrappers
  import opened SeqOps

  /** The `organizations` columns the sweep reads and writes, as the table
      types them: every one may be null. The due date is a date column,
      kept as a UTC day number. */
  datatype OrgRow = OrgRow(
    id: string,
    subscriptionStatus: Option<string>,
    subscriptionDueDate: Option<int>,
    blocked: Option<bool>)

  /** The filter of the update: status `'active'` and a due date strictly
      before today. A null column matches neither test. */
  predicate IsPastDue(o: OrgRow, today: int) {
    && o.subscriptionStatus == Some("active")
    && o.subscriptionDueDate.Some?
    && o.subscriptionDueDate.value < today
  }

  /** The update applied to a matching row. */
  function MarkOverdue(o: OrgRow): OrgRow {
    o.(subscriptionStatus := Some("overdue"), blocked := Some(true))
  }

  function PastDue(today: int): OrgRow -> bool {
    (o: OrgRow) => IsPastDue(o, today)
  }

  /** The table after the update, and the rows `.select()` returns: the
      updated rows. The database promises no order for them; the model
      lists them in table order. */
  datatype SweepResult = SweepResult(rows: seq<OrgRow>, updated: seq<OrgRow>)

  function MapRows(rows: seq<OrgRow>, f: OrgRow -> OrgRow): (r: seq<OrgRow>)
    ensures |r| == |rows|
    ensures forall i :: 0 <= i < |rows| ==> r[i] == f(rows[i])
  {
    seq(|rows|, i requires 0 <= i < |rows| => f(rows[i]))
  }

  /** The update statement of `updateSubscriptionStatuses`, on a table
      `orgs` and the UTC day `today`. */
  function Sweep(orgs: seq<OrgRow>, today: int): (r: SweepResult)
    ensures |r.rows| == |orgs|
    ensures forall i :: 0 <= i < |orgs| && IsPastDue(orgs[i], today) ==>
      r.rows[i].id == orgs[i].id && r.rows[i].subscriptionDueDate == orgs[i].subscriptionDueDate &&
      r.rows[i].subscriptionStatus == Some("overdue") && r.rows[i].blocked == Some(true)
    ensures forall i :: 0 <= i < |orgs| && !IsPastDue(orgs[i], today) ==> r.rows[i] == orgs[i]
    ensures |r.updated| <= |orgs|
  {
    var rows := seq(|orgs|, i requires 0 <= i < |orgs| =>
                      if IsPastDue(orgs[i], today) then MarkOverdue(orgs[i]) else orgs[i]);
    SweepResult(rows, MapRows(Filter(orgs, PastDue(today)), MarkOverdue))
  }

  /** The rows returned are exactly the past-due rows, each as updated. */
  lemma UpdatedRowsArePastDueRows(orgs: seq<OrgRow>, today: int)
    ensures forall x :: x in Sweep(orgs, today).updated <==>
      exists i :: 0 <= i < |orgs| && IsPastDue(orgs[i], today) && x == MarkOverdue(orgs[i])
    ensures forall x :: x in Sweep(orgs, today).updated ==> x in Sweep(orgs, today).rows
  {
    var r := Sweep(orgs, today);
    var f := Filter(orgs, PastDue(today));
    forall x | x in r.updated
      ensures exists i :: 0 <= i < |orgs| && IsPastDue(orgs[i], today) && x == MarkOverdue(orgs[i])
    {
      var k :| 0 <= k < |r.updated| && r.updated[k] == x;
      assert f[k] in f;
      var i :| 0 <= i < |orgs| && orgs[i] == f[k];
      assert r.rows[i] == x;
    }
    forall i | 0 <= i < |orgs| && IsPastDue(orgs[i], today)
      ensures MarkOverdue(orgs[i]) in r.updated
    {
      assert orgs[i] in f;
      var k :| 0 <= k < |f| && f[k] == orgs[i];
      assert r.updated[k] == MarkOverdue(orgs[i]);
    }
  }

  /** An organisation due today is not touched. */
  lemma DueTodayIsUntouched(orgs: seq<OrgRow>, today: int, i: int)
    requires 0 <= i < |orgs| && orgs[i].subscriptionDueDate == Some(today)
    ensures Sweep(orgs, today).rows[i] == orgs[i]
  {
  }

  /** No row is past due after the sweep. */
  lemma SweepLeavesNothingPastDue(orgs: seq<OrgRow>, today: int)
    ensures forall x :: x in Sweep(orgs, today).rows ==> !IsPastDue(x, today)
  {
  }

  /** A second sweep on the same day changes nothing and updates no row. */
  lemma SweepIsIdempotent(orgs: seq<OrgRow>, today: int)
    ensures Sweep(Sweep(orgs, today).rows, today).rows == Sweep(orgs, today).rows
    ensures Sweep(Sweep(orgs, today).rows, today).updated == []
  {
    var once := Sweep(orgs, today).rows;
    SweepLeavesNothingPastDue(orgs, today);
    var twice := Sweep(once, today);
    assert forall i :: 0 <= i < |once| ==> twice.rows[i] == once[i];
    assert forall i :: 0 <= i < |once| ==> once[i] in once;
    FilterKeepsNone(once, PastDue(today));
  }

  // ---- the result wrapping ----

  /** What the error value carries; the jobs pass it on untouched. */
  datatype ErrorValue = ErrorValue(description: string)

  /** How a call to the backend ends: a response with data, a response with
      an error, or an exception. */
  datatype CallOutcome<D> = ReturnedData(data: D) | ReturnedError(error: ErrorValue) | Threw(thrown: ErrorValue)

  /** `{ success: true, data }` or `{ success: false, error }`. */
  datatype JobResult<D> = JobSucceeded(data: D) | JobFailed(error: ErrorValue)
  {
    predicate Success() {
      JobSucceeded?
    }
  }

  /** The try/catch shared by both jobs: an error in the response and a
      thrown value both become a failed result. */
  function Wrap<D>(o: CallOutcome<D>): (r: JobResult<D>)
    ensures r.Success() <==> o.ReturnedData?
    ensures o.ReturnedData? ==> r == JobSucceeded(o.data)
    ensures o.ReturnedError? ==> r == JobFailed(o.error)
    ensures o.Threw? ==> r == JobFailed(o.thrown)
  {
    match o
    case ReturnedData(d) => JobSucceeded(d)
    case ReturnedError(e) => JobFailed(e)
    case Threw(e) => JobFailed(e)
  }

  /** `sendPaymentReminders()`: the edge function's data, or its error. */
  function SendPaymentReminders<D>(invocation: CallOutcome<D>): (r: JobResult<D>)
    ensures r.Success() <==> invocation.ReturnedData?
    ensures !r.Success() ==> r.error == (if invocation.ReturnedError? then invocation.error else invocation.thrown)
  {
    Wrap(invocation)
  }

  /** How the update request ends. On success the database applies the
      sweep; on an error or an exception it applies nothing. */
  datatype UpdateFault = NoFault | UpdateError(error: ErrorValue) | UpdateThrew(thrown: ErrorValue)

  /** `updateSubscriptionStatuses()`: the table afterwards and the job's
      result. */
  function UpdateSubscriptionStatuses(orgs: seq<OrgRow>, today: int, fault: UpdateFault): (r: (seq<OrgRow>, JobResult<seq<OrgRow>>))
    ensures fault.NoFault? ==> r.0 == Sweep(orgs, today).rows && r.1 == JobSucceeded(Sweep(orgs, today).updated)
    ensures !fault.NoFault? ==> r.0 == orgs && !r.1.Success()
    ensures fault.UpdateError? ==> r.1.error == fault.error
    ensures fault.UpdateThrew? ==> r.1.error == fault.thrown
  {
    var outcome := match fault
      case NoFault => ReturnedData(Sweep(orgs, today).updated)
      case UpdateError(e) => ReturnedError(e)
      case UpdateThrew(e) => Threw(e);
    (if fault.NoFault? then Sweep(orgs, today).rows else orgs, Wrap(outcome))
  }

  // ---- the daily run ----

  /** What `executeDailyCronJobs()` does, awaiting one job after the other:
      the table the reminder function ran against and its result, the
      sweep's result, and the table afterwards. The function itself returns
      nothing, so neither result reaches its caller. */
  datatype DailyRun<D> = DailyRun(
    remindersSaw: seq<OrgRow>,
    reminders: JobResult<D>,
    sweep: JobResult<seq<OrgRow>>,
    orgs: seq<OrgRow>)

  /** `remind(t)` is how the reminder edge function's invocation ends when it
      runs against the table `t`. */
  function ExecuteDailyCronJobs<D>(orgs: seq<OrgRow>, today: int, remind: seq<OrgRow> -> CallOutcome<D>,
                                   fault: UpdateFault): (run: DailyRun<D>)
    ensures run.remindersSaw == orgs
    ensures run.reminders.Success() <==> remind(orgs).ReturnedData?
    ensures fault.NoFault? ==> run.orgs == Sweep(orgs, today).rows && run.sweep == JobSucceeded(Sweep(orgs, today).updated)
    ensures !fault.NoFault? ==> run.orgs == orgs && !run.sweep.Success()
  {
    var reminders := SendPaymentReminders(remind(orgs));
    var (after, swept) := UpdateSubscriptionStatuses(orgs, today, fault);
    DailyRun(orgs, reminders, swept, after)
  }

  /** The reminders run first: they see every past-due organisation still
      active and unblocked as it was, and their result does not depend on
      how the sweep ends. */
  lemma RemindersRunBeforeSweep<D>(orgs: seq<OrgRow>, today: int, remind: seq<OrgRow> -> CallOutcome<D>,
                                   f1: UpdateFault, f2: UpdateFault, i: int)
    requires 0 <= i < |orgs| && IsPastDue(orgs[i], today)
    ensures ExecuteDailyCronJobs(orgs, today, remind, f1).remindersSaw[i].subscriptionStatus == Some("active")
    ensures f1.NoFault? ==> ExecuteDailyCronJobs(orgs, today, remind, f1).orgs[i].subscriptionStatus == Some("overdue")
    ensures ExecuteDailyCronJobs(orgs, today, remind, f1).reminders == ExecuteDailyCronJobs(orgs, today, remind, f2).reminders
  {
  }

  /** The sweep runs whether or not the reminders failed: the sweep's result
      and the table afterwards do not depend on the reminder outcome. */
  lemma SweepIgnoresReminderOutcome<D>(orgs: seq<OrgRow>, today: int, a: seq<OrgRow> -> CallOutcome<D>,
                                       b: seq<OrgRow> -> CallOutcome<D>, fault: UpdateFault)
    ensures ExecuteDailyCronJobs(orgs, today, a, fault).orgs == ExecuteDailyCronJobs(orgs, today, b, fault).orgs
    ensures ExecuteDailyCronJobs(orgs, today, a, fault).sweep == ExecuteDailyCronJobs(orgs, today, b, fault).sweep
  {
  }

  /** `new Date().toISOString().split('T')[0]` is today's UTC date: the day
      number of the current instant, rounded down. */
  function TodayOf(nowMs: int): (day: int)
    ensures day * 86400000 <= nowMs < (day + 1) * 86400000
  {
    nowMs / 86400000
  }
}
