/** The subscription flags of the signed-in organisation
    (src/hooks/auth/useSubscriptionStatus.ts): `isBlocked` and
    `subscriptionExpiringSoon`, as they stand once the hook's effect has
    run. The clock is a parameter: `nowMs`, milliseconds since the epoch. */
module SubscriptionStatus {
  import opened Wrappers

  const MsPerDay: int := 86400000

  datatype PlanStatus = Active | Overdue | Canceled | Permanent

  /** The organisation fields the hook reads. `subscriptionDueDate` is a
      date-only string, which `new Date` reads as UTC midnight: it is kept
      as a UTC day number, `None` when it does not parse (an invalid date,
      whose arithmetic gives NaN). */
  datatype Organization = Organization(
    id: string,
    subscriptionStatus: PlanStatus,
    subscriptionDueDate: Option<int>,
    blocked: bool)

  datatype SubscriptionFlags = SubscriptionFlags(isBlocked: bool, subscriptionExpiringSoon: bool)

  /** `Math.ceil(a / b)` for a positive divisor. */
  function CeilDiv(a: int, b: int): (q: int)
    requires b > 0
    ensures (q - 1) * b < a <= q * b
  {
    -((-a) / b)
  }

  /** `Math.ceil((dueDate - now) / day)`: whole days until the due date,
      rounded up. */
  function DiffDays(dueDay: int, nowMs: int): int {
    CeilDiv(dueDay * MsPerDay - nowMs, MsPerDay)
  }

  /** Rounding up from the current instant counts calendar days: the
      difference is the due date's UTC day minus today's UTC day. */
  lemma DiffDaysCountsCalendarDays(dueDay: int, nowMs: int)
    ensures DiffDays(dueDay, nowMs) == dueDay - nowMs / MsPerDay
  {
    var q := DiffDays(dueDay, nowMs);
    var today := nowMs / MsPerDay;
    assert today * MsPerDay <= nowMs < (today + 1) * MsPerDay;
    assert (q - 1) * MsPerDay < dueDay * MsPerDay - nowMs <= q * MsPerDay;
    assert (q - 1) * MsPerDay < (dueDay - today) * MsPerDay;
    assert (dueDay - today - 1) * MsPerDay < q * MsPerDay;
  }

  /** `diffDays <= 7 && diffDays > 0 && status === 'active'`. */
  predicate ExpiringSoon(org: Organization, nowMs: int) {
    && org.subscriptionDueDate.Some?
    && 0 < DiffDays(org.subscriptionDueDate.value, nowMs) <= 7
    && org.subscriptionStatus == Active
  }

  /** `useSubscriptionStatus(organization)`. */
  function UseSubscriptionStatus(organization: Option<Organization>, nowMs: int): (f: SubscriptionFlags)
    ensures organization.None? ==> !f.isBlocked && !f.subscriptionExpiringSoon
    ensures organization.Some? ==> f.isBlocked == organization.value.blocked
    ensures f.subscriptionExpiringSoon ==> organization.Some? && organization.value.subscriptionStatus == Active
  {
    match organization
    case None => SubscriptionFlags(false, false)
    case Some(org) => SubscriptionFlags(org.blocked, ExpiringSoon(org, nowMs))
  }

  /** Expiring soon means: active, and due one to seven UTC days after
      today. */
  lemma ExpiringSoonIffWithinAWeek(org: Organization, nowMs: int)
    ensures UseSubscriptionStatus(Some(org), nowMs).subscriptionExpiringSoon <==>
      && org.subscriptionStatus == Active
      && org.subscriptionDueDate.Some?
      && 1 <= org.subscriptionDueDate.value - nowMs / MsPerDay <= 7
  {
    if org.subscriptionDueDate.Some? {
      DiffDaysCountsCalendarDays(org.subscriptionDueDate.value, nowMs);
    }
  }

  /** A due date today or earlier is never "expiring soon". */
  lemma DueOrPastIsNotExpiring(org: Organization, nowMs: int)
    requires org.subscriptionDueDate.Some? && org.subscriptionDueDate.value <= nowMs / MsPerDay
    ensures !UseSubscriptionStatus(Some(org), nowMs).subscriptionExpiringSoon
  {
    ExpiringSoonIffWithinAWeek(org, nowMs);
  }
}
