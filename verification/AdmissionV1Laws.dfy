/** What v1 answers: acceptance, refusal or doubt, for which reason, and with which numbers. */
module AdmissionV1Laws {
  import opened Prelude
  import opened Decisions
  import opened WorkOrders
  import opened Readiness
  import opened BusinessDays
  import opened AdmissionV1

  // ---- The problems that keep v1 from deciding, in the order in which they are looked for --------

  /** The problem is present; each is stated on its own, given that those before it are not. */
  ghost predicate Problem(x: Inputs, now: int, n: nat) {
    match n
    case 0 => x.readiness.None? || x.readiness.value.state == NotEvaluated
    case 1 => x.readiness.Some? && x.readiness.value.state == NotReady
    case 2 => x.readiness.Some? && !EvidenceComplete(x.readiness.value)
    case 3 => x.readiness.Some? && x.readiness.value.evaluatedAt.Some? && now < x.readiness.value.evaluatedAt.value
    case 4 => x.readiness.Some? && x.readiness.value.expiresAt.Some? && x.readiness.value.expiresAt.value <= now
    case 5 => x.snapshot.None?
    case 6 => x.snapshot.Some? && !x.snapshot.value.schemaOk
    case 7 => x.snapshot.Some? && (x.snapshot.value.staffed.None? || x.snapshot.value.staffed.value < 0)
    case 8 => x.snapshot.Some? && (x.snapshot.value.asOf.None? || x.snapshot.value.expiresAt.None?)
    case 9 => x.snapshot.Some? && x.snapshot.value.asOf.Some? && x.snapshot.value.expiresAt.Some?
              && (x.snapshot.value.expiresAt.value <= x.snapshot.value.asOf.value || now < x.snapshot.value.asOf.value)
    case 10 => x.snapshot.Some? && x.snapshot.value.expiresAt.Some? && x.snapshot.value.expiresAt.value <= now
    case 11 => x.workOrders.None?
    case 12 => x.reserved.None? || x.reserved.value < 0
    case 13 => x.snapshot.Some? && !x.snapshot.value.wellFormed
    case 14 => x.readiness.Some? && (x.request.deliverableId, x.request.deliverableVersion) !=
               (x.readiness.value.deliverableId, x.readiness.value.deliverableVersion)
    case 15 => x.snapshot.Some? && if x.snapshot.value.calendar.None? then x.request.calendarVersion.Some?
               else x.request.calendarVersion != Some(x.snapshot.value.calendar.value.version)
    case 16 => x.workOrders.Some? && !Sound(x.workOrders.value)
    case 17 => x.snapshot.Some? && (x.snapshot.value.calendar.None? || x.request.deadline == Missing)
    case 18 => x.snapshot.Some? && x.snapshot.value.calendar.Some?
               && var c := x.snapshot.value.calendar.value;
               !x.request.deadline.Day? || !c.validFrom.Day? || !c.validUntil.Day? || !ValidCalendar(c.days)
    case 19 => x.snapshot.Some? && x.snapshot.value.calendar.Some?
               && var c := x.snapshot.value.calendar.value;
               && c.validFrom.Day? && c.validUntil.Day? && x.request.deadline.Day?
               && (|| now < Midnight(c.validFrom.day) || Midnight(c.validUntil.day + 1) <= now
                   || c.validUntil.day < x.request.deadline.day)
    case _ => false
  }

  const PROBLEMS := 20

  function CodeOf(x: Inputs, n: nat): Code {
    match n
    case 0 => ReadinessUnknown
    case 1 => ReadinessNotReady
    case 2 => ReadinessEvidenceInvalid
    case 3 => ReadinessFromFuture
    case 4 => ReadinessStale
    case 5 => StaffedCapacityUnknown
    case 6 => CapacitySnapshotInvalid
    case 7 => StaffedCapacityUnknown
    case 8 => CapacityFreshnessUnknown
    case 9 => CapacitySnapshotFromFuture
    case 10 => CapacitySnapshotStale
    case 11 => ActiveWipUnknown
    case 12 => CapacityAllocationsUnknown
    case 13 => CapacitySnapshotInvalid
    case 14 => DeliverableBindingDiverged
    case 15 => CalendarVersionDiverged
    case 16 => if x.workOrders.Some? && WipCodes(x.workOrders.value) != [] then WipCodes(x.workOrders.value)[0]
               else ActiveWipInvalid
    case 17 => DeadlineOrCalendarUnknown
    case 18 => WorkingCalendarInvalid
    case _ => WorkingCalendarOutOfRange
  }

  ghost predicate ClearBefore(x: Inputs, now: int, n: nat) {
    forall m: nat :: m < n ==> !Problem(x, now, m)
  }

  /** Nothing keeps v1 from deciding. */
  ghost predicate Decidable(x: Inputs, now: int) {
    ClearBefore(x, now, PROBLEMS)
  }

  /** The problems before this one, instance by instance. */
  lemma NoneBefore(x: Inputs, now: int, n: nat)
    requires ClearBefore(x, now, n)
    ensures n > 4 ==> !Problem(x, now, 0) && !Problem(x, now, 1) && !Problem(x, now, 2) && !Problem(x, now, 3)
                      && !Problem(x, now, 4)
    ensures n > 9 ==> !Problem(x, now, 5) && !Problem(x, now, 6) && !Problem(x, now, 7) && !Problem(x, now, 8)
                      && !Problem(x, now, 9)
    ensures n > 15 ==> !Problem(x, now, 10) && !Problem(x, now, 11) && !Problem(x, now, 12) && !Problem(x, now, 13)
                       && !Problem(x, now, 14) && !Problem(x, now, 15)
    ensures n > 19 ==> !Problem(x, now, 16) && !Problem(x, now, 17) && !Problem(x, now, 18) && !Problem(x, now, 19)
  {
  }

  lemma ReadinessBlocks(x: Inputs, now: int, n: nat)
    requires n < 5 && Problem(x, now, n) && ClearBefore(x, now, n)
    ensures FirstGuard(x, now) == Some(Block(if n == 1 then CannotAccept else Unknown, CodeOf(x, n)))
  {
    ReadinessCodeIff(x.readiness, now);
    assert [Problem(x, now, 0), Problem(x, now, 1), Problem(x, now, 2), Problem(x, now, 3)] != [];
  }

  /** Past the readiness checks the profile is ready. */
  lemma ReadyWhenClear(x: Inputs, now: int, n: nat)
    requires n >= 5 && ClearBefore(x, now, n)
    ensures ReadinessForAdmission(x.readiness, now).Ready? && EvidenceComplete(x.readiness.value)
  {
    NoneBefore(x, now, n);
    ReadinessCodeIff(x.readiness, now);
  }

  lemma SnapshotBlocks(x: Inputs, now: int, n: nat)
    requires 5 <= n < 16 && Problem(x, now, n) && ClearBefore(x, now, n)
    ensures FirstGuard(x, now) == Some(Block(Unknown, CodeOf(x, n)))
  {
    NoneBefore(x, now, n);
    ReadyWhenClear(x, now, n);
    assert [Problem(x, now, 5), Problem(x, now, 6), Problem(x, now, 7), Problem(x, now, 8), Problem(x, now, 10),
            Problem(x, now, 11), Problem(x, now, 12), Problem(x, now, 13), Problem(x, now, 14)] != [];
  }

  lemma GuardsPass(x: Inputs, now: int, n: nat)
    requires 16 <= n && ClearBefore(x, now, n)
    ensures FirstGuard(x, now) == None
  {
    NoneBefore(x, now, n);
    ReadyWhenClear(x, now, n);
  }

  lemma CalendarBlocks(x: Inputs, now: int, n: nat)
    requires 17 <= n < 20 && Problem(x, now, n) && ClearBefore(x, now, n)
    ensures FirstGuard(x, now) == None && Sound(x.workOrders.value)
    ensures CalendarGuard(x, now) == Some(Block(Unknown, CodeOf(x, n)))
  {
    GuardsPass(x, now, n);
    NoneBefore(x, now, n);
    assert [Problem(x, now, 16), Problem(x, now, 17), Problem(x, now, 18)] != [];
    if x.snapshot.value.calendar.Some? {
      CalendarCovers(x, now);
    }
  }

  /** A day range and the instants it covers. */
  lemma DaysCover(now: int, from: int, until: int)
    ensures from <= DayOf(now) <= until <==> Midnight(from) <= now < Midnight(until + 1)
  {
    DayOfIff(now, DayOf(now));
  }

  lemma CalendarCovers(x: Inputs, now: int)
    requires x.snapshot.Some? && x.snapshot.value.calendar.Some?
    ensures var c := x.snapshot.value.calendar.value;
            c.validFrom.Day? && c.validUntil.Day? ==>
              (c.validFrom.day <= DayOf(now) <= c.validUntil.day <==>
                 Midnight(c.validFrom.day) <= now < Midnight(c.validUntil.day + 1))
  {
    var c := x.snapshot.value.calendar.value;
    if c.validFrom.Day? && c.validUntil.Day? {
      DaysCover(now, c.validFrom.day, c.validUntil.day);
    }
  }

  /** When problems keep v1 from deciding, it publishes the code of the first, alone: as a refusal when the profile says
      that it is not ready, as a doubt in every other case, and without any number. */
  lemma FirstProblemIsPublished(x: Inputs, now: int, id: string, n: nat)
    requires Problem(x, now, n) && ClearBefore(x, now, n)
    ensures var d := Decide(x, now, id);
            && d.verdict == (if n == 1 then CannotAccept else Unknown) && d.reasons == [CodeOf(x, n)]
            && d.staffed == d.wip == d.reserved == d.requested == d.available == d.limitAfterWip == None
            && d.earliestDue == None && d.workOrderRefs == []
  {
    if n < 5 {
      ReadinessBlocks(x, now, n);
    } else if n < 16 {
      SnapshotBlocks(x, now, n);
    } else if n == 16 {
      GuardsPass(x, now, n);
    } else {
      CalendarBlocks(x, now, n);
    }
  }

  lemma DecidableInputs(x: Inputs, now: int)
    requires Decidable(x, now)
    ensures FirstGuard(x, now) == None && Sound(x.workOrders.value) && CalendarGuard(x, now) == None
  {
    GuardsPass(x, now, PROBLEMS);
    NoneBefore(x, now, PROBLEMS);
    CalendarCovers(x, now);
  }

  /** Some problem, hence a first one. */
  lemma FirstOf(x: Inputs, now: int, n: nat) returns (first: nat)
    requires !ClearBefore(x, now, n)
    ensures first < n && Problem(x, now, first) && ClearBefore(x, now, first)
  {
    first := 0;
    while !Problem(x, now, first)
      invariant first < n && ClearBefore(x, now, first)
      decreases n - first
    {
      assert !ClearBefore(x, now, n) ==> exists m: nat :: m < n && Problem(x, now, m);
      first := first + 1;
    }
  }

  // ---- What v1 decides ---------------------------------------------------------------------------

  /** The numbers and dates that a decision rests on can be read. */
  ghost predicate Readable(x: Inputs) {
    && x.readiness.Some? && x.readiness.value.effort.Some? && x.readiness.value.effort.value > 0
    && x.readiness.value.leadTime.Some? && x.readiness.value.leadTime.value > 0
    && x.workOrders.Some? && NonNegative(x.reserved)
    && x.snapshot.Some? && NonNegative(x.snapshot.value.staffed) && x.snapshot.value.calendar.Some?
    && ValidCalendar(x.snapshot.value.calendar.value.days) && x.request.deadline.Day?
  }

  /** The work in progress, what is reserved and what is asked for exceed the staffed units. */
  ghost predicate Short(x: Inputs)
    requires Readable(x)
  {
    Total(Estimates(x.workOrders.value)) + x.reserved.value + x.readiness.value.effort.value
    > x.snapshot.value.staffed.value
  }

  /** The working day on which the lead time is over comes after the deadline. */
  ghost predicate Late(x: Inputs, now: int)
    requires Readable(x)
  {
    exists due :: due > x.request.deadline.day
        && IsDue(x.snapshot.value.calendar.value.days, DayOf(now), x.readiness.value.leadTime.value, due)
  }

  lemma DecidableIsReadable(x: Inputs, now: int)
    requires Decidable(x, now)
    ensures Readable(x)
  {
    NoneBefore(x, now, PROBLEMS);
  }

  lemma LateIff(x: Inputs, now: int)
    requires Decidable(x, now)
    ensures Readable(x)
    ensures Late(x, now) <==>
            DueDay(x.snapshot.value.calendar.value.days, DayOf(now), x.readiness.value.leadTime.value)
            > x.request.deadline.day
  {
    DecidableIsReadable(x, now);
    var days, lead := x.snapshot.value.calendar.value.days, x.readiness.value.leadTime.value;
    if due :| due > x.request.deadline.day && IsDue(days, DayOf(now), lead, due) {
      DueUnique(days, DayOf(now), lead, due, DueDay(days, DayOf(now), lead));
    }
  }

  /** Every verdict of v1: it refuses exactly when the profile says that it is not ready, or when nothing keeps it from
      deciding and the units do not fit or the due day is past the deadline; it accepts exactly when nothing keeps it
      from deciding and neither is so; and it is in doubt in every other case. */
  lemma VerdictIff(x: Inputs, now: int, id: string)
    ensures Decidable(x, now) ==>
              && Readable(x)
              && (Decide(x, now, id).verdict == CannotAccept <==> Short(x) || Late(x, now))
              && (Decide(x, now, id).verdict == CanAccept <==> !Short(x) && !Late(x, now))
    ensures !Decidable(x, now) ==>
              && (Decide(x, now, id).verdict == CannotAccept <==>
                    x.readiness.Some? && x.readiness.value.state == NotReady)
              && Decide(x, now, id).verdict != CanAccept
  {
    if Decidable(x, now) {
      DecidableIsReadable(x, now);
      DecidableInputs(x, now);
      LateIff(x, now);
      ActiveUnitsIs(x.workOrders.value);
    } else {
      var n := FirstOf(x, now, PROBLEMS);
      FirstProblemIsPublished(x, now, id, n);
      assert n > 1 ==> !Problem(x, now, 1);
    }
  }

  /** The reasons of a decision: the shortage first, then the lateness, each exactly when it is the case. */
  lemma DecidedReasons(x: Inputs, now: int, id: string)
    requires Decidable(x, now)
    ensures Readable(x)
    ensures Decide(x, now, id).reasons ==
            if Short(x) && Late(x, now) then [InsufficientStaffedCapacity, RequestedDeadlineInfeasible]
            else if Short(x) then [InsufficientStaffedCapacity]
            else if Late(x, now) then [RequestedDeadlineInfeasible]
            else []
  {
    DecidableIsReadable(x, now);
    DecidableInputs(x, now);
    LateIff(x, now);
    ActiveUnitsIs(x.workOrders.value);
  }

  /** The numbers of a decision, refusals included: WIP is the sum of the ongoing estimates; the published availability
      is the most units that could still have been asked for, and the limit after WIP the most if nothing were reserved;
      the due day is the working day on which the lead time is over. */
  lemma DecidedNumbers(x: Inputs, now: int, id: string, units: nat)
    requires Decidable(x, now) && units > 0
    ensures Readable(x)
    ensures var d := Decide(x, now, id);
            && d.wip == Some(Total(Estimates(x.workOrders.value))) && d.staffed == x.snapshot.value.staffed
            && d.reserved == x.reserved && d.requested == x.readiness.value.effort
            && d.available.Some? && d.limitAfterWip.Some? && d.available.value >= 0 && d.limitAfterWip.value >= 0
            && (units <= d.available.value <==> d.wip.value + d.reserved.value + units <= d.staffed.value)
            && (units <= d.limitAfterWip.value <==> d.wip.value + units <= d.staffed.value)
            && d.earliestDue.Some?
            && IsDue(x.snapshot.value.calendar.value.days, DayOf(now), x.readiness.value.leadTime.value,
                     d.earliestDue.value)
            && d.correlation == Some(x.request.correlation) && d.snapshotId == Some(x.snapshot.value.id)
            && d.synthetic == x.snapshot.value.synthetic
  {
    DecidableIsReadable(x, now);
    DecidableInputs(x, now);
    ActiveUnitsIs(x.workOrders.value);
  }
}
