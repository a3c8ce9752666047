/** Every reason that v2 publishes, in terms of the inputs, and how the verdict follows from them. */
module AdmissionReasons {
  import opened Prelude
  import opened Decisions
  import opened WorkOrders
  import opened Readiness
  import opened BusinessDays
  import opened AdmissionV2
  import opened AdmissionLaws

  // ---- Rows of an allocation snapshot ------------------------------------------------------------

  ghost predicate WellShaped(a: Allocation) {
    a.id.Some? && a.id.value != "" && a.state.Some? && a.units.Some? && a.units.value >= 1
  }

  /** The row is well shaped, under an id that no earlier such row has. */
  ghost predicate Counts(rows: seq<Allocation>, i: nat)
    requires i < |rows|
  {
    WellShaped(rows[i]) && forall j :: 0 <= j < i && WellShaped(rows[j]) ==> rows[j].id != rows[i].id
  }

  /** The row's effort may or may not be spent: it is ambiguous, or committed to a work order that is not active. */
  ghost predicate InDoubt(a: Allocation, active: set<string>) {
    || a.state == Some(Reconciling)
    || (a.state == Some(Committed) && !(a.workOrderId.Some? && a.workOrderId.value in active))
  }

  /** The row cannot be counted, or it is ambiguous for no known reason. */
  ghost predicate Faulty(rows: seq<Allocation>, i: nat)
    requires i < |rows|
  {
    !Counts(rows, i) || (rows[i].state == Some(Reconciling) && !rows[i].ambiguityKnown)
  }

  ghost predicate AnyFaulty(rows: seq<Allocation>) {
    exists i: nat :: i < |rows| && Faulty(rows, i)
  }

  ghost predicate AnyInDoubt(rows: seq<Allocation>, active: set<string>) {
    exists i: nat :: i < |rows| && Counts(rows, i) && InDoubt(rows[i], active)
  }

  lemma CountableIff(rows: seq<Allocation>, i: nat)
    requires i < |rows|
    ensures Countable(rows[..i], rows[i]) <==> Counts(rows, i)
  {
    var earlier := rows[..i];
    if WellShaped(rows[i]) && rows[i].id.value !in SeenAllocations(earlier) {
      forall j | 0 <= j < i && WellShaped(rows[j])
        ensures rows[j].id != rows[i].id
      {
        assert earlier[j] == rows[j] && earlier[j].id.value in SeenAllocations(earlier);
      }
    }
    assert forall j :: 0 <= j < i ==> earlier[j] == rows[j];
  }

  lemma OneMoreAllocation(rows: seq<Allocation>)
    requires rows != []
    ensures Countable(Init(rows), Last(rows)) <==> Counts(rows, |rows| - 1)
    ensures forall i: nat :: i < |rows| - 1 ==> Init(rows)[i] == rows[i]
    ensures forall i: nat :: i < |rows| - 1 ==> Counts(Init(rows), i) == Counts(rows, i)
    ensures forall i: nat :: i < |rows| - 1 ==> Faulty(Init(rows), i) == Faulty(rows, i)
  {
    CountableIff(rows, |rows| - 1);
  }

  /** Which problems the rows raise. */
  lemma {:induction false} AllocationRowsIff(rows: seq<Allocation>, active: set<string>)
    ensures AllocationSnapshotInvalid in AllocationRowsCodes(rows, active) <==> AnyFaulty(rows)
    ensures ReconciliationRequired in AllocationRowsCodes(rows, active) <==> AnyInDoubt(rows, active)
    ensures forall c <- AllocationRowsCodes(rows, active) :: c in {AllocationSnapshotInvalid, ReconciliationRequired}
  {
    if rows != [] {
      AllocationRowsIff(Init(rows), active);
      OneMoreAllocation(rows);
      assert Faulty(rows, |rows| - 1) || Counts(rows, |rows| - 1);
    }
  }

  ghost function HeldEfforts(rows: seq<Allocation>): map<int, nat> {
    map i | 0 <= i < |rows| && Counts(rows, i) && rows[i].state == Some(Held) :: rows[i].units.value
  }

  ghost function DoubtfulEfforts(rows: seq<Allocation>, active: set<string>): map<int, nat> {
    map i | 0 <= i < |rows| && Counts(rows, i) && InDoubt(rows[i], active) :: rows[i].units.value
  }

  /** The held effort is the sum over the held rows. */
  lemma {:induction false} HeldSumIs(rows: seq<Allocation>)
    ensures HeldSum(rows) == Total(HeldEfforts(rows))
  {
    if rows == [] {
      assert HeldEfforts(rows) == map[];
    } else {
      var init, last := Init(rows), |rows| - 1;
      HeldSumIs(init);
      OneMoreAllocation(rows);
      if Counts(rows, last) && rows[last].state == Some(Held) {
        TotalInsert(HeldEfforts(init), last, rows[last].units.value);
        assert HeldEfforts(rows) == HeldEfforts(init)[last := rows[last].units.value];
      } else {
        assert HeldEfforts(rows) == HeldEfforts(init);
      }
    }
  }

  /** The disputed effort is the sum over the rows in doubt. */
  lemma {:induction false} DisputedSumIs(rows: seq<Allocation>, active: set<string>)
    ensures DisputedSum(rows, active) == Total(DoubtfulEfforts(rows, active))
  {
    if rows == [] {
      assert DoubtfulEfforts(rows, active) == map[];
    } else {
      var init, last := Init(rows), |rows| - 1;
      DisputedSumIs(init, active);
      OneMoreAllocation(rows);
      if Counts(rows, last) && InDoubt(rows[last], active) {
        TotalInsert(DoubtfulEfforts(init, active), last, rows[last].units.value);
        assert DoubtfulEfforts(rows, active) == DoubtfulEfforts(init, active)[last := rows[last].units.value];
      } else {
        assert DoubtfulEfforts(rows, active) == DoubtfulEfforts(init, active);
      }
    }
  }

  // ---- What raises each reason -------------------------------------------------------------------

  ghost predicate Timed(asOf: Option<int>, expiresAt: Option<int>) {
    asOf.Some? && expiresAt.Some? && asOf.value < expiresAt.value
  }

  ghost predicate IsStale(asOf: Option<int>, expiresAt: Option<int>, now: int) {
    Timed(asOf, expiresAt) && expiresAt.value <= now
  }

  ghost predicate IsAhead(asOf: Option<int>, expiresAt: Option<int>, now: int) {
    Timed(asOf, expiresAt) && now < asOf.value
  }

  /** The ceiling of the policy, when it can be read. */
  ghost predicate PolicyIs(x: Inputs, units: int) {
    x.policy.Some? && x.policy.value.wellFormed && x.policy.value.ceiling == Some(units) && units >= 0
  }

  /** A staffed snapshot with everything it must name; its declared age is tested apart. */
  ghost predicate SnapshotComplete(s: Snapshot) {
    && s.schemaOk && s.wellFormed && s.id.Some? && s.id.value != "" && s.version.Some? && s.version.value > 0
    && s.staffed.Some? && s.staffed.value >= 0 && s.calendarVersion.Some? && s.calendarVersion.value != ""
    && s.maxAgeSeconds.Some? && s.maxAgeSeconds.value > 0
  }

  /** The window is as long as declared, to the second. */
  ghost predicate AgeAsDeclared(s: Snapshot)
    requires Timed(s.asOf, s.expiresAt) && s.maxAgeSeconds.Some?
  {
    var second, length := 1_000_000, s.expiresAt.value - s.asOf.value;
    s.maxAgeSeconds.value * second <= length < (s.maxAgeSeconds.value + 1) * second
  }

  ghost predicate StaffedIs(x: Inputs, units: int) {
    x.snapshot.Some? && SnapshotComplete(x.snapshot.value) && x.snapshot.value.staffed == Some(units)
  }

  ghost predicate SnapshotRaises(x: Inputs, now: int, c: Code) {
    match c
    case StaffedCapacityUnknown => x.snapshot.None?
    case CapacitySnapshotInvalid =>
      && x.snapshot.Some?
      && var s := x.snapshot.value;
      || !SnapshotComplete(s) || !Timed(s.asOf, s.expiresAt) || !AgeAsDeclared(s)
    case CapacitySnapshotFromFuture =>
      x.snapshot.Some? && x.snapshot.value.schemaOk && IsAhead(x.snapshot.value.asOf, x.snapshot.value.expiresAt, now)
    case CapacitySnapshotStale =>
      x.snapshot.Some? && x.snapshot.value.schemaOk && IsStale(x.snapshot.value.asOf, x.snapshot.value.expiresAt, now)
    case _ => false
  }

  /** The profile is ready at this instant. */
  ghost predicate ProfileIsReady(x: Inputs, now: int) {
    && x.readiness.Some?
    && var p := x.readiness.value;
    && (p.state == ProductionReady || p.state == DeliveryValidated) && EvidenceComplete(p)
    && p.evaluatedAt.value <= now < p.expiresAt.value
  }

  ghost predicate ReadinessRaises(x: Inputs, now: int, c: Code) {
    match c
    case ReadinessUnknown => x.readiness.None? || x.readiness.value.state == NotEvaluated
    case ReadinessEvidenceInvalid =>
      && x.readiness.Some? && x.readiness.value.state in {ProductionReady, DeliveryValidated}
      && !EvidenceComplete(x.readiness.value)
    case ReadinessFromFuture =>
      && x.readiness.Some? && x.readiness.value.state in {ProductionReady, DeliveryValidated}
      && EvidenceComplete(x.readiness.value) && now < x.readiness.value.evaluatedAt.value
    case ReadinessStale =>
      && x.readiness.Some? && x.readiness.value.state in {ProductionReady, DeliveryValidated}
      && EvidenceComplete(x.readiness.value) && x.readiness.value.expiresAt.value <= now
    case _ => false
  }

  /** What the work is estimated at, in slots, by a ready profile. */
  ghost predicate RequestedIs(x: Inputs, now: int, units: int) {
    && ProfileIsReady(x, now)
    && x.readiness.value.effort == Some(units) && x.readiness.value.effortUnitIsSlot
    && x.readiness.value.effortVersion != ""
  }

  ghost predicate ProfileRaises(x: Inputs, now: int, c: Code) {
    match c
    case DeliverableBindingDiverged =>
      && ProfileIsReady(x, now)
      && (x.request.deliverableId, x.request.deliverableVersion, x.request.scopeVersion) !=
         (x.readiness.value.deliverableId, x.readiness.value.deliverableVersion, x.readiness.value.scopeVersion)
    case EstimatedEffortUnknown =>
      ProfileIsReady(x, now) && (!x.readiness.value.effortUnitIsSlot || x.readiness.value.effortVersion == "")
    case _ => false
  }

  /** The calendar can be used: complete, and synthetic exactly when a snapshot with an id is. */
  ghost predicate CalendarReadable(x: Inputs) {
    && x.calendar.Some? && x.calendar.value.schemaOk && x.calendar.value.wellFormed && x.calendar.value.version != ""
    && !(x.snapshot.Some? && x.snapshot.value.schemaOk && x.snapshot.value.id.Some?
         && x.snapshot.value.synthetic != x.calendar.value.synthetic)
  }

  ghost predicate CalendarRaises(x: Inputs, c: Code) {
    match c
    case WorkingCalendarUnknown => x.calendar.None?
    case WorkingCalendarInvalid => x.calendar.Some? && !CalendarReadable(x)
    case CalendarVersionDiverged =>
      && CalendarReadable(x)
      && (|| x.request.calendarVersion != x.calendar.value.version
          || (&& x.snapshot.Some? && x.snapshot.value.schemaOk && x.snapshot.value.calendarVersion.Some?
              && x.snapshot.value.calendarVersion != Some(x.calendar.value.version)))
    case _ => false
  }

  ghost predicate WorkOrdersListed(x: Inputs) {
    x.workOrders.Some? && x.workOrders.value.schemaOk && x.workOrders.value.wellFormed
  }

  ghost predicate WorkOrdersRaise(x: Inputs, now: int, c: Code) {
    match c
    case WorkOrderSnapshotUnknown => x.workOrders.None?
    case WorkOrderSnapshotInvalid =>
      && x.workOrders.Some?
      && var w := x.workOrders.value;
      || !w.schemaOk || !w.wellFormed || !Timed(w.asOf, w.expiresAt) || IsAhead(w.asOf, w.expiresAt, now)
    case WorkOrderSnapshotStale =>
      && x.workOrders.Some? && x.workOrders.value.schemaOk
      && IsStale(x.workOrders.value.asOf, x.workOrders.value.expiresAt, now)
    case WorkOrderInventoryIncomplete =>
      x.workOrders.Some? && x.workOrders.value.schemaOk && !x.workOrders.value.complete
    case ActiveWipInvalid =>
      WorkOrdersListed(x) && AnyUnidentified(x.workOrders.value.rows)
    case ActiveWipEffortUnknown =>
      WorkOrdersListed(x) && AnyUnestimated(x.workOrders.value.rows)
    case _ => false
  }

  ghost predicate AllocationsListed(x: Inputs) {
    x.allocations.Some? && x.allocations.value.schemaOk && x.allocations.value.wellFormed
  }

  /** The ids of the ongoing work orders. */
  ghost function OngoingIds(x: Inputs): set<string> {
    if !WorkOrdersListed(x) then {}
    else
      var rows := x.workOrders.value.rows;
      set i | 0 <= i < |rows| && Ongoing(rows, i) :: rows[i].id.value
  }

  ghost predicate AllocationsRaise(x: Inputs, now: int, c: Code) {
    match c
    case AllocationSnapshotUnknown => x.allocations.None?
    case AllocationSnapshotInvalid =>
      && x.allocations.Some?
      && var a := x.allocations.value;
      || !a.schemaOk || !a.wellFormed || !Timed(a.asOf, a.expiresAt) || IsAhead(a.asOf, a.expiresAt, now)
      || AnyFaulty(a.rows)
    case AllocationSnapshotStale =>
      && x.allocations.Some? && x.allocations.value.schemaOk
      && IsStale(x.allocations.value.asOf, x.allocations.value.expiresAt, now)
    case AllocationInventoryIncomplete =>
      x.allocations.Some? && x.allocations.value.schemaOk && !x.allocations.value.complete
    case ReconciliationRequired =>
      AllocationsListed(x) && AnyInDoubt(x.allocations.value.rows, OngoingIds(x))
    case _ => false
  }

  /** The deadline can be tested: it is a day, the calendar can be used and the effort is known. */
  ghost predicate Testable(x: Inputs, now: int) {
    CalendarReadable(x) && x.request.deadline.Day? && exists units :: RequestedIs(x, now, units)
  }

  ghost predicate DatesReadable(c: WorkingCalendar) {
    c.validFrom.Day? && c.validUntil.Day? && ValidCalendar(c.days)
  }

  /** The calendar covers today and the deadline. */
  ghost predicate Covers(c: WorkingCalendar, now: int, deadline: int)
    requires DatesReadable(c)
  {
    Midnight(c.validFrom.day) <= now < Midnight(c.validUntil.day + 1) && deadline <= c.validUntil.day
  }

  ghost predicate DeadlineRaises(x: Inputs, now: int, c: Code) {
    match c
    case RequestedDeadlineUnknown => !x.request.deadline.Day?
    case WorkingCalendarInvalid => Testable(x, now) && !DatesReadable(x.calendar.value)
    case WorkingCalendarOutOfRange =>
      && Testable(x, now) && DatesReadable(x.calendar.value)
      && !Covers(x.calendar.value, now, x.request.deadline.day)
    case _ => false
  }

  /** The working day on which the lead time is over. */
  ghost predicate FeasibleOn(x: Inputs, now: int, due: int) {
    && Testable(x, now) && DatesReadable(x.calendar.value) && Covers(x.calendar.value, now, x.request.deadline.day)
    && IsDue(x.calendar.value.days, DayOf(now), x.readiness.value.leadTime.value, due)
  }

  /** What is in progress, held, disputed and requested, when all of it is known. */
  ghost predicate DemandIs(x: Inputs, now: int, demand: int) {
    && WorkOrdersListed(x) && AllocationsListed(x) && !WorkOrdersRaise(x, now, ActiveWipEffortUnknown)
    && exists requested ::
         && RequestedIs(x, now, requested)
         && demand == Total(Estimates(x.workOrders.value.rows)) + Total(HeldEfforts(x.allocations.value.rows))
                      + Total(DoubtfulEfforts(x.allocations.value.rows, OngoingIds(x))) + requested
  }

  /** Both ceilings and the demand can be read. */
  ghost predicate Known(x: Inputs, now: int, policy: int, staffed: int, demand: int) {
    PolicyIs(x, policy) && StaffedIs(x, staffed) && DemandIs(x, now, demand)
  }

  /** Refusals: of two ceilings the lower one is named, and both when they are equal. */
  ghost predicate Refuses(x: Inputs, now: int, c: Code) {
    match c
    case ReadinessNotReady => x.readiness.Some? && x.readiness.value.state == NotReady
    case RequestedDeadlineInfeasible => exists due :: FeasibleOn(x, now, due) && due > x.request.deadline.day
    case PolicyCeilingReached =>
      exists policy, staffed, demand ::
        Known(x, now, policy, staffed, demand) && policy <= staffed && policy < demand
    case InsufficientStaffedCapacity =>
      exists policy, staffed, demand ::
        Known(x, now, policy, staffed, demand) && staffed <= policy && staffed < demand
    case _ => false
  }

  ghost predicate Doubts(x: Inputs, now: int, c: Code) {
    || (c == CapacityRequestInvalid && !x.request.wellFormed)
    || (c == PolicyCeilingUnknown && !exists units :: PolicyIs(x, units))
    || SnapshotRaises(x, now, c) || ReadinessRaises(x, now, c) || ProfileRaises(x, now, c) || CalendarRaises(x, c)
    || WorkOrdersRaise(x, now, c) || AllocationsRaise(x, now, c) || DeadlineRaises(x, now, c)
  }

  // ---- The evaluator raises exactly these --------------------------------------------------------

  lemma SnapshotCodesIff(x: Inputs, now: int, c: Code)
    ensures c in SnapshotCodes(x, now) <==> SnapshotRaises(x, now, c)
  {
    if x.snapshot.Some? && Timed(x.snapshot.value.asOf, x.snapshot.value.expiresAt) {
      var length := x.snapshot.value.expiresAt.value - x.snapshot.value.asOf.value;
      assert length == MICROSECONDS_PER_SECOND * (length / MICROSECONDS_PER_SECOND) + length % MICROSECONDS_PER_SECOND;
    }
  }

  lemma ReadyIff(x: Inputs, now: int)
    ensures ProfileReady(x, now) <==> ProfileIsReady(x, now)
  {
    ReadinessCodeIff(x.readiness, now);
  }

  lemma ReadinessBlockIff(x: Inputs, now: int, c: Code)
    ensures c in ReadinessBlock(x, now, Unknown) <==> ReadinessRaises(x, now, c)
    ensures c in ReadinessBlock(x, now, CannotAccept) <==> c == ReadinessNotReady && Refuses(x, now, c)
  {
    ReadinessCodeIff(x.readiness, now);
  }

  lemma RequestedIff(x: Inputs, now: int)
    ensures forall units :: RequestedUnits(x, now) == Some(units) <==> RequestedIs(x, now, units)
    ensures EffortRead(x, now) <==> exists units :: RequestedIs(x, now, units)
  {
    ReadyIff(x, now);
    if EffortRead(x, now) {
      assert RequestedIs(x, now, x.readiness.value.effort.value);
    }
  }

  lemma ProfileCodesIff(x: Inputs, now: int, c: Code)
    ensures c in ProfileCodes(x, now) <==> ProfileRaises(x, now, c)
  {
    ReadyIff(x, now);
  }

  lemma CalendarCodesIff(x: Inputs, c: Code)
    ensures CalendarUsable(x) <==> CalendarReadable(x)
    ensures c in CalendarCodes(x) <==> CalendarRaises(x, c)
  {
  }

  lemma InThree(c: Code, first: seq<Code>, second: seq<Code>, third: seq<Code>)
    ensures c in first + second + third <==> c in first || c in second || c in third
  {
  }

  lemma WorkOrderCodesIff(x: Inputs, now: int, c: Code)
    ensures c in WorkOrderCodes(x, now) <==> WorkOrdersRaise(x, now, c)
  {
    if x.workOrders.Some? && x.workOrders.value.schemaOk {
      WorkOrderPartsIff(x.workOrders.value, now, c);
    }
  }

  lemma WorkOrderPartsIff(w: WorkOrderSnapshot, now: int, c: Code)
    ensures c in WorkOrderFreshCodes(FreshnessOf(w.asOf, w.expiresAt, now))
                 + (if w.complete then [] else [WorkOrderInventoryIncomplete])
                 + (if w.wellFormed then WipCodes(w.rows) else [WorkOrderSnapshotInvalid]) <==>
            || (c == WorkOrderSnapshotInvalid &&
                (!w.wellFormed || !Timed(w.asOf, w.expiresAt) || IsAhead(w.asOf, w.expiresAt, now)))
            || (c == WorkOrderSnapshotStale && IsStale(w.asOf, w.expiresAt, now))
            || (c == WorkOrderInventoryIncomplete && !w.complete)
            || (c == ActiveWipInvalid && w.wellFormed && AnyUnidentified(w.rows))
            || (c == ActiveWipEffortUnknown && w.wellFormed && AnyUnestimated(w.rows))
  {
    InThree(c, WorkOrderFreshCodes(FreshnessOf(w.asOf, w.expiresAt, now)),
            if w.complete then [] else [WorkOrderInventoryIncomplete],
            if w.wellFormed then WipCodes(w.rows) else [WorkOrderSnapshotInvalid]);
    WorkOrderAgeIff(w, now, c);
    WipCodesIff(w.rows);
    WipCodesIn(w.rows, c);
  }

  lemma WorkOrderAgeIff(w: WorkOrderSnapshot, now: int, c: Code)
    ensures c in WorkOrderFreshCodes(FreshnessOf(w.asOf, w.expiresAt, now)) <==>
            || (c == WorkOrderSnapshotStale && IsStale(w.asOf, w.expiresAt, now))
            || (c == WorkOrderSnapshotInvalid && (!Timed(w.asOf, w.expiresAt) || IsAhead(w.asOf, w.expiresAt, now)))
  {
  }

  lemma WipCodesIn(rows: seq<WorkOrder>, c: Code)
    ensures c in WipCodes(rows) ==> c == ActiveWipInvalid || c == ActiveWipEffortUnknown
  {
    WipCodesIff(rows);
  }

  lemma OngoingIdsAre(x: Inputs)
    ensures RefSet(WipRefs(x)) == OngoingIds(x)
  {
    forall id: string
      ensures id in RefSet(WipRefs(x)) <==> id in OngoingIds(x)
    {
      assert id in RefSet(WipRefs(x)) <==> id in WipRefs(x);
      if WorkOrdersListed(x) {
        ActiveRefsIff(x.workOrders.value.rows, id);
      }
    }
  }

  lemma AllocationCodesIff(x: Inputs, now: int, c: Code)
    ensures c in AllocationCodes(x, now) <==> AllocationsRaise(x, now, c)
  {
    if x.allocations.Some? && x.allocations.value.schemaOk {
      OngoingIdsAre(x);
      AllocationPartsIff(x.allocations.value, RefSet(WipRefs(x)), now, c);
    }
  }

  lemma AllocationPartsIff(a: AllocationSnapshot, active: set<string>, now: int, c: Code)
    ensures c in AllocationFreshCodes(FreshnessOf(a.asOf, a.expiresAt, now))
                 + (if a.complete then [] else [AllocationInventoryIncomplete])
                 + (if a.wellFormed then AllocationRowsCodes(a.rows, active) else [AllocationSnapshotInvalid]) <==>
            || (c == AllocationSnapshotInvalid &&
                (|| !a.wellFormed || !Timed(a.asOf, a.expiresAt) || IsAhead(a.asOf, a.expiresAt, now)
                 || AnyFaulty(a.rows)))
            || (c == AllocationSnapshotStale && IsStale(a.asOf, a.expiresAt, now))
            || (c == AllocationInventoryIncomplete && !a.complete)
            || (c == ReconciliationRequired && a.wellFormed && AnyInDoubt(a.rows, active))
  {
    InThree(c, AllocationFreshCodes(FreshnessOf(a.asOf, a.expiresAt, now)),
            if a.complete then [] else [AllocationInventoryIncomplete],
            if a.wellFormed then AllocationRowsCodes(a.rows, active) else [AllocationSnapshotInvalid]);
    AllocationAgeIff(a, now, c);
    AllocationRowsIff(a.rows, active);
    AllocationRowsIn(a.rows, active, c);
  }

  lemma AllocationRowsIn(rows: seq<Allocation>, active: set<string>, c: Code)
    ensures c in AllocationRowsCodes(rows, active) ==> c == AllocationSnapshotInvalid || c == ReconciliationRequired
  {
    AllocationRowsIff(rows, active);
  }

  lemma AllocationAgeIff(a: AllocationSnapshot, now: int, c: Code)
    ensures c in AllocationFreshCodes(FreshnessOf(a.asOf, a.expiresAt, now)) <==>
            || (c == AllocationSnapshotStale && IsStale(a.asOf, a.expiresAt, now))
            || (c == AllocationSnapshotInvalid && (!Timed(a.asOf, a.expiresAt) || IsAhead(a.asOf, a.expiresAt, now)))
  {
  }

  lemma CoversIff(x: Inputs, now: int, deadline: int)
    requires x.calendar.Some? && DatesReadable(x.calendar.value)
    ensures InRange(x.calendar.value, DayOf(now), deadline) <==> Covers(x.calendar.value, now, deadline)
  {
    DayOfIff(now, DayOf(now));
  }

  lemma TestableIff(x: Inputs, now: int)
    ensures DeadlineTested(x, now) <==> Testable(x, now)
  {
    RequestedIff(x, now);
    CalendarCodesIff(x, AdmissionGatesSatisfied);
  }

  lemma DeadlineCodesIff(x: Inputs, now: int, c: Code)
    ensures c in DeadlineCodes(x, now) <==> DeadlineRaises(x, now, c)
  {
    TestableIff(x, now);
    if x.calendar.Some? && DatesReadable(x.calendar.value) && x.request.deadline.Day? {
      CoversIff(x, now, x.request.deadline.day);
    }
  }

  lemma EarliestDueIff(x: Inputs, now: int)
    ensures forall due :: EarliestDue(x, now) == Some(due) <==> FeasibleOn(x, now, due)
  {
    TestableIff(x, now);
    if Testable(x, now) && DatesReadable(x.calendar.value) {
      CoversIff(x, now, x.request.deadline.day);
      var days, lead := x.calendar.value.days, x.readiness.value.leadTime.value;
      RequestedIff(x, now);
      forall due | IsDue(days, DayOf(now), lead, due)
        ensures due == DueDay(days, DayOf(now), lead)
      {
        DueUnique(days, DayOf(now), lead, due, DueDay(days, DayOf(now), lead));
      }
    }
  }

  lemma PolicyIff(x: Inputs)
    ensures forall units :: PolicyUnits(x) == Some(units) <==> PolicyIs(x, units)
    ensures PolicyUnits(x).Some? <==> exists units :: PolicyIs(x, units)
  {
    if PolicyUnits(x).Some? {
      assert PolicyIs(x, PolicyUnits(x).value);
    }
  }

  lemma StaffedIff(x: Inputs)
    ensures forall units :: StaffedUnits(x) == Some(units) <==> StaffedIs(x, units)
  {
  }

  /** What is consumed, when it is known. */
  lemma ConsumedIs(x: Inputs, now: int)
    ensures WipUnits(x) == if WorkOrdersListed(x) && !WorkOrdersRaise(x, now, ActiveWipEffortUnknown)
                           then Some(Total(Estimates(x.workOrders.value.rows))) else None
    ensures HeldUnits(x) ==
            if AllocationsListed(x) then Some(Total(HeldEfforts(x.allocations.value.rows))) else None
    ensures DisputedUnits(x) == if AllocationsListed(x)
                                then Some(Total(DoubtfulEfforts(x.allocations.value.rows, OngoingIds(x)))) else None
  {
    OngoingIdsAre(x);
    if WorkOrdersListed(x) {
      WipCodesIff(x.workOrders.value.rows);
      ActiveUnitsIs(x.workOrders.value.rows);
    }
    if AllocationsListed(x) {
      HeldSumIs(x.allocations.value.rows);
      DisputedSumIs(x.allocations.value.rows, OngoingIds(x));
    }
  }

  lemma DemandIff(x: Inputs, now: int)
    ensures forall demand ::
              DemandIs(x, now, demand) <==>
              && WipUnits(x).Some? && HeldUnits(x).Some? && DisputedUnits(x).Some? && RequestedUnits(x, now).Some?
              && demand == WipUnits(x).value + HeldUnits(x).value + DisputedUnits(x).value
                           + RequestedUnits(x, now).value
  {
    ConsumedIs(x, now);
    RequestedIff(x, now);
    if RequestedUnits(x, now).Some? {
      assert RequestedIs(x, now, RequestedUnits(x, now).value);
    }
  }

  lemma RequestedIsPositive(x: Inputs, now: int)
    ensures RequestedUnits(x, now).Some? ==> RequestedUnits(x, now).value > 0
  {
  }

  lemma ShortageIs(policy: Option<int>, staffed: Option<int>, wip: Option<int>, held: Option<int>,
          disputed: Option<int>, requested: Option<int>, c: Code)
    requires requested.Some? ==> requested.value > 0
    ensures c in Shortage(policy, staffed, wip, held, disputed, requested) <==>
            && policy.Some? && staffed.Some? && wip.Some? && held.Some? && disputed.Some? && requested.Some?
            && var demand := wip.value + held.value + disputed.value + requested.value;
            || (c == PolicyCeilingReached && policy.value <= staffed.value && policy.value < demand)
            || (c == InsufficientStaffedCapacity && staffed.value <= policy.value && staffed.value < demand)
  {
  }

  /** The numbers that a shortage is about. */
  lemma KnownIff(x: Inputs, now: int)
    ensures forall policy, staffed, demand ::
              Known(x, now, policy, staffed, demand) <==>
              && PolicyUnits(x) == Some(policy) && StaffedUnits(x) == Some(staffed)
              && WipUnits(x).Some? && HeldUnits(x).Some? && DisputedUnits(x).Some? && RequestedUnits(x, now).Some?
              && demand == WipUnits(x).value + HeldUnits(x).value + DisputedUnits(x).value
                           + RequestedUnits(x, now).value
  {
    PolicyIff(x);
    StaffedIff(x);
    DemandIff(x, now);
  }

  lemma ShortageCodesIff(x: Inputs, now: int, c: Code)
    ensures c in ShortageCodes(x, now) <==>
            c in {PolicyCeilingReached, InsufficientStaffedCapacity} && Refuses(x, now, c)
  {
    KnownIff(x, now);
    RequestedIsPositive(x, now);
    ShortageIs(PolicyUnits(x), StaffedUnits(x), WipUnits(x), HeldUnits(x), DisputedUnits(x), RequestedUnits(x, now), c);
    if c in ShortageCodes(x, now) {
      var demand := WipUnits(x).value + HeldUnits(x).value + DisputedUnits(x).value + RequestedUnits(x, now).value;
      assert Known(x, now, PolicyUnits(x).value, StaffedUnits(x).value, demand);
      assert Refuses(x, now, c);
    } else {
      assert !(c in {PolicyCeilingReached, InsufficientStaffedCapacity} && Refuses(x, now, c));
    }
  }

  lemma LateIff(x: Inputs, now: int)
    ensures EarliestDue(x, now).Some? && EarliestDue(x, now).value > x.request.deadline.day <==>
            Refuses(x, now, RequestedDeadlineInfeasible)
  {
    EarliestDueIff(x, now);
    if EarliestDue(x, now).Some? {
      assert FeasibleOn(x, now, EarliestDue(x, now).value);
    }
  }

  lemma CannotIff(x: Inputs, now: int, c: Code)
    ensures c in CannotRaised(x, now) <==> Refuses(x, now, c)
  {
    ReadinessBlockIff(x, now, c);
    LateIff(x, now);
    ShortageCodesIff(x, now, c);
    var late := if EarliestDue(x, now).Some? && EarliestDue(x, now).value > x.request.deadline.day
                then [RequestedDeadlineInfeasible] else [];
    InThree(c, ReadinessBlock(x, now, CannotAccept), late, ShortageCodes(x, now));
  }

  lemma InFive(c: Code, one: seq<Code>, two: seq<Code>, three: seq<Code>, four: seq<Code>, five: seq<Code>)
    ensures c in one + two + three + four + five <==> c in one || c in two || c in three || c in four || c in five
  {
    InThree(c, one, two, three);
    InThree(c, one + two + three, four, five);
  }

  /** The doubts about request, policy, snapshot and profile. */
  function FirstCodes(x: Inputs, now: int): seq<Code> {
    RequestCodes(x) + PolicyCodes(x) + SnapshotCodes(x, now) + ReadinessBlock(x, now, Unknown) + ProfileCodes(x, now)
  }

  function RequestCodes(x: Inputs): seq<Code> {
    if x.request.wellFormed then [] else [CapacityRequestInvalid]
  }

  lemma FirstCodesIff(x: Inputs, now: int, c: Code)
    ensures c in FirstCodes(x, now) <==>
            || (c == CapacityRequestInvalid && !x.request.wellFormed)
            || (c == PolicyCeilingUnknown && !exists units :: PolicyIs(x, units))
            || SnapshotRaises(x, now, c) || ReadinessRaises(x, now, c) || ProfileRaises(x, now, c)
  {
    InFive(c, RequestCodes(x), PolicyCodes(x), SnapshotCodes(x, now), ReadinessBlock(x, now, Unknown),
           ProfileCodes(x, now));
    PolicyIff(x);
    SnapshotCodesIff(x, now, c);
    ReadinessBlockIff(x, now, c);
    ProfileCodesIff(x, now, c);
  }

  lemma UnknownIff(x: Inputs, now: int, c: Code)
    ensures c in UnknownRaised(x, now) <==> Doubts(x, now, c)
  {
    InFive(c, FirstCodes(x, now), CalendarCodes(x), WorkOrderCodes(x, now), AllocationCodes(x, now),
           DeadlineCodes(x, now));
    FirstCodesIff(x, now, c);
    CalendarCodesIff(x, c);
    WorkOrderCodesIff(x, now, c);
    AllocationCodesIff(x, now, c);
    DeadlineCodesIff(x, now, c);
  }

  lemma NothingIn(codes: seq<Code>)
    ensures codes == [] <==> forall c: Code :: c !in codes
  {
    if codes != [] {
      assert codes[0] in codes;
    }
  }

  /** Every published reason and nothing else: a code is among the reasons exactly when the inputs raise it, as a doubt
      or as a refusal; "gates satisfied" exactly when they raise nothing. */
  lemma ReasonIff(x: Inputs, now: int, id: string, c: Code)
    ensures c in Decide(x, now, id).reasons <==>
            || Doubts(x, now, c) || Refuses(x, now, c)
            || (c == AdmissionGatesSatisfied && forall other: Code :: !Doubts(x, now, other) && !Refuses(x, now, other))
  {
    ReasonsAreExact(x, now, id, c);
    forall other: Code
      ensures other in UnknownRaised(x, now) <==> Doubts(x, now, other)
      ensures other in CannotRaised(x, now) <==> Refuses(x, now, other)
    {
      UnknownIff(x, now, other);
      CannotIff(x, now, other);
    }
    NothingIn(UnknownRaised(x, now));
    NothingIn(CannotRaised(x, now));
  }

  /** The verdict follows: UNKNOWN as soon as there is any doubt, otherwise CANNOT_ACCEPT as soon as there is a
      refusal. */
  lemma VerdictFollows(x: Inputs, now: int, id: string)
    ensures Decide(x, now, id).verdict == Unknown <==> exists c: Code :: Doubts(x, now, c)
    ensures Decide(x, now, id).verdict == CannotAccept <==>
            (forall c: Code :: !Doubts(x, now, c)) && exists c: Code :: Refuses(x, now, c)
  {
    VerdictIff(x, now, id);
    forall c: Code
      ensures c in UnknownRaised(x, now) <==> Doubts(x, now, c)
      ensures c in CannotRaised(x, now) <==> Refuses(x, now, c)
    {
      UnknownIff(x, now, c);
      CannotIff(x, now, c);
    }
    NothingIn(UnknownRaised(x, now));
    NothingIn(CannotRaised(x, now));
  }

  // ---- The order of the reasons ------------------------------------------------------------------

  /** The part of the evaluation that raises a code. An invalid calendar is noted where it is read, or later, where its
      dates are. */
  function Rank(x: Inputs, c: Code): nat {
    match c
    case CapacityRequestInvalid => 0
    case PolicyCeilingUnknown => 1
    case StaffedCapacityUnknown | CapacitySnapshotInvalid | CapacitySnapshotFromFuture | CapacitySnapshotStale => 2
    case ReadinessUnknown | ReadinessEvidenceInvalid | ReadinessFromFuture | ReadinessStale => 3
    case DeliverableBindingDiverged => 4
    case EstimatedEffortUnknown => 5
    case WorkingCalendarUnknown | CalendarVersionDiverged => 6
    case WorkOrderSnapshotUnknown | WorkOrderSnapshotInvalid | WorkOrderSnapshotStale | WorkOrderInventoryIncomplete
      | ActiveWipInvalid | ActiveWipEffortUnknown => 7
    case AllocationSnapshotUnknown | AllocationSnapshotInvalid | AllocationSnapshotStale
      | AllocationInventoryIncomplete | ReconciliationRequired => 8
    case RequestedDeadlineUnknown | WorkingCalendarOutOfRange => 9
    case WorkingCalendarInvalid => if CalendarUsable(x) then 9 else 6
    case ReadinessNotReady => 10
    case RequestedDeadlineInfeasible => 11
    case PolicyCeilingReached => 12
    case _ => 13
  }

  ghost predicate InOrder(x: Inputs, codes: seq<Code>) {
    forall i, j :: 0 <= i < j < |codes| ==> Rank(x, codes[i]) <= Rank(x, codes[j])
  }

  /** All ranks lie in this range. */
  ghost predicate Within(x: Inputs, codes: seq<Code>, low: nat, high: nat) {
    forall c <- codes :: low <= Rank(x, c) <= high
  }

  lemma OrderedAppend(x: Inputs, a: seq<Code>, b: seq<Code>, low: nat, mid: nat, next: nat, high: nat)
    requires InOrder(x, a) && Within(x, a, low, mid) && InOrder(x, b) && Within(x, b, next, high)
    requires low <= mid <= next <= high
    ensures InOrder(x, a + b) && Within(x, a + b, low, high)
  {
    forall i, j | 0 <= i < j < |a + b|
      ensures Rank(x, (a + b)[i]) <= Rank(x, (a + b)[j])
    {
      if i < |a| <= j {
        assert a[i] in a && b[j - |a|] in b;
      }
    }
  }

  lemma {:induction false} NotedInOrder(x: Inputs, raised: seq<Code>)
    requires InOrder(x, raised)
    ensures InOrder(x, NoteAll([], raised))
    ensures forall c <- NoteAll([], raised) :: c in raised
  {
    if raised != [] {
      var init, last := Init(raised), Last(raised);
      assert forall i :: 0 <= i < |init| ==> init[i] == raised[i];
      NotedInOrder(x, init);
      forall c | c in init
        ensures Rank(x, c) <= Rank(x, last)
      {
        var i :| 0 <= i < |init| && init[i] == c;
        assert raised[i] == c;
      }
      assert raised == init + [last];
    }
  }

  lemma OneRank(x: Inputs, codes: seq<Code>, rank: nat)
    requires Within(x, codes, rank, rank)
    ensures InOrder(x, codes)
  {
    forall i, j | 0 <= i < j < |codes|
      ensures Rank(x, codes[i]) <= Rank(x, codes[j])
    {
      assert codes[i] in codes && codes[j] in codes;
    }
  }

  lemma SnapshotRanked(x: Inputs, now: int)
    ensures Within(x, SnapshotCodes(x, now), 2, 2)
  {
    forall c: Code | c in SnapshotCodes(x, now)
      ensures Rank(x, c) == 2
    {
      SnapshotCodesIff(x, now, c);
    }
  }

  lemma WorkOrdersRanked(x: Inputs, now: int)
    ensures Within(x, WorkOrderCodes(x, now), 7, 7)
  {
    forall c: Code | c in WorkOrderCodes(x, now)
      ensures Rank(x, c) == 7
    {
      WorkOrderCodesIff(x, now, c);
    }
  }

  lemma AllocationsRanked(x: Inputs, now: int)
    ensures Within(x, AllocationCodes(x, now), 8, 8)
  {
    forall c: Code | c in AllocationCodes(x, now)
      ensures Rank(x, c) == 8
    {
      AllocationCodesIff(x, now, c);
    }
  }

  lemma ProfileRanked(x: Inputs, now: int)
    ensures InOrder(x, ProfileCodes(x, now)) && Within(x, ProfileCodes(x, now), 4, 5)
  {
  }

  lemma ReadinessRanked(x: Inputs, now: int)
    ensures Within(x, ReadinessBlock(x, now, Unknown), 3, 3) && Within(x, ReadinessBlock(x, now, CannotAccept), 10, 10)
  {
    ReadinessCodeIff(x.readiness, now);
  }

  /** A part of one rank goes on after parts of lower ranks. */
  lemma PartGoesOn(x: Inputs, earlier: seq<Code>, part: seq<Code>, mid: nat, rank: nat)
    requires InOrder(x, earlier) && Within(x, earlier, 0, mid) && Within(x, part, rank, rank) && mid <= rank
    ensures InOrder(x, earlier + part) && Within(x, earlier + part, 0, rank)
  {
    OneRank(x, part, rank);
    OrderedAppend(x, earlier, part, 0, mid, rank, rank);
  }

  lemma FourGoOn(x: Inputs, one: seq<Code>, two: seq<Code>, three: seq<Code>, four: seq<Code>, start: nat, base: nat)
    requires InOrder(x, one) && Within(x, one, 0, start) && start <= base && Within(x, two, base, base)
    requires Within(x, three, base + 1, base + 1) && Within(x, four, base + 2, base + 2)
    ensures InOrder(x, one + two + three + four) && Within(x, one + two + three + four, 0, base + 2)
  {
    PartGoesOn(x, one, two, start, base);
    PartGoesOn(x, one + two, three, base, base + 1);
    PartGoesOn(x, one + two + three, four, base + 1, base + 2);
  }

  lemma FirstInOrder(x: Inputs, now: int)
    ensures InOrder(x, FirstCodes(x, now)) && Within(x, FirstCodes(x, now), 0, 5)
  {
    SnapshotRanked(x, now);
    ReadinessRanked(x, now);
    FourGoOn(x, RequestCodes(x), PolicyCodes(x), SnapshotCodes(x, now), ReadinessBlock(x, now, Unknown), 0, 1);
    ProfileRanked(x, now);
    var four := RequestCodes(x) + PolicyCodes(x) + SnapshotCodes(x, now) + ReadinessBlock(x, now, Unknown);
    OrderedAppend(x, four, ProfileCodes(x, now), 0, 3, 4, 5);
  }

  lemma UnknownInOrder(x: Inputs, now: int)
    ensures InOrder(x, UnknownRaised(x, now)) && Within(x, UnknownRaised(x, now), 0, 9)
  {
    FirstInOrder(x, now);
    WorkOrdersRanked(x, now);
    AllocationsRanked(x, now);
    FourGoOn(x, FirstCodes(x, now), CalendarCodes(x), WorkOrderCodes(x, now), AllocationCodes(x, now), 5, 6);
    var four := FirstCodes(x, now) + CalendarCodes(x) + WorkOrderCodes(x, now) + AllocationCodes(x, now);
    PartGoesOn(x, four, DeadlineCodes(x, now), 8, 9);
  }

  lemma ShortageInOrder(x: Inputs, now: int)
    ensures InOrder(x, ShortageCodes(x, now)) && Within(x, ShortageCodes(x, now), 12, 13)
  {
    ShortageRanked(x, PolicyUnits(x), StaffedUnits(x), WipUnits(x), HeldUnits(x), DisputedUnits(x),
                   RequestedUnits(x, now));
  }

  lemma ShortageRanked(x: Inputs, policy: Option<int>, staffed: Option<int>, wip: Option<int>, held: Option<int>,
          disputed: Option<int>, requested: Option<int>)
    ensures var codes := Shortage(policy, staffed, wip, held, disputed, requested);
            InOrder(x, codes) && Within(x, codes, 12, 13)
  {
  }

  lemma CannotInOrder(x: Inputs, now: int)
    ensures InOrder(x, CannotRaised(x, now)) && Within(x, CannotRaised(x, now), 10, 13)
  {
    ReadinessRanked(x, now);
    ShortageInOrder(x, now);
    var block := ReadinessBlock(x, now, CannotAccept);
    var late := if EarliestDue(x, now).Some? && EarliestDue(x, now).value > x.request.deadline.day
                then [RequestedDeadlineInfeasible] else [];
    OrderedAppend(x, block, late, 10, 10, 11, 11);
    OrderedAppend(x, block + late, ShortageCodes(x, now), 10, 11, 12, 13);
  }

  lemma {:induction false} WithoutInOrder(x: Inputs, codes: seq<Code>, drop: seq<Code>)
    requires InOrder(x, codes)
    ensures InOrder(x, Without(codes, drop)) && forall c <- Without(codes, drop) :: c in codes
  {
    if codes != [] {
      var init, last := Init(codes), Last(codes);
      assert forall i :: 0 <= i < |init| ==> init[i] == codes[i];
      WithoutInOrder(x, init, drop);
      forall c | c in init
        ensures Rank(x, c) <= Rank(x, last)
      {
        var i :| 0 <= i < |init| && init[i] == c;
        assert codes[i] == c;
      }
      assert codes == init + [last];
    }
  }

  /** The reasons come in the order of the evaluation, doubts before refusals, so the first one names the first part
      that found a problem. */
  lemma ReasonsInOrder(x: Inputs, now: int, id: string)
    ensures InOrder(x, Decide(x, now, id).reasons)
  {
    var unknown, cannot := NoteAll([], UnknownRaised(x, now)), NoteAll([], CannotRaised(x, now));
    UnknownInOrder(x, now);
    CannotInOrder(x, now);
    NotedInOrder(x, UnknownRaised(x, now));
    NotedInOrder(x, CannotRaised(x, now));
    WithoutInOrder(x, cannot, unknown);
    OrderedAppend(x, unknown, Without(cannot, unknown), 0, 9, 10, 13);
  }

  // ---- The numbers -------------------------------------------------------------------------------

  /** What is published of each authority, whatever the verdict: its number exactly when it can be read. */
  lemma AuthoritiesArePublished(x: Inputs, now: int, id: string, units: int)
    ensures var d := Decide(x, now, id);
            && (d.policy == Some(units) <==> PolicyIs(x, units)) && (d.staffed == Some(units) <==> StaffedIs(x, units))
            && (d.requested == Some(units) <==> RequestedIs(x, now, units))
            && d.wip == (if WorkOrdersListed(x) && !WorkOrdersRaise(x, now, ActiveWipEffortUnknown)
                         then Some(Total(Estimates(x.workOrders.value.rows))) else None)
            && d.held == (if AllocationsListed(x) then Some(Total(HeldEfforts(x.allocations.value.rows))) else None)
            && d.reconciliation ==
               (if AllocationsListed(x)
                then Some(Total(DoubtfulEfforts(x.allocations.value.rows, OngoingIds(x)))) else None)
            && RefSet(d.workOrderRefs) == OngoingIds(x)
  {
    PolicyIff(x);
    StaffedIff(x);
    RequestedIff(x, now);
    ConsumedIs(x, now);
    OngoingIdsAre(x);
  }

  lemma AvailableIs(policy: Option<int>, staffed: Option<int>, wip: Option<int>, held: Option<int>,
          disputed: Option<int>, units: int)
    requires units > 0
    ensures var a := Available(policy, staffed, wip, held, disputed);
            && (a.Some? <==> policy.Some? && staffed.Some? && wip.Some? && held.Some? && disputed.Some?)
            && (a.Some? ==>
                  && a.value >= 0
                  && (units <= a.value <==> wip.value + held.value + disputed.value + units <= policy.value
                                            && wip.value + held.value + disputed.value + units <= staffed.value))
  {
  }

  /** What is published as available is the most units that still fit under both ceilings, and it is published exactly
      when everything needed to know it is. */
  lemma AvailableIsPublished(x: Inputs, now: int, id: string, units: int)
    requires units > 0
    ensures var d := Decide(x, now, id);
            && (d.available.Some? <==>
                  d.policy.Some? && d.staffed.Some? && d.wip.Some? && d.held.Some? && d.reconciliation.Some?)
            && (d.available.Some? ==>
                  && d.available.value >= 0
                  && var consumed := d.wip.value + d.held.value + d.reconciliation.value;
                  (units <= d.available.value <==>
                     consumed + units <= d.policy.value && consumed + units <= d.staffed.value))
  {
    AvailableIs(PolicyUnits(x), StaffedUnits(x), WipUnits(x), HeldUnits(x), DisputedUnits(x), units);
  }

  /** One of the four authorities is current, and expires then. */
  ghost predicate ExpiresThen(x: Inputs, now: int, expiry: int) {
    || (&& x.snapshot.Some? && x.snapshot.value.schemaOk && x.snapshot.value.expiresAt == Some(expiry)
        && Current(x.snapshot.value.asOf, x.snapshot.value.expiresAt, now))
    || (ProfileIsReady(x, now) && x.readiness.value.expiresAt == Some(expiry))
    || (&& x.workOrders.Some? && x.workOrders.value.schemaOk && x.workOrders.value.expiresAt == Some(expiry)
        && Current(x.workOrders.value.asOf, x.workOrders.value.expiresAt, now))
    || (&& x.allocations.Some? && x.allocations.value.schemaOk && x.allocations.value.expiresAt == Some(expiry)
        && Current(x.allocations.value.asOf, x.allocations.value.expiresAt, now))
  }

  lemma ExpiriesIff(x: Inputs, now: int, expiry: int)
    ensures expiry in Expiries(x, now) <==> ExpiresThen(x, now, expiry)
  {
    ReadyIff(x, now);
  }

  /** The decision expires with the first of the authorities that are current, and never when none is. */
  lemma ExpiryIsPublished(x: Inputs, now: int, id: string)
    ensures var e := Decide(x, now, id).expiresAt;
            && (e.None? <==> forall expiry :: !ExpiresThen(x, now, expiry))
            && (e.Some? ==> ExpiresThen(x, now, e.value)
                            && forall expiry :: ExpiresThen(x, now, expiry) ==> e.value <= expiry)
  {
    forall expiry
      ensures expiry in Expiries(x, now) <==> ExpiresThen(x, now, expiry)
    {
      ExpiriesIff(x, now, expiry);
    }
    if Expiries(x, now) != [] {
      assert Expiries(x, now)[0] in Expiries(x, now);
    }
  }

  /** The due day, the evidence class and the binding that a decision carries. */
  lemma BindingIsPublished(x: Inputs, now: int, id: string, due: int)
    ensures var d := Decide(x, now, id);
            && (d.earliestDue == Some(due) <==> FeasibleOn(x, now, due))
            && (d.evidence == Absent <==> x.snapshot.None?)
            && (d.evidence == Real <==>
                  && x.snapshot.Some? && !(x.snapshot.value.schemaOk && x.snapshot.value.synthetic)
                  && !(x.readiness.Some? && x.readiness.value.syntheticOnly))
            && d.correlation == Some(x.request.correlation)
            && d.snapshotId == if x.snapshot.Some? && x.snapshot.value.schemaOk then x.snapshot.value.id else None
  {
    EarliestDueIff(x, now);
  }
}
