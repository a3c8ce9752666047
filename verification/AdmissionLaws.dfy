/** When v2 accepts, over time and over changes of load. */
module AdmissionLaws {
  import opened Prelude
  import opened Decisions
  import opened WorkOrders
  import opened Readiness
  import opened BusinessDays
  import opened AdmissionV2

  ghost predicate Current(asOf: Option<int>, expiresAt: Option<int>, now: int) {
    asOf.Some? && expiresAt.Some? && asOf.value <= now < expiresAt.value
  }

  ghost predicate WorkOrdersClear(x: Inputs, now: int) {
    && WipCounted(x) && x.workOrders.value.complete && Sound(x.workOrders.value.rows)
    && Current(x.workOrders.value.asOf, x.workOrders.value.expiresAt, now)
  }

  /** Every allocation row is countable, none is ambiguous, and every commitment is visible as an active work order. */
  ghost predicate AllocationsClear(x: Inputs, now: int) {
    && AllocationsCounted(x) && x.allocations.value.complete
    && AllocationRowsCodes(x.allocations.value.rows, RefSet(WipRefs(x))) == []
    && Current(x.allocations.value.asOf, x.allocations.value.expiresAt, now)
  }

  ghost predicate SnapshotClear(x: Inputs, now: int) {
    && SnapshotRead(x) && SnapshotShapeOk(x.snapshot.value) && !MaxAgeDiverges(x.snapshot.value)
    && Current(x.snapshot.value.asOf, x.snapshot.value.expiresAt, now)
  }

  ghost predicate ProfileClear(x: Inputs, now: int) {
    ProfileReady(x, now) && !BindingDiverges(x.request, x.readiness.value) && EffortKnown(x.readiness.value)
  }

  ghost predicate DeadlineMet(x: Inputs, now: int)
    requires ProfileClear(x, now)
  {
    && CalendarUsable(x) && !VersionDiverges(x) && CalendarDatesOk(x.calendar.value) && x.request.deadline.Day?
    && InRange(x.calendar.value, DayOf(now), x.request.deadline.day)
    && DueDay(x.calendar.value.days, DayOf(now), x.readiness.value.leadTime.value) <= x.request.deadline.day
  }

  /** Every authority is present, current and consistent, the deadline is feasible, and the units fit under both
      ceilings. */
  ghost predicate Admits(x: Inputs, now: int) {
    && x.request.wellFormed && PolicyUnits(x).Some?
    && SnapshotClear(x, now) && ProfileClear(x, now) && WorkOrdersClear(x, now) && AllocationsClear(x, now)
    && DeadlineMet(x, now)
    && ActiveUnits(x.workOrders.value.rows) + HeldSum(x.allocations.value.rows) + x.readiness.value.effort.value
       <= Min(PolicyUnits(x).value, StaffedUnits(x).value)
  }

  lemma {:induction false} ClearRowsDisputeNothing(rows: seq<Allocation>, active: set<string>)
    requires AllocationRowsCodes(rows, active) == []
    ensures DisputedSum(rows, active) == 0
  {
    if rows != [] {
      ClearRowsDisputeNothing(Init(rows), active);
    }
  }

  lemma NotedNothingIff(raised: seq<Code>)
    ensures NoteAll([], raised) == [] <==> raised == []
  {
    NoteAllIsSet([], raised);
    if raised != [] {
      assert raised[0] in NoteAll([], raised);
    }
  }

  /** Nothing unknown is raised exactly when every authority is clear and the calendar covers the dates. */
  lemma NothingUnknownIff(x: Inputs, now: int)
    ensures UnknownRaised(x, now) == [] <==>
            && x.request.wellFormed && PolicyUnits(x).Some? && SnapshotClear(x, now)
            && (ProfileClear(x, now) || ReadinessBlock(x, now, CannotAccept) != [])
            && WorkOrdersClear(x, now) && AllocationsClear(x, now)
            && CalendarUsable(x) && !VersionDiverges(x) && x.request.deadline.Day?
            && (EffortRead(x, now) ==>
                  CalendarDatesOk(x.calendar.value) && InRange(x.calendar.value, DayOf(now), x.request.deadline.day))
  {
  }

  lemma ShortageIff(x: Inputs, now: int)
    requires PolicyUnits(x).Some? && SnapshotClear(x, now) && ProfileClear(x, now)
    requires WorkOrdersClear(x, now) && AllocationsClear(x, now)
    ensures ShortageCodes(x, now) == [] <==>
            ActiveUnits(x.workOrders.value.rows) + HeldSum(x.allocations.value.rows) + x.readiness.value.effort.value
            <= Min(PolicyUnits(x).value, StaffedUnits(x).value)
  {
    ClearRowsDisputeNothing(x.allocations.value.rows, RefSet(WipRefs(x)));
  }

  lemma VerdictIff(x: Inputs, now: int, id: string)
    ensures Decide(x, now, id).verdict == Unknown <==> UnknownRaised(x, now) != []
    ensures Decide(x, now, id).verdict == CanAccept <==> UnknownRaised(x, now) == [] && CannotRaised(x, now) == []
  {
    NotedNothingIff(UnknownRaised(x, now));
    NotedNothingIff(CannotRaised(x, now));
  }

  lemma NothingRaisedIff(x: Inputs, now: int)
    ensures UnknownRaised(x, now) == [] && CannotRaised(x, now) == [] <==> Admits(x, now)
  {
    NothingUnknownIff(x, now);
    if UnknownRaised(x, now) == [] && ProfileClear(x, now) {
      ShortageIff(x, now);
    }
  }

  /** v2 answers CAN_ACCEPT exactly when the inputs admit the work; UNKNOWN exactly when any authority is in doubt. */
  lemma CanAcceptIff(x: Inputs, now: int, id: string)
    ensures Decide(x, now, id).verdict == CanAccept <==> Admits(x, now)
    ensures Decide(x, now, id).verdict == Unknown <==> UnknownRaised(x, now) != []
  {
    VerdictIff(x, now, id);
    NothingRaisedIff(x, now);
  }

  const EVERY_DAY := Calendar([0, 1, 2, 3, 4, 5, 6], [])

  /** One staffed unit, nothing in progress, and one unit of work asked for by day 2. */
  const ONE_UNIT_INPUTS := Inputs(
    Request(true, "corr", "deliverable", "1", "scope", "calendar", Day(2)),
    Some(Profile(ProductionReady, true, false, true, "deliverable", "1", "scope", Some(1), true, "effort", Some(1),
                 [true], Some(0), Some(9 * MICROSECONDS_PER_SECOND))),
    Some(Policy(true, Some(1))),
    Some(Snapshot(true, true, Some("snapshot"), Some(1), Some(1), Some(0), Some(8 * MICROSECONDS_PER_SECOND), Some(8),
                  Some("calendar"), true)),
    Some(WorkingCalendar(true, true, "calendar", true, Day(1), Day(2), EVERY_DAY)),
    Some(WorkOrderSnapshot(true, true, true, Some(0), Some(7 * MICROSECONDS_PER_SECOND), [])),
    Some(AllocationSnapshot(true, true, true, Some(0), Some(6 * MICROSECONDS_PER_SECOND), [])))

  lemma NextDayIsDue()
    ensures ValidCalendar(EVERY_DAY) && DueDay(EVERY_DAY, 1, 1) == 2
  {
    assert EVERY_DAY.weekdays[1] == 1 && Weekday(2) == 1;
    assert Count(EVERY_DAY, 1, 1) == 0;
    assert IsDue(EVERY_DAY, 1, 1, 2);
    DueUnique(EVERY_DAY, 1, 1, 2, DueDay(EVERY_DAY, 1, 1));
  }

  lemma OneUnitIsReady()
    ensures ProfileClear(ONE_UNIT_INPUTS, 0) && SnapshotClear(ONE_UNIT_INPUTS, 0)
  {
  }

  lemma OneUnitIsFree()
    ensures WorkOrdersClear(ONE_UNIT_INPUTS, 0) && AllocationsClear(ONE_UNIT_INPUTS, 0)
    ensures ActiveUnits(ONE_UNIT_INPUTS.workOrders.value.rows) == 0
    ensures HeldSum(ONE_UNIT_INPUTS.allocations.value.rows) == 0
  {
  }

  lemma OneUnitIsInTime()
    ensures ProfileClear(ONE_UNIT_INPUTS, 0) && DeadlineMet(ONE_UNIT_INPUTS, 0)
  {
    OneUnitIsReady();
    NextDayIsDue();
    assert DayOf(0) == 1;
  }

  /** The gates can all be passed: here is an input that is accepted. */
  lemma AcceptanceIsPossible()
    ensures Decide(ONE_UNIT_INPUTS, 0, "cadm").verdict == CanAccept
  {
    OneUnitIsReady();
    OneUnitIsFree();
    OneUnitIsInTime();
    CanAcceptIff(ONE_UNIT_INPUTS, 0, "cadm");
  }

  lemma {:induction false} WithoutIs(codes: seq<Code>, drop: seq<Code>)
    requires NoRepeats(codes)
    ensures forall c :: c in Without(codes, drop) <==> c in codes && c !in drop
    ensures NoRepeats(Without(codes, drop))
  {
    if codes != [] {
      WithoutIs(Init(codes), drop);
      assert codes == Init(codes) + [Last(codes)];
      assert forall i :: 0 <= i < |Init(codes)| ==> codes[i] == Init(codes)[i];
      assert Last(codes) !in Init(codes);
    }
  }

  lemma ReasonsJoin(unknown: seq<Code>, cannot: seq<Code>, c: Code)
    requires NoRepeats(unknown) && NoRepeats(cannot) && NoRepeats(Without(cannot, unknown))
    requires forall d :: d in Without(cannot, unknown) <==> d in cannot && d !in unknown
    ensures NoRepeats(ReasonsOf(unknown, cannot))
    ensures c in ReasonsOf(unknown, cannot) <==>
            c in unknown || c in cannot || (c == AdmissionGatesSatisfied && unknown == [] && cannot == [])
  {
    var rest := Without(cannot, unknown);
    forall i, j | 0 <= i < j < |unknown + rest|
      ensures (unknown + rest)[i] != (unknown + rest)[j]
    {
      if i < |unknown| <= j {
        assert rest[j - |unknown|] in rest && unknown[i] in unknown;
      }
    }
  }

  lemma ReasonsOfRaised(unknown: seq<Code>, cannot: seq<Code>, c: Code)
    ensures var reasons := ReasonsOf(NoteAll([], unknown), NoteAll([], cannot));
            && NoRepeats(reasons)
            && (c in reasons <==>
                  c in unknown || c in cannot || (c == AdmissionGatesSatisfied && unknown == [] && cannot == []))
  {
    NotedNothingIff(unknown);
    NotedNothingIff(cannot);
    NoteAllIsSet([], unknown);
    NoteAllIsSet([], cannot);
    WithoutIs(NoteAll([], cannot), NoteAll([], unknown));
    ReasonsJoin(NoteAll([], unknown), NoteAll([], cannot), c);
  }

  /** Whatever the verdict, the published reasons are exactly the problems found, each once: none is lost because an
      earlier one already settled the verdict, and "gates satisfied" is published only when there is none. */
  lemma ReasonsAreExact(x: Inputs, now: int, id: string, c: Code)
    ensures NoRepeats(Decide(x, now, id).reasons)
    ensures c in Decide(x, now, id).reasons <==>
            || c in UnknownRaised(x, now) || c in CannotRaised(x, now)
            || (c == AdmissionGatesSatisfied && UnknownRaised(x, now) == [] && CannotRaised(x, now) == [])
  {
    ReasonsOfRaised(UnknownRaised(x, now), CannotRaised(x, now), c);
  }

  lemma AdmittedNumbers(x: Inputs, now: int)
    requires Admits(x, now)
    ensures SnapshotRead(x) && x.snapshot.value.id.Some? && x.snapshot.value.id.value != ""
    ensures NonNegative(PolicyUnits(x)) && NonNegative(StaffedUnits(x)) && NonNegative(WipUnits(x))
    ensures NonNegative(HeldUnits(x))
    ensures DisputedUnits(x) == Some(0)
    ensures Positive(RequestedUnits(x, now)) && AvailableUnits(x).Some?
    ensures RequestedUnits(x, now).value <= AvailableUnits(x).value
  {
    ClearRowsDisputeNothing(x.allocations.value.rows, RefSet(WipRefs(x)));
  }

  /** The numbers an acceptance publishes are all known, dispute nothing, and leave room for what was requested. */
  lemma AcceptedNumbers(x: Inputs, now: int, id: string)
    requires Decide(x, now, id).verdict == CanAccept
    ensures var d := Decide(x, now, id);
            && d.snapshotId.Some? && d.snapshotId.value != "" && d.correlation == Some(x.request.correlation)
            && NonNegative(d.policy) && NonNegative(d.staffed) && NonNegative(d.wip) && NonNegative(d.held)
            && d.reconciliation == Some(0)
            && Positive(d.requested) && d.available.Some? && d.requested.value <= d.available.value
            && d.available == Available(d.policy, d.staffed, d.wip, d.held, d.reconciliation)
  {
    CanAcceptIff(x, now, id);
    AdmittedNumbers(x, now);
  }

  // ---- Over time ---------------------------------------------------------------------------------

  lemma DayOfMonotone(a: int, b: int)
    requires a <= b
    ensures DayOf(a) <= DayOf(b)
  {
  }

  lemma AdmitsUnbroken(x: Inputs, t1: int, t2: int, t3: int)
    requires t1 <= t2 <= t3 && Admits(x, t1) && Admits(x, t3)
    ensures Admits(x, t2)
  {
    DayOfMonotone(t1, t2);
    DayOfMonotone(t2, t3);
    DueMonotone(x.calendar.value.days, DayOf(t2), DayOf(t3), x.readiness.value.leadTime.value);
  }

  /** For fixed inputs the accepting instants form one unbroken interval. */
  lemma AcceptanceIsUnbroken(x: Inputs, id: string, t1: int, t2: int, t3: int)
    requires t1 <= t2 <= t3
    requires Decide(x, t1, id).verdict == CanAccept && Decide(x, t3, id).verdict == CanAccept
    ensures Decide(x, t2, id).verdict == CanAccept
  {
    CanAcceptIff(x, t1, id);
    CanAcceptIff(x, t2, id);
    CanAcceptIff(x, t3, id);
    AdmitsUnbroken(x, t1, t2, t3);
  }

  lemma LeastOfFour(a: int, b: int, c: int, d: int)
    ensures Least([a, b, c, d]) == Min(Min(a, b), Min(c, d))
  {
    var s := [a, b, c, d];
    assert s[0] in s && s[1] in s && s[2] in s && s[3] in s;
  }

  /** The earliest expiry of the four authorities. */
  function EarliestExpiry(x: Inputs): int
    requires x.snapshot.Some? && x.snapshot.value.expiresAt.Some? && x.readiness.Some?
    requires x.readiness.value.expiresAt.Some?
    requires x.workOrders.Some? && x.workOrders.value.expiresAt.Some? && x.allocations.Some?
    requires x.allocations.value.expiresAt.Some?
  {
    Min(Min(x.snapshot.value.expiresAt.value, x.readiness.value.expiresAt.value),
        Min(x.workOrders.value.expiresAt.value, x.allocations.value.expiresAt.value))
  }

  lemma CurrentIsFresh(asOf: Option<int>, expiresAt: Option<int>, now: int)
    requires Current(asOf, expiresAt, now)
    ensures IfFresh(asOf, expiresAt, now) == [expiresAt.value]
  {
  }

  lemma AdmittedExpiries(x: Inputs, now: int)
    requires Admits(x, now)
    ensures Expiries(x, now) == [x.snapshot.value.expiresAt.value, x.readiness.value.expiresAt.value,
                                 x.workOrders.value.expiresAt.value, x.allocations.value.expiresAt.value]
    ensures now < EarliestExpiry(x)
  {
    CurrentIsFresh(x.snapshot.value.asOf, x.snapshot.value.expiresAt, now);
    CurrentIsFresh(x.workOrders.value.asOf, x.workOrders.value.expiresAt, now);
    CurrentIsFresh(x.allocations.value.asOf, x.allocations.value.expiresAt, now);
  }

  /** Every acceptance publishes the same expiry: the earliest of the four authorities', and it is still ahead. */
  lemma AcceptanceExpires(x: Inputs, now: int, id: string)
    requires Decide(x, now, id).verdict == CanAccept
    ensures Admits(x, now)
    ensures Decide(x, now, id).expiresAt == Some(EarliestExpiry(x)) && now < EarliestExpiry(x)
  {
    CanAcceptIff(x, now, id);
    AdmittedExpiries(x, now);
    LeastOfFour(x.snapshot.value.expiresAt.value, x.readiness.value.expiresAt.value,
                x.workOrders.value.expiresAt.value, x.allocations.value.expiresAt.value);
  }

  // ---- Over load ---------------------------------------------------------------------------------

  /** The same work orders, with estimates that are no larger. */
  ghost predicate SmallerEstimates(a: seq<WorkOrder>, b: seq<WorkOrder>) {
    |a| == |b| && forall i :: 0 <= i < |a| ==>
      && a[i].id == b[i].id && a[i].stage == b[i].stage
      && (Positive(a[i].units) ==> Positive(b[i].units) && b[i].units.value <= a[i].units.value)
  }

  /** Ids and stages decide which rows are named and active. */
  lemma SameIdsSameActive(a: seq<WorkOrder>, b: seq<WorkOrder>, v: WorkOrder, w: WorkOrder)
    requires SmallerEstimates(a, b) && v.id == w.id && v.stage == w.stage
    ensures Seen(a) == Seen(b)
    ensures Identified(a, v) == Identified(b, w) && Active(a, v) == Active(b, w)
  {
    assert forall i :: 0 <= i < |a| ==> Named(a[i]) == Named(b[i]);
  }

  lemma {:induction false} SmallerEstimatesEase(a: seq<WorkOrder>, b: seq<WorkOrder>)
    requires SmallerEstimates(a, b) && Sound(a)
    ensures Sound(b) && ActiveUnits(b) <= ActiveUnits(a) && ActiveRefs(b) == ActiveRefs(a)
  {
    if a != [] {
      SmallerEstimatesEase(Init(a), Init(b));
      SameIdsSameActive(Init(a), Init(b), Last(a), Last(b));
    }
  }

  /** The same allocation rows, less some HELD ones. */
  ghost predicate FewerHolds(a: seq<Allocation>, b: seq<Allocation>) {
    if a == [] then b == []
    else
      || (b != [] && Last(b) == Last(a) && FewerHolds(Init(a), Init(b)))
      || (Last(a).state == Some(Held) && FewerHolds(Init(a), b))
  }

  lemma {:induction false} FewerHoldsEase(a: seq<Allocation>, b: seq<Allocation>, active: set<string>)
    requires FewerHolds(a, b) && AllocationRowsCodes(a, active) == []
    ensures AllocationRowsCodes(b, active) == [] && HeldSum(b) <= HeldSum(a) && SeenAllocations(b) <= SeenAllocations(a)
  {
    if a != [] {
      ReadAllocation(a, |a| - 1, active);
      assert a[..|a|] == a;
      if b != [] && Last(b) == Last(a) && FewerHolds(Init(a), Init(b)) {
        FewerHoldsEase(Init(a), Init(b), active);
        ReadAllocation(b, |b| - 1, active);
        assert b[..|b|] == b;
      } else {
        FewerHoldsEase(Init(a), b, active);
      }
    }
  }

  /** A later deadline within the calendar, higher ceilings, smaller estimates and fewer holds. */
  ghost predicate Eases(x: Inputs, y: Inputs) {
    && y.readiness == x.readiness && y.calendar == x.calendar && x.calendar.Some? && x.calendar.value.validUntil.Day?
    && x.request.deadline.Day? && y.request.deadline.Day? && y.request == x.request.(deadline := y.request.deadline)
    && x.request.deadline.day <= y.request.deadline.day <= x.calendar.value.validUntil.day
    && x.policy.Some? && y.policy.Some? && NonNegative(x.policy.value.ceiling) && NonNegative(y.policy.value.ceiling)
    && y.policy.value == x.policy.value.(ceiling := y.policy.value.ceiling)
    && x.policy.value.ceiling.value <= y.policy.value.ceiling.value
    && x.snapshot.Some? && y.snapshot.Some? && NonNegative(x.snapshot.value.staffed)
    && NonNegative(y.snapshot.value.staffed)
    && y.snapshot.value == x.snapshot.value.(staffed := y.snapshot.value.staffed)
    && x.snapshot.value.staffed.value <= y.snapshot.value.staffed.value
    && x.workOrders.Some? && y.workOrders.Some?
    && y.workOrders.value == x.workOrders.value.(rows := y.workOrders.value.rows)
    && SmallerEstimates(x.workOrders.value.rows, y.workOrders.value.rows)
    && x.allocations.Some? && y.allocations.Some?
    && y.allocations.value == x.allocations.value.(rows := y.allocations.value.rows)
    && FewerHolds(x.allocations.value.rows, y.allocations.value.rows)
  }

  lemma AdmitsSurvivesEasing(x: Inputs, y: Inputs, now: int)
    requires Admits(x, now) && Eases(x, y)
    ensures Admits(y, now)
  {
    SmallerEstimatesEase(x.workOrders.value.rows, y.workOrders.value.rows);
    FewerHoldsEase(x.allocations.value.rows, y.allocations.value.rows, RefSet(WipRefs(x)));
  }

  /** An acceptance survives any easing. */
  lemma AcceptanceSurvivesEasing(x: Inputs, y: Inputs, now: int, id: string)
    requires Decide(x, now, id).verdict == CanAccept && Eases(x, y)
    ensures Decide(y, now, id).verdict == CanAccept
  {
    CanAcceptIff(x, now, id);
    CanAcceptIff(y, now, id);
    AdmitsSurvivesEasing(x, y, now);
  }
}
