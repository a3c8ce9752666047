/** `evaluate_admission_v2`: the canonical evaluator, which collects every reason before it decides. */
module AdmissionV2 {
  import opened Prelude
  import opened Decisions
  import opened WorkOrders
  import opened Readiness
  import opened BusinessDays

  // ---- Inputs ------------------------------------------------------------------------------------

  /** `wellFormed` fields stand for checks against fixed text: units, flags, modes, ids, references and schemas. */
  datatype Request = Request(
    wellFormed: bool, correlation: string, deliverableId: string, deliverableVersion: string, scopeVersion: string,
    calendarVersion: string, deadline: DayField)

  datatype Policy = Policy(wellFormed: bool, ceiling: Option<int>)

  datatype Snapshot = Snapshot(schemaOk: bool, wellFormed: bool, id: Option<string>, version: Option<int>,
    staffed: Option<int>, asOf: Option<int>, expiresAt: Option<int>, maxAgeSeconds: Option<int>,
    calendarVersion: Option<string>, synthetic: bool)

  datatype WorkingCalendar = WorkingCalendar(
    schemaOk: bool, wellFormed: bool, version: string, synthetic: bool,
    validFrom: DayField, validUntil: DayField, days: Calendar)

  datatype WorkOrderSnapshot = WorkOrderSnapshot(
    schemaOk: bool, wellFormed: bool, complete: bool, asOf: Option<int>, expiresAt: Option<int>, rows: seq<WorkOrder>)

  datatype Allocation = Allocation(id: Option<string>, state: Option<AllocationState>, units: Option<int>,
    ambiguityKnown: bool, workOrderId: Option<string>)

  datatype AllocationSnapshot = AllocationSnapshot(
    schemaOk: bool, wellFormed: bool, complete: bool, asOf: Option<int>, expiresAt: Option<int>, rows: seq<Allocation>)

  datatype Inputs = Inputs(
    request: Request, readiness: Option<Profile>, policy: Option<Policy>, snapshot: Option<Snapshot>,
    calendar: Option<WorkingCalendar>, workOrders: Option<WorkOrderSnapshot>, allocations: Option<AllocationSnapshot>)

  // ---- Noting reasons ----------------------------------------------------------------------------

  function NoteAll(codes: seq<Code>, raised: seq<Code>): seq<Code> {
    if raised == [] then codes else Note(NoteAll(codes, Init(raised)), Last(raised))
  }

  lemma {:induction false} NoteAllAppend(codes: seq<Code>, a: seq<Code>, b: seq<Code>)
    ensures NoteAll(codes, a + b) == NoteAll(NoteAll(codes, a), b)
  {
    if b == [] {
      assert a + b == a;
    } else {
      NoteAllAppend(codes, a, Init(b));
      assert Init(a + b) == a + Init(b);
    }
  }

  ghost predicate NoRepeats(codes: seq<Code>) {
    forall i, j :: 0 <= i < j < |codes| ==> codes[i] != codes[j]
  }

  /** Noting loses no reason, invents none and repeats none. */
  lemma {:induction false} NoteAllIsSet(codes: seq<Code>, raised: seq<Code>)
    requires NoRepeats(codes)
    ensures forall c :: c in NoteAll(codes, raised) <==> c in codes || c in raised
    ensures NoRepeats(NoteAll(codes, raised))
  {
    if raised != [] {
      NoteAllIsSet(codes, Init(raised));
      assert raised == Init(raised) + [Last(raised)];
    }
  }

  // ---- Freshness ---------------------------------------------------------------------------------

  datatype Freshness = Fresh | Stale | Future | Invalid

  /** `_freshness`. */
  function FreshnessOf(asOf: Option<int>, expiresAt: Option<int>, now: int): Freshness {
    if asOf.None? || expiresAt.None? || asOf.value >= expiresAt.value then Invalid
    else if asOf.value > now then Future
    else if now >= expiresAt.value then Stale
    else Fresh
  }

  const MICROSECONDS_PER_SECOND := 1_000_000

  /** `int(delta.total_seconds())`: truncation toward zero. */
  function WholeSeconds(delta: int): int {
    if delta >= 0 then delta / MICROSECONDS_PER_SECOND else -(-delta / MICROSECONDS_PER_SECOND)
  }

  // ---- Policy ceiling and staffed snapshot -------------------------------------------------------

  function PolicyUnits(x: Inputs): Option<int> {
    if x.policy.Some? && x.policy.value.wellFormed && NonNegative(x.policy.value.ceiling) then x.policy.value.ceiling
        else None
  }

  function PolicyCodes(x: Inputs): seq<Code> {
    if PolicyUnits(x).None? then [PolicyCeilingUnknown] else []
  }

  predicate SnapshotShapeOk(s: Snapshot) {
    && s.wellFormed && s.id.Some? && s.id.value != "" && s.version.Some? && s.version.value >= 1
    && NonNegative(s.staffed)
    && s.calendarVersion.Some? && s.calendarVersion.value != "" && s.maxAgeSeconds.Some? && s.maxAgeSeconds.value > 0
  }

  predicate MaxAgeDiverges(s: Snapshot) {
    && s.asOf.Some? && s.expiresAt.Some? && s.maxAgeSeconds.Some?
    && WholeSeconds(s.expiresAt.value - s.asOf.value) != s.maxAgeSeconds.value
  }

  function SnapshotFreshCodes(f: Freshness): seq<Code> {
    match f
    case Fresh => []
    case Stale => [CapacitySnapshotStale]
    case Future => [CapacitySnapshotFromFuture]
    case Invalid => [CapacitySnapshotInvalid]
  }

  function SnapshotCodes(x: Inputs, now: int): seq<Code> {
    if x.snapshot.None? then [StaffedCapacityUnknown]
    else
      var s := x.snapshot.value;
      if !s.schemaOk then [CapacitySnapshotInvalid]
      else
        (if SnapshotShapeOk(s) then [] else [CapacitySnapshotInvalid])
        + SnapshotFreshCodes(FreshnessOf(s.asOf, s.expiresAt, now))
        + (if MaxAgeDiverges(s) then [CapacitySnapshotInvalid] else [])
  }

  predicate SnapshotRead(x: Inputs) {
    x.snapshot.Some? && x.snapshot.value.schemaOk
  }

  function StaffedUnits(x: Inputs): Option<int> {
    if SnapshotRead(x) && SnapshotShapeOk(x.snapshot.value) then x.snapshot.value.staffed else None
  }

  // ---- Readiness ---------------------------------------------------------------------------------

  predicate ProfileReady(x: Inputs, now: int) {
    ReadinessForAdmission(x.readiness, now).Ready?
  }

  function ReadinessBlock(x: Inputs, now: int, verdict: Verdict): seq<Code> {
    var r := ReadinessForAdmission(x.readiness, now);
    if r.NotAdmitted? && r.verdict == verdict then [r.code] else []
  }

  predicate BindingDiverges(r: Request, p: Profile) {
    r.deliverableId != p.deliverableId || r.deliverableVersion != p.deliverableVersion
        || r.scopeVersion != p.scopeVersion
  }

  predicate EffortKnown(p: Profile) {
    Positive(p.effort) && p.effortUnitIsSlot && p.effortVersion != "" && Positive(p.leadTime)
  }

  function ProfileCodes(x: Inputs, now: int): seq<Code> {
    if !ProfileReady(x, now) then []
    else
      (if BindingDiverges(x.request, x.readiness.value) then [DeliverableBindingDiverged] else [])
      + (if EffortKnown(x.readiness.value) then [] else [EstimatedEffortUnknown])
  }

  predicate EffortRead(x: Inputs, now: int) {
    ProfileReady(x, now) && EffortKnown(x.readiness.value)
  }

  function RequestedUnits(x: Inputs, now: int): Option<int> {
    if EffortRead(x, now) then x.readiness.value.effort else None
  }

  // ---- Calendar ----------------------------------------------------------------------------------

  predicate CalendarUsable(x: Inputs) {
    && x.calendar.Some? && x.calendar.value.schemaOk && x.calendar.value.wellFormed && x.calendar.value.version != ""
    && (SnapshotRead(x) && x.snapshot.value.id.Some? ==> x.calendar.value.synthetic == x.snapshot.value.synthetic)
  }

  predicate VersionDiverges(x: Inputs)
    requires CalendarUsable(x)
  {
    || x.request.calendarVersion != x.calendar.value.version
    || (SnapshotRead(x) && x.snapshot.value.calendarVersion.Some?
        && x.snapshot.value.calendarVersion.value != x.calendar.value.version)
  }

  function CalendarCodes(x: Inputs): seq<Code> {
    if x.calendar.None? then [WorkingCalendarUnknown]
    else if !CalendarUsable(x) then [WorkingCalendarInvalid]
    else if VersionDiverges(x) then [CalendarVersionDiverged]
    else []
  }

  // ---- Work orders -------------------------------------------------------------------------------

  function WorkOrderFreshCodes(f: Freshness): seq<Code> {
    match f
    case Fresh => []
    case Stale => [WorkOrderSnapshotStale]
    case Future | Invalid => [WorkOrderSnapshotInvalid]
  }

  predicate WorkOrdersRead(x: Inputs) {
    x.workOrders.Some? && x.workOrders.value.schemaOk
  }

  predicate WipCounted(x: Inputs) {
    WorkOrdersRead(x) && x.workOrders.value.wellFormed
  }

  function WorkOrderCodes(x: Inputs, now: int): seq<Code> {
    if x.workOrders.None? then [WorkOrderSnapshotUnknown]
    else
      var w := x.workOrders.value;
      if !w.schemaOk then [WorkOrderSnapshotInvalid]
      else
        WorkOrderFreshCodes(FreshnessOf(w.asOf, w.expiresAt, now))
        + (if w.complete then [] else [WorkOrderInventoryIncomplete])
        + (if w.wellFormed then WipCodes(w.rows) else [WorkOrderSnapshotInvalid])
  }

  /** The sum is given up for good at the first active row without an estimate. */
  function WipOf(rows: seq<WorkOrder>): Option<int> {
    if ActiveWipEffortUnknown in WipCodes(rows) then None else Some(ActiveUnits(rows))
  }

  function WipUnits(x: Inputs): Option<int> {
    if WipCounted(x) then WipOf(x.workOrders.value.rows) else None
  }

  function WipRefs(x: Inputs): seq<string> {
    if WipCounted(x) then ActiveRefs(x.workOrders.value.rows) else []
  }

  // ---- Allocations -------------------------------------------------------------------------------

  predicate AllocationShapeOk(a: Allocation) {
    a.id.Some? && a.id.value != "" && a.state.Some? && Positive(a.units)
  }

  function SeenAllocations(rows: seq<Allocation>): set<string> {
    set i | 0 <= i < |rows| && AllocationShapeOk(rows[i]) :: rows[i].id.value
  }

  predicate Countable(earlier: seq<Allocation>, a: Allocation) {
    AllocationShapeOk(a) && a.id.value !in SeenAllocations(earlier)
  }

  /** Committed effort whose work order is not among the active ones cannot be told from a lost one. */
  predicate Stray(a: Allocation, active: set<string>) {
    a.state == Some(Committed) && (a.workOrderId.None? || a.workOrderId.value !in active)
  }

  function AllocationRowCodes(earlier: seq<Allocation>, a: Allocation, active: set<string>): seq<Code> {
    if !Countable(earlier, a) then [AllocationSnapshotInvalid]
    else if a.state == Some(Reconciling) then
      (if a.ambiguityKnown then [] else [AllocationSnapshotInvalid]) + [ReconciliationRequired]
    else if Stray(a, active) then [ReconciliationRequired]
    else []
  }

  function AllocationRowsCodes(rows: seq<Allocation>, active: set<string>): seq<Code> {
    if rows == [] then []
        else AllocationRowsCodes(Init(rows), active) + AllocationRowCodes(Init(rows), Last(rows), active)
  }

  function HeldAt(earlier: seq<Allocation>, a: Allocation): nat {
    if Countable(earlier, a) && a.state == Some(Held) then a.units.value else 0
  }

  function DisputedAt(earlier: seq<Allocation>, a: Allocation, active: set<string>): nat {
    if Countable(earlier, a) && (a.state == Some(Reconciling) || Stray(a, active)) then a.units.value else 0
  }

  function HeldSum(rows: seq<Allocation>): nat {
    if rows == [] then 0 else HeldSum(Init(rows)) + HeldAt(Init(rows), Last(rows))
  }

  function DisputedSum(rows: seq<Allocation>, active: set<string>): nat {
    if rows == [] then 0 else DisputedSum(Init(rows), active) + DisputedAt(Init(rows), Last(rows), active)
  }

  predicate AllocationsCounted(x: Inputs) {
    x.allocations.Some? && x.allocations.value.schemaOk && x.allocations.value.wellFormed
  }

  function AllocationFreshCodes(f: Freshness): seq<Code> {
    match f
    case Fresh => []
    case Stale => [AllocationSnapshotStale]
    case Future | Invalid => [AllocationSnapshotInvalid]
  }

  function AllocationCodes(x: Inputs, now: int): seq<Code> {
    if x.allocations.None? then [AllocationSnapshotUnknown]
    else
      var a := x.allocations.value;
      if !a.schemaOk then [AllocationSnapshotInvalid]
      else
        AllocationFreshCodes(FreshnessOf(a.asOf, a.expiresAt, now))
        + (if a.complete then [] else [AllocationInventoryIncomplete])
        + (if a.wellFormed then AllocationRowsCodes(a.rows, RefSet(WipRefs(x))) else [AllocationSnapshotInvalid])
  }

  function HeldUnits(x: Inputs): Option<int> {
    if AllocationsCounted(x) then Some(HeldSum(x.allocations.value.rows)) else None
  }

  function DisputedUnits(x: Inputs): Option<int> {
    if AllocationsCounted(x) then Some(DisputedSum(x.allocations.value.rows, RefSet(WipRefs(x)))) else None
  }

  // ---- Deadline ----------------------------------------------------------------------------------

  predicate DeadlineTested(x: Inputs, now: int) {
    CalendarUsable(x) && x.request.deadline.Day? && EffortRead(x, now)
  }

  predicate CalendarDatesOk(c: WorkingCalendar) {
    c.validFrom.Day? && c.validUntil.Day? && ValidCalendar(c.days)
  }

  predicate InRange(c: WorkingCalendar, today: int, deadline: int)
    requires CalendarDatesOk(c)
  {
    c.validFrom.day <= today <= c.validUntil.day && deadline <= c.validUntil.day
  }

  function DeadlineCodes(x: Inputs, now: int): seq<Code> {
    (if x.request.deadline.Day? then [] else [RequestedDeadlineUnknown])
    + (if !DeadlineTested(x, now) then []
       else if !CalendarDatesOk(x.calendar.value) then [WorkingCalendarInvalid]
       else if !InRange(x.calendar.value, DayOf(now), x.request.deadline.day) then [WorkingCalendarOutOfRange]
       else [])
  }

  /** The earliest feasible day, when there is enough evidence to compute it. */
  ghost function EarliestDue(x: Inputs, now: int): Option<int> {
    if DeadlineTested(x, now) && CalendarDatesOk(x.calendar.value)
       && InRange(x.calendar.value, DayOf(now), x.request.deadline.day)
    then Some(DueDay(x.calendar.value.days, DayOf(now), x.readiness.value.leadTime.value))
    else None
  }

  // ---- Capacity and the decision -----------------------------------------------------------------

  /** What is left under the lower of the two ceilings, once everything needed to know it is known. */
  function Available(policy: Option<int>, staffed: Option<int>, wip: Option<int>, held: Option<int>,
          disputed: Option<int>): Option<int>
  {
    if policy.Some? && staffed.Some? && wip.Some? && held.Some? && disputed.Some?
    then Some(Max(0, Min(policy.value, staffed.value) - (wip.value + held.value + disputed.value)))
    else None
  }

  /** Which ceiling a shortage is due to; both when they are equal. */
  function Shortage(policy: Option<int>, staffed: Option<int>, wip: Option<int>, held: Option<int>,
          disputed: Option<int>, requested: Option<int>): seq<Code>
  {
    var available := Available(policy, staffed, wip, held, disputed);
    if available.None? || requested.None? || available.value >= requested.value then []
    else
      var consumed := wip.value + held.value + disputed.value;
      (if policy.value <= staffed.value && policy.value - consumed < requested.value then [PolicyCeilingReached]
          else [])
      + (if staffed.value <= policy.value && staffed.value - consumed < requested.value
          then [InsufficientStaffedCapacity] else [])
  }

  function AvailableUnits(x: Inputs): Option<int> {
    Available(PolicyUnits(x), StaffedUnits(x), WipUnits(x), HeldUnits(x), DisputedUnits(x))
  }

  function ShortageCodes(x: Inputs, now: int): seq<Code> {
    Shortage(PolicyUnits(x), StaffedUnits(x), WipUnits(x), HeldUnits(x), DisputedUnits(x), RequestedUnits(x, now))
  }

  /** Every unknown reason the inputs raise at an instant, in evaluation order. */
  function UnknownRaised(x: Inputs, now: int): seq<Code> {
    (if x.request.wellFormed then [] else [CapacityRequestInvalid])
    + PolicyCodes(x) + SnapshotCodes(x, now) + ReadinessBlock(x, now, Unknown) + ProfileCodes(x, now)
    + CalendarCodes(x) + WorkOrderCodes(x, now) + AllocationCodes(x, now) + DeadlineCodes(x, now)
  }

  ghost function CannotRaised(x: Inputs, now: int): seq<Code> {
    ReadinessBlock(x, now, CannotAccept)
    + (if EarliestDue(x, now).Some? && EarliestDue(x, now).value > x.request.deadline.day
       then [RequestedDeadlineInfeasible] else [])
    + ShortageCodes(x, now)
  }

  function VerdictOf(unknown: seq<Code>, cannot: seq<Code>): Verdict {
    if unknown != [] then Unknown else if cannot != [] then CannotAccept else CanAccept
  }

  function ReasonsOf(unknown: seq<Code>, cannot: seq<Code>): seq<Code> {
    if unknown != [] then unknown + Without(cannot, unknown)
    else if cannot != [] then cannot
    else [AdmissionGatesSatisfied]
  }

  function EvidenceOf(x: Inputs): EvidenceClass {
    if x.snapshot.None? then Absent
    else if (x.snapshot.value.schemaOk && x.snapshot.value.synthetic)
            || (x.readiness.Some? && x.readiness.value.syntheticOnly) then Synthetic
    else Real
  }

  function IfFresh(asOf: Option<int>, expiresAt: Option<int>, now: int): seq<int> {
    if FreshnessOf(asOf, expiresAt, now) == Fresh then [expiresAt.value] else []
  }

  /** Expiries of the authorities that are current at an instant. */
  function Expiries(x: Inputs, now: int): seq<int> {
    (if SnapshotRead(x) then IfFresh(x.snapshot.value.asOf, x.snapshot.value.expiresAt, now) else [])
    + (if ProfileReady(x, now) then [x.readiness.value.expiresAt.value] else [])
    + (if WorkOrdersRead(x) then IfFresh(x.workOrders.value.asOf, x.workOrders.value.expiresAt, now) else [])
    + (if x.allocations.Some? && x.allocations.value.schemaOk
       then IfFresh(x.allocations.value.asOf, x.allocations.value.expiresAt, now) else [])
  }

  function Least(s: seq<int>): (m: int)
    requires s != []
    ensures m in s && forall e <- s :: m <= e
  {
    assert s == [s[0]] + s[1..];
    if |s| == 1 then s[0] else Min(s[0], Least(s[1..]))
  }

  function Document(x: Inputs, now: int, id: string, unknown: seq<Code>, cannot: seq<Code>, wip: Option<int>,
          refs: seq<string>, held: Option<int>, disputed: Option<int>, due: Option<int>): Decision
  {
    V2(id, VerdictOf(unknown, cannot), ReasonsOf(unknown, cannot), EvidenceOf(x),
       Some(x.request.correlation), if SnapshotRead(x) then x.snapshot.value.id else None,
       PolicyUnits(x), StaffedUnits(x), wip, refs, held, disputed,
       RequestedUnits(x, now), Available(PolicyUnits(x), StaffedUnits(x), wip, held, disputed), due,
       if Expiries(x, now) == [] then None else Some(Least(Expiries(x, now))))
  }

  /** What `evaluate_admission_v2` decides. */
  ghost function Decide(x: Inputs, now: int, id: string): Decision {
    Document(x, now, id, NoteAll([], UnknownRaised(x, now)), NoteAll([], CannotRaised(x, now)),
             WipUnits(x), WipRefs(x), HeldUnits(x), DisputedUnits(x), EarliestDue(x, now))
  }

  // ---- The evaluator -----------------------------------------------------------------------------

  /** Everything the work-order loop carries. */
  datatype WipScan = WipScan(unknown: seq<Code>, wip: Option<int>, refs: seq<string>, seen: set<string>)

  function ScanRow(s: WipScan, w: WorkOrder): WipScan {
    if !Named(w) || w.id.value in s.seen then s.(unknown := Note(s.unknown, ActiveWipInvalid))
    else
      var t := s.(seen := s.seen + {w.id.value});
      if Terminal(w.stage.value) then t
      else if !Positive(w.units) then
        t.(refs := s.refs + [w.id.value], unknown := Note(s.unknown, ActiveWipEffortUnknown), wip := None)
      else t.(refs := s.refs + [w.id.value], wip := if s.wip.Some? then Some(s.wip.value + w.units.value) else None)
  }

  function ScanRows(s: WipScan, rows: seq<WorkOrder>): WipScan {
    if rows == [] then s else ScanRow(ScanRows(s, Init(rows)), Last(rows))
  }

  lemma NoteRow(codes: seq<Code>, earlier: seq<WorkOrder>, w: WorkOrder)
    ensures NoteAll(codes, RowCodes(earlier, w)) ==
            if !Identified(earlier, w) then Note(codes, ActiveWipInvalid)
            else if Active(earlier, w) && !Positive(w.units) then Note(codes, ActiveWipEffortUnknown)
            else codes
  {
    NoteAllOne(codes, ActiveWipInvalid);
    NoteAllOne(codes, ActiveWipEffortUnknown);
  }

  lemma ScanRowIs(codes: seq<Code>, earlier: seq<WorkOrder>, w: WorkOrder, rows: seq<WorkOrder>)
    requires rows == earlier + [w]
    ensures ScanRow(WipScan(codes, WipOf(earlier), ActiveRefs(earlier), Seen(earlier)), w) ==
            WipScan(NoteAll(codes, RowCodes(earlier, w)), WipOf(rows), ActiveRefs(rows), Seen(rows))
  {
    NoteRow(codes, earlier, w);
    SeenOne(earlier, w);
    assert Init(rows) == earlier && Last(rows) == w;
    assert ActiveRefs(earlier) + [] == ActiveRefs(earlier);
  }

  /** The loop computes the reasons, the sum, the active ids and the ids seen. */
  lemma {:induction false} ScanIs(noted: seq<Code>, rows: seq<WorkOrder>)
    ensures ScanRows(WipScan(noted, Some(0), [], {}), rows) ==
            WipScan(NoteAll(noted, WipCodes(rows)), WipOf(rows), ActiveRefs(rows), Seen(rows))
  {
    if rows != [] {
      var earlier, w := Init(rows), Last(rows);
      assert rows == earlier + [w];
      ScanIs(noted, earlier);
      NoteAllAppend(noted, WipCodes(earlier), RowCodes(earlier, w));
      ScanRowIs(NoteAll(noted, WipCodes(earlier)), earlier, w, rows);
    }
  }

  /** The work-order loop skips a bad row, notes why and reads on. */
  method ScanWorkOrders(rows: seq<WorkOrder>, noted: seq<Code>)
    returns (unknown: seq<Code>, wip: Option<int>, refs: seq<string>)
    ensures unknown == NoteAll(noted, WipCodes(rows))
    ensures wip == WipOf(rows)
    ensures refs == ActiveRefs(rows)
  {
    unknown, wip, refs := noted, Some(0), [];
    var seen: set<string> := {};
    for i := 0 to |rows|
      invariant WipScan(unknown, wip, refs, seen) == ScanRows(WipScan(noted, Some(0), [], {}), rows[..i])
    {
      var w := rows[i];
      assert Init(rows[..i + 1]) == rows[..i] && Last(rows[..i + 1]) == w;
      if w.id.None? || w.id.value == "" || w.id.value in seen || w.stage.None? {
        unknown := Note(unknown, ActiveWipInvalid);
        continue;
      }
      seen := seen + {w.id.value};
      if Terminal(w.stage.value) {
        continue;
      }
      refs := refs + [w.id.value];
      if w.units.None? || w.units.value <= 0 {
        unknown, wip := Note(unknown, ActiveWipEffortUnknown), None;
        continue;
      }
      if wip.Some? {
        wip := Some(wip.value + w.units.value);
      }
    }
    assert rows[..|rows|] == rows;
    ScanIs(noted, rows);
  }

  lemma NoteAllOne(codes: seq<Code>, code: Code)
    ensures NoteAll(codes, [code]) == Note(codes, code) && NoteAll(codes, []) == codes
  {
    assert Init([code]) == [] && Last([code]) == code;
  }

  lemma ReadAllocation(rows: seq<Allocation>, i: nat, active: set<string>)
    requires i < |rows|
    ensures var earlier, next, a := rows[..i], rows[..i + 1], rows[i];
            && AllocationRowsCodes(next, active) ==
                  AllocationRowsCodes(earlier, active) + AllocationRowCodes(earlier, a, active)
            && HeldSum(next) == HeldSum(earlier) + HeldAt(earlier, a)
            && DisputedSum(next, active) == DisputedSum(earlier, active) + DisputedAt(earlier, a, active)
            && SeenAllocations(next) == SeenAllocations(earlier) + if AllocationShapeOk(a) then {a.id.value} else {}
  {
    assert Init(rows[..i + 1]) == rows[..i] && Last(rows[..i + 1]) == rows[i];
    SeenAllocationsOne(rows[..i], rows[i]);
    assert rows[..i] + [rows[i]] == rows[..i + 1];
  }

  lemma SeenAllocationsOne(earlier: seq<Allocation>, a: Allocation)
    ensures SeenAllocations(earlier + [a]) == SeenAllocations(earlier) + if AllocationShapeOk(a) then {a.id.value}
            else {}
  {
    var next := earlier + [a];
    assert forall i :: 0 <= i < |earlier| ==> next[i] == earlier[i];
    assert next[|earlier|] == a;
  }

  /** Everything the allocation loop carries. */
  datatype AllocationScan = AllocationScan(unknown: seq<Code>, held: nat, disputed: nat, seen: set<string>)

  function ScanAllocation(s: AllocationScan, a: Allocation, active: set<string>): AllocationScan {
    if !AllocationShapeOk(a) || a.id.value in s.seen then s.(unknown := Note(s.unknown, AllocationSnapshotInvalid))
    else
      var t := s.(seen := s.seen + {a.id.value});
      match a.state.value
      case Held => t.(held := s.held + a.units.value)
      case Reconciling =>
        t.(disputed := s.disputed + a.units.value,
           unknown := Note(if a.ambiguityKnown then s.unknown
               else Note(s.unknown, AllocationSnapshotInvalid), ReconciliationRequired))
      case Committed =>
        if Stray(a, active) then
          t.(disputed := s.disputed + a.units.value, unknown := Note(s.unknown, ReconciliationRequired))
        else t
      case Released | Expired => t
  }

  function ScanAllocationRows(s: AllocationScan, rows: seq<Allocation>, active: set<string>): AllocationScan {
    if rows == [] then s else ScanAllocation(ScanAllocationRows(s, Init(rows), active), Last(rows), active)
  }

  lemma NoteAllocationRow(codes: seq<Code>, earlier: seq<Allocation>, a: Allocation, active: set<string>)
    ensures NoteAll(codes, AllocationRowCodes(earlier, a, active)) ==
            if !Countable(earlier, a) then Note(codes, AllocationSnapshotInvalid)
            else if a.state == Some(Reconciling) then
              Note(if a.ambiguityKnown then codes else Note(codes, AllocationSnapshotInvalid), ReconciliationRequired)
            else if Stray(a, active) then Note(codes, ReconciliationRequired)
            else codes
  {
    NoteAllOne(codes, AllocationSnapshotInvalid);
    NoteAllOne(codes, ReconciliationRequired);
    NoteAllAppend(codes, [AllocationSnapshotInvalid], [ReconciliationRequired]);
    NoteAllOne(Note(codes, AllocationSnapshotInvalid), ReconciliationRequired);
    assert [] + [ReconciliationRequired] == [ReconciliationRequired];
  }

  /** What one row adds to the two sums and to the ids seen. */
  lemma ScanAllocationAdds(s: AllocationScan, earlier: seq<Allocation>, a: Allocation, active: set<string>)
    requires s.seen == SeenAllocations(earlier)
    ensures var t := ScanAllocation(s, a, active);
            && t.held == s.held + HeldAt(earlier, a) && t.disputed == s.disputed + DisputedAt(earlier, a, active)
            && t.seen == s.seen + (if AllocationShapeOk(a) then {a.id.value} else {})
  {
  }

  /** What one row notes. */
  lemma ScanAllocationNotes(s: AllocationScan, earlier: seq<Allocation>, a: Allocation, active: set<string>)
    requires s.seen == SeenAllocations(earlier)
    ensures ScanAllocation(s, a, active).unknown == NoteAll(s.unknown, AllocationRowCodes(earlier, a, active))
  {
    NoteAllocationRow(s.unknown, earlier, a, active);
  }

  lemma ScanAllocationIs(codes: seq<Code>, earlier: seq<Allocation>, a: Allocation, rows: seq<Allocation>,
          active: set<string>)
    requires rows == earlier + [a]
    ensures ScanAllocation(AllocationScan(codes, HeldSum(earlier), DisputedSum(earlier, active),
            SeenAllocations(earlier)), a, active) ==
            AllocationScan(NoteAll(codes, AllocationRowCodes(earlier, a, active)), HeldSum(rows),
                DisputedSum(rows, active),
                           SeenAllocations(rows))
  {
    var s := AllocationScan(codes, HeldSum(earlier), DisputedSum(earlier, active), SeenAllocations(earlier));
    ScanAllocationAdds(s, earlier, a, active);
    ScanAllocationNotes(s, earlier, a, active);
    assert rows[..|earlier|] == earlier && rows[..|earlier| + 1] == rows;
    ReadAllocation(rows, |earlier|, active);
  }

  /** The loop computes the reasons, the two sums and the ids seen. */
  lemma {:induction false} AllocationScanIs(noted: seq<Code>, rows: seq<Allocation>, active: set<string>)
    ensures ScanAllocationRows(AllocationScan(noted, 0, 0, {}), rows, active) ==
            AllocationScan(NoteAll(noted, AllocationRowsCodes(rows, active)), HeldSum(rows), DisputedSum(rows, active),
                SeenAllocations(rows))
  {
    if rows != [] {
      var earlier, a := Init(rows), Last(rows);
      assert rows == earlier + [a];
      AllocationScanIs(noted, earlier, active);
      NoteAllAppend(noted, AllocationRowsCodes(earlier, active), AllocationRowCodes(earlier, a, active));
      ScanAllocationIs(NoteAll(noted, AllocationRowsCodes(earlier, active)), earlier, a, rows, active);
    }
  }

  method ScanAllocations(rows: seq<Allocation>, active: set<string>, noted: seq<Code>)
    returns (unknown: seq<Code>, held: nat, disputed: nat)
    ensures unknown == NoteAll(noted, AllocationRowsCodes(rows, active))
    ensures held == HeldSum(rows) && disputed == DisputedSum(rows, active)
  {
    unknown, held, disputed := noted, 0, 0;
    var seen: set<string> := {};
    for i := 0 to |rows|
      invariant AllocationScan(unknown, held, disputed, seen) ==
              ScanAllocationRows(AllocationScan(noted, 0, 0, {}), rows[..i], active)
    {
      var a := rows[i];
      assert Init(rows[..i + 1]) == rows[..i] && Last(rows[..i + 1]) == a;
      if !AllocationShapeOk(a) || a.id.value in seen {
        unknown := Note(unknown, AllocationSnapshotInvalid);
        continue;
      }
      seen := seen + {a.id.value};
      if a.state.value == Held {
        held := held + a.units.value;
      } else if a.state.value == Reconciling {
        if !a.ambiguityKnown {
          unknown := Note(unknown, AllocationSnapshotInvalid);
        }
        disputed := disputed + a.units.value;
        unknown := Note(unknown, ReconciliationRequired);
      } else if a.state.value == Committed && (a.workOrderId.None? || a.workOrderId.value !in active) {
        disputed := disputed + a.units.value;
        unknown := Note(unknown, ReconciliationRequired);
      }
    }
    assert rows[..|rows|] == rows;
    AllocationScanIs(noted, rows, active);
  }

  /** Notes what the work-order snapshot raises and reads off its effort and its active ids. */
  method NoteWorkOrders(x: Inputs, now: int, noted: seq<Code>)
    returns (unknown: seq<Code>, wip: Option<int>, refs: seq<string>)
    ensures unknown == NoteAll(noted, WorkOrderCodes(x, now))
    ensures wip == WipUnits(x) && refs == WipRefs(x)
  {
    wip, refs := None, [];
    if !WorkOrdersRead(x) {
      unknown := NoteAll(noted, WorkOrderCodes(x, now));
      return;
    }
    var w := x.workOrders.value;
    var age := WorkOrderFreshCodes(FreshnessOf(w.asOf, w.expiresAt, now));
    var incomplete := if w.complete then [] else [WorkOrderInventoryIncomplete];
    unknown := NoteAll(noted, age + incomplete);
    if !w.wellFormed {
      NoteAllAppend(noted, age + incomplete, [WorkOrderSnapshotInvalid]);
      unknown := NoteAll(unknown, [WorkOrderSnapshotInvalid]);
    } else {
      NoteAllAppend(noted, age + incomplete, WipCodes(w.rows));
      unknown, wip, refs := ScanWorkOrders(w.rows, unknown);
    }
  }

  /** Notes what the allocation snapshot raises and sums its held and disputed effort. */
  method NoteAllocations(x: Inputs, now: int, refs: seq<string>, noted: seq<Code>)
    returns (unknown: seq<Code>, held: Option<int>, disputed: Option<int>)
    requires refs == WipRefs(x)
    ensures unknown == NoteAll(noted, AllocationCodes(x, now))
    ensures held == HeldUnits(x) && disputed == DisputedUnits(x)
  {
    held, disputed := None, None;
    if x.allocations.None? || !x.allocations.value.schemaOk {
      unknown := NoteAll(noted, AllocationCodes(x, now));
      return;
    }
    var a := x.allocations.value;
    var age := AllocationFreshCodes(FreshnessOf(a.asOf, a.expiresAt, now));
    var incomplete := if a.complete then [] else [AllocationInventoryIncomplete];
    unknown := NoteAll(noted, age + incomplete);
    if !a.wellFormed {
      NoteAllAppend(noted, age + incomplete, [AllocationSnapshotInvalid]);
      unknown := NoteAll(unknown, [AllocationSnapshotInvalid]);
    } else {
      NoteAllAppend(noted, age + incomplete, AllocationRowsCodes(a.rows, RefSet(refs)));
      var sumHeld, sumDisputed;
      unknown, sumHeld, sumDisputed := ScanAllocations(a.rows, RefSet(refs), unknown);
      held, disputed := Some(sumHeld), Some(sumDisputed);
    }
  }

  /** The earliest feasible day, by the business-day loop. */
  method FindEarliestDue(x: Inputs, now: int) returns (due: Option<int>)
    ensures due == EarliestDue(x, now)
  {
    if !DeadlineTested(x, now) {
      return None;
    }
    var c, lead := x.calendar.value, x.readiness.value.leadTime.value;
    var earliest := AddBusinessDays(DayOf(now), lead, c.days);
    if earliest.Err? || !c.validFrom.Day? || !c.validUntil.Day?
       || !InRange(c, DayOf(now), x.request.deadline.day) {
      return None;
    }
    DueUnique(c.days, DayOf(now), lead, earliest.value, DueDay(c.days, DayOf(now), lead));
    return Some(earliest.value);
  }

  method EvaluateAdmissionV2(x: Inputs, now: int, id: string) returns (d: Decision)
    ensures d == Decide(x, now, id)
  {
    var unknown := NoteAll([], if x.request.wellFormed then [] else [CapacityRequestInvalid]);
    ghost var raised := if x.request.wellFormed then [] else [CapacityRequestInvalid];
    NoteAllAppend([], raised, PolicyCodes(x));
    unknown, raised := NoteAll(unknown, PolicyCodes(x)), raised + PolicyCodes(x);
    NoteAllAppend([], raised, SnapshotCodes(x, now));
    unknown, raised := NoteAll(unknown, SnapshotCodes(x, now)), raised + SnapshotCodes(x, now);
    NoteAllAppend([], raised, ReadinessBlock(x, now, Unknown));
    unknown, raised := NoteAll(unknown, ReadinessBlock(x, now, Unknown)), raised + ReadinessBlock(x, now, Unknown);
    NoteAllAppend([], raised, ProfileCodes(x, now));
    unknown, raised := NoteAll(unknown, ProfileCodes(x, now)), raised + ProfileCodes(x, now);
    NoteAllAppend([], raised, CalendarCodes(x));
    unknown, raised := NoteAll(unknown, CalendarCodes(x)), raised + CalendarCodes(x);
    NoteAllAppend([], raised, WorkOrderCodes(x, now));
    var wip, refs, held, disputed;
    unknown, wip, refs := NoteWorkOrders(x, now, unknown);
    raised := raised + WorkOrderCodes(x, now);
    NoteAllAppend([], raised, AllocationCodes(x, now));
    unknown, held, disputed := NoteAllocations(x, now, refs, unknown);
    raised := raised + AllocationCodes(x, now);
    NoteAllAppend([], raised, DeadlineCodes(x, now));
    unknown := NoteAll(unknown, DeadlineCodes(x, now));
    assert unknown == NoteAll([], UnknownRaised(x, now));

    var due := FindEarliestDue(x, now);
    var late := if due.Some? && due.value > x.request.deadline.day then [RequestedDeadlineInfeasible] else [];
    var cannot := NoteAll([], ReadinessBlock(x, now, CannotAccept));
    NoteAllAppend([], ReadinessBlock(x, now, CannotAccept), late);
    cannot := NoteAll(cannot, late);
    var shortage := Shortage(PolicyUnits(x), StaffedUnits(x), wip, held, disputed, RequestedUnits(x, now));
    NoteAllAppend([], ReadinessBlock(x, now, CannotAccept) + late, shortage);
    cannot := NoteAll(cannot, shortage);

    return Document(x, now, id, unknown, cannot, wip, refs, held, disputed, due);
  }
}
