/** `evaluate_admission`: the fail-closed v1 evaluator behind the canary gate. */
module AdmissionV1 {
  import opened Prelude
  import opened Decisions
  import opened WorkOrders
  import opened Readiness
  import opened BusinessDays

  datatype Request = Request(
    correlation: string, deliverableId: string, deliverableVersion: string,
    calendarVersion: Option<string>, deadline: DayField)

  datatype PinnedCalendar = PinnedCalendar(version: string, validFrom: DayField, validUntil: DayField, days: Calendar)

  /** `wellFormed`: unit, policy-ceiling flag, checkout flag and evidence references are as required. */
  datatype Snapshot = Snapshot(
    schemaOk: bool, wellFormed: bool, synthetic: bool, id: string,
    staffed: Option<int>, asOf: Option<int>, expiresAt: Option<int>, calendar: Option<PinnedCalendar>)

  datatype Inputs = Inputs(
    request: Request, readiness: Option<Profile>, snapshot: Option<Snapshot>,
    workOrders: Option<seq<WorkOrder>>, reserved: Option<int>)

  datatype Block = Block(verdict: Verdict, code: Code)

  /** The guards before work in progress is read, in order: the first that fails decides. */
  function FirstGuard(x: Inputs, now: int): Option<Block> {
    var verdict := ReadinessForAdmission(x.readiness, now);
    if verdict.NotAdmitted? then Some(Block(verdict.verdict, verdict.code))
    else if x.snapshot.None? then Some(Block(Unknown, StaffedCapacityUnknown))
    else
      var s := x.snapshot.value;
      if !s.schemaOk then Some(Block(Unknown, CapacitySnapshotInvalid))
      else if !NonNegative(s.staffed) then Some(Block(Unknown, StaffedCapacityUnknown))
      else if s.asOf.None? || s.expiresAt.None? then Some(Block(Unknown, CapacityFreshnessUnknown))
      else if s.asOf.value >= s.expiresAt.value || now < s.asOf.value
          then Some(Block(Unknown, CapacitySnapshotFromFuture))
      else if now >= s.expiresAt.value then Some(Block(Unknown, CapacitySnapshotStale))
      else if x.workOrders.None? then Some(Block(Unknown, ActiveWipUnknown))
      else if !NonNegative(x.reserved) then Some(Block(Unknown, CapacityAllocationsUnknown))
      else if !s.wellFormed then Some(Block(Unknown, CapacitySnapshotInvalid))
      else if x.request.deliverableId != x.readiness.value.deliverableId
              || x.request.deliverableVersion != x.readiness.value.deliverableVersion then
        Some(Block(Unknown, DeliverableBindingDiverged))
      else if x.request.calendarVersion != (if s.calendar.Some? then Some(s.calendar.value.version) else None) then
        Some(Block(Unknown, CalendarVersionDiverged))
      else None
  }

  /** Once every guard has passed, the deadline and calendar must be readable and the calendar must cover both. */
  function CalendarGuard(x: Inputs, now: int): Option<Block>
    requires FirstGuard(x, now) == None
  {
    var calendar, deadline := x.snapshot.value.calendar, x.request.deadline;
    if calendar.None? || deadline.Missing? then Some(Block(Unknown, DeadlineOrCalendarUnknown))
    else if deadline.NotADay? || !calendar.value.validFrom.Day? || !calendar.value.validUntil.Day?
            || !ValidCalendar(calendar.value.days) then
      Some(Block(Unknown, WorkingCalendarInvalid))
    else if !(calendar.value.validFrom.day <= DayOf(now) <= calendar.value.validUntil.day)
            || deadline.day > calendar.value.validUntil.day then
      Some(Block(Unknown, WorkingCalendarOutOfRange))
    else None
  }

  function Blocked(x: Inputs, id: string, block: Block): Decision {
    V1(id, block.verdict, [block.code], x.snapshot.Some? && x.snapshot.value.synthetic, None,
       if x.snapshot.Some? then Some(x.snapshot.value.id) else None,
       None, None, [], None, None, None, None, None)
  }

  function Decided(x: Inputs, now: int, id: string, wip: nat, refs: seq<string>, due: int): Decision
    requires FirstGuard(x, now) == None && CalendarGuard(x, now) == None
  {
    var staffed, reserved, effort := x.snapshot.value.staffed.value, x.reserved.value, x.readiness.value.effort.value;
    var available := staffed - wip - reserved;
    var short := staffed == 0 || available < effort;
    var late := due > x.request.deadline.day;
    V1(id, if short || late then CannotAccept else CanAccept,
       (if short then [InsufficientStaffedCapacity] else []) + (if late then [RequestedDeadlineInfeasible] else []),
       x.snapshot.value.synthetic, Some(x.request.correlation), Some(x.snapshot.value.id),
       Some(staffed), Some(wip), refs, Some(reserved),
       Some(effort), Some(Max(0, available)), Some(Max(0, staffed - wip)), Some(due))
  }

  /** What `evaluate_admission` decides. */
  ghost function Decide(x: Inputs, now: int, id: string): Decision {
    if FirstGuard(x, now).Some? then Blocked(x, id, FirstGuard(x, now).value)
    else
      var rows := x.workOrders.value;
      if !Sound(rows) then Blocked(x, id, Block(Unknown, WipCodes(rows)[0]))
      else if CalendarGuard(x, now).Some? then Blocked(x, id, CalendarGuard(x, now).value)
      else Decided(x, now, id, ActiveUnits(rows), ActiveRefs(rows),
                   DueDay(x.snapshot.value.calendar.value.days, DayOf(now), x.readiness.value.leadTime.value))
  }

  /** The work-in-progress loop stops at the first bad row. */
  method ReadWip(rows: seq<WorkOrder>) returns (r: Result<nat, Code>)
    ensures r == if Sound(rows) then Ok(ActiveUnits(rows)) else Err(WipCodes(rows)[0])
  {
    var active: nat := 0;
    var seen: set<string> := {};
    for i := 0 to |rows|
      invariant Sound(rows[..i]) && active == ActiveUnits(rows[..i]) && seen == Seen(rows[..i])
    {
      var w := rows[i];
      ReadOne(rows, i);
      if w.id.None? || w.id.value == "" || w.id.value in seen || w.stage.None? {
        CodesExtend(rows, i + 1);
        return Err(ActiveWipInvalid);
      }
      seen := seen + {w.id.value};
      if Terminal(w.stage.value) {
        continue;
      }
      if w.units.None? || w.units.value <= 0 {
        CodesExtend(rows, i + 1);
        return Err(ActiveWipEffortUnknown);
      }
      active := active + w.units.value;
    }
    assert rows[..|rows|] == rows;
    return Ok(active);
  }

  method ReadRefs(rows: seq<WorkOrder>) returns (refs: seq<string>)
    requires Sound(rows)
    ensures refs == ActiveRefs(rows)
  {
    refs := [];
    SoundIff(rows);
    for i := 0 to |rows|
      invariant refs == ActiveRefs(rows[..i])
    {
      ReadOne(rows, i);
      CodesExtend(rows, i + 1);
      if !Terminal(rows[i].stage.value) {
        refs := refs + [rows[i].id.value];
      }
    }
    assert rows[..|rows|] == rows;
  }

  method EvaluateAdmission(x: Inputs, now: int, id: string) returns (d: Decision)
    ensures d == Decide(x, now, id)
  {
    var guard := FirstGuard(x, now);
    if guard.Some? {
      return Blocked(x, id, guard.value);
    }
    var wip := ReadWip(x.workOrders.value);
    if wip.Err? {
      return Blocked(x, id, Block(Unknown, wip.error));
    }
    guard := CalendarGuard(x, now);
    if guard.Some? {
      return Blocked(x, id, guard.value);
    }
    var days, lead := x.snapshot.value.calendar.value.days, x.readiness.value.leadTime.value;
    var due := AddBusinessDays(DayOf(now), lead, days);
    DueUnique(days, DayOf(now), lead, due.value, DueDay(days, DayOf(now), lead));
    var refs := ReadRefs(x.workOrders.value);
    return Decided(x, now, id, wip.value, refs, due.value);
  }

  /** CAN_ACCEPT exactly when the snapshot and readiness are current, the work orders are sound, the calendar covers
      today and the deadline, the units suffice and the due day meets the deadline. */
  ghost predicate Admits(x: Inputs, now: int) {
    && ReadinessForAdmission(x.readiness, now).Ready?
    && x.snapshot.Some? && x.workOrders.Some? && NonNegative(x.reserved)
    && var s, p, r := x.snapshot.value, x.readiness.value, x.request;
    && s.schemaOk && s.wellFormed && NonNegative(s.staffed)
    && s.asOf.Some? && s.expiresAt.Some? && s.asOf.value <= now < s.expiresAt.value
    && r.deliverableId == p.deliverableId && r.deliverableVersion == p.deliverableVersion
    && s.calendar.Some? && r.calendarVersion == Some(s.calendar.value.version) && ValidCalendar(s.calendar.value.days)
    && s.calendar.value.validFrom.Day? && s.calendar.value.validUntil.Day? && r.deadline.Day?
    && s.calendar.value.validFrom.day <= DayOf(now) <= s.calendar.value.validUntil.day
    && DueDay(s.calendar.value.days, DayOf(now), p.leadTime.value) <= r.deadline.day <= s.calendar.value.validUntil.day
    && Sound(x.workOrders.value)
    && ActiveUnits(x.workOrders.value) + x.reserved.value + p.effort.value <= s.staffed.value
  }

  lemma CanAcceptIff(x: Inputs, now: int, id: string)
    ensures Decide(x, now, id).verdict == CanAccept <==> Admits(x, now)
  {
  }
}
