/** The hold lifecycle of delivery/capacity.py as a state machine: one step for each atomic ledger command. */
module Ledger {
  import opened Prelude
  import opened Decisions

  /** `_stable_id` over snapshot, key and correlation: different triples have different ids. */
  datatype HoldId = HoldId(snapshotId: string, key: string, correlation: string)

  datatype Row = Row(
    holdId: HoldId, effort: nat, state: AllocationState, createdAt: int, expiresAt: int,
    committedAt: Option<int>, releasedAt: Option<int>, workOrderId: Option<string>, reason: Option<string>)

  /** A command is identified by its type and whole payload. */
  datatype Command =
    | HoldCommand(decision: Decision, correlation: string, createdAt: int, expiresAt: int)
    | CommitCommand(holdId: HoldId, workOrderId: string, committedAt: int)
    | ReleaseCommand(holdId: HoldId, reason: string, releasedAt: int)
    | ReconcileCommand(holdId: HoldId, ambiguity: string, observedAt: int)

  datatype Record = Record(command: Command, result: Row)

  type Rows = map<HoldId, Row>

  datatype LedgerState = LedgerState(rows: Rows, commands: map<string, Record>)

  datatype LedgerError =
    | RequiresCanAccept
    | RejectsRealReservation
    | ExpiryNotAfterCreation
    | CorrelationDiverges
    | LacksCapacityBasis
    | KeyUsedByDifferentCommand
    | CapacityExhausted
    | UniqueConstraint
    | UnknownHold
    | TimestampPrecedesAllocation
    | HoldExpired
    | IllegalState
    | ReasonRequired
    | UnsupportedAmbiguity
    | DifferentAmbiguity

  const EMPTY := LedgerState(map[], map[])

  const HOLD_EXPIRED := "HOLD_EXPIRED"
  const AMBIGUITIES := {"CANCELLATION_AMBIGUOUS", "REFUND_AMBIGUOUS", "CHECKOUT_TIMEOUT_AMBIGUOUS"}

  // ---- Admission basis -------------------------------------------------------------------------

  /** The arithmetic a decision must carry before a hold may be taken on it. */
  predicate HasBasis(d: Decision) {
    && d.requested.Some? && d.requested.value > 0
    && NonNegative(LimitAfterWip(d)) && NonNegative(d.staffed) && NonNegative(d.wip)
    && NonNegative(Reserved(d)) && NonNegative(d.available)
    && d.snapshotId.Some? && d.snapshotId.value != ""
    && Ceiling(d).Some?
    && LimitAfterWip(d).value == Max(0, Ceiling(d).value - d.wip.value)
    && d.available.value == Max(0, LimitAfterWip(d).value - Reserved(d).value)
    && d.requested.value <= d.available.value
  }

  /** The checks made before the transaction opens; they depend on the payload only. */
  function Precheck(c: Command): Option<LedgerError> {
    match c
    case HoldCommand(d, correlation, createdAt, expiresAt) =>
      if d.verdict != CanAccept then Some(RequiresCanAccept)
      else if !IsSynthetic(d) then Some(RejectsRealReservation)
      else if expiresAt <= createdAt then Some(ExpiryNotAfterCreation)
      else if d.correlation != Some(correlation) then Some(CorrelationDiverges)
      else if !HasBasis(d) then Some(LacksCapacityBasis)
      else None
    case CommitCommand(_, _, _) => None
    case ReleaseCommand(_, reason, _) => if reason == "" then Some(ReasonRequired) else None
    case ReconcileCommand(_, ambiguity, _) => if ambiguity !in AMBIGUITIES then Some(UnsupportedAmbiguity) else None
  }

  // ---- Sums over rows ---------------------------------------------------------------------------

  predicate Occupies(state: AllocationState) {
    state in {Held, Committed, Reconciling}
  }

  /** A row the recheck counts: a hold, an ambiguous row, or a commitment not listed as an active work order. */
  predicate Unlisted(r: Row, active: set<string>) {
    r.state in {Held, Reconciling} || r.workOrderId.None? || r.workOrderId.value !in active
  }

  /** Effort of every row that occupies capacity in a snapshot. */
  ghost function Live(rows: Rows, snapshotId: string): map<HoldId, nat> {
    map h | h in rows && h.snapshotId == snapshotId && Occupies(rows[h].state) :: rows[h].effort
  }

  /** The part of `Live` that a decision listing these active work orders has not already counted as WIP. */
  ghost function LiveUnlisted(rows: Rows, snapshotId: string, active: set<string>): map<HoldId, nat> {
    map h | h in rows && h.snapshotId == snapshotId && Occupies(rows[h].state) && Unlisted(rows[h], active)
      :: rows[h].effort
  }

  /** The rest of `Live`: committed rows whose work order the decision lists as active. */
  ghost function LiveListed(rows: Rows, snapshotId: string, active: set<string>): map<HoldId, nat> {
    map h | h in rows && h.snapshotId == snapshotId && Occupies(rows[h].state) && !Unlisted(rows[h], active)
      :: rows[h].effort
  }

  ghost function InState(rows: Rows, state: AllocationState): map<HoldId, nat> {
    map h | h in rows && rows[h].state == state :: rows[h].effort
  }

  function ActiveIds(d: Decision): set<string> {
    RefSet(d.workOrderRefs)
  }

  // ---- Commands -----------------------------------------------------------------------------------

  /** The row a HOLD inserts. */
  function NewRow(key: string, c: Command): Row
    requires c.HoldCommand? && HasBasis(c.decision)
  {
    Row(HoldId(c.decision.snapshotId.value, key, c.correlation), c.decision.requested.value, Held,
        c.createdAt, c.expiresAt, None, None, None, None)
  }

  ghost function ApplyHold(rows: Rows, key: string, c: Command): Result<Row, LedgerError>
    requires c.HoldCommand? && HasBasis(c.decision)
  {
    var d := c.decision;
    var row := NewRow(key, c);
    if Total(LiveUnlisted(rows, d.snapshotId.value, ActiveIds(d))) + row.effort > LimitAfterWip(d).value then
      Err(CapacityExhausted)
    else if exists h :: h in rows && h.key == key then Err(UniqueConstraint)
    else Ok(row)
  }

  function ApplyCommit(rows: Rows, c: Command): Result<Row, LedgerError>
    requires c.CommitCommand?
  {
    if c.holdId !in rows then Err(UnknownHold)
    else
      var row := rows[c.holdId];
      if c.committedAt < row.createdAt then Err(TimestampPrecedesAllocation)
      else if c.committedAt >= row.expiresAt then Err(HoldExpired)
      else if row.state == Committed && row.workOrderId == Some(c.workOrderId) then Ok(row)
      else if row.state != Held then Err(IllegalState)
      else if exists h :: h in rows && h != c.holdId && rows[h].workOrderId == Some(c.workOrderId)
          then Err(UniqueConstraint)
      else Ok(row.(state := Committed, committedAt := Some(c.committedAt), workOrderId := Some(c.workOrderId)))
  }

  /** The instant before which an allocation cannot be released or disputed. */
  function LowerBound(row: Row): int {
    if row.committedAt.Some? then row.committedAt.value else row.createdAt
  }

  function ApplyRelease(rows: Rows, c: Command): Result<Row, LedgerError>
    requires c.ReleaseCommand?
  {
    if c.holdId !in rows then Err(UnknownHold)
    else
      var row := rows[c.holdId];
      if c.releasedAt < LowerBound(row) then Err(TimestampPrecedesAllocation)
      else if row.state == Released then Ok(row)
      else if !Occupies(row.state) then Err(IllegalState)
      else Ok(row.(state := Released, releasedAt := Some(c.releasedAt), reason := Some(c.reason)))
  }

  function ApplyReconcile(rows: Rows, c: Command): Result<Row, LedgerError>
    requires c.ReconcileCommand?
  {
    if c.holdId !in rows then Err(UnknownHold)
    else
      var row := rows[c.holdId];
      if c.observedAt < LowerBound(row) then Err(TimestampPrecedesAllocation)
      else if row.state == Reconciling then
        if row.reason != Some(c.ambiguity) then Err(DifferentAmbiguity) else Ok(row)
      else if row.state !in {Held, Committed} then Err(IllegalState)
      else Ok(row.(state := Reconciling, reason := Some(c.ambiguity)))
  }

  /** The row a command leaves in place of `result.holdId`, or why it cannot. */
  ghost function Apply(rows: Rows, key: string, c: Command): Result<Row, LedgerError>
    requires Precheck(c) == None
  {
    match c
    case HoldCommand(_, _, _, _) => ApplyHold(rows, key, c)
    case CommitCommand(_, _, _) => ApplyCommit(rows, c)
    case ReleaseCommand(_, _, _) => ApplyRelease(rows, c)
    case ReconcileCommand(_, _, _) => ApplyReconcile(rows, c)
  }

  datatype Outcome =
    | Replied(row: Row)
    | Swept(expired: set<HoldId>)
    | Failed(error: LedgerError)

  /** A keyed command, or the sweep of elapsed holds. */
  datatype Op = Do(key: string, command: Command) | Expire(asOf: int)

  ghost function DoCommand(s: LedgerState, key: string, c: Command): (LedgerState, Outcome) {
    if Precheck(c).Some? then (s, Failed(Precheck(c).value))
    else if key in s.commands then
      if s.commands[key].command == c then (s, Replied(s.commands[key].result))
      else (s, Failed(KeyUsedByDifferentCommand))
    else
      match Apply(s.rows, key, c)
      case Err(e) => (s, Failed(e))
      case Ok(row) =>
        (LedgerState(s.rows[row.holdId := row], s.commands[key := Record(c, row)]), Replied(row))
  }

  /** Held rows whose expiry has passed. */
  function Elapsed(rows: Rows, asOf: int): set<HoldId> {
    set h | h in rows && rows[h].state == Held && rows[h].expiresAt <= asOf
  }

  function ExpireRow(r: Row, asOf: int): Row {
    r.(state := Expired, releasedAt := Some(asOf), reason := Some(HOLD_EXPIRED))
  }

  function ExpireSome(rows: Rows, due: set<HoldId>, asOf: int): Rows {
    map h | h in rows :: if h in due then ExpireRow(rows[h], asOf) else rows[h]
  }

  function ExpireRows(rows: Rows, asOf: int): Rows {
    ExpireSome(rows, Elapsed(rows, asOf), asOf)
  }

  ghost function Step(s: LedgerState, op: Op): (LedgerState, Outcome) {
    match op
    case Do(key, c) => DoCommand(s, key, c)
    case Expire(asOf) => (s.(rows := ExpireRows(s.rows, asOf)), Swept(Elapsed(s.rows, asOf)))
  }

  /** The state after a whole run. */
  ghost function Run(s: LedgerState, ops: seq<Op>): LedgerState
    decreases |ops|
  {
    if ops == [] then s else Run(Step(s, ops[0]).0, ops[1..])
  }
}
