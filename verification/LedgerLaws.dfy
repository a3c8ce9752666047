/** What every reachable capacity ledger guarantees, over all interleavings of its commands. */
module LedgerLaws {
  import opened Prelude
  import opened Decisions
  import opened Ledger

  // ---- The invariant -----------------------------------------------------------------------------

  ghost predicate RowOk(h: HoldId, r: Row) {
    && r.holdId == h && r.effort > 0 && r.createdAt < r.expiresAt
    && (r.committedAt.Some? <==> r.workOrderId.Some?)
    && (r.committedAt.Some? ==> r.createdAt <= r.committedAt.value < r.expiresAt)
    && match r.state
       case Held => r.committedAt.None? && r.releasedAt.None? && r.reason.None?
       case Committed => r.committedAt.Some? && r.releasedAt.None? && r.reason.None?
       case Reconciling => r.releasedAt.None? && r.reason.Some? && r.reason.value in AMBIGUITIES
       case Released =>
         r.releasedAt.Some? && LowerBound(r) <= r.releasedAt.value && r.reason.Some? && r.reason.value != ""
       case Expired =>
         && r.committedAt.None? && r.releasedAt.Some? && r.expiresAt <= r.releasedAt.value
         && r.reason == Some(HOLD_EXPIRED)
  }

  ghost predicate RowsOk(rows: Rows) {
    forall h <- rows :: RowOk(h, rows[h])
  }

  /** `work_order_id TEXT UNIQUE`. */
  ghost predicate WorkOrdersUnique(rows: Rows) {
    forall g, h :: g in rows && h in rows && g != h && rows[g].workOrderId.Some? ==>
        rows[g].workOrderId != rows[h].workOrderId
  }

  /** The hold a recorded HOLD command created still exists, under the command's own key, with the effort it was
      granted. */
  ghost predicate RecordLinked(rows: Rows, key: string, rec: Record) {
    && Precheck(rec.command) == None
    && (rec.command.HoldCommand? ==>
          && rec.result == NewRow(key, rec.command)
          && rec.result.holdId in rows
          && rows[rec.result.holdId].effort == rec.result.effort)
  }

  ghost predicate RowLinked(s: LedgerState, h: HoldId) {
    h.key in s.commands && s.commands[h.key].command.HoldCommand? && s.commands[h.key].result.holdId == h
  }

  ghost predicate Linked(s: LedgerState) {
    && (forall k <- s.commands :: RecordLinked(s.rows, k, s.commands[k]))
    && (forall h <- s.rows :: RowLinked(s, h))
  }

  ghost predicate Inv(s: LedgerState) {
    RowsOk(s.rows) && WorkOrdersUnique(s.rows) && Linked(s)
  }

  /** How a row may be rewritten: identity, effort and window are fixed, a commitment is never rewritten, terminal rows
      are frozen, states only move forward, and a row that keeps its state keeps everything. */
  ghost predicate Evolves(before: Row, after: Row) {
    && after.holdId == before.holdId && after.effort == before.effort
    && after.createdAt == before.createdAt && after.expiresAt == before.expiresAt
    && (before.committedAt.Some? ==> after.committedAt == before.committedAt && after.workOrderId == before.workOrderId)
    && (before.state in {Released, Expired} ==> after == before)
    && (after.state == before.state ==> after == before)
    && (after.state == Held ==> before.state == Held)
    && (after.state == Committed ==> before.state in {Held, Committed})
    && (after.state == Reconciling ==> before.state in {Held, Committed, Reconciling})
    && (after.state == Expired ==> before.state in {Held, Expired})
  }

  ghost predicate RowsEvolve(before: Rows, after: Rows) {
    forall h <- before :: h in after && Evolves(before[h], after[h])
  }

  // ---- Each step keeps the invariant -------------------------------------------------------------

  /** A granted hold adds one new row and touches no other. */
  ghost predicate Grants(s: LedgerState, op: Op) {
    && op.Do? && op.command.HoldCommand? && Precheck(op.command) == None
    && op.key !in s.commands && ApplyHold(s.rows, op.key, op.command).Ok?
  }

  lemma GrantAddsRow(s: LedgerState, op: Op)
    requires Inv(s) && Grants(s, op)
    ensures var row := NewRow(op.key, op.command);
            && row.holdId !in s.rows
            && Step(s, op).0.rows == s.rows[row.holdId := row]
  {
  }

  /** Replacing a row by a legal successor keeps rows well formed. */
  lemma ApplyIsLegal(rows: Rows, key: string, c: Command)
    requires RowsOk(rows) && Precheck(c) == None && Apply(rows, key, c).Ok?
    ensures var row := Apply(rows, key, c).value;
            && RowOk(row.holdId, row)
            && (row.holdId in rows ==> c.HoldCommand? || Evolves(rows[row.holdId], row))
            && (!c.HoldCommand? ==> row.holdId in rows && row.holdId == c.holdId)
            && (c.HoldCommand? ==> row == NewRow(key, c) && row.holdId !in rows)
  {
    if c.HoldCommand? {
      assert HasBasis(c.decision);
    } else {
      assert RowOk(c.holdId, rows[c.holdId]);
    }
  }

  lemma ApplyKeepsWorkOrdersUnique(rows: Rows, key: string, c: Command)
    requires RowsOk(rows) && WorkOrdersUnique(rows) && Precheck(c) == None && Apply(rows, key, c).Ok?
    ensures var row := Apply(rows, key, c).value; WorkOrdersUnique(rows[row.holdId := row])
  {
    ApplyIsLegal(rows, key, c);
    var row := Apply(rows, key, c).value;
    var after := rows[row.holdId := row];
    forall g, h | g in after && h in after && g != h && after[g].workOrderId.Some?
      ensures after[g].workOrderId != after[h].workOrderId
    {
      if c.CommitCommand? && (g == row.holdId || h == row.holdId) {
        if row.state == Committed && row.workOrderId == Some(c.workOrderId) {
        }
      }
    }
  }

  lemma StepKeepsLinks(s: LedgerState, key: string, c: Command)
    requires Inv(s) && Precheck(c) == None && key !in s.commands && Apply(s.rows, key, c).Ok?
    ensures Linked(DoCommand(s, key, c).0)
  {
    ApplyIsLegal(s.rows, key, c);
    var row := Apply(s.rows, key, c).value;
    var t := DoCommand(s, key, c).0;
    forall k | k in t.commands
      ensures RecordLinked(t.rows, k, t.commands[k])
    {
      if k != key {
        assert RecordLinked(s.rows, k, s.commands[k]);
      }
    }
    forall h | h in t.rows
      ensures RowLinked(t, h)
    {
      if h in s.rows {
        assert RowLinked(s, h);
      }
    }
  }

  lemma ExpireKeepsInv(s: LedgerState, asOf: int)
    requires Inv(s)
    ensures Inv(Step(s, Expire(asOf)).0) && RowsEvolve(s.rows, Step(s, Expire(asOf)).0.rows)
  {
    var t := Step(s, Expire(asOf)).0;
    forall h | h in s.rows
      ensures RowOk(h, t.rows[h]) && Evolves(s.rows[h], t.rows[h]) && RowLinked(t, h)
    {
      assert RowOk(h, s.rows[h]) && RowLinked(s, h);
    }
    forall k | k in s.commands
      ensures RecordLinked(t.rows, k, s.commands[k])
    {
      assert RecordLinked(s.rows, k, s.commands[k]);
    }
  }

  lemma CommandKeepsRows(s: LedgerState, key: string, c: Command)
    requires Inv(s) && Precheck(c) == None && Apply(s.rows, key, c).Ok?
    ensures var row := Apply(s.rows, key, c).value;
            RowsOk(s.rows[row.holdId := row]) && RowsEvolve(s.rows, s.rows[row.holdId := row])
  {
    ApplyIsLegal(s.rows, key, c);
  }

  lemma StepKeepsInv(s: LedgerState, op: Op)
    requires Inv(s)
    ensures Inv(Step(s, op).0) && RowsEvolve(s.rows, Step(s, op).0.rows)
  {
    match op
    case Expire(asOf) => ExpireKeepsInv(s, asOf);
    case Do(key, c) =>
      if Precheck(c) == None && key !in s.commands && Apply(s.rows, key, c).Ok? {
        CommandKeepsRows(s, key, c);
        ApplyKeepsWorkOrdersUnique(s.rows, key, c);
        StepKeepsLinks(s, key, c);
      }
  }

  /** Every reachable ledger satisfies the invariant, and rows only ever evolve. */
  lemma {:induction false} RunKeepsInv(s: LedgerState, ops: seq<Op>)
    requires Inv(s)
    ensures Inv(Run(s, ops)) && RowsEvolve(s.rows, Run(s, ops).rows)
    decreases |ops|
  {
    if ops != [] {
      StepKeepsInv(s, ops[0]);
      var t := Step(s, ops[0]).0;
      RunKeepsInv(t, ops[1..]);
      forall h | h in s.rows
        ensures h in Run(s, ops).rows && Evolves(s.rows[h], Run(s, ops).rows[h])
      {
        assert h in t.rows && Evolves(s.rows[h], t.rows[h]);
        assert Evolves(t.rows[h], Run(t, ops[1..]).rows[h]);
      }
    }
  }

  lemma EmptyIsValid()
    ensures Inv(EMPTY)
  {
  }

  // ---- Lifecycle ---------------------------------------------------------------------------------

  ghost predicate Reachable(s: LedgerState) {
    exists ops: seq<Op> :: s == Run(EMPTY, ops)
  }

  lemma ReachableIsValid(s: LedgerState)
    requires Reachable(s)
    ensures Inv(s)
  {
    var ops: seq<Op> :| s == Run(EMPTY, ops);
    EmptyIsValid();
    RunKeepsInv(EMPTY, ops);
  }

  /** The lifecycle facts that hold of every row of every reachable ledger. */
  lemma Lifecycle(s: LedgerState, h: HoldId)
    requires Reachable(s) && h in s.rows
    ensures var r := s.rows[h];
            && r.effort > 0 && r.createdAt < r.expiresAt
            && (r.committedAt.Some? ==> r.createdAt <= r.committedAt.value < r.expiresAt)
            && (r.state == Committed ==> r.committedAt.Some? && r.workOrderId.Some?)
            && (r.state == Expired ==> r.committedAt.None? && r.releasedAt.Some? && r.releasedAt.value >= r.expiresAt)
            && (r.state == Released ==> r.releasedAt.Some? && r.releasedAt.value >= LowerBound(r))
    ensures forall g :: g in s.rows && g != h && s.rows[h].workOrderId.Some? ==>
            s.rows[g].workOrderId != s.rows[h].workOrderId
  {
    ReachableIsValid(s);
    assert RowOk(h, s.rows[h]);
  }

  /** Whatever runs later, a row only moves forward through its lifecycle, and it changes only by moving: released and
      expired rows are final, an ambiguity is never replaced by another, a commitment is never undone or rewritten, and
      what was ever committed can no longer expire. */
  lemma RowsOnlyAdvance(s: LedgerState, ops: seq<Op>, h: HoldId)
    requires Reachable(s) && h in s.rows
    ensures var before, later := s.rows[h], Run(s, ops).rows;
            && h in later
            && (before.state in {Released, Expired} || later[h].state == before.state ==> later[h] == before)
            && (later[h].state == Held ==> before.state == Held)
            && (later[h].state == Committed ==> before.state in {Held, Committed})
            && (later[h].state == Reconciling ==> before.state in {Held, Committed, Reconciling})
            && (before.committedAt.Some? ==>
                  later[h].committedAt == before.committedAt && later[h].workOrderId == before.workOrderId
                      && later[h].state != Expired)
  {
    ReachableIsValid(s);
    RunKeepsInv(s, ops);
    assert Evolves(s.rows[h], Run(s, ops).rows[h]);
    assert RowOk(h, Run(s, ops).rows[h]);
  }

  // ---- Exactly-once commands ---------------------------------------------------------------------

  /** A recorded command stays recorded, with the same payload and the same first result. */
  lemma {:induction false} RecordsPersist(s: LedgerState, ops: seq<Op>, key: string)
    requires key in s.commands
    ensures key in Run(s, ops).commands && Run(s, ops).commands[key] == s.commands[key]
    decreases |ops|
  {
    if ops != [] {
      RecordsPersist(Step(s, ops[0]).0, ops[1..], key);
    }
  }

  /** A failed command changes nothing. */
  lemma FailureChangesNothing(s: LedgerState, op: Op)
    ensures Step(s, op).1.Failed? ==> Step(s, op).0 == s
  {
  }

  /** Once a command has been answered, and whatever else ran since, the same key and payload get the same answer,
      any other payload or command type under that key is refused, and neither changes the ledger. */
  lemma ExactlyOnce(s: LedgerState, key: string, c: Command, ops: seq<Op>, other: Command)
    requires Reachable(s)
    requires Step(s, Do(key, c)).1.Replied?
    requires other != c
    ensures var answered := Step(s, Do(key, c));
            var later := Run(answered.0, ops);
            && Step(later, Do(key, c)) == (later, answered.1)
            && Step(later, Do(key, other)).0 == later
            && Step(later, Do(key, other)).1.Failed?
  {
    ReachableIsValid(s);
    RecordsPersist(Step(s, Do(key, c)).0, ops, key);
  }

  /** Allocations and recorded HOLD commands correspond one to one, through the key and the hold id. */
  lemma HoldsMatchCommands(s: LedgerState, key: string, h: HoldId)
    requires Reachable(s)
    ensures h in s.rows && h.key == key <==>
            key in s.commands && s.commands[key].command.HoldCommand? && s.commands[key].result.holdId == h
  {
    ReachableIsValid(s);
    if h in s.rows {
      assert RowLinked(s, h);
    }
    if key in s.commands {
      assert RecordLinked(s.rows, key, s.commands[key]);
    }
  }

  // ---- Conservation of effort --------------------------------------------------------------------

  ghost function AllEffort(rows: Rows): map<HoldId, nat> {
    map h | h in rows :: rows[h].effort
  }

  /** The effort granted by the HOLD steps of a run that created an allocation. */
  ghost function Granted(s: LedgerState, ops: seq<Op>): nat
    decreases |ops|
  {
    if ops == [] then 0
    else (if Grants(s, ops[0]) then NewRow(ops[0].key, ops[0].command).effort else 0)
         + Granted(Step(s, ops[0]).0, ops[1..])
  }

  /** Only a granted hold adds an allocation, and none is ever deleted. */
  lemma OtherStepsKeepKeys(s: LedgerState, op: Op)
    requires Inv(s) && !Grants(s, op)
    ensures Step(s, op).0.rows.Keys == s.rows.Keys
  {
    if op.Do? && Precheck(op.command) == None && op.key !in s.commands && Apply(s.rows, op.key, op.command).Ok? {
      ApplyIsLegal(s.rows, op.key, op.command);
    }
  }

  lemma SameEffort(before: Rows, after: Rows)
    requires before.Keys == after.Keys && RowsEvolve(before, after)
    ensures AllEffort(after) == AllEffort(before)
  {
    forall h | h in before
      ensures after[h].effort == before[h].effort
    {
      assert Evolves(before[h], after[h]);
    }
  }

  lemma InsertEffort(rows: Rows, row: Row)
    requires row.holdId !in rows
    ensures Total(AllEffort(rows[row.holdId := row])) == Total(AllEffort(rows)) + row.effort
  {
    TotalInsert(AllEffort(rows), row.holdId, row.effort);
    assert AllEffort(rows[row.holdId := row]) == AllEffort(rows)[row.holdId := row.effort];
  }

  lemma StepEffort(s: LedgerState, op: Op)
    requires Inv(s)
    ensures Total(AllEffort(Step(s, op).0.rows)) ==
            Total(AllEffort(s.rows)) + if Grants(s, op) then NewRow(op.key, op.command).effort else 0
  {
    if Grants(s, op) {
      GrantAddsRow(s, op);
      InsertEffort(s.rows, NewRow(op.key, op.command));
    } else {
      StepKeepsInv(s, op);
      OtherStepsKeepKeys(s, op);
      SameEffort(s.rows, Step(s, op).0.rows);
    }
  }

  lemma {:induction false} RunEffort(s: LedgerState, ops: seq<Op>)
    requires Inv(s)
    ensures Total(AllEffort(Run(s, ops).rows)) == Total(AllEffort(s.rows)) + Granted(s, ops)
    decreases |ops|
  {
    if ops != [] {
      StepEffort(s, ops[0]);
      StepKeepsInv(s, ops[0]);
      RunEffort(Step(s, ops[0]).0, ops[1..]);
    }
  }

  function Rank(state: AllocationState): nat {
    match state
    case Held => 0
    case Committed => 1
    case Reconciling => 2
    case Released => 3
    case Expired => 4
  }

  /** Effort of the rows whose state is among the first n of the five. */
  ghost function FirstStates(rows: Rows, n: nat): map<HoldId, nat> {
    map h | h in rows && Rank(rows[h].state) < n :: rows[h].effort
  }

  ghost function Upto(rows: Rows, n: nat): nat {
    Total(FirstStates(rows, n))
  }

  lemma SplitState(rows: Rows, state: AllocationState)
    ensures var all, part := FirstStates(rows, Rank(state) + 1), InState(rows, state).Keys;
            Restrict(all, part) == InState(rows, state) && all - part == FirstStates(rows, Rank(state))
  {
  }

  lemma AddState(rows: Rows, state: AllocationState)
    ensures Upto(rows, Rank(state) + 1) == Upto(rows, Rank(state)) + Total(InState(rows, state))
  {
    SplitState(rows, state);
    TotalSplit(FirstStates(rows, Rank(state) + 1), InState(rows, state).Keys);
  }

  lemma ThreeStates(rows: Rows)
    ensures Upto(rows, 3) ==
            Upto(rows, 0) + Total(InState(rows, Held)) + Total(InState(rows, Committed))
            + Total(InState(rows, Reconciling))
  {
    AddState(rows, Held);
    AddState(rows, Committed);
    AddState(rows, Reconciling);
  }

  lemma FiveStates(rows: Rows)
    ensures Total(AllEffort(rows)) ==
            Total(InState(rows, Held)) + Total(InState(rows, Committed)) + Total(InState(rows, Reconciling))
            + Total(InState(rows, Released)) + Total(InState(rows, Expired))
  {
    ThreeStates(rows);
    AddState(rows, Released);
    AddState(rows, Expired);
    Ends(rows);
  }

  lemma Ends(rows: Rows)
    ensures Upto(rows, 0) == 0 && Upto(rows, 5) == Total(AllEffort(rows))
  {
    assert FirstStates(rows, 0) == map[] && FirstStates(rows, 5) == AllEffort(rows);
  }

  /** Effort is conserved: what the five states hold together is exactly what was ever granted. */
  lemma EffortConserved(ops: seq<Op>)
    ensures var rows := Run(EMPTY, ops).rows;
            Total(InState(rows, Held)) + Total(InState(rows, Committed)) + Total(InState(rows, Reconciling))
            + Total(InState(rows, Released)) + Total(InState(rows, Expired)) == Granted(EMPTY, ops)
  {
    EmptyIsValid();
    RunEffort(EMPTY, ops);
    assert AllEffort(EMPTY.rows) == map[];
    FiveStates(Run(EMPTY, ops).rows);
  }

  // ---- Never oversubscribed ----------------------------------------------------------------------

  lemma LiveSplits(rows: Rows, snapshotId: string, active: set<string>)
    ensures Total(Live(rows, snapshotId)) ==
            Total(LiveUnlisted(rows, snapshotId, active)) + Total(LiveListed(rows, snapshotId, active))
  {
    var part := LiveUnlisted(rows, snapshotId, active).Keys;
    TotalSplit(Live(rows, snapshotId), part);
    assert Restrict(Live(rows, snapshotId), part) == LiveUnlisted(rows, snapshotId, active);
    assert Live(rows, snapshotId) - part == LiveListed(rows, snapshotId, active);
  }

  /** No step but a granted hold adds occupied effort to any snapshot. */
  lemma OtherStepsFreeCapacity(s: LedgerState, op: Op, snapshotId: string)
    requires Inv(s) && !Grants(s, op)
    ensures Total(Live(Step(s, op).0.rows, snapshotId)) <= Total(Live(s.rows, snapshotId))
  {
    StepKeepsInv(s, op);
    OtherStepsKeepKeys(s, op);
    LiveShrinks(s.rows, Step(s, op).0.rows, snapshotId);
  }

  lemma LiveShrinks(before: Rows, after: Rows, snapshotId: string)
    requires before.Keys == after.Keys && RowsEvolve(before, after)
    ensures Total(Live(after, snapshotId)) <= Total(Live(before, snapshotId))
  {
    forall h | h in Live(after, snapshotId)
      ensures h in Live(before, snapshotId) && Live(after, snapshotId)[h] == Live(before, snapshotId)[h]
    {
      assert Evolves(before[h], after[h]);
      match before[h].state
      case Held | Committed | Reconciling =>
      case Released | Expired => assert Occupies(after[h].state);
    }
    TotalSubmap(Live(after, snapshotId), Live(before, snapshotId));
  }

  lemma InsertLive(rows: Rows, row: Row, snapshotId: string)
    requires row.holdId !in rows && row.state == Held
    ensures Total(Live(rows[row.holdId := row], snapshotId)) ==
            Total(Live(rows, snapshotId)) + if row.holdId.snapshotId == snapshotId then row.effort else 0
  {
    if row.holdId.snapshotId == snapshotId {
      TotalInsert(Live(rows, snapshotId), row.holdId, row.effort);
      assert Live(rows[row.holdId := row], snapshotId) == Live(rows, snapshotId)[row.holdId := row.effort];
    } else {
      assert Live(rows[row.holdId := row], snapshotId) == Live(rows, snapshotId);
    }
  }

  /** A granted hold adds exactly its effort, and only to its own snapshot. */
  lemma GrantAddsEffort(s: LedgerState, op: Op, snapshotId: string)
    requires Inv(s) && Grants(s, op)
    ensures var d := op.command.decision;
            Total(Live(Step(s, op).0.rows, snapshotId)) ==
            Total(Live(s.rows, snapshotId)) + if d.snapshotId.value == snapshotId then d.requested.value else 0
  {
    GrantAddsRow(s, op);
    InsertLive(s.rows, NewRow(op.key, op.command), snapshotId);
  }

  lemma SameLive(rows: Rows, row: Row, snapshotId: string)
    requires row.holdId in rows && row.effort == rows[row.holdId].effort
    requires Occupies(rows[row.holdId].state) && Occupies(row.state)
    ensures Live(rows[row.holdId := row], snapshotId) == Live(rows, snapshotId)
  {
  }

  lemma CommitAndDisputeOccupy(rows: Rows, key: string, c: Command)
    requires RowsOk(rows) && (c.CommitCommand? || c.ReconcileCommand?) && Precheck(c) == None && Apply(rows, key, c).Ok?
    ensures var row := Apply(rows, key, c).value;
            row.holdId in rows && row.effort == rows[row.holdId].effort && Occupies(rows[row.holdId].state)
                && Occupies(row.state)
  {
    assert RowOk(c.holdId, rows[c.holdId]);
  }

  /** Committing a hold or marking an allocation ambiguous never changes how much any snapshot has occupied. */
  lemma CommitAndDisputeKeepOccupancy(s: LedgerState, key: string, c: Command, snapshotId: string)
    requires Inv(s) && (c.CommitCommand? || c.ReconcileCommand?)
    ensures Live(Step(s, Do(key, c)).0.rows, snapshotId) == Live(s.rows, snapshotId)
  {
    if Precheck(c) == None && key !in s.commands && Apply(s.rows, key, c).Ok? {
      CommitAndDisputeOccupy(s.rows, key, c);
      var row := Apply(s.rows, key, c).value;
      SameLive(s.rows, row, snapshotId);
      assert Step(s, Do(key, c)).0.rows == s.rows[row.holdId := row];
    } else {
      assert Step(s, Do(key, c)).0 == s;
    }
  }

  lemma DropLive(rows: Rows, row: Row)
    requires row.holdId in rows && Occupies(rows[row.holdId].state) && !Occupies(row.state)
    ensures var snapshotId := row.holdId.snapshotId;
            Total(Live(rows[row.holdId := row], snapshotId)) == Total(Live(rows, snapshotId)) - rows[row.holdId].effort
  {
    var before, after := Live(rows, row.holdId.snapshotId), Live(rows[row.holdId := row], row.holdId.snapshotId);
    TotalRemove(before, row.holdId);
    assert before - {row.holdId} == after;
  }

  /** Any occupying allocation can be released, with a reason and not before it began, and that frees exactly its
      effort. */
  lemma ReleaseFreesEffort(s: LedgerState, key: string, c: Command)
    requires Inv(s) && c.ReleaseCommand? && c.reason != "" && key !in s.commands
    requires c.holdId in s.rows && Occupies(s.rows[c.holdId].state) && LowerBound(s.rows[c.holdId]) <= c.releasedAt
    ensures Step(s, Do(key, c)).1.Replied? && Step(s, Do(key, c)).1.row.state == Released
    ensures Total(Live(Step(s, Do(key, c)).0.rows, c.holdId.snapshotId)) ==
            Total(Live(s.rows, c.holdId.snapshotId)) - s.rows[c.holdId].effort
  {
    assert RowOk(c.holdId, s.rows[c.holdId]);
    DropLive(s.rows, ApplyRelease(s.rows, c).value);
  }

  ghost function ElapsedEffort(rows: Rows, snapshotId: string, asOf: int): map<HoldId, nat> {
    map h | h in rows && h.snapshotId == snapshotId && h in Elapsed(rows, asOf) :: rows[h].effort
  }

  /** A sweep frees exactly the effort of the holds that have elapsed, and leaves none that has. */
  lemma SweepFreesElapsed(s: LedgerState, asOf: int, snapshotId: string)
    ensures var after := Step(s, Expire(asOf)).0;
            && Total(Live(s.rows, snapshotId)) ==
                  Total(Live(after.rows, snapshotId)) + Total(ElapsedEffort(s.rows, snapshotId, asOf))
            && Elapsed(after.rows, asOf) == {}
  {
    var all, gone := Live(s.rows, snapshotId), ElapsedEffort(s.rows, snapshotId, asOf);
    TotalSplit(all, gone.Keys);
    assert Restrict(all, gone.Keys) == gone;
    SweepLeaves(s, asOf, snapshotId);
  }

  lemma SweepLeaves(s: LedgerState, asOf: int, snapshotId: string)
    ensures Live(s.rows, snapshotId) - ElapsedEffort(s.rows, snapshotId, asOf).Keys ==
            Live(Step(s, Expire(asOf)).0.rows, snapshotId)
  {
  }

  /** The decision's WIP units cover the committed rows that it lists as active. */
  ghost predicate WipCovers(rows: Rows, d: Decision)
    requires HasBasis(d)
  {
    Total(LiveListed(rows, d.snapshotId.value, ActiveIds(d))) <= d.wip.value
  }

  /** Its WIP covers, and it was taken under a ceiling within the snapshot's limit. */
  ghost predicate Covers(s: LedgerState, d: Decision, limits: string -> nat)
    requires HasBasis(d)
  {
    Ceiling(d).value <= limits(d.snapshotId.value) && WipCovers(s.rows, d)
  }

  /** Every hold granted along the run was granted on a covering decision, however stale. */
  ghost predicate RunCovered(s: LedgerState, ops: seq<Op>, limits: string -> nat)
    decreases |ops|
  {
    ops == [] || (
      && (Grants(s, ops[0]) ==> Covers(s, ops[0].command.decision, limits))
      && RunCovered(Step(s, ops[0]).0, ops[1..], limits))
  }

  ghost predicate WithinLimits(rows: Rows, limits: string -> nat) {
    forall snapshotId :: Total(Live(rows, snapshotId)) <= limits(snapshotId)
  }

  lemma StepWithinLimits(s: LedgerState, op: Op, limits: string -> nat)
    requires Inv(s) && WithinLimits(s.rows, limits)
    requires Grants(s, op) ==> Covers(s, op.command.decision, limits)
    ensures WithinLimits(Step(s, op).0.rows, limits)
  {
    forall snapshotId
      ensures Total(Live(Step(s, op).0.rows, snapshotId)) <= limits(snapshotId)
    {
      if Grants(s, op) {
        GrantAddsEffort(s, op, snapshotId);
        LiveSplits(s.rows, snapshotId, ActiveIds(op.command.decision));
      } else {
        OtherStepsFreeCapacity(s, op, snapshotId);
      }
    }
  }

  lemma {:induction false} RunWithinLimits(s: LedgerState, ops: seq<Op>, limits: string -> nat)
    requires Inv(s) && WithinLimits(s.rows, limits) && RunCovered(s, ops, limits)
    ensures WithinLimits(Run(s, ops).rows, limits)
    decreases |ops|
  {
    if ops != [] {
      StepKeepsInv(s, ops[0]);
      StepWithinLimits(s, ops[0], limits);
      RunWithinLimits(Step(s, ops[0]).0, ops[1..], limits);
    }
  }

  /** Held, committed and ambiguous effort never exceeds the limit of its snapshot, in any interleaving. */
  lemma NeverOversubscribed(ops: seq<Op>, limits: string -> nat)
    requires RunCovered(EMPTY, ops, limits)
    ensures WithinLimits(Run(EMPTY, ops).rows, limits)
  {
    EmptyIsValid();
    forall snapshotId
      ensures Total(Live(EMPTY.rows, snapshotId)) == 0
    {
      assert Live(EMPTY.rows, snapshotId) == map[];
    }
    RunWithinLimits(EMPTY, ops, limits);
  }

  /** Every hold granted along the run was granted on a decision whose WIP covers, whatever its ceiling. */
  ghost predicate RunWipCovered(s: LedgerState, ops: seq<Op>)
    decreases |ops|
  {
    ops == [] || (
      && (Grants(s, ops[0]) ==> WipCovers(s.rows, ops[0].command.decision))
      && RunWipCovered(Step(s, ops[0]).0, ops[1..]))
  }

  /** The highest ceiling under which the run granted a hold of a snapshot. */
  ghost function HighestCeiling(s: LedgerState, ops: seq<Op>, snapshotId: string): nat
    decreases |ops|
  {
    if ops == [] then 0
    else
      var later := HighestCeiling(Step(s, ops[0]).0, ops[1..], snapshotId);
      if Grants(s, ops[0]) && ops[0].command.decision.snapshotId.value == snapshotId
      then Max(Ceiling(ops[0].command.decision).value, later) else later
  }

  lemma {:induction false} HighestCeilingCovers(s: LedgerState, ops: seq<Op>, limits: string -> nat)
    requires RunWipCovered(s, ops) && forall id :: HighestCeiling(s, ops, id) <= limits(id)
    ensures RunCovered(s, ops, limits)
    decreases |ops|
  {
    if ops != [] {
      var t := Step(s, ops[0]).0;
      forall id
        ensures HighestCeiling(t, ops[1..], id) <= limits(id)
      {
        assert HighestCeiling(s, ops, id) <= limits(id);
      }
      HighestCeilingCovers(t, ops[1..], limits);
      if Grants(s, ops[0]) {
        var id := ops[0].command.decision.snapshotId.value;
        assert HighestCeiling(s, ops, id) <= limits(id);
      }
    }
  }

  /** No limit need be agreed on: decisions under any mixture of ceilings never take a snapshot beyond the highest
      ceiling under which one of them was granted. */
  lemma NeverAboveHighestCeiling(ops: seq<Op>, snapshotId: string)
    requires RunWipCovered(EMPTY, ops)
    ensures Total(Live(Run(EMPTY, ops).rows, snapshotId)) <= HighestCeiling(EMPTY, ops, snapshotId)
  {
    var limits := (id: string) => HighestCeiling(EMPTY, ops, id);
    HighestCeilingCovers(EMPTY, ops, limits);
    NeverOversubscribed(ops, limits);
    assert Total(Live(Run(EMPTY, ops).rows, snapshotId)) <= limits(snapshotId);
  }

  // ---- What a decision's evidence lets through ---------------------------------------------------

  /** A fresh key has no allocation of its own. */
  lemma FreshKeyHasNoRow(s: LedgerState, key: string)
    requires Inv(s) && key !in s.commands
    ensures forall h <- s.rows :: h.key != key
  {
    forall h | h in s.rows
      ensures h.key != key
    {
      assert RowLinked(s, h);
    }
  }

  /** The same evidence, asked for another number of units. */
  function Asking(c: Command, units: nat): Command
    requires c.HoldCommand?
  {
    c.(decision := c.decision.(requested := Some(units)))
  }

  /** Asking is granted exactly while the units are available and fit beside what the ledger reserves. */
  lemma AskedOutcome(s: LedgerState, key: string, c: Command, units: nat)
    requires Inv(s) && key !in s.commands && c.HoldCommand? && Precheck(c) == None
    ensures var d := c.decision;
            var op := Do(key, Asking(c, units));
            var reserved := Total(LiveUnlisted(s.rows, d.snapshotId.value, ActiveIds(d)));
            && (Grants(s, op) <==> 0 < units <= d.available.value && reserved + units <= LimitAfterWip(d).value)
            && Total(Live(Step(s, op).0.rows, d.snapshotId.value)) ==
               Total(Live(s.rows, d.snapshotId.value)) + if Grants(s, op) then units else 0
  {
    var d, op := c.decision, Do(key, Asking(c, units));
    FreshKeyHasNoRow(s, key);
    AskingKeepsEvidence(c, units);
    if Grants(s, op) {
      GrantAddsEffort(s, op, d.snapshotId.value);
    }
  }

  lemma AskingKeepsEvidence(c: Command, units: nat)
    requires c.HoldCommand? && Precheck(c) == None
    ensures Precheck(Asking(c, units)) == None <==> 0 < units <= c.decision.available.value
    ensures LimitAfterWip(Asking(c, units).decision) == LimitAfterWip(c.decision)
    ensures ActiveIds(Asking(c, units).decision) == ActiveIds(c.decision)
  {
  }

  /** The most a decision's evidence can still be asked for: what it makes available, as far as it fits beside what the
      ledger reserves by now. */
  ghost function MostUnits(s: LedgerState, d: Decision): nat
    requires HasBasis(d)
  {
    var reserved := Total(LiveUnlisted(s.rows, d.snapshotId.value, ActiveIds(d)));
    Max(0, Min(d.available.value, LimitAfterWip(d).value - reserved))
  }

  /** The effort the snapshot holds after the evidence has been asked for some units. */
  ghost function LiveAsked(s: LedgerState, key: string, c: Command, units: nat): nat
    requires c.HoldCommand? && HasBasis(c.decision)
  {
    Total(Live(Step(s, Do(key, Asking(c, units))).0.rows, c.decision.snapshotId.value))
  }

  /** Exactly what bound a decision's evidence guarantees, whatever it is asked for and however stale it is: what the
      snapshot holds by now and the most the evidence can still be asked for. */
  lemma EvidenceBoundIff(s: LedgerState, key: string, c: Command, bound: nat)
    requires Inv(s) && key !in s.commands && c.HoldCommand? && Precheck(c) == None
    ensures (forall units: nat :: LiveAsked(s, key, c, units) <= bound) <==>
            Total(Live(s.rows, c.decision.snapshotId.value)) + MostUnits(s, c.decision) <= bound
  {
    var live, most := Total(Live(s.rows, c.decision.snapshotId.value)), MostUnits(s, c.decision);
    forall units: nat
      ensures LiveAsked(s, key, c, units) <= live + most
      ensures units == most ==> LiveAsked(s, key, c, units) == live + most
    {
      AskedOutcome(s, key, c, units);
    }
    assert LiveAsked(s, key, c, most) == live + most;
  }

  /** The ledger reserves no less than the decision saw, and it still has room under the decision's limit. */
  ghost predicate StillReserved(s: LedgerState, d: Decision)
    requires HasBasis(d)
  {
    Reserved(d).value <= Total(LiveUnlisted(s.rows, d.snapshotId.value, ActiveIds(d))) < LimitAfterWip(d).value
  }

  /** While nothing the decision saw reserved has been freed, and there is room left, the bound is the commitments it
      lists and the units it leaves after WIP. */
  lemma ReservedBoundIff(s: LedgerState, key: string, c: Command, bound: nat)
    requires Inv(s) && key !in s.commands && c.HoldCommand? && Precheck(c) == None && StillReserved(s, c.decision)
    ensures var d := c.decision;
            (forall units: nat :: LiveAsked(s, key, c, units) <= bound) <==>
            Total(LiveListed(s.rows, d.snapshotId.value, ActiveIds(d))) + LimitAfterWip(d).value <= bound
  {
    EvidenceBoundIff(s, key, c, bound);
    LiveSplits(s.rows, c.decision.snapshotId.value, ActiveIds(c.decision));
  }

  /** So WIP cover is not only sufficient but necessary: while nothing the decision saw reserved has been freed, and
      there is room left, every request on the evidence stays under its own ceiling exactly when its WIP units cover
      the commitments it lists. */
  lemma CoverIsNecessary(s: LedgerState, key: string, c: Command)
    requires Inv(s) && key !in s.commands && c.HoldCommand? && Precheck(c) == None && StillReserved(s, c.decision)
    ensures (forall units: nat :: LiveAsked(s, key, c, units) <= Ceiling(c.decision).value) <==>
            WipCovers(s.rows, c.decision)
  {
    ReservedBoundIff(s, key, c, Ceiling(c.decision).value);
  }
}
