/** The ledger object: two tables, and one method for each atomic command. */
module CapacityLedgerModel {
  import opened Prelude
  import opened Decisions
  import opened WorkOrders
  import opened Ledger
  import opened LedgerLaws

  /** Effort of the selected rows of a snapshot. */
  ghost function Selected(rows: Rows, snapshotId: string, keep: Row -> bool): map<HoldId, nat> {
    map h | h in rows && h.snapshotId == snapshotId && keep(rows[h]) :: rows[h].effort
  }

  /** The reply to a keyed command, as the caller sees it. */
  function Reply(o: Outcome): Result<Row, LedgerError>
    requires !o.Swept?
  {
    if o.Replied? then Ok(o.row) else Err(o.error)
  }

  datatype Projection = Projection(wip: nat, held: nat, committed: nat, released: nat, available: int)

  /** Staffed units less the active work orders and everything the ledger reserves beside them. */
  ghost function ProjectedAvailable(rows: Rows, snapshotId: string, staffed: int, workOrders: seq<WorkOrder>): int {
    Max(0, staffed - ActiveUnits(workOrders) - Total(LiveUnlisted(rows, snapshotId, RefSet(ActiveRefs(workOrders)))))
  }

  class CapacityLedger {
    var allocations: Rows
    var commands: map<string, Record>

    ghost function State(): LedgerState
      reads this
    {
      LedgerState(allocations, commands)
    }

    ghost predicate Valid()
      reads this
    {
      Inv(State())
    }

    constructor ()
      ensures Valid() && State() == EMPTY
    {
      allocations, commands := map[], map[];
      new;
      EmptyIsValid();
    }

    /** Add up the rows of a snapshot that a filter keeps. */
    method SumEffort(snapshotId: string, keep: Row -> bool) returns (total: nat)
      ensures total == Total(Selected(allocations, snapshotId, keep))
    {
      total := 0;
      var todo := allocations.Keys;
      ghost var all := Selected(allocations, snapshotId, keep);
      assert Restrict(all, todo) == all;
      while todo != {}
        invariant todo <= allocations.Keys
        invariant total + Total(Restrict(all, todo)) == Total(all)
        decreases todo
      {
        var h :| h in todo;
        if h.snapshotId == snapshotId && keep(allocations[h]) {
          TotalRemove(Restrict(all, todo), h);
          total := total + allocations[h].effort;
        }
        assert Restrict(all, todo) - {h} == Restrict(all, todo - {h});
        assert h !in all ==> Restrict(all, todo - {h}) == Restrict(all, todo);
        todo := todo - {h};
      }
    }

    /** `reserved_effort_units`: holds, ambiguous rows and commitments not yet visible as active work orders. */
    method ReservedEffortUnits(snapshotId: string, active: set<string>) returns (units: nat)
      ensures units == Total(LiveUnlisted(allocations, snapshotId, active))
    {
      units := SumEffort(snapshotId, (r: Row) => Occupies(r.state) && Unlisted(r, active));
      assert Selected(allocations, snapshotId, (r: Row) => Occupies(r.state) && Unlisted(r, active)) ==
             LiveUnlisted(allocations, snapshotId, active);
    }

    /** `_command_result`: a key that is taken decides the command by itself, whatever the tables hold; it is answered
        from its record, or refused when the key belongs to another command. */
    method CommandResult(key: string, c: Command) returns (r: Result<Option<Row>, LedgerError>)
      ensures r == Ok(None) <==> key !in commands
      ensures key in commands && Precheck(c) == None ==>
                Step(State(), Do(key, c)) == (State(), if r.Ok? then Replied(r.value.value) else Failed(r.error))
    {
      if key !in commands {
        return Ok(None);
      }
      if commands[key].command != c {
        return Err(KeyUsedByDifferentCommand);
      }
      return Ok(Some(commands[key].result));
    }

    method AcquireHold(decision: Decision, key: string, correlation: string, createdAt: int, expiresAt: int)
      returns (r: Result<Row, LedgerError>)
      requires Valid()
      modifies this
      ensures Valid()
      ensures var step := Step(old(State()), Do(key, HoldCommand(decision, correlation, createdAt, expiresAt)));
              State() == step.0 && r == Reply(step.1)
    {
      var c := HoldCommand(decision, correlation, createdAt, expiresAt);
      StepKeepsInv(State(), Do(key, c));
      if Precheck(c).Some? {
        return Err(Precheck(c).value);
      }
      var replay := CommandResult(key, c);
      if replay.Err? {
        return Err(replay.error);
      }
      if replay.value.Some? {
        return Ok(replay.value.value);
      }
      var snapshotId, effort := decision.snapshotId.value, decision.requested.value;
      var active := ReservedEffortUnits(snapshotId, ActiveIds(decision));
      if active + effort > LimitAfterWip(decision).value {
        return Err(CapacityExhausted);
      }
      if exists h :: h in allocations && h.key == key {
        return Err(UniqueConstraint);
      }
      var holdId := HoldId(snapshotId, key, correlation);
      var row := Row(holdId, effort, Held, createdAt, expiresAt, None, None, None, None);
      allocations := allocations[holdId := row];
      commands := commands[key := Record(c, row)];
      return Ok(row);
    }

    method Commit(holdId: HoldId, workOrderId: string, key: string, committedAt: int)
      returns (r: Result<Row, LedgerError>)
      requires Valid()
      modifies this
      ensures Valid()
      ensures var step := Step(old(State()), Do(key, CommitCommand(holdId, workOrderId, committedAt)));
              State() == step.0 && r == Reply(step.1)
    {
      var c := CommitCommand(holdId, workOrderId, committedAt);
      StepKeepsInv(State(), Do(key, c));
      var replay := CommandResult(key, c);
      if replay.Err? {
        return Err(replay.error);
      }
      if replay.value.Some? {
        return Ok(replay.value.value);
      }
      if holdId !in allocations {
        return Err(UnknownHold);
      }
      var row := allocations[holdId];
      assert RowOk(holdId, row);
      if committedAt < row.createdAt {
        return Err(TimestampPrecedesAllocation);
      }
      if committedAt >= row.expiresAt {
        return Err(HoldExpired);
      }
      if !(row.state == Committed && row.workOrderId == Some(workOrderId)) {
        if row.state != Held {
          return Err(IllegalState);
        }
        if exists h :: h in allocations && h != holdId && allocations[h].workOrderId == Some(workOrderId) {
          return Err(UniqueConstraint);
        }
        row := row.(state := Committed, committedAt := Some(committedAt), workOrderId := Some(workOrderId));
      }
      allocations := allocations[holdId := row];
      commands := commands[key := Record(c, row)];
      return Ok(row);
    }

    method Release(holdId: HoldId, reason: string, key: string, releasedAt: int) returns (r: Result<Row, LedgerError>)
      requires Valid()
      modifies this
      ensures Valid()
      ensures var step := Step(old(State()), Do(key, ReleaseCommand(holdId, reason, releasedAt)));
              State() == step.0 && r == Reply(step.1)
    {
      var c := ReleaseCommand(holdId, reason, releasedAt);
      StepKeepsInv(State(), Do(key, c));
      if reason == "" {
        return Err(ReasonRequired);
      }
      var replay := CommandResult(key, c);
      if replay.Err? {
        return Err(replay.error);
      }
      if replay.value.Some? {
        return Ok(replay.value.value);
      }
      if holdId !in allocations {
        return Err(UnknownHold);
      }
      var row := allocations[holdId];
      assert RowOk(holdId, row);
      var lowerBound := if row.committedAt.Some? then row.committedAt.value else row.createdAt;
      if releasedAt < lowerBound {
        return Err(TimestampPrecedesAllocation);
      }
      if row.state != Released {
        if row.state !in {Held, Committed, Reconciling} {
          return Err(IllegalState);
        }
        row := row.(state := Released, releasedAt := Some(releasedAt), reason := Some(reason));
      }
      allocations := allocations[holdId := row];
      commands := commands[key := Record(c, row)];
      return Ok(row);
    }

    method MarkReconciliationRequired(holdId: HoldId, ambiguity: string, key: string, observedAt: int)
      returns (r: Result<Row, LedgerError>)
      requires Valid()
      modifies this
      ensures Valid()
      ensures var step := Step(old(State()), Do(key, ReconcileCommand(holdId, ambiguity, observedAt)));
              State() == step.0 && r == Reply(step.1)
    {
      var c := ReconcileCommand(holdId, ambiguity, observedAt);
      StepKeepsInv(State(), Do(key, c));
      if ambiguity !in AMBIGUITIES {
        return Err(UnsupportedAmbiguity);
      }
      var replay := CommandResult(key, c);
      if replay.Err? {
        return Err(replay.error);
      }
      if replay.value.Some? {
        return Ok(replay.value.value);
      }
      if holdId !in allocations {
        return Err(UnknownHold);
      }
      var row := allocations[holdId];
      assert RowOk(holdId, row);
      var lowerBound := if row.committedAt.Some? then row.committedAt.value else row.createdAt;
      if observedAt < lowerBound {
        return Err(TimestampPrecedesAllocation);
      }
      if row.state == Reconciling {
        if row.reason != Some(ambiguity) {
          return Err(DifferentAmbiguity);
        }
      } else {
        if row.state !in {Held, Committed} {
          return Err(IllegalState);
        }
        row := row.(state := Reconciling, reason := Some(ambiguity));
      }
      allocations := allocations[holdId := row];
      commands := commands[key := Record(c, row)];
      return Ok(row);
    }

    /** `reconcile_expired`: one statement updates each elapsed hold in turn. */
    method ReconcileExpired(asOf: int) returns (expired: set<HoldId>)
      requires Valid()
      modifies this`allocations
      ensures Valid()
      ensures State() == Step(old(State()), Expire(asOf)).0 && Step(old(State()), Expire(asOf)).1 == Swept(expired)
    {
      ghost var before := State();
      expired := Elapsed(allocations, asOf);
      var todo := expired;
      ghost var done: set<HoldId> := {};
      assert ExpireSome(allocations, {}, asOf) == allocations;
      while todo != {}
        invariant todo !! done && todo + done == expired && allocations == ExpireSome(before.rows, done, asOf)
        decreases todo
      {
        var h :| h in todo;
        ExpireOneMore(before.rows, done, h, asOf);
        allocations := allocations[h := ExpireRow(allocations[h], asOf)];
        todo, done := todo - {h}, done + {h};
      }
      assert done == expired;
      StepKeepsInv(before, Expire(asOf));
    }

    /** `projection`, which refuses any row list with a repeated, unnamed or unestimated work order, terminal ones
        included. */
    method Project(snapshotId: string, staffed: int, rows: seq<WorkOrder>) returns (r: Option<Projection>)
      ensures r.Some? <==> Canonical(rows)
      ensures r.Some? ==>
                && r.value.wip == ActiveUnits(rows)
                && r.value.held ==
                      Total(Selected(allocations, snapshotId, (row: Row) => row.state in {Held, Reconciling}))
                && r.value.committed == Total(Selected(allocations, snapshotId, (row: Row) => row.state == Committed))
                && r.value.released == Total(Selected(allocations, snapshotId, (row: Row) => row.state == Released))
                && r.value.available == ProjectedAvailable(allocations, snapshotId, staffed, rows)
    {
      var read := ReadCanonical(rows);
      if read.None? {
        return None;
      }
      var (wip, active) := read.value;
      var held := SumEffort(snapshotId, (row: Row) => row.state in {Held, Reconciling});
      var committed := SumEffort(snapshotId, (row: Row) => row.state == Committed);
      var unprojected := SumEffort(snapshotId, (row: Row) => row.state == Committed && Unlisted(row, active));
      var released := SumEffort(snapshotId, (row: Row) => row.state == Released);
      UnlistedSplits(allocations, snapshotId, active);
      return Some(Projection(wip, held, committed, released, Max(0, staffed - (wip + held + unprojected))));
    }
  }

  /** Every row of a projection must be canonical: named, new and estimated, even when terminal. */
  predicate Canonical(rows: seq<WorkOrder>) {
    rows == [] || (Canonical(Init(rows)) && Identified(Init(rows), Last(rows)) && Positive(Last(rows).units))
  }

  /** What the evaluators call sound, and an estimate on every row as well. */
  lemma {:induction false} CanonicalIff(rows: seq<WorkOrder>)
    ensures Canonical(rows) <==> Sound(rows) && forall i :: 0 <= i < |rows| ==> Positive(rows[i].units)
  {
    if rows != [] {
      var init := Init(rows);
      CanonicalIff(init);
      assert forall i :: 0 <= i < |init| ==> rows[i] == init[i];
    }
  }

  /** What the projection shows as available is never negative, and the most units that the staffed ones still hold
      beside the active work orders and everything held, ambiguous, or committed and not among them. */
  lemma ProjectedAvailableIs(rows: Rows, snapshotId: string, staffed: int, workOrders: seq<WorkOrder>, units: nat)
    requires units > 0
    ensures ProjectedAvailable(rows, snapshotId, staffed, workOrders) >= 0
    ensures units <= ProjectedAvailable(rows, snapshotId, staffed, workOrders) <==>
            Total(Estimates(workOrders))
            + Total(LiveUnlisted(rows, snapshotId, RefSet(ActiveRefs(workOrders)))) + units <= staffed
  {
    ActiveUnitsIs(workOrders);
  }

  method ReadCanonical(rows: seq<WorkOrder>) returns (r: Option<(nat, set<string>)>)
    ensures r == if Canonical(rows) then Some((ActiveUnits(rows), RefSet(ActiveRefs(rows)))) else None
  {
    var wip: nat, active: set<string>, seen: set<string> := 0, {}, {};
    for i := 0 to |rows|
      invariant Canonical(rows[..i]) && seen == Seen(rows[..i])
      invariant wip == ActiveUnits(rows[..i]) && active == RefSet(ActiveRefs(rows[..i]))
    {
      var w := rows[i];
      CanonicalOne(rows, i);
      CountOne(rows, i);
      if w.id.None? || w.id.value == "" || w.id.value in seen || w.stage.None? || w.units.None? || w.units.value <= 0 {
        return None;
      }
      seen := seen + {w.id.value};
      if !Terminal(w.stage.value) {
        wip, active := wip + w.units.value, active + {w.id.value};
      }
    }
    assert rows[..|rows|] == rows;
    return Some((wip, active));
  }

  lemma CanonicalOne(rows: seq<WorkOrder>, i: nat)
    requires i < |rows| && Canonical(rows[..i])
    ensures Canonical(rows[..i + 1]) <==> Identified(rows[..i], rows[i]) && Positive(rows[i].units)
    ensures Canonical(rows) ==> Canonical(rows[..i + 1])
  {
    assert Init(rows[..i + 1]) == rows[..i] && Last(rows[..i + 1]) == rows[i];
    if Canonical(rows) {
      PrefixOfCanonical(rows, i + 1);
    }
  }

  lemma CountOne(rows: seq<WorkOrder>, i: nat)
    requires i < |rows|
    ensures var earlier, next, w := rows[..i], rows[..i + 1], rows[i];
            && ActiveUnits(next) == ActiveUnits(earlier) + UnitsOf(earlier, w)
            && Seen(next) == Seen(earlier) + (if Named(w) then {w.id.value} else {})
            && RefSet(ActiveRefs(next)) ==
                  RefSet(ActiveRefs(earlier)) + (if Active(earlier, w) then {w.id.value} else {})
  {
    ReadOne(rows, i);
    if Active(rows[..i], rows[i]) {
      RefSetAdd(ActiveRefs(rows[..i]), rows[i].id.value);
    } else {
      assert ActiveRefs(rows[..i]) + [] == ActiveRefs(rows[..i]);
    }
  }

  lemma {:induction false} PrefixOfCanonical(rows: seq<WorkOrder>, n: nat)
    requires n <= |rows| && Canonical(rows)
    ensures Canonical(rows[..n])
    decreases |rows|
  {
    if n == |rows| {
      assert rows[..n] == rows;
    } else {
      PrefixOfCanonical(Init(rows), n);
      assert Init(rows)[..n] == rows[..n];
    }
  }

  lemma ExpireOneMore(rows: Rows, due: set<HoldId>, h: HoldId, asOf: int)
    requires h in rows && h !in due
    ensures h in ExpireSome(rows, due, asOf)
    ensures ExpireSome(rows, due, asOf)[h := ExpireRow(ExpireSome(rows, due, asOf)[h], asOf)] ==
            ExpireSome(rows, due + {h}, asOf)
  {
  }

  /** Reserved effort is held and ambiguous effort plus unprojected commitments. */
  lemma UnlistedSplits(rows: Rows, snapshotId: string, active: set<string>)
    ensures Total(LiveUnlisted(rows, snapshotId, active)) ==
            Total(Selected(rows, snapshotId, (row: Row) => row.state in {Held, Reconciling}))
            + Total(Selected(rows, snapshotId, (row: Row) => row.state == Committed && Unlisted(row, active)))
  {
    var all := LiveUnlisted(rows, snapshotId, active);
    var held := Selected(rows, snapshotId, (row: Row) => row.state in {Held, Reconciling});
    var stray := Selected(rows, snapshotId, (row: Row) => row.state == Committed && Unlisted(row, active));
    TotalSplit(all, held.Keys);
    assert Restrict(all, held.Keys) == held;
    assert all - held.Keys == stray;
  }
}
