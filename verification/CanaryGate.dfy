/** delivery/canary_gate.py: evaluator and ledger composed, and why the second never contradicts the first. */
module CanaryGateModel {
  import opened Prelude
  import opened Decisions
  import opened WorkOrders
  import opened Readiness
  import opened Ledger
  import opened LedgerLaws
  import opened CapacityLedgerModel
  import V1Eval = AdmissionV1
  import V2Eval = AdmissionV2
  import V2Laws = AdmissionLaws

  // ---- What an acceptance carries ----------------------------------------------------------------

  /** A v1 acceptance carries a sound basis exactly when its snapshot is named: v1 never checks that it is. */
  lemma V1BasisIff(x: V1Eval.Inputs, now: int, id: string)
    requires V1Eval.Decide(x, now, id).verdict == CanAccept
    ensures HasBasis(V1Eval.Decide(x, now, id)) <==> x.snapshot.value.id != ""
  {
    V1Eval.CanAcceptIff(x, now, id);
  }

  lemma NumbersGiveBasis(d: Decision)
    requires d.V2? && NonNegative(d.policy) && NonNegative(d.staffed) && NonNegative(d.wip) && NonNegative(d.held)
    requires NonNegative(d.reconciliation) && d.snapshotId.Some? && d.snapshotId.value != ""
    requires Positive(d.requested) && d.available.Some? && d.requested.value <= d.available.value
    requires d.available == V2Eval.Available(d.policy, d.staffed, d.wip, d.held, d.reconciliation)
    ensures HasBasis(d)
  {
  }

  /** A v2 acceptance always does, and it covers no disputed effort. */
  lemma V2Basis(x: V2Eval.Inputs, now: int, id: string)
    requires V2Eval.Decide(x, now, id).verdict == CanAccept
    ensures var d := V2Eval.Decide(x, now, id); HasBasis(d) && d.reconciliation == Some(0)
  {
    V2Laws.AcceptedNumbers(x, now, id);
    NumbersGiveBasis(V2Eval.Decide(x, now, id));
  }

  /** With a sound basis, a fresh key, the right correlation and a live window, only capacity can refuse a hold, and it
      does so exactly when what the ledger reserves has outgrown what the decision saw by more than its slack. */
  lemma HoldRefusedOnlyForCapacity(s: LedgerState, key: string, c: Command)
    requires Inv(s) && key !in s.commands && c.HoldCommand?
    requires c.decision.verdict == CanAccept && IsSynthetic(c.decision) && HasBasis(c.decision)
    requires c.decision.correlation == Some(c.correlation) && c.createdAt < c.expiresAt
    ensures var d := c.decision;
            var outcome := Step(s, Do(key, c)).1;
            var reserved := Total(LiveUnlisted(s.rows, d.snapshotId.value, ActiveIds(d)));
            && outcome == (if reserved + d.requested.value <= LimitAfterWip(d).value
                           then Replied(NewRow(key, c)) else Failed(CapacityExhausted))
            && (Total(LiveUnlisted(s.rows, d.snapshotId.value, ActiveIds(d))) <= Reserved(d).value ==> outcome.Replied?)
  {
    FreshKeyHasNoRow(s, key);
  }

  /** A synthetic v2 acceptance is held, provided the ledger reserves no more than the allocations that were
      evaluated. */
  lemma V2HoldSucceeds(x: V2Eval.Inputs, now: int, id: string, s: LedgerState, key: string, createdAt: int,
          expiresAt: int)
    requires Inv(s) && key !in s.commands && createdAt < expiresAt
    requires V2Eval.Decide(x, now, id).verdict == CanAccept && IsSynthetic(V2Eval.Decide(x, now, id))
    requires Total(LiveUnlisted(s.rows, x.snapshot.value.id.value, RefSet(V2Eval.WipRefs(x))))
            <= V2Eval.HeldSum(x.allocations.value.rows)
    ensures var d := V2Eval.Decide(x, now, id);
            Step(s, Do(key, HoldCommand(d, x.request.correlation, createdAt, expiresAt))).1.Replied?
  {
    V2Laws.CanAcceptIff(x, now, id);
    V2Basis(x, now, id);
    HoldRefusedOnlyForCapacity(s, key,
        HoldCommand(V2Eval.Decide(x, now, id), x.request.correlation, createdAt, expiresAt));
  }

  /** Such an acceptance exists, and an empty ledger holds it. */
  lemma AcceptedWorkIsHeld()
    ensures var d := V2Eval.Decide(V2Laws.ONE_UNIT_INPUTS, 0, "cadm");
            Step(EMPTY, Do("key", HoldCommand(d, "corr", 0, 1))).1.Replied?
  {
    V2Laws.AcceptanceIsPossible();
    EmptyIsValid();
    assert LiveUnlisted(EMPTY.rows, "snapshot", RefSet(V2Eval.WipRefs(V2Laws.ONE_UNIT_INPUTS))) == map[];
    V2HoldSucceeds(V2Laws.ONE_UNIT_INPUTS, 0, "cadm", EMPTY, "key", 0, 1);
  }

  /** For the same work orders and the same ledger rows, the evaluator's available units are the projection's. */
  lemma AvailableMatchesProjection(x: V1Eval.Inputs, now: int, id: string, rows: Rows)
    requires V1Eval.FirstGuard(x, now) == None && V1Eval.CalendarGuard(x, now) == None && Sound(x.workOrders.value)
    requires x.reserved == Some(Total(LiveUnlisted(rows, x.snapshot.value.id, RefSet(ActiveRefs(x.workOrders.value)))))
    ensures V1Eval.Decide(x, now, id).available ==
            Some(ProjectedAvailable(rows, x.snapshot.value.id, x.snapshot.value.staffed.value, x.workOrders.value))
  {
  }

  // ---- Why gate decisions cover the ledger -------------------------------------------------------

  /** Each committed row that has an active work order was granted no more than that work order's estimate. */
  ghost predicate EstimatesCoverCommitments(rows: Rows, workOrders: seq<WorkOrder>) {
    forall h, i :: h in rows && rows[h].state == Committed && 0 <= i < |workOrders|
        && Active(workOrders[..i], workOrders[i])
        && rows[h].workOrderId == workOrders[i].id && Positive(workOrders[i].units)
      ==> rows[h].effort <= workOrders[i].units.value
  }

  /** No work order sits on two rows, so listing one more work order lists at most one more row. */
  lemma ListOneMore(rows: Rows, snapshotId: string, active: set<string>, ref: string, units: nat)
    requires WorkOrdersUnique(rows)
    requires forall h <- rows :: rows[h].state == Committed && rows[h].workOrderId == Some(ref) ==>
            rows[h].effort <= units
    ensures Total(LiveListed(rows, snapshotId, active + {ref})) <= Total(LiveListed(rows, snapshotId, active)) + units
  {
    var before, after := LiveListed(rows, snapshotId, active), LiveListed(rows, snapshotId, active + {ref});
    if g :| g in after && g !in before {
      assert rows[g].workOrderId == Some(ref);
      TotalRemove(after, g);
      TotalSubmap(after - {g}, before);
    } else {
      TotalSubmap(after, before);
    }
  }

  /** The active work orders' estimates cover the committed rows that the decision lists as active. */
  lemma {:induction false} WipCoversCommitments(rows: Rows, snapshotId: string, workOrders: seq<WorkOrder>)
    requires WorkOrdersUnique(rows) && Sound(workOrders) && EstimatesCoverCommitments(rows, workOrders)
    ensures Total(LiveListed(rows, snapshotId, RefSet(ActiveRefs(workOrders)))) <= ActiveUnits(workOrders)
  {
    if workOrders == [] {
      assert LiveListed(rows, snapshotId, RefSet([])) == map[];
    } else {
      var init, w := Init(workOrders), Last(workOrders);
      forall i | 0 <= i < |init|
        ensures init[..i] == workOrders[..i]
      {
      }
      WipCoversCommitments(rows, snapshotId, init);
      if Active(init, w) {
        RefSetAdd(ActiveRefs(init), w.id.value);
        ListOneMore(rows, snapshotId, RefSet(ActiveRefs(init)), w.id.value, w.units.value);
      } else {
        assert ActiveRefs(init) + [] == ActiveRefs(init);
      }
    }
  }

  /** A v1 acceptance over work orders that cover the ledger's commitments is a covering decision, so runs of such
      decisions never oversubscribe the staffed units. */
  lemma AcceptanceCovers(x: V1Eval.Inputs, now: int, id: string, s: LedgerState, limits: string -> nat)
    requires Inv(s) && V1Eval.Decide(x, now, id).verdict == CanAccept && x.snapshot.value.id != ""
    requires EstimatesCoverCommitments(s.rows, x.workOrders.value)
    requires x.snapshot.value.staffed.value <= limits(x.snapshot.value.id)
    ensures HasBasis(V1Eval.Decide(x, now, id)) && Covers(s, V1Eval.Decide(x, now, id), limits)
  {
    V1Eval.CanAcceptIff(x, now, id);
    V1BasisIff(x, now, id);
    WipCoversCommitments(s.rows, x.snapshot.value.id, x.workOrders.value);
  }

  /** The same for v2, whose limit is the lower of the two ceilings. */
  lemma V2AcceptanceCovers(x: V2Eval.Inputs, now: int, id: string, s: LedgerState, limits: string -> nat)
    requires Inv(s) && V2Eval.Decide(x, now, id).verdict == CanAccept
    requires x.workOrders.Some? && EstimatesCoverCommitments(s.rows, x.workOrders.value.rows)
    requires x.snapshot.Some? && x.snapshot.value.id.Some? && V2Eval.PolicyUnits(x).Some?
    requires V2Eval.StaffedUnits(x).Some?
    requires Min(V2Eval.PolicyUnits(x).value, V2Eval.StaffedUnits(x).value) <= limits(x.snapshot.value.id.value)
    ensures HasBasis(V2Eval.Decide(x, now, id)) && Covers(s, V2Eval.Decide(x, now, id), limits)
  {
    V2Laws.CanAcceptIff(x, now, id);
    V2Basis(x, now, id);
    WipCoversCommitments(s.rows, x.snapshot.value.id.value, x.workOrders.value.rows);
  }

  /** The decision is what v1 decided, then or earlier, over work orders that cover the ledger's commitments now. */
  ghost predicate AcceptedByV1(s: LedgerState, d: Decision, limits: string -> nat, x: V1Eval.Inputs, now: int,
          id: string)
  {
    && d == V1Eval.Decide(x, now, id) && x.workOrders.Some? && x.snapshot.Some? && x.snapshot.value.staffed.Some?
    && EstimatesCoverCommitments(s.rows, x.workOrders.value)
    && x.snapshot.value.staffed.value <= limits(x.snapshot.value.id)
  }

  ghost predicate AcceptedByV2(s: LedgerState, d: Decision, limits: string -> nat, x: V2Eval.Inputs, now: int,
          id: string)
  {
    && d == V2Eval.Decide(x, now, id) && x.workOrders.Some?
    && EstimatesCoverCommitments(s.rows, x.workOrders.value.rows)
    && x.snapshot.Some? && x.snapshot.value.id.Some? && V2Eval.PolicyUnits(x).Some? && V2Eval.StaffedUnits(x).Some?
    && Min(V2Eval.PolicyUnits(x).value, V2Eval.StaffedUnits(x).value) <= limits(x.snapshot.value.id.value)
  }

  ghost predicate Evaluated(s: LedgerState, d: Decision, limits: string -> nat) {
    || (exists x: V1Eval.Inputs, now: int, id: string :: AcceptedByV1(s, d, limits, x, now, id))
    || (exists x: V2Eval.Inputs, now: int, id: string :: AcceptedByV2(s, d, limits, x, now, id))
  }

  /** Every hold granted along the run was granted on a decision of one of the two evaluators, however stale. */
  ghost predicate RunEvaluated(s: LedgerState, ops: seq<Op>, limits: string -> nat)
    decreases |ops|
  {
    ops == [] || (
      && (Grants(s, ops[0]) ==> Evaluated(s, ops[0].command.decision, limits))
      && RunEvaluated(Step(s, ops[0]).0, ops[1..], limits))
  }

  lemma GrantedWasAccepted(s: LedgerState, op: Op)
    requires Grants(s, op)
    ensures op.command.decision.verdict == CanAccept && HasBasis(op.command.decision)
  {
  }

  lemma V1Covers(s: LedgerState, d: Decision, limits: string -> nat, x: V1Eval.Inputs, now: int, id: string)
    requires Inv(s) && d.verdict == CanAccept && HasBasis(d) && AcceptedByV1(s, d, limits, x, now, id)
    ensures Covers(s, d, limits)
  {
    V1BasisIff(x, now, id);
    AcceptanceCovers(x, now, id, s, limits);
  }

  lemma V2Covers(s: LedgerState, d: Decision, limits: string -> nat, x: V2Eval.Inputs, now: int, id: string)
    requires Inv(s) && d.verdict == CanAccept && HasBasis(d) && AcceptedByV2(s, d, limits, x, now, id)
    ensures Covers(s, d, limits)
  {
    V2AcceptanceCovers(x, now, id, s, limits);
  }

  lemma EvaluatedCovers(s: LedgerState, d: Decision, limits: string -> nat)
    requires Inv(s) && d.verdict == CanAccept && HasBasis(d) && Evaluated(s, d, limits)
    ensures Covers(s, d, limits)
  {
    if x: V1Eval.Inputs, now: int, id: string :| AcceptedByV1(s, d, limits, x, now, id) {
      V1Covers(s, d, limits, x, now, id);
    } else {
      var x: V2Eval.Inputs, now: int, id: string :| AcceptedByV2(s, d, limits, x, now, id);
      V2Covers(s, d, limits, x, now, id);
    }
  }

  lemma {:induction false} EvaluatedRunIsCovered(s: LedgerState, ops: seq<Op>, limits: string -> nat)
    requires Inv(s) && RunEvaluated(s, ops, limits)
    ensures RunCovered(s, ops, limits)
    decreases |ops|
  {
    if ops != [] {
      StepKeepsInv(s, ops[0]);
      if Grants(s, ops[0]) {
        GrantedWasAccepted(s, ops[0]);
        EvaluatedCovers(s, ops[0].command.decision, limits);
      }
      EvaluatedRunIsCovered(Step(s, ops[0]).0, ops[1..], limits);
    }
  }

  /** End to end: any number of evaluators of both versions, deciding at any time and holding in any interleaving with
      commits, releases, reconciliations and sweeps, never commit a snapshot beyond its limit, as long as every work
      order is estimated at no less than the effort committed to it. */
  lemma EvaluatorsNeverOversubscribe(ops: seq<Op>, limits: string -> nat)
    requires RunEvaluated(EMPTY, ops, limits)
    ensures WithinLimits(Run(EMPTY, ops).rows, limits)
  {
    EmptyIsValid();
    EvaluatedRunIsCovered(EMPTY, ops, limits);
    NeverOversubscribed(ops, limits);
  }

  // ---- The gate ----------------------------------------------------------------------------------

  /** Rows the gate treats as active: everything not closed or cancelled, whether or not it is well formed. */
  predicate Listed(w: WorkOrder) {
    w.stage.None? || !Terminal(w.stage.value)
  }

  function ListedIds(rows: seq<WorkOrder>): set<string> {
    set i | 0 <= i < |rows| && Listed(rows[i]) && rows[i].id.Some? :: rows[i].id.value
  }

  /** On sound rows the gate's ids are the ones the evaluator reports. */
  lemma {:induction false} ListedAreActive(rows: seq<WorkOrder>)
    requires Sound(rows)
    ensures ListedIds(rows) == RefSet(ActiveRefs(rows))
  {
    if rows != [] {
      var init, w := Init(rows), Last(rows);
      ListedAreActive(init);
      assert rows == init + [w] && (Listed(w) <==> Active(init, w));
      ListedOne(init, w);
      if Active(init, w) {
        RefSetAdd(ActiveRefs(init), w.id.value);
      } else {
        assert ActiveRefs(init) + [] == ActiveRefs(init);
      }
    }
  }

  lemma ListedOne(rows: seq<WorkOrder>, w: WorkOrder)
    ensures ListedIds(rows + [w]) == ListedIds(rows) + if Listed(w) && w.id.Some? then {w.id.value} else {}
  {
    var next := rows + [w];
    assert next[|rows|] == w;
    assert forall i :: 0 <= i < |rows| ==> next[i] == rows[i];
  }

  predicate SomeIdMissing(rows: seq<WorkOrder>) {
    exists i :: 0 <= i < |rows| && Listed(rows[i]) && rows[i].id.None?
  }

  /** The gate looks up the id of every row that is not closed or cancelled, also of one without a known stage, and
      fails exactly when one of these ids is missing. */
  lemma LookupIff(rows: seq<WorkOrder>, id: string)
    ensures SomeIdMissing(rows) <==>
            exists w :: w in rows && w.id == None && w.stage != Some(Closed) && w.stage != Some(Cancelled)
    ensures id in ListedIds(rows) <==>
            exists w :: w in rows && w.id == Some(id) && w.stage != Some(Closed) && w.stage != Some(Cancelled)
  {
    assert forall i :: 0 <= i < |rows| ==> rows[i] in rows;
  }

  datatype GateError = MissingWorkOrderId | LedgerRefused(error: LedgerError)

  class CanaryGate {
    const readiness: Profile
    const snapshot: V1Eval.Snapshot
    const ledger: CapacityLedger

    constructor (readiness: Profile, snapshot: V1Eval.Snapshot, ledger: CapacityLedger)
      ensures this.readiness == readiness && this.snapshot == snapshot && this.ledger == ledger
    {
      this.readiness, this.snapshot, this.ledger := readiness, snapshot, ledger;
    }

    /** What the evaluator is given: the gate's own snapshot and the effort a ledger's rows reserve. */
    ghost function InputsFor(allocations: Rows, request: V1Eval.Request, rows: seq<WorkOrder>): V1Eval.Inputs {
      V1Eval.Inputs(request, Some(readiness), Some(snapshot), Some(rows),
                    Some(Total(LiveUnlisted(allocations, snapshot.id, ListedIds(rows)))))
    }

    /** Sweeps elapsed holds, then evaluates. A listed row without an id is a lookup failure, after the sweep. */
    method Evaluate(request: V1Eval.Request, rows: seq<WorkOrder>, evaluatedAt: int, id: string)
      returns (r: Result<Decision, GateError>)
      requires ledger.Valid()
      modifies ledger`allocations
      ensures ledger.Valid() && ledger.State() == Step(old(ledger.State()), Expire(evaluatedAt)).0
      ensures r == if SomeIdMissing(rows) then Err(MissingWorkOrderId)
                   else Ok(V1Eval.Decide(InputsFor(ledger.allocations, request, rows), evaluatedAt, id))
    {
      var _ := ledger.ReconcileExpired(evaluatedAt);
      if SomeIdMissing(rows) {
        return Err(MissingWorkOrderId);
      }
      var reserved := ledger.ReservedEffortUnits(snapshot.id, ListedIds(rows));
      var decision := V1Eval.EvaluateAdmission(
        V1Eval.Inputs(request, Some(readiness), Some(snapshot), Some(rows), Some(reserved)), evaluatedAt, id);
      return Ok(decision);
    }

    /** Evaluate, then hold on the decision. With a fresh key the hold is granted exactly when the decision accepts, the
        evidence is synthetic, the snapshot is named and the hold has a future: capacity is never the reason it
        fails. */
    method EvaluateAndHold(request: V1Eval.Request, rows: seq<WorkOrder>, evaluatedAt: int, id: string,
            key: string, holdExpiresAt: int)
      returns (r: Result<(Decision, Row), GateError>)
      requires ledger.Valid()
      modifies ledger
      ensures ledger.Valid()
      ensures var swept := Step(old(ledger.State()), Expire(evaluatedAt)).0;
              if SomeIdMissing(rows) then ledger.State() == swept && r == Err(MissingWorkOrderId)
              else
                var d := V1Eval.Decide(InputsFor(swept.rows, request, rows), evaluatedAt, id);
                var step := Step(swept, Do(key, HoldCommand(d, request.correlation, evaluatedAt, holdExpiresAt)));
                && ledger.State() == step.0
                && r == (if step.1.Replied? then Ok((d, step.1.row)) else Err(LedgerRefused(step.1.error)))
                && (key !in old(ledger.commands) ==>
                      && (r.Ok? <==>
                            d.verdict == CanAccept && snapshot.synthetic && snapshot.id != ""
                            && evaluatedAt < holdExpiresAt)
                      && r != Err(LedgerRefused(CapacityExhausted)))
    {
      var decision := Evaluate(request, rows, evaluatedAt, id);
      if decision.Err? {
        return Err(decision.error);
      }
      var d := decision.value;
      ghost var x, before := InputsFor(ledger.allocations, request, rows), ledger.State();
      var hold := ledger.AcquireHold(d, key, request.correlation, evaluatedAt, holdExpiresAt);
      if d.verdict == CanAccept {
        V1Eval.CanAcceptIff(x, evaluatedAt, id);
        V1BasisIff(x, evaluatedAt, id);
        ListedAreActive(rows);
        if key !in before.commands && snapshot.synthetic && snapshot.id != "" && evaluatedAt < holdExpiresAt {
          HoldRefusedOnlyForCapacity(before, key, HoldCommand(d, request.correlation, evaluatedAt, holdExpiresAt));
        }
      }
      return if hold.Ok? then Ok((d, hold.value)) else Err(LedgerRefused(hold.error));
    }

    method Commit(holdId: HoldId, workOrderId: string, key: string, committedAt: int)
      returns (r: Result<Row, LedgerError>)
      requires ledger.Valid()
      modifies ledger
      ensures ledger.Valid()
      ensures var step := Step(old(ledger.State()), Do(key, CommitCommand(holdId, workOrderId, committedAt)));
              ledger.State() == step.0 && r == Reply(step.1)
    {
      r := ledger.Commit(holdId, workOrderId, key, committedAt);
    }

    method ReleaseClosed(holdId: HoldId, key: string, releasedAt: int) returns (r: Result<Row, LedgerError>)
      requires ledger.Valid()
      modifies ledger
      ensures ledger.Valid()
      ensures var step := Step(old(ledger.State()), Do(key, ReleaseCommand(holdId, "WORK_ORDER_CLOSED", releasedAt)));
              ledger.State() == step.0 && r == Reply(step.1)
    {
      r := ledger.Release(holdId, "WORK_ORDER_CLOSED", key, releasedAt);
    }
  }
}
