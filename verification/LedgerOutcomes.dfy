/** What each ledger command answers under a fresh key, and exactly what it leaves behind. */
module LedgerOutcomes {
  import opened Prelude
  import opened Decisions
  import opened Ledger
  import opened LedgerLaws

  /** The command is answered with this row, which the ledger then holds beside all its other rows, and it is on
      record. */
  ghost predicate Leaves(s: LedgerState, key: string, c: Command, row: Row) {
    var t := Step(s, Do(key, c)).0;
    && Step(s, Do(key, c)).1 == Replied(row)
    && row.holdId in t.rows && t.rows[row.holdId] == row
    && t.rows.Keys == s.rows.Keys + {row.holdId} && (forall h <- s.rows :: h != row.holdId ==> t.rows[h] == s.rows[h])
    && t.commands == s.commands[key := Record(c, row)]
  }

  ghost predicate Fails(s: LedgerState, key: string, c: Command, error: LedgerError) {
    Step(s, Do(key, c)) == (s, Failed(error))
  }

  ghost predicate Answered(s: LedgerState, key: string, c: Command) {
    Step(s, Do(key, c)).1.Replied?
  }

  /** Under a key that is taken the command on record is answered as it was the first time, any other is refused as
      such, and nothing changes. */
  lemma UsedKeyAnswers(s: LedgerState, key: string, c: Command)
    requires key in s.commands && Precheck(c) == None
    ensures c == s.commands[key].command ==> Step(s, Do(key, c)) == (s, Replied(s.commands[key].result))
    ensures c != s.commands[key].command ==> Fails(s, key, c, KeyUsedByDifferentCommand)
  {
  }

  // ---- HOLD --------------------------------------------------------------------------------------

  /** The numbers of a v1 decision on which a hold may rest: they agree with one another, and WIP, reserved and
      requested units fit the staffed ones. */
  lemma BasisV1Iff(d: Decision)
    requires d.V1?
    ensures HasBasis(d) <==>
            && d.snapshotId.Some? && d.snapshotId.value != ""
            && d.staffed.Some? && d.wip.Some? && d.reserved.Some? && d.requested.Some?
            && d.wip.value >= 0 && d.reserved.value >= 0 && d.requested.value >= 1
            && d.wip.value + d.reserved.value + d.requested.value <= d.staffed.value
            && d.limitAfterWip == Some(d.staffed.value - d.wip.value)
            && d.available == Some(d.staffed.value - d.wip.value - d.reserved.value)
  {
  }

  /** The same for v2, with everything under the lower of the two ceilings and disputed units beside the held ones. */
  lemma BasisV2Iff(d: Decision)
    requires d.V2?
    ensures HasBasis(d) <==>
            && d.snapshotId.Some? && d.snapshotId.value != ""
            && d.policy.Some? && d.staffed.Some? && d.wip.Some? && d.held.Some? && d.reconciliation.Some?
            && d.requested.Some? && d.wip.value >= 0 && d.held.value >= 0 && d.reconciliation.value >= 0
            && d.requested.value >= 1
            && var consumed := d.wip.value + d.held.value + d.reconciliation.value;
            && consumed + d.requested.value <= d.policy.value && consumed + d.requested.value <= d.staffed.value
            && d.available == Some(Min(d.policy.value, d.staffed.value) - consumed)
  {
  }

  /** A hold is granted exactly when the decision accepts on synthetic evidence with a sound basis and the same
      correlation, the hold has a future, and its units fit beside what the ledger reserves by now. */
  lemma HoldAnsweredIff(s: LedgerState, key: string, c: Command)
    requires Inv(s) && key !in s.commands && c.HoldCommand?
    ensures var d := c.decision;
            Answered(s, key, c) <==>
            && d.verdict == CanAccept && (if d.V1? then d.synthetic else d.evidence == Synthetic)
            && c.createdAt < c.expiresAt && d.correlation == Some(c.correlation) && HasBasis(d)
            && Total(LiveUnlisted(s.rows, d.snapshotId.value, ActiveIds(d))) + d.requested.value
               <= LimitAfterWip(d).value
  {
    FreshKeyHasNoRow(s, key);
  }

  /** A granted hold is a new row in state HELD for the units requested, with nothing committed or released. */
  lemma HoldLeaves(s: LedgerState, key: string, c: Command)
    requires Inv(s) && key !in s.commands && c.HoldCommand? && Answered(s, key, c)
    ensures c.decision.snapshotId.Some? && c.decision.requested.Some? && c.decision.requested.value > 0
    ensures var h := HoldId(c.decision.snapshotId.value, key, c.correlation);
            && h !in s.rows
            && Leaves(s, key, c, Row(h, c.decision.requested.value, Held, c.createdAt, c.expiresAt, None, None, None,
                                     None))
  {
    FreshKeyHasNoRow(s, key);
  }

  /** Why a hold is refused: the first of six checks that fails. */
  lemma HoldFails(s: LedgerState, key: string, c: Command)
    requires Inv(s) && key !in s.commands && c.HoldCommand?
    ensures var d := c.decision;
            var accepts := d.verdict == CanAccept;
            var synthetic := accepts && if d.V1? then d.synthetic else d.evidence == Synthetic;
            var ahead := synthetic && c.createdAt < c.expiresAt;
            var bound := ahead && d.correlation == Some(c.correlation);
            && (Fails(s, key, c, RequiresCanAccept) <==> !accepts)
            && (Fails(s, key, c, RejectsRealReservation) <==> accepts && !synthetic)
            && (Fails(s, key, c, ExpiryNotAfterCreation) <==> synthetic && !ahead)
            && (Fails(s, key, c, CorrelationDiverges) <==> ahead && !bound)
            && (Fails(s, key, c, LacksCapacityBasis) <==> bound && !HasBasis(d))
            && (Fails(s, key, c, CapacityExhausted) <==> bound && HasBasis(d) && !Answered(s, key, c))
  {
    FreshKeyHasNoRow(s, key);
  }

  /** What the recheck counts: everything held, committed or ambiguous in the snapshot, but for the commitments whose
      work order the decision lists as active. */
  lemma ReservedRows(rows: Rows, snapshotId: string, active: set<string>, h: HoldId)
    requires RowsOk(rows)
    ensures h in LiveUnlisted(rows, snapshotId, active) <==>
            && h in rows && h.snapshotId == snapshotId
            && (|| rows[h].state == Held || rows[h].state == Reconciling
                || (rows[h].state == Committed && rows[h].workOrderId.value !in active))
    ensures h in LiveUnlisted(rows, snapshotId, active) ==>
              LiveUnlisted(rows, snapshotId, active)[h] == rows[h].effort
  {
    if h in rows {
      assert RowOk(h, rows[h]);
    }
  }

  // ---- COMMIT ------------------------------------------------------------------------------------

  ghost predicate UsedElsewhere(rows: Rows, holdId: HoldId, workOrderId: string) {
    exists h :: h in rows && h != holdId && rows[h].workOrderId == Some(workOrderId)
  }

  /** A commitment is answered exactly inside the hold's window, for a hold that is free to take the work order, or that
      has taken just this one already. */
  lemma CommitAnsweredIff(s: LedgerState, key: string, c: Command)
    requires key !in s.commands && c.CommitCommand?
    ensures Answered(s, key, c) <==>
            && c.holdId in s.rows && s.rows[c.holdId].createdAt <= c.committedAt < s.rows[c.holdId].expiresAt
            && (|| (s.rows[c.holdId].state == Held && !UsedElsewhere(s.rows, c.holdId, c.workOrderId))
                || (s.rows[c.holdId].state == Committed && s.rows[c.holdId].workOrderId == Some(c.workOrderId)))
  {
  }

  /** A HELD row becomes COMMITTED with the work order and the instant; a COMMITTED one stays as it is. */
  lemma CommitLeaves(s: LedgerState, key: string, c: Command)
    requires Inv(s) && key !in s.commands && c.CommitCommand? && Answered(s, key, c)
    ensures c.holdId in s.rows
    ensures var row := s.rows[c.holdId];
            && row.holdId == c.holdId
            && (row.state == Committed ==> Leaves(s, key, c, row))
            && (row.state == Held ==>
                  Leaves(s, key, c, Row(c.holdId, row.effort, Committed, row.createdAt, row.expiresAt,
                                        Some(c.committedAt), None, Some(c.workOrderId), None)))
  {
    assert RowOk(c.holdId, s.rows[c.holdId]);
  }

  lemma CommitFails(s: LedgerState, key: string, c: Command)
    requires key !in s.commands && c.CommitCommand?
    ensures Fails(s, key, c, UnknownHold) <==> c.holdId !in s.rows
    ensures c.holdId in s.rows ==>
              var row := s.rows[c.holdId];
              && (Fails(s, key, c, TimestampPrecedesAllocation) <==> c.committedAt < row.createdAt)
              && (Fails(s, key, c, HoldExpired) <==> row.createdAt <= c.committedAt && row.expiresAt <= c.committedAt)
              && (Fails(s, key, c, UniqueConstraint) <==>
                    && row.createdAt <= c.committedAt < row.expiresAt && row.state == Held
                    && UsedElsewhere(s.rows, c.holdId, c.workOrderId))
              && (Fails(s, key, c, IllegalState) <==>
                    && row.createdAt <= c.committedAt < row.expiresAt && row.state != Held
                    && !(row.state == Committed && row.workOrderId == Some(c.workOrderId)))
  {
  }

  // ---- RELEASE -----------------------------------------------------------------------------------

  /** Neither before the allocation was made nor before it was committed. */
  predicate NotBefore(at: int, row: Row) {
    row.createdAt <= at && (row.committedAt.Some? ==> row.committedAt.value <= at)
  }

  /** Everything but an expired hold can be released, from its commitment on, for a reason. */
  lemma ReleaseAnsweredIff(s: LedgerState, key: string, c: Command)
    requires Inv(s) && key !in s.commands && c.ReleaseCommand?
    ensures Answered(s, key, c) <==>
            && c.reason != "" && c.holdId in s.rows && NotBefore(c.releasedAt, s.rows[c.holdId])
            && s.rows[c.holdId].state != Expired
  {
    if c.holdId in s.rows {
      assert RowOk(c.holdId, s.rows[c.holdId]);
    }
  }

  /** The row becomes RELEASED with the reason and the instant, and keeps its commitment; a released one stays. */
  lemma ReleaseLeaves(s: LedgerState, key: string, c: Command)
    requires Inv(s) && key !in s.commands && c.ReleaseCommand? && Answered(s, key, c)
    ensures c.holdId in s.rows
    ensures var row := s.rows[c.holdId];
            && row.holdId == c.holdId
            && (row.state == Released ==> Leaves(s, key, c, row))
            && (row.state != Released ==>
                  Leaves(s, key, c, Row(c.holdId, row.effort, Released, row.createdAt, row.expiresAt, row.committedAt,
                                        Some(c.releasedAt), row.workOrderId, Some(c.reason))))
  {
    assert RowOk(c.holdId, s.rows[c.holdId]);
  }

  lemma ReleaseFails(s: LedgerState, key: string, c: Command)
    requires Inv(s) && key !in s.commands && c.ReleaseCommand?
    ensures Fails(s, key, c, ReasonRequired) <==> c.reason == ""
    ensures Fails(s, key, c, UnknownHold) <==> c.reason != "" && c.holdId !in s.rows
    ensures c.reason != "" && c.holdId in s.rows ==>
              var row := s.rows[c.holdId];
              && (Fails(s, key, c, TimestampPrecedesAllocation) <==> !NotBefore(c.releasedAt, row))
              && (Fails(s, key, c, IllegalState) <==> NotBefore(c.releasedAt, row) && row.state == Expired)
  {
    if c.holdId in s.rows {
      assert RowOk(c.holdId, s.rows[c.holdId]);
    }
  }

  // ---- RECONCILE ---------------------------------------------------------------------------------

  /** An ambiguity is taken for a held or committed allocation, or once more for one that has just this ambiguity. */
  lemma DisputeAnsweredIff(s: LedgerState, key: string, c: Command)
    requires Inv(s) && key !in s.commands && c.ReconcileCommand?
    ensures Answered(s, key, c) <==>
            && c.ambiguity in {"CANCELLATION_AMBIGUOUS", "REFUND_AMBIGUOUS", "CHECKOUT_TIMEOUT_AMBIGUOUS"}
            && c.holdId in s.rows && NotBefore(c.observedAt, s.rows[c.holdId])
            && (|| s.rows[c.holdId].state == Held || s.rows[c.holdId].state == Committed
                || (s.rows[c.holdId].state == Reconciling && s.rows[c.holdId].reason == Some(c.ambiguity)))
  {
    if c.holdId in s.rows {
      assert RowOk(c.holdId, s.rows[c.holdId]);
    }
  }

  /** The row is then RECONCILIATION_REQUIRED with just this ambiguity, its commitment and all else unchanged. */
  lemma DisputeLeaves(s: LedgerState, key: string, c: Command)
    requires Inv(s) && key !in s.commands && c.ReconcileCommand? && Answered(s, key, c)
    ensures c.holdId in s.rows
    ensures var row := s.rows[c.holdId];
            && row.holdId == c.holdId
            && Leaves(s, key, c, Row(c.holdId, row.effort, Reconciling, row.createdAt, row.expiresAt, row.committedAt,
                                     None, row.workOrderId, Some(c.ambiguity)))
  {
    assert RowOk(c.holdId, s.rows[c.holdId]);
  }

  lemma DisputeFails(s: LedgerState, key: string, c: Command)
    requires Inv(s) && key !in s.commands && c.ReconcileCommand?
    ensures Fails(s, key, c, UnsupportedAmbiguity) <==> c.ambiguity !in AMBIGUITIES
    ensures Fails(s, key, c, UnknownHold) <==> c.ambiguity in AMBIGUITIES && c.holdId !in s.rows
    ensures c.ambiguity in AMBIGUITIES && c.holdId in s.rows ==>
              var row := s.rows[c.holdId];
              && (Fails(s, key, c, TimestampPrecedesAllocation) <==> !NotBefore(c.observedAt, row))
              && (Fails(s, key, c, DifferentAmbiguity) <==>
                    NotBefore(c.observedAt, row) && row.state == Reconciling && row.reason != Some(c.ambiguity))
              && (Fails(s, key, c, IllegalState) <==>
                    NotBefore(c.observedAt, row) && row.state in {Released, Expired})
  {
    if c.holdId in s.rows {
      assert RowOk(c.holdId, s.rows[c.holdId]);
    }
  }

  // ---- The sweep ---------------------------------------------------------------------------------

  /** The sweep expires each hold whose time is up, at its own instant and for its own reason, and reports just those;
      no other row and no record changes. */
  lemma SweepLeaves(s: LedgerState, asOf: int, h: HoldId)
    requires Inv(s)
    ensures var (t, outcome) := Step(s, Expire(asOf));
            && t.commands == s.commands && t.rows.Keys == s.rows.Keys && outcome.Swept?
            && (h in outcome.expired <==> h in s.rows && s.rows[h].state == Held && s.rows[h].expiresAt <= asOf)
            && (h in s.rows ==>
                  t.rows[h] == if h !in outcome.expired then s.rows[h]
                               else Row(h, s.rows[h].effort, Expired, s.rows[h].createdAt, s.rows[h].expiresAt, None,
                                        Some(asOf), None, Some("HOLD_EXPIRED")))
  {
    if h in s.rows {
      assert RowOk(h, s.rows[h]);
    }
  }
}
