/** What the evaluators and the ledger guarantee together, exactly, and what they let through beyond it. */
module CapacityBounds {
  import opened Prelude
  import opened Decisions
  import opened WorkOrders
  import opened Readiness
  import opened BusinessDays
  import opened Ledger
  import opened LedgerLaws
  import opened CanaryGateModel
  import V1Eval = AdmissionV1
  import V2Eval = AdmissionV2
  import V2Laws = AdmissionLaws

  // ---- The exact bound of v1 ---------------------------------------------------------------------

  function V1WithEffort(x: V1Eval.Inputs, units: nat): V1Eval.Inputs
    requires x.readiness.Some?
  {
    x.(readiness := Some(x.readiness.value.(effort := Some(units))))
  }

  /** The hold taken on what v1 decides. */
  ghost function V1Hold(x: V1Eval.Inputs, now: int, id: string, createdAt: int, expiresAt: int): Command {
    HoldCommand(V1Eval.Decide(x, now, id), x.request.correlation, createdAt, expiresAt)
  }

  ghost function V1Reserves(rows: Rows, x: V1Eval.Inputs): nat
    requires x.snapshot.Some? && x.workOrders.Some?
  {
    Total(LiveUnlisted(rows, x.snapshot.value.id, RefSet(ActiveRefs(x.workOrders.value))))
  }

  ghost function V1Lists(rows: Rows, x: V1Eval.Inputs): nat
    requires x.snapshot.Some? && x.workOrders.Some?
  {
    Total(LiveListed(rows, x.snapshot.value.id, RefSet(ActiveRefs(x.workOrders.value))))
  }

  /** A synthetic v1 acceptance of a named snapshot, evaluated over what the ledger reserves, with a hold that has a
      future. */
  ghost predicate V1Ready(s: LedgerState, x: V1Eval.Inputs, now: int, id: string, key: string, createdAt: int,
          expiresAt: int)
  {
    && Inv(s) && key !in s.commands && createdAt < expiresAt && V1Eval.Decide(x, now, id).verdict == CanAccept
    && x.snapshot.Some? && x.snapshot.value.synthetic && x.snapshot.value.id != "" && x.workOrders.Some?
    && x.reserved == Some(V1Reserves(s.rows, x))
  }

  lemma V1WithEffortIff(x: V1Eval.Inputs, now: int, id: string, units: nat)
    requires V1Eval.Decide(x, now, id).verdict == CanAccept
    ensures V1Eval.Admits(x, now)
    ensures V1Eval.Decide(V1WithEffort(x, units), now, id).verdict == CanAccept <==>
            0 < units && ActiveUnits(x.workOrders.value) + x.reserved.value + units <= x.snapshot.value.staffed.value
    ensures V1Eval.Decide(V1WithEffort(x, units), now, id).verdict == CanAccept ==>
              V1Eval.Decide(V1WithEffort(x, units), now, id) == V1Eval.Decide(x, now, id).(requested := Some(units))
  {
    V1Eval.CanAcceptIff(x, now, id);
    V1Eval.CanAcceptIff(V1WithEffort(x, units), now, id);
  }

  /** The live effort of the snapshot after a v1 evaluation for some units and the hold on it. */
  ghost function V1LiveAfter(s: LedgerState, x: V1Eval.Inputs, now: int, id: string, key: string, createdAt: int,
          expiresAt: int, units: nat): nat
    requires x.readiness.Some? && x.snapshot.Some?
  {
    Total(Live(Step(s, Do(key, V1Hold(V1WithEffort(x, units), now, id, createdAt, expiresAt))).0.rows,
        x.snapshot.value.id))
  }

  lemma V1HoldPasses(x: V1Eval.Inputs, now: int, id: string, createdAt: int, expiresAt: int)
    requires V1Eval.Decide(x, now, id).verdict == CanAccept && createdAt < expiresAt
    requires x.snapshot.Some? && x.snapshot.value.synthetic && x.snapshot.value.id != ""
    ensures Precheck(V1Hold(x, now, id, createdAt, expiresAt)) == None
  {
    V1BasisIff(x, now, id);
    V1Eval.CanAcceptIff(x, now, id);
  }

  /** What a v1 acceptance publishes. */
  lemma V1Numbers(x: V1Eval.Inputs, now: int, id: string)
    requires V1Eval.Decide(x, now, id).verdict == CanAccept
    ensures V1Eval.Admits(x, now)
    ensures var d := V1Eval.Decide(x, now, id);
            && d.V1? && d.snapshotId == Some(x.snapshot.value.id) && d.workOrderRefs == ActiveRefs(x.workOrders.value)
            && Reserved(d) == x.reserved && d.wip == Some(ActiveUnits(x.workOrders.value))
            && LimitAfterWip(d) == Some(x.snapshot.value.staffed.value - ActiveUnits(x.workOrders.value))
            && x.reserved.value < LimitAfterWip(d).value
            && d.available == Some(LimitAfterWip(d).value - x.reserved.value)
  {
    V1Eval.CanAcceptIff(x, now, id);
  }

  /** Evaluating again for other units is asking the same evidence for them. */
  lemma V1LiveIsAsked(s: LedgerState, x: V1Eval.Inputs, now: int, id: string, key: string, createdAt: int,
          expiresAt: int, units: nat)
    requires V1Ready(s, x, now, id, key, createdAt, expiresAt)
    ensures x.readiness.Some? && Precheck(V1Hold(x, now, id, createdAt, expiresAt)) == None
    ensures V1LiveAfter(s, x, now, id, key, createdAt, expiresAt, units) ==
            LiveAsked(s, key, V1Hold(x, now, id, createdAt, expiresAt), units)
  {
    var c := V1Hold(x, now, id, createdAt, expiresAt);
    V1Numbers(x, now, id);
    V1WithEffortIff(x, now, id, units);
    V1HoldPasses(x, now, id, createdAt, expiresAt);
    var again := V1Hold(V1WithEffort(x, units), now, id, createdAt, expiresAt);
    if again.decision.verdict == CanAccept {
      assert again == Asking(c, units);
    } else {
      RefusedChangesNothing(s, key, again);
      AskedOutcome(s, key, c, units);
    }
  }

  lemma RefusedChangesNothing(s: LedgerState, key: string, c: Command)
    requires c.HoldCommand? && c.decision.verdict != CanAccept
    ensures Step(s, Do(key, c)).0 == s
  {
  }

  /** Whatever number of units v1 is asked for on the evidence, the holds it leads to keep the snapshot within a bound
      exactly when the committed effort it lists and the staffed units left after WIP fit under that bound. */
  lemma V1BoundIff(s: LedgerState, x: V1Eval.Inputs, now: int, id: string, key: string, createdAt: int, expiresAt: int,
          bound: nat)
    requires V1Ready(s, x, now, id, key, createdAt, expiresAt)
    ensures V1Eval.Admits(x, now)
    ensures (forall units: nat :: V1LiveAfter(s, x, now, id, key, createdAt, expiresAt, units) <= bound) <==>
            V1Lists(s.rows, x) + x.snapshot.value.staffed.value - ActiveUnits(x.workOrders.value) <= bound
  {
    var c := V1Hold(x, now, id, createdAt, expiresAt);
    V1Numbers(x, now, id);
    V1HoldPasses(x, now, id, createdAt, expiresAt);
    ReservedBoundIff(s, key, c, bound);
    forall units: nat
      ensures V1LiveAfter(s, x, now, id, key, createdAt, expiresAt, units) ==
              LiveAsked(s, key, c, units)
    {
      V1LiveIsAsked(s, x, now, id, key, createdAt, expiresAt, units);
    }
  }

  /** v1 never passes the staffed units exactly when the active estimates cover the commitments they stand for. */
  lemma V1CoverIsNecessary(s: LedgerState, x: V1Eval.Inputs, now: int, id: string, key: string, createdAt: int,
          expiresAt: int)
    requires V1Ready(s, x, now, id, key, createdAt, expiresAt)
    ensures V1Eval.Admits(x, now)
    ensures (forall units: nat ::
               V1LiveAfter(s, x, now, id, key, createdAt, expiresAt, units) <= x.snapshot.value.staffed.value) <==>
            V1Lists(s.rows, x) <= ActiveUnits(x.workOrders.value)
  {
    V1Numbers(x, now, id);
    V1BoundIff(s, x, now, id, key, createdAt, expiresAt, x.snapshot.value.staffed.value);
  }

  /** v1 knows no policy ceiling. On a snapshot that v2 also serves, its holds respect that ceiling exactly when the
      staffed units exceed it by no more than the active estimates exceed the commitments; with exact estimates, only
      when the policy ceiling is not the lower one. */
  lemma V1RespectsPolicyIff(s: LedgerState, x: V1Eval.Inputs, now: int, id: string, key: string, createdAt: int,
          expiresAt: int, policy: nat)
    requires V1Ready(s, x, now, id, key, createdAt, expiresAt)
    ensures V1Eval.Admits(x, now)
    ensures (forall units: nat :: V1LiveAfter(s, x, now, id, key, createdAt, expiresAt, units) <= policy) <==>
            x.snapshot.value.staffed.value - policy <= ActiveUnits(x.workOrders.value) - V1Lists(s.rows, x)
    ensures V1Lists(s.rows, x) == ActiveUnits(x.workOrders.value) ==>
              ((forall units: nat :: V1LiveAfter(s, x, now, id, key, createdAt, expiresAt, units) <= policy) <==>
                 x.snapshot.value.staffed.value <= policy)
  {
    V1BoundIff(s, x, now, id, key, createdAt, expiresAt, policy);
  }

  // ---- v2 reads the ledger -----------------------------------------------------------------------

  /** How an allocation snapshot lists one row of the ledger. */
  function Listing(h: HoldId, r: Row, name: HoldId -> string): V2Eval.Allocation {
    var ambiguityKnown := r.reason.Some? && r.reason.value in AMBIGUITIES;
    V2Eval.Allocation(Some(name(h)), Some(r.state), Some(r.effort), ambiguityKnown, r.workOrderId)
  }

  ghost function HoldsOf(holds: seq<HoldId>): set<HoldId> {
    set h | h in holds
  }

  /** The snapshot lists the ledger's rows of one capacity snapshot, each once, under names that tell them apart. */
  ghost predicate Faithful(listed: seq<V2Eval.Allocation>, rows: Rows, snapshotId: string, holds: seq<HoldId>,
          name: HoldId -> string)
  {
    && |listed| == |holds| && HoldsOf(holds) == (set h | h in rows && h.snapshotId == snapshotId)
    && (forall i, j :: 0 <= i < j < |holds| ==> holds[i] != holds[j] && name(holds[i]) != name(holds[j]))
    && (forall i :: 0 <= i < |holds| ==>
          holds[i] in rows && name(holds[i]) != "" && listed[i] == Listing(holds[i], rows[holds[i]], name))
  }

  /** Every listed row is well formed and under a new name. */
  lemma ListedIsCountable(listed: seq<V2Eval.Allocation>, rows: Rows, snapshotId: string, holds: seq<HoldId>,
          name: HoldId -> string, n: nat)
    requires RowsOk(rows) && Faithful(listed, rows, snapshotId, holds, name) && n < |listed|
    ensures V2Eval.Countable(listed[..n], listed[n])
  {
    assert RowOk(holds[n], rows[holds[n]]);
    forall i | 0 <= i < n
      ensures listed[..n][i].id != listed[n].id
    {
      assert listed[i] == Listing(holds[i], rows[holds[i]], name);
    }
  }

  ghost function Part(rows: Rows, snapshotId: string, active: set<string>, holds: seq<HoldId>): map<HoldId, nat> {
    Restrict(LiveUnlisted(rows, snapshotId, active), HoldsOf(holds))
  }

  /** The effort a ledger row reserves beside the active work orders. */
  function Reserves(r: Row, active: set<string>): nat {
    if Occupies(r.state) && Unlisted(r, active) then r.effort else 0
  }

  lemma PartGrows(rows: Rows, snapshotId: string, active: set<string>, holds: seq<HoldId>, h: HoldId)
    requires h in rows && h.snapshotId == snapshotId && h !in holds
    ensures Total(Part(rows, snapshotId, active, holds + [h])) ==
            Total(Part(rows, snapshotId, active, holds)) + Reserves(rows[h], active)
  {
    assert HoldsOf(holds + [h]) == HoldsOf(holds) + {h};
    var before, after := Part(rows, snapshotId, active, holds), Part(rows, snapshotId, active, holds + [h]);
    if Occupies(rows[h].state) && Unlisted(rows[h], active) {
      TotalInsert(before, h, rows[h].effort);
      assert after == before[h := rows[h].effort];
    } else {
      assert after == before;
    }
  }

  /** A listed row adds to the held and the disputed effort exactly what its ledger row reserves. */
  lemma ListingAdds(earlier: seq<V2Eval.Allocation>, h: HoldId, r: Row, name: HoldId -> string, active: set<string>)
    requires V2Eval.Countable(earlier, Listing(h, r, name)) && RowOk(h, r)
    ensures V2Eval.HeldAt(earlier, Listing(h, r, name)) + V2Eval.DisputedAt(earlier, Listing(h, r, name), active) ==
            Reserves(r, active)
  {
  }

  lemma ListedRow(listed: seq<V2Eval.Allocation>, rows: Rows, snapshotId: string, holds: seq<HoldId>,
          name: HoldId -> string, active: set<string>, n: nat)
    requires RowsOk(rows) && Faithful(listed, rows, snapshotId, holds, name) && n < |listed|
    ensures holds[n] in rows
    ensures V2Eval.HeldAt(listed[..n], listed[n]) + V2Eval.DisputedAt(listed[..n], listed[n], active) ==
            Reserves(rows[holds[n]], active)
  {
    ListedIsCountable(listed, rows, snapshotId, holds, name, n);
    assert RowOk(holds[n], rows[holds[n]]);
    ListingAdds(listed[..n], holds[n], rows[holds[n]], name, active);
  }

  lemma SumsGrow(listed: seq<V2Eval.Allocation>, active: set<string>, n: nat)
    requires n < |listed|
    ensures V2Eval.HeldSum(listed[..n + 1]) == V2Eval.HeldSum(listed[..n]) + V2Eval.HeldAt(listed[..n], listed[n])
    ensures V2Eval.DisputedSum(listed[..n + 1], active) ==
            V2Eval.DisputedSum(listed[..n], active) + V2Eval.DisputedAt(listed[..n], listed[n], active)
  {
    assert Init(listed[..n + 1]) == listed[..n] && Last(listed[..n + 1]) == listed[n];
  }

  lemma HoldsDistinct(listed: seq<V2Eval.Allocation>, rows: Rows, snapshotId: string, holds: seq<HoldId>,
          name: HoldId -> string, n: nat)
    requires Faithful(listed, rows, snapshotId, holds, name) && n < |listed|
    ensures holds[n] in rows && holds[n].snapshotId == snapshotId && holds[n] !in holds[..n]
    ensures holds[..n + 1] == holds[..n] + [holds[n]]
  {
    assert holds[n] in HoldsOf(holds);
    assert forall i :: 0 <= i < n ==> holds[..n][i] == holds[i];
  }

  lemma {:induction false} ListedEffort(listed: seq<V2Eval.Allocation>, rows: Rows, snapshotId: string,
          holds: seq<HoldId>, name: HoldId -> string, active: set<string>, n: nat)
    requires RowsOk(rows) && Faithful(listed, rows, snapshotId, holds, name) && n <= |listed|
    ensures V2Eval.HeldSum(listed[..n]) + V2Eval.DisputedSum(listed[..n], active) ==
            Total(Part(rows, snapshotId, active, holds[..n]))
  {
    if n == 0 {
      assert Part(rows, snapshotId, active, holds[..0]) == map[];
    } else {
      var i := n - 1;
      ListedEffort(listed, rows, snapshotId, holds, name, active, i);
      ListedRow(listed, rows, snapshotId, holds, name, active, i);
      SumsGrow(listed, active, i);
      HoldsDistinct(listed, rows, snapshotId, holds, name, i);
      PartGrows(rows, snapshotId, active, holds[..i], holds[i]);
    }
  }

  /** What v2 reads from a faithful listing is what the ledger itself reserves. */
  lemma ListingIsReserved(listed: seq<V2Eval.Allocation>, rows: Rows, snapshotId: string, holds: seq<HoldId>,
          name: HoldId -> string, active: set<string>)
    requires RowsOk(rows) && Faithful(listed, rows, snapshotId, holds, name)
    ensures V2Eval.HeldSum(listed) + V2Eval.DisputedSum(listed, active) == Total(LiveUnlisted(rows, snapshotId, active))
  {
    ListedEffort(listed, rows, snapshotId, holds, name, active, |listed|);
    assert listed[..|listed|] == listed && holds[..|listed|] == holds;
    assert Part(rows, snapshotId, active, holds) == LiveUnlisted(rows, snapshotId, active) by {
      assert forall h <- LiveUnlisted(rows, snapshotId, active) :: h in HoldsOf(holds);
    }
  }

  /** So v2 is complete as well: an acceptance over a faithful listing is always held, with a fresh key, unless other
      holds intervened. */
  lemma V2GateIsComplete(x: V2Eval.Inputs, now: int, id: string, s: LedgerState, holds: seq<HoldId>,
          name: HoldId -> string, key: string, createdAt: int, expiresAt: int)
    requires Inv(s) && key !in s.commands && createdAt < expiresAt
    requires V2Eval.Decide(x, now, id).verdict == CanAccept && IsSynthetic(V2Eval.Decide(x, now, id))
    requires x.allocations.Some? && x.snapshot.Some? && x.snapshot.value.id.Some?
    requires Faithful(x.allocations.value.rows, s.rows, x.snapshot.value.id.value, holds, name)
    ensures var c := HoldCommand(V2Eval.Decide(x, now, id), x.request.correlation, createdAt, expiresAt);
            Step(s, Do(key, c)).1.Replied?
  {
    V2Laws.CanAcceptIff(x, now, id);
    ListingIsReserved(x.allocations.value.rows, s.rows, x.snapshot.value.id.value, holds, name,
        RefSet(V2Eval.WipRefs(x)));
    V2Laws.ClearRowsDisputeNothing(x.allocations.value.rows, RefSet(V2Eval.WipRefs(x)));
    V2HoldSucceeds(x, now, id, s, key, createdAt, expiresAt);
  }

  // ---- The exact bound of v2 ---------------------------------------------------------------------

  function V2WithEffort(x: V2Eval.Inputs, units: nat): V2Eval.Inputs
    requires x.readiness.Some?
  {
    x.(readiness := Some(x.readiness.value.(effort := Some(units))))
  }

  ghost function V2Hold(x: V2Eval.Inputs, now: int, id: string, createdAt: int, expiresAt: int): Command {
    HoldCommand(V2Eval.Decide(x, now, id), x.request.correlation, createdAt, expiresAt)
  }

  /** A synthetic v2 acceptance whose allocation snapshot holds what the ledger reserves, with a hold that has a
      future. */
  ghost predicate V2Ready(s: LedgerState, x: V2Eval.Inputs, now: int, id: string, key: string, createdAt: int,
          expiresAt: int)
  {
    && Inv(s) && key !in s.commands && createdAt < expiresAt && V2Eval.Decide(x, now, id).verdict == CanAccept
    && IsSynthetic(V2Eval.Decide(x, now, id)) && x.snapshot.Some? && x.snapshot.value.id.Some?
    && V2Eval.HeldUnits(x) == Some(Total(LiveUnlisted(s.rows, x.snapshot.value.id.value, RefSet(V2Eval.WipRefs(x)))))
  }

  lemma V2AdmitsEffortIff(x: V2Eval.Inputs, now: int, units: nat)
    requires V2Laws.Admits(x, now)
    ensures V2Laws.Admits(V2WithEffort(x, units), now) <==>
            && 0 < units
            && ActiveUnits(x.workOrders.value.rows) + V2Eval.HeldSum(x.allocations.value.rows) + units
               <= Min(V2Eval.PolicyUnits(x).value, V2Eval.StaffedUnits(x).value)
  {
  }

  lemma V2WithEffortIs(x: V2Eval.Inputs, now: int, id: string, units: nat)
    requires V2Laws.Admits(x, now) && V2Laws.Admits(V2WithEffort(x, units), now)
    ensures V2Eval.Decide(V2WithEffort(x, units), now, id) == V2Eval.Decide(x, now, id).(requested := Some(units))
  {
    V2Laws.NothingRaisedIff(x, now);
    V2Laws.NothingRaisedIff(V2WithEffort(x, units), now);
  }

  ghost function V2LiveAfter(s: LedgerState, x: V2Eval.Inputs, now: int, id: string, key: string, createdAt: int,
          expiresAt: int, units: nat): nat
    requires x.readiness.Some? && x.snapshot.Some? && x.snapshot.value.id.Some?
  {
    Total(Live(Step(s, Do(key, V2Hold(V2WithEffort(x, units), now, id, createdAt, expiresAt))).0.rows,
        x.snapshot.value.id.value))
  }

  /** The decision carries the numbers that the inputs yield. */
  ghost predicate Carries(d: Decision, x: V2Eval.Inputs) {
    && V2Eval.SnapshotRead(x) && d.V2? && d.snapshotId == x.snapshot.value.id && d.workOrderRefs == V2Eval.WipRefs(x)
    && d.policy == V2Eval.PolicyUnits(x) && d.staffed == V2Eval.StaffedUnits(x) && d.wip == V2Eval.WipUnits(x)
    && d.held == V2Eval.HeldUnits(x) && d.reconciliation == V2Eval.DisputedUnits(x)
    && d.available == V2Eval.AvailableUnits(x)
  }

  lemma V2Carries(x: V2Eval.Inputs, now: int, id: string)
    requires V2Eval.SnapshotRead(x)
    ensures Carries(V2Eval.Decide(x, now, id), x)
  {
  }

  /** The numbers the ledger reads off an acceptance. */
  ghost predicate Sums(d: Decision, x: V2Eval.Inputs) {
    && Carries(d, x) && NonNegative(d.policy) && NonNegative(d.staffed) && NonNegative(d.held)
    && x.workOrders.Some? && d.wip == Some(ActiveUnits(x.workOrders.value.rows))
    && Ceiling(d) == Some(Min(d.policy.value, d.staffed.value)) && Reserved(d) == d.held
    && LimitAfterWip(d) == Some(Ceiling(d).value - d.wip.value) && d.held.value < LimitAfterWip(d).value
    && d.available == Some(LimitAfterWip(d).value - d.held.value)
  }

  lemma AdmittedSums(x: V2Eval.Inputs, now: int, d: Decision)
    requires V2Laws.Admits(x, now) && Carries(d, x)
    ensures Sums(d, x)
  {
    V2AdmittedNumbers(x, now);
    DerivedNumbers(d);
  }

  /** What a v2 acceptance publishes. */
  lemma V2Numbers(x: V2Eval.Inputs, now: int, id: string)
    requires V2Eval.SnapshotRead(x) && V2Laws.Admits(x, now)
    ensures Sums(V2Eval.Decide(x, now, id), x)
  {
    V2Carries(x, now, id);
    AdmittedSums(x, now, V2Eval.Decide(x, now, id));
  }

  /** What the ledger derives from the numbers of a v2 decision that disputes nothing and leaves room. */
  lemma DerivedNumbers(d: Decision)
    requires d.V2? && NonNegative(d.policy) && NonNegative(d.staffed) && NonNegative(d.wip) && NonNegative(d.held)
    requires d.reconciliation == Some(0) && d.wip.value + d.held.value < Min(d.policy.value, d.staffed.value)
    requires d.available == V2Eval.Available(d.policy, d.staffed, d.wip, d.held, d.reconciliation)
    ensures Ceiling(d) == Some(Min(d.policy.value, d.staffed.value)) && Reserved(d) == d.held
    ensures LimitAfterWip(d) == Some(Ceiling(d).value - d.wip.value)
    ensures d.available == Some(LimitAfterWip(d).value - d.held.value)
  {
  }

  lemma V2AdmittedNumbers(x: V2Eval.Inputs, now: int)
    requires V2Laws.Admits(x, now)
    ensures V2Eval.SnapshotRead(x) && NonNegative(V2Eval.PolicyUnits(x)) && NonNegative(V2Eval.StaffedUnits(x))
    ensures V2Eval.WipUnits(x) == Some(ActiveUnits(x.workOrders.value.rows))
    ensures V2Eval.HeldUnits(x) == Some(V2Eval.HeldSum(x.allocations.value.rows)) && V2Eval.DisputedUnits(x) == Some(0)
    ensures V2Eval.WipUnits(x).value + V2Eval.HeldUnits(x).value
            < Min(V2Eval.PolicyUnits(x).value, V2Eval.StaffedUnits(x).value)
  {
    V2Laws.AdmittedNumbers(x, now);
  }

  lemma V2HoldPasses(x: V2Eval.Inputs, now: int, id: string, createdAt: int, expiresAt: int)
    requires V2Eval.Decide(x, now, id).verdict == CanAccept && IsSynthetic(V2Eval.Decide(x, now, id))
    requires createdAt < expiresAt
    ensures Precheck(V2Hold(x, now, id, createdAt, expiresAt)) == None
  {
    V2Basis(x, now, id);
  }

  lemma V2LiveIsAsked(s: LedgerState, x: V2Eval.Inputs, now: int, id: string, key: string, createdAt: int,
          expiresAt: int, units: nat)
    requires V2Ready(s, x, now, id, key, createdAt, expiresAt)
    ensures x.readiness.Some? && Precheck(V2Hold(x, now, id, createdAt, expiresAt)) == None
    ensures V2LiveAfter(s, x, now, id, key, createdAt, expiresAt, units) ==
            LiveAsked(s, key, V2Hold(x, now, id, createdAt, expiresAt), units)
  {
    var c := V2Hold(x, now, id, createdAt, expiresAt);
    V2Laws.CanAcceptIff(x, now, id);
    V2Numbers(x, now, id);
    V2AdmitsEffortIff(x, now, units);
    V2Laws.CanAcceptIff(V2WithEffort(x, units), now, id);
    V2HoldPasses(x, now, id, createdAt, expiresAt);
    var again := V2Hold(V2WithEffort(x, units), now, id, createdAt, expiresAt);
    if again.decision.verdict == CanAccept {
      V2WithEffortIs(x, now, id, units);
      assert again == Asking(c, units);
    } else {
      RefusedChangesNothing(s, key, again);
      AskedOutcome(s, key, c, units);
    }
  }

  /** The same exact bound for v2, under the lower of its two ceilings. */
  lemma V2BoundIff(s: LedgerState, x: V2Eval.Inputs, now: int, id: string, key: string, createdAt: int, expiresAt: int,
          bound: nat)
    requires V2Ready(s, x, now, id, key, createdAt, expiresAt)
    ensures V2Laws.Admits(x, now)
    ensures (forall units: nat :: V2LiveAfter(s, x, now, id, key, createdAt, expiresAt, units) <= bound) <==>
            Total(LiveListed(s.rows, x.snapshot.value.id.value, RefSet(V2Eval.WipRefs(x))))
            + Min(V2Eval.PolicyUnits(x).value, V2Eval.StaffedUnits(x).value) - ActiveUnits(x.workOrders.value.rows)
            <= bound
  {
    var c := V2Hold(x, now, id, createdAt, expiresAt);
    V2Laws.CanAcceptIff(x, now, id);
    V2Numbers(x, now, id);
    V2HoldPasses(x, now, id, createdAt, expiresAt);
    ReservedBoundIff(s, key, c, bound);
    forall units: nat
      ensures V2LiveAfter(s, x, now, id, key, createdAt, expiresAt, units) ==
              LiveAsked(s, key, c, units)
    {
      V2LiveIsAsked(s, x, now, id, key, createdAt, expiresAt, units);
    }
  }

  /** v2 never passes the lower of its two ceilings exactly when the active estimates cover the commitments. */
  lemma V2CoverIsNecessary(s: LedgerState, x: V2Eval.Inputs, now: int, id: string, key: string, createdAt: int,
          expiresAt: int)
    requires V2Ready(s, x, now, id, key, createdAt, expiresAt)
    ensures V2Laws.Admits(x, now)
    ensures var ceiling := Min(V2Eval.PolicyUnits(x).value, V2Eval.StaffedUnits(x).value);
            (forall units: nat :: V2LiveAfter(s, x, now, id, key, createdAt, expiresAt, units) <= ceiling) <==>
            Total(LiveListed(s.rows, x.snapshot.value.id.value, RefSet(V2Eval.WipRefs(x))))
            <= ActiveUnits(x.workOrders.value.rows)
  {
    V2Laws.CanAcceptIff(x, now, id);
    V2Numbers(x, now, id);
    V2BoundIff(s, x, now, id, key, createdAt, expiresAt,
        Min(V2Eval.PolicyUnits(x).value, V2Eval.StaffedUnits(x).value));
  }

  // ---- Beyond the bound: three runs --------------------------------------------------------------

  const READY_PROFILE := V2Laws.ONE_UNIT_INPUTS.readiness.value

  /** What v1 is given: a snapshot with so many staffed units, an effort, work orders, and what the ledger reserves. */
  function Evidence(snapshotId: string, staffed: nat, effort: nat, rows: seq<WorkOrder>, reserved: nat): V1Eval.Inputs {
    V1Eval.Inputs(
      V1Eval.Request("corr", "deliverable", "1", Some("calendar"), Day(2)),
      Some(READY_PROFILE.(effort := Some(effort))),
      Some(V1Eval.Snapshot(true, true, true, snapshotId, Some(staffed), Some(0),
          Some(9 * V2Eval.MICROSECONDS_PER_SECOND),
                           Some(V1Eval.PinnedCalendar("calendar", Day(1), Day(2), V2Laws.EVERY_DAY)))),
      Some(rows), Some(reserved))
  }

  function AcceptanceOf(id: string, snapshotId: string, staffed: nat, wip: nat, refs: seq<string>, reserved: nat,
          effort: nat): Decision
  {
    V1(id, CanAccept, [], true, Some("corr"), Some(snapshotId), Some(staffed), Some(wip), refs, Some(reserved),
        Some(effort),
       Some(staffed - wip - reserved), Some(staffed - wip), Some(2))
  }

  lemma EvidencePasses(snapshotId: string, staffed: nat, effort: nat, rows: seq<WorkOrder>, reserved: nat, now: int)
    requires 0 < effort && 0 <= now < 100
    ensures var x := Evidence(snapshotId, staffed, effort, rows, reserved);
            && V1Eval.FirstGuard(x, now) == None && V1Eval.CalendarGuard(x, now) == None
            && DueDay(V2Laws.EVERY_DAY, DayOf(now), 1) == 2
  {
    V2Laws.NextDayIsDue();
    assert DayOf(now) == 1;
  }

  lemma EvidenceIsAccepted(snapshotId: string, staffed: nat, effort: nat, rows: seq<WorkOrder>, reserved: nat, now: int,
          id: string)
    requires Sound(rows) && 0 < effort && ActiveUnits(rows) + reserved + effort <= staffed && 0 <= now < 100
    ensures V1Eval.Decide(Evidence(snapshotId, staffed, effort, rows, reserved), now, id) ==
            AcceptanceOf(id, snapshotId, staffed, ActiveUnits(rows), ActiveRefs(rows), reserved, effort)
  {
    EvidencePasses(snapshotId, staffed, effort, rows, reserved, now);
  }

  /** v1 accepts work on a snapshot without a name, and the ledger refuses to hold it. */
  lemma UnnamedSnapshotIsAccepted(s: LedgerState, key: string, id: string)
    ensures var x := Evidence("", 1, 1, [], 0);
            && V1Eval.Decide(x, 0, id).verdict == CanAccept && !HasBasis(V1Eval.Decide(x, 0, id))
            && Step(s, Do(key, V1Hold(x, 0, id, 0, 10))) == (s, Failed(LacksCapacityBasis))
  {
    EvidenceIsAccepted("", 1, 1, [], 0, 0, id);
  }

  /** A hold of some units on a fresh ledger. */
  lemma HoldOnEmpty(key: string, c: Command)
    requires c.HoldCommand? && Precheck(c) == None
    ensures Grants(EMPTY, Do(key, c))
    ensures var row := NewRow(key, c);
            Step(EMPTY, Do(key, c)).0 == LedgerState(map[row.holdId := row], map[key := Record(c, row)])
  {
    var d := c.decision;
    assert LiveUnlisted(EMPTY.rows, d.snapshotId.value, ActiveIds(d)) == map[];
  }

  /** A hold that fits is granted and adds its units. */
  lemma HoldThatFits(s: LedgerState, key: string, c: Command)
    requires Inv(s) && key !in s.commands && c.HoldCommand? && Precheck(c) == None
    requires var d := c.decision;
            Total(LiveUnlisted(s.rows, d.snapshotId.value, ActiveIds(d))) + d.requested.value <= LimitAfterWip(d).value
    ensures Grants(s, Do(key, c))
    ensures Total(Live(Step(s, Do(key, c)).0.rows, c.decision.snapshotId.value)) ==
            Total(Live(s.rows, c.decision.snapshotId.value)) + c.decision.requested.value
  {
    FreshKeyHasNoRow(s, key);
    GrantAddsEffort(s, Do(key, c), c.decision.snapshotId.value);
  }

  /** What one row occupies and reserves. */
  lemma OneRow(r: Row, active: set<string>)
    requires Occupies(r.state)
    ensures var rows := map[r.holdId := r];
            && Total(Live(rows, r.holdId.snapshotId)) == r.effort
            && Total(LiveUnlisted(rows, r.holdId.snapshotId, active)) == Reserves(r, active)
  {
    var rows := map[r.holdId := r];
    TotalInsert(map[], r.holdId, r.effort);
    assert map[][r.holdId := r.effort] == Live(rows, r.holdId.snapshotId);
    if Unlisted(r, active) {
      assert LiveUnlisted(rows, r.holdId.snapshotId, active) == Live(rows, r.holdId.snapshotId);
    } else {
      assert LiveUnlisted(rows, r.holdId.snapshotId, active) == map[];
    }
  }

  lemma AcceptancePasses(id: string, snapshotId: string, staffed: nat, wip: nat, refs: seq<string>, reserved: nat,
          effort: nat, createdAt: int, expiresAt: int)
    requires snapshotId != "" && 0 < effort && wip + reserved + effort <= staffed && createdAt < expiresAt
    ensures Precheck(HoldCommand(AcceptanceOf(id, snapshotId, staffed, wip, refs, reserved, effort), "corr", createdAt,
            expiresAt)) == None
  {
  }

  /** v1, evaluated over what the ledger reserves, accepts whatever it still sees room for, and the ledger holds it. */
  lemma V1TakesRoom(s: LedgerState, snapshotId: string, staffed: nat, effort: nat, rows: seq<WorkOrder>, now: int,
          id: string, key: string, expiresAt: int)
    requires Inv(s) && key !in s.commands && Sound(rows) && 0 < effort && snapshotId != "" && 0 <= now < 100
    requires now < expiresAt
    requires ActiveUnits(rows) + Total(LiveUnlisted(s.rows, snapshotId, RefSet(ActiveRefs(rows)))) + effort <= staffed
    ensures var reserved := Total(LiveUnlisted(s.rows, snapshotId, RefSet(ActiveRefs(rows))));
            var c := V1Hold(Evidence(snapshotId, staffed, effort, rows, reserved), now, id, now, expiresAt);
            && c.decision.verdict == CanAccept && Grants(s, Do(key, c))
            && Total(Live(Step(s, Do(key, c)).0.rows, snapshotId)) == Total(Live(s.rows, snapshotId)) + effort
  {
    var reserved, wip := Total(LiveUnlisted(s.rows, snapshotId, RefSet(ActiveRefs(rows)))), ActiveUnits(rows);
    var d := AcceptanceOf(id, snapshotId, staffed, wip, ActiveRefs(rows), reserved, effort);
    EvidenceIsAccepted(snapshotId, staffed, effort, rows, reserved, now, id);
    AcceptancePasses(id, snapshotId, staffed, wip, ActiveRefs(rows), reserved, effort, now, expiresAt);
    HoldThatFits(s, key, HoldCommand(d, "corr", now, expiresAt));
  }

  lemma RunTwo(a: Op, b: Op)
    ensures Run(EMPTY, [a, b]) == Step(Step(EMPTY, a).0, b).0
  {
    assert [a, b][1..] == [b] && [b][1..] == [];
    assert Run(Step(EMPTY, a).0, [b]) == Run(Step(Step(EMPTY, a).0, b).0, []);
  }

  const UNDERESTIMATED := WorkOrder(Some("wo"), Some(InProgress), Some(1))

  ghost function TwoUnits(id: string): Op {
    Do("k1", V1Hold(Evidence("snap", 3, 2, [], 0), 0, id, 0, 10))
  }

  const TO_WORK_ORDER := Do("k2", CommitCommand(HoldId("snap", "k1", "corr"), "wo", 5))

  ghost function TwoMore(id: string): Op {
    Do("k3", V1Hold(Evidence("snap", 3, 2, [UNDERESTIMATED], 0), 6, id, 6, 20))
  }

  const TWO_HELD := Row(HoldId("snap", "k1", "corr"), 2, Held, 0, 10, None, None, None, None)
  const TWO_COMMITTED := TWO_HELD.(state := Committed, committedAt := Some(5), workOrderId := Some("wo"))

  lemma TwoUnitsHeld(id: string)
    ensures var t := Step(EMPTY, TwoUnits(id)).0;
            t.rows == map[TWO_HELD.holdId := TWO_HELD] && t.commands.Keys == {"k1"}
  {
    EvidenceIsAccepted("snap", 3, 2, [], 0, 0, id);
    AcceptancePasses(id, "snap", 3, 0, [], 0, 2, 0, 10);
    HoldOnEmpty("k1", HoldCommand(AcceptanceOf(id, "snap", 3, 0, [], 0, 2), "corr", 0, 10));
  }

  lemma CommitTwo(t: LedgerState)
    requires t.rows == map[TWO_HELD.holdId := TWO_HELD]
    requires t.commands.Keys == {"k1"}
    ensures var s := Step(t, TO_WORK_ORDER).0;
            s.rows == map[TWO_COMMITTED.holdId := TWO_COMMITTED] && s.commands.Keys == {"k1", "k2"}
  {
  }

  lemma TwoUnitsCommitted(id: string)
    ensures var s := Run(EMPTY, [TwoUnits(id), TO_WORK_ORDER]);
            Inv(s) && s.rows == map[TWO_COMMITTED.holdId := TWO_COMMITTED] && s.commands.Keys == {"k1", "k2"}
  {
    TwoUnitsHeld(id);
    CommitTwo(Step(EMPTY, TwoUnits(id)).0);
    RunTwo(TwoUnits(id), TO_WORK_ORDER);
    EmptyIsValid();
    RunKeepsInv(EMPTY, [TwoUnits(id), TO_WORK_ORDER]);
  }

  lemma OneUnitInProgress()
    ensures Sound([UNDERESTIMATED]) && ActiveUnits([UNDERESTIMATED]) == 1
    ensures RefSet(ActiveRefs([UNDERESTIMATED])) == {"wo"}
  {
    assert Init([UNDERESTIMATED]) == [] && Last([UNDERESTIMATED]) == UNDERESTIMATED;
    RefSetAdd([], "wo");
    assert [] + ["wo"] == ["wo"] && RefSet([]) == {};
  }

  /** The active work order is listed, so nothing else is reserved; it counts one unit, so two more seem to be free. */
  lemma TwoMoreAreTaken(s: LedgerState, id: string)
    requires Inv(s) && s.rows == map[TWO_COMMITTED.holdId := TWO_COMMITTED] && "k3" !in s.commands
    ensures var x := Evidence("snap", 3, 2, [UNDERESTIMATED], 0);
            && x.reserved == Some(V1Reserves(s.rows, x)) && V1Eval.Decide(x, 6, id).verdict == CanAccept
            && Grants(s, TwoMore(id)) && Total(Live(Step(s, TwoMore(id)).0.rows, "snap")) == 4
  {
    OneUnitInProgress();
    OneRow(TWO_COMMITTED, {"wo"});
    V1TakesRoom(s, "snap", 3, 2, [UNDERESTIMATED], 6, id, "k3", 20);
  }

  /** Three staffed units: two are held and committed to a work order that is then estimated at one. v1, over exactly
      what the ledger reserves, accepts two more, and the ledger holds them: four out of three. */
  lemma UnderstatedWipOversubscribes(first: string, id: string)
    ensures var s, x := Run(EMPTY, [TwoUnits(first), TO_WORK_ORDER]), Evidence("snap", 3, 2, [UNDERESTIMATED], 0);
            && x.reserved == Some(V1Reserves(s.rows, x)) && V1Eval.Decide(x, 6, id).verdict == CanAccept
            && Grants(s, TwoMore(id)) && Total(Live(Step(s, TwoMore(id)).0.rows, "snap")) == 4
  {
    TwoUnitsCommitted(first);
    TwoMoreAreTaken(Run(EMPTY, [TwoUnits(first), TO_WORK_ORDER]), id);
  }

  ghost function SawOneReserved(id: string, expiresAt: int): Command {
    V1Hold(Evidence("snap", 3, 1, [UNDERESTIMATED], 1), 6, id, 6, expiresAt)
  }

  lemma SawOneReservedIs(id: string, expiresAt: int)
    requires 6 < expiresAt
    ensures var c := SawOneReserved(id, expiresAt);
            && Precheck(c) == None && c.decision.snapshotId == Some("snap") && ActiveIds(c.decision) == {"wo"}
            && LimitAfterWip(c.decision) == Some(2) && c.decision.wip == Some(1) && c.decision.available == Some(1)
  {
    OneUnitInProgress();
    EvidenceIsAccepted("snap", 3, 1, [UNDERESTIMATED], 1, 6, id);
    AcceptancePasses(id, "snap", 3, 1, ActiveRefs([UNDERESTIMATED]), 1, 1, 6, expiresAt);
  }

  lemma TwoAreLive()
    ensures var rows := map[TWO_COMMITTED.holdId := TWO_COMMITTED];
            && Total(Live(rows, "snap")) == Total(LiveListed(rows, "snap", {"wo"})) == 2
            && Total(LiveUnlisted(rows, "snap", {"wo"})) == 0
  {
    OneRow(TWO_COMMITTED, {"wo"});
    LiveSplits(map[TWO_COMMITTED.holdId := TWO_COMMITTED], "snap", {"wo"});
  }

  lemma OneMoreFits(s: LedgerState, key: string, c: Command)
    requires Inv(s) && s.rows == map[TWO_COMMITTED.holdId := TWO_COMMITTED] && key !in s.commands
    requires c.HoldCommand? && Precheck(c) == None && c.decision.snapshotId == Some("snap")
    requires ActiveIds(c.decision) == {"wo"} && LimitAfterWip(c.decision) == Some(2)
    requires c.decision.wip == Some(1) && c.decision.available == Some(1)
    ensures !WipCovers(s.rows, c.decision) && forall units: nat :: LiveAsked(s, key, c, units) <= 3
  {
    TwoAreLive();
    EvidenceBoundIff(s, key, c, 3);
  }

  /** A decision can outlive what it saw reserved. Taken when one unit more was held, and asked after that was freed,
      its evidence stays within the staffed units although its WIP does not cover: cover is not necessary then. */
  lemma StaleReserveStaysWithin(s: LedgerState, key: string, id: string, expiresAt: int)
    requires Inv(s) && s.rows == map[TWO_COMMITTED.holdId := TWO_COMMITTED] && key !in s.commands && 6 < expiresAt
    ensures var c := SawOneReserved(id, expiresAt);
            && Precheck(c) == None && !WipCovers(s.rows, c.decision)
            && forall units: nat :: LiveAsked(s, key, c, units) <= 3
  {
    SawOneReservedIs(id, expiresAt);
    OneMoreFits(s, key, SawOneReserved(id, expiresAt));
  }

  /** One unit under the policy ceiling, two staffed: the v2 evaluator that knows the policy. */
  const POLICY_OF_ONE :=
    V2Laws.ONE_UNIT_INPUTS.(snapshot := Some(V2Laws.ONE_UNIT_INPUTS.snapshot.value.(staffed := Some(2))))

  lemma PolicyOfOneAccepts(id: string)
    ensures V2Eval.Decide(POLICY_OF_ONE, 0, id).verdict == CanAccept
  {
    V2Laws.AcceptanceIsPossible();
    V2Laws.CanAcceptIff(V2Laws.ONE_UNIT_INPUTS, 0, "cadm");
    V2Laws.AdmitsSurvivesEasing(V2Laws.ONE_UNIT_INPUTS, POLICY_OF_ONE, 0);
    V2Laws.CanAcceptIff(POLICY_OF_ONE, 0, id);
  }

  ghost function UnderPolicy(id: string): Op {
    Do("k1", V2Hold(POLICY_OF_ONE, 0, id, 0, 10))
  }

  ghost function PastPolicy(id: string): Op {
    Do("k2", V1Hold(Evidence("snapshot", 2, 1, [], 1), 1, id, 1, 10))
  }

  const ONE_HELD := Row(HoldId("snapshot", "k1", "corr"), 1, Held, 0, 10, None, None, None, None)

  lemma UnderPolicyPasses(c: Command, id: string)
    requires c == UnderPolicy(id).command
    ensures c.HoldCommand? && Precheck(c) == None && NewRow("k1", c) == ONE_HELD && Ceiling(c.decision) == Some(1)
  {
    PolicyOfOneAccepts(id);
    V2Laws.CanAcceptIff(POLICY_OF_ONE, 0, id);
    V2Numbers(POLICY_OF_ONE, 0, id);
    V2HoldPasses(POLICY_OF_ONE, 0, id, 0, 10);
  }

  /** One unit is held, and nothing else has happened. */
  ghost predicate HoldsOne(s: LedgerState) {
    Inv(s) && s.commands.Keys == {"k1"} && s.rows == map[ONE_HELD.holdId := ONE_HELD]
  }

  /** v1, over what the ledger reserves, accepts one more of two staffed units, and the ledger holds it: two in all. */
  ghost predicate TakesSecond(s: LedgerState, id: string) {
    var x := Evidence("snapshot", 2, 1, [], 1);
    && x.reserved == Some(V1Reserves(s.rows, x)) && V1Eval.Decide(x, 1, id).verdict == CanAccept
    && Grants(s, PastPolicy(id)) && Total(Live(Step(s, PastPolicy(id)).0.rows, "snapshot")) == 2
  }

  lemma UnderPolicyHeld(s: LedgerState, id: string)
    requires s == Step(EMPTY, UnderPolicy(id)).0
    ensures Grants(EMPTY, UnderPolicy(id)) && Ceiling(UnderPolicy(id).command.decision) == Some(1) && HoldsOne(s)
  {
    UnderPolicyPasses(UnderPolicy(id).command, id);
    HoldOnEmpty("k1", UnderPolicy(id).command);
    EmptyIsValid();
    StepKeepsInv(EMPTY, UnderPolicy(id));
  }

  lemma OneMoreIsTaken(s: LedgerState, id: string)
    requires HoldsOne(s)
    ensures TakesSecond(s, id)
  {
    OneRow(ONE_HELD, {});
    assert RefSet(ActiveRefs([])) == {};
    V1TakesRoom(s, "snapshot", 2, 1, [], 1, id, "k2", 10);
  }

  /** After a v2 hold has filled the policy ceiling of one, v1, which does not know the policy, takes a second unit. */
  lemma V1PassesPolicyCeiling(s: LedgerState, first: string, id: string)
    requires s == Step(EMPTY, UnderPolicy(first)).0
    ensures Grants(EMPTY, UnderPolicy(first)) && Ceiling(UnderPolicy(first).command.decision) == Some(1)
    ensures TakesSecond(s, id)
  {
    UnderPolicyHeld(s, first);
    OneMoreIsTaken(s, id);
  }
}
