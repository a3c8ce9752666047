/** The admission decisions that the two evaluators produce and the capacity ledger consumes. */
module Decisions {
  import opened Prelude

  datatype Verdict = CanAccept | CannotAccept | Unknown

  datatype EvidenceClass = Absent | Synthetic | Real

  datatype AllocationState = Held | Committed | Released | Expired | Reconciling

  datatype Code =
    | AdmissionGatesSatisfied
    | CapacityRequestInvalid
    | PolicyCeilingUnknown
    | StaffedCapacityUnknown
    | CapacitySnapshotInvalid
    | CapacitySnapshotFromFuture
    | CapacitySnapshotStale
    | CapacityFreshnessUnknown
    | CapacityAllocationsUnknown
    | ActiveWipUnknown
    | WorkingCalendarUnknown
    | WorkingCalendarInvalid
    | WorkingCalendarOutOfRange
    | CalendarVersionDiverged
    | DeadlineOrCalendarUnknown
    | ReadinessUnknown
    | ReadinessNotReady
    | ReadinessEvidenceInvalid
    | ReadinessFromFuture
    | ReadinessStale
    | DeliverableBindingDiverged
    | EstimatedEffortUnknown
    | WorkOrderSnapshotUnknown
    | WorkOrderSnapshotInvalid
    | WorkOrderSnapshotStale
    | WorkOrderInventoryIncomplete
    | ActiveWipInvalid
    | ActiveWipEffortUnknown
    | AllocationSnapshotUnknown
    | AllocationSnapshotInvalid
    | AllocationSnapshotStale
    | AllocationInventoryIncomplete
    | ReconciliationRequired
    | RequestedDeadlineUnknown
    | RequestedDeadlineInfeasible
    | InsufficientStaffedCapacity
    | PolicyCeilingReached

  /** A field that the decision document lacks, or holds with another type, is None. */
  datatype Decision =
    | V1(decisionId: string, verdict: Verdict, reasons: seq<Code>, synthetic: bool,
         correlation: Option<string>, snapshotId: Option<string>,
         staffed: Option<int>, wip: Option<int>, workOrderRefs: seq<string>, reserved: Option<int>,
         requested: Option<int>, available: Option<int>, limitAfterWip: Option<int>, earliestDue: Option<int>)
    | V2(decisionId: string, verdict: Verdict, reasons: seq<Code>, evidence: EvidenceClass,
         correlation: Option<string>, snapshotId: Option<string>,
         policy: Option<int>, staffed: Option<int>, wip: Option<int>, workOrderRefs: seq<string>,
         held: Option<int>, reconciliation: Option<int>,
         requested: Option<int>, available: Option<int>, earliestDue: Option<int>, expiresAt: Option<int>)

  function RefSet(refs: seq<string>): set<string> {
    set i | 0 <= i < |refs| :: refs[i]
  }

  lemma RefSetAdd(refs: seq<string>, ref: string)
    ensures RefSet(refs + [ref]) == RefSet(refs) + {ref}
  {
    var next := refs + [ref];
    assert next[|refs|] == ref;
    assert forall i :: 0 <= i < |refs| ==> next[i] == refs[i];
  }

  predicate NonNegative(n: Option<int>) {
    n.Some? && n.value >= 0
  }

  /** Only synthetic evidence may reach the model-only ledger. */
  predicate IsSynthetic(d: Decision) {
    match d
    case V1(_, _, _, synthetic, _, _, _, _, _, _, _, _, _, _) => synthetic
    case V2(_, _, _, evidence, _, _, _, _, _, _, _, _, _, _, _, _) => evidence == Synthetic
  }

  /** The ceiling the decision was taken under: the staffed units, and in v2 the policy ceiling when lower. */
  function Ceiling(d: Decision): Option<int> {
    match d
    case V1(_, _, _, _, _, _, staffed, _, _, _, _, _, _, _) =>
      if NonNegative(staffed) then staffed else None
    case V2(_, _, _, _, _, _, policy, staffed, _, _, _, _, _, _, _, _) =>
      if NonNegative(policy) && NonNegative(staffed) then Some(Min(policy.value, staffed.value)) else None
  }

  /** Units reserved by holds, commitments not yet visible as work orders and ambiguous rows. */
  function Reserved(d: Decision): Option<int> {
    match d
    case V1(_, _, _, _, _, _, _, _, _, reserved, _, _, _, _) => reserved
    case V2(_, _, _, _, _, _, _, _, _, _, held, reconciliation, _, _, _, _) =>
      if NonNegative(held) && NonNegative(reconciliation) then Some(held.value + reconciliation.value) else None
  }

  /** The units left after work in progress: v1 states them, v2 leaves them to be derived. */
  function LimitAfterWip(d: Decision): Option<int> {
    match d
    case V1(_, _, _, _, _, _, _, _, _, _, _, _, limit, _) => limit
    case V2(_, _, _, _, _, _, _, _, wip, _, _, _, _, _, _, _) =>
      if Ceiling(d).Some? && NonNegative(wip) then Some(Max(0, Ceiling(d).value - wip.value)) else None
  }
}
