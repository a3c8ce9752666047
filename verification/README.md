# Admission, ledger and reconciliation: a verified model

A Dafny 4.11 model of the policy engines of this repository that keep state or do real arithmetic, with proofs of what they
guarantee over every input and every run. `dafny verify dfyconfig.toml` checks all of it.

Every behaviour has two forms where the source changes things step by step: a specification (a function from the old state and
the inputs to the new state and the answer), and an imperative method or class proved equal to it. The laws are proved about
the specification, so they hold of every object that the methods can produce. What each operation answers is stated a second
time over the fields and rows of its inputs, without the specification's own branches: each verdict, reason, error and number
exactly when the inputs call for it.

| file | what it models |
|---|---|
| `BusinessDays.dfy` | the pinned working calendar and the business-day loop |
| `WorkOrders.dfy`, `Readiness.dfy` | the work-order rows and the readiness verdict that feed admission |
| `AdmissionV1.dfy`, `AdmissionV2.dfy` | the two admission evaluators, as loops and as the decision they compute |
| `AdmissionV1Laws.dfy` | what v1 answers: verdict, reasons and numbers |
| `AdmissionLaws.dfy` | when v2 accepts, over time and over changes of load |
| `AdmissionReasons.dfy` | every reason and number that v2 publishes, in terms of its inputs |
| `Ledger.dfy`, `LedgerLaws.dfy` | the hold lifecycle as a state machine, and its laws over all runs |
| `LedgerOutcomes.dfy` | what each command answers, and exactly what it leaves behind |
| `CapacityLedger.dfy` | the ledger object, one method for each atomic command |
| `CanaryGate.dfy` | evaluators and ledger together |
| `CapacityBounds.dfy` | the exact bound that a decision's evidence guarantees, v2 over the ledger's own rows, and runs beyond the bound |
| `Reconciler.dfy`, `Confluence.dfy` | the payment reducer, its rebuild, and what any order of deliveries ends in |
| `PaymentRaces.dfy` | exactly which collections of payment events the order of delivery decides |
| `Retention.dfy`, `RetentionRanks.dfy` | backup pruning, now and repeated; which entries a plan keeps, read off the listing |
| `QualificationWindow.dfy` | Gregorian dates and the rolling three-year window |
| `Commission.dfy` | capped basis-point commission over a run of receipts |
| `PublicIds.dfy` | base-32 ids over a 32-bit accumulator |
| `ClientSlugs.dfy` | the slug normal form and client identity |
| `OutreachBatches.dfy` | the accounts of one batch and reservations across batches |
| `HandraiserStore.dfy` | one logical admission for each idempotency key |
| `Bottleneck.dfy` | funnel stages and the choice of a bottleneck |
| `Prelude.dfy`, `Decisions.dfy` | sums over finite maps; the decision documents |

Conventions. An instant is a number of microseconds and a day is a proleptic Gregorian ordinal. A field that a document lacks, or
holds with a value of another type, is `None`. Checks against fixed text (schema names, units, flags, evidence references) are one
flag each, named `schemaOk`, `wellFormed`, `evidencePinned` and the like. `_stable_id` and every content hash are injective: a hold
id is its snapshot, key and correlation, and the hash of a command is the command.

## What the proofs found

- **Oversubscription needs one assumption, and exactly that one.** The recheck under the ledger's lock trusts the decision's own
  WIP number. When a work order is estimated at less than was committed to it, v1 over exactly what the ledger reserves accepts
  too much and the ledger holds it: four units out of three (`UnderstatedWipOversubscribes`). Cover is enough over whole runs
  (`NeverOversubscribed`, and for decisions of either evaluator `EvaluatorsNeverOversubscribe`). It is also necessary, while
  nothing the decision saw reserved has been freed and there is room left: then every request on the evidence stays under the
  ceiling exactly when the WIP units cover the commitments that the decision lists (`CoverIsNecessary`; `V1CoverIsNecessary` and
  `V2CoverIsNecessary` for evaluations of what the ledger itself reserves). A decision can outlive a release or an expiry, and
  then it can stay under its ceiling without cover (`StaleReserveStaysWithin`); `EvidenceBoundIff` gives the exact bound of every
  decision, however stale.
- **Mixed ceilings.** v1 decides under the staffed units, v2 under the lower of those and the policy ceiling. A snapshot served
  by both stays within the highest ceiling under which a hold was granted (`NeverAboveHighestCeiling`), but v1 can pass the
  policy ceiling that v2 has just filled (`V1PassesPolicyCeiling`). `V1RespectsPolicyIff` says exactly when it cannot: with exact
  estimates, when the policy ceiling is not below the staffed units.
- **v1 accepts an unnamed snapshot; the ledger then refuses it** (`UnnamedSnapshotIsAccepted`). `evaluate_admission` never checks
  that the snapshot id is not empty. `V1BasisIff`: a v1 acceptance passes the ledger's basis check exactly when it is not.
- **Two races, exactly delimited.** Once every event of any collection has been delivered, three passes over what is held end in
  a state that does not depend on the order, unless the collection holds the payment's creation and one of two races
  (`EndIsDeterminedIff`, both directions). A cancellation races with a refund that can be reached, that is one beside a
  confirmation, or beside an overdue notice and a receipt. A confirmation races with an overdue notice when there is neither a
  receipt nor a cancellation: the order of an unpaid payment's two events decides whether the financial gate opens
  (`ConfirmationRacesOverdue`), and a refund that comes after the overdue notice is held for good. Otherwise the state is read
  off the kinds of events (`DeliveriesConverge`), and two passes are enough unless it is refunded. One may not be
  (`OnePassIsNotEnough`); for a whole payment `OnePassReceivesIff` says exactly when it is.
- **Splitting a refunded receipt can pay where the whole pays nothing** (`SplitRefundPaysMore`). The nets of the parts sum to the
  net of the whole exactly when no part refunds more than it charges while another charges more than it refunds (`NetsSumIff`);
  then splitting never pays more. `SplitNeverPaysMoreIff` says for every split exactly when it does not: the floored shares of the
  parts are no more than the share of the whole, or the cap stops both.
- **The duplicate-key check inside one batch can never fire** once the keys and the leads have been checked (`KeysFollowLeads`).
- **The ledger projection is stricter than the evaluators.** It refuses a closed work order without an estimate, which both
  evaluators read past (`CanonicalIff`).
- **An empty window is the future to v1.** A staffed snapshot that expires no later than it was taken is refused as
  CAPACITY_SNAPSHOT_FROM_FUTURE by v1 (`FirstProblemIsPublished`) and as CAPACITY_SNAPSHOT_INVALID by v2 (`ReasonIff`).
- **A `min_abs_delta` of zero reads as two** (`MinAbs`), because zero is falsy.

## Model

| member | source | states |
|---|---|---|
| BusinessDays.AddBusinessDays | delivery/capacity.py:218-229 | The loop ends for every weekday set and holiday list, on the `amount`-th working day after the start, no later than start + 7·(amount + number of holidays); it fails exactly for a non-positive amount or a malformed calendar |
| BusinessDays.WeeksHoldWorkingDays | delivery/capacity.py:201-215 | k weeks hold at least k working days, less one for each distinct holiday in them: the counting argument behind termination |
| BusinessDays.DueUnique | delivery/capacity.py:218-229 | There is only one such day, so the result is determined by the calendar alone |
| BusinessDays.DueIff | delivery/capacity.py:215-229 | A day is due exactly when it is itself of a working weekday and no holiday, and with it just so many such days have passed since the start |
| BusinessDays.ValidIff | delivery/capacity.py:201-214 | A calendar can be used exactly when it names some weekdays from Monday to Sunday, none twice, and its holidays are dates |
| BusinessDays.DueIsLeast | delivery/capacity.py:218-229 | The due day is on or before a day exactly when `amount` working days have passed by then |
| BusinessDays.DueCompose | delivery/capacity.py:218-229 | Adding a and then b business days is adding a + b |
| BusinessDays.DueMonotone | delivery/capacity.py:218-229 | Starting later never finishes earlier |
| BusinessDays.HolidaysOnlyDelay | delivery/capacity.py:201-229 | Extra holidays never make the due day earlier |
| BusinessDays.DayOfIff | delivery/capacity.py:466-466 | An instant belongs to the one day whose midnight has passed and whose next midnight has not |
| BusinessDays.WeekdaysCycle | delivery/capacity.py:215-215 | Day 1 is a Monday and the weekdays follow one another in a cycle of seven |
| BusinessDays.SameWeekdayIff | delivery/capacity.py:215-215 | Two days share a weekday exactly when whole weeks lie between them |
| BusinessDays.DueInWorkingWeek | delivery/capacity.py:201-229 | On a Monday-to-Friday calendar without holidays, from any working day: the amount, and two days more for each weekend passed; so a business day after a Friday is the Monday |
| BusinessDays.DueOverWeekend | delivery/capacity.py:201-229 | From a Saturday or Sunday it is the same as from the Friday before |
| Readiness.ReadinessForAdmission | delivery/readiness.py:148-263 | A profile is ready exactly when its state and evidence are in order and the instant is inside its window; only a known profile that is not ready is a refusal, everything else unknown |
| Readiness.ReadinessCodeIff | delivery/readiness.py:239-263 | Which code each kind of profile gets: unknown, not ready, incomplete evidence, from the future, stale, or ready |
| WorkOrders.SoundIff | delivery/capacity.py:400-438 | The row loop finds no fault exactly when all ids are named and distinct and everything not closed or cancelled has a positive estimate |
| WorkOrders.FirstProblem | delivery/capacity.py:400-438 | The first problem of a list is that of its first bad row: an id that is missing or repeated, or an ongoing row without an estimate |
| WorkOrders.ActiveUnitsIs | delivery/capacity.py:402-438 | WIP is the sum of the estimates of the rows that are neither closed nor cancelled, each id once |
| WorkOrders.ActiveRefsIff | delivery/capacity.py:516-520 | The ids reported as active are those of these rows |
| AdmissionV1.ReadWip | delivery/capacity.py:400-438 | The v1 loop over active work orders stops at the first bad row with its code, and otherwise returns the effort of the active rows |
| AdmissionV1.EvaluateAdmission | delivery/capacity.py:260-531 | The v1 evaluator returns the specified decision, with every number it publishes |
| AdmissionV1.CanAcceptIff | delivery/capacity.py:260-531 | v1 answers CAN_ACCEPT exactly when snapshot and readiness are current, work orders sound, the calendar covers today and the deadline, WIP + reserved + requested fits the staffed units, and the due day meets the deadline |
| AdmissionV1Laws.VerdictIff | delivery/capacity.py:260-531 | v1 answers CANNOT_ACCEPT exactly when the profile says it is not ready, or when none of twenty problems keeps it from deciding and the units do not fit or the due day is past the deadline; CAN_ACCEPT exactly when it can decide and neither is so; UNKNOWN otherwise |
| AdmissionV1Laws.FirstProblemIsPublished | delivery/capacity.py:260-485 | When problems keep v1 from deciding, the code of the first is published, alone and without numbers |
| AdmissionV1Laws.DecidedReasons | delivery/capacity.py:487-497 | Otherwise INSUFFICIENT_STAFFED_CAPACITY is published exactly for a shortage and REQUESTED_DEADLINE_INFEASIBLE exactly for lateness, in this order |
| AdmissionV1Laws.DecidedNumbers | delivery/capacity.py:487-531 | Refusals included, availability is the most units that could still have been asked for, the limit after WIP the most if nothing were reserved, and the due day the working day on which the lead time is over |
| AdmissionV2.NoteAllIsSet | delivery/capacity.py:597-603 | Collecting reasons loses none, invents none and repeats none |
| AdmissionV2.ScanWorkOrders | delivery/capacity.py:846-879 | The v2 work-order loop skips bad rows, notes why, gives up the sum for good at the first unestimated active row, and lists every active id |
| AdmissionV2.ScanAllocations | delivery/capacity.py:912-945 | The allocation loop sums held effort, and disputed effort: ambiguous rows and commitments whose work order is not active |
| AdmissionV2.FindEarliestDue | delivery/capacity.py:947-975 | The earliest feasible day is published exactly when calendar, deadline and effort are all readable and in range |
| AdmissionV2.EvaluateAdmissionV2 | delivery/capacity.py:573-1097 | The v2 evaluator returns the specified decision, with reasons in the order found |
| AdmissionLaws.CanAcceptIff | delivery/capacity.py:573-1005 | v2 answers CAN_ACCEPT exactly when every authority is present, current and consistent, nothing is disputed, the deadline is feasible and the units fit under both ceilings; UNKNOWN exactly when some authority is in doubt |
| AdmissionLaws.AcceptanceIsPossible | delivery/capacity.py:573-1005 | An input that passes every gate: the acceptance laws are about something |
| AdmissionLaws.NothingUnknownIff | delivery/capacity.py:606-970 | No unknown reason is raised exactly when each authority is clear and the calendar covers the dates |
| AdmissionLaws.ShortageIff | delivery/capacity.py:977-995 | With clear authorities, a ceiling code is raised exactly when WIP + held + requested exceeds the lower ceiling |
| AdmissionLaws.ReasonsAreExact | delivery/capacity.py:997-1005 | The published reasons are exactly the problems found, each once; "gates satisfied" appears only when there is none |
| AdmissionReasons.ReasonIff | delivery/capacity.py:573-1005 | For every one of the codes: it is among the published reasons exactly when the inputs raise it, spelled out over their fields and rows; of two ceilings the lower is named in a shortage, and both when they are equal |
| AdmissionReasons.VerdictFollows | delivery/capacity.py:997-1005 | UNKNOWN exactly when some doubt is raised, CANNOT_ACCEPT exactly when none is and some refusal is |
| AdmissionReasons.ReasonsInOrder | delivery/capacity.py:573-1005 | The reasons come in the order of the evaluation, doubts before refusals |
| AdmissionReasons.AuthoritiesArePublished | delivery/capacity.py:606-945 | Whatever the verdict, each number is published exactly when its authority can be read; WIP, held and disputed units are the sums over the rows that count |
| AdmissionReasons.AvailableIsPublished | delivery/capacity.py:977-991 | What is published as available is the most units that still fit under both ceilings, whenever everything needed is known |
| AdmissionReasons.ExpiryIsPublished | delivery/capacity.py:1007-1015 | Whatever the verdict, the decision expires with the first of the authorities that are current, and never when none is |
| AdmissionReasons.BindingIsPublished | delivery/capacity.py:947-1014 | The earliest day is published exactly when it can be computed; evidence is ABSENT, SYNTHETIC or REAL by snapshot and profile |
| AdmissionLaws.AcceptedNumbers | delivery/capacity.py:977-1097 | Every number an acceptance publishes is known, nothing is disputed, and what is available covers what was requested |
| AdmissionLaws.AcceptanceIsUnbroken | delivery/capacity.py:573-1005 | For fixed inputs the accepting instants form one unbroken interval |
| AdmissionLaws.AcceptanceExpires | delivery/capacity.py:1015-1015 | Every acceptance publishes the earliest expiry of its four authorities, and is given strictly before it |
| AdmissionLaws.AcceptanceSurvivesEasing | delivery/capacity.py:573-1005 | An acceptance survives fewer held rows, smaller estimates, higher ceilings and a later deadline within the calendar |
| LedgerLaws.StepKeepsInv | delivery/capacity.py:1332-1345 | Every command and sweep keeps rows well formed, work orders unique and rows linked to their recorded HOLD commands |
| LedgerLaws.RunKeepsInv | delivery/capacity.py:1398-1723 | So does every run, and along it rows only ever advance |
| LedgerLaws.Lifecycle | delivery/capacity.py:1540-1723 | In every reachable ledger created ≤ committed < expires on anything ever committed, expired rows were never committed and end at or after their expiry, and no work order sits on two rows |
| LedgerLaws.RowsOnlyAdvance | delivery/capacity.py:1556-1723 | Whatever runs later, a row changes only by moving forward: released and expired rows are final, an ambiguity is never replaced, a commitment is never rewritten or expired |
| LedgerLaws.RecordsPersist | delivery/capacity.py:1366-1396 | A recorded command keeps its payload and first result for ever |
| LedgerLaws.FailureChangesNothing | delivery/capacity.py:1536-1538 | A command that fails leaves the whole ledger as it was |
| LedgerLaws.ExactlyOnce | delivery/capacity.py:1366-1378 | After anything else has run, the same key and payload get the first answer again, any other command under that key fails, and neither changes the ledger |
| LedgerOutcomes.UsedKeyAnswers | delivery/capacity.py:1366-1378 | Under a key that is taken the command on record gets its first answer and any other is refused as such |
| LedgerOutcomes.HoldAnsweredIff | delivery/capacity.py:1398-1538 | Under a fresh key a hold is granted exactly when the decision accepts on synthetic evidence with a sound basis and this correlation, the hold has a future, and its units fit beside what the ledger reserves |
| LedgerOutcomes.BasisV1Iff | delivery/capacity.py:1446-1477 | The numbers of a v1 decision on which a hold may rest agree with one another and fit the staffed units |
| LedgerOutcomes.BasisV2Iff | delivery/capacity.py:1419-1477 | The same for v2, under both ceilings and with disputed units counted |
| LedgerOutcomes.ReservedRows | delivery/capacity.py:1491-1504 | What counts as reserved: held, ambiguous and committed rows of the snapshot, but for commitments listed as active |
| LedgerOutcomes.HoldLeaves | delivery/capacity.py:1507-1535 | A granted hold is a new HELD row for the units requested, and nothing else changes |
| LedgerOutcomes.HoldFails | delivery/capacity.py:1407-1506 | Which error a refused hold gets: that of the first check that fails |
| LedgerOutcomes.CommitAnsweredIff | delivery/capacity.py:1540-1585 | A commitment is answered exactly inside the window, for a HELD row whose work order no other row has, or again for the work order it has already |
| LedgerOutcomes.CommitLeaves | delivery/capacity.py:1563-1582 | The row is then COMMITTED with the work order and the instant, and nothing else changes |
| LedgerOutcomes.CommitFails | delivery/capacity.py:1556-1573 | Which error a refused commitment gets |
| LedgerOutcomes.ReleaseAnsweredIff | delivery/capacity.py:1587-1629 | Any allocation that has not expired can be released, from its commitment on and for a reason |
| LedgerOutcomes.ReleaseLeaves | delivery/capacity.py:1611-1626 | The row is then RELEASED with the reason and the instant and keeps its commitment; one released before stays as it is |
| LedgerOutcomes.ReleaseFails | delivery/capacity.py:1596-1614 | Which error a refused release gets |
| LedgerOutcomes.DisputeAnsweredIff | delivery/capacity.py:1631-1688 | An allowed ambiguity is taken exactly for a HELD or COMMITTED row, from its commitment on, or again for a row with just this ambiguity |
| LedgerOutcomes.DisputeLeaves | delivery/capacity.py:1669-1685 | The row is then RECONCILIATION_REQUIRED with just this ambiguity as its reason, and nothing else changes |
| LedgerOutcomes.DisputeFails | delivery/capacity.py:1641-1672 | Which error a refused ambiguity gets |
| LedgerOutcomes.SweepLeaves | delivery/capacity.py:1699-1723 | The sweep expires each hold whose time is up, at its own instant and for its own reason, reports just those, and changes nothing else |
| LedgerLaws.HoldsMatchCommands | delivery/capacity.py:1507-1533 | Allocations and recorded HOLD commands correspond one to one |
| LedgerLaws.EffortConserved | delivery/capacity.py:1332-1345 | The effort in the five states together is exactly the effort ever granted |
| LedgerLaws.CommitAndDisputeKeepOccupancy | delivery/capacity.py:1540-1688 | Committing and disputing never change what any snapshot has occupied |
| LedgerLaws.ReleaseFreesEffort | delivery/capacity.py:1587-1629 | Any occupying allocation can be released, and that frees exactly its effort |
| LedgerLaws.SweepFreesElapsed | delivery/capacity.py:1699-1723 | A sweep frees exactly the effort of the elapsed holds and leaves none elapsed |
| LedgerLaws.StepWithinLimits | delivery/capacity.py:1484-1538 | One step of a covered run keeps every snapshot within its limit |
| LedgerLaws.NeverOversubscribed | delivery/capacity.py:1484-1535 | Over every interleaving, held + committed + ambiguous effort never exceeds the snapshot's limit, provided each granted decision was taken under a ceiling within that limit and its WIP covers the committed rows it lists |
| LedgerLaws.NeverAboveHighestCeiling | delivery/capacity.py:1484-1535 | With no limit agreed on, decisions under any mixture of ceilings never take a snapshot beyond the highest ceiling under which one of them was granted |
| LedgerLaws.EvidenceBoundIff | delivery/capacity.py:1484-1506 | Whatever number of units is asked for on a decision's evidence, however stale it is, the snapshot stays within a bound exactly when what it holds by now and the most the evidence can still be asked for fit under it; that most is the available units, as far as they fit beside what the ledger reserves by now |
| LedgerLaws.ReservedBoundIff | delivery/capacity.py:1484-1506 | While nothing the decision saw reserved has been freed and there is room left, that is when the commitments listed and the units left after WIP fit under the bound |
| LedgerLaws.CoverIsNecessary | delivery/capacity.py:1499-1506 | While nothing the decision saw reserved has been freed and there is room left, every request on the evidence stays under the decision's own ceiling exactly when its WIP covers the commitments it lists |
| CapacityLedgerModel.CapacityLedger.ReservedEffortUnits | delivery/capacity.py:1725-1747 | The sum is exactly the occupied effort not listed as an active work order |
| CapacityLedgerModel.CapacityLedger.AcquireHold | delivery/capacity.py:1398-1538 | Takes the ledger exactly to the specified next state and answers as specified; the invariant holds |
| CapacityLedgerModel.CapacityLedger.Commit | delivery/capacity.py:1540-1585 | The same for commit, with its time window, its idempotent case and the unique work order |
| CapacityLedgerModel.CapacityLedger.Release | delivery/capacity.py:1587-1629 | The same for release |
| CapacityLedgerModel.CapacityLedger.MarkReconciliationRequired | delivery/capacity.py:1631-1688 | The same for an ambiguity, which no different one may replace |
| CapacityLedgerModel.CapacityLedger.ReconcileExpired | delivery/capacity.py:1699-1723 | Updating the elapsed holds one by one expires exactly those and touches nothing else |
| CapacityLedgerModel.CapacityLedger.Project | delivery/capacity.py:1749-1810 | Refuses exactly the non-canonical row lists; its available units are staffed less WIP and everything reserved beside it |
| CapacityLedgerModel.CanonicalIff | delivery/capacity.py:1756-1771 | The projection's rows must be sound and estimated even when terminal |
| CapacityLedgerModel.UnlistedSplits | delivery/capacity.py:1783-1800 | Reserved effort is held and ambiguous effort plus unprojected commitments |
| CapacityLedgerModel.ProjectedAvailableIs | delivery/capacity.py:1783-1800 | What the projection shows as available is the most units that the staffed ones still hold beside the active work orders and all that is reserved, never negative |
| CanaryGateModel.V1BasisIff | delivery/capacity.py:1458-1478 | A v1 acceptance passes the ledger's basis check exactly when its snapshot id is not empty |
| CanaryGateModel.V2Basis | delivery/capacity.py:1423-1478 | Every v2 acceptance passes the basis check and covers no disputed effort |
| CanaryGateModel.HoldRefusedOnlyForCapacity | delivery/capacity.py:1484-1506 | With a basis, a fresh key and a live window only capacity can refuse a hold, and exactly when the ledger's reserved effort has outgrown the decision |
| CanaryGateModel.V2HoldSucceeds | delivery/capacity.py:1398-1538 | A synthetic v2 acceptance is held whenever the ledger reserves no more than the allocations that were evaluated |
| CanaryGateModel.AcceptedWorkIsHeld | delivery/capacity.py:1398-1538 | That acceptance is granted a hold by an empty ledger |
| CanaryGateModel.AvailableMatchesProjection | delivery/capacity.py:487-526 | For the same work orders the evaluator's available units are the ledger projection's |
| CanaryGateModel.ListOneMore | delivery/capacity.py:1332-1345 | Because work orders are unique, listing one more lists at most one more committed row |
| CanaryGateModel.WipCoversCommitments | delivery/capacity.py:1499-1504 | When each work order is estimated at no less than was committed to it, the active estimates cover the listed commitments |
| CanaryGateModel.AcceptanceCovers | delivery/capacity.py:487-526 | A v1 acceptance over such work orders is a covering decision for any limit not below the staffed units |
| CanaryGateModel.V2AcceptanceCovers | delivery/capacity.py:977-995 | A v2 acceptance over such work orders is a covering decision for any limit not below the lower of the two ceilings |
| CanaryGateModel.EvaluatorsNeverOversubscribe | delivery/capacity.py:1398-1723 | Any number of evaluators of both versions, deciding at any time and holding in any interleaving, never take a snapshot beyond any limit that is not below their ceilings, while work orders are estimated at no less than what was committed to them |
| CapacityBounds.V1BoundIff | delivery/capacity.py:487-531 | Whatever v1 is asked for on its evidence, the holds it leads to stay within a bound exactly when the listed commitments and the staffed units left after WIP fit under it |
| CapacityBounds.V1CoverIsNecessary | delivery/capacity.py:487-531 | v1 never passes the staffed units exactly when the active estimates cover the commitments they stand for |
| CapacityBounds.V1RespectsPolicyIff | delivery/capacity.py:487-531 | v1 holds respect a policy ceiling exactly when the staffed units exceed it by no more than the estimates exceed the commitments; with exact estimates, when the policy ceiling is not the lower one |
| CapacityBounds.V2BoundIff | delivery/capacity.py:977-995 | The same exact bound for v2, under the lower of its two ceilings |
| CapacityBounds.V2CoverIsNecessary | delivery/capacity.py:977-995 | v2 never passes the lower of its ceilings exactly when the active estimates cover the commitments |
| CapacityBounds.ListingIsReserved | delivery/capacity.py:912-945 | What v2 reads from an allocation snapshot that lists the ledger's rows faithfully, held plus disputed, is exactly what the ledger reserves |
| CapacityBounds.V2GateIsComplete | delivery/capacity.py:1398-1538 | A synthetic v2 acceptance over a faithful listing is always held with a fresh key |
| CapacityBounds.UnnamedSnapshotIsAccepted | delivery/capacity.py:1458-1478 | A v1 acceptance of a snapshot without a name, which the ledger refuses to hold |
| CapacityBounds.UnderstatedWipOversubscribes | delivery/capacity.py:1499-1506 | A run of real v1 acceptances that takes four units out of three, because a work order is estimated at less than was committed to it |
| CapacityBounds.StaleReserveStaysWithin | delivery/capacity.py:1479-1506 | A decision asked after a unit it saw reserved was freed: every request on it stays within the staffed units although its WIP does not cover, so cover is not necessary then |
| CapacityBounds.V1PassesPolicyCeiling | delivery/capacity.py:487-531 | A run in which v1 takes a second unit after a v2 hold has filled a policy ceiling of one |
| CanaryGateModel.ListedAreActive | delivery/canary_gate.py:35-39 | On sound rows the ids the gate passes to the ledger are the ones the evaluator reports as active |
| CanaryGateModel.LookupIff | delivery/canary_gate.py:35-39 | The gate looks up the id of every row that is not closed or cancelled, and fails exactly when one is missing |
| CanaryGateModel.CanaryGate.Evaluate | delivery/canary_gate.py:27-51 | Sweeps elapsed holds, then decides on what the swept ledger reserves |
| CanaryGateModel.CanaryGate.EvaluateAndHold | delivery/canary_gate.py:53-74 | With a fresh key the hold is granted exactly when the decision accepts, the evidence is synthetic, the snapshot is named and the hold has a future; capacity never refuses it |
| CanaryGateModel.CanaryGate.Commit | delivery/canary_gate.py:76-89 | Passes to the ledger's commit |
| CanaryGateModel.CanaryGate.ReleaseClosed | delivery/canary_gate.py:91-103 | Passes to the ledger's release with the closing reason |
| Reconciler.ReplayableIff | commercial/e2e.py:549-555 | A log replays without a refusal exactly when it is a legal path of events with distinct ids |
| Reconciler.ReplayedFacts | commercial/e2e.py:549-555 | What replaying such a log yields: its last event's state, all its events, and a receipt for each |
| Reconciler.AppliedLogIsPath | commercial/e2e.py:431-499 | In every reachable chain the applied events have distinct ids and form a legal path from UNKNOWN to the current state |
| Reconciler.IngestKeepsInv | commercial/e2e.py:431-499 | Every delivery keeps the chain explained by its applied log |
| Reconciler.EventIsJudged | commercial/e2e.py:57-96 | For each provider event type: in which states it is applied and to what it leads, in which it is held for a missing predecessor, and that it is retained in all others |
| Reconciler.DeliveryLeaves | commercial/e2e.py:431-499 | A known id changes nothing unless it replays a held event; otherwise the event is judged, its receipt kept and the log extended exactly when it is applied |
| Reconciler.RevenueIs | commercial/e2e.py:501-510 | Synthetic evidence is never revenue; real revenue is the amount of the last applied event while that is a receipt of the payment, and nothing otherwise |
| Reconciler.RevenueFollows | commercial/e2e.py:501-510 | Applying a receipt makes its amount the revenue, and applying anything else, a refund or cancellation above all, brings it back to nothing |
| Reconciler.SemanticReconciler.IngestEvent | commercial/e2e.py:431-499 | Takes the object exactly to the specified chain, or refuses an invalid event and changes nothing |
| Reconciler.SemanticReconciler.GetFinancialGate | commercial/e2e.py:512-532 | The receipt it cites always exists, was applied, and ends in the current state |
| Reconciler.SemanticReconciler.Rebuild | commercial/e2e.py:549-555 | Never fails, and agrees on state, revenue, last applied event, applied count and the receipts of all applied events |
| Confluence.ReachableLogIsPath | commercial/e2e.py:431-499 | The same path law for every sequence of deliveries and replays from the start |
| Confluence.ReachableRevenue | commercial/e2e.py:501-510 | After any deliveries, revenue is nothing on synthetic evidence or outside PAYMENT_RECEIVED, and otherwise the amount of one delivered receipt |
| Confluence.IngestExplained | commercial/e2e.py:431-499 | Along every run the state's rank never falls, a terminal state stands, and what is no longer held has been applied or overtaken |
| Confluence.PassAdvances | commercial/e2e.py:434-435 | One pass over what is held, in whatever order, takes the payment at least to the rank of any delivered kind that is due: its predecessors are applied, or it is a cancellation of a payment that has begun, or a refund that no overdue notice can keep out |
| Confluence.DeliveriesConverge | commercial/e2e.py:431-499 | Once all events of a collection are delivered, in any order and any number of times, three passes end in the state its kinds decide, and nothing delivered later changes it, unless the collection races; two passes are enough when the payment does not end refunded |
| Confluence.WholeRacesIff | commercial/e2e.py:57-86 | A payment that was created, confirmed and received races exactly when it is both refunded and canceled, and without either it ends received |
| PaymentRaces.EndIsDeterminedIff | commercial/e2e.py:57-86 | For every collection of events, the end is independent of the order of delivery exactly when it does not race: no creation, or neither a cancellation beside a refund that can be reached nor a confirmation beside an overdue notice without receipt and cancellation |
| PaymentRaces.ConfirmationRacesOverdue | commercial/e2e.py:57-86 | One creation, one confirmation and one overdue notice end confirmed or overdue, whichever of the two was taken in first |
| Confluence.StraightLogIsExact | commercial/e2e.py:431-499 | A payment of created, confirmed and received events only ends in PAYMENT_RECEIVED with each step applied exactly once |
| Confluence.OnePassReceivesIff | commercial/e2e.py:431-499 | For a whole payment without refunds and cancellations one pass settles it exactly when it was past created before, or the pass replays a confirmation or overdue notice before a receipt |
| Confluence.OnePassIsNotEnough | commercial/e2e.py:431-499 | Backward arrivals replayed in that order stop at PAYMENT_CONFIRMED |
| Confluence.TerminalEventsRace | commercial/e2e.py:68-76 | From a confirmed payment, whichever of refund and cancellation is taken in first is final |
| Retention.PlanRetention | control-center/deploy/src/retention.ts:35-58 | Fails exactly for retention below one; otherwise keeps every entry that is in the newest prefix and drops the rest, also when an object is listed twice |
| Retention.PlanIsPrefix | control-center/deploy/src/retention.ts:44-57 | When no object is listed twice the plan splits the sorted list where keeping stops |
| Retention.PlanIsSafe | control-center/deploy/src/retention.ts:35-58 | Every plan is a partition, keeps at least min(retainMin, n), drops nothing inside the cutoff, and keeps nothing older than what it drops |
| Retention.PlanKeeps | control-center/deploy/src/retention.ts:49-57 | With distinct times, an entry is kept exactly when fewer than retainMin are newer or it is inside the cutoff |
| RetentionRanks.StandsAtRank | control-center/deploy/src/retention.ts:44-46 | Sorting puts each entry behind all newer ones and behind those of its time that are listed earlier |
| RetentionRanks.PlanKeepsRanks | control-center/deploy/src/retention.ts:35-58 | For any listing, with ties and repetitions: an object is kept exactly when it has one of the first retainMin places or was observed within the last retainDays times 24 hours |
| Retention.AboveDropped | control-center/deploy/src/retention.ts:49-53 | A dropped entry has at least retainMin kept entries newer than it |
| Retention.EarlyPruningIsHarmless | control-center/deploy/src/retention.ts:35-97 | Pruning at t1, adding any backups and pruning at t2 leaves exactly what one prune of everything at t2 leaves, by rank and cutoff |
| Retention.EarlyPruningKeepsTimes | control-center/deploy/src/retention.ts:35-97 | Also among equal times and for any listing order, the plans leave exactly as many backups of each time as one prune would |
| Retention.BackupDir.Prune | control-center/deploy/src/retention.ts:82-97 | Deleting file by file leaves exactly the kept entries of the plan |
| QualificationWindow.OrderIsOrdinal | commercial/outbound/first_touch_v3.py:183-184 | Calendar order of valid dates is the order of their day numbers |
| QualificationWindow.OrdinalCountsDays | commercial/outbound/first_touch_v3.py:179-184 | Day numbers go up by one from each Gregorian day to the next |
| QualificationWindow.AddYearsForward | commercial/outbound/first_touch_v3.py:166-176 | Carrying the overflow yields a valid date: the same day of the year, or the first of March |
| QualificationWindow.YearsLaterMonotone | commercial/outbound/first_touch_v3.py:166-176 | Adding years never reverses two dates |
| QualificationWindow.WindowLength | commercial/outbound/first_touch_v3.py:179-181 | The window is always 1095 or 1096 days |
| QualificationWindow.NewestAct | commercial/outbound/first_touch_v3.py:457-462 | Finds the newest of the counted acts, or nothing when one is unreadable |
| QualificationWindow.EvaluateRootQualification | commercial/outbound/first_touch_v3.py:409-483 | The record filled step by step carries the specified state and reason, and an expiry exactly for QUALIFIED and EXPIRED |
| QualificationWindow.JudgementIs | commercial/outbound/first_touch_v3.py:409-483 | Each state with its reason, exactly when which evidence is missing, drifted, revoked, inside or past its window |
| QualificationWindow.NewestActSuffices | commercial/outbound/first_touch_v3.py:453-483 | Past the evidence checks, QUALIFIED holds exactly when some counted act is still inside its own window |
| QualificationWindow.ExpiryIsFinal | commercial/outbound/first_touch_v3.py:471-483 | EXPIRED never reverts as the day advances |
| Commission.PaymentWithinSchedule | scripts/validate_partner_program.py:546-613 | Whatever the caller passes, a payment is at most the schedule's highest share of the net fee and never lifts the paid total above the canonical cap |
| Commission.AmountIs | scripts/validate_partner_program.py:546-613 | Nothing is paid when nothing is owed; otherwise a number of cents is within the payment exactly when it is within the share of the net receipt and keeps all payments within the agreed cap, and negative inputs are refused |
| Commission.PaysIff | scripts/validate_partner_program.py:546-613 | Something is paid exactly when all gates are open, a whole cent is earned at a rate of the schedule, and the cap is not reached |
| Commission.RunPaysShares | scripts/validate_partner_program.py:605-613 | Feeding each payment back, a run pays the floored shares until the cap is reached |
| Commission.TotalIsCapped | scripts/validate_partner_program.py:605-613 | From nothing paid the total is exactly min(cap, sum of floored shares), never above the canonical cap |
| Commission.OrderDoesNotMatter | scripts/validate_partner_program.py:605-613 | The order of the receipts does not change the total |
| Commission.NetsSumIff | scripts/validate_partner_program.py:605-605 | The nets of a split are never less than the net of the whole, and sum to it exactly when no part refunds more than it charges while another charges more than it refunds |
| Commission.SplittingLosesLittle | scripts/validate_partner_program.py:605-613 | Splitting one receipt into n parts, refunds and all, loses at most n − 1 cents, and under that condition never pays more |
| Commission.SplitNeverPaysMoreIff | scripts/validate_partner_program.py:605-613 | A split pays no more than the whole exactly when its floored shares are no more than the share of the whole, or the cap is reached by the whole already |
| Commission.SplitRefundPaysMore | scripts/validate_partner_program.py:605-613 | Without the condition a split pays where the whole pays nothing |
| PublicIds.SymbolIsCrockford | control-center/persistence/src/ids.ts:5-5 | The alphabet string is the digits and capitals without I, L, O and U, position by position |
| PublicIds.AlphabetSound | control-center/persistence/src/ids.ts:5-5 | Symbols decode to their position and ascend as characters do |
| PublicIds.DecodeBase32 | control-center/persistence/src/ids.ts:24-32 | Decoding an encoding gives the number modulo what the width holds |
| PublicIds.Base32Order | control-center/persistence/src/ids.ts:24-32 | Within the width, string order is numeric order and encoding is injective |
| PublicIds.StringLessIff | control-center/persistence/src/ids.ts:24-32 | The string order used here is the one decided by the first difference |
| PublicIds.EncodeTime | control-center/persistence/src/ids.ts:24-32 | Filling ten characters from the right spells the ten low base-32 digits |
| PublicIds.TimeRoundTrip | control-center/persistence/src/ids.ts:24-32 | Below 32^10 the time comes back exactly |
| PublicIds.FiveBitsExact | control-center/persistence/src/ids.ts:39-43 | The wrap of the 32-bit accumulator never reaches the five bits that are read |
| PublicIds.EncodeRandom | control-center/persistence/src/ids.ts:34-50 | For any number of bytes the output is their leading bits as base-32 symbols, padded to sixteen |
| PublicIds.RandomRoundTrip | control-center/persistence/src/ids.ts:34-50 | Ten bytes give sixteen symbols that decode to the same bytes |
| PublicIds.GeneratePublicId | control-center/persistence/src/ids.ts:53-60 | The final guard never fires; the suffix has 26 symbols and the id matches the resource grammar |
| PublicIds.ResourceShapeIff | control-center/contracts/src/taxonomy.ts:9-9 | The resource grammar in terms of its parts: prefix, type and suffix |
| PublicIds.GeneratedOrder | control-center/persistence/src/ids.ts:52-54 | The suffixes that are generated from ten random bytes sort by time, and within a millisecond by the bytes, and are equal only for the same time and bytes |
| PublicIds.GeneratedIdsDiffer | control-center/persistence/src/ids.ts:52-60 | Two generated ids are equal only when type, time and random bytes are |
| ClientSlugs.SlugIff | control-center/contracts/src/taxonomy.ts:13-13 | The slug pattern is: alphanumerics and single dashes, none at either end |
| ClientSlugs.NormalizationIsSlug | control-center/contracts/src/ids.ts:54-60 | Every non-empty normalization is a slug |
| ClientSlugs.NormalizeIs | control-center/contracts/src/ids.ts:54-60 | A raw name becomes its lower-cased alphanumeric words, joined by single dashes |
| ClientSlugs.SameWordsSameSlug | control-center/contracts/src/ids.ts:54-74 | Names that differ in case or in what separates their words have the same slug |
| ClientSlugs.LettersMatch | control-center/contracts/src/ids.ts:57-57 | Each capital becomes its small letter, and small letters stay |
| ClientSlugs.SlugIsFixed | control-center/contracts/src/ids.ts:54-60 | A slug is its own normal form |
| ClientSlugs.NormalizeIdempotent | control-center/contracts/src/ids.ts:54-60 | Normalizing twice is normalizing once |
| ClientSlugs.IdentifiedIff | control-center/contracts/src/ids.ts:45-74 | A string is an identified slug exactly when it is the slug derived from it |
| ClientSlugs.FirstField | control-center/contracts/src/ids.ts:110-126 | Finds the first field with an acceptable value, or that there is none |
| ClientSlugs.ResolveClientIdentity | control-center/contracts/src/ids.ts:105-160 | Over the taxonomy's field lists: the slug is null exactly when a missing, reserved or unusable key is reported, and likewise for the name; the key is the first key field, failing that the first real company name |
| ClientSlugs.IdentityIs | control-center/contracts/src/ids.ts:105-160 | By the fields themselves: the key is the first of client, customer, account, organization and company ids, failing those the first real name; the display name is the first real name |
| OutreachBatches.CheckMembers | scripts/validate_agent_outreach_batch.py:335-448 | The member loop accepts exactly the sound lists without a repeated lead or receipt, and counts them into the expected summary |
| OutreachBatches.KeysFollowLeads | scripts/validate_agent_outreach_batch.py:396-411 | A member with a new lead cannot repeat an earlier key |
| OutreachBatches.ValidateDocument | scripts/validate_agent_outreach_batch.py:249-473 | Accepts exactly the documents whose window, totals, members and summary are in order |
| OutreachBatches.DocumentIff | scripts/validate_agent_outreach_batch.py:249-473 | The same in full: times in order, totals that split the denominator, up to 500 members, each faultless by its lanes, key and outcome, no lead or imported receipt twice, and a summary and delta that are the counts of the members |
| OutreachBatches.TotalsIff | scripts/validate_agent_outreach_batch.py:276-302 | The totals are in order exactly when the denominator is what was processed before, newly processed and remaining, none of it negative, and no more is reserved than there is |
| OutreachBatches.AccountsBalance | scripts/validate_agent_outreach_batch.py:431-452 | In an accepted batch the five outcomes sum to the members and the processed and remaining totals balance the denominator |
| OutreachBatches.SummaryCounts | scripts/validate_agent_outreach_batch.py:431-448 | Every figure of an accepted summary is the number of members of which it is true |
| OutreachBatches.ClaimableIff | scripts/validate_agent_outreach_batch.py:369-386 | Which reconciliation statuses may be claimed after which pair of lane results |
| OutreachBatches.ImportableIff | scripts/validate_agent_outreach_batch.py:413-418 | An otherwise sound member may have been imported exactly when its lanes agree or only one of them observed anything |
| OutreachBatches.SameKeyIff | scripts/validate_agent_outreach_batch.py:396-404 | Two documents give the same key exactly for the same run, versions and lead |
| OutreachBatches.ImportsAreReconciled | scripts/validate_agent_outreach_batch.py:413-423 | No batch imports more drafts than it reconciled |
| OutreachBatches.Reserve | scripts/validate_agent_outreach_batch.py:497-516 | One member is accepted exactly when it conflicts with no earlier reservation or import, and is then remembered |
| OutreachBatches.ReserveAll | scripts/validate_agent_outreach_batch.py:497-516 | The inner loop accepts a batch exactly when all reservations and imports so far stay pairwise compatible |
| OutreachBatches.ValidateDocuments | scripts/validate_agent_outreach_batch.py:476-517 | The incremental check accepts exactly the lists of valid documents with distinct ids, agreeing source runs, pairwise non-overlapping reservations of each lead and no key or receipt imported twice |
| OutreachBatches.CompatibleIff | scripts/validate_agent_outreach_batch.py:497-516 | The slots of a list are compatible exactly when no two members, of one document or of two, reserve one lead at overlapping times or were imported under one key or with one receipt |
| OutreachBatches.HeadsIff | scripts/validate_agent_outreach_batch.py:476-496 | No batch id occurs twice, and documents of one source run agree on hash, denominator and key version |
| OutreachBatches.InstantReservedOnce | scripts/validate_agent_outreach_batch.py:498-502 | In an accepted list no instant of a lead is reserved twice |
| OutreachBatches.OverlapIff | scripts/validate_agent_outreach_batch.py:498-502 | For non-empty windows the overlap test fires exactly when they share an instant |
| HandraiserStore.ModelOnlyHandraiserStore.Evaluate | commercial/inbound/admit.py:655-777 | Takes the store exactly to the specified one: replay, conflict or first write |
| HandraiserStore.FreshAcceptsIff | commercial/inbound/admit.py:668-681 | A fresh request is accepted exactly when no gate spoke, its key is a token without a conflict, intake is open and nothing leaks |
| HandraiserStore.FreshRejectsIff | commercial/inbound/admit.py:668-777 | A fresh request is refused exactly when there is no doubt, nothing leaks and some refusal may be emitted; every other one that is not accepted is in doubt |
| HandraiserStore.FreshReasonsIff | commercial/inbound/admit.py:668-777 | A reason is published exactly when it is raised and may be emitted; REQUEST_INVALID is added when nothing may be or the decision would leak, and then the gates are not satisfied |
| HandraiserStore.EntryNeverChanges | commercial/inbound/admit.py:769-775 | A key's entry, once written, is never rewritten by any later request |
| HandraiserStore.AcceptedIsStored | commercial/inbound/admit.py:1448-1453 | Every accepted answer is the stored entry of its key, with the same material and logical admission |
| HandraiserStore.OneAdmissionPerKey | commercial/inbound/admit.py:1268-1288 | Over any sequence of v1 and draft requests, all accepted answers under a key are one logical admission of identical material, and all but the first are replays |
| HandraiserStore.FirstAnswerDecides | commercial/inbound/admit.py:655-777 | The first answer under a key decides it: a later one is accepted exactly when the first was and the material is the same |
| HandraiserStore.OtherPayloadNeverAccepted | commercial/inbound/admit.py:658-663 | A used key with other material is never accepted and leaves the store as it was |
| Bottleneck.MaterializeStages | commercial/acquisition/cycle.py:171-226 | The loop builds one row for each canonical stage from the first accepted observation of it |
| Bottleneck.MaterializedIsSound | commercial/acquisition/cycle.py:171-226 | Each canonical stage has one row, in order, and only an observed row has a count |
| Bottleneck.StageRowIs | commercial/acquisition/cycle.py:171-226 | A stage says what the first new observation of it says, whatever comes before, between or after, and nothing when there is none |
| Bottleneck.RepeatingIsHarmless | commercial/acquisition/cycle.py:188-196 | Repeating an observation anywhere after its first appearance changes nothing |
| Bottleneck.LowestIs | commercial/acquisition/cycle.py:291-299 | The candidate is a fresh row of least count, and there is one exactly when some row is fresh |
| Bottleneck.LowestIsFirst | commercial/acquisition/cycle.py:291-299 | And it is the first of them |
| Bottleneck.ChosenIsFresh | commercial/acquisition/cycle.py:163-168 | Something is chosen exactly when some row is observed, counted and fresh, and what is chosen is such a row |
| Bottleneck.PriorStaysIff | commercial/acquisition/cycle.py:79-97 | A fresh previous bottleneck stays exactly when no fresh stage is materially below it and no zero breaks it; otherwise the first of the lowest takes its place |
| Bottleneck.NoPriorChoosesLowest | commercial/acquisition/cycle.py:300-315 | Without a fresh previous bottleneck the first of the lowest is chosen |
| Bottleneck.ChoiceIsStable | commercial/acquisition/cycle.py:286-315 | The choice, fed its own answer, returns it |
| Bottleneck.ChoiceIsNearMinimum | commercial/acquisition/cycle.py:79-97 | The choice is a zero whenever zero always counts and a fresh zero exists, and otherwise less than one material delta above the fresh minimum |
| Bottleneck.RepeatedObservationsKeepChoice | commercial/acquisition/cycle.py:171-315 | Repeated observations do not move a bottleneck that has been chosen |

## Left out

- NeverOversubscribed: assumes that each granted decision's WIP covers the commitments it lists; without that it is false (`UnderstatedWipOversubscribes`). The exact bound of any one decision is `EvidenceBoundIff`.
- CoverIsNecessary: assumes that nothing the decision saw reserved has been freed and that there is room left; without that cover is not necessary (`StaleReserveStaysWithin`), and `EvidenceBoundIff` says what is.
- DeliveriesConverge: assumes that the collection does not race; in every collection that does, the end depends on the order (`EndIsDeterminedIff`).
- OnePassReceivesIff: is about whole payments without refunds and cancellations.
- EarlyPruningIsHarmless: says which entries are kept by rank and cutoff, which is the plan when times are distinct; `EarlyPruningKeepsTimes` covers equal times, where which of them is kept depends on the listing.
- SplittingLosesLittle: that a split never pays more holds under the condition of `NetsSumIff`, not for every split (`SplitRefundPaysMore`); `SplitNeverPaysMoreIff` is the condition on the payments.
- ReconcileExpired: returns the set of expired ids, not the sorted list.
- ValidateDocument: which error is reported first is not specified, only that one is.
- Parsing of dates and timestamps: two spellings of one instant are one command here, and a holiday spelt in another ISO form than the canonical one counts here and does not match there.
- Shapes: a document or row field of the wrong type counts as absent, so a snapshot that is not an object and one that is missing give the same evidence class, and a work-order id that is not a string is a missing id to the gate. Booleans are not integers.
- Keys that v1 reads without a default: a snapshot without an id, a gate snapshot without an id and a calendar without a version raise there and are not representable here.
- Python's last year: adding days or years past the year 9999 raises there and does not here.
- Decision ids are parameters, standing for the digest of the inputs.
- v2 fields that only copy inputs, the sort order of `work_order_refs`, `blocked_effort_units`, blocker texts and next actions.
- SQLite, locks, WAL and threads: each ledger command is one atomic step.
- `project_capacity_read_only`, `project_capacity_read_only_v2` and `evaluate_catalog_availability`, which repackage a decision.
- `generate_fail_closed_snapshot` and `promote_to_delivery_validated`: fixed record layouts.
- Strings that are not well-formed Unicode; letters outside ASCII are left as they are by lower-casing, except the two whose lower case holds an ASCII letter, which is as much as a slug can tell.
- Timestamps of 2^53 milliseconds or more, where JavaScript's numbers are no longer exact.
- `parseResourceId`, backup encryption, and the check that every backup has its sidecar.
- Gates of inbound admission, PII scrubbing and the derived qualification: what the gates found is an input of each evaluation, and may change from call to call.
- `materialize_transitions` and `evaluate_shift`, and the stage fields that name owners and read-backs.
- Legal and catalog text checks, deployment configuration, HTTP, files and command lines.
