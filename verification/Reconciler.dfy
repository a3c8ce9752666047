/** commercial/e2e.py: the semantic payment reconciler, as a reducer and as the object that runs it. */
module Reconciler {
  import opened Prelude

  datatype FinancialState = Unknown | Created | Confirmed | Received | Overdue | Refunded | Canceled

  /** The provider's event type, upper-cased. */
  datatype RawType =
    | PaymentCreated | PaymentConfirmed | PaymentReceived | PaymentOverdue | PaymentRefunded | PaymentPartiallyRefunded
    | PaymentDeleted | PaymentCanceled | PaymentCancelled | Other(name: string)

  /** `RAW_TO_CANONICAL`; anything not in the table is Unknown. */
  function Canonical(rawType: RawType): FinancialState {
    match rawType
    case PaymentCreated => Created
    case PaymentConfirmed => Confirmed
    case PaymentReceived => Received
    case PaymentOverdue => Overdue
    case PaymentRefunded | PaymentPartiallyRefunded => Refunded
    case PaymentDeleted | PaymentCanceled | PaymentCancelled => Canceled
    case Other(_) => Unknown
  }

  /** `ALLOWED_TRANSITIONS`. */
  function Successors(state: FinancialState): set<FinancialState> {
    match state
    case Unknown => {Created}
    case Created => {Confirmed, Overdue, Canceled}
    case Confirmed => {Received, Overdue, Refunded, Canceled}
    case Received => {Refunded, Canceled}
    case Overdue => {Confirmed, Received, Canceled}
    case Refunded | Canceled => {}
  }

  /** `STATE_ORDER`. */
  function Order(state: FinancialState): nat {
    match state
    case Unknown => 0
    case Created => 1
    case Confirmed | Overdue => 2
    case Received => 3
    case Refunded | Canceled => 4
  }

  /** `wellFormed` stands for the checks of `validate_provider_event` against fixed text. */
  datatype Event = Event(id: string, correlation: string, rawType: RawType, amountCents: int, wellFormed: bool)

  predicate ValidEvent(e: Event, correlation: string) {
    e.wellFormed && e.id != "" && e.correlation == correlation && e.amountCents >= 0
  }

  datatype Status = Applied | Retained | Held | Duplicate

  datatype Reason =
    | UnknownProviderEvent | TransitionApplied | RegressionPrevented | MissingPredecessor(state: FinancialState)
        | AlreadyReceipted

  datatype Receipt = Receipt(
    eventId: string, canonical: FinancialState, before: FinancialState, after: FinancialState,
    status: Status, applied: bool, held: bool, duplicate: bool, reason: Reason)

  datatype Chain = Chain(
    state: FinancialState, receipts: map<string, Receipt>, applied: seq<Event>, lastApplied: Option<string>)

  const START := Chain(Unknown, map[], [], None)

  /** A repeated delivery is answered from its receipt and changes nothing. */
  function DuplicateOf(c: Chain, e: Event): Receipt
    requires e.id in c.receipts
  {
    c.receipts[e.id].(status := Duplicate, applied := false, duplicate := true, before := c.state, after := c.state,
                      reason := AlreadyReceipted)
  }

  predicate IsDuplicate(c: Chain, e: Event, replay: bool) {
    e.id in c.receipts && !(replay && c.receipts[e.id].held)
  }

  /** The receipt of an event that is judged now. */
  function Judge(c: Chain, e: Event): Receipt {
    var next := Canonical(e.rawType);
    if next == Unknown then
      Receipt(e.id, Unknown, c.state, c.state, Held, false, true, false, UnknownProviderEvent)
    else if next in Successors(c.state) then
      Receipt(e.id, next, c.state, next, Applied, true, false, false, TransitionApplied)
    else if Order(next) <= Order(c.state) then
      Receipt(e.id, next, c.state, c.state, Retained, false, false, false, RegressionPrevented)
    else
      Receipt(e.id, next, c.state, c.state, Held, false, true, false, MissingPredecessor(next))
  }

  /** `ingest` of a valid event. */
  function Ingest(c: Chain, e: Event, replay: bool): (Chain, Receipt) {
    if IsDuplicate(c, e, replay) then (c, DuplicateOf(c, e))
    else
      var receipt := Judge(c, e);
      var receipts := c.receipts[e.id := receipt];
      if receipt.applied then (Chain(receipt.after, receipts, c.applied + [e], Some(e.id)), receipt)
      else (c.(receipts := receipts), receipt)
  }

  /** The cents of the last applied event that maps to Received. */
  function LastReceived(applied: seq<Event>): int {
    if applied == [] then 0
    else if Canonical(Last(applied).rawType) == Received then Last(applied).amountCents
    else LastReceived(Init(applied))
  }

  /** `received_revenue_cents`: synthetic evidence is never revenue. */
  function Revenue(c: Chain, synthetic: bool): int {
    if synthetic || c.state != Received then 0 else LastReceived(c.applied)
  }

  // ---- Reachable chains are explained by their applied log ---------------------------------------

  /** What a new reconciler reaches by taking in a log from start to end. */
  function Replayed(log: seq<Event>): Chain {
    if log == [] then START else Ingest(Replayed(Init(log)), Last(log), false).0
  }

  /** Every event of the log is applied when the log is replayed. */
  predicate Replayable(log: seq<Event>) {
    log == [] || (Replayable(Init(log)) && Ingest(Replayed(Init(log)), Last(log), false).1.applied)
  }

  function AppliedPart(receipts: map<string, Receipt>): map<string, Receipt> {
    map id | id in receipts && receipts[id].applied :: receipts[id]
  }

  predicate ReceiptsSound(c: Chain) {
    forall id <- c.receipts :: c.receipts[id].eventId == id && !c.receipts[id].duplicate
        && !(c.receipts[id].applied && c.receipts[id].held)
  }

  predicate AllValid(log: seq<Event>, correlation: string) {
    forall e <- log :: ValidEvent(e, correlation)
  }

  /** Replaying the applied log reproduces everything but the receipts of events that were not applied. */
  predicate ChainInv(c: Chain, correlation: string) {
    && Replayable(c.applied) && AllValid(c.applied, correlation) && ReceiptsSound(c)
    && Replayed(c.applied) == c.(receipts := AppliedPart(c.receipts))
  }

  /** A log grows by an event that is applied from the log's own end. */
  lemma LogGrows(log: seq<Event>, e: Event)
    requires Replayable(log) && Ingest(Replayed(log), e, false).1.applied
    ensures Replayable(log + [e]) && Replayed(log + [e]) == Ingest(Replayed(log), e, false).0
  {
    assert Init(log + [e]) == log && Last(log + [e]) == e;
  }

  lemma AppliedPartUpdate(receipts: map<string, Receipt>, id: string, receipt: Receipt)
    requires id in receipts ==> !receipts[id].applied
    ensures AppliedPart(receipts[id := receipt]) ==
            if receipt.applied then AppliedPart(receipts)[id := receipt] else AppliedPart(receipts)
  {
  }

  lemma IngestKeepsInv(c: Chain, e: Event, replay: bool, correlation: string)
    requires ChainInv(c, correlation) && ValidEvent(e, correlation)
    ensures ChainInv(Ingest(c, e, replay).0, correlation)
  {
    if !IsDuplicate(c, e, replay) {
      AppliedPartUpdate(c.receipts, e.id, Judge(c, e));
      if Judge(c, e).applied {
        assert Judge(Replayed(c.applied), e) == Judge(c, e);
        assert e.id !in Replayed(c.applied).receipts;
        LogGrows(c.applied, e);
      }
    }
  }

  /** Every prefix of a replayable log is replayable. */
  lemma {:induction false} PrefixReplayable(log: seq<Event>, n: nat)
    requires n <= |log| && Replayable(log)
    ensures Replayable(log[..n])
    decreases |log|
  {
    if n == |log| {
      assert log[..n] == log;
    } else {
      PrefixReplayable(Init(log), n);
      assert Init(log)[..n] == log[..n];
    }
  }

  /** The state a log leads to, read off its last event alone. */
  function PathEnd(log: seq<Event>): FinancialState {
    if log == [] then Unknown else Canonical(Last(log).rawType)
  }

  /** The log is a path through `ALLOWED_TRANSITIONS` from Unknown. */
  predicate LegalPath(log: seq<Event>) {
    log == [] || (LegalPath(Init(log)) && Canonical(Last(log).rawType) in Successors(PathEnd(Init(log))))
  }

  predicate DistinctIds(log: seq<Event>) {
    forall i, j :: 0 <= i < j < |log| ==> log[i].id != log[j].id
  }

  function Ids(log: seq<Event>): set<string> {
    set i | 0 <= i < |log| :: log[i].id
  }

  lemma IdsGrow(log: seq<Event>)
    requires log != []
    ensures Ids(log) == Ids(Init(log)) + {Last(log).id}
    ensures DistinctIds(log) <==> DistinctIds(Init(log)) && Last(log).id !in Ids(Init(log))
  {
    var init, e := Init(log), Last(log);
    assert forall i :: 0 <= i < |init| ==> log[i] == init[i];
    if DistinctIds(init) && e.id !in Ids(init) {
      forall i | 0 <= i < |init|
        ensures log[i].id != e.id
      {
        assert init[i].id in Ids(init);
      }
    }
  }

  /** What replaying a replayable log yields. */
  lemma {:induction false} ReplayedFacts(log: seq<Event>)
    requires Replayable(log)
    ensures Replayed(log).state == PathEnd(log) && Replayed(log).applied == log
    ensures Replayed(log).receipts.Keys == Ids(log)
    ensures Replayed(log).lastApplied == if log == [] then None else Some(Last(log).id)
  {
    if log != [] {
      ReplayedFacts(Init(log));
      IdsGrow(log);
    }
  }

  /** A replayable log is exactly a legal path of events with distinct ids. */
  lemma {:induction false} ReplayableIff(log: seq<Event>)
    ensures Replayable(log) <==> LegalPath(log) && DistinctIds(log)
  {
    if log != [] {
      ReplayableIff(Init(log));
      IdsGrow(log);
      if Replayable(Init(log)) {
        ReplayedFacts(Init(log));
      }
    }
  }

  /** In every reachable chain the applied events are a legal path from Unknown to the current state, none applied
      twice, and they are exactly the events whose receipt says they were applied. */
  lemma AppliedLogIsPath(c: Chain, correlation: string)
    requires ChainInv(c, correlation)
    ensures LegalPath(c.applied) && DistinctIds(c.applied) && c.state == PathEnd(c.applied)
    ensures forall id :: id in c.receipts && c.receipts[id].applied <==> id in Ids(c.applied)
    ensures c.lastApplied == if c.applied == [] then None else Some(Last(c.applied).id)
  {
    ReplayableIff(c.applied);
    ReplayedFacts(c.applied);
    assert forall id :: id in AppliedPart(c.receipts) <==> id in c.receipts && c.receipts[id].applied;
  }

  // ---- What each event leaves --------------------------------------------------------------------

  /** Applied in some states and held back in others; retained, without effect, in the rest. */
  predicate Answers(r: Receipt, before: FinancialState, applies: set<FinancialState>, holds: set<FinancialState>,
          target: FinancialState)
  {
    && (r.status == Applied <==> before in applies) && (r.status == Held <==> before !in applies && before in holds)
    && (r.status == Retained <==> before !in applies && before !in holds)
    && (r.applied <==> r.status == Applied) && (r.held <==> r.status == Held) && !r.duplicate
    && r.before == before && r.after == (if r.applied then target else before) && r.canonical == target
  }

  const ALL_STATES := {Unknown, Created, Confirmed, Received, Overdue, Refunded, Canceled}

  /** What an event of each type does in each state: where it is applied and to which state it leads, and where it is
      held for a predecessor that is still missing. An event of any other type is always held. */
  lemma EventIsJudged(c: Chain, e: Event)
    ensures var r := Judge(c, e);
            && r.eventId == e.id
            && match e.rawType
               case PaymentCreated => Answers(r, c.state, {Unknown}, {}, Created)
               case PaymentConfirmed => Answers(r, c.state, {Created, Overdue}, {Unknown}, Confirmed)
               case PaymentReceived => Answers(r, c.state, {Confirmed, Overdue}, {Unknown, Created}, Received)
               case PaymentOverdue => Answers(r, c.state, {Created, Confirmed}, {Unknown}, Overdue)
               case PaymentRefunded | PaymentPartiallyRefunded =>
                 Answers(r, c.state, {Confirmed, Received}, {Unknown, Created, Overdue}, Refunded)
               case PaymentDeleted | PaymentCanceled | PaymentCancelled =>
                 Answers(r, c.state, {Created, Confirmed, Received, Overdue}, {Unknown}, Canceled)
               case Other(_) => Answers(r, c.state, {}, ALL_STATES, Unknown)
  {
    match c.state {
      case Unknown | Created | Confirmed | Received | Overdue | Refunded | Canceled =>
    }
  }

  /** A delivery whose id has a receipt changes nothing, unless it replays a held event: then, as for a new id, it is
      judged, its receipt is kept, and the log grows exactly when it is applied. */
  lemma DeliveryLeaves(c: Chain, e: Event, replay: bool)
    ensures var (t, r) := Ingest(c, e, replay);
            if e.id in c.receipts && !(c.receipts[e.id].held && replay) then
              && t == c && r.status == Duplicate && !r.applied && r.duplicate && r.before == r.after == c.state
              && r.eventId == c.receipts[e.id].eventId && r.canonical == c.receipts[e.id].canonical
            else
              && r == Judge(c, e) && t.state == r.after && t.receipts == c.receipts[e.id := r]
              && t.applied == (if r.applied then c.applied + [e] else c.applied)
              && t.lastApplied == (if r.applied then Some(e.id) else c.lastApplied)
  {
    EventIsJudged(c, e);
  }

  // ---- Revenue -----------------------------------------------------------------------------------

  /** Synthetic evidence is never revenue. Real revenue is the amount of the last applied event while that is a receipt
      of the payment, and nothing before or after it. */
  lemma RevenueIs(c: Chain, correlation: string, synthetic: bool)
    requires ChainInv(c, correlation)
    ensures synthetic ==> Revenue(c, synthetic) == 0
    ensures c.applied == [] || Last(c.applied).rawType != PaymentReceived ==> Revenue(c, synthetic) == 0
    ensures !synthetic && c.applied != [] && Last(c.applied).rawType == PaymentReceived ==>
              Revenue(c, synthetic) == Last(c.applied).amountCents
    ensures Revenue(c, synthetic) >= 0
  {
    AppliedLogIsPath(c, correlation);
    assert c.applied != [] ==> Last(c.applied) in c.applied;
  }

  /** Taking in a receipt of a confirmed or overdue payment makes its amount the revenue, and taking in a refund or
      cancellation brings the revenue back to nothing. */
  lemma RevenueFollows(c: Chain, e: Event, replay: bool, correlation: string, synthetic: bool)
    requires ChainInv(c, correlation) && ValidEvent(e, correlation) && Ingest(c, e, replay).1.applied
    ensures Revenue(Ingest(c, e, replay).0, synthetic) ==
            if !synthetic && e.rawType == PaymentReceived then e.amountCents else 0
  {
    DeliveryLeaves(c, e, replay);
    IngestKeepsInv(c, e, replay, correlation);
    RevenueIs(Ingest(c, e, replay).0, correlation, synthetic);
  }

  // ---- The object --------------------------------------------------------------------------------

  datatype ContractError = InvalidEvent | NonSyntheticGate

  /** The gate cites the receipt of the last applied event; its reference is a digest of the event id. */
  datatype FinancialGate = GateUnknown | SyntheticValid(sourceEventId: string, cited: Receipt)

  datatype Projection = Projection(state: FinancialState, revenueCents: int, lastApplied: Option<string>,
    receipts: map<string, Receipt>, appliedCount: nat)

  function Project(c: Chain, synthetic: bool): Projection {
    Projection(c.state, Revenue(c, synthetic), c.lastApplied, c.receipts, |c.applied|)
  }

  class SemanticReconciler {
    const correlation: string
    const synthetic: bool
    var state: FinancialState
    var receipts: map<string, Receipt>
    var appliedEvents: seq<Event>
    var lastApplied: Option<string>

    ghost function View(): Chain
      reads this
    {
      Chain(state, receipts, appliedEvents, lastApplied)
    }

    ghost predicate Valid()
      reads this
    {
      ChainInv(View(), correlation)
    }

    constructor (correlation: string, synthetic: bool)
      ensures Valid() && View() == START && this.correlation == correlation && this.synthetic == synthetic
    {
      this.correlation, this.synthetic := correlation, synthetic;
      state, receipts, appliedEvents, lastApplied := Unknown, map[], [], None;
    }

    method IngestEvent(e: Event, replay: bool) returns (r: Result<Receipt, ContractError>)
      requires Valid()
      modifies this
      ensures Valid()
      ensures !ValidEvent(e, correlation) ==> r == Err(InvalidEvent) && View() == old(View())
      ensures ValidEvent(e, correlation) ==>
                View() == Ingest(old(View()), e, replay).0 && r == Ok(Ingest(old(View()), e, replay).1)
    {
      if !ValidEvent(e, correlation) {
        return Err(InvalidEvent);
      }
      IngestKeepsInv(View(), e, replay, correlation);
      if e.id in receipts && !(replay && receipts[e.id].held) {
        var previous := receipts[e.id];
        return Ok(previous.(status := Duplicate, applied := false, duplicate := true, before := state, after := state,
                            reason := AlreadyReceipted));
      }
      var before, canonical := state, Canonical(e.rawType);
      var receipt;
      if canonical == Unknown {
        receipt := Receipt(e.id, Unknown, before, state, Held, false, true, false, UnknownProviderEvent);
      } else if canonical in Successors(before) {
        state := canonical;
        lastApplied := Some(e.id);
        receipt := Receipt(e.id, canonical, before, state, Applied, true, false, false, TransitionApplied);
        appliedEvents := appliedEvents + [e];
      } else if Order(canonical) <= Order(before) {
        receipt := Receipt(e.id, canonical, before, state, Retained, false, false, false, RegressionPrevented);
      } else {
        receipt := Receipt(e.id, canonical, before, state, Held, false, true, false, MissingPredecessor(canonical));
      }
      receipts := receipts[e.id := receipt];
      return Ok(receipt);
    }

    /** The receipt the gate cites always exists, is an applied one, and ends in the current state. */
    method GetFinancialGate() returns (r: Result<FinancialGate, ContractError>)
      requires Valid()
      ensures state !in {Confirmed, Received} <==> r == Ok(GateUnknown)
      ensures state in {Confirmed, Received} && !synthetic ==> r == Err(NonSyntheticGate)
      ensures state in {Confirmed, Received} && synthetic ==>
                && r.Ok? && r.value.SyntheticValid? && Some(r.value.sourceEventId) == lastApplied
                && r.value.sourceEventId in receipts && r.value.cited == receipts[r.value.sourceEventId]
                && r.value.cited.applied && r.value.cited.after == state
    {
      if state != Confirmed && state != Received {
        return Ok(GateUnknown);
      }
      if !synthetic {
        return Err(NonSyntheticGate);
      }
      LastReceiptFits(View(), correlation);
      return Ok(SyntheticValid(lastApplied.value, receipts[lastApplied.value]));
    }

    /** `rebuild` replays the applied log into a new reconciler. It never fails, and it agrees with the original on the
        state, the revenue, the last applied event, the number applied and the receipt of every applied event. */
    method Rebuild() returns (r: Result<Projection, ContractError>)
      requires Valid()
      ensures r == Ok(Project(View(), synthetic).(receipts := AppliedPart(receipts)))
    {
      var rebuilt := new SemanticReconciler(correlation, synthetic);
      var log := appliedEvents;
      for i := 0 to |log|
        invariant fresh(rebuilt) && rebuilt.Valid() && rebuilt.correlation == correlation
        invariant rebuilt.View() == Replayed(log[..i])
      {
        assert Init(log[..i + 1]) == log[..i] && Last(log[..i + 1]) == log[i];
        PrefixReplayable(log, i + 1);
        var receipt := rebuilt.IngestEvent(log[i], false);
        if receipt.Err? || !receipt.value.applied {
          assert false;
        }
      }
      assert log[..|log|] == log;
      return Ok(Project(Chain(rebuilt.state, rebuilt.receipts, rebuilt.appliedEvents, rebuilt.lastApplied), synthetic));
    }
  }

  /** The last applied event's receipt is the one its application wrote. */
  lemma LastReceiptFits(c: Chain, correlation: string)
    requires ChainInv(c, correlation) && c.state != Unknown
    ensures c.lastApplied.Some? && c.lastApplied.value in c.receipts
    ensures c.receipts[c.lastApplied.value].applied && c.receipts[c.lastApplied.value].after == c.state
  {
    var id := Last(c.applied).id;
    assert id in Replayed(c.applied).receipts;
    assert id in AppliedPart(c.receipts);
  }
}
