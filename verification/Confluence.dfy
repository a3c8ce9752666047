/** What a payment ends in, whatever the order and however often its events arrive, once what is held has been
    replayed. */
module Confluence {
  import opened Prelude
  import opened Reconciler

  /** One call of `ingest`. */
  datatype Delivery = Delivery(event: Event, replay: bool)

  function Run(c: Chain, ds: seq<Delivery>): Chain {
    if ds == [] then c else Ingest(Run(c, Init(ds)), Last(ds).event, Last(ds).replay).0
  }

  lemma {:induction false} RunKeepsInv(c: Chain, ds: seq<Delivery>, correlation: string)
    requires ChainInv(c, correlation) && forall d <- ds :: ValidEvent(d.event, correlation)
    ensures ChainInv(Run(c, ds), correlation)
  {
    if ds != [] {
      RunKeepsInv(c, Init(ds), correlation);
      IngestKeepsInv(Run(c, Init(ds)), Last(ds).event, Last(ds).replay, correlation);
    }
  }

  /** In every reachable chain the log is a legal path of distinct events that ends in the current state. */
  lemma ReachableLogIsPath(ds: seq<Delivery>, correlation: string)
    requires forall d <- ds :: ValidEvent(d.event, correlation)
    ensures var c := Run(START, ds);
            && LegalPath(c.applied) && DistinctIds(c.applied) && c.state == PathEnd(c.applied)
            && c.lastApplied == (if c.applied == [] then None else Some(Last(c.applied).id))
  {
    RunKeepsInv(START, ds, correlation);
    AppliedLogIsPath(Run(START, ds), correlation);
  }

  /** The revenue after any deliveries: nothing on synthetic evidence, otherwise the amount of one delivered receipt,
      and only while no refund or cancellation has been applied after it. */
  lemma ReachableRevenue(ds: seq<Delivery>, correlation: string, synthetic: bool)
    requires forall d <- ds :: ValidEvent(d.event, correlation)
    ensures var c := Run(START, ds);
            if synthetic || c.state != Received then Revenue(c, synthetic) == 0
            else && c.applied != [] && Last(c.applied).rawType == PaymentReceived
                 && Revenue(c, synthetic) == Last(c.applied).amountCents
                 && exists d :: d in ds && d.event == Last(c.applied)
  {
    RunKeepsInv(START, ds, correlation);
    RevenueIs(Run(START, ds), correlation, synthetic);
    AppliedLogIsPath(Run(START, ds), correlation);
    AppliedWereDelivered(ds);
  }

  lemma {:induction false} AppliedWereDelivered(ds: seq<Delivery>)
    ensures forall e <- Run(START, ds).applied :: exists d :: d in ds && d.event == e
  {
    if ds != [] {
      AppliedWereDelivered(Init(ds));
      assert ds == Init(ds) + [Last(ds)];
    }
  }

  // ---- Any collection of events ------------------------------------------------------------------

  /** Deliveries drawn from a collection in which each id names one event. */
  predicate Drawn(names: map<string, Event>, e: Event) {
    e.id in names && names[e.id] == e
  }

  predicate AllDrawn(names: map<string, Event>, ds: seq<Delivery>) {
    forall d <- ds :: Drawn(names, d.event)
  }

  predicate Terminal(state: FinancialState) {
    state in {Refunded, Canceled}
  }

  predicate HasKind(names: map<string, Event>, kind: FinancialState) {
    exists id :: id in names && Canonical(names[id].rawType) == kind
  }

  /** A state other than the start is the kind of some event, and so is what must have come before it. */
  predicate Grounded(state: FinancialState, names: map<string, Event>) {
    state != Unknown ==>
      && HasKind(names, Created) && HasKind(names, state)
      && (state == Received ==> HasKind(names, Confirmed) || HasKind(names, Overdue))
      && (state == Refunded ==> HasKind(names, Confirmed) || (HasKind(names, Overdue) && HasKind(names, Received)))
  }

  /** An event that is no longer held has been applied or overtaken, and a creation is never held. */
  predicate ReceiptsExplained(c: Chain, names: map<string, Event>) {
    forall id <- c.receipts ::
      && id in names
      && (!c.receipts[id].held ==> 0 < Order(Canonical(names[id].rawType)) <= Order(c.state))
      && (Canonical(names[id].rawType) == Created ==> !c.receipts[id].held)
  }

  /** What holds along every run. */
  predicate Explained(c: Chain, names: map<string, Event>) {
    Grounded(c.state, names) && ReceiptsExplained(c, names)
  }

  lemma IngestRises(c: Chain, e: Event, replay: bool)
    requires Ingest(c, e, replay).0.state != c.state
    ensures Ingest(c, e, replay).0.state == Canonical(e.rawType) && Canonical(e.rawType) in Successors(c.state)
  {
  }

  lemma RisesGrounded(state: FinancialState, next: FinancialState, names: map<string, Event>)
    requires Grounded(state, names) && HasKind(names, next) && next in Successors(state)
    ensures Grounded(next, names)
  {
  }

  lemma IngestReceipts(c: Chain, names: map<string, Event>, e: Event, replay: bool)
    requires ReceiptsExplained(c, names) && Drawn(names, e)
    ensures var t := Ingest(c, e, replay).0;
            && ReceiptsExplained(t, names) && Order(c.state) <= Order(t.state)
            && t.receipts.Keys == c.receipts.Keys + {e.id}
  {
  }

  lemma IngestExplained(c: Chain, names: map<string, Event>, e: Event, replay: bool)
    requires Explained(c, names) && Drawn(names, e)
    ensures var t := Ingest(c, e, replay).0;
            && Explained(t, names) && Order(c.state) <= Order(t.state) && (Terminal(c.state) ==> t.state == c.state)
            && t.receipts.Keys == c.receipts.Keys + {e.id}
  {
    var t := Ingest(c, e, replay).0;
    IngestReceipts(c, names, e, replay);
    if t.state != c.state {
      IngestRises(c, e, replay);
      assert HasKind(names, Canonical(e.rawType));
      RisesGrounded(c.state, t.state, names);
    }
  }

  /** A payment of this rank can take in an event of this kind, or is already past it: its predecessors are applied, it
      is a cancellation of a payment that has begun, or a refund that no overdue notice can keep out. */
  predicate Due(rank: nat, kind: FinancialState, names: map<string, Event>) {
    || rank + 1 >= Order(kind)
    || (kind == Canceled && rank >= 1)
    || (kind == Refunded && rank >= 2 && !HasKind(names, Overdue))
  }

  /** Replaying an event that is due leaves its own rank reached. */
  lemma ReplayAdvances(c: Chain, names: map<string, Event>, e: Event)
    requires Explained(c, names) && Drawn(names, e)
    requires Canonical(e.rawType) != Unknown && Due(Order(c.state), Canonical(e.rawType), names)
    ensures Order(Ingest(c, e, true).0.state) >= Order(Canonical(e.rawType))
  {
  }

  lemma {:induction false} RunExplained(c: Chain, names: map<string, Event>, ds: seq<Delivery>)
    requires Explained(c, names) && AllDrawn(names, ds)
    ensures Explained(Run(c, ds), names) && Order(c.state) <= Order(Run(c, ds).state)
    ensures Terminal(c.state) ==> Run(c, ds).state == c.state
    ensures c.receipts.Keys <= Run(c, ds).receipts.Keys
    ensures forall d <- ds :: d.event.id in Run(c, ds).receipts
  {
    if ds != [] {
      RunExplained(c, names, Init(ds));
      IngestExplained(Run(c, Init(ds)), names, Last(ds).event, Last(ds).replay);
    }
  }

  lemma {:induction false} RunAppend(c: Chain, a: seq<Delivery>, b: seq<Delivery>)
    ensures Run(c, a + b) == Run(Run(c, a), b)
  {
    if b == [] {
      assert a + b == a;
    } else {
      RunAppend(c, a, Init(b));
      assert Init(a + b) == a + Init(b);
    }
  }

  /** A replay of everything held, in any order, with any repetition. */
  predicate ReplaysHeld(c: Chain, pass: seq<Delivery>) {
    && (forall d <- pass :: d.replay)
    && (forall id <- c.receipts :: c.receipts[id].held ==> exists d :: d in pass && d.event.id == id)
  }

  lemma RunOne(c: Chain, d: Delivery)
    ensures Run(c, [d]) == Ingest(c, d.event, d.replay).0
  {
    assert Init([d]) == [] && Last([d]) == d;
    assert Run(c, []) == c;
  }

  /** A pass that replays an event somewhere leaves that event's rank reached. */
  lemma PassReplays(c: Chain, names: map<string, Event>, pass: seq<Delivery>, i: nat)
    requires Explained(c, names) && AllDrawn(names, pass) && i < |pass| && pass[i].replay
    requires Canonical(pass[i].event.rawType) != Unknown
    requires Due(Order(c.state), Canonical(pass[i].event.rawType), names)
    ensures Order(Run(c, pass).state) >= Order(Canonical(pass[i].event.rawType))
  {
    var before, d, after := pass[..i], pass[i], pass[i + 1..];
    assert pass == before + [d] + after;
    RunAppend(c, before + [d], after);
    RunAppend(c, before, [d]);
    RunExplained(c, names, before);
    var mid := Run(c, before);
    RunOne(mid, d);
    ReplayAdvances(mid, names, d.event);
    IngestExplained(mid, names, d.event, true);
    RunExplained(Run(mid, [d]), names, after);
  }

  /** A pass takes the payment to the rank of any event that has been delivered and is due. */
  lemma PassAdvances(c: Chain, names: map<string, Event>, pass: seq<Delivery>, e: Event)
    requires Explained(c, names) && AllDrawn(names, pass) && ReplaysHeld(c, pass)
    requires Drawn(names, e) && e.id in c.receipts && Canonical(e.rawType) != Unknown
    requires Due(Order(c.state), Canonical(e.rawType), names)
    ensures Order(Run(c, pass).state) >= Order(Canonical(e.rawType))
  {
    if c.receipts[e.id].held {
      var d :| d in pass && d.event.id == e.id;
      var i :| 0 <= i < |pass| && pass[i] == d;
      assert Drawn(names, d.event) && d.event == e;
      PassReplays(c, names, pass, i);
    } else {
      RunExplained(c, names, pass);
    }
  }

  // ---- Convergence -------------------------------------------------------------------------------

  /** Every event of the collection is delivered at least once, in whatever order. */
  predicate Delivers(names: map<string, Event>, ds: seq<Delivery>) {
    AllDrawn(names, ds) && forall id <- names :: exists d :: d in ds && d.event.id == id
  }

  /** All events, then so many passes over what is held, then whatever else arrives. */
  predicate Settles(names: map<string, Event>, ds: seq<Delivery>, pass1: seq<Delivery>, pass2: seq<Delivery>,
          pass3: seq<Delivery>, more: seq<Delivery>)
  {
    && Delivers(names, ds) && AllDrawn(names, pass1) && AllDrawn(names, pass2) && AllDrawn(names, pass3)
    && AllDrawn(names, more)
    && ReplaysHeld(Run(START, ds), pass1) && ReplaysHeld(Run(Run(START, ds), pass1), pass2)
    && ReplaysHeld(Run(Run(Run(START, ds), pass1), pass2), pass3)
  }

  lemma KindDelivered(names: map<string, Event>, ds: seq<Delivery>, kind: FinancialState) returns (e: Event)
    requires Delivers(names, ds) && HasKind(names, kind)
    ensures Drawn(names, e) && Canonical(e.rawType) == kind && e.id in Run(START, ds).receipts
  {
    var id :| id in names && Canonical(names[id].rawType) == kind;
    var d :| d in ds && d.event.id == id;
    assert Drawn(names, d.event);
    e := d.event;
    RunExplained(START, names, ds);
  }

  /** A chain to which everything has been delivered. */
  predicate Reached(c: Chain, names: map<string, Event>, ds: seq<Delivery>) {
    Explained(c, names) && Run(START, ds).receipts.Keys <= c.receipts.Keys
  }

  /** After a pass the rank of every kind that was due is reached. */
  lemma PassReaches(names: map<string, Event>, ds: seq<Delivery>, c: Chain, pass: seq<Delivery>, kind: FinancialState)
    requires Delivers(names, ds) && Reached(c, names, ds) && AllDrawn(names, pass) && ReplaysHeld(c, pass)
    requires kind != Unknown
    ensures Reached(Run(c, pass), names, ds) && Order(Run(c, pass).state) >= Order(c.state)
    ensures HasKind(names, kind) && Due(Order(c.state), kind, names) ==> Order(Run(c, pass).state) >= Order(kind)
  {
    RunExplained(c, names, pass);
    if HasKind(names, kind) && Due(Order(c.state), kind, names) {
      var e := KindDelivered(names, ds, kind);
      PassAdvances(c, names, pass, e);
    }
  }

  /** What the kinds alone say of the rank a payment comes to: after one pass, two and three. */
  predicate FirstRank(rank: nat, names: map<string, Event>) {
    HasKind(names, Created) ==>
      && rank >= 1
      && (HasKind(names, Confirmed) || HasKind(names, Overdue) ==> rank >= 2)
      && (HasKind(names, Canceled) ==> rank >= 4)
  }

  predicate SecondRank(rank: nat, names: map<string, Event>) {
    HasKind(names, Created) && (HasKind(names, Confirmed) || HasKind(names, Overdue)) ==>
      && (HasKind(names, Received) ==> rank >= 3)
      && (HasKind(names, Refunded) && !HasKind(names, Overdue) ==> rank >= 4)
  }

  predicate ThirdRank(rank: nat, names: map<string, Event>) {
    (&& HasKind(names, Created) && (HasKind(names, Confirmed) || HasKind(names, Overdue))
     && HasKind(names, Received) && HasKind(names, Refunded)) ==> rank >= 4
  }

  lemma DeliveredBegins(names: map<string, Event>, ds: seq<Delivery>)
    requires Delivers(names, ds)
    ensures Reached(Run(START, ds), names, ds) && (HasKind(names, Created) ==> Order(Run(START, ds).state) >= 1)
  {
    RunExplained(START, names, ds);
    if HasKind(names, Created) {
      var created := KindDelivered(names, ds, Created);
    }
  }

  lemma FirstPass(names: map<string, Event>, ds: seq<Delivery>, c: Chain, pass: seq<Delivery>)
    requires Delivers(names, ds) && Reached(c, names, ds) && AllDrawn(names, pass) && ReplaysHeld(c, pass)
    requires HasKind(names, Created) ==> Order(c.state) >= 1
    ensures Reached(Run(c, pass), names, ds) && FirstRank(Order(Run(c, pass).state), names)
  {
    PassReaches(names, ds, c, pass, Confirmed);
    PassReaches(names, ds, c, pass, Overdue);
    PassReaches(names, ds, c, pass, Canceled);
  }

  lemma SecondPass(names: map<string, Event>, ds: seq<Delivery>, c: Chain, pass: seq<Delivery>)
    requires Delivers(names, ds) && Reached(c, names, ds) && AllDrawn(names, pass) && ReplaysHeld(c, pass)
    requires FirstRank(Order(c.state), names)
    ensures Reached(Run(c, pass), names, ds) && Order(Run(c, pass).state) >= Order(c.state)
    ensures SecondRank(Order(Run(c, pass).state), names)
  {
    PassReaches(names, ds, c, pass, Received);
    PassReaches(names, ds, c, pass, Refunded);
  }

  lemma ThirdPass(names: map<string, Event>, ds: seq<Delivery>, c: Chain, pass: seq<Delivery>)
    requires Delivers(names, ds) && Reached(c, names, ds) && AllDrawn(names, pass) && ReplaysHeld(c, pass)
    requires SecondRank(Order(c.state), names)
    ensures Reached(Run(c, pass), names, ds) && Order(Run(c, pass).state) >= Order(c.state)
    ensures ThirdRank(Order(Run(c, pass).state), names)
  {
    PassReaches(names, ds, c, pass, Refunded);
  }

  /** What a payment ends in, read off the kinds of its events alone: a cancellation beats everything; a payment that
      was confirmed or fell overdue is received, and refunded, when it can be; what cannot go on stays where it is. */
  function Outcome(names: map<string, Event>): FinancialState {
    if !HasKind(names, Created) then Unknown
    else if HasKind(names, Canceled) then Canceled
    else if HasKind(names, Received) && (HasKind(names, Confirmed) || HasKind(names, Overdue)) then
      if HasKind(names, Refunded) then Refunded else Received
    else if HasKind(names, Received) then Created
    else if HasKind(names, Confirmed) then if HasKind(names, Refunded) then Refunded else Confirmed
    else if HasKind(names, Overdue) then Overdue
    else Created
  }

  /** The collections that race. A refund that can be reached races with a cancellation; and a confirmation races with
      an overdue notice, as long as no receipt and no cancellation overrules both. */
  predicate Races(names: map<string, Event>) {
    && HasKind(names, Created)
    && (|| (HasKind(names, Refunded) && HasKind(names, Canceled)
            && (HasKind(names, Confirmed) || (HasKind(names, Overdue) && HasKind(names, Received))))
        || (HasKind(names, Confirmed) && HasKind(names, Overdue)
            && !HasKind(names, Received) && !HasKind(names, Canceled)))
  }

  lemma RanksDecide(state: FinancialState, names: map<string, Event>)
    requires Grounded(state, names) && !Races(names)
    requires FirstRank(Order(state), names) && SecondRank(Order(state), names)
    requires ThirdRank(Order(state), names) || Outcome(names) != Refunded
    ensures state == Outcome(names)
  {
  }

  /** Confluence: once every event of a collection has been delivered, in any order and any number of times, three
      passes over what is held end in the state its kinds decide, and nothing that arrives later from the collection
      changes it, unless the collection races. Two passes are enough when the payment does not end refunded. */
  lemma DeliveriesConverge(names: map<string, Event>, ds: seq<Delivery>, pass1: seq<Delivery>, pass2: seq<Delivery>,
          pass3: seq<Delivery>, more: seq<Delivery>)
    requires !Races(names) && Settles(names, ds, pass1, pass2, pass3, more)
    ensures Run(START, ds + pass1 + pass2 + pass3 + more).state == Outcome(names)
    ensures Outcome(names) != Refunded ==> Run(START, ds + pass1 + pass2).state == Outcome(names)
  {
    var c0 := Run(START, ds);
    var c1 := Run(c0, pass1);
    var c2 := Run(c1, pass2);
    var c3 := Run(c2, pass3);
    DeliveredBegins(names, ds);
    FirstPass(names, ds, c0, pass1);
    SecondPass(names, ds, c1, pass2);
    ThirdPass(names, ds, c2, pass3);
    RunExplained(c3, names, more);
    RunAppend(START, ds, pass1);
    RunAppend(START, ds + pass1, pass2);
    RunAppend(START, ds + pass1 + pass2, pass3);
    RunAppend(START, ds + pass1 + pass2 + pass3, more);
    RanksDecide(Run(c3, more).state, names);
    if Outcome(names) != Refunded {
      RanksDecide(c2.state, names);
    }
  }

  // ---- Whole payments ----------------------------------------------------------------------------

  /** The collection holds a whole payment: created, confirmed and received. */
  predicate Whole(names: map<string, Event>) {
    HasKind(names, Created) && HasKind(names, Confirmed) && HasKind(names, Received)
  }

  /** A whole payment races exactly when it is both refunded and canceled. */
  lemma WholeRacesIff(names: map<string, Event>)
    requires Whole(names)
    ensures Races(names) <==> HasKind(names, Refunded) && HasKind(names, Canceled)
    ensures !HasKind(names, Refunded) && !HasKind(names, Canceled) ==> Outcome(names) == Received
  {
  }

  // ---- When one pass is enough -------------------------------------------------------------------

  /** The pass replays an event of the second rank, a confirmation or an overdue notice, before a receipt. */
  predicate ReplaysInOrder(pass: seq<Delivery>) {
    exists i, j :: 0 <= i < j < |pass| && Order(Canonical(pass[i].event.rawType)) == 2
        && Canonical(pass[j].event.rawType) == Received
  }

  predicate ReplaysSecondRank(pass: seq<Delivery>) {
    exists i :: 0 <= i < |pass| && Order(Canonical(pass[i].event.rawType)) == 2
  }

  lemma PrefixInOrder(init: seq<Delivery>, pass: seq<Delivery>)
    requires init <= pass
    ensures ReplaysSecondRank(init) ==> ReplaysSecondRank(pass)
    ensures ReplaysInOrder(init) ==> ReplaysInOrder(pass)
  {
    assert forall i :: 0 <= i < |init| ==> init[i] == pass[i];
  }

  lemma LastInOrder(pass: seq<Delivery>, rank: nat)
    requires pass != [] && (rank >= 2 ==> ReplaysSecondRank(Init(pass)))
    ensures Order(Canonical(Last(pass).event.rawType)) == 2 ==> ReplaysSecondRank(pass)
    ensures rank >= 2 && Canonical(Last(pass).event.rawType) == Received ==>
            ReplaysInOrder(pass) && ReplaysSecondRank(pass)
  {
    var n := |pass| - 1;
    assert pass[n] == Last(pass);
    if rank >= 2 {
      var i :| 0 <= i < n && Order(Canonical(Init(pass)[i].event.rawType)) == 2;
      assert pass[i] == Init(pass)[i];
    }
  }

  /** From a created payment the state can only have risen by what the deliveries hold, in that order. */
  lemma {:induction false} RisesInOrder(c: Chain, names: map<string, Event>, pass: seq<Delivery>)
    requires Explained(c, names) && AllDrawn(names, pass) && c.state == Created
    requires !HasKind(names, Refunded) && !HasKind(names, Canceled)
    ensures Order(Run(c, pass).state) >= 2 ==> ReplaysSecondRank(pass)
    ensures Order(Run(c, pass).state) >= 3 ==> ReplaysInOrder(pass)
  {
    if pass != [] {
      var init, d := Init(pass), Last(pass);
      RisesInOrder(c, names, init);
      RunExplained(c, names, init);
      RunExplained(c, names, pass);
      PrefixInOrder(init, pass);
      var before := Run(c, init);
      if Run(c, pass).state != before.state {
        IngestRises(before, d.event, d.replay);
        LastInOrder(pass, Order(before.state));
      }
    }
  }

  lemma OrderSuffices(c: Chain, names: map<string, Event>, pass: seq<Delivery>)
    requires Explained(c, names) && AllDrawn(names, pass) && Order(c.state) >= 1
    requires ReplaysInOrder(pass) && forall d <- pass :: d.replay
    ensures Order(Run(c, pass).state) >= 3
  {
    var i, j :|
      && 0 <= i < j < |pass| && Order(Canonical(pass[i].event.rawType)) == 2
      && Canonical(pass[j].event.rawType) == Received;
    var a, b := pass[..j], pass[j..];
    assert pass == a + b;
    RunAppend(c, a, b);
    assert a[i] == pass[i];
    PassReplays(c, names, a, i);
    RunExplained(c, names, a);
    ReceiptSuffices(Run(c, a), names, b);
  }

  lemma ReceiptSuffices(c: Chain, names: map<string, Event>, pass: seq<Delivery>)
    requires Explained(c, names) && AllDrawn(names, pass) && Order(c.state) >= 2
    requires pass != [] && pass[0].replay && Canonical(pass[0].event.rawType) == Received
    ensures Order(Run(c, pass).state) >= 3
  {
    PassReplays(c, names, pass, 0);
  }

  /** Without refunds and cancellations, one pass settles a whole payment exactly when it had been confirmed, found
      overdue or received before, or the pass replays such an event before a receipt: an order the caller chooses. */
  lemma OnePassReceivesIff(names: map<string, Event>, ds: seq<Delivery>, pass: seq<Delivery>)
    requires Whole(names) && !HasKind(names, Refunded) && !HasKind(names, Canceled) && Delivers(names, ds)
    requires AllDrawn(names, pass) && ReplaysHeld(Run(START, ds), pass)
    ensures Run(START, ds).state in {Created, Confirmed, Overdue, Received}
    ensures Run(START, ds + pass).state == Received <==> Run(START, ds).state != Created || ReplaysInOrder(pass)
  {
    var created := KindDelivered(names, ds, Created);
    var received := KindDelivered(names, ds, Received);
    var c := Run(START, ds);
    RunExplained(START, names, ds);
    RunExplained(c, names, pass);
    RunAppend(START, ds, pass);
    if c.state != Created {
      PassAdvances(c, names, pass, received);
    } else if ReplaysInOrder(pass) {
      OrderSuffices(c, names, pass);
    } else {
      RisesInOrder(c, names, pass);
    }
  }

  // ---- The straight payment ----------------------------------------------------------------------

  /** Created, confirmed and received only; events of no known type may be mixed in. */
  predicate Straight(names: map<string, Event>) {
    forall id <- names :: Canonical(names[id].rawType) in {Unknown, Created, Confirmed, Received}
  }

  const STEPS := [Created, Confirmed, Received]

  function Kinds(log: seq<Event>): seq<FinancialState> {
    seq(|log|, i requires 0 <= i < |log| => Canonical(log[i].rawType))
  }

  /** The log is the three steps as far as the payment has come. */
  predicate InStep(c: Chain) {
    c.state in {Unknown, Created, Confirmed, Received} && Kinds(c.applied) == STEPS[..Order(c.state)]
  }

  lemma IngestInStep(c: Chain, names: map<string, Event>, e: Event, replay: bool)
    requires InStep(c) && Straight(names) && Drawn(names, e)
    ensures InStep(Ingest(c, e, replay).0)
  {
    var t := Ingest(c, e, replay).0;
    if t.state != c.state {
      assert Order(t.state) == Order(c.state) + 1;
      assert Kinds(t.applied) == Kinds(c.applied) + [t.state];
    }
  }

  lemma {:induction false} StraightRunsInStep(names: map<string, Event>, ds: seq<Delivery>)
    requires Straight(names) && AllDrawn(names, ds)
    ensures InStep(Run(START, ds))
  {
    if ds != [] {
      StraightRunsInStep(names, Init(ds));
      IngestInStep(Run(START, Init(ds)), names, Last(ds).event, Last(ds).replay);
    }
  }

  /** A straight payment is received after two passes, with each step applied exactly once, in order. */
  lemma StraightLogIsExact(names: map<string, Event>, ds: seq<Delivery>, pass1: seq<Delivery>, pass2: seq<Delivery>)
    requires Whole(names) && Straight(names) && Delivers(names, ds) && AllDrawn(names, pass1) && AllDrawn(names, pass2)
    requires ReplaysHeld(Run(START, ds), pass1) && ReplaysHeld(Run(Run(START, ds), pass1), pass2)
    ensures var end := Run(START, ds + pass1 + pass2);
            end.state == Received && Kinds(end.applied) == STEPS
  {
    DeliveredBegins(names, ds);
    FirstPass(names, ds, Run(START, ds), pass1);
    SecondPass(names, ds, Run(Run(START, ds), pass1), pass2);
    RunAppend(START, ds, pass1);
    RunAppend(START, ds + pass1, pass2);
    StraightRunsInStep(names, ds + pass1 + pass2);
  }

  /** The receipt of an event whose predecessor is missing. */
  function HeldFor(e: Event, state: FinancialState): Receipt {
    Receipt(e.id, Canonical(e.rawType), state, state, Held, false, true, false,
        MissingPredecessor(Canonical(e.rawType)))
  }

  /** Everything arrives backwards: the first two events are held, and only the creation is applied. */
  lemma BackwardArrivals(received: Event, confirmed: Event, created: Event)
    requires Canonical(received.rawType) == Received && Canonical(confirmed.rawType) == Confirmed
    requires Canonical(created.rawType) == Created
    requires received.id != confirmed.id && received.id != created.id && confirmed.id != created.id
    ensures Run(START, [Delivery(received, false), Delivery(confirmed, false), Delivery(created, false)]) ==
            Chain(Created, map[received.id := HeldFor(received, Unknown), confirmed.id := HeldFor(confirmed, Unknown),
                               created.id := Judge(START, created)], [created], Some(created.id))
  {
    var r, f, k := Delivery(received, false), Delivery(confirmed, false), Delivery(created, false);
    RunOne(START, r);
    RunMore(START, [r], f);
    RunMore(START, [r, f], k);
    assert [r] + [f] == [r, f] && [r, f] + [k] == [r, f, k];
  }

  /** One pass is not enough: everything arrives backwards and the pass runs in the order of arrival. */
  lemma OnePassIsNotEnough(received: Event, confirmed: Event, created: Event)
    requires Canonical(received.rawType) == Received && Canonical(confirmed.rawType) == Confirmed
    requires Canonical(created.rawType) == Created
    requires received.id != confirmed.id && received.id != created.id && confirmed.id != created.id
    ensures var ds := [Delivery(received, false), Delivery(confirmed, false), Delivery(created, false)];
            var pass := [Delivery(received, true), Delivery(confirmed, true)];
            ReplaysHeld(Run(START, ds), pass) && Run(START, ds + pass).state == Confirmed
  {
    var ds := [Delivery(received, false), Delivery(confirmed, false), Delivery(created, false)];
    var r, f := Delivery(received, true), Delivery(confirmed, true);
    BackwardArrivals(received, confirmed, created);
    RunAppend(START, ds, [r, f]);
    RunOne(Run(START, ds), r);
    RunMore(Run(START, ds), [r], f);
    assert [r] + [f] == [r, f];
    assert r in [r, f] && f in [r, f];
  }

  lemma RunMore(c: Chain, ds: seq<Delivery>, d: Delivery)
    ensures Run(c, ds + [d]) == Ingest(Run(c, ds), d.event, d.replay).0
  {
    assert Init(ds + [d]) == ds && Last(ds + [d]) == d;
  }

  /** Refunds and cancellations do not converge: from a confirmed payment, whichever is taken in first is final. */
  lemma TerminalEventsRace(c: Chain, refund: Event, cancel: Event)
    requires c.state == Confirmed && refund.id !in c.receipts && cancel.id !in c.receipts && refund.id != cancel.id
    requires Canonical(refund.rawType) == Refunded && Canonical(cancel.rawType) == Canceled
    ensures var a, b := Delivery(refund, false), Delivery(cancel, false);
            Run(c, [a, b]).state == Refunded && Run(c, [b, a]).state == Canceled
  {
    var a, b := Delivery(refund, false), Delivery(cancel, false);
    assert Init([a, b]) == [a] && Init([b, a]) == [b] && Init([a]) == [] && Init([b]) == [];
    assert Run(c, []) == c;
    assert Run(c, [a]) == Ingest(c, refund, false).0 && Run(c, [b]) == Ingest(c, cancel, false).0;
  }
}
