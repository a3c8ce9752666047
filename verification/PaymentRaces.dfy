/** Exactly which collections of payment events end differently for different orders of delivery. */
module PaymentRaces {
  import opened Prelude
  import opened Reconciler
  import opened Confluence

  // ---- All events, in some order -----------------------------------------------------------------

  predicate Keyed(names: map<string, Event>) {
    forall id <- names :: names[id].id == id
  }

  /** Some order of delivery, settled by three passes, ends in the state. */
  ghost predicate CanEnd(names: map<string, Event>, state: FinancialState) {
    exists ds: seq<Delivery>, pass1: seq<Delivery>, pass2: seq<Delivery>, pass3: seq<Delivery>, more: seq<Delivery> ::
      Settles(names, ds, pass1, pass2, pass3, more) && Run(START, ds + pass1 + pass2 + pass3 + more).state == state
  }

  /** Every event of the collection once. */
  ghost function AllOf(names: map<string, Event>, replay: bool): seq<Delivery> {
    if names.Keys == {} then []
    else
      var id :| id in names.Keys;
      AllOf(names - {id}, replay) + [Delivery(names[id], replay)]
  }

  lemma {:induction false} AllOfHas(names: map<string, Event>, replay: bool, k: string)
    requires k in names
    ensures Delivery(names[k], replay) in AllOf(names, replay)
    decreases |names|
  {
    var id :| id in names.Keys && AllOf(names, replay) == AllOf(names - {id}, replay) + [Delivery(names[id], replay)];
    if k == id {
      assert Last(AllOf(names, replay)) == Delivery(names[k], replay);
    } else {
      AllOfHas(names - {id}, replay, k);
    }
  }

  lemma {:induction false} AllOfOnly(names: map<string, Event>, replay: bool, d: Delivery)
    requires Keyed(names) && d in AllOf(names, replay)
    ensures d.replay == replay && Drawn(names, d.event)
    decreases |names|
  {
    var id :| id in names.Keys && AllOf(names, replay) == AllOf(names - {id}, replay) + [Delivery(names[id], replay)];
    if d != Delivery(names[id], replay) {
      AllOfOnly(names - {id}, replay, d);
    }
  }

  lemma AllOfDelivers(names: map<string, Event>, replay: bool)
    requires Keyed(names)
    ensures Delivers(names, AllOf(names, replay)) && forall d <- AllOf(names, replay) :: d.replay == replay
  {
    forall d | d in AllOf(names, replay)
      ensures d.replay == replay && Drawn(names, d.event)
    {
      AllOfOnly(names, replay, d);
    }
    forall k | k in names
      ensures exists d :: d in AllOf(names, replay) && d.event.id == k
    {
      AllOfHas(names, replay, k);
      assert Delivery(names[k], replay).event.id == k;
    }
  }

  // ---- States that stand -------------------------------------------------------------------------

  /** Every event of a kind has been taken in and is no longer held. */
  predicate Consumed(c: Chain, names: map<string, Event>, kind: FinancialState) {
    forall id <- names :: Canonical(names[id].rawType) == kind ==> id in c.receipts && !c.receipts[id].held
  }

  /** No event of the collection can move the payment: it is terminal, or it is confirmed, or overdue, with everything
      of the other kind consumed and nothing that could take it further. */
  predicate Stands(c: Chain, names: map<string, Event>) {
    || Terminal(c.state)
    || (c.state == Overdue && Consumed(c, names, Confirmed) && !HasKind(names, Received) && !HasKind(names, Canceled))
    || (c.state == Confirmed && Consumed(c, names, Overdue) && !HasKind(names, Received) && !HasKind(names, Canceled)
        && !HasKind(names, Refunded))
  }

  lemma IngestConsumed(c: Chain, names: map<string, Event>, e: Event, replay: bool, kind: FinancialState)
    requires Consumed(c, names, kind) && Drawn(names, e)
    ensures Consumed(Ingest(c, e, replay).0, names, kind)
    ensures Canonical(e.rawType) == kind ==> Ingest(c, e, replay).0 == c
  {
  }

  lemma IngestStands(c: Chain, names: map<string, Event>, e: Event, replay: bool)
    requires Stands(c, names) && Drawn(names, e)
    ensures Stands(Ingest(c, e, replay).0, names) && Ingest(c, e, replay).0.state == c.state
  {
    assert HasKind(names, Canonical(e.rawType));
    if c.state == Overdue {
      IngestConsumed(c, names, e, replay, Confirmed);
    } else if c.state == Confirmed {
      IngestConsumed(c, names, e, replay, Overdue);
    }
  }

  lemma {:induction false} RunStands(c: Chain, names: map<string, Event>, ds: seq<Delivery>)
    requires Stands(c, names) && AllDrawn(names, ds)
    ensures Stands(Run(c, ds), names) && Run(c, ds).state == c.state
  {
    if ds != [] {
      RunStands(c, names, Init(ds));
      IngestStands(Run(c, Init(ds)), names, Last(ds).event, Last(ds).replay);
    }
  }

  /** A state that stands does so through passes over everything. */
  lemma PassStands(c: Chain, names: map<string, Event>)
    requires Keyed(names) && Explained(c, names) && Stands(c, names)
    ensures AllDrawn(names, AllOf(names, true)) && ReplaysHeld(c, AllOf(names, true))
    ensures var t := Run(c, AllOf(names, true)); Explained(t, names) && Stands(t, names) && t.state == c.state
  {
    AllOfDelivers(names, true);
    RunExplained(c, names, AllOf(names, true));
    RunStands(c, names, AllOf(names, true));
  }

  lemma ThreePasses(ds: seq<Delivery>, pass: seq<Delivery>)
    ensures Run(START, ds + pass + pass + pass + []) == Run(Run(Run(Run(START, ds), pass), pass), pass)
  {
    RunAppend(START, ds, pass);
    RunAppend(START, ds + pass, pass);
    RunAppend(START, ds + pass + pass, pass);
    assert ds + pass + pass + pass + [] == ds + pass + pass + pass;
  }

  lemma StandingCanEnd(names: map<string, Event>, ds: seq<Delivery>)
    requires Keyed(names) && Delivers(names, ds) && Stands(Run(START, ds), names)
    ensures CanEnd(names, Run(START, ds).state)
  {
    var pass := AllOf(names, true);
    var c0 := Run(START, ds);
    RunExplained(START, names, ds);
    PassStands(c0, names);
    PassStands(Run(c0, pass), names);
    PassStands(Run(Run(c0, pass), pass), names);
    ThreePasses(ds, pass);
    assert Settles(names, ds, pass, pass, pass, []);
  }

  /** What stands after some first deliveries can be the end: deliver everything else afterwards. */
  lemma FirstCanEnd(names: map<string, Event>, first: seq<Delivery>)
    requires Keyed(names) && AllDrawn(names, first) && Stands(Run(START, first), names)
    ensures CanEnd(names, Run(START, first).state)
  {
    var rest := AllOf(names, false);
    AllOfDelivers(names, false);
    RunAppend(START, first, rest);
    RunStands(Run(START, first), names, rest);
    assert forall d <- rest :: d in first + rest;
    StandingCanEnd(names, first + rest);
  }

  // ---- Refund against cancellation ---------------------------------------------------------------

  /** Deliveries of new events, one after the other. */
  function Fresh(es: seq<Event>): seq<Delivery> {
    if es == [] then [] else Fresh(Init(es)) + [Delivery(Last(es), false)]
  }

  lemma {:induction false} FreshReplays(es: seq<Event>)
    ensures Run(START, Fresh(es)) == Replayed(es)
  {
    if es != [] {
      FreshReplays(Init(es));
      RunMore(START, Fresh(Init(es)), Delivery(Last(es), false));
    }
  }

  lemma {:induction false} FreshDrawn(names: map<string, Event>, es: seq<Event>)
    requires forall e <- es :: Drawn(names, e)
    ensures AllDrawn(names, Fresh(es))
  {
    if es != [] {
      assert es == Init(es) + [Last(es)];
      FreshDrawn(names, Init(es));
    }
  }

  /** The end of a legal path that stands can be the end of the payment. */
  lemma PathCanEnd(names: map<string, Event>, es: seq<Event>)
    requires Keyed(names) && LegalPath(es) && DistinctIds(es) && forall e <- es :: Drawn(names, e)
    requires Terminal(PathEnd(es))
    ensures CanEnd(names, PathEnd(es))
  {
    FreshReplays(es);
    FreshDrawn(names, es);
    ReplayableIff(es);
    ReplayedFacts(es);
    FirstCanEnd(names, Fresh(es));
  }

  /** A legal path of events of the collection, none taken twice. */
  predicate PathOf(names: map<string, Event>, es: seq<Event>) {
    LegalPath(es) && DistinctIds(es) && forall e <- es :: Drawn(names, e)
  }

  predicate Lacks(es: seq<Event>, kind: FinancialState) {
    forall e <- es :: Canonical(e.rawType) != kind
  }

  /** A path goes on by an event of a kind that it lacks, when that is a legal step. */
  lemma PathGrows(names: map<string, Event>, es: seq<Event>, kind: FinancialState) returns (longer: seq<Event>)
    requires Keyed(names) && PathOf(names, es) && HasKind(names, kind) && Lacks(es, kind)
    requires kind in Successors(PathEnd(es))
    ensures PathOf(names, longer) && PathEnd(longer) == kind
    ensures forall other :: other != kind && Lacks(es, other) ==> Lacks(longer, other)
  {
    var id :| id in names && Canonical(names[id].rawType) == kind;
    var e := names[id];
    longer := es + [e];
    assert Init(longer) == es && Last(longer) == e;
    forall i | 0 <= i < |es|
      ensures es[i].id != e.id
    {
      assert es[i] in es;
    }
  }

  lemma CancelCanEnd(names: map<string, Event>)
    requires Keyed(names) && HasKind(names, Created) && HasKind(names, Canceled)
    ensures CanEnd(names, Canceled)
  {
    var es := PathGrows(names, [], Created);
    es := PathGrows(names, es, Canceled);
    PathCanEnd(names, es);
  }

  lemma RefundAfterConfirmation(names: map<string, Event>)
    requires Keyed(names) && HasKind(names, Created) && HasKind(names, Confirmed) && HasKind(names, Refunded)
    ensures CanEnd(names, Refunded)
  {
    var es := PathGrows(names, [], Created);
    es := PathGrows(names, es, Confirmed);
    es := PathGrows(names, es, Refunded);
    PathCanEnd(names, es);
  }

  lemma RefundAfterOverdue(names: map<string, Event>)
    requires Keyed(names) && HasKind(names, Created) && HasKind(names, Overdue)
    requires HasKind(names, Received) && HasKind(names, Refunded)
    ensures CanEnd(names, Refunded)
  {
    var es := PathGrows(names, [], Created);
    es := PathGrows(names, es, Overdue);
    es := PathGrows(names, es, Received);
    es := PathGrows(names, es, Refunded);
    PathCanEnd(names, es);
  }

  // ---- Confirmation against overdue notice -------------------------------------------------------

  function OfKind(names: map<string, Event>, kind: FinancialState): map<string, Event> {
    map id | id in names && Canonical(names[id].rawType) == kind :: names[id]
  }

  /** None of the events of a kind is held. */
  predicate NoneHeld(c: Chain, kinds: map<string, Event>) {
    forall id <- c.receipts :: id in kinds ==> !c.receipts[id].held
  }

  /** Along deliveries of one kind of the second rank, a created payment takes in the first and holds none. */
  lemma {:induction false} RunOfKind(c: Chain, names: map<string, Event>, kind: FinancialState, ds: seq<Delivery>)
    requires kind in {Confirmed, Overdue} && c.state == Created && AllDrawn(OfKind(names, kind), ds)
    requires forall id <- c.receipts :: id !in OfKind(names, kind)
    ensures Run(c, ds).state == (if ds == [] then Created else kind)
    ensures NoneHeld(Run(c, ds), OfKind(names, kind))
  {
    if ds != [] {
      RunOfKind(c, names, kind, Init(ds));
      assert Last(ds) in ds;
    }
  }

  /** A created payment takes in everything of one kind, and then one event of the other. */
  function OneLast(created: Event, all: seq<Delivery>, last: Event): seq<Delivery> {
    [Delivery(created, false)] + all + [Delivery(last, false)]
  }

  /** Events of a kind are events of the collection. */
  lemma KindDrawn(names: map<string, Event>, kind: FinancialState, ds: seq<Delivery>)
    requires AllDrawn(OfKind(names, kind), ds)
    ensures AllDrawn(names, ds)
  {
    forall d | d in ds
      ensures Drawn(names, d.event)
    {
      assert Drawn(OfKind(names, kind), d.event);
    }
  }

  lemma ConsumedIs(names: map<string, Event>, c: Chain, kind: FinancialState)
    requires NoneHeld(c, OfKind(names, kind)) && forall id <- OfKind(names, kind) :: id in c.receipts
    ensures Consumed(c, names, kind)
  {
    forall id | id in names && Canonical(names[id].rawType) == kind
      ensures id in c.receipts && !c.receipts[id].held
    {
      assert id in OfKind(names, kind);
    }
  }

  /** Delivering all events of a collection leaves a receipt for each. */
  lemma DeliveredAll(c: Chain, names: map<string, Event>, kinds: map<string, Event>, ds: seq<Delivery>)
    requires Explained(c, names) && AllDrawn(names, ds) && Delivers(kinds, ds)
    ensures forall id <- kinds :: id in Run(c, ds).receipts
  {
    RunExplained(c, names, ds);
    forall id | id in kinds
      ensures id in Run(c, ds).receipts
    {
      var d :| d in ds && d.event.id == id;
    }
  }

  lemma SomeOfKind(names: map<string, Event>, kind: FinancialState)
    requires Keyed(names) && HasKind(names, kind)
    ensures AllOf(OfKind(names, kind), false) != []
  {
    var id :| id in names && Canonical(names[id].rawType) == kind;
    AllOfHas(OfKind(names, kind), false, id);
  }

  lemma AllOneKind(names: map<string, Event>, c: Chain, kind: FinancialState)
    requires Keyed(names) && kind in {Confirmed, Overdue} && HasKind(names, kind)
    requires Explained(c, names) && c.state == Created && forall id <- c.receipts :: id !in OfKind(names, kind)
    ensures var all := AllOf(OfKind(names, kind), false);
            AllDrawn(names, all) && Run(c, all).state == kind && Consumed(Run(c, all), names, kind)
  {
    var all := AllOf(OfKind(names, kind), false);
    AllOfDelivers(OfKind(names, kind), false);
    RunOfKind(c, names, kind, all);
    KindDrawn(names, kind, all);
    DeliveredAll(c, names, OfKind(names, kind), all);
    ConsumedIs(names, Run(c, all), kind);
    SomeOfKind(names, kind);
  }

  lemma CreatedIs(names: map<string, Event>, created: Event, kind: FinancialState)
    requires Drawn(names, created) && Canonical(created.rawType) == Created && kind in {Confirmed, Overdue}
    ensures var c := Run(START, [Delivery(created, false)]);
            Explained(c, names) && c.state == Created && forall id <- c.receipts :: id !in OfKind(names, kind)
  {
    RunOne(START, Delivery(created, false));
    RunExplained(START, names, [Delivery(created, false)]);
  }

  /** The one event of the other kind has the last word. */
  lemma LastWord(names: map<string, Event>, c: Chain, kind: FinancialState, last: Event)
    requires c.state == kind && kind in {Confirmed, Overdue} && Consumed(c, names, kind) && Drawn(names, last)
    requires Canonical(last.rawType) in {Confirmed, Overdue} - {kind} && last.id !in c.receipts
    ensures var t := Ingest(c, last, false).0; t.state == Canonical(last.rawType) && Consumed(t, names, kind)
  {
    IngestConsumed(c, names, last, false, kind);
  }

  lemma {:induction false} OnlyDelivered(c: Chain, ds: seq<Delivery>, id: string)
    requires id !in c.receipts && forall d <- ds :: d.event.id != id
    ensures id !in Run(c, ds).receipts
  {
    if ds != [] {
      assert Last(ds) in ds;
      OnlyDelivered(c, Init(ds), id);
    }
  }

  lemma OneLastIs(names: map<string, Event>, created: Event, last: Event, kind: FinancialState)
    requires Keyed(names) && kind in {Confirmed, Overdue} && HasKind(names, kind) && Drawn(names, created)
    requires Drawn(names, last) && Canonical(created.rawType) == Created
    requires Canonical(last.rawType) in {Confirmed, Overdue} - {kind}
    ensures var ds := OneLast(created, AllOf(OfKind(names, kind), false), last);
            && AllDrawn(names, ds) && Run(START, ds).state == Canonical(last.rawType)
            && Consumed(Run(START, ds), names, kind)
  {
    var begun, all := [Delivery(created, false)], AllOf(OfKind(names, kind), false);
    CreatedIs(names, created, kind);
    AllOneKind(names, Run(START, begun), kind);
    RunAppend(START, begun, all);
    RunMore(START, begun + all, Delivery(last, false));
    AllOfDelivers(OfKind(names, kind), false);
    forall d: Delivery | d in begun + all
      ensures d.event.id != last.id
    {
      if d in all {
        assert Drawn(OfKind(names, kind), d.event);
      }
    }
    OnlyDelivered(START, begun + all, last.id);
    LastWord(names, Run(START, begun + all), kind, last);
  }

  /** Without a receipt and a cancellation, the overdue notice can have the last word. */
  lemma OverdueCanEnd(names: map<string, Event>)
    requires Keyed(names) && HasKind(names, Created) && HasKind(names, Confirmed) && HasKind(names, Overdue)
    requires !HasKind(names, Received) && !HasKind(names, Canceled)
    ensures CanEnd(names, Overdue)
  {
    var i :| i in names && Canonical(names[i].rawType) == Created;
    var j :| j in names && Canonical(names[j].rawType) == Overdue;
    OneLastIs(names, names[i], names[j], Confirmed);
    FirstCanEnd(names, OneLast(names[i], AllOf(OfKind(names, Confirmed), false), names[j]));
  }

  /** And so can the confirmation, unless a refund takes it further. */
  lemma ConfirmedCanEnd(names: map<string, Event>)
    requires Keyed(names) && HasKind(names, Created) && HasKind(names, Confirmed) && HasKind(names, Overdue)
    requires !HasKind(names, Received) && !HasKind(names, Canceled) && !HasKind(names, Refunded)
    ensures CanEnd(names, Confirmed)
  {
    var i :| i in names && Canonical(names[i].rawType) == Created;
    var j :| j in names && Canonical(names[j].rawType) == Confirmed;
    OneLastIs(names, names[i], names[j], Overdue);
    FirstCanEnd(names, OneLast(names[i], AllOf(OfKind(names, Overdue), false), names[j]));
  }

  // ---- The exact condition -----------------------------------------------------------------------

  lemma RacesEndApart(names: map<string, Event>) returns (a: FinancialState, b: FinancialState)
    requires Keyed(names) && Races(names)
    ensures CanEnd(names, a) && CanEnd(names, b) && a != b
  {
    if HasKind(names, Canceled) {
      a, b := Canceled, Refunded;
      CancelCanEnd(names);
      if HasKind(names, Confirmed) {
        RefundAfterConfirmation(names);
      } else {
        RefundAfterOverdue(names);
      }
    } else {
      a := Overdue;
      OverdueCanEnd(names);
      if HasKind(names, Refunded) {
        b := Refunded;
        RefundAfterConfirmation(names);
      } else {
        b := Confirmed;
        ConfirmedCanEnd(names);
      }
    }
  }

  /** The end is independent of the order of delivery exactly for the collections that do not race. */
  lemma EndIsDeterminedIff(names: map<string, Event>)
    requires Keyed(names)
    ensures (forall a, b :: CanEnd(names, a) && CanEnd(names, b) ==> a == b) <==> !Races(names)
  {
    if Races(names) {
      var a, b := RacesEndApart(names);
    } else {
      forall a | CanEnd(names, a)
        ensures a == Outcome(names)
      {
        var ds, pass1, pass2, pass3, more :|
          Settles(names, ds, pass1, pass2, pass3, more) && Run(START, ds + pass1 + pass2 + pass3 + more).state == a;
        DeliveriesConverge(names, ds, pass1, pass2, pass3, more);
      }
    }
  }

  lemma ThreeKinds(names: map<string, Event>, created: Event, confirmed: Event, overdue: Event)
    requires Canonical(created.rawType) == Created && Canonical(confirmed.rawType) == Confirmed
    requires Canonical(overdue.rawType) == Overdue
    requires created.id != confirmed.id && created.id != overdue.id && confirmed.id != overdue.id
    requires names == map[created.id := created, confirmed.id := confirmed, overdue.id := overdue]
    ensures Keyed(names) && HasKind(names, Created) && HasKind(names, Confirmed) && HasKind(names, Overdue)
    ensures forall id <- names :: Canonical(names[id].rawType) in {Created, Confirmed, Overdue}
  {
    assert names[created.id] == created && names[confirmed.id] == confirmed && names[overdue.id] == overdue;
  }

  /** An unpaid payment whose confirmation and overdue notice race: the order decides, and with it the financial
      gate. */
  lemma ConfirmationRacesOverdue(names: map<string, Event>, created: Event, confirmed: Event, overdue: Event)
    requires Canonical(created.rawType) == Created && Canonical(confirmed.rawType) == Confirmed
    requires Canonical(overdue.rawType) == Overdue
    requires created.id != confirmed.id && created.id != overdue.id && confirmed.id != overdue.id
    requires names == map[created.id := created, confirmed.id := confirmed, overdue.id := overdue]
    ensures CanEnd(names, Overdue) && CanEnd(names, Confirmed)
  {
    ThreeKinds(names, created, confirmed, overdue);
    OverdueCanEnd(names);
    ConfirmedCanEnd(names);
  }
}
