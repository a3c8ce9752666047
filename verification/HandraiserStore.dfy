/** commercial/inbound/admit.py: one logical admission for each idempotency key, over any sequence of requests. */
module HandraiserStore {
  import opened Prelude

  datatype State = Accepted | RejectedWithReason | UnknownState

  datatype Reason =
    | Gate(code: string) | IdempotencyKeyMissing | IdempotencyPayloadConflict | IntakePaused | RequestInvalid
        | AdmissionGatesSatisfied

  datatype Key = MissingKey | UnsafeKey | Token(value: string)

  /** The whole request is its material; `draft` is what `_claims_draft` finds. */
  datatype Request = Request(draft: bool, key: Key, payload: string)

  /** What one evaluation finds besides the store: the gates' reasons, the codes never emitted, and whether the
      assembled decision would leak personal data. It may differ from call to call, with the clock and the authority. */
  datatype Context = Context(unknown: seq<Reason>, rejected: seq<Reason>, intakePaused: bool, neverEmitted: seq<Reason>,
    leaksPii: bool)

  /** `_stable_id` over policy version, key and material. */
  datatype LogicalId = LogicalId(draft: bool, key: Key, material: Request)

  datatype Decision = Decision(state: State, reasons: seq<Reason>, logicalId: LogicalId, replayed: bool)

  datatype Entry = Entry(material: Request, decision: Decision)

  type Store = map<string, Entry>

  predicate Conflicts(store: Store, q: Request) {
    q.key.Token? && q.key.value in store && store[q.key.value].material != q
  }

  /** The decision of a request that is not a replay. */
  function Fresh(store: Store, q: Request, c: Context): Decision {
    var unknown := match q.key
                   case MissingKey => Note(c.unknown, IdempotencyKeyMissing)
                   case UnsafeKey => Note(c.unknown, RequestInvalid)
                   case Token(_) => c.unknown;
    var conflicted := if Conflicts(store, q) then Note(c.rejected, IdempotencyPayloadConflict) else c.rejected;
    var rejected := if c.intakePaused then Note(conflicted, IntakePaused) else conflicted;
    var state := if unknown != [] then UnknownState else if rejected != [] then RejectedWithReason else Accepted;
    var raised := if unknown != [] then unknown + Without(rejected, unknown)
                  else if rejected != [] then rejected
                  else [AdmissionGatesSatisfied];
    var emitted := Without(raised, c.neverEmitted);
    var decision := if emitted == [] then Decision(UnknownState, [RequestInvalid], LogicalId(q.draft, q.key, q), false)
                    else Decision(state, emitted, LogicalId(q.draft, q.key, q), false);
    if c.leaksPii then
      var kept := Without(decision.reasons, [AdmissionGatesSatisfied]);
      decision.(state := UnknownState, reasons := if RequestInvalid in kept then kept else [RequestInvalid] + kept)
    else decision
  }

  /** One evaluation: a stored key with the same material replays its first decision whatever the gates now say; a
      stored key with other material is judged with a conflict and never stored; a new key is judged and stored. */
  function Admit(store: Store, q: Request, c: Context): (Store, Decision) {
    if q.key.Token? && q.key.value in store && store[q.key.value].material == q then
      (store, store[q.key.value].decision.(replayed := true))
    else
      var decision := Fresh(store, q, c);
      if q.key.Token? && q.key.value !in store then (store[q.key.value := Entry(q, decision)], decision)
          else (store, decision)
  }

  class ModelOnlyHandraiserStore {
    var byKey: Store

    constructor ()
      ensures byKey == map[]
    {
      byKey := map[];
    }

    /** Both evaluators: reasons are noted as they are found, then filtered, and only a new key is stored. */
    method Evaluate(q: Request, c: Context) returns (d: Decision)
      modifies this
      ensures byKey == Admit(old(byKey), q, c).0 && d == Admit(old(byKey), q, c).1
    {
      var unknown, rejected := c.unknown, c.rejected;
      if q.key.MissingKey? {
        unknown := Note(unknown, IdempotencyKeyMissing);
      } else if q.key.UnsafeKey? {
        unknown := Note(unknown, RequestInvalid);
      }
      if q.key.Token? && q.key.value in byKey {
        var existing := byKey[q.key.value];
        if existing.material == q {
          return existing.decision.(replayed := true);
        }
        rejected := Note(rejected, IdempotencyPayloadConflict);
      }
      if c.intakePaused {
        rejected := Note(rejected, IntakePaused);
      }
      var state, reasons := Accepted, [AdmissionGatesSatisfied];
      if unknown != [] {
        var others := Drop(rejected, unknown);
        state, reasons := UnknownState, unknown + others;
      } else if rejected != [] {
        state, reasons := RejectedWithReason, rejected;
      }
      reasons := Drop(reasons, c.neverEmitted);
      if reasons == [] {
        state, reasons := UnknownState, [RequestInvalid];
      }
      if c.leaksPii {
        reasons := Drop(reasons, [AdmissionGatesSatisfied]);
        state := UnknownState;
        if RequestInvalid !in reasons {
          reasons := [RequestInvalid] + reasons;
        }
      }
      d := Decision(state, reasons, LogicalId(q.draft, q.key, q), false);
      if q.key.Token? && q.key.value !in byKey {
        byKey := byKey[q.key.value := Entry(q, d)];
      }
    }
  }

  method Drop(reasons: seq<Reason>, drop: seq<Reason>) returns (kept: seq<Reason>)
    ensures kept == Without(reasons, drop)
  {
    kept := [];
    for i := 0 to |reasons|
      invariant kept == Without(reasons[..i], drop)
    {
      assert Init(reasons[..i + 1]) == reasons[..i] && Last(reasons[..i + 1]) == reasons[i];
      if reasons[i] !in drop {
        kept := kept + [reasons[i]];
      }
    }
    assert reasons[..|reasons|] == reasons;
  }

  // ---- Runs --------------------------------------------------------------------------------------

  function Run(store: Store, calls: seq<(Request, Context)>): Store
    decreases |calls|
  {
    if calls == [] then store else Admit(Run(store, Init(calls)), Last(calls).0, Last(calls).1).0
  }

  /** The answer given to the i-th call. */
  function Answer(calls: seq<(Request, Context)>, i: nat): Decision
    requires i < |calls|
  {
    Admit(Run(map[], calls[..i]), calls[i].0, calls[i].1).1
  }

  /** A key's entry, once written, is never rewritten. */
  lemma {:induction false} EntryNeverChanges(store: Store, calls: seq<(Request, Context)>, key: string)
    requires key in store
    ensures key in Run(store, calls) && Run(store, calls)[key] == store[key]
  {
    if calls != [] {
      EntryNeverChanges(store, Init(calls), key);
    }
  }

  lemma {:induction false} RunSplits(calls: seq<(Request, Context)>, i: nat)
    requires i <= |calls|
    ensures Run(map[], calls) == Run(Run(map[], calls[..i]), calls[i..])
    decreases |calls|
  {
    if i == |calls| {
      assert calls[..i] == calls;
    } else {
      RunSplits(Init(calls), i);
      assert Init(calls)[..i] == calls[..i] && Init(calls)[i..] == Init(calls[i..]);
    }
  }

  /** Every entry holds the decision on its own material, under its own key. */
  predicate StoreInv(store: Store) {
    forall k <- store ::
      && store[k].material.key == Token(k)
      && store[k].decision.logicalId == LogicalId(store[k].material.draft, Token(k), store[k].material)
  }

  lemma {:induction false} RunKeepsInv(calls: seq<(Request, Context)>)
    ensures StoreInv(Run(map[], calls))
  {
    if calls != [] {
      RunKeepsInv(Init(calls));
    }
  }

  lemma WithoutOne(r: Reason, drop: seq<Reason>)
    ensures Without([r], drop) == if r in drop then [] else [r]
  {
    assert Init([r]) == [] && Last([r]) == r;
  }

  /** A fresh decision accepts only when no gate spoke, nothing conflicts, intake is open, and nothing leaks. */
  lemma FreshAcceptsIff(store: Store, q: Request, c: Context)
    ensures Fresh(store, q, c).state == Accepted <==>
            && q.key.Token? && c.unknown == [] && c.rejected == [] && !Conflicts(store, q) && !c.intakePaused
            && AdmissionGatesSatisfied !in c.neverEmitted && !c.leaksPii
  {
    WithoutOne(AdmissionGatesSatisfied, c.neverEmitted);
  }

  /** A doubt: a gate's, or that the key is missing or unsafe. */
  ghost predicate Doubts(q: Request, c: Context, r: Reason) {
    || r in c.unknown
    || (r == IdempotencyKeyMissing && q.key == MissingKey)
    || (r == RequestInvalid && q.key == UnsafeKey)
  }

  /** A refusal: a gate's, a conflict with what the key holds, or a paused intake. */
  ghost predicate Refuses(store: Store, q: Request, c: Context, r: Reason) {
    || r in c.rejected
    || (r == IdempotencyPayloadConflict && Conflicts(store, q))
    || (r == IntakePaused && c.intakePaused)
  }

  ghost predicate Clear(store: Store, q: Request, c: Context) {
    forall r: Reason :: !Doubts(q, c, r) && !Refuses(store, q, c, r)
  }

  /** What the evaluation has to say, before codes that are never emitted are left out. */
  ghost predicate Raised(store: Store, q: Request, c: Context, r: Reason) {
    Doubts(q, c, r) || Refuses(store, q, c, r) || (r == AdmissionGatesSatisfied && Clear(store, q, c))
  }

  ghost predicate Emits(store: Store, q: Request, c: Context, r: Reason) {
    Raised(store, q, c, r) && r !in c.neverEmitted
  }

  /** The reasons of a fresh decision: every doubt and every refusal that may be emitted. "Request invalid" is added
      when nothing may be, or when the decision would leak personal data, and then "gates satisfied" is dropped. */
  lemma FreshReasonsIff(store: Store, q: Request, c: Context, r: Reason)
    ensures r in Fresh(store, q, c).reasons <==>
            if r == RequestInvalid then
              Emits(store, q, c, r) || c.leaksPii || forall other: Reason :: !Emits(store, q, c, other)
            else Emits(store, q, c, r) && !(c.leaksPii && r == AdmissionGatesSatisfied)
  {
    var emitted := Emitted(store, q, c);
    forall other: Reason
      ensures other in emitted <==> Emits(store, q, c, other)
    {
      RaisedIff(store, q, c, other);
      WithoutIff(Joined(DoubtsOf(q, c), RefusalsOf(store, q, c)), c.neverEmitted, other);
    }
    assert emitted != [] ==> emitted[0] in emitted;
    LeakProofIff(if emitted == [] then [RequestInvalid] else emitted, c.leaksPii, r);
    FreshPublishes(store, q, c);
  }

  function Emitted(store: Store, q: Request, c: Context): seq<Reason> {
    Without(Joined(DoubtsOf(q, c), RefusalsOf(store, q, c)), c.neverEmitted)
  }

  lemma FreshPublishes(store: Store, q: Request, c: Context)
    ensures var emitted := Emitted(store, q, c);
            Fresh(store, q, c).reasons == LeakProof(if emitted == [] then [RequestInvalid] else emitted, c.leaksPii)
  {
  }

  lemma LeakProofIff(reasons: seq<Reason>, leaks: bool, r: Reason)
    ensures r in LeakProof(reasons, leaks) <==>
            (r in reasons || (leaks && r == RequestInvalid)) && !(leaks && r == AdmissionGatesSatisfied)
  {
    WithoutIff(reasons, [AdmissionGatesSatisfied], r);
    WithoutIff(reasons, [AdmissionGatesSatisfied], RequestInvalid);
  }

  /** A decision that would leak is invalid, and satisfies no gates. */
  function LeakProof(reasons: seq<Reason>, leaks: bool): seq<Reason> {
    if !leaks then reasons
    else
      var kept := Without(reasons, [AdmissionGatesSatisfied]);
      if RequestInvalid in kept then kept else [RequestInvalid] + kept
  }

  function DoubtsOf(q: Request, c: Context): seq<Reason> {
    if q.key.MissingKey? then Note(c.unknown, IdempotencyKeyMissing)
    else if q.key.UnsafeKey? then Note(c.unknown, RequestInvalid)
    else c.unknown
  }

  function RefusalsOf(store: Store, q: Request, c: Context): seq<Reason> {
    var conflicted := if Conflicts(store, q) then Note(c.rejected, IdempotencyPayloadConflict) else c.rejected;
    if c.intakePaused then Note(conflicted, IntakePaused) else conflicted
  }

  lemma DoubtsAre(q: Request, c: Context, r: Reason)
    ensures r in DoubtsOf(q, c) <==> Doubts(q, c, r)
  {
  }

  lemma RefusalsAre(store: Store, q: Request, c: Context, r: Reason)
    ensures r in RefusalsOf(store, q, c) <==> Refuses(store, q, c, r)
  {
  }

  /** Doubts first, then refusals; "gates satisfied" when there are none. */
  function Joined(unknown: seq<Reason>, rejected: seq<Reason>): seq<Reason> {
    if unknown != [] then unknown + Without(rejected, unknown)
    else if rejected != [] then rejected
    else [AdmissionGatesSatisfied]
  }

  lemma JoinedIff(unknown: seq<Reason>, rejected: seq<Reason>, r: Reason)
    ensures r in Joined(unknown, rejected) <==>
            || r in unknown || r in rejected
            || (r == AdmissionGatesSatisfied && unknown == [] && rejected == [])
  {
    WithoutIff(rejected, unknown, r);
  }

  lemma RaisedIff(store: Store, q: Request, c: Context, r: Reason)
    ensures r in Joined(DoubtsOf(q, c), RefusalsOf(store, q, c)) <==> Raised(store, q, c, r)
  {
    var unknown, rejected := DoubtsOf(q, c), RefusalsOf(store, q, c);
    JoinedIff(unknown, rejected, r);
    forall other: Reason
      ensures other in unknown <==> Doubts(q, c, other)
      ensures other in rejected <==> Refuses(store, q, c, other)
    {
      DoubtsAre(q, c, other);
      RefusalsAre(store, q, c, other);
    }
    assert unknown != [] ==> unknown[0] in unknown;
    assert rejected != [] ==> rejected[0] in rejected;
  }

  /** Refused rather than in doubt: there is no doubt, some refusal may be emitted, and nothing leaks. Every other
      decision that does not accept is in doubt. */
  lemma FreshRejectsIff(store: Store, q: Request, c: Context)
    ensures Fresh(store, q, c).state == RejectedWithReason <==>
            && (forall r: Reason :: !Doubts(q, c, r)) && !c.leaksPii
            && exists r: Reason :: Refuses(store, q, c, r) && r !in c.neverEmitted
  {
    var unknown, rejected := DoubtsOf(q, c), RefusalsOf(store, q, c);
    forall r: Reason
      ensures r in unknown <==> Doubts(q, c, r)
      ensures r in Without(rejected, c.neverEmitted) <==> Refuses(store, q, c, r) && r !in c.neverEmitted
    {
      DoubtsAre(q, c, r);
      RefusalsAre(store, q, c, r);
      WithoutIff(rejected, c.neverEmitted, r);
    }
    var emitted := Without(rejected, c.neverEmitted);
    assert emitted != [] ==> emitted[0] in emitted;
    assert unknown != [] ==> unknown[0] in unknown;
    WithoutOne(AdmissionGatesSatisfied, c.neverEmitted);
  }

  /** An accepted answer is the key's entry: same material, same logical admission, and it is stored as accepted. */
  lemma AcceptedIsStored(calls: seq<(Request, Context)>, i: nat)
    requires i < |calls| && Answer(calls, i).state == Accepted
    ensures var q, after := calls[i].0, Run(map[], calls[..i + 1]);
            && q.key.Token? && q.key.value in after && after[q.key.value].material == q
            && after[q.key.value].decision.logicalId == Answer(calls, i).logicalId == LogicalId(q.draft, q.key, q)
            && after[q.key.value].decision.state == Accepted
  {
    var before := Run(map[], calls[..i]);
    assert Init(calls[..i + 1]) == calls[..i] && Last(calls[..i + 1]) == calls[i];
    RunKeepsInv(calls[..i]);
    FreshAcceptsIff(before, calls[i].0, calls[i].1);
  }

  /** Over any sequence of requests, in both versions, two accepted answers under one key are one logical admission of
      one and the same material. */
  lemma OneAdmissionPerKey(calls: seq<(Request, Context)>, i: nat, j: nat)
    requires i < j < |calls| && calls[i].0.key == calls[j].0.key
    requires Answer(calls, i).state == Accepted && Answer(calls, j).state == Accepted
    ensures calls[i].0 == calls[j].0 && Answer(calls, i).logicalId == Answer(calls, j).logicalId
    ensures Answer(calls, j).replayed
  {
    var key := calls[i].0.key;
    AcceptedIsStored(calls, i);
    AcceptedIsStored(calls, j);
    var first, before := Run(map[], calls[..i + 1]), Run(map[], calls[..j]);
    RunSplits(calls[..j], i + 1);
    assert calls[..j][..i + 1] == calls[..i + 1];
    EntryNeverChanges(first, calls[..j][i + 1..], key.value);
    FreshAcceptsIff(before, calls[j].0, calls[j].1);
  }

  /** A key that no request has used is not in the store. */
  lemma {:induction false} UnusedIsAbsent(calls: seq<(Request, Context)>, key: string)
    requires forall k :: 0 <= k < |calls| ==> calls[k].0.key != Token(key)
    ensures key !in Run(map[], calls)
  {
    if calls != [] {
      assert forall k :: 0 <= k < |Init(calls)| ==> Init(calls)[k] == calls[k];
      UnusedIsAbsent(Init(calls), key);
      assert Last(calls) == calls[|calls| - 1];
    }
  }

  /** The first answer under a key is what the key holds from then on. */
  lemma FirstAnswerIsStored(calls: seq<(Request, Context)>, i: nat, j: nat)
    requires i < j <= |calls| && calls[i].0.key.Token? && forall k :: 0 <= k < i ==> calls[k].0.key != calls[i].0.key
    ensures var q, store := calls[i].0, Run(map[], calls[..j]);
            q.key.value in store && store[q.key.value] == Entry(q, Answer(calls, i))
  {
    var q, before := calls[i].0, Run(map[], calls[..i]);
    assert forall k :: 0 <= k < i ==> calls[..i][k] == calls[k];
    UnusedIsAbsent(calls[..i], q.key.value);
    assert Init(calls[..i + 1]) == calls[..i] && Last(calls[..i + 1]) == calls[i];
    var after := Run(map[], calls[..i + 1]);
    RunSplits(calls[..j], i + 1);
    assert calls[..j][..i + 1] == calls[..i + 1];
    EntryNeverChanges(after, calls[..j][i + 1..], q.key.value);
  }

  /** The first answer under a key decides the key for good: a later one is accepted exactly when the first was and the
      material is the same, whatever the gates say by then. */
  lemma FirstAnswerDecides(calls: seq<(Request, Context)>, i: nat, j: nat)
    requires i < j < |calls| && calls[i].0.key.Token? && calls[j].0.key == calls[i].0.key
    requires forall k :: 0 <= k < i ==> calls[k].0.key != calls[i].0.key
    ensures Answer(calls, j).state == Accepted <==> Answer(calls, i).state == Accepted && calls[j].0 == calls[i].0
    ensures calls[j].0 == calls[i].0 ==> Answer(calls, j) == Answer(calls, i).(replayed := true)
  {
    FirstAnswerIsStored(calls, i, j);
    FreshAcceptsIff(Run(map[], calls[..j]), calls[j].0, calls[j].1);
  }

  /** A used key with other material is never accepted, and leaves the store as it was. */
  lemma OtherPayloadNeverAccepted(store: Store, q: Request, c: Context)
    requires Conflicts(store, q)
    ensures Admit(store, q, c).1.state != Accepted && Admit(store, q, c).0 == store
  {
    FreshAcceptsIff(store, q, c);
  }
}
