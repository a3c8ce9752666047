/** scripts/validate_partner_program.py: capped basis-point commission, for one receipt and over a whole run of them. */
module Commission {
  import opened Prelude

  datatype Modality = ReferralQualified | CosellSpecialized | DistributionIntegration | NotEligible | OtherModality

  const REFERRAL_RATE_BPS := 1000
  const REFERRAL_CAP_CENTS := 1_000_000
  const COSELL_MAX_RATE_BPS := 1500
  const COSELL_CAP_CENTS := 1_500_000
  const BPS := 10_000

  /** The conditions under which anything is due; the co-sell addendum is one for co-selling only. */
  datatype Gates = Gates(
    receiptEvidence: bool, eligibleBase: bool, preexisting: bool, leadAccepted: bool,
    protectionExpiredWithoutContract: bool, contractedDuringProtection: bool, withinPeriodMonths: bool,
    professionalReviewRequired: bool, dueDiligenceApproved: bool, addendumVerifiable: bool)

  datatype Terms = Terms(modality: Modality, rateBps: int, capCents: Option<int>, gates: Gates)

  datatype Receipt = Receipt(cents: int, refundCents: int)

  datatype CommissionError = NegativeInput | NegativePrevious

  function CapForModality(m: Modality): int {
    match m
    case ReferralQualified => REFERRAL_CAP_CENTS
    case CosellSpecialized => COSELL_CAP_CENTS
    case _ => 0
  }

  function MaxRateForModality(m: Modality): int {
    match m
    case ReferralQualified => REFERRAL_RATE_BPS
    case CosellSpecialized => COSELL_MAX_RATE_BPS
    case _ => 0
  }

  predicate Open(t: Terms) {
    && t.gates.receiptEvidence && t.gates.eligibleBase && !t.gates.preexisting && t.gates.leadAccepted
    && !t.gates.protectionExpiredWithoutContract && t.gates.contractedDuringProtection && t.gates.withinPeriodMonths
    && !t.gates.professionalReviewRequired && t.gates.dueDiligenceApproved
    && t.modality in {ReferralQualified, CosellSpecialized}
    && (t.modality == CosellSpecialized ==> t.gates.addendumVerifiable)
    && 0 < t.rateBps <= MaxRateForModality(t.modality)
  }

  /** A negotiated cap can lower the canonical one, never raise it. */
  function EffectiveCap(t: Terms): nat {
    Min(CapForModality(t.modality), if t.capCents.None? then CapForModality(t.modality) else Max(0, t.capCents.value))
  }

  /** The share of one receipt, rounded down to a cent. */
  function Share(t: Terms, r: Receipt): nat
    requires Open(t)
  {
    Max(0, r.cents - r.refundCents) * t.rateBps / BPS
  }

  /** `commission_amount_cents`. */
  function Amount(t: Terms, r: Receipt, previous: int): Result<nat, CommissionError> {
    if !Open(t) then Ok(0)
    else if r.cents < 0 || r.refundCents < 0 then Err(NegativeInput)
    else if previous < 0 then Err(NegativePrevious)
    else
      var remaining := Max(0, EffectiveCap(t) - previous);
      Ok(Max(0, Min(Share(t, r), remaining)))
  }

  /** Whatever the caller passes, one payment is at most the modality's highest share of the net fee, and never lifts
      what has been paid above the canonical cap. */
  lemma PaymentWithinSchedule(t: Terms, r: Receipt, previous: int)
    requires Amount(t, r, previous).Ok?
    ensures var due := Amount(t, r, previous).value;
            && due * BPS <= Max(0, r.cents - r.refundCents) * MaxRateForModality(t.modality)
            && (due > 0 ==> previous + due <= CapForModality(t.modality))
  {
    if Open(t) {
      ScaledMonotone(Max(0, r.cents - r.refundCents), t.rateBps, MaxRateForModality(t.modality));
      FloorBelow(Max(0, r.cents - r.refundCents) * t.rateBps);
    }
  }

  lemma ScaledMonotone(x: nat, a: int, b: int)
    requires a <= b
    ensures x * a <= x * b
  {
  }

  lemma FloorBelow(x: int)
    ensures x / BPS * BPS <= x
  {
  }

  /** What has to be the case for anything to be due: an introduced or co-sold customer who is new, whose lead was
      accepted and who contracted while it was protected; evidence of an eligible receipt within the period; diligence
      done and no review pending; and a rate of the schedule, up to ten percent, or fifteen for co-selling with its
      addendum. */
  ghost predicate Owed(t: Terms) {
    && (|| (t.modality == ReferralQualified && 1 <= t.rateBps <= 1000)
        || (t.modality == CosellSpecialized && t.gates.addendumVerifiable && 1 <= t.rateBps <= 1500))
    && !t.gates.preexisting && t.gates.leadAccepted
    && t.gates.contractedDuringProtection && !t.gates.protectionExpiredWithoutContract
    && t.gates.receiptEvidence && t.gates.eligibleBase && t.gates.withinPeriodMonths
    && t.gates.dueDiligenceApproved && !t.gates.professionalReviewRequired
  }

  /** Ten or fifteen thousand in whole currency, or less when that was agreed. */
  ghost function AgreedCap(t: Terms): nat
    requires Owed(t)
  {
    var schedule := 100 * if t.modality == ReferralQualified then 10_000 else 15_000;
    if t.capCents.None? || t.capCents.value > schedule then schedule else Max(0, t.capCents.value)
  }

  /** What a receipt pays. Nothing when nothing is owed; otherwise negative amounts are refused, and a number of cents
      is within the payment exactly when it is within the rate's share of the net receipt and keeps all payments within
      the cap. */
  lemma AmountIs(t: Terms, r: Receipt, previous: int, cents: nat)
    ensures !Owed(t) ==> Amount(t, r, previous) == Ok(0)
    ensures Owed(t) && (r.cents < 0 || r.refundCents < 0) ==> Amount(t, r, previous) == Err(NegativeInput)
    ensures Owed(t) && r.cents >= 0 && r.refundCents >= 0 && previous < 0 ==>
              Amount(t, r, previous) == Err(NegativePrevious)
    ensures Owed(t) && r.cents >= 0 && r.refundCents >= 0 && previous >= 0 ==>
              && Amount(t, r, previous).Ok?
              && (cents <= Amount(t, r, previous).value <==>
                    || cents == 0
                    || (cents * 10_000 <= (r.cents - r.refundCents) * t.rateBps && previous + cents <= AgreedCap(t)))
  {
    if Owed(t) && r.cents > r.refundCents {
      FloorIff((r.cents - r.refundCents) * t.rateBps, cents);
    } else if Owed(t) {
      NoNetNoShare(r, t.rateBps, cents);
    }
  }

  lemma FloorIff(x: int, cents: nat)
    ensures cents <= x / BPS <==> cents * BPS <= x
  {
  }

  lemma NoNetNoShare(r: Receipt, rate: int, cents: nat)
    requires r.cents <= r.refundCents && rate > 0
    ensures cents > 0 ==> cents * 10_000 > (r.cents - r.refundCents) * rate
  {
    assert (r.cents - r.refundCents) * rate <= 0;
  }

  /** A payment is made exactly when one is owed, a whole cent is earned and the cap is not reached. */
  lemma PaysIff(t: Terms, r: Receipt, previous: int)
    ensures Amount(t, r, previous).Ok? && Amount(t, r, previous).value > 0 <==>
            && Owed(t) && r.cents >= 0 && r.refundCents >= 0 && 0 <= previous < AgreedCap(t)
            && (r.cents - r.refundCents) * t.rateBps >= 10_000
  {
    AmountIs(t, r, previous, 1);
  }

  predicate Chargeable(rs: seq<Receipt>) {
    forall r <- rs :: r.cents >= 0 && r.refundCents >= 0
  }

  // ---- A run of receipts, each payment fed back as previously paid -------------------------------

  function PaidAfter(t: Terms, paid: nat, rs: seq<Receipt>): nat
    requires Open(t) && Chargeable(rs)
  {
    if rs == [] then paid
    else
      var before := PaidAfter(t, paid, Init(rs));
      before + Amount(t, Last(rs), before).value
  }

  function Shares(t: Terms, rs: seq<Receipt>): nat
    requires Open(t)
  {
    if rs == [] then 0 else Shares(t, Init(rs)) + Share(t, Last(rs))
  }

  /** However the receipts are cut, the run pays the sum of the floored shares until the cap is reached. */
  lemma {:induction false} RunPaysShares(t: Terms, paid: nat, rs: seq<Receipt>)
    requires Open(t) && Chargeable(rs)
    ensures PaidAfter(t, paid, rs) == Max(paid, Min(EffectiveCap(t), paid + Shares(t, rs)))
  {
    if rs != [] {
      RunPaysShares(t, paid, Init(rs));
    }
  }

  /** From nothing paid: exactly min(cap, sum of floored shares), and never above the canonical cap. */
  lemma TotalIsCapped(t: Terms, rs: seq<Receipt>)
    requires Open(t) && Chargeable(rs)
    ensures PaidAfter(t, 0, rs) == Min(EffectiveCap(t), Shares(t, rs))
    ensures PaidAfter(t, 0, rs) <= CapForModality(t.modality)
  {
    RunPaysShares(t, 0, rs);
  }

  lemma {:induction false} SharesAppend(t: Terms, a: seq<Receipt>, b: seq<Receipt>)
    requires Open(t)
    ensures Shares(t, a + b) == Shares(t, a) + Shares(t, b)
  {
    if b == [] {
      assert a + b == a;
    } else {
      SharesAppend(t, a, Init(b));
      assert Init(a + b) == a + Init(b);
    }
  }

  /** Taking one receipt out of a list takes out its share and no other. */
  lemma SharesRemove(t: Terms, rs: seq<Receipt>, i: nat)
    requires Open(t) && i < |rs|
    ensures Shares(t, rs) == Shares(t, rs[..i] + rs[i + 1..]) + Share(t, rs[i])
    ensures multiset(rs[..i] + rs[i + 1..]) == multiset(rs) - multiset{rs[i]}
  {
    var a, r, b := rs[..i], rs[i], rs[i + 1..];
    assert rs == a + [r] + b;
    SharesAppend(t, a + [r], b);
    SharesAppend(t, a, b);
    assert Init(a + [r]) == a && Last(a + [r]) == r;
  }

  lemma WithoutLast(rs: seq<Receipt>)
    requires rs != []
    ensures multiset(Init(rs)) == multiset(rs) - multiset{Last(rs)}
  {
    assert rs == Init(rs) + [Last(rs)];
  }

  lemma {:induction false} SharesUnordered(t: Terms, a: seq<Receipt>, b: seq<Receipt>)
    requires Open(t) && multiset(a) == multiset(b)
    ensures Shares(t, a) == Shares(t, b)
    decreases |a|
  {
    if a == [] {
      assert multiset(b) == multiset{};
    } else {
      var r := Last(a);
      assert r in multiset(a);
      var i :| 0 <= i < |b| && b[i] == r;
      SharesRemove(t, b, i);
      WithoutLast(a);
      SharesUnordered(t, Init(a), b[..i] + b[i + 1..]);
    }
  }

  /** The order in which the receipts arrive does not change what is paid. */
  lemma OrderDoesNotMatter(t: Terms, paid: nat, a: seq<Receipt>, b: seq<Receipt>)
    requires Open(t) && multiset(a) == multiset(b) && Chargeable(a) && Chargeable(b)
    ensures PaidAfter(t, paid, a) == PaidAfter(t, paid, b)
  {
    SharesUnordered(t, a, b);
    RunPaysShares(t, paid, a);
    RunPaysShares(t, paid, b);
  }

  // ---- Splitting a receipt -----------------------------------------------------------------------

  function Cents(rs: seq<Receipt>): int {
    if rs == [] then 0 else Cents(Init(rs)) + Last(rs).cents
  }

  function Refunds(rs: seq<Receipt>): int {
    if rs == [] then 0 else Refunds(Init(rs)) + Last(rs).refundCents
  }

  /** The receipt that was split into parts. */
  function Whole(parts: seq<Receipt>): Receipt {
    Receipt(Cents(parts), Refunds(parts))
  }

  function Net(r: Receipt): nat {
    Max(0, r.cents - r.refundCents)
  }

  function Nets(rs: seq<Receipt>): nat {
    if rs == [] then 0 else Nets(Init(rs)) + Net(Last(rs))
  }

  /** What the parts refund beyond what they charge. */
  function Excess(rs: seq<Receipt>): nat {
    if rs == [] then 0 else Excess(Init(rs)) + Max(0, Last(rs).refundCents - Last(rs).cents)
  }

  lemma {:induction false} NetsBalance(parts: seq<Receipt>)
    ensures Nets(parts) - Excess(parts) == Cents(parts) - Refunds(parts)
  {
    if parts != [] {
      NetsBalance(Init(parts));
    }
  }

  lemma {:induction false} NetsPositiveIff(parts: seq<Receipt>)
    ensures Nets(parts) > 0 <==> exists i :: 0 <= i < |parts| && parts[i].cents > parts[i].refundCents
    ensures Excess(parts) > 0 <==> exists i :: 0 <= i < |parts| && parts[i].refundCents > parts[i].cents
  {
    if parts != [] {
      var init, n := Init(parts), |parts| - 1;
      NetsPositiveIff(init);
      assert Last(parts) == parts[n] && forall i :: 0 <= i < n ==> init[i] == parts[i];
    }
  }

  /** No refund of one part can be set against a charge of another. */
  predicate OneSided(parts: seq<Receipt>) {
    !((exists i :: 0 <= i < |parts| && parts[i].refundCents > parts[i].cents)
      && exists i :: 0 <= i < |parts| && parts[i].cents > parts[i].refundCents)
  }

  /** The nets of the parts are never less than the net of the whole, and they sum to it exactly when no part refunds
      more than it charges while another charges more than it refunds. */
  lemma NetsSumIff(parts: seq<Receipt>)
    ensures Net(Whole(parts)) <= Nets(parts)
    ensures Nets(parts) == Net(Whole(parts)) <==> OneSided(parts)
  {
    NetsBalance(parts);
    NetsPositiveIff(parts);
  }

  lemma FloorAdds(x: nat, y: nat, rate: nat)
    ensures x * rate / BPS + y * rate / BPS <= (x + y) * rate / BPS <= x * rate / BPS + y * rate / BPS + 1
  {
    var a, b := x * rate, y * rate;
    assert (x + y) * rate == a + b;
  }

  /** Rounding each part down loses less than a cent a part. */
  lemma {:induction false} SplitShares(t: Terms, parts: seq<Receipt>)
    requires Open(t) && parts != []
    ensures Shares(t, parts) <= Nets(parts) * t.rateBps / BPS <= Shares(t, parts) + |parts| - 1
  {
    var init, last := Init(parts), Last(parts);
    if init == [] {
      assert Shares(t, init) == 0 && Nets(init) == 0;
    } else {
      SplitShares(t, init);
      FloorAdds(Nets(init), Net(last), t.rateBps);
    }
  }

  lemma {:induction false} WholeChargeable(parts: seq<Receipt>)
    requires Chargeable(parts)
    ensures Cents(parts) >= 0 && Refunds(parts) >= 0 && Chargeable([Whole(parts)])
  {
    if parts != [] {
      WholeChargeable(Init(parts));
      assert Last(parts) in parts;
    }
  }

  lemma RunPaysOne(t: Terms, paid: nat, r: Receipt)
    requires Open(t) && Chargeable([r])
    ensures PaidAfter(t, paid, [r]) == Max(paid, Min(EffectiveCap(t), paid + Share(t, r)))
  {
    RunPaysShares(t, paid, [r]);
    assert Init([r]) == [] && Last([r]) == r;
    assert Shares(t, [r]) == Share(t, r);
  }

  lemma ShareMonotone(x: nat, y: nat, rate: nat)
    requires x <= y
    ensures x * rate / BPS <= y * rate / BPS
  {
    ScaledMonotone(rate, x, y);
  }

  /** Splitting one receipt into n parts, refunds and all, loses at most n - 1 cents; and it never pays more, as long as
      no part refunds more than it charges while another charges more than it refunds. */
  lemma SplittingLosesLittle(t: Terms, paid: nat, parts: seq<Receipt>)
    requires Open(t) && Chargeable(parts) && parts != []
    ensures Chargeable([Whole(parts)])
    ensures PaidAfter(t, paid, [Whole(parts)]) <= PaidAfter(t, paid, parts) + |parts| - 1
    ensures OneSided(parts) ==> PaidAfter(t, paid, parts) <= PaidAfter(t, paid, [Whole(parts)])
  {
    WholeChargeable(parts);
    NetsSumIff(parts);
    SplitShares(t, parts);
    ShareMonotone(Net(Whole(parts)), Nets(parts), t.rateBps);
    RunPaysShares(t, paid, parts);
    RunPaysOne(t, paid, Whole(parts));
  }

  /** Exactly when a split pays no more: when its floored shares are no more than the share of the whole, or the cap
      stops both at once. */
  lemma SplitNeverPaysMoreIff(t: Terms, paid: nat, parts: seq<Receipt>)
    requires Open(t) && Chargeable(parts)
    ensures Chargeable([Whole(parts)])
    ensures PaidAfter(t, paid, parts) <= PaidAfter(t, paid, [Whole(parts)]) <==>
            Shares(t, parts) <= Share(t, Whole(parts)) || EffectiveCap(t) <= paid + Share(t, Whole(parts))
  {
    WholeChargeable(parts);
    RunPaysShares(t, paid, parts);
    RunPaysOne(t, paid, Whole(parts));
  }

  /** Without that a split can pay where the whole pays nothing: a charge refunded in full, taken as two receipts. */
  lemma SplitRefundPaysMore(t: Terms)
    requires Open(t) && t.rateBps >= 100 && EffectiveCap(t) >= 10
    ensures var parts := [Receipt(1000, 0), Receipt(0, 1000)];
            && Whole(parts) == Receipt(1000, 1000) && Chargeable(parts) && Chargeable([Whole(parts)])
            && !OneSided(parts)
            && PaidAfter(t, 0, [Whole(parts)]) == 0 && PaidAfter(t, 0, parts) >= 10
  {
    var parts := [Receipt(1000, 0), Receipt(0, 1000)];
    assert Init(parts) == [Receipt(1000, 0)] && Last(parts) == Receipt(0, 1000);
    assert Init([Receipt(1000, 0)]) == [] && Last([Receipt(1000, 0)]) == Receipt(1000, 0);
    WholeChargeable(parts);
    assert parts[0].cents > parts[0].refundCents && parts[1].refundCents > parts[1].cents;
    RunPaysShares(t, 0, parts);
    RunPaysOne(t, 0, Whole(parts));
    assert Share(t, Receipt(1000, 0)) == 1000 * t.rateBps / BPS;
  }
}
