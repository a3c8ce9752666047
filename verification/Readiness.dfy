/** delivery/readiness.py: the readiness verdict that feeds capacity admission. */
module Readiness {
  import opened Prelude
  import opened Decisions

  datatype ReadinessState = NotEvaluated | NotReady | ProductionReady | DeliveryValidated

  /** `evidencePinned` stands for the checks against fixed text: required fields present, no blockers, hash reference
      well formed, scope, inputs, producer and QA pinned. Missing or non-integer numbers and unreadable instants are
      None. */
  datatype Profile = Profile(
    state: ReadinessState, evidencePinned: bool, canaryPinned: bool, syntheticOnly: bool,
    deliverableId: string, deliverableVersion: string, scopeVersion: string,
    effort: Option<int>, effortUnitIsSlot: bool, effortVersion: string, leadTime: Option<int>,
    dependenciesAvailable: seq<bool>, evaluatedAt: Option<int>, expiresAt: Option<int>)

  datatype ReadinessVerdict = Ready | NotAdmitted(verdict: Verdict, code: Code)

  predicate OperationalProfileValid(p: Profile) {
    && p.evidencePinned
    && p.effort.Some? && p.effort.value > 0
    && p.leadTime.Some? && p.leadTime.value > 0
    && p.dependenciesAvailable != [] && false !in p.dependenciesAvailable
    && p.evaluatedAt.Some? && p.expiresAt.Some? && p.evaluatedAt.value < p.expiresAt.value
    && (p.state == DeliveryValidated ==> p.canaryPinned)
  }

  /** `readiness_for_admission`. */
  function ReadinessForAdmission(profile: Option<Profile>, now: int): (verdict: ReadinessVerdict)
    ensures verdict.Ready? <==>
            && profile.Some? && profile.value.state in {ProductionReady, DeliveryValidated}
            && OperationalProfileValid(profile.value)
            && profile.value.evaluatedAt.value <= now < profile.value.expiresAt.value
    ensures verdict.NotAdmitted? ==>
            (verdict.verdict == CannotAccept <==> profile.Some? && profile.value.state == NotReady)
  {
    if profile.None? || profile.value.state == NotEvaluated then NotAdmitted(Unknown, ReadinessUnknown)
    else
      var p := profile.value;
      if p.state == NotReady then NotAdmitted(CannotAccept, ReadinessNotReady)
      else if !OperationalProfileValid(p) then NotAdmitted(Unknown, ReadinessEvidenceInvalid)
      else if now < p.evaluatedAt.value then NotAdmitted(Unknown, ReadinessFromFuture)
      else if now >= p.expiresAt.value then NotAdmitted(Unknown, ReadinessStale)
      else Ready
  }

  /** What evidence a profile must carry, spelled out: effort and lead time of at least one, dependencies named and all
      available, a window, and a canary once delivery is claimed to be validated. */
  ghost predicate EvidenceComplete(p: Profile) {
    && p.evidencePinned && (p.state == DeliveryValidated ==> p.canaryPinned)
    && p.effort.Some? && 1 <= p.effort.value && p.leadTime.Some? && 1 <= p.leadTime.value
    && |p.dependenciesAvailable| >= 1 && (forall i :: 0 <= i < |p.dependenciesAvailable| ==> p.dependenciesAvailable[i])
    && p.evaluatedAt.Some? && p.expiresAt.Some? && p.evaluatedAt.value < p.expiresAt.value
  }

  /** Each way a profile can fail has its own code, and only one that says it is not ready is a refusal. */
  lemma ReadinessCodeIff(profile: Option<Profile>, now: int)
    ensures var r := ReadinessForAdmission(profile, now);
            && (r == NotAdmitted(Unknown, ReadinessUnknown) <==> profile.None? || profile.value.state == NotEvaluated)
            && (r == NotAdmitted(CannotAccept, ReadinessNotReady) <==> profile.Some? && profile.value.state == NotReady)
    ensures profile.Some? && profile.value.state in {ProductionReady, DeliveryValidated} ==>
              var r, p := ReadinessForAdmission(profile, now), profile.value;
              && (r == NotAdmitted(Unknown, ReadinessEvidenceInvalid) <==> !EvidenceComplete(p))
              && (r == NotAdmitted(Unknown, ReadinessFromFuture) <==> EvidenceComplete(p) && now < p.evaluatedAt.value)
              && (r == NotAdmitted(Unknown, ReadinessStale) <==> EvidenceComplete(p) && p.expiresAt.value <= now)
              && (r == Ready <==> EvidenceComplete(p) && p.evaluatedAt.value <= now < p.expiresAt.value)
  {
    if profile.Some? {
      var available := profile.value.dependenciesAvailable;
      assert forall i :: 0 <= i < |available| ==> available[i] in available;
      assert |available| >= 1 <==> available != [];
    }
  }
}
