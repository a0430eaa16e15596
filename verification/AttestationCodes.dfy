/** Which reason codes an appraisal carries, and the other fields of its result, in terms of the records supplied. */
module AttestationCodes {
  import opened Values
  import opened Attestation
  import opened AttestationTheorems
  import opened AttestationEffects

  // ----- the codes of one type -------------------------------------------------------------------------

  ghost predicate ReferenceGives(refs: seq<Claim>, tenant: string, kind: string, now: int, code: string) {
    || (code == "reference_value_missing" && !exists c :: c in refs && InUse(c, tenant, kind))
    || (code == "reference_value_revoked" && (!exists c :: c in refs && InUse(c, tenant, kind))
        && exists c :: c in refs && Concerns(c, tenant, kind) && c.status == "revoked")
    || (code == "reference_value_stale" && AllExpired(refs, tenant, kind, now))
  }

  /** A revoked endorsement of the type comes before every current trusted one. */
  ghost predicate RevokedFirst(ends: seq<Claim>, tenant: string, kind: string, now: int) {
    Reaches(ends, c => Concerns(c, tenant, kind) && c.status == "revoked", c => Trusts(c, tenant, kind, now))
  }

  ghost predicate EndorsementGives(ends: seq<Claim>, tenant: string, kind: string, now: int, code: string) {
    || (code == "endorsement_missing" && !exists c :: c in ends && Trusts(c, tenant, kind, now))
    || (code == "endorsement_revoked" && RevokedFirst(ends, tenant, kind, now))
    || (code == "endorsement_expired" && ExpiredFirst(ends, tenant, kind, now))
  }

  lemma {:induction false} OfHas(claims: seq<Claim>, tenant: string, kind: string, c: Claim)
    ensures c in Of(claims, tenant, kind) <==> c in claims && Concerns(c, tenant, kind)
  {
    if claims != [] {
      OfHead(claims, tenant, kind);
      OfHas(claims[1..], tenant, kind, c);
      assert claims == [claims[0]] + claims[1..];
    }
  }

  lemma ReferenceCodesExactlyWhen(refs: seq<Claim>, tenant: string, kind: string, now: int, code: string)
    ensures var codes := ReferenceCodes(Of(refs, tenant, kind), now);
      codes.Some? ==> (code in codes.value <==> ReferenceGives(refs, tenant, kind, now, code))
  {
    var candidates := Of(refs, tenant, kind);
    AllExpiredExactlyWhen(refs, tenant, kind, now);
    forall c ensures c in Active(candidates) <==> c in refs && InUse(c, tenant, kind) {
      ActiveOfHas(refs, tenant, kind, c);
    }
    forall c ensures c in candidates <==> c in refs && Concerns(c, tenant, kind) {
      OfHas(refs, tenant, kind, c);
    }
    if Active(candidates) != [] {
      assert Active(candidates)[0] in Active(candidates);
    }
  }

  lemma RevokedHead(ends: seq<Claim>, tenant: string, kind: string, now: int)
    requires ends != []
    ensures RevokedFirst(ends, tenant, kind, now) <==>
      || (Concerns(ends[0], tenant, kind) && ends[0].status == "revoked")
      || (!Trusts(ends[0], tenant, kind, now) && RevokedFirst(ends[1..], tenant, kind, now))
  {
    ReachesHead(ends, c => Concerns(c, tenant, kind) && c.status == "revoked", c => Trusts(c, tenant, kind, now));
  }

  lemma TrustedSomewhere(ends: seq<Claim>, tenant: string, kind: string, now: int)
    requires ends != []
    ensures (exists c :: c in ends && Trusts(c, tenant, kind, now)) <==>
      Trusts(ends[0], tenant, kind, now) || exists c :: c in ends[1..] && Trusts(c, tenant, kind, now)
  {
    assert ends == [ends[0]] + ends[1..];
  }

  lemma EndorsementCodeStep(claims: seq<Claim>, c: Claim, now: int, code: string)
    requires EndorsementCodes([c] + claims, now).Some?
    ensures var codes, rest := EndorsementCodes([c] + claims, now), EndorsementCodes(claims, now);
      if c.status == "trusted_placeholder" && Current(c.until, now) then codes.value == {}
      else
        && rest.Some?
        && (code in codes.value <==>
              || code in rest.value
              || (code == "endorsement_revoked" && c.status == "revoked")
              || (code == "endorsement_expired" && (c.status == "expired" || c.status == "trusted_placeholder")))
  {
    assert ([c] + claims)[1..] == claims;
  }

  lemma GivesHead(ends: seq<Claim>, tenant: string, kind: string, now: int, code: string)
    requires ends != []
    ensures var c, rest := ends[0], EndorsementGives(ends[1..], tenant, kind, now, code);
      EndorsementGives(ends, tenant, kind, now, code) <==>
      if !Concerns(c, tenant, kind) then rest
      else if Trusts(c, tenant, kind, now) then false
      else
        || rest || (code == "endorsement_revoked" && c.status == "revoked")
        || (code == "endorsement_expired" && Expired(c, tenant, kind, now))
  {
    EndorsementHeads(ends, tenant, kind, now);
    RevokedHead(ends, tenant, kind, now);
    TrustedSomewhere(ends, tenant, kind, now);
  }

  lemma {:induction false} EndorsementCodesExactlyWhen(ends: seq<Claim>, tenant: string, kind: string, now: int,
                                                       code: string)
    ensures var codes := EndorsementCodes(Of(ends, tenant, kind), now);
      codes.Some? ==> (code in codes.value <==> EndorsementGives(ends, tenant, kind, now, code))
  {
    if ends == [] {
      NothingGiven(tenant, kind, now, code);
    } else if EndorsementCodes(Of(ends, tenant, kind), now).Some? {
      OfHead(ends, tenant, kind);
      assert [] + Of(ends[1..], tenant, kind) == Of(ends[1..], tenant, kind);
      EndorsementCodesExactlyWhen(ends[1..], tenant, kind, now, code);
      GivesHead(ends, tenant, kind, now, code);
      if Concerns(ends[0], tenant, kind) {
        EndorsementCodeStep(Of(ends[1..], tenant, kind), ends[0], now, code);
        ReadHead(Of(ends[1..], tenant, kind), ends[0], now);
      }
    }
  }

  lemma NothingGiven(tenant: string, kind: string, now: int, code: string)
    ensures EndorsementGives([], tenant, kind, now, code) <==> code == "endorsement_missing"
  {
  }

  lemma ReadHead(claims: seq<Claim>, c: Claim, now: int)
    requires EndorsementCodes([c] + claims, now).Some?
    ensures c.status == "trusted_placeholder" ==> Current(c.until, now) || Past(c.until, now)
  {
    assert ([c] + claims)[0] == c;
  }

  // ----- the codes of all required types ---------------------------------------------------------------

  lemma {:induction false} AllReferenceCodesExactlyWhen(kinds: seq<string>, refs: seq<Claim>, tenant: string, now: int,
                                                        code: string)
    ensures var codes := AllReferenceCodes(kinds, refs, tenant, now);
      codes.Some? ==> (code in codes.value <==> exists k :: k in kinds && ReferenceGives(refs, tenant, k, now, code))
  {
    if kinds != [] && AllReferenceCodes(kinds, refs, tenant, now).Some? {
      var front, last := kinds[..|kinds| - 1], kinds[|kinds| - 1];
      assert kinds == front + [last];
      AllReferenceCodesExactlyWhen(front, refs, tenant, now, code);
      ReferenceCodesExactlyWhen(refs, tenant, last, now, code);
    }
  }

  lemma {:induction false} AllEndorsementCodesExactlyWhen(kinds: seq<string>, ends: seq<Claim>, tenant: string, now: int,
                                                          code: string)
    ensures var codes := AllEndorsementCodes(kinds, ends, tenant, now);
      codes.Some? ==> (code in codes.value <==> exists k :: k in kinds && EndorsementGives(ends, tenant, k, now, code))
  {
    if kinds != [] && AllEndorsementCodes(kinds, ends, tenant, now).Some? {
      var front, last := kinds[..|kinds| - 1], kinds[|kinds| - 1];
      assert kinds == front + [last];
      AllEndorsementCodesExactlyWhen(front, ends, tenant, now, code);
      EndorsementCodesExactlyWhen(ends, tenant, last, now, code);
    }
  }

  // ----- the whole appraisal ---------------------------------------------------------------------------

  predicate RootGives(a: Record, code: string) {
    || (code == "trust_root_failed" && a.trustRoot == "failed")
    || (code == "trust_root_unknown" && (a.trustRoot == "unknown" || a.trustRoot == "blocked_mvp"))
  }

  predicate UpdateGives(u: Option<Update>, code: string) {
    && u.Some?
    && (code in u.value.codes
        || (code == "attestation_quarantine_required"
            && (u.value.status == "failed" || u.value.status == "rolled_back" || u.value.status == "blocked_mvp")))
  }

  /** What the claims and the update of an appraisal under an admissible policy give. */
  ghost predicate ClaimsGive(a: Record, p: Policy, refs: seq<Claim>, ends: seq<Claim>, u: Option<Update>, now: int,
                             code: string) {
    || (code == "attestation_reference_mismatch" && exists c :: (c in refs || c in ends) && c.tenant != a.tenant)
    || (exists k :: k in p.referenceTypes && ReferenceGives(refs, a.tenant, k, now, code))
    || (exists k :: k in p.endorsementTypes && EndorsementGives(ends, a.tenant, k, now, code))
    || UpdateGives(u, code)
  }

  /** The codes that an early end of the appraisal leaves. */
  predicate EarlyGives(a: Record, policy: Option<Policy>, code: string) {
    if a.status == "expired" then code == "attestation_result_expired"
    else if a.status == "failed" || a.status == "revoked" || a.status == "blocked_mvp" then
      code == "attestation_quarantine_required"
    else
      || RootGives(a, code)
      || code == if policy.Some? && (policy.value.status == "revoked" || policy.value.status == "blocked_mvp")
                 then "appraisal_policy_revoked" else "appraisal_policy_missing"
  }

  lemma BlockingStatuses(status: string)
    ensures status in BLOCKING <==>
      status == "failed" || status == "expired" || status == "revoked" || status == "blocked_mvp"
  {
  }

  lemma GatheredExactlyWhen(a: Record, p: Policy, refs: seq<Claim>, ends: seq<Claim>, u: Option<Update>, now: int,
                            code: string)
    requires Gathered(a, p, refs, ends, u, now).Some?
    ensures code in Gathered(a, p, refs, ends, u, now).value <==>
      code in a.codes || RootGives(a, code) || ClaimsGive(a, p, refs, ends, u, now, code)
  {
    AllReferenceCodesExactlyWhen(p.referenceTypes, refs, a.tenant, now, code);
    AllEndorsementCodesExactlyWhen(p.endorsementTypes, ends, a.tenant, now, code);
    OwnCodes(a, refs, ends, u, code);
  }

  lemma OwnCodes(a: Record, refs: seq<Claim>, ends: seq<Claim>, u: Option<Update>, code: string)
    ensures code in TrustRootCodes(a) <==> RootGives(a, code)
    ensures code in UpdateCodes(u) <==> UpdateGives(u, code)
    ensures code in ForeignCodes(refs, a.tenant) || code in ForeignCodes(ends, a.tenant) <==>
      code == "attestation_reference_mismatch" && exists c :: (c in refs || c in ends) && c.tenant != a.tenant
  {
  }

  lemma ConcludedCodes(a: Record, id: string, codes: set<string>, now: int, code: string)
    requires !a.expires.Unparsable?
    ensures var r := Concluded(a, id, codes, now);
      && r.Appraisal?
      && (code in r.reasons <==> code in codes || code == if r.verdict.Passed? then "approved" else "appraisal_failed")
  {
  }

  /** An appraisal carries exactly the codes that came with the record, those of its trust root, those its claims and
      its update give, and the one of its verdict; or, when it ends early, the one that says why. */
  lemma CodesExactlyWhen(a: Record, policy: Option<Policy>, refs: seq<Claim>, ends: seq<Claim>, u: Option<Update>, now: int,
                         code: string)
    requires Appraised(a, policy, refs, ends, u, now).Appraisal?
    ensures var r := Appraised(a, policy, refs, ends, u, now);
      code in r.reasons <==>
        || code in a.codes
        || if ReachesClaims(a, policy) then
             || RootGives(a, code) || ClaimsGive(a, policy.value, refs, ends, u, now, code)
             || code == if r.verdict.Passed? then "approved" else "appraisal_failed"
           else EarlyGives(a, policy, code)
  {
    if ReachesClaims(a, policy) {
      var p := policy.value;
      AppraisedIsConcluded(a, p, refs, ends, u, now);
      GatheredExactlyWhen(a, p, refs, ends, u, now, code);
      ConcludedIsReadable(a, p.id, Gathered(a, p, refs, ends, u, now).value, now);
      ConcludedCodes(a, p.id, Gathered(a, p, refs, ends, u, now).value, now, code);
    } else {
      EarlyCodes(a, policy, refs, ends, u, now, code);
    }
  }

  lemma ConcludedIsReadable(a: Record, id: string, codes: set<string>, now: int)
    requires Concluded(a, id, codes, now).Appraisal?
    ensures !a.expires.Unparsable?
  {
  }

  lemma EarlyCodes(a: Record, policy: Option<Policy>, refs: seq<Claim>, ends: seq<Claim>, u: Option<Update>, now: int,
                   code: string)
    requires Appraised(a, policy, refs, ends, u, now).Appraisal? && !ReachesClaims(a, policy)
    ensures code in Appraised(a, policy, refs, ends, u, now).reasons <==> code in a.codes || EarlyGives(a, policy, code)
  {
    BlockingStatuses(a.status);
    OwnCodes(a, refs, ends, u, code);
  }

  /** An appraisal names its policy, if there is one, and expires when its record does; only a pass of a record without
      an expiry gets one, which is the time of the appraisal. */
  lemma ResultFields(a: Record, policy: Option<Policy>, refs: seq<Claim>, ends: seq<Claim>, u: Option<Update>, now: int)
    requires Appraised(a, policy, refs, ends, u, now).Appraisal?
    ensures var r := Appraised(a, policy, refs, ends, u, now);
      && r.policyId == (if policy.Some? then policy.value.id else "")
      && r.expires == (if a.expires == Absent && r.verdict == Passed then At(now) else a.expires)
  {
    if ReachesClaims(a, policy) {
      AppraisedIsConcluded(a, policy.value, refs, ends, u, now);
    }
  }
}
