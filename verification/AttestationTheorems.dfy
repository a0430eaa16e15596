/** When the attestation verifier lets a result pass, and what the order of the claims decides. */
module AttestationTheorems {
  import opened Values
  import opened Attestation

  predicate Concerns(c: Claim, tenant: string, kind: string) {
    c.tenant == tenant && c.kind == kind
  }

  predicate MetAt(refs: seq<Claim>, tenant: string, kind: string, now: int, n: nat) {
    && n < |refs| && Concerns(refs[n], tenant, kind) && refs[n].status == "active" && Current(refs[n].until, now)
    && forall k | 0 <= k < n && Concerns(refs[k], tenant, kind) && refs[k].status == "active" :: Readable(refs[k].until)
  }

  /** Some active claim of the type is current, and no earlier active one has a time that cannot be compared. */
  ghost predicate ReferenceMet(refs: seq<Claim>, tenant: string, kind: string, now: int) {
    exists n: nat :: MetAt(refs, tenant, kind, now, n)
  }

  predicate TrustedAt(ends: seq<Claim>, tenant: string, kind: string, now: int, n: nat) {
    && n < |ends| && Concerns(ends[n], tenant, kind)
    && ends[n].status == "trusted_placeholder" && Current(ends[n].until, now)
    && forall k | 0 <= k < n && Concerns(ends[k], tenant, kind) ::
      ends[k].status != "trusted_placeholder" && ends[k].status != "revoked" && ends[k].status != "expired"
  }

  /** The first trusted claim of the type is current, and no revoked or expired one comes before it. */
  ghost predicate EndorsementMet(ends: seq<Claim>, tenant: string, kind: string, now: int) {
    exists n: nat :: TrustedAt(ends, tenant, kind, now, n)
  }

  lemma {:induction false} OfConcat(a: seq<Claim>, b: seq<Claim>, tenant: string, kind: string)
    ensures Of(a + b, tenant, kind) == Of(a, tenant, kind) + Of(b, tenant, kind)
    decreases |b|
  {
    if b == [] {
      assert a + b == a;
    } else {
      assert (a + b)[..|a + b| - 1] == a + b[..|b| - 1];
      OfConcat(a, b[..|b| - 1], tenant, kind);
    }
  }

  lemma OfHead(claims: seq<Claim>, tenant: string, kind: string)
    requires claims != []
    ensures Of(claims, tenant, kind)
      == (if Concerns(claims[0], tenant, kind) then [claims[0]] else []) + Of(claims[1..], tenant, kind)
  {
    assert claims == [claims[0]] + claims[1..];
    OfConcat([claims[0]], claims[1..], tenant, kind);
    assert Of([claims[0]][..0], tenant, kind) == [];
  }

  lemma MetAtShifts(refs: seq<Claim>, tenant: string, kind: string, now: int, n: nat)
    requires refs != []
    ensures MetAt(refs, tenant, kind, now, n + 1) <==>
      && MetAt(refs[1..], tenant, kind, now, n)
      && (Concerns(refs[0], tenant, kind) && refs[0].status == "active" ==> Readable(refs[0].until))
  {
    if MetAt(refs, tenant, kind, now, n + 1) {
      assert forall k | 0 <= k < n :: refs[1..][k] == refs[k + 1];
    }
    if MetAt(refs[1..], tenant, kind, now, n) {
      assert forall k | 1 <= k <= n :: refs[k] == refs[1..][k - 1];
    }
  }

  lemma MetHead(refs: seq<Claim>, tenant: string, kind: string, now: int)
    requires refs != []
    ensures var c := refs[0];
      ReferenceMet(refs, tenant, kind, now) <==>
      if Concerns(c, tenant, kind) && c.status == "active" && Current(c.until, now) then true
      else if Concerns(c, tenant, kind) && c.status == "active" && !Readable(c.until) then false
      else ReferenceMet(refs[1..], tenant, kind, now)
  {
    if n: nat :| MetAt(refs, tenant, kind, now, n) && n > 0 {
      MetAtShifts(refs, tenant, kind, now, n - 1);
    }
    if m: nat :| MetAt(refs[1..], tenant, kind, now, m) {
      MetAtShifts(refs, tenant, kind, now, m);
    }
    assert Concerns(refs[0], tenant, kind) && refs[0].status == "active" && Current(refs[0].until, now)
      <==> MetAt(refs, tenant, kind, now, 0);
  }

  lemma {:induction false} MetExactlyWhenFresh(refs: seq<Claim>, tenant: string, kind: string, now: int)
    ensures ReferenceMet(refs, tenant, kind, now) <==> Freshest(Active(Of(refs, tenant, kind)), now).Fresh?
  {
    if refs != [] {
      OfHead(refs, tenant, kind);
      MetExactlyWhenFresh(refs[1..], tenant, kind, now);
      MetHead(refs, tenant, kind, now);
      ActiveHead(Of(refs[1..], tenant, kind), refs[0]);
      FreshestHead(Active(Of(refs[1..], tenant, kind)), refs[0], now);
    }
  }

  lemma FreshestHead(active: seq<Claim>, c: Claim, now: int)
    ensures Freshest([c] + active, now) ==
      if !Readable(c.until) then Broken else if Current(c.until, now) then Fresh else Freshest(active, now)
    ensures [] + active == active
  {
    assert ([c] + active)[1..] == active;
  }

  lemma ActiveHead(claims: seq<Claim>, c: Claim)
    ensures Active([c] + claims) == (if c.status == "active" then [c] else []) + Active(claims)
    ensures [] + claims == claims
  {
    assert ([c] + claims)[1..] == claims;
  }

  lemma TrustedAtShifts(ends: seq<Claim>, tenant: string, kind: string, now: int, n: nat)
    requires ends != []
    ensures TrustedAt(ends, tenant, kind, now, n + 1) <==>
      && TrustedAt(ends[1..], tenant, kind, now, n)
      && (Concerns(ends[0], tenant, kind) ==>
            ends[0].status != "trusted_placeholder" && ends[0].status != "revoked" && ends[0].status != "expired")
  {
    if TrustedAt(ends, tenant, kind, now, n + 1) {
      assert forall k | 0 <= k < n :: ends[1..][k] == ends[k + 1];
    }
    if TrustedAt(ends[1..], tenant, kind, now, n) {
      assert forall k | 1 <= k <= n :: ends[k] == ends[1..][k - 1];
    }
  }

  lemma TrustedHead(ends: seq<Claim>, tenant: string, kind: string, now: int)
    requires ends != []
    ensures var c := ends[0];
      EndorsementMet(ends, tenant, kind, now) <==>
      if !Concerns(c, tenant, kind) then EndorsementMet(ends[1..], tenant, kind, now)
      else if c.status == "trusted_placeholder" then Current(c.until, now)
      else c.status != "revoked" && c.status != "expired" && EndorsementMet(ends[1..], tenant, kind, now)
  {
    if n: nat :| TrustedAt(ends, tenant, kind, now, n) && n > 0 {
      TrustedAtShifts(ends, tenant, kind, now, n - 1);
    }
    if m: nat :| TrustedAt(ends[1..], tenant, kind, now, m) {
      TrustedAtShifts(ends, tenant, kind, now, m);
    }
    assert Concerns(ends[0], tenant, kind) && ends[0].status == "trusted_placeholder" && Current(ends[0].until, now)
      <==> TrustedAt(ends, tenant, kind, now, 0);
  }

  lemma {:induction false} TrustedExactlyWhen(ends: seq<Claim>, tenant: string, kind: string, now: int)
    ensures EndorsementMet(ends, tenant, kind, now) <==> EndorsementCodes(Of(ends, tenant, kind), now) == Some({})
  {
    if ends != [] {
      OfHead(ends, tenant, kind);
      TrustedExactlyWhen(ends[1..], tenant, kind, now);
      TrustedHead(ends, tenant, kind, now);
      EndorsementHead(Of(ends[1..], tenant, kind), ends[0], now);
      assert [] + Of(ends[1..], tenant, kind) == Of(ends[1..], tenant, kind);
    }
  }

  lemma EndorsementHead(claims: seq<Claim>, c: Claim, now: int)
    ensures EndorsementCodes([c] + claims, now) == Some({}) <==>
      || (c.status == "trusted_placeholder" && Current(c.until, now))
      || (c.status != "trusted_placeholder" && c.status != "revoked" && c.status != "expired"
          && EndorsementCodes(claims, now) == Some({}))
  {
    assert ([c] + claims)[1..] == claims;
  }

  // ----- over all required types ---------------------------------------------------------------------

  lemma ReferenceCodesFail(candidates: seq<Claim>, now: int)
    ensures ReferenceCodes(candidates, now).Some? ==> ReferenceCodes(candidates, now).value <= FAILING
    ensures ReferenceCodes(candidates, now) == Some({}) <==> Freshest(Active(candidates), now).Fresh?
  {
    var codes := ReferenceCodes(candidates, now);
    if Active(candidates) == [] {
      assert "reference_value_missing" in codes.value;
    } else if Freshest(Active(candidates), now).Stale? {
      assert "reference_value_stale" in codes.value;
    }
  }

  lemma {:induction false} EndorsementCodesFail(candidates: seq<Claim>, now: int)
    ensures EndorsementCodes(candidates, now).Some? ==> EndorsementCodes(candidates, now).value <= FAILING
  {
    if candidates != [] {
      EndorsementCodesFail(candidates[1..], now);
    }
  }

  lemma {:induction false} AllReferencesMet(kinds: seq<string>, refs: seq<Claim>, tenant: string, now: int)
    ensures AllReferenceCodes(kinds, refs, tenant, now) == Some({}) <==>
      forall k | k in kinds :: ReferenceMet(refs, tenant, k, now)
    ensures AllReferenceCodes(kinds, refs, tenant, now).Some? ==> AllReferenceCodes(kinds, refs, tenant, now).value <= FAILING
  {
    if kinds != [] {
      var front, last := kinds[..|kinds| - 1], kinds[|kinds| - 1];
      assert kinds == front + [last];
      AllReferencesMet(front, refs, tenant, now);
      MetExactlyWhenFresh(refs, tenant, last, now);
      ReferenceCodesFail(Of(refs, tenant, last), now);
    }
  }

  lemma {:induction false} AllEndorsementsMet(kinds: seq<string>, ends: seq<Claim>, tenant: string, now: int)
    ensures AllEndorsementCodes(kinds, ends, tenant, now) == Some({}) <==>
      forall k | k in kinds :: EndorsementMet(ends, tenant, k, now)
    ensures AllEndorsementCodes(kinds, ends, tenant, now).Some? ==> AllEndorsementCodes(kinds, ends, tenant, now).value <= FAILING
  {
    if kinds != [] {
      var front, last := kinds[..|kinds| - 1], kinds[|kinds| - 1];
      assert kinds == front + [last];
      AllEndorsementsMet(front, ends, tenant, now);
      TrustedExactlyWhen(ends, tenant, last, now);
      EndorsementCodesFail(Of(ends, tenant, last), now);
    }
  }

  // ----- when an appraisal passes --------------------------------------------------------------------

  ghost predicate ClaimsPass(a: Record, p: Policy, refs: seq<Claim>, ends: seq<Claim>, now: int) {
    && (forall c | c in refs :: c.taxonomy && c.tenant == a.tenant)
    && (forall c | c in ends :: c.taxonomy && c.tenant == a.tenant)
    && (forall k | k in p.referenceTypes :: ReferenceMet(refs, a.tenant, k, now))
    && (forall k | k in p.endorsementTypes :: EndorsementMet(ends, a.tenant, k, now))
  }

  ghost predicate Passes(a: Record, policy: Option<Policy>, refs: seq<Claim>, ends: seq<Claim>, u: Option<Update>, now: int) {
    && a.taxonomy && a.status !in BLOCKING && a.trustRoot != "failed" && !a.expires.Unparsable? && Clean(a.codes)
    && policy.Some? && policy.value.taxonomy && (policy.value.status == "approved" || policy.value.status == "active")
    && ClaimsPass(a, policy.value, refs, ends, now)
    && (u.Some? ==> u.value.taxonomy && u.value.codesKnown && Clean(u.value.codes))
  }

  lemma CleanUnion(a: set<string>, b: set<string>)
    ensures Clean(a + b) <==> Clean(a) && Clean(b)
  {
  }

  lemma CleanParts(a: Record, claims: seq<Claim>, u: Option<Update>)
    ensures Clean(TrustRootCodes(a)) <==> a.trustRoot != "failed"
    ensures Clean(ForeignCodes(claims, a.tenant)) <==> !Foreign(claims, a.tenant)
    ensures Clean(UpdateCodes(u)) <==> (u.Some? ==> Clean(u.value.codes))
  {
    assert "trust_root_failed" in FAILING && "trust_root_unknown" !in FAILING;
    assert "attestation_reference_mismatch" in FAILING && "attestation_quarantine_required" !in FAILING;
  }

  lemma CleanCodes(codes: Option<set<string>>)
    requires codes.Some? && codes.value <= FAILING
    ensures Clean(codes.value) <==> codes == Some({})
  {
    if codes.value != {} {
      var c :| c in codes.value;
      assert c in FAILING;
    }
  }

  lemma GatheredIsClean(a: Record, p: Policy, refs: seq<Claim>, ends: seq<Claim>, u: Option<Update>, now: int)
    ensures Gathered(a, p, refs, ends, u, now).Some? && Clean(Gathered(a, p, refs, ends, u, now).value) <==>
      && Clean(a.codes) && a.trustRoot != "failed" && ClaimsPass(a, p, refs, ends, now)
      && (u.Some? ==> u.value.taxonomy && u.value.codesKnown && Clean(u.value.codes))
  {
    var r := AllReferenceCodes(p.referenceTypes, refs, a.tenant, now);
    var e := AllEndorsementCodes(p.endorsementTypes, ends, a.tenant, now);
    AllReferencesMet(p.referenceTypes, refs, a.tenant, now);
    AllEndorsementsMet(p.endorsementTypes, ends, a.tenant, now);
    CleanParts(a, refs, u);
    CleanParts(a, ends, u);
    if Gathered(a, p, refs, ends, u, now).Some? {
      var refCodes, endCodes := r.value + ForeignCodes(refs, a.tenant), e.value + ForeignCodes(ends, a.tenant);
      CleanCodes(r);
      CleanCodes(e);
      CleanUnion(r.value, ForeignCodes(refs, a.tenant));
      CleanUnion(e.value, ForeignCodes(ends, a.tenant));
      CleanUnion(a.codes, TrustRootCodes(a));
      CleanUnion(a.codes + TrustRootCodes(a), refCodes);
      CleanUnion(a.codes + TrustRootCodes(a) + refCodes, endCodes);
      CleanUnion(a.codes + TrustRootCodes(a) + refCodes + endCodes, UpdateCodes(u));
    }
  }

  /** A result passes exactly when the statuses are admissible, the trust root has not failed, every claim is
      the tenant's own, every required type is met, and no failing code comes with the records. */
  lemma PassExactlyWhen(a: Record, policy: Option<Policy>, refs: seq<Claim>, ends: seq<Claim>, u: Option<Update>, now: int)
    ensures var r := Appraised(a, policy, refs, ends, u, now);
      r.Appraisal? && r.verdict.Passed? <==> Passes(a, policy, refs, ends, u, now)
  {
    EarlyReturnsDoNotPass(a, policy, refs, ends, u, now);
    if ReachesClaims(a, policy) {
      PassingIsConcluded(a, policy, refs, ends, u, now);
      GatheredIsClean(a, policy.value, refs, ends, u, now);
    }
  }

  predicate ReachesClaims(a: Record, policy: Option<Policy>) {
    && a.taxonomy && a.status !in BLOCKING
    && policy.Some? && policy.value.taxonomy && (policy.value.status == "approved" || policy.value.status == "active")
  }

  lemma EarlyReturnsDoNotPass(a: Record, policy: Option<Policy>, refs: seq<Claim>, ends: seq<Claim>, u: Option<Update>, now: int)
    ensures var r := Appraised(a, policy, refs, ends, u, now);
      r.Appraisal? && r.verdict.Passed? ==> ReachesClaims(a, policy)
  {
  }

  lemma PassingIsConcluded(a: Record, policy: Option<Policy>, refs: seq<Claim>, ends: seq<Claim>, u: Option<Update>, now: int)
    requires ReachesClaims(a, policy)
    ensures var r := Appraised(a, policy, refs, ends, u, now); var g := Gathered(a, policy.value, refs, ends, u, now);
      r.Appraisal? && r.verdict.Passed? <==> g.Some? && Clean(g.value) && !a.expires.Unparsable?
  {
  }

  /** A result is trusted exactly when it passes and calls for quarantine exactly when it fails; only a pass is
      approved by the verifier, a pass always expires, and no code the record came with is lost. */
  lemma VerdictAndEffectAgree(a: Record, policy: Option<Policy>, refs: seq<Claim>, ends: seq<Claim>, u: Option<Update>, now: int)
    requires Appraised(a, policy, refs, ends, u, now).Appraisal?
    ensures var r := Appraised(a, policy, refs, ends, u, now);
      && (r.verdict.Passed? <==> r.effect.TrustedMetadataOnly?) && (r.verdict.Failed? <==> r.effect.QuarantineRequired?)
      && a.codes <= r.reasons && (r.verdict.Passed? ==> "approved" in r.reasons && Clean(r.reasons) && !r.expires.Absent?)
  {
    if ReachesClaims(a, policy) {
      AppraisedIsConcluded(a, policy.value, refs, ends, u, now);
      var codes := Gathered(a, policy.value, refs, ends, u, now).value;
      assert a.codes <= codes;
      if Clean(codes) {
        ApprovalIsClean(codes);
      }
    }
  }

  lemma ApprovalIsClean(codes: set<string>)
    requires Clean(codes)
    ensures Clean(codes + {"approved"})
  {
    assert "approved" !in FAILING;
  }

  lemma AppraisedIsConcluded(a: Record, p: Policy, refs: seq<Claim>, ends: seq<Claim>, u: Option<Update>, now: int)
    requires Appraised(a, Some(p), refs, ends, u, now).Appraisal? && a.status !in BLOCKING
    requires p.status == "approved" || p.status == "active"
    ensures Gathered(a, p, refs, ends, u, now).Some?
    ensures Appraised(a, Some(p), refs, ends, u, now) == Concluded(a, p.id, Gathered(a, p, refs, ends, u, now).value, now)
  {
  }

  /** The order of the endorsements decides: a revoked one counts before a trusted one and not after it. */
  lemma EndorsementOrderDecides(tenant: string, kind: string, now: int, revoked: Claim, trusted: Claim)
    requires Concerns(revoked, tenant, kind) && revoked.status == "revoked"
    requires Concerns(trusted, tenant, kind) && trusted.status == "trusted_placeholder" && Current(trusted.until, now)
    ensures EndorsementMet([trusted, revoked], tenant, kind, now)
    ensures !EndorsementMet([revoked, trusted], tenant, kind, now)
  {
    TrustedHead([trusted, revoked], tenant, kind, now);
    TrustedHead([revoked, trusted], tenant, kind, now);
  }

  /** The order of the references does not decide, as long as their times can be compared. */
  lemma ReferenceOrderDoesNotDecide(refs: seq<Claim>, permuted: seq<Claim>, tenant: string, kind: string, now: int)
    requires multiset(refs) == multiset(permuted) && forall c | c in refs :: Readable(c.until)
    ensures ReferenceMet(refs, tenant, kind, now) <==> ReferenceMet(permuted, tenant, kind, now)
  {
    forall c ensures c in refs <==> c in permuted {
      assert c in multiset(refs) <==> c in multiset(permuted);
    }
    if n: nat :| MetAt(refs, tenant, kind, now, n) {
      assert refs[n] in permuted;
      var m: nat :| m < |permuted| && permuted[m] == refs[n];
      assert MetAt(permuted, tenant, kind, now, m);
    }
    if n: nat :| MetAt(permuted, tenant, kind, now, n) {
      assert permuted[n] in refs;
      var m: nat :| m < |refs| && refs[m] == permuted[n];
      assert MetAt(refs, tenant, kind, now, m);
    }
  }
}
