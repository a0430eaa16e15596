/** When the attestation verifier raises, degrades or calls for quarantine, in terms of the claims supplied. */
module AttestationEffects {
  import opened Values
  import opened Attestation
  import opened AttestationTheorems

  /** Some element is a hit that no earlier element stops the loop from reaching. */
  ghost predicate Reaches<T>(s: seq<T>, hit: T -> bool, stop: T -> bool) {
    exists n: nat :: ReachesAt(s, hit, stop, n)
  }

  predicate ReachesAt<T>(s: seq<T>, hit: T -> bool, stop: T -> bool, n: nat) {
    n < |s| && hit(s[n]) && forall k | 0 <= k < n :: !stop(s[k])
  }

  lemma ReachesHead<T>(s: seq<T>, hit: T -> bool, stop: T -> bool)
    requires s != []
    ensures Reaches(s, hit, stop) <==> hit(s[0]) || (!stop(s[0]) && Reaches(s[1..], hit, stop))
  {
    if n: nat :| ReachesAt(s, hit, stop, n) && n > 0 {
      assert forall k | 0 <= k < n - 1 :: s[1..][k] == s[k + 1];
      assert ReachesAt(s[1..], hit, stop, n - 1);
    }
    if !stop(s[0]) && Reaches(s[1..], hit, stop) {
      var m: nat :| ReachesAt(s[1..], hit, stop, m);
      assert forall k | 1 <= k <= m :: s[k] == s[1..][k - 1];
      assert ReachesAt(s, hit, stop, m + 1);
    }
    assert hit(s[0]) <==> ReachesAt(s, hit, stop, 0);
  }

  // ----- conditions on the claims of one type --------------------------------------------------------

  predicate Past(s: Stamp, now: int) {
    s.At? && s.micros < now
  }

  predicate InUse(c: Claim, tenant: string, kind: string) {
    Concerns(c, tenant, kind) && c.status == "active"
  }

  /** The tenant has active references of the type, and all of them have expired. */
  ghost predicate AllExpired(refs: seq<Claim>, tenant: string, kind: string, now: int) {
    && (exists c :: c in refs && InUse(c, tenant, kind))
    && forall c | c in refs && InUse(c, tenant, kind) :: Past(c.until, now)
  }

  /** An active reference whose time cannot be compared comes before every current one. */
  ghost predicate UnreadReference(refs: seq<Claim>, tenant: string, kind: string, now: int) {
    Reaches(refs, c => InUse(c, tenant, kind) && !Readable(c.until), c => InUse(c, tenant, kind) && Current(c.until, now))
  }

  predicate Trusts(c: Claim, tenant: string, kind: string, now: int) {
    Concerns(c, tenant, kind) && c.status == "trusted_placeholder" && Current(c.until, now)
  }

  predicate Expired(c: Claim, tenant: string, kind: string, now: int) {
    && Concerns(c, tenant, kind)
    && (c.status == "expired" || (c.status == "trusted_placeholder" && Past(c.until, now)))
  }

  /** An expired endorsement of the type comes before every current trusted one. */
  ghost predicate ExpiredFirst(ends: seq<Claim>, tenant: string, kind: string, now: int) {
    Reaches(ends, c => Expired(c, tenant, kind, now), c => Trusts(c, tenant, kind, now))
  }

  /** A trusted endorsement whose time cannot be compared comes before every current trusted one. */
  ghost predicate UnreadEndorsement(ends: seq<Claim>, tenant: string, kind: string, now: int) {
    Reaches(ends, c => Concerns(c, tenant, kind) && c.status == "trusted_placeholder" && !Readable(c.until),
            c => Trusts(c, tenant, kind, now))
  }

  // ----- references ----------------------------------------------------------------------------------

  lemma {:induction false} ActiveOfHas(refs: seq<Claim>, tenant: string, kind: string, c: Claim)
    ensures c in Active(Of(refs, tenant, kind)) <==> c in refs && InUse(c, tenant, kind)
  {
    if refs != [] {
      OfHead(refs, tenant, kind);
      ActiveOfHas(refs[1..], tenant, kind, c);
      ActiveHead(Of(refs[1..], tenant, kind), refs[0]);
    }
  }

  lemma {:induction false} StaleExactlyWhen(active: seq<Claim>, now: int)
    ensures Freshest(active, now).Stale? <==> forall c | c in active :: Past(c.until, now)
  {
    if active != [] {
      StaleExactlyWhen(active[1..], now);
      assert active == [active[0]] + active[1..];
    }
  }

  lemma AllExpiredExactlyWhen(refs: seq<Claim>, tenant: string, kind: string, now: int)
    ensures var active := Active(Of(refs, tenant, kind));
      AllExpired(refs, tenant, kind, now) <==> active != [] && Freshest(active, now).Stale?
  {
    var active := Active(Of(refs, tenant, kind));
    forall c ensures c in active <==> c in refs && InUse(c, tenant, kind) {
      ActiveOfHas(refs, tenant, kind, c);
    }
    StaleExactlyWhen(active, now);
    if active != [] {
      assert active[0] in active;
    }
  }

  lemma UnreadReferenceHead(refs: seq<Claim>, tenant: string, kind: string, now: int)
    requires refs != []
    ensures UnreadReference(refs, tenant, kind, now) <==>
      if InUse(refs[0], tenant, kind) && !Readable(refs[0].until) then true
      else if InUse(refs[0], tenant, kind) && Current(refs[0].until, now) then false
      else UnreadReference(refs[1..], tenant, kind, now)
  {
    ReachesHead(refs, c => InUse(c, tenant, kind) && !Readable(c.until),
                c => InUse(c, tenant, kind) && Current(c.until, now));
  }

  lemma {:induction false} UnreadReferenceExactlyWhen(refs: seq<Claim>, tenant: string, kind: string, now: int)
    ensures UnreadReference(refs, tenant, kind, now) <==> Freshest(Active(Of(refs, tenant, kind)), now).Broken?
  {
    if refs != [] {
      OfHead(refs, tenant, kind);
      UnreadReferenceExactlyWhen(refs[1..], tenant, kind, now);
      UnreadReferenceHead(refs, tenant, kind, now);
      ActiveHead(Of(refs[1..], tenant, kind), refs[0]);
      FreshestHead(Active(Of(refs[1..], tenant, kind)), refs[0], now);
    }
  }

  lemma ReferenceEffects(refs: seq<Claim>, tenant: string, kind: string, now: int)
    ensures var codes := ReferenceCodes(Of(refs, tenant, kind), now);
      && (codes.None? <==> UnreadReference(refs, tenant, kind, now))
      && (codes.Some? ==> ("reference_value_stale" in codes.value <==> AllExpired(refs, tenant, kind, now)))
      && (codes.Some? ==> "endorsement_expired" !in codes.value)
  {
    AllExpiredExactlyWhen(refs, tenant, kind, now);
    UnreadReferenceExactlyWhen(refs, tenant, kind, now);
  }

  // ----- endorsements --------------------------------------------------------------------------------

  lemma {:induction false} EndorsementEffects(ends: seq<Claim>, tenant: string, kind: string, now: int)
    ensures var codes := EndorsementCodes(Of(ends, tenant, kind), now);
      && (codes.None? <==> UnreadEndorsement(ends, tenant, kind, now))
      && (codes.Some? ==> ("endorsement_expired" in codes.value <==> ExpiredFirst(ends, tenant, kind, now)))
      && (codes.Some? ==> "reference_value_stale" !in codes.value)
  {
    if ends != [] {
      OfHead(ends, tenant, kind);
      EndorsementEffects(ends[1..], tenant, kind, now);
      EndorsementHeads(ends, tenant, kind, now);
      assert [] + Of(ends[1..], tenant, kind) == Of(ends[1..], tenant, kind);
      EndorsementStep(Of(ends[1..], tenant, kind), ends[0], now);
    }
  }

  lemma EndorsementHeads(ends: seq<Claim>, tenant: string, kind: string, now: int)
    requires ends != []
    ensures ExpiredFirst(ends, tenant, kind, now) <==>
      || Expired(ends[0], tenant, kind, now)
      || (!Trusts(ends[0], tenant, kind, now) && ExpiredFirst(ends[1..], tenant, kind, now))
    ensures UnreadEndorsement(ends, tenant, kind, now) <==>
      || (Concerns(ends[0], tenant, kind) && ends[0].status == "trusted_placeholder" && !Readable(ends[0].until))
      || (!Trusts(ends[0], tenant, kind, now) && UnreadEndorsement(ends[1..], tenant, kind, now))
  {
    ReachesHead(ends, c => Expired(c, tenant, kind, now), c => Trusts(c, tenant, kind, now));
    ReachesHead(ends, c => Concerns(c, tenant, kind) && c.status == "trusted_placeholder" && !Readable(c.until),
                c => Trusts(c, tenant, kind, now));
  }

  lemma EndorsementStep(claims: seq<Claim>, c: Claim, now: int)
    ensures var codes, rest := EndorsementCodes([c] + claims, now), EndorsementCodes(claims, now);
      if c.status == "trusted_placeholder" && !Readable(c.until) then codes.None?
      else if c.status == "trusted_placeholder" && Current(c.until, now) then codes == Some({})
      else
        && (codes.None? <==> rest.None?)
        && (codes.Some? ==>
              && ("reference_value_stale" in codes.value <==> "reference_value_stale" in rest.value)
              && ("endorsement_expired" in codes.value <==>
                    c.status == "expired" || c.status == "trusted_placeholder" || "endorsement_expired" in rest.value))
  {
    assert ([c] + claims)[1..] == claims;
  }

  // ----- all required types --------------------------------------------------------------------------

  lemma {:induction false} AllReferenceEffects(kinds: seq<string>, refs: seq<Claim>, tenant: string, now: int)
    ensures var codes := AllReferenceCodes(kinds, refs, tenant, now);
      && (codes.None? <==> exists k :: k in kinds && UnreadReference(refs, tenant, k, now))
      && (codes.Some? ==>
            && ("reference_value_stale" in codes.value <==> exists k :: k in kinds && AllExpired(refs, tenant, k, now))
            && "endorsement_expired" !in codes.value)
  {
    if kinds != [] {
      var front, last := kinds[..|kinds| - 1], kinds[|kinds| - 1];
      assert kinds == front + [last];
      AllReferenceEffects(front, refs, tenant, now);
      ReferenceEffects(refs, tenant, last, now);
    }
  }

  lemma {:induction false} AllEndorsementEffects(kinds: seq<string>, ends: seq<Claim>, tenant: string, now: int)
    ensures var codes := AllEndorsementCodes(kinds, ends, tenant, now);
      && (codes.None? <==> exists k :: k in kinds && UnreadEndorsement(ends, tenant, k, now))
      && (codes.Some? ==>
            && ("endorsement_expired" in codes.value <==> exists k :: k in kinds && ExpiredFirst(ends, tenant, k, now))
            && "reference_value_stale" !in codes.value)
  {
    if kinds != [] {
      var front, last := kinds[..|kinds| - 1], kinds[|kinds| - 1];
      assert kinds == front + [last];
      AllEndorsementEffects(front, ends, tenant, now);
      EndorsementEffects(ends, tenant, last, now);
    }
  }

  // ----- the whole appraisal -------------------------------------------------------------------------

  predicate Softening(codes: set<string>) {
    "reference_value_stale" in codes || "endorsement_expired" in codes
  }

  predicate Admissible(p: Policy) {
    p.status == "approved" || p.status == "active"
  }

  /** Something has expired: a required reference type, an endorsement met before a trusted one, or by a code that
      came with the attestation or the update record. */
  ghost predicate Softened(a: Record, p: Policy, refs: seq<Claim>, ends: seq<Claim>, u: Option<Update>, now: int) {
    || Softening(a.codes) || (u.Some? && Softening(u.value.codes))
    || (exists k :: k in p.referenceTypes && AllExpired(refs, a.tenant, k, now))
    || (exists k :: k in p.endorsementTypes && ExpiredFirst(ends, a.tenant, k, now))
  }

  /** A record whose taxonomy or codes are not known, or a time that cannot be compared, stands in the way. */
  ghost predicate ClaimsRaise(a: Record, p: Policy, refs: seq<Claim>, ends: seq<Claim>, u: Option<Update>, now: int) {
    || !Classified(refs) || !Classified(ends) || !UpdateReadable(u)
    || (exists k :: k in p.referenceTypes && UnreadReference(refs, a.tenant, k, now))
    || (exists k :: k in p.endorsementTypes && UnreadEndorsement(ends, a.tenant, k, now))
  }

  ghost predicate Raises(a: Record, policy: Option<Policy>, refs: seq<Claim>, ends: seq<Claim>, u: Option<Update>, now: int) {
    || !a.taxonomy || a.expires.Unparsable?
    || (a.status !in BLOCKING && policy.Some?
        && (!policy.value.taxonomy || (Admissible(policy.value) && ClaimsRaise(a, policy.value, refs, ends, u, now))))
  }

  lemma GatheredEffects(a: Record, p: Policy, refs: seq<Claim>, ends: seq<Claim>, u: Option<Update>, now: int)
    ensures var g := Gathered(a, p, refs, ends, u, now);
      && (g.None? <==> ClaimsRaise(a, p, refs, ends, u, now))
      && (g.Some? ==> (Softening(g.value) <==> Softened(a, p, refs, ends, u, now)))
  {
    AllReferenceEffects(p.referenceTypes, refs, a.tenant, now);
    AllEndorsementEffects(p.endorsementTypes, ends, a.tenant, now);
    OwnCodesDoNotSoften(a, refs, u);
    OwnCodesDoNotSoften(a, ends, u);
  }

  lemma OwnCodesDoNotSoften(a: Record, claims: seq<Claim>, u: Option<Update>)
    ensures !Softening(TrustRootCodes(a)) && !Softening(ForeignCodes(claims, a.tenant))
    ensures Softening(UpdateCodes(u)) <==> u.Some? && Softening(u.value.codes)
  {
  }

  /** The verifier raises exactly when a record or a time it has to look at cannot be read. */
  lemma RaisesExactlyWhen(a: Record, policy: Option<Policy>, refs: seq<Claim>, ends: seq<Claim>, u: Option<Update>, now: int)
    ensures Appraised(a, policy, refs, ends, u, now).Raised? <==> Raises(a, policy, refs, ends, u, now)
  {
    if policy.Some? {
      GatheredEffects(a, policy.value, refs, ends, u, now);
    }
  }

  /** Quarantine follows exactly from a blocking status, from a policy that is missing, revoked or blocked, and from
      a failure under an admissible policy that nothing expired softens; degradation exactly from a policy that is
      neither, and from a failure that something expired softens. */
  lemma EffectExactlyWhen(a: Record, policy: Option<Policy>, refs: seq<Claim>, ends: seq<Claim>, u: Option<Update>, now: int)
    requires !Raises(a, policy, refs, ends, u, now)
    ensures var r := Appraised(a, policy, refs, ends, u, now);
      && r.Appraisal?
      && (r.effect.QuarantineRequired? <==>
            || a.status in BLOCKING
            || policy.None? || policy.value.status == "revoked" || policy.value.status == "blocked_mvp"
            || (Admissible(policy.value) && !Passes(a, policy, refs, ends, u, now)
                && !Softened(a, policy.value, refs, ends, u, now)))
      && (r.effect.Degraded? <==>
            && a.status !in BLOCKING && policy.Some?
            && policy.value.status != "revoked" && policy.value.status != "blocked_mvp"
            && (Admissible(policy.value) ==> Softened(a, policy.value, refs, ends, u, now)))
  {
    RaisesExactlyWhen(a, policy, refs, ends, u, now);
    PassExactlyWhen(a, policy, refs, ends, u, now);
    if a.status !in BLOCKING && policy.Some? && Admissible(policy.value) {
      AppraisedIsConcluded(a, policy.value, refs, ends, u, now);
      GatheredEffects(a, policy.value, refs, ends, u, now);
      ConcludedEffects(a, policy.value.id, Gathered(a, policy.value, refs, ends, u, now).value, now);
    }
  }

  /** Under an admissible policy anything expired turns a failure into a degradation, whatever else failed. */
  lemma LapseSoftensFailure(a: Record, p: Policy, refs: seq<Claim>, ends: seq<Claim>, u: Option<Update>, now: int)
    requires !Raises(a, Some(p), refs, ends, u, now) && a.status !in BLOCKING && Admissible(p)
    requires Softened(a, p, refs, ends, u, now)
    ensures var r := Appraised(a, Some(p), refs, ends, u, now);
            r.Appraisal? && r.verdict.Inconclusive? && r.effect.Degraded?
  {
    EffectExactlyWhen(a, Some(p), refs, ends, u, now);
    VerdictAndEffectAgree(a, Some(p), refs, ends, u, now);
  }

  lemma ConcludedEffects(a: Record, id: string, codes: set<string>, now: int)
    requires !a.expires.Unparsable?
    ensures var r := Concluded(a, id, codes, now);
      && r.Appraisal?
      && (r.verdict.Passed? <==> Clean(codes))
      && (r.effect.Degraded? <==> Softening(codes))
      && (r.effect.QuarantineRequired? <==> !Clean(codes) && !Softening(codes))
  {
    assert "reference_value_stale" in FAILING && "endorsement_expired" in FAILING;
  }

  // ----- a failed trust root that is only degraded -----------------------------------------------------

  const FAILED_ROOT := Record(true, {}, "pending", "failed", "tenant", Absent)
  const ASKS_FOR_IMAGE := Policy(true, "policy", "active", ["os_image_hash"], [])
  const OLD_IMAGE := Claim(true, "tenant", "os_image_hash", "active", At(0))
  const NEW_IMAGE := Claim(true, "tenant", "os_image_hash", "active", At(2))

  /** One expired reference turns the quarantine of a failed trust root into a degradation: with the current
      reference the same attestation is quarantined. */
  lemma FailedTrustRootIsDegraded()
    ensures var r := Appraised(FAILED_ROOT, Some(ASKS_FOR_IMAGE), [OLD_IMAGE], [], None, 1);
            r.Appraisal? && r.effect.Degraded? && "trust_root_failed" in r.reasons
    ensures var r := Appraised(FAILED_ROOT, Some(ASKS_FOR_IMAGE), [NEW_IMAGE], [], None, 1);
            r.Appraisal? && r.effect.QuarantineRequired?
  {
    OneReference(OLD_IMAGE);
    OneReference(NEW_IMAGE);
  }

  lemma OneReference(c: Claim)
    requires c == OLD_IMAGE || c == NEW_IMAGE
    ensures var r := Appraised(FAILED_ROOT, Some(ASKS_FOR_IMAGE), [c], [], None, 1);
            && r.Appraisal? && "trust_root_failed" in r.reasons
            && if c == OLD_IMAGE then r.effect.Degraded? else r.effect.QuarantineRequired?
  {
    var p := ASKS_FOR_IMAGE;
    assert forall k | k in p.referenceTypes :: k == "os_image_hash";
    UnreadReferenceHead([c], "tenant", "os_image_hash", 1);
    assert !UnreadReference([], "tenant", "os_image_hash", 1);
    assert [c][0] == c && AllExpired([c], "tenant", "os_image_hash", 1) <==> c == OLD_IMAGE;
    assert "os_image_hash" in p.referenceTypes;
    RaisesExactlyWhen(FAILED_ROOT, Some(p), [c], [], None, 1);
    EffectExactlyWhen(FAILED_ROOT, Some(p), [c], [], None, 1);
  }
}
