/** The attestation verifier: grouping loops over references and endorsements, and when they let a result pass. */
module Attestation {
  import opened Values

  /** A timestamp field: missing or empty, not a timestamp, without a time zone, or a point in microseconds. */
  datatype Stamp = Absent | Unparsable | Naive | At(micros: int)

  /** `taxonomy`: the record's taxonomy version and reason codes are known. Missing text fields are empty. */
  datatype Record = Record(
    taxonomy: bool, codes: set<string>, status: string, trustRoot: string, tenant: string, expires: Stamp)

  datatype Policy = Policy(
    taxonomy: bool, id: string, status: string, referenceTypes: seq<string>, endorsementTypes: seq<string>)

  /** A reference value or an endorsement; `until` is its expiry or the end of its validity. */
  datatype Claim = Claim(taxonomy: bool, tenant: string, kind: string, status: string, until: Stamp)

  datatype Update = Update(taxonomy: bool, codesKnown: bool, codes: set<string>, status: string)

  datatype Verdict = Passed | Failed | Inconclusive
  datatype Effect = TrustedMetadataOnly | QuarantineRequired | Degraded

  datatype Appraisal =
    | Raised
    | Appraisal(policyId: string, verdict: Verdict, effect: Effect, reasons: set<string>, expires: Stamp)

  const BLOCKING: set<string> := {"failed", "expired", "revoked", "blocked_mvp"}

  const FAILING: set<string> := {
    "reference_value_missing", "reference_value_stale", "reference_value_revoked",
    "endorsement_missing", "endorsement_revoked", "endorsement_expired",
    "appraisal_policy_missing", "appraisal_policy_revoked",
    "attestation_reference_mismatch", "trust_root_failed"
  }

  // ----- claims of one type --------------------------------------------------------------------------

  /** The claims of a tenant and a type, in order: what the grouping loop collects under the type. */
  function Of(claims: seq<Claim>, tenant: string, kind: string): (r: seq<Claim>)
    ensures forall c | c in r :: c in claims && c.tenant == tenant && c.kind == kind
  {
    if claims == [] then []
    else
      var last := claims[|claims| - 1];
      Of(claims[..|claims| - 1], tenant, kind) + if last.tenant == tenant && last.kind == kind then [last] else []
  }

  function Active(claims: seq<Claim>): (r: seq<Claim>)
    ensures forall c | c in r :: c in claims && c.status == "active"
    ensures forall c | c in claims && c.status == "active" :: c in r
  {
    if claims == [] then [] else (if claims[0].status == "active" then [claims[0]] else []) + Active(claims[1..])
  }

  datatype Freshness = Broken | Stale | Fresh

  predicate Readable(s: Stamp) {
    s.Absent? || s.At?
  }

  predicate Current(s: Stamp, now: int) {
    s.Absent? || (s.At? && s.micros >= now)
  }

  /** The first claim that is current or whose time cannot be compared decides. */
  function Freshest(active: seq<Claim>, now: int): Freshness {
    if active == [] then Stale
    else if !Readable(active[0].until) then Broken
    else if Current(active[0].until, now) then Fresh
    else Freshest(active[1..], now)
  }

  function MissingCodes(candidates: seq<Claim>): (r: set<string>)
    ensures candidates == [] ==> r == {"reference_value_missing"}
  {
    {"reference_value_missing"}
    + if exists c :: c in candidates && c.status == "revoked" then {"reference_value_revoked"} else {}
  }

  function ReferenceCodes(candidates: seq<Claim>, now: int): Option<set<string>> {
    if Active(candidates) == [] then Some(MissingCodes(candidates))
    else
      match Freshest(Active(candidates), now)
      case Broken => None
      case Stale => Some({"reference_value_stale"})
      case Fresh => Some({})
  }

  lemma NothingJoined(a: set<string>, b: set<string>)
    ensures a + b == {} <==> a == {} && b == {}
  {
    if a + b == {} {
      forall c ensures c !in a && c !in b {
        assert c !in a + b;
      }
    }
  }

  /** The codes of two parts; none when either part raises. */
  function Joined(a: Option<set<string>>, b: Option<set<string>>): (r: Option<set<string>>)
    ensures r == Some({}) <==> a == Some({}) && b == Some({})
    ensures r.Some? <==> a.Some? && b.Some?
    ensures r.Some? ==> forall c :: c in r.value <==> c in a.value || c in b.value
  {
    if a.None? || b.None? then None else
    NothingJoined(a.value, b.value);
    Some(a.value + b.value)
  }

  ghost predicate Same(a: Option<set<string>>, b: Option<set<string>>) {
    if a.None? || b.None? then a.None? && b.None? else forall c :: c in a.value <==> c in b.value
  }

  /** The loop over one type's endorsements, which stops at the first trusted and valid one. */
  function EndorsementCodes(candidates: seq<Claim>, now: int): Option<set<string>> {
    if candidates == [] then Some({"endorsement_missing"}) else
    var c, rest := candidates[0], candidates[1..];
    if c.status == "revoked" then Joined(EndorsementCodes(rest, now), Some({"endorsement_revoked"}))
    else if c.status == "expired" then Joined(EndorsementCodes(rest, now), Some({"endorsement_expired"}))
    else if c.status != "trusted_placeholder" then EndorsementCodes(rest, now)
    else if !Readable(c.until) then None
    else if Current(c.until, now) then Some({})
    else Joined(EndorsementCodes(rest, now), Some({"endorsement_expired"}))
  }

  // ----- the whole appraisal -------------------------------------------------------------------------

  /** The codes of every required type, or none when reading a timestamp raises. */
  function AllReferenceCodes(kinds: seq<string>, refs: seq<Claim>, tenant: string, now: int): Option<set<string>> {
    if kinds == [] then Some({}) else
    Joined(AllReferenceCodes(kinds[..|kinds| - 1], refs, tenant, now),
           ReferenceCodes(Of(refs, tenant, kinds[|kinds| - 1]), now))
  }

  function AllEndorsementCodes(kinds: seq<string>, ends: seq<Claim>, tenant: string, now: int): Option<set<string>> {
    if kinds == [] then Some({}) else
    Joined(AllEndorsementCodes(kinds[..|kinds| - 1], ends, tenant, now),
           EndorsementCodes(Of(ends, tenant, kinds[|kinds| - 1]), now))
  }

  predicate Classified(claims: seq<Claim>) {
    forall c | c in claims :: c.taxonomy
  }

  predicate Foreign(claims: seq<Claim>, tenant: string) {
    exists c :: c in claims && c.tenant != tenant
  }

  function ForeignCodes(claims: seq<Claim>, tenant: string): set<string> {
    if Foreign(claims, tenant) then {"attestation_reference_mismatch"} else {}
  }

  predicate UpdateReadable(u: Option<Update>) {
    u.Some? ==> u.value.taxonomy && u.value.codesKnown
  }

  function UpdateCodes(u: Option<Update>): set<string> {
    if u.None? then {} else
    u.value.codes
    + if u.value.status in {"failed", "rolled_back", "blocked_mvp"} then {"attestation_quarantine_required"} else {}
  }

  function TrustRootCodes(a: Record): set<string> {
    if a.trustRoot == "failed" then {"trust_root_failed"}
    else if a.trustRoot in {"unknown", "blocked_mvp"} then {"trust_root_unknown"}
    else {}
  }

  /** The codes gathered before the final classification; none when a record or a timestamp is refused. */
  function Gathered(a: Record, p: Policy, refs: seq<Claim>, ends: seq<Claim>, u: Option<Update>, now: int)
    : Option<set<string>>
  {
    var r := AllReferenceCodes(p.referenceTypes, refs, a.tenant, now);
    var e := AllEndorsementCodes(p.endorsementTypes, ends, a.tenant, now);
    if !Classified(refs) || !Classified(ends) || !UpdateReadable(u) || r.None? || e.None? then None
    else Some(a.codes + TrustRootCodes(a) + (r.value + ForeignCodes(refs, a.tenant))
      + (e.value + ForeignCodes(ends, a.tenant)) + UpdateCodes(u))
  }

  /** The result record; its expiry must be a timestamp, and a passing result without one expires at once. */
  function Resulting(a: Record, policyId: string, verdict: Verdict, effect: Effect, reasons: set<string>, now: int): Appraisal {
    if a.expires.Unparsable? then Raised
    else Appraisal(policyId, verdict, effect, reasons, if verdict.Passed? && a.expires.Absent? then At(now) else a.expires)
  }

  predicate Clean(codes: set<string>) {
    codes !! FAILING
  }

  function Concluded(a: Record, policyId: string, codes: set<string>, now: int): Appraisal {
    if Clean(codes) then Resulting(a, policyId, Passed, TrustedMetadataOnly, codes + {"approved"}, now)
    else if "reference_value_stale" in codes || "endorsement_expired" in codes
      then Resulting(a, policyId, Inconclusive, Degraded, codes + {"appraisal_failed"}, now)
    else Resulting(a, policyId, Failed, QuarantineRequired, codes + {"appraisal_failed"}, now)
  }

  function Appraised(a: Record, policy: Option<Policy>, refs: seq<Claim>, ends: seq<Claim>, u: Option<Update>, now: int)
    : Appraisal
  {
    if !a.taxonomy then Raised
    else if a.status in BLOCKING then
      Resulting(a, if policy.Some? then policy.value.id else "", Failed, QuarantineRequired,
        a.codes + {if a.status == "expired" then "attestation_result_expired" else "attestation_quarantine_required"}, now)
    else
      var codes := a.codes + TrustRootCodes(a);
      if policy.None? then Resulting(a, "", Failed, QuarantineRequired, codes + {"appraisal_policy_missing"}, now)
      else
        var p := policy.value;
        if !p.taxonomy then Raised
        else if p.status == "revoked" || p.status == "blocked_mvp" then
          Resulting(a, p.id, Failed, QuarantineRequired, codes + {"appraisal_policy_revoked"}, now)
        else if p.status != "approved" && p.status != "active" then
          Resulting(a, p.id, Inconclusive, Degraded, codes + {"appraisal_policy_missing"}, now)
        else
          var gathered := Gathered(a, p, refs, ends, u, now);
          if gathered.None? then Raised else Concluded(a, p.id, gathered.value, now)
  }

  // ----- the loops -----------------------------------------------------------------------------------

  /** Groups the claims of the tenant by type; `None` when a claim's taxonomy is refused. */
  method Group(claims: seq<Claim>, tenant: string) returns (groups: Option<map<string, seq<Claim>>>, foreign: bool)
    ensures groups.None? <==> !Classified(claims)
    ensures groups.Some? ==> foreign == Foreign(claims, tenant)
    ensures groups.Some? ==> forall k :: Lookup(groups.value, k) == Of(claims, tenant, k)
  {
    var byType: map<string, seq<Claim>> := map[];
    foreign := false;
    for n := 0 to |claims|
      invariant Classified(claims[..n]) && foreign == Foreign(claims[..n], tenant)
      invariant forall k :: Lookup(byType, k) == Of(claims[..n], tenant, k)
    {
      var c := claims[n];
      assert claims[..n + 1][..n] == claims[..n];
      if !c.taxonomy {
        return None, foreign;
      }
      if c.tenant != tenant {
        assert c in claims[..n + 1];
        foreign := true;
        continue;
      }
      byType := byType[c.kind := Lookup(byType, c.kind) + [c]];
    }
    assert claims[..|claims|] == claims;
    groups := Some(byType);
  }

  function Lookup(groups: map<string, seq<Claim>>, kind: string): seq<Claim> {
    if kind in groups then groups[kind] else []
  }

  method CheckReference(candidates: seq<Claim>, now: int) returns (codes: Option<set<string>>)
    ensures codes == ReferenceCodes(candidates, now)
  {
    if candidates == [] {
      return Some({"reference_value_missing"});
    }
    var active := Active(candidates);
    if active == [] {
      return Some(MissingCodes(candidates));
    }
    var stale, n := true, 0;
    while n < |active|
      invariant n <= |active| && stale
      invariant Freshest(active[n..], now) == Freshest(active, now)
    {
      var until := active[n].until;
      assert active[n..][1..] == active[n + 1..];
      if !Readable(until) {
        return None;
      }
      if Current(until, now) {
        stale := false;
        break;
      }
      n := n + 1;
    }
    codes := Some(if stale then {"reference_value_stale"} else {});
  }

  method CheckEndorsement(candidates: seq<Claim>, now: int) returns (codes: Option<set<string>>)
    ensures Same(codes, EndorsementCodes(candidates, now))
  {
    var found: set<string>, trusted, n := {}, false, 0;
    assert candidates[0..] == candidates;
    while n < |candidates|
      invariant n <= |candidates| && !trusted
      invariant Same(Joined(EndorsementCodes(candidates[n..], now), Some(found)), EndorsementCodes(candidates, now))
    {
      var c := candidates[n];
      assert candidates[n..][1..] == candidates[n + 1..];
      n := n + 1;
      if c.status in {"revoked", "expired", "untrusted", "blocked_mvp"} {
        if c.status == "revoked" { found := found + {"endorsement_revoked"}; }
        if c.status == "expired" { found := found + {"endorsement_expired"}; }
        continue;
      }
      if c.status != "trusted_placeholder" {
        continue;
      }
      if !Readable(c.until) {
        return None;
      }
      if !Current(c.until, now) {
        found := found + {"endorsement_expired"};
        continue;
      }
      trusted := true;
      break;
    }
    if !trusted { found := found + {"endorsement_missing"}; }
    codes := Some(found);
  }

  method CheckReferences(a: Record, p: Policy, refs: seq<Claim>, now: int) returns (codes: Option<set<string>>)
    ensures codes.None? <==> !Classified(refs) || AllReferenceCodes(p.referenceTypes, refs, a.tenant, now).None?
    ensures codes.Some? ==>
      codes.value == AllReferenceCodes(p.referenceTypes, refs, a.tenant, now).value + ForeignCodes(refs, a.tenant)
  {
    var groups, foreign := Group(refs, a.tenant);
    if groups.None? {
      return None;
    }
    var found: set<string> := {};
    for n := 0 to |p.referenceTypes|
      invariant AllReferenceCodes(p.referenceTypes[..n], refs, a.tenant, now) == Some(found)
    {
      assert p.referenceTypes[..n + 1][..n] == p.referenceTypes[..n];
      var here := CheckReference(Lookup(groups.value, p.referenceTypes[n]), now);
      if here.None? {
        BrokenReferences(p.referenceTypes, n, refs, a.tenant, now);
        return None;
      }
      found := found + here.value;
    }
    assert p.referenceTypes[..|p.referenceTypes|] == p.referenceTypes;
    codes := Some(found + if foreign then {"attestation_reference_mismatch"} else {});
  }

  method CheckEndorsements(a: Record, p: Policy, ends: seq<Claim>, now: int) returns (codes: Option<set<string>>)
    ensures codes.None? <==> !Classified(ends) || AllEndorsementCodes(p.endorsementTypes, ends, a.tenant, now).None?
    ensures codes.Some? ==>
      codes.value == AllEndorsementCodes(p.endorsementTypes, ends, a.tenant, now).value + ForeignCodes(ends, a.tenant)
  {
    var groups, foreign := Group(ends, a.tenant);
    if groups.None? {
      return None;
    }
    var found: set<string> := {};
    for n := 0 to |p.endorsementTypes|
      invariant AllEndorsementCodes(p.endorsementTypes[..n], ends, a.tenant, now) == Some(found)
    {
      assert p.endorsementTypes[..n + 1][..n] == p.endorsementTypes[..n];
      var here := CheckEndorsement(Lookup(groups.value, p.endorsementTypes[n]), now);
      if here.None? {
        BrokenEndorsements(p.endorsementTypes, n, ends, a.tenant, now);
        return None;
      }
      assert here.value == EndorsementCodes(Of(ends, a.tenant, p.endorsementTypes[n]), now).value;
      found := found + here.value;
    }
    assert p.endorsementTypes[..|p.endorsementTypes|] == p.endorsementTypes;
    codes := Some(found + if foreign then {"attestation_reference_mismatch"} else {});
  }

  lemma {:induction false} BrokenReferences(kinds: seq<string>, n: nat, refs: seq<Claim>, tenant: string, now: int)
    requires n < |kinds| && ReferenceCodes(Of(refs, tenant, kinds[n]), now).None?
    ensures AllReferenceCodes(kinds, refs, tenant, now).None?
  {
    if n < |kinds| - 1 {
      BrokenReferences(kinds[..|kinds| - 1], n, refs, tenant, now);
    }
  }

  lemma {:induction false} BrokenEndorsements(kinds: seq<string>, n: nat, ends: seq<Claim>, tenant: string, now: int)
    requires n < |kinds| && EndorsementCodes(Of(ends, tenant, kinds[n]), now).None?
    ensures AllEndorsementCodes(kinds, ends, tenant, now).None?
  {
    if n < |kinds| - 1 {
      BrokenEndorsements(kinds[..|kinds| - 1], n, ends, tenant, now);
    }
  }

  method EvaluateAttestationMetadata(
    a: Record, policy: Option<Policy>, refs: seq<Claim>, ends: seq<Claim>, u: Option<Update>, now: int)
    returns (r: Appraisal)
    ensures r == Appraised(a, policy, refs, ends, u, now)
  {
    if !a.taxonomy {
      return Raised;
    }
    var reasons := a.codes;
    if a.status in BLOCKING {
      if a.status == "expired" {
        reasons := reasons + {"attestation_result_expired"};
      } else {
        reasons := reasons + {"attestation_quarantine_required"};
      }
      return Resulting(a, if policy.Some? then policy.value.id else "", Failed, QuarantineRequired, reasons, now);
    }
    reasons := reasons + TrustRootCodes(a);
    if policy.None? {
      return Resulting(a, "", Failed, QuarantineRequired, reasons + {"appraisal_policy_missing"}, now);
    }
    var p := policy.value;
    if !p.taxonomy {
      return Raised;
    }
    if p.status == "revoked" || p.status == "blocked_mvp" {
      return Resulting(a, p.id, Failed, QuarantineRequired, reasons + {"appraisal_policy_revoked"}, now);
    }
    if p.status != "approved" && p.status != "active" {
      return Resulting(a, p.id, Inconclusive, Degraded, reasons + {"appraisal_policy_missing"}, now);
    }
    var byReference := CheckReferences(a, p, refs, now);
    if byReference.None? {
      return Raised;
    }
    var byEndorsement := CheckEndorsements(a, p, ends, now);
    if byEndorsement.None? || !UpdateReadable(u) {
      return Raised;
    }
    reasons := reasons + byReference.value + byEndorsement.value + UpdateCodes(u);
    assert Gathered(a, p, refs, ends, u, now).value == reasons;
    r := Concluded(a, p.id, reasons, now);
  }
}
