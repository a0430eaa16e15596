/** The Guardian replay-safety check and the approval-binding check, with what their
    acceptance means for every reference time and every requested action. */
module GuardianInvariants {
  import opened Values
  import opened GuardianRecords

  const MICROS := 1_000_000
  const MAX_DECISION_AGE_SECONDS := 300
  const DEFAULT_SKEW_SECONDS := 30

  const ALLOWING_VERDICTS := {"allow", "allow_with_evidence"}

  const REFUSED_REPLAY_STATUSES := {"replay_denied", "expired", "revoked", "stale", "blocked_mvp"}

  const BLOCKED_ACTION_CLASSES := {
    "connector_access", "file_delete", "file_write", "network_access",
    "outbound_message", "privileged_operation", "scheduled_action", "lima_it_remediation"
  }

  const BLOCKED_MVP_ACTIONS := {
    "external_message_send", "external_send", "connector_access", "live_connector_access",
    "software_install_update", "remediation", "lima_it_remediation",
    "production_server_touch", "regulated_system_use"
  }

  const BLOCKED_ACTION_TYPES := BLOCKED_MVP_ACTIONS + {
    "connector_live_access", "delete_file", "external_message_send", "file_delete",
    "live_connector_write", "run_remediation", "send_external_message",
    "touch_production_server", "unrestricted_browser", "unrestricted_filesystem",
    "unrestricted_network"
  }

  const BLOCKED_TOOL_OPERATIONS := {
    "send_external_message", "live_connector_write", "run_remediation",
    "install_update_software", "touch_production_server", "unrestricted_browser",
    "unrestricted_filesystem", "unrestricted_network"
  }

  const TAINTED_STATUSES := {"untrusted", "suspected", "confirmed"}

  datatype Denial =
    | WrongRecord | IdsDiffer | BindingIdsDiffer | NotAllowed | NotOneTime
    | DenialEvidenceMissing | StatusNotUsable | StatusAmbiguous | AlreadyConsumed | Revoked
    | NonceMissing | NonceSpent | ClassBlocked | TypeBlocked | Tainted | EvidenceMissing
    | TimeGarbled | IssuedMissing | EffectiveMissing | ExpiryMissing | MaxAgeInvalid | SkewInvalid
    | EffectiveBeforeIssue | ExpiryBeforeIssue | ExpiryBeforeEffect
    | FutureIssued | FutureEffective | Expired | Stale
    | TenantMissing | TenantMismatch | ContextMissing | ContextMismatch
    | DecisionIdMissing | DecisionIdMismatch | TaskMissing | TaskMismatch
    | WorkerMissing | WorkerMismatch | ActionTypeMissing | ActionTypeMismatch
    | ScopeHashMissing | ScopeHashMismatch | BindingMissing | BindingMismatch
    | TokenMissing | TokenMismatch | ScopeNotObject | NoBoundScope | ResourceOutOfScope
    | OperationOutOfScope | ProhibitedOperation | BlockedOperation
    | BindingNotActive | BindingNotValid | TokensMissing | NotSeparated | IdentityMissing
    | CheckedAfterExpiry | FieldMismatch

  // ----- the time window -----------------------------------------------------------------

  function SecondsOr(s: Setting, default: int): Setting {
    if s.Missing? then Seconds(default) else s
  }

  function TimeWindow(d: Decision, reference: Stamp): Outcome<Denial> {
    if reference.NotText? then Pass else
    if !reference.At? then Fail(TimeGarbled) else
    var now := reference.micros;
    var maxAge := SecondsOr(d.maxAge, MAX_DECISION_AGE_SECONDS);
    var skew := SecondsOr(d.skew, DEFAULT_SKEW_SECONDS);
    if d.issuedAt.NotText? then Fail(IssuedMissing)
    else if d.effectiveAt.NotText? then Fail(EffectiveMissing)
    else if d.expiresAt.NotText? then Fail(ExpiryMissing)
    else if !(maxAge.Seconds? && maxAge.n > 0) then Fail(MaxAgeInvalid)
    else if !(skew.Seconds? && skew.n >= 0) then Fail(SkewInvalid)
    else if !(d.issuedAt.At? && d.effectiveAt.At? && d.expiresAt.At?) then Fail(TimeGarbled) else
    var issued, effective, expires := d.issuedAt.micros, d.effectiveAt.micros, d.expiresAt.micros;
    if effective < issued then Fail(EffectiveBeforeIssue)
    else if expires <= issued then Fail(ExpiryBeforeIssue)
    else if expires <= effective then Fail(ExpiryBeforeEffect)
    else if issued > now && issued - now > skew.n * MICROS then Fail(FutureIssued)
    else if effective > now && effective - now > skew.n * MICROS then Fail(FutureEffective)
    else if expires <= now then Fail(Expired)
    else if now - issued > (maxAge.n + skew.n) * MICROS then Fail(Stale)
    else if d.createdAt.Garbled? then Fail(TimeGarbled)
    else Need(d.createdAt.At? ==> now - d.createdAt.micros <= (maxAge.n + skew.n) * MICROS, Stale)
  }

  /** The decision's times are in order and, for a maximal age of `age` and a skew of `skew` seconds, the reference
      time lies between them. */
  predicate Timely(d: Decision, now: int, age: int, skew: int) {
    && age > 0 && skew >= 0
    && d.issuedAt.At? && d.effectiveAt.At? && d.expiresAt.At? && !d.createdAt.Garbled?
    && d.issuedAt.micros <= d.effectiveAt.micros < d.expiresAt.micros
    && d.effectiveAt.micros - skew * 1_000_000 <= now < d.expiresAt.micros
    && now - d.issuedAt.micros <= (age + skew) * 1_000_000
    && (d.createdAt.At? ==> now - d.createdAt.micros <= (age + skew) * 1_000_000)
  }

  /** With a maximal age of `age` and a skew of `skew` seconds, set or by default 300 and 30, the accepted reference
      times are exactly those from `skew` before the effective time, before expiry, and no more than `age + skew`
      after issue and creation. */
  lemma AcceptedTimesAreAnInterval(d: Decision, now: int, age: int, skew: int)
    requires d.maxAge == Seconds(age) || (d.maxAge == Missing && age == 300)
    requires d.skew == Seconds(skew) || (d.skew == Missing && skew == 30)
    ensures TimeWindow(d, At(now)).Pass? <==> Timely(d, now, age, skew)
  {
    if skew >= 0 {
      assert skew * MICROS >= 0;
    }
  }

  /** A setting that is no integer is never replaced by the default: no reference time is accepted. */
  lemma UnreadableSettingNeverPasses(d: Decision, now: int)
    requires d.maxAge.NotInteger? || d.skew.NotInteger?
    ensures TimeWindow(d, At(now)).Fail?
  {
  }

  /** The interval is closed under the times between two accepted ones, and its width is bounded by the age that
      applies and twice the skew, less the time between issue and effect. */
  lemma WindowWidth(d: Decision, first: int, last: int, age: int, skew: int)
    requires d.maxAge == Seconds(age) || (d.maxAge == Missing && age == 300)
    requires d.skew == Seconds(skew) || (d.skew == Missing && skew == 30)
    requires TimeWindow(d, At(first)).Pass? && TimeWindow(d, At(last)).Pass?
    ensures d.issuedAt.At? && d.effectiveAt.At? && d.expiresAt.At?
    ensures last < d.expiresAt.micros && last <= d.issuedAt.micros + (age + skew) * 1_000_000
    ensures last - first <= (age + 2 * skew) * 1_000_000 - (d.effectiveAt.micros - d.issuedAt.micros)
    ensures forall now | first <= now <= last :: TimeWindow(d, At(now)).Pass?
  {
    AcceptedTimesAreAnInterval(d, first, age, skew);
    AcceptedTimesAreAnInterval(d, last, age, skew);
    forall now | first <= now <= last ensures TimeWindow(d, At(now)).Pass? {
      AcceptedTimesAreAnInterval(d, now, age, skew);
    }
  }

  /** A decision that is dated in order is refused as expired from its expiry on, and before that, once effective, as
      stale when it was issued, or created, longer ago than the age and the skew that apply. */
  lemma TooLateExactlyWhen(d: Decision, now: int, age: int, skew: int)
    requires d.maxAge == Seconds(age) || (d.maxAge == Missing && age == 300)
    requires d.skew == Seconds(skew) || (d.skew == Missing && skew == 30)
    requires age > 0 && skew >= 0 && d.issuedAt.At? && d.effectiveAt.At? && d.expiresAt.At? && !d.createdAt.Garbled?
    requires d.issuedAt.micros <= d.effectiveAt.micros < d.expiresAt.micros
    ensures TimeWindow(d, At(now)) == Fail(Expired) <==> d.expiresAt.micros <= now
    ensures TimeWindow(d, At(now)) == Fail(Stale) <==>
      && d.effectiveAt.micros - skew * 1_000_000 <= now < d.expiresAt.micros
      && (now - d.issuedAt.micros > (age + skew) * 1_000_000
          || (d.createdAt.At? && now - d.createdAt.micros > (age + skew) * 1_000_000))
  {
    assert skew * MICROS >= 0;
  }

  predicate TooLate(o: Outcome<Denial>) {
    o == Fail(Expired) || o == Fail(Stale)
  }

  /** Expiry and staleness are final: no later reference time revives the decision. */
  lemma TooLateIsPermanent(d: Decision, now: int, later: int)
    requires TooLate(TimeWindow(d, At(now)))
    requires now <= later
    ensures TooLate(TimeWindow(d, At(later)))
    ensures TimeWindow(d, At(now)) == Fail(Expired) ==> TimeWindow(d, At(later)) == Fail(Expired)
  {
  }

  // ----- matching the requested action --------------------------------------------------

  function Matches(d: Decision, a: Action): Outcome<Denial> {
    if !IsName(a.tenantId) then Fail(TenantMissing)
    else if a.tenantId != d.tenantId then Fail(TenantMismatch)
    else if d.boundTenantId != Null && a.tenantId != d.boundTenantId then Fail(TenantMismatch)
    else if !IsName(a.customerContextId) then Fail(ContextMissing)
    else if a.customerContextId != d.customerContextId then Fail(ContextMismatch)
    else if !IsName(a.guardianDecisionId) then Fail(DecisionIdMissing)
    else if a.guardianDecisionId !in {d.decisionId, d.guardianDecisionId} then Fail(DecisionIdMismatch)
    else if Bound(d.boundTaskId, a.taskId, TaskMissing, TaskMismatch).Fail?
      then Bound(d.boundTaskId, a.taskId, TaskMissing, TaskMismatch)
    else if Bound(d.boundWorkerId, a.workerId, WorkerMissing, WorkerMismatch).Fail?
      then Bound(d.boundWorkerId, a.workerId, WorkerMissing, WorkerMismatch)
    else if Bound(d.boundActionType, a.actionType, ActionTypeMissing, ActionTypeMismatch).Fail?
      then Bound(d.boundActionType, a.actionType, ActionTypeMissing, ActionTypeMismatch)
    else MatchesReferences(d, a)
  }

  function MatchesReferences(d: Decision, a: Action): Outcome<Denial> {
    var scopeHash := Bound(d.scopeHash, Either(a.scopeHash, a.approvedScopeHash), ScopeHashMissing, ScopeHashMismatch);
    var binding := Bound(d.approvalBindingId, Either(a.approvalBindingId, a.bindingId), BindingMissing, BindingMismatch);
    if scopeHash.Fail? then scopeHash
    else if binding.Fail? then binding
    else Bound(d.tokenVerificationId, a.tokenVerificationId, TokenMissing, TokenMismatch)
  }

  /** A field the decision binds must be named by the action, with the same value. */
  function Bound(required: Value, actual: Value, missing: Denial, mismatch: Denial): Outcome<Denial> {
    if required == Null then Pass else
    if !IsName(actual) then Fail(missing)
    else Need(actual == required, mismatch)
  }

  function ScopeAllows(bound: Scope, requested: Scope): Outcome<Denial> {
    if !requested.Scope? then Fail(ScopeNotObject)
    else if !bound.Scope? then Fail(NoBoundScope)
    else if !(requested.resources != [] && Elements(requested.resources) <= Elements(bound.resources))
      then Fail(ResourceOutOfScope)
    else if !(requested.allowed != [] && Elements(requested.allowed) <= Elements(bound.allowed))
      then Fail(OperationOutOfScope)
    else if !(Elements(requested.allowed) !! Elements(bound.prohibited)) then Fail(ProhibitedOperation)
    else Need(Elements(requested.allowed) !! BLOCKED_TOOL_OPERATIONS, BlockedOperation)
  }

  function DecisionScopeAllows(d: Decision, a: Action): Outcome<Denial> {
    if d.boundToolScope.NoScope? && a.toolScope.NoScope? then Pass
    else ScopeAllows(d.boundToolScope, a.toolScope)
  }

  function EvidencePresent(bound: seq<Value>, a: Action): Outcome<Denial> {
    Need(a.evidenceRequired != Some(false) && a.evidenceRefs != []
         && Elements(a.evidenceRefs) <= Elements(bound), EvidenceMissing)
  }

  function DecisionMatchesBinding(d: Decision, b: Binding): Outcome<Denial> {
    if b.guardianDecisionId !in {d.decisionId, d.guardianDecisionId} then Fail(DecisionIdMismatch)
    else if d.approvalBindingId != Null && b.bindingId != d.approvalBindingId then Fail(BindingMismatch)
    else if !(d.tokenVerificationId == Null || b.tokenVerificationId == d.tokenVerificationId)
      then Fail(TokenMismatch)
    else Need(d.scopeHash == Null || b.approvedScopeHash == d.scopeHash, ScopeHashMismatch)
  }

  // ----- the replay-safety check ---------------------------------------------------------

  /** The part of the check that is about the decision alone, and the kind of action. */
  function Standing(d: Decision, a: Action, consumed: Option<set<string>>): Outcome<Denial> {
    if d.contractName != Text("guardian.decision") then Fail(WrongRecord)
    else if d.guardianDecisionId != d.decisionId then Fail(IdsDiffer)
    else if !(d.bindingId == Null || d.approvalBindingId == Null || d.bindingId == d.approvalBindingId)
      then Fail(BindingIdsDiffer)
    else if !OneOf(d.verdict, ALLOWING_VERDICTS) then Fail(NotAllowed)
    else if d.replayPolicy != Text("one_time") then Fail(NotOneTime)
    else if OneOf(d.replayStatus, REFUSED_REPLAY_STATUSES) && d.evidenceRequired && !Truthy(d.denialEvidenceRef)
      then Fail(DenialEvidenceMissing)
    else if OneOf(d.replayStatus, REFUSED_REPLAY_STATUSES + {"consumed"}) then Fail(StatusNotUsable)
    else if d.replayStatus != Text("unused") then Fail(StatusAmbiguous)
    else if d.consumedAt != Null then Fail(AlreadyConsumed)
    else if d.revokedAt != Null then Fail(Revoked)
    else if !IsName(d.nonce) then Fail(NonceMissing)
    else if consumed.Some? && d.nonce.text in consumed.value then Fail(NonceSpent)
    else if OneOf(d.actionClass, BLOCKED_ACTION_CLASSES) then Fail(ClassBlocked)
    else if OneOf(Either(a.actionType, d.boundActionType), BLOCKED_ACTION_TYPES) then Fail(TypeBlocked)
    else if d.injectionSuspected then Fail(Tainted)
    else if !(d.evidenceRequired && d.evidenceRefs != []) then Fail(EvidenceMissing)
    else Pass
  }

  /** `consumed` is the caller's set of consumed nonces, if it passes one. */
  function ReplaySafe(d: Decision, a: Action, reference: Stamp, consumed: Option<set<string>>): Outcome<Denial> {
    if Standing(d, a, consumed).Fail? then Standing(d, a, consumed)
    else if TimeWindow(d, reference).Fail? then TimeWindow(d, reference)
    else if Matches(d, a).Fail? then Matches(d, a)
    else if DecisionScopeAllows(d, a).Fail? then DecisionScopeAllows(d, a)
    else if EvidencePresent(d.evidenceRefs, a).Fail? then EvidencePresent(d.evidenceRefs, a)
    else if a.approvalBinding.Some? then DecisionMatchesBinding(d, a.approvalBinding.value) else Pass
  }

  /** The consumed set enters the check in one place only: the decision's own nonce. */
  lemma NonceGuardIsIndependent(d: Decision, a: Action, reference: Stamp, consumed: set<string>)
    ensures ReplaySafe(d, a, reference, Some(consumed)).Pass?
            <==> ReplaySafe(d, a, reference, None).Pass? && !(IsName(d.nonce) && d.nonce.text in consumed)
  {
  }

  // ----- the approval-binding check --------------------------------------------------------

  function BindingFields(b: Binding): seq<Value> {
    [b.tenantId, b.customerContextId, b.taskId, b.toolInvocationId, b.workerId, b.guardianDecisionId,
     b.approvalRequestId, b.approvalResultId, b.approvalTokenId, b.tokenVerificationId, b.bindingId,
     b.approvalChainId, b.policyVersion, b.policySnapshotHash, b.approvedScopeHash]
  }

  function ActionFields(a: Action): seq<Value> {
    [a.tenantId, a.customerContextId, a.taskId, a.toolInvocationId, a.workerId, a.guardianDecisionId,
     a.approvalRequestId, a.approvalResultId, a.approvalTokenId, a.tokenVerificationId, a.bindingId,
     a.approvalChainId, a.policyVersion, a.policySnapshotHash, a.approvedScopeHash]
  }

  function BindingMatches(b: Binding, a: Action): Outcome<Denial> {
    var bound, asked := BindingFields(b), ActionFields(a);
    if exists i :: 0 <= i < 15 && asked[i] != Null && bound[i] != asked[i] then Fail(FieldMismatch)
    else if OneOf(a.actionType, BLOCKED_MVP_ACTIONS) then Fail(TypeBlocked)
    else Need(a.actionType == Null || b.actionType == a.actionType, ActionTypeMismatch)
  }

  function BindingFresh(b: Binding, a: Action, reference: Stamp): Outcome<Denial> {
    if reference.Garbled? then Fail(TimeGarbled)
    else if reference.At? && b.expiresAt.NotText? then Fail(ExpiryMissing)
    else if reference.At? && !b.expiresAt.At? then Fail(TimeGarbled)
    else if reference.At? && b.expiresAt.micros <= reference.micros then Fail(Expired)
    else if !(!b.checkedAt.NotText? && !b.expiresAt.NotText? ==> b.checkedAt.At? && b.expiresAt.At?)
      then Fail(TimeGarbled)
    else if b.checkedAt.At? && b.expiresAt.At? && b.checkedAt.micros > b.expiresAt.micros
      then Fail(CheckedAfterExpiry)
    else if a.guardianDecision.Some? then ReplaySafe(a.guardianDecision.value, a, reference, None) else Pass
  }

  /** The part of the check that is about the binding alone. */
  function BindingStanding(b: Binding): Outcome<Denial> {
    if b.contractName != Text("approval.binding") then Fail(WrongRecord)
    else if b.status != Text("bound") then Fail(BindingNotActive)
    else if b.verificationResult != Text("valid") then Fail(BindingNotValid)
    else if b.tokenUsePolicy != Text("one_time") then Fail(NotOneTime)
    else if b.blockedMvpAction then Fail(TypeBlocked)
    else if OneOf(b.actionType, BLOCKED_MVP_ACTIONS) then Fail(TypeBlocked)
    else if !(b.approvalTokenId != Null && b.tokenVerificationId != Null) then Fail(TokensMissing)
    else if b.consumedAt != Null then Fail(AlreadyConsumed)
    else if b.revokedAt != Null then Fail(Revoked)
    else if b.separationCheck != Text("pass") then Fail(NotSeparated)
    else if b.requesterRef == b.approverRef then Fail(NotSeparated)
    else if b.identityAssuranceRefs == [] then Fail(IdentityMissing)
    else if !(!OneOf(b.taintStatus, TAINTED_STATUSES) && b.taintRefs == []) then Fail(Tainted)
    else if !(b.evidenceRequired && b.evidenceRefs != []) then Fail(EvidenceMissing)
    else Pass
  }

  function BindingAuthorizes(b: Binding, a: Action, reference: Stamp, consumed: Option<set<string>>): Outcome<Denial> {
    if BindingStanding(b).Fail? then BindingStanding(b)
    else if BindingFresh(b, a, reference).Fail? then BindingFresh(b, a, reference)
    else if BindingMatches(b, a).Fail? then BindingMatches(b, a)
    else if a.toolScope != NoScope && ScopeAllows(b.toolScope, a.toolScope).Fail?
      then ScopeAllows(b.toolScope, a.toolScope)
    else if EvidencePresent(b.evidenceRefs, a).Fail? then EvidencePresent(b.evidenceRefs, a)
    else if !IsName(b.nonceRef) then Fail(NonceMissing)
    else Need(consumed.None? || b.nonceRef.text !in consumed.value, NonceSpent)
  }

  // ----- the checks as called, with the caller's set of consumed nonces ---------------------

  /** The mutable set of consumed nonces that a caller passes in. */
  class NonceSet {
    var members: set<string>

    constructor ()
      ensures members == {}
    {
      members := {};
    }
  }

  function Members(nonces: NonceSet?): Option<set<string>>
    reads if nonces == null then {} else {nonces}
  {
    if nonces == null then None else Some(nonces.members)
  }

  method AssertReplaySafe(d: Decision, a: Action, reference: Stamp, consumed: NonceSet?, consume: bool)
    returns (o: Outcome<Denial>)
    modifies if consumed == null then {} else {consumed}
    ensures o == old(ReplaySafe(d, a, reference, Members(consumed)))
    ensures o.Pass? ==> IsName(d.nonce)
    ensures consumed != null ==>
      consumed.members == old(consumed.members) + (if o.Pass? && consume then {d.nonce.text} else {})
  {
    o := ReplaySafe(d, a, reference, Members(consumed));
    if o.Pass? && consumed != null && consume {
      consumed.members := consumed.members + {d.nonce.text};
    }
  }

  method AssertBindingAuthorizes(b: Binding, a: Action, reference: Stamp, consumed: NonceSet?, consume: bool)
    returns (o: Outcome<Denial>)
    modifies if consumed == null then {} else {consumed}
    ensures o == old(BindingAuthorizes(b, a, reference, Members(consumed)))
    ensures o.Pass? ==> IsName(b.nonceRef)
    ensures consumed != null ==>
      consumed.members == old(consumed.members) + (if o.Pass? && consume then {b.nonceRef.text} else {})
  {
    o := BindingAuthorizes(b, a, reference, Members(consumed));
    if o.Pass? && consumed != null && consume {
      consumed.members := consumed.members + {b.nonceRef.text};
    }
  }
}
