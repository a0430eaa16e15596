/** What an authorized decision or binding agrees with, stated apart from the order of the checks. */
module Authorizations {
  import opened Values
  import opened GuardianRecords
  import opened GuardianInvariants

  // ----- what the records and the action must show ---------------------------------------------------

  /** The action leaves the field out or names what the record holds. */
  predicate Asked(asked: Value, held: Value) {
    asked == Null || asked == held
  }

  /** The record leaves the field open or the action names what it holds. */
  predicate Named(held: Value, named: Value) {
    held == Null || (IsName(named) && named == held)
  }

  /** The requested scope asks for something, only inside the bound scope, and nothing prohibited or blocked. */
  predicate Contained(requested: Scope, bound: Scope) {
    && requested.Scope? && bound.Scope?
    && requested.resources != [] && Elements(requested.resources) <= Elements(bound.resources)
    && requested.allowed != [] && Elements(requested.allowed) <= Elements(bound.allowed)
    && Elements(requested.allowed) !! Elements(bound.prohibited)
    && Elements(requested.allowed) !! BLOCKED_TOOL_OPERATIONS
  }

  predicate Evidenced(a: Action, held: seq<Value>) {
    a.evidenceRequired != Some(false) && a.evidenceRefs != [] && Elements(a.evidenceRefs) <= Elements(held)
  }

  // ----- approval bindings ---------------------------------------------------------------------------

  /** The binding is active, separated, identified, untainted and evidenced. */
  predicate BindingStands(b: Binding) {
    && b.contractName == Text("approval.binding") && b.status == Text("bound")
    && b.verificationResult == Text("valid") && b.tokenUsePolicy == Text("one_time")
    && !b.blockedMvpAction && !OneOf(b.actionType, BLOCKED_MVP_ACTIONS)
    && b.approvalTokenId != Null && b.tokenVerificationId != Null && b.consumedAt == Null && b.revokedAt == Null
    && b.separationCheck == Text("pass") && b.requesterRef != b.approverRef && b.identityAssuranceRefs != []
    && !OneOf(b.taintStatus, TAINTED_STATUSES) && b.taintRefs == []
    && b.evidenceRequired && b.evidenceRefs != [] && IsName(b.nonceRef)
  }

  /** Not expired at the reference time, if there is one, and not checked after it expired. */
  predicate BindingInForce(b: Binding, reference: Stamp) {
    && !reference.Garbled?
    && (reference.At? ==> b.expiresAt.At? && reference.micros < b.expiresAt.micros)
    && (!b.checkedAt.NotText? && !b.expiresAt.NotText? ==>
          b.checkedAt.At? && b.expiresAt.At? && b.checkedAt.micros <= b.expiresAt.micros)
  }

  predicate FieldsAgree(b: Binding, a: Action) {
    && Asked(a.tenantId, b.tenantId) && Asked(a.customerContextId, b.customerContextId)
    && Asked(a.taskId, b.taskId) && Asked(a.toolInvocationId, b.toolInvocationId)
    && Asked(a.workerId, b.workerId) && Asked(a.guardianDecisionId, b.guardianDecisionId)
    && Asked(a.approvalRequestId, b.approvalRequestId) && Asked(a.approvalResultId, b.approvalResultId)
    && Asked(a.approvalTokenId, b.approvalTokenId) && Asked(a.tokenVerificationId, b.tokenVerificationId)
    && Asked(a.bindingId, b.bindingId) && Asked(a.approvalChainId, b.approvalChainId)
    && Asked(a.policyVersion, b.policyVersion) && Asked(a.policySnapshotHash, b.policySnapshotHash)
    && Asked(a.approvedScopeHash, b.approvedScopeHash)
  }

  predicate BindingAgrees(b: Binding, a: Action) {
    FieldsAgree(b, a) && Asked(a.actionType, b.actionType) && !OneOf(a.actionType, BLOCKED_MVP_ACTIONS)
  }

  /** The action is entitled to use the binding, whatever nonces have been consumed. */
  predicate Entitled(b: Binding, a: Action, reference: Stamp) {
    && BindingStands(b) && BindingInForce(b, reference) && BindingAgrees(b, a)
    && (a.toolScope.NoScope? || Contained(a.toolScope, b.toolScope)) && Evidenced(a, b.evidenceRefs)
    && (a.guardianDecision.Some? ==> Usable(a.guardianDecision.value, a, reference))
  }

  // ----- Guardian decisions --------------------------------------------------------------------------

  /** The decision allows, is unused, whole and evidenced, and is not about anything blocked. */
  predicate DecisionStands(d: Decision, actionType: Value) {
    && d.contractName == Text("guardian.decision") && d.guardianDecisionId == d.decisionId
    && (d.bindingId == Null || d.approvalBindingId == Null || d.bindingId == d.approvalBindingId)
    && OneOf(d.verdict, ALLOWING_VERDICTS) && d.replayPolicy == Text("one_time") && d.replayStatus == Text("unused")
    && d.consumedAt == Null && d.revokedAt == Null && IsName(d.nonce)
    && !OneOf(d.actionClass, BLOCKED_ACTION_CLASSES)
    && !OneOf(if Truthy(actionType) then actionType else d.boundActionType, BLOCKED_ACTION_TYPES)
    && !d.injectionSuspected && d.evidenceRequired && d.evidenceRefs != []
  }

  /** The reference time, if there is one, is timely for the settings of the decision; a missing maximal age is
      300 seconds, a missing skew 30, and a setting that is no integer is never met. */
  predicate InWindow(d: Decision, reference: Stamp) {
    match (reference, d.maxAge, d.skew)
    case (NotText, _, _) => true
    case (At(now), Seconds(age), Seconds(skew)) => Timely(d, now, age, skew)
    case (At(now), Seconds(age), Missing) => Timely(d, now, age, 30)
    case (At(now), Missing, Seconds(skew)) => Timely(d, now, 300, skew)
    case (At(now), Missing, Missing) => Timely(d, now, 300, 30)
    case _ => false
  }

  predicate DecisionAgrees(d: Decision, a: Action) {
    && IsName(a.tenantId) && a.tenantId == d.tenantId && Asked(d.boundTenantId, a.tenantId)
    && IsName(a.customerContextId) && a.customerContextId == d.customerContextId
    && IsName(a.guardianDecisionId) && (a.guardianDecisionId == d.decisionId || a.guardianDecisionId == d.guardianDecisionId)
    && Named(d.boundTaskId, a.taskId) && Named(d.boundWorkerId, a.workerId) && Named(d.boundActionType, a.actionType)
    && Named(d.scopeHash, if Truthy(a.scopeHash) then a.scopeHash else a.approvedScopeHash)
    && Named(d.approvalBindingId, if Truthy(a.approvalBindingId) then a.approvalBindingId else a.bindingId)
    && Named(d.tokenVerificationId, a.tokenVerificationId)
  }

  predicate DecisionFitsBinding(d: Decision, b: Binding) {
    && (b.guardianDecisionId == d.decisionId || b.guardianDecisionId == d.guardianDecisionId)
    && Asked(d.approvalBindingId, b.bindingId) && Asked(d.tokenVerificationId, b.tokenVerificationId)
    && Asked(d.scopeHash, b.approvedScopeHash)
  }

  /** The action may use the decision at the reference time, whatever nonces have been consumed. */
  predicate Usable(d: Decision, a: Action, reference: Stamp) {
    && DecisionStands(d, a.actionType) && InWindow(d, reference) && DecisionAgrees(d, a)
    && ((d.boundToolScope.NoScope? && a.toolScope.NoScope?) || Contained(a.toolScope, d.boundToolScope))
    && Evidenced(a, d.evidenceRefs)
    && (a.approvalBinding.Some? ==> DecisionFitsBinding(d, a.approvalBinding.value))
  }

  // ----- the checks accept exactly these -------------------------------------------------------------

  lemma StandsExactlyWhen(d: Decision, a: Action)
    ensures Standing(d, a, None).Pass? <==> DecisionStands(d, a.actionType)
  {
    if d.replayStatus == Text("unused") {
      UnusedIsNotRefused(d.replayStatus);
    }
  }

  lemma UnusedIsNotRefused(status: Value)
    requires status == Text("unused")
    ensures !OneOf(status, REFUSED_REPLAY_STATUSES) && !OneOf(status, REFUSED_REPLAY_STATUSES + {"consumed"})
  {
  }

  lemma InWindowExactlyWhen(d: Decision, reference: Stamp)
    ensures TimeWindow(d, reference).Pass? <==> InWindow(d, reference)
  {
    match (reference, d.maxAge, d.skew)
    case (At(now), Seconds(age), Seconds(skew)) => AcceptedTimesAreAnInterval(d, now, age, skew);
    case (At(now), Seconds(age), Missing) => AcceptedTimesAreAnInterval(d, now, age, 30);
    case (At(now), Missing, Seconds(skew)) => AcceptedTimesAreAnInterval(d, now, 300, skew);
    case (At(now), Missing, Missing) => AcceptedTimesAreAnInterval(d, now, 300, 30);
    case _ =>
  }

  lemma DecisionAgreesExactlyWhen(d: Decision, a: Action)
    ensures Matches(d, a).Pass? <==> DecisionAgrees(d, a)
  {
    assert MatchesReferences(d, a).Pass? <==>
      && Named(d.scopeHash, Either(a.scopeHash, a.approvedScopeHash))
      && Named(d.approvalBindingId, Either(a.approvalBindingId, a.bindingId))
      && Named(d.tokenVerificationId, a.tokenVerificationId);
  }

  lemma ContainedExactlyWhen(requested: Scope, bound: Scope)
    ensures ScopeAllows(bound, requested).Pass? <==> Contained(requested, bound)
  {
  }

  /** The replay-safety check passes exactly for the usable decisions whose nonce is not consumed. */
  lemma ReplaySafeExactlyWhen(d: Decision, a: Action, reference: Stamp, consumed: set<string>)
    ensures ReplaySafe(d, a, reference, None).Pass? <==> Usable(d, a, reference)
    ensures ReplaySafe(d, a, reference, Some(consumed)).Pass? <==> Usable(d, a, reference) && d.nonce.text !in consumed
  {
    StandsExactlyWhen(d, a);
    InWindowExactlyWhen(d, reference);
    DecisionAgreesExactlyWhen(d, a);
    ContainedExactlyWhen(a.toolScope, d.boundToolScope);
    NonceGuardIsIndependent(d, a, reference, consumed);
  }

  lemma FieldsAgreeExactlyWhen(b: Binding, a: Action)
    ensures (forall i | 0 <= i < 15 :: Asked(ActionFields(a)[i], BindingFields(b)[i])) <==> FieldsAgree(b, a)
  {
    var held, asked := BindingFields(b), ActionFields(a);
    if forall i | 0 <= i < 15 :: Asked(asked[i], held[i]) {
      assert Asked(asked[0], held[0]) && Asked(asked[1], held[1]) && Asked(asked[2], held[2])
        && Asked(asked[3], held[3]) && Asked(asked[4], held[4]) && Asked(asked[5], held[5])
        && Asked(asked[6], held[6]) && Asked(asked[7], held[7]) && Asked(asked[8], held[8])
        && Asked(asked[9], held[9]) && Asked(asked[10], held[10]) && Asked(asked[11], held[11])
        && Asked(asked[12], held[12]) && Asked(asked[13], held[13]) && Asked(asked[14], held[14]);
    }
  }

  lemma BindingAgreesExactlyWhen(b: Binding, a: Action)
    ensures BindingMatches(b, a).Pass? <==> BindingAgrees(b, a)
  {
    FieldsAgreeExactlyWhen(b, a);
    var held, asked := BindingFields(b), ActionFields(a);
    assert (exists i :: 0 <= i < 15 && asked[i] != Null && held[i] != asked[i])
      <==> !forall i | 0 <= i < 15 :: Asked(asked[i], held[i]);
  }

  lemma BindingFreshExactlyWhen(b: Binding, a: Action, reference: Stamp)
    ensures BindingFresh(b, a, reference).Pass? <==>
      BindingInForce(b, reference) && (a.guardianDecision.Some? ==> Usable(a.guardianDecision.value, a, reference))
  {
    if a.guardianDecision.Some? {
      ReplaySafeExactlyWhen(a.guardianDecision.value, a, reference, {});
    }
  }

  /** The binding check passes exactly for the entitled actions whose binding's nonce is not consumed: every field
      the action names is the binding's, and what it asks to do lies inside the binding's scope. */
  lemma BindingAuthorizesExactlyWhen(b: Binding, a: Action, reference: Stamp, consumed: set<string>)
    ensures BindingAuthorizes(b, a, reference, None).Pass? <==> Entitled(b, a, reference)
    ensures BindingAuthorizes(b, a, reference, Some(consumed)).Pass? <==>
      Entitled(b, a, reference) && b.nonceRef.text !in consumed
  {
    BindingStandsExactlyWhen(b);
    BindingFreshExactlyWhen(b, a, reference);
    BindingAgreesExactlyWhen(b, a);
    ContainedExactlyWhen(a.toolScope, b.toolScope);
  }

  lemma BindingStandsExactlyWhen(b: Binding)
    ensures BindingStanding(b).Pass? && IsName(b.nonceRef) <==> BindingStands(b)
  {
  }

  /** A single field the action names and the binding does not hold is enough to be refused. */
  lemma OneFieldIsEnough(b: Binding, a: Action, reference: Stamp, consumed: Option<set<string>>, i: nat)
    requires i < 15 && ActionFields(a)[i] != Null && BindingFields(b)[i] != ActionFields(a)[i]
    ensures BindingAuthorizes(b, a, reference, consumed).Fail?
  {
    assert !Asked(ActionFields(a)[i], BindingFields(b)[i]);
    BindingAgreesExactlyWhen(b, a);
    FieldsAgreeExactlyWhen(b, a);
  }
}
