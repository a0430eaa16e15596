/** Which calls the replay drill accepts, in terms of the fields of the payload, the request and the stored decision. */
module DrillAcceptance {
  import opened Values
  import opened GuardianRecords
  import opened GuardianInvariants
  import opened ReplayDrill
  import A = Authorizations
  import opened DrillTheorems

  // ----- what the payload must show --------------------------------------------------------------------

  predicate DecisionFor(d: Decision, id: string, tenant: string, nonce: string) {
    && d.schemaValid && d.rawContent != Some(true) && d.secretMaterial != Some(true)
    && d.guardianDecisionId == Text(id) && d.decisionId == Text(id)
    && d.tenantId == Text(tenant) && d.nonce == Text(nonce) && d.replayPolicy == Text("one_time")
  }

  predicate ReplayFor(r: Replay, id: string, held: Record, result: string) {
    && r.schemaValid && r.rawContent != Some(true) && r.secretMaterial != Some(true)
    && r.guardianDecisionId == Text(id) && r.tenantId == Text(held.tenant) && r.nonce == Text(held.nonce)
    && r.checkResult == Text(result)
  }

  predicate StoreFor(r: StoreRecord, id: string, held: Record) {
    && r.schemaValid && r.rawContent != Some(true) && r.secretMaterial != Some(true)
    && r.guardianDecisionId == Text(id) && r.tenantId == Text(held.tenant) && r.nonce == Text(held.nonce)
  }

  predicate AllRefs(refs: seq<Value>) {
    forall v | v in refs :: v.Text? && "ev-" <= v.text
  }

  /** The denial's own evidence is among the pre-action and the general evidence, which are all evidence references. */
  predicate Backed(r: Replay) {
    && r.denialEvidenceRef in r.preActionRefs && r.denialEvidenceRef in r.evidenceRefs
    && AllRefs(r.preActionRefs) && AllRefs(r.evidenceRefs)
  }

  predicate Confirms(p: Payload, id: string, held: Record) {
    p.DecisionDoc? && DecisionFor(p.decision, id, held.tenant, held.nonce)
  }

  predicate Reserves(p: Payload, id: string, held: Record) {
    && p.StoreDoc? && StoreFor(p.record, id, held)
    && p.record.nonceStatus == Text("reserved") && p.record.atomicityStatus == Text("pending")
    && p.record.consumedAt == Null
  }

  predicate ReportsFirstUse(p: Payload, id: string, held: Record) {
    p.ReplayDoc? && ReplayFor(p.replay, id, held, "valid_first_use") && p.replay.denialEvidenceRef == Null
  }

  predicate Consumes(p: Payload, id: string, held: Record) {
    && p.StoreDoc? && StoreFor(p.record, id, held)
    && p.record.nonceStatus == Text("consumed") && Truthy(p.record.consumedAt)
  }

  predicate FailsClosed(p: Payload, id: string, held: Record) {
    && p.StoreDoc? && StoreFor(p.record, id, held)
    && p.record.atomicityStatus == Text("failed_closed") && Truthy(p.record.failureReason)
    && p.record.evidenceRefs != [] && AllRefs(p.record.evidenceRefs)
  }

  predicate Denies(p: Payload, id: string, held: Record, result: string) {
    p.ReplayDoc? && ReplayFor(p.replay, id, held, result) && Backed(p.replay)
  }

  // ----- what the request must show --------------------------------------------------------------------

  predicate BindingFits(b: Binding, tenant: string, d: Decision) {
    && b.schemaValid && b.tenantId == Text(tenant)
    && (IsName(d.approvalBindingId) ==> b.bindingId == d.approvalBindingId)
    && (b.guardianDecisionId == d.decisionId || b.guardianDecisionId == d.guardianDecisionId)
  }

  predicate TokenFits(t: Token, tenant: string, d: Decision) {
    && t.schemaValid && t.tenantId == Text(tenant)
    && (IsName(d.tokenVerificationId) ==> t.tokenVerificationId == d.tokenVerificationId)
    && (t.guardianDecisionId == d.decisionId || t.guardianDecisionId == d.guardianDecisionId)
  }

  /** Binding and token, as far as they are supplied, are of this tenant and decision and name one token. */
  predicate RecordsFit(q: Request, tenant: string, d: Decision) {
    && (q.binding.Some? ==> BindingFits(q.binding.value, tenant, d))
    && (q.token.Some? ==> TokenFits(q.token.value, tenant, d))
    && (q.binding.Some? && q.token.Some? ==> q.binding.value.tokenVerificationId == q.token.value.tokenVerificationId)
  }

  /** One of the two leaves the field out or they name the same. */
  predicate Compatible(held: Value, asked: Value) {
    held == Null || A.Asked(asked, held)
  }

  predicate ActionFits(a: Action, d: Decision) {
    && Compatible(d.tenantId, a.tenantId) && Compatible(d.customerContextId, a.customerContextId)
    && Compatible(d.boundTaskId, a.taskId) && Compatible(d.boundWorkerId, a.workerId)
    && Compatible(d.boundActionType, a.actionType) && Compatible(d.scopeHash, a.scopeHash)
    && (d.boundToolScope == NoScope || a.toolScope == NoScope || d.boundToolScope == a.toolScope)
  }

  /** The binding the action names, if it names one and one is supplied, is the one supplied; the same for tokens. */
  predicate ActionNames(a: Action, q: Request) {
    && (q.binding.Some? ==> A.Asked(if Truthy(a.approvalBindingId) then a.approvalBindingId else a.bindingId,
                                    q.binding.value.bindingId))
    && (q.token.Some? ==> A.Asked(a.tokenVerificationId, q.token.value.tokenVerificationId))
  }

  predicate RequestFits(q: Request, tenant: string, d: Decision) {
    RecordsFit(q, tenant, d) && (q.action.Some? ==> ActionFits(q.action.value, d) && ActionNames(q.action.value, q))
  }

  // ----- what the stored decision must show ------------------------------------------------------------

  /** A decision bound to a binding or a token is used for the first time only with that record. */
  predicate Accompanied(d: Decision, q: Request) {
    (IsName(d.approvalBindingId) ==> q.binding.Some?) && (IsName(d.tokenVerificationId) ==> q.token.Some?)
  }

  /** The decision may be used by the action that the replay record itself describes. */
  predicate Serves(d: Decision, r: Replay, reference: Stamp) {
    && A.DecisionStands(d, r.actionType) && A.InWindow(d, reference)
    && IsName(r.tenantId) && r.tenantId == d.tenantId && A.Asked(d.boundTenantId, r.tenantId)
    && IsName(r.customerContextId) && r.customerContextId == d.customerContextId
    && IsName(r.guardianDecisionId) && (r.guardianDecisionId == d.decisionId || r.guardianDecisionId == d.guardianDecisionId)
    && A.Named(d.boundTaskId, r.taskId) && A.Named(d.boundWorkerId, r.workerId)
    && A.Named(d.boundActionType, r.actionType) && A.Named(d.scopeHash, r.scopeHash)
    && A.Named(d.approvalBindingId, r.approvalBindingId) && A.Named(d.tokenVerificationId, r.tokenVerificationId)
    && ((d.boundToolScope == NoScope && r.toolScope == NoScope) || A.Contained(r.toolScope, d.boundToolScope))
    && r.evidenceRefs != [] && Elements(r.evidenceRefs) <= Elements(d.evidenceRefs)
  }

  predicate Lapsed(d: Decision, reference: Stamp) {
    reference.At? && d.expiresAt.At? && d.expiresAt.micros <= reference.micros
  }

  predicate Overaged(d: Decision, reference: Stamp) {
    match (reference, d.issuedAt, d.maxAge, d.skew)
    case (At(now), At(issued), Seconds(age), Seconds(skew)) => now - issued > (age + skew) * 1_000_000
    case (At(now), At(issued), Seconds(age), Missing) => now - issued > (age + 30) * 1_000_000
    case (At(now), At(issued), Missing, Seconds(skew)) => now - issued > (300 + skew) * 1_000_000
    case (At(now), At(issued), Missing, Missing) => now - issued > 330 * 1_000_000
    case _ => false
  }

  predicate Barred(d: Decision) {
    || d.verdict == Text("block_mvp") || d.replayPolicy == Text("blocked_mvp")
    || d.replayStatus == Text("blocked_mvp") || d.environment == Text("blocked_mvp")
    || d.actionClass == Text("connector_access") || d.actionClass == Text("outbound_message")
    || d.actionClass == Text("lima_it_remediation")
    || d.boundActionType == Text("live_connector_access") || d.boundActionType == Text("external_send")
    || d.boundActionType == Text("lima_it_remediation")
  }

  /** The decision and the action differ in the way the category says. */
  predicate Differs(d: Decision, a: Action, category: string) {
    || (category == "tenant_mismatch" && !Compatible(d.boundTenantId, a.tenantId))
    || (category == "task_mismatch" && !Compatible(d.boundTaskId, a.taskId))
    || (category == "worker_mismatch" && !Compatible(d.boundWorkerId, a.workerId))
    || (category == "action_type_mismatch" && !Compatible(d.boundActionType, a.actionType))
    || (category == "decision_scope_hash_mismatch" && !Compatible(d.scopeHash, a.scopeHash))
    || (category == "tool_scope_mismatch"
        && d.boundToolScope != NoScope && a.toolScope != NoScope && d.boundToolScope != a.toolScope)
    || (category == "approval_binding_mismatch"
        && !Compatible(d.approvalBindingId, if Truthy(a.approvalBindingId) then a.approvalBindingId else a.bindingId))
    || (category == "token_verification_mismatch" && !Compatible(d.tokenVerificationId, a.tokenVerificationId))
  }

  // ----- the acceptable transitions --------------------------------------------------------------------

  /** The first use is of a decision that the requested action, or the one the record describes, may use. */
  predicate FirstUseOk(d: Decision, r: Replay, q: Request, reference: Stamp) {
    && Accompanied(d, q)
    && if q.action.Some? then A.Usable(d, q.action.value, reference) else Serves(d, r, reference)
  }

  /** One of the reasons the record gives is a way in which the decision and the requested action differ. */
  predicate MismatchOk(d: Decision, r: Replay, q: Request) {
    q.action.Some? && exists v :: v in r.mismatchReasons && v.Text? && Differs(d, q.action.value, v.text)
  }

  predicate Acceptable(s: Drill, reference: Stamp, id: string, to: State, p: Payload, q: Request)
    requires id in s.current && id in s.decisions
  {
    var held, d := s.current[id], s.decisions[id];
    match (held.state, to)
    case (Planned, DecisionRegistered) => Confirms(p, id, held) && RequestFits(q, held.tenant, d)
    case (DecisionRegistered, NonceReserved) =>
      && Reserves(p, id, held) && RequestFits(q, held.tenant, d)
      && (held.tenant, held.nonce) !in s.reserved && (held.tenant, held.nonce) !in s.consumed
    case (NonceReserved, FirstUseValidated) =>
      ReportsFirstUse(p, id, held) && RequestFits(q, held.tenant, d) && FirstUseOk(d, p.replay, q, reference)
    case (FirstUseValidated, NonceConsumed) => Consumes(p, id, held) && RequestFits(q, held.tenant, d)
    case (NonceConsumed, ReplayDenied) => Denies(p, id, held, "replay_denied") && RequestFits(q, held.tenant, d)
    case (NonceReserved, ExpiredDenied) =>
      Denies(p, id, held, "expired") && RequestFits(q, held.tenant, d) && Lapsed(d, reference)
    case (NonceReserved, StaleDenied) =>
      Denies(p, id, held, "stale") && RequestFits(q, held.tenant, d) && Overaged(d, reference)
    case (NonceReserved, MismatchDenied) =>
      Denies(p, id, held, "scope_mismatch") && RecordsFit(q, held.tenant, d) && MismatchOk(d, p.replay, q)
    case (NonceReserved, BlockedMvpDenied) =>
      Denies(p, id, held, "blocked_mvp") && RequestFits(q, held.tenant, d) && Barred(d)
    case (NonceReserved, FailedClosedRecorded) => FailsClosed(p, id, held) && RequestFits(q, held.tenant, d)
    case _ => false
  }

  // ----- the checks, one after another -----------------------------------------------------------------

  function TargetHeader(id: string, held: Record, to: State): Header
    requires ContractFor(to).Some?
  {
    Header(id, held.tenant, held.nonce, ContractFor(to).value)
  }

  lemma RouteExactlyWhen(s: Drill, id: string, to: State, p: Payload, q: Request)
    requires id != "" && id in s.current
    ensures RouteCheck(s, Transition(id, to, p, q)).Pass? <==>
      && ContractFor(to).Some? && !p.OtherDoc? && Allowed(s.current[id].state, to)
      && Normalize(p, Some(id)) == Good(TargetHeader(id, s.current[id], to))
  {
  }

  /** The rules that are left once the table and the id, tenant, nonce and contract of the payload are settled. */
  predicate RulesPass(s: Drill, reference: Stamp, id: string, to: State, p: Payload, q: Request)
    requires id in s.current && !p.OtherDoc? && ContractFor(to).Some?
  {
    && CommonRules(p, s.current[id].tenant, to, Stored(s, id), q).Pass?
    && SpecificRules(s, TargetHeader(id, s.current[id], to), to, p, q, reference).Pass?
  }

  /** A transition is accepted exactly when the table allows it, the payload is of this decision and of the target's
      contract, and the common and then the target's own rules pass. */
  lemma AcceptedInSteps(s: Drill, reference: Stamp, id: string, to: State, p: Payload, q: Request)
    requires id != "" && id in s.current
    ensures Check(s, reference, Transition(id, to, p, q)).Pass? <==>
      && ContractFor(to).Some? && !p.OtherDoc? && Allowed(s.current[id].state, to)
      && Normalize(p, Some(id)) == Good(TargetHeader(id, s.current[id], to))
      && RulesPass(s, reference, id, to, p, q)
  {
    RouteExactlyWhen(s, id, to, p, q);
    if RouteCheck(s, Transition(id, to, p, q)).Pass? {
      RoutedCheck(s, reference, id, to, p, q);
    }
  }

  lemma RoutedCheck(s: Drill, reference: Stamp, id: string, to: State, p: Payload, q: Request)
    requires id != "" && id in s.current && RouteCheck(s, Transition(id, to, p, q)).Pass?
    requires ContractFor(to).Some? && !p.OtherDoc? && Normalize(p, Some(id)) == Good(TargetHeader(id, s.current[id], to))
    ensures Check(s, reference, Transition(id, to, p, q)).Pass? <==> RulesPass(s, reference, id, to, p, q)
  {
  }

  // ----- payloads --------------------------------------------------------------------------------------

  predicate Proper(id: string, held: Record) {
    id != "" && held.tenant != "" && held.nonce != ""
  }

  lemma DecisionIsNormal(d: Decision, id: string, held: Record)
    requires Proper(id, held)
    ensures Normalize(DecisionDoc(d), Some(id)) == Good(Header(id, held.tenant, held.nonce, GuardianDecision)) <==>
      && d.schemaValid && d.guardianDecisionId == Text(id) && d.decisionId == Text(id)
      && d.tenantId == Text(held.tenant) && d.nonce == Text(held.nonce)
  {
  }

  lemma ReplayIsNormal(r: Replay, id: string, held: Record)
    requires Proper(id, held)
    ensures Normalize(ReplayDoc(r), Some(id)) == Good(Header(id, held.tenant, held.nonce, GuardianReplay)) <==>
      && r.schemaValid && r.guardianDecisionId == Text(id) && r.tenantId == Text(held.tenant)
      && r.nonce == Text(held.nonce)
  {
  }

  lemma StoreIsNormal(r: StoreRecord, id: string, held: Record)
    requires Proper(id, held)
    ensures Normalize(StoreDoc(r), Some(id)) == Good(Header(id, held.tenant, held.nonce, ReplayStoreRecord)) <==>
      && r.schemaValid && r.guardianDecisionId == Text(id) && r.tenantId == Text(held.tenant)
      && r.nonce == Text(held.nonce)
  {
  }

  lemma NormalContract(p: Payload, id: string)
    requires Normalize(p, Some(id)).Good?
    ensures var c := Normalize(p, Some(id)).header.contract;
            && (c == GuardianDecision <==> p.DecisionDoc?) && (c == GuardianReplay <==> p.ReplayDoc?)
            && (c == ReplayStoreRecord <==> p.StoreDoc?)
  {
  }

  lemma BackedExactlyWhen(r: Replay)
    ensures DenialEvidencePresent(ReplayDoc(r)).Pass? <==> Backed(r)
  {
  }

  // ----- requests --------------------------------------------------------------------------------------

  lemma ActionFitsExactlyWhen(d: Decision, a: Action)
    ensures ActionMatchesDecision(d, a).Pass? <==> ActionFits(a, d)
  {
  }

  lemma RecordsFitExactlyWhen(tenant: string, d: Decision, q: Request)
    ensures RequestConsistent(tenant, Some(d), q, true).Pass? <==> RecordsFit(q, tenant, d)
  {
    if q.binding.Some? {
      assert BindingConsistent(q.binding.value, tenant, Some(d)).Pass? <==> BindingFits(q.binding.value, tenant, d);
    }
    if q.token.Some? {
      assert TokenConsistent(q.token.value, tenant, Some(d)).Pass? <==> TokenFits(q.token.value, tenant, d);
    }
  }

  lemma RequestFitsExactlyWhen(tenant: string, d: Decision, q: Request)
    ensures RequestConsistent(tenant, Some(d), q, false).Pass? <==> RequestFits(q, tenant, d)
  {
    RecordsFitExactlyWhen(tenant, d, q);
    if q.action.Some? {
      ActionFitsExactlyWhen(d, q.action.value);
    }
  }

  // ----- decisions -------------------------------------------------------------------------------------

  lemma ServesExactlyWhen(d: Decision, r: Replay, reference: Stamp)
    ensures A.Usable(d, ActionFromReplay(r), reference) <==> Serves(d, r, reference)
  {
    var a := ActionFromReplay(r);
    assert A.Evidenced(a, d.evidenceRefs) <==> r.evidenceRefs != [] && Elements(r.evidenceRefs) <= Elements(d.evidenceRefs);
  }

  lemma FirstUseExactlyWhen(d: Decision, r: Replay, q: Request, reference: Stamp, consumed: set<string>)
    requires d.nonce.Text? && d.nonce.text !in consumed && r.checkResult == Text("valid_first_use")
    ensures FirstUseRules(d, r, q, reference, consumed).Pass? <==> FirstUseOk(d, r, q, reference)
  {
    A.ReplaySafeExactlyWhen(d, if q.action.Some? then q.action.value else ActionFromReplay(r), reference, consumed);
    ServesExactlyWhen(d, r, reference);
  }

  lemma LapsedExactlyWhen(d: Decision, reference: Stamp)
    ensures IsExpired(d, reference).Pass? <==> Lapsed(d, reference)
  {
  }

  lemma OveragedExactlyWhen(d: Decision, reference: Stamp)
    ensures IsStale(d, reference).Pass? <==> Overaged(d, reference)
  {
  }

  lemma BarredExactlyWhen(d: Decision)
    ensures IsBlockedMvp(d) <==> Barred(d)
  {
  }

  lemma DiffersExactlyWhen(d: Decision, a: Action, category: string)
    ensures category in ActionMismatches(d, a) <==> Differs(d, a, category)
  {
  }

  // ----- one transition after another ------------------------------------------------------------------

  lemma ClaimOf(s: Drill, id: string, pair: (string, string))
    requires NoncesOwned(s) && Has(s, id, pair)
    ensures Holds(s.current[id].state) ==> pair in s.reserved && pair !in s.consumed
    ensures Spent(s.current[id].state) ==> pair in s.consumed
  {
    if Holds(s.current[id].state) {
      assert Holder(s, id, pair) && Claims(s, id, pair);
      forall i | Spender(s, i, pair) ensures false {
        assert Claims(s, i, pair);
      }
    }
    if Spent(s.current[id].state) {
      assert Spender(s, id, pair);
    }
  }

  /** What a reachable record's state says about the nonce sets. */
  predicate Placed(s: Drill, id: string) {
    && id != "" && id in s.current && id in s.decisions
    && var r := s.current[id];
    && r.tenant != "" && r.nonce != "" && s.decisions[id].nonce == Text(r.nonce)
    && (Holds(r.state) ==> (r.tenant, r.nonce) in s.reserved && (r.tenant, r.nonce) !in s.consumed)
    && (Spent(r.state) ==> (r.tenant, r.nonce) in s.consumed)
  }

  lemma RecordsArePlaced(s: Drill, id: string)
    requires Valid(s) && id in s.current
    ensures Placed(s, id)
  {
    assert RecordKept(s, id);
    ClaimOf(s, id, (s.current[id].tenant, s.current[id].nonce));
  }

  /** What the payload and the request must show for a target state, whatever the decision and the sets hold. */
  lemma CommonExactlyWhen(p: Payload, tenant: string, to: State, d: Decision, q: Request)
    requires !p.OtherDoc?
    ensures CommonRules(p, tenant, to, Some(d), q).Pass? <==>
      && NothingRaw(p) && PayloadValid(p, to).Pass?
      && if to == MismatchDenied then RecordsFit(q, tenant, d) else RequestFits(q, tenant, d)
  {
    RecordsFitExactlyWhen(tenant, d, q);
    RequestFitsExactlyWhen(tenant, d, q);
  }

  predicate NothingRaw(p: Payload) {
    match p
    case DecisionDoc(d) => d.rawContent != Some(true) && d.secretMaterial != Some(true)
    case ReplayDoc(r) => r.rawContent != Some(true) && r.secretMaterial != Some(true)
    case StoreDoc(r) => r.rawContent != Some(true) && r.secretMaterial != Some(true)
    case OtherDoc => true
  }

  lemma ConfirmationRules(s: Drill, reference: Stamp, id: string, d: Decision, q: Request)
    requires Placed(s, id)
    ensures RulesPass(s, reference, id, DecisionRegistered, DecisionDoc(d), q) <==>
      && NothingRaw(DecisionDoc(d)) && DecisionPayloadValid(d).Pass?
      && RequestFits(q, s.current[id].tenant, s.decisions[id])
  {
    CommonExactlyWhen(DecisionDoc(d), s.current[id].tenant, DecisionRegistered, s.decisions[id], q);
  }

  lemma StoreRules(s: Drill, reference: Stamp, id: string, to: State, r: StoreRecord, q: Request)
    requires Placed(s, id) && (to.NonceReserved? || to.NonceConsumed? || to.FailedClosedRecorded?)
    requires to.NonceConsumed? ==> Holds(s.current[id].state)
    ensures var held := s.current[id];
      RulesPass(s, reference, id, to, StoreDoc(r), q) <==>
      && NothingRaw(StoreDoc(r)) && RequestFits(q, held.tenant, s.decisions[id])
      && match to
         case NonceReserved =>
           && r.nonceStatus == Text("reserved") && r.atomicityStatus == Text("pending") && r.consumedAt == Null
           && (held.tenant, held.nonce) !in s.reserved && (held.tenant, held.nonce) !in s.consumed
         case NonceConsumed => r.nonceStatus == Text("consumed") && Truthy(r.consumedAt)
         case _ =>
           && r.atomicityStatus == Text("failed_closed") && Truthy(r.failureReason)
           && r.evidenceRefs != [] && AllRefs(r.evidenceRefs)
  {
    CommonExactlyWhen(StoreDoc(r), s.current[id].tenant, to, s.decisions[id], q);
  }

  lemma FirstUseRulesPass(s: Drill, reference: Stamp, id: string, r: Replay, q: Request)
    requires Placed(s, id) && Holds(s.current[id].state)
    ensures RulesPass(s, reference, id, FirstUseValidated, ReplayDoc(r), q) <==>
      && NothingRaw(ReplayDoc(r)) && RequestFits(q, s.current[id].tenant, s.decisions[id])
      && r.checkResult == Text("valid_first_use") && r.denialEvidenceRef == Null
      && FirstUseOk(s.decisions[id], r, q, reference)
  {
    var held, d := s.current[id], s.decisions[id];
    CommonExactlyWhen(ReplayDoc(r), held.tenant, FirstUseValidated, d, q);
    FirstUseIsSpecific(s, reference, id, r, q);
    if r.checkResult == Text("valid_first_use") {
      FirstUseExactlyWhen(d, r, q, reference, TenantNonces(s.consumed, held.tenant));
    }
  }

  lemma FirstUseIsSpecific(s: Drill, reference: Stamp, id: string, r: Replay, q: Request)
    requires Placed(s, id) && Holds(s.current[id].state)
    ensures var held, d, consumed := s.current[id], s.decisions[id], TenantNonces(s.consumed, s.current[id].tenant);
      && d.nonce.Text? && d.nonce.text !in consumed
      && SpecificRules(s, TargetHeader(id, held, FirstUseValidated), FirstUseValidated, ReplayDoc(r), q, reference)
         == FirstUseRules(d, r, q, reference, consumed)
  {
  }

  /** What a denial's own condition comes to. */
  predicate DenialHolds(d: Decision, reference: Stamp, to: State, r: Replay, q: Request) {
    match to
    case ExpiredDenied => Lapsed(d, reference)
    case StaleDenied => Overaged(d, reference)
    case MismatchDenied => MismatchOk(d, r, q)
    case BlockedMvpDenied => Barred(d)
    case _ => true
  }

  function ResultFor(to: State): string {
    match to
    case ReplayDenied => "replay_denied"
    case ExpiredDenied => "expired"
    case StaleDenied => "stale"
    case MismatchDenied => "scope_mismatch"
    case _ => "blocked_mvp"
  }

  lemma DenialPayload(r: Replay, to: State)
    requires IsDenial(to)
    ensures ReplayPayloadValid(r, to).Pass? <==> r.checkResult == Text(ResultFor(to)) && Backed(r)
  {
    BackedExactlyWhen(r);
  }

  lemma MismatchExactlyWhen(d: Decision, r: Replay, q: Request, tenant: string)
    requires RecordsFit(q, tenant, d) && Backed(r)
    ensures MismatchRules(d, r, q).Pass? <==> MismatchOk(d, r, q)
  {
    BackedExactlyWhen(r);
    assert BindingMismatches(d, q) == {};
    if q.action.Some? {
      var a := q.action.value;
      forall v | v in r.mismatchReasons && v.Text?
        ensures Differs(d, a, v.text) <==> v.text in ActionMismatches(d, a) + BindingMismatches(d, q)
      {
        DiffersExactlyWhen(d, a, v.text);
      }
      assert "" !in ActionMismatches(d, a);
    }
  }

  lemma DenialRules(s: Drill, reference: Stamp, id: string, to: State, r: Replay, q: Request)
    requires Placed(s, id) && IsDenial(to) && (to.ReplayDenied? ==> Spent(s.current[id].state))
    ensures var tenant, d := s.current[id].tenant, s.decisions[id];
      RulesPass(s, reference, id, to, ReplayDoc(r), q) <==>
      && NothingRaw(ReplayDoc(r)) && r.checkResult == Text(ResultFor(to)) && Backed(r)
      && (if to == MismatchDenied then RecordsFit(q, tenant, d) else RequestFits(q, tenant, d))
      && DenialHolds(d, reference, to, r, q)
  {
    var tenant, d := s.current[id].tenant, s.decisions[id];
    CommonExactlyWhen(ReplayDoc(r), tenant, to, d, q);
    DenialPayload(r, to);
    BackedExactlyWhen(r);
    match to
    case ExpiredDenied => LapsedExactlyWhen(d, reference);
    case StaleDenied => OveragedExactlyWhen(d, reference);
    case BlockedMvpDenied => BarredExactlyWhen(d);
    case MismatchDenied =>
      if RecordsFit(q, tenant, d) && Backed(r) {
        MismatchExactlyWhen(d, r, q, tenant);
      }
    case _ =>
  }

  // ----- main results ----------------------------------------------------------------------------------

  lemma ConfirmationExactlyWhen(s: Drill, reference: Stamp, id: string, p: Payload, q: Request)
    requires Placed(s, id) && s.current[id].state == Planned
    ensures Check(s, reference, Transition(id, DecisionRegistered, p, q)).Pass?
      <==> Acceptable(s, reference, id, DecisionRegistered, p, q)
  {
    AcceptedInSteps(s, reference, id, DecisionRegistered, p, q);
    if p.DecisionDoc? {
      DecisionIsNormal(p.decision, id, s.current[id]);
      ConfirmationRules(s, reference, id, p.decision, q);
    } else if Normalize(p, Some(id)).Good? {
      NormalContract(p, id);
    }
  }

  lemma StoreExactlyWhen(s: Drill, reference: Stamp, id: string, to: State, p: Payload, q: Request)
    requires Placed(s, id) && Allowed(s.current[id].state, to)
    requires to.NonceReserved? || to.NonceConsumed? || to.FailedClosedRecorded?
    ensures Check(s, reference, Transition(id, to, p, q)).Pass? <==> Acceptable(s, reference, id, to, p, q)
  {
    AcceptedInSteps(s, reference, id, to, p, q);
    if p.StoreDoc? {
      StoreIsNormal(p.record, id, s.current[id]);
      StoreRules(s, reference, id, to, p.record, q);
    } else if Normalize(p, Some(id)).Good? {
      NormalContract(p, id);
    }
  }

  lemma FirstUseAcceptedExactlyWhen(s: Drill, reference: Stamp, id: string, p: Payload, q: Request)
    requires Placed(s, id) && s.current[id].state == NonceReserved
    ensures Check(s, reference, Transition(id, FirstUseValidated, p, q)).Pass?
      <==> Acceptable(s, reference, id, FirstUseValidated, p, q)
  {
    AcceptedInSteps(s, reference, id, FirstUseValidated, p, q);
    if p.ReplayDoc? {
      ReplayIsNormal(p.replay, id, s.current[id]);
      FirstUseRulesPass(s, reference, id, p.replay, q);
    } else if Normalize(p, Some(id)).Good? {
      NormalContract(p, id);
    }
  }

  lemma DenialExactlyWhen(s: Drill, reference: Stamp, id: string, to: State, p: Payload, q: Request)
    requires Placed(s, id) && IsDenial(to) && Allowed(s.current[id].state, to)
    ensures Check(s, reference, Transition(id, to, p, q)).Pass? <==> Acceptable(s, reference, id, to, p, q)
  {
    AcceptedInSteps(s, reference, id, to, p, q);
    if p.ReplayDoc? {
      ReplayIsNormal(p.replay, id, s.current[id]);
      DenialRules(s, reference, id, to, p.replay, q);
    } else if Normalize(p, Some(id)).Good? {
      NormalContract(p, id);
    }
  }

  lemma DisallowedExactlyWhen(s: Drill, reference: Stamp, id: string, to: State, p: Payload, q: Request)
    requires Placed(s, id) && !Allowed(s.current[id].state, to)
    ensures Check(s, reference, Transition(id, to, p, q)).Fail? && !Acceptable(s, reference, id, to, p, q)
  {
    AcceptedInSteps(s, reference, id, to, p, q);
  }

  lemma AcceptedExactlyWhen(s: Drill, reference: Stamp, id: string, to: State, p: Payload, q: Request)
    requires Placed(s, id)
    ensures Check(s, reference, Transition(id, to, p, q)).Pass? <==> Acceptable(s, reference, id, to, p, q)
  {
    if !Allowed(s.current[id].state, to) {
      DisallowedExactlyWhen(s, reference, id, to, p, q);
    } else {
      match to
      case DecisionRegistered => ConfirmationExactlyWhen(s, reference, id, p, q);
      case NonceReserved => StoreExactlyWhen(s, reference, id, to, p, q);
      case NonceConsumed => StoreExactlyWhen(s, reference, id, to, p, q);
      case FailedClosedRecorded => StoreExactlyWhen(s, reference, id, to, p, q);
      case FirstUseValidated => FirstUseAcceptedExactlyWhen(s, reference, id, p, q);
      case _ => DenialExactlyWhen(s, reference, id, to, p, q);
    }
  }

  /** In every reachable state a transition is accepted exactly when the decision is known and the payload, the
      request, the stored decision, the reference time and the nonce sets show what its target asks for. */
  lemma TransitionAcceptedExactlyWhen(reference: Stamp, calls: seq<Call>, id: string, to: State, p: Payload, q: Request)
    ensures var s := Run(START, reference, calls);
            Check(s, reference, Transition(id, to, p, q)).Pass? <==>
              id in s.current && id in s.decisions && Acceptable(s, reference, id, to, p, q)
  {
    var s := Run(START, reference, calls);
    RunKeepsValid(START, reference, calls);
    if id in s.current {
      RecordsArePlaced(s, id);
      AcceptedExactlyWhen(s, reference, id, to, p, q);
    }
  }

  /** A registration is accepted exactly when it hands in, as planned, a one-time decision with a tenant, a nonce and
      one id, the expected one if one is named, that is not registered yet. */
  lemma RegistrationAcceptedExactlyWhen(s: Drill, reference: Stamp, p: Payload, initial: State, expected: Option<string>)
    ensures Check(s, reference, Register(p, initial, expected)).Pass? <==>
      && initial == Planned && p.DecisionDoc?
      && p.decision.guardianDecisionId.Text? && p.decision.tenantId.Text? && p.decision.nonce.Text?
      && var id, tenant, nonce := p.decision.guardianDecisionId.text, p.decision.tenantId.text, p.decision.nonce.text;
      && id != "" && tenant != "" && nonce != "" && DecisionFor(p.decision, id, tenant, nonce)
      && (expected == None || expected == Some("") || expected == Some(id)) && id !in s.current
  {
    if p.DecisionDoc? && Normalize(p, expected).Good? {
      NothingRequestedFits(p, Normalize(p, expected).header.tenant, initial, Stored(s, Normalize(p, expected).header.id));
    }
  }

  lemma NothingRequestedFits(p: Payload, tenant: string, to: State, stored: Option<Decision>)
    requires p.DecisionDoc?
    ensures CommonRules(p, tenant, to, stored, NO_REQUEST).Pass? <==>
      NothingRaw(p) && DecisionPayloadValid(p.decision).Pass?
  {
  }
}
