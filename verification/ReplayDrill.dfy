/** The Guardian replay drill simulator as a transition function over its whole state:
    what each call checks, in order, and what an accepted call changes. */
module ReplayDrill {
  import opened Values
  import opened GuardianRecords
  import opened GuardianInvariants

  datatype State =
    | Planned | DecisionRegistered | NonceReserved | FirstUseValidated | NonceConsumed
    | ReplayDenied | ExpiredDenied | StaleDenied | MismatchDenied | BlockedMvpDenied
    | FailedClosedRecorded | Unknown(name: string)

  predicate Allowed(from: State, to: State) {
    match from
    case Planned => to.DecisionRegistered?
    case DecisionRegistered => to.NonceReserved?
    case NonceReserved =>
      || to.FirstUseValidated? || to.ExpiredDenied? || to.StaleDenied?
      || to.MismatchDenied? || to.BlockedMvpDenied? || to.FailedClosedRecorded?
    case FirstUseValidated => to.NonceConsumed?
    case NonceConsumed => to.ReplayDenied?
    case _ => false
  }

  datatype Contract = GuardianDecision | GuardianReplay | ReplayStoreRecord

  function ContractFor(state: State): Option<Contract> {
    match state
    case Unknown(_) => None
    case Planned => Some(GuardianDecision)
    case DecisionRegistered => Some(GuardianDecision)
    case NonceReserved => Some(ReplayStoreRecord)
    case NonceConsumed => Some(ReplayStoreRecord)
    case FailedClosedRecorded => Some(ReplayStoreRecord)
    case _ => Some(GuardianReplay)
  }

  datatype Payload =
    | DecisionDoc(decision: Decision)
    | ReplayDoc(replay: Replay)
    | StoreDoc(record: StoreRecord)
    | OtherDoc

  /** The optional records a transition call may carry. */
  datatype Request = Request(action: Option<Action>, binding: Option<Binding>, token: Option<Token>)

  const NO_REQUEST := Request(None, None, None)

  datatype Error =
    | UnknownDecision | AlreadyRegistered | UnsupportedContract | SchemaInvalid
    | TenantRequired | DecisionIdRequired | DecisionIdsDiffer | IdNotExpected | NonceRequired
    | WrongTenant | WrongNonce | UnknownState | NotPlanned | SameState | TransitionNotAllowed
    | ContractNotForState | RawContent | SecretMaterial | NotOneTimePolicy | ResultMismatch
    | DenialEvidence | UnexpectedDenialRef | NonceStatus | ConsumedAtPresent | ConsumedAtMissing
    | NotFailedClosed | FailureReasonMissing | FailureEvidenceMissing | AtomicityNotPending
    | BindingTenant | BindingId | BindingDecision | TokenTenant | TokenId | TokenDecision
    | BindingTokenMismatch | ActionMismatch(field: string) | NotRegistered | DuplicateReservation
    | BindingRequired | TokenRequired | Unusable(denial: Denial) | DuplicateConsumption
    | NotReserved | NotConsumed | NotExpired | NotStale | NotBlocked | NoRequestedAction
    | NoMismatch | MismatchReasonsMissing | MismatchReasonsUnrelated | ReferenceTimeMissing

  // ----- the simulator's state ------------------------------------------------------------

  datatype Record = Record(tenant: string, nonce: string, state: State, payload: Payload)

  datatype Entry = Entry(id: string, tenant: string, from: Option<State>, to: State)

  /** `reserved` and `consumed` hold (tenant, nonce) pairs: the per-tenant sets, without the
      empty sets that looking a tenant up may create. */
  datatype Drill = Drill(
    current: map<string, Record>,
    history: map<string, seq<Entry>>,
    decisions: map<string, Decision>,
    reserved: set<(string, string)>,
    consumed: set<(string, string)>
  )

  const START := Drill(map[], map[], map[], {}, {})

  // ----- reading a payload ---------------------------------------------------------------

  datatype Header = Header(id: string, tenant: string, nonce: string, contract: Contract)

  datatype Normalized = Good(header: Header) | Bad(error: Error)

  /** `_normalize_payload`; `expected` is the id the caller names, if it names one. */
  function Normalize(p: Payload, expected: Option<string>): Normalized {
    if p.OtherDoc? then Bad(UnsupportedContract) else
    var contract, valid, tenant, id, nonce :=
      if p.DecisionDoc? then GuardianDecision else if p.ReplayDoc? then GuardianReplay else ReplayStoreRecord,
      match p { case DecisionDoc(d) => d.schemaValid case ReplayDoc(r) => r.schemaValid case StoreDoc(r) => r.schemaValid },
      match p { case DecisionDoc(d) => d.tenantId case ReplayDoc(r) => r.tenantId case StoreDoc(r) => r.tenantId },
      match p { case DecisionDoc(d) => d.guardianDecisionId case ReplayDoc(r) => r.guardianDecisionId case StoreDoc(r) => r.guardianDecisionId },
      match p { case DecisionDoc(d) => d.nonce case ReplayDoc(r) => r.nonce case StoreDoc(r) => r.nonce };
    if !valid then Bad(SchemaInvalid)
    else if !IsName(tenant) then Bad(TenantRequired)
    else if !IsName(id) then Bad(DecisionIdRequired)
    else if p.DecisionDoc? && p.decision.decisionId != id then Bad(DecisionIdsDiffer)
    else if expected.Some? && expected.value != "" && expected.value != id.text then Bad(IdNotExpected)
    else if !IsName(nonce) then Bad(NonceRequired)
    else Good(Header(id.text, tenant.text, nonce.text, contract))
  }

  // ----- rules common to every call ---------------------------------------------------------

  function DecisionPayloadValid(d: Decision): Outcome<Error> {
    if d.decisionId != d.guardianDecisionId then Fail(DecisionIdsDiffer)
    else if !IsName(d.nonce) then Fail(NonceRequired)
    else Need(d.replayPolicy == Text("one_time"), NotOneTimePolicy)
  }

  function DenialEvidencePresent(p: Payload): Outcome<Error> {
    match p
    case ReplayDoc(r) =>
      Need(&& IsName(r.denialEvidenceRef) && r.preActionRefs != [] && r.evidenceRefs != []
           && IsEvidenceRef(r.denialEvidenceRef)
           && (forall v | v in r.preActionRefs :: IsEvidenceRef(v))
           && (forall v | v in r.evidenceRefs :: IsEvidenceRef(v))
           && r.denialEvidenceRef in r.preActionRefs && r.denialEvidenceRef in r.evidenceRefs,
           DenialEvidence)
    case _ => Fail(DenialEvidence)
  }

  function ExpectedResult(to: State): Option<string> {
    match to
    case FirstUseValidated => Some("valid_first_use")
    case ReplayDenied => Some("replay_denied")
    case ExpiredDenied => Some("expired")
    case StaleDenied => Some("stale")
    case MismatchDenied => Some("scope_mismatch")
    case BlockedMvpDenied => Some("blocked_mvp")
    case _ => None
  }

  predicate IsDenial(to: State) {
    to.ReplayDenied? || to.ExpiredDenied? || to.StaleDenied? || to.MismatchDenied? || to.BlockedMvpDenied?
  }

  function ReplayPayloadValid(r: Replay, to: State): Outcome<Error> {
    if ExpectedResult(to).Some? && r.checkResult != Text(ExpectedResult(to).value) then Fail(ResultMismatch)
    else if IsDenial(to) && DenialEvidencePresent(ReplayDoc(r)).Fail? then Fail(DenialEvidence)
    else Need(to == FirstUseValidated ==> r.denialEvidenceRef == Null, UnexpectedDenialRef)
  }

  function StorePayloadValid(r: StoreRecord, to: State): Outcome<Error> {
    match to
    case NonceReserved =>
      if r.nonceStatus != Text("reserved") then Fail(NonceStatus)
      else Need(r.consumedAt == Null, ConsumedAtPresent)
    case NonceConsumed =>
      if r.nonceStatus != Text("consumed") then Fail(NonceStatus)
      else Need(Truthy(r.consumedAt), ConsumedAtMissing)
    case FailedClosedRecorded =>
      if r.atomicityStatus != Text("failed_closed") then Fail(NotFailedClosed)
      else if !Truthy(r.failureReason) then Fail(FailureReasonMissing)
      else Need(r.evidenceRefs != [], FailureEvidenceMissing)
    case _ => Pass
  }

  predicate Agree(expected: Value, actual: Value) {
    expected == Null || actual == Null || expected == actual
  }

  /** `_assert_requested_action_matches_decision` */
  function ActionMatchesDecision(d: Decision, a: Action): Outcome<Error> {
    if !Agree(d.tenantId, a.tenantId) then Fail(ActionMismatch("tenant"))
    else if !Agree(d.customerContextId, a.customerContextId) then Fail(ActionMismatch("customer context"))
    else if !Agree(d.boundTaskId, a.taskId) then Fail(ActionMismatch("task"))
    else if !Agree(d.boundWorkerId, a.workerId) then Fail(ActionMismatch("worker"))
    else if !Agree(d.boundActionType, a.actionType) then Fail(ActionMismatch("action type"))
    else if !Agree(d.scopeHash, a.scopeHash) then Fail(ActionMismatch("scope hash"))
    else Need(d.boundToolScope.NoScope? || a.toolScope.NoScope? || d.boundToolScope == a.toolScope,
         ActionMismatch("tool scope"))
  }

  function BindingConsistent(b: Binding, tenant: string, stored: Option<Decision>): Outcome<Error> {
    if !b.schemaValid then Fail(SchemaInvalid)
    else if b.tenantId != Text(tenant) then Fail(BindingTenant)
    else if stored.None? then Pass else
    var d := stored.value;
    if IsName(d.approvalBindingId) && b.bindingId != d.approvalBindingId then Fail(BindingId)
    else Need(b.guardianDecisionId in {d.decisionId, d.guardianDecisionId}, BindingDecision)
  }

  function TokenConsistent(t: Token, tenant: string, stored: Option<Decision>): Outcome<Error> {
    if !t.schemaValid then Fail(SchemaInvalid)
    else if t.tenantId != Text(tenant) then Fail(TokenTenant)
    else if stored.None? then Pass else
    var d := stored.value;
    if IsName(d.tokenVerificationId) && t.tokenVerificationId != d.tokenVerificationId then Fail(TokenId)
    else Need(t.guardianDecisionId in {d.decisionId, d.guardianDecisionId}, TokenDecision)
  }

  /** `_assert_optional_binding_token_consistency` */
  function RequestConsistent(tenant: string, stored: Option<Decision>, q: Request, mismatchAllowed: bool): Outcome<Error> {
    if q.binding.Some? && BindingConsistent(q.binding.value, tenant, stored).Fail?
      then BindingConsistent(q.binding.value, tenant, stored)
    else if q.token.Some? && TokenConsistent(q.token.value, tenant, stored).Fail?
      then TokenConsistent(q.token.value, tenant, stored)
    else if q.binding.Some? && q.token.Some? && q.binding.value.tokenVerificationId != q.token.value.tokenVerificationId
      then Fail(BindingTokenMismatch)
    else if q.action.None? || stored.None? || mismatchAllowed then Pass else
    var a := q.action.value;
    var matches := ActionMatchesDecision(stored.value, a);
    if matches.Fail? then matches else
    var named := Either(a.approvalBindingId, a.bindingId);
    if q.binding.Some? && named != Null && q.binding.value.bindingId != named then Fail(ActionMismatch("binding"))
    else Need(q.token.Some? && a.tokenVerificationId != Null ==>
                q.token.value.tokenVerificationId == a.tokenVerificationId, ActionMismatch("token"))
  }

  function PayloadValid(p: Payload, to: State): Outcome<Error>
    requires !p.OtherDoc?
  {
    match p
    case DecisionDoc(d) => DecisionPayloadValid(d)
    case ReplayDoc(r) => ReplayPayloadValid(r, to)
    case StoreDoc(r) => StorePayloadValid(r, to)
  }

  function CommonRules(p: Payload, tenant: string, to: State, stored: Option<Decision>, q: Request): Outcome<Error>
    requires !p.OtherDoc?
  {
    var (raw, secret) := match p
      case DecisionDoc(d) => (d.rawContent, d.secretMaterial)
      case ReplayDoc(r) => (r.rawContent, r.secretMaterial)
      case StoreDoc(r) => (r.rawContent, r.secretMaterial);
    if raw == Some(true) then Fail(RawContent)
    else if secret == Some(true) then Fail(SecretMaterial)
    else if PayloadValid(p, to).Fail? then PayloadValid(p, to)
    else RequestConsistent(tenant, stored, q, to == MismatchDenied)
  }

  // ----- rules of one target state ----------------------------------------------------------

  function ActionFromReplay(r: Replay): Action {
    Action(r.tenantId, r.customerContextId, r.taskId, Null, r.workerId, r.guardianDecisionId,
           r.approvalBindingId, Null, Null, Null, Null, r.tokenVerificationId, Null, Null, Null, Null,
           r.scopeHash, r.actionType, r.toolScope, Some(true), r.evidenceRefs, None, None)
  }

  function IsExpired(d: Decision, reference: Stamp): Outcome<Error> {
    if !reference.At? then Fail(ReferenceTimeMissing)
    else Need(d.expiresAt.At? && d.expiresAt.micros <= reference.micros, NotExpired)
  }

  function IsStale(d: Decision, reference: Stamp): Outcome<Error> {
    if !reference.At? then Fail(ReferenceTimeMissing)
    else if !d.issuedAt.At? then Fail(NotStale) else
    var maxAge := SecondsOr(d.maxAge, MAX_DECISION_AGE_SECONDS);
    var skew := SecondsOr(d.skew, DEFAULT_SKEW_SECONDS);
    if !(maxAge.Seconds? && skew.Seconds?) then Fail(NotStale)
    else Need(reference.micros - d.issuedAt.micros > (maxAge.n + skew.n) * MICROS, NotStale)
  }

  predicate IsBlockedMvp(d: Decision) {
    || d.verdict == Text("block_mvp")
    || d.replayPolicy == Text("blocked_mvp")
    || d.replayStatus == Text("blocked_mvp")
    || d.environment == Text("blocked_mvp")
    || OneOf(d.actionClass, {"connector_access", "outbound_message", "lima_it_remediation"})
    || OneOf(d.boundActionType, {"live_connector_access", "external_send", "lima_it_remediation"})
  }

  function Category(differ: bool, name: string): set<string> {
    if differ then {name} else {}
  }

  /** `_collect_requested_action_mismatch_categories` */
  function ActionMismatches(d: Decision, a: Action): set<string> {
    var named := Either(a.approvalBindingId, a.bindingId);
    Category(!Agree(d.boundTenantId, a.tenantId), "tenant_mismatch")
    + Category(!Agree(d.boundTaskId, a.taskId), "task_mismatch")
    + Category(!Agree(d.boundWorkerId, a.workerId), "worker_mismatch")
    + Category(!Agree(d.boundActionType, a.actionType), "action_type_mismatch")
    + Category(!Agree(d.scopeHash, a.scopeHash), "decision_scope_hash_mismatch")
    + Category(!d.boundToolScope.NoScope? && !a.toolScope.NoScope? && d.boundToolScope != a.toolScope,
               "tool_scope_mismatch")
    + Category(!Agree(d.approvalBindingId, named), "approval_binding_mismatch")
    + Category(!Agree(d.tokenVerificationId, a.tokenVerificationId), "token_verification_mismatch")
  }

  function BindingMismatches(d: Decision, q: Request): set<string> {
    Category(q.binding.Some? && IsName(d.approvalBindingId) && q.binding.value.bindingId != d.approvalBindingId,
             "approval_binding_mismatch")
    + Category(q.token.Some? && IsName(d.tokenVerificationId)
                 && q.token.value.tokenVerificationId != d.tokenVerificationId,
               "token_verification_mismatch")
  }

  function MismatchRules(d: Decision, r: Replay, q: Request): Outcome<Error> {
    if !q.action.Some? then Fail(NoRequestedAction) else
    var categories := ActionMismatches(d, q.action.value) + BindingMismatches(d, q);
    if categories == {} then Fail(NoMismatch)
    else if !(exists v :: v in r.mismatchReasons && IsName(v)) then Fail(MismatchReasonsMissing)
    else if !(exists v :: v in r.mismatchReasons && IsName(v) && v.text in categories)
      then Fail(MismatchReasonsUnrelated)
    else DenialEvidencePresent(ReplayDoc(r))
  }

  function FirstUseRules(d: Decision, r: Replay, q: Request, reference: Stamp, consumed: set<string>): Outcome<Error> {
    if IsName(d.approvalBindingId) && q.binding.None? then Fail(BindingRequired)
    else if IsName(d.tokenVerificationId) && q.token.None? then Fail(TokenRequired) else
    var action := if q.action.Some? then q.action.value else ActionFromReplay(r);
    var usable := ReplaySafe(d, action, reference, Some(consumed));
    if usable.Fail? then Fail(Unusable(usable.error))
    else Need(r.checkResult == Text("valid_first_use"), ResultMismatch)
  }

  function TenantNonces(pairs: set<(string, string)>, tenant: string): set<string> {
    set pair | pair in pairs && pair.0 == tenant :: pair.1
  }

  function ReserveRules(s: Drill, h: Header, r: StoreRecord): Outcome<Error> {
    if r.nonceStatus != Text("reserved") then Fail(NonceStatus)
    else if r.atomicityStatus != Text("pending") then Fail(AtomicityNotPending)
    else Need((h.tenant, h.nonce) !in s.reserved && (h.tenant, h.nonce) !in s.consumed, DuplicateReservation)
  }

  function ConsumeRules(s: Drill, h: Header, r: StoreRecord): Outcome<Error> {
    if r.nonceStatus != Text("consumed") then Fail(NonceStatus)
    else if (h.tenant, h.nonce) in s.consumed then Fail(DuplicateConsumption)
    else Need((h.tenant, h.nonce) in s.reserved, NotReserved)
  }

  function ReplayRules(s: Drill, h: Header, r: Replay): Outcome<Error> {
    if (h.tenant, h.nonce) !in s.consumed then Fail(NotConsumed)
    else DenialEvidencePresent(ReplayDoc(r))
  }

  /** A denial needs its own condition first, and then its evidence. */
  function IfThenDenial(condition: Outcome<Error>, r: Replay): Outcome<Error> {
    if condition.Fail? then condition else DenialEvidencePresent(ReplayDoc(r))
  }

  function FailClosedRules(r: StoreRecord): Outcome<Error> {
    if r.atomicityStatus != Text("failed_closed") then Fail(NotFailedClosed)
    else if !Truthy(r.failureReason) then Fail(FailureReasonMissing)
    else if r.evidenceRefs == [] then Fail(FailureEvidenceMissing)
    else Need(forall v | v in r.evidenceRefs :: IsEvidenceRef(v), FailureEvidenceMissing)
  }

  /** `_enforce_transition_specific_rules` */
  function SpecificRules(s: Drill, h: Header, to: State, p: Payload, q: Request, reference: Stamp): Outcome<Error> {
    if to == DecisionRegistered then
      if p.DecisionDoc? then DecisionPayloadValid(p.decision) else Fail(ContractNotForState)
    else
    if h.id !in s.decisions then Fail(NotRegistered) else
    var d := s.decisions[h.id];
    match (to, p)
    case (NonceReserved, StoreDoc(r)) => ReserveRules(s, h, r)
    case (FirstUseValidated, ReplayDoc(r)) =>
      FirstUseRules(d, r, q, reference, TenantNonces(s.consumed, h.tenant))
    case (NonceConsumed, StoreDoc(r)) => ConsumeRules(s, h, r)
    case (ReplayDenied, ReplayDoc(r)) => ReplayRules(s, h, r)
    case (ExpiredDenied, ReplayDoc(r)) => IfThenDenial(IsExpired(d, reference), r)
    case (StaleDenied, ReplayDoc(r)) => IfThenDenial(IsStale(d, reference), r)
    case (MismatchDenied, ReplayDoc(r)) => MismatchRules(d, r, q)
    case (BlockedMvpDenied, ReplayDoc(r)) => IfThenDenial(Need(IsBlockedMvp(d), NotBlocked), r)
    case (FailedClosedRecorded, StoreDoc(r)) => FailClosedRules(r)
    case _ => Fail(ContractNotForState)
  }

  // ----- the calls -----------------------------------------------------------------------------

  datatype Call =
    | Register(payload: Payload, initial: State, expected: Option<string>)
    | Transition(id: string, to: State, payload: Payload, request: Request)

  function Stored(s: Drill, id: string): Option<Decision> {
    if id in s.decisions then Some(s.decisions[id]) else None
  }

  /** The checks of a registration that come before any rule about the payload's content. */
  function RegisterRoute(s: Drill, c: Call): Outcome<Error>
    requires c.Register?
  {
    var n := Normalize(c.payload, c.expected);
    if n.Bad? then Fail(n.error)
    else if n.header.id in s.current then Fail(AlreadyRegistered)
    else if c.initial.Unknown? then Fail(UnknownState)
    else if c.initial != Planned then Fail(NotPlanned)
    else Need(ContractFor(c.initial) == Some(n.header.contract), ContractNotForState)
  }

  function RegisterCheck(s: Drill, c: Call): Outcome<Error>
    requires c.Register?
  {
    if RegisterRoute(s, c).Fail? then RegisterRoute(s, c) else
    var h := Normalize(c.payload, c.expected).header;
    var common := CommonRules(c.payload, h.tenant, c.initial, Stored(s, h.id), NO_REQUEST);
    if common.Fail? then common else DecisionPayloadValid(c.payload.decision)
  }

  /** The checks of a transition that come before any rule about the payload's content. */
  function RouteCheck(s: Drill, c: Call): Outcome<Error>
    requires c.Transition?
  {
    if c.id !in s.current then Fail(UnknownDecision) else
    var record := s.current[c.id];
    var n := Normalize(c.payload, Some(c.id));
    if n.Bad? then Fail(n.error)
    else if record.tenant != n.header.tenant then Fail(WrongTenant)
    else if record.nonce != n.header.nonce then Fail(WrongNonce)
    else if record.state.Unknown? || c.to.Unknown? then Fail(UnknownState)
    else if record.state == c.to then Fail(SameState)
    else if !Allowed(record.state, c.to) then Fail(TransitionNotAllowed)
    else Need(ContractFor(c.to) == Some(n.header.contract), ContractNotForState)
  }

  function TransitionCheck(s: Drill, reference: Stamp, c: Call): Outcome<Error>
    requires c.Transition?
  {
    if RouteCheck(s, c).Fail? then RouteCheck(s, c) else
    var h := Normalize(c.payload, Some(c.id)).header;
    var common := CommonRules(c.payload, h.tenant, c.to, Stored(s, h.id), c.request);
    if common.Fail? then common else SpecificRules(s, h, c.to, c.payload, c.request, reference)
  }

  function Check(s: Drill, reference: Stamp, c: Call): Outcome<Error> {
    if c.Register? then RegisterCheck(s, c) else TransitionCheck(s, reference, c)
  }

  function Add(s: Drill, h: Header, p: Payload): Drill
    requires p.DecisionDoc?
  {
    s.(current := s.current[h.id := Record(h.tenant, h.nonce, Planned, p)],
       history := s.history[h.id := [Entry(h.id, h.tenant, None, Planned)]],
       decisions := s.decisions[h.id := p.decision])
  }

  function Move(s: Drill, id: string, h: Header, to: State, p: Payload): Drill
    requires id in s.current
    requires to == DecisionRegistered ==> p.DecisionDoc?
  {
    var pair := (h.tenant, h.nonce);
    var entry := Entry(id, h.tenant, Some(s.current[id].state), to);
    Drill(
      s.current[id := Record(h.tenant, h.nonce, to, p)],
      s.history[id := (if id in s.history then s.history[id] else []) + [entry]],
      if to == DecisionRegistered then s.decisions[h.id := p.decision] else s.decisions,
      if to == NonceReserved then s.reserved + {pair}
      else if to == NonceConsumed then s.reserved - {pair} else s.reserved,
      if to == NonceConsumed then s.consumed + {pair} else s.consumed)
  }

  /** One call: an accepted call changes the state, a refused call changes nothing. */
  function Next(s: Drill, reference: Stamp, c: Call): Drill {
    if Check(s, reference, c).Fail? then s
    else if c.Register? then Add(s, Normalize(c.payload, c.expected).header, c.payload)
    else Move(s, c.id, Normalize(c.payload, Some(c.id)).header, c.to, c.payload)
  }

  function Run(s: Drill, reference: Stamp, calls: seq<Call>): Drill
    decreases |calls|
  {
    if calls == [] then s else Run(Next(s, reference, calls[0]), reference, calls[1..])
  }
}
