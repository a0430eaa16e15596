/** The in-memory replay store: record consistency, first-use authorization, and the link
    between stored consumed records and the consumed nonces. */
module ReplayStore {
  import opened Values
  import opened GuardianRecords
  import A = Authorizations
  import G = GuardianInvariants
  import L = NonceLedger

  const USELESS_STATUSES := {"consumed", "replay_denied", "expired", "revoked", "failed"}
  const USELESS_ATOMICITY := {"failed_closed", "rolled_back"}

  datatype Fault =
    | WrongRecord | RawContent | SecretMaterial | ConsumedAtMissing | DenialEvidence | FailureReason
    | FailureEvidence | TenantMismatch | ContextMismatch | ActionTypeMismatch | TaskMismatch
    | WorkerMismatch | ScopeMismatch | DecisionMismatch | BindingMismatch | TokenMismatch
    | BlockedAction | StatusUnusable | StoreFailed | NotPending | SchemaInvalid | NonceSpent

  predicate SubScope(requested: Scope, allowed: Scope) {
    || requested.NoScope?
    || (requested.Scope? && allowed.Scope?
        && Elements(requested.resources) <= Elements(allowed.resources)
        && Elements(requested.allowed) <= Elements(allowed.allowed))
  }

  /** The optional records that accompany a replay record. */
  datatype Context = Context(action: Option<Action>, decision: Option<Decision>, binding: Option<Binding>)

  function MatchesAction(r: StoreRecord, a: Action): Outcome<Fault> {
    if a.tenantId != Null && r.tenantId != a.tenantId then Fail(TenantMismatch)
    else if a.customerContextId != Null && r.customerContextId != a.customerContextId then Fail(ContextMismatch)
    else if a.actionType != Null && r.actionType != a.actionType then Fail(ActionTypeMismatch)
    else if r.canonicalTaskId != Null && a.taskId !in {Null, r.canonicalTaskId} then Fail(TaskMismatch)
    else if r.canonicalWorkerId != Null && a.workerId !in {Null, r.canonicalWorkerId} then Fail(WorkerMismatch)
    else Need(SubScope(a.toolScope, r.toolScope), ScopeMismatch)
  }

  function MatchesDecision(r: StoreRecord, d: Decision): Outcome<Fault> {
    if r.tenantId != d.tenantId then Fail(TenantMismatch)
    else if r.customerContextId != d.customerContextId then Fail(ContextMismatch)
    else if r.guardianDecisionId !in {d.decisionId, d.guardianDecisionId} then Fail(DecisionMismatch)
    else if d.boundActionType != Null && r.actionType != d.boundActionType then Fail(ActionTypeMismatch)
    else if !SubScope(r.toolScope, d.boundToolScope) then Fail(ScopeMismatch)
    else if d.approvalBindingId != Null && r.approvalBindingId != d.approvalBindingId then Fail(BindingMismatch)
    else Need(d.tokenVerificationId == Null || r.tokenVerificationId == d.tokenVerificationId, TokenMismatch)
  }

  function MatchesBinding(r: StoreRecord, b: Binding): Outcome<Fault> {
    if r.tenantId != b.tenantId then Fail(TenantMismatch)
    else if r.customerContextId != b.customerContextId then Fail(ContextMismatch)
    else if r.approvalBindingId !in {Null, b.bindingId} then Fail(BindingMismatch)
    else if r.tokenVerificationId !in {Null, b.tokenVerificationId} then Fail(TokenMismatch)
    else Need(SubScope(r.toolScope, b.toolScope), ScopeMismatch)
  }

  /** `assert_replay_store_record_consistent` */
  function Consistent(r: StoreRecord, c: Context, forAuthorization: bool): Outcome<Fault> {
    if r.contractName != Text("replay.store.record") then Fail(WrongRecord)
    else if r.rawContent != Some(false) then Fail(RawContent)
    else if r.secretMaterial != Some(false) then Fail(SecretMaterial)
    else if r.nonceStatus == Text("consumed") && !Truthy(r.consumedAt) then Fail(ConsumedAtMissing)
    else if r.nonceStatus == Text("replay_denied") && !(Truthy(r.denialEvidenceRef) && r.evidenceRefs != [])
      then Fail(DenialEvidence)
    else if r.atomicityStatus == Text("failed_closed") && !Truthy(r.failureReason) then Fail(FailureReason)
    else if r.atomicityStatus == Text("failed_closed") && r.evidenceRefs == [] then Fail(FailureEvidence)
    else if c.action.Some? && MatchesAction(r, c.action.value).Fail? then MatchesAction(r, c.action.value)
    else if c.decision.Some? && MatchesDecision(r, c.decision.value).Fail? then MatchesDecision(r, c.decision.value)
    else if c.binding.Some? && MatchesBinding(r, c.binding.value).Fail? then MatchesBinding(r, c.binding.value)
    else if !forAuthorization then Pass
    else Authorizable(r, c)
  }

  function Authorizable(r: StoreRecord, c: Context): Outcome<Fault> {
    var actionType := if c.action.Some? then c.action.value.actionType else r.actionType;
    if OneOf(actionType, G.BLOCKED_MVP_ACTIONS) then Fail(BlockedAction)
    else if OneOf(r.nonceStatus, USELESS_STATUSES) then Fail(StatusUnusable)
    else if OneOf(r.atomicityStatus, USELESS_ATOMICITY) then Fail(StoreFailed)
    else Need(r.nonceStatus == Text("reserved") ==> r.atomicityStatus == Text("pending"), NotPending)
  }

  // ----- what a consistent record agrees with --------------------------------------------------------

  /** The record keeps nothing raw or secret, and carries what its status calls for. */
  predicate Whole(r: StoreRecord) {
    && r.contractName == Text("replay.store.record") && r.rawContent == Some(false) && r.secretMaterial == Some(false)
    && (r.nonceStatus == Text("consumed") ==> Truthy(r.consumedAt))
    && (r.nonceStatus == Text("replay_denied") ==> Truthy(r.denialEvidenceRef) && r.evidenceRefs != [])
    && (r.atomicityStatus == Text("failed_closed") ==> Truthy(r.failureReason) && r.evidenceRefs != [])
  }

  predicate Within(inner: Scope, outer: Scope) {
    && inner.Scope? && outer.Scope?
    && Elements(inner.resources) <= Elements(outer.resources)
    && Elements(inner.allowed) <= Elements(outer.allowed)
  }

  /** Nothing is asked for, or only what lies inside. */
  predicate Contained(inner: Scope, outer: Scope) {
    inner != NoScope ==> Within(inner, outer)
  }

  predicate FitsAction(r: StoreRecord, a: Action) {
    && A.Asked(a.tenantId, r.tenantId) && A.Asked(a.customerContextId, r.customerContextId)
    && A.Asked(a.actionType, r.actionType)
    && (a.taskId == Null || A.Asked(r.canonicalTaskId, a.taskId))
    && (a.workerId == Null || A.Asked(r.canonicalWorkerId, a.workerId))
    && Contained(a.toolScope, r.toolScope)
  }

  predicate FitsDecision(r: StoreRecord, d: Decision) {
    && r.tenantId == d.tenantId && r.customerContextId == d.customerContextId
    && (r.guardianDecisionId == d.decisionId || r.guardianDecisionId == d.guardianDecisionId)
    && A.Asked(d.boundActionType, r.actionType) && Contained(r.toolScope, d.boundToolScope)
    && A.Asked(d.approvalBindingId, r.approvalBindingId) && A.Asked(d.tokenVerificationId, r.tokenVerificationId)
  }

  predicate FitsBinding(r: StoreRecord, b: Binding) {
    && r.tenantId == b.tenantId && r.customerContextId == b.customerContextId
    && A.Asked(r.approvalBindingId, b.bindingId) && A.Asked(r.tokenVerificationId, b.tokenVerificationId)
    && Contained(r.toolScope, b.toolScope)
  }

  /** The record is whole and fits every record that accompanies it. */
  predicate Fits(r: StoreRecord, c: Context) {
    && Whole(r)
    && (c.action.Some? ==> FitsAction(r, c.action.value))
    && (c.decision.Some? ==> FitsDecision(r, c.decision.value))
    && (c.binding.Some? ==> FitsBinding(r, c.binding.value))
  }

  /** The record is still open, undamaged and, when reserved, pending; what is asked for is no blocked action. */
  predicate Open(r: StoreRecord, c: Context) {
    && !OneOf(if c.action.Some? then c.action.value.actionType else r.actionType, G.BLOCKED_MVP_ACTIONS)
    && r.nonceStatus != Text("consumed") && r.nonceStatus != Text("replay_denied") && r.nonceStatus != Text("expired")
    && r.nonceStatus != Text("revoked") && r.nonceStatus != Text("failed")
    && r.atomicityStatus != Text("failed_closed") && r.atomicityStatus != Text("rolled_back")
    && (r.nonceStatus == Text("reserved") ==> r.atomicityStatus == Text("pending"))
  }

  lemma OpenExactlyWhen(r: StoreRecord, c: Context)
    ensures Authorizable(r, c).Pass? <==> Open(r, c)
  {
    assert OneOf(r.nonceStatus, USELESS_STATUSES) <==>
      || r.nonceStatus == Text("consumed") || r.nonceStatus == Text("replay_denied") || r.nonceStatus == Text("expired")
      || r.nonceStatus == Text("revoked") || r.nonceStatus == Text("failed");
    assert OneOf(r.atomicityStatus, USELESS_ATOMICITY) <==>
      r.atomicityStatus == Text("failed_closed") || r.atomicityStatus == Text("rolled_back");
  }

  lemma MatchesActionExactlyWhen(r: StoreRecord, a: Action)
    ensures MatchesAction(r, a).Pass? <==> FitsAction(r, a)
  {
  }

  lemma MatchesDecisionExactlyWhen(r: StoreRecord, d: Decision)
    ensures MatchesDecision(r, d).Pass? <==> FitsDecision(r, d)
  {
  }

  lemma MatchesBindingExactlyWhen(r: StoreRecord, b: Binding)
    ensures MatchesBinding(r, b).Pass? <==> FitsBinding(r, b)
  {
  }

  /** The consistency check accepts exactly the records that fit; to authorize, the record must besides be open
      and about nothing blocked. */
  lemma ConsistentExactlyWhen(r: StoreRecord, c: Context, forAuthorization: bool)
    ensures Consistent(r, c, forAuthorization).Pass? <==> Fits(r, c) && (forAuthorization ==> Open(r, c))
  {
    OpenExactlyWhen(r, c);
    if c.action.Some? {
      MatchesActionExactlyWhen(r, c.action.value);
    }
    if c.decision.Some? {
      MatchesDecisionExactlyWhen(r, c.decision.value);
    }
    if c.binding.Some? {
      MatchesBindingExactlyWhen(r, c.binding.value);
    }
  }

  /** A record about a blocked action may be authorized exactly when it fits, is otherwise open, and comes with an
      action that leaves its type out: the check then looks at the action's type and not at the record's. */
  lemma BlockedRecordAuthorizesExactlyWhen(r: StoreRecord, c: Context)
    requires OneOf(r.actionType, G.BLOCKED_MVP_ACTIONS)
    ensures Consistent(r, c, true).Pass? <==>
      && Fits(r, c) && c.action.Some? && c.action.value.actionType == Null
      && r.nonceStatus != Text("consumed") && r.nonceStatus != Text("replay_denied") && r.nonceStatus != Text("expired")
      && r.nonceStatus != Text("revoked") && r.nonceStatus != Text("failed")
      && r.atomicityStatus != Text("failed_closed") && r.atomicityStatus != Text("rolled_back")
      && (r.nonceStatus == Text("reserved") ==> r.atomicityStatus == Text("pending"))
  {
    ConsistentExactlyWhen(r, c, true);
  }

  // ----- the store as a state --------------------------------------------------------------------

  datatype Store = Store(records: map<string, StoreRecord>, consumed: set<string>)

  const EMPTY := Store(map[], {})

  datatype Call =
    | Authorize(record: StoreRecord, context: Context)
    | CheckRecord(record: StoreRecord, context: Context)
    | MarkDenied(record: StoreRecord, evidenceRef: string)
    | FailClosed(record: StoreRecord, reason: string, refs: seq<Value>)

  function Committed(r: StoreRecord): StoreRecord {
    r.(nonceStatus := Text("consumed"), atomicityStatus := Text("committed"), consumedAt := r.checkedAt,
       failureReason := Null, denialEvidenceRef := Null)
  }

  function Denied(r: StoreRecord, evidenceRef: string): StoreRecord {
    r.(nonceStatus := Text("replay_denied"), atomicityStatus := Text("committed"), consumedAt := Null,
       denialEvidenceRef := Text(evidenceRef), evidenceRefs := [Text(evidenceRef)], failureReason := Null)
  }

  function Failed(r: StoreRecord, reason: string, refs: seq<Value>): StoreRecord {
    r.(nonceStatus := Text("failed"), atomicityStatus := Text("failed_closed"), consumedAt := Null,
       failureReason := Text(reason), evidenceRefs := refs)
  }

  /** The schema requires a non-empty nonce; `valid` stands for the rest of the schema. */
  predicate SchemaOk(valid: StoreRecord -> bool, r: StoreRecord) {
    valid(r) && IsName(r.nonce)
  }

  function Attempt(valid: StoreRecord -> bool, call: Call): L.Attempt {
    match call
    case Authorize(r, c) =>
      L.Attempt(if r.nonce.Text? then r.nonce.text else "", true,
                SchemaOk(valid, r) && Consistent(r, c, true).Pass?, SchemaOk(valid, Committed(r)))
    case _ => L.Attempt("", false, false, false)
  }

  function Put(s: Store, valid: StoreRecord -> bool, r: StoreRecord): Store {
    if SchemaOk(valid, r) then s.(records := s.records[r.replayRecordId := r]) else s
  }

  function Next(s: Store, valid: StoreRecord -> bool, call: Call): Store {
    match call
    case Authorize(r, _) =>
      var burned := s.(consumed := L.After(s.consumed, Attempt(valid, call)));
      if L.Succeeds(s.consumed, Attempt(valid, call)) then Put(burned, valid, Committed(r)) else burned
    case CheckRecord(_, _) => s
    case MarkDenied(r, ref) => Put(s, valid, Denied(r, ref))
    case FailClosed(r, reason, refs) => Put(s, valid, Failed(r, reason, refs))
  }

  function Run(s: Store, valid: StoreRecord -> bool, calls: seq<Call>): Store
    decreases |calls|
  {
    if calls == [] then s else Run(Next(s, valid, calls[0]), valid, calls[1..])
  }

  predicate Linked(s: Store) {
    forall id | id in s.records && s.records[id].nonceStatus == Text("consumed") ::
      s.records[id].nonce.Text? && s.records[id].nonce.text in s.consumed
  }

  function Attempts(valid: StoreRecord -> bool, calls: seq<Call>): seq<L.Attempt> {
    seq(|calls|, i requires 0 <= i < |calls| => Attempt(valid, calls[i]))
  }

  /** In every run each stored record marked consumed has its nonce in the consumed set, and the
      consumed set is the nonce ledger of the run's authorizations. */
  lemma {:induction false} RunIsLedger(s: Store, valid: StoreRecord -> bool, calls: seq<Call>)
    requires Linked(s)
    ensures Linked(Run(s, valid, calls))
    ensures Run(s, valid, calls).consumed == L.Run(s.consumed, Attempts(valid, calls))
    decreases |calls|
  {
    if calls != [] {
      RunIsLedger(Next(s, valid, calls[0]), valid, calls[1..]);
      assert Attempts(valid, calls)[1..] == Attempts(valid, calls[1..]);
    }
  }

  /** Over any run each nonce is authorized at most once, and never again after it is burned. */
  lemma AuthorizedAtMostOnce(valid: StoreRecord -> bool, calls: seq<Call>, nonce: string)
    ensures L.Uses({}, Attempts(valid, calls), nonce) <= 1
    ensures nonce in Run(EMPTY, valid, calls).consumed <==> L.Uses({}, Attempts(valid, calls), nonce) == 1
  {
    RunIsLedger(EMPTY, valid, calls);
    L.UsedAtMostOnce({}, Attempts(valid, calls), nonce);
  }

  /** What the store keeps of a record, whichever way it was closed, authorizes nothing any more. */
  lemma StoredRecordsNeverAuthorize(r: StoreRecord, c: Context, evidenceRef: string, reason: string, refs: seq<Value>)
    ensures Consistent(Committed(r), c, true).Fail?
    ensures Consistent(Denied(r, evidenceRef), c, true).Fail?
    ensures Consistent(Failed(r, reason, refs), c, true).Fail?
  {
    ConsistentExactlyWhen(Committed(r), c, true);
    ConsistentExactlyWhen(Denied(r, evidenceRef), c, true);
    ConsistentExactlyWhen(Failed(r, reason, refs), c, true);
  }

  /** The record's identity: what closing it leaves alone. */
  predicate SameRecord(r: StoreRecord, stored: StoreRecord) {
    stored == r.(nonceStatus := stored.nonceStatus, atomicityStatus := stored.atomicityStatus,
                 consumedAt := stored.consumedAt, failureReason := stored.failureReason,
                 denialEvidenceRef := stored.denialEvidenceRef, evidenceRefs := stored.evidenceRefs)
  }

  /** What the store keeps fits whatever the record fitted, provided that the time of the check, the evidence of the
      denial, or the reason and the evidence of the failure were given; apart from how it was closed it is the record
      handed in. */
  lemma StoredRecordsFitExactlyWhen(r: StoreRecord, c: Context, evidenceRef: string, reason: string, refs: seq<Value>)
    requires Fits(r, c)
    ensures SameRecord(r, Committed(r)) && SameRecord(r, Denied(r, evidenceRef)) && SameRecord(r, Failed(r, reason, refs))
    ensures Fits(Committed(r), c) <==> Truthy(r.checkedAt)
    ensures Fits(Denied(r, evidenceRef), c) <==> evidenceRef != ""
    ensures Fits(Failed(r, reason, refs), c) <==> reason != "" && refs != []
    ensures Committed(r).consumedAt == r.checkedAt && Denied(r, evidenceRef).consumedAt == Null == Failed(r, reason, refs).consumedAt
    ensures Denied(r, evidenceRef).evidenceRefs == [Text(evidenceRef)] && Failed(r, reason, refs).evidenceRefs == refs
    ensures Committed(r).evidenceRefs == r.evidenceRefs
    ensures Committed(r).failureReason == Null == Denied(r, evidenceRef).failureReason
    ensures Committed(r).denialEvidenceRef == Null && Failed(r, reason, refs).denialEvidenceRef == r.denialEvidenceRef
  {
  }

  /** An authorized action with a scope stays inside the record's scope and, through it, inside the
      decision's bound scope and the binding's scope. */
  lemma AuthorizedScopeIsContained(s: Store, valid: StoreRecord -> bool, r: StoreRecord, c: Context)
    requires L.Succeeds(s.consumed, Attempt(valid, Authorize(r, c)))
    requires c.action.Some? && !c.action.value.toolScope.NoScope?
    ensures Within(c.action.value.toolScope, r.toolScope)
    ensures c.decision.Some? ==> Within(c.action.value.toolScope, c.decision.value.boundToolScope)
    ensures c.binding.Some? ==> Within(c.action.value.toolScope, c.binding.value.toolScope)
  {
  }

  // ----- the store object ---------------------------------------------------------------------------

  class InMemoryReplayStore {
    const valid: StoreRecord -> bool
    var recordsById: map<string, StoreRecord>
    var consumedNonces: set<string>

    function View(): Store
      reads this
    {
      Store(recordsById, consumedNonces)
    }

    constructor (valid: StoreRecord -> bool)
      ensures this.valid == valid && View() == EMPTY
    {
      this.valid := valid;
      recordsById, consumedNonces := map[], {};
    }

    method CheckedRecord(r: StoreRecord, c: Context) returns (o: Outcome<Fault>)
      ensures o.Pass? <==> valid(r) && IsName(r.nonce) && Fits(r, c)
    {
      ConsistentExactlyWhen(r, c, false);
      o := if SchemaOk(valid, r) then Consistent(r, c, false) else Fail(SchemaInvalid);
    }

    /** The nonce is added before the committed record is validated, so it stays burned when that
        validation fails. */
    method AuthorizeFirstUse(r: StoreRecord, c: Context) returns (o: Outcome<Fault>)
      modifies this
      ensures o.Pass? <==> L.Succeeds(old(consumedNonces), Attempt(valid, Authorize(r, c)))
      ensures o.Pass? <==>
        && valid(r) && IsName(r.nonce) && Fits(r, c) && Open(r, c) && r.nonce.text !in old(consumedNonces)
        && valid(Committed(r))
      ensures View() == Next(old(View()), valid, Authorize(r, c))
    {
      ConsistentExactlyWhen(r, c, true);
      if !SchemaOk(valid, r) {
        return Fail(SchemaInvalid);
      }
      o := Consistent(r, c, true);
      if o.Fail? {
        return;
      }
      if r.nonce.text in consumedNonces {
        return Fail(NonceSpent);
      }
      consumedNonces := consumedNonces + {r.nonce.text};
      o := Insert(Committed(r));
    }

    method MarkReplayDenied(r: StoreRecord, evidenceRef: string) returns (o: Outcome<Fault>)
      modifies this`recordsById
      ensures o.Pass? <==> valid(Denied(r, evidenceRef)) && IsName(r.nonce)
      ensures View() == Next(old(View()), valid, MarkDenied(r, evidenceRef))
    {
      o := Insert(Denied(r, evidenceRef));
    }

    method FailClosedRecord(r: StoreRecord, reason: string, refs: seq<Value>) returns (o: Outcome<Fault>)
      modifies this`recordsById
      ensures o.Pass? <==> valid(Failed(r, reason, refs)) && IsName(r.nonce)
      ensures View() == Next(old(View()), valid, FailClosed(r, reason, refs))
    {
      o := Insert(Failed(r, reason, refs));
    }

    method Insert(r: StoreRecord) returns (o: Outcome<Fault>)
      modifies this`recordsById
      ensures o == if SchemaOk(valid, r) then Pass else Fail(SchemaInvalid)
      ensures recordsById == if o.Pass? then old(recordsById)[r.replayRecordId := r] else old(recordsById)
    {
      if !SchemaOk(valid, r) {
        return Fail(SchemaInvalid);
      }
      recordsById := recordsById[r.replayRecordId := r];
      o := Pass;
    }
  }
}
