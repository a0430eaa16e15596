/** The contract records that the Guardian checks read, one datatype per contract.
    A field keeps the value the code sees through `dict.get`. */
module GuardianRecords {
  import opened Values

  /** A timestamp field: not a string, a string that does not parse to an aware time,
      or a point in time in microseconds. */
  datatype Stamp = NotText | Garbled | At(micros: int)

  /** An integer setting read with a default that applies only when the key is missing. */
  datatype Setting = Missing | NotInteger | Seconds(n: int)

  /** A tool scope object. `rest` stands for its remaining keys, which count for equality. */
  datatype Scope =
    | NoScope
    | NotObject(tag: int)
    | Scope(resources: seq<string>, allowed: seq<string>, prohibited: seq<string>, rest: int)

  /** `guardian.decision` */
  datatype Decision = Decision(
    schemaValid: bool,
    contractName: Value,
    rawContent: Option<bool>,
    secretMaterial: Option<bool>,
    decisionId: Value,
    guardianDecisionId: Value,
    tenantId: Value,
    customerContextId: Value,
    environment: Value,
    verdict: Value,
    nonce: Value,
    replayPolicy: Value,
    replayStatus: Value,
    consumedAt: Value,
    revokedAt: Value,
    actionClass: Value,
    injectionSuspected: bool,
    evidenceRequired: bool,
    evidenceRefs: seq<Value>,
    denialEvidenceRef: Value,
    bindingId: Value,
    approvalBindingId: Value,
    tokenVerificationId: Value,
    scopeHash: Value,
    boundTenantId: Value,
    boundTaskId: Value,
    boundWorkerId: Value,
    boundActionType: Value,
    boundToolScope: Scope,
    issuedAt: Stamp,
    effectiveAt: Stamp,
    expiresAt: Stamp,
    createdAt: Stamp,
    maxAge: Setting,
    skew: Setting
  )

  /** `approval.binding` */
  datatype Binding = Binding(
    schemaValid: bool,
    contractName: Value,
    bindingId: Value,
    tenantId: Value,
    customerContextId: Value,
    taskId: Value,
    toolInvocationId: Value,
    workerId: Value,
    guardianDecisionId: Value,
    approvalRequestId: Value,
    approvalResultId: Value,
    approvalTokenId: Value,
    tokenVerificationId: Value,
    approvalChainId: Value,
    policyVersion: Value,
    policySnapshotHash: Value,
    approvedScopeHash: Value,
    status: Value,
    verificationResult: Value,
    tokenUsePolicy: Value,
    blockedMvpAction: bool,
    actionType: Value,
    consumedAt: Value,
    revokedAt: Value,
    separationCheck: Value,
    requesterRef: Value,
    approverRef: Value,
    identityAssuranceRefs: seq<string>,
    taintStatus: Value,
    taintRefs: seq<string>,
    evidenceRequired: bool,
    evidenceRefs: seq<Value>,
    toolScope: Scope,
    checkedAt: Stamp,
    expiresAt: Stamp,
    nonceRef: Value
  )

  /** `token.verification` */
  datatype Token = Token(
    schemaValid: bool,
    tenantId: Value,
    tokenVerificationId: Value,
    guardianDecisionId: Value
  )

  /** A requested action. Actions are not validated against a schema. */
  datatype Action = Action(
    tenantId: Value,
    customerContextId: Value,
    taskId: Value,
    toolInvocationId: Value,
    workerId: Value,
    guardianDecisionId: Value,
    approvalBindingId: Value,
    bindingId: Value,
    approvalRequestId: Value,
    approvalResultId: Value,
    approvalTokenId: Value,
    tokenVerificationId: Value,
    approvalChainId: Value,
    policyVersion: Value,
    policySnapshotHash: Value,
    approvedScopeHash: Value,
    scopeHash: Value,
    actionType: Value,
    toolScope: Scope,
    evidenceRequired: Option<bool>,
    evidenceRefs: seq<Value>,
    approvalBinding: Option<Binding>,
    guardianDecision: Option<Decision>
  )

  /** `guardian.replay` */
  datatype Replay = Replay(
    schemaValid: bool,
    rawContent: Option<bool>,
    secretMaterial: Option<bool>,
    guardianDecisionId: Value,
    tenantId: Value,
    customerContextId: Value,
    nonce: Value,
    taskId: Value,
    workerId: Value,
    approvalBindingId: Value,
    tokenVerificationId: Value,
    actionType: Value,
    toolScope: Scope,
    scopeHash: Value,
    checkResult: Value,
    mismatchReasons: seq<Value>,
    denialEvidenceRef: Value,
    preActionRefs: seq<Value>,
    evidenceRefs: seq<Value>
  )

  /** `replay.store.record` */
  datatype StoreRecord = StoreRecord(
    schemaValid: bool,
    contractName: Value,
    rawContent: Option<bool>,
    secretMaterial: Option<bool>,
    replayRecordId: string,
    guardianDecisionId: Value,
    tenantId: Value,
    customerContextId: Value,
    nonce: Value,
    nonceStatus: Value,
    atomicityStatus: Value,
    consumedAt: Value,
    checkedAt: Value,
    failureReason: Value,
    denialEvidenceRef: Value,
    evidenceRefs: seq<Value>,
    actionType: Value,
    canonicalTaskId: Value,
    canonicalWorkerId: Value,
    toolScope: Scope,
    approvalBindingId: Value,
    tokenVerificationId: Value
  )
}
