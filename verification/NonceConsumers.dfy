/** The verifiers that consume Guardian decision nonces and approval binding nonces. */
module NonceConsumers {
  import opened Values
  import opened GuardianRecords
  import opened GuardianInvariants
  import opened Authorizations
  import D = DrillAcceptance
  import L = NonceLedger

  datatype Reply<+T> = Accepted(record: T) | SchemaRefused | Denied(denial: Denial)

  function NameOf(v: Value): string {
    if v.Text? then v.text else ""
  }

  /** `_build_replay_record`, for the fields the model carries. */
  function ReplayRecord(d: Decision, a: Action): Replay {
    Replay(true, Some(false), Some(false), d.decisionId, d.tenantId, d.customerContextId, d.nonce,
           Either(a.taskId, d.boundTaskId), Either(a.workerId, d.boundWorkerId), d.approvalBindingId,
           d.tokenVerificationId, Either(a.actionType, d.boundActionType),
           if a.toolScope.NoScope? then d.boundToolScope else a.toolScope, d.scopeHash,
           Text("valid_first_use"), [], Null, [], d.evidenceRefs)
  }

  function DecisionAttempt(d: Decision, a: Action, reference: Stamp, valid: Replay -> bool, consume: bool): L.Attempt {
    L.Attempt(NameOf(d.nonce), consume, d.schemaValid && ReplaySafe(d, a, reference, None).Pass?,
              valid(ReplayRecord(d, a)))
  }

  /** The record built for a decision that the action may use describes an action that may use the decision, too: the
      replay drill would take it as a first use. */
  lemma BuiltRecordServes(d: Decision, a: Action, reference: Stamp)
    requires Usable(d, a, reference)
    ensures D.Serves(d, ReplayRecord(d, a), reference)
    ensures var r := ReplayRecord(d, a);
      && r.schemaValid && r.rawContent == Some(false) && r.secretMaterial == Some(false)
      && r.guardianDecisionId == d.decisionId && r.tenantId == a.tenantId && r.nonce == d.nonce
      && r.checkResult == Text("valid_first_use") && r.mismatchReasons == [] && r.denialEvidenceRef == Null
    ensures Truthy(a.taskId) ==> ReplayRecord(d, a).taskId == a.taskId
    ensures Truthy(a.workerId) ==> ReplayRecord(d, a).workerId == a.workerId
    ensures Truthy(a.actionType) ==> ReplayRecord(d, a).actionType == a.actionType
    ensures a.toolScope != NoScope ==> ReplayRecord(d, a).toolScope == a.toolScope
  {
  }

  class GuardianDecisionReplayVerifier {
    const reference: Stamp
    const valid: Replay -> bool  // the guardian.replay schema
    const consumed: NonceSet

    constructor (reference: Stamp, valid: Replay -> bool)
      ensures this.reference == reference && this.valid == valid
      ensures fresh(consumed) && consumed.members == {}
    {
      this.reference := reference;
      this.valid := valid;
      consumed := new NonceSet();
    }

    method VerifyOnce(d: Decision, a: Action) returns (r: Reply<Replay>)
      modifies consumed
      ensures var t := DecisionAttempt(d, a, reference, valid, true);
              && (r.Accepted? <==> L.Succeeds(old(consumed.members), t))
              && consumed.members == L.After(old(consumed.members), t)
      ensures r.Accepted? <==>
        && d.schemaValid && Usable(d, a, reference) && d.nonce.text !in old(consumed.members)
        && valid(ReplayRecord(d, a))
      ensures r.Accepted? ==> r.record == ReplayRecord(d, a)
    {
      r := Verify(d, a, true);
    }

    method Check(d: Decision, a: Action) returns (r: Reply<Replay>)
      modifies consumed
      ensures r.Accepted? <==> L.Succeeds(old(consumed.members), DecisionAttempt(d, a, reference, valid, false))
      ensures consumed.members == old(consumed.members)
      ensures r.Accepted? <==>
        && d.schemaValid && Usable(d, a, reference) && d.nonce.text !in old(consumed.members)
        && valid(ReplayRecord(d, a))
      ensures r.Accepted? ==> r.record == ReplayRecord(d, a)
    {
      r := Verify(d, a, false);
    }

    method Verify(d: Decision, a: Action, consume: bool) returns (r: Reply<Replay>)
      modifies consumed
      ensures var t := DecisionAttempt(d, a, reference, valid, consume);
              && (r.Accepted? <==> L.Succeeds(old(consumed.members), t))
              && consumed.members == L.After(old(consumed.members), t)
      ensures r.Accepted? <==>
        && d.schemaValid && Usable(d, a, reference) && d.nonce.text !in old(consumed.members)
        && valid(ReplayRecord(d, a))
      ensures r.Accepted? ==> r.record == ReplayRecord(d, a)
    {
      NonceGuardIsIndependent(d, a, reference, consumed.members);
      ReplaySafeExactlyWhen(d, a, reference, consumed.members);
      if !d.schemaValid {
        return SchemaRefused;
      }
      var o := AssertReplaySafe(d, a, reference, consumed, consume);
      if o.Fail? {
        return Denied(o.error);
      }
      var replay := ReplayRecord(d, a);
      r := if valid(replay) then Accepted(replay) else SchemaRefused;
    }
  }

  lemma BindingNonceIsIndependent(b: Binding, a: Action, reference: Stamp, consumed: set<string>)
    ensures BindingAuthorizes(b, a, reference, Some(consumed)).Pass?
            <==> BindingAuthorizes(b, a, reference, None).Pass? && NameOf(b.nonceRef) !in consumed
  {
  }

  function BindingAttempt(b: Binding, a: Action, reference: Stamp, consume: bool): L.Attempt {
    L.Attempt(NameOf(b.nonceRef), consume, b.schemaValid && BindingAuthorizes(b, a, reference, None).Pass?, true)
  }

  class ApprovalBindingVerifier {
    const reference: Stamp
    const consumed: NonceSet

    constructor (reference: Stamp)
      ensures this.reference == reference && fresh(consumed) && consumed.members == {}
    {
      this.reference := reference;
      consumed := new NonceSet();
    }

    method VerifyOnce(b: Binding, a: Action) returns (r: Reply<Binding>)
      modifies consumed
      ensures var t := BindingAttempt(b, a, reference, true);
              && (r.Accepted? <==> L.Succeeds(old(consumed.members), t))
              && consumed.members == L.After(old(consumed.members), t)
      ensures r.Accepted? <==> b.schemaValid && Entitled(b, a, reference) && b.nonceRef.text !in old(consumed.members)
      ensures r.Accepted? ==> r.record == b
    {
      r := Verify(b, a, true);
    }

    method Check(b: Binding, a: Action) returns (r: Reply<Binding>)
      modifies consumed
      ensures r.Accepted? <==> L.Succeeds(old(consumed.members), BindingAttempt(b, a, reference, false))
      ensures consumed.members == old(consumed.members)
      ensures r.Accepted? <==> b.schemaValid && Entitled(b, a, reference) && b.nonceRef.text !in old(consumed.members)
      ensures r.Accepted? ==> r.record == b
    {
      r := Verify(b, a, false);
    }

    method Verify(b: Binding, a: Action, consume: bool) returns (r: Reply<Binding>)
      modifies consumed
      ensures var t := BindingAttempt(b, a, reference, consume);
              && (r.Accepted? <==> L.Succeeds(old(consumed.members), t))
              && consumed.members == L.After(old(consumed.members), t)
      ensures r.Accepted? <==> b.schemaValid && Entitled(b, a, reference) && b.nonceRef.text !in old(consumed.members)
      ensures r.Accepted? ==> r.record == b
    {
      BindingNonceIsIndependent(b, a, reference, consumed.members);
      BindingAuthorizesExactlyWhen(b, a, reference, consumed.members);
      if !b.schemaValid {
        return SchemaRefused;
      }
      var o := AssertBindingAuthorizes(b, a, reference, consumed, consume);
      r := if o.Pass? then Accepted(b) else Denied(o.error);
    }
  }
}
