/** Which calls a reserved decision can still take: first use excludes the denials, no guard on
    the nonce sets can block the path from first use to replay denial. */
module DrillFates {
  import opened Values
  import opened GuardianRecords
  import opened GuardianInvariants
  import opened ReplayDrill
  import A = Authorizations
  import opened DrillTheorems
  import opened DrillAcceptance

  // ----- first use and the denials exclude each other -------------------------------------------

  function HeaderOf(id: string, p: Payload): Header
    requires Normalize(p, Some(id)).Good?
  {
    Normalize(p, Some(id)).header
  }

  /** An accepted transition has passed the route, the common and the specific rules, one after another. */
  lemma Accepted(s: Drill, reference: Stamp, id: string, to: State, p: Payload, q: Request)
    requires id != "" && Check(s, reference, Transition(id, to, p, q)).Pass?
    ensures id in s.current && !p.OtherDoc? && Normalize(p, Some(id)).Good?
    ensures HeaderOf(id, p).id == id && HeaderOf(id, p).tenant == s.current[id].tenant
    ensures HeaderOf(id, p).nonce == s.current[id].nonce && Allowed(s.current[id].state, to)
    ensures Proper(id, s.current[id])
    ensures CommonRules(p, s.current[id].tenant, to, Stored(s, id), q).Pass?
    ensures SpecificRules(s, HeaderOf(id, p), to, p, q, reference).Pass?
  {
    assert RouteCheck(s, Transition(id, to, p, q)).Pass?;
  }

  /** Once route and common rules pass, the specific rules decide. */
  lemma Decided(s: Drill, reference: Stamp, id: string, to: State, p: Payload, q: Request)
    requires id in s.current && !p.OtherDoc? && Normalize(p, Some(id)).Good?
    requires HeaderOf(id, p).id == id && HeaderOf(id, p).tenant == s.current[id].tenant
    requires HeaderOf(id, p).nonce == s.current[id].nonce && ContractFor(to) == Some(HeaderOf(id, p).contract)
    requires Allowed(s.current[id].state, to) && CommonRules(p, s.current[id].tenant, to, Stored(s, id), q).Pass?
    ensures Check(s, reference, Transition(id, to, p, q)) == SpecificRules(s, HeaderOf(id, p), to, p, q, reference)
  {
    assert RouteCheck(s, Transition(id, to, p, q)).Pass?;
  }

  lemma SpecificFirstUse(s: Drill, reference: Stamp, h: Header, p: Payload, q: Request)
    requires SpecificRules(s, h, FirstUseValidated, p, q, reference).Pass?
    ensures h.id in s.decisions && p.ReplayDoc?
    ensures FirstUseRules(s.decisions[h.id], p.replay, q, reference, TenantNonces(s.consumed, h.tenant)).Pass?
  {
  }

  function ActionInUse(q: Request, p: Payload): Action
    requires p.ReplayDoc?
  {
    if q.action.Some? then q.action.value else ActionFromReplay(p.replay)
  }

  /** The facts about the decision and the action in use that an accepted first use leaves. */
  lemma FirstUseFacts(s: Drill, reference: Stamp, id: string, p: Payload, q: Request)
    requires id != ""
    requires Check(s, reference, Transition(id, FirstUseValidated, p, q)).Pass?
    ensures id in s.decisions && id in s.current && p.ReplayDoc? && Proper(id, s.current[id])
    ensures RequestFits(q, s.current[id].tenant, s.decisions[id])
    ensures ReplaySafe(s.decisions[id], ActionInUse(q, p), reference, None).Pass?
  {
    Accepted(s, reference, id, FirstUseValidated, p, q);
    SpecificFirstUse(s, reference, HeaderOf(id, p), p, q);
    CommonExactlyWhen(p, s.current[id].tenant, FirstUseValidated, s.decisions[id], q);
    NonceGuardIsIndependent(s.decisions[id], ActionInUse(q, p), reference, TenantNonces(s.consumed, s.current[id].tenant));
  }

  /** An accepted first use is of a decision that the action may use at the reference time: the tenant, the bound
      task, worker, action type and references agree, and the requested scope lies inside the bound one. */
  lemma FirstUseIsUsable(s: Drill, reference: Stamp, id: string, p: Payload, q: Request)
    requires id != ""
    requires Check(s, reference, Transition(id, FirstUseValidated, p, q)).Pass?
    ensures id in s.decisions && p.ReplayDoc?
    ensures A.Usable(s.decisions[id], ActionInUse(q, p), reference)
  {
    FirstUseFacts(s, reference, id, p, q);
    A.ReplaySafeExactlyWhen(s.decisions[id], ActionInUse(q, p), reference, {});
  }

  lemma UsableIsTimely(d: Decision, reference: Stamp)
    requires A.InWindow(d, reference)
    ensures !Lapsed(d, reference) && !Overaged(d, reference)
  {
  }

  lemma UsableMatches(d: Decision, a: Action, category: string)
    requires A.DecisionAgrees(d, a) && ActionFits(a, d)
    ensures !Differs(d, a, category)
  {
  }

  lemma UsableIsBlockedOnlyByEnvironment(d: Decision, a: Action)
    requires A.DecisionStands(d, a.actionType) && A.DecisionAgrees(d, a)
    ensures Barred(d) <==> d.environment == Text("blocked_mvp")
  {
    assert OneOf(Text("connector_access"), BLOCKED_ACTION_CLASSES) && OneOf(Text("outbound_message"), BLOCKED_ACTION_CLASSES);
    assert OneOf(Text("lima_it_remediation"), BLOCKED_ACTION_CLASSES);
    assert OneOf(Text("live_connector_access"), BLOCKED_ACTION_TYPES) && OneOf(Text("external_send"), BLOCKED_ACTION_TYPES);
    assert OneOf(Text("lima_it_remediation"), BLOCKED_ACTION_TYPES);
  }

  /** What the decision and the request must show for a denial, apart from its payload. */
  ghost predicate DenialCondition(d: Decision, reference: Stamp, to: State, q: Request) {
    match to
    case ExpiredDenied => Lapsed(d, reference)
    case StaleDenied => Overaged(d, reference)
    case MismatchDenied => q.action.Some? && exists category :: Differs(d, q.action.value, category)
    case BlockedMvpDenied => Barred(d)
    case _ => true
  }

  lemma DenialNeedsItsCondition(s: Drill, reference: Stamp, id: string, to: State, p: Payload, q: Request)
    requires id != "" && id in s.decisions
    requires Check(s, reference, Transition(id, to, p, q)).Pass?
    ensures DenialCondition(s.decisions[id], reference, to, q)
    ensures id in s.current && RecordsFit(q, s.current[id].tenant, s.decisions[id])
  {
    Accepted(s, reference, id, to, p, q);
    CommonExactlyWhen(p, s.current[id].tenant, to, s.decisions[id], q);
    SpecificDenial(s, reference, HeaderOf(id, p), to, p, q);
  }

  lemma SpecificDenial(s: Drill, reference: Stamp, h: Header, to: State, p: Payload, q: Request)
    requires h.id in s.decisions && SpecificRules(s, h, to, p, q, reference).Pass?
    requires RecordsFit(q, h.tenant, s.decisions[h.id])
    ensures DenialCondition(s.decisions[h.id], reference, to, q)
  {
    var d := s.decisions[h.id];
    LapsedExactlyWhen(d, reference);
    OveragedExactlyWhen(d, reference);
    BarredExactlyWhen(d);
    if to.MismatchDenied? {
      assert MismatchRules(d, p.replay, q).Pass?;
      MismatchNeedsDifference(d, p.replay, q, h.tenant);
    }
  }

  lemma MismatchNeedsDifference(d: Decision, r: Replay, q: Request, tenant: string)
    requires MismatchRules(d, r, q).Pass? && RecordsFit(q, tenant, d)
    ensures q.action.Some? && exists category :: Differs(d, q.action.value, category)
  {
    assert BindingMismatches(d, q) == {};
    var category :| category in ActionMismatches(d, q.action.value);
    DiffersExactlyWhen(d, q.action.value, category);
  }

  lemma FirstUseSettlesConditions(s: Drill, reference: Stamp, id: string, p: Payload, q: Request, to: State)
    requires id != ""
    requires Check(s, reference, Transition(id, FirstUseValidated, p, q)).Pass?
    ensures id in s.decisions
    ensures to.ExpiredDenied? || to.StaleDenied? || to.MismatchDenied? ==>
      !DenialCondition(s.decisions[id], reference, to, q)
    ensures to.BlockedMvpDenied? ==>
      (DenialCondition(s.decisions[id], reference, to, q) <==> s.decisions[id].environment == Text("blocked_mvp"))
  {
    FirstUseFacts(s, reference, id, p, q);
    ConditionsOfUsable(s.decisions[id], ActionInUse(q, p), reference, s.current[id].tenant, q, to);
  }

  lemma ConditionsOfUsable(d: Decision, a: Action, reference: Stamp, tenant: string, q: Request, to: State)
    requires ReplaySafe(d, a, reference, None).Pass?
    requires RequestFits(q, tenant, d)
    requires q.action.None? || q.action == Some(a)
    ensures to.ExpiredDenied? || to.StaleDenied? || to.MismatchDenied? ==> !DenialCondition(d, reference, to, q)
    ensures to.BlockedMvpDenied? ==>
      (DenialCondition(d, reference, to, q) <==> d.environment == Text("blocked_mvp"))
  {
    A.ReplaySafeExactlyWhen(d, a, reference, {});
    UsableIsTimely(d, reference);
    UsableIsBlockedOnlyByEnvironment(d, a);
    if q.action.Some? {
      forall category ensures !Differs(d, a, category) {
        UsableMatches(d, a, category);
      }
    }
  }

  /** If first use is accepted, then for the same decision, request and reference time the
      expired, stale and mismatch denials are refused whatever payload they carry, and the
      blocked-MVP denial is refused too unless the decision's environment is `blocked_mvp`. */
  lemma FirstUseExcludesDenial(s: Drill, reference: Stamp, id: string, p: Payload, q: Request, to: State, other: Payload)
    requires id != ""
    requires Check(s, reference, Transition(id, FirstUseValidated, p, q)).Pass?
    requires to.ExpiredDenied? || to.StaleDenied? || to.MismatchDenied? || to.BlockedMvpDenied?
    requires to.BlockedMvpDenied? ==> Stored(s, id).Some? && Stored(s, id).value.environment != Text("blocked_mvp")
    ensures Check(s, reference, Transition(id, to, other, q)).Fail?
  {
    FirstUseSettlesConditions(s, reference, id, p, q, to);
    if Check(s, reference, Transition(id, to, other, q)).Pass? {
      DenialNeedsItsCondition(s, reference, id, to, other, q);
    }
  }

  /** An accepted mismatch denial always rests on the requested action: by then a binding or a token that
      differs from the decision's has already been refused. */
  lemma MismatchRestsOnTheAction(s: Drill, reference: Stamp, id: string, p: Payload, q: Request)
    requires id != ""
    requires Check(s, reference, Transition(id, MismatchDenied, p, q)).Pass?
    ensures id in s.decisions && q.action.Some?
    ensures exists category :: Differs(s.decisions[id], q.action.value, category)
    ensures q.binding.Some? && IsName(s.decisions[id].approvalBindingId) ==>
      q.binding.value.bindingId == s.decisions[id].approvalBindingId
    ensures q.token.Some? && IsName(s.decisions[id].tokenVerificationId) ==>
      q.token.value.tokenVerificationId == s.decisions[id].tokenVerificationId
  {
    Accepted(s, reference, id, MismatchDenied, p, q);
    MismatchIsRegistered(s, reference, HeaderOf(id, p), p, q);
    DenialNeedsItsCondition(s, reference, id, MismatchDenied, p, q);
  }

  lemma MismatchIsRegistered(s: Drill, reference: Stamp, h: Header, p: Payload, q: Request)
    requires SpecificRules(s, h, MismatchDenied, p, q, reference).Pass?
    ensures h.id in s.decisions
  {
  }

  /** The one overlap, exactly: after an acceptable first use a well-formed blocked-MVP denial is
      also acceptable if and only if the decision's environment is `blocked_mvp`. */
  lemma BlockedMvpOverlap(s: Drill, reference: Stamp, id: string, p: Payload, q: Request, other: Payload)
    requires id != ""
    requires Check(s, reference, Transition(id, FirstUseValidated, p, q)).Pass?
    requires id in s.current && Denies(other, id, s.current[id], "blocked_mvp")
    ensures id in s.decisions
    ensures Check(s, reference, Transition(id, BlockedMvpDenied, other, q)).Pass?
            <==> s.decisions[id].environment == Text("blocked_mvp")
  {
    FirstUseSettlesConditions(s, reference, id, p, q, BlockedMvpDenied);
    FirstUseFacts(s, reference, id, p, q);
    Accepted(s, reference, id, FirstUseValidated, p, q);
    assert s.current[id].state == NonceReserved;
    BlockedDenialAccepted(s, reference, id, other, q);
  }

  lemma BlockedDenialAccepted(s: Drill, reference: Stamp, id: string, p: Payload, q: Request)
    requires id in s.current && id in s.decisions && s.current[id].state == NonceReserved
    requires Proper(id, s.current[id]) && RequestFits(q, s.current[id].tenant, s.decisions[id])
    requires Denies(p, id, s.current[id], "blocked_mvp")
    ensures Check(s, reference, Transition(id, BlockedMvpDenied, p, q)).Pass? <==> Barred(s.decisions[id])
  {
    ReplayIsNormal(p.replay, id, s.current[id]);
    DenialPayload(p.replay, BlockedMvpDenied);
    CommonExactlyWhen(p, s.current[id].tenant, BlockedMvpDenied, s.decisions[id], q);
    Decided(s, reference, id, BlockedMvpDenied, p, q);
    BackedExactlyWhen(p.replay);
    BarredExactlyWhen(s.decisions[id]);
  }

  const SAMPLE_DECISION := Decision(
    true, Text("guardian.decision"), Some(false), Some(false), Text("gd"), Text("gd"), Text("tenant"),
    Text("context"), Text("blocked_mvp"), Text("allow"), Text("nonce"), Text("one_time"), Text("unused"),
    Null, Null, Text("tool_invocation"), false, true, [Text("ev-1")], Null, Null, Null, Null, Null, Null,
    Null, Null, Null, NoScope, At(0), At(0), At(100), At(0), Missing, Missing)

  const SAMPLE_RESERVATION := StoreRecord(
    true, Text("replay.store.record"), Some(false), Some(false), "rr", Text("gd"), Text("tenant"), Null,
    Text("nonce"), Text("reserved"), Text("pending"), Null, Text("checked"), Null, Null, [],
    Text("action"), Null, Null, NoScope, Null, Null)

  const SAMPLE_REPLAY := Replay(
    true, Some(false), Some(false), Text("gd"), Text("tenant"), Text("context"), Text("nonce"), Null, Null,
    Null, Null, Text("form_review"), NoScope, Null, Text("valid_first_use"), [], Null, [], [Text("ev-1")])

  const SAMPLE_BLOCKED := SAMPLE_REPLAY.(
    checkResult := Text("blocked_mvp"), denialEvidenceRef := Text("ev-1"), preActionRefs := [Text("ev-1")])

  const SAMPLE_DOC := DecisionDoc(SAMPLE_DECISION)
  const SAMPLE_REGISTER := Register(SAMPLE_DOC, Planned, None)
  const SAMPLE_CONFIRM := Transition("gd", DecisionRegistered, SAMPLE_DOC, NO_REQUEST)
  const SAMPLE_RESERVE := Transition("gd", NonceReserved, StoreDoc(SAMPLE_RESERVATION), NO_REQUEST)
  const SAMPLE_CALLS := [SAMPLE_REGISTER, SAMPLE_CONFIRM, SAMPLE_RESERVE]

  predicate SampleAt(s: Drill, state: State) {
    && "gd" in s.current && "gd" in s.decisions && s.decisions["gd"] == SAMPLE_DECISION
    && s.current["gd"].tenant == "tenant" && s.current["gd"].nonce == "nonce" && s.current["gd"].state == state
    && s.consumed == {} && (state != NonceReserved ==> s.reserved == {})
  }

  lemma SampleRegisterAccepted()
    ensures SampleAt(Next(START, At(1), SAMPLE_REGISTER), Planned)
  {
  }

  lemma SampleConfirmAccepted(s: Drill)
    requires SampleAt(s, Planned)
    ensures SampleAt(Next(s, At(1), SAMPLE_CONFIRM), DecisionRegistered)
  {
  }

  lemma SampleReserveAccepted(s: Drill)
    requires SampleAt(s, DecisionRegistered)
    ensures SampleAt(Next(s, At(1), SAMPLE_RESERVE), NonceReserved)
  {
    var p := StoreDoc(SAMPLE_RESERVATION);
    assert Normalize(p, Some("gd")) == Good(Header("gd", "tenant", "nonce", ReplayStoreRecord));
    assert CommonRules(p, "tenant", NonceReserved, Stored(s, "gd"), NO_REQUEST).Pass?;
    Decided(s, At(1), "gd", NonceReserved, p, NO_REQUEST);
  }

  lemma SampleStanding()
    ensures Standing(SAMPLE_DECISION, ActionFromReplay(SAMPLE_REPLAY), Some({})).Pass?
  {
    SampleKinds();
  }

  lemma SampleUsable()
    ensures ReplaySafe(SAMPLE_DECISION, ActionFromReplay(SAMPLE_REPLAY), At(1), Some({})).Pass?
  {
    var a := ActionFromReplay(SAMPLE_REPLAY);
    SampleStanding();
    SampleMatches();
    assert TimeWindow(SAMPLE_DECISION, At(1)).Pass?;
    assert EvidencePresent(SAMPLE_DECISION.evidenceRefs, a).Pass? by {
      assert Elements([Text("ev-1")]) <= Elements(SAMPLE_DECISION.evidenceRefs);
    }
  }

  lemma SampleMatches()
    ensures Matches(SAMPLE_DECISION, ActionFromReplay(SAMPLE_REPLAY)).Pass?
  {
  }

  lemma SampleKinds()
    ensures !OneOf(Text("tool_invocation"), BLOCKED_ACTION_CLASSES) && !OneOf(Text("form_review"), BLOCKED_ACTION_TYPES)
    ensures OneOf(Text("allow"), ALLOWING_VERDICTS) && !OneOf(Text("unused"), REFUSED_REPLAY_STATUSES + {"consumed"})
  {
  }

  lemma SampleFirstUse(s: Drill)
    requires SampleAt(s, NonceReserved)
    ensures Check(s, At(1), Transition("gd", FirstUseValidated, ReplayDoc(SAMPLE_REPLAY), NO_REQUEST)).Pass?
  {
    var p := ReplayDoc(SAMPLE_REPLAY);
    SampleReplayIsCommon(Stored(s, "gd"));
    Decided(s, At(1), "gd", FirstUseValidated, p, NO_REQUEST);
    SampleFirstUseRules();
    assert TenantNonces(s.consumed, "tenant") == {};
  }

  lemma SampleReplayIsCommon(stored: Option<Decision>)
    ensures Normalize(ReplayDoc(SAMPLE_REPLAY), Some("gd")) == Good(Header("gd", "tenant", "nonce", GuardianReplay))
    ensures CommonRules(ReplayDoc(SAMPLE_REPLAY), "tenant", FirstUseValidated, stored, NO_REQUEST).Pass?
  {
  }

  lemma SampleFirstUseRules()
    ensures FirstUseRules(SAMPLE_DECISION, SAMPLE_REPLAY, NO_REQUEST, At(1), {}).Pass?
  {
    SampleUsable();
  }

  lemma SampleBlockedDenial(s: Drill)
    requires SampleAt(s, NonceReserved)
    ensures Check(s, At(1), Transition("gd", BlockedMvpDenied, ReplayDoc(SAMPLE_BLOCKED), NO_REQUEST)).Pass?
  {
    assert IsEvidenceRef(Text("ev-1"));
    assert DenialEvidencePresent(ReplayDoc(SAMPLE_BLOCKED)).Pass?;
    BlockedDenialAccepted(s, At(1), "gd", ReplayDoc(SAMPLE_BLOCKED), NO_REQUEST);
  }

  lemma RunOfThree(s: Drill, reference: Stamp, a: Call, b: Call, c: Call)
    ensures Run(s, reference, [a, b, c]) == Next(Next(Next(s, reference, a), reference, b), reference, c)
  {
    var s1 := Next(s, reference, a);
    var s2 := Next(s1, reference, b);
    assert [a, b, c][1..] == [b, c] && [b, c][1..] == [c];
    assert Run(s1, reference, [b, c]) == Run(s2, reference, [c]);
    assert Run(s2, reference, [c]) == Run(Next(s2, reference, c), reference, []);
  }

  /** The overlap is reachable: one decision can be both used and denied as blocked. */
  lemma BlockedMvpOverlapHappens()
    ensures var s := Run(START, At(1), SAMPLE_CALLS);
            && Check(s, At(1), Transition("gd", FirstUseValidated, ReplayDoc(SAMPLE_REPLAY), NO_REQUEST)).Pass?
            && Check(s, At(1), Transition("gd", BlockedMvpDenied, ReplayDoc(SAMPLE_BLOCKED), NO_REQUEST)).Pass?
  {
    var s1 := Next(START, At(1), SAMPLE_REGISTER);
    SampleRegisterAccepted();
    SampleConfirmAccepted(s1);
    var s2 := Next(s1, At(1), SAMPLE_CONFIRM);
    SampleReserveAccepted(s2);
    var s3 := Next(s2, At(1), SAMPLE_RESERVE);
    RunOfThree(START, At(1), SAMPLE_REGISTER, SAMPLE_CONFIRM, SAMPLE_RESERVE);
    SampleFirstUse(s3);
    SampleBlockedDenial(s3);
  }

  // ----- no nonce guard can stop the path to consumption ------------------------------------------

  predicate NonceGuard(e: Error) {
    e.NotRegistered? || e.DuplicateConsumption? || e.NotReserved? || e.NotConsumed? || e == Unusable(NonceSpent)
  }

  /** In a reachable state no call is ever refused by the guards for a missing decision, a nonce
      consumed twice, a nonce consumed without reservation, a replay denied without consumption,
      or a first use whose nonce is already spent. */
  lemma NonceGuardsNeverFire(reference: Stamp, calls: seq<Call>, c: Call)
    ensures var o := Check(Run(START, reference, calls), reference, c);
            o.Fail? ==> !NonceGuard(o.error)
  {
    RunKeepsValid(START, reference, calls);
    var s := Run(START, reference, calls);
    if c.Transition? && c.id in s.current {
      RecordsArePlaced(s, c.id);
    }
    GuardsPass(s, reference, c);
  }

  lemma CommonErrors(p: Payload, tenant: string, to: State, stored: Option<Decision>, q: Request)
    requires !p.OtherDoc?
    ensures var o := CommonRules(p, tenant, to, stored, q); o.Fail? ==> !NonceGuard(o.error)
  {
    PayloadErrors(p, to);
    RequestErrors(tenant, stored, q, to == MismatchDenied);
  }

  lemma PayloadErrors(p: Payload, to: State)
    requires !p.OtherDoc?
    ensures var o := PayloadValid(p, to); o.Fail? ==> !NonceGuard(o.error)
  {
  }

  lemma RequestErrors(tenant: string, stored: Option<Decision>, q: Request, mismatchAllowed: bool)
    ensures var o := RequestConsistent(tenant, stored, q, mismatchAllowed); o.Fail? ==> !NonceGuard(o.error)
  {
  }

  predicate TouchesNonces(to: State) {
    to.NonceReserved? || to.NonceConsumed? || to.ReplayDenied?
  }

  lemma NonceErrors(s: Drill, h: Header, to: State, p: Payload, q: Request, reference: Stamp)
    requires Placed(s, h.id) && h.tenant == s.current[h.id].tenant && h.nonce == s.current[h.id].nonce
    requires Allowed(s.current[h.id].state, to) && TouchesNonces(to)
    ensures var o := SpecificRules(s, h, to, p, q, reference); o.Fail? ==> !NonceGuard(o.error)
  {
  }

  lemma OtherErrors(s: Drill, h: Header, to: State, p: Payload, q: Request, reference: Stamp)
    requires h.id in s.decisions && !TouchesNonces(to) && !to.FirstUseValidated?
    ensures var o := SpecificRules(s, h, to, p, q, reference); o.Fail? ==> !NonceGuard(o.error)
  {
    var d := s.decisions[h.id];
    if p.ReplayDoc? {
      ReplayErrors(s, h, to, p.replay, q, reference);
    } else if p.StoreDoc? {
      FailClosedErrors(p.record);
    } else if p.DecisionDoc? {
      DecisionErrors(p.decision);
    }
  }

  lemma ReplayErrors(s: Drill, h: Header, to: State, r: Replay, q: Request, reference: Stamp)
    requires h.id in s.decisions && !TouchesNonces(to) && !to.FirstUseValidated?
    ensures var o := SpecificRules(s, h, to, ReplayDoc(r), q, reference); o.Fail? ==> !NonceGuard(o.error)
  {
    var d := s.decisions[h.id];
    match to
    case ExpiredDenied => DenialErrors(IsExpired(d, reference), r);
    case StaleDenied => DenialErrors(IsStale(d, reference), r);
    case MismatchDenied => MismatchErrors(d, r, q);
    case BlockedMvpDenied => DenialErrors(Need(IsBlockedMvp(d), NotBlocked), r);
    case _ => MisplacedReplay(s, h, to, r, q, reference);
  }

  lemma MisplacedReplay(s: Drill, h: Header, to: State, r: Replay, q: Request, reference: Stamp)
    requires h.id in s.decisions && !TouchesNonces(to) && !to.FirstUseValidated? && !IsDenial(to)
    ensures SpecificRules(s, h, to, ReplayDoc(r), q, reference) == Fail(ContractNotForState)
  {
  }

  lemma DenialErrors(condition: Outcome<Error>, r: Replay)
    requires condition.Fail? ==> !NonceGuard(condition.error)
    ensures var o := IfThenDenial(condition, r); o.Fail? ==> !NonceGuard(o.error)
  {
  }

  lemma FailClosedErrors(r: StoreRecord)
    ensures var o := FailClosedRules(r); o.Fail? ==> !NonceGuard(o.error)
  {
  }

  lemma DecisionErrors(d: Decision)
    ensures var o := DecisionPayloadValid(d); o.Fail? ==> !NonceGuard(o.error)
  {
  }

  lemma MismatchErrors(d: Decision, r: Replay, q: Request)
    ensures var o := MismatchRules(d, r, q); o.Fail? ==> !NonceGuard(o.error)
  {
  }

  lemma SpecificErrors(s: Drill, h: Header, to: State, p: Payload, q: Request, reference: Stamp)
    requires Placed(s, h.id) && h.tenant == s.current[h.id].tenant && h.nonce == s.current[h.id].nonce
    requires Allowed(s.current[h.id].state, to)
    ensures var o := SpecificRules(s, h, to, p, q, reference); o.Fail? ==> !NonceGuard(o.error)
  {
    if TouchesNonces(to) {
      NonceErrors(s, h, to, p, q, reference);
    } else if to.FirstUseValidated? {
      FirstUseSpecificErrors(s, h, p, q, reference);
    } else {
      OtherErrors(s, h, to, p, q, reference);
    }
  }

  lemma FirstUseSpecificErrors(s: Drill, h: Header, p: Payload, q: Request, reference: Stamp)
    requires Placed(s, h.id) && h.tenant == s.current[h.id].tenant && h.nonce == s.current[h.id].nonce
    requires s.current[h.id].state == NonceReserved
    ensures var o := SpecificRules(s, h, FirstUseValidated, p, q, reference); o.Fail? ==> !NonceGuard(o.error)
  {
    if p.ReplayDoc? {
      FirstUseErrors(s.decisions[h.id], p.replay, q, reference, TenantNonces(s.consumed, h.tenant));
    }
  }

  lemma UsabilityErrors(d: Decision, a: Action, reference: Stamp, consumed: set<string>)
    requires d.nonce.Text? ==> d.nonce.text !in consumed
    ensures ReplaySafe(d, a, reference, Some(consumed)) != Fail(NonceSpent)
  {
  }

  lemma FirstUseErrors(d: Decision, r: Replay, q: Request, reference: Stamp, consumed: set<string>)
    requires d.nonce.Text? ==> d.nonce.text !in consumed
    ensures var o := FirstUseRules(d, r, q, reference, consumed); o.Fail? ==> !NonceGuard(o.error)
  {
    UsabilityErrors(d, if q.action.Some? then q.action.value else ActionFromReplay(r), reference, consumed);
  }

  lemma RouteErrors(s: Drill, c: Call)
    requires c.Transition?
    ensures var o := RouteCheck(s, c); o.Fail? ==> !NonceGuard(o.error)
  {
  }

  lemma TransitionGuardsPass(s: Drill, reference: Stamp, c: Call)
    requires c.Transition? && RouteCheck(s, c).Pass? && c.id in s.current && Placed(s, c.id)
    ensures var o := TransitionCheck(s, reference, c); o.Fail? ==> !NonceGuard(o.error)
  {
    var h := Normalize(c.payload, Some(c.id)).header;
    CommonErrors(c.payload, h.tenant, c.to, Stored(s, h.id), c.request);
    SpecificErrors(s, h, c.to, c.payload, c.request, reference);
  }

  lemma RegisterGuardsPass(s: Drill, c: Call)
    requires c.Register?
    ensures var o := RegisterCheck(s, c); o.Fail? ==> !NonceGuard(o.error)
  {
    var n := Normalize(c.payload, c.expected);
    if n.Good? {
      CommonErrors(c.payload, n.header.tenant, c.initial, Stored(s, n.header.id), NO_REQUEST);
    }
  }

  lemma GuardsPass(s: Drill, reference: Stamp, c: Call)
    requires c.Transition? && c.id in s.current ==> Placed(s, c.id)
    ensures var o := Check(s, reference, c); o.Fail? ==> !NonceGuard(o.error)
  {
    if c.Register? {
      RegisterGuardsPass(s, c);
    } else {
      RouteErrors(s, c);
      if RouteCheck(s, c).Pass? {
        TransitionGuardsPass(s, reference, c);
      }
    }
  }

  function ConsumptionRecord(id: string, r: Record): StoreRecord {
    StoreRecord(true, Text("replay.store.record"), Some(false), Some(false), "rr", Text(id), Text(r.tenant),
                Null, Text(r.nonce), Text("consumed"), Text("committed"), Text("consumed"), Text("checked"),
                Null, Null, [], Text("action"), Null, Null, NoScope, Null, Null)
  }

  function ReplayDenialOf(id: string, r: Record): Replay {
    var ref := Text("ev-denied");
    Replay(true, Some(false), Some(false), Text(id), Text(r.tenant), Null, Text(r.nonce), Null, Null, Null, Null,
           Text("action"), NoScope, Null, Text("replay_denied"), [], ref, [ref], [ref])
  }

  lemma ConsumptionExactlyWhen(s: Drill, reference: Stamp, id: string, p: Payload, q: Request)
    requires Placed(s, id) && s.current[id].state == FirstUseValidated
    ensures Check(s, reference, Transition(id, NonceConsumed, p, q)).Pass? <==>
      Consumes(p, id, s.current[id]) && RequestFits(q, s.current[id].tenant, s.decisions[id])
  {
    AcceptedExactlyWhen(s, reference, id, NonceConsumed, p, q);
  }

  lemma ReplayDenialExactlyWhen(s: Drill, reference: Stamp, id: string, p: Payload, q: Request)
    requires Placed(s, id) && s.current[id].state == NonceConsumed
    ensures Check(s, reference, Transition(id, ReplayDenied, p, q)).Pass? <==>
      Denies(p, id, s.current[id], "replay_denied") && RequestFits(q, s.current[id].tenant, s.decisions[id])
  {
    AcceptedExactlyWhen(s, reference, id, ReplayDenied, p, q);
  }

  /** An accepted consumption leaves a state in which the decision is placed as before, but consumed. */
  lemma ConsumedIsPlaced(s: Drill, reference: Stamp, c: Call)
    requires Valid(s) && c.Transition? && c.id in s.current && c.id != "" && c.to == NonceConsumed
    requires Check(s, reference, c).Pass?
    ensures var t := Next(s, reference, c);
      && Placed(t, c.id) && t.decisions == s.decisions && t.current[c.id].state == NonceConsumed
      && t.current[c.id].tenant == s.current[c.id].tenant && t.current[c.id].nonce == s.current[c.id].nonce
  {
    AcceptedTransition(s, reference, c);
    ConsumedRecord(s, reference, c);
    NextKeepsValid(s, reference, c);
    RecordsArePlaced(Next(s, reference, c), c.id);
  }

  lemma SameDenials(p: Payload, id: string, held: Record, later: Record)
    requires later.tenant == held.tenant && later.nonce == held.nonce
    ensures Denies(p, id, held, "replay_denied") <==> Denies(p, id, later, "replay_denied")
  {
  }

  /** A first-use-validated decision of a reachable state can always be consumed and then replay-denied: every
      well-formed record is accepted, whatever the nonce sets hold, and only those are. */
  lemma FirstUseCanFinish(reference: Stamp, calls: seq<Call>, id: string, p: Payload, q: Request, denial: Payload, r: Request)
    requires var s := Run(START, reference, calls);
             id in s.current && s.current[id].state == FirstUseValidated
    ensures var s := Run(START, reference, calls);
            var consume := Transition(id, NonceConsumed, p, q);
            var t := Next(s, reference, consume);
            && id in s.decisions
            && (Check(s, reference, consume).Pass? <==>
                  Consumes(p, id, s.current[id]) && RequestFits(q, s.current[id].tenant, s.decisions[id]))
            && (Check(s, reference, consume).Pass? ==>
                  && id in t.current && t.current[id].state == NonceConsumed
                  && (Check(t, reference, Transition(id, ReplayDenied, denial, r)).Pass? <==>
                        && Denies(denial, id, s.current[id], "replay_denied")
                        && RequestFits(r, s.current[id].tenant, s.decisions[id])))
  {
    var s := Run(START, reference, calls);
    var consume := Transition(id, NonceConsumed, p, q);
    RunKeepsValid(START, reference, calls);
    RecordsArePlaced(s, id);
    ConsumptionExactlyWhen(s, reference, id, p, q);
    if Check(s, reference, consume).Pass? {
      var t := Next(s, reference, consume);
      ConsumedIsPlaced(s, reference, consume);
      ReplayDenialExactlyWhen(t, reference, id, denial, r);
      SameDenials(denial, id, s.current[id], t.current[id]);
    }
  }

  lemma ConsumedRecord(s: Drill, reference: Stamp, c: Call)
    requires c.Transition? && c.id in s.current && c.to == NonceConsumed && Check(s, reference, c).Pass?
    requires Normalize(c.payload, Some(c.id)).Good?
    requires Movable(s, c.id, Normalize(c.payload, Some(c.id)).header, c.to, c.payload)
    ensures var t := Next(s, reference, c);
      && t.decisions == s.decisions && c.id in t.current && t.current[c.id].state == NonceConsumed
      && t.current[c.id].tenant == s.current[c.id].tenant && t.current[c.id].nonce == s.current[c.id].nonce
  {
  }

  /** There are such records for every decision. */
  lemma FinishingRecordsExist(id: string, held: Record, d: Decision)
    ensures Consumes(StoreDoc(ConsumptionRecord(id, held)), id, held)
    ensures Denies(ReplayDoc(ReplayDenialOf(id, held)), id, held, "replay_denied")
    ensures RequestFits(NO_REQUEST, held.tenant, d)
  {
    var refs := [Text("ev-denied")];
    assert "ev-" <= "ev-denied";
    assert refs[0] in refs && AllRefs(refs);
  }
}
