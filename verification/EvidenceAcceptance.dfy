/** Which calls the evidence simulator accepts, in terms of the fields of the payload and of the records it holds. */
module EvidenceAcceptance {
  import opened Values
  import opened EvidenceLifecycle
  import opened EvidenceTheorems
  import N = Numerals

  // ----- references ------------------------------------------------------------------------------------

  /** Every reference in the list is evidence-shaped. */
  predicate Shaped(refs: seq<Value>) {
    forall v | v in refs :: v.Text? && "ev-" <= v.text
  }

  predicate AllShaped(p: Payload) {
    && (p.denialRef == Null || Shaped([p.denialRef]))
    && Shaped(p.preActionRefs) && Shaped(p.postActionRefs) && Shaped(p.parents) && Shaped(p.relatedRefs)
    && Shaped(p.evidenceRefs) && Shaped(p.includedRefs) && Shaped(p.excludedRefs) && Shaped(p.conflictRefs)
  }

  /** The references in the list that name a record of the simulator name one of the tenant's. */
  predicate Own(s: Sim, refs: seq<Value>, tenant: string) {
    forall v | v in refs && v.Text? && v.text in s.current :: s.current[v.text].tenant == tenant
  }

  predicate AllOwn(s: Sim, p: Payload, tenant: string) {
    && Own(s, [p.denialRef], tenant) && Own(s, p.preActionRefs, tenant) && Own(s, p.postActionRefs, tenant)
    && Own(s, p.parents, tenant) && Own(s, p.relatedRefs, tenant) && Own(s, p.evidenceRefs, tenant)
    && Own(s, p.includedRefs, tenant) && Own(s, p.excludedRefs, tenant) && Own(s, p.conflictRefs, tenant)
  }

  /** The reference names a record of the tenant's. */
  predicate Held(s: Sim, v: Value, tenant: string) {
    v.Text? && v.text in s.current && s.current[v.text].tenant == tenant
  }

  predicate AllHeld(s: Sim, refs: seq<Value>, tenant: string) {
    forall v | v in refs :: Held(s, v, tenant)
  }

  // ----- what the payload must show --------------------------------------------------------------------

  /** Nothing raw or secret, no export or deletion that has happened, well-formed references, none of them to another
      tenant's evidence. */
  predicate Admissible(s: Sim, p: Payload, tenant: string) {
    && p.rawContent != Some(true) && p.secretMaterial != Some(true) && !p.hasDeleteProof && !p.hasExportPackage
    && AllShaped(p) && AllOwn(s, p, tenant)
  }

  /** An artifact is explicitly without raw or secret content; from the second of a chain on it has parents and a
      predecessor; its parents are records of the tenant, except those of the very first artifact of all. */
  predicate ArtifactOk(s: Sim, p: Payload, tenant: string) {
    && p.rawContent == Some(false) && p.secretMaterial == Some(false)
    && p.linkageStatus != Text("mismatched_tenant")
    && (p.chainPosition >= 2 ==>
          && p.parents != [] && Truthy(p.previousId)
          && (p.previousId.Text? ==> Held(s, p.previousId, tenant)))
    && (p.chainPosition >= 2 || s.current != map[] ==> AllHeld(s, p.parents, tenant))
  }

  predicate LedgerEntryOk(s: Sim, p: Payload, tenant: string) {
    && p.linkageStatus != Text("mismatched_tenant")
    && Held(s, p.ledgerEvidenceId, tenant) && AllHeld(s, p.relatedRefs, tenant)
  }

  predicate ManifestOk(p: Payload, consistent: bool) {
    && consistent && p.linkageStatus != Text("mismatched_tenant")
    && p.exportStatus != Text("exported") && p.exportReviewStatus != Text("exported")
    && p.deleteReviewStatus != Text("approved")
  }

  /** A denial names its evidence and its pre-action evidence, all of it held for the tenant, and gives reasons. */
  predicate DenialOk(s: Sim, p: Payload, tenant: string) {
    && Held(s, p.denialRef, tenant) && AllHeld(s, p.preActionRefs, tenant)
    && (p.hasReasonCodes || p.hasLinkageReasons)
  }

  /** A failure gives a reason and names some evidence, all of it held for the tenant. */
  predicate FailureOk(s: Sim, p: Payload, tenant: string) {
    && (p.denialRef == Null || Held(s, p.denialRef, tenant)) && AllHeld(s, p.evidenceRefs, tenant)
    && (p.denialRef != Null || p.evidenceRefs != [])
    && (Truthy(p.failureReason) || p.hasReasonCodes)
  }

  /** The payload may move the record from one state to the other. */
  predicate MovesOk(s: Sim, p: Payload, tenant: string, from: State, to: State, linked: bool, consistent: bool) {
    match (from, to)
    case (Planned, PreActionRecorded) => p.contract == Some(Artifact) && ArtifactOk(s, p, tenant) && linked
    case (PreActionRecorded, PostActionRecorded) => p.contract == Some(Artifact) && ArtifactOk(s, p, tenant) && linked
    case (Planned, DenialRecorded) =>
      p.contract == Some(Artifact) && ArtifactOk(s, p, tenant) && DenialOk(s, p, tenant)
    case (Planned, ReplayDenialRecorded) =>
      p.contract == Some(Artifact) && ArtifactOk(s, p, tenant) && DenialOk(s, p, tenant)
    case (Planned, FailedClosedRecorded) => p.contract == Some(Failure) && FailureOk(s, p, tenant)
    case (PreActionRecorded, FailedClosedRecorded) => p.contract == Some(Failure) && FailureOk(s, p, tenant)
    case (Planned, Blocked) => Stops(s, p, tenant)
    case (Planned, Rejected) => Stops(s, p, tenant)
    case (PreActionRecorded, Blocked) => Stops(s, p, tenant)
    case (PreActionRecorded, Rejected) => Stops(s, p, tenant)
    case (PostActionRecorded, LedgerLinked) => p.contract == Some(LedgerEntry) && LedgerEntryOk(s, p, tenant)
    case (DenialRecorded, LedgerLinked) => p.contract == Some(LedgerEntry) && LedgerEntryOk(s, p, tenant)
    case (ReplayDenialRecorded, LedgerLinked) => p.contract == Some(LedgerEntry) && LedgerEntryOk(s, p, tenant)
    case (FailedClosedRecorded, LedgerLinked) => p.contract == Some(LedgerEntry) && LedgerEntryOk(s, p, tenant)
    case (LedgerLinked, ExportManifestPlanned) => p.contract == Some(ExportManifest) && ManifestOk(p, consistent)
    case _ => false
  }

  predicate Stops(s: Sim, p: Payload, tenant: string) {
    p.contract == Some(Failure) || (p.contract == Some(Artifact) && ArtifactOk(s, p, tenant))
  }

  // ----- the rules, part by part -----------------------------------------------------------------------

  predicate Each(refs: seq<Value>, ok: Value -> bool) {
    forall v | v in refs :: ok(v)
  }

  lemma EachOfTwo(a: seq<Value>, b: seq<Value>, ok: Value -> bool)
    ensures Each(a + b, ok) <==> Each(a, ok) && Each(b, ok)
  {
    if Each(a + b, ok) {
      forall v | v in a ensures ok(v) {
        assert v in a + b;
      }
      forall v | v in b ensures ok(v) {
        assert v in a + b;
      }
    }
  }

  /** What holds of every reference of a payload holds of those in each of its nine fields. */
  lemma EachField(p: Payload, ok: Value -> bool)
    ensures Each(AllRefs(p), ok) <==>
      && (p.denialRef == Null || ok(p.denialRef))
      && Each(p.preActionRefs, ok) && Each(p.postActionRefs, ok) && Each(p.parents, ok) && Each(p.relatedRefs, ok)
      && Each(p.evidenceRefs, ok) && Each(p.includedRefs, ok) && Each(p.excludedRefs, ok) && Each(p.conflictRefs, ok)
  {
    var r0 := if p.denialRef == Null then [] else [p.denialRef];
    assert Each(r0, ok) <==> p.denialRef == Null || ok(p.denialRef) by {
      assert p.denialRef != Null ==> p.denialRef in r0;
    }
    var r1 := r0 + p.preActionRefs;
    var r2 := r1 + p.postActionRefs;
    var r3 := r2 + p.parents;
    var r4 := r3 + p.relatedRefs;
    var r5 := r4 + p.evidenceRefs;
    var r6 := r5 + p.includedRefs;
    var r7 := r6 + p.excludedRefs;
    EachOfTwo(r0, p.preActionRefs, ok);
    EachOfTwo(r1, p.postActionRefs, ok);
    EachOfTwo(r2, p.parents, ok);
    EachOfTwo(r3, p.relatedRefs, ok);
    EachOfTwo(r4, p.evidenceRefs, ok);
    EachOfTwo(r5, p.includedRefs, ok);
    EachOfTwo(r6, p.excludedRefs, ok);
    EachOfTwo(r7, p.conflictRefs, ok);
    assert AllRefs(p) == r7 + p.conflictRefs;
  }

  lemma ShapedExactlyWhen(p: Payload)
    ensures (forall v | v in AllRefs(p) :: IsEvidenceRef(v)) <==> AllShaped(p)
  {
    var ok := (v: Value) => IsEvidenceRef(v);
    EachField(p, ok);
    assert Each(AllRefs(p), ok) <==> forall v | v in AllRefs(p) :: IsEvidenceRef(v);
    ShapedIsEach([p.denialRef], ok);
    ShapedIsEach(p.preActionRefs, ok);
    ShapedIsEach(p.postActionRefs, ok);
    ShapedIsEach(p.parents, ok);
    ShapedIsEach(p.relatedRefs, ok);
    ShapedIsEach(p.evidenceRefs, ok);
    ShapedIsEach(p.includedRefs, ok);
    ShapedIsEach(p.excludedRefs, ok);
    ShapedIsEach(p.conflictRefs, ok);
    assert Each([p.denialRef], ok) <==> ok(p.denialRef) by {
      assert p.denialRef in [p.denialRef];
    }
  }

  lemma ShapedIsEach(refs: seq<Value>, ok: Value -> bool)
    requires forall v :: ok(v) <==> IsEvidenceRef(v)
    ensures Shaped(refs) <==> Each(refs, ok)
  {
  }

  predicate OwnOne(s: Sim, v: Value, tenant: string) {
    v.Text? && v.text in s.current ==> s.current[v.text].tenant == tenant
  }

  lemma OwnExactlyWhen(s: Sim, p: Payload, tenant: string)
    requires Indexed(s)
    ensures NoCrossTenantRefs(s.tenantOf, p, tenant) <==> AllOwn(s, p, tenant)
  {
    var ok := (v: Value) => OwnOne(s, v, tenant);
    NoCrossTenantIsEach(s, p, tenant, ok);
    AllOwnIsEach(s, p, tenant, ok);
  }

  lemma AllOwnIsEach(s: Sim, p: Payload, tenant: string, ok: Value -> bool)
    requires forall v :: ok(v) <==> OwnOne(s, v, tenant)
    ensures AllOwn(s, p, tenant) <==> Each(AllRefs(p), ok)
  {
    EachField(p, ok);
    OwnDenialRef(s, p.denialRef, tenant);
    OwnIsEach(s, p.preActionRefs, tenant, ok);
    OwnIsEach(s, p.postActionRefs, tenant, ok);
    OwnIsEach(s, p.parents, tenant, ok);
    OwnIsEach(s, p.relatedRefs, tenant, ok);
    OwnIsEach(s, p.evidenceRefs, tenant, ok);
    OwnIsEach(s, p.includedRefs, tenant, ok);
    OwnIsEach(s, p.excludedRefs, tenant, ok);
    OwnIsEach(s, p.conflictRefs, tenant, ok);
  }

  lemma OwnDenialRef(s: Sim, v: Value, tenant: string)
    ensures Own(s, [v], tenant) <==> OwnOne(s, v, tenant)
  {
    assert v in [v];
  }

  lemma OwnIsEach(s: Sim, refs: seq<Value>, tenant: string, ok: Value -> bool)
    requires forall v :: ok(v) <==> OwnOne(s, v, tenant)
    ensures Own(s, refs, tenant) <==> Each(refs, ok)
  {
  }

  lemma NoCrossTenantIsEach(s: Sim, p: Payload, tenant: string, ok: Value -> bool)
    requires Indexed(s) && forall v :: ok(v) <==> OwnOne(s, v, tenant)
    ensures NoCrossTenantRefs(s.tenantOf, p, tenant) <==> Each(AllRefs(p), ok)
  {
  }

  /** Both indexes hold the records, each under its tenant. */
  ghost predicate Indexed(s: Sim) {
    && s.tenantOf == (map id | id in s.current :: s.current[id].tenant)
    && s.artifacts.Keys == s.current.Keys
    && (forall id | id in s.artifacts :: s.artifacts[id].tenant == Text(s.tenantOf[id]))
    && "" !in s.current && "" !in s.tenantOf.Values
  }

  lemma ReachedIsIndexed(s: Sim)
    requires Valid(s) && NamesNonEmpty(s)
    ensures Indexed(s)
  {
    forall id | id in s.current ensures id in s.history && id in s.tenantOf && id in s.artifacts && EvidenceKept(s, id) {
    }
  }

  lemma HeldExactlyWhen(s: Sim, v: Value, tenant: string)
    requires Indexed(s)
    ensures Known(s.tenantOf, v, tenant) <==> Held(s, v, tenant)
  {
  }

  lemma AllHeldExactlyWhen(s: Sim, refs: seq<Value>, tenant: string)
    requires Indexed(s)
    ensures AllKnown(s.tenantOf, refs, tenant) <==> AllHeld(s, refs, tenant)
  {
    forall v ensures Known(s.tenantOf, v, tenant) <==> Held(s, v, tenant) {
      HeldExactlyWhen(s, v, tenant);
    }
  }

  /** The chain check looks the parents up among the artifacts, which are the records. */
  lemma ChainExactlyWhen(s: Sim, p: Payload, tenant: string)
    requires Indexed(s) && p.tenant == Text(tenant)
    ensures ChainConsistent(s.artifacts, p) <==>
      && p.rawContent == Some(false) && p.secretMaterial == Some(false)
      && (p.chainPosition >= 2 ==> p.parents != [] && Truthy(p.previousId))
      && (s.current != map[] ==> AllHeld(s, p.parents, tenant))
  {
  }

  // ----- the rules of one payload ----------------------------------------------------------------------

  /** The rules about content and references that hold for every payload. */
  predicate PlainRules(s: Sim, p: Payload, tenant: string) {
    && p.rawContent != Some(true) && p.secretMaterial != Some(true) && !ClaimsRuntime(p)
    && (forall v | v in AllRefs(p) :: IsEvidenceRef(v)) && NoCrossTenantRefs(s.tenantOf, p, tenant)
  }

  predicate StateRules(p: Payload, to: State, linked: bool) {
    && (to.PreActionRecorded? || to.PostActionRecorded? ==> linked)
    && (to.DenialRecorded? || to.ReplayDenialRecorded? ==>
          (p.hasReasonCodes || p.hasLinkageReasons) && (Truthy(p.denialRef) || p.preActionRefs != []))
    && (to.FailedClosedRecorded? ==>
          (Truthy(p.failureReason) || p.hasReasonCodes) && (Truthy(p.denialRef) || p.evidenceRefs != []))
  }

  lemma RulesInParts(s: Sim, p: Payload, tenant: string, to: State, linked: bool, consistent: bool)
    ensures FailClosedRules(s.tenantOf, s.artifacts, p, tenant, to, linked, consistent).Pass? <==>
      && PlainRules(s, p, tenant) && RequiredRefsKnown(s.tenantOf, p, tenant, to)
      && ContractRules(s.artifacts, p, consistent).Pass? && StateRules(p, to, linked)
  {
  }

  lemma PlainExactlyWhen(s: Sim, p: Payload, tenant: string)
    requires Indexed(s)
    ensures PlainRules(s, p, tenant) <==> Admissible(s, p, tenant) && !ClaimsRuntime(p)
  {
    ShapedExactlyWhen(p);
    OwnExactlyWhen(s, p, tenant);
  }

  /** What is left for an artifact once content and references are in order. */
  lemma ArtifactRules(s: Sim, p: Payload, tenant: string, to: State, consistent: bool)
    requires Indexed(s) && p.tenant == Text(tenant) && p.contract == Some(Artifact)
    requires !to.DenialRecorded? && !to.ReplayDenialRecorded? && !to.FailedClosedRecorded?
    ensures RequiredRefsKnown(s.tenantOf, p, tenant, to) && ContractRules(s.artifacts, p, consistent).Pass?
      <==> ArtifactOk(s, p, tenant)
  {
    ChainExactlyWhen(s, p, tenant);
    HeldExactlyWhen(s, p.previousId, tenant);
    AllHeldExactlyWhen(s, p.parents, tenant);
    PreviousIsNamed(p);
  }

  lemma PreviousIsNamed(p: Payload)
    ensures Truthy(p.previousId) ==> (IsName(p.previousId) <==> p.previousId.Text?)
  {
  }

  lemma DenialRules(s: Sim, p: Payload, tenant: string, to: State, linked: bool, consistent: bool)
    requires Indexed(s) && p.tenant == Text(tenant) && p.contract == Some(Artifact)
    requires to.DenialRecorded? || to.ReplayDenialRecorded?
    ensures && RequiredRefsKnown(s.tenantOf, p, tenant, to) && ContractRules(s.artifacts, p, consistent).Pass?
            && StateRules(p, to, linked)
      <==> ArtifactOk(s, p, tenant) && DenialOk(s, p, tenant)
  {
    ArtifactRules(s, p, tenant, Planned, consistent);
    HeldExactlyWhen(s, p.denialRef, tenant);
    AllHeldExactlyWhen(s, p.preActionRefs, tenant);
    assert RequiredRefsKnown(s.tenantOf, p, tenant, to) <==>
      RequiredRefsKnown(s.tenantOf, p, tenant, Planned) && Held(s, p.denialRef, tenant) && AllHeld(s, p.preActionRefs, tenant);
    HeldIsTruthy(s, p.denialRef, tenant);
  }

  lemma HeldIsTruthy(s: Sim, v: Value, tenant: string)
    requires "" !in s.current
    ensures Held(s, v, tenant) ==> Truthy(v)
  {
  }

  lemma FailureRules(s: Sim, p: Payload, tenant: string, linked: bool, consistent: bool)
    requires Indexed(s) && p.contract == Some(Failure) && AllShaped(p)
    ensures && RequiredRefsKnown(s.tenantOf, p, tenant, FailedClosedRecorded)
            && ContractRules(s.artifacts, p, consistent).Pass? && StateRules(p, FailedClosedRecorded, linked)
      <==> FailureOk(s, p, tenant)
  {
    HeldExactlyWhen(s, p.denialRef, tenant);
    AllHeldExactlyWhen(s, p.evidenceRefs, tenant);
    ShapedIsNamed(p.denialRef);
  }

  lemma ShapedIsNamed(v: Value)
    ensures Shaped([v]) ==> IsName(v) && Truthy(v)
  {
    assert v in [v];
  }

  lemma StopRules(s: Sim, p: Payload, tenant: string, to: State, linked: bool, consistent: bool)
    requires Indexed(s) && p.tenant == Text(tenant) && (to.Blocked? || to.Rejected?) && p.contract.Some?
    ensures && Accepts(to, p.contract.value) && RequiredRefsKnown(s.tenantOf, p, tenant, to)
            && ContractRules(s.artifacts, p, consistent).Pass? && StateRules(p, to, linked)
      <==> Stops(s, p, tenant)
  {
    if p.contract == Some(Artifact) {
      ArtifactRules(s, p, tenant, to, consistent);
    }
  }

  lemma LedgerRules(s: Sim, p: Payload, tenant: string, linked: bool, consistent: bool)
    requires Indexed(s) && p.contract == Some(LedgerEntry)
    ensures && RequiredRefsKnown(s.tenantOf, p, tenant, LedgerLinked)
            && ContractRules(s.artifacts, p, consistent).Pass? && StateRules(p, LedgerLinked, linked)
      <==> LedgerEntryOk(s, p, tenant)
  {
    HeldExactlyWhen(s, p.ledgerEvidenceId, tenant);
    AllHeldExactlyWhen(s, p.relatedRefs, tenant);
  }

  lemma ManifestRules(s: Sim, p: Payload, tenant: string, linked: bool, consistent: bool)
    requires p.contract == Some(ExportManifest) && !p.hasDeleteProof && !p.hasExportPackage
    ensures && !ClaimsRuntime(p) && RequiredRefsKnown(s.tenantOf, p, tenant, ExportManifestPlanned)
            && ContractRules(s.artifacts, p, consistent).Pass? && StateRules(p, ExportManifestPlanned, linked)
      <==> ManifestOk(p, consistent)
  {
  }

  lemma DisallowedMove(s: Sim, p: Payload, tenant: string, from: State, to: State, linked: bool, consistent: bool)
    requires !Allowed(from, to)
    ensures !MovesOk(s, p, tenant, from, to, linked, consistent)
  {
  }

  lemma ClaimsOfOthers(p: Payload)
    requires p.contract != Some(ExportManifest) && !p.hasDeleteProof && !p.hasExportPackage
    ensures !ClaimsRuntime(p)
  {
  }

  /** For an allowed move of an admissible payload, contract and remaining rules come to the target's own condition. */
  lemma MovesInParts(s: Sim, p: Payload, tenant: string, from: State, to: State, linked: bool, consistent: bool)
    requires Indexed(s) && p.tenant == Text(tenant) && p.contract.Some?
    requires Allowed(from, to) && AllShaped(p) && !p.hasDeleteProof && !p.hasExportPackage
    ensures && Accepts(to, p.contract.value) && !ClaimsRuntime(p) && RequiredRefsKnown(s.tenantOf, p, tenant, to)
            && ContractRules(s.artifacts, p, consistent).Pass? && StateRules(p, to, linked)
      <==> MovesOk(s, p, tenant, from, to, linked, consistent)
  {
    if p.contract == Some(ExportManifest) {
      if to == ExportManifestPlanned {
        ManifestRules(s, p, tenant, linked, consistent);
      }
    } else {
      ClaimsOfOthers(p);
      match to
      case FailedClosedRecorded =>
        if p.contract == Some(Failure) { FailureRules(s, p, tenant, linked, consistent); }
      case LedgerLinked =>
        if p.contract == Some(LedgerEntry) { LedgerRules(s, p, tenant, linked, consistent); }
      case ExportManifestPlanned =>
      case Blocked => StopRules(s, p, tenant, to, linked, consistent);
      case Rejected => StopRules(s, p, tenant, to, linked, consistent);
      case _ => RecordedExactlyWhen(s, p, tenant, from, to, linked, consistent);
    }
  }

  /** The table, the contracts of the target and all rules together. */
  lemma MovesExactlyWhen(s: Sim, p: Payload, tenant: string, from: State, to: State, linked: bool, consistent: bool)
    requires Indexed(s) && p.tenant == Text(tenant) && p.contract.Some?
    ensures && Allowed(from, to) && Accepts(to, p.contract.value)
            && FailClosedRules(s.tenantOf, s.artifacts, p, tenant, to, linked, consistent).Pass?
      <==> Admissible(s, p, tenant) && MovesOk(s, p, tenant, from, to, linked, consistent)
  {
    RulesInParts(s, p, tenant, to, linked, consistent);
    PlainExactlyWhen(s, p, tenant);
    if !Allowed(from, to) {
      DisallowedMove(s, p, tenant, from, to, linked, consistent);
    } else if AllShaped(p) && !p.hasDeleteProof && !p.hasExportPackage {
      MovesInParts(s, p, tenant, from, to, linked, consistent);
    }
  }

  lemma RecordedExactlyWhen(s: Sim, p: Payload, tenant: string, from: State, to: State, linked: bool, consistent: bool)
    requires Indexed(s) && p.tenant == Text(tenant) && p.contract.Some? && Allowed(from, to)
    requires to.PreActionRecorded? || to.PostActionRecorded? || to.DenialRecorded? || to.ReplayDenialRecorded?
    ensures && Accepts(to, p.contract.value) && RequiredRefsKnown(s.tenantOf, p, tenant, to)
            && ContractRules(s.artifacts, p, consistent).Pass? && StateRules(p, to, linked)
      <==> MovesOk(s, p, tenant, from, to, linked, consistent)
  {
    if p.contract == Some(Artifact) {
      if to.DenialRecorded? || to.ReplayDenialRecorded? {
        DenialRules(s, p, tenant, to, linked, consistent);
      } else {
        ArtifactRules(s, p, tenant, to, consistent);
      }
    }
  }

  // ----- main results ----------------------------------------------------------------------------------

  /** The id a registration stores its payload under: its own, the expected one, or a counted one. */
  function IdFor(s: Sim, p: Payload, expected: string): string {
    if p.recordId != "" then p.recordId
    else if expected != "" then expected
    else "sim-evidence-" + N.Pad4(s.counter + 1)
  }

  lemma SameRules(s: Sim, p: Payload, id: string, tenant: string, from: State, to: State, linked: bool, consistent: bool)
    ensures Admissible(s, p.(recordId := id), tenant) <==> Admissible(s, p, tenant)
    ensures MovesOk(s, p.(recordId := id), tenant, from, to, linked, consistent)
      <==> MovesOk(s, p, tenant, from, to, linked, consistent)
    ensures ArtifactOk(s, p.(recordId := id), tenant) <==> ArtifactOk(s, p, tenant)
  {
  }

  /** In every reachable state a transition is accepted exactly when the record is known and the payload is valid, is
      this record's and its tenant's, is admissible, and shows what its target state asks for. */
  lemma TransitionAcceptedExactlyWhen(calls: seq<Call>, id: string, to: State, p: Payload, linked: bool, consistent: bool)
    ensures var s := Run(START, calls);
      Check(s, Transition(id, to, p, linked, consistent)).Pass? <==>
        && id in s.current && p.contract.Some? && p.schemaValid && (p.recordId == "" || p.recordId == id)
        && p.tenant == Text(s.current[id].tenant)
        && Admissible(s, p, s.current[id].tenant)
        && MovesOk(s, p, s.current[id].tenant, s.current[id].state, to, linked, consistent)
  {
    RunKeepsValid(START, calls);
    ReachedIsIndexed(Run(START, calls));
    TransitionExactlyWhen(Run(START, calls), id, to, p, linked, consistent);
  }

  lemma TransitionExactlyWhen(s: Sim, id: string, to: State, p: Payload, linked: bool, consistent: bool)
    requires Indexed(s)
    ensures Check(s, Transition(id, to, p, linked, consistent)).Pass? <==>
        && id in s.current && p.contract.Some? && p.schemaValid && (p.recordId == "" || p.recordId == id)
        && p.tenant == Text(s.current[id].tenant)
        && Admissible(s, p, s.current[id].tenant)
        && MovesOk(s, p, s.current[id].tenant, s.current[id].state, to, linked, consistent)
  {
    if Addresses(s, p, id) {
      assert s.tenantOf[id] in s.tenantOf.Values;
      TransitionRoute(s, id, to, p, linked, consistent);
      NormalizedMoves(s, id, to, p, linked, consistent);
    } else {
      StrayTransition(s, id, to, p, linked, consistent);
    }
  }

  /** The payload is of a supported contract and of the record and its tenant. */
  predicate Addresses(s: Sim, p: Payload, id: string) {
    && id in s.current && p.contract.Some? && (p.recordId == "" || p.recordId == id)
    && p.tenant == Text(s.current[id].tenant)
  }

  lemma StrayTransition(s: Sim, id: string, to: State, p: Payload, linked: bool, consistent: bool)
    requires !Addresses(s, p, id) && "" !in s.current
    ensures Check(s, Transition(id, to, p, linked, consistent)).Fail?
  {
  }

  lemma NormalizedMoves(s: Sim, id: string, to: State, p: Payload, linked: bool, consistent: bool)
    requires Indexed(s) && Addresses(s, p, id)
    ensures var q, tenant, from := Normalized(s.counter, p, id), s.current[id].tenant, s.current[id].state;
      && Allowed(from, to) && Accepts(to, p.contract.value)
      && FailClosedRules(s.tenantOf, s.artifacts, q, tenant, to, linked, consistent).Pass?
      <==> Admissible(s, p, tenant) && MovesOk(s, p, tenant, from, to, linked, consistent)
  {
    var q, tenant, from := Normalized(s.counter, p, id), s.current[id].tenant, s.current[id].state;
    assert q == p.(recordId := id);
    SameRules(s, p, id, tenant, from, to, linked, consistent);
    MovesExactlyWhen(s, q, tenant, from, to, linked, consistent);
  }

  lemma TransitionRoute(s: Sim, id: string, to: State, p: Payload, linked: bool, consistent: bool)
    requires id in s.current && id != "" && s.current[id].tenant != "" && p.contract.Some?
    requires (p.recordId == "" || p.recordId == id) && p.tenant == Text(s.current[id].tenant)
    ensures var q := Normalized(s.counter, p, id);
      Check(s, Transition(id, to, p, linked, consistent)).Pass? <==>
        && p.schemaValid && Allowed(s.current[id].state, to) && Accepts(to, p.contract.value)
        && FailClosedRules(s.tenantOf, s.artifacts, q, s.current[id].tenant, to, linked, consistent).Pass?
  {
  }

  /** A registration is accepted exactly when it hands in, as planned, a valid artifact of some tenant under an id that
      is not taken, admissible and fit for its chain. */
  lemma RegistrationAcceptedExactlyWhen(calls: seq<Call>, p: Payload, initial: State, expected: string)
    ensures var s := Run(START, calls);
      Check(s, Register(p, initial, expected)).Pass? <==>
        && initial == Planned && p.contract == Some(Artifact) && p.schemaValid
        && p.tenant.Text? && p.tenant.text != "" && IdFor(s, p, expected) !in s.current
        && Admissible(s, p, p.tenant.text) && ArtifactOk(s, p, p.tenant.text)
  {
    RunKeepsValid(START, calls);
    ReachedIsIndexed(Run(START, calls));
    RegistrationExactlyWhen(Run(START, calls), p, initial, expected);
  }

  lemma RegistrationExactlyWhen(s: Sim, p: Payload, initial: State, expected: string)
    requires Indexed(s)
    ensures Check(s, Register(p, initial, expected)).Pass? <==>
        && initial == Planned && p.contract == Some(Artifact) && p.schemaValid
        && p.tenant.Text? && p.tenant.text != "" && IdFor(s, p, expected) !in s.current
        && Admissible(s, p, p.tenant.text) && ArtifactOk(s, p, p.tenant.text)
  {
    if p.contract == Some(Artifact) && p.tenant.Text? && initial == Planned {
      var tenant, id := p.tenant.text, IdFor(s, p, expected);
      var q := Normalized(s.counter, p, expected);
      assert q == p.(recordId := id);
      SameRules(s, p, id, tenant, Planned, Planned, false, true);
      PlainExactlyWhen(s, q, tenant);
      ArtifactRules(s, q, tenant, Planned, true);
      RulesInParts(s, q, tenant, Planned, false, true);
      RegistrationRoute(s, p, expected);
    }
  }

  lemma RegistrationRoute(s: Sim, p: Payload, expected: string)
    requires p.contract == Some(Artifact) && p.tenant.Text?
    ensures var q := Normalized(s.counter, p, expected);
      Check(s, Register(p, Planned, expected)).Pass? <==>
        && p.schemaValid && p.tenant.text != "" && q.recordId !in s.current
        && FailClosedRules(s.tenantOf, s.artifacts, q, p.tenant.text, Planned, false, true).Pass?
  {
  }

  /** Whatever call a reachable state accepts, every reference of its payload, in each of the nine reference fields,
      that names a record names one of the payload's own tenant. */
  lemma ReferencesStayInTenant(calls: seq<Call>, c: Call, v: Value)
    requires Check(Run(START, calls), c).Pass?
    requires var p := c.payload;
      || v == p.denialRef || v in p.preActionRefs || v in p.postActionRefs || v in p.parents || v in p.relatedRefs
      || v in p.evidenceRefs || v in p.includedRefs || v in p.excludedRefs || v in p.conflictRefs
    ensures var s := Run(START, calls);
      v.Text? && v.text in s.current ==> c.payload.tenant == Text(s.current[v.text].tenant)
    ensures v != Null ==> v.Text? && "ev-" <= v.text
  {
    if c.Register? {
      RegistrationAcceptedExactlyWhen(calls, c.payload, c.initial, c.expected);
    } else {
      TransitionAcceptedExactlyWhen(calls, c.id, c.to, c.payload, c.linked, c.manifestOk);
    }
    var s := Run(START, calls);
    assert v in [v];
    assert Admissible(s, c.payload, c.payload.tenant.text);
  }
}
