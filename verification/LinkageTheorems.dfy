/** What a verdict of the linkage validator means, for one chain and over a run of calls. */
module LinkageTheorems {
  import opened Values
  import opened Linkage

  // ----- one call ------------------------------------------------------------------------------------

  /** The boundary does not claim another end than the event: committed after a failure or a rollback, or failed after
      a commit. */
  predicate Settles(e: Event, b: Boundary) {
    && (b.status == Text("committed") ==>
          e.eventType != Text("transaction_failed_closed") && e.eventType != Text("transaction_rolled_back"))
    && (b.status == Text("failed_closed") ==> e.eventType != Text("transaction_committed"))
  }

  ghost predicate SoundCore(e: Event, b: Boundary, y: Replay, expectedNonce: Value) {
    && Agrees(e.env, e.env, false) && Agrees(b.env, e.env, false) && Agrees(y.env, e.env, false)
    && SoundLinks(e, b, y) && SoundReplay(y, expectedNonce) && Settles(e, b)
  }

  predicate SoundLinks(e: Event, b: Boundary, y: Replay) {
    && e.transaction == b.transaction && AbsentOr(y.transaction, b.transaction)
    && e.id in b.events && e.id in y.events && y.id in b.replays && y.id in e.replays
  }

  predicate SoundReplay(y: Replay, expectedNonce: Value) {
    && (expectedNonce == Null || y.nonce == expectedNonce) && AbsentOr(y.canonicalNonce, y.nonce)
    && AbsentOr(y.canonicalActionType, y.actionType) && AbsentOr(y.canonicalToolScope, y.toolScope)
  }

  ghost predicate SoundEntry(c: Chain, entry: Entry) {
    && Agrees(entry.env, c.event.env, false)
    && AbsentOr(entry.transaction, c.boundary.transaction)
    && c.replay.id in entry.replays && c.event.id in entry.events
    && (forall p | p in entry.parents :: exists n :: 0 <= n < |c.ledger| && c.ledger[n].id == p)
    && (forall a | a in entry.artifacts :: Known(c.artifacts, a))
  }

  ghost predicate SoundArtifact(c: Chain, id: string, a: Artifact) {
    && Agrees(a.env, c.event.env, true)
    && a.noRawContent && a.noSecrets && a.id == Text(id) && !Unledgered(c, a)
  }

  ghost predicate SoundManifest(c: Chain, m: Manifest) {
    && Agrees(m.env, c.event.env, false) && m.status != Text("denied") && m.status != Text("blocked_mvp")
    && (forall x | x in m.included :: x in m.refs && x !in m.excluded)
    && (forall x | x in Mentioned(m) :: SoundRef(c, x))
  }

  predicate SoundRef(c: Chain, x: Value) {
    && Known(c.artifacts, x) && c.artifacts[x.text].env.tenant == c.event.env.tenant
    && AbsentOr(c.artifacts[x.text].env.context, c.event.env.context)
  }

  ghost predicate SoundDecision(c: Chain, d: Decision) {
    && Agrees(d.env, c.event.env, true)
    && (Truthy(c.replay.nonce) ==> AbsentOr(d.nonce, c.replay.nonce))
    && AbsentOr(d.actionType, c.replay.actionType) && AbsentOr(d.toolScope, c.replay.toolScope)
    && (Truthy(c.replay.bindingId) ==> AbsentOr(d.bindingId, c.replay.bindingId))
  }

  ghost predicate SoundBinding(c: Chain, b: Binding) {
    && Agrees(b.env, c.event.env, true)
    && (Truthy(c.replay.bindingId) ==> AbsentOr(b.id, c.replay.bindingId))
    && (Truthy(c.replay.actionType) ==> AbsentOr(b.actionType, c.replay.actionType))
    && (Truthy(c.replay.toolScope) ==> AbsentOr(b.toolScope, c.replay.toolScope))
  }

  /** The index does not bind the event's key to another transaction. */
  predicate Free(index: Index, e: Event) {
    Keyed(e) && (KeyOf(e) in index ==> index[KeyOf(e)] == e.transaction.text)
  }

  ghost predicate Sound(c: Chain, index: Index) {
    && Free(index, c.event)
    && SoundCore(c.event, c.boundary, c.replay, c.expectedNonce)
    && (forall n | 0 <= n < |c.ledger| :: SoundEntry(c, c.ledger[n]))
    && (forall id | id in c.artifacts :: SoundArtifact(c, id, c.artifacts[id]))
    && (c.manifest.Some? ==> SoundManifest(c, c.manifest.value))
    && (c.decision.Some? ==> SoundDecision(c, c.decision.value))
    && (c.binding.Some? ==> SoundBinding(c, c.binding.value))
  }

  lemma EnvelopeIsSilent(part: Part, env: Envelope, event: Envelope, mayOmit: bool)
    ensures Agrees(env, event, mayOmit) <==> forall r :: !EnvelopeShows(part, env, event, mayOmit, r)
  {
    if !Agrees(env, event, mayOmit) {
      assert EnvelopeShows(part, env, event, mayOmit, TenantMismatch(part))
        || EnvelopeShows(part, env, event, mayOmit, ContextMismatch(part))
        || EnvelopeShows(part, env, event, mayOmit, CorrelationMismatch(part))
        || EnvelopeShows(part, env, event, mayOmit, IdempotencyMismatch(part))
        || EnvelopeShows(part, env, event, mayOmit, CanonicalTenantMismatch(part))
        || EnvelopeShows(part, env, event, mayOmit, CanonicalCorrelationMismatch(part))
        || EnvelopeShows(part, env, event, mayOmit, CanonicalIdempotencyMismatch(part));
    }
  }

  lemma IndexIsSilent(e: Event, index: Index)
    ensures Free(index, e) <==> forall r :: !IndexShows(e, index, r)
  {
    if !Free(index, e) {
      assert IndexShows(e, index, InvalidIdempotencyContext) || IndexShows(e, index, DuplicateIdempotencyKey);
    }
  }

  lemma UnsoundCoreShows(e: Event, b: Boundary, y: Replay, expectedNonce: Value) returns (r: Reason)
    requires !(SoundLinks(e, b, y) && SoundReplay(y, expectedNonce) && Settles(e, b))
    ensures CoreShows(e, b, y, expectedNonce, r)
  {
    r := if e.transaction != b.transaction then CoordinatorTransactionMismatch
    else if e.id !in b.events then BoundaryEventMissing
    else if !AbsentOr(y.transaction, b.transaction) then ReplayTransactionMismatch
    else if y.id !in b.replays then BoundaryReplayMissing
    else if y.id !in e.replays then CoordinatorReplayMissing
    else if e.id !in y.events then ReplayEventMissing
    else if expectedNonce != Null && y.nonce != expectedNonce then ReplayNonceMismatch
    else if !AbsentOr(y.canonicalNonce, y.nonce) then ReplayCanonicalNonceMismatch
    else if !AbsentOr(y.canonicalActionType, y.actionType) then ReplayActionTypeMismatch
    else if !AbsentOr(y.canonicalToolScope, y.toolScope) then ReplayToolScopeMismatch
    else TerminalStateDrift;
  }

  lemma CoreIsSilent(e: Event, b: Boundary, y: Replay, expectedNonce: Value)
    ensures SoundLinks(e, b, y) && SoundReplay(y, expectedNonce) && Settles(e, b)
      <==> forall r :: !CoreShows(e, b, y, expectedNonce, r)
  {
    if !(SoundLinks(e, b, y) && SoundReplay(y, expectedNonce) && Settles(e, b)) {
      var r := UnsoundCoreShows(e, b, y, expectedNonce);
    }
  }

  lemma EntryIsSilent(c: Chain, entry: Entry)
    ensures SoundEntry(c, entry) <==> forall r :: !EntryShows(c, entry, r)
  {
    EnvelopeIsSilent(OfLedger, entry.env, c.event.env, false);
    if forall r :: !EntryShows(c, entry, r) {
      assert !EntryShows(c, entry, LedgerTransactionMismatch);
      assert !EntryShows(c, entry, LedgerReplayMissing);
      assert !EntryShows(c, entry, LedgerEventMissing);
      assert !EntryShows(c, entry, LedgerParentMissing);
      assert !EntryShows(c, entry, LedgerArtifactMissing);
      forall r ensures !EnvelopeShows(OfLedger, entry.env, c.event.env, false, r) {
        assert !EntryShows(c, entry, r);
      }
    }
  }

  lemma ArtifactIsSilent(c: Chain, id: string, a: Artifact)
    ensures SoundArtifact(c, id, a) <==> forall r :: !ArtifactShows(c, id, a, r)
  {
    EnvelopeIsSilent(OfArtifact, a.env, c.event.env, true);
    if forall r :: !ArtifactShows(c, id, a, r) {
      assert !ArtifactShows(c, id, a, ArtifactRawContent);
      assert !ArtifactShows(c, id, a, ArtifactSecretMaterial);
      assert !ArtifactShows(c, id, a, ArtifactIdMismatch);
      assert !ArtifactShows(c, id, a, ArtifactLedgerMissing);
      forall r ensures !EnvelopeShows(OfArtifact, a.env, c.event.env, true, r) {
        assert !ArtifactShows(c, id, a, r);
      }
    }
  }

  lemma RefIsSilent(c: Chain, x: Value)
    ensures SoundRef(c, x) <==> forall r :: !RefShows(c, x, r)
  {
    if !SoundRef(c, x) {
      assert RefShows(c, x, ManifestUnknownRef) || RefShows(c, x, ManifestCrossTenant) || RefShows(c, x, ManifestCrossContext);
    }
  }

  lemma UnsoundManifestShows(c: Chain, m: Manifest) returns (r: Reason)
    requires !SoundManifest(c, m)
    ensures ManifestShows(c, m, r)
  {
    EnvelopeIsSilent(OfManifest, m.env, c.event.env, false);
    if !Agrees(m.env, c.event.env, false) {
      r :| EnvelopeShows(OfManifest, m.env, c.event.env, false, r);
    } else if Withheld(m) {
      r := if m.deleteConflicts then ManifestDeleteConflict else ManifestMissingDeleteConflict;
    } else if x :| x in Mentioned(m) && !SoundRef(c, x) {
      RefIsSilent(c, x);
      r :| RefShows(c, x, r);
    } else {
      var x :| x in m.included && (x !in m.refs || x in m.excluded);
      r := if x !in m.refs then ManifestIncludedNonRef else ManifestOverlap;
    }
  }

  lemma SoundManifestIsSilent(c: Chain, m: Manifest, r: Reason)
    requires SoundManifest(c, m)
    ensures !ManifestShows(c, m, r)
  {
    SoundEnvelopeIsSilent(OfManifest, m.env, c.event.env, false, r);
    forall x | x in Mentioned(m) ensures !RefShows(c, x, r) {
      RefIsSilent(c, x);
    }
  }

  lemma SoundEnvelopeIsSilent(part: Part, env: Envelope, event: Envelope, mayOmit: bool, r: Reason)
    requires Agrees(env, event, mayOmit)
    ensures !EnvelopeShows(part, env, event, mayOmit, r)
  {
  }

  lemma UnsoundDecisionShows(c: Chain, d: Decision) returns (r: Reason)
    requires !SoundDecision(c, d)
    ensures DecisionShows(c, d, r)
  {
    if !Agrees(d.env, c.event.env, true) {
      EnvelopeIsSilent(OfDecision, d.env, c.event.env, true);
      r :| EnvelopeShows(OfDecision, d.env, c.event.env, true, r);
    } else {
      r := if !AbsentOr(d.actionType, c.replay.actionType) then GuardianActionTypeMismatch
      else if !AbsentOr(d.toolScope, c.replay.toolScope) then GuardianToolScopeMismatch
      else if Truthy(c.replay.nonce) && !AbsentOr(d.nonce, c.replay.nonce) then GuardianNonceMismatch
      else GuardianBindingMismatch;
    }
  }

  lemma SoundDecisionIsSilent(c: Chain, d: Decision, r: Reason)
    requires SoundDecision(c, d)
    ensures !DecisionShows(c, d, r)
  {
    SoundEnvelopeIsSilent(OfDecision, d.env, c.event.env, true, r);
  }

  lemma BindingIsSilent(c: Chain, b: Binding)
    ensures SoundBinding(c, b) <==> forall r :: !BindingShows(c, b, r)
  {
    EnvelopeIsSilent(OfBinding, b.env, c.event.env, true);
    if forall r :: !BindingShows(c, b, r) {
      assert !BindingShows(c, b, BindingIdMismatch);
      assert !BindingShows(c, b, BindingActionTypeMismatch);
      assert !BindingShows(c, b, BindingToolScopeMismatch);
      forall r ensures !EnvelopeShows(OfBinding, b.env, c.event.env, true, r) {
        assert !BindingShows(c, b, r);
      }
    }
  }

  lemma SoundLedgerIsSilent(c: Chain, r: Reason)
    requires forall n | 0 <= n < |c.ledger| :: SoundEntry(c, c.ledger[n])
    ensures !LedgerShows(c, r)
  {
    forall n | 0 <= n < |c.ledger| ensures !EntryShows(c, c.ledger[n], r) {
      EntryIsSilent(c, c.ledger[n]);
    }
  }

  lemma SoundArtifactsAreSilent(c: Chain, r: Reason)
    requires forall id | id in c.artifacts :: SoundArtifact(c, id, c.artifacts[id])
    ensures !ArtifactsShow(c, r)
  {
    forall id | id in c.artifacts ensures !ArtifactShows(c, id, c.artifacts[id], r) {
      ArtifactIsSilent(c, id, c.artifacts[id]);
    }
  }

  lemma SoundOptionsAreSilent(c: Chain, r: Reason)
    requires c.manifest.Some? ==> SoundManifest(c, c.manifest.value)
    requires c.decision.Some? ==> SoundDecision(c, c.decision.value)
    requires c.binding.Some? ==> SoundBinding(c, c.binding.value)
    ensures !OptionalShow(c, r)
  {
    if c.manifest.Some? {
      SoundManifestIsSilent(c, c.manifest.value, r);
    }
    if c.decision.Some? {
      SoundDecisionIsSilent(c, c.decision.value, r);
    }
    if c.binding.Some? {
      BindingIsSilent(c, c.binding.value);
    }
  }

  lemma SoundIsSilent(c: Chain, index: Index, r: Reason)
    requires Sound(c, index)
    ensures !Shows(c, index, r)
  {
    if Shows(c, index, r) {
      if IndexShows(c.event, index, r) {
        IndexIsSilent(c.event, index);
      } else if FixedShow(c, r) {
        SoundCoreIsSilent(c, r);
      } else if OptionalShow(c, r) {
        SoundOptionsAreSilent(c, r);
      } else {
        SoundLedgerIsSilent(c, r);
        SoundArtifactsAreSilent(c, r);
      }
    }
  }

  lemma SoundCoreIsSilent(c: Chain, r: Reason)
    requires SoundCore(c.event, c.boundary, c.replay, c.expectedNonce)
    ensures !FixedShow(c, r)
  {
    EnvelopeIsSilent(OfEvent, c.event.env, c.event.env, false);
    EnvelopeIsSilent(OfBoundary, c.boundary.env, c.event.env, false);
    EnvelopeIsSilent(OfReplay, c.replay.env, c.event.env, false);
    CoreIsSilent(c.event, c.boundary, c.replay, c.expectedNonce);
  }

  lemma UnsoundShows(c: Chain, index: Index) returns (r: Reason)
    requires !Sound(c, index)
    ensures Shows(c, index, r)
  {
    if !Free(index, c.event) {
      IndexIsSilent(c.event, index);
      r :| IndexShows(c.event, index, r);
    } else if !SoundCore(c.event, c.boundary, c.replay, c.expectedNonce) {
      r := UnsoundCoreOrEnvelopeShows(c);
    } else if n :| 0 <= n < |c.ledger| && !SoundEntry(c, c.ledger[n]) {
      EntryIsSilent(c, c.ledger[n]);
      r :| EntryShows(c, c.ledger[n], r);
    } else if id :| id in c.artifacts && !SoundArtifact(c, id, c.artifacts[id]) {
      ArtifactIsSilent(c, id, c.artifacts[id]);
      r :| ArtifactShows(c, id, c.artifacts[id], r);
    } else if c.manifest.Some? && !SoundManifest(c, c.manifest.value) {
      r := UnsoundManifestShows(c, c.manifest.value);
    } else if c.decision.Some? && !SoundDecision(c, c.decision.value) {
      r := UnsoundDecisionShows(c, c.decision.value);
    } else {
      BindingIsSilent(c, c.binding.value);
      r :| BindingShows(c, c.binding.value, r);
    }
  }

  lemma UnsoundCoreOrEnvelopeShows(c: Chain) returns (r: Reason)
    requires !SoundCore(c.event, c.boundary, c.replay, c.expectedNonce)
    ensures FixedShow(c, r)
  {
    var event := c.event.env;
    if !Agrees(event, event, false) {
      EnvelopeIsSilent(OfEvent, event, event, false);
      r :| EnvelopeShows(OfEvent, event, event, false, r);
    } else if !Agrees(c.boundary.env, event, false) {
      EnvelopeIsSilent(OfBoundary, c.boundary.env, event, false);
      r :| EnvelopeShows(OfBoundary, c.boundary.env, event, false, r);
    } else if !Agrees(c.replay.env, event, false) {
      EnvelopeIsSilent(OfReplay, c.replay.env, event, false);
      r :| EnvelopeShows(OfReplay, c.replay.env, event, false, r);
    } else {
      r := UnsoundCoreShows(c.event, c.boundary, c.replay, c.expectedNonce);
    }
  }

  /** A chain is linked exactly when every record supplied agrees with the event, every reference resolves
      inside the tenant, nothing is withheld, and the index does not bind the key to another transaction. */
  lemma LinkedExactlyWhen(c: Chain, index: Index, status: Status, reasons: set<Reason>)
    requires Verdict(c, index, status, reasons)
    ensures status == Linked <==> Sound(c, index)
  {
    if Sound(c, index) {
      forall r ensures r !in reasons {
        SoundIsSilent(c, index, r);
      }
      assert reasons == {};
    } else {
      var r := UnsoundShows(c, index);
      assert r in reasons;
    }
  }

  lemma LinkedIsFree(c: Chain, index: Index, status: Status, reasons: set<Reason>)
    requires Verdict(c, index, status, reasons) && status == Linked
    ensures Free(index, c.event)
  {
    LinkedExactlyWhen(c, index, status, reasons);
  }

  /** Some record names another tenant than the event, or a canonical tenant other than its own. */
  ghost predicate TenantsDiffer(c: Chain) {
    || StrayTenant(c.event.env, c.event.env, false) || StrayTenant(c.boundary.env, c.event.env, false)
    || StrayTenant(c.replay.env, c.event.env, false)
    || (exists n :: 0 <= n < |c.ledger| && StrayTenant(c.ledger[n].env, c.event.env, false))
    || (exists id :: id in c.artifacts && StrayTenant(c.artifacts[id].env, c.event.env, true))
    || (c.manifest.Some? && StrayTenant(c.manifest.value.env, c.event.env, false))
    || (c.decision.Some? && StrayTenant(c.decision.value.env, c.event.env, true))
    || (c.binding.Some? && StrayTenant(c.binding.value.env, c.event.env, true))
  }

  predicate StrayTenant(env: Envelope, event: Envelope, mayOmit: bool) {
    env.tenant != event.tenant || !CopyAgrees(env.canonicalTenant, env.tenant, mayOmit)
  }

  lemma StrayTenantShows(c: Chain, index: Index) returns (r: Reason)
    requires TenantsDiffer(c)
    ensures Shows(c, index, r) && IsTenant(r)
  {
    if StrayTenant(c.event.env, c.event.env, false) {
      r := CanonicalTenantMismatch(OfEvent);
    } else if StrayTenant(c.boundary.env, c.event.env, false) {
      r := TenantReason(OfBoundary, c.boundary.env, c.event.env);
    } else if StrayTenant(c.replay.env, c.event.env, false) {
      r := TenantReason(OfReplay, c.replay.env, c.event.env);
    } else if n :| 0 <= n < |c.ledger| && StrayTenant(c.ledger[n].env, c.event.env, false) {
      r := TenantReason(OfLedger, c.ledger[n].env, c.event.env);
      assert EntryShows(c, c.ledger[n], r);
    } else if id :| id in c.artifacts && StrayTenant(c.artifacts[id].env, c.event.env, true) {
      r := TenantReason(OfArtifact, c.artifacts[id].env, c.event.env);
      assert ArtifactShows(c, id, c.artifacts[id], r);
    } else if c.manifest.Some? && StrayTenant(c.manifest.value.env, c.event.env, false) {
      r := TenantReason(OfManifest, c.manifest.value.env, c.event.env);
    } else if c.decision.Some? && StrayTenant(c.decision.value.env, c.event.env, true) {
      r := TenantReason(OfDecision, c.decision.value.env, c.event.env);
    } else {
      r := TenantReason(OfBinding, c.binding.value.env, c.event.env);
    }
  }

  function TenantReason(part: Part, env: Envelope, event: Envelope): Reason {
    if env.tenant != event.tenant then TenantMismatch(part) else CanonicalTenantMismatch(part)
  }

  lemma TenantReasonStrays(c: Chain, index: Index, r: Reason)
    requires Shows(c, index, r) && IsTenant(r)
    ensures TenantsDiffer(c)
  {
    if LedgerShows(c, r) {
      var n :| 0 <= n < |c.ledger| && EntryShows(c, c.ledger[n], r);
      assert StrayTenant(c.ledger[n].env, c.event.env, false);
    } else if ArtifactsShow(c, r) {
      var id :| id in c.artifacts && ArtifactShows(c, id, c.artifacts[id], r);
      assert StrayTenant(c.artifacts[id].env, c.event.env, true);
    }
  }

  /** The replay record's nonce differs from the one expected, its canonical copy or the decision's. */
  predicate NoncesDiffer(c: Chain) {
    || (c.expectedNonce != Null && c.replay.nonce != c.expectedNonce)
    || !AbsentOr(c.replay.canonicalNonce, c.replay.nonce)
    || (c.decision.Some? && Truthy(c.replay.nonce) && !AbsentOr(c.decision.value.nonce, c.replay.nonce))
  }

  /** The replay record's action type or tool scope differs from a canonical copy, the decision or the binding. */
  predicate ScopesDiffer(c: Chain) {
    || !AbsentOr(c.replay.canonicalActionType, c.replay.actionType)
    || !AbsentOr(c.replay.canonicalToolScope, c.replay.toolScope)
    || (c.decision.Some? && !AbsentOr(c.decision.value.actionType, c.replay.actionType))
    || (c.decision.Some? && !AbsentOr(c.decision.value.toolScope, c.replay.toolScope))
    || (c.binding.Some? && Truthy(c.replay.actionType) && !AbsentOr(c.binding.value.actionType, c.replay.actionType))
    || (c.binding.Some? && Truthy(c.replay.toolScope) && !AbsentOr(c.binding.value.toolScope, c.replay.toolScope))
  }

  /** Nonce and scope reasons come from the replay record, the decision and the binding only. */
  lemma NarrowReasons(c: Chain, index: Index, r: Reason)
    requires IsNonce(r) || IsScope(r)
    ensures Shows(c, index, r) <==>
      || CoreShows(c.event, c.boundary, c.replay, c.expectedNonce, r)
      || (c.decision.Some? && DecisionShows(c, c.decision.value, r))
      || (c.binding.Some? && BindingShows(c, c.binding.value, r))
  {
    NotFromLists(c, r);
    NotFromRecords(c, index, r);
  }

  lemma NotFromLists(c: Chain, r: Reason)
    requires IsNonce(r) || IsScope(r)
    ensures !LedgerShows(c, r) && !ArtifactsShow(c, r)
  {
    assert forall n | 0 <= n < |c.ledger| :: !EntryShows(c, c.ledger[n], r);
    assert forall id | id in c.artifacts :: !ArtifactShows(c, id, c.artifacts[id], r);
  }

  lemma NotFromRecords(c: Chain, index: Index, r: Reason)
    requires IsNonce(r) || IsScope(r)
    ensures !IndexShows(c.event, index, r) && (c.manifest.Some? ==> !ManifestShows(c, c.manifest.value, r))
    ensures FixedShow(c, r) <==> CoreShows(c.event, c.boundary, c.replay, c.expectedNonce, r)
  {
  }

  lemma NonceReasons(c: Chain, index: Index)
    ensures (exists r :: Shows(c, index, r) && IsNonce(r)) <==> NoncesDiffer(c)
  {
    NarrowReasons(c, index, ReplayNonceMismatch);
    NarrowReasons(c, index, ReplayCanonicalNonceMismatch);
    NarrowReasons(c, index, GuardianNonceMismatch);
    if NoncesDiffer(c) {
      assert Shows(c, index, ReplayNonceMismatch) || Shows(c, index, ReplayCanonicalNonceMismatch)
        || Shows(c, index, GuardianNonceMismatch);
    }
  }

  lemma DifferingScopeShows(c: Chain, index: Index) returns (r: Reason)
    requires ScopesDiffer(c)
    ensures IsScope(r) && Shows(c, index, r)
  {
    r := if !AbsentOr(c.replay.canonicalActionType, c.replay.actionType) then ReplayActionTypeMismatch
    else if !AbsentOr(c.replay.canonicalToolScope, c.replay.toolScope) then ReplayToolScopeMismatch
    else if c.decision.Some? && !AbsentOr(c.decision.value.actionType, c.replay.actionType) then GuardianActionTypeMismatch
    else if c.decision.Some? && !AbsentOr(c.decision.value.toolScope, c.replay.toolScope) then GuardianToolScopeMismatch
    else if Truthy(c.replay.actionType) && !AbsentOr(c.binding.value.actionType, c.replay.actionType)
      then BindingActionTypeMismatch
    else BindingToolScopeMismatch;
    NarrowReasons(c, index, r);
  }

  lemma ShownScopeDiffers(c: Chain, index: Index, r: Reason)
    requires Shows(c, index, r) && IsScope(r)
    ensures ScopesDiffer(c)
  {
    NarrowReasons(c, index, r);
  }

  lemma ScopeReasons(c: Chain, index: Index)
    ensures (exists r :: Shows(c, index, r) && IsScope(r)) <==> ScopesDiffer(c)
  {
    if ScopesDiffer(c) {
      var r := DifferingScopeShows(c, index);
    } else if r :| Shows(c, index, r) && IsScope(r) {
      ShownScopeDiffers(c, index, r);
    }
  }

  lemma TenantReasons(c: Chain, index: Index)
    ensures (exists r :: Shows(c, index, r) && IsTenant(r)) <==> TenantsDiffer(c)
  {
    if TenantsDiffer(c) {
      var r := StrayTenantShows(c, index);
    } else if r :| Shows(c, index, r) && IsTenant(r) {
      TenantReasonStrays(c, index, r);
    }
  }

  /** The entry does not name the replay record or the event, or names a parent or an artifact that is not there. */
  ghost predicate EntryLacksRef(c: Chain, entry: Entry) {
    || c.replay.id !in entry.replays || c.event.id !in entry.events
    || (exists p :: p in entry.parents && forall n | 0 <= n < |c.ledger| :: c.ledger[n].id != p)
    || (exists a :: a in entry.artifacts && !Known(c.artifacts, a))
  }

  /** Some record does not name a record it should, or names one that is not there. */
  ghost predicate RefsMissing(c: Chain) {
    || c.event.id !in c.boundary.events || c.event.id !in c.replay.events
    || c.replay.id !in c.boundary.replays || c.replay.id !in c.event.replays
    || (exists n :: 0 <= n < |c.ledger| && EntryLacksRef(c, c.ledger[n]))
    || (exists id :: id in c.artifacts && Unledgered(c, c.artifacts[id]))
    || (c.manifest.Some? && exists x :: x in Mentioned(c.manifest.value) && !Known(c.artifacts, x))
  }

  lemma MissingRefShows(c: Chain, index: Index) returns (r: Reason)
    requires RefsMissing(c)
    ensures IsMissing(r) && Shows(c, index, r)
  {
    if c.event.id !in c.boundary.events {
      r := BoundaryEventMissing;
    } else if c.event.id !in c.replay.events {
      r := ReplayEventMissing;
    } else if c.replay.id !in c.boundary.replays {
      r := BoundaryReplayMissing;
    } else if c.replay.id !in c.event.replays {
      r := CoordinatorReplayMissing;
    } else if n :| 0 <= n < |c.ledger| && EntryLacksRef(c, c.ledger[n]) {
      r := LackingEntryShows(c, c.ledger[n]);
      assert LedgerShows(c, r);
    } else if id :| id in c.artifacts && Unledgered(c, c.artifacts[id]) {
      r := ArtifactLedgerMissing;
      assert ArtifactShows(c, id, c.artifacts[id], r);
    } else {
      r := ManifestUnknownRef;
      var x :| x in Mentioned(c.manifest.value) && !Known(c.artifacts, x);
      assert RefShows(c, x, r);
    }
  }

  lemma LackingEntryShows(c: Chain, entry: Entry) returns (r: Reason)
    requires EntryLacksRef(c, entry)
    ensures IsMissing(r) && EntryShows(c, entry, r)
  {
    r := if c.replay.id !in entry.replays then LedgerReplayMissing
    else if c.event.id !in entry.events then LedgerEventMissing
    else if exists p :: p in entry.parents && forall n | 0 <= n < |c.ledger| :: c.ledger[n].id != p then LedgerParentMissing
    else LedgerArtifactMissing;
  }

  lemma ShownByEntry(c: Chain, entry: Entry, r: Reason)
    requires IsMissing(r) && EntryShows(c, entry, r)
    ensures EntryLacksRef(c, entry)
  {
  }

  lemma ShownByArtifact(c: Chain, id: string, a: Artifact, r: Reason)
    requires IsMissing(r) && ArtifactShows(c, id, a, r)
    ensures Unledgered(c, a)
  {
  }

  lemma ShownByManifest(c: Chain, m: Manifest, r: Reason)
    requires IsMissing(r) && ManifestShows(c, m, r) && !Withheld(m)
    ensures exists x :: x in Mentioned(m) && !Known(c.artifacts, x)
  {
    var x :| x in Mentioned(m) && RefShows(c, x, r);
    assert !Known(c.artifacts, x);
  }

  lemma MissingIsFromCore(c: Chain, index: Index, r: Reason)
    requires IsMissing(r)
    ensures !IndexShows(c.event, index, r)
    ensures c.decision.Some? ==> !DecisionShows(c, c.decision.value, r)
    ensures c.binding.Some? ==> !BindingShows(c, c.binding.value, r)
    ensures FixedShow(c, r) <==> CoreShows(c.event, c.boundary, c.replay, c.expectedNonce, r)
  {
  }

  lemma ShownByOthers(c: Chain, index: Index, r: Reason)
    requires IsMissing(r) && Shows(c, index, r) && !LedgerShows(c, r) && !ArtifactsShow(c, r)
    requires c.manifest.Some? ==> !ManifestShows(c, c.manifest.value, r)
    ensures c.event.id !in c.boundary.events || c.event.id !in c.replay.events
      || c.replay.id !in c.boundary.replays || c.replay.id !in c.event.replays
  {
    MissingIsFromCore(c, index, r);
    assert CoreShows(c.event, c.boundary, c.replay, c.expectedNonce, r);
  }

  lemma ShownRefIsMissing(c: Chain, index: Index, r: Reason)
    requires IsMissing(r) && Shows(c, index, r) && !Blocked(c)
    ensures RefsMissing(c)
  {
    if LedgerShows(c, r) {
      var n :| 0 <= n < |c.ledger| && EntryShows(c, c.ledger[n], r);
      ShownByEntry(c, c.ledger[n], r);
    } else if ArtifactsShow(c, r) {
      var id :| id in c.artifacts && ArtifactShows(c, id, c.artifacts[id], r);
      ShownByArtifact(c, id, c.artifacts[id], r);
    } else if c.manifest.Some? && ManifestShows(c, c.manifest.value, r) {
      ShownByManifest(c, c.manifest.value, r);
    } else {
      ShownByOthers(c, index, r);
    }
  }

  lemma MissingReasons(c: Chain, index: Index)
    requires !Blocked(c)
    ensures (exists r :: Shows(c, index, r) && IsMissing(r)) <==> RefsMissing(c)
  {
    if RefsMissing(c) {
      var r := MissingRefShows(c, index);
    } else if r :| Shows(c, index, r) && IsMissing(r) {
      ShownRefIsMissing(c, index, r);
    }
  }

  /** Which verdict takes precedence: a manifest that is denied or blocked, then any stray tenant, then any nonce
      that differs, then any action type or tool scope that differs, then any missing reference; whatever else keeps
      a chain from being linked is drift. */
  lemma PrecedenceOfVerdicts(c: Chain, index: Index, status: Status, reasons: set<Reason>)
    requires Verdict(c, index, status, reasons)
    ensures status == BlockedMvp <==>
      c.manifest.Some? && (c.manifest.value.status == Text("denied") || c.manifest.value.status == Text("blocked_mvp"))
    ensures status != BlockedMvp ==>
      && (status == MismatchedTenant <==> TenantsDiffer(c))
      && (status == MismatchedNonce <==> NoncesDiffer(c) && !TenantsDiffer(c))
      && (status == MismatchedScope <==> ScopesDiffer(c) && !NoncesDiffer(c) && !TenantsDiffer(c))
      && (status == MissingRef <==> RefsMissing(c) && !ScopesDiffer(c) && !NoncesDiffer(c) && !TenantsDiffer(c))
      && (status == DriftDetected <==>
            !Sound(c, index) && !RefsMissing(c) && !ScopesDiffer(c) && !NoncesDiffer(c) && !TenantsDiffer(c))
  {
    LinkedExactlyWhen(c, index, status, reasons);
    TenantReasons(c, index);
    NonceReasons(c, index);
    ScopeReasons(c, index);
    ShownReasons(c, index, status, reasons);
    if !Blocked(c) {
      MissingReasons(c, index);
      ClassifiedBy(c, index, status, reasons);
    }
  }

  lemma ClassifiedBy(c: Chain, index: Index, status: Status, reasons: set<Reason>)
    requires Verdict(c, index, status, reasons) && !Blocked(c)
    ensures reasons == {} <==> status == Linked
    ensures status == MissingRef || status == DriftDetected <==>
      && reasons != {} && !(exists r :: r in reasons && IsTenant(r)) && !(exists r :: r in reasons && IsNonce(r))
      && !(exists r :: r in reasons && IsScope(r))
    ensures status == MissingRef ==> exists r :: r in reasons && IsMissing(r)
    ensures status == DriftDetected ==> !exists r :: r in reasons && IsMissing(r)
  {
  }

  lemma ShownReasons(c: Chain, index: Index, status: Status, reasons: set<Reason>)
    requires Verdict(c, index, status, reasons)
    ensures (exists r :: r in reasons && IsTenant(r)) <==> exists r :: Shows(c, index, r) && IsTenant(r)
    ensures (exists r :: r in reasons && IsNonce(r)) <==> exists r :: Shows(c, index, r) && IsNonce(r)
    ensures (exists r :: r in reasons && IsScope(r)) <==> exists r :: Shows(c, index, r) && IsScope(r)
    ensures (exists r :: r in reasons && IsMissing(r)) <==> exists r :: Shows(c, index, r) && IsMissing(r)
  {
    if r :| r in reasons && IsMissing(r) {
      assert Shows(c, index, r);
    }
    if r :| r in reasons && IsTenant(r) {
      assert Shows(c, index, r);
    }
    if r :| r in reasons && IsNonce(r) {
      assert Shows(c, index, r);
    }
    if r :| r in reasons && IsScope(r) {
      assert Shows(c, index, r);
    }
  }

  // ----- which field a reason names ------------------------------------------------------------------

  /** The envelopes of the records a part of the chain consists of. */
  function EnvelopesOf(c: Chain, part: Part): set<Envelope> {
    match part
    case OfEvent => {c.event.env}
    case OfBoundary => {c.boundary.env}
    case OfReplay => {c.replay.env}
    case OfLedger => set n | 0 <= n < |c.ledger| :: c.ledger[n].env
    case OfArtifact => set id | id in c.artifacts :: c.artifacts[id].env
    case OfManifest => if c.manifest.Some? then {c.manifest.value.env} else {}
    case OfDecision => if c.decision.Some? then {c.decision.value.env} else {}
    case OfBinding => if c.binding.Some? then {c.binding.value.env} else {}
  }

  /** The records whose canonical copies may be left out. */
  predicate MayOmit(part: Part) {
    part.OfArtifact? || part.OfDecision? || part.OfBinding?
  }

  predicate Concerns(r: Reason, part: Part) {
    || r == TenantMismatch(part) || r == ContextMismatch(part) || r == CorrelationMismatch(part)
    || r == IdempotencyMismatch(part) || r == CanonicalTenantMismatch(part) || r == CanonicalCorrelationMismatch(part)
    || r == CanonicalIdempotencyMismatch(part)
  }

  lemma LedgerReason(c: Chain, r: Reason, part: Part)
    requires Concerns(r, part)
    ensures LedgerShows(c, r) <==>
      part == OfLedger && exists e :: e in EnvelopesOf(c, OfLedger) && EnvelopeShows(OfLedger, e, c.event.env, false, r)
  {
    if LedgerShows(c, r) {
      var n :| 0 <= n < |c.ledger| && EntryShows(c, c.ledger[n], r);
      assert c.ledger[n].env in EnvelopesOf(c, OfLedger);
    }
    if part == OfLedger {
      if e :| e in EnvelopesOf(c, OfLedger) && EnvelopeShows(OfLedger, e, c.event.env, false, r) {
        var n :| 0 <= n < |c.ledger| && c.ledger[n].env == e;
        assert EntryShows(c, c.ledger[n], r);
      }
    }
  }

  lemma ArtifactsReason(c: Chain, r: Reason, part: Part)
    requires Concerns(r, part)
    ensures ArtifactsShow(c, r) <==>
      part == OfArtifact && exists e :: e in EnvelopesOf(c, OfArtifact) && EnvelopeShows(OfArtifact, e, c.event.env, true, r)
  {
    if ArtifactsShow(c, r) {
      var id :| id in c.artifacts && ArtifactShows(c, id, c.artifacts[id], r);
      assert c.artifacts[id].env in EnvelopesOf(c, OfArtifact);
    }
    if part == OfArtifact {
      if e :| e in EnvelopesOf(c, OfArtifact) && EnvelopeShows(OfArtifact, e, c.event.env, true, r) {
        var id :| id in c.artifacts && c.artifacts[id].env == e;
        assert ArtifactShows(c, id, c.artifacts[id], r);
      }
    }
  }

  lemma FixedReason(c: Chain, r: Reason, part: Part)
    requires Concerns(r, part)
    ensures FixedShow(c, r) <==>
      && (part == OfEvent || part == OfBoundary || part == OfReplay)
      && exists e :: e in EnvelopesOf(c, part) && EnvelopeShows(part, e, c.event.env, false, r)
  {
    if part == OfEvent {
      assert c.event.env in EnvelopesOf(c, part);
    } else if part == OfBoundary {
      assert c.boundary.env in EnvelopesOf(c, part);
    } else if part == OfReplay {
      assert c.replay.env in EnvelopesOf(c, part);
    }
  }

  lemma OptionalReason(c: Chain, r: Reason, part: Part)
    requires Concerns(r, part)
    ensures OptionalShow(c, r) <==>
      && (part == OfManifest || part == OfDecision || part == OfBinding)
      && exists e :: e in EnvelopesOf(c, part) && EnvelopeShows(part, e, c.event.env, MayOmit(part), r)
  {
    if part == OfManifest && c.manifest.Some? {
      assert c.manifest.value.env in EnvelopesOf(c, part);
    } else if part == OfDecision && c.decision.Some? {
      assert c.decision.value.env in EnvelopesOf(c, part);
    } else if part == OfBinding && c.binding.Some? {
      assert c.binding.value.env in EnvelopesOf(c, part);
    }
  }

  lemma ShownInPart(c: Chain, r: Reason, part: Part) returns (e: Envelope)
    requires Concerns(r, part) && (FixedShow(c, r) || LedgerShows(c, r) || ArtifactsShow(c, r) || OptionalShow(c, r))
    ensures e in EnvelopesOf(c, part) && EnvelopeShows(part, e, c.event.env, MayOmit(part), r)
  {
    if LedgerShows(c, r) {
      e := ShownInLedger(c, r, part);
    } else if ArtifactsShow(c, r) {
      e := ShownInArtifacts(c, r, part);
    } else if FixedShow(c, r) {
      FixedReason(c, r, part);
      e :| e in EnvelopesOf(c, part) && EnvelopeShows(part, e, c.event.env, false, r);
    } else {
      OptionalReason(c, r, part);
      e :| e in EnvelopesOf(c, part) && EnvelopeShows(part, e, c.event.env, MayOmit(part), r);
    }
  }

  lemma ShownInLedger(c: Chain, r: Reason, part: Part) returns (e: Envelope)
    requires Concerns(r, part) && LedgerShows(c, r)
    ensures part == OfLedger && e in EnvelopesOf(c, part) && EnvelopeShows(part, e, c.event.env, MayOmit(part), r)
  {
    LedgerReason(c, r, part);
    e :| e in EnvelopesOf(c, OfLedger) && EnvelopeShows(OfLedger, e, c.event.env, false, r);
  }

  lemma ShownInArtifacts(c: Chain, r: Reason, part: Part) returns (e: Envelope)
    requires Concerns(r, part) && ArtifactsShow(c, r)
    ensures part == OfArtifact && e in EnvelopesOf(c, part) && EnvelopeShows(part, e, c.event.env, MayOmit(part), r)
  {
    ArtifactsReason(c, r, part);
    e :| e in EnvelopesOf(c, OfArtifact) && EnvelopeShows(OfArtifact, e, c.event.env, true, r);
  }

  lemma NotFromIndex(e: Event, index: Index, r: Reason, part: Part)
    requires Concerns(r, part)
    ensures !IndexShows(e, index, r)
  {
  }

  lemma PartShows(c: Chain, index: Index, r: Reason, part: Part, e: Envelope)
    requires Concerns(r, part) && e in EnvelopesOf(c, part)
    requires EnvelopeShows(part, e, c.event.env, MayOmit(part), r)
    ensures Shows(c, index, r)
  {
    var shown := GroupShows(c, r, part, e);
    if shown == 0 {
      assert FixedShow(c, r);
    } else if shown == 1 {
      assert LedgerShows(c, r);
    } else if shown == 2 {
      assert ArtifactsShow(c, r);
    } else {
      assert OptionalShow(c, r);
    }
  }

  /** Which group of records gives the reason: 0 the fixed ones, 1 the ledger, 2 the artifacts, 3 the optional ones. */
  lemma GroupShows(c: Chain, r: Reason, part: Part, e: Envelope) returns (group: nat)
    requires Concerns(r, part) && e in EnvelopesOf(c, part)
    requires EnvelopeShows(part, e, c.event.env, MayOmit(part), r)
    ensures group < 4 && (group == 0 ==> FixedShow(c, r)) && (group == 1 ==> LedgerShows(c, r))
    ensures (group == 2 ==> ArtifactsShow(c, r)) && (group == 3 ==> OptionalShow(c, r))
  {
    match part
    case OfLedger => LedgerReason(c, r, part); group := 1;
    case OfArtifact => ArtifactsReason(c, r, part); group := 2;
    case OfManifest => OptionalReason(c, r, part); group := 3;
    case OfDecision => OptionalReason(c, r, part); group := 3;
    case OfBinding => OptionalReason(c, r, part); group := 3;
    case _ => FixedReason(c, r, part); group := 0;
  }

  lemma EnvelopeReason(c: Chain, index: Index, r: Reason, part: Part)
    requires Concerns(r, part)
    ensures Shows(c, index, r) <==>
      exists e :: e in EnvelopesOf(c, part) && EnvelopeShows(part, e, c.event.env, MayOmit(part), r)
  {
    if Shows(c, index, r) {
      NotFromIndex(c.event, index, r, part);
      var e := ShownInPart(c, r, part);
    }
    if e :| e in EnvelopesOf(c, part) && EnvelopeShows(part, e, c.event.env, MayOmit(part), r) {
      PartShows(c, index, r, part, e);
    }
  }

  /** Each reason about an envelope is given for a part exactly when the very field it names differs in some record of
      that part: from the event's, or, for a canonical copy, from the record's own, unless it may be and is left out. */
  lemma ReasonsNameTheirField(c: Chain, index: Index, status: Status, reasons: set<Reason>, part: Part)
    requires Verdict(c, index, status, reasons)
    ensures var event, records := c.event.env, EnvelopesOf(c, part);
      && (TenantMismatch(part) in reasons <==> exists e :: e in records && e.tenant != event.tenant)
      && (ContextMismatch(part) in reasons <==> exists e :: e in records && e.context != event.context)
      && (CorrelationMismatch(part) in reasons <==> exists e :: e in records && e.correlation != event.correlation)
      && (IdempotencyMismatch(part) in reasons <==> exists e :: e in records && e.idempotency != event.idempotency)
  {
    EnvelopeReason(c, index, TenantMismatch(part), part);
    EnvelopeReason(c, index, ContextMismatch(part), part);
    EnvelopeReason(c, index, CorrelationMismatch(part), part);
    EnvelopeReason(c, index, IdempotencyMismatch(part), part);
    FieldsOfReasons(c.event.env, EnvelopesOf(c, part), part);
  }

  lemma FieldsOfReasons(event: Envelope, records: set<Envelope>, part: Part)
    ensures (exists e :: e in records && EnvelopeShows(part, e, event, MayOmit(part), TenantMismatch(part)))
      <==> exists e :: e in records && e.tenant != event.tenant
    ensures (exists e :: e in records && EnvelopeShows(part, e, event, MayOmit(part), ContextMismatch(part)))
      <==> exists e :: e in records && e.context != event.context
    ensures (exists e :: e in records && EnvelopeShows(part, e, event, MayOmit(part), CorrelationMismatch(part)))
      <==> exists e :: e in records && e.correlation != event.correlation
    ensures (exists e :: e in records && EnvelopeShows(part, e, event, MayOmit(part), IdempotencyMismatch(part)))
      <==> exists e :: e in records && e.idempotency != event.idempotency
  {
  }

  lemma CanonicalReasonsNameTheirField(c: Chain, index: Index, status: Status, reasons: set<Reason>, part: Part)
    requires Verdict(c, index, status, reasons)
    ensures var records, omit := EnvelopesOf(c, part), MayOmit(part);
      && (CanonicalTenantMismatch(part) in reasons <==>
            exists e :: e in records && e.canonicalTenant != e.tenant && !(omit && e.canonicalTenant == Null))
      && (CanonicalCorrelationMismatch(part) in reasons <==>
            exists e :: e in records && e.canonicalCorrelation != e.correlation && !(omit && e.canonicalCorrelation == Null))
      && (CanonicalIdempotencyMismatch(part) in reasons <==>
            exists e :: e in records && e.canonicalIdempotency != e.idempotency && !(omit && e.canonicalIdempotency == Null))
  {
    EnvelopeReason(c, index, CanonicalTenantMismatch(part), part);
    EnvelopeReason(c, index, CanonicalCorrelationMismatch(part), part);
    EnvelopeReason(c, index, CanonicalIdempotencyMismatch(part), part);
    CopiesOfReasons(c.event.env, EnvelopesOf(c, part), MayOmit(part), part);
  }

  lemma CopiesOfReasons(event: Envelope, records: set<Envelope>, omit: bool, part: Part)
    ensures (exists e :: e in records && EnvelopeShows(part, e, event, omit, CanonicalTenantMismatch(part)))
      <==> exists e :: e in records && e.canonicalTenant != e.tenant && !(omit && e.canonicalTenant == Null)
    ensures (exists e :: e in records && EnvelopeShows(part, e, event, omit, CanonicalCorrelationMismatch(part)))
      <==> exists e :: e in records && e.canonicalCorrelation != e.correlation && !(omit && e.canonicalCorrelation == Null)
    ensures (exists e :: e in records && EnvelopeShows(part, e, event, omit, CanonicalIdempotencyMismatch(part)))
      <==> exists e :: e in records && e.canonicalIdempotency != e.idempotency && !(omit && e.canonicalIdempotency == Null)
  {
  }

  // ----- runs of calls -------------------------------------------------------------------------------

  datatype Call = Call(chain: Chain, status: Status, reasons: set<Reason>)

  /** The index after the first `n` calls. */
  function IndexAt(calls: seq<Call>, n: nat): Index
    requires n <= |calls|
  {
    if n == 0 then map[] else Indexed(IndexAt(calls, n - 1), calls[n - 1].chain.event)
  }

  /** A run of one validator: every verdict is the one the call gives against the index at that point. */
  ghost predicate IsRun(calls: seq<Call>) {
    forall n | 0 <= n < |calls| :: Verdict(calls[n].chain, IndexAt(calls, n), calls[n].status, calls[n].reasons)
  }

  predicate Claims(call: Call, key: Key) {
    Keyed(call.chain.event) && KeyOf(call.chain.event) == key
  }

  predicate FirstClaim(calls: seq<Call>, k: nat, key: Key) {
    k < |calls| && Claims(calls[k], key) && forall j | 0 <= j < k :: !Claims(calls[j], key)
  }

  /** A key belongs to the first call that claims it, whether or not that call was linked. */
  lemma {:induction false} FirstClaimOwnsTheKey(calls: seq<Call>, n: nat, key: Key)
    requires n <= |calls|
    ensures key in IndexAt(calls, n) <==> exists k: nat :: k < n && FirstClaim(calls, k, key)
    ensures forall k: nat | k < n && FirstClaim(calls, k, key) ::
      key in IndexAt(calls, n) && IndexAt(calls, n)[key] == calls[k].chain.event.transaction.text
    ensures key !in IndexAt(calls, n) ==> forall k | 0 <= k < n :: !Claims(calls[k], key)
  {
    if n > 0 {
      FirstClaimOwnsTheKey(calls, n - 1, key);
      if key !in IndexAt(calls, n - 1) && Claims(calls[n - 1], key) {
        assert FirstClaim(calls, n - 1, key);
      }
    }
  }

  lemma {:induction false} IndexIsWriteOnce(calls: seq<Call>, m: nat, n: nat, key: Key)
    requires m <= n <= |calls| && key in IndexAt(calls, m)
    ensures key in IndexAt(calls, n) && IndexAt(calls, n)[key] == IndexAt(calls, m)[key]
    decreases n
  {
    if m < n {
      IndexIsWriteOnce(calls, m, n - 1, key);
    }
  }

  /** A linked call agrees with every earlier or later call that claims the same key first, and so any two
      linked calls with one key have one transaction. */
  lemma LinkedCallsShareATransaction(calls: seq<Call>, m: nat, n: nat)
    requires IsRun(calls) && m < n < |calls|
    requires calls[m].status == Linked && calls[n].status == Linked
    ensures Keyed(calls[m].chain.event) && Keyed(calls[n].chain.event)
    ensures KeyOf(calls[m].chain.event) == KeyOf(calls[n].chain.event)
      ==> calls[m].chain.event.transaction == calls[n].chain.event.transaction
  {
    LinkedIsFree(calls[m].chain, IndexAt(calls, m), calls[m].status, calls[m].reasons);
    LinkedIsFree(calls[n].chain, IndexAt(calls, n), calls[n].status, calls[n].reasons);
    FreeCallsShareATransaction(calls, m, n);
  }

  lemma FreeCallsShareATransaction(calls: seq<Call>, m: nat, n: nat)
    requires m < n < |calls|
    requires Free(IndexAt(calls, m), calls[m].chain.event) && Free(IndexAt(calls, n), calls[n].chain.event)
    ensures KeyOf(calls[m].chain.event) == KeyOf(calls[n].chain.event)
      ==> calls[m].chain.event.transaction == calls[n].chain.event.transaction
  {
    var key := KeyOf(calls[m].chain.event);
    assert key in IndexAt(calls, m + 1) && IndexAt(calls, m + 1)[key] == calls[m].chain.event.transaction.text;
    IndexIsWriteOnce(calls, m + 1, n, key);
  }

  /** The duplicate-key reason is given exactly when an earlier call, linked or not, was the first to claim
      the key and did so for another transaction. */
  lemma DuplicateExactlyWhen(calls: seq<Call>, n: nat)
    requires IsRun(calls) && n < |calls|
    ensures DuplicateIdempotencyKey in calls[n].reasons <==>
      && Keyed(calls[n].chain.event)
      && exists k: nat :: k < n && FirstClaim(calls, k, KeyOf(calls[n].chain.event))
                       && calls[k].chain.event.transaction != calls[n].chain.event.transaction
  {
    DuplicateIsFromIndex(calls[n].chain, IndexAt(calls, n));
    if Keyed(calls[n].chain.event) {
      OwnerExactlyWhen(calls, n);
    }
  }

  lemma OwnerExactlyWhen(calls: seq<Call>, n: nat)
    requires n < |calls| && Keyed(calls[n].chain.event)
    ensures var key := KeyOf(calls[n].chain.event);
      key in IndexAt(calls, n) && IndexAt(calls, n)[key] != calls[n].chain.event.transaction.text <==>
      exists k: nat :: k < n && FirstClaim(calls, k, key)
                    && calls[k].chain.event.transaction != calls[n].chain.event.transaction
  {
    var key := KeyOf(calls[n].chain.event);
    FirstClaimOwnsTheKey(calls, n, key);
  }

  lemma DuplicateIsFromIndex(c: Chain, index: Index)
    ensures Shows(c, index, DuplicateIdempotencyKey) <==> IndexShows(c.event, index, DuplicateIdempotencyKey)
  {
    var r := DuplicateIdempotencyKey;
    assert forall n | 0 <= n < |c.ledger| :: !EntryShows(c, c.ledger[n], r);
    assert forall id | id in c.artifacts :: !ArtifactShows(c, id, c.artifacts[id], r);
  }
}
