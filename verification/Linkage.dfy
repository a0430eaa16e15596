/** The cross-contract linkage validator: which reasons a chain of records gives, and the idempotency index. */
module Linkage {
  import opened Values

  // ----- records -------------------------------------------------------------------------------------

  /** The fields every record of a chain shares, and their canonical copies. */
  datatype Envelope = Envelope(
    tenant: Value, context: Value, correlation: Value, idempotency: Value,
    canonicalTenant: Value, canonicalCorrelation: Value, canonicalIdempotency: Value)

  datatype Event = Event(
    env: Envelope, id: Value, transaction: Value, scope: Value, replays: seq<Value>, eventType: Value)

  datatype Boundary = Boundary(
    env: Envelope, transaction: Value, events: seq<Value>, replays: seq<Value>, status: Value)

  datatype Replay = Replay(
    env: Envelope, id: Value, transaction: Value, events: seq<Value>, nonce: Value, canonicalNonce: Value,
    actionType: Value, canonicalActionType: Value, toolScope: Value, canonicalToolScope: Value, bindingId: Value)

  datatype Entry = Entry(
    env: Envelope, id: Value, transaction: Value, replays: seq<Value>, events: seq<Value>,
    parents: seq<Value>, artifacts: seq<Value>)

  /** `noRawContent` and `noSecrets`: the record's flag is literally false. */
  datatype Artifact = Artifact(
    env: Envelope, id: Value, noRawContent: bool, noSecrets: bool, entries: seq<Value>)

  /** `deleteConflicts`: the manifest lists some delete conflict. */
  datatype Manifest = Manifest(
    env: Envelope, included: seq<Value>, excluded: seq<Value>, refs: seq<Value>, status: Value, deleteConflicts: bool)

  datatype Decision = Decision(env: Envelope, nonce: Value, actionType: Value, toolScope: Value, bindingId: Value)

  datatype Binding = Binding(env: Envelope, id: Value, actionType: Value, toolScope: Value)

  datatype Chain = Chain(
    event: Event, boundary: Boundary, replay: Replay, ledger: seq<Entry>, artifacts: map<string, Artifact>,
    manifest: Option<Manifest>, decision: Option<Decision>, binding: Option<Binding>, expectedNonce: Value)

  datatype Part =
    OfEvent | OfBoundary | OfReplay | OfLedger | OfArtifact | OfManifest | OfDecision | OfBinding

  datatype Reason =
    // any record against the coordinator event
    | TenantMismatch(part: Part) | ContextMismatch(part: Part) | CorrelationMismatch(part: Part)
    | IdempotencyMismatch(part: Part)
    | CanonicalTenantMismatch(part: Part) | CanonicalCorrelationMismatch(part: Part)
    | CanonicalIdempotencyMismatch(part: Part)
    // the idempotency index
    | InvalidIdempotencyContext | DuplicateIdempotencyKey
    // event, boundary and replay record
    | CoordinatorTransactionMismatch | BoundaryEventMissing | ReplayTransactionMismatch
    | BoundaryReplayMissing | CoordinatorReplayMissing | ReplayEventMissing
    | ReplayNonceMismatch | ReplayCanonicalNonceMismatch | ReplayActionTypeMismatch | ReplayToolScopeMismatch
    | TerminalStateDrift
    // ledger entries and artifacts
    | LedgerTransactionMismatch | LedgerReplayMissing | LedgerEventMissing | LedgerParentMissing
    | LedgerArtifactMissing
    | ArtifactRawContent | ArtifactSecretMaterial | ArtifactIdMismatch | ArtifactLedgerMissing
    // manifest
    | ManifestOverlap | ManifestIncludedNonRef | ManifestUnknownRef | ManifestCrossTenant | ManifestCrossContext
    | ManifestMissingDeleteConflict | ManifestDeleteConflict
    // Guardian decision and approval binding
    | GuardianNonceMismatch | GuardianActionTypeMismatch | GuardianToolScopeMismatch | GuardianBindingMismatch
    | BindingIdMismatch | BindingActionTypeMismatch | BindingToolScopeMismatch

  datatype Status =
    Linked | BlockedMvp | MismatchedTenant | MismatchedNonce | MismatchedScope | MissingRef | DriftDetected

  type Key = (string, string, string, string)
  type Index = map<Key, string>

  predicate AbsentOr(v: Value, expected: Value) {
    v == Null || v == expected
  }

  predicate Known(artifacts: map<string, Artifact>, ref: Value) {
    ref.Text? && ref.text in artifacts
  }

  // ----- which reasons each part of a chain gives ----------------------------------------------------

  /** The record agrees with the event, and its canonical copies (which some records may leave out) with it. */
  predicate Agrees(env: Envelope, event: Envelope, mayOmit: bool) {
    && env.tenant == event.tenant && env.context == event.context
    && env.correlation == event.correlation && env.idempotency == event.idempotency
    && CopyAgrees(env.canonicalTenant, env.tenant, mayOmit)
    && CopyAgrees(env.canonicalCorrelation, env.correlation, mayOmit)
    && CopyAgrees(env.canonicalIdempotency, env.idempotency, mayOmit)
  }

  predicate CopyAgrees(copy: Value, original: Value, mayOmit: bool) {
    copy == original || (mayOmit && copy == Null)
  }

  predicate EnvelopeShows(part: Part, env: Envelope, event: Envelope, mayOmit: bool, r: Reason) {
    match r
    case TenantMismatch(p) => p == part && env.tenant != event.tenant
    case ContextMismatch(p) => p == part && env.context != event.context
    case CorrelationMismatch(p) => p == part && env.correlation != event.correlation
    case IdempotencyMismatch(p) => p == part && env.idempotency != event.idempotency
    case CanonicalTenantMismatch(p) => p == part && !CopyAgrees(env.canonicalTenant, env.tenant, mayOmit)
    case CanonicalCorrelationMismatch(p) => p == part && !CopyAgrees(env.canonicalCorrelation, env.correlation, mayOmit)
    case CanonicalIdempotencyMismatch(p) => p == part && !CopyAgrees(env.canonicalIdempotency, env.idempotency, mayOmit)
    case _ => false
  }

  /** The event, scope and transaction the index is keyed and filled with, when all five are strings. */
  predicate Keyed(e: Event) {
    e.env.tenant.Text? && e.env.context.Text? && e.scope.Text? && e.env.idempotency.Text? && e.transaction.Text?
  }

  function KeyOf(e: Event): Key
    requires Keyed(e)
  {
    (e.env.tenant.text, e.env.context.text, e.scope.text, e.env.idempotency.text)
  }

  predicate IndexShows(e: Event, index: Index, r: Reason) {
    match r
    case InvalidIdempotencyContext => !Keyed(e)
    case DuplicateIdempotencyKey => Keyed(e) && KeyOf(e) in index && index[KeyOf(e)] != e.transaction.text
    case _ => false
  }

  predicate Drifted(e: Event, b: Boundary) {
    || (e.eventType == Text("transaction_failed_closed") && b.status == Text("committed"))
    || (e.eventType == Text("transaction_committed") && b.status == Text("failed_closed"))
    || (e.eventType == Text("transaction_rolled_back") && b.status == Text("committed"))
  }

  predicate CoreShows(e: Event, b: Boundary, y: Replay, expectedNonce: Value, r: Reason) {
    match r
    case CoordinatorTransactionMismatch => e.transaction != b.transaction
    case BoundaryEventMissing => e.id !in b.events
    case ReplayTransactionMismatch => !AbsentOr(y.transaction, b.transaction)
    case BoundaryReplayMissing => y.id !in b.replays
    case CoordinatorReplayMissing => y.id !in e.replays
    case ReplayEventMissing => e.id !in y.events
    case ReplayNonceMismatch => expectedNonce != Null && y.nonce != expectedNonce
    case ReplayCanonicalNonceMismatch => !AbsentOr(y.canonicalNonce, y.nonce)
    case ReplayActionTypeMismatch => !AbsentOr(y.canonicalActionType, y.actionType)
    case ReplayToolScopeMismatch => !AbsentOr(y.canonicalToolScope, y.toolScope)
    case TerminalStateDrift => Drifted(e, b)
    case _ => false
  }

  predicate EntryShows(c: Chain, entry: Entry, r: Reason) {
    match r
    case LedgerTransactionMismatch => !AbsentOr(entry.transaction, c.boundary.transaction)
    case LedgerReplayMissing => c.replay.id !in entry.replays
    case LedgerEventMissing => c.event.id !in entry.events
    case LedgerParentMissing =>
      exists p :: p in entry.parents && forall n | 0 <= n < |c.ledger| :: c.ledger[n].id != p
    case LedgerArtifactMissing => exists a :: a in entry.artifacts && !Known(c.artifacts, a)
    case _ => EnvelopeShows(OfLedger, entry.env, c.event.env, false, r)
  }

  predicate LedgerShows(c: Chain, r: Reason) {
    exists n :: 0 <= n < |c.ledger| && EntryShows(c, c.ledger[n], r)
  }

  /** Some ledger entry has an id and the artifact names no such entry. */
  predicate Unledgered(c: Chain, a: Artifact) {
    && (exists n :: 0 <= n < |c.ledger| && Truthy(c.ledger[n].id))
    && forall n | 0 <= n < |c.ledger| && Truthy(c.ledger[n].id) :: c.ledger[n].id !in a.entries
  }

  predicate ArtifactShows(c: Chain, id: string, a: Artifact, r: Reason) {
    match r
    case ArtifactRawContent => !a.noRawContent
    case ArtifactSecretMaterial => !a.noSecrets
    case ArtifactIdMismatch => a.id != Text(id)
    case ArtifactLedgerMissing => Unledgered(c, a)
    case _ => EnvelopeShows(OfArtifact, a.env, c.event.env, true, r)
  }

  predicate ArtifactsShow(c: Chain, r: Reason) {
    exists id :: id in c.artifacts && ArtifactShows(c, id, c.artifacts[id], r)
  }

  predicate Withheld(m: Manifest) {
    m.status == Text("denied") || m.status == Text("blocked_mvp")
  }

  function Mentioned(m: Manifest): set<Value> {
    Elements(m.included) + Elements(m.excluded) + Elements(m.refs)
  }

  predicate RefShows(c: Chain, ref: Value, r: Reason) {
    match r
    case ManifestUnknownRef => !Known(c.artifacts, ref)
    case ManifestCrossTenant => Known(c.artifacts, ref) && c.artifacts[ref.text].env.tenant != c.event.env.tenant
    case ManifestCrossContext =>
      Known(c.artifacts, ref) && !AbsentOr(c.artifacts[ref.text].env.context, c.event.env.context)
    case _ => false
  }

  predicate ManifestShows(c: Chain, m: Manifest, r: Reason) {
    match r
    case ManifestOverlap => exists x :: x in m.included && x in m.excluded
    case ManifestIncludedNonRef => exists x :: x in m.included && x !in m.refs
    case ManifestUnknownRef => exists x :: x in Mentioned(m) && RefShows(c, x, r)
    case ManifestCrossTenant => exists x :: x in Mentioned(m) && RefShows(c, x, r)
    case ManifestCrossContext => exists x :: x in Mentioned(m) && RefShows(c, x, r)
    case ManifestMissingDeleteConflict => Withheld(m) && !m.deleteConflicts
    case ManifestDeleteConflict => Withheld(m) && m.deleteConflicts
    case _ => EnvelopeShows(OfManifest, m.env, c.event.env, false, r)
  }

  predicate DecisionShows(c: Chain, d: Decision, r: Reason) {
    match r
    case GuardianNonceMismatch => Truthy(c.replay.nonce) && !AbsentOr(d.nonce, c.replay.nonce)
    case GuardianActionTypeMismatch => !AbsentOr(d.actionType, c.replay.actionType)
    case GuardianToolScopeMismatch => !AbsentOr(d.toolScope, c.replay.toolScope)
    case GuardianBindingMismatch => Truthy(c.replay.bindingId) && !AbsentOr(d.bindingId, c.replay.bindingId)
    case _ => EnvelopeShows(OfDecision, d.env, c.event.env, true, r)
  }

  predicate BindingShows(c: Chain, b: Binding, r: Reason) {
    match r
    case BindingIdMismatch => Truthy(c.replay.bindingId) && !AbsentOr(b.id, c.replay.bindingId)
    case BindingActionTypeMismatch => Truthy(c.replay.actionType) && !AbsentOr(b.actionType, c.replay.actionType)
    case BindingToolScopeMismatch => Truthy(c.replay.toolScope) && !AbsentOr(b.toolScope, c.replay.toolScope)
    case _ => EnvelopeShows(OfBinding, b.env, c.event.env, true, r)
  }

  /** The records a chain always has. */
  predicate FixedShow(c: Chain, r: Reason) {
    || EnvelopeShows(OfEvent, c.event.env, c.event.env, false, r)
    || EnvelopeShows(OfBoundary, c.boundary.env, c.event.env, false, r)
    || EnvelopeShows(OfReplay, c.replay.env, c.event.env, false, r)
    || CoreShows(c.event, c.boundary, c.replay, c.expectedNonce, r)
  }

  /** The records a chain may have. */
  predicate OptionalShow(c: Chain, r: Reason) {
    || (c.manifest.Some? && ManifestShows(c, c.manifest.value, r))
    || (c.decision.Some? && DecisionShows(c, c.decision.value, r))
    || (c.binding.Some? && BindingShows(c, c.binding.value, r))
  }

  /** The chain, checked against the index as it was before the call, gives this reason. */
  predicate Shows(c: Chain, index: Index, r: Reason) {
    IndexShows(c.event, index, r) || FixedShow(c, r) || LedgerShows(c, r) || ArtifactsShow(c, r) || OptionalShow(c, r)
  }

  // ----- the verdict ---------------------------------------------------------------------------------

  predicate IsTenant(r: Reason) {
    r.TenantMismatch? || r.CanonicalTenantMismatch?
  }

  predicate IsNonce(r: Reason) {
    r.ReplayNonceMismatch? || r.ReplayCanonicalNonceMismatch? || r.GuardianNonceMismatch?
  }

  predicate IsScope(r: Reason) {
    || r.ReplayActionTypeMismatch? || r.ReplayToolScopeMismatch? || r.GuardianActionTypeMismatch?
    || r.GuardianToolScopeMismatch? || r.BindingActionTypeMismatch? || r.BindingToolScopeMismatch?
  }

  predicate IsMissing(r: Reason) {
    || r.BoundaryEventMissing? || r.BoundaryReplayMissing? || r.CoordinatorReplayMissing? || r.ReplayEventMissing?
    || r.LedgerReplayMissing? || r.LedgerEventMissing? || r.LedgerParentMissing? || r.LedgerArtifactMissing?
    || r.ArtifactLedgerMissing? || r.ManifestUnknownRef? || r.ManifestMissingDeleteConflict?
  }

  function Classify(reasons: set<Reason>, blocked: bool): Status {
    if blocked then BlockedMvp
    else if reasons == {} then Linked
    else if exists r :: r in reasons && IsTenant(r) then MismatchedTenant
    else if exists r :: r in reasons && IsNonce(r) then MismatchedNonce
    else if exists r :: r in reasons && IsScope(r) then MismatchedScope
    else if exists r :: r in reasons && IsMissing(r) then MissingRef
    else DriftDetected
  }

  predicate Blocked(c: Chain) {
    c.manifest.Some? && Withheld(c.manifest.value)
  }

  /** The index after a call: the first transaction seen under a key stays. */
  function Indexed(index: Index, e: Event): Index {
    if Keyed(e) && KeyOf(e) !in index then index[KeyOf(e) := e.transaction.text] else index
  }

  ghost predicate Verdict(c: Chain, index: Index, status: Status, reasons: set<Reason>) {
    && (forall r :: r in reasons <==> Shows(c, index, r))
    && status == Classify(reasons, Blocked(c))
  }

  // ----- the validator -------------------------------------------------------------------------------

  class CrossContractLinkageValidator {
    var index: Index

    constructor ()
      ensures index == map[]
    {
      index := map[];
    }

    method ValidateChain(c: Chain) returns (status: Status, reasons: set<Reason>)
      modifies this
      ensures Verdict(c, old(index), status, reasons)
      ensures index == Indexed(old(index), c.event)
    {
      var blocked := false;
      var byIndex := CheckIdempotency(c.event);
      var event := CheckEnvelope(OfEvent, c.event.env, c.event.env, false);
      var boundary := CheckEnvelope(OfBoundary, c.boundary.env, c.event.env, false);
      var replay := CheckEnvelope(OfReplay, c.replay.env, c.event.env, false);
      var core := CheckCore(c.event, c.boundary, c.replay, c.expectedNonce);
      var ledger := CheckLedger(c);
      var artifacts := CheckArtifacts(c);
      reasons := byIndex + event + boundary + replay + core + ledger + artifacts;
      if c.manifest.Some? {
        var manifest := CheckManifest(c, c.manifest.value);
        reasons := reasons + manifest;
        blocked := Withheld(c.manifest.value);
      }
      if c.decision.Some? {
        var decision := CheckDecision(c, c.decision.value);
        reasons := reasons + decision;
      }
      if c.binding.Some? {
        var binding := CheckBinding(c, c.binding.value);
        reasons := reasons + binding;
      }
      status := Classify(reasons, blocked);
    }

    method CheckIdempotency(e: Event) returns (found: set<Reason>)
      modifies this
      ensures forall r :: r in found <==> IndexShows(e, old(index), r)
      ensures index == Indexed(old(index), e)
    {
      if !Keyed(e) {
        return {InvalidIdempotencyContext};
      }
      var key := KeyOf(e);
      if key !in index {
        index := index[key := e.transaction.text];
        return {};
      }
      found := if index[key] != e.transaction.text then {DuplicateIdempotencyKey} else {};
    }
  }

  /** Appends the reason when the condition holds. */
  function Add(found: set<Reason>, condition: bool, reason: Reason): (r: set<Reason>)
    ensures forall x :: x in r <==> x in found || (condition && x == reason)
  {
    if condition then found + {reason} else found
  }

  method CheckEnvelope(part: Part, env: Envelope, event: Envelope, mayOmit: bool) returns (found: set<Reason>)
    ensures forall r :: r in found <==> EnvelopeShows(part, env, event, mayOmit, r)
  {
    found := Add({}, env.tenant != event.tenant, TenantMismatch(part));
    found := Add(found, env.context != event.context, ContextMismatch(part));
    found := Add(found, env.correlation != event.correlation, CorrelationMismatch(part));
    found := Add(found, env.idempotency != event.idempotency, IdempotencyMismatch(part));
    var copies := CheckCopies(part, env, mayOmit);
    found := found + copies;
  }

  method CheckCopies(part: Part, env: Envelope, mayOmit: bool) returns (found: set<Reason>)
    ensures forall r :: r in found <==> match r
      case CanonicalTenantMismatch(p) => p == part && !CopyAgrees(env.canonicalTenant, env.tenant, mayOmit)
      case CanonicalCorrelationMismatch(p) => p == part && !CopyAgrees(env.canonicalCorrelation, env.correlation, mayOmit)
      case CanonicalIdempotencyMismatch(p) => p == part && !CopyAgrees(env.canonicalIdempotency, env.idempotency, mayOmit)
      case _ => false
  {
    found := {};
    if !mayOmit || env.canonicalTenant != Null {
      found := Add(found, env.canonicalTenant != env.tenant, CanonicalTenantMismatch(part));
    }
    if !mayOmit || env.canonicalCorrelation != Null {
      found := Add(found, env.canonicalCorrelation != env.correlation, CanonicalCorrelationMismatch(part));
    }
    if !mayOmit || env.canonicalIdempotency != Null {
      found := Add(found, env.canonicalIdempotency != env.idempotency, CanonicalIdempotencyMismatch(part));
    }
  }

  method CheckCore(e: Event, b: Boundary, y: Replay, expectedNonce: Value) returns (found: set<Reason>)
    ensures forall r :: r in found <==> CoreShows(e, b, y, expectedNonce, r)
  {
    var links := CheckLinks(e, b, y);
    var replay := CheckReplay(y, expectedNonce);
    found := Add(links + replay, Drifted(e, b), TerminalStateDrift);
  }

  method CheckLinks(e: Event, b: Boundary, y: Replay) returns (found: set<Reason>)
    ensures forall r :: r in found <==> match r
      case CoordinatorTransactionMismatch => e.transaction != b.transaction
      case BoundaryEventMissing => e.id !in b.events
      case ReplayTransactionMismatch => !AbsentOr(y.transaction, b.transaction)
      case BoundaryReplayMissing => y.id !in b.replays
      case CoordinatorReplayMissing => y.id !in e.replays
      case ReplayEventMissing => e.id !in y.events
      case _ => false
  {
    found := Add({}, e.transaction != b.transaction, CoordinatorTransactionMismatch);
    found := Add(found, e.id !in b.events, BoundaryEventMissing);
    found := Add(found, !AbsentOr(y.transaction, b.transaction), ReplayTransactionMismatch);
    found := Add(found, y.id !in b.replays, BoundaryReplayMissing);
    found := Add(found, y.id !in e.replays, CoordinatorReplayMissing);
    found := Add(found, e.id !in y.events, ReplayEventMissing);
  }

  method CheckReplay(y: Replay, expectedNonce: Value) returns (found: set<Reason>)
    ensures forall r :: r in found <==> match r
      case ReplayNonceMismatch => expectedNonce != Null && y.nonce != expectedNonce
      case ReplayCanonicalNonceMismatch => !AbsentOr(y.canonicalNonce, y.nonce)
      case ReplayActionTypeMismatch => !AbsentOr(y.canonicalActionType, y.actionType)
      case ReplayToolScopeMismatch => !AbsentOr(y.canonicalToolScope, y.toolScope)
      case _ => false
  {
    found := Add({}, expectedNonce != Null && y.nonce != expectedNonce, ReplayNonceMismatch);
    found := Add(found, !AbsentOr(y.canonicalNonce, y.nonce), ReplayCanonicalNonceMismatch);
    found := Add(found, !AbsentOr(y.canonicalActionType, y.actionType), ReplayActionTypeMismatch);
    found := Add(found, y.canonicalToolScope != Null && y.canonicalToolScope != y.toolScope, ReplayToolScopeMismatch);
  }

  function LedgerIds(ledger: seq<Entry>): (ids: set<Value>)
    ensures forall v :: v in ids <==> exists n :: 0 <= n < |ledger| && ledger[n].id == v
  {
    set n | 0 <= n < |ledger| :: ledger[n].id
  }

  method CheckEntry(c: Chain, entry: Entry) returns (found: set<Reason>)
    ensures forall r :: r in found <==> EntryShows(c, entry, r)
  {
    found := CheckEnvelope(OfLedger, entry.env, c.event.env, false);
    var ids := LedgerIds(c.ledger);
    if !AbsentOr(entry.transaction, c.boundary.transaction) { found := found + {LedgerTransactionMismatch}; }
    if c.replay.id !in entry.replays { found := found + {LedgerReplayMissing}; }
    if c.event.id !in entry.events { found := found + {LedgerEventMissing}; }
    if exists p :: p in entry.parents && p !in ids { found := found + {LedgerParentMissing}; }
    if exists a :: a in entry.artifacts && !Known(c.artifacts, a) { found := found + {LedgerArtifactMissing}; }
  }

  method CheckLedger(c: Chain) returns (found: set<Reason>)
    ensures forall r :: r in found <==> LedgerShows(c, r)
  {
    found := {};
    for n := 0 to |c.ledger|
      invariant forall r :: r in found <==> exists k :: 0 <= k < n && EntryShows(c, c.ledger[k], r)
    {
      var more := CheckEntry(c, c.ledger[n]);
      found := found + more;
    }
  }

  method CheckArtifact(c: Chain, id: string, a: Artifact) returns (found: set<Reason>)
    ensures forall r :: r in found <==> ArtifactShows(c, id, a, r)
  {
    found := CheckEnvelope(OfArtifact, a.env, c.event.env, true);
    var linked := set v | v in LedgerIds(c.ledger) && Truthy(v);
    if !a.noRawContent { found := found + {ArtifactRawContent}; }
    if !a.noSecrets { found := found + {ArtifactSecretMaterial}; }
    if a.id != Text(id) { found := found + {ArtifactIdMismatch}; }
    if linked != {} && Elements(a.entries) * linked == {} { found := found + {ArtifactLedgerMissing}; }
    UnledgeredBySets(c, a, linked);
  }

  lemma UnledgeredBySets(c: Chain, a: Artifact, linked: set<Value>)
    requires forall v :: v in linked <==> v in LedgerIds(c.ledger) && Truthy(v)
    ensures Unledgered(c, a) <==> linked != {} && Elements(a.entries) * linked == {}
  {
    if Unledgered(c, a) {
      var n :| 0 <= n < |c.ledger| && Truthy(c.ledger[n].id);
      assert c.ledger[n].id in linked;
    }
    if linked != {} && Elements(a.entries) * linked == {} {
      var v :| v in linked;
      var n :| 0 <= n < |c.ledger| && c.ledger[n].id == v;
      forall k | 0 <= k < |c.ledger| && Truthy(c.ledger[k].id) ensures c.ledger[k].id !in a.entries {
        assert c.ledger[k].id in linked && c.ledger[k].id !in Elements(a.entries) * linked;
      }
    }
  }

  method CheckArtifacts(c: Chain) returns (found: set<Reason>)
    ensures forall r :: r in found <==> ArtifactsShow(c, r)
  {
    found := {};
    var pending := c.artifacts.Keys;
    while pending != {}
      invariant pending <= c.artifacts.Keys
      invariant forall r :: r in found <==>
        exists id :: id in c.artifacts.Keys - pending && ArtifactShows(c, id, c.artifacts[id], r)
      decreases |pending|
    {
      var id :| id in pending;
      var more := CheckArtifact(c, id, c.artifacts[id]);
      found := found + more;
      pending := pending - {id};
    }
  }

  method CheckManifest(c: Chain, m: Manifest) returns (found: set<Reason>)
    ensures forall r :: r in found <==> ManifestShows(c, m, r)
  {
    var envelope := CheckEnvelope(OfManifest, m.env, c.event.env, false);
    var lists := CheckLists(m);
    var refs := CheckRefs(c, Mentioned(m));
    found := envelope + lists + refs;
  }

  method CheckLists(m: Manifest) returns (found: set<Reason>)
    ensures forall r :: r in found <==> match r
      case ManifestOverlap => exists x :: x in m.included && x in m.excluded
      case ManifestIncludedNonRef => exists x :: x in m.included && x !in m.refs
      case ManifestMissingDeleteConflict => Withheld(m) && !m.deleteConflicts
      case ManifestDeleteConflict => Withheld(m) && m.deleteConflicts
      case _ => false
  {
    found := Add({}, exists x :: x in m.included && x in m.excluded, ManifestOverlap);
    found := Add(found, exists x :: x in m.included && x !in m.refs, ManifestIncludedNonRef);
    if Withheld(m) {
      if !m.deleteConflicts {
        found := found + {ManifestMissingDeleteConflict};
      } else {
        found := found + {ManifestDeleteConflict};
      }
    }
  }

  method CheckRef(c: Chain, ref: Value) returns (found: set<Reason>)
    ensures forall r :: r in found <==> RefShows(c, ref, r)
  {
    if !Known(c.artifacts, ref) {
      return {ManifestUnknownRef};
    }
    var env := c.artifacts[ref.text].env;
    found := Add({}, env.tenant != c.event.env.tenant, ManifestCrossTenant);
    found := Add(found, !AbsentOr(env.context, c.event.env.context), ManifestCrossContext);
  }

  method CheckRefs(c: Chain, refs: set<Value>) returns (found: set<Reason>)
    ensures forall r :: r in found <==> exists x :: x in refs && RefShows(c, x, r)
  {
    found := {};
    var pending := refs;
    while pending != {}
      invariant pending <= refs
      invariant forall r :: r in found <==> exists x :: x in refs - pending && RefShows(c, x, r)
      decreases |pending|
    {
      var x :| x in pending;
      var more := CheckRef(c, x);
      found := found + more;
      pending := pending - {x};
    }
  }

  method CheckDecision(c: Chain, d: Decision) returns (found: set<Reason>)
    ensures forall r :: r in found <==> DecisionShows(c, d, r)
  {
    found := CheckEnvelope(OfDecision, d.env, c.event.env, true);
    if Truthy(c.replay.nonce) && !AbsentOr(d.nonce, c.replay.nonce) { found := found + {GuardianNonceMismatch}; }
    if !AbsentOr(d.actionType, c.replay.actionType) { found := found + {GuardianActionTypeMismatch}; }
    if d.toolScope != Null && d.toolScope != c.replay.toolScope { found := found + {GuardianToolScopeMismatch}; }
    if Truthy(c.replay.bindingId) && !AbsentOr(d.bindingId, c.replay.bindingId) {
      found := found + {GuardianBindingMismatch};
    }
  }

  method CheckBinding(c: Chain, b: Binding) returns (found: set<Reason>)
    ensures forall r :: r in found <==> BindingShows(c, b, r)
  {
    found := CheckEnvelope(OfBinding, b.env, c.event.env, true);
    if Truthy(c.replay.bindingId) && !AbsentOr(b.id, c.replay.bindingId) { found := found + {BindingIdMismatch}; }
    if Truthy(c.replay.actionType) && !AbsentOr(b.actionType, c.replay.actionType) {
      found := found + {BindingActionTypeMismatch};
    }
    if Truthy(c.replay.toolScope) && b.toolScope != Null && b.toolScope != c.replay.toolScope {
      found := found + {BindingToolScopeMismatch};
    }
  }
}
