/** The evidence lifecycle simulator: records, histories and the two reference indexes. */
module EvidenceLifecycle {
  import opened Values
  import N = Numerals

  datatype State =
    | Planned | PreActionRecorded | PostActionRecorded | DenialRecorded | ReplayDenialRecorded
    | FailedClosedRecorded | LedgerLinked | ExportManifestPlanned | Blocked | Rejected | Unknown(name: string)

  predicate Allowed(from: State, to: State) {
    match from
    case Planned =>
      || to.PreActionRecorded? || to.DenialRecorded? || to.ReplayDenialRecorded?
      || to.FailedClosedRecorded? || to.Blocked? || to.Rejected?
    case PreActionRecorded =>
      to.PostActionRecorded? || to.FailedClosedRecorded? || to.Blocked? || to.Rejected?
    case PostActionRecorded => to.LedgerLinked?
    case DenialRecorded => to.LedgerLinked?
    case ReplayDenialRecorded => to.LedgerLinked?
    case FailedClosedRecorded => to.LedgerLinked?
    case LedgerLinked => to.ExportManifestPlanned?
    case _ => false
  }

  datatype Contract = Artifact | Failure | LedgerEntry | ExportManifest

  predicate Accepts(state: State, contract: Contract) {
    match state
    case FailedClosedRecorded => contract.Failure?
    case LedgerLinked => contract.LedgerEntry?
    case ExportManifestPlanned => contract.ExportManifest?
    case Blocked => contract.Artifact? || contract.Failure?
    case Rejected => contract.Artifact? || contract.Failure?
    case Unknown(_) => false
    case _ => contract.Artifact?
  }

  /** An evidence payload. `recordId` is the id field of its contract, empty if missing. */
  datatype Payload = Payload(
    contract: Option<Contract>,
    recordId: string,
    tenant: Value,
    schemaValid: bool,
    rawContent: Option<bool>,
    secretMaterial: Option<bool>,
    chainPosition: int,
    previousId: Value,
    parents: seq<Value>,
    denialRef: Value,
    preActionRefs: seq<Value>,
    postActionRefs: seq<Value>,
    relatedRefs: seq<Value>,
    evidenceRefs: seq<Value>,
    includedRefs: seq<Value>,
    excludedRefs: seq<Value>,
    conflictRefs: seq<Value>,
    ledgerEvidenceId: Value,
    hasReasonCodes: bool,
    hasLinkageReasons: bool,
    failureReason: Value,
    linkageStatus: Value,
    exportStatus: Value,
    exportReviewStatus: Value,
    deleteReviewStatus: Value,
    hasDeleteProof: bool,
    hasExportPackage: bool)

  datatype Error =
    | UnknownEvidence | AlreadyRegistered | UnsupportedContract | SchemaInvalid | TenantRequired
    | IdMismatch | WrongTenant | UnknownState | NotPlanned | SameState | TransitionNotAllowed
    | ContractNotForState | RawOrSecret | RuntimeClaim | MalformedRef | UnknownRequiredRef
    | CrossTenantRef | ChainInconsistent | CrossTenantLinkage | GuardianLinkage | DenialLinkage
    | FailedClosedLinkage | ManifestInconsistent

  datatype Record = Record(tenant: string, state: State, contract: Contract, payload: Payload)

  datatype Entry = Entry(id: string, tenant: string, from: Option<State>, to: State, contract: Contract)

  datatype Sim = Sim(
    counter: nat,
    current: map<string, Record>,
    history: map<string, seq<Entry>>,
    tenantOf: map<string, string>,
    artifacts: map<string, Payload>)

  const START := Sim(0, map[], map[], map[], map[])

  /** `linked` and `manifestOk` are the verdicts of the Guardian, task and approval linkage checks and
      of the export manifest check, which the model does not look into. */
  datatype Call =
    | Register(payload: Payload, initial: State, expected: string)
    | Transition(id: string, to: State, payload: Payload, linked: bool, manifestOk: bool)

  // ----- normalization ---------------------------------------------------------------------------

  function Target(c: Call): string {
    if c.Register? then c.expected else c.id
  }

  function CounterAfter(counter: nat, p: Payload, target: string): nat {
    if p.contract.Some? && p.recordId == "" && target == "" then counter + 1 else counter
  }

  /** The payload after `_normalize_payload` has filled in a missing id. */
  function Normalized(counter: nat, p: Payload, target: string): Payload {
    if p.recordId != "" then p
    else if target != "" then p.(recordId := target)
    else p.(recordId := "sim-evidence-" + N.Pad4(counter + 1))
  }

  function Readable(p: Payload): Outcome<Error> {
    if !p.contract.Some? then Fail(UnsupportedContract)
    else if !p.schemaValid then Fail(SchemaInvalid)
    else Need(IsName(p.tenant), TenantRequired)
  }

  // ----- fail-closed rules -------------------------------------------------------------------------

  /** Every value in the nine evidence reference fields. */
  function AllRefs(p: Payload): seq<Value> {
    (if p.denialRef == Null then [] else [p.denialRef]) + p.preActionRefs + p.postActionRefs + p.parents
    + p.relatedRefs + p.evidenceRefs + p.includedRefs + p.excludedRefs + p.conflictRefs
  }

  predicate Known(known: map<string, string>, v: Value, tenant: string) {
    IsName(v) && v.text in known && known[v.text] == tenant
  }

  predicate AllKnown(known: map<string, string>, refs: seq<Value>, tenant: string) {
    forall v | v in refs :: Known(known, v, tenant)
  }

  /** `_assert_ref_semantics`: the references that must already be known, by target state. */
  predicate RequiredRefsKnown(known: map<string, string>, p: Payload, tenant: string, to: State) {
    && (to.DenialRecorded? || to.ReplayDenialRecorded? ==>
          Known(known, p.denialRef, tenant) && AllKnown(known, p.preActionRefs, tenant))
    && (to.FailedClosedRecorded? ==>
          (IsName(p.denialRef) ==> Known(known, p.denialRef, tenant)) && AllKnown(known, p.evidenceRefs, tenant))
    && (p.contract == Some(Artifact) && p.chainPosition >= 2 ==>
          AllKnown(known, p.parents, tenant) && (IsName(p.previousId) ==> Known(known, p.previousId, tenant)))
    && (p.contract == Some(LedgerEntry) && to.LedgerLinked? ==>
          Known(known, p.ledgerEvidenceId, tenant) && AllKnown(known, p.relatedRefs, tenant))
  }

  predicate NoCrossTenantRefs(known: map<string, string>, p: Payload, tenant: string) {
    forall v | v in AllRefs(p) && v.Text? && v.text in known :: known[v.text] == tenant
  }

  /** `assert_evidence_artifact_chain_consistent` against the simulator's artifacts. The parents are
      compared with the artifacts only when there are any artifacts. */
  predicate ChainConsistent(artifacts: map<string, Payload>, p: Payload) {
    && p.rawContent == Some(false) && p.secretMaterial == Some(false)
    && (p.chainPosition > 1 ==> p.parents != [] && Truthy(p.previousId))
    && (artifacts != map[] ==>
          forall v | v in p.parents :: v.Text? && v.text in artifacts && artifacts[v.text].tenant == p.tenant)
  }

  function ContractRules(artifacts: map<string, Payload>, p: Payload, manifestOk: bool): Outcome<Error> {
    match p.contract
    case Some(Artifact) =>
      if !ChainConsistent(artifacts, p) then Fail(ChainInconsistent)
      else Need(p.linkageStatus != Text("mismatched_tenant"), CrossTenantLinkage)
    case Some(ExportManifest) =>
      if !manifestOk then Fail(ManifestInconsistent)
      else Need(p.linkageStatus != Text("mismatched_tenant"), CrossTenantLinkage)
    case Some(LedgerEntry) => Need(p.linkageStatus != Text("mismatched_tenant"), CrossTenantLinkage)
    case _ => Pass
  }

  predicate ClaimsRuntime(p: Payload) {
    || (p.contract == Some(ExportManifest)
        && (p.exportStatus == Text("exported") || p.exportReviewStatus == Text("exported")
            || p.deleteReviewStatus == Text("approved")))
    || p.hasDeleteProof || p.hasExportPackage
  }

  function FailClosedRules(known: map<string, string>, artifacts: map<string, Payload>, p: Payload, tenant: string,
                           to: State, linked: bool, manifestOk: bool): Outcome<Error> {
    if p.rawContent == Some(true) || p.secretMaterial == Some(true) then Fail(RawOrSecret)
    else if ClaimsRuntime(p) then Fail(RuntimeClaim)
    else if !(forall v | v in AllRefs(p) :: IsEvidenceRef(v)) then Fail(MalformedRef)
    else if !RequiredRefsKnown(known, p, tenant, to) then Fail(UnknownRequiredRef)
    else if !NoCrossTenantRefs(known, p, tenant) then Fail(CrossTenantRef)
    else if ContractRules(artifacts, p, manifestOk).Fail? then ContractRules(artifacts, p, manifestOk)
    else if (to.PreActionRecorded? || to.PostActionRecorded?) && !linked then Fail(GuardianLinkage)
    else if (to.DenialRecorded? || to.ReplayDenialRecorded?)
            && !((p.hasReasonCodes || p.hasLinkageReasons) && (Truthy(p.denialRef) || p.preActionRefs != []))
      then Fail(DenialLinkage)
    else Need(to.FailedClosedRecorded? ==>
           (Truthy(p.failureReason) || p.hasReasonCodes) && (Truthy(p.denialRef) || p.evidenceRefs != []),
         FailedClosedLinkage)
  }

  // ----- the calls ---------------------------------------------------------------------------------

  function RegisterCheck(s: Sim, c: Call): Outcome<Error>
    requires c.Register?
  {
    var p := Normalized(s.counter, c.payload, Target(c));
    if Readable(p).Fail? then Readable(p)
    else if p.recordId in s.current then Fail(AlreadyRegistered)
    else if c.initial.Unknown? then Fail(UnknownState)
    else if c.initial != Planned then Fail(NotPlanned)
    else if !Accepts(c.initial, p.contract.value) then Fail(ContractNotForState)
    else FailClosedRules(s.tenantOf, s.artifacts, p, p.tenant.text, c.initial, false, true)
  }

  function TransitionCheck(s: Sim, c: Call): Outcome<Error>
    requires c.Transition?
  {
    if c.id !in s.current then Fail(UnknownEvidence) else
    var record, p := s.current[c.id], Normalized(s.counter, c.payload, Target(c));
    if Readable(p).Fail? then Readable(p)
    else if p.recordId != c.id then Fail(IdMismatch)
    else if record.tenant != p.tenant.text then Fail(WrongTenant)
    else if record.state.Unknown? || c.to.Unknown? then Fail(UnknownState)
    else if record.state == c.to then Fail(SameState)
    else if !Allowed(record.state, c.to) then Fail(TransitionNotAllowed)
    else if !Accepts(c.to, p.contract.value) then Fail(ContractNotForState)
    else FailClosedRules(s.tenantOf, s.artifacts, p, p.tenant.text, c.to, c.linked, c.manifestOk)
  }

  function Check(s: Sim, c: Call): Outcome<Error> {
    if c.Register? then RegisterCheck(s, c) else TransitionCheck(s, c)
  }

  /** `_track_refs`: an artifact payload enters both indexes under its own id. */
  function Tracked(s: Sim, p: Payload): Sim
    requires p.tenant.Text?
  {
    if p.contract == Some(Artifact) && p.recordId != "" then
      s.(tenantOf := s.tenantOf[p.recordId := p.tenant.text], artifacts := s.artifacts[p.recordId := p])
    else s
  }

  function Placed(s: Sim, id: string, p: Payload, from: Option<State>, to: State): Sim
    requires p.tenant.Text? && p.contract.Some?
  {
    var entry := Entry(id, p.tenant.text, from, to, p.contract.value);
    Tracked(s, p).(
      current := s.current[id := Record(p.tenant.text, to, p.contract.value, p)],
      history := s.history[id := if from.Some? && id in s.history then s.history[id] + [entry] else [entry]])
  }

  /** One call. A refused call may still use up a generated id; it changes nothing else. */
  function Next(s: Sim, c: Call): Sim {
    var known := c.Register? || c.id in s.current;
    var t := if known then s.(counter := CounterAfter(s.counter, c.payload, Target(c))) else s;
    if Check(s, c).Fail? then t
    else if c.Register? then
      var p := Normalized(s.counter, c.payload, Target(c));
      Placed(t, p.recordId, p, None, c.initial)
    else Placed(t, c.id, Normalized(s.counter, c.payload, Target(c)), Some(s.current[c.id].state), c.to)
  }

  function Run(s: Sim, calls: seq<Call>): Sim
    decreases |calls|
  {
    if calls == [] then s else Run(Next(s, calls[0]), calls[1..])
  }

  // ----- the simulator object -----------------------------------------------------------------------

  class EvidenceLifecycleSimulator {
    var counter: nat
    var current: map<string, Record>
    var history: map<string, seq<Entry>>
    var tenantByRef: map<string, string>
    var artifactsById: map<string, Payload>

    function View(): Sim
      reads this
    {
      Sim(counter, current, history, tenantByRef, artifactsById)
    }

    constructor ()
      ensures View() == START
    {
      counter, current, history := 0, map[], map[];
      tenantByRef, artifactsById := map[], map[];
    }

    method NormalizePayload(payload: Payload, expected: string) returns (p: Payload)
      modifies this`counter
      ensures p == Normalized(old(counter), payload, expected)
      ensures counter == CounterAfter(old(counter), payload, expected)
    {
      p := payload;
      if p.recordId == "" && expected != "" {
        p := p.(recordId := expected);
      }
      if p.recordId == "" {
        p := p.(recordId := "sim-evidence-" + N.Pad4(counter + 1));
        if p.contract.Some? {
          counter := counter + 1;
        }
      }
    }

    method TrackRefs(p: Payload)
      requires p.tenant.Text?
      modifies this`tenantByRef, this`artifactsById
      ensures View() == Tracked(old(View()), p)
    {
      if p.contract == Some(Artifact) {
        if p.recordId != "" {
          tenantByRef := tenantByRef[p.recordId := p.tenant.text];
          artifactsById := artifactsById[p.recordId := p];
        }
      }
    }

    method Register(payload: Payload, initial: State, expected: string) returns (o: Outcome<Error>)
      modifies this
      ensures o == Check(old(View()), Call.Register(payload, initial, expected))
      ensures View() == Next(old(View()), Call.Register(payload, initial, expected))
    {
      var p := NormalizePayload(payload, expected);
      o := Readable(p);
      if o.Fail? {
        return;
      }
      if p.recordId in current {
        return Fail(AlreadyRegistered);
      }
      if initial.Unknown? {
        return Fail(UnknownState);
      }
      if initial != Planned {
        return Fail(NotPlanned);
      }
      if !Accepts(initial, p.contract.value) {
        return Fail(ContractNotForState);
      }
      o := FailClosedRules(tenantByRef, artifactsById, p, p.tenant.text, initial, false, true);
      if o.Fail? {
        return;
      }
      TrackRefs(p);
      current := current[p.recordId := Record(p.tenant.text, initial, p.contract.value, p)];
      history := history[p.recordId := [Entry(p.recordId, p.tenant.text, None, initial, p.contract.value)]];
    }

    method Transition(id: string, to: State, payload: Payload, linked: bool, manifestOk: bool)
      returns (o: Outcome<Error>)
      modifies this
      ensures o == Check(old(View()), Call.Transition(id, to, payload, linked, manifestOk))
      ensures View() == Next(old(View()), Call.Transition(id, to, payload, linked, manifestOk))
    {
      if id !in current {
        return Fail(UnknownEvidence);
      }
      var record := current[id];
      var p := NormalizePayload(payload, id);
      o := Readable(p);
      if o.Fail? {
        return;
      }
      if p.recordId != id {
        return Fail(IdMismatch);
      }
      if record.tenant != p.tenant.text {
        return Fail(WrongTenant);
      }
      if record.state.Unknown? || to.Unknown? {
        return Fail(UnknownState);
      }
      if record.state == to {
        return Fail(SameState);
      }
      if !Allowed(record.state, to) {
        return Fail(TransitionNotAllowed);
      }
      if !Accepts(to, p.contract.value) {
        return Fail(ContractNotForState);
      }
      o := FailClosedRules(tenantByRef, artifactsById, p, p.tenant.text, to, linked, manifestOk);
      if o.Fail? {
        return;
      }
      TrackRefs(p);
      current := current[id := Record(p.tenant.text, to, p.contract.value, p)];
      var entry := Entry(id, p.tenant.text, Some(record.state), to, p.contract.value);
      history := history[id := if id in history then history[id] + [entry] else [entry]];
    }
  }
}
