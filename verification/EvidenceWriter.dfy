/** The in-memory evidence writer: an append-only chain of artifacts and a chain of write failures. */
module EvidenceWriter {
  import opened Values
  import N = Numerals
  import E = EvidenceLifecycle

  datatype Artifact = Artifact(
    id: string, tenant: string, subject: string, guardian: string, previous: Option<string>, parents: seq<string>,
    position: nat)

  datatype Failure = Failure(
    id: string, tenant: string, guardian: string, lastArtifact: Option<string>, parents: seq<string>, position: nat)

  /** A dictionary: its keys in the order they were first inserted, and its values. */
  datatype Dict<V> = Dict(order: seq<string>, values: map<string, V>) {
    function Put(key: string, value: V): Dict<V> {
      Dict(if key in values then order else order + [key], values[key := value])
    }

    /** `next(reversed(d))` of a dictionary that may be empty. */
    function Last(): Option<string> {
      if order == [] then None else Some(order[|order| - 1])
    }
  }

  /** `summaryOk`: not longer than 240 characters and without secret-shaped text. `schemaOk`, `failureOk`: the
      schema validator accepts the artifact, the failure record. */
  datatype Request = Request(
    tenant: string, subject: string, guardian: Option<string>, summaryOk: bool, schemaOk: bool, failureOk: bool)

  datatype Refusal = WriteFailed(failureId: string) | NoGuardianDecision | BadSummary | SchemaRefused

  datatype Log = Log(artifacts: Dict<Artifact>, failures: Dict<Failure>, counter: nat)

  const EMPTY: Log := Log(Dict([], map[]), Dict([], map[]), 0)

  function ArtifactId(n: nat): string {
    "ev-phase1a-" + N.Pad4(n)
  }

  function FailureId(n: nat): string {
    "ef-phase1a-" + N.Pad4(n)
  }

  function ParentsOf(previous: Option<string>): seq<string> {
    if previous.Some? && previous.value != "" then [previous.value] else []
  }

  function NextArtifact(l: Log, r: Request): Artifact
    requires r.guardian.Some?
  {
    Artifact(ArtifactId(l.counter + 1), r.tenant, r.subject, r.guardian.value, l.artifacts.Last(),
      ParentsOf(l.artifacts.Last()), |l.artifacts.values| + 1)
  }

  function NextFailure(l: Log, tenant: string, guardian: string): Failure {
    Failure(FailureId(|l.failures.values| + 1), tenant, guardian, l.artifacts.Last(), ParentsOf(l.artifacts.Last()),
      |l.failures.values| + 1)
  }

  function WriteFailure(l: Log, tenant: string, guardian: string, schemaOk: bool): Log {
    if !schemaOk then l else
    var f := NextFailure(l, tenant, guardian);
    l.(failures := l.failures.Put(f.id, f))
  }

  function GuardianOr(guardian: Option<string>): string {
    if guardian.Some? && guardian.value != "" then guardian.value else "gd-evidence-write-failed"
  }

  /** `write_artifact`: a refused artifact has still used up its number. */
  function Write(l: Log, failing: bool, r: Request): (Log, Result<Artifact, Refusal>) {
    if failing then
      var f := NextFailure(l, r.tenant, GuardianOr(r.guardian));
      (WriteFailure(l, r.tenant, GuardianOr(r.guardian), r.failureOk),
       Refused(if r.failureOk then WriteFailed(f.id) else SchemaRefused))
    else if r.guardian.None? then (l, Refused(NoGuardianDecision))
    else if !r.summaryOk then (l, Refused(BadSummary))
    else
      var a := NextArtifact(l, r);
      var counted := l.(counter := l.counter + 1);
      if !r.schemaOk then (counted, Refused(SchemaRefused))
      else (counted.(artifacts := l.artifacts.Put(a.id, a)), Ok(a))
  }

  /** One call on a writer. */
  datatype Call = WriteCall(failing: bool, request: Request) | FailureCall(tenant: string, guardian: string, schemaOk: bool)

  function Next(l: Log, c: Call): Log {
    match c
    case WriteCall(failing, request) => Write(l, failing, request).0
    case FailureCall(tenant, guardian, schemaOk) => WriteFailure(l, tenant, guardian, schemaOk)
  }

  function Run(calls: seq<Call>): Log
    decreases |calls|
  {
    if calls == [] then EMPTY else Next(Run(calls[..|calls| - 1]), calls[|calls| - 1])
  }

  class EvidenceWriter {
    var failWrites: bool
    var artifacts: Dict<Artifact>
    var failures: Dict<Failure>
    var counter: nat

    function State(): Log
      reads this
    {
      Log(artifacts, failures, counter)
    }

    constructor (failWrites: bool)
      ensures State() == EMPTY && this.failWrites == failWrites
    {
      this.failWrites := failWrites;
      artifacts, failures, counter := Dict([], map[]), Dict([], map[]), 0;
    }

    method WriteArtifact(r: Request) returns (outcome: Result<Artifact, Refusal>)
      modifies this
      ensures (State(), outcome) == Write(old(State()), old(failWrites), r) && failWrites == old(failWrites)
      ensures outcome.Ok? <==> !failWrites && r.guardian.Some? && r.summaryOk && r.schemaOk
      ensures outcome.Ok? ==>
        && outcome.value.tenant == r.tenant && outcome.value.subject == r.subject
        && Some(outcome.value.guardian) == r.guardian
    {
      if failWrites {
        var failure := RecordFailure(r.tenant, GuardianOr(r.guardian), r.failureOk);
        return Refused(if failure.Some? then WriteFailed(failure.value.id) else SchemaRefused);
      }
      if r.guardian.None? {
        return Refused(NoGuardianDecision);
      }
      if !r.summaryOk {
        return Refused(BadSummary);
      }
      counter := counter + 1;
      var id := ArtifactId(counter);
      var previous := artifacts.Last();
      var artifact := Artifact(id, r.tenant, r.subject, r.guardian.value, previous, ParentsOf(previous),
                               |artifacts.values| + 1);
      if !r.schemaOk {
        return Refused(SchemaRefused);
      }
      artifacts := artifacts.Put(id, artifact);
      outcome := Ok(artifact);
    }

    method RecordFailure(tenant: string, guardian: string, schemaOk: bool) returns (failure: Option<Failure>)
      modifies this
      ensures State() == WriteFailure(old(State()), tenant, guardian, schemaOk) && failWrites == old(failWrites)
      ensures failure == if schemaOk then Some(NextFailure(old(State()), tenant, guardian)) else None
      ensures failure.Some? ==> failure.value.tenant == tenant && failure.value.guardian == guardian
    {
      if !schemaOk {
        return None;
      }
      var number := |failures.values| + 1;
      var previous := artifacts.Last();
      var record := Failure(FailureId(number), tenant, guardian, previous, ParentsOf(previous), number);
      failures := failures.Put(record.id, record);
      failure := Some(record);
    }

    /** `require_evidence`: every id is known, and every named artifact agrees with what is asked of it. */
    method RequireEvidence(ids: seq<string>, tenant: Option<string>, subject: Option<string>, guardian: Option<string>)
      returns (met: bool)
      ensures met <==> ids != [] && forall id | id in ids ::
        id in artifacts.values && Agrees(artifacts.values[id], tenant, subject, guardian)
    {
      if ids == [] || exists id :: id in ids && id !in artifacts.values {
        return false;
      }
      for n := 0 to |ids|
        invariant forall k | 0 <= k < n :: Agrees(artifacts.values[ids[k]], tenant, subject, guardian)
      {
        var artifact := artifacts.values[ids[n]];
        if tenant.Some? && artifact.tenant != tenant.value {
          return false;
        }
        if subject.Some? && artifact.subject != subject.value {
          return false;
        }
        if guardian.Some? && artifact.guardian != guardian.value {
          return false;
        }
      }
      met := true;
    }
  }

  predicate Agrees(a: Artifact, tenant: Option<string>, subject: Option<string>, guardian: Option<string>) {
    && (tenant.Some? ==> a.tenant == tenant.value)
    && (subject.Some? ==> a.subject == subject.value)
    && (guardian.Some? ==> a.guardian == guardian.value)
  }

  // ----- the chain -----------------------------------------------------------------------------------

  /** The keys are listed once each. */
  ghost predicate Listed<V>(d: Dict<V>) {
    && (forall m, n | 0 <= m < n < |d.order| :: d.order[m] != d.order[n])
    && (forall id :: id in d.values <==> id in d.order)
  }

  predicate LinkedAt(d: Dict<Artifact>, n: nat)
    requires n < |d.order|
  {
    && d.order[n] in d.values
    && var a := d.values[d.order[n]];
      && a.id == d.order[n] && a.id != "" && a.position == n + 1
      && a.previous == (if n == 0 then None else Some(d.order[n - 1]))
      && a.parents == (if n == 0 then [] else [d.order[n - 1]])
  }

  /** The `n`th artifact inserted has position `n + 1` and names the one before it as previous and parent. */
  ghost predicate Chained(d: Dict<Artifact>) {
    Listed(d) && forall n | 0 <= n < |d.order| :: LinkedAt(d, n)
  }

  ghost predicate UsesNumber(id: string, counter: nat) {
    exists n: nat :: n <= counter && id == ArtifactId(n)
  }

  /** Every artifact's number has been counted. */
  ghost predicate Numbered(order: seq<string>, counter: nat) {
    forall k | 0 <= k < |order| :: UsesNumber(order[k], counter)
  }

  /** The `n`th failure has position `n + 1`; as last successful artifact, and as parent, it names an artifact of
      the chain, if there was one. */
  predicate FailureAt(d: Dict<Failure>, known: set<string>, n: nat)
    requires n < |d.order|
  {
    && d.order[n] == FailureId(n + 1) && d.order[n] in d.values
    && var f := d.values[d.order[n]];
      && f.id == d.order[n] && f.position == n + 1
      && f.parents == (if f.lastArtifact.Some? then [f.lastArtifact.value] else [])
      && (f.lastArtifact.Some? ==> f.lastArtifact.value in known)
  }

  ghost predicate FailuresChained(d: Dict<Failure>, known: set<string>) {
    Listed(d) && forall n | 0 <= n < |d.order| :: FailureAt(d, known, n)
  }

  ghost predicate Valid(l: Log) {
    && Chained(l.artifacts) && Numbered(l.artifacts.order, l.counter)
    && FailuresChained(l.failures, l.artifacts.values.Keys)
  }

  lemma IdsDiffer(m: nat, n: nat)
    requires m != n
    ensures ArtifactId(m) != ArtifactId(n) && FailureId(m) != FailureId(n)
  {
    if ArtifactId(m) == ArtifactId(n) || FailureId(m) == FailureId(n) {
      assert ArtifactId(m)[11..] == N.Pad4(m) && ArtifactId(n)[11..] == N.Pad4(n);
      assert FailureId(m)[11..] == N.Pad4(m) && FailureId(n)[11..] == N.Pad4(n);
      N.PadIsInjective(m, n);
    }
  }

  lemma SizeOfListed<V>(d: Dict<V>)
    requires Listed(d)
    ensures |d.values| == |d.order|
  {
    OrderHasAllKeys(d.order, d.values.Keys);
  }

  lemma {:induction false} OrderHasAllKeys(order: seq<string>, keys: set<string>)
    requires forall m, n | 0 <= m < n < |order| :: order[m] != order[n]
    requires forall id :: id in keys <==> id in order
    ensures |keys| == |order|
    decreases |order|
  {
    if order == [] {
      assert keys == {};
    } else {
      var front, last := order[..|order| - 1], order[|order| - 1];
      assert order == front + [last];
      OrderHasAllKeys(front, keys - {last});
    }
  }

  lemma PutFresh<V>(d: Dict<V>, key: string, value: V)
    requires Listed(d) && key !in d.values
    ensures Listed(d.Put(key, value)) && d.Put(key, value).order == d.order + [key]
  {
  }

  lemma NewArtifactId(d: Dict<Artifact>, counter: nat)
    requires Listed(d) && Numbered(d.order, counter)
    ensures ArtifactId(counter + 1) !in d.values
  {
    var id := ArtifactId(counter + 1);
    if id in d.values {
      var k :| 0 <= k < |d.order| && d.order[k] == id;
      var n: nat :| n <= counter && d.order[k] == ArtifactId(n);
      IdsDiffer(n, counter + 1);
    }
  }

  lemma NewFailureId(d: Dict<Failure>, known: set<string>)
    requires FailuresChained(d, known)
    ensures FailureId(|d.order| + 1) !in d.values
  {
    var id := FailureId(|d.order| + 1);
    if id in d.values {
      var n :| 0 <= n < |d.order| && d.order[n] == id;
      assert FailureAt(d, known, n);
      IdsDiffer(n + 1, |d.order| + 1);
    }
  }

  lemma AppendKeepsChain(d: Dict<Artifact>, a: Artifact)
    requires Chained(d) && a.id !in d.values && a.id != "" && a.position == |d.order| + 1
    requires a.previous == d.Last() && a.parents == ParentsOf(d.Last())
    ensures Chained(d.Put(a.id, a)) && d.Put(a.id, a).order == d.order + [a.id]
  {
    var after := d.Put(a.id, a);
    PutFresh(d, a.id, a);
    forall n | 0 <= n < |after.order| ensures LinkedAt(after, n) {
      if n < |d.order| {
        assert LinkedAt(d, n);
      } else if n > 0 {
        assert LinkedAt(d, n - 1);
      }
    }
  }

  lemma CountingKeepsNumbers(order: seq<string>, counter: nat)
    requires Numbered(order, counter)
    ensures Numbered(order, counter + 1) && Numbered(order + [ArtifactId(counter + 1)], counter + 1)
  {
    forall k | 0 <= k < |order| ensures UsesNumber(order[k], counter + 1) {
      var n: nat :| n <= counter && order[k] == ArtifactId(n);
      assert n <= counter + 1;
    }
    assert UsesNumber(ArtifactId(counter + 1), counter + 1);
  }

  lemma KnowingMoreKeepsFailures(d: Dict<Failure>, known: set<string>, more: set<string>)
    requires FailuresChained(d, known) && known <= more
    ensures FailuresChained(d, more)
  {
    forall n | 0 <= n < |d.order| ensures FailureAt(d, more, n) {
      assert FailureAt(d, known, n);
    }
  }

  lemma AppendKeepsFailures(d: Dict<Failure>, known: set<string>, f: Failure)
    requires FailuresChained(d, known) && f.id == FailureId(|d.order| + 1) && f.position == |d.order| + 1
    requires f.parents == (if f.lastArtifact.Some? then [f.lastArtifact.value] else [])
    requires f.lastArtifact.Some? ==> f.lastArtifact.value in known
    ensures FailuresChained(d.Put(f.id, f), known) && f.id !in d.values
  {
    NewFailureId(d, known);
    PutFresh(d, f.id, f);
    forall n | 0 <= n < |d.order| ensures FailureAt(d.Put(f.id, f), known, n) {
      OldFailureStays(d, known, f, n);
    }
    NewFailureStands(d, known, f);
  }

  lemma OldFailureStays(d: Dict<Failure>, known: set<string>, f: Failure, n: nat)
    requires n < |d.order| && FailureAt(d, known, n) && f.id !in d.values
    ensures FailureAt(d.Put(f.id, f), known, n)
  {
  }

  lemma NewFailureStands(d: Dict<Failure>, known: set<string>, f: Failure)
    requires f.id !in d.values && f.id == FailureId(|d.order| + 1) && f.position == |d.order| + 1
    requires f.parents == (if f.lastArtifact.Some? then [f.lastArtifact.value] else [])
    requires f.lastArtifact.Some? ==> f.lastArtifact.value in known
    ensures FailureAt(d.Put(f.id, f), known, |d.order|)
  {
  }

  lemma AppendKeepsValid(l: Log, a: Artifact)
    requires Valid(l) && a.id == ArtifactId(l.counter + 1) && a.id !in l.artifacts.values && a.id != ""
    requires a.position == |l.artifacts.order| + 1
    requires a.previous == l.artifacts.Last() && a.parents == ParentsOf(l.artifacts.Last())
    ensures Valid(l.(counter := l.counter + 1, artifacts := l.artifacts.Put(a.id, a)))
  {
    var d := l.artifacts.Put(a.id, a);
    AppendKeepsChain(l.artifacts, a);
    CountingKeepsNumbers(l.artifacts.order, l.counter);
    KnowingMoreKeepsFailures(l.failures, l.artifacts.values.Keys, d.values.Keys);
  }

  lemma NextArtifactShape(l: Log, r: Request)
    requires Listed(l.artifacts) && r.guardian.Some?
    ensures var a := NextArtifact(l, r);
      && a.id == ArtifactId(l.counter + 1) && a.id != "" && a.position == |l.artifacts.order| + 1
      && a.previous == l.artifacts.Last() && a.parents == ParentsOf(l.artifacts.Last())
  {
    SizeOfListed(l.artifacts);
  }

  lemma WritingKeepsValid(l: Log, r: Request)
    requires Valid(l) && r.guardian.Some?
    ensures var a := NextArtifact(l, r);
      Valid(l.(counter := l.counter + 1, artifacts := l.artifacts.Put(a.id, a))) && a.id !in l.artifacts.values
  {
    NewArtifactId(l.artifacts, l.counter);
    NextArtifactShape(l, r);
    AppendKeepsValid(l, NextArtifact(l, r));
  }

  lemma FailingKeepsValid(l: Log, tenant: string, guardian: string)
    requires Valid(l)
    ensures Valid(WriteFailure(l, tenant, guardian, true)) && NextFailure(l, tenant, guardian).id !in l.failures.values
  {
    SizeOfListed(l.failures);
    if l.artifacts.order != [] {
      assert LinkedAt(l.artifacts, |l.artifacts.order| - 1);
    }
    AppendKeepsFailures(l.failures, l.artifacts.values.Keys, NextFailure(l, tenant, guardian));
  }

  lemma NextKeepsValid(l: Log, c: Call)
    requires Valid(l)
    ensures Valid(Next(l, c))
  {
    match c
    case FailureCall(tenant, guardian, schemaOk) =>
      FailingKeepsValid(l, tenant, guardian);
    case WriteCall(failing, r) =>
      CountingKeepsNumbers(l.artifacts.order, l.counter);
      if failing {
        FailingKeepsValid(l, r.tenant, GuardianOr(r.guardian));
      } else if r.guardian.Some? {
        WritingKeepsValid(l, r);
      }
  }

  /** When writes fail, the failure is recorded, last, for the request's tenant and decision, a stand-in taking the place
      of a decision that is not named, and the refusal names that record. */
  lemma FailedWriteIsRecorded(l: Log, r: Request)
    requires Valid(l) && r.failureOk
    ensures var (after, outcome) := Write(l, true, r);
      && outcome.Refused? && outcome.error.WriteFailed?
      && after.artifacts == l.artifacts && after.counter == l.counter
      && after.failures.order == l.failures.order + [outcome.error.failureId]
      && outcome.error.failureId in after.failures.values
      && var f := after.failures.values[outcome.error.failureId];
         f.tenant == r.tenant
         && f.guardian == (if r.guardian == None || r.guardian == Some("") then "gd-evidence-write-failed" else r.guardian.value)
  {
    FailingKeepsValid(l, r.tenant, GuardianOr(r.guardian));
  }

  /** After any calls, refused and failed ones included, the artifacts form one chain and so do the failures. */
  lemma {:induction false} RunKeepsValid(calls: seq<Call>)
    ensures Valid(Run(calls))
    decreases |calls|
  {
    if calls != [] {
      RunKeepsValid(calls[..|calls| - 1]);
      NextKeepsValid(Run(calls[..|calls| - 1]), calls[|calls| - 1]);
    }
  }

  /** How many of the calls meet the condition. */
  function Count(calls: seq<Call>, meets: Call -> bool): nat
    decreases |calls|
  {
    if calls == [] then 0
    else Count(calls[..|calls| - 1], meets) + if meets(calls[|calls| - 1]) then 1 else 0
  }

  predicate TakesNumber(c: Call) {
    c.WriteCall? && !c.failing && c.request.guardian.Some? && c.request.summaryOk
  }

  predicate Stores(c: Call) {
    TakesNumber(c) && c.request.schemaOk
  }

  predicate Fails(c: Call) {
    if c.WriteCall? then c.failing && c.request.failureOk else c.schemaOk
  }

  /** After any calls there are as many artifacts as calls that could store one, as many failures as calls that could
      record one, and the counter has gone up once for every artifact that was numbered, stored or not. */
  lemma {:induction false} EveryCallIsCounted(calls: seq<Call>)
    ensures |Run(calls).artifacts.order| == Count(calls, c => Stores(c))
    ensures |Run(calls).failures.order| == Count(calls, c => Fails(c))
    ensures Run(calls).counter == Count(calls, c => TakesNumber(c))
    decreases |calls|
  {
    if calls != [] {
      EveryCallIsCounted(calls[..|calls| - 1]);
      RunKeepsValid(calls[..|calls| - 1]);
      NextCounts(Run(calls[..|calls| - 1]), calls[|calls| - 1]);
    }
  }

  lemma NextCounts(l: Log, c: Call)
    requires Valid(l)
    ensures |Next(l, c).artifacts.order| == |l.artifacts.order| + if Stores(c) then 1 else 0
    ensures |Next(l, c).failures.order| == |l.failures.order| + if Fails(c) then 1 else 0
    ensures Next(l, c).counter == l.counter + if TakesNumber(c) then 1 else 0
  {
    match c
    case FailureCall(tenant, guardian, schemaOk) =>
      FailingKeepsValid(l, tenant, guardian);
    case WriteCall(failing, r) =>
      if failing {
        FailingKeepsValid(l, r.tenant, GuardianOr(r.guardian));
      } else if r.guardian.Some? {
        WritingKeepsValid(l, r);
      }
  }

  /** Nothing written is ever changed or removed: the order before a call is a prefix of the order after. */
  lemma NextOnlyAppends(l: Log, c: Call)
    requires Valid(l)
    ensures l.artifacts.order <= Next(l, c).artifacts.order
    ensures l.failures.order <= Next(l, c).failures.order
    ensures forall id | id in l.artifacts.values ::
      id in Next(l, c).artifacts.values && Next(l, c).artifacts.values[id] == l.artifacts.values[id]
    ensures forall id | id in l.failures.values ::
      id in Next(l, c).failures.values && Next(l, c).failures.values[id] == l.failures.values[id]
  {
    match c
    case FailureCall(tenant, guardian, schemaOk) =>
      FailingKeepsValid(l, tenant, guardian);
    case WriteCall(failing, r) =>
      if failing {
        FailingKeepsValid(l, r.tenant, GuardianOr(r.guardian));
      } else if r.guardian.Some? {
        WritingKeepsValid(l, r);
      }
  }

  // ----- the separate check of chains ----------------------------------------------------------------

  /** The fields of a written artifact that the chain-consistency check reads. */
  function AsPayload(a: Artifact): E.Payload {
    E.Payload(Some(E.Artifact), a.id, Text(a.tenant), true, Some(false), Some(false), a.position,
      if a.previous.Some? then Text(a.previous.value) else Null,
      seq(|a.parents|, n requires 0 <= n < |a.parents| => Text(a.parents[n])),
      Null, [], [], [], [], [], [], [], Null, false, false, Null, Null, Null, Null, Null, false, false)
  }

  function AsPayloads(l: Log): map<string, E.Payload> {
    map id | id in l.artifacts.values :: AsPayload(l.artifacts.values[id])
  }

  ghost predicate OneTenant(l: Log) {
    forall m, n | 0 <= m < |l.artifacts.order| && 0 <= n < |l.artifacts.order| :: TenantAt(l, m) == TenantAt(l, n)
  }

  function TenantAt(l: Log, n: nat): string {
    if n < |l.artifacts.order| && l.artifacts.order[n] in l.artifacts.values
    then l.artifacts.values[l.artifacts.order[n]].tenant else ""
  }

  lemma LinkPassesCheck(l: Log, n: nat)
    requires Chained(l.artifacts) && n < |l.artifacts.order|
    ensures l.artifacts.order[n] in AsPayloads(l)
    ensures E.ChainConsistent(AsPayloads(l), AsPayloads(l)[l.artifacts.order[n]]) <==>
      n == 0 || TenantAt(l, n - 1) == TenantAt(l, n)
  {
    var d := l.artifacts;
    assert LinkedAt(d, n);
    if n > 0 {
      assert LinkedAt(d, n - 1);
      ParentDecides(AsPayloads(l), AsPayload(d.values[d.order[n]]), d.order[n - 1]);
    } else {
      assert AsPayload(d.values[d.order[n]]).parents == [];
    }
  }

  lemma ParentDecides(artifacts: map<string, E.Payload>, p: E.Payload, parent: string)
    requires p.rawContent == Some(false) && p.secretMaterial == Some(false) && parent in artifacts
    requires p.parents == [Text(parent)] && Truthy(p.previousId)
    ensures E.ChainConsistent(artifacts, p) <==> artifacts[parent].tenant == p.tenant
  {
    assert Text(parent) in p.parents;
  }

  lemma {:induction false} SameNeighboursSameTenant(l: Log, m: nat, n: nat)
    requires m <= n < |l.artifacts.order|
    requires forall k | 0 < k < |l.artifacts.order| :: TenantAt(l, k - 1) == TenantAt(l, k)
    ensures TenantAt(l, m) == TenantAt(l, n)
    decreases n
  {
    if m < n {
      SameNeighboursSameTenant(l, m, n - 1);
    }
  }

  /** Every artifact passes the chain-consistency check against the writer's own artifacts exactly when all of
      them were written for one tenant. */
  lemma ChainsCheckExactlyWhen(calls: seq<Call>)
    ensures var l := Run(calls);
      (forall id | id in AsPayloads(l) :: E.ChainConsistent(AsPayloads(l), AsPayloads(l)[id])) <==> OneTenant(l)
  {
    RunKeepsValid(calls);
    ChainChecksExactlyWhen(Run(calls));
  }

  lemma ChainChecksExactlyWhen(l: Log)
    requires Chained(l.artifacts)
    ensures (forall id | id in AsPayloads(l) :: E.ChainConsistent(AsPayloads(l), AsPayloads(l)[id])) <==> OneTenant(l)
  {
    var order, all := l.artifacts.order, AsPayloads(l);
    if forall id | id in all :: E.ChainConsistent(all, all[id]) {
      forall k | 0 < k < |order| ensures TenantAt(l, k - 1) == TenantAt(l, k) {
        LinkPassesCheck(l, k);
      }
      forall m, n | 0 <= m < |order| && 0 <= n < |order| ensures TenantAt(l, m) == TenantAt(l, n) {
        SameNeighboursSameTenant(l, 0, m);
        SameNeighboursSameTenant(l, 0, n);
      }
    }
    if OneTenant(l) {
      forall id | id in all ensures E.ChainConsistent(all, all[id]) {
        var n :| 0 <= n < |order| && order[n] == id;
        LinkPassesCheck(l, n);
      }
    }
  }
}
