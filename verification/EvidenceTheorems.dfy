/** What every run of the evidence lifecycle simulator keeps, and exactly when the ancestor chains
    stay known and inside one tenant. */
module EvidenceTheorems {
  import opened Values
  import opened EvidenceLifecycle

  // ----- indexes and histories ----------------------------------------------------------------------

  function Rank(state: State): nat {
    match state
    case Planned => 5
    case PreActionRecorded => 4
    case PostActionRecorded => 3
    case DenialRecorded => 3
    case ReplayDenialRecorded => 3
    case FailedClosedRecorded => 3
    case LedgerLinked => 2
    case _ => 1
  }

  predicate Recorded(state: State) {
    state.PostActionRecorded? || state.DenialRecorded? || state.ReplayDenialRecorded? || state.FailedClosedRecorded?
  }

  predicate ProperHistory(h: seq<Entry>, id: string, tenant: string, state: State) {
    && 1 <= |h| && |h| + Rank(state) <= 6
    && h[0].from == None && h[0].to == Planned && h[|h| - 1].to == state
    && (forall i | 0 < i < |h| ::
          h[i].from == Some(h[i - 1].to) && Allowed(h[i - 1].to, h[i].to) && Rank(h[i].to) < Rank(h[i - 1].to))
    && (forall i | 0 <= i < |h| :: h[i].id == id && h[i].tenant == tenant)
  }

  predicate EvidenceKept(s: Sim, id: string)
    requires id in s.current && id in s.history && id in s.tenantOf && id in s.artifacts
  {
    && s.current[id].tenant != ""
    && s.tenantOf[id] == s.current[id].tenant && s.artifacts[id].tenant == Text(s.current[id].tenant)
    && ProperHistory(s.history[id], id, s.current[id].tenant, s.current[id].state)
  }

  predicate SameKeys(s: Sim) {
    s.history.Keys == s.current.Keys && s.tenantOf.Keys == s.current.Keys && s.artifacts.Keys == s.current.Keys
  }

  ghost predicate Valid(s: Sim) {
    && SameKeys(s)
    && forall id | id in s.current :: EvidenceKept(s, id)
  }

  // ----- ancestor chains ----------------------------------------------------------------------------

  /** Every parent of a stored artifact is stored, in the same tenant. */
  predicate Closed(artifacts: map<string, Payload>) {
    forall id, v | id in artifacts && v in artifacts[id].parents ::
      v.Text? && v.text in artifacts && artifacts[v.text].tenant == artifacts[id].tenant
  }

  predicate IsChain(artifacts: map<string, Payload>, path: seq<string>) {
    forall i | 0 <= i < |path| - 1 :: path[i] in artifacts && Text(path[i + 1]) in artifacts[path[i]].parents
  }

  /** In a closed state every ancestor chain, of any length, stays known and inside one tenant. */
  lemma {:induction false} ChainsStayInTenant(artifacts: map<string, Payload>, path: seq<string>, k: nat)
    requires Closed(artifacts) && IsChain(artifacts, path)
    requires k < |path| && path[0] in artifacts
    ensures path[k] in artifacts && artifacts[path[k]].tenant == artifacts[path[0]].tenant
  {
    if k > 0 {
      ChainsStayInTenant(artifacts, path, k - 1);
      assert Text(path[k - 1 + 1]) in artifacts[path[k - 1]].parents;
    }
  }

  // ----- accepted calls -----------------------------------------------------------------------------

  /** What an accepted call establishes about the payload it stores under `id`. */
  predicate Storable(s: Sim, id: string, p: Payload, from: Option<State>, to: State) {
    && IsName(p.tenant) && p.contract.Some? && p.recordId == id && id != ""
    && (from.None? ==> id !in s.current && to == Planned && p.contract == Some(Artifact))
    && (from.Some? ==> id in s.current && s.current[id].state == from.value
                       && s.current[id].tenant == p.tenant.text && Allowed(from.value, to))
    && (p.contract == Some(Artifact) ==> ChainConsistent(s.artifacts, p))
  }

  lemma AcceptedCall(s: Sim, c: Call)
    requires Check(s, c).Pass?
    ensures var p := Normalized(s.counter, c.payload, Target(c));
            if c.Register? then Storable(s, p.recordId, p, None, c.initial)
            else c.id in s.current && (c.id != "" ==> Storable(s, c.id, p, Some(s.current[c.id].state), c.to))
  {
  }

  lemma HistoryExtends(h: seq<Entry>, e: Entry, state: State)
    requires ProperHistory(h, e.id, e.tenant, state) && e.from == Some(state) && Allowed(state, e.to)
    ensures ProperHistory(h + [e], e.id, e.tenant, e.to)
  {
  }

  lemma PlacedKeepsOne(s: Sim, id: string, p: Payload, from: Option<State>, to: State)
    requires Storable(s, id, p, from, to)
    requires from.Some? ==>
      id in s.history && id in s.tenantOf && id in s.artifacts && EvidenceKept(s, id)
    ensures var t := Placed(s, id, p, from, to); id in t.tenantOf && id in t.artifacts && EvidenceKept(t, id)
  {
    var e := Entry(id, p.tenant.text, from, to, p.contract.value);
    if from.Some? {
      HistoryExtends(s.history[id], e, from.value);
    } else {
      assert ProperHistory([e], id, p.tenant.text, to);
    }
  }

  lemma PlacedKeepsOther(s: Sim, id: string, p: Payload, from: Option<State>, to: State, other: string)
    requires p.tenant.Text? && p.contract.Some? && p.recordId == id && other != id
    requires other in s.current && other in s.history && other in s.tenantOf && other in s.artifacts
    requires EvidenceKept(s, other)
    ensures var t := Placed(s, id, p, from, to);
            other in t.current && other in t.history && other in t.tenantOf && other in t.artifacts
            && EvidenceKept(t, other)
  {
    var t := Placed(s, id, p, from, to);
    assert t.history[other] == s.history[other] && t.current[other] == s.current[other];
    assert t.tenantOf[other] == s.tenantOf[other] && t.artifacts[other] == s.artifacts[other];
  }

  lemma PlacedKeepsKeys(s: Sim, id: string, p: Payload, from: Option<State>, to: State)
    requires SameKeys(s) && Storable(s, id, p, from, to)
    ensures SameKeys(Placed(s, id, p, from, to))
    ensures Placed(s, id, p, from, to).current.Keys == s.current.Keys + {id}
  {
  }

  lemma PlacedKeepsValid(s: Sim, id: string, p: Payload, from: Option<State>, to: State)
    requires Valid(s) && Storable(s, id, p, from, to)
    ensures Valid(Placed(s, id, p, from, to))
  {
    var t := Placed(s, id, p, from, to);
    PlacedKeepsOne(s, id, p, from, to);
    PlacedKeepsKeys(s, id, p, from, to);
    forall i | i in t.current && i != id ensures EvidenceKept(t, i) {
      PlacedKeepsOther(s, id, p, from, to, i);
    }
  }

  lemma UpdateKeepsClosed(a: map<string, Payload>, id: string, p: Payload)
    requires Closed(a) && a != map[] && ChainConsistent(a, p)
    requires id in a ==> a[id].tenant == p.tenant
    ensures Closed(a[id := p])
  {
  }

  lemma PlacedKeepsClosed(s: Sim, id: string, p: Payload, from: Option<State>, to: State)
    requires Valid(s) && Storable(s, id, p, from, to)
    requires Closed(s.artifacts) && s.artifacts != map[]
    ensures Closed(Placed(s, id, p, from, to).artifacts)
  {
    if p.contract == Some(Artifact) {
      if id in s.current {
        assert EvidenceKept(s, id);
      }
      UpdateKeepsClosed(s.artifacts, id, p);
    }
  }

  ghost predicate NamesNonEmpty(s: Sim) {
    "" !in s.current
  }

  lemma CounterIsFree(s: Sim, n: nat)
    requires Valid(s)
    ensures Valid(s.(counter := n))
  {
    forall id | id in s.current ensures EvidenceKept(s.(counter := n), id) {
      assert EvidenceKept(s, id);
    }
  }

  lemma PlacedKeepsAll(s: Sim, id: string, p: Payload, from: Option<State>, to: State)
    requires Valid(s) && NamesNonEmpty(s) && Storable(s, id, p, from, to)
    ensures var t := Placed(s, id, p, from, to);
            && Valid(t) && NamesNonEmpty(t) && id in t.artifacts
            && (Closed(s.artifacts) && s.artifacts != map[] ==> Closed(t.artifacts))
  {
    PlacedKeepsKeys(s, id, p, from, to);
    PlacedKeepsValid(s, id, p, from, to);
    if Closed(s.artifacts) && s.artifacts != map[] {
      PlacedKeepsClosed(s, id, p, from, to);
    }
  }

  /** A call either is refused, and moves at most the counter, or stores one payload. */
  ghost predicate Stores(s: Sim, t: Sim, id: string, p: Payload, from: Option<State>, to: State) {
    Storable(s, id, p, from, to) && t == Placed(s, id, p, from, to)
  }

  lemma CallShape(s: Sim, c: Call)
    requires NamesNonEmpty(s)
    ensures var u, t := s.(counter := Next(s, c).counter), Next(s, c);
            t == u || exists id, p, from, to :: Stores(u, t, id, p, from, to)
  {
    if Check(s, c).Pass? {
      AcceptedCall(s, c);
      var p := Normalized(s.counter, c.payload, Target(c));
      var u := s.(counter := Next(s, c).counter);
      if c.Register? {
        assert Stores(u, Next(s, c), p.recordId, p, None, c.initial);
      } else {
        assert Stores(u, Next(s, c), c.id, p, Some(s.current[c.id].state), c.to);
      }
    }
  }

  lemma StepKeepsValid(s: Sim, t: Sim)
    requires Valid(s) && NamesNonEmpty(s)
    requires t == s || exists id, p, from, to :: Stores(s, t, id, p, from, to)
    ensures Valid(t) && NamesNonEmpty(t)
    ensures s.artifacts != map[] ==> t.artifacts != map[]
    ensures Closed(s.artifacts) && s.artifacts != map[] ==> Closed(t.artifacts)
  {
    if t != s {
      var id, p, from, to :| Stores(s, t, id, p, from, to);
      PlacedKeepsAll(s, id, p, from, to);
    }
  }

  lemma NextKeepsValid(s: Sim, c: Call)
    requires Valid(s) && NamesNonEmpty(s)
    ensures Valid(Next(s, c)) && NamesNonEmpty(Next(s, c))
    ensures s.artifacts != map[] ==> Next(s, c).artifacts != map[]
    ensures Closed(s.artifacts) && s.artifacts != map[] ==> Closed(Next(s, c).artifacts)
  {
    CallShape(s, c);
    CounterIsFree(s, Next(s, c).counter);
    StepKeepsValid(s.(counter := Next(s, c).counter), Next(s, c));
  }

  lemma {:induction false} RunKeepsValid(s: Sim, calls: seq<Call>)
    requires Valid(s) && NamesNonEmpty(s)
    ensures Valid(Run(s, calls)) && NamesNonEmpty(Run(s, calls))
    decreases |calls|
  {
    if calls != [] {
      NextKeepsValid(s, calls[0]);
      RunKeepsValid(Next(s, calls[0]), calls[1..]);
    }
  }

  // ----- main results -------------------------------------------------------------------------------

  /** In every reachable state the records and both indexes have the same ids and agree on tenants;
      every history is a path of the transition table from `planned` with strictly falling rank, so at
      most five entries; and ledger-linked evidence passed one of the four recorded states. */
  lemma IndexesAndHistories(calls: seq<Call>, id: string)
    ensures var s := Run(START, calls);
            s.tenantOf.Keys == s.current.Keys && s.artifacts.Keys == s.current.Keys && s.history.Keys == s.current.Keys
    ensures var s := Run(START, calls);
            id in s.current ==>
              && s.tenantOf[id] == s.current[id].tenant && s.artifacts[id].tenant == Text(s.current[id].tenant)
              && ProperHistory(s.history[id], id, s.current[id].tenant, s.current[id].state)
              && |s.history[id]| <= 5
              && (s.current[id].state.LedgerLinked? || s.current[id].state.ExportManifestPlanned? ==>
                    exists i :: 0 <= i < |s.history[id]| && Recorded(s.history[id][i].to))
  {
    RunKeepsValid(START, calls);
    var s := Run(START, calls);
    if id in s.current {
      assert EvidenceKept(s, id);
      LinkedWasRecorded(s.history[id], id, s.current[id].tenant, s.current[id].state);
    }
  }

  lemma LinkedWasRecorded(h: seq<Entry>, id: string, tenant: string, state: State)
    requires ProperHistory(h, id, tenant, state)
    ensures state.LedgerLinked? || state.ExportManifestPlanned? ==>
      exists i :: 0 <= i < |h| && Recorded(h[i].to)
  {
    if state.LedgerLinked? {
      assert Recorded(h[|h| - 2].to);
    } else if state.ExportManifestPlanned? {
      assert h[|h| - 2].to.LedgerLinked?;
      assert Recorded(h[|h| - 3].to);
    }
  }

  /** An id's tenant never changes. */
  lemma {:induction false} TenantNeverChanges(s: Sim, calls: seq<Call>, id: string)
    requires Valid(s) && NamesNonEmpty(s) && id in s.current
    ensures var t := Run(s, calls);
            && id in t.current && id in t.tenantOf
            && t.current[id].tenant == s.current[id].tenant && t.tenantOf[id] == s.tenantOf[id]
    decreases |calls|
  {
    RunKeepsValid(s, calls);
    assert EvidenceKept(s, id);
    assert EvidenceKept(Run(s, calls), id) by {
      TenantSurvives(s, calls, id);
    }
    TenantSurvives(s, calls, id);
  }

  lemma TenantSurvivesOne(s: Sim, c: Call, id: string)
    requires id in s.current && "" !in s.current
    ensures id in Next(s, c).current && Next(s, c).current[id].tenant == s.current[id].tenant
  {
    if Check(s, c).Pass? {
      AcceptedCall(s, c);
    }
  }

  lemma {:induction false} TenantSurvives(s: Sim, calls: seq<Call>, id: string)
    requires Valid(s) && NamesNonEmpty(s) && id in s.current
    ensures id in Run(s, calls).current && Run(s, calls).current[id].tenant == s.current[id].tenant
    decreases |calls|
  {
    if calls != [] {
      NextKeepsValid(s, calls[0]);
      TenantSurvivesOne(s, calls[0], id);
      TenantSurvives(Next(s, calls[0]), calls[1..], id);
    }
  }

  // ----- exactly when the chains stay closed -----------------------------------------------------------

  /** Every state of the run, from `s` on, has closed chains. */
  predicate AlwaysClosed(s: Sim, calls: seq<Call>)
    decreases |calls|
  {
    Closed(s.artifacts) && (calls != [] ==> AlwaysClosed(Next(s, calls[0]), calls[1..]))
  }

  /** The first artifact the run registers names no parent other than itself. */
  predicate FirstNamesNoParent(s: Sim, calls: seq<Call>)
    decreases |calls|
  {
    calls != [] ==>
      if Check(s, calls[0]).Pass? then
        var p := Normalized(s.counter, calls[0].payload, Target(calls[0]));
        forall v | v in p.parents :: v == Text(p.recordId)
      else FirstNamesNoParent(Next(s, calls[0]), calls[1..])
  }

  lemma {:induction false} NonEmptyStaysClosed(s: Sim, calls: seq<Call>)
    requires Valid(s) && NamesNonEmpty(s) && s.artifacts != map[] && Closed(s.artifacts)
    ensures AlwaysClosed(s, calls)
    decreases |calls|
  {
    if calls != [] {
      NextKeepsValid(s, calls[0]);
      NonEmptyStaysClosed(Next(s, calls[0]), calls[1..]);
    }
  }

  lemma FirstArtifact(s: Sim, c: Call)
    requires Valid(s) && s.current == map[] && Check(s, c).Pass?
    ensures var p := Normalized(s.counter, c.payload, Target(c));
            && Next(s, c).artifacts == map[p.recordId := p]
            && (Closed(Next(s, c).artifacts) <==> forall v | v in p.parents :: v == Text(p.recordId))
  {
    AcceptedCall(s, c);
    var p := Normalized(s.counter, c.payload, Target(c));
    assert s.artifacts.Keys == {};
    assert s.artifacts == map[];
    var a := map[p.recordId := p];
    if Closed(a) {
      forall v | v in p.parents ensures v == Text(p.recordId) {
        assert p.recordId in a && v in a[p.recordId].parents && v.text in a;
      }
    }
  }

  /** From an empty simulator the ancestor chains stay known and inside one tenant in every state of
      the run if and only if the first artifact registered names no parent other than itself. */
  lemma {:induction false} ChainsClosedExactlyWhen(s: Sim, calls: seq<Call>)
    requires Valid(s) && s.current == map[]
    ensures AlwaysClosed(s, calls) <==> FirstNamesNoParent(s, calls)
    decreases |calls|
  {
    assert s.artifacts.Keys == {};
    if calls != [] {
      var t := Next(s, calls[0]);
      NextKeepsValid(s, calls[0]);
      if Check(s, calls[0]).Pass? {
        FirstArtifact(s, calls[0]);
        if Closed(t.artifacts) {
          NonEmptyStaysClosed(t, calls[1..]);
        }
      } else {
        ChainsClosedExactlyWhen(t, calls[1..]);
      }
    }
  }

  /** Along every run whose first artifact names no other parent, every ancestor chain from a stored
      artifact, of any length, is known and has one tenant. */
  lemma AncestorsStayInTenant(calls: seq<Call>, path: seq<string>, k: nat)
    requires FirstNamesNoParent(START, calls)
    requires k < |path| && path[0] in Run(START, calls).artifacts && IsChain(Run(START, calls).artifacts, path)
    ensures var a := Run(START, calls).artifacts;
            path[k] in a && a[path[k]].tenant == a[path[0]].tenant
  {
    ChainsClosedExactlyWhen(START, calls);
    ClosedAtTheEnd(START, calls);
    ChainsStayInTenant(Run(START, calls).artifacts, path, k);
  }

  lemma {:induction false} ClosedAtTheEnd(s: Sim, calls: seq<Call>)
    requires AlwaysClosed(s, calls)
    ensures Closed(Run(s, calls).artifacts)
    decreases |calls|
  {
    if calls != [] {
      ClosedAtTheEnd(Next(s, calls[0]), calls[1..]);
    }
  }

  const FIRST_SAMPLE := Payload(
    Some(Artifact), "ev-a", Text("tenant-1"), true, Some(false), Some(false), 1, Null, [Text("ev-b")],
    Null, [], [], [], [], [], [], [], Null, false, false, Null, Null, Null, Null, Null, false, false)

  const SECOND_SAMPLE := FIRST_SAMPLE.(recordId := "ev-b", tenant := Text("tenant-2"), parents := [])

  lemma SampleAccepted(s: Sim, p: Payload)
    requires || (s == START && p == FIRST_SAMPLE)
             || (s == Placed(START, "ev-a", FIRST_SAMPLE, None, Planned) && p == SECOND_SAMPLE)
    ensures Next(s, Register(p, Planned, "")) == Placed(s, p.recordId, p, None, Planned)
  {
    assert "ev-" <= "ev-b";
    assert AllRefs(FIRST_SAMPLE) == [Text("ev-b")] && AllRefs(SECOND_SAMPLE) == [];
  }

  /** The condition matters: a first artifact may name a parent that is registered afterwards, by
      another tenant, and its chain then crosses tenants. */
  lemma UnknownFirstParentCrossesTenants()
    ensures var a := Run(START, [Register(FIRST_SAMPLE, Planned, ""), Register(SECOND_SAMPLE, Planned, "")]).artifacts;
            && "ev-a" in a && "ev-b" in a && IsChain(a, ["ev-a", "ev-b"]) && a["ev-a"].tenant != a["ev-b"].tenant
  {
    var first, second := Register(FIRST_SAMPLE, Planned, ""), Register(SECOND_SAMPLE, Planned, "");
    SampleAccepted(START, FIRST_SAMPLE);
    var s1 := Next(START, first);
    SampleAccepted(s1, SECOND_SAMPLE);
    var s2 := Next(s1, second);
    assert [first, second][1..] == [second];
    assert Run(s1, [second]) == Run(s2, []);
    assert Run(START, [first, second]) == s2;
    assert Text("ev-b") in s2.artifacts["ev-a"].parents;
  }
}
