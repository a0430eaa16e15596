/** What every run of the replay drill simulator keeps: nonce ownership, histories,
    single use, and the exclusion between first use and denial. */
module DrillTheorems {
  import opened Values
  import opened GuardianRecords
  import opened GuardianInvariants
  import opened ReplayDrill

  // ----- histories ---------------------------------------------------------------------------

  /** The transition table is a tree, so a state determines the path that leads to it. */
  function PathTo(state: State): seq<State> {
    match state
    case Planned => [Planned]
    case DecisionRegistered => [Planned, DecisionRegistered]
    case NonceReserved => [Planned, DecisionRegistered, NonceReserved]
    case FirstUseValidated => [Planned, DecisionRegistered, NonceReserved, FirstUseValidated]
    case NonceConsumed => [Planned, DecisionRegistered, NonceReserved, FirstUseValidated, NonceConsumed]
    case ReplayDenied =>
      [Planned, DecisionRegistered, NonceReserved, FirstUseValidated, NonceConsumed, ReplayDenied]
    case _ => [Planned, DecisionRegistered, NonceReserved, state]
  }

  predicate Records(h: seq<Entry>, id: string, tenant: string, path: seq<State>) {
    && |h| == |path|
    && (forall i | 0 <= i < |h| :: h[i].id == id && h[i].tenant == tenant && h[i].to == path[i])
    && (forall i | 0 <= i < |h| :: h[i].from == if i == 0 then None else Some(path[i - 1]))
  }

  /** A record's history contains an entry for the state. */
  predicate Visited(s: Drill, id: string, state: State) {
    id in s.history && exists i :: 0 <= i < |s.history[id]| && s.history[id][i].to == state
  }

  // ----- nonce ownership -----------------------------------------------------------------------

  predicate Holds(state: State) {
    || state.NonceReserved? || state.FirstUseValidated? || state.ExpiredDenied? || state.StaleDenied?
    || state.MismatchDenied? || state.BlockedMvpDenied? || state.FailedClosedRecorded?
  }

  predicate Spent(state: State) {
    state.NonceConsumed? || state.ReplayDenied?
  }

  predicate Has(s: Drill, id: string, pair: (string, string)) {
    id in s.current && (s.current[id].tenant, s.current[id].nonce) == pair
  }

  predicate Holder(s: Drill, id: string, pair: (string, string)) {
    Has(s, id, pair) && Holds(s.current[id].state)
  }

  predicate Spender(s: Drill, id: string, pair: (string, string)) {
    Has(s, id, pair) && Spent(s.current[id].state)
  }

  predicate Claims(s: Drill, id: string, pair: (string, string)) {
    Holder(s, id, pair) || Spender(s, id, pair)
  }

  predicate RecordKept(s: Drill, id: string)
    requires id in s.current && id in s.history && id in s.decisions
  {
    var r, d := s.current[id], s.decisions[id];
    && !r.state.Unknown?
    && Records(s.history[id], id, r.tenant, PathTo(r.state))
    && id != "" && d.guardianDecisionId == Text(id)
    && d.tenantId == Text(r.tenant) && d.nonce == Text(r.nonce) && r.nonce != "" && r.tenant != ""
  }

  ghost predicate NoncesOwned(s: Drill) {
    && (forall pair :: pair in s.reserved <==> exists id :: Holder(s, id, pair))
    && (forall pair :: pair in s.consumed <==> exists id :: Spender(s, id, pair))
    && (forall i, j, pair :: Claims(s, i, pair) && Claims(s, j, pair) ==> i == j)
  }

  ghost predicate RecordsKept(s: Drill) {
    && s.history.Keys == s.current.Keys && s.decisions.Keys == s.current.Keys
    && forall id | id in s.current :: RecordKept(s, id)
  }

  ghost predicate Valid(s: Drill) {
    RecordsKept(s) && NoncesOwned(s)
  }

  /** What an accepted registration has established. */
  predicate Addable(s: Drill, h: Header, p: Payload) {
    && h.id !in s.current && h.id != "" && h.nonce != "" && h.tenant != ""
    && p.DecisionDoc? && p.decision.guardianDecisionId == Text(h.id)
    && p.decision.tenantId == Text(h.tenant) && p.decision.nonce == Text(h.nonce)
  }

  lemma AcceptedRegistration(s: Drill, c: Call)
    requires c.Register? && RegisterCheck(s, c).Pass?
    ensures Normalize(c.payload, c.expected).Good?
    ensures Addable(s, Normalize(c.payload, c.expected).header, c.payload)
  {
  }

  /** What an accepted transition has established. */
  predicate Movable(s: Drill, id: string, h: Header, to: State, p: Payload) {
    && id in s.current && h.id == id
    && h.tenant == s.current[id].tenant && h.nonce == s.current[id].nonce
    && Allowed(s.current[id].state, to)
    && (to == NonceReserved ==> (h.tenant, h.nonce) !in s.reserved && (h.tenant, h.nonce) !in s.consumed)
    && (to == DecisionRegistered ==>
          && p.DecisionDoc? && p.decision.guardianDecisionId == Text(h.id)
          && p.decision.tenantId == Text(h.tenant) && p.decision.nonce == Text(h.nonce))
  }

  lemma AcceptedTransition(s: Drill, reference: Stamp, c: Call)
    requires c.Transition? && c.id != "" && TransitionCheck(s, reference, c).Pass?
    ensures Normalize(c.payload, Some(c.id)).Good?
    ensures Movable(s, c.id, Normalize(c.payload, Some(c.id)).header, c.to, c.payload)
  {
  }

  lemma AddKeepsRecords(s: Drill, h: Header, p: Payload)
    requires Valid(s) && Addable(s, h, p)
    ensures RecordsKept(Add(s, h, p))
  {
    var t := Add(s, h, p);
    forall id | id in t.current ensures RecordKept(t, id) {
      if id != h.id {
        assert RecordKept(s, id);
        assert t.history[id] == s.history[id];
      }
    }
  }

  lemma AddKeepsOwners(s: Drill, h: Header, p: Payload)
    requires Valid(s) && Addable(s, h, p)
    ensures NoncesOwned(Add(s, h, p))
  {
    var t := Add(s, h, p);
    forall id, pair
      ensures Holder(t, id, pair) <==> Holder(s, id, pair)
      ensures Spender(t, id, pair) <==> Spender(s, id, pair)
    {
    }
    SameOwners(s, t);
  }

  lemma SameOwners(s: Drill, t: Drill)
    requires NoncesOwned(s) && t.reserved == s.reserved && t.consumed == s.consumed
    requires forall id, pair :: Holder(t, id, pair) <==> Holder(s, id, pair)
    requires forall id, pair :: Spender(t, id, pair) <==> Spender(s, id, pair)
    ensures NoncesOwned(t)
  {
    forall pair ensures pair in t.reserved <==> exists id :: Holder(t, id, pair) {
      if pair in s.reserved {
        var id :| Holder(s, id, pair);
        assert Holder(t, id, pair);
      }
    }
    forall pair ensures pair in t.consumed <==> exists id :: Spender(t, id, pair) {
      if pair in s.consumed {
        var id :| Spender(s, id, pair);
        assert Spender(t, id, pair);
      }
    }
    forall i, j, pair | Claims(t, i, pair) && Claims(t, j, pair) ensures i == j {
      assert Claims(s, i, pair) && Claims(s, j, pair);
    }
  }

  lemma RecordsExtend(h: seq<Entry>, id: string, tenant: string, from: State, to: State)
    requires Records(h, id, tenant, PathTo(from)) && Allowed(from, to)
    ensures Records(h + [Entry(id, tenant, Some(from), to)], id, tenant, PathTo(to))
  {
    var g, path := h + [Entry(id, tenant, Some(from), to)], PathTo(to);
    assert path == PathTo(from) + [to] && path[|h| - 1] == from;
  }

  lemma MoveKeepsOwnRecord(s: Drill, id: string, h: Header, to: State, p: Payload)
    requires id in s.current && id in s.history && id in s.decisions && RecordKept(s, id) && Movable(s, id, h, to, p)
    ensures id in Move(s, id, h, to, p).decisions && RecordKept(Move(s, id, h, to, p), id)
  {
    RecordsExtend(s.history[id], id, h.tenant, s.current[id].state, to);
  }

  lemma MoveKeepsOtherRecord(s: Drill, id: string, h: Header, to: State, p: Payload, other: string)
    requires other in s.current && other in s.history && other in s.decisions && RecordKept(s, other)
    requires Movable(s, id, h, to, p) && other != id
    ensures other in Move(s, id, h, to, p).decisions && RecordKept(Move(s, id, h, to, p), other)
  {
    assert Move(s, id, h, to, p).history[other] == s.history[other];
  }

  lemma MoveKeepsKeys(s: Drill, id: string, h: Header, to: State, p: Payload)
    requires s.history.Keys == s.current.Keys && s.decisions.Keys == s.current.Keys && Movable(s, id, h, to, p)
    ensures var t := Move(s, id, h, to, p);
            t.current.Keys == s.current.Keys && t.history.Keys == s.current.Keys && t.decisions.Keys == s.current.Keys
  {
  }

  lemma MoveKeepsRecords(s: Drill, id: string, h: Header, to: State, p: Payload)
    requires RecordsKept(s) && Movable(s, id, h, to, p)
    ensures RecordsKept(Move(s, id, h, to, p))
  {
    MoveKeepsKeys(s, id, h, to, p);
    forall i | i in s.current ensures RecordKept(Move(s, id, h, to, p), i) {
      if i == id {
        MoveKeepsOwnRecord(s, id, h, to, p);
      } else {
        MoveKeepsOtherRecord(s, id, h, to, p, i);
      }
    }
  }

  lemma MoveKeepsOthers(s: Drill, id: string, h: Header, to: State, p: Payload, i: string, pair: (string, string))
    requires Movable(s, id, h, to, p) && i != id
    ensures Holder(Move(s, id, h, to, p), i, pair) <==> Holder(s, i, pair)
    ensures Spender(Move(s, id, h, to, p), i, pair) <==> Spender(s, i, pair)
  {
  }

  lemma MoveKeepsHolder(s: Drill, id: string, h: Header, to: State, p: Payload, pair: (string, string))
    requires NoncesOwned(s) && Movable(s, id, h, to, p)
    ensures var t := Move(s, id, h, to, p); pair in t.reserved <==> exists i :: Holder(t, i, pair)
  {
    var t := Move(s, id, h, to, p);
    if pair in t.reserved {
      if pair in s.reserved {
        var i :| Holder(s, i, pair);
        if i != id {
          MoveKeepsOthers(s, id, h, to, p, i, pair);
        }
        assert Holder(t, i, pair);
      } else {
        assert Holder(t, id, pair);
      }
    }
    forall i | Holder(t, i, pair) ensures pair in t.reserved {
      if i != id {
        MoveKeepsOthers(s, id, h, to, p, i, pair);
        assert Claims(s, i, pair);
        assert to == NonceConsumed ==> Claims(s, id, (h.tenant, h.nonce));
      } else {
        assert to != NonceReserved ==> Holder(s, id, pair);
      }
    }
  }

  lemma MoveKeepsSpender(s: Drill, id: string, h: Header, to: State, p: Payload, pair: (string, string))
    requires NoncesOwned(s) && Movable(s, id, h, to, p)
    ensures var t := Move(s, id, h, to, p); pair in t.consumed <==> exists i :: Spender(t, i, pair)
  {
    var t := Move(s, id, h, to, p);
    if pair in t.consumed {
      if pair in s.consumed {
        var i :| Spender(s, i, pair);
        if i != id {
          MoveKeepsOthers(s, id, h, to, p, i, pair);
        }
        assert Spender(t, i, pair);
      } else {
        assert Spender(t, id, pair);
      }
    }
    forall i | Spender(t, i, pair) ensures pair in t.consumed {
      if i != id {
        MoveKeepsOthers(s, id, h, to, p, i, pair);
      } else {
        assert to != NonceConsumed ==> Spender(s, id, pair);
      }
    }
  }

  lemma MoveKeepsSingleClaim(s: Drill, id: string, h: Header, to: State, p: Payload,
                             i: string, j: string, pair: (string, string))
    requires NoncesOwned(s) && Movable(s, id, h, to, p)
    requires Claims(Move(s, id, h, to, p), i, pair) && Claims(Move(s, id, h, to, p), j, pair)
    ensures i == j
  {
    if i != j {
      var other := if i == id then j else i;
      MoveKeepsOthers(s, id, h, to, p, other, pair);
      assert Claims(s, other, pair);
      if i == id || j == id {
        assert to != NonceReserved ==> Claims(s, id, pair);
      } else {
        MoveKeepsOthers(s, id, h, to, p, j, pair);
        assert Claims(s, j, pair);
      }
    }
  }

  lemma MoveKeepsOwners(s: Drill, id: string, h: Header, to: State, p: Payload)
    requires NoncesOwned(s) && Movable(s, id, h, to, p)
    ensures NoncesOwned(Move(s, id, h, to, p))
  {
    var t := Move(s, id, h, to, p);
    forall pair ensures pair in t.reserved <==> exists i :: Holder(t, i, pair) {
      MoveKeepsHolder(s, id, h, to, p, pair);
    }
    forall pair ensures pair in t.consumed <==> exists i :: Spender(t, i, pair) {
      MoveKeepsSpender(s, id, h, to, p, pair);
    }
    forall i, j, pair | Claims(t, i, pair) && Claims(t, j, pair) ensures i == j {
      MoveKeepsSingleClaim(s, id, h, to, p, i, j, pair);
    }
  }

  lemma NextKeepsValid(s: Drill, reference: Stamp, c: Call)
    requires Valid(s)
    ensures Valid(Next(s, reference, c))
  {
    if Check(s, reference, c).Pass? {
      if c.Register? {
        AcceptedRegistration(s, c);
        AddKeepsRecords(s, Normalize(c.payload, c.expected).header, c.payload);
        AddKeepsOwners(s, Normalize(c.payload, c.expected).header, c.payload);
      } else {
        assert RecordKept(s, c.id);
        AcceptedTransition(s, reference, c);
        MoveKeepsRecords(s, c.id, Normalize(c.payload, Some(c.id)).header, c.to, c.payload);
        MoveKeepsOwners(s, c.id, Normalize(c.payload, Some(c.id)).header, c.to, c.payload);
      }
    }
  }

  lemma {:induction false} RunKeepsValid(s: Drill, reference: Stamp, calls: seq<Call>)
    requires Valid(s)
    ensures Valid(Run(s, reference, calls))
    decreases |calls|
  {
    if calls != [] {
      NextKeepsValid(s, reference, calls[0]);
      RunKeepsValid(Next(s, reference, calls[0]), reference, calls[1..]);
    }
  }

  lemma StartIsValid()
    ensures Valid(START)
  {
  }

  lemma VisitedIsOnPath(s: Drill, id: string, state: State)
    requires Valid(s) && id in s.current
    ensures Visited(s, id, state) <==> state in PathTo(s.current[id].state)
    ensures !s.current[id].state.Unknown?
  {
    assert RecordKept(s, id);
    var h, path := s.history[id], PathTo(s.current[id].state);
    if state in path {
      var i :| 0 <= i < |path| && path[i] == state;
      assert h[i].to == state;
    }
  }

  // ----- main results -----------------------------------------------------------------------------

  /** A decision of the pair that has been through reservation but not consumption. */
  predicate Reserver(s: Drill, id: string, pair: (string, string)) {
    Has(s, id, pair) && Visited(s, id, NonceReserved) && !Visited(s, id, NonceConsumed)
  }

  predicate Consumer(s: Drill, id: string, pair: (string, string)) {
    Has(s, id, pair) && Visited(s, id, NonceConsumed)
  }

  lemma PathMembership(state: State)
    requires !state.Unknown?
    ensures NonceReserved in PathTo(state) <==> Holds(state) || Spent(state)
    ensures NonceConsumed in PathTo(state) <==> Spent(state)
  {
  }

  lemma RolesByHistory(s: Drill, id: string, pair: (string, string))
    requires Valid(s) && Has(s, id, pair)
    ensures Reserver(s, id, pair) <==> Holder(s, id, pair)
    ensures Consumer(s, id, pair) <==> Spender(s, id, pair)
    ensures Visited(s, id, NonceReserved) <==> Claims(s, id, pair)
  {
    VisitedIsOnPath(s, id, NonceReserved);
    VisitedIsOnPath(s, id, NonceConsumed);
    PathMembership(s.current[id].state);
  }

  lemma OwnershipOf(s: Drill, pair: (string, string))
    requires Valid(s)
    ensures pair in s.reserved <==> exists id :: Reserver(s, id, pair)
    ensures pair in s.consumed <==> exists id :: Consumer(s, id, pair)
    ensures !(pair in s.reserved && pair in s.consumed)
    ensures forall i, j | Has(s, i, pair) && Has(s, j, pair)
              && Visited(s, i, NonceReserved) && Visited(s, j, NonceReserved) :: i == j
  {
    forall id | Has(s, id, pair)
      ensures Reserver(s, id, pair) <==> Holder(s, id, pair)
      ensures Consumer(s, id, pair) <==> Spender(s, id, pair)
      ensures Visited(s, id, NonceReserved) <==> Claims(s, id, pair)
    {
      RolesByHistory(s, id, pair);
    }
    if pair in s.reserved {
      var id :| Holder(s, id, pair);
      assert Reserver(s, id, pair);
    }
    if pair in s.consumed {
      var id :| Spender(s, id, pair);
      assert Consumer(s, id, pair);
    }
  }

  /** In every reachable state a tenant's nonce is reserved exactly when one decision holds it,
      consumed exactly when one decision has spent it, and never both; and at most one decision
      of the tenant with that nonce has ever left `decision_registered`. */
  lemma NonceOwnership(reference: Stamp, calls: seq<Call>, pair: (string, string))
    ensures var s := Run(START, reference, calls);
            && (pair in s.reserved <==> exists id :: Reserver(s, id, pair))
            && (pair in s.consumed <==> exists id :: Consumer(s, id, pair))
            && !(pair in s.reserved && pair in s.consumed)
            && (forall i, j | Has(s, i, pair) && Has(s, j, pair)
                  && Visited(s, i, NonceReserved) && Visited(s, j, NonceReserved) :: i == j)
  {
    RunKeepsValid(START, reference, calls);
    OwnershipOf(Run(START, reference, calls), pair);
  }

  predicate ProperHistory(s: Drill, id: string)
    requires id in s.current && id in s.history
  {
    var h := s.history[id];
    && 1 <= |h| <= 6
    && h[0].from == None && h[0].to == Planned && h[|h| - 1].to == s.current[id].state
    && (forall i | 0 < i < |h| :: h[i].from == Some(h[i - 1].to) && Allowed(h[i - 1].to, h[i].to))
    && (forall i | 0 <= i < |h| :: h[i].id == id && h[i].tenant == s.current[id].tenant)
    && (Visited(s, id, NonceConsumed) ==>
          |h| >= 5 && h[2].to == NonceReserved && h[3].to == FirstUseValidated && h[4].to == NonceConsumed)
  }

  lemma PathIsProper(state: State)
    requires !state.Unknown?
    ensures var p := PathTo(state);
            && 1 <= |p| <= 6 && p[0] == Planned && p[|p| - 1] == state
            && (forall i | 0 < i < |p| :: Allowed(p[i - 1], p[i]))
            && (NonceConsumed in p ==>
                  |p| >= 5 && p[2] == NonceReserved && p[3] == FirstUseValidated && p[4] == NonceConsumed)
  {
  }

  lemma HistoryOf(s: Drill, id: string)
    requires Valid(s) && id in s.current
    ensures ProperHistory(s, id)
  {
    VisitedIsOnPath(s, id, NonceConsumed);
    assert RecordKept(s, id);
    ProperWhenKept(s, id);
  }

  lemma ProperWhenKept(s: Drill, id: string)
    requires id in s.current && id in s.history && id in s.decisions && RecordKept(s, id)
    requires Visited(s, id, NonceConsumed) ==> NonceConsumed in PathTo(s.current[id].state)
    ensures ProperHistory(s, id)
  {
    PathIsProper(s.current[id].state);
  }

  /** Every history is the one path to its record's state: it starts at `planned`, follows the
      transition table, never exceeds six entries, and a consumed nonce was reserved and then
      validated for first use. */
  lemma HistoryIsThePath(reference: Stamp, calls: seq<Call>, id: string)
    requires id in Run(START, reference, calls).current
    ensures id in Run(START, reference, calls).history
    ensures ProperHistory(Run(START, reference, calls), id)
  {
    RunKeepsValid(START, reference, calls);
    HistoryOf(Run(START, reference, calls), id);
  }

  /** The call is accepted and moves a decision of the pair to a state at this depth:
      3 reserves the nonce, 4 settles it (first use or one of the denials), 5 consumes it,
      6 denies its replay. */
  predicate Reaches(s: Drill, reference: Stamp, c: Call, depth: nat, pair: (string, string)) {
    c.Transition? && Check(s, reference, c).Pass? && Has(s, c.id, pair) && |PathTo(c.to)| == depth
  }

  function Count(s: Drill, reference: Stamp, calls: seq<Call>, depth: nat, pair: (string, string)): nat
    decreases |calls|
  {
    if calls == [] then 0 else
    (if Reaches(s, reference, calls[0], depth, pair) then 1 else 0)
    + Count(Next(s, reference, calls[0]), reference, calls[1..], depth, pair)
  }

  ghost predicate Passed(s: Drill, depth: nat, pair: (string, string)) {
    exists id :: Has(s, id, pair) && |PathTo(s.current[id].state)| >= depth
  }

  lemma AddLeaves(s: Drill, h: Header, p: Payload, id: string, pair: (string, string))
    requires Addable(s, h, p) && Has(s, id, pair)
    ensures Has(Add(s, h, p), id, pair) && Add(s, h, p).current[id] == s.current[id]
  {
  }

  lemma MoveAdvances(s: Drill, h: Header, to: State, p: Payload, id: string, pair: (string, string))
    requires Movable(s, h.id, h, to, p) && Has(s, id, pair)
    ensures var t := Move(s, h.id, h, to, p);
            Has(t, id, pair) && |PathTo(t.current[id].state)| >= |PathTo(s.current[id].state)|
  {
  }

  lemma RecordAdvances(s: Drill, reference: Stamp, c: Call, id: string, pair: (string, string))
    requires Has(s, id, pair) && (c.Transition? ==> c.id != "" || Check(s, reference, c).Fail?)
    ensures var t := Next(s, reference, c);
            Has(t, id, pair) && |PathTo(t.current[id].state)| >= |PathTo(s.current[id].state)|
  {
    if Check(s, reference, c).Pass? {
      if c.Register? {
        AcceptedRegistration(s, c);
        AddLeaves(s, Normalize(c.payload, c.expected).header, c.payload, id, pair);
      } else {
        AcceptedTransition(s, reference, c);
        MoveAdvances(s, Normalize(c.payload, Some(c.id)).header, c.to, c.payload, id, pair);
      }
    }
  }

  lemma PassedIsKept(s: Drill, reference: Stamp, c: Call, depth: nat, pair: (string, string))
    requires Valid(s) && Passed(s, depth, pair)
    ensures Passed(Next(s, reference, c), depth, pair)
  {
    var id :| Has(s, id, pair) && |PathTo(s.current[id].state)| >= depth;
    if c.Transition? && c.id in s.current {
      assert RecordKept(s, c.id);
    }
    RecordAdvances(s, reference, c, id, pair);
  }

  lemma MoveReachesOnce(s: Drill, id: string, h: Header, to: State, p: Payload, depth: nat, pair: (string, string))
    requires Valid(s) && Movable(s, id, h, to, p) && Has(s, id, pair) && depth == |PathTo(to)| >= 3
    ensures !Passed(s, depth, pair) && Passed(Move(s, id, h, to, p), depth, pair)
  {
    var t := Move(s, id, h, to, p);
    assert Has(t, id, pair) && t.current[id].state == to;
    assert to != NonceReserved ==> Claims(s, id, pair);
    forall i | Has(s, i, pair) ensures |PathTo(s.current[i].state)| < depth {
      assert RecordKept(s, i);
      assert |PathTo(s.current[i].state)| >= 3 ==> Claims(s, i, pair);
    }
  }

  lemma ReachesOnlyOnce(s: Drill, reference: Stamp, c: Call, depth: nat, pair: (string, string))
    requires Valid(s) && depth >= 3 && Reaches(s, reference, c, depth, pair)
    ensures !Passed(s, depth, pair) && Passed(Next(s, reference, c), depth, pair)
  {
    assert RecordKept(s, c.id);
    AcceptedTransition(s, reference, c);
    MoveReachesOnce(s, c.id, Normalize(c.payload, Some(c.id)).header, c.to, c.payload, depth, pair);
  }

  lemma {:induction false} CountFrom(s: Drill, reference: Stamp, calls: seq<Call>, depth: nat, pair: (string, string))
    requires Valid(s) && depth >= 3
    ensures Count(s, reference, calls, depth, pair) <= if Passed(s, depth, pair) then 0 else 1
    decreases |calls|
  {
    if calls != [] {
      var t := Next(s, reference, calls[0]);
      NextKeepsValid(s, reference, calls[0]);
      CountFrom(t, reference, calls[1..], depth, pair);
      if Reaches(s, reference, calls[0], depth, pair) {
        ReachesOnlyOnce(s, reference, calls[0], depth, pair);
      }
      if Passed(s, depth, pair) {
        PassedIsKept(s, reference, calls[0], depth, pair);
      }
    }
  }

  /** In any run each nonce of a tenant is reserved, settled, consumed and replay-denied at most
      once, whatever number of decisions carry it. */
  lemma NonceSingleUse(reference: Stamp, calls: seq<Call>, depth: nat, pair: (string, string))
    requires depth >= 3
    ensures Count(START, reference, calls, depth, pair) <= 1
  {
    CountFrom(START, reference, calls, depth, pair);
  }
}
