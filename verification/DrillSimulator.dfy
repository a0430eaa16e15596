/** The simulator object: fields updated in place, each call proved against `ReplayDrill.Next`. */
module DrillSimulator {
  import opened Values
  import opened GuardianRecords
  import opened GuardianInvariants
  import opened ReplayDrill

  function Pairs(byTenant: map<string, set<string>>): set<(string, string)> {
    set tenant, nonce | tenant in byTenant && nonce in byTenant[tenant] :: (tenant, nonce)
  }

  lemma PairsOfTenant(byTenant: map<string, set<string>>, tenant: string)
    requires tenant in byTenant
    ensures TenantNonces(Pairs(byTenant), tenant) == byTenant[tenant]
  {
    forall nonce ensures nonce in TenantNonces(Pairs(byTenant), tenant) <==> nonce in byTenant[tenant] {
      if nonce in byTenant[tenant] {
        assert (tenant, nonce) in Pairs(byTenant);
      }
    }
  }

  lemma PairsWith(byTenant: map<string, set<string>>, tenant: string, nonce: string)
    requires tenant in byTenant
    ensures Pairs(byTenant[tenant := byTenant[tenant] + {nonce}]) == Pairs(byTenant) + {(tenant, nonce)}
  {
    var after := byTenant[tenant := byTenant[tenant] + {nonce}];
    forall pair ensures pair in Pairs(after) <==> pair in Pairs(byTenant) + {(tenant, nonce)} {
      var (t, n) := pair;
      assert t in after && n in after[t] <==> (t in byTenant && n in byTenant[t]) || pair == (tenant, nonce);
    }
  }

  lemma PairsWithout(byTenant: map<string, set<string>>, tenant: string, nonce: string)
    requires tenant in byTenant
    ensures Pairs(byTenant[tenant := byTenant[tenant] - {nonce}]) == Pairs(byTenant) - {(tenant, nonce)}
  {
    var after := byTenant[tenant := byTenant[tenant] - {nonce}];
    forall pair ensures pair in Pairs(after) <==> pair in Pairs(byTenant) - {(tenant, nonce)} {
      var (t, n) := pair;
      assert t in after && n in after[t] <==> t in byTenant && n in byTenant[t] && pair != (tenant, nonce);
    }
  }

  class GuardianReplayDrillSimulator {
    const reference: Stamp
    var current: map<string, Record>
    var history: map<string, seq<Entry>>
    var decisionById: map<string, Decision>
    var reservedByTenant: map<string, set<string>>
    var consumedByTenant: map<string, set<string>>

    function View(): Drill
      reads this
    {
      Drill(current, history, decisionById, Pairs(reservedByTenant), Pairs(consumedByTenant))
    }

    constructor (reference: Stamp)
      ensures this.reference == reference && View() == START
    {
      this.reference := reference;
      current, history, decisionById := map[], map[], map[];
      reservedByTenant, consumedByTenant := map[], map[];
    }

    /** Looking a tenant up creates its empty set, which no caller can observe. */
    method TenantReserved(tenant: string) returns (nonces: set<string>)
      modifies this`reservedByTenant
      ensures tenant in reservedByTenant && nonces == reservedByTenant[tenant]
      ensures View() == old(View())
      ensures forall nonce :: nonce in nonces <==> (tenant, nonce) in View().reserved
    {
      if tenant !in reservedByTenant {
        reservedByTenant := reservedByTenant[tenant := {}];
      }
      nonces := reservedByTenant[tenant];
    }

    method TenantConsumed(tenant: string) returns (nonces: set<string>)
      modifies this`consumedByTenant
      ensures tenant in consumedByTenant && nonces == consumedByTenant[tenant]
      ensures View() == old(View())
      ensures forall nonce :: nonce in nonces <==> (tenant, nonce) in View().consumed
      ensures nonces == TenantNonces(View().consumed, tenant)
    {
      if tenant !in consumedByTenant {
        consumedByTenant := consumedByTenant[tenant := {}];
      }
      nonces := consumedByTenant[tenant];
      PairsOfTenant(consumedByTenant, tenant);
    }

    method Register(payload: Payload, initial: State, expected: Option<string>) returns (o: Outcome<Error>)
      modifies this
      ensures o == Check(old(View()), reference, Call.Register(payload, initial, expected))
      ensures View() == Next(old(View()), reference, Call.Register(payload, initial, expected))
    {
      o := RegisterRoute(View(), Call.Register(payload, initial, expected));
      if o.Fail? {
        return;
      }
      var h := Normalize(payload, expected).header;
      var stored := if h.id in decisionById then Some(decisionById[h.id]) else None;
      o := CommonRules(payload, h.tenant, initial, stored, NO_REQUEST);
      if o.Fail? {
        return;
      }
      o := DecisionPayloadValid(payload.decision);
      if o.Fail? {
        return;
      }
      current := current[h.id := Record(h.tenant, h.nonce, initial, payload)];
      decisionById := decisionById[h.id := payload.decision];
      history := history[h.id := [Entry(h.id, h.tenant, None, initial)]];
    }

    method Transition(id: string, to: State, payload: Payload, request: Request) returns (o: Outcome<Error>)
      modifies this
      ensures o == Check(old(View()), reference, Call.Transition(id, to, payload, request))
      ensures View() == Next(old(View()), reference, Call.Transition(id, to, payload, request))
    {
      o := RouteCheck(View(), Call.Transition(id, to, payload, request));
      if o.Fail? {
        return;
      }
      var from := current[id].state;
      var h := Normalize(payload, Some(id)).header;
      var stored := if h.id in decisionById then Some(decisionById[h.id]) else None;
      o := CommonRules(payload, h.tenant, to, stored, request);
      if o.Fail? {
        return;
      }
      o := EnforceSpecificRules(h, to, payload, request);
      if o.Fail? {
        return;
      }
      current := current[id := Record(h.tenant, h.nonce, to, payload)];
      var entries := if id in history then history[id] else [];
      history := history[id := entries + [Entry(id, h.tenant, Some(from), to)]];
    }

    /** The target state's own rules, with their updates of the decision table and the nonce sets. */
    method EnforceSpecificRules(h: Header, to: State, payload: Payload, request: Request) returns (o: Outcome<Error>)
      modifies this`decisionById, this`reservedByTenant, this`consumedByTenant
      ensures o == SpecificRules(old(View()), h, to, payload, request, reference)
      ensures o.Fail? ==> View() == old(View())
      ensures o.Pass? ==>
        && View().decisions == (if to == DecisionRegistered then old(View()).decisions[h.id := payload.decision]
                                else old(View()).decisions)
        && View().reserved == (if to == NonceReserved then old(View()).reserved + {(h.tenant, h.nonce)}
                               else if to == NonceConsumed then old(View()).reserved - {(h.tenant, h.nonce)}
                               else old(View()).reserved)
        && View().consumed == (if to == NonceConsumed then old(View()).consumed + {(h.tenant, h.nonce)}
                               else old(View()).consumed)
    {
      if to == DecisionRegistered {
        if !payload.DecisionDoc? {
          return Fail(ContractNotForState);
        }
        o := DecisionPayloadValid(payload.decision);
        if o.Pass? {
          decisionById := decisionById[h.id := payload.decision];
        }
        return;
      }
      if h.id !in decisionById {
        return Fail(NotRegistered);
      }
      if to == NonceReserved && payload.StoreDoc? {
        o := Reserve(h, payload.record);
      } else if to == NonceConsumed && payload.StoreDoc? {
        o := Consume(h, payload.record);
      } else if to == FirstUseValidated && payload.ReplayDoc? {
        var consumed := TenantConsumed(h.tenant);
        o := FirstUseRules(decisionById[h.id], payload.replay, request, reference, consumed);
      } else if to == ReplayDenied && payload.ReplayDoc? {
        var consumed := TenantConsumed(h.tenant);
        o := if h.nonce in consumed then DenialEvidencePresent(payload) else Fail(NotConsumed);
      } else {
        o := SpecificRules(View(), h, to, payload, request, reference);
      }
    }

    method Reserve(h: Header, r: StoreRecord) returns (o: Outcome<Error>)
      requires h.id in decisionById
      modifies this`reservedByTenant, this`consumedByTenant
      ensures o == SpecificRules(old(View()), h, NonceReserved, StoreDoc(r), NO_REQUEST, reference)
      ensures View() == old(View()).(reserved := old(View()).reserved + if o.Pass? then {(h.tenant, h.nonce)} else {})
    {
      var reserved := TenantReserved(h.tenant);
      var consumed := TenantConsumed(h.tenant);
      if r.nonceStatus != Text("reserved") {
        return Fail(NonceStatus);
      }
      if r.atomicityStatus != Text("pending") {
        return Fail(AtomicityNotPending);
      }
      if h.nonce in reserved || h.nonce in consumed {
        return Fail(DuplicateReservation);
      }
      PairsWith(reservedByTenant, h.tenant, h.nonce);
      reservedByTenant := reservedByTenant[h.tenant := reserved + {h.nonce}];
      o := Pass;
    }

    method Consume(h: Header, r: StoreRecord) returns (o: Outcome<Error>)
      requires h.id in decisionById
      modifies this`reservedByTenant, this`consumedByTenant
      ensures o == SpecificRules(old(View()), h, NonceConsumed, StoreDoc(r), NO_REQUEST, reference)
      ensures View() == old(View()).(
        reserved := old(View()).reserved - (if o.Pass? then {(h.tenant, h.nonce)} else {}),
        consumed := old(View()).consumed + if o.Pass? then {(h.tenant, h.nonce)} else {})
    {
      var reserved := TenantReserved(h.tenant);
      var consumed := TenantConsumed(h.tenant);
      if r.nonceStatus != Text("consumed") {
        return Fail(NonceStatus);
      }
      if h.nonce in consumed {
        return Fail(DuplicateConsumption);
      }
      if h.nonce !in reserved {
        return Fail(NotReserved);
      }
      PairsWithout(reservedByTenant, h.tenant, h.nonce);
      PairsWith(consumedByTenant, h.tenant, h.nonce);
      reservedByTenant := reservedByTenant[h.tenant := reserved - {h.nonce}];
      consumedByTenant := consumedByTenant[h.tenant := consumed + {h.nonce}];
      o := Pass;
    }
  }
}
