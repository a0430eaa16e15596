/** The harness state store: tables as maps, each commit one transaction that either applies
    completely, with its event, or leaves every table as it was. */
module HarnessStore {
  import opened Values

  datatype Proposal = Proposal(
    id: string, helperResultId: string, revision: int, accepted: bool, tenant: string, context: string,
    safe: bool, schemaValid: bool, content: string)

  datatype PreviewState = Ready | Reviewed | Denied | Withdrawn

  /** `source` is the proposal the preview was made from: comparing it stands for comparing the
      stored source revision and the stored SHA-256 digest. */
  datatype Preview = Preview(
    id: string, source: Proposal, revision: int, state: PreviewState, tenant: string,
    expiresAt: int, createdAt: int, updatedAt: int, eventId: string)

  datatype Status = Pending | DeniedByApprover | Cancelled | Expired

  /** `preview` is the cited preview: comparing it stands for comparing its revision and digest. */
  datatype Request = Request(
    id: string, preview: Preview, tenant: string, requester: string, expiresAt: int,
    status: Status, decidedAt: Option<int>, approver: Option<string>, evidence: seq<string>)

  datatype Decision = Decision(id: string, requestId: string, value: Status, decidedAt: int)

  datatype Tables = Tables(
    proposals: map<string, Proposal>,
    previews: map<string, Preview>,
    requests: map<string, Request>,
    results: map<string, Decision>,
    events: set<string>)

  const NO_ROWS := Tables(map[], map[], map[], map[], {})

  datatype StoreError = BadRecord | BadEventId | AlreadyExists | NotFound | Conflict | NotPending | ConstraintViolated

  predicate EventId(id: string) {
    "harness-event:" <= id
  }

  // ----- the commits as functions of the tables -------------------------------------------------

  predicate ProposalClash(t: Tables, p: Proposal) {
    exists id :: id in t.proposals && id != p.id && t.proposals[id].helperResultId == p.helperResultId
  }

  function CheckProposal(t: Tables, p: Proposal, eventId: string, expected: Option<int>): Outcome<StoreError> {
    if !(p.id != "" && p.revision >= 1 && p.helperResultId != "") then Fail(BadRecord)
    else if !EventId(eventId) then Fail(BadEventId)
    else if expected.None? && p.id in t.proposals then Fail(AlreadyExists)
    else if !(expected.Some? ==> p.id in t.proposals && t.proposals[p.id].revision == expected.value)
      then Fail(Conflict)
    else Need(eventId !in t.events && !ProposalClash(t, p), ConstraintViolated)
  }

  predicate PreviewClash(t: Tables, p: Preview) {
    exists id :: id in t.previews && id != p.id && t.previews[id].source.id == p.source.id
  }

  function CheckPreview(t: Tables, p: Preview, eventId: string, expected: Option<int>): Outcome<StoreError> {
    if !(p.id != "" && p.source.id != "" && p.revision >= 1) then Fail(BadRecord)
    else if !EventId(eventId) then Fail(BadEventId)
    else if expected.None? && p.id in t.previews then Fail(AlreadyExists)
    else if !(expected.Some? ==> p.id in t.previews && t.previews[p.id].revision == expected.value)
      then Fail(Conflict)
    else Need(eventId !in t.events && !PreviewClash(t, p), ConstraintViolated)
  }

  function CheckRequest(t: Tables, r: Request, eventId: string): Outcome<StoreError> {
    if !(r.id != "" && r.preview.id != "") then Fail(BadRecord)
    else if !EventId(eventId) then Fail(BadEventId)
    else if !(forall id | id in t.requests :: id != r.id && t.requests[id].preview.id != r.preview.id)
      then Fail(AlreadyExists)
    else Need(eventId !in t.events, ConstraintViolated)
  }

  function CheckDecision(t: Tables, r: Request, d: Decision, expected: Request, eventId: string): Outcome<StoreError> {
    if !(r.id != "" && d.id != "" && d.requestId == r.id) then Fail(BadRecord)
    else if !EventId(eventId) then Fail(BadEventId)
    else if r.id !in t.requests then Fail(NotFound)
    else if t.requests[r.id] != expected then Fail(Conflict)
    else if t.requests[r.id].status != Pending then Fail(NotPending)
    else if !(forall id | id in t.results :: t.results[id].requestId != r.id) then Fail(AlreadyExists)
    else Need(eventId !in t.events && d.id !in t.results, ConstraintViolated)
  }

  function WriteEvent(t: Tables, eventId: string): Tables {
    t.(events := t.events + {eventId})
  }

  function CommitProposal(t: Tables, p: Proposal, eventId: string, expected: Option<int>): Tables {
    if CheckProposal(t, p, eventId, expected).Fail? then t
    else t.(proposals := t.proposals[p.id := p], events := t.events + {eventId})
  }

  function CommitPreview(t: Tables, p: Preview, eventId: string, expected: Option<int>): Tables {
    if CheckPreview(t, p, eventId, expected).Fail? then t
    else t.(previews := t.previews[p.id := p], events := t.events + {eventId})
  }

  function CommitRequest(t: Tables, r: Request, eventId: string): Tables {
    if CheckRequest(t, r, eventId).Fail? then t
    else t.(requests := t.requests[r.id := r], events := t.events + {eventId})
  }

  function CommitDecision(t: Tables, r: Request, d: Decision, expected: Request, eventId: string): Tables {
    if CheckDecision(t, r, d, expected, eventId).Fail? then t
    else t.(requests := t.requests[r.id := r], results := t.results[d.id := d], events := t.events + {eventId})
  }

  /** A commit that changes the tables adds its own event, new, in the same step. */
  predicate OneEvent(t: Tables, u: Tables, eventId: string) {
    u == t || (eventId !in t.events && u.events == t.events + {eventId})
  }

  lemma EveryCommitAddsOneEvent(t: Tables, q: Proposal, p: Preview, r: Request, d: Decision, readRequest: Request,
                                eventId: string, expected: Option<int>)
    ensures OneEvent(t, CommitProposal(t, q, eventId, expected), eventId)
    ensures OneEvent(t, CommitPreview(t, p, eventId, expected), eventId)
    ensures OneEvent(t, CommitRequest(t, r, eventId), eventId)
    ensures OneEvent(t, CommitDecision(t, r, d, readRequest, eventId), eventId)
    ensures CheckPreview(t, p, eventId, expected).Pass? ==>
      |CommitPreview(t, p, eventId, expected).events| == |t.events| + 1
    ensures CheckDecision(t, r, d, readRequest, eventId).Pass? ==>
      |CommitDecision(t, r, d, readRequest, eventId).events| == |t.events| + 1
  {
  }

  // ----- the store object ------------------------------------------------------------------------

  class HarnessStateStore {
    var proposals: map<string, Proposal>
    var previews: map<string, Preview>
    var requests: map<string, Request>
    var results: map<string, Decision>
    var events: set<string>

    function View(): Tables
      reads this
    {
      Tables(proposals, previews, requests, results, events)
    }

    constructor ()
      ensures View() == NO_ROWS
    {
      proposals, previews, requests, results, events := map[], map[], map[], map[], {};
    }

    method CommitOfficeProposal(p: Proposal, eventId: string, expected: Option<int>) returns (o: Outcome<StoreError>)
      modifies this
      ensures o == CheckProposal(old(View()), p, eventId, expected)
      ensures View() == CommitProposal(old(View()), p, eventId, expected)
    {
      if p.id == "" || p.revision < 1 || p.helperResultId == "" {
        return Fail(BadRecord);
      }
      if !EventId(eventId) {
        return Fail(BadEventId);
      }
      var revision := if p.id in proposals then Some(proposals[p.id].revision) else None;
      if expected.None? {
        if revision.Some? {
          return Fail(AlreadyExists);
        }
      } else if revision != expected {
        return Fail(Conflict);
      }
      if eventId in events {
        return Fail(ConstraintViolated);
      }
      var savepoint := events;
      events := events + {eventId};
      if ProposalClash(View(), p) {
        events := savepoint;  // the unique column refuses the row and the transaction rolls back
        return Fail(ConstraintViolated);
      }
      proposals := proposals[p.id := p];
      o := Pass;
    }

    method CommitOfficeApprovalPreview(p: Preview, eventId: string, expected: Option<int>)
      returns (o: Outcome<StoreError>)
      modifies this
      ensures o == CheckPreview(old(View()), p, eventId, expected)
      ensures View() == CommitPreview(old(View()), p, eventId, expected)
    {
      if p.id == "" || p.source.id == "" || p.revision < 1 {
        return Fail(BadRecord);
      }
      if !EventId(eventId) {
        return Fail(BadEventId);
      }
      var revision := if p.id in previews then Some(previews[p.id].revision) else None;
      if expected.None? {
        if revision.Some? {
          return Fail(AlreadyExists);
        }
      } else if revision != expected {
        return Fail(Conflict);
      }
      if eventId in events {
        return Fail(ConstraintViolated);
      }
      var savepoint := events;
      events := events + {eventId};
      if PreviewClash(View(), p) {
        events := savepoint;
        return Fail(ConstraintViolated);
      }
      previews := previews[p.id := p];
      o := Pass;
    }

    method CommitOfficePendingApprovalRequest(r: Request, eventId: string) returns (o: Outcome<StoreError>)
      modifies this
      ensures o == CheckRequest(old(View()), r, eventId)
      ensures View() == CommitRequest(old(View()), r, eventId)
    {
      if r.id == "" || r.preview.id == "" {
        return Fail(BadRecord);
      }
      if !EventId(eventId) {
        return Fail(BadEventId);
      }
      if exists id :: id in requests && (id == r.id || requests[id].preview.id == r.preview.id) {
        return Fail(AlreadyExists);
      }
      if eventId in events {
        return Fail(ConstraintViolated);
      }
      events := events + {eventId};
      requests := requests[r.id := r];
      o := Pass;
    }

    method CommitOfficeNonAuthorizingApprovalDecision(r: Request, d: Decision, expected: Request, eventId: string)
      returns (o: Outcome<StoreError>)
      modifies this
      ensures o == CheckDecision(old(View()), r, d, expected, eventId)
      ensures View() == CommitDecision(old(View()), r, d, expected, eventId)
    {
      if r.id == "" || d.id == "" || d.requestId != r.id {
        return Fail(BadRecord);
      }
      if !EventId(eventId) {
        return Fail(BadEventId);
      }
      if r.id !in requests {
        return Fail(NotFound);
      }
      if requests[r.id] != expected {
        return Fail(Conflict);
      }
      if requests[r.id].status != Pending {
        return Fail(NotPending);
      }
      if exists id :: id in results && results[id].requestId == r.id {
        return Fail(AlreadyExists);
      }
      if eventId in events {
        return Fail(ConstraintViolated);
      }
      var savepoint := events;
      events := events + {eventId};
      if d.id in results {
        events := savepoint;
        return Fail(ConstraintViolated);
      }
      results := results[d.id := d];
      requests := requests[r.id := r];
      o := Pass;
    }
  }
}
