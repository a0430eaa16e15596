/** The services' calls, each run from beginning to end with no other client's step in between: exactly when a call
    changes the store, and what it then stores. */
module ApprovalServices {
  import opened Values
  import opened HarnessStore
  import opened ApprovalProtocol
  import opened ApprovalTheorems

  predicate Fresh(t: Tables, eventId: string) {
    "harness-event:" <= eventId && eventId !in t.events
  }

  /** The proposal a preview was made from is stored unchanged, and is still accepted for this office. */
  predicate SourceStands(t: Tables, o: Office, p: Preview) {
    && p.source.id in t.proposals && t.proposals[p.source.id] == p.source
    && p.source.schemaValid && p.source.accepted && p.source.tenant == o.tenant && p.source.context == o.context
  }

  // ----- running alone ---------------------------------------------------------------------------------

  predicate Reads(step: Step) {
    && !step.WriteProposal? && !step.RecordEvent? && !step.PreviewCommitStep? && !step.RequestCommitStep?
    && !step.DecideCommitStep?
  }

  lemma ReadingAlone(w: World, o: Office, step: Step, rest: seq<Step>) returns (next: World)
    requires Reads(step)
    ensures Run(w, o, [step] + rest) == Run(next, o, rest) && next.tables == w.tables
    ensures TaskOf(next, step.client) == Reading(w.tables, o, TaskOf(w, step.client), step)
  {
    next := Next(w, o, step);
    assert ([step] + rest)[1..] == rest;
  }

  lemma LastAlone(w: World, o: Office, step: Step)
    ensures Run(w, o, [step]) == Next(w, o, step)
  {
    assert [step][1..] == [];
    assert Run(Next(w, o, step), o, []) == Next(w, o, step);
  }

  // ----- writing a proposal ----------------------------------------------------------------------------

  /** Writing a proposal stores it exactly when it is whole, is new or replaces the revision named, is the only one of
      its helper result, and the event is new; otherwise nothing changes. */
  lemma ProposalAlone(w: World, o: Office, p: Proposal, eventId: string, expected: Option<int>)
    ensures var t := w.tables;
      Next(w, o, WriteProposal(p, eventId, expected)).tables ==
      if && p.id != "" && p.helperResultId != "" && p.revision >= 1
         && (match expected
             case None => p.id !in t.proposals
             case Some(revision) => p.id in t.proposals && t.proposals[p.id].revision == revision)
         && (forall id | id in t.proposals && t.proposals[id].helperResultId == p.helperResultId :: id == p.id)
         && Fresh(t, eventId)
      then t.(proposals := t.proposals[p.id := p], events := t.events + {eventId})
      else t
  {
  }

  // ----- creating a preview ----------------------------------------------------------------------------

  /** The proposal may get a preview: it is valid, safe, accepted for this office and at the revision the client saw,
      and no stored preview is of the same proposal. */
  predicate Creatable(t: Tables, o: Office, id: string, expected: int) {
    && "task-proposal:" <= id && expected >= 1 && id in t.proposals
    && var p := t.proposals[id];
       && p.schemaValid && p.accepted && p.safe && p.id != "" && p.revision == expected
       && p.tenant == o.tenant && p.context == o.context
       && forall i | i in t.previews :: t.previews[i].source.id != p.id
  }

  /** A scan returns rows of the table, all of them or a hundred. */
  predicate Scanned(t: Tables, seen: set<string>) {
    seen <= t.previews.Keys && |seen| == if |t.previews.Keys| <= 100 then |t.previews.Keys| else 100
  }

  lemma {:induction false} SubsetOfSameSize(a: set<string>, b: set<string>)
    requires a <= b && |a| == |b|
    ensures a == b
  {
    if x :| x in b && x !in a {
      assert a <= b - {x} && |b - {x}| == |b| - 1;
      SubsetIsSmaller(a, b - {x});
    }
  }

  lemma {:induction false} SubsetIsSmaller(a: set<string>, b: set<string>)
    requires a <= b
    ensures |a| <= |b|
    decreases a
  {
    if a != {} {
      var x :| x in a;
      SubsetIsSmaller(a - {x}, b - {x});
    }
  }

  lemma ScanExactlyWhen(t: Tables, seen: set<string>)
    ensures ScanOf(t, seen) <==> Scanned(t, seen)
  {
    assert |t.previews| == |t.previews.Keys|;
    if Scanned(t, seen) && |t.previews.Keys| <= 100 {
      SubsetOfSameSize(seen, t.previews.Keys);
    }
  }

  function Created(o: Office, p: Proposal, id: string, now: int, eventId: string): Preview {
    Preview(id, p, 1, Ready, o.tenant, now + 900_000_000, now, now, eventId)
  }

  /** Creating a preview stores one for 900 seconds exactly when the client confirmed, the proposal may get one, the
      scan shows what a scan shows, the Guardian allows it, and the new ids are new; otherwise nothing changes. */
  lemma CreateAlone(w: World, o: Office, client: string, proposalId: string, expected: int, confirmed: bool,
                    seen: set<string>, id: string, eventId: string, now: int, allowed: bool)
    requires TaskOf(w, client) == Idle
    ensures var t := w.tables;
      Run(w, o, [CreateBegin(client, proposalId, expected, confirmed),
                 CreatePrepare(client, seen, id, eventId, now, allowed), PreviewCommitStep(client)]).tables ==
      if confirmed && Creatable(t, o, proposalId, expected) && Scanned(t, seen) && allowed
         && id != "" && id !in t.previews && Fresh(t, eventId)
      then t.(previews := t.previews[id := Created(o, t.proposals[proposalId], id, now, eventId)],
              events := t.events + {eventId})
      else t
  {
    var begin := CreateBegin(client, proposalId, expected, confirmed);
    var prepare := CreatePrepare(client, seen, id, eventId, now, allowed);
    var w2 := DraftAlone(w, o, client, begin, prepare);
    ScanExactlyWhen(w.tables, seen);
    CommitAlone(w2, o, client);
  }

  lemma DraftAlone(w: World, o: Office, client: string, begin: Step, prepare: Step) returns (w2: World)
    requires TaskOf(w, client) == Idle && Reads(begin) && Reads(prepare) && begin.client == client == prepare.client
    ensures Run(w, o, [begin, prepare, PreviewCommitStep(client)]) == Next(w2, o, PreviewCommitStep(client))
    ensures w2.tables == w.tables
    ensures TaskOf(w2, client) == Reading(w.tables, o, Reading(w.tables, o, Idle, begin), prepare)
  {
    var commit := PreviewCommitStep(client);
    assert [begin, prepare, commit] == [begin] + [prepare, commit] && [prepare, commit] == [prepare] + [commit];
    var w1 := ReadingAlone(w, o, begin, [prepare, commit]);
    w2 := ReadingAlone(w1, o, prepare, [commit]);
    LastAlone(w2, o, commit);
  }

  lemma CommitAlone(w: World, o: Office, client: string)
    ensures Next(w, o, PreviewCommitStep(client)).tables ==
      match TaskOf(w, client)
      case PreviewDraft(_, _, next, expected) => CommitPreview(w.tables, next, next.eventId, expected)
      case _ => w.tables
  {
  }

  // ----- changing a preview ----------------------------------------------------------------------------

  predicate Changeable(t: Tables, o: Office, id: string, expected: int, change: Change, now: int) {
    && "approval-preview:" <= id && expected >= 1 && id in t.previews
    && var p := t.previews[id];
       && p.state == Ready && p.revision == expected && SourceStands(t, o, p)
       && (change == Review ==> now < p.expiresAt)
  }

  /** Reviewing, denying or withdrawing a preview stores its next revision exactly when the client confirmed, the
      preview is ready and at the revision the client saw, its proposal still stands, a review is in time, the Guardian
      allows it and the event is new; otherwise nothing changes. */
  lemma ChangeAlone(w: World, o: Office, client: string, id: string, expected: int, change: Change, confirmed: bool,
                    eventId: string, now: int, allowed: bool)
    requires TaskOf(w, client) == Idle && PreviewsOk(w.tables)
    ensures var t := w.tables;
      Run(w, o, [ChangeBegin(client, id, expected, change, confirmed), ChangePrepare(client, eventId, now, allowed),
                 PreviewCommitStep(client)]).tables ==
      if confirmed && Changeable(t, o, id, expected, change, now) && allowed && Fresh(t, eventId)
      then t.(previews := t.previews[id := t.previews[id].(
                state := if change == Review then Reviewed else if change == Deny then Denied else Withdrawn,
                revision := 2, tenant := o.tenant, updatedAt := now, eventId := eventId)],
              events := t.events + {eventId})
      else t
  {
    var begin := ChangeBegin(client, id, expected, change, confirmed);
    var prepare := ChangePrepare(client, eventId, now, allowed);
    var w2 := DraftAlone(w, o, client, begin, prepare);
    CommitAlone(w2, o, client);
    var task := ChangeDrafted(w.tables, o, begin, prepare);
    if task.PreviewDraft? {
      ChangeCommits(w.tables, w.tables.previews[id], task.next);
    }
  }

  function ChangedTo(p: Preview, o: Office, change: Change, now: int, eventId: string): Preview {
    p.(state := if change == Review then Reviewed else if change == Deny then Denied else Withdrawn,
       revision := p.revision + 1, tenant := o.tenant, updatedAt := now, eventId := eventId)
  }

  /** What the two reading steps leave the client with: a draft exactly when the preview is changeable. */
  lemma ChangeDrafted(t: Tables, o: Office, begin: Step, prepare: Step) returns (task: Task)
    requires begin.ChangeBegin? && prepare.ChangePrepare?
    ensures task == Reading(t, o, Reading(t, o, Idle, begin), prepare)
    ensures
      if begin.confirmed && Changeable(t, o, begin.previewId, begin.expected, begin.change, prepare.now) && prepare.allowed
      then
        var p := t.previews[begin.previewId];
        task == PreviewDraft(Some(p), Some(begin.change), ChangedTo(p, o, begin.change, prepare.now, prepare.eventId),
                             Some(p.revision))
      else !task.PreviewDraft?
  {
    task := Reading(t, o, Reading(t, o, Idle, begin), prepare);
  }

  lemma ChangeCommits(t: Tables, p: Preview, next: Preview)
    requires PreviewsOk(t) && p.id in t.previews && t.previews[p.id] == p
    requires next.id == p.id && next.source == p.source && next.revision == p.revision + 1
    ensures CommitPreview(t, next, next.eventId, Some(p.revision)) ==
      if Fresh(t, next.eventId)
      then t.(previews := t.previews[p.id := next], events := t.events + {next.eventId}) else t
  {
    assert PreviewOk(p);
  }

  // ----- requesting approval ---------------------------------------------------------------------------

  predicate Requestable(t: Tables, o: Office, id: string, expected: int, now: int) {
    && "approval-preview:" <= id && expected >= 1 && id in t.previews
    && var p := t.previews[id];
       && p.state == Reviewed && p.revision == expected && now < p.expiresAt && p.tenant == o.tenant
       && SourceStands(t, o, p) && forall i | i in t.requests :: t.requests[i].preview.id != p.id
  }

  function Requested(t: Tables, o: Office, id: string, operator: Session, requestId: string, evidenceId: string,
                     later: int): Request
    requires id in t.previews
  {
    Request(requestId, t.previews[id], o.tenant, operator.bindingId, later + 900_000_000, Pending, None, None,
            [evidenceId])
  }

  lemma RequestReadings(t: Tables, o: Office, task: Task, step: Step)
    ensures step.RequestBegin? && task.Idle? ==>
      Reading(t, o, task, step) == BeginRequest(t, o, step.previewId, step.expected, step.now, step.confirmed)
    ensures step.RequestCheck? ==>
      Reading(t, o, task, step) == if task.PreviewRead? then CheckFree(t, o, task.preview, step.session) else task
    ensures step.RequestPrepare? ==>
      Reading(t, o, task, step) ==
      if task.PreviewFree?
      then PrepareRequest(t, o, task.preview, task.operator, step.requestId, step.eventId, step.evidenceId,
                          step.now, step.allowed)
      else task
  {
  }

  /** What the three reading steps leave the client with: a draft exactly when the preview is requestable. */
  lemma RequestDrafted(t: Tables, o: Office, begin: Step, check: Step, prepare: Step) returns (task: Task)
    requires begin.RequestBegin? && check.RequestCheck? && prepare.RequestPrepare?
    ensures task == Reading(t, o, Reading(t, o, Reading(t, o, Idle, begin), check), prepare)
    ensures
      if begin.confirmed && Requestable(t, o, begin.previewId, begin.expected, begin.now)
         && check.session.Some? && check.session.value.tenant == o.tenant && prepare.allowed
      then task == RequestDraft(Requested(t, o, begin.previewId, check.session.value, prepare.requestId,
                                          prepare.evidenceId, prepare.now), prepare.eventId)
      else !task.RequestDraft?
  {
    var read := Reading(t, o, Idle, begin);
    var free := Reading(t, o, read, check);
    task := Reading(t, o, free, prepare);
    RequestReadings(t, o, Idle, begin);
    RequestReadings(t, o, read, check);
    RequestReadings(t, o, free, prepare);
  }

  /** Requesting approval stores a pending request for 900 seconds exactly when the client confirmed, the preview is
      reviewed, in time and not yet cited, its proposal still stands, an operator of the office attends, the Guardian
      allows it, and the new ids are new; otherwise nothing changes. */
  lemma RequestAlone(w: World, o: Office, client: string, id: string, expected: int, now: int, confirmed: bool,
                     session: Option<Session>, requestId: string, eventId: string, evidenceId: string, later: int,
                     allowed: bool)
    requires TaskOf(w, client) == Idle && PreviewsOk(w.tables)
    ensures var t := w.tables;
      Run(w, o, [RequestBegin(client, id, expected, now, confirmed), RequestCheck(client, session),
                 RequestPrepare(client, requestId, eventId, evidenceId, later, allowed),
                 RequestCommitStep(client)]).tables ==
      if confirmed && Requestable(t, o, id, expected, now) && session.Some? && session.value.tenant == o.tenant
         && allowed && requestId != "" && requestId !in t.requests && Fresh(t, eventId)
      then t.(requests := t.requests[requestId := Requested(t, o, id, session.value, requestId, evidenceId, later)],
              events := t.events + {eventId})
      else t
  {
    var t := w.tables;
    var begin, check := RequestBegin(client, id, expected, now, confirmed), RequestCheck(client, session);
    var prepare := RequestPrepare(client, requestId, eventId, evidenceId, later, allowed);
    var commit := RequestCommitStep(client);
    assert [begin, check, prepare, commit] == [begin] + [check, prepare, commit];
    assert [check, prepare, commit] == [check] + [prepare, commit] && [prepare, commit] == [prepare] + [commit];
    var w1 := ReadingAlone(w, o, begin, [check, prepare, commit]);
    var w2 := ReadingAlone(w1, o, check, [prepare, commit]);
    var w3 := ReadingAlone(w2, o, prepare, [commit]);
    LastAlone(w3, o, commit);
    var task := RequestDrafted(t, o, begin, check, prepare);
    CommitRequestAlone(w3, o, client);
    if task.RequestDraft? {
      RequestCommitExactlyWhen(t, task.request, eventId);
    }
  }

  lemma RequestCommitExactlyWhen(t: Tables, r: Request, eventId: string)
    requires r.preview.id != "" && forall i | i in t.requests :: t.requests[i].preview.id != r.preview.id
    ensures CommitRequest(t, r, eventId) ==
      if r.id != "" && r.id !in t.requests && Fresh(t, eventId)
      then t.(requests := t.requests[r.id := r], events := t.events + {eventId}) else t
  {
  }

  lemma CommitRequestAlone(w: World, o: Office, client: string)
    ensures Next(w, o, RequestCommitStep(client)).tables ==
      match TaskOf(w, client)
      case RequestDraft(r, eventId) => CommitRequest(w.tables, r, eventId)
      case _ => w.tables
  {
  }

  // ----- deciding a request ----------------------------------------------------------------------------

  /** The request is the pending one that the client saw, and the action fits the deadline, the session and, unless it
      records an expiry, the proposal the request goes back to. */
  predicate Decidable(t: Tables, o: Office, id: string, r: Request, action: Action, now: int, session: Option<Session>) {
    && "approval-request:" <= id && id in t.requests && t.requests[id] == r && r.status == Pending && r.tenant == o.tenant
    && if action == ExpireRequest then r.expiresAt <= now && session == None
       else
         && now < r.expiresAt && session.Some? && session.value.tenant == o.tenant
         && (action == CancelRequest ==> session.value.bindingId == r.requester)
         && var source := r.preview.source;
            source.id in t.proposals && t.proposals[source.id] == source && source.tenant == o.tenant
  }

  function StatusFor(action: Action): Status {
    if action == DenyRequest then DeniedByApprover else if action == CancelRequest then Cancelled else Expired
  }

  function Decided(r: Request, action: Action, now: int, session: Option<Session>, evidenceId: string): Request {
    r.(status := StatusFor(action), decidedAt := Some(now), evidence := r.evidence + [evidenceId],
       approver := if session.Some? then Some(session.value.operatorId) else None)
  }

  lemma DecisionReadings(t: Tables, o: Office, task: Task, step: Step)
    ensures step.DecideBegin? && task.Idle? ==>
      Reading(t, o, task, step) == BeginDecide(t, o, step.requestId, step.expectedRequest, step.action, step.confirmed)
    ensures step.DecideCheck? ==>
      Reading(t, o, task, step) ==
      if task.RequestRead? then CheckOpen(t, o, task.request, task.action, step.now, step.session) else task
    ensures step.DecideSource? ==>
      Reading(t, o, task, step) ==
      if task.RequestOpen? then ReadSource(t, task.request, task.action, task.now, task.session) else task
    ensures step.DecidePrepare? ==>
      Reading(t, o, task, step) ==
      if task.SourceRead?
      then PrepareDecision(t, o, task.request, task.action, task.now, task.session, task.source,
                           step.resultId, step.eventId, step.evidenceId, step.allowed)
      else task
  {
  }

  /** What the first two steps leave the client with. */
  lemma DecisionOpened(t: Tables, o: Office, begin: Step, check: Step) returns (task: Task)
    requires begin.DecideBegin? && check.DecideCheck?
    requires begin.requestId in t.requests && t.requests[begin.requestId].status == Pending ==>
      forall d | d in t.results :: t.results[d].requestId != t.requests[begin.requestId].id
    ensures task == Reading(t, o, Reading(t, o, Idle, begin), check)
    ensures var r, action := begin.expectedRequest, begin.action;
      if && begin.confirmed && "approval-request:" <= begin.requestId && begin.requestId in t.requests
         && t.requests[begin.requestId] == r && r.status == Pending && r.tenant == o.tenant
         && if action == ExpireRequest then r.expiresAt <= check.now && check.session == None
            else && check.now < r.expiresAt && check.session.Some? && check.session.value.tenant == o.tenant
                 && (action == CancelRequest ==> check.session.value.bindingId == r.requester)
      then task == RequestOpen(r, action, check.now, check.session) else task.Idle?
  {
    var read := Reading(t, o, Idle, begin);
    task := Reading(t, o, read, check);
    DecisionReadings(t, o, Idle, begin);
    DecisionReadings(t, o, read, check);
  }

  /** What the last two reading steps leave the client with. */
  lemma DecisionPrepared(t: Tables, o: Office, open: Task, source: Step, prepare: Step) returns (task: Task)
    requires source.DecideSource? && prepare.DecidePrepare?
    requires open.Idle? || (open.RequestOpen? && Cites(t, open.request))
    ensures task == Reading(t, o, Reading(t, o, open, source), prepare)
    ensures
      if open.RequestOpen? && prepare.allowed
         && (open.action != ExpireRequest ==>
               var p := open.request.preview.source;
               p.id in t.proposals && t.proposals[p.id] == p && p.tenant == o.tenant)
      then task == DecisionDraft(Draft(
        open.request, open.action, open.session,
        Decided(open.request, open.action, open.now, open.session, prepare.evidenceId),
        Decision(prepare.resultId, open.request.id, StatusFor(open.action), open.now), prepare.eventId))
      else !task.DecisionDraft?
  {
    var read := Reading(t, o, open, source);
    task := Reading(t, o, read, prepare);
    DecisionReadings(t, o, open, source);
    DecisionReadings(t, o, read, prepare);
  }

  /** Deciding a request stores the decided request and its result together exactly when the client confirmed, the
      request is decidable, the Guardian allows it and the new ids are new; otherwise nothing changes. */
  lemma DecideAlone(w: World, o: Office, client: string, id: string, r: Request, action: Action, confirmed: bool,
                    now: int, session: Option<Session>, resultId: string, eventId: string, evidenceId: string,
                    allowed: bool)
    requires TaskOf(w, client) == Idle && TablesOk(w.tables)
    ensures var t := w.tables;
      Run(w, o, [DecideBegin(client, id, r, action, confirmed), DecideCheck(client, now, session), DecideSource(client),
                 DecidePrepare(client, resultId, eventId, evidenceId, allowed), DecideCommitStep(client)]).tables ==
      if confirmed && Decidable(t, o, id, r, action, now, session) && allowed
         && resultId != "" && resultId !in t.results && Fresh(t, eventId)
      then t.(requests := t.requests[id := Decided(r, action, now, session, evidenceId)],
              results := t.results[resultId := Decision(resultId, id, StatusFor(action), now)],
              events := t.events + {eventId})
      else t
  {
    PendingHasNoResult(w.tables, id);
    var w4, task := DecisionAlone(w, o, client, DecideBegin(client, id, r, action, confirmed),
                                  DecideCheck(client, now, session), DecideSource(client),
                                  DecidePrepare(client, resultId, eventId, evidenceId, allowed));
    CommitDecisionAlone(w4, o, client);
    if task.DecisionDraft? {
      DecisionCommitExactlyWhen(w.tables, task.draft);
    }
  }

  /** The four reading steps, one after another, and the draft they come to. */
  lemma DecisionAlone(w: World, o: Office, client: string, begin: Step, check: Step, source: Step, prepare: Step)
    returns (last: World, task: Task)
    requires TaskOf(w, client) == Idle && begin.DecideBegin? && check.DecideCheck? && source.DecideSource?
    requires prepare.DecidePrepare? && begin.client == check.client == source.client == prepare.client == client
    requires var t, id := w.tables, begin.requestId;
      && (id in t.requests ==> t.requests[id].id == id && Cites(t, t.requests[id]))
      && (id in t.requests && t.requests[id].status == Pending ==>
            forall d | d in t.results :: t.results[d].requestId != id)
    ensures Run(w, o, [begin, check, source, prepare, DecideCommitStep(client)]) == Next(last, o, DecideCommitStep(client))
    ensures last.tables == w.tables && TaskOf(last, client) == task
    ensures var r, action := begin.expectedRequest, begin.action;
      if begin.confirmed && Decidable(w.tables, o, begin.requestId, r, action, check.now, check.session) && prepare.allowed
      then task == DecisionDraft(Draft(
        r, action, check.session, Decided(r, action, check.now, check.session, prepare.evidenceId),
        Decision(prepare.resultId, r.id, StatusFor(action), check.now), prepare.eventId))
      else !task.DecisionDraft?
  {
    var commit := DecideCommitStep(client);
    assert [begin, check, source, prepare, commit] == [begin] + [check, source, prepare, commit];
    assert [check, source, prepare, commit] == [check] + [source, prepare, commit];
    assert [source, prepare, commit] == [source] + [prepare, commit] && [prepare, commit] == [prepare] + [commit];
    var w1 := ReadingAlone(w, o, begin, [check, source, prepare, commit]);
    var w2 := ReadingAlone(w1, o, check, [source, prepare, commit]);
    var w3 := ReadingAlone(w2, o, source, [prepare, commit]);
    last := ReadingAlone(w3, o, prepare, [commit]);
    LastAlone(last, o, commit);
    var open := DecisionOpened(w.tables, o, begin, check);
    task := DecisionPrepared(w.tables, o, open, source, prepare);
  }

  lemma PendingHasNoResult(t: Tables, id: string)
    requires RequestsOk(t) && ResultsOk(t)
    ensures id in t.requests ==> t.requests[id].id == id && Cites(t, t.requests[id])
    ensures id in t.requests && t.requests[id].status == Pending ==>
      forall d | d in t.results :: t.results[d].requestId != id
  {
    forall d | d in t.results ensures ResultOk(t, t.results[d]) {
    }
  }

  lemma DecisionCommitExactlyWhen(t: Tables, d: Draft)
    requires d.read.id in t.requests && t.requests[d.read.id] == d.read && d.read.status == Pending && d.read.id != ""
    requires d.updated.id == d.read.id && d.result.requestId == d.read.id
    requires forall i | i in t.results :: t.results[i].requestId != d.read.id
    ensures CommitDecision(t, d.updated, d.result, d.read, d.eventId) ==
      if d.result.id != "" && d.result.id !in t.results && Fresh(t, d.eventId)
      then t.(requests := t.requests[d.read.id := d.updated], results := t.results[d.result.id := d.result],
              events := t.events + {d.eventId})
      else t
  {
  }

  lemma CommitDecisionAlone(w: World, o: Office, client: string)
    ensures Next(w, o, DecideCommitStep(client)).tables ==
      match TaskOf(w, client)
      case DecisionDraft(d) => CommitDecision(w.tables, d.updated, d.result, d.read, d.eventId)
      case _ => w.tables
  {
  }
}
