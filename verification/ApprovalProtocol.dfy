/** The approval preview, pending request and decision services as interleaved clients of one
    store: every store read and every commit is a step of its own, so other clients' steps may fall
    between any two of them. */
module ApprovalProtocol {
  import opened Values
  import opened HarnessStore

  const TTL := 900_000_000  // preview and request lifetime, in microseconds
  const SCAN_LIMIT := 100

  /** The tenant and customer context the services are configured for. */
  datatype Office = Office(tenant: string, context: string)

  datatype Session = Session(bindingId: string, operatorId: string, tenant: string)

  datatype Change = Review | Deny | Withdraw

  datatype Action = DenyRequest | CancelRequest | ExpireRequest

  /** A decision as the service prepares it, from the request it read and the operator's session, if there is one. */
  datatype Draft = Draft(
    read: Request, action: Action, session: Option<Session>, updated: Request, result: Decision, eventId: string)

  /** Where a client stands: the values it has read so far and carries to its next step. */
  datatype Task =
    | Idle
    | CreateRead(proposal: Proposal)
    | ChangeRead(read: Preview, change: Change)
    | PreviewDraft(was: Option<Preview>, asked: Option<Change>, next: Preview, expected: Option<int>)
    | PreviewRead(preview: Preview)
    | PreviewFree(preview: Preview, operator: Session)
    | RequestDraft(request: Request, eventId: string)
    | RequestRead(request: Request, action: Action)
    | RequestOpen(request: Request, action: Action, now: int, session: Option<Session>)
    | SourceRead(request: Request, action: Action, now: int, session: Option<Session>, source: Option<Preview>)
    | DecisionDraft(draft: Draft)

  /** What a commit was asked for, replaced and wrote; `read` and `draft.read` are what its client had read, `replaced`
      and `current` what the store held. */
  datatype Commit =
    | PreviewCommit(
        id: string, asked: Option<Change>, read: Option<Preview>, replaced: Option<Preview>, written: Preview)
    | DecisionCommit(id: string, draft: Draft, current: Request, cited: Option<Preview>)

  datatype World = World(tables: Tables, tasks: map<string, Task>, log: seq<Commit>)

  const BEGIN := World(NO_ROWS, map[], [])

  datatype Step =
    | WriteProposal(proposal: Proposal, eventId: string, revision: Option<int>)
    | RecordEvent(eventId: string)
    | CreateBegin(client: string, proposalId: string, expected: int, confirmed: bool)
    | CreatePrepare(client: string, seen: set<string>, previewId: string, eventId: string, now: int, allowed: bool)
    | ChangeBegin(client: string, previewId: string, expected: int, change: Change, confirmed: bool)
    | ChangePrepare(client: string, eventId: string, now: int, allowed: bool)
    | PreviewCommitStep(client: string)
    | RequestBegin(client: string, previewId: string, expected: int, now: int, confirmed: bool)
    | RequestCheck(client: string, session: Option<Session>)
    | RequestPrepare(client: string, requestId: string, eventId: string, evidenceId: string, now: int, allowed: bool)
    | RequestCommitStep(client: string)
    | DecideBegin(client: string, requestId: string, expectedRequest: Request, action: Action, confirmed: bool)
    | DecideCheck(client: string, now: int, session: Option<Session>)
    | DecideSource(client: string)
    | DecidePrepare(client: string, resultId: string, eventId: string, evidenceId: string, allowed: bool)
    | DecideCommitStep(client: string)

  // ----- the steps of one client --------------------------------------------------------------

  /** `allowed` gathers what the model does not look into: schema validation of the new record, the
      Guardian's verdict and the writing of the evidence events. A refused step ends in `Idle`. */

  function BeginCreate(t: Tables, o: Office, id: string, expected: int, confirmed: bool): Task {
    if confirmed && "task-proposal:" <= id && expected >= 1 && id in t.proposals
       && var p := t.proposals[id];
       p.schemaValid && p.revision == expected && p.tenant == o.tenant && p.context == o.context && p.accepted
    then CreateRead(t.proposals[id]) else Idle
  }

  /** The scan for an existing preview returns at most 100 rows; `seen` are the rows it returned. */
  predicate ScanOf(t: Tables, seen: set<string>) {
    seen <= t.previews.Keys && (|t.previews| <= SCAN_LIMIT ==> seen == t.previews.Keys)
    && (|t.previews| > SCAN_LIMIT ==> |seen| == SCAN_LIMIT)
  }

  function PrepareCreate(t: Tables, o: Office, p: Proposal, seen: set<string>, id: string, eventId: string,
                         now: int, allowed: bool): Task {
    if ScanOf(t, seen) && (forall i | i in seen :: i in t.previews && t.previews[i].source.id != p.id)
       && p.safe && allowed
    then PreviewDraft(None, None, Preview(id, p, 1, Ready, o.tenant, now + TTL, now, now, eventId), None)
    else Idle
  }

  function BeginChange(t: Tables, id: string, expected: int, change: Change, confirmed: bool): Task {
    if confirmed && "approval-preview:" <= id && expected >= 1 && id in t.previews
       && t.previews[id].revision == expected && t.previews[id].state == Ready
    then ChangeRead(t.previews[id], change) else Idle
  }

  /** `_source_matches`: the source proposal is still the one the preview was made from. */
  predicate SourceMatches(t: Tables, o: Office, p: Preview) {
    && p.source.id in t.proposals && t.proposals[p.source.id] == p.source
    && p.source.schemaValid && p.source.accepted && p.source.tenant == o.tenant && p.source.context == o.context
  }

  function StateAfter(change: Change): PreviewState {
    match change
    case Review => Reviewed
    case Deny => Denied
    case Withdraw => Withdrawn
  }

  function PrepareChange(t: Tables, o: Office, p: Preview, change: Change, eventId: string, now: int, allowed: bool): Task {
    if SourceMatches(t, o, p) && !(change == Review && now >= p.expiresAt) && allowed
    then PreviewDraft(Some(p), Some(change), p.(state := StateAfter(change), revision := p.revision + 1, tenant := o.tenant,
                                                updatedAt := now, eventId := eventId), Some(p.revision))
    else Idle
  }

  function BeginRequest(t: Tables, o: Office, id: string, expected: int, now: int, confirmed: bool): Task {
    if confirmed && "approval-preview:" <= id && expected >= 1 && id in t.previews
       && var p := t.previews[id];
       p.revision == expected && p.state == Reviewed && now < p.expiresAt && p.tenant == o.tenant
    then PreviewRead(t.previews[id]) else Idle
  }

  function CheckFree(t: Tables, o: Office, p: Preview, session: Option<Session>): Task {
    if session.Some? && session.value.tenant == o.tenant
       && forall id | id in t.requests :: t.requests[id].preview.id != p.id
    then PreviewFree(p, session.value) else Idle
  }

  function PrepareRequest(t: Tables, o: Office, p: Preview, s: Session, id: string, eventId: string,
                          evidenceId: string, now: int, allowed: bool): Task {
    if SourceMatches(t, o, p) && allowed
    then RequestDraft(Request(id, p, o.tenant, s.bindingId, now + TTL, Pending, None, None, [evidenceId]), eventId)
    else Idle
  }

  function BeginDecide(t: Tables, o: Office, id: string, expected: Request, action: Action, confirmed: bool): Task {
    if confirmed && "approval-request:" <= id && id in t.requests && t.requests[id] == expected
       && expected.tenant == o.tenant && expected.status == Pending
    then RequestRead(t.requests[id], action) else Idle
  }

  function CheckOpen(t: Tables, o: Office, r: Request, action: Action, now: int, session: Option<Session>): Task {
    var expired := now >= r.expiresAt;
    if forall id | id in t.results :: t.results[id].requestId != r.id then
      if action == ExpireRequest then
        if expired && session.None? then RequestOpen(r, action, now, None) else Idle
      else if !expired && session.Some? && session.value.tenant == o.tenant
              && (action == CancelRequest ==> session.value.bindingId == r.requester)
      then RequestOpen(r, action, now, session) else Idle
    else Idle
  }

  /** Deny and cancel read the cited preview and then its proposal; expiry reads neither. */
  function ReadSource(t: Tables, r: Request, action: Action, now: int, session: Option<Session>): Task {
    if action == ExpireRequest then SourceRead(r, action, now, session, None)
    else if r.preview.id in t.previews && t.previews[r.preview.id] == r.preview && r.preview.state == Reviewed
    then SourceRead(r, action, now, session, Some(t.previews[r.preview.id])) else Idle
  }

  function StatusAfter(action: Action): Status {
    match action
    case DenyRequest => DeniedByApprover
    case CancelRequest => Cancelled
    case ExpireRequest => Expired
  }

  function PrepareDecision(t: Tables, o: Office, r: Request, action: Action, now: int, session: Option<Session>,
                           preview: Option<Preview>, resultId: string, eventId: string, evidenceId: string,
                           allowed: bool): Task {
    var current := preview.Some? ==>
      && preview.value.source.id in t.proposals && t.proposals[preview.value.source.id] == preview.value.source
      && preview.value.source.tenant == o.tenant;
    if current && allowed then
      var status := StatusAfter(action);
      DecisionDraft(Draft(
        r, action, session,
        r.(status := status, decidedAt := Some(now), evidence := r.evidence + [evidenceId],
           approver := if session.Some? then Some(session.value.operatorId) else None),
        Decision(resultId, r.id, status, now), eventId))
    else Idle
  }

  // ----- the world's steps ---------------------------------------------------------------------

  function TaskOf(w: World, client: string): Task {
    if client in w.tasks then w.tasks[client] else Idle
  }

  function Lookup<T>(m: map<string, T>, id: string): Option<T> {
    if id in m then Some(m[id]) else None
  }

  function SetTask(w: World, client: string, task: Task): World {
    w.(tasks := w.tasks[client := task])
  }

  /** A commit runs in the store; the client is then done, whether the store accepted or refused. */
  function CommitDraftedPreview(w: World, client: string, was: Option<Preview>, change: Option<Change>, next: Preview,
                                expected: Option<int>): World {
    var done := SetTask(w, client, Idle);
    if CheckPreview(w.tables, next, next.eventId, expected).Fail? then done
    else done.(tables := CommitPreview(w.tables, next, next.eventId, expected),
               log := w.log + [PreviewCommit(next.id, change, was, Lookup(w.tables.previews, next.id), next)])
  }

  function CommitDraftedDecision(w: World, client: string, d: Draft): World {
    var done := SetTask(w, client, Idle);
    if CheckDecision(w.tables, d.updated, d.result, d.read, d.eventId).Fail? then done
    else done.(tables := CommitDecision(w.tables, d.updated, d.result, d.read, d.eventId),
               log := w.log + [DecisionCommit(d.read.id, d, w.tables.requests[d.updated.id],
                                              Lookup(w.tables.previews, d.read.preview.id))])
  }

  /** The client's next task, for the steps that only read the store. */
  function Reading(t: Tables, o: Office, task: Task, step: Step): Task {
    match (step, task)
    case (CreateBegin(_, id, expected, ok), Idle) => BeginCreate(t, o, id, expected, ok)
    case (CreatePrepare(_, seen, id, e, now, ok), CreateRead(p)) => PrepareCreate(t, o, p, seen, id, e, now, ok)
    case (ChangeBegin(_, id, expected, change, ok), Idle) => BeginChange(t, id, expected, change, ok)
    case (ChangePrepare(_, e, now, ok), ChangeRead(p, change)) => PrepareChange(t, o, p, change, e, now, ok)
    case (RequestBegin(_, id, expected, now, ok), Idle) => BeginRequest(t, o, id, expected, now, ok)
    case (RequestCheck(_, session), PreviewRead(p)) => CheckFree(t, o, p, session)
    case (RequestPrepare(_, id, e, ev, now, ok), PreviewFree(p, s)) => PrepareRequest(t, o, p, s, id, e, ev, now, ok)
    case (DecideBegin(_, id, r, action, ok), Idle) => BeginDecide(t, o, id, r, action, ok)
    case (DecideCheck(_, now, session), RequestRead(r, action)) => CheckOpen(t, o, r, action, now, session)
    case (DecideSource(_), RequestOpen(r, action, now, session)) => ReadSource(t, r, action, now, session)
    case (DecidePrepare(_, id, e, ev, ok), SourceRead(r, action, now, session, p)) =>
      PrepareDecision(t, o, r, action, now, session, p, id, e, ev, ok)
    case _ => task
  }

  /** One step of the world. A step that does not fit its client's task changes nothing. */
  function Next(w: World, o: Office, step: Step): World {
    match step
    case WriteProposal(p, e, expected) => w.(tables := CommitProposal(w.tables, p, e, expected))
    case RecordEvent(e) => w.(tables := WriteEvent(w.tables, e))
    case PreviewCommitStep(client) =>
      (match TaskOf(w, client)
       case PreviewDraft(was, change, next, expected) => CommitDraftedPreview(w, client, was, change, next, expected)
       case _ => w)
    case RequestCommitStep(client) =>
      (match TaskOf(w, client)
       case RequestDraft(r, e) => SetTask(w, client, Idle).(tables := CommitRequest(w.tables, r, e))
       case _ => w)
    case DecideCommitStep(client) =>
      (match TaskOf(w, client)
       case DecisionDraft(d) => CommitDraftedDecision(w, client, d)
       case _ => w)
    case _ => SetTask(w, step.client, Reading(w.tables, o, TaskOf(w, step.client), step))
  }

  function Run(w: World, o: Office, steps: seq<Step>): World
    decreases |steps|
  {
    if steps == [] then w else Run(Next(w, o, steps[0]), o, steps[1..])
  }
}
