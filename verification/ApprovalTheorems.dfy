/** What every interleaving of the approval services keeps. */
module ApprovalTheorems {
  import opened Values
  import opened HarnessStore
  import opened ApprovalProtocol

  // ----- the store ---------------------------------------------------------------------------

  predicate PreviewOk(p: Preview) {
    && p.id != "" && p.source.id != ""
    && (p.revision == 1 || p.revision == 2) && (p.state == Ready <==> p.revision == 1)
    && (p.state == Reviewed ==> p.updatedAt < p.expiresAt)
  }

  /** The request cites a reviewed preview that is still stored unchanged. */
  predicate Cites(t: Tables, r: Request) {
    r.preview.state == Reviewed && r.preview.id in t.previews && t.previews[r.preview.id] == r.preview
  }

  predicate Timely(r: Request, value: Status, decidedAt: int) {
    && (value == DeniedByApprover || value == Cancelled ==> decidedAt < r.expiresAt)
    && (value == Expired ==> decidedAt >= r.expiresAt)
  }

  predicate ResultOk(t: Tables, d: Decision) {
    && d.requestId in t.requests && d.value != Pending
    && t.requests[d.requestId].status == d.value && t.requests[d.requestId].decidedAt == Some(d.decidedAt)
    && Timely(t.requests[d.requestId], d.value, d.decidedAt)
  }

  ghost predicate HasResult(t: Tables, requestId: string) {
    exists id :: id in t.results && t.results[id].requestId == requestId
  }

  ghost predicate PreviewsOk(t: Tables) {
    && (forall id | id in t.previews :: t.previews[id].id == id && PreviewOk(t.previews[id]))
    && (forall i, j | i in t.previews && j in t.previews && t.previews[i].source.id == t.previews[j].source.id :: i == j)
  }

  ghost predicate RequestsOk(t: Tables) {
    && (forall id | id in t.requests :: t.requests[id].id == id && Cites(t, t.requests[id]))
    && (forall i, j | i in t.requests && j in t.requests && t.requests[i].preview.id == t.requests[j].preview.id :: i == j)
  }

  ghost predicate ResultsOk(t: Tables) {
    && (forall id | id in t.results :: ResultOk(t, t.results[id]))
    && (forall i, j | i in t.results && j in t.results && t.results[i].requestId == t.results[j].requestId :: i == j)
  }

  ghost predicate ClosedHaveResults(t: Tables) {
    forall id | id in t.requests && t.requests[id].status != Pending :: HasResult(t, id)
  }

  ghost predicate TablesOk(t: Tables) {
    PreviewsOk(t) && RequestsOk(t) && ResultsOk(t) && ClosedHaveResults(t)
  }

  // ----- how the store moves ------------------------------------------------------------------

  /** A preview changes at most once, from revision 1 to 2; a request at most once, when decided. */
  ghost predicate Moves(t: Tables, u: Tables) {
    && (forall id | id in t.previews ::
          id in u.previews
          && (u.previews[id] == t.previews[id] || (t.previews[id].revision == 1 && u.previews[id].revision == 2)))
    && (forall id | id in t.requests ::
          id in u.requests
          && (u.requests[id] == t.requests[id] || (t.requests[id].status == Pending && u.requests[id].status != Pending)))
  }

  // ----- the clients --------------------------------------------------------------------------

  /** A record the client read is either still current or has moved on for good. */
  predicate Held(t: Tables, p: Preview) {
    p.id in t.previews && PreviewOk(p) && (t.previews[p.id] == p || (p.revision == 1 && t.previews[p.id].revision == 2))
  }

  predicate Fixed(t: Tables, p: Preview) {
    p.state == Reviewed && p.revision == 2 && p.id in t.previews && t.previews[p.id] == p
  }

  predicate Open(t: Tables, r: Request) {
    && r.status == Pending && r.id in t.requests && Fixed(t, r.preview)
    && (t.requests[r.id] == r || t.requests[r.id].status != Pending)
  }

  /** A new preview is ready, for 900 seconds, of an accepted and safe proposal. */
  predicate IsNew(p: Preview) {
    && p.revision == 1 && p.state == Ready && p.updatedAt == p.createdAt && p.expiresAt == p.createdAt + 900_000_000
    && p.source.accepted && p.source.safe && p.source.schemaValid
  }

  /** `next` is `p` after the change: the state is the one the change asks for, the revision is one higher, and
      besides these only the tenant, the time and the event are new. A review comes before the preview expires. */
  predicate Changed(p: Preview, change: Change, next: Preview) {
    && (next.state == Reviewed <==> change == Review) && (next.state == Denied <==> change == Deny)
    && (next.state == Withdrawn <==> change == Withdraw)
    && next.id == p.id && next.source == p.source && next.revision == p.revision + 1
    && next.expiresAt == p.expiresAt && next.createdAt == p.createdAt
    && (change == Review ==> next.updatedAt < p.expiresAt)
  }

  /** Who may act: nobody has to be there to record an expiry, and only the requester cancels. */
  predicate Attended(r: Request, action: Action, session: Option<Session>) {
    && (session.None? <==> action == ExpireRequest)
    && (action == CancelRequest ==> session.Some? && session.value.bindingId == r.requester)
  }

  /** Each action gives its own result; besides status, time and approver, only one piece of evidence is new. */
  predicate DraftOk(d: Draft) {
    && (d.result.value == DeniedByApprover <==> d.action == DenyRequest)
    && (d.result.value == Cancelled <==> d.action == CancelRequest)
    && (d.result.value == Expired <==> d.action == ExpireRequest)
    && d.result.requestId == d.read.id && d.updated.status == d.result.value
    && d.updated.decidedAt == Some(d.result.decidedAt)
    && d.updated.id == d.read.id && d.updated.preview == d.read.preview && d.updated.expiresAt == d.read.expiresAt
    && d.updated.tenant == d.read.tenant && d.updated.requester == d.read.requester
    && |d.updated.evidence| == |d.read.evidence| + 1 && d.read.evidence <= d.updated.evidence
    && Attended(d.read, d.action, d.session)
    && d.updated.approver == (if d.session.Some? then Some(d.session.value.operatorId) else None)
    && Timely(d.read, d.result.value, d.result.decidedAt)
  }

  predicate TimeFits(r: Request, action: Action, now: int) {
    if action == ExpireRequest then now >= r.expiresAt else now < r.expiresAt
  }

  predicate TaskOk(t: Tables, task: Task) {
    match task
    case Idle => true
    case ChangeRead(p, _) => Held(t, p) && p.state == Ready
    case CreateRead(p) => p.accepted && p.schemaValid
    case PreviewDraft(None, change, next, expected) => change == None && expected == None && IsNew(next)
    case PreviewDraft(Some(p), change, next, expected) =>
      Held(t, p) && p.state == Ready && expected == Some(1) && change.Some? && Changed(p, change.value, next)
    case PreviewRead(p) => Fixed(t, p)
    case PreviewFree(p, _) => Fixed(t, p)
    case RequestDraft(r, _) => r.status == Pending && Fixed(t, r.preview)
    case RequestRead(r, _) => Open(t, r)
    case RequestOpen(r, action, now, session) => Open(t, r) && TimeFits(r, action, now) && Attended(r, action, session)
    case SourceRead(r, action, now, session, _) => Open(t, r) && TimeFits(r, action, now) && Attended(r, action, session)
    case DecisionDraft(d) => Open(t, d.read) && DraftOk(d)
  }

  // ----- the log of commits ---------------------------------------------------------------------

  predicate CommitOk(c: Commit) {
    match c
    case PreviewCommit(id, change, read, replaced, written) =>
      && replaced == read
      && written.id == id && PreviewOk(written)
      && (read.None? ==> change == None && IsNew(written))
      && (read.Some? ==>
            && read.value.id == id && read.value.revision == 1 && read.value.state == Ready
            && change.Some? && Changed(read.value, change.value, written))
    case DecisionCommit(id, draft, current, cited) =>
      && current == draft.read && draft.read.id == id && draft.read.status == Pending && DraftOk(draft)
      && cited == Some(draft.read.preview) && draft.read.preview.state == Reviewed
  }

  /** A later commit on the same preview replaced exactly what the earlier one wrote; a request is
      decided once. */
  predicate Ordered(first: Commit, second: Commit) {
    && (first.PreviewCommit? && second.PreviewCommit? && first.id == second.id ==>
          second.replaced == Some(first.written))
    && (first.DecisionCommit? && second.DecisionCommit? ==> first.id != second.id)
  }

  /** A logged commit is still visible in the store. */
  predicate Visible(t: Tables, c: Commit) {
    match c
    case PreviewCommit(id, _, _, _, written) =>
      id in t.previews && (t.previews[id] == written || t.previews[id].revision > written.revision)
    case DecisionCommit(id, _, _, _) => id in t.requests && t.requests[id].status != Pending
  }

  ghost predicate LogOk(t: Tables, log: seq<Commit>) {
    && (forall i | 0 <= i < |log| :: CommitOk(log[i]) && Visible(t, log[i]))
    && (forall i, j | 0 <= i < j < |log| :: Ordered(log[i], log[j]))
  }

  ghost predicate Valid(w: World) {
    && TablesOk(w.tables)
    && (forall c | c in w.tasks :: TaskOk(w.tables, w.tasks[c]))
    && LogOk(w.tables, w.log)
  }

  // ----- stability -------------------------------------------------------------------------------

  lemma TaskIsStable(t: Tables, u: Tables, task: Task)
    requires Moves(t, u) && TablesOk(t) && TablesOk(u) && TaskOk(t, task)
    ensures TaskOk(u, task)
  {
  }

  lemma LogIsStable(t: Tables, u: Tables, log: seq<Commit>)
    requires Moves(t, u) && LogOk(t, log) && PreviewsOk(u)
    ensures LogOk(u, log)
  {
  }

  // ----- what the commits keep --------------------------------------------------------------------

  lemma ResultIsKept(t: Tables, u: Tables, requestId: string)
    requires HasResult(t, requestId)
    requires forall id | id in t.results :: id in u.results && u.results[id] == t.results[id]
    ensures HasResult(u, requestId)
  {
    var d :| d in t.results && t.results[d].requestId == requestId;
    assert d in u.results && u.results[d].requestId == requestId;
  }

  lemma PreviewCommitKeepsPreviews(t: Tables, was: Option<Preview>, change: Option<Change>, next: Preview,
                                     expected: Option<int>)
    requires PreviewsOk(t) && TaskOk(t, PreviewDraft(was, change, next, expected))
    requires CheckPreview(t, next, next.eventId, expected).Pass?
    ensures var u := CommitPreview(t, next, next.eventId, expected); PreviewsOk(u) && Moves(t, u)
    ensures Lookup(t.previews, next.id) == was
  {
  }

  lemma PreviewCommitKeeps(t: Tables, was: Option<Preview>, change: Option<Change>, next: Preview,
                                     expected: Option<int>)
    requires TablesOk(t) && TaskOk(t, PreviewDraft(was, change, next, expected))
    requires CheckPreview(t, next, next.eventId, expected).Pass?
    ensures var u := CommitPreview(t, next, next.eventId, expected); TablesOk(u) && Moves(t, u)
    ensures Lookup(t.previews, next.id) == was
  {
    var u := CommitPreview(t, next, next.eventId, expected);
    PreviewCommitKeepsPreviews(t, was, change, next, expected);
    PreviewCommitKeepsRequests(t, u);
    forall id | id in u.requests && u.requests[id].status != Pending ensures HasResult(u, id) {
      ResultIsKept(t, u, id);
    }
  }

  /** Requests cite reviewed previews, and those no longer change. */
  lemma PreviewCommitKeepsRequests(t: Tables, u: Tables)
    requires PreviewsOk(t) && RequestsOk(t) && Moves(t, u) && u.requests == t.requests
    ensures RequestsOk(u)
  {
    forall id | id in t.requests ensures Cites(u, t.requests[id]) {
      assert Cites(t, t.requests[id]);
    }
  }

  lemma NewRequestKeepsRequests(t: Tables, r: Request, eventId: string)
    requires RequestsOk(t) && TaskOk(t, RequestDraft(r, eventId)) && CheckRequest(t, r, eventId).Pass?
    ensures var u := CommitRequest(t, r, eventId); RequestsOk(u) && Moves(t, u)
  {
    var u := CommitRequest(t, r, eventId);
    forall id | id in u.requests ensures u.requests[id].id == id && Cites(u, u.requests[id]) {
      assert id in t.requests ==> Cites(t, t.requests[id]);
    }
  }

  lemma NewRequestKeepsResults(t: Tables, r: Request, eventId: string)
    requires ResultsOk(t) && CheckRequest(t, r, eventId).Pass?
    ensures ResultsOk(CommitRequest(t, r, eventId))
  {
    var u := CommitRequest(t, r, eventId);
    forall id | id in u.results ensures ResultOk(u, u.results[id]) {
      assert ResultOk(t, t.results[id]);
    }
  }

  lemma NewRequestKeepsClosed(t: Tables, r: Request, eventId: string)
    requires ClosedHaveResults(t) && r.status == Pending && CheckRequest(t, r, eventId).Pass?
    ensures ClosedHaveResults(CommitRequest(t, r, eventId))
  {
    var u := CommitRequest(t, r, eventId);
    forall id | id in u.requests && u.requests[id].status != Pending ensures HasResult(u, id) {
      ResultIsKept(t, u, id);
    }
  }

  lemma RequestCommitKeeps(t: Tables, r: Request, eventId: string)
    requires TablesOk(t) && TaskOk(t, RequestDraft(r, eventId))
    ensures var u := CommitRequest(t, r, eventId); TablesOk(u) && Moves(t, u)
  {
    if CheckRequest(t, r, eventId).Pass? {
      NewRequestKeepsRequests(t, r, eventId);
      NewRequestKeepsResults(t, r, eventId);
      NewRequestKeepsClosed(t, r, eventId);
    }
  }

  lemma DecisionKeepsRequests(t: Tables, d: Draft)
    requires RequestsOk(t) && TaskOk(t, DecisionDraft(d))
    requires CheckDecision(t, d.updated, d.result, d.read, d.eventId).Pass?
    ensures var u := CommitDecision(t, d.updated, d.result, d.read, d.eventId); RequestsOk(u) && Moves(t, u)
    ensures t.requests[d.updated.id] == d.read
  {
    var u := CommitDecision(t, d.updated, d.result, d.read, d.eventId);
    assert Cites(t, d.read);
    forall id | id in u.requests ensures u.requests[id].id == id && Cites(u, u.requests[id]) {
      assert Cites(t, t.requests[id]);
    }
    forall i, j | i in u.requests && j in u.requests && u.requests[i].preview.id == u.requests[j].preview.id
      ensures i == j
    {
      assert t.requests[i].preview.id == t.requests[j].preview.id;
    }
  }

  lemma DecisionKeepsResults(t: Tables, d: Draft)
    requires ResultsOk(t) && TaskOk(t, DecisionDraft(d))
    requires CheckDecision(t, d.updated, d.result, d.read, d.eventId).Pass?
    ensures ResultsOk(CommitDecision(t, d.updated, d.result, d.read, d.eventId))
  {
    var u := CommitDecision(t, d.updated, d.result, d.read, d.eventId);
    forall id | id in u.results ensures ResultOk(u, u.results[id]) {
      if id != d.result.id {
        assert ResultOk(t, t.results[id]);
      }
    }
  }

  lemma DecisionKeepsClosed(t: Tables, d: Draft)
    requires ClosedHaveResults(t)
    requires CheckDecision(t, d.updated, d.result, d.read, d.eventId).Pass?
    ensures ClosedHaveResults(CommitDecision(t, d.updated, d.result, d.read, d.eventId))
  {
    var u := CommitDecision(t, d.updated, d.result, d.read, d.eventId);
    forall id | id in u.requests && u.requests[id].status != Pending ensures HasResult(u, id) {
      if id == d.updated.id {
        assert u.results[d.result.id].requestId == id;
      } else {
        ResultIsKept(t, u, id);
      }
    }
  }

  lemma DecisionCommitKeeps(t: Tables, d: Draft)
    requires TablesOk(t) && TaskOk(t, DecisionDraft(d))
    requires CheckDecision(t, d.updated, d.result, d.read, d.eventId).Pass?
    ensures var u := CommitDecision(t, d.updated, d.result, d.read, d.eventId); TablesOk(u) && Moves(t, u)
    ensures t.requests[d.updated.id] == d.read
  {
    DecisionKeepsResults(t, d);
    DecisionKeepsRequests(t, d);
    DecisionKeepsClosed(t, d);
  }

  lemma ReadingKeeps(t: Tables, o: Office, task: Task, step: Step)
    requires TablesOk(t) && TaskOk(t, task)
    ensures TaskOk(t, Reading(t, o, task, step))
  {
    if step.CreateBegin? || step.CreatePrepare? || step.ChangeBegin? || step.ChangePrepare? {
      PreviewReadingKeeps(t, o, task, step);
    } else if step.RequestBegin? || step.RequestCheck? || step.RequestPrepare? {
      RequestReadingKeeps(t, o, task, step);
    } else {
      DecisionReadingKeeps(t, o, task, step);
    }
  }

  lemma PreviewReadingKeeps(t: Tables, o: Office, task: Task, step: Step)
    requires TablesOk(t) && TaskOk(t, task)
    requires step.CreateBegin? || step.CreatePrepare? || step.ChangeBegin? || step.ChangePrepare?
    ensures TaskOk(t, Reading(t, o, task, step))
  {
  }

  lemma RequestReadingKeeps(t: Tables, o: Office, task: Task, step: Step)
    requires TablesOk(t) && TaskOk(t, task) && (step.RequestBegin? || step.RequestCheck? || step.RequestPrepare?)
    ensures TaskOk(t, Reading(t, o, task, step))
  {
  }

  lemma DecisionReadingKeeps(t: Tables, o: Office, task: Task, step: Step)
    requires TablesOk(t) && TaskOk(t, task)
    requires !(step.CreateBegin? || step.CreatePrepare? || step.ChangeBegin? || step.ChangePrepare?)
    requires !(step.RequestBegin? || step.RequestCheck? || step.RequestPrepare?)
    ensures TaskOk(t, Reading(t, o, task, step))
  {
    if step.DecideBegin? && task.Idle? {
      BeginDecideKeeps(t, o, step.requestId, step.expectedRequest, step.action, step.confirmed);
    } else {
      DecidingKeeps(t, o, task, step);
    }
  }

  lemma DecidingKeeps(t: Tables, o: Office, task: Task, step: Step)
    requires TaskOk(t, task) && !(step.DecideBegin? && task.Idle?)
    requires !(step.CreateBegin? || step.CreatePrepare? || step.ChangeBegin? || step.ChangePrepare?)
    requires !(step.RequestBegin? || step.RequestCheck? || step.RequestPrepare?)
    ensures TaskOk(t, Reading(t, o, task, step))
  {
    match (step, task)
    case (DecideCheck(_, now, session), RequestRead(r, action)) => CheckOpenKeeps(t, o, r, action, now, session);
    case (DecideSource(_), RequestOpen(r, action, now, session)) =>
    case (DecidePrepare(_, id, e, ev, ok), SourceRead(r, action, now, session, p)) =>
      PreparedDecisionIsOk(t, o, r, action, now, session, p, id, e, ev, ok);
    case _ =>
  }

  lemma BeginDecideKeeps(t: Tables, o: Office, id: string, expected: Request, action: Action, confirmed: bool)
    requires PreviewsOk(t) && RequestsOk(t)
    ensures TaskOk(t, BeginDecide(t, o, id, expected, action, confirmed))
  {
    if id in t.requests {
      assert Cites(t, t.requests[id]);
    }
  }

  lemma CheckOpenKeeps(t: Tables, o: Office, r: Request, action: Action, now: int, session: Option<Session>)
    requires Open(t, r)
    ensures TaskOk(t, CheckOpen(t, o, r, action, now, session))
  {
  }

  lemma PreparedDecisionIsOk(t: Tables, o: Office, r: Request, action: Action, now: int, session: Option<Session>,
                             preview: Option<Preview>, resultId: string, eventId: string, evidenceId: string,
                             allowed: bool)
    requires Open(t, r) && TimeFits(r, action, now) && Attended(r, action, session)
    ensures TaskOk(t, PrepareDecision(t, o, r, action, now, session, preview, resultId, eventId, evidenceId, allowed))
  {
  }

  lemma NewTaskKeeps(w: World, client: string, task: Task)
    requires Valid(w) && TaskOk(w.tables, task)
    ensures Valid(SetTask(w, client, task))
  {
  }

  // ----- every step ----------------------------------------------------------------------------

  lemma TasksAreStable(w: World, client: string, u: Tables)
    requires Valid(w) && TablesOk(u) && Moves(w.tables, u)
    ensures Valid(SetTask(w, client, Idle).(tables := u))
  {
    forall c | c in w.tasks ensures TaskOk(u, w.tasks[c]) {
      TaskIsStable(w.tables, u, w.tasks[c]);
    }
    LogIsStable(w.tables, u, w.log);
  }

  lemma LogGrows(w: World, c: Commit)
    requires Valid(w) && CommitOk(c) && Visible(w.tables, c)
    requires forall i | 0 <= i < |w.log| :: Ordered(w.log[i], c)
    ensures Valid(w.(log := w.log + [c]))
  {
    LogExtends(w.tables, w.log, c);
  }

  lemma LogExtends(t: Tables, log: seq<Commit>, c: Commit)
    requires LogOk(t, log) && CommitOk(c) && Visible(t, c) && forall i | 0 <= i < |log| :: Ordered(log[i], c)
    ensures LogOk(t, log + [c])
  {
    var longer := log + [c];
    forall i, j | 0 <= i < j < |longer| ensures Ordered(longer[i], longer[j]) {
      assert longer[i] == log[i];
      assert j < |log| ==> longer[j] == log[j];
    }
  }

  lemma CommitStepIsValid(w: World, client: string, u: Tables, c: Commit)
    requires Valid(w) && TablesOk(u) && Moves(w.tables, u)
    requires CommitOk(c) && Visible(u, c) && forall i | 0 <= i < |w.log| :: Ordered(w.log[i], c)
    ensures Valid(SetTask(w, client, Idle).(tables := u, log := w.log + [c]))
  {
    TasksAreStable(w, client, u);
    LogGrows(SetTask(w, client, Idle).(tables := u), c);
  }

  lemma PreviewStepKeeps(w: World, client: string, was: Option<Preview>, change: Option<Change>, next: Preview,
                                     expected: Option<int>)
    requires Valid(w) && TaskOk(w.tables, PreviewDraft(was, change, next, expected))
    ensures Valid(CommitDraftedPreview(w, client, was, change, next, expected))
  {
    if CheckPreview(w.tables, next, next.eventId, expected).Pass? {
      var u := CommitPreview(w.tables, next, next.eventId, expected);
      PreviewCommitKeeps(w.tables, was, change, next, expected);
      var c := PreviewCommit(next.id, change, was, Lookup(w.tables.previews, next.id), next);
      forall i | 0 <= i < |w.log| ensures Ordered(w.log[i], c) {
        assert Visible(w.tables, w.log[i]);
      }
      CommitStepIsValid(w, client, u, c);
    }
  }

  function Logged(t: Tables, d: Draft): Commit
    requires d.updated.id in t.requests
  {
    DecisionCommit(d.read.id, d, t.requests[d.updated.id], Lookup(t.previews, d.read.preview.id))
  }

  lemma DecisionIsLoggable(t: Tables, log: seq<Commit>, d: Draft)
    requires LogOk(t, log) && TaskOk(t, DecisionDraft(d))
    requires CheckDecision(t, d.updated, d.result, d.read, d.eventId).Pass?
    ensures CommitOk(Logged(t, d))
    ensures Visible(CommitDecision(t, d.updated, d.result, d.read, d.eventId), Logged(t, d))
    ensures forall i | 0 <= i < |log| :: Ordered(log[i], Logged(t, d))
  {
    forall i | 0 <= i < |log| ensures Ordered(log[i], Logged(t, d)) {
      assert Visible(t, log[i]);
    }
  }

  lemma DecisionStepKeeps(w: World, client: string, d: Draft)
    requires Valid(w) && TaskOk(w.tables, DecisionDraft(d))
    ensures Valid(CommitDraftedDecision(w, client, d))
  {
    if CheckDecision(w.tables, d.updated, d.result, d.read, d.eventId).Pass? {
      var u := CommitDecision(w.tables, d.updated, d.result, d.read, d.eventId);
      DecisionCommitKeeps(w.tables, d);
      DecisionIsLoggable(w.tables, w.log, d);
      CommitStepIsValid(w, client, u, Logged(w.tables, d));
    }
  }

  lemma OutsideStepKeeps(w: World, u: Tables)
    requires Valid(w)
    requires u.previews == w.tables.previews && u.requests == w.tables.requests && u.results == w.tables.results
    ensures Valid(w.(tables := u))
  {
    forall id | id in u.requests && u.requests[id].status != Pending ensures HasResult(u, id) {
      ResultIsKept(w.tables, u, id);
    }
    assert Moves(w.tables, u);
    TasksAreStable(w, "", u);
  }

  lemma ReadingStepKeeps(w: World, o: Office, client: string, step: Step)
    requires Valid(w)
    ensures Valid(SetTask(w, client, Reading(w.tables, o, TaskOf(w, client), step)))
  {
    ReadingKeeps(w.tables, o, TaskOf(w, client), step);
    NewTaskKeeps(w, client, Reading(w.tables, o, TaskOf(w, client), step));
  }

  lemma RequestStepKeeps(w: World, client: string, r: Request, eventId: string)
    requires Valid(w) && TaskOk(w.tables, RequestDraft(r, eventId))
    ensures Valid(SetTask(w, client, Idle).(tables := CommitRequest(w.tables, r, eventId)))
  {
    RequestCommitKeeps(w.tables, r, eventId);
    TasksAreStable(w, client, CommitRequest(w.tables, r, eventId));
  }

  lemma NextKeepsValid(w: World, o: Office, step: Step)
    requires Valid(w)
    ensures Valid(Next(w, o, step))
  {
    match step
    case WriteProposal(p, e, expected) =>
      OutsideStepKeeps(w, CommitProposal(w.tables, p, e, expected));
    case RecordEvent(e) =>
      OutsideStepKeeps(w, WriteEvent(w.tables, e));
    case PreviewCommitStep(client) =>
      var task := TaskOf(w, client);
      if task.PreviewDraft? {
        PreviewStepKeeps(w, client, task.was, task.asked, task.next, task.expected);
      }
    case RequestCommitStep(client) =>
      var task := TaskOf(w, client);
      if task.RequestDraft? {
        RequestStepKeeps(w, client, task.request, task.eventId);
      }
    case DecideCommitStep(client) =>
      var task := TaskOf(w, client);
      if task.DecisionDraft? {
        DecisionStepKeeps(w, client, task.draft);
      }
    case _ =>
      ReadingStepKeeps(w, o, step.client, step);
  }

  lemma {:induction false} RunKeepsValid(w: World, o: Office, steps: seq<Step>)
    requires Valid(w)
    ensures Valid(Run(w, o, steps))
    decreases |steps|
  {
    if steps != [] {
      NextKeepsValid(w, o, steps[0]);
      RunKeepsValid(Next(w, o, steps[0]), o, steps[1..]);
    }
  }

  // ----- every change is logged ---------------------------------------------------------------------

  ghost predicate Wrote(log: seq<Commit>, id: string, p: Preview) {
    exists i :: 0 <= i < |log| && log[i].PreviewCommit? && log[i].id == id && log[i].written == p
  }

  ghost predicate Decided(log: seq<Commit>, r: Request) {
    exists i :: 0 <= i < |log| && log[i].DecisionCommit? && log[i].draft.updated == r
  }

  ghost predicate Concluded(log: seq<Commit>, d: Decision) {
    exists i :: 0 <= i < |log| && log[i].DecisionCommit? && log[i].draft.result == d
  }

  /** What is stored was written by a logged commit. */
  ghost predicate Traced(t: Tables, log: seq<Commit>) {
    && (forall id | id in t.previews :: Wrote(log, id, t.previews[id]))
    && (forall id | id in t.requests && t.requests[id].status != Pending :: Decided(log, t.requests[id]))
    && (forall id | id in t.results :: Concluded(log, t.results[id]))
  }

  lemma TraceGrows(t: Tables, log: seq<Commit>, c: Commit)
    requires Traced(t, log)
    ensures Traced(t, log + [c])
  {
    var longer := log + [c];
    forall id | id in t.previews ensures Wrote(longer, id, t.previews[id]) {
      var i :| 0 <= i < |log| && log[i].PreviewCommit? && log[i].id == id && log[i].written == t.previews[id];
      assert longer[i] == log[i];
    }
    forall id | id in t.requests && t.requests[id].status != Pending ensures Decided(longer, t.requests[id]) {
      var i :| 0 <= i < |log| && log[i].DecisionCommit? && log[i].draft.updated == t.requests[id];
      assert longer[i] == log[i];
    }
    forall id | id in t.results ensures Concluded(longer, t.results[id]) {
      var i :| 0 <= i < |log| && log[i].DecisionCommit? && log[i].draft.result == t.results[id];
      assert longer[i] == log[i];
    }
  }

  lemma PreviewIsTraced(w: World, client: string, was: Option<Preview>, asked: Option<Change>, next: Preview,
                        expected: Option<int>)
    requires Traced(w.tables, w.log)
    ensures var u := CommitDraftedPreview(w, client, was, asked, next, expected); Traced(u.tables, u.log)
  {
    var u := CommitDraftedPreview(w, client, was, asked, next, expected);
    if CheckPreview(w.tables, next, next.eventId, expected).Pass? {
      TraceGrows(w.tables, w.log, u.log[|w.log|]);
      assert u.log == w.log + [u.log[|w.log|]] && u.log[|w.log|].written == next;
    }
  }

  lemma DecisionIsTraced(w: World, client: string, d: Draft)
    requires Traced(w.tables, w.log)
    ensures var u := CommitDraftedDecision(w, client, d); Traced(u.tables, u.log)
  {
    var u := CommitDraftedDecision(w, client, d);
    if CheckDecision(w.tables, d.updated, d.result, d.read, d.eventId).Pass? {
      TraceGrows(w.tables, w.log, u.log[|w.log|]);
      assert u.log == w.log + [u.log[|w.log|]] && u.log[|w.log|].draft == d;
    }
  }

  lemma NextKeepsTrace(w: World, o: Office, step: Step)
    requires Valid(w) && Traced(w.tables, w.log)
    ensures Traced(Next(w, o, step).tables, Next(w, o, step).log)
  {
    match step
    case PreviewCommitStep(client) =>
      var task := TaskOf(w, client);
      if task.PreviewDraft? {
        PreviewIsTraced(w, client, task.was, task.asked, task.next, task.expected);
      }
    case DecideCommitStep(client) =>
      var task := TaskOf(w, client);
      if task.DecisionDraft? {
        DecisionIsTraced(w, client, task.draft);
      }
    case _ => OtherStepsKeepTrace(w, o, step);
  }

  lemma OtherStepsKeepTrace(w: World, o: Office, step: Step)
    requires Valid(w) && Traced(w.tables, w.log) && !step.PreviewCommitStep? && !step.DecideCommitStep?
    ensures Traced(Next(w, o, step).tables, Next(w, o, step).log)
  {
    if step.RequestCommitStep? && TaskOf(w, step.client).RequestDraft? {
      var task := TaskOf(w, step.client);
      assert TaskOk(w.tables, w.tasks[step.client]);
      NewRequestIsTraced(w.tables, w.log, task.request, task.eventId);
    } else {
      RecordsStay(w, o, step);
      TraceRests(w.tables, Next(w, o, step).tables, w.log);
    }
  }

  lemma RecordsStay(w: World, o: Office, step: Step)
    requires !step.PreviewCommitStep? && !step.DecideCommitStep?
    requires step.RequestCommitStep? ==> !TaskOf(w, step.client).RequestDraft?
    ensures var u := Next(w, o, step);
      && u.log == w.log && u.tables.previews == w.tables.previews && u.tables.requests == w.tables.requests
      && u.tables.results == w.tables.results
  {
  }

  lemma TraceRests(t: Tables, u: Tables, log: seq<Commit>)
    requires Traced(t, log) && u.previews == t.previews && u.requests == t.requests && u.results == t.results
    ensures Traced(u, log)
  {
  }

  lemma NewRequestIsTraced(t: Tables, log: seq<Commit>, r: Request, eventId: string)
    requires Traced(t, log) && r.status == Pending
    ensures Traced(CommitRequest(t, r, eventId), log)
  {
  }

  lemma {:induction false} RunKeepsTrace(w: World, o: Office, steps: seq<Step>)
    requires Valid(w) && Traced(w.tables, w.log)
    ensures Traced(Run(w, o, steps).tables, Run(w, o, steps).log)
    decreases |steps|
  {
    if steps != [] {
      NextKeepsValid(w, o, steps[0]);
      NextKeepsTrace(w, o, steps[0]);
      RunKeepsTrace(Next(w, o, steps[0]), o, steps[1..]);
    }
  }

  /** Nothing is stored that no client asked for: in every reachable state each preview, each decided request and each
      result is what some logged commit wrote. */
  lemma EverythingIsLogged(o: Office, steps: seq<Step>)
    ensures Traced(Run(BEGIN, o, steps).tables, Run(BEGIN, o, steps).log)
  {
    RunKeepsTrace(BEGIN, o, steps);
  }

  ghost predicate ProposalsOk(t: Tables) {
    && (forall id | id in t.proposals :: t.proposals[id].id == id)
    && (forall i, j | i in t.proposals && j in t.proposals
          && t.proposals[i].helperResultId == t.proposals[j].helperResultId :: i == j)
  }

  lemma NextKeepsProposals(w: World, o: Office, step: Step)
    requires ProposalsOk(w.tables)
    ensures ProposalsOk(Next(w, o, step).tables)
  {
    if step.WriteProposal? {
      ProposalCommitKeeps(w.tables, step.proposal, step.eventId, step.revision);
    } else {
      assert Next(w, o, step).tables.proposals == w.tables.proposals;
    }
  }

  lemma ProposalCommitKeeps(t: Tables, p: Proposal, eventId: string, expected: Option<int>)
    requires ProposalsOk(t)
    ensures ProposalsOk(CommitProposal(t, p, eventId, expected))
  {
  }

  lemma {:induction false} RunKeepsProposals(w: World, o: Office, steps: seq<Step>)
    requires ProposalsOk(w.tables)
    ensures ProposalsOk(Run(w, o, steps).tables)
    decreases |steps|
  {
    if steps != [] {
      NextKeepsProposals(w, o, steps[0]);
      RunKeepsProposals(Next(w, o, steps[0]), o, steps[1..]);
    }
  }

  /** No two proposals are ever stored for one helper result. */
  lemma OneProposalPerResult(o: Office, steps: seq<Step>, i: string, j: string)
    requires var t := Run(BEGIN, o, steps).tables;
             i in t.proposals && j in t.proposals && t.proposals[i].helperResultId == t.proposals[j].helperResultId
    ensures i == j
  {
    RunKeepsProposals(BEGIN, o, steps);
  }

  // ----- main results ---------------------------------------------------------------------------

  /** Under every interleaving each preview commit replaced exactly the record its client had read,
      revisions are 1 then 2, and `Ready` means revision 1. */
  lemma NoLostPreviewUpdate(o: Office, steps: seq<Step>, i: nat)
    requires i < |Run(BEGIN, o, steps).log| && Run(BEGIN, o, steps).log[i].PreviewCommit?
    ensures var c := Run(BEGIN, o, steps).log[i];
            && c.replaced == c.read
            && (c.written.revision == 1 || c.written.revision == 2)
            && (c.written.state == Ready <==> c.written.revision == 1)
            && (c.read == None <==> c.written.revision == 1)
            && (c.read.Some? ==> c.read.value.revision == 1 && c.read.value.id == c.written.id
                                 && c.written.source == c.read.value.source)
  {
    RunKeepsValid(BEGIN, o, steps);
    assert CommitOk(Run(BEGIN, o, steps).log[i]);
  }

  /** Whatever commits on a preview writes what its client asked for: a review the state `Reviewed`, before the
      preview expires, a denial `Denied`, a withdrawal `Withdrawn`. Apart from state, revision, tenant, time and event
      the record stays the one that was read; and a preview is created ready, for 900 seconds, of an accepted
      proposal. */
  lemma ChangesAreAsAsked(o: Office, steps: seq<Step>, i: nat)
    requires i < |Run(BEGIN, o, steps).log| && Run(BEGIN, o, steps).log[i].PreviewCommit?
    ensures var c := Run(BEGIN, o, steps).log[i];
            && (c.written.state == Reviewed <==> c.asked == Some(Review))
            && (c.written.state == Denied <==> c.asked == Some(Deny))
            && (c.written.state == Withdrawn <==> c.asked == Some(Withdraw))
            && (c.written.state == Ready <==> c.asked == None)
            && (c.asked == Some(Review) ==> c.written.updatedAt < c.written.expiresAt)
            && (c.read.Some? ==>
                  c.written == c.read.value.(state := c.written.state, revision := 2, tenant := c.written.tenant,
                                             updatedAt := c.written.updatedAt, eventId := c.written.eventId))
            && (c.read.None? ==>
                  && c.written.updatedAt == c.written.createdAt
                  && c.written.expiresAt == c.written.createdAt + 900_000_000
                  && c.written.source.accepted && c.written.source.safe && c.written.source.schemaValid)
  {
    RunKeepsValid(BEGIN, o, steps);
    assert CommitOk(Run(BEGIN, o, steps).log[i]);
  }

  /** At most one of review, deny and withdraw ever commits on a preview: two commits on one preview
      are its creation and one change of exactly the created record. */
  lemma OneWinner(o: Office, steps: seq<Step>, i: nat, j: nat)
    requires var log := Run(BEGIN, o, steps).log;
             i < j < |log| && log[i].PreviewCommit? && log[j].PreviewCommit? && log[i].id == log[j].id
    ensures var log := Run(BEGIN, o, steps).log;
            && log[i].written.revision == 1 && log[j].written.revision == 2
            && log[j].read == Some(log[i].written)
            && forall k | 0 <= k < |log| && log[k].PreviewCommit? && log[k].id == log[i].id :: k == i || k == j
  {
    RunKeepsValid(BEGIN, o, steps);
    TwoCommits(Run(BEGIN, o, steps).tables, Run(BEGIN, o, steps).log, i, j);
  }

  lemma TwoCommits(t: Tables, log: seq<Commit>, i: nat, j: nat)
    requires LogOk(t, log)
    requires i < j < |log| && log[i].PreviewCommit? && log[j].PreviewCommit? && log[i].id == log[j].id
    ensures log[i].written.revision == 1 && log[j].written.revision == 2
    ensures log[j].read == Some(log[i].written)
    ensures forall k | 0 <= k < |log| && log[k].PreviewCommit? && log[k].id == log[i].id :: k == i || k == j
  {
    forall a: nat, b: nat | a < b < |log| && log[a].PreviewCommit? && log[b].PreviewCommit? && log[a].id == log[b].id
      ensures log[a].written.revision == 1 && log[b].written.revision == 2
      ensures log[b].read == Some(log[a].written)
    {
      assert CommitOk(log[a]) && CommitOk(log[b]) && Ordered(log[a], log[b]);
    }
  }

  /** At most one preview per proposal, although the services' own check scans only 100 rows. */
  lemma OnePreviewPerProposal(o: Office, steps: seq<Step>, i: string, j: string)
    requires var t := Run(BEGIN, o, steps).tables;
             i in t.previews && j in t.previews && t.previews[i].source.id == t.previews[j].source.id
    ensures i == j
  {
    RunKeepsValid(BEGIN, o, steps);
  }

  /** A request has a stored result exactly when it is no longer pending, never two, the status is the
      result's value, and denial, cancellation and expiry carry times on their side of the deadline. */
  lemma RequestsAgreeWithResults(o: Office, steps: seq<Step>, requestId: string)
    requires requestId in Run(BEGIN, o, steps).tables.requests
    ensures var t := Run(BEGIN, o, steps).tables; var r := t.requests[requestId];
            && (r.status != Pending <==> exists d :: d in t.results && t.results[d].requestId == requestId)
            && (forall d, e | d in t.results && e in t.results
                  && t.results[d].requestId == requestId && t.results[e].requestId == requestId :: d == e)
            && (forall d | d in t.results && t.results[d].requestId == requestId ::
                  t.results[d].value == r.status && Timely(r, r.status, t.results[d].decidedAt))
  {
    RunKeepsValid(BEGIN, o, steps);
    ResultsOfRequest(Run(BEGIN, o, steps).tables, requestId);
  }

  lemma ResultsOfRequest(t: Tables, requestId: string)
    requires TablesOk(t) && requestId in t.requests
    ensures var r := t.requests[requestId];
            && (r.status != Pending <==> HasResult(t, requestId))
            && (forall d, e | d in t.results && e in t.results
                  && t.results[d].requestId == requestId && t.results[e].requestId == requestId :: d == e)
            && (forall d | d in t.results && t.results[d].requestId == requestId ::
                  t.results[d].value == r.status && Timely(r, r.status, t.results[d].decidedAt))
  {
    if HasResult(t, requestId) {
      var d :| d in t.results && t.results[d].requestId == requestId;
      assert ResultOk(t, t.results[d]);
    }
  }

  /** Every request is decided at most once, from exactly the record the client had read, and the
      reviewed preview it cites is still stored unchanged when the decision commits, although the
      commit itself looks only at the request. */
  lemma DecisionsAreSound(o: Office, steps: seq<Step>, i: nat)
    requires i < |Run(BEGIN, o, steps).log| && Run(BEGIN, o, steps).log[i].DecisionCommit?
    ensures var log := Run(BEGIN, o, steps).log; var c := log[i];
            && c.current == c.draft.read && c.draft.read.status == Pending
            && c.cited == Some(c.draft.read.preview) && c.draft.read.preview.state == Reviewed
            && (forall j | 0 <= j < |log| && log[j].DecisionCommit? && log[j].id == c.id :: j == i)
  {
    RunKeepsValid(BEGIN, o, steps);
    var log := Run(BEGIN, o, steps).log;
    assert CommitOk(log[i]);
    forall j | 0 <= j < |log| && log[j].DecisionCommit? && log[j].id == log[i].id ensures j == i {
      assert j < i ==> Ordered(log[j], log[i]);
      assert i < j ==> Ordered(log[i], log[j]);
    }
  }

  /** Whatever decides a request writes what its client asked for, in the result and in the request alike: a denial
      and a cancellation before the deadline and by an operator, the cancellation by the requester, and an expiry
      from the deadline on and by nobody. The request keeps everything else it had, and its evidence grows by one. */
  lemma DecisionsAreAsAsked(o: Office, steps: seq<Step>, i: nat)
    requires i < |Run(BEGIN, o, steps).log| && Run(BEGIN, o, steps).log[i].DecisionCommit?
    ensures var d := Run(BEGIN, o, steps).log[i].draft; var r := d.read;
            && (d.result.value == DeniedByApprover <==> d.action == DenyRequest)
            && (d.result.value == Cancelled <==> d.action == CancelRequest)
            && (d.result.value == Expired <==> d.action == ExpireRequest)
            && d.result.requestId == r.id
            && (d.action == ExpireRequest <==> d.result.decidedAt >= r.expiresAt)
            && (d.action == ExpireRequest <==> d.session.None?)
            && (d.action == CancelRequest ==> d.session.value.bindingId == r.requester)
            && |d.updated.evidence| == |r.evidence| + 1 && r.evidence <= d.updated.evidence
            && d.updated == r.(status := d.result.value, decidedAt := Some(d.result.decidedAt),
                               evidence := d.updated.evidence,
                               approver := if d.session.Some? then Some(d.session.value.operatorId) else None)
  {
    RunKeepsValid(BEGIN, o, steps);
    assert CommitOk(Run(BEGIN, o, steps).log[i]);
  }

  /** Every stored request cites, for ever, a reviewed preview that is still stored unchanged. */
  lemma CitationsHold(o: Office, steps: seq<Step>, requestId: string)
    requires requestId in Run(BEGIN, o, steps).tables.requests
    ensures Cites(Run(BEGIN, o, steps).tables, Run(BEGIN, o, steps).tables.requests[requestId])
  {
    RunKeepsValid(BEGIN, o, steps);
  }
}
