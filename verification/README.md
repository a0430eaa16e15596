# LIMA Office control plane: verified model

LIMA Office is a fail-closed control plane: Guardian decisions are used once, approvals are previewed before
they are requested, evidence forms chains inside one tenant, and the commits of its dependencies are pinned.
This project models the parts of it that keep state or branch most, and proves what they keep over every run.
`dafny verify dfyconfig.toml` checks all of it.

| file | component |
|---|---|
| `Values.dfy` | JSON scalars with Python truthiness, check outcomes, white space |
| `GuardianRecords.dfy`, `GuardianInvariants.dfy` | Guardian records; the time window, matching, scope, replay-safety and binding checks |
| `Authorizations.dfy` | what an authorized decision or binding agrees with, field by field |
| `ReplayDrill.dfy`, `DrillSimulator.dfy` | the replay drill: its transition function, and the simulator object proved against it |
| `DrillTheorems.dfy`, `DrillAcceptance.dfy`, `DrillFates.dfy` | nonce ownership over every run; exactly which calls are accepted; which exclude each other, which can always follow |
| `NonceLedger.dfy`, `NonceConsumers.dfy`, `ReplayStore.dfy` | the three objects that consume nonces |
| `HarnessStore.dfy`, `ApprovalProtocol.dfy`, `ApprovalTheorems.dfy`, `ApprovalServices.dfy` | the store's commits; the approval services as interleaved clients; what every interleaving keeps; what each call does when it runs alone |
| `EvidenceLifecycle.dfy`, `EvidenceTheorems.dfy`, `EvidenceAcceptance.dfy`, `Numerals.dfy` | the evidence simulator, its indexes and ancestor chains; exactly which calls are accepted; padded counters |
| `EvidenceWriter.dfy` | the append-only chains of the evidence writer |
| `PinSites.dfy`, `PinTheorems.dfy`, `PinWorkspace.dfy` | scanning and rewriting pins; scanning again; checking and bumping a tree of files |
| `Linkage.dfy`, `LinkageTheorems.dfy` | the cross-contract linkage validator and its idempotency index |
| `Attestation.dfy`, `AttestationTheorems.dfy`, `AttestationEffects.dfy`, `AttestationCodes.dfy` | the attestation verifier, when it passes, when it raises, degrades or quarantines, and which codes it gives |
| `Escalation.dfy` | the escalation ladder: loading, climbing, reading back |

How the model is built:

- An object with state is a class whose methods follow the source's branches in order; each is proved equal to a
  transition function over the object's whole state, and the theorems are about runs of that function. A refused
  call is part of the run, so "refused calls change nothing" is part of every contract.
- The approval services are clients of one store. Every read of the store and every commit is a step of its own, and
  the steps of any number of clients interleave freely; a commit is one atomic step.
- A check is written as the source's chain of refusals, and is then characterized by an if-and-only-if over the fields of
  its inputs that uses none of its parts: what is accepted is stated once by the code and once by what it means. Checks
  the source makes twice appear twice in the chain and once in the characterization.
- An exception is a refusal that names the check that raised it. Times are integers in microseconds. The verdict of
  the JSON schema validator, of the Guardian and of the secret scanner is a flag of the record or of the call.

Where the code does not do what its documentation or its own structure suggests, the model follows the code:

- A decision whose environment is `blocked_mvp` can be both used and denied as blocked (`BlockedMvpOverlap` says
  exactly when, `BlockedMvpOverlapHappens` shows a run). The other denials do exclude first use.
- A mismatch denial never rests on a binding or a token: the consistency check refuses those first
  (`MismatchRestsOnTheAction`).
- The first evidence artifact's parents are not looked up, so its ancestor chain can later lead into another tenant
  (`UnknownFirstParentCrossesTenants`); `ChainsClosedExactlyWhen` gives the exact condition.
- A commit argument may end in a newline and still match `^[0-9a-f]{40}$`; a bump to it goes through and the sites then
  disagree with the lock (`NewlineBumpHappens` is such a run; `AnyTextGoesThroughExactlyWhen` and
  `BumpSettlesExactlyWhen` say when). A bump refused half-way leaves the earlier sites moved (`HalfwayBumpHappens`;
  `BumpGoesThroughExactlyWhen` says which).
- A trust root that is unknown or `blocked_mvp` does not fail an attestation; only `failed` does (`PassExactlyWhen`). A
  failure, also of the trust root, calls for quarantine unless something has expired, which softens it to a
  degradation: `EffectExactlyWhen` says exactly when, `FailedTrustRootIsDegraded` shows an input.
- The replay-record check looks at the requested action's type instead of the record's, so a record about a blocked
  action can be authorized by an action that leaves its type out (`BlockedRecordAuthorizesExactlyWhen`).
- A linkage key belongs to the first call that names it, even if that call failed every other check
  (`FirstClaimOwnsTheKey`).
- A ladder's own record cannot be read back when a tier permits the empty action class
  (`RecordReadsBackExactlyWhen`; `EmptyPermitDoesNotReadBack` shows an accepted one).

## Model

| member | source | states |
|---|---|---|
| `GuardianInvariants.AcceptedTimesAreAnInterval` | lima_office/runtime/invariants.py:499-543 | With max age m and skew k, set or by default 300 and 30 seconds, a reference time is accepted iff m > 0, k >= 0, the times are ordered, it lies from k before effect to before expiry, and at most m + k after issue and creation |
| `GuardianInvariants.UnreadableSettingNeverPasses` | lima_office/runtime/invariants.py:510-520 | A max age or skew that is no integer is never replaced by the default: no reference time passes |
| `GuardianInvariants.WindowWidth` | lima_office/runtime/invariants.py:499-543 | Every time between two accepted ones is accepted; the last is before expiry and by issue + m + k; the width is at most m + 2k less the time from issue to effect |
| `GuardianInvariants.TooLateIsPermanent` | lima_office/runtime/invariants.py:499-543 | A decision refused as expired or stale is refused so at every later reference time |
| `GuardianInvariants.TooLateExactlyWhen` | lima_office/runtime/invariants.py:532-543 | A decision with ordered times is refused as expired iff expiry has come, and as stale iff it is in effect, not expired, and issued or created more than m + k ago |
| `GuardianInvariants.NonceGuardIsIndependent` | lima_office/runtime/invariants.py:246-318 | With a consumed set the replay-safety check passes exactly when it passes without one and the nonce is not in the set |
| `GuardianInvariants.AssertReplaySafe` | lima_office/runtime/invariants.py:246-318 | The check adds the nonce to the set it was given exactly when it passes, and otherwise changes nothing |
| `GuardianInvariants.AssertBindingAuthorizes` | lima_office/runtime/invariants.py:191-243 | The same for approval bindings |
| `Authorizations.ReplaySafeExactlyWhen` | lima_office/runtime/invariants.py:246-318 | The replay-safety check passes iff the decision stands, the time is in the window of its own max age and skew (or 300 and 30), every bound field is named with the bound value, the requested scope lies inside the bound one, the evidence is bound, and the nonce is not consumed |
| `Authorizations.BindingAuthorizesExactlyWhen` | lima_office/runtime/invariants.py:191-243 | The binding check passes iff the binding stands and is in force, every one of the fifteen fields the action names is the binding's, the requested scope lies inside the binding's, and the nonce is not consumed |
| `Authorizations.BindingAgreesExactlyWhen` | lima_office/runtime/invariants.py:714-740 | The field check passes iff each named field is the binding's, and the action type is the binding's and not blocked |
| `Authorizations.OneFieldIsEnough` | lima_office/runtime/invariants.py:714-736 | One named field that differs is enough for the binding to be refused |
| `Authorizations.ContainedExactlyWhen` | lima_office/runtime/invariants.py:743-764 | A scope is allowed iff it asks for something, only inside the bound resources and operations, and nothing prohibited or blocked |
| `DrillSimulator.GuardianReplayDrillSimulator.constructor` | lima_office/guardian/replay_drill_simulator.py:115-122 | A new simulator is empty |
| `DrillSimulator.GuardianReplayDrillSimulator.Register` | lima_office/guardian/replay_drill_simulator.py:131-181 | A registration checks in the source's order and adds record, history and decision, or changes nothing |
| `DrillSimulator.GuardianReplayDrillSimulator.Transition` | lima_office/guardian/replay_drill_simulator.py:183-254 | A transition checks in the source's order and moves record, history, decision and nonce sets together, or changes nothing |
| `DrillSimulator.GuardianReplayDrillSimulator.EnforceSpecificRules` | lima_office/guardian/replay_drill_simulator.py:359-478 | The target state's rules and their exact effect on the decision table and both nonce sets |
| `DrillSimulator.GuardianReplayDrillSimulator.Reserve` | lima_office/guardian/replay_drill_simulator.py:382-395 | A reservation adds the tenant's nonce exactly when it is in neither set |
| `DrillSimulator.GuardianReplayDrillSimulator.Consume` | lima_office/guardian/replay_drill_simulator.py:409-424 | Consumption moves the nonce from the reserved to the consumed set |
| `DrillSimulator.GuardianReplayDrillSimulator.TenantReserved` | lima_office/guardian/replay_drill_simulator.py:778-779 | Looking a tenant's set up, which may create an empty set, shows its nonces and changes no pair |
| `DrillSimulator.GuardianReplayDrillSimulator.TenantConsumed` | lima_office/guardian/replay_drill_simulator.py:781-782 | The same for consumed nonces |
| `DrillTheorems.RunKeepsValid` | lima_office/guardian/replay_drill_simulator.py:131-254 | Every run keeps records, histories, decisions and nonce owners in agreement |
| `DrillTheorems.NonceOwnership` | lima_office/guardian/replay_drill_simulator.py:382-430 | In every reachable state a tenant's nonce is reserved iff one decision holds it, consumed iff one has spent it, never both, and at most one decision with it ever left `decision_registered` |
| `DrillTheorems.NonceSingleUse` | lima_office/guardian/replay_drill_simulator.py:382-430 | In any run a tenant's nonce is reserved, settled, consumed and replay-denied at most once each |
| `DrillTheorems.HistoryIsThePath` | lima_office/guardian/replay_drill_simulator.py:44-58 | Every history is a path of the transition table from `planned` to the current state, of at most six entries; a consumed record was reserved, then validated for first use |
| `DrillAcceptance.TransitionAcceptedExactlyWhen` | lima_office/guardian/replay_drill_simulator.py:183-254 | In every reachable state a transition is accepted iff the table allows it and payload, request, stored decision, reference time and nonce sets show, field by field, what its target asks for: ten targets, one condition each |
| `DrillAcceptance.RegistrationAcceptedExactlyWhen` | lima_office/guardian/replay_drill_simulator.py:131-181 | A registration is accepted iff it hands in, as planned, a valid one-time decision with tenant, nonce and one id, the expected one if named, not registered yet |
| `DrillAcceptance.FirstUseAcceptedExactlyWhen` | lima_office/guardian/replay_drill_simulator.py:396-408 | A reserved decision is validated for first use iff the record is its own, says so and names no denial, the request fits, a bound binding and token are supplied, and the action, or the one the record describes, may use it |
| `DrillAcceptance.RequestFitsExactlyWhen` | lima_office/guardian/replay_drill_simulator.py:604-664 | The request check passes iff binding and token are of the tenant and decision and name one token, and the action agrees with the decision, the binding and the token wherever both name something |
| `DrillAcceptance.OveragedExactlyWhen` | lima_office/guardian/replay_drill_simulator.py:795-810 | A decision is stale iff it was issued longer ago than its own max age and skew, or 300 and 30 seconds |
| `DrillAcceptance.MismatchExactlyWhen` | lima_office/guardian/replay_drill_simulator.py:437-458 | A mismatch denial passes its rules iff one of the reasons it gives is a way in which decision and requested action differ |
| `DrillFates.FirstUseIsUsable` | lima_office/guardian/replay_drill_simulator.py:396-408 | An accepted first use is of a decision that the action may use: tenant, bound fields, window and scope agree |
| `DrillFates.FirstUseExcludesDenial` | lima_office/guardian/replay_drill_simulator.py:396-467 | If first use is accepted, the expired, stale and mismatch denials are refused for every payload, and the blocked one too unless the environment is `blocked_mvp` |
| `DrillFates.BlockedMvpOverlap` | lima_office/guardian/replay_drill_simulator.py:812-825 | After an acceptable first use a well-formed blocked denial is acceptable iff the decision's environment is `blocked_mvp` |
| `DrillFates.BlockedMvpOverlapHappens` | lima_office/guardian/replay_drill_simulator.py:812-825 | A concrete run reaches a state where both are acceptable |
| `DrillFates.MismatchRestsOnTheAction` | lima_office/guardian/replay_drill_simulator.py:604-744 | An accepted mismatch denial has a field in which decision and requested action differ; binding and token are the decision's own |
| `DrillFates.ConditionsOfUsable` | lima_office/guardian/replay_drill_simulator.py:784-825 | A decision the replay-safety check accepts meets none of the denial conditions of the simulator, save the blocked one exactly when its environment says so |
| `DrillFates.NonceGuardsNeverFire` | lima_office/guardian/replay_drill_simulator.py:413-430 | In reachable states no call is refused as a duplicate consumption, an unreserved consumption, an unconsumed replay denial or a missing decision |
| `DrillFates.FirstUseCanFinish` | lima_office/guardian/replay_drill_simulator.py:409-430 | A first-use-validated decision is consumed by exactly the well-formed records, and then replay-denied by exactly the well-formed denials, whatever the nonce sets hold |
| `DrillFates.FinishingRecordsExist` | lima_office/guardian/replay_drill_simulator.py:409-430 | Every decision has such a record and such a denial |
| `NonceLedger.UsedAtMostOnce` | lima_office/guardian/replay.py:29-55 | Over any attempts each nonce is used at most once, and not at all if it was consumed before |
| `NonceLedger.BurnedStaysRefused` | lima_office/guardian/replay_store.py:47-77 | A nonce that passed the safety check stays refused, also when the later record check failed |
| `NonceConsumers.GuardianDecisionReplayVerifier.VerifyOnce` | lima_office/guardian/replay.py:29-41 | A verification succeeds iff the decision is valid and usable by the action, its nonce is fresh and the record is valid, and it consumes as the ledger of attempts says |
| `NonceConsumers.GuardianDecisionReplayVerifier.Check` | lima_office/guardian/replay.py:43-55 | A check accepts iff the decision is valid and usable by the action, its nonce is fresh and the record is valid, and consumes nothing |
| `NonceConsumers.BuiltRecordServes` | lima_office/guardian/replay.py:57-119 | The replay record built for a decision the action may use describes an action that may use it too, keeps what the action names, and would be taken by the drill as a first use |
| `NonceConsumers.ApprovalBindingVerifier.VerifyOnce` | lima_office/guardian/approval_binding.py:29-41 | A verification succeeds iff the binding is valid, the action is entitled to it and its nonce is fresh, which it then consumes |
| `NonceConsumers.ApprovalBindingVerifier.Check` | lima_office/guardian/approval_binding.py:43-55 | A check accepts iff the binding is valid, the action is entitled to it and its nonce is fresh, and consumes nothing |
| `NonceConsumers.BindingNonceIsIndependent` | lima_office/runtime/invariants.py:191-243 | With a consumed set the binding check passes exactly when it passes without one and the nonce is not in the set |
| `ReplayStore.RunIsLedger` | lima_office/guardian/replay_store.py:47-111 | In every run each stored record marked consumed has its nonce in the consumed set, and that set is the ledger of the run's authorizations |
| `ReplayStore.AuthorizedAtMostOnce` | lima_office/guardian/replay_store.py:47-77 | Each nonce is authorized at most once per store, and the set holds exactly the nonces used |
| `ReplayStore.ConsistentExactlyWhen` | lima_office/runtime/invariants.py:780-886 | The record check passes iff the record is whole and agrees, field by field, with the action, the decision and the binding given; to authorize it must be open and about nothing blocked |
| `ReplayStore.BlockedRecordAuthorizesExactlyWhen` | lima_office/runtime/invariants.py:812-886 | A record about a blocked action is authorized iff it fits, is otherwise open, and comes with an action that leaves its type out |
| `ReplayStore.StoredRecordsNeverAuthorize` | lima_office/guardian/replay_store.py:47-111 | Whatever the store keeps, committed, denied or failed, authorizes nothing any more |
| `ReplayStore.StoredRecordsFitExactlyWhen` | lima_office/guardian/replay_store.py:47-111 | What is stored is the record handed in apart from how it was closed, and fits what that fitted iff the check time, the denial evidence, or reason and evidence of the failure were given |
| `ReplayStore.AuthorizedScopeIsContained` | lima_office/runtime/invariants.py:812-874 | A successful authorization keeps the requested resources and operations inside the record's scope and so inside the decision's and the binding's |
| `ReplayStore.InMemoryReplayStore.AuthorizeFirstUse` | lima_office/guardian/replay_store.py:47-77 | The store's whole new state; success iff the record is valid, fits, is open and about nothing blocked, its nonce is fresh and the committed record is valid |
| `ReplayStore.InMemoryReplayStore.MarkReplayDenied` | lima_office/guardian/replay_store.py:79-94 | The store's whole new state |
| `ReplayStore.InMemoryReplayStore.FailClosedRecord` | lima_office/guardian/replay_store.py:96-111 | The store's whole new state |
| `ReplayStore.InMemoryReplayStore.CheckedRecord` | lima_office/guardian/replay_store.py:29-45 | A record is accepted iff it is valid, whole and fits the action, decision and binding given, and nothing changes |
| `HarnessStore.HarnessStateStore.CommitOfficeProposal` | lima_office/runtime/operator_harness.py:438-493 | Proposal and event appear together, or the call is rolled back |
| `HarnessStore.HarnessStateStore.CommitOfficeApprovalPreview` | lima_office/runtime/operator_harness.py:363-416 | A preview is inserted under a new proposal or replaces the expected revision, with its event, or nothing changes |
| `HarnessStore.HarnessStateStore.CommitOfficePendingApprovalRequest` | lima_office/runtime/operator_harness.py:314-349 | A request is inserted under an uncited, unchanged preview, with its event, or nothing changes |
| `HarnessStore.HarnessStateStore.CommitOfficeNonAuthorizingApprovalDecision` | lima_office/runtime/operator_harness.py:249-302 | Request, result and event change together when the stored request is the one that was read, or nothing changes |
| `HarnessStore.EveryCommitAddsOneEvent` | lima_office/runtime/operator_harness.py:192-200 | Every accepted commit adds exactly its own event and a refused one none |
| `ApprovalServices.ProposalAlone` | lima_office/runtime/operator_harness.py:438-493 | Writing a proposal stores it iff it is whole, new or replacing the revision named, the only one of its helper result, and the event is new |
| `ApprovalTheorems.RunKeepsValid` | lima_office/runtime/approval_preview.py:140-248 | Every interleaving keeps tables, clients' readings and the commit log in agreement |
| `ApprovalTheorems.NoLostPreviewUpdate` | lima_office/runtime/approval_preview.py:330-471 | Each preview commit replaces exactly the record its client read; revisions are 1 then 2, and ready means 1 |
| `ApprovalTheorems.ChangesAreAsAsked` | lima_office/runtime/approval_preview.py:33-49 | In every run a commit writes `Reviewed` iff a review was asked for, before expiry, `Denied` iff a denial, `Withdrawn` iff a withdrawal; only state, revision, tenant, time and event differ from the record read; a new preview is ready for 900 seconds |
| `ApprovalTheorems.OneWinner` | lima_office/runtime/approval_preview.py:33-49 | At most one of review, deny and withdraw ever commits on a preview |
| `ApprovalTheorems.OnePreviewPerProposal` | lima_office/runtime/approval_preview.py:140-214 | At most one preview per proposal, although the services' own scan stops at 100 rows |
| `ApprovalTheorems.OneProposalPerResult` | lima_office/runtime/operator_harness.py:438-493 | No two proposals are ever stored for one helper result |
| `ApprovalTheorems.EverythingIsLogged` | lima_office/runtime/approval_preview.py:330-471 | In every reachable state each stored preview, decided request and result is what some logged commit wrote |
| `ApprovalTheorems.RequestsAgreeWithResults` | lima_office/runtime/approval_decision.py:67-209 | A request has a result iff it is no longer pending, never two; its status is the result's value, and the decision time is on its side of the deadline |
| `ApprovalTheorems.DecisionsAreSound` | lima_office/runtime/approval_decision.py:67-224 | Each request is decided at most once, from exactly the record that was read, and the reviewed preview it cites is unchanged at commit time |
| `ApprovalTheorems.DecisionsAreAsAsked` | lima_office/runtime/approval_decision.py:18-25 | In every run a denial gives `denied`, a cancellation by the requester `cancelled`, an expiry by nobody `expired`, in result and request alike; the request keeps all else and gains one piece of evidence |
| `ApprovalTheorems.CitationsHold` | lima_office/runtime/pending_approval_request.py:101-228 | Every stored request cites for ever a reviewed preview that is stored unchanged |
| `ApprovalServices.CreateAlone` | lima_office/runtime/approval_preview.py:140-214 | Run alone, creating a preview stores it iff confirmed, the proposal is valid, safe, accepted for the office, at the revision seen and without a preview, the Guardian allows, and the ids are new; otherwise nothing changes |
| `ApprovalServices.ChangeAlone` | lima_office/runtime/approval_preview.py:216-248 | Run alone, a change stores the next revision iff confirmed, the preview is ready and at the revision seen, its proposal stands unchanged, a review is in time, the Guardian allows, and the event is new |
| `ApprovalServices.RequestAlone` | lima_office/runtime/pending_approval_request.py:101-228 | Run alone, a request is stored pending for 900 seconds iff confirmed, the preview is reviewed, in time and uncited, its proposal stands, an operator of the office attends, the Guardian allows, and the ids are new |
| `ApprovalServices.DecideAlone` | lima_office/runtime/approval_decision.py:67-209 | Run alone, a decision stores request and result together iff confirmed, the request is the pending one seen, the action fits deadline, session and source, the Guardian allows, and the ids are new |
| `EvidenceLifecycle.EvidenceLifecycleSimulator.Register` | lima_office/evidence/lifecycle_simulator.py:130-177 | A registration checks in the source's order and fills record, history and both indexes, or changes nothing but the counter |
| `EvidenceLifecycle.EvidenceLifecycleSimulator.Transition` | lima_office/evidence/lifecycle_simulator.py:179-241 | The same for transitions |
| `EvidenceLifecycle.EvidenceLifecycleSimulator.NormalizePayload` | lima_office/evidence/lifecycle_simulator.py:284-312 | A payload's id, tenant and contract, with a counted id when none is named |
| `EvidenceLifecycle.EvidenceLifecycleSimulator.TrackRefs` | lima_office/evidence/lifecycle_simulator.py:554-560 | The references the index gains |
| `EvidenceTheorems.IndexesAndHistories` | lima_office/evidence/lifecycle_simulator.py:130-241 | Records, artifacts and the tenant index have one domain and agree; histories are paths of at most five entries, and a ledger-linked record passed one of the four recorded states |
| `EvidenceTheorems.TenantNeverChanges` | lima_office/evidence/lifecycle_simulator.py:493-560 | An evidence id never changes tenant in any run |
| `EvidenceTheorems.ChainsClosedExactlyWhen` | lima_office/evidence/lifecycle_simulator.py:506-560 | All parents stay known and in the tenant throughout a run iff the first artifact registered names no parent but itself |
| `EvidenceTheorems.AncestorsStayInTenant` | lima_office/runtime/invariants.py:889-922 | In such runs every ancestor chain of any length is known and has one tenant |
| `EvidenceTheorems.UnknownFirstParentCrossesTenants` | lima_office/runtime/invariants.py:915-920 | Without the condition a concrete run has a chain across two tenants |
| `EvidenceAcceptance.ReferencesStayInTenant` | lima_office/evidence/lifecycle_simulator.py:493-504 | Whatever call a reachable state accepts, every reference in each of the nine reference fields is evidence-shaped and, if it names a record, names one of the payload's tenant |
| `EvidenceAcceptance.TransitionAcceptedExactlyWhen` | lima_office/evidence/lifecycle_simulator.py:179-241 | In every reachable state a transition is accepted iff the payload is valid, this record's and its tenant's, clean, with well-formed references to no other tenant, and shows what its move asks for: known parents, denial evidence and reasons, failure reason, linkage, ledger evidence or a consistent manifest |
| `EvidenceAcceptance.RegistrationAcceptedExactlyWhen` | lima_office/evidence/lifecycle_simulator.py:130-177 | A registration is accepted iff it hands in, as planned, a valid clean artifact under a free id whose chain and references are in order |
| `Numerals.PadIsInjective` | lima_office/evidence/writer.py:64-65 | Different counters give different padded ids |
| `Numerals.PadHasFourPlaces` | lima_office/evidence/writer.py:64-65 | A padded counter is its value in decimal digits, in four places as long as they are enough |
| `EvidenceWriter.EvidenceWriter.WriteArtifact` | lima_office/evidence/writer.py:34-136 | The writer's whole new state, for every refusal and for a stored artifact; stored iff writes work, a decision is named and summary and schema are good, with the request's tenant, subject and decision |
| `EvidenceWriter.EvidenceWriter.RecordFailure` | lima_office/evidence/writer.py:161-232 | The failure record added, or nothing when the schema refuses it |
| `EvidenceWriter.FailedWriteIsRecorded` | lima_office/evidence/writer.py:34-58 | When writes fail the failure is recorded last, for the request's tenant and decision or a stand-in, the refusal names it, and nothing else changes |
| `EvidenceWriter.EvidenceWriter.RequireEvidence` | lima_office/evidence/writer.py:138-159 | Met iff ids are given, all are known, and each agrees with tenant, subject and decision asked for |
| `EvidenceWriter.RunKeepsValid` | lima_office/evidence/writer.py:34-136 | After any calls, refused ones included, artifacts form one chain: distinct ids, position k, previous and parent the (k-1)th; failures likewise |
| `EvidenceWriter.NextOnlyAppends` | lima_office/evidence/writer.py:242-245 | No call changes or removes what was written or its order |
| `EvidenceWriter.EveryCallIsCounted` | lima_office/evidence/writer.py:34-136 | After any calls there are as many artifacts and failures as calls that could store or record one, and the counter went up once for each artifact numbered, stored or not |
| `EvidenceWriter.ChainsCheckExactlyWhen` | lima_office/runtime/invariants.py:889-922 | All artifacts of a run pass the chain-consistency check against the writer's own artifacts iff they have one tenant |
| `PinSites.FindSplit` | scripts/stack_pins.py:316-317 | The first place the captured commit can start for a match at a position, or none at all |
| `PinSites.CommitExactlyWhen` | scripts/stack_pins.py:26-26 | A commit is forty characters, each one of the sixteen lower-case digits |
| `PinSites.ScanIsOrdered` | scripts/stack_pins.py:316-321 | The captured spans are in order, disjoint and hold forty hexadecimal digits |
| `PinTheorems.FirstMatch` | scripts/stack_pins.py:316-317 | The first captured span belongs to the leftmost position where the pattern matches at all |
| `PinTheorems.NoMatch` | scripts/stack_pins.py:316-317 | An empty scan from a position means the pattern matches nowhere from there on |
| `PinTheorems.ScanIsExhaustive` | scripts/stack_pins.py:316-317 | Wherever the pattern matches, a captured match starts there or before and ends after: none is left out |
| `PinTheorems.ScanExactlyWhen` | scripts/stack_pins.py:316-321 | A list of positions is the scan iff it holds the commits of the leftmost matches, each starting at the first place after the one before, none left out between them or after the last |
| `PinTheorems.EveryMatchIsRewritten` | scripts/stack_pins.py:324-335 | After rewriting, wherever an anchored pattern whose tail starts no head matches, it captures the new commit |
| `PinSites.RewriteSite` | scripts/stack_pins.py:324-335 | The loop joins the pieces between the spans with the new commit |
| `PinSites.RewritingChangesOnlySpans` | scripts/stack_pins.py:324-335 | The rewritten text holds the commit at each span and is the old text everywhere else |
| `PinTheorems.ScanOfAlike` | scripts/stack_pins.py:316-335 | Texts that differ only in hexadecimal digits inside the spans have the same scan |
| `PinTheorems.RescanFindsTheSameSpans` | scripts/stack_pins.py:316-335 | The rewritten text has the same spans, all holding the new commit, iff the new commit is forty hexadecimal digits |
| `PinTheorems.RewritingTwice` | scripts/stack_pins.py:324-335 | Rewriting twice is rewriting once with the last commit |
| `PinTheorems.RewritingBackRestores` | scripts/stack_pins.py:324-335 | Rewriting back the commit all spans held restores the text |
| `PinTheorems.SpansCoincideOrAreApart` | scripts/stack_pins.py:366-377 | Spans of two anchored sites of one text are the same or disjoint |
| `PinTheorems.OtherSitesKeepTheirSpans` | scripts/stack_pins.py:324-335 | Rewriting one site leaves another's spans in place, and their content too unless it is the same span |
| `PinWorkspace.CheckSites` | scripts/stack_pins.py:338-363 | The failures, in order, for every site of every dependency |
| `PinWorkspace.CheckSite` | scripts/stack_pins.py:343-362 | One site's failures: missing, wrong count, or each differing commit |
| `PinWorkspace.CheckPassesExactlyWhen` | scripts/stack_pins.py:338-363 | No failure iff every site exists and repeats the locked commit as often as declared |
| `PinWorkspace.Workspace.BumpPin` | scripts/bump-pin.py:91-109 | The files, the touched list, the refusal and the lock after the loop, also when it stops half-way |
| `PinWorkspace.MovingMovesOnly` | scripts/bump-pin.py:91-109 | Moving any sites, sharing files or not, keeps every site's spans and replaces exactly the captured characters |
| `PinWorkspace.BumpGoesThroughExactlyWhen` | scripts/bump-pin.py:93-104 | A bump goes through iff all sites fit the files before the call; otherwise exactly the sites before the first misfit are moved |
| `PinWorkspace.BumpSettlesExactlyWhen` | scripts/bump-pin.py:63-109 | After a bump all sites repeat the new commit iff it is forty hexadecimal digits |
| `PinWorkspace.BumpReachesEveryMatch` | scripts/bump-pin.py:91-109 | After a bump that went through, the new commit stands wherever a pattern of the dependency matches its file |
| `PinWorkspace.LockSitesMissNoMatch` | stack.lock.json:18-65 | No tail of the lock file's patterns can start a head, so both hold of all five |
| `PinWorkspace.BumpKeepsOtherPins` | scripts/bump-pin.py:91-109 | A site with another commit keeps it unless a moved site captures the same characters |
| `PinWorkspace.AnyTextGoesThroughExactlyWhen` | scripts/bump-pin.py:63-109 | With one site a file, a bump to any text goes through iff every site fits, and a text that is no commit is then repeated by no site |
| `PinWorkspace.ResolvesExactlyWhen` | scripts/bump-pin.py:63-78 | Resolving a target other than `main` takes a commit, and a commit with a newline at its end, and no other text |
| `PinWorkspace.NewlineBumpHappens` | scripts/bump-pin.py:63-109 | A concrete bump to forty digits and a newline is taken, goes through, and leaves the lock failing its check |
| `PinWorkspace.HalfwayBumpHappens` | scripts/bump-pin.py:93-108 | A concrete bump refused at its second site has moved the first |
| `PinWorkspace.PinSurvivesExactlyWhen` | scripts/bump-pin.py:91-109 | A site keeps repeating its commit through a bump iff that is the new commit or the site shares no captured character with a moved one |
| `PinWorkspace.BumpKeepsTheLockChecked` | scripts/bump-pin.py:81-109 | From a lock that checks, a bump goes through, and the updated lock checks again iff the dependency shares no captured character with one pinned to another commit |
| `PinWorkspace.BumpIsIdempotent` | scripts/bump-pin.py:105-108 | Bumping again to the same commit touches nothing |
| `PinWorkspace.SpacedHeadEndsOnce` | stack.lock.json:24-28 | A literal, white space and a literal leave one place for the commit, so greedy and shortest matching agree |
| `PinWorkspace.LockSitesAreAnchored` | stack.lock.json:18-65 | All five patterns of the lock file are in the class the theorems cover |
| `Linkage.CrossContractLinkageValidator.ValidateChain` | lima_office/runtime/linkage.py:19-243 | Exactly the reasons the records give against the old index, the status by precedence, and the new index |
| `Linkage.CrossContractLinkageValidator.CheckIdempotency` | lima_office/runtime/linkage.py:248-272 | The index is bound by the first transaction, and the reason for a second one |
| `Linkage.CheckEnvelope` | lima_office/runtime/linkage.py:275-306 | Exactly the envelope and canonical-copy reasons of one record |
| `Linkage.CheckCore` | lima_office/runtime/linkage.py:54-94 | Exactly the reasons of event, boundary and replay record |
| `Linkage.CheckLedger` | lima_office/runtime/linkage.py:96-119 | Exactly the reasons some ledger entry gives, parents and artifact references included |
| `Linkage.CheckArtifacts` | lima_office/runtime/linkage.py:121-144 | Exactly the reasons some artifact gives |
| `Linkage.CheckManifest` | lima_office/runtime/linkage.py:146-179 | Exactly the reasons of the manifest and of every reference it names |
| `Linkage.CheckDecision` | lima_office/runtime/linkage.py:194-218 | Exactly the reasons of the Guardian decision |
| `Linkage.CheckBinding` | lima_office/runtime/linkage.py:220-243 | Exactly the reasons of the approval binding |
| `LinkageTheorems.LinkedExactlyWhen` | lima_office/runtime/linkage.py:19-243 | Linked iff every record agrees with the event, every reference resolves inside the tenant, nothing is withheld, and the key is free or bound to the same transaction |
| `LinkageTheorems.PrecedenceOfVerdicts` | lima_office/runtime/linkage.py:309-323 | Blocked iff the manifest is denied or blocked; otherwise one iff per verdict: tenant, nonce, scope, missing reference, and drift for whatever else keeps the chain from being linked |
| `LinkageTheorems.ReasonsNameTheirField` | lima_office/runtime/linkage.py:286-293 | Each of the four envelope reasons is given for a part iff the field it names differs from the event's in some record of that part |
| `LinkageTheorems.CanonicalReasonsNameTheirField` | lima_office/runtime/linkage.py:295-305 | Each canonical-copy reason is given for a part iff that copy differs from its original in some record of the part, unless it may be and is left out |
| `LinkageTheorems.FirstClaimOwnsTheKey` | lima_office/runtime/linkage.py:248-272 | Over any run a key is bound to the transaction of the first call that names it, linked or not |
| `LinkageTheorems.IndexIsWriteOnce` | lima_office/runtime/linkage.py:266-272 | A bound key keeps its transaction for ever |
| `LinkageTheorems.LinkedCallsShareATransaction` | lima_office/runtime/linkage.py:248-272 | Any two linked calls of a run with one key have one transaction |
| `LinkageTheorems.DuplicateExactlyWhen` | lima_office/runtime/linkage.py:248-272 | The duplicate-key reason is given iff the first call with the key had another transaction |
| `Attestation.EvaluateAttestationMetadata` | lima_office/runtime/attestation_verifier.py:38-233 | The appraisal: early returns, gathered codes and final classification |
| `Attestation.Group` | lima_office/runtime/attestation_verifier.py:118-125 | Grouping collects per type exactly the tenant's claims in order, and notes foreign ones |
| `Attestation.CheckReference` | lima_office/runtime/attestation_verifier.py:128-152 | The codes of one required reference type |
| `Attestation.CheckEndorsement` | lima_office/runtime/attestation_verifier.py:166-189 | The codes of one required endorsement type, up to the first trusted one |
| `AttestationTheorems.PassExactlyWhen` | lima_office/runtime/attestation_verifier.py:58-233 | Pass iff statuses are admissible, the trust root has not failed, every claim is the tenant's, every required type is met and no failing code arrives |
| `AttestationTheorems.VerdictAndEffectAgree` | lima_office/runtime/attestation_verifier.py:195-277 | Trusted iff passed, quarantine iff failed; a pass is approved, clean and expires; the record's own codes are kept |
| `AttestationTheorems.MetExactlyWhenFresh` | lima_office/runtime/attestation_verifier.py:128-152 | A reference type is met iff an active entry is current and no earlier active one has an unreadable time |
| `AttestationTheorems.TrustedExactlyWhen` | lima_office/runtime/attestation_verifier.py:166-189 | An endorsement type is met iff its first trusted entry is current and no revoked or expired one comes before it |
| `AttestationEffects.RaisesExactlyWhen` | lima_office/runtime/attestation_verifier.py:18-35 | It raises iff a taxonomy, code or time it has to look at cannot be read |
| `AttestationEffects.EffectExactlyWhen` | lima_office/runtime/attestation_verifier.py:58-223 | Quarantine iff the status blocks, the policy is missing, revoked or blocked, or an admissible policy is failed and nothing has expired; degraded iff the policy is neither, or a failure is softened by something expired |
| `AttestationEffects.LapseSoftensFailure` | lima_office/runtime/attestation_verifier.py:209-223 | Anything expired makes a failure under an admissible policy inconclusive and degraded, whatever else failed |
| `AttestationEffects.ReferenceEffects` | lima_office/runtime/attestation_verifier.py:128-152 | A required type is stale iff the tenant has active references of it and all have expired; reading raises iff an incomparable time comes before every current one |
| `AttestationEffects.EndorsementEffects` | lima_office/runtime/attestation_verifier.py:166-189 | A required type is expired iff an expired endorsement comes before every current trusted one; reading raises iff an incomparable time does |
| `AttestationEffects.FailedTrustRootIsDegraded` | lima_office/runtime/attestation_verifier.py:209-216 | A concrete attestation with a failed trust root is degraded with an expired reference and quarantined with a current one |
| `AttestationCodes.CodesExactlyWhen` | lima_office/runtime/attestation_verifier.py:38-233 | An appraisal carries exactly the codes of the record, the trust root, each required type's references and endorsements, foreign claims and the update, and its verdict's own; or, ending early, the one that says why |
| `AttestationCodes.EndorsementCodesExactlyWhen` | lima_office/runtime/attestation_verifier.py:166-189 | A required type gives missing iff nothing trusted is current, and revoked or expired iff such an endorsement comes before every current trusted one |
| `AttestationCodes.ResultFields` | lima_office/runtime/attestation_verifier.py:236-277 | The result names the policy given and expires when the record does; only a pass without an expiry gets the time of the appraisal |
| `AttestationTheorems.EndorsementOrderDecides` | lima_office/runtime/attestation_verifier.py:166-189 | A revoked endorsement counts before a trusted one and not after it |
| `AttestationTheorems.ReferenceOrderDoesNotDecide` | lima_office/runtime/attestation_verifier.py:128-152 | With readable times the order of references does not matter |
| `Escalation.CheckTier` | lima_office/runtime/escalation.py:84-104 | A tier passes iff it is sound, and is unchanged |
| `Escalation.LadderPassesExactlyWhen` | lima_office/runtime/escalation.py:137-191 | Sound tiers pass iff they make a sound ladder |
| `Escalation.LoadLadder` | lima_office/runtime/escalation.py:254-293 | The loop loads the ladder or names the first refusal |
| `Escalation.LoadsExactlyWhen` | lima_office/runtime/escalation.py:254-293 | A configuration loads iff it is well shaped and its tiers meet the ladder rules, and what loads is what it describes |
| `Escalation.LoadsWhatIsWritten` | lima_office/runtime/escalation.py:254-293 | Entries load as a ladder iff it is sound and each entry writes out its tier: role, kind, exactly its permits, and its number or none |
| `Escalation.RecordReadsBackExactlyWhen` | lima_office/runtime/escalation.py:115-128 | Reading a ladder's record back gives the ladder, in whatever order permits are listed, iff no tier permits the empty action class |
| `Escalation.RecordSaysWhoDefers` | lima_office/runtime/escalation.py:243-252 | A ladder's record counts and copies its tiers; a tier may defer iff an escalation from it goes on, and the terminal role is that of the one that may not |
| `Escalation.EmptyPermitDoesNotReadBack` | lima_office/runtime/escalation.py:273-282 | A concrete accepted ladder whose own record is refused |
| `Escalation.FindTier` | lima_office/runtime/escalation.py:208-214 | The tier with the number, or a refusal outside the ladder |
| `Escalation.FirstTierPermitting` | lima_office/runtime/escalation.py:235-241 | The least permitting tier; the fallback is never reached |
| `Escalation.PermissionIsUpwardClosed` | lima_office/runtime/escalation.py:181-191 | What a tier permits every higher tier permits |
| `Escalation.AboveUnboundedIsHuman` | lima_office/runtime/escalation.py:100-104 | Every tier above an unbounded one is an unbounded human |
| `Escalation.EscalationTerminates` | lima_office/runtime/escalation.py:199-233 | From tier k, n-k steps and no fewer or more reach the one tier that cannot defer, a human who permits everything |
| `Escalation.Escalate` | lima_office/runtime/escalation.py:327-348 | One move goes one tier up, to at least the same authority, and is marked terminal iff it reaches the last tier |
| `Escalation.DefaultLadderIsSound` | lima_office/runtime/escalation.py:296-324 | The default ladder meets every rule |

## Left out

- JSON Schema validation, contract loading and the schema files: a flag on each payload stands for the verdict.
- Timestamp text, time zones, SHA-256 and UUIDs: times are integers, digests are compared as records, fresh ids are parameters; a repeated id is refused by the store's uniqueness rules.
- SQLite, threads and WAL: a `with connection` block is one atomic step on maps whose keys are the UNIQUE columns.
- `ApprovalTheorems.NoLostPreviewUpdate`: the services' methods are steps of a state machine, one per store access, not one method each, because other clients' steps fall between them.
- Guardian verdicts, evidence events and event payloads in the approval services: one flag per step says whether they allow it.
- History labels (`updated_at`), snapshots and other read-only views of the simulators, and the methods that always refuse.
- `EvidenceLifecycle.EvidenceLifecycleSimulator.Transition`: Guardian and task linkage and the export-manifest verdict are flags of the call, because their checks are flat conjunctions over records that are not modelled.
- Values that JSON allows but the code would fail on with a type error (a list where a string is compared, an unhashable id, a null where a list is expected).
- `PinTheorems.RescanFindsTheSameSpans`: covers patterns of a head, the captured digits and a literal tail without hexadecimal digits, where the head is of fixed length or starts and ends outside the digits and holds no run of forty; other regular expressions are not modelled. The bump theorems cover the second kind, which includes every pattern of the lock file.
- Reading and writing files, the lock file's own JSON, git and network resolution in `bump-pin`: files are a map from paths to texts.
- Reason names of the linkage validator are constructors; the substring tests that classify them are written as the groups of names they select.
- The registry behind `validate_reason_codes`: codes are given as the registry normalises them, and a flag says whether they are known.
- Case folding of role labels is an arbitrary function in every theorem about ladders.
- Secret-pattern scanning, redaction, retention fields and the remaining constant fields of evidence artifacts.
- Policy predicates, connector classifiers, model routing, trust posture, access matrix and attestation lineage: long conjunctions that would only add easy members.
