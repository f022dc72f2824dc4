# VulnOps Hub: a verified model of the control plane

VulnOps Hub keeps vulnerability exposures, remediation cases and risk decisions in a database, and
moves them with an outbox worker, a case service, pollers and importers. This project models its
protocols and proves what they keep: what survives a crash between two commits, what every run of
case calls preserves, what any interleaving of threads or approvers can do, and which rewriting steps
of the matching pipeline leave a verdict unchanged.

SQL tables are sequences, sets and maps; a `commit()` is one atomic step; rows are numbered in creation
order and the numbers stand for generated identifiers. Code that updates rows in place is a class whose
methods are proved against functions on the tables; the properties are then lemmas about those
functions and about runs of steps. An exception, a failing feed or a dying process is a nondeterministic
choice (`if *`) or an answer passed in, never an excluded case.

| file | content |
|---|---|
| `Domain.dfy`, `Text.dfy` | shared vocabulary; the string operations used below |
| `RiskPolicy.dfy` | priority policy, its monotonicity and bounds |
| `PurlDerivation.dfy` | package URL printer and the three readers |
| `Matching.dfy`, `Normalisation.dfy` | matching loops against a declarative verdict; OSV flattening |
| `Assets.dfy`, `Ownership.dfy` | assets and services; owner resolution of a new case |
| `Cases.dfy`, `CaseService.dfy` | case operations on tables; the service that carries them out |
| `CaseLaws.dfy` | what each case operation decides, in terms a caller can check |
| `CaseRuns.dfy`, `CaseLocking.dfy`, `ApprovalRace.dfy` | runs of calls; interleaved writers; interleaved approvers |
| `JwkSelection.dfy`, `JwksCache.dfy` | key selection; the shared key cache under interleaved threads |
| `Polling.dfy`, `AssetImport.dfy` | incremental polling; the CSV import |
| `Exposures.dfy`, `Handlers.dfy`, `Outbox.dfy`, `Orchestrator.dfy`, `OpenCases.dfy` | tables the handlers write; handler plans; outbox polls; the worker; one open case per exposure |

Some promises hold only under a condition; the model keeps the code as it is and says which.

- Accepted risks stay backed by an approval exactly when no bare transition accepts an unbacked case
  (`CaseRuns.BackedExactly`, with a run that fails in `CaseRuns.BareTransitionAccepts`).
- At most one open case lists an exposure exactly when nobody opens or reopens a case for an exposure
  that an open case lists already (`OpenCases.OneOpenCaseExactly`; runs that fail:
  `OpenCases.ReopenedCaseDuplicates`, `OpenCases.ManualCaseDuplicates`, `OpenCases.ForeignCaseDuplicates`).
- Under optimistic locking a writer among honest ones never leaves the lifecycle exactly when it passes a
  version already committed, or the one two ahead of a status whose only way on is triage
  (`CaseLocking.HarmlessExactly`). A version guessed a single step ahead can always be made to fail
  (`CaseLocking.GuessedVersionBreaksLifecycle`).
- Flattening an OSV document keeps the verdict under five conditions on its entries, none of which can
  be dropped (`Normalisation.VerdictPreserved`, `Normalisation.EachClauseNeeded`); the exact condition
  for one component and comparison is `Normalisation.PreservedExactly`.
- Paging over a listing that only grows loses nothing (`Polling.Fetch`); a finding that disappears
  between two pages makes it skip another exactly when it had been read and unread ones follow
  (`Polling.RemovalExactly`, `Polling.RemovalLoses`).

## Model

| member | source | states |
|---|---|---|
| Exposures.RetryEquivalent | src/vulnops/workers/orchestration.py:500-698 | crash-retry equivalence: dying after any number of whole tasks, or between the two commits of one, and running all tasks again ends with the exposures, evidence and cases of one uninterrupted run |
| Exposures.RunTwice | src/vulnops/workers/orchestration.py:72-155 | running a handler's tasks twice in a row is running them once |
| Exposures.RunUnique | src/vulnops/workers/orchestration.py:72-155 | after any number of tasks there is still one exposure per key and one evidence row per exposure and event |
| Exposures.UpsertMeaning | src/vulnops/workers/orchestration.py:72-155 | an upsert leaves exactly one row with the key; it carries the latest class, confidence, priority and state, keeps the first asset, and no other row changes |
| Exposures.CaseMeaning | src/vulnops/workers/orchestration.py:428-496 | after a case-class task that may open a case its exposure has an open case: the old one, or one new case for it alone at the task's priority; otherwise no case changes |
| Exposures.AutoOwnerIsCreationOwner | src/vulnops/cases/service.py:258-317 | an automatically opened case gets the owner and escalation flag that general case creation would decide |
| Handlers.SelectForCve | src/vulnops/workers/orchestration.py:183-198 | the first document that names the CVE by id or alias, and none only when none does |
| Handlers.NamesInAnyCase | src/vulnops/workers/orchestration.py:183-198 | a document names a CVE by its id or an alias, whatever the letter case |
| Handlers.QueryAsksBare | src/vulnops/workers/orchestration.py:516-560 | OSV is asked for the bare package of a printed URL, and an empty version is no version |
| Handlers.SbomPlan | src/vulnops/workers/orchestration.py:500-548 | an SBOM event raises exactly when some component has a package URL and a version and OSV fails for all such; otherwise it has exactly one task per such component and answered document, in order, with that component's key and asset, the event as reference, and the matcher's verdict on the flattened document under the document's VEX status |
| Handlers.DojoPlan | src/vulnops/workers/orchestration.py:550-623 | when a DefectDojo event asks for nothing, raises or has its one task; a verified finding is confirmed, another gets the matcher's verdict on the first document OSV returned, or on a bare advisory |
| Handlers.FindingComponent | src/vulnops/workers/orchestration.py:214-227 | the component a finding's fields describe, with the type of its package URL as ecosystem |
| Handlers.WazuhAsks | src/vulnops/workers/orchestration.py:625-650 | when a Wazuh event asks for nothing, raises or has its one task, and about which exposure |
| Handlers.WazuhBound | src/vulnops/workers/orchestration.py:640-698 | with a document naming the CVE the task asks for a case and carries the matcher's verdict on the first such document |
| Handlers.WazuhUnbound | src/vulnops/workers/orchestration.py:652-698 | without one it asks for no case, and where the matcher was sure it becomes a candidate of confidence at most 0.4 |
| Handlers.PlanDerived | src/vulnops/workers/orchestration.py:380-424 | every planned exposure has a confidence in [0, 1], non-empty rules, and the priority the policy gives to exactly its class, confidence and feed answers |
| Handlers.OpenedBy | src/vulnops/workers/orchestration.py:428-496 | running tasks only appends cases; each new one lists one exposure, the one a case-class task that asked for a case is about, with the priority and organization of that task |
| Handlers.AutoCreatedPriorities | src/vulnops/workers/orchestration.py:380-413 | over whole handler runs, an automatically opened case lists one exposure and is P0, P2 or P3; it is P0 exactly when that exposure's vulnerability is in KEV with EPSS above 0.5 and the match that asked for the case is confirmed |
| Handlers.WazuhCasesAreBound | src/vulnops/workers/orchestration.py:625-698 | a Wazuh finding asks for a case only when it has a package URL and OSV returned an advisory naming its CVE |
| OrchestratorModule.Orchestrator.UpsertExposure | src/vulnops/workers/orchestration.py:72-155 | the row update is the specification's upsert and yields the row with the key |
| OrchestratorModule.Orchestrator.MaybeCreateCase | src/vulnops/workers/orchestration.py:428-496 | a case is opened exactly when neither a link row nor an exposure list shows an open one, whether or not the later link commit happens; only unhandled events are emitted |
| OrchestratorModule.Orchestrator.HandleTask | src/vulnops/workers/orchestration.py:500-548 | one task stops at one of its commit boundaries and a completed one has done all its work |
| OrchestratorModule.Orchestrator.HandleTasks | src/vulnops/workers/orchestration.py:500-698 | whatever fails, the tables are those after some prefix of the commits |
| OrchestratorModule.Orchestrator.ProcessEvent | src/vulnops/workers/orchestration.py:252-265 | touches only its own row and appended notices, and unless it dead-letters keeps the tables on the course of an undisturbed pass |
| OrchestratorModule.Orchestrator.ClaimEvents | src/vulnops/workers/orchestration.py:37-48 | claims exactly the oldest claimable rows, at most one batch; a short batch means all of them |
| OrchestratorModule.Orchestrator.ProcessBatch | src/vulnops/workers/orchestration.py:267-303 | a completed batch decreases the pair (claimable handled rows, claimable unhandled rows) |
| OrchestratorModule.Orchestrator.RunOnce | src/vulnops/workers/orchestration.py:267-303 | terminates; without failure leaves nothing claimable, a failure adds one attempt to one event; returns the number of handled events delivered; stays on course unless it dead-letters |
| Outbox.PollSpendsBudget | src/vulnops/workers/orchestration.py:267-303 | a poll never creates attempts to spend and a failed one uses at least one |
| Outbox.BoundedProgress | src/vulnops/workers/orchestration.py:37-69 | after one poll more than there were attempts left in total, every event is delivered or dead-lettered |
| Outbox.StayOnCourse | src/vulnops/workers/orchestration.py:246-303 | across any failures, crashes and retries that dead-letter nothing, what a clean pass over the rest would yield never changes |
| Outbox.RunsRecover | src/vulnops/workers/orchestration.py:246-303 | a drained queue with no dead letter has exactly the tables of one undisturbed pass over the pending events |
| OpenCases.OneOpenCasePerExposure | src/vulnops/workers/orchestration.py:440-495 | when cases that list exposures are opened by the worker only and no closed case leaves its status, at most one open case lists an exposure in every state of every run, crashes and lost links included |
| OpenCases.OneOpenCaseExactly | src/vulnops/workers/orchestration.py:440-495 | over every run of all the code can do (worker commits, lost links, legal status moves, revocations, reopenings, cases people open for any exposures, reviews): at most one open case lists an exposure in every state if and only if no step opens or reopens a case for an exposure that an open case lists already |
| OpenCases.WorkerNeverDuplicates | src/vulnops/workers/orchestration.py:440-466 | the worker is never that step, as long as people list existing exposures of their own organization |
| OpenCases.CommitOpensExactly | src/vulnops/workers/orchestration.py:436-466 | the worker opens a case if and only if it is due and neither a link row nor an exposure list of an open case of the organization leads to the exposure |
| OpenCases.ReviewExactly | src/vulnops/api/exposures.py:78-104 | a review settles a candidate or an exposure under review and touches nothing else |
| OpenCases.ReviewOpensCase | src/vulnops/api/exposures.py:89-104 | after a confirmed review the worker's next commit for the exposure opens a case unless one is open |
| OpenCases.ObservationForgetsReview | src/vulnops/workers/orchestration.py:96-110 | the next observation of a reviewed exposure leaves what it would have left without the review |
| OpenCases.ReopenedCaseDuplicates | src/vulnops/cases/service.py:1040-1077 | counterexample run along the lifecycle: a case closed, replaced by a new one and then reopened leaves two open cases on one exposure |
| OpenCases.ManualCaseDuplicates | src/vulnops/api/cases.py:204-231 | counterexample run: case creation accepts an exposure that already has an open case |
| OpenCases.ForeignCaseDuplicates | src/vulnops/workers/orchestration.py:457-466 | counterexample run: the worker does not see another organization's open case that lists its exposure |
| CaseServiceModule.CaseService.CreateCase | src/vulnops/cases/service.py:233-396 | commits the case with the resolved owner and its log rows, or changes nothing on an owner conflict |
| CaseServiceModule.CaseService.Transition | src/vulnops/cases/service.py:456-571 | commits one legal edge with the next version and a paired log, or changes nothing |
| CaseServiceModule.CaseService.Verify | src/vulnops/cases/service.py:573-672 | closes an awaiting case on complete coverage, otherwise only logs; raises from any other status |
| CaseServiceModule.CaseService.CreateRiskDecision | src/vulnops/cases/service.py:680-785 | adds a pending decision for valid requests only |
| CaseServiceModule.CaseService.ApproveRiskDecision | src/vulnops/cases/service.py:787-952 | succeeds exactly for an eligible human who is not the requester, on a pending decision with a legal edge; otherwise changes nothing |
| CaseServiceModule.CaseService.RevokeDecision | src/vulnops/cases/service.py:954-986 | revokes and forces triage from any status |
| CaseServiceModule.CaseService.CollectDue | src/vulnops/cases/service.py:988-1006 | the expired ones among the rows the database answers with, each once |
| CaseServiceModule.CaseService.ExpireDue | src/vulnops/cases/service.py:1007-1038 | the sweep loop is the one-by-one expiry of the listed rows and counts them |
| CaseServiceModule.CaseService.ProcessExpirations | src/vulnops/cases/service.py:988-1038 | for any row order: exactly the due decisions expire, exactly their accepted cases return to triage with one more version |
| CaseServiceModule.CaseService.ReopenOnEvidence | src/vulnops/cases/service.py:1040-1077 | reopens a closed case and nothing else |
| Cases.SweepOrderIrrelevant | src/vulnops/cases/service.py:988-1038 | decisions and cases after a sweep do not depend on the row order |
| Cases.SweepIdempotent | src/vulnops/cases/service.py:988-1038 | sweeping again at the same time finds nothing |
| Cases.SweepsCompose | src/vulnops/cases/service.py:988-1038 | sweeping at a and then at b, a at most b, leaves the decisions, statuses and versions of one sweep at b |
| CaseRuns.AuditRefinesState | src/vulnops/cases/service.py:336-390 | in every committed state of every run the audit log alone determines each status, the version is the number of its status-setting entries, and the outbox is the log's image, one row per such entry |
| CaseRuns.CallsFollowLifecycle | src/vulnops/cases/models.py:28-38 | every call moves a case along a lifecycle edge with the next version or leaves it alone; only revocation may jump, to triage |
| CaseRuns.ExpirySafety | src/vulnops/cases/service.py:832-1038 | when risk is accepted by approval only, every accepted case is backed by an approved acceptance, and after a sweep by one that expires later |
| CaseRuns.BackedExactly | src/vulnops/cases/service.py:456-571 | accepted cases stay backed through a run if and only if no bare transition accepts the risk of a case without an approved acceptance |
| CaseRuns.FourEyesAlways | src/vulnops/cases/service.py:804-866 | in every run a settled decision records a human approver who is not the requester and held an approver role; approved ones have reason, evidence, supported kind and expiry |
| CaseRuns.DecisionsFollowLifecycle | src/vulnops/cases/service.py:680-1038 | no call rewrites what a decision asked for, and a settled decision never becomes pending again |
| CaseRuns.SweepLeavesUnexpired | src/vulnops/cases/service.py:988-1038 | a case still accepted after a sweep has a backing decision that expires after it |
| CaseRuns.BareTransitionAccepts | src/vulnops/cases/models.py:30 | counterexample: the bare transition triage to risk_accepted needs no decision |
| CaseLaws.VerifyExactly | src/vulnops/cases/verification.py:6-45 | a verification succeeds only on an awaiting case; it closes the case if and only if coverage is complete, success or ok, the method is neither manual attestation nor VEX, a scanner names its scope and a Wazuh observation is at most a day old or undated; otherwise no case changes |
| CaseLaws.ClosedWasClosedBy | src/vulnops/cases/service.py:456-672 | a case found closed in a run was closed, from awaiting verification, by such a verification or by a bare transition, and has been closed since |
| CaseLaws.LifecycleInverse | src/vulnops/cases/models.py:28-38 | the lifecycle seen from its targets: which statuses lead to each |
| CaseLaws.CreateExactly | src/vulnops/cases/service.py:318-390 | a created case is appended and logged by the service with one outbox row; an escalation adds one entry without a row |
| CaseLaws.TransitionExactly | src/vulnops/cases/service.py:471-554 | a transition succeeds if and only if its edge is legal and any expected version is the current one, and moves this case only |
| CaseLaws.RequestExactly | src/vulnops/cases/service.py:145-168 | exactly when a decision may be requested |
| CaseLaws.DecideExactly | src/vulnops/cases/service.py:804-930 | a decision is settled if and only if it is pending, by a human with the capability and an approver role who did not request it, with a reason; an approval also needs a supported, substantiated request that has not lapsed and a case in triage |
| CaseLaws.DecideMoves | src/vulnops/cases/service.py:830-900 | which status an approval of each kind leads to; a rejection moves nothing |
| CaseLaws.RoleExactly | src/vulnops/cases/service.py:107-109 | the first of the four approver roles the actor carries, trimmed and in any letter case |
| CaseLaws.RevokeExactly | src/vulnops/cases/service.py:954-986 | a revocation succeeds for every known decision and forces its case to triage |
| CaseLaws.ReopenExactly | src/vulnops/cases/service.py:1040-1077 | evidence reopens a case if and only if it is closed, and logs it |
| CaseLaws.SweepExactly | src/vulnops/cases/service.py:988-1010 | an approved decision expires at its time, not before, and no other does |
| CaseLaws.SweepCaseExactly | src/vulnops/cases/service.py:1007-1030 | a case returns to triage if and only if it is accepted and one of its approved decisions has lapsed |
| CaseLaws.FreshApprovalSurvives | src/vulnops/cases/service.py:866-1038 | a sweep at the time of an approval leaves the decision and its case alone unless another decision of the case is due |
| CaseLaws.StatusEntriesPublish | src/vulnops/cases/service.py:336-390 | every audit entry that records a status has exactly one outbox row about the same subject |
| CaseLocking.LockedHistory | src/vulnops/cases/service.py:529-554 | under any interleaving of versioned writers that pass harmless versions the status history is a lifecycle path and the version counts the commits |
| CaseLocking.OneWinnerPerVersion | src/vulnops/cases/service.py:529-554 | no two commits are made on the same version |
| CaseLocking.UndisturbedIsTransition | src/vulnops/cases/service.py:471-554 | an undisturbed read and swap is the atomic transition |
| CaseLocking.HarmlessExactly | src/vulnops/cases/service.py:471-554 | the exact condition: in any state reached so far, a writer's version is harmless in every continuation by honest writers if and only if it was already committed or lies two ahead of a status whose only way on is triage |
| CaseLocking.GuessTable | src/vulnops/cases/models.py:28-38 | every lifecycle path of length n from a status ends where the legal move is still legal if and only if n is 2 and triage is the status's only way on |
| CaseLocking.GuessedVersionBreaksLifecycle | src/vulnops/cases/service.py:471-554 | for every status and every legal move, a version guessed one ahead lets honest writers make the swap commit an edge the lifecycle forbids |
| ApprovalRace.AtMostOneDecision | src/vulnops/cases/service.py:866-950 | under any interleaving either the tables never change, or one contender that validated earlier in the interleaving and was entitled to decide changes them once, at its own commit, into exactly what its atomic call alone makes of the initial tables |
| ApprovalRace.SomeoneWinsExactly | src/vulnops/cases/service.py:866-950 | a race changes the tables if and only if some validated contender in waiting commits a rejection or a legal approval |
| ApprovalRace.SoloRace | src/vulnops/cases/service.py:804-950 | a contender that races nobody does what the atomic call does, refusals included |
| ApprovalRace.ValidationAdmits | src/vulnops/cases/service.py:804-850 | a contender waits to commit exactly when it was entitled to decide as it validated, and validation writes nothing |
| ApprovalRace.CommitIsAtomic | src/vulnops/cases/service.py:866-950 | while the decision is pending, a commit on stale reads does what the atomic call would do |
| ApprovalRace.WinnerRecorded | src/vulnops/cases/service.py:804-950 | in every race that changes the tables the one audit entry and one outbox row name a validated contender of that race: a human with an approver role who is not the requester; other cases are untouched |
| ApprovalRace.LosersChangeNothing | src/vulnops/cases/service.py:866-900 | in every race, once the tables have changed no later step of any contender changes them |
| ApprovalRace.IllegalEdgeRollsBack | src/vulnops/cases/service.py:866-950 | in every race on a decision whose approval edge is illegal the case never moves, and without a rejection nothing changes at all |
| Ownership.ResolveCaseOwnership | src/vulnops/cases/service.py:258-317 | conflict if and only if two linked assets differ in case-folded team or in owned versus default; escalation if and only if P0 or P1, default requested and every asset unowned; the owner otherwise the least agreed one |
| Ownership.Precedence | src/vulnops/cases/ownership.py:35-79 | the asset's own owner decides, whatever the services hold; then its service's team; then the default; other organizations' assets and services never do |
| Ownership.SoleAssetOwner | src/vulnops/cases/service.py:258-317 | the owner and escalation of a case about one linked asset, following that precedence unless the caller names another team |
| Ownership.PairConflicts | src/vulnops/cases/service.py:290-300 | two linked assets conflict if and only if their teams differ beyond letter case or only one is owned |
| Ownership.LinkedExactly | src/vulnops/cases/service.py:262-280 | which assets a case is linked to |
| Ownership.EarliestSpelling | src/vulnops/cases/service.py:301-313 | of agreeing owners the earliest spelling is taken, an asset's before a service's |
| Ownership.LeastOwner | src/vulnops/cases/service.py:258-317 | the minimum over the resolved owners, in whatever order they are met |
| Ownership.OnlyTheSetMatters | src/vulnops/cases/ownership.py:35-79 | reordering or repeating exposures changes neither conflict, owner nor escalation |
| Ownership.OneExposureNeverConflicts | src/vulnops/cases/service.py:258-317 | a case for one exposure cannot conflict when its asset id carries no outer spaces |
| JwkSelection.KeyForToken | src/vulnops/auth/oidc.py:514-546 | the first eligible and buildable key, and none exactly when no key is |
| JwkSelection.EligibleExactly | src/vulnops/auth/oidc.py:514-540 | which keys may verify a token: conditions on key id, use, operations and algorithm |
| JwksCache.SingleFlightAlways | src/vulnops/auth/oidc.py:337-373 | in every interleaving: memo entries carry the current generation, failures are among them, and forced fetches of a key happen in increasing generations |
| JwksCache.AtMostOneForcedFetchPerGeneration | src/vulnops/auth/oidc.py:337-373 | two forced fetches of one key id and algorithm in one generation are the same fetch |
| JwksCache.FailureReplayed | src/vulnops/auth/oidc.py:337-373 | until the generation moves, a failed refresh answers every later miss of its key with the same category and code and no fetch |
| JwksCache.SnapshotServesFresh | src/vulnops/auth/oidc.py:421-497 | an unforced read leaves the cache alone and serves the cached keys if and only if they are stamped and now minus the stamp is below the age; any other keys it serves are the provider's current ones under the next generation |
| JwksCache.SnapshotAnswersExactly | src/vulnops/auth/oidc.py:459-497 | exactly when an unforced read answers with keys |
| JwksCache.SnapshotErrors | src/vulnops/auth/oidc.py:426-497 | which error it raises otherwise |
| JwksCache.DiscoveryExactly | src/vulnops/auth/oidc.py:426-453 | the discovery document is reused, whatever the provider says, if and only if it is younger than its age; otherwise the current one is stored and stamped |
| JwksCache.MissAsksExactly | src/vulnops/auth/oidc.py:337-373 | a missing-key block asks the provider if and only if nobody has moved the generation it observed |
| JwksCache.BeginWaits | src/vulnops/auth/oidc.py:335-340 | a thread takes its second step exactly when its snapshot has keys but none that will do |
| JwksCache.RetryRecords | src/vulnops/auth/oidc.py:337-373 | the second step is the missing-key block, and a forced fetch is on record exactly when it was made |
| JwksCache.RetryUsesCachedKeys | src/vulnops/auth/oidc.py:337-373 | a missing-key block remembers its attempt, retries with the cached keys, and an error it raises is the remembered one |
| JwksCache.OidcVerifier.Discover | src/vulnops/auth/oidc.py:426-453 | updates only the discovery fields; a young document is kept untouched, an old one replaced by the provider's |
| JwksCache.OidcVerifier.GetJwks | src/vulnops/auth/oidc.py:459-497 | the forced and unforced reads on the object's fields: young keys are served untouched, otherwise the provider's current ones under the next generation |
| JwksCache.OidcVerifier.RefreshForMissingKey | src/vulnops/auth/oidc.py:337-373 | the locked block on the object's fields is the specified step |
| JwksCache.OidcVerifier.FindKey | src/vulnops/auth/oidc.py:335-375 | one undisturbed verification is the two interleaving steps back to back; its key is built from a cached key, and "not found" means that no cached key will do and the attempt is remembered |
| Matching.Evaluate | src/vulnops/matching/service.py:97-300 | the loops with early exits give the declarative verdict on every input |
| Matching.CollectBounds | src/vulnops/matching/service.py:190-200 | the last event naming a bound gives it |
| Matching.ScanRanges | src/vulnops/matching/service.py:185-215 | matches if and only if some range contains the version |
| Matching.ScanEntry | src/vulnops/matching/service.py:154-251 | matches if and only if the entry is about the component and contains the version |
| Matching.ScanEntries | src/vulnops/matching/service.py:154-251 | both loop flags are the existential facts they stand for |
| Matching.PackageVerdict | src/vulnops/matching/service.py:154-300 | for a versioned package of a supported ecosystem: deterministic if and only if a considered entry contains the version, not_affected if and only if none does, one is considered and some entry carries ranges or versions, else candidate |
| Matching.SoleRangeVerdict | src/vulnops/matching/versioning.py:37-52 | for a sole entry about the component with one range: deterministic if and only if the version is at or after introduced, before fixed and not after lastAffected, where given; else not_affected |
| Matching.BoundsAreLast | src/vulnops/matching/service.py:190-200 | each bound of a range is the one its last naming event gives, and absent when none does |
| Matching.ConsideredExactly | src/vulnops/matching/service.py:23-57 | which entries are about a component: by ecosystem, and by package URL or else by name |
| Matching.SupportedExactly | src/vulnops/matching/versioning.py:55-74 | the ecosystems whose versions are compared |
| Matching.VerdictOrder | src/vulnops/matching/service.py:97-300 | which evidence overrides which, and the confidence of every class |
| Matching.OrderIrrelevant | src/vulnops/matching/service.py:154-251 | permuting or repeating entries, ranges or versions never changes the verdict |
| Normalisation.FlattenAffected | src/vulnops/intelligence/osv.py:181-204 | the nested loops produce one row per range, in order |
| Normalisation.AdvisoryFromRecord | src/vulnops/workers/orchestration.py:158-180 | rows without any bound are dropped, every other row becomes one entry |
| Normalisation.NormalisedEntries | src/vulnops/workers/orchestration.py:158-180 | an entry is in the normalised advisory if and only if it is a usable range of an original entry |
| Normalisation.VerdictPreserved | src/vulnops/intelligence/osv.py:181-204 | matching the flattened advisory gives the verdict of the original document, when the entries about the component carry nothing the flattening drops |
| Normalisation.PreservedExactly | src/vulnops/intelligence/osv.py:181-204 | for every document and comparison, the exact condition on the original document's ranges under which a versioned package that neither scanner nor VEX settles keeps its verdict |
| Normalisation.NormalisedFacts | src/vulnops/workers/orchestration.py:158-180 | what the matcher finds in the flattened advisory, read off the original: a surviving range, and one that reaches the version without its lastAffected |
| Normalisation.EachClauseNeeded | src/vulnops/workers/orchestration.py:158-180 | for every settleable component, every comparison and every clause of that condition, a document violating only it whose verdict changes (given a name, a version equal to itself, or some older version, where the clause speaks of one) |
| RiskPolicy.Evaluate | src/vulnops/risk/policy.py:45-153 | the engine that settles a band and rewrites it gives the declarative priority; escalation exactly under either rule |
| RiskPolicy.Monotone | src/vulnops/risk/policy.py:61-181 | raising any factors together never makes the priority less urgent |
| RiskPolicy.CandidateNeverUrgent | src/vulnops/risk/policy.py:105-153 | a candidate is never P0 or P1 nor more urgent than the same facts under another class |
| RiskPolicy.PolicyTable | src/vulnops/risk/policy.py:61-181 | the whole policy as two escalation rules and thresholds on one weighted sum |
| RiskPolicy.ExposurePriority | src/vulnops/workers/orchestration.py:380-413 | the priority stored on an exposure, for every class |
| RiskPolicy.AutoCasePriority | src/vulnops/workers/orchestration.py:380-413 | with normal feed answers the orchestrator's score is at most 42; exactly when P0 and when P2 result |
| PurlDerivation.UnquoteQuote | src/vulnops/integrations/wazuh_purl.py:95-98 | percent-decoding recovers every octet |
| PurlDerivation.DerivedRoundTrip | src/vulnops/integrations/wazuh_purl.py:101-156 | a derived package URL survives the SBOM parser, the OSV base and the matcher's identity, and decodes to the row's name and version |
| PurlDerivation.PrintRoundTrip | src/vulnops/sbom/parser.py:29-55 | the same for every printed type, namespace, name, version and architecture |
| PurlDerivation.DerivationInjective | src/vulnops/integrations/wazuh_purl.py:101-156 | equal derived URLs come from equal type, namespace, name, version and lower-cased architecture |
| PurlDerivation.DerivedExactly | src/vulnops/integrations/wazuh_purl.py:101-156 | exactly when a package URL is derived, and of which type and namespace |
| PurlDerivation.LongestVendorWord | src/vulnops/integrations/wazuh_purl.py:25-92 | the longest vendor word in the text decides the distribution |
| PurlDerivation.NeedlesNameThemselves | src/vulnops/integrations/wazuh_purl.py:25-38 | which distribution each vendor word names |
| PurlDerivation.SkipReasons | src/vulnops/integrations/wazuh_purl.py:113-150 | why a row is skipped, in the order of the checks |
| PurlDerivation.ParsesWellFormed | src/vulnops/sbom/parser.py:29-55 | what the SBOM parser reads from any well-formed package URL |
| PurlDerivation.ParsesMalformed | src/vulnops/sbom/parser.py:29-55 | a text without type and path is kept whole as a name |
| PurlDerivation.ParsesBroken | src/vulnops/sbom/parser.py:29-55 | so is one that ends at its type or breaks off in a line |
| PurlDerivation.PlainPrintedAsIs | src/vulnops/integrations/wazuh_purl.py:95-98 | a name is printed as it is if and only if it consists of letters, digits and five marks |
| PurlDerivation.IdentityMergesOnlyCase | src/vulnops/matching/service.py:11-20 | two printed packages share a matching identity if and only if they agree on type, namespace and the name up to letter case |
| Polling.Fetch | src/vulnops/workers/polling.py:35-62 | terminates and returns exactly the findings above the cursor, whether or not upstream filters, while new ones arrive between pages |
| Polling.NewerExactly | src/vulnops/workers/polling.py:52-56 | what is kept of a listing: exactly the findings whose id exceeds the cursor |
| Polling.PollingWorker.Enqueue | src/vulnops/workers/polling.py:163-184 | the queue holds all jobs, or on failure a prefix of them |
| Polling.PollingWorker.PollSource | src/vulnops/workers/polling.py:163-184 | while findings arrive between pages, every execution is one of the four outcomes of a poll on what upstream held at the last page, and only a completed one moves the cursor |
| Polling.PollingLosesNothing | src/vulnops/workers/polling.py:163-212 | over every run of polls with failures and crashes the cursor never decreases and every finding at or below it was enqueued |
| Polling.CheckpointCatchesUp | src/vulnops/workers/polling.py:163-212 | after a completed poll every upstream finding was enqueued |
| Polling.RemovalExactly | src/vulnops/workers/polling.py:44-60 | exactly when a finding removed upstream between two pages makes paging skip another: it had been read and unread ones follow |
| Polling.RemovalLoses | src/vulnops/workers/polling.py:44-61 | the skipped finding lies below the next cursor as soon as one more follows it, so no later poll fetches it |
| AssetImport.AssetImporter.ReconcileAlias | src/vulnops/assets/reconciliation.py:36-78 | exactly the assets of the organization's matching aliases |
| AssetImport.MatchesExactly | src/vulnops/assets/reconciliation.py:36-78 | one asset for each hostname alias of that value in the organization |
| AssetImport.AssetImporter.ImportRow | src/vulnops/api/assets.py:99-171 | one row is skipped, updates its asset in place or creates one |
| AssetImport.AssetImporter.ImportAssets | src/vulnops/api/assets.py:69-178 | the loop is the fold over the rows; created, updated and skipped add up to the rows, and only creations add assets |
| AssetImport.ImportIdempotent | src/vulnops/api/assets.py:99-171 | importing the same file again creates nothing and changes no field and no alias |
| AssetImport.HostnamesStayUnique | src/vulnops/assets/reconciliation.py:47-78 | a hostname that was absent or unique stays at most unique; an ambiguous one keeps its matches |
| AssetImport.RowStands | src/vulnops/api/assets.py:112-171 | after a row its hostname leads to its asset, which shows the row's cells, and its address is on record |
| AssetImport.RowFate | src/vulnops/api/assets.py:99-150 | exactly which rows are skipped, update or create |
| AssetImport.RowCells | src/vulnops/api/assets.py:99-156 | what each cell of a row does to its asset, blank cells and new assets included |
| AssetImport.ServiceExactly | src/vulnops/api/assets.py:33-62 | an existing service id decides; else the name, unless two services have it |
| AssetImport.LastRowWins | src/vulnops/api/assets.py:99-171 | after the import every asset stands as the last row that wrote to it says |

## Left out

- HTTP routing, schemas, the frontend, migrations, object storage and metrics: input and output only.
- SQL isolation: a transaction is atomic; several orchestrators at once are not modelled, since the claim's row locks end at its first commit.
- OrchestratorModule.Orchestrator.ProcessEvent: a handler's lookups are planned before its writes, while the source interleaves them; feeds are taken to answer the same throughout a run.
- OrchestratorModule.Orchestrator.MaybeCreateCase: owner resolution is a total parameter, so the conflict raised for an asset id with outer spaces is not modelled here (`Ownership.OneExposureNeverConflicts` gives the condition), nor are the ticket service and link row in the equivalence results.
- Polling.Fetch: upstream only grows while it runs.
- OrchestratorModule.Orchestrator.RunOnce: a failing commit of the delivery mark is treated as a crash; the endless polling loop and its timing are not modelled.
- Outbox.BoundedProgress: speaks of polls in which the process survives; a crash spends no attempt, so no bound counts them.
- Generated identifiers, timestamps, titles, assignees, payload contents, the SLA clock and actor provenance fields.
- Correlation ids of expiry entries, which are generated: an empty one stands in.
- Concurrent writers that pass no expected version: modelled as atomic calls only.
- CaseRuns.CallsFollowLifecycle: makes no legality claim for revocation, which forces triage in the source too.
- JWT signature and claim checks; building a key from a JWK is a parameter.
- JwksCache.AtMostOneForcedFetchPerGeneration: bounds fetches per key and generation; there is no bound across many unknown key ids, because a successful refresh clears the memo.
- PEP 440 comparison is a parameter; no order on versions is assumed anywhere.
- Normalisation.VerdictPreserved: compares against the matcher on the original document, which like the flattening keeps only the last bound of each kind; multi-interval event lists are not judged against the OSV standard.
- OSV documents with neither id nor alias, which get a random id; the OSV cache and its persistence; KEV refresh.
- Case folding and trimming beyond ASCII; package URLs are sequences of UTF-8 octets.
- The agent's operating-system text is a parameter of the derivation.
- CSV decoding and header checks; a crash between the commits that create an asset and its hostname alias.
- The full re-listing Wazuh poll and conversion of cursors to text.
- Polling.PollingLosesNothing: relies on new findings getting ids above all earlier ones and on none disappearing upstream; `Polling.RemovalExactly` says what a disappearing one costs.
- Analyst review of an exposure is modelled by its state change (`OpenCases.Reviewed`), without its audit row.
- Field extraction from scanner and SBOM documents, the role table and the per-priority deadlines: easy members.
