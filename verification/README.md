# VerbaOps: verified model

VerbaOps lets an assistant propose a write (cancel an order, reschedule a delivery, open a return
or a ticket, request a refund) and carries it through policy, supervisor approval, customer
confirmation, a leased execution against NovaCommerce, read-back, and recovery when the outcome is
unknown. This project models that lifecycle and the smaller algorithms around it, and proves what
they keep. `dafny verify dfyconfig.toml` checks all of it.

## Layout

| files | what they model |
|---|---|
| Options, Sets | a value that may be absent; sizes of finite sets |
| ActionModel, ActionLifecycle | the row of one action with its CHECK constraints, and the one decision every mutation goes through |
| ActionLog, ActionServices, ActionStore | the audit log and its fold, the service calls, and any sequence of them on a store of many actions |
| ActionDecisions, ActionLeases, ActionCreation, ActionScopes | what each of those calls answers, told by the columns of the row: decisions, leases and outcomes, creations, and whose rows a command reaches |
| ActionDatabase | the same store as a class, with the mutator and the services as methods that update it in place |
| ActionPolicy | the policy and what becomes of its verdict |
| IdempotentWrites, CommerceWire | NovaCommerce's once-per-key transaction, and many of them interleaved over a network that delays, loses and duplicates |
| CommerceRequests | how executor and reconciler build a request, and how an answer is classified |
| ActionProtocol | one action among any number of executors, reconcilers and deciders, step by step, with crashes and lost answers |
| ProtocolMoves, ProtocolInvariant, ProtocolTrail | the seven moves of a step, and the invariant of every run |
| ProtocolSafety, ProtocolRequests, ProtocolFailure, ProtocolSoleWriter, ProtocolScenarios, ProtocolRounds | the end-to-end theorems, how often a request goes out, when FAILED is final, what the last worker left to send may conclude, the runs that exist, and how each worker's part ends |
| Conversations | turns, stale recovery, voice replay and paging of one conversation |
| Fingerprints, ReturnVerification | canonical proposal material; the read-back check of a return |
| AgentTurn, CitationRepair | the bounded agent graph; the check of a repaired answer |
| OpenApiComponents, OpenApiPaths, RagMetrics | the component worklist, and its parts told by the places of a document; nDCG and recall |

In `ActionProtocol` a run is a sequence of labels, and every choice (who moves, the clock each service
reads, what the network and a read-back return) is in the label. Clocks are not assumed to agree or
to advance, which only adds behaviour. A locked database transaction is one step; the worker's own
memory (its snapshot, its lease, where it is) lives between steps.

## What the code does that its documentation does not say

- The executor's denial of a ready action (src/verbaops/actions/executor.py:103-113) can never commit:
  it clears `confirmation_required` under a recorded customer decision, which the CHECK at
  src/verbaops/actions/persistence.py:86-97 forbids (`ExecutorDenialNeverCommits`).
- The edges from proposed and from awaiting approval straight to ready are unreachable (`DeadEdges`).
- A rejection that a write operation returns is recorded under its key like a success, and replayed for
  good; only a raised API error leaves no record (src/novacommerce/idempotency.py:147-166). A recorded
  status of 0 is replayed as 500.
- `CommerceWriteRejected` is documented as a definite no-mutation answer. That holds for a rejection
  from the key's record. While an earlier request is still on its way, a 4xx from before the idempotent
  transaction or from a rolled-back one says nothing about it, so a reconciler's FAILED can be followed
  by the effect (`ReconcilerFailureIsUndoneExactlyByOrigin`); `FailureIsFinalExactly` gives the exact
  condition. Once no earlier request can write and one worker is left to send, its FAILED is final on
  every answer of the transaction (`LastWritersFailureIsFinalExactly`); a 401 or 404 from before it can
  still hide an effect that was committed earlier (`LastWriterIsUndoneExactlyByEarly`).
- A tool call that is valid but reuses the id of an invalid call of the same round is skipped without
  an answer (`RoundAnswersEachCallOnce`).
- The normalised OpenAPI document keeps references and security names in other top-level keys without
  their definitions (`OutputIsClosedForSecurityExactly`, `WebhooksMayDangle`, `SecurityMayDangle`).
- A return with a reason of more than 500 characters or more than 50 lines passes the proposal model
  (src/verbaops/actions/models.py:113-124) and is refused when its request is built
  (src/verbaops/commerce/models.py:149-169): the execution fails without sending anything.

## Assumptions

- SHA-256 is injective: the request envelope stands for its digest in NovaCommerce, and the proposal
  digest is an injective function of its canonical envelope.
- Fresh identifiers (leases, action ids, idempotency keys, dispatches) have not been used before; a
  reused action id or key is refused like a unique-constraint violation.
- A write operation has its effect exactly when it returns a 2xx outcome, and API errors carry a status
  from 400 to 599.
- A connection error or connect timeout means that the request was not sent.
- Text fields are already stripped and timestamps already carry a time zone where the services check that.

## Model

| member | source | states |
|---|---|---|
| ActionLifecycle.ChecksRejectExactlyDenialAfterReady | src/verbaops/actions/persistence.py:79-109 | the table's CHECK constraints refuse an accepted transition if and only if it is the denial of a ready action |
| ActionModel.ReasonCodesGrow | src/verbaops/actions/transitions.py:94 | which texts are reason codes, letter by letter and up to 128 letters |
| ActionLifecycle.SettleKeepsRow | src/verbaops/actions/transitions.py:275-595 | whatever the arguments, a committed transition keeps the CHECKs, what each state says about policy and both human decisions, and the evidence columns; identity stays, version grows by one |
| ActionLifecycle.DeadEdges | src/verbaops/actions/transitions.py:39-85 | proposed-to-ready, approval-to-ready and ready-to-denied are in the edge table and never commit |
| ActionLifecycle.ExecutableRowsHoldEveryGate | src/verbaops/actions/transitions.py:256-272 | a ready, executing, unresolved or succeeded row passes the execution gates, its human decisions bound to its own fingerprint |
| ActionLifecycle.EvidenceIsFrozen | src/verbaops/actions/refunds.py:11-27 | once executable, no transition changes what a request and its approval evidence are built from |
| ActionDecisions.DecisionsCommitExactly | src/verbaops/actions/transitions.py:39-595 | on every sound row, each decision call commits exactly from the states named, with its own decision column (verdict, actor, clock, row fingerprint), one version and one event; a lapsed row expires whatever is asked; everything else is refused with the row kept |
| ActionLeases.ClaimsExactly | src/verbaops/actions/transitions.py:648-698 | a ready action is claimed if and only if it has not lapsed and the lease outlasts the claim; the executing row holds that lease and one attempt more |
| ActionLeases.RecoversExactly | src/verbaops/actions/transitions.py:700-746 | an execution is recovered if and only if its lease has run out, and is then unresolved and unleased |
| ActionLeases.ReclaimsExactly | src/verbaops/actions/transitions.py:847-897 | an unresolved action is leased for reconciliation if and only if no lease on it still runs |
| ActionLeases.OutcomesSettleExactly | src/verbaops/actions/transitions.py:748-953 | an outcome is stored if and only if its worker holds the lease in the state it settles and the outcome is storable; the row then holds its columns and no lease |
| ActionLeases.ResponsesStoreExactly | src/verbaops/actions/transitions.py:802-845 | a write's answer is stored if and only if the execution lease is held and its status is in range; the lease stays |
| ActionLog.SettleExtendsLog | src/verbaops/actions/transitions.py:565-595 | every committed transition appends one event that continues the log, and the fold of the longer log is the new row |
| ActionLog.LogNumbersVersions | src/verbaops/actions/transitions.py:388-394 | version equals log length and the last event names the state |
| ActionLog.EventMatchesColumns | src/verbaops/actions/transitions.py:471-563 | decision columns are written exactly with the matching event, and only while empty |
| ActionStore.PerformKeepsStoreSound | src/verbaops/actions/transitions.py:598-1000 | any service call or creation with any arguments keeps rows, logs and the active-scope uniqueness sound |
| ActionStore.EveryExecutableRowHoldsItsGates | src/verbaops/actions/transitions.py:256-272 | over every run of calls, each executable row holds every required gate; the four copies of the gate predicate (executor.py:388-402, decisions.py:605-619, reconciliation.py:415-431) are this one |
| ActionStore.EveryLogExplainsItsRow | src/verbaops/actions/transitions.py:579-592 | over every run, events are numbered 1..version, chained, and fold back to the row's state, version, decisions and actors |
| ActionStore.EveryDecisionIsWrittenOnce | src/verbaops/actions/transitions.py:471-541 | over every run, each human decides at most once and the supervisor before the customer |
| ActionStore.EveryCommittedEdgeIsLive | src/verbaops/actions/transitions.py:39-85 | over every run, a recorded denial leaves proposed and readiness is never entered from proposed or approval |
| ActionStore.EverySuccessIsVerified | src/verbaops/actions/transitions.py:453-469 | over every run, a row is succeeded if and only if it names a verified resource |
| ActionStore.OneActiveRequestPerSubject | src/verbaops/actions/repository.py:126-305 | over every run, never two active requests about one (tenant, conversation, customer, type, targets), never one idempotency key twice |
| ActionStore.EveryRowIsConsistent | src/verbaops/actions/persistence.py:60-109 | over every run, each row has a digest of 64 hexadecimal letters, a version, a later expiry, and policy, confirmation and approval columns that are empty or whole, required and bound to the row's fingerprint |
| ActionStore.CreationSupersedesExactlyTheUndispatched | src/verbaops/actions/repository.py:219-269 | creation is refused exactly when a dispatched active request has the subject, and otherwise expires exactly the undispatched one |
| ActionStore.LosersComeSecondExactly | src/verbaops/actions/repository.py:365-419 | of two creations that clash, the loser answers as if called second if and only if they share their invocation or scoped fingerprint, or drew the same id or key |
| ActionCreation.RepeatedInvocationsAreAnswered | src/verbaops/actions/repository.py:182-201 | a tool invocation that has its action changes nothing and is answered with that row if and only if place, run, fingerprint and proposal are the same, otherwise with a conflict |
| ActionCreation.OngoingTwinsAreAnswered | src/verbaops/actions/repository.py:203-223 | a new invocation with the fingerprint of an ongoing action in its conversation is answered with that row, or with a collision if the proposals differ |
| ActionCreation.NewProposalsExactly | src/verbaops/actions/repository.py:225-305 | any other creation is refused when born expired, in flight or on a used number, and otherwise holds its request and expires each undispatched predecessor with one event |
| ActionCreation.RepeatedCreationsAnswerTheirRow | src/verbaops/actions/repository.py:182-201 | a creation repeated with any new id, key and clock changes nothing and is answered with the row it made |
| ActionCreation.UnscopedCreationsAreRefused | src/verbaops/actions/repository.py:126-180 | a request without customer, digest or matching conversation, run and invocation is refused before any lookup |
| ActionScopes.CommandsReachTheirRowAlone | src/verbaops/actions/transitions.py:598-1000 | a command on a row outside its tenant or customer is answered as not found and changes nothing; within them it changes that row alone, by its own service |
| ActionDatabase.ActionDatabase.TransitionLocked | src/verbaops/actions/transitions.py:275-595 | the mutator, branch by branch, with its compare-and-set, settles exactly as specified and saves row and event together or nothing |
| ActionDatabase.ActionDatabase.ClaimExecution | src/verbaops/actions/transitions.py:648-698 | the ready-to-executing claim performs its command on the abstract store |
| ActionDatabase.ActionDatabase.RecoverExpiredExecution | src/verbaops/actions/transitions.py:700-746 | recovery of an expired execution lease performs its command |
| ActionDatabase.ActionDatabase.RecordExecutionOutcome | src/verbaops/actions/transitions.py:748-800 | an execution outcome settles only under its own live lease |
| ActionDatabase.ActionDatabase.RecordExecutionCommerceResponse | src/verbaops/actions/transitions.py:802-845 | the write's answer is stored while the lease is kept |
| ActionDatabase.ActionDatabase.ClaimReconciliation | src/verbaops/actions/transitions.py:847-897 | an unresolved action is claimed unless a lease on it is still held |
| ActionDatabase.ActionDatabase.RecordReconciliationOutcome | src/verbaops/actions/transitions.py:899-953 | a reconciliation outcome settles only under its own live lease |
| ActionDatabase.ActionDatabase.Transition | src/verbaops/actions/transitions.py:955-1000 | the general transition, which commits an expiry and then raises it |
| ActionDatabase.ActionDatabase.SupersedePriors | src/verbaops/actions/repository.py:248-268 | the loop over prior requests expires exactly the listed rows |
| ActionDatabase.ActionDatabase.CreateOrGet | src/verbaops/actions/repository.py:126-419 | origin lookup, deduplication, supersession, insertion and the lookup of the winner after a clash perform the creation command |
| ActionPolicy.EveryEvaluationIsRecorded | src/verbaops/actions/policy.py:91-134 | whatever the policy decides on a live proposal is recorded: denied, awaiting approval (a refund above 50000 cents, or a cancellation in processing or labelled) or awaiting confirmation, with its gates and reason |
| ActionPolicy.PolicyAllowsExactly | src/verbaops/actions/policy.py:23-134 | allowed if and only if the caller may propose, is bound to the customer of the facts, the order matches, the facts are current and eligible and a refund has a currency; each denial gives the first unmet demand |
| ActionPolicy.ExecutorDenialNeverCommits | src/verbaops/actions/executor.py:103-113 | the executor's denial of a ready action never commits: on a live row it ends in an integrity error and changes nothing, a lapsed row expires instead |
| IdempotentWrites.ExecuteRefinesRunOnce | src/novacommerce/idempotency.py:89-172 | one transaction is one step of a map that runs each key once; the effect list grows exactly by a new key's 2xx outcome |
| IdempotentWrites.KnownKeysReplayTheirOutcome | src/novacommerce/idempotency.py:122-145 | a known key changes nothing and is answered from its record; the not-completed answer never happens |
| IdempotentWrites.RecordsAreForever | src/novacommerce/idempotency.py:101-145 | a recorded outcome is never replaced, whatever is attempted later |
| IdempotentWrites.ExecutedRepliesAgree | src/novacommerce/idempotency.py:122-172 | all executed replies of a key answer one request with one outcome |
| IdempotentWrites.RepliesTellTheEffect | src/novacommerce/idempotency.py:147-172 | a 2xx reply means the effect is committed for good, any other executed reply that it never will be, also when commit reports an error |
| IdempotentWrites.TheFirstToTakeHoldDecides | src/novacommerce/idempotency.py:89-172 | in any history the first attempt that takes hold decides its key: each earlier attempt is answered by its own run, each later one with that outcome or as a reused key, and the key has an effect if and only if that outcome is a 2xx |
| IdempotentWrites.IdempotencyService.ExecuteIdempotentWrite | src/novacommerce/idempotency.py:89-172 | the transaction as it runs: insert, compare, operate, complete, commit or roll back |
| CommerceWire.WireStepKeepsSound | src/novacommerce/idempotency.py:101-172 | every network or server step keeps records, locks, answers and committers consistent |
| CommerceWire.InterleavingsAreSequential | src/novacommerce/idempotency.py:101-172 | any interleaving of split transactions leaves the committed state of whole transactions run one by one, and every answer not from before the transaction is the reply of its request's entry in that history |
| CommerceRequests.RequestsAreIdentical | src/verbaops/actions/reconciliation.py:301-348 | executor and reconciler build one identical request from any two snapshots of a gated row |
| CommerceRequests.RequestsSayTheProposal | src/verbaops/actions/executor.py:253-386 | a gated row gives a request if and only if its proposal fits the request models, and the request carries key, customer, operation, resources, every body field and, exactly when approval was required, this action's approval |
| CommerceRequests.EvidenceIsTheApproval | src/verbaops/actions/refunds.py:11-27 | on any row whatever, the evidence of a refund is none exactly where no approval was required, this row's own where a named supervisor granted it on the row's fingerprint, invalid otherwise |
| CommerceRequests.EnvelopesTellTheAction | src/verbaops/actions/refunds.py:11-27 | two gated rows with one envelope are about one customer, one proposal and one approval |
| CommerceRequests.AnswersClassifyExactly | src/verbaops/commerce/client.py:305-335 | a rejection is a 4xx but 408 and 429, an acceptance a 2xx that parses, everything else stays open |
| ProtocolMoves.StepMoves | src/verbaops/actions/transitions.py:648-953 | every step of every worker is one of seven moves of row, log and leases |
| ProtocolMoves.GateMoves | src/verbaops/actions/decisions.py:177-306 | whatever a decision service asks, it moves only rows that were never dispatched |
| ProtocolTrail.StepKeepsInv | src/verbaops/actions/reconciliation.py:70-257 | every step keeps the ledger of leases, what each worker holds, what was sent under the key and how the action ended |
| ProtocolSafety.AtMostOneEffect | src/verbaops/actions/executor.py:143-251 | over every interleaving the action's key has at most one effect, which is the request built from the gated record, and is never answered as reused |
| ProtocolRequests.OneRequestPerLease | src/verbaops/actions/executor.py:143-209 | over every run the request goes out at most once for every lease granted, and no worker makes a third attempt to connect |
| ProtocolSafety.SettlementsUseTheNewestLease | src/verbaops/actions/transitions.py:782-790 | leases are granted once and settled at most once, always the newest one, and only settling ends an action |
| ProtocolSafety.LostLeasesNeverSettle | src/verbaops/actions/transitions.py:932-936 | a lease that was recovered, re-granted or settled never owns the row or settles again, however the run goes on |
| ProtocolSafety.StaleWorkersChangeNothing | src/verbaops/actions/transitions.py:782-786 | a worker that returns with a lost lease changes neither row nor log |
| ProtocolSafety.LiveLeasesLastUntilSettled | src/verbaops/actions/transitions.py:720-883 | while every clock read lies before a lease's expiry, nobody but its holder takes the row from it over any continuation, and the holder's settlement always gets through to the row mutator |
| ProtocolSafety.OneExecution | src/verbaops/actions/decisions.py:177-306 | at most one customer decision and one execution start, attempts count the starts, and a dispatched action never ends expired, rejected or denied |
| ProtocolSafety.OneMaterialThroughout | src/verbaops/actions/executor.py:90-126 | approval, confirmation and the refresh of the executor whose claim won all saw the fingerprint the proposal was made on |
| ProtocolSafety.StagesSawOneMaterial | src/verbaops/actions/executor.py:90-126 | with an injective digest, the material behind those fingerprints is one canonical tree |
| ProtocolFailure.SucceededMeansEffect | src/verbaops/actions/executor.py:211-236 | an action that succeeded on an answered write has its effect |
| ProtocolFailure.ExecutorFailureMeansNoEffect | src/verbaops/actions/executor.py:150-209 | an executor's FAILED has no effect ever, unless the network duplicates a delivery |
| ProtocolFailure.FailureIsFinalExactly | src/verbaops/actions/reconciliation.py:191-205 | FAILED excludes any later effect, short of duplicated delivery, if and only if the key has a recorded rejection, or it has no record, no request can still write one and no worker will still send |
| ProtocolFailure.RecordedFailureIsFinal | src/verbaops/actions/reconciliation.py:191-205 | FAILED on a rejection from the key's record is final, whoever recorded it and whatever the network does |
| ProtocolSoleWriter.LastWritersFailureIsFinalExactly | src/verbaops/actions/reconciliation.py:140-205 | with no earlier request able to write and one worker left to send, its FAILED on a heard answer is final if and only if there was no effect before, and always on an answer of the idempotent transaction, recorded or rolled back |
| ProtocolScenarios.ReconcilerFailureIsUndoneExactlyByOrigin | src/verbaops/commerce/client.py:310-315 | for every sendable action, a reconciler's FAILED can coexist with the effect if and only if the 4xx came from before the idempotent transaction or from one that rolled back |
| ProtocolScenarios.LastWriterIsUndoneExactlyByEarly | src/verbaops/commerce/client.py:310-315 | for every sendable action, the FAILED of the last worker left to send can be wrong if and only if its 4xx came from before the idempotent transaction |
| ProtocolScenarios.ExecutorFailureIsUndoneOnlyByDuplication | src/verbaops/actions/executor.py:187-197 | an executor's FAILED can coexist with the effect, and only where a delivery was duplicated |
| ProtocolScenarios.EveryActionCanSucceed | src/verbaops/actions/executor.py:81-236 | every action whose request can be built has a run that executes, verifies and leaves its effect |
| ProtocolScenarios.EveryLostRequestCanBeMadeGood | src/verbaops/actions/reconciliation.py:180-257 | every action whose request can be built has a run in which the executor's request is lost and the reconciler's replay alone makes it succeed |
| ProtocolScenarios.EveryCrashedExecutionCanBeRecovered | src/verbaops/actions/reconciliation.py:110-257 | every such action has a run in which the executor crashes after its write took hold and a reconciler's replay, answered from the record, makes it succeed with that one effect |
| ProtocolRounds.ExecutorsClaimExactly | src/verbaops/actions/executor.py:81-142 | an executor gets to dispatch a ready action if and only if its refresh is current and its claim comes before expiry and within 120 seconds; else it is gone and the row is as it was or expired, as stated |
| ProtocolRounds.ReconcilersClaimExactly | src/verbaops/actions/reconciliation.py:70-137 | a reconciler gets a lease if and only if the row is unresolved, or executing under a lease that ran out, and no reconciliation lease runs |
| ProtocolRounds.HoldersSend | src/verbaops/actions/executor.py:143-186 | a holder with an expressible proposal sends exactly that, under the action's key, for its customer, with its approval |
| ProtocolRounds.RejectionsFail | src/verbaops/actions/executor.py:187-199 | a definite rejection that was heard ends the action failed, with its status and code |
| ProtocolRounds.UnclearAnswersStayOpen | src/verbaops/actions/executor.py:199-209 | any other answer short of an acceptance leaves it unresolved, with what was heard |
| ProtocolRounds.LostAnswersStayOpen | src/verbaops/commerce/client.py:300-306 | a lost answer leaves it unresolved with nothing |
| ProtocolRounds.AcceptedExecutionsEndByReadBack | src/verbaops/actions/executor.py:211-251 | an accepted execution ends succeeded or unresolved exactly by its read-back, with status, written and read resource stored |
| ProtocolRounds.AcceptedReplaysEndByReadBack | src/verbaops/actions/reconciliation.py:205-257 | an accepted replay ends in the same way and keeps a resource the row knew |
| ProtocolRounds.FirstLooksDecide | src/verbaops/actions/reconciliation.py:138-180 | a reconciler's first look ends the action, leaves it unresolved or lets the reconciler send, exactly by what it reads |
| ProtocolRounds.UnreachableCommerceEnds | src/verbaops/actions/executor.py:150-186 | two failed connections fail an execution and leave a reconciliation unresolved, with nothing sent |
| ProtocolRounds.InexpressibleProposalsEnd | src/verbaops/actions/executor.py:150-165 | a proposal that fits no request model fails in the executor without sending; a reconciler gives up |
| Conversations.TurnHistoryHasShape | src/verbaops/conversations/repository.py:115-167 | over every interleaving: numbers 1..n, at most one running run, a completed answer right after its question, history of U and UA blocks |
| Conversations.EndedRunsStayEnded | src/verbaops/conversations/repository.py:589-605 | a run recovered as stale or ended otherwise never changes again |
| Conversations.VoiceTurnsRunOnce | src/verbaops/conversations/repository.py:169-234 | a voice turn has one run, and a repeated delivery is answered with it |
| Conversations.StaleRunsGiveWay | src/verbaops/conversations/repository.py:589-605 | a turn during a running run is refused as busy with nothing changed if and only if the run is within the stale limit; otherwise that run fails as stale and the turn opens word for word |
| Conversations.IdleChatsOpen | src/verbaops/conversations/repository.py:115-167 | a turn on an idle chat opens one question and one run, and every other run stays |
| Conversations.BadTurnsChangeNothing | src/verbaops/conversations/repository.py:115-167 | an inadmissible, empty or repeated turn is refused and nothing changes |
| Conversations.NewVoiceTurnsStart | src/verbaops/conversations/repository.py:169-234 | a new voice turn starts like any turn, and text provenance is refused |
| Conversations.AnswersAreRecordedExactly | src/verbaops/conversations/repository.py:456-510 | an answer is recorded word for word under the next number if and only if its run is running |
| Conversations.FailuresAreRecordedExactly | src/verbaops/conversations/repository.py:536-547 | a running run fails with the code given, and nothing else changes |
| Conversations.PageIsSlice | src/verbaops/conversations/repository.py:89-113 | a page is the slice of the history that ends just below the given number |
| Conversations.PagingPartitionsHistory | src/verbaops/conversations/repository.py:89-113 | on any numbered history that only grows, the pages from the newest on hold exactly the messages present at the first read |
| Conversations.EveryReaderGetsTheHistory | src/verbaops/conversations/repository.py:89-167 | whatever turns start, end or fail between the reads of one reader, its pages hold the history of its first read, each message once and in order |
| Conversations.ZeroLimitReadsNothing | src/verbaops/conversations/repository.py:103-113 | with a limit of zero, which the route refuses, the reader collects nothing and stops |
| Conversations.ConversationRepository.StartTurn | src/verbaops/conversations/repository.py:115-167 | the turn's transaction, provenance and stale recovery included |
| Conversations.ConversationRepository.StartVoiceTurn | src/verbaops/conversations/repository.py:169-234 | the voice turn's transaction with its replay lookup |
| Conversations.ConversationRepository.CompleteTurn | src/verbaops/conversations/repository.py:456-510 | the answer's transaction on a running run only |
| Conversations.ConversationRepository.FailTurn | src/verbaops/conversations/repository.py:536-547 | failing a running run only |
| Conversations.ConversationRepository.RecoverOrRejectRunning | src/verbaops/conversations/repository.py:589-605 | every stale run fails, or a live one rejects the turn and nothing changes |
| Conversations.ConversationRepository.ListMessagesPage | src/verbaops/conversations/repository.py:89-113 | reads the page the specification names |
| OpenApiComponents.CollectReferences | scripts/openapi_contract.py:58-80 | the worklist ends for every pop order, cycles included, with exactly the components reachable from the paths and their security names |
| OpenApiComponents.ExactIsUnique | scripts/openapi_contract.py:70-80 | the pop order never shows in the result |
| OpenApiComponents.StripKeepsFewerReferences | scripts/openapi_contract.py:11-22 | dropping cosmetic keys gains no reference |
| OpenApiComponents.CollectedReferencesResolve | scripts/openapi_contract.py:58-80 | every resolvable reference of a collected definition or selected path resolves in the output |
| OpenApiComponents.OutputIsClosedExactly | scripts/openapi_contract.py:83-101 | by $ref, the output is closed if and only if the kept top-level keys reference nothing unreached |
| OpenApiComponents.OutputIsClosedForSecurityExactly | scripts/openapi_contract.py:42-101 | the whole output, security names included, is closed if and only if the paths reach whatever the kept top-level keys name, whatever collected definitions name as security schemes, and whatever a section holding a component called "$ref" or "security" names |
| OpenApiComponents.WebhooksMayDangle | scripts/openapi_contract.py:91-95 | a document whose output keeps a reference and drops its definition |
| OpenApiComponents.SecurityMayDangle | scripts/openapi_contract.py:68-95 | a document whose own top-level security names a scheme that the output drops |
| OpenApiComponents.Normalize | scripts/openapi_contract.py:83-101 | the normalised document from the kept keys, the selected paths and the exact collection |
| OpenApiComponents.ReferencesRoundTrip | scripts/openapi_contract.py:25-39 | a well-formed component reference is read as its section and name |
| OpenApiPaths.ReferencesAreNames | scripts/openapi_contract.py:25-39 | a text is read as a component if and only if it is that component's reference |
| OpenApiPaths.ReferencesAreThoseThatStand | scripts/openapi_contract.py:25-39 | the references collected from a value are exactly those that stand at some place of it |
| OpenApiPaths.SecurityNamesAreThoseThatStand | scripts/openapi_contract.py:42-55 | so are the security names |
| OpenApiPaths.StripKeepsExactly | scripts/openapi_contract.py:11-22 | stripping keeps exactly the places no cosmetic key leads to, property names excepted, and what stands there |
| OpenApiPaths.OutputHoldsExactly | scripts/openapi_contract.py:83-101 | the output holds the top-level keys but paths, components and tags, the paths under /v1 and the collection, each value stripped |
| Fingerprints.CanonicalFormIsTheMaterial | src/verbaops/actions/fingerprints.py:43-69 | two values have one canonical form if and only if they agree at every depth up to key order, excluded keys and rendering of leaves |
| Fingerprints.CanonIsIdempotent | src/verbaops/actions/fingerprints.py:43-69 | canonicalising a canonical form, in any key order, gives it back |
| Fingerprints.AmountsAreCents | src/verbaops/actions/fingerprints.py:48-52 | a decimal is accepted if and only if it is a whole number of cents, and as that number |
| Fingerprints.MoneyTellsApart | src/verbaops/actions/fingerprints.py:48-52 | different amounts are rendered differently |
| Fingerprints.MoneyReadsAsItsCents | src/verbaops/actions/fingerprints.py:48-52 | an amount is written with a sign if negative, whole units without leading zeros, a point and two digits, and reads back as its cents |
| Fingerprints.CanonicalExactlyWhenPresentable | src/verbaops/actions/fingerprints.py:43-69 | canonicalisation raises if and only if some counted place holds a fraction of a cent or a moment without zone |
| Fingerprints.ExcludedKeysNeverCount | src/verbaops/actions/fingerprints.py:15-40 | exactly the listed decision and secret keys are skipped, in any casing |
| Fingerprints.FingerprintsTellActions | src/verbaops/actions/fingerprints.py:72-101 | with an injective digest, two fingerprints are equal if and only if tenant, customer, type, schema, targets, payload and material are |
| Fingerprints.FingerprintsTellMaterial | src/verbaops/actions/fingerprints.py:72-101 | with an injective digest, one action's fingerprints are equal if and only if payload and material are the same |
| RagMetrics.NdcgInUnitInterval | src/verbaops/evaluation/rag_metrics.py:32-44 | nDCG over the sorted judgments lies in [0, 1] for duplicate-free lists, nonnegative grades, any cutoff and any positive nonincreasing discount |
| RagMetrics.RankingIsTheSort | src/verbaops/evaluation/rag_metrics.py:43 | the ideal ranking is the one arrangement of the judged locators by falling grade, then by locator |
| RagMetrics.TiesDoNotMatter | src/verbaops/evaluation/rag_metrics.py:43 | every grade-sorted order of the judgments has the same discounted gain, so the locator tie-break does not show in the value |
| RagMetrics.NdcgEndpoints | src/verbaops/evaluation/rag_metrics.py:32-44 | the ranking itself scores one, and a retrieval scores zero if and only if nothing relevant is among its first k |
| RagMetrics.LoneHitScores | src/verbaops/evaluation/rag_metrics.py:36-40 | a single hit scores its gain times the discount of its rank |
| RagMetrics.GainsOfGrades | src/verbaops/evaluation/rag_metrics.py:39 | grade zero or no grade is worth nothing, each grade one more than twice the grade below |
| RagMetrics.DuplicatesExceedOne | src/verbaops/evaluation/rag_metrics.py:32-44 | a locator retrieved twice can push the value above one |
| RagMetrics.NdcgAtK | src/verbaops/evaluation/rag_metrics.py:32-44 | sorting the judgments and running the two loops computes the specified value |
| RagMetrics.RecallIsAShare | src/verbaops/evaluation/rag_metrics.py:16-20 | recall lies in [0, 1], never falls with the cutoff, is one if and only if every relevant locator is among the first k and zero if and only if none is |
| AgentTurn.EveryTurnIsBounded | src/verbaops/agent/graph.py:65-84 | every turn ends within 12 visits, 4 gateway calls, 3 rounds, 6 tool calls and 1 validation repair; neither the model-call check nor the recursion limit ever stops it |
| AgentTurn.ToolRoundsRunExactly | src/verbaops/agent/graph.py:182-371 | a round of tool calls ends the turn on the budget, on a second invalid round or on a lost trace or fatal handler, exactly as stated, and otherwise asks the model again with one answer list more |
| AgentTurn.RepliesEndTheTurn | src/verbaops/agent/graph.py:157-180 | a reply without calls ends the turn as finished, as a protocol error when empty, with one more gateway call if and only if citations are repaired |
| AgentTurn.LostGatewaysEndTheTurn | src/verbaops/agent/graph.py:120-155 | a failed gateway or a trace that cannot be kept ends the turn as unavailable |
| AgentTurn.RoundAnswersEachCallOnce | src/verbaops/agent/graph.py:246-371 | a round answers each emitted call exactly once if and only if no valid call shares its id with an invalid one |
| AgentTurn.DistinctIdsAreAllAnswered | src/verbaops/agent/graph.py:246-371 | with distinct ids every call is answered exactly once |
| AgentTurn.RoundsAnswerInOrder | src/verbaops/agent/graph.py:246-371 | a round answers the invalid calls first and then those no invalid call shadows, each group as emitted |
| AgentTurn.ReusedIdIsSkipped | src/verbaops/agent/graph.py:252-258 | a round with a reused id that leaves a valid call unanswered |
| AgentTurn.ValidateToolCalls | src/verbaops/agent/graph.py:194-210 | the loop lists the invalid calls in order |
| AgentTurn.ExecuteTools | src/verbaops/agent/graph.py:252-371 | the loop answers the invalid calls first, then executes the rest until a fatal end |
| CitationRepair.RepairOnlyAddsCitations | src/verbaops/agent/graph.py:637-652 | the scan accepts exactly the nonempty token lists that are subsequences of the answer's before repair |
| CitationRepair.GreedyDecides | src/verbaops/agent/graph.py:648-652 | the greedy position reaches the end if and only if some embedding exists |
| ReturnVerification.ItemsMatchExactlyPermutations | src/verbaops/actions/verification.py:161-185 | with distinct order items, equal length and equal maps accept exactly the permutations of the proposed lines |
| ReturnVerification.RepeatedItemsNeverMatchThemselves | src/verbaops/actions/verification.py:161-185 | a proposal matches its own lines if and only if its order items are distinct, which the proposal model demands |

## Left out

- HTTP, SQLAlchemy, asyncio, Redis, LiveKit, middleware, settings and the web application: input and output around the transactions modelled here.
- The five NovaCommerce write handlers: an operation returns an outcome, raises an API error or fails, and is otherwise abstract.
- Executor and reconciler as loops in one method: they are interleaved step by step instead, so the two-attempt loops appear as a counter in the worker's place, not as `for` statements.
- Authorisation of confirm, approve, reject and reconcile by role, tenant and customer, and the service views of a record: a decision service may ask its transition at any time here, which only adds behaviour.
- The five preflights of a proposal: eligibility and material are parameters of the policy and the fingerprint.
- The four read-back checks other than a return's: comparisons field by field; a read-back result is arbitrary in the protocol.
- ActionDatabase.ActionDatabase.CreateOrGet: runs as one step under the conversation's row lock, so a unique violation comes from a reused id or key; the race with a creation outside that lock is the subject of LosersComeSecondExactly.
- The order in which superseded rows are expired: the rows are independent and the whole creation is one transaction.
- ProtocolFailure.ExecutorFailureMeansNoEffect: is stated for networks that deliver a request at most once, because a duplicated delivery breaks it, as ExecutorFailureIsUndoneOnlyByDuplication shows.
- Conversations.ConversationRepository.StartTurn: reads the clock once a transaction where the code reads it for each column.
- Model-call and tool-invocation traces of a run: numbered like messages, under the same lock.
- RagMetrics.NdcgAtK: computes over exact reals with any positive nonincreasing discount, not in floating point with 1 / log2(rank + 1).
- AgentTurn.EveryTurnIsBounded: leaves out prompts, message contents, latency and the turn deadline, which stop a turn earlier or not at all.
- Fingerprints.CanonicalFormIsTheMaterial: leaves out binary floating point and the text form of identifiers and timestamps, which come as given text; the digest and the JSON text are the injective function of the canonical tree.
- CitationRepair.RepairOnlyAddsCitations: starts from the two token lists; the regular expressions and case folding that make them are library code.
- OpenApiComponents.Normalize: stops before the JSON text of the result.
- Idempotency-key syntax and the JSON normalisation inside `request_fingerprint` (src/novacommerce/idempotency.py:24-67): the envelope is compared as a value.
- P4 and P5 grounding, citation finalisation and retrieval services: single-pass filters or code outside this model.
