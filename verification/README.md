# A Dafny model of overture's evidence, contract and delivery protocols

This project models the parts of overture that are hard to get right, and proves what they are for: the
ingestion of signed evidence into hash chains, the synchronisation of action contracts under concurrent
transactions, exclusive links from runs to evidence, operator reconciliation, input mappings, alert delivery,
and two tree transforms (behaviour-tree flattening and response redaction).

How it is built:

- **Protocols are state machines.** Every separate database statement or critical section is a step, a label
  names a step and who takes it, and a run is any sequence of labels. A theorem about `Run(INITIAL, labels)`
  therefore covers every interleaving of any number of participants, with crashes and rollbacks where the code
  can have them. A label that is not enabled, or that would wait for a lock, leaves the state as it is.
- **Tables are values with the uniqueness rules of the migrations**: one batch per content, one verified batch
  per chain position and one row per event hash (`068_sdk_evidence_ingestion.sql`), one version per hash and one
  row per idempotency key (`067`), one link per batch and per digest (`071`), the append rules of the
  reconciliation log (`072`).
- **Code that changes things in place is a class or a loop**, and each such method is proved against the
  function the protocol uses: `EvidenceStore.Store`, `ContractStore.Tables`, `EvidenceLinks.LinkTable`,
  `Reconciliation.Log`, `AlertQueueTheorems.Queue`, `AlertDedupe.DedupeCache`, `BehaviorTree.NodeList`, and the
  loops of the verifier, the mapping validator and the redactor.
- **What the main computations mean is said apart from them.** The form of an event, the order of risks, the
  sensitive keys, and the answers of the evidence insert, the reconciliation append, the link attempt and the alert
  delivery are each described a second time, case by case, and a lemma connects the two.
- **Cryptography and parsers are parameters.** In the chain, SHA-256 is symbolic: distinct payloads have distinct
  digests. In the batch identity nothing is assumed of it but its length, and the two colliding texts are named
  instead. Signatures, name patterns, timestamps, encodings, lengths in bytes, lower-casing and URL parsing are
  functions that the theorems quantify over.

Files, in reading order: `EvidenceEvents`, `EvidenceForm`, `EvidenceVerifier` (one batch); `EvidenceStream`,
`EvidenceChain`, `EvidenceSafety`, `EvidenceTheorems`, `EvidenceProgress`, `EvidenceReplies`, `EvidenceStore` (one
stream); `BatchIdentity`; `EvidenceLinks`, `EvidenceLinkAnswers`;
`ContractVersions`, `ContractSync`, `ContractSyncTheorems`, `ContractStore`; `InputMapping`; `Reconciliation`;
`AlertQueue`, `AlertQueueTheorems`, `AlertCrash`, `AlertDedupe`; `BehaviorTree`; `Redaction`, `RedactionKeys`,
`RedactionSecrets`, `RedactionTheorems`, `RedactionLoop`; shared helpers in `Prelude`, `Sequences` and `Text`.

Promises that turned out not to hold in general are kept as the code has them, each with an input that breaks it
and the exact condition under which it holds:

- The backoff doubles from one minute on up to the 28th attempt and at no attempt after it (`BackoffDoublesIff`).
- A failed alert without details crashes the process instead of reaching the dead-letter queue
  (`AlertWithoutDetailsCrashes`); what a caller can check before enqueueing is `CanCrashIff`.
- Two callers that overlap can both enqueue one deduplication key (`OverlapAcceptsTwice`); exactly when is
  `RepeatsIff`, and callers that take turns never do (`OneAtATimeNeverRepeats`).
- A weakening of a contract can go unflagged when syncs overlap (`OverlapHidesAWeakening`); exactly when is
  `CommitShowsIff` for one commit and `FlagsInEveryRun` for a run.
- Repeating a link may return another link of the run (`ReplayMayReturnAnotherLink`, `ReplayReturnsTheLinkIff`).
- A padded target passes the mapping validator, which looks at it trimmed, and is then used with its padding
  (`PaddedTargetIsAccepted`, `TargetsAreNamesIffUnpadded`); the renaming is lossless all the same.
- The header allow-list names the content length, which is never shown (`ContentLengthIsHidden`); what is shown is
  `AllowedHeaderIff`.
- The redactor crashes on some values in some visiting order (`NestedHeadersCanCrash`); exactly on which is
  `RedactorIsSafeIff`.

## Model

| member | source | states |
|---|---|---|
| EvidenceVerifier.VerifyEvidenceEvents | api/evidence_verify.go:104-307 | the loop, with its early exits, running chain position, decision map and outcome set, returns the verdict that is defined index by index on the whole list |
| EvidenceVerifier.VerifyFields | api/evidence_verify.go:206-253 | linkage, hash, key, signature and value checks add exactly what is wrong, in order, to the capped issue list, and say ok exactly if nothing is |
| EvidenceVerifier.VerifyUnencodable | api/evidence_verify.go:206-224 | an event whose payload cannot be encoded ends verification with its link issue, if any, and one invalid field |
| EvidenceVerifier.VerifyTransition | api/evidence_verify.go:242-278 | the decision/outcome bookkeeping yields the issues defined from the list alone and keeps the two maps equal to what the prefix implies |
| EvidenceForm.FormCodeIs | api/evidence_verify.go:124-204 | the checks pass exactly the events that are well formed (schema 1, decision or outcome, every required field by name, hash shapes, an id of 1 to 128 bytes, action name, previous hash null or text, timestamp), and each refusal names the first thing wrong |
| EvidenceForm.HashCovers | api/evidence_verify.go:212-226 | two events have one hash exactly if they agree on every field but the hash and the signature |
| EvidenceForm.LatestDecisionIs | api/evidence_verify.go:242-258 | the decision map holds what the last event to decide on an id says, and nothing exactly if none does |
| EvidenceVerifier.VerifiedIff | api/evidence_verify.go:104-307 | verification succeeds if and only if the list is linked from the given hash, every event is well formed, of this key, signed and rightly valued, and every outcome follows an allowed decision and is the only one for it |
| EvidenceVerifier.VerifiedRecords | api/evidence_verify.go:280-301 | on success there is one record per event, in order, that repeats its fields; its recomputed hash is the claimed one, and the event points at the hash of the one before it |
| EvidenceVerifier.RejectedIssues | api/evidence_verify.go:104-307 | a rejection carries 1 to 20 issues and each is true of the event at its index, code by code; a chain break only where the previous hash differs from the hash claimed before it |
| EvidenceVerifier.EveryDefectIsReported | api/evidence_verify.go:206-278 | conversely, unless the list is full, a defect is named exactly if the event has it, up to the first event that is not well formed |
| EvidenceVerifier.LookupFailedIff | api/evidence_verify.go:259-265 | verification gives up exactly if a lookup fails that an event needs before the first event that is not well formed |
| EvidenceChain.HashCommits | api/evidence_verify.go:206-229 | equal event hashes in two linked lists force equal prefixes of unsigned payloads |
| EvidenceChain.FreePositionIsEnd | api/evidence_store.go:134-200 | on an unforked chain the only free position that is anchored in it is its end |
| EvidenceTheorems.PersistOk | api/routes_evidence.go:202-302 | the insert transaction keeps the stream invariant from any state a submitter's earlier reads may have become stale in |
| EvidenceTheorems.StepInv | api/routes_evidence.go:139-195 | every step of every submitter keeps the stream invariant and only adds rows |
| EvidenceTheorems.UnforkedInEveryRun | api/evidence_store.go:134-200 | in every interleaving the verified batches form one unforked chain from genesis with distinct heads, and the head query has exactly one answer, the last head |
| EvidenceTheorems.OneHead | api/evidence_store.go:134-156 | the NOT EXISTS query on an unforked table answers the last verified batch's head and nothing else |
| EvidenceTheorems.HeadCommitsToHistory | api/evidence_verify.go:206-229 | two reachable streams with equal heads recorded the same payloads in the same order, across batches |
| EvidenceTheorems.NoVerifiedEventIsDropped | api/evidence_store.go:202-214 | event rows number exactly the events the batches claim to have verified, and every verified event is stored verbatim under its batch |
| EvidenceTheorems.OutcomesFollowAllowedDecisions | api/evidence_verify.go:242-278 | in every reachable stream each outcome comes after a recorded allowed decision it names, from the same batch or an earlier one; no batch has two outcomes for one decision |
| EvidenceTheorems.OneSigningKey | api/routes_evidence.go:236-256 | all verified batches of a stream are signed by the one registered key |
| EvidenceTheorems.RowsNeverChange | api/evidence_store.go:3-10 | whatever happens later, every stored batch, event and key stays as it is |
| EvidenceTheorems.SameIdentitySameRow | api/evidence_store.go:162-200 | two accepted submitters, concurrent or not, sent evidence of one identity exactly when they were given the same row |
| EvidenceProgress.AnsweredWithOwnEvidence | api/routes_evidence.go:139-195 | in every run an accepted submitter is given a row that holds its own evidence byte for byte, unless two texts hashed for the two collide |
| EvidenceProgress.SameEvidenceSameRow | api/routes_evidence.go:139-195 | equal bytes get one row; one row means equal bytes, or the two submissions exhibit a collision |
| EvidenceProgress.NewEvidenceIsStored | api/routes_evidence.go:139-302 | from every reachable state a new submitter at the head, under the stream's key and with a new identity, is answered with a new row, verified exactly if the batch is sound; it then is the new head, and otherwise leaves the chain alone: a rejected batch never blocks a corrected one |
| EvidenceReplies.AnswersAreTrue | api/routes_evidence.go:109-195 | in every run every answer is true: accepted only with a row of that identity, key conflict only if another key is registered, mismatch only with what was the head at some point and is not where the batch continues, error only if one of the submitter's own steps failed; a loser finds its position taken |
| EvidenceReplies.EveryRowHasOneCreator | api/routes_evidence.go:202-302 | in every run each row was created by exactly one submitter |
| EvidenceReplies.InsertAnswers | api/routes_evidence.go:178-302 | from every reachable state, which of the five answers the insert gives, and why: unanswered lookup, other key, known evidence, taken position, or stored and verified exactly if sound |
| EvidenceReplies.LoserIsToldTheHead | api/routes_evidence.go:180-192 | a sound batch under the stream's key, with a new identity, at a taken position is told the current head, and nothing changes |
| EvidenceReplies.AdmittedIff | api/routes_evidence.go:439-496 | a submission is admitted exactly with 1 to 500 events that each claim a hash and a first position equal to the first event's |
| EvidenceReplies.OtherKeyIsRefused | api/routes_evidence.go:109-118 | a submission is refused at once exactly if another key is registered |
| EvidenceReplies.KnownEvidenceIsReplayed | api/routes_evidence.go:139-146 | known evidence, verified or rejected, is given its row again and nothing changes |
| EvidenceReplies.StaleEvidenceIsTurnedAway | api/routes_evidence.go:148-169 | new evidence that does not continue at the head is turned away with the head and nothing changes |
| EvidenceReplies.RacedEvidenceIsReplayed | api/routes_evidence.go:156-167 | evidence stored by a concurrent twin after it was looked up is given its row, not a mismatch |
| EvidenceReplies.LookupsSeeTheHistory | api/evidence_store.go:216-231 | in every run the store knows a decision exactly if the recorded history holds it |
| EvidenceStore.Store.constructor | api/evidence_store.go:138-156 | an empty stream is the protocol's initial tables |
| EvidenceStore.Store.GetBatchByContent | api/evidence_store.go:116-123 | finds the row with this identity, or none if there is none |
| EvidenceStore.Store.IsExtended | api/evidence_store.go:144-148 | true exactly if a verified batch continues at the position |
| EvidenceStore.Store.CurrentChainHead | api/evidence_store.go:138-156 | returns an answer of the head query, and on an unforked chain the last head |
| EvidenceStore.Store.InsertBatch | api/evidence_store.go:162-200 | appends the row, or changes nothing and says whether the identity or the chain slot was taken |
| EvidenceStore.Store.PersistBatch | api/routes_evidence.go:202-302 | new tables and answer are those of the protocol's insert step |
| BatchIdentity.SplitJoin | api/evidence_verify.go:327-338 | the comma-joined hashes can be split back into the list |
| BatchIdentity.ManifestLayout | api/evidence_verify.go:335-338 | the layout of the text that is hashed, prefix and separators included |
| BatchIdentity.ManifestDecodes | api/evidence_verify.go:327-338 | key id and hash list can be read back from the text that is hashed |
| BatchIdentity.ComputeContentHash | api/routes_evidence.go:459-504 | the loop over the submitted event bytes computes the identity |
| BatchIdentity.IdentityIsInjective | api/evidence_verify.go:327-338 | equal identities mean the same key and the same bytes in the same order, or the two manifests, or two events in one place, are named as a collision |
| BatchIdentity.CollidingEventsShareAnIdentity | api/evidence_verify.go:327-338 | conversely, two events with one hash do make two batches of one identity |
| EvidenceLinks.StepInv | api/igris_run_proof.go:228-296 | every step of every linker and of every stream of the tenant keeps links exclusive and proving |
| EvidenceLinks.EvidenceBelongsToOneRun | api/igris_run_proof.go:524-591 | as the two exclusive indexes make it, a batch or chain digest has at most one link in every interleaving; a corollary of the invariant that carries the next two |
| EvidenceLinks.LinksProveForever | api/igris_run_proof.go:228-296 | a link stays, and forever its batch is verified, has the digest as head and holds a decision on the run's action, contract and input |
| EvidenceLinkAnswers.LinksDocumentForever | api/igris_run_proof.go:251-280 | a link stays, and forever its batch is verified, has the digest as head and contains a decision event with the run's action, contract hash and input hash |
| EvidenceLinkAnswers.FreeEvidenceIsLinked | api/igris_run_proof.go:228-296 | from every reachable state, evidence that documents a run and that nobody has is linked to it by an uninterrupted attempt |
| EvidenceLinkAnswers.HeldEvidenceIsRefused | api/igris_run_proof.go:270-283 | evidence that another run holds is not eligible, and nothing changes |
| EvidenceLinkAnswers.LinkAnswersAreTrue | api/igris_run_proof.go:540-591 | in every interleaving an attempt is told it linked only if its run holds the digest, and refused only if another run holds batch or digest |
| EvidenceLinkAnswers.AnswersNothingIff | api/igris_run_proof.go:552-586 | in every reachable table an attempt gets no row exactly if another run holds its evidence |
| EvidenceLinks.DigestPinsHistory | api/igris_run_proof.go:251-295 | two links with one digest, perhaps of different tenants, pin the same recorded payloads up to there |
| EvidenceLinks.LinkTable.InsertExclusive | api/igris_run_proof.go:527-591 | appends unless batch or digest is taken, keeps exclusivity, and answers with the new link, with nothing, or on a replay with the newest link of the run |
| EvidenceLinks.ReplayReturnsTheLinkIff | api/igris_run_proof.go:568-577 | linking again what is linked returns that very link exactly if the run has made no other link since |
| EvidenceLinks.ReplayMayReturnAnotherLink | api/igris_run_proof.go:593-609 | a run with two links gets the second when it repeats the first |
| ContractVersions.FlaggedIffWeaker | api/routes_contracts.go:485-504 | a version is flagged exactly when it is weaker than what it is compared with, each of the three flags exactly when its cause holds, and a first version never |
| ContractVersions.RanksAreOrdered | api/routes_contracts.go:62 | the ranks are in the order of risks: low below all, critical above all, medium below high |
| ContractVersions.NeighboursDecide | api/routes_contracts.go:485-504 | every weakening between any two versions shows in between if and only if every weakening between neighbours shows |
| ContractVersions.ShowsIffComparedWell | api/routes_contracts.go:247-252 | for any compared log, weakenings show exactly when versions weaker than their neighbour are weaker than what they were compared with |
| ContractVersions.AppendShowsIff | api/routes_contracts.go:247-252 | one more version keeps every weakening visible exactly when it does not weaken its neighbour or is flagged |
| ContractSyncTheorems.StepInv | api/contract_store.go:241-289 | claim, read, insert, complete, commit and rollback, interleaved, keep the tables and open transactions consistent |
| ContractSyncTheorems.ExactlyOnce | api/routes_contracts.go:312-357 | in every run a key executes at most once; every same-fingerprint reply carries its status and body; any other gets a conflict; the placeholder is never answered |
| ContractSyncTheorems.CommittedIsPermanent | api/contract_store.go:3-11 | a committed record and the version history are never changed later |
| ContractSyncTheorems.AnswersDescribeVersions | api/routes_contracts.go:280-304 | a recorded answer describes a version in the history under its fingerprint, and says created exactly with status 201 |
| ContractSyncTheorems.OneVersionPerHash | api/contract_store.go:128-157 | no hash ever has two versions, in any interleaving |
| ContractSyncTheorems.ConflictChangesNothing | api/routes_contracts.go:325-332 | taking every request with a wrong fingerprint out of a run leaves records, versions, open transactions and all other answers as they are |
| ContractSyncTheorems.CommitShowsIff | api/routes_contracts.go:233-278 | known before a commit: a history that shows every weakening goes on doing so exactly when the new version does not weaken the last committed one or weakens what its transaction read |
| ContractSyncTheorems.FlagsInEveryRun | api/routes_contracts.go:233-278 | in every run every weakening, however far apart, shows as a flag in between exactly when no commit of the run met the condition that hides one |
| ContractSyncTheorems.SerialisedWeakeningShows | api/contract_store.go:115-126 | with serialised syncs, where creation order is commit order, every weakening between two versions is witnessed by a flag in between |
| ContractSyncTheorems.OverlapHidesAWeakening | api/routes_contracts.go:241-252 | a run of twelve named steps whose history drops from high to medium risk without a flag |
| ContractStore.AloneIsARun | api/routes_contracts.go:312-357 | the five steps of one sync in a row are a run of the protocol |
| ContractStore.AloneExecutes | api/routes_contracts.go:339-356 | under a new key such a sync commits one record and at most one version and answers with both |
| ContractStore.AloneReplays | api/routes_contracts.go:325-336 | under a key that has a row a sync is answered from the row, or with a conflict, and changes no table |
| ContractStore.Tables.GetVersion | api/contract_store.go:106-113 | finds the version with the hash, or none if there is none |
| ContractStore.Tables.InsertContractVersion | api/contract_store.go:128-157 | appends exactly if the hash is new |
| ContractStore.Tables.PerformContractSyncInTx | api/routes_contracts.go:233-310 | answers 200 with the existing version, or appends one compared with the latest and answers 201 |
| ContractStore.Tables.PerformIdempotentContractSync | api/routes_contracts.go:312-357 | tables and answer are those of the protocol run alone |
| InputMapping.NoUnknownParameter | api/routes_contracts.go:862-873 | once counts agree and every parameter has its own target, the parameters are distinct and the mapping's keys are exactly them |
| InputMapping.TargetsIff | api/routes_contracts.go:843-875 | the count and the first loop together decide the declarative meaning of an accepted mapping |
| InputMapping.CheckTargets | api/routes_contracts.go:847-861 | the loop accepts exactly one valid, distinct target per parameter, and any error it reports is true |
| InputMapping.CheckKeys | api/routes_contracts.go:862-873 | accepts exactly the mappings without unknown keys, and names a real one otherwise |
| InputMapping.ValidateContractInputMapping | api/routes_contracts.go:843-875 | accepts exactly the mappings that give distinct parameters distinct valid targets and nothing else; a reported error holds |
| InputMapping.RawTargetsDistinct | api/routes_contracts.go:850-860 | targets compared trimmed are distinct as they are used, raw |
| Text.TrimIs | api/routes_contracts.go:850 | trimming takes away spaces at both ends, all of them, and nothing else |
| InputMapping.TargetsAreNamesIffUnpadded | api/routes_actions.go:1180-1181 | the fields written are valid names exactly when no target is padded |
| InputMapping.PaddedTargetIsAccepted | api/routes_contracts.go:849-856 | any valid name with spaces around it is accepted as a target and is then no valid name |
| InputMapping.MapBoundActionInput | api/routes_actions.go:1151-1184 | succeeds exactly on acceptable input, with the renamed fields; a reported error holds |
| InputMapping.RenamingIsLossless | api/routes_actions.go:1151-1184 | under an accepted mapping, reading it backwards on the output gives the input, and field counts agree |
| Reconciliation.StepInv | api/operator_reconciliation.go:225-333 | every observation and resolution keeps the log orderly and only extends it |
| Reconciliation.LogIsOrderly | api/operator_reconciliation.go:225-333 | in every run at most one row is terminal and nothing follows it, request ids are distinct, and operator rows exist only after the one observation |
| Reconciliation.AppendAnswers | api/operator_reconciliation.go:247-332 | in every run: appended exactly if the effect was observed, the id is new and nobody has settled the run, and the row then carries the request; not required exactly if the id is new and nothing was observed; replayed exactly if the row with its id carries it; a conflict otherwise |
| Reconciliation.ReplayReturnsOriginal | api/operator_reconciliation.go:247-256 | repeating an appended request at any later time appends nothing and returns the original row |
| Reconciliation.ReusedIdConflicts | api/operator_reconciliation.go:335-349 | a used request id with other content is a conflict and changes nothing |
| Reconciliation.LoadState | api/operator_reconciliation.go:372-423 | the fold computes the last terminal resolution if any, else unknown or still required; required exactly when nothing is settled |
| Reconciliation.ReaderIgnoresOrder | api/operator_reconciliation.go:388-421 | for every order of a reachable log's rows the reader sees the same state: required while no operator answered, unknown while none settled, then what the settling row says |
| Reconciliation.SettledForever | api/operator_reconciliation.go:261-275 | once settled the log never changes again and every reading of it stays settled with the same state |
| Reconciliation.Log.AppendOperatorReconciliation | api/operator_reconciliation.go:225-333 | new log and answer are those of the append under the lock |
| AlertQueue.BackoffDoublesIff | alerts/alert_sender.go:283-296 | the 64-bit duration is 2^(n-1) minutes exactly for the first 28 attempts |
| AlertQueue.TotalWaitIs | alerts/alert_sender.go:283-296 | the waits after n attempts add up to 2^n - 1 minutes exactly while n is at most 28, and never exceed that |
| AlertQueueTheorems.StepInv | alerts/alert_sender.go:207-308 | enqueueing, taking, processing and timers, interleaved, keep the queue invariant |
| AlertQueueTheorems.NoAlertIsLostOrDuplicated | alerts/alert_sender.go:241-308 | in every run every enqueued alert is in exactly one place, and attempts made equal retries, dead letters and completions (and the crash, if any) |
| AlertQueueTheorems.AttemptsAreBounded | alerts/alert_sender.go:275-279 | no alert is processed more often than it allows; dead letters exactly as often |
| AlertQueueTheorems.DeadLettersHaveWaited | alerts/alert_sender.go:283-308 | a dead letter with limit M has waited 2^(M-1) - 1 minutes in total exactly when M is at most 29 |
| AlertQueueTheorems.CrashesIff | alerts/alert_sender.go:298-308 | a delivery crashes exactly if some channel fails, it was the last permitted attempt and the alert has no details map |
| AlertCrash.DeliveryOutcome | alerts/alert_sender.go:241-308 | from every reachable state: done exactly if no channel failed, retried exactly if one did and attempts are left, dead letter exactly if none are left and there are details; counters included |
| AlertCrash.DefaultIsThreeAttempts | alerts/alert_sender.go:157-159 | an alert that does not say how often to try and ends as a dead letter was tried three times, one and two minutes apart |
| AlertCrash.CanCrashIff | alerts/alert_sender.go:298-308 | from every reachable state, an alert can crash the process in some continuation exactly if it is enqueued without details and with a channel |
| AlertCrash.AlertWithoutDetailsCrashes | alerts/alert_sender.go:298-308 | three steps that crash the process |
| AlertQueueTheorems.FirstInFirstOut | alerts/alert_sender.go:179-239 | in every run workers get alerts in exactly the order they were queued, retries included |
| AlertQueueTheorems.DeliveredIsCounted | alerts/alert_sender.go:268-271 | every finished alert with a channel was counted as delivered, and no attempt was counted twice |
| AlertQueueTheorems.Queue.ProcessAlert | alerts/alert_sender.go:241-281 | the loop over channels and what follows is the processing step |
| AlertDedupe.DuplicateIffRecent | alerts/alert_sender.go:323-367 | in every interleaving of checks, stamps and background sweeps, the cache calls a key a duplicate exactly when the full history has an accepted alert with it less than the window ago |
| AlertDedupe.RepeatsIff | alerts/alert_sender.go:161-168 | a run accepts one key twice within the window exactly when some step of it stamps a key that the guard, evaluated again at that moment, would refuse |
| AlertDedupe.StepRepeatsIff | alerts/alert_sender.go:336-342 | the same condition step by step, from every reachable state |
| AlertDedupe.CloserThanTheWindowOnlyIfOverlapping | alerts/alert_sender.go:161-168 | what such a pair has in common: the later one was let through before the earlier one was stamped |
| AlertDedupe.OneAtATimeNeverRepeats | alerts/alert_sender.go:161-168 | callers that take turns on each key never accept one twice within the window, whatever the cleaner does |
| AlertDedupe.OverlapAcceptsTwice | alerts/alert_sender.go:161-168 | two overlapping callers accept one key at the same moment, for every window, key and time |
| AlertDedupe.DedupeCache.constructor | alerts/alert_sender.go:118-131 | a fresh cache is empty and the window defaults to five minutes |
| AlertDedupe.DedupeCache.Cleanup | alerts/alert_sender.go:344-367 | in any visiting order the sweep keeps exactly the stamps no older than the window |
| AlertDedupe.DedupeCache.Admit | alerts/alert_sender.go:161-168 | an alert without a key always passes; one with a key passes exactly if it is no duplicate, and is then stamped |
| BehaviorTree.FlattenIsReversible | api/routes_execution.go:29-80 | reading the depth column back recovers the pruned tree, shape and labels, and there is one row per node of it |
| BehaviorTree.PreorderIffGradual | api/routes_execution.go:29-80 | a list is the preorder of some forest exactly when it starts at depth zero and no row is more than one deeper than the row before; reading it back is the inverse |
| BehaviorTree.FlattenDepths | api/routes_execution.go:76-79 | the console's list starts with its only row at depth zero and deepens by at most one per row |
| BehaviorTree.RowsShowNodes | api/routes_execution.go:49-79 | row by row the list shows the named reported nodes: pending for no status, violated or passed for no envelope status, type in lower case, all else as reported |
| BehaviorTree.NodeList.FlattenTree | api/routes_execution.go:32-80 | the recursion appends exactly the specified rows to what is already there |
| BehaviorTree.EnrichSnapshot | api/routes_execution.go:82-108 | passes through exactly the snapshots with nothing to show; otherwise the pruned tree can be read back from the view, which carries tick, status and update time |
| RedactionTheorems.SanitizedIsClean | api/redaction.go:83-119 | at every depth of the output, inside envelopes too, every key that contains a secret word and is no metadata holds an envelope, and no path key holds an absolute, home, share or drive path |
| RedactionSecrets.SensitiveIff | api/redaction.go:14-66 | a key is sensitive exactly if, in any case and with dashes for underscores, it contains one of 17 secret words and is not one of 19 metadata keys |
| RedactionSecrets.AllowedHeaderIff | api/redaction.go:283-285 | a header is shown exactly if it has one of seven names and names no secret |
| RedactionSecrets.ContentLengthIsHidden | api/redaction.go:280-285 | one of the seven names a secret, so a content length is never shown |
| RedactionTheorems.SecretsAreHidden | api/redaction.go:86-93 | of an object's keys exactly two are left out, and every other secret one holds an envelope with the digest and length of what was there |
| RedactionTheorems.SanitizedHeadersAreClean | api/redaction.go:263-291 | the same for headers, also for those marked as redacted, which re-enter the sanitizer on the same object |
| RedactionTheorems.HeadersAreHidden | api/redaction.go:272-290 | every header is kept, one that is not shown holds an envelope with its digest and length, and those that name a secret are listed |
| RedactionTheorems.OtherHeadersAre | api/redaction.go:263-271 | headers that are no object become one envelope, headers already marked are treated like any object |
| RedactionTheorems.RelativePathIsShown | api/redaction.go:93-94 | under a path key, text that is no private path is shown like any other |
| RedactionTheorems.SecretsShowOnlyAsDigests | api/redaction.go:83-119 | values that differ only in what is hidden (sensitive values, long strings, private paths, URL queries and credentials, unlisted headers), with equal digests and lengths there, have identical outputs |
| RedactionTheorems.AlikeUrlSame | api/redaction.go:240-261 | two URLs of one scheme, host and path show a query or credentials only as digest and length, and a fragment not at all |
| RedactionTheorems.UrlShows | api/redaction.go:240-261 | a URL is shown by scheme, host and path, and marked exactly if it had a query or credentials |
| RedactionTheorems.AlikeHeadersSame | api/redaction.go:263-291 | the same for headers: sensitive and unlisted headers show only as digest and length |
| RedactionTheorems.NoSchemeSurvives | api/redaction.go:365-368 | one left-to-right pass leaves neither authorization scheme in any string, though it does not look at what it writes |
| RedactionTheorems.UnchangedIffNoScheme | api/redaction.go:365-368 | a string is left as it is exactly if it contains neither scheme |
| RedactionTheorems.HarmlessIsUnchanged | api/redaction.go:83-119 | a value without secret, path, url or headers keys, without strings over 512 bytes and without a scheme is returned unchanged |
| RedactionKeys.ListHeaderRole | api/redaction.go:277-288 | a header named like the list of redacted names is handled as an unlisted header |
| RedactionLoop.RedactorIsSafeIff | api/redaction.go:83-119 | the redactor finishes with the specified result in every order its maps may be visited in, exactly when no headers object it walks into has both a header named like the list and a sensitive one |
| RedactionLoop.HeadersAreSafeIff | api/redaction.go:263-291 | the same for one headers object by itself |
| RedactionLoop.NestedHeadersCanCrash | api/redaction.go:277-282 | an input that crashes the redactor in some order |
| RedactionLoop.AnyOrderIsClean | api/redaction.go:83-119 | whatever the order, what comes out at all is the specified value, and it is clean |
| RedactionLoop.SanitizeResponseValue | api/redaction.go:83-119 | the redactor with its loops, for any visiting order of every map, does what the theorems above are about, crashes included |
| RedactionLoop.SanitizeObject | api/redaction.go:85-104 | the loop over an object's keys, in the order given, stops at a crash below |
| RedactionLoop.SanitizeArray | api/redaction.go:105-110 | the loop over an array, likewise |
| RedactionLoop.SanitizeResponseHeaders | api/redaction.go:263-291 | the loop that updates the output object in place, in the order given, with the slot of the list in the same map |

## Left out

- HTTP handlers, status codes, response shaping, logging, authentication and rate limiting: plumbing around the modelled operations.
- SHA-256, Ed25519, PEM and canonical JSON: symbolic or parameters. `EvidenceEvents` takes hashes of distinct payloads as distinct, so a real collision of event hashes is outside `HeadCommitsToHistory`.
- EvidenceReplies.AdmittedIff: the limits on event size and nesting, the fields a request must not carry and the parsing of the public key are left out.
- Evidence-ingest idempotency records: they are read before and written after the work, outside its transaction, so they promise nothing beyond the identity modelled here.
- The dominant issue code of a rejected batch, received and verified times, and the ordering of the head query by time: they do not decide anything the theorems speak of.
- ContractSyncTheorems.FlagsInEveryRun: versions are in the order they were committed; what a transaction reads as the latest is the version created last, as the query has it, and creation times are arbitrary.
- Logical actions, their origin and archived actions: one action per history, as the sync never modifies an existing one.
- EvidenceLinks.LinkTable.InsertExclusive: the newest link of a run is the one appended last, where the query sorts by creation time.
- The derivation of a run's action and input hash from its task definition: a run's identity is a parameter.
- Reconciliation.Log.AppendOperatorReconciliation: the advisory lock is the atomicity of the step; target, binding and digest columns copied from the run are not modelled, nor is the text filter of the request decoder.
- Parameter type checks of bound input: a predicate that the theorems quantify over.
- The alert queue: Redis pushes succeed, alerts arrive with no attempts made, and ids and timestamps are left out; the code stamps a deduplication key before it pushes, so a failed push silences its key for one window.
- Alert providers, their timeouts and the detail-key redaction of alerts: a delivery is a list of per-channel results.
- BehaviorTree.EnrichSnapshot: node types are lower-cased for ASCII only, the id column, which is built from type, name and depth and need not be unique, is not modelled, and encoding the result does not fail.
- Target summaries, action metadata and encrypted-input summaries of the redactor, and its byte-level entry point: they wrap the modelled sanitizer.
- Task coordination, recovery, policy activation, fleet, cost, license and metrics routes: thin SQL or code with no property of this kind.
