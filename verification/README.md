# Verification of the mail-to-billing backend and its N+1 linter

A Dafny model of the parts of the repository whose correctness spans functions, transactions or
concurrent requests, with proofs about every input, every interleaving or every run. Check it with
`dafny verify dfyconfig.toml`.

**N+1 linter** (`CallGraph.dfy`, `MemoisedCheck.dfy`, `WrongEntries.dfy`, `LoopDetector.dfy`,
`LoopPositions.dfy`, `Resolver.dfy`). The memoised
search for database queries behind a call, over an AST in which a call carries what the type checker
says about it. Independent definitions say what running code reaches; the search is related to them on
every call graph. On cyclic graphs a `false` entry of the memo can be wrong; the model keeps that,
shows it with an example, and states exactly which entries are wrong and which calls are then missed.

**Manual mail workflow** (`WorkflowHistory.dfy`, `Workflow.dfy`, `WorkflowLedger.dfy`,
`WorkflowStages.dfy`, `WorkflowFaults.dfy`, `WorkflowExecution.dfy`, `WorkflowStart.dfy`, `StageContracts.dfy`). Any number of workflows take
steps in any order; every database call and every stage may fail or panic. An error ends in a failure write, and a
panic, one in that write included, in the failure write of the deferred handler.

**Mail fetch** (`EmailStore.dfy`, `MailFetch.dfy`, `DetailPool.dfy`), **mail analysis** (`LineItems.dfy`,
`ParsedEmails.dfy`, `MailAnalysis.dfy`), **vendor resolution** (`VendorPolicy.dfy`, `VendorRegistry.dfy`,
`VendorStage.dfy`), **eligibility and billing** (`BillingEligibility.dfy`, `BillingCreation.dfy`,
`BillingStore.dfy`). Tables are maps or lists under their unique indexes, a transaction is one atomic
step, and other writers may commit between any two steps.

**Billing read models** (`BillingQuery.dfy`, `VendorBreakdown.dfy`). Trend, month detail and vendor
breakdown over the same tables, on month indices and exact decimals in UTC. The schema has no foreign keys, so a
billing may lack a vendor row.

**Tokens** (`RefreshTokens.dfy`, `TokenLifetimes.dfy`, `ResendWindow.dfy`, `EmailVerification.dfy`). Refresh
token chains under interleaved requests, the fixed-window limit on verification mails, and what their tokens are good for.

`Text.dfy`, `Times.dfy`, `Filtering.dfy` and `Options.dfy` hold the string functions, the zero time, what it means that a
loop keeps some of its inputs, and the option type. Errors, clock readings, random
ids and what other writers do are parameters (`Event`, `Turn`, `Outside`, `Faults`).

Where the documentation and the code disagree the code is followed: `docs/ddd/invariants.md:31` promises as
many failure rows as counted failures, but the code also stores an uncounted `existing_emails_skipped` row.
`RowsMatchCountsExactly` says when the promise holds and `SkippedRowIsNotCounted` shows it broken. Two more
expectations fail in some cases, each with its exact condition and a failing example: the limit on verification mails
(`LimitHoldsExactly`) and the month's breakdown adding up to its totals (`BreakdownMatchesMonth`).

## Model

| member | source | states |
|---|---|---|
| `CallGraph.StepsExact` | tools/nplusonecheck/local_call_graph.go:388-416 | the walk of a body meets a query call or a candidate declaration exactly when running the body executes a call that runs or may enter it; bodies of uncalled function literals are skipped |
| `CallGraph.SearchExtends` | tools/nplusonecheck/local_call_graph.go:365-384 | memo entries are never dropped or changed; the bodies walked are exactly the entries added, each walked once and none on the stack already |
| `CallGraph.SearchSound` | tools/nplusonecheck/local_call_graph.go:353-416 | from any sound memo and any stack a `true` answer and every `true` entry is right, on any call graph |
| `CallGraph.SearchSettles` | tools/nplusonecheck/local_call_graph.go:365-384 | after a `false` answer every false entry is right or leads only to false entries and the stack |
| `CallGraph.CheckExact` | tools/nplusonecheck/local_call_graph.go:353-416 | from an exact memo and an empty stack the answer is `true` iff the steps reach a query, on cyclic graphs too, and a `false` answer leaves the memo exact |
| `CallGraph.TopLevelCheck` | tools/nplusonecheck/local_call_graph.go:36-56 | the same for one call: the answer is `true` iff an executed call path reaches a query |
| `CallGraph.SearchAcyclic` | tools/nplusonecheck/local_call_graph.go:365-384 | whatever was searched before, entries of declarations that reach no call cycle stay exact |
| `CallGraphSearch.CallGraphState.CallExecutesQuery` | tools/nplusonecheck/local_call_graph.go:36-56 | the method answers and leaves memo and walked bodies as the search function says, and restores `visiting` exactly |
| `CallGraphSearch.CallGraphState.DeclsContainQuery` | tools/nplusonecheck/local_call_graph.go:353-363 | the candidates are searched in order up to the first that contains a query |
| `CallGraphSearch.CallGraphState.DeclContainsQuery` | tools/nplusonecheck/local_call_graph.go:365-384 | missing body, memo, visiting and walk, in that order; `visiting` is restored; terminates by the declarations neither memoised nor visiting |
| `CallGraphSearch.CallGraphState.NodeContainsQuery` | tools/nplusonecheck/local_call_graph.go:388-416 | the AST walk with early exit is the search of the node's steps |
| `MemoisedCheck.CheckExactly` | tools/nplusonecheck/local_call_graph.go:365-384 | from any memo, exact or not, one check answers `true` iff the call reaches a query in the program as the memo remembers it |
| `MemoisedCheck.VerdictExactly` | tools/nplusonecheck/loop_detector.go:41-65 | on any call graph call number i of a package is reported iff it reaches a query in the program as remembered when it is checked |
| `WrongEntries.WrongAfterChecks` | tools/nplusonecheck/local_call_graph.go:365-384 | on any call graph and after any checks the wrong memo entries are exactly the `false` ones of declarations that call, directly or through others, one with a `true` entry |
| `WrongEntries.WrongAfterOne` | tools/nplusonecheck/local_call_graph.go:365-384 | a check from an exact memo leaves wrong exactly the `false` entries of declarations on a call cycle with one it found to reach a query |
| `WrongEntries.FirstReportLeavesWrong` | tools/nplusonecheck/loop_detector.go:41-65 | in a package no entry is wrong before the first report, and after it exactly the `false` entries that share a call cycle with a `true` one |
| `LoopDetector.EachBodyWalkedOnce` | tools/nplusonecheck/local_call_graph.go:365-384 | over all checks of a package each declaration body is walked at most once |
| `LoopDetector.VerdictsSound` | tools/nplusonecheck/loop_detector.go:41-65 | over any sequence of checks every report is right and a call that may enter no declaration leading into a cycle is reported if it reaches a query |
| `LoopDetector.VerdictsExactToFirst` | tools/nplusonecheck/loop_detector.go:41-65 | on any call graph the verdicts are exact up to and including the first report |
| `LoopDetector.ReportsExactWithoutCycles` | tools/nplusonecheck/loop_detector.go:11-65 | without call cycles the reports are the query-reaching calls among those the linter walks, in its order |
| `LoopPositions.EachCheckedOnce` | tools/nplusonecheck/loop_detector.go:11-65 | the calls checked are, each once and in source order, exactly those at positions of the syntax tree inside the body of an outermost loop and in no function literal within it |
| `LoopPositions.ReportedExactly` | tools/nplusonecheck/loop_detector.go:41-65 | without call cycles a call is reported iff it stands at such a position and reaches a query |
| `LoopPositions.SilentByPosition` | tools/nplusonecheck/loop_detector.go:11-65 | on any call graph nothing is reported iff no call at such a position reaches a query |
| `LoopDetector.SilentExactly` | tools/nplusonecheck/loop_detector.go:11-65 | on any call graph nothing is reported iff no checked call reaches a query |
| `LoopDetector.SearchFromA` | tools/nplusonecheck/local_call_graph.go:373-383 | with A calling B and a query, and B calling A, the search from A stores `false` for B |
| `LoopDetector.BReachesTheQuery` | tools/nplusonecheck/local_call_graph.go:373-383 | although B reaches the query |
| `LoopDetector.CycleHidesACall` | tools/nplusonecheck/loop_detector.go:41-65 | so a loop over A and then B reports only the first |
| `LoopDetector.Run` | tools/nplusonecheck/loop_detector.go:11-39 | the linter returns the reports of all files checked in order with one memo |
| `LoopDetector.ReportLoopQueries` | tools/nplusonecheck/loop_detector.go:41-65 | every call of a loop body outside function literals is checked, outer call first |
| `Resolver.MetIsGiven` | tools/nplusonecheck/local_call_graph.go:166-192 | skipping subtrees that start at or after the call misses no earlier assignment |
| `Resolver.GivenExactly` | tools/nplusonecheck/local_call_graph.go:171-192 | the values given before the call are those of the declarations and assignments, anywhere in the files, that start before it: the value at the object's place, none if there is none, or the only one of an assignment |
| `Resolver.AgreedExactly` | tools/nplusonecheck/local_call_graph.go:205-224 | recording values one by one yields a type iff there is a value and every value has that concrete type |
| `Resolver.ResolveAssignedConcreteType` | tools/nplusonecheck/local_call_graph.go:152-203 | a variable's type is found iff every value it is given before the call, in any file, has it; the walk stops early |
| `Resolver.TypeSearch.RecordResolvedType` | tools/nplusonecheck/local_call_graph.go:205-224 | one recorded value changes resolved type and ambiguity as the fold says |
| `Resolver.TypeSearch.Inspect` | tools/nplusonecheck/local_call_graph.go:166-197 | the early-stopping walk equals recording everything it may meet |
| `Resolver.ResolveInterfaceMethodCandidates` | tools/nplusonecheck/local_call_graph.go:226-262 | candidates are exactly the declared implementations, in order of first occurrence, each once |
| `Resolver.DuplicatesDoNotMatter` | tools/nplusonecheck/local_call_graph.go:226-262 | dropping repeated candidates changes neither answer, memo nor walked bodies of the search |
| `WorkflowHistory.BuildFetchStageProgress` | internal/manualmailworkflow/application/workflow_history.go:146-173 | the loop builds the summary with its skipped-emails row |
| `WorkflowHistory.BuildAnalysisStageProgress` | internal/manualmailworkflow/application/workflow_history.go:175-194 | the loop builds the analysis summary |
| `WorkflowHistory.BuildVendorResolutionStageProgress` | internal/manualmailworkflow/application/workflow_history.go:196-254 | the loops report the unresolved items, or the inputs neither resolved nor failed under a nonzero id |
| `WorkflowHistory.BuildBillingEligibilityStageProgress` | internal/manualmailworkflow/application/workflow_history.go:256-283 | the loops build the eligibility summary |
| `WorkflowHistory.BuildBillingStageProgress` | internal/manualmailworkflow/application/workflow_history.go:285-316 | the loops build the billing summary with the default reason code |
| `WorkflowStages.ProgressMeans` | internal/manualmailworkflow/application/workflow_history.go:146-316 | the three counters of each stage are those of its result; a vendor stage that lists no unresolved item counts the inputs that are neither resolved nor failed under a nonzero id |
| `WorkflowStages.ProgressRows` | internal/manualmailworkflow/application/workflow_history.go:146-316 | the failure rows of each stage are its business and then its technical failures in order, each with its message id and reason code |
| `WorkflowHistory.CountedFailureRecordCount` | internal/manualmailworkflow/infrastructure/workflow_status_repository.go:245-254 | counts the failure rows other than `existing_emails_skipped` |
| `WorkflowHistory.AcceptedExactly` | internal/manualmailworkflow/infrastructure/workflow_status_repository.go:180-243 | for each stage and any result of it, when the failure count check accepts its summary, in terms of the stage result alone |
| `WorkflowHistory.ContractAccepted` | internal/manualmailworkflow/infrastructure/workflow_status_repository.go:180-243 | a result that keeps its stage's contract is never rejected |
| `WorkflowHistory.FailureViewsAgree` | internal/manualmailworkflow/application/workflow_history.go:318-331 | the status computed from the result, the counters and the failure rows agree on whether a stage failed |
| `WorkflowHistory.RowsMatchCountsExactly` | docs/ddd/invariants.md:31 | failure rows equal counted failures except exactly when a fetch finds only known emails |
| `WorkflowHistory.SkippedRowIsNotCounted` | internal/manualmailworkflow/application/workflow_history.go:146-173 | one known email gives one failure row and zero counters |
| `Workflow.AdvanceValid` | internal/manualmailworkflow/infrastructure/workflow_status_repository.go:145-383 | in any reachable system each move changes a row only forward: queued, the stages in order, one final status, with finished_at and stage set accordingly |
| `Workflow.RunKeeps` | internal/manualmailworkflow/application/usecase.go:365-603 | over any interleaving rows never go back, final rows never change, failure rows are only appended |
| `Workflow.ReachableValid` | internal/manualmailworkflow/application/usecase.go:365-603 | every reachable system is valid: finished_at is set exactly on final rows, and each row agrees with its process |
| `Workflow.RunsAlone` | internal/manualmailworkflow/infrastructure/in_process_workflow_dispatcher.go:29-80 | in any interleaving a workflow's row, failure rows and process are those of running alone |
| `Workflow.Ends` | internal/manualmailworkflow/application/usecase.go:365-549 | a workflow ends once it has taken a bounded number of steps |
| `Workflow.StartedEndsFinal` | internal/manualmailworkflow/application/usecase.go:365-589 | a started workflow that gets its steps ends, and with a final row iff its dispatch does not panic, its failure write returns no error, and the deferred one that follows a panic works |
| `Workflow.StoppedExactly` | internal/manualmailworkflow/application/usecase.go:382-392 | over any interleaving a workflow stops without a final row iff one of its own moves is such a loss |
| `WorkflowLedger.CompletedStatusAgrees` | internal/manualmailworkflow/application/workflow_history.go:318-331 | in any interleaving whose stages keep their contracts a completed row is `succeeded` iff its ten failure counters are zero iff it has no failure row but `existing_emails_skipped`, and no save is refused |
| `WorkflowStages.CompletedRanItsStages` | internal/manualmailworkflow/application/usecase.go:414-547 | in any interleaving a completed workflow ran exactly the stages that had something to do: analysis iff a mail was created, vendors iff one was analysed, eligibility iff one was resolved, billing iff one was eligible; its counters and failure rows are what these stages returned |
| `WorkflowStages.FailedRanItsStages` | internal/manualmailworkflow/application/usecase.go:365-589 | in any interleaving the counters and failure rows of a failed workflow are those of the stages before the one it shows, or of that one too if only its completion failed |
| `WorkflowStages.CountersConserve` | internal/manualmailworkflow/application/usecase.go:449-520 | in a completed row every parsed email is resolved, unresolved or failed, every resolved one eligible, ineligible or failed, every eligible one created, a duplicate or failed |
| `WorkflowFaults.EndsByItsFirstFault` | internal/manualmailworkflow/application/usecase.go:365-589 | in any interleaving an ended workflow is completed iff each of its calls worked; a failed row shows the stage of the first call that did not, and none if the dispatch was refused |
| `WorkflowExecution.WorkflowStatusRepository.CreateQueued` | internal/manualmailworkflow/infrastructure/workflow_status_repository.go:105-143 | a new row under a fresh nonzero id, or nothing on error |
| `WorkflowExecution.WorkflowStatusRepository.SaveStageProgress` | internal/manualmailworkflow/infrastructure/workflow_status_repository.go:180-243 | counters and failure rows are written together, or nothing |
| `WorkflowExecution.WorkflowStatusRepository.Complete` | internal/manualmailworkflow/infrastructure/workflow_status_repository.go:320-383 | a final status with the stage cleared, or nothing |
| `WorkflowExecution.WorkflowStatusRepository.Fail` | internal/manualmailworkflow/infrastructure/workflow_status_repository.go:325-383 | failed with the stage reached, or nothing |
| `WorkflowExecution.UseCase.Execute` | internal/manualmailworkflow/application/usecase.go:365-549 | the use case with its nested stages and deferred handler is a run of the state machine; unless the row was completed before, it returns no error iff the row is then completed; from a queued row it then has run exactly the stages that had something to do, each stage's part of the result is what its own call returned, and status and counters are those of the result |
| `WorkflowExecution.UseCase.StartAndRun` | internal/manualmailworkflow/application/start_usecase.go:91-138 | the row is created iff the insert works, and the caller is given it iff the dispatch accepts it too; creation, dispatch and background run are a run of the state machine |
| `WorkflowExecution.PlayEnds` | internal/manualmailworkflow/application/usecase.go:382-392 | alone, a workflow ends, with a final row iff its dispatch does not panic and its last failure write, the deferred one after a panic, works if it needs one |
| `WorkflowStart.JobValidExactly` | internal/manualmailworkflow/application/usecase.go:591-616 | the run rejects exactly the jobs of commands that Start rejects, so none of its jobs |
| `WorkflowStart.CommandValidExactly` | internal/manualmailworkflow/application/usecase.go:605-616 | a command is accepted iff it names a user, a connection, a label that is not blank, and a period between two set times that is not empty |
| `WorkflowStart.JobOfCommand` | internal/manualmailworkflow/application/start_usecase.go:87-130 | the job dispatched has the command's user, connection and period and the trimmed label, which the run's own normalisation leaves as it is |
| `WorkflowStart.Start` | internal/manualmailworkflow/application/start_usecase.go:68-138 | a row is created iff the command is valid and the insert works, otherwise there is no trace; the caller is given it iff the dispatch accepts it too; a created row is a valid job and final iff its run did not stop before; the row of a refused dispatch is failed iff its failure write works and queued otherwise |
| `StageContracts.AnalysisKeepsContract` | internal/mailanalysis/application/usecase.go:151-276 | what the analysis stage returns keeps the contract the history relies on |
| `StageContracts.FetchKeepsContract` | internal/mailfetch/application/usecase.go:95-226 | so does what the fetch stage returns |
| `StageContracts.VendorKeepsContract` | internal/vendorresolution/application/usecase.go:99-194 | so does what the vendor stage returns: every parsed email has an outcome under its id |
| `StageContracts.EligibilityKeepsContract` | internal/billingeligibility/application/usecase.go:89-182 | so does what the eligibility stage returns |
| `StageContracts.BillingKeepsContract` | internal/billing/application/usecase.go:126-236 | so does what the billing stage returns |
| `StageContracts.AnalysisCountsItems` | internal/mailanalysis/application/usecase.go:151-276 | the count of the analysis stage is the number of items it hands on |
| `StageContracts.VendorCountsTargets` | internal/vendorresolution/application/usecase.go:99-194 | the vendor stage hands back one outcome for each parsed email |
| `StageContracts.EligibilityCountsTargets` | internal/billingeligibility/application/usecase.go:89-182 | so does the eligibility stage for each resolved one |
| `StageContracts.BillingCountsItems` | internal/billing/application/usecase.go:126-236 | so does the billing stage for each eligible one |
| `StageContracts.FetchFailureHasRow` | internal/manualmailworkflow/application/workflow_history.go:146-173 | each failure of the fetch stage has a failure row with its message id and code in what the history saves |
| `StageContracts.AnalysisFailureHasRow` | internal/manualmailworkflow/application/workflow_history.go:175-194 | so has each failure of the analysis stage |
| `StageContracts.UnresolvedHasRow` | internal/manualmailworkflow/application/workflow_history.go:196-254 | so has each parsed email without a vendor, as unresolved |
| `StageContracts.VendorFailureHasRow` | internal/manualmailworkflow/application/workflow_history.go:196-254 | so has each failure of the vendor stage |
| `StageContracts.IneligibleHasRow` | internal/manualmailworkflow/application/workflow_history.go:256-283 | so has each ineligible item, with its reason |
| `StageContracts.EligibilityFailureHasRow` | internal/manualmailworkflow/application/workflow_history.go:256-283 | so has each failure of the eligibility stage |
| `StageContracts.DuplicateHasRow` | internal/manualmailworkflow/application/workflow_history.go:285-316 | so has each duplicate, as such |
| `StageContracts.BillingFailureHasRow` | internal/manualmailworkflow/application/workflow_history.go:285-316 | so has each failure of the billing stage |
| `EmailStore.InsertIgnoreExact` | internal/mailfetch/infrastructure/email_repository.go:214-283 | a batch inserts exactly the absent (user, message) keys with its own run id and touches nothing else |
| `EmailStore.ReadBackNeverMisses` | internal/mailfetch/infrastructure/email_repository.go:322-344 | over any history of concurrent chunk saves the read-back finds every message of its batch |
| `EmailStore.CreatedExactly` | internal/mailfetch/infrastructure/email_repository.go:214-283 | a save is told `created` iff the row was absent before its own insert |
| `EmailStore.OwnRowExactly` | internal/mailfetch/infrastructure/email_repository.go:214-283 | after an insert with a fresh run id a row of its batch carries that id, then and ever after, iff it was absent before the insert |
| `EmailStore.CreatedAtMostOnce` | internal/mailfetch/infrastructure/email_repository.go:214-283 | a message is reported created at most once and all saves of it get the same email id |
| `EmailStore.HistoryValid` | internal/mailfetch/infrastructure/email_repository.go:214-283 | different messages keep different ids |
| `MailFetch.PrepareEmails` | internal/mailfetch/infrastructure/email_repository.go:109-158 | the loop prepares exactly the first valid occurrence of each id and refuses every other mail with its code |
| `MailFetch.PreparedOnce` | internal/mailfetch/infrastructure/email_repository.go:109-158 | no id is prepared twice, every mail is prepared or refused, and only trimmed ids of mails are prepared |
| `MailFetch.MailPrepared` | internal/mailfetch/infrastructure/email_repository.go:109-158 | for each mail: refused without an id, as a repetition of an id, or without user or digest, and otherwise prepared under its trimmed id |
| `MailFetch.EmailRepository.SavePreparedEmails` | internal/mailfetch/infrastructure/email_repository.go:214-283 | there is one answer for each message of the chunk, in order, with the id of the row of that user and message, created iff the row carries the own run id; a failing insert statement, a failing transaction and a failing read-back each have their own answer; the not-found branch is never taken |
| `MailFetch.EmailRepository.SavePreparedEmailChunks` | internal/mailfetch/infrastructure/email_repository.go:160-204 | the save works iff each chunk is inserted and read back or rejected by its insert statement; then exactly the rejected chunks are failures and each other mail has its row's id and status; otherwise it ends at the first other chunk with nothing saved after it |
| `MailFetch.AnswersAgree` | internal/mailfetch/infrastructure/email_repository.go:214-283 | over any history two answers, of whatever user and run, carry the same email id iff they are about the same message of the same user |
| `MailFetch.CreatedExactly` | internal/mailfetch/infrastructure/email_repository.go:214-283 | with a fresh run id a mail's status is created iff its row was absent before its own chunk's insert |
| `MailFetch.FailedExactly` | internal/mailfetch/infrastructure/email_repository.go:160-204 | a prepared mail is a save failure iff the insert statement of its own chunk failed |
| `MailFetch.EveryMailReported` | internal/mailfetch/infrastructure/email_repository.go:160-204 | chunking loses and repeats no mail: unless a transaction fails, which ends the save, results and failures together are the prepared mails |
| `MailFetch.SelectSaveTargets` | internal/mailfetch/application/usecase.go:126-161 | the first dated mail of each trimmed id becomes a target, every other mail a failure with its code |
| `MailFetch.MailSelected` | internal/mailfetch/application/usecase.go:126-161 | for each mail: a failure without an id or a date or as a repetition of a dated one, and otherwise a target with its trimmed id, its body and the digest of its body |
| `MailFetch.Execute` | internal/mailfetch/application/usecase.go:95-226 | the stage works iff each chunk is inserted and read back or rejected; then created, existing and added failures are fixed by the table and by which inserts fail, and count the mails; each message of an inserted chunk is created or existing under the id of its row in the final table, and nothing else is; created emails carry the body of their mail |
| `MailFetch.FetchedDelivers` | internal/mailfetch/application/usecase.go:163-213 | the ids of created and existing emails are exactly those of the rows of the messages saved |
| `MailFetch.SortResults` | internal/mailfetch/application/usecase.go:163-213 | the loop over the save results: each created email is stored under its id with its mail's body, and neither odd branch is visited |
| `DetailPool.StepValid` | internal/mailfetch/infrastructure/gmail_mail_fetcher.go:102-138 | feeder and worker steps keep the pool invariant: no index twice, results of handled indices only |
| `DetailPool.NeverStuck` | internal/mailfetch/infrastructure/gmail_mail_fetcher.go:102-138 | until the caller returns some step is possible |
| `DetailPool.AnySchedule` | internal/mailfetch/infrastructure/gmail_mail_fetcher.go:102-138 | every schedule is bounded, handles each index exactly once and ends with the sequential results |
| `DetailPool.EveryMessageClassified` | internal/mailfetch/infrastructure/gmail_mail_fetcher.go:51-99 | every message is fetched, a failure with the code of its case, or outside the period |
| `DetailPool.AnswerMeans` | internal/mailfetch/infrastructure/gmail_mail_fetcher.go:66-99 | a mail is fetched iff its id is not blank and its date is at or after the first bound and before the second; it is passed over iff it is usable and outside; each other answer has its failure |
| `DetailPool.FailureListed` | internal/mailfetch/infrastructure/gmail_mail_fetcher.go:66-99 | each answer that is neither is in the list of failures |
| `DetailPool.FailureCodes` | internal/mailfetch/infrastructure/gmail_mail_fetcher.go:69-90 | the failures carry the fetch stage's own codes, as its contract needs |
| `DetailPool.FetchedInOrder` | internal/mailfetch/infrastructure/gmail_mail_fetcher.go:51-99 | fetched mails keep the order of the messages |
| `DetailPool.FilterDetails` | internal/mailfetch/infrastructure/gmail_mail_fetcher.go:66-99 | the loop sorts each answer into fetched, undelivered, unusable or neither; a failure has its code and the id asked for, or the trimmed id of the mail |
| `LineItems.NormalizeTwice` | internal/common/domain/email.go:129-142 | normalising a line item once is enough |
| `LineItems.NormalMeans` | internal/common/domain/email.go:129-142 | a normalised row has trimmed texts, the currency in capitals, no blank text, and the amount as it was; it is empty iff no text and no amount said anything |
| `LineItems.ItemsKept` | internal/common/domain/email.go:232-251 | of a list exactly the rows that say something remain, in order and in that form |
| `LineItems.NormalizeItemsSettles` | internal/common/domain/email.go:232-251 | only non-empty, normalised items remain, none exactly when all are empty |
| `LineItems.NormalizeLineItems` | internal/common/domain/email.go:232-251 | the loop keeps those items in order |
| `Text.CanonicalTwice` | internal/common/domain/email.go:206-221 | trimming, lowering, splitting and joining is idempotent and keeps the fields, under any letter case mapping that is idempotent and keeps white space |
| `Text.TrimMeans` | internal/common/domain/email.go:183-194 | trimming takes the white space off both ends and nothing else |
| `Text.FieldsSplit` | internal/common/domain/email.go:206-221 | a separator separates: the fields around it are those before it and those after it |
| `Text.OneField` | internal/common/domain/email.go:206-221 | and a text without separators is one field |
| `ParsedEmails.CycleTwice` | internal/common/domain/email.go:206-221 | normalising a payment cycle once is enough |
| `ParsedEmails.ParsedTwice` | internal/common/domain/email.go:160-175 | normalising a parsed email once is enough |
| `ParsedEmails.NormalFormOf` | internal/common/domain/email.go:160-175 | what normalisation keeps of each field: trimmed texts, currency in capitals, the cycle's words joined, the rows that say something, all else as it was |
| `ParsedEmails.SpeaksExactly` | internal/common/domain/email.go:145-157 | a normalised parsed email is empty iff no field of it said anything |
| `ParsedEmails.CycleMeans` | internal/common/domain/email.go:206-221 | a payment cycle is its words in small letters joined by underscores, and none if it has no word |
| `ParsedEmails.NormalizeAllCleans` | internal/mailanalysis/domain/parsed_email.go:30-44 | output normalisation leaves only normalised, non-empty parsed emails |
| `ParsedEmails.ParsedKept` | internal/mailanalysis/domain/parsed_email.go:30-44 | exactly the parsed emails that say something remain, in order, each in its normal form |
| `ParsedEmails.CleanStays` | internal/mailanalysis/domain/parsed_email.go:58-76 | which the save's own normalisation then neither changes nor drops |
| `ParsedEmails.NormalizeDrafts` | internal/mailanalysis/domain/parsed_email.go:30-44 | the loop drops exactly the empty ones |
| `ParsedEmails.ApplyFallbackBillingNumbers` | internal/mailanalysis/application/usecase.go:340-355 | the slice is numbered in place where a number is missing and the digest is not blank |
| `ParsedEmails.FallbackClean` | internal/mailanalysis/application/usecase.go:340-355 | numbering keeps parsed emails clean; one is numbered iff it or the digest offers a number |
| `ParsedEmails.FallbackMeans` | internal/mailanalysis/application/usecase.go:340-355 | a number that is not blank stays; a missing one becomes the prefixed trimmed digest unless that is blank; nothing else changes |
| `ParsedEmails.ParsedEmailRepository.SaveAll` | internal/mailanalysis/infrastructure/parsed_email_repository.go:67-132 | all rows are appended at consecutive positions and returned in order, or none |
| `ParsedEmails.RowHoldsParsed` | internal/mailanalysis/infrastructure/parsed_email_repository.go:91-112 | the row of a clean parsed email holds what was analysed |
| `ParsedEmails.RowMeans` | internal/mailanalysis/infrastructure/parsed_email_repository.go:91-112 | row i belongs to the user, the email and the trimmed run and prompt of the save, at position i after the base |
| `MailAnalysis.AnalyzeEmailsConcurrently` | internal/mailanalysis/application/usecase.go:299-319 | in whatever order the goroutines finish, entry i is the answer for email i |
| `MailAnalysis.PreparedStays` | internal/mailanalysis/application/usecase.go:202-235 | after numbering the repository drops and changes nothing |
| `MailAnalysis.EmailsSorted` | internal/mailanalysis/application/usecase.go:279-297 | exactly the emails with an id, a message id and a body are analysed, trimmed and in order; the others are failures |
| `MailAnalysis.PreparedKeeps` | internal/mailanalysis/application/usecase.go:202-216 | what is saved of an answer: the drafts that say something, in order, normalised and numbered |
| `MailAnalysis.OutcomeExactly` | internal/mailanalysis/application/usecase.go:190-250 | each email ends as the failure of its own case, or with those drafts saved |
| `MailAnalysis.SavedRowsMean` | internal/mailanalysis/application/usecase.go:219-227 | the rows of an email are its parsed emails at positions 0, 1 and so on, with the run, the time and the prompt of their analysis |
| `MailAnalysis.EveryEmailListed` | internal/mailanalysis/application/usecase.go:190-250 | and is in the lists of the stage by that outcome |
| `MailAnalysis.SaveOne` | internal/mailanalysis/application/usecase.go:190-250 | per email: one failure, or exactly its prepared parsed emails saved |
| `MailAnalysis.Execute` | internal/mailanalysis/application/usecase.go:151-276 | added row k stores returned item k under its id, the count is the number of items, every other email is a failure |
| `VendorPolicy.LooseTwice` | internal/common/domain/vendor_resolution.go:174-179 | loose text is a fixed point of loosening |
| `VendorPolicy.LooseShape` | internal/common/domain/vendor_resolution.go:174-179 | loosening never lengthens and empties exactly blank text |
| `VendorPolicy.LooseExactly` | internal/common/domain/vendor_resolution.go:174-179 | two texts are loosely equal iff they have the same words, whatever the letter case and white space |
| `VendorPolicy.SelectLatestAliasCandidate` | internal/common/domain/vendor_resolution.go:190-202 | the loop finds the latest candidate |
| `VendorPolicy.LatestMeans` | internal/common/domain/vendor_resolution.go:190-202 | no candidate is newer than the one selected; none iff there are none |
| `VendorPolicy.LatestUnique` | internal/common/domain/vendor_resolution.go:244-249 | with distinct alias ids it does not depend on the order |
| `VendorPolicy.SubjectVendorExactly` | internal/common/domain/vendor_resolution.go:204-242 | no vendor iff no keyword or the longest name several vendors; else that of the newest longest |
| `VendorPolicy.ResolveSubjectKeyword` | internal/common/domain/vendor_resolution.go:204-242 | the sort and the loop with its break compute it |
| `VendorPolicy.DecideExactly` | internal/common/domain/vendor_resolution.go:125-140 | the four rules in priority order, and when nothing is resolved |
| `VendorPolicy.Resolve` | internal/common/domain/vendor_resolution.go:125-140 | the method takes that decision |
| `VendorRegistry.ExactCandidate` | internal/vendorresolution/infrastructure/vendor_resolution_repository.go:69-86 | under the unique index an exact lookup returns the one alias row with its vendor, or nothing |
| `VendorRegistry.SubjectCandidates` | internal/vendorresolution/infrastructure/vendor_resolution_repository.go:89-105 | the subject lookup finds exactly the aliases of the user under the keyword rule whose non-empty text is a contiguous part of the subject, each with its vendor |
| `VendorRegistry.ContainsExactly` | internal/vendorresolution/infrastructure/vendor_resolution_repository.go:97 | containing a text means that it is a contiguous part |
| `VendorRegistry.EnsureKeeps` | internal/vendorresolution/infrastructure/vendor_registration_repository.go:42-91 | the transaction keeps the tables valid, only adds rows, and adds none unless it succeeds |
| `VendorRegistry.DeclinedExactly` | internal/vendorresolution/infrastructure/vendor_registration_repository.go:53-62 | a registration is declined iff the name is blank or longer than 255 |
| `VendorRegistry.ConflictExactly` | internal/vendorresolution/infrastructure/vendor_registration_repository.go:134-178 | it fails iff the name's alias is bound to another vendor |
| `VendorRegistry.EnsuredIsBound` | internal/vendorresolution/infrastructure/vendor_registration_repository.go:42-91 | otherwise the alias is bound to the vendor returned |
| `VendorRegistry.RegisteredRows` | internal/vendorresolution/infrastructure/vendor_registration_repository.go:42-178 | what a registration adds: a vendor with the trimmed name unless the user has one of the same loose name, and a name alias for it unless there is one |
| `VendorRegistry.RunKeeps` | internal/vendorresolution/infrastructure/vendor_registration_repository.go:42-178 | over any run vendors stay unique per user and normalised name, and aliases are never reassigned |
| `VendorRegistry.BoundDecides` | internal/common/domain/vendor_resolution.go:125-129 | a bound name resolves by name_exact whatever sender and subject say |
| `VendorRegistry.NameExactStable` | internal/common/domain/vendor_resolution.go:125-129 | once a name resolves by name_exact every loosely equal name does, to the same vendor, for ever |
| `VendorRegistry.RegisteredStable` | internal/vendorresolution/application/registration.go:11-45 | so does every registered name |
| `VendorRegistry.RegistrationsAgree` | internal/vendorresolution/infrastructure/vendor_registration_repository.go:94-131 | two registrations of loosely equal names get the same vendor |
| `VendorStage.UnresolvedExactly` | internal/vendorresolution/application/resolution.go:13-34 | without database errors a target is unresolved iff, in the rows that its own query sees, no exact alias of the user has the loose name, the domain or the loose sender, no keyword occurs in the subject or the longest ones that do belong to several vendors, and its name is blank or over 255 |
| `VendorStage.DecidedByRows` | internal/common/domain/vendor_resolution.go:125-140 | said of the alias and vendor rows: name before domain before sender before subject, the vendor of the one exact alias, or of the youngest of the longest keywords in the subject if these agree |
| `VendorStage.MatchedByRows` | internal/vendorresolution/application/resolution.go:13-34 | without database errors a target that some rule decides is matched with that vendor, and nothing is written |
| `VendorStage.HandleMeans` | internal/vendorresolution/application/usecase.go:119-177 | a target without its ids fails unseen, one matched with a vendor without user or name fails, and any other has the outcome of its resolution |
| `VendorStage.FailedExactly` | internal/vendorresolution/application/resolution.go:13-34 | and it fails iff it is to be registered and the alias of its name is bound to another vendor by then |
| `VendorStage.NoConflictAlone` | internal/vendorresolution/application/resolution.go:13-34 | with nothing committed between name lookup and registration there is no failure |
| `VendorStage.MatchStays` | internal/vendorresolution/application/resolution.go:13-34 | a name_exact match made with other writers in between still holds for every later loosely equal name |
| `VendorStage.VendorTables.EnsureByPlan` | internal/vendorresolution/infrastructure/vendor_registration_repository.go:42-91 | the method with its rollback is the transaction |
| `VendorStage.BuildVendorAliasRecords` | internal/vendorresolution/infrastructure/vendor_registration_repository.go:180-211 | the loop keeps complete aliases that fit, each key once |
| `VendorStage.ResolveOne` | internal/vendorresolution/application/resolution.go:13-34 | four lookups, policy and registration, with other commits before each |
| `VendorStage.LookUp` | internal/vendorresolution/infrastructure/vendor_resolution_repository.go:34-66 | the facts are those of four separate queries, each in the tables it finds |
| `VendorStage.Execute` | internal/vendorresolution/application/usecase.go:99-194 | every target is in exactly one list under its ids, counts are list lengths |
| `BillingEligibility.ResolvedProductNameDisplay` | internal/common/domain/billing_eligibility.go:34-51 | display name, raw name, or the first named line item |
| `BillingEligibility.DisplayExactly` | internal/common/domain/billing_eligibility.go:34-51 | the name found is the first that is not blank of display name, raw name and, row by row, the names of the product rows |
| `BillingEligibility.EvaluateExactly` | internal/common/domain/billing_eligibility.go:55-88 | a parsed email passes iff none of the nine reasons objects to it, and is otherwise given the first that does |
| `BillingEligibility.ToLineItems` | internal/billingeligibility/application/usecase.go:318-351 | the loop fills in the mail's currency and drops empty rows |
| `BillingEligibility.Execute` | internal/billingeligibility/application/usecase.go:89-182 | the three lists are the verdicts in order and partition the targets |
| `BillingEligibility.NoUnexpectedFailure` | internal/billingeligibility/application/usecase.go:164-170 | for a real user only invalid targets fail |
| `BillingEligibility.JudgeExactly` | internal/billingeligibility/application/usecase.go:89-182 | each target is invalid iff an id or its vendor name is missing, ineligible with the first reason that objects, or eligible with its data |
| `BillingEligibility.EligibleHasData` | internal/billingeligibility/application/usecase.go:128-144 | an eligible item has the ids, name, number, invoice number, amount, currency, date, cycle and product rows of its parsed email |
| `BillingEligibility.ListsKeep` | internal/billingeligibility/application/usecase.go:89-182 | each of the three lists has exactly the verdicts of its kind, in order |
| `BillingCreation.EligibleIsCreatable` | internal/billing/application/usecase.go:66-86 | an item the eligibility stage passes satisfies the creation check |
| `BillingCreation.AssembledObjections` | internal/common/domain/billing.go:90-121 | validating an assembled billing can only object to its invoice number or date |
| `BillingCreation.EligibleConstruction` | internal/common/domain/billing.go:37-87 | for an eligible item construction fails iff the invoice number is non-blank and malformed or the date is the zero time |
| `BillingCreation.ConstructBilling` | internal/common/domain/billing.go:37-145 | construction with its loop over the line items is that function |
| `BillingCreation.NewBillingShape` | internal/common/domain/billing.go:37-145 | a constructed billing is valid and its line items are normalised and never empty |
| `BillingCreation.EligibleLinesKept` | internal/billingeligibility/application/usecase.go:318-351 | no product row of an eligible item is lost and each has a currency |
| `BillingCreation.BuiltIsStored` | internal/billing/infrastructure/repository.go:96-198 | without database errors a constructed billing is created iff its identity is free, a date can be found and its amounts are finite, and then all its rows are stored |
| `BillingCreation.Execute` | internal/billing/application/usecase.go:126-236 | every item has the verdict that its own save's outcome gives it, is in exactly one list by that verdict, and the tables are those that the saves leave |
| `BillingCreation.CreatedHolds` | internal/billing/application/usecase.go:126-236 | a billing created for an item is stored with the item's identity, email, date, amount, currency, cycle and texts, and at position i exactly the i-th product row that says something, normalised; with none, one row of the item's display name, amount and currency |
| `BillingCreation.StageHolds` | internal/billing/application/usecase.go:126-236 | and so it is at the end of the stage, whatever others commit meanwhile |
| `BillingCreation.EligibleRowsHold` | internal/billing/application/usecase.go:171 | if an item of the eligibility stage has product rows, its billing has as many, each the normal form of its own |
| `BillingCreation.EveryItemReported` | internal/billing/application/usecase.go:126-236 | the three lists have as many entries as there are items, and every item is in the list of its verdict under its ids |
| `BillingCreation.CreatedStays` | internal/billing/application/usecase.go:126-236 | the billing created for an item keeps its row and the item's identity to the end of the stage |
| `BillingCreation.CreatedOnce` | internal/billing/application/usecase.go:126-236 | one stage creates at most one billing for an identity, whatever others commit meanwhile |
| `BillingCreation.VerdictExactly` | internal/billing/application/usecase.go:126-236 | a valid item is created iff its identity is free, a date can be found, its amounts are finite and the database works; a duplicate iff the identity is taken and the look-up works; otherwise a failure of the save |
| `BillingCreation.CreatedIsNew` | internal/billing/infrastructure/repository.go:96-198 | a created billing was not there before the item and is stored with its identity after it |
| `BillingCreation.DbBeforeKeeps` | internal/billing/application/usecase.go:126-236 | over the whole stage the tables stay valid and only grow |
| `BillingStore.TransactKeeps` | internal/billing/infrastructure/repository.go:96-198 | the transaction stores a billing with exactly its non-empty items at their positions, or nothing |
| `BillingStore.CreatedStaysWhole` | internal/billing/infrastructure/repository.go:96-198 | a created billing stays whole through any history |
| `BillingStore.StoredOnlyByCreated` | internal/billing/infrastructure/repository.go:96-198 | every stored billing was created by a call that was told so |
| `BillingStore.CreatedAtMostOnce` | internal/billing/infrastructure/repository.go:129-140 | at most one call creates a given identity |
| `BillingStore.DuplicateNamesTheRow` | internal/billing/infrastructure/repository.go:171-192 | a duplicate answer names the only row of that identity |
| `BillingStore.BillingRepository.SaveLineItems` | internal/billing/infrastructure/repository.go:200-239 | the loop builds the rows, or fails on an amount that is not finite |
| `BillingStore.BillingRepository.SaveIfAbsent` | internal/billing/infrastructure/repository.go:96-198 | created, duplicate or error, with other commits before the look-up |
| `BillingQuery.BuildBuckets` | internal/billingquery/application/monthly_trend_usecase.go:157-198 | the loop over the months fills each bucket with that month's totals, zero where there is no aggregate |
| `BillingQuery.GetTrend` | internal/billingquery/application/monthly_trend_usecase.go:144-198 | twelve buckets, oldest first, each equal to the month detail's totals |
| `BillingQuery.BucketIsMonth` | internal/billingquery/infrastructure/monthly_trend_repository.go:46-80 | grouping the window by month gives amount, billing count and fallback count of the one-month query |
| `BillingQuery.SelectedExactly` | internal/billingquery/infrastructure/month_detail_repository.go:45-105 | the query has exactly the joined rows of the user and the currency with a summary date in the period, each as often as its line item |
| `BillingQuery.MonthSelected` | internal/billingquery/infrastructure/month_detail_repository.go:45-105 | and a month's query only rows dated in that month |
| `BillingQuery.TotalMeans` | internal/billingquery/infrastructure/monthly_trend_repository.go:46-80 | the total adds the amounts row by row, a missing one as zero |
| `BillingQuery.CountsMean` | internal/billingquery/infrastructure/monthly_trend_repository.go:46-80 | the counts are of different billings: all in the rows, and those without a billing date |
| `BillingQuery.SubtotalMeans` | internal/billingquery/infrastructure/month_detail_repository.go:62-105 | a vendor's subtotal is over exactly the rows billed by that vendor row and its user |
| `BillingQuery.TotalsSplitByBilling` | internal/billingquery/infrastructure/monthly_trend_repository.go:46-80 | sums and distinct counts add up over disjoint kinds of billings |
| `BillingQuery.MonthsPartitionWindow` | internal/billingquery/application/monthly_trend_usecase.go:64-77 | the months of a window together total exactly the window |
| `BillingQuery.VendorsTogether` | internal/billingquery/infrastructure/month_detail_repository.go:62-105 | vendor subtotals add up to the rows of the vendors listed |
| `BillingQuery.BreakdownMatchesMonth` | internal/billingquery/infrastructure/month_detail_repository.go:45-105 | the breakdown counts every billing of the month's totals iff every row of the month has a vendor row of its user, and then the amounts agree too |
| `BillingQuery.CountedExactly` | internal/billingquery/infrastructure/month_detail_repository.go:62-105 | joining vendors keeps every billing iff every row has a vendor row of its user |
| `BillingQuery.OrphanIsNotBrokenDown` | internal/billingquery/infrastructure/month_detail_repository.go:45-105 | a billing whose vendor row belongs to another user is in the totals and in no subtotal |
| `VendorBreakdown.RankedUnique` | internal/billingquery/application/month_detail_usecase.go:169-227 | the ranking is total: the same vendors can be ranked in one way only |
| `VendorBreakdown.BuildMonthDetailVendorItems` | internal/billingquery/application/month_detail_usecase.go:169-227 | the loops list the five largest and fold the rest |
| `VendorBreakdown.LargestListed` | internal/billingquery/application/month_detail_usecase.go:169-227 | the first rows show the vendors above all others by amount, count and name, with trimmed names; a sixth row has the sums of the rest |
| `VendorBreakdown.SumsMean` | internal/billingquery/application/month_detail_usecase.go:169-227 | these sums add amounts and counts vendor by vendor |
| `VendorBreakdown.BreakdownConserves` | internal/billingquery/application/month_detail_usecase.go:169-227 | amount and count are conserved; at most five rows, and one other row iff more than five vendors |
| `VendorBreakdown.BreakdownIgnoresOrder` | internal/billingquery/application/month_detail_usecase.go:169-227 | the breakdown depends only on the multiset of vendors |
| `VendorBreakdown.ListedRankFirst` | internal/billingquery/application/month_detail_usecase.go:169-227 | listed vendors are in order and rank at or above every folded one |
| `RefreshTokens.RunValid` | internal/auth/infrastructure/repository_refresh_tokens.go:15-157 | in every interleaving replaced tokens are revoked, successors are younger, of the same user and never shared |
| `RefreshTokens.RunLater` | internal/auth/infrastructure/repository_refresh_tokens.go:72-157 | tokens are never removed and a revoked one never changes |
| `RefreshTokens.RotatedAtMostOnce` | internal/auth/infrastructure/repository_refresh_tokens.go:72-131 | no token is rotated twice over a run and successor ids strictly increase |
| `RefreshTokens.PendingWasPresented` | internal/auth/application/session_tokens.go:50-84 | a refresh replaces only a token it presented while it was active |
| `RefreshTokens.ChainKeepsUser` | internal/auth/application/session_tokens.go:67-70 | a chain keeps one user |
| `RefreshTokens.OneUnrevoked` | internal/auth/infrastructure/repository_refresh_tokens.go:72-131 | each login chain has at most one unrevoked token |
| `RefreshTokens.HasFirst` | internal/auth/infrastructure/repository_refresh_tokens.go:72-131 | every token lies on the chain of a first one |
| `RefreshTokens.FirstUnique` | internal/auth/infrastructure/repository_refresh_tokens.go:72-131 | and of only one |
| `RefreshTokens.FirstAreLogins` | internal/auth/application/session_tokens.go:24-47 | the first tokens are exactly those that logins issued |
| `RefreshTokens.LogoutEndsChain` | internal/auth/infrastructure/repository_refresh_tokens.go:134-157 | logging out with the chain's unrevoked token revokes the whole chain |
| `RefreshTokens.EndedForever` | internal/auth/infrastructure/repository_refresh_tokens.go:72-157 | a chain without unrevoked token never gets one again |
| `RefreshTokens.NoRotationAfterEnd` | internal/auth/application/session_tokens.go:50-84 | not even through a refresh that had found its token before the logout |
| `TokenLifetimes.LoginTokenLives` | internal/auth/application/session_tokens.go:24-63 | over any run the token of a login is found whenever its secret is presented before it expires and nothing in between has revoked it, and refused otherwise |
| `TokenLifetimes.SuccessorLives` | internal/auth/application/session_tokens.go:65-84 | so is the successor that a refresh issues, for the lifetime counted from that refresh |
| `TokenLifetimes.RotationAnswered` | internal/auth/infrastructure/repository_refresh_tokens.go:72-131 | a refresh that has found a token is refused iff that token was revoked meanwhile, fails iff else the new secret was given out before, and otherwise replaces it |
| `TokenLifetimes.SuccessorStands` | internal/auth/application/session_tokens.go:65-84 | the successor has the user of the token found, the new secret, and the expiry of the refresh |
| `TokenLifetimes.LoginSucceedsExactly` | internal/auth/infrastructure/repository_refresh_tokens.go:15-42 | a login is answered with a token iff its secret was never given out |
| `TokenLifetimes.RotationLeaves` | internal/auth/infrastructure/repository_refresh_tokens.go:72-131 | a rotation revokes the token found at the time of the refresh, names the successor in it, and changes no other token |
| `TokenLifetimes.LogoutLeaves` | internal/auth/infrastructure/repository_refresh_tokens.go:134-157 | a logout revokes the unrevoked token with its secret at its time and changes no other |
| `RefreshTokens.RefreshTokenRepository.CreateRefreshToken` | internal/auth/infrastructure/repository_refresh_tokens.go:15-42 | a new row under the next id, or none when the digest is taken |
| `RefreshTokens.RefreshTokenRepository.FindActiveRefreshTokenByDigest` | internal/auth/infrastructure/repository_refresh_tokens.go:45-69 | finds the active token of the digest iff there is one |
| `RefreshTokens.RefreshTokenRepository.RotateRefreshToken` | internal/auth/infrastructure/repository_refresh_tokens.go:72-131 | both rows change or none |
| `RefreshTokens.RefreshTokenRepository.RevokeRefreshTokenByDigest` | internal/auth/infrastructure/repository_refresh_tokens.go:134-157 | revokes that token only, once |
| `RefreshTokens.SessionTokens.LoginTokens` | internal/auth/application/session_tokens.go:24-47 | the login step of the protocol; what the token is good for is `LoginTokenLives` |
| `RefreshTokens.SessionTokens.FindCurrent` | internal/auth/application/session_tokens.go:50-63 | the find step of a refresh |
| `RefreshTokens.SessionTokens.RotateCurrent` | internal/auth/application/session_tokens.go:65-84 | the rotate step of a refresh; what its answers mean is `RotationAnswered` and `SuccessorLives` |
| `RefreshTokens.SessionTokens.EndSession` | internal/auth/application/session_tokens.go:87-98 | the logout step |
| `ResendWindow.MailedTokenIsActive` | internal/auth/application/resend_verification_email.go:66-101 | a mail carries the user's token, usable at that time; no other user's row changes |
| `ResendWindow.UsableTokenIsReused` | internal/auth/application/resend_verification_email.go:66-79 | a token neither consumed nor expired is the one mailed, and its id, secret and expiry stay whatever fails |
| `ResendWindow.OtherTokenIsReplaced` | internal/auth/application/resend_verification_email.go:79-95 | otherwise a delivery carries a new token good for three hours, under the user's row id if there is one |
| `ResendWindow.AnsweredExactly` | internal/auth/application/resend_verification_email.go:47-118 | who is refused, who is sent a mail, and the window after it, in terms of the row and of the calls that fail |
| `ResendWindow.UndeliveredLeaves` | internal/auth/application/resend_verification_email.go:79-114 | a request without a delivery leaves the table as it was, but for a token it had replaced: that row goes after a failed mail if it can be removed, and otherwise stays without a window |
| `ResendWindow.LosesExactly` | internal/auth/application/resend_verification_email.go:47-118 | a row that knows the open window still does after a request iff the request is not one of the two losing kinds; it survives token replacement |
| `ResendWindow.LimitedExactly` | internal/auth/application/resend_verification_email.go:47-64 | with such a row a request is refused iff the open window holds three deliveries |
| `ResendWindow.SixSpanAWindow` | internal/auth/application/resend_verification_email.go:15-18 | with windows of at most three, six deliveries span at least 15 minutes |
| `ResendWindow.AtMostFiveWithin` | internal/auth/application/resend_verification_email.go:15-18 | any half-open 15 minutes hold at most five deliveries |
| `ResendWindow.ResendsBounded` | internal/auth/application/resend_verification_email.go:23-118 | in every run with a monotone clock that loses no window: at most three per fixed window, five in any 15 minutes |
| `ResendWindow.LimitLostExactly` | internal/auth/application/resend_verification_email.go:47-118 | from a row that knows the open window, the limit survives a request and three faultless ones after it iff the request is not a losing one |
| `ResendWindow.LimitHoldsExactly` | internal/auth/application/resend_verification_email.go:23-118 | in every run with a monotone clock no request loses a window iff three per window holds after each event, even if the user then asks three times at once |
| `ResendWindow.LostWindowAllowsFive` | internal/auth/application/resend_verification_email.go:102-109 | a failed send on a replaced token deletes the window: five deliveries in one |
| `ResendWindow.TokenRepository.CreateEmailVerificationToken` | internal/auth/infrastructure/repository_tokens.go:60-122 | the upsert keeps the user's row id and resets its window |
| `ResendWindow.TokenRepository.UpdateVerificationEmailResendWindow` | internal/auth/infrastructure/repository_tokens.go:305-330 | writes the window of the row with that id only |
| `ResendWindow.TokenRepository.DeleteTokenByID` | internal/auth/infrastructure/repository_tokens.go:333-353 | removes the row with that id only |
| `ResendWindow.ResendVerificationEmail` | internal/auth/application/resend_verification_email.go:47-118 | the request, with a fault at any of its calls, changes table and answers as specified |
| `EmailVerification.RunAgrees` | internal/auth/infrastructure/repository_tokens.go:188-262 | over any run a user is verified iff the token in the user's row has been consumed |
| `EmailVerification.MailedTokenVerifies` | internal/auth/application/verify_email.go:13-41 | after a delivery, with nothing else about the user in between, a verification succeeds iff it has the token mailed and comes no later than its expiry |
| `EmailVerification.FirstTokenVerifies` | internal/auth/application/verify_email.go:13-41 | so it does with the token of the registration, for three hours |
| `EmailVerification.OnlyTheTokenVerifies` | internal/auth/application/verify_email.go:13-41 | a user becomes verified only by a verification with the token in the user's row, which is consumed at that time |
| `EmailVerification.VerifiedForEver` | internal/auth/application/resend_verification_email.go:41-44 | a verified user stays verified, is mailed nothing any more, and keeps the row as it is |

## Left out

- Type checking and declaration lookup: `findDecl` is a fixed list of candidate keys on each call; expressions are their concrete types.
- Package loading, suppression comments and file selection of the linter.
- The SQL engine: collation, isolation levels, LIKE wildcards inside subject keywords, time-zone conversion and column rounding. A transaction is atomic and strings are compared exactly.
- HTTP controllers, wiring, seeders, logging, localised messages, list pagination, retry loops and the Redis limiter.
- Gmail, OpenAI, SMTP, JWT and password hashing: their results are parameters. SHA-256 is injective, random ids are fresh.
- Parsing of From headers: sender domain and name are inputs of a target.
- The Unicode case tables: a mapping is any idempotent one that keeps white space and is the known one on ASCII.
- Calls that fail or panic after their write has been committed, and panics of logging and of the clock after a write.
- Floating point: amounts are exact decimals or not finite, so the tolerance of the three-decimals check is exact.
- Currency and month normalisation of the two billing queries; both are given the normalised values.
- Other writers of the vendor tables add vendors, and aliases for vendors of their own user; of the other tables they run the same saves.
- MailFetch.EmailRepository.SaveAllIfAbsent: the check of the email source is left out.
- Email columns other than id and run id, billing columns other than identity, email and dates, and the encoding of recipients.
- BillingStore.BillingRepository.SaveIfAbsent: validation at its start is not repeated, because only validated billings are built (`NewBillingShape`).
- VendorBreakdown.BuildMonthDetailVendorItems: the in-place library sort is a function; its result is the only ranked order.
- VendorPolicy.ResolveSubjectKeyword: the library sort of the copied candidates is a function; the loop after it is modelled.
- LoopDetector.ReportsExactWithoutCycles: without a cycle is enough, not needed; the exact condition for each call is `MemoisedCheck.VerdictExactly`, for each entry `WrongEntries.WrongAfterChecks`.
- ResendWindow.LimitHoldsExactly: requests of one user run one after the other; overlapping requests of the same user can both read the same count.
- VerifyEmail is one step, and its token names the user it was made for; registration failures and user deletion are not modelled.
- Commands without a user id, missing dependencies and analyser creation errors: they end a stage before its first step.
