# Verified model of the ClusterForge job engine and its supporting algorithms

This project models, in Dafny, the parts of the platform whose correctness depends on more than one
function: the native job engine and its receipts, and the self-contained algorithms around it. Code
that changes state step by step is a class or a method with loops, proved against a specification
function; what the system relies on is then proved about that function for every input, every run or
every history. Every file is one module.

## What is modelled

**Job engine.** `JobPlan` is the locked plan and the identity checks of `BuildJob`. `JobController` is the
state machine behind `jobController.handle`: `Handle` is one message, `Apply` adds the watchdog and outside
cancellation, `Run` is any sequence of them, and the class `Controller` has the fields of the source and
methods proved equal to those functions. `JobSafety` proves the invariant of every run. `PlayCompiler` is
`writeJobFiles` together with an interpreter for the plays it emits, in which the gates, the callbacks and
everything the outside world answers are free; `JobExecution` and `JobCompletion` are the two halves of
compiler correctness: what every execution keeps, and exactly when one completes, with timeouts and
cancellations anywhere. `JobOutcome` says exactly which roles run and exactly when the job is reported
successful. `JobPersistence` joins the job to its receipt: no role of an execute stage runs before the
receipt on disk says it has started. `JobStatuses` says what status the callbacks of a run leave to every step,
`JobTallies` that recaps and errors are those of the accepted reports, `JobRefusals` for what reason exactly a
message is refused. `JobRetry` follows a job over any number of resumptions.

**Receipts and rollback.** `RollbackScope` is scope selection by prefix, `ActionReceipt` the durable action map
and the retry rules, which `ReceiptRules` states without its functions, `RollbackSessions` whole histories of rollback and resume sessions with failed stages,
lost or half-acknowledged writes and crashes. `RollbackOrder` is the recovery order with what each group
marks as rolled back, `RollbackSafety` proves what every history keeps without assuming anything about the
baselines that actions captured, and `RollbackBaselines` says what shared baselines change. `JobRecovery` joins
both ends: a run of a compiled job and the rollbacks that follow it.

**Action expansion.** `ActionSteps` and `ActionStepLaws`; `ActionBlocks` says which check stands where.

**Algorithms.** `FileNames`, `Transfers`, `TransferLaws`, `TransferTrips` and `TransferNames` (quota
accounting, resumable uploads, expiry, reader pins, file names); `Walks`, `SeedGraph`, `ScenarioGraph`,
`ScenarioIssues` and `ScenarioPairs` (reachability, edge reduction, cycle detection, causes of issues, duplicate
pairs); `RoleRules`, `IncludeClosure` and `TaskRules` (recursive include validation, and its rules as a relation
on parsed files); `ReleaseLineage`; `Decimals`, `ParameterNumbers`,
`ParameterNumberLaws` and `ParameterValues` (exact JSON numbers, section 6 of RFC 8259, and tree equality);
`BackupScheduler`; `Retention` and `RetentionAges`; `LineStreams`, `BuildOutput`, `RunnerOutput`, `RunnerReturns` and `LogCollector`
(streaming output).

## How the model reads the code

- One message of the job protocol, `handle` followed by its reply, is one atomic step; the code takes the
  lock a second time in between. A nil callback is a callback that always succeeds.
- `bundle.Validate`, `OnBoundary`, `OnEvent`, redaction, the clock, file system results and random identities are
  arguments of the step that meets them, so every theorem holds for all their answers.
- A rejected task event raises inside the Ansible callback plugin, which Ansible reports as a warning; the role
  goes on. The next gate then fails on the recorded failure.
- Loops over Go maps run in any order: the models pick the next key arbitrarily, and what they return is proved
  independent of it. Where only success is independent of the order, the result is a bool.
- The file handle that `Output` returns is not written after `SealOutput`: the store does not enforce it, its
  only caller closes the handle first (internal/mcpserver/invoke.go:132, 161). `Transfers.Produce`, a write
  through that handle, therefore does nothing to a sealed transfer, and `TransferLaws.LivingBytesAreKept` rests on it.
- `LogCollector.Collector.Emit` is one atomic step. The source calls the sink after it has released its lock
  (internal/ansible/runner.go:457-488), so events of two streams may reach the sink in another order than they
  were retained; what is retained, counted and marked is as modelled.
- 64-bit sizes, counters and timestamps are unbounded integers. Exponents of JSON numbers are unbounded in
  the source as well.

## Findings

- `JobSafety.EveryStepProvenYetUnsuccessful`: success implies that every step is proven, but not conversely.
  A deadline that expires while the last stage ends lets the watchdog record a timeout after the stage was
  acknowledged, and the job reports failure.
- `RollbackBaselines.SharedBaselineSkipsARecovery`: a verified rollback marks every original action that captured
  the reference it restored (internal/jobcli/run.go:436-440), so an action can count as rolled back before its own
  recovery ran. Within a session that recovery is still run. But when a request is limited to some instances and
  an action on another one captured the same reference, the rollback completes and the recovery of that action is
  neither offered nor begun ever again: the lemma is a concrete history, and `RollbackBaselines.LeftBehindExactly`
  the exact condition on the plan and the scope. References made at internal/service/rollback_planner.go:147
  name the component and the source node, so in the platform's own plans only actions of one instance share one;
  `RollbackBaselines.WholeInstancesLeaveNothingBehind` and `RestingGroupsFormAPrefix` prove that nothing is lost then.
  `SeparateBaselinesSuffice` is the stronger case: captured references are distinct and nonempty, and every
  recovery names the reference its own source captured.
- `BackupScheduler.DisabledRetryForgets`: a retry that fires while backups are switched off is dropped, and
  switching them on again does not repeat it. `BackupScheduler.StepKeepsCoverExactly` shows that this is the only
  step of the protocol that can forget a requested generation, and `NeverForgetsExactly` says so of whole runs. The
  program itself switches backups off only at internal/backup/repository.go:91, before the loop is started at
  cmd/server/main.go:135; `EveryRequestIsServedUnlessDisabled` covers it without any hypothesis on retries.
- `BackupScheduler.ReasonNeedsRoom`: the comment at internal/backup/scheduler.go:141-142 says a full queue
  only loses duplicate reasons; it can lose the only mention of a reason, though not the snapshot.
- `RunnerOutput.WholeExactlyForShortLines`: the Ansible line writer agrees with splitting the whole stream for every
  way of writing it exactly when no line is longer than a scanner token. `EmittedLosesReturnsExactly`: it drops the
  return at the end of every piece, also where a long line was cut, and nothing else. On the text:
  `RunnerReturns.KeptExactlyWithoutReturns`.
- `ScenarioPairs.NulGraphIsRefused`: the duplicate-pair key joins endpoints with NUL, so a graph of two edges
  between four different nodes is refused for a duplicate pair. `ScenarioPairs.FalseReportsExactly`: this can happen
  exactly when ids a, d, a NUL x and x NUL d are all known for some x, with a different from x NUL d and d
  different from a NUL x, since an edge from a node to itself is not retained.
- `TransferNames.SlashIsAdmitted`: an upload may be named "/", because `filepath.Base("/")` is "/";
  `TransferNames.AdmittedNamesExactly` shows that it is the only name with a slash.

## Model

| member | source | states |
|---|---|---|
| JobPlan.CheckSteps | internal/ansible/job.go:164-254 | accepts a plan exactly when step ids are nonempty and unique within Steps and within Recovery (an id may occur in both) and all timeouts are positive |
| JobController.Controller.HandleMessage | internal/ansible/job_runner.go:352-371 | one message moves the controller and answers exactly as `Handle` and `ReplyTo` say; `run` is set only for the active step asked for |
| JobController.Controller.HandleEvent | internal/ansible/job_runner.go:99-131 | token, heartbeat, failure, abort, initialize, finish and current are decided in that order before any stage message |
| JobController.Controller.HandleStageMessage | internal/ansible/job_runner.go:132-149 | recovery gates pass without effect; otherwise the message must name the next step |
| JobController.Controller.BeginStep | internal/ansible/job_runner.go:150-175 | entering a stage: result appended and deadline set before the begin callback, which may still refuse or be interrupted |
| JobController.Controller.EndStep | internal/ansible/job_runner.go:176-208 | a stage ends only with observations, at least one host, all hosts verified, a valid bundle and an accepted end callback |
| JobController.Controller.HostsVerified | internal/ansible/job_runner.go:184-191 | true exactly when no host failed or was unreachable and, for checks and acceptance stages, an owner task was seen on every host |
| JobController.Controller.Observe | internal/ansible/job_runner.go:209-267 | events are taken only inside the active stage and in unbroken sequence; what is counted before a refusal stays counted |
| JobController.Controller.WatchdogTick | internal/ansible/job_runner.go:393-395 | an expired deadline cancels at once, before the lock is obtained |
| JobController.Controller.Finish | internal/ansible/job_runner.go:427-444 | the controller's failure wins over the phase error; a stage still active is reported failed or cancelled |
| JobSafety.EveryRunIsSafe | internal/ansible/job_runner.go:99-270 | for every sequence of messages, timeouts, callback failures and cancellations: position, results and deadline agree; completed results are proven; accepted events are numbered 1, 2, 3, ...; recaps are their tallies; callbacks alternate begin and end in plan order |
| JobSafety.HandleKeeps | internal/ansible/job_runner.go:99-270 | every single message keeps the controller invariant |
| JobSafety.RunExtends | internal/ansible/job_runner.go:92-98 | callbacks, accepted events and completed results only grow; after the first failure nothing is added and the failure never changes |
| JobSafety.RunRepliesFollowAcceptedBegin | internal/ansible/job_runner.go:150-175 | a reply says `run` only for the step whose begin callback was the last one made and was accepted |
| JobSafety.SuccessMeansEveryStepProven | internal/ansible/job_runner.go:424-458 | a job is successful exactly when nothing failed and every step was acknowledged; then every step is proven, its recap is the tally of its events, and all callbacks were made in order |
| JobSafety.FailureReportsHonestly | internal/ansible/job_runner.go:424-458 | the error is the controller's failure whenever there is one, else that of the phase, else that steps are missing; a report with an error shows no stage as running, as succeeded exactly the proven ones, and the stage at work as cancelled exactly when the caller cancelled and as failed otherwise |
| JobSafety.EveryStepProvenYetUnsuccessful | internal/ansible/job_runner.go:389-400 | concrete run: all steps acknowledged, then a late watchdog failure makes the job unsuccessful |
| JobRefusals.RefusalsExactly | internal/ansible/job_runner.go:99-270 | for every message in every state: it is refused for a reason exactly when that reason applies, and once something failed everything but a heartbeat is answered with that |
| JobRefusals.RefusalsFail | internal/ansible/job_runner.go:92-270 | a refusal is recorded as the failure and cancels; a stranger's message, a heartbeat and whatever follows a failure change nothing |
| JobRefusals.RepliesExactly | internal/ansible/job_runner.go:352-371 | a reply is done once all steps are, and lets a role run exactly when the message begins or asks for the stage at work and is not refused |
| JobRefusals.DeadlinesExactly | internal/ansible/job_runner.go:150-175 | entering a stage sets its deadline to the preparation time, or else its own time, and the accepted begin callback to its own time from then on, in seconds |
| JobTallies.EveryRecapCounts | internal/ansible/job_runner.go:209-267 | in every run: a stage names exactly the hosts reported on, and the ok, changed, failed, unreachable and skipped of a host are the numbers of its accepted reports of that kind |
| JobTallies.EveryErrorIsTheLast | internal/ansible/job_runner.go:235-248 | in every run: the error of the stage at work is that of its last accepted report of a failed task or an unreachable host, and there is none without such a report nor in a completed stage |
| PlayCompiler.WriteJobFiles | internal/ansible/job.go:331-361 | the playbook is initialize, then begin gate, role and end gate per entry of Steps followed by Recovery, then finish |
| JobExecution.CompiledJobIsSafe | internal/ansible/job.go:345-361 | for every outside world: roles run are an initial part of plan.Steps in order, each once, at most one beyond the acknowledged steps; no role of a Recovery entry runs; completion means all steps ran and every one is proven |
| JobExecution.StagesAreSafe | internal/ansible/job.go:345-361 | before every stage of the playbook the machine is either in step with the controller or stopped |
| JobExecution.RecoveryStage | internal/ansible/job_runner.go:132-141 | a Recovery entry passes both gates without its role running and without changing the controller |
| JobExecution.FinishAnswer | internal/ansible/job_runner.go:123-128 | finish is accepted exactly when nothing failed and every step has succeeded |
| JobCompletion.CompletesExactly | internal/ansible/job_runner.go:132-270 | for every outside world: a compiled job completes if and only if every stage is good, no cancellation or missed deadline comes by the begin of any stage, and no missed deadline is acted upon by the watchdog before finish is answered; all of it read off the world, not the controller |
| JobCompletion.CompletesExactlyWhenEveryStageIsGood | internal/ansible/job_runner.go:132-270 | without disturbances only the stages decide: gates acknowledged, events accepted, no host failed, at least one host, owners seen |
| JobCompletion.Disturbed | internal/ansible/job_runner.go:384-401 | ticks, the watchdog's failure and cancellation change nothing but the alarm, in the way the clock and the deadline say |
| JobCompletion.ExactStage | internal/ansible/job_runner.go:149-208 | one stage, whatever disturbs it: it leaves the machine ready for the next, with the alarm its disturbances raise, exactly when it is good and calm, and stopped otherwise |
| JobCompletion.RecoveryExactly | internal/ansible/job_runner.go:132-141 | a Recovery entry passes exactly when the watchdog has not failed the job by its last gate |
| JobOutcome.RolesExactly | internal/ansible/job_runner.go:132-270 | for every outside world: the role of a step runs if and only if every stage before it is good and calm, its own begin is acknowledged with nothing cancelled by then, and the watchdog has not failed the job when the role asks for leave |
| JobOutcome.SuccessExactly | internal/ansible/job_runner.go:389-458 | for every outside world and whatever the watchdog does after the last answer: the job is reported successful if and only if the playbook had no error of its own, every stage is good and calm, and no missed deadline was acted upon until the end |
| JobOutcome.StopsUnfinished | internal/ansible/job_runner.go:99-131 | a playbook that stops has a recorded failure or steps left |
| JobPersistence.RunImpliesStartedPersisted | internal/jobcli/run.go:233-251 | write-ahead: whenever a reply lets the role of an execute stage run, after any sequence of moves and from any receipt, the persisted receipt says `started` for that stage |
| JobPersistence.EveryRoleIsRecorded | internal/jobcli/run.go:404-411 | after any execution of a compiled job every execute stage whose role ran has an entry in the persisted receipt, whether or not a rejected last write landed |
| JobPersistence.EveryRoleCanBeRolledBack | internal/jobcli/run.go:112-121 | after any run of a plan that takes nothing back, the recovery of every execute stage whose role ran is offered to a rollback |
| JobPersistence.RoleHasCallback | internal/ansible/job_runner.go:150-175 | behind every role that ran stands an accepted begin callback of exactly that step, at its place in the order |
| JobStatuses.LastCallbackDecides | internal/jobcli/run.go:404-442 | in every run of a forward plan from an empty map: the last persisted callback about an execute stage decides its status; its begin started, its end main_succeeded, the end of its post check verified |
| JobStatuses.StatusExactly | internal/jobcli/run.go:404-442 | in every run of a forward plan: an execute stage is started exactly when its begin was persisted and its end was not, main_succeeded exactly when its end was and no post check of it has ended, verified exactly when one has |
| JobStatuses.SuccessVerifiesChecked | internal/jobcli/run.go:404-442 | after a successful job every execute stage with a post check is verified, every other one main_succeeded |
| JobRetry.ResumedStages | internal/ansible/job_plugins/cf_recovery.py:15-64 | for any plan: a resumed list is fresh checks followed by every stage from the first one not acknowledged, or from the precheck in front of it; its execute stages are exactly those not acknowledged; a begun action is repeated only if it is declared safe, behind its own precheck or as a rollback |
| JobRetry.RefreshedExactly | internal/ansible/job_plugins/cf_recovery.py:25-43 | the fresh checks are, for each component instance with a refreshable check and nothing left to do, its last such check, and no other |
| JobRetry.EveryExecuteOnce | internal/ansible/job_plugins/cf_recovery.py:46-64 | over any number of attempts and resumptions: the execute stages acknowledged so far followed by those still listed are those of the plan, in order |
| JobRetry.AcknowledgedNeverAgain | internal/ansible/job_plugins/cf_recovery.py:46-64 | an execute stage that was acknowledged in one attempt is in no later list |
| JobRetry.EveryRunIsAnAttempt | internal/ansible/job_runner.go:424-458 | what any run of the controller reports is the result list of such an attempt |
| RollbackScope.SelectRollbackStages | internal/ansible/job_scope_selection.go:7-38 | selects the unique initial part of the stages that consists of exactly the stages of the requested instances; refuses exactly when there is none or the request has empty or repeated names, and says whether it is the names, a requested stage behind one that was not, or an unknown instance |
| RollbackScope.OnlyScope | internal/ansible/job_scope_selection.go:7-38 | a request determines its scope: two scopes for it have the same length |
| ActionReceipt.ReceiptObject.UpdateActionReceipt | internal/jobcli/run.go:404-442 | the new action map: execute stages are started or main_succeeded; a verified post check marks its parent and, after a rollback, its source and every capture of the same baseline |
| ActionReceipt.ReceiptObject.FindParent | internal/jobcli/run.go:415-429 | the first matching execute stage of the running steps, else the original steps, else the recovery |
| ActionReceipt.ReceiptObject.OnBoundary | internal/jobcli/run.go:233-251 | the receipt after one boundary callback: results listed at begin, replaced at end, actions updated |
| ReceiptRules.MarkedExactly | internal/jobcli/run.go:404-442 | what one boundary marks: an execute stage itself, started or main_succeeded; at the end of a post check its parent as verified and, where that takes something back, the source and every original action that captured the parent's baseline as rolled back; nothing else |
| ReceiptRules.ParentIsFirstMatch | internal/jobcli/run.go:415-429 | the parent of a check is the first execute stage on its node, with the action it names, recovering the same action, among the running stages, then the original ones, then the recovery |
| ReceiptRules.SucceededExactly | internal/jobcli/run.go:279-290 | a plan has succeeded exactly when it has stages and the last result of each says so |
| ReceiptRules.NotResumedExactly | internal/ansible/job_plugins/cf_recovery.py:46-64 | resuming is refused for a reason exactly when it applies to the first stage that has not succeeded |
| ReceiptRules.RunAgainExactly | internal/ansible/job_plugins/cf_recovery.py:14-43 | in front of a resumed list stand exactly the last repeatable checks of the finished instances, as standalone checks under a name that says so, one each |
| ActionReceipt.AllStagesSucceeded | internal/jobcli/run.go:279-290 | true exactly when the plan is nonempty and the last result of every step is a success |
| ActionReceipt.TouchedStages | internal/jobcli/run.go:112-121 | the recovery stages whose source has a status other than rolled_back, in order |
| RollbackSessions.TouchedAfter | internal/jobcli/run.go:112-121 | once exactly the sources in a set are rolled back, the touched stages are the former ones without theirs |
| RollbackSessions.TouchedShape | internal/jobcli/run.go:112-121 | filtering keeps execute and post stages of a recovery together and in order |
| RollbackSessions.LiveSessionsAreDurable | internal/jobcli/run.go:233-251 | as long as a session goes on, what it remembers is what is on disk |
| RollbackSessions.OpenedExactly | internal/jobcli/run.go:97-166 | a request is admitted exactly when it resumes a rollback that can be resumed, or rolls back something, within scope, while no rollback is unfinished; it then starts a further attempt at the same plan with the same statuses and no results, and otherwise changes nothing |
| RollbackSessions.AttemptsAreOpenings | internal/jobcli/run.go:195-199 | after every history the attempts on record are counted by the admitted requests whose receipt reached the disk |
| RollbackSafety.RollbackSelectsNext | internal/jobcli/run.go:108-131 | an accepted rollback request runs the next groups that are still to be rolled back, whole groups of them; every group ahead of one of them is among them or rolled back |
| RollbackSafety.ResumeContinues | internal/ansible/job_plugins/cf_recovery.py:46-64 | resuming a rollback runs exactly the stages not acknowledged yet, in order, whichever of a group comes first |
| RollbackSafety.BoundaryKeeps | internal/jobcli/run.go:233-251 | a boundary callback, saved, lost or saved without acknowledgement, keeps the rollback invariant |
| RollbackSafety.VerifiedGroupsDecideTheReceipt | internal/jobcli/run.go:404-442 | for any plan, after any history of sessions, failures, lost writes and crashes: the durable receipt has rolled back exactly what a set of verified groups clears, every group ahead of a verified one is among it, and what a further rollback is offered is exactly the rest of the order |
| RollbackSafety.HistoryKeeps | internal/jobcli/run.go:97-263 | the invariant of the stored receipt and of the running session holds after every history |
| RollbackSafety.NoGroupStartsEarly | internal/jobcli/run.go:108-131 | for any plan: whenever an execute stage is about to begin, the receipt on disk has every group before it in the order rolled back |
| RollbackSafety.SessionsAreControllerRuns | internal/jobcli/run.go:252-264 | the callbacks and results assumed of a session are those of a controller run over its stages |
| RollbackSafety.PostEndVerifies | internal/jobcli/run.go:412-441 | the verified post check of a group marks its source and the captures of the reference it restored, and no other source |
| RollbackBaselines.RestingGroupsFormAPrefix | internal/jobcli/run.go:404-442 | when references are shared only within instances, every history that comes to rest has rolled back exactly an initial part of the order, and the rest is what is offered |
| RollbackBaselines.RolledBackGroupsFormAPrefix | internal/jobcli/run.go:404-442 | when every recovery restores only what its own source captured, this holds after every history, also in the middle of one |
| RollbackBaselines.EveryGroupStartsInTurn | internal/jobcli/run.go:108-131 | under the same condition, when an execute stage is about to begin the receipt on disk has exactly the groups ahead of it rolled back |
| RollbackBaselines.LeftBehindExactly | internal/jobcli/run.go:112-121 | after the rollback of an accepted scope, a group outside it is no longer offered if and only if a group of the scope restored a reference its source captured; then no later history begins it |
| RollbackBaselines.WholeScope | internal/jobcli/run.go:108-264 | an undisturbed rollback of an accepted scope verifies exactly the groups of the scope and comes to rest |
| RollbackBaselines.WholeInstancesLeaveNothingBehind | internal/jobcli/run.go:112-131 | with references shared only within instances no group is left behind by any scope |
| RollbackBaselines.SharedBaselineSkipsARecovery | internal/jobcli/run.go:436-440 | concrete history: two nodes sharing a reference, one rolled back; nothing is offered for the other, whose recovery never ran and never begins |
| RollbackBaselines.SeparateBaselinesSuffice | internal/jobcli/run.go:430-441 | distinct, nonempty captured references, each named by the recovery of the action that captured it, give every recovery its own baseline |
| RollbackBaselines.MarksOnlyItsSourceExactly | internal/jobcli/run.go:430-441 | a verified rollback marks nothing but its own source if and only if every other original step that captured the same reference is rolled back already |
| JobRecovery.OfferedUntilRolledBack | internal/jobcli/run.go:112-121 | after any run of a forward plan and any history of rollbacks, with any baselines: the recovery of an execute stage whose role ran is offered exactly as long as that stage is not rolled back |
| JobRecovery.FullRollbackUndoesTheRun | internal/jobcli/run.go:97-264 | after any run of a forward plan and any history of rollbacks that rests with nothing offered, references being shared only within instances: the whole order is rolled back, and with it every execute stage whose role ran and that has a recovery |
| Transfers.TransferStore.CreateUpload | internal/mcpserver/transfers.go:123-152 | admission: name and digest form, then file, total and count quotas; the size is reserved |
| Transfers.TransferStore.WriteChunk | internal/mcpserver/transfers.go:161-193 | a chunk is appended, accepted as an exact replay, or refused; a partial write keeps what was stored |
| Transfers.TransferStore.FinishUpload | internal/mcpserver/transfers.go:194-221 | complete only with full length and matching digest; idempotent |
| Transfers.TransferStore.OpenCompleted | internal/mcpserver/transfers.go:225-243 | only complete transfers are opened, each opening adds a reader |
| Transfers.TransferStore.DeleteTransfer | internal/mcpserver/transfers.go:245-264 | refused while a reader holds the transfer; otherwise its size is released |
| Transfers.TransferStore.SweepExpired | internal/mcpserver/transfers.go:265-273 | removes exactly the expired, unread, unlinkable transfers and releases exactly their sizes |
| Transfers.TransferStore.SealOutput | internal/mcpserver/transfers.go:310-341 | the reservation shrinks to the sealed size and the digest is that of the bytes |
| TransferTrips.CreateExactly | internal/mcpserver/transfers.go:123-152 | an upload is admitted exactly when name and digest are well formed, the quotas have room and its file can be made; it then has what was asked for and can be used by its owner for one hour from then, and no longer; otherwise nothing changes and the first reason is the answer |
| TransferTrips.DigestsAreThirtyTwoBytes | internal/mcpserver/transfers.go:126-131 | a digest is accepted exactly when it writes 32 bytes in lower-case hexadecimal |
| TransferTrips.WriteExactly | internal/mcpserver/transfers.go:161-193 | which reason refuses a chunk, in turn: unknown or expired, form and limits of 1 MiB and the announced size, the file, overlap, different bytes; a chunk at the end is stored as far as the disk takes it |
| TransferTrips.FinishExactly | internal/mcpserver/transfers.go:194-221 | complete exactly with the announced length and digest; each refusal exactly for its reason |
| TransferTrips.OpenExactly | internal/mcpserver/transfers.go:225-243 | opening answers the bytes exactly for a complete transfer within its hour, and counts one reader more |
| TransferTrips.DeleteExactly | internal/mcpserver/transfers.go:245-264 | a transfer goes exactly when it is within its hour, unread and can be unlinked |
| TransferTrips.OutputExactly | internal/mcpserver/transfers.go:295-308 | the allowance of a result is admitted as an anonymous transfer of the whole file limit for one hour, and withdrawn when it cannot be opened again |
| TransferTrips.SealExactly | internal/mcpserver/transfers.go:310-341 | sealing sets the size, the last element of the name, the media type and the digest of the bytes, and gives back what was not used |
| TransferTrips.SweepExactly | internal/mcpserver/transfers.go:265-273 | a sweep takes exactly what has expired, is unread and can be unlinked, with what it had reserved |
| TransferTrips.UploadArrives | internal/mcpserver/transfers.go:123-243 | the whole trip: an upload sent in any chunks within the hour is accepted chunk by chunk, finishes, and opens on exactly the bytes that were sent |
| TransferLaws.EveryRunKeepsTheBooks | internal/mcpserver/transfers.go:123-341 | after any calls: reserved is the sum of live sizes, at most 1024 transfers, uploads hold exactly their accepted chunks in order, complete ones full length and digest, readers match the open handles |
| TransferLaws.UploadsRespectTheQuota | internal/mcpserver/transfers.go:136-152 | in every reachable state, also after limits were lowered, an admitted upload leaves the total within the limit now in force; a refusal changes nothing |
| TransferLaws.OutputsRespectTheQuota | internal/mcpserver/transfers.go:295-308 | the same for the allowance of Output, which is given back when the file cannot be opened |
| TransferLaws.OwnersAreIsolated | internal/mcpserver/transfers.go:153-159 | a call by one owner neither changes, removes nor creates a transfer of another |
| TransferLaws.LivingBytesAreKept | internal/mcpserver/transfers.go:161-221 | while an entry lives its uploaded bytes are only extended, and once complete bytes, size and digest are fixed |
| TransferLaws.ReplayChangesNothing | internal/mcpserver/transfers.go:177-189 | a chunk behind the end changes nothing and is accepted exactly when it repeats the stored bytes |
| TransferLaws.NextChunkExtends | internal/mcpserver/transfers.go:190-192 | a chunk at the end extends the upload by exactly what reached the disk |
| TransferLaws.PinnedTransferSurvives | internal/mcpserver/transfers.go:223-273 | until its release, an opened transfer survives every deletion and sweep with its bytes |
| TransferNames.AdmittedNamesExactly | internal/mcpserver/transfers.go:126 | a name is admitted exactly when it is not empty, not a dot, free of backslash, return, newline and NUL, and without a slash or the slash itself |
| TransferNames.SlashIsAdmitted | internal/mcpserver/transfers.go:126 | an upload named "/" is admitted whenever the quotas allow it |
| TransferNames.NamesAreElements | internal/mcpserver/transfers.go:123-341 | after any calls every transfer has a nonempty name that contains a slash only if it is the slash, whatever names were asked for when sealing |
| FileNames.BaseIsLastElement | internal/mcpserver/transfers.go:126 | the base of a path is the name behind its last slash, whatever slashes trail it |
| FileNames.BaseOfNothing | internal/mcpserver/transfers.go:126 | the base of nothing is a dot, and of nothing but slashes a slash |
| SeedGraph.SeedReachable | internal/seed/seed.go:479-499 | true exactly when a path exists, a node reaching itself |
| SeedGraph.CombineEdges | internal/seed/seed.go:462-477 | reachability is exactly that of all edges together, dependency edges stay in order, the result is a subsequence of the edges not implied when offered, and no sequence edge is implied by the others |
| SeedGraph.EveryKeptSequenceIsNeeded | internal/seed/seed.go:467-476 | taking out any kept sequence edge loses reachability |
| SeedGraph.StillNeeded | internal/seed/seed.go:467-476 | an edge once found necessary stays necessary when later edges are removed |
| ScenarioGraph.ValidateNodes | internal/domain/domain.go:591-608 | the known ids and the node issues, in order |
| ScenarioGraph.ValidateEdges | internal/domain/domain.go:609-651 | the edge issues in order, and tables holding the retained edges with their multiplicity |
| ScenarioGraph.CountRetired | internal/domain/domain.go:652-672 | every node is retired exactly when the retained edges contain no cycle; the order of retirement is topological |
| ScenarioGraph.ValidateGraph | internal/domain/domain.go:586-674 | returns exactly `IssuesOf`, with a cycle issue exactly for a cyclic graph; without issues a topological numbering of all nodes exists |
| ScenarioGraph.IssuesAreExact | internal/domain/domain.go:586-674 | no issue if and only if the graph is sound; the cycle issue if and only if the retained edges are cyclic |
| ScenarioGraph.RetireOne | internal/domain/domain.go:662-667 | retiring a node takes exactly its own edges off each target's count, duplicates included |
| ScenarioGraph.SomeLeft | internal/domain/domain.go:670-672 | nodes left when the queue is empty lie on or behind a cycle |
| ScenarioIssues.ReportedExactlyForCause | internal/domain/domain.go:586-674 | each kind of issue is reported exactly for what causes it: which node or edge has it, with which id |
| ScenarioIssues.IssuesAreOrdered | internal/domain/domain.go:586-674 | what is wrong with one node or edge is reported once each, in a fixed order |
| ScenarioPairs.KeysAgreeExactly | internal/domain/domain.go:644-648 | two edges have one key exactly when they join the same nodes or overlap across a NUL |
| ScenarioPairs.ReportedExactly | internal/domain/domain.go:644-648 | an edge is reported as a duplicate pair exactly when an earlier retained edge joins the same nodes or overlaps with it |
| ScenarioPairs.FalseReportsExactly | internal/domain/domain.go:644-648 | over given ids some graph has an edge reported as a duplicate that duplicates nothing, if and only if ids a, d, a NUL x and x NUL d are all known for some x, neither edge being one from a node to itself |
| ScenarioPairs.NothingFalseWithoutNul | internal/domain/domain.go:644-648 | as long as no id contains NUL, no edge is reported as a duplicate that duplicates nothing |
| ScenarioPairs.PairsTellEndpointsApart | internal/domain/domain.go:644-648 | the key of two edges whose sources have no NUL agrees exactly when they join the same nodes |
| ScenarioPairs.NulGraphIsRefused | internal/domain/domain.go:586-674 | a graph whose two edges join four different nodes has a duplicate pair among its issues |
| Walks.GoingBackComesRound | internal/domain/domain.go:652-672 | a finite set in which every node has a predecessor contains a cycle |
| IncludeClosure.IncludeWalk.ValidateEntry | internal/ansible/role_validation.go:206-227 | succeeds exactly when every file reachable by includes is sound, none is being visited and the reachable include graph is acyclic; the visiting set is restored |
| IncludeClosure.IncludeWalk.ValidateTask | internal/ansible/role_validation.go:53-148 | a task passes exactly when its own rules hold, its nested tasks pass and its includes are good |
| IncludeClosure.IncludeWalk.ValidateTaskEntry | internal/ansible/role_validation.go:73-146 | one keyword: its rule, its nested block, and its include with apply and file |
| IncludeClosure.GoodUnfolds | internal/ansible/role_validation.go:206-227 | checking file by file with a set of files being visited decides exactly closure and acyclicity |
| IncludeClosure.AcceptedEntryIsClosed | internal/ansible/role_validation.go:47-152 | after acceptance every task at every depth of every reachable file obeys the rules of its mode, and no reachable file includes itself |
| IncludeClosure.SoundListObeys | internal/ansible/role_validation.go:47-152 | a sound list has only tasks obeying the rules, in blocks, under always and behind apply as well |
| IncludeClosure.ValidateTaskTargetAttributes | internal/ansible/task_targets.go:25-64 | accepts exactly tasks without connection changes whose delegations resolve to locked hosts |
| IncludeClosure.ValidateRoleTaskTargets | internal/ansible/task_targets.go:66-100 | a reset role passes exactly when hosts are locked and the entry and every handler file are good on walks of their own |
| TaskRules.AcceptedExactly | internal/ansible/role_validation.go:206-227 | a role entry is accepted exactly when every file that its tasks lead to, in any number of steps through `include_tasks` or `import_tasks`, lies in the role, exists, has only lawful tasks, and does not lead back to itself |
| TaskRules.ArrowsAre | internal/ansible/role_validation.go:111-136 | a file leads to exactly those that its tasks at any depth, in `block`, `always`, `args` and `apply`, name after `include_tasks` or `import_tasks`, with or without a builtin prefix |
| TaskRules.LawfulFileIs | internal/ansible/role_validation.go:19-52 | a file is sound exactly when it is one nonempty list of tasks, without aliases or unsafe lookups anywhere, all of whose tasks at any depth are lawful |
| TaskRules.EntryIsLawful | internal/ansible/role_validation.go:73-146 | the rules of one entry of a task, keyword by keyword: what is refused, what must be false, what a name or a local file may be, what a check may not do |
| TaskRules.TargetsAreLawful | internal/ansible/task_targets.go:25-64 | a reset task keeps its own connection and delegates, if at all, to itself or to locked hosts |
| ReleaseLineage.CheckLinks | internal/backup/restore.go:479-506 | accepts exactly when parents exist in the same component and line, templates in the same component, and no two retained releases share a parent |
| ReleaseLineage.CheckChains | internal/backup/restore.go:507-514 | accepts exactly acyclic parent maps |
| ReleaseLineage.ValidateLineage | internal/backup/restore.go:479-514 | accepts exactly both |
| ReleaseLineage.AcceptedExactly | internal/backup/restore.go:479-514 | accepted exactly when every parent is another release of the same component and line, every template another one of the same component, no two retained releases share a parent, and following parents never comes round |
| ReleaseLineage.EveryReleaseHasARoot | internal/backup/restore.go:479-514 | in an accepted catalog following parents reaches a root in fewer steps than there are releases, in one component and line |
| ReleaseLineage.RetainedLineIsLinear | internal/backup/restore.go:492-497 | retained releases do not branch: two with a common ancestor and retained releases below it are one above the other |
| ParameterNumbers.NormalizeParameterNumber | internal/domain/catalog_parameters.go:126-152 | computes the normal form of exactly the texts of the JSON number grammar |
| ParameterNumbers.ParseIsSound | internal/domain/catalog_parameters.go:15 | what is accepted is a well-formed literal written exactly so |
| ParameterNumbers.ParseReadsBack | internal/domain/catalog_parameters.go:15 | every well-formed literal is accepted and read back: the grammar is unambiguous |
| ParameterNumberLaws.AcceptedExactlyByTheGrammar | internal/domain/catalog_parameters.go:15 | a text is valid exactly when the grammar of RFC 8259 section 6 produces it |
| ParameterNumberLaws.NormalDenotesValue | internal/domain/catalog_parameters.go:126-152 | digits and exponent denote exactly the value written, by place value, for exponents of any size |
| ParameterNumberLaws.CanonicalIsUnique | internal/domain/catalog_parameters.go:123-125 | two canonical forms denoting the same number are the same form |
| ParameterNumberLaws.SameFormIffSameValue | internal/domain/catalog_parameters.go:63-65 | two literals normalize alike if and only if their values are equal |
| ParameterNumberLaws.SameTextsIffSameNumber | internal/domain/catalog_parameters.go:56-66 | number comparison holds exactly for two valid numbers with equal values |
| ParameterNumberLaws.ExponentDecidesInteger | internal/domain/catalog_parameters.go:32-38 | the exponent is non-negative if and only if the value is an integer |
| ParameterValues.EqualIffSameMeaning | internal/domain/catalog_parameters.go:56-101 | two trees are equal if and only if all their numbers are valid and they are structurally equal with numbers replaced by exact values |
| ParameterValues.EqualityIsPartialEquivalence | internal/domain/catalog_parameters.go:56-101 | equality is symmetric and transitive, and reflexive exactly on trees with valid numbers |
| ParameterValues.SameKeys | internal/domain/catalog_parameters.go:77-87 | equal sizes and key inclusion mean equal key sets |
| ParameterValues.ContainsParameterValue | internal/domain/catalog_parameters.go:47-54 | true exactly when some candidate is equal |
| ParameterValues.IntegerTypeIsExact | internal/domain/catalog_parameters.go:17-45 | "integer" matches exactly the valid numbers with an integral value |
| ParameterValues.TypesExactly | internal/domain/catalog_parameters.go:17-45 | every other type matches exactly the values of its own JSON kind, "number" only valid ones; null has no other type, and an unknown type matches everything else |
| ParameterValues.EqualValuesShareTypes | internal/domain/catalog_parameters.go:17-101 | equal values match the same types |
| BackupScheduler.StepKeepsCoverExactly | internal/backup/scheduler.go:130-231 | a step forgets what was requested exactly when it is a retry dropped while disabled with nothing queued and something missing |
| BackupScheduler.NeverForgetsExactly | internal/backup/scheduler.go:130-231 | for every schedule, every failure and a queue that may be full: the highest requested generation stays covered throughout a run if and only if every retry of it is kept |
| BackupScheduler.EveryRequestIsServedUnlessDisabled | internal/backup/scheduler.go:130-231 | in every run in which backups are not switched off, whether or not they are on at the start, every requested generation is covered at the end, and backed up once the loop is idle with an empty queue |
| BackupScheduler.SuccessCoversThePast | internal/backup/scheduler.go:170-182 | a success that captured after a state backs up everything published before it, whoever took the snapshot |
| BackupScheduler.OneRoundServesTheQueue | internal/backup/scheduler.go:198-220 | left alone, one round takes one snapshot with every queued reason and leaves nothing behind |
| BackupScheduler.ReasonNeedsRoom | internal/backup/scheduler.go:138-143 | a new reason is queued exactly when there is room; the generation is covered either way |
| BackupScheduler.EveryReasonIsExplained | internal/backup/scheduler.go:130-231 | in every run a pending reason was asked for while backups were on, or is "retry-after-failure" and a snapshot of the loop has failed; the loop is retrying only then, and at most 64 requests wait |
| BackupScheduler.FailureIsRetried | internal/backup/scheduler.go:213-229 | a failed snapshot of the loop backs nothing up and is requested again, if backups are on and there is room |
| BackupScheduler.CallersLeaveTheLoopAlone | internal/backup/scheduler.go:170-182 | a snapshot of a caller, failed or not, changes neither the loop nor its queue |
| BackupScheduler.DisabledRetryForgets | internal/backup/scheduler.go:221-229 | concrete run in which a dropped retry leaves a published generation without a snapshot to come |
| BackupScheduler.Scheduler.Request | internal/backup/scheduler.go:130-144 | nothing when disabled, a lossy send otherwise |
| BackupScheduler.Scheduler.EndSnapshot | internal/backup/scheduler.go:170-182 | success records the captured generation; a failure of the loop's own snapshot leads to a retry |
| Retention.PruneLocalSnapshots | internal/backup/manager.go:488-529 | for any list: what stays is exactly the manifests whose id is that of a snapshot to be kept; with distinct ids that is `Pruned` |
| Retention.KeptExactly | internal/backup/manager.go:488-529 | a snapshot stays exactly when it is recent, or the newest success of one of the first 14 days with one, or of the first 8 weeks; a partial one only for seven days |
| RetentionAges.StaysExactly | internal/backup/manager.go:488-529 | in ages and dates: a partial snapshot stays for seven days; a success for 24 hours, and beyond as the newest of its date while fewer than 14 newer dates have one, or of its week from Monday while fewer than 8 newer weeks have one |
| RetentionAges.PrunedById | internal/backup/manager.go:519-529 | for any list: a manifest stays exactly when some manifest with its id would by those ages and dates |
| Retention.PruningForgetsNothing | internal/backup/manager.go:488-529 | pruning what an earlier pruning left together with newer snapshots leaves what one pruning of everything would |
| Retention.EveryRunIsOnePruning | internal/backup/manager.go:488-529 | after any number of snapshot-and-prune rounds the snapshots left are those of a single pruning of the whole history |
| Retention.NewestSuccessStays | internal/backup/manager.go:507-511 | the newest success is never pruned |
| Retention.OldSuccessesAreBounded | internal/backup/manager.go:504-517 | at most 22 successes older than a day are left, however long the history |
| ActionSteps.ExpandActionSteps | internal/service/action_steps.go:11-91 | returns exactly `Expand`: the first failure, or the blocks of all steps |
| ActionStepLaws.EveryStepBecomesItsBlock | internal/service/action_steps.go:13-89 | an ordinary action becomes pre, execute, post, a rollback execute and post, a check itself; the checks belong to the body and inherit its inputs, a rollback's defaulted post check those of the action undone; a bound check is never missing |
| ActionBlocks.EveryStepExpandsRight | internal/service/action_steps.go:13-89 | for every planned step: the block of its action, the check named as its pre in front and the one named as its post behind; or the one reason, in turn, why it is not planned |
| ActionBlocks.EveryActionExpandsRight | internal/service/action_steps.go:38-89 | a rollback becomes its body and the check that verifies it, with its own inputs or, without a post check of its own, with those of the action it undoes |
| ActionBlocks.VerifiesExactly | internal/domain/action_bindings.go:78-92 | a rollback is verified by its own post check, or else by the precheck of the install, upgrade or configure action that it undoes, if these are checks of the release |
| ActionBlocks.ContractExactly | internal/domain/action_bindings.go:29-73 | which releases may be planned: ids, kinds at most once but for checks, bindings to checks of the release, and for more than a check an install and a rollback |
| ActionStepLaws.ExpansionIsBlocksInOrder | internal/service/action_steps.go:13-89 | a plan expands exactly when every step does, to the blocks in the order of the steps |
| ActionStepLaws.ExpandingTwiceIsExpandingOnce | internal/service/action_steps.go:14-17 | expanding an expanded plan is the identity, whatever the store has become |
| ActionStepLaws.OrdinaryBindings | internal/domain/action_bindings.go:29-73 | in a release with complete bindings every ordinary action names two checks that exist |
| ActionStepLaws.SyncActionCheckContext | internal/service/action_steps.go:95-124 | in place: every check gets the context of the body with its key, everything else stays |
| ActionStepLaws.SyncingTwiceIsSyncingOnce | internal/service/action_steps.go:95-124 | syncing is idempotent |
| ActionStepLaws.EveryCheckSharesItsBody | internal/service/action_steps.go:101-123 | every check ends with the backup of the last body with its key, and with its variables; one that a rollback took over keeps its own, apart from those named clusterforge_backup_ and clusterforge_replaced_, which are the body's |
| ActionStepLaws.LastBodyExists | internal/service/action_steps.go:95-100 | every key of a body has such a last body |
| ActionStepLaws.KeysTellApart | internal/service/action_steps.go:95-107 | with source nodes free of NUL two keys agree exactly when source node and action do |
| ActionStepLaws.OtherStepsStay | internal/service/action_steps.go:95-124 | a step that is no check, or a check of no body in the list, stays as it is |
| ActionStepLaws.ExpandedChecksShareTheirBody | internal/service/action_steps.go:11-124 | expanding and then syncing gives each check of an action the backup of that action's body |
| LineStreams.MoreBytes | internal/imagebuild/docker.go:108-130 | more bytes only continue the unfinished line |
| LineStreams.OneLine | internal/imagebuild/docker.go:108-130 | what stands before a newline is one line, what follows is split alike |
| BuildOutput.LineOutput.Write | internal/imagebuild/docker.go:108-130 | the emitted messages, the bounded buffer and the mark are those the bytes so far determine, however they arrived |
| BuildOutput.LineOutput.Flush | internal/imagebuild/docker.go:131-144 | the end of the stream stands for the newline of an unfinished line: the messages are those of all lines, the buffer is empty and the mark cleared |
| BuildOutput.RunCommand | internal/imagebuild/docker.go:67-75 | for every split into writes the report is that of splitting the whole stream |
| BuildOutput.MessagesAreBounded | internal/imagebuild/docker.go:131-139 | every line has one message: a line within 16384 bytes itself without a final return, of a longer one its first 16384 bytes without a final return, and " [truncated]" behind them |
| RunnerOutput.LineWriter.Write | internal/ansible/runner.go:361-378 | emits the completed lines, then full pieces of an overlong rest |
| RunnerOutput.RunPhase | internal/ansible/runner.go:292-321 | one stream of a phase, in whatever writes it arrives: the events are those of the pieces the writes lead to, with the rest emitted at the flush |
| RunnerOutput.BufferIsBounded | internal/ansible/runner.go:372-376 | between writes the buffer has no newline and at most one token |
| RunnerOutput.WholeExactlyForShortLines | internal/ansible/runner.go:361-392 | streaming equals splitting the whole stream for every split exactly when no line exceeds a token |
| RunnerOutput.LongLineBreaks | internal/ansible/runner.go:372-376 | a longer line arriving in a write of its own comes out in more pieces than lines |
| RunnerOutput.NoByteIsLost | internal/ansible/runner.go:361-387 | before returns are trimmed: whatever the splits and lengths, the pieces hold every byte but the newlines, in order |
| RunnerOutput.EmittedLosesReturnsExactly | internal/ansible/runner.go:361-392 | each event is its piece without one return at its end, wherever the piece was cut: the events hold every byte but the newlines exactly when no piece ends in a return, and otherwise lack one return for each that does |
| RunnerReturns.KeptExactlyWithoutReturns | internal/ansible/runner.go:361-392 | every way of writing a text emits all its bytes but the newlines, if and only if no line of it ends in a return or has one just before a multiple of the token size inside it |
| LogCollector.Collector.Emit | internal/ansible/runner.go:457-488 | what fits is kept and passed on, the first line that does not is replaced for the sink by one marker at its place; truncated exactly when the total exceeds the budget |
| LogCollector.FittingIsPart | internal/ansible/runner.go:463-466 | everything is kept exactly when the total fits |
| LogCollector.FittingIsBounded | internal/ansible/runner.go:463-466 | what is kept never exceeds the budget |

## Left out

- The Ansible processes, the socket and JSON codec, the Python side apart from what the gates and callbacks
  send and what retrying selects, wall-clock tickers, credentials, media preparation and host previews.
- Error texts, timestamps, durations and redaction of results; `TimedOut` and `Canceled` of a job result. The two
  error texts of the loop over hosts are one refusal, `TargetNotVerified`.
- `BuildJob` and `OpenJob` apart from step identity and timeouts: sources, digests, inventories and runtime identity.
- The standalone launcher's choice of operation from its arguments. `plan.Metadata` parents are arbitrary.
- Digests, JSON and YAML decoding, regular expressions, path cleaning and SHA-256 are parameters or parsed trees; in
  `IncludeClosure` the choice between a path beside the including file and one below tasks is a function of both,
  fixed while one walk lasts.
- `validateTasks` without an include function, role variable files, and collection checks.
- Transfer entries are values in a map; a release function acts on its entry by identity, which the source keeps
  only through a pointer. `Close` at shutdown, the directory lock and start-up cleanup are not modelled.
- `scenarioGraph`'s choice of dependency sources: the dependency edges are an input of `CombineEdges`, since building them
  adds only lookups and one error.
- Scheduler shutdown, switching the manager, status times, and trimming and defaulting of reasons.
- RollbackSafety.VerifiedGroupsDecideTheReceipt: assumes a recovery made of execute and post groups with distinct sources and
  ids disjoint from the original steps, as internal/service/role_jobs.go:106-172 builds it.
- RollbackBaselines.RolledBackGroupsFormAPrefix: assumes that a recovery restores only what its own source captured; without
  that `VerifiedGroupsDecideTheReceipt` is what holds, and `SharedBaselineSkipsARecovery` shows the difference.
- JobStatuses.StatusExactly: assumes a plan that takes nothing back and whose post checks stand behind the stages they check,
  as expansion builds it; `LastCallbackDecides` says what holds wherever they stand.
- JobTallies.EveryRecapCounts: says nothing of the stage at work once something failed, whose last report may be counted and
  yet refused; `JobSafety.EveryRunIsSafe` and `JobController.Controller.Observe` say what is kept.
- Retention.PruneLocalSnapshots: takes the calendar date and ISO week as numbers of days and weeks since the epoch; removing a
  directory is assumed to succeed. The laws about `Pruned` assume distinct backup ids.
- ActionStepLaws.ExpandedChecksShareTheirBody: assumes unique keys of source node and action among the bodies; without them
  `EveryCheckSharesItsBody` names the body that counts.
- TransferLaws.LivingBytesAreKept: assumes that the handle of `Output` is not written after sealing.
- Fields of run plan steps that expansion only copies, credentials, tags, playbooks and digests of releases.
- Row checks of catalog restore before the links, environment constraints and option values.
- Formatting of Go integers and floats to text before they are compared as numbers.
- Sensitive-value search, parameter defaults and validation of resolved parameters: single-branch lookups.
- HTTP routing, storage, Git, the web application, deployment scripts and example roles.
