# Verification of the agent platform's stateful core

A Dafny model of the parts of the repository that carry state, with proofs of what they keep
over whole runs.

* **Asynchronous tasks.** `TaskProtocol` is the task manager as a transition system: submitters,
  the worker, status subscribers, recovery, stop and crash, each with a program counter; a run
  is a list of actions. `TaskInvariants` and `TaskTheorems` prove what every reachable state
  satisfies, `TaskLife`, `TaskReplay` and `TaskStarts` when a task is executed once and when
  twice and when statuses move forward only, `TaskStorage` when the dictionary and the ORM
  agree, `TaskCache` and `TaskSync` when memory and table do, `TaskAnswers` what clients are
  told. `TaskStore` and `TaskManager` are the classes themselves; every method is proved to take
  exactly the protocol's steps.
* **Sessions.** `AuthModel` states what each call does to users, refresh-token rows and the
  chain of tokens of a session; `AuthTheorems` proves rotation over all sequences of calls,
  `AuthCleanup` that cleaning up is unobservable, `AuthAnswers` who is granted what;
  `AuthService` is the repository and service.
* **Caches.** `ToolModel`, `ToolTheorems` and `ToolHub`: the idempotency cache against running
  the tools. `SkillCenter`: the skill cache against the files. `SessionMemory`: windows against
  the history of each session. `Keys` says when composite keys collide.
* **Sequences and texts.** `Words`, `TokenBudget`, `PromptContext`: budgets. `Ranking`,
  `Knowledge`: stable ranking and search. `Ingestion`, `ChunkTable`: chunking and upserting.
  `Versions`, `VersionText`, `NamedVersions`, `Dicts`, `SkillContext`: choosing versions and
  merging skills.

`dafny verify dfyconfig.toml` checks the whole project.

What the proofs found in the code, each with its exact condition in the table:

* Recovery enqueues every unfinished task again, also when the queue survived the crash, or when
  its submission is still in the (Redis) enqueue call after a stop and a start; so a task can be
  executed twice (`AtMostOnceIffCleanStart`, `RestartDuringSubmitRunsTwice`). This is where a
  status goes from terminal back to running, against the flow in `docs/开发手册.md:167`
  (`ForwardIffCleanStart`), where the two storage branches part (`StoragesAgreeIffNoRerun`), and
  where memory and an ORM table come to differ, against the rule in `docs/开发手册.md:94`
  (`InSyncIffCleanStart`). Between recovery and pick-up memory and table also differ on a task
  whose row says running (`CacheFaithfulIff`).
* Re-ingesting a shorter text keeps the old tail (`LastUploadReplacesIff`); in memory the old
  chunks stay as well (`ListMatchesTableIffNotResent`).
* Version comparison is not transitive on mixed versions (`TransitiveIffNotStraddled`); the
  skill listed is the newest exactly if there is a newest (`ListedIsNewestIff`,
  `NewestExistsIff`).
* Skill ids with an underscore or a colon can share a file or a cache entry
  (`FaithfulIffClean`); tenant and user ids with a colon can share a memory window
  (`SessionKeysCollide`, `ReadsItsOwnIff`).

Abstractions: task ids, stream ids, user, session and token ids are numbers of which only
equality is used, and fresh when drawn. Signing, hashing, password hashing and JSON are
injective. The orchestrator and the tools are arbitrary functions that return or raise.
`str.lower`, the sentence splitter, file paths and directory listings are parameters. Clocks and
drawn ids are arguments of the call. Python's unbounded integers are Dafny's.

## Model

| member | source | states |
|---|---|---|
| `TaskTheorems.InvInductive` | app/workers/task_worker.py:60-226 | every step of every coroutine, stops and crashes included, keeps the fifteen-part invariant the theorems below rest on |
| `TaskTheorems.ReachableInv` | app/workers/task_worker.py:60-226 | it holds in every state reachable from a boot over any well-formed table and any leftover queue, by any interleaving |
| `TaskTheorems.NoMissedTerminalEvent` | app/workers/task_worker.py:128-162 | whoever is registered on a finished task has had a terminal snapshot put into its queue, or the worker has yet to take its tuple or to put to this subscriber; in every reachable state, also across stops |
| `TaskTheorems.DrainedLeavesNobodyWaiting` | app/workers/task_worker.py:128-205 | worker idle, queue empty, no submit in flight: every subscriber still listening has an unread item, and a terminal one among those put |
| `TaskTheorems.UnfinishedTasksAreCovered` | app/workers/task_worker.py:86-100 | at least once, across stops and crashes at any point and whether the queue survives: while the manager is up, each unfinished task with a readable request is queued, held, about to be recovered or enqueued, or its enqueue raised |
| `TaskTheorems.OnlyFinishedIdsAreDropped` | app/workers/task_worker.py:178-180 | the worker discards an id only when its row is terminal or its stored request does not parse |
| `TaskTheorems.WorkerRunsThePersistedRequest` | app/workers/task_worker.py:185-186 | the request handed to the orchestrator is the one persisted at submission, also after recovery |
| `TaskAnswers.WorkerRunsTheSubmittedRequest` | app/workers/task_worker.py:82-97 | at any later time, after any stops and crashes, what the worker runs for a task is the request it was submitted with |
| `TaskAnswers.RunAnswers` | app/workers/task_worker.py:185-204 | when the orchestrator has returned or raised, memory and table both hold just that (the response and its trace id, or the error text); for a task never run before the whole status answer, with and without the envelope, is that and nothing else |
| `TaskAnswers.FinishedRowHoldsLastOutcome` | app/workers/task_worker.py:185-204 | over whole runs with any stops, crashes and repeated runs: a finished row holds the outcome of the last run of its task, and a row whose task was not run is as it was |
| `TaskAnswers.CreateAnswers` | app/workers/task_worker.py:82-97 | after a submission the answer is queued without outcome, from memory and from the table, both with the request |
| `TaskAnswers.PickAnswers` | app/workers/task_worker.py:182-183 | after a pick-up it is running on both sides, without outcome unless the task was run before |
| `TaskAnswers.RecoverAnswers` | app/workers/task_worker.py:218-222 | after recovery it is queued without outcome, whatever was known |
| `TaskAnswers.UnknownAnswer` | app/workers/task_worker.py:115-117 | the answer for an id nobody knows |
| `TaskAnswers.AnswerUnchanged` | app/workers/task_worker.py:102-126 | no other action changes what is answered for a task |
| `TaskAnswers.SubscribeAnswers` | app/workers/task_worker.py:130-134 | a stream begins with exactly the answer of the moment, unread; no other stream changes |
| `TaskAnswers.PutAnswers` | app/workers/task_worker.py:160-162 | a publication appends the answer of the moment to the streams of its tuple and to no other |
| `TaskAnswers.UpdateKeepsOrClears` | app/storage/repositories/task_repo.py:66-88 | a field not given stays in the dictionary and is cleared by the ORM; a field given is stored by both; nothing else changes |
| `TaskAnswers.RecoverableOldestFirst` | app/storage/repositories/task_repo.py:120-132 | the tasks to recover stand in the order in which they were created |
| `TaskTheorems.EnvelopeIsAFaithfulCache` | app/workers/task_worker.py:102-126 | for a task never executed again after finishing, over either storage and across crashes: forgetting its envelope changes no status answer, exactly unless it was recovered while the table says running and waits for pick-up; then only the status differs |
| `TaskSync.CacheFaithfulIff` | app/workers/task_worker.py:102-126 | for every task, also one executed again: over the dictionary the same condition is exact; over the ORM the two answers agree exactly if also the envelope carries no outcome but that of its status |
| `TaskSync.PickOfFinishedAgreesIff` | app/storage/repositories/task_repo.py:67-87 | picking up a finished task leaves memory and table in agreement if and only if the table is the dictionary |
| `TaskSync.InSyncIffCleanStart` | docs/开发手册.md:94 | from every state in which the manager can be started: memory and table give the same answer for every task that does not await pick-up, whenever the worker is suspended, in every run up to the next stop or crash, if and only if the table is the dictionary, or no envelope is stale, nothing waits twice and nothing finished waits |
| `TaskSync.InSyncIffQueueClean` | docs/开发手册.md:94 | after a boot: if and only if the table is the dictionary or the queue found holds no unfinished task |
| `TaskSync.DirtyQueueGoesOutOfSync` | docs/开发手册.md:94 | from every boot of the ORM over such a queue there is a run to a suspended worker with a task on which memory and table differ |
| `TaskCache.StoredInductive` | app/workers/task_worker.py:182-204 | what memory and table say of outcomes, by storage, is kept by every step |
| `TaskTheorems.StreamShape` | app/workers/task_worker.py:128-141 | a stream starts with the snapshot at subscription, speaks of its task only, and yields at most one terminal item, which closes it |
| `TaskTheorems.StreamNeverGoesBack` | app/workers/task_worker.py:151-162 | unless the visible status of its task moved backwards, what is put into a stream never does: after running no queued, after a terminal status only terminal ones |
| `TaskTheorems.SubscribersAreTheOpenStreams` | app/workers/task_worker.py:131-149 | `_subscribers` is exactly the relation of tasks to streams that have not left; no empty set stays, so the key goes with the last stream |
| `TaskLife.OnceInductive` | app/workers/task_worker.py:80-226 | in a life no step lets a known task wait twice |
| `TaskLife.LifeInductive` | app/workers/task_worker.py:80-226 | the whole invariant of the first life after a boot is kept by every step but stop and crash |
| `TaskLife.LifeBegins` | app/workers/task_worker.py:60-66 | a start from any stopped state in which nothing is named twice establishes it |
| `TaskLife.LifeExecutesAtMostOnce` | app/workers/task_worker.py:164-205 | in such a life no task is executed twice |
| `TaskLife.LifeIsFifo` | app/workers/task_worker.py:98-98 | in every state, since any point of the history: what was enqueued is, in this order, what was executed, dropped or lost, what is held and what is queued; and so as multisets |
| `TaskLife.QuietMeansExactlyOnce` | app/workers/task_worker.py:164-205 | when the system is quiet each known task whose enqueue did not raise has been executed exactly once |
| `TaskLife.StepForwardIff` | docs/开发手册.md:167 | by any action in any state, stops and crashes included, every row keeps its status or moves queued, running, completed or failed, exactly unless the worker picks up a task whose row is terminal |
| `TaskLife.LifeMovesForward` | docs/开发手册.md:167 | in a life that began with nothing named twice and nothing finished waiting every step moves forward |
| `TaskStarts.ForwardIffCleanStart` | docs/开发手册.md:167 | from every state in which the manager can be started: every run up to the next stop or crash moves every status forward if and only if no task is named twice by the queue, the rows to recover and the submitters still to enqueue, and no finished one is named |
| `TaskStarts.ForwardIffQueueClean` | docs/开发手册.md:167 | after a boot: if and only if the queue found holds no unfinished task |
| `TaskStarts.FinishedWaitingGoesBack` | docs/开发手册.md:167 | a finished task that waits has a run that takes its status back to running |
| `TaskStarts.ForwardRunsSettle` | app/workers/task_worker.py:164-205 | as long as rows move forward, what was executed is finished and was executed once |
| `TaskLife.OutcomeMatchesStatus` | app/workers/task_worker.py:185-204 | a row has a result iff it is completed, an error iff it failed, and the trace id of its result |
| `TaskLife.DrainingTerminates` | app/workers/task_worker.py:164-205 | any run of worker steps alone is bounded by the work left |
| `TaskLife.WorkerStopsOnlyWhenDrained` | app/workers/task_worker.py:166-177 | the worker has no step to take exactly when it is idle over an empty queue |
| `TaskStarts.AtMostOnceIffCleanStart` | app/workers/task_worker.py:60-66 | from every state in which the manager can be started, after a boot or after a stop: every run up to the next stop or crash executes each task at most once if and only if no task the worker will know is named twice by the queue, the rows to recover and the submitters still to enqueue |
| `TaskStarts.AtMostOnceIffQueueClean` | app/workers/task_worker.py:207-226 | after a boot: if and only if the queue found holds no unfinished task |
| `TaskStarts.RestartDuringSubmitRunsTwice` | app/workers/task_worker.py:68-100 | from every boot, whatever the queue, a run that stops and starts the manager while a submission is in its enqueue call and executes the task twice |
| `TaskStarts.DirtyStartRunsTwice` | app/workers/task_worker.py:223-226 | from any start that names a task twice there is a run that recovers, ends a pending enqueue, drains the queue and executes the task twice |
| `TaskReplay.RecoveringRun` | app/workers/task_worker.py:207-226 | recovery when nothing raises appends exactly the readable unfinished tasks, in order, and makes exactly them known |
| `TaskReplay.DrainingRun` | app/workers/task_worker.py:164-205 | the worker alone serves the first n of the queue, executing the ids it knows and dropping the others, in order, and the envelope of each executed one holds exactly the outcome |
| `TaskStarts.DrainingExecutesExactlyOnce` | app/workers/task_worker.py:164-205 | within a life over a clean queue that run executes each known task exactly once |
| `TaskStarts.TwiceMeansRerun` | app/workers/task_worker.py:178-183 | in any reachable state, across any stops and crashes, a task executed twice was picked up while its row was terminal |
| `TaskStorage.StoragesAgreeIffNoRerun` | app/storage/repositories/task_repo.py:58-88 | the merging dictionary and the overwriting ORM hold equal tables at every step of a run if and only if the run never picks up a task whose row is terminal |
| `TaskStorage.DirtyQueueSeparatesStorages` | app/storage/repositories/task_repo.py:74-87 | such runs that separate them exist from every boot over a queue holding an unfinished task |
| `TaskInvariants.RecoverableSpec` | app/storage/repositories/task_repo.py:120-132 | the recoverable tasks are exactly the listed rows that are not terminal, each once |
| `TaskInvariants.AtLeastOnceInductive` | app/workers/task_worker.py:86-100 | no step leaves an unfinished task without someone to execute it |
| `TaskInvariants.KnownInductive` | app/workers/task_worker.py:210-222 | the worker will find an envelope for each unfinished task |
| `TaskInvariants.DeliveredInductive` | app/workers/task_worker.py:151-162 | no step leaves a registered subscriber of a finished task untold |
| `TaskInvariants.RegisteredInductive` | app/workers/task_worker.py:131-149 | the subscriber sets stay exact and non-empty |
| `TaskInvariants.StreamsOkInductive` | app/workers/task_worker.py:130-141 | the shape of streams is kept |
| `TaskInvariants.MonotoneInductive` | app/workers/task_worker.py:151-162 | puts keep ascending as long as the visible status does |
| `TaskInvariants.StatusAgreesInductive` | app/workers/task_worker.py:182-204 | memory and table keep agreeing on the status, but for recovered tasks waiting for pick-up |
| `TaskInvariants.OutcomeAgreesInductive` | app/workers/task_worker.py:185-204 | memory and table keep agreeing on result and error |
| `TaskInvariants.ConservedInductive` | app/workers/task_worker.py:98-98 | what went into the queue stays accounted for, in order |
| `TaskStore.TaskRepository.Create` | app/storage/repositories/task_repo.py:35-56 | the table gains the row, last in the order of creation |
| `TaskStore.TaskRepository.UpdateStatus` | app/storage/repositories/task_repo.py:58-88 | the whole table is the specified update of the old one, by either storage branch; an unknown id changes nothing |
| `TaskStore.TaskRepository.ListRecoverable` | app/storage/repositories/task_repo.py:120-132 | the loop returns the unfinished tasks, oldest first |
| `TaskStore.QueueBackend.Enqueue` | app/workers/queue_backend.py:30-32 | appends the id; a fault raises, having stored the item or not |
| `TaskStore.QueueBackend.Dequeue` | app/workers/queue_backend.py:34-39 | takes the oldest id, or times out on an empty queue and changes nothing |
| `TaskManager.TaskManager.GetStatus` | app/workers/task_worker.py:102-126 | answers from memory, else from the table, else with the synthetic failure |
| `TaskManager.TaskManager.SubmitCreate` | app/workers/task_worker.py:82-97 | memory and table change together exactly as the protocol's create step |
| `TaskManager.TaskManager.SubmitEnqueue` | app/workers/task_worker.py:98-98 | the push step, or, on a fault, the step that leaves the task persisted and records the failed enqueue |
| `TaskManager.TaskManager.SubmitTakeTuple` | app/workers/task_worker.py:154-158 | the subscribers registered now, taken in one step; none ends the submit |
| `TaskManager.TaskManager.SubmitPublish` | app/workers/task_worker.py:160-162 | the snapshot is put to each subscriber of the tuple and to no other |
| `TaskManager.TaskManager.PutIntoAll` | app/workers/task_worker.py:161-162 | the loop over the tuple puts the item to exactly these streams, in any order |
| `TaskManager.TaskManager.SubscribeStatus` | app/workers/task_worker.py:130-134 | registration and first snapshot are one step |
| `TaskManager.TaskManager.NextStatus` | app/workers/task_worker.py:136-141 | yields the next item; a terminal one ends the stream |
| `TaskManager.TaskManager.CloseStream` | app/workers/task_worker.py:142-149 | leaves the set and drops the key with the last subscriber |
| `TaskManager.TaskManager.WorkerPick` | app/workers/task_worker.py:178-183 | drops an unknown id; else marks running in memory and table at once |
| `TaskManager.TaskManager.WorkerExecute` | app/workers/task_worker.py:185-204 | envelope and row hold what the orchestrator returned, with its trace id, or the error it raised |
| `TaskManager.TaskManager.WorkerServes` | app/workers/task_worker.py:178-205 | publish, execute, publish: the worker is idle again, one more execution is logged, and envelope and row hold what the orchestrator returned or raised on the envelope's request |
| `TaskManager.TaskManager.WorkerTurn` | app/workers/task_worker.py:166-205 | one turn: the head of the queue is dropped, or marked running and finished, in memory and in the table, as the next row says |
| `TaskManager.TurnHolds` | app/workers/task_worker.py:182-204 | a turn on a known id leaves in memory and table what the orchestrator returned or raised on its request, and everything else as it was |
| `TaskManager.TaskManager.WorkerLoop` | app/workers/task_worker.py:164-205 | the loop, until a dequeue times out, empties the queue: each id it knows is executed and each other dropped, in order, and each executed one holds, in memory and in the table, what the orchestrator returned or raised on its request |
| `TaskManager.DrainedHolds` | app/workers/task_worker.py:164-205 | so it is after any sequence of turns |
| `TaskManager.TaskManager.RecoverOne` | app/workers/task_worker.py:210-226 | one row, however its enqueue ends: skipped when unreadable, else given a fresh queued envelope with its stored request; queue, failed enqueues and memory are stated |
| `TaskManager.TaskManager.RecoverEnqueue` | app/workers/task_worker.py:223-226 | an enqueue that raises, before or after storing the id, is swallowed and the walk goes on; the failure is recorded |
| `TaskManager.TaskManager.LoadEnvelope` | app/workers/task_worker.py:211-222 | a row that is gone or unreadable is skipped; any other replaces whatever envelope there was |
| `TaskManager.TaskManager.RecoverPendingTasks` | app/workers/task_worker.py:207-226 | the walk, whichever enqueues raise: the queue grows by exactly the readable tasks whose enqueue stored them, oldest first; memory and failed enqueues are stated |
| `TaskManager.TaskManager.Start` | app/workers/task_worker.py:60-66 | nothing when there is a worker; else recovery first, whichever enqueues raise, then an idle worker over the old queue and behind it the recovered ids, oldest first |
| `TaskManager.RecoveredOldestFirst` | app/storage/repositories/task_repo.py:126-131 | what recovery puts into the queue stands there in the order of creation |
| `TaskManager.TaskManager.Stop` | app/workers/task_worker.py:68-78 | sets the flag; if there is a worker, cancels it where it is suspended and drops the handle; an item on its way out of the queue is lost |
| `TaskManager.TaskManager.StaysReachable` | app/workers/task_worker.py:60-226 | a method that takes a step of the protocol keeps the object in a reachable state |
| `TaskManager.EnqueuedWithoutFaults` | app/workers/task_worker.py:210-226 | when no enqueue raises, recovery enqueues every readable unfinished task |
| `AuthTheorems.InvInductive` | app/auth/service.py:64-230 | every call keeps the invariant on chains, rows, issued tokens and users |
| `AuthTheorems.AtMostOneLiveToken` | app/auth/service.py:147-149 | a session has at most one unrevoked refresh token, the newest of its chain, after any sequence of calls |
| `AuthTheorems.OneOwnerPerSession` | app/auth/service.py:213-220 | all rows of a session carry the tenant and user it was opened for |
| `AuthTheorems.RedeemedAtMostOnce` | app/auth/service.py:120-149 | no token id is ever exchanged twice |
| `AuthTheorems.RefreshAcceptsExactlyTheLiveToken` | app/auth/service.py:120-149 | a refresh succeeds if and only if it is given the live token of a session, in time by both clocks, while its user is active |
| `AuthTheorems.RefreshRotates` | app/auth/service.py:147-149 | a granted refresh retires the token given and makes the new one the only live link at the end of the same session's chain |
| `AuthTheorems.ClosedForever` | app/auth/service.py:120-157 | a session without a live token is never granted anything again, by any continuation |
| `AuthTheorems.LogoutClosesExactlyTheLiveSession` | app/auth/service.py:151-157 | a logout closes a session if and only if it is given a token with the id of its live row, before the token's expiry claim |
| `AuthTheorems.LogoutEndsTheSession` | app/auth/service.py:151-157 | after that no continuation refreshes the session |
| `AuthTheorems.OnlyActiveUsersAreGranted` | app/auth/service.py:111-118 | whoever is granted tokens is a stored user with that role who is active at that moment |
| `AuthAnswers.LoginGrantedIff` | app/auth/service.py:108-118 | a login is granted if and only if the name is known, that user is active, and the stored hash was made of this very password |
| `AuthAnswers.LoginAnswers` | app/auth/service.py:108-118 | a grant carries that user's tenant, id and role and the new session; each refusal has its error and leaves no trace in the store |
| `AuthAnswers.RefreshRefusals` | app/auth/service.py:120-149 | a refused refresh answers the first reason in the order of the checks, and leaves no trace in the store |
| `AuthAnswers.DisabledUserGetsNothing` | app/storage/repositories/auth_repo.py:132-152 | once a user's status is set to anything but active, no login or refresh in any continuation gives that user a token until the next update of the user |
| `AuthAnswers.AccessTokenTells` | app/auth/service.py:159-211 | the access token of a grant decodes to its tenant, user, role and session from the grant up to its lifetime to the second, never after it, and never passes as a refresh token |
| `AuthAnswers.FreshTokenIsAccepted` | app/auth/service.py:182-220 | a refresh token is accepted, its user being active, up to its lifetime after the grant to the second, and never from its end on |
| `AuthAnswers.CreatedUser` | app/storage/repositories/auth_repo.py:42-78 | a created user is stored under tenant and name with what was given, and nobody else changes |
| `AuthAnswers.UpdatedUser` | app/storage/repositories/auth_repo.py:132-152 | an update changes the fields given of the one user, an empty text counting as not given, and nothing else |
| `AuthCleanup.CleanedRunAgrees` | app/storage/repositories/auth_repo.py:241-249 | the simulation: a store that cleans and one that never does, step by step over a whole run |
| `AuthCleanup.CleanupIsUnobservable` | app/storage/repositories/auth_repo.py:241-249 | under a clock that never goes back, with cleanups inserted anywhere, exactly the same calls are granted; every answer, errors included, is the same when clients present only tokens issued to them |
| `AuthCleanup.CleanupMirrors` | app/storage/repositories/auth_repo.py:241-249 | a cleanup keeps the two stores in correspondence |
| `AuthService.AuthRepository.GetUserById` | app/storage/repositories/auth_repo.py:93-99 | the scan finds the one user with this id, in whatever order it goes |
| `AuthService.AuthRepository.UpdateUser` | app/storage/repositories/auth_repo.py:123-152 | the loop replaces exactly the record of that user, missing or empty values keeping the old ones |
| `AuthService.AuthRepository.CleanupExpiredRefreshTokens` | app/storage/repositories/auth_repo.py:241-249 | the deletion loop leaves exactly the rows that expire later than now |
| `AuthService.AuthService.Cleanup` | app/storage/repositories/auth_repo.py:241-249 | a cleanup leaves a store that lacks only rows that have expired |
| `AuthService.AuthRepository.CreateBootstrapAdminIfNeeded` | app/storage/repositories/auth_repo.py:259-272 | existing user, first user of an empty store, or refusal: the three cases with their effects |
| `AuthService.AuthService.IssueTokens` | app/auth/service.py:177-230 | one new live row and one more link of the session's chain, and the response for it |
| `AuthService.AuthService.Login` | app/auth/service.py:108-118 | new state and answer are those of the login operation, the checks in their order; granted exactly for the credentials stored |
| `AuthService.AuthService.DecodeAccessToken` | app/auth/service.py:159-175 | signature and expiry first, then the type; the context is read off the claims |
| `AuthService.AuthService.Refresh` | app/auth/service.py:120-149 | new state and answer are those of the refresh operation, the checks in their order |
| `AuthService.AuthService.Logout` | app/auth/service.py:151-157 | new state and answer are those of the logout operation |
| `ToolTheorems.CacheRefinesDirectExecution` | app/agents/executor.py:40-94 | under a fresh trace id any list of steps gives the same actions (statuses, outputs, errors) through the cache as by running the tools, and leaves the hub in order |
| `ToolTheorems.StepsAgree` | app/agents/executor.py:40-94 | the same, step by step, for a cache holding anything of other traces |
| `ToolTheorems.InvokeAgrees` | app/tools/hub.py:47-96 | one invocation gives what running the tool gives, hit or miss |
| `ToolTheorems.KeyInjective` | app/agents/executor.py:52-53 | the key determines trace, tool and parameters when trace ids and tool names are free of colons |
| `ToolTheorems.DeniedNeverReachesTheCache` | app/tools/hub.py:53-67 | a denied role gets the same error whatever is cached, and changes only the counters |
| `ToolTheorems.AtMostOneRunPerKey` | app/tools/hub.py:58-95 | over any sequence of execute calls with fresh traces each key has at most one successful run of an idempotent tool |
| `ToolTheorems.InvokeKeepsHub` | app/tools/hub.py:47-96 | cache, runs and audit trail stay in step |
| `ToolHub.ToolHub.InvokeTool` | app/tools/hub.py:47-96 | result and whole new hub are those of the invocation that ToolGetsItsParameters and OtherAnswers describe case by case |
| `ToolHub.ExecutorAgent.ExecutePlan` | app/agents/executor.py:18-94 | the loop performs the steps in order on the one hub and gives one action for each tool step, denials and errors included |
| `ToolHub.ExecutorAgent.PrepareParams` | app/agents/executor.py:44-50 | the parameters of a step, for which the next row says what a lookup finds |
| `ToolTheorems.StepParamsAt` | app/agents/executor.py:44-50 | under each parameter the tool finds the override's value, else the step's own, else, for a database call and its confirmation parameter, the policy's flag |
| `ToolTheorems.LookupIff` | app/agents/executor.py:44-50 | looking up a parameter finds the value stored under it, if there is one |
| `ToolTheorems.StepCallCarries` | app/agents/executor.py:52-64 | the call of a step carries its tool, the context, its parameters and the hash of trace, tool and parameters |
| `ToolTheorems.ToolGetsItsParameters` | app/tools/hub.py:69-96 | a tool that is run gets the call's own parameters and, where these have none, tenant, user and role under their names; its output is answered, recorded with these parameters and kept if idempotent; what it raises is raised and nothing recorded |
| `ToolTheorems.OtherAnswers` | app/tools/hub.py:49-67 | unknown tools, denied roles and hits: the answer of each, and the one counter it moves |
| `ToolTheorems.SecondCallHits` | app/tools/hub.py:58-67 | the same call again gives the same output and audit reference from the cache, without a run |
| `ToolTheorems.ActionReports` | app/agents/executor.py:66-93 | the action of a call reports output and reference, or the error under the code of its kind |
| `ToolTheorems.OneActionPerToolStep` | app/agents/executor.py:29-43 | one action for each tool step in order; with automatic execution off the gate's alone and the hub untouched |
| `Words.SplitOfJoin` | app/context/token_budget.py:20-21 | splitting what joining words with spaces made gives the words back |
| `Words.SplitAtSpace` | app/context/manager.py:30-30 | a whitespace character separates the words on its two sides |
| `Words.StripCuts` | app/storage/repositories/knowledge_repo.py:53-53 | stripping takes whitespace off both sides, all of it and nothing else |
| `Words.SplitStrip` | app/storage/repositories/knowledge_repo.py:53-86 | and changes no word |
| `Words.JoinSpaces` | app/context/token_budget.py:21-21 | words are joined by single spaces |
| `Words.AsciiSpaces` | app/context/token_budget.py:13-20 | which ASCII characters separate words |
| `TokenBudget.TruncateKeepsPrefix` | app/context/token_budget.py:16-21 | the words left are the first ones of the text, as many as the budget allows, at least one |
| `TokenBudget.TruncateFits` | app/context/token_budget.py:16-21 | the estimate of the result is within the budget, one token being always let through |
| `TokenBudget.TruncateIdempotent` | app/context/token_budget.py:16-21 | truncating twice is truncating once |
| `TokenBudget.EstimateCounts` | app/context/token_budget.py:10-14 | a text counts its words, one of whitespace alone counts one and no text none |
| `TokenBudget.SliceKeepsFront` | app/context/summarizer.py:11-11 | a cut keeps the first n elements, or all but the last -n |
| `TokenBudget.TruncateLeavesOrCuts` | app/context/token_budget.py:16-21 | a text within the budget stays as it is, any other becomes its first words with single spaces |
| `TokenBudget.SummarizeLeavesOrCuts` | app/context/summarizer.py:6-11 | a text within the limit stays as it is, any other becomes its first words and the mark |
| `TokenBudget.SummarizeKeepsPrefix` | app/context/summarizer.py:6-11 | a summary has the first words of the text and one more that marks the cut |
| `TokenBudget.SummarizeIdempotentIff` | app/context/summarizer.py:6-11 | summarizing twice is summarizing once, for every text, if and only if the limit is at least -1 |
| `PromptContext.ContextWithinBudgetPlusOne` | app/context/manager.py:14-33 | at most one word over the budget if and only if the budget is not negative, and then exactly one over when the sections did not fit |
| `PromptContext.LeadingSectionsSurvive` | app/context/manager.py:22-33 | leading sections that fit the budget together keep all their words, in order, at the front |
| `PromptContext.ContextIsAPrefix` | app/context/manager.py:30-33 | what is left of the sections is a prefix of their words |
| `PromptContext.ContextComposesOrCuts` | app/context/manager.py:22-33 | within the budget the context is every layer under its own label in the fixed order; otherwise the first words of that and the mark |
| `PromptContext.Assemble` | app/prompts/assembly.py:45-61 | the prompt is within max(max_tokens, 1), is the rendered text when that fits, and keeps a prefix of its words otherwise |
| `PromptContext.RenderedSections` | app/prompts/assembly.py:97-102 | the rendered prompt is every text under its label, the same with and without the template library but for two labels and the last line break |
| `PromptContext.SelectedInOrder` | app/prompts/assembly.py:73-73 | all skills are listed when forced, else the first of them |
| `PromptContext.SkillLineTells` | app/prompts/assembly.py:79-81 | a skill's line has its name first and its path last |
| `PromptContext.ToolLineTells` | app/prompts/assembly.py:91-94 | a tool's line has its name and purpose first and its roles last |
| `PromptContext.ToolsSection` | app/prompts/assembly.py:85-95 | one line for each tool, in order |
| `PromptContext.SkillsSection` | app/prompts/assembly.py:63-82 | one line for each selected skill, in order, descriptions cut to forty words |
| `PromptContext.DescriptionsAreShort` | app/prompts/assembly.py:76-78 | a listed description is the first words, at most forty, of the item's own |
| `Ranking.StableRankingUnique` | app/storage/repositories/knowledge_repo.py:86-94 | there is one listing of the matching chunks by descending score with ties in insertion order |
| `Ranking.SortIsStableRanking` | app/storage/repositories/knowledge_repo.py:87-93 | the collect-and-sort computes it |
| `Ranking.ContainsIffOccurs` | app/storage/repositories/knowledge_repo.py:90-90 | a token is in a content if and only if it stands there at some place |
| `Ranking.ScoreCountsHits` | app/storage/repositories/knowledge_repo.py:90-90 | the score is the number of query tokens that occur in the content |
| `Knowledge.AnswerUnique` | app/storage/repositories/knowledge_repo.py:80-94 | a query has one answer, so two implementations that meet the specification agree on every input |
| `Knowledge.NoOmittedChunkPrecedes` | app/storage/repositories/knowledge_repo.py:93-94 | a matching chunk that was cut off stands after every chunk returned, and something is cut only when the limit is reached |
| `Knowledge.TenantsAreIsolated` | app/storage/repositories/knowledge_repo.py:56-57 | chunks of other tenants, wherever they stand in the store, change no answer |
| `Knowledge.InTenantOf` | app/rag/store.py:27-27 | a tenant sees of a store what it would see of one holding its own chunks alone |
| `Knowledge.SortAnswers` | app/storage/repositories/knowledge_repo.py:86-94 | sorting the scored chunks and cutting them answers the query |
| `Knowledge.AnswersFind` | app/storage/repositories/knowledge_repo.py:83-94 | an answer holds only chunks in which a word of the query occurs, in the order of how many do, and all of them when the limit has room; without words, the first chunks |
| `Knowledge.InTenantCounts` | app/storage/repositories/knowledge_repo.py:56-56 | a tenant sees its own chunks, all of them, as often as they are there |
| `Knowledge.InTenantConcat` | app/storage/repositories/knowledge_repo.py:56-56 | in the order in which the store holds them |
| `Knowledge.KnowledgeRepository.Search` | app/storage/repositories/knowledge_repo.py:51-57 | the in-memory search gives the one answer of the specification: the chunks of the tenant in which a word of the query occurs, best first, cut at the limit; empty queries and negative limits included |
| `Knowledge.KnowledgeRepository.Rank` | app/storage/repositories/knowledge_repo.py:80-94 | the scoring loop, the sort and the cut give that answer |
| `Knowledge.KnowledgeStore.Search` | app/rag/store.py:21-37 | the store's own ranking gives the same answer, with or without a repository behind it |
| `Knowledge.KnowledgeStore.AddChunks` | app/rag/store.py:14-19 | chunks go to the repository if there is one, else to the store's list, after those held |
| `Ingestion.DecimalInjective` | app/rag/ingestion.py:32-32 | two indices never print alike |
| `VersionText.DecimalReads` | app/rag/ingestion.py:32-32 | the index is printed as the decimal number it is |
| `Ingestion.ChunkIdInjective` | app/rag/ingestion.py:32-32 | a chunk id determines source and index, whatever characters the source id has |
| `Ingestion.PiecesCoverText` | app/rag/ingestion.py:28-29 | the pieces put together are the text, none empty, none but the last short |
| `Ingestion.PiecesCount` | app/rag/ingestion.py:28-29 | there are ceil(length / size) of them |
| `Ingestion.CutKeepsTextIff` | app/rag/ingestion.py:28-29 | the fallback keeps the whole text if and only if the size is positive or there is no text; a negative size silently cuts nothing |
| `Ingestion.IngestionPipeline.IngestText` | app/rag/ingestion.py:19-42 | raises exactly for size 0 without a splitter; else gives the pieces in order under their ids and indices |
| `Ingestion.IngestionPipeline.CutEvenly` | app/rag/ingestion.py:28-29 | the range loop, for either sign of the size |
| `ChunkTable.ChunkRepository.AddChunks` | app/storage/repositories/knowledge_repo.py:27-49 | the batch fails, changing nothing, if and only if a key the table lacks occurs in it twice; else the table is that of upserting chunk after chunk |
| `ChunkTable.ChunkRepository.Commit` | app/storage/repositories/knowledge_repo.py:49-49 | changed rows are written and new ones inserted, all or nothing |
| `ChunkTable.UploadCommits` | app/rag/ingestion.py:31-41 | what ingestion makes never fails that way, over any table |
| `ChunkTable.TableHoldsTheLayers` | app/storage/repositories/knowledge_repo.py:27-49 | after any uploads to any sources the table holds of each source exactly its texts laid one over the other, and no other row of it |
| `ChunkTable.LastUploadReplacesIff` | app/storage/repositories/knowledge_repo.py:27-49 | the last text is all that is left of its source if and only if no earlier one had more pieces |
| `ChunkTable.ShorterTextLeavesTheTail` | app/storage/repositories/knowledge_repo.py:46-48 | a shorter text over a longer one leaves exactly the longer one's tail from the first piece not overwritten |
| `ChunkTable.UploadTwice` | app/storage/repositories/knowledge_repo.py:46-48 | uploading a text again changes nothing in the table |
| `ChunkTable.ListMatchesTableIffNotResent` | app/storage/repositories/knowledge_repo.py:23-25 | the in-memory list, which only appends, holds each row of the table with its contents exactly once and nothing else if and only if no source was sent two non-empty texts |
| `ChunkTable.ListEnumeratesTableIff` | app/storage/repositories/knowledge_repo.py:23-25 | a list holds each row of its table with its contents exactly once and nothing else if and only if no key occurs in it twice |
| `Versions.NumericOrder` | app/skills/center.py:85-88 | on numeric versions the comparison is a strict weak order; ties have the same numbers |
| `VersionText.NewerIffWins` | app/skills/center.py:87-88 | of two versions written with numbers the newer is the one that wins at the first difference, a missing number losing |
| `VersionText.NumbersOfDotted` | app/skills/center.py:88-88 | a version written with numbers and dots has exactly these numbers |
| `VersionText.SplitUndone` | app/skills/center.py:88-88 | splitting at dots loses nothing and leaves no dot |
| `VersionText.IntReads` | app/skills/center.py:88-88 | a printed integer is read back, with whitespace around it and with a plus sign as well |
| `VersionText.UnderscoreSkipped` | app/skills/center.py:88-88 | an underscore between digits is skipped |
| `VersionText.UnderscoreOutside` | app/skills/center.py:88-89 | one at the beginning or the end makes it no number |
| `Versions.VersionGtAsymmetric` | app/skills/center.py:85-90 | no two versions are each newer than the other, whatever they are |
| `Versions.TransitiveIffNotStraddled` | app/skills/center.py:85-90 | it is transitive on a set of versions if and only if no non-numeric one stands, as a text, between two numeric ones that are not in that order |
| `Versions.LatestIsNewestIff` | app/skills/context.py:36-46 | where versions come in any order, as those of skills that share a name do: the fold picks a version nothing is newer than, in every listing over a set of versions, if and only if the set has no such pair |
| `NamedVersions.NamedLatestIsNewestIff` | app/skills/center.py:70-76 | over files in the order of their names the fold picks a version nothing is newer than if and only if no numeric version is newer than all numeric ones that stand, as texts, above every non-numeric one |
| `NamedVersions.NewestExistsIff` | app/skills/center.py:85-90 | over any versions that is exactly the condition for there to be a version nothing is newer than |
| `NamedVersions.NotNewerThanExtension` | app/skills/center.py:85-90 | no numeric version is newer than its own extension from a dot or a lower character, by which file names and versions are ordered differently |
| `NamedVersions.StubCanTurnATieIntoAMiss` | app/skills/center.py:70-76 | why stubs are left out of the condition: a blank version that begins a numeric one makes the fold miss although there is a newest |
| `Versions.UniformVersionsAreOrdered` | app/skills/center.py:85-90 | all-numeric sets, and sets without numeric versions, have none |
| `Versions.MixedVersionsCycle` | app/skills/center.py:85-90 | 10, 9 and 1a are each newer than the next, in a circle, and their sorted listing picks one that another beats |
| `Versions.CopiesAgree` | app/skills/context.py:109-120 | the two copies of the comparison agree, a missing version being an empty one |
| `Dicts.CatalogueUnique` | app/skills/center.py:70-77 | one entry for each key, in key order, chosen by the fold: there is one such list |
| `Dicts.SortedValuesAreTheCatalogue` | app/skills/center.py:77-77 | sorting the values of the filled dictionary gives it |
| `Dicts.Turn` | app/skills/center.py:74-76 | one turn of the filling loop keeps the dictionary equal to the fold |
| `SkillCenter.SkillCenter.ListLatestSkills` | app/skills/center.py:68-77 | each skill id once, in order, each with the pick of the fold over the sorted files, whatever order the directory listing had |
| `SkillCenter.ListsLatestUnique` | app/skills/center.py:71-77 | the files alone determine that list |
| `SkillCenter.LatestSkillIsNewest` | app/skills/center.py:68-77 | where the versions of a skill have no such pair, no file of it is newer than the one listed |
| `SkillCenter.ListedIsNewestIff` | app/skills/center.py:68-77 | in a directory the center has written, no file of a listed skill is newer than the entry if and only if its versions are not so overshadowed, which is if and only if there is a newest version at all |
| `SkillCenter.RunsKeepFiled` | app/skills/center.py:43-47 | every run leaves each skill in the file of its own name |
| `SkillCenter.VersionsInNameOrder` | app/skills/center.py:71-71 | sorting the files lists the versions of each skill in the order of the versions with their ending |
| `SkillCenter.ChosenIsLatest` | app/skills/center.py:74-76 | the entry of a skill has the version the fold over its versions picks |
| `SkillCenter.SkillCenter.SaveSkill` | app/skills/center.py:43-47 | file and cache entry are written together |
| `SkillCenter.SkillCenter.LoadSkill` | app/skills/center.py:49-58 | cache first, then the file, which is then cached; a missing file is an error |
| `SkillCenter.FaithfulIffClean` | app/skills/center.py:43-58 | every load after every run of saves, loads and restarts answers the skill saved last under its id and version, if and only if no two of the identities in use share a cache key or a file |
| `SkillCenter.CacheIsCoherent` | app/skills/center.py:43-58 | then each cached skill is the one in its file and the one saved last |
| `SkillCenter.PlainIdsAreClean` | app/skills/center.py:45-82 | ids without a colon or an underscore share neither |
| `SkillCenter.SeparatorsClash` | app/skills/center.py:45-82 | a pair that shares a file, and a pair that shares a cache entry |
| `SkillContext.Load` | app/skills/context.py:28-48 | one item for each lower-case name, in name order, chosen by the merge of files and center |
| `SkillContext.CenterOverridesFiles` | app/skills/context.py:34-46 | under each name the center goes before the files, whose last item is kept otherwise; within the center the version decides |
| `SkillContext.LoadedItemIsNewest` | app/skills/context.py:36-46 | where the versions under a name have no such pair, no center skill under it is newer than the item listed |
| `SkillContext.LoadFromSkillCenter` | app/skills/context.py:50-66 | one enabled item for each skill, its description trimmed, put on one line, cut at 180 characters, or a default |
| `SkillContext.DescribedInOneLine` | app/skills/context.py:54-60 | a description is one line, the template stripped, its line breaks made spaces, cut at 180 characters and marked, or a default sentence |
| `SessionMemory.ShortTermMemoryStore.AddTurn` | app/memory/short_term.py:8-15 | the window of the key is the end of the old one and the new turn, as long as the limit allows, with the new turn last; a negative limit raises on first use |
| `SessionMemory.MemoryService.WriteShort` | app/memory/service.py:20-24 | the text written is the last turn of its window, no other window changes, and every window stays the end of all that was written under its key |
| `SessionMemory.MemoryService.ReadShort` | app/memory/service.py:26-29 | a read has as many turns as were written under the key, up to the limit, and they are the last ones place by place; with colon-free tenants and users they are the session's own |
| `SessionMemory.ReadsItsOwnIff` | app/memory/service.py:16-29 | after any history of a set of sessions each reads the last turns it wrote itself, place by place, if and only if no two of them share a key or windows hold no turns |
| `SessionMemory.HistoryGrows` | app/memory/service.py:20-24 | the history of a session is the texts it wrote, in order, and no others |
| `SessionMemory.SessionKeyInjective` | app/memory/service.py:16-18 | colon-free tenant and user make the key injective; the session part may contain colons |
| `SessionMemory.SessionKeysCollide` | app/memory/service.py:16-18 | exactly which different sessions share a window |
| `SessionMemory.KeyHistoryIsSessionHistory` | app/memory/service.py:16-24 | with injective keys what was written under a key is what its session wrote |
| `Keys.JoinInjective` | app/memory/service.py:18-18 | a joined key gives its parts back when the left one is free of the separator |
| `Keys.JoinCollides` | app/skills/center.py:80-82 | two different pairs make one key exactly when one left part swallows the other and a separator |

## Left out

- Two processes on one Redis queue, and threads racing inside one refresh: steps are atomic between suspension points.
- A second start() while recovery is running, and a stop() during it: start returns before another call is made. A stop and a start after that are modelled.
- TaskManager.TaskManager.WorkerLoop: is the worker left alone until the queue is empty; submissions and subscribers in between are runs of the protocol, of which every step is a method of its own.
- TaskManager.TaskManager.RecoverPendingTasks: and TaskManager.TaskManager.Start likewise run uninterrupted.
- submit() and subscribe_status() cancelled half way by a client that disconnects; a reader that goes away between items is modelled.
- The model lets other coroutines run where the worker or a submitter takes the subscriber lock, though that lock never waits in the code; what is proved for more interleavings holds for these. A stop reaches the worker only in its dequeue or sleep.
- An item that `asyncio.wait_for` loses when its timeout meets the arrival counts as a dequeue that times out.
- Repository writes that raise, and status answers that fail validation: both would end in the worker's exception branch.
- The tenant, user, session and task-type columns of a task row, which are written once and not read by the manager.
- Rows with equal created_at: the order of creation is total.
- The in-memory repository survives a crash in the model, so that one set of runs covers both storages; where that matters, in TaskCache and TaskSync, its runs have no crash.
- asyncio.Queue internals: a subscriber's queue is the list of everything put into it and how much was read.
- The ORM branch of the auth repository: its unique key on users makes a second user of the same name an error instead of a replacement; DATETIME rounding.
- list_users, which changes nothing, and access tokens that are signed but lack a claim.
- An empty password given to update_user keeps the old one; the model takes the hash or nothing.
- The audit log's own storage: a record appends an event and cannot fail.
- List capabilities, metrics snapshots and the tools themselves: file, web, database and office access.
- The search over database rows: it ranks the newest three hundred rows, and rows of one batch have no defined order.
- Chunk metadata other than the index, and embeddings.
- int() also reads non-ASCII decimal digits, and refuses more than 4300 digits in recent versions; the model reads ASCII digits of any number.
- NamedVersions.NamedLatestIsNewestIff: leaves out listings in which a non-numeric version begins a numeric one listed before it, such as "1." after "1.-5"; there a tie of numbers can be missed, and NewestExistsIff still says when there is something to find.
- latest_skill, which sorts file names and compares no versions; file names that the file system folds or refuses.
- SKILL.md scanning: how a name and a description are taken out of a file's text.
- Whitespace and case mapping beyond single characters: `str.lower` is any function, `str.split` separates at the characters `str.isspace` accepts.
- Long-term memory, feedback, planning, routing, review, HTTP, configuration and wiring.
