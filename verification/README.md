# Ownership protocols of the conductor, in Dafny

The conductor starts model-driven work on a machine where any of its processes can be
killed at any moment, and promises that the same work is never owned twice. This project
models the protocols behind that promise and proves what they promise for every
interleaving, every crash point and every input.

| part | modules | what it is |
|---|---|---|
| invocation lock | `InvocationLock`, `InvocationProgress`, `Staleness` | publication by hard link, takeover of a dead owner through a chain of immutable claims, release; the verdict that an owner is dead |
| admission of a Run | `RunAdmission`, `RunSettlement`, `OwnerStores` | three durable stores (Run record, lane, owner receipt) written one after the other; stopped recovery and merge settlement |
| heartbeat | `HeartbeatAdmission`, `Heartbeat`, `HeartbeatSafety`, `HeartbeatPriming`, `HeartbeatReconcile`, `HeartbeatRecovery`, `HeartbeatWake`, `GuardHandoff` | the supervisor, its forked guard that inherits the lock, the durable intent and its reconciliation, the framed pipe between them |
| native runtime | `NativeBoundary`, `NativeSafety`, `NativeOutcome`, `RpcClient`, `RpcConnection`, `TurnCleanup` | the sticky boundary of one invocation and the failure it selects, waiters, RPC correlation, interruption of the own turn |
| worker container | `ContainerBoundary` | lifecycle calls against a daemon that may fail any of them, and the proof that nothing runs any more |
| heartbeat algorithms | `Sorting`, `Matching`, `Canonical`, `Serialization`, `JsonReader`, `ImportClosure`, `ObjectBatch`, `ObjectHeader`, `ObjectFrames` | canonical form of JSON, import closure, length-delimited object stream |
| task packet | `Packet`, `PacketBounds`, `PacketAuthority`, `PacketBase`, `PacketWording` | construction with byte bounds, preflight, the gate before the model turn |
| dispatch | `Wake`, `AccountPath` | coalescing wake file and serial driver; resolution of a path under churn |

Protocols are transition systems over single filesystem calls, durable writes or runtime
callbacks: `Effect` or `StepOk` says what a step does and `Run` what a run is, and main
results quantify over all runs. Objects whose methods change fields are classes whose
methods are proved equal to the step functions, so that the results about runs are results
about them. A crash is a cut: the process takes no further step, and what it wrote stays.

Assumptions, stated where they are used: digests and fresh identifiers are injective
(claim paths in `InvocationLock`, tokens and receipts elsewhere); hosts report host, boot,
process and container facts truthfully (`Staleness`, `ContainerBoundary`); a daemon call
that failed has taken effect by then or never does; a start of a container is the only
thing that makes it run; a write that returned is durable, a write that failed may or may
not have happened.

Where the code does less than one could read into its documentation, that is a result
with a concrete input, and beside it stands the condition under which the property does
hold:

| gap | shown by | exact condition |
|---|---|---|
| a verdict of stale on a record without host may be wrong on another host | `Staleness.LegacySoundExactlyOnItsHost` | the same lemma: sound exactly on the author's host |
| a verdict of stale, once given, may be withheld later although the owner stays dead | `Staleness.LegacyVerdictMayBeWithdrawn` | `Staleness.WithheldLaterExactly` |
| explicit priming drops the intent of a target that lives | `HeartbeatSafety.PrimingForgetsALiveTarget` | `HeartbeatPriming.RecordsDecidePriming`, on the state file and the registry as an operator reads them; the registry still keeps a second target away (`NoOverlap`) |
| explicit priming over an active lane loses the lane for the heartbeat: whatever it does later, no reservation is granted again | `HeartbeatRecovery.PrimingLosesTheLane`, for every such run | runs whose explicit priming meets no intent: there `HeartbeatRecovery.GoesOnExactly`, and `HeartbeatWake.AlwaysWakesAgain` |
| a refused start may leave a created container behind an ordinary error | `ContainerBoundary.UnstartedMayRemain` | `ContainerBoundary.EndsContained` |
| a second wait for one turn strands the first | `RpcClient.SecondWaitReplacesFirst` | `RpcClient.SettlesUnlessReplaced` |
| a half-written signal hides a whole one from a waiter that never saw a token | `Wake.TruncationHidesSignal` | `Wake.OverlooksExactly` |
| a header with a negative size in the object stream is taken for an empty object that is not there | `ObjectFrames.NegativeSizeAccepted` | `ObjectFrames.AcceptedExactly`, `ObjectFrames.ParsesExactlyFrames` |
| a preflight with unknown base accepts a packet that a commit id makes too long | `PacketWording.ProgramMayNotFit` with the program's own wording, `PacketBase.CommitIdMayNotFit` for every wording | `PacketBase.BaseCoveredExactly` |

## Model

| member | source | states |
|---|---|---|
| InvocationLock.MutualExclusion | src/dispatch/invocation-lock.ts:285-433 | in every run at most one live attempt has acquired and not released, and while it holds the canonical file is its own record |
| InvocationLock.OnlyOwnOrDeadRemoved | src/dispatch/invocation-lock.ts:306-433 | no step of any run removes the record of another live owner, and a file that is not a record is never removed |
| InvocationLock.OneLiveTakeover | src/dispatch/invocation-lock.ts:381-413 | of all live attempts past the claim of one stale record only one can reach its unlink |
| InvocationLock.OneLiveClaimant | src/dispatch/invocation-lock.ts:237-248 | the claim chain of a stale record is linear: every claim but the last belongs to a dead incarnation |
| InvocationLock.UnlinkTarget | src/dispatch/invocation-lock.ts:401-433 | each of the three unlinks removes the actor's own file or a dead owner's, and then no other live attempt owns or is about to unlink |
| InvocationLock.ClaimFindsTail | src/dispatch/invocation-lock.ts:381-400 | a claim that is free extends the chain behind its unique last claim |
| InvocationLock.StepKeepsInv | src/dispatch/invocation-lock.ts:285-433 | every filesystem call, verdict and process death keeps the invariant behind the three results |
| InvocationLock.WalkTakeoverChain | src/dispatch/invocation-lock.ts:381-400 | on an unchanging directory the walk over claims ends, and finds the free path of the chain exactly when there is one behind readable stale claims |
| InvocationProgress.ReleaseFreesLock | src/dispatch/invocation-lock.ts:418-433 | after any run a holder's release leaves the canonical path free, and any live attempt that has not begun then gets the lock by steps of its own |
| InvocationProgress.FailedReleaseIsRetried | src/dispatch/invocation-lock.ts:423-431 | a release whose unlink fails leaves a holder that can release again |
| InvocationProgress.FailedPublicationIsUndone | src/dispatch/invocation-lock.ts:328-356 | a publication that could not be made durable takes its own link away again |
| InvocationProgress.DeadOwnerIsReplaced | src/dispatch/invocation-lock.ts:376-419 | after any run a live attempt that has not begun replaces a dead owner by steps of its own alone, through a chain of dead readable claims of any length |
| Staleness.StaleIsDead | src/dispatch/invocation-lock.ts:256-281 | with truthful observations made one after the other, where a life has one start identity in each trusted scheme and any others besides, a verdict of stale means that the recorded incarnation is gone and stays gone, under pid reuse and reboots |
| Staleness.VerdictByStart | src/dispatch/invocation-lock.ts:256-281 | for a live pid on the recorded host and boot the verdict is exactly that the two start identities differ and begin with the same trusted prefix |
| Staleness.CompatibleExactly | src/dispatch/invocation-lock.ts:276-281 | two start identities are comparable exactly when both are Linux start ticks or both Darwin UTC start times |
| Staleness.LegacySoundExactlyOnItsHost | src/dispatch/invocation-lock.ts:256-281 | the verdict on a record without host is sound for every world if and only if its author ran on the observer's host |
| Staleness.CompleteVerdictIsExact | src/dispatch/invocation-lock.ts:256-281 | with complete observations the verdict on an own-host record is equivalent to death |
| Staleness.WithheldLaterExactly | src/dispatch/invocation-lock.ts:256-281 | for every later run of starts, exits and reboots, a verdict once given is withheld exactly when the observer cannot establish its host and boot for a versioned record, or the pid lives again on the host and neither boot nor start identity separates the lives |
| Staleness.LegacyVerdictMayBeWithdrawn | src/dispatch/invocation-lock.ts:256-281 | a concrete world in which that happens: the verdict is withheld although the owner stays dead |
| Staleness.DeathIsFinal | src/dispatch/invocation-lock.ts:256-281 | an ended life stays ended through every sequence of starts, exits and reboots |
| RunAdmission.RecoveryAccepted | src/cli.ts:1332-1512 | for every crash cut of every run, stopped recovery at the lane's generation is accepted exactly unless the lane was parked for capacity with no receipt of it |
| RunAdmission.RecoveryConverges | src/cli.ts:1332-1512 | from every crash cut, and however often recovery itself is cut, it ends with lane and tokenless receipt released at the next generation; repeating it writes nothing |
| RunAdmission.CutRecovers | src/cli.ts:1161-1208 | recovery cut after any write is again accepted and has the same end state |
| RunAdmission.GenerationsRise | src/mission-admission/registry.ts:411-464 | along every run a changed lane has a higher generation, and a merged Run stays merged |
| RunAdmission.SupersededTokenIsPowerless | src/cli.ts:999-1021 | once a token's generation has passed, no operation presenting it ever writes a store again |
| RunAdmission.MergeConverges | src/cli.ts:2333-2403 | an accepted merge settlement of an admitted Run ends merged, released and settled through any number of crashes; repeating it writes nothing |
| RunAdmission.CutMerges | src/cli.ts:2173-2216 | settlement cut after any write is again accepted and has the same end state |
| RunAdmission.SettledRunCanMerge | src/cli.ts:2333-2403 | a Run parked settled and ready to merge is never stranded by a crash |
| RunAdmission.MergedNeedsSettledPark | src/cli.ts:2178-2192 | an admitted Run becomes merged only under a settled receipt of a generation that really was parked as settled |
| RunAdmission.RunCoherent | src/cli.ts:1230-1330 | which lane and receipt pairs crashes can leave, and that settlement reasons have their provenance |
| RunSettlement.SettlementLeaves | src/cli.ts:1312-1323 | what an uncut settlement under the current token leaves of every Run after every run: failed and merged Runs are released, waiting ones parked to wait, all others parked as settled, each with a tokenless receipt |
| RunSettlement.SettledMergesExactly | src/cli.ts:1312-1323 | after an uncut settlement merging is accepted exactly for a Run ready to merge, and then ends merged, released and settled through any number of crashes |
| RunSettlement.ReadyRunCanMerge | src/cli.ts:2333-2403 | whatever crashes left, a Run ready to merge comes to be merged by one admission, unless it is active, one settlement and one merge |
| RunSettlement.OnlyReadyMerges | src/cli.ts:2351 | in every run a Run becomes merged only from being ready to merge, with no active lane, and without a lane only if it has no receipt |
| RunSettlement.RecoveryIsExact | src/cli.ts:1332-1512 | stopped recovery is accepted only of the expected generation: an active or parked lane once it is stopped, or the lane released from it, whatever was read before the lock |
| RunSettlement.AdmissionLeaves | src/cli.ts:1230-1330 | a granted admission ends with the next generation active under a receipt that holds its token, a denied one with a parked lane |
| RunSettlement.RenewalLeaves | src/cli.ts:1125-1145 | after every run a renewal under the current token leaves the receipt marked, with token and lane as they were |
| OwnerStores.Process.AcquireRunAdmission | src/cli.ts:1230-1330 | admission writes receipt then lane, and wherever it dies the stores are that prefix of its writes; a token is returned exactly when it is granted on a lane not active and both writes were made, and it is current |
| OwnerStores.Process.RenewExecutionPossible | src/cli.ts:1125-1145 | renewal under the current token marks the receipt, under any other changes nothing |
| OwnerStores.Process.SettleRunAdmission | src/cli.ts:1312-1323 | parking or releasing in three writes, cut anywhere; `RunSettlement.SettlementLeaves` says which of the two and what it leaves |
| OwnerStores.Process.ReleaseRunAdmission | src/cli.ts:1161-1208 | releasing in three writes, cut anywhere |
| OwnerStores.Process.RecoverRunAdmission | src/cli.ts:1332-1512 | stopped recovery against what was read before the lock, refused or performed write by write |
| OwnerStores.Process.ReconcileMergedRun | src/cli.ts:2333-2403 | merge settlement over the three stores, refused or performed write by write |
| HeartbeatSafety.NoOverlap | scripts/bootstrap-heartbeat/runner.py:2584-2800 | a wake target is spawned only when no earlier target's process group can be alive, in every run with deaths, uncertain saves, priming and reboots |
| HeartbeatSafety.AtMostOneTarget | scripts/bootstrap-heartbeat/runner.py:2584-2800 | at most one target lives, and its generation owns the lane unattested |
| HeartbeatSafety.SpawnIsMarked | scripts/bootstrap-heartbeat/runner.py:2676-2714 | a spawn happens only behind a durable spawn-uncertain intent of this boot bound to the open generation |
| HeartbeatSafety.GuardKeepsLock | scripts/bootstrap-heartbeat/runner.py:2441-2577 | while a guard lives only its own supervisor runs, and it lets go only of a generation with no live group that is no longer open |
| HeartbeatSafety.LiveTargetFences | scripts/bootstrap-heartbeat/runner.py:2265-2428 | reconciliation never goes on over a target that may live |
| HeartbeatSafety.ClearingIsProved | scripts/bootstrap-heartbeat/runner.py:2265-2428 | every step that drops a durable intent does so when nothing its supervisor spawned is open; explicit priming too, unless the records show a spawn-uncertain intent of this host bound to its supervisor's open generation |
| HeartbeatSafety.OpenExactly | scripts/bootstrap-heartbeat/runner.py:2265-2428 | something that the intent's supervisor spawned is open if and only if the records show such an intent and its generation was spawned |
| HeartbeatPriming.RecordsDecidePriming | scripts/bootstrap-heartbeat/runner.py:808-818 | the records show such an intent if and only if some run leaves these very records with a live target of the intent's supervisor, so they decide exactly whether priming may forget one |
| HeartbeatSafety.PrimingForgetsALiveTarget | scripts/bootstrap-heartbeat/runner.py:808-818 | a concrete run in which explicit priming drops the intent of a live target |
| HeartbeatSafety.DecisionJustified | scripts/bootstrap-heartbeat/runner.py:2265-2428 | every verdict of reconciliation that goes on rests on the durable phase and the registry; `HeartbeatRecovery.ReconciliationEnds` says where it ends |
| HeartbeatSafety.SettleWritesKeep | src/mission-admission/heartbeat-admission.ts:262-420 | a settle call keeps the invariant however far it gets, and when it returns the generation is behind the lane |
| HeartbeatSafety.StepKeepsInv | scripts/bootstrap-heartbeat/runner.py:2584-3035 | every step of supervisor, guard, targets and machine keeps the invariant |
| HeartbeatReconcile.RestartedSupervisor.ReconcilePendingAdmission | scripts/bootstrap-heartbeat/runner.py:2276-2428 | whatever saves and calls do, reconciliation is a path of the model; it goes on only with the intent durably gone and the lane given up; it is fenced only off an intent of this host whose owner is not proved dead, and then changes nothing |
| HeartbeatReconcile.RestartedSupervisor.SettleHeartbeat | scripts/bootstrap-heartbeat/runner.py:2253-2262 | the settle call cut after any of its writes is a step of the model, and when it returns the lane is given up |
| HeartbeatReconcile.RestartedSupervisor.BindAndSettle | scripts/bootstrap-heartbeat/runner.py:2407-2428 | the intent is bound durably before it is settled |
| HeartbeatReconcile.RestartedSupervisor.DiscardAndClear | scripts/bootstrap-heartbeat/runner.py:2362-2381 | an uncommitted receipt is discarded before the intent is cleared |
| HeartbeatReconcile.LeadsIsSafe | scripts/bootstrap-heartbeat/runner.py:2276-2428 | what reconciliation leaves of a reachable state has at most one live group, behind its open generation |
| HeartbeatRecovery.GoesOnExactly | scripts/bootstrap-heartbeat/runner.py:2276-2428 | in every run whose explicit priming meets no intent, reconciliation of this host's intent goes on exactly when its owner is proved dead or the stop of its generation was attested |
| HeartbeatRecovery.ReconciliationEnds | scripts/bootstrap-heartbeat/runner.py:2276-2428 | and then it can end with the intent durably gone and the lane free to be reserved |
| HeartbeatRecovery.RebootStrandsNothing | scripts/bootstrap-heartbeat/runner.py:2265-2428 | from every state of such a run with no other host's intent the supervisor after a reboot can come to poll with no intent and a free lane |
| HeartbeatRecovery.PrimingLosesTheLane | scripts/bootstrap-heartbeat/runner.py:808-818 | explicit priming over an active lane leaves the registry unchanged in every continuation, reboots and more priming included |
| HeartbeatWake.FreeLaneWakes | scripts/bootstrap-heartbeat/runner.py:2954-3035 | after every run, polling over a free lane can reserve the next generation, spawn behind its guard, and end with the stop attested, the lane released and no intent |
| HeartbeatWake.AlwaysWakesAgain | scripts/bootstrap-heartbeat/runner.py:2901-3035 | after every run whose explicit priming meets no intent, and with no other host's intent, a wake is possible again, whatever died and whatever was left durable |
| HeartbeatWake.FailedWakeIsUndone | scripts/bootstrap-heartbeat/runner.py:2640-2720 | a wake that fails before its guard, or whose intent cannot be marked, can be undone by the supervisor or by the guard that reads the cancellation, with no intent left and the lane released under an attested receipt |
| HeartbeatWake.DenialIsUndone | scripts/bootstrap-heartbeat/runner.py:2957-2970 | a denied reservation leaves no intent and the lane parked or as it was |
| GuardHandoff.DecodesExactlyItsFrame | scripts/bootstrap-heartbeat/runner.py:2461-2478 | a payload of 2 to 65536 bytes is accepted exactly from four bytes that are its length, most significant first, itself and nothing else |
| GuardHandoff.TruncatedOrTrailingRefused | scripts/bootstrap-heartbeat/runner.py:2461-2478 | a truncated frame and a frame followed by anything are refused |
| GuardHandoff.Pipe.WriteAll | scripts/bootstrap-heartbeat/runner.py:2431-2438 | with every pattern of partial writes the pipe gets all of the data exactly if no write fails, and else a strict prefix |
| GuardHandoff.Pipe.ReadExactly | scripts/bootstrap-heartbeat/runner.py:2461-2470 | with every chunking of reads it returns exactly the next bytes, or nothing at a premature end |
| GuardHandoff.Pipe.ReadHandoff | scripts/bootstrap-heartbeat/runner.py:2461-2478 | the guard decodes exactly what the whole stream decodes to |
| GuardHandoff.Handoff | scripts/bootstrap-heartbeat/runner.py:2652-2657 | a payload within the bounds arrives unchanged exactly if no write fails, and nothing arrives else |
| NativeSafety.NoEffectOnceClosed | src/agents/codex-app-server.ts:1030-1094 | once the boundary is closed no guarded hook is called and no guarded callback returns without throwing |
| NativeSafety.SelectedIsVerdict | src/agents/codex-app-server.ts:1053-1094 | the selected failure is, whenever looked at, the first admission refusal any guarded callback throws after its entry check in the whole run, failing one the first timeout or cancellation |
| NativeSafety.RefusalBeatsBoundary | src/agents/codex-app-server.ts:1065-1094 | an admission refusal that a guarded callback throws after its entry check, wherever in the run, is what gets selected |
| NativeSafety.SettlesOnce | src/agents/codex-app-server.ts:1160-1211 | a waiter settles once for every order of resolve, reject, timeout and abort; one that waits for the selection ends with the verdict |
| NativeSafety.OneAgreedFailure | src/agents/codex-app-server.ts:1108-1211 | two waiters that went to the selection are rejected with the same error |
| NativeSafety.OperationYieldsToBoundary | src/agents/codex-app-server.ts:1058-1063 | in every run a waiter that is open when a timeout or cancellation has closed the boundary never ends with its operation's own error: with a value in time, or with the verdict |
| NativeSafety.RefusedAfterSelection | src/agents/codex-app-server.ts:1108-1112 | once a failure is selected every later operation is refused with it before it starts |
| NativeSafety.StepKeepsInv | src/agents/codex-app-server.ts:1020-1211 | every callback, microtask and outcome keeps the relation of boundary and history |
| NativeOutcome.SelectedHasCause | src/agents/codex-app-server.ts:1030-1094 | in every run the selected failure has its cause: a timeout a deadline that passed or was seen passed without an abort, a cancellation an abort, any other a refusal handed in |
| NativeOutcome.NoneWithoutCause | src/agents/codex-app-server.ts:1030-1056 | a run in which every step is in time never selects a timeout, and one without an abort never a cancellation |
| NativeOutcome.LookIsExact | src/agents/codex-app-server.ts:1030-1042 | a look lets through exactly what is open, not aborted and in time; whatever it stops is closed, for the abort before the deadline |
| NativeOutcome.ReturnIsExact | src/agents/codex-app-server.ts:1078-1094 | a guarded callback returns exactly when its hook does and the boundary is then open, not aborted and in time; else its failure is thrown and closes the boundary |
| NativeOutcome.RegistrationIsExact | src/agents/codex-app-server.ts:1108-1211 | what an operation's call that returned, threw or came after the abort makes of its waiter |
| NativeOutcome.FirstEventDecides | src/agents/codex-app-server.ts:1160-1211 | in every run the first event that concerns an open waiter decides how it ends: with its value, with its own error, or with the verdict alone |
| NativeOutcome.SelectionReaches | src/agents/codex-app-server.ts:1065-1076 | with an empty stack a waiter of the selection is at most two steps from being rejected with the verdict |
| NativeBoundary.NativeExecutionBoundary.AssertOpen | src/agents/codex-app-server.ts:1030-1042 | what is thrown, and that finding an abort or a passed deadline closes the boundary |
| NativeBoundary.NativeExecutionBoundary.Close | src/agents/codex-app-server.ts:1044-1051 | only the first reason closes, and only a timeout or cancellation queues a selection |
| NativeBoundary.NativeExecutionBoundary.RejectForBoundary | src/agents/codex-app-server.ts:1053-1056 | the boundary is closed and a selection pending |
| NativeBoundary.NativeExecutionBoundary.RejectOperation | src/agents/codex-app-server.ts:1058-1063 | the operation's error is replaced exactly when a timeout or cancellation closed the boundary |
| NativeBoundary.NativeExecutionBoundary.SelectFailure | src/agents/codex-app-server.ts:1065-1076 | the microtask selects once, a captured refusal first |
| NativeBoundary.NativeExecutionBoundary.AfterHook | src/agents/codex-app-server.ts:1078-1094 | a guarded callback after its host hook: check, capture, close, rethrow |
| NativeBoundary.NativeOperation.OnTimeout | src/agents/codex-app-server.ts:1194-1197 | the timer sends an unsettled waiter to the selection and disarms it |
| NativeBoundary.NativeOperation.OnAbort | src/agents/codex-app-server.ts:1198-1202 | the abort listener does the same |
| NativeBoundary.NativeOperation.OnResolve | src/agents/codex-app-server.ts:1176-1188 | a value settles an unsettled waiter and no other |
| NativeBoundary.NativeOperation.OnReject | src/agents/codex-app-server.ts:1203-1209 | a settled waiter ignores the error and leaves the boundary alone |
| RpcClient.RequestIsCorrelated | src/agents/codex-app-server.ts:848-892 | whatever came before and comes after, a request gets a fresh id and its promise ends as that id alone is due, settled at most once |
| RpcClient.RequestFails | src/agents/codex-app-server.ts:848-874 | a request whose callback or write throws takes an id of its own and ends with that failure whatever is answered later |
| RpcClient.ClosedForGood | src/agents/codex-app-server.ts:841-849 | a closed client has no request open and issues none, in every continuation |
| RpcClient.AnswerIsOwnResponse | src/agents/codex-app-server.ts:880-892 | an answer was the first response to that very id |
| RpcClient.ReplyIsDue | src/agents/codex-app-server.ts:848-892 | from any reachable state a settled reply never changes and an open one ends as it is due |
| RpcClient.TurnReachesWaiter | src/agents/codex-app-server.ts:830-834 | a wait gets the latest completion that came before it unchanged, and otherwise what the later steps owe it |
| RpcClient.SettlesUnlessReplaced | src/agents/codex-app-server.ts:830-834 | a waiter settles if and only if something ends it before another wait for the same turn |
| RpcClient.SecondWaitReplacesFirst | src/agents/codex-app-server.ts:830-834 | of two waits for one turn only the later one settles |
| RpcClient.CompletedIsLast | src/agents/codex-app-server.ts:911-923 | the recorded completion of a turn is the last one seen |
| RpcConnection.StdioClient.Request | src/agents/codex-app-server.ts:848-874 | the maps after a request whose callback or write may throw |
| RpcConnection.StdioClient.Receive | src/agents/codex-app-server.ts:880-892 | a response settles its own pending request and nothing else |
| RpcConnection.StdioClient.WaitForTurn | src/agents/codex-app-server.ts:830-834 | a completed turn answers at once, another registers its waiter |
| RpcConnection.StdioClient.OnTurnCompleted | src/agents/codex-app-server.ts:911-923 | the completion is recorded and delivered to the registered waiter |
| RpcConnection.StdioClient.RejectRequests | src/agents/codex-app-server.ts:937-942 | every pending request is rejected, every settled one untouched |
| RpcConnection.StdioClient.RejectWaiters | src/agents/codex-app-server.ts:937-942 | every registered waiter is rejected, every other one untouched |
| RpcConnection.StdioClient.Close | src/agents/codex-app-server.ts:841-846 | the first close rejects all that is outstanding, later ones do nothing |
| TurnCleanup.OnlyOwnTurnInterrupted | src/agents/codex-app-server.ts:526-557 | in every interleaving of start response, its reaction, the two bounded waits and cleanup, what is interrupted is once the thread and turn of the invocation's own start response |
| TurnCleanup.LateResponseIsPowerless | src/agents/codex-app-server.ts:318-320 | a start response after cleanup sends no interrupt, gives no ownership and leaves the outcome |
| TurnCleanup.OutcomeIsExact | src/agents/codex-app-server.ts:532-556 | the reported outcome says exactly whether an interrupt was sent |
| TurnCleanup.CleanupIsExact | src/agents/codex-app-server.ts:532-556 | in every run: nothing to do without a start; the own turn is interrupted if its start response is known by the end of the wait, through the wait or through its reaction; interrupted is reported exactly for a confirmed answer |
| TurnCleanup.OwnershipIsExact | src/agents/codex-app-server.ts:318-323 | the invocation comes to own the turn of its own start response exactly while cleanup is open and the turn unfinished |
| TurnCleanup.StepKeepsInv | src/agents/codex-app-server.ts:526-557 | every step keeps authority tied to the own start response |
| TurnCleanup.OwnedTurn.OnStarted | src/agents/codex-app-server.ts:318-320 | the reaction on the start promise is that step |
| TurnCleanup.OwnedTurn.AdoptTurn | src/agents/codex-app-server.ts:323 | the main flow takes over a turn that has not completed |
| TurnCleanup.OwnedTurn.InterruptExactTurn | src/agents/codex-app-server.ts:532-545 | the cleanup up to its next await |
| TurnCleanup.OwnedTurn.AfterWait | src/agents/codex-app-server.ts:535-545 | the cleanup after the wait for the start response, won or not |
| TurnCleanup.OwnedTurn.AfterInterrupt | src/agents/codex-app-server.ts:546-556 | the cleanup after the answer to the interrupt |
| ContainerBoundary.EndsContained | src/agents/worker-router-container.ts:511-593 | for every truthful daemon: after a result the container is terminal, being removed or absent, after an ordinary error it neither runs nor is paused or restarting, and is terminal, being removed or absent exactly unless it never started and its removal was answered "not running" |
| ContainerBoundary.RunningIsReported | src/agents/worker-router-container.ts:537-553 | a container that may still run ends in the containment error or an enriched refusal |
| ContainerBoundary.RefusalSurvives | src/agents/worker-router-container.ts:535-560 | an admission refusal is never replaced by a cancellation or the containment error |
| ContainerBoundary.UnstartedMayRemain | src/agents/worker-router-container.ts:442-450 | a concrete truthful daemon with which a refused start leaves the container created |
| ContainerBoundary.ProofIsSound | src/agents/worker-router-container.ts:567-593 | a proof of quiescence means that nothing runs |
| ContainerBoundary.ResultIsReported | src/agents/worker-router-container.ts:514-534 | for every daemon a result is reported exactly when the container was started, waited for and seen exited or dead, with the code the daemon answered to that wait and the state seen after it; removal follows the logs |
| ContainerBoundary.FailureIsReported | src/agents/worker-router-container.ts:535-560 | for every daemon any other end reports the first failure; a cancellation replaces it only if it is no refusal and quiescence was proved |
| ContainerBoundary.ProofIsReported | src/agents/worker-router-container.ts:567-593 | quiescence is reported exactly after a removal or a look at a terminal container; what is unproven names exactly the calls that failed, in order |
| ContainerBoundary.Runtime.Run | src/agents/worker-router-container.ts:511-560 | the orchestration call by call ends in the state and the outcome that `ResultIsReported`, `FailureIsReported` and the results on containment are about |
| ContainerBoundary.Runtime.ProveQuiescent | src/agents/worker-router-container.ts:567-593 | stop, wait, kill, wait, remove and inspect with the failures they accumulate |
| Canonical.CanonicalIsComplete | scripts/bootstrap-heartbeat/runner.py:432-438 | two trees have the same canonical form exactly when they are equal up to the order of list items and object keys at every depth, for every injective serialisation |
| Canonical.CanonicalizeIsIdempotent | scripts/bootstrap-heartbeat/runner.py:432-438 | a canonical form is its own canonical form |
| Canonical.CanonicalIsSame | scripts/bootstrap-heartbeat/runner.py:432-438 | a canonical form differs from its tree in order alone |
| Canonical.CanonicalValid | scripts/bootstrap-heartbeat/runner.py:432-434 | canonical objects have unique keys again |
| Canonical.CanonicalFormsExactly | scripts/bootstrap-heartbeat/runner.py:432-438 | the canonical form of a tree is the one tree with keys and items ascending at every depth that equals it up to order |
| Sorting.SortDependsOnElements | scripts/bootstrap-heartbeat/runner.py:437 | under a key that tells the elements apart, sorted lists are equal exactly when the lists have the same elements |
| Sorting.SortedIsUnique | scripts/bootstrap-heartbeat/runner.py:437 | two sorted arrangements of the same elements are the same |
| Sorting.SortIsStable | scripts/bootstrap-heartbeat/runner.py:437 | elements with equal keys stay in the order they came in |
| Sorting.LeIsLexicographic | scripts/bootstrap-heartbeat/runner.py:437 | strings are ordered by their first difference or as prefixes |
| Matching.MatchedIsAgreement | scripts/bootstrap-heartbeat/runner.py:436-437 | lists match element by element exactly when their images agree up to order |
| Serialization.CompactIsInjective | scripts/bootstrap-heartbeat/runner.py:437 | the compact ASCII serialisation, with escapes and surrogate pairs, tells any two trees apart |
| Serialization.SerializeUnique | scripts/bootstrap-heartbeat/runner.py:437 | a serialised value is read back in one way whatever punctuation follows it |
| JsonReader.CompactReadsBack | scripts/bootstrap-heartbeat/runner.py:437 | a reader after the grammar of RFC 8259 reads every tree's compact text back as that tree |
| Serialization.CompactCanonicalIsComplete | scripts/bootstrap-heartbeat/runner.py:432-479 | canonical trees, and their serialised texts, are equal exactly for trees that differ in order alone |
| ImportClosure.ValidateImportClosure | scripts/bootstrap-heartbeat/runner.py:1748-1769 | the worklist ends; it succeeds exactly when every reachable module keeps the rules, and then yields exactly the reachable modules |
| ImportClosure.ReachableStaysWithin | scripts/bootstrap-heartbeat/runner.py:1762-1768 | however many imports are followed, no reached module lies outside the output root |
| ImportClosure.ResolvedStaysWithin | scripts/bootstrap-heartbeat/runner.py:1762-1768 | a specifier resolves to a path below the output root or to none |
| ImportClosure.RelativeResolves | scripts/bootstrap-heartbeat/runner.py:1762-1768 | a specifier that climbs directories and descends along names resolves to just that path, and is refused exactly when it climbs out of the root |
| ImportClosure.KindsExactly | scripts/bootstrap-heartbeat/runner.py:1759-1763 | only `node:` specifiers are built in, and only relative `.js` ones are followed |
| ObjectBatch.ParseBatch | scripts/bootstrap-heartbeat/runner.py:1197-1215 | the loop over a moving offset computes the parse of the stream |
| ObjectBatch.ParseInvertsPrint | scripts/bootstrap-heartbeat/runner.py:1197-1215 | parsing a printed stream gives back every object's bytes, newlines included |
| ObjectBatch.TruncatedRefused | scripts/bootstrap-heartbeat/runner.py:1197-1215 | every strict prefix of a printed stream is refused |
| ObjectBatch.ParsesOnePrinted | scripts/bootstrap-heartbeat/runner.py:1201-1213 | one object is read back whole at any offset, or refused when it is cut short |
| ObjectHeader.HeaderSizeReads | scripts/bootstrap-heartbeat/runner.py:1201-1208 | header reading inverts header printing |
| ObjectFrames.HeaderExactly | scripts/bootstrap-heartbeat/runner.py:1203-1208 | a line is accepted as header exactly when it is the expected id, the word blob and an integer text between single spaces |
| ObjectFrames.IntegerText | scripts/bootstrap-heartbeat/runner.py:1208 | a decimal text with or without sign is the number it shows, and nothing else is taken for one |
| ObjectFrames.AcceptedExactly | scripts/bootstrap-heartbeat/runner.py:1201-1213 | an object that is accepted was there whole, header to closing line end, exactly unless its header announces a negative size |
| ObjectFrames.NegativeSizeAccepted | scripts/bootstrap-heartbeat/runner.py:1208-1213 | such a header is accepted, as an empty object without a body |
| ObjectFrames.ParsesExactlyFrames | scripts/bootstrap-heartbeat/runner.py:1197-1215 | a stream without such headers parses to these contents exactly when it starts with their frames in order |
| PacketBounds.FillerFits | src/agents/implementation-packet.ts:309-317 | the fillers of the preflight are not blank and exactly as long as the bounds allow |
| PacketBounds.PreflightExactly | src/agents/implementation-packet.ts:309-319 | the preflight accepts exactly the inputs for which some place is possible and the packet can be built for every workspace, branch and base that may come |
| PacketBounds.PreflightCovers | src/agents/implementation-packet.ts:176-319 | an accepted preflight stays accepted for every such place |
| PacketBounds.NothingTruncated | src/agents/implementation-packet.ts:252-303 | the final text of a built packet holds scope, body, title, evidence and every blocking finding character for character |
| PacketAuthority.RefusalIsExact | src/agents/implementation-packet.ts:176-305 | a packet is built exactly when every condition of identity, authority, repair evidence and size holds, and a refusal names the first that does not, with the program's own bounds |
| PacketAuthority.BuiltIsAuthorized | src/agents/implementation-packet.ts:190-250 | a built packet's scope is current, or unknown on a first packet from its issue; its target is the authority's issue; a repair is of the exact head |
| PacketAuthority.NothingUnnamed | src/agents/implementation-packet.ts:252-303 | the final text names kind, run, target, workspace, branch and base |
| PacketAuthority.AuthorityShown | src/agents/implementation-packet.ts:252-303 | the final text shows issue and scope with their update times and the digests of their texts |
| PacketAuthority.ExecutionShown | src/agents/implementation-packet.ts:252-303 | and the whole execution identity |
| PacketAuthority.RepairShown | src/agents/implementation-packet.ts:268-277 | and of a repair its pull request, head, source, digest and lead disposition |
| PacketBounds.PlaceMattersForLengthOnly | src/agents/implementation-packet.ts:176-305 | a longer workspace, branch or base turns no refusal into a packet or another refusal, and a packet only into a refusal for its size |
| PacketBase.BaseCoveredExactly | src/agents/implementation-packet.ts:309-319 | an accepted preflight with unknown base covers a longer base in every possible place exactly when its packet has room for the difference, once in the rendering and twice in the final text |
| PacketBase.CommitIdMayNotFit | src/agents/implementation-packet.ts:316 | for every wording and every digest of fixed length, each input accepted with unknown base becomes, with more accepted scope, one that is still accepted and that no commit id leaves within the bounds |
| PacketBase.PaddedBuild | src/agents/implementation-packet.ts:252-295 | a packet takes exactly as many more characters of scope as it has slack, and they use it up one by one |
| PacketWording.ProgramMayNotFit | src/agents/implementation-packet.ts:252-319 | with the program's own fixed lines and any digest of 64 hexadecimal digits: an input that the preflight accepts and that is refused with any commit id |
| PacketBounds.BuiltPasses | src/agents/codex-cli.ts:354-383 | a built packet is within 60 KiB rendered and 64 KiB final, and the gate passes its own request and besides it only those whose target reads the same |
| PacketBounds.GatePassesOnlyItsRequest | src/agents/codex-cli.ts:354-383 | for targets whose names hold no separator the gate passes a built packet for one request alone, the one made for it |
| PacketAuthority.RequestPassesOnlyItsPacket | src/agents/codex-cli.ts:354-383 | a built packet's request lets no packet through with other texts or another identity |
| PacketBounds.TargetReadsBack | src/agents/codex-cli.ts:385-389 | targets with such names are told apart by their texts |
| PacketBounds.SizeMonotone | src/agents/implementation-packet.ts:255-297 | no longer workspace, branch and base give no longer a rendering and final text |
| PacketBounds.JoinMonotone | src/agents/implementation-packet.ts:285-297 | joining lines that are no longer gives no longer a text |
| Wake.NoLostWake | src/dispatch/wake.ts:40-63 | whenever the waiter rests with every change answered and a check that could see the token, the last signal was followed by a reconciliation that started after it |
| Wake.OverlooksExactly | src/dispatch/wake.ts:18-24 | a check rests over an uncovered signal exactly when it sees no token and none was observed |
| Wake.TruncationHidesSignal | src/dispatch/wake.ts:27-34 | a concrete run in which a second signal that only truncated the file hides the first |
| Wake.PollCovers | src/dispatch/wake.ts:58 | after the poll timer, with any signals in between, the next two steps of waiter and driver are the end of the wait and a reconciliation that covers every signal up to its start |
| Wake.NextMove | src/dispatch/wake.ts:40-63 | what waiter and driver do next whatever is signalled in between: one reconciliation at a time, a settled result again at once, any other after a wait |
| Wake.NoSpuriousWake | src/dispatch/wake.ts:40-63 | after a wake, while nothing is signalled and the file is readable, every check rests with everything reconciled |
| Wake.Waiter.Enter | src/dispatch/wake.ts:45-62 | one wait begins unsettled and ends at once when the token differs |
| Wake.Waiter.FinishWait | src/dispatch/wake.ts:47-54 | a wait settles once; later notices leave the observed token alone |
| Wake.DispatchContinuously | src/dispatch/continuous.ts:36-59 | cycles, last result and the number of waits: one after every result that is not settled, except after the last bounded one |
| AccountPath.Physicalize | src/account-home.ts:160-187 | whatever appears and disappears, the loop ends within three rounds more than the path has components, resolves a real ancestor followed by components each seen missing, and goes on exactly past what is absent and at most three times past a file or directory that has just appeared |
| AccountPath.PhysicalIsIdempotent | src/account-home.ts:160-187 | on an unchanging disk resolving a resolved path changes nothing |

## Left out

- InvocationLock: the write loop of a new lock file (the same loop as `GuardHandoff.Pipe.WriteAll`), permission checks, and the parsing of records; a record and the attempt that wrote it are identified, claim paths stand for their digests.
- Staleness.StaleIsDead: a record without a host field must have been written on the observer's host; `LegacySoundExactlyOnItsHost` shows that this is exactly what the code needs.
- RunAdmission: native Oracle, lead and merge work inside admission, retired or cancelled dispositions, the workspace evidence that binds a missing receipt late, and the planning gap of bootstrap; identity fields of the three stores agree throughout.
- RunAdmission: other lanes and the capacity arithmetic; whether admission is denied for capacity is free.
- RunAdmission: whether a Run waits does not change while its lane is parked, as the registry's own fence demands.
- RunAdmission.MergeConverges: for a Run that has a lane and a receipt; a Run that was never admitted has one write and nothing to converge.
- Heartbeat: the polling of repositories, fingerprints, logs and the output of the target; process identity is one free verdict, and time-outs are free choices.
- HeartbeatRecovery.PrimingLosesTheLane: operators may repair the registry by other commands, which are not part of this model.
- Heartbeat: intents of another host occur only at the start of a run; descendants that leave the target's process group are not observed.
- HeartbeatReconcile: death between two calls is a prefix of the path that the method follows; deaths inside the settle call are explicit.
- `process_group_has_live_members` and the inspection of the process table: the guard's observation of an empty group is taken as true.
- NativeSafety.RefusalBeatsBoundary: a refusal that the entry check of a guarded callback throws again is not new and is not recorded as thrown.
- NativeSafety: an operation refused before its start carries the error of that moment, which is the selected failure once one is selected; before that it is the reason the boundary closed with.
- NativeSafety: the selection microtask may run later than the runtime would run it, which admits more runs than there are.
- RpcClient: the host callback of a request does not close the client re-entrantly; malformed notifications, listeners, turn summaries and token usage.
- ContainerBoundary: images, mounts, environment, logs and redaction; restart policies other than none.
- JsonReader: insignificant space between tokens, which compact text does not have; of a number it keeps the text.
- Canonical: numbers that JSON does not have (not-a-number, infinities) and strings with lone surrogates; sorting keys again when an already canonical item is serialised changes nothing and is not repeated.
- ObjectFrames.IntegerText: integer texts beyond signed ASCII digits, such as underscores or surrounding blanks.
- ImportClosure: the TypeScript parser that lists imports and dynamic loading.
- Packet: the wording of the fixed lines (filled in by `PacketWording`), the digest, case folding, and the judgement of repair evidence and of a lead disposition are parameters; the list of missing identity fields in the refusal text.
- PacketBounds.PreflightExactly: while the base is unknown it covers bases no longer than the placeholder; for longer ones see `PacketBase`.
- Wake: a token is written in one piece after the truncation; checks of the account-owned path.
- AccountPath: ownership, permission and symlink checks of the account-owned tree, one branch each.
- Path, number and configuration validation, effort aliases, version checks, browser, launchd, GitHub and desktop code: plumbing around these protocols.
