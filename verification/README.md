# A verified model of the local agent's transactional core

This project models, in Dafny, the parts of the agent whose correctness rests on state that
several functions share, and proves what they promise over all inputs and all runs.

- **Patch tools** (`Newlines`, `PatchStore`, `PatchRuns`, `PatchFaults`, `PatchBalance`,
  `PatchOutcomes`, `PatchTools`). Files, pending and applied metadata, backups and history are one store. Any step
  of an apply or a rollback may raise, and the write of the target may leave other bytes than asked
  for. Proved: when an error leaves the store as it was (exactly), what a crash between any two
  writes leaves behind, the life of every patch over all runs, apply and rollback as inverses, and
  a conservation law: a file nobody else edited is what it was once no patch of it is outstanding.
  `PatchRuns` and `PatchBalance` assume what the code assumes about the writes of its own exception
  handlers; `PatchFaults` says what remains true over every run without that; `PatchOutcomes` says for every
  call which error it ends with or what it changes.
- **Trace log** (`TraceLines`, `TraceRepair`, `TraceStore`, `TraceScan`, `TraceFiles`, `TraceLog`,
  `TraceReads`, `TraceOutcomes`, `ScanOutcomes`). Rotation, append, bounded scan and repair all refer to one append-only history,
  byte by byte: exactly when a store that is repaired after each cut write holds the newest part
  of the history, and what readers of a store that nobody repairs still see. The two modules on
  outcomes say what every append makes of every file, the fate of every file in a repair, and how
  far a scan reads and what it counts.
- **State lock** (`StateLock`). The two-level lock as a protocol over any number of lock objects
  and processes; the lock object itself, with its busy-wait loop against a clock, runs on a machine
  of that protocol while others interfere, so that exclusion is a result about the code.
- **Gate, plans and policy** (`PermissionGate`, `ToolExecutor`, `PlanExecution`, `PlanOutcomes`,
  `ToolPlanner`, `PolicyConsistency`, `PolicyOutcomes`, `PolicySoundness`, `PolicyExamples`). What
  makes a callable run; what a plan run does, step by step; what each issue of the policy report
  means; and that a clean policy report means that planning and execution cannot fail in the
  ways the report checks.
- **Module resolver** (`ModuleResolver`). Loading a dotted chain with an undo log over the module
  table and the namespaces, for arbitrary module code.
- **String algorithms** (`Strings`, `GeneratedBlock`, `DocumentChunks`, `DocumentSearch`,
  `ContextBudget`).
- **Accounting** (`RequestMetrics`, `ProjectMemory`).

`Options` holds the option type they share.

What the outside world does is a parameter throughout: which steps raise, what a clock reads, what
module code or a tool does, what a prompt answers. SHA-256 is an injective function, file contents
stand for their UTF-8 decoding, and JSON with its schema checks is a pair of functions that undo
each other on printed records (`TraceStore.Lawful`). Where the source changes fields or files in
place, a class or method does so and is proved equal to a function of the old state; the theorems
are about these functions.

## What the proofs found

- A patch whose proposed content holds a NUL character is applied, but its target is refused as
  binary afterwards, so that it can never be rolled back (`PatchRuns.RollbackInvertsApply` says
  exactly when, `PatchRuns.NulPatchIsStuck` is such a run).
- If the handler of a failed apply cannot restore the target, it still deletes the only backup of
  the original (`PatchStore.OriginalSurvives` says exactly when,
  `PatchStore.FailedRestoreLosesOriginal` is such a call).
- If an apply fails to write its history entry, and its handler can neither restore the target nor
  drop the record, the patch can be rolled back and the history then names a rollback of a patch
  it never said was applied (`PatchFaults.RollbackAfterFailure` says exactly when,
  `PatchFaults.RollbackWithoutApply` what the history says then, `PatchFaults.ToldHistoryIsALife`
  that over whole runs nothing else breaks the order).
- The "no visible text changes" refusal of a proposal is dead code (`PatchRuns.NoVisibleChangeIsDead`).
- Repair refuses a file of more than 1000 lines, so that a torn file of that length stays torn
  (`TraceLog.CutStoreIsMended` says exactly which files repair mends, `TraceLog.FullFileStaysTorn`
  is a store it does not).
- A record longer than the file limit is written, but a scan then rejects the whole active file,
  and the next repair moves the file away with the record (`TraceScan.LatestIsLastAppended`,
  `TraceLog.OverlongLineIsMovedAway`).
- Repairing a file that ends in a valid record without a line break adds one byte, which can push
  the file over its own limit (`TraceRepair.RepairCanOutgrowTheLimit`).
- An append after a torn tail loses the new record unless the two pieces parse together
  (`TraceLog.AppendAfterCutIsLost`).
- The review of staged changes uses a capability that the policy report never checks
  (`PolicySoundness.StagedReviewIsUnchecked`, and `PolicyExamples.StagedReviewCanBeMissing` with a
  clean report).
- The report compares a permission as written, the planner strips it and takes it in upper case: a
  permission written otherwise, such as `read` or one with a blank behind it, can be automatic for
  the planner and yet be refused for want of a confirmation (`PolicySoundness.AutomaticIsNeverRefused`
  says that only such a spelling is, `PolicyExamples.MisspelledPermissionEscapes` is a configuration
  with a clean report for each of them).
- The report does not check that a tool names a permission and a capability, without which the
  catalogue is refused and nothing can be planned (`PolicySoundness.CleanCatalogIsBuilt` says
  exactly when, `PolicyExamples.BlankPermissionStopsPlanning` is such a configuration with a clean
  report).
- The report counts the providers of a capability as written, the planner lower-cases and strips
  it: a second provider that spells it otherwise is not noticed (`PolicySoundness.CleanMeansOneProvider`
  says exactly when, `PolicyExamples.SecondProviderEscapes` is such a configuration with a clean
  report).
- A module that replaces itself in the module table and then raises or fails its check leaves its
  replacement behind (`ModuleResolver.FailureRestores` says exactly when,
  `ModuleResolver.ReplacementLeaks` is such a call).
- A lock whose file can be neither unlocked nor closed stays locked although its object forgets it
  (`StateLock.ReleaseUndoesAcquire`).
- A query term in a document can be missed if it comes from a capital sigma, which is lower-cased
  differently at the end of a chunk (`DocumentSearch.FinalSigmaIsMissed`); in text without that
  letter no short term is missed (`DocumentSearch.ShortTermIsFound` with
  `DocumentSearch.SigmaFreeIsCharacterWise`).
- The final cut of the context budget and the stop branch of the chunker are dead code
  (`ContextBudget.SelectionKeepsEnds`, `DocumentChunks.ChunkText`).
- A malformed usage report counts as a call, so that a request with no other report shows a usage
  of zero tokens (`RequestMetrics.UsageIsExact`).

## Model

| member | source | states |
|---|---|---|
| Newlines.NormalizeAbsorbs | tools/patch_tools.py:106-108 | a second normalisation forgets the first, whatever the two line endings; with equal endings this is the idempotence the stored-hash check rests on |
| Newlines.DetectNormalized | tools/patch_tools.py:82-108 | the line ending detected in a normalised text is the one it was normalised to, or LF if it has no line break |
| Newlines.UnifyInvertsEnding | tools/patch_tools.py:106-149 | writing unified text with any line ending and unifying again gives it back |
| PatchOutcomes.MostFrequentIsDetected | tools/patch_tools.py:86-103 | the line ending detected is the most frequent one, each break counted as the longest ending it is; ties go to CRLF, then LF |
| PatchStore.ApplyIsAtomic | tools/patch_tools.py:461-558 | ok means the complete new store; an error leaves all five stores as they were if and only if the call was refused, reading failed, or no handler step with something to undo raised |
| PatchStore.ApplyFailedUndone | tools/patch_tools.py:499-547 | for a failed run the handler restores everything if and only if its needed steps hold |
| PatchStore.RollbackIsAtomic | tools/patch_tools.py:561-666 | the same for rollback |
| PatchStore.ApplyStatesAreSafe | tools/patch_tools.py:505-532 | whichever write of an apply is the last to happen, the target holds the original bytes, or those written with a backup of the original; the patch can be found; nothing is recorded as applied but over the proposed bytes; no other file has changed |
| PatchStore.RollbackStatesAreSafe | tools/patch_tools.py:624-647 | whichever write of a rollback is the last to happen, backups and pending patches are untouched, at most the target has changed, and nothing is recorded as rolled back but over the original bytes |
| PatchStore.OriginalSurvives | tools/patch_tools.py:534-547 | after a failed apply the original is in the target or in its backup, if and only if the handler did not drop the backup of a target it could not restore |
| PatchStore.FailedRestoreLosesOriginal | tools/patch_tools.py:534-547 | if restoring the target raises, the proposed bytes stay, the patch is pending, no backup is left, and the patch cannot be applied again |
| PatchRuns.RunKeepsInv | tools/patch_tools.py:196-666 | over every run of propose, apply, rollback and outside edits, with any faults that spare the handlers, metadata, backups and history of every patch agree |
| PatchRuns.HistoryIsALife | tools/patch_tools.py:417-431 | in every reachable store the history of a patch is a prefix of applied, rolled back |
| PatchRuns.NextMovesForward | tools/patch_tools.py:461-666 | no event moves a patch back in its life, and a rolled-back record never changes |
| PatchRuns.RolledBackIsTerminal | tools/patch_tools.py:561-666 | after any further run a rolled-back patch has the full history and every apply or rollback of it is refused |
| PatchRuns.EditedTargetIsKept | tools/patch_tools.py:461-666 | a call changes a file only if it is confirmed and the file held exactly the bytes the patch expects, and with an apply the backup of those bytes exists |
| PatchRuns.DraftIsSound | tools/patch_tools.py:196-269 | every patch that is proposed passes its own stored-hash check later |
| PatchRuns.ProposalApplies | tools/patch_tools.py:196-558 | a fresh proposal can be applied and puts exactly the encoded content in place |
| PatchRuns.RollbackInvertsApply | tools/patch_tools.py:461-666 | apply then rollback restores all files, if and only if the proposed content has no NUL; otherwise the rollback is refused for ever |
| PatchRuns.NoVisibleChangeIsDead | tools/patch_tools.py:226-235 | the last refusal of a proposal never happens |
| PatchRuns.NulPatchIsStuck | tools/patch_tools.py:561-666 | a run from a store without patches in which a NUL is proposed and applied, and the rollback refused |
| PatchRuns.NewStoreInv | tools/patch_tools.py:196-269 | a store without patches meets the invariant of the runs |
| PatchFaults.EveryRunIsOrderly | tools/patch_tools.py:417-666 | over every run, whatever fails, the history of each patch names applying and rolling back at most once each and in that order, and no recorded patch is pending |
| PatchFaults.InvIsOrderly | tools/patch_tools.py:196-269 | every store that meets the invariant of the runs, such as one without patches, is orderly in this sense |
| PatchFaults.RolledBackForEver | tools/patch_tools.py:561-666 | whatever fails later, a rolled-back record never changes, and no apply or rollback of it changes the store |
| PatchFaults.OnlyExpectedBytesChange | tools/patch_tools.py:461-666 | whatever fails, a call changes a file only if it is confirmed and the file held exactly the bytes the patch expects |
| PatchFaults.ToldHistoryIsALife | tools/patch_tools.py:417-666 | over every run in which no apply both fails to write its history entry and to drop its record, whatever else fails, the history of each patch is a prefix of applied, rolled back |
| PatchFaults.InvIsTold | tools/patch_tools.py:196-269 | such a run can start in every store that meets the invariant of the runs |
| PatchFaults.RollbackAfterFailure | tools/patch_tools.py:505-547 | after a failed apply the patch can be rolled back if and only if the backup, the verified target and the record were written and the pending file removed, the history entry, the restoring of the target and the removal of the record failed, and the content has no NUL; the history is then empty |
| PatchFaults.RollbackWithoutApply | tools/patch_tools.py:524-547 | under these faults a rollback without any fault succeeds, restores the files, and is all the history says of the patch |
| PatchFaults.StubbornDisk | tools/patch_tools.py:524-547 | three failing steps are such faults for every patch |
| PatchBalance.RunBalances | tools/patch_tools.py:461-666 | over every run, what a file holds less the shifts of its outstanding patches is constant |
| PatchBalance.AllRolledBackRestoresFile | tools/patch_tools.py:461-666 | a file nobody else edited is what it was as soon as no patch of it is outstanding, in whatever order patches were applied and rolled back |
| PatchOutcomes.ProposeOutcome | tools/patch_tools.py:196-269 | a proposal succeeds exactly for content of allowed size that changes a text file of allowed size, and then adds one pending patch with the bytes to expect and to write, and nothing else |
| PatchOutcomes.ProposeErrors | tools/patch_tools.py:196-269 | every refusal of a proposal, with its condition |
| PatchOutcomes.ApplyOutcome | tools/patch_tools.py:461-558 | without a fault: a confirmed apply of a pending patch that fits its target overwrites the target with the encoded content, moves the patch to the applied ones, backs the old bytes up and writes the history entry; any other call changes nothing |
| PatchOutcomes.ApplyNeedsConfirmation | tools/patch_tools.py:467-470 | an apply that is not confirmed is refused for every store, patch and disk, and changes nothing; so is one of a patch that cannot be applied |
| PatchOutcomes.ApplySucceeds | tools/patch_tools.py:461-558 | an apply succeeds if and only if it is confirmed, the patch can be applied, and none of its own steps raises or writes other bytes than asked for |
| PatchOutcomes.ApplyErrors | tools/patch_tools.py:461-503 | every refusal of an apply, with its condition, in the order of the checks |
| PatchOutcomes.RollbackOutcome | tools/patch_tools.py:561-666 | without a fault: a confirmed rollback of an applied patch whose target and backup are as recorded puts the backed-up bytes back, marks the patch and writes the history entry; any other call changes nothing |
| PatchOutcomes.RollbackNeedsConfirmation | tools/patch_tools.py:567-573 | the same for a rollback that is not confirmed |
| PatchOutcomes.RollbackSucceeds | tools/patch_tools.py:561-666 | a rollback succeeds if and only if it is confirmed, the patch can be rolled back, and none of its own steps fails |
| PatchOutcomes.RollbackErrors | tools/patch_tools.py:561-622 | every refusal of a rollback, with its condition, in the order of the checks |
| PatchTools.PatchEngine.ProposePatch | tools/patch_tools.py:196-269 | the tool changes the stores as the store function says |
| PatchTools.PatchEngine.ApplyPatch | tools/patch_tools.py:461-558 | the tool checks, writes and undoes step by step and leaves the stores as the store function says, for every set of steps that raise |
| PatchTools.PatchEngine.ApplyHandler | tools/patch_tools.py:534-547 | the exception handler undoes step by step what the store function says |
| PatchTools.PatchEngine.RollbackPatch | tools/patch_tools.py:561-666 | the same for rollback |
| TraceLines.SplitAgrees | core/state_integrity.py:501-537 | splitting with kept line ends and stripping them gives the lines of `splitlines`, one for one |
| TraceLines.SplitRender | core/execution_trace.py:855-861 | splitting undoes writing records one per line, whatever unterminated text follows |
| TraceRepair.AnalyzeTrace | core/state_integrity.py:501-537 | the line loop computes the analysis: repaired bytes, torn tail, corruption, limits |
| TraceRepair.RepairKeepsRecords | core/state_integrity.py:501-537 | repaired bytes hold exactly the valid records, in order, and no other line |
| TraceRepair.RepairIsIdempotent | core/state_integrity.py:501-537 | analysing repaired bytes finds nothing to repair, exactly when they still fit the limit |
| TraceRepair.RepairLength | core/state_integrity.py:501-537 | repair never lengthens a file, except by one byte for a valid final record without any line break |
| TraceRepair.RepairCanOutgrowTheLimit | core/state_integrity.py:501-537 | such a file at its size limit is oversized after repair |
| TraceStore.RotationShifts | core/execution_trace.py:799-810 | a rotation moves every file up by one and drops the oldest |
| TraceStore.RotationRefines | core/execution_trace.py:799-810 | between any two operations of a rotation the store holds the newest part of the history, in order |
| TraceStore.AppendRefines | core/execution_trace.py:813-852 | an append refines appending to the history, whichever step fails, if its line is written whole or not at all |
| TraceStore.AppendFits | core/execution_trace.py:841-847 | every file stays within the limit while each line fits it on its own |
| TraceStore.BoundedCount | core/execution_trace.py:799-810 | there are at most backup count + 1 files |
| TraceOutcomes.AppendWithRoom | core/execution_trace.py:841-852 | if the active file, the line and its newline fit the limit, the text goes behind what is there and no other file changes, whatever else fails |
| TraceOutcomes.AppendWithoutRoom | core/execution_trace.py:799-852 | otherwise every file moves up by one, the oldest goes, and the text is the whole new active file |
| TraceOutcomes.AppendFailsInRotation | core/execution_trace.py:799-810 | if the rotation fails at an operation, the place of every file is what the operations before it made of it, and nothing is written |
| TraceOutcomes.AppendTooLong | core/execution_trace.py:752-824 | a line over the limit for records is not written |
| TraceOutcomes.AppendDropsOldestOnly | core/execution_trace.py:799-852 | with room an append adds its record to the log and drops none; without, exactly the records of the oldest file are dropped |
| TraceScan.ScanTraceStore | core/execution_trace.py:864-910 | the scan loop computes the scan function |
| TraceScan.ScanReturnsNewest | core/execution_trace.py:864-910 | on any files a scan returns the newest valid records up to its quota, and reports a limit only when the quota is used up |
| TraceScan.CleanScan | core/execution_trace.py:864-910 | on a clean store nothing is invalid, and the limit is reported exactly when a record was left unread |
| TraceScan.ScanRefinesHistory | core/execution_trace.py:864-910 | on a store that refines a history the scan is exactly the newest min(quota, records held) of it |
| TraceScan.LatestIsLastAppended | core/execution_trace.py:813-915 | the latest trace is the one just appended if its line fits the limit; otherwise the scan sees the backups only |
| ScanOutcomes.ScanReads | core/execution_trace.py:855-915 | every scan of any files: it stops exactly at the first line it comes across with its quota used up, and counts the files, the invalid lines and the files over the limit up to there |
| TraceLog.CutFileIsMended | core/state_integrity.py:501-537 | the exact fate of a file whose last write was cut anywhere: mended if it is within the size and line limits and can be rewritten, moved away if it is oversized, else left torn |
| TraceLog.CutStoreIsMended | core/state_integrity.py:815-883 | after a cut write and a repair the store refines the history if and only if the torn file is within its size limit, has at most 1000 lines, and could be rewritten |
| TraceLog.FullFileStaysTorn | core/state_integrity.py:512-514 | with a thousand records before the cut, repair leaves the store torn, and it no longer refines the history |
| TraceLog.OverlongLineIsMovedAway | core/state_integrity.py:857-865 | a line over the limit goes to an empty file, and the next repair moves it away: nothing is lost if it was cut short, else the store refines the history if and only if all it holds are copies of that record |
| TraceLog.AppendAfterCutIsLost | core/execution_trace.py:841-852 | without a repair, the next record is lost to every reader and the file counts as corrupt, unless the pieces parse together |
| TraceLog.RunRefines | core/state_integrity.py:815-883 | over every run of appends, failed rotations, failed opens, cut writes and repairs in which each cut write is repaired while repair can mend it, and no repair moves a file away, the store refines the history |
| TraceLog.EmptyLogRefines | core/execution_trace.py:799-852 | a store without files refines the empty history |
| TraceReads.EveryRunIsExplained | core/execution_trace.py:799-910 | over every run, also with cut writes that nobody repairs and repairs that refuse or move files away, what the store holds was recorded, in order and not twice, but for records that come from glued pieces of lines which happen to parse |
| TraceReads.EveryRunReadsHistory | core/execution_trace.py:799-910 | if glued pieces never parse, what a store that began empty holds after any run is a subsequence of what was recorded |
| TraceReads.EmptyReads | core/execution_trace.py:799-852 | a store without files is where such a run can start |
| TraceReads.TwoRecordsUnglued | core/execution_trace.py:841-852 | there are records whose glued pieces never parse |
| TraceReads.TwoRecordsLawful | core/execution_trace.py:841-852 | and they parse back as they were printed, on one line each, but no proper prefix does |
| TraceFiles.TraceDirectory.Rotate | core/execution_trace.py:799-810 | the renames done before a failure are those the rotation function names |
| TraceFiles.TraceDirectory.AppendTrace | core/execution_trace.py:813-852 | the append changes the files as the append function says |
| TraceFiles.TraceDirectory.QuarantineCopy | core/state_integrity.py:729-760 | a copy is accepted only if its bytes are in quarantine afterwards, and nothing there is overwritten |
| TraceFiles.TraceDirectory.RepairTraces | core/state_integrity.py:815-883 | every scanned file gets the fate the analysis and the faults decide; a file replaced as corrupt has its bytes in quarantine; an oversized one is moved, not deleted; the counters are exact |
| ScanOutcomes.FateIs | core/state_integrity.py:815-883 | the fate of every file by its size, its number of lines, its lines, its last byte, and the steps that fail |
| ScanOutcomes.FateLeaves | core/state_integrity.py:857-883 | a recovered or replaced file holds the rendered valid lines, one moved away is gone, every other one is as it was |
| TraceFiles.RepairKeepsOrMoves | core/state_integrity.py:815-883 | a repair keeps the records of every file, in order, unless it moves that file away, which it does exactly to scanned oversized files whose move succeeds |
| TraceFiles.RepairPreservesScan | core/state_integrity.py:815-883 | whatever could be repaired, moved, refused or only left alone, a scan afterwards returns the same traces, if no repaired file outgrows the limit |
| TraceFiles.CompleteRepairLeavesNothingInvalid | core/state_integrity.py:815-883 | if no step fails, a scan afterwards finds no invalid record |
| StateLock.MutualExclusion | core/state_integrity.py:132-289 | over every interleaving of the steps of any number of lock objects in any processes, at most one holds the lock, and at most one of a process its thread lock |
| StateLock.RunKeepsInv | core/state_integrity.py:247-311 | the flags of each object, the thread locks and the file lock always agree |
| StateLock.GivingUpLeavesNoTrace | core/state_integrity.py:280-289 | an attempt that is given up, before or after opening the stream, leaves every object, thread lock and the file lock as they were |
| StateLock.ReleaseUndoesAcquire | core/state_integrity.py:247-311 | taking and releasing the lock leaves every object, thread lock and the file lock as they were, if and only if the file was unlocked or its stream closed; else nobody can take the file lock any more |
| StateLock.GeneratedStateLock.Acquire | core/state_integrity.py:247-289 | while others interfere at every point, each outcome is one sequence of possible steps: all of the lock is held, or all that was taken has been given back; a call without attempts met a holder of its thread lock after waiting; every attempt that was busy met a holder of the file lock, and the last attempt decides; an object that already holds the lock times out and keeps it; the number of attempts is bounded by the timeout |
| StateLock.AcquireAlone | core/state_integrity.py:247-278 | a call nobody interferes with gets the lock, at its first attempt, if and only if the thread lock and the file lock are free, the file opens and the attempt does not break |
| StateLock.PauseEndsInTime | core/state_integrity.py:269 | a pause between attempts is 25 milliseconds, or what is left until the deadline |
| StateLock.GeneratedStateLock.ReleaseLock | core/state_integrity.py:291-311 | the steps made are those of a release, the thread lock is freed whatever fails, and an error is reported exactly if something failed |
| StateLock.NeverBothLocked | core/state_integrity.py:208-311 | two lock objects that agree with one machine never both believe that they hold the lock, nor, in one process, the thread lock |
| StateLock.AcquireBoth | core/state_integrity.py:247-289 | two objects that acquire the lock one after the other, whatever third objects do, never both get it, and the first keeps it; every call leaves alone what the machine knows of objects that do nothing meanwhile |
| PermissionGate.ExecuteIsGated | core/tool_executor.py:132-239 | with a policy a request calls its callable at most once, only if a rule allows it or a token or live grant covers it, and success means a call |
| PermissionGate.ExecuteOutcome | core/tool_executor.py:132-239 | the complete result of every request: unknown tool, each refusal of the policy, unreadable signature, wrong arguments, or one call with what it raises or returns |
| PermissionGate.ValidToolNameIs | permissions/models.py:60-70 | a tool name is a small letter followed by small letters, digits and underscores |
| PermissionGate.DecisionNeedsApproval | core/tool_confirmation.py:56-81 | exactly `True`, the decision itself and the texts y and yes approve once; exactly the decision itself and the texts s and session approve for the session, where that is offered |
| PermissionGate.AnswerDecides | core/tool_confirmation.py:84-106 | under a confirm rule without a live grant an approval makes the call with the token, a session approval makes it under a new grant if the rule is grantable and there is room, and every other answer calls nothing and leaves the grants alone |
| PermissionGate.NothingToConfirm | core/tool_confirmation.py:84-106 | without a prompt, or where nothing has to be confirmed, a confirmed execution is a direct one without token |
| PermissionGate.GrantOutcome | core/tool_executor.py:274-288 | a session grant is given exactly to a registered tool under a grantable confirm rule while there is room, and adds that tool only |
| PermissionGate.ConfirmedExecutionRuns | core/tool_confirmation.py:84-106 | a confirmed execution calls the callable at most once, exactly when rule, grants and the answer itself allow it, and ignores a token in the request |
| PermissionGate.OneTimeApprovalIsOneTime | core/tool_confirmation.py:84-106 | only a session approval of a grantable rule changes the grants; after a one-time approval the same request must be confirmed again |
| PermissionGate.TokenMeansApproval | core/tool_executor.py:257-272 | a call made with a token was made under a confirm rule and answered by an approval of one call |
| PermissionGate.RunIsGated | core/tool_executor.py:132-288 | over every run of execute, confirm, grant, revoke and clear every call was justified, and grants stay within grantable tools and the maximum |
| PermissionGate.FreshGateInv | core/tool_executor.py:132-288 | a gate without calls and grants meets the invariant of the runs |
| ToolExecutor.SessionGrantStore.GrantTool | permissions/session_grants.py:31-36 | a grant is added if the name is valid and there is room, else nothing changes |
| ToolExecutor.SessionGrantStore.Revoke | permissions/session_grants.py:41-46 | exactly the named grant is removed |
| ToolExecutor.Executor.ExecuteRequest | core/tool_executor.py:132-184 | state and result are those of the execution function |
| ToolExecutor.Executor.GrantSessionForTool | core/tool_executor.py:274-288 | a session grant is made exactly under current policy, else nothing changes |
| ToolExecutor.Executor.ExecuteConfirmed | core/tool_confirmation.py:84-106 | state and result are those of the confirmation function |
| PlanExecution.ValidatePlan | core/execution_plan.py:120-160 | a plan is accepted if and only if its sizes are right, its ids are distinct and every dependency names an earlier step; each size has its error, and the step an error names is the first guilty one |
| PlanExecution.PreflightBlocksFirst | core/plan_executor.py:326-383 | the preflight passes if and only if every step has an admitted permission and a registered tool |
| PlanExecution.ReportedFailureFails | core/plan_executor.py:151-213 | a step counts as successful if and only if its call was and its data reports no failure |
| PlanExecution.RunStepCalls | core/plan_executor.py:441-500 | one step makes at most one call, of its own tool with its own arguments, and succeeds only with a call |
| PlanExecution.PlanTrace | core/plan_executor.py:326-561 | a blocked plan calls nothing; otherwise results are for a prefix of the steps, all but the last successful, each with at most one call; completed if and only if all succeeded |
| PlanExecution.ValidPlanTrace | core/plan_executor.py:388-561 | for a validated plan the incomplete-dependencies branch is unreachable, and the progress events are determined by the results |
| PlanOutcomes.StepResultIs | core/plan_executor.py:151-213 | the whole result of a step: status, data and code of its call, or a failure without data under the code the data reports |
| PlanOutcomes.StepCallIs | core/plan_executor.py:441-500 | a step is called directly if its permission is automatic, otherwise under a prompt for its own id, and without a token |
| PlanOutcomes.PlanEnds | core/plan_executor.py:388-561 | any plan that passes its preflight executes its steps in order, each on the state the ones before it left, until all are done, one failed, or one depends on what is not before it; status, results and reason are exactly those |
| PlanOutcomes.PlanIsBlocked | core/plan_executor.py:326-383 | the first step that may not start decides the reason, the step named and what is shown, and nothing is called |
| PlanExecution.PlanIsGated | core/plan_executor.py:388-561 | every call a plan makes was justified by the gate |
| PlanExecution.RunPlan | core/plan_executor.py:216-561 | the loop with its mutable lists computes the plan function on the executor's state |
| ToolPlanner.BuildToolCatalog | core/tool_catalog.py:163-250 | the catalogue describes the configured tools in order, with names, permissions and capabilities normalised, and is refused exactly when there is none or some tool has a blank name, is not registered, or names no permission or no capability; the error is that of the first such tool |
| ToolPlanner.EntryOutcome | core/tool_catalog.py:163-250 | the error of every entry, with its condition, and the three fields of what it describes |
| ToolPlanner.ProvidedInOrder | core/tool_planner.py:46-58 | capabilities keep their order, blank ones are left out, the others are stripped and lower-cased |
| ToolPlanner.BeforeIsCodePointOrder | core/tool_planner.py:116 | the order of names is the one by code points, prefixes first |
| ToolPlanner.BuildCapabilityIndex | core/tool_planner.py:103-127 | the index maps each capability to its first provider by name, and is refused exactly for an empty catalogue or a repeated name, of which the first in order is named |
| ToolPlanner.IndexOfSorted | core/tool_planner.py:103-127 | the index has exactly the provided capabilities, each with the provider whose name comes first |
| ToolPlanner.IndexIgnoresOrder | core/tool_planner.py:103-127 | the index does not depend on the order of the catalogue |
| ToolPlanner.PlanTools | core/tool_planner.py:165-326 | every outcome with its condition: no route, bad catalogue, the missing capabilities in order, the first capability without arguments or against a constraint, or one step per required capability, in order |
| ToolPlanner.RequiredIs | core/tool_planner.py:73-163 | the capabilities required for each intent and interpretation |
| ToolPlanner.ForbiddenIs | core/tool_planner.py:267-297 | what each of the three constraints forbids |
| ToolPlanner.RoutesAre | core/tool_planner.py:73-101 | the routes of all intents, and their names |
| ToolPlanner.PlannedIsValid | core/execution_plan.py:120-160 | every plan of the planner's shape passes plan validation |
| PolicyConsistency.ReportIsExact | core/policy_consistency.py:278-581 | the report lets tools run if and only if names, domains, routes, permissions, rules, model profiles and active plugins are mutually consistent |
| PolicyConsistency.ValidatePolicyConsistency | core/policy_consistency.py:225-581 | the loops and the sort give all issues of the report, in the order of their keys, and these let tools run if and only if the configuration is consistent |
| PolicyOutcomes.ReportSays | core/policy_consistency.py:278-581 | an issue is in the report if and only if what its code means is the case, with exactly its severity, subject and related name, for every code |
| PolicyOutcomes.LastPermission | core/policy_consistency.py:292 | of several rules for one tool the last one counts |
| PolicyOutcomes.LastDomain | core/policy_consistency.py:291 | likewise for domains of one name |
| PolicyOutcomes.LastProfile | core/policy_consistency.py:537 | the profile looked up for an intent is that of its last mapping |
| PolicyConsistency.ReportIsDetermined | core/policy_consistency.py:138-155 | the sorted report has all issues found, and neither it nor the decision depends on the order in which they were found |
| PolicySoundness.CleanMeansOneProvider | core/policy_consistency.py:391-437 | under a clean report every capability on the route of an active intent has a provider in the catalogue, and exactly one if and only if all tools providing it spell it as the route does |
| PolicySoundness.CleanMeansPlannable | core/tool_planner.py:219-240 | under a clean report planning an active intent reports an unavailable capability if and only if it is a review of staged changes and no tool of the catalogue provides that |
| PolicySoundness.StagedReviewIsUnchecked | core/tool_planner.py:145-150 | a staged review can be planned if and only if some tool happens to provide its capability |
| PolicySoundness.CleanMeansAdmitted | core/policy_consistency.py:439-494 | under a clean report a catalogue tool is refused if and only if its rule asks for confirmation and no grant is live, and then its permission is not automatic |
| PolicySoundness.AutomaticIsNeverRefused | core/tool_executor.py:186-239 | under a clean report a catalogue tool with an automatic permission is refused if and only if its rule asks for a confirmation, no grant is live, and the configuration does not write that permission as the planner reads it, stripped and in upper case |
| PolicySoundness.CleanPlanIsNeverRefused | core/plan_executor.py:326-561 | any plan over the catalogue, of automatic and confirmed steps alike: it is blocked if and only if some step is not admitted; no step is ever unknown or denied; no automatic step is refused, unless misspelled; and a policy error needs a session grant there is no room for |
| PolicySoundness.PlannerOutputRuns | core/production_snapshot.py:308-377 | from report to run: what the planner returns is a valid plan, is blocked if and only if some step is not admitted, is answered as above, and stops only if a step fails |
| PolicySoundness.CleanCatalogIsBuilt | core/tool_catalog.py:163-250 | under a clean report with an active intent the catalogue is refused if and only if some tool in it names no permission or no capability; that there is one, and that all are registered, follows from the report |
| PolicyExamples.CleanReportExists | core/production_snapshot.py:308-349 | the hypotheses of these results can be met together: snapshots with an active intent, an allowed or confirmed tool and a clean report |
| PolicyExamples.StagedReviewCanBeMissing | core/tool_planner.py:145-150 | with a clean report and code review active, the review of staged changes cannot be planned |
| PolicyExamples.MisspelledPermissionEscapes | core/policy_consistency.py:439-494 | for every spelling that only the planner reads as the automatic permission: the report is clean, the step is automatic for the planner, and the executor asks for a confirmation |
| PolicyExamples.ReadHasOtherSpellings | core/tool_planner.py:47-48 | the automatic permission has such spellings: with a blank, and in lower case |
| PolicyExamples.BlankPermissionStopsPlanning | core/tool_planner.py:60-63 | with a clean report and an active intent a blank permission makes the catalogue fail |
| PolicyExamples.SecondProviderEscapes | core/policy_consistency.py:391-437 | for every spelling that only the planner reads as the capability of the route: the report is clean, the intent active, and the catalogue has two providers |
| PolicyExamples.DiffHasOtherSpellings | core/tool_planner.py:49-53 | the capability of code reviews has such spellings: with a blank, and in capitals |
| ModuleResolver.CleanupRemovesOwn | plugins/module_resolver.py:236-250 | the cleanup removes exactly the entries that hold what the log says this call put there |
| ModuleResolver.FailureRestores | plugins/module_resolver.py:280-339 | if module code keeps to its own entry and namespace, a failure at any position restores all other namespaces, and the module table if and only if the failing module had not replaced itself before it raised or failed its check; else that one entry is left |
| ModuleResolver.ReplacementLeaks | plugins/module_resolver.py:280-339 | a call with well-behaved code whose one module replaces itself and raises leaves the replacement in the table |
| ModuleResolver.CleanupSparesPreexisting | plugins/module_resolver.py:236-339 | whatever the loaded code does, the cleanup never removes or changes an entry that was there when the call started |
| ModuleResolver.SuccessBinds | plugins/module_resolver.py:280-326 | success leaves every prefix registered and bound in its parent's namespace, returns the last, and changes nothing that was there |
| ModuleResolver.ResolveIsPlainLoading | plugins/module_resolver.py:253-339 | for any module code: a call succeeds if and only if specs were found, every module already there is valid before loading, and every element in turn is valid, does not raise and keeps its place; the result and both maps are then those of loading the chain without any bookkeeping |
| ModuleResolver.Interpreter.ResolveModule | plugins/module_resolver.py:253-339 | the loop over the chain with its two undo lists computes the resolution function |
| ModuleResolver.Interpreter.UndoAll | plugins/module_resolver.py:236-250 | both lists are undone in reverse order |
| GeneratedBlock.MarkersAreTags | tools/doc_builders.py:104-114 | for every valid document id the two markers have one opening bracket, no line break, and neither begins the other |
| GeneratedBlock.ValidIdIs | tools/doc_tools.py:18 | an id is a small letter followed by small letters, digits, underscores and hyphens |
| GeneratedBlock.MarkersShow | tools/doc_builders.py:104-114 | the two markers differ in one word and show the id behind it |
| GeneratedBlock.BlockHolds | tools/doc_builders.py:129-133 | a block is the start marker, the body up to its last solid character and the end marker, on lines of their own |
| GeneratedBlock.MergeIsCompose | tools/doc_builders.py:117-173 | a merge succeeds if and only if the document has no marker, or one of each in order; the result is the text around the block, trimmed at the joints, around the new block; out of order is reported exactly for one of each, swapped |
| GeneratedBlock.LastBodyWins | tools/doc_builders.py:117-173 | merging twice is merging the second body, for marker-free bodies; with equal bodies this is idempotence |
| GeneratedBlock.OutputMergesAgain | tools/doc_builders.py:117-173 | the output of a merge can be merged again if and only if its body held no marker |
| DocumentChunks.ChunkText | rag/document_chunker.py:4-38 | the loop computes the chunks, its stop branch is never taken, and the three refusals are exactly the bad arguments |
| DocumentChunks.ChunkAt | rag/document_chunker.py:15-36 | chunk k starts k steps into the text and holds the text between its bounds; exactly the last ends with the text |
| DocumentChunks.ChunksReassemble | rag/document_chunker.py:15-36 | the first chunk and the others without their overlap give the text back |
| DocumentChunks.ShortStretchInOneChunk | rag/document_chunker.py:15-36 | every stretch of at most overlap + 1 characters lies in one chunk |
| DocumentChunks.LongerStretchMayBeCut | rag/document_chunker.py:15-36 | in every text longer than a chunk some stretch of overlap + 2 characters lies in none |
| DocumentSearch.SearchDocuments | rag/document_search.py:9-43 | the nested loops, the sort and the cut compute the search function of query, documents and limit |
| DocumentSearch.TermsAreMaximalRuns | rag/document_search.py:9-10 | the terms of a query are exactly the longest stretches of word characters of its lower-cased text |
| DocumentSearch.QueryTermsAreListed | rag/document_search.py:9-10 | they come from the left, each as often as it is there |
| Strings.CountIsGreatest | rag/document_search.py:29-30 | the occurrences counted of a term are as many as there can be without overlap |
| DocumentSearch.ScoreAdds | rag/document_search.py:29-30 | the score of a chunk is the sum of these counts over the terms |
| DocumentSearch.HitsInOrder | rag/document_search.py:24-40 | the hits come document by document and chunk by chunk, one for each chunk with a positive score and no other |
| DocumentSearch.RankingIsStable | rag/document_search.py:42 | the ranking is a permutation of the hits in falling order of score that keeps hits of one score in the order found |
| DocumentSearch.HitsAreFound | rag/document_search.py:26-40 | every hit is a chunk in which some term occurs |
| DocumentSearch.ShortTermIsFound | rag/document_search.py:24-40 | a chunked document whose lower-cased text contains a query term of at most overlap + 1 characters yields a hit whose chunk contains it, if each character of this document is lower-cased on its own, to any number of characters |
| DocumentSearch.SigmaFreeIsCharacterWise | rag/document_search.py:29 | that is so for every text without a capital sigma, if all text without that letter is lower-cased letter by letter |
| DocumentSearch.WordsAreLetterWise | rag/document_search.py:29 | a lower-casing that knows the final sigma is of this kind |
| DocumentSearch.FinalSigmaIsMissed | rag/document_search.py:24-26 | with a letter that is lower-cased differently at the end of a chunk, a short term that occurs in the document is not found |
| DocumentSearch.SearchReturnsBest | rag/document_search.py:42-43 | a search returns a prefix of the ranking, of the length of a Python slice for a limit of either sign, and no hit left out scores higher than one returned |
| ContextBudget.SelectionKeepsEnds | core/context_budget.py:62-100 | for every split the selection is a prefix, the marker and a suffix, which do not overlap; it fits the limit, so nothing is cut; each side loses at most half of its share and line breaks |
| ContextBudget.BudgetIsKept | core/context_budget.py:33-82 | for every way of rounding the head's share the result fits the limit and is the evidence itself exactly when that fits; the refusals are exactly the bad arguments |
| ContextBudget.TruncationIs | core/context_budget.py:62-100 | truncated evidence character by character: the ratio belongs to the head; the head ends behind its last newline past its middle, the tail begins behind its first newline before its middle, and the line breaks at the joints go |
| RequestMetrics.RunConservesTime | core/request_metrics.py:128-196 | over every run and every clock the phase totals are the time up to the last reading used plus every step by which the clock went back |
| RequestMetrics.PhasesSumToDuration | core/request_metrics.py:158-203 | the phase durations sum to the duration if and only if the clock never went back or no phase took time |
| RequestMetrics.TimeIsCredited | core/request_metrics.py:128-143 | over every run each phase is credited with exactly its own stretches |
| RequestMetrics.SnapshotIsExact | core/request_metrics.py:158-203 | the snapshot is that of the first finish: its status, the time from the start, and each phase that took time with that time, in the order of the phases |
| RequestMetrics.UsageIsExact | core/request_metrics.py:145-186 | the token usage is the exact sum of what was reported, and is given if and only if some call was recorded and none lacked its usage |
| RequestMetrics.FinishedIsFinal | core/request_metrics.py:128-170 | nothing called after the finish changes anything |
| RequestMetrics.RequestMeter.Mark | core/request_metrics.py:128-143 | the object changes as the phase event says |
| RequestMetrics.RequestMeter.Finish | core/request_metrics.py:158-203 | the object changes as the finish event says, and a later call returns the first snapshot |
| ProjectMemory.IdRoundTrip | memory/project_memory.py:151-159 | formatting a number up to 999999 and parsing it again gives it back |
| ProjectMemory.ValidEntriesAre | memory/project_memory.py:65-93 | each entry of a valid document has an id of `mem-` and six digits, one of the three kinds, text that is not blank and has at most 2000 characters, and is saved manually |
| ProjectMemory.ValidateDocument | memory/project_memory.py:65-93 | a document is accepted if and only if every entry is valid and the ids are distinct |
| ProjectMemory.MemoryStore.AddMemory | memory/project_memory.py:137-168 | every outcome with its condition, in the order of the checks; a saved entry is appended under the least number above all others, as six ASCII digits, and keeps the document valid; every refusal changes nothing |
| ProjectMemory.BuildMemoryContext | memory/project_memory.py:218-245 | the loop takes exactly the greedy choice |
| ProjectMemory.OrderedKeepsKinds | memory/project_memory.py:225-226 | ordering by kind moves no entry past another of its kind, and neither loses nor repeats one |
| ProjectMemory.OfKindLast | memory/project_memory.py:225-226 | the entries of a kind are taken in order, one by one |
| ProjectMemory.LineShows | memory/project_memory.py:239-240 | the line of an entry shows its kind, its id and its quoted text, and ends in the only newline |
| ProjectMemory.LinesJoin | memory/project_memory.py:238-243 | the lines of a context come one behind the other |
| ProjectMemory.ContextIsMaximal | memory/project_memory.py:225-245 | the choice is in kind order and within both limits, and no entry left out would still fit unless the entry limit was reached |

## Left out

- PatchRuns.RunKeepsInv: assumes that patch ids are never reused and that the handlers' own writes succeed; `PatchFaults.EveryRunIsOrderly` does without the second.
- TraceStore.AppendRefines: assumes that a line is written whole or not at all; cut writes are covered by `TraceLog.RunRefines`, `TraceLog.AppendAfterCutIsLost` and `TraceReads.EveryRunReadsHistory`.
- TraceReads.EveryRunReadsHistory: assumes that text glued together from pieces of lines never parses, which is a property of the record format that is not modelled; `TraceReads.EveryRunIsExplained` does without.
- ToolPlanner.PlanTools: a step of a plan strips and upper-cases its permission once more, which is taken to change nothing.
- PolicyConsistency.ValidatePolicyConsistency: the keys it sorts by are a parameter, because layers, messages and details of issues are not modelled.
- PolicySoundness.CleanPlanIsNeverRefused: `str.upper` and `str.lower` are parameters that are fixed on ASCII text only.
- StateLock.GeneratedStateLock.Acquire: time is in whole milliseconds, waiting for the thread lock is one step, and locks of other scopes are not modelled.
- ModuleResolver.FailureRestores: the search for specs, path checks and the validation of a module are parameters; setting an attribute is taken not to fail.
- ProjectMemory.BuildMemoryContext: the fixed header is a parameter, as are JSON quoting, case folding and lower-casing; creation times are not modelled.
- DocumentSearch.ShortTermIsFound: lower-casing is a parameter, and so is which characters belong to a word.
- RequestMetrics.RunConservesTime: clock readings and sums are real numbers, where the source adds floats.
- RequestMetrics.PhasesSumToDuration: likewise, so that the source's sum agrees up to rounding.
- JSON text, UTF-8 decoding and SHA-256 themselves, and the field-by-field conversion of traces to and from dictionaries.
- Branches for metadata whose JSON is malformed or whose fields have the wrong type.
- Path resolution, symbolic links, blocked directories, files that cannot be read, and size checks of files other than the ones above.
- The report, temporary-file and quarantine-retention parts of local-state repair, and the read-only inspection of local state.
- Patch titles, reasons, diffs and timestamps; step observers and diagnostics; display texts of prompts and results.
- The lock calls around trace appends and repairs: each of these operations is one atomic event of a run.
- Rendering of documentation blocks, discovery of commands, and the loop that proposes documentation patches.
- Intent analysis, task interpretation, argument building and validation: their results are inputs of the planner.
- The command line, HTTP and subprocess tools, document readers, workflows, domain and plugin registries: plumbing or easy members.
