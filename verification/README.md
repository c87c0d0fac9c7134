# Kiokuko: verified models of its protocols

Kiokuko is local-first agent memory. This project models, in Dafny, the parts of it whose correctness depends on
interference, retries, partial failure or exact text handling, and proves what they promise.

| part | modules |
|---|---|
| conditional file replacement and deletion | `AtomicNames`, `Disks`, `Directories`, `AtomicCleanup`, `AtomicUpdate`, `AtomicInstall`, `AtomicWrite`, `AtomicDelete`, `AtomicHistory` |
| client hook transactions | `HookTables`, `HookStore`, `HookInvariants`, `HookSafety`, `HookHistory`, `HookStops`, `HookOutcomes` |
| verification contracts | `VerificationTables`, `VerificationStore`, `VerificationHistory`, `VerificationFreshness` |
| managed text blocks | `MarkerText`, `ManagedBlock`, `ManagedBlockSeams`, `ManagedBlockShape`, `WellFormedBlocks`, `ManagedBlockLaws`, `ManagedBlockKinds` |
| archive import and supersession | `Supersession`, `ImportTables`, `ImportStore`, `ImportApply`, `ImportLaws` |
| acknowledgement matching | `Acknowledgements`, `AcknowledgementCheck` |
| bounded readers | `LogStream`, `TranscriptReader`, `DesktopTurns`, `DesktopOutcomes` |
| capability catalog | `CapabilityCatalog`, `CatalogNormalization`, `CatalogBinding` |
| shared | `Wrappers`, `FiniteSets`, `Sorting`, `LineBreaks` |
| discovery attempts and intake | `DiscoveryAttempts`, `DiscoveryStore`, `DiscoveryOutcomes`, `IntakeSessions`, `IntakeStore`, `IntakeOutcomes` |

Conventions. Code that changes rows, files or buffers is a class or a method with loops; each method is proved against a
function on values, and the laws are lemmas about these functions. SQL tables are maps and sequences, a transaction is one
atomic step, hashes are injective (a content stands for its hash), JSON text is its value, and the clock is a parameter.
A directory maps names to inodes; hooks are points at which other processes may do anything to it, or which may throw, and
system calls and reads may fail. `quiet` says that hooks change nothing, and `faults` counts the hooks that threw and the calls
and reads that failed, with the number of steps taken before the last of them. `Gap` is the stretch between the removal of the
target and the check that it arrived in quarantine: a failure there is reported, not undone.

Two exceptions to what one would expect of the code are stated exactly:

- An interrupted mutation that has reached its cleanup rename is not recognised when the basename consists of dots only
  (`AtomicNames.DisposedQuarantineRecognised`, with an example in `AtomicNames.DotsAreNotRecognised`).
- Inserting a block twice is idempotent except for a file without CRLF that ends in a bare CR: the appended separator
  makes it a CRLF file, and the next insertion rewrites the block (`ManagedBlockLaws.UpsertTwice`, with an example in `ManagedBlockLaws.BareCrIsRewritten`).

Verify with `dafny verify dfyconfig.toml`.

## Model

| member | source | states |
|---|---|---|
| `AtomicNames.PrefixesCollide` | src/agent-file/atomic-write.ts:418-419 | a name can start with both recogniser prefixes exactly when the basename consists of dots only |
| `AtomicNames.QuarantineRecognised` | src/agent-file/atomic-write.ts:441-459 | every freshly quarantined artifact is read back by the recogniser with its kind |
| `AtomicNames.DisposedQuarantineRecognised` | src/agent-file/atomic-write.ts:569-572 | after the cleanup rename it is read back with its kind exactly when the basename is not made of dots only |
| `AtomicNames.DotsAreNotRecognised` | src/agent-file/atomic-write.ts:441-459 | a basename that shows the exception: the quarantine of a file named with three dots is recognised, and after the cleanup rename no longer |
| `AtomicNames.RecognisedNames` | src/agent-file/atomic-write.ts:441-459 | nothing else is recognised: a recognised name spells this basename, a UUID and one of the three kinds, as quarantined or as disposed of |
| `AtomicNames.TemporaryNotRecognised` | src/agent-file/atomic-write.ts:1236 | a temporary file is never taken for an interrupted mutation |
| `Directories.Directory.Interfere` | src/agent-file/atomic-write.ts:574-606 | a hook: the environment may leave the directory in any state; the history stays safe |
| `Directories.Directory.Rename` | src/agent-file/atomic-write.ts:574-606 | a rename that is refused changes nothing; one that succeeds has exactly its effect and is recorded |
| `Directories.Directory.Link` | src/agent-file/atomic-write.ts:1028-1032 | a link never replaces an existing name |
| `Directories.Directory.Unlink` | src/agent-file/atomic-write.ts:574-606 | a removal that is refused changes nothing; one that succeeds has exactly its effect and is recorded |
| `AtomicCleanup.RenameOwned` | src/agent-file/atomic-write.ts:574-592 | a rename of a rechecked artifact to an absent name keeps the history safe |
| `AtomicCleanup.UnlinkOwned` | src/agent-file/atomic-write.ts:593-606 | a removal of an artifact found unchanged after the hook keeps the history safe, when another link of the original remains or the call has committed |
| `AtomicCleanup.CleanupBoundArtifact` | src/agent-file/atomic-write.ts:555-629 | cleanup keeps the history safe; with quiet hooks it leaves the disk alone, moves the exact artifact to its disposal name, or removes it; without faults it removes it, and after one fault each of the two names that is still bound is the one reported |
| `AtomicCleanup.BindOwnedCleanupFailure` | src/agent-file/atomic-write.ts:631-660 | a recovery name is reported only where the exact inode, bytes and mode were read back, and without faults the first candidate that holds them is |
| `AtomicCleanup.RestoreQuarantinedTarget` | src/agent-file/atomic-write.ts:682-726 | restoring links the original back before its quarantine name is disposed of, and never replaces what is at the target; without faults it succeeds on a held original and an absent target |
| `AtomicCleanup.ThrowAfterOriginalRestoreAttempt` | src/agent-file/atomic-write.ts:737-763 | a failure is reported as uncommitted only when the planned original was read back at the target |
| `AtomicUpdate.QuarantineTarget` | src/agent-file/atomic-write.ts:886-993 | a failure before the rename leaves the target alone, and every later one restores it or says that it is displaced; after a single fault the original stays displaced only when that fault came in the hook or the check right after the rename, and is then reported under its quarantine name, while any other single fault leaves the directory exactly as it was |
| `AtomicUpdate.CheckTaken` | src/agent-file/atomic-write.ts:928-962 | the hook right after the target was taken away, for updates and deletions: a single failure there reports the original under its quarantine name |
| `AtomicUpdate.LinkPrepared` | src/agent-file/atomic-write.ts:994-1058 | links the prepared file at the absent target; without faults it succeeds, and a single failure, such as a refused link, puts the original back, disposes of the quarantine name and raises the plain error |
| `AtomicUpdate.ConfirmInstalled` | src/agent-file/atomic-write.ts:1060-1096 | after the link every failure is a committed mutation, and a single one reports the original under its quarantine name |
| `AtomicUpdate.ConditionalUnlinkInstalled` | src/agent-file/atomic-write.ts:765-868 | the installed file is taken away again only while the target holds the exact file that was linked, with its two links; with quiet hooks no other name changes; without faults it succeeds and leaves the new file one link |
| `AtomicUpdate.RollBack` | src/agent-file/atomic-write.ts:1105-1180 | when an alternate target appears the new file is withdrawn and the original restored, truthfully classified; without faults, and with everything still in place, the original is back and the error is the plain one |
| `AtomicInstall.ConditionalInstall` | src/agent-file/atomic-write.ts:870-1212 | the installation is safe step by step; with quiet hooks its outcome is truthful; without faults it succeeds exactly when the expectation holds; after a single fault the target is missing only when that fault came right after it was taken away, every name left behind is reported, and the link count of the temporary name is the one that its disposal expects |
| `AtomicWrite.PrepareTemporary` | src/agent-file/atomic-write.ts:1214-1400 | the temporary file holds exactly the new contents and mode, or is removed; no other name is touched; after a single failure no name is left |
| `AtomicWrite.AtomicWriteTextIfUnchanged` | src/agent-file/atomic-write.ts:1214-1488 | whatever hooks do and whichever calls fail, the recorded steps lead from the disk that was given to the disk that is left, never lose the original, touch no foreign file and act on rechecked artifacts (`History`); success has passed the commit point; with quiet hooks a clean return means the target is the new single-link file and nothing else differs, a committed error means the target holds the new file, any other error leaves inode, bytes and mode as they were, and every crash point is recoverable; without faults the write happens exactly when the plan holds; after at most one fault, unless it came in the hook or the check right after the target was taken away, the error is never a committed unlink and the target shows the planned original or the new file; after at most one fault anywhere, every name left behind is reported |
| `AtomicDelete.UnlinkRegularFileIfUnchanged` | src/agent-file/atomic-write.ts:1490-1613 | the same for a conditional deletion: safe history, truthful outcomes, deletion exactly when the plan holds without faults; after at most one fault, unless it came right after the target was taken away, the target is as it was or the deletion had committed, and every name left behind is reported |
| `AtomicDelete.FinishDelete` | src/agent-file/atomic-write.ts:1535-1613 | a missing arrival is reported, an alternate restores the target with the plain error, and otherwise the deletion is committed before the original is disposed of |
| `AtomicHistory.OriginalIsNeverLost` | src/agent-file/atomic-write.ts:555-619 | own steps take the last link of the planned original only after the commit point: new file linked and validated, or for a deletion the original alone in quarantine |
| `AtomicHistory.ForeignFilesAreNeverTouched` | src/agent-file/atomic-write.ts:574-606 | own steps unbind only names that hold the new file or the planned original, bind only absent names, and write only the new file |
| `AtomicHistory.EditsAtHooksAreRespected` | src/agent-file/atomic-write.ts:555-606 | own steps take the target away, link the new file and remove names only when inode, bytes, mode and link count there came unchanged through the last hook; the target must be the planned original or the new file with its two links, and the new file is linked while it has one: an edit in place or an extra link made at a hook stops them |
| `AtomicHistory.CrashesAreRecoverable` | src/agent-file/atomic-write.ts:937-992 | with quiet hooks, at every crash point of an update or a deletion the target is in place or the original sits under a name read back as this kind of mutation; otherwise a deletion has committed and then removed a name, or its basename is all dots |
| `AtomicHistory.InvIsHistory` | src/agent-file/atomic-write.ts:555-619 | what every method of the file protocol keeps gives the steps of the whole call this meaning |
| `AtomicHistory.ReadPendingAtomicMutation` | src/agent-file/atomic-write.ts:431-483 | the one recognised artifact of the basename is bound with its kind and exact snapshot; without faults the answer is nothing exactly when no name is recognised, a conflict exactly when several are, and a refusal exactly when the single artifact has further links |
| `AtomicHistory.PendingIsTheOriginal` | src/agent-file/atomic-write.ts:431-483 | after a crash with the target missing, a single recognised name reads back as a `previous` mutation of the original |
| `HookStore.Store.Admit` | src/assurance/codex-hooks.ts:321-336 | the admission transaction, proved against its function on table values |
| `HookStore.Store.Complete` | src/assurance/codex-hooks.ts:402-503 | the completion transaction; a refusal rolls every write back |
| `HookStore.Store.DenyTurn` | src/assurance/codex-hooks.ts:158-174 | the durable stop flag is set before the bound run is failed |
| `HookStore.Store.Bind` | src/assurance/codex-hooks.ts:371-388 | a preparation response binds a run only while the turn is not stopped |
| `HookStore.Store.Interrupt` | src/assurance/codex-hooks.ts:205-218 | an interruption cancels and stops the turn |
| `HookSafety.EvidenceIsTraced` | src/assurance/codex-hooks.ts:402-497 | over every interleaving, each client-observed evidence row comes from one call row with the run, delivery and repository state of its admission, and no call row originates two |
| `HookSafety.RecordedUnderBinding` | src/assurance/codex-hooks.ts:402-497 | a completion appends at most one row, only while its request is bound and unstopped on an active run, at the delivery and digest of the admission; the outcome is passed exactly on exit code 0 |
| `HookSafety.CallRecordsOnce` | src/assurance/codex-hooks.ts:456-459 | once a call has evidence, then after any further transactions no completion of it, replayed or polled, appends another row |
| `HookHistory.EvidenceHasHistory` | src/assurance/codex-hooks.ts:321-497 | over every run from empty tables, each client-observed evidence row was recorded by a completion, after an admission for the same identity, run, delivery and repository state, and each of the two found its request bound, unstopped and active on that run |
| `HookHistory.AdmissionIsTraced` | src/assurance/codex-hooks.ts:321-336 | over every run, each row that carries its own admission was written by one admission step with these very values |
| `HookSafety.AdmissionsAreBound` | src/assurance/codex-hooks.ts:321-335 | a call row that is its own root is written only by an admission whose request was bound, unstopped and active on that run |
| `HookSafety.ApplyKeeps` | src/assurance/codex-hooks.ts:124-504 | every transaction keeps the table invariant: rows rooted in admissions, links to observed evidence, one evidence row per call, owned processes |
| `HookStops.StopIsAbsorbing` | src/assurance/codex-hooks.ts:158-183 | one transaction, even one that acts on a stale read, neither clears a stop, nor binds a run, nor adds a call or evidence row for the stopped turn |
| `HookStops.StoppedForever` | src/assurance/codex-hooks.ts:321-346 | the same over every continuation |
| `HookOutcomes.ExitIsKnown` | src/assurance/codex-hooks.ts:69-73 | an exit code is known exactly in a finished, undisturbed, structured response, or else from a host receipt |
| `HookOutcomes.CommandIsRecorded` | src/assurance/codex-hooks.ts:488-497 | the converse: a completion of an admitted command or of a poll, with everything still as admitted and a known exit code, answers with the next evidence number, appends exactly one row with the run, delivery, input and state of the admission, passed exactly on exit code 0, and links the call row and the row of the poll to it |
| `HookOutcomes.PollIsRecordedForItsCommand` | src/assurance/codex-hooks.ts:413-429 | over every continuation: the exit code that a later poll of the remembered process brings is recorded for the command that was admitted |
| `HookOutcomes.ProcessIsRemembered` | src/assurance/codex-hooks.ts:432-452 | a completion binds exactly the processes that it names, to the call that it completes, and changes no other binding |
| `HookOutcomes.UnfinishedIsCounted` | src/assurance/codex-hooks.ts:474-487 | without an exit code only the mark of the call and the counters change: first as running, then as unknown, and repetitions count nothing |
| `HookOutcomes.EvidenceIsAnswered` | src/assurance/codex-hooks.ts:456-459 | a call that has evidence is answered with it, the row of a poll is linked to it, and nothing is added |
| `HookOutcomes.ChangeIsNoted` | src/assurance/codex-hooks.ts:465-472 | another repository state is noted once per call, with a new revision unless it had been observed, and nothing is recorded |
| `HookOutcomes.OldDeliveryIsNotVerified` | src/assurance/codex-hooks.ts:453-455 | an admission for another delivery verifies nothing |
| `HookOutcomes.UnreadableStateIsRefused` | src/assurance/codex-hooks.ts:460-463 | a state that cannot be read refuses the completion of a call without evidence |
| `HookOutcomes.UnusableSessionIsRefused` | src/assurance/codex-hooks.ts:446-452 | a process identifier that is empty, overlong or of another call refuses the completion |
| `HookOutcomes.OtherToolsAddNothing` | src/assurance/codex-hooks.ts:473 | tools other than a shell or a poll of another call add nothing |
| `HookOutcomes.UnboundIsRefused` | src/assurance/codex-hooks.ts:404-431 | an event that completes no call of a live request on its run is refused and stores nothing |
| `HookOutcomes.AdmissionAnswers` | src/assurance/codex-hooks.ts:321-336 | a call is admitted exactly when its request is live on the run that was read, delivery and memory review are current, and its identity is new or repeats the same input |
| `HookOutcomes.AdmissionIsStored` | src/assurance/codex-hooks.ts:321-336 | the first admission stores exactly what it was admitted with, and the first observed state of the run |
| `HookOutcomes.DenialStops` | src/assurance/codex-hooks.ts:158-174 | a denial stops the turn, seen before or not, fails its run, and over every continuation the turn stays stopped |
| `HookOutcomes.InterruptionStops` | src/assurance/codex-hooks.ts:205-218 | an interruption cancels and stops the turn and interrupts the run that was read, and over every continuation the turn stays stopped |
| `HookOutcomes.BindingOpens` | src/assurance/codex-hooks.ts:371-388 | a preparation binds its run to an unstopped request, which is then live on an active run exactly when it was prepared |
| `HookOutcomes.PromptOpens` | src/assurance/codex-hooks.ts:175-183 | a prompt opens a request that is neither bound nor stopped and leaves an existing one alone |
| `VerificationStore.Store.DefineContract` | src/assurance/verification.ts:14-31 | a new version is inserted row by row; an unchanged check keeps the definition hash of the previous version, any other gets a new one |
| `VerificationStore.Store.RecordVerification` | src/assurance/verification.ts:49-82 | a result is stored only for the newest version and for evidence of this run, root, state and target |
| `VerificationStore.Store.AssuranceMutation` | src/assurance/service.ts:59-79 | exact retries replay, reused request identifiers and stale revisions are refused, otherwise the effect, the revision and the receipt are written together |
| `VerificationFreshness.HashOrigin` | src/assurance/verification.ts:22-29 | a definition hash names the version that introduced the check, and the check has been present and unchanged since |
| `VerificationFreshness.SameHashIffUnchanged` | src/assurance/verification.ts:22-29 | two versions share a hash exactly when the check stayed, unchanged, in every version between: A to B to A and drop-and-re-add never bring one back |
| `VerificationFreshness.PassedIffFresh` | src/assurance/verification-state.ts:46-64 | a check is reported passed exactly when its newest result passed at the present state under a version since which the check is unchanged |
| `VerificationFreshness.ReportedIffFresh` | src/assurance/verification-state.ts:46-64 | a check is reported with the outcome of its newest result when that is fresh, and as pending otherwise |
| `VerificationFreshness.NoResurrection` | src/assurance/verification-state.ts:36-68 | over every sequence of mutations, retries and hook observations, when verification is required it is ready exactly when every check of the newest contract is freshly passed by a result that was earned: by evidence of this run, root, state and target that passed with exit code 0 and was stored before, or by a successful conclusion at the clean head commit |
| `VerificationFreshness.CompletionNeedsFreshPasses` | src/assurance/service.ts:223-227 | over every history a task can be closed as completed exactly when nothing asks for verification or every check of the newest contract is freshly passed by an earned result |
| `VerificationFreshness.RetryReplays` | src/assurance/service.ts:63-69 | an exact retry after anything else returns the first response and changes nothing |
| `VerificationFreshness.OneWriterPerRevision` | src/assurance/service.ts:71-77 | of two requests that expect the same revision at most one advances it |
| `VerificationHistory.ResultIsRecorded` | src/assurance/verification.ts:49-82 | over every history each result row was appended by one recording step, at the state that it carries, for a check and target of the contract that was newest then, with the outcome that its source shows |
| `VerificationHistory.PassedIsEarned` | src/assurance/verification.ts:62-71 | over every history a passed result rests on stored evidence of this run, root, state and target that passed with exit code 0, or on a successful conclusion at the clean head commit |
| `VerificationHistory.SucceedsExactly` | src/assurance/service.ts:59-79 | a mutation succeeds exactly when it is valid and repeats a stored request, or is new, current and applicable |
| `VerificationHistory.FirstTimeWrites` | src/assurance/service.ts:59-79 | a new request leaves exactly its rows, the bound root, its receipt and the next revision, and answers with what it stored |
| `VerificationHistory.DefinedHolds` | src/assurance/verification.ts:22-30 | a new version holds exactly the given checks, as they were given |
| `MarkerText.MarkerPositions` | src/agent-file/managed-block.ts:19-28 | the jumping scan finds exactly all occurrences, because the markers cannot overlap themselves |
| `MarkerText.PositionsConcat` | src/agent-file/managed-block.ts:19-28 | occurrences in a concatenation are those of the parts when no occurrence can lie across the seam |
| `MarkerText.CollapseExpand` | src/agent-file/managed-block.ts:86-88 | converting LF to CRLF and back is the identity on texts without CR |
| `ManagedBlock.ValidateMarkers` | src/agent-file/managed-block.ts:37-62 | the loop decides malformed, unowned or the owned region exactly as the declarative validation of all marker pairs |
| `ManagedBlock.KiokukoMarkersAreSound` | src/agent-file/managed-block.ts:3-4 | the two delimiters have the properties that the scan relies on |
| `ManagedBlockSeams.ValidateConcat` | src/agent-file/managed-block.ts:37-62 | ownership of a text is decided part by part at line breaks: two owned parts or one malformed part are malformed |
| `ManagedBlockShape.RegionFacts` | src/agent-file/managed-block.ts:30-62 | an owned region runs from a begin marker at a line start to an end marker at a line end, and is not foreign |
| `WellFormedBlocks.BodyIsGood` | src/agent-file/managed-block.ts:37-62 | a well-formed block is the markers around a body of whole lines without markers in it |
| `WellFormedBlocks.NormalizedIsOwned` | src/agent-file/managed-block.ts:86-88 | a well-formed block normalised to either newline style is still exactly one owned region |
| `ManagedBlockLaws.UpsertOwns` | src/agent-file/managed-block.ts:90-106 | insertion fails on malformed markers only; afterwards the file owns exactly the normalised block and every character outside it, foreign blocks included, is as it was, after a separator if the block was appended |
| `ManagedBlockLaws.UpsertTwice` | src/agent-file/managed-block.ts:90-106 | the second insertion leaves the file unchanged unless the block was appended to a file without CRLF that ends in a bare CR, in which case it updates once more |
| `ManagedBlockLaws.BareCrIsRewritten` | src/agent-file/managed-block.ts:90-106 | a file that shows the exception: one bare CR and the two markers around an empty line; the first insertion creates, the second updates |
| `ManagedBlockLaws.UpsertSettles` | src/agent-file/managed-block.ts:90-106 | from the second insertion on nothing changes, for every file |
| `ManagedBlockLaws.RemoveAfterUpsert` | src/agent-file/managed-block.ts:113-120 | removing after an insertion equals removing the old block; a block that was newly appended leaves only its separator |
| `ManagedBlockLaws.RemoveTwice` | src/agent-file/managed-block.ts:113-120 | removal keeps all characters outside the region, and removing again finds no block |
| `ManagedBlockKinds.ForeignBlockIsKept` | src/agent-file/managed-block.ts:37-120 | on texts: a single block that opens with the version declaration of the other product and does not name the key of this one is kept whole; insertion appends after it, removal finds nothing |
| `ManagedBlockKinds.AmbiguousBlockIsRefused` | src/agent-file/managed-block.ts:51-56 | on texts: such a block that also names the key of this program fails both edits |
| `ManagedBlockKinds.OwnBlockIsReplaced` | src/agent-file/managed-block.ts:57-120 | on texts: any other single block is replaced by insertion and cut out by removal, with everything around it untouched |
| `ManagedBlockKinds.KindIs` | src/agent-file/managed-block.ts:51-56 | the three kinds of a body, said without the scan: the declaration is the prefix, a decimal number without leading zero and the suffix; the key may occur anywhere below |
| `ManagedBlockKinds.ValidateExactly` | src/agent-file/managed-block.ts:37-62 | a text is malformed exactly when its markers do not pair up, a pair is out of order, not alone on its lines or ambiguous, or two blocks are not foreign; it owns nothing exactly when all are foreign, and otherwise the one that is not |
| `ManagedBlockKinds.KiokukoDelimits` | src/agent-file/managed-block.ts:3-4 | the two literal delimiters meet what these laws ask of delimiters |
| `ManagedBlockKinds.CollapseExact` | src/agent-file/managed-block.ts:51 | reading CRLF as LF leaves a text without CRLF alone |
| `ManagedBlockKinds.CollapseAtBreak` | src/agent-file/managed-block.ts:51 | and turns a CRLF into LF wherever it stands |
| `ManagedBlockKinds.AppendedApart` | src/agent-file/managed-block.ts:94-98 | an appended block is set off by two line breaks after a text that ends in one and by three otherwise, in the newline style of the file |
| `ManagedBlockKinds.NormalizedStyle` | src/agent-file/managed-block.ts:86-88 | a block is written with every LF in the newline style of the file and nothing else changed |
| `AcknowledgementCheck.ValidateExpectedAck` | src/commands/agent.ts:671-706 | accepts exactly when an injection of the expected events into the acknowledged entries preserves sources and explicit identifiers, and in exact mode the counts agree |
| `Acknowledgements.Sufficient` | src/commands/agent.ts:671-706 | enough sources and fulfilled distinct pins suffice: a matching is built |
| `Acknowledgements.Necessary` | src/commands/agent.ts:671-706 | a matching needs enough entries of each source, every pin acknowledged under its source, and distinct pins |
| `AcknowledgementCheck.MatchingIsOnto` | src/commands/agent.ts:675-683 | with equal counts every matching uses every acknowledged entry |
| `AcknowledgementCheck.RemoveEach` | src/commands/agent.ts:684-691 | greedy removal succeeds exactly on multiset inclusion |
| `AcknowledgementCheck.SameSourcesIffOrderedSame` | src/commands/agent.ts:672-683 | with equal counts, equal sorted sources are the same as inclusion |
| `AcknowledgementCheck.PinsAreAcknowledged` | src/commands/agent.ts:692-705 | the search for explicit identifiers decides that every pinned event is acknowledged under its source |
| `AcknowledgementCheck.ValidateAppendAck` | src/commands/agent.ts:636-648 | an append response is accepted exactly when it is well formed and acknowledges exactly the events sent |
| `AcknowledgementCheck.ValidateCloseAck` | src/commands/agent.ts:725-745 | a close response is accepted exactly when it acknowledges the events sent and one entry more |
| `Supersession.ValidateSupersession` | src/commands/import.ts:538-558 | the coloured walk terminates, accepts exactly the archives in which every chain stays inside and reaches null, and otherwise names the fate of the first chain that does not |
| `Supersession.Follow` | src/commands/export.ts:92-112 | one chain of the walk, the same in the export: it reaches null, leaves at the named entry, or comes back to itself |
| `Supersession.FatesExclude` | src/commands/import.ts:538-558 | a chain cannot both reach null, leave and return, so no other verdict fits that chain |
| `ImportStore.PlanEntryImport` | src/commands/import.ts:654-707 | the two planning passes report the first collision, else the first mismatch, else the new entries and the number of duplicates |
| `ImportStore.PlanLinks` | src/commands/import.ts:709-737 | the links to write, or a conflict with a stored one |
| `ImportStore.PlanAudit` | src/commands/import.ts:738-772 | the audit events to write, or the first that is stored with other values |
| `ImportApply.PlanSucceedsIffCompatible` | src/commands/import.ts:629-707 | planning succeeds exactly when stored entries, links and events with archive identities equal the archive's and no new entry has stored content |
| `ImportApply.ConflictIsFirst` | src/commands/import.ts:654-772 | a refused import names the first entry that collides, else the first that differs, else a differing link, else the first differing event |
| `ImportApply.WriteDrafts` | src/commands/import.ts:840-891 | first phase: every draft and revision insert meets the constraints of the schema |
| `ImportApply.WriteLifecycles` | src/commands/import.ts:893-900 | second phase: no update fails, and the rows are those of a direct write |
| `ImportApply.TwoPhasesAreDirect` | src/commands/import.ts:840-900 | writing drafts and then their lifecycle reaches the same entries as one direct write |
| `ImportApply.SupersessionsInside` | src/commands/import.ts:893-900 | in an accepted archive every successor is an entry of the archive, so its reference can be stored |
| `ImportApply.ApplyPlan` | src/commands/import.ts:835-923 | none of the statements of a planned import fails, and together they write the archive |
| `ImportApply.ImportWorkspace` | src/commands/import.ts:775-932 | the answer is determined by the archive and the tables; imported and duplicates add up to the count; a dry run answers the same and changes nothing, and so does every error |
| `ImportLaws.ImportIsExact` | src/commands/import.ts:835-923 | afterwards every entry, link and event of the archive is stored with its own values, every older row is unchanged, and nothing else was added |
| `ImportLaws.ImportKeepsConsistency` | src/commands/import.ts:835-923 | references, unique contents and the other schema constraints still hold |
| `ImportLaws.ImportAgainDoesNothing` | src/commands/import.ts:654-707 | importing the same archive again is accepted, imports nothing and changes nothing |
| `LogStream.BoundedLogStream.Push` | src/chatgpt/log-stream.ts:6-18 | after any chunk the callbacks tell exactly the lines of the decoded text so far, in order: one loss for each line beyond 65536 bytes, nothing for a blank one, otherwise its trimmed text once, and one loss for an unterminated rest that is too long; the retained buffer is within the bound |
| `LogStream.BoundedLogStream.End` | src/chatgpt/log-stream.ts:19 | the last line without newline is delivered, trimmed, unless it is lost or blank |
| `LogStream.AppendPiece` | src/chatgpt/log-stream.ts:7-17 | a piece changes the last line only |
| `LogStream.PiecesExact` | src/chatgpt/log-stream.ts:7 | splitting after newlines loses nothing and adds nothing |
| `LogStream.PiecesArePieces` | src/chatgpt/log-stream.ts:7 | a newline can only be the last character of a piece |
| `LogStream.CallsOnlyGrow` | src/chatgpt/log-stream.ts:6-18 | callbacks made for a text begin those of every longer text |
| `LogStream.DeliveredLinesAreGood` | src/chatgpt/log-stream.ts:10-15 | every delivered line is non-blank, within the bound and without newline |
| `LogStream.CallsTell` | src/chatgpt/log-stream.ts:6-18 | the callbacks of a text tell each of its lines and its rest, defined from the text alone |
| `LogStream.TextsAndLosses` | src/chatgpt/log-stream.ts:6-18 | so the delivered texts are, in order, the trimmed contents of exactly the lines that are short enough and not blank, and the losses are as many as the lines that are too long, and one more for such a rest |
| `LogStream.SplitExists` | src/chatgpt/log-stream.ts:7 | every text is such lines followed by an unterminated rest |
| `LogStream.TrimExact` | src/chatgpt/log-stream.ts:14 | trimming leaves nothing of a blank line and otherwise cuts exactly the outer white space |
| `TranscriptReader.ReadLifecycleEntries` | src/assurance/codex-desktop-turn.ts:137-167 | for every way of cutting the reads the buffered scan answers as splitting the whole file does; when a read delivers nothing it reports the changed transcript, except that a bound or a bad line before that offset is reported instead |
| `TranscriptReader.ScanChunk` | src/assurance/codex-desktop-turn.ts:144-164 | one chunk, whatever it cuts, carries the scan on from the pending beginning of a line |
| `TranscriptReader.ScanExact` | src/assurance/codex-desktop-turn.ts:137-167 | the scan succeeds exactly when every line is within the bound and parses, few enough rows are retained and the file ends with a newline; it returns exactly this turn's lifecycle rows in order |
| `DesktopTurns.CompletedDesktopTurn` | src/assurance/codex-desktop-turn.ts:200-228 | the loop with early returns, proved against its fold |
| `DesktopTurns.CompletedExactly` | src/assurance/codex-desktop-turn.ts:200-228 | a turn is completed exactly when the rows hold one start and one later completion, both valid and in order of time, and no abort; the times are theirs |
| `DesktopTurns.CompletionFromRetained` | src/assurance/codex-desktop-turn.ts:200-228 | the retained rows give the same completion as all rows |
| `DesktopOutcomes.ReadDesktopTurnOutcome` | src/assurance/codex-desktop-turn.ts:170-197 | the loop returns the outcome that the rows mean: interrupted, completed or unknown |
| `DesktopOutcomes.VerdictMeans` | src/assurance/codex-desktop-turn.ts:170-197 | each outcome holds exactly of the rows that a start, working directories, aborts and completion describe |
| `DesktopOutcomes.InterruptedIsNotCompleted` | src/assurance/codex-desktop-turn.ts:193-196 | no rows mean both an interruption and a completion |
| `DesktopOutcomes.TranscriptVerdict` | src/assurance/codex-desktop-turn.ts:137-197 | a scan that succeeds yields the verdict that all rows of the file mean |
| `CapabilityCatalog.BoundedCodePointLength` | src/akinator/capabilities.ts:152-160 | the length, or one more than the limit as soon as it is exceeded |
| `CatalogNormalization.NormalizeCapabilityCatalog` | src/akinator/capabilities.ts:234-300 | both loops with their budgets, proved against the declarative result |
| `CatalogNormalization.CatalogAccounts` | src/akinator/capabilities.ts:234-300 | for every catalog received equals accepted plus dropped, truncated is at most accepted, identities with kept raw descriptions stay within 512000 code points, the accepted items are the usable ones before the first whose identity does not fit, and the two lists name exactly them, by kind and in sorted order |
| `CatalogNormalization.AmpleBudgetKeepsAll` | src/akinator/capabilities.ts:275-296 | while the descriptions fit the budget, every accepted item carries its own compacted description |
| `CatalogNormalization.OrderDoesNotMatter` | src/akinator/capabilities.ts:272-300 | permutations with distinct identities inside the limits normalise to the same result |
| `CatalogNormalization.AvailabilityMeans` | src/akinator/capabilities.ts:234-300 | a catalog is known empty exactly when nothing was given, known not to be exactly when every item, at most 32000, was usable and all identities fit, and unknown otherwise; the budget is exceeded exactly when there are more items or the identities do not fit |
| `CatalogNormalization.DescribedInOrder` | src/akinator/capabilities.ts:275-296 | the accepted items are described one after the other, each with what the ones before it left of the budget: whole, or without text when its text exceeds a bound |
| `CatalogNormalization.TruncationsAdd` | src/akinator/capabilities.ts:290-294 | each shortened description counts once |
| `CatalogBinding.CanonicalSetIsASet` | src/akinator/capability-binding.ts:27-30 | the canonical list depends on the set of descriptors and on nothing else |
| `CatalogBinding.BindingIgnoresOrder` | src/akinator/capability-binding.ts:36-58 | such permutations have the same digest, which an absent catalog never has |
| `CatalogBinding.UsableDigests` | src/akinator/capability-binding.ts:36-58 | fully usable catalogs share a digest exactly when they offer the same capabilities and count the same shortened descriptions |
| `CatalogBinding.DigestsAgree` | src/akinator/capability-binding.ts:27-58 | what a digest reveals of any two catalogs: supplied or not, availability, budget, the sets of capabilities, and all counts of a catalog that is not known |
| `DiscoveryStore.Store.UsedDiscoveryBudget` | src/akinator/skill-discovery-attempt.ts:405-419 | sums reservations of started and consumption of finished attempts, refusing invalid rows and overspending |
| `DiscoveryStore.Store.ClaimAttempt` | src/akinator/skill-discovery-attempt.ts:421-467 | the claim transaction, proved against its function |
| `DiscoveryStore.Store.CompleteAttempt` | src/akinator/skill-discovery-attempt.ts:469-504 | completion consumes what was used, never more than was reserved; a clock that went backwards rolls it back |
| `DiscoveryStore.Store.FailAttempt` | src/akinator/skill-discovery-attempt.ts:506-544 | a failure consumes the whole reservation |
| `DiscoveryAttempts.RunKeeps` | src/akinator/skill-discovery-attempt.ts:405-536 | over every sequence of claims, completions and failures charged queries stay within 3 and selections within 2, at most one attempt is open, and each digest is told to execute at most once |
| `DiscoveryAttempts.NeverOverspent` | src/akinator/skill-discovery-attempt.ts:417 | in every reachable ledger the overspend check cannot fire |
| `DiscoveryAttempts.CompletedIsReplayed` | src/akinator/skill-discovery-attempt.ts:372-395 | after a completion, in every continuation of the run, claiming the digest again in the same mode replays the summary and changes nothing |
| `DiscoveryAttempts.FailureIsFinal` | src/akinator/skill-discovery-attempt.ts:506-544 | a failed attempt keeps its whole reservation charged and is answered, never executed, in every continuation; a cancelled one with the cancellation summary |
| `DiscoveryAttempts.ApplyKeeps` | src/akinator/skill-discovery-attempt.ts:421-536 | one operation keeps the ledger and adds a row exactly when it says to execute |
| `DiscoveryOutcomes.ClaimExecutes` | src/akinator/skill-discovery-attempt.ts:421-467 | a claim executes exactly when its request is within the limits, its digest is new and no attempt is open; it is granted as much as was asked for and the run has left, and nothing when either part is used up |
| `DiscoveryOutcomes.ClaimAnswers` | src/akinator/skill-discovery-attempt.ts:372-395 | any other claim is a conflict while an attempt is open, and otherwise answers how the attempt of its digest ended |
| `DiscoveryOutcomes.CompletionRefunds` | src/akinator/skill-discovery-attempt.ts:469-504 | a completion succeeds exactly for the open attempt, in its mode, within its reservation and with a clock that did not go backwards; what was not used can be granted again |
| `DiscoveryOutcomes.FailureConsumes` | src/akinator/skill-discovery-attempt.ts:506-544 | a failure closes the open attempt with its whole reservation consumed |
| `IntakeStore.Store.StartSession` | src/akinator/service.ts:230-256 | a start stores the evaluated session under a new identifier and conflicts with a stored one |
| `IntakeStore.Store.AnswerQuestion` | src/akinator/service.ts:283-328 | the answer transaction; its compare-and-set update never loses |
| `IntakeStore.Store.CloneSession` | src/akinator/service.ts:258-272 | a clone carries profile, status, count and answers over |
| `IntakeStore.Store.UpdateSession` | src/akinator/store.ts:643-670 | only an active session with the expected count changes, by one question and to the evaluated status |
| `IntakeSessions.RunKeeps` | src/akinator/service.ts:230-328 | over every sequence of starts, answers, retries and clones, each session's status is its re-evaluation, its count is the number of its stored answers, and missing fields plus questions are at most three |
| `IntakeSessions.ProfileIsAnswered` | src/akinator/service.ts:283-328 | over every run each stored answer, copied ones included, is what the session's profile holds for its field |
| `IntakeSessions.OutlookIsConstant` | src/akinator/domain.ts:257-289 | missing fields plus asked questions never change for a session, and a clone starts with those of its source |
| `IntakeSessions.NeverExhausted` | src/akinator/domain.ts:213-228 | a reachable session is never exhausted; while active it has asked fewer than three questions and asks for a missing field |
| `IntakeSessions.ActiveAnswers` | src/akinator/domain.ts:257-289 | an active session accepts any valid answer to its question, and the same answer again is a replay that changes nothing |
| `IntakeOutcomes.StartStores` | src/akinator/service.ts:230-256 | a start stores the given task and profile with no question asked and the status that follows from them |
| `IntakeOutcomes.AsksInOrder` | src/akinator/domain.ts:172-189 | a session asks for the task type, then the target, then the expected result, at most three times |
| `IntakeOutcomes.AnswerStores` | src/akinator/service.ts:283-328 | a new answer is stored exactly when the session is active and asks for its field; it sets that field and no other and counts one question |
| `IntakeOutcomes.OtherAnswers` | src/akinator/service.ts:283-328 | every other answer is told why: empty, unknown session, repeated, contradicting, not asked for, or no known task type |
| `IntakeOutcomes.CloneCopies` | src/akinator/service.ts:258-272 | a clone is a second session with the same task, profile, status, count and answers, and nothing else changes |

## Left out

- Symbolic-link containment, open flags, descriptor close failures and UTF-8 decoding around the file protocol: operating-system detail.
- Reads of a file are one step, although the program opens, reads and re-checks it; the environment of the file protocol acts at hooks only.
- Alternate targets are names of the same directory as the target.
- The unconditional `atomicWriteText`, which overwrites by design, and directory creation.
- Texts of hook replies, capture reservations, retention, `last_exit_metadata` and the recovery tool of the hook; the memory report enters an admission as one condition.
- Legacy runs without a verification version, and the repository digest itself, which is an opaque fingerprint.
- `isDshOnlyAgentFile` and the template version reader beside the managed block.
- Field-by-field parsing of archives: tags, timestamps, byte layout, secrets and UTF-8; archives arrive as records. Search projections, embeddings and triggers that an import also feeds.
- Scope and provenance are canonical JSON texts, and readers of stored rows are taken to decode them.
- The export's walk differs from the import's in its messages only and is not written a second time.
- Parsing of responses before acknowledgements are compared; the checkpoint response, which reuses the same check.
- The stateful UTF-8 decoder in front of the log splitter: text arrives decoded, a character is a code point.
- JSON parsing of transcript lines is a parameter; how many bytes each read delivers is a parameter, and the bytes themselves do not change while they are read.
- The tail reader of a transcript and the checkpoint and replay scans over it.
- Accessor properties, header validation and compaction of capability descriptions: items arrive classified, compaction is a parameter, and so are the two string orders, of which totality is used.
- Duplicate insensitivity of the catalog digest: truncated duplicates are counted, so only permutations are compared. A catalog that is supplied but is not a list.
- Field validation of discovery summaries and failures; the summary replayed for a cancelled attempt is given as the program builds it.
- Task type inference, secret checks and prompt texts of the intake; the task type of an answer is a parameter.
- CLI, HTTP, tunnel, process and Git plumbing.
