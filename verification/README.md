# FIDGET: a verified model

FIDGET borrows a shared MDPP-32 digitizer, changes some of its registers for a while, and must hand it
back exactly as it found it, even if the program or the network dies half-way. This project models the
parts of FIDGET that carry that promise, and proves what they promise for every input, every run and every
crash point.

`dafny verify dfyconfig.toml` checks everything.

## What is modelled

**The crash-safe tuning protocol** (`Crate`, `Source`, `Preview`, `Stop`, `Recovery`, `Runs`, `Fingerprint`).
The crate is a `World` object: one target module with a bank selector and an eight-bank register file, all
other VME registers, the controller's local registers, and one durable journal. Every primitive may fail
or crash; a crash is the value `Crashed`, which `:-` hands to every caller, so each operation can be cut
between and inside any two steps. What goes wrong is decided by an `Adversary`, a function from time and
request to the request's fate, which is an input of every run: whatever a write reports, it may or may not
have happened (only a reported success of a selector write is trusted), and a successful read returns the
true value. A ghost trace records what was sent and read, in order, and the gate properties are about that
trace; `sent` holds the writes alone, and every operation that reports success has sent exactly a stated list of
writes: pause, select, write, park, resume. A ghost flag `faulty` says whether anything went wrong so far; each
operation also promises success when nothing did, so no operation is correct merely by giving up. A ghost count
`refusals` says how many steps reported failure; a reported success has none, so no failure is ever passed over.

The central invariant is `Journaled`: without a journal every banked register has its original value; with
a journal, any register that differs is the journaled location, its original is the journaled original, and
it holds the journaled applied value. `Runs.AnyRun` keeps it through any sequence of commands and crashes,
with one exact exception, a gap in the code that the model keeps: an apply whose write is not confirmed
is treated as inactive and its journal entry is dropped, whether or not its rollback was confirmed
(src/hardware/DiagnosticPreviewOperation.cpp:478-497). `Preview.GapOpens` says which choices of the adversary
make that lose the entry of a register that still holds the applied value: the entry is saved, the write takes
effect without being read back, the rollback does not take effect, the process survives to the drop, and the
drop is installed. `Preview.ApplyPreview` proves that an apply ends without the invariant if and only if
the gap opens, `Runs.AnyRun` that a run does if and only if an apply in it opens the gap, and
`Preview.LoseAnEntry` exhibits an adversary against which every due apply loses its entry. A run also yields its
moments: at each of them the invariant holds, and each command that ran without a fault was carried out.

**Init scripts, export and planning** (`ScriptSemantics`, `ScriptSyntax`, `InitScript`, `LiteralScript`,
`PlainScripts`, `WorkspaceExport`, `ExportRoundTrip`, `Transaction`, `WriteOrder`, `ScpProfile`, `ProfilePlan`). The script
evaluator is an abstract interpreter. It is related to a plain banked machine that really executes the
commands: a complete result is what the machine ends with from any state, and a conditional result is right
wherever execution stops after the first test. The exporter's text is read back by the evaluator to the same
values. The transaction planner never passes through a state that breaks a coupled constraint.

One promise of the exporter holds only under a condition: after a group's staging write, the constraint
holds exactly when the live constrained value fits under the widest boundary (timing filter at most 1000,
pre-samples below 488). `ExportRoundTrip.StagedStatesSafe` proves both directions, and
`ExportRoundTrip.StagingBreaks` gives a valid live pair, a timing filter of 1001, that fails.

**The stream decoder** (`StreamFrames`, `StreamInvariants`, `StreamBytes`, `StreamDecoder`, `StreamEvents`): three nested
reassembly layers over arbitrary byte chunks. `StreamEvents` says what a module sends for one sampled event
and proves that the decoder recovers exactly that event, in any chunks, alone or in an Ethernet packet, and
that a frame may be spread over any number of packets. For any sequence of events it says exactly what every channel's
history retains, and after any loss of packets the decoder takes up again at the next event.

**Recovery journals** (`JournalTokens`, `JournalText`, `V5Record`, `V5Chain`, `V5Text`, `V5Checksum`, `JournalLayout`,
`JournalReader`, `JournalDiscovery`, `AtomicInstall`, `JournalStore`): both text formats down to characters, what their
checksums cover, the version 5 transition chain, and the atomic installation against a file system with volatile and
durable state. Accepted text spells a valid record with the checksums of exactly its fields, and an altered field is refused.
`JournalStore.SaveRecord` puts text and installation together and justifies the contract of `Crate.World.Save`, as long
as fewer than sixty-four crashes have left a workspace behind.

**Bridge framing** (`BridgeFraming`, `BridgeDecoder`): a byte-at-a-time reference, the encoder, and the
chunked decoder.

Unsigned words are bounded naturals (`Words`), shifts and masks are divisions and remainders, and every
width that a parser or an encoder depends on is checked explicitly.

## Model

| member | source | states |
|---|---|---|
| `Runs.AnyRun` | src/hardware/DiagnosticSourceOperation.cpp:241-436 | against any adversary, at every moment of every run of source changes, previews, restores, stops, recoveries and crashes, cut anywhere, every deviating register is journaled (location, original, applied value), unless an apply of the run has just opened the gap; every command that meets no fault is carried out; without journal and gap the banks are as found |
| `Runs.Execute` | src/hardware/DiagnosticSourceOperation.cpp:77-502 | one command keeps session, journal and live preview consistent if and only if it is not an apply that opens the gap |
| `Runs.TryPreview` | src/hardware/DiagnosticPreviewOperation.cpp:87-590 | an apply command loses the evidence exactly when the gap opens, and otherwise leaves a quiet, active or stranded preview that session and journal cover |
| `Runs.BeginSession` | src/hardware/DiagnosticAcquisitionOperation.cpp:322-361 | a session starts journaled: prepared record first, then active; it runs only on a reported active record, and starts when nothing goes wrong |
| `Runs.StillQuiet` | src/hardware/DiagnosticSourceOperation.cpp:241-436 | a source operation leaves nothing but its own register deviating |
| `Source.ChangeSource` | src/hardware/DiagnosticSourceOperation.cpp:77-502 | a source change keeps the invariant through every failure and crash and changes only the quad's sample configuration; nothing is sent unless the fingerprint has just been read as the session's own; a passed change has sent exactly pause, select, write, park and resume, no step was refused, record and journal hold the entry, the selector is parked; it passes and the module runs again when nothing goes wrong |
| `Source.TransactSource` | src/hardware/DiagnosticSourceOperation.cpp:146-502 | every flag of the result is truthful about register, selector and writes |
| `Source.ApplySource` | src/hardware/DiagnosticSourceOperation.cpp:241-393 | journal before write, verify, roll back |
| `Source.ArmSource` | src/hardware/DiagnosticSourceOperation.cpp:267-287 | before the first write, journal and record cover both the original and the requested value |
| `Source.TrySource` | src/hardware/DiagnosticSourceOperation.cpp:288-393 | write and rollback leave the old or the requested value, and say truthfully which |
| `Source.DropSource` | src/hardware/DiagnosticSourceOperation.cpp:415-436 | the entry goes only when its register is back at the original |
| `Source.RestoreSource` | src/hardware/DiagnosticSourceOperation.cpp:504-716 | restoring keeps the invariant; a register changes only while DAQ mode is zero; success means original written, selector parked, entry dropped, and nothing else sent |
| `Source.RestoreJournaled` | src/hardware/DiagnosticSourceOperation.cpp:594-701 | select, write back, park, drop: only the journaled register changes, and exactly these writes are sent |
| `Source.SaveSession` | src/hardware/DiagnosticSourceOperation.cpp:46-73 | the session record follows only a reported success, the journal is the old or the new record |
| `Source.SourceChoices` | src/hardware/DiagnosticSourceOperation.cpp:120-145 | a permitted request starts from the original, or returns to it, or changes nothing |
| `PauseResume.Pause` | src/hardware/DiagnosticPauseResume.cpp:42-107 | pausing touches no bank and sends its two writes; a reported pause means that the DAQ mode is zero and nothing was refused; without a fault the module is stopped |
| `PauseResume.Resume` | src/hardware/DiagnosticPauseResume.cpp:109-211 | success means FIFO reset, readout reset, acquisition control 1 and DAQ mode were sent in this order, none refused, and DAQ-mode bit 0 is set; without a fault the module runs |
| `Preview.ApplyPreview` | src/hardware/DiagnosticPreviewOperation.cpp:87-590 | session and journal account for every deviation afterwards if and only if the gap did not open, whatever fails or crashes; refused exactly for bad requests; nothing is sent or journaled unless the fingerprint has just been read as the session's own; a passed apply has sent exactly pause, select, write, park and resume, is journaled and parked; fault-free it passes exactly when the value is new and its dependency allows it, and the module runs again |
| `Preview.ApplySelected` | src/hardware/DiagnosticPreviewOperation.cpp:328-497 | arm, write, roll back, park, drop: the evidence is lost if and only if the adversary opens the gap from the moment of arming |
| `Preview.ApplyArmed` | src/hardware/DiagnosticPreviewOperation.cpp:348-497 | an armed apply loses its entry exactly under the stated fates of write, rollback, parking and drop |
| `Preview.FinishApply` | src/hardware/DiagnosticPreviewOperation.cpp:452-497 | the drop loses evidence exactly when the register still holds the unconfirmed applied value and the drop reaches the disk |
| `Preview.LoseAnEntry` | src/hardware/DiagnosticPreviewOperation.cpp:348-497 | a concrete adversary against which every due apply ends with the register changed and no journal entry |
| `Preview.WriteArmed` | src/hardware/DiagnosticPreviewOperation.cpp:348-450 | write and rollback evidence is truthful about the register, and follows from the fates of the two writes |
| `Preview.RestorePreview` | src/hardware/DiagnosticPreviewOperation.cpp:592-633 | a restore keeps the invariant, is refused exactly for bad requests, and sends nothing to a crate that is not the session's own; a passed one has sent exactly pause, select, write, park and the wanted resume, and left original, record and journal as before the preview |
| `Preview.RestoreOpened` | src/hardware/DiagnosticPreviewOperation.cpp:309-497 | the pending register moves only to its original |
| `Preview.DependencyAllows` | src/hardware/DiagnosticPreviewOperation.cpp:261-299 | the live coupled register of the same quad decides |
| `Stop.StopAcquisition` | src/hardware/DiagnosticAcquisitionOperation.cpp:822-1102 | Stopped, or any journal change, only with nothing pending and after the target, every quiesced module and all four controller registers read back stopped, with exactly the stated writes sent and none refused; with the ownership check nothing is sent unless the fingerprint has just been read as the session's own; without a fault everything is stopped even when the journal must stay |
| `Stop.StopEverything` | src/hardware/DiagnosticAcquisitionOperation.cpp:920-1073 | success only with every readback of a clean stop in the trace; the target is stopped first and the controller cleared last, whatever fails between |
| `Stop.StopModule` | src/hardware/DiagnosticAcquisitionOperation.cpp:920-938 | success only after the module read back stopped |
| `Stop.CleanUpIsolated` | src/hardware/DiagnosticAcquisitionOperation.cpp:943-1006 | success only after the module read back stopped; a module that had restarted was stopped and both its buffers reset, another was left alone and had been reset before |
| `Stop.ClearFingerprint` | src/hardware/DiagnosticAcquisitionOperation.cpp:1009-1049 | success only if each cleared register read back zero |
| `Recovery.RecoverOrphan` | src/hardware/DiagnosticRecoveryOperation.cpp:47-749 | restartable from any state: the invariant survives failure and crash; success means originals restored, journal gone, selector parked, and exactly the stated writes sent with none refused; a foreign verdict sends nothing and keeps the journal; every write follows the full set of checks; registers change only from applied to original, a preview only if its live dependency allows it; on the active path success, or any removal of the journal, means that target and isolated modules read back stopped and DAQ mode, trigger, offset and token read back zero |
| `Recovery.RecoverChecked` | src/hardware/DiagnosticRecoveryOperation.cpp:210-749 | no write before identity, firmware and fingerprint checks of target and all isolated modules; on the active path no journal removal before the stop and cleanup readbacks |
| `Recovery.RestoreBanked` | src/hardware/DiagnosticRecoveryOperation.cpp:443-599 | a banked register is written only if it holds the journaled applied value, only with the original, a preview only if its live dependency allows it; success has selected, written if needed and parked at quad zero; without a fault the selector is parked even when the restore is refused |
| `Recovery.RecoverValues` | src/hardware/DiagnosticRecoveryOperation.cpp:601-658 | after both restorations every register is at its original |
| `Recovery.RestoreAll` | src/hardware/DiagnosticRecoveryOperation.cpp:382-716 | stop, restore, clear: success on the active path has every stop and cleanup readback in the trace, and the journal is still there |
| `Recovery.RestoreAndClean` | src/hardware/DiagnosticRecoveryOperation.cpp:382-745 | on the active path the journal is removed only after every stop and cleanup readback |
| `Recovery.PassChecks` | src/hardware/DiagnosticRecoveryOperation.cpp:241-380 | the checks send nothing and leave every justifying readback in the trace |
| `Recovery.Identify` | src/hardware/DiagnosticRecoveryOperation.cpp:59-122 | the verdict is the one the readbacks justify |
| `Recovery.StopModules` | src/hardware/DiagnosticRecoveryOperation.cpp:382-441 | success only after target and every isolated module read back stopped |
| `RecoveryGate.RequireIdle` | src/hardware/DiagnosticRecoveryOperation.cpp:210-239 | on the idle path a DAQ-mode readback of zero precedes each register write |
| `RecoveryGate.GatedMeans` | src/hardware/DiagnosticRecoveryOperation.cpp:241-380 | a gated trace has every justifying event before any of its writes |
| `RecoveryGate.FreshMeans` | src/hardware/DiagnosticRecoveryOperation.cpp:210-239 | fresh means a zero DAQ-mode readback since the previous write |
| `Fingerprint.OwnershipChecksAgree` | src/core/RecoveryVerification.cpp:37-160 | for every prepared session and controller memory, the live check says Verified exactly when DAQ bit 0 is set and the journal check says OrphanConfirmed |
| `Fingerprint.PrepareRecord` | src/hardware/DiagnosticAcquisitionOperation.cpp:322-342 | the record holds what was prepared and the plan's registers, with nothing to restore; refused exactly when no plan is possible |
| `Fingerprint.StartSatisfiesBothChecks` | src/hardware/DiagnosticAcquisitionOperation.cpp:591-662 | the memory that Start leaves behind passes both checks, whatever was there before |
| `Fingerprint.EvaluateFingerprint` | src/core/RecoveryVerification.cpp:77-160 | the scan gives the verdict defined without a scan |
| `Fingerprint.BuildExpectation` | src/core/RecoveryVerification.cpp:37-75 | the filled arrays are the reconstructed fingerprint |
| `Fingerprint.MakeReadoutPlan` | src/core/ReadoutProtocol.cpp:18-75 | refused exactly for bad base or IRQ; otherwise the closed-form stack |
| `Fingerprint.StackReadsOneModule` | src/core/ReadoutProtocol.cpp:9-58 | the uploaded words are the program that reads one block from the module's own address and resets that module's readout, and nothing else |
| `Fingerprint.StartNeverHalfArmed` | src/hardware/DiagnosticAcquisitionOperation.cpp:591-662 | a start that stops anywhere leaves the trigger as before, off, or set with the whole stack, offset and token in place, and enables data taking only with the trigger set |
| `Fingerprint.VerifyOwnership` | src/hardware/DiagnosticAcquisitionOperation.cpp:722-820 | reads only, and answers for the memory as it is |
| `ScriptSemantics.Refines` | src/core/MvmeInitScript.cpp:1102-1215 | with no failure and no conditional write, executing all commands from any selector and banks gives those banks overlaid with exactly the listed values |
| `ScriptSemantics.TaintSound` | src/core/MvmeInitScript.cpp:1272-1389 | however far execution runs past the first accu_test, every listed location holds exactly its listed value |
| `ScriptSemantics.AllListsRight` | src/core/MvmeInitScript.cpp:1346-1389 | listed values and shadow selector stay right through conditional commands |
| `ScriptSemantics.AllLegal` | src/core/MvmeInitScript.cpp:1562-1586 | a known selector always names banks |
| `InitScript.Evaluate` | src/core/MvmeInitScript.cpp:910-1027 | Complete results predict the module from any state; every non-failed result is right wherever execution stops after the first test; not failed exactly when every script parses and nothing frontend was unresolved; Complete exactly if moreover every command is a supported write to the frontend; values, writes and selector assignments are those of the list without its rejected scripts |
| `InitScript.RollbackExact` | src/core/MvmeInitScript.cpp:1040-1100 | the list leaves the same selector, writes, assignments and values as the list without its parse-failing scripts |
| `InitScript.InterpretIsProgram` | src/core/MvmeInitScript.cpp:910-1027 | unless something failed, the list amounts to one program |
| `InitScript.Evaluator.EvaluateScript` | src/core/MvmeInitScript.cpp:1040-1100 | a parse-failing script leaves the state as it was, another absorbs exactly its commands; which of the two depends on text and tables only |
| `InitScript.Evaluator.Restore` | src/core/MvmeInitScript.cpp:1086-1098 | saved fields by value, growing lists by length |
| `InitScript.Evaluator.EvaluateLine` | src/core/MvmeInitScript.cpp:1102-1215 | one line does what its text means under the tables; the rejections of the statement methods never fire after the syntax check, so selector and conditional state decide no rejection |
| `InitScript.Evaluator.EvaluateDefinite` | src/core/MvmeInitScript.cpp:1145-1215 | a statement that passed the syntax check is absorbed exactly and rejected by nothing |
| `InitScript.Evaluator.EvaluateShorthand` | src/core/MvmeInitScript.cpp:1185-1214 | rejects exactly an unresolved address, a wrong number of values, or an unresolved frontend value; otherwise absorbs the write |
| `InitScript.Evaluator.EvaluateSet` | src/core/MvmeInitScript.cpp:1391-1411 | binds the name, or rejects exactly the forms that are not three parts with a name |
| `ScriptSyntax.ValidLongWrite` | src/core/MvmeInitScript.cpp:1711-1832 | a long write that passed the syntax check has none of the defects its evaluation rejects |
| `InitScript.Evaluator.EvaluateConditional` | src/core/MvmeInitScript.cpp:1272-1344 | after a test nothing is extracted, only forgotten |
| `InitScript.Evaluator.Taint` | src/core/MvmeInitScript.cpp:1346-1389 | forgets everything the possible write could touch |
| `InitScript.Evaluator.EvaluateLongWrite` | src/core/MvmeInitScript.cpp:1413-1481 | rejects exactly a defective write; other forms are reported, never interpreted |
| `InitScript.Evaluator.EvaluateRelativeWrite` | src/core/MvmeInitScript.cpp:1483-1560 | rejects exactly an unresolved frontend value; a supported write is absorbed exactly |
| `InitScript.Evaluator.SetSelector` | src/core/MvmeInitScript.cpp:1562-1586 | legal selectors are assigned, others forget the selector |
| `InitScript.Evaluator.RunAll` | src/core/MvmeInitScript.cpp:940-1015 | all entries in order, and whether any script was rejected |
| `ScriptSyntax.CommandOf` | src/core/MvmeInitScript.cpp:1711-1832 | a supported write always has a module-relative target |
| `ExportRoundTrip.ExportThenEvaluate` | src/core/MvmeWorkspaceExport.cpp:522-601 | exporting and evaluating gives back exactly the exported values, with no frontend issue; export is refused exactly for invalid states and incomplete groups |
| `ExportRoundTrip.ExportOverlays` | src/core/MvmeWorkspaceExport.cpp:543-586 | appended to any script list without a conditional part, the export overlays exactly its values and fails nothing |
| `ExportRoundTrip.StagedStatesSafe` | src/core/MvmeWorkspaceExport.cpp:163-219 | after staging the constraint holds in every state if and only if the live constrained value fits under the widest boundary; from a valid pair it then holds throughout |
| `ExportRoundTrip.StagingBreaks` | src/core/MvmeWorkspaceExport.cpp:163-219 | a valid live pair with timing filter 1001 is invalid after the staging write, whatever is exported |
| `ExportRoundTrip.ExportedRunSafe` | src/core/MvmeWorkspaceExport.cpp:543-586 | a module running the script, stopped anywhere, never breaks a valid pair that fits |
| `WorkspaceExport.ValidateStartingState` | src/core/MvmeWorkspaceExport.cpp:71-151 | accepts exactly the valid states |
| `WorkspaceExport.ValidIsSound` | src/core/MvmeWorkspaceExport.cpp:130-150 | every accepted table satisfies value rules and dependencies |
| `WorkspaceExport.PlanLiteralValues` | src/core/MvmeWorkspaceExport.cpp:153-244 | refused exactly when a coupled group is incomplete |
| `WorkspaceExport.AppendCoupled` | src/core/MvmeWorkspaceExport.cpp:162-218 | the shared planner always orders the constrained value first after staging |
| `WorkspaceExport.GenerateScript` | src/core/MvmeWorkspaceExport.cpp:522-601 | selector line per quad, write and settle lines, parking at the end |
| `LiteralScript.LiteralsRun` | src/core/MvmeWorkspaceExport.cpp:562-586 | a module stopped anywhere in the script holds the literals written so far and nothing else |
| `LiteralScript.LiteralsAbsorbed` | src/core/MvmeInitScript.cpp:1483-1600 | the interpreter ends with exactly the stored literals |
| `LiteralScript.WriteLineDenotes` | src/core/MvmeWorkspaceExport.cpp:560-586 | a printed write line is read back as that write |
| `PlainScripts.PlainReadsLiterals` | src/core/MvmeInitScript.cpp:826-897 | splitting at white space and reading hexadecimal literals meets what the export lemmas ask of the environment |
| `Numerals.Hex16RoundTrip` | src/core/MvmeWorkspaceExport.cpp:55-61 | four-digit hexadecimal literals read back |
| `Numerals.DecimalRoundTrip` | src/core/RecoveryJournal.cpp:627-655 | decimal numerals read back |
| `ProfilePlan.AppliedProfile` | src/core/ScpTransactionPlan.cpp:171-245 | every prefix keeps both constraints in all quads, undoing any executed prefix retraces states already passed, and the whole plan leaves zero differences |
| `ProfilePlan.PlanProfileApplication` | src/core/ScpTransactionPlan.cpp:71-254 | succeeds exactly when the pair is comparable, nothing global differs and the profile is sound, so the refusals for unplanned differences never fire; 141 values compared |
| `ProfilePlan.PlanStandaloneStartup` | src/core/ScpTransactionPlan.cpp:256-351 | succeeds exactly when only the two contract registers differ globally and the banked plan succeeds; every difference is counted once |
| `ProfilePlan.EveryDifferencePlanned` | src/core/ScpTransactionPlan.cpp:238-245 | as many steps as listed differences |
| `ProfilePlan.ContractOnly` | src/core/ScpTransactionPlan.cpp:298-329 | normalizing the two contract registers removes every global difference exactly when no other exists |
| `ProfilePlan.CheckQuad` | src/core/ScpTransactionPlan.cpp:129-169 | accepts exactly the quads whose seventeen values and two constraints are fine |
| `ProfilePlan.AddPair` | src/core/ScpTransactionPlan.cpp:211-235 | refused exactly for an unsound pair, otherwise both registers in the safe order |
| `WriteOrder.CoupledOrderSafe` | src/core/ScpTransactionPlan.cpp:12-69 | refused exactly for bad targets; from any valid pair the state between the writes is valid |
| `WriteOrder.PlanWalk` | src/core/ScpTransactionPlan.cpp:197-236 | every state of the walk satisfies both constraints, every step finds the value it expects |
| `WriteOrder.PlanArrives` | src/core/ScpTransactionPlan.cpp:197-236 | the walk ends at the target banks |
| `Transaction.UndoRetraces` | src/core/ScpTransactionPlan.cpp:197-236 | undoing a prefix in reverse passes only through states of the walk |
| `ScpProfile.Compare` | src/core/ScpProfile.cpp:499-613 | comparable exactly for valid inputs; all 141 values compared; differences in order |
| `ScpProfile.NothingListed` | src/core/ScpProfile.cpp:569-600 | no banked difference exactly when the images are equal |
| `ScpProfile.ListedMembers` | src/core/ScpProfile.cpp:185-209 | a banked difference is listed exactly where the images disagree |
| `ScpProfile.GlobalMembers` | src/core/ScpProfile.cpp:521-568 | a global difference is listed exactly where profile and module disagree, with the value of each |
| `ScpRegistry.FindSetting` | src/core/ScpRegistry.cpp:10-78 | finds exactly the listed offsets |
| `StreamBytes.ChunkIndependent` | src/core/StreamDecoder.cpp:111-121 | for every byte string and every cutting, the whole state equals that of one call |
| `StreamDecoder.AnyTwoCuttings` | src/core/StreamDecoder.cpp:111-121 | two cuttings of the same bytes give the same state |
| `StreamBytes.DrainInTwo` | src/core/StreamDecoder.cpp:232-327 | draining in two instalments is draining at once |
| `StreamBytes.FrameStable` | src/core/StreamDecoder.cpp:232-327 | more bytes behind a complete frame change neither its size nor its effect |
| `StreamBytes.DrainKeeps` | src/core/StreamDecoder.cpp:232-327 | every byte string keeps the decoder invariant |
| `StreamDecoder.MvmeStreamDecoder.Consume` | src/core/StreamDecoder.cpp:111-121 | the new state is the drained state of all bytes; the invariant holds and no complete frame waits |
| `StreamDecoder.MvmeStreamDecoder.ProcessPendingData` | src/core/StreamDecoder.cpp:232-327 | the offset loop drains exactly the complete frames |
| `StreamDecoder.MvmeStreamDecoder.ProcessEthernetPacket` | src/core/StreamDecoder.cpp:329-396 | gap check, header pointer and payload |
| `StreamDecoder.MvmeStreamDecoder.ProcessStackWord` | src/core/StreamDecoder.cpp:398-459 | one word of stack and block reassembly |
| `StreamDecoder.MvmeStreamDecoder.DecodeBlockFrame` | src/core/StreamDecoder.cpp:461-587 | the index loop decodes the whole block |
| `StreamDecoder.MvmeStreamDecoder.ClearWaveformHistoriesForQuad` | src/core/StreamDecoder.cpp:88-109 | keeps the invariant; captures of the cleared channels are accounted for |
| `StreamDecoder.MvmeStreamDecoder.LatestWaveform` | src/core/StreamDecoder.cpp:123-139 | when present it is newer than every retained waveform |
| `StreamInvariants.StackWordKeeps` | src/core/StreamDecoder.cpp:398-459 | block words never exceed stack words, so the reset branch inside a block is dead |
| `StreamInvariants.PacketKeeps` | src/core/StreamDecoder.cpp:329-396 | packets keep the invariant |
| `StreamInvariants.RecordKeeps` | src/core/StreamDecoder.cpp:559-579 | at most 100 waveforms, one configuration, increasing sequences, latest is largest, captures conserved |
| `StreamInvariants.ClearKeeps` | src/core/StreamDecoder.cpp:88-109 | clearing keeps histories sound and conserves the count with the forgotten captures |
| `StreamInvariants.SamplesExact` | src/core/StreamDecoder.cpp:540-557 | two samples per word, refused exactly for a foreign word |
| `StreamInvariants.PackedRoundTrip` | src/core/StreamDecoder.cpp:540-557 | every packed list of fourteen-bit samples is read back |
| `StreamEvents.EventReceived` | src/core/StreamDecoder.cpp:111-121 | the bytes of one event's stack frame, in any chunks, add that event's waveform and leave nothing pending |
| `StreamEvents.EventsRetained` | src/core/StreamDecoder.cpp:559-579 | from an idle decoder without histories, after the frames of any events of any channels and configurations, in any chunks, every channel's history is exactly the newest of its waveforms, in order: as many as share the newest one's configuration, at most a hundred; totals, latest channel and counters are exact |
| `StreamEvents.LastHundred` | src/core/StreamDecoder.cpp:565-577 | events of one channel and configuration: the last hundred of their waveforms, or all if fewer |
| `StreamEvents.TakesUpAfterLoss` | src/core/StreamDecoder.cpp:329-396 | after any loss of packets, in the middle of anything, the missing packets are counted and the event at the header pointer is decoded |
| `StreamEvents.PacketReceived` | src/core/StreamDecoder.cpp:329-396 | the same for an event in the next Ethernet packet |
| `StreamEvents.SplitFrame` | src/core/StreamDecoder.cpp:329-459 | a stack frame spread in any way over any number of consecutive packets is decoded as if it had come in one piece |
| `StreamEvents.BlockDecoded` | src/core/StreamDecoder.cpp:461-587 | a block holding one event decodes to that event's module, channel, configuration, phase, timestamp and samples |
| `StreamEvents.FrameReachesBlock` | src/core/StreamDecoder.cpp:398-459 | an idle decoder takes a whole frame to its block and is idle again |
| `BridgeFraming.ConversationRoundTrip` | src/core/BridgeProtocol.cpp:35-87 | one hello and any frames are decoded to exactly those frames |
| `BridgeFraming.AcceptedExactly` | src/core/BridgeProtocol.cpp:89-231 | a stream is accepted up to a frame boundary if and only if it is the encoding of a conversation |
| `BridgeFraming.AcceptedIsEncoded` | src/core/BridgeProtocol.cpp:89-231 | while nothing failed, the bytes are the encodings of the delivered frames and a beginning of one more |
| `BridgeFraming.FailurePermanent` | src/core/BridgeProtocol.cpp:92-98 | after a failure nothing changes and nothing is delivered |
| `BridgeFraming.FirstDefect` | src/core/BridgeProtocol.cpp:165-196 | the error reported for a header is the first of its defects, and none is reported exactly if it has none |
| `BridgeFraming.RejectedThere` | src/core/BridgeProtocol.cpp:165-196 | a defective header after a conversation fails there, with its error and the frames before it, whatever follows |
| `BridgeFraming.OtherVersionRejected` | src/core/BridgeProtocol.cpp:198-205 | a hello with any other version byte fails as an unsupported version |
| `BridgeFraming.StepsConcat` | src/core/BridgeProtocol.cpp:104-145 | cutting the bytes anywhere makes no difference |
| `BridgeFraming.FrameRoundTrip` | src/core/BridgeProtocol.cpp:35-81 | an expected frame's encoding is decoded to it |
| `BridgeFraming.EncodeFrame` | src/core/BridgeProtocol.cpp:35-81 | refused exactly for unknown channels, oversized payloads and bad hellos |
| `BridgeDecoder.BridgeFrameDecoder.Consume` | src/core/BridgeProtocol.cpp:89-148 | same frames and same state as one byte at a time |
| `BridgeDecoder.BridgeFrameDecoder.BeginFrame` | src/core/BridgeProtocol.cpp:165-196 | the first header error, or the loaded header |
| `BridgeDecoder.BridgeFrameDecoder.FinishFrame` | src/core/BridgeProtocol.cpp:198-221 | delivers the frame and returns to a boundary, or fails |
| `BridgeDecoder.DecodeChunks` | src/core/BridgeProtocol.cpp:89-148 | every conversation comes out frame for frame, however it is cut |
| `AtomicInstall.Install` | src/core/RecoveryJournal.cpp:375-587 | after a crash at any step the destination holds a complete old text or the complete new one; success is durable and no step was refused; when no step fails, it succeeds exactly if the destination fits the mode, a staging name is free and no other process was faster to an exclusive destination; exclusive mode replaces nothing even against a racing process; leftovers are staging entries, and only a crash or a failed removal leaves any |
| `AtomicInstall.AllocateWorkspace` | src/core/RecoveryJournal.cpp:441-481 | when no step fails, a workspace is found exactly if one of the sixty-four names is free |
| `AtomicInstall.FewLeftovers` | src/core/RecoveryJournal.cpp:441-481 | fewer than sixty-four leftovers leave a name free |
| `JournalStore.SaveRecord` | src/core/RecoveryJournal.cpp:933-960 | after any failure or crash a later load finds an old record or the new one; success means every later load finds the new one; when no step fails and a name is free, every valid record is saved; an invalid record is refused untouched |
| `AtomicInstall.StageText` | src/core/RecoveryJournal.cpp:483-534 | success means the whole text is written and synchronized |
| `AtomicInstall.Place` | src/core/RecoveryJournal.cpp:536-565 | old entry or staged file; exclusive mode never replaces |
| `JournalDiscovery.StagingNameIgnored` | src/core/ApplicationRecoveryDiscovery.cpp:39-57 | discovery ignores every staging name of every attempt |
| `JournalDiscovery.IgnoredExactly` | src/core/ApplicationRecoveryDiscovery.cpp:39-57 | discovery ignores exactly the prefix alone and the prefix with a dot and a numeral |
| `JournalDiscovery.OnlyTheJournal` | src/core/ApplicationRecoveryDiscovery.cpp:100-130 | leftovers and one journal show discovery the journal alone |
| `JournalDiscovery.Scan` | src/core/ApplicationRecoveryDiscovery.cpp:100-113 | keeps exactly the entries that are not staging leftovers |
| `V5Chain.ValidateDeviations` | src/core/RecoveryJournalV5.cpp:300-340 | accepts exactly the ordered histories of real single-register changes that replay from the snapshot |
| `V5Chain.ValidateData` | src/core/RecoveryJournalV5.cpp:268-341 | accepts exactly the valid evidence |
| `V5Chain.SnapshotValue` | src/core/RecoveryJournalV5.cpp:229-252 | the snapshot's value of a well-formed place, none otherwise |
| `V5Chain.CrashNeverBlocks` | src/core/RecoveryJournalV5.cpp:1164-1198 | after a crash during the last write the classifier never blocks, names the snapshot value, and skips the write only if it is live |
| `V5Chain.Classify` | src/core/RecoveryJournalV5.cpp:1187-1198 | blocks exactly for a value outside the evidence |
| `JournalText.RecordRoundTrip` | src/core/RecoveryJournal.cpp:657-701 | every valid record of versions 1 to 4 parses back to what its version stores, version 4 to itself, and that serializes to the same text |
| `JournalText.AnyChecksum` | src/core/RecoveryJournal.cpp:733-931 | the text of a valid record under any stored checksum is accepted exactly if that is the checksum of its fields |
| `JournalText.SummaryInjective` | src/core/RecoveryJournal.cpp:57-98 | two valid records with the same hashed fields are stored alike: the checksum covers everything that is stored |
| `JournalText.AlteredIsRefused` | src/core/RecoveryJournal.cpp:923-925 | short of a collision, a text with altered fields under the old checksum is refused |
| `JournalText.AcceptedIsWritten` | src/core/RecoveryJournal.cpp:733-931 | accepted text spells a valid record, token for token, with the checksum of exactly its fields |
| `JournalLayout.RecordTextRoundTrip` | src/core/RecoveryJournal.cpp:657-701 | the same for the characters, under any white-space layout |
| `JournalReader.ReadRecord` | src/core/RecoveryJournal.cpp:733-931 | the cursor-driven reader returns what the specification parses, hence every serialized record |
| `V5Text.DocumentRoundTrip` | src/core/RecoveryJournalV5.cpp:549-634 | every valid version 5 record parses back to its normal form, whose serialization is the same text |
| `V5Text.DataRoundTrip` | src/core/RecoveryJournalV5.cpp:992-1162 | the text of valid evidence under any seven stored checksums is accepted exactly if all seven agree |
| `V5Checksum.RecordCovered` | src/core/RecoveryJournalV5.cpp:388-529 | the record checksum alone covers every stored field of every section |
| `V5Checksum.AlteredIsRefused` | src/core/RecoveryJournalV5.cpp:992-1162 | short of a collision, a text with altered fields under the old checksums is refused |
| `V5Checksum.AcceptedIsWritten` | src/core/RecoveryJournalV5.cpp:992-1162 | accepted text spells valid evidence, token for token, with exactly the seven checksums of what it spells |
| `V5Text.PhaseRoundTrip` | src/core/RecoveryJournalV5.cpp:74-121 | the twelve phase tokens are told apart |
| `JournalLayout.DocumentTextRoundTrip` | src/core/RecoveryJournalV5.cpp:549-634 | the same for the characters, under any white-space layout |
| `JournalReader.ReadDocument` | src/core/RecoveryJournalV5.cpp:992-1162 | the cursor-driven reader returns what the specification parses, hence every serialized record |

## Left out

- Preview.ApplyPreview: preview and pending source entry are at different locations (a quad's sample configuration may be previewed unless that quad's source is pending); the code has no such guard, and a register journaled under both entries has no single original value.
- Source.ChangeSource: the same, seen from the source change: no preview is pending on the quad's sample configuration.
- Runs.Execute: an apply is issued only while no preview is live, as src/hardware/OwnershipService.cpp:1393 enforces; the apply operation itself has no such guard. A run ends with the first apply that opens the gap.
- Runs.BeginSession: preparation and start are reduced to their journal saves; their gate checks, module quiescing and controller uploads are modelled only as the plan and memory that `Fingerprint` uses.
- Crate.World.WriteVme: a write touches only the addressed register, and only a reported success of a selector write is trusted; transport batching, retries and `VmeTransaction` are not modelled.
- Recovery.RecoverOrphan: recovery is modelled for journal versions 1 to 4, as the code runs it; version 5 has no recovery operation in this file.
- LiteralScript.WriteLineDenotes: character-level tokenizing, expression arithmetic and variable expansion are an arbitrary environment; export lemmas assume that literal lines expand to their own tokens and hexadecimal literals resolve to their value, which `PlainScripts.PlainReadsLiterals` shows can be met.
- InitScript.Evaluator.EvaluateScript: comment stripping and line splitting are done before the model, and message texts are dropped.
- ScpProfile.Compare: setting names and display flags are dropped, and the global differences are kept in a list of their own because the code lists them first.
- StreamDecoder.MvmeStreamDecoder.Consume: counters and sequence numbers do not wrap at 64 bits, and each public call is one atomic step.
- BridgeDecoder.BridgeFrameDecoder.Consume: the null-pointer input error cannot arise, since input is a value.
- AtomicInstall.Install: path normalization, directory and file-type checks, and injected test seams are left out; a failed rename or link has no effect.
- JournalText.RecordRoundTrip: checksums are arbitrary functions of the stored fields, so collision strength is not part of the claim.
- V5Text.DocumentRoundTrip: the same for the seven section and record checksums.
- Floating-point expression evaluation, JSON and UUID handling of the workspace copy, project and storage file formats, user interface, sockets, worker queues and SSH child handling are not modelled.
- The bulk-apply, single-repair and deterministic-startup operations that execute planned steps against hardware are not modelled; the plans they execute are.
- Guided workflow, startup audit and endpoint selection are decision tables and would only add easy members.
