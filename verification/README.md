# Musical packets: a verified model

The program turns network packets into MIDI notes. It captures packets, keeps a
bounded registry of flows, routes each packet by ordered rules, maps played
packets to notes, and sends the notes to a MIDI device or to another instance.
A controller persists and publishes the routing policy while packets flow.

This project models the parts whose correctness spans many steps and proves
what every run of them keeps. `dafny verify dfyconfig.toml` checks the whole
project.

- **MIDI ownership** (`MidiMessages`, `MidiProtocol`, `MidiSafety`, `MidiRate`,
  `MidiAdmission`, `MidiRuntime`). Scheduler, manager and runtime as one transition system over
  the gated operations: notes, timers (also those that fire after they were
  stopped), panic, close, discovery, device transitions, manager stop. Each
  opened output accepts a number of messages chosen by the environment and then
  fails, so every pattern of send failures is covered. What sounds on an output
  is computed from the messages it accepted, by the MIDI 1.0 meaning of Note On,
  Note Off and controller 123. `MidiRuntime` holds the objects of the program;
  each method is proved to be one step of the transition system.
- **Configuration** (`Configuration`, `ConfigRepository`, `RepositoryProtocol`,
  `RepositoryCalls`, `Controller`, `ControllerSafety`, `ControllerOutcomes`,
  `ControllerRuntime`). The file repository
  as whole calls with a fault at every system operation, and as a step-by-step
  protocol of several processes with killed processes, power loss and writers
  that ignore the lock; the policy controller on top of it. Encoding and digest
  are parameters with laws stated by `Configuration.Lawful`: canonical
  encodings decode to what was encoded, and the digest identifies the bytes and
  is never empty.
- **Flows** (`Heap`, `Packets`, `FlowKey`, `FlowSnapshots`, `FlowRegistry`,
  `FlowHistory`). The index-tracking heap beside the map refines a plain map;
  the bounded top-k heap computes a prefix of the full sort; every counter of a
  retained flow is that of the packets recorded for it.
- **Rules** (`Modes`, `Decimal`, `Selector`, `RuleConfigs`, `Compilation`).
  Validation, conversion, safety rules with fresh identifiers, tiers, decision.
- **Peers** (`PeerWire`, `PeerWindow`, `PeerNodes`, `PeerHistory`,
  `PeerSessions`, `PeerHost`, `PeerEdge`). Wire conversion, duplicate window, node table, sessions and
  shutdown, the sending queue and its backoff.
- **Pipeline** (`Pipeline`, `PipelineFates`, `Processing`, `Mapper`,
  `NoteChoice`, `Notes`). Three concurrent
  stages over two bounded queues; the work done on one packet; the mapping.

Four promises of the design hold only under a condition. The model states each
as an if-and-only-if on what is known before the step, and shows a run that
misses it:

- The controller's state tells the truth about the file after every request of
  a run if and only if every step is prudent (`ControllerSafety.RunsAgree`,
  `ControllerSafety.StepAgrees`). What is not prudent is named by the next two
  points and by a foreign write that leaves another revision than the promised
  one (`ControllerSafety.OutsideAgrees`).
- A transaction whose `apply` fails publishes Ready over a file with another
  generation if and only if it reconciles a file whose revision is not the
  active one, the candidate differs from what the file holds, both encode, the
  file is owner-only, and neither the replacement nor the rollback fails
  (`ControllerSafety.TransactAgrees`, `ControllerSafety.FailedApply`,
  `ControllerSafety.FailingApplyBreaksAgreement`). The `apply` of the program
  never fails.
- Configuring safety rules forgets a pending generation, so the agreement
  survives it if and only if nothing is pending
  (`ControllerSafety.SafetyAgreesWhenNothingPending`,
  `ControllerSafety.SafetyForgetsThePending`). The program does this once, at
  start-up.
- Commits form a chain beside writers that ignore the lock if and only if every
  rename finds the file that its call decided upon
  (`RepositoryProtocol.RunsChainExactly`). Only a write past the lock, between
  a recheck and the rename after it, can break this
  (`RepositoryProtocol.OnlyOutsidersDisturb`,
  `RepositoryProtocol.ConsiderateRunsChain`), and
  `RepositoryProtocol.GapLosesAnUpdate` shows runs on both sides.

## Model

| member | source | states |
|---|---|---|
| `MidiMessages.BuildersAreUnderstood` | internal/midi/midi.go:61-96 | the three builders accept exactly valid channels and pitches, and their bytes mean Note On, Note Off and All Notes Off of the MIDI standard |
| `MidiSafety.StepKeeps` | internal/midi/scheduler.go:119-294 | every step of the protocol keeps ownership of notes, timers, limits and alternation |
| `MidiSafety.RunKeeps` | internal/midi/runtime.go:73-115 | the invariant holds after every run from every state that has it |
| `MidiSafety.RunsOwnTheirNotes` | internal/midi/scheduler.go:119-246 | in every run a connected output plays exactly the active notes, exactly those have a live timer of their own generation, and polyphony is bounded |
| `MidiSafety.NotesAlternate` | internal/midi/scheduler.go:140-178 | on each output Note On and Note Off of a key strictly alternate |
| `MidiSafety.LateTimerIsHarmless` | internal/midi/scheduler.go:212-230 | a stopped timer that fires anyway ends no note and sends nothing |
| `MidiSafety.CloseSilences` | internal/midi/runtime.go:92-100 | Close leaves a connected output silent |
| `MidiSafety.ClosedForGood` | internal/midi/scheduler.go:202-210 | after Close, in every later run, nothing is active, no Note On is accepted and the connected output stays silent |
| `MidiSafety.StopAfterCloseIsSilent` | internal/app/app.go:550-559 | the shutdown order of the application leaves the output silent when the manager stops, whatever happens in between |
| `MidiSafety.StopIsSilentExactlyWhenIdle` | internal/midi/manager.go:107-139 | stopping the manager alone leaves its output silent if and only if no note was active |
| `MidiSafety.StopAloneLeavesANote` | internal/midi/manager.go:107-139 | a run of three steps after which stopping the manager alone leaves a note hanging |
| `MidiSafety.ReplacedOutputIsSilent` | internal/midi/manager.go:245-275 | a device transition leaves nothing sounding on the output it replaces unless that output fails during the panic |
| `MidiSafety.RetiredForGood` | internal/midi/manager.go:259-275 | an output that was replaced is never used again: in every later run it is sent nothing and what it plays does not change |
| `MidiSafety.ReplacedOutputStaysSilent` | internal/midi/runtime.go:102-115 | so a device transition silences the output it replaces for the rest of every run |
| `MidiSafety.LimitsFixed` | internal/midi/scheduler.go:87-117 | no step changes the configured limits |
| `MidiRate.RunsRespectTheRate` | internal/midi/scheduler.go:287-294 | for a clock that never goes back, every one-second window of every run holds at most the configured number of accepted Note Ons |
| `MidiRate.RunsRespectTheRetriggerInterval` | internal/midi/scheduler.go:139-178 | a key that still sounds is never played again sooner than the minimum interval |
| `MidiAdmission.AnswersAreExact` | internal/midi/scheduler.go:119-178 | the whole table of answers: a note is played exactly if it is valid, not cancelled, in time, within rate and polyphony, and the device takes its messages; each refusal names the first condition that fails |
| `MidiAdmission.PlayedNoteSounds` | internal/midi/scheduler.go:155-178 | a played note ends what its key was playing, then sounds at its velocity beside the other notes, owned from that moment with a timer of its own for its duration |
| `MidiAdmission.RefusedNoteIsSilent` | internal/midi/scheduler.go:139-169 | a refused note changes no device, note or timer; a failed send leaves nothing connected, active or timed |
| `MidiAdmission.WindowIsTheLastSecond` | internal/midi/scheduler.go:287-294 | the rate window holds exactly the Note Ons of the last second |
| `MidiAdmission.RunsPlayExactly` | internal/midi/scheduler.go:119-178 | in every run the answer Played is determined, both ways, by what the device was sent: last Note On of the key, Note Ons of the last second, sounding notes, messages left |
| `MidiAdmission.TimerEndsTheNote` | internal/midi/scheduler.go:212-230 | the timer of an active note ends that note and no other |
| `MidiAdmission.PanicSilences` | internal/midi/runtime.go:73-86 | a panic leaves nothing sounding, active or timed, keeps a device that takes the sixteen messages and leaves the scheduler open |
| `MidiAdmission.ReconcilesTheConnection` | internal/midi/manager.go:188-243 | a vanished device is disconnected, another that opens and takes its reset is connected and silent, and every other reconciliation keeps connection and notes |
| `MidiAdmission.ClosedKeepsTheConnection` | internal/midi/runtime.go:102-115 | a closed runtime neither connects nor disconnects |
| `MidiAdmission.StopDisconnects` | internal/midi/manager.go:107-139 | once the manager has stopped, no later run connects a device |
| `MidiRuntime.Manager.Send` | internal/midi/manager.go:141-153 | forwards to the current output, or drops a failed output |
| `MidiRuntime.Manager.ResetOutput` | internal/midi/manager.go:277-285 | sends All Notes Off on sixteen channels and reports the first failure |
| `MidiRuntime.Manager.OpenOutput` | internal/midi/manager.go:222-243 | an opened output is reset before it is handed over |
| `MidiRuntime.Scheduler.SendMessage` | internal/midi/scheduler.go:262-275 | sends, and forgets all active notes when the output failed |
| `MidiRuntime.Scheduler.ClearActiveLocked` | internal/midi/scheduler.go:277-285 | stops every timer and clears the active notes |
| `MidiRuntime.Scheduler.PruneRateWindow` | internal/midi/scheduler.go:287-294 | drops the notes older than one second, in place |
| `MidiRuntime.Scheduler.PanicLocked` | internal/midi/scheduler.go:232-246 | is the panic step: every timer stopped, every channel silenced until a send fails |
| `MidiRuntime.Scheduler.ReleaseNote` | internal/midi/scheduler.go:155-165 | the retrigger half of Write |
| `MidiRuntime.Scheduler.StartNote` | internal/midi/scheduler.go:166-178 | the Note On half of Write, with a new generation and timer |
| `MidiRuntime.Scheduler.Write` | internal/midi/scheduler.go:119-181 | is the write step, of which `MidiAdmission` states the exact answer and effect |
| `MidiRuntime.Scheduler.StopNote` | internal/midi/scheduler.go:212-230 | is the timer step |
| `MidiRuntime.Scheduler.CloseCoordinated` | internal/midi/scheduler.go:202-210 | is the close step |
| `MidiRuntime.Runtime.Write` | internal/midi/runtime.go:68-71 | writes through the scheduler under the gate |
| `MidiRuntime.Runtime.Timer` | internal/midi/scheduler.go:212-230 | a timer is the same step of the protocol whether or not the runtime is closed |
| `MidiRuntime.Runtime.Panic` | internal/midi/runtime.go:73-86 | panics unless closed |
| `MidiRuntime.Runtime.Close` | internal/midi/runtime.go:92-100 | closes once |
| `MidiRuntime.Runtime.BeginReconcile` | internal/midi/manager.go:188-243 | decides on the next device and opens and resets it before taking the gate |
| `MidiRuntime.Runtime.TransitionCoordinated` | internal/midi/runtime.go:102-115 | panics the old output, then replaces it, unless closed |
| `MidiRuntime.Runtime.StopManager` | internal/midi/manager.go:107-139 | the end of the manager's run |
| `Configuration.EncodingsDiffer` | internal/config/load.go:58-73 | configurations with the same canonical encoding are equal |
| `ConfigRepository.ResultTellsTheFile` | internal/config/repository.go:145-191 | under every fault: a failed call left the file alone; a done call took it from before to after, and it differs exactly if the change says so |
| `ConfigRepository.ReplaceInstallsTheConfig` | internal/config/repository.go:164-190 | a done replacement found the expected revision and left the requested configuration; it is a no-op exactly for an equal configuration |
| `ConfigRepository.ConflictMeansOtherRevision` | internal/config/repository.go:469-474 | a conflict is reported exactly if the readable file has another revision |
| `ConfigRepository.WarningsAreExact` | internal/config/repository.go:443-467 | a warning means a committed change whose directory sync or lock release failed, and nothing else |
| `ConfigRepository.InstallChanges` | internal/config/repository.go:179-190 | what is committed always differs from what it replaces |
| `ConfigRepository.RollbackInverts` | internal/config/repository.go:205-254 | rollback after replace restores bytes and mode; rolling back the rollback restores the replacement |
| `ConfigRepository.RollbackKeepsLaterUpdates` | internal/config/repository.go:220-237 | a rollback changes no file but the one its own change made |
| `ConfigRepository.OwnerOnlyMeans` | internal/config/repository.go:485-490 | a file may be replaced only if the permission digits of group and others are zero |
| `ConfigRepository.FileRepository.ReplaceContext` | internal/config/repository.go:145-191 | the locking, writing, rechecking and renaming call has exactly the specified result and leaves no temporary file unless removal fails |
| `ConfigRepository.FileRepository.RollbackContext` | internal/config/repository.go:205-254 | the same for rollback |
| `ConfigRepository.FileRepository.Mutate` | internal/config/repository.go:443-453 | lock, decision, commit and release, with the rule that a failing release is a warning only after a change |
| `ConfigRepository.FileRepository.Commit` | internal/config/repository.go:256-325 | the temporary file replaces the file exactly if no operation fails |
| `RepositoryProtocol.StepKeeps` | internal/config/repository.go:256-325 | every step of every process, fault, kill, power loss and foreign write at any moment keeps the invariant |
| `RepositoryProtocol.RunKeeps` | internal/config/repository.go:256-325 | the invariant holds in every run, whatever writers that ignore the lock do |
| `RepositoryProtocol.RenameLinks` | internal/config/repository.go:300-324 | the rename is the atomic effect of the whole call if and only if the path still names the file decided upon |
| `RepositoryProtocol.CallsExclude` | internal/config/repository.go:401-432 | at most one process is inside a call |
| `RepositoryProtocol.CommitsChain` | internal/config/repository.go:145-191 | in an undisturbed run each committed change found what its predecessor left and equals one uninterrupted call on it |
| `RepositoryProtocol.RunsChainExactly` | internal/config/repository.go:86-90 | in every run the commits since the last power loss form a chain if and only if every rename found the file its call decided upon |
| `RepositoryProtocol.OnlyOutsidersDisturb` | internal/config/repository.go:86-90 | a rename that does not find that file overwrites one made by a writer that ignores the lock |
| `RepositoryProtocol.ConsiderateRunsChain` | internal/config/repository.go:86-90 | writers that keep out of the gap between recheck and rename never break the chain |
| `RepositoryProtocol.ResultsAreHonest` | internal/config/repository.go:443-453 | a call that ends in an error or without a change committed nothing; one that ends with a change committed it once |
| `RepositoryProtocol.PowerLossLeavesAGeneration` | internal/config/repository.go:283-325 | a power loss at any moment leaves a complete generation of the history |
| `RepositoryProtocol.SyncedCommitSurvives` | internal/config/repository.go:455-467 | durability: after a successful directory sync, a power loss at the end of any later run finds that commit or a file the path named after it |
| `RepositoryProtocol.CommitAddsOneName` | internal/config/repository.go:283-321 | the one step of a call that changes the path installs complete, flushed bytes, over the file decided upon if that is still there |
| `RepositoryProtocol.GapLosesAnUpdate` | internal/config/repository.go:86-90 | concrete runs: a foreign file put between recheck and rename is overwritten and breaks the chain; the same file put back, or a call that gives up, does not |
| `RepositoryCalls.SoloCallPerforms` | internal/config/repository.go:145-325 | from every state with a free lock, an undisturbed call leaves the file and reports the outcome of the whole-call specification, for every job, and gives the lock back |
| `RepositoryCalls.KilledProcessBlocksNobody` | internal/config/repository.go:401-432 | a process killed inside a call leaves file and lock so that the next call of any process goes through |
| `Controller.RestartFieldsAreComplete` | internal/app/policy.go:770-838 | whatever fields are listed, a change needs no restart exactly if it is confined to default state, default channel and rules |
| `ControllerSafety.RunsPublish` | internal/app/policy.go:461-520 | over every run, with any faults and with foreign writes between requests and around each repository call: frozen settings never change, the selector is the compilation of the published configuration, the overlay stays valid and within capacity, and only a controller with a repository leaves Ready |
| `ControllerSafety.OverlaySurvives` | internal/app/policy.go:506-512 | configuration requests and safety changes keep the overlay |
| `ControllerSafety.OverlayPublishes` | internal/app/policy.go:647-722 | overlay requests keep the overlay valid |
| `ControllerSafety.DegradedForGood` | internal/app/policy.go:422-424 | a degraded controller stays degraded and keeps its configuration |
| `ControllerSafety.OwnTrafficStaysIgnored` | internal/app/policy.go:687-706 | once safety rules are configured, no later request makes the application's own traffic select anything but ignore |
| `ControllerSafety.RunsAgree` | internal/app/policy.go:411-551 | the state tells the truth about the file after every request of a run if and only if every step of it is prudent |
| `ControllerSafety.StepAgrees` | internal/app/policy.go:304-407 | a step of any kind from an agreeing state keeps the agreement if and only if it is prudent |
| `ControllerSafety.TransactAgrees` | internal/app/policy.go:411-521 | a transaction, under every fault, keeps it if and only if it does not roll back to a foreign generation |
| `ControllerSafety.OutsideAgrees` | internal/app/policy.go:535-551 | a foreign write keeps it if and only if the file still has the promised revision |
| `ControllerSafety.StageAgrees` | internal/app/policy.go:304-363 | staging keeps it |
| `ControllerSafety.CancelAgrees` | internal/app/policy.go:367-407 | cancelling keeps it |
| `ControllerSafety.FailureAgrees` | internal/app/policy.go:535-551 | after a failed replacement the state is unchanged only if the file was verified |
| `ControllerSafety.FailedApply` | internal/app/policy.go:553-572 | with a failing apply the agreement is lost if and only if the named revision is in the file and not the active one, the candidate differs and both encode, the file is owner-only, and neither replacement nor rollback meets a fatal fault |
| `ControllerSafety.FailingApplyBreaksAgreement` | internal/app/policy.go:560-571 | a concrete reconciliation after which Ready is published over a foreign file |
| `ControllerSafety.SafetyAgreesWhenNothingPending` | internal/app/policy.go:695-704 | configuring safety keeps the agreement exactly if nothing is pending |
| `ControllerSafety.SafetyForgetsThePending` | internal/app/policy.go:695-704 | a run of two requests after which the agreement is lost |
| `ControllerSafety.RestartLoadsThePromise` | internal/app/policy.go:160-201 | a restart succeeds and loads exactly the generation the state promised |
| `ControllerOutcomes.CallIsExact` | internal/config/repository.go:145-191 | when a replacement succeeds, conflicts or fails, on file and faults alone, and what a success reports |
| `ControllerOutcomes.StoppedShort` | internal/app/policy.go:411-478 | a request that stops before the repository changes nothing and is refused |
| `ControllerOutcomes.ForeignRevisionIsNoticed` | internal/app/policy.go:481-491 | whatever the request, meeting a file of another revision than the one named puts the controller out of sync and changes nothing else |
| `ControllerOutcomes.FailureIsVerified` | internal/app/policy.go:535-551 | a store that fails otherwise keeps the mode exactly if the file can be read again and is the one relied on |
| `ControllerOutcomes.ForeignWriteIsNoticed` | internal/app/policy.go:481-491 | any readable file another program leaves is noticed by the next request that reaches the repository |
| `ControllerOutcomes.TransactionPublishes` | internal/app/policy.go:496-524 | a stored transaction publishes candidate, compiled selector and file revision, keeps the overlay, and its mode says whether the store may be lost |
| `ControllerOutcomes.StagingAwaitsRestart` | internal/app/policy.go:340-363 | a stored staging keeps the active generation and makes the candidate the pending one |
| `ControllerOutcomes.CancellationRestoresTheActive` | internal/app/policy.go:385-408 | a stored cancellation makes the active generation the durable one with nothing pending |
| `ControllerOutcomes.FailedApplyRollsBack` | internal/app/policy.go:553-572 | a stored transaction that cannot be applied keeps the active generation; the file is put back, or the controller is degraded exactly if that fails |
| `ControllerOutcomes.ReconciliationRecovers` | internal/app/policy.go:432-456 | out of sync, a faultless transaction naming the file's revision is accepted exactly if its candidate may be stored, and then the state agrees with the file |
| `ControllerOutcomes.ForeignWriteIsReconciled` | internal/app/policy.go:432-491 | after any readable foreign write, one request notices and one transaction recovers |
| `ControllerOutcomes.OverlayIsReplaced` | internal/app/policy.go:647-685 | accepted exactly in a working mode for few enough well-formed flows; replaces the muted and keeps the soloed flows, or the reverse, and nothing else |
| `ControllerOutcomes.OverlayDecides` | internal/app/policy.go:647-685 | the decision for every packet that is not own traffic is the configured one under the flows muted and soloed now |
| `ControllerOutcomes.SafetyKeepsTheRest` | internal/app/policy.go:687-706 | configuring safety keeps revision, configuration, overlay, mode and file |
| `ControllerOutcomes.OpensReady` | internal/app/policy.go:160-201 | a controller opens exactly over a readable valid file or an encodable valid configuration, Ready and with nothing pending or muted |
| `ControllerRuntime.CompileSelector` | internal/app/policy.go:739-768 | converts, splits and joins the rules into exactly the specified selector |
| `ControllerRuntime.Validate` | internal/app/policy.go:251-260 | accepts exactly the valid configurations |
| `ControllerRuntime.NewController` | internal/app/policy.go:160-201 | the file prevails over the given configuration |
| `ControllerRuntime.PolicyController.TransactContext` | internal/app/policy.go:411-480 | is the transaction step, reply included |
| `ControllerRuntime.PolicyController.ProposeCandidate` | internal/app/policy.go:453-480 | validation, classification and read-only checks in order |
| `ControllerRuntime.PolicyController.PersistCandidate` | internal/app/policy.go:482-521 | persistence before publication |
| `ControllerRuntime.PolicyController.Replace` | internal/app/policy.go:528-533 | the repository call, with what other programs write just before and just after it |
| `ControllerRuntime.PolicyController.MarkFailure` | internal/app/policy.go:535-551 | is the failure step, of which `ControllerOutcomes` states the exact mode |
| `ControllerRuntime.PolicyController.ApplyFailed` | internal/app/policy.go:553-572 | rollback and the state it leaves |
| `ControllerRuntime.PolicyController.StageRestartContext` | internal/app/policy.go:304-363 | is the staging step |
| `ControllerRuntime.PolicyController.CancelRestartContext` | internal/app/policy.go:367-407 | is the cancelling step |
| `ControllerRuntime.PolicyController.SetOverlay` | internal/app/policy.go:647-682 | is the overlay step |
| `ControllerRuntime.PolicyController.ConfigureSafetyRules` | internal/app/policy.go:687-706 | is the safety step and cannot fail for a valid configuration |
| `Heap.PushKeeps` | internal/flow/registry.go:275-279 | push gives a heap of the old elements and the new one |
| `Heap.PopKeeps` | internal/flow/registry.go:281-289 | pop gives the root and a heap of the rest |
| `Heap.FixKeeps` | internal/flow/registry.go:207-225 | replacing one element and fixing its place gives a heap |
| `Heap.RootComesFirst` | internal/flow/registry.go:262-267 | nothing in a heap comes before its root |
| `Heap.SiftUp` | internal/flow/registry.go:260-273 | the sift-up loop is the recursive specification |
| `Heap.SiftDown` | internal/flow/registry.go:260-273 | the sift-down loop is the recursive specification and reports whether anything moved |
| `FlowKey.CanonicalKeyIgnoresDirection` | internal/flow/key.go:29-61 | both directions have one key, whose endpoints are the packet's in the order of address length, address and port; the direction says which end sent |
| `FlowKey.KeyIdentifiesTheConversation` | internal/flow/key.go:29-61 | two packets share a key exactly if protocol and endpoint pair agree |
| `FlowKey.StreamInjective` | internal/flow/key.go:39-75 | for every address, port and supported protocol the byte stream fed to the hash determines seed and key, given that address texts differ (`FlowKey.ByBytesIsFaithful` shows such texts) |
| `FlowKey.BigEndianSpells` | internal/flow/key.go:63-75 | lengths and ports are spelled most significant byte first |
| `FlowSnapshots.FullSortSorts` | internal/flow/registry.go:233-238 | the full sort is ordered and holds each flow once |
| `FlowSnapshots.FullSortIsByRecency` | internal/flow/registry.go:233-238 | the later seen comes first, then the smaller identifier by characters |
| `FlowSnapshots.LeadersAreThePrefix` | internal/flow/registry.go:169-198 | the most recent flows are the prefix of the full sort |
| `FlowSnapshots.LeadersSorted` | internal/flow/registry.go:169-198 | arranging the bounded heap gives that prefix |
| `FlowRegistry.OldestIsUnique` | internal/flow/registry.go:262-267 | the flow to evict is determined |
| `FlowRegistry.OldestIsLeastRecent` | internal/flow/registry.go:262-267 | the flow to evict was seen least recently, then has the smallest identifier |
| `FlowRegistry.ObserveIsDetermined` | internal/flow/registry.go:79-127 | observing has one possible result on a plain map |
| `FlowRegistry.ObserveKeepsBounds` | internal/flow/registry.go:79-127 | the plain map stays within its capacity and consistent |
| `FlowRegistry.UpdateKeepsConsistent` | internal/flow/registry.go:207-225 | one packet keeps a flow's counters and times consistent; `FlowHistory.FlowsTellTheirPackets` says what they count |
| `FlowRegistry.UpEntry` | internal/flow/registry.go:269-273 | sifting up keeps every stored heap index right |
| `FlowRegistry.DownEntry` | internal/flow/registry.go:269-273 | sifting down keeps every stored heap index right |
| `FlowRegistry.FixEntry` | internal/flow/registry.go:207-225 | fixing one entry restores heap and indices |
| `FlowRegistry.PopEntry` | internal/flow/registry.go:281-289 | popping removes exactly the root entry and keeps the other indices right |
| `FlowRegistry.PopOldest` | internal/flow/registry.go:100-104 | what is popped is the least (LastSeen, ID) flow |
| `FlowRegistry.Enter` | internal/flow/registry.go:124-126 | a new entry joins map and heap |
| `FlowRegistry.Rewrite` | internal/flow/registry.go:207-225 | an updated entry keeps map and heap in step |
| `FlowRegistry.MakeRoom` | internal/flow/registry.go:99-105 | a full registry evicts exactly its oldest flow |
| `FlowRegistry.ObserveBook` | internal/flow/registry.go:79-127 | map, heap and indices refine the plain map |
| `FlowRegistry.ExpireBook` | internal/flow/registry.go:130-146 | exactly the flows at or before the cutoff leave, least recent first |
| `FlowRegistry.Scan` | internal/flow/registry.go:169-198 | any iteration order of the map keeps the most recent flows |
| `FlowRegistry.Consider` | internal/flow/registry.go:180-190 | one candidate joins, replaces the last leader or is passed over |
| `FlowRegistry.RecentSnapshots` | internal/flow/registry.go:169-198 | equals the first elements of the full sort |
| `FlowRegistry.Registry.Observe` | internal/flow/registry.go:79-127 | the object's observation is the plain one, whose fields `FlowHistory.FlowsTellTheirPackets` determines |
| `FlowRegistry.Registry.Recent` | internal/flow/registry.go:169-198 | the object's recent flows are the prefix of the full sort |
| `FlowRegistry.Registry.Expire` | internal/flow/registry.go:130-146 | the object's expiry is the plain one |
| `FlowHistory.FlowsTellTheirPackets` | internal/flow/registry.go:79-146 | over every history of packets and expiries each retained flow counts exactly its packets since it was created, in total, in bytes and by direction; first and last seen are the least and greatest capture time; the last event is the last to arrive of the latest |
| `FlowHistory.DirectionsAreTheEndpoints` | internal/flow/registry.go:207-225 | if its identifier stands for one conversation, a flow's direction counters count the packets from its first endpoint and from the other |
| `Modes.ModeRoundTrip` | internal/music/mode.go:44-66 | parsing and naming are inverse and exactly seven names parse |
| `Modes.ModesRotateTheMajorScale` | internal/music/mode.go:33-41 | the seven modes are the rotations of the major scale |
| `Decimal.CandidatesDiffer` | internal/app/app.go:458-472 | different suffixes give different names |
| `Decimal.TakenCandidates` | internal/app/app.go:458-472 | n taken candidates need n used names |
| `Decimal.UniqueName` | internal/app/app.go:458-472 | the search finds an unused name within len(existing) + 1 tries |
| `Selector.FirstMatchIsFirst` | internal/flow/selector.go:216-223 | the match found is the first that applies |
| `Selector.CheckRules` | internal/flow/selector.go:100-145 | accepts exactly valid rules with distinct identifiers |
| `Selector.NewSelector` | internal/flow/selector.go:100-145 | accepts exactly the acceptable configurations |
| `Selector.SelectionsAreRoutable` | internal/flow/selector.go:178-214 | every decision has channel 1 to 16, a known state and an identity only for played traffic |
| `Selector.SafetyRulesPrevail` | internal/flow/selector.go:178-203 | a matching safety rule decides, whatever overlay and other rules say |
| `RuleConfigs.ConversionKeepsMeaning` | internal/config/rules.go:101-225 | a converted rule applies exactly to the packets the configured rule describes |
| `RuleConfigs.ConvertFlags` | internal/config/rules.go:189-213 | flags convert exactly if known and not repeated |
| `RuleConfigs.ToFlowRule` | internal/config/rules.go:101-225 | converts exactly the sound rules |
| `RuleConfigs.ToFlowRules` | internal/config/rules.go:73-99 | converts exactly the lists of sound rules with distinct identifiers, in order |
| `Compilation.GeneratePeerRules` | internal/app/runtime_peer.go:133-157 | generates two rules per address, each with a fresh identifier |
| `Compilation.SafetyGenerated` | internal/app/app.go:216-224 | generated safety rules are valid, ignore, and never collide with the user's identifiers |
| `Compilation.PeerCovers` | internal/app/runtime_peer.go:133-157 | every resolved peer address is covered in both directions |
| `Compilation.OwnTrafficIsCovered` | internal/app/app.go:435-456 | every packet of the application's own traffic matches a generated rule |
| `Compilation.SafetyCoversExactlyOwnTraffic` | internal/app/app.go:435-456 | a generated safety rule matches if and only if the packet is the application's own traffic |
| `Compilation.SplitTiers` | internal/app/policy.go:744-752 | splits the rules by exact flow, in order |
| `Compilation.CompilationIsTotal` | internal/app/policy.go:739-768 | every valid configuration compiles with its safety rules |
| `Compilation.CompilationPreservesMeaning` | internal/flow/selector.go:178-214 | every packet that is not own traffic gets the decision the configuration states, in every field: muted, not soloed, first exact-flow rule, first other rule or default; state, channel or inherited channel, mode, root, rule and flow identifier |
| `Compilation.OwnTrafficIsIgnored` | internal/flow/selector.go:178-203 | own traffic is ignored under every valid policy and overlay |
| `PeerWire.ConversionsAreInverse` | internal/peer/protocol.go:189-222 | wire and event conversion are inverse partial functions, and both forms say the same under the same names |
| `PeerWire.ValidateMessage` | internal/peer/protocol.go:123-166 | accepts exactly messages with one payload, the one their type names, and that valid |
| `PeerWindow.ObserveMatches` | internal/peer/host.go:366-394 | map and queue always hold the same distinct identifiers, within capacity |
| `PeerWindow.RunsMatch` | internal/peer/host.go:366-394 | so over every sequence of arrivals |
| `PeerWindow.KeysDiffer` | internal/peer/host.go:351-351 | origin, NUL and identifier form an injective key |
| `PeerWindow.SafeOriginsHaveNoNul` | internal/peer/protocol.go:246-249 | accepted origins contain no NUL |
| `PeerWindow.StaysInWindow` | internal/peer/host.go:366-394 | a written note stays known until its expiry or until the capacity is used up by others |
| `PeerWindow.AtMostOnce` | internal/peer/host.go:327-394 | at-most-once delivery per origin, identifier and creation time |
| `PeerWindow.DuplicatesWereWritten` | internal/peer/host.go:327-394 | the converse: whatever is taken for a duplicate has the origin and identifier of a note written before |
| `PeerWindow.WindowEndsTheWritten` | internal/peer/host.go:366-394 | the queue always holds the latest of the notes written |
| `PeerWindow.VerdictsAreExact` | internal/peer/host.go:327-364 | a note is written if and only if it is valid, of the authenticated instance, timely, and no note of its origin and identifier was written within retention and capacity; duplicates and stale notes likewise |
| `PeerNodes.PruneNodes` | internal/peer/host.go:452-479 | keeps every connected node and the latest of the others, as many as fit |
| `PeerNodes.Register` | internal/peer/host.go:261-292 | admits exactly below the connection limit, keeps all bounds, replaces an earlier session of the same instance |
| `PeerNodes.RecordNode` | internal/peer/host.go:396-420 | counts a note once under one outcome |
| `PeerNodes.RecordKeeps` | internal/peer/host.go:396-420 | received equals accepted, rejected, duplicate and stale together, always |
| `PeerNodes.UpdatesKeep` | internal/peer/host.go:302-325 | disconnect and touch keep all bounds |
| `PeerNodes.OldGenerationIsInert` | internal/peer/host.go:302-325 | in every run a session that does not own its node never owns it again, and none of its updates changes any later table |
| `PeerNodes.ReplacedSessionIsInert` | internal/peer/host.go:261-325 | in particular every earlier session of an instance, from the moment the instance is admitted again |
| `PeerNodes.RunsStayBounded` | internal/peer/host.go:261-325 | over every run of registrations, disconnects, touches, records and listings the table stays bounded and balanced |
| `PeerNodes.ConnectedNodesStay` | internal/peer/host.go:452-479 | only its own session's disconnect or a new registration of its instance ends a connected node |
| `PeerHistory.NodesTellTheirSessions` | internal/peer/host.go:261-420 | over every run each node tells exactly of its own session: times, whether it left, notes in total and by outcome, channels, connection |
| `PeerSessions.RunKeeps` | internal/peer/host.go:198-251 | session count and wait group match the sessions in progress in every run |
| `PeerSessions.CloseIsABarrier` | internal/peer/host.go:237-251 | after Close returned no session writes to the sink |
| `PeerSessions.SessionsAreBounded` | internal/peer/host.go:198-210 | at most twice the connection limit are in progress |
| `PeerSessions.AdmittedExactly` | internal/peer/host.go:198-227 | a session is admitted exactly below the bound and before Close, and its writes reach the sink |
| `PeerSessions.CloseReturnsExactly` | internal/peer/host.go:237-251 | Close returns exactly once every session in progress is done |
| `PeerSessions.CloseCanReturn` | internal/peer/host.go:237-251 | from every closing state, ending the sessions in progress makes Close return |
| `PeerHost.Host.RegisterSession` | internal/peer/host.go:261-292 | registration on the object |
| `PeerHost.Host.DisconnectSession` | internal/peer/host.go:302-317 | disconnects only the session's own generation |
| `PeerHost.Host.TouchSession` | internal/peer/host.go:319-325 | touches only the session's own generation |
| `PeerHost.Host.RecordResult` | internal/peer/host.go:396-420 | records only for the session's own generation |
| `PeerHost.Host.PruneDuplicates` | internal/peer/host.go:385-394 | the pruning loop |
| `PeerHost.Host.TrimDuplicates` | internal/peer/host.go:375-381 | the trimming loop |
| `PeerHost.Host.IsDuplicate` | internal/peer/host.go:366-383 | is the window's observation |
| `PeerHost.Host.AcceptNote` | internal/peer/host.go:327-364 | judges, writes to the sink exactly if the verdict is to write, and counts the outcome |
| `PeerEdge.RunsAccount` | internal/peer/edge.go:111-132 | every valid event is dropped, waiting or taken once, in order, and never fails conversion |
| `PeerEdge.EventsAreConserved` | internal/peer/edge.go:295-321 | waiting, sent, stale, failed and dropped add up to what was offered |
| `PeerEdge.Edge.Write` | internal/peer/edge.go:111-132 | queues without waiting, exactly if there is room |
| `PeerEdge.Edge.ConsumeOne` | internal/peer/edge.go:295-321 | the counters match the outcomes, and a sent note stands for the queued event |
| `PeerEdge.Inspect` | internal/peer/edge.go:298-309 | a transportable note is stale or converts |
| `PeerEdge.EdgeAndHostAgreeOnStaleness` | internal/peer/edge.go:298-301 | an edge drops a note as stale exactly if a host with the same bound and clock would |
| `PeerEdge.SentNotesArrive` | internal/peer/edge.go:295-321 | a note is sent exactly if delivered and fresh, and a host that gets it in time writes that very event or wrote it before |
| `PeerEdge.Delays` | internal/peer/edge.go:141-179 | the n-th delay in a row is min(base doubled n times, limit) |
| `PeerEdge.DoubledIsPower` | internal/peer/edge.go:170-176 | doubling n times multiplies by the n-th power of two |
| `Pipeline.RunKeeps` | internal/pipeline/processor.go:99-248 | every captured packet is under way or has one fate, in capture order, queues bounded |
| `Pipeline.ReturnedMeansSettled` | internal/pipeline/processor.go:99-121 | when Run returned the queues are empty, each packet has exactly one fate and the sink saw notes in capture order |
| `Pipeline.NoSendAfterClose` | internal/pipeline/processor.go:108-158 | nothing is sent on a closed queue and no queue is closed twice |
| `Pipeline.StepsShrink` | internal/pipeline/processor.go:142-158 | after capture ends every effective step brings the return closer |
| `Pipeline.NeverStuck` | internal/pipeline/processor.go:142-248 | after capture ends some step is always possible until Run returns |
| `Pipeline.CaptureEndsThenReturns` | internal/pipeline/processor.go:99-248 | after capture ends every schedule of effective steps is bounded, and where no step has an effect Run has returned |
| `PipelineFates.FatesHaveTheirCause` | internal/pipeline/processor.go:123-248 | a packet meets each fate only in the situation that fate names |
| `PipelineFates.UncancelledRunsLoseOnlyToFullQueues` | internal/pipeline/processor.go:123-248 | without cancellation nothing is lost to a shutdown, and a queue loses a packet only if more were captured than it holds |
| `PipelineFates.RoomyRunsDeliver` | internal/pipeline/processor.go:99-248 | a run that was not cancelled and had room for its packets handed each to the sink or ended it for what it is |
| `Processing.ProcessPacket` | internal/pipeline/processor.go:160-215 | expiry, observation, decision and mapping in order |
| `Processing.OwnTrafficIsSilent` | internal/pipeline/processor.go:178-186 | the application's own traffic never becomes a note |
| `Processing.PacketsSoundAsConfigured` | internal/pipeline/processor.go:160-215 | what becomes of every packet, from the configuration on: dropped, not played, or the note of its flow's count and gap on the configured channel; routing never fails |
| `Processing.PlayedPacketsSound` | internal/pipeline/processor.go:184-206 | a packet the configuration plays sounds if identifiers are well formed and the range has two notes |
| `Processing.NoteFollowsItsFlow` | internal/pipeline/processor.go:188-200 | a note bears the flow and packet count the registry recorded |
| `Processing.EventIdIsSafe` | internal/music/mapper.go:95-95 | identifiers built from a safe origin are safe on the wire |
| `Processing.MappedNotesTravel` | internal/peer/protocol.go:224-249 | a mapped note can be sent to a peer exactly if origin, sequence, time and duration allow it |
| `Processing.WholeMilliseconds` | internal/music/mapper.go:176-189 | durations are whole milliseconds if their bounds are |
| `Mapper.ScaleNotesAreTheScale` | internal/music/mapper.go:117-132 | strictly ascending, exactly the notes in range and scale |
| `Mapper.FindScaleNotes` | internal/music/mapper.go:117-132 | the nested loops compute them |
| `Mapper.SevenNotesPerOctave` | internal/music/mapper.go:117-132 | any twelve consecutive semitones hold seven scale notes |
| `Mapper.EmptyScale` | internal/music/mapper.go:83-86 | a range has no scale note exactly if it is one note off the scale |
| `Mapper.ScaleFollowsDegrees` | internal/music/mode.go:68-77 | at or above the root the scale is what the degrees describe |
| `Mapper.QuantizedIsNearest` | internal/music/mapper.go:176-189 | the nearest multiple of 25 ms, rounding up at the middle, cut to the range; the shortest without a gap; monotone in the gap |
| `Mapper.MappingIsTotal` | internal/music/mapper.go:56-115 | mapping succeeds exactly for a valid packet on a real channel with a well-formed identity and a scale note in range; the event is then valid, with note and duration in range (which note: `NoteChoice`) |
| `NoteChoice.MappedExactly` | internal/music/mapper.go:56-86 | a packet is mapped exactly if it is valid, on a real channel, with a well-formed flow identifier and a scale note of its identity in range |
| `NoteChoice.UnknownModeIsNotMapped` | internal/music/mapper.go:72-76 | a mode that is none of the seven is never mapped |
| `NoteChoice.MappedEventTells` | internal/music/mapper.go:95-110 | identity fixed by the rule or hashed from the flow; name, origin, sequence, version, channel, time and duration |
| `NoteChoice.EmptyPacketPlaysTheLowest` | internal/music/mapper.go:88-92 | an empty flagless TCP packet from the first endpoint plays the lowest scale note in range |
| `NoteChoice.LengthClimbs` | internal/music/mapper.go:88-92 | each byte more plays the next scale note, cyclically |
| `NoteChoice.ProtocolsClimb` | internal/music/mapper.go:134-145 | UDP, ICMP and other protocols lie two, four and six scale notes above TCP |
| `NoteChoice.FlagsClimb` | internal/music/mapper.go:147-159 | SYN, FIN and RST are worth one, two and three scale notes, other flags none |
| `NoteChoice.ReplyClimbs` | internal/music/mapper.go:88-92 | the reverse direction lies half the scale, rounded up, above |
| `NoteChoice.ControlPacketsAreLouder` | internal/music/mapper.go:161-174 | control packets are ten louder, up to 127, than the curve gives |
| `Mapper.DirectionsSoundDifferent` | internal/music/mapper.go:88-92 | with two candidates or more the directions give different notes |
| `Mapper.ReversedPacketSoundsDifferent` | internal/music/mapper.go:64-92 | a packet and its reverse share flow and identity and sound different |
| `Mapper.EventIdsIdentify` | internal/music/mapper.go:95-95 | under one origin an event identifier determines flow and sequence |

## Left out

- HTTP handlers, management API, metrics, observers, logging and the web front end are not modelled.
- libpcap, packet decoding, the MIDI helper process, websockets and HTTP upgrades appear only as success or failure.
- YAML and JSON, SHA-256, regular expressions, device name selection and address parsing are parameters; the laws used of them are stated as hypotheses.
- Numbers and times are unbounded integers; 64-bit overflow of counters and of interArrival plus half a quantum is not modelled.
- The registry's entry pointers are modelled by flow identifiers, so aliasing of entries between map and heap is replaced by a stored index per identifier.
- The loudness curve of a packet is a parameter; only the bonus for control packets and the clamp to 1..127 are modelled.
- The wait loop for the advisory lock is one step that succeeds or fails; waiting itself is the step not being taken.
- Removing old nodes picks the earliest disconnected node repeatedly where the program sorts them once.
- A MIDI timer may go off at any moment after it was started; when it is due is recorded, not enforced.
- Note rates, round-trip times, heartbeat nonces and warning texts are not modelled.
- A replaced peer session may still hand one note to the sink; the program does not bar it and the model does not claim it.
- Event identifiers can repeat after a flow was evicted and created again; no uniqueness over a run is claimed.
- Message decoding (size, UTF-8, duplicate names, nesting depth) is not modelled; messages are values.
- Identifier lengths count characters where the program counts bytes. Addresses have no zone.
- The parts of supervise and start-up other than the order of closing the runtime and stopping the manager are not modelled.
- PeerWindow.AtMostOnce: arrivals are ordered by the host's lock with clock reads that do not decrease, because the program reads the clock before it takes the lock.
- ControllerSafety.RunsAgree: foreign writes fall between requests, not inside one; inside a request the controller's own reads and writes can meet different files, which ControllerSafety.RunsPublish covers.
- ControllerSafety.RunsPublish: a foreign write falls before or after a repository call; what one inside the call does to the file is the subject of RepositoryProtocol.RunsChainExactly.
