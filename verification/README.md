# A verified model of androidctl

androidctl is a host daemon (`androidctld`) and a command line client (`androidctl`) that drive an
Android device through numbered element refs (`n1`, `n2`, ...). This project models the parts of it
whose correctness cannot be read off one function, and proves what they promise. Verify it with
`dafny verify dfyconfig.toml` (Dafny 4.11).

| Files | What they model |
|---|---|
| `RefModels`, `RefCandidates`, `RefService`, `RefReconcile`, `RefStability`, `RefReuse` | Which nodes may have refs, and how refs of an earlier screen are rebound to the nodes of a new one: evidence, confidence and the choice of a candidate; the two loops of reconciliation over mutable nodes and a mutable registry; bijection and stability; and, said of the nodes alone, which node takes over a ref |
| `Runtime`, `Kernel`, `KernelRuns`, `RuntimePhases` | The workspace runtime as an object, its lease-guarded transitions as methods with injected persistence faults, runs of them in any order, and what such runs come to |
| `StagedArtifacts`, `ScreenRefresh` | Staged file updates with backup and rollback, and the refresh that changes runtime, artifact files and state file together |
| `PublicScreen`, `WireRoundTrip`, `WireRules`, `WireScreens` | The public screen, its validation and its serializer; what the two make of each other, and what each holds, reads and lets through |
| `XmlTree`, `ScreenXml`, `ScreenReading`, `XmlProjection`, `ProjectionRules`, `RendererAgreement` | The daemon's renderer, which grows an element tree in place, what a reader of the tree reads in it, the client's projection of the wire dump with its rules, and the agreement of the two |
| `KotlinComments`, `KotlinIdempotence`, `KotlinDelimiters`, `KotlinLaws`, `VersionCode` | The release tool's Kotlin scanners, what they do to each piece of source, and its version codes |
| `ScreenLookup`, `LookupOutcomes`, `LookupStability` | The lookup of a source screen's artifact among damaged files: every outcome, and its stability under damage |
| `Observation`, `Settle`, `SettleTiming` | The settle loop and its clock: when it refreshes, and when it settles |
| `ActionWorld`, `ActionLogs`, `ActionLaws`, `ActionExecutor`, `ActionRuns`, `ActionCases` | Dispatch, repair, retry and confirmation of an action: the world that answers and the course that a run takes, logs, laws, the executor, what follows, and the course case by case |
| `SerialGate`, `ProgressLane` | The serial-command gate and the progress lane under all interleavings |
| `Base64`, `HostToken`, `ScreenshotBody` | Base64 of RFC 4648 (sections 3.5, 4 and 5), host tokens, the screenshot budget |
| `Common`, `Ordering` | Option and Result, decimal text, stable sorting |

Where the source changes state step by step, a method or class does so too and is proved against a
function of the inputs or of the old state; the theorems are lemmas about those functions. Faults,
clocks, devices, threads' schedules and file contents are parameters, and every statement is for
all of them.

Conventions worth knowing:

- `canonical_text_key` is a parameter `key: string -> string`; every result holds for any such function.
- Times are integer microseconds. `remaining_ms` truncates, so there is no poll in the last
  millisecond before a deadline.
- A transport wraps one connector handle; handles are claimed to be closed at least once.
- Python's list sort is a stable insertion sort in `Ordering`.
- A screen node is an object whose `ref` is written in place. The screen state, the artifacts and
  the compiled view held by the runtime are values.

Results that are not what one might expect of the code:

- Stripping comments twice can strip more than stripping once: `StrippingTwiceCanStripMore` gives
  the source text. `StripKeepsTokensIff` says exactly when the other tokens survive, and
  `StripFixesIff` exactly which texts a further pass leaves alone.
- The two renderers differ exactly on screens with a negative omitted count
  (`RendererAgreement.RenderersAgree`); `NegativeCountDiffers` gives a valid screen with one.
- Rolling back a refresh restores the files exactly when every update that had been put in place has
  a backup path or had no original (`RestoredExactlyWhenRecoverable`, `CommitScreenRefresh`);
  `RollbackCanLoseTheOriginal` gives an update for which it does not. `ArtifactWriter` supplies a
  backup path to every update it stages (writer.py:156 and 176), so its own refreshes are restored,
  as long as no file has the name of a new backup (`WriterPlansWell`, `WriterLosesNothing`).
- Activating a connection leaks a handle exactly when it overwrites another live transport
  (`LeaksExactlyOnMisfit`); `ActivationCanLeak` and `RebootstrapInBetweenLeaks` give such runs. A
  connect's own activation never does, whatever happens in between, except another handle being
  taken over (`HandlesNeverLeak`); it is the serial gate that keeps other commands, and with them
  such runs, out of a connect.
- Looking up an artifact can turn to an older payload if a file's name belies its sequence
  (`BeliedNameRedirects` gives the files); `NeverRedirectsIff` says exactly when it cannot, and among
  files named as the writer names them it never does (`WrittenFilesNeverRedirect`).
- The progress lane can be locked while it has no occupant, exactly while its holder is between
  taking or giving back the one and the other (`LockedWithoutOccupantIff`); in
  `LockedWithoutOccupantHappens` the next thread to hold the runtime's lock can see it.
- An action whose dispatch returned does not always end in success or in an execution failure. It
  raises something else exactly when what was called last raised an exception that is no daemon
  error, or was a call to the runtime kernel and failed: dropping the screen of a global action, or
  the cleanup after a failed confirmation, whose original error is then hidden
  (`ActionLaws.DispatchedLawfully`).

## Model

| member | source | states |
|---|---|---|
| RefModels.CandidatesDistinct | androidctld/src/androidctld/semantics/compiler.py:148-172 | No two ref candidates of a screen share a group and a raw id |
| RefCandidates.AdmittedStand | androidctld/src/androidctld/semantics/compiler.py:157-166 | The candidates of a pool are, in its order, the nodes with actions that no earlier node with actions shares group and raw id with |
| RefCandidates.FocusedInputIs | androidctld/src/androidctld/semantics/compiler.py:134-146 | The focused input is searched in one order of the groups, the context last |
| RefCandidates.CandidatesAre | androidctld/src/androidctld/semantics/compiler.py:148-172 | Behind the candidates of the pool comes the focused input, unless a candidate has its key; it needs no actions |
| RefService.BestCandidateForSourceSignature | androidctld/src/androidctld/refs/service.py:224-242 | The loop, sort and thresholds return the index and confidence that the specification picks, or nothing |
| RefService.BestIsClearWinner | androidctld/src/androidctld/refs/service.py:224-242 | A candidate is chosen if and only if it has high confidence and no rival of its bucket comes within the gap threshold; the sort fields after bucket and score never decide |
| RefService.BestIsPermutationInvariant | androidctld/src/androidctld/refs/service.py:224-242 | Shuffling the candidates, duplicates included, changes neither whether one is chosen nor which nor its confidence |
| RefService.BucketIsMonotone | androidctld/src/androidctld/refs/service.py:375-386 | Evidence that is nowhere weaker, with a strong bounds match, never falls into a lower bucket |
| RefService.ScoreIsMonotone | androidctld/src/androidctld/refs/service.py:389-398 | Such evidence never scores less |
| RefService.SelfMatchDominates | androidctld/src/androidctld/refs/service.py:245-305 | A node matches its own signature at least as well, in bucket and score, as any other node does |
| RefService.SelectsOnlyItself | androidctld/src/androidctld/refs/service.py:224-242 | While a node is among the candidates, its own signature selects that node or none |
| RefReconcile.SortedBindings | androidctld/src/androidctld/refs/service.py:136-139 | The earlier bindings are processed sorted by ref, whatever order the dictionary had |
| RefReconcile.ListingMeaning | androidctld/src/androidctld/refs/service.py:136-139 | That listing holds each binding of the registry exactly once |
| RefCandidates.SortedBy | androidctld/src/androidctld/refs/service.py:415-422 | A ref of n and digits is sorted by its number, every other one behind a billion of them, and then by its text |
| RefCandidates.SmallerNumberFirst | androidctld/src/androidctld/refs/service.py:415-422 | Of two numbered refs the smaller number has its turn first, n2 before n10 |
| RefReconcile.ClearCandidateRefs | androidctld/src/androidctld/refs/service.py:172-174 | Every candidate's ref is cleared |
| RefReconcile.ReuseRefs | androidctld/src/androidctld/refs/service.py:135-152 | The first loop leaves nodes, used refs and registry as the specification says, its pool shrinking in place |
| RefReconcile.SkipUsed | androidctld/src/androidctld/refs/service.py:158-159 | The inner loop ends, at the smallest index from the counter on whose name is free |
| RefReconcile.NumberRest | androidctld/src/androidctld/refs/service.py:154-168 | The second loop leaves nodes and registry as the specification says |
| RefReconcile.Reconcile | androidctld/src/androidctld/refs/service.py:123-169 | The nodes' refs and the new registry are those of the specification, for some sorted listing of the old registry |
| RefStability.ReconcileIsBijection | androidctld/src/androidctld/refs/service.py:129-169 | Every candidate ends with a ref of its own, the registry's domain is exactly those refs, and each binding's handle is the snapshot id with that candidate's rid |
| RefStability.FreshRefsAreSmallest | androidctld/src/androidctld/refs/service.py:154-168 | Unmatched candidates get, in candidate order, the smallest positive numbers that no reused ref holds |
| RefStability.ReusedRefsStayPut | androidctld/src/androidctld/refs/service.py:135-152 | While every old node is still on the screen, however shuffled and whatever else appears, a reused ref stays on the very node it named |
| RefStability.NumberedFromScratch | androidctld/src/androidctld/refs/service.py:154-168 | A registry built with no predecessor numbers its nodes n1, n2, ... in candidate order |
| RefStability.UnchangedScreenKeepsRefs | androidctld/src/androidctld/refs/service.py:123-169 | However often an unchanged screen is refreshed, each time against the registry built before, every node keeps exactly the ref of the first registry |
| RefStability.CandidateNodesDistinct | androidctld/src/androidctld/semantics/compiler.py:148-172 | The candidates of a screen meet what the stability results ask: no two are the same node |
| RefReuse.PickedIff | androidctld/src/androidctld/refs/service.py:224-305 | A ref goes to a node if and only if the node leads: it is like the one the ref was made for, by label and resource id, by one of them and a signal or class and parent, or by class, parent and two signals; and it leads every other such node by two points, or three without label and resource id |
| RefReuse.ConfidenceTells | androidctld/src/androidctld/refs/service.py:245-398 | High confidence, score and gap of a match, in the normalised texts and the bounds of the two nodes |
| RefReuse.RefFollowsItsNode | androidctld/src/androidctld/refs/service.py:123-169 | From one screen to the next the leading node for an earlier node has its ref, if no other earlier node is like it |
| RefReuse.RefNamesAlike | androidctld/src/androidctld/refs/service.py:123-169 | A node that reuses a ref is like the node that had it, whatever else is on either screen |
| Kernel.BeginConnect | androidctld/src/androidctld/runtime/kernel.py:197-211 | A current lease clears the runtime, closing its transport, and starts bootstrapping; a stale one changes nothing; the state file follows unless persisting fails |
| Kernel.ActivateConnect | androidctld/src/androidctld/runtime/kernel.py:213-235 | A stale lease closes the offered connection and changes nothing else |
| Kernel.CommitTransportRebootstrap | androidctld/src/androidctld/runtime/kernel.py:266-289 | A rebuilt transport is installed only under a current lease with no live transport, and closed otherwise; the state file follows an installed one unless persisting fails, and is left alone otherwise |
| Kernel.BreakRuntime | androidctld/src/androidctld/runtime/kernel.py:304-315 | Invalidating credentials clears the runtime and marks it broken, if the lease admits it |
| Kernel.FailConnect | androidctld/src/androidctld/runtime/kernel.py:291-302 | A failed connect clears the runtime and marks it broken, under a current lease only |
| Kernel.DropCurrentScreenAuthority | androidctld/src/androidctld/runtime/kernel.py:317-332 | The whole new runtime and state file after dropping the screen, with or without its transport |
| Kernel.NormalizeStaleReadyRuntime | androidctld/src/androidctld/runtime/kernel.py:442-471 | A READY runtime without a live public screen loses its screen and becomes CONNECTED or BROKEN; any other is left alone |
| Kernel.CloseRuntime | androidctld/src/androidctld/runtime/kernel.py:373-378 | Closing clears everything, closes the transport and advances the revision |
| Kernel.InvalidateRuntime | androidctld/src/androidctld/runtime/kernel.py:380-390 | Invalidating does so without a change of status, if the lease admits it |
| Kernel.AttachScreenshotArtifact | androidctld/src/androidctld/runtime/kernel.py:155-184 | Only the screenshot path of the artifacts changes, under a current lease |
| KernelRuns.AuthorityIsCoherent | androidctld/src/androidctld/runtime/kernel.py:418-513 | In every reachable state a basis exists exactly when the status is READY and a screen id is set, and every handle of the registry carries the latest snapshot's id |
| KernelRuns.BasisIsLastRefresh | androidctld/src/androidctld/runtime/screen_state.py:32-87 | A basis always shows, as a whole, what the last refresh that was not rolled back installed |
| RuntimePhases.RefreshIsAuthoritative | androidctld/src/androidctld/runtime/kernel.py:418-439 | A consistent refresh with a screen id is authoritative at once, with all its parts, whatever the runtime was before |
| RuntimePhases.BasisIff | androidctld/src/androidctld/runtime/screen_state.py:32-87 | Over every run there is an authoritative screen exactly as long as the last refresh stands: until an operation that takes the screen away |
| RuntimePhases.BasisIsOnePiece | androidctld/src/androidctld/runtime/screen_state.py:32-87 | There is a basis if and only if a READY runtime's parts fit together: one screen id, sequence, snapshot, time, package and activity |
| RuntimePhases.StatusIsDecided | androidctld/src/androidctld/runtime/kernel.py:197-471 | After every run the status is that of the last operation that decided on one |
| RuntimePhases.ReloadedIsNeverReady | androidctld/src/androidctld/runtime/state_repo.py:20-70 | A runtime that is persisted and loaded keeps its status and sequence and nothing else, READY becoming BROKEN |
| RuntimePhases.ClearedIsLikeNew | androidctld/src/androidctld/runtime/kernel.py:504-513 | A cleared runtime is like a new one but for status, sequence, revision, closed handles and the transport of the connect that has begun |
| RuntimePhases.DroppedKeepsTheConnection | androidctld/src/androidctld/runtime/kernel.py:474-501 | Dropping the screen keeps the connection that is there, with its transport unless that is discarded, and nothing of the screen |
| RuntimePhases.SessionIsLive | androidctld/src/androidctld/runtime/kernel.py:197-235 | A connect, its activation and a refresh make a live READY screen on the connection offered |
| RuntimePhases.PlansIff | androidctld/src/androidctld/runtime/kernel.py:237-257 | A rebootstrap is planned exactly for a current lease and a connection with a token but without a transport |
| RuntimePhases.RebootstrapRestores | androidctld/src/androidctld/runtime/kernel.py:266-289 | A rebuilt transport brings the connection back under the token that was there and changes nothing else |
| RuntimePhases.NormalizedKeepsTheConnection | androidctld/src/androidctld/runtime/kernel.py:442-471 | Which runtimes normalising changes, and that it keeps a live connection whole or drops all of it |
| RuntimePhases.AttachedShows | androidctld/src/androidctld/runtime/kernel.py:155-184 | A screenshot attached under a current lease shows in the basis, next to the artifacts that were there |
| KernelRuns.RevisionStep | androidctld/src/androidctld/runtime/kernel.py:373-390 | The revision grows by one in close and in an admitted invalidation, and in nothing else; closed handles stay closed |
| KernelRuns.StaleLeaseIsInertForever | androidctld/src/androidctld/runtime/kernel.py:197-390 | After any further run, an operation with an older lease leaves the runtime unchanged, and closes what it offers |
| KernelRuns.RebootstrapIsSafe | androidctld/src/androidctld/runtime/kernel.py:237-289 | Between planning and committing anything may happen: a rebootstrap never replaces a live transport and never revives an invalidated runtime |
| KernelRuns.LeaksExactlyOnMisfit | androidctld/src/androidctld/runtime/kernel.py:213-235 | A step loses a connector handle if and only if it activates over another live one |
| KernelRuns.ProtocolFits | androidctld/src/androidctld/runtime/kernel.py:197-235 | Whatever happens between a connect and its activation, except another handle being taken over, the activation overwrites nothing that is live but its own handle |
| KernelRuns.HandlesNeverLeak | androidctld/src/androidctld/runtime/kernel.py:197-289 | Over any run in which each activation ends a connect of the same lease and handle, with no other handle taken over between the two and anything else anywhere, every handle taken over is live or closed |
| KernelRuns.CloseReleasesEverything | androidctld/src/androidctld/runtime/kernel.py:373-378 | After such a run and a close, every handle ever taken over is closed |
| KernelRuns.ActivationCanLeak | androidctld/src/androidctld/runtime/kernel.py:213-235 | From any loaded runtime, a run whose activation brings another handle than its connect loses one |
| KernelRuns.RebootstrapInBetweenLeaks | androidctld/src/androidctld/runtime/kernel.py:213-289 | Credentials invalidated behind a connect leave room for a rebootstrap, whose handle the connect's own activation then loses |
| StagedArtifacts.StagedFileUpdate.Commit | androidctld/src/androidctld/artifacts/writer.py:48-64 | The update is in place with its original aside, or, on any fault, the files are as they were |
| StagedArtifacts.StagedFileUpdate.Rollback | androidctld/src/androidctld/artifacts/writer.py:66-78 | The original is back if it was kept aside, and the final file is gone otherwise |
| StagedArtifacts.StagedArtifactWrite.Commit | androidctld/src/androidctld/artifacts/writer.py:27-29 | The set goes through exactly when no update's commit fails; otherwise a part of it is in place and each of the others is untouched |
| StagedArtifacts.CommitsIff | androidctld/src/androidctld/artifacts/writer.py:27-64 | The set goes through if and only if every staged file is there and no fault stops it; put in place are the updates before the first that cannot be |
| StagedArtifacts.StagedArtifactWrite.Rollback | androidctld/src/androidctld/artifacts/writer.py:35-37 | Exactly the updates in place are taken back |
| StagedArtifacts.StagedArtifactWrite.Discard | androidctld/src/androidctld/artifacts/writer.py:31-33 | Every update's staged and backup files are gone |
| StagedArtifacts.Remark | androidctld/src/androidctld/artifacts/writer.py:27-37 | Work on one update of a well planned set leaves every other update's files as they are |
| StagedArtifacts.PublishedMeaning | androidctld/src/androidctld/artifacts/writer.py:27-33 | Committed and discarded, all final files are the staged ones, no temporary survives and nothing else has changed |
| StagedArtifacts.RestoredExactlyWhenRecoverable | androidctld/src/androidctld/artifacts/writer.py:31-37 | Rolled back and discarded, the files are the original ones if and only if every update that was put in place and taken back had a backup path or no original |
| StagedArtifacts.RollbackCanLoseTheOriginal | androidctld/src/androidctld/artifacts/writer.py:48-78 | An update without a backup path that replaces an existing file, taken back and discarded, leaves that file destroyed |
| ScreenRefresh.CommitScreenRefresh | androidctld/src/androidctld/runtime/kernel.py:112-153 | Under any single fault the runtime's seven fields and the state file are the new ones, or all are the old ones; with the new ones the screen is authoritative, if the update is consistent, and all artifact files are the staged ones, and with the old ones they are the original ones if and only if no update put in place lacked a backup path for an original, and whenever they are the staged or the original ones no staged or backup file is left |
| StagedArtifacts.WriterPlansWell | androidctld/src/androidctld/artifacts/writer.py:93-178 | The two files that the writer stages for a screen share no path with each other or their temporaries, and can be brought back, given unused backup names |
| ScreenRefresh.WriterLosesNothing | androidctld/src/androidctld/artifacts/writer.py:93-178 | Whatever fault a refresh of such files meets, no original is lost |
| ScreenRefresh.ReconciledRegistryIsBound | androidctld/src/androidctld/refs/service.py:123-169 | A registry reconciled for a snapshot is bound to that snapshot, as coherent authority asks of every refresh |
| PublicScreen.SerializeModel | contracts/src/androidctl_contracts/public_screen.py:296-342 | Filling the payload field by field, at any depth, gives the dump |
| WireRoundTrip.DumpValidates | contracts/src/androidctl_contracts/public_screen.py:252-339 | Dumping any valid node gives a payload that validates, to the node's canonical form |
| WireRoundTrip.CanonicalDumpsAlike | contracts/src/androidctl_contracts/public_screen.py:252-339 | The canonical form is valid and dumps to the same payload: dump, validate, dump is dump |
| WireRoundTrip.WireForgetsOnlyTheNonCanonical | contracts/src/androidctl_contracts/public_screen.py:294-342 | Two valid nodes look alike on the wire if and only if they have the same canonical form |
| WireRoundTrip.ValidatedIsValid | contracts/src/androidctl_contracts/public_screen.py:252-292 | Whatever the normaliser and the validators let through, at any depth, is a valid node |
| WireRoundTrip.ValidatedRoundTrip | contracts/src/androidctl_contracts/public_screen.py:252-342 | For every payload that validates, the dump of what it stands for validates again and dumps to itself |
| WireRules.DumpIs | contracts/src/androidctl_contracts/public_screen.py:295-339 | What a node's payload holds under every name, and that it holds nothing else |
| WireRules.AcceptedIff | contracts/src/androidctl_contracts/public_screen.py:153-293 | A payload is let through if and only if its fields are known and well typed, its children are let through, and its shape is that of a text, a node or a container |
| WireRules.ReadIs | contracts/src/androidctl_contracts/public_screen.py:153-268 | What validation reads is what is written under each name; meta counts only beside a ref, and a missing kind is told by the children |
| WireScreens.InOrderIff | contracts/src/androidctl_contracts/public_screen.py:465-486 | The expected order has every group once, the blocking one first and all others in their places |
| WireScreens.EntriesAreValidIff | contracts/src/androidctl_contracts/public_screen.py:393-434 | Which entries, windows, transients and match types a valid screen may have |
| WireScreens.GroupsAreValidIff | contracts/src/androidctl_contracts/public_screen.py:465-486 | A screen's groups are valid if and only if they stand in the expected order and every node in them is valid |
| WireScreens.ScreenIsWritten | contracts/src/androidctl_contracts/public_screen.py:345-434 | What a screen's payload holds under every name, lists in their order |
| ScreenXml.AppendGroupItem | androidctld/src/androidctld/rendering/screen_xml.py:102-111 | The element grown for a node, with all below it, spells the node's tree and touches nothing but the parent's children; it fails exactly when a role somewhere in it has no tag |
| ScreenXml.AppendEachGroup | androidctld/src/androidctld/rendering/screen_xml.py:85-99 | The groups appear in their order, the last group of a name counting; it fails exactly when some entry's role has no tag |
| ScreenXml.RenderScreen | androidctld/src/androidctld/rendering/screen_xml.py:42-52 | The element tree grown in place spells the tree of the screen, and rendering fails exactly when some role has no tag |
| ScreenXml.ValidScreenRenders | androidctld/src/androidctld/rendering/screen_xml.py:253-256 | A valid screen always renders |
| ScreenReading.ScreenIsRead | androidctld/src/androidctld/rendering/screen_xml.py:42-250 | A reader of a valid screen's tree reads the screen: flags, groups in their order, items at any depth with their lists in order, counts, windows and transients, in the very texts of the tree |
| ScreenReading.ItemIsRead | androidctld/src/androidctld/rendering/screen_xml.py:102-246 | The element of a valid node is read as what the node has to show, lists as the words that were joined |
| ScreenReading.ScreenRendersIff | androidctld/src/androidctld/rendering/screen_xml.py:253-256 | A screen can be rendered if and only if every node at any depth of its groups is a text or has one of the thirteen roles |
| XmlProjection.ProjectAttrs | androidctl/src/androidctl/renderers/xml_projection.py:514-525 | The attributes that a rule makes of the named fields |
| XmlProjection.ProjectGroupList | androidctl/src/androidctl/renderers/xml_projection.py:282-310 | The in-place removal and insertion put the blocking group first; each group has the items of its last entry |
| ProjectionRules.NodeIsShownIff | androidctl/src/androidctl/renderers/xml_projection.py:313-354 | A node of any payload is shown if and only if its role is one of the thirteen and there is something to show of it |
| ProjectionRules.TextIsShownIff | androidctl/src/androidctl/renderers/xml_projection.py:329-338 | A text item is shown as a literal if and only if it has a text |
| ProjectionRules.WindowIsShownIff | androidctl/src/androidctl/renderers/xml_projection.py:357-368 | A window is shown if and only if one of its four attributes has a text |
| ProjectionRules.OmittedIsShownIff | androidctl/src/androidctl/renderers/xml_projection.py:383-398 | An omitted entry is shown if and only if its group and its reason are known; its count if it is not negative |
| ProjectionRules.TransientIsShownIff | androidctl/src/androidctl/renderers/xml_projection.py:415-427 | A transient is shown if and only if it has a text; its kind if that is known |
| RendererAgreement.ItemsAgree | androidctl/src/androidctl/renderers/xml_projection.py:313-354 | A valid node projects, from its dump, to the element the daemon makes of it, at any depth |
| RendererAgreement.RenderersAgree | androidctld/src/androidctld/rendering/screen_xml.py:42-192 | For every valid screen the daemon's tree equals the client's projection of the dump, if and only if no omitted count is negative |
| RendererAgreement.ClientTreeIsRead | androidctl/src/androidctl/renderers/xml_projection.py:253-354 | So the client's tree of a valid screen without negative counts is read as the screen, too |
| RendererAgreement.NegativeCountDiffers | androidctl/src/androidctl/renderers/xml_projection.py:664-672 | A valid screen with a negative count, for which they differ |
| KotlinComments.TakeTurn | tools/release/version_lockstep.py:1720-1796 | One turn of the loop, branch by branch, is the turn of the state machine |
| KotlinComments.StripKotlinComments | tools/release/version_lockstep.py:1714-1797 | The loop drops nested and line comments but for their newlines, and keeps code and literals verbatim, as said token by token |
| KotlinComments.ScanIsStrip | tools/release/version_lockstep.py:1714-1797 | The five-state machine with its depth computes what the token specification says |
| KotlinComments.StripSkipsOnlyComments | tools/release/version_lockstep.py:1714-1797 | The output is a subsequence of the input and has exactly its newlines |
| KotlinIdempotence.StripKeepsTokensIff | tools/release/version_lockstep.py:1714-1797 | The output has exactly the tokens that are no comments if and only if no empty string is glued to a quote behind newline-free comments |
| KotlinIdempotence.StripIsIdempotent | tools/release/version_lockstep.py:1714-1797 | Stripping is idempotent on every source without such glue |
| KotlinIdempotence.StripFixesIff | tools/release/version_lockstep.py:1714-1797 | A pass changes nothing if and only if the text has no comment token |
| KotlinIdempotence.StrippingTwiceCanStripMore | tools/release/version_lockstep.py:1771-1779 | A source that a second pass strips further |
| KotlinLaws.LineCommentGoes | tools/release/version_lockstep.py:1714-1797 | A line comment goes and its newline stays |
| KotlinLaws.NestedCommentGoes | tools/release/version_lockstep.py:1714-1797 | A block comment goes with the one within it |
| KotlinLaws.BlockCommentGoes | tools/release/version_lockstep.py:1714-1797 | Of a block comment the newlines stay, as many as there are |
| KotlinLaws.EscapedQuoteStays | tools/release/version_lockstep.py:1751-1760 | A string stays whole, with comment signs and escaped quotes in it |
| KotlinLaws.CharStays | tools/release/version_lockstep.py:1761-1794 | A character literal stays, whatever comment signs or double quotes stand in it |
| KotlinLaws.TripleStays | tools/release/version_lockstep.py:1742-1750 | A triple-quoted literal stays whole; a backslash hides nothing in it |
| KotlinLaws.CodeStays | tools/release/version_lockstep.py:1771-1796 | Every character that opens neither a literal nor a comment stays |
| KotlinDelimiters.TakeTurn | tools/release/version_lockstep.py:1863-1905 | One turn of the loop moves mode, index and depth as the machine does, and hits exactly at depth zero |
| KotlinDelimiters.FindMatchingDelimiter | tools/release/version_lockstep.py:1856-1906 | The index found is the least at which, literals left aside, closers outnumber openers; None exactly when there is none |
| KotlinDelimiters.ClosesIffBalanced | tools/release/version_lockstep.py:1856-1906 | A place is found if and only if a closing delimiter stands there behind a balanced text that, rescanned from the normal state, ends in the normal state |
| KotlinDelimiters.CutBeforeDelimiter | tools/release/version_lockstep.py:1856-1906 | Cut in front of a delimiter that counts, a text keeps its weights and leaves no literal open |
| KotlinDelimiters.ExtractKotlin | tools/release/version_lockstep.py:1800-1823 | The block extracted is balanced and closed by the delimiter; nothing is extracted exactly when there is no such block |
| KotlinDelimiters.BlockIsUnique | tools/release/version_lockstep.py:1800-1823 | There is at most one block behind an opening delimiter |
| KotlinLaws.StringWeighsNothing | tools/release/version_lockstep.py:1856-1906 | No character of a string counts for the search of a delimiter |
| KotlinLaws.CodeWeighs | tools/release/version_lockstep.py:1856-1906 | Outside of literals an opener counts up, a closer down, and nothing else counts |
| VersionCode.ParsesIff | tools/release/version_lockstep.py:71-84 | A text is accepted if and only if it is a version with at most one line ending of either style |
| VersionCode.IsVersionIff | tools/release/version_lockstep.py:71-95 | A version is three numbers with a dot between each two and nothing else, and they are its components |
| VersionCode.CodeTellsVersion | tools/release/version_lockstep.py:87-110 | A code lies in 1..2,100,000,000 and gives its version back by division and remainder |
| VersionCode.CodesEmbedTheOrder | tools/release/version_lockstep.py:87-110 | Versions compare lexicographically exactly as their codes compare, equality included |
| VersionCode.EveryCodeIsDerived | tools/release/version_lockstep.py:87-110 | Every code in range is the code of the version that division and remainder make of it |
| VersionCode.AcceptedIff | tools/release/version_lockstep.py:87-110 | The exact bounds within which a version has a code |
| VersionCode.CodesDoNotTellTexts | tools/release/version_lockstep.py:87-110 | Leading zeros parse, so different texts share a code |
| ScreenLookup.NameRoundTrip | androidctld/src/androidctld/artifacts/screen_lookup.py:230-237 | The name written for a sequence is read back, exactly when the sequence is not negative |
| ScreenLookup.ScreenArtifactCandidates | androidctld/src/androidctld/artifacts/screen_lookup.py:151-174 | The current artifact, if named like one, and then the listed files in order, as the specification says |
| ScreenLookup.CandidatesCoverOnce | androidctld/src/androidctld/artifacts/screen_lookup.py:151-174 | Every listed file is scanned, no place twice, the current one first |
| LookupStability.CandidatesAreWellScanned | androidctld/src/androidctld/artifacts/screen_lookup.py:151-201 | What the scanner yields for the candidates of any files is what the stability results rest on: one scan a place, each valid one with its screen, sequence and payload |
| ScreenLookup.LookupSourceScreenArtifact | androidctld/src/androidctld/artifacts/screen_lookup.py:49-148 | Scanning, sorting and the checks come to the specified result, and a valid artifact without payload never occurs |
| ScreenLookup.HeadIsBest | androidctld/src/androidctld/artifacts/screen_lookup.py:96-115 | The head of the sorted list outranks every other entry, ties going to the one scanned first |
| ScreenLookup.FoundIff | androidctld/src/androidctld/artifacts/screen_lookup.py:49-148 | An artifact is found if and only if it is the greatest match, valid, and every artifact of unknown screen has a known, strictly smaller sequence |
| LookupOutcomes.FoundExactly | androidctld/src/androidctld/artifacts/screen_lookup.py:49-148 | Found is the payload of the first of the most preferred files that name the screen, if and only if that file is valid and every file that may have named it is known to be older |
| LookupOutcomes.NotFoundIff | androidctld/src/androidctld/artifacts/screen_lookup.py:77-82 | Nothing is found if and only if no file names the screen |
| LookupOutcomes.InvalidNames | androidctld/src/androidctld/artifacts/screen_lookup.py:84-137 | In every other case the artifact is invalid, and which file is named for it |
| LookupOutcomes.NewerIff | androidctld/src/androidctld/artifacts/screen_lookup.py:102-108 | Files are preferred by sequence, none counting as -1, and then by name |
| LookupOutcomes.SequenceFromNameIff | androidctld/src/androidctld/artifacts/screen_lookup.py:230-241 | A name has a sequence if and only if it is the prefix, digits and the suffix |
| LookupOutcomes.ScanTells | androidctld/src/androidctld/artifacts/screen_lookup.py:177-227 | Status, screen, sequence and payload of a scan, for every content of a file |
| LookupOutcomes.CurrentComesFirst | androidctld/src/androidctld/artifacts/screen_lookup.py:151-174 | A current artifact that is named like one comes before every listed file, and no other path is added |
| LookupStability.DamagedFilesScanAsDamaged | androidctld/src/androidctld/artifacts/screen_lookup.py:177-201 | Files that can no longer be read as an object scan as of unknown screen, with the sequence of their names |
| LookupStability.NeverRedirectsIff | androidctld/src/androidctld/artifacts/screen_lookup.py:49-148 | Losing the contents of any files never makes a lookup turn to another payload than the intact files give, if and only if every artifact passed over has a shield in the file names and scans |
| LookupStability.NamedNeverRedirects | androidctld/src/androidctld/artifacts/screen_lookup.py:49-148 | With each file name's sequence equal to its content's, no loss of files ever redirects a lookup |
| LookupStability.WrittenFilesNeverRedirect | androidctld/src/androidctld/artifacts/writer.py:138-158 | Among files that hold no object or are named by the writer for their own sequence, no loss of files ever redirects a lookup |
| LookupStability.BeliedNameRedirects | androidctld/src/androidctld/artifacts/screen_lookup.py:177-192 | Without that, it can: two files of a screen, the newer under the smaller number, whose loss brings back the older payload |
| Observation.ObservationLoop.NoPollIff | androidctld/src/androidctld/observation.py:49-53 | There is no poll exactly in the last millisecond, and a poll never waits past the deadline |
| Observation.ObservationLoop.ApplyPollResult | androidctld/src/androidctld/observation.py:58-72 | A resync resets cursor, refresh and stability; any other result moves the cursor only |
| Observation.ObservationLoop.ObserveStability | androidctld/src/androidctld/observation.py:90-98 | A change resets the stable time; otherwise it is kept or set, and stability needs grace and a whole window |
| Settle.Settle | androidctld/src/androidctld/actions/settle.py:58-146 | With a clock that advances from turn to turn the loop ends, in the turn and with the outcome of the specification |
| Settle.SettlesIff | androidctld/src/androidctld/actions/settle.py:77-146 | A turn ends the call as not timed out if and only if it refreshes, grace is over, and for at least one stable window no refresh showed a change and nothing was resynced |
| SettleTiming.RefreshesIff | androidctld/src/androidctld/observation.py:74-85 | A turn refreshes if and only if it sees events or a resync or the last refresh, if nothing was resynced since, is at least the snapshot interval ago |
| SettleTiming.StillScreenSettles | androidctld/src/androidctld/actions/settle.py:77-146 | On a screen that stands still every call settles and does not time out, as long as its turns are short enough for its deadline |
| SettleTiming.TurnEnds | androidctld/src/androidctld/actions/settle.py:103-146 | Which turn ends the call, and with what outcome, at the very microsecond |
| SettleTiming.ComparedWithTheLast | androidctld/src/androidctld/actions/settle.py:122-136 | A refresh is compared with the last one, and the first with the baseline |
| Settle.StableSinceIsQuietSince | androidctld/src/androidctld/observation.py:90-98 | The time that the loop keeps is the time of a refresh since when all has been quiet |
| Settle.QuietMeansSame | androidctld/src/androidctld/actions/settle.py:130-136 | While all is quiet every refresh shows the signature of the screen that is returned |
| Settle.SnapshotWhenNoRefresh | androidctld/src/androidctld/actions/settle.py:103-113 | The branch without a refresh always has a snapshot to return |
| Settle.EveryCallEnds | androidctld/src/androidctld/actions/settle.py:79-146 | Every call ends, within one turn for each microsecond that was left |
| Settle.LateTurnEnds | androidctld/src/androidctld/actions/settle.py:103-146 | A turn that starts at the deadline or later is the last |
| Settle.TimedOutIsLate | androidctld/src/androidctld/actions/settle.py:108-146 | A call that times out has read a time past its deadline and returns the newest snapshot |
| ActionExecutor.Execute | androidctld/src/androidctld/actions/executor.py:209-513 | The run is the one of the world: every event is the world's answer to all that happened before, every act is the next one of the course, and the outcome is that of the run's end; nothing is called exactly when the command is refused or a focused no-op, with the outcome of each. The laws hold of it: a second dispatch only after a stale-target reply to an unrepaired ref-bound command, with exactly one repair between and, for submit, on the same route; no dispatch but one whose request was just built and checked; success or a failure after dispatch if and only if a dispatch has returned and what was called last raised nothing past the handler; such a failure carries the confirmation's error and its cleanup; whatever else is raised is pinned to the call or dispatch that raised it; and a success leaves exactly the prescribed log |
| ActionRuns.RunIsDetermined | androidctld/src/androidctld/actions/executor.py:209-513 | World and course leave one run only: two logs that follow them to the end are equal, and so are their outcomes |
| ActionRuns.CalmWorldSucceeds | androidctld/src/androidctld/actions/executor.py:209-513 | In a world that raises nothing and confirms, every command that is attempted succeeds with the log of a single dispatch, repaired exactly if its target is on a screen that is no longer the current one |
| ActionRuns.RepairsFirstIff | androidctld/src/androidctld/actions/executor.py:526-573 | Before the first dispatch a run repairs its target if and only if the command names one on a screen that is no longer the current one |
| ActionCases.CalmRunInOrder | androidctld/src/androidctld/actions/executor.py:209-513 | Such a run asks, sends and tells in one order, spelled out for every command |
| ActionCases.AfterDispatch | androidctld/src/androidctld/actions/executor.py:302-365 | What follows a dispatch: confirmation, behind the drop of the screen for a global action; the one repair of a stale target; or the mapped error |
| ActionCases.AfterRoute | androidctld/src/androidctld/actions/executor.py:515-582 | A submit is given up exactly if the route resolved for its retry is not that of the first dispatch |
| ActionCases.AfterConfirming | androidctld/src/androidctld/actions/executor.py:428-454 | And exactly if it went out directly and its effect cannot be confirmed |
| ActionCases.RouteSent | androidctld/src/androidctld/actions/executor.py:515-582 | A submit is sent by the route that was resolved for that very dispatch |
| ActionCases.AfterError | androidctld/src/androidctld/actions/executor.py:469-500 | What follows a question that fails, in every run: the cleanup and the outcome |
| ActionCases.GivenUpAfter | androidctld/src/androidctld/actions/executor.py:469-492 | For every error code what the runtime gives up and whether its truth is lost |
| ActionCases.MappedIs | androidctld/src/androidctld/actions/executor.py:599-630 | Which errors of the device are told as errors of the action |
| ActionCases.RefusedIff | androidctld/src/androidctld/actions/executor.py:216-240 | The three early exits, their order and their outcomes |
| ActionRuns.AtMostTwoDispatches | androidctld/src/androidctld/actions/executor.py:302-358 | A log that obeys the law of repairs has at most two dispatches |
| ActionExecutor.BuildDispatchRequest | androidctld/src/androidctld/actions/executor.py:515-582 | Asks the world what the course prescribes and logs its answers; a repair happens exactly when the target is stale or was repaired for; a submit gets the route that the world resolves, which is the required one if one is required; and it fails only with the error of the last call, or when the world's route differs from the required one |
| ActionExecutor.PrepareDispatch | androidctld/src/androidctld/actions/executor.py:271-299 | Likewise with the checks: the log is continued by the world's answers along the course, up to where the dispatch of that route is due, or to the call that fails |
| ActionExecutor.FailAfterDispatch | androidctld/src/androidctld/actions/executor.py:469-500 | The error is mapped; lost credentials are invalidated, lost availability drops the screen, with its transport if it is gone, and nothing else is done; the kernel answers as the world has it, and if it raises, its error hides the original one |
| ActionExecutor.Conclude | androidctld/src/androidctld/actions/executor.py:361-513 | Behind a returned dispatch the log is continued by the world's answers along the course; the call raises exactly what gets past the handler: a failing drop of a global action's screen, a failing cleanup, or an exception that is no daemon error; else it succeeds or fails as an execution failure |
| SerialGate.MutualExclusion | androidctld/src/androidctld/runtime/store.py:63-76 | Under every interleaving at most one thread is inside a serial command, and the marker is None exactly when nobody is |
| SerialGate.RefusedOnlyWhenBusy | androidctld/src/androidctld/runtime/store.py:65-69 | A thread is refused if and only if another one is inside |
| SerialGate.LeavingClears | androidctld/src/androidctld/runtime/store.py:73-76 | The thread that leaves always finds its own marker |
| SerialGate.FreeGateAdmits | androidctld/src/androidctld/runtime/store.py:63-70 | At a free gate a thread gets inside, leaves its marker and gives the lock back |
| SerialGate.BusyGateRefuses | androidctld/src/androidctld/runtime/store.py:65-69 | At an occupied gate it is sent away, gives the lock back and leaves the marker alone |
| SerialGate.DoneLeavesTheGate | androidctld/src/androidctld/runtime/store.py:73-76 | A thread that is done leaves the gate free |
| SerialGate.OwnerGuardsMarker | androidctld/src/androidctld/runtime/store.py:65-70 | While a thread holds the lock, no steps of others move the marker or that thread |
| SerialGate.CommandGate.BeginSerialCommand | androidctld/src/androidctld/runtime/store.py:65-70 | The entry section admits exactly when the marker is None, and sets it |
| SerialGate.CommandGate.EndSerialCommand | androidctld/src/androidctld/runtime/store.py:73-76 | The exit section clears the marker if it is the thread's own |
| SerialGate.SectionsAreTheMethods | androidctld/src/androidctld/runtime/store.py:63-76 | The steps of a thread within a section do to the marker what the section's method does |
| ProgressLane.OccupantImpliesLocked | androidctld/src/androidctld/runtime/kernel.py:334-371 | Under every interleaving the lane has at most one holder, and an occupant only while the progress lock is held, by that very thread |
| ProgressLane.LockedWithoutOccupantIff | androidctld/src/androidctld/runtime/kernel.py:368-371 | The lane is locked without an occupant exactly while its holder is between the two |
| ProgressLane.LockedWithoutOccupantHappens | androidctld/src/androidctld/runtime/kernel.py:368-371 | A schedule after which it is, with the runtime's lock free for the next thread |
| ProgressLane.FreeLaneIsTaken | androidctld/src/androidctld/runtime/kernel.py:334-366 | A free lane is taken under the name of what takes it |
| ProgressLane.BusyLaneIsLeft | androidctld/src/androidctld/runtime/kernel.py:334-366 | A lane that is not free is left as it is, with its occupant |
| ProgressLane.HeldLaneIsGivenBack | androidctld/src/androidctld/runtime/kernel.py:368-371 | What was taken is given back |
| ProgressLane.AcquireQueryLane | androidctld/src/androidctld/runtime/kernel.py:352-366 | When sleeping advances the clock the wait ends, acquired exactly when the last attempt found the lane free, refused only past the deadline |
| ProgressLane.AtMostElevenAttempts | androidctld/src/androidctld/runtime_policy.py:85-86 | With sleeps as long as the policy says there are at most eleven attempts |
| Base64.DecodeOfEncode | androidctl/src/androidctl/setup/pairing.py:59-70 | Decoding undoes encoding |
| Base64.EncodeIsCanonical | androidctl/src/androidctl/setup/pairing.py:69-70 | What is encoded has zero spare bits |
| Base64.EncodeOfDecode | androidctl/src/androidctl/setup/pairing.py:50-56 | Encoding what was decoded gives the values back if and only if the spare bits are zero |
| Base64.GroupIsNumber | androidctl/src/androidctl/setup/pairing.py:69-70 | A group is the number that its bytes make, in digits of sixty-four |
| Base64.TailIsNumber | androidctl/src/androidctl/setup/pairing.py:69-70 | So is a tail, with zero bits behind its last byte up to a whole digit |
| HostToken.AcceptedIff | androidctl/src/androidctl/setup/pairing.py:36-56 | A token is accepted if and only if it is the unpadded encoding of 32 bytes; the checks on the decoded bytes' existence and number never fail |
| HostToken.TokenDeterminesBytes | androidctl/src/androidctl/setup/pairing.py:36-70 | Those bytes are unique |
| HostToken.GeneratedIsAccepted | androidctl/src/androidctl/setup/pairing.py:23-33 | A generated token passes validation and decodes to the random bytes; a generator of the wrong length is an error |
| ScreenshotBody.EstimateBounds | androidctld/src/androidctld/device/parsing.py:313-319 | The estimate is never below the decoded length, whatever the padding, and exact for well padded input |
| ScreenshotBody.EstimateIs | androidctld/src/androidctld/device/parsing.py:313-319 | The estimate for every length and every number of padding characters |
| ScreenshotBody.ErrorIs | androidctld/src/androidctld/device/parsing.py:93-140 | Which error a body is turned down with |
| ScreenshotBody.DecodedIsNeverTooLarge | androidctld/src/androidctld/device/parsing.py:117-140 | The size check behind decoding never fires |
| ScreenshotBody.AcceptedIff | androidctld/src/androidctld/device/parsing.py:93-140 | A body is accepted if and only if it is well padded base64 of at most 32 MiB |
| ScreenshotBody.BodyArrivesIff | androidctld/src/androidctld/device/parsing.py:93-140 | An encoded body arrives unchanged if and only if it keeps within the budget |

## Left out

- KotlinIdempotence.StripIsIdempotent: goes one way. Glued text may still be left alone by a second
  pass, depending on what the glue makes of all the text behind it; the exact statement is about the
  stripped text (`StripFixesIff`), and the exact statement about the source is the one on tokens
  (`StripKeepsTokensIff`).
- ScreenRefresh.CommitScreenRefresh: injects one fault, in the guard callback, in any step of any
  update's commit, or in persisting; removing and restoring files is assumed not to fail, and the
  callback not to change anything. It takes no lease, as the source takes none.
- ActionExecutor.Execute: payloads, confirmations and capability rules are answers of the world; what
  they check is not modelled, only when they are asked and what follows from the answer.
- XmlProjection.ProjectGroupList: attribute text of lists nested in lists, and of objects, is not
  modelled; no validated screen contains any.
- VersionCode.ParsesIff: digits are the ASCII ones; the source's pattern also takes other Unicode digits.
- RefCandidates.SortedBy: digits are the ASCII ones here as well.
- ScreenLookup.NameRoundTrip: digits are the ASCII ones here too; globbing and path resolution are
  parameters (`listed`, `resolve`).
- KotlinDelimiters.ExtractKotlin: the pattern search is a parameter, the index it ends on; the class body
  extraction, two such searches in a row, is not repeated.
- Settle.Settle: the retry around fetching is an answer of the device; sleeping is left to the clock.
- The cross-reference validators of a public screen (`validate_window_refs`, `validate_submit_refs`):
  neither renderer reads what they check, so agreement is proved for more screens than pass them.
- `_collect_top_level_lines`, the checks that use the scanners, and the rest of the release tool.
- The application override and the retained and list-apps projections of the client's renderer.
- XML escaping, JSON text, Unicode normalisation, regular expressions, hashing.
- HTTP, RPC, adb, Typer and pydantic machinery: their results are parameters.
- Owner locks and active slots across processes: nothing is claimed about them.
- That a CONNECTED or READY runtime has a live connection: `invalidate_runtime` clears the connection
  without changing the status, and a reloaded runtime may be CONNECTED with none.
- Aliasing of screen states between runtime and callers: the source copies them, the model holds values.
