# Verified model of basecamp's protocols, parsers and stores

This project models the parts of basecamp whose correctness spans several functions, and proves what
holds of them over all inputs and all runs.

- **Hub connections.** `HubRegistry` is the in-memory registry as a class. `HubProtocol` runs any number
  of websocket handlers over it, one event for each stretch of code between two suspensions, and proves
  takeover safety over every interleaving; `HubOutcomes` proves what a registration comes to. `HubServer` is
  the endpoint itself, each method proved to be one event on the shared registry object.
- **Local-state migration.** `FileTree` and `MigrationPlan` specify one run of the script in both modes.
  `MigrationRun`, with `MigrationDryRun` and `MigrationPrediction`, proves that a dry run predicts the
  apply run; `MigrationSafety` that nothing is lost; `MigrationRepeat` that a second run is idle;
  `MigrationDelivery` and `MigrationTrees` what a reader finds in the new places; `MigrationLayout` that the
  script's own paths meet what these theorems ask for. `MigrationScript` is the script with its shared action
  list and loops.
- **Frozen diff review.** `Text`, `Utf8` and `GitPaths` hold lines, encodings and path quoting.
  `PatchParser` is the parser with its mutable reader; `PatchPrinter` prints patches in the unified
  format ("Diff -u or -U Output Format" of the `diff` utility, POSIX.1-2017) and proves the round trip;
  `PatchSections`, `SectionFilter`, `TornReading`, `FilterExactness` and `TornHunk` cover sections and
  filtering, `SnapshotPatch`, `SnapshotOutcomes`, `PatchRelabel` and `Porcelain` assembly, relabelling and
  untracked paths. `Annotations`, `DiffValidation`, `Journal` and `AnnotationTools` cover the annotation life
  cycle, with `ValidationOutcomes` and `AnnotationOutcomes` telling the results from the printed patch, and
  `ReviewTransaction` with `ReviewOutcomes` and `ReviewCommand` the `/diff` command over a session that changes
  meanwhile.
- **Annotation sidecar and owned reviews.** `Sidecar` and `SidecarStore` are stamping, merging, removing
  and clearing. `SidecarLaws` has the ids and the algebra of superseding, `SidecarShape` what any sequence
  of calls keeps, `SidecarMerge` what a merge records, drops and forgets, `SidecarOutcomes` what a write
  leaves, and `SidecarRuns` what follows for several calls. `OwnedReview` and `DiffRunner` are the protocol that
  must not drop a live review pane before its notes are read, `OwnedOutcomes` what each command comes to by what
  it is told; `OverlappingReviews` cuts that command at its awaits and lets several overlap.
- **Repository status.** `StatusTracker` is the asynchronous pull-request cache as a state machine;
  `RepositoryStatus` the class that implements it.
- **Tasks and plans.** `TaskModel` specifies cycles and tasks; `TaskRuntime` implements them on shared
  mutable objects. `PlanDraft` and `PlanTool` carry plan approvals from one submission to the next.

Every imperative member is proved to compute a function of its inputs or of the old state, and the
theorems are about those functions.

Some modelling decisions:

- A digest stands for the text it is taken of, so equal digests mean equal texts and nothing else.
- Entry ids, nonces and pane ids are fresh when they are introduced.
- An answered probe may still time out in the same turn of the event loop, so a probe may fail at any
  time while it is open.
- The order in which a directory walk lists siblings is a parameter; any top-down order is allowed.
- Paths that are normalised by the runtime's libraries enter as already normalised, or through a function
  parameter.

The code differs from what its comments promise, or from what its input can contain, in these places;
each is stated exactly below:

- Annotation ids are said to tell different wordings apart. With line breaks they need not:
  `Annotations.IdIsUnambiguous` and `SidecarLaws.NoteIdIsUnambiguous` say exactly when an id stands for one
  content alone, and `SidecarRuns.MultilineNotesCollide` and `SidecarRuns.BrokenPathsCollide` give clashes.
  In the sidecar a clash makes an annotation disappear (`SidecarRuns.CollidingNoteIsDropped`), leaves two
  that cannot be removed (`SidecarRuns.CollidingPairIsStuck`, `SidecarRuns.CollidingPathsAreStuck`), or makes
  a batch given again record something (`SidecarRuns.ForgottenIsRecorded`). So two calls are not always
  one, nor is repetition always idle; `SidecarRuns.FreshCallsAddUp` and `SidecarRuns.RepeatRecordsNothing`
  say exactly when.
- A name with a blank is followed by a tab in git's marker lines. It is not taken off: a bare name keeps
  the tab, a quoted one its closing quote (`GitPaths.MarkerIsFaithful`).
- Unquoting handles one UTF-16 unit at a time and destroys raw characters beyond U+FFFF
  (`GitPaths.UnquoteIsFaithful`).
- Section filtering splits at a multi-line `^`, which also matches after a carriage return or a Unicode
  line separator. `TornHunk.LinesAreLost` gives a patch that loses a line that way.
  `FilterExactness.RightAtLines` says exactly when the filter is right for patches that are not torn,
  `FilterExactness.RightWhenSteady` for torn sections whose pieces go by one name, and
  `FilterExactness.RightWhenTorn` with `FilterExactness.RightForOneFile` for any last section torn in two.
- An apply run can fail where the dry run reported no problem: when a file stands where a directory
  belongs. `MigrationRun.DryRunPredictsApply` says exactly when.
- The record of the review pane is looked at before the new pane is awaited and set afterwards, so
  overlapping `/diff` commands can overwrite it: `OverlappingReviews.OverwrittenExactly`.

## Model

| member | source | states |
|---|---|---|
| HubProtocol.EveryRunKeepsInvariant | src/basecamp/hub/registry.py:41-178 | After every interleaving of handlers: each registered entry belongs to a handler that claimed it and has not let go of it, generations are issued once, open probes are those of probing handlers, uncancelled reapers are the registered ones, and no served node has a reaper |
| HubProtocol.OneOwnerPerNode | src/basecamp/hub/registry.py:54-82 | At most one handler per node holds the registered entry, the entry names its socket, and that handler is between its claim and its cleanup |
| HubProtocol.EntryReplacedOnlyByItsClaimant | src/basecamp/hub/registry.py:54-69 | If one event gives a node a different entry, that event is a claim by a handler of this node that had observed exactly the old generation; the new entry carries the next fresh number |
| HubProtocol.TakeoverNeedsFailedProbe | src/basecamp/hub/app.py:119-136 | In every run, whenever an entry gives way to another, the new owner had earlier looked up that very entry and its own probe of it, opened at that lookup, had failed in between |
| HubProtocol.ProberLookedUp | src/basecamp/hub/app.py:363-376 | A handler probing a generation looked that generation up, under the nonce it is still waiting on, at an identified earlier event |
| HubProtocol.CloserProbedAndFailed | src/basecamp/hub/app.py:125-132 | A handler closing an incumbent looked it up and saw its own probe fail, at two identified earlier events in that order |
| HubProtocol.EntryRemovedOnlyByItsOwner | src/basecamp/hub/app.py:345-347 | The only events that drop a node's entry are the guarded removals of the handler registered in it, and they leave every other node's entry alone: a stale handler never clears its successor |
| HubProtocol.FinishedHandlersAreUnregistered | src/basecamp/hub/app.py:343-358 | A handler that has finished, or has removed its entry and is recording the disconnect, is in no entry, neither by socket nor by generation |
| HubProtocol.GenerationsIncrease | src/basecamp/hub/registry.py:41-52 | A generation just issued is larger than every generation any handler already has, and those do not change |
| HubProtocol.OpenProbesAreProbers | src/basecamp/hub/registry.py:96-122 | In every reachable state the open probes are exactly the (node, nonce) pairs of the handlers still probing |
| HubProtocol.ProbeUndisturbed | src/basecamp/hub/registry.py:96-122 | While a handler is probing, no event of another handler closes its probe, and the probe turns answered exactly on a pong with its nonce on its node |
| HubProtocol.LiveVerdictNeedsOwnPong | src/basecamp/hub/app.py:241-244 | A handler can conclude that the incumbent lives only after a serving handler of the same node sent a pong with the nonce of this very probe, at an identified earlier event |
| HubProtocol.ReapersSpareServedNodes | src/basecamp/hub/app.py:179-180 | No node has two reapers that are neither cancelled nor ended, and none is armed for a node whose registered handler is past its `registered` reply |
| HubOutcomes.SilentIncumbentIsReplaced | src/basecamp/hub/app.py:119-143 | Whatever other handlers do in between: a registration whose probe of the incumbent failed closes it, and its claim then makes it the owner of the node under the next number exactly if the entry is still the one it looked up; otherwise it is refused and no entry changes |
| HubOutcomes.FreeNodeIsTaken | src/basecamp/hub/app.py:119-146 | A node without an entry is taken, under the next number, by the very stretch that looked it up |
| HubOutcomes.LiveIncumbentStays | src/basecamp/hub/app.py:125-131 | A registration whose probe was answered ends, and every entry is as it was |
| HubOutcomes.ClaimantIsServed | src/basecamp/hub/app.py:148-180 | When the store accepts the agent and the reply is sent, the claimant serves the node and no reaper is left for it |
| HubOutcomes.RefusedHandleGivesUp | src/basecamp/hub/app.py:165-172 | A duplicate handle frees the node again, unless another holds it by then, and no other node |
| HubOutcomes.LeavingCleansUp | src/basecamp/hub/app.py:343-347 | A leaving handler drops the entry that names its own socket and no other, and goes on to record the disconnect exactly if it dropped one |
| HubOutcomes.LeftNodeIsReaped | src/basecamp/hub/app.py:347-358 | After the disconnect is recorded a node that is still free has exactly one live reaper, the one armed now, and a node taken again gets none |
| HubOutcomes.EveryExitCleansUp | src/basecamp/hub/app.py:343-347 | However the body of a handler that holds a claim ends, but for a refused handle, the guarded removal comes next |
| HubRegistry.Registry.SetConnection | src/basecamp/hub/registry.py:41-52 | Installs the socket under the incremented generation, touching nothing else |
| HubRegistry.Registry.ClaimConnection | src/basecamp/hub/registry.py:54-69 | Installs the socket only if the current generation, absent included, is the one observed; otherwise changes nothing and returns none |
| HubRegistry.Registry.RemoveConnection | src/basecamp/hub/registry.py:71-82 | Drops the entry exactly when it carries the given generation and says whether it did |
| HubRegistry.Registry.OpenProbe | src/basecamp/hub/registry.py:96-108 | Opens a waiting probe under (node, nonce) beside all others |
| HubRegistry.Registry.ResolveProbe | src/basecamp/hub/registry.py:110-115 | Answers the probe with this nonce and no other; unknown and already answered nonces change nothing |
| HubRegistry.Registry.CloseProbe | src/basecamp/hub/registry.py:117-122 | Drops this probe only |
| HubRegistry.Registry.SetDisconnectReaper | src/basecamp/hub/registry.py:159-165 | Registers the reaper and cancels the one it replaces |
| HubRegistry.Registry.CancelDisconnectReaper | src/basecamp/hub/registry.py:167-172 | Cancels and forgets the registered reaper if there is one |
| HubRegistry.Registry.DiscardDisconnectReaper | src/basecamp/hub/registry.py:174-178 | Forgets the reaper only while it is still the registered one |
| HubServer.Endpoint.Begin | src/basecamp/hub/app.py:119-136 | The stretch from lookup to the first suspension is the `Register` event: probe the incumbent, or claim a free node at once |
| HubServer.Endpoint.ClaimNode | src/basecamp/hub/app.py:134-146 | The claim and the branch on its outcome, as one compare-and-set on the shared registry |
| HubServer.Endpoint.ProbeSettles | src/basecamp/hub/app.py:373-385 | Answered or failed, the probe is closed and the verdict decides between refusing the newcomer and closing the incumbent, as the `HubOutcomes` theorems say of the event |
| HubServer.Endpoint.Abandoned | src/basecamp/hub/app.py:363-385 | A handler cancelled in the probe still closes it, and one cancelled there or while closing the incumbent claims nothing |
| HubServer.Endpoint.IncumbentClosed | src/basecamp/hub/app.py:132-143 | After the incumbent is closed the claim is tried against the generation observed before the probe |
| HubServer.Endpoint.HandleTaken | src/basecamp/hub/app.py:165-172 | A duplicate agent handle removes this handler's own entry |
| HubServer.Endpoint.RegisteredSent | src/basecamp/hub/app.py:174-180 | The reply is followed by cancelling the node's reaper |
| HubServer.Endpoint.PongReceived | src/basecamp/hub/app.py:241-244 | A pong resolves by the sender's node and its nonce |
| HubServer.Endpoint.FinallyCleanUp | src/basecamp/hub/app.py:343-347 | Guarded removal of the handler's own generation; only a removal goes on to record the disconnect |
| HubServer.Endpoint.FinallyArmReaper | src/basecamp/hub/app.py:348-358 | After the suspension a reaper is armed only if the node is still unregistered |
| MigrationRun.DryRunPredictsApply | migrations/001_consolidate_basecamp_state.py:344-373 | On every tree, with any pair of independent sources and targets: the dry run leaves the tree alone; the apply run fails exactly when the dry run fails or some planned target is obstructed by a file in a directory's place; what it has recorded by then is a beginning of the dry run's action list; and when it does not fail the two lists are equal |
| MigrationRun.DryRunPredictsApplyInHome | migrations/001_consolidate_basecamp_state.py:344-373 | The same for the paths the script itself uses under any home directory |
| MigrationLayout.StandardIsWellLaidOut | migrations/001_consolidate_basecamp_state.py:344-370 | Those paths satisfy every independence condition the theorems need: sources outside targets, targets apart, parents created first, prunable directories clear of everything else |
| MigrationPrediction.MovedInStep | migrations/001_consolidate_basecamp_state.py:344-370 | Up to pruning, both modes stay in step through directories, trees, root config, aliases and runtime, and a completed apply run has mirrored every tree |
| MigrationPrediction.CopyTreeInStep | migrations/001_consolidate_basecamp_state.py:140-157 | Copying a tree keeps the modes in step for any top-down walk of it, and afterwards every source file and directory has its counterpart |
| MigrationPrediction.RootConfigInStep | migrations/001_consolidate_basecamp_state.py:207-259 | Splitting the root config keeps the modes in step although the dry run cannot see the files it would have written, and settles the config |
| MigrationPrediction.LegacyInStep | migrations/001_consolidate_basecamp_state.py:272-292 | The same for the legacy alias file, whose decision depends on whether the root config already yielded aliases |
| MigrationPrediction.SwarmInStep | migrations/001_consolidate_basecamp_state.py:295-309 | The same for the daemon's files, copied only when no runtime file is there |
| MigrationDryRun.MakeDirInStep | migrations/001_consolidate_basecamp_state.py:115-120 | A directory is found made in the action log of a dry run exactly when it is found on disk in the apply run, and both modes record it once |
| MigrationDryRun.CopyFileInStep | migrations/001_consolidate_basecamp_state.py:123-137 | Likewise for a planned file: copied once, reported as a conflict alike |
| MigrationSafety.ApplyIsNonDestructive | migrations/001_consolidate_basecamp_state.py:344-373 | After an apply run that may also have failed half way, every file that was there has its bytes and every directory is there, except prunable directories that were empty and the root config, which loses only stale keys and keys whose part now stands in its own file |
| MigrationSafety.CleanedKeepsTheRest | migrations/001_consolidate_basecamp_state.py:236-259 | Cleaning the config changes no key but the removed ones and a default `version` |
| MigrationSafety.CopiesAreFaithful | migrations/001_consolidate_basecamp_state.py:123-137 | Every copy an apply run reports has the source's bytes at the target when the run ends |
| MigrationDelivery.NoKeyIsLost | migrations/001_consolidate_basecamp_state.py:207-259 | After any apply run, finished or cut short, a reader of the config finds under every key the old value, or nothing because the key was stale or because its value is read elsewhere: the projects file has version 1 and the old value, the alias file version 1 and the old map trimmed; `version` is added only beside `install_dir` |
| MigrationDelivery.ConfigOutcome | migrations/001_consolidate_basecamp_state.py:207-259 | After a finished apply run, key by key: the projects are taken out exactly if they were an object and no projects file was there, the models exactly if they were a map of texts and no alias file was there; each is then read back from its file |
| MigrationDelivery.LegacyOutcome | migrations/001_consolidate_basecamp_state.py:262-292 | After a finished apply run an alias file is there exactly if one was there, the config yielded one, or the legacy file was usable; in the last case alone it reads as the trimmed map of the legacy file, or of its `aliases` |
| MigrationDelivery.StringFieldsIs | migrations/001_consolidate_basecamp_state.py:192-204 | A map is accepted exactly if every value is a text and no key or value is blank; each trimmed key then has the trimmed value of its last entry, and there are no other keys |
| MigrationDelivery.StripTrims | migrations/001_consolidate_basecamp_state.py:199-203 | A trimmed text has no blank at either end and is the old one without blanks around it |
| MigrationDelivery.TrimIsUnique | migrations/001_consolidate_basecamp_state.py:199-203 | There is one such text, and it is empty exactly for a blank one |
| MigrationTrees.TreeOutcome | migrations/001_consolidate_basecamp_state.py:140-157 | After a finished apply run every file below the old place of a tree is below its new place with the old content, unless something was there before, which is then untouched; for the agents while the daemon is not active |
| MigrationTrees.DatabaseOutcome | migrations/001_consolidate_basecamp_state.py:295-309 | Likewise for the daemon's database |
| MigrationTrees.StandardFilesApart | migrations/001_consolidate_basecamp_state.py:344-370 | The projects file, the alias file and the database of the script are three files |
| MigrationDelivery.ActiveDaemonStays | migrations/001_consolidate_basecamp_state.py:295-309 | A finished apply run that finds a runtime file of the daemon reports each of them and puts nothing into the new directory of the daemon |
| MigrationDelivery.ActiveDaemonStaysInHome | migrations/001_consolidate_basecamp_state.py:295-309 | The same for the paths the script itself uses |
| MigrationRepeat.FinishedRunSettles | migrations/001_consolidate_basecamp_state.py:344-373 | A completed apply run leaves a tree in which nothing is left to do |
| MigrationRepeat.SettledRunIsIdle | migrations/001_consolidate_basecamp_state.py:344-373 | On such a tree a run in either mode writes nothing and reports only skips, conflicts and the daemon |
| MigrationRepeat.SecondApplyIsIdle | migrations/001_consolidate_basecamp_state.py:344-373 | A second apply run makes no directory, copies, updates or prunes nothing and leaves every byte as it was, whatever walk orders the two runs see |
| MigrationRepeat.CleanedIsClean | migrations/001_consolidate_basecamp_state.py:236-259 | Cleaning a cleaned config finds nothing more |
| MigrationScript.Migrator.EnsureDir | migrations/001_consolidate_basecamp_state.py:115-120 | A directory that is there, or already planned, is left alone; otherwise one action is recorded and, when applying, the directory and its missing parents are made, which fails where a file obstructs it |
| MigrationScript.Migrator.HasPlannedTargetWrite | migrations/001_consolidate_basecamp_state.py:107-112 | The loop finds a planned write exactly when there is one |
| MigrationScript.Migrator.CopyRegularFile | migrations/001_consolidate_basecamp_state.py:123-137 | A missing source, a source that is no file, and a target that exists or is planned are each recorded with their reason and nothing is written; otherwise one copy is recorded and, when applying, made, and it fails where a file stands in the way of the target's directory |
| MigrationScript.Migrator.CopyDirectoryTree | migrations/001_consolidate_basecamp_state.py:140-157 | The nested loops over directories and sorted names make or plan every directory of the tree before its files and copy each file to the same relative place; a missing source and one that is no directory are only recorded |
| MigrationScript.Migrator.ReadStrings | migrations/001_consolidate_basecamp_state.py:192-204 | The loop keeps a mapping exactly when every value is a string that is not blank, trimmed |
| MigrationScript.Migrator.MigrateRootConfig | migrations/001_consolidate_basecamp_state.py:207-259 | Projects and aliases are extracted when present, well formed and not yet at their targets; the config is rewritten once, without the keys so extracted and the stale ones, and only if that changes it; what the files then hold is `MigrationDelivery.ConfigOutcome` |
| MigrationScript.Migrator.MigrateModelAliases | migrations/001_consolidate_basecamp_state.py:272-292 | The legacy alias file is normalised into the core alias file unless that exists or is planned, also by the root config in the same run; a missing source, one that is no file and an invalid map are only recorded; what the new file holds is `MigrationDelivery.LegacyOutcome` |
| MigrationScript.Migrator.ReportActiveRuntime | migrations/001_consolidate_basecamp_state.py:295-303 | Finds an active daemon exactly when one of its runtime paths is there, reporting those paths |
| MigrationScript.Migrator.MigrateSwarm | migrations/001_consolidate_basecamp_state.py:295-309 | The daemon's directory is made; a runtime artifact found stops the migration of its database and agents, which are otherwise copied |
| MigrationScript.Migrator.PruneEmptyLegacyDirs | migrations/001_consolidate_basecamp_state.py:312-341 | The loop prunes exactly the empty listed directories, in order, and only when asked to |
| MigrationScript.Migrator.Execute | migrations/001_consolidate_basecamp_state.py:344-373 | The script as a whole, with its shared action list and tree, is the run the theorems above are about, failure half way included |
| Utf8.DecodeEncode | omp/diff/loader.ts:137-183 | Decoding the UTF-8 of any text gives the text back (RFC 3629 section 3), with the decoder written out for ill-formed bytes as well |
| GitPaths.MarkerRoundTrip | omp/diff/untracked.ts:1-13 | For every path, reading the marker name this program writes gives the path back, quoted or not |
| GitPaths.WrittenNameIsPrintable | omp/diff/untracked.ts:1-13 | A written name consists of printable ASCII alone, so it cannot break a header line |
| GitPaths.UnquoteSpelled | omp/diff/loader.ts:137-183 | What unquoting makes of any legal C-style spelling: raw characters, named escapes, octal bytes and escaped characters in any mixture |
| GitPaths.UnquoteIsFaithful | omp/diff/loader.ts:137-183 | Such a spelling is read as the name it spells exactly when it contains no raw character beyond U+FFFF: those are torn into surrogates that are not encodable |
| GitPaths.MarkerIsFaithful | omp/diff/loader.ts:185-190 | The marker line of any name, bare or quoted, is read as some path, and as the path it is printed for exactly when the printed name has no blank (which makes git append a tab: a bare name keeps it, a quoted one keeps its closing quote) and no raw character beyond U+FFFF |
| GitPaths.WrittenIsFaithful | omp/diff/untracked.ts:1-13 | What this program writes for any path is the marker of such a faithful name, without a tab |
| GitPaths.UnquoteGitPath | omp/diff/loader.ts:137-183 | Between the first and the last character every escape becomes its byte, every other character its UTF-8 bytes, and the bytes are decoded, as in the reading the theorems are about |
| GitPaths.WritePatchPath | omp/diff/untracked.ts:1-13 | A name of printable ASCII without blank, quote and backslash is written as it is, any other in quotes with every other byte as three octal digits |
| Porcelain.PorcelainRoundTrip | omp/diff/untracked.ts:33-45 | Of any NUL-terminated status stream the reader returns exactly the untracked paths, in order, however the source fields of renames and copies look |
| Porcelain.ParseUntracked | omp/diff/untracked.ts:33-45 | Of any text, NUL-separated records of untracked paths are taken in order, and the field behind a rename or copy is never taken for a record |
| PatchPrinter.PatchRoundTrip | omp/diff/loader.ts:192-247 | Of every list of sections with count-consistent, disjoint hunks the parser finds exactly the changed files, in order: new-side ranges, every new-side line and no line outside the ranges, whatever the texts begin with; and each file has its path exactly when the name it goes by (the new one, or the old one of a deleted file) is printed faithfully |
| PatchPrinter.ParsePrinted | omp/diff/loader.ts:192-247 | Parsing a printed patch folds each file's hunks in order, under the path its markers are read as; pure mode changes and renames contribute nothing |
| PatchPrinter.HeaderRead | omp/diff/loader.ts:135 | Every hunk header is read as its new side, with the count that may be left out |
| PatchParser.ParseDiffFiles | omp/diff/loader.ts:192-247 | The loop over lines with its mutable file objects returns the files the state machine specifies |
| PatchParser.Reader.ReadLine | omp/diff/loader.ts:203-247 | A section line resets the reader, marker lines count only before the first hunk of a section, a hunk header starts the count, and a body line is stored under its number, skipped, or ends the count, in the file still open |
| PatchSections.ParseDistributes | omp/diff/loader.ts:203-247 | Parsing distributes over concatenation at a section boundary |
| PatchSections.SectionsAreIndependent | omp/diff/loader.ts:209-215 | No state survives a `diff --git ` line |
| SectionFilter.OmitRemovesExactly | omp/diff/loader.ts:254-263 | Filtering removes exactly the files at omitted paths and leaves the others as they parsed, on every patch whose sections name one file each, also where sections are torn inside a line and the pieces together name nothing else |
| FilterExactness.RightAtLines | omp/diff/loader.ts:254-263 | Where cuts fall behind line feeds only, as in what git writes, the filter is right for every set of omitted paths if and only if no section names two paths |
| FilterExactness.RightWhenSteady | omp/diff/loader.ts:254-263 | Where the pieces of each section, torn or not, go by one name (in front of others the last piece having it only if all have, and the nameless ones naming nothing together), the filter is right for every set of omitted paths if and only if the files the parser sees go by the names of their pieces |
| FilterExactness.RightUpToLast | omp/diff/loader.ts:254-263 | For any last section behind such sections: if and only if the files in front go by the names of their pieces and the filter is right for the last section |
| FilterExactness.PairIsSteady | omp/diff/loader.ts:254-263 | A section torn in two is such a section if its second piece goes by the name of the first, or by none |
| FilterExactness.RightWhenTorn | omp/diff/loader.ts:254-263 | For a patch of any number of such sections and a last one torn in two behind whatever terminator: if and only if all files go by the names of their pieces and, where the last two pieces go by two names, their text is read as the one piece and then the other, each of one name |
| FilterExactness.RightForOneFile | omp/diff/loader.ts:254-263 | If the section torn in two is one file, or none: if and only if all files go by the names of their pieces and the last two pieces do not go by two names |
| TornReading.ReadInOrder | omp/diff/loader.ts:203-263 | If two pieces go by two names, and leaving out either name leaves the other piece, then the parser reads the torn text as the first piece followed by the second |
| TornHunk.OmittingLosesALine | omp/diff/loader.ts:254-263 | Every patch of a family (any names and extended headers, then a hunk of an added line with `diff --git ` behind a carriage return or Unicode separator and an added line like the marker of `q`): the parser sees one file, not `q`, and omitting `q` leaves that file without its second line |
| TornHunk.LinesAreLost | omp/diff/loader.ts:254-263 | A concrete patch of that family: a new file `p` with the header lines git prints |
| SnapshotPatch.AppendParses | omp/diff/loader.ts:248-252 | Appending a patch adds its files, whether or not the text before it ended in a line feed |
| SnapshotPatch.AssemblePatch | omp/diff/loader.ts:286-308 | The loop over untracked entries leaves out the tracked sections they supersede and appends their patches in order, with one warning for each that could not be read |
| PatchRelabel.SnapshotListsUntrackedOnce | omp/diff/loader.ts:286-308 | The assembled snapshot parses as the tracked files not superseded followed by the untracked ones, each untracked path at most once, whatever sections of one file git printed for them |
| SnapshotOutcomes.SnapshotShowsUntracked | omp/diff/loader.ts:286-308 | An untracked file whose patch was read is in the snapshot exactly once, under its path and with the ranges and lines of its patch, or not at all if the patch changes no lines |
| SnapshotOutcomes.SnapshotShowsTracked | omp/diff/loader.ts:305-308 | A tracked change no such path has the name of is in the snapshot exactly if it is in the tracked diff |
| SnapshotOutcomes.WarnedExactly | omp/diff/loader.ts:286-304 | Warnings name exactly the paths that could not be read or are no file, in order |
| PatchRelabel.RelabelNoIndexPatch | omp/diff/untracked.ts:15-31 | Up to the first hunk header `diff --git ` and `+++ ` lines become those of the given path; from there on every line stays, also one that looks like a marker |
| PatchRelabel.RelabelledIsRead | omp/diff/untracked.ts:15-31 | A relabelled patch of one file parses as that file under the given path, its hunks untouched |
| PatchRelabel.RelabelledIsOwn | omp/diff/untracked.ts:15-31 | A relabelled section of one file is a section of its own for that path and no other, so the snapshot theorem applies to it |
| Annotations.IdsMeanWording | omp/diff/annotations.ts:40-55 | Between places of as many lines, two ids are equal exactly when place and run-together wording are, for any summaries and rationales |
| Annotations.IdIsUnambiguous | omp/diff/annotations.ts:40-55 | For every annotation the tool accepts: its id stands for its content alone, among those the tool accepts, if and only if the rationale has no line break, repository and summary none but perhaps as their first character, and the path none but perhaps as its last |
| Annotations.IdsMeanLines | omp/diff/annotations.ts:40-55 | For any two annotations: the ids are equal exactly when place, range and wording, taken apart into lines, are the same lines |
| Annotations.IdsMeanContent | omp/diff/annotations.ts:40-55 | Between places and summaries of as many lines, equal ids mean equal content, a missing and an empty rationale being the same |
| Annotations.AnchorsMeanText | omp/diff/annotations.ts:74-79 | For one path and range, equal anchors mean the same lines |
| DiffValidation.ValidateTargets | omp/diff/validate.ts:93-148 | The two loops return the accepted targets in order and the issues, first-pass ones before second-pass ones; which those are is `ValidationOutcomes.ValidationIs` |
| DiffValidation.ReadAnchor | omp/diff/validate.ts:79-86 | The line loop yields the anchor of exactly the addressed lines, or nothing if one is missing |
| DiffValidation.RevalidateAnnotations | omp/diff/validate.ts:156-179 | The loop splits the annotations into current and stale; which are current is `ValidationOutcomes.CurrentExactly` |
| DiffValidation.PartitionInOrder | omp/diff/validate.ts:150-179 | Current and stale together are all annotations, each in its original order |
| DiffValidation.AcceptedIsCurrent | omp/diff/annotation-tools.ts:150-187 | Every target accepted against a snapshot is current against the same snapshot |
| DiffValidation.CurrentElsewhere | omp/diff/validate.ts:156-179 | Against any other snapshot read from a patch it is current exactly when repository, file, hunk containment and the text line by line agree |
| DiffValidation.ContainmentIsEnough | omp/diff/validate.ts:67-87 | For the files of a parsed well-formed patch a range inside a hunk always has an anchor |
| DiffValidation.SecondCheckRejectsNothing | omp/diff/validate.ts:93-148 | Against the snapshot of a well-formed patch the second pass raises no issue, whatever the targets |
| ValidationOutcomes.ValidationIs | omp/diff/validate.ts:93-148 | Against the snapshot of a well-formed patch, told from the printed patch: the accepted targets are, in order, exactly those inside the repository whose range is sound and lies in one new-side hunk of the first change of that name, each with its own fields and the anchor of the lines printed there; the issues are those of the others, in order, each with its reason |
| ValidationOutcomes.CurrentExactly | omp/diff/validate.ts:156-179 | Against such a snapshot an annotation is current exactly if the repository agrees, its range lies in one hunk of the first change of its path and its anchor is that of the lines printed there |
| DiffValidation.ParsedIsLineByLine | omp/diff/loader.ts:192-247 | No line read from any patch contains a line feed |
| Journal.BoundaryIndex | omp/diff/journal.ts:109-126 | The loop computes the boundary with its running maximum and its resets |
| Journal.ActiveAnnotations | omp/diff/journal.ts:134-147 | The folding loops compute the active annotations |
| Journal.BoundaryIsLatestMark | omp/diff/journal.ts:103-126 | The boundary is the latest of all resets and valid cutoffs, although a reset overwrites and a cutoff only raises |
| Journal.BoundaryNeverMovesBack | omp/diff/journal.ts:103-126 | What one more entry does to the boundary: a reset takes it to the end, a completion raises it at most, nothing lowers it |
| Journal.ActiveMeansLastRecorded | omp/diff/journal.ts:128-147 | An annotation is active exactly when the last event about its id after the boundary records it, and no id twice |
| Journal.SinceMeansActive | omp/diff/journal.ts:128-147 | An id has an uninterrupted stretch of recording exactly when it is active |
| Journal.ActiveInOrder | omp/diff/journal.ts:128-147 | Active annotations stand in the order in which their current stretches began: re-recording keeps the place, withdrawing loses it |
| AnnotationTools.Session.AnnotateDiff | omp/diff/annotation-tools.ts:147-200 | Any issue records nothing; otherwise one event with the annotations neither active nor repeated is appended |
| AnnotationTools.Session.RemoveAnnotation | omp/diff/annotation-tools.ts:212-235 | An unknown id withdraws nothing; otherwise one event withdraws the requested ids, each once |
| AnnotationTools.Session.RecordAnnotations | omp/diff/journal.ts:149-154 | An empty batch appends nothing, another exactly one entry |
| AnnotationTools.Session.WithdrawAnnotations | omp/diff/journal.ts:156-161 | An empty list appends nothing, another exactly one entry |
| AnnotationTools.AnnotateAddsNew | omp/diff/annotation-tools.ts:161-189 | Afterwards the active annotations are the old ones followed by the recorded ones |
| AnnotationTools.RepeatRecordsNothing | omp/diff/annotation-tools.ts:161-189 | Giving the same batch again records nothing |
| AnnotationTools.RemoveWithdrawsExactly | omp/diff/annotation-tools.ts:212-235 | Withdrawing takes away exactly the named annotations and keeps the order of the others |
| AnnotationOutcomes.RefusedExactly | omp/diff/annotation-tools.ts:150-160 | Against the snapshot of a well-formed patch a call has an issue, and so records nothing, exactly if one of its targets does not fit |
| AnnotationOutcomes.AnnotateOutcome | omp/diff/annotation-tools.ts:150-189 | A call whose targets all fit has one annotation per target, carrying its fields, its id and its anchor; recorded are those neither active nor given before in the call, in the order of their targets, and they are then active behind the others |
| AnnotationOutcomes.RemoveOutcome | omp/diff/annotation-tools.ts:212-225 | A withdrawal is refused exactly if an id is not active, naming those; otherwise exactly the annotations with the given ids are no longer active |
| ReviewTransaction.EveryRunKeepsInvariant | omp/diff/command.ts:134-298 | Whatever the user and the agent do to the session meanwhile (append, switch session, move on the tree): the captured branch prefix is still the path to its leaf |
| ReviewTransaction.OwnedBranchExtends | omp/diff/command.ts:95-98 | When the origin check passes, the active branch extends the captured one |
| ReviewTransaction.CompletionConsumesExactlyTheCaptured | omp/diff/command.ts:280-288 | After completion the active set is the fold of what was appended after the captured leaf, or after a later mark |
| ReviewTransaction.ShownAnnotationsAreConsumed | omp/diff/command.ts:164-167 | Nothing active after completion comes from the captured part: each active annotation is in an event recorded since |
| ReviewTransaction.CompletionFollowsItsSave | omp/diff/command.ts:254-276 | A completion can only follow a saved review of the same reference, made while the origin was still owned |
| ReviewOutcomes.OwnedExactly | omp/diff/command.ts:95-98 | The origin check passes exactly if the same session is current and its branch begins with everything captured |
| ReviewOutcomes.GoesOnWhileOwned | omp/diff/command.ts:229-276 | Reading the notes and saving go on exactly as long as that is so, and otherwise end the review; the session is not touched |
| ReviewOutcomes.LoadedBegins | omp/diff/command.ts:160-167 | In the same session a loaded diff begins a review of the branch as it is: shown are the active annotations that are current, discarded the others |
| ReviewOutcomes.UndisturbedReviewCompletes | omp/diff/command.ts:134-298 | A review during which the session only appends entries completes: the captured branch is saved under its reference, and the branch ends with the appended entries and the completion naming that reference and the captured leaf |
| ReviewCommand.DiffCommand.ReadJournal | omp/diff/command.ts:160-167 | Session check and capture of leaf and active annotations without a suspension in between |
| ReviewCommand.DiffCommand.CheckOrigin | omp/diff/command.ts:95-98 | Owned exactly when the session is the same and the captured leaf, if any, is on the branch |
| ReviewCommand.DiffCommand.ReviewSaved | omp/diff/command.ts:254-276 | Save, then the second origin check |
| ReviewCommand.DiffCommand.Deliver | omp/diff/command.ts:280-291 | The last origin check and the completion entry with the captured leaf |
| SidecarRuns.EveryRunKeepsSound | pi/diff/sidecar.ts:150-219 | Over any sequence of writes, removals and clears, whatever the paths and texts: one entry per path, one annotation per path, range and summary, and only computed ids |
| SidecarRuns.EveryRunKeepsTexts | pi/diff/sidecar.ts:150-219 | Whatever property all paths and all summaries written have, all paths and summaries stored have |
| SidecarRuns.KeysAreUnique | pi/diff/sidecar-merge.ts:20-30 | With one-line summaries and paths that cannot end earlier every key is carried by one annotation only, across files too |
| SidecarRuns.CallsAddUp | pi/diff/sidecar.ts:150-170 | Two same-base calls against one with both batches, whatever the texts: where the first call and one of the other two writes are recorded in full, the two ways leave the same files, order and annotations, an empty rationale counting as none, if and only if all three writes are recorded in full |
| SidecarRuns.FreshCallsAddUp | pi/diff/sidecar.ts:150-170 | Starting a review span: if and only if the second call drops nothing but what the first has stored, a condition on the two batches |
| SidecarRuns.OneLineCallsAddUp | pi/diff/sidecar.ts:150-170 | After any run with one-line summaries two calls are one, and a batch repeated records nothing |
| SidecarRuns.RepeatRecordsNothing | pi/diff/sidecar-merge.ts:87-138 | Writing a batch again records nothing, and then leaves every annotation as it was, if and only if the first time the id of whatever was dropped stayed present: carried by an annotation recorded, or by a stored one that none recorded supersedes |
| SidecarRuns.ForgottenIsRecorded | pi/diff/sidecar-merge.ts:117-131 | The failing batches: one that drops an annotation for sharing the id of a stored one, and supersedes that one, records the dropped one when given again |
| SidecarRuns.SomeAreForgotten | pi/diff/sidecar-merge.ts:117-131 | There are such batches for all texts |
| SidecarRuns.RemoveHitsExactlyOne | pi/diff/sidecar.ts:186-219 | In any readable sidecar, removing a key that is carried once succeeds and takes exactly that annotation out of the listing |
| SidecarRuns.RemoveRefusesOthers | pi/diff/sidecar.ts:186-219 | In any readable sidecar a key not carried once is refused and nothing changes: as not found if nothing carries it, as ambiguous otherwise |
| SidecarRuns.EveryKeyIsRemovable | pi/diff/sidecar.ts:186-219 | After any run with one-line summaries and paths that cannot end earlier every listed key is carried once |
| SidecarRuns.MultilineNotesCollide | pi/diff/sidecar-merge.ts:20-30 | A line break in a summary gives two different annotations one id |
| SidecarRuns.CollidingNoteIsDropped | pi/diff/sidecar-merge.ts:117-121 | Two writes, the second with an annotation of another range or summary that shares the id of the one stored: nothing is reported, nothing changes and nothing stored says what it says, whereas one write of both stores both |
| SidecarRuns.CollidingPairIsStuck | pi/diff/sidecar.ts:186-205 | Or, recorded by one first call, both are kept and neither can be removed |
| SidecarRuns.BrokenPathsCollide | pi/diff/sidecar-merge.ts:20-30 | A path with a number behind its last line break gives an annotation the id of one at the path in front of it |
| SidecarRuns.CollidingPathsAreStuck | pi/diff/sidecar.ts:186-205 | Such annotations of two paths are both stored and neither can be removed |
| SidecarLaws.NoteIdsMeanWording | pi/diff/sidecar-merge.ts:20-30 | Between paths of as many lines, above all at one path, two ids are equal exactly when path, range and run-together wording are |
| SidecarLaws.NoteIdIsUnambiguous | pi/diff/sidecar-merge.ts:20-30 | For every annotation with a path and a summary: its id stands for its content alone, among those, if and only if the rationale has no line break, the summary none but perhaps as its first character, and no line break of the path with text in front of it is followed by whole numbers that would do for a range |
| SidecarLaws.NoteIdsMeanLines | pi/diff/sidecar-merge.ts:20-30 | For any two annotations: the ids are equal exactly when path, range and wording, taken apart into lines, are the same lines |
| SidecarLaws.LongerPathMayEndEarlier | pi/diff/sidecar-merge.ts:20-30 | Of two annotations with one id, the path of more lines is one that can end earlier |
| SidecarLaws.NoteIdsMeanContent | pi/diff/sidecar-merge.ts:20-30 | At one path, or between paths that cannot end earlier, one-line summaries are told apart: equal ids mean the same path, anchor and rationale |
| SidecarMerge.MergeNoteIsUpsert | pi/diff/sidecar-merge.ts:117-131 | Merging one annotation is superseding in place or appending if and only if it is recorded or stored already |
| SidecarMerge.MergedIsUpserted | pi/diff/sidecar-merge.ts:117-131 | A merged entry is the stored one with the recorded annotations superseding in place or appended, in order |
| SidecarMerge.MergeAddsUp | pi/diff/sidecar-merge.ts:117-131 | An entry and a batch add up if and only if every annotation dropped is stored already |
| SidecarMerge.MergeAgain | pi/diff/sidecar-merge.ts:103-138 | Merging a batch again records nothing if and only if the first time the id of whatever was dropped stayed present |
| SidecarMerge.WriteAddsBatch | pi/diff/sidecar.ts:150-170 | A write, which stamps the batch by itself and then merges, is adding its annotations one by one to what is stored if and only if every annotation it drops is stored already |
| SidecarOutcomes.WriteOutcome | pi/diff/sidecar.ts:150-170 | Where a write is recorded in full, the sidecar has under every path, an empty rationale counting as none, the annotations given last for their lines and words and those stored for the same base that were not given anew, and nothing else; and the summary given last for the path, or the stored one |
| SidecarOutcomes.RemoveOutcome | pi/diff/sidecar.ts:186-219 | A removal that succeeds takes the annotation with this key, the entry with its last annotation and the sidecar with its last entry; all other annotations, summaries and the base are as they were |
| SidecarStore.StampBatch | pi/diff/sidecar-merge.ts:65-85 | Every annotation gets the id computed from its path and wording, whatever id it came with; a later one of the same range and summary takes the place of an earlier one, and each path gets one entry |
| SidecarStore.MergeSidecar | pi/diff/sidecar-merge.ts:103-138 | An incoming annotation whose id is present is dropped, one of a present range and summary supersedes it in place, any other is appended; new paths are appended whole, and what was recorded is reported in order |
| SidecarStore.MergeIntoNothing | pi/diff/sidecar.ts:156-165 | Replacing a sidecar of another base is merging into an empty one |
| SidecarStore.Store.WriteSidecar | pi/diff/sidecar.ts:150-170 | The batch is stamped and merged into what is stored for the same base; unreadable and other-base content is replaced |
| SidecarStore.Store.ClearSidecar | pi/diff/sidecar.ts:176-178 | Nothing is stored afterwards |
| SidecarStore.Store.RemoveAnnotation | pi/diff/sidecar.ts:186-219 | Refused when nothing is stored, when no annotation has the key and when several do; otherwise that annotation goes, an entry left empty goes with it, and the sidecar with its last entry |
| StatusTracker.EveryRunKeepsInvariant | pi/core/ui/repository-status.ts:140-249 | In every reachable state at most one lookup is in flight and not aborted, it has the latest generation and the current key, a pending refresh has an active lookup, the key is the one of directory and branch, and a shown pull request was looked up for that key |
| StatusTracker.KeysAreFaithful | pi/core/ui/repository-status.ts:205-209 | Two keys are equal exactly when directory and branch are |
| StatusTracker.SafeBranchName | pi/core/ui/repository-status.ts:68-75 | A branch that is shown is not empty and has no control character |
| StatusTracker.RefreshesCoalesce | pi/core/ui/repository-status.ts:140-146 | While a lookup is active any number of refreshes starts none and leaves one note |
| StatusTracker.OneFollowUp | pi/core/ui/repository-status.ts:236-241 | When it ends, exactly one follow-up starts if there was such a note and none otherwise |
| StatusTracker.StaleAnswersAreIgnored | pi/core/ui/repository-status.ts:218-236 | The answer to any other lookup changes nothing that can be seen |
| StatusTracker.ActiveAnswerIsShown | pi/core/ui/repository-status.ts:218-236 | The pull request the active lookup answers with is shown, whatever was shown before; if it answers with none, what is shown stays |
| StatusTracker.NewTargetIsLookedUp | pi/core/ui/repository-status.ts:170-188 | In a new directory the branch shown is the one HEAD names, `detached` for any other readable HEAD, the fallback otherwise, and a lookup of exactly that directory and branch is under way unless there is no branch to look up |
| StatusTracker.NewHeadIsLookedUp | pi/core/ui/repository-status.ts:192-216 | A HEAD that shows another branch starts its lookup at once and forgets what was shown; one that shows the same branch changes nothing |
| StatusTracker.SameTargetFollowsFallback | pi/core/ui/repository-status.ts:170-216 | In the same directory only the fallback is taken over, and followed exactly if HEAD named no branch |
| StatusTracker.RefreshLooksUp | pi/core/ui/repository-status.ts:140-154 | A refresh without a lookup under way starts one of the current directory and branch and keeps what is shown |
| StatusTracker.ClosedStaysQuiet | pi/core/ui/repository-status.ts:156-168 | Once closed nothing is shown or looked up, every lookup under way is given up, and no event changes that |
| RepositoryStatus.RepositoryStatusTracker.RefreshNow | pi/core/ui/repository-status.ts:140-154 | Nothing without a key; during a lookup one pending refresh is noted; otherwise a lookup of the current directory and key starts under a new generation |
| RepositoryStatus.RepositoryStatusTracker.CancelLookup | pi/core/ui/repository-status.ts:244-249 | The lookup in flight is aborted and forgotten with the pending refresh, and a generation is spent, so its answer no longer counts |
| RepositoryStatus.RepositoryStatusTracker.SyncPullRequestTarget | pi/core/ui/repository-status.ts:205-216 | If directory and shown branch give another key, the lookup is cancelled, the pull request forgotten and, given a key, a lookup started; returns whether the key changed |
| RepositoryStatus.RepositoryStatusTracker.OnTarget | pi/core/ui/repository-status.ts:170-188 | A new directory replaces the cached branch and the watcher, an unchanged one only the fallback branch; the lookup follows, and a change is announced exactly when directory, shown branch or key changed |
| RepositoryStatus.RepositoryStatusTracker.OnHead | pi/core/ui/repository-status.ts:192-199 | A HEAD change of the directory still watched updates the cached branch and the lookup, and is announced exactly when shown branch or key changed; one of an old directory is ignored |
| RepositoryStatus.RepositoryStatusTracker.OnAnswer | pi/core/ui/repository-status.ts:218-242 | An answer is shown only if it is the latest generation's, for the current key and different, and exactly then announced; the lookup that is still active ends with it, and then a noted refresh starts |
| RepositoryStatus.RepositoryStatusTracker.Close | pi/core/ui/repository-status.ts:156-168 | Cancels the lookup and forgets target, branch, key and pull request; closing again changes nothing |
| OwnedReview.EveryRunKeepsInvariant | pi/diff/command.ts:142-244 | Over any run of commands: a recorded pane is never overwritten, and every opened pane is still recorded, or closed after a successful read whose notes were delivered, or proven gone, or was closed because starting the review in it failed |
| OwnedReview.DrainKeeps | pi/diff/review-session.ts:66-99 | Draining keeps this once its notes are delivered, and unless it is blocked leaves no record; what it comes to is `OwnedOutcomes.DrainIs` |
| OwnedReview.ReviewKeeps | pi/diff/command.ts:188-243 | Opening, recording, launching, reading, closing and delivering in this order keeps it, wherever it stops |
| OwnedReview.ConsumedOnlyAfterReading | pi/diff/command.ts:227-243 | In every run of commands, each consumption of annotations is preceded by a read of the notes of the pane opened last, made since it was opened, and, unless there were none, by their delivery between that read and the consumption |
| OwnedOutcomes.DrainIs | pi/diff/review-session.ts:66-99 | A recorded pane is given up unread, its notes counting as lost, exactly if its session is not live and the pane is proven gone; it blocks, still recorded, if it then cannot be identified or read; otherwise it is read, then closed, and forgotten exactly if the close succeeded |
| OwnedOutcomes.GivenUpOnlyWhenGone | pi/diff/review-session.ts:76-90 | In every run, whenever a pane counts as gone, an identified command was told that it is while the recorded session was not live |
| OwnedOutcomes.DiscoverIs | pi/diff/review-session.ts:19-24 | A session is found exactly if one listed session, and only one, was not there before; several are a failure |
| OwnedOutcomes.AwaitIs | pi/diff/review-session.ts:27-47 | Waiting ends with what the first poll that finds one or several new sessions has; without one only the last poll matters |
| OwnedOutcomes.ReviewIs | pi/diff/command.ts:188-243 | What a review does in its new pane, in order, and what it leaves recorded, by whether it was launched, found, read and closed |
| OwnedOutcomes.CommandIs | pi/diff/command.ts:163-201 | A blocked drain or recovered notes end the command, which hands the notes over; only a drain with neither goes on to a new pane |
| OwnedOutcomes.CommandAlone | pi/diff/command.ts:163-243 | A command cut at its awaits, when no other comes in between, does what it does as a whole: the same effects and the same record |
| OverlappingReviews.OverwrittenExactly | pi/diff/command.ts:163-201 | In any interleaving of commands cut at their awaits, a new pane overwrites the record of another if and only if that other pane was recorded after this command had looked at the record, and not forgotten since |
| OverlappingReviews.NoneOverwritten | pi/diff/command.ts:163-201 | Where never two commands wait for their panes at the same time, no record is overwritten |
| OverlappingReviews.OverlapLosesAPane | pi/diff/command.ts:163-225 | Two overlapping commands: the second pane overwrites the record of the first, whose command then finds no session, and nothing leads to that pane any more |
| DiffRunner.AwaitLaunchedSession | pi/diff/review-session.ts:27-47 | The polling loop returns the first decisive discovery, else the last attempt |
| DiffRunner.Command.DrainOwnedReview | pi/diff/review-session.ts:66-99 | Without a record nothing happens; a pane proven gone whose session is not live is forgotten; one that cannot be identified or read blocks and stays recorded; otherwise its notes are read before it is closed (`OwnedOutcomes.DrainIs`) |
| DiffRunner.Command.RunReview | pi/diff/command.ts:199-243 | Opens, records, launches, attaches, reads, closes, delivers and consumes in this order, and stops at the first failure with the pane recorded, or closed if the launch failed |
| DiffRunner.Command.RunDiff | pi/diff/command.ts:163-243 | Stops before touching anything when the review cannot be had; then drains, and only a drain that is neither blocked nor brings notes goes on to a new review |
| DiffRunner.Command.ClosePane | pi/diff/review-session.ts:49-53 | A pane is forgotten only when its close succeeded |
| DiffRunner.Command.AttachSession | pi/diff/session-state.ts:29-35 | The session id replaces the baseline; without a record nothing happens |
| DiffRunner.Command.ForgetPane | pi/diff/session-state.ts:41-43 | The record is gone |
| TaskModel.EveryRunKeepsInvariant | pi/tasks/lifecycle/index.ts:81-107 | Over any run of goal, task and reload operations at most one cycle and at most one task is active, the active cycle mirrors the live goal and tasks, and the file holds the cycles |
| TaskModel.ArchivedNeverChanges | pi/tasks/lifecycle/goal-cycle.ts:14-34 | Once archived, a cycle stays at its place with its tasks through any further operations |
| TaskModel.IndicesAreStable | pi/tasks/tools/task-tools.ts:105-123 | Starting, completing and deleting keep the number, order and wording of tasks |
| TaskModel.ReloadsChangeNothing | pi/tasks/lifecycle/index.ts:95-107 | A run with reloads anywhere in it, however often, ends in the same live state, cycles and file as the same run without them |
| TaskModel.StartTaskIs | pi/tasks/tools/task-tools.ts:105-123 | Accepted exactly for an existing pending or active task, which then is active; a task active before is pending, every other as it was, live, in the active cycle and in the file |
| TaskModel.CompleteTaskIs | pi/tasks/tools/task-tools.ts:143-152 | Accepted exactly for an existing pending or active task, which then is completed and the only one changed |
| TaskModel.DeleteTaskIs | pi/tasks/tools/task-tools.ts:206-216 | Accepted exactly for an existing task that is not deleted, which then is deleted and the only one changed |
| TaskModel.CreateTasksIs | pi/tasks/tools/task-tools.ts:65-83 | Accepted exactly with a goal; the tasks are then those given, in order and wording, all pending |
| TaskModel.StartCycleIs | pi/tasks/lifecycle/goal-cycle.ts:14-34 | The new cycle stands last, active, with the given goal, plan and tasks, which are the live ones; the cycle active before is archived with the tasks that were live, and the file holds all of them |
| TaskRuntime.Runtime.StartGoalCycle | pi/tasks/lifecycle/goal-cycle.ts:23-34 | On shared objects: archives the active cycle with the live tasks and starts one whose task list is the live one |
| TaskRuntime.Runtime.ArchiveActiveCycle | pi/tasks/lifecycle/goal-cycle.ts:14-20 | Changes the active cycle only, and no task |
| TaskRuntime.Runtime.PersistState | pi/tasks/lifecycle/index.ts:81-91 | The active cycle gets the live task list and all cycles are saved |
| TaskRuntime.Runtime.SessionStart | pi/tasks/lifecycle/index.ts:95-107 | From any file: live state, cycles and sharing are rebuilt from it and its first active cycle adopted; the sharing invariant holds afterwards exactly when the file has at most one active cycle |
| TaskRuntime.Runtime.CreateTasks | pi/tasks/tools/task-tools.ts:65-83 | Refused without a goal; otherwise replaces the list, in the active cycle too |
| TaskRuntime.Runtime.StartTask | pi/tasks/tools/task-tools.ts:105-123 | Refused for missing or closed tasks; otherwise changes statuses in place in the one shared list |
| TaskRuntime.Runtime.MarkActive | pi/tasks/tools/task-tools.ts:112-116 | The loop puts every other active task back |
| TaskRuntime.Runtime.CompleteTask | pi/tasks/tools/task-tools.ts:143-152 | Refused for missing or closed tasks; otherwise that task is completed in place (`TaskModel.CompleteTaskIs`) |
| TaskRuntime.Runtime.DeleteTask | pi/tasks/tools/task-tools.ts:206-216 | Refused for missing or deleted tasks; otherwise that task is deleted in place (`TaskModel.DeleteTaskIs`) |
| PlanDraft.StartedMeansReviewed | pi/tasks/tools/plan-tool.ts:127-221 | In any interactive run, when a cycle starts every section and the list of tasks was approved in a review of this very content, and every submission since had the same content |
| PlanDraft.EveryRunKeepsInvariant | pi/tasks/workflows/draft.ts:31-48 | The same holds of every approval on a pending draft, goal and context vouching for each other |
| PlanDraft.ResubmissionKeepsApproval | pi/tasks/workflows/draft.ts:86-132 | Submitting a fully approved plan unchanged is approved at once |
| PlanDraft.DispatchedStartsAtOnce | pi/tasks/tools/plan-tool.ts:141-191 | A dispatched run starts the submitted plan itself, without a review |
| PlanDraft.CarriedExactly | pi/tasks/workflows/draft.ts:86-132 | An item of a new draft is approved exactly if the draft before had it approved with this very content, and otherwise unreviewed; its contents are the submitted ones |
| PlanDraft.ExecuteIs | pi/tasks/tools/plan-tool.ts:127-221 | An interactive call by its answers: declining drops the plan; marks are taken over item by item; a cycle starts exactly if every item is approved then and the handoff, if one is needed, selected a worktree; otherwise the draft stays |
| PlanTool.CycleRunsPlan | pi/tasks/tools/plan-tool.ts:193-221 | The cycle that is started has the goal of the plan, each of its sections under its own name, and its tasks in order, all pending |
| PlanDraft.TasksMatch | pi/tasks/workflows/draft.ts:66-76 | The loop decides equality of the two lists |
| PlanDraft.IsAllApproved | pi/tasks/workflows/draft.ts:148-154 | The loop decides whether all five sections and the tasks are approved |
| PlanTool.Tool.SubmitDraft | pi/tasks/tools/plan-tool.ts:127-139 | The pending draft is rebuilt from the parameters and its predecessor |
| PlanTool.Tool.Review | pi/tasks/tools/plan-tool.ts:145-162 | Marks are taken over; declining drops the draft |
| PlanTool.Tool.Approve | pi/tasks/tools/plan-tool.ts:164-221 | An approved draft starts a cycle with its goal, plan and pending tasks, or stays pending when the handoff fails |
| PlanTool.Tool.Execute | pi/tasks/tools/plan-tool.ts:127-221 | One call moves draft and log as one step of the runs the theorems are about, and the task runtime changes exactly when a cycle starts, which then runs the approved plan (`PlanTool.CycleRunsPlan`) |

## Left out

- SectionFilter.OmitRemovesExactly: the converse is proved for sections whose pieces go by one name and for a last section torn in two (`FilterExactness`); not for a section in front of others of which a piece that names a file can be dropped while an earlier one is kept, since the next section then runs into what is left, nor for a last section torn into three or more pieces of different names.
- SidecarRuns.CallsAddUp: the if-and-only-if is about writes of which at most one of the last two is not recorded in full; when annotations are dropped on both ways, the two results can agree by coincidence.
- SidecarOutcomes.WriteOutcome: when ids clash and a write drops an annotation that is not stored, what is left is what `SidecarMerge.MergedIsUpserted` says.
- TaskRuntime.Runtime.SessionStart: what the later operations do to a file with several active cycles, which no run writes, is not modelled.
- PlanTool.Tool.Execute: overlapping calls of the plan tool are not modelled; a call runs to its end before the next.
- OverlappingReviews.OverwrittenExactly: sessions are not part of that model; whether a recorded pane's session is registered is an input.
- MigrationScript.Migrator.PruneEmptyLegacyDirs: the branch for a directory that cannot be inspected is not modelled, nor are writes that fail half way.
- The SQLite store, the service and process modules of the hub: `upsert_agent` and `touch_agent` are suspending calls that may fail.
- Wait, message, dispatch and workstream handlers, spawn locks and the server lock: thin over code that is not part of this model.
- Cancellation arriving inside the endpoint's `finally` block, real clocks, transport buffering, and progress: registration of a newcomer is not promised, since the incumbent may leave between the close and the claim.
- Symbolic links, permissions, atomic renames, JSON text, and the schema libraries: a malformed event, entry or file is one that is not read.
- Truncation of digests: the chance that two different texts share a truncated digest is not modelled.
- Default-branch and merge-base resolution, sorting of untracked paths, and the git, Hunk and Herdr processes: their answers are inputs.
- Path validation and normalisation in the loader and the validator.
- Hunk header numbers beyond 2^53, where the runtime's numbers lose precision; status codes outside the basic plane.
- Notes added between a successful read and the close of the pane; exactly-once delivery.
- Checkpoints of `/diff last`; consuming a review is one effect.
- Legacy formats of the tasks file, stripped notes, the widget, guard texts and all other result texts.
- The plan review overlay and the worktree handoff: any marks and any outcome; the dispatch that follows a handoff.
- Bounded text assembly for the user context, footers, themes, installers, command-line wrappers and the bash reviewer: they would only add easy members.
