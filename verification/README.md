# oru in Dafny

oru keeps one append-only session log and derives everything else from it by folds.  This
project models the parts where that is hardest to get right, in the form the program has
them, and proves what they promise.

- **Sessions** (`SessionEvents`, `SessionLog`, `SessionTree`, `SessionMemory`, `SessionForks`,
  `SessionLineage`, `SessionCuts`, `SessionRuntime`, over the shared names in `Primitives`).
  `SessionLog` is a class whose `Write` stamps each fact with a number and a parent link.  The
  walks over those links, with their `seen` sets, are loops proved against recursive functions,
  and those against meanings that use no links at all.  *Lived* sessions are the ones the
  runtime's own writers produce; its fork, compaction and recording methods are proved to keep
  that form.
- **Turns** (`ThreadFold`, `TurnHistory`, `ThreadUsage`, `TurnDriver`, `TurnSettlement`).  The
  fold of a lane is a loop with a stated meaning.  The driver is a state machine in which the
  drains of many threads, callers waiting for verdicts and other writers step over one log in
  any order.  Recording a turn is a method that writes to the log while others may write too, is read
  back through the history projection and takes only steps the driver may take.
- **The plugin host** (`HostGraph`, `HostLeaning`, `HostCascade`, `HostReversal`,
  `HostFixpoint`, `HostLifecycle`, `HostResolve`, `HostCutover`, `HostOperations`,
  `PluginHost`, `HostBoot`).  `PluginHost` and `Registry` are classes with the program's
  fields.  What running a plugin's `apply` comes to is a parameter: failure, or tokens and
  contributions.  Its methods are stated from any state of the host that replacements can lead
  to: boot, activate, deactivate and safe replacements keep the provider graph wired, cascades
  end exactly where there is no circle, and a cascade and the fixpoint of a boot are exact.
- **Smaller cores**: the memoized fuzzy scorer (`CommandScore`), slot resolution (`UiSlots`),
  the panel and bundle reconciler (`PanelModel`) and the migration planner (`Migrations`).

Ids and texts are strings; sequence numbers, token counts and timestamps are unbounded
integers; scores are reals.  Clocks, new ids, bridges to harnesses, collation and lower-casing
are parameters; a new id is one that no entry carries and no compaction names.

## Where the code falls short of its documentation

These are kept as the code has them, each with the exact condition under which the promise
holds and an input for which it does not.

- A fork is said to see what its source saw.  It does if and only if the source's last
  compaction keeps an entry newer than every older compaction.  `recordCompactions` computes
  the cut once per compaction from the log as the turn began, so two compactions reported by
  one turn keep the same entry, and the fork then picks the older summary
  (`SessionLineage.ForkSeesSource`, `SessionRuntime.TwoReportsHideSource`,
  `SessionRuntime.DoubleCutLosesSummary`).
- `cutover` means to give up the tokens that a plugin's new generation no longer provides, but
  reads the old tokens after `recordActivation` has overwritten them, so it gives up none: the
  graph stays wired if and only if nothing was to be given up.  A cutover refused by a taken
  token also takes its plugin away without a cascade (`HostOperations.ReplaceKeepsWiring`,
  `HostCutover.DroppedTokenIsOrphaned`).
- The same replacement may inject from a plugin that leans on the one replaced.  Then the two
  need each other, and deactivating either recurses without end: a cascade ends if and only if
  no two plugins it would reverse lean on each other (`HostReversal.CascadeEndsExactly`,
  `HostCutover.CutoverKeepsAcyclic`, `HostCutover.ChainTiedInCircle`).
- An abbreviation with a space or a hyphen is shortened by `formatInput` but measured before
  it.  Past its end the search looks for the empty string, finds it at every place, and steps
  ever further without meeting the length it compares with: the calls and rounds have no end,
  so in practice the stack runs out.  No number of them gives a value exactly on the texts the
  search should have matched (`CommandScore.SearchReturns`, `CommandScore.PastTheEnd`,
  `CommandScore.InnerSpaceNeverReturns`).  The app trims what was typed, which leaves inner
  spaces and hyphens.

The documentation promises of a boot only that a consumer listed before its provider still
activates.  More holds: as long as each setup comes to the same every time, be it a failure,
and no two provide one token, boots of two lists agree if and only if both know the same host
plugin by each id, which is whichever is listed first (`HostBoot.BootIsOrderFree`,
`HostBoot.RepeatedIdsBootApart`).  Where two plugins do provide one token, the one listed first
gets it (`HostBoot.SharedTokenBootsApart`).

## Model

| member | source | states |
|---|---|---|
| `SessionLogs.SessionLog.Write` | packages/kernel/src/session-log.ts:36-73 | Under a fresh id the log grows by exactly one entry, numbered by the length of the log and linked to the last entry of its own lane; a log grown this way stays one. |
| `SessionLogs.FindLeaf` | packages/kernel/src/session-tree.ts:50-56 | The backward search gives the last entry of the lane, or nothing when the lane has none. |
| `SessionEvents.LaneMeaning` | packages/kernel/src/session-tree.ts:20-42 | Two facts lie on one lane exactly when both are of plugins or projects, or both of one thread, usage, window and inbox facts included. |
| `SessionTree.PathIn` | packages/kernel/src/session-tree.ts:61-77 | The loop with its `seen` set ends on every map of entries, cyclic and dangling links included, and gives the path root first. |
| `SessionTree.WalkIsTheChain` | packages/kernel/src/session-tree.ts:61-77 | On any map at all the walk is a chain of parent links that repeats no entry and stops only at a null parent, at an id already seen or at an unknown id. |
| `SessionTree.PathIsTheChain` | packages/kernel/src/session-tree.ts:58-82 | The same for the path from any leaf of any log, whatever its ids and parents are. |
| `SessionTree.LaterEntryWins` | packages/kernel/src/session-tree.ts:58-60 | Of entries with one id a walk finds the last. |
| `SessionTree.PathOfLaneIsLaneFacts` | packages/kernel/src/session-tree.ts:84-91 | On every log grown by writes the linked walk of a lane is the filter of the log by that lane, in log order. |
| `SessionTree.ParentsAreOlder` | packages/kernel/src/session-log.ts:41-42 | On such a log every parent link points to an entry of the same lane with a smaller sequence number, and none lies between them. |
| `SessionMemory.ViewCompacted` | packages/kernel/src/session-tree.ts:93-106 | The backward search, slice and filter give the compacted view of any path. |
| `SessionMemory.ViewMeaning` | packages/kernel/src/session-tree.ts:93-106 | A path's view is its last compaction and then, in order, every entry from the one it keeps on but itself, or every entry when none has that id. |
| `SessionMemory.CollectAncestors` | packages/kernel/src/session-tree.ts:108-122 | The recursion through branches ends on any map of entries and any `seen` set, and gives the ancestors of the entry. |
| `SessionMemory.CollectMemory` | packages/kernel/src/session-tree.ts:124-134 | The loop over a lane's branches gives the thread's memory. |
| `SessionForks.MemoryOfIsMemory` | packages/kernel/src/session-tree.ts:108-134 | On logs whose branches reach older entries the memory computed with id maps, parent walks and `seen` sets equals a reference meaning with none of them, for fork chains of any depth. |
| `SessionForks.RawMemoryGrows` | packages/kernel/src/session-tree.ts:124-134 | Facts of a lane that do not branch add themselves to the end of its memory before compaction, and facts of other lanes add nothing. |
| `SessionForks.InheritanceIsSettled` | packages/kernel/src/session-tree.ts:108-122 | What a chain of branches inherits is settled by the log as it stood: no later write changes it. |
| `SessionForks.ViewIsStable` | packages/kernel/src/session-tree.ts:93-106 | A compacted view with later facts behind it is its own compacted view if and only if its last compaction kept an entry newer than every other compaction. |
| `SessionForks.ViewExtends` | packages/kernel/src/session-tree.ts:93-106 | Facts written after a path's last compaction only extend its view. |
| `SessionLineage.MemoryReachesOnce` | packages/kernel/src/session-tree.ts:108-134 | In a session written by the runtime no entry is reached twice through any chain of forks. |
| `SessionLineage.ForkInheritsSource` | packages/harness/src/runtime-fn.ts:711-766 | A fork, of any depth, starts from exactly the source's visible memory at the fork point and adds its own lane. |
| `SessionLineage.ForkSeesSource` | packages/harness/src/runtime-fn.ts:711-766 | Fork fidelity: a fork with no compaction of its own sees the source's visible memory at the fork point followed by its own lane, whatever is written later, if and only if the source's last compaction cleared the older ones. |
| `SessionCuts.MemoryIsLineageView` | packages/kernel/src/session-tree.ts:93-134 | When every compaction keeps an entry newer than the compactions before it, compacting at each level of a chain of forks equals one compaction of the whole lineage. |
| `SessionCuts.ViewsCompose` | packages/kernel/src/session-tree.ts:93-106 | Compacting the older part of a path first changes nothing. |
| `SessionCuts.FindCompactionCut` | packages/kernel/src/session-tree.ts:147-157 | The backward search gives the cut. |
| `SessionCuts.CutKeepsRequest` | packages/kernel/src/session-tree.ts:142-157 | The cut is the latest user message the thread remembers, its last entry when it remembers none, and nothing in an empty memory. |
| `SessionCuts.RequestStaysVisible` | packages/kernel/src/session-tree.ts:142-157 | After a compaction the latest request is still visible, behind compactions only, and no older fact is that is no compaction and was not recorded since. |
| `SessionCuts.CompactionReplaces` | packages/kernel/src/session-tree.ts:93-106 | Compaction law: a compaction written at an earlier state's cut heads the new memory and, compactions apart, the facts behind it are those visible from the cut on, in order, then what the thread recorded since, whatever other compactions stand among them, as long as the thread was not forked into meanwhile. |
| `SessionRuntime.Fork` | packages/harness/src/runtime-fn.ts:711-766 | Forking any thread into any writes the target's configuration and, when the source has a leaf, one branch from it. The target then inherits what it had inherited before, then exactly the source's memory; into a thread never forked or continued the session stays lived and the target starts from the source's memory alone. |
| `SessionRuntime.RecordCompactions` | packages/harness/src/runtime-fn.ts:319-340 | One fact per reported compaction, in order, every one keeping the cut of the log as the turn began; the compaction law holds of each of them as it was written. |
| `SessionRuntime.Compact` | packages/harness/src/runtime-fn.ts:767-794 | One compaction is written at the cut of the log the harness was handed, and, as long as the thread was not forked into meanwhile, the compaction law holds of the memory read back, whatever was written in between: the latest request seen is still visible and nothing older but compactions is. |
| `SessionRuntime.PlainWriteKeepsSession` | packages/kernel/src/session-log.ts:59-73 | Any fact that neither branches nor compacts keeps the session in the form the fork theorems need. |
| `SessionRuntime.BranchWriteKeepsSession` | packages/harness/src/runtime-fn.ts:743-766 | So does a branch of a thread nobody continues yet, and it continues the lane of the entry it names. |
| `SessionRuntime.CompactionWriteKeepsSession` | packages/harness/src/runtime-fn.ts:319-340 | So does a compaction at the cut of any earlier state of the log. |
| `SessionRuntime.DoubleCutHidesSource` | packages/harness/src/runtime-fn.ts:319-340 | Fidelity fails whenever the entry the source's last compaction keeps is no newer than some older compaction. |
| `SessionRuntime.TwoReportsHideSource` | packages/harness/src/runtime-fn.ts:319-340 | So it does after any turn that reported two compactions, recorded as `recordCompactions` records them, until the source compacts again. |
| `SessionRuntime.DoubleCutLosesSummary` | packages/harness/src/runtime-fn.ts:319-340 | A concrete four-entry session in which the fork has lost the newer of its source's two summaries. |
| `ThreadFold.FoldThread` | packages/harness/src/session-fold.ts:46-111 | The loop over the lane's path computes the fold of its facts. |
| `ThreadFold.WriteStepsOneThread` | packages/harness/src/session-fold.ts:46-111 | Writing one fact advances its own thread's fold by exactly one step and leaves every other thread's state and work unchanged. |
| `ThreadFold.PendingMeaning` | packages/harness/src/session-fold.ts:81-96 | `pending` lists, oldest first and once each, exactly the calls requested and not completed since, each as it was last requested. |
| `ThreadFold.DecisionMeaning` | packages/harness/src/session-fold.ts:97-99 | The verdict a fold reports on a request is the first one recorded on the lane. |
| `ThreadFold.AwaitingMeaning` | packages/harness/src/session-fold.ts:65-96 | The model is awaited exactly when the latest signal on the lane is a user message or a tool's result. |
| `ThreadFold.OpenTurnMeaning` | packages/harness/src/session-fold.ts:65-78 | A turn is open exactly from its start to the next assistant message or failure. |
| `ThreadFold.WorkMeaning` | packages/harness/src/session-fold.ts:113-123 | The request open longest is worked first and goes by its first verdict; the model is called only with no request open, for the open turn; nothing is done only when nothing is open or awaited. |
| `ThreadFold.PendingCallMeaning` | packages/harness/src/session-fold.ts:131-136 | A call is found pending exactly while its request is open, as it was last requested. |
| `TurnDriver.RunsKeepInvariant` | packages/harness/src/runtime-fn.ts:409-598 | Every interleaving of drains, waiters and other writers keeps the invariant the safety results rest on. |
| `TurnDriver.ReadMeaning` | packages/harness/src/runtime-fn.ts:409-451 | What a drain does next is settled by its lane's facts alone: with nothing open it is done, or in a turn when the latest signal is a user message or a result; otherwise it waits on, denies or runs the request open longest, by the first verdict on it. |
| `TurnDriver.VerdictIsActedOn` | packages/harness/src/runtime-fn.ts:415-451 | A drain that got its verdict next runs that call, or records its denial, as long as it is the one open longest. |
| `TurnDriver.ApprovedIsSettled` | packages/harness/src/runtime-fn.ts:434-451 | An approved call read, run and completed has one new completion on the log, with its turn, call, name, outcome and result; it is closed, and the drain reads again. |
| `TurnDriver.DeniedIsSettled` | packages/harness/src/runtime-fn.ts:419-433 | A denied call read and refused has one new completion that is not ok and says so; it is closed, and the drain reads again. |
| `TurnDriver.CompletionsCarryRuns` | packages/harness/src/runtime-fn.ts:434-451 | In every run each completion a drain recorded carries what its own run of that very call came to, the thread's last deed before it. |
| `TurnDriver.KickedGoesByLane` | packages/harness/src/runtime-fn.ts:582-598 | A kick starts a drain that goes by its lane, and leaves one that runs alone; a drain whose turn ended goes by its lane again. |
| `TurnDriver.SentMessageIsTaken` | packages/harness/src/runtime-fn.ts:582-640 | A message sent to a thread at rest with no request open, and noted in its inbox, is on its lane, and the drain kicked for it is in a turn after its first read. |
| `TurnDriver.ApprovalSafety` | packages/harness/src/runtime-fn.ts:409-451 | In every run a tool a drain ran was approved first, before it ran and for good; a denied call is never run and gets its not-ok completion; a drain runs or denies a call at most once per request, and each run but the one in flight recorded its one completion, which closes the request. |
| `TurnDriver.DecisionAgreement` | packages/harness/src/runtime-fn.ts:342-366 | Everyone who waited for one verdict, callers and the drain alike, got the same one, whether from the first look, the second or the live stream, and every fold agrees, then and in any extension of the log. |
| `TurnDriver.ListenersMissNothing` | packages/harness/src/runtime-fn.ts:342-366 | Once a verdict is on the lane every waiter can go on, and one that listens hears exactly that verdict. |
| `TurnDriver.LateCallerGetsVerdict` | packages/harness/src/runtime-fn.ts:347-348 | A caller that asks when a verdict on its request is recorded has it after one look. |
| `TurnDriver.EarlyCallerHearsVerdict` | packages/harness/src/runtime-fn.ts:349-365 | One that asks before looks again, then listens, and hears the first verdict on its request, whatever else is written first. |
| `TurnDriver.VerdictStands` | packages/harness/src/session-fold.ts:97-99 | A first verdict never changes in any extension of the log. |
| `TurnSettlement.CompletedAtMostOnce` | packages/harness/src/runtime-fn.ts:236-258 | In the log itself, over every run of drains, turns and other writers from a log where this holds, as it does of the empty one, a turn's call never has more completions than requests, and has fewer while its request is the open one; so the next host may start from the log left. |
| `TurnSettlement.EmptyLogOwesNothing` | packages/kernel/src/session-log.ts:36-73 | An empty session is such a log. |
| `TurnSettlement.CallsOnLane` | packages/harness/src/runtime-fn.ts:214-246 | The recorder's checks over the whole log for a request or completion of a turn's call find one exactly when the thread's lane has one. |
| `TurnSettlement.RecordingIsDriven` | packages/harness/src/runtime-fn.ts:165-289 | Each fact `PersistTurn` adds to the lane, whatever others wrote before it, is one the turning drain may take as its step in any system with that log: every completion among them is of a call requested by then and not yet completed. |
| `TurnHistory.CollectHistory` | packages/harness/src/history.ts:12-58 | The loop over the visible path gives the history. |
| `TurnHistory.HistoryMeaning` | packages/harness/src/history.ts:12-58 | A history is told by the thread's visible facts, in order and item by item: messages of user and assistant, calls, results, and as user messages the summaries of compactions and forks; no other fact tells anything. |
| `TurnHistory.HistoryStartsWithSummary` | packages/harness/src/history.ts:36-38 | The history of a thread whose memory starts with a compaction starts with its summary as a user message. |
| `TurnHistory.CompactedHistory` | packages/harness/src/runtime-fn.ts:767-794 | So it does right after a compaction was recorded, with the summary the harness gave. |
| `TurnHistory.ForkedHistory` | packages/harness/src/runtime-fn.ts:711-766 | A thread just forked from one whose last compaction cleared the older ones has its source's history and then the summary the fork carried, if any. |
| `TurnHistory.HistoryExtends` | packages/harness/src/history.ts:12-58 | Plain facts of a thread add their own projection to its history and change nothing before it; facts of other lanes, forks and compactions among them, add nothing. |
| `TurnHistory.CollectToolResults` | packages/harness/src/runtime-fn.ts:157-163 | The loop over a turn's items fills the map of outputs. |
| `TurnHistory.ToolResultsMeaning` | packages/harness/src/runtime-fn.ts:157-163 | A call has an output exactly when an item gives one, and the last one given counts. |
| `TurnHistory.PersistTurn` | packages/harness/src/runtime-fn.ts:165-289 | Recording a finished turn while others write in between, anything on other lanes and messages on its own, and reading the history back gives the history before it and then the canonical form of the turn's items, in order and with only others' messages between, and exactly that form when the lane gained nothing else, whatever the turn had already requested or completed while it ran; a lived session stays lived. |
| `TurnHistory.TurnFactsAreCanonical` | packages/harness/src/runtime-fn.ts:173-258 | The facts of a turn project to its canonical form: assistant runs merged up to the next user message or call, each result beside its call, reasoning and the first echo of the prompt dropped, nothing asked or answered twice. |
| `TurnHistory.RecordedFromItems` | packages/harness/src/runtime-fn.ts:222-257 | Every tool fact the thread gains while a turn is recorded is of a call among its items, with its name and arguments, or its last output and the outcome the harness reported, ok when it reported none. |
| `ThreadUsage.FoldThreadUsage` | packages/kernel/src/session-fold.ts:258-269 | The loop over the lane computes a thread's totals. |
| `ThreadUsage.RecordingAddsUsage` | packages/harness/src/runtime-fn.ts:260-288 | Recording a turn adds to the thread's totals of input, output and cost exactly what the harness reported of it, missing counts being none, whatever others wrote meanwhile. |
| `PluginHosts.Registry.Provide` | packages/kernel/src/registry.ts:134-159 | Providing a token sets its owner, taking it over when another had it, and touches no other cell. |
| `PluginHosts.Registry.Remove` | packages/kernel/src/registry.ts:161-170 | Removing a token clears its cell only for the owner that asks. |
| `HostResolve.Resolve` | packages/kernel/src/resolve.ts:11-30 | The loops give the first plugin of each id in the order listed, and what each of them misses. |
| `HostResolve.KnownIsFirst` | packages/kernel/src/resolve.ts:15-18 | Each id is known by the first plugin listed under it, and an unknown id by none. |
| `HostResolve.RepeatedIdsKeepFirst` | packages/kernel/src/resolve.ts:15-18 | With a repeated id the two orders of a list know different plugins by it. |
| `HostResolve.ResolvedOrder` | packages/kernel/src/resolve.ts:19-19 | The resolved order holds every known plugin exactly once. |
| `HostResolve.BlockedAtMeaning` | packages/kernel/src/resolve.ts:20-28 | A resolution blocks exactly the plugins with an inject outside the baseline, and names what they miss. |
| `HostLifecycle.DecisionFollowsFold` | packages/kernel/src/host-lifecycle.ts:40-60 | What the recorder decides to write keeps its set equal to the fold of any journal, and keeps the facts it adds alternating. |
| `HostLifecycle.RestartRecovers` | packages/kernel/src/host-lifecycle.ts:28-83 | Fed any events after any journal the recorder agrees with what it wrote, and a restart wants exactly what the journal left active once any plugin fact was written, every known plugin before that. |
| `HostGraph.JournalMeaning` | packages/kernel/src/host-lifecycle.ts:40-60 | A host fact changes the recorded state of its own plugin only, and repeats are not written. |
| `HostGraph.FoldMeaning` | packages/kernel/src/session-fold.ts:25-58 | The journal leaves exactly the plugins activated and not deactivated since, once each, in the order they became active. |
| `HostGraph.InstallKeepsWiring` | packages/kernel/src/host.ts:455-482 | Installing a plugin whose injects are owned and whose tokens are free keeps the provider graph wired: injects owned by active plugins, owners active, tokens owned, contributions of active plugins only, the journal in agreement. |
| `HostGraph.InstallKeepsOrder` | packages/kernel/src/host.ts:455-482 | It also keeps dependencies pointing to earlier activations. |
| `HostLeaning.InstallKeepsAcyclic` | packages/kernel/src/host.ts:455-482 | And it makes no circle: where no two plugins lean on each other through others, none do after it. |
| `HostLeaning.OrderedIsAcyclic` | packages/kernel/src/host.ts:622-652 | A graph in activation order has no circles; having none is what every operation but a replacement keeps, order or not. |
| `HostOperations.AttemptMeaning` | packages/kernel/src/host.ts:363-482 | Each outcome of an install happens exactly when it should, and an install that fails changes no provider and no contribution. |
| `HostOperations.AttemptLeavesAlone` | packages/kernel/src/host.ts:455-467 | Installing a plugin that is live already, or a thread's plugin on the host, changes nothing; the first answers with the tokens it provides. |
| `HostOperations.AttemptStores` | packages/kernel/src/host.ts:476-479 | An install leaves every live plugin live with its contributions, and of its own stores just what its setup provided, in order. |
| `PluginHosts.PluginHost.PublishServices` | packages/kernel/src/host.ts:363-383 | A token owned by another plugin refuses the whole publication and changes nothing; otherwise all tokens are provided. |
| `PluginHosts.PluginHost.CloseScope` | packages/kernel/src/host.ts:305-361 | Closing a scope reverses its plugin only while that generation is the live one. |
| `PluginHosts.PluginHost.Install` | packages/kernel/src/host.ts:455-482 | The step-by-step install comes to the specified attempt, whatever the setup does. |
| `PluginHosts.PluginHost.RefreshBlocked` | packages/kernel/src/host.ts:219-233 | The loop recomputes the blocked map from scratch. |
| `HostOperations.BlockedMeaning` | packages/kernel/src/host.ts:213-233 | Blocked are exactly the wanted host plugins that are not live and miss an inject, each with exactly the tokens it misses. |
| `PluginHosts.PluginHost.Reconcile` | packages/kernel/src/host.ts:515-541 | Reconciling ends from any state of the host, only adds wanted plugins, refreshes what is blocked and keeps a wired graph wired, in order and free of circles where it was. With setups that come to the same each time, be it a failure, and share no token, what is live stays within the least set closed under satisfied injects above what was, and is all of it unless the first wanted plugin with its injects met has a setup that fails. |
| `HostOperations.StoppedByFailure` | packages/kernel/src/host.ts:515-541 | Only a candidate whose setup fails stops a reconcile short of that set. |
| `PluginHosts.PluginHost.Boot` | packages/kernel/src/host.ts:739-751 | A boot from any journal ends, leaves a wired and ordered graph and an exact blocked map, wants what the journal recovers, and, with setups that come to the same each time and share no token, activates exactly the least set of wanted plugins closed under satisfied injects and successful setups: a failing setup stops no other plugin. |
| `PluginHosts.PluginHost.InstallRound` | packages/kernel/src/host.ts:741-749 | One round tries every wanted plugin in the order listed, and what goes live in it stands in that order. |
| `HostFixpoint.StuckIsLeast` | packages/kernel/src/host.ts:739-751 | A graph in which nothing wanted whose setup succeeds can still be installed, and which never left the bound, holds exactly the least closed set. |
| `HostBoot.BootIsOrderFree` | packages/kernel/src/host.ts:739-751 | Two lists boot alike, from every journal and in every world whose setups come to the same each time, failures included, and share no token, with the same plugins active, every token resolved alike and the same plugins blocked for the same tokens, if and only if they know the same host plugin by each id. |
| `HostBoot.RepeatedIdsBootApart` | packages/kernel/src/resolve.ts:15-18 | And two host plugins of one id with different injects boot apart when listed in the other order. |
| `HostBoot.SharedTokenBootsApart` | packages/kernel/src/host.ts:739-751 | And where setups do share a token, two host plugins with ids of their own boot apart too: the one tried first goes live and the other is refused in every round. |
| `HostBoot.PermutationBootsAlike` | packages/kernel/src/host.ts:739-751 | So a list without repeated ids boots like any permutation of it. |
| `PluginHosts.PluginHost.Activate` | packages/kernel/src/host.ts:594-620 | From any state of the host, activating remembers and wants the plugin, installs it as specified and reconciles; the graph stays wired, in order and free of circles where it was, and when the install succeeds the plugin is active with the contributions its setup provided. |
| `PluginHosts.PluginHost.DeactivateBody` | packages/kernel/src/host.ts:622-652 | The recursion over the live graph, which closes scopes as it goes, comes to the specified cascade whenever that ends. |
| `PluginHosts.PluginHost.Deactivate` | packages/kernel/src/host.ts:654-675 | A deactivated plugin is unwanted and not active; of a wired graph exactly it and what leans on it was reversed, dependents before providers, each with its own fact; only wanted plugins come back by reconciling; wiring, order and freedom from circles are kept. |
| `HostReversal.CascadeEndsExactly` | packages/kernel/src/host.ts:622-652 | The recursive cascade above a plugin ends if and only if no two plugins it would reverse lean on each other, in every graph a host can hold, the unwired ones that unsafe replacements leave included. |
| `HostReversal.AcyclicCascadesEnd` | packages/kernel/src/host.ts:622-652 | So in such a graph without circles every deactivation ends, in whatever order things were activated. |
| `HostReversal.CascadeIsExact` | packages/kernel/src/host.ts:622-652 | A cascade that ends reverses the plugin and its transitive dependents, each once, dependents before providers, and nothing else; the rest stays wired, in order and free of circles where it was. |
| `HostCascade.DependentsCarryClosure` | packages/kernel/src/host.ts:634-641 | What leans on a plugin's direct dependents is what leans on it, less the plugin itself. |
| `HostCascade.DependentsInOrder` | packages/kernel/src/host.ts:634-640 | Dependents are reversed in the order they were activated. |
| `HostCascade.CutKeepsWiring` | packages/kernel/src/host.ts:622-652 | Reversing a set of plugins that holds everything that needs it leaves the rest wired. |
| `HostCascade.ClosingIsCut` | packages/kernel/src/host.ts:305-361 | Closing an active plugin's live scope takes away that plugin, its tokens and its contributions, and nothing else. |
| `HostCascade.CascadeCompletes` | packages/kernel/src/host.ts:641-652 | With its dependents gone a plugin can be reversed alone, and that completes its cascade. |
| `PluginHosts.PluginHost.Cutover` | packages/kernel/src/host.ts:484-513 | The step-by-step cutover comes to the specified attempt, refusals included. |
| `HostOperations.CutoverMeaning` | packages/kernel/src/host.ts:484-513 | Case by case: a missing inject or a failing setup changes nothing; a published cutover puts the new activation in the old one's place, gives it its tokens beside those already owned and replaces its contributions by the new ones, in order, every other plugin's being as they were; a refused one takes the plugin away with its contributions and the tokens it asked for. |
| `HostOperations.ReplaceKeepsWiring` | packages/kernel/src/host.ts:484-513 | A replacement leaves the graph wired if and only if its new generation gives up no token and, when it is refused, no other active plugin needs it. |
| `HostOperations.ReplaceKeepsShape` | packages/kernel/src/host.ts:677-707 | A replacement of a wired graph, refused or not, loses activation order, or makes a circle, if and only if it publishes an inject that does so. |
| `HostCutover.CutoverKeepsWiring` | packages/kernel/src/host.ts:499-511 | A published cutover keeps the graph wired if and only if the new tokens include the old ones, because the tokens to drop are read after the new ones were recorded. |
| `HostCutover.CutoverKeepsOrder` | packages/kernel/src/host.ts:484-513 | It keeps activation order if and only if every new inject is owned by a plugin activated earlier. |
| `HostCutover.CutoverKeepsAcyclic` | packages/kernel/src/host.ts:484-513 | It makes a circle if and only if it injects from a plugin that leans on the one replaced. |
| `HostCutover.DroppedTokenIsOrphaned` | packages/kernel/src/host.ts:504-509 | A concrete case: a plugin that provided a token, replaced by a generation that provides none, leaves the token owned by a plugin that does not provide it. |
| `HostCutover.ReplacingCanTangle` | packages/kernel/src/host.ts:484-513 | A new generation that injects from its own dependent leaves two plugins that need each other, and a cascade from either never ends. |
| `HostCutover.ChainTiedInCircle` | packages/kernel/src/host.ts:484-513 | For one: a plugin that provides one token, a second that injects it and provides another, and a new generation of the first that injects that other: wired after, and no deactivation of either ends. |
| `HostCutover.RefusalKeepsWiring` | packages/kernel/src/host.ts:500-502 | A refused cutover removes the plugin without a cascade, which is safe if and only if it asked for all its old tokens and nothing else needs it. |
| `HostCutover.RefusalKeepsShape` | packages/kernel/src/host.ts:500-502 | Safe or not, it keeps activation order and makes no circle. |
| `PluginHosts.PluginHost.Replace` | packages/kernel/src/host.ts:677-707 | From any state of the host, a replacement wants the plugin, comes to the specified cutover or install and reconciles from there; one that succeeds leaves the plugin active with exactly the contributions of its new setup; a safe one leaves a wired graph wired, and in order or free of circles where it was and its new injects allow it. |
| `CommandScore.Memo.Search` | plugins/chat-ui/src/ui/command-score.ts:47-139 | The search in place, its cache included, comes to the specified run whenever that ends; from a sound cache it returns the score and leaves the cache sound. |
| `CommandScore.LastLetterStays` | plugins/chat-ui/src/ui/command-score.ts:108-127 | At the last letter the transposition arm is never taken, so no search steps past the abbreviation. |
| `CommandScore.ScoreIsFraction` | plugins/chat-ui/src/ui/command-score.ts:47-139 | Every score lies between 0 and 1. |
| `CommandScore.PositiveWhenSpelled` | plugins/chat-ui/src/ui/command-score.ts:47-139 | For an abbreviation that formatting leaves whole there always is a score, positive exactly when the abbreviation is spelled in the text, swapped and doubled letters allowed. |
| `CommandScore.SubsequenceIsSpelled` | plugins/chat-ui/src/ui/command-score.ts:69-80 | Every subsequence is spelled. |
| `CommandScore.FullScoreIsEqual` | plugins/chat-ui/src/ui/command-score.ts:47-139 | Only equal strings score 1. |
| `CommandScore.EqualScoresFull` | plugins/chat-ui/src/ui/command-score.ts:47-139 | Equal strings do score 1. |
| `CommandScore.WeighShrinks` | plugins/chat-ui/src/ui/command-score.ts:80-106 | Weighing keeps a score positive, never raises it, and leaves it whole exactly for the next letter in its own case. |
| `CommandScore.WeighExactly` | plugins/chat-ui/src/ui/command-score.ts:80-106 | What a match keeps of the score of the rest, exactly: the worth of its kind, a thousandth off for each break of its sort, or letter, passed over, unless it is the first found, and a ten-thousandth off for the wrong case. |
| `CommandScore.JumpsRank` | plugins/chat-ui/src/ui/command-score.ts:1-10 | At equal score of the rest a better kind of match wins anywhere in the text, in either case and past up to a hundred skipped letters: the next letter over a new word after a space, that over one after another gap, that over any other letter. |
| `CommandScore.SkippingMoreCostsMore` | plugins/chat-ui/src/ui/command-score.ts:16-23 | After the first match each skipped letter or break lowers the score. |
| `CommandScore.SearchReturns` | plugins/chat-ui/src/ui/command-score.ts:141-162 | Unless lower-casing made more letters of an abbreviation, no number of calls gives the search a value, starting with an empty cache, if and only if what formatting leaves of the abbreviation is shorter than it and spelled in the text; in every other case it returns, and returns 0 if it is shorter. Where lower-casing keeps lengths, it is shorter exactly when it holds a space or a hyphen. |
| `CommandScore.NeverReturnsWhenSpelled` | plugins/chat-ui/src/ui/command-score.ts:68-135 | For a shortened abbreviation there is no score exactly when the rest is spelled, and the score is 0 otherwise. |
| `CommandScore.PastTheEnd` | plugins/chat-ui/src/ui/command-score.ts:58-135 | Past the end of the lowered abbreviation, but not at the length the search measures, no number of calls and rounds gives a value, whatever scores are cached: the empty string is found everywhere and each arm only searches further. |
| `CommandScore.RunIsScore` | plugins/chat-ui/src/ui/command-score.ts:47-139 | Whatever number of calls and rounds gives a value, from whatever sound cache, it is the score computed with no cache, and the cache stays sound. |
| `CommandScore.RunReturns` | plugins/chat-ui/src/ui/command-score.ts:47-139 | Where there is a score, a number of calls bounded by the two lengths gives it from any sound cache. |
| `CommandScore.ScoreIsBest` | plugins/chat-ui/src/ui/command-score.ts:68-135 | A score is the best of what the matches of the next letter offer, each the weighed score of the rest or a tenth of a transposition's: none offers more, and a positive score is what one of them offers. |
| `CommandScore.SlashStartsWord` | plugins/chat-ui/src/ui/command-score.ts:80-86 | For one: in `ab/b` the letter after the slash is found, at 0.8, not the one before it. |
| `CommandScore.LeftOverCosts` | plugins/chat-ui/src/ui/command-score.ts:34-43 | Where more or less of the text is left than was typed no score is above 0.99. |
| `CommandScore.BeginningScores` | plugins/chat-ui/src/ui/command-score.ts:34-43 | Typing how a longer text begins scores exactly 0.99, below typing all of it. |
| `CommandScore.InnerSpaceNeverReturns` | plugins/chat-ui/src/ui/command-score.ts:141-162 | For one: two letters typed with a space between them for the text of just these letters. |
| `CommandScore.JoinedInTurn` | plugins/chat-ui/src/ui/command-score.ts:151-152 | Aliases are searched as if each were written on to the text in turn. |
| `CommandScore.CommandScore` | plugins/chat-ui/src/ui/command-score.ts:146-162 | What a caller gets wherever the search returns: a score from 0 to 1, 1 only for the joined text itself; and, unless lower-casing made more letters of what was typed, 1 exactly for it and positive exactly when what was typed is spelled. |
| `UiSlots.ResolveUiAssignments` | packages/ui/src/slots.ts:76-123 | Grouping in a map and assigning slot by slot computes the specified resolution. |
| `UiSlots.ResolvedMeaning` | packages/ui/src/slots.ts:76-123 | The result is sorted, gives additive slots every claim as often as it was made, and an exclusive slot the claim its override names or else its least. |
| `UiSlots.ResolvedIsOrderFree` | packages/ui/src/slots.ts:66-71 | For a total order on names the result is the same for every permutation of the claims. |
| `UiSlots.ExclusiveSlotsGetOne` | packages/ui/src/slots.ts:97-115 | A claimed exclusive slot gets exactly one assignment, an unclaimed one none. |
| `UiSlots.OverrideFills` | packages/ui/src/slots.ts:97-105 | An override that names a claim of the composer or the conversation as plugin and definition fills that slot with it. |
| `UiSlots.LeastFills` | packages/ui/src/slots.ts:97-115 | Otherwise the slot goes to its least claim, by plugin and then by definition. |
| `UiSlots.ResolvedInOrder` | packages/ui/src/slots.ts:117-122 | Assignments come by the name of their slot, then by plugin, then by definition. |
| `UiSlots.SortSorts` | packages/ui/src/slots.ts:81-84 | Sorting gives a sorted permutation. |
| `PanelModel.RunsStayConsistent` | apps/oru/src/root.ts:1421-1702 | Over all message sequences tab ids stay unique and titles distinct, the active tab is undefined exactly when no tab is open and otherwise names one, and every panel outlet belongs to an open tab and shows the current bundle's generation. |
| `PanelModel.SnapshotSettles` | apps/oru/src/root.ts:1537-1570 | After a snapshot each slot shows or awaits what it was offered and is empty when offered nothing, tabs keep their sessions, and the same snapshot again, whatever code was loaded since, changes nothing and loads nothing. |
| `PanelModel.OfferedMeaning` | apps/oru/src/root.ts:1537-1568 | A slot is offered the first bundle carried for its first assignment, and nothing when either is missing. |
| `PanelModel.SnapshotLoads` | apps/oru/src/root.ts:1296-1412 | A snapshot loads code for just those slots whose offer is neither shown nor awaited nor loaded yet, the composer's first, then the conversation's, then the panel's. |
| `PanelModel.SnapshotShows` | apps/oru/src/root.ts:1296-1349 | An exclusive slot keeps what is offered still, mounts a new offer afresh when its code is loaded, awaits it when not, and is emptied when offered nothing. |
| `PanelModel.SnapshotMounts` | apps/oru/src/root.ts:1366-1412 | The panel keeps every outlet while its bundle is offered, drops them all for a new one, mounted at every tab when its code is loaded, and is emptied when offered nothing. |
| `PanelModel.HostIsAskedInTurn` | apps/oru/src/root.ts:1639-1698 | Over every run one terminal is asked for at a time, each but the last answered, and a session is ended at most as often as its tab was opened. |
| `PanelModel.AskedWhenFree` | apps/oru/src/root.ts:1639-1671 | A new terminal is asked for when none is being created, not while one is, and again once that failed. |
| `PanelModel.MountTabs` | apps/oru/src/root.ts:1213-1237 | The loop that mounts the bundle computes the specified outlets. |
| `PanelModel.MountFillsTabs` | apps/oru/src/root.ts:1213-1237 | Mounting gives every open tab an outlet and touches none that was there. |
| `PanelModel.MountedAfresh` | apps/oru/src/root.ts:1213-1237 | Each outlet it gives is fresh from the code and has absorbed its tab and the selected thread once. |
| `PanelModel.RefreshTabs` | apps/oru/src/root.ts:1184-1206 | The loop that refreshes props, each tab and the thread selected, computes the specified outlets. |
| `PanelModel.ChangedUrlReachesTabs` | apps/oru/src/root.ts:1184-1206 | Going to another thread has the outlet of every mounted tab absorb that tab and the new thread, once, and changes no tab and no other part of the panel. |
| `PanelModel.ChangedUrlReachesComposer` | apps/oru/src/root.ts:957-972 | And the composer's outlet absorbs the new thread when it is mounted from loaded code. |
| `PanelModel.ResyncKeepsConsistent` | apps/oru/src/root.ts:1184-1206 | Refreshing props keeps every outlet with its tab and generation. |
| `PanelModel.ArrivedBundleMounts` | apps/oru/src/root.ts:1571-1600 | Code that arrives fills the slot that awaits that very generation with a fresh child and leaves the other slot, the tabs, their outlets and all else unchanged; code of another generation changes nothing. |
| `PanelModel.ArrivedPanelMounts` | apps/oru/src/root.ts:1571-1600 | The panel's code gives each tab without an outlet one exactly when it is of the generation the panel shows, and touches no other outlet and nothing else. |
| `PanelModel.FailedBundleShows` | apps/oru/src/root.ts:1601-1638 | Code that fails to load marks the slot that waits for it, or for the panel shows an error, and changes nothing else. |
| `PanelModel.PanelUiReachesOne` | apps/oru/src/root.ts:1239-1262 | A message of one tab's outlet advances that outlet by its own code and no other. |
| `PanelModel.CreatingShowsTab` | apps/oru/src/root.ts:1646-1667 | A new session opens the next numbered tab and shows it, with an outlet when the code is loaded; a known session is only shown. |
| `PanelModel.ClosingShowsLast` | apps/oru/src/root.ts:1679-1698 | Closing a tab removes it and its outlet and no other, and shows the last tab left when the shown one was closed. |
| `PanelModel.ClicksReachOpenTabs` | apps/oru/src/root.ts:1675-1698 | A click shows an open tab, closing one ends its session just once, and a tab that is not open is left alone. |
| `Migrations.Plan` | packages/kernel/src/sqlite-migrate.ts:40-49 | Ahead exactly when an applied tag is unknown, ready exactly when all ran in order, pending exactly for a proper prefix, with the rest to run. |
| `Migrations.UnknownTagsInOrder` | packages/kernel/src/sqlite-migrate.ts:40-49 | The unknown tags reported are those applied that the chain does not have, each as often as applied, in that order. |
| `Migrations.Ledger.RunPending` | packages/kernel/src/sqlite-migrate.ts:97-108 | A run that dies after some migrations has committed exactly their rows. |
| `Migrations.CrashLeavesPrefix` | packages/kernel/src/sqlite-migrate.ts:92-108 | With increasing tags a ledger read after a crash is the part of the chain that ran. |
| `Migrations.CrashNeverDiverges` | packages/kernel/src/sqlite-migrate.ts:40-108 | For tags that do not repeat, no crash leaves a ledger that is planned as diverged if and only if the tags increase. |

## Left out

- PluginHosts.PluginHost.Deactivate: asks that its cascade ends (`HostReversal.CascadeEndsExactly` says exactly when); what is left of a graph when the program's recursion overflows is not modelled.
- PluginHosts.PluginHost.Replace: what reconciling makes of a graph that an unsafe replacement left unwired is stated by its additions only, not as a least closed set.
- HostBoot.BootIsOrderFree: asks that each setup comes to the same every time and no two provide one token; which plugins go live when setups change from one attempt to the next is not stated.
- PluginHosts.PluginHost.Reconcile: a reconcile stops at the first install that fails, unlike a boot, so which plugins are live when one fails is stated from both sides only, not as a function of the order they were wanted in.
- SessionRuntime.Fork: into a thread that was forked into or continued before, its memory before compaction is stated but not fidelity to the source's view.
- SessionLogs.SessionLog.Write: asks for an id no entry carries; the journal's own primary key is not modelled.
- TurnDriver.ApprovalSafety: other writers may append anything but a tool's completion, as nothing else in the program writes one; a turn may append any facts of its thread, completions only of calls requested and not completed, which `TurnSettlement.RecordingIsDriven` shows of the recorder.  That a denied call is never run speaks of the drain's own tool runs: the `executeTool` callback that the drain hands to a harness runs any tool by name, looks at no verdict and writes nothing, and is not modelled.
- TurnDriver.ListenersMissNothing: that a waiter is scheduled is not stated; nor is that a drain makes progress, that every user message is answered or that a kick racing a finishing drain is kept, none of which the code gives.
- TurnHistory.PersistTurn: between the recorder's own writes nobody forks into, compacts or writes tool or usage facts of the very thread it records; on other lanes anything may happen.
- CommandScore.CommandScore: reals, not floating point; it promises nothing where the search does not return, and for the few letters that lower-casing turns into more than one it is not stated when that is.
- A drain that dies between running a tool and recording its result, the end of a live stream without a verdict, and steering and inbox facts beyond their place in the log.
- Plugins on thread lanes: thread registries, thread scopes and their reconciling; deactivating a host provider does not cascade into them.
- The values of services (a cell holds its owner only), facades, configuration decoding, boot steps, provider events and the generation's bundle address.
- Effects, fibers, queues and scopes as a library: an operation under the host's lock is one method, a scope is its reversal, an emitted fact is recorded before the operation goes on.
- The folds of a thread's configuration, working directory, names and projects; the one-line summary a fork carries, its working directory and its configuration are parameters of `Fork`.
- The text a harness is sent, tools' own behaviour, models and health; images in messages; schema errors on empty texts.
- Warnings of slot resolution, titles of claims, and the views, routes, settings and composer signals around the outlets; a tab's props are the tab and the selected thread, the composer's the selected thread.
- SQL, files and clocks of the migration runner.
