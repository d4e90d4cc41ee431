# SSHub: a Dafny model of its algorithms and protocols

SSHub is a terminal application that manages SSH hosts. This project models the
parts of it that carry an algorithm or a protocol and proves what they promise:
the collapsible host tree, the group editor behind it, the server-to-server SFTP
relay with its two workers, the debounced file watcher, loading and migrating the
configuration, session logs, session tabs with the clipboard relay, reconnect
back-off, and the parsers, printers and encoders.

`dafny verify dfyconfig.toml` checks everything. Code that updates state in the
source is a class or a method with a loop here, proved equal to a function on
values; the theorems are about those functions.

| files | area |
|---|---|
| `Groups`, `Sections`, `HostList`, `HostOrder`, `HostTree` | group forest, flattening, rows, sort order, filtering, reveal and fold |
| `Relay`, `RelaySystem`, `RelaySafety`, `RelayScratch`, `RelayResults`, `RelayLoss`, `RelayProgress`, `RelayDelivery` | relay handlers, all interleavings with the workers, what they keep, the scratch directory, what a run achieves, when a command is lost, that a relay can end, what has arrived when it does |
| `Watcher` | debounce loop over a virtual clock |
| `TomlMerge`, `Keybinds`, `KeyMigrations`, `ConfigLoad`, `ConfigFile` | document merge, keybind migrations and what they mean by key press, typed reading, load and save |
| `SessionLog`, `SessionTabs`, `TunnelBackoff` | log rotation and retention, tabs and picker, back-off and its settings |
| `ShellQuote`, `Base64`, `KeySpec`, `Adhoc`, `Sgr`, `TerminalReading` | round trips against independent readings |
| `Text`, `Decimal`, `Arithmetic`, `Wrappers` | shared string and number operations |

## Where the source falls short of a stated property

Each of these is proved, with an input that shows it and the exact condition under
which the property holds.

- **A restarted relay can hang.** The comment at `src/app/mod.rs:417-420` says a worker
  always finishes its run with one `QueueDone`. But `drain_cancel`
  (`src/sftp/worker.rs:442-454`) throws away every command queued behind a `Cancel`,
  a `RunQueue` included, and that run is then never answered.
  `RelaySystem.AccountAlways` counts the loss, `RelayLoss.ImpatientRestartHangs` is
  a trace that ends with a relay waiting for an answer nobody owes,
  `RelayLoss.LossStopsEveryRelay` shows that no later relay advances either,
  `RelayLoss.CanLoseIffEndangered` and `RelayLoss.PressIsSafeIff` say exactly when a
  run can be lost, and `RelayLoss.PatientRunsLoseNothing` gives the accounting
  without the loss term when the confirm key waits for the stale `QueueDone`.
  That a leg only advances once its worker has finished it holds in every
  interleaving, losses included.
- **Some hosts cannot be revealed.** `HostTree.App.RevealHost` returns true exactly
  when `Revealable` holds, and `HostTree.RevealableIff` spells that out: the host is
  ungrouped, or one of its groups is reached from the top level and no group above
  Favorites that the host's own climb leaves collapsed stands over it. It fails for
  two families. `build_group_subtree` skips an empty reserved group together with its
  subtree: `HostTree.EmptyReservedParentHidesHost` shows it for a well-formed forest.
  And `sshub group edit --name Favorites --set-parent Work` gives Favorites a parent
  (`src/cli/group.rs:145-171`; `src/store/hosts.rs:74-96` refuses a reserved row only
  when its name is changed), while the climb of `reveal_host` goes over the ordinary
  groups alone (`src/app/mod.rs:1158-1159`) and stops at Favorites:
  `HostTree.FavoritesBelowCollapsedHidesHost` shows a reachable host that stays
  hidden because Work is collapsed.
- **The group form can close a cycle.** It looks for descendants among
  `self.groups`, which lacks the reserved row (`src/app/mod.rs:1158-1159`), while the
  store holds it. With Favorites below Work (`sshub group edit --name Favorites
  --set-parent Work`) and Sub below Favorites, the form offers Sub as the parent of
  Work: `Groups.FormClosesCycle`. `Groups.EditKeepsWellFormed` says of every edit when
  that happens, namely if a reserved row stands between the group and the chosen
  parent below it, and `Groups.RootedReservedIsSafe` that it never does while the
  reserved rows are at the top level, where the form leaves them.
- **A key of the user's own can be lost in a save.** The comment at
  `src/config.rs:401-403` promises that such keys survive. The merge descends into
  tables only, so a section written as an inline table is replaced as a whole:
  `ConfigLoad.InlineKeyIsLost` with `appearance = { os_logo = true, mine = "x" }`.
  `TomlMerge.InlineKeysAreLost` and `ConfigFile.LoadKeepsTheRest` give the exact
  condition for a save and for a load.
- **The keybind migrations miss loosely written specs.** They compare texts. `Shift + H`
  opens the known-hosts manager and stays with Help, `KeyMigrations.SpacedSpecStays`;
  of the specs that mean this key exactly those with a blank beside the plus sign or
  with several plus signs stay, `KeyMigrations.RemovedIff` and
  `KeyMigrations.HelpStillShadowsIff`. A digit such as ` 3` is not moved up with the
  tabs, `KeyMigrations.SpacedDigitIsLeft`; `KeyMigrations.TabsKeepApartIff` says when
  two tabs then share a key.
- **Background colours are read as foreground settings.** 48 does not take its
  arguments with it, so `48;5;31` turns the text red: `TerminalReading.BackgroundTurnsRed`
  and, on a line, `TerminalReading.BackgroundIsMisread`.
  `TerminalReading.ActsAlikeIffMute` says on which parameter lists the program acts on
  the same parameters as a terminal; then it leaves the same style,
  `TerminalReading.MuteReadsAlike`. The converse of that last step does not hold, since
  a later parameter may undo a misread one.
- **A setting cannot be unset by saving.** The merge never removes a key, so an
  optional key the configuration has dropped is read again from the file.
  `ConfigLoad.UnsetKeyComesBack` is such a save, with the one optional key there is,
  `config_path` of `[ssh]`; `ConfigLoad.SaveThenLoad` gives the exact condition. It is
  an input of `save_config_at` alone: nothing in the application unsets that key.
- **Some ad-hoc hosts do not read back from their endpoint label.** Hosts with
  brackets inside, `Adhoc.OpenBracketInside` and `Adhoc.CloseBracketInside`;
  `Adhoc.EndpointRoundTrip` gives the exact condition.
- **Spans are not always coalesced.** The docstring at `scripts/gen_os_logos.py:76`
  speaks of coalescing runs. `Sgr.DetourIsSplit` is a line of two letters with red and
  plain between them that comes out as two spans of the same colour.
  `Sgr.RunsShareIff` and `Sgr.SpansShareIff` say of every line when that happens: two
  visible characters of one colour with nothing but escapes between them, one of
  which changes the colour. Each character still has its own colour.
- **Resetting the maximum delay can leave it below the initial delay.**
  `TunnelBackoff.ResetCrosses` with both delays at 300000 ms, `TunnelBackoff.ResetKeepsBounds`
  for the exact condition.

## Model

| member | source | states |
|---|---|---|
| Groups.GroupDescendants | src/app/groups.rs:375-386 | the worklist ends on any parent data, cyclic or not, and returns exactly the transitive closure of the child relation |
| Groups.EligibleParents | src/app/groups.rs:358-373 | the offered parents are exactly the existing groups other than the edited one and those below it; all of them for a new group |
| Groups.AcyclicIffForest | src/app/groups.rs:375-386 | no group lies below itself exactly when every walk up the parent pointers ends |
| Groups.EditKeepsWellFormed | src/app/groups.rs:328-345 | one create, save or delete that the form can produce keeps ids unique and parents existing in the store, and keeps its rows acyclic exactly unless the chosen parent lies below the group past a reserved row, which the form does not see |
| Groups.BelowSplits | src/app/groups.rs:375-386 | what lies below a group in the store, the form finds below it among the ordinary rows, or a reserved row stands between |
| Groups.EditsKeepWellFormed | src/app/groups.rs:147-188 | the same at every moment of every sequence of edits, each offered at its moment |
| Groups.RootedReservedIsSafe | src/app/groups.rs:147-188 | with the reserved rows at the top level every sequence of edits keeps the store well formed and leaves them there |
| Groups.OnlyEligibleParentsAreSafe | src/app/groups.rs:358-373 | the filter bans nothing needlessly: hanging an existing, unreserved group under an unreserved one keeps the store acyclic exactly if that parent is offered and no reserved row stands between |
| Groups.FormClosesCycle | src/app/groups.rs:358-386 | stored rows on which an offered save closes a cycle through Favorites |
| Groups.WithoutKeepsUnique | src/store/hosts.rs:100-128 | deleting a group and clearing its children's parent leaves ids unique |
| Groups.DeleteFreesChildren | src/store/hosts.rs:100-128 | a delete takes the row away, clears the parent of its children and changes no other row; a reserved row stays |
| Groups.SaveChangesOneRow | src/store/hosts.rs:74-98 | a save gives an unreserved row its name and parent and changes no other |
| Groups.CreateAddsOneRow | src/app/groups.rs:172-178 | a create adds one unreserved row and changes none |
| Sections.BuildGroupSubtree | src/app/util.rs:470-512 | the recursive walk with its `visiting` set appends the DFS of the forest, ends on cyclic data, and leaves `visiting` as it found it |
| Sections.BuildGroupSections | src/app/util.rs:403-441 | the section list is the DFS from the top level, then the ungrouped bucket |
| Sections.TreeListsReached | src/app/util.rs:403-512 | the sections list exactly the groups reached from the top level, each at depth one more than its parent and with its own filtered hosts |
| Sections.SubtreeComplete | src/app/util.rs:470-512 | the cycle guard never cuts off a group that is reached |
| Sections.TreeIdsDiffer | src/app/util.rs:470-512 | every group is listed once |
| Sections.CoverIsAncestor | src/app/util.rs:470-512 | a section that covers another in the depth-coded list belongs to a proper ancestor |
| Sections.AncestorIsCover | src/app/util.rs:470-512 | and every listed proper ancestor covers |
| Sections.TreeIsPreorder | src/app/util.rs:403-512 | the list is a preorder of the parent relation: contiguous subtrees, siblings in list order |
| Sections.SectionsPartitionHosts | src/app/util.rs:415-441 | every filtered host stands under exactly its reached groups, or in the bucket, which is last and at the top level |
| Sections.SectionKeepsOrder | src/app/util.rs:415-487 | every section lists exactly the filtered hosts that belong there, in their order and as often as they come |
| HostList.SubtreeHasHosts | src/app/util.rs:447-466 | the scan over the following deeper sections flags exactly the sections with a host in their subtree |
| HostList.RetainOrigin | src/app/hostlist.rs:639-643 | the m-th section kept by the pruning is the flagged section of rank m, unchanged |
| HostList.PruneKeepsAncestry | src/app/hostlist.rs:634-643 | two surviving sections are in the ancestor relation after pruning exactly when they were before |
| HostList.AboveKeptIsKept | src/app/hostlist.rs:634-643 | an ancestor of a survivor survives |
| HostList.LayOutRows | src/app/hostlist.rs:672-696 | the single pass with `hidden_below` yields the rows of the tree definition, for every list of depths and every collapsed set |
| HostList.NavContents | src/app/hostlist.rs:670-696 | a header is a row exactly when no ancestor is collapsed, a host exactly when one of its sections is visible and open |
| HostList.NavOrder | src/app/hostlist.rs:670-696 | the rows stand in section order, each header ahead of its hosts and these in the order of the section, none missing |
| HostList.HeadersInTreeMode | src/app/hostlist.rs:664-670 | headers show as soon as some section belongs to a group |
| HostList.TrackStep | src/app/hostlist.rs:674-694 | the register hides exactly the sections below a collapsed visible one |
| HostTree.App.RebuildFilter | src/app/hostlist.rs:601-697 | sections, host indices and rows are those of the current inputs, and the selection is clamped into them |
| HostTree.MatchesAreHits | src/app/hostlist.rs:601-627 | the listed hosts are the hits of the search, run with the query on exactly the hosts that carry every selected tag, each as often as it is returned, sorted by the mode |
| HostTree.MatchesIffHit | src/app/hostlist.rs:601-627 | a host matches exactly when the search returns it among those |
| HostTree.App.CurrentShowsHits | src/app/hostlist.rs:601-697 | after a rebuild a host the search does not return has no row |
| HostTree.RowsKeepSortOrder | src/app/hostlist.rs:627-648 | grouping, pruning and folding leave the hosts of every section in sorted order |
| HostTree.FlatJoins | src/app/hostlist.rs:644-648 | the host indices walk through the sections in order |
| HostOrder.ComparisonJoins | src/app/util.rs:366-388 | in every mode the comparison is transitive, ties included, as `sort_by` asks |
| HostOrder.LessComesFirst | src/app/util.rs:366-394 | what each mode puts first, ties broken by label or name; by last connection the hosts never connected to come before the others |
| HostOrder.SortedByMode | src/app/util.rs:362-364 | no host stands behind one it should precede |
| HostOrder.SortPermutes | src/app/util.rs:362-364 | sorting loses and doubles nothing |
| HostOrder.SortIsStable | src/app/util.rs:362-364 | hosts of one rank stay in the order the search gave them |
| HostTree.App.ClampSelected | src/app/hostlist.rs:699-705 | the selection is the nearest valid row, zero when there is none |
| HostTree.ShapeAncestry | src/app/hostlist.rs:634-643 | through flattening and pruning together, covering means being a proper ancestor in the parent relation |
| HostTree.HeaderRowIff | src/app/hostlist.rs:670-696 | whatever filter is in force, a header is navigable exactly when no proper ancestor of its group is collapsed |
| HostTree.HeldIff | src/app/hostlist.rs:624-648 | filtering and pruning lose no host: it is in a section exactly when it matches and is ungrouped or has a reached group |
| HostTree.HostRowIff | src/app/hostlist.rs:601-697 | for every filter and collapsed set, a host has a row exactly when it matches and is ungrouped with its bucket open, or has a reached group with nothing at or above it collapsed |
| HostTree.App.ExpandChain | src/app/hostlist.rs:739-747 | climbing the parents of a group among the ordinary groups removes from the collapsed set exactly it and the ancestors so found, and ends where the parents do |
| HostTree.App.ExpandPath | src/app/hostlist.rs:729-749 | exactly the host's groups and the ancestors its climb finds are expanded, or the bucket |
| HostTree.App.RevealHost | src/app/hostlist.rs:714-764 | revealing selects the host's row and returns true exactly when the host is ungrouped or has a reached group with nothing at or above it left collapsed by the climb; filters are dropped only if they hide it, and nothing off the climb is expanded |
| HostTree.App.DropHidingFilters | src/app/hostlist.rs:714-728 | tag filters and query are cleared exactly when the host is not listed, after which it matches |
| HostTree.ClimbStopsAtFavorites | src/app/mod.rs:1158-1159 | what stands at or above a group in the tree is what the climb over the ordinary groups finds, and whatever stands above Favorites where the way up leads through it |
| HostTree.RevealableIff | src/app/hostlist.rs:739-747 | the exact condition, in terms a caller can check: a reached group, and no group above Favorites left collapsed over it |
| HostTree.TopFavoritesCutNothing | src/app/hostlist.rs:714-764 | with Favorites at the top level, or nothing collapsed above it, every reachable host is revealed |
| HostTree.ListedIsReachable | src/app/hostlist.rs:714-728 | a host the list already shows is always reachable |
| HostTree.FavoritesBelowCollapsedHidesHost | src/cli/group.rs:145-171 | a concrete tree on which a reachable host stays hidden, Favorites being below a collapsed group |
| HostTree.CycleNeverEnds | src/app/hostlist.rs:739-747 | on a parent cycle at or above one of the host's groups the climb has no end |
| HostTree.ForestClimbEnds | src/app/hostlist.rs:739-747 | where the groups form a forest the climb ends from every group |
| HostTree.PlainTreesReachEveryHost | src/app/hostlist.rs:714-764 | where parents exist and reserved groups have no children, every host whose groups exist is reachable |
| HostTree.EmptyReservedParentHidesHost | src/app/util.rs:488-493 | without that condition it fails, on a concrete tree |
| HostTree.App.ToggleGroupBySection | src/app/hostlist.rs:296-334 | exactly the section's key changes sides, and a selection on its visible header stays on it |
| HostTree.ToggleKeepsHeader | src/app/hostlist.rs:296-334 | folding a section leaves its own header visible or hidden as it was |
| HostTree.ShapeKeysDiffer | src/app/types.rs:241-243 | no two sections share a collapse key |
| Relay.App.RunAll | src/app/sftp.rs:907-955 | the confirm key starts a relay over the whole queue, unless one runs, the queue is empty or no scratch directory can be made |
| Relay.App.RelayStep | src/app/sftp.rs:974-1018 | the current leg goes to the right worker with the right ends, or the relay finishes |
| Relay.App.RelayQueueDone | src/app/sftp.rs:1024-1053 | the end of a fetch leads to the push of the same item, the end of a push removes it from relay, queue and disk |
| Relay.App.TakeSwallowedDone | src/app/sftp.rs:1086-1094 | one owed answer is consumed, if any |
| Relay.App.RelayAbort | src/app/sftp.rs:1098-1116 | one answer more is owed, both workers are told to cancel, and the relay and its scratch directory are gone |
| Relay.App.ApplyEvent | src/app/sftp.rs:1237-1338 | the right worker's events, by kind and by whether an answer is owed or a relay is live |
| Relay.App.ApplyEventLeft | src/app/sftp.rs:1181-1233 | the left worker's events |
| RelaySystem.StepKeepsAccount | src/app/sftp.rs:1024-1116 | every key press, worker step and delivery keeps: undelivered `QueueDone`s plus lost runs equal the owed swallows plus one for a live relay |
| RelaySystem.AccountAlways | src/app/sftp.rs:1024-1116 | so the account holds in every interleaving from the start |
| RelaySystem.LastAnswer | src/app/sftp.rs:1223-1227 | an answer delivered while none is owed is the only one outstanding, with both workers idle |
| RelaySystem.PollKeepsAccount | src/sftp/worker.rs:442-454 | the cancel poll drops whatever it drains, and what it drops is what is counted as lost |
| RelaySystem.FilesAreNotInterrupted | src/sftp/worker.rs:215-226 | between the files of a directory a run looks for a cancel, within a single file it does not |
| RelaySystem.WrittenAdds | src/sftp/worker.rs:215-226 | what a run writes to scratch is added there and changes nothing else |
| RelaySafety.AdvanceIsEarned | src/app/sftp.rs:1024-1053 | a leg is counted as done only when its own run ended well, no run is waiting or in progress on either worker, and the scratch directory holds exactly the item |
| RelaySafety.StepKeepsInv | src/app/sftp.rs:974-1116 | every step keeps the account, the numbering of runs and the place of the current leg |
| RelaySafety.InitInv | src/app/mod.rs:414-423 | the start state, with nothing sent or owed, satisfies them |
| RelaySafety.InvAlways | src/app/sftp.rs:974-1116 | so they hold in every reachable state |
| RelaySafety.AdvanceKeepsTracked | src/app/sftp.rs:1024-1053 | a counted answer leaves the next leg in exactly one place, with the scratch directory as that leg needs it |
| RelayScratch.EveryLegFindsItsFiles | src/app/sftp.rs:974-1018 | in every reachable state, losses included, a worker about to start the live relay's leg finds an empty scratch directory for a fetch and just the item for a push, so equal names never meet |
| RelayScratch.StepKeepsClean | src/app/sftp.rs:974-1116 | every step keeps the directory so while the leg waits, and no other run writes there |
| RelayScratch.CleanAlways | src/app/sftp.rs:974-1116 | so over every run |
| RelayResults.PlanAt | src/app/sftp.rs:974-1018 | the plan of a batch is fetch then push, item by item, each on its own side |
| RelayResults.StepKeepsAwaiting | src/app/sftp.rs:974-1053 | at every step the legs sent are the first of the plan, as many as answers counted plus the one awaited |
| RelayResults.FinishIsComplete | src/app/sftp.rs:1119-1128 | a relay that ends without an abort has sent exactly the plan and counted two answers per item |
| RelayResults.StepKeepsQueue | src/app/sftp.rs:1024-1053 | without unstaging, the queue is always the unfinished items followed by those staged since |
| RelayResults.AbortKeepsUnfinished | src/app/sftp.rs:1098-1116 | an abort at any point leaves queued exactly the items whose push was not counted, in order, then those staged since |
| RelayResults.PlainRunLeavesTheRest | src/app/sftp.rs:1302-1318 | the end of a plain run takes what ran off the queue and nothing else |
| RelayLoss.LossStopsEveryRelay | src/sftp/worker.rs:442-454 | once a run command is lost, no relay advances again in any continuation |
| RelayLoss.CanLoseIffEndangered | src/sftp/worker.rs:172-190 | the workers alone can lose a run exactly when one has a cancel poll ahead of a run that waits behind it |
| RelayLoss.PressIsSafeIff | src/app/sftp.rs:907-957 | where nothing can be lost, pressing confirm makes the new leg losable exactly when its worker still has a run waiting or one that polls |
| RelayLoss.PatientRunsLoseNothing | src/app/mod.rs:417-420 | if confirm is pressed only when no stale answer is owed, nothing is lost and undelivered answers equal the owed ones plus the live relay's |
| RelayLoss.ImpatientRestartHangs | src/sftp/worker.rs:442-454 | a concrete run from the start that ends with a live relay and no answer on its way |
| RelayLoss.EveryRun | src/app/sftp.rs:907-1128 | all relay invariants together over every run |
| RelayProgress.GoOn | src/app/sftp.rs:974-1053 | with a live relay, at most one run unanswered and no error under way, some worker or delivery step is possible and brings the relay closer to its end |
| RelayProgress.RelayCanFinish | src/app/sftp.rs:974-1128 | from every such state some run of worker and delivery steps without errors finishes the relay, with the whole plan sent and counted |
| RelayProgress.PressCanFinish | src/app/sftp.rs:907-957 | so the confirm key, pressed with something staged and nothing outstanding, starts a relay that can finish |
| RelayDelivery.RelayDelivers | src/app/sftp.rs:974-1053 | with the files of both servers and of scratch moved by the workers, a relay that is not stopped has, however keys, workers and events interleave, copied its batch item by item and done nothing else to either server |
| RelayDelivery.PressDelivers | src/app/sftp.rs:907-1053 | so from the confirm key pressed with the workers at rest, in terms of the files at that moment |
| RelayDelivery.ItemArrives | src/app/sftp.rs:985-1009 | each file of an item's source on the one server is then found under its destination on the other, as its direction says, unless an earlier item wrote to that source or a later one to that destination |
| RelayDelivery.FileArrives | src/app/sftp.rs:985-1009 | an item that is a single file arrives as it is |
| RelayDelivery.OthersStay | src/app/sftp.rs:985-1009 | every path that is no item's destination is as it was |
| RelayDelivery.OverHolds | src/sftp/worker.rs:254-308 | a directory copied over another has every file of the original |
| RelayDelivery.OverKeeps | src/sftp/worker.rs:254-308 | and every file of the other that the original has nothing for |
| RelayDelivery.PressCanDeliver | src/app/sftp.rs:907-1128 | with every source in place and nothing outstanding, the confirm key starts a relay that can deliver its whole queue |
| Watcher.SwallowWindow | src/watcher.rs:94-106 | the inner loop swallows exactly the arrivals before the deadline and ends at it, or when the channel closes |
| Watcher.DebounceLoop | src/watcher.rs:80-112 | for every script the reports sent are those of the greedy windows, as far as the receiver accepts them, and the loop ends |
| Watcher.WindowOpensAtChange | src/watcher.rs:86-94 | a window opens only at a config-touching arrival |
| Watcher.WindowsSpaced | src/watcher.rs:80-112 | openings are at least one window apart |
| Watcher.EveryChangeIsReported | src/watcher.rs:80-112 | every change lies in a window whose report comes no earlier than it and within the window length |
| Watcher.OnlyChangesMatter | src/watcher.rs:114-128 | other events neither open nor extend a window |
| Watcher.ReportsAreFewest | src/watcher.rs:77-79 | no way of covering the changes by windows of that length needs fewer reports |
| Watcher.SilentIffUnchanged | src/watcher.rs:80-128 | nothing is reported exactly when no arrival modifies, creates or removes a path with the config's last component |
| Watcher.ChangeIsReported | src/watcher.rs:80-128 | each such arrival, in whatever directory, is reported no earlier than it and within the window |
| Watcher.ReportFollowsChange | src/watcher.rs:80-128 | and each report follows such an arrival within the window |
| Watcher.OthersChangeNothing | src/watcher.rs:114-128 | an arrival of another kind or name, put in or taken out anywhere, changes neither the windows nor the number of reports |
| Watcher.TwoChanges | src/watcher.rs:94-109 | two changes share a report exactly when the second comes before the end of the window of the first, and when each report is sent |
| TomlMerge.MergeTomlTable | src/config.rs:478-494 | the loop over the source's keys, in any order, yields the deep merge |
| TomlMerge.SourceReadsBack | src/config.rs:478-494 | every value of the source reads back at its path |
| TomlMerge.UntouchedStays | src/config.rs:476-494 | every path the source does not hold, inside inline tables too, reads as in the destination, or is gone with the value above it that was replaced |
| TomlMerge.KeptIffNotReplaced | src/config.rs:478-494 | so a path the destination alone holds keeps its value exactly if nothing above it is replaced |
| TomlMerge.InlineKeysAreLost | src/config.rs:478-494 | a path on which only tables of the source lie keeps its value exactly unless one of them meets an inline table that holds the rest of the path |
| TomlMerge.NothingInvented | src/config.rs:478-494 | every path of the result comes from one of the two |
| TomlMerge.MergeIdempotent | src/config.rs:478-494 | saving the same twice changes nothing the second time |
| TomlMerge.LaterSaveWins | src/config.rs:401-415 | saving twice leaves no trace of the first save of the same shape |
| Keybinds.KeybindsConfig.MigratePreSftpTabs | src/keybinds.rs:1347-1371 | in place, the old digits of the three tabs move up by one and an empty SFTP tab gets its digit, exactly for pre-SFTP texts |
| Text.ContainsMeans | src/keybinds.rs:1350-1355 | a text contains another exactly if it is that one with something before and after |
| KeyMigrations.SftpGetsItsDigit | src/keybinds.rs:1366-1369 | an SFTP tab without a key then answers to the digit 2, one with keys to these |
| Keybinds.KeybindsConfig.MigrateHelpFreesKnownHosts | src/keybinds.rs:1382-1395 | in place, the help specs that are, trimmed, `H` or in any case `Shift+H` go and at least one spec stays; reports whether help changed |
| KeyMigrations.RemovedIff | src/keybinds.rs:1387-1390 | a spec is removed exactly if the parser takes it for Shift with h and it has no blank beside its plus sign and no second plus sign |
| KeyMigrations.HelpStillShadowsIff | src/keybinds.rs:1373-1395 | after the migration help still takes the known-hosts key exactly if such a loosely written spec was there |
| KeyMigrations.SpacedSpecStays | src/keybinds.rs:1387-1390 | a spec that means the key and stays |
| KeyMigrations.DefaultOpens | src/keybinds.rs:1375-1377 | the default spec of the known-hosts manager is taken for the same key press |
| KeyMigrations.TabsKeepApartIff | src/keybinds.rs:1338-1371 | by key press: from the old layout the migration leaves every tab keys of its own and the SFTP tab its digit, exactly unless a digit not written bare stays where another has moved to |
| KeyMigrations.SpacedDigitIsLeft | src/keybinds.rs:1357-1366 | an old layout on which that happens |
| Keybinds.NoTabShadowsAnother | src/keybinds.rs:1338-1346 | from the layout it is written for, no two of the tabs share a spec text and none has that of the SFTP tab's digit |
| Keybinds.TabsMigrateOnce | src/keybinds.rs:1344-1346 | repeating the tab migration changes nothing |
| Keybinds.HelpMigratesOnce | src/keybinds.rs:1379-1381 | repeating the help migration changes nothing |
| ConfigLoad.ReadIsStable | src/config.rs:322-325 | a configuration serialised and read again is itself, defaults and converted numbers included |
| ConfigLoad.SaveThenLoad | src/config.rs:401-415 | a saved configuration is read back exactly unless an optional key it unset is still in the document |
| ConfigLoad.UnsetKeyComesBack | src/config.rs:296-300 | a save without `config_path` over a document that has it, after which it is read again |
| ConfigLoad.InlineKeyIsLost | src/config.rs:478-494 | a document with an inline section that is read, and loses a key of the user's own when what was read is saved |
| ConfigLoad.DropIsInvisible | src/config.rs:417-431 | removing the retired key does not change what is read |
| ConfigFile.ConfigFile.SaveConfigAt | src/config.rs:387-399 | a save that goes through leaves the merged document, over an empty one where the text does not parse |
| ConfigFile.ConfigFile.LoadConfigAt | src/config.rs:338-379 | a load returns the migrated configuration or an error, writes defaults where no file is, and rewrites the file exactly for the three stated reasons |
| ConfigFile.SavedConfigIsRead | src/config.rs:387-415 | the next load reads what was saved, under the exact condition of `SaveThenLoad` |
| ConfigFile.BrokenTextIsReplaced | src/config.rs:401-415 | a file that does not parse is replaced by the configuration, which the next load reads |
| ConfigFile.RetiredKeyIsDropped | src/config.rs:417-434 | after a load whose save went through the retired key is gone from its table |
| ConfigFile.LoadSettles | src/config.rs:350-377 | after a load whose save went through, the next load returns the same configuration and leaves the file as it is |
| ConfigFile.LoadKeepsTheRest | src/config.rs:401-415 | of the keys the configuration does not have, the retired one aside, a load loses exactly those inside an inline table at a place it writes, when it rewrites the file |
| ShellQuote.SplitOfJoin | src/session_log.rs:313-330 | sections 2.2.1, 2.2.2 and 2.3 of XCU in POSIX.1-2017 split the joined line into exactly the argument vector, for every vector |
| ShellQuote.QuotedReads | src/session_log.rs:320-330 | one quoted argument reads as itself in front of any rest |
| ShellQuote.JoinIsInjective | src/session_log.rs:313-318 | no two vectors are joined into the same line |
| ShellQuote.BareReadsAsItself | src/session_log.rs:324-329 | an argument left unquoted needed no quoting |
| ShellQuote.QuotesUnlessPlain | src/session_log.rs:320-330 | an argument is left as it is exactly if it is not empty and all letters, digits, and the four marks |
| Base64.Base64Encode | src/osc52.rs:45-75 | the loop over chunks and the remainder yields the encoding function |
| Base64.AlphabetIsTable | src/osc52.rs:46-46 | the alphabet string is Table 1 of RFC 4648, place by place |
| Base64.DecodeOfEncode | src/osc52.rs:45-75 | a decoder by section 4 of RFC 4648 returns the bytes, for every byte sequence |
| Base64.EncodeOfDecode | src/osc52.rs:45-75 | the strict decoder accepts nothing but encodings |
| Base64.EncodeShape | src/osc52.rs:45-75 | four characters per three bytes begun, alphabet characters first and at most two padding characters last |
| Adhoc.AcceptedIsSpelled | src/app/adhoc.rs:36-114 | an accepted input is exactly its target written out, and user and host hold nothing unsafe |
| Adhoc.AcceptedIff | src/app/adhoc.rs:36-122 | an input is accepted as a target exactly when, trimmed, it is that target written out, with clean parts and in a spelling that can be read one way only |
| Adhoc.GapMeans | src/app/adhoc.rs:47-52 | which characters an accepted input cannot hold, by code point |
| Adhoc.EndpointRoundTrip | src/app/session_picker.rs:254-267 | printing a clean user, host and port and parsing again returns them exactly when the host reads back |
| Adhoc.AcceptedRoundTrip | src/app/adhoc.rs:163-174 | the same for every accepted input with the port of the connection, 22 by default |
| Adhoc.BracketFreeReadsBack | src/app/session_picker.rs:258-262 | every bracket-free host reads back, unbracketed IPv6 addresses included |
| Adhoc.OpenBracketInside | src/app/adhoc.rs:75-88 | an accepted host that does not, with an opening bracket |
| Adhoc.CloseBracketInside | src/app/adhoc.rs:89-102 | an accepted host that does not, with a closing one |
| Adhoc.BuildAdhocArgv | src/app/adhoc.rs:130-139 | the whole argument vector, the destination behind the end of options |
| Adhoc.DestinationIsNoOption | src/app/adhoc.rs:124-139 | the destination is never empty, never begins with a dash and holds no blank or control character |
| Decimal.ParseOfPrint | src/app/adhoc.rs:116-122 | a printed number parses back exactly when it fits the type |
| KeySpec.ParseKeyspec | src/app/util.rs:516-568 | splitting, the modifier loop and the key part yield the reading function |
| KeySpec.KeyeventToSpec | src/app/util.rs:574-614 | the accumulated text is the printing function |
| KeySpec.SpecIsRead | src/app/util.rs:516-568 | which specs are read, and as which key with which modifiers, by the names of keys and modifiers |
| KeySpec.ModifiersAreNamed | src/app/util.rs:520-527 | the pieces before the last must each be a modifier name, in any case and with blanks around, and stand for exactly those named |
| KeySpec.NamedKeyIsListed | src/app/util.rs:532-544 | the key names, aliases included |
| Text.LettersAre | src/app/util.rs:553-562 | which characters are letters, one after the other |
| KeySpec.CaptureRoundTrip | src/app/util.rs:516-624 | the printed spec of an event is read back and matches it exactly when the event has only Ctrl, Alt and Shift, no Shift on a non-letter, and is neither a plus sign nor a blank other than the space bar |
| KeySpec.LetterIsShown | src/app/util.rs:589-597 | a captured letter is shown small on its own and as a capital behind modifiers |
| KeySpec.CapturedMatchesItsKey | src/app/util.rs:616-624 | a captured binding answers to exactly its own key, letter case aside |
| Sgr.Apply | scripts/gen_os_logos.py:110-134 | the index loop with its skips ends and means a left-to-right reading of the parameters in which 38 takes its arguments along and 48 does not |
| TerminalReading.ActsAlikeIffMute | scripts/gen_os_logos.py:110-134 | on every list the program acts on exactly the parameters on which a terminal by section 8.3.117 of ECMA-48 acts, if and only if no background form has an argument that means something to the program |
| TerminalReading.MuteReadsAlike | scripts/gen_os_logos.py:110-134 | then both leave the same foreground and weight, whatever they were before |
| TerminalReading.SingleIsAlone | scripts/gen_os_logos.py:113-124 | the parameters outside colour forms mean what they mean to a terminal: palette 0 to 7 and 8 to 15, default, reset and weight |
| TerminalReading.ActsAloneMeansChanges | scripts/gen_os_logos.py:113-124 | which parameters change some style on their own |
| TerminalReading.XtermIsShade | scripts/gen_os_logos.py:60-69 | the 256 palette is sixteen entries, a cube with steps 0 and 55 + 40k, and greys 8 + 10k |
| TerminalReading.CubeReads | scripts/gen_os_logos.py:60-69 | a colour of the cube by its three steps |
| TerminalReading.ResolveIsTint | scripts/gen_os_logos.py:137-144 | bold brightens the first eight palette entries and nothing else, and the default is stored as 7 |
| TerminalReading.NoBackgroundIsMute | scripts/gen_os_logos.py:110-134 | every list without a 48 is such a list |
| TerminalReading.BackgroundTurnsRed | scripts/gen_os_logos.py:110-134 | a list on which they differ |
| Sgr.ParseLine | scripts/gen_os_logos.py:75-107 | working escape by escape yields the character-by-character segmentation, less blank spans at the end |
| Sgr.EscapeOf | scripts/gen_os_logos.py:72-72 | ESC, an opening bracket, digits and semicolons if any, and an m are an escape, with the parameters in between |
| Sgr.EscapeIsSpelled | scripts/gen_os_logos.py:72-72 | and nothing else is |
| Sgr.RunsExpand | scripts/gen_os_logos.py:90-101 | expanded, the spans are the characters of the line one by one, each in the colour of the program's reading at its place |
| Sgr.SpansHoldTheLine | scripts/gen_os_logos.py:75-107 | so are those returned, except for a dropped end that is all blank; what is kept does not end in a blank span |
| Sgr.BlankMeans | scripts/gen_os_logos.py:104-106 | which characters count as blank there |
| TerminalReading.SpansShowTheScreen | scripts/gen_os_logos.py:75-107 | where no escape of the line has a misread background form, they are what a terminal shows, but for that end |
| TerminalReading.BackgroundIsMisread | scripts/gen_os_logos.py:110-134 | a line that comes out red where a terminal shows the default colour |
| Sgr.FewSpans | scripts/gen_os_logos.py:97-99 | there are at most as many spans as visible colour changes plus one, and none is empty |
| Sgr.RunsShareIff | scripts/gen_os_logos.py:90-101 | on every line, neighbouring spans share a colour exactly when two visible characters of one colour have nothing but escapes between them, one of which changes the colour |
| Sgr.SpansShareIff | scripts/gen_os_logos.py:75-107 | the same of the spans returned, where not all of the line from the second of the two characters on is blank |
| Sgr.DetourIsSplit | scripts/gen_os_logos.py:97-99 | a concrete line that comes out as two spans of the default colour |
| Sgr.CodesReadBack | scripts/gen_os_logos.py:95-95 | the parameter text of a list of codes reads as that list |
| Sgr.PaletteIsStorable | scripts/gen_os_logos.py:60-69 | palette entries stay within one byte for the 256 indices and one more, and no further |
| Sgr.CellsAreStorable | scripts/gen_os_logos.py:110-144 | with parameters of one byte every colour of a line is a palette index below 16 or three bytes |
| SessionLog.HostDir.PruneRetention | src/session_log.rs:332-353 | at most the given number of logs stay, none of them older than one removed, and nothing else is touched |
| SessionLog.LogNames | src/session_log.rs:338-338 | a log is a file with something in front of ".log" |
| SessionLog.SortByMtime | src/session_log.rs:336-347 | the listing in order of modification time, each file once |
| SessionLog.SessionLogWriter.Append | src/session_log.rs:199-209 | the bytes join the current segment, which is rotated exactly when it reaches the limit; memory, history and disk agree |
| SessionLog.SessionLogWriter.Rotate | src/session_log.rs:211-221 | the full segment is on disk, a new one is current, and the oldest logs beyond the limit are gone |
| SessionLog.SessionLogWriter.Close | src/session_log.rs:223-228 | everything is flushed and the files left hold a suffix of all bytes appended |
| SessionLog.AppendGrowsStream | src/session_log.rs:199-209 | an append adds exactly its bytes to the stream of all segments |
| SessionLog.AppendFillsWell | src/session_log.rs:204-207 | a closed segment reached the limit only with its last append |
| SessionLog.RunKeepsStream | src/session_log.rs:199-221 | both over every run of appends |
| SessionLog.PruneKeepsSuffix | src/session_log.rs:332-353 | pruning removes this writer's segments from the earliest on and never the one being written |
| SessionLog.StoredIsSuffix | src/session_log.rs:332-353 | after a flush the files in creation order are a suffix of the stream |
| SessionTabs.App.SpawnEmbeddedSession | src/app/session_spawn.rs:65-68 | a session that starts becomes the last and active tab, connecting; a failed start changes nothing |
| SessionTabs.App.DetachToDashboard | src/app/session.rs:255-261 | only the mode changes |
| SessionTabs.App.CloseActiveSession | src/app/session.rs:287-346 | the active tab goes, its right neighbour or else the new last one takes over, and the mode follows its phase except on the dashboard |
| SessionTabs.App.SwitchSession | src/app/session.rs:372-402 | the active tab moves by any delta around the strip, wrapping at both ends, and the mode follows its phase except on the dashboard |
| SessionTabs.App.FocusActiveSession | src/app/session.rs:264-283 | the mode is that of the active session's phase |
| SessionTabs.App.OpenSessionPicker | src/app/session_picker.rs:102-130 | refused without sessions to switch between and outside dashboard and sessions; otherwise starts on the active row |
| SessionTabs.App.CloseSessionPicker | src/app/session_picker.rs:136-153 | never leaves the picker mode behind |
| SessionTabs.App.HandleKeySessionPicker | src/app/session_picker.rs:155-246 | the picker's keys, by purpose and row |
| SessionTabs.JumpKeepsInv | src/app/session_picker.rs:192-216 | Enter on a session row makes that session active and enters it |
| SessionTabs.PickerCloseKeepsInv | src/app/session_picker.rs:132-153 | closing the picker keeps the invariant and always leaves its mode |
| SessionTabs.App.RelayPtyClipboard | src/app/session.rs:234-252 | one loop emits the visible session's writes in order and empties every session's queue |
| SessionTabs.StepKeepsInv | src/app/session.rs:215-402 | every step, notices that arrive under an open picker included, keeps: an active tab exactly when there are tabs, in range; picker mode only while there is a picker; empty queues between frames |
| SessionTabs.RunKeepsInv | src/app/session.rs:215-402 | so over every run |
| SessionTabs.OnlyNoticesStrandThePicker | src/app/sftp.rs:1258-1263 | from a state without a stranded picker, a step strands one, open but without its mode, exactly when it is a notice under an open picker |
| SessionTabs.NoticeStrandsThePicker | src/app/sftp.rs:1258-1263 | a notice can come up at any time and leaves an open picker without its mode |
| SessionTabs.ClipboardIsWhatWasVisible | src/app/session.rs:221-252 | over every run the clipboard received exactly the writes that arrived in a frame for the session on screen in that frame |
| SessionTabs.SwitchBack | src/app/session.rs:372-402 | cycling forth and back, or once round, returns to the same tab |
| SessionTabs.SwitchesToNeighbour | src/app/session.rs:372-402 | one step forward is the tab to the right, from the last the first, and one back the other way |
| SessionTabs.SwitchesAdd | src/app/session.rs:372-402 | steps of any size and sign add up |
| SessionTabs.CloseShowsNeighbour | src/app/session.rs:287-346 | closing shows the right neighbour, for the last tab the left, and leaves the others in order |
| SessionTabs.ClosingTheLastLeaves | src/app/session.rs:287-346 | closing the only tab goes to the dashboard |
| SessionTabs.PickerMoves | src/app/session_picker.rs:169-182 | in the picker Down goes one row on and around, and Up undoes it |
| SessionTabs.RowsAreFound | src/app/session_picker.rs:66-79 | the switcher lists the sessions the query finds, from left to right, all of them for an empty query |
| SessionTabs.ConnectedIsEntered | src/lib.rs:378-385 | a session that has connected is entered with the next frame, and nothing else is |
| SessionTabs.DismissedPickerChangesNothing | src/app/session_picker.rs:132-153 | a picker opened and dismissed leaves everything as it was, and no picker |
| TunnelBackoff.AttemptCountsTrailingShort | src/config.rs:169-175 | the counter is the number of short runs since the last stable one, saturating |
| TunnelBackoff.BaseGrows | src/config.rs:248-255 | the base never shrinks with more failures and never exceeds the limit |
| TunnelBackoff.BaseDoubles | src/config.rs:250-255 | each further failure doubles it until the limit |
| TunnelBackoff.BaseStops | src/config.rs:248-255 | the doubling stops at the twenty-first attempt, and no failure counts as one |
| TunnelBackoff.DelayIsBounded | src/config.rs:256-267 | the delay stays within the jitter around the base and is at least 1 ms, for every tunnel id |
| TunnelBackoff.JitterMovesTheBase | src/config.rs:256-267 | the delay is the base moved by the ratio times the hash's place between minus one and one, cut to whole milliseconds |
| TunnelBackoff.NoJitterNoChange | src/config.rs:256-267 | without jitter it is the base, at least 1 ms |
| TunnelBackoff.HashSteps | src/config.rs:260-264 | from zero the hash goes on by its multiplier with each attempt and 31 times that with each tunnel, in 64 bits |
| TunnelBackoff.PartSteps | src/config.rs:265-266 | the jitter takes two thousand evenly spaced places in turn |
| TunnelBackoff.TunnelReconnectConfig.AdjustField | src/config.rs:197-231 | each row's clamped step, with the two delays pulled along |
| TunnelBackoff.TunnelReconnectConfig.ResetField | src/config.rs:234-244 | one row returns to its default, nothing else moves |
| TunnelBackoff.AdjustmentsKeepBounds | src/config.rs:197-231 | any series of adjustments keeps every bound and initial below maximum |
| TunnelBackoff.OnePress | src/config.rs:197-231 | one press of a row is a step of its size up or down, until its end |
| TunnelBackoff.PressMovesOneRow | src/config.rs:197-231 | a press leaves the other rows alone, but a delay takes the other along when it would pass it |
| TunnelBackoff.PressesAdd | src/config.rs:197-231 | presses in one direction add up |
| TunnelBackoff.ResetKeepsBounds | src/config.rs:234-244 | a reset keeps them exactly unless it lowers the maximum below the initial delay |
| TunnelBackoff.ResetCrosses | src/config.rs:234-244 | settings within all bounds whose reset maximum falls below the initial delay |

## Left out

- Rendering, animation, fold capture in `toggle_group_by_section`, `host_visual_rows`, mouse geometry: presentation without a state property.
- The fuzzy matcher is an arbitrary function here, returning indices of what it was shown and everything for the empty query; lower-cased display names and the sort key of a group are given with the host, and `sort_by` is an insertion sort with the same result.
- The SQLite store: group rows are a list with the store's rules for reserved rows and deletion; its transactions and sort order are not modelled.
- Groups.EditsKeepWellFormed: covers the edits of the form, each on the rows as they are stored at that moment; `sshub group edit --set-parent` (`src/cli/group.rs:145-171`) writes any parent unchecked and can make a cycle by itself, on which `reveal_host` does not end (`HostTree.CycleNeverEnds`), so HostTree.App.RevealHost asks for a climb that ends.
- Relay.App.ApplyEvent: connection events, pane listings, progress and notices are not part of the state; both connections stay up and every send succeeds, as a dropped channel may never deliver an owed answer.
- Relay.App.RunAll: the plain run between one server and the local disk is modelled only as far as its `QueueDone` meets the relay's.
- RelaySystem.StepKeepsAccount: progress throttling and the file plan of a directory transfer are one nondeterministic step of the worker.
- Scratch file removal succeeds, and a scratch directory holds one entry per top-level name.
- RelayDelivery.PressDelivers: starts from workers at rest, since the run of a relay stopped before may still be writing to its own destination; nobody else changes the servers meanwhile. A path is one entry with the tree below it, so items whose paths lie inside one another are not related; a transfer shows when it ends, and symbolic links are left out.
- Watcher.DebounceLoop: the platform's notifications are a finite script of timed arrivals, and time passes only while the loop waits.
- TomlMerge.MergeTomlTable: works on values rather than on tables shared by reference; comments, key order and layout are not part of a document.
- ConfigFile.ConfigFile.LoadConfigAt: the TOML library is a parameter whose printing parses back and names every bare key literally, so files that spell a bare key with escapes are outside the claim; I/O errors other than a failing save, and file permissions, are left out.
- Keybinds.KeybindsConfig.MigratePreSftpTabs: the binds are a map by action name instead of one field per action.
- ShellQuote.SplitOfJoin: covers quoting and word splitting; a first word that is a reserved word of the shell, such as `if`, is not told apart.
- Base64.Base64Encode: shifts and masks are divisions and remainders by the same powers of two.
- Adhoc.EndpointRoundTrip: says nothing of the `ipv6` flag, which records the spelling and changes when a bare address is printed with brackets.
- KeySpec.ParseKeyspec: key codes and modifiers are those the binding editor can meet; terminal protocol details are not modelled.
- Sgr.ParseLine: the regular expression is written out as a scanner; running fastfetch and writing JSON are left out.
- SessionLog.HostDir.PruneRetention: modification times are strictly increasing per write, one writer per directory, and I/O does not fail; the file naming retries are a parameter that supplies an unused name.
- SessionTabs.App.RelayPtyClipboard: a failing sink, the notice shown, and the limits inside the terminal parser are not modelled.
- SessionTabs.StepKeepsInv: other overlays are one mode that opens from and returns to the dashboard; process start, exit detection and quitting are steps or left out.
- TunnelBackoff.TunnelReconnectConfig.AdjustField: unbounded integers; a delay above the largest `i64`, which only a hand-edited file can hold, wraps in the source's cast and is clamped to the lower bound there, to the upper one here.
- TerminalReading.SpansShowTheScreen: of a terminal only the foreground colour and weight count, in the program's palette; an incomplete colour form is read one parameter at a time, as the program does.
- TunnelBackoff.DelayIsBounded: exact reals instead of floating point.
- Processes, `ping`, `ssh-keygen`, environment variables, the command line, themes, the keyring, broadcast and tunnels themselves.
