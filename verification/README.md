# A model of an agent portal's decision logic

The portal is a server that runs command-line agents, watches what they start,
keeps their status, hands them files and messages, and shows all of it to web
pages. These files model the parts of it that decide something over time and
prove what those decisions keep. Each module follows one part of the program:

| Files | Part |
|---|---|
| `ProcessTable`, `SweepSpec`, `SweepWalk`, `Sweep`, `OsRun`, `SweepSafety`, `SweepSignals`, `SweepUpkeep` | the process groups started by an agent's tools, and when such an id may still be signalled |
| `FileTree`, `TreeListing`, `WalkState`, `TreeWalk`, `TreeCount` | the bounded walk that counts or removes a folder tree an agent works in |
| `DispatchSpec`, `Dispatcher`, `DispatchRuns`, `LineEffects` | the interpreter of the CLI's output lines |
| `AgentStatus`, `PermissionLog`, `RunnerSpec`, `Runner`, `RunnerRuns`, `RunnerEffects` | the status of a running agent and its permission prompts |
| `AgentRuns` | interpreter and runner together: what `Idle` tells |
| `UploadTable`, `UploadClaims` | uploads on their way into messages |
| `ResumeSpec`, `ResumeWatcher`, `ResumeRuns` | telling agents that ran out of tokens to carry on |
| `UploadNames`, `UploadSuffix`, `UploadNumbers`, `UploadNaming` | names for uploaded files |
| `Transcript`, `CatchUp` | a page's view of the event log |
| `Registry` | the slot a launch claims |
| `InputHistory` | the messages an operator can recall |

Where the source changes state in place there is a class whose methods do the
same, loops included, each proved equal to a function on values; the lemmas are
about those functions, and about runs of single steps where several tasks
interleave. What each such function computes is also said in terms of its
arguments' own fields, in lemmas named for what a thing means, says or does.

## Reading the main results

**Process groups.** `OsRun` is a step system of the operating system: clock,
fork, becoming a group leader, joining a group, exit, reaping. Every process has
a `uid` that is never reused; the incarnation of a group is the uid of the
process that led it, and its age is that leader's age. The server sees only
tables (`Snapshot`) whose rows may describe different instants of one scan. What
is assumed of the system is stated in the definitions it is used in: an id is not
issued while a process or a non-empty group has it (`Allowed`, `Fork`); no
process joins a group whose leader is younger than itself (`Allowed`, `Join`); a
pid that a table shows is not issued again until `CLOCK_SLACK_MS` after the table
was read (`NoQuickReissue`); a scan takes less than `PROOF_SLACK_MS`, and ages are
never overstated (`Faithful`); the clock does not run backwards (`Tick`). How old
a shared table is, how many agents share it and in which order cycles run do not
matter. Under that, `SweepSafety.TeardownIsSafe` and `SweepSafety.StopIsSafe` say
that every group id selected for a signal names a group that a walk saw led by a
process listed below the CLI, from an instant of the scan on, and that nothing else that
had started by then ever goes by that id.

`SweepSafety.TeardownReachesOnlyDescendants` and `StopReachesOnlyDescendants` go
on to say that the leader of every such group was forked by the CLI, by a child
of it, and so on (`Descends`). A parent pid above 1 always names the live process
that forked the child, because an orphan goes to pid 1
(`OsRun.StepKeepsParentLinks`). Two assumptions come on top: no pid changes hands
while a scan is under way (`NoReissueInScan`), and the pid a walk starts from is
the CLI's during that scan, if anyone's (`WatchesCli`).

That leaves the time between the read and the signal. If no process forked after
a row of the table is given the group id it shows until `CLOCK_SLACK_MS` after the
read (`SweepSignals.GroupIdsKept`), everything that goes by a selected id until
then is that one group (`SweepSignals.TeardownSignalsOnlyDescendants`,
`StopSignalsOnlyDescendants`). `SweepSignals.TeardownCanSelect` is a run that
meets all of these assumptions and has a group selected.

Refusing everything would be safe too. `SweepUpkeep.StaysOnRecordExactly` says
which groups stay on record through a history of cycles, and
`SweepUpkeep.OverlappingMembersKeepGroup` that those whose members overlap from
cycle to cycle do, whoever of them has exited.

**The tree walk.** A filesystem is a map from inodes to nodes; `rank` is a ghost
witness that it is a forest of folders. `WalkState.Accounts` ties the explicit
stack to the recursive summary `FileTree.Under` of what is left, and
`WalkState.DiskHolds` to the disk. A walk is complete exactly when the recursive
condition `TreeWalk.GetsThrough` holds; what it counts, empties and leaves alone
follows from `Finished`, `Stopped` and `OnlyInside`. `TreeListing` says the same
of a tree entry by entry, an entry being a path of names: `TreeCount` gives the
condition, the counts, the problem reported and what is left in those terms.

**Protocols.** `RunnerSpec.Next` and `UploadClaims.After` are single steps of
concurrent tasks, and the results hold for every interleaving of them.

## Where the code and its own account of itself part

The code is what is modelled; each of these is proved.

- `refresh_sweep_with` says that running it again on the same snapshot changes
  nothing. That holds exactly when no walked group has a stale record in its way
  and the cap of 128 cuts no walked group off (`SweepSpec.RerunIsNoOpExactly`).
  Either alone breaks it: a record of a recycled id
  (`SweepSpec.RerunCanChangeTheRecords`), and 128 live, owned groups with one new
  one (`SweepSpec.CapCanChangeTheRecords`).
- An upload is meant to be marked sent only while a message answers for it. A
  launch that fails drops its command channel, and with it any message already
  queued there: its uploads stay marked sent for good, with no holder
  (`UploadClaims.FailedLaunchStrandsUpload`). No other step can do that
  (`UploadClaims.NothingDroppedExactlyUnlessStranded`).
- The prompts a runner holds are those its log leaves open, except after one
  event: the operator answers a prompt while a second one with the same id has
  been logged but not queued (`RunnerRuns.LogAgreesExactlyUnlessWrongOne`; a run
  of nine steps from a launch, `RunnerRuns.ReusedIdEscapesTheLog`). A child that does not reuse the id of a
  prompt still held cannot cause it.
- A catch-up walk ends at the head of its last reply, except that events arriving
  between the two reads of an empty last page are left to the live stream
  (`CatchUp.WalkEndsAtHead`, `CatchUp.WalkCanEndShort`).
- The page's copy of the input history stays the server's list exactly when the
  message is one the server recalls and the row pushed out of the server's scan
  was not the only trace of a listed text (`InputHistory.CopyIsTheListExactly`).
  The server leaves out texts over 10 000 bytes, which the page sends and
  remembers (`InputHistory.LongMessageParts`); 199 messages of one text after
  another one push that one out (`InputHistory.ScanCanDropAText`).
- Walking the history is said never to cost an unsent message. It does not cost
  a typed one. A completed command or a message put back is written to the box
  without being kept for the walk, and a step off the draft then loses it: the
  draft survives exactly the other steps (`InputHistory.PageHistory.Recall`). Up,
  down, a completed command, up and down lose it (`InputHistory.FilledDraftIsLost`).
- A page showing `Idle` has no prompt held, no task live and no turn end held
  back, unless a line made a task live while the agent was idle, or the agent was
  declared ready over a live one (`AgentRuns.IdleIsQuietExactlyUnless`,
  `AgentRuns.IdleOverALiveTask`).
- An agent out of tokens beneath an open prompt is said not to be working, but a
  pass that finds it so leaves the time it was last found at work running: a stall
  can end one minute after such a pass (`ResumeRuns.PromptDoesNotStopTheClock`).
  When it ends is `ResumeRuns.StallEndsExactly`.
- The comment on `Stall::saw` speaks of the count of nudges starting again; the
  code never resets it, which is what `ResumeRuns.StallIsBounded` rests on.
- The entry check at `src/tree.rs:263` can never fire: queued entries are part of
  the budget (the assertion in `TreeWalk.FileSystem.WalkStack`).

## Model

| member | source | states |
|---|---|---|
| ProcessTable.OwnsIsMonotoneInProof | src/agent/process.rs:1168-1192 | a later proof instant never takes ownership of a group away |
| ProcessTable.OwnsMeans | src/agent/process.rs:1168-1192 | the test is passed exactly on a live row of the group that is the recorded leader, its start within 1.5 seconds, or a member started 1.75 seconds or more before the last proof |
| SweepSpec.MergedShape | src/agent/process.rs:1086-1115 | merging keeps every known group in its place with the earliest sighting, latest proof and first witness, appends the others once each, and records no group twice |
| SweepSpec.MergedWithJoins | src/agent/process.rs:1103-1115 | where a known record and a walked one meet, the earlier sighting, the later proof and the older witness stay |
| SweepSpec.KillsTheProved | src/agent/process.rs:1279-1286 | the ids selected are those of exactly the records whose leader or old member the table shows, once each, in record order |
| SweepSpec.ProofMovesOnlyToTheTable | src/agent/process.rs:1103-1153 | one cycle moves a surviving record's proof to the later of its old value and the instant the table was read, never otherwise; the witness and the first sighting are kept |
| SweepSpec.ConfirmIsIdempotent | src/agent/process.rs:1129-1135 | one observation cannot advance a proof twice |
| SweepSpec.RerunIsNoOpExactly | src/agent/process.rs:1545-1566 | re-running a cycle on its snapshot is a no-op if and only if no walked group meets a stale record and none is beyond the cap of 128, both read off the inputs |
| SweepSpec.WalkedGroupStaysExactly | src/agent/process.rs:1143-1153 | a walked group survives its own cycle if and only if it is not stale and fewer than 128 owned groups follow it |
| SweepSpec.WalkedGroupLosesProofExactlyWhenStale | src/agent/process.rs:1103-1192 | a group the walk just found fails the ownership test if and only if an older record of the same id has a dead witness and no member old enough |
| SweepSpec.RerunCanChangeTheRecords | src/agent/process.rs:1554-1566 | a concrete recycled id for which the documented no-op fails |
| SweepSpec.CapCanChangeTheRecords | src/agent/process.rs:1143-1153 | 128 owned groups, none stale, and one new one, for which it fails through the cap |
| SweepSpec.RefreshedRecord | src/agent/process.rs:1545-1566 | every record a cycle ends with is owned, and is a merged record proved at the table's instant |
| SweepWalk.SweepTargets | src/agent/process.rs:1201-1273 | the loop over any table, cyclic or not, returns only live datable leaders strictly below the root outside the excluded ids, sorted and once each; with distinct pids it returns all of them |
| SweepWalk.WalkReturnsLeaders | src/agent/process.rs:1201-1273 | a record, dated now and with the leader's start, for each live leader below the root, except init's group, the server's own, the root's and the forbidden ones |
| SweepWalk.WalkIsDetermined | src/agent/process.rs:1201-1273 | those two halves leave one possible answer |
| SweepRecords.Sweep.Record | src/agent/process.rs:1086-1099 | finds the one record of a group or appends it |
| SweepRecords.Sweep.Merge | src/agent/process.rs:1103-1115 | the in-place loop computes the merge and keeps one record a group |
| SweepRecords.Sweep.Confirm | src/agent/process.rs:1129-1135 | the in-place loop proves again exactly the groups owned |
| SweepRecords.Sweep.Prune | src/agent/process.rs:1143-1153 | keeps exactly the owned groups, the newest 128 of them |
| SweepRecords.Sweep.Refresh | src/agent/process.rs:1545-1566 | a whole cycle; nothing changes without a root or a table |
| SweepRecords.Sweep.SurvivingGroups | src/agent/process.rs:1279-1286 | every record the table proves is selected and no other, once each and in order |
| SweepRecords.Sweep.StopTargets | src/agent/process.rs:1291-1303 | the records, joined to a fresh walk, go through the same test, and every group of the fresh walk is selected |
| OsRun.StepKeepsCoherent | src/agent/process.rs:1156-1167 | every step the system allows keeps one incarnation per group id |
| OsRun.GroupKeepsIncarnation | src/agent/process.rs:1156-1167 | temporal continuity: whatever goes by a group's id later is that group, unless its leader started after it was seen |
| OsRun.ProcessKeepsStart | src/agent/process.rs:1169-1180 | whoever has a pid later is the same process or a newer one |
| OsRun.StepKeepsParentLinks | src/agent/process.rs:1201-1223 | every step keeps a parent pid above 1 naming the live process that forked the child |
| SweepSafety.OwnedMeansAdopted | src/agent/process.rs:1168-1192 | passing the ownership test proves that the id named an adopted incarnation no earlier than the start of the scan |
| SweepSafety.WalkIsBacked | src/agent/process.rs:1249-1268 | what a walk records is backed by the rows it walked, whatever instants they describe |
| SweepSafety.RecordsAreBacked | src/agent/process.rs:1103-1192 | over every history of cycles each record's proof instant is one at which the group was the agent's |
| SweepSafety.TeardownIsSafe | src/agent/process.rs:1279-1286 | over every run no teardown selects a recycled group id |
| SweepSafety.StopIsSafe | src/agent/process.rs:1291-1303 | nor does a stop, whose own walk counts |
| SweepSafety.LivingLeaderIsOwned | src/agent/process.rs:1169-1180 | a group whose recorded leader lives and leads is owned however long ago the last proof was |
| SweepSafety.AdoptedDescends | src/agent/process.rs:1224-1268 | every group incarnation a walk adopted is led by a descendant of the CLI by fork, though the rows of the path may show different instants of the scan |
| SweepSafety.TeardownReachesOnlyDescendants | src/agent/process.rs:1279-1286 | over every run and history of one CLI a teardown selects only groups led by its descendants |
| SweepSafety.StopReachesOnlyDescendants | src/agent/process.rs:1291-1303 | and so does a stop |
| SweepSignals.TeardownSignalsOnlyDescendants | src/agent/process.rs:1279-1286 | until 1.5 seconds after the read, whatever goes by a selected id is one group, adopted and led by a descendant of the CLI |
| SweepSignals.StopSignalsOnlyDescendants | src/agent/process.rs:1291-1303 | the same for a stop |
| SweepSignals.TeardownCanSelect | src/agent/process.rs:1279-1286 | a run, a history and a table that meet every assumption, with one group selected |
| SweepUpkeep.StaysOnRecordExactly | src/agent/process.rs:1117-1153 | over any history of cycles a group stays on record if and only if each cycle's table shows its leader, or a member started before the last proof by the slack, and fewer than 128 living groups are newer on the list |
| SweepUpkeep.OverlappingMembersKeepGroup | src/agent/process.rs:1117-1135 | a group whose members overlap from cycle to cycle stays on record after its leader is gone |
| SweepUpkeep.ExitedGroupLeaves | src/agent/process.rs:1137-1144 | a group with no live process in the table is dropped by that cycle |
| FileTree.UnderAtLeastNames | src/tree.rs:327-340 | a folder has at least as much under it as it has names |
| FileTree.FoldersLieDeeper | src/tree.rs:206-365 | the folders counted under a folder really lie below it |
| TreeListing.OkExactly | src/tree.rs:280-362 | a tree is got through if and only if every entry in it is on the device, at most 128 folders deep, opens, and can go when it is to be removed |
| TreeListing.UnderSums | src/tree.rs:327-362 | the recursive summary is a listing of entries, none twice: their number, the non-folders, the sizes of the regular files; all of them if the tree is got through |
| TreeCount.GetsThroughExactly | src/tree.rs:206-365 | a walk can finish if and only if every entry can be got past and there are at most as many as it may visit |
| TreeCount.FinishedMeans | src/tree.rs:348-365 | a finished walk counted every non-folder once and added up the size field of every regular file, saturating at 64 bits; a removal left every folder of the tree empty |
| TreeCount.StoppedMeans | src/tree.rs:263-362 | a walk that stopped reports a problem some entry has, or that there are too many, counted no more than there is, and changed nothing on another device |
| WalkState.FileStepAccounts | src/tree.rs:348-362 | visiting a file moves it from what is left to what is done, and nothing else |
| WalkState.FolderStepAccounts | src/tree.rs:327-346 | entering a folder replaces it, in what is left, by its entries, and no folder is entered twice |
| WalkState.LeaveStepAccounts | src/tree.rs:245-262 | leaving a finished folder changes nothing that is done or left |
| WalkState.LeavingIsEmpty | src/tree.rs:246-260 | a folder being left while removing is empty on disk and still where it was found |
| TreeWalk.WalkingStaysInside | src/tree.rs:206-365 | at every point only folders of the tree differ from what they were, by lost entries or a changed mode |
| TreeWalk.FileSystem.ListDir | src/tree.rs:105-118 | a sorted listing, complete up to the limit and one too long beyond it |
| TreeWalk.FileSystem.OpenDirToRemove | src/tree.rs:125-139 | where the mode of an open file can be changed, a shut folder is opened on the second attempt |
| TreeWalk.FileSystem.Rmdir | src/tree.rs:253-259 | only an empty folder goes |
| TreeWalk.FileSystem.LeaveFolder | src/tree.rs:245-262 | the walk goes on, or the tree is one that cannot be got through |
| TreeWalk.FileSystem.VisitFile | src/tree.rs:348-362 | likewise for a file, which is counted with its size even if it cannot be removed |
| TreeWalk.FileSystem.EnterFolder | src/tree.rs:280-346 | likewise for a folder: another device, a level too many, a shut folder or too many entries stop the walk, and only they |
| TreeWalk.FileSystem.WalkOnDevice | src/tree.rs:206-365 | complete exactly when the tree can be got through; then count and bytes are the recursive ones, saturated, and in Remove mode nothing is left below the top; otherwise the counts are lower bounds; nothing outside changes; queued entries and depth stay in bounds |
| TreeWalk.FileSystem.CountTree | src/tree.rs:371-384 | counting changes nothing; where there is no folder there is nothing to count, one that fails to open in another way gives an incomplete answer, and any other is counted completely if and only if it can be got through, or a problem some entry has is reported |
| TreeWalk.FileSystem.RemoveTree | src/tree.rs:401-432 | a path without a parent, or whose parent cannot be opened, is an error and touches nothing; a missing parent is success; otherwise removal succeeds if and only if the tree can be got through and its own entry can go, and everything outside the tree, link targets and other devices included, is as it was |
| Dispatching.Dispatcher.SetStatus | src/agent/process.rs:249-254 | the in-place loop over the list, and whether the task was listed |
| Dispatching.Dispatcher.Trim | src/agent/process.rs:341-354 | the oldest finished subagent is dropped with all its marks |
| Dispatching.Dispatcher.TrackSubagent | src/agent/process.rs:225-356 | folds a task line into the list and says whether the list changed |
| Dispatching.Dispatcher.CloseSynchronousSubagent | src/agent/process.rs:364-386 | a loop that unmarks and ends subagents as it goes computes the one-shot effect |
| Dispatching.Dispatcher.CloseSubagentsAtTurnEnd | src/agent/process.rs:393-407 | the backstop's loop, and whether anything changed |
| Dispatching.Dispatcher.NoteSubagentTool | src/agent/process.rs:410-427 | a tool call is a sign of life, noted in place |
| Dispatching.Dispatcher.OnTaskLine | src/agent/process.rs:436-537 | the live set, and the end of a turn held back for it |
| Dispatching.Dispatcher.OnStdout | src/agent/process.rs:571-734 | a line's whole effect, what it says of the turn, and the new list whenever it changed |
| LineEffects.ResultMeans | src/agent/process.rs:364-386 | a returning call completes, or on an error fails, exactly the foreground subagents it started that run or were taken to have ended; marks go; nothing else changes |
| LineEffects.ResultsInTurn | src/agent/process.rs:661-684 | several results are taken one after the other |
| LineEffects.ToolMeans | src/agent/process.rs:410-427 | a tool run by a subagent becomes its activity, and one taken to have ended runs again |
| LineEffects.ToolsInTurn | src/agent/process.rs:614-659 | several tools likewise; the agent's own only open the turn |
| LineEffects.NotificationMeans | src/agent/process.rs:309-321 | a notification gives its status, completed by default, to its task alone |
| LineEffects.UpdateMeans | src/agent/process.rs:288-308 | a terminal update gives its status; any other only revives a task taken to have ended |
| LineEffects.ProgressMeans | src/agent/process.rs:266-287 | progress sets the activity it names and revives |
| LineEffects.LiveListMeans | src/agent/process.rs:322-338 | a list of live tasks replaces the live set, and completes what ran in the background and is not on it |
| LineEffects.StartMeans | src/agent/process.rs:228-265 | a start revives in place or adds a row, and files the task as backgrounded, synchronous or top-level |
| LineEffects.StartOnFullList | src/agent/process.rs:341-354 | a 33rd row pushes out the first that is not running, or the very first, with all its marks |
| LineEffects.OtherLinesLeaveList | src/agent/process.rs:225-356 | all other lines leave the list alone |
| LineEffects.TurnEndMeans | src/agent/process.rs:393-407 | a result line completes and marks exactly what runs, is top-level synchronous and not live, and holds the end back exactly for live tasks |
| LineEffects.LinesSay | src/agent/process.rs:571-734 | which line announces readiness, a turn, its end and the limit |
| DispatchRuns.LineKeepsValid | src/agent/process.rs:225-427 | every line keeps ids distinct, at most 32 listed, side sets about listed subagents, backstop marks only on top-level synchronous subagents shown completed, and a turn end held back only for a live task |
| DispatchRuns.EndedStaysEnded | src/agent/process.rs:225-427 | a subagent that ended for real runs again only after a new start or a notification saying "running" |
| DispatchRuns.SignOfLifeUndoesGuess | src/agent/process.rs:266-307 | the backstop's guess is undone by the first sign of life |
| DispatchRuns.TurnEndClosesWhatItMust | src/agent/process.rs:388-407 | after a result nothing bound to the turn still reads as running, and new marks are only on what did |
| DispatchRuns.TurnEndsAreConserved | src/agent/process.rs:515-537 | over every run each result becomes one turn end or one limit, is held back, or was folded into one held back already |
| DispatchRuns.TurnEndsOnlyWhenNothingIsLive | src/agent/process.rs:515-529 | a turn end is announced only with nothing live, nothing held and no turn open |
| DispatchRuns.HeldTurnIsNeverLost | src/agent/process.rs:515-537 | a turn end held back goes with an announcement of it or of the limit |
| DispatchRuns.TurnsAreAnnouncedOnce | src/agent/process.rs:615-626 | between two announced turn starts some line closed the first |
| DispatchRuns.ShownListIsTheList | src/agent/process.rs:594-598 | a page that only takes the lists it is sent shows the list there is |
| PermissionLog.OpenMeansUndecided | src/db.rs:605-637 | a prompt is open exactly when it was asked and not decided since |
| PermissionLog.OpenRequestsListed | src/db.rs:605-637 | the open requests are those of the undecided events in log order, repeats included |
| PermissionLog.EventLog.PendingPermissions | src/db.rs:605-637 | the loop over the log computes that, in order, repeated ids included |
| PermissionLog.EventLog.ExpirePendingPermissions | src/db.rs:644-660 | from any log, nothing is open afterwards; the log only grows, by one decision per open prompt |
| Runners.Runner.SetStatus | src/agent/supervisor.rs:2074-2108 | moves the status underneath and announces the corrected one if it is news |
| Runners.Runner.SyncApprovals | src/agent/supervisor.rs:2133-2140 | corrects the status once the prompts held have changed |
| Runners.Runner.OnAction | src/agent/supervisor.rs:2317-2447 | one action of a line, a reused live id ignored |
| Runners.Runner.OnCommand | src/agent/supervisor.rs:2499-2526 | one command, taken between any two actions |
| Runners.Runner.DecideOn | src/agent/supervisor.rs:2565-2623 | only a prompt held is answered, and it is logged |
| Runners.Runner.Withdraw | src/agent/supervisor.rs:2630-2651 | a prompt taken back leaves like an answered one |
| Runners.Runner.OnExit | src/agent/supervisor.rs:2678-2723 | the final status, and every prompt held closed in the log |
| RunnerRuns.StepKeepsStatus | src/agent/supervisor.rs:2074-2140 | after every action and command the status shown is the one underneath corrected by the prompts held, and no two changes of status announced in a row are to the same one |
| RunnerRuns.AwaitingMeansHeld | src/agent/state.rs:90-107 | a live agent shows that it awaits approval exactly while a prompt is held |
| RunnerRuns.PromptsLeaveNoTrace | src/agent/supervisor.rs:2079-2091 | with no prompt held the status is the one the turns alone would have led to |
| RunnerEffects.StepSetsStatus | src/agent/state.rs:57-90 | over any step: a turn start is work, its end rest, a limit a limit, readiness ends the start alone, an exit is a stop or a failure, and nothing else moves the status underneath |
| RunnerEffects.StepShows | src/agent/supervisor.rs:2094-2108 | what is shown is that or, while a prompt is held, that approval is awaited; it is announced exactly when it differs |
| RunnerEffects.OutOfTokensLasts | src/agent/state.rs:78-82 | over every interleaving an agent out of tokens stays so until a turn starts or ends or it is gone |
| RunnerEffects.StepHandlesPrompts | src/agent/supervisor.rs:2384-2447 | what any step does to the prompts held, the log and the handshake |
| RunnerEffects.LineInFull | src/agent/supervisor.rs:2317-2447 | a whole line leaves its prompt logged and held, or released and decided |
| RunnerEffects.TurnLineInFull | src/agent/supervisor.rs:2317-2447 | a whole line about the turn leaves the status it says |
| RunnerEffects.ReadinessInFull | src/agent/supervisor.rs:2414-2447 | only the first answer to the handshake makes a starting agent ready |
| RunnerRuns.LogAgreesExactlyUnlessWrongOne | src/agent/supervisor.rs:2384-2412 | a step keeps log and held prompts in agreement if and only if it is not the answer to a prompt whose id is in flight again |
| RunnerRuns.HeldAreOpenInTheLog | src/agent/supervisor.rs:2384-2412 | without reuse of live ids the prompts held are those the log leaves open, between any two lines of any run |
| RunnerRuns.NeverReusedIsNotLive | src/agent/supervisor.rs:2385-2405 | a child that never repeats an id meets that condition |
| RunnerRuns.ExitLeavesOpen | src/agent/supervisor.rs:2700-2723 | an exit leaves open at most the prompt it cut off in flight |
| RunnerRuns.ReusedIdEscapesTheLog | src/agent/supervisor.rs:2384-2412 | a run from a launch that reuses a live id, after which a prompt is held that the log calls decided |
| AgentRuns.IdleIsQuietExactlyUnless | src/agent/process.rs:515-537 | while the child runs a step keeps idle meaning no live task and no turn end held back, if and only if it is neither a line to an idle agent that lists live tasks or starts one in the background, nor readiness declared over a live one |
| AgentRuns.ResultSpeaks | src/agent/process.rs:685-734 | a result line moves the status to the limit, to the end of the turn, or not at all |
| AgentRuns.TalkSpeaks | src/agent/process.rs:614-667 | a turn that starts moves the status before its line is logged |
| AgentRuns.SystemSpeaks | src/agent/process.rs:581-600 | a system line moves it to readiness, or to an end held back till then |
| AgentRuns.IdleMeansAtRest | src/agent/supervisor.rs:2074-2140 | over every interleaving of lines and commands without those two, a page shows `Idle` only with no prompt held, no task live and no turn end held back |
| AgentRuns.IdleOverALiveTask | src/agent/process.rs:436-537 | four steps from a launch to a page that shows `Idle` over a live task |
| UploadTable.Uploads.RecordUpload | src/db.rs:804-852 | a cancel waiting is consumed, a taken name refused, otherwise the upload is pending |
| UploadTable.Uploads.CancelByClientId | src/db.rs:879-917 | withdraws a pending upload, leaves a sent one, or leaves a cancel; cancels older than an hour go |
| UploadTable.Uploads.DeletePendingUpload | src/db.rs:979-987 | only an unsent row goes |
| UploadTable.Uploads.ClaimUploads | src/db.rs:996-1029 | all or none: claimed if and only if every name is distinct and pending, else nothing changed and the name that failed is given |
| UploadTable.Uploads.ReleaseUploads | src/db.rs:1033-1043 | exactly the named rows are pending again |
| UploadTable.ReleaseUndoesClaim | src/db.rs:996-1043 | claim then release is no change |
| UploadTable.CancelWinsEitherWay | src/db.rs:800-803 | a cancel racing the recording wins in both orders, with the same table after |
| UploadTable.AttachmentNames | src/agent/supervisor.rs:1119-1127 | the distinct names of a message in the order first given, refused beyond 32 |
| UploadClaims.StepKeepsGood | src/agent/supervisor.rs:1118-1204 | every step of senders, runner, exit and launch keeps each sent row answered for by exactly one message and each pending row by none |
| UploadClaims.SentExactlyWhenHeld | src/agent/supervisor.rs:1128-1131 | rows are sent exactly when they have one live holder, if and only if no message was dropped with uploads in it; never two holders |
| UploadClaims.NothingDroppedExactlyUnlessStranded | src/agent/supervisor.rs:1020-1045 | the only step that can break that is a launch failing under a queued message with attachments |
| UploadClaims.UploadsAreConserved | src/agent/supervisor.rs:2015-2049 | over every interleaving without it, sent means one holder, and at quiescence the sent rows are the delivered ones |
| UploadClaims.SentAreDelivered | src/agent/supervisor.rs:2015-2049 | at quiescence sent rows are delivered or stranded ones |
| UploadClaims.DeliveredForGood | src/db.rs:988-995 | what was delivered, or stranded, stays sent and with no other message for ever |
| UploadClaims.FailedLaunchStrandsUpload | src/agent/supervisor.rs:975-1045 | five steps that strand an upload |
| ResumeSpec.TokensStayTokens | src/agent/resume.rs:179-204 | for a fixed snapshot the go-ahead is never taken back by time |
| ResumeSpec.TokensMeans | src/agent/resume.rs:179-204 | tokens are read exactly from a serving since the stall, or from this stall's window having rolled over past the grace |
| ResumeSpec.RejectionMeans | src/agent/resume.rs:154-204 | a rejection is read by its reset second, or the least of the windows': nothing if none or not after the stall, held until 15 seconds past it, tokens from then on |
| ResumeSpec.ServingMeans | src/agent/resume.rs:179-204 | any other snapshot means tokens exactly if taken since the stall began; none means nothing |
| ResumeSpec.BackoffIsCappedDoubling | src/agent/resume.rs:366-373 | one minute doubling to thirty, for every count, with neither shift cap nor saturation showing |
| ResumeSpec.DueExactly | src/agent/resume.rs:302-324 | the first nudge at once or after 5 minutes, then 1, 2, 4, 8, 16 and 60 minutes after the last, 30 after news, never a thirteenth |
| ResumeSpec.DueStaysDue | src/agent/resume.rs:302-324 | once due, due from then on |
| ResumeSpec.EvidenceNeverDelays | src/agent/resume.rs:312-324 | news of tokens makes a nudge due no later than ignorance would |
| ResumeSpec.EvidenceIsFloored | src/agent/resume.rs:312-324 | and no sooner than the floor or the schedule |
| ResumeSpec.NudgeKeepsGap | src/agent/resume.rs:302-324 | a nudge leaves the gap its number asks for, whatever the verdict |
| ResumeWatcher.Stall.Due | src/agent/resume.rs:302-324 | the branches decide by one instant per stall |
| ResumeWatcher.Watcher.Pass | src/agent/supervisor.rs:406-476 | a pass judges each agent by its own stall alone, forgets the gone and the recovered, keeps those under a prompt as they were, and reports exactly the nudges that got through though all are counted |
| ResumeRuns.StallIsBounded | src/agent/resume.rs:302-346 | against any verdicts, at most 12 nudges a stall, spaced 1, 2, 4, 8, 16 and then at least 30 minutes, 211 minutes in all |
| ResumeRuns.OutOfTokensMeans | src/agent/supervisor.rs:437-462 | what one pass leaves of a stall: the nudge counted, the news used or kept, the work forgotten |
| ResumeRuns.StallOutlastsProgress | src/agent/supervisor.rs:420-428 | a stall ends for work only 5 minutes after every pass that found the agent out of tokens with no prompt open |
| ResumeRuns.StallEndsExactly | src/agent/supervisor.rs:417-428 | over every kind of pass a stall ends if and only if the agent is gone, or is found at work 5 minutes after an earlier such pass with none between that found it out of tokens and no prompt open |
| ResumeRuns.PromptDoesNotStopTheClock | src/agent/supervisor.rs:417-428 | four passes that end a stall one minute after a pass found the agent out of tokens beneath a prompt |
| ResumeRuns.StoppedStaysStopped | src/agent/resume.rs:333-336 | no evidence lifts the ceiling |
| ResumeRuns.PassIsALookAtEach | src/agent/supervisor.rs:406-476 | the pass over everyone is, for each agent, the single look those bounds are about |
| UploadNames.CleanNameIsNeat | src/uploads.rs:79-102 | every name sent by a browser becomes a clean one |
| UploadNames.CleaningIsIdempotent | src/uploads.rs:79-102 | cleaning twice is cleaning once, and changes nothing exactly when the name is clean |
| UploadNames.CleaningMeans | src/uploads.rs:79-102 | the sifted basename without dots and dashes in front, the fewest characters cut off its stem; "upload" if nothing is left |
| UploadNames.BasenameMeans | src/uploads.rs:80 | the basename is what follows the last separator of either kind |
| UploadNames.SiftedKeepsLetters | src/uploads.rs:85-95 | sifting keeps every allowed character but dashes, in order |
| UploadNames.SiftedMarksGaps | src/uploads.rs:85-95 | and leaves one dash exactly where dashes or other characters stood, control characters none |
| UploadNames.SplitsExactly | src/uploads.rs:123-128 | the extension is what follows the last dot, if not the whole name and at most 16 bytes |
| UploadSuffix.SuffixedIsFixed | src/uploads.rs:131-149 | whatever short tidy suffix is fitted into a clean name, the result is clean, within the length, and a fixed point of cleaning |
| UploadSuffix.NumberedIsFixed | src/uploads.rs:115-149 | a clean name with any number on it is clean and at most 120 bytes, so it is found again under the name it was stored as |
| UploadSuffix.DecimalReadsBack | src/uploads.rs:240-247 | printing and parsing a number undo each other |
| UploadSuffix.CandidateIsRecognised | src/uploads.rs:223-250 | every uncut candidate's fold key is read back as its own number |
| UploadSuffix.NextSuffixIsFree | src/uploads.rs:223-250 | from the number found up to a million no uncut candidate is recorded |
| UploadNumbers.NextSuffixExactly | src/uploads.rs:223-250 | the number found is 1 exactly when no recorded key counts for the name, and otherwise one past the highest that does |
| UploadNumbers.SuffixedMeans | src/uploads.rs:137-149 | a suffixed name keeps the longest part of the stem that leaves room, less its trailing dashes |
| UploadNumbers.DecimalIsUsual | src/uploads.rs:115-118 | printed numbers, the largest included |
| UploadSuffix.AsciiIsSane | src/uploads.rs:79-102 | ASCII meets all that is asked of an alphabet and its case folding |
| UploadNaming.CutAtBoundary | src/uploads.rs:137-143 | backing off byte by byte cuts at the longest whole-character prefix that fits |
| UploadNaming.Clean | src/uploads.rs:79-102 | the loops compute the cleaning |
| UploadNaming.FindNextSuffix | src/uploads.rs:223-250 | the loop finds the highest recorded number, within 32 bits |
| UploadNaming.Folders.CreateEverywhere | src/uploads.rs:175-198 | a name is created in every folder or in none, and the first folder that will not have it decides the outcome |
| UploadNaming.Folders.CreateUnique | src/uploads.rs:161-203 | the numbered and then the random names are tried in order; a name reserved is in every folder, and otherwise nothing is left behind |
| UploadNaming.AttemptsMean | src/uploads.rs:161-176 | which names are tried: a thousand counting up from the first, the bare one being number 1, then the random ones |
| UploadNaming.ReservedIsFirstFree | src/uploads.rs:161-203 | the name reserved is the first not taken, was in no folder, and can be created in all; none is free if and only if all are taken |
| UploadNaming.AttemptsAreClean | src/uploads.rs:131-176 | every name tried for a clean name, numbered or with eight random hex digits, is clean and a fixed point of cleaning |
| Transcripts.Transcript.Seed | src/assets/transcript.js:27-33 | only the first page's start counts |
| Transcripts.Transcript.Accept | src/assets/transcript.js:40-54 | each number is rendered once, in order within a batch, and the cursor is the frontier of what was seen, never past a missing number |
| CatchUp.EventTable.Append | src/db.rs:503-517 | numbers go up by one from 1 |
| CatchUp.EventTable.EventsAfter | src/db.rs:520-538 | the page after a cursor, in order, up to the limit |
| CatchUp.PageMeans | src/db.rs:520-538 | a page holds the numbers above the cursor in order, all of them unless it is full |
| CatchUp.OrderDoesNotMatter | src/assets/transcript.js:40-54 | what is seen and the cursor do not depend on the order or overlap of pages and live events |
| CatchUp.WalkAdvances | src/assets/transcript.js:72-77 | every page asked for moves the walk on |
| CatchUp.WalkCoversAll | src/web/ws.rs:262-306 | the pages of a walk leave nothing out up to its last cursor |
| CatchUp.WalkEndsAtHead | src/web/ws.rs:288-306 | which is the head of the last reply, if and only if no event came between the two reads of an empty last page |
| CatchUp.WalkCanEndShort | src/web/ws.rs:288-306 | the shortest walk that ends below the head |
| CatchUp.WalkCatchesUp | src/assets/transcript.js:72-77 | a view walked from at or below its cursor has every number up to that, however many live events came |
| Registry.Runners.Deregister | src/agent/supervisor.rs:1613-1622 | only the owning generation removes a slot |
| Registry.StepKeepsGood | src/agent/supervisor.rs:974-1102 | every slot is held by the one launch of its agent under way |
| Registry.OneLaunchPerAgent | src/agent/supervisor.rs:980-1001 | over every interleaving at most one launch per agent is claimed, running or tearing down |
| Registry.SlotsComeBack | src/agent/supervisor.rs:1022-1024 | a failed spawn or an exit always frees its own slot and no other; a refused launch changes none |
| Registry.CheckThenClaimIsNotEnough | src/agent/supervisor.rs:980-984 | checking and claiming as two steps would let two launches through |
| InputHistory.RecentUserInputs | src/db.rs:567-602 | the scan returns the first 50 distinct usable texts of the newest 200, oldest first |
| InputHistory.RecentMeans | src/db.rs:567-602 | the list is the at most 50 usable texts that first come up earliest in the newest 200 rows, the last of them in front |
| InputHistory.CopyIsTheListExactly | src/assets/agent.js:1017-1023 | for any message, the page's update equals the server's recomputed list if and only if the server recalls the text and the row leaving the scan was not the only trace of a listed one |
| InputHistory.ScanCanDropAText | src/db.rs:567-602 | 200 rows for which it fails through the scan's limit |
| InputHistory.LongMessageParts | src/db.rs:584-592 | a message the server never recalls, for which it fails |
| InputHistory.PageHistory.RememberInput | src/assets/agent.js:1017-1023 | moves a text to the end, within the cap, and ends any walk |
| InputHistory.PageHistory.Recall | src/assets/agent.js:1049-1080 | where a step leads, that every position keeps its text, and that the draft survives if and only if the step does not leave it while the box holds something filled in |
| InputHistory.PageHistory.Fill | src/assets/agent.js:997-1002 | the page's own writes change the box alone, and put a walk out of step exactly when the text is not the one kept |
| InputHistory.FilledDraftIsLost | src/assets/agent.js:1049-1080 | five actions of an operator after which the message in the box is gone |
| InputHistory.PageHistory.Type | src/assets/agent.js:1532 | typing in a walk edits the entry shown and no other, so the draft changes only when it is the one shown |

## Left out

- JSON, `ps` and its output format, signals, pipes, timers and the tasks around them: parsed lines, tables and steps are taken as given; a choice between ready tasks is any order of steps.
- Database failures: each transaction is one step that succeeds.
- The inside of a channel: sending is one step, so the gap between a slot reserved in a channel and its message is not modelled.
- Labels, notices, costs, toasts and log payloads; a task line's description is one value, and the label kept beside each live task is dropped.
- Errors of `stat`, `readdir`, `fstat` and `fchmod` in the tree walk, entries swapped while it runs (so its `LOOP` and `NOTDIR` branch), and the lock that lets one walk run at a time: the tree is fixed while it is walked. Machine-size sums of entry limits are unbounded.
- Sweep refreshes are whole cycles; the gate that skips some of them and the watermark that makes some read a newer table only change which cycles happen, which the results leave open.
- Unicode normalisation is the identity on the alphabets considered, and case folding works character by character as it does on ASCII; upload names that fold alike are one name in `UploadTable`.
- UploadNaming.Folders.CreateUnique: random suffixes are inputs, and a rollback's own deletions do not fail.
- RunnerRuns.StepKeepsStatus: the messages that repeat the current status to carry a new detail or subagent list (`src/agent/supervisor.rs:2112-2150`) are not among the announcements.
- AgentRuns.IdleMeansAtRest: a line's log entries are one entry, and its subagent list has no part in the status.
- Orphans go to pid 1: a process that adopts orphans in place of pid 1 is not modelled.
- UploadTable.Uploads.CancelByClientId: which row is found, should two carry one client id, is left open.
- Control requests other than the handshake, and the table of those still unanswered: a readiness line is an answer to the handshake that is still awaited.
- The copies of uploaded files and their check against size and digest: a check either passes or fails.
- The pages' own handling of deleted agents, settings, worktrees, git, the web routes and authentication.
- SweepSafety.LivingLeaderIsOwned: needs rows whose age is exact to the second and a table read within half a second of them; otherwise a living leader may go unrecognised, which is the safe side.
- SweepUpkeep.OverlappingMembersKeepGroup: needs such rows of the members that overlap; `StaysOnRecordExactly` takes the rows as they are.
- Overflow of 64-bit instants in the resume schedule: only the backoff's own arithmetic is bounded.
