# Owlat tooling, modelled and proved in Dafny

The repository's CI, release and development tooling holds small programs that
other things rely on: a lock between worktree setups, a scheduler, a scanner for
shell comments, two analysers of compose files that guard the Docker socket, an
admission queue, a process supervisor, and the rules by which a release is cut.
This project models them, one module for each, and proves what each is for.

Loops and objects of the source are loops, classes and arrays here, proved against
functions; the theorems are about those functions. Protocols with more than one
actor are state machines whose steps are the single operations of the source (one
file-system call, one lock operation, one event), and the theorems hold for every
order of steps, of any length, with crashes where the source can crash.

| modules | source | what is proved |
|---|---|---|
| `SetupMarkers` | `scripts/setup-worktree.ts` | The `setup-running` lock with its takeover of stale markers: at most one live run holds it, in every interleaving, with crashes between any two operations and process numbers used again |
| `ShellScanner`, `ShellScripts`, `ShellTurns`, `ShellRoundTrip`, `LineCounter` | `scripts/comment-policy.ts` | The scanner finds exactly the comments of every printed script, with their lines; the grammar nests quotes, expansions, substitutions, arithmetic and here-documents |
| `BinScheduler`, `WorkspaceGroups` | `scripts/ci/selection.ts` | The scheduler parts the workspaces, evenly, and within 4/3 - 1/(3m) of any other grouping |
| `PathGlobs` | `scripts/ci/selection.ts` | The regular expression made of a glob means the glob |
| `ComposeFile`, `DockerProxyNetwork`, `DockerProxyIsolation` | `scripts/check-docker-proxy-network.ts` | An empty report isolates the socket proxy's network, for every project name |
| `ComposeInterpolation`, `HostPaths`, `SocketAccess`, `SocketIsolation` | `scripts/docker-socket-access.ts` | An empty report keeps the Docker socket from every service but the proxy |
| `SlotAdmission` | `apps/decision-local/server.py` | The single inference slot, its queue limit and its deadlines |
| `Supervision`, `SupervisionRuns` | `scripts/dev-stack/supervise.ts` | Process groups are stopped together, and nothing is signalled after it is gone |
| `UniqueNames`, `CleanText`, `Decide`, `Peakedness`, `Decimals` | `apps/decision-local/decide.py` | Answers are distributions over exactly the caller's options, read from no one else's scores, with a confidence between 0 and 1 |
| `JsonPages`, `JobMetrics` | `scripts/ci/github.ts`, `scripts/ci/metrics.ts` | Splitting undoes printing; the peak is the largest number of jobs that run at once |
| `MainReuse` | `scripts/ci/reuse-probe.ts`, `scripts/ci/reuse.ts` | A main run is reused only on full, matching evidence, and the full run is asked for only when it must be |
| `ReleaseTags`, `ReleaseLifecycle` | `scripts/ci/release-policy.ts`, `scripts/release.ts`, `scripts/release-promote.ts` | Candidates are numbered without gaps, and a stable tag stays on its newest candidate |
| `ReleaseAliases` | `scripts/ci/aliases.ts` | `latest` and each line's alias point to the greatest release, and never go back |
| `Reachability`, `BuildGraph`, `BundleClosure`, `IsolateWalk` | `scripts/check-build-graph.ts`, `scripts/bundle-closure.ts`, `scripts/check-convex-node-globals.ts` | The worklists compute reachability exactly |

`Basics` holds the string operations that several of them share. `dafny verify
dfyconfig.toml` checks everything.

Some properties hold under a condition. There the model keeps the code as it is, a
lemma shows the failure and another that the condition is the right one: a pattern
is read by JavaScript just when its braces match (`PathGlobs.RefusedIffUnbalanced`)
and means its glob on just the paths without line terminators
(`PathGlobs.OneLineIsTheCondition`); the peak of concurrent jobs is right just for
jobs that end no earlier than they start (`JobMetrics.OrderIsTheCondition`); a
verdict on a `service:` chain is right for every file just when the name has no
colon (`DockerProxyNetwork.NoColonIsTheCondition`); a caller wins the inference slot
by its deadline but for what its last wait was held up (`SlotAdmission.OneWorksInTime`,
and `SlotAdmission.BoundIsMet` that any such delay can happen); and a stale marker
whose claim was left behind is never taken over (`SetupMarkers.CutOffStays`, as the
source's own comment says).

What the outside supplies is a parameter or part of a step: the answers of GitHub
and the clock (`MainReuse.World`, the steps of `ReleaseLifecycle`), the kernel's
answer whether a process group exists (`Supervision.World`), `is_gone` and the
result of the work (`SlotAdmission.Step`), the engine's scores, the rendering of the
state and the logarithm (`Decide`, `Peakedness.IsLog`), `JSON.parse` (`JsonPages`), file contents and import graphs
(`BundleClosure`, `IsolateWalk`), and the parsed compose file (`ComposeFile.Yaml`).

## Model

| member | source | states |
|---|---|---|
| SetupMarkers.MutualExclusion | scripts/setup-worktree.ts:156-256 | In every interleaving of any number of runs, with crashes anywhere and process numbers reused, two live runs past `acquire` are the same run, and the marker holds its token |
| SetupMarkers.MarkerHistory | scripts/setup-worktree.ts:164-216 | In every run each removal of the marker removes the remover's own, and no content is replaced by a takeover twice |
| SetupMarkers.OnlyTheDeadAreReplaced | scripts/setup-worktree.ts:188-196 | Whenever a run is about to rename over the marker, the marker is there and names no live run |
| SetupMarkers.ResultsExclude | scripts/setup-worktree.ts:228-255 | `setup-done` and `setup-failed` are never both there, if they were not at the start |
| SetupMarkers.StepKeepsInv | scripts/setup-worktree.ts:133-256 | Every single file operation, start, crash, exit and interrupt keeps the invariant: who is named, what each run in a takeover knows, the results and the history |
| SetupMarkers.InvHolds | scripts/setup-worktree.ts:133-256 | ... and so does every sequence of them |
| SetupMarkers.TokenNamesPid | scripts/setup-worktree.ts:115-149 | Reading the number off a run's token gives back the process it was made for |
| SetupMarkers.StaleMarkerIsTaken | scripts/setup-worktree.ts:164-197 | A run that finds a dead process's marker and no claim holds the marker after seven operations undisturbed, and leaves no claim behind |
| SetupMarkers.CutOffStays | scripts/setup-worktree.ts:174-187 | Once a run has died holding the claim on a stale marker, nothing any run does takes that marker over or removes it, and no run ever holds it |
| SetupMarkers.WorkEnds | scripts/setup-worktree.ts:207-255 | The end of the steps and an interrupt between them keep the invariant |
| ShellScanner.ShellCommentPieces | scripts/comment-policy.ts:279-375 | The loop over lines and columns reports the pieces of the scan `ScanScript`, on every text |
| ShellScanner.ScanScript | scripts/comment-policy.ts:279-375 | On every text, whatever its quoting, the script's own context is at the bottom of the final stack, everything above it is a context that can be opened, and no depth is negative |
| ShellScanner.Turn | scripts/comment-policy.ts:291-368 | Every turn takes at least one character and at most what is left of the line, and keeps the stack so |
| ShellScanner.ScanLine | scripts/comment-policy.ts:291-368 | The column loop finds in a line the comments, stack and here-documents that the turns give one after the other |
| ShellScanner.OneLine | scripts/comment-policy.ts:284-373 | One round of the line loop is one step of the scan, for here-document lines, the `#!` line and all others |
| ShellRoundTrip.ScriptComesBack | scripts/comment-policy.ts:279-375 | Scanning any printed script gives exactly the comments printed, on their lines and in order, and ends with only the script's own context open |
| ShellRoundTrip.ScriptComments | scripts/comment-policy.ts:270-375 | The texts reported are the comments of the script tree, and each stands in the text on the line reported |
| ShellRoundTrip.ScanNode | scripts/comment-policy.ts:291-368 | In any place a node may stand, scanning its text finds its comments and restores the stack, and the here-documents it opened are pending |
| ShellRoundTrip.OverDocument | scripts/comment-policy.ts:285-289 | A here-document's body is passed over up to its delimiter line, with leading tabs dropped for `<<-`, whatever the body holds |
| ShellTurns.TurnComment | scripts/comment-policy.ts:360-367 | A `#` at the start of a word gives the text up to the line's end, or up to the closing backquote |
| ShellTurns.WordRead | scripts/comment-policy.ts:234-235 | A delimiter word is read back in each of its four spellings |
| LineCounter.LineStarts | scripts/comment-policy.ts:213-215 | The table holds zero and the place after every line break, in order |
| LineCounter.LineOf | scripts/comment-policy.ts:216-225 | The binary search gives the first line plus the line breaks before the offset |
| BinScheduler.PlacedOnLeast | scripts/ci/selection.ts:39-41 | Every job goes to a least loaded bin, the lowest numbered of these |
| BinScheduler.OpensBinsInOrder | scripts/ci/selection.ts:31-41 | With positive weights the first jobs open the bins one after the other, so none stays empty |
| BinScheduler.Balanced | scripts/ci/selection.ts:36-42 | Any two bins differ by at most the largest job |
| BinScheduler.ListSchedulingBound | scripts/ci/selection.ts:36-42 | m times any bin is at most the total plus m - 1 times the largest job, for every order of jobs |
| BinScheduler.LongLastJob | scripts/ci/selection.ts:36-42 | Where three jobs of the last one's length cannot share a bin of an assignment within `cap`, the greedy bin stays within `cap` |
| BinScheduler.StretchBound | scripts/ci/selection.ts:36-42 | With jobs in descending order, 3m times any bin is at most 4m - 1 times the largest bin of any assignment of the jobs to m bins |
| WorkspaceGroups.PickBin | scripts/ci/selection.ts:39 | The bin picked weighs least, and less than every bin before it |
| WorkspaceGroups.PlaceAll | scripts/ci/selection.ts:36-42 | The loop leaves in each bin, with the right weight, what the greedy assignment sends there |
| WorkspaceGroups.GroupWorkspaces | scripts/ci/selection.ts:29-44 | The groups returned are those of the greedy assignment, numbered from 1 |
| WorkspaceGroups.SortedIsHeaviestFirst | scripts/ci/selection.ts:36-38 | The sort leaves no lighter workspace before a heavier one |
| WorkspaceGroups.SortIsStable | scripts/ci/selection.ts:36-38 | Workspaces of one weight keep their order |
| WorkspaceGroups.GroupsPartition | scripts/ci/selection.ts:29-44 | Every small workspace is in exactly one group, as often as it was given, and no group is empty |
| WorkspaceGroups.GroupsAreEven | scripts/ci/selection.ts:27-44 | Two groups differ by at most the heaviest item, and m times a group is at most the total plus m - 1 times that |
| WorkspaceGroups.GroupsAreNearOptimal | scripts/ci/selection.ts:27-44 | Against any other way to part the same workspaces into as many groups, 3m times a group is at most 4m - 1 times the heaviest there |
| PathGlobs.GlobSource | scripts/ci/selection.ts:183-201 | The index loop writes what the tokens of the pattern stand for, one after the other |
| PathGlobs.PathPattern | scripts/ci/selection.ts:180-182 | ... and the whole source is anchored at the start, and at the end unless the pattern names a directory |
| PathGlobs.PathPatternMeansGlob | scripts/ci/selection.ts:174-208 | For every pattern with matching braces and every path on one line the regular expression accepts the path exactly when the glob denotes it, or, for a trailing slash, denotes a prefix of it |
| PathGlobs.WellFormedIffBalanced | scripts/ci/selection.ts:195-205 | A pattern spells a glob exactly when its braces match |
| PathGlobs.RefusedIffUnbalanced | scripts/ci/selection.ts:180-201 | JavaScript refuses the source exactly when the pattern's braces do not match |
| PathGlobs.LineBreakIsMissed | scripts/ci/selection.ts:190-192 | On every path with a line terminator `**` means something else than its glob |
| PathGlobs.OneLineIsTheCondition | scripts/ci/selection.ts:180-201 | All patterns with matching braces mean their globs on a path exactly when it has no line terminator |
| PathGlobs.ReadEmitted | scripts/ci/selection.ts:187-198 | Reading back what is written for a token does to the regular expression what the token does to the glob |
| PathGlobs.GateSelectedMeans | scripts/ci/selection.ts:209-224 | A gate runs exactly when a changed path is in the meaning of one of its patterns or of a global one, or a workspace it reads is affected |
| JsonPages.SplitPages | scripts/ci/github.ts:29-59 | The character loop gives the pages of the text, or the error, that splitting page by page gives |
| JsonPages.SplitUndoesPrint | scripts/ci/github.ts:29-59 | Documents printed with any whitespace around them split back into themselves |
| JsonPages.SplitIsPrinted | scripts/ci/github.ts:29-59 | Any text that splits is its slices with only whitespace around them, each closing at its end and nowhere before |
| JsonPages.PagesComeBack | scripts/ci/github.ts:27-59 | Every list of JSON arrays and objects, printed with any whitespace and any brackets, quotes and backslashes in its strings, comes back page by page |
| JobMetrics.PeakConcurrentJobs | scripts/ci/metrics.ts:17-28 | The sweep gives the peak of the running totals of the sorted events |
| JobMetrics.PeakIsGreatestSurplus | scripts/ci/metrics.ts:17-32 | On any jobs, the peak is the greatest surplus of starts over ends at any time, or zero |
| JobMetrics.PeakIsMaximum | scripts/ci/metrics.ts:8-32 | When no counted job ends before it starts, the peak is the largest number of jobs that run at one time, with ties and empty jobs counted by the half-open interval |
| JobMetrics.ReversedJobHidesAnother | scripts/ci/metrics.ts:17-28 | Beside any job that ends before it starts, there is one for which the peak is wrong |
| JobMetrics.OrderIsTheCondition | scripts/ci/metrics.ts:17-28 | A job's timestamps are in order exactly when it spoils no peak among jobs whose timestamps are |
| DockerProxyNetwork.NetworkModeViolation | scripts/check-docker-proxy-network.ts:91-129 | The loop ends on every service map and gives the verdict of the walk |
| DockerProxyNetwork.WalkIsRight | scripts/check-docker-proxy-network.ts:117-128 | The walk tells apart exactly the chains that reach a member, that end elsewhere and that never end |
| DockerProxyNetwork.ModeVerdictIsRight | scripts/check-docker-proxy-network.ts:91-129 | On a literal `service:` mode without a further colon the verdict is a joined member, nothing or a cycle exactly when a chain of that kind starts there, in every file |
| DockerProxyNetwork.NoColonIsTheCondition | scripts/check-docker-proxy-network.ts:103-128 | For a literal name, the verdict is right in every file and for every service outside that joins by it exactly when the name has no colon |
| DockerProxyNetwork.ColonCutsChain | scripts/check-docker-proxy-network.ts:104-126 | For every name with a colon whose front is no member, a file whose chain leads to a member gets no verdict at its start; the service on the way is still reported |
| DockerProxyNetwork.ColonFeignsChain | scripts/check-docker-proxy-network.ts:104-122 | For every name with a colon whose front is a member, a service whose chain leads elsewhere is reported |
| DockerProxyNetwork.DirectJoinIsReported | scripts/check-docker-proxy-network.ts:104-122 | Whoever joins a member directly is reported, colon or not |
| DockerProxyNetwork.SameNetworkIsExact | scripts/check-docker-proxy-network.ts:147-156 | Two resolved names count as one network exactly when some project name makes them one |
| DockerProxyNetwork.DockerProxyViolations | scripts/check-docker-proxy-network.ts:165-271 | The loops report the violations, in the order of the file, that the report defines |
| DockerProxyNetwork.CollectAliases | scripts/check-docker-proxy-network.ts:187-199 | The loop collects exactly the keys that are or may be the protected network, and reports those |
| DockerProxyIsolation.OnlyUpdaterSharesWithProxy | scripts/check-docker-proxy-network.ts:73-271 | When nothing is reported, then for every project name the services that share a namespace or a Docker network with the proxy, through chains of any length and networks under any key, are exactly the proxy and the updater |
| DockerProxyIsolation.SmallFileIsAccepted | scripts/check-docker-proxy-network.ts:165-271 | A file with the proxy, the updater and a service besides is accepted |
| DockerProxyIsolation.OnProtectedIsMember | scripts/check-docker-proxy-network.ts:184-213 | When nothing is reported, whoever is on the protected Docker network, by whatever key, is a member |
| DockerProxyIsolation.NoChainToMember | scripts/check-docker-proxy-network.ts:117-128 | When nothing is reported, no chain of namespaces leads to a member from outside |
| ComposeInterpolation.Pass | scripts/docker-socket-access.ts:72-78 | A pass that changes the text shortens it |
| ComposeInterpolation.Settle | scripts/docker-socket-access.ts:70-81 | The passes end, at a text no further pass changes |
| ComposeInterpolation.Interpolate | scripts/docker-socket-access.ts:68-83 | The loop computes what settling and unhiding give, on every text |
| ComposeInterpolation.PassSteps | scripts/docker-socket-access.ts:72-78 | A pass over printed parts prints the parts with each innermost default taken |
| ComposeInterpolation.InterpolatesToValue | scripts/docker-socket-access.ts:63-83 | A value of text, `$$` and `${...}` variables, with defaults nested to any depth, error messages or alternatives, becomes what it stands for: each default in place of its variable, the stand-in for a variable without one, a dollar for `$$` |
| HostPaths.HostPathIsExact | scripts/docker-socket-access.ts:85-117 | On every path the check finds something exactly when the path is at or above a socket or in procfs, holds a `..`, or ends in `docker.sock` |
| HostPaths.CoversIffPrefix | scripts/docker-socket-access.ts:112-115 | Comparing the normalized texts is comparing the lists of names |
| SocketAccess.NamedVolumeViolation | scripts/docker-socket-access.ts:218-233 | The loop finds the first clashing key that is unsafe, if the key itself is not |
| SocketAccess.FollowInheritance | scripts/docker-socket-access.ts:326-337 | The loop ends, and marks exactly the services that reach a holder through a chain of `volumes_from`, each with one it takes from directly |
| SocketAccess.SocketAccessViolations | scripts/docker-socket-access.ts:282-346 | The report is empty exactly when nothing is wrong by itself and nobody but the proxy inherits; it holds everything of the first kind and exactly the heirs of the second |
| SocketIsolation.SharedIsExact | scripts/docker-socket-access.ts:195-210 | Two different resolved keys may be one Docker volume exactly when some nonempty project name makes them one |
| SocketIsolation.VolumeReachesIsFound | scripts/docker-socket-access.ts:212-233 | For every project name, a key that mounts a backed volume, its own or another key's, is found |
| SocketIsolation.VolumeVerdictIsExact | scripts/docker-socket-access.ts:212-233 | A verdict on a key is given exactly when in some deployment, under some project name, a key it is one volume with is unsafe |
| SocketIsolation.EntryReachesIsFound | scripts/docker-socket-access.ts:235-264 | ... and so is a mount that may reach a socket in any deployment |
| SocketIsolation.MountVerdictIsExact | scripts/docker-socket-access.ts:235-264 | A mount gets a verdict exactly when it cannot be read, its path may give a socket away or is doubtful, or in some deployment its volume is one with such a path or from outside |
| SocketIsolation.OwnAccessIsFound | scripts/docker-socket-access.ts:295-315 | When nothing is reported directly, whoever has access by itself is the proxy |
| SocketIsolation.OnlyProxyHasAccess | scripts/docker-socket-access.ts:282-346 | When nothing is reported, then for every nonempty project name and whatever the open volume names become, no service but the proxy reaches a socket: not by its own mounts, not by a volume that coincides with a backed one, not by a chain of `volumes_from` |
| SocketIsolation.NoFileReaches | scripts/docker-socket-access.ts:286-293 | When nothing is reported, no secret or config is read from a path that may give a socket away |
| SlotAdmission.StepInv | apps/decision-local/server.py:122-168 | Every lock operation, counter access, clock reading and question of any thread keeps the invariant |
| SlotAdmission.WaitingIsQueued | apps/decision-local/server.py:144-161 | In every interleaving the counter is the number of admitted callers still queued, and never above the limit |
| SlotAdmission.OneWorksInTime | apps/decision-local/server.py:138-168 | At most one caller runs the work, and it won the slot no later than its time to give up, so at least the margin before its deadline, but for what its last wait was held up between the look at the clock and the slot |
| SlotAdmission.BoundIsMet | apps/decision-local/server.py:149-158 | However long that is, some run wins the slot and runs the work just that long after its time to give up |
| SlotAdmission.RunsOnlyForPresent | apps/decision-local/server.py:162-168 | The work runs only in the slot, for a client who was asked for and there after the slot was won |
| SlotAdmission.EveryExitRestores | apps/decision-local/server.py:144-168 | When all calls are over, however they ended, the counter is zero and both locks are free |
| SlotAdmission.NeverStuck | apps/decision-local/server.py:149-168 | While a call is in progress some thread can move |
| Supervision.Supervisor.PollGroups | scripts/dev-stack/supervise.ts:123-137 | The poll drops the groups found empty, then ends the stop or arms the next poll, and changes nothing else |
| Supervision.Supervisor.DropEmptyGroups | scripts/dev-stack/supervise.ts:126-128 | The backward loop with its splices asks for each group once and keeps, in order, those that are alive |
| Supervision.Supervisor.Stop | scripts/dev-stack/supervise.ts:139-150 | A first stop tells everyone, arms SIGKILL and polls; a later one does nothing |
| Supervision.Supervisor.ChildSettles | scripts/dev-stack/supervise.ts:156-173 | Only a child's first exit or error counts; the first of all sets the code and stops the rest, the last polls |
| SupervisionRuns.HandleKeeps | scripts/dev-stack/supervise.ts:99-174 | Every event keeps the invariant of record, groups and timers |
| SupervisionRuns.RecordIsRight | scripts/dev-stack/supervise.ts:95-174 | In every order of events `onStop` comes first and once, a group seen empty is never signalled or asked for again, the promise resolves at most once and last, and with 0 for a signal, else with the code of the child that brought the rest down |
| SupervisionRuns.TimersAreRight | scripts/dev-stack/supervise.ts:111-150 | At most one poll and one SIGKILL are armed; in a stop a poll is, and SIGKILL is armed or was sent; once resolved none is |
| SupervisionRuns.ResolvedAfterAll | scripts/dev-stack/supervise.ts:118-137 | The promise is resolved only when every leader is gone and every group there ever was has been seen empty, or the settle time after SIGKILL is over |
| SupervisionRuns.StopTellsAll | scripts/dev-stack/supervise.ts:139-150 | The event that stops the stack calls `onStop` and then sends SIGTERM to every group, in order, before anything else |
| SupervisionRuns.KillTellsAll | scripts/dev-stack/supervise.ts:145-148 | When the grace is over, SIGKILL goes to every group not yet seen empty |
| SupervisionRuns.StopEnds | scripts/dev-stack/supervise.ts:123-137 | When every leader is gone, the next poll that finds the groups empty, or the settle time over, resolves |
| BuildGraph.ReachesTask | scripts/check-build-graph.ts:294-311 | True exactly when a path with at least one dependency leads to the target, on every graph |
| BuildGraph.CollectArtifactConsumers | scripts/check-build-graph.ts:270-292 | The least set with the artifact that is closed under depending on a member |
| BuildGraph.FindUnorderedArtifactReaders | scripts/check-build-graph.ts:249-267 | The failures are exactly the reading tasks of other packages that consume an artifact without depending on its producer, and the artifacts without a producer |
| BundleClosure.StaticClosure | scripts/bundle-closure.ts:70-84 | The closure lists once each, in the order of a depth-first walk, exactly the existing files the root reaches through imports of existing files |
| IsolateWalk.Walk | scripts/check-convex-node-globals.ts:468-500 | The map holds exactly the modules the isolate pulls in, each with a root that does; every reported edge leaves the isolate, every edge that does is reported, and there is one exactly when value imports lead from an isolate module into a Node module |
| IsolateWalk.EntryIsReported | scripts/check-convex-node-globals.ts:480-499 | Whatever the path into a Node module, an edge is reported where it leaves the isolate |
| UniqueNames.MakeUnique | apps/decision-local/decide.py:117-138 | The loops end and give each name what the list before it decides |
| UniqueNames.SearchBound | apps/decision-local/decide.py:132-135 | No more suffixes can be taken than there are names in use |
| UniqueNames.UniqueIsRight | apps/decision-local/decide.py:117-138 | For every list the result holds no name twice, keeps every first occurrence, and gives each later one the lowest suffix from 2 that is neither in the list nor handed out before |
| CleanText.CleanUp | apps/decision-local/decide.py:102-114 | The two loops and the collapse compute the cleaned text |
| CleanText.CleanIsSafe | apps/decision-local/decide.py:102-114 | Cleaned text holds no reserved token and no parenthesis; no replacement puts one together |
| CleanText.CleanTwice | apps/decision-local/decide.py:102-114 | Cleaning cleaned text changes nothing |
| CleanText.HeadNamesUsable | apps/decision-local/decide.py:141-154 | The names of a request's questions are all different and hold no reserved token, parenthesis, blank or colon, suffixes included |
| Decide.PreparedRight | apps/decision-local/decide.py:278-306 | An accepted request becomes one head for each question, in order, under different usable names, its labels different and tied to the caller's own options |
| Decide.HeadRight | apps/decision-local/decide.py:223-275 | A head's labels are told apart, and its keys are the caller's options, the two answers, or the level numbers |
| Decide.Normalise | apps/decision-local/decide.py:314-325 | The loops compute the normalised scores or reject, on every map of scores |
| Decide.NormalisedRight | apps/decision-local/decide.py:314-325 | What is not rejected is nonnegative, sums to 1, and gives each label its own score's share |
| Decide.BestIsFirst | apps/decision-local/decide.py:341-344 | The choice is the first of the most probable options |
| Decide.ScoreInRange | apps/decision-local/decide.py:345-349 | The expected level lies between 0 and the last level, so clamping changes nothing |
| Peakedness.EntropyInRange | apps/decision-local/decide.py:328-334 | The entropy of a distribution over n options lies between 0 and log n, for any function with the laws of the logarithm |
| Peakedness.ConfidenceInRange | apps/decision-local/decide.py:328-334 | So the confidence lies between 0 and 1 before it is clamped, and nothing is divided by zero |
| Peakedness.UniformIsUnsure | apps/decision-local/decide.py:328-334 | It is 0 for options that are all alike |
| Peakedness.CertainIsSure | apps/decision-local/decide.py:328-334 | ... and 1 for one certain option |
| Decide.AnswerRight | apps/decision-local/decide.py:337-353 | Every kind of answer says what its distribution says, with a confidence between 0 and 1 where the source gives one |
| Decide.DecideRequest | apps/decision-local/decide.py:356-371 | The program gives the answers, or the error, of the functions the theorem below is about |
| Decide.DecidedRight | apps/decision-local/decide.py:215-371 | For every request and whatever the engine returns, an answer is over exactly the caller's questions and options, from scores no other question or option reads, nonnegative, summing to 1, with the first most probable choice, an expected level on the scale and a confidence between 0 and 1; it names the model served and the engine's own count of tokens |
| ReleaseTags.CandidateReadsBack | scripts/ci/release-policy.ts:34-66 | The tag made for candidate N of a version is classified as candidate N of that version |
| ReleaseTags.CandidateIsTag | scripts/ci/release-policy.ts:34-53 | Any tag classified as a candidate is the tag made for that candidate, so there is one text for each |
| ReleaseTags.CandidatesRight | scripts/ci/release-policy.ts:55-61 | The list holds exactly the candidates of the version among the tags, newest first |
| ReleaseTags.NextIsNew | scripts/ci/release-policy.ts:63-66 | The next candidate's tag is none of the tags, and is read back as one past the newest |
| ReleaseTags.PromotionIsJustified | scripts/ci/release-policy.ts:100-152 | A promotion that passes names the version's newest candidate, at this commit, published as a prerelease, whose newest run succeeded |
| ReleaseLifecycle.StepKeeps | scripts/release.ts:108-152 | Every commit, cut and promotion keeps the invariant of all versions |
| ReleaseLifecycle.CandidatesAreNumbered | scripts/release.ts:108-152 | After any cuts and promotions the candidates of each version are numbered 1 to n without a gap, and the next tag is new |
| ReleaseLifecycle.ReleasesAreNewest | scripts/release-promote.ts:43-67 | Every version with candidates is the one being prepared or released, and its stable tag is on the commit of its newest candidate, which holds that version |
| ReleaseLifecycle.ReleasesAreForever | scripts/release-promote.ts:43-67 | Whatever follows, a stable tag keeps its commit and its version gets no further candidate |
| ReleaseAliases.AliasReleases | scripts/ci/aliases.ts:19-38 | A release carries `latest` exactly when it is published, stable and no such release is above it, and a `major.minor` alias exactly when none of its line is; the first entry carries `latest` |
| ReleaseAliases.AliasIsUnique | scripts/ci/aliases.ts:19-38 | No alias goes to two tags |
| ReleaseAliases.NeverLowered | scripts/ci/aliases.ts:19-38 | With more releases listed every alias is still given, to no lower version |
| ReleaseAliases.OrderDoesNotMatter | scripts/ci/aliases.ts:19-38 | The aliases are the same for every order of the list |
| ReleaseAliases.VersionTag | scripts/ci/aliases.ts:13-18 | A stable version has one tag only, its numbers without leading zeros |
| ReleaseAliases.PreviousRelease | scripts/ci/aliases.ts:63-84 | The release found is published, stable, below the base and the greatest of these; it is empty exactly when there is none, and an error exactly for what is no version |
| ReleaseAliases.UpdatesOfTags | scripts/ci/aliases.ts:68-71 | A version is accepted exactly when it is a release tag's |
| ReleaseAliases.CandidateStartsWhereVersionDoes | scripts/ci/aliases.ts:63-71 | An update to a candidate starts where the update to its version does |
| MainReuse.VerifiedIsFull | scripts/ci/reuse.ts:93-112 | Evidence that passes lists a permutation of the full jobs, and each of them succeeded |
| MainReuse.LookUp | scripts/ci/reuse-probe.ts:23-27 | The run found is the youngest of those that were eligible when they were looked at |
| MainReuse.ProbeMainCI | scripts/ci/reuse-probe.ts:21-72 | For all answers and clock readings the looks before came to waiting, and: a run is reused only if both last looks found it newest and successful, it is what is reported now, and its evidence is full and its own; it throws only for a newest run that failed, and always for one; the full run is asked for only if the time was over, a lookup or the evidence failed, or nothing qualified |
| MainReuse.InspectRun | scripts/ci/reuse-probe.ts:38-68 | ... and so for the second look and the evidence |

## Left out

- `groupWorkspaces` looks weights up in an object, so a workspace named like a member of `Object.prototype` would get a function for a weight; the model gives it 1. Violations and services with such names are likewise ordinary names here.
- JavaScript lists integer-like keys of an object first; the model keeps the order of the file, so only the order of a report can differ. The reports are data, not messages, and inherited violations come in the order they were found.
- SetupMarkers.MutualExclusion: a marker's temporary file is written and linked as one step, since no reader sees the temporary name; the steps of a setup and the linking of environment files are one phase, which an interrupt can end.
- SlotAdmission.OneWorksInTime: time is a real number; how long a thread can be held up is not bounded, so a win by the deadline itself needs that to be within the margin.
- Supervision.Supervisor.Stop: starting the children, their output and an `onStop` that throws; a child that could not be started has no group.
- PathGlobs.RefusedIffUnbalanced: regular expressions are modelled as far as `globSource` writes them; anything else is read as refused.
- ShellRoundTrip.ScriptComesBack: scripts the grammar does not print, such as a here-document whose body is cut off by the end of the file or an unclosed quote; for these `ShellScanner.ScanScript` still states what the stack keeps.
- DockerProxyIsolation.OnlyUpdaterSharesWithProxy: the attached keys are declared, as Compose demands; the modes `none`, `bridge` and `default` count as a namespace of one's own, so a Docker network whose fixed name is `bridge` is not modelled.
- HostPaths.HostPathIsExact: where a relative path or one from `~` leads, whose directory the file does not know; the check takes such a path as doubtful exactly as stated.
- ComposeInterpolation.InterpolatesToValue: `$NAME` without braces, whose name runs on into the text a neighbouring default leaves behind, and braces in text; `ComposeInterpolation.Interpolate` covers both.
- SocketIsolation.OnlyProxyHasAccess: with no variables set, as the source says of itself.
- Decide.DecidedRight: floating-point rounding, so sums are exact; the engine and the rendering of the state are any functions, and the logarithm is any with its laws.
- ReleaseTags.NextIsNew: only below 2^53 - 1 candidates, past which JavaScript cannot count.
- ReleaseLifecycle.StepKeeps: the changelog, the schema snapshot, `--no-commit`, `--dry-run`, `--any-branch` and failed pushes; tags are made only by the two commands.
- MainReuse.ProbeMainCI: GitHub's answer about the run itself and its evidence are asked for once, as in the source; time goes on with every nap, without which the loop would not end.
- JsonPages.SplitPages: `JSON.parse` is any partial function.
- `msiVersion`, `distribution`, bundle budgets, port arithmetic and the other parsers: short facts, each about one expression.
- `parseJsonc` and `upsertEnv`: they promise less than they seem to.
- The TypeScript, YAML and Vue parsing behind the scanners, and every call to git, GitHub, Docker and turbo.
