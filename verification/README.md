# Proofs about flux-build

flux-build renders Kustomize overlays and HelmReleases to one stream of manifests. This project models its concurrent
and stateful core in Dafny and proves what that core promises. `dafny verify dfyconfig.toml` checks all of it.

Code that changes state is a class or a method with the source's fields, loops and early returns, proved against a
function; code with threads is a step system in which every atomic section is a step, and results are about every
interleaving. Libraries whose behaviour is not ours (rendering, YAML, globs, version and constraint parsing, digests)
are parameters, so the results hold for any of them.

## The components

**The run pipeline** (`ResourceIndex`, `Pipeline`, `PipelineSafety`, `PipelineTheorems`, `PipelineProgress`,
`PipelineBlocking`, `PipelineOrders`). `Pipeline.Next` steps main, the writer, the indexer, one task per path and per
indexed HelmRelease, a forwarder for each task and the collector. A send on a closed channel and a double close are
possible in the model and proved never to happen. Completed runs are accounted for item by item and report by report. One
thing can block the pipeline for good: the writer panics, `manifests` fills up, and one more task wants to send. A run
completes if and only if it never gets there, and every run of a configuration completes if and only if its paths and
HelmReleases number at most one more than its workers. `ResourceIndex.Index.Push` is the loop that fills the index, with
its partial effect on an unreadable resource; a later resource replaces an earlier one with its key. The paths can
be pushed in any order, and that decides what helm builds see exactly if two of them end with different resources under
one key.

**The single-flight cache** (`SingleFlight`, `SingleFlightProtocol`, `SingleFlightWaiters`). The class holds the map of
values and locks; the protocol runs any number of callers that take a read-write mutex, run a critical section, wait for
a channel without the mutex, and take it again. Safety holds under all operations, single flight if no item is removed
and no pending key overwritten. A waiter waits for ever exactly if Set, Delete or Clear has run on its lock, or is about
to be run by the caller that holds the mutex.

**The secure chart loader** (`FileTree`, `NameOrder`, `SymPath`, `SecureJoin`, `IgnoreRules`, `SecureLoader`,
`ChartNames`, `IgnoreLines`, `UnstableRules`, `RuleTrap`, `RuleExactness`). The file system is a finite tree with link
nodes, and path resolution follows a limited number of links, 255 in `EvalSymlinks` and any number in the kernel. The
symlink-following recursion is proved to refine running the callback over a flat preorder list, in which SkipDir drops
what is below a directory: its subtree on a directory, plain or reached through a link, the rest of the directory on a
plain file, and nothing on a linked file. The state of the loader's callback is the files and the rules, as asking a
rule may rewrite it. Loads are exact if the rules answer alike whatever was asked before, and so with rules without a
doubled leading slash. For a rule of plain printable characters in front of the default rule, all loads are exact if and
only if it has no doubled leading slash or the loader never asks it for the path behind the slashes: nothing may be left
there, or no valid path, or one that the default rule ignores; and a negated rule is harmless unless a single name is
left. Paths are sequences of components, absolute and clean.

**Version resolution and repository state** (`SemVer`, `StableSort`, `VersionSelection`, `ChartIndex`,
`ChartRepository`). The HTTP resolver sorts with the negation of a strict order, which holds between equal elements. Go's
block insertion sort and symmetric merge are written out for that reason, and proved to sort under any total preorder.
`Parsers` are assumed to keep the parsed string and to reject the empty one. The repository's locked sections are
functions, and every interleaving keeps index, digests and path coherent; temporary files are assumed to be immutable
once written and fields not to be set from outside.

**Dependency build** (`DependencyBuild`, `DependencyBuildProof`, `DependencyRebuild`). A spawner takes permits of a
weighted semaphore and starts workers that load a chart and append it under a lock; the first error and the caller
may cancel. How a dependency loads is a function of the dependency.

**File moves and long paths** (`LongPath`, `RenameByCopy`). `fixLongPath` with its two cursors, and the rename that
copies and deletes, over a file system in which a directory cannot be made at too long a path. Every operation of the
operating system may also fail without a reason that is modelled, unless the file system is reliable; on a reliable one
each operation succeeds exactly under a condition on the files that are there.

## Where code and documentation differ

The model follows the code.

- `GetOrLock` is documented to lock other callers out until the item is set. A `Set`, `Delete` or `Clear` on a pending
  key drops the lock without waking anybody (`SingleFlightWaiters.WaitsForEverIff`).
- `Ignore` is documented to stop at a matching negative rule. A negative rule ignores what it does not match, so two
  of them can ignore everything (`IgnoreRules.DisjointNegationsIgnoreAll`); code and documentation agree exactly on rules
  without a negation (`IgnoreRules.DocumentedIffNoNegation`).
- An anchored ignore rule with two leading slashes answers differently on later calls
  (`IgnoreRules.StableIffSameAnswers`), which can make loads inexact (`RuleExactness.ExactIffHarmless`).
- Resources of different paths can share a key; which of them a helm release is built from then depends on the
  schedule (`PipelineOrders.ScheduleIndependentIff`).
- `SecureLoadDir` is documented to limit the size of files when the limit is zero or more; the code does so when it is
  above zero.
- `collectMissing` takes equal counts to mean that nothing is missing (`DependencyRebuild.NothingMissing`).
- `fixLongPath` is documented not to convert UNC paths; one written with a slash among its first two characters is
  converted (`LongPath.UncIsLeftAloneIff`).
- `renameByCopy` is documented to emulate a rename. A regular file moved onto itself is lost
  (`RenameByCopy.MoveOntoItself`), and one moved to a path that is a link is written through it
  (`RenameByCopy.MoveThroughLink`); a link to a directory cannot be moved (`RenameByCopy.MoveLinkToDirectory`); a
  directory moved into itself nests until a path is too long (`RenameByCopy.FileSystem.RenameByCopy`).
- `StrategicallyLoadIndex` can return without an error while another caller has already cleared the index
  (`ChartRepository.IndexCanBeTakenAway`, and exactly when in `ChartRepository.IndexStaysIff`).
- `Walk` is documented to give the callback the absolute path of what a link leads to. From a root behind a link it gives
  the root as it is (`SymPath.TruePathsIff`).

## Model

| member | source | states |
|---|---|---|
| `PipelineTheorems.NoUseAfterClose` | internal/action/action.go:34-162 | In every run, panics included, nothing is sent on `errs`, `manifests` or `resources` after its close and none of them is closed twice: whoever is about to send or to close finds the channel open. |
| `PipelineSafety.RunKeepsInv` | internal/action/action.go:45-165 | Every reachable state satisfies the pipeline invariant: main's position fixes which channels are closed and which pools are done, each item sent to a stage is in exactly one place of it, each report is on its way or was collected once, and the index is what was pushed, in the order in which it was pushed, each path once, with what a panic inside Push has left. |
| `PipelineTheorems.HelmBuildsSeeTheFinalIndex` | internal/action/action.go:121-156 | Once a helm task exists, every kustomize task is over, each rendered path was pushed exactly once (unless the indexer panicked), and the index, keys and resources, never changes again. |
| `PipelineTheorems.IndexComplete` | internal/build/index.go:10-30 | After the indexer has finished without a panic, every rendered path was pushed exactly once, and the keys in the index are exactly those that precede the first unreadable resource of each. |
| `PipelineTheorems.IndexBindsLast` | internal/build/index.go:10-30 | And each key is bound to the last readable resource that has it, of the path pushed last among those that have it. |
| `PipelineTheorems.CompletedTasks` | internal/action/action.go:106-156 | In a completed run the tasks are exactly one per path and one per indexed resource of kind HelmRelease. |
| `PipelineTheorems.CompletedItems` | internal/action/action.go:88-129 | In a completed run every successful result that was sent to the writer or the indexer, and nothing else, was handled, or its failure was collected, or a panic of the stage happened on it or left it in the channel, exactly one of these and exactly once; without a panic nothing is left. |
| `PipelineTheorems.CompletedReports` | internal/action/action.go:34-43 | In a completed run every failed build and every forwarded panic, of a kustomize or helm task, the writer or the indexer, was collected exactly once. |
| `PipelineTheorems.PushFailsIffUnreadable` | internal/action/action.go:121-129 | In a completed run with a live indexer a path is reported by the indexer, once, exactly if it rendered and has a resource with unreadable metadata, and handled without a report exactly if it rendered and has none. |
| `PipelineTheorems.HelmPoolIsBounded` | internal/action/action.go:55 | Never more helm tasks than workers are at work, if the number of workers is limited at all. |
| `PipelineTheorems.BuildEndsIn` | internal/action/action.go:106-116 | A build renders, fails or panics: each can happen at any time while it runs, and moves its own task only. |
| `PipelineTheorems.CollectorEndsIff` | internal/action/action.go:65-77 | In every reachable state the collector of errors can end exactly if it has not yet and main has, so no report comes too late for it. |
| `PipelineTheorems.KeysDoNotDependOnSchedule` | internal/action/action.go:106-156 | Two completed runs with live indexers in which the same paths rendered end with the same keys in the index and the same tasks, whatever the scheduling. |
| `ResourceIndex.Index.Push` | internal/build/index.go:10-30 | Push adds the entries of the resources before the first unreadable one and fails exactly if there is one. |
| `ResourceIndex.PushedLast` | internal/build/index.go:19-26 | Of several resources with one key the last one before the first unreadable one stays. |
| `PipelineOrders.EveryOrderHappens` | internal/action/action.go:106-133 | For any set of paths that render and any order of them there is a completed run in which they are pushed in this order. |
| `PipelineOrders.PossibleIndexes` | internal/action/action.go:106-156 | What the index holds at the end of completed runs in which these paths rendered is exactly what some order of pushing them yields. |
| `PipelineOrders.ScheduleIndependentIff` | internal/action/action.go:106-156 | All completed runs with a live indexer in which the same paths rendered end with the same index, if and only if no two of these paths end with different resources under one key. |
| `PipelineOrders.ScheduleDecides` | internal/action/action.go:135-147 | If two do, there are two such runs that differ in the resource under the key. |
| `PipelineProgress.ResourcesHaveRoom` | internal/action/action.go:79 | The buffer of `resources` has room for every path, so offering a result never blocks. |
| `PipelineProgress.Progress` | internal/action/action.go:65-162 | Deadlock freedom: before main is done some goroutine can move, unless a task waits for a full `manifests` channel whose writer has panicked. |
| `PipelineProgress.StepLowers` | internal/action/action.go:65-162 | Every step lowers a well-founded measure over main's position, open submissions, running tasks and buffered items. |
| `PipelineProgress.CompletesIffNeverDoomed` | internal/action/action.go:65-162 | Termination, exactly: an execution reaches the end of Run if and only if no task is ever in that position. |
| `PipelineProgress.EveryExecutionCompletes` | internal/action/action.go:65-162 | In particular every execution whose writer never panics completes, whatever else panics. |
| `PipelineProgress.DoomedForever` | internal/action/action.go:88-116 | Once the writer has panicked, `manifests` is full and a task waits to send to it, the run never completes. |
| `PipelineBlocking.DoomedNeedsMany` | internal/action/action.go:80-116 | Such a position takes at least two more tasks than workers. |
| `PipelineBlocking.WriterPanicBlocks` | internal/action/action.go:88-156 | With two more paths and HelmReleases than workers there is a run that gets there: the writer panics on the first manifest and the others fill the channel. |
| `PipelineBlocking.AlwaysCompletesIff` | internal/action/action.go:65-162 | Every run of a configuration completes, whatever panics, if and only if its paths and HelmReleases number at most one more than its workers. |
| `PipelineBlocking.AllReleasesAre` | internal/action/action.go:135-139 | These HelmReleases are the keys of kind HelmRelease of the readable resources of the paths. |
| `SingleFlight.SectionKeepsLocksOpen` | internal/cache/cache.go:29-112 | Every critical section keeps stored locks open and stored under one key only, and never closes a closed channel. |
| `SingleFlight.Cache.BeginGetOrLock` | internal/cache/cache.go:58-70 | The first section of GetOrLock: answers a value, or stores a new open lock and answers a miss, or names the channel to wait for. |
| `SingleFlight.Cache.SetUnlock` | internal/cache/cache.go:85-96 | Publishes the value and closes the channel of the key's lock, if there is one, without a double close. |
| `SingleFlight.Cache.Add` | internal/cache/cache.go:31-40 | Adds an item exactly if the key is absent, pending keys included. |
| `SingleFlight.Cache.Get` | internal/cache/cache.go:42-52 | Answers exactly what is stored, a lock included, and changes nothing. |
| `SingleFlight.Cache.ItemCount` | internal/cache/cache.go:16-20 | Counts the stored items, pending keys included. |
| `SingleFlightProtocol.EveryRunIsSafe` | internal/cache/cache.go:25-112 | In every interleaving of all operations no channel is closed twice, each call holds the mutex exactly between taking and releasing it, shared with others only by Get and ItemCount, and releases only its own. |
| `SingleFlightProtocol.HitsWerePublished` | internal/cache/cache.go:58-81 | In every interleaving whatever GetOrLock answers but a miss is a path that an earlier Set, SetUnlock or Add stored under its key. |
| `SingleFlightProtocol.SingleMiss` | internal/cache/cache.go:58-96 | Without removals and overwriting of pending keys, of two GetOrLock calls for a key at most one answers a miss. |
| `SingleFlightProtocol.WokenHits` | internal/cache/cache.go:72-81 | Under the same condition a caller that has waited always gets a value published for its key: the second section of GetOrLock never misses. |
| `SingleFlightProtocol.HitsAgree` | internal/cache/cache.go:58-96 | If all that is ever published under a key is one path, all hits on the key agree. |
| `SingleFlightWaiters.OrphanedIff` | internal/cache/cache.go:25-112 | In every run, an open channel is in no entry of the map if and only if an earlier Set, Delete or Clear ran on the key whose lock it was. |
| `SingleFlightWaiters.WaiterTracked` | internal/cache/cache.go:58-96 | A waiter's channel is closed, or is the one stored under its key, or its own lock was dropped by an earlier operation; never two of these. |
| `SingleFlightProtocol.StuckMeansWaiting` | internal/cache/cache.go:58-96 | The mutex never deadlocks: if no call can move, every call waits for an open channel. |
| `SingleFlightWaiters.OnlyOwnersKeepWaiters` | internal/cache/cache.go:58-96 | Once no call can move, each waiter's key is still pending, or its own lock was dropped; so once all owners have published only those are blocked. |
| `SingleFlightProtocol.StepsAreBounded` | internal/cache/cache.go:58-96 | Each call takes finitely many steps: every step of a call lowers its own measure and touches no other call. |
| `SingleFlightWaiters.WaitsForEverIff` | internal/cache/cache.go:58-112 | A waiter waits for ever, whatever the other callers do, if and only if an earlier Set, Delete or Clear ran on its lock or the caller that holds the mutex is about to run one. |
| `SingleFlightWaiters.WaiterCanBeLost` | internal/cache/cache.go:25-112 | Each of the three operations has a run in which that happens: a miss, a second caller that waits, and the operation. |
| `SingleFlightProtocol.ClientNeverPanics` | internal/helm/chart/cache/inmemory.go:26-50 | In every interleaving the string assertion of the in-memory chart cache holds; a miss gives the client a new path and the key to unlock, any other answer a published path and no key. |
| `NameOrder.ReadDirNames` | internal/helm/chart/secureloader/sympath/walk.go:56-68 | The names of a directory, read in any order and sorted in place, are its one ascending listing. |
| `NameOrder.ListingUnique` | internal/helm/chart/secureloader/sympath/walk.go:66 | There is at most one ascending listing of a set of names, so the walk does not depend on the order in which the operating system returns them. |
| `NameOrder.PathLessIff` | internal/helm/chart/secureloader/sympath/walk.go:101-117 | The order of the visits: of two paths the one comes first that ends, or has the lower name, at the first place where they differ. |
| `SymPath.SymWalk` | internal/helm/chart/secureloader/sympath/walk.go:71-119 | The recursive walk with SkipDir and early returns refines processing the flat preorder list for any stateful callback; it terminates by links left, height and being a link, cyclic links included. |
| `SymPath.Walk` | internal/helm/chart/secureloader/sympath/walk.go:41-52 | Walk equals processing the list for its root; SkipDir never leaves it. |
| `SymPath.WalkVisitsInOrder` | internal/helm/chart/secureloader/sympath/walk.go:71-119 | Error-free visits are strictly increasing in component-wise lexical order, so no path is visited twice, whatever the callback skips. |
| `SymPath.WalkPassesTruePaths` | internal/helm/chart/secureloader/sympath/walk.go:73-115 | From a root that is a link or has no link in it, at every error-free call the absolute path has no link in it and denotes the same node as the path, through any nesting of links. |
| `SymPath.TruePathsIff` | internal/helm/chart/secureloader/sympath/walk.go:41-92 | Exactly: this holds, for any callback, if and only if the root does not exist, is a link, or has no link in it; behind a link the very first call gets the root as it is. |
| `SymPath.PreorderIncreasing` | internal/helm/chart/secureloader/sympath/walk.go:101-117 | The preorder list itself is strictly increasing. |
| `SecureJoin.JoinStaysBelow` | internal/helm/chart/secureloader/directory.go:236-253 | A secure join never leads outside the root. |
| `SecureJoin.SecureIffBelowRoot` | internal/helm/chart/secureloader/directory.go:236-253 | The containment test accepts a link-free path exactly if the root is a component prefix of it. |
| `SecureJoin.JoinHasNoLinks` | internal/helm/chart/secureloader/directory.go:95-99 | From a root without links the chart directory found by the join has no link in it. |
| `SecureJoin.JoinIsChroot` | internal/helm/chart/secureloader/directory.go:95-99 | A secure join leads to where the path leads if the directory at the root is taken for the whole file system. |
| `SecureJoin.RelLeads` | internal/helm/chart/secureloader/directory.go:87-93 | Walking the relative path from the base leads to the target. |
| `SecureLoader.SecureFileWalker.Walk` | internal/helm/chart/secureloader/directory.go:168-231 | If the rules answer alike whatever was asked before, a call below no ignored directory fails exactly on what must not be passed over, skips exactly an ignored directory, and appends exactly a file to be loaded; the rules it asks are rewritten in place. |
| `SecureLoader.SecureLoadDir` | internal/helm/chart/secureloader/directory.go:80-118 | The load is the walk of the joined chart directory with that visitor; for a root without links and rules that answer alike it fails exactly if something offends and otherwise returns exactly the files to be loaded. A path without links, relative to root or absolute below it, loads the directory it names. |
| `SecureLoader.ChartPathIsChroot` | internal/helm/chart/secureloader/directory.go:95-99 | A relative chart path leads to where it would lead, through links too, if root were the whole file system. |
| `SecureLoader.ProcessLoads` | internal/helm/chart/secureloader/directory.go:107-112 | From any number of earlier questions on, skipping ignored directories loses no file to be loaded and hides no offending one. |
| `SecureLoader.LoadIsExact` | internal/helm/chart/secureloader/directory.go:107-231 | If the rules answer alike on all that the load can ask, it fails exactly if something not below an ignored directory is in the way; otherwise it returns exactly the files to be loaded, in walk order, each once. |
| `SecureLoader.StableLoadsAreSteady` | internal/helm/chart/secureloader/directory.go:107-231 | Rules without a doubled leading slash do so, whatever the files. |
| `RuleExactness.ExactIffHarmless` | internal/helm/chart/secureloader/directory.go:126-231 | With a rule of plain printable characters in front of the default rule, and a glob for which plain patterns match only themselves, all loads of charts with valid names are exact, if and only if the rule has no doubled leading slash or the loader never asks it for the path behind the slashes. |
| `RuleExactness.DoubledIsInexact` | internal/helm/chart/secureloader/directory.go:126-231 | In particular a rule `//name` passes over a directory outside root, for every name that the default rule lets through. |
| `RuleExactness.OnlySlashes` | internal/helm/chart/secureloader/ignore/rules.go:173-183 | A rule of slashes only is harmless, however many there are. |
| `SecureLoader.LoadedIffReachable` | internal/helm/chart/secureloader/directory.go:168-231 | After a success with rules that answer alike a file is among the loaded ones exactly if some path in the chart leads to it, through any links, and neither the path nor a directory above is ignored; it bears the path as its name, and is physically below root, regular and within the limit. |
| `SecureLoader.OnlyBomIsTrimmed` | internal/helm/chart/secureloader/directory.go:227 | From the content of a file a leading byte order mark is dropped, and nothing else. |
| `SecureLoader.ChartHasNoLinks` | internal/helm/chart/secureloader/directory.go:95-99 | For a root without links the chart directory has none, as the results above assume. |
| `IgnoreRules.StableIffSameAnswers` | internal/helm/chart/secureloader/ignore/rules.go:173-183 | The anchored matcher, which rewrites its captured rule, answers the same on every call and for every glob exactly if the rule has no doubled leading slash. |
| `IgnoreRules.ParsedStable` | internal/helm/chart/secureloader/ignore/rules.go:133-206 | Which lines yield such a rule. |
| `IgnoreLines.LineIgnores` | internal/helm/chart/secureloader/ignore/rules.go:133-206 | What a well-formed line ignores: a pattern without a slash what bears its name, anywhere; one with a slash within it, or in front, the paths it matches from the chart on; with a slash behind it only directories; and with an exclamation mark in front everything but that. White space around a line does not count. |
| `IgnoreLines.NoRule` | internal/helm/chart/secureloader/ignore/rules.go:134-143 | Blank lines and comments yield no rule. |
| `IgnoreLines.MalformedLine` | internal/helm/chart/secureloader/ignore/rules.go:145-154 | Any other line is malformed exactly if it has a doubled asterisk or the glob rejects it. |
| `IgnoreLines.BaseIs` | internal/helm/chart/secureloader/ignore/rules.go:194-205 | What such a pattern without a slash is matched against: the last name of a path, without slashes behind it. |
| `IgnoreRules.AnswersDoNotDependOnHistory` | internal/helm/chart/secureloader/ignore/rules.go:90-130 | Stable rules answer every later question as if none had been asked before. |
| `IgnoreRules.OrderIsIrrelevant` | internal/helm/chart/secureloader/ignore/rules.go:90-130 | Whether a path is ignored does not depend on the order of the rules. |
| `IgnoreRules.MoreRulesIgnoreMore` | internal/helm/chart/secureloader/ignore/rules.go:90-130 | Adding rules anywhere never un-ignores a path. |
| `IgnoreRules.DisjointNegationsIgnoreAll` | internal/helm/chart/secureloader/ignore/rules.go:108-118 | Two negated rules without a common match ignore every path other than "", "." and "./". |
| `IgnoreRules.DocumentedIffNoNegation` | internal/helm/chart/secureloader/ignore/rules.go:86-130 | Ignore answers as documented, the first matching rule deciding, for every glob and path, if and only if no rule is negated. |
| `IgnoreRules.DocumentedIsIgnored` | internal/helm/chart/secureloader/ignore/rules.go:86-130 | What is documented to be ignored is ignored in any case. |
| `IgnoreRules.Rules.Ignore` | internal/helm/chart/secureloader/ignore/rules.go:90-130 | Ignore answers whether some rule fires, and rewrites exactly the rules whose matchers it has called, up to the first that fires. |
| `IgnoreRules.Rules.AddRule` | internal/helm/chart/secureloader/ignore/rules.go:133-210 | parseRule appends the parsed pattern, or nothing for blank lines and comments, or reports a malformed rule and leaves the set alone. |
| `IgnoreRules.Parse` | internal/helm/chart/secureloader/ignore/rules.go:64-84 | Parse keeps the rules before the first malformed line, a leading byte order mark dropped. |
| `IgnoreLines.OnlyTheMarkIsDropped` | internal/helm/chart/secureloader/ignore/rules.go:69-75 | The mark is dropped from the first line, and nothing else from any. |
| `IgnoreRules.LoadRules` | internal/helm/chart/secureloader/directory.go:126-150 | The rules of a load are those of the ignore file, if there is one, with the default rule behind them; it fails exactly on a malformed line. |
| `SemVer.CompareOrder` | internal/helm/repository/chart_repository.go:249-251 | Precedence (section 11 of Semantic Versioning 2.0.0) is antisymmetric, and ties exactly when everything but build metadata (section 10) agrees. |
| `SemVer.PrecedenceIsTotalPreorder` | internal/helm/repository/chart_repository.go:243-259 | "Not lower" is a total preorder that ignores build metadata. |
| `SemVer.LessThanIffPrecedes` | internal/helm/repository/chart_repository.go:243-259 | A version is lower exactly as section 11 of Semantic Versioning 2.0.0 words it: by major, minor and patch number; at the same three a prerelease is below the release; and at the first identifier at which two prereleases differ numbers compare by value, numeric is below alphanumeric, text compares byte by byte, and a list that ends is lower. |
| `Lexical.LessIff` | internal/helm/repository/chart_repository.go:243-259 | The byte-wise order of strings: the one that ends, or has the lower byte, at the first place where they differ. |
| `VersionSelection.NotOlderIsTotalPreorder` | internal/helm/repository/chart_repository.go:243-259 | The comparator of the sort, which also holds between equal elements, is a total preorder of precedence and creation time. |
| `StableSort.SliceStableSorts` | internal/helm/repository/chart_repository.go:243-259 | Insertion sort of blocks and symmetric merging, run with a non-strict comparator, still yield an ordered permutation. |
| `StableSort.SymMergeSorts` | internal/helm/repository/chart_repository.go:243-259 | One merge of two ordered blocks under a non-strict comparator is ordered and a permutation. |
| `VersionSelection.GetChartVersion` | internal/helm/repository/chart_repository.go:184-263 | The first exact match; else an entry that satisfies the constraint (any version for an empty request) such that every other one that does has a lower precedence, or the same and is not newer; and which error otherwise. |
| `VersionSelection.GetLastMatching` | internal/helm/repository/oci_chart_repository.go:282-326 | The exact tag; else the string of a tag that satisfies the constraint such that none of these has a higher precedence; and which error otherwise. |
| `VersionSelection.NoHigherTriple` | internal/helm/repository/chart_repository.go:222-263 | So neither resolver answers a version while one that satisfies the constraint has higher major, minor and patch numbers. |
| `VersionSelection.GetOciChartVersion` | internal/helm/repository/oci_chart_repository.go:156-196 | A concrete version is taken as it is; otherwise the tags decide. |
| `VersionSelection.ResolversAgree` | internal/helm/repository/oci_chart_repository.go:282-326 | On the same non-empty list both resolvers fail on the same requests with the same error, return the same string for an exact match, and otherwise versions of equal precedence. |
| `VersionSelection.HttpFixpoint` | internal/helm/repository/chart_repository.go:199-206 | Resolving a resolved version again leads to the same version. |
| `VersionSelection.OciFixpoint` | internal/helm/repository/oci_chart_repository.go:160-170 | The same for an OCI repository, for concrete versions, tags and constraints. |
| `ChartIndex.CleanEntries` | internal/helm/repository/chart_repository.go:88-105 | The backward loop that deletes in place leaves exactly the filtered list, with no index out of range. |
| `ChartIndex.CleanIndex` | internal/helm/repository/chart_repository.go:88-105 | It does so for every key, in whatever order the map is traversed. |
| `ChartIndex.CleanedMembers` | internal/helm/repository/chart_repository.go:90-101 | What is left are exactly the non-nil entries that validate once completed: an empty name becomes the key, an empty API version v1, and nothing else is filled in. |
| `ChartIndex.CleanedInOrder` | internal/helm/repository/chart_repository.go:88-105 | The original order is kept. |
| `ChartIndex.CleanedIsClean` | internal/helm/repository/chart_repository.go:88-105 | Cleaning a cleaned list changes nothing. |
| `ChartRepository.EveryRunIsCoherent` | internal/helm/repository/chart_repository.go:295-464 | In every interleaving of the locked sections the index is nil or the parse of the file at the path, every digest is the size-limited digest of that file, and a cache has a path; a failing removal in Clear included. |
| `ChartRepository.AnswersAreStable` | internal/helm/repository/chart_repository.go:345-412 | While the path stays the same all callers see the same index and the same digests. |
| `ChartRepository.IndexPresentIff` | internal/helm/repository/chart_repository.go:324-361 | In every interleaving an index is there exactly if it was loaded at some point after which nobody has published another cache or cleared the repository. |
| `ChartRepository.IndexStaysIff` | internal/helm/repository/chart_repository.go:324-361 | From a state with an index, there is one later exactly if that holds since then, counting the index it started with. |
| `ChartRepository.IndexStays` | internal/helm/repository/chart_repository.go:324-361 | A loaded index stays the same until somebody publishes another cache or clears the repository. |
| `ChartRepository.IndexCanBeTakenAway` | internal/helm/repository/chart_repository.go:324-361 | A second caller that clears in between takes the index away before the first one returns. |
| `ChartRepository.ForeignFilesAreKept` | internal/helm/repository/chart_repository.go:436-452 | No file that was there at the start is ever changed or removed, not even the configured one. |
| `ChartRepository.DownloadsAreAccountedFor` | internal/helm/repository/chart_repository.go:295-319 | Every downloaded file is pending, is the cache in place, or was replaced by a later cache; only the replaced ones are left behind. |
| `ChartRepository.Repository.CacheIndex` | internal/helm/repository/chart_repository.go:295-319 | On success the new file is published and index and digests are dropped; on any failure nothing has changed. |
| `ChartRepository.DiscardUndoesDownload` | internal/helm/repository/chart_repository.go:301-309 | A download that is discarded after a failure leaves the state as it was. |
| `ChartRepository.Repository.StrategicallyLoadIndex` | internal/helm/repository/chart_repository.go:324-341 | Run by one caller it succeeds exactly if the index is there afterwards, and fails exactly in the cases listed in its contract; files are only written if there was neither index nor file. |
| `ChartRepository.Repository.LoadFromPath` | internal/helm/repository/chart_repository.go:345-361 | Loads exactly the index of the file at the path, or fails and changes nothing. |
| `ChartRepository.Repository.Digest` | internal/helm/repository/chart_repository.go:394-412 | Answers the empty string or the digest of the file at the path, of its first 50 MiB if it is longer. |
| `ChartRepository.Repository.Clear` | internal/helm/repository/chart_repository.go:436-452 | Drops the index always, and path, flag and digests unless removing the cached file fails. |
| `DependencyBuild.CollectMissing` | internal/helm/chart/dependency_manager.go:312-343 | The nested loops compute the map of missing dependencies: empty if the counts are equal, else every absent alias-or-name key. |
| `DependencyBuild.RequestedIsLast` | internal/helm/chart/dependency_manager.go:323-341 | A key is mapped to the last request with that key, and every requested key is. |
| `DependencyRebuild.NothingMissing` | internal/helm/chart/dependency_manager.go:312-343 | Nothing is found missing exactly when the counts are equal or every requested key is present. |
| `DependencyBuildProof.ConcurrencyIsBounded` | internal/helm/chart/dependency_manager.go:145-182 | In every reachable state at most max(1, concurrent) workers are between acquire and release. |
| `DependencyBuildProof.AcquiresIff` | internal/helm/chart/dependency_manager.go:145-166 | And a spawner that waits gets its permit exactly while there are fewer. |
| `DependencyBuildProof.BuildGains` | internal/helm/chart/dependency_manager.go:145-261 | A completed build has appended charts of distinct missing keys, each with the content that its dependency loads and under its alias if it has one, and changed nothing else; without an error there is one for every key. |
| `DependencyBuildProof.FailsIffSomeLoadFails` | internal/helm/chart/dependency_manager.go:145-182 | Unless the caller cancels it, a build fails exactly when loading some missing dependency answers an error. |
| `DependencyBuildProof.OrderIsIrrelevant` | internal/helm/chart/dependency_manager.go:154-180 | Two successful builds give the same dependencies up to permutation, whatever the map order and the scheduling. |
| `DependencyBuildProof.EveryBuildEnds` | internal/helm/chart/dependency_manager.go:145-182 | No build takes more than eight steps per missing dependency and three more, and in one that has not ended the spawner or a worker can move, whoever waits for a permit. |
| `DependencyBuildProof.FailsFast` | internal/helm/chart/dependency_manager.go:145-182 | Once a worker has failed or the caller has cancelled, the spawner can stop without starting another worker than the one it already has a permit for. |
| `DependencyRebuild.CountIsGain` | internal/helm/chart/dependency_manager.go:122-132 | The count Build returns is the number of dependencies the chart has gained. |
| `DependencyRebuild.SecondBuildIff` | internal/helm/chart/dependency_manager.go:111-132 | After a success a second Build finds nothing exactly when the counts have become equal or every missing key is the name of a loaded chart. |
| `DependencyRebuild.SecondBuildFindsNothing` | internal/helm/chart/dependency_manager.go:111-132 | In particular if charts without an alias carry the requested names. |
| `LongPath.VolumeName` | internal/fs/fs.go:313-349 | A drive, or the one UNC head of the path, or nothing; always a prefix and no index out of range. |
| `LongPath.IsAbs` | internal/fs/fs.go:301-311 | A path is absolute exactly if it has a volume that a separator follows. |
| `LongPath.FixLongPath` | internal/fs/fs.go:229-299 | The two-cursor rewrite stays inside its buffer and yields the prefix, a backslash before each component that is not ".", and one more exactly behind a bare drive; or the input if that is short, begins with two backslashes, is relative or goes up. |
| `LongPath.RewrittenIff` | internal/fs/fs.go:229-299 | A path is rewritten exactly if it has 248 bytes or more, is absolute, does not begin with two backslashes, and does not go up. |
| `LongPath.FixedKeepsComponents` | internal/fs/fs.go:267-298 | Behind the prefix a rewritten path splits into exactly the components of the original without dots, in order. |
| `LongPath.SplitKeepsLetters` | internal/fs/fs.go:273-292 | Splitting loses nothing but separators. |
| `LongPath.FixedIsStable` | internal/fs/fs.go:229-299 | fixLongPath is idempotent. |
| `LongPath.UncIsLeftAloneIff` | internal/fs/fs.go:258-265 | A long UNC path is left alone exactly when it begins with two backslashes or goes up. |
| `RenameByCopy.FileSystem.CopyFile` | internal/fs/fs.go:123-186 | A link is cloned to a free place; a file overwrites what the destination leads to, data and mode; a failure touches nothing else. On a reliable file system it succeeds exactly on a link to a free place in a directory and on a file whose destination leads to a place that can hold it. |
| `RenameByCopy.FollowIff` | internal/fs/fs.go:145-181 | Where a path leads when it is opened: to the end of its chain of links, if there are no more of these than the system follows. |
| `RenameByCopy.FileSystem.CopyDir` | internal/fs/fs.go:68-117 | A success copies exactly the tree to a place that was free and not inside it; a failure changes nothing outside that place but directories above it; recursion terminates. On a reliable file system it succeeds exactly if the source is a directory, the destination is free, not inside it and below directories only, and no directory comes to lie too deep. |
| `RenameByCopy.FileSystem.RenameByCopy` | internal/fs/fs.go:36-59 | It succeeds only, and on a reliable file system always, on what can be copied so. A success is an atomic move exactly if no regular file is moved onto itself or through a link; then a failed copy leaves the source intact and a failed removal leaves the destination complete. Moving a directory into itself always fails and changes only the destination. |
| `RenameByCopy.MoveOntoItself` | internal/fs/fs.go:36-59 | A regular file moved onto itself on a reliable file system: a success, and the file is gone, nothing else. |
| `RenameByCopy.MoveThroughLink` | internal/fs/fs.go:36-59 | A regular file moved to a path that is a link: a success, the link stays and the file is where the link leads. |
| `RenameByCopy.MoveLinkToDirectory` | internal/fs/fs.go:36-59 | A link to a directory: a failure, wherever it is moved to. |
| `RenameByCopy.MovedBack` | internal/fs/fs.go:34-59 | Moving to a free place and back restores the file system. |
| `RenameByCopy.MovedIsTree` | internal/fs/fs.go:34-59 | A move keeps the file system a tree. |

## Left out

- Cancellation, `FailFast`, the time at which `lastErr` is read, process exit and logging: behaviour of the pool
  library and of the operating system under a cancelled context is not in the repository.
- Kustomize and Helm rendering, YAML encoding, archives, digests: library behaviour, kept as parameters or outcomes.
- Registry and HTTP clients, login, TLS, signatures, transport pool, getters, secrets: not part of this model.
- Helm release building, values merging, post renderers, local and remote chart builders: orchestration that would
  only add easy members.
- The file and null chart caches: one library call each.
- A walk from a relative root and a file system that changes during a walk; with a static tree the branch for an entry
  that has vanished between listing and Lstat cannot be taken.
- Reading the ignore file through a secure join, and the default size limit: the loader takes rules and a limit as
  arguments; `IgnoreRules.LoadRules` makes the rules from the lines of the file.
- RuleExactness.ExactIffHarmless: rules with special or control characters, and more than one rule of the ignore file,
  are covered by the sufficient condition of `SecureLoader.LoadIsExact` only.
- SecureLoader.SecureLoadDir: the walk calls the visitor as a function of the walker's state, since a method cannot be
  passed; the walker's own method is proved equal to that function, call by call, but the rules object is not updated by
  the walk.
- `filepath.Match` and constraint parsing: any partial predicate. White space beyond Latin-1 in `TrimSpace`, and
  the longest line that a `bufio.Scanner` reads.
- `sort.Sort` in the OCI helper: any permutation in which no version is lower than a later one, which is all the result
  depends on. The rotations inside `SliceStable`'s merge are slices, not in-place swaps.
- SortEntries after the clean-up of an index, and what validation itself rewrites: library behaviour.
- `resolveRepository` and the downloaders map: loading is a function of the dependency, so a nil downloader stored after
  a failed callback is not modelled.
- RenameByCopy.FileSystem.RenameByCopy: paths whose parent directories are links are not modelled, nor are permission
  bits of directories, the fallback for links on Windows and source or destination other than files, links and
  directories.
- RenameByCopy.FileSystem.CopyDir: entries are copied in any order, not in sorted order.
- ChartRepository.Repository.Digest: a digest that fails halfway through the file counts as an error without effect.
- Integer widths: sizes and counts are unbounded; none of the modelled code relies on wrap-around.
