# stac-higher: verified models of its stateful and order-sensitive parts

stac-higher serves virtual data cubes, runs package-built metadata extractors, scans
container images and rolls open alerts up into health verdicts. This project models the
parts of it that keep state, race, classify a stream or rebuild a document, and proves
what they promise for all inputs and all runs.

| file | what it models |
|---|---|
| `CubeRegistry.dfy`, `CubeSinks.dfy`, `CubeDatasets.dfy` | the cube server's registry: a cache of opened cubes polled from an unreliable database and unreliable stores, with its repository opener, sink reader and dataset preparation |
| `RollingWindow.dfy` | the rolling-window append protocol: seeding, polling, restarts, and the in-place shift and cut of three parallel arrays |
| `TolerantLoad.dfy` | the per-step tolerant loader: loads under a semaphore, in any interleaving, and the loop that collects them |
| `ItemMerge.dfy` | merging a package's item onto the platform's draft, and the staging that feeds it |
| `FindingsSummary.dfy` | scanner matches to findings, counts, the exploited list and the two-order top list |
| `HealthRollup.dfy` | connection chips, product rows, lineage and process verdicts over open alerts |
| `ImageResolve.dfy` | resolving a tag to a digest-linked image over an untrusted registry |
| `HrefMap.dfy` | the tile server's canonical-href rewrite |
| `Basics.dfy`, `Json.dfy` | shared: options, string order, stable sort, ordered JSON objects |

Code that updates things in place is a class or a method with loops, proved equal to a
specification function of the old state; the lemmas are about those functions and about
runs of them. What the environment does (database, stores, network, clock, package,
file system) is a parameter that may answer anything, so every statement holds for every
behaviour of it. Two facts are taken from outside: a snapshot's contents never change, and
a source file's scan times and contents are fixed by its key.

Some promises turned out to hold only under a condition; each has its exact condition and
an input on which it fails:

- A connection in a product's lineage shows the *first* alert listed for it, so it can
  disagree with the same connection's chip (`HealthRollup.LineageConnectionAgreesExactly`,
  `HealthRollup.LineageConnectionDisagrees`).
- A produced asset matched to a staged key that the draft does not have is neither carried
  over nor reported (`ItemMerge.AccountingExact`).
- A lookup of staged files shadows a key exactly when two staged assets of the manifest land
  on paths it takes for the same; for the name lookup a rooted fallback name does it
  (`ItemMerge.LookupsShadowNothing`, `ItemMerge.FallbackNameShadows`).
- The rolling window keeps its order only while the process's tip is the store's
  (`RollingWindow.StaleTipExact`, `RollingWindow.StaleTipAppendsTwice`), and after a conflict
  only when the rival's file is newer than the tip and older than the process's own
  (`RollingWindow.ConflictExact`, `RollingWindow.ConflictAppendsTwice`).
- A cached repository handle outlives its repository, so the registry goes on serving
  what reopening would not, exactly when there is something to serve through that handle
  (`CubeRegistry.EveryRunAgreesWithReopening`, `CubeRegistry.GoneButServed`).
- An exploited id is listed without a marked finding when its matches are repeats of an
  unrecorded first match, or name no package (`FindingsSummary.KevListedExactlyMarked`,
  `FindingsSummary.KevListedButNotMarked`, `FindingsSummary.KevListedWithoutFinding`).
- Mapping an href twice is mapping it once exactly when the base takes no object key of the
  bucket for a canonical href (`HrefMap.MapIdempotentExactly`).
- With no permits at all the tolerant loader never returns, unless there is nothing to load
  (`TolerantLoad.FinishesExactlyWithPermits`).

## Model

| member | source | states |
|---|---|---|
| CubeRegistry.ServedIsCurrent | infra/cube-server/stac_higher_cube_server/registry.py:213-244 | after any run and a poll whose list was read, every sink that did not fail is served exactly as a fresh open-and-prepare at its current snapshot, variables, prefixes and append dimension, through a handle for exactly those prefixes, or not at all |
| CubeRegistry.EveryRunKeepsInv | infra/cube-server/stac_higher_cube_server/registry.py:169-211 | over every run: entries are coherent and of wanted cubes, pending and empty cubes have none, handles are exactly authorised, warm-up errors are of served cubes |
| CubeRegistry.RefreshedIsCoherent | infra/cube-server/stac_higher_cube_server/registry.py:213-244 | one sink's refresh, wherever it fails, leaves a coherent entry and, unless it failed, the current key or nothing |
| CubeRegistry.HandleIsAuthorised | infra/cube-server/stac_higher_cube_server/registry.py:79-94 | the opener hands out and caches only handles of that collection for exactly the sink's prefixes, all of them supported |
| CubeRegistry.EachSinkOnItsOwn | infra/cube-server/stac_higher_cube_server/registry.py:184-201 | each collection's entry, handle and error depend on its own sink, answers and previous state alone |
| CubeRegistry.FailureKeepsWhatIsServed | infra/cube-server/stac_higher_cube_server/registry.py:171-195 | an unreadable list changes only the recorded error and returns no id; a failed sink keeps its entry and is reported |
| CubeRegistry.RejectedConfigKeepsItsCube | infra/cube-server/stac_higher_cube_server/registry.py:184-187 | a rejected config is an error under its own name, keeps its open dataset and handle, and is in none of the lists |
| CubeRegistry.PendingExactly | infra/cube-server/stac_higher_cube_server/registry.py:213-220 | a sink is pending, and not served, exactly without recorded prefixes or when the store is asked for its repository and has none |
| CubeRegistry.EmptyExactly | infra/cube-server/stac_higher_cube_server/registry.py:226-233 | it is empty, and not served, exactly when its snapshot opens without a step |
| CubeRegistry.ReopenedExactly | infra/cube-server/stac_higher_cube_server/registry.py:221-244 | it is reopened exactly when its snapshot opens with steps and can be prepared, and served from exactly that |
| CubeRegistry.FailsExactly | infra/cube-server/stac_higher_cube_server/registry.py:79-94 | it fails under a given name, and keeps what it served, exactly when one of the steps that raise it is reached: unsupported prefixes, the existence check, opening, the branch, the snapshot, preparing |
| CubeRegistry.UnchangedExactly | infra/cube-server/stac_higher_cube_server/registry.py:221-225 | otherwise its snapshot, variables, prefixes and append dimension are those already open, and nothing of it changes |
| CubeRegistry.CachedExactly | infra/cube-server/stac_higher_cube_server/registry.py:79-94 | a handle is cached exactly when one is opened |
| CubeRegistry.UnlistedIsDropped | infra/cube-server/stac_higher_cube_server/registry.py:203-210 | a cube listed no more is dropped and reported nowhere, and only served cubes keep their warm-up errors |
| CubeRegistry.ListOrderIsIrrelevant | infra/cube-server/stac_higher_cube_server/registry.py:184-211 | permuting distinct sinks changes no entry, handle or error |
| CubeRegistry.ListsAreTheStatuses | infra/cube-server/stac_higher_cube_server/registry.py:196-201 | the reopened, pending and empty lists are exactly the sinks that ended so, in list order |
| CubeRegistry.StatusesPartitionTheSinks | infra/cube-server/stac_higher_cube_server/registry.py:180-201 | reopened, unchanged, pending, empty and failed sinks add up to all sinks |
| CubeRegistry.ReturnedIdsAreTheReplaced | infra/cube-server/stac_higher_cube_server/registry.py:164-211 | an id is returned exactly when its entry is present and was replaced |
| CubeRegistry.AgreesWithReopening | infra/cube-server/stac_higher_cube_server/registry.py:213-244 | whenever reopening from nothing would work, one refresh leaves the same entry, exactly unless a cached handle outlives its repository and the state before leads to something being served through it |
| CubeRegistry.EveryRunAgreesWithReopening | infra/cube-server/stac_higher_cube_server/registry.py:164-244 | over every run, each listed sink that reopening would settle is served as reopening would serve it, with exactly that exception |
| CubeRegistry.GoneButServed | infra/cube-server/stac_higher_cube_server/registry.py:79-94 | the exception is reached by every servable cube: opened in one poll, served on after its repository is gone |
| CubeRegistry.GoneButServedExample | infra/cube-server/stac_higher_cube_server/registry.py:79-94 | such a run, written out |
| CubeRegistry.BridgesFailures | infra/cube-server/stac_higher_cube_server/registry.py:191-195 | when reopening would fail, the cache serves its previous entry, nothing, or a coherent entry at the current key |
| CubeRegistry.WarmUpsRecorded | infra/cube-server/stac_higher_cube_server/app.py:123-126 | after the warm-ups, each reopened served cube has an error, with its status, exactly when that was not 200; all other records stay |
| CubeRegistry.RecordKeepsInv | infra/cube-server/stac_higher_cube_server/registry.py:156-162 | recording a warm-up keeps the registry's invariant exactly when it succeeded or the cube is served |
| CubeRegistry.S3RepoOpener.Open | infra/cube-server/stac_higher_cube_server/registry.py:79-94 | the in-place handle cache follows its specification |
| CubeRegistry.LiveRegistry.RefreshSink | infra/cube-server/stac_higher_cube_server/registry.py:213-244 | one sink's in-place refresh follows its specification, touches only its own entry and handle, and shows readers one new map exactly when it reopens or drops, and it is coherent |
| CubeRegistry.LiveRegistry.RefreshAll | infra/cube-server/stac_higher_cube_server/registry.py:169-211 | the in-place refresh follows its specification and keeps the invariant; the maps readers see on the way are exactly one per reopened, pending or empty sink, in list order, and one per dropped cube, all coherent |
| CubeRegistry.LiveRegistry.Unregister | infra/cube-server/stac_higher_cube_server/registry.py:203-206 | dropping unwanted entries one by one leaves exactly the wanted ones, each step dropping one unwanted id |
| CubeRegistry.LiveRegistry.RecordWarmUpStatus | infra/cube-server/stac_higher_cube_server/registry.py:156-162 | records or clears any id's warm-up error and nothing else, and keeps the invariant exactly when it succeeded or the cube is served |
| CubeRegistry.LiveRegistry.PollOnceLive | infra/cube-server/stac_higher_cube_server/app.py:116-127 | one turn of the poll loop: refresh, then warm up what was reopened and is served; readers see only the refresh's maps |
| CubeRegistry.LiveRegistry.Get | infra/cube-server/stac_higher_cube_server/registry.py:135-137 | a dataset is found exactly when the collection has an entry |
| CubeSinks.NamesAreTheEntries | infra/cube-server/stac_higher_cube_server/sinks.py:47-56 | the variables are the stripped names, each once; one blank or non-text entry refuses the list |
| CubeSinks.ParseSinkConfig | infra/cube-server/stac_higher_cube_server/sinks.py:40-56 | the reader loop computes the specified config or the first failing check |
| CubeSinks.ConfigReadExactly | infra/cube-server/stac_higher_cube_server/sinks.py:40-56 | a config is accepted exactly when it is an object with an append dimension and a list of variables, none blank, and is read as those, each variable once, in order |
| CubeSinks.RowsToSinks | infra/cube-server/stac_higher_cube_server/sinks.py:70-93 | one sink per row, in order, a refused config as a bad sink |
| CubeSinks.RowBecomes | infra/cube-server/stac_higher_cube_server/sinks.py:70-93 | a row is the sink its config says, and otherwise a bad sink of the same ids |
| CubeSinks.EveryRowIsWanted | infra/cube-server/stac_higher_cube_server/sinks.py:70-93 | bad sinks keep their collection id, so they still count as wanted |
| CubeDatasets.RescaleIdempotent | infra/cube-server/stac_higher_cube_server/datasets.py:25-42 | rescaling a rescaled dataset changes nothing |
| CubeDatasets.RescaledExactly | infra/cube-server/stac_higher_cube_server/datasets.py:17-42 | exactly a dataset in radians under a geostationary mapping is rescaled, both axes by that mapping's height once and nothing else; without a usable height it is refused |
| CubeDatasets.PreparedServesTheWanted | infra/cube-server/stac_higher_cube_server/datasets.py:45-68 | served are the wanted variables the cube has, in the wanted order, the grid mapping the first of them names, and the coordinates along their dimensions, rescaled, with snapshot and append dimension as tags |
| RollingWindow.EveryRunKeepsOrder | docs/research/2026-10-03-virtual-cube-spike/soak.py:212-271 | in every single-writer run, with any listings, restarts, failures before a commit and failures to read the times back, the store holds the last steps of the history in strictly increasing time order |
| RollingWindow.NeverAppendedTwice | docs/research/2026-10-03-virtual-cube-spike/soak.py:218-260 | no file is appended twice, across restarts that lose `seen` and after its step was trimmed |
| RollingWindow.GuardsAreOneComparison | docs/research/2026-10-03-virtual-cube-spike/soak.py:254-260 | a file passes both guards exactly when its scan starts after the tip |
| RollingWindow.PassedFileIsCaught | docs/research/2026-10-03-virtual-cube-spike/soak.py:246-260 | any file whose time the tip has reached is turned away as late or duplicate, whatever the fault |
| RollingWindow.PollAppendsTheNewer | docs/research/2026-10-03-virtual-cube-spike/soak.py:244-273 | a poll without faults, over scans that do not overlap, appends exactly the listed unseen files that start after the tip, in scan order |
| RollingWindow.PollIgnoresListOrder | docs/research/2026-10-03-virtual-cube-spike/soak.py:245-246 | a poll does not depend on the order its keys are listed in, whatever goes wrong |
| RollingWindow.FailureEndsThePoll | docs/research/2026-10-03-virtual-cube-spike/soak.py:244-293 | the first unseen key in scan order is noted as seen before anything can raise, and a failure there ends the poll: before the commit with the store untouched, after it with the file stored and the tips not read back |
| RollingWindow.AcceptedExactly | docs/research/2026-10-03-virtual-cube-spike/soak.py:254-260 | a file is appended exactly when none of the last times is inside its scan and the scan ends after the tip |
| RollingWindow.SweepExactly | docs/research/2026-10-03-virtual-cube-spike/soak.py:274-284 | a sweep notes every listed key; with no tip it stops at the first missed key in key order |
| RollingWindow.StartSeedsTheNewest | docs/research/2026-10-03-virtual-cube-spike/soak.py:218-232 | a start on an empty store appends the newest listed files, at least one, oldest first; on any other store it appends nothing |
| RollingWindow.StartMarksThePassed | docs/research/2026-10-03-virtual-cube-spike/soak.py:229-232 | after a start the keys noted are exactly the listed ones whose scan ends by the tip |
| RollingWindow.AppendStep | docs/research/2026-10-03-virtual-cube-spike/soak.py:154-186 | after write, shift and cut the three arrays hold, index for index, exactly the last `max_steps` steps, also when several are trimmed at once |
| RollingWindow.OneFilePerPlace | docs/research/2026-10-03-virtual-cube-spike/soak.py:169-177 | place i of the two data arrays and of the times is the one file there |
| RollingWindow.TrimFront | docs/research/2026-10-03-virtual-cube-spike/soak.py:169-177 | shifting every array by k and cutting k leaves every array without its first k steps |
| RollingWindow.StaleTipExact | docs/research/2026-10-03-virtual-cube-spike/soak.py:265-271 | with a stale tip, order is kept exactly when that tip turns the file away or the file is newer than the store |
| RollingWindow.StaleTipAppendsTwice | docs/research/2026-10-03-virtual-cube-spike/soak.py:265-271 | a run from an empty store in which one failure after a commit leads to the same file being appended twice |
| RollingWindow.ConflictExact | docs/research/2026-10-03-virtual-cube-spike/soak.py:264-269 | the conflict retry keeps the order exactly when the rival's file is newer than the store's tip and the process's file newer than the rival's |
| RollingWindow.ConflictAppendsTwice | docs/research/2026-10-03-virtual-cube-spike/soak.py:264-269 | so when the rival committed the very same file, it is in the history twice |
| RollingWindow.Soak.Append | docs/research/2026-10-03-virtual-cube-spike/soak.py:154-186 | one committed append moves the store by one step of the specification |
| RollingWindow.Soak.OfferKey | docs/research/2026-10-03-virtual-cube-spike/soak.py:247-273 | the poll loop's body for one key follows its specification under every fault, a lost tip included |
| RollingWindow.Soak.PollOnce | docs/research/2026-10-03-virtual-cube-spike/soak.py:244-273 | a poll handles the unseen keys in scan order until one raises |
| RollingWindow.Soak.SweepOnce | docs/research/2026-10-03-virtual-cube-spike/soak.py:274-284 | the sweep only notes keys as seen, and stops at the first when there is no tip to report |
| RollingWindow.Soak.Begin | docs/research/2026-10-03-virtual-cube-spike/soak.py:212-232 | a start or restart reads the store back, seeds it when empty and marks the passed keys as seen |
| TolerantLoad.EveryScheduleGathersTheSequentialPass | infra/cube-server/stac_higher_cube_server/edr.py:102-113 | every interleaving keeps at most `concurrency` loads in flight, takes exactly two moves per step to finish, and gathers what a sequential pass gathers, in step order |
| TolerantLoad.EverySchedule | infra/cube-server/stac_higher_cube_server/edr.py:102-109 | each move uses up one remaining move and keeps permits plus loads in flight constant |
| TolerantLoad.NeverStuck | infra/cube-server/stac_higher_cube_server/edr.py:102-109 | while a load remains and there is a permit in the system, some task can move |
| TolerantLoad.FinishesExactlyWithPermits | infra/cube-server/stac_higher_cube_server/edr.py:87-109 | the loads can finish exactly when the concurrency is positive or there is nothing to load |
| TolerantLoad.CollectIsExact | infra/cube-server/stac_higher_cube_server/edr.py:111-123 | same steps, same order, each its data or NaN, storage errors counted exactly; otherwise the first raising step's error propagates |
| TolerantLoad.LoadsWhatIsAnswered | infra/cube-server/stac_higher_cube_server/edr.py:41-123 | from the store's answers alone: each step holds exactly the values its read answered, or NaN along the dimension when its source is gone, in order, the gone ones counted; or the first step that raises decides |
| TolerantLoad.MissingKeepsShape | infra/cube-server/stac_higher_cube_server/edr.py:48-59 | a missing step keeps names, dimensions, coordinates, shapes and attributes and is NaN along the dimension only |
| TolerantLoad.SizeIsTheProduct | infra/cube-server/stac_higher_cube_server/edr.py:48-59 | an array has as many values as the product of its sizes |
| TolerantLoad.GatherLoads | infra/cube-server/stac_higher_cube_server/edr.py:102-109 | an arbitrary schedule, run until nothing can move, returns the sequential outcomes; without permits it never returns unless there is nothing to load |
| TolerantLoad.CollectSteps | infra/cube-server/stac_higher_cube_server/edr.py:111-120 | the collecting loop follows its specification, stopping at the first error |
| TolerantLoad.LoadStepsTolerant | infra/cube-server/stac_higher_cube_server/edr.py:87-123 | the whole load, collapsed, stepped or empty, equals reading each step in turn, under every concurrency |
| ItemMerge.MergeIdempotent | services/process-runtime/stac_higher_stactools/merge.py:70-144 | merging the same produced item onto its own result gives the same item, key order included, and the same report |
| ItemMerge.MergeFrame | services/process-runtime/stac_higher_stactools/merge.py:130-144 | outside five keys the item is the draft; its asset keys are the draft's, in order, and every asset href is the draft's |
| ItemMerge.DraftOwnedIsFramed | services/process-runtime/stac_higher_stactools/merge.py:40-41 | id, collection, version, links and type are none of the merged keys |
| ItemMerge.GeometryAndBox | services/process-runtime/stac_higher_stactools/merge.py:96-100 | a produced geometry replaces geometry and box; a produced box alone only fills a missing one |
| ItemMerge.PropertiesOverlay | services/process-runtime/stac_higher_stactools/merge.py:86-94 | per property: the package's value, else the draft's, and a null datetime becomes the start datetime |
| ItemMerge.ExtensionsUnion | services/process-runtime/stac_higher_stactools/merge.py:102-108 | exactly the text entries of both lists, each once |
| ItemMerge.AssetsGainMetadata | services/process-runtime/stac_higher_stactools/merge.py:128-136 | per asset member: the matched asset's value, else the draft's |
| ItemMerge.FirstInOrderWins | services/process-runtime/stac_higher_stactools/merge.py:115-128 | a draft key is matched exactly when some produced asset points at it, and by the first that does |
| ItemMerge.WinnersInjective | services/process-runtime/stac_higher_stactools/merge.py:115-128 | no produced asset is matched to two draft keys |
| ItemMerge.DroppedAreTheLosers | services/process-runtime/stac_higher_stactools/merge.py:115-128 | the report lists, in order and once each, exactly the produced asset objects that won no draft key |
| ItemMerge.DroppedForTheReason | services/process-runtime/stac_higher_stactools/merge.py:120-126 | each line carries the asset's href and why it was dropped |
| ItemMerge.MatchedPlusDropped | services/process-runtime/stac_higher_stactools/merge.py:115-128 | matched plus dropped is the number of produced asset objects |
| ItemMerge.AccountingExact | services/process-runtime/stac_higher_stactools/merge.py:110-137 | every produced asset object is carried or reported, whatever is produced, exactly when every staged key is an asset key of the draft |
| ItemMerge.StagedOnOwnPaths | services/process-runtime/stac_higher_stactools/runner.py:62-73 | staging that succeeds puts every staged asset on a path of its own |
| ItemMerge.StagedExactly | services/process-runtime/stac_higher_stactools/runner.py:53-73 | when staging succeeds, exactly the manifest assets that name a bucket and a key were downloaded, each to the last component of its key or, without one, to its asset key |
| ItemMerge.ComponentsAdd | services/process-runtime/stac_higher_stactools/runner.py:68 | joining drops empty and dot components and adds the others one by one |
| ItemMerge.StagingRefusesOnlyRepeats | services/process-runtime/stac_higher_stactools/runner.py:62-73 | with working downloads it fails exactly when two assets share a path |
| ItemMerge.LookupsShadowNothing | services/process-runtime/stac_higher_stactools/merge.py:110-111 | each lookup finds every staged key exactly when no two staged assets of the manifest land on paths it takes for the same |
| ItemMerge.HrefLeadsExactly | services/process-runtime/stac_higher_stactools/merge.py:59-67 | an href leads to the last key staged at the path it resolves to; when that is no staged path, to the last key staged under its last component, without scheme, query and trailing slashes; and otherwise nowhere |
| ItemMerge.FileNameLeads | services/process-runtime/stac_higher_stactools/merge.py:65-67 | with file names apart, an href that resolves to no staged path leads to a key exactly when its last component is that key's file name |
| ItemMerge.PlainNamesStayApart | services/process-runtime/stac_higher_stactools/runner.py:62-73 | because a repeated target is refused, plain file names keep the name lookup apart |
| ItemMerge.FallbackNameShadows | services/process-runtime/stac_higher_stactools/runner.py:53-73 | a manifest that stages two keys on two paths, one under a rooted fallback name, and whose file names lead to one key only |
| ItemMerge.ExtractedWithoutLoss | services/process-runtime/stac_higher_stactools/runner.py:110-121 | when the manifest's assets are the draft's own, every produced asset object of a written item was carried or reported |
| ItemMerge.WrittenExactly | services/process-runtime/stac_higher_stactools/runner.py:102-126 | an object is written exactly when staging, adapter, merge and write succeed, under the prefix and the item id, and it holds the merged item |
| ItemMerge.ProcessEntry | services/process-runtime/stac_higher_stactools/runner.py:102-126 | stage, extract, merge and write one manifest entry, with each way of failing |
| ItemMerge.StageAssets | services/process-runtime/stac_higher_stactools/runner.py:62-73 | the staging loop follows its specification and stops at the first refusal |
| ItemMerge.MatchProduced | services/process-runtime/stac_higher_stactools/merge.py:112-128 | the matching loop computes the specified matches and report |
| ItemMerge.MergeAssets | services/process-runtime/stac_higher_stactools/merge.py:130-137 | the asset loop computes the specified assets |
| ItemMerge.MergeItem | services/process-runtime/stac_higher_stactools/merge.py:70-144 | the whole merge, errors included, follows its specification |
| Json.UpdateExactly | services/process-runtime/stac_higher_stactools/merge.py:91-134 | an update gives every member of the second object its value, keeps the others, and puts the new keys last |
| Json.PopExactly | services/process-runtime/stac_higher_stactools/merge.py:138-143 | popping a key leaves the other members and their order |
| Json.FalsyExactly | services/process-runtime/stac_higher_stactools/runner.py:66 | a JSON value reads as false exactly when it is null, false, a zero or empty |
| FindingsSummary.FindingsAreFirstOccurrences | services/image-scanner/stac_higher_scanner/summary.py:72-111 | the findings are, in order, one per distinct untruncated triple, made from its first occurrence |
| FindingsSummary.FindingsFromGrype | services/image-scanner/stac_higher_scanner/summary.py:72-111 | the loop with its `seen` set computes the specified findings |
| FindingsSummary.FindingsTellTheirMatches | services/image-scanner/stac_higher_scanner/summary.py:77-110 | each finding says, field by field, what the first match of its triple does |
| FindingsSummary.SeverityExactly | services/image-scanner/stac_higher_scanner/summary.py:88-90 | the severity is the one the text names, around blanks and in any case, and unknown otherwise |
| FindingsSummary.FixedIn | services/image-scanner/stac_higher_scanner/summary.py:92-94 | the first version that is not blank, exactly for a fixed match that names one |
| FindingsSummary.MaxEpss | services/image-scanner/stac_higher_scanner/summary.py:95-98 | the largest finite score, clamped into [0, 1] |
| FindingsSummary.KevIdsExactly | services/image-scanner/stac_higher_scanner/summary.py:63-69 | a match contributes the ids its exploitation records name or, when they name none, its own |
| FindingsSummary.Clamped | services/image-scanner/stac_higher_scanner/summary.py:53-60 | finite exactly for finite input, unchanged within the bounds and the nearer bound outside them |
| FindingsSummary.OrdersExactly | services/image-scanner/stac_higher_scanner/summary.py:114-135 | the two orders: by urgency, by score among fixable high findings, by risk, id and package; and by risk, id and package |
| FindingsSummary.SelectTopCorrect | services/image-scanner/stac_higher_scanner/summary.py:124-135 | the chosen and omitted findings make up all findings, the chosen number is min(limit, n), they are emitted in order, and none omitted ranks strictly before one chosen |
| FindingsSummary.TiersThatFitAreComplete | services/image-scanner/stac_higher_scanner/summary.py:114-135 | when at most `limit` findings have tier at most j, all of them are in the list, as often as they occur |
| FindingsSummary.SelectTopStable | services/image-scanner/stac_higher_scanner/summary.py:124-135 | findings that emit alike keep their rank order |
| FindingsSummary.CountsConserve | services/image-scanner/stac_higher_scanner/summary.py:164-170 | the severity counts add up to the number of findings and bound the fixed counts |
| FindingsSummary.MaxRiskIsTopRisk | services/image-scanner/stac_higher_scanner/summary.py:175-182 | the maximum bounds every listed risk and is the first one when the list holds all |
| FindingsSummary.KevFindingsAreListed | services/image-scanner/stac_higher_scanner/summary.py:171-174 | every finding marked as exploited contributes an id to the list |
| FindingsSummary.KevListedExactlyMarked | services/image-scanner/stac_higher_scanner/summary.py:86-88 | the converse, exactly: contributors have marked findings if and only if they name a package and the first match of their triple records an exploitation, for all of them and id by id |
| FindingsSummary.KevListedButNotMarked | services/image-scanner/stac_higher_scanner/summary.py:86-88 | it fails for a repeated match whose first occurrence records nothing |
| FindingsSummary.KevListedWithoutFinding | services/image-scanner/stac_higher_scanner/summary.py:171-174 | and for a match without a package, which is listed and makes no finding |
| FindingsSummary.SortedListUnique | services/image-scanner/stac_higher_scanner/summary.py:181 | a sorted duplicate-free list of a set is unique |
| FindingsSummary.BuildSummary | services/image-scanner/stac_higher_scanner/summary.py:158-184 | the summary tallies the findings, lists the exploited ids sorted and once each, and dates the selected top list |
| HealthRollup.AlertConservation | app/src/components/layout/overview.ts:194-236 | an open alert is unattributed exactly when no product owns it, and every product that owns it shows a warning or an error |
| HealthRollup.OwnsExactly | app/src/components/layout/overview.ts:188-203 | a product owns exactly the alerts that name it, one of its associations, a connection it has a flow on, or a process wired to it |
| HealthRollup.QuietRowOwnsNothing | app/src/components/layout/overview.ts:205-236 | a row that is not a warning or an error owns no open alert |
| HealthRollup.LatenessNeverDecides | app/src/components/layout/overview.ts:217-232 | with distinct flow ids the late-flow branch never changes a verdict |
| HealthRollup.RowVerdictIsJoin | app/src/components/layout/overview.ts:212-229 | a row's verdict is the join over its own open alerts |
| HealthRollup.RowShows | app/src/components/layout/overview.ts:205-236 | a row fails for an alarming alert of its own, warns for any other open one or a flow that is behind, and is fine only when known to the platform, wired, and the alert list is complete |
| HealthRollup.RowExplains | app/src/components/layout/overview.ts:212-236 | the reason is the first alarming alert, else the first degrading one, else the first acknowledged one, else the flow that is behind, else that nothing is wired |
| HealthRollup.RowTells | app/src/components/layout/overview.ts:238-341 | title, ingested items, lineage edge by edge, and whether the platform knows the product |
| HealthRollup.ProcessNodeIsJoin | app/src/components/layout/overview.ts:272-303 | the three-step find shows the join over the process's alerts |
| HealthRollup.ProcessNodeShows | app/src/components/layout/overview.ts:272-303 | with its alerts gone, a process in the lineage warns when it is not deployed and is fine only on a complete alert list |
| HealthRollup.ConnectionNodeShows | app/src/components/layout/overview.ts:243-252 | a connection in the lineage shows its status and the first alert listed for it |
| HealthRollup.ProcessPageAgreesWithLineage | app/src/components/processes/health.ts:73-107 | the process page and the lineage show one verdict for an enabled, deployed, triggered process with an open alert |
| HealthRollup.PageShows | app/src/components/processes/health.ts:73-141 | a process that cannot run proves nothing; else its open alerts decide; else its real runs do, dead before failed before deferred |
| HealthRollup.LineageConnectionAgreesExactly | app/src/components/layout/overview.ts:243-252 | a lineage connection agrees with its chip exactly when its status fails, its first alert fails, or none does |
| HealthRollup.LineageConnectionDisagrees | app/src/components/layout/overview.ts:243-252 | an acknowledged alert listed before a firing one makes them differ |
| HealthRollup.JoinIgnoresOrder | app/src/components/layout/overview.ts:66-73 | the join does not depend on the order of alerts |
| HealthRollup.ChipIgnoresOrder | app/src/components/layout/overview.ts:98-121 | a chip does not depend on the order of alerts |
| HealthRollup.RowIgnoresOrder | app/src/components/layout/overview.ts:194-236 | no row's verdict does either |
| HealthRollup.ProcessNodeIgnoresOrder | app/src/components/layout/overview.ts:272-303 | nor does any process in the lineage |
| HealthRollup.GroupIsWorst | app/src/components/layout/overview.ts:319-328 | a lineage group shows the worst of its nodes, and no verdict without evidence |
| HealthRollup.AlertsByConnection | app/src/components/layout/overview.ts:98-105 | the one alert kept per connection carries the join of all of them |
| HealthRollup.ChipShows | app/src/components/layout/overview.ts:106-121 | a chip fails for its status or an alarming alert, warns for any other alert, is fine on a proven status, and lists the directions of its flows |
| HealthRollup.BuildConnectionChips | app/src/components/layout/overview.ts:86-124 | each chip shows the join over its connection's status and all its alerts, worst first |
| HealthRollup.ChipsInOrder | app/src/components/layout/overview.ts:106-124 | one chip per connection node, the gravest first, alike ones by name |
| HealthRollup.BuildProductRows | app/src/components/layout/overview.ts:149-342 | the rows and the unattributed alerts are those of the specification |
| ImageResolve.RegistryClient.Resolve | services/image-scanner/stac_higher_scanner/registry.py:293-339 | whatever the registry replies, a returned image is linked, member by member of the JSON it sent in the call, to the digest it named for the tag; in every outcome a blob is asked for only after a received manifest within the bound that names it; a refusal as too large names the sum of a received manifest's layer sizes; and an honest registry is resolved as its bodies say |
| ImageResolve.RegistryClient.TagManifest | services/image-scanner/stac_higher_scanner/registry.py:295-309 | the digest is the one named for the tag, and the top document and the platform's manifest were received under their digests, with no blob asked for |
| ImageResolve.RegistryClient.ConfigBlob | services/image-scanner/stac_higher_scanner/registry.py:310-339 | nothing is requested unless the manifest has a size within the bound and a config digest, and then only that blob, whose received body makes the image |
| ImageResolve.RegistryClient.PlatformManifest | services/image-scanner/stac_higher_scanner/registry.py:296-309 | the manifest is the top document or the one the index lists for the platform |
| ImageResolve.RegistryClient.Document | services/image-scanner/stac_higher_scanner/registry.py:266-280 | a returned document was received, fits the cap and hashes to the digest |
| ImageResolve.RegistryClient.Send | services/image-scanner/stac_higher_scanner/registry.py:253-264 | one request, repeated once with the granted token exactly when the first reply is a 401 whose challenge yields one, and the outcome of the last |
| ImageResolve.RegistryClient.HeadTag | services/image-scanner/stac_higher_scanner/registry.py:282-291 | a returned digest is well formed and was named by a 200 to a HEAD for this tag |
| ImageResolve.DigestPinsTheImage | services/image-scanner/stac_higher_scanner/registry.py:266-339 | under a collision-free hash one digest and platform resolve to one image, whatever the tags, bounds and replies |
| ImageResolve.ResolvesExactlyLinked | services/image-scanner/stac_higher_scanner/registry.py:293-339 | a store resolves a digest to an image exactly when it holds a chain linking them |
| ImageResolve.LinkedExactly | services/image-scanner/stac_higher_scanner/registry.py:113-340 | a chain links a digest to an image exactly when its bodies read so: platform, index entry, layer sizes, config digest, os and architecture, each from its own JSON member |
| ImageResolve.ManifestReadExactly | services/image-scanner/stac_higher_scanner/registry.py:310-326 | what a manifest amounts to, and the first thing that is wrong with it |
| ImageResolve.PlatformIsSpelled | services/image-scanner/stac_higher_scanner/registry.py:113-117 | a platform is two or three non-empty parts between slashes |
| ImageResolve.ConfigIsRead | services/image-scanner/stac_higher_scanner/registry.py:141-155 | user, entrypoint and command are those of the blob's config, texts only |
| ImageResolve.PickedIsFirst | services/image-scanner/stac_higher_scanner/registry.py:124-138 | the first entry with the wanted operating system, architecture and, when one is wanted, variant, and a usable digest; or none |
| ImageResolve.PickedExactly | services/image-scanner/stac_higher_scanner/registry.py:124-138 | an index yields a digest exactly when that is the first fitting entry of its list, and cannot be walked exactly when the list is a truth value or a number other than zero |
| ImageResolve.LayerSizesAdd | services/image-scanner/stac_higher_scanner/registry.py:313-318 | the size is additive over layer lists and missing as soon as one layer has none |
| ImageResolve.SizeIsTheSum | services/image-scanner/stac_higher_scanner/registry.py:313-318 | a layer list has a size exactly when every layer has a natural `size`, and it is their sum |
| ImageResolve.LayerSizeExactly | services/image-scanner/stac_higher_scanner/registry.py:314-317 | one layer's size is the natural number its `size` member holds |
| ImageResolve.DigestExactly | services/image-scanner/stac_higher_scanner/registry.py:47 | a digest is `sha256:` and 64 lower-case hexadecimal digits |
| ImageResolve.RegistryClient.SizeOf | services/image-scanner/stac_higher_scanner/registry.py:313-318 | the accumulating loop computes the exact sum or finds a layer without a size |
| HrefMap.MapsExactlyCanonical | infra/titiler/stac_higher_titiler/hrefmap.py:23-39 | a text is rewritten exactly when it is a canonical href of a legal triple, to that triple's object; all else passes through |
| HrefMap.EncodedHrefMaps | infra/titiler/stac_higher_titiler/hrefmap.py:23-39 | any percent-encoding (section 2.1 of RFC 3986) of a legal triple, under every base, either scheme and any query, maps to its object |
| HrefMap.PlainSegmentsAreMapped | infra/titiler/stac_higher_titiler/hrefmap.py:34-39 | an href of three segments is rewritten whenever none of them decodes to nothing, a dot or two, or more than one component |
| HrefMap.EscapingSegmentsPassThrough | infra/titiler/stac_higher_titiler/hrefmap.py:34-37 | and left alone whenever one does |
| HrefMap.DecodedExactly | infra/titiler/stac_higher_titiler/hrefmap.py:34 | decoding reads each escape as its byte, digits of either case, and everything else as itself |
| HrefMap.BaseEndsInOneSlash | infra/titiler/stac_higher_titiler/hrefmap.py:27 | what comes before the segments is the base without its trailing slashes and one slash |
| HrefMap.KeySplitsBack | infra/titiler/stac_higher_titiler/hrefmap.py:38-39 | a mapped key splits back into exactly its triple |
| HrefMap.DistinctTriplesDistinctKeys | infra/titiler/stac_higher_titiler/hrefmap.py:34-39 | two canonical hrefs map to one object exactly when they name one triple |
| HrefMap.MapIdempotentExactly | infra/titiler/stac_higher_titiler/hrefmap.py:23-39 | mapping twice is mapping once for every href exactly when no object key of the bucket is taken for a canonical href under the base, for every bucket and base |
| HrefMap.PlainBucketTakesKeys | infra/titiler/stac_higher_titiler/hrefmap.py:26-39 | for a bucket without a slash, those are the bases that name its root or its asset prefix |
| HrefMap.DefaultBaseTakesNoKey | infra/titiler/stac_higher_titiler/hrefmap.py:23 | the default base is never one of them |
| HrefMap.EveryKeyIsReached | infra/titiler/stac_higher_titiler/hrefmap.py:23-39 | every object of a legal triple is what some href maps to, whatever the base |

## Left out

- User interface, HTTP routes, log lines, clocks and timings, and all transport to databases, object stores, registries and scanners: they are parameters that may answer anything or fail.
- The registry's lock: one refresh runs at a time, and readers only look up; what they can see between writes is modelled.
- Token acquisition and redirects of the registry client: a challenge yields a token or none.
- The internals of xarray, zarr and Icechunk: a dataset is named variables with sizes, an append adds one step to each array, a shift moves chunks and leaves vacant places.
- A grid mapping whose height is numeric text: text as a height is refused.
- Garbage collection, snapshot expiry and the gap report of the rolling-window process: they do not touch the three arrays.
- A negative maximum of steps, which fails every append; and a restart whose store exists but is emptied (a maximum of zero) or cannot be read back: what seeding over existing arrays does lies in Icechunk.
- EDR selection and time-selector normalisation.
- TolerantLoad.LoadStepsTolerant: does not concatenate the loaded steps, because that is xarray's; it returns them in order.
- Symbolic links in the staging directory: whether the file system resolves staged paths apart is a parameter, and a hypothesis of `ItemMerge.AccountingExact`.
- The per-item failure loop of the extractor run.
- Conversion of non-text scanner fields to text, and the case folding of ids in the publication-date lookup: matches arrive decoded and a date is looked up by id.
- Alert and verdict wording, link targets, and the locale's name order: reasons are values, and the chips' name order is a parameter.
- Replacement characters for invalid UTF-8 in percent-decoded hrefs: hrefs are byte sequences.
