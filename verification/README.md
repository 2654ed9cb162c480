# Verification model of nvidia_gpu_exporter

A Dafny model of the parts of nvidia_gpu_exporter that carry state or feed its metrics, with proofs of what they promise.
`dafny verify dfyconfig.toml` checks it.

* **Shared collection** (`Collect`, `Live`, `LiveProtocol`, `Cached`): the single-flight source as a class whose methods
  are its locked transitions, and every interleaving of callers and collection runs over them; the background source and
  the fold both share.
* **NVML lifecycle, XID watcher, GPM retention** (`Lifecycle`, `Gpm`, `MigCycle`, `MigServed`, `NvmlBackend`, `XidCounts`,
  `MigKeys`, `Ids`): one state machine over the loads, stores, lock operations and driver calls of cycles, `Close`,
  `tryRecover`, the watcher and late lock acquirers; one over whole runs of cycles with every driver answer, what they
  serve included; and the backend as a class that is proved to take the second one's steps.
* **Fields, names and rendering** (`Resolve`, `Names`, `Exporter`, `Scrapes`, `Collector`, `Due`, `Render`, `Scraping`):
  what a scrape holds, no more and no less, and why it cannot hold one series twice, from field resolution and name
  derivation to the render loops.
* **Fake nvidia-smi and the parsers** (`Text`, `Csv`, `ComputeApps`, `Projection`, `Projector`, `RoundTrip`, `Agreement`,
  `Identity`, `Overrides`, `Fluctuation`, `Fluctuator`, `Memory`, `MultiGpu`, `Simulation`): a printer and parser pair,
  with rows that are arrays edited in place, replicas, free text and rewritten numeric cells.
* **Formatters and value transform** (`Numerals`, `Decimals`, `Transform`, `Format`): the other printer and parser pair.
* **Demo synthesizer** (`Synth`, `XidSchedule`, `Attribution`, `DemoTable`, `Demo`, `DemoCycle`): energy, MIG, processes
  and XID state over cycles, resets and reloads.

A method named after a method or function of the repository is its body in Dafny; its `ensures` equates the new state or
the result with a specification function, and the lemmas prove what the source promises about that function over all
inputs or all runs. Random draws, clocks, driver answers, query outcomes, the snake-case conversion, pattern matching,
generated uuids and the shortest text of a number are parameters, so the theorems hold for all of them.

## Where code and documentation disagree

The model follows the code.

* `mig_nvml.go:397-399` says frees must precede the shutdown. `mig_nvml.go:316-323` frees the fresh sample of a failed
  diff after `markLost` may have shut the library down: `Lifecycle.LocalFreeAfterShutdown` and `Gpm.SampleFreedLate` say
  exactly when, `Lifecycle.LocalFreeAfterShutdownHappens` gives a run.
* An event set leaks if the watcher, about to free it, reads `genLive` as false between the count of the set's generation
  and its `genLive` store (`Lifecycle.EarlySetLeaks`), and only then (`Lifecycle.EventSetsDoNotLeak`, an equivalence).
* `lastOK` is the time of the last folded success, not the latest one (`LiveProtocol.LastOkCanMoveBack`). It moves back
  exactly when a success is published behind one that completed later, and one of the two runs was abandoned then
  (`LiveProtocol.LastOkMovesBackExactlyWhenOvertaken`); without abandoned runs it never does.
* An answer whose first or last line is blank does not survive the parser's trimming: `RoundTrip.ParsePrinted` and
  `Agreement.AskAndParse` are equivalences with that condition, `Agreement.SeveralColumnsPrint` shows when it is met.
* used + free equals the capacity only if the printed decimals can express it: `Memory.UsedAndFreeAddUp` is the exact
  condition, `Memory.MixedShapesDisagree` a row that fails it.
* The extras pass stops without a lifecycle error when the GPM exports are incomplete (`mig_nvml.go:108-110`) and when the
  context ends between the two PCIe samples; the model's pass does too.
* `Close` is not final: a later cycle or the watcher may init again, and `Lifecycle` lets them.

## Model

| member | source | states |
|---|---|---|
| `Collect.CollectOnce` | internal/collect/collect.go:111-163 | Field by field: exit code, duration and error always, the table, processes and extras exactly on success; the fatal hook fires exactly on a command exit or fatal error under a live context. |
| `Collect.Counters.FoldCumulative` | internal/collect/collect.go:168-177 | One failure adds one, one success sets lastOK, in place; the folded snapshot carries the new values and is otherwise the one it was. |
| `Collect.FoldCountsEachOnce` | internal/collect/collect.go:165-177 | Over any history: failures is the number of failed outcomes and lastOK the time of the last successful one, None if there was none. |
| `Collect.StampedCarries` | internal/collect/collect.go:165-177 | A snapshot stamped with the fold of a history carries the number of failed outcomes and the time of the last success, and nothing else of it changes. |
| `Live.LiveSource.JoinRun` | internal/collect/live.go:81-97 | Joining attaches to the run in the slot or starts one; the waiter count of that run, and of no other, grows by one. |
| `Live.LiveSource.LeaveRun` | internal/collect/live.go:107-118 | The last one out cancels the run and empties the slot, but only if that run is still the joinable one; a late leaver changes nothing else. |
| `Live.LiveSource.PublishRun` | internal/collect/live.go:124-140 | Fold, release of the slot and publication are one transition; a fresh run in the slot stays there when an abandoned one publishes. |
| `Live.LiveSource.UnwindRun` | internal/collect/live.go:124-126 | The deferred cancel touches only its own run. |
| `Live.LiveSource.NoResult` | internal/collect/live.go:144-149 | The no-result answer holds no data and the two counters as they stand. |
| `LiveProtocol.OneLiveRun` | internal/collect/live.go:81-140 | In every reachable state of any number of callers and runs at most one run is neither cancelled nor published, and it is the one in the slot. |
| `LiveProtocol.WaitersAreCounted` | internal/collect/live.go:92-118 | While a run is joinable its counter is the number of callers still waiting on it, and at least 1. |
| `LiveProtocol.CancelledIsDeserted` | internal/collect/live.go:99-118 | A run cancelled before it published has no waiter and is not joinable: one caller giving up never disturbs another. |
| `LiveProtocol.DesertedForGood` | internal/collect/live.go:99-118 | Whatever happens next, no caller ever waits on a deserted run again. |
| `LiveProtocol.WrittenOnce` | internal/collect/live.go:124-140 | No later step, over any run of steps, changes a published snapshot. |
| `LiveProtocol.ServedIsFresh` | internal/collect/live.go:50-77 | A served snapshot is the attempted outcome of the caller's own run, published after the caller joined; its failures and last success are those of all outcomes up to and including it, everything else is the outcome's own. |
| `LiveProtocol.SharedResult` | internal/collect/live.go:50-77 | Everyone served by one run is served the identical snapshot. |
| `LiveProtocol.NothingOnlyAfterTheEnd` | internal/collect/live.go:55-77 | Only a caller whose context ended gets the no-result answer; for some moment of the call it carries the number of runs published by then that failed and the time of the last success among them. |
| `LiveProtocol.APublishedResultIsServed` | internal/collect/live.go:57-77 | Once its run has published, a caller that waits with a live context or that just left is served that run's snapshot by its next step. |
| `LiveProtocol.NobodyIsStuck` | internal/collect/live.go:50-140 | In every reachable state a caller without an answer can move, or waits for an unpublished run that can: its query returns or it publishes. |
| `LiveProtocol.RunsFoldOnce` | internal/collect/live.go:124-140 | Each published run is folded exactly once: the publication log has no repetition, failures counts the failed runs and lastOK is the last folded success. |
| `LiveProtocol.LastOkMovesBackExactlyWhenOvertaken` | internal/collect/live.go:99-106 | In any reachable state a step moves lastOK back if and only if it publishes a run that succeeded before the last folded success did and was not folded before it; and then one of the two runs had been abandoned. |
| `LiveProtocol.LastOkCanMoveBack` | internal/collect/live.go:99-106 | Such a step is reachable: an abandoned collection publishes after a fresh one that completed later. |
| `Cached.CachedSource.Run` | internal/collect/cached.go:53-71 | Only the first caller runs the loop; each tick is collected, folded and published once, in order. |
| `Cached.CachedSource.Latest` | internal/collect/cached.go:79-85 | Readers get the newest published outcome, or the never-attempted snapshot before the first tick. |
| `Cached.ServedAfterTicks` | internal/collect/cached.go:73-94 | What readers see after any ticks is the newest attempt's data with counters that count every tick exactly once: the same fold as the synchronous source. |
| `Lifecycle.NoUseAfterShutdown` | internal/nvmlnative/xid_nvml.go:173-314 | In every interleaving of cycles, Close, tryRecover, the watcher and late acquirers: shutdown never runs while the watcher is inside a driver call or a sample is retained, nothing is freed twice, no event set is created under a generation that was shut down, and no event set or retained sample is registered, used or freed after its own was. |
| `Lifecycle.InitsAreAccountedFor` | internal/nvmlnative/backend_nvml.go:449-533 | Successful inits = shutdowns + skipped shutdowns + the one in use, exactly whenever no change of `initialized` is half done; with `mu` free the generation equals the inits and genLive equals initialized. |
| `Lifecycle.SamplesAreAccountedFor` | internal/nvmlnative/mig_nvml.go:273-332 | In every state, not only between cycles: allocated samples are retained, freed or the one in hand, and nothing is retained once genLive is clear. |
| `Lifecycle.EventSetsFreedOnce` | internal/nvmlnative/xid_nvml.go:267-314 | Over any whole run no event set is freed twice, and exactly the logged frees end up freed. |
| `Lifecycle.EventSetsDoNotLeak` | internal/nvmlnative/xid_nvml.go:173-256 | In every reachable state the leaked event sets, unowned and unfreed while their generation is alive or about to be, are exactly those the watcher dropped because it read genLive as false between the count of their generation and its genLive store. |
| `Lifecycle.DeadForGood` | internal/nvmlnative/backend_nvml.go:511-533 | Over any run a generation that is neither alive nor about to be never is again, and a dropped event set stays dropped, so it is never freed. |
| `Lifecycle.MuIsLetGo` | internal/nvmlnative/backend_nvml.go:449-533 | From every reachable state the holder of `mu` can, by its own steps alone, go on until it lets go of it: no race for the lock, driver failure or watcher can hold it up. |
| `Lifecycle.WatcherGetsIn` | internal/nvmlnative/backend_nvml.go:469-509 | With `mu` free the watcher can always come to hold the shared lock: an acquirer that was given up on releases what it gets. |
| `Lifecycle.LocalFreeAfterShutdown` | internal/nvmlnative/mig_nvml.go:316-323 | The fresh sample of a failed diff is freed after its generation was shut down exactly when the teardown that the failure caused won the lock. |
| `Lifecycle.LocalFreeAfterShutdownHappens` | internal/nvmlnative/mig_nvml.go:316-323 | Such a run exists, against the rule stated at mig_nvml.go:397-399. |
| `Lifecycle.EarlySetLeaks` | internal/nvmlnative/backend_nvml.go:331-348 | Such a set is reachable: a run in which the watcher reads a new generation before its genLive store and drops its event set unfreed, and the generation is alive. |
| `Gpm.SampleBooks` | internal/nvmlnative/mig_nvml.go:273-332 | One sampling keeps the books through every failure path: every allocated sample is retained or freed, one of the two and once. |
| `Gpm.ServedIsSound` | internal/nvmlnative/mig_nvml.go:273-332 | A served utilization was diffed from two samples of this instance and fingerprint, 1 second to 10 minutes apart, and stays retained with the newer one. |
| `Gpm.ServesWhatIsMeasured` | internal/nvmlnative/mig_nvml.go:273-395 | With a retained sample of the same generation, 1 second to 10 minutes old, and a driver that answers: exactly the metrics with a success status and a finite value are served, percentages as ratios and MiB/s as bytes/s, and the fresh sample is retained with them. |
| `Gpm.ServesTheSameAgain` | internal/nvmlnative/mig_nvml.go:289-293 | Within a second of the retained sample nothing is asked of the driver and the last values are served again. |
| `Gpm.StopsExactlyWhenLost` | internal/nvmlnative/mig_nvml.go:295-395 | The pass stops if and only if one of the calls it makes answers with one of the five returns that say the library or GPU is gone; then nothing is served or retained and the library is down. |
| `Gpm.FreshStartServesNothing` | internal/nvmlnative/mig_nvml.go:278-306 | A first sight, a changed fingerprint or a sample more than ten minutes old serves nil and, if the driver gives a sample, reseeds with exactly that sample. |
| `Gpm.OthersUntouched` | internal/nvmlnative/mig_nvml.go:273-332 | Sampling one instance leaves every other retained sample alone unless the library is lost. |
| `Gpm.SampleFreedLate` | internal/nvmlnative/mig_nvml.go:316-323 | Exactly which sample is freed after a shutdown: the fresh one, when its diff met a lifecycle error and the teardown ran; no other. The failed diff is recorded either way. |
| `MigCycle.RunsConserve` | internal/nvmlnative/backend_nvml.go:449-467 | Over every run of cycles, closes and recoveries with every driver answer: allocations = frees + retained, frees are of distinct samples, and nothing is retained while uninitialized. |
| `MigCycle.LateFreesAreOfLostDiffs` | internal/nvmlnative/mig_nvml.go:308-323 | Over every run the samples freed while the library was down are exactly the fresh samples of diffs that failed with the library and whose teardown got the lock. |
| `MigCycle.CycleServesSound` | internal/nvmlnative/mig_nvml.go:117-157 | A whole cycle keeps the books, and each utilization it serves belongs to the instance it is served for. |
| `MigCycle.EveryServedUtilizationIsSound` | internal/nvmlnative/mig_nvml.go:273-395 | After any run: both samples behind a served utilization exist, share its instance key and fingerprint, lie 1 second to 10 minutes apart, and its values are exactly the metrics the driver measured between them. |
| `MigCycle.OnlyCompletePassesDropOrphans` | internal/nvmlnative/mig_nvml.go:407-418 | While the library stays up, only a complete pass with MIG on drops a retained sample of an instance it did not see. |
| `MigCycle.CompletePassesDropEveryOrphan` | internal/nvmlnative/backend_nvml.go:1497-1552 | After a complete pass with MIG on only instances it saw are retained. |
| `MigServed.WalkFindsTheDevices` | internal/nvmlnative/mig_nvml.go:169-265 | Enumeration stops exactly at a device whose getters say the library is gone; what it finds are the readable slots, in order, with the driver's uuid, ids, profile and all four memory figures. |
| `MigServed.ServedAreTheDevices` | internal/nvmlnative/backend_nvml.go:1497-1600 | Every instance a pass serves describes a device of the driver, and a pass that was not cut short serves every device it could read. |
| `MigServed.UtilizationIsServed` | internal/nvmlnative/mig_nvml.go:117-157 | On a GPU whose MIG pass goes on, every device of an instance with a usable sample pair is served with the metrics measured between the two samples. |
| `MigServed.CycleEndsEarly` | internal/nvmlnative/backend_nvml.go:288-427 | Without a library nothing happens; a table, process or version query that says it is gone leaves it down with nothing retained or served; any other failed table only ends the cycle. |
| `MigServed.CycleRunsThePass` | internal/nvmlnative/backend_nvml.go:288-427 | Otherwise the cycle serves the driver's devices, whatever the process query did. |
| `MigServed.BeforeMigStops` | internal/nvmlnative/backend_nvml.go:1557-1600 | The energy and PCIe reads stop the pass exactly when one says the library is gone or the context ends between the two PCIe samples. |
| `MigServed.FingerprintHolds` | internal/nvmlnative/mig_nvml.go:244-265 | A fingerprint holds the member of each device of its GPU instance and of no other. |
| `MigServed.MemberInjective` | internal/nvmlnative/mig_nvml.go:250-250 | Members tell devices apart by uuid, profile and compute instance. |
| `NvmlBackend.Backend.CollectCycle` | internal/nvmlnative/backend_nvml.go:288-427 | The imperative cycle, re-init included, changes the retained map, the counters and the library state exactly as the specification whose runs are proved sound; the generation grows by one exactly on a successful re-init. |
| `NvmlBackend.Backend.Close` | internal/nvmlnative/backend_nvml.go:181-206 | Close leaves the library uninitialized and every retained sample freed, whether or not the exclusive lock was won. |
| `NvmlBackend.Backend.TryRecover` | internal/nvmlnative/backend_nvml.go:511-533 | Recovery tears down what is up, then inits; the generation grows exactly with a successful init. |
| `NvmlBackend.Backend.ShutDown` | internal/nvmlnative/backend_nvml.go:449-467 | Retained samples are freed before the shutdown, and a skipped shutdown is counted as one. |
| `NvmlBackend.Backend.GpmUtilization` | internal/nvmlnative/mig_nvml.go:273-332 | The in-place map updates of one sampling, on each of its failure paths, are the specified ones. |
| `NvmlBackend.Backend.EnumerateMig` | internal/nvmlnative/mig_nvml.go:169-265 | Enumeration groups exactly the found members by GPU instance and ends with a teardown on a lifecycle error. |
| `NvmlBackend.Backend.CollectMigOf` | internal/nvmlnative/mig_nvml.go:71-157 | One device's MIG pass marks every enumerated instance seen before anything can stop it, a missing GPM export included. |
| `NvmlBackend.Backend.DropAllBut` | internal/nvmlnative/mig_nvml.go:407-418 | Exactly the samples of instances not in the set are freed and forgotten, whatever order the map is walked in. |
| `XidCounts.Accumulator.Bump` | internal/nvmlnative/xid_nvml.go:47-69 | One observed event adds one to its own pair and updates its last-seen time. |
| `XidCounts.Accumulator.Snapshot` | internal/nvmlnative/xid_nvml.go:72-98 | The snapshot has exactly one counter per observed pair, with its number of observations and the time of its last one, sorted by GPU and code. |
| `MigKeys.GiKeyInjective` | internal/nvmlnative/mig_nvml.go:159-162 | Two GPU instances share a retention key only if they are the same. |
| `Resolve.RemoveDuplicates` | internal/nvidiasmi/resolve.go:241-255 | The result is the first occurrence of each field, in order. |
| `Resolve.UniquesKeepOrder` | internal/nvidiasmi/resolve.go:228-255 | Of two fields the one first seen earlier comes first in the result. |
| `Resolve.FilterExcluded` | internal/nvidiasmi/exclude.go:42-79 | A field stays exactly if it is an identity field or no non-blank part of the list, trimmed, matches it; order stays. |
| `Resolve.QueryRFields` | internal/nvidiasmi/resolve.go:145-189 | A usable answer names the columns; otherwise the built-in names do, and it is an error exactly if one is unknown. |
| `Resolve.ResolveFields` | internal/nvidiasmi/resolve.go:52-127 | Every accepted list is duplicate-free, contains each identity field and has a returned name for exactly its fields; auto never fails; an explicit list fails exactly when neither the tool nor the built-in names cover it. |
| `Resolve.ResolveFromCatalog` | internal/nvidiasmi/resolve.go:262-300 | The same promise against the compiled-in catalog, with an error exactly for a kept field the catalog does not know. |
| `Names.OwnNamesDiffer` | internal/exporter/exporter.go:866-890 | No two of the exporter's own families share a name. |
| `Exporter.ReservedMetricNames` | internal/exporter/exporter.go:895-909 | Exactly the own families' and both backends' status names are reserved. |
| `Exporter.ClaimedOnce` | internal/exporter/exporter.go:917-984 | A field's name counts as claimed more than once exactly if another field derives it too. |
| `Exporter.BuildMetricInfos` | internal/exporter/exporter.go:917-984 | A descriptor is kept exactly for a field whose name is non-empty, not reserved and derived by no other field. |
| `Names.UnitsScale` | internal/exporter/exporter.go:60-78 | A column's unit decides its scale: W, seconds and W/s 1, MHz a million, MiB 2^20, percent 0.01, us and ms their parts of a second. |
| `Names.NoUnitNoScale` | internal/exporter/exporter.go:997-1047 | A column whose name does not end in a bracketed unit is exported unscaled. |
| `Names.DerivedNamesAreLegal` | internal/exporter/exporter.go:1015-1047 | Whatever a column is called, its derived name consists of letters, digits, underscores and colons. |
| `Names.LegalNamesStay` | internal/exporter/exporter.go:1015-1047 | A name of these characters stays as it is. |
| `Collector.BuiltInfosAreWellDescribed` | internal/exporter/exporter.go:911-984 | The kept descriptors have pairwise different names, none of them an own or status name. |
| `Collector.NamesDiffer` | internal/exporter/exporter.go:866-909 | Different families are exposed under different full names, status metric and query fields included. |
| `Collector.BackendStatusesAreOwn` | internal/exporter/exporter.go:901-906 | Both backends' status names differ from every own family's. |
| `Scrapes.ScrapeUnique` | internal/exporter/exporter.go:463-601 | Given distinct uuids, processes, devices and samples, no scrape repeats a family with the same labels. |
| `Collector.NoScrapeRepeatsASeries` | internal/exporter/exporter.go:463-601 | And no two metrics of a scrape have the same exposed name and the same labels, whatever the driver calls its columns. |
| `Collector.ParsedRowsHaveOwnFields` | internal/nvidiasmi/csv.go:75-106 | A table parsed for a duplicate-free list has no two cells of one field in a row. |
| `Collector.InstanceGoesOut` | internal/exporter/exporter.go:555-601 | All memory series and every taken activity of a GPU instance go out, together, with its first device; with uniqueness they are rendered exactly once. |
| `Collector.OnlySiblingsAreSkipped` | internal/exporter/exporter.go:555-601 | An instance's memory is skipped exactly when a device of the same GPU instance came before. |
| `Collector.CountsAddUp` | internal/exporter/exporter.go:645-684 | The per-GPU process counts add up to the processes. |
| `Render.RenderApps` | internal/exporter/exporter.go:645-728 | Every GPU gets a count, zero included, and each count is the number of its processes. |
| `Render.RenderMigs` | internal/exporter/exporter.go:540-601 | The loop with its set of emitted instances renders instance metrics with the first device of each. |
| `Render.RenderCells` | internal/exporter/exporter.go:777-845 | Each metric shows a cell with a descriptor whose value is a number, each such cell is shown, none twice, and never an absent token. |
| `Transform.AbsentIsNoNumber` | internal/nvidiasmi/computeapps.go:158-171 | A known absent value is never turned into a number, whatever its field and scale. |
| `Render.Collect` | internal/exporter/exporter.go:463-521 | What goes out is exactly what is due: health and every XID counter with its count and time whatever became of the collection, and with a table the rows, processes, counts, PCIe, energy and MIG series, each with the reading's own value; and no series of an identified reading goes out twice. |
| `Due.ScrapeIsDue` | internal/exporter/exporter.go:463-860 | A metric is in a scrape if and only if it is due, family by family. |
| `Scraping.ScrapeOnce` | internal/exporter/exporter.go:463-483 | From field list to metrics, whatever is configured, discovered, called or answered: exactly the due metrics go out; if no two GPUs, processes, samples or devices of the reading are the same, no two of them have the same name and labels; and derived names are legal where the prefix is. |
| `Csv.ParseCsvIntoTable` | internal/nvidiasmi/csv.go:25-72 | Parsing succeeds exactly if the header and every row have the requested width; the error names the first misfit and its width; otherwise all rows and columns are there. |
| `Csv.TableIsGrid` | internal/nvidiasmi/csv.go:25-106 | For a duplicate-free list the same cell is found by position, by field in its row, and by column. |
| `Csv.ByFieldLast` | internal/nvidiasmi/csv.go:75-106 | A row knows exactly the fields of its cells, each by its last cell. |
| `ComputeApps.UuidsNormalize` | internal/nvidiasmi/computeapps.go:152-156 | A uuid loses its GPU prefix and its capitals; a bare lower-case one is left as it is. |
| `ComputeApps.ParseComputeApps` | internal/nvidiasmi/computeapps.go:75-106 | An empty output is no processes, a wrong header an error with its width, otherwise exactly the usable rows, in order. |
| `ComputeApps.UnusableRowsAreHarmless` | internal/nvidiasmi/computeapps.go:92-106 | An unusable row anywhere changes no other process. |
| `ComputeApps.NameCommasSurvive` | internal/nvidiasmi/computeapps.go:109-150 | A row whose name has any number of commas gives back uuid, pid, name and memory. |
| `Projection.RecordedCommandNames` | internal/fakesmi/project.go:166-187 | A recorded query command names its fields: those behind the equals sign of its query, an empty one being an error. |
| `Projector.Fake.Project` | internal/fakesmi/project.go:26-67 | Either the section's first fault, with nothing drawn, or the whole answer; the draws made are exactly the answer's. |
| `Projector.Fake.TransformRows` | internal/fakesmi/project.go:71-102 | With simulated GPUs the recorded rows are unchanged after a block; every line is the transformed recorded row. |
| `Projector.Fake.ApplyOverrides` | internal/fakesmi/project.go:136-147 | In place and in column order every overridden cell becomes its constant or a value of its range for a draw of its own source, and no other cell changes. |
| `Projector.SplitDataRows` | internal/fakesmi/project.go:106-124 | Each data row becomes an array of its own, or the first bad row is the error. |
| `Agreement.RowOfAnswer` | internal/fakesmi/project.go:71-102 | Row r of GPU g is the recorded row r transformed for g: replicas never see each other's edits. |
| `Agreement.ContentIsSafe` | internal/fakesmi/project.go:106-217 | A section without a free-text column holds only cells without commas and line breaks. |
| `Agreement.RowStepSafe` | internal/fakesmi/project.go:71-102 | Identity, overrides and fluctuation keep every cell free of commas and line breaks. |
| `RoundTrip.ParsePrinted` | internal/nvidiasmi/csv.go:25-118 | For any grid CSV can carry, the parse of the printed grid is the trimmed grid if and only if the output neither starts nor ends in a blank line. |
| `RoundTrip.BlankEndsAreLost` | internal/nvidiasmi/csv.go:25-40 | Where an end is a blank line, rows are lost: the condition cannot be dropped. |
| `Agreement.AskAndParse` | internal/fakesmi/project.go:26-145 | Asking the fake and parsing its answer gives GPUs x recorded rows of trimmed transformed cells if and only if the answer neither starts nor ends in a blank line. |
| `Agreement.SeveralColumnsPrint` | internal/fakesmi/project.go:127-134 | A request for two or more columns always meets that condition. |
| `MultiGpu.RecordedNameSplits` | internal/fakesmi/project.go:195-217 | A recorded process row splits into its outer cells and the whole name, commas and all. |
| `MultiGpu.ProjectedAppReturns` | internal/fakesmi/project.go:127-134 | A projected process row is read back by the process parser, whatever its name. |
| `MultiGpu.NamesRoundTrip` | internal/fakesmi/project.go:195-217 | Recorded line to exporter process: same trimmed pid, name and memory and the normalized uuid, for any number of commas. |
| `Identity.BuildIdentities` | internal/fakesmi/gpus.go:154-187 | Accepted exactly if every identity is clean and all normalized uuids differ; the error names a clashing pair or an unclean entry. |
| `Identity.RewriteIdentity` | internal/fakesmi/gpus.go:207-231 | In place, exactly the recorded identity cells become the GPU's own; all others stay. |
| `Identity.StampIs` | internal/fakesmi/gpus.go:204-231 | Identity cells become the GPU's uuid, its serial if it has one, its index and the count. |
| `Identity.BusStampIs` | internal/fakesmi/gpus.go:224-230 | The bus becomes 0x and two hexadecimal digits of the index plus one, and both bus ids are rewritten to that bus. |
| `Identity.BusIdNamesItsBus` | internal/fakesmi/gpus.go:233-247 | A rewritten bus id names its bus as two hexadecimal digits in the middle and keeps the captured outer parts. |
| `Identity.BusIdsDiffer` | internal/fakesmi/gpus.go:237-246 | Two bus numbers never rewrite one captured id alike, not even after the parser's trimming. |
| `Overrides.LastEntryWins` | internal/fakesmi/config.go:213-256 | A field has a generator exactly if some entry names it, and it makes what the last such entry says: its value, or draws between its bounds in order. |
| `Overrides.FlagBeatsOwnBeatsTop` | internal/fakesmi/config.go:256-310 | In the map of an accepted simulated GPU a field gets the last flag's override, else the last of the GPU's own, else the last top-level one, else none. |
| `Overrides.RejectIdentityOverrides` | internal/fakesmi/gpus.go:251-267 | Rejected exactly if some layer names an identity field. |
| `Overrides.BuildOverrides` | internal/fakesmi/config.go:262-310 | One map per GPU, each field resolved flag over per-GPU over top-level; refused exactly for an unacceptable value or an identity field. |
| `Overrides.BuildSingle` | internal/fakesmi/config.go:280-283 | Without simulated GPUs one map, flags over the file, identity fields allowed. |
| `Overrides.IdentitiesAreSafe` | internal/fakesmi/gpus.go:248-267 | No accepted map of a simulated GPU names an identity field. |
| `Overrides.ServesWithin` | internal/fakesmi/config.go:181-203 | For every draw u a range serves the value u of the way between its bounds: a nearest whole number within them if both are whole, the value's shortest text otherwise. |
| `Overrides.RoundsAway` | internal/fakesmi/config.go:192-196 | A whole range rounds to a nearest whole number, from half way to the one farther from zero. |
| `Projection.OverridesShow` | internal/fakesmi/project.go:136-147 | After the overrides of a row every overridden column shows its constant or such a value, and every other column is as before. |
| `MultiGpu.FixedOverrideShows` | internal/fakesmi/project.go:71-145 | A fixed override is what the row shows, through fluctuation and memory reconciliation. |
| `MultiGpu.OverrideShows` | internal/fakesmi/project.go:71-145 | The same through fluctuation and memory reconciliation, constants and ranges alike. |
| `MultiGpu.IdentityShows` | internal/fakesmi/gpus.go:207-231 | An identity cell survives overrides and fluctuation. |
| `MultiGpu.UuidsAndIndexesAreDistinct` | internal/fakesmi/gpus.go:150-231 | Over one recorded row, GPU g shows index g and a normalized uuid no other GPU shows. |
| `MultiGpu.BusIdsAreDistinct` | internal/fakesmi/gpus.go:233-246 | Over one recorded row, GPU g shows a bus id no other GPU shows. |
| `Simulation.Configure` | internal/fakesmi/fakesmi.go:484-518 | Settings are accepted exactly if counts (1 to 255), identities and overrides are, with identities distinct as the exporter normalizes them and nothing served breaking the CSV; the flag's count beats the file's, and only listed GPUs without a flag have uuids, serials and overrides of their own. |
| `Simulation.TableHasOwnRows` | internal/fakesmi/gpus.go:150-267 | The parsed table of a multi-GPU answer has one row per GPU: indexes 0 to N-1, no two rows with the same normalized uuid or bus id. |
| `Simulation.AskSimulated` | internal/fakesmi/project.go:26-145 | For every accepted multi-GPU configuration asking and parsing succeeds with such a table, whatever was drawn and asked before. |
| `Simulation.Simulate` | internal/fakesmi/fakesmi.go:484-518 | The same end to end, from the settings to the table. |
| `Fluctuator.Fluctuator.Apply` | internal/fakesmi/fluctuate.go:64-83 | In place, moving numeric cells are jittered in column order from per-field sources and memory is reconciled; overridden fields keep their cells. |
| `Fluctuator.Fluctuator.ReconcileMemory` | internal/fakesmi/fluctuate.go:106-140 | The in-place reconciliation is the specified one, on readable and unreadable memory cells alike. |
| `Fluctuation.JitterStaysPlausible` | internal/fakesmi/fluctuate.go:85-98 | A jittered value is never negative, never above the value plus its spread, and a percentage at most 100 after rounding. |
| `Fluctuation.JitterIs` | internal/fakesmi/fluctuate.go:87-102 | A jitter moves a value in proportion to its draw by up to a tenth of it, at least by up to one, kept from going below zero or, for a percentage, above 100. |
| `Fluctuation.RewriteKeepsShape` | internal/fakesmi/fluctuate.go:181-214 | A rewritten cell parses again with the same decimals and suffix and the rounded new value. |
| `Decimals.Rounded` | internal/fakesmi/fluctuate.go:212-214 | A value is printed as a nearest number with as many decimals. |
| `Decimals.RoundIsNearest` | internal/fakesmi/fluctuate.go:212-214 | From half way between two the even one is printed. |
| `Fluctuation.JitteredCellsAreRead` | internal/nvidiasmi/transform.go:94-150 | A cell the fake can jitter is one the exporter's transform accepts, with the same value. |
| `Fluctuation.RewriteIsRead` | internal/nvidiasmi/transform.go:94-150 | The transform reads the rewritten cell as the rounded jittered value. |
| `Memory.OthersStay` | internal/fakesmi/fluctuate.go:64-98 | Cells that do not move, are overridden or carry no plain number keep their text. |
| `Memory.MovingMoves` | internal/fakesmi/fluctuate.go:64-98 | A moving number is rewritten once, by one fair draw of its own field's source around its captured value. |
| `Memory.UsedAndFreeAddUp` | internal/fakesmi/fluctuate.go:106-140 | used + free read back equals the capacity if and only if the cells' decimals can express the numbers. |
| `Memory.SharedShapeIsConsistent` | internal/fakesmi/fluctuate.go:106-140 | In one decimal shape: 0 <= used <= max(total - reserved, 0) and used + free is that capacity. |
| `Memory.CapacityStays` | internal/fakesmi/fluctuate.go:106-140 | Total and reserved still read the same after reconciliation. |
| `Memory.EveryCellJittered` | internal/fakesmi/fluctuate.go:64-98 | After the jitter every cell is the captured one or a rewrite of it by one fair draw. |
| `Memory.FluctuatedMemoryIsConsistent` | internal/fakesmi/fluctuate.go:64-140 | The same after a whole row's fluctuation, whatever was drawn. |
| `Memory.CapacityIs` | internal/fakesmi/fluctuate.go:119-125 | The capacity is total less reserved, never below zero. |
| `Memory.UsedIsCappedJitter` | internal/fakesmi/fluctuate.go:64-140 | After a whole row's fluctuation used reads as its jittered value in its own decimals, or as the capacity where that is less. |
| `Memory.MixedShapesDisagree` | internal/fakesmi/fluctuate.go:64-140 | A concrete row of mixed shapes whose used and free do not add up after the whole row's fluctuation. |
| `Transform.NumberWithUnit` | internal/nvidiasmi/transform.go:125-150 | A number with a digitless unit transforms to that number, scaled. |
| `Format.MibRoundsUp` | internal/nvmlnative/format.go:50-63 | A printed byte count comes back as the least multiple of 2^20 that is at least it. |
| `Format.ComputeModeReturns` | internal/nvmlnative/format.go:65-80 | Every compute mode, unknown ones included, comes back as its own number. |
| `Format.SpelledReturns` | internal/nvidiasmi/transform.go:94-123 | Each spelling a formatter prints for a word of the value table comes back as that word's value, unscaled. |
| `Format.SwitchReturns` | internal/nvmlnative/format.go:25-39 | Enabled and Yes come back as 1, Disabled and No as 0. |
| `Format.ActivityReturns` | internal/nvidiasmi/transform.go:105-123 | Active reads as 1 and Not Active as 0. |
| `Format.ShortActionReturns` | internal/nvidiasmi/transform.go:41-44 | Reset and Reboot read as the recovery actions 1 and 2. |
| `Format.NoFabricReturns` | internal/nvidiasmi/transform.go:47-49 | Not Supported reads as fabric state 0. |
| `Format.PrintedNumber` | internal/nvidiasmi/transform.go:125-150 | Any printed whole number with a unit comes back as itself, scaled. |
| `Format.RecoveryActionReturns` | internal/nvmlnative/format.go:138-156 | Actions 0 to 4 come back through the enum table; any other is an error, never a number. |
| `Format.FabricStateReturns` | internal/nvmlnative/format.go:123-136 | States 1 to 3 come back through the enum table; state 0 and unknown ones read as an expected absence. |
| `Format.MaskReturns` | internal/nvmlnative/backend_nvml.go:831-841 | A 16-digit 0x mask comes back unscaled as the float64 nearest to its 64-bit number, and as the number itself if and only if 53 significant bits hold it. |
| `Transform.FloatIsNearest` | internal/util/util.go:26-33 | The value a parsed mask becomes: no number of 53 bits is closer, and it is exact if and only if the integer is one. |
| `Transform.FloatIsEven` | internal/util/util.go:26-33 | The value is a number of 53 bits, and from half way between two the even one. |
| `Text.FieldsJoin` | internal/nvidiasmi/csv.go:108-117 | The cells of a row printed with ", " are the printed cells, trimmed. |
| `Demo.Backend.BeginCycle` | internal/demo/demo.go:282-303 | A failed reload changes nothing; a changed document hash resets the synthesized state, an unchanged one keeps all of it. |
| `DemoCycle.OneConfigurationPerCycle` | internal/demo/demo.go:124-164 | Over any run, each invocation and overlay of each cycle, finished or running, was answered by the snapshot the cycle was started with. |
| `DemoCycle.OnlyOverlaysAdvance` | internal/demo/demo.go:282-324 | While no cycle start installs a changed document, the synthesized state is the one the overlays make of it, all of them and nothing else. |
| `DemoCycle.StateSinceTheLastChange` | internal/demo/demo.go:207-303 | After a changed document and any later run without another, the synthesized state is what the overlays since then make of a fresh one: whatever came before is forgotten. |
| `DemoCycle.BeginOn` | internal/demo/demo.go:282-303 | The backend object takes the state machine's step at the start of a cycle, its synthesized state included. |
| `DemoCycle.OverlayOn` | internal/demo/demo.go:305-324 | The backend object takes the machine's step in its overlay, with the samples of the cycle's own table and the private power query; every process gets its compute instance. |
| `DemoCycle.TakeOverlay` | internal/demo/demo.go:305-324 | What the in-place overlay reads, leaves and serves is the overlay of the current snapshot, all parts together, processes included. |
| `DemoCycle.ProcessesNameServedDevices` | internal/demo/synth.go:306-343 | In any cycle a process of a GPU with MIG devices names one of the devices the same cycle serves for that GPU; any other process names none and stays as it was. |
| `Attribution.AttributeApps` | internal/demo/synth.go:311-343 | The flattened map and the in-place loop give each process the pick of its pid among the compute instances of its own GPU. |
| `Attribution.AttributionIsStable` | internal/demo/synth.go:306-351 | A process keeps its instance as long as its own GPU's entries stay, whatever happens to the other processes, the other GPUs, their entries and every order. |
| `DemoTable.TableIdentity` | internal/demo/demo.go:376-399 | The served uuids in row order, and each GPU's power draw where its cell is a number. |
| `DemoTable.PowerIsTheLastShown` | internal/demo/demo.go:376-399 | A GPU's draw is the number in the power cell of its last row that has one. |
| `DemoTable.PrivatePower` | internal/demo/demo.go:326-374 | The loop asks only when a served GPU has no draw, and adds the draws the answer's lines tell. |
| `DemoTable.FillingAdds` | internal/demo/demo.go:326-374 | The table's own draws are never overridden, and whatever is added is told by a line of the private query. |
| `DemoTable.LeavingPowerOutChangesNothing` | internal/demo/demo.go:326-331 | With or without the power field in the query a cycle's samples are the same, where the private query answers with the same cells. |
| `DemoTable.ReadRowsArePlain` | internal/nvidiasmi/csv.go:63-117 | Every row read from an output with both fields meets what the previous theorem asks of rows. |
| `DemoCycle.EnergyOverRuns` | internal/demo/synth.go:36-86 | In any run of the machine, reloads, failures and outside calls included, the meters are those of the cycles sampled since the last change of the document. |
| `DemoCycle.XidsOverRuns` | internal/demo/synth.go:205-233 | In any run the XID emitter is that of the ticks since the last change of the document, each starting where its cycle's other draws left the random source. |
| `DemoCycle.UtilizationOverRuns` | internal/demo/synth.go:99-149 | In any run a device is served with a utilization exactly when the overlay before, since the last change of the document, had its GPU instance too. |
| `Demo.Backend.Overlay` | internal/demo/demo.go:305-324 | A cycle's energy, PCIe samples, MIG devices, process attribution and XIDs are all made from the current snapshot, and each part starts in the random source exactly where the part before stopped. |
| `Demo.Backend.SynthPcie` | internal/demo/synth.go:89-97 | The in-place loop samples every served GPU in order, two draws each. |
| `Synth.ThroughputsAreInRange` | internal/demo/synth.go:88-97 | Each sample is of its own GPU, within the configured ranges and in proportion to its two draws. |
| `Demo.DevicesMirrorTheTopology` | internal/demo/synth.go:99-203 | The devices are exactly the topology's compute instances, in its order, named after their place, with a utilization exactly if their GPU instance was seen before, consistent memory, and the same memory and utilization as their siblings. |
| `Demo.DevicesReadAsConfigured` | internal/demo/synth.go:106-203 | Every served device's memory and activity lie in the ranges of its own partition, busy or idle, whatever was drawn. |
| `Demo.DrawsAreCounted` | internal/demo/synth.go:106-203 | Every draw of the MIG part is accounted for: one for each instance and six for each one whose activity is served. |
| `DemoCycle.ConfiguredIsServed` | internal/demo/synth.go:106-149 | Every compute instance configured for a served GPU is among the devices of the cycle. |
| `DemoCycle.ServedIsConfigured` | internal/demo/synth.go:106-149 | Every device of a cycle is a configured compute instance of a served GPU. |
| `Demo.Backend.SynthMig` | internal/demo/synth.go:106-149 | The in-place pass serves the specified devices and afterwards remembers exactly the cycle's instances. |
| `Synth.UtilizationIsPlausible` | internal/demo/synth.go:172-203 | A busy instance reads 0.7 to 1 (tensor 0.35 to 0.8) and a fifth to three fifths of the configured rates, any other one at most 0.05 (0.04) and a fiftieth. |
| `Synth.ActivityIsDrawn` | internal/demo/synth.go:172-203 | Each of the first three readings is in proportion to a draw of its own. |
| `Demo.Backend.SynthEnergy` | internal/demo/synth.go:43-86 | In place: one counter per served GPU, in order, each the mean of the two draws over the elapsed time more than before, or zero for a GPU that just entered; meters of GPUs that left are deleted. |
| `Synth.EachIntervalIsATrapezoid` | internal/demo/synth.go:58-79 | Over any run and two consecutive cycles serving a GPU: 2 * 10^9 times the joules gained is the sum of the two draws times the nanoseconds between, and nothing is gained when the clock does not advance. |
| `Synth.EnergyOfAStay` | internal/demo/synth.go:43-86 | Over a whole stay at a power between two bounds the joules lie between the two bounds times the elapsed seconds. |
| `Synth.EnergyOfASteadyStay` | internal/demo/synth.go:43-86 | Over a whole stay at constant power the joules are that power times the elapsed seconds. |
| `Synth.EnergyIsTheTrapezoidSum` | internal/demo/synth.go:36-86 | Over any cycles with distinct uuids exactly the served GPUs are retained, and joules are the sum of those gains since a GPU last entered. |
| `Synth.EnergyNeverRunsBack` | internal/demo/synth.go:36-86 | With no negative power the joules never decrease while a GPU stays served. |
| `Synth.CountersShowTheMeters` | internal/demo/synth.go:43-86 | The counters a cycle serves are the meters it leaves. |
| `Synth.MemoryOf` | internal/demo/synth.go:151-170 | Used, free and reserved make up the total and never underflow; a 200th is reserved. |
| `Synth.UsedIs` | internal/demo/synth.go:151-170 | A busy instance uses 55 to 90 percent of the rest, any other one 2 to 10 percent, in proportion to one draw. |
| `Synth.ValidatedKeysAreOwn` | internal/demo/synth.go:106-149 | In a validated topology over distinct GPUs no instance is visited twice. |
| `Demo.Backend.TickXids` | internal/demo/synth.go:205-233 | The in-place tick, its catch-up loop included, is the specified tick. |
| `XidSchedule.TicksAreBounded` | internal/demo/synth.go:205-233 | With a positive interval and a GPU: at most 10 ongoing events, all before now and in order, and the next slot not before now. |
| `XidSchedule.TickEmitsTheDueSlots` | internal/demo/synth.go:205-233 | Slot by slot: one event for each due slot from the schedule's own on, at most ten, each 50 to 150 percent of the interval behind the one before, for a GPU and a code drawn anew; nothing while the next slot lies ahead, and a longer pause is forgiven. |
| `XidSchedule.HistoryIs` | internal/demo/synth.go:235-251 | The history's events are its entries for served GPUs with a count, in order. |
| `XidSchedule.OneBump` | internal/demo/synth.go:258-274 | An event adds its count to its own pair and sets its time, and touches no other pair. |
| `XidSchedule.CountsMatchEmissions` | internal/demo/synth.go:207-274 | Between resets each pair's count is exactly what was emitted or seeded for it. |
| `XidSchedule.HistoryAppliesOnce` | internal/demo/synth.go:235-251 | The configured history is applied on the first tick after a reset and never again. |
| `XidSchedule.NothingMovesBack` | internal/demo/synth.go:207-274 | Under a clock that does not run back the schedule and every last-seen time only move forward. |

## Left out

* Flag parsing, HTTP serving, the Windows service, logging and warn-once bookkeeping.
* Running nvidia-smi, its timeouts, version and help scraping: a run is any outcome.
* The getters of `collectDevice`, field-value decoding, ECC, fabric and platform reads, symbol probing: a driver call is
  any status. `nvmlInit` reference counting below the API is not modelled.
* YAML, the capture file parser and embedded captures: sections and configurations are given values. Discovery of the
  field list from help output is a given list, and `auto` falls back as the code does.
* Regular expressions, globs and Unicode: matching and snake-casing are parameters; lower-casing is ASCII; text is valid.
* Floating point: apart from hexadecimal masks numbers are exact decimals and reals, so rounding and overflow of float64
  are not modelled; counters are unbounded, so a 64-bit wrap is not either.
* SHA-256 uuids and the random generators: any function of the index, any draws in range.
* `RunXIDWatcher`'s back-off and sleeping: the watcher may retry at any moment. A pending writer does not hold back new
  readers in `Lifecycle`, so it has more interleavings than Go's RWMutex.
- Collect.CollectOnce: tables, processes and extras are opaque, since the source only carries them.
- Gpm.FreshStartServesNothing: a fingerprint is the multiset of an instance's member descriptions where the code joins
  them, sorted, to one string.
- MigServed.BeforeMigStops: the values of the energy and PCIe reads are not carried, only what their statuses do.
- DemoCycle.XidsOverRuns: documents of one hash are taken to have the same XID settings, since SHA-256 is a given hash.
- DemoTable.LeavingPowerOutChangesNothing: the private query's own draws from a fluctuating capture are not modelled; its
  answer is a parameter.
- Render.Collect: failures of the metrics library to build a constant metric, which cannot occur for described metrics,
  are left out.
- Format.SpelledReturns: the formatters for milliwatts, driver model, operation and addressing modes and the CUDA version
  are left out; they add one-branch members of the same kind.
- Lifecycle.NoUseAfterShutdown: the one free that can come late, of the fresh sample, is stated by LocalFreeAfterShutdown.
- MultiGpu.UuidsAndIndexesAreDistinct: stated for a capture of one card, as the source promises it.
