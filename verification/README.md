# Lapcare: verification model

Lapcare is a desktop app for ThinkPads: pages that gather hardware data
through providers, a scheduler that runs the gathering off the main thread, a
diagnostics engine with a health score, and a few codecs and files that other
programs must agree with. This project models that logic in Dafny and proves
what it promises. Verify it with `dafny verify dfyconfig.toml`.

## What is modelled

**Scheduling.** `Scheduling` states what a view-model is promised of the
scheduler (exactly one callback per submission, on the GTK main thread) and
gives the thread-based scheduler as a transition system of nine atomic steps on
two threads and the GLib idle queue. It keeps the race between the loop thread
finishing a coroutine and the main thread attaching the done callback.
`SchedulerRuns` proves the promise over whole runs. `ThreadScheduler` is the
same machine as an object whose validity is the invariant. `NativeScheduler` shows that the GLib-native
scheduler is a special case, and when its `stop()` restores the asyncio policy.

**Firmware page.** `FirmwarePage` has the handlers, once as functions of the
page and once as a class with the view-model's fields. `FirmwareSystem` puts the
page over any scheduler that keeps the promise: callbacks in any order, signals
and progress at any time. `FirmwareFreshness` composes it with the thread
scheduler and with devices that change under it.

**History and battery page.** `WearHistory` is the keyed table and its query,
`IsoDates` the reason its text order is chronological, `BatteryPage` the
debounce and the record-then-read loop, `BatteryAnalysis` wear and its classes.

**Diagnostics.** `Checks` has the five checks, with the loops the source has,
`Score` the mean with Python's rounding, `DiagnosticsRun` the orchestrator,
`DiagnosticsVerdicts` what a run reports in the terms of its sources' answers.
`DiagnosticsPage` is the view-model; `DiagnosticsExport` lets the export
coroutine read its fields in separate steps on the loop thread.

**SMART chain.** `SmartJson` reads a smartctl document of any shape,
`HelperChannel` is the helper's error line against the parser of it,
`SmartHelper` the chain from smartctl over helper, pkexec and tool runner to the
provider's answer, `DeclinedStorage` its last link to the skip code and the verdict,
`StoragePage` the page on top. `Text` has Python's `splitlines`, `strip` and
`split`.

**HTML, mounts, report file.** `Html` writes trees and reads them back,
`HtmlReport` is the renderer, `HtmlReportReading` what a reader finds.
`MountTable` and `MountRoundTrip` are the mount table; `ReportWriter` the
temp-file-then-rename writer with a failure at any step.

`Common` and `Pages` hold shared datatypes. Names in `PascalCase` that start
with `On` are handlers; `View()` is the value a class stands for.

## Where code and comments disagree

The model follows the code.

- firmware/view_model.py:105-106 says the post-install reload covers signals
  dropped during an install. Lines 242-246 and 254 do not reload.
  `FirmwareSystem.ChangeIsLostExactly` says exactly in which runs a notice is
  lost, `DeclinedInstallLosesChange` gives one.
- scheduler.py:133 says `_dispatch` runs on the loop thread. `add_done_callback`
  runs it on the main thread when the coroutine finished first; the model has
  both, and the guarantees hold with both.
- scheduler.py:54-63: `stop()` restores the policy that the latest `start()`
  found. After two starts that is the scheduler's own
  (`NativeScheduler.StopRestoresPolicy`).
- disk_usage.py:10-15 says a mount whose statvfs fails is skipped. It also hides
  later mounts of the same device (`MountRoundTrip.StaleMountHidesDevice`).
  Line 35 holds for ASCII mount points only (`MountTable.DecodesExactlyAscii`).
- report.py:27 cleans up after `OSError` only; a text that cannot be encoded
  leaves the temporary file (`ReportWriter.HowTheDiskIsLeft`).
- subprocess.py:91 can cut the helper's line between the code and the space
  after its colon, and then another code is read (`HelperChannel.CodeIsRead`).

## Model

| member | source | states |
|---|---|---|
| Scheduling.AllowedKeepsAccounts | src/lapcare/core/ports.py:43-49 | every step the port allows keeps the books: each job called back or still owed was submitted, and is counted once |
| Scheduling.AtMostOneCallback | src/lapcare/core/ports.py:46-47 | no job is called back twice, and none that was called back still owes a callback |
| Scheduling.StepKeepsGood | src/lapcare/platform/scheduler.py:103-144 | every step of main thread, loop thread and idle queue keeps the invariant: each submitted job is in exactly one stage, and jobs that never suspend stay in submission order |
| Scheduling.ThreadRefinesContract | src/lapcare/platform/scheduler.py:103-144 | each step of the thread scheduler is a step the port allows, with the same effect on what is owed; only main-thread steps submit or call back |
| Scheduling.HeldIsLast | src/lapcare/platform/scheduler.py:130-144 | a job the loop finished before its done callback was attached is the last prompt one in the loop, so dispatching it late overtakes nothing |
| Scheduling.FinishLine | src/lapcare/platform/scheduler.py:132-144 | finishing a coroutine keeps the callback order of those that never suspend, whichever thread dispatches it |
| SchedulerRuns.RunKeepsGood | src/lapcare/platform/scheduler.py:86-144 | the invariant holds after every run |
| SchedulerRuns.AtMostOnceInEveryRun | src/lapcare/platform/scheduler.py:103-144 | in every interleaving no job gets two callbacks, each callback belongs to a submitted job, and prompt jobs are called back in submission order |
| SchedulerRuns.WorkFalls | src/lapcare/platform/scheduler.py:103-144 | a measure falls on every step but start, stop and a submission, and a submission adds exactly its own work |
| SchedulerRuns.NeverStuck | src/lapcare/platform/scheduler.py:103-144 | while work is left, a step other than start, stop and submit can be taken |
| SchedulerRuns.DrainedIsExactlyOnce | src/lapcare/platform/scheduler.py:122-144 | in a reachable state with nothing left and nothing abandoned, every submitted job got exactly one callback |
| SchedulerRuns.ExactlyOnceInEveryRun | src/lapcare/core/ports.py:46-47 | in every run without a stop(), once nothing is left each submission got exactly one callback |
| SchedulerRuns.RunsAreBounded | src/lapcare/platform/scheduler.py:122-144 | the steps of a run beyond its submissions are bounded by what it submitted |
| SchedulerRuns.CanAlwaysDrain | src/lapcare/platform/scheduler.py:122-144 | every reachable state can be driven to the point where all callbacks have run, abandoning nothing |
| SchedulerRuns.OutcomesComeFromFinish | src/lapcare/platform/scheduler.py:134-144 | in every run a callback carries the outcome its own coroutine ended with, success or error |
| ThreadScheduler.ThreadLoopScheduler.constructor | src/lapcare/platform/scheduler.py:89-92 | a new scheduler is the empty pipeline, not running |
| ThreadScheduler.ThreadLoopScheduler.Start | src/lapcare/platform/scheduler.py:94-101 | start() makes it run; a second start() changes nothing |
| ThreadScheduler.ThreadLoopScheduler.Stop | src/lapcare/platform/scheduler.py:113-120 | stop() abandons what the loop had not finished and keeps the idle sources |
| ThreadScheduler.ThreadLoopScheduler.Submit | src/lapcare/platform/scheduler.py:128-130 | submit() is refused before start(), else posts the coroutine to the loop thread |
| ThreadScheduler.ThreadLoopScheduler.AddDoneCallback | src/lapcare/platform/scheduler.py:144 | attaching the done callback dispatches at once when the future is already done |
| ThreadScheduler.ThreadLoopScheduler.Deliver | src/lapcare/platform/scheduler.py:134-142 | the main loop runs the oldest idle source: one callback, taken off the queue |
| ThreadScheduler.ThreadLoopScheduler.CreateTask | src/lapcare/platform/scheduler.py:130 | the loop thread turns the oldest posted coroutine into a task |
| ThreadScheduler.ThreadLoopScheduler.StepTask | src/lapcare/platform/scheduler.py:103-109 | the loop steps its first ready task: it suspends, or ends and is dispatched, or held while its callback is not attached |
| ThreadScheduler.ThreadLoopScheduler.Wake | src/lapcare/platform/scheduler.py:103-109 | a task whose await is done becomes ready, the others keep their places |
| ThreadScheduler.CallsOfAnObject | src/lapcare/core/ports.py:46-47 | a valid scheduler object, which every method keeps valid, has called no job back twice, only submitted ones, prompt ones in order |
| ThreadScheduler.DrainedObject | src/lapcare/core/ports.py:46-47 | a valid object with empty queues that abandoned nothing has called back every submission exactly once |
| NativeScheduler.NativeActsAsThread | src/lapcare/platform/scheduler.py:65-83 | each action of the native scheduler is a run of the thread scheduler on the same jobs |
| NativeScheduler.NativeCallsBackOnce | src/lapcare/platform/scheduler.py:65-83 | in every run: at most one callback per job, prompt jobs in order, and exactly one once nothing is ready, waiting or done |
| NativeScheduler.GLibEventLoopScheduler.Start | src/lapcare/platform/scheduler.py:45-52 | start() records the current policy and installs its own |
| NativeScheduler.GLibEventLoopScheduler.Stop | src/lapcare/platform/scheduler.py:54-63 | stop() puts the recorded policy back, once |
| NativeScheduler.StopRestoresPolicy | src/lapcare/platform/scheduler.py:45-63 | stop() leaves the process with its own policy if and only if start() was never called twice in a row |
| FirmwarePage.GatherDevices | src/lapcare/ui/pages/firmware/view_model.py:119-133 | the loop equals the row-by-row function: a listing error is raised, a device query that raises a LapcareError degrades its row, any other error is raised |
| FirmwarePage.OneDeviceDegradesAlone | src/lapcare/ui/pages/firmware/view_model.py:125-132 | changing how one device answers changes that device's row and no other |
| FirmwarePage.GatherFailsExactly | src/lapcare/ui/pages/firmware/view_model.py:119-133 | a gathering fails as a whole exactly when the query of an updatable device raises something that is no LapcareError |
| FirmwarePage.GatheringIsShown | src/lapcare/ui/pages/firmware/view_model.py:135-170 | one card per device, in order, with title, subtitle, version and, when its query answered, exactly the releases it offers, else marked as degraded; the banner names exactly the devices that need a reboot or wait for one |
| FirmwarePage.FirmwareViewModel.Load | src/lapcare/ui/pages/firmware/view_model.py:88-90 | load() shows loading and submits a gather |
| FirmwarePage.FirmwareViewModel.LoadFailed | src/lapcare/ui/pages/firmware/view_model.py:92-95 | a failed load leads to the page state of its error |
| FirmwarePage.FirmwareViewModel.Changed | src/lapcare/ui/pages/firmware/view_model.py:104-117 | a change sets one timer, unless one is pending or an install runs |
| FirmwarePage.FirmwareViewModel.ReloadTimer | src/lapcare/ui/pages/firmware/view_model.py:111-115 | the timer clears the flag and reloads, unless an install runs |
| FirmwarePage.FirmwareViewModel.Apply | src/lapcare/ui/pages/firmware/view_model.py:135-170 | the loop builds the cards and the reboot titles of the gathered rows; an empty list makes the page unavailable and leaves them |
| FirmwarePage.FirmwareViewModel.RefreshMetadata | src/lapcare/ui/pages/firmware/view_model.py:174-180 | a refresh is submitted only when nothing is under way |
| FirmwarePage.FirmwareViewModel.RefreshDone | src/lapcare/ui/pages/firmware/view_model.py:182-185 | a finished refresh frees the page and reloads |
| FirmwarePage.FirmwareViewModel.RefreshHasFailed | src/lapcare/ui/pages/firmware/view_model.py:187-191 | a failed refresh frees the page and leaves its state |
| FirmwarePage.FirmwareViewModel.RequestInstall | src/lapcare/ui/pages/firmware/view_model.py:195-218 | an install is submitted only when nothing is under way and the battery check passes; else the banner says why |
| FirmwarePage.ClickInstalls | src/lapcare/core/firmware_policy.py:16-28 | a click on an idle page submits the install if and only if not both level and threshold are known with the level at most 100 and below the threshold; a blocked click changes only the banner, to both numbers; a busy page ignores the click |
| FirmwarePage.FirmwareViewModel.Progress | src/lapcare/ui/pages/firmware/view_model.py:220-226 | progress changes the busy text during an install only, and never empties it |
| FirmwarePage.ProgressIsTold | src/lapcare/ui/pages/firmware/view_model.py:220-226 | progress changes the busy text alone: the status in its own letters, first upper and the others lower case, then the percentage in digits that read back |
| FirmwarePage.FirmwareViewModel.InstallDone | src/lapcare/ui/pages/firmware/view_model.py:228-237 | a finished install frees the page, shows the result and reloads |
| FirmwarePage.FirmwareViewModel.InstallHasFailed | src/lapcare/ui/pages/firmware/view_model.py:239-254 | three branches: declined and unclassified errors do not reload, a failed install does |
| FirmwarePage.EndingsAreTold | src/lapcare/ui/pages/firmware/view_model.py:187-254 | a refusal and a failed refresh only toast, a failed install raises the banner with its detail and reloads, and only other errors change the page state: to unavailable exactly for an unavailable provider |
| FirmwareSystem.StepKeepsInv | src/lapcare/ui/pages/firmware/view_model.py:104-254 | every handler, callback and signal keeps the page's invariant |
| FirmwareSystem.NeverTwoInFlight | src/lapcare/ui/pages/firmware/view_model.py:104-254 | in every run: busy exactly while one refresh or install owes its callback, installing exactly while that one is an install, at most one reload timer, ready only with cards |
| FirmwareSystem.EndsTheFlight | src/lapcare/ui/pages/firmware/view_model.py:182-254 | only the refresh or install under way can call back |
| FirmwareSystem.InstallsPassedTheBatteryCheck | src/lapcare/ui/pages/firmware/view_model.py:195-218 | in every run, every install submitted goes back to a click that found the page idle, and the battery level unknown (above 100), the threshold unset, or the level not below the threshold |
| FirmwareSystem.UncoveredExactlyByLoss | src/lapcare/ui/pages/firmware/view_model.py:104-117 | a change notice becomes one nobody will act on exactly at an install that ends declined or unclassified while it waits with no timer set |
| FirmwareSystem.ChangeIsLostExactly | src/lapcare/ui/pages/firmware/view_model.py:104-117 | over every run a change notice ends up with nobody to act on it if and only if an install ended declined or unclassified while it waited and no later step reloads, sets a timer or starts an install |
| FirmwareSystem.NoChangeLost | src/lapcare/ui/pages/firmware/view_model.py:104-117 | in every run without such an ending no change notice is lost |
| FirmwareSystem.DeclinedInstallLosesChange | src/lapcare/ui/pages/firmware/view_model.py:242-246 | the exception is real: a change signalled during an install that is then declined is never reloaded |
| FirmwareFreshness.StepKeepsSteady | src/lapcare/ui/pages/firmware/view_model.py:104-170 | page, thread scheduler and changing devices together: every step keeps page jobs equal to scheduler jobs, gathers in order, and every change on its way to a read |
| FirmwareFreshness.DrainedPageIsFresh | src/lapcare/ui/pages/firmware/view_model.py:119-170 | once all has drained, unless an install swallowed a change or live updates were off, the last gather read the devices as they are now, and cards and reboot banner are both its own if it found devices |
| FirmwareFreshness.ItComesToRest | src/lapcare/providers/fwupd.py:223-239 | left to itself every move lowers a rank, so the page does drain |
| FirmwareFreshness.RestIsDrained | src/lapcare/platform/scheduler.py:122-144 | rank zero is exactly drained, and before that some move is possible |
| FirmwareFreshness.LastReadIsShown | src/lapcare/ui/pages/firmware/view_model.py:135-170 | what the page shows is the last delivered gather that found devices |
| IsoDates.IsoOrderIsCalendarOrder | src/lapcare/core/battery_analysis.py:52-62 | for all dates of years 1-9999 text order of the stored days is calendar order (full-date, section 5.6 of RFC 3339) |
| IsoDates.IsoReadsBack | src/lapcare/core/battery_analysis.py:56 | year, month and day read back from their places in the ten characters of the stored day |
| IsoDates.PaddedOrder | src/lapcare/core/battery_analysis.py:56 | zero-padded numbers of one width compare as texts as they do as numbers |
| WearHistory.RecordUpdatesOneEntry | src/lapcare/platform/history.py:54-66 | recording changes one (day, battery) entry of the table and no other, and once is enough |
| WearHistory.SqliteHistoryStore.RecordWear | src/lapcare/platform/history.py:54-67 | the row of that key is replaced in place; keys stay unique |
| WearHistory.SqliteHistoryStore.History | src/lapcare/platform/history.py:69-78 | returns the newest `limit` entries of the battery, ascending by day |
| WearHistory.QueryIsNewestOfListing | src/lapcare/platform/history.py:69-78 | descending, limit, reverse equals the end of the ascending listing, for every limit, negative ones included |
| WearHistory.ListingIsUnique | src/lapcare/platform/history.py:71-78 | there is only one ascending listing of a battery's entries, so the query is determined |
| WearHistory.HistoryRefinesMap | src/lapcare/platform/history.py:54-78 | after any sequence of records the query is the newest days of the map of latest snapshots |
| BatteryAnalysis.ClassesByCapacity | src/lapcare/core/battery_analysis.py:34-49 | Good is capacity above 85% of design, Poor at 70% or less, in the capacities themselves |
| BatteryAnalysis.WearByCapacity | src/lapcare/core/battery_analysis.py:34-39 | wear times the design capacity is 100 times what is lost of it, and 0 when nothing is |
| BatteryPage.NoStatusChangeLost | src/lapcare/ui/pages/battery/view_model.py:121-131 | in every run a status change that no gather followed has exactly one timer pending, without exception |
| BatteryPage.BatteryViewModel.Load | src/lapcare/ui/pages/battery/view_model.py:110-112 | load() submits a gather and leaves the debounce alone |
| BatteryPage.BatteryViewModel.StatusChanged | src/lapcare/ui/pages/battery/view_model.py:121-131 | a status change sets one timer unless one is pending |
| BatteryPage.BatteryViewModel.ReloadTimer | src/lapcare/ui/pages/battery/view_model.py:126-129 | the timer clears the flag and reloads |
| BatteryPage.BatteryViewModel.ReadPoints | src/lapcare/ui/pages/battery/view_model.py:149-153 | the chart points are the history days with known wear, in order |
| BatteryPage.BatteryViewModel.Gather | src/lapcare/ui/pages/battery/view_model.py:146-154 | each battery is recorded, then its history read: the store and every chart after the loop |
| BatteryPage.ChartEndsToday | src/lapcare/ui/pages/battery/view_model.py:146-153 | a chart ascends strictly by day and, when no later day is on record, ends with the wear just recorded |
| BatteryPage.GatherRecords | src/lapcare/ui/pages/battery/view_model.py:146-153 | after a gathering the table holds, for the last battery of each name, a row of the day with its own cycles, capacities and wear, and every row of another day or of a battery not read, and nothing else |
| BatteryPage.ChartsEndToday | src/lapcare/ui/pages/battery/view_model.py:146-154 | the map a gathering returns has one chart per name, of at most 365 points ascending by day, and when no later day was on record it ends today with 100 (design - full) / design, whenever the capacities tell it |
| Checks.CheckBatteryWear | src/lapcare/core/diagnostics.py:73-97 | the loop equals the verdict on the worst known wear |
| Checks.BatteryVerdict | src/lapcare/core/diagnostics.py:73-97 | in the capacities: critical when a battery is at 70% of design or less, a warning at 85% or less, skipped when none is readable; the evidence is the greatest wear and the number of batteries |
| Checks.BatteryOrderFree | src/lapcare/core/diagnostics.py:78-82 | the order of the batteries does not matter |
| Checks.BatteryNeverImproves | src/lapcare/core/diagnostics.py:78-97 | another battery never improves the verdict |
| Checks.CheckStorageHealth | src/lapcare/core/diagnostics.py:100-130 | the loop equals worst drive verdict, confidence and evidence |
| Checks.StorageStep | src/lapcare/core/diagnostics.py:108-123 | one round of the loop, branch by branch: what a drive does to status, confidence and evidence |
| Checks.StorageVerdict | src/lapcare/core/diagnostics.py:100-130 | in the report fields: critical when a drive says passed is false, a warning for a non-zero pending count or 80% of the endurance used; medium confidence exactly when a drive gives no verdict; the evidence names exactly the failing drives and the first drive to warn, pending sectors before endurance, and ends with the number of drives |
| Checks.StorageOrderFree | src/lapcare/core/diagnostics.py:108-130 | status and confidence ignore the order of the drives |
| Checks.StorageNeverImproves | src/lapcare/core/diagnostics.py:108-130 | another drive never improves the verdict |
| Checks.EvidenceAgrees | src/lapcare/core/diagnostics.py:105-124 | evidence names exactly the failing drives, holds at most one warning, has one whenever the verdict is a warning, and is empty exactly for a clean verdict |
| Checks.FirmwareVerdict | src/lapcare/core/diagnostics.py:133-148 | no release is OK without evidence, any release is a warning that counts them, and one of critical urgency makes it critical |
| Checks.ThermalVerdict | src/lapcare/core/diagnostics.py:151-173 | in degrees: critical at 95 or more, a warning at 85 or more, among readings strictly between 1 and 119, skipped without one; the evidence is the first of the hottest, its sensor or else its chip, and how many readings count |
| Checks.CheckDiskSpace | src/lapcare/core/diagnostics.py:176-205 | the loop's own status equals the status of the minimum it tracks beside it, with its evidence |
| Checks.DiskVerdict | src/lapcare/core/diagnostics.py:181-205 | in free and total bytes: critical when 100 free < 5 total somewhere, a warning when 100 free < 10 total, skipped when no filesystem has a size; the evidence names each critical mount, the first low one when none before it was low, and ends with the first of the fullest and its exact percentage |
| Checks.DiskOrderFree | src/lapcare/core/diagnostics.py:184-198 | the order of the filesystems does not matter |
| Checks.DiskNeverImproves | src/lapcare/core/diagnostics.py:184-198 | another filesystem never improves the verdict |
| Checks.CriticalMountsNamed | src/lapcare/core/diagnostics.py:190-192 | every mount below five percent free is named, and no other |
| Score.RoundIsNear | src/lapcare/core/diagnostics.py:214 | the rounded value lies within 1/2 of the exact quotient and is even when it lies exactly 1/2 away |
| Score.RoundIsHalfEven | src/lapcare/core/diagnostics.py:214 | nearness with evenness at a tie determines the rounded value: it is the only integer with both |
| Score.ScoreIsNearMean | src/lapcare/core/diagnostics.py:208-215 | the score lies in 0-100, within 1/2 of the exact mean, and is even when the mean lies halfway |
| Score.ScoreIsRoundedMean | src/lapcare/core/diagnostics.py:208-215 | from the counts of OK, WARNING and CRITICAL alone: no score without one of them, and otherwise v is the score if and only if it is nearest to the mean of 100, 50 and 0 points, and even at a tie |
| Score.HalfwayGoesToEven | src/lapcare/core/diagnostics.py:214 | one OK and three WARNING, mean 62.5, score 62 |
| Score.ScoreOrderFree | src/lapcare/core/diagnostics.py:210-215 | permuting the checks or adding skipped ones changes nothing |
| Score.ImprovementRaises | src/lapcare/core/diagnostics.py:210-214 | improving a measured check never lowers the score and raises it with up to 50 measured checks |
| Score.FiftyIsSharp | src/lapcare/core/diagnostics.py:214 | 50 is the limit: with 51 measured checks an improvement can leave the score where it was |
| Score.ExtremesAreExact | src/lapcare/core/diagnostics.py:214 | with up to 99 measured checks 100 means all OK and 0 means all CRITICAL |
| DiagnosticsRun.ReadStorage | src/lapcare/core/diagnostics.py:237-250 | the loop over the drives comes to all reports or the first error's skip code, with the calls it made |
| DiagnosticsRun.ReadFirmware | src/lapcare/core/diagnostics.py:252-260 | the loop collects the upgrades of updatable devices, or none when any query fails |
| DiagnosticsRun.Run | src/lapcare/core/diagnostics.py:218-284 | run() always returns: the five results, the score of their statuses, the measured count, and the SMART reads it made |
| DiagnosticsRun.ResultsInOrder | src/lapcare/core/diagnostics.py:48 | five results in CHECK_IDS order for every behaviour of the sources, each skipped one saying why and carrying no evidence |
| DiagnosticsRun.FailureSkipsItsCheck | src/lapcare/core/diagnostics.py:228-274 | each check is skipped as unavailable if and only if its own source fails: for firmware absence, the listing or any updatable device's query, for storage any error but a denial, from the listing or the first failing read |
| DiagnosticsRun.StorageSkipExactly | src/lapcare/core/diagnostics.py:235-250 | storage health is skipped as declined exactly for a denial and as unavailable exactly for any other error, from the listing or the first failing read |
| DiagnosticsRun.OfferedExactly | src/lapcare/core/diagnostics.py:252-260 | the upgrade queries fail as a whole exactly when one of an updatable device does |
| DiagnosticsRun.ReadAllExactly | src/lapcare/core/diagnostics.py:238-241 | the reads raise exactly the error of the first that fails |
| DiagnosticsRun.SourcesAreIsolated | src/lapcare/core/diagnostics.py:228-282 | changing how one source behaves leaves the other four results as they were |
| DiagnosticsRun.SmartReadsOnlyWhenAsked | src/lapcare/core/diagnostics.py:10-13 | no SMART read unless asked for |
| DiagnosticsRun.AskedIsPrefix | src/lapcare/core/diagnostics.py:240-241 | the reads made are the device list cut after the first failure |
| DiagnosticsRun.FirstFailureDecides | src/lapcare/core/diagnostics.py:238-250 | the first failing read decides the error, and there is one exactly when some read fails |
| DiagnosticsVerdicts.BatteryIsReported | src/lapcare/core/diagnostics.py:228-233 | the battery result of every run whose battery source answers, in the capacities it answered |
| DiagnosticsVerdicts.StorageIsReported | src/lapcare/core/diagnostics.py:235-250 | the storage result of every run that asks and whose drives all answer, in the reports they gave |
| DiagnosticsVerdicts.StorageNotRequested | src/lapcare/core/diagnostics.py:236-238 | storage is skipped as not requested exactly when it was not asked for or there is no source |
| DiagnosticsVerdicts.FirmwareIsReported | src/lapcare/core/diagnostics.py:252-260 | when no query of an updatable device fails: OK exactly when none of them offers a release, critical exactly when one offers a critical release, a warning otherwise, with the number of releases on offer |
| DiagnosticsVerdicts.UrgencyDecides | src/lapcare/core/diagnostics.py:139-147 | one release of low urgency is a warning, one of critical urgency is critical |
| DiagnosticsVerdicts.ThermalIsReported | src/lapcare/core/diagnostics.py:262-267 | the thermal result of every run whose sensors answer, in degrees |
| DiagnosticsVerdicts.DiskIsReported | src/lapcare/core/diagnostics.py:269-274 | the disk result of every run whose disk source answers, in bytes |
| DiagnosticsPage.ResultCards | src/lapcare/ui/pages/diagnostics/view_model.py:127-147 | the loop makes one card per result, in order |
| DiagnosticsPage.RunShowsEveryCheck | src/lapcare/ui/pages/diagnostics/view_model.py:127-147 | a finished run frees the page and shows score, coverage and five cards in CHECK_IDS order, each with its title, status text and class (success, warning, error, dim-label), its confidence or skip text, and its evidence pair by pair |
| DiagnosticsPage.DiagnosticsViewModel.constructor | src/lapcare/ui/pages/diagnostics/view_model.py:189-213 | a new page shows nothing and has no report |
| DiagnosticsPage.DiagnosticsViewModel.Load | src/lapcare/ui/pages/diagnostics/view_model.py:219-222 | the page opens ready |
| DiagnosticsPage.DiagnosticsViewModel.Run | src/lapcare/ui/pages/diagnostics/view_model.py:224-230 | a run is submitted only when the page is not busy |
| DiagnosticsPage.DiagnosticsViewModel.RunDone | src/lapcare/ui/pages/diagnostics/view_model.py:244-260 | report, cards and both texts are replaced together |
| DiagnosticsPage.DiagnosticsViewModel.RunFailed | src/lapcare/ui/pages/diagnostics/view_model.py:262-267 | a failed run leaves report, cards and texts |
| DiagnosticsPage.DiagnosticsViewModel.Export | src/lapcare/ui/pages/diagnostics/view_model.py:271-277 | an export needs a writer, a report and a page that is not busy |
| DiagnosticsPage.DiagnosticsViewModel.ExportDone | src/lapcare/ui/pages/diagnostics/view_model.py:321-324 | the page is freed and says so |
| DiagnosticsPage.DiagnosticsViewModel.ExportHasFailed | src/lapcare/ui/pages/diagnostics/view_model.py:326-329 | the page is freed and says so; its state stays |
| DiagnosticsPage.EndingsAreTold | src/lapcare/ui/pages/diagnostics/view_model.py:262-329 | a failed run makes the page unavailable exactly for an unavailable provider and an error page otherwise; an export changes nothing but the toast and the busy text |
| DiagnosticsExport.StepKeepsInv | src/lapcare/ui/pages/diagnostics/view_model.py:224-329 | every main-thread and loop-thread step keeps: one job while busy, the page shows its last report, an export has read only that report |
| DiagnosticsExport.ExportsAreSnapshots | src/lapcare/ui/pages/diagnostics/view_model.py:271-319 | in every run each write, at any step, puts down the report that was on the page at the last accepted export request before it, which was the request for that file, though its fields are read one by one later, on another thread: as data for a name ending in .json, in HTML for .html and in Markdown for any other; and every file comes from such a write |
| DiagnosticsExport.ReadsNeverFail | src/lapcare/ui/pages/diagnostics/view_model.py:280-317 | the coroutine's own assertion never fires and it never meets a missing report |
| DiagnosticsExport.ReportStays | src/lapcare/ui/pages/diagnostics/view_model.py:224-260 | while an export is outstanding no step replaces the report and no second export starts |
| SmartJson.GetInt | src/lapcare/providers/storage_smart.py:162-168 | returns n exactly when the key path leads through objects to the integer n, booleans excluded |
| SmartJson.IntAtExact | src/lapcare/providers/storage_smart.py:162-168 | the same as a statement about every JSON value |
| SmartJson.AtaRawValue | src/lapcare/providers/storage_smart.py:176-188 | the scan with early return equals the first usable row's value |
| SmartJson.FirstValueExact | src/lapcare/providers/storage_smart.py:181-188 | a value is returned exactly when it is that of the first matching row with a usable integer |
| SmartJson.Messages | src/lapcare/providers/storage_smart.py:191-200 | the loop collects the string of every well-formed entry, in order |
| SmartJson.ParseReport | src/lapcare/providers/storage_smart.py:203-223 | a report for every JSON object, field by field |
| SmartJson.ReportIsExact | src/lapcare/providers/storage_smart.py:203-223 | each of the ten numeric fields is Some(n) if and only if the document leads to the integer n: by its key path, or in the first usable row of attribute 5 or 197 of its own table |
| SmartJson.AtaValueExact | src/lapcare/providers/storage_smart.py:176-188 | the value read for an attribute is v if and only if the key path ata_smart_attributes, table leads to an array whose first row with that id and an integer raw value has v |
| SmartJson.PassedIsExact | src/lapcare/providers/storage_smart.py:203-208 | passed is Some(b) if and only if the key path smart_status, passed leads through objects to the boolean b |
| SmartJson.TextsAreExact | src/lapcare/providers/storage_smart.py:171-173 | model, firmware version and serial number are Some(s) if and only if s is the string at their key and not empty |
| SmartJson.MessagesAreExact | src/lapcare/providers/storage_smart.py:191-200 | the messages are the strings of the object entries, in order, of the array at smartctl, messages, and none when there is no such array |
| HelperChannel.HelperErrorCode | src/lapcare/providers/storage_smart.py:151-156 | the scan equals the code of the first line with the helper's prefix |
| HelperChannel.CodeIsRead | helper/lapcare_helper.py:35-42 | the code printed after "lapcare-helper: " is read back if and only if the cut after 500 characters falls on its end or past what follows it; any detail, any unrelated whole lines before |
| HelperChannel.NothingBeforePrefix | src/lapcare/platform/subprocess.py:91-93 | a cut inside earlier output or the prefix leaves no code to read |
| Text.SplitLinesConcat | src/lapcare/providers/storage_smart.py:153 | splitting at line breaks distributes over whole lines, "\r\n" included |
| Text.LinesAreLines | src/lapcare/providers/storage_smart.py:153 | the lines of every text hold no boundary, stand in order, and are followed by exactly one boundary each, "\r\n" counting as one, but for a last line without |
| Text.BreaksAndSpaces | src/lapcare/providers/storage_smart.py:153-155 | the ten line boundaries and the white space of str, by code point |
| Text.StripIsExact | src/lapcare/providers/storage_smart.py:155 | stripping takes white space from both ends until none is left there |
| Text.CutLines | src/lapcare/platform/subprocess.py:91 | every line of a cut text is the start of a line of the text |
| SmartHelper.DeclinedExactly | src/lapcare/providers/storage_smart.py:132-134 | a read counts as declined exactly when pkexec exits 126 or 127 |
| SmartHelper.HelperFailsCleanly | helper/lapcare_helper.py:35-100 | whatever it is asked and finds, the helper writes only a report; a failure prints one of seven codes, writes nothing to stdout and exits 1, which is never a decline |
| SmartHelper.CodeTellsRequest | helper/lapcare_helper.py:45-100 | usage, unknown-verb and unknown-device are printed for a wrong number of arguments, another verb, and a device that is not listed or has no block node |
| SmartHelper.CodeTellsFailure | helper/lapcare_helper.py:65-90 | for a known device: tool-missing, tool-timeout, tool-failed (bit 0 or 1 of the status, or a signal) and output-invalid (over 4194304 bytes or not JSON), each for its own failure, and otherwise the output is passed on |
| SmartHelper.HelperCodesAreGood | helper/lapcare_helper.py:47-98 | each of the seven codes survives the channel |
| SmartHelper.ReportExactlyForGoodRun | helper/lapcare_helper.py:65-90 | the provider gets a report exactly for a known device, a smartctl exit with bits 0 and 1 clear and a bounded JSON object, whatever the other bits say |
| SmartHelper.FailureIsUnderstood | src/lapcare/providers/storage_smart.py:132-148 | every helper failure reaches the caller as what it was, after up to 468 characters of other output |
| SmartHelper.RunTellsError | src/lapcare/providers/storage_smart.py:111-130 | a missing pkexec is unavailable, a timeout a timeout, and output that is no JSON object a parse error |
| SmartHelper.OversizeTellsError | src/lapcare/platform/subprocess.py:94-95 | output over 8388608 bytes reads as a missing helper, as its message holds no code and does not name lapcare-helper |
| SmartHelper.NoCodeTellsError | src/lapcare/providers/storage_smart.py:140-147 | a failure without a code is a parse error exactly when the output names lapcare-helper somewhere, and else the helper is missing |
| DeclinedStorage.SkippedAsDeclinedExactly | src/lapcare/core/diagnostics.py:235-250 | storage health is skipped as declined exactly when the first read that fails is one pkexec refused |
| DeclinedStorage.ReadsComeTo | src/lapcare/core/diagnostics.py:238-250 | the reads come to the first failure's error |
| DeclinedStorage.VerdictFromDocuments | src/lapcare/core/diagnostics.py:100-130 | from the drives' JSON documents to the result of the run: critical exactly when one leads to passed false, OK exactly when none does nor holds a non-zero raw value of attribute 197 or 80% endurance used, high confidence exactly when each leads to a boolean |
| StoragePage.Gather | src/lapcare/ui/pages/storage/view_model.py:126-138 | the loop equals the function on every reader, with the devices asked: all of them, or up to the first hopeless failure |
| StoragePage.GatherExactly | src/lapcare/ui/pages/storage/view_model.py:126-138 | the read raises exactly the first failure that is a denial or an unavailable provider, timeouts and parse errors never |
| StoragePage.WholeRead | src/lapcare/ui/pages/storage/view_model.py:128-138 | otherwise each device has one result, without a report where its own read failed |
| StoragePage.StorageViewModel.Load | src/lapcare/ui/pages/storage/view_model.py:86-88 | load() shows loading and submits the listing |
| StoragePage.StorageViewModel.Apply | src/lapcare/ui/pages/storage/view_model.py:95-114 | one unread card per device; an empty list makes the page unavailable and leaves the cards |
| StoragePage.StorageViewModel.Read | src/lapcare/ui/pages/storage/view_model.py:118-124 | a read of all cards is submitted only when not busy and there are cards |
| StoragePage.StorageViewModel.HealthDone | src/lapcare/ui/pages/storage/view_model.py:140-150 | the loop merges the results into the cards by name |
| StoragePage.StorageViewModel.HealthFailed | src/lapcare/ui/pages/storage/view_model.py:152-168 | a failed read leaves cards and state and says why |
| StoragePage.OneReadAtATime | src/lapcare/ui/pages/storage/view_model.py:118-168 | in every run one read is outstanding exactly while busy, and a card is styled as failing exactly when it says so |
| StoragePage.ReadIsMerged | src/lapcare/ui/pages/storage/view_model.py:126-150 | a device that answered shows its report, one that failed keeps what it showed and is marked, none moves or is renamed |
| StoragePage.ReportIsShown | src/lapcare/ui/pages/storage/view_model.py:171-209 | failing, healthy or not reported by the boolean alone, then a captioned row for each field that was read, in order, the firmware version and the notes |
| StoragePage.ListingIsShown | src/lapcare/ui/pages/storage/view_model.py:95-114 | a listing gives each device an unread card, in order |
| StoragePage.FailureIsTold | src/lapcare/ui/pages/storage/view_model.py:152-168 | which toast a failed read raises; cards and state stay |
| Html.ReadWritten | src/lapcare/ui/pages/diagnostics/report_render.py:53-101 | reading what was written gives it back, in any context of open elements |
| Html.WrittenReadsBack | src/lapcare/ui/pages/diagnostics/report_render.py:53-101 | a written tree reads back as itself |
| Html.ReadChar | src/lapcare/ui/pages/diagnostics/report_render.py:62 | every character survives escaping and reading |
| Html.EscapesAreReferences | src/lapcare/ui/pages/diagnostics/report_render.py:62 | the five characters html.escape replaces and the references it writes (section 13.5 of the WHATWG HTML Standard), all others standing for themselves |
| HtmlReport.RowsAreWritten | src/lapcare/ui/pages/diagnostics/report_render.py:64-66 | the joined row strings are the written form of the row elements |
| HtmlReport.RenderHtml | src/lapcare/ui/pages/diagnostics/report_render.py:53-101 | the joined parts, none of them a whole element, are exactly the doctype and the written form of one document tree |
| HtmlReportReading.ReportReadsBack | src/lapcare/ui/pages/diagnostics/report_render.py:53-101 | for every input the text starts with <!DOCTYPE html>, after which a strict reader finds one html element and nothing left open (void elements, section 13.1.2 of the WHATWG HTML Standard) |
| HtmlReportReading.DataComesBack | src/lapcare/ui/pages/diagnostics/report_render.py:64-99 | title, headings, statuses, subtitles, scores, labels and values come back as they were, under their tags and in order |
| HtmlReportReading.StatusIsColored | src/lapcare/ui/pages/diagnostics/report_render.py:68-94 | the status text of a card stands in a span of the color of its status |
| HtmlReportReading.NoDatumAddsATag | src/lapcare/ui/pages/diagnostics/report_render.py:53-101 | inputs with as many rows and cards and the same colors have the same elements, whatever their texts |
| MountTable.DecodesExactlyAscii | src/lapcare/providers/disk_usage.py:34-36 | a mount point survives escaping and decoding if and only if it is ASCII |
| MountTable.OctalDecodes | src/lapcare/providers/disk_usage.py:34-36 | an octal escape decodes to its character whatever follows it |
| MountTable.OctalIsNumeral | src/lapcare/providers/disk_usage.py:35 | an octal escape is a backslash and three octal digits of the character's code |
| MountTable.MojibakeIsUtf8 | src/lapcare/providers/disk_usage.py:36 | a character outside ASCII reads as the bytes of its UTF-8 form (section 3 of RFC 3629) |
| MountTable.CodeReads | src/lapcare/providers/disk_usage.py:36 | \x, \u and \U with two, four and eight hexadecimal digits of either case read as the character of that code |
| MountTable.LetterReads | src/lapcare/providers/disk_usage.py:36 | which character each letter after a backslash stands for; an unknown one stands for itself |
| MountTable.FieldsAreWords | src/lapcare/providers/disk_usage.py:60 | the fields of a line are its maximal runs without white space |
| MountTable.UsagesExactly | src/lapcare/providers/disk_usage.py:66-78 | each reported entry has its own mount point, total frsize times blocks and free frsize times bavail |
| MountTable.ListUsage | src/lapcare/providers/disk_usage.py:53-79 | for every text: raises exactly when some device line's mount point does not decode, else the usages of the reported entries |
| MountTable.ReportedExactly | src/lapcare/providers/disk_usage.py:63-78 | an entry is reported exactly when it is the first of its source and its own statvfs succeeds; in table order, each once |
| MountRoundTrip.TableIsReported | src/lapcare/providers/disk_usage.py:53-79 | end to end, for every table of the kernel's kind: in table order, for the first row of each device whose statvfs succeeds there, its exact mount point with total frsize times blocks and free frsize times bavail, each device once |
| MountRoundTrip.TableRoundTrip | src/lapcare/providers/disk_usage.py:53-63 | every table of the kernel's kind reads back as its device rows, in order, mount points exact |
| MountRoundTrip.RowIsRead | src/lapcare/providers/disk_usage.py:59-63 | one row reads back as its source and mount point, or is skipped when the source is no device |
| MountRoundTrip.DeviceIsReported | src/lapcare/providers/disk_usage.py:64-78 | some reported entry has a source if and only if the first entry of that source answers statvfs, and no two reported entries share one |
| MountRoundTrip.StaleMountHidesDevice | src/lapcare/providers/disk_usage.py:64-71 | a stale first mount hides a later mount of the same device that could be read |
| ReportWriter.TextReportWriter.FillTemp | src/lapcare/platform/report.py:24-25 | the temporary file passes through the states of an interrupted or finished write |
| ReportWriter.TextReportWriter.Write | src/lapcare/platform/report.py:20-33 | the call's error, the disk it leaves and every state between equal the specification, whatever step fails |
| ReportWriter.TargetIsWhole | src/lapcare/platform/report.py:20-33 | in every state the target is as it was or holds the whole new text, and no third file is touched |
| ReportWriter.HowTheDiskIsLeft | src/lapcare/platform/report.py:23-32 | a call that did not rename leaves the disk as it was, except when the temporary file was made and then not unlinked: exactly when the unlink fails or the error is no OSError; a failed chmod raises with the report in place, still 0600, and a finished call leaves it 0644 |
| ReportWriter.TempIsPrivate | src/lapcare/platform/report.py:20-33 | while the temporary file is there it has mode 0600 and holds a beginning of the text |

## Left out

- HelperChannel.CodeIsRead: says when the code comes back, not which wrong code or none is read otherwise.
- FirmwareFreshness.DrainedPageIsFresh: one unbroken run of the scheduler; it does not model stop() under a live page.
- MountTable.ListUsage: an escape that names a surrogate code point, which Python accepts, counts as one that does not decode; the name database of `\N{...}` is a parameter; statvfs answers or raises OSError, its ValueError for a NUL in the path is not modelled.
- DiagnosticsRun.Run: providers answer or raise a LapcareError; anything else they raise leaves run(), such as the decoding error of a broken mount table.
- MountRoundTrip.TableRoundTrip: mount points of printable ASCII, space, tab and newline; the 1 MiB limit of the read is a parameter.
- ReportWriter.TextReportWriter.Write: assumes that mkstemp's name is new and is not the target's, and that no other process touches the two files.
- Score.ScoreIsNearMean: the mean, wear and free percentages are exact rationals; IEEE rounding before the final round() and the one-decimal formatting of metrics are not modelled.
- SmartHelper.ReportExactlyForGoodRun: what json.loads makes of the output is one value for helper and provider; byte-order marks and other encodings, which the helper accepts and the provider does not, uncaught exceptions of the helper and a broken stdout pipe are left out.
- SmartJson.ParseReport: NaN and infinities among JSON numbers are left out; they equal no attribute id.
- FirmwarePage.ProgressIsTold: capitalizing knows the 26 letters of ASCII only.
- StoragePage.StorageViewModel.HealthDone: cards are values in a sequence that the loop updates in place; aliasing of card objects is not modelled.
- ThreadScheduler.ThreadLoopScheduler.Start: the five-second waits for the thread to start and to join, and their failure, are left out.
- Tasks are never cancelled: no code here cancels one.
- GTK views, GObject notifications, D-Bus calls, libfwupd, sysfs and real processes: each foreign call is an arbitrary outcome.
- gettext texts: arbitrary strings, or only which message was chosen; the Markdown and JSON renderings and the system rows of a report.
- fwupd's progress slot, which only forwards signals while an install runs: progress signals may arrive at any time here.
- list_devices of the storage provider, dmi, os_info, hwmon, pci_usb, thinkpad_acpi, upower, capture, packaging: field copying and I/O that would only add easy members.
