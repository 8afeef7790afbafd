# Chowkidar: a verified model of its protocols and calendars

Chowkidar supervises Docker containers. A scan finds containers in trouble and queues
actions; a pool of workers carries the actions out; maintenance windows pause jobs and, if so
configured, cancel what is in flight. This project models the parts of the program where that
can go wrong and proves what it relies on, for every input, every run and every interleaving.

Three groups of modules:

- **The maintenance calendar.** `Gregorian` is Go's calendar, once as stepping from day to day
  and once as a closed formula, proved inverse to each other. `Schedule` has the bounded
  day-by-day searches as methods with loops, each proved against the unbounded meaning of a
  schedule (`Occurs`: there is some day, however far away, on which the schedule puts an
  occurrence). `ScheduleLaws` says when the bounds are enough, and what all this means in dates,
  weekdays and times of day. `Normalize` is what a window goes through before it is stored; it
  proves field by field what is stored, and that stored windows meet the assumptions.
- **The action protocol.** `ContainerState` has the shared fields as a class and every locked
  section as a method. `ActionRun` is `actionJob.Run` on that class, proved to take the steps of
  `ActionProtocol`, a transition system in which any number of workers, one scanner, a clock and
  outside changes interleave, one locked section at a time; and proved to leave the fields that
  the action's outcome calls for, without reference to that system. Each container has a history,
  kept only to state properties. `ClaimLaws`, `ContainerLaws`, `ForceCancelLaws` and `CancelLaws`
  prove invariants of every run; `ContainerHistory` says what the histories mean in terms of
  positions alone. `Pause` is the pause snapshot, `Transitions` the log of window starts and ends.
- **Smaller stateful parts**, each a class or a transition system refined against a simple
  specification: `Scheduler` (due jobs and the sleep between scans), `Outage` (notices about
  extra hosts), `Quota` and `QuotaLaws` (the notification caps), `History` (the action log),
  `Pool` (the worker pool), `Migration` (ID migrations).

An instant is an integer number of nanoseconds and a zone is a fixed offset. The theorems about a
container hold of every run that does not reset that container while it is claimed; forced actions
and resets of other containers, and resets of the container between its actions, may come at any
time. A reset of a claimed container takes the claim from an action that may still be running, and
`ClaimLaws.ResetHarmlessIff` proves that this, with more than one worker, is exactly when mutual
exclusion can be lost afterwards. The laws about the container's entry also assume that no action
on that container is forced.

Where something the program seems to promise does not hold, the model keeps the program's
behaviour and gives the exact condition:

- A monthly window finds its occurrences in 32 day steps exactly if some wanted day is at
  most 28 (`ScheduleLaws.MonthlySearchBound`); whether it is active agrees with coverage exactly
  if that holds or no occurrence reaches past the 32nd day from its own
  (`ScheduleLaws.MonthlyActivityIsCoverage`).
- A renamed reference means the same profile exactly if no later profile comes to have the same
  ID (`Migration.ReferenceKept`), and the order in which a map yields templates is irrelevant
  exactly if no two different templates are moved to one ID (`Migration.TemplateOrderIrrelevant`);
  `Migration.LegacyFormsClash` and `Migration.LegacyReferenceMoves` have inputs for which it fails.
- Every run keeps a profile's daily cap exactly if there is only one sender
  (`QuotaLaws.CapHoldsIffOneSender`); with `k` at work on the profile, and restarts
  aside, the exact maximum is `daily + k - 1` (`QuotaLaws.CountedBound`, `QuotaLaws.BoundIsReached`). The file of counters is
  shared and written after the lock is given up, so a snapshot of another profile's sender that is
  written late can undo a record: a restart is safe exactly if the file has today's count
  (`QuotaLaws.RestartSafeIff`, `QuotaLaws.LateWriteOvershoots`), and it has if nothing is counted
  while an older snapshot is waiting to be written (`QuotaLaws.QuietFileIsCurrent`).
- Exhaustion, waits and the retry bound end with a reset, which is how monitoring is resumed; they
  are stated from one reset to the next.

## Model

| member | source | states |
|---|---|---|
| `Gregorian.DayNumberOfDate` | internal/config/maintenance_schedule.go:380-386 | counting days by the closed formula inverts stepping through the calendar, so differences of dates are differences of days |
| `Gregorian.DateOfDayNumber` | internal/config/maintenance_schedule.go:380-386 | the other direction: every valid date is reached by stepping to its day number |
| `Gregorian.WeekdayOfDate` | internal/config/maintenance_schedule.go:216-226 | for every valid date the weekday of its day number is the one that the rule for mental arithmetic gives |
| `Gregorian.WeekdayCycle` | internal/config/maintenance_schedule.go:216-226 | 1 January 1970 was a Thursday, and weekdays follow one another in a cycle of seven |
| `Gregorian.DayNumberAppearsBefore` | internal/config/maintenance_schedule.go:228-252 | the 31 days before any day contain every day number up to 28, across month lengths and leap years |
| `Gregorian.DayNumberAppearsAfter` | internal/config/maintenance_schedule.go:336-359 | the same for the 31 days after |
| `Schedule.SlotOfDay` | internal/config/maintenance_schedule.go:162-200 | rebuilding an instant from the date of a local day lands on that day's occurrence time |
| `Schedule.MostRecentOccurrence` | internal/config/maintenance_schedule.go:150-257 | what it returns is the greatest of all occurrences at or before the reference, with the configured duration; nothing is returned only if none is in reach; a window without creation time counts from today |
| `Schedule.MostRecentInterval` | internal/config/maintenance_schedule.go:162-200 | the interval branch, found by arithmetic from the anchor day and never more than one period of steps |
| `Schedule.MostRecentWeekly` | internal/config/maintenance_schedule.go:202-226 | the weekly branch: greatest occurrence, or none within 8 days |
| `Schedule.MostRecentMonthly` | internal/config/maintenance_schedule.go:228-252 | the monthly branch: greatest occurrence, or none within 32 days |
| `Schedule.WalkBack` | internal/config/maintenance_schedule.go:180-200 | the walk stops at the last day aligned with the anchor, within one period |
| `Schedule.FirstOccurrenceAfter` | internal/config/maintenance_schedule.go:263-364 | what it returns is the least of all occurrences after the reference; nothing is returned only if none is in reach |
| `Schedule.FirstIntervalAfter` | internal/config/maintenance_schedule.go:275-309 | the interval branch always finds the least occurrence after the reference |
| `Schedule.FirstWeeklyAfter` | internal/config/maintenance_schedule.go:311-334 | the weekly branch: least occurrence, or none within 8 days |
| `Schedule.FirstMonthlyAfter` | internal/config/maintenance_schedule.go:336-359 | the monthly branch: least occurrence, or none within 32 days |
| `Schedule.IsRecurringActive` | internal/config/maintenance_schedule.go:130-146 | looking at the most recent occurrence alone decides whether any occurrence in reach covers the instant |
| `Schedule.IsActive` | internal/config/maintenance_schedule.go:10-35 | switched on, and covered according to the strategy; for a manual and a single window spelled out on its bounds |
| `Schedule.ActiveMaintenanceWindows` | internal/config/maintenance_schedule.go:37-48 | exactly the active windows, in their order |
| `Schedule.ActiveOnesMembers` | internal/config/maintenance_schedule.go:37-48 | a window is listed exactly if it is stored and active |
| `Schedule.ActiveOnesInOrder` | internal/config/maintenance_schedule.go:37-48 | each window is judged on its own, and the order is kept |
| `ScheduleLaws.ActiveIffCovered` | internal/config/maintenance_schedule.go:10-35 | end to end: an accepted recurring window is active if and only if it is switched on, in its effective range, and covered by some occurrence over all of time |
| `ScheduleLaws.ActiveOnTheCalendar` | internal/config/maintenance_schedule.go:10-35 | the same on the calendar: active if and only if switched on, in range, and within the minutes after the time of day on some date whose weekday, day of the month or distance from the day of creation the schedule names |
| `ScheduleLaws.OccursMeans` | internal/config/maintenance_schedule.go:150-257 | an occurrence is the time of day on a date that the schedule names |
| `ScheduleLaws.AcceptedMeans` | internal/config/maintenance.go:311-369 | what the theorems assume of a window, field by field |
| `Schedule.NextOccurrence` | internal/config/maintenance_schedule.go:56-88 | the earliest start after now if it lies in the effective range; a start outside the range is reported as none and not searched past |
| `Schedule.LastOccurrence` | internal/config/maintenance_schedule.go:97-125 | the latest start up to now, whether or not the window is switched on |
| `ScheduleLaws.WeeklyAlwaysFound` | internal/config/maintenance_schedule.go:202-226 | 8 day steps always find a weekly occurrence, before and after |
| `ScheduleLaws.MonthlyFound` | internal/config/maintenance_schedule.go:228-252 | 32 day steps find a monthly occurrence on either side if some wanted day is at most 28 |
| `ScheduleLaws.MonthlyNotFound` | internal/config/maintenance_schedule.go:228-252 | and without such a day there are references from which neither search finds one |
| `ScheduleLaws.MonthlySearchBound` | internal/config/maintenance_schedule.go:228-252 | so the bound suffices for every reference if and only if some wanted day is at most 28 |
| `ScheduleLaws.IntervalSearchBound` | internal/config/maintenance_schedule.go:162-200 | for an interval the backward search succeeds exactly from the anchor on, and the forward search always |
| `ScheduleLaws.ActivityIsCoverage` | internal/config/maintenance_schedule.go:130-146 | interval and weekly: the search finds a covering occurrence if and only if one exists over all of time |
| `ScheduleLaws.MonthlyCoverageAt` | internal/config/maintenance_schedule.go:130-146 | monthly: the same at every instant, if some wanted day is at most 28 or occurrences are short enough |
| `ScheduleLaws.MonthlyActivityIsCoverage` | internal/config/maintenance_schedule.go:130-146 | and that condition is exact: it holds if and only if activity is coverage at every instant |
| `ScheduleLaws.MonthlyGap` | internal/config/maintenance_schedule.go:228-252 | the instant at which it fails otherwise: a running occurrence out of reach |
| `ScheduleLaws.NextIsMostRecentAtItself` | internal/config/maintenance_schedule.go:263-364 | looking back from the next occurrence finds that occurrence |
| `ScheduleLaws.NothingBetween` | internal/config/maintenance_schedule.go:150-364 | the occurrences found looking back and ahead bracket the reference with none in between |
| `Normalize.DedupeNonEmpty` | internal/config/maintenance.go:413-424 | the loop computes the trimmed, non-blank IDs, each where it first appears |
| `Normalize.DedupedMembers` | internal/config/maintenance.go:413-424 | an ID is kept exactly if it is not blank and some listed ID trims to it |
| `Normalize.DedupedIsClean` | internal/config/maintenance.go:413-424 | what is kept is trimmed, non-blank and all different |
| `Normalize.DedupeIntsInRange` | internal/config/maintenance.go:426-440 | refused exactly if some number is out of range, else the numbers in increasing order |
| `Normalize.DaysInOrderKeeps` | internal/config/maintenance.go:426-440 | that list is strictly increasing and has the same members |
| `Normalize.NormalizeMaintenanceWindow` | internal/config/maintenance.go:241-374 | a draft is stored exactly if it is acceptable, and in its normal form; the next two rows say what these are |
| `Normalize.AcceptableMeans` | internal/config/maintenance.go:241-374 | a draft is acceptable if and only if it has a title, a known strategy and on-start choice, targets of exactly one kind, and the configuration, zone and range that its strategy needs, in terms of its fields |
| `Normalize.StoredFields` | internal/config/maintenance.go:241-374 | what is stored of every field: the choice made for actions in flight is stored as made, and no choice as letting them finish; the configuration of the own strategy and no other; zone and range unless it is a single window |
| `Normalize.StoredWindow` | internal/config/maintenance.go:246-249 | the stored window force-cancels if and only if the draft asked for it, and is in the zone that was named |
| `Normalize.TrimSpaceCuts` | internal/config/maintenance.go:413-424 | trimming takes white space from both ends and nothing else |
| `Normalize.StoredIsAccepted` | internal/config/maintenance.go:241-374 | stored windows satisfy the assumptions of the schedule theorems |
| `Normalize.StoredTargets` | internal/config/maintenance.go:253-269 | stored windows name jobs or hosts and not both, each once, and exactly those submitted |
| `Normalize.NormalizingIsIdempotent` | internal/config/maintenance.go:241-374 | a stored window is acceptable and is its own normal form |
| `Normalize.NormalizingKeepsActivity` | internal/config/maintenance.go:241-374 | normalising does not change when a window is active |
| `Jobs.JobsForHost` | cmd/server/monitor.go:508-519 | the jobs that list the host or no host at all, in their order |
| `Jobs.ForHostInOrder` | cmd/server/monitor.go:508-519 | each job is judged on its own, and the order is kept |
| `Pause.ComputeMaintenancePause` | cmd/server/maintenance.go:27-60 | the snapshot is the join of what the active windows ask for: a job is paused if and only if some window lists it or a host it applies to, and its behaviour is force-cancel if and only if one of those windows is |
| `Pause.PausedMeans` | cmd/server/maintenance.go:27-60 | what the join says of a job and of the local host, in terms of the IDs that windows and jobs list |
| `Pause.ApplyWindow` | cmd/server/maintenance.go:42-58 | one window adds exactly its own requests to the join so far |
| `Pause.SnapshotOrderIndependent` | cmd/server/maintenance.go:34-95 | the snapshot does not depend on the order of windows, jobs or listed IDs |
| `Pause.JoinIsUnique` | cmd/server/maintenance.go:34-95 | what is asked for determines the snapshot |
| `Pause.ForceCancelGoverns` | cmd/server/maintenance.go:62-95 | a force-cancel window is never overridden for what it governs |
| `Pause.SnapshotOnStart` | cmd/server/maintenance.go:86-95 | asking the snapshot gives the behaviour that the windows demand, with the local host standing in for actions without a job |
| `Pause.MaintenanceOnStartFor` | cmd/server/maintenance.go:97-104 | the same question asked now, from the stored windows |
| `Pause.FilterPausedJobs` | cmd/server/maintenance.go:114-124 | exactly the jobs that are not paused, in their order |
| `Transitions.Tracker.CheckMaintenanceTransitions` | cmd/server/maintenance.go:155-196 | one scan adds for each window ID exactly the edge that the change of the active set calls for; edges of each ID alternate beginning with a start and replay to the stored active IDs; with time not going back the stored log is the full log of the last 24 hours; returned are exactly the force-cancel windows just opened |
| `Transitions.NewEdgesMean` | cmd/server/maintenance.go:158-182 | a start is logged under the title of the last active window with an ID that was not active, an end under the title it had, and nothing for an ID that stays |
| `Transitions.OpensMeans` | cmd/server/maintenance.go:166-174 | a window opens with force exactly if it is the last active one with its ID, the ID was not active in the scan before, and it is set to force-cancel |
| `Transitions.RetainedMeans` | cmd/server/maintenance.go:183-192 | the stored log has exactly the edges less than 24 hours older than the last one |
| `Transitions.Tracker.StoreEdges` | cmd/server/maintenance.go:183-192 | pruning in place and appending keeps the stored log equal to the full one cut off a day before its last edge |
| `Transitions.CompactInPlace` | cmd/server/maintenance.go:184-191 | the front of the array becomes the edges after the cutoff, in order, whatever it overwrites on the way |
| `Transitions.SoundStart` | cmd/server/maintenance.go:168-175 | logging a start of an inactive window keeps alternation and replay |
| `Transitions.SoundEnd` | cmd/server/maintenance.go:176-180 | logging an end of an active window keeps them too |
| `Transitions.PrunedLog` | cmd/server/maintenance.go:183-192 | pruning what was already pruned is pruning the whole log |
| `ContainerState.App.IncrementActionCycle` | cmd/server/state.go:56-62 | counts one more attempt, from a fresh entry if there was none |
| `ContainerState.App.ClaimActiveJob` | cmd/server/state.go:105-113 | succeeds exactly if the container was not claimed |
| `ContainerState.App.SetLastActionFailed` | cmd/server/state.go:138-146 | a failure also sets back the count of stable scans |
| `ContainerState.App.PostActionWaitRemaining` | cmd/server/state.go:173-190 | what is left of the wait, forgetting one that is over |
| `ContainerState.App.ResetActionCooldown` | cmd/server/state.go:192-200 | deletes the entry and the claim, whoever holds it |
| `ContainerState.App.FinalizeState` | cmd/server/monitor.go:382-448 | whatever the order of the map, each entry is judged on its own, by its fields: exhausted and waiting entries stay, trouble sets the count of stable scans back, a failed container stays until its threshold is reached; those reported as recovered are exactly those deleted |
| `ContainerState.FinalizedMeans` | cmd/server/monitor.go:382-448 | what the end of a scan does to any container, known or not, by the fields of its entry |
| `ContainerState.App.CancelForceCancelledJobs` | cmd/server/maintenance.go:204-217 | a context is cancelled afterwards if and only if it was before, or is the one of a registered action whose job the snapshot wants force-cancelled; and those actions are counted |
| `ActionRun.Run` | cmd/server/action.go:56-205 | run on the shared fields, from entry to return, takes protocol steps only; and, in the fields alone: an action that is not forced is carried out if and only if the container is unclaimed, not exhausted, not waiting and not paused, which counts one attempt, records its outcome, sets the wait of a success and exhausts the retries at the limit; one turned away is not counted; a forced one starts from a fresh entry, and its success leaves none |
| `ActionRun.RunPath` | cmd/server/action.go:56-205 | from every state an uninterrupted run comes to idle by protocol steps, at the state that the run as a whole computes |
| `ActionRun.UnforcedRunMeans` | cmd/server/action.go:77-205 | what such a run leaves of entry, claim, registration and context, by the fields of the entry it found |
| `ActionRun.ForcedRunMeans` | cmd/server/action.go:72-205 | the same for a forced run |
| `ActionRun.Guard` | cmd/server/action.go:77-119 | claim, registration and the three guards leave the state that the first steps of an uninterrupted run reach (`ActionRun.GuardPath`), and turn away exactly the exhausted, the waiting and the paused (`ActionRun.GuardsMean`) |
| `ActionRun.Act` | cmd/server/action.go:121-205 | counting, acting and recording leave the state that the remaining steps reach (`ActionRun.ActPath`), with one attempt counted and its outcome recorded (`ActionRun.AttemptMeans`) |
| `ActionRun.EndIsUnique` | cmd/server/action.go:56-205 | where an uninterrupted run ends is determined by where it starts and what it reads |
| `ActionRun.RunGivesBack` | cmd/server/action.go:81-94 | on every path a run that is not forced gives back claim and registration and touches no other container's entry |
| `ActionRun.ProtocolStepIsViewStep` | cmd/server/action.go:56-205 | a worker's step in the transition system is the same step on what that worker sees |
| `ClaimLaws.MutualExclusion` | cmd/server/state.go:105-136 | in every run that never resets a container while it is claimed, at most one worker is between claim and release of it, it counts as claimed exactly then, and its registration is under a claim and belongs to the holder |
| `ClaimLaws.AgreementAlways` | cmd/server/action.go:77-94 | claim, holder and registration of a container agree after every such run, from any state in which they agree |
| `ClaimLaws.ResetHarmlessIff` | cmd/server/state.go:192-200 | after a reset every continuation keeps mutual exclusion if and only if the container was not claimed or there is only one worker |
| `ClaimLaws.TwoHolders` | cmd/server/state.go:192-200 | after a reset of a claimed container any second worker, wherever it is in its run, can come to hold it too |
| `ClaimLaws.BringToEnd` | cmd/server/action.go:56-205 | nothing blocks a worker: its own steps alone bring it to the end of its run |
| `ContainerLaws.RetryBound` | cmd/server/action.go:96-205 | with limits in 1..r the cycle never exceeds r and at most r actions start between two deletions of the entry, in every interleaving and across resets |
| `ContainerLaws.RetryStretch` | cmd/server/action.go:96-205 | the same by positions: at most r actions start in any stretch of the history without a deletion |
| `ContainerLaws.ExhaustionIsFinal` | cmd/server/action.go:30-54 | until the state is reset, no action starts and nothing is logged again after exhaustion, and while the flag is up no worker is past its check |
| `ContainerLaws.PostActionWait` | cmd/server/action.go:102-107 | no action starts before the end of a wait set since the last reset, across scans and recoveries |
| `ContainerLaws.ActsOutsideWait` | cmd/server/action.go:102-107 | in every reachable state, while an action is past its checks on a container, no wait of that container is left |
| `ContainerLaws.RecoveryGate` | cmd/server/monitor.go:405-442 | after a failed action a recovery is declared only at the end of a stretch of at least the required stable scans with nothing else in between, and the stored counter is that count |
| `ContainerLaws.RecoversExactlyAfter` | cmd/server/monitor.go:405-442 | and the gate opens: over any number of scans in a row that find the container well, its entry is deleted exactly when as many as required have been stable, or at the first if its last action did not fail |
| `ContainerLaws.ScanEnds` | cmd/server/monitor.go:405-442 | a scan in the transition system can always end, deletes an entry exactly under the conditions of the source, and notes in the history what it found |
| `ContainerLaws.SoundAlways` | cmd/server/monitor.go:405-442 | in every reachable state an entry's counters are what the container's history says |
| `ContainerHistory.NoStartInsideWait` | cmd/server/action.go:146-151 | the wait property by positions in the history, with no reset in between |
| `ContainerHistory.StableRunIsAStretch` | cmd/server/monitor.go:418-432 | the stable count is the number of stable scans in the last stretch with no failure, trouble or deletion |
| `ContainerHistory.ThresholdMeans` | cmd/server/monitor.go:219-221 | the threshold in force is the one set last, if the entry has not been deleted since |
| `ContainerHistory.LastActionFailedMeans` | cmd/server/state.go:138-146 | the last action counts as failed if and only if some action failed, none succeeded after it, and the entry has not been deleted since |
| `ForceCancelLaws.NoEscape` | cmd/server/monitor.go:667-672 | once the cancel pass of the scan that saw a force-cancel window open is over, and while the window governs the job, no action of that job on the container, unless forced, is in a context that is not cancelled, in any interleaving that never resets the container while it is claimed |
| `CancelLaws.OnlyGovernedCancelled` | cmd/server/maintenance.go:204-217 | the converse, in every run whatever is forced or reset: an action past its checks in a cancelled context belongs to a job that an active force-cancel window governed in the snapshot of some pass before |
| `ForceCancelLaws.PassComesToEnd` | cmd/server/maintenance.go:204-217 | nothing blocks the pass: the steps of the scanner alone bring it to its end, with exactly the governed contexts cancelled |
| `ForceCancelLaws.CollectionFindsAll` | cmd/server/maintenance.go:204-217 | the pass misses no action past its guards, because a worker registers before it looks at the windows |
| `ForceCancelLaws.EdgeStartsPass` | cmd/server/monitor.go:667-672 | detecting the opening of a force-cancel window starts the pass |
| `ForceCancelLaws.ScanCourse` | cmd/server/monitor.go:666-675 | the pass runs if and only if a force-cancel window has opened, and the scan goes on if and only if the local host is not paused |
| `ForceCancelLaws.DispatchCourse` | cmd/server/monitor.go:197-221 | a dispatch goes on exactly if retries are not exhausted, and sets a configured threshold exactly if no wait is left |
| `ForceCancelLaws.ShieldedAlways` | cmd/server/action.go:109-119 | while the job stays paused nobody joins those already past the guards |
| `Scheduler.Monitor.ComputeDueJobs` | cmd/server/monitor.go:170-192 | takes exactly the due jobs, marks them now, and keeps marks of a job its interval apart |
| `Scheduler.DueMembers` | cmd/server/monitor.go:170-192 | of jobs with different IDs exactly those are due that are enabled and were never scanned or last at least their interval ago |
| `Scheduler.IntervalMeans` | cmd/server/monitor.go:180-183 | the interval in nanoseconds is as configured, or a minute if that is below five seconds |
| `Scheduler.Monitor.TimeUntilNextJobDue` | cmd/server/monitor.go:106-139 | the sleep reaches the next due time of an unpaused enabled job, one second if that is past, a minute if there is none or the scan is skipped |
| `Scheduler.WakeFindsWork` | cmd/server/monitor.go:106-139 | after the sleep some job is due |
| `Scheduler.NothingDueWhileSleeping` | cmd/server/monitor.go:106-139 | without the floor nothing is due at any earlier instant of the sleep, on a clock further from the zero time than any interval |
| `Scheduler.UnscannedJobsMeanFloor` | cmd/server/monitor.go:126-135 | an enabled job never scanned makes the floor apply |
| `Scheduler.OneDueJobPerID` | cmd/server/monitor.go:170-192 | a pass takes at most one job of an ID |
| `Scheduler.DueMarksSpaced` | cmd/server/monitor.go:170-192 | over any sequence of scans and finished actions, any two due marks of a job are at least its interval apart, if no action is recorded as finished before its job's recorded scan |
| `Scheduler.Monitor.SetLastJobScan` | cmd/server/state.go:148-154 | a finished action moves its job's recorded scan time and nothing else |
| `Outage.HostMonitor.RecordPing` | cmd/server/monitor.go:727-759 | the notice sent is the one that the host's pings so far call for |
| `Outage.HostNext` | cmd/server/monitor.go:727-759 | the three stored maps are a function of the pings, step by step |
| `Outage.DownNoticeIff` | cmd/server/monitor.go:746-759 | a down notice is sent if and only if the host was up once, has been down since, for at least the confirmation time, and this outage has not been notified |
| `Outage.ReportedInTime` | cmd/server/monitor.go:746-759 | an outage that has lasted as long as configured, or half an hour, when a ping finds the host down has been notified by then |
| `Outage.ConfirmMeans` | cmd/server/monitor.go:746-759 | and none is notified before it has lasted that long |
| `Outage.OneDownNoticePerOutage` | cmd/server/monitor.go:727-759 | between two down notices there is an up ping |
| `Outage.RecoveryNoticeIff` | cmd/server/monitor.go:743-745 | a recovery notice is sent exactly at an up ping that does not directly follow another |
| `Outage.OfflineSinceMeaning` | cmd/server/monitor.go:727-738 | the stored offline time is the first down ping after the last up ping |
| `Quota.UsageTable.GetOrCreateUsage` | cmd/server/notify.go:211-233 | day and burst counters start over exactly when their day or window is over |
| `Quota.UsageTable.CountSend` | cmd/server/notify.go:392-405 | one more send is counted on the current day |
| `Quota.UsageTable.LoadNotifUsage` | cmd/server/persistence.go:82-100 | a restart restores the day counters that were saved |
| `Quota.UsageTable.PersistNotifUsage` | cmd/server/notify.go:242-254 | the snapshot has the day counters of all profiles that have sent on their day |
| `QuotaLaws.QuotaBound` | cmd/server/notify.go:339-405 | with at most k senders at work on a profile the day counter plus admitted unfinished sends never exceeds the limit by more than k - 1, in every interleaving, whatever is written and restored |
| `QuotaLaws.BurstBound` | cmd/server/notify.go:339-405 | the same for the counter of the burst window and the burst limit |
| `QuotaLaws.AdmittedIff` | cmd/server/notify.go:339-364 | a send is admitted if and only if no limit that the profile has is reached by its counter |
| `QuotaLaws.CountedBound` | cmd/server/notify.go:339-405 | and no day gets more than daily + k - 1 counted sends, if restarts find today's count in the file |
| `QuotaLaws.BoundIsReached` | cmd/server/notify.go:339-405 | for every limit and every k some run counts exactly daily + k - 1 sends on one day |
| `QuotaLaws.CapHoldsIffOneSender` | cmd/server/notify.go:339-405 | every run of all profiles' senders, restarts between sends included, keeps the cap of a profile without burst limit if and only if there is one sender |
| `QuotaLaws.DailyLimitHolds` | cmd/server/notify.go:235-254 | with one sender at a time on the profile, and none of its sends counted while an older snapshot waits to be written, no day gets more counted sends than the limit, across restarts between sends, as long as the local day does not go back |
| `QuotaLaws.QuietFileIsCurrent` | cmd/server/notify.go:235-254 | under that condition the file has today's count whenever nobody is sending |
| `QuotaLaws.RestartSafeIff` | cmd/server/persistence.go:82-100 | after a restart every continuation keeps the cap if and only if the file had today's count |
| `QuotaLaws.LateWriteOvershoots` | cmd/server/notify.go:242-254 | one sender per profile is not enough: another profile's snapshot written late lets a profile send twice its limit across a restart |
| `History.Store.Append` | internal/history/store.go:46-70 | one line more, stamped now if it had no time |
| `History.Store.ListPage` | internal/history/store.go:88-161 | the page of the reversed filtered log at the offset, and the total; a negative offset panics exactly if the file exists |
| `History.MatchingMembers` | internal/history/store.go:109-137 | an entry is listed if and only if it is in the file, of the service by name or ID, without the status left out, and with one of the statuses asked for, where an empty filter lets everything through |
| `History.Store.Prune` | internal/history/store.go:175-246 | drops exactly the stale entries, and writes nothing if there are none |
| `History.KeptMembers` | internal/history/store.go:198-214 | a line is written back if and only if it is not blank and no entry older than the cutoff |
| `History.KeptInOrder` | internal/history/store.go:198-214 | each line is judged on its own, and the order is kept |
| `History.ReverseInPlace` | internal/history/store.go:146-149 | the two-index loop reverses the array |
| `History.ReversedAt` | internal/history/store.go:146-149 | what reversal means index by index |
| `History.PagesGiveAll` | internal/history/store.go:151-160 | reading page after page gives the whole listing, each entry once and in order |
| `History.ListingAfterPrune` | internal/history/store.go:175-246 | after a prune a listing, with any filter, is the listing before less the entries older than the cutoff |
| `Pool.Conservation` | internal/worker/pool.go:20-41 | in every run a job has been accepted as often as it is queued, running or finished; the queue is what was accepted and not handed out, in order, within its size |
| `Pool.SendBlocksIff` | internal/worker/pool.go:36-39 | a send blocks exactly if the channel is full and no worker waits on an empty one; else its job is the next one accepted |
| `Pool.SendGetsThrough` | internal/worker/pool.go:20-39 | no send blocks for good: in every open pool with a worker at most two steps of a worker let it through |
| `Pool.DrainIsBounded` | internal/worker/pool.go:43-46 | once the channel is closed no run is longer than the remaining work |
| `Pool.DrainEndsWithAllRun` | internal/worker/pool.go:43-46 | and when nothing more can happen all workers have stopped and every accepted job has run as often as it was accepted |
| `Migration.MigrateNotificationProfiles` | internal/config/notifications.go:322-342 | renames legacy IDs in place, and the mapping has exactly the renamed IDs |
| `Migration.RenamedMeans` | internal/config/notifications.go:322-342 | what becomes of each profile: in an old file a legacy ID is renamed, and everything else stays |
| `Migration.NewIDMeans` | internal/config/notifications.go:328-334 | a new ID keeps what follows the prefix of either legacy form, so that different numbers keep different IDs |
| `Migration.LegacyMeans` | internal/config/notifications.go:328-334 | legacy IDs are exactly those of the two old forms |
| `Migration.ApplyNotificationIDMappingToJobs` | internal/config/notifications.go:346-364 | rewrites every reference in place, and reports a change exactly if some job mentions a mapped ID |
| `Migration.ReferenceKept` | internal/config/notifications.go:346-364 | a rewritten reference means the same profile if and only if no profile behind it with another ID gets the same new ID |
| `Migration.ReferencesSurvive` | internal/config/notifications.go:322-364 | when new IDs are not in use, each position of each notification list means the same profile as before |
| `Migration.ProfilesMigrateOnce` | internal/config/notifications.go:322-342 | migrating again changes nothing and maps nothing |
| `Migration.ResolveFindsLast` | cmd/server/notify.go:305-309 | an ID means the last profile that has it |
| `Migration.MigrateAgentTemplateIDs` | internal/config/notification_templates_store.go:84-101 | moves templates in the order in which the map yields the IDs, and reports a change exactly if one was stored under an old ID |
| `Migration.TemplateOrderIrrelevant` | internal/config/notification_templates_store.go:90-96 | the order does not matter if and only if no two different templates are moved to one ID |
| `Migration.LegacyFormsClash` | internal/config/notification_templates_store.go:90-96 | with the two legacy forms of one number, the order decides whose template is lost |
| `Migration.LegacyReferenceMoves` | internal/config/notifications.go:322-342 | and a reference to the first form then means the profile of the second |
| `Migration.TemplatesStayWithProfiles` | internal/config/notification_templates_store.go:84-101 | when new IDs are not in use, every profile finds the template it had, whatever the order |
| `Migration.MigrateJobs` | internal/config/jobs.go:143-164 | both passes rewrite the jobs in place, and a write is asked for exactly if an ID or a host list changed |
| `Migration.MigratedJobMeans` | internal/config/jobs.go:143-164 | an old rule ID keeps its number, other IDs stay, and a file of version 2 stays as it is |
| `Migration.MigrationKeepsHosts` | internal/config/jobs.go:154-162 | a migrated job applies to exactly the hosts it was for |
| `Migration.JobsMigrateOnce` | internal/config/jobs.go:143-164 | migrating again changes nothing, and where no write is asked for only a host ID that nothing read is lost |

## Left out

- The cron strategy: occurrences come from a library whose code is not part of this model; a cron window is refused by `Normalize`.
- `Schedule.MostRecentOccurrence`: has no cron branch, for that reason.
- `Schedule.FirstOccurrenceAfter`: has no cron branch.
- `Schedule.IsRecurringActive`: has no cron windows.
- `Schedule.IsActive`: has no cron windows.
- `Schedule.NextOccurrence`: has no cron windows.
- `Schedule.LastOccurrence`: has no cron windows.
- Daylight saving, zone names and `time.LoadLocation`: a zone is a fixed offset; known names are a parameter of `Normalize`.
- Overflow of durations and the floating-point division in `daysBetweenDates`: days and nanoseconds are exact integers.
- `Normalize.NormalizeMaintenanceWindow`: does not parse text; the strategy and the on-start choice arrive trimmed, in lower case and recognised, times of day arrive as numbers, the description is absent, and which of several errors is reported is not stated.
- `ContainerLaws.RetryBound`: says nothing of a container on which an action is forced, because a forced action counts, waits and fails on the same entry without a claim; the same goes for the other laws of `ContainerLaws`, but not for `ClaimLaws.MutualExclusion` and `ForceCancelLaws.NoEscape`.
- `ContainerState.App.PostActionWaitRemaining`: reads and clears the wait in one locked section, where the source uses two, so that a wait set between the two and then cleared is not seen.
- `ForceCancelLaws.NoEscape`: assumes that no other active window shares the ID of the one that opens, and that clock, windows and jobs are read together when a snapshot is taken.
- The queue inside the action protocol: a worker may take any action at any time, which includes every order in which the pool hands them out; `Pool` has the queue on its own.
- Swapping the pool while jobs are enqueued (cmd/server/main.go:474-496).
- Reading the clock and storing a scan time count as one step; a failed action's `setLastJobScan` is a method of `Scheduler` but not a step of the protocol, which does not read it.
- The reference from a maintenance window to a job by ID: `migrateJobs` renames job IDs and leaves windows as they are, and so does the model.
- `Migration.MigrateAgentTemplateIDs`: leaves out that saving prunes templates without content, and that saving jobs sorts them by creation time.
- `QuotaLaws.BurstBound`: bounds the counter of the burst window; how many sends are counted in one window of real time is not stated, because a restart starts burst counters over.
- `QuotaLaws.CountedBound`: a restart comes between sends; a process killed in the middle of a send, suspension of a profile at its limit, and a write of the file that fails are not in the model.
- `recordJobTracking`, `shouldNotify`, recovery details and "skipped" log entries: they carry text for notifications only.
- Docker calls, script execution and sending notifications: nondeterministic success or failure.
- HTTP handlers, sessions, settings, encryption, YAML and JSON, file errors, service URLs, templates' text, container filters and job selection.
- Adding, updating and deleting windows and jobs in their lists: easy list operations.
