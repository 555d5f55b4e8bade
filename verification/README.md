# glances-rs: the collection engine, the alert engine and their arithmetic

glances-rs is a small monitoring server. Each plugin is collected only while somebody asks for it: a
request wakes a collector, waits for its first cycle, and the collector removes itself after a few idle
cycles. Every cycle passes through the alert engine, which computes levels, debounces them and keeps a
bounded journal of events. This project models that behaviour in Dafny and proves what it promises.

`dafny verify dfyconfig.toml` checks everything.

## What is modelled

- **The wake-up protocol** (`SharedState.dfy`, `Collector.dfy`, `Timing.dfy`, `Sections.dfy`, `Runtime.dfy`).
  Requests and collectors have program counters and interleave freely; each access to shared state and each
  critical section is one step. An invariant is carried through every step, and the main results are statements
  about every state of every run. `Timing` says what a collector does while it lives, and when; `Sections` says
  the same in configured durations, and that sections are independent. `AppState` holds the shared state in
  place, and `Runtime` performs the pieces of `ensure_plugin` and `plugin_loop` on it, in any order: whatever it
  has done is a run of the transition system.
- **The alert engine** (`Hysteresis.dfy`, `Engine.dfy`, `Observations.dfy`, `LevelsView.dfy`, `Alerts.dfy`,
  `AlertRuns.dfy`, `Persistence.dfy`). `reconcile` is proved to meet a specification of traces that knows no
  pending window. `Engine` is a machine over small steps, with the run theorems about windows, the journal and
  pruning.
  `Alerts.Alerts` is the class with its mutable history, entries and clock; each method moves its abstract
  state as the machine moves, and `AlertRuns` shows that any sequence of `observe` calls is a run.
  What a payload shows is said of the configuration and the payload alone (`Observations.Merits`), and from that
  `LevelsView` says what `_levels` holds, and `Persistence` which events the calls of `observe` journal.
- **Thresholds** (`Plugins.dfy`, `Config.dfy`, `Levels.dfy`, `Json.dfy`, `Limits.dfy`). Startup validation,
  run-time resolution and the published limits are three pieces of code; they are proved to agree on every
  plugin, item and field.
- **Event timestamps** (`Calendar.dfy`, `Timestamp.dfy`). The civil-date arithmetic is proved against a
  day count summed year by year and month by month, and the printed text against a reader of the
  `date-time` grammar of section 5.6 of RFC 3339.
- **Rates** (`Filters.dfy`, `Rates.dfy`, `Network.dfy`, `Diskio.dfy`). The counter difference of the
  network and diskio plugins is one loop with two item shapes, and one state kept between cycles.
- **Texts and shares** (`Mounts.dfy`, `AllStats.dfy`, `JsonText.dfy`, `Rounding.dfy`, `CpuShares.dfy`). The
  mount-table decoder, the byte-level aggregate body with an independent reader for it, and CPU shares.

`Strings.dfy` is the order of strings and a sort of keyed records; `Wrappers.dfy` has two result types.

Modelling choices: instants and durations are whole nanoseconds; limits, readings and shares are exact
reals; a parsed floating-point setting may also be infinite or not a number, since validation has to refuse
those. Where the code walks a hash map, the model picks the next key arbitrarily, so nothing proved depends
on that order.

## Findings

- For a falling field, the ladder that validation asks for does not nest the breach sets: a value can
  breach `critical` and no milder limit (`Levels.FallingNestingFails`). They nest exactly for the reversed
  ladder (`Levels.FallingNestedExactlyWhenReversed`), so a validated falling ladder only ever reports the
  level of its most severe limit (`Levels.FallingLadderCollapses`). What src/alerts.rs:48-50 says, that the
  first match is the worst breach, does hold in both directions (`Levels.WorstBreachIsReported`). No shipped
  field is a falling one.
- `iso8601_utc` pads the year to four columns but does not stop there: from year 10000 on the text has more
  than 20 characters and is no RFC 3339 `date-time`. Instants before 1970 print as the epoch. So the text reads
  back as the same second exactly from the epoch to the end of year 9999 (`Timestamp.RoundTrip`,
  `Timestamp.Length`), and all texts from the epoch up to an instant sort by time exactly when that instant is
  before year 10000 (`Timestamp.OrderHoldsExactly`).
- The mount decoder accepts a plus sign as the first octal digit. It departs from a decoder of three octal
  digits exactly on texts with a backslash, a plus sign and two octal digits in a row
  (`Mounts.StrictExactlyWithoutPlus`); the kernel prints none.
- Mount lines are split at all Unicode white space, while only space, tab, line feed and backslash are
  escaped, and only in the mount point. On a line whose device is one word, mount point and options read back
  exactly when the mount point is not empty and holds no other white space, and the options are a word
  (`Mounts.MountPointRoundTripExactly`, with `Mounts.NoBreakSpaceIsLost` as an instance). White space inside the
  device shifts every field (`Mounts.NoBreakSpaceInDevice`). Set aside are a file-system type with a backslash,
  whose escapes could spell anything, and white space in the type or the two last fields.
- `validate` accepts any finite positive number of seconds, but `Duration::from_secs_f64` and the product with
  `idle_cycles` panic when the result does not fit (`Configs.DurationsFitExactly`,
  `Configs.AcceptedRefreshOverflows`).
- The `guest` share is the only CPU share that can leave 0..100, because guest time is not part of the
  denominator; the exact condition is `CpuShares.GuestInRangeExactly`, with an instance in
  `CpuShares.GuestExceedsAfterReset`.
- Which of several faults `validate` reports is not determined; whether it reports one is
  (`Configs.Validate`).
- A rate of zero does not mean that nothing moved: it means less than one unit in twenty seconds
  (`Rates.RateIsZeroExactly`), and growth between two samples taken at the same instant is never reported
  (`Rates.Unmeasured`).

## Model

| member | source | states |
|---|---|---|
| SharedState.AppState.Touch | src/state.rs:62-64 | After a request its plugin has been idle for no time and every other plugin for as long as before |
| SharedState.AppState.Idle | src/state.rs:67-70 | The last request's stamp and the idle time add up to the present, short of it by less than a millisecond; a stamp from the future reads as no idle time |
| SharedState.AppState.Publish | src/state.rs:75-77 | Publishing keeps the store equal to the last publication of every plugin, and touches no other plugin's |
| SharedState.AppState.Snapshot | src/state.rs:81-83 | The snapshot is the last body ever published for the plugin, however many collectors have come and gone, and is missing only if none ever was |
| SharedState.AppState.Join | src/collector.rs:52-64 | The plugin ends up registered on the returned open channel: its own, with nothing changed, or a fresh unsignalled one |
| SharedState.AppState.Retire | src/collector.rs:147-156 | The plugin leaves the registry iff it is still idle under the lock, and no other plugin does |
| SharedState.AppState.Signal | src/collector.rs:143 | The collector's channel turns `true`; no other channel changes |
| SharedState.AppState.Close | src/collector.rs:155 | Returning drops the sender of a channel nobody is registered on, so registered channels stay open |
| Collector.StepKeeps | src/collector.rs:42-159 | The invariant over registry, channels, store and requests survives every step of every participant |
| Collector.InvariantHolds | src/collector.rs:42-159 | The invariant holds in every state of every run |
| Collector.OneLiveCollector | src/collector.rs:52-64 | In every reachable state a plugin is registered iff exactly one of its collectors has not removed itself, and the registered channel is that collector's |
| Collector.NobodyStranded | src/collector.rs:69-84 | A channel without sender reads `true` and has a snapshot at least as new as its collector; a request ends refused, served by its collector or a later one, or at its guard deadline, never by a dropped sender or a missing snapshot |
| Collector.RemovalIsQuiet | src/collector.rs:147-156 | At every removal from the registry, every touch so far is an idle timeout old by the whole-millisecond clock of the code, hence at least that old but for less than a millisecond |
| Collector.JoinedCollectorStays | src/collector.rs:9-14 | The collector that a request joined stays registered until an idle timeout after the touch by the whole-millisecond clock, less than a millisecond short of it in real time |
| Collector.JoinFindsOrSpawns | src/collector.rs:49-64 | Whichever side wins the lock, the request holds the channel of a live registered collector, a fresh one if the last removed itself first |
| Collector.StoreOnlyAdvances | src/state.rs:72-83 | The store never loses a key, and a snapshot is only replaced by a later cycle or a later collector |
| Collector.CollectorStaysForCycles | src/config.rs:306-318 | Under a configuration, the collector that a request joined stays registered for `idle_cycles` refresh periods after the touch, by the whole-millisecond clock |
| Collector.StepsDescend | src/collector.rs:69-84 | No other participant ever sets a request back, and each of its own steps takes it forward |
| Collector.RequestsAreShort | src/collector.rs:42-85 | Over any run a request takes at most seven steps of its own |
| Collector.RequestsCanMove | src/collector.rs:80-84 | In every reachable state an unfinished request can move, at the latest at its guard deadline |
| Collector.CollectorsCanMove | src/collector.rs:132-158 | In every reachable state an unfinished collector can move, at the latest when its sleep is over |
| Collector.IdleCollectorStops | src/collector.rs:3-7 | Once a plugin has been idle for its timeout, and while nobody touches it, its collector has left the registry after at most seven steps of its own |
| Collector.ServedRun | src/collector.rs:42-85 | For any enabled plugin there is a run whose first request is served its collector's first body |
| Timing.StoreHoldsLatestCycle | src/collector.rs:132-145 | In every reachable state the store holds, for the plugin of a live collector, the cycle that collector is in once it is published, and the one before until then |
| Timing.ServedThisCycle | src/collector.rs:80-82 | A request that fetches while its plugin's collector is past publishing is served that very cycle |
| Timing.KeepsPublishing | src/collector.rs:132-158 | Within any seven steps of its own a collector publishes, unless it leaves |
| Timing.PublicationIsStored | src/collector.rs:142 | Each publication puts the collector's current cycle into the store, which did not hold it yet |
| Timing.PublishedCycleWasObserved | src/collector.rs:133-142 | A published cycle was collected, and then observed, before |
| Timing.SleepsForARefresh | src/collector.rs:143-145 | After its signal a collector can move iff its refresh period has passed |
| Timing.PublicationsApart | src/collector.rs:142-145 | Two publications of one collector lie at least its refresh period apart |
| Timing.GuardRunsFromJoining | src/collector.rs:80-84 | A request that still waits can run into its guard iff the guard timeout has passed since it joined |
| Timing.JoinedSinceArrival | src/collector.rs:9-14 | The collector that a request joined is registered until an idle timeout after the request arrived, but for less than a millisecond |
| Sections.SleepsAsConfigured | src/config.rs:306-313 | A collector sleeps for the refresh of its plugin's section, or for the general one if that sets none |
| Sections.WaitsAsConfigured | src/config.rs:320-322 | A request can run into its guard iff the configured guard timeout has passed since it joined |
| Sections.RefusedExactly | src/config.rs:324-329 | A request is refused iff a section of its plugin sets `enabled` to false |
| Sections.StaysAsConfigured | src/config.rs:316-318 | The collector that a request joined stays for `idle_cycles` refresh periods of its own section after the touch, but for less than a millisecond |
| Sections.StopsAsConfigured | src/config.rs:316-318 | Idle for as long, and left alone, it is gone after seven steps of its own |
| Sections.NanosNearest | src/config.rs:312 | A setting in seconds is rounded to the nearest nanosecond |
| Sections.SectionsAreIndependent | src/config.rs:305-330 | Two configurations that differ in the section of one plugin have the same runs among those that this plugin takes no part in |
| Runtime.Runtime.StepRequest | src/collector.rs:42-85 | Each piece of `ensure_plugin` between two awaits, performed in place, extends a run of the transition system by exactly that step |
| Runtime.Runtime.StepLoop | src/collector.rs:132-158 | Each piece of `plugin_loop`, performed in place, does the same |
| Hysteresis.AlertState.Reconcile | src/alerts.rs:88-127 | The in-place state machine does what the value-level step does, its two pending fields always set together |
| Hysteresis.BlockIsMaximal | src/alerts.rs:85-87 | The window of the specification is the maximal block of equal consecutive observations |
| Hysteresis.FoldMeetsSpec | src/alerts.rs:88-127 | Over any trace a level commits iff it is new and its maximal block spans `min_duration` (or that is 0); a window is pending exactly from the start of that block |
| Hysteresis.TransitionsChain | src/alerts.rs:94-112 | Transitions chain from `Ok` to the committed level, always change it, and are initial iff first with no `Ok` before |
| Engine.HistoryIsTailOfLog | src/alerts.rs:362-365 | The stored journal is always the last `history_size` events of the unbounded one, or all of them if fewer |
| Engine.StepIsLifeStep | src/alerts.rs:290-367 | One engine step changes the entry of a triple exactly as it extends that triple's own trace |
| Engine.CellIsLife | src/alerts.rs:346-360 | Triples do not interfere: each entry is the debounce machine over its own life since it was last pruned, and exists iff something was observed in it |
| Engine.LastSeenIsLastTick | src/alerts.rs:292-296 | The stored time is that of the plugin's last full cycle |
| Engine.EventsMeetSpec | src/alerts.rs:357-367 | In any run a sample is journalled iff its level is new to its triple and has persisted; the event carries its levels, raw value, time, host and initial mark |
| Engine.LifeEventsAreTransitions | src/alerts.rs:357-367 | The journalled events of a lifetime are the transitions of its trace, none missing or added |
| Engine.JournalChains | src/alerts.rs:94-112 | Per lifetime the journal is a chain of real changes from `Ok` to the committed level |
| Engine.LifeEventsEndTheLog | src/alerts.rs:346-367 | The events of the current lifetime are the latest events of the triple in the unbounded journal |
| Engine.PendingHasWindow | src/alerts.rs:290-304 | A pending window was opened by a sample of its level and nothing has disturbed it since |
| Engine.EventHasWindow | src/alerts.rs:116-126 | With a positive window, each event has a sample at least `min_duration` earlier since when every sample had its level, the item never vanished, and no two cycles were over two refreshes apart |
| Engine.PersistenceIsJournalled | src/alerts.rs:88-127 | The converse: if every sample of a triple has one uncommitted level while its item is always listed and no cycle comes over two refreshes after the last, then by the first sample that comes `min_duration` after another that level is journalled |
| Observations.ReadFields | src/alerts.rs:314-319 | The loop over watched fields yields the specified levels and readings |
| Observations.ReadItems | src/alerts.rs:326-344 | The loop over items yields the specified levels and readings, and the keys of all items seen |
| Observations.ReadPayload | src/alerts.rs:310-345 | The loops produce the specified levels, readings and live keys from configuration and payload alone |
| Observations.ReadingsMeaning | src/alerts.rs:308-344 | A reading is reconciled iff the payload, or an item with its key, has that raw number for a watched field and merits that level |
| Observations.PlainLevel | src/alerts.rs:400-411 | A field without divisor compares its raw value with the limits as they are; the event carries the raw value |
| Observations.NormalisedLevel | src/alerts.rs:401-411 | A normalised field compares its raw value with the limits times the divisor, turned round for a negative one, in both directions; the event carries the raw value |
| Observations.LevelIsMerited | src/alerts.rs:392-412 | A level is computed iff the field has a number, a limit and a usable scale (one, or the divisor), and it is the worst level whose limit, scaled, the raw number reaches |
| Observations.FieldLevelsMeaning | src/alerts.rs:392-417 | A watched field has an entry iff it has a level, and it is that level |
| Observations.LastBearerIsLast | src/alerts.rs:340-342 | The item that decides an entry bears a level, and no later item of the same key does |
| Observations.CollectionLevelsMeaning | src/alerts.rs:324-345 | An item key has an entry iff some item of that key bears a level; of duplicates the last such item decides it |
| LevelsView.LevelKeysExactly | src/alerts.rs:310-345 | The keys of `_levels` are exactly the fields, or the keys of the items in `data`, for which a number, a limit and a usable divisor exist |
| LevelsView.ScalarLevelsExactly | src/alerts.rs:310-321 | For a plugin without items each watched field has an entry iff it is observed, and the entry spells out the level it merits and its prominence |
| LevelsView.CollectionLevelsExactly | src/alerts.rs:324-345 | For a plugin with items the last item in which a key is observed decides the entry of that key, for every watched field |
| LevelsView.ReadingsInOrder | src/alerts.rs:308-344 | Readings are reconciled item by item in the order of the payload and field by field in the order of the table, each once and none left out |
| Alerts.Alerts.constructor | src/alerts.rs:233-242 | The engine starts with no entry, no event and no clock |
| Alerts.Alerts.ResetIfIdle | src/alerts.rs:290-304 | After a gap of over two refreshes the plugin's pending windows are dropped and its committed levels kept; the clock moves on |
| Alerts.Alerts.PruneVanished | src/alerts.rs:346-352 | Exactly the plugin's entries of vanished items are dropped, whole |
| Alerts.Alerts.Append | src/alerts.rs:362-365 | Appending evicts the oldest events beyond `history_size` |
| Alerts.Alerts.Reconcile | src/alerts.rs:359-360 | Advancing one entry leaves every other entry, the journal and the clock alone |
| Alerts.Alerts.Record | src/alerts.rs:357-367 | Recording one observation is one sample step of the engine machine |
| Alerts.Alerts.RunCycle | src/alerts.rs:287-367 | A full call is one tick followed by one sample per computed level, whatever the order of reading and pruning |
| Alerts.Alerts.Observe | src/alerts.rs:258-369 | `observe` does nothing on its early returns; otherwise it is one engine cycle and rewrites `_levels` alone in the payload |
| AlertRuns.CallsAreARun | src/alerts.rs:258-369 | Any sequence of `observe` calls is a run of the engine machine, so every run theorem holds of it |
| AlertRuns.SkipsExactly | src/alerts.rs:258-283 | The early return fires iff the plugin watches nothing, or nothing is written down for it and no limit is in force for any of its fields |
| AlertRuns.SkippedReadsNothing | src/alerts.rs:263-280 | When the early return fires nothing resolves for any item and field, and the full path would compute no level and no observation |
| AlertRuns.SkippedPayloadExactly | src/alerts.rs:268-271 | The early return gives back the payload of the full path iff `_levels` came in empty |
| AlertRuns.FastPathRefines | src/alerts.rs:263-280 | Over any sequence of calls the early return leaves the same entries, journal and, for plugins with thresholds, clock as the full path |
| AlertRuns.EntriesTabled | src/alerts.rs:357-359 | Entries always name a watched field, and an item where the plugin has items |
| AlertRuns.OtherPluginsUntouched | src/alerts.rs:298-303 | A cycle changes no entry of any other plugin |
| AlertRuns.EntriesWithinPayload | src/alerts.rs:346-360 | After a full cycle the plugin's entries are exactly those of watched fields, with their item in the payload, that were there before or are read now; all other plugins' entries are as before |
| AlertRuns.EventsComeFromPayloads | src/alerts.rs:308-367 | Every event ever journalled tells the raw number of a watched field in the payload of one of the calls, and the level it merits |
| AlertRuns.SupportedReadingsAreJudged | src/alerts.rs:357-367 | Over any calls, whatever a watched field shows in a payload is sampled, and journalled iff its level is new to its triple and has persisted |
| Persistence.LastTickIsLastCall | src/alerts.rs:290-296 | For a plugin with thresholds, the clock that idle gaps are measured from is that of its last call |
| Persistence.EntryMovesByReadings | src/alerts.rs:290-360 | After a full cycle the entry of an item in the payload is what its readings of that cycle make of the entry before, without its pending window iff the cycle came over two refreshes after the last |
| Persistence.EntrySurvives | src/alerts.rs:346-352 | An entry whose item is still in the payload survives the cycle, unchanged but for that window if the cycle does not read it |
| Persistence.PersistentLevelIsJournalled | src/alerts.rs:287-367 | If the payloads of consecutive calls, never over two refreshes apart, always have an item and show it at one level that was not committed, and the last comes `min_duration` after the first, then one of these calls journals that level |
| Persistence.JournalledAsConfigured | src/alerts.rs:379-386 | The same with the refresh and the window of the plugin's own section, or else the general ones |
| Persistence.HighMemoryIsJournalled | src/alerts.rs:287-367 | With the built-in limits and a window of two seconds, memory at 90 percent or more in two cycles two seconds apart journals `critical` |
| Persistence.WaitedAsConfigured | src/alerts.rs:379-386 | Each event has a sample of its level at least the configured window earlier, with nothing in between that disturbs it |
| Persistence.JournalAsConfigured | src/alerts.rs:362-365 | Over any calls the journal kept is the last `history_size` events of all that were journalled |
| Persistence.EventAsConfigured | src/alerts.rs:357-367 | Each event carries key, level, raw number and prominence of a reading of some call, the time of that call as text, and the host |
| Calendar.CivilOfDayNumber | src/alerts.rs:190-200 | The civil arithmetic inverts the recursive day count on every date from 1970 on |
| Calendar.DayNumberOfCivil | src/alerts.rs:190-200 | Every day count from the epoch prints a valid date, whose recursive day count is that day |
| Calendar.ConsecutiveDays | src/alerts.rs:190-200 | Consecutive days print successor dates across every month, leap and century boundary |
| Calendar.EraBounds | src/alerts.rs:194-196 | Year of era lies in 0..399 and day of year in 0..365 |
| Calendar.DayNumberOrder | src/alerts.rs:190-200 | Day counts order as the dates do |
| Timestamp.Length | src/alerts.rs:202 | The text has 20 characters iff the instant is before year 10000 |
| Timestamp.RoundTrip | src/alerts.rs:181-203 | Reading the text by the RFC 3339 grammar gives the same second back iff the instant lies from the epoch to the end of year 9999; an earlier one reads as the epoch, a later one not at all |
| Timestamp.ChronologicalOrder | src/alerts.rs:181-203 | Before year 10000 the text of one instant is less than that of another iff it is earlier, except for two different instants neither of which is after the epoch |
| Timestamp.OrderHoldsExactly | src/alerts.rs:202 | All texts from the epoch up to an instant sort by time iff that instant is before year 10000; with earlier instants, which read as the epoch, likewise |
| Plugins.ParseInvertsName | src/plugins/mod.rs:113-141 | Plugin names and ids correspond one to one |
| Plugins.TableIsSound | src/plugins/fields.rs:403-433 | Each plugin watches distinct fields, all rising, and every built-in ladder is ordered |
| Configs.Validate | src/config.rs:213-303 | Validation accepts exactly the valid configurations, and a reported fault is really there |
| Configs.NumbersOfAccepted | src/config.rs:213-303 | In an accepted configuration every period is finite and positive, every window finite and not negative, counts are positive, sections are named after plugins and patterns compile; without sections that is all it takes |
| Configs.CheckItem | src/config.rs:263-279 | An item passes iff each override is sound alone and merged over the limits below it |
| Configs.DurationsFitExactly | src/config.rs:305-322 | The guard, refresh and idle durations of an accepted configuration all fit iff the guard is under 2^64 seconds and no idle timeout is longer than the longest duration |
| Configs.AcceptedRefreshOverflows | src/config.rs:306-313 | A refresh of 10^20 seconds is accepted and does not fit |
| Levels.ResolveIsMerge | src/alerts.rs:151-176 | Resolution is the merge that validation checks, and reports nothing only when no limit is set |
| Levels.LimitInForce | src/alerts.rs:129-176 | The limit in force for a level of a watched field is what the item's override sets, else what the plugin's block says, be it nothing, else the built-in one if those are on |
| Levels.FaultsOfLadder | src/config.rs:425-446 | A ladder is refused as not finite iff a limit is infinite or no number, and otherwise for its order iff a limit exceeds a more severe one |
| Levels.ValidationIsExact | src/config.rs:257-280 | Validation finds no ladder fault iff every ladder that can be resolved at run time, for any plugin, item and field, is finite and ordered |
| Levels.AcceptedResolvesSound | src/config.rs:425-446 | An accepted configuration resolves to nothing or to finite ordered limits, overrides or built-ins included |
| Levels.NestedExactlyWhenOrdered | src/alerts.rs:48-66 | For rising fields, breach sets nest iff the finite limits are ordered |
| Levels.LevelIsMonotone | src/alerts.rs:51-66 | A rising value never lowers the level of a rising field |
| Levels.LevelCountsBreaches | src/alerts.rs:51-66 | With a full ordered ladder the level is the number of limits breached |
| Levels.AcceptedLevelsMonotone | src/alerts.rs:392-412 | In an accepted configuration every watched field of every item has nested limits and a monotone level |
| Levels.WorstBreachIsReported | src/alerts.rs:48-66 | In both directions and for any ladder, the level reported is the worst one whose limit is breached |
| Levels.FallingLadderCollapses | src/alerts.rs:48-66 | For a falling field a validated ladder reports `ok` or the level of its most severe limit, nothing between |
| Levels.FallingNestedExactlyWhenReversed | src/alerts.rs:48-66 | Falling breach sets nest iff the finite limits are in the reverse order |
| Levels.FallingNestingFails | src/alerts.rs:48-66 | At the validated ladder 10, 20, 30, a falling 25 breaches `critical` and neither milder limit |
| Limits.LimitsFor | src/api/mod.rs:252-277 | The loops build the specified view: set global limits per watched field, and `_per_item` only when not empty |
| Limits.ViewKeysExactly | src/api/mod.rs:252-277 | The view has exactly the watched fields with a global limit in force, and `_per_item` iff some item overrides a limit of a watched field |
| Limits.PerItemKeysExactly | src/api/mod.rs:262-275 | An item is listed under `_per_item` iff it overrides a limit of some watched field |
| Limits.LadderRoundTrip | src/api/mod.rs:205-217 | A finite ladder is read back unchanged from its JSON |
| Limits.PublishedIsEnforced | src/api/mod.rs:252-277 | In an accepted configuration, the published limits, an item's laid over the global ones or the global ones alone, are exactly what the engine resolves, for every watched field, item and scalar plugin |
| Rates.PerSec | src/plugins/network.rs:251-257 | A rate is within half a tenth of the exact quotient, and 0 when no time has passed |
| Rates.RateIsZeroExactly | src/plugins/network.rs:251-257 | A rate is never negative, and is 0 iff the counter rose by less than one in twenty seconds |
| Rates.Step | src/plugins/network.rs:189-248 | One step yields the sorted intersection of two samples, each item built from its own two counters, and keeps only the new sample |
| Rates.DiffUnique | src/plugins/diskio.rs:133-183 | The items of a step are determined by the two samples, whatever order the table is visited in |
| Rates.FilterCommutes | src/plugins/network.rs:112-114 | Filtering the samples before a step gives the items that filtering its output would |
| Rates.RateState.Collect | src/plugins/network.rs:93-125 | From the first cycle on, the state is the latest sample and nothing older, and each cycle publishes the difference of the last two samples over the seconds between them |
| Rates.FilterFirstOrLast | src/plugins/diskio.rs:115-123 | Over a whole run filtering first and filtering last publish the same |
| Rates.ListedExactly | src/plugins/network.rs:196-201 | In any run a cycle lists exactly the shown items of both its readings, each described by its own two samples |
| Rates.ListedByFilter | src/plugins/filter.rs:31-46 | In any run an item is listed iff two consecutive readings hold it and the configured patterns, or the plugin's default ones, show it |
| Rates.RisesLessFalls | src/plugins/network.rs:202-205 | Clamped differences sum to the net change plus what resets lost; nothing is lost iff the counter never falls |
| Rates.RatesIntegrateToRises | src/plugins/network.rs:106-122 | An item present throughout a run is published in every cycle, and its rates per second times the nanoseconds between readings sum to 10^9 times its counter's measured rises, within 0.05 times the nanoseconds of the run |
| Rates.RatesIntegrateToNetChange | src/plugins/network.rs:106-122 | For a counter that never falls that sum is its last value less its first, up to the same rounding and the unmeasured rises |
| Filters.FilterMonotone | src/plugins/filter.rs:31-34 | More `hide` patterns only hide, more `show` patterns only show, except that the first one narrows everything to its matches |
| Filters.FirstHideReplacesDefaults | src/plugins/filter.rs:37-46 | A first configured `hide` list shows a hidden key iff a default pattern was all that hid it, and hides a shown one iff it matches it |
| Network.TotalIsSum | src/plugins/network.rs:204-211 | The total rate, with that of what the two differences exceed 64 bits by, is the sum of the two rates up to rounding; once they exceed it, it is the rate of the largest count |
| Network.PublishedFields | src/plugins/network.rs:219-238 | In any run, a listed interface carries its name, drops iff both its samples expose them, its configured alias, and the status gathered with the later sample, and is never hidden |
| Network.ListedByDefault | src/plugins/network.rs:18-20 | With no pattern configured, an interface present in two consecutive readings is listed iff neither default pattern matches it |
| Network.SeriesConserved | src/plugins/network.rs:189-248 | A run accounts for each of an interface's six counters: rates times intervals give its measured rises, and the last raw value differs from the first sample by rises less falls |
| Diskio.Latency | src/plugins/diskio.rs:188-190 | The truncated mean brackets the time per operation; 0 without operations |
| Diskio.LatencyAccountsForTime | src/plugins/diskio.rs:163-166 | The published latencies, times the operations of the interval, account for the time spent to within one millisecond per operation, and are 0 without any |
| Diskio.PublishedFields | src/plugins/diskio.rs:155-181 | In any run, a listed disk carries its name and its configured alias, and is never hidden |
| Diskio.ListedByDefault | src/plugins/diskio.rs:26-27 | With no pattern configured, a disk present in two consecutive readings is listed iff neither default pattern matches it |
| Diskio.SeriesConserved | src/plugins/diskio.rs:133-183 | A run accounts for each of a disk's six counters: rates times intervals give its measured rises, and the last raw value differs from the first sample by rises less falls |
| Mounts.UnescapeMount | src/plugins/linux.rs:387-405 | The decoder loop ends, stays inside its input, meets the recursive decoder and never lengthens its input |
| Mounts.UnescapeOfEscape | src/plugins/linux.rs:387-405 | Decoding undoes the kernel's escaping, for every text |
| Mounts.LineRoundTrip | src/plugins/linux.rs:375-381 | A printed line reads back as its mount point and options |
| Mounts.FourWordsSuffice | src/plugins/linux.rs:375-381 | A line of four words gives the second, decoded, and the fourth; a line of three gives nothing |
| Mounts.TableRoundTrip | src/plugins/linux.rs:372-383 | A printed table reads back as the map from mount points to options |
| Mounts.LastMountWins | src/plugins/linux.rs:372-383 | Of several mounts on one point the last decides the options |
| Mounts.StrictExactlyWithoutPlus | src/plugins/linux.rs:387-403 | The decoder agrees with one that takes three octal digits only, iff no backslash is followed by a plus sign and two octal digits |
| Mounts.MountPointRoundTripExactly | src/plugins/linux.rs:372-405 | On a line whose device is one word, the mount point is read as its first piece between other white space, or else as the file-system type; point and options read back iff the point is not empty and holds no other white space and the options are a word |
| Mounts.NoBreakSpaceIsLost | src/plugins/linux.rs:377-379 | A mount point that begins with a no-break space is read without it |
| Mounts.NoBreakSpaceInDevice | src/plugins/linux.rs:377-379 | A no-break space in the device shifts every field: the rest of the device is read as the mount point, the type as the options |
| Rounding.Round1Monotone | src/plugins/mod.rs:29-31 | Rounding never reverses an order |
| Rounding.Round1Fixes | src/plugins/mod.rs:29-31 | Rounding fixes every value with one decimal, 0 and 100 among them |
| Rounding.Round1Close | src/plugins/mod.rs:29-31 | Rounding moves a value by at most half a tenth |
| CpuShares.SharesPartition | src/plugins/linux.rs:91-119 | Before rounding, busy and idle make 100, and so do the reported categories with softirq and the guest time inside user and nice |
| CpuShares.SharesAreTheirOwn | src/plugins/linux.rs:91-119 | Each reported share is its own category's part of the total to within half a tenth, guest time taken out of user and nice, and `total` is all but idle |
| CpuShares.PercentsInRange | src/plugins/linux.rs:91-119 | For any two samples every share but `guest` lies in 0..100 |
| CpuShares.GuestInRangeExactly | src/plugins/linux.rs:117 | `guest` lies in 0..100 iff its delta exceeds the total by less than one part in two thousand |
| CpuShares.GuestExceedsAfterReset | src/plugins/linux.rs:103-117 | Around a user counter that ran back, the guest share is reported as 1000 percent |
| CpuShares.GuestWithinUser | src/plugins/linux.rs:72-77 | It does whenever guest time is part of user time |
| CpuShares.BusyAndIdle | src/plugins/linux.rs:108-113 | After rounding busy and idle make 100 to within a tenth |
| CpuShares.ZeroExactlyAtRest | src/plugins/linux.rs:103-105 | Busy and idle both read 0 iff no counted category has moved on, and then every share does |
| AllStats.AllStats | src/api/mod.rs:70-98 | The loops compose the object of the succeeded plugins sorted by name, in the reserved capacity |
| AllStats.ComposeLength | src/api/mod.rs:82-98 | The body is one byte shorter than reserved, or exactly 2 when empty |
| AllStats.CompletionOrderIrrelevant | src/api/mod.rs:70-78 | The bytes do not depend on the order in which plugins finish |
| AllStats.PluginsHaveDistinctNames | src/api/mod.rs:62-75 | One task per plugin gives distinct names, none of which needs escaping |
| AllStats.SplitOfCompose | src/api/mod.rs:80-98 | Splitting the composed object at depth one gives back exactly the parts, in order |
| AllStats.AggregateSplitsBack | src/api/mod.rs:60-104 | The body splits back into exactly the succeeded plugins and their bodies, each once, sorted by name |
| JsonText.PrintNeutral | src/api/mod.rs:80-81 | The text of every JSON value leaves the bracket depth of the reader as it found it, whatever its strings hold |
| JsonText.ObjectTextIsObject | src/api/mod.rs:80-81 | The text of every JSON object is one object to that reader |
| JsonText.ComposeIsPrint | src/api/mod.rs:80-98 | Composing the texts of objects byte by byte prints the object that has them as members |
| JsonText.AggregateIsObjectText | src/api/mod.rs:60-104 | Whatever order the plugins finish in, the body is the text of an object whose members are the answers sorted by name, and reading it gives them back, already when bodies only keep quotes and brackets apart |
| JsonText.StrictIsWellFormed | src/api/mod.rs:80-81 | Values of the JSON grammar of RFC 8259 are among those the reader's results cover |
| JsonText.AggregateIsJson | src/api/mod.rs:60-104 | If every answer is the text of an object of that grammar, so is the body, with the answers as its members, sorted by name |

## Left out

- HTTP routing, TLS, authentication, CORS and host checks (`src/server.rs`, `src/api/security.rs`): thin layers over libraries.
- Reading files, `/proc`, `/sys`, `statvfs` and `sysinfo`: their texts and samples are inputs.
- TOML parsing, configuration discovery, environment passwords and regex compilation: the model starts from a parsed configuration, and matching is a predicate parameter.
- Field descriptions, units, short names and the `/info` schema: static text. The table of fields keeps only the watched rows, since no other row has built-in limits.
- The `mem`, `load`, `system` and `uptime` plugins and the collectors of `cpu`, `memswap` and `fs`: their payloads are inputs of the alert engine; the parsers of `/proc` texts other than the mount table would only add easy members.
- Rounding, overflow and NaN of `f64`: shares, rates, readings and accepted limits are exact reals; a divisor that is not finite cannot occur in the model.
- Overflow of `Duration` elsewhere than in the three settings above, and the cast of milliseconds to `i64`: durations and clocks are unbounded, so that the run theorems speak of configurations whose durations fit.
- Weak memory order: the timestamp is one atomic step, as the runtime is single-threaded.
- Fair scheduling: every unfinished participant can move and a request has at most seven steps, but that it is eventually scheduled is up to the runtime. `collect` is assumed to return, since a panic aborts the process.
- The asynchronous bodies of `ensure_plugin` and `plugin_loop` are cut at their awaits, one method call a piece: Dafny has no interleaving inside a method body.
- What a published body holds: the store keeps the collector and the cycle that made it.
- Offsets other than `Z` and fractions of a second in RFC 3339: the code never prints them.
- The text of a JSON number, as a key of an item or in a limit: it comes with the number.
- Bytes of the aggregate body: a byte is the character with its code.
- `String::from_utf8_lossy`: a parameter, required only to give back the text that its UTF-8 encodes.
- Non-Linux branches of the network and diskio plugins: an item without drop counters or metadata is still covered by optional fields.
- Dropping and creating the `VecDeque` of history and the re-use of map entries: histories are sequences, and `Alerts.Alerts.Entry` makes one object per entry.
