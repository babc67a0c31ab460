# Time tracker core, modelled in Dafny

A model of the logic in `main.js` of a personal time-tracking page. Users create named projects, start and stop a stopwatch per project, bump a manual counter, and can set a goal duration. The page shows live elapsed time and progress towards the goal. The model covers four parts:

- `time_format.dfy` (module `TimeFormat`): `formatTime`. It turns a duration in milliseconds into `HH:MM:SS`, and the hours are not wrapped at 24. The contract reads each field back as a number: hours = ms / 3600000, minutes = (ms mod 3600000) / 60000, seconds = (ms / 1000) mod 60. Minutes and seconds are exactly two digits and below 60; hours have at least two digits and no extra leading zero. Reading the text back gives the whole seconds of the duration. So two durations print the same text exactly when they have the same number of whole seconds.
- `progress.dfy` (module `Progress`): `calculateProgress` over exact reals. A goal of zero or below gives 0. Otherwise the result is the percentage of the goal reached, capped at 100.
- `projects.dfy` (module `Projects`): the project record and its stopwatch rules, as pure functions.
  - `Toggled` is the per-record effect of the start/stop button.
  - `Ticked` is one firing of the interval that page load installs.
  - `Resumed` is what page load does to one record.
  - `LiveTime` is the live time the display computes.
  - Lemmas cover the accounting. A start/stop pair adds exactly its length, and repeated pairs add up. A stop freezes the live time. Any number of ticks before a stop gives the same record as stopping directly.
- `tracker.dfy` (module `Tracker`): class `TimeTracker`. It holds `projects: seq<Project>` and the parallel array `timers: seq<Option<Handle>>`. Its methods mirror `createProject`, `updateProject`, `deleteProject`, `startTimer`, `addCount`, the resume loop of `window.onload`, one firing of the resumed interval, and the figures `updateProjectDisplay` draws. The clock reading `now` is a parameter, and so is the answer to the deletion prompt.

Modelling choices:

- Timestamps are positive integers (`Date.now()` is never 0). So the source's truthiness test on `lastStart` is the same as "not null".
- An index with no record makes the source throw a `TypeError` before it writes anything. The methods model this as `ok == false` with the state unchanged.
- `timers` behaves like a JavaScript array. Writing past its end leaves holes, and holes, `undefined` and `null` all read as "no handle".
- `Handle` only records which kind of interval sits in a slot: `Refresh` (display only, from `startTimer`) or `Accrue` (folds time and saves, from page load).

Behaviour of the code that the model reproduces as written:

- **Page load drops the time since the last start.** Page load sets `lastStart = now` for every running project. The interval between the stored `lastStart` and the reload is therefore not counted as running time, although the project was running throughout (`Projects.Resumed`).
- **Deletion leaves handles at their old indices.** Deletion clears slot `i` of `timers` but never splices the array, while `projects` shifts. `Tracker.StaleHandleAfterDelete` shows the result. After a reload with two running projects, deleting the first and stopping the second leaves the second's accruing interval registered in slot 1, past the end of the list. That interval's next firing on the now-stopped record computes `now - null`, which adds the whole clock reading to `elapsedTime` and leaves the record inconsistent (`Projects.Ticked`).
- **Deletion keeps the dropped record's start time.** Deletion marks a running record as stopped but does not clear its `lastStart` (the ghost result `discarded` of `DeleteProject`).

## Model

| member | source | states |
|---|---|---|
| `TimeFormat.DecimalString` | main.js:19 | the digits of `toString()` for a non-negative integer: all decimal digits, no leading zero, read back to the number; one digit below 10, two digits from 10 to 99 |
| `TimeFormat.Field` | main.js:19 | `padStart(2, '0')` of that notation: at least two digits, exactly two below 100, value unchanged, and a leading zero only when exactly two digits |
| `TimeFormat.ClockArithmetic` | main.js:15-18 | hours and minutes taken from whole seconds equal ms / 3600000 and (ms mod 3600000) / 60000, and the three fields rebuild the whole seconds |
| `TimeFormat.FormatTime` | main.js:14-20 | three colon-separated digit fields. Hours = ms / 3600000, unbounded and at least two digits. Minutes = (ms mod 3600000) / 60000 and seconds = (ms / 1000) mod 60, each exactly two digits and below 60 |
| `TimeFormat.FormatTimeRoundTrip` | main.js:14-19 | reading the three fields back as 3600·H + 60·MM + SS gives exactly the whole seconds ⌊ms/1000⌋ |
| `TimeFormat.FormatTimeSeconds` | main.js:14-19 | the text of two durations is equal exactly when their whole seconds are equal |
| `Progress.CalculateProgress` | main.js:23-27 | goal ≤ 0 gives 0. Otherwise the result is at most 100, at least 0 when elapsed ≥ 0, exactly 100 once elapsed ≥ goal, and result·goal = 100·elapsed below the goal |
| `Progress.ProgressMonotone` | main.js:23-27 | more elapsed time never gives less progress towards the same goal |
| `Projects.NewProject` | main.js:123-132 | the created record is stopped and consistent, carries the given id, name, notes and goal, and has zero elapsed time, count and live time |
| `Projects.Toggled` | main.js:183-205 | start/stop flips `isRunning` and changes only the clock fields. A start sets `lastStart = now` and keeps `elapsedTime`. A stop makes `elapsedTime` the live time at `now`, never decreasing it when now ≥ lastStart. The result is always consistent |
| `Projects.Ticked` | main.js:225-229 | a firing sets `lastStart = now`. On a running record it folds exactly the live time at `now` and leaves the live time at every instant unchanged. On a record with no start time it adds the whole clock reading and leaves the record inconsistent |
| `Projects.Resumed` | main.js:221-223 | running records get `lastStart = now`, stopped ones are unchanged, and consistency is kept. The live time drops by the time between the stored start and `now` |
| `Projects.StartStopAddsInterval` | main.js:185-199 | starting at t0 and stopping at t1 adds exactly t1 − t0 to `elapsedTime` and ends stopped with no start time |
| `Projects.StopFreezesLiveTime` | main.js:193-199 | after a stop at `now`, the live time at any later instant is the live time at `now` (the interval is folded once) |
| `Projects.TotalDuration` | main.js:197 | the summed session lengths are never negative when no session runs backwards |
| `Projects.SessionsAccumulate` | main.js:183-205 | any sequence of start/stop sessions from a stopped record adds exactly their total length to `elapsedTime` and changes nothing else |
| `Projects.TicksThenStop` | main.js:225-229 | any number of firings keeps a running record running and consistent, and stopping afterwards gives the same record as stopping without them |
| `Tracker.WithSlot` | main.js:190 | assigning a handle to slot i sets that slot and leaves every other slot as it was |
| `Tracker.ClearedSlot` | main.js:173-176 | clearing slot i empties that slot, keeps the array's length, and leaves every other slot as it was |
| `Tracker.TimeTracker.constructor` | main.js:4-6 | the tracker starts with the loaded list and no handles |
| `Tracker.TimeTracker.CreateProject` | main.js:122-136 | exactly one new record is appended after the unchanged old ones. Handles are unchanged and consistency is kept |
| `Tracker.TimeTracker.UpdateProject` | main.js:153-159 | only name, notes and goal of record i change. Its id, elapsed time, count, running flag and start are unchanged, as are all other records and the handles. An invalid index changes nothing |
| `Tracker.TimeTracker.DeleteProject` | main.js:162-180 | on confirmation the list becomes old[..i] + old[i+1..] and is one shorter. Slot i of `timers` is cleared and no other slot moves. The dropped record is stopped but keeps its start. A refusal or an invalid index changes nothing |
| `Tracker.TimeTracker.StartTimer` | main.js:183-208 | record i becomes `Toggled(record, now)` and no other record changes. Slot i holds a display interval after a start and is empty after a stop. Other slots are unchanged and consistency is kept |
| `Tracker.TimeTracker.AddCount` | main.js:211-215 | the count of record i rises by exactly one and nothing else changes |
| `Tracker.TimeTracker.Restore` | main.js:218-236 | every record becomes `Resumed(record, now)`. Exactly the running records' slots receive an accruing interval, and the other slots are unchanged |
| `Tracker.TimeTracker.Tick` | main.js:225-234 | record i becomes `Ticked(record, now)`. Other records and all slots are unchanged, and consistency is kept when the record was running |
| `Tracker.TimeTracker.Display` | main.js:30-69 | nothing is shown for an index with no record. Otherwise the shown time is the live time, and a progress figure appears exactly when the goal is positive and equals `CalculateProgress` of the live time |

## Left out

- Rendering, element lookup and the modal dialogs (`renderProjects`, the DOM parts of `updateProjectDisplay`, `openEditModal`, the show/hide handlers): presentation only.
- Persistence. `localStorage` load and save and the JSON round trip are I/O. The constructor takes the loaded list as a parameter, and every save is an unmodelled side effect.
- Scheduling. `setInterval` and `clearInterval` are timer concurrency. A handle is modelled only as present or absent, with its kind. A firing is the `Tick` method called with `now`, and the display-only refresh is the `Display` method.
- `Date.now()` and `confirm(...)`: both are parameters (`now` and `confirmed`).
- Form handling. `trim()`, `parseFloat(...) || 0`, `parseInt` and the hours-to-milliseconds conversion parse user input in floating point. The operations take the already converted values.
- The `toFixed(1)` labels and CSS width strings: float-to-string presentation.
- Tracker.TimeTracker.Tick: the source's firing callback holds the project object itself, not its index. The model addresses the firing by the record's current index. So it does not capture a firing that reaches a record after later deletions have shifted it, nor one on a record already removed from the list.
- Tracker.TimeTracker.Display: returns the numbers drawn, not the text. The time label is `FormatTime` of the shown time whenever that time is non-negative. A negative live time, possible only if the clock runs backwards, is not modelled.
- TimeFormat.FormatTime: defined for whole, non-negative milliseconds only. JavaScript's formatting of negative or fractional durations, and its exponent notation for hour counts of 10^21 or more, are not modelled.
- Progress.CalculateProgress: a missing or `NaN` goal, which `!goalTime` also treats as "no goal", is not modelled. Goals are reals, and IEEE rounding is not modelled.
- Handle identity: two handles of the same kind are indistinguishable, so an interval that is overwritten without being cleared (a leak in the source) is not tracked.
