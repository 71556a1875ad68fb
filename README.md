# ts-ant: session recorder, lifecycle and leaderboards

ts-ant records indoor-cycling sessions from ANT+ sensors. A Node bridge
(`ant-node-bridge/ant-bridge.cjs`) takes power samples from a fitness
equipment channel and a power-meter channel. It integrates them into
three statistics for the active session:

- total energy;
- the peak power;
- the best energy over any trailing 60 seconds.

The bridge starts a session on its own when power crosses a threshold.
It ends an auto-started session after 60 seconds unless that session is
ended or replaced first. It also serves the lock, start, end and rename routes and a
per-gender "today" leaderboard. A Next.js web app (`webapp/`) serves an
all-time leaderboard and a PIN-protected date-range leaderboard.

The model has seven modules:

- **JsValues** (`js_values.dfy`): JavaScript numbers (finite, NaN, the two
  infinities) and their truthiness. It covers the part of `Number(string)`
  the routes rely on. `String(i)` for integers is modelled with its round
  trip.
- **Ranking** (`ranking.dfy`): `arr.slice().sort((a, b) => key(b) - key(a))`
  as a stable descending insertion sort. `slice(0, n)` includes negative `n`.
  `filter` and `top` are here too. The sort is proved ordered, a permutation
  and stable, and it is the only arrangement with those properties.
- **RecorderSpec** (`recorder_spec.dfy`): the meaning of the recorder as
  functions of its accepted samples. These cover:
  - the intervals the samples close (power held from one sample to the next);
  - total energy and the peak;
  - the trailing window: intervals ending by the cutoff are evicted and a
    straddling front interval is clipped;
  - the best window energy and `toFixed1`.
- **Recorder** (`recorder.dfy`): the `SessionRecorder` class with its
  fields. `onPowerSample` is a method with the window-eviction loop, and
  `snapshot()` is a function. The invariant `Valid()` relates the fields to
  RecorderSpec evaluated on a ghost history of accepted samples:
  - the previous sample, the peak and the total are always functions of
    that history;
  - for any history, the window is well formed, `windowWh` is its sum, and
    `windowWh <= bestWh60 <= totalWh`;
  - the window and `bestWh60` equal the history's trailing window and best
    window only when the samples arrived in timestamp order.
- **Sensor** (`sensor.dfy`): `pickNum` as a loop, and the three extractors.
- **Lifecycle** (`lifecycle.dfy`): the bridge's module state as the class
  `Bridge`. Its parts:
  - the active recorder, the lock, the debounce stamp and the auto-end
    timer, its stamp and deadline;
  - the `sessions` table, as a map with an AUTOINCREMENT counter;
  - WebSocket broadcasts, as an event log.

  Its methods are the lifecycle functions, the two data handlers and the
  HTTP handlers. The today board reads the table. `Valid()` keeps these
  invariants:
  - at most one row is open, and it belongs to the active recorder;
  - a live timer is stamped with the active session's id.
- **Boards** (`boards.dfy`), **RangeLeaderboard** (`range_leaderboard.dfy`)
  and **Pins** (`pins.dfy`): the web app's leaderboards and its two PIN
  guards.

A `setTimeout` handle is a number drawn from a counter. The timer's
callback is the method `FireAutoEnd(handle, now)`, which does nothing for a
cancelled handle. The wall clock (`nowMs()`) and `todayStr()` are the
parameters `now` and `today`. `ADMIN_PIN` is a parameter in which "" stands
for an unset or empty variable. The grouped SQL query of the range route
is a function parameter `query`.

Some behaviours of the code that a reader might not expect:

- `onPowerSample` ignores a sample with `ts <= 0` (`!(ts > 0)`).
- `toFixed1` is `Math.round(n * 10) / 10`, which rounds halves upward. The
  recorder's values are never negative, and on them this agrees with
  rounding half away from zero.
- A rename does not touch the active recorder. The name it holds, and so
  the name in the `session_end` broadcast, is the one given at start. The
  row keeps the new name, because the end-of-session UPDATE does not write
  the name.

## Model

| member | source | states |
|---|---|---|
| Recorder.SessionRecorder.constructor | ant-node-bridge/ant-bridge.cjs:102-115 | a new recorder has the given identity, no previous sample, zero statistics and an empty window, and is consistent with the empty history |
| Recorder.SessionRecorder.OnPowerSample | ant-node-bridge/ant-bridge.cjs:116-153 | a sample with negative power or `ts <= 0` changes nothing. An accepted sample extends the history and sets the peak to the maximum and the previous sample to itself. A later sample adds the closed interval's energy to the total, makes the window the slide of the old window plus that interval, and raises the best to the new window sum. A sample that is not later leaves the window and the totals alone. The three statistics never decrease, and the recorder stays consistent |
| Recorder.SessionRecorder.CloseInterval | ant-node-bridge/ant-bridge.cjs:118-128 | closing an interval adds its energy (previous power times the elapsed ms over 3600000) to the total. It pushes the interval and slides the window, keeps `windowWh` equal to the window's sum and raises the best to it |
| Recorder.SessionRecorder.AdvanceWindow | ant-node-bridge/ant-bridge.cjs:121-147 | the push, the eviction loop and the front clip together turn the queue into `Slide(old + [seg], cutoff)`, with `windowWh` equal to its sum |
| Recorder.SessionRecorder.Snapshot | ant-node-bridge/ant-bridge.cjs:154-164 | the snapshot carries the identity. Each statistic is within 0.05 of the exact peak, best window (for time-ordered samples) and total energy of the history, and 0 <= best <= total |
| Recorder.IntervalStepConsistent | ant-node-bridge/ant-bridge.cjs:118-152 | after a later sample, the updated fields are consistent with the history extended by it |
| Recorder.IntervalStepHistory | ant-node-bridge/ant-bridge.cjs:118-128 | a later sample adds exactly one interval, at the previous power, to the history's intervals and its energy to the total |
| Recorder.IntervalStepWindow | ant-node-bridge/ant-bridge.cjs:130-147 | sliding after the push keeps the window well formed with a non-negative sum no larger than before plus the new interval, and its front after the cutoff |
| Recorder.IntervalStepChained | ant-node-bridge/ant-bridge.cjs:130-148 | for time-ordered samples, the slid window and the raised best are the trailing window and the best of the extended history |
| Recorder.NoStepConsistent | ant-node-bridge/ant-bridge.cjs:116-153 | the first sample, or one not later than the previous, keeps window and totals and stays consistent |
| Recorder.PeakStep | ant-node-bridge/ant-bridge.cjs:150 | the peak after a sample is the maximum of the old peak and its power |
| RecorderSpec.ToFixed1 | ant-node-bridge/ant-bridge.cjs:38-40 | the result is within 0.05 of the input (half rounds up) and is a whole number of tenths |
| RecorderSpec.ToFixed1Monotone | ant-node-bridge/ant-bridge.cjs:38-40 | rounding preserves order |
| RecorderSpec.ToFixed1Idempotent | ant-node-bridge/ant-bridge.cjs:38-40 | rounding an already rounded value changes nothing |
| RecorderSpec.EnergyNonNegative | ant-node-bridge/ant-bridge.cjs:120 | a non-negative power over a non-negative span gives non-negative energy |
| RecorderSpec.EnergyMonotone | ant-node-bridge/ant-bridge.cjs:120 | a longer span at the same non-negative power gives at least as much energy |
| RecorderSpec.SumWhAppend | ant-node-bridge/ant-bridge.cjs:127 | the energy of a concatenation of interval queues is the sum of their energies |
| RecorderSpec.SumWhNonNegative | ant-node-bridge/ant-bridge.cjs:127-145 | a queue of well-formed intervals has non-negative energy |
| RecorderSpec.DropEndedIsSuffix | ant-node-bridge/ant-bridge.cjs:131-135 | eviction removes exactly the leading intervals that end by the cutoff, and stops at the first that ends after it |
| RecorderSpec.DropEndedProperties | ant-node-bridge/ant-bridge.cjs:131-135 | eviction keeps well-formedness and contiguity, never adds energy, and keeps a queue whose last interval ends after the cutoff non-empty |
| RecorderSpec.ClipFrontProperties | ant-node-bridge/ant-bridge.cjs:137-147 | clipping keeps well-formedness, contiguity and the length, never adds energy, and moves the front's start to no earlier than the cutoff |
| RecorderSpec.SlideProperties | ant-node-bridge/ant-bridge.cjs:130-147 | a slide keeps well-formedness and contiguity, never adds energy, and leaves the front starting at or after the cutoff and ending after it |
| RecorderSpec.SlideAppendLive | ant-node-bridge/ant-bridge.cjs:130-147 | intervals wholly after the cutoff pass through a slide untouched, at the back |
| RecorderSpec.SlideTwice | ant-node-bridge/ant-bridge.cjs:130-147 | sliding to a cutoff and then to a later one is sliding to the later one |
| RecorderSpec.DropEndedTwice | ant-node-bridge/ant-bridge.cjs:131-135 | evicting to a cutoff and then to a later one is evicting to the later one |
| RecorderSpec.WindowAtStep | ant-node-bridge/ant-bridge.cjs:118-147 | a sample appends the interval it closes, and the trailing window after it is the slide of the previous window plus that interval |
| RecorderSpec.IntervalsNoStep | ant-node-bridge/ant-bridge.cjs:118 | a sample with the previous timestamp closes no interval |
| RecorderSpec.IntervalsWellFormed | ant-node-bridge/ant-bridge.cjs:118-126 | every closed interval has positive length, non-negative power and the energy of that power over it |
| RecorderSpec.IntervalsSplit | ant-node-bridge/ant-bridge.cjs:118-128 | the intervals up to a sample followed by those from it on are all the intervals |
| RecorderSpec.TotalIsPairwise | ant-node-bridge/ant-bridge.cjs:118-128 | with strictly increasing timestamps, the total is the sum over consecutive sample pairs of the earlier power times the gap |
| RecorderSpec.ChainedIntervals | ant-node-bridge/ant-bridge.cjs:121-126 | for time-ordered samples the intervals are contiguous and the last ends at the last sample |
| RecorderSpec.PeakIsMaximum | ant-node-bridge/ant-bridge.cjs:150 | the peak is at least 0 and every accepted power, and it is 0 or one of them |
| RecorderSpec.PeakMonotone | ant-node-bridge/ant-bridge.cjs:150 | the peak after a prefix of the samples is at most the peak after all |
| RecorderSpec.TotalMonotone | ant-node-bridge/ant-bridge.cjs:128 | the total after a prefix is at most the total after all |
| RecorderSpec.BestMonotone | ant-node-bridge/ant-bridge.cjs:148 | the best after a prefix is at most the best after all |
| RecorderSpec.WindowWithinTotal | ant-node-bridge/ant-bridge.cjs:127-147 | the trailing window holds between 0 and the whole session's energy |
| RecorderSpec.BestWithinTotal | ant-node-bridge/ant-bridge.cjs:148 | the best window energy lies between 0 and the total |
| RecorderSpec.WindowAtShape | ant-node-bridge/ant-bridge.cjs:130-147 | for time-ordered samples the trailing window is well formed and contiguous, lies within the 60 s before the last sample, and ends at it |
| RecorderSpec.RecentIntervalsLive | ant-node-bridge/ant-bridge.cjs:131-135 | no interval of a run spanning at most 60 s is evicted or clipped at the cutoff of its last sample |
| RecorderSpec.WindowCoversRecentSuffix | ant-node-bridge/ant-bridge.cjs:130-147 | the trailing window holds at least the energy of every run of samples ending at the last one and starting within 60 s of it |
| RecorderSpec.BestCoversShortRuns | ant-node-bridge/ant-bridge.cjs:148 | the best window energy is at least the energy of every run of samples spanning at most 60 s |
| RecorderSpec.RunIntervalsAfter | ant-node-bridge/ant-bridge.cjs:121-126 | every interval of a time-ordered run lies between its first and its last sample |
| Sensor.FirstFiniteIsFirst | ant-node-bridge/ant-bridge.cjs:267-273 | a value is found exactly when some key holds a finite number, and it is at a key before which none does |
| Sensor.PickNum | ant-node-bridge/ant-bridge.cjs:267-273 | the loop returns the value at the first key holding a finite number, or null |
| Sensor.ExtractPower | ant-node-bridge/ant-bridge.cjs:274-281 | the first finite of `instantaneousPower`, `InstantaneousPower`, `Power`, `CalculatedPower` |
| Sensor.ExtractCadence | ant-node-bridge/ant-bridge.cjs:282-284 | the first finite of `cadence`, `Cadence`, `CalculatedCadence` |
| Sensor.ExtractSpeedKph | ant-node-bridge/ant-bridge.cjs:285-288 | null exactly when no speed key holds a finite number, else that speed in m/s times 3.6 |
| Sensor.PowerKeyPrecedence | ant-node-bridge/ant-bridge.cjs:274-281 | a finite `instantaneousPower` wins, a NaN there falls through to `Power`, and a null message gives null |
| Lifecycle.Upper | ant-node-bridge/ant-bridge.cjs:426 | `toUpperCase()` keeps the length and upper-cases each letter |
| Lifecycle.GenderCheck | ant-node-bridge/ant-bridge.cjs:426-427 | the gender test accepts exactly "M", "m", "F" and "f" |
| Lifecycle.FinishedRowsExact | ant-node-bridge/ant-bridge.cjs:471-475 | the query's rows are exactly the finished sessions of the date, each once, in increasing id order |
| Lifecycle.Bridge.constructor | ant-node-bridge/ant-bridge.cjs:183-187 | at start nothing is locked, active or armed, the table is empty and the first id is 1 |
| Lifecycle.Bridge.ClearAutoEnd | ant-node-bridge/ant-bridge.cjs:189-196 | the timer is cancelled and its stamp and deadline are reset |
| Lifecycle.Bridge.RemainingMs | ant-node-bridge/ant-bridge.cjs:197-199 | the remaining time is never negative and is 0 or the time to the deadline, whichever is larger |
| Lifecycle.Bridge.CurrentSnapshot | ant-node-bridge/ant-bridge.cjs:464-466 | null exactly when no session is active; otherwise the snapshot of the active session, whose row is open |
| Lifecycle.Bridge.BuildSessionFromCurrent | ant-node-bridge/ant-bridge.cjs:224-234 | the session info carries the active session's identity and start, today's date, and a non-negative time to auto-end |
| Lifecycle.Bridge.EndCurrentSession | ant-node-bridge/ant-bridge.cjs:200-211 | with no active session nothing changes. Otherwise only that session's row gains the end time and the rounded statistics, the end with its reason is broadcast and returned, and the timer state is reset. Afterwards no row is open |
| Lifecycle.Bridge.ScheduleAutoEnd | ant-node-bridge/ant-bridge.cjs:212-222 | the old timer is cancelled. With an active session a fresh timer is armed, stamped with its id, due `ms` later; without one nothing is armed |
| Lifecycle.Bridge.FireAutoEnd | ant-node-bridge/ant-bridge.cjs:217-221 | a cancelled timer changes nothing. The live one always finds its session active and ends it with `auto60s`: only that row is closed with the end time and rounded statistics, the end is broadcast, and the timer state is reset. The lock, the debounce stamp and the next id are kept. The handle counter never decreases, here and in every other handler, so a cancelled handle is never given out again |
| Lifecycle.Bridge.DoAutostart | ant-node-bridge/ant-bridge.cjs:236-264 | while locked: blocked and nothing changes. With an active session, its info is re-broadcast and nothing else changes. Otherwise a new open row "", "U" gets the next id, with a recorder and a 60 s timer stamped with it, and its start is broadcast |
| Lifecycle.Bridge.OpenSession | ant-node-bridge/ant-bridge.cjs:250-258 | a new open row with zero statistics under the next id, whose recorder becomes the active session |
| Lifecycle.Bridge.GateAndRecord | ant-node-bridge/ant-bridge.cjs:333-346 | when unlocked, idle, the power is at least the threshold and the debounce has passed: the attempt time is noted and an anonymous session starts. Its row is inserted under the next id and a 60 s timer is armed for it. The triggering sample is its first. Otherwise only the active recorder, if any, takes the sample, and the table, the events, the debounce stamp and the timer with its stamp and deadline are kept |
| Lifecycle.Bridge.AutostartAndRecord | ant-node-bridge/ant-bridge.cjs:339-346 | a passed gate starts an anonymous session with a 60 s timer and records the sample that triggered it |
| Lifecycle.Bridge.RecordSample | ant-node-bridge/ant-bridge.cjs:345-346 | the active recorder's history gains the sample exactly when a power was read and the sample is accepted |
| Lifecycle.Bridge.OnSensorData | ant-node-bridge/ant-bridge.cjs:325-347 | data of another profile changes nothing. Otherwise the telemetry is broadcast first. When the gate passes, the anonymous row is inserted under the next id, an anonymous recorder records the sample and a 60 s timer is armed, and the start is broadcast. When it does not pass, only the active recorder takes the sample: the table, the debounce stamp and the timer with its stamp and deadline are kept. The PWR handler at 359-382 is the same without speed |
| Lifecycle.Bridge.Broadcast | ant-node-bridge/ant-bridge.cjs:327-331 | the broadcast is the `Telemetry` event: the extracted power, cadence and, on FE, the speed in km/h. The power it returns is the extracted one |
| Lifecycle.Bridge.SetLock | ant-node-bridge/ant-bridge.cjs:415-420 | the reply is the new lock. Unlocking changes nothing else: session, table, events and timer stay as they were. Locking while idle leaves the table and the events alone. Locking during a session closes only its row, broadcasts its end with `locked_by_ui`, and resets the timer |
| Lifecycle.Bridge.StartManual | ant-node-bridge/ant-bridge.cjs:424-444 | an empty name or a gender other than M/F in either case gives 400 and no change. Otherwise the table becomes the old one, with the previous active row (if any) closed and its end broadcast with `pre_manual_start`, plus one new open row under the next id with the upper-cased gender. That row's session becomes active, nothing else is broadcast, and no timer is armed |
| Lifecycle.Bridge.EndRequest | ant-node-bridge/ant-bridge.cjs:446-449 | the reply is null exactly when no session was active, and then nothing changes. Otherwise the reply is its end with reason `api`: only its row is closed, the end is broadcast and the timer state is reset. The lock, the debounce stamp and the next id are kept |
| Lifecycle.Bridge.Rename | ant-node-bridge/ant-bridge.cjs:452-461 | a zero id, empty name or bad gender gives 400 and no change. Otherwise only the row with that id gets the name and upper-cased gender, and the reply says whether such a row existed |
| Lifecycle.Bridge.TodayBoardRows | ant-node-bridge/ant-bridge.cjs:469-490 | today's board ranks exactly today's finished sessions; the active session is on none of its lists |
| Boards.TopOfGender | webapp/app/api/leaderboard/all/route.ts:9-14 | a list has at most five rows, and exactly min(5, n). All are of its gender and taken from its rows, best first, and no row left out beats one kept |
| Boards.TopByRanked | webapp/app/api/leaderboard/all/route.ts:9-14 | `top` is best first, keeps part of its input, and nothing left out beats anything kept |
| Boards.TopRowsOfGender | webapp/app/api/leaderboard/all/route.ts:31-32 | what is taken from one gender's filtered rows is of that gender |
| Boards.BoardProperties | webapp/app/api/leaderboard/all/route.ts:31-40 | each of the four lists keeps the promises above for its gender and column; the men's and the women's rows together are exactly the rows of gender M or F |
| Boards.BoardListsComeFromRows | webapp/app/api/leaderboard/all/route.ts:9-13 | every list is a sub-multiset of the rows it was built from |
| Boards.AllLeaderboard | webapp/app/api/leaderboard/all/route.ts:16-44 | a query error gives 500 with its message; otherwise the board labelled "ALL" |
| Ranking.SortDesc | webapp/app/api/leaderboard/all/route.ts:10-12 | the sort is a permutation of its input |
| Ranking.SortDescSorted | webapp/app/api/leaderboard/all/route.ts:12 | the sort's keys never increase |
| Ranking.SortDescStable | webapp/app/api/leaderboard/all/route.ts:12 | elements with equal keys keep their input order |
| Ranking.SortDescUnique | webapp/app/api/leaderboard/all/route.ts:10-12 | any ordered, stable rearrangement of the input is the sort's result |
| Ranking.SliceEnd | webapp/app/api/leaderboard/all/route.ts:13 | `slice(0, n)` keeps min(n, len) for n >= 0, and drops -n from the end for n < 0 |
| Ranking.TopLength | webapp/app/api/leaderboard/all/route.ts:9-14 | `top` has min(n, len) elements for n >= 0 |
| Ranking.TopIsBestPrefix | webapp/app/api/leaderboard/all/route.ts:9-14 | `top` is an ordered prefix of the sort, a sub-multiset of its input, and dominates everything it leaves out |
| Ranking.FilterMembers | webapp/app/api/leaderboard/all/route.ts:31 | the filter keeps only elements of its input that satisfy the predicate |
| Ranking.FilterPartition | webapp/app/api/leaderboard/all/route.ts:31-32 | two filters with disjoint predicates together keep exactly what their union keeps |
| RangeLeaderboard.ProjectAll | webapp/app/api/admin/range/leaderboard/route.ts:30-36 | the map keeps the length and projects each row in place |
| RangeLeaderboard.Trunc | webapp/app/api/admin/range/leaderboard/route.ts:28 | truncation toward zero: the integer lies within 1 of the value, on the side of zero |
| RangeLeaderboard.TakeEnd | webapp/app/api/admin/range/leaderboard/route.ts:27-28 | the limit never keeps more than the list |
| RangeLeaderboard.ListByLength | webapp/app/api/admin/range/leaderboard/route.ts:27-28 | absent, "all", 0, NaN and infinite limits keep all. Otherwise the slice end of the truncated limit is kept: none for 0 < limit < 1, at most the limit when it is >= 1 |
| RangeLeaderboard.ListByAnyStableSort | webapp/app/api/admin/range/leaderboard/route.ts:23-28 | any best-first ordering of the rows that keeps rows with equal values in input order gives the same entries, cut at the same limit |
| RangeLeaderboard.ListByDominates | webapp/app/api/admin/range/leaderboard/route.ts:23-28 | no row whose entry is left out has a larger value in the ranked column than any entry kept |
| RangeLeaderboard.ListByRanked | webapp/app/api/admin/range/leaderboard/route.ts:23-25 | entries come best first by the ranked column, with NULL as 0 |
| RangeLeaderboard.ListByFields | webapp/app/api/admin/range/leaderboard/route.ts:30-36 | every entry copies one input row's name, gender and values, with the id of the chosen id column |
| RangeLeaderboard.LimitWholeList | webapp/app/api/admin/range/leaderboard/route.ts:45-47 | an absent, empty or "all" parameter means all rows; "0", "ten" and "Infinity" also return the whole list |
| RangeLeaderboard.DecimalLimit | webapp/app/api/admin/range/leaderboard/route.ts:45-47 | a positive limit written in digits keeps min(limit, n) entries, with the limit read as an exact decimal (see the number line under Left out) |
| RangeLeaderboard.FractionalLimit | webapp/app/api/admin/range/leaderboard/route.ts:28 | 0.5 keeps nothing while 0 keeps everything, and -1 drops the last entry |
| RangeLeaderboard.PinFailureIs401 | webapp/app/api/admin/range/leaderboard/route.ts:42 | a rejected PIN answers 401 "Unauthorized" whatever the other parameters |
| RangeLeaderboard.MissingRangeIs400 | webapp/app/api/admin/range/leaderboard/route.ts:49-51 | with the right PIN, a missing or empty `from` or `to` answers 400 "from/to required" |
| RangeLeaderboard.QueryErrorIs500 | webapp/app/api/admin/range/leaderboard/route.ts:107-109 | a failing query answers 500 with its message |
| RangeLeaderboard.RangeBoardPartition | webapp/app/api/admin/range/leaderboard/route.ts:96-105 | on success the board echoes the range, the men's lists hold only men and the women's only women, and the two filters split the M/F rows |
| RangeLeaderboard.EntriesOfGender | webapp/app/api/admin/range/leaderboard/route.ts:96-97 | a list built from one gender's filtered rows has only that gender |
| Pins.RequirePin | webapp/lib/db.ts:25-33 | accepts exactly when a PIN is configured and the query pin equals it; otherwise 401 "Unauthorized" |
| Pins.RequireAdminPin | webapp/lib/admin.ts:2-18 | accepts everything while no PIN is configured; otherwise accepts exactly when the first truthy of header, body pin and query pin, as a string, equals it, else 401 "bad pin" |
| Pins.UnsetPinPolicies | webapp/lib/admin.ts:3-5 | without a PIN the range guard refuses every request and the admin guard lets every request through |
| Pins.RequirePinMissingParam | webapp/lib/db.ts:26 | a missing query pin counts as the empty one and is refused, while the right one is accepted |
| Pins.NumericBodyPin | webapp/lib/admin.ts:7-12 | a non-zero integer body pin matches the PIN written as its decimal digits, for integers that JavaScript prints without an exponent and holds exactly (see the number line under Left out) |
| Pins.HeaderTakesPrecedence | webapp/lib/admin.ts:7-9 | a non-empty header decides alone |
| Pins.FalsyBodyFallsThrough | webapp/lib/admin.ts:7-12 | a falsy body pin (0, false, "") falls through to the query pin |
| JsValues.IntDecimalRoundTrip | webapp/app/api/admin/range/leaderboard/route.ts:47 | `Number(String(i))` is `i` for every integer, in the model's exact arithmetic (see the number line under Left out) |
| JsValues.NatDecimalRoundTrip | webapp/app/api/admin/range/leaderboard/route.ts:47 | decimal printing of a natural number and parsing it back are inverse |

## Left out

- I/O: the ANT+ stick, the scan and attach code, the WebSocket server and
  its clients, and Express and Next.js request parsing. Broadcasts are an
  event log, and the routes take their parsed inputs as parameters.
- SQL: the tables are a map from id to row with a counter for the next
  AUTOINCREMENT id. The table starts empty. The bridge is taken to be the
  only writer of the table, which `Valid()` needs (the active session's row
  exists). In the source the web app's admin DELETE
  (`webapp/app/api/admin/sessions/[id]/route.ts`) can remove any row, the
  active one included. The end-of-session UPDATE then changes no row, and
  `CloseRow` does not describe that case. Rows are read in ascending id
  order, which SQLite does not guarantee without ORDER BY. The grouped
  range query (GROUP BY on the trimmed, lower-cased name) is a function
  parameter, not modelled. `ensureSchema` and its migration, `openSqlite`,
  the stats, export, backup and admin session routes, and the UI are not
  part of this model.
- Time: `nowMs()` and `todayStr()` are the parameters `now` and `today`.
  Each operation takes one value `now`, where the source reads the clock
  separately at each of these places:
  - the data handlers (ant-bridge.cjs:327 and 361);
  - `doAutostart` for the row's start (251);
  - the `SessionRecorder` constructor for the recorder's start (106);
  - `scheduleAutoEnd` for the deadline (216);
  - `remainingMs` (198);
  - the manual start (432);
  - `endCurrentSession`, twice (205 and 206).
- Lifecycle.Bridge.DoAutostart: states `autoMs == 60000`, and with `Valid()`
  equal start times for the row and the recorder. Both hold only when those clock reads
  return the same millisecond. In the source `autoMs` can be a few ms below
  60000, and the recorder's `start_ts` can be later than the row's.
- Timers: `setTimeout` and `clearTimeout` are a handle counter. A timer
  firing is a call of `FireAutoEnd` with the handle its caller chooses.
- Floating point: watts, watt-hours and km/h are exact reals, so rounding
  error in the energy sums is not modelled. A NaN power would be rejected
  by `!(power >= 0)`. It cannot reach `onPowerSample`, because `pickNum`
  returns only finite numbers, so a sample's power is a real.
- JavaScript numbers at the routes: a parsed number is the exact decimal
  value, not the nearest double, and integers are unbounded. So
  `Number("1.9999999999999999")` is 2 in JavaScript, but in the model it is
  below 2 and a limit written that way keeps one entry. `String(i)` matches
  JavaScript only for |i| < 10^21 and exact integers (|i| <= 2^53); outside
  that range the `NumericBodyPin` agreement and the round trips hold only in
  the model.
- Lifecycle.Bridge.AutostartGate: `AUTO_THRESHOLD_W` and `AUTO_DEBOUNCE_MS`
  (`Number(process.env... || default)`) are the constants `threshold` and
  `debounceMs`, taken to be finite numbers. A non-numeric setting makes
  them NaN and an infinite one makes them +Infinity or -Infinity. In the
  source, NaN or +Infinity keeps the gate shut forever, and -Infinity
  lets the comparison always pass. The model does not express those
  settings.
- Lifecycle.Bridge.OnSensorData: one method covers both the FE and the PWR
  handler (they differ only in the profile name and the speed field). The
  WebSocket `id` is an integer device number.
- The `POST /api/session/autostart` and `GET /api/autostart/status`
  wrappers only forward `doAutostart()` and the lock to JSON, and are not
  modelled. The default reason `manual` of `endCurrentSession` is never
  used by a caller. It exists only as the constructor `Manual`.
- Request bodies: `name` and `gender` are strings, with "" for a missing
  value. The lock route's `!!req.body?.lock` is a `bool` parameter; the
  truthiness of other body values is not modelled. `id` is an integer, where 0 is the only falsy id. Non-string JSON
  values for them are not modelled. `toUpperCase` is modelled for ASCII
  letters only.
- Pins.RequireAdminPin: the body pin is absent, a string, an integer or a
  boolean. Floating-point, object and array pins and their `String()`
  forms are not modelled.
- JsValues.StringToNumber: models `Number(s)` for an optional sign,
  decimal digits with an optional fraction, and "Infinity". Surrounding
  whitespace, hexadecimal, binary, octal and exponent forms parse as NaN
  in the model; JavaScript parses them as numbers.
- The CSV export, the euro statistics and the admin day listing are
  outside the modelled core.
