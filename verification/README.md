# PlayStation café manager: billing engine in Dafny

This project models the billing engine of a PlayStation café manager, a
browser application that rents consoles ("devices") by time. The model covers:

- **Cost calculator** (`calculateCost`). The elapsed time of a session is billed
  in whole minutes, rounded up.
  - A *timed* session prepays its booked minutes whatever it uses. It is in
    overtime once the billed minutes exceed the booking, and each extra minute
    costs the same per-minute price.
  - An *open* session pays for its billed minutes and has no overtime.
  - The game cost is the sum rounded up to a whole currency unit.
- **Time formatter** (`formatTime`). It renders milliseconds as `hh:mm:ss`
  with JavaScript's `%`, `Math.floor` and `padStart` semantics, for every
  integer input. A reader `Clock.ParseClock` recovers the fields.
- **Device list and session lifecycle**:
  - *start* (`confirmStartSession`) attaches a fresh session to a device;
  - *close* (`applyAndClose`) bills the session, appends an archive record to
    the history and frees the device;
  - the available/busy tally (`updateSummaryCounts`);
  - one heartbeat tick (`updateDashboardTimers`), which computes each busy
    card's elapsed time, rounded cost and overtime alert.

Time is integer milliseconds and currency is exact `real`. The device list and
the history are plain values passed in and returned. `now`, the new session id
and the cashier's name are parameters.

Modules: `Arith` (JavaScript rounding), `Options` (optional values and results),
`Sessions` (sessions, orders, games, the orders total), `Cost` (the calculator),
`Clock` (the formatter), `Devices` (start, close, tally, tick).

Facts about `script_ORIGINAL_BACKUP.js` that shape the model:

- Devices have only the statuses `available` and `busy`. The program has no
  pause, no overtime status and no transfer.
- Start does not check that the chosen device is available: it replaces any
  session already on the device. In the application only free cards offer the
  start button.
- Elapsed minutes are rounded *up* for the live card as well as for the final
  bill.
- A timed start is refused when `h*60 + m <= 0`. A missing game is not
  validated; the original would crash on it.

## Model

| member | source | states |
|---|---|---|
| `Arith.Ceil` | script_ORIGINAL_BACKUP.js:405 | `Math.ceil` of an amount is an integer `n` with `x <= n < x + 1` |
| `Arith.CeilDiv` | script_ORIGINAL_BACKUP.js:375 | `Math.ceil(a / b)` for `b > 0` is the integer `q` with `(q-1)*b < a <= q*b` |
| `Arith.TruncDiv` | script_ORIGINAL_BACKUP.js:509-510 | the integer part of `a / b` (`b > 0`): the floor quotient for `a >= 0`, and for `a < 0` the `q` with `(q-1)*b < a <= q*b`, that is rounded toward zero |
| `Cost.PricePerMinute` | script_ORIGINAL_BACKUP.js:377 | the per-minute price times 60 gives back the hourly rate |
| `Cost.BilledMinutes` | script_ORIGINAL_BACKUP.js:374-375 | billed minutes `m` satisfy `(m-1)*60000 < durationMs <= m*60000`, so a started minute bills in full |
| `Cost.PartialMinuteBillsWhole` | script_ORIGINAL_BACKUP.js:375 | 61 000 ms bill as 2 minutes, 60 000 ms as 1, 0 ms as 0 |
| `Cost.CalculateCost` | script_ORIGINAL_BACKUP.js:371-407 | duration is `now - start`; billed minutes bracket it as above; overtime holds iff the session is timed and billed minutes exceed the booking, and then overtime minutes are the positive excess, otherwise 0 with zero overtime cost; timed base is booked minutes × rate/60, open base is billed minutes × rate/60; total is the least integer not below base + overtime |
| `Cost.CostIsChargedMinutes` | script_ORIGINAL_BACKUP.js:384-396 | base + overtime equals an independent reference: `max(booked, billed)` minutes for a timed session, billed minutes for an open one, at rate/60 |
| `Cost.TimedWithinBookingPaysPrepaid` | script_ORIGINAL_BACKUP.js:384-405 | a timed session whose elapsed time is within the booking is not in overtime and costs `ceil(booked × rate/60)` |
| `Cost.TimedBaseIndependentOfClock` | script_ORIGINAL_BACKUP.js:384-386 | a timed session's base cost is the same at any two instants |
| `Cost.OpenNeverOvertime` | script_ORIGINAL_BACKUP.js:393-396 | an open session is never in overtime, has zero overtime cost and costs its base rounded up |
| `Cost.OvertimeIffPastBooking` | script_ORIGINAL_BACKUP.js:374-390 | overtime holds exactly when the session is timed and the elapsed milliseconds strictly exceed booked minutes × 60000 |
| `Cost.OvertimePersists` | script_ORIGINAL_BACKUP.js:388-390 | once in overtime, a session stays in overtime later, with no fewer overtime minutes |
| `Cost.TotalCostMonotone` | script_ORIGINAL_BACKUP.js:371-407 | with a non-negative rate the rounded total never decreases as the clock advances |
| `Cost.TimedOvertimeExample` | script_ORIGINAL_BACKUP.js:384-405 | 10 booked minutes at 30/hour used for 12 minutes: base 5, overtime 2 minutes costing 1, total 6 |
| `Cost.OpenExamples` | script_ORIGINAL_BACKUP.js:393-405 | an open session of 45 minutes at 20/hour costs 15; one of 61 s at 15/hour has base 0.5 (2 minutes) |
| `Cost.WholeSumExample` | script_ORIGINAL_BACKUP.js:384-405 | 10 booked minutes at 25/hour used for 60: 50 overtime minutes, base + overtime exactly 25, bill 25 |
| `Clock.SecondsField` | script_ORIGINAL_BACKUP.js:509 | `Math.floor((ms/1000) % 60)` with JavaScript's sign-of-dividend `%`: for `ms >= 0` it is `floor(ms/1000) mod 60`, in 0..59; for `ms < 0` it lies in -60..0 |
| `Clock.MinutesField` | script_ORIGINAL_BACKUP.js:510 | `Math.floor((ms/60000) % 60)`: for `ms >= 0` it is `floor(ms/60000) mod 60`, in 0..59; for `ms < 0` it lies in -60..0 |
| `Clock.HoursField` | script_ORIGINAL_BACKUP.js:511 | the hours `h` satisfy `h*3600000 <= ms < (h+1)*3600000`, so the hours are rounded down |
| `Clock.ToDecimal` | script_ORIGINAL_BACKUP.js:509-511 | `toString()` of a non-negative integer is a non-empty digit string that reads back as the number, with no leading zero unless it is the single digit 0, and at most two characters below 100; of a negative one, '-' followed by digits reading back as its magnitude |
| `Clock.PadStart2` | script_ORIGINAL_BACKUP.js:509-511 | `padStart(2, '0')` has length `max(2, |t|)`, ends with `t` and is '0' before it |
| `Clock.PaddedField` | script_ORIGINAL_BACKUP.js:509-511 | a non-negative field written with `toString().padStart(2, '0')` has at least two characters, exactly two below 100, and a longer one starts with a non-zero digit |
| `Clock.FieldsOfNonNegative` | script_ORIGINAL_BACKUP.js:508-511 | for `ms >= 0` the seconds and minutes fields lie in 0..59, hours are non-negative, and `h*3600 + m*60 + s == floor(ms/1000)` |
| `Clock.FormatTimeRoundTrip` | script_ORIGINAL_BACKUP.js:508-513 | for `ms >= 0` the rendered text parses back to exactly its three fields, which count `floor(ms/1000)` seconds |
| `Clock.FormatTime` | script_ORIGINAL_BACKUP.js:508-513 | for `ms >= 0` the text has ':' 3 and 6 places from the end, is exactly 8 characters below 100 hours, and a longer text starts with a non-zero digit; with `Clock.FormatTimeRoundTrip` (and `Clock.PaddedRoundTrip` for the fields) this leaves only the program's text, e.g. "00:05:09" for 309 000 ms |
| `Clock.PaddedRoundTrip` | script_ORIGINAL_BACKUP.js:509-511 | a field written in decimal and padded to two characters reads back as the same number |
| `Sessions.OrdersTotalIsSum` | script_ORIGINAL_BACKUP.js:456 | the left-to-right `reduce` over order totals equals the independent right-fold sum |
| `Sessions.OrdersTotalAppend` | script_ORIGINAL_BACKUP.js:358 | the orders total of two concatenated lists is the sum of their totals |
| `Sessions.OrdersTotal` | script_ORIGINAL_BACKUP.js:456 | the `reduce` over order totals is non-negative when no order is negative; `Sessions.OrdersTotalIsSum` equates it with the reference sum |
| `Devices.FindIndex` | script_ORIGINAL_BACKUP.js:292 | the result is the first index whose id matches, and it is missing iff no device has that id |
| `Devices.ConfirmStartSession` | script_ORIGINAL_BACKUP.js:276-306 | a timed start with `h*60+m <= 0` aborts with the list unchanged; an unknown device id leaves it unchanged; otherwise the first device with the id becomes busy, keeps its id/name/kind, gets a session with the game's id, name and rate, start time `now`, no orders and limit `h*60+m` (timed, positive) or 0 (open); every other device is unchanged |
| `Devices.StartKeepsConsistency` | script_ORIGINAL_BACKUP.js:292-304 | if every device is available exactly when it has no session, that still holds after a start |
| `Devices.ApplyAndClose` | script_ORIGINAL_BACKUP.js:453-477 | fails without change iff the id is unknown or the device has no session; otherwise the history grows by exactly one record at the end, keeping the old prefix. The record holds the session, end time `now`, the billed minutes, game cost = the rounded total, orders cost = the reference sum of order totals, grand total = game cost + orders cost, and the device id, name and cashier. The device becomes available with no session; every other device is unchanged |
| `Devices.CloseKeepsConsistency` | script_ORIGINAL_BACKUP.js:476-477 | closing preserves "available exactly when no session" for every device |
| `Devices.DetailsTotal` | script_ORIGINAL_BACKUP.js:358-359 | the details panel's total is the rounded game cost plus the reference sum of the order amounts, and is at least the game cost when no order is negative |
| `Devices.ArchivedTotalMatchesDetails` | script_ORIGINAL_BACKUP.js:358-359 | closing a device that has a session succeeds, and the archived grand total equals the total the details panel shows at that moment |
| `Devices.StartThenCloseRestoresDevices` | script_ORIGINAL_BACKUP.js:292-477 | starting a session on a free device and then closing it succeeds, gives back the original device list, and archives a record with no orders whose grand total is its game cost |
| `Devices.CloseOpenSessionExample` | script_ORIGINAL_BACKUP.js:455-464 | closing an open 45-minute session at 20/hour with one order of 10 archives game cost 15, orders 10, grand total 25 and frees the device |
| `Devices.CountStatus` | script_ORIGINAL_BACKUP.js:238-239 | the filtered count is at most the list length, is 0 iff no device has the status, and equals the length iff every device has it |
| `Devices.SummaryCounts` | script_ORIGINAL_BACKUP.js:237-239 | the available and busy counts add up to the number of devices |
| `Devices.CountsPartition` | script_ORIGINAL_BACKUP.js:237-239 | every device is counted exactly once, as available or as busy |
| `Devices.CountAfterUpdate` | script_ORIGINAL_BACKUP.js:237-239 | replacing one device changes a count by exactly what the old and the new device contribute |
| `Devices.StartMovesOneToBusy` | script_ORIGINAL_BACKUP.js:237-239 | a successful start on an available device lowers the available count by one and raises the busy count by one |
| `Devices.CloseMovesOneToAvailable` | script_ORIGINAL_BACKUP.js:237-239 | closing the session of a busy device raises the available count by one and lowers the busy count by one |
| `Devices.DashboardTick` | script_ORIGINAL_BACKUP.js:210-235 | there is one entry per device, present iff the device is busy with a session; it carries the elapsed milliseconds and the rounded cost; the overtime alert is raised iff the session is timed and its elapsed time strictly exceeds the booking |
| `Devices.CardView` | script_ORIGINAL_BACKUP.js:213-231 | the tick updates a card's timer and cost iff the device is busy with a session; the card carries the elapsed time and the rounded cost, and its alert flag holds iff the session is timed and the elapsed time is past the booking |
| `Devices.TickTimerShowsElapsedSeconds` | script_ORIGINAL_BACKUP.js:219 | on a running device whose clock is not behind its start, the tick's timer text reads back as the whole seconds elapsed |

## Left out

- Pause/resume, booked-time extension, rate change, transfer, invoices with tax and period reports do not exist in `script_ORIGINAL_BACKUP.js`, so they are not modelled.
- Rendering is not modelled: the device grid, modals, the invoice preview rows (including their per-line `Math.ceil`), `setText` and the status badges are UI.
- Storage is not modelled. `localStorage`/`sessionStorage`, `saveData`/`loadData` and `seedData` with its default users, 12 devices and game catalogue are I/O; the device list and history are values instead.
- Login, logout and the password check are authentication, which sits outside the billing engine.
- Timers and audio are not modelled. The `setInterval` scheduling of the heartbeat and of the details panel, and `playAlertSound`, are side effects. A tick is modelled as one pure computation.
- The tick's duplicate-alert suppression is not modelled: the original checks whether the card already carries the `overtime-alert` class. The model reports the alert condition on every tick.
- `new Date()`, ISO date strings and `Date.now()` ids become integer milliseconds and an id parameter. Close reads the clock twice, once inside `calculateCost` (script_ORIGINAL_BACKUP.js:372) and once for the record (script_ORIGINAL_BACKUP.js:460), so the original's archived `endTime` can be a few milliseconds later than the instant it billed; the model uses one `now` for both.
- Form parsing is not modelled: `parseInt(...) || 0`, reading the mode buttons and choosing the game. `h`, `m`, the mode and the game arrive parsed.
- A missing game or device is not modelled as a crash. A missing game is not represented. A missing device or session in close makes the original throw before saving anything; the model returns an error value.
- Amounts use exact rational arithmetic instead of IEEE-754 doubles. So `hourlyRate/60` and the `reduce` sum have no rounding error, and `Math.ceil(durationMs/60000)` is the exact integer ceiling.
- Cost.CalculateCost: the total is the ceiling of the exact base + overtime, so it can be one unit lower than the original's. When the exact sum is a whole number, the double sum can land one ulp above it, and `Math.ceil` then bills one unit more. For 10 booked minutes at 25/hour used for 60 minutes, `10*(25/60) + 50*(25/60)` is 25.000000000000004 in doubles, so the original bills 26 where `Cost.WholeSumExample` gives 25. The same happens for 5 booked minutes at 50/hour with 25 overtime minutes.
- The card preview in `renderDevices` repeats the tick's timer and cost for busy devices, and `Devices.CardView` covers those two. The preview computes no overtime alert, and the card's HTML is not modelled.
