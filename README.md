# The Click — a verified model of the jackpot server and the game client

The Click is a daily pixel-guessing game. Each day there is one hidden target
pixel on a 1000 × 1000 grid. A player clicks once. A direct hit wins the
shared jackpot and resets it to $100. A miss adds a tenth of a cent to the
jackpot, and a five-minute tick adds a cent.

This project models the authoritative server state and the click protocol
that drives it. It also models the client-side computations around them:
- the day's target;
- the recorded attempt;
- the feedback panel and its share box;
- the countdown and day-number arithmetic.

| module | file | models |
|---|---|---|
| `Wrappers` | wrappers.dfy | the `Option` type used for absent records and values |
| `Geometry` | geometry.dfy | pixels, squared distance, integer square root, `Math.round(Math.sqrt(m))` |
| `Database` | database.dfy | `server/database.js`: the `Store` class with the jackpot record, the history log and the two lock flags |
| `Server` | server.dfy | `server/index.js`: the `Session` class with the connected-client set, the click handler, the auto-increment tick and the health count |
| `GameContext` | game_context.dfy | `src/contexts/GameContext.tsx`: the daily target generator and the `GameProvider` state |
| `ClickFeedback` | click_feedback.dfy | `src/components/ClickFeedback.tsx`: the share box and the feedback tiers |
| `DateUtils` | date_utils.dfy | `src/utils/dateUtils.ts`: the date key, the countdown text and the day number |

Modelling choices:

- **Amounts are integers.**
  - Server amounts are thousandths of a dollar, because the server rounds every stored amount to three decimals. The base amount is 100 000, the cap 10 000 000 000, a miss adds 1 and the tick adds 10.
  - Client amounts are cents: the start and reset value is 10 000 and the 30-second tick adds 1.
- **The two JSON files are `Option` fields of `Store`.** `None` is a file that does not exist. Every `fs.readFile` that fails on a missing file therefore takes its error path in the model.
- **Locks are sequential.** The lock flags are fields. Acquiring a lock polls its flag, and nothing can clear the flag between polls. A flag held at the first poll is therefore still held after the retry budget, and that stands for the thrown "Failed to acquire" error. The `finally` release clears the flag on every path, including the path where the acquisition itself failed.
- **Emissions are returned as events, in order.** `socket.emit` becomes `ToSender` and `io.emit` becomes `ToAll`.
- **The socket keeps its target.** `Connect` returns a `Connection` value carrying the socket id and the target the socket received at connection. The click handler scores against that value, just as the source's handler closes over `targetPixel`.
- **Distances are kept as exact squares.** The rounded distances the source derives from them are computed with an integer square root. `Math.round(d * 1000) / 1000` on the server becomes `RoundSqrt(1 000 000 · d²)` thousandths. `Math.round(d)` in the panel becomes `RoundSqrt(d²)`.

`server/index.js:10-11` imports `getOrCreateDailyTargetPixel` and `forceNewDailyTarget` from `server/database.js`. That file defines and exports neither (its export list is at `server/database.js:177-183`). The model therefore takes the target as an input to `Connect`, and takes the success or failure of `forceNewDailyTarget` as the boolean input `newTargetOk` to `HandleClick`. When it fails, the handler's `catch` sends one "Failed to process click" error. The history's action type for a win is the literal `"JACKPOT_WIN"` written in the code.

Each operation is paired with what checks it:
- `UpdateJackpot` with its success predicate and the health invariant.
- `LogJackpotHistory` with `AfterLog`, and `KeepNewest` with `AppendKeepNewest`.
- `FormatCountdown` with the independent parser `ParseCountdown` and the round-trip lemma.
- `BuildShareBox` with the `IsShareBox` specification and the single-`x` lemma.
- `RoundSqrt` with its rounding bounds and `RoundSqrtOfSquare`.

## Model

| member | source | states |
|---|---|---|
| Geometry.SquaredDistance | src/contexts/GameContext.tsx:36-38 | the squared distance is zero exactly when the two points coincide |
| Geometry.ISqrt | server/index.js:61 | the integer square root `r` of `n` satisfies `r² <= n < (r+1)²` |
| Geometry.RoundSqrt | src/components/ClickFeedback.tsx:13 | `Math.round(Math.sqrt(m))` as an integer `k`: zero iff `m` is zero; `k - 1/2 <= sqrt(m) < k + 1/2`, written as `(2k-1)² <= 4m < (2k+1)²` |
| Geometry.RoundSqrtOfSquare | src/components/ClickFeedback.tsx:13 | a whole distance `k` is rounded to `k` |
| Database.KeepNewest | server/database.js:156-160 | the log is kept whole up to 1000 entries; otherwise only its newest 1000 are kept, as a suffix in the old order |
| Database.AppendKeepNewest | server/database.js:148-160 | after appending an entry and trimming: the entry is last; the entries before it are the newest of the old log in order; nothing is dropped while the old log has fewer than 1000 entries |
| Database.Store.constructor | server/database.js:54-57 | both lock flags start clear; the records are what is on disk |
| Database.Store.InitDb | server/database.js:15-51 | each absent record gets its default (amount 100.000, actor "system", version 1; empty log); present records are untouched, so a second call changes nothing; the locks and the health invariant are kept |
| Database.Store.AcquireLock | server/database.js:60-75 | acquisition succeeds iff the flag was clear and the retry budget is positive; on success the flag is set; a held flag stays held; the records are untouched |
| Database.Store.ReleaseLock | server/database.js:78-80 | the flag is cleared whoever set it; the other flag and the records are untouched |
| Database.Store.GetJackpot | server/database.js:83-91 | returns the stored record, or nothing when there is no record |
| Database.Store.UpdateJackpot | server/database.js:94-131 | succeeds iff the lock was free, the record exists and the amount is in [0, 10 000 000.000]; success writes the amount, the caller and the old version + 1; failure leaves the record unchanged; the state lock is clear afterwards on every path; the history is untouched |
| Database.Store.ResetJackpot | server/database.js:134-136 | the same outcome and new state as `UpdateJackpot` with the same arguments |
| Database.Store.LogJackpotHistory | server/database.js:139-175 | succeeds iff the lock was free and the log exists; the log becomes the newest 1000 entries of the old log plus the new entry; the history lock is clear afterwards on every path; the jackpot record is untouched |
| Server.ClickDistance | server/index.js:61-62 | the reported distance, in thousandths, is zero exactly on a direct hit |
| Server.ClickDistanceWhole | server/index.js:61-62 | a click a whole `k` pixels away is reported as `k.000` |
| Server.NeighbourDistance | server/index.js:61-62 | the pixel next to the target is reported as 1.000 away |
| Server.FirstEntry | server/database.js:148-160 | logging into an empty, unlocked history leaves exactly that entry |
| Server.Session.constructor | server/index.js:33 | the connected set starts empty |
| Server.Session.Connect | server/index.js:35-46 | the id joins the connected set; the socket keeps the target it received; the current amount is sent to the sender when the record exists |
| Server.Session.Disconnect | server/index.js:141-145 | the socket's id leaves the connected set |
| Server.Session.Health | server/index.js:185-191 | the reported count is the size of the connected set |
| Server.Session.HandleClick | server/index.js:49-128 | a non-destructurable payload, coordinates that are not numbers in [0, 999], or a missing record each give one error to the sender and no change; otherwise a hit resets to 100.000 and a miss adds 0.001; only a successful update is logged (JACKPOT_WIN / INCREMENT) and announced: miss = distance to sender + new amount to all; hit = success to sender, then reset and won amount to all, or one error if the new target fails; a failed update emits nothing; the log's outcome never affects the jackpot or the events |
| Server.Session.AutoIncrement | server/index.js:150-171 | adds 0.010 as "system" when the update succeeds; only then logs one AUTO_INCREMENT entry and broadcasts the new amount; no record means no change and no event; the health invariant is kept |
| Server.MissScenario | server/index.js:98-123 | on a $100.000 jackpot with an empty log, any valid miss gives $100.001 at version 2, one INCREMENT entry, the distance to the sender and the new amount to all |
| Server.WinScenario | server/index.js:68-97 | on a $250.500 jackpot, a hit resets to $100.000 at the next version, logs one JACKPOT_WIN entry from 250.500, sends success and broadcasts the reset then the win |
| Server.OutOfRangeScenario | server/index.js:55-58 | a click at x = 1000 yields one "Invalid coordinates" error and no change |
| GameContext.PseudoRandom | src/contexts/GameContext.tsx:26-27 | the twice-applied LCG value lies in [0, 233279] |
| GameContext.TargetPixel | src/contexts/GameContext.tsx:23-34 | the target's x lies in [0, 999]; its y is the LCG value divided by 1000, so the `% 1000` never applies and y lies in [0, 233] |
| GameContext.GameProvider.constructor | src/contexts/GameContext.tsx:40-57 | the target is fixed from the day number; the jackpot starts at $100.00; a stored attempt for today is restored and marks the day as played |
| GameContext.GameProvider.RegisterClick | src/contexts/GameContext.tsx:71-94 | records the attempt with its coordinates, squared distance and timestamp; marks the day as played; resets the jackpot to $100.00 iff the click is on the target, and otherwise leaves it alone |
| GameContext.GameProvider.Tick | src/contexts/GameContext.tsx:59-66 | the jackpot grows by exactly one cent; the attempt is untouched |
| ClickFeedback.Normalize | src/components/ClickFeedback.tsx:29-30 | the cell index always lies in [0, cells); for a coordinate on the grid it is the cell that contains it |
| ClickFeedback.BuildShareBox | src/components/ClickFeedback.tsx:33-49 | the box is the top border, five rows of `│` + 13 cells + `│`, and the bottom border; the cell at the normalized click is `x` and every other cell is a space |
| ClickFeedback.ShareBoxHasOneX | src/components/ClickFeedback.tsx:36-47 | a share box holds exactly one `x` across all its lines, at body row `normalizedY` and column `normalizedX` |
| ClickFeedback.TierOf | src/components/ClickFeedback.tsx:61-79 | the JACKPOT tier is chosen exactly at distance zero |
| ClickFeedback.TierBetweenThresholds | src/components/ClickFeedback.tsx:61-79 | each later tier covers the distances from one threshold (0, 5, 20, 50, 100) up to the next, so the tiers are disjoint and exhaustive |
| ClickFeedback.TierMonotone | src/components/ClickFeedback.tsx:61-79 | a closer click never gets a farther tier |
| ClickFeedback.Render | src/components/ClickFeedback.tsx:8-13 | the panel shows something iff a click has been made and recorded; it shows JACKPOT, and a rounded distance of 0, exactly on a direct hit |
| DateUtils.FormatDateKey | src/utils/dateUtils.ts:5-7 | the key is a prefix of the ISO string and contains no `T`; the key is the whole string, or the string continues with a `T` |
| DateUtils.SplitDuration | src/utils/dateUtils.ts:18-21 | minutes and seconds are below 60, and `h·3600 + m·60 + s` is the whole seconds of the difference |
| DateUtils.PadStart | src/utils/dateUtils.ts:23 | the result has length `max(|s|, width)`; it ends with `s` and is filled with the pad character before it |
| DateUtils.TwoDigitsOf | src/utils/dateUtils.ts:23 | a field below 100 prints as its tens digit and its units digit |
| DateUtils.FormatCountdownLayout | src/utils/dateUtils.ts:18-23 | below 100 hours the countdown is the eight characters `HH:MM:SS` of its split |
| DateUtils.CountdownRoundTrip | src/utils/dateUtils.ts:18-23 | below 100 hours, parsing the countdown text gives back its hours, minutes and seconds |
| DateUtils.CountdownFourteenHours | src/utils/dateUtils.test.ts:26-32 | 14 hours before midnight the countdown reads `14:00:00` |
| DateUtils.CountdownTwoSeconds | src/utils/dateUtils.test.ts:34-39 | 2 seconds before midnight the countdown reads `00:00:02` |
| DateUtils.CountdownOneHour | src/utils/dateUtils.test.ts:41-51 | 1 hour before midnight the countdown reads `01:00:00` |
| DateUtils.DayNumber | src/utils/dateUtils.ts:29-35 | the day number is the absolute difference in days, rounded up: zero iff the instants coincide, and otherwise `(d-1)` days `<` the difference `<=` `d` days |

`Server.Session.HandleClick` has these outcomes:
- A payload that cannot be destructured yields one "Failed to process click" error, and nothing changes.
- Coordinates that are not numbers in [0, 999] yield one "Invalid coordinates" error, and nothing changes.
- A missing record yields one "Failed to process click" error, and nothing changes.
- Otherwise a hit resets the jackpot to 100.000 and a miss adds 0.001. Only a successful update is logged, as a JACKPOT_WIN or INCREMENT entry.
- A successful miss sends the distance to the sender and the new amount to all.
- A successful hit sends success to the sender, then broadcasts the reset and then the won amount. If the new target fails instead, it yields one error.
- A failed update emits nothing.
- The outcome of logging never affects the jackpot or the events.
- The health invariant is kept.

## Left out

- File I/O and JSON: an unreadable or malformed file, a failed `mkdir` or write, and `last_update` and `timestamp` values are not modelled. A missing file stands for every failed read.
- Concurrency: `setTimeout` polling and interleaving between `await`s are not modelled. The jackpot read at `server/index.js:65` happens outside the lock, so updates lost under interleaving are not captured.
- socket.io transport, the heartbeat interval, `uuid`, CORS, the `/api/jackpot` route and the listening port: transport and wiring outside the modelled state.
- `getOrCreateDailyTargetPixel` and `forceNewDailyTarget` are not part of this model. `server/database.js` does not define them, so the target is an input and the success of the second is a boolean input.
- Server.Session.Connect: the source sends the initial amount in a detached `then` with no error handler. The model sends it synchronously, and sends nothing when the record is missing.
- Database.Store.UpdateJackpot: takes amounts in integer thousandths, so the `Math.round(newAmount * 1000) / 1000` at `server/database.js:108` is the identity. Amounts with more decimals, and floating-point drift in `+ 0.001` and `+ 0.01`, are not modelled.
- Server.Session.HandleClick: a coordinate is either an integer or "not a number". Fractional numbers in [0, 999], which the source accepts, are not modelled. The distance is rounded in exact arithmetic rather than with floating-point `Math.sqrt`.
- GameContext.TargetPixel: x is computed with exact integer division `floor(r · 1000 / 233280)`. The source multiplies the floating-point quotient `r / 233280` by 1000, which can differ by a rounding error at exact multiples.
- GameContext.GameProvider.constructor: the day number, the stored attempt read from `localStorage`, and the timestamp of a click are inputs. `Date`, `toISOString`, time zones and `localStorage` writes are not modelled.
- GameContext.GameProvider.RegisterClick: the distance is kept as its square, not as the floating-point `Math.sqrt` value the source stores.
- ClickFeedback.BuildShareBox: only the box is modelled. The surrounding share text, with the `toLocaleString` pot and the "Off by" line, and the share modal are not. Its color classes are presentation only.
- DateUtils.FormatCountdown: `String(n)` is modelled for natural numbers only. A negative difference cannot occur, because the next midnight is in the future.
- DateUtils.DayNumber: takes the two instants in milliseconds. The local-time construction of Jan 1, 2025 and of `now` is not modelled.
- DateUtils.FormatDateKey: takes the ISO string, not the `Date` it is produced from.
- The remaining client files are rendering, canvas and socket-client plumbing, outside the modelled core.
