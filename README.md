# Flowmodoro, modelled in Dafny

Flowmodoro is a focus timer. A focus ("flow") interval counts up until the user
stops or skips it. The break it earns then counts down: a short break, or a long
("Big Break") one after every N-th flow. Each finished interval becomes a
session record `{seconds, kind, date, local_day}`. The record is POSTed to a
small backend and appended to a history in the browser's local storage, marked
`synced` when the backend accepted it. On start-up the client asks the backend
for today's records; only when that request fails does it fall back to the
stored history and re-send the unsynced records. A tracking view shows one day's records per kind (flows,
breaks, big breaks), using the backend's `/api/totals/:day` when it answers and
its own copy of the history otherwise.

The model covers four parts:

- **The timer panel** (`TimerPanel.Timer`). It is a class whose fields are the
  component's state. Each handler (start, pause, reset, tick, stop/skip, break
  expiry, settings listener, mount) is a method that states the panel's whole new
  state: through the `State()` snapshot, or, for `Load`, field by field.
- **Records and their storage** (`Sessions`, `Storage`).
  - Records are built with a clamped duration and a `YYYY-MM-DD` local day.
  - The local history (`Storage.LocalStore`) has an append path and the
    background sync pass. The sync pass is proved against the recursive
    specification `SyncAll`.
- **Days and totals** (`Sessions.ForDay`, `Totals`, `CalendarView`, `Server`).
  - The per-kind reduce is shared by the calendar's fallback and the backend.
    The client's day rule is the calendar fallback's; the backend as written
    matches rows by a wider rule (`Server.MatchesAsWritten`), and only the
    corrected `Server.TotalsForDay` uses the client's rule.
  - The backend's table gets an autoincrement id and POST validation.
  - The tracking view's columns come from these totals.
- **Renderings and the break countdown** (`Text`, `Format`, `BreakModal`).
  - `formatTime`, `formatDuration` and `humanTime` each come with a reader. The
    lemmas show that the rendered text reads back as the number it was made
    from.
  - The stand-alone `BreakModal` countdown is a class of its own.

Modelling conventions:

- **Falsy fields.** A JavaScript field that is missing, `null` or `""` is falsy,
  and every reader treats those three alike. Such a field is written `""` here
  (`kind`, `local_day`), or `false` for `synced`. The backend stores a missing
  `local_day` as NULL, which is also `""` here.
- **Backend and local storage.** A POST's outcome is a parameter
  (`PostOutcome`): the new id, or a failure. Network errors, refusals and server
  errors all count as a failure. Local storage is an in-memory sequence.
- **Clock readings.** A reading is a parameter (`Sessions.Now`): the ISO
  instant, the local year, month (counted from 0) and day, and `Date.now()`.

Behaviour of the code worth knowing:

- Every finished interval is appended to the local history, synced or not. It is
  not appended only when the backend is unreachable.
- Resetting a break restores `breakMinutes * 60`. A settings change in the
  middle of a break resets `breakMinutes` to the short length.
- Unsynced records are re-sent only on a start-up whose request for today's
  records failed; while the backend answers, they stay pending
  (`TimerPanel.Timer.Load` leaves the history untouched on that path).
- Focus intervals are stored with kind `stop` or `skip`, the name of the button
  that ended them. `CalendarView.FocusRecordsNotShown` proves that no such record
  appears in any of the three columns.

## Model

| member | source | states |
|---|---|---|
| Text.Decimal | src/components/TimerPanel.jsx:24 | `toString` of a non-negative integer is a non-empty digit string without a leading zero (except `0` itself) whose value is the number |
| Text.IntString | src/components/TimerPanel.jsx:14-17 | `toString` of any integer: a minus sign exactly for negatives, followed by the digits of the magnitude |
| Text.PadStart2 | src/components/TimerPanel.jsx:15-16 | `padStart(2,'0')` yields at least two characters, keeps the string as its suffix, prepends only zeros and preserves the number a digit string denotes |
| Text.TwoDigits | src/components/TimerPanel.jsx:15-16 | a number below 100 as exactly two digits whose values make up the number |
| Text.TwoDigitsPadded | src/components/TimerPanel.jsx:15-16 | padding the decimal form of a number below 100 gives exactly those two digits |
| Text.DigitRun | src/components/TimerPanel.jsx:24 | the leading digit run of a string ends at its first non-digit (the reader used by the round-trip lemmas) |
| Text.CanonicalIsDecimal | src/components/TimerPanel.jsx:24 | a digit string without a leading zero (or the single digit 0) is the `toString` form of its value |
| Text.PaddedForm | src/components/TimerPanel.jsx:24 | a two-digit string, or a longer one without a leading zero, is its value's `toString` padded to two characters |
| Text.DigitRunStops | src/components/TimerPanel.jsx:24 | reading digits back from a rendered number followed by a separator stops exactly at the separator |
| Sessions.LocalDay | src/components/TimerPanel.jsx:11-18 | `localDayForDate`: the year's `toString`, the month from 1 and the day, joined by dashes; what the label reads back as is stated by `LocalDayShape` |
| Sessions.LocalDayShape | src/components/TimerPanel.jsx:11-18 | the label `localDayForDate` builds reads back as the year's `toString`, a dash, the month (from 1) in two digits, a dash and the day in two digits |
| Sessions.FourDigitYearLabel | src/components/TimerPanel.jsx:11-18 | for a four-digit year the label has the ten characters of the date prefix it is compared with |
| Sessions.LocalDayInjective | src/components/TimerPanel.jsx:11-18 | different dates get different labels |
| Sessions.IntStringInjective | src/components/TimerPanel.jsx:14-17 | different years print differently |
| Sessions.NewEntry | src/components/TimerPanel.jsx:154-156 | a record's seconds are the elapsed time clamped at zero (never negative), its kind the given label and its date and local day come from one clock reading |
| Sessions.DatePrefix | src/components/TimerPanel.jsx:76 | `date.slice(0,10)`: a prefix of the date, ten characters long, or the whole date when it is shorter |
| Sessions.KeptForDay | src/components/CalendarView.jsx:36 | the client's day rule: a record's own local day when it has one, otherwise the first ten characters of its instant; `KeptForOneDay` states that it puts a record on one day only |
| Sessions.ForDay | src/components/CalendarView.jsx:36 | the day filter keeps exactly the records whose own local day is the day, or, lacking one, whose date starts with the day |
| Sessions.ForDayAppend | src/components/CalendarView.jsx:36 | filtering two lists in a row gives the first's kept records followed by the second's, so the original order is kept |
| Sessions.ForDayOne | src/components/CalendarView.jsx:36 | a single record is kept exactly when the day rule keeps it |
| Sessions.ForDayCount | src/components/CalendarView.jsx:36 | a kept record occurs in the result as often as in the input, and any other not at all |
| Sessions.KeptForOneDay | src/components/TimerPanel.jsx:76 | under the client's rule a record belongs to one day only |
| Sessions.Pending | src/components/CalendarView.jsx:54-56 | the pending count is at most the number of records and is zero exactly when every record is synced |
| Sessions.PendingAppend | src/components/TimerPanel.jsx:179-185 | appending an unsynced record raises the pending count by one, a synced one leaves it |
| Storage.Saved | src/components/TimerPanel.jsx:163-186 | the kept record is synced exactly when the POST was accepted, then with the backend's id, otherwise with the provisional id; the entry is unchanged |
| Storage.Confirmed | src/components/TimerPanel.jsx:86-90 | a successful re-send marks the record synced with the backend's id; a failed one leaves it as it was |
| Storage.LocalStore.Persist | src/components/TimerPanel.jsx:169-173 | the history grows by exactly the kept record at its end, whatever the backend answered; earlier records are unchanged |
| Storage.SyncAt | src/components/TimerPanel.jsx:80-95 | the sync pass keeps length and order; a synced record is unchanged; an unsynced one gets the outcome of its own POST, whatever happened to the others |
| Storage.SyncAll | src/components/TimerPanel.jsx:80-95 | the sync pass as a specification: synced records are skipped and each unsynced one, in order, takes the next POST outcome; `SyncAt`, `SyncLength` and `SyncLeavesFailures` state what that yields |
| Storage.SyncLength | src/components/TimerPanel.jsx:80-95 | the sync pass keeps the history's length |
| Storage.SyncLeavesFailures | src/components/TimerPanel.jsx:80-95 | after the pass the number of records still unsynced equals the number of failed re-sends (which records they are is stated by `SyncAt`) |
| Storage.SyncAllFailed | src/components/TimerPanel.jsx:91-93 | when every re-send fails the history is unchanged |
| Storage.LocalStore.SyncPass | src/components/TimerPanel.jsx:80-95 | the in-place loop over the parsed history leaves exactly `SyncAll` of the old history |
| Totals.KindKey | src/components/CalendarView.jsx:39 | a record is filed under its kind, or under `flow` when the kind is missing or empty |
| Totals.Add | src/components/CalendarView.jsx:39-42 | one reduce step: the record's kind gets a bucket whose total grows by the record's seconds and whose list ends with the record; every other bucket is unchanged |
| Totals.Aggregate | src/components/CalendarView.jsx:38-44 | the reduce: no buckets exactly when there are no records, and no bucket under the empty kind; its buckets are characterised by `AggregateBucket` |
| Totals.SumSeconds | src/components/TimerPanel.jsx:303 | the sum of the records' seconds, non-negative when every record's seconds are |
| Totals.OfKind | src/components/CalendarView.jsx:42 | membership is exactly the records of its kind; the in-order filter is its definition, and `OfKindAppend`, `OfKindOne` and `OfKindCount` state order and multiplicity |
| Totals.OfKindAppend | src/components/CalendarView.jsx:38-44 | the records of a kind from two lists in a row are those of the first followed by those of the second, so the original order is kept |
| Totals.OfKindOne | src/components/CalendarView.jsx:39-42 | a single record is kept exactly when it is of the kind |
| Totals.OfKindCount | src/components/CalendarView.jsx:38-44 | a record of the kind occurs in its bucket's list as often as in the records, and a record of another kind not at all |
| Totals.SumSecondsAppend | src/components/CalendarView.jsx:41 | adding a record adds its seconds to the total |
| Totals.AggregateBucket | src/components/CalendarView.jsx:38-44 | there is a bucket for a kind exactly when some record has it; the bucket holds exactly those records in order, and its total is the sum of their seconds |
| Totals.AllBuckets | src/components/CalendarView.jsx:38-44 | the bucket property for every kind at once |
| Totals.OneBucketPerRecord | src/components/CalendarView.jsx:38-42 | a record is in a bucket exactly when the bucket is its own kind's |
| Totals.MapTotalRemove | src/components/CalendarView.jsx:41 | the sum over buckets splits off any one bucket |
| Totals.MapTotalUpdate | src/components/CalendarView.jsx:40-41 | replacing one bucket changes the sum over buckets by the difference of the two totals |
| Totals.AggregateConserves | src/components/CalendarView.jsx:41 | the bucket totals add up to the total seconds of the records aggregated |
| Format.Clamp | src/components/TimerPanel.jsx:21 | `Math.max(0, n)` is the identity on non-negative integers and 0 on negatives |
| Format.ClockReadsBack | src/components/TimerPanel.jsx:24 | a clock face of padded minutes and two-digit seconds reads back as exactly those two numbers |
| Format.FormatTime | src/components/TimerPanel.jsx:20-25 | `formatTime(n)` reads back as whole minutes and seconds below 60 making up `max(0, n)`; zero and negative input show exactly `00 : 00`; with `ClockFaceUnique`, it is the only text that reads back as the clamped count |
| Format.OneFieldReadsBack | src/components/TimerPanel.jsx:39 | `<s>s` reads back as seconds only |
| Format.SecondFieldReadsBack | src/components/TimerPanel.jsx:32-37 | the second field of a two-field duration reads back with its unit |
| Format.TwoFieldsReadBack | src/components/TimerPanel.jsx:32-37 | `<h>h <m>m` and `<m>m <s>s` read back as their two numbers |
| Format.FormatDuration | src/components/TimerPanel.jsx:27-40 | the result reads back as hours and minutes exactly from 3600 s up, minutes and seconds exactly from 60 s up, and seconds otherwise, with numbers that make up the clamped count; with `DurationTextUnique`, it is the only such text |
| Format.DescribesUnique | src/components/TimerPanel.jsx:27-40 | each count has only one rendering that describes it |
| Format.ClockFaceUnique | src/components/TimerPanel.jsx:20-25 | any text that reads back as `c` seconds (minutes without extra leading zeros, two-digit seconds below 60) is exactly `formatTime(c)` |
| Format.DurationForm | src/components/TimerPanel.jsx:27-40 | a text the duration reader accepts is its numbers' `toString` forms with the units and separating space, so it carries no leading zeros |
| Format.SecondFieldForm | src/components/TimerPanel.jsx:32-37 | the second field the reader accepts is its number's `toString` form and the unit matching the first |
| Format.DurationTextUnique | src/components/TimerPanel.jsx:27-40 | any text that reads back as a right rendering of `c` seconds is exactly `formatDuration(c)` |
| TimerPanel.IsLongBreak | src/components/TimerPanel.jsx:230 | the long-break test, false for a period of 0 as `n % 0` is NaN; `LongBreakEveryKth` states when it holds |
| TimerPanel.LongBreakEveryKth | src/components/TimerPanel.jsx:230 | with a positive period k, the break after flow number j*k+r (0 <= r < k) is long exactly when r = 0 |
| TimerPanel.NextBreak | src/components/TimerPanel.jsx:230-233 | "Big Break" and the long length when the flow number is a multiple of the period (never for period 0), otherwise "Break" and the short length |
| TimerPanel.BreakKind | src/components/TimerPanel.jsx:240 | a break is stored as `big_break` exactly when its title is "Big Break", otherwise as `break` |
| TimerPanel.FromApi | src/components/TimerPanel.jsx:64 | the backend's rows keep id, seconds, kind and date, and come without local day and unsynced |
| TimerPanel.Timer.constructor | src/components/TimerPanel.jsx:43-52 | a paused focus interval at zero, the default settings, the short break titled "Break", no records |
| TimerPanel.Timer.TotalTime | src/components/TimerPanel.jsx:303 | the statistic reads back as the clamped sum of today's seconds |
| TimerPanel.Timer.Start | src/components/TimerPanel.jsx:142 | sets `running` and nothing else |
| TimerPanel.Timer.Pause | src/components/TimerPanel.jsx:143 | clears `running` and nothing else |
| TimerPanel.Timer.Reset | src/components/TimerPanel.jsx:145-151 | focus: elapsed back to 0; break: remaining back to `breakMinutes*60`; running and everything else unchanged |
| TimerPanel.Timer.Tick | src/components/TimerPanel.jsx:128-133 | nothing while paused; while running, focus seconds go up by one or break seconds down by one, and nothing else changes |
| TimerPanel.Timer.OnSettings | src/components/TimerPanel.jsx:108-112 | replaces the settings and sets the break length to the new short length, nothing else |
| TimerPanel.Timer.Record | src/components/TimerPanel.jsx:195-222 | one record with non-negative seconds and the given kind is appended to both today's list and the stored history; no other state changes |
| TimerPanel.Timer.FinishFocus | src/components/TimerPanel.jsx:226-236 | records the focus seconds under the button's name, counts one more flow, and starts, running, the break `NextBreak` gives for the new count, with focus seconds 0 |
| TimerPanel.Timer.FinishBreak | src/components/TimerPanel.jsx:238-245 | records the given time under the break's kind and starts a running focus interval at 0 with no break time left |
| TimerPanel.Timer.StopOrSkip | src/components/TimerPanel.jsx:225-247 | from focus: one focus record, flow count +1, the earned break running; from break: one record of `breakMinutes*60 - breakSecondsLeft` clamped at 0, then running focus at 0 |
| TimerPanel.Timer.StopOrSkipAsWritten | src/components/TimerPanel.jsx:153-158 | as written, stop/skip in focus throws before any update: no record and no state change; in a break it behaves as intended |
| TimerPanel.FocusStopRecords | src/components/TimerPanel.jsx:153-158 | on a fresh panel, stop as written stores no record and stop as intended stores one |
| TimerPanel.Timer.OnBreakEnd | src/components/TimerPanel.jsx:249-258 | records the full break length, not a partial one, then starts running focus at 0 |
| TimerPanel.Timer.BreakExpiry | src/components/TimerPanel.jsx:261-265 | in a break with no seconds left it ends the break as `OnBreakEnd` does; otherwise nothing changes |
| TimerPanel.Timer.Load | src/components/TimerPanel.jsx:55-106 | today's records come from the backend, leaving the history untouched, or else from the stored history by the day rule, and only then is the history re-synced; saved settings apply; the flow count becomes the number of today's records |
| Server.ValidBody | backend/server.js:39 | the POST check: `seconds` is a number and `kind` and `date` are non-empty, nothing more; `SessionTable.Post` states what passing it does |
| Server.RowOf | backend/server.js:40-41 | a valid body is stored with its own seconds, kind and date, and its local day or NULL |
| Server.SessionTable.constructor | backend/server.js:12-18 | an empty table whose next id will be 1 |
| Server.SessionTable.Post | backend/server.js:37-45 | an invalid body is answered `invalid` and changes nothing; a valid one (negative seconds included) adds exactly one row whose id is one past every id handed out before; ids stay increasing |
| Server.MatchesAsWritten | backend/server.js:51 | the query's row match as written: the local day equals the day, or the instant's date does, for every row; `CountedOnTwoDays` shows a row it puts on two days |
| Server.RowsForDayAsWritten | backend/server.js:51 | the query keeps exactly the rows whose local day is the day, or whose date starts with the day |
| Server.TotalsForDayAsWritten | backend/server.js:48-62 | the response as written echoes the day, lists exactly the rows the query matches, has one bucket per kind present with the rows and summed seconds of that kind, and its buckets add up to the total of those rows |
| Server.AsWrittenIncludesClientRule | backend/server.js:51 | every row the client's rule puts on a day is matched by the query |
| Server.CountedOnTwoDays | backend/server.js:51 | a row whose local day and UTC date differ is counted on both days |
| Server.TotalsForDay | backend/server.js:48-62 | with the intended match the response echoes the day, lists exactly that day's rows, has one bucket per kind present with the rows and summed seconds of that kind, and its buckets add up to the day's total |
| Server.CountedOnOneDay | backend/server.js:51 | with the intended match a row is counted on one day only |
| Server.ExampleDay | backend/server.js:51-61 | 1500 s of flow and 300 s of break on 2024-01-01 plus 100 s of flow on 2024-01-02 give, for 2024-01-01, exactly `flow: 1500` and `break: 300` |
| Server.ExampleRows | backend/server.js:51 | the example's day filter keeps the first two records |
| Server.ExampleBuckets | backend/server.js:54-60 | the example's two records aggregate to the two expected buckets |
| CalendarView.LoadForDay | src/components/CalendarView.jsx:21-47 | the backend's answer when there is one; otherwise exactly the stored records of the day, with one bucket per kind present holding its records in order and their summed seconds, adding up to the day's total |
| CalendarView.Column | src/components/CalendarView.jsx:82 | a column shows its bucket, or total 0 and no records when the kind is absent |
| CalendarView.FallbackColumn | src/components/CalendarView.jsx:81-88 | on the local path every column holds exactly the day's records of its kind and shows the sum of their seconds |
| CalendarView.FocusRecordsNotShown | src/components/CalendarView.jsx:81-82 | a record of kind `stop` or `skip` appears in none of the flow, break and big-break columns |
| CalendarView.CorrectedBackendSameView | src/components/CalendarView.jsx:23-46 | with the corrected backend over the stored records, the view is the same whether the backend answers or the local fallback is used |
| CalendarView.AsWrittenBackendShowsFallback | src/components/CalendarView.jsx:23-46 | with the backend as written, every record the fallback would show is in the backend's answer |
| CalendarView.AsWrittenBackendDiffers | src/components/CalendarView.jsx:23-46 | with the backend as written, a record finished near local midnight makes the backend's view of a day differ from the fallback's |
| CalendarView.HumanTime | src/components/CalendarView.jsx:60-65 | `humanTime` agrees with `formatDuration` on every integer |
| BreakModal.JsRem | src/components/BreakModal.jsx:46 | JavaScript's `%` by a positive divisor: the Euclidean remainder for non-negative dividends, a value in (-b, 0] for negative ones, and always congruent to the dividend |
| BreakModal.FormatTime | src/components/BreakModal.jsx:44-48 | for a non-negative count it is the panel's `formatTime`; a negative count is shown with a leading minus sign |
| BreakModal.BreakCountdown.constructor | src/components/BreakModal.jsx:4-23 | starts with the full break, running; a break of no length stops at once and fires `onEnd` |
| BreakModal.BreakCountdown.EndCheck | src/components/BreakModal.jsx:18-23 | at zero or below the countdown stops and `onEnd` fires once; otherwise nothing changes |
| BreakModal.BreakCountdown.Tick | src/components/BreakModal.jsx:8-11 | only while running, the count goes down by exactly one, and reaching zero stops it and fires `onEnd` |
| BreakModal.BreakCountdown.Pause | src/components/BreakModal.jsx:57 | clears `running` only |
| BreakModal.BreakCountdown.Resume | src/components/BreakModal.jsx:59 | sets `running` only |
| BreakModal.BreakCountdown.Reset | src/components/BreakModal.jsx:61 | the full break again, paused (unlike the panel's reset); `onEnd` fires only when the count changed to a value of zero or below |
| BreakModal.BreakCountdown.StopOrSkip | src/components/BreakModal.jsx:62-63 | `onEnd` then, if given, `onClose`; the count and `running` are unchanged |

## Left out

- React rendering, JSX and the scheduling of effects. Effects are explicit calls: `BreakExpiry`, `Load` and `EndCheck`.
- `setInterval` and `clearInterval`. A tick is a method call.
- `fetch` and the network, including timeouts. They are the `PostOutcome` and `Option` parameters.
- Local storage and JSON. Storage is an in-memory sequence. Its write failures, which the code catches and ignores (TimerPanel.jsx:169-173, :182-186, :95), are not modelled. Nor are its read failures and corrupt JSON, which the code does not catch: reading or parsing the stored history or settings (TimerPanel.jsx:71-74, :101-103; CalendarView.jsx:34-35) throws and aborts the load.
- TimerPanel.Timer.Record: the provisional id is `now.millis`, taken with the rest of the clock reading; the code calls `Date.now()` again when the POST fails.
- TimerPanel.Timer.Record: the record is appended to today's list at once. The code appends it to the `sessions` value captured when the handler ran, after the POST resolves.
- TimerPanel.Timer.FinishFocus: the effect that sets the flow count to the number of today's records after each change (TimerPanel.jsx:117-119) is applied only in `Load`. After an append it would also count break records; it depends on when React flushes state.
- TimerPanel.Timer.Load: on the fallback path today's records (TimerPanel.jsx:76) are the same objects the sync pass marks synced and re-numbers (TimerPanel.jsx:88-89), so the panel's own list changes with the pass. The model's `sessions` keep the records as they were before the pass; records are values, and aliasing between the two lists is not captured. The panel does not display these two fields.
- Storage.LocalStore.SyncPass: the pass writes back the history it read at start. A record appended while the re-sends are in flight would be lost; the model runs the pass without interleaving.
- Time zones, `Date` and `toISOString`: the clock reading is a parameter. The unused `todayIsoDay` is left out.
- Fractional, NaN and non-numeric numbers: all counts are integers, so `Math.floor` is the identity and `|| 0` never applies. A NaN long-break period is not modelled; a period of 0 is.
- Non-string truthy values for `kind` or `date` in a POST body.
- The backend's SQLite error path (status 500), schema creation and migration, Express, CORS, body parsing, `/api/ping` and `listen`.
- Server.RowsForDayAsWritten: the query has no `ORDER BY`; rows are assumed to come back in insertion order.
- Totals.Aggregate: the accumulator is a plain JavaScript object. A kind that names an inherited `Object.prototype` member (`constructor`, `toString`, `__proto__`, ...) finds a truthy value there, so appending the record throws a TypeError. The POST check accepts such kinds, and one such row makes the backend's totals callback and the calendar's fallback fail. The model treats every kind as an ordinary bucket.
- BreakModal.FormatTime: for a negative count only the leading minus sign is stated, not the rest of the text.
- The Web Audio beep in BreakModal.
- The calendar's per-record list items (`toLocaleTimeString`, minutes per record) and its `try/catch` around the pending count.
- ConfigModal.jsx (a settings form) and App.jsx (a view toggle).
- src/config.js is not part of this model. The default settings are a parameter of the panel's constructor.

## Findings

| source | as written | input that shows it | evidently intended | confidence | as-written member | corrected member |
|---|---|---|---|---|---|---|
| src/components/TimerPanel.jsx:156-158 | no semicolon between the `entry` object literal and `(async () => {...})()`, so the literal is called as a function and `recordSession` throws a TypeError | Stop or Skip pressed during a focus interval | record the focus interval and start the break, like `recordBreak` with its leading `;` at :198 | high, not executed | TimerPanel.Timer.StopOrSkipAsWritten | TimerPanel.Timer.StopOrSkip |
| backend/server.js:51 | `local_day = ? OR substr(date,1,10) = ?` applies the date arm to every row | a row with local day 2024-01-02 and date 2024-01-01T22:30:00.000Z is counted for both days | use the date only for legacy rows without a local day, as the client's filter at src/components/CalendarView.jsx:36 does | medium, not executed | Server.CountedOnTwoDays | Server.TotalsForDay |
