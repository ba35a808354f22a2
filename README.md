# Lunch-budget reconciliation core of tenbis-monitor-server

The server fetches a user's 10bis meal-delivery transactions and answers with
a summary of the month's lunch allowance: how many days the month has, how
many are left, the allowance at 40 shekels a day, what was spent, what is
left, and the average spend so far and per remaining day. This project models
the computational part of `functions/index.js` in Dafny and proves what it
computes:

- `Calendar` — `getWorkDays` and `getRemainingWorkDays` as methods with
  `while` loops that step a date forward one day at a time and count, with the
  Gregorian calendar (0-based months, as moment.js numbers them), the
  `add(1, 'days')` step and `isoWeekday()` written out.
- `Transactions` — `parseTransactionDate` (the first maximal run of decimal
  digits, read as epoch milliseconds) and `parseTransactions` (the
  field-by-field `map` over the upstream records).
- `Budget` — `sumTransactions` (a `reduce` without an initial value) and
  `buildResponse` (the summary arithmetic with `DAILY_LUNCH_BUDGET = 40`).
- `Wrappers` — `Option` and `Result`, standing for `null` matches and thrown
  errors.

The model follows what the code does:

- The guard `if (day.isoWeekday())` is always true, because ISO weekdays run
  from 1 to 7. So the "work days" of a month are all of its calendar days, and
  the days remaining are today and every later day of the month. No weekend
  day and no holiday is excluded. `Calendar.IsoWeekday` is proved to lie in
  1..7, and both loops are proved to return the calendar counts. Descriptions
  of this system that drop Saturdays, Sundays and holidays from the work days
  describe an intent the code does not carry out; this model follows the code.
- `getMonthHolidays` is never called, and it has no effect on the counts.
- The remaining days are counted from the current date, whatever month the
  transactions are in.
- Empty batches: `buildResponse` fails on `transactions[0].date`, and
  `sumTransactions` would fail on `reduce`. Both are modelled as
  `Failure(EmptyBatch)`.
- A date string with no digit makes `matches[0]` throw. The `map` in
  `parseTransactions` does not catch, so the whole batch fails with
  `Failure(MalformedDate)`.
- The divisor `remainingWorkDays` is at least 1 (today itself always counts),
  so the division in the summary is never by zero.

Things outside the program are parameters:

- The wall clock: `today` is a valid civil date in Asia/Jerusalem.
- moment-timezone's formatting of an epoch-millisecond instant: `format`.
- The (year, month) of a formatted date in Asia/Jerusalem: `zonedYearMonth`.
  It gives None for the text "Invalid date", which moment formats for an
  instant beyond 8.64e15 ms from the epoch. moment's `year()` and `month()`
  are then NaN, the guard `day.month() == month` of `getWorkDays` is false at
  once, and the month has 0 work days.

## Model

| member | source | states |
|---|---|---|
| `Calendar.DaysInMonth` | functions/index.js:166-176 | the month walked by the loop has 28 to 31 days; 29 exactly for February of a leap year, 28 for February otherwise, 30 exactly for April, June, September, November |
| `Calendar.NextDay` | functions/index.js:175 | `add(1, 'days')` maps a valid date to a valid date |
| `Calendar.NextDayIsOneDayLater` | functions/index.js:175 | the next day's serial day number is exactly one more, across month and year ends and leap days |
| `Calendar.NextDayLeavesMonth` | functions/index.js:170 | the loop condition `day.month() == month` turns false exactly after the month's last day, and the next date is then the 1st |
| `Calendar.IsoWeekday` | functions/index.js:171 | `isoWeekday()` is between 1 and 7, so the counting guard is always truthy |
| `Calendar.NextDayWeekday` | functions/index.js:171 | stepping one day moves the ISO weekday one place round the Monday..Sunday cycle |
| `Calendar.KnownWeekday` | functions/index.js:171 | the weekday numbering agrees with the calendar: 1970-01-01 was a Thursday (4), 2023-11-14 a Tuesday (2) |
| `Calendar.GetWorkDays` | functions/index.js:165-179 | the loop terminates and returns the Gregorian length of the month (28..31); every day walked is counted |
| `Calendar.DaysLeftInMonth` | functions/index.js:181-195 | the days from a date, inclusive, to the end of its month are at least 1 and at most the month's length |
| `Calendar.DaysLeftAdvance` | functions/index.js:181-195 | as today advances within a month the count drops by one; on the last day it is 1 and on the 1st of the next month it restarts at that month's length |
| `Calendar.GetRemainingWorkDays` | functions/index.js:181-195 | the loop terminates and returns the days from today, inclusive, to the end of today's month; never zero |
| `Transactions.FirstDigitFrom` | functions/index.js:161 | the regex scan finds no digit exactly when there is none; otherwise it finds the first digit's index |
| `Transactions.DigitRunEnd` | functions/index.js:161 | `\d+` is greedy: the run from a digit extends over digits only and stops at the end or at a non-digit |
| `Transactions.FirstDigitRun` | functions/index.js:161 | `matches` is null exactly when the string holds no digit; otherwise `matches[0]` is a non-empty run of digits |
| `Transactions.FirstDigitRunIsFirstMaximal` | functions/index.js:161 | `matches[0]` is the first run of digits and is maximal: no digit comes before it and no digit follows it |
| `Transactions.DecimalValue` | functions/index.js:162 | `parseInt` of the digit run: a leading zero does not change the value, as `parseInt("007")` is 7 |
| `Transactions.DecimalRoundTrip` | functions/index.js:162 | `parseInt` of the decimal spelling of a number gives that number back |
| `Transactions.EpochMillis` | functions/index.js:161-162 | the epoch milliseconds are missing exactly when the date string has no digit |
| `Transactions.EpochMillisOfWrapped` | functions/index.js:161-162 | a number spelled between a digit-free prefix and a suffix that does not start with a digit is read back exactly |
| `Transactions.UpstreamDateFormat` | functions/index.js:160-163 | a date of the upstream form "/Date(n)/" is read as epoch milliseconds n |
| `Transactions.ParseTransactionDate` | functions/index.js:160-163 | fails with MalformedDate exactly when the string holds no digit; otherwise formats the first digit run's value |
| `Transactions.ParseEntry` | functions/index.js:114-123 | the map callback succeeds exactly when the record's date holds a digit, fails with MalformedDate otherwise, and on success copies every field but `date` and formats `date` from its epoch milliseconds |
| `Transactions.ParseTransactions` | functions/index.js:113-125 | succeeds exactly when every date parses; then one output per input in the same order, with id, restaurant name and logo, amount, order type and payment method copied and the date formatted from its epoch milliseconds |
| `Transactions.MalformedRecordFailsBatch` | functions/index.js:114-117 | one record whose date has no digit fails the whole batch |
| `Budget.Amounts` | functions/index.js:213 | `map(t => t.amount)` keeps length and order |
| `Budget.Reduce` | functions/index.js:214 | `reduce((total, amount) => total + amount)` from a running total equals that total plus the independently defined arithmetic sum of the rest |
| `Budget.SumAppend` | functions/index.js:211-215 | the sum of a concatenation is the sum of the parts' sums, negative amounts included |
| `Budget.SumTransactions` | functions/index.js:211-215 | fails with EmptyBatch exactly on an empty batch; otherwise returns the arithmetic sum of all amounts |
| `Budget.SumTransactionsSplit` | functions/index.js:211-215 | the total of a non-empty batch is the sum of the totals of any two parts it is split into |
| `Budget.SumOfOne` | functions/index.js:211-215 | on a single transaction the total is its amount |
| `Budget.Summarize` | functions/index.js:133-139 | the monthly budget is `DAILY_LUNCH_BUDGET` (40, line 15) per day; remaining budget plus total spent is the monthly budget; the average times the batch size is the total spent; the remaining average times the days left is the remaining budget |
| `Budget.MonthLength` | functions/index.js:129-133 | the work days counted for the first transaction's month: 0 exactly when its date is invalid, otherwise 28 to 31 |
| `Budget.InvalidDateGivesNoBudget` | functions/index.js:129-137 | an invalid first date gives 0 work days, a monthly budget of 0 and a remaining budget of minus the total spent |
| `Budget.RefundScenario` | functions/index.js:133-139 | amounts 50 and -10 over 20 days with 10 left give total 40, budget 800, remaining 760, average 20, remaining average 76 |
| `Budget.BuildResponse` | functions/index.js:127-158 | fails with EmptyBatch exactly on an empty batch; otherwise the transactions are returned unchanged and the summary is computed from the work days of the first transaction's month (0 when its date is invalid) and the days left from today |

## Left out

- The HTTP handlers `updateUser`, `tenbisLogin` and `getTransactions` (functions/index.js:29-84) are left out: they are request and response I/O.
- `fetchTenbisUid` (functions/index.js:86-103) is left out: it is a Firestore lookup.
- `fetchTransactions` and `createService` (functions/index.js:22-27, 105-111) are left out: they are axios network calls.
- The Firebase initialisation and the `unhandledRejection` logger (functions/index.js:7-10, 17-20) are left out: they are process-wide side effects.
- `getMonthHolidays` (functions/index.js:197-209) is left out. It calls the Hebcal library, nothing calls it, and it returns `undefined`. Its filter callback never returns a value, so it would keep no entry anyway.
- Timezone conversion and ISO formatting by moment-timezone (functions/index.js:129-131, 162) are parameters (`format`, `zonedYearMonth`). They depend on the Asia/Jerusalem daylight-saving tables.
- The wall clock read by `moment.tz('Asia/Jerusalem')` (functions/index.js:182) is the parameter `today`. Time of day is not modelled: the loops step whole civil dates.
- JavaScript floating point is left out. Amounts, sums and divisions use exact `real` arithmetic, and the precision loss of `parseInt` above 2^53 is not modelled.
- The untyped upstream JSON is left out. A record is a fixed `RawTransaction` with an integer id, so missing fields and non-string dates are not modelled.
- `buildResponse` returns a Promise; the model returns a `Result` instead. The error values `MalformedDate` and `EmptyBatch` name what the JavaScript `TypeError`s are about.
