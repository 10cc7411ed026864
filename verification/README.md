# Due-date lifecycle of the case-management tool

This project models the two daily jobs of the case-management tool (a Flask
application that tracks clients and their cases). Both jobs work on a case's
dates:

- **Due-soon scan** (`notify_due_cases`). It computes `today + N days` and
  selects every case whose `due_date` is exactly that date. For each match it
  attempts one reminder by email and one by Telegram. The reminder holds the
  case title, its due date and its client id. `N` is the
  `CASE_DUE_NOTIFY_DAYS` setting, default 3 (config.py:24; `DueNotify.DefaultNotifyDays`).
- **Payment rollover** (`auto_extend_due_date`). Every case whose `pay_date`
  is today gets a new `due_date`. If the case had a due date, the new one is a
  calendar month after it. If it had none, the new one is a calendar month
  after today. Each case is committed on its own.

The store is a `seq<Case>` in query order. `today` and `N` are parameters.
Both jobs are pure functions. The date arithmetic that Python gets from
libraries is written out:

- `Calendar.AddDays` is `date + timedelta(days = n)`. As in CPython, it adds
  `n` to the day ordinal (`toordinal`, day 1 = 0001-01-01). The result must
  fall in 1 .. 3652059 (0001-01-01 .. 9999-12-31). Otherwise Python raises
  OverflowError, which the model returns as `None`. `Calendar.FromOrdinal`
  (`date.fromordinal`) is proved to invert `Calendar.ToOrdinal`.
- `Calendar.AddMonths` is `date + relativedelta(months = k)` from dateutil.
  The month moves on by `k`, December wraps to January of the next year, and
  the day is clamped to the length of the target month under the Gregorian
  leap-year rule. A result year past 9999 makes `date.replace` raise
  ValueError, which the model returns as `None`.

Modules:

- `Wrappers` (wrappers.dfy): `Option`.
- `Calendar` (calendar.dfy): dates, ordinals, `AddDays` and `AddMonths`.
- `Cases` (cases.dfy): the `Case` row, `Reminder` and `Send`.
- `DueNotify` (due_notify.dfy): the due-soon scan.
- `AutoExtend` (auto_extend.dfy): the payment rollover.

Further points of the program the model keeps:

- `CASE_DUE_NOTIFY_DAYS` is read with `int()` (config.py:24), so `N` may be
  negative and then looks backwards; the model takes any `int`.
- `notify_due_cases` returns nothing; the model returns the selected cases and
  the send attempts.
- If an exception stops the rollover part-way, the cases already committed
  stay rolled over (`AutoExtend.RolloverOutcome.Aborted`). The model keeps this
  partial-batch behaviour.

## Model

| member | source | states |
|---|---|---|
| Calendar.DaysInMonth | app.py:243 | a month has 28 to 31 days, and February has 29 exactly in a Gregorian leap year (the month lengths relativedelta clamps to) |
| Calendar.ToOrdinal | app.py:229 | `date.toordinal`: a valid date's day number lies inside its own year's block of days and within 1 .. 3652059; BeforeIffOrdinalLess shows it preserves date order, and AddOneDayIsNextDay shows consecutive days get consecutive numbers |
| Calendar.FromOrdinal | app.py:229 | `date.fromordinal`: every ordinal in 1 .. 3652059 names a valid date whose ordinal is that number |
| Calendar.OrdinalRoundTrip | app.py:229 | date to ordinal to date gives back the date, and ordinal to date to ordinal gives back the ordinal |
| Calendar.OrdinalInRange | app.py:229 | every valid date (years 1 .. 9999) has an ordinal in 1 .. 3652059 |
| Calendar.BeforeIffOrdinalLess | app.py:229-230 | date comparison (year, then month, then day) agrees with ordinal comparison, and equal ordinals mean equal dates |
| Calendar.AddDays | app.py:229 | `today + timedelta(days)` is defined exactly when the ordinal sum stays in range (else OverflowError); the result is a valid date exactly `n` ordinals on |
| Calendar.AddDaysZero | app.py:229 | adding zero days gives back the same date |
| Calendar.AddOneDayIsNextDay | app.py:229 | adding one day matches the calendar rule for tomorrow: next day in the month, first day of the next month, first of January next year, or an overflow after 9999-12-31 |
| Calendar.AddDaysCompose | app.py:229 | adding `m` days and then `n` more is adding `m + n` days |
| Calendar.AddDaysMovesInDirection | app.py:229 | a positive offset lands strictly later, a negative one strictly earlier, and only zero gives back the same date |
| Calendar.AddDaysInjective | app.py:229-230 | two different offsets from the same day never reach the same date (a failed addition differs from any date), so the exact-match query hits only one offset |
| Calendar.AddDaysExample | app.py:229 | 2025-06-07 plus three days is 2025-06-10 |
| Calendar.AddMonths | app.py:243 | `relativedelta(months = k)` fails exactly past December 9999; otherwise the result is valid, exactly `k` calendar months on, and its day is the old day clamped to the target month's length |
| Calendar.AddMonthsIsLater | app.py:243-245 | adding at least one month always gives a strictly later date |
| Calendar.AddOneMonth | app.py:243-245 | one month on: the month goes up by one with the day clamped, December goes to January of the next year with the same day, and December 9999 fails |
| Calendar.TwoStepsVersusJump | app.py:243 | two single-month steps reach the same month as one two-month jump, never a later day, and the same date when the first step did not clamp |
| Calendar.AddOneMonthExamples | app.py:243 | 2024-01-31 goes to 2024-02-29, 2025-01-31 to 2025-02-28, 2025-05-15 to 2025-06-15, and 2024-12-31 to 2025-01-31 |
| Calendar.ClampingMakesStepsDiffer | app.py:243 | 2025-01-31 plus two months is 2025-03-31, but 2025-02-28 plus one month is 2025-03-28 |
| DueNotify.DueOn | app.py:230 | the query keeps exactly the cases whose due date equals the target date, each as many times as the store holds it, and never a case with no due date |
| DueNotify.DueOnAppend | app.py:230 | the query keeps store order: selecting from two concatenated stores is concatenating their selections |
| DueNotify.SendsFor | app.py:231-234 | two sends per selected case, in order: an email, then a Telegram message, each carrying that case's title, due date and client id |
| DueNotify.NotifyDueCases | app.py:226-234 | the scan fails (OverflowError) exactly when `today + N` leaves the date range; otherwise it selects, in store order, each store case whose due date is `N` days after today by ordinal count, as many times as the store holds it and no other case, and it emits one email and one Telegram reminder per selected case |
| DueNotify.ScanExcludesNeighbours | app.py:229-230 | a case due `N - 1` or `N + 1` days out, or with no due date, is not selected |
| DueNotify.ScanIsNotDeduplicated | app.py:226-234 | the scan writes no store and keeps no record of sends, so two runs on the same day send exactly the sends for the selection taken twice |
| DueNotify.ScanRemindsTwice | app.py:231-234 | over two runs on the same day, each selected case's email and Telegram reminder each go out twice, at matching positions of the two runs |
| DueNotify.ScanDayUnique | app.py:229-230 | a case whose due date does not change is selected on one scan day only, the day it is exactly `N` days out |
| DueNotify.ScanExample | app.py:226-234 | a case due 2025-06-10, scanned on 2025-06-07 with the default three days, gets one email and one Telegram reminder with its title, due date and client id |
| AutoExtend.ExtendedDue | app.py:242-245 | the new due date counts one month from the old due date, or from today when there is none; it is valid and strictly later, it fails exactly when that date is in December 9999, and otherwise it is one calendar month on |
| AutoExtend.AutoExtendDueDate | app.py:236-247 | store length is kept; every case the job reaches is rolled over if paid today and untouched otherwise; an abort happens only at a paid case whose month addition fails, and every case from that point on stays as it was |
| AutoExtend.RolloverFrame | app.py:239-245 | cases not paid today are unchanged, and for paid cases every column except `due_date` keeps its value |
| AutoExtend.RolloverAdvances | app.py:242-245 | a reached paid case now falls due `AddMonths(old due, 1)`, or `AddMonths(today, 1)` when it had none, strictly later than the date counted from |
| AutoExtend.RolloverCompletesIff | app.py:240-246 | the job runs to the end exactly when month addition succeeds for every paid case |
| AutoExtend.RolloverNotIdempotent | app.py:236-247 | whether the first run completed or stopped part-way, `pay_date` is never cleared, so a second run on the same day matches every case the first run reached and committed and moves its due date a further month on; the second run never completes with the store unchanged: it either moves a reached paid case a further month on or aborts |
| AutoExtend.RolloverTwiceExample | app.py:236-247 | from 2025-01-31, two runs on the same day reach 2025-02-28 and then 2025-03-28, while a two-month jump would give 2025-03-31 |
| AutoExtend.RolloverAfterAbortExample | app.py:236-247 | with a case due 2025-01-31 ahead of one due 9999-12-05, both paid today, the first run commits 2025-02-28 and aborts at the second case; a second run on the same day commits 2025-03-28 and aborts again |
| AutoExtend.RolloverExamples | app.py:236-247 | paid on 2025-06-07: due 2025-05-15 moves to 2025-06-15, and no due date becomes 2025-07-07 |

## Left out

- Flask routes, templates and login (including the plaintext password comparison): web surface with no date logic.
- SQLAlchemy persistence: the store is an in-memory sequence in query order, and a per-record `db.session.commit()` is a position in that sequence the job has reached.
- Email and Telegram transport (app.py:208-224): each send is modelled as one attempt event. Exceptions the senders raise are caught and only printed there, so a failed send does not stop the scan.
- A blocking email send: `mail.send` (app.py:211) has no timeout, unlike the Telegram post (app.py:221). This matters only once `MAIL_DEFAULT_SENDER` is configured: config.py defines no such key, so as shipped `app.config['MAIL_DEFAULT_SENDER']` (app.py:210) raises KeyError inside the `try`, the error is printed (app.py:213), and every email reminder is a failed attempt. With that key set, an SMTP server that never answers would stall the scan loop (app.py:231-234). The model treats every attempt as returning.
- The new-case notification in `add_case` (app.py:153-158): a web-surface action, not part of the due-date jobs.
- The APScheduler cron wiring and the Asia/Taipei timezone (app.py:249-255): background clock plumbing. Both jobs take `today` as a parameter instead of reading `datetime.today()`. Two consequences of that wiring stay outside the model. First, APScheduler calls the jobs without a Flask application context, and with Flask-SQLAlchemy 3.0 or later `Case.query` (app.py:230, 239) then raises RuntimeError; which library version is installed is not recorded here. Second, `datetime.today()` (app.py:228, 237) reads the host's local date, not the Asia/Taipei date, so on a UTC host the 01:00 Taipei rollover sees the previous Taipei day.
- The message text with its Chinese formatting: a reminder is a record of title, due date and client id. The email subject (fixed text, app.py:233) and the recipient (the `NOTIFY_EMAIL` setting) are not modelled.
- The log line printed after each rollover (app.py:247): diagnostics only.
- The `fee` column and the client table: no date logic reads them. `Case.title`, `Case.clientId` and the text columns are modelled as always present, because no branch depends on them being NULL.
- Configuration loading (config.py): only the default of three days is kept, as `DueNotify.DefaultNotifyDays`.
- Calendar.AddMonths: relativedelta also accepts negative month counts. The model covers only `k >= 0` because the jobs only add months. The code always uses `k = 1`; larger `k` exists only to compare two steps with one jump.
