# Rent reminder billing, modelled in Dafny

`rent.py` mails each member of a shared household a monthly statement. The
statement holds their rent and their part of the month's utility bills.
This project models the billing calculation behind that statement and proves
what it promises:

- **Due date.** Rent is due on the first of the month after the reminder runs
  (`today`). December rolls over to January of the next year.
- **Rent schedule.** The schedule is a list of entries `{since, splits}`. Rent
  is looked up for the due date. The lookup walks the schedule from its last
  entry to its first and returns the splits of the first entry whose `since`
  is on or before that date. It fails when no entry qualifies. The reminder
  keeps the due date's splits in a memo after the first successful lookup.
- **Cost components.** A component has a name, a total and the number of payers
  it is divided among. Its share is the total when undivided and the total
  divided by that number otherwise. A divisor below one is rejected.
- **Utilities.** Utility amounts are looked up for the year and month of
  `today`, not of the due date. Everyone in `people` plus one unlisted payer
  shares them.
- **Statement.** A person's statement has a `Rent` line, then one line per
  utility category in ascending name order. Its total is the sum of the
  shares, rounded to cents. The email has the recipients `[email] ++ [cc if
  set] ++ [bcc]` and the headers `From`, `To`, optional `Cc`, `Subject`, in
  that order.

Money is exact (`real`). The configuration is a typed value. The date the
reminder runs is a parameter.

Modules, one file each: `Wrappers` (Option, Result), `Calendar` (dates and the
due-date rule), `Strings` (the order `sorted` uses on string keys, and sorted
key lists), `Configuration` (the configuration and the errors), `Components`
(cost components), `Schedule` (the rent-schedule lookup), `Statement`
(itemisation, sums, rounding, the envelope), and `Reminder` (the
`RentReminder` class, with the memo as a mutable field and the source's loops
as methods).

Errors are `Result` values rather than exceptions. Each one is named after
the case that raises it:

- `RentNotFound`: no schedule entry applies.
- `NoRentFor`: the applicable splits have no entry for the person.
- `NoUtilityInfo(year, month)`: no utility data for that month.
- `UnknownPerson`: the person is not in `people`.
- `BadDivisor`: a component is divided among fewer than one payer.
- `DateOutOfRange`: the due date would fall after the year 9999, where
  Python's `date` raises.
- `YearBefore1900(year)`: Python 2's `strftime` is called on a date before
  1900, where it raises `ValueError`. This happens in the utility lookup's
  error message and in the subject's month name.

Points where the code decides the behaviour:

- The code raises `KeyError` when no schedule entry applies. Here that is
  `RentNotFound`.
- Utilities are keyed on `today`, not on the due date.
- This revision of `rent.py` has no payment links, so none are modelled.
- The "two totals agree" check is a plain `assert` in `email_for`. It is
  modelled as a Dafny `assert` in `RentReminder.EmailFor`, which the verifier
  proves can never fail. There is no "total mismatch" error path.

## Model

| member | source | states |
|---|---|---|
| Calendar.FirstNextMonth | rent.py:16-20 | The result is a first-of-month strictly after the input. It is the earliest such date. It is absent exactly for December of the last representable year, where `date(...)` raises. |
| Calendar.FirstNextMonthRollover | rent.py:16-20 | December gives January 1 of the next year. Any other month gives the 1st of the next month in the same year. |
| Strings.SortedKeys | rent.py:117 | `sorted` lists every category key exactly once, in strictly ascending string order. |
| Components.NewComponent | rent.py:28-39 | Construction succeeds exactly when `divided_among >= 1`. Then the component keeps the given name, total and divisor. Otherwise it fails with `BadDivisor` and constructs nothing. |
| Components.Share | rent.py:34-37 | The share times the divisor is the total. When the divisor is 1, the share is the total itself. |
| Components.SharesCoverTotal | rent.py:34-35 | Adding up one share per payer gives back the component's total. |
| Schedule.ApplicableSplitsPicksLast | rent.py:102-105 | If entry `i` applies to the date and no later entry does, the lookup returns entry `i`'s splits. |
| Schedule.ApplicableSplitsFails | rent.py:102-107 | The lookup fails exactly when no entry has `since <= date`, which includes the empty schedule. The failure names the date. |
| Schedule.ApplicableSplitsLatest | rent.py:102-105 | On a schedule sorted by `since`, the returned splits belong to an entry whose `since` is the latest one on or before the date. |
| Statement.UtilityParts | rent.py:117-118 | There is one component per key, in key order. Each carries that category's amount and is divided among the payers. |
| Statement.ItemizeShape | rent.py:112-120 | A statement has `1 + number of categories` lines. Line 0 is `Rent` with divisor 1. Every other line names a category and carries its amount and the payer count. |
| Statement.ItemizeLines | rent.py:117-118 | Line `i`, after the rent line, is the component of the `i`-th category in sorted order. |
| Statement.ItemizeAscending | rent.py:117 | The utility lines come in strictly ascending category order, so no category appears twice. |
| Statement.ItemizeCoversCategories | rent.py:117-118 | Every utility category of the month has a line. |
| Statement.UtilitySharesSum | rent.py:117-118 | The utility lines' shares add up to the sum of the utility amounts divided by the payer count. |
| Statement.ItemizedTotal | rent.py:82-83 | The sum of a statement's shares equals rent plus the utility total divided by the number of payers. |
| Statement.WorkedExampleLines | rent.py:112-120 | Rent 1000 and utilities Electric 90 and Water 30, among 3 payers, give the lines Rent, Electric, Water in that order. |
| Statement.WorkedUtilityTotal | rent.py:82-83 | The utility bill of that example is 120. |
| Statement.WorkedExampleTotal | rent.py:82-83 | That example's shares add up to 1040. |
| Statement.Round2 | rent.py:138 | `round(x, 2)` on an exact value gives a whole number of cents within half a cent of `x`. Halves round away from zero. |
| Statement.Round2Idempotent | rent.py:138-139 | Rounding a value that is already rounded changes nothing. |
| Reminder.RentReminder.constructor | rent.py:49-58 | The reminder keeps the configuration and `today`. Its due date is the first of the next month. The memo starts empty. |
| Reminder.RentReminder.Create | rent.py:49-58 | Construction fails with `DateOutOfRange` exactly when `today` is in December 9999. Otherwise it gives a fresh reminder with an empty memo. |
| Reminder.RentReminder.RentsAsOf | rent.py:95-107 | The reverse loop with an early return gives exactly the schedule lookup: the last entry in force on the date, or `RentNotFound`. |
| Reminder.RentReminder.DueDateRents | rent.py:88-93 | The result is the lookup for the due date. The first successful call fills the memo. Once the memo is filled, later calls return it unchanged and do not look the schedule up again. A failed lookup leaves the memo unset. |
| Reminder.RentReminder.RentFor | rent.py:63-65 | The result is the person's entry in the due date's splits. It is the lookup's error when no entry applies, and `NoRentFor` when the person is missing from the splits. The memo is filled when the due-date lookup succeeds and is otherwise left as it was. |
| Reminder.RentReminder.UtilityInfo | rent.py:67-73 | The lookup succeeds exactly when `utilities` has the year and month of `today`, and returns those amounts. Otherwise it fails with `NoUtilityInfo` naming that year and month. When `today` is before 1900 it fails with `YearBefore1900` instead, because formatting the message raises first. |
| Reminder.RentReminder.NumPayers | rent.py:79-80 | The payer count is the number of people plus one, so it is at least one. |
| Reminder.RentReminder.PartsFor | rent.py:112-120 | The append loop builds exactly the itemised statement for the person's rent and this month's utilities. Rent errors come before utility errors. Every line has a divisor of at least one. The memo is filled when the due-date lookup succeeds and is otherwise left as it was. |
| Reminder.RentReminder.PartsOfTotal | rent.py:82-83 | A statement that can be built has shares that add up to rent plus the utility total divided by the payer count. |
| Reminder.RentReminder.TotalFor | rent.py:82-83 | The result is the sum of the statement's shares, which equals rent plus the utility total divided by the payer count. It returns the statement's error when there is one. The memo is filled when the due-date lookup succeeds and is otherwise left as it was. |
| Reminder.RentReminder.EmailFor | rent.py:122-143 | An unknown person fails with `UnknownPerson` and leaves the memo as it was. For a known person the memo is filled when the due-date lookup succeeds and is otherwise left as it was. A known person's call fails exactly when the statement does or the due date is before 1900. A failed statement gives the statement's error. A statement built for a due date before 1900 gives `YearBefore1900`, because the subject's month name cannot be formatted. On success, recipients are `[email] ++ [cc if set] ++ [bcc]`, not deduplicated. Headers are `From`, `To`, `Cc` if set, then `Subject` with the due month and total. The total is the rounded sum of the shares, which equals the rounded rent plus the utility total divided by the payer count. The double check of the total is proved never to fail. |

## Left out

- Loading the YAML configuration (`load_config`, rent.py:60-61): file I/O and a foreign parser. The configuration is a typed value. Missing keys (`utilities`, `rent`, `email`, a person's `email` or `cc`) cannot occur in it, so their `KeyError`s are not modelled.
- The clock (`date.today()`, rent.py:53 and rent.py:100): `today` is a parameter. `RentsAsOf` always takes an explicit date.
- Sending mail and dry-run printing (`send_email`, `send_email_for`, rent.py:158-180), the batch over all people (`send_all_email`, rent.py:183-185), and the command line (rent.py:187-201): I/O and glue.
- The "Using rent as of" console line (rent.py:104): output only.
- Python `float` arithmetic (rent.py:35, rent.py:118, rent.py:138): money is exact `real`, so float rounding drift is not modelled. `round(..., 2)` is modelled on exact values.
- Text rendering: `RentComponent.__str__` (rent.py:41-46), `due_month_name`/`strftime('%B')` (rent.py:109-110), the subject text, and the message layout (rent.py:141-155). The `Subject` header carries the due month and total as values. Only the month name's text is left out: its failure for a due date before 1900 is modelled as `YearBefore1900`. The body is the list of components plus the total.
- `utility_info_share` (rent.py:75-77): an unused helper.
- `all_rents` (rent.py:85-86): read directly as the configuration's `rent` field.
- Components.NewComponent: the divisor is an integer. Python would also accept a float divisor, which the source never passes.
