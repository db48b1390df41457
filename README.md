# revenue-automation: ASC 606 engine and dashboard, modelled in Dafny

This project models the calculating core of revenue-automation. The system reads contracts and turns them into ASC 606 revenue schedules. The model covers the following parts.

- **The ASC 606 engine.**
  - The performance obligation, discount and schedule records.
  - The discount handler. It spreads a global discount over the obligations by standalone selling price (SSP). It gives an obligation-specific discount to the obligations it names. It updates the obligations in place.
  - The revenue schedule generator. Point-in-time obligations get one entry, or one per milestone, on the effective date. Over-time obligations are cut into monthly, quarterly, yearly or every-N-months periods by a cursor loop.
  - The engine that runs these steps and serialises the schedule with ISO dates.
- **The job's pure parts.**
  - The time-saved estimate.
  - The obligation name-to-id map.
  - The conversion of the engine's schedule dictionaries into stored rows.
- **The contract pre-processor.** It has two parts: the section splitter, given the heading matches, and the relevance filter.
- **The upload text extractor.** It covers the extension, the supported-type gate, the dispatch to an extractor and the `file_info` counts.
- **The React front end.**
  - The upload form's checks and its idle/uploading/success/error state machine.
  - The dashboard's load, refresh and select handlers, its formatters, its status badge and its header counts.
  - The contract list, the audit memo panel and the revenue schedule table.
  - The time-saved meter.

The following are parameters of the model:

- `round(x, 2)`;
- `date.today()` and `datetime.now()`, each read once for the whole run;
- the document libraries;
- the heading, date and money regular expressions;
- the locale formatters;
- every API call's outcome.

Amounts are reals. Dates are a `Date(year, month, day)` datatype with Python's `datetime.date` rules.

Object state lives in classes:

- `PerformanceObligation`, `DiscountHandler`, `RevenueScheduleGenerator` and `Asc606Engine`;
- the component state `ContractUploadState` and `DashboardState`.

The loops and the engine's methods are proved against specification functions:

- the generators' `while` loops against `WalkFrom`;
- the discount loops against `ApplyGlobal`, `ApplySpecific` and `ApplyAll`;
- `generate_schedule` against `ScheduleRun`;
- the job's two loops against `NameMap` and `RowsFor`, and the pre-processor's two loops against `Sections` and `RelevantSections`.

The component state classes `ContractUploadState` and `DashboardState` are the exception: their methods state each new field directly.

The lemmas then prove the following about those functions:

- tiling, ordering and bounds of the periods;
- conservation of contract value under discounts;
- the ISO round trip of the engine's output;
- stopping at the first error.

## Model

| member | source | states |
|---|---|---|
| Calendar.DaysInMonth | app/ASC606/revenue_schedule.py:251 | `calendar.monthrange(y, m)[1]` is 28 to 31: 29 exactly for February of a Gregorian leap year, 28 for February otherwise, 30 exactly for April, June, September and November |
| Calendar.AddMonths | app/ASC606/revenue_schedule.py:246-253 | `_add_months(d, n)` for n >= 0 is a valid date exactly n calendar months later, with the day clamped to the last day of that month; for n >= 1 it is strictly later than d |
| Calendar.AddMonthsBy | app/ASC606/revenue_schedule.py:246-253 | `_add_months` for a month count of either sign: a date exactly that many months away, or the `ValueError` of a year before 1; it agrees with `AddMonths` for n >= 0 and goes backward for n < 0 |
| Calendar.NextDay | app/ASC606/revenue_schedule.py:110 | `date + timedelta(days=1)` is a valid date after its argument |
| Calendar.PrevDay | app/ASC606/revenue_schedule.py:110 | `date - timedelta(days=1)` is a valid date before its argument, and the next day after it is the argument again |
| Calendar.NextDayIsSuccessor | app/ASC606/revenue_schedule.py:110 | no date lies strictly between a date and the day after it |
| Calendar.PrevDayIsPredecessor | app/ASC606/revenue_schedule.py:203 | no date lies strictly between the day before a date and that date |
| Calendar.Earlier | app/ASC606/revenue_schedule.py:111-112 | `if period_end > end_date: period_end = end_date` leaves the earlier of the two dates |
| Calendar.MonthIndexOrder | app/ASC606/revenue_schedule.py:104 | a date in an earlier calendar month is an earlier date |
| Calendar.NotAfterMonthIndex | app/ASC606/revenue_schedule.py:104 | a date that is not after another is not in a later calendar month |
| Calendar.QuarterOf | app/ASC606/revenue_schedule.py:224 | `(month - 1) // 3 + 1` is between 1 and 4, and the month lies in that quarter's three months |
| Calendar.QuarterEnd | app/ASC606/revenue_schedule.py:234-244 | `_get_quarter_end` is the last day of the quarter that holds the date, in the same year, and is not before the date |
| Calendar.NextQuarterStart | app/ASC606/revenue_schedule.py:222-232 | `_get_next_quarter_start` is the first day of the next quarter (January 1 of the next year after Q4) and is strictly after the date |
| Calendar.QuarterEndPrecedesNextQuarter | app/ASC606/revenue_schedule.py:222-244 | the day after a quarter's end is the next quarter's start, so the quarters tile the calendar |
| Calendar.ReplaceYear | app/ASC606/revenue_schedule.py:185 | `date.replace(year=y)` fails exactly for February 29 into a common year, and otherwise keeps month and day |
| Calendar.YearEnd | app/ASC606/revenue_schedule.py:168 | `date.replace(month=12, day=31)` is December 31 of the same year, not before the date, and the day after it is January 1 of the next year |
| Calendar.IsoFormat | app/ASC606/engine.py:53-54 | `isoformat()` of a date before year 10000 is ten characters with dashes at positions 4 and 7 |
| Calendar.ParseIsoDate | app/jobs/revenue_recognition_job.py:112-115 | `fromisoformat` on the `YYYY-MM-DD` strings the engine writes yields only valid dates |
| Calendar.IsoRoundTrip | app/ASC606/engine.py:53-54 | what `isoformat()` writes, `fromisoformat` reads back as the same date, for every date of years 1 to 9999 |
| Asc606Models.PerformanceObligation.constructor | app/ASC606/models.py:12-23 | the dataclass constructor stores every field given, with `discount_applied` 0.0 |
| Asc606Models.Records | app/ASC606/models.py:12-23 | the field values of a list of obligations, one record per obligation in list order |
| RevenueSchedule.ParseInterval | app/ASC606/revenue_schedule.py:191-193 | parsing `every_<n>_months` fails only as the unbound `interval_months` (the split parts do not match) or as `int()` rejecting `<n>` |
| RevenueSchedule.ParseFrequency | app/ASC606/revenue_schedule.py:85-99 | the dispatch, in both directions: "monthly", "quarterly" and "yearly" exactly give their frequency; a custom one starts with `every_` and carries the parsed interval; the frequency is unsupported exactly when it is none of the three and does not start with `every_` |
| RevenueSchedule.StatusOn | app/ASC606/revenue_schedule.py:121 | an entry is "recognized" exactly when its period starts on or before today, and "deferred" otherwise |
| RevenueSchedule.EntryAt | app/ASC606/revenue_schedule.py:114-123 | the entry a loop appends for one period: the obligation's fields, the period, the per-period amount, the status on today and the creation time; reference definition, no contract of its own |
| RevenueSchedule.Share | app/ASC606/revenue_schedule.py:105-119 | the per-period amount: `round(allocated / total, 2)` when `total > 0`, else 0; reference definition, no contract of its own |
| RevenueSchedule.PeriodCount | app/ASC606/revenue_schedule.py:104-198 | `total_months`, `total_quarters`, `total_years` and `total_months // interval_months` (0 for a non-positive interval); reference definition, no contract of its own |
| RevenueSchedule.PeriodEnd | app/ASC606/revenue_schedule.py:109-112 | the clamped period end is a valid date not after the end date; a forward cursor inside the contract does not end before it starts, and a backward interval ends before its cursor |
| RevenueSchedule.IntervalPeriodEnd | app/ASC606/revenue_schedule.py:203-205 | `_add_months(c, n) - 1 day`, clamped: it always exists for n > 0 and ends no earlier than the cursor, and for n < 0 it lies before the cursor |
| RevenueSchedule.Advance | app/ASC606/revenue_schedule.py:127 | the next cursor is valid and lies in a strictly later calendar month for a forward frequency (earlier for a negative interval); only the yearly step can fail, and it fails exactly from February 29 |
| RevenueSchedule.WalkStep | app/ASC606/revenue_schedule.py:108-127 | one loop iteration inside the contract appends the entry of the current period before the entries of the walk from the next cursor |
| RevenueSchedule.WalkStepIndexed | app/ASC606/revenue_schedule.py:108-127 | the same step, entry by entry: the first entry and then the later walk shifted by one |
| RevenueSchedule.WalkFrom | app/ASC606/revenue_schedule.py:107-128 | the entries a `while current_date <= end_date` loop appends from a cursor, and whether it ends without raising; the reference definition every generator loop's ensures is proved against |
| RevenueSchedule.WalkStop | app/ASC606/revenue_schedule.py:166-185 | when advancing raises, the walk ends with the one entry appended before the exception |
| RevenueSchedule.MonthlyStep | app/ASC606/revenue_schedule.py:107-127 | the monthly period ends the day before `_add_months(c, 1)`, clamped to the end date, and the next cursor is `_add_months(c, 1)` |
| RevenueSchedule.QuarterlyStep | app/ASC606/revenue_schedule.py:138-158 | the quarterly period ends at the quarter end, clamped, and the next cursor is the next quarter's start |
| RevenueSchedule.YearlyStep | app/ASC606/revenue_schedule.py:166-185 | the yearly period ends at December 31 or the end date, whichever is earlier, and the next cursor is `replace(year + 1)` |
| RevenueSchedule.CustomStep | app/ASC606/revenue_schedule.py:200-220 | the custom period ends the day before `_add_months(c, n)`, clamped, and the cursor moves to `_add_months(c, n)` or raises when that date does not exist |
| RevenueSchedule.PointInTimeEntries | app/ASC606/revenue_schedule.py:43-71 | one entry per milestone, named "<obligation> - <milestone>" with the rounded milestone value (0 when absent), or one entry for the rounded allocated amount; every entry is "recognized", "point_in_time" and dated on the effective date |
| RevenueSchedule.LoopOutcomeOfWalk | app/ASC606/revenue_schedule.py:101-220 | a generator loop that terminates appends exactly the entries of its walk and raises only if the walk does |
| RevenueSchedule.OverTimeOutcome | app/ASC606/revenue_schedule.py:73-99 | the recognition-period, frequency and end-date checks, then the generator the frequency names; reference definition for `ProcessOverTimeObligation` |
| RevenueSchedule.ObligationOutcome | app/ASC606/revenue_schedule.py:33-38 | the dispatch on the recognition method, with an unsupported one as the error; reference definition for one iteration of `generate_schedule` |
| RevenueSchedule.ScheduleRun | app/ASC606/revenue_schedule.py:22-40 | the obligations in order, stopping at the first that raises; the reference definition `GenerateSchedule`'s loop is proved against |
| RevenueSchedule.ScheduleRunStep | app/ASC606/revenue_schedule.py:32-38 | after a prefix that raised nothing, the next obligation's entries are appended, and its error, if any, stops the run |
| RevenueSchedule.ScheduleRunStopsAtError | app/ASC606/revenue_schedule.py:32-38 | once an obligation raises, the later obligations are never processed |
| RevenueSchedule.RevenueScheduleGenerator.constructor | app/ASC606/revenue_schedule.py:18-20 | the generator keeps the contract and starts with an empty schedule |
| RevenueSchedule.RevenueScheduleGenerator.GenerateSchedule | app/ASC606/revenue_schedule.py:22-40 | the obligations' entries are appended in order to the generator's own list; it returns that list, or the first obligation's exception after the entries appended so far |
| RevenueSchedule.RevenueScheduleGenerator.ProcessPointInTimeObligation | app/ASC606/revenue_schedule.py:43-71 | appends exactly `PointInTimeEntries` of the obligation |
| RevenueSchedule.RevenueScheduleGenerator.ProcessOverTimeObligation | app/ASC606/revenue_schedule.py:73-99 | raises for a missing or empty recognition period, a missing frequency key, a missing end date or an unsupported frequency; otherwise runs the generator its frequency names |
| RevenueSchedule.RevenueScheduleGenerator.GenerateMonthlySchedule | app/ASC606/revenue_schedule.py:101-127 | its loop appends exactly the monthly walk's entries, each with `round(allocated / total_months, 2)` |
| RevenueSchedule.RevenueScheduleGenerator.GenerateQuarterlySchedule | app/ASC606/revenue_schedule.py:130-158 | its loop appends exactly the quarterly walk's entries, each with `round(allocated / total_quarters, 2)` |
| RevenueSchedule.RevenueScheduleGenerator.GenerateYearlySchedule | app/ASC606/revenue_schedule.py:161-185 | its loop appends exactly the yearly walk's entries, and it reports the `ValueError` of advancing from February 29 |
| RevenueSchedule.RevenueScheduleGenerator.GenerateCustomIntervalSchedule | app/ASC606/revenue_schedule.py:187-220 | an unparsable frequency raises before the loop, a zero interval never advances, and otherwise the loop appends exactly the interval walk's entries and ends as that walk does |
| ScheduleProperties.ForwardWalkBounds | app/ASC606/revenue_schedule.py:107-112 | entries in both directions: a forward walk has entries exactly when the cursor is not after the end date; the first starts at the cursor, and every entry starts no earlier than the cursor and has `start <= end <= end_date` |
| ScheduleProperties.ForwardWalkOrdered | app/ASC606/revenue_schedule.py:107-127 | the entries of a forward walk start on strictly increasing dates |
| ScheduleProperties.RecognizedPrefix | app/ASC606/revenue_schedule.py:121 | the recognized entries of a forward walk all come before the deferred ones |
| ScheduleProperties.ClampTile | app/ASC606/revenue_schedule.py:110-112 | clamping the unclamped end keeps it when the next cursor is still in the contract, and gives the end date otherwise |
| ScheduleProperties.TileStep | app/ASC606/revenue_schedule.py:107-158 | a monthly, quarterly or positive-interval period ends the day before the next cursor while that cursor is inside the contract, and on the end date otherwise |
| ScheduleProperties.ForwardWalkTiles | app/ASC606/revenue_schedule.py:107-158 | monthly, quarterly and positive-interval walks finish without raising; each period starts the day after the previous one ends, and the last ends on the end date, so the periods tile the contract |
| ScheduleProperties.YearlyWalk | app/ASC606/revenue_schedule.py:166-185 | the k-th yearly entry starts k years after the cursor, on the same month and day, and ends at December 31 or the end date; the walk raises exactly when it reaches February 29 inside the contract |
| ScheduleProperties.YearlyGap | app/ASC606/revenue_schedule.py:166-185 | example: a contract from 2024-03-15 to 2025-02-01 gets one yearly entry, ending 2024-12-31, so January 2025 is not covered |
| ScheduleProperties.MonthlyCount | app/ASC606/revenue_schedule.py:104-108 | the monthly walk has `total_months` entries or one fewer, never any other number |
| ScheduleProperties.MonthlyDriftDropsAPeriod | app/ASC606/revenue_schedule.py:104-128 | the one-fewer case occurs: from 2024-01-31 to 2024-03-15 the cursors clamp to 2024-02-29 and drift to 2024-03-29, so two entries of the monthly share are appended while `total_months` is 3, and the entries add up to two thirds of the allocated amount |
| ScheduleProperties.MonthlyDriftLastStep | app/ASC606/revenue_schedule.py:111-128 | from 2024-02-29 one entry is appended and the next cursor, 2024-03-29, ends the loop before an end date of 2024-03-15 |
| ScheduleProperties.MonthlyIsEveryOneMonth | app/ASC606/revenue_schedule.py:101-127 | a "monthly" schedule is the same walk as an "every_1_months" one |
| ScheduleProperties.BackwardWalkFails | app/ASC606/revenue_schedule.py:200-220 | a negative interval moves the cursor backward: every entry ends before it starts, and the walk raises exactly when it starts inside the contract |
| ScheduleProperties.LongIntervalHasZeroAmount | app/ASC606/revenue_schedule.py:196-198 | an interval longer than the contract makes `total_periods` 0, and every entry's amount 0 |
| ScheduleProperties.LoopEntriesWithinContract | app/ASC606/revenue_schedule.py:107-220 | with a forward cursor, every over-time entry lies between the effective date and the end date |
| ScheduleProperties.ScheduleRunSucceeds | app/ASC606/revenue_schedule.py:32-40 | `generate_schedule` raises exactly when one of the obligations raises |
| ScheduleProperties.ScheduleRunAppends | app/ASC606/revenue_schedule.py:32-40 | processing more obligations only appends: a prefix's entries are a prefix of the whole run's entries |
| ScheduleProperties.WalkEntriesValid | app/ASC606/revenue_schedule.py:107-220 | every entry of every walk, forward or backward, holds valid dates |
| ScheduleProperties.ObligationEntriesValid | app/ASC606/revenue_schedule.py:32-99 | the entries of one obligation hold valid dates |
| ScheduleProperties.ScheduleRunEntriesValid | app/ASC606/revenue_schedule.py:22-40 | every entry of a schedule run holds valid dates |
| Discounts.ParseDiscount | app/ASC606/discounts.py:28-35 | each field is copied, with the defaults "", "contract_level", 0.0, false and "global", and the target list left absent when missing |
| Discounts.ParseDiscounts | app/ASC606/discounts.py:22-36 | there are no discounts without the `discounts` key; a `None` value is the `TypeError` of iterating it, and nothing else is; a list gives one model per entry, in order |
| Discounts.Discounted | app/ASC606/discounts.py:64-65 | taking x raises `discount_applied` by x, keeps `allocated_amount + discount_applied`, and changes no other field |
| Discounts.ApplyGlobal | app/ASC606/discounts.py:53-67 | a global discount changes nothing unless `total_ssp > 0`; then each obligation takes `ssp / total_ssp` of the discount amount |
| Discounts.ApplySpecific | app/ASC606/discounts.py:70-83 | only obligations whose name is in the target list change, each by `ssp * amount / 100` or the full flat amount |
| Discounts.ApplyAll | app/ASC606/discounts.py:38-50 | each discount is applied in order, by scope, and the obligation list keeps its length |
| Discounts.ApplyAllConserves | app/ASC606/discounts.py:38-83 | a run of discounts changes nothing but the two amounts, and keeps `allocated_amount + discount_applied` for every obligation |
| Discounts.GlobalConserves | app/ASC606/discounts.py:53-67 | a global discount changes only the two amounts and keeps their sum per obligation |
| Discounts.SpecificConserves | app/ASC606/discounts.py:70-83 | an obligation-specific discount changes only the two amounts and keeps their sum per obligation |
| Discounts.DiscountsConserveContractValue | app/ASC606/discounts.py:38-83 | over a whole run, the allocated amounts plus the discounts applied keep their total: value is moved, never lost |
| Discounts.UnknownScopeIgnored | app/ASC606/discounts.py:45-50 | a discount whose scope is neither `global` nor `obligation_specific` has no effect |
| Discounts.SameButAmountsKeepsSsp | app/ASC606/discounts.py:44 | prices never change, so the `total_ssp` computed once before the loop stays the sum of the prices |
| Discounts.GlobalSharesSum | app/ASC606/discounts.py:62-65 | the shares of a global discount add up to `SumSsp / total_ssp` times the discount amount |
| Discounts.GlobalDiscountIsFullyAllocated | app/ASC606/discounts.py:53-65 | with `total_ssp` the positive sum of prices, the shares add up to exactly the discount amount (a percentage of total SSP, or flat) and the allocated amounts fall by it |
| Discounts.SameButAmountsSums | app/ASC606/discounts.py:64-65 | moving amounts between the two fields keeps the sum of both totals |
| Discounts.GlobalSharesProportional | app/ASC606/discounts.py:62-63 | global shares are proportional to the standalone selling prices |
| Discounts.SpecificTotalIsSumOfShares | app/ASC606/discounts.py:76-83 | the discounts applied grow by exactly what the handler adds to `total_discount_amount` |
| Discounts.NoTargetsNoChange | app/ASC606/discounts.py:72-73 | without a target list, an obligation-specific discount changes nothing and adds nothing |
| Discounts.TakeDiscount | app/ASC606/discounts.py:64-65 | the in-place `+=` and `-=` on one obligation |
| Discounts.DiscountHandler.constructor | app/ASC606/discounts.py:17-19 | the handler starts with no discounts and a total of 0.0 |
| Discounts.DiscountHandler.ProcessDiscounts | app/ASC606/discounts.py:22-36 | reports the `TypeError` exactly for a `None` value and then appends nothing; otherwise appends the parsed discounts (none without the key); the total is never changed |
| Discounts.DiscountHandler.ApplyDiscounts | app/ASC606/discounts.py:38-50 | the obligations become `ApplyAll` of their old values under the total SSP computed once, and the total grows by what the run adds; with no discounts nothing changes |
| Discounts.DiscountHandler.ApplyGlobalDiscount | app/ASC606/discounts.py:53-67 | the obligations become `ApplyGlobal` of their old values, and the full discount amount is added to the total even when `total_ssp` is 0 |
| Discounts.DiscountHandler.DiscountIfTargeted | app/ASC606/discounts.py:76-83 | a named obligation takes its share and the total grows by it; any other obligation is untouched |
| Discounts.DiscountHandler.ApplyObligationSpecificDiscount | app/ASC606/discounts.py:70-83 | the obligations become `ApplySpecific` of their old values, and the total grows by the sum of the shares |
| Engine.ObligationOf | app/ASC606/engine.py:67-77 | the model copies each field of its entry, with `recognition_period` {} and `milestones` [] when absent and `discount_applied` 0 |
| Engine.ObligationsOf | app/ASC606/engine.py:65-78 | one obligation per entry, in input order |
| Engine.Rows | app/ASC606/engine.py:49-59 | one output dictionary per schedule entry, in the same order |
| Engine.RowDatesRoundTrip | app/ASC606/engine.py:49-59 | every row's ISO dates read back as the entry's dates, and name and amount are copied |
| Engine.EngineConservesValue | app/ASC606/engine.py:38-41 | the discount step of `process_contract` only moves value between allocated amount and discount applied |
| Engine.Asc606Engine.constructor | app/ASC606/engine.py:25-30 | no contract, no obligations, an empty schedule, a fresh empty discount handler and no generator |
| Engine.Asc606Engine.ProcessPerformanceObligations | app/ASC606/engine.py:65-78 | appends one fresh obligation per input entry, in order, after the old ones |
| Engine.Asc606Engine.GenerateRevenueSchedule | app/ASC606/engine.py:81-84 | a new generator over the engine's contract produces `ScheduleRun` of all the obligations, which replaces the schedule |
| Engine.Asc606Engine.PrepareObligations | app/ASC606/engine.py:38-41 | the contract is stored and its obligations are appended after the old ones; a `None` discounts value raises exactly then, with no discount appended or applied; otherwise its discounts are appended to the handler's and every discount parsed so far is applied to all the obligations under their total SSP |
| Engine.Asc606Engine.ProcessContract | app/ASC606/engine.py:33-62 | a `None` discounts value ends the call with `DiscountsNotIterable` after the obligations are appended, leaving discounts, total and schedule alone; otherwise obligations and discounts are appended, not reset, the schedule is generated from the discounted obligations, the output has one ISO-dated row per entry and `discounts_applied` equal to the number of parsed discounts, and a schedule exception leaves the old schedule |
| RevenueRecognitionJob.RoundHalfEven | app/jobs/revenue_recognition_job.py:31 | Python's `round(x)` is within half of x, and ties go to the even integer |
| RevenueRecognitionJob.RoundHalfEvenMonotone | app/jobs/revenue_recognition_job.py:31 | rounding never reverses the order of two values |
| RevenueRecognitionJob.MemoHours | app/jobs/revenue_recognition_job.py:26 | the memo term is at most one hour, and exactly one hour from 2000 characters |
| RevenueRecognitionJob.ValueHours | app/jobs/revenue_recognition_job.py:27 | the value term is at most one hour, and exactly one hour from 100000 |
| RevenueRecognitionJob.TimeSaved | app/jobs/revenue_recognition_job.py:18-31 | the estimate is a multiple of 0.25 within an eighth of an hour of the total |
| RevenueRecognitionJob.TimeSavedOfNothing | app/jobs/revenue_recognition_job.py:23-31 | with all-zero inputs the estimate is 1.0 |
| RevenueRecognitionJob.TimeSavedMonotone | app/jobs/revenue_recognition_job.py:23-31 | the estimate never decreases when any argument increases |
| RevenueRecognitionJob.TimeSavedAtLeastBase | app/jobs/revenue_recognition_job.py:23-31 | non-negative inputs never bring the estimate below the base hour |
| RevenueRecognitionJob.JobTimeSaved | app/jobs/revenue_recognition_job.py:50-57 | the job always passes 0 obligations, because the engine never writes `performance_obligations_count`, and a missing contract value counts as 0 |
| RevenueRecognitionJob.NameMap | app/jobs/revenue_recognition_job.py:94-106 | the map's keys are exactly the obligation names |
| RevenueRecognitionJob.NameMapLastWins | app/jobs/revenue_recognition_job.py:94-106 | each name maps to the id of its last occurrence |
| RevenueRecognitionJob.BuildObligationMap | app/jobs/revenue_recognition_job.py:94-106 | the loop builds exactly `NameMap` |
| RevenueRecognitionJob.RowFor | app/jobs/revenue_recognition_job.py:108-128 | the stored period dates are the parsed entry dates; a row is recognized exactly when the status is "recognized"; its amount defaults to 0.0; its obligation id exists exactly when the name is in the map; it fails exactly when a date string is not a valid `YYYY-MM-DD` date, carrying the start's string if that one is rejected and the end's otherwise |
| RevenueRecognitionJob.ParseDateField | app/jobs/revenue_recognition_job.py:112-115 | an absent date stays absent; a present one becomes its parsed date, or the error carrying the rejected string |
| RevenueRecognitionJob.RowsFor | app/jobs/revenue_recognition_job.py:108-128 | it succeeds exactly when every entry converts, and then holds one row per entry, in order; a failure carries the string of the first entry that does not convert |
| RevenueRecognitionJob.BuildScheduleRows | app/jobs/revenue_recognition_job.py:108-128 | the loop builds exactly `RowsFor`, stopping at the first rejected date |
| RevenueRecognitionJob.EngineScheduleIsStored | app/jobs/revenue_recognition_job.py:108-128 | the engine's whole schedule is stored: every entry converts, and each stored row carries its entry's dates, amount and status |
| RevenueRecognitionJob.RowsForStopsAtError | app/jobs/revenue_recognition_job.py:108-115 | once a date is rejected, the later entries do not change the outcome |
| RevenueRecognitionJob.UnknownNameHasNoId | app/jobs/revenue_recognition_job.py:117-118 | a name no obligation carries, such as a milestone entry's, gets no obligation id |
| Preprocess.ContentEnd | app/extractor/preprocess.py:119 | section i ends where the next heading starts, or at the end of the text |
| Preprocess.Candidates | app/extractor/preprocess.py:117-121 | the candidate for heading i is its stripped match text and its stripped body |
| Preprocess.Candidate | app/extractor/preprocess.py:117-121 | the section heading i would open: its stripped match text and its stripped body; reference definition for `Candidates` |
| Preprocess.LongSections | app/extractor/preprocess.py:123-124 | keeps only candidates with more than 50 characters of content, and no more of them than there are |
| Preprocess.LongIndices | app/extractor/preprocess.py:123-124 | the kept sections are the long candidates at increasing positions, so `LongSections` keeps their order |
| Preprocess.Sections | app/extractor/preprocess.py:102-126 | the long candidates, in heading order; the reference definition `SplitSections`' loop is proved against |
| Preprocess.SplitSections | app/extractor/preprocess.py:102-126 | `split_sections`' loop returns exactly the long candidates, in heading order |
| Preprocess.LongCandidatesKept | app/extractor/preprocess.py:123-124 | every candidate with more than 50 characters of content is emitted |
| Preprocess.SectionsAfterFirstHeading | app/extractor/preprocess.py:117-124 | every emitted section is the stripped heading and the stripped body of some heading, with more than 50 characters, lying after the first heading |
| Preprocess.FilterRelevantSections | app/extractor/preprocess.py:130-148 | the loop returns exactly `RelevantSections` over the keyword list |
| Preprocess.RelevantSections | app/extractor/preprocess.py:130-148 | the combined strings of the relevant sections, in order; the reference definition `FilterRelevantSections`' loop is proved against |
| Preprocess.FilterIsSubsequence | app/extractor/preprocess.py:135-147 | the output is a subsequence of the input's "title\ncontent" strings, never longer than the input, and holds only relevant sections |
| Preprocess.RelevantSectionsKept | app/extractor/preprocess.py:146-147 | every section with a keyword, a date match or a money match is in the output |
| Preprocess.KeywordIgnoresCase | app/extractor/preprocess.py:142-143 | upper- or lower-casing a section does not change the keyword test |
| FileProcessor.FileExtension | app/utils/file_processor.py:22 | the extension is what follows the last ".", lowercased, or the whole lowercased name with no "." |
| FileProcessor.ExtensionHasNoDot | app/utils/file_processor.py:22 | the extension never holds a "." |
| FileProcessor.ExtensionOfDottedName | app/utils/file_processor.py:22 | a name's final dotless component, lowercased, is its extension |
| FileProcessor.Lines | app/utils/file_processor.py:43 | `splitlines()` gives no more lines than characters, and no line holds a line boundary |
| FileProcessor.LinesOfOneLine | app/utils/file_processor.py:43 | text without a line boundary is one line; the empty text has none |
| FileProcessor.LinesOfCrLf | app/utils/file_processor.py:43 | example: "\r\n" is one boundary, and a trailing boundary adds no empty line |
| FileProcessor.Words | app/utils/file_processor.py:45 | `split()` gives non-empty runs without whitespace, no more than there are characters |
| FileProcessor.WordsOfSpaces | app/utils/file_processor.py:45 | whitespace alone holds no word |
| FileProcessor.WordsSkipLeading | app/utils/file_processor.py:45 | leading whitespace does not change the words |
| FileProcessor.WordsDropTrailing | app/utils/file_processor.py:45 | trailing whitespace does not change the words |
| FileProcessor.WordsOfStrip | app/utils/file_processor.py:45-49 | stripping keeps every word |
| FileProcessor.ExtractText | app/utils/file_processor.py:17-54 | an unsupported extension gives HTTP 400 "Unsupported file type: .<ext>"; an extractor failure gives HTTP 500 naming the upper-cased extension; otherwise the text is stripped and the counts are those of the raw text |
| FileProcessor.RawText | app/utils/file_processor.py:28-37 | the dispatch by extension to the one extractor it names; reference definition, no contract of its own |
| FileProcessor.ExtractPdf | app/utils/file_processor.py:58-69 | pdfplumber's text, or its failure as "PDF extraction failed: ..."; reference definition, no contract of its own |
| FileProcessor.ExtractDocx | app/utils/file_processor.py:72-79 | docx2txt's text, no text as "", or its failure as "DOCX extraction failed: ..."; reference definition, no contract of its own |
| FileProcessor.ExtractHtml | app/utils/file_processor.py:82-89 | the text of the decoded HTML, or its failure as "HTML extraction failed: ..."; reference definition, no contract of its own |
| FileProcessor.ExtractTextOrMarkdown | app/utils/file_processor.py:93-110 | the decoded bytes, with the markdown substitutions only for ".md"; reference definition, no contract of its own |
| FileProcessor.UnsupportedRefusedBeforeExtraction | app/utils/file_processor.py:24-25 | an unsupported extension is refused before any library is called |
| FileProcessor.DocIsRefused | app/utils/file_processor.py:14-25 | a ".doc" file is refused with HTTP 400 |
| FileProcessor.UpperCaseExtensionAccepted | app/utils/file_processor.py:22-29 | "REPORT.PDF" goes to the PDF extractor |
| FileProcessor.DispatchReadsOnlyItsExtractor | app/utils/file_processor.py:28-35 | each extension reads only its own extractor, and markup stripping applies to ".md" alone |
| FileProcessor.TextAndMarkdown | app/utils/file_processor.py:93-108 | ".txt" returns the decoded bytes, and ".md" returns them with the markup stripped |
| FileProcessor.TextNeverFails | app/utils/file_processor.py:93-108 | text and markdown extraction never fails |
| FileProcessor.CountsPrecedeStripping | app/utils/file_processor.py:42-49 | " x" gives the text "x" but a character count of 2 |
| FileProcessor.PdfFailureIs500 | app/utils/file_processor.py:53-54 | a PDF library failure becomes HTTP 500 "Failed to extract text from PDF file: ..." |
| ContractUpload.UploadExtension | frontend/src/components/ContractUpload.tsx:33-35 | the form's extension is the lowercased name from its last ".", or the whole lowercased name without one |
| ContractUpload.UploadExtensionIsDotted | frontend/src/components/ContractUpload.tsx:33-35 | with a "." in the name, the form's extension is the back end's extension with a "." in front |
| ContractUpload.UploadExtensionOfDottedName | frontend/src/components/ContractUpload.tsx:33-35 | a final dotless suffix, lowercased and with its ".", is the form's extension |
| ContractUpload.Validation | frontend/src/components/ContractUpload.tsx:37-54 | the type is refused, with a message naming the MIME type or "unknown type", exactly when neither the MIME type nor the extension is listed; the size is refused above 10 MiB; the upload starts exactly when both checks pass |
| ContractUpload.ExactlyTenMiBPasses | frontend/src/components/ContractUpload.tsx:50 | example: a file of exactly 10 MiB with an allowed type passes |
| ContractUpload.OneByteOverIsRefused | frontend/src/components/ContractUpload.tsx:50-54 | example: one byte over 10 MiB is refused with the size message |
| ContractUpload.DocPassesTypeCheck | frontend/src/components/ContractUpload.tsx:32-40 | a ".doc" file with any MIME type passes the type check |
| ContractUpload.DocPassesFormButServerRefuses | frontend/src/components/ContractUpload.tsx:32-40 | a ".doc" file passes the form's check, but the back end refuses it with HTTP 400 |
| ContractUpload.HtmlNeedsListedMimeType | frontend/src/components/ContractUpload.tsx:22-40 | an ".html" file passes only with a listed MIME type |
| ContractUpload.FailureMessage | frontend/src/components/ContractUpload.tsx:64-67 | the error's own message, or "Upload failed" for anything that is not an `Error` |
| ContractUpload.ContractUploadState.constructor | frontend/src/components/ContractUpload.tsx:11-16 | not dragging, not uploading, status idle, no message |
| ContractUpload.ContractUploadState.BeginUpload | frontend/src/components/ContractUpload.tsx:20-58 | no file changes nothing; a file that fails a check sets status error and the message, without uploading; a valid file sets uploading, status idle and an empty message, then is uploaded |
| ContractUpload.ContractUploadState.FinishUpload | frontend/src/components/ContractUpload.tsx:60-71 | success sets status success and calls the callback once; failure sets status error and the message, without the callback; `isUploading` is false afterwards |
| ContractUpload.ContractUploadState.HandleFileUpload | frontend/src/components/ContractUpload.tsx:18-74 | the whole handler: a refused file is never uploaded nor sets uploading; a valid file is uploaded once, ends not uploading, and ends in success with the callback or in error with the message |
| ContractUpload.ContractUploadState.DragOver | frontend/src/components/ContractUpload.tsx:76-79 | sets the drag highlight and nothing else |
| ContractUpload.ContractUploadState.DragLeave | frontend/src/components/ContractUpload.tsx:81-84 | clears the drag highlight and nothing else |
| ContractUpload.ContractUploadState.HandleDrop | frontend/src/components/ContractUpload.tsx:86-97 | clears the highlight and handles only the first dropped file, with every outcome of `handleFileUpload` for it; an empty drop changes nothing but the highlight |
| ContractUpload.ContractUploadState.HandleFileInput | frontend/src/components/ContractUpload.tsx:99-107 | handles the first chosen file, with every outcome of `handleFileUpload` for it; no file list or an empty one changes nothing |
| ContractUpload.ContractUploadState.UploadAnother | frontend/src/components/ContractUpload.tsx:203-206 | the button, offered only on success, moves the status to idle and changes nothing else |
| ScheduleTable.RelativeIndex | frontend/src/components/dashboard/RevenueSchedule.tsx:28 | a bound of `slice` lies in `0..n`: a non-negative one is clipped to n, a negative one counts back from n and stops at 0 |
| ScheduleTable.JsSlice | frontend/src/components/dashboard/RevenueSchedule.tsx:28 | `slice(start, end)` holds `e - s` entries, none when the resolved bounds cross, and its i-th entry is entry `s + i` of the list |
| ScheduleTable.VisiblePage | frontend/src/components/dashboard/RevenueSchedule.tsx:26-28 | the entries the table shows for one page: `slice(startIndex, startIndex + itemsPerPage)`; reference definition for the paging lemmas |
| ScheduleTable.VisiblePageIsClippedStretch | frontend/src/components/dashboard/RevenueSchedule.tsx:26-28 | page p shows `entries[(p-1)k, (p-1)k + k)`, clipped to the list |
| ScheduleTable.PageCount | frontend/src/components/dashboard/RevenueSchedule.tsx:10 | `ceil(n / k)` pages hold n entries with no page left over |
| ScheduleTable.PagesUpTo | frontend/src/components/dashboard/RevenueSchedule.tsx:26-28 | pages 1 to m concatenated in order; reference definition for the paging lemmas |
| ScheduleTable.PagesUpToPrefix | frontend/src/components/dashboard/RevenueSchedule.tsx:26-28 | pages 1 to m, read in order, are the first `m * k` entries |
| ScheduleTable.PagesReproduceList | frontend/src/components/dashboard/RevenueSchedule.tsx:26-28 | reading pages 1 to `ceil(n / k)` in order gives back the whole list |
| ScheduleTable.ShowsPaginationIffSeveralPages | frontend/src/components/dashboard/RevenueSchedule.tsx:147 | the pagination bar is drawn exactly when there is more than one page |
| ScheduleTable.PageSizes | frontend/src/components/dashboard/RevenueSchedule.tsx:26-28 | every page before the last holds exactly k entries, and the last holds 1 to k |
| ScheduleTable.Recognized | frontend/src/components/dashboard/RevenueSchedule.tsx:52-53 | holds exactly the list's recognized entries |
| ScheduleTable.Pending | frontend/src/components/dashboard/RevenueSchedule.tsx:132-137 | holds exactly the list's entries that are not recognized |
| ScheduleTable.RecognizedAndPendingPartition | frontend/src/components/dashboard/RevenueSchedule.tsx:46-54 | Recognized and Pending together hold every entry of the list, each as often as it occurs |
| ScheduleTable.Total | frontend/src/components/dashboard/RevenueSchedule.tsx:46 | the `reduce` sum of the amounts, an absent amount counting 0; reference definition for the sum lemmas |
| ScheduleTable.TotalAppend | frontend/src/components/dashboard/RevenueSchedule.tsx:46 | the `reduce` sum is additive over concatenation |
| ScheduleTable.TotalSplitsByStatus | frontend/src/components/dashboard/RevenueSchedule.tsx:46-54 | Total is the Recognized sum plus the sum of the pending entries, with absent amounts counting 0 |
| ScheduleTable.RecognizedAtMostTotal | frontend/src/components/dashboard/RevenueSchedule.tsx:46-54 | with no negative amounts, Recognized never exceeds Total |
| ScheduleTable.Showing | frontend/src/components/dashboard/RevenueSchedule.tsx:150-152 | the label reads "start+1 to min(end, n) of n" |
| ScheduleTable.ShowingCountsVisible | frontend/src/components/dashboard/RevenueSchedule.tsx:147-153 | on a page inside the list, the label counts exactly the entries shown |
| ScheduleTable.PreviousButton | frontend/src/components/dashboard/RevenueSchedule.tsx:155-161 | Previous requests p-1 and is disabled exactly on page 1 |
| ScheduleTable.NextButton | frontend/src/components/dashboard/RevenueSchedule.tsx:179-185 | Next requests p+1 and is disabled exactly at `totalPages` |
| ScheduleTable.PageNumbers | frontend/src/components/dashboard/RevenueSchedule.tsx:163 | the page buttons run from 1 to `totalPages` |
| ScheduleTable.ButtonsStayInRange | frontend/src/components/dashboard/RevenueSchedule.tsx:155-185 | an enabled Previous or Next never requests a page outside 1 to `totalPages` |
| ScheduleTable.Row | frontend/src/components/dashboard/RevenueSchedule.tsx:111-137 | the fallbacks are "Unknown Obligation" and "N/A"; the method label appears only for a present method, with its first "_" replaced by a space; the status reads "Recognized" or "Pending" |
| ScheduleTable.MethodReplacesFirstUnderscoreOnly | frontend/src/components/dashboard/RevenueSchedule.tsx:118-121 | only the first underscore becomes a space, and the rest of the string is unchanged |
| Dashboard.FormatCurrency | frontend/src/components/Dashboard.tsx:76-82 | an absent or zero amount reads "N/A"; otherwise it is formatted in its currency, with "INR" by default |
| Dashboard.FormatDate | frontend/src/components/Dashboard.tsx:84-87 | an absent or empty string reads "N/A" |
| Dashboard.StatusBadge | frontend/src/components/Dashboard.tsx:89-102 | processing, completed and error get their own badge exactly, and every other status gets the "uploaded" badge |
| Dashboard.ProcessedShowsUploaded | frontend/src/components/Dashboard.tsx:100-102 | a "processed" contract shows the "Uploaded" badge |
| Dashboard.CountStatus | frontend/src/components/Dashboard.tsx:210-214 | the count of an exact status is at most the number of contracts |
| Dashboard.CountStatusCountsPositions | frontend/src/components/Dashboard.tsx:210-214 | the count is the number of positions whose contract has that status |
| Dashboard.HeaderCountsBounded | frontend/src/components/Dashboard.tsx:210-214 | the "Processed" and "Uploaded" counts add up to at most the number of contracts |
| Dashboard.ViewOf | frontend/src/components/Dashboard.tsx:113-153 | loading shows exactly the spinner; otherwise any non-empty error shows exactly the error view with that message |
| Dashboard.DashboardState.constructor | frontend/src/components/Dashboard.tsx:10-21 | the `useState` initial values |
| Dashboard.DashboardState.LoadContracts | frontend/src/components/Dashboard.tsx:27-39 | clears the error, replaces the contracts or sets "Failed to load contracts", and ends not loading |
| Dashboard.DashboardState.RefreshContracts | frontend/src/components/Dashboard.tsx:41-52 | replaces the contracts or sets "Failed to refresh contracts", ends not refreshing, and leaves an earlier error standing |
| Dashboard.DashboardState.BeginSelect | frontend/src/components/Dashboard.tsx:54-59 | before any fetch: records the contract, empties schedules and memos, sets `loadingDetails` and clears the error |
| Dashboard.DashboardState.HandleContractSelect | frontend/src/components/Dashboard.tsx:54-74 | both fetches are keyed by `contract.id`; the details are applied only when both succeed, otherwise the error is "Failed to load contract details" and both lists stay empty; `loadingDetails` ends false |
| Dashboard.DetailFailureShowsErrorView | frontend/src/components/Dashboard.tsx:121-153 | a failed detail load replaces the whole dashboard with the error view |
| ContractsList.Count | frontend/src/components/dashboard/ContractsList.tsx:37-49 | a filtered count is at most the number of contracts |
| ContractsList.CountCountsPositions | frontend/src/components/dashboard/ContractsList.tsx:37-49 | the count is the number of positions whose contract the filter keeps |
| ContractsList.BandsDisjoint | frontend/src/components/dashboard/ContractsList.tsx:37-49 | no status falls in both the "Processed" and the "Uploaded" band |
| ContractsList.CountsBounded | frontend/src/components/dashboard/ContractsList.tsx:37-49 | the two header counts together never exceed the number of contracts |
| ContractsList.OutsideBandsUncounted | frontend/src/components/dashboard/ContractsList.tsx:37-49 | a contract outside both bands, such as "error", is counted in neither |
| ContractsList.DashboardCountsAtMostPanel | frontend/src/components/dashboard/ContractsList.tsx:37-49 | the dashboard's exact-status counts are at most the panel's band counts |
| ContractsList.Title | frontend/src/components/dashboard/ContractsList.tsx:81-83 | the title is the first non-empty of customer name, file name and "Contract #<id>", and is never empty (the dashboard's row at Dashboard.tsx:240-242 is the same) |
| ContractsList.StatusIcon | frontend/src/components/dashboard/ContractsList.tsx:85-93 | there is one icon each for processed, processing and error, exactly, and none for any other status |
| ContractsList.CompletedHasNoIcon | frontend/src/components/dashboard/ContractsList.tsx:85-93 | a completed contract counts as processed but carries no icon |
| ContractsList.ValueLabel | frontend/src/components/dashboard/ContractsList.tsx:96-101 | the value reads "Pending..." when the total is absent or 0; otherwise the formatted total |
| ContractsList.PendingWhereDashboardShowsNA | frontend/src/components/dashboard/ContractsList.tsx:96-101 | with the dashboard's formatter, exactly the totals it would print "N/A" for read "Pending..." |
| ContractsList.DateLineOf | frontend/src/components/dashboard/ContractsList.tsx:107-116 | the date range shows exactly when both dates are present; otherwise the status text |
| ContractsList.Body | frontend/src/components/dashboard/ContractsList.tsx:56-75 | the empty state shows exactly for no contracts; otherwise there is one row per contract, in order |
| ContractsList.AtMostOneHighlighted | frontend/src/components/dashboard/ContractsList.tsx:71-74 | a row is highlighted exactly when its id is the selected contract's; with distinct ids, at most one row is |
| AuditMemos.CountLabel | frontend/src/components/dashboard/AuditMemos.tsx:38 | "N memo" begins with the number, and ends in "s" exactly when N is not 1 |
| AuditMemos.CountLabelShowsCount | frontend/src/components/dashboard/AuditMemos.tsx:38 | the number printed reads back as the number of memos |
| AuditMemos.HeaderOf | frontend/src/components/dashboard/AuditMemos.tsx:31-40 | loading shows exactly the spinner; the count badge shows exactly when not loading and memos exist |
| AuditMemos.CardContractId | frontend/src/components/dashboard/AuditMemos.tsx:75-77 | the memo's contract id, else the selected contract's external id, else ""; a zero id falls through |
| AuditMemos.Provider | frontend/src/components/dashboard/AuditMemos.tsx:82-83 | the first "_"-part of the file name, or "" without one |
| AuditMemos.ProviderIsNameBeforeUnderscore | frontend/src/components/dashboard/AuditMemos.tsx:82-83 | the provider is the file name up to its first underscore |
| AuditMemos.ProviderHasNoUnderscore | frontend/src/components/dashboard/AuditMemos.tsx:82-83 | the provider never holds an underscore |
| AuditMemos.CardOf | frontend/src/components/dashboard/AuditMemos.tsx:71-93 | every field of the plain card, with its fallback |
| AuditMemos.BodyOf | frontend/src/components/dashboard/AuditMemos.tsx:42-97 | loading has priority; no plain memos means the empty state; structured memos are shown exactly when present; otherwise there is one card per plain memo, in order |
| AuditMemos.HeaderAgreesWithBody | frontend/src/components/dashboard/AuditMemos.tsx:31-97 | the count badge shows exactly when the body shows memos of either kind |
| AuditMemos.NoPlainMemosMeansEmpty | frontend/src/components/dashboard/AuditMemos.tsx:47-54 | without plain memos the panel is empty, however many structured memos there are |
| TimeSavedMeter.Round | frontend/src/components/TimeSavedMeter.tsx:18 | `Math.round` gives the integer nearest, with halves rounding up |
| TimeSavedMeter.RoundOfWhole | frontend/src/components/TimeSavedMeter.tsx:21-22 | `Math.round` leaves a whole number as it is |
| TimeSavedMeter.FormatTime | frontend/src/components/TimeSavedMeter.tsx:16-26 | each case holds exactly: under an hour is rounded minutes; exactly 1 is "1 hour"; a whole number above 1 is that many hours; any other value is printed as it is |
| TimeSavedMeter.MinutesInRange | frontend/src/components/TimeSavedMeter.tsx:17-18 | under an hour is 0 to 60 minutes |
| TimeSavedMeter.SingularOnlyForOneHour | frontend/src/components/TimeSavedMeter.tsx:16-26 | the text reads "1 hour" exactly for one hour |
| TimeSavedMeter.IconOf | frontend/src/components/TimeSavedMeter.tsx:28-32 | rocket exactly from 8 hours, lightning exactly from 4 to under 8, alarm clock exactly under 4 |
| TimeSavedMeter.ColourOf | frontend/src/components/TimeSavedMeter.tsx:34-38 | green from 8, blue from 4 and purple below |
| TimeSavedMeter.ColourAgreesWithIcon | frontend/src/components/TimeSavedMeter.tsx:28-38 | the colour is a function of the icon, and distinct icons have distinct colours |
| TimeSavedMeter.MeterOf | frontend/src/components/TimeSavedMeter.tsx:12-57 | nothing is rendered exactly when the hours are absent, 0 or negative; otherwise the icon, colour and text of those hours |
| TimeSavedMeter.BandsPartitionPositiveHours | frontend/src/components/TimeSavedMeter.tsx:28-32 | every shown meter falls in exactly one of the three bands |
| Text.Strip | app/extractor/preprocess.py:120-121 | `str.strip()` is the longest slice that neither starts nor ends with whitespace |
| Text.Split | app/ASC606/revenue_schedule.py:191 | `str.split(sep)` always gives at least one part |
| Text.SplitCountsSeparators | app/ASC606/revenue_schedule.py:191 | `str.split(sep)` gives one part more than there are separators |
| Text.SplitJoin | app/ASC606/revenue_schedule.py:191 | joining the parts of a split gives back the string |
| Text.ParseInt | app/ASC606/revenue_schedule.py:193 | `int()` accepts only text that is not blank |
| Text.IntToStringRoundTrip | app/ASC606/revenue_schedule.py:193 | `int(str(i))` is i for every integer |
| Text.StripIdempotent | app/utils/file_processor.py:49 | stripping again changes nothing |
| Text.SplitLast | app/utils/file_processor.py:22 | the last part of `split(".")` is what follows the last "." |
| Text.Lower | app/utils/file_processor.py:22 | `lower()` keeps the length and maps each character on its own |
| Text.Upper | app/utils/file_processor.py:54 | `upper()` keeps the length and maps each character on its own |
| Text.ParseIntOfNat | app/ASC606/revenue_schedule.py:193 | `int()` reads a printed natural number back as that number |
| Text.ReplaceFirst | frontend/src/components/dashboard/RevenueSchedule.tsx:118-121 | `replace` with a one-character pattern changes only the first occurrence |

## Left out

- **Persistence and HTTP.** The database session, the commits, Celery, the FastAPI routes and the `fetch` wrappers are not modelled. API calls become outcome parameters. The ids the database assigns on flush are a parameter of `BuildObligationMap`.
- **The LLM extractor, prompts and pydantic schemas.** These are not modelled. The pdfplumber, docx2txt, UTF-8 decoding and BeautifulSoup calls are the parameters of `FileProcessor.Extractors`.
- **Regular expressions.**
  - The heading pattern is given as its list of match spans.
  - The date and money patterns are predicates.
  - The markdown substitutions (app/utils/file_processor.py:100-107) are one string function.
  - `clean_text` (app/extractor/preprocess.py:77-100) is not modelled.
- **The PDF page loop** (app/utils/file_processor.py:61-67). It is an extractor parameter that returns the whole text.
- **Text handling is ASCII-only.** `isspace`, `lower` and `upper` cover the ASCII range only. The line boundaries of `splitlines` are exactly `\n`, `\r`, `\r\n`, `\x0b`, `\x0c`, `\x1c`, `\x1d`, `\x1e`, `\x85`, `\u2028` and `\u2029`. There is no Unicode case mapping.
- **Floating point.**
  - Amounts are reals.
  - `round(x, 2)` is the parameter `round2`. Because of that, no lemma claims that schedule amounts sum to the allocated amount.
  - `round()` in the time-saved estimate is exact round-half-even on reals. Binary floating-point error is not modelled.
  - JavaScript's printing of a fractional number is a parameter.
- **Clocks and locale.** `date.today()`, `datetime.now()`, `Intl.NumberFormat` and `toLocaleDateString` are parameters.
- **One clock reading per run.** The generators call `date.today()` and `datetime.now()` again for every entry (app/ASC606/revenue_schedule.py:56-69 and 121-215). The model takes one `today` and one `now` for the whole run. `ScheduleProperties.RecognizedPrefix` holds for that single `today`; a run that crosses midnight could break it.
- **Contract dates given as strings.** The `isinstance(..., str)` and `strptime` branches (app/ASC606/revenue_schedule.py:25-30 and 79-83) are not modelled: `ContractTerms` holds `Date`s. The callers pass `date` objects (app/extractor/schemas.py:75-76).
- **`datetime.MAXYEAR`.** The year 9999 limit is not modelled: dates are unbounded above. The ISO round trip is proved for years 1 to 9999.
- **The range check at app/ASC606/revenue_schedule.py:87.** It compares the period bounds with the contract dates they were copied from, so only a missing end date can make it raise. That case is modelled as `NoContractEndDate`. The comparison itself is not.
- **The `every_0_months` loop.** It never terminates. The model reports it as the error value `IntervalNeverAdvances` instead of looping.
- **The unreachable `else` of app/utils/file_processor.py:36-37.** `RawText` requires a supported extension, so there is no branch for it. For the same reason, the `except HTTPException: raise` of lines 51-52 has nothing to pass through.
- **`ApplyDiscounts` and the other handler methods require the obligations to be distinct objects.** The engine always creates them fresh, and `Asc606Engine.Valid` keeps this invariant. Aliased obligations are not modelled.
- **`Promise.all` (frontend/src/components/Dashboard.tsx:62-65).** The two fetches are one combined outcome: concurrency and the order in which they settle are not modelled.
- **`ContractUploadState.HandleFileUpload` splits the asynchronous handler into `BeginUpload` and `FinishUpload`.** A second upload that starts between the two is not modelled.
- **Console logging and the rendered JSX.** Neither is modelled; only the values the components derive are.
- **`Dashboard.StatusBadge`: lookups of keys inherited from `Object.prototype`, such as "constructor", are not modelled.** Those statuses fall back to the "uploaded" badge like any other unknown status.
- **`formatDate(...) || ""` in frontend/src/components/dashboard/AuditMemos.tsx:78-92.** The fallback never applies to the strings the formatter returns, so the card uses the formatter's string directly.
- **The structured memos in the audit memo panel.** These are opaque values that are passed through unchanged.
- **`RevenueRecognitionJob.RowFor` parses period dates only in the `YYYY-MM-DD` form the engine writes.** `datetime.fromisoformat` also takes date-times, and from Python 3.11 the basic form `YYYYMMDD`. `Calendar.ParseIsoDate` rejects those, so the model fails on strings the job would accept.
- **`ScheduleTable.PageCount`: `totalPages` is a prop of the table.** The model relates it to `ceil(n / k)`. The component on its own does not compute it.
- **`ContractUpload.ContractUploadState.UploadAnother` requires the success state.** The button that calls it is rendered only in that state.
- **The list of relevance keywords.** It is copied as data, in module `Keywords`.
