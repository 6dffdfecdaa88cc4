# Ledger verification

A Dafny model of the ledger engine of the Django backend, with proofs of what its
services keep over every run. `dafny verify dfyconfig.toml` checks the whole project.

Services that change rows are classes whose methods are proved equal to a function
from state to state (`...Service` against `...Model`); the laws (`...Laws`, `...Runs`,
`PeriodRace`, `...Rules`, `RecurringCalls`, `StoredRows`) are proved about those functions, one call at a time and
then over every sequence of calls. Core by core:

- **Recurring rules** (`Calendar`, `Schedule`, `RecurringModel`, `RecurringService`,
  `RecurringLaws`, `RecurringCalls`). The schedule grammar, the locked catch-up loop with its pointer,
  no-backfill skip, sliding window, materialize-all mode and end date, rule create
  with adoption, edit, delete, and the guard that counts what the loop will make.
- **Periods** (`PeriodModel`, `PeriodService`, `PeriodLaws`, `PeriodRace`). Lazy
  windows clamped against what is already there; lookups that race, each split into its
  cover check, its two neighbour reads and its insert; and custom periods, whose check
  and write are separate steps.
- **Idempotent create** (`Idempotency`). Lookup, stale delete, sweep, savepoint
  insert and re-read of any number of callers, interleaved at will.
- **Exactly-once execute** (`ExecuteTask`). Duplicate, retried and concurrent
  deliveries of the booking job beside deletions and user calls, each split into its
  read of the row and its save.
- **Transactions** (`Money`, `BookModel`, `BookService`, `CoverageLaws`, `RowRules`,
  `ArchiveRules`, `StoredRows`). Line items that cover their transaction, linked adjustments, bulk
  calls, transfers, what validation keeps true of every row, and what each call stores.
- **Balances** (`LedgerModel`, `LedgerRows`, `LedgerLaws`, `BookRuns`,
  `TransferLaws`). The stored rows refine a ledger that only records last writes.
- **Reports and merge** (`Buckets`, `ReportModel`, `ReportService`, `ReportLaws`,
  `CategoryMerge`, `MergeLaws`). Conservation between the two groupings, the two ways
  of rounding, and a merge as a renaming that every aggregate respects.
- **Legacy import** (`LegacyModel`, `LegacyService`, `LegacyLaws`). The greedy dedup,
  the exact net of an import, and the opening-balance solve.

## Representation

- Dates are day numbers, converted to and from civil dates in `Calendar`.
- Money is integer cents. A quantity has three decimals and a price two, so raw item
  totals are integers in 1/100000; `Money.Quantize` rounds them half to even.
- Transactions and transfers are sequences of rows with ids; accounts, plans and
  periods are rows addressed by position; currencies are their codes.
- A failed call is its error and leaves the state, as the surrounding database
  transaction does. Except in `PeriodRace`, `Idempotency` and `ExecuteTask`, one
  service call is one atomic step.
- The bounds that request schemas enforce (positive amounts, an interval and a window
  of at least one) are the `Valid` predicates of the payloads.
- `RecurringModel` has every planned transaction with the fields the generator reads,
  `ExecuteTask` a single one with its payment fields and booking.
- Aggregate queries are functions over rows; the loops over their results are loops.

## Where the code falls short of its documentation or of a law

- `next_occurrence_date` says it follows the generator, but it ignores the rule's
  creation day. `RecurringLaws.ReportedDateIsGenerated` gives the exact condition,
  `ReportedDateNeverGenerated` a rule that fails it.
- `replace_items` says that a remainder name of None leaves the stored one; the old
  remainder row is deleted with the other items, so whatever is not given starts over,
  and is unchanged exactly when it was blank (`CoverageLaws.ReplaceResetsRemainder`,
  and `ReplaceForgetsName` for a case).
- A period lookup calls itself safe under concurrency. Under one cadence it is
  (`PeriodRace.RacingLookupsSafe`). Two lookups that read the table under different
  cadences leave it disjoint iff their clamped ranges start on the same day or share no
  day, and the second one's period covers its day iff the starts differ or the first
  range reaches it (`PeriodRace.RaceAcrossCadences`; `CadenceChangeRaceOverlaps` and
  `CadenceChangeRaceMisses` are cases). Custom periods check for overlaps and write
  without a lock: `PeriodRace.WritesExact` and `RacingWrites` give the condition.
- Executing or editing a plan reads the row without a lock and later saves all of it. A
  save is harmless iff the row was read linked, or no transaction of the plan exists
  when it happens and the row it writes is done whenever a delivery is about to book
  (`ExecuteTask.SaveExact`). Runs of harmless saves book once (`BooksOnce`,
  `FreshPlanBooksOnce`); any other save has a continuation that does not
  (`HarmfulSaveBreaks`). `RacingExecutesBookTwice` and `StaleEditDesyncs` are runs from a
  fresh plan.
- Auto-fill from a receipt drops the remainder instead of rejecting rows that exceed
  the amount. `CoverageLaws.AutoFillCovered` and `BookRuns.StepCovered` give the exact
  condition under which coverage survives, `CoverageLaws.OverSumUncovers` a case.
- The legacy dedup consumes a row whose exchange is then skipped for a missing
  currency, and ignores a row without currency whose exchange is imported.
  `LegacyLaws.MatchAgrees` says exactly when a matched pair agrees, `PeriodNetExact`
  what the account's net is otherwise, `SkippedExchangeLosesRow` and
  `CurrencylessRowCounts` are cases.

## Model

| member | source | states |
|---|---|---|
| Calendar.MonthsTile | backend/planned_transactions/models.py:241-246 | consecutive months, as the monthly step reads them from the calendar, tile the day line: one ends where the next begins, through year ends and leap years, and has 28 to 31 days |
| Calendar.OrdinalRoundTrip | backend/planned_transactions/models.py:231-246 | every day number is the number of the civil date it converts to |
| Calendar.CivilRoundTrip | backend/planned_transactions/models.py:231-246 | every civil date converts to a day number and back to itself |
| Calendar.OrdinalOrder | backend/planned_transactions/models.py:248-259 | comparing day numbers is comparing (year, month, day) |
| Calendar.ClampedDayIncreases | backend/planned_transactions/models.py:241-246 | clamping to short months never reorders months: a later month's clamped day is strictly later |
| Calendar.OrdinalIsGregorian | backend/planned_transactions/models.py:241-246 | the day number of every date is the Gregorian one, computed without a month table: years counted from March, whose months repeat 31, 30, 31, 30, 31 days |
| Calendar.LengthIsGregorian | backend/planned_transactions/models.py:241-246 | every month, February of leap years included, is as long as the Gregorian calendar makes it |
| Schedule.IterateIsDirect | backend/planned_transactions/models.py:231-246 | stepping k times from the start gives the direct form (start month plus k intervals, day min(start day, month length)), with no drift after short months |
| Schedule.StepIsNext | backend/planned_transactions/models.py:231-246 | one step from occurrence k is occurrence k + 1, for every interval kind |
| Schedule.NthIncreases | backend/planned_transactions/models.py:248-259 | occurrences strictly increase, by at least a day each |
| Schedule.FirstIndexSplits | backend/planned_transactions/models.py:248-259 | an occurrence is on or after a day exactly when its index is at least the seek result |
| Schedule.OccurrenceCount | backend/planned_transactions/services.py:610-629 | the number of occurrences in a range of days is the difference of the two seek results |
| Schedule.FirstIsLeastOccurrence | backend/planned_transactions/models.py:248-259 | the seek result is an occurrence on or after the target and no day in between is one |
| Schedule.NextOccurrenceOnOrAfter | backend/planned_transactions/models.py:248-259 | the stepping loop terminates on the least occurrence on or after the target, for any target |
| Schedule.OccursExactly | backend/planned_transactions/models.py:231-246 | a day is an occurrence iff it is a whole number of intervals from the start, and for months either keeps the start's day of month or ends a month too short for it |
| RecurringService.RecurringDesk.CountPendingAfter | backend/planned_transactions/services.py:684-684 | counts exactly the pending linked rows dated after today |
| RecurringService.RecurringDesk.CreateFromRecurring | backend/planned_transactions/services.py:340-374 | inserts the occurrence unless (rule, date) is taken, and says which |
| RecurringService.RecurringDesk.GenerateForRule | backend/planned_transactions/services.py:632-718 | the locked catch-up reaches the closed form of the run, and returns the number of rows it added |
| RecurringService.RecurringDesk.CatchUp | backend/planned_transactions/services.py:676-718 | the loop terminates, its defensive break is never reached, and it leaves exactly the closed form of the run |
| RecurringService.RecurringDesk.Turn | backend/planned_transactions/services.py:690-717 | one turn of the loop: it ends at the closed form's bound, skips a candidate before the creation day without moving the pointer, or materialises it and saves the pointer |
| RecurringService.RecurringDesk.GenerateDue | backend/planned_transactions/services.py:909-933 | the nightly pass runs every active rule in turn |
| RecurringService.RecurringDesk.CreateRule | backend/planned_transactions/services.py:763-832 | creation with adoption of an existing row: its checks, its link and pointer seed, and its first window |
| RecurringService.RecurringDesk.UpdateRule | backend/planned_transactions/services.py:834-893 | edits, pausing and resuming keep the pointer and run the generator on the new schedule |
| RecurringService.RecurringDesk.EditPlan | backend/planned_transactions/services.py:376-429 | a full replace of a planned row keeps its link, and fails when the status cannot revert or another row of the rule holds the date |
| RecurringService.RecurringDesk.DeleteRule | backend/planned_transactions/services.py:895-907 | deletion unlinks the rule's rows or also deletes its pending ones |
| RecurringService.ValidateMaterializeAll | backend/planned_transactions/services.py:577-629 | the guard's own walk with its capped counter rejects exactly the rules whose remaining occurrences exceed 500 |
| RecurringService.CandidateTests | backend/planned_transactions/services.py:690-717 | the loop's tests on a candidate are comparisons of its index with the closed form's bounds |
| RecurringService.WindowTest | backend/planned_transactions/services.py:703-706 | the sliding-window test fails exactly at the closed form's bound, while the pending counter grows with the rows just made |
| RecurringService.CatchUpHandles | backend/planned_transactions/services.py:706-717 | a candidate that passes every test keeps the loop invariant after its row, its slot and the pointer |
| RecurringLaws.HandledExactly | backend/planned_transactions/services.py:676-718 | a day is handled by one run iff it is an occurrence past the pointer (or from max(start, creation day) on a first run), not before the creation day, not past the end date, and due, or in materialize-all mode, or among the first upfront_count less pending future ones |
| RecurringLaws.GuardMatchesRun | backend/planned_transactions/services.py:610-629 | the guard accepts a materialize-all rule iff an active run of the same rule would handle at most 500 days, whatever today and the pending count are |
| RecurringLaws.ReportedDateIsGenerated | backend/planned_transactions/models.py:211-229 | the reported next date is what the generator makes next iff it is not before the creation day; the code ignores the creation day, its docstring says otherwise |
| RecurringLaws.ReportedDateNeverGenerated | backend/planned_transactions/models.py:211-229 | creating a rule whose end date has passed succeeds, and its reported next date is never generated |
| RecurringLaws.StopComposes | backend/planned_transactions/services.py:690-717 | running to one day and then to a later one stops where the later run alone stops |
| RecurringLaws.MissedNight | backend/planned_transactions/services.py:681-718 | for T1 <= T2, generate(T1) then generate(T2) leaves the same rule, pointer and rows as generate(T2) |
| RecurringLaws.GenerateAppends | backend/planned_transactions/services.py:690-717 | where no linked row lies past its pointer a run appends one row per handled day, past the pointer, in order, and no insert collides |
| RecurringLaws.GenerateViews | backend/planned_transactions/services.py:632-718 | a run of one rule leaves every other rule's pointer and rows as they were |
| RecurringLaws.MissedNightsInvisible | backend/planned_transactions/services.py:909-933 | any chronological series of nightly passes leaves each rule as the last pass alone would; a repeated pass is a no-op |
| RecurringLaws.StepKeeps | backend/planned_transactions/services.py:763-907 | create, edit, pause, adopt, execute, cancel, row edit, row delete, rule delete and nightly pass keep the tables' constraints, move no pointer back, and generate only past it |
| RecurringLaws.StepKeepsInv | backend/planned_transactions/services.py:376-429 | a call keeps every linked row behind its rule's pointer iff it is not a user edit that moves one past it |
| RecurringLaws.GenerateFills | backend/planned_transactions/services.py:707-717 | wherever users have moved linked rows, a run leaves old rows alone, ends with exactly one row for every day it handled, and adds no other |
| RecurringLaws.NeverTwice | backend/planned_transactions/services.py:685-717 | over every run of those calls, date edits of linked rows included, no date of a rule is generated twice, even after its row is deleted or moved or the schedule edited |
| RecurringLaws.AdoptedNeverRegenerated | backend/planned_transactions/services.py:763-832 | a rule that adopts a row generates only days past that row's date, at its creation and over every later run, even after the row is moved or deleted |
| RecurringCalls.RunHandles | backend/planned_transactions/services.py:676-718 | in the tables: a run of an active rule handles the occurrences past the pointer and from the creation day on up to the end date that are due, or all of them, or the next ones while they and the pending rows dated after today stay below the window |
| RecurringCalls.RunWrites | backend/planned_transactions/services.py:340-374 | a run appends pending rows with the rule's template, moves that rule's pointer to the last day handled, and changes nothing else |
| RecurringCalls.RuleCreated | backend/planned_transactions/services.py:763-832 | a create is accepted iff the end date is not before the start, a materialize-all payload has an end date and at most 500 days, and the adopted row is pending and unclaimed; it stores the payload, links that row and leaves the others |
| RecurringCalls.RuleEdited | backend/planned_transactions/services.py:834-893 | an edit is accepted under the same conditions and without adoption; it stores the payload, keeps the creation day and all old rows, and new rows carry the new template |
| RecurringCalls.RuleErrorsAreFaults | backend/planned_transactions/services.py:544-629 | every refusal of a create or an edit names a fault that the payload or the adopted row has |
| RecurringCalls.RuleDeleted | backend/planned_transactions/services.py:895-907 | with multiplicities: other rules' rows stay, the rule's own lose only their link, and pending ones go when asked |
| RecurringCalls.RowsWritten | backend/planned_transactions/services.py:376-467 | executing, editing, deleting and adding a planned row: when each succeeds and that it touches one row |
| RecurringCalls.ReportsNext | backend/planned_transactions/models.py:211-229 | a rule reports the first day of its grammar past the pointer, or from the start, and none iff it is paused or that day is past its end |
| PeriodService.BudgetPeriods.GetOrCreateForDate | backend/budgeting/services.py:197-254 | returns the covering period, fails on a custom cadence, or inserts the clamped window with the copied plan |
| PeriodService.BudgetPeriods.CopyForward | backend/budgeting/services.py:256-281 | copies the latest earlier period's planned amounts except those of archived categories |
| PeriodService.BudgetPeriods.CreateCustom | backend/budgeting/services.py:304-320 | inserts a custom range unless it meets an existing period |
| PeriodService.BudgetPeriods.UpdateCustom | backend/budgeting/services.py:322-342 | partial edits of custom periods: missing, not editable, reversed and overlapping ranges fail and change nothing |
| PeriodService.BudgetPeriods.Delete | backend/budgeting/services.py:344-351 | only custom periods can be deleted |
| PeriodService.BudgetPeriods.UpdateCadence | backend/budgeting/services.py:116-151 | a change is merged with the stored cadence and validated as a whole |
| PeriodLaws.WindowsTile | backend/budgeting/services.py:175-195 | windows of one cadence tile the day line: each day is in its window, and every day of it computes the same window |
| PeriodLaws.MonthWindowsTile | backend/budgeting/services.py:175-195 | monthly windows contain their day and partition the days by month |
| PeriodLaws.WindowExact | backend/budgeting/services.py:175-195 | the window around a day is the civil month of the day, or the stretch of weeks, counted from the anchor, that holds it |
| PeriodLaws.ClampExact | backend/budgeting/services.py:216-240 | the clamped range is exactly the part of the window reachable from the target without touching an existing period |
| PeriodLaws.LookupCovers | backend/budgeting/services.py:197-254 | a lookup fails only on an uncovered day of a custom cadence; otherwise its period covers the day, existing periods are untouched, and it adds at most one |
| PeriodLaws.PlanCarriedForward | backend/budgeting/services.py:256-281 | each planned amount of the latest earlier period is carried over with its multiplicity unless its category is archived, and nothing else is |
| PeriodLaws.LookupAppends | backend/budgeting/services.py:216-254 | an uncovered day adds exactly the clamped window, so the unique-start fallback is not taken when calls do not interleave |
| PeriodLaws.LookupExact | backend/budgeting/services.py:197-254 | the period created for an uncovered day is not custom and covers exactly the days of that month or stretch of weeks that no period separates from the day; nothing else changes |
| PeriodLaws.LookupCopiesPlan | backend/budgeting/services.py:256-281 | the created period plans each unarchived amount of the latest earlier period with its multiplicity, and nothing else |
| PeriodLaws.CustomCreated | backend/budgeting/services.py:304-320 | a custom period is created iff no period covers any of its days; it holds exactly those days and no plan |
| PeriodLaws.CustomEdited | backend/budgeting/services.py:322-342 | which edits of a period succeed and how the others fail; an edit moves only the given ends of one custom period and keeps its plan |
| PeriodLaws.CustomDeleted | backend/budgeting/services.py:344-351 | exactly custom periods can be deleted, and every other period stays |
| PeriodLaws.CadenceStored | backend/budgeting/services.py:116-151 | a change is accepted iff the merged cadence has what its kind needs; it stores the given fields, keeps the rest and clears what the kind has no use for |
| PeriodLaws.StepKeeps | backend/budgeting/services.py:296-351 | lookups, custom create, edit and delete, cadence changes, archiving and allocations keep periods ordered and disjoint |
| PeriodLaws.DisjointForever | backend/budgeting/services.py:197-351 | at every point of every run each day lies in at most one period |
| PeriodRace.GapsEqualOrDisjoint | backend/budgeting/services.py:216-240 | for two days uncovered by the same snapshot under one cadence the clamped ranges are equal or share no day |
| PeriodRace.LateReads | backend/budgeting/services.py:216-240 | reading the neighbours after other racers inserted still clamps to the same range |
| PeriodRace.InsertSound | backend/budgeting/services.py:241-254 | the insert adds the request's range or, on the unique-start error, finds the identical row of a racer |
| PeriodRace.RacingLookupsSafe | backend/budgeting/services.py:197-254 | for any number of racing lookups and any interleaving of their reads and inserts periods stay disjoint and every finished request holds a period covering its day |
| PeriodRace.FreshLookupsSafe | backend/budgeting/services.py:197-254 | the same from the start: lookups of any days begun at once on a table whose periods are ordered and disjoint |
| PeriodRace.RaceAcrossCadences | backend/budgeting/services.py:197-254 | two lookups of any uncovered days that read one table under any two cadences and then insert: the table stays disjoint iff the clamped ranges start on the same day or share no day, and the second answer covers its day iff the starts differ or the first range reaches it |
| PeriodRace.CadenceChangeRaceOverlaps | backend/budgeting/services.py:241-254 | either side of a change from weekly to biweekly two lookups of one day leave it in two periods |
| PeriodRace.CadenceChangeRaceMisses | backend/budgeting/services.py:252-254 | with equal starts the unique-start fallback answers the second lookup with a period that misses its day |
| PeriodRace.AnswerExact | backend/budgeting/services.py:241-254 | whatever it read, a lookup's answer covers its day iff it inserted the row or the row that holds its start reaches the day |
| PeriodRace.ChecksAreFree | backend/budgeting/services.py:296-302 | a passed overlap check, and the clamp of a lookup, establish exactly that the range meets no other period of the table read |
| PeriodRace.WriteExact | backend/budgeting/services.py:304-342 | a write keeps periods disjoint iff another row holds its start, so that it is refused, or its range is still free when it happens |
| PeriodRace.WritesExact | backend/budgeting/services.py:197-342 | a run of writes by lookups, custom creates and custom edits, whatever each had checked and when, is disjoint throughout iff each write is refused or still free at its moment |
| PeriodRace.RacingWrites | backend/budgeting/services.py:304-342 | two calls that check one table and then write leave it disjoint iff they write the same row, or start on the same day, or share no day |
| Idempotency.DedupTable.LookUp | backend/transactions/services.py:590-609 | finds a record within the TTL, with or without a target, and none only when every record has expired; changes nothing |
| Idempotency.DedupTable.CreateWithIdempotency | backend/common/idempotency.py:49-122 | undisturbed: a replay returns the original and creates nothing; otherwise stale records go and one object with one record is created, or nothing when the payload is rejected |
| Idempotency.StepSound | backend/common/idempotency.py:74-122 | every atomic step of any caller (lookup, stale delete, sweep, savepoint insert, re-read) keeps the protocol invariant |
| Idempotency.BystanderSound | backend/common/idempotency.py:74-122 | a caller that does not move stays sound whatever the others do |
| Idempotency.RereadFinds | backend/common/idempotency.py:103-122 | the re-read after a lost insert always finds the winner |
| Idempotency.RunSound | backend/common/idempotency.py:74-122 | the invariant holds at the end of every run, also from an expired record or one whose target is gone |
| Idempotency.AtMostOneTarget | backend/common/idempotency.py:49-122 | for any number of callers and any interleaving within the TTL only invalid payloads are refused, every other finished caller holds a persisted object, the recorded one or the one created, and one is created at most once and only after the record has gone stale; unless the record expires in between, all hold the same one |
| Idempotency.ExpiryInBetween | backend/common/idempotency.py:49-122 | when the record expires between two callers the first is answered with the recorded object and the second with a new one |
| ExecuteTask.PlanDesk.Execute | backend/planned_transactions/services.py:436-467 | marks a plan done with its payment data, saves the whole row and queues a delivery, or fails |
| ExecuteTask.PlanDesk.Update | backend/planned_transactions/services.py:376-429 | a plan edit: its refusal to revert an executed plan, its own execution when it marks the plan done, and its mirror write of name, amount, account, category and currency |
| ExecuteTask.PlanDesk.RunTask | backend/planned_transactions/tasks.py:16-69 | one uninterrupted delivery books once and is a no-op ever after |
| ExecuteTask.ServedIsReadThenSave | backend/planned_transactions/services.py:376-467 | a user call is a read of the row, a guard on it, and a later save of all of it; done at once it is the uninterrupted call |
| ExecuteTask.SaveExact | backend/planned_transactions/services.py:394-428 | a save of any row, pending or done, keeps the booking sound iff the row was read linked, or no transaction of the plan exists and the row it writes is done whenever a delivery is about to book |
| ExecuteTask.StepSound | backend/planned_transactions/tasks.py:24-69 | every step of duplicate, retried or concurrent deliveries, user calls and deletions keeps plan and booking sound iff it is not a harmful save |
| ExecuteTask.StepCounts | backend/planned_transactions/tasks.py:24-69 | transactions created equal transactions present plus those deleted |
| ExecuteTask.BooksOnce | backend/planned_transactions/tasks.py:16-69 | over every run whose saves are all harmless at most one transaction of the plan exists, the link is stable without a deletion, and the transaction has the plan's name, terms and effective amount |
| ExecuteTask.FreshPlanBooksOnce | backend/planned_transactions/tasks.py:16-69 | from a plan without a booking, over every run with serial calls or harmless saves, at most one transaction exists at a time and as many were booked as exist or were deleted |
| ExecuteTask.BooksWhatWasPaid | backend/planned_transactions/models.py:107-111 | over the same runs the transaction has the plan's name and terms and the recorded payment, or the planned amount when none is recorded |
| ExecuteTask.ExecutionBooks | backend/planned_transactions/services.py:436-467 | an execute and its delivery book the given payment, else one recorded before, else the planned amount, on the given date or the planned one |
| ExecuteTask.DoneEditBooks | backend/planned_transactions/services.py:394-428 | an edit that marks a plan done and its delivery book the edited plan on the edited date |
| ExecuteTask.EditMirrors | backend/planned_transactions/services.py:413-428 | an edit of a booked plan rewrites its transaction to the edited plan and keeps the day it was booked on |
| ExecuteTask.DeliveryEnds | backend/planned_transactions/tasks.py:45-69 | a fetched delivery finishes iff it books or finds the plan booked; when the plan is gone or the create fails it is retried |
| ExecuteTask.SerialIsHarmless | backend/planned_transactions/services.py:376-467 | runs whose user calls are not interrupted need no condition |
| ExecuteTask.KeptExact | backend/planned_transactions/tasks.py:24-69 | the invariant is the weakest one: it holds iff every continuation by deliveries and uninterrupted calls stays booked once |
| ExecuteTask.HarmfulSaveBreaks | backend/planned_transactions/services.py:394-428 | after a save that is not harmless, deliveries and uninterrupted calls alone reach a state that is not booked once |
| ExecuteTask.LostLinkBooksTwice | backend/planned_transactions/services.py:436-467 | a save that erases the link of an existing transaction is followed by a run that books another one, unless it saves a done row without a payment date and no delivery is in flight |
| ExecuteTask.RacingExecutesBookTwice | backend/planned_transactions/services.py:436-467 | two executes that both read a plan before either saved it: two transactions |
| ExecuteTask.StaleEditDesyncs | backend/planned_transactions/services.py:376-429 | an edit that saves a pending row after a delivery fetched the executed plan: the plan can be executed again with another amount than was booked |
| Money.QuantizeNearest | backend/transactions/services.py:935-943 | rounding to cents picks the nearest cent and the even one of two equally near |
| Money.QuantizeShift | backend/transactions/services.py:935-943 | shifting by whole cents shifts the rounding, except that an odd shift moves a tie |
| BookService.ItemsTotalOf | backend/transactions/services.py:935-943 | line total, else quantity times unit price, else nothing, summed and rounded once |
| BookService.NormalizeCoverage | backend/transactions/services.py:946-991 | resizes, creates or deletes the remainder row, strips all items of an adjustment's remainder, and in strict mode rejects an over-sum |
| BookService.Ledger.Create | backend/transactions/services.py:690-764 | the checks in order, the normalised row and its linked adjustment |
| BookService.Ledger.Update | backend/transactions/services.py:766-843 | full replace: archived accounts only if already stored, remainder resized, linked adjustment synced |
| BookService.Ledger.SyncLinked | backend/transactions/services.py:669-688 | creates, rewrites or deletes the linked adjustment so that it mirrors the saved source |
| BookService.Ledger.Delete | backend/transactions/services.py:845-862 | a source takes its generated adjustment with it; a generated row cannot be deleted |
| BookService.Ledger.ReplaceItems | backend/transactions/services.py:881-933 | replaces all items, resizes the remainder and labels it |
| BookService.Ledger.AutoFillFromExtraction | backend/transactions/services.py:1030-1087 | fills only a transaction without user rows, leniently |
| BookService.Ledger.ImportData | backend/transactions/services.py:1146-1195 | every imported row goes to the account with an amount-sized remainder, incomes carry no category, and the number of rows is returned |
| BookService.Ledger.BulkSetAccount | backend/transactions/services.py:1089-1112 | all rows move or none: missing, managed and foreign-currency rows reject the call |
| BookService.Ledger.CreateTransfer | backend/transfers/services.py:94-111 | a same-currency transfer moves one amount, a cross-currency one needs both |
| BookService.Ledger.UpdateTransfer | backend/transfers/services.py:113-136 | an archived account is allowed only if the transfer already uses it |
| BookService.Ledger.DeleteTransfer | backend/transfers/services.py:138-142 | the row goes or the call fails |
| BookService.Ledger.UpdateAccount | backend/accounts/services.py:106-155 | edits of opening balance and archive flag |
| BookService.Ledger.CurrentBalances | backend/reports/services.py:128-148 | one computed balance per listed account, and per currency exactly the sum of the listed balances |
| CoverageLaws.NormalizedItems | backend/transactions/services.py:946-991 | after normalisation the rows are the user's rows and then one positive remainder exactly when the amount is not reached |
| CoverageLaws.StrictNormalisationCovers | backend/transactions/services.py:946-991 | strict mode fails iff the rounded user rows exceed the amount; otherwise the raw total is within half a cent of it, exact on whole cents, and the rounded total is off by one cent iff the user total is a tie and the amount is odd |
| CoverageLaws.LenientNormalisationCovers | backend/transactions/services.py:1073-1083 | the lenient writer always succeeds, and the rows cover the amount iff the user's rows do not exceed it by more than half a cent |
| CoverageLaws.ReplaceResetsRemainder | backend/transactions/services.py:881-933 | replacing items labels the remainder by what the call gives, field by field, and leaves a field it does not give as it was iff that was blank; the docstring says a name of None leaves the stored one |
| CoverageLaws.ReplaceForgetsName | backend/transactions/services.py:881-933 | a remainder renamed by one call loses its name to the next, which gives none |
| CoverageLaws.CreateCovered | backend/transactions/services.py:690-764 | a create keeps every transaction covered |
| CoverageLaws.UpdateCovered | backend/transactions/services.py:766-843 | a full replace keeps every transaction covered, the linked adjustment included |
| CoverageLaws.ReplaceCovered | backend/transactions/services.py:881-933 | replacing items keeps every transaction covered |
| CoverageLaws.AutoFillCovered | backend/transactions/services.py:1030-1087 | a fill keeps the book covered iff the transaction is an adjustment or the parsed rows do not exceed its amount by more than half a cent |
| CoverageLaws.OverSumUncovers | backend/transactions/services.py:1073-1083 | a receipt row above a stored transaction's amount leaves it uncovered |
| CoverageLaws.ImportCovered | backend/transactions/services.py:1188-1195 | imported rows are covered from the moment they exist |
| CoverageLaws.RecategorisedCovered | backend/categories/services.py:121-123 | recategorising rows and items changes no total |
| CoverageLaws.MovedCovered | backend/transactions/services.py:1089-1112 | moving rows to another account changes no total |
| BookRuns.StepCovered | backend/transactions/services.py:946-991 | one call of any kind keeps the whole book covered iff it is not an over-summing fill |
| BookRuns.RunCovered | backend/transactions/services.py:946-991 | over every run, failed calls included, each non-adjustment's items sum to its amount within half a cent |
| BookRuns.CategoriesKept | backend/categories/services.py:147-161 | no call leaves a transaction with a category that is not there |
| LedgerLaws.CreateRefines | backend/transactions/services.py:690-764 | a create books exactly the entry its payload asks for: its own leg and, when a facet account is named, the facet leg signed by the type |
| LedgerLaws.UpdateRefines | backend/transactions/services.py:800-843 | a full replace reverses the old entry and books the payload's, whatever was stored before, across all create, rewrite and delete cases of the adjustment |
| LedgerLaws.SyncRefines | backend/transactions/services.py:669-688 | creating, rewriting or deleting the adjustment rebooks only the facet leg |
| LedgerLaws.DeleteRefines | backend/transactions/services.py:845-862 | deleting a source unbooks both legs |
| LedgerLaws.ImportRefines | backend/transactions/services.py:1163-1195 | an import books its rows under consecutive ids |
| LedgerLaws.BulkRefines | backend/transactions/services.py:1100-1112 | a bulk move rebooks each listed row on the new account, duplicates in the list included, and leaves facet legs |
| LedgerLaws.UnbookedRefines | backend/transactions/services.py:881-933 | edits of items, categories and dates leave every balance alone |
| LedgerLaws.CreateTransferRefines | backend/transfers/services.py:94-111 | a new transfer books minus one amount and plus the other |
| LedgerLaws.UpdateTransferRefines | backend/transfers/services.py:113-136 | an edit reverses the old transfer and books the new one |
| LedgerLaws.DeleteTransferRefines | backend/transfers/services.py:138-142 | a deletion reverses the transfer |
| LedgerLaws.UpdateAccountRefines | backend/accounts/services.py:106-140 | an opening-balance edit moves that balance by the difference and no other |
| BookRuns.StepRefines | backend/accounts/services.py:29-58 | one call of any kind is its posting in the ledger that only records last writes |
| BookRuns.RunRefines | backend/accounts/services.py:29-58 | over every run the stored rows refine that ledger: entries and rows match both ways and every computed balance equals the ledger's |
| BookRuns.LastWriteDecides | backend/transactions/services.py:625-688 | a source has a generated adjustment iff its last write named a facet account, and its account's balance is the ledger's |
| BookRuns.FreshBook | backend/accounts/services.py:165-173 | a new workspace refines the empty ledger at its opening balances |
| TransferLaws.CreateConserves | backend/transfers/services.py:22-47 | a new transfer moves each currency total by exactly its legs in that currency, and by nothing when both accounts share it |
| TransferLaws.UpdateConserves | backend/transfers/services.py:113-136 | an edit undoes the old transfer's effect on the totals and applies the new one's |
| TransferLaws.DeleteConserves | backend/transfers/services.py:138-142 | a deletion undoes exactly the transfer's effect on the totals |
| TransferLaws.BalancesListed | backend/reports/services.py:128-148 | the balance list has exactly one row per account, archived ones only on request, with its computed balance |
| TransferLaws.SoundConserves | backend/transfers/services.py:39-47 | a stored same-currency transfer adds nothing to any currency total |
| RowRules.RunRules | backend/transactions/services.py:73-92 | over every run a row on an account is in that account's currency, an original amount is in another one, amounts are positive except on adjustments, which have an account and no category |
| RowRules.StepRules | backend/transactions/services.py:128-192 | every call keeps those rules, bulk moves, imports and generated rows included |
| RowRules.ItemCategoriesPass | backend/transactions/services.py:104-126 | explicit item categories are accepted exactly when each is live and belongs to the transaction category's budget |
| ArchiveRules.ArchivedGetsNothing | backend/transactions/services.py:766-843 | whatever call is made while an account is archived, no transaction, generated adjustment or transfer side is on it afterwards that was not on it before |
| ArchiveRules.UpdateNothingNew | backend/transactions/services.py:775-800 | a full replace may keep an archived account it already uses, for the row and for its adjustment, and may not move to one |
| ArchiveRules.TransferNothingNew | backend/transfers/services.py:94-142 | transfer calls may keep an archived account a transfer already uses and may not move to one |
| RowRules.UpdateMirrors | backend/transactions/services.py:625-688 | after a full replace the linked row, present iff a facet account is named, has the source's date and the original amount, account and currency |
| StoredRows.TotalSplits | backend/transactions/services.py:935-943 | items total their line totals, plus quantity times unit price for those without one |
| StoredRows.CreateAccepted | backend/transactions/services.py:690-764 | a create is accepted iff its payload is well formed and names live accounts |
| StoredRows.CreateStores | backend/transactions/services.py:690-764 | a create appends the payload's row with exactly the submitted items, and the mirrored adjustment iff a facet account is named |
| StoredRows.CreateLeavesRest | backend/transactions/services.py:946-991 | the stored items are the submitted ones, followed by one blank row of the difference iff they total less than the amount |
| StoredRows.UpdateStores | backend/transactions/services.py:766-843 | a full replace is accepted iff its payload is well formed, the row is not generated and no archived account is newly chosen; the row carries the payload and keeps its user items, and rows of other transactions stay |
| StoredRows.WriteErrorsAreFaults | backend/transactions/services.py:59-192 | every refusal of a create or a full replace names a fault that the payload has |
| StoredRows.TransferErrorsAreFaults | backend/transfers/services.py:22-47 | every refusal of a transfer call names what is wrong |
| StoredRows.BulkErrorsAreFaults | backend/transactions/services.py:1089-1112 | every refusal of a deletion or a bulk move names what is wrong |
| StoredRows.ReplaceStores | backend/transactions/services.py:881-933 | replacing items stores exactly the rows sent; it fails as over-summing iff the rows sent exceed the amount, and is accepted iff they do not, they are filed correctly and the label of a remainder fits |
| StoredRows.FillStores | backend/transactions/services.py:1030-1087 | a receipt fills only a transaction without user rows, with exactly its parsed rows |
| StoredRows.DeleteStores | backend/transactions/services.py:845-862 | exactly rows that are not generated can be deleted; the row and its adjustment go and every other row stays |
| StoredRows.ImportStores | backend/transactions/services.py:1146-1195 | imported rows have the date, type and amount asked for, the account's currency, a live category unless they are incomes, and consecutive ids |
| StoredRows.BulkStores | backend/transactions/services.py:1089-1112 | a bulk move is accepted iff the account is live and every listed row exists, is not generated and has its currency; it changes only the account of those rows |
| StoredRows.CategoryRemoved | backend/categories/services.py:121-123 | merging or deleting a category renames or clears it in rows and items and changes nothing else of them |
| StoredRows.TransferCreated | backend/transfers/services.py:94-111 | a transfer is accepted iff its accounts differ and are live and its amounts suit their currencies; it stores the payload's two amounts |
| StoredRows.TransferEdited | backend/transfers/services.py:113-136 | an edit is accepted under the same conditions, except that an archived account already used may stay; it rewrites that transfer only |
| StoredRows.TransferMovesBalances | backend/transfers/services.py:94-111 | the source's balance falls by the source amount, the target's rises by the payload's target amount, or the source amount in one currency, and no other moves |
| StoredRows.AccountEdited | backend/accounts/services.py:106-155 | an account edit sets the opening balance and the archive flag of one account |
| Buckets.BucketsAreSums | backend/transactions/services.py:458-481 | accumulating rows into a dictionary leaves one bucket per occurring key, holding the sum of its rows |
| Buckets.BucketsConserve | backend/transactions/services.py:458-481 | the buckets sum to the rows, on any set of keys |
| ReportService.TotalsCombined | backend/transactions/services.py:428-493 | totals per type and currency and per category name and currency, without adjustments |
| ReportService.Summary | backend/reports/services.py:15-77 | one line for everything planned or spent, and per currency the sums of the lines |
| ReportService.HistoryTotals | backend/reports/services.py:93-116 | per currency of one period the planned sum and the rounded sum of unrounded actuals |
| ReportService.History | backend/reports/services.py:79-126 | the most recent periods up to the limit, oldest first |
| ReportLaws.RowsConserve | backend/transactions/services.py:458-481 | on covered transactions, type rows and item rows of a currency differ by at most half a cent per transaction, and not at all on whole cents |
| ReportLaws.TotalsConserve | backend/transactions/services.py:428-493 | after every run and under every row filter, per currency the category totals sum to the type totals: exactly on whole-cent items, within half a cent per transaction otherwise |
| ReportLaws.ActualsAttribute | backend/transactions/services.py:496-526 | a budget's actual for a category is what expense items in the range name it plus what items of its transactions inherit; a category of another budget never shows |
| ReportLaws.NamesFollowCategories | backend/transactions/services.py:47-54 | coalescing category names agrees with coalescing ids, with the label for items without any |
| ReportLaws.TypeTotalSums | backend/transactions/services.py:458-470 | a type's total sums exactly the kept transactions of that type and currency, adjustments excluded |
| ReportLaws.GroupTotalSums | backend/transactions/services.py:471-493 | a category name's total sums exactly the kept items whose own category, or else whose transaction's, has that name |
| ReportLaws.LinesAre | backend/reports/services.py:40-66 | every summary line has its category's planned amount, its actual rounded to the nearest cent, and the difference |
| ReportLaws.RoundingDrift | backend/reports/services.py:40-53 | rounding once per category drifts from the sum by at most half a cent per spent category |
| ReportLaws.PlannedSum | backend/reports/services.py:30-33 | any part of the planned dictionary of a period sums to the same part of its rows |
| ReportLaws.SummaryMeetsHistory | backend/reports/services.py:40-115 | summary and history list the same currencies and plan the same; the summary's remaining is planned minus actual; actuals differ by at most (n + 1) half cents over n spent categories, and not on whole cents |
| CategoryMerge.CategoryDesk.Merge | backend/categories/services.py:96-145 | the checks in order, then rows, items and plans move, planned amounts are summed or moved, and the source goes |
| CategoryMerge.CategoryDesk.MergeAmounts | backend/categories/services.py:131-141 | the loop over the source's planned amounts, in any order, sums each into its twin or moves it |
| CategoryMerge.CategoryDesk.Delete | backend/categories/services.py:147-161 | deletion uncategorises rows, items and plans and drops the category's planned amounts |
| CategoryMerge.MergeSums | backend/categories/services.py:134-138 | a source amount is summed into a twin that nothing was summed into before |
| MergeLaws.MergePlanned | backend/categories/services.py:131-141 | any planned total after a merge is the total before it with the source renamed to the target |
| MergeLaws.MergeActuals | backend/transactions/services.py:496-526 | any total of actuals after a merge is the total before it with the source renamed to the target |
| MergeLaws.MergeKeepsUnique | backend/categories/services.py:131-141 | a merge keeps one planned amount per period, category and currency |
| MergeLaws.MergeKeepsReports | backend/categories/services.py:98-145 | in every period the target's planned and unrounded actual amounts are its old ones plus the source's, other categories and all per-currency totals are unchanged |
| MergeLaws.MergeAccepted | backend/categories/services.py:96-125 | a merge is accepted iff the two categories differ and are of the budget; planned transactions of the source move to the target and the others stay |
| MergeLaws.DeletionFallsBack | backend/categories/services.py:149-161 | deleting a category keeps coverage, and an item that named it inherits its transaction's category again |
| LegacyService.FindMatch | backend/users/legacy_import.py:246-254 | the first free exactly described row, else the first free conventional one |
| LegacyService.DedupSkip | backend/users/legacy_import.py:231-268 | the rows to skip and the exchange side that consumed each |
| LegacyService.LegacyImporter.ImportRows | backend/users/legacy_import.py:473-517 | imports what is not skipped; rows without currency or with unknown type are dropped, and negative incomes and expenses become signed adjustments |
| LegacyService.LegacyImporter.ImportOneExchange | backend/users/legacy_import.py:568-617 | a transfer, or an adjustment by the difference when both sides share an account, or nothing without both currencies |
| LegacyService.LegacyImporter.TrackClosings | backend/users/legacy_import.py:619-638 | provisions the closings' accounts and keeps the latest closing per code, later rows winning ties |
| LegacyService.LegacyImporter.ImportWorkspace | backend/users/legacy_import.py:340-656 | the whole import and solve; the report's own balance check never finds a mismatch |
| LegacyService.LegacyImporter.SolveOpenings | backend/users/legacy_import.py:640-647 | sets each expected account's opening to the closing less the net |
| LegacyLaws.DedupSound | backend/users/legacy_import.py:231-268 | each row is consumed at most once, each exchange side consumes at most one, and only rows that match it in type, currency, amount, date and description |
| LegacyLaws.MatchedRowsFit | backend/users/legacy_import.py:195-230 | a consumed row has its side's type, amount and date, its currency or none, and its description or a conventional one |
| LegacyLaws.FittingRowIsTaken | backend/users/legacy_import.py:246-254 | a side consumes a row whenever a free one fits |
| LegacyLaws.ChoicePrefersExact | backend/users/legacy_import.py:246-254 | a free exactly described row is preferred to any conventional one, and among equals the first |
| LegacyLaws.ImportTxNet | backend/users/legacy_import.py:473-490 | an imported row has its old signed effect, negative incomes and expenses included |
| LegacyLaws.ImportTxStores | backend/users/legacy_import.py:473-517 | the stored row has the old day, currency, type and amount, except that a negative income or expense becomes a signed adjustment |
| LegacyLaws.ImportExchangeStores | backend/users/legacy_import.py:568-617 | an exchange stores a transfer of its two amounts, or on one account an adjustment by the difference on its day |
| LegacyLaws.ImportExchangeNet | backend/users/legacy_import.py:568-617 | an imported exchange has both its sides' effect, on one account or two |
| LegacyLaws.ImportNet | backend/users/legacy_import.py:469-617 | per account the whole import nets all rows plus all imported exchange sides less the consumed rows |
| LegacyLaws.PeriodNetExact | backend/users/legacy_import.py:231-268 | exactly: all rows plus unmatched sides plus what matched pairs disagree by |
| LegacyLaws.MatchAgrees | backend/users/legacy_import.py:202-215 | a matched pair agrees on a currency iff no currency is missing, or the row and its exchange are both ignored, or the amount is zero, or the currency is not involved |
| LegacyLaws.CompleteNet | backend/users/legacy_import.py:231-268 | when every record names its currency a period nets the signed sum of all its rows plus the exchange sides no row recorded |
| LegacyLaws.CompleteImportNet | backend/users/legacy_import.py:340-617 | when every record of an export names its currency, importing all of it nets on each account the signed sum of all rows plus the exchange sides no row recorded |
| LegacyLaws.SkippedExchangeLosesRow | backend/users/legacy_import.py:573-575 | an income recorded for an exchange that is skipped for its missing currency is lost to its account |
| LegacyLaws.CurrencylessRowCounts | backend/users/legacy_import.py:202-215 | an expense without a currency is consumed by an exchange that is imported, and so counts after all |
| LegacyLaws.LatestIsLast | backend/users/legacy_import.py:619-638 | the closing kept per code is the last among those of the latest-ending periods |
| LegacyLaws.ImportNames | backend/users/legacy_import.py:340-656 | every currency that a planned transaction or a closing names has an account after the import |
| LegacyLaws.SolveMeets | backend/users/legacy_import.py:640-647 | after the solve every expected balance equals its closing and every other one its net |
| LegacyLaws.ImportMeetsClosings | backend/users/legacy_import.py:340-656 | a whole import gives every closed currency an account whose balance is the sum of the budget accounts' latest closings, and every other account its exact net |

## Left out

- HTTP, schemas as such, authentication, throttling, email, storage, the receipt parser, admin, translations and the frontend.
- Workspace scoping, roles, users and audit fields: one workspace and one idempotency key are modelled.
- ReportService.TotalsCombined: without the category and budget filters of the query, whose join with DISTINCT changes what is summed; the totals are claimed under every other filter.
- BookRuns.RunCovered: does not include the mirror write of a plan edit to its booked transaction (backend/planned_transactions/services.py:413-428), which sets an amount without resizing the remainder; nor direct database and backup imports.
- ReportLaws.TotalsConserve: assumes that fills from receipts fit, as `AllFit` says; an over-summing fill breaks the law.
- ReportService.Summary: the order of the report's lines by category name is not modelled; lines come in any order.
- ReportService.History: the query for a budget's periods by descending start is a parameter.
- BookService.Ledger.UpdateAccount: account names, types, default flags and the refusal of a new currency; account creation and deletion are left out, so runs have a fixed set of accounts.
- BookService.Ledger.Create: whether a categorised transaction finds a period is a flag of the payload, because periods are modelled on their own.
- BookService.Ledger.Update: the same flag.
- RowRules.RunRules: amounts are whole cents; the request schema does not bound their decimals, and a sub-cent amount such as 0.004 passes the positivity check and is stored as 0.00.
- RowRules.StepRules: the same whole cents.
- CoverageLaws.NormalizedItems: the same whole cents; an amount of 10.004 with items of 10.00 makes a remainder of 0.004, which is stored as 0.00 and so is not positive.
- CoverageLaws.StrictNormalisationCovers: the same whole cents.
- BookService.Ledger.ImportData: rows are saved and normalised one by one, not in two passes; a name lookup is a category id that may not be live.
- BookService.Ledger.AutoFillFromExtraction: receives parsed rows; amount parsing, category guessing, and the description a receipt may fill in are left out.
- PeriodService.BudgetPeriods.GetOrCreateForDate: period names, and budgets' currencies.
- RecurringService.RecurringDesk.CreateRule: resolution of accounts, currencies and categories; templates are carried as they are.
- RecurringService.RecurringDesk.UpdateRule: the same resolution; rule edits and generator runs are serial, although the edit reads without a lock and saves the whole row.
- RecurringLaws.MissedNightsInvisible: assumes that no linked row lies past its rule's pointer, which `StepKeepsInv` shows only a user's date edit can bring about.
- PeriodRace.WritesExact: deletions of custom periods do not race; a save of a row deleted in between would bring it back.
- ExecuteTask.BooksOnce: edits of the booked transaction itself, and of the account, category and currency rows it names.
- CategoryMerge.CategoryDesk.Merge: row locks and audit fields; recurring rules' category links are not moved by the code either.
- Idempotency.AtMostOneTarget: row locks are over-approximated by more interleavings than the database allows, targets are not deleted, and less than the TTL passes.
- LegacyService.LegacyImporter.ImportWorkspace: dates and amounts arrive parsed and descriptions stripped; categories, planned amounts, period rows and warnings are left out, and a planned transaction only provisions its account.
- LegacyLaws.DedupSound: the two description patterns and the code-pair comparison are one predicate parameter, `conventional`; the law holds for every such predicate.
- LegacyLaws.ImportNet: the mapping from symbols to catalog codes is a function parameter.
- Python's last year 9999 and midnight between two reads of today.
- Currency enablement: the enabled currencies are fixed during a run. Currency order, bookmark moves and exports change no amount, date, plan or period.
