# Pay-cycle engine of a budgeting backend, in Dafny

This project models the budgeting backend's pay-cycle engine and the
validators around it, and proves properties of that model.

- **Interval arithmetic and pay-date generation.** `src/utils/paycycle.js`
  steps a date by a frequency (`weekly`, `fortnightly`, `monthly`,
  `yearly`). `generatePayDatesInRange` lists an income's pay dates inside a
  date range. It handles one-time incomes, a first pay day, and a backward
  and forward walk from the last pay date.
- **The older engine.** `src/controllers/incomeController.js` has its own
  stepping over `weekly`, `biweekly` and `monthly`. It counts an income's
  pay dates in a cycle by pivoting from `nextPayDate`, and totals a user's
  income in that cycle.
- **The budgeting cycle.** `src/utils/cycle.js` computes the cycle window
  from the main income, the days left in it, and the membership test.
- **The main-income store.** It is a class over a sequence of incomes.
  Creating, updating, deleting and setting the main income keep the rule
  that a user has at most one main income. This holds with each request
  run on its own and `isMain` a real boolean; see "Left out" for how the
  source can end up with two main incomes.
- **Expenses.** The expense routes validate and shape records by type and
  select the current cycle's expenses in date order.
- **Users.** `validateViewCycle`, registration defaults, the user
  responses and the `PATCH /users/me` whitelist.
- **The three schemas.** Income, expense and user records each get a
  validity predicate and create/update functions.

Dates are whole numbers. A `Day` counts days since 1970-01-01 and an
`Instant` counts milliseconds. Days have a fixed length of 86 400 000 ms.
The civil calendar follows the ECMAScript definitions `DayFromYear` and
`MakeDay`. So `setMonth`/`setFullYear` roll an out-of-range day of the
month over into the next month instead of clamping it: January 31 plus
one month is March 2 or 3. Month and year steps are proved strictly
monotone. They are also proved not to undo each other in general
(`Dates.MonthStepsDoNotCancel`). Every comparison in the engine is
between a midnight and a midnight or 23:59:59.999, so it reduces to a
comparison of calendar days (`Dates.MidnightComparisons`).

JSON request fields are `Js<T>` (`Undefined | Null | Val`), so the model
keeps the difference between `!== undefined`, `!== null` and truthiness.
The two frequency vocabularies stay distinct. `PayCycle` knows
`fortnightly`/`yearly`. `LegacyCycle`, `Cycle` and the expense schema know
`biweekly`. `LegacyCycle.LegacyAgreesWithPayCycle` states where the two
vocabularies agree.

Module layout: `Wrappers`, `Dates`, `Steps` (iterated steps), `Sorting`,
`JsText` (`trim`/`toLowerCase`), `PayCycle`, `IncomeModel`, `Cycle`,
`LegacyCycle`, `IncomeController`, `ExpenseModel`, `ExpenseController`,
`ViewCycleValidation`, `UserModel`, `AuthController`, `UserController`.

### How the older engine counts pay dates

`getIncomeOccurrencesInCycle` counts exactly what its loops reach. Three
cases are proved:

- **`nextPayDate` before the window.** The count is the number of days
  `nextPayDate + c·k` (over all integers `k`, with `c` = 7 or 14) in the
  window, both ends inclusive (`LegacyCycle.FixedStepCountBeforeWindow`).
- **`nextPayDate` inside the window.** Only it and the later steps are
  counted: `(last − next) / c + 1` (`LegacyCycle.FixedStepCountFromInside`).
  Earlier steps that also fall in the window are not counted
  (`LegacyCycle.EarlierPayDatesNotCounted`).
- **`nextPayDate` after the window.** At most one date is counted
  (`LegacyCycle.OccurrencesAfterWindow`).

The window from `calculateCycle` runs from the main income's pay date to
one interval later, both days included. So a recurring main income is
counted twice in its own cycle (`LegacyCycle.MainIncomeCountedTwice`).

## Model

| member | source | states |
|---|---|---|
| `PayCycle.GetCycleInterval` | src/utils/paycycle.js:6-19 | weekly gives 7 days, fortnightly 14 days, monthly one month, yearly one year; every other string, `"biweekly"` included, fails with `InvalidFrequency` |
| `PayCycle.StepForward` | src/utils/paycycle.js:31-41 | a valid interval moves a date strictly later; a day interval adds exactly its days |
| `PayCycle.StepBack` | src/utils/paycycle.js:56-66 | a valid interval moves a date strictly earlier; a day interval takes away exactly its days |
| `PayCycle.AddInterval` | src/utils/paycycle.js:27-44 | succeeds exactly for the four frequencies, with a strictly later date; otherwise `InvalidFrequency` |
| `PayCycle.SubtractInterval` | src/utils/paycycle.js:52-69 | succeeds exactly for the four frequencies, with a strictly earlier date; otherwise `InvalidFrequency` |
| `PayCycle.AddIntervalByFrequency` | src/utils/paycycle.js:27-44 | +7 days, +14 days, `setMonth(+1)`, `setFullYear(+1)`; `"biweekly"` is refused |
| `PayCycle.SubtractIntervalByFrequency` | src/utils/paycycle.js:52-69 | −7 days, −14 days, `setMonth(−1)`, `setFullYear(−1)`; `"biweekly"` is refused |
| `PayCycle.DayStepsInvert` | src/utils/paycycle.js:27-69 | for weekly and fortnightly, adding and subtracting are mutual inverses |
| `PayCycle.MonthlyStepsDoNotInvert` | src/utils/paycycle.js:35-37 | January 31 plus a month minus a month is not January 31 |
| `PayCycle.StepBounds` | src/utils/paycycle.js:27-69 | each step moves a date by at least 7 and at most 366 days, so every walk ends |
| `PayCycle.JsDate` | src/utils/paycycle.js:81 | `new Date(x)`: a value is itself, `null` the epoch, `undefined` an invalid date |
| `PayCycle.SingleDateInRange` | src/utils/paycycle.js:80-93 | at most one date, the given date's day, exactly when it is a valid date from the first to the last day inclusive |
| `PayCycle.KeepInRange` | src/utils/paycycle.js:153-157 | keeps exactly the elements in `[first, last]` and keeps strict ascent |
| `PayCycle.WalkBackward` | src/utils/paycycle.js:137-142 | the dates `lastPay`, one step back, two steps back, … while not before the range start, the next one being before it |
| `PayCycle.WalkForward` | src/utils/paycycle.js:144-149 | the dates one, two, … steps after `lastPay` while not after the range end, the next one being after it |
| `PayCycle.WalkFromLastPayDate` | src/utils/paycycle.js:128-157 | an invalid frequency fails; otherwise the result is the exact schedule of the range (see `WalksAreSchedule`) |
| `PayCycle.WalksAreSchedule` | src/utils/paycycle.js:137-157 | the sorted, filtered walks are strictly ascending, all in `[start, end]`, all reachable from `lastPay`, and hold every reachable date in range |
| `PayCycle.WalksDistinct` | src/utils/paycycle.js:137-150 | the backward dates are at most `lastPay`, the forward ones after it, so no date appears twice |
| `PayCycle.WalksOnSchedule` | src/utils/paycycle.js:137-150 | every walked date is a whole number of steps back or forth from `lastPay` |
| `PayCycle.BackwardWalkComplete` | src/utils/paycycle.js:137-142 | every backward step from `lastPay` not before the start was walked |
| `PayCycle.ForwardWalkComplete` | src/utils/paycycle.js:144-149 | every forward step in range was walked; `lastPay` itself comes from the backward walk |
| `PayCycle.SortedDistinctIncreasing` | src/utils/paycycle.js:152 | sorting dates that do not repeat gives a strictly ascending sequence |
| `PayCycle.GeneratePayDatesInRange` | src/utils/paycycle.js:78-161 | one-time: the date iff in range; first pay day: fails unless `lastPayDate === null`, else at most `nextPayDate`; normal: fails on a falsy `lastPayDate` or bad frequency, else the schedule; any other type: `[]` |
| `PayCycle.WeeklyWalkAround` | src/utils/paycycle.js:137-157 | weekly from day `d` over `d−9..d+21` gives `d−7, d, d+7, d+14, d+21` |
| `PayCycle.WeeklyWalkOverJanuary` | src/utils/paycycle.js:137-157 | weekly, last paid January 10, over January 1–31: the 3rd, 10th, 17th, 24th and 31st |
| `Dates.AddDays` | src/utils/paycycle.js:33 | `setDate(getDate() + k)` is exactly `k` days later across month ends |
| `Dates.ToCivil` | src/utils/paycycle.js:33-39 | `getFullYear`/`getMonth`/`getDate` give a valid civil date that `MakeDay` turns back into the day |
| `Dates.AddOneMonth` | src/utils/paycycle.js:35-37 | one month later is 28 to 31 days later, the length of the current month |
| `Dates.SubtractOneMonth` | src/utils/paycycle.js:60-62 | one month earlier is 28 to 31 days earlier |
| `Dates.AddOneYear` | src/utils/paycycle.js:38-40 | one year later is 364 to 366 days later |
| `Dates.SubtractOneYear` | src/utils/paycycle.js:63-65 | one year earlier is 364 to 366 days earlier |
| `Dates.MonthStepsDoNotCancel` | src/utils/paycycle.js:35-37 | January 31 plus one month is March 2 or 3, and a month back from there is February 2 or 3 |
| `Dates.MonthBackThenForward` | src/controllers/incomeController.js:67-78 | a month back and a month forward never lands before the start |
| `Dates.MidnightComparisons` | src/utils/cycle.js:68-78 | a midnight is before 23:59:59.999 of day `b` iff its day is at most `b`; midnights compare as their days |
| `Sorting.SortAscending` | src/utils/paycycle.js:152 | `sort((a, b) => a - b)` gives an ascending permutation |
| `Sorting.SortBy` | src/controllers/expenseController.js:153-159 | sorting by a key gives a sequence ordered by the key and a permutation of the input |
| `Sorting.SortByOrdered` | src/controllers/expenseController.js:153-159 | a sequence already ordered by the key is returned unchanged, so its equal keys keep their order |
| `Cycle.CalculateCycle` | src/utils/cycle.js:6-41 | fails without an income or a `payCycle`; `cycleStart` is midnight of `nextPayDate`; the end day is +7, +14, +1 month or +1 day for weekly, biweekly, monthly, one-time, at 23:59:59.999; any other cycle fails with `InvalidPayCycle` |
| `Cycle.CycleEndAfterStart` | src/utils/cycle.js:11-35 | the end day is 1 to 31 days after the start day, and `nextPayDate` is in its own window |
| `Cycle.NewerFrequenciesRefused` | src/utils/cycle.js:31-32 | `"fortnightly"` and `"yearly"` fail with `InvalidPayCycle` |
| `Cycle.CeilDiv` | src/utils/cycle.js:56 | `Math.ceil(a / b)`: the least `q` with `a <= q·b` |
| `Cycle.CalculateRemainingDays` | src/utils/cycle.js:48-59 | the end's day minus today's day, negative once the window has passed |
| `Cycle.RemainingDaysExample` | src/utils/cycle.js:48-59 | a window ending April 15 seen on March 20 of the same year has 26 days left |
| `Cycle.IsDateInCycle` | src/utils/cycle.js:68-79 | true iff start day ≤ date day ≤ end day, so only the calendar days of the three instants matter |
| `IncomeModel.CreateDocument` | src/models/Income.js:5-30 | stored iff `amount`, `payCycle` in the enum and `nextPayDate` are given; `name` defaults to "Income" and `isMain` to false |
| `IncomeModel.UpdateDocument` | src/models/Income.js:14-26 | a required path set to `null`, or a `payCycle` outside the enum, is refused; every other path left out keeps its value |
| `IncomeModel.EmptyUpdateKeepsDocument` | src/controllers/incomeController.js:307-333 | an update that sets nothing gives the document back |
| `LegacyCycle.AddInterval` | src/controllers/incomeController.js:92-108 | strictly later for weekly/biweekly/monthly (+7, +14, +1 month); any other cycle leaves the date unchanged |
| `LegacyCycle.SubtractInterval` | src/controllers/incomeController.js:113-129 | strictly earlier for the three cycles (−7, −14, −1 month); any other cycle leaves the date unchanged |
| `LegacyCycle.LegacyAgreesWithPayCycle` | src/controllers/incomeController.js:92-129 | weekly and monthly step alike in both engines, biweekly is the newer fortnightly; each engine ignores or refuses the other's words |
| `LegacyCycle.LegacyDayStepsInvert` | src/controllers/incomeController.js:92-129 | for weekly and biweekly, adding and subtracting are mutual inverses |
| `LegacyCycle.BackThenForth` | src/controllers/incomeController.js:67-78 | a step back then forward never lands earlier |
| `LegacyCycle.StepsBelow` | src/controllers/incomeController.js:63-65 | the number of forward steps until the date is not before the window: all earlier ones are before it |
| `LegacyCycle.StepsAbove` | src/controllers/incomeController.js:71-73 | the number of backward steps until the date is not after the window: all earlier ones are after it |
| `LegacyCycle.StepsWithin` | src/controllers/incomeController.js:81-84 | the number of consecutive forward steps that stay at or before the window's last day |
| `LegacyCycle.AdvanceTo` | src/controllers/incomeController.js:63-65 | the advance loop ends at the first forward step not before the window |
| `LegacyCycle.RetreatTo` | src/controllers/incomeController.js:69-73 | the retreat loop ends at the first backward step not after the window |
| `LegacyCycle.Collect` | src/controllers/incomeController.js:81-84 | the collecting loop pushes exactly the run of steps from the pivot that stays in the window |
| `LegacyCycle.CountOccurrences` | src/controllers/incomeController.js:53-86 | the three loops count `Occurrences` of the anchor, window and steps |
| `LegacyCycle.OccurrencesFromAnchor` | src/controllers/incomeController.js:53-86 | with the anchor not after the window, the counted steps are exactly the forward steps in the window, a consecutive run |
| `LegacyCycle.OccurrencesAfterWindow` | src/controllers/incomeController.js:67-84 | with the anchor after the window, the count is 1 if some backward step lands in the window and 0 otherwise |
| `LegacyCycle.GetIncomeOccurrencesInCycle` | src/controllers/incomeController.js:48-87 | 0 for a one-time income, else the loops' count; needs a schema cycle to end |
| `LegacyCycle.FixedStepCount` | src/controllers/incomeController.js:53-86 | for any pair of ±c-day steps with the anchor before the window, the counted steps are exactly the `k` with `next + c·k` in the window |
| `LegacyCycle.FixedStepCountBeforeWindow` | src/controllers/incomeController.js:53-86 | weekly/biweekly with `nextPayDate` before the window: the count is the number of integers `k` with `next + 7k` (or `14k`) in the window |
| `LegacyCycle.FixedStepCountFromInside` | src/controllers/incomeController.js:62-84 | with `nextPayDate` inside the window the count is `(last − next) / c + 1` |
| `LegacyCycle.EarlierPayDatesNotCounted` | src/controllers/incomeController.js:62-84 | weekly over `next−7..next+7`: three matching days in the window, two counted |
| `LegacyCycle.MainIncomeCountedTwice` | src/controllers/incomeController.js:53-86 | a recurring main income counts twice in the window `calculateCycle` derives from it |
| `IncomeController.FindOwned` | src/controllers/incomeController.js:219 | the position of the income with that id and owner, or none exists |
| `IncomeController.FindMain` | src/controllers/incomeController.js:246-249 | a main income of the user, or the user has none |
| `IncomeController.OwnedBy` | src/controllers/incomeController.js:22 | exactly the user's incomes |
| `IncomeController.Demoted` | src/controllers/incomeController.js:8-15 | only `isMain` changes; an income stays main iff it was main and is another user's or is the excluded one |
| `IncomeController.DemotedValid` | src/controllers/incomeController.js:8-15 | demoting keeps every record valid, ids unique and at most one main per user |
| `IncomeController.PromoteAfterDemote` | src/controllers/incomeController.js:226-231 | after demoting all but the target, promoting it leaves it the user's only main income and keeps the invariants |
| `IncomeController.RemoveValid` | src/controllers/incomeController.js:349 | removing an income keeps the invariants |
| `IncomeController.TotalIncomeAppend` | src/controllers/incomeController.js:21-43 | the total of two runs of incomes is the sum of their totals |
| `IncomeController.TotalIncomeOrderFree` | src/controllers/incomeController.js:21-43 | the total does not depend on the order the incomes come back in |
| `IncomeController.IncomeInCycle` | src/controllers/incomeController.js:26-39 | a one-time income adds its amount iff its date is in the cycle, a recurring one amount × occurrences |
| `IncomeController.EpochIfNull` | src/controllers/incomeController.js:318-319 | `new Date(null)` in an update is the epoch |
| `IncomeController.AppendValid` | src/controllers/incomeController.js:149-164 | a new income, main only if the user has no other main, keeps the invariants |
| `IncomeController.UpdateValid` | src/controllers/incomeController.js:320-333 | the updated collection keeps the invariants |
| `IncomeController.IncomeStore.EnsureSingleMainIncome` | src/controllers/incomeController.js:8-15 | the store becomes the demoted store and stays valid |
| `IncomeController.IncomeStore.CreateIncome` | src/controllers/incomeController.js:132-173 | refuses falsy `amount`/`payCycle`/`nextPayDate`, then a cycle outside the four; otherwise appends the income (name defaults to "Income", `isMain` to false), demoting the user's others first when `isMain === true` |
| `IncomeController.IncomeStore.SetMainIncome` | src/controllers/incomeController.js:214-240 | not found leaves the store alone; otherwise the target is the user's only main income, other users' incomes are untouched and only `isMain` changes |
| `IncomeController.IncomeStore.UpdateIncome` | src/controllers/incomeController.js:293-342 | not found, or a defined `payCycle` outside the enum, changes nothing; otherwise only defined paths are written, after demoting the others when `isMain === true` |
| `IncomeController.IncomeStore.DeleteIncome` | src/controllers/incomeController.js:345-365 | not found changes nothing; otherwise exactly that income is removed |
| `IncomeController.IncomeStore.CalculateTotalIncome` | src/controllers/incomeController.js:21-43 | the loop's sum is the total of the user's incomes in the cycle |
| `IncomeController.IncomeStore.GetViewCycle` | src/controllers/incomeController.js:243-290 | `NO_MAIN_INCOME` without a main income, refusal for a one-time main; otherwise the main's window, the days left and the cycle's total income |
| `ExpenseModel.TrimmedOption` | src/models/Expense.js:25-29 | a given note is stored trimmed, `null` as none |
| `ExpenseModel.CandidateValid` | src/models/Expense.js:10-58 | the record is valid iff the name and category are not blank, amount ≥ 0, the enums hold, and the recurring/one-time required paths are present |
| `ExpenseModel.CreateDocument` | src/models/Expense.js:10-58 | stored iff every declared rule holds; text is trimmed, the note defaults to "" |
| `ExpenseModel.Applied` | src/controllers/expenseController.js:260-264 | the `$set` writes exactly the paths it names, trimmed, and keeps the rest |
| `ExpenseModel.UpdateDocument` | src/models/Expense.js:10-58 | an update is stored iff no required path is `null` and the whole updated record keeps every declared rule (stricter than the source, see "Left out") |
| `ExpenseModel.UpdateRefusesInvalid` | src/models/Expense.js:10-19 | a negative amount or a blank name is never written |
| `ExpenseModel.EmptyUpdateKeepsExpense` | src/models/Expense.js:10-58 | writing nothing keeps a valid expense as it is |
| `JsText.Trim` | src/models/Expense.js:10-14 | the result has no white space at either end |
| `JsText.TrimCharacterised` | src/models/Expense.js:10-29 | trimming white space, text, white space gives the text back |
| `JsText.TrimIdempotent` | src/models/Expense.js:10-29 | trimming twice is trimming once |
| `JsText.TrimFixedPoints` | src/models/Expense.js:10-29 | `trim` leaves a string alone iff it has no white space at either end |
| `JsText.ToLower` | src/models/User.js:5-11 | the same length, each letter lowered, no capitals left |
| `JsText.LowerTrimCommute` | src/models/User.js:9-10 | `lowercase` and `trim` give the same result in either order |
| `UserModel.NormalEmail` | src/models/User.js:5-11 | a stored email has no capitals and no white space at either end |
| `UserModel.NormalEmailFixedPoints` | src/models/User.js:5-11 | normalising leaves an email alone iff it is already lowercase and trimmed |
| `UserModel.NormalEmailIdempotent` | src/models/User.js:5-11 | normalising twice is normalising once |
| `UserModel.CreateDocument` | src/models/User.js:3-56 | stored iff email, hash and name are non-empty once normalised, `viewCycle` is in the enum with yearly, and no user has the same email; it keeps emails unique |
| `ViewCycleValidation.DayField` | src/utils/viewCycleValidation.js:32-46 | `null` or `undefined` gives the "required" error, a non-number or out-of-range value the range error, else the number |
| `ViewCycleValidation.ValidateViewCycle` | src/utils/viewCycleValidation.js:10-92 | falsy is required; outside weekly/fortnightly/monthly is refused; each cycle needs its day field (0..6, 0..6, 1..28); `isValid` iff no error iff cleaned data |
| `ViewCycleValidation.ValidExactly` | src/utils/viewCycleValidation.js:10-92 | valid iff an allowed cycle with its own day in range; then exactly that field is kept, the other two null |
| `ViewCycleValidation.CleanedInRange` | src/utils/viewCycleValidation.js:47-85 | the kept day is within its field's range |
| `ViewCycleValidation.IrrelevantFieldsIgnored` | src/utils/viewCycleValidation.js:32-85 | the fields a cycle does not use do not change the result |
| `ViewCycleValidation.MonthlyOnTheFirst` | src/utils/viewCycleValidation.js:68-85 | monthly on the 1st is valid whatever the other fields hold |
| `ViewCycleValidation.YearlyRejected` | src/utils/viewCycleValidation.js:18-24 | `"yearly"` is refused |
| `AuthController.FinalViewCycle` | src/controllers/authController.js:67 | `viewCycle` or else `"monthly"` |
| `AuthController.FinalMonthDate` | src/controllers/authController.js:70-72 | a monthly cycle with a `null`/`undefined` `monthDate` gets 1; otherwise unchanged |
| `AuthController.Register` | src/controllers/authController.js:37-118 | missing email/password/name first, then a taken email, then the cycle check; the stored user has the defaults, the normalised email and exactly the cleaned day fields |
| `AuthController.RegisterDefaults` | src/controllers/authController.js:67-105 | with no cycle and no day, registration succeeds with monthly on the 1st and the other day fields null |
| `AuthController.DefaultCycleValid` | src/controllers/authController.js:67-79 | the defaulted cycle passes validation with `monthDate` 1 |
| `AuthController.RegisteredCycleFields` | src/controllers/authController.js:74-105 | a registered user has exactly its cycle's day field, in range |
| `AuthController.RegisterKeepsEmailsUnique` | src/controllers/authController.js:58-64 | registration keeps one user per email |
| `AuthController.FormatUserResponse` | src/controllers/authController.js:7-26 | every shown field is the stored one, except `monthDate` 1 for a monthly user without one |
| `AuthController.ResponseHidesPasswordHash` | src/controllers/authController.js:7-26 | the response does not depend on the password hash |
| `AuthController.RegisteredUserShownAsStored` | src/controllers/authController.js:7-26 | a freshly registered user's `monthDate` is shown as stored |
| `UserController.FormatProfile` | src/controllers/userController.js:4-15 | id, email, name, ratio, savings and cycle as stored; no hash and no day fields |
| `UserController.FindUser` | src/controllers/userController.js:20 | the user with that id, or none has it |
| `UserController.GetMe` | src/controllers/userController.js:18-34 | not found iff no such user; otherwise the profile |
| `UserController.Patched` | src/controllers/userController.js:42-56 | writes only `name` (trimmed), `budgetRatio` and `viewCycle`, each only when defined |
| `UserController.UpdateMe` | src/controllers/userController.js:37-78 | a defined `viewCycle` outside the four with yearly is refused, then the update validators, then not found; success returns the patched user as stored, which the route shows through `FormatProfile` |
| `UserController.UpdateMeChangesOnlyWhitelist` | src/controllers/userController.js:39-56 | email, hash, savings and day fields never change, and the undefined whitelisted paths keep their values |
| `UserController.PatchIdempotent` | src/controllers/userController.js:42-63 | applying a patch twice is applying it once |
| `UserController.PatchKeepsValid` | src/controllers/userController.js:42-63 | a patch keeps a valid user valid |
| `UserController.YearlyAccepted` | src/controllers/userController.js:50-55 | `"yearly"` is accepted and stored |
| `UserController.MissingUserNotFound` | src/controllers/userController.js:21-25 | a missing user is not found both when read and when patched |
| `ExpenseController.GetCurrentCycle` | src/controllers/expenseController.js:9-24 | `NO_MAIN_INCOME` without a main income, refusal for a one-time main, else `calculateCycle` |
| `ExpenseController.CurrentCycleOfValidMain` | src/controllers/expenseController.js:19-23 | a schema-valid recurring main income always gives a window |
| `ExpenseController.AddExpense` | src/controllers/expenseController.js:27-112 | falsy required fields are refused first; one-time gets `createdAt` (given or now) with no cycle or next date; recurring keeps both and no `createdAt` |
| `ExpenseController.AddExpenseAccepts` | src/controllers/expenseController.js:42-100 | the checks in order (spendFrom, expenseType, payCycle, nextPaymentDate); success iff they pass and the schema accepts |
| `ExpenseController.ZeroAmountRefused` | src/controllers/expenseController.js:42-46 | an amount of 0 is refused as missing |
| `ExpenseController.FindExpense` | src/controllers/expenseController.js:207 | an expense with that id and owner, or none exists |
| `ExpenseController.DateOrEpoch` | src/controllers/expenseController.js:254 | `new Date(x)`: `null` is the epoch |
| `ExpenseController.FinalType` | src/controllers/expenseController.js:238 | the body's type if defined, else the stored one |
| `ExpenseController.UpdateData` | src/controllers/expenseController.js:215-257 | copies only defined paths; one-time sets `createdAt` and writes `undefined` to the recurring paths, recurring checks `payCycle` and writes `undefined` to `createdAt`; the model reads each `undefined` write as clearing the path (see "Left out") |
| `ExpenseController.UpdateExpense` | src/controllers/expenseController.js:191-264 | not found, a refused body, or a refusal by the whole-record check; otherwise the valid updated expense |
| `ExpenseController.UpdateShapesByFinalType` | src/controllers/expenseController.js:237-257 | after an update the model's expense has exactly the paths of its final type, and the paths left out are kept; this rests on the whole-record check |
| `ExpenseController.RecurringToOneTimeDatedNow` | src/controllers/expenseController.js:240-241 | turning an undated recurring expense one-time without a date dates it now |
| `ExpenseController.DeleteExpense` | src/controllers/expenseController.js:278-296 | not found iff no such expense; otherwise exactly that one is removed |
| `ExpenseController.FindInCycle` | src/controllers/expenseController.js:133-150 | exactly the user's expenses of that type dated in `[cycleStart, cycleEnd)` |
| `ExpenseController.RelevantDate` | src/controllers/expenseController.js:155-156 | `createdAt` for one-time, `nextPaymentDate` for recurring |
| `ExpenseController.GetCurrentCycleExpenses` | src/controllers/expenseController.js:115-165 | the cycle's failure, or its window with both selections sorted by relevant date as a permutation |
| `ExpenseController.CurrentCycleExpensesExact` | src/controllers/expenseController.js:133-159 | exactly the user's expenses in the window, each dated inside, none listed more often than stored |
| `ExpenseController.SelectionsDisjoint` | src/controllers/expenseController.js:133-150 | the two queries never pick the same expense |
| `ExpenseController.AddedExpenseListed` | src/controllers/expenseController.js:73-75 | a one-time expense added with a date in the cycle is listed in the cycle |
| `Wrappers.StringOr` | src/controllers/incomeController.js:157 | `x \|\| fallback` for a string field |

## Left out

- Database access (`find`, `findOne`, `updateMany`, `findByIdAndUpdate`,
  `create`, `findOneAndDelete`): incomes live in the class
  `IncomeStore`. Expenses and users are sequences passed in. The order a
  query returns is the stored order.
- HTTP plumbing: request and response objects, status codes beyond the
  error names, routes, `server.js`, `app.js` and the JWT middleware.
- `login`, password hashing and token signing: these are foreign library
  calls. The hash is a parameter of `Register`.
- `getIncomes`, `getMainIncome` and `getAllExpenses`: they only read, and
  they sort by timestamps the model does not keep. `getMainIncome` is
  `IncomeController.FindMain`.
- `getCategories`: it returns a constant list.
- The legacy stubs under `routes/` and the database connection set-up.
- The clock: "today" and "now" are parameters. The `createdAt`/`updatedAt`
  timestamp hooks of the schemas are not modelled. The expense schema's
  own `created`/`updated` audit paths are not kept either. They are set
  by a default and by its `pre("save")` and `pre("findOneAndUpdate")`
  hooks.
- Time zones and daylight saving: days have a fixed length.
- Time of day: pay dates are kept as calendar days.
- Floating-point amounts: amounts are integers and sums are exact.
  Day fields are integers, so a non-integer `weekDay` cannot be expressed.
- Mongoose strict mode: the user schema declares no `weekDay`,
  `fortnightStartDay` or `monthDate`. Strict mode would drop them on
  create, but the model stores what registration writes.
- `IncomeController.IncomeStore.SetMainIncome`: each request runs on its
  own. In the source the demotion (`updateMany`) and the `save` are
  separate awaits, so two concurrent calls for different incomes of one
  user can interleave and leave two main incomes.
- `IncomeController.IncomeStore.CreateIncome`: `isMain` is a boolean. In
  the source a truthy non-boolean such as `1` or `"true"` skips the
  `isMain === true` demotion, but `isMain || false` is cast to `true` on
  save. So a second main income can be stored.
- `IncomeController.IncomeStore.UpdateIncome`: the same boolean
  assumption. A truthy non-boolean `isMain` skips the demotion and is
  cast to `true` when written.
- `ExpenseModel.UpdateDocument`: validates the whole updated record
  against the declared rules. `runValidators` checks only the paths in
  `$set`. So the source stores `{ expenseType: "recurring" }` on a
  one-time expense without a `payCycle` or `nextPaymentDate`, and the
  model refuses it with `ValidationFailed`.
- `ExpenseController.UpdateShapesByFinalType`: a recurring expense has
  both recurring paths only because of the whole-record check above. The
  source does not promise it.
- `Sorting.SortBy`: for an input that is not already ordered, the model
  does not state the relative order of equal keys. `Array.prototype.sort`
  keeps it.
- `ExpenseController.UpdateData`: the model clears `payCycle` and
  `nextPaymentDate` when an expense becomes one-time. It clears
  `createdAt` when it becomes recurring. The source sets these paths to
  `undefined` in `$set`. Mongoose 7 and later drop such keys and keep
  the stored values. Earlier versions wrote `null`, which the model's
  clearing matches. The source does not pin a version.
- Other Mongoose behaviour: type casting and unknown paths are not
  modelled.
- Numeric dates in an expense body: the body's dates are taken as parsed
  instants, so the truthiness tests `createdAt ? … : new Date()` and
  `!nextPaymentDate` become "is it given". A numeric `0` is falsy in the
  source, which dates it now or refuses it. The model keeps it as the
  epoch.
- `JsText.ToLower`: lowercases only A–Z, not the rest of Unicode's case
  mapping.
- `LegacyCycle.GetIncomeOccurrencesInCycle`: requires a stored income to
  hold one of the schema's `payCycle` values. With any other value the
  source's loops would never end.
- `IncomeController.IncomeStore.CreateIncome`: requires the new id to be
  fresh, which is the database's job.
