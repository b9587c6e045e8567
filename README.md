# Finance backend core, modelled in Dafny

This project models the core of a personal-finance CRUD backend. The backend keeps transactions, scheduled transactions, budgets, goals, debts, friendships and users. The model covers four layers:

- **Repositories** over the database tables. Each is a class holding its rows and the next serial id. It has finders, `create`, a partial `update` that writes only the defined fields, `delete`, and the read-modify-write balance updates (`updateAmount`, `updateProgress`, `updatePendingAmount`).
- **Transaction queries.** The filter chain of `findByFilters` and its date ordering, the monthly income/expense balance, and the per-category totals.
- **Decision rules and request handlers.** The goal access, sharing and progress checks, email/username uniqueness, and the password-recovery token lifecycle. The budget, goal, debt, friend and user handlers are modelled as methods: which check wins, which record is built, which writes happen and what the reply is.
- **Request schemas.** The validators of every create/update body.

Conventions:

- Amounts are whole cents (`Cents = int`), because every money column is `decimal(10,2)`.
- Instants are integer milliseconds. The current time is always a parameter.
- A reply is `Respond(status, message, data)` or `Thrown(error)`. `Thrown` is an exception escaping the handler.
- A repository error is `Result.Err(message)`.
- Local time is taken to be UTC.

Helper services that are not part of this model appear as parameters:

- `users: set<int>` stands for the ids that the budget, debt and friend helpers' `validateUser` accepts.
- `validateSharing`, `validateAmount`, `validateDebt` and `validateFriendship` are function parameters.
- Password hashing is a function parameter `hash`.
- The recovery token is an argument.

The user and friend repositories are not part of this model either. `UserStore` and `FriendStore` give them plain table semantics: first-match lookups, and writes to the row with that id.

## Model

| member | source | states |
|---|---|---|
| Common.IdOrNull | src/features/debts/infrastructure/adapters/debt.repository.ts:59 | `x \|\| null` keeps a truthy id and turns undefined, null and 0 into null |
| Common.TextOrNull | src/features/transactions/infrastructure/adapters/transaction.repository.ts:107 | `x \|\| null` keeps a non-empty string and turns undefined, null and "" into null |
| Common.MessageOr | src/features/budgets/application/services/budget.service.ts:237 | `message \|\| fallback`: the helper's message when it is non-empty, the fallback otherwise |
| Calendar.DaysInMonth | src/features/budgets/infrastructure/adapters/budget.repository.ts:44-45 | a month has 28 to 31 days, and February has 29 exactly in leap years |
| Calendar.Normalize | src/features/budgets/infrastructure/adapters/budget.repository.ts:45 | a day number inside the month is kept as given; out-of-range days roll into the neighbouring months |
| Calendar.DayZeroOfNextMonth | src/features/budgets/infrastructure/adapters/budget.repository.ts:45 | `new Date(y, m + 1, 0)` is the last calendar day of month m, December included (it rolls over the year) |
| Calendar.StartOfMonth | src/features/budgets/infrastructure/adapters/budget.repository.ts:44 | `new Date(y, m, 1)` is day 1 of the same year and month |
| Calendar.EndOfMonth | src/features/budgets/infrastructure/adapters/budget.repository.ts:45 | the end of the month has the same year and month, and its day is the month's length: no day of that month is later |
| Calendar.StartIsNotEnd | src/features/budgets/infrastructure/adapters/budget.repository.ts:54-55 | the first and the last day of a month always differ |
| Calendar.MidnightsWithinMonth | src/features/transactions/infrastructure/adapters/transaction.repository.ts:173-174 | the last day's midnight is (days in month − 1) days after the first day's midnight |
| Calendar.MonthMidnights | src/features/transactions/infrastructure/adapters/transaction.repository.ts:173-174 | the two instants the code computes: both inside the month, the first strictly earlier, (days − 1) days apart |
| Calendar.MonthSpan | src/features/transactions/infrastructure/adapters/transaction.repository.ts:173-185 | the corrected window: an instant lies in its inclusive range exactly when it lies in the month |
| Calendar.MidnightsMissTheLastDay | src/features/transactions/infrastructure/adapters/transaction.repository.ts:173-185 | the written window starts where the month does but ends one day minus 1 ms early, and the instant just after the last midnight is in the month yet past the window |
| Calendar.NewDate | src/features/budgets/infrastructure/adapters/budget.repository.ts:44-45 | `new Date(y, m, d)` with an in-range month index and day is exactly that calendar date |
| Calendar.DaysBeforeMonth | src/features/transactions/infrastructure/adapters/transaction.repository.ts:173-174 | the days before month m of a year lie between 28m and 31m, and are 0 before January and 31 before February |
| Calendar.LeapYearRule | src/features/budgets/infrastructure/adapters/budget.repository.ts:45 | the leap-year rule behind day 0 of March: 2024 and 2000 are leap years, 2023, 1900 and 2100 are not |
| Calendar.KnownDayNumbers | src/features/transactions/infrastructure/adapters/transaction.repository.ts:173-174 | the day numbers behind the midnights are the epoch distances: 31 December 1969 is day −1, 1 January 2000 is day 10957, 1 March 2024 is day 19783 |
| Calendar.DaysFillTheMonth | src/features/transactions/infrastructure/adapters/transaction.repository.ts:173-185 | every instant of every local day of a month lies in that month |
| Calendar.EpochIsDayZero | src/features/transactions/infrastructure/adapters/transaction.repository.ts:173 | instants count from 1 January 1970, which is day 0 |
| Calendar.YearLength | src/features/budgets/infrastructure/adapters/budget.repository.ts:45 | the months of a year add up to 365 days, 366 in a leap year |
| Calendar.LeapDayStep | src/features/budgets/infrastructure/adapters/budget.repository.ts:45 | the leap days counted before a year grow by one exactly across a leap year |
| Calendar.MonthsMeet | src/features/transactions/infrastructure/adapters/transaction.repository.ts:173-174 | the next month (`new Date(y, m + 1, 1)`) begins 1 ms after a month's span ends, December included, so no instant lies in both months |
| TransactionDto.CategoryListsAreExact | src/features/transactions/application/dtos/transaction.dto.ts:9-28 | six distinct income categories and nine distinct expense categories |
| TransactionDto.CategoryDeterminesType | src/features/transactions/application/dtos/transaction.dto.ts:44-56 | no category is listed under both types, so two accepted bodies with the same category have the same type |
| TransactionDto.CreateAcceptance | src/features/transactions/application/dtos/transaction.dto.ts:30-56 | a create body is accepted iff its amount is positive, its category is in one of the two lists, and its type is the type of the list that holds the category |
| TransactionDto.IncomeFoodRejected | src/features/transactions/application/dtos/transaction.dto.ts:44-56 | an INCOME body in category FOOD is rejected |
| TransactionDto.CreateIsStricterThanUpdate | src/features/transactions/application/dtos/transaction.dto.ts:30-89 | every body the create schema accepts passes the update schema too |
| TransactionDto.UpdateRefinementNeedsBoth | src/features/transactions/application/dtos/transaction.dto.ts:74-84 | the update refinement compares category with type only when both are given; otherwise it passes |
| PaymentMethodDto.CreateAcceptance | src/features/payment-methods/application/dtos/payment-method.dto.ts:8-28 | create is accepted iff the type is CASH, CARD or BANK_ACCOUNT, digits are present for the non-CASH types, and given digits are four ASCII digits |
| PaymentMethodDto.CashNeedsNoDigits | src/features/payment-methods/application/dtos/payment-method.dto.ts:17-28 | CASH without digits is accepted |
| PaymentMethodDto.CardNeedsDigits | src/features/payment-methods/application/dtos/payment-method.dto.ts:17-28 | a non-CASH create without digits is rejected |
| PaymentMethodDto.UpdateToCardNeedsDigits | src/features/payment-methods/application/dtos/payment-method.dto.ts:41-52 | an update to a non-CASH type without digits in the same body is rejected |
| PaymentMethodDto.UpdateWithoutType | src/features/payment-methods/application/dtos/payment-method.dto.ts:41-52 | an update without a type is accepted iff its digits, when given, are well formed |
| PaymentMethodDto.CreateIsStricterThanUpdate | src/features/payment-methods/application/dtos/payment-method.dto.ts:8-57 | a valid create body is a valid update body |
| PaymentMethodDto.DigitsExamples | src/features/payment-methods/application/dtos/payment-method.dto.ts:11 | "0427" is accepted; three digits, a letter, or five digits are rejected |
| ScheduledTransactionDto.ParseCreate | src/features/scheduled-transactions/application/dtos/scheduled-transaction.dto.ts:26-38 | a body parses iff frequency and category are listed, the amount is positive, and the columns the base insert schema still requires are present; `active` defaults to true and stays false only when false is sent |
| ScheduledTransactionDto.CreateNeedsBaseColumns | src/core/infrastructure/database/schema.ts:105-130 | a body that is valid for the extended fields still parses only with `transaction_base_id`, `next_execution`, `frequency_type`, `start_date` and `status`, which the table declares not null without a default |
| ScheduledTransactionDto.EnumsAreExact | src/features/scheduled-transactions/application/dtos/scheduled-transaction.dto.ts:12-24 | exactly the four frequencies and nine categories |
| ScheduledTransactionDto.EmptyUpdateIsValid | src/features/scheduled-transactions/application/dtos/scheduled-transaction.dto.ts:40-54 | every update field is optional |
| CreateUserDto.Utf16Length | src/features/users/application/dtos/create-user.dto.ts:11-12 | the length zod compares is between the number of characters and twice that: characters outside the Basic Multilingual Plane count twice |
| CreateUserDto.BmpLength | src/features/users/application/dtos/create-user.dto.ts:11-12 | for a string of Basic Multilingual Plane characters, that length is the number of characters |
| CreateUserDto.PasswordAccepted | src/features/users/application/dtos/create-user.dto.ts:9-15 | a password meeting all five rules ("Secret123") is accepted |
| CreateUserDto.PasswordNeedsUpper | src/features/users/application/dtos/create-user.dto.ts:13 | a password with no upper-case letter, and nothing else wrong, is rejected |
| CreateUserDto.PasswordNeedsLower | src/features/users/application/dtos/create-user.dto.ts:14 | a password with no lower-case letter, and nothing else wrong, is rejected |
| CreateUserDto.PasswordNeedsDigit | src/features/users/application/dtos/create-user.dto.ts:15 | a password with no digit, and nothing else wrong, is rejected |
| CreateUserDto.PasswordTooShort | src/features/users/application/dtos/create-user.dto.ts:11 | a six-character password meeting the other rules is rejected |
| CreateUserDto.PasswordLengthLimit | src/features/users/application/dtos/create-user.dto.ts:12 | the maximum is inclusive: a valid password of exactly 100 code units is accepted, the same with 101 is rejected |
| CreateUserDto.AstralCharactersCountTwice | src/features/users/application/dtos/create-user.dto.ts:11 | seven characters, one of them an emoji, already meet the minimum of eight |
| UpdateUserDto.SameRulesAsCreate | src/features/users/application/dtos/update-user.dto.ts:6-12 | the update schema's password rules are exactly the create rules |
| UpdateUserDto.AbsentPasswordAccepted | src/features/users/application/dtos/update-user.dto.ts:13-15 | a body without a password is accepted |
| UpdateUserDto.PresentPasswordChecked | src/features/users/application/dtos/update-user.dto.ts:6-13 | a given password is accepted iff it meets the create rules |
| BudgetDto.CreateBounds | src/features/budgets/application/dtos/budget.dto.ts:20-30 | limit must be ≥ 1 cent, a negative current amount is rejected, and a listed category with a positive limit and no current amount is accepted |
| BudgetDto.CreateIsStricterThanUpdate | src/features/budgets/application/dtos/budget.dto.ts:20-53 | a valid create body is a valid update body |
| BudgetDto.EmptyUpdateIsValid | src/features/budgets/application/dtos/budget.dto.ts:35-53 | all fields optional; an explicit null shared user is accepted |
| BudgetDto.AnyAmountUpdate | src/features/budgets/application/dtos/budget.dto.ts:55-57 | the amount update accepts negative and zero amounts |
| GoalDto.CreateIsStricterThanUpdate | src/features/goals/application/dtos/goal.dto.ts:8-39 | a valid create body is a valid update body |
| GoalDto.CreateNeedsBaseColumns | src/core/infrastructure/database/schema.ts:71-88 | a body with a positive target and no current amount parses iff it carries `start_date` and `status`, which the goals table declares not null without a default |
| GoalDto.EmptyUpdateIsValid | src/features/goals/application/dtos/goal.dto.ts:22-39 | every field, the end date included, is optional on update |
| GoalDto.ProgressBounds | src/features/goals/application/dtos/goal.dto.ts:41-43 | progress of 0 is accepted, a negative one is not |
| DebtDto.ParseCreate | src/features/debts/application/dtos/debt.dto.ts:5-18 | a body parses iff both amounts are positive and the base insert schema's `amount` and `start_date` are present; `paid` is true only when true is sent; amounts, user and creditor are carried over |
| DebtDto.CreateBounds | src/core/infrastructure/database/schema.ts:191-204 | a non-positive original or pending amount is rejected, and so is a body without `amount` or `start_date` (not null, no default); a body with both, positive amounts and no `paid` parses as unpaid |
| DebtDto.PaymentBounds | src/features/debts/application/dtos/debt.dto.ts:38-40 | a payment of 1 cent is accepted, 0 and negative are not |
| DebtRepository.Patched | src/features/debts/infrastructure/adapters/debt.repository.ts:66-76 | each defined field is written and each undefined one kept; id, user, original amount and creditor never change |
| DebtRepository.AfterPayment | src/features/debts/infrastructure/adapters/debt.repository.ts:99-108 | pending is reduced by the amount, `paid` holds iff the new pending is ≤ 0, and no other field changes |
| DebtRepository.PatchNothing | src/features/debts/infrastructure/adapters/debt.repository.ts:66-76 | an update with no defined field leaves the row unchanged |
| DebtRepository.PatchIdempotent | src/features/debts/infrastructure/adapters/debt.repository.ts:66-76 | applying the same update twice equals applying it once |
| DebtRepository.PatchesCompose | src/features/debts/infrastructure/adapters/debt.repository.ts:66-76 | two updates equal one update where the later defined fields win |
| DebtRepository.Overpayment | src/features/debts/infrastructure/adapters/debt.repository.ts:99-100 | no clamping: paying more than is pending leaves a negative balance marked paid |
| DebtRepository.PaidIsNotSticky | src/features/debts/infrastructure/adapters/debt.repository.ts:100 | a paid debt whose new pending is positive becomes unpaid |
| DebtRepository.PaymentsCompose | src/features/debts/infrastructure/adapters/debt.repository.ts:95-112 | two payments equal one payment of their sum |
| DebtRepository.DebtTable.FindById | src/features/debts/infrastructure/adapters/debt.repository.ts:25-29 | the row with that id, or null when there is none |
| DebtRepository.DebtTable.FindByUserId | src/features/debts/infrastructure/adapters/debt.repository.ts:31-38 | exactly the debts of that user |
| DebtRepository.DebtTable.FindByCreditorId | src/features/debts/infrastructure/adapters/debt.repository.ts:40-47 | exactly the debts owed to that creditor; a debt without a creditor matches no id |
| DebtRepository.DebtTable.Create | src/features/debts/infrastructure/adapters/debt.repository.ts:49-64 | stores the record under a fresh id with a falsy creditor as null; the other rows are kept |
| DebtRepository.DebtTable.Update | src/features/debts/infrastructure/adapters/debt.repository.ts:66-84 | the row becomes `Patched`; an unknown id changes nothing and the mapping of the missing row throws |
| DebtRepository.DebtTable.Delete | src/features/debts/infrastructure/adapters/debt.repository.ts:86-93 | true iff a row with that id existed; exactly that row is removed |
| DebtRepository.DebtTable.UpdatePendingAmount | src/features/debts/infrastructure/adapters/debt.repository.ts:95-112 | an unknown id gives "Debt not found" and no change; otherwise the row becomes `AfterPayment` and nothing else changes |
| BudgetRepository.Patched | src/features/budgets/infrastructure/adapters/budget.repository.ts:88-100 | each defined field among category, limit, current, month and shared user is written (null included), the rest kept; id and owner never change |
| BudgetRepository.AfterAmount | src/features/budgets/infrastructure/adapters/budget.repository.ts:124-132 | the signed amount is added to the current amount and nothing else changes |
| BudgetRepository.PatchNothing | src/features/budgets/infrastructure/adapters/budget.repository.ts:88-100 | the empty update leaves the row unchanged |
| BudgetRepository.PatchIdempotent | src/features/budgets/infrastructure/adapters/budget.repository.ts:88-100 | an update applied twice equals the update applied once |
| BudgetRepository.AmountsCompose | src/features/budgets/infrastructure/adapters/budget.repository.ts:124 | amount updates add up, and a negative amount undoes the positive one |
| BudgetRepository.AmountMayExceedLimit | src/features/budgets/infrastructure/adapters/budget.repository.ts:124 | nothing keeps the current amount within the limit |
| BudgetRepository.BudgetTable.FindById | src/features/budgets/infrastructure/adapters/budget.repository.ts:25-32 | the row with that id, or null |
| BudgetRepository.BudgetTable.FindByUserId | src/features/budgets/infrastructure/adapters/budget.repository.ts:34-41 | exactly the budgets of that user |
| BudgetRepository.BudgetTable.FindByUserIdAndMonth | src/features/budgets/infrastructure/adapters/budget.repository.ts:43-61 | as written: only budgets whose month equals both the first and the last day's midnight |
| BudgetRepository.BudgetTable.MonthQueryIsAlwaysEmpty | src/features/budgets/infrastructure/adapters/budget.repository.ts:47-58 | the written month query finds nothing, whatever the table holds |
| BudgetRepository.BudgetTable.FindByUserIdInMonth | src/features/budgets/infrastructure/adapters/budget.repository.ts:43-61 | corrected: a budget is found iff it is the user's and its month lies in the requested month |
| BudgetRepository.BudgetTable.MonthStartBudgetIsFound | src/features/budgets/infrastructure/adapters/budget.repository.ts:43-61 | a budget dated at the month's first midnight is found by the corrected query and missed by the written one |
| BudgetRepository.BudgetTable.FindSharedWithUser | src/features/budgets/infrastructure/adapters/budget.repository.ts:63-70 | exactly the budgets whose shared user is that id |
| BudgetRepository.BudgetTable.Create | src/features/budgets/infrastructure/adapters/budget.repository.ts:72-86 | fresh id, falsy shared user as null, other rows kept |
| BudgetRepository.BudgetTable.Update | src/features/budgets/infrastructure/adapters/budget.repository.ts:88-109 | the row becomes `Patched`; an unknown id changes nothing and throws |
| BudgetRepository.BudgetTable.Delete | src/features/budgets/infrastructure/adapters/budget.repository.ts:111-118 | true iff the row existed; exactly it is removed |
| BudgetRepository.BudgetTable.UpdateAmount | src/features/budgets/infrastructure/adapters/budget.repository.ts:120-135 | an unknown id gives "Budget not found" and no change; otherwise the row becomes `AfterAmount` |
| GoalRepository.Patched | src/features/goals/infrastucture/adapters/goal.repository.ts:65-76 | each defined field among name, target, current, end date and shared user is written, the rest kept; id and owner never change |
| GoalRepository.AfterProgress | src/features/goals/infrastucture/adapters/goal.repository.ts:100-108 | the amount is added to the current amount and nothing else changes |
| GoalRepository.PatchNothing | src/features/goals/infrastucture/adapters/goal.repository.ts:65-76 | the empty update leaves the row unchanged |
| GoalRepository.PatchIdempotent | src/features/goals/infrastucture/adapters/goal.repository.ts:65-76 | an update applied twice equals the update applied once |
| GoalRepository.ProgressComposes | src/features/goals/infrastucture/adapters/goal.repository.ts:100 | progress updates add up, and a non-negative one never lowers the current amount |
| GoalRepository.GoalTable.FindById | src/features/goals/infrastucture/adapters/goal.repository.ts:25-29 | the row with that id, or null |
| GoalRepository.GoalTable.FindByUserId | src/features/goals/infrastucture/adapters/goal.repository.ts:31-38 | exactly the goals of that user |
| GoalRepository.GoalTable.FindSharedWithUser | src/features/goals/infrastucture/adapters/goal.repository.ts:40-47 | exactly the goals whose shared user is that id |
| GoalRepository.GoalTable.Create | src/features/goals/infrastucture/adapters/goal.repository.ts:49-63 | fresh id, falsy shared user as null, other rows kept |
| GoalRepository.GoalTable.Update | src/features/goals/infrastucture/adapters/goal.repository.ts:65-85 | the row becomes `Patched`; an unknown id changes nothing and throws |
| GoalRepository.GoalTable.Delete | src/features/goals/infrastucture/adapters/goal.repository.ts:87-94 | true iff the row existed; exactly it is removed |
| GoalRepository.GoalTable.UpdateProgress | src/features/goals/infrastucture/adapters/goal.repository.ts:96-111 | an unknown id gives "Goal not found" and no change; otherwise the row becomes `AfterProgress` |
| ScheduledTransactionRepository.Patched | src/features/scheduled-transactions/infrastructure/adapters/scheduled-transaction.repositry.ts:86-103 | each of the eight defined fields is written, the rest kept; id and user never change |
| ScheduledTransactionRepository.PatchNothing | src/features/scheduled-transactions/infrastructure/adapters/scheduled-transaction.repositry.ts:86-103 | the empty update leaves the row unchanged |
| ScheduledTransactionRepository.PatchIdempotent | src/features/scheduled-transactions/infrastructure/adapters/scheduled-transaction.repositry.ts:86-103 | an update applied twice equals the update applied once |
| ScheduledTransactionRepository.DeactivationStopsExecution | src/features/scheduled-transactions/infrastructure/adapters/scheduled-transaction.repositry.ts:53-54 | setting `active` false makes a record never due; setting it true makes a record due once its date has passed |
| ScheduledTransactionRepository.ApplyPatch | src/features/scheduled-transactions/infrastructure/adapters/scheduled-transaction.repositry.ts:82-103 | the field-by-field SET list yields exactly `Patched` |
| ScheduledTransactionRepository.ScheduledTable.FindById | src/features/scheduled-transactions/infrastructure/adapters/scheduled-transaction.repositry.ts:28-35 | the row with that id, or null |
| ScheduledTransactionRepository.ScheduledTable.FindByUserId | src/features/scheduled-transactions/infrastructure/adapters/scheduled-transaction.repositry.ts:37-44 | exactly that user's scheduled records |
| ScheduledTransactionRepository.ScheduledTable.FindPendingExecutions | src/features/scheduled-transactions/infrastructure/adapters/scheduled-transaction.repositry.ts:46-59 | exactly the active records whose next execution is at or before now |
| ScheduledTransactionRepository.ScheduledTable.PendingGrowsWithTime | src/features/scheduled-transactions/infrastructure/adapters/scheduled-transaction.repositry.ts:50-56 | whatever is due now is still due later |
| ScheduledTransactionRepository.ScheduledTable.DueIsInclusive | src/features/scheduled-transactions/infrastructure/adapters/scheduled-transaction.repositry.ts:54 | an active record scheduled for exactly now is due |
| ScheduledTransactionRepository.ScheduledTable.Create | src/features/scheduled-transactions/infrastructure/adapters/scheduled-transaction.repositry.ts:61-80 | fresh id; `active` and the next execution date stored as given; falsy description and payment method stored as null |
| ScheduledTransactionRepository.ScheduledTable.Update | src/features/scheduled-transactions/infrastructure/adapters/scheduled-transaction.repositry.ts:82-112 | the row becomes `Patched`; an unknown id changes nothing and throws |
| ScheduledTransactionRepository.ScheduledTable.Delete | src/features/scheduled-transactions/infrastructure/adapters/scheduled-transaction.repositry.ts:114-121 | true iff the row existed; exactly it is removed |
| TransactionQuery.BuildConditions | src/features/transactions/infrastructure/adapters/transaction.repository.ts:46-86 | the first condition is the user. The conjunction holds exactly for rows matching the filters: both dates give an inclusive BETWEEN and one date gives that bound; type, category and payment method apply only when truthy; truthy min/max amounts are inclusive, and a bound of 0 is ignored |
| TransactionQuery.PushDateBounds | src/features/transactions/infrastructure/adapters/transaction.repository.ts:48-60 | the date step adds exactly the date filter of the given bounds |
| TransactionQuery.Push | src/features/transactions/infrastructure/adapters/transaction.repository.ts:49 | a pushed condition strengthens the conjunction by exactly that condition |
| TransactionQuery.HoldsAllAppend | src/features/transactions/infrastructure/adapters/transaction.repository.ts:91 | `and(...conditions, c)` holds iff `and(...conditions)` and `c` hold |
| TransactionQuery.WhereCounts | src/features/transactions/infrastructure/adapters/transaction.repository.ts:88-91 | WHERE keeps every satisfying row exactly as often as the table holds it, and nothing else |
| TransactionQuery.SortByDate | src/features/transactions/infrastructure/adapters/transaction.repository.ts:92 | ORDER BY date: the result is sorted ascending and is a permutation of its input |
| TransactionQuery.Insert | src/features/transactions/infrastructure/adapters/transaction.repository.ts:92 | inserting into a sorted sequence keeps it sorted and adds exactly that row |
| TransactionQuery.TypesPartition | src/features/transactions/infrastructure/adapters/transaction.repository.ts:176-188 | the income total plus the expense total is the total of all rows |
| TransactionQuery.GroupByType | src/features/transactions/infrastructure/adapters/transaction.repository.ts:176-188 | GROUP BY type: one group per type present, holding that type's sum |
| TransactionQuery.FoldTotals | src/features/transactions/infrastructure/adapters/transaction.repository.ts:190-205 | the `forEach`: an INCOME group sets the income, any other group sets the expense, the last such group wins, an absent group leaves 0, and balance = income − expense |
| TransactionQuery.LastTotalOfUnique | src/features/transactions/infrastructure/adapters/transaction.repository.ts:196-202 | when each type has at most one group, the fold takes that group's total |
| TransactionQuery.LastTotalOfAbsent | src/features/transactions/infrastructure/adapters/transaction.repository.ts:190-202 | a type without a group keeps its initial 0 |
| TransactionQuery.FoldIsOrderFree | src/features/transactions/infrastructure/adapters/transaction.repository.ts:176-205 | whatever order the groups come in, the fold yields each type's sum over the rows |
| TransactionQuery.Categories | src/features/transactions/infrastructure/adapters/transaction.repository.ts:225 | the distinct categories of the rows, each once |
| TransactionQuery.TotalsFor | src/features/transactions/infrastructure/adapters/transaction.repository.ts:213-230 | one entry per listed category, carrying that category's sum |
| TransactionQuery.CategoryTotals | src/features/transactions/infrastructure/adapters/transaction.repository.ts:213-230 | GROUP BY category: distinct categories, an entry iff some row has that category, and each total is that category's sum |
| TransactionQuery.SumOverCategoriesIsTotal | src/features/transactions/infrastructure/adapters/transaction.repository.ts:213-230 | summing over distinct categories that cover every row gives the overall total |
| TransactionQuery.CategoryTotalsConserve | src/features/transactions/infrastructure/adapters/transaction.repository.ts:208-231 | the category totals add up to the total of the selected rows: no row is lost or counted twice |
| TransactionRepository.Patched | src/features/transactions/infrastructure/adapters/transaction.repository.ts:122-145 | each defined field is written (null included) and the rest kept; id, user and date never change |
| TransactionRepository.PatchNothing | src/features/transactions/infrastructure/adapters/transaction.repository.ts:122-145 | the empty update leaves the row unchanged |
| TransactionRepository.PatchIdempotent | src/features/transactions/infrastructure/adapters/transaction.repository.ts:122-145 | an update applied twice equals the update applied once |
| TransactionRepository.RowWithId | src/features/transactions/infrastructure/adapters/transaction.repository.ts:26-32 | a row is found iff some row has the id, and the one found has it |
| TransactionRepository.PatchWhere | src/features/transactions/infrastructure/adapters/transaction.repository.ts:147-151 | UPDATE ... WHERE id: rows with the id are patched, every other row is unchanged, and the length is kept |
| TransactionRepository.Stored | src/features/transactions/infrastructure/adapters/transaction.repository.ts:97-116 | the stored row carries the given fields, falsy optionals as null, and the current time as its date |
| TransactionRepository.WithoutId | src/features/transactions/infrastructure/adapters/transaction.repository.ts:156-163 | DELETE ... WHERE id: only rows with another id remain |
| TransactionRepository.WithoutIdKeeps | src/features/transactions/infrastructure/adapters/transaction.repository.ts:156-163 | every row with another id remains |
| TransactionRepository.WithoutIdShrinks | src/features/transactions/infrastructure/adapters/transaction.repository.ts:156-163 | the table shrinks iff some row had the id, which is what `delete` reports |
| TransactionRepository.WithoutIdUnique | src/features/transactions/infrastructure/adapters/transaction.repository.ts:156-163 | deleting keeps the ids unique |
| TransactionRepository.ApplyPatch | src/features/transactions/infrastructure/adapters/transaction.repository.ts:122-145 | the field-by-field SET list yields exactly `Patched` |
| TransactionRepository.TransactionTable.FindById | src/features/transactions/infrastructure/adapters/transaction.repository.ts:26-32 | a row with that id, or null when there is none |
| TransactionRepository.TransactionTable.FindByFilters | src/features/transactions/infrastructure/adapters/transaction.repository.ts:42-95 | sorted by date; every row is the user's; each row appears exactly as often as the table holds it when it matches the filters, and not at all otherwise |
| TransactionRepository.TransactionTable.Create | src/features/transactions/infrastructure/adapters/transaction.repository.ts:97-116 | appends `Stored` under a fresh id |
| TransactionRepository.TransactionTable.Update | src/features/transactions/infrastructure/adapters/transaction.repository.ts:118-154 | the table becomes `PatchWhere`; the reply is the patched row, or, for an unknown id, the mapping error with nothing changed |
| TransactionRepository.TransactionTable.Delete | src/features/transactions/infrastructure/adapters/transaction.repository.ts:156-163 | true iff some row had the id; the table becomes `WithoutId` |
| TransactionRepository.TransactionTable.InRange | src/features/transactions/infrastructure/adapters/transaction.repository.ts:184-185 | a row is selected iff it is the user's and its date lies in the inclusive range, and each selected row appears exactly as often as the table holds it |
| TransactionRepository.TransactionTable.GetMonthlyBalance | src/features/transactions/infrastructure/adapters/transaction.repository.ts:165-206 | income and expense are the sums of the user's income and expense rows dated in the month. Together they total all those rows, and balance = income − expense. This is the corrected window; see Findings |
| TransactionRepository.TransactionTable.MonthlyRowsAsWritten | src/features/transactions/infrastructure/adapters/transaction.repository.ts:173-187 | the rows the written query selects, all dated in the month |
| TransactionRepository.TransactionTable.MonthlyRows | src/features/transactions/infrastructure/adapters/transaction.repository.ts:173-187 | corrected: a row is selected iff it is the user's and dated in the month |
| TransactionRepository.TransactionTable.LastDayEscapesMonthlyBalance | src/features/transactions/infrastructure/adapters/transaction.repository.ts:173-187 | a row dated 1 ms after the last day's midnight is missed by the written query and kept by the corrected one |
| TransactionRepository.TransactionTable.GetCategoryTotals | src/features/transactions/infrastructure/adapters/transaction.repository.ts:208-231 | distinct categories, an entry iff the user has a row of that category in [start, end], each total that category's sum, and the totals add up to the range's total |
| GoalUtils.AccessIsOwnerOrShared | src/features/goals/application/services/goal-utils.service.ts:37-47 | ownership implies access, and access holds iff the goal exists and the caller is its owner or its shared user |
| GoalUtils.ValidateSharing | src/features/goals/application/services/goal-utils.service.ts:49-84 | valid iff the caller owns the goal, the target exists and the target is not the caller. The message names the first failing check, in that order |
| GoalUtils.SharingRejectionsExplain | src/features/goals/application/services/goal-utils.service.ts:59-81 | every rejection carries a non-empty message |
| GoalUtils.ValidateProgress | src/features/goals/application/services/goal-utils.service.ts:86-135 | valid iff the goal is accessible, current + amount ≤ target and the end date is not before now. The checks run in the order not found, no access, exceeds target, expired; the goal is returned once access is granted |
| GoalUtils.AcceptedProgressStaysWithinTarget | src/features/goals/application/services/goal-utils.service.ts:113-120 | an accepted progress update leaves the goal at or below its target |
| GoalUtils.ReachingTargetExactly | src/features/goals/application/services/goal-utils.service.ts:113-114 | landing exactly on the target is accepted; one cent more is not |
| GoalUtils.DeadlineIsInclusive | src/features/goals/application/services/goal-utils.service.ts:123 | an end date equal to now is accepted; 1 ms later the goal has expired |
| GoalUtils.SharedUserMayProgress | src/features/goals/application/services/goal-utils.service.ts:42-47 | the shared user passes the access check exactly as the owner does |
| UserStore.Patched | src/features/users/application/services/user.service.ts:175-179 | each defined field is written, a null recovery token or expiry clears it, and id, registration date and `active` never change |
| UserStore.FindFirst | src/features/users/application/services/user-utils.service.ts:16-22 | a row is found iff one matches the key, and the one found matches |
| UserStore.PatchWhere | src/features/users/application/services/user.service.ts:109-112 | the rows with the id are patched, every other row is unchanged |
| UserStore.UserTable.Find | src/features/users/application/services/user.service.ts:74 | a lookup finds a matching row iff one exists |
| UserStore.UserTable.Create | src/features/users/application/services/user.service.ts:60-66 | appends the new user under a fresh id, registered now, with no recovery token |
| UserStore.UserTable.Update | src/features/users/application/services/user.service.ts:109-112 | the table becomes `PatchWhere`; the patched row is returned iff the id exists |
| UserStore.UserTable.SetRecoveryToken | src/features/users/application/services/user.service.ts:150 | writes the token and its expiry into the row with that id |
| UserUtils.IsEmailTaken | src/features/users/application/services/user-utils.service.ts:32-35 | true iff some user has the email |
| UserUtils.IsUsernameTaken | src/features/users/application/services/user-utils.service.ts:37-40 | true iff some user has the username |
| UserUtils.GetByEmail | src/features/users/application/services/user-utils.service.ts:16-22 | a user with the email, or "IUser not found" exactly when none exists |
| UserUtils.GetByUsername | src/features/users/application/services/user-utils.service.ts:24-30 | a user with the username, or "IUser not found" exactly when none exists |
| UserUtils.ValidateUniqueFields | src/features/users/application/services/user-utils.service.ts:42-55 | resolves iff neither field is taken; a taken email is reported even when the username is also taken |
| UserUtils.ValidateEmailUnique | src/features/users/application/services/user-utils.service.ts:57-61 | throws "Email already exists" iff the email is taken |
| UserUtils.ValidateUsernameUnique | src/features/users/application/services/user-utils.service.ts:63-67 | throws "Username already exists" iff the username is taken |
| UserUtils.UniqueFieldsAgreeWithSingleChecks | src/features/users/application/services/user-utils.service.ts:42-67 | the combined check fails iff one single check fails, with the email's error first |
| UserUtils.CreatedUserTakesEmail | src/features/users/application/services/user-utils.service.ts:42-55 | once a user is stored, a second sign-up with the same fields is refused with the email's error |
| UserService.CreateAsWritten | src/features/users/application/services/user.service.ts:45-57 | as written: a taken field throws the helper's error, and a free pair throws reading `isValid` of undefined |
| UserService.CreateAsWrittenNeverCreates | src/features/users/application/services/user.service.ts:47-57 | as written, no sign-up ever succeeds, not even into an empty table |
| UserService.CreateRejection | src/features/users/application/services/user.service.ts:47-57 | corrected: refused iff a field is taken, naming the email before the username |
| UserService.Create | src/features/users/application/services/user.service.ts:45-69 | a refusal writes nothing; otherwise an active user with the password's hash is appended and returned as CREATED |
| UserService.SignUpTakesItsFields | src/features/users/application/services/user.service.ts:45-69 | after an accepted sign-up the same fields are refused, the email first |
| UserService.UpdateGateAsWritten | src/features/users/application/services/user.service.ts:80-100 | as written: the update goes ahead iff it changes neither the email nor the username |
| UserService.FreeEmailRefusedAsWritten | src/features/users/application/services/user.service.ts:80-89 | as written, a new email that nobody uses is refused as taken |
| UserService.UpdateGate | src/features/users/application/services/user.service.ts:80-100 | corrected: the update goes ahead iff no changed email or username is taken by another user; a taken email is reported, and otherwise a taken username |
| UserService.GatesAgreeWithoutChanges | src/features/users/application/services/user.service.ts:80-100 | both gates pass an update that changes neither field |
| UserService.UpdatePatch | src/features/users/application/services/user.service.ts:102-105 | the body's fields plus, for a truthy password, its hash; the recovery columns are untouched |
| UserService.Update | src/features/users/application/services/user.service.ts:71-117 | an unknown id gives NOT_FOUND and no write; a refused field gives BAD_REQUEST and no write; otherwise the row is patched and returned |
| UserService.TokenPatch | src/features/users/application/services/user.service.ts:146-150 | writes exactly the token and the expiry |
| UserService.ResetPatch | src/features/users/application/services/user.service.ts:174-179 | writes the new hash and clears both recovery columns, nothing else |
| UserService.SetRecoveryToken | src/features/users/application/services/user.service.ts:138-152 | an unknown id gives NOT_FOUND and stores nothing; otherwise the token is stored with expiry now + 24 hours and returned |
| UserService.ResetRefusal | src/features/users/application/services/user.service.ts:158-172 | a token is accepted iff its holder exists, has an expiry and the expiry is not before now; otherwise "Invalid or expired recovery token"; "Recovery token has expired" is the answer exactly when a holder exists whose expiry is before now |
| UserService.ResetPassword | src/features/users/application/services/user.service.ts:154-185 | a refusal gives BAD_REQUEST and no write; otherwise the holder's row gets `ResetPatch` and the reply is success |
| UserService.FreshTokenWorksForADay | src/features/users/application/services/user.service.ts:146-172 | a freshly stored token is accepted at every instant up to and including its expiry |
| UserService.TokenExpiresAfterADay | src/features/users/application/services/user.service.ts:146-172 | 1 ms after its expiry the token is refused as expired |
| UserService.ResetClearsToken | src/features/users/application/services/user.service.ts:174-179 | after a reset the holder's row has the new hash and no token or expiry |
| UserService.TokenIsSingleUse | src/features/users/application/services/user.service.ts:158-179 | once a reset succeeds, the same token is refused as invalid |
| DebtService.CreateRejection | src/features/debts/application/services/debt.service.ts:141-168 | the user is checked first (NOT_FOUND), then a truthy creditor (NOT_FOUND); the request passes iff both exist |
| DebtService.CreatedDebt | src/features/debts/application/services/debt.service.ts:170-178 | pending = original, not paid, a falsy creditor as null |
| DebtService.CreatedDebtIgnoresPendingAmount | src/features/debts/application/services/debt.service.ts:170-178 | the requested pending amount and `paid` have no effect on the created debt |
| DebtService.UpdatePatch | src/features/debts/application/services/debt.service.ts:205-213 | forwards exactly the defined fields among description, pending, due date and paid |
| DebtService.UpdateKeepsLockedFields | src/features/debts/application/services/debt.service.ts:205-213 | an update cannot change id, user, original amount or creditor |
| DebtService.PaymentTransaction | src/features/debts/application/services/debt.service.ts:281-288 | an EXPENSE of the paid amount in category DEBT_PAYMENT, described "Payment for debt: ..." and linked to the debt |
| DebtService.PaymentRowIsLinked | src/features/debts/application/services/debt.service.ts:281-288 | the stored payment row is dated now and keeps the debt link whenever the debt id is truthy |
| DebtService.PaymentCategoryIsNotListed | src/features/debts/application/services/debt.service.ts:285 | DEBT_PAYMENT is in neither category list, so the create schema would refuse such a transaction |
| DebtService.Create | src/features/debts/application/services/debt.service.ts:137-188 | a refusal writes nothing; otherwise the derived debt is stored under a fresh id and returned as CREATED |
| DebtService.Update | src/features/debts/application/services/debt.service.ts:189-228 | an unknown id gives NOT_FOUND with no write; otherwise the row is patched with the defined fields |
| DebtService.Delete | src/features/debts/application/services/debt.service.ts:230-254 | an unknown id gives NOT_FOUND with no write; otherwise exactly that row is removed |
| DebtService.PayDebt | src/features/debts/application/services/debt.service.ts:256-304 | an invalid payment gives BAD_REQUEST with no write. An accepted one appends exactly one payment transaction, then reduces that debt's pending amount by the same amount |
| BudgetService.CreateRejection | src/features/budgets/application/services/budget.service.ts:161-187 | the owner is checked first (NOT_FOUND), then a truthy shared user (BAD_REQUEST); the request passes iff both exist |
| BudgetService.CreatedBudget | src/features/budgets/application/services/budget.service.ts:189-196 | current amount defaults to 0, a falsy shared user becomes null, and the other fields are as given |
| BudgetService.CreatedBudgetStartsInBounds | src/features/budgets/application/services/budget.service.ts:189-196 | a valid body yields a positive limit and a non-negative current amount |
| BudgetService.UpdatePatch | src/features/budgets/application/services/budget.service.ts:245-254 | forwards exactly the defined fields, an explicit null shared user included |
| BudgetService.SharingRejection | src/features/budgets/application/services/budget.service.ts:224-243 | sharing is checked only for a present, non-null shared user, with the budget's owner as the caller |
| BudgetService.UnsharingIsAlwaysAllowed | src/features/budgets/application/services/budget.service.ts:224-254 | an explicit null shared user is never refused and clears the shared user |
| BudgetService.Create | src/features/budgets/application/services/budget.service.ts:158-206 | a refusal writes nothing; otherwise the built budget is stored under a fresh id and returned as CREATED |
| BudgetService.Update | src/features/budgets/application/services/budget.service.ts:208-269 | an unknown id gives NOT_FOUND; a refused sharing gives BAD_REQUEST; either way nothing is written. Otherwise the row is patched |
| BudgetService.Delete | src/features/budgets/application/services/budget.service.ts:271-295 | an unknown id gives NOT_FOUND with no write; otherwise exactly that row is removed |
| BudgetService.UpdateAmount | src/features/budgets/application/services/budget.service.ts:297-332 | a refused amount gives BAD_REQUEST and the repository is not called; an accepted one is added as given |
| GoalService.CreateRejection | src/features/goals/application/services/goal.service.ts:128-156 | the owner is checked first (NOT_FOUND), then a truthy shared user (BAD_REQUEST) |
| GoalService.CreatedGoal | src/features/goals/application/services/goal.service.ts:158-165 | current amount defaults to 0, a falsy shared user becomes null |
| GoalService.UpdatePatch | src/features/goals/application/services/goal.service.ts:215-225 | forwards exactly the defined fields, an explicit null shared user included |
| GoalService.SharingRejection | src/features/goals/application/services/goal.service.ts:193-213 | sharing is checked only for a present, non-null shared user; a refusal carries the sharing check's message |
| GoalService.UpdateSharingRule | src/features/goals/application/services/goal.service.ts:193-213 | sharing an existing goal with a target passes iff the target exists and is not the owner |
| GoalService.Create | src/features/goals/application/services/goal.service.ts:125-175 | a refusal writes nothing; otherwise the built goal is stored under a fresh id and returned as CREATED |
| GoalService.Update | src/features/goals/application/services/goal.service.ts:177-240 | an unknown id gives NOT_FOUND; a refused sharing gives BAD_REQUEST; either way nothing is written. Otherwise the row is patched |
| GoalService.Delete | src/features/goals/application/services/goal.service.ts:242-266 | an unknown id gives NOT_FOUND with no write; otherwise exactly that row is removed |
| GoalService.UpdateProgress | src/features/goals/application/services/goal.service.ts:268-303 | a refused progress gives BAD_REQUEST with the check's message and no write. An accepted one adds the same amount and leaves the goal within its target |
| FriendStore.FriendTable.FindByUserId | src/features/friends/application/services/friend.service.ts:85 | exactly the friendships on that user's side |
| FriendStore.FriendTable.FindById | src/features/friends/application/services/friend.service.ts:47 | the friendship with that id, or null when there is none |
| FriendStore.FriendTable.Create | src/features/friends/application/services/friend.service.ts:129-132 | stores exactly the user and the friend under a fresh id |
| FriendStore.FriendTable.Delete | src/features/friends/application/services/friend.service.ts:159 | true iff the friendship existed; exactly that row is removed |
| FriendService.GetById | src/features/friends/application/services/friend.service.ts:45-68 | NOT_FOUND iff no friendship has the id; otherwise OK with that row |
| FriendService.GetByUserId | src/features/friends/application/services/friend.service.ts:70-94 | NOT_FOUND iff the user is unknown; otherwise OK with exactly that user's friendships |
| FriendService.CreateRejection | src/features/friends/application/services/friend.service.ts:100-127 | the user is checked first (NOT_FOUND), then the friendship rules (BAD_REQUEST with their message or "Invalid friendship") |
| FriendService.UnknownUserWinsOverFriendship | src/features/friends/application/services/friend.service.ts:100-110 | for an unknown user the friendship rules make no difference |
| FriendService.Create | src/features/friends/application/services/friend.service.ts:96-142 | a refusal writes nothing; otherwise exactly the user and the friend are stored and returned as CREATED |
| FriendService.Delete | src/features/friends/application/services/friend.service.ts:144-168 | an unknown id gives NOT_FOUND with no write; otherwise exactly that row is removed |

## Left out

- DebtRepository.DebtTable.UpdatePendingAmount, BudgetRepository.BudgetTable.UpdateAmount, GoalRepository.GoalTable.UpdateProgress and every repository Create and Update: do not model the error Postgres raises when an amount exceeds `decimal(10,2)` (an absolute value of 10^8 or more). Amounts are unbounded integers of cents, so such a write succeeds in the model. The same holds for BudgetRepository.AmountMayExceedLimit, DebtRepository.Overpayment and DebtRepository.PaymentsCompose. Bounding every amount would change every write's contract for a case the handlers never check.
- The base insert schemas' column types are not modelled: drizzle-zod types a decimal column as a string and a date column as a date string. The model records only whether such a base-only column is present (`HasBaseColumns`); its value is never read.
- The list-all finders (`findAll`, `getAll`) and the plain get-by-id / list handlers of the budget, goal, debt and user services are not modelled. They only pass a repository result through an API adapter.
  - The budget service's `getByUserIdAndMonth` handler is plain too. It returns whatever the month query finds, which as written is nothing.
- `findByUserId` of the transaction repository is not modelled. It is the first condition of `findByFilters` on its own.
- The user service's `delete` handler and the friend repository's `findByFriendId`-style lookups are not modelled: they have no logic beyond the lookup.
- The user, friend and helper repositories and services (BudgetUtils, DebtUtils, FriendUtils) are not part of this model. Their verdicts are parameters, and user existence is a set of ids.
- `generateToken`, `hash` and `new Date()` are not modelled as computations. They are parameters: the token, a hash function and the current instant.
- Time zones are not modelled. Local time is UTC, so `setHours(getHours() + 24)` is exactly 24 hours. Across a daylight-saving change the source gives 23 or 25 hours.
- Floating point is not modelled. Amounts are exact cents, and `Number(...)`, `toString()` and `Number(row.total) || 0` are identities on them.
- Date formatting (`toISOString`, `new Date(text)`) and zod's `.date()` / `.datetime()` formats are not modelled. Dates in bodies are already instants.
- The `budgets.month` column has the SQL `date` type. The model keeps it as an instant (the midnight of that day).
- The `mapToEntity` helpers and the API adapters are not modelled: they are field renames.
- Controllers, routes, the database pool and app wiring are not modelled: they are framework I/O.
- `Promise.all` in `validateUniqueFields` is taken as two sequential reads. They read the same unchanged table, so the order does not matter.
- An `update` with no defined field: what the query builder does with an empty SET list is not part of this model. The model writes the row back unchanged.
- UserService.Update: the `console.log(updateData)` call is not modelled. It writes the update body, including a plaintext password when one is given, to the server log. Logging is output the model does not represent.
- The `try`/`catch` of `resetPassword` is not modelled. Its INTERNAL_SERVER_ERROR branch is unreachable, because the modelled repository calls do not throw.
- Concurrency between requests (two `payDebt` calls racing on one debt) is not modelled. Each handler runs alone.
- schema.ts disagrees with the repositories on some columns, for example `next_execution` against `next_execution_date`. The model follows the repository code.
- The recurrence feature has no engine in the code: only the due query exists, and it is modelled as is.
- UserStore.UserTable.Update: a store whose semantics are assumed (first matching id, all rows with that id patched). Its source is not part of this model.
- TransactionQuery.GroupByType: one grouping the database may return. FoldIsOrderFree covers every order of the groups.

## Findings

| source | as written | input that shows it | evidently intended | confidence | as-written member | corrected member |
|---|---|---|---|---|---|---|
| src/features/users/application/services/user.service.ts:80-100 | `validateEmailUnique` / `validateUsernameUnique` resolve with no value when the field is free, and `!isValid` reads that as a refusal | a user changes their email to one that nobody uses: the reply is BAD_REQUEST "The email is already taken" | refuse only a changed email or username that another user already has | high (not executed) | UserService.UpdateGateAsWritten, UserService.FreeEmailRefusedAsWritten | UserService.UpdateGate, UserService.Update |
| src/features/transactions/infrastructure/adapters/transaction.repository.ts:173-187 | the window ends at the midnight that begins the month's last day, so BETWEEN leaves out the rest of that day | an income dated 31 January 12:00 is left out of January's balance | all of the month's instants, up to the last millisecond of its last day | high (not executed) | Calendar.MonthMidnights, TransactionRepository.TransactionTable.MonthlyRowsAsWritten, TransactionRepository.TransactionTable.LastDayEscapesMonthlyBalance | Calendar.MonthSpan, TransactionRepository.TransactionTable.MonthlyRows, TransactionRepository.TransactionTable.GetMonthlyBalance |
| src/features/users/application/services/user.service.ts:47-57 | `validateUniqueFields` resolves with no value, so `validation.isValid` throws a TypeError even for free fields | the very first sign-up into an empty table throws instead of creating the user | refuse a taken email (then username) with "The <field> is already taken", otherwise create | high (not executed) | UserService.CreateAsWritten, UserService.CreateAsWrittenNeverCreates | UserService.CreateRejection, UserService.Create |
| src/features/budgets/infrastructure/adapters/budget.repository.ts:53-56 | the month must equal the first day AND the last day of the month at once | any table, any month: the query returns no budget | the budgets whose month lies within the requested month | medium (not executed) | BudgetRepository.BudgetTable.FindByUserIdAndMonth, BudgetRepository.BudgetTable.MonthQueryIsAlwaysEmpty | BudgetRepository.BudgetTable.FindByUserIdInMonth, BudgetRepository.BudgetTable.MonthStartBudgetIsFound |
