# Monthly reporting engine of a personal-finance app, in Dafny

The app records income and expense transactions per user and reports on them
month by month. This project models the logic behind those reports:

- **Write side.** The server checks and normalises a transaction request body
  (`validateTransactionPayload`): the guards run in a fixed order, and the sign
  of the amount follows the transaction type. It also turns a `YYYY-MM` key into
  the half-open window of that month (`getMonthRange`) and renders dates as
  `YYYY-MM-DD` (`toYMD`).
- **Server aggregation.** The `$match`/`$facet` pipeline of `getMonthlySummary`
  becomes three folds over the matched transactions: the totals, the groups by
  category (sorted by expense, descending) and the groups by day (sorted by key).
- **Per-user tables.** The transaction controller (`list`, `create`, `remove`)
  is a class over a sequence of rows. The budget controller (`getByMonth`,
  `save`) is a class over a map keyed by (user, month).
- **Client-side reporting.** In `dashboard.js`: the current month's totals and
  the ranked category spend, the remaining budget of the top category, the
  savings progress, reading rows from the page, and the add form. In
  `budget-goal.js`: the month-over-month trend rows (`sumByCategory`, top 4,
  `changePct`, `deltaBand`) and the spend guidance.
- **Form rules** in `main.js`: `emailValid`, `passwordValid`, `validAmount`, and
  the enable and error rules of the sign-up, login, reset, find-username and
  goal forms.
- **CSV linking script** (`linkCsvToDemoUser.js`), modelled in two parts:
  - the per-document normalisation: the `m/d/yy` date with its two-digit year,
    the month key, `absAmount`, `isLarge` and the field defaults;
  - the accumulate-and-flush loop that cuts the writes into batches.

Modelling choices:

- Money is `real`; dates are `(year, month, day)` triples.
- JavaScript values that can be missing or NaN have explicit datatypes:
  `RawNumber` and `JsNumber` in `JsValues`, and `IntPart` for `parseInt`.
- `new Date(y, monthIndex, 1)` carries a month index outside 0..11 into the
  year. The model writes this carry out with floor division by 12.
- Sorts are modelled as a stable insertion sort by a total preorder. The
  browser's `Array.prototype.sort` is stable (since ECMAScript 2019): elements
  with equal keys keep their input order, and the model states this for the
  browser's sorts (`Sorting.SortByStable`). The store's `$sort` does not fix the
  order of equal keys, so for the server only "sorted" and "a permutation of
  the input" are stated.
- JavaScript `Map`s and plain objects that accumulate per-category sums are
  association lists. An existing key keeps its place and a new key goes to the
  end, as insertion order does for string keys.

Where the code and its accompanying description differ, the model follows the
code:

- the server's `byCategory` groups by the raw category, with no `'Other'`
  default;
- `getMonthRange` raises no error for a malformed key: it yields Invalid Date
  bounds, which the model treats as a date condition that matches no document
  (`DateUtil.NoDate`).

## Model

| member | source | states |
|---|---|---|
| JsValues.RoundMonotone | dashboard.js:143 | `Math.round` never decreases as its argument grows |
| Strings.TrimEmpty | main.js:43-44 | `trim()` yields the empty string exactly when every character is JavaScript white space |
| Strings.JoinSplit | server/utils/date.js:6 | `split` loses nothing: joining the pieces with the separator restores the string |
| Strings.ParseNatToString | server/utils/date.js:6 | `Number` of the decimal rendering of a natural number is that number |
| Strings.StrLeTotal | server/services/summaryService.js:55 | the string order used by `$sort` on `_id` compares any two keys |
| Strings.StrLeTransitive | server/services/summaryService.js:55 | that order is transitive |
| Strings.StrLeAntisymmetric | server/services/summaryService.js:55 | two keys that each sort before the other are equal |
| Calendar.FirstOfMonth | server/utils/date.js:7-8 | `new Date(y, mi, 1)` is a valid first day whose month count `year*12 + month - 1` equals `y*12 + mi`, so an out-of-range index carries into the year |
| Calendar.FirstOfMonthUnique | server/utils/date.js:7-8 | that carried date is the only first day with that month count |
| Calendar.PadStart | dashboard.js:36 | `padStart(n, '0')` reaches length n (or keeps a longer string) and ends with the original string |
| Calendar.PadStart2IsPadStart | dashboard.js:36 | the two-digit padding used for months and days is `padStart(2, '0')` |
| Calendar.PaddedMonthValue | dashboard.js:36 | the zero-padded month of a key has two digits and reads back as the month |
| Calendar.MonthKeyParts | dashboard.js:36 | a month key splits on '-' into the year digits and the padded month |
| Calendar.MonthKeySameMonth | budget-goal.js:39 | two dates have the same month key exactly when they share year and month |
| Calendar.ToISOLength | dashboard.js:38 | `toISO` of a valid date with a four-digit year is ten characters with '-' at positions 4 and 7 |
| Sorting.SortBySorted | server/services/summaryService.js:45 | the sort yields a sequence ordered by the given total preorder |
| Sorting.SortBy | server/services/summaryService.js:45 | the sort yields a permutation of its input |
| Sorting.SortByMembers | server/services/summaryService.js:45 | an element is in the sorted sequence exactly when it is in the input |
| Sorting.InsertStable | dashboard.js:118 | inserting an element keeps, for every key, the order of the elements with that key, the new one going first among its equals |
| Sorting.SortByStable | dashboard.js:118 | the sort is stable: for every key, the elements with that key appear in the same order as in the input |
| Sorting.EquivClassPrefix | budget-goal.js:57 | a prefix holds, for every key, an initial part of the input's elements with that key, in order |
| Validators.ParseType | server/utils/validators.js:9-10 | the type names 'expense' and 'income', and only they, are accepted |
| Validators.NormalizeSign | server/utils/validators.js:14-16 | an expense amount ends non-positive and an income amount non-negative, the magnitude is kept, and an amount already of the right sign is unchanged |
| Validators.ValidateTransactionPayload | server/utils/validators.js:4-23 | the guards fire in order (date, amount, type, category), each with its message; a missing or falsy date is rejected but any truthy one passes, whether or not it parses; the body is valid exactly when all pass; a valid body passes date, type, category, payment method and note through and carries the sign-normalised amount |
| DateUtil.PartToNumber | server/utils/date.js:6 | a piece of the key is a number exactly when it is a run of digits |
| DateUtil.MonthRange | server/utils/date.js:7-8 | both bounds of a month window are valid first days of a month |
| DateUtil.GetMonthRange | server/utils/date.js:4-10 | a window is produced only when the key has at least two '-'-separated pieces |
| DateUtil.MonthFilter | server/services/summaryService.js:11-14 | an absent or empty month imposes no date condition; otherwise the condition is the key's window |
| DateUtil.MonthRangeBounds | server/utils/date.js:6-8 | for months 1..12 the window starts on day 1 of that month and ends on day 1 of the next, December rolling over into January of the next year |
| DateUtil.MonthRangeOrdered | server/utils/date.js:7-9 | the window is never empty: start precedes end for every year and month number |
| DateUtil.InMonthRange | server/utils/date.js:7-9 | a valid date lies in `[start, end)` exactly when its year and month are those of the key |
| DateUtil.GetMonthRangeOfKey | server/utils/date.js:4-10 | reading back a `YYYY-MM` key built by the browser gives that month's window |
| DateUtil.PadTwoDigits | server/utils/date.js:13 | for 0 <= n < 100, `pad(n)` is two digits that read back as n |
| DateUtil.ToYMDLength | server/utils/date.js:12-18 | `toYMD` of a valid date with a four-digit year is ten characters with '-' at positions 4 and 7 |
| DateUtil.ToYMDRoundTrip | server/utils/date.js:12-18 | `toYMD` is unambiguous: split on '-' it gives three digit runs that read back as year, month and day |
| DateUtil.ToYMDIsToISO | server/utils/date.js:12-18 | the server's `toYMD` and the browser's `toISO` agree on valid dates |
| Summary.Matching | server/services/summaryService.js:10-14 | a transaction is aggregated exactly when it belongs to the user and passes the month's date condition |
| Summary.MatchingConcat | server/services/summaryService.js:17 | `$match` works document by document: matching a concatenation is concatenating the matches |
| Summary.ComputeTotals | server/services/summaryService.js:20-36 | income is the sum of the positive amounts, expense the negated sum of the negative ones, both are non-negative, and net is income minus expense |
| Summary.ZeroAmountIgnored | server/services/summaryService.js:24-25 | a zero amount adds to neither income nor expense |
| Summary.AddToKeys | server/services/summaryService.js:39-44 | adding a document to the group accumulators opens a group only for a new key and keeps keys distinct |
| Summary.AddToSums | server/services/summaryService.js:41-42 | adding a document increases the groups' summed expense and income by that document's parts |
| Summary.AddToLookup | server/services/summaryService.js:41-42 | adding a document changes only its own group's sums |
| Summary.GroupByFacts | server/services/summaryService.js:39-44 | the groups have exactly the documents' keys, each once, and their sums add up to the totals |
| Summary.GroupByLookup | server/services/summaryService.js:39-44 | each group's expense and income are the sums over the documents with its key |
| Summary.EntryOfKey | server/services/summaryService.js:39-44 | with distinct keys, looking a key up gives its one group's sums |
| Summary.AbsentKey | server/services/summaryService.js:39-44 | a key without a group has zero sums |
| Summary.ExpenseDescPreorder | server/services/summaryService.js:45 | ordering by expense descending is a total preorder |
| Summary.KeyAscPreorder | server/services/summaryService.js:55 | ordering by key ascending is a total preorder |
| Summary.SortKeepsGroups | server/services/summaryService.js:45 | sorting keeps the groups' keys, their distinctness and their sums |
| Summary.SummaryConsistent | server/services/summaryService.js:9-67 | totals non-negative with net = income - expense; byCategory and byDay hold one group per distinct key of the matched documents, each summing its own documents, together adding up to the totals, sorted by expense descending and by day ascending respectively, as permutations of the groups |
| Summary.SummaryOfNothing | server/services/summaryService.js:61-66 | with no matching documents the summary is zero totals and empty groupings |
| Summary.SummaryIgnoresOtherUsers | server/services/summaryService.js:10 | another user's transaction does not change the summary |
| Summary.SummaryOfMonth | server/services/summaryService.js:11-14 | for a `YYYY-MM` key, exactly the user's transactions dated in that month are aggregated |
| TransactionsCtrl.Ids | server/controllers/transactionsCtrl.js:46 | the id set holds exactly the rows' ids |
| TransactionsCtrl.Select | server/controllers/transactionsCtrl.js:12-18 | a row is selected exactly when it is the requester's, in the month window when a month is given, and of the category when one is given; each selected row as often as the collection holds it |
| TransactionsCtrl.NewestFirstPreorder | server/controllers/transactionsCtrl.js:21 | ordering by date descending is a total preorder |
| TransactionsCtrl.CreateStoresNormalised | server/controllers/transactionsCtrl.js:30-38 | for a valid body whose date parses, the stored row has the requester's id, the body's parsed date, type and category, the type-signed amount of the body's magnitude, and the payment method and note or '' |
| TransactionsCtrl.AppendFreshId | server/controllers/transactionsCtrl.js:30 | inserting a row with a fresh id keeps ids distinct |
| TransactionsCtrl.DeleteOne | server/controllers/transactionsCtrl.js:46 | `deleteOne` removes one row matching id and owner when there is one, keeps every other row with its multiplicity, and changes nothing when none matches |
| TransactionsCtrl.DeleteOneRemovesMatch | server/controllers/transactionsCtrl.js:46 | with distinct ids, no row with that id and owner is left and the ids stay distinct |
| TransactionsCtrl.OthersRowsKept | server/controllers/transactionsCtrl.js:46 | another user's row survives a delete |
| TransactionsCtrl.TransactionStore.constructor | server/controllers/transactionsCtrl.js:6 | the table starts empty and valid |
| TransactionsCtrl.TransactionStore.List | server/controllers/transactionsCtrl.js:10-23 | the answer holds exactly the requester's rows passing the month and category conditions, each as often as the table holds it, newest first |
| TransactionsCtrl.TransactionStore.Create | server/controllers/transactionsCtrl.js:25-40 | an invalid body answers 400 with the validator's message and leaves the table unchanged; a valid body whose date does not parse stores nothing and gets no answer; any other valid body appends the normalised row and answers it; ids stay distinct and amounts signed by type |
| TransactionsCtrl.TransactionStore.Remove | server/controllers/transactionsCtrl.js:42-48 | a malformed id answers 400 and changes nothing; otherwise the owner-scoped `deleteOne` is applied and the answer is ok, whether or not a row matched |
| BudgetsCtrl.SavingTarget | server/controllers/budgetsCtrl.js:25 | `Number(target) \|\| 0`: a missing, null, zero or NaN target is 0, any other number is kept |
| BudgetsCtrl.Upsert | server/controllers/budgetsCtrl.js:23-27 | after the upsert the (user, month) key holds the new budget and every other key keeps its budget |
| BudgetsCtrl.UpsertKeyed | server/models/Budget.js:15 | the upsert keeps every budget stored under its own (user, month) |
| BudgetsCtrl.UpsertIdempotent | server/controllers/budgetsCtrl.js:23-27 | saving the same budget twice is the same as saving it once |
| BudgetsCtrl.UpsertCommutes | server/controllers/budgetsCtrl.js:23-27 | saves to different (user, month) keys do not interfere |
| BudgetsCtrl.FindBudget | server/controllers/budgetsCtrl.js:12 | `findOne` finds nothing exactly when no budget is stored for that user and month; otherwise it finds the one stored under that key, which is theirs |
| BudgetsCtrl.SaveThenFind | server/controllers/budgetsCtrl.js:12-27 | after a save, looking up that user and month gives the saved budget |
| BudgetsCtrl.BudgetStore.constructor | server/models/Budget.js:15 | the table starts empty and keyed |
| BudgetsCtrl.BudgetStore.GetByMonth | server/controllers/budgetsCtrl.js:8-17 | no month answers 400; otherwise the answer carries the month's summary and the budget stored for that user and month, null exactly when there is none |
| BudgetsCtrl.BudgetStore.Save | server/controllers/budgetsCtrl.js:19-29 | no month answers 400 and changes nothing; otherwise the budget with defaulted limits and target is upserted and answered, keeping one budget per (user, month) |
| Ledger.CategoryOrOther | dashboard.js:113 | `category \|\| 'Other'` is never empty, keeps a non-empty category and turns an empty one into 'Other' |
| Ledger.InMonth | dashboard.js:105 | an item is kept exactly when its month key equals the current key |
| Ledger.SumPositive | dashboard.js:107 | the income sum is non-negative |
| Ledger.SumNegative | dashboard.js:108 | the expense sum is non-positive |
| Ledger.CategorySpend | dashboard.js:111-116 | a category's spend is non-negative |
| Ledger.CategorySpendPositive | dashboard.js:111-116 | a category's spend is positive exactly when it has a spending item |
| Ledger.BumpFacts | dashboard.js:114 | `map.set(k, (map.get(k) \|\| 0) + a)` adds k to the keys, keeps them distinct, adds a to the total and to k's entry only |
| Ledger.CategoryEntriesFacts | dashboard.js:111-116 | the map holds exactly the spending categories, each once, each with its spend, and the totals add up to the negated expense sum |
| Ledger.DistinctPairwise | dashboard.js:111-116 | entries with distinct categories have pairwise different categories at every two positions |
| Ledger.DistinctCount | dashboard.js:117 | with distinct categories there are as many entries as categories |
| Ledger.EntriesAreSpends | dashboard.js:111-116 | every entry's total is its category's (positive) spend |
| Ledger.TotalDescPreorder | dashboard.js:118 | ordering by total descending is a total preorder |
| Ledger.SortKeepsEntries | dashboard.js:117-118 | sorting keeps the categories, their distinctness and the sum of totals |
| Ledger.EscapeHtml | dashboard.js:43-45 | the output has no raw `<`, `>`, `"` or `'`, and a string without special characters is unchanged |
| Ledger.UnescapeEscape | dashboard.js:43-45 | every character is replaced by an entity that decodes back to it, so unescaping restores the input |
| Ledger.EntityOfEscape | dashboard.js:44 | each special character's entity is recognised as exactly that character |
| Dashboard.SignedAmount | dashboard.js:89-92 | the sign comes from the negative markers alone and the magnitude from the parsed number |
| Dashboard.ParseDomItem | dashboard.js:60-95 | a missing description is '—', missing meta gives 'Other' and today, a missing amount is 0, a present one is signed by its markers |
| Dashboard.ParseItemsAt | dashboard.js:60-96 | row i is the parse of item i |
| Dashboard.ParseDomTransactions | dashboard.js:53-99 | no list gives no rows; otherwise one row per item, in order, each parsed from its item |
| Dashboard.ComputeForCurrentMonth | dashboard.js:102-122 | the month's items, their income (>= 0), expenses (<= 0) and net, and the category breakdown: one entry per spending category, each its spend, sorted descending with equal totals in the Map's insertion order, summing to the absolute expenses |
| Dashboard.CategoryEntriesStep | dashboard.js:111-116 | one `forEach` step bumps the item's category when it is a spend and otherwise changes nothing |
| Dashboard.RankedSpending | dashboard.js:111-119 | the sorted breakdown is ordered, a permutation of the map's entries with equal totals in first-seen order, one per spending category with its spend, summing to the negated expenses |
| Dashboard.TopCategory | dashboard.js:131 | the top category is never empty: '—' with no spending, otherwise the first entry's category |
| Dashboard.SpentTop | dashboard.js:136 | the spend of the top category, 0 with no spending |
| Dashboard.RemainingForTop | dashboard.js:134-140 | there is a remaining amount exactly when the top category has a budget; it is `max(budget - spent, 0)`, never negative, and unlimited for 'Income' |
| Dashboard.SavingsPct | dashboard.js:143 | the progress lies in 0..100, is 0 for a non-positive net and 100 once the goal is reached |
| Dashboard.SavingsPctMonotone | dashboard.js:143 | more net savings never lowers the progress |
| Dashboard.NewRecord | dashboard.js:213-219 | an income keeps the amount under 'Income'; anything else is `-amt` under the chosen category or 'Other'; the amount is positive exactly for income; a blank description becomes 'Income' or 'Expense' |
| Dashboard.AppendedRowEffect | dashboard.js:246-248 | the "not in this month" toast is right: a row outside the month leaves the month's items unchanged, and a row inside it is appended and reaches the income or expenses and its category's spend |
| Dashboard.DashboardState.Start | dashboard.js:253-262 | the rows read from the page when there are any, otherwise the mock rows |
| Dashboard.DashboardState.SubmitAdd | dashboard.js:200-249 | a missing date, NaN or non-positive amount leaves the rows unchanged with the error toast; otherwise exactly the new record is appended and the toast says whether it falls in the current month |
| BudgetGoal.NeedsGoal | budget-goal.js:5 | the page redirects exactly when the stored goal is not a positive number |
| BudgetGoal.PrevMonthKeyRolls | budget-goal.js:45 | the previous month's key is the month before, January rolling back to December of the year before |
| BudgetGoal.SumByCategory | budget-goal.js:95-104 | only spending counts, under the category or 'Other'; one entry per spending category, each its positive spend |
| BudgetGoal.TotalSpent | budget-goal.js:50 | the month's spend is the absolute sum of negative amounts, never negative |
| BudgetGoal.TotalSpentByCategory | budget-goal.js:50-51 | the month's spend equals the sum of the per-category totals |
| BudgetGoal.Top4 | budget-goal.js:54-57 | at most four rows, four when there are at least four categories |
| BudgetGoal.Top4Facts | budget-goal.js:54-57 | the top rows are sorted by total and are some of the entries, each at most as often as it occurs (distinct categories stay distinct); no category left out has a larger total than the last row; among equal totals the rows kept are the first ones in the object's order |
| BudgetGoal.ChangePct | budget-goal.js:105-109 | a zero previous month gives 100 for growth and 0 for none; otherwise the change is positive exactly when spend grew and zero exactly when it stayed, and never below -100 for non-negative spend |
| BudgetGoal.DeltaBand | budget-goal.js:110-115 | 'good' up to -5, 'ok' up to 10, 'warn' up to 40, 'bad' above, each band exactly its interval |
| BudgetGoal.DeltaBandMonotone | budget-goal.js:110-115 | a larger change never gives a better band |
| BudgetGoal.BarFill | budget-goal.js:82 | the bar width lies in 0..100 and is the absolute change below 100 |
| BudgetGoal.DeltaLabel | budget-goal.js:89 | the label ends in '%' and starts with '+' exactly for a positive change |
| BudgetGoal.GuidanceFor | budget-goal.js:70-78 | "spend less" exactly when over the goal, by the excess; "under your goal" exactly when below, by the gap; otherwise "on your goal" |
| BudgetGoal.RowOf | budget-goal.js:59-64 | a row keeps its category and total; its previous spend is last month's entry for the category, or 0 when the category is absent; the change and band follow |
| BudgetGoal.TopRows | budget-goal.js:54-64 | one row per selected category: four, or all of them when there are fewer |
| BudgetGoal.TopRowsTotals | budget-goal.js:54-64 | each row is a spending category this month with its spend, last month's spend as previous, and the change and band of the two |
| BudgetGoal.TopRowsShape | budget-goal.js:54-57 | there are min(4, number of spending categories) rows; row i is the row built for the i-th top entry against last month's breakdown; they are ordered by total descending and their categories are pairwise different |
| BudgetGoal.RowForSelected | budget-goal.js:59 | every selected category gets a row |
| BudgetGoal.TopRowsComplete | budget-goal.js:54-57 | a spending category without a row spent no more than the last row's total |
| BudgetGoal.BuildReport | budget-goal.js:39-64 | the month's spend and its guidance, and the trend rows from this month's and last month's breakdowns |
| AuthForms.EmailValidIffShape | main.js:2 | the email check accepts exactly `local@domain.tld`-shaped text: three non-empty runs without white space or '@' |
| AuthForms.EmailValidHasShape | main.js:2 | an accepted email has that shape |
| AuthForms.ShapeIsEmailValid | main.js:2 | every text of that shape is accepted |
| AuthForms.EmailValidOneAt | main.js:2 | an accepted email has exactly one '@' and no white space |
| AuthForms.HasDigit | main.js:3 | `/\d/` finds a decimal digit exactly when there is one |
| AuthForms.SignupDisabled | main.js:41-50 | the sign-up button is enabled exactly when both names are non-blank, the trimmed email and the password are valid, the confirmation matches and the terms are accepted |
| AuthForms.SignupEnabledMeans | main.js:41-50 | an enabled button means one '@' in a well-shaped email, a password of 8+ characters with a digit, and a matching confirmation |
| AuthForms.EmailError | main.js:55-58 | the email error shows exactly for a non-empty, invalid field value |
| AuthForms.PasswordErrors | main.js:60-68 | the password error shows exactly for a non-empty invalid password, the confirm error exactly for a non-empty mismatching confirmation |
| AuthForms.ConfirmError | main.js:70-73 | the confirm error shows exactly for a non-empty mismatching confirmation |
| AuthForms.ConfirmHandlersAgree | main.js:62-73 | the password handler and the confirm handler set the same confirm error |
| AuthForms.LoginDisabled | main.js:95-97 | the login button is disabled exactly when the trimmed user name or the password is empty |
| AuthForms.LoginBlankUser | main.js:96 | a user name of only white space keeps the button disabled |
| AuthForms.ResetState | main.js:123-127 | the reset button is disabled exactly for an invalid trimmed email, and the error shows exactly for a non-empty invalid one |
| AuthForms.FindState | main.js:147-151 | the find button is enabled exactly for two non-blank names and a valid trimmed email; the error as for reset |
| AuthForms.ErrorMeansDisabled | main.js:123-151 | an error shown on the reset or find form always comes with a disabled button |
| AuthForms.GoalState | main.js:172-180 | the goal button is disabled exactly for a NaN or non-positive amount; an error shows only for non-empty text and always with a disabled button |
| AuthForms.SignupEmailErrorDisagrees | main.js:45-56 | for the email " a@b.co" the field shows an error while the button is enabled |
| AuthForms.SignupEmailError | main.js:56 | the email error, taken on the trimmed value as the button does, shows exactly for a non-empty value whose trimmed form is invalid |
| AuthForms.SignupEmailErrorAgrees | main.js:45-56 | with that error, an email error always comes with a disabled button |
| CsvLink.DecimalPrefix | server/seed/linkCsvToDemoUser.js:75 | the longest leading run of decimal digits |
| CsvLink.HexPrefix | server/seed/linkCsvToDemoUser.js:75 | the longest leading run of hex digits |
| CsvLink.ParseUnsigned | server/seed/linkCsvToDemoUser.js:75 | `parseInt` after the sign never yields a negative number |
| CsvLink.ParseIntOfInt | server/seed/linkCsvToDemoUser.js:75 | `parseInt` of an integer's decimal rendering is that integer |
| CsvLink.ParseRawDate | server/seed/linkCsvToDemoUser.js:70-79 | a missing or empty raw date leaves both date and month null, and only then |
| CsvLink.ParseDecimalDate | server/seed/linkCsvToDemoUser.js:73-79 | for `m/d/y` with 1 <= m <= 12, the date is day d of month m of the full year (2000 + y below 100, y otherwise) and the month is that year and the padded month |
| CsvLink.DecimalPieces | server/seed/linkCsvToDemoUser.js:75 | splitting `m/d/y` on '/' and `parseInt` give back m, d and y |
| CsvLink.LinkedMonthMatchesDate | server/seed/linkCsvToDemoUser.js:76-78 | the stored month key reads back, through the server's month window, as the window that holds the stored date |
| CsvLink.NormalizeFields | server/seed/linkCsvToDemoUser.js:82-97 | the demo user's id; date and month null exactly for a missing raw date; the amount keeps its sign and `absAmount` is its magnitude; `isLarge` exactly when the magnitude reaches the threshold; missing category, note, payment and day of week become '' |
| CsvLink.LargeBySize | server/seed/linkCsvToDemoUser.js:92 | with the default threshold, a document is large exactly when its amount is at least 1000 in magnitude |
| CsvLink.OpsOf | server/seed/linkCsvToDemoUser.js:66-119 | one write per source document |
| CsvLink.OpsOfAt | server/seed/linkCsvToDemoUser.js:99-118 | write i is the insert or the field update for document i, by mode |
| CsvLink.BatchSize | server/seed/linkCsvToDemoUser.js:64 | `parseInt(BATCH_SIZE) \|\| 1000` is never 0 |
| CsvLink.FlattenAppend | server/seed/linkCsvToDemoUser.js:102-127 | flushing one more batch appends its writes to what was written |
| CsvLink.BatchingUnique | server/seed/linkCsvToDemoUser.js:99-129 | the writes and the size determine the batches: two batchings of the same writes with full non-final batches are equal |
| CsvLink.FinalFlush | server/seed/linkCsvToDemoUser.js:121-129 | flushing a non-empty remainder completes a batching of all the writes |
| CsvLink.Push | server/seed/linkCsvToDemoUser.js:99-118 | one loop step appends the write, flushes exactly full batches, and keeps the pending batch below the size |
| CsvLink.LinkBatches | server/seed/linkCsvToDemoUser.js:64-129 | the flushed batches concatenate to the writes of all documents in order, every non-final batch holds exactly the flush size, and none is empty |
| CsvLink.FindUser | server/seed/linkCsvToDemoUser.js:38 | the found user has the demo email; nothing is found exactly when no user has it |
| CsvLink.LinkCsvToDemoUser | server/seed/linkCsvToDemoUser.js:38-129 | the script fails with "Demo user with email … not found." exactly when no user has the email; otherwise it clears first exactly in copy mode with `CLEAR_BEFORE` "true", and writes all documents, normalised for the found user, in full batches |

## Left out

- Browser and server I/O are not modelled: the DOM, Chart.js, `localStorage`, toasts and `setTimeout`, page redirects, Express requests and responses, and the connection code. Values read from them are parameters: the page's list items, the current date, the stored goal, the request body and the fresh document id.
- `Intl.NumberFormat` currency formatting (`fmt`) and `formatDateShort` are locale-dependent library calls and are not modelled.
- `parseFloat` of the amount text and `new Date("Aug 9 2025")` in `parseDomTransactions` are given already parsed: the cell's number and a date-parsing function are parameters. Only the sign rule and the field defaults are modelled.
- The case-insensitive regular-expression `search` filter of `list` (server/controllers/transactionsCtrl.js:19) is not modelled: it is the semantics of a foreign regex engine.
- The authentication stack (controllers, middleware, JWT and bcrypt calls) and the plain insert seed scripts are not part of this model.
- `await`, the cursor, and the collection effects of `insertMany`, `bulkWrite` and `deleteMany` are not modelled. The linking script is modelled up to the batches it writes and whether it clears first; `ordered: false` error handling is left out.
- IEEE-754 arithmetic (rounding of sums, Infinity, NaN beyond the explicit checks) is replaced by exact reals. JavaScript `Date`'s local time zone and time of day are replaced by calendar triples.
- `Number(part)` in `getMonthRange` is modelled for empty strings and runs of ASCII digits; signs, decimals, exponents and surrounding white space are read as NaN.
- DateUtil.GetMonthRange: a key whose pieces are not numbers gives no window, and the query then matches nothing; the original passes Invalid Date bounds to the store.
- Calendar.FirstOfMonth: `new Date` maps years 0..99 to 1900..1999; the model keeps the year as given.
- CsvLink.ParseRawDate: a day outside the month is kept as given (`DayOf`) instead of carried into the next month, and a raw date that is not a string is not modelled.
- CsvLink.ParseInt: digits are read as exact integers; the precision loss of very long digit runs is not modelled.
- The CSV field names and the script's environment settings are given already resolved; an undefined `DEMO_EMAIL` is not modelled.
- `mongoose.isValidObjectId` is modelled as "24 hex digits or any 12 characters"; `createFromHexString` on a malformed user id (server/services/summaryService.js:10) is not modelled.
- The mock rows that `init` falls back to are a parameter; their contents are not modelled.
- `passwordValid` counts characters, not UTF-16 code units.
- Dashboard.RemainingForTop: the `Infinity` budget of 'Income' is a separate "unlimited" result rather than a number.
- Object keys that look like array indices are enumerated first by `Object.entries`; the model keeps insertion order for every key.
- Dashboard.RemainingForTop: `CATEGORY_BUDGETS[topCategory]` (dashboard.js:133) is a plain-object lookup; a category named like an `Object.prototype` member ("constructor", "toString") finds that inherited function instead of no budget. The model looks the category up in a map of the own budgets only.
- BudgetGoal.SumByCategory: the accumulator is a plain object `{}` (budget-goal.js:96); a category "__proto__" sets the object's prototype instead of a key, and one named like an inherited member ("constructor") starts from that member rather than 0. The model treats every category as an ordinary key.
- BudgetGoal.RowOf: `byCatLast[r.category] || 0` (budget-goal.js:60) reads inherited members for those same names; the model reads only last month's own entries.
- TransactionsCtrl.TransactionStore.Remove: `deleteOne({ _id: id, ... })` casts the id to an ObjectId, so the 24-digit hex spellings of one id in upper and lower case delete the same row; the model compares the id as a string, and a 12-character id is not converted to its hex form either.
- CsvLink.NormalizeFields: the category, note, payment and day-of-week fields are strings in the model; a CSV parser that yields numbers would keep a non-zero number as is and turn 0 into "" (linkCsvToDemoUser.js:93-96), which is not modelled.

## Findings

| source | as written | input that shows it | evidently intended | confidence | as-written member | corrected member |
|---|---|---|---|---|---|---|
| main.js:56 | the sign-up email error checks the raw field value, while the button (main.js:45) checks the trimmed value | the email " a@b.co" with valid names, password, confirmation and terms: the error "Please enter a valid email." shows while the button is enabled | the error follows the same trimmed value as the button, so an error always comes with a disabled button | not executed; medium | AuthForms.EmailError, AuthForms.SignupEmailErrorDisagrees | AuthForms.SignupEmailError, AuthForms.SignupEmailErrorAgrees |
