# BudgetWise core in Dafny

This project models the two computational pieces of the BudgetWise personal-finance app.

The **CSV statement importer** is `client/src/lib/csv-parser.ts`:
- it guesses the bank from the first line of a statement;
- it picks that bank's column names;
- it splits the text into rows keyed by header name;
- it turns each row into a transaction draft. The amount is unsigned and the income flag comes from its sign. A three-part date is read as month/day/year.

The **in-memory store** is `MemStorage` in `server/storage.ts`:
- eight tables (users, user settings, categories, transactions, budgets, goals, reminders, CSV settings), each with its own id counter;
- create, merge-update and delete on each table;
- per-user listings, and the filtered, newest-first transaction query;
- the keyword categoriser used when importing transactions;
- the dashboard rollups: balance, month-to-date sums, the monthly trend series and per-category spending shares;
- the rounded progress percentage of budgets and goals.

Modules:
- `Common` (common.dfy): Option/Result, and the JavaScript string operations the source relies on, written out: `toLowerCase`, `trim`, `split`, `includes`. Also calendar dates.
- `CsvParser` (csv_parser.dfy): the importer, all pure functions.
- `Records` (records.dfy): the stored records and the `{ ...existing, ...patch }` merge.
- `Queries` (queries.dfy): listing a JavaScript `Map` in insertion order, filters, the stable newest-first sort, and category enrichment.
- `Categorizer` (categorizer.dfy): the keyword table and the category an imported row gets.
- `Dashboard` (dashboard.dfy): sums, month windows, the trend series, spending shares, exact `Math.round` of a percentage.
- `MemStore` (mem_storage.dfy): the `MemStorage` class.
  - Its `map` fields and counters are updated in place by `modifies` methods.
  - The loops of import, category seeding, user creation and the dashboard are `while` loops, proved against the functions above.

Modelling conventions:
- Amounts are integer cents.
- Dates are `(year, month, day)` triples.
- The clock is a parameter: `today` for the calendar date, `now` for instants in milliseconds.
- The host's number and date parsers are parameters: `parse` stands for `parseFloat` and `parseDate` for `new Date(text)`. Each returns `None` for NaN or an invalid date.
- A thrown `Error` is an `Err` result carrying the same message.

## Model

| member | source | states |
|---|---|---|
| CsvParser.DetectCsvFormat | client/src/lib/csv-parser.ts:115-127 | on the lower-cased first line: chase exactly when "chase" or "post date" occurs; bank_of_america exactly when neither does and "bank of america" or "boa" does; wells_fargo exactly when none of those does and "wells fargo" or "wells" does; generic exactly when none of the six occurs |
| CsvParser.FormatOfLine | client/src/lib/csv-parser.ts:118-126 | the chained substring tests, each outcome stated as an if-and-only-if over where the words occur: the Chase test wins over Bank of America, which wins over Wells Fargo, and generic is left when none fires |
| CsvParser.FirstLineOf | client/src/lib/csv-parser.ts:116 | the first line is exactly the text before the first line break (or all of it when there is none) |
| CsvParser.DetectLooksAtFirstLineOnly | client/src/lib/csv-parser.ts:116 | whatever follows the first line break never changes the guess |
| CsvParser.FirstLineLower | client/src/lib/csv-parser.ts:116 | lower-casing the text and taking its first line commute |
| CsvParser.DetectIgnoresCase | client/src/lib/csv-parser.ts:116-126 | lower-casing the whole text first gives the same guess, so letter case never matters |
| CsvParser.ChaseWins | client/src/lib/csv-parser.ts:118-119 | a first line containing "chase" is classified chase, whatever other bank it also names (Chase is tested first) |
| CsvParser.GetBankColumnMap | client/src/lib/csv-parser.ts:130-153 | every map names non-empty date, description and amount columns; only the default map (for "generic" and any unknown name) has a category column; every other map's amount column is "Amount" |
| CsvParser.NonBlankKeeps | client/src/lib/csv-parser.ts:34 | the blank-line filter keeps exactly the lines whose trim is not empty |
| CsvParser.SplitCells | client/src/lib/csv-parser.ts:52 | one cell per comma-separated piece, each the trimmed piece |
| CsvParser.FindIndex | client/src/lib/csv-parser.ts:41-48 | -1 or the index of the first header equal to the name ignoring case; no earlier header matches, and none at all on -1 |
| CsvParser.RowsFromShift | client/src/lib/csv-parser.ts:51-72 | data row k is built from data line k |
| CsvParser.RowsOfShape | client/src/lib/csv-parser.ts:37-51 | with the non-blank lines in hand: one row per line less the skipped header, row k from line k (+1 when skipping), header from the first line |
| CsvParser.ParseCsvRows | client/src/lib/csv-parser.ts:34-51 | for text with a non-blank line, parsing succeeds with one row per non-blank line, less one when the header is skipped; row k is built from non-blank line k (k + 1 when skipping); the header is always the first non-blank line |
| CsvParser.AllLinesBlankIff | client/src/lib/csv-parser.ts:34 | every line of a text is blank exactly when the whole text is whitespace |
| CsvParser.ParseCsvFailsIff | client/src/lib/csv-parser.ts:34-40 | parsing fails (no header line to split) exactly when the text is all whitespace |
| CsvParser.AddExtrasKeys | client/src/lib/csv-parser.ts:65-69 | the extra-column pass adds exactly the headers of the columns that are not date, description, amount or category |
| CsvParser.AddExtrasKeeps | client/src/lib/csv-parser.ts:65-69 | keys the pass does not write keep their earlier value |
| CsvParser.AddExtrasLastAt | client/src/lib/csv-parser.ts:65-69 | the last extra column under a given header leaves its cell under that header |
| CsvParser.AddExtrasLast | client/src/lib/csv-parser.ts:65-69 | for every header, the value left is the cell of the last extra column carrying it |
| CsvParser.AddExtrasSpec | client/src/lib/csv-parser.ts:65-69 | the pass's key set, the values it keeps and the values it writes, together |
| CsvParser.RowOfFields | client/src/lib/csv-parser.ts:52-69 | a row's date, description and amount are the trimmed cells at the found columns (undefined when not found); "category" is present exactly when its column was found and its cell is non-empty; every other column is copied under its header |
| CsvParser.StripCurrency | client/src/lib/csv-parser.ts:79 | no "$" or "," is left, and the text gets no longer |
| CsvParser.StripCurrencyConcat | client/src/lib/csv-parser.ts:79 | stripping drops a lone "$" or "," and keeps any other character, and distributes over concatenation, so every other character is kept in order |
| CsvParser.StripCurrencyKeepsClean | client/src/lib/csv-parser.ts:79 | text without "$" or "," is unchanged |
| CsvParser.LeadingDigits | client/src/lib/csv-parser.ts:91-93 | the longest digit prefix that parseInt reads |
| CsvParser.ParseIntNumeral | client/src/lib/csv-parser.ts:91-93 | parseInt reads back the numeral of any natural number, whatever non-digit text follows |
| CsvParser.NumeralReads | client/src/lib/csv-parser.ts:86-93 | a numeral holds no date separator and parses to its value |
| CsvParser.SplitThree | client/src/lib/csv-parser.ts:86 | three separator-free parts joined by any two of "/", "-", "." split back into those parts |
| CsvParser.ThreePartsRead | client/src/lib/csv-parser.ts:86-94 | any date text with exactly three parts that all parse is read as month/day/year, ISO-looking text included |
| CsvParser.ReadsMonthDayYear | client/src/lib/csv-parser.ts:86-94 | numeric month, day and year joined by any separators are read in that order, with years 0-99 meaning 1900-1999 |
| CsvParser.CsvRowsToTransactions | client/src/lib/csv-parser.ts:76-111 | it succeeds exactly when every row has an amount and a date. On success there is one draft per row, in order: the description is kept, the amount is the magnitude of the parsed, stripped amount and never negative, income holds exactly when the parsed amount is > 0, and the date is the row's date as read |
| Common.ToLower | client/src/lib/csv-parser.ts:42 | the length is kept and each character is folded on its own |
| Common.ToLowerIdempotent | client/src/lib/csv-parser.ts:116 | folding twice is folding once |
| Common.Trim | client/src/lib/csv-parser.ts:40 | the result has whitespace at neither end |
| Common.TrimInfix | client/src/lib/csv-parser.ts:40 | the trimmed text is a contiguous piece of the original |
| Common.TrimEmptyIff | client/src/lib/csv-parser.ts:34 | a line trims to "" exactly when it is all whitespace |
| Common.SplitCount | client/src/lib/csv-parser.ts:34 | split yields one piece more than there are separators |
| Common.SplitPiecesFree | client/src/lib/csv-parser.ts:86 | no piece of a split contains a separator |
| Common.JoinSplit | client/src/lib/csv-parser.ts:34 | joining the pieces with the separator gives back the text |
| Common.ContainsIff | client/src/lib/csv-parser.ts:118 | the includes scan holds exactly when the substring occurs at some index |
| Common.DateLeTotalOrder | server/storage.ts:269 | the date order the sort uses is total, antisymmetric and transitive |
| Records.Category.Patched | server/storage.ts:229 | merging a patch keeps the record's id |
| Records.Transaction.Patched | server/storage.ts:308 | merging a patch keeps the record's id |
| Records.Budget.Patched | server/storage.ts:421 | merging a patch keeps the record's id |
| Records.Goal.Patched | server/storage.ts:454 | merging a patch keeps the record's id |
| Records.Reminder.Patched | server/storage.ts:499 | merging a patch keeps the record's id |
| Records.User.Patched | server/storage.ts:565 | merging a patch keeps the user's id |
| Records.UserSettings.Patched | server/storage.ts:548-552 | merging keeps the record's id and owner |
| Records.CsvSetting.Patched | server/storage.ts:753 | merging keeps the record's id and owner |
| Records.TransactionPatchLaws | server/storage.ts:308 | merging the same patch twice changes nothing more, and an empty patch changes nothing |
| Records.SystemCategory | server/storage.ts:146-153 | a seeded category has the given id and no owner |
| Records.StartCategories | server/storage.ts:130-155 | the fresh store's categories are the ten seeds, in order, with ids 1 to 10 |
| Records.StartCategoriesShape | server/storage.ts:131-142 | ten ownerless categories with ids 1-10, of which only the first, "Income", is an income category |
| Queries.Ordered | server/storage.ts:207 | a table is listed with at most `bound` entries |
| Queries.OrderedAgree | server/storage.ts:207 | tables that agree below the bound list the same values |
| Queries.OrderedAppend | server/storage.ts:216-221 | a record stored under the counter's value is listed after every earlier record (Map insertion order) |
| Queries.OrderedMembers | server/storage.ts:207 | the listing holds exactly the values stored under keys below the bound |
| Queries.OrderedValues | server/storage.ts:207 | when every key is below the counter, the listing holds exactly the table's values |
| Queries.Where | server/storage.ts:207-209 | the filter keeps exactly the elements satisfying the predicate |
| Queries.WhereConcat | server/storage.ts:245-266 | filtering distributes over concatenation, so the chained filters keep the order |
| Queries.WhereAgree | server/storage.ts:721-722 | filters that agree on every element give the same result |
| Queries.FirstWhere | server/storage.ts:342 | the index find stops at: it satisfies the predicate and no earlier element does, or it is -1 and none does |
| Queries.Find | server/storage.ts:164-166 | None exactly when no element satisfies the predicate; otherwise the element at the first index that does |
| Queries.FindConcat | server/storage.ts:164-166 | find in a concatenation looks in the second part only when the first has no match |
| Queries.FindOrdered | server/storage.ts:164-166 | find over a table's insertion-order listing returns the value under the smallest matching key |
| Queries.CategoriesOf | server/storage.ts:206-210 | exactly the categories owned by the user or by nobody |
| Queries.BudgetsOf | server/storage.ts:378-402 | exactly the user's budgets (the spending the source computes is discarded) |
| Queries.GoalsOf | server/storage.ts:431-435 | exactly the user's goals |
| Queries.RemindersOf | server/storage.ts:464-468 | exactly the user's reminders |
| Queries.UpcomingReminders | server/storage.ts:470-480 | exactly the user's reminders due between now and now + days, inclusive; none for a negative window |
| Queries.FilterTransactions | server/storage.ts:245-266 | exactly the user's transactions within both inclusive date bounds, in the category (0 or absent: any) and containing the search text ignoring case |
| Queries.InsertByDate | server/storage.ts:269 | inserting adds one element |
| Queries.SortNewestFirst | server/storage.ts:269 | sorting keeps the length |
| Queries.InsertByDatePermutes | server/storage.ts:269 | insertion adds the element and keeps the rest (multiset) |
| Queries.SortNewestFirstPermutes | server/storage.ts:269 | the sort is a permutation |
| Queries.InsertByDateSorted | server/storage.ts:269 | insertion keeps a newest-first sequence sorted |
| Queries.SortNewestFirstSorted | server/storage.ts:269 | the result is ordered newest first |
| Queries.InsertByDateStable | server/storage.ts:269 | insertion puts the element after those of its day |
| Queries.SortNewestFirstStable | server/storage.ts:269 | transactions of the same day keep their relative order (a stable sort) |
| Queries.ConsNewestFirst | server/storage.ts:269 | prefixing an element at least as new as all others keeps the order |
| Queries.Describe | server/storage.ts:272-283 | the transaction is kept; name, color and icon are its category's exactly when it has a truthy category id that exists, and all absent otherwise |
| Queries.QueryTransactions | server/storage.ts:239-284 | the listing is newest first, a permutation of the filtered transactions, each enriched with its category |
| Queries.QueryTransactionsExact | server/storage.ts:245-266 | a transaction is listed exactly when it is one of the user's and passes every supplied filter |
| Queries.SliceEnd | server/storage.ts:288 | the end index of slice(0, limit), with a negative limit counting from the end |
| Queries.RecentTransactions | server/storage.ts:286-289 | a prefix of the unfiltered listing of n entries: min(limit, n) long for a non-negative limit, and n + limit long (0 when that is negative) for a negative limit, which drops entries from the end as slice(0, limit) does |
| Categorizer.NamedCategory | server/storage.ts:348-350 | the category at the first position whose name equals the entry's ignoring case (so a system category listed before a user's copy of it wins), or None when no category's does |
| Categorizer.KeywordCategory | server/storage.ts:346-356 | None exactly when no table entry both has a keyword in the description and names an existing category; otherwise the category of the first such entry |
| Categorizer.CategoryForCases | server/storage.ts:322-357 | no category for a missing or empty description; for income, the first visible income category (None when there is none); otherwise the keyword match on the lower-cased description |
| Categorizer.AssignCategory | server/storage.ts:322-357 | the loop body computes exactly the category `CategoryFor` specifies |
| Categorizer.MatchKeywords | server/storage.ts:346-356 | the loop with its break returns exactly the keyword match |
| Categorizer.FirstApplicable | server/storage.ts:346-356 | the first entry that applies decides the category |
| Categorizer.EarlierEntryDecides | server/storage.ts:346-356 | for any categories and table, once an entry applies the lookup settles on it or on an earlier applicable entry, never a later one |
| Categorizer.LongerNeverContained | server/storage.ts:347 | a keyword longer than the description never matches |
| Categorizer.GasMentions | server/storage.ts:330-332 | "gas" mentions no keyword of groceries or dining, and one of transportation |
| Categorizer.TransportationNamed | server/storage.ts:135 | in a fresh store, "transportation" names the fourth category |
| Categorizer.GasApplies | server/storage.ts:332 | the transportation entry applies to "gas" in a fresh store |
| Categorizer.GasNotEarlier | server/storage.ts:330-331 | no earlier entry applies to "gas" |
| Categorizer.GasKeyword | server/storage.ts:329-356 | "gas" is matched to category 4, Transportation |
| Categorizer.GasIsTransportation | server/storage.ts:332-333 | an expense described "Gas" goes to Transportation (id 4), not Utilities, because of table order |
| Dashboard.IncomeExpenseSplit | server/storage.ts:594-600 | income plus expenses is the sum of all amounts |
| Dashboard.SumsNonNegative | server/storage.ts:614-620 | with no negative amount, no sum is negative |
| Dashboard.SumByKind | server/storage.ts:614-620 | the summing loop yields exactly the income and the expense sums |
| Dashboard.MonthStart | server/storage.ts:604 | the first day of today's month |
| Dashboard.SinceMonthStart | server/storage.ts:607-609 | exactly the transactions dated on or after the first of the month, future-dated ones included |
| Dashboard.MonthsAgo | server/storage.ts:644 | the first day of a real month (1-12) |
| Dashboard.MonthsAgoNumber | server/storage.ts:644 | going i months back moves back exactly i calendar months, across year boundaries |
| Dashboard.InMonthIff | server/storage.ts:645-651 | for a real date, the window [first of month, last day] is exactly "same year and month" |
| Dashboard.MonthTransactions | server/storage.ts:648-651 | exactly the transactions inside the month window |
| Dashboard.TrendSeries | server/storage.ts:643-669 | `months` points, oldest first, point j summing the month `months - 1 - j` back |
| Dashboard.TrendSeriesPrepend | server/storage.ts:664-668 | unshifting the point for month n back extends the series of n months to n + 1 |
| Dashboard.TrendMonthsConsecutive | server/storage.ts:643-669 | consecutive trend points are consecutive months and the last is the current month |
| Dashboard.RoundPercent | server/storage.ts:725 | p is the integer nearest 100 * part / whole, halves rounded up (Math.round) |
| Dashboard.RoundPercentRange | server/storage.ts:725 | a part within its positive whole rounds to a percentage in [0, 100] |
| Dashboard.ExpenseCategories | server/storage.ts:680-681 | exactly the non-income categories |
| Dashboard.SpentCategories | server/storage.ts:721-722 | exactly the shown categories with some expense filed under them |
| Dashboard.FiledSlices | server/storage.ts:721-727 | one slice per category with spending, carrying its name, its color and round(100 * category total / total) |
| Dashboard.CategorySpending | server/storage.ts:674-739 | with zero spending, every expense category with value 0 and its own name and color; otherwise slice i is the i-th expense category with spending, with its name, color and value round(100 * its total / total spending), followed by a last ("Other", #78909C) slice exactly when uncategorised spending is positive, valued at its rounded share |
| Dashboard.TalliedStep | server/storage.ts:711-718 | one more transaction tallies a category exactly when it is filed under it |
| Dashboard.TallyExpenses | server/storage.ts:708-718 | the grouping loop holds a total exactly for each category some expense is filed under, equal to that category's sum, and the uncategorised sum |
| Dashboard.NeverFiledTotal | server/storage.ts:713 | a category nothing is filed under totals 0 |
| Dashboard.PartsWithinTotal | server/storage.ts:695-718 | with no negative amounts, each category total and the uncategorised total lie between 0 and the total |
| Dashboard.CategorySpendingInRange | server/storage.ts:721-736 | with no negative amounts, every slice's value is in [0, 100] |
| Dashboard.Percentage | server/storage.ts:1084 | 0 when the bound is not positive; otherwise round(100 * current / max) |
| Dashboard.PercentageRange | server/storage.ts:1135 | progress within the bound shows between 0 and 100 |
| Dashboard.PercentageAtBound | server/storage.ts:1084 | reaching the bound shows exactly 100 |
| Dashboard.PercentageMonotone | server/storage.ts:1135 | more progress never shows a smaller percentage |
| MemStore.ImportedRows | server/storage.ts:317-375 | one transaction per imported row |
| MemStore.ImportedRowsStep | server/storage.ts:320-372 | importing one more row appends exactly its transaction |
| MemStore.ImportedRowsFields | server/storage.ts:361-368 | row j becomes id firstId + j for the importing user with the row's amount and date; income only when isIncome is true; "Imported transaction" and no category when the description is missing or empty |
| MemStore.NewSettings | server/storage.ts:515-531 | a missing or falsy theme, contrast or language takes light / false / en; both timestamps are now |
| MemStore.NewCsvSetting | server/storage.ts:757-763 | skipHeader is true unless the caller supplies it; the id and owner are the new ones |
| MemStore.OwnedCopies | server/storage.ts:184-192 | each system category copied under consecutive new ids, owned by the user |
| MemStore.SeededCategories | server/storage.ts:144-155 | each seed as an ownerless category under consecutive ids |
| MemStore.MemStorage.constructor | server/storage.ts:104-127 | empty tables, counters at 1 except categories at 11, and the ten system categories listed in order |
| MemStore.MemStorage.CreateDefaultCategories | server/storage.ts:130-156 | each seed appended as an ownerless category under the next id; the counter advances by the number of seeds |
| MemStore.MemStorage.GetCategories | server/storage.ts:206-210 | exactly the stored categories owned by the user or by nobody |
| MemStore.MemStorage.GetCategory | server/storage.ts:212-214 | undefined exactly for an absent id, otherwise the stored record |
| MemStore.MemStorage.CreateCategory | server/storage.ts:216-221 | the record under a never-used id equal to the counter, every other entry unchanged, counter + 1, listed last |
| MemStore.MemStorage.UpdateCategory | server/storage.ts:223-232 | "Category not found" and no change for an absent id; otherwise the merged record replaces only that entry |
| MemStore.MemStorage.DeleteCategory | server/storage.ts:234-236 | exactly that key is removed |
| MemStore.MemStorage.GetTransactions | server/storage.ts:239-284 | exactly the user's transactions passing every filter, each listed as often as it is stored (the same multiset and length as the filtered table), newest first, each with its category's name, color and icon |
| MemStore.MemStorage.GetRecentTransactions | server/storage.ts:286-289 | a prefix of the unfiltered listing: its first min(limit, n) entries for a non-negative limit, all but the last -limit entries (none when -limit >= n) for a negative one |
| MemStore.MemStorage.GetTransaction | server/storage.ts:291-293 | undefined exactly for an absent id, otherwise the stored record |
| MemStore.MemStorage.CreateTransaction | server/storage.ts:295-300 | the record under a never-used id equal to the counter, every other entry unchanged, counter + 1, listed last |
| MemStore.MemStorage.UpdateTransaction | server/storage.ts:302-311 | "Transaction not found" and no change for an absent id; otherwise the merged record replaces only that entry |
| MemStore.MemStorage.DeleteTransaction | server/storage.ts:313-315 | exactly that key is removed |
| MemStore.MemStorage.ImportTransactions | server/storage.ts:317-375 | returns the number of rows; exactly that many transactions are appended, in row order, with consecutive new ids, each categorised against the user's visible categories |
| MemStore.MemStorage.ImportRowAt | server/storage.ts:320-371 | one loop pass: the categorised transaction appended under the next id |
| MemStore.MemStorage.GetBudgets | server/storage.ts:378-402 | exactly the user's stored budgets |
| MemStore.MemStorage.GetBudget | server/storage.ts:404-406 | undefined exactly for an absent id, otherwise the stored record |
| MemStore.MemStorage.CreateBudget | server/storage.ts:408-413 | the record under a never-used id equal to the counter, every other entry unchanged, counter + 1, listed last |
| MemStore.MemStorage.UpdateBudget | server/storage.ts:415-424 | "Budget not found" and no change for an absent id; otherwise the merged record replaces only that entry |
| MemStore.MemStorage.DeleteBudget | server/storage.ts:426-428 | exactly that key is removed |
| MemStore.MemStorage.GetGoals | server/storage.ts:431-435 | exactly the user's stored goals |
| MemStore.MemStorage.GetGoal | server/storage.ts:437-439 | undefined exactly for an absent id, otherwise the stored record |
| MemStore.MemStorage.CreateGoal | server/storage.ts:441-446 | the record under a never-used id equal to the counter, every other entry unchanged, counter + 1, listed last |
| MemStore.MemStorage.UpdateGoal | server/storage.ts:448-457 | "Goal not found" and no change for an absent id; otherwise the merged record replaces only that entry |
| MemStore.MemStorage.DeleteGoal | server/storage.ts:459-461 | exactly that key is removed |
| MemStore.MemStorage.GetReminders | server/storage.ts:464-468 | exactly the user's stored reminders |
| MemStore.MemStorage.GetUpcomingReminders | server/storage.ts:470-480 | exactly the user's reminders due between now and the cutoff, inclusive |
| MemStore.MemStorage.GetReminder | server/storage.ts:482-484 | undefined exactly for an absent id, otherwise the stored record |
| MemStore.MemStorage.CreateReminder | server/storage.ts:486-491 | the record under a never-used id equal to the counter, every other entry unchanged, counter + 1, listed last |
| MemStore.MemStorage.UpdateReminder | server/storage.ts:493-502 | "Reminder not found" and no change for an absent id; otherwise the merged record replaces only that entry |
| MemStore.MemStorage.DeleteReminder | server/storage.ts:504-506 | exactly that key is removed |
| MemStore.MemStorage.GetUser | server/storage.ts:159-161 | undefined exactly for an absent id, otherwise the stored user |
| MemStore.MemStorage.GetUserByUsername | server/storage.ts:163-167 | undefined exactly when no user's name equals the given one ignoring case; otherwise the stored matching user with the smallest id, i.e. the first in insertion order |
| MemStore.MemStorage.SystemCategoryList | server/storage.ts:181-182 | exactly the stored categories without an owner |
| MemStore.MemStorage.CreateUser | server/storage.ts:169-203 | the user under a fresh id with no picture; an owned copy of every system category appended under consecutive ids; settings light / false / en stored under the next settings id |
| MemStore.MemStorage.CopySystemCategories | server/storage.ts:184-192 | the copying loop appends exactly the owned copies |
| MemStore.MemStorage.UpdateUser | server/storage.ts:559-568 | "User not found" and no change for an absent id; otherwise the merged user replaces only that entry |
| MemStore.MemStorage.ChangeUserPassword | server/storage.ts:570-579 | true exactly when the user exists and the current password matches; only then is the password replaced, and nothing else changes |
| MemStore.MemStorage.GetUserSettings | server/storage.ts:509-513 | undefined exactly when the user has no settings; otherwise the user's stored record with the smallest id, the first find meets |
| MemStore.MemStorage.CreateUserSettings | server/storage.ts:515-531 | the defaulted record under a fresh id, counter + 1 |
| MemStore.MemStorage.UpdateUserSettings | server/storage.ts:533-556 | upsert: with no settings, a new defaulted record from the supplied fields; otherwise the merged record with updatedAt = now replaces only that entry |
| MemStore.MemStorage.GetCsvSettings | server/storage.ts:742-747 | undefined exactly when the user has no CSV settings; otherwise the user's stored record with the smallest id, the first find meets |
| MemStore.MemStorage.SaveCsvSettings | server/storage.ts:749-767 | upsert: merge into the existing record, or create one whose skipHeader defaults to true unless supplied |
| MemStore.MemStorage.UserTransactions | server/storage.ts:588-590 | exactly the stored transactions of the user |
| MemStore.MemStorage.GetDashboardBalance | server/storage.ts:582-627 | balance = income sum − expense sum over all of the user's transactions; income and expenses over those dated from the first of this month |
| MemStore.MemStorage.GetSpendingTrends | server/storage.ts:629-672 | `months` points (none for a negative count), oldest first, each summing its own calendar month |
| MemStore.MemStorage.GetCategorySpending | server/storage.ts:674-739 | the slices `CategorySpending` specifies (names, colors and rounded shares per category, then "Other"), over the user's visible categories and this month's expenses |

`DatabaseStorage.importTransactions` (server/storage.ts:981-1041) carries a copy of the same categoriser, so `Categorizer` covers it too.

## Left out

- DatabaseStorage: its queries go to PostgreSQL through the drizzle ORM and have no semantics visible in this repository. Only its progress percentage formula (server/storage.ts:1084, 1135) is modelled, as `Dashboard.Percentage`.
- uploadAndParseCSV: FileReader I/O and promise plumbing.
- async/await: every store method runs to completion before the next one starts.
- Authentication, routes, cron jobs, e-mail, websockets and the client pages are not part of this model.
- Floating point: amounts are integer cents, and `parseFloat` is the parameter `parse`. NaN appears only as a `None` amount.
- Dashboard.RoundPercent: computes Math.round of the exact ratio. The source rounds the double `(part / whole) * 100`, which can differ from the exact value right at a half.
- CsvParser.ParseRowDate: keeps a three-part date's numbers as read. `new Date(y, m - 1, d)` would roll an out-of-range month or day into the next month or year.
- CsvParser.CsvRowsToTransactions: the date is a calendar triple. The local-to-UTC shift of `toISOString`, which can move the day, is not modelled.
- Dates and clocks: `new Date(text)` is the parameter `parseDate`. The current time is the parameters `today` and `now`. Time zones and daylight-saving shifts of `setDate` are not modelled.
- Dashboard.MonthLabel: gives the English short month name, as `toLocaleString('default', …)` does in an English locale.
- Common.ToLower: folds only the ASCII letters. `toLowerCase` also folds other Unicode letters.
- Records.Transaction.Patched: a patch field that is `None` keeps the old value. In JavaScript, a key explicitly set to `undefined` in the patch would overwrite it. The same holds for the other `Patched` members. For user settings this is the normal path rather than an edge case: the settings route always passes `theme`, `highContrast` and `language` as keys, so a request that omits one stores `undefined` for it, where `Records.UserSettings.Patched` keeps the old value.
- Queries.RecentTransactions: a `NaN` limit (`parseInt` of text that is not a number) cannot be represented, since the limit is an `int`. In JavaScript `slice(0, NaN)` gives the empty list.
- Patches carry no `id`, and settings patches no owner. In the source, a `Partial<…>` carrying an id could leave a record under a key different from its id.
- MemStore.MemStorage.CreateUser: uses one `now` for the user's and the settings' timestamps. The source reads the clock twice.
- MemStore.MemStorage.ChangeUserPassword: replaces the stored user value. The source mutates the user object in place, so earlier readers holding that object also see the new password. Aliasing is not modelled.
- MemStore.MemStorage.ImportTransactions: rows carry an amount and a date. The source asserts both with `!`, and a NaN amount is not representable. The route code that turns drafts into rows is not part of this model.
- MemStore.MemStorage.ImportTransactions: reads the visible categories once. The source re-reads them for each described row, which gives the same categories because the import never changes them.
- CsvParser.RowOfFields: stated only when no extra column is headed "date", "description", "amount" or "category". Otherwise the extra column overwrites that field, which `AddExtrasSpec` covers in general.
- CsvParser.FindColumns: has no contract of its own. Its parts are `FindIndex`, whose contract covers them.
- Categorizer.CategoryFor: its contract is stated by `CategoryForCases` and by `AssignCategory`.
- A header named `__proto__` is an ordinary key here. In JavaScript, assigning it to a row object sets the prototype.
- Queries.BudgetsOf: returns the budgets as stored. The source computes each budget's spending and then discards it.
- Queries.Ordered: lists a table in ascending id order. This is JavaScript `Map` insertion order, because ids come from an increasing counter and an update re-sets an existing key in place.
