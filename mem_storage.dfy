/** `MemStorage` of server/storage.ts: eight tables keyed by id and one id
    counter per table. Creating takes the counter's value as the new id and
    bumps the counter; updating merges the supplied fields into the stored
    record or fails with "<Entity> not found"; deleting drops one key. The
    queries and dashboard rollups read the tables in insertion order.
    Clocks are parameters: `now` for instants, `today` for the calendar
    date, `parseDate` for `new Date(text)`. */
module MemStore {
  import opened Common
  import opened Records
  import opened Queries
  import opened Categorizer
  import opened Dashboard

  /** The fields `importTransactions` reads from one parsed row; amount and
      date are taken as present (the source asserts them with `!`). */
  datatype ImportRow = ImportRow(amount: int, description: Option<string>, date: Date, isIncome: Option<bool>)

  /** The transaction an import row becomes: a missing or empty description
      reads "Imported transaction", a missing isIncome reads false. */
  function ImportedTransaction(id: nat, userId: nat, row: ImportRow, categoryId: Option<nat>): Transaction
  {
    Transaction(id, userId, categoryId, row.amount,
                if Given(row.description) then row.description.value else "Imported transaction",
                row.date, row.isIncome == Some(true))
  }

  /** The transactions an import of `rows` creates, with consecutive ids
      from `firstId`, each categorised against `cats`. */
  function ImportedRows(firstId: nat, userId: nat, rows: seq<ImportRow>, cats: seq<Category>,
                        table: seq<KeywordEntry>): (r: seq<Transaction>)
    ensures |r| == |rows|
  {
    seq(|rows|, j requires 0 <= j < |rows| =>
          ImportedTransaction(firstId + j, userId, rows[j], CategoryFor(cats, rows[j].description, rows[j].isIncome, table)))
  }

  /** Importing one more row appends its transaction. */
  lemma ImportedRowsStep(firstId: nat, userId: nat, rows: seq<ImportRow>, n: nat, cats: seq<Category>,
                         table: seq<KeywordEntry>)
    requires n < |rows|
    ensures ImportedRows(firstId, userId, rows[..n + 1], cats, table) ==
            ImportedRows(firstId, userId, rows[..n], cats, table)
            + [ImportedTransaction(firstId + n, userId, rows[n], CategoryFor(cats, rows[n].description, rows[n].isIncome, table))]
  {
    var longer := ImportedRows(firstId, userId, rows[..n + 1], cats, table);
    var shorter := ImportedRows(firstId, userId, rows[..n], cats, table);
    forall j | 0 <= j < n
      ensures longer[j] == shorter[j]
    {
      assert rows[..n + 1][j] == rows[..n][j];
    }
  }

  /** What an import makes of each row: the id `firstId + j`, the importing
      user, the row's amount and date, "Imported transaction" for a missing
      or empty description, and no category for such a row. */
  lemma ImportedRowsFields(firstId: nat, userId: nat, rows: seq<ImportRow>, cats: seq<Category>,
                           table: seq<KeywordEntry>, j: nat)
    requires j < |rows|
    ensures var t := ImportedRows(firstId, userId, rows, cats, table)[j];
      && t.id == firstId + j && t.userId == userId
      && t.amount == rows[j].amount && t.date == rows[j].date
      && (t.isIncome <==> rows[j].isIncome == Some(true))
      && (Given(rows[j].description) ==> t.description == rows[j].description.value)
      && (!Given(rows[j].description) ==> t.description == "Imported transaction" && t.categoryId == None)
  {
  }

  /** The optional fields `createUserSettings` accepts. */
  datatype SettingsInput = SettingsInput(theme: Option<string>, highContrast: Option<bool>, language: Option<string>)

  /** The record `createUserSettings` stores: each missing or falsy field
      takes its default, light / false / en. */
  function NewSettings(id: nat, userId: nat, input: SettingsInput, now: Instant): (s: UserSettings)
    ensures s.id == id && s.userId == userId && s.createdAt == now && s.updatedAt == now
    ensures s.theme == if Given(input.theme) then input.theme.value else "light"
    ensures s.highContrast <==> input.highContrast == Some(true)
    ensures s.language == if Given(input.language) then input.language.value else "en"
  {
    UserSettings(id, userId, if Given(input.theme) then input.theme.value else "light",
                 input.highContrast == Some(true),
                 if Given(input.language) then input.language.value else "en", now, now)
  }

  /** The record `saveCsvSettings` creates: `{ id, userId, skipHeader: true,
      ...settings }`, so a supplied skipHeader overrides the default. */
  function NewCsvSetting(id: nat, userId: nat, p: CsvSettingPatch): (s: CsvSetting)
    ensures s.id == id && s.userId == userId
    ensures s.skipHeader == p.skipHeader.GetOr(true)
    ensures s.bankName == p.bankName.GetOr(None)
  {
    CsvSetting(id, userId, p.bankName.GetOr(None), p.columnMapping.GetOr(None), p.skipHeader.GetOr(true),
               p.autoCategories.GetOr(None))
  }

  /** The per-user copies `createUser` makes of the system categories, with
      consecutive ids from `firstId`. */
  function OwnedCopies(sys: seq<Category>, owner: nat, firstId: nat): (r: seq<Category>)
    ensures |r| == |sys|
    ensures forall j :: 0 <= j < |r| ==> r[j] == sys[j].(id := firstId + j, userId := Some(owner))
  {
    seq(|sys|, j requires 0 <= j < |sys| => sys[j].(id := firstId + j, userId := Some(owner)))
  }

  /** The ownerless categories made from `seeds`, with consecutive ids from
      `firstId`. */
  function SeededCategories(seeds: seq<CategorySeed>, firstId: nat): (r: seq<Category>)
    ensures |r| == |seeds|
    ensures forall j :: 0 <= j < |r| ==> r[j] == SystemCategory(firstId + j, seeds[j])
  {
    seq(|seeds|, j requires 0 <= j < |seeds| => SystemCategory(firstId + j, seeds[j]))
  }

  lemma TakeOneMore<T>(before: seq<T>, s: seq<T>, i: nat)
    requires i < |s|
    ensures before + s[..i + 1] == before + s[..i] + [s[i]]
  {
    assert s[..i + 1] == s[..i] + [s[i]];
  }

  lemma AppendOne<T>(a: seq<T>, b: seq<T>, x: T)
    ensures a + (b + [x]) == a + b + [x]
  {
  }

  class MemStorage {
    var users: map<nat, User>
    var userSettings: map<nat, UserSettings>
    var categories: map<nat, Category>
    var transactions: map<nat, Transaction>
    var budgets: map<nat, Budget>
    var goals: map<nat, Goal>
    var reminders: map<nat, Reminder>
    var csvSettings: map<nat, CsvSetting>
    /** The `nextId` counters, one per table. */
    var nextUserId: nat
    var nextSettingsId: nat
    var nextCategoryId: nat
    var nextTransactionId: nat
    var nextBudgetId: nat
    var nextGoalId: nat
    var nextReminderId: nat
    var nextCsvSettingId: nat
    /** The keyword table `importTransactions` categorises by; always
        `KeywordTable`. */
    const keywords: seq<KeywordEntry>

    /** Every key of `users` was drawn from its counter and is its record's id. */
    ghost predicate UsersKeyed()
      reads this`users, this`nextUserId
    {
      forall k :: k in users ==> k < nextUserId && users[k].id == k
    }

    /** Every key of `userSettings` was drawn from its counter and is its record's id. */
    ghost predicate SettingsKeyed()
      reads this`userSettings, this`nextSettingsId
    {
      forall k :: k in userSettings ==> k < nextSettingsId && userSettings[k].id == k
    }

    /** Every key of `categories` was drawn from its counter and is its record's id. */
    ghost predicate CategoriesKeyed()
      reads this`categories, this`nextCategoryId
    {
      forall k :: k in categories ==> k < nextCategoryId && categories[k].id == k
    }

    /** Every key of `transactions` was drawn from its counter and is its record's id. */
    ghost predicate TransactionsKeyed()
      reads this`transactions, this`nextTransactionId
    {
      forall k :: k in transactions ==> k < nextTransactionId && transactions[k].id == k
    }

    /** Every key of `budgets` was drawn from its counter and is its record's id. */
    ghost predicate BudgetsKeyed()
      reads this`budgets, this`nextBudgetId
    {
      forall k :: k in budgets ==> k < nextBudgetId && budgets[k].id == k
    }

    /** Every key of `goals` was drawn from its counter and is its record's id. */
    ghost predicate GoalsKeyed()
      reads this`goals, this`nextGoalId
    {
      forall k :: k in goals ==> k < nextGoalId && goals[k].id == k
    }

    /** Every key of `reminders` was drawn from its counter and is its record's id. */
    ghost predicate RemindersKeyed()
      reads this`reminders, this`nextReminderId
    {
      forall k :: k in reminders ==> k < nextReminderId && reminders[k].id == k
    }

    /** Every key of `csvSettings` was drawn from its counter and is its record's id. */
    ghost predicate CsvSettingsKeyed()
      reads this`csvSettings, this`nextCsvSettingId
    {
      forall k :: k in csvSettings ==> k < nextCsvSettingId && csvSettings[k].id == k
    }

    ghost predicate Valid()
      reads this
    {
      UsersKeyed() && SettingsKeyed() && CategoriesKeyed() && TransactionsKeyed()
      && BudgetsKeyed() && GoalsKeyed() && RemindersKeyed() && CsvSettingsKeyed()
    }

    // -------------------------------------------------------------------------
    // Construction

    /** Empty tables, counters at 1, then the ten system categories. */
    constructor ()
      ensures Valid()
      ensures users == map[] && userSettings == map[] && transactions == map[] && budgets == map[]
      ensures goals == map[] && reminders == map[] && csvSettings == map[]
      ensures nextUserId == 1 && nextSettingsId == 1 && nextCategoryId == 1 + |DefaultCategorySeeds|
      ensures nextTransactionId == 1 && nextBudgetId == 1 && nextGoalId == 1 && nextReminderId == 1
      ensures nextCsvSettingId == 1
      ensures CategoryList() == StartCategories()
      ensures keywords == KeywordTable
    {
      users, userSettings, categories, transactions := map[], map[], map[], map[];
      budgets, goals, reminders, csvSettings := map[], map[], map[], map[];
      nextUserId, nextSettingsId, nextCategoryId, nextTransactionId := 1, 1, 1, 1;
      nextBudgetId, nextGoalId, nextReminderId, nextCsvSettingId := 1, 1, 1, 1;
      keywords := KeywordTable;
      new;
      CreateDefaultCategories(DefaultCategorySeeds);
      assert SeededCategories(DefaultCategorySeeds, 1) == StartCategories();
    }

    /** `createDefaultCategories`: one ownerless category per seed, in seed
        order, each under the next id. */
    method CreateDefaultCategories(seeds: seq<CategorySeed>)
      requires Valid()
      modifies this`categories, this`nextCategoryId
      ensures Valid()
      ensures nextCategoryId == old(nextCategoryId) + |seeds|
      ensures CategoryList() == old(CategoryList()) + SeededCategories(seeds, old(nextCategoryId))
    {
      ghost var before := CategoryList();
      ghost var made := SeededCategories(seeds, nextCategoryId);
      var i := 0;
      while i < |seeds|
        invariant 0 <= i <= |seeds|
        invariant CategoriesKeyed()
        invariant nextCategoryId == old(nextCategoryId) + i
        invariant CategoryList() == before + made[..i]
      {
        var id := nextCategoryId;
        nextCategoryId := id + 1;
        var category := SystemCategory(id, seeds[i]);
        OrderedAppend(categories, id, category);
        categories := categories[id := category];
        TakeOneMore(before, made, i);
        i := i + 1;
      }
      assert made[..i] == made;
    }

    // -------------------------------------------------------------------------
    // Categories

    /** The categories in insertion (id) order. */
    function CategoryList(): seq<Category>
      reads this`categories, this`nextCategoryId
    {
      Ordered(categories, nextCategoryId)
    }

    /** `getCategories(u)`: exactly the categories owned by u or by nobody. */
    function GetCategories(userId: nat): (r: seq<Category>)
      reads this`categories, this`nextCategoryId
      requires CategoriesKeyed()
      ensures forall c :: c in r <==> c in categories.Values && (c.userId == Some(userId) || c.userId == None)
    {
      OrderedValues(categories, nextCategoryId);
      CategoriesOf(CategoryList(), userId)
    }

    function GetCategory(id: nat): (r: Option<Category>)
      reads this`categories, this`nextCategoryId
      requires CategoriesKeyed()
      ensures r.None? <==> id !in categories
      ensures r.Some? ==> r.value == categories[id] && r.value.id == id
    {
      if id in categories then Some(categories[id]) else None
    }

    /** `createCategory`: the record (its id ignored) stored under a fresh id. */
    method CreateCategory(c: Category) returns (r: Category)
      requires Valid()
      modifies this`categories, this`nextCategoryId
      ensures Valid()
      ensures r == c.(id := old(nextCategoryId)) && r.id !in old(categories)
      ensures categories == old(categories)[r.id := r]
      ensures nextCategoryId == old(nextCategoryId) + 1
      ensures Ordered(categories, nextCategoryId) == old(Ordered(categories, nextCategoryId)) + [r]
    {
      var id := nextCategoryId;
      nextCategoryId := id + 1;
      r := c.(id := id);
      OrderedAppend(categories, id, r);
      categories := categories[id := r];
    }

    /** `updateCategory`: merge the supplied fields into the stored record, or
        fail when there is none. */
    method UpdateCategory(id: nat, p: CategoryPatch) returns (r: Result<Category>)
      requires Valid()
      modifies this`categories
      ensures Valid()
      ensures id !in old(categories) ==> r == Err("Category not found") && categories == old(categories)
      ensures id in old(categories) ==> r == Ok(old(categories)[id].Patched(p)) && categories == old(categories)[id := r.value]
    {
      if id !in categories {
        return Err("Category not found");
      }
      var updated := categories[id].Patched(p);
      categories := categories[id := updated];
      r := Ok(updated);
    }

    method DeleteCategory(id: nat)
      requires Valid()
      modifies this`categories
      ensures Valid()
      ensures categories == old(categories) - {id}
    {
      categories := categories - {id};
    }

    // -------------------------------------------------------------------------
    // Transactions

    /** The transactions in insertion (id) order. */
    function TransactionList(): seq<Transaction>
      reads this`transactions, this`nextTransactionId
    {
      Ordered(transactions, nextTransactionId)
    }

    /** `getTransactions`: the user's transactions that pass every supplied
        filter, newest first, each with its category's name, color and icon. */
    function GetTransactions(userId: nat, f: TransactionFilters, parseDate: string -> Option<Date>): (r: seq<TransactionView>)
      reads this`transactions, this`nextTransactionId, this`categories
      requires TransactionsKeyed()
      ensures forall t :: t in TxsOf(r) <==> t in transactions.Values && Matches(t, userId, f, parseDate)
      ensures forall i, j :: 0 <= i < j < |r| ==> DateLe(r[j].tx.date, r[i].tx.date)
      ensures forall i :: 0 <= i < |r| ==> r[i] == Describe(r[i].tx, categories)
      ensures |r| == |FilterTransactions(TransactionList(), userId, f, parseDate)|
      ensures multiset(TxsOf(r)) == multiset(FilterTransactions(TransactionList(), userId, f, parseDate))
    {
      OrderedValues(transactions, nextTransactionId);
      QueryTransactionsExact(TransactionList(), categories, userId, f, parseDate);
      QueryTransactions(TransactionList(), categories, userId, f, parseDate)
    }

    /** `getRecentTransactions`: `slice(0, limit)` of the unfiltered listing;
        a negative limit drops that many entries from the end. */
    function GetRecentTransactions(userId: nat, limit: int, parseDate: string -> Option<Date>): (r: seq<TransactionView>)
      reads this`transactions, this`nextTransactionId, this`categories
      requires TransactionsKeyed()
      ensures r <= GetTransactions(userId, NoFilters, parseDate)
      ensures 0 <= limit ==> |r| == if limit < |GetTransactions(userId, NoFilters, parseDate)| then limit
                                    else |GetTransactions(userId, NoFilters, parseDate)|
      ensures limit < 0 ==> |r| == if |GetTransactions(userId, NoFilters, parseDate)| + limit < 0 then 0
                                   else |GetTransactions(userId, NoFilters, parseDate)| + limit
    {
      RecentTransactions(TransactionList(), categories, userId, limit, parseDate)
    }

    function GetTransaction(id: nat): (r: Option<Transaction>)
      reads this`transactions, this`nextTransactionId
      requires TransactionsKeyed()
      ensures r.None? <==> id !in transactions
      ensures r.Some? ==> r.value == transactions[id] && r.value.id == id
    {
      if id in transactions then Some(transactions[id]) else None
    }

    /** `createTransaction`: the record (its id ignored) stored under a fresh id. */
    method CreateTransaction(t: Transaction) returns (r: Transaction)
      requires Valid()
      modifies this`transactions, this`nextTransactionId
      ensures Valid()
      ensures r == t.(id := old(nextTransactionId)) && r.id !in old(transactions)
      ensures transactions == old(transactions)[r.id := r]
      ensures nextTransactionId == old(nextTransactionId) + 1
      ensures Ordered(transactions, nextTransactionId) == old(Ordered(transactions, nextTransactionId)) + [r]
    {
      var id := nextTransactionId;
      nextTransactionId := id + 1;
      r := t.(id := id);
      OrderedAppend(transactions, id, r);
      transactions := transactions[id := r];
    }

    /** `updateTransaction`: merge the supplied fields into the stored record, or
        fail when there is none. */
    method UpdateTransaction(id: nat, p: TransactionPatch) returns (r: Result<Transaction>)
      requires Valid()
      modifies this`transactions
      ensures Valid()
      ensures id !in old(transactions) ==> r == Err("Transaction not found") && transactions == old(transactions)
      ensures id in old(transactions) ==> r == Ok(old(transactions)[id].Patched(p)) && transactions == old(transactions)[id := r.value]
    {
      if id !in transactions {
        return Err("Transaction not found");
      }
      var updated := transactions[id].Patched(p);
      transactions := transactions[id := updated];
      r := Ok(updated);
    }

    method DeleteTransaction(id: nat)
      requires Valid()
      modifies this`transactions
      ensures Valid()
      ensures transactions == old(transactions) - {id}
    {
      transactions := transactions - {id};
    }

    /** `importTransactions`: one new transaction per row, in row order, each
        categorised against the user's visible categories; returns the
        number of rows. */
    method ImportTransactions(userId: nat, rows: seq<ImportRow>) returns (count: nat)
      requires Valid()
      modifies this`transactions, this`nextTransactionId
      ensures Valid()
      ensures count == |rows|
      ensures nextTransactionId == old(nextTransactionId) + |rows|
      ensures TransactionList() ==
              old(TransactionList()) + ImportedRows(old(nextTransactionId), userId, rows, GetCategories(userId), keywords)
    {
      count := 0;
      ghost var before := TransactionList();
      ghost var first := nextTransactionId;
      ghost var cats := GetCategories(userId);
      while count < |rows|
        invariant 0 <= count <= |rows|
        invariant Valid()
        invariant nextTransactionId == first + count
        invariant TransactionList() == before + ImportedRows(first, userId, rows[..count], cats, keywords)
      {
        ghost var done := ImportedRows(first, userId, rows[..count], cats, keywords);
        var created := ImportRowAt(userId, rows[count]);
        ImportedRowsStep(first, userId, rows, count, cats, keywords);
        AppendOne(before, done, created);
        count := count + 1;
      }
      assert rows[..count] == rows;
    }

    /** One pass of the import loop body: categorise the row against the
        user's visible categories and create its transaction. */
    method ImportRowAt(userId: nat, row: ImportRow) returns (created: Transaction)
      requires Valid()
      modifies this`transactions, this`nextTransactionId
      ensures Valid()
      ensures created == ImportedTransaction(old(nextTransactionId), userId, row,
                                             CategoryFor(GetCategories(userId), row.description, row.isIncome, keywords))
      ensures nextTransactionId == old(nextTransactionId) + 1
      ensures TransactionList() == old(TransactionList()) + [created]
    {
      var visible := GetCategories(userId);
      var categoryId := AssignCategory(visible, row.description, row.isIncome, keywords);
      created := CreateTransaction(ImportedTransaction(0, userId, row, categoryId));
    }

    // -------------------------------------------------------------------------
    // Budgets

    /** `getBudgets`: the user's budgets. */
    function GetBudgets(userId: nat): (r: seq<Budget>)
      reads this`budgets, this`nextBudgetId
      requires BudgetsKeyed()
      ensures forall b :: b in r <==> b in budgets.Values && b.userId == userId
    {
      OrderedValues(budgets, nextBudgetId);
      BudgetsOf(Ordered(budgets, nextBudgetId), userId)
    }

    function GetBudget(id: nat): (r: Option<Budget>)
      reads this`budgets, this`nextBudgetId
      requires BudgetsKeyed()
      ensures r.None? <==> id !in budgets
      ensures r.Some? ==> r.value == budgets[id] && r.value.id == id
    {
      if id in budgets then Some(budgets[id]) else None
    }

    /** `createBudget`: the record (its id ignored) stored under a fresh id. */
    method CreateBudget(b: Budget) returns (r: Budget)
      requires Valid()
      modifies this`budgets, this`nextBudgetId
      ensures Valid()
      ensures r == b.(id := old(nextBudgetId)) && r.id !in old(budgets)
      ensures budgets == old(budgets)[r.id := r]
      ensures nextBudgetId == old(nextBudgetId) + 1
      ensures Ordered(budgets, nextBudgetId) == old(Ordered(budgets, nextBudgetId)) + [r]
    {
      var id := nextBudgetId;
      nextBudgetId := id + 1;
      r := b.(id := id);
      OrderedAppend(budgets, id, r);
      budgets := budgets[id := r];
    }

    /** `updateBudget`: merge the supplied fields into the stored record, or
        fail when there is none. */
    method UpdateBudget(id: nat, p: BudgetPatch) returns (r: Result<Budget>)
      requires Valid()
      modifies this`budgets
      ensures Valid()
      ensures id !in old(budgets) ==> r == Err("Budget not found") && budgets == old(budgets)
      ensures id in old(budgets) ==> r == Ok(old(budgets)[id].Patched(p)) && budgets == old(budgets)[id := r.value]
    {
      if id !in budgets {
        return Err("Budget not found");
      }
      var updated := budgets[id].Patched(p);
      budgets := budgets[id := updated];
      r := Ok(updated);
    }

    method DeleteBudget(id: nat)
      requires Valid()
      modifies this`budgets
      ensures Valid()
      ensures budgets == old(budgets) - {id}
    {
      budgets := budgets - {id};
    }

    // -------------------------------------------------------------------------
    // Goals

    /** `getGoals`: the user's goals. */
    function GetGoals(userId: nat): (r: seq<Goal>)
      reads this`goals, this`nextGoalId
      requires GoalsKeyed()
      ensures forall g :: g in r <==> g in goals.Values && g.userId == userId
    {
      OrderedValues(goals, nextGoalId);
      GoalsOf(Ordered(goals, nextGoalId), userId)
    }

    function GetGoal(id: nat): (r: Option<Goal>)
      reads this`goals, this`nextGoalId
      requires GoalsKeyed()
      ensures r.None? <==> id !in goals
      ensures r.Some? ==> r.value == goals[id] && r.value.id == id
    {
      if id in goals then Some(goals[id]) else None
    }

    /** `createGoal`: the record (its id ignored) stored under a fresh id. */
    method CreateGoal(g: Goal) returns (r: Goal)
      requires Valid()
      modifies this`goals, this`nextGoalId
      ensures Valid()
      ensures r == g.(id := old(nextGoalId)) && r.id !in old(goals)
      ensures goals == old(goals)[r.id := r]
      ensures nextGoalId == old(nextGoalId) + 1
      ensures Ordered(goals, nextGoalId) == old(Ordered(goals, nextGoalId)) + [r]
    {
      var id := nextGoalId;
      nextGoalId := id + 1;
      r := g.(id := id);
      OrderedAppend(goals, id, r);
      goals := goals[id := r];
    }

    /** `updateGoal`: merge the supplied fields into the stored record, or
        fail when there is none. */
    method UpdateGoal(id: nat, p: GoalPatch) returns (r: Result<Goal>)
      requires Valid()
      modifies this`goals
      ensures Valid()
      ensures id !in old(goals) ==> r == Err("Goal not found") && goals == old(goals)
      ensures id in old(goals) ==> r == Ok(old(goals)[id].Patched(p)) && goals == old(goals)[id := r.value]
    {
      if id !in goals {
        return Err("Goal not found");
      }
      var updated := goals[id].Patched(p);
      goals := goals[id := updated];
      r := Ok(updated);
    }

    method DeleteGoal(id: nat)
      requires Valid()
      modifies this`goals
      ensures Valid()
      ensures goals == old(goals) - {id}
    {
      goals := goals - {id};
    }

    // -------------------------------------------------------------------------
    // Reminders

    /** `getReminders`: the user's reminders. */
    function GetReminders(userId: nat): (r: seq<Reminder>)
      reads this`reminders, this`nextReminderId
      requires RemindersKeyed()
      ensures forall x :: x in r <==> x in reminders.Values && x.userId == userId
    {
      OrderedValues(reminders, nextReminderId);
      RemindersOf(Ordered(reminders, nextReminderId), userId)
    }

    /** `getUpcomingReminders`: the user's reminders due between `now` and
        `days` days later. */
    function GetUpcomingReminders(userId: nat, now: Instant, days: int): (r: seq<Reminder>)
      reads this`reminders, this`nextReminderId
      requires RemindersKeyed()
      ensures forall x :: x in r <==> x in reminders.Values && x.userId == userId && DueWithin(x, now, days)
    {
      OrderedValues(reminders, nextReminderId);
      UpcomingReminders(Ordered(reminders, nextReminderId), userId, now, days)
    }

    function GetReminder(id: nat): (r: Option<Reminder>)
      reads this`reminders, this`nextReminderId
      requires RemindersKeyed()
      ensures r.None? <==> id !in reminders
      ensures r.Some? ==> r.value == reminders[id] && r.value.id == id
    {
      if id in reminders then Some(reminders[id]) else None
    }

    /** `createReminder`: the record (its id ignored) stored under a fresh id. */
    method CreateReminder(x: Reminder) returns (r: Reminder)
      requires Valid()
      modifies this`reminders, this`nextReminderId
      ensures Valid()
      ensures r == x.(id := old(nextReminderId)) && r.id !in old(reminders)
      ensures reminders == old(reminders)[r.id := r]
      ensures nextReminderId == old(nextReminderId) + 1
      ensures Ordered(reminders, nextReminderId) == old(Ordered(reminders, nextReminderId)) + [r]
    {
      var id := nextReminderId;
      nextReminderId := id + 1;
      r := x.(id := id);
      OrderedAppend(reminders, id, r);
      reminders := reminders[id := r];
    }

    /** `updateReminder`: merge the supplied fields into the stored record, or
        fail when there is none. */
    method UpdateReminder(id: nat, p: ReminderPatch) returns (r: Result<Reminder>)
      requires Valid()
      modifies this`reminders
      ensures Valid()
      ensures id !in old(reminders) ==> r == Err("Reminder not found") && reminders == old(reminders)
      ensures id in old(reminders) ==> r == Ok(old(reminders)[id].Patched(p)) && reminders == old(reminders)[id := r.value]
    {
      if id !in reminders {
        return Err("Reminder not found");
      }
      var updated := reminders[id].Patched(p);
      reminders := reminders[id := updated];
      r := Ok(updated);
    }

    method DeleteReminder(id: nat)
      requires Valid()
      modifies this`reminders
      ensures Valid()
      ensures reminders == old(reminders) - {id}
    {
      reminders := reminders - {id};
    }

    // -------------------------------------------------------------------------
    // Users

    function GetUser(id: nat): (r: Option<User>)
      reads this`users, this`nextUserId
      requires UsersKeyed()
      ensures r.None? <==> id !in users
      ensures r.Some? ==> r.value == users[id] && r.value.id == id
    {
      if id in users then Some(users[id]) else None
    }

    /** `getUserByUsername`: the first user, in id order, whose name equals
        the given one ignoring case. */
    function GetUserByUsername(username: string): (r: Option<User>)
      reads this`users, this`nextUserId
      requires UsersKeyed()
      ensures r.None? <==> forall k :: k in users ==> !EqualsIgnoreCase(users[k].username, username)
      ensures r.Some? ==> r.value in users.Values && EqualsIgnoreCase(r.value.username, username)
      ensures r.Some? ==> forall k :: k in users && k < r.value.id ==> !EqualsIgnoreCase(users[k].username, username)
    {
      var list := Ordered(users, nextUserId);
      OrderedMembers(users, nextUserId);
      FindOrdered(users, nextUserId, (u: User) => EqualsIgnoreCase(u.username, username));
      var r := Find(list, (u: User) => EqualsIgnoreCase(u.username, username));
      assert r.None? ==> forall k :: k in users ==> users[k] in list && !EqualsIgnoreCase(users[k].username, username);
      r
    }

    /** The categories with no owner, in id order. */
    function SystemCategoryList(): (r: seq<Category>)
      reads this`categories, this`nextCategoryId
      ensures forall c :: c in r <==> c in CategoryList() && c.userId == None
    {
      Where(CategoryList(), (c: Category) => c.userId == None)
    }

    /** `createUser`: stores the user, then gives them an owned copy of every
        system category and light / no contrast / en settings. */
    method CreateUser(u: NewUser, now: Instant) returns (user: User)
      requires Valid()
      modifies this`users, this`nextUserId, this`categories, this`nextCategoryId
      modifies this`userSettings, this`nextSettingsId
      ensures Valid()
      ensures user == User(old(nextUserId), u.username, u.password, u.email, u.firstName, u.lastName, None, now)
      ensures user.id !in old(users) && users == old(users)[user.id := user]
      ensures nextUserId == old(nextUserId) + 1
      ensures nextCategoryId == old(nextCategoryId) + |old(SystemCategoryList())|
      ensures CategoryList() == old(CategoryList()) + OwnedCopies(old(SystemCategoryList()), user.id, old(nextCategoryId))
      ensures nextSettingsId == old(nextSettingsId) + 1
      ensures userSettings == old(userSettings)[old(nextSettingsId) :=
                NewSettings(old(nextSettingsId), user.id, SettingsInput(Some("light"), Some(false), Some("en")), now)]
    {
      var id := nextUserId;
      nextUserId := id + 1;
      user := User(id, u.username, u.password, u.email, u.firstName, u.lastName, None, now);
      users := users[id := user];
      CopySystemCategories(id);
      var settings := CreateUserSettings(id, SettingsInput(Some("light"), Some(false), Some("en")), now);
    }

    /** The copying loop of `createUser`. */
    method CopySystemCategories(owner: nat)
      requires Valid()
      modifies this`categories, this`nextCategoryId
      ensures Valid()
      ensures nextCategoryId == old(nextCategoryId) + |old(SystemCategoryList())|
      ensures CategoryList() == old(CategoryList()) + OwnedCopies(old(SystemCategoryList()), owner, old(nextCategoryId))
    {
      var sys := SystemCategoryList();
      ghost var before := CategoryList();
      ghost var copies := OwnedCopies(sys, owner, nextCategoryId);
      var i := 0;
      while i < |sys|
        invariant 0 <= i <= |sys|
        invariant CategoriesKeyed()
        invariant nextCategoryId == old(nextCategoryId) + i
        invariant CategoryList() == before + copies[..i]
      {
        var c := sys[i];
        var created := CreateCategory(Category(0, c.name, c.icon, c.color, c.isIncome, Some(owner)));
        assert created == copies[i];
        TakeOneMore(before, copies, i);
        i := i + 1;
      }
      assert copies[..i] == copies;
    }

    /** `updateUser`: merge into the stored user or fail. */
    method UpdateUser(id: nat, p: UserPatch) returns (r: Result<User>)
      requires Valid()
      modifies this`users
      ensures Valid()
      ensures id !in old(users) ==> r == Err("User not found") && users == old(users)
      ensures id in old(users) ==> r == Ok(old(users)[id].Patched(p)) && users == old(users)[id := r.value]
    {
      if id !in users {
        return Err("User not found");
      }
      var updated := users[id].Patched(p);
      users := users[id := updated];
      r := Ok(updated);
    }

    /** `changeUserPassword`: succeeds exactly when the user exists and the
        current password matches, and only then replaces it. */
    method ChangeUserPassword(id: nat, currentPassword: string, newPassword: string) returns (ok: bool)
      requires Valid()
      modifies this`users
      ensures Valid()
      ensures ok <==> id in old(users) && old(users)[id].password == currentPassword
      ensures ok ==> users == old(users)[id := old(users)[id].(password := newPassword)]
      ensures !ok ==> users == old(users)
    {
      if id !in users || users[id].password != currentPassword {
        return false;
      }
      users := users[id := users[id].(password := newPassword)];
      return true;
    }

    // -------------------------------------------------------------------------
    // User settings

    /** `getUserSettings`: the first settings record of the user. */
    function GetUserSettings(userId: nat): (r: Option<UserSettings>)
      reads this`userSettings, this`nextSettingsId
      requires SettingsKeyed()
      ensures r.None? <==> forall k :: k in userSettings ==> userSettings[k].userId != userId
      ensures r.Some? ==> r.value.userId == userId && r.value.id in userSettings && userSettings[r.value.id] == r.value
      ensures r.Some? ==> forall k :: k in userSettings && k < r.value.id ==> userSettings[k].userId != userId
    {
      var list := Ordered(userSettings, nextSettingsId);
      OrderedMembers(userSettings, nextSettingsId);
      FindOrdered(userSettings, nextSettingsId, (s: UserSettings) => s.userId == userId);
      var r := Find(list, (s: UserSettings) => s.userId == userId);
      assert r.None? ==> forall k :: k in userSettings ==> userSettings[k] in list && userSettings[k].userId != userId;
      r
    }

    /** `createUserSettings`: a fresh record with the defaults filled in. */
    method CreateUserSettings(userId: nat, input: SettingsInput, now: Instant) returns (r: UserSettings)
      requires Valid()
      modifies this`userSettings, this`nextSettingsId
      ensures Valid()
      ensures r == NewSettings(old(nextSettingsId), userId, input, now) && r.id !in old(userSettings)
      ensures userSettings == old(userSettings)[r.id := r]
      ensures nextSettingsId == old(nextSettingsId) + 1
    {
      var id := nextSettingsId;
      nextSettingsId := id + 1;
      r := NewSettings(id, userId, input, now);
      userSettings := userSettings[id := r];
    }

    /** `updateUserSettings`: merge into the user's settings, or create them
        from the supplied fields when there are none. */
    method UpdateUserSettings(userId: nat, p: SettingsPatch, now: Instant) returns (r: UserSettings)
      requires Valid()
      modifies this`userSettings, this`nextSettingsId
      ensures Valid()
      ensures r.userId == userId
      ensures userSettings == old(userSettings)[r.id := r]
      ensures old(GetUserSettings(userId)).None? ==>
                r == NewSettings(old(nextSettingsId), userId, SettingsInput(p.theme, p.highContrast, p.language), now)
                && nextSettingsId == old(nextSettingsId) + 1
      ensures old(GetUserSettings(userId)).Some? ==>
                r == old(GetUserSettings(userId)).value.Patched(p, now) && nextSettingsId == old(nextSettingsId)
    {
      var existing := GetUserSettings(userId);
      if existing.None? {
        r := CreateUserSettings(userId, SettingsInput(p.theme, p.highContrast, p.language), now);
        return;
      }
      r := existing.value.Patched(p, now);
      userSettings := userSettings[r.id := r];
    }

    // -------------------------------------------------------------------------
    // CSV settings

    /** `getCsvSettings`: the first CSV settings record of the user. */
    function GetCsvSettings(userId: nat): (r: Option<CsvSetting>)
      reads this`csvSettings, this`nextCsvSettingId
      requires CsvSettingsKeyed()
      ensures r.None? <==> forall k :: k in csvSettings ==> csvSettings[k].userId != userId
      ensures r.Some? ==> r.value.userId == userId && r.value.id in csvSettings && csvSettings[r.value.id] == r.value
      ensures r.Some? ==> forall k :: k in csvSettings && k < r.value.id ==> csvSettings[k].userId != userId
    {
      var list := Ordered(csvSettings, nextCsvSettingId);
      OrderedMembers(csvSettings, nextCsvSettingId);
      FindOrdered(csvSettings, nextCsvSettingId, (s: CsvSetting) => s.userId == userId);
      var r := Find(list, (s: CsvSetting) => s.userId == userId);
      assert r.None? ==> forall k :: k in csvSettings ==> csvSettings[k] in list && csvSettings[k].userId != userId;
      r
    }

    /** `saveCsvSettings`: merge into the user's CSV settings, or create them
        with skipHeader defaulting to true. */
    method SaveCsvSettings(userId: nat, p: CsvSettingPatch) returns (r: CsvSetting)
      requires Valid()
      modifies this`csvSettings, this`nextCsvSettingId
      ensures Valid()
      ensures r.userId == userId
      ensures csvSettings == old(csvSettings)[r.id := r]
      ensures old(GetCsvSettings(userId)).None? ==>
                r == NewCsvSetting(old(nextCsvSettingId), userId, p) && nextCsvSettingId == old(nextCsvSettingId) + 1
      ensures old(GetCsvSettings(userId)).Some? ==>
                r == old(GetCsvSettings(userId)).value.Patched(p) && nextCsvSettingId == old(nextCsvSettingId)
    {
      var existing := GetCsvSettings(userId);
      if existing.Some? {
        r := existing.value.Patched(p);
        csvSettings := csvSettings[r.id := r];
      } else {
        var id := nextCsvSettingId;
        nextCsvSettingId := id + 1;
        r := NewCsvSetting(id, userId, p);
        csvSettings := csvSettings[id := r];
      }
    }

    // -------------------------------------------------------------------------
    // Dashboard

    /** The user's transactions in insertion order. */
    function UserTransactions(userId: nat): (r: seq<Transaction>)
      reads this`transactions, this`nextTransactionId
      ensures forall t :: t in r <==> t in TransactionList() && t.userId == userId
    {
      Where(TransactionList(), (t: Transaction) => t.userId == userId)
    }

    /** `getDashboardBalance`: the balance over all of the user's
        transactions, and income and expenses from the first of this month. */
    method GetDashboardBalance(userId: nat, today: Date) returns (b: Balance)
      ensures b.currentBalance == IncomeSum(UserTransactions(userId)) - ExpenseSum(UserTransactions(userId))
      ensures b.income == IncomeSum(SinceMonthStart(UserTransactions(userId), today))
      ensures b.expenses == ExpenseSum(SinceMonthStart(UserTransactions(userId), today))
    {
      var all := UserTransactions(userId);
      var balance := 0;
      var i := 0;
      while i < |all|
        invariant 0 <= i <= |all|
        invariant balance == IncomeSum(all[..i]) - ExpenseSum(all[..i])
      {
        assert all[..i + 1][..i] == all[..i];
        if all[i].isIncome {
          balance := balance + all[i].amount;
        } else {
          balance := balance - all[i].amount;
        }
        i := i + 1;
      }
      assert all[..i] == all;
      var monthly := SinceMonthStart(all, today);
      var income, expenses := SumByKind(monthly);
      b := Balance(balance, income, expenses);
    }

    /** `getSpendingTrends`: `months` points, oldest first, each summing its
        own calendar month. */
    method GetSpendingTrends(userId: nat, today: Date, months: int) returns (r: seq<TrendPoint>)
      ensures IsTrend(r, UserTransactions(userId), today, months)
    {
      var all := UserTransactions(userId);
      r := [];
      var i := 0;
      while i < months
        invariant 0 <= i && (months >= 0 ==> i <= months) && (months < 0 ==> i == 0)
        invariant r == TrendSeries(all, today, i)
      {
        var first := MonthsAgo(today, i);
        var inMonth := MonthTransactions(all, today, i);
        var income, expenses := SumByKind(inMonth);
        r := [TrendPoint(MonthLabel(first.month), income, expenses)] + r;
        TrendSeriesPrepend(all, today, i);
        i := i + 1;
      }
    }

    /** The user's expenses dated on or after the first of this month. */
    function MonthExpenses(userId: nat, today: Date): seq<Transaction>
      reads this`transactions, this`nextTransactionId
    {
      Where(TransactionList(), (t: Transaction) => t.userId == userId && !t.isIncome && DateLe(MonthStart(today), t.date))
    }

    /** `getCategorySpending`: this month's expenses by category, as rounded
        percentages of their total. */
    method GetCategorySpending(userId: nat, today: Date) returns (r: seq<Slice>)
      requires CategoriesKeyed()
      ensures r == CategorySpending(GetCategories(userId), MonthExpenses(userId, today))
    {
      var shown := ExpenseCategories(GetCategories(userId));
      var spending := MonthExpenses(userId, today);
      var total := AmountSum(spending);
      if total == 0 {
        return seq(|shown|, i requires 0 <= i < |shown| => Slice(shown[i].name, 0, shown[i].color));
      }
      var totals, unfiled := TallyExpenses(spending);
      WhereAgree(shown, (c: Category) => c.id in totals, (c: Category) => Tallied(spending, c.id));
      var spent := Where(shown, (c: Category) => c.id in totals);
      assert spent == SpentCategories(shown, spending);
      r := seq(|spent|, k requires 0 <= k < |spent| =>
                 Slice(spent[k].name, RoundPercent(totals[spent[k].id], total), spent[k].color));
      assert r == FiledSlices(spent, spending, total);
      if unfiled > 0 {
        r := r + [Slice("Other", RoundPercent(unfiled, total), OtherColor)];
      }
    }
  }
}
