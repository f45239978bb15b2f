/** The rows the store keeps (shared/schema.ts) and the partial updates
    (`Partial<...>`) that `{ ...existing, ...patch }` merges into them.
    Amounts are integer cents; instants are milliseconds since the epoch. */
module Records {
  import opened Common

  type Instant = int

  datatype User = User(id: nat, username: string, password: string, email: string,
                       firstName: string, lastName: string, profilePicture: Option<string>,
                       createdAt: Instant)
  {
    function Patched(p: UserPatch): (r: User)
      ensures r.id == id
    {
      User(id, p.username.GetOr(username), p.password.GetOr(password), p.email.GetOr(email),
           p.firstName.GetOr(firstName), p.lastName.GetOr(lastName),
           p.profilePicture.GetOr(profilePicture), p.createdAt.GetOr(createdAt))
    }
  }

  /** The fields of `InsertUser`. */
  datatype NewUser = NewUser(username: string, password: string, email: string, firstName: string, lastName: string)

  datatype UserPatch = UserPatch(username: Option<string>, password: Option<string>, email: Option<string>,
                                 firstName: Option<string>, lastName: Option<string>,
                                 profilePicture: Option<Option<string>>, createdAt: Option<Instant>)

  datatype UserSettings = UserSettings(id: nat, userId: nat, theme: string, highContrast: bool,
                                       language: string, createdAt: Instant, updatedAt: Instant)
  {
    function Patched(p: SettingsPatch, now: Instant): (r: UserSettings)
      ensures r.id == id && r.userId == userId
    {
      UserSettings(id, userId, p.theme.GetOr(theme), p.highContrast.GetOr(highContrast),
                   p.language.GetOr(language), createdAt, now)
    }
  }

  datatype SettingsPatch = SettingsPatch(theme: Option<string>, highContrast: Option<bool>, language: Option<string>)

  /** `userId == None` marks a system category shared by every user. */
  datatype Category = Category(id: nat, name: string, icon: string, color: string, isIncome: bool,
                               userId: Option<nat>)
  {
    function Patched(p: CategoryPatch): (r: Category)
      ensures r.id == id
    {
      Category(id, p.name.GetOr(name), p.icon.GetOr(icon), p.color.GetOr(color),
               p.isIncome.GetOr(isIncome), p.userId.GetOr(userId))
    }
  }

  datatype CategoryPatch = CategoryPatch(name: Option<string>, icon: Option<string>, color: Option<string>,
                                         isIncome: Option<bool>, userId: Option<Option<nat>>)

  /** `amount` is a magnitude; `isIncome` says which way it goes. */
  datatype Transaction = Transaction(id: nat, userId: nat, categoryId: Option<nat>, amount: int,
                                     description: string, date: Date, isIncome: bool)
  {
    function Patched(p: TransactionPatch): (r: Transaction)
      ensures r.id == id
    {
      Transaction(id, p.userId.GetOr(userId), p.categoryId.GetOr(categoryId), p.amount.GetOr(amount),
                  p.description.GetOr(description), p.date.GetOr(date), p.isIncome.GetOr(isIncome))
    }
  }

  datatype TransactionPatch = TransactionPatch(userId: Option<nat>, categoryId: Option<Option<nat>>,
                                               amount: Option<int>, description: Option<string>,
                                               date: Option<Date>, isIncome: Option<bool>)

  datatype Budget = Budget(id: nat, userId: nat, categoryId: Option<nat>, amount: int, period: string,
                           startDate: Date, endDate: Option<Date>)
  {
    function Patched(p: BudgetPatch): (r: Budget)
      ensures r.id == id
    {
      Budget(id, p.userId.GetOr(userId), p.categoryId.GetOr(categoryId), p.amount.GetOr(amount),
             p.period.GetOr(period), p.startDate.GetOr(startDate), p.endDate.GetOr(endDate))
    }
  }

  datatype BudgetPatch = BudgetPatch(userId: Option<nat>, categoryId: Option<Option<nat>>, amount: Option<int>,
                                     period: Option<string>, startDate: Option<Date>,
                                     endDate: Option<Option<Date>>)

  datatype Goal = Goal(id: nat, userId: nat, name: string, targetAmount: int, currentAmount: int,
                       dueDate: Option<Date>, isCompleted: bool)
  {
    function Patched(p: GoalPatch): (r: Goal)
      ensures r.id == id
    {
      Goal(id, p.userId.GetOr(userId), p.name.GetOr(name), p.targetAmount.GetOr(targetAmount),
           p.currentAmount.GetOr(currentAmount), p.dueDate.GetOr(dueDate), p.isCompleted.GetOr(isCompleted))
    }
  }

  datatype GoalPatch = GoalPatch(userId: Option<nat>, name: Option<string>, targetAmount: Option<int>,
                                 currentAmount: Option<int>, dueDate: Option<Option<Date>>,
                                 isCompleted: Option<bool>)

  datatype Reminder = Reminder(id: nat, userId: nat, title: string, amount: Option<int>, dueDate: Date,
                               isRecurring: bool, frequency: Option<string>, categoryId: Option<nat>,
                               notificationSent: bool)
  {
    function Patched(p: ReminderPatch): (r: Reminder)
      ensures r.id == id
    {
      Reminder(id, p.userId.GetOr(userId), p.title.GetOr(title), p.amount.GetOr(amount),
               p.dueDate.GetOr(dueDate), p.isRecurring.GetOr(isRecurring), p.frequency.GetOr(frequency),
               p.categoryId.GetOr(categoryId), p.notificationSent.GetOr(notificationSent))
    }
  }

  datatype ReminderPatch = ReminderPatch(userId: Option<nat>, title: Option<string>, amount: Option<Option<int>>,
                                         dueDate: Option<Date>, isRecurring: Option<bool>,
                                         frequency: Option<Option<string>>, categoryId: Option<Option<nat>>,
                                         notificationSent: Option<bool>)

  /** `columnMapping` and `autoCategories` are JSON documents, kept as text. */
  datatype CsvSetting = CsvSetting(id: nat, userId: nat, bankName: Option<string>, columnMapping: Option<string>,
                                   skipHeader: bool, autoCategories: Option<string>)
  {
    function Patched(p: CsvSettingPatch): (r: CsvSetting)
      ensures r.id == id && r.userId == userId
    {
      CsvSetting(id, userId, p.bankName.GetOr(bankName), p.columnMapping.GetOr(columnMapping),
                 p.skipHeader.GetOr(skipHeader), p.autoCategories.GetOr(autoCategories))
    }
  }

  datatype CsvSettingPatch = CsvSettingPatch(bankName: Option<Option<string>>, columnMapping: Option<Option<string>>,
                                             skipHeader: Option<bool>, autoCategories: Option<Option<string>>)

  /** One of the categories every store starts with. */
  datatype CategorySeed = CategorySeed(name: string, icon: string, color: string, isIncome: bool)

  /** `createDefaultCategories`: the seeds in creation order; only "Income"
      counts as income. */
  const DefaultCategorySeeds: seq<CategorySeed> := [
    CategorySeed("Income", "trending_up", "#66BB6A", true),
    CategorySeed("Groceries", "shopping_bag", "#42A5F5", false),
    CategorySeed("Dining", "restaurant", "#AB47BC", false),
    CategorySeed("Transportation", "directions_car", "#FFA726", false),
    CategorySeed("Housing", "home", "#1976D2", false),
    CategorySeed("Utilities", "power", "#EF5350", false),
    CategorySeed("Entertainment", "local_movies", "#EC407A", false),
    CategorySeed("Shopping", "shopping_cart", "#7E57C2", false),
    CategorySeed("Health", "favorite", "#26A69A", false),
    CategorySeed("Other", "more_horiz", "#78909C", false)
  ]

  /** The system category made from a seed: no owner. */
  function SystemCategory(id: nat, s: CategorySeed): (c: Category)
    ensures c.id == id && c.userId == None
  {
    Category(id, s.name, s.icon, s.color, s.isIncome, None)
  }

  /** The system categories of a fresh store, in id order 1..10. */
  function StartCategories(): (r: seq<Category>)
    ensures |r| == |DefaultCategorySeeds|
    ensures forall i :: 0 <= i < |r| ==> r[i] == SystemCategory(i + 1, DefaultCategorySeeds[i])
  {
    seq(|DefaultCategorySeeds|, i requires 0 <= i < |DefaultCategorySeeds| => SystemCategory(i + 1, DefaultCategorySeeds[i]))
  }

  /** A fresh store holds ten ownerless categories with ids 1 to 10, and
      only the first, "Income", is an income category. */
  lemma StartCategoriesShape()
    ensures |StartCategories()| == 10
    ensures forall i :: 0 <= i < 10 ==> StartCategories()[i].id == i + 1 && StartCategories()[i].userId == None
    ensures forall i :: 0 <= i < 10 ==> (StartCategories()[i].isIncome <==> i == 0)
    ensures StartCategories()[0].name == "Income"
  {
  }

  /** A patch that supplies no field. */
  const NoTransactionChange: TransactionPatch := TransactionPatch(None, None, None, None, None, None)

  /** Merging is idempotent, and merging nothing changes nothing. */
  lemma TransactionPatchLaws(t: Transaction, p: TransactionPatch)
    ensures t.Patched(p).Patched(p) == t.Patched(p)
    ensures t.Patched(NoTransactionChange) == t
  {
  }
}
