/** The read side of the in-memory store (server/storage.ts): listing a
    table in insertion order, the per-user filters, the transaction query
    with its newest-first sort and category enrichment, and the reminder
    window. Everything here works on values; the store class applies it to
    its maps. */
module Queries {
  import opened Common
  import opened Records

  // ---------------------------------------------------------------------------
  // Listing a table

  /** `Array.from(map.values())` for a table whose keys were all drawn from a
      counter below `bound`. A JavaScript Map lists entries in insertion
      order; ids come from an increasing counter and an update re-sets an
      existing key in place, so insertion order is ascending id order. */
  function Ordered<T>(m: map<nat, T>, bound: nat): (r: seq<T>)
    ensures |r| <= bound
  {
    if bound == 0 then []
    else Ordered(m, bound - 1) + (if bound - 1 in m then [m[bound - 1]] else [])
  }

  /** Two tables that agree below `bound` list the same values. */
  lemma {:induction false} OrderedAgree<T>(m1: map<nat, T>, m2: map<nat, T>, bound: nat)
    requires forall k :: k < bound ==> (k in m1 <==> k in m2)
    requires forall k :: k < bound && k in m1 ==> m1[k] == m2[k]
    ensures Ordered(m1, bound) == Ordered(m2, bound)
  {
    if bound > 0 {
      OrderedAgree(m1, m2, bound - 1);
    }
  }

  /** A record stored under the counter's value is listed after every
      record already in the table. */
  lemma OrderedAppend<T>(m: map<nat, T>, bound: nat, x: T)
    requires forall k :: k in m ==> k < bound
    ensures Ordered(m[bound := x], bound + 1) == Ordered(m, bound) + [x]
  {
    OrderedAgree(m[bound := x], m, bound);
  }

  /** The listing holds exactly the values stored under keys below `bound`. */
  lemma {:induction false} OrderedMembers<T>(m: map<nat, T>, bound: nat)
    ensures forall k :: k in m && k < bound ==> m[k] in Ordered(m, bound)
    ensures forall x :: x in Ordered(m, bound) ==> exists k :: k in m && k < bound && m[k] == x
  {
    if bound > 0 {
      OrderedMembers(m, bound - 1);
    }
  }

  /** When every key lies below `bound`, the listing holds exactly the
      table's values. */
  lemma OrderedValues<T>(m: map<nat, T>, bound: nat)
    requires forall k :: k in m ==> k < bound
    ensures forall x :: x in Ordered(m, bound) <==> x in m.Values
  {
    OrderedMembers(m, bound);
  }

  // ---------------------------------------------------------------------------
  // filter and find

  /** `s.filter(p)`, peeled from the end. */
  function Where<T(!new)>(s: seq<T>, p: T -> bool): (r: seq<T>)
    ensures |r| <= |s|
    ensures forall x :: x in r <==> x in s && p(x)
  {
    if s == [] then []
    else
      assert s == s[..|s| - 1] + [s[|s| - 1]];
      Where(s[..|s| - 1], p) + (if p(s[|s| - 1]) then [s[|s| - 1]] else [])
  }

  /** Filtering distributes over concatenation, so a filter keeps order. */
  lemma {:induction false} WhereConcat<T(!new)>(a: seq<T>, b: seq<T>, p: T -> bool)
    ensures Where(a + b, p) == Where(a, p) + Where(b, p)
  {
    if b != [] {
      var b' := b[..|b| - 1];
      assert (a + b)[..|a + b| - 1] == a + b';
      WhereConcat(a, b', p);
    } else {
      assert a + b == a;
    }
  }

  /** Filters that agree on the elements give the same result. */
  lemma {:induction false} WhereAgree<T(!new)>(s: seq<T>, p: T -> bool, q: T -> bool)
    requires forall i :: 0 <= i < |s| ==> p(s[i]) == q(s[i])
    ensures Where(s, p) == Where(s, q)
  {
    if s != [] {
      WhereAgree(s[..|s| - 1], p, q);
    }
  }

  /** The index `s.find(p)` stops at, or -1. */
  function FirstWhere<T>(s: seq<T>, p: T -> bool): (i: int)
    ensures -1 <= i < |s|
    ensures 0 <= i ==> p(s[i])
    ensures forall j :: 0 <= j < |s| && (i == -1 || j < i) ==> !p(s[j])
  {
    if s == [] then -1
    else if p(s[0]) then 0
    else
      var k := FirstWhere(s[1..], p);
      if k == -1 then -1 else k + 1
  }

  /** `s.find(p)`. */
  function Find<T>(s: seq<T>, p: T -> bool): (r: Option<T>)
    ensures r.None? <==> forall j :: 0 <= j < |s| ==> !p(s[j])
    ensures r.Some? ==> p(r.value) && r.value in s
    ensures r.Some? ==> exists i :: 0 <= i < |s| && s[i] == r.value && forall j :: 0 <= j < i ==> !p(s[j])
  {
    var i := FirstWhere(s, p);
    if i == -1 then None else Some(s[i])
  }

  /** Finding in a concatenation looks in the second part only when the
      first has no match. */
  lemma FindConcat<T>(a: seq<T>, b: seq<T>, p: T -> bool)
    ensures Find(a + b, p) == if Find(a, p).Some? then Find(a, p) else Find(b, p)
  {
    var i := FirstWhere(a + b, p);
    var ia := FirstWhere(a, p);
    var ib := FirstWhere(b, p);
    if ia != -1 {
      assert (a + b)[ia] == a[ia];
      assert i == ia;
    } else if ib != -1 {
      assert (a + b)[|a| + ib] == b[ib];
      assert forall j :: 0 <= j < |a| ==> (a + b)[j] == a[j];
      assert i == |a| + ib;
    } else {
      assert forall j :: 0 <= j < |a + b| ==> !p((a + b)[j]) by {
        forall j | 0 <= j < |a + b|
          ensures !p((a + b)[j])
        {
          if j < |a| { assert (a + b)[j] == a[j]; } else { assert (a + b)[j] == b[j - |a|]; }
        }
      }
    }
  }

  /** `find` over a table's listing returns the value under the smallest
      key whose value matches: Map order is key order here. */
  lemma {:induction false} FindOrdered<T>(m: map<nat, T>, bound: nat, p: T -> bool)
    ensures Find(Ordered(m, bound), p).Some? ==>
              exists k :: k in m && k < bound && m[k] == Find(Ordered(m, bound), p).value
                          && forall j :: j in m && j < k ==> !p(m[j])
  {
    if bound > 0 {
      var tail := if bound - 1 in m then [m[bound - 1]] else [];
      FindOrdered(m, bound - 1, p);
      FindConcat(Ordered(m, bound - 1), tail, p);
      var r := Find(Ordered(m, bound), p);
      if r.Some? && Find(Ordered(m, bound - 1), p).None? {
        OrderedMembers(m, bound - 1);
        assert m[bound - 1] == r.value;
        forall j | j in m && j < bound - 1
          ensures !p(m[j])
        {
          assert m[j] in Ordered(m, bound - 1);
        }
      }
    }
  }

  // ---------------------------------------------------------------------------
  // Per-user listings

  /** `getCategories`: the user's own categories and the system ones. */
  function CategoriesOf(cats: seq<Category>, userId: nat): (r: seq<Category>)
    ensures forall c :: c in r <==> c in cats && (c.userId == Some(userId) || c.userId == None)
  {
    Where(cats, (c: Category) => c.userId == Some(userId) || c.userId == None)
  }

  /** `getBudgets`. The spending the source computes per budget is dropped
      before the result is returned, so the budgets come back as stored. */
  function BudgetsOf(budgets: seq<Budget>, userId: nat): (r: seq<Budget>)
    ensures forall b :: b in r <==> b in budgets && b.userId == userId
  {
    Where(budgets, (b: Budget) => b.userId == userId)
  }

  function GoalsOf(goals: seq<Goal>, userId: nat): (r: seq<Goal>)
    ensures forall g :: g in r <==> g in goals && g.userId == userId
  {
    Where(goals, (g: Goal) => g.userId == userId)
  }

  function RemindersOf(reminders: seq<Reminder>, userId: nat): (r: seq<Reminder>)
    ensures forall x :: x in r <==> x in reminders && x.userId == userId
  {
    Where(reminders, (x: Reminder) => x.userId == userId)
  }

  /** The reminder is due inside [now, now + days]: `cutoff.setDate(+days)`
      advances by whole days of 86 400 000 ms. */
  predicate DueWithin(x: Reminder, now: Instant, days: int) {
    now <= DateMs(x.dueDate) <= now + days * MsPerDay
  }

  /** `getUpcomingReminders` (the route's default window is 7 days). */
  function UpcomingReminders(reminders: seq<Reminder>, userId: nat, now: Instant, days: int): (r: seq<Reminder>)
    ensures forall x :: x in r <==> x in reminders && x.userId == userId && DueWithin(x, now, days)
    ensures days < 0 ==> r == []
  {
    var r := Where(reminders, (x: Reminder) => x.userId == userId && DueWithin(x, now, days));
    assert days < 0 ==> days * MsPerDay < 0;
    assert r != [] ==> r[0] in r;
    r
  }

  // ---------------------------------------------------------------------------
  // getTransactions

  /** The optional filters of the query; the date bounds are the strings the
      client sends. */
  datatype TransactionFilters = TransactionFilters(fromDate: Option<string>, toDate: Option<string>,
                                                   categoryId: Option<nat>, search: Option<string>)

  const NoFilters: TransactionFilters := TransactionFilters(None, None, None, None)

  /** JavaScript truthiness of an optional string: present and not "". */
  predicate Given(s: Option<string>) {
    s.Some? && s.value != ""
  }

  /** `new Date(t.date) >= new Date(bound)`; an unreadable bound compares
      false against every date. */
  predicate OnOrAfter(t: Transaction, bound: string, parseDate: string -> Option<Date>) {
    parseDate(bound).Some? && DateLe(parseDate(bound).value, t.date)
  }

  predicate OnOrBefore(t: Transaction, bound: string, parseDate: string -> Option<Date>) {
    parseDate(bound).Some? && DateLe(t.date, parseDate(bound).value)
  }

  /** Everything a listed transaction satisfies: owner, both date bounds, the
      category (a 0 or absent id is no filter) and the case-insensitive
      search text. */
  predicate Matches(t: Transaction, userId: nat, f: TransactionFilters, parseDate: string -> Option<Date>) {
    && t.userId == userId
    && (Given(f.fromDate) ==> OnOrAfter(t, f.fromDate.value, parseDate))
    && (Given(f.toDate) ==> OnOrBefore(t, f.toDate.value, parseDate))
    && (f.categoryId.Some? && f.categoryId.value != 0 ==> t.categoryId == f.categoryId)
    && (Given(f.search) ==> Contains(ToLower(t.description), ToLower(f.search.value)))
  }

  /** The chain of `filter` calls, one per supplied filter. */
  function FilterTransactions(txs: seq<Transaction>, userId: nat, f: TransactionFilters,
                              parseDate: string -> Option<Date>): (r: seq<Transaction>)
    ensures forall t :: t in r <==> t in txs && Matches(t, userId, f, parseDate)
  {
    var mine := Where(txs, (t: Transaction) => t.userId == userId);
    var a := if Given(f.fromDate) then Where(mine, (t: Transaction) => OnOrAfter(t, f.fromDate.value, parseDate)) else mine;
    var b := if Given(f.toDate) then Where(a, (t: Transaction) => OnOrBefore(t, f.toDate.value, parseDate)) else a;
    var c := if f.categoryId.Some? && f.categoryId.value != 0 then Where(b, (t: Transaction) => t.categoryId == f.categoryId) else b;
    if Given(f.search) then Where(c, (t: Transaction) => Contains(ToLower(t.description), ToLower(f.search.value))) else c
  }

  // --- the sort -------------------------------------------------------------

  predicate NewestFirst(s: seq<Transaction>) {
    forall i, j :: 0 <= i < j < |s| ==> DateLe(s[j].date, s[i].date)
  }

  /** Places `x` after every element at least as new, so equal dates keep
      their order: `Array.prototype.sort` is stable. */
  function InsertByDate(r: seq<Transaction>, x: Transaction): (q: seq<Transaction>)
    ensures |q| == |r| + 1
  {
    if r == [] then [x]
    else if !DateLe(x.date, r[0].date) then [x] + r
    else [r[0]] + InsertByDate(r[1..], x)
  }

  /** `sort((a, b) => time(b) - time(a))`, as an insertion sort. */
  function SortNewestFirst(s: seq<Transaction>): (r: seq<Transaction>)
    ensures |r| == |s|
  {
    if s == [] then []
    else InsertByDate(SortNewestFirst(s[..|s| - 1]), s[|s| - 1])
  }

  /** Insertion adds `x` and keeps everything else. */
  lemma {:induction false} InsertByDatePermutes(r: seq<Transaction>, x: Transaction)
    ensures multiset(InsertByDate(r, x)) == multiset(r) + multiset{x}
  {
    if r != [] && DateLe(x.date, r[0].date) {
      InsertByDatePermutes(r[1..], x);
      assert r == [r[0]] + r[1..];
    }
  }

  /** The sort is a permutation. */
  lemma {:induction false} SortNewestFirstPermutes(s: seq<Transaction>)
    ensures multiset(SortNewestFirst(s)) == multiset(s)
  {
    if s != [] {
      SortNewestFirstPermutes(s[..|s| - 1]);
      InsertByDatePermutes(SortNewestFirst(s[..|s| - 1]), s[|s| - 1]);
      assert s == s[..|s| - 1] + [s[|s| - 1]];
    }
  }

  /** Putting in front an element at least as new as all others keeps the
      order. */
  lemma ConsNewestFirst(y: Transaction, q: seq<Transaction>)
    requires NewestFirst(q)
    requires forall j :: 0 <= j < |q| ==> DateLe(q[j].date, y.date)
    ensures NewestFirst([y] + q)
  {
  }

  lemma NewestFirstTail(r: seq<Transaction>)
    requires NewestFirst(r) && r != []
    ensures NewestFirst(r[1..])
  {
    var rest := r[1..];
    forall i, j | 0 <= i < j < |rest| ensures DateLe(rest[j].date, rest[i].date) {
      assert rest[i] == r[i + 1] && rest[j] == r[j + 1];
    }
  }

  /** Insertion adds `x` and nothing else. */
  lemma InsertByDateMembers(r: seq<Transaction>, x: Transaction, y: Transaction)
    requires y in InsertByDate(r, x)
    ensures y == x || y in r
  {
    InsertByDatePermutes(r, x);
    assert y in multiset(InsertByDate(r, x));
  }

  lemma {:induction false} InsertByDateSorted(r: seq<Transaction>, x: Transaction)
    requires NewestFirst(r)
    ensures NewestFirst(InsertByDate(r, x))
    ensures InsertByDate(r, x) != [] && (InsertByDate(r, x)[0] == x || InsertByDate(r, x)[0] == r[0])
  {
    if r != [] && DateLe(x.date, r[0].date) {
      var rest := r[1..];
      NewestFirstTail(r);
      InsertByDateSorted(rest, x);
      var q := InsertByDate(rest, x);
      forall j | 0 <= j < |q| ensures DateLe(q[j].date, r[0].date) {
        InsertByDateMembers(rest, x, q[j]);
        if q[j] != x {
          var k :| 0 <= k < |rest| && rest[k] == q[j];
          assert r[k + 1] == q[j];
        }
      }
      ConsNewestFirst(r[0], q);
    } else if r != [] {
      forall j | 0 <= j < |r| ensures DateLe(r[j].date, x.date) {
        DateLeTotalOrder(r[j].date, r[0].date, x.date);
        DateLeTotalOrder(x.date, r[0].date, r[j].date);
      }
      ConsNewestFirst(x, r);
    }
  }

  /** The result is ordered newest first. */
  lemma {:induction false} SortNewestFirstSorted(s: seq<Transaction>)
    ensures NewestFirst(SortNewestFirst(s))
  {
    if s != [] {
      SortNewestFirstSorted(s[..|s| - 1]);
      InsertByDateSorted(SortNewestFirst(s[..|s| - 1]), s[|s| - 1]);
    }
  }

  /** The transactions dated exactly `d`, in order. */
  function OnDate(s: seq<Transaction>, d: Date): seq<Transaction> {
    if s == [] then [] else (if s[0].date == d then [s[0]] else []) + OnDate(s[1..], d)
  }

  lemma {:induction false} OnDateConcat(a: seq<Transaction>, b: seq<Transaction>, d: Date)
    ensures OnDate(a + b, d) == OnDate(a, d) + OnDate(b, d)
  {
    if a != [] {
      assert (a + b)[1..] == a[1..] + b;
      OnDateConcat(a[1..], b, d);
    } else {
      assert a + b == b;
    }
  }

  lemma {:induction false} OnDateNone(s: seq<Transaction>, d: Date)
    requires forall i :: 0 <= i < |s| ==> s[i].date != d
    ensures OnDate(s, d) == []
  {
    if s != [] {
      OnDateNone(s[1..], d);
    }
  }

  lemma {:induction false} InsertByDateStable(r: seq<Transaction>, x: Transaction, d: Date)
    requires NewestFirst(r)
    ensures OnDate(InsertByDate(r, x), d) == OnDate(r, d) + OnDate([x], d)
  {
    if r == [] {
    } else if !DateLe(x.date, r[0].date) {
      assert InsertByDate(r, x) == [x] + r;
      OnDateConcat([x], r, d);
      if x.date == d {
        forall i | 0 <= i < |r| ensures r[i].date != d {
          DateLeTotalOrder(r[i].date, r[0].date, x.date);
        }
        OnDateNone(r, d);
      }
    } else {
      assert InsertByDate(r, x) == [r[0]] + InsertByDate(r[1..], x);
      NewestFirstTail(r);
      InsertByDateStable(r[1..], x, d);
      OnDateConcat([r[0]], InsertByDate(r[1..], x), d);
      OnDateConcat([r[0]], r[1..], d);
      assert [r[0]] + r[1..] == r;
    }
  }

  /** The sort is stable: transactions of the same day keep their relative
      order. */
  lemma {:induction false} SortNewestFirstStable(s: seq<Transaction>, d: Date)
    ensures OnDate(SortNewestFirst(s), d) == OnDate(s, d)
  {
    if s != [] {
      var init := s[..|s| - 1];
      SortNewestFirstStable(init, d);
      SortNewestFirstSorted(init);
      InsertByDateStable(SortNewestFirst(init), s[|s| - 1], d);
      OnDateConcat(init, [s[|s| - 1]], d);
      assert init + [s[|s| - 1]] == s;
    }
  }

  // --- enrichment -----------------------------------------------------------

  /** `TransactionWithCategory`: the transaction plus its category's name,
      color and icon when it has a category that still exists. */
  datatype TransactionView = TransactionView(tx: Transaction, categoryName: Option<string>,
                                             categoryColor: Option<string>, categoryIcon: Option<string>)

  function Describe(t: Transaction, cats: map<nat, Category>): (v: TransactionView)
    ensures v.tx == t
    ensures v.categoryName.Some? <==> t.categoryId.Some? && t.categoryId.value != 0 && t.categoryId.value in cats
    ensures v.categoryName.Some? ==> v.categoryName == Some(cats[t.categoryId.value].name)
                                     && v.categoryColor == Some(cats[t.categoryId.value].color)
                                     && v.categoryIcon == Some(cats[t.categoryId.value].icon)
    ensures v.categoryName.None? ==> v.categoryColor.None? && v.categoryIcon.None?
  {
    if t.categoryId.Some? && t.categoryId.value != 0 && t.categoryId.value in cats then
      var c := cats[t.categoryId.value];
      TransactionView(t, Some(c.name), Some(c.color), Some(c.icon))
    else
      TransactionView(t, None, None, None)
  }

  /** `getTransactions`: the matching transactions, newest first, each with
      its category. */
  function QueryTransactions(txs: seq<Transaction>, cats: map<nat, Category>, userId: nat,
                             f: TransactionFilters, parseDate: string -> Option<Date>): (r: seq<TransactionView>)
    ensures |r| == |FilterTransactions(txs, userId, f, parseDate)|
    ensures forall i :: 0 <= i < |r| ==> r[i] == Describe(r[i].tx, cats)
    ensures forall i, j :: 0 <= i < j < |r| ==> DateLe(r[j].tx.date, r[i].tx.date)
    ensures multiset(TxsOf(r)) == multiset(FilterTransactions(txs, userId, f, parseDate))
  {
    var s := SortNewestFirst(FilterTransactions(txs, userId, f, parseDate));
    SortNewestFirstSorted(FilterTransactions(txs, userId, f, parseDate));
    SortNewestFirstPermutes(FilterTransactions(txs, userId, f, parseDate));
    var r := seq(|s|, i requires 0 <= i < |s| => Describe(s[i], cats));
    assert TxsOf(r) == s;
    r
  }

  /** The transactions behind a listing. */
  function TxsOf(r: seq<TransactionView>): (s: seq<Transaction>)
    ensures |s| == |r| && forall i :: 0 <= i < |r| ==> s[i] == r[i].tx
  {
    seq(|r|, i requires 0 <= i < |r| => r[i].tx)
  }

  /** Every listed transaction is one of the user's and passes every filter,
      and every such transaction is listed. */
  lemma QueryTransactionsExact(txs: seq<Transaction>, cats: map<nat, Category>, userId: nat,
                               f: TransactionFilters, parseDate: string -> Option<Date>)
    ensures forall t :: t in TxsOf(QueryTransactions(txs, cats, userId, f, parseDate)) <==>
                        t in txs && Matches(t, userId, f, parseDate)
  {
    var r := QueryTransactions(txs, cats, userId, f, parseDate);
    var s := FilterTransactions(txs, userId, f, parseDate);
    forall t ensures t in TxsOf(r) <==> t in txs && Matches(t, userId, f, parseDate) {
      assert t in TxsOf(r) <==> t in multiset(TxsOf(r));
      assert t in s <==> t in multiset(s);
    }
  }

  /** The end index of `slice(0, limit)`: a negative limit counts from the
      end. */
  function SliceEnd(n: nat, limit: int): (e: nat)
    ensures e <= n
    ensures 0 <= limit ==> e == if limit < n then limit else n
    ensures limit < 0 ==> e == if n + limit < 0 then 0 else n + limit
  {
    if limit < 0 then (if n + limit < 0 then 0 else n + limit)
    else if limit < n then limit else n
  }

  /** `getRecentTransactions`: `slice(0, limit)` of the whole listing (the
      route's default is 5): the first `limit` entries, or for a negative
      limit all but the last `-limit`. */
  function RecentTransactions(txs: seq<Transaction>, cats: map<nat, Category>, userId: nat,
                              limit: int, parseDate: string -> Option<Date>): (r: seq<TransactionView>)
    ensures r <= QueryTransactions(txs, cats, userId, NoFilters, parseDate)
    ensures 0 <= limit ==> |r| == if limit < |QueryTransactions(txs, cats, userId, NoFilters, parseDate)| then limit
                                  else |QueryTransactions(txs, cats, userId, NoFilters, parseDate)|
    ensures limit < 0 ==> |r| == if |QueryTransactions(txs, cats, userId, NoFilters, parseDate)| + limit < 0 then 0
                                 else |QueryTransactions(txs, cats, userId, NoFilters, parseDate)| + limit
  {
    var all := QueryTransactions(txs, cats, userId, NoFilters, parseDate);
    all[..SliceEnd(|all|, limit)]
  }
}
