/** The keyword categoriser of `importTransactions` (server/storage.ts; the
    database store carries an identical copy). An income row goes to the
    first visible income category; an expense row goes to the category named
    by the first keyword-table entry that both mentions the description and
    names an existing category. */
module Categorizer {
  import opened Common
  import opened Records
  import opened Queries

  datatype KeywordEntry = KeywordEntry(name: string, keywords: seq<string>)

  /** The table, in the order `Object.entries` walks it. */
  const KeywordTable: seq<KeywordEntry> := [
    KeywordEntry("groceries", ["grocery", "supermarket", "food", "market", "walmart", "kroger", "target", "costco", "aldi"]),
    KeywordEntry("dining", ["restaurant", "cafe", "coffee", "burger", "pizza", "grill", "starbucks", "mcdonald"]),
    KeywordEntry("transportation", ["gas", "fuel", "uber", "lyft", "taxi", "transit", "train", "bus", "subway", "parking"]),
    KeywordEntry("utilities", ["utility", "electric", "water", "gas", "power", "internet", "bill", "phone", "cable"]),
    KeywordEntry("entertainment", ["movie", "theater", "netflix", "spotify", "disney", "amazon prime", "hulu", "ticket"]),
    KeywordEntry("shopping", ["amazon", "store", "mall", "shop", "online", "retail", "purchase"]),
    KeywordEntry("health", ["doctor", "pharmacy", "medical", "clinic", "hospital", "dental", "healthcare"]),
    KeywordEntry("housing", ["rent", "mortgage", "apartment", "home", "lease", "property"])
  ]

  /** `keywords.some(k => description.includes(k))` */
  predicate MentionsAny(description: string, keywords: seq<string>) {
    exists i :: 0 <= i < |keywords| && Contains(description, keywords[i])
  }

  /** `categories.find(c => c.name.toLowerCase() === name.toLowerCase())` */
  function NamedCategory(cats: seq<Category>, name: string): (r: Option<Category>)
    ensures r.Some? ==> r.value in cats && EqualsIgnoreCase(r.value.name, name)
    ensures r.None? <==> forall j :: 0 <= j < |cats| ==> !EqualsIgnoreCase(cats[j].name, name)
    ensures r.Some? ==> exists i :: 0 <= i < |cats| && cats[i] == r.value
                                    && forall j :: 0 <= j < i ==> !EqualsIgnoreCase(cats[j].name, name)
  {
    Find(cats, (c: Category) => EqualsIgnoreCase(c.name, name))
  }

  /** An entry decides the category when one of its keywords occurs and a
      category of its name exists; otherwise the loop goes on. */
  predicate Applies(cats: seq<Category>, description: string, e: KeywordEntry) {
    MentionsAny(description, e.keywords) && NamedCategory(cats, e.name).Some?
  }

  /** The category the keyword loop settles on for a lowercased description,
      walking `table` (always `KeywordTable` in the store). */
  function KeywordCategory(cats: seq<Category>, description: string, table: seq<KeywordEntry>): (r: Option<nat>)
    ensures r.None? <==> forall k :: 0 <= k < |table| ==> !Applies(cats, description, table[k])
    ensures r.Some? ==> exists k :: 0 <= k < |table| && Applies(cats, description, table[k])
                                    && (forall j :: 0 <= j < k ==> !Applies(cats, description, table[j]))
                                    && r.value == NamedCategory(cats, table[k].name).value.id
  {
    var k := FirstWhere(table, (e: KeywordEntry) => Applies(cats, description, e));
    if k == -1 then None else Some(NamedCategory(cats, table[k].name).value.id)
  }

  /** The category an imported row gets, given the user's visible
      categories: none without a (non-empty) description; the first income
      category for an income row; the keyword match otherwise. */
  function CategoryFor(cats: seq<Category>, description: Option<string>, isIncome: Option<bool>,
                       table: seq<KeywordEntry>): Option<nat>
  {
    if !Given(description) then None
    else if isIncome == Some(true) then
      var j := FirstWhere(cats, (c: Category) => c.isIncome);
      if j == -1 then None else Some(cats[j].id)
    else KeywordCategory(cats, ToLower(description.value), table)
  }

  /** What `CategoryFor` decides, case by case. */
  lemma CategoryForCases(cats: seq<Category>, description: Option<string>, isIncome: Option<bool>,
                         table: seq<KeywordEntry>)
    ensures var r := CategoryFor(cats, description, isIncome, table);
      && (!Given(description) ==> r == None)
      && (Given(description) && isIncome == Some(true) ==>
            (r.None? <==> forall j :: 0 <= j < |cats| ==> !cats[j].isIncome))
      && (Given(description) && isIncome == Some(true) && r.Some? ==>
            exists j :: 0 <= j < |cats| && cats[j].isIncome && cats[j].id == r.value
                        && forall i :: 0 <= i < j ==> !cats[i].isIncome)
      && (Given(description) && isIncome != Some(true) ==>
            r == KeywordCategory(cats, ToLower(description.value), table))
  {
  }

  /** The categorising part of the import loop body. */
  method AssignCategory(cats: seq<Category>, description: Option<string>, isIncome: Option<bool>,
                        table: seq<KeywordEntry>)
    returns (categoryId: Option<nat>)
    ensures categoryId == CategoryFor(cats, description, isIncome, table)
  {
    categoryId := None;
    if Given(description) {
      var lowered := ToLower(description.value);
      if isIncome == Some(true) {
        var incomeCategory := Find(cats, (c: Category) => c.isIncome);
        if incomeCategory.Some? {
          categoryId := Some(incomeCategory.value.id);
        }
      } else {
        categoryId := MatchKeywords(cats, lowered, table);
      }
    }
  }

  /** The keyword loop, with its `break` at the first entry that applies. */
  method MatchKeywords(cats: seq<Category>, description: string, table: seq<KeywordEntry>)
    returns (categoryId: Option<nat>)
    ensures categoryId == KeywordCategory(cats, description, table)
  {
    var i := 0;
    while i < |table|
      invariant 0 <= i <= |table|
      invariant forall j :: 0 <= j < i ==> !Applies(cats, description, table[j])
    {
      var entry := table[i];
      if MentionsAny(description, entry.keywords) {
        var matched := NamedCategory(cats, entry.name);
        if matched.Some? {
          FirstApplicable(cats, description, table, i);
          return Some(matched.value.id);
        }
      }
      i := i + 1;
    }
    return None;
  }

  /** An entry that applies after none did is the one the table lookup
      picks. */
  lemma FirstApplicable(cats: seq<Category>, description: string, table: seq<KeywordEntry>, i: nat)
    requires i < |table| && Applies(cats, description, table[i])
    requires forall j :: 0 <= j < i ==> !Applies(cats, description, table[j])
    ensures KeywordCategory(cats, description, table) == Some(NamedCategory(cats, table[i].name).value.id)
  {
  }

  /** Whatever the categories and the table, an entry that applies means
      the lookup settles on it or on an earlier entry that also applies; an
      entry after it never decides. */
  lemma EarlierEntryDecides(cats: seq<Category>, description: string, table: seq<KeywordEntry>, j: nat)
    requires j < |table| && Applies(cats, description, table[j])
    ensures KeywordCategory(cats, description, table).Some?
    ensures exists m :: 0 <= m <= j && Applies(cats, description, table[m])
                        && KeywordCategory(cats, description, table) == Some(NamedCategory(cats, table[m].name).value.id)
  {
    var k := FirstWhere(table, (e: KeywordEntry) => Applies(cats, description, e));
    assert 0 <= k <= j;
    FirstApplicable(cats, description, table, k);
  }

  /** A keyword longer than the text never occurs in it. */
  lemma {:induction false} LongerNeverContained(s: string, sub: string)
    requires |s| < |sub|
    ensures !Contains(s, sub)
  {
    if s != [] {
      LongerNeverContained(s[1..], sub);
    }
  }

  /** Only the transportation entry of the first three mentions "gas". */
  lemma GasMentions()
    ensures forall k :: 0 <= k < 2 ==> !MentionsAny("gas", KeywordTable[k].keywords)
    ensures MentionsAny("gas", KeywordTable[2].keywords)
  {
    forall k, i | 0 <= k < 2 && 0 <= i < |KeywordTable[k].keywords|
      ensures !Contains("gas", KeywordTable[k].keywords[i])
    {
      LongerNeverContained("gas", KeywordTable[k].keywords[i]);
    }
    assert Contains("gas", KeywordTable[2].keywords[0]);
  }

  lemma SameLowerLetters(a: string, b: string)
    requires |a| == |b| && forall i :: 0 <= i < |a| ==> LowerChar(a[i]) == LowerChar(b[i])
    ensures EqualsIgnoreCase(a, b)
  {
  }

  lemma LengthsDiffer(a: string, b: string)
    requires |a| != |b|
    ensures !EqualsIgnoreCase(a, b)
  {
  }

  /** In a fresh store the fourth category answers to "transportation". */
  lemma TransportationNamed()
    ensures NamedCategory(StartCategories(), "transportation") == Some(StartCategories()[3])
  {
    var cats := StartCategories();
    SameLowerLetters(cats[3].name, "transportation");
    assert cats[0].name == "Income" && cats[1].name == "Groceries" && cats[2].name == "Dining";
    LengthsDiffer(cats[0].name, "transportation");
    LengthsDiffer(cats[1].name, "transportation");
    LengthsDiffer(cats[2].name, "transportation");
  }

  /** Of the first three entries only transportation applies to "gas". */
  lemma GasApplies()
    ensures Applies(StartCategories(), "gas", KeywordTable[2])
  {
    var e := KeywordTable[2];
    assert e.name == "transportation";
    GasMentions();
    assert MentionsAny("gas", e.keywords);
    TransportationNamed();
    assert NamedCategory(StartCategories(), e.name).Some?;
  }

  lemma GasNotEarlier()
    ensures forall j :: 0 <= j < 2 ==> !Applies(StartCategories(), "gas", KeywordTable[j])
  {
    GasMentions();
  }

  lemma GasKeyword()
    ensures KeywordCategory(StartCategories(), "gas", KeywordTable) == Some(4)
  {
    GasApplies();
    GasNotEarlier();
    FirstApplicable(StartCategories(), "gas", KeywordTable, 2);
    TransportationNamed();
    assert KeywordTable[2].name == "transportation";
  }

  /** "gas" is a keyword of both transportation and utilities; table order
      sends it to Transportation (id 4 in a fresh store). */
  lemma GasIsTransportation()
    ensures CategoryFor(StartCategories(), Some("Gas"), Some(false), KeywordTable) == Some(4)
  {
    assert ToLower("Gas") == "gas";
    GasKeyword();
  }
}
