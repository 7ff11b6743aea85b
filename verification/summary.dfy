/** The monthly summary aggregation: the `$match` stage keeps one user's
    transactions (inside a month window when a month is given), and the three
    `$facet` branches are folds over what it keeps: the totals, the groups by
    category sorted by expense descending, and the groups by `YYYY-MM-DD` day
    sorted by key ascending. */
module Summary {
  import opened JsValues
  import opened Strings
  import opened Calendar
  import opened DateUtil
  import opened Records
  import opened Sorting

  datatype Totals = Totals(income: real, expense: real, net: real)

  /** One `$group` output document: its `_id`, the summed expense (as a
      positive number) and the summed income. */
  datatype Group = Group(key: string, expense: real, income: real)

  datatype MonthlySummary = MonthlySummary(totals: Totals, byCategory: seq<Group>, byDay: seq<Group>)

  datatype GroupKind = ByCategory | ByDay

  // ---------------------------------------------------------------- $match

  predicate Matches(t: Transaction, userId: string, f: DateFilter) {
    t.userId == userId && PassesDateFilter(t.date, f)
  }

  function Matching(txs: seq<Transaction>, userId: string, f: DateFilter): (r: seq<Transaction>)
    ensures forall t :: t in r <==> t in txs && Matches(t, userId, f)
    ensures |r| <= |txs|
  {
    if txs == [] then []
    else (if Matches(txs[0], userId, f) then [txs[0]] else []) + Matching(txs[1..], userId, f)
  }

  lemma {:induction false} MatchingConcat(a: seq<Transaction>, b: seq<Transaction>, userId: string, f: DateFilter)
    ensures Matching(a + b, userId, f) == Matching(a, userId, f) + Matching(b, userId, f)
    decreases |a|
  {
    if a != [] {
      assert (a + b)[0] == a[0];
      assert (a + b)[1..] == a[1..] + b;
      MatchingConcat(a[1..], b, userId, f);
      var head := if Matches(a[0], userId, f) then [a[0]] else [];
      assert Matching(a + b, userId, f) == head + Matching(a[1..] + b, userId, f);
      assert Matching(a, userId, f) == head + Matching(a[1..], userId, f);
    } else {
      assert a + b == b;
    }
  }

  // ---------------------------------------------------------------- totals

  /** `{ $cond: [{ $gt: ['$amount', 0] }, '$amount', 0] }` */
  function IncomePart(a: real): real {
    if a > 0.0 then a else 0.0
  }

  /** `{ $cond: [{ $lt: ['$amount', 0] }, { $multiply: ['$amount', -1] }, 0] }` */
  function ExpensePart(a: real): real {
    if a < 0.0 then -a else 0.0
  }

  /** The sum of the positive amounts. */
  function IncomeSum(txs: seq<Transaction>): (s: real)
    ensures s >= 0.0
  {
    if txs == [] then 0.0 else IncomePart(txs[0].amount) + IncomeSum(txs[1..])
  }

  /** The sum of the negative amounts (`$cond: [{ $lt: ['$amount', 0] }, '$amount', 0]`). */
  function NegativeSum(txs: seq<Transaction>): (s: real)
    ensures s <= 0.0
  {
    if txs == [] then 0.0
    else (if txs[0].amount < 0.0 then txs[0].amount else 0.0) + NegativeSum(txs[1..])
  }

  /** The `totals` facet: one `$group` over everything matched, then the
      `$project` that negates the expense and subtracts it from the income;
      no matched document leaves the facet empty and the default
      `{ income: 0, expense: 0, net: 0 }` applies. */
  function ComputeTotals(matched: seq<Transaction>): (t: Totals)
    ensures t.income >= 0.0 && t.expense >= 0.0
    ensures t.net == t.income - t.expense
    ensures t.income == IncomeSum(matched) && t.expense == -NegativeSum(matched)
  {
    if matched == [] then Totals(0.0, 0.0, 0.0)
    else
      var income := IncomeSum(matched);
      var expense := NegativeSum(matched);
      Totals(income, expense * -1.0, income - expense * -1.0)
  }

  /** An amount of exactly 0 adds to neither total. */
  lemma ZeroAmountIgnored(t: Transaction, rest: seq<Transaction>)
    requires t.amount == 0.0 && rest != []
    ensures ComputeTotals([t] + rest) == ComputeTotals(rest)
  {
    assert ([t] + rest)[1..] == rest;
  }

  // ---------------------------------------------------------------- $group

  /** `$dateToString` with `%Y`: the year as four digits, zero-padded. */
  function YearDigits(y: int): string {
    if y >= 0 then PadStart(NatToString(y), 4) else IntToString(y)
  }

  /** `{ $dateToString: { format: '%Y-%m-%d', date: '$date' } }` */
  function DayKey(d: Date): string {
    YearDigits(d.year) + "-" + PadStart2(IntToString(d.month)) + "-" + PadStart2(IntToString(d.day))
  }

  /** The `_id` expression of each grouping facet. */
  function KeyOf(t: Transaction, kind: GroupKind): string {
    match kind
    case ByCategory => t.category
    case ByDay => DayKey(t.date)
  }

  /** Adds one document to the accumulator of its group, opening the group
      when it is the first document with that key. */
  function AddTo(gs: seq<Group>, key: string, a: real): (r: seq<Group>)
    ensures |r| == |gs| || |r| == |gs| + 1
  {
    if gs == [] then [Group(key, ExpensePart(a), IncomePart(a))]
    else if gs[0].key == key then
      [Group(key, gs[0].expense + ExpensePart(a), gs[0].income + IncomePart(a))] + gs[1..]
    else [gs[0]] + AddTo(gs[1..], key, a)
  }

  /** A `$group` stage keyed by `kind`, in the model's (unspecified) output order. */
  function GroupBy(txs: seq<Transaction>, kind: GroupKind): seq<Group> {
    if txs == [] then []
    else AddTo(GroupBy(txs[1..], kind), KeyOf(txs[0], kind), txs[0].amount)
  }

  /** What a group's sums should be: the expense and the income of the
      documents whose key is `key`. */
  function GroupExpense(txs: seq<Transaction>, kind: GroupKind, key: string): real {
    if txs == [] then 0.0
    else (if KeyOf(txs[0], kind) == key then ExpensePart(txs[0].amount) else 0.0)
         + GroupExpense(txs[1..], kind, key)
  }

  function GroupIncome(txs: seq<Transaction>, kind: GroupKind, key: string): real {
    if txs == [] then 0.0
    else (if KeyOf(txs[0], kind) == key then IncomePart(txs[0].amount) else 0.0)
         + GroupIncome(txs[1..], kind, key)
  }

  /** The keys of the entries. */
  function KeySet(gs: seq<Group>): set<string> {
    if gs == [] then {} else {gs[0].key} + KeySet(gs[1..])
  }

  /** The keys of the documents. */
  function TxKeys(txs: seq<Transaction>, kind: GroupKind): set<string> {
    if txs == [] then {} else {KeyOf(txs[0], kind)} + TxKeys(txs[1..], kind)
  }

  /** No key occurs in two entries. */
  predicate DistinctKeys(gs: seq<Group>) {
    gs == [] || (gs[0].key !in KeySet(gs[1..]) && DistinctKeys(gs[1..]))
  }

  function SumExpense(gs: seq<Group>): real {
    if gs == [] then 0.0 else gs[0].expense + SumExpense(gs[1..])
  }

  function SumIncome(gs: seq<Group>): real {
    if gs == [] then 0.0 else gs[0].income + SumIncome(gs[1..])
  }

  /** The sums of the entries carrying key `k` (for distinct keys: of the one entry). */
  function ExpenseOf(gs: seq<Group>, k: string): real {
    if gs == [] then 0.0 else (if gs[0].key == k then gs[0].expense else 0.0) + ExpenseOf(gs[1..], k)
  }

  function IncomeOf(gs: seq<Group>, k: string): real {
    if gs == [] then 0.0 else (if gs[0].key == k then gs[0].income else 0.0) + IncomeOf(gs[1..], k)
  }

  lemma {:induction false} InKeySet(gs: seq<Group>, g: Group)
    requires g in gs
    ensures g.key in KeySet(gs)
    decreases |gs|
  {
    if gs[0] != g {
      InKeySet(gs[1..], g);
    }
  }

  lemma {:induction false} AddToKeys(gs: seq<Group>, key: string, a: real)
    ensures KeySet(AddTo(gs, key, a)) == KeySet(gs) + {key}
    ensures DistinctKeys(gs) ==> DistinctKeys(AddTo(gs, key, a))
    decreases |gs|
  {
    if gs != [] && gs[0].key != key {
      AddToKeys(gs[1..], key, a);
      assert AddTo(gs, key, a)[1..] == AddTo(gs[1..], key, a);
    } else if gs != [] {
      assert AddTo(gs, key, a)[1..] == gs[1..];
    }
  }

  lemma {:induction false} AddToSums(gs: seq<Group>, key: string, a: real)
    ensures SumExpense(AddTo(gs, key, a)) == SumExpense(gs) + ExpensePart(a)
    ensures SumIncome(AddTo(gs, key, a)) == SumIncome(gs) + IncomePart(a)
    decreases |gs|
  {
    if gs != [] && gs[0].key != key {
      AddToSums(gs[1..], key, a);
      assert AddTo(gs, key, a)[1..] == AddTo(gs[1..], key, a);
    } else if gs != [] {
      assert AddTo(gs, key, a)[1..] == gs[1..];
    }
  }

  lemma {:induction false} AddToLookup(gs: seq<Group>, key: string, a: real, k: string)
    ensures ExpenseOf(AddTo(gs, key, a), k) == ExpenseOf(gs, k) + (if k == key then ExpensePart(a) else 0.0)
    ensures IncomeOf(AddTo(gs, key, a), k) == IncomeOf(gs, k) + (if k == key then IncomePart(a) else 0.0)
    decreases |gs|
  {
    if gs != [] && gs[0].key != key {
      AddToLookup(gs[1..], key, a, k);
      assert AddTo(gs, key, a)[1..] == AddTo(gs[1..], key, a);
    } else if gs != [] {
      assert AddTo(gs, key, a)[1..] == gs[1..];
    }
  }

  /** Each grouping facet: one entry per distinct key of the matched
      documents, and the entries' sums adding up to the totals. */
  lemma {:induction false} GroupByFacts(txs: seq<Transaction>, kind: GroupKind)
    ensures KeySet(GroupBy(txs, kind)) == TxKeys(txs, kind)
    ensures DistinctKeys(GroupBy(txs, kind))
    ensures SumExpense(GroupBy(txs, kind)) == -NegativeSum(txs)
    ensures SumIncome(GroupBy(txs, kind)) == IncomeSum(txs)
    decreases |txs|
  {
    if txs != [] {
      GroupByFacts(txs[1..], kind);
      AddToKeys(GroupBy(txs[1..], kind), KeyOf(txs[0], kind), txs[0].amount);
      AddToSums(GroupBy(txs[1..], kind), KeyOf(txs[0], kind), txs[0].amount);
    }
  }

  /** Each entry of a grouping facet holds the sums of the documents with its key. */
  lemma {:induction false} GroupByLookup(txs: seq<Transaction>, kind: GroupKind, k: string)
    ensures ExpenseOf(GroupBy(txs, kind), k) == GroupExpense(txs, kind, k)
    ensures IncomeOf(GroupBy(txs, kind), k) == GroupIncome(txs, kind, k)
    decreases |txs|
  {
    if txs != [] {
      GroupByLookup(txs[1..], kind, k);
      AddToLookup(GroupBy(txs[1..], kind), KeyOf(txs[0], kind), txs[0].amount, k);
    }
  }

  /** With distinct keys, an entry's sums are the sums recorded for its key. */
  lemma {:induction false} EntryOfKey(gs: seq<Group>, g: Group)
    requires DistinctKeys(gs) && g in gs
    ensures ExpenseOf(gs, g.key) == g.expense
    ensures IncomeOf(gs, g.key) == g.income
    decreases |gs|
  {
    if gs[0] == g {
      AbsentKey(gs[1..], g.key);
    } else {
      InKeySet(gs[1..], g);
      EntryOfKey(gs[1..], g);
    }
  }

  lemma {:induction false} AbsentKey(gs: seq<Group>, k: string)
    requires k !in KeySet(gs)
    ensures ExpenseOf(gs, k) == 0.0 && IncomeOf(gs, k) == 0.0
    decreases |gs|
  {
    if gs != [] {
      AbsentKey(gs[1..], k);
    }
  }

  // ---------------------------------------------------------------- $sort

  /** `{ $sort: { expense: -1 } }` */
  function ExpenseDesc(a: Group, b: Group): bool {
    a.expense >= b.expense
  }

  /** `{ $sort: { _id: 1 } }` */
  function KeyAsc(a: Group, b: Group): bool {
    StrLe(a.key, b.key)
  }

  lemma ExpenseDescPreorder()
    ensures TotalPreorder(ExpenseDesc)
  {
  }

  lemma KeyAscPreorder()
    ensures TotalPreorder(KeyAsc)
  {
    forall a: Group, b: Group ensures KeyAsc(a, b) || KeyAsc(b, a) {
      StrLeTotal(a.key, b.key);
    }
    forall a: Group, b: Group, c: Group | KeyAsc(a, b) && KeyAsc(b, c) ensures KeyAsc(a, c) {
      StrLeTransitive(a.key, b.key, c.key);
    }
  }

  lemma {:induction false} InsertSums(x: Group, s: seq<Group>, le: (Group, Group) -> bool)
    ensures SumExpense(Insert(x, s, le)) == x.expense + SumExpense(s)
    ensures SumIncome(Insert(x, s, le)) == x.income + SumIncome(s)
    decreases |s|
  {
    if s != [] && !le(x, s[0]) {
      InsertSums(x, s[1..], le);
      assert Insert(x, s, le)[1..] == Insert(x, s[1..], le);
    } else if s != [] {
      assert Insert(x, s, le)[1..] == s;
    }
  }

  lemma {:induction false} InsertKeys(x: Group, s: seq<Group>, le: (Group, Group) -> bool)
    ensures KeySet(Insert(x, s, le)) == KeySet(s) + {x.key}
    ensures DistinctKeys(s) && x.key !in KeySet(s) ==> DistinctKeys(Insert(x, s, le))
    decreases |s|
  {
    if s != [] && !le(x, s[0]) {
      InsertKeys(x, s[1..], le);
      assert Insert(x, s, le)[1..] == Insert(x, s[1..], le);
    } else if s != [] {
      assert Insert(x, s, le)[1..] == s;
    }
  }

  /** Sorting the groups keeps their keys distinct and their sums. */
  lemma {:induction false} SortKeepsGroups(s: seq<Group>, le: (Group, Group) -> bool)
    ensures SumExpense(SortBy(s, le)) == SumExpense(s)
    ensures SumIncome(SortBy(s, le)) == SumIncome(s)
    ensures KeySet(SortBy(s, le)) == KeySet(s)
    ensures DistinctKeys(s) ==> DistinctKeys(SortBy(s, le))
    decreases |s|
  {
    if s != [] {
      SortKeepsGroups(s[1..], le);
      InsertSums(s[0], SortBy(s[1..], le), le);
      InsertKeys(s[0], SortBy(s[1..], le), le);
    }
  }

  // ---------------------------------------------------------------- the service

  /** The three facets over the matched documents. */
  function Facets(matched: seq<Transaction>): MonthlySummary {
    MonthlySummary(
      ComputeTotals(matched),
      SortBy(GroupBy(matched, ByCategory), ExpenseDesc),
      SortBy(GroupBy(matched, ByDay), KeyAsc))
  }

  /** `getMonthlySummary(userId, month)`. */
  function GetMonthlySummary(txs: seq<Transaction>, userId: string, month: Option<string>): MonthlySummary {
    Facets(Matching(txs, userId, MonthFilter(month)))
  }

  /** The facets agree with each other and with the matched documents. */
  lemma SummaryConsistent(txs: seq<Transaction>, userId: string, month: Option<string>)
    ensures var s := GetMonthlySummary(txs, userId, month);
      var matched := Matching(txs, userId, MonthFilter(month));
      // totals
      && s.totals.income >= 0.0 && s.totals.expense >= 0.0
      && s.totals.net == s.totals.income - s.totals.expense
      // one entry per distinct category / day of the matched documents
      && KeySet(s.byCategory) == TxKeys(matched, ByCategory) && DistinctKeys(s.byCategory)
      && KeySet(s.byDay) == TxKeys(matched, ByDay) && DistinctKeys(s.byDay)
      // each entry sums its own documents
      && (forall g :: g in s.byCategory ==>
            g.expense == GroupExpense(matched, ByCategory, g.key)
            && g.income == GroupIncome(matched, ByCategory, g.key))
      && (forall g :: g in s.byDay ==>
            g.expense == GroupExpense(matched, ByDay, g.key)
            && g.income == GroupIncome(matched, ByDay, g.key))
      // the entries add up to the totals
      && SumExpense(s.byCategory) == s.totals.expense && SumIncome(s.byCategory) == s.totals.income
      && SumExpense(s.byDay) == s.totals.expense && SumIncome(s.byDay) == s.totals.income
      // the two sort orders, over a permutation of the groups
      && SortedBy(s.byCategory, ExpenseDesc) && SortedBy(s.byDay, KeyAsc)
      && multiset(s.byCategory) == multiset(GroupBy(matched, ByCategory))
      && multiset(s.byDay) == multiset(GroupBy(matched, ByDay))
  {
    var matched := Matching(txs, userId, MonthFilter(month));
    var s := GetMonthlySummary(txs, userId, month);
    ExpenseDescPreorder();
    KeyAscPreorder();
    SortBySorted(GroupBy(matched, ByCategory), ExpenseDesc);
    SortBySorted(GroupBy(matched, ByDay), KeyAsc);
    GroupByFacts(matched, ByCategory);
    GroupByFacts(matched, ByDay);
    SortKeepsGroups(GroupBy(matched, ByCategory), ExpenseDesc);
    SortKeepsGroups(GroupBy(matched, ByDay), KeyAsc);
    forall g | g in s.byCategory
      ensures g.expense == GroupExpense(matched, ByCategory, g.key)
      ensures g.income == GroupIncome(matched, ByCategory, g.key)
    {
      var gs := GroupBy(matched, ByCategory);
      SortByMembers(gs, ExpenseDesc, g);
      EntryOfKey(gs, g);
      GroupByLookup(matched, ByCategory, g.key);
    }
    forall g | g in s.byDay
      ensures g.expense == GroupExpense(matched, ByDay, g.key)
      ensures g.income == GroupIncome(matched, ByDay, g.key)
    {
      var gs := GroupBy(matched, ByDay);
      SortByMembers(gs, KeyAsc, g);
      EntryOfKey(gs, g);
      GroupByLookup(matched, ByDay, g.key);
    }
  }

  /** No matched document: zero totals and empty breakdowns. */
  lemma SummaryOfNothing(txs: seq<Transaction>, userId: string, month: Option<string>)
    requires Matching(txs, userId, MonthFilter(month)) == []
    ensures GetMonthlySummary(txs, userId, month) == MonthlySummary(Totals(0.0, 0.0, 0.0), [], [])
  {
  }

  /** Another user's transaction, wherever it sits in the collection, does
      not change the summary. */
  lemma SummaryIgnoresOtherUsers(before: seq<Transaction>, t: Transaction, after: seq<Transaction>,
                                 userId: string, month: Option<string>)
    requires t.userId != userId
    ensures GetMonthlySummary(before + [t] + after, userId, month)
            == GetMonthlySummary(before + after, userId, month)
  {
    var f := MonthFilter(month);
    MatchingConcat(before + [t], after, userId, f);
    MatchingConcat(before, [t], userId, f);
    MatchingConcat(before, after, userId, f);
    assert Matching([t], userId, f) == [];
    assert Matching(before + [t] + after, userId, f) == Matching(before + after, userId, f);
  }

  /** For a well-formed month key, the summary counts exactly the user's
      transactions dated in that month. */
  lemma SummaryOfMonth(txs: seq<Transaction>, userId: string, y: int, m: int)
    requires y >= 0 && 1 <= m <= 12
    requires forall t :: t in txs ==> ValidDate(t.date)
    ensures forall t :: t in Matching(txs, userId, MonthFilter(Some(MonthKeyOf(y, m))))
              <==> t in txs && t.userId == userId && t.date.year == y && t.date.month == m
  {
    GetMonthRangeOfKey(y, m);
    forall t | t in txs
      ensures InWindow(t.date, MonthRange(y, m)) <==> t.date.year == y && t.date.month == m
    {
      InMonthRange(t.date, y, m);
    }
  }
}
