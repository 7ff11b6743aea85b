/** The dashboard page: reading the initial rows from the rendered list,
    the current month's statistics, the summary card arithmetic, and the
    add-transaction form that appends to the page's transaction list. */
module Dashboard {
  import opened JsValues
  import opened Strings
  import opened Calendar
  import opened Sorting
  import opened Ledger

  // ---------------------------------------------------------------- reading the rendered list

  /** The `.tx-amt` cell: its text, whether it has the `neg` class, and what
      `parseFloat` makes of the text once everything but digits, '.' and '-'
      is stripped. */
  datatype AmountCell = AmountCell(text: string, hasNegClass: bool, parsed: JsNumber)

  /** One `.tx-item`: the texts of its description and meta elements and
      its amount cell, each absent when the element is missing. */
  datatype DomItem = DomItem(desc: Option<string>, meta: Option<string>, amt: Option<AmountCell>)

  /** `classList.contains('neg') || /[-−]/.test(text)`. */
  predicate IsNegative(c: AmountCell) {
    c.hasNegClass || '-' in c.text || '\U{2212}' in c.text
  }

  /** The parsed amount, 0 when it is NaN. */
  function ParsedOrZero(c: AmountCell): real {
    if c.parsed.NaN? then 0.0 else c.parsed.value
  }

  /** `isNeg ? -Math.abs(Math.abs(amount)) : Math.abs(amount)`: the sign
      comes from the cell's markers alone, the magnitude from the number. */
  function SignedAmount(c: AmountCell): (r: real)
    ensures Abs(r) == Abs(ParsedOrZero(c))
    ensures IsNegative(c) ==> r <= 0.0
    ensures !IsNegative(c) ==> r >= 0.0
  {
    var a := ParsedOrZero(c);
    if IsNegative(c) then -Abs(Abs(a)) else Abs(a)
  }

  /** The row read from one item. `parseDate` stands for `new Date(text)`
      (None for an Invalid Date); `today` is the date of `new Date()`. */
  function ParseDomItem(item: DomItem, today: Date, parseDate: string -> Option<Date>): (t: ClientTx)
    ensures item.desc.None? ==> t.description == "\U{2014}"
    ensures item.meta.None? ==> t.category == "Other" && t.date == today
    ensures item.amt.None? ==> t.amount == 0.0
    ensures item.amt.Some? ==> t.amount == SignedAmount(item.amt.value)
  {
    var description := if item.desc.Some? then Trim(item.desc.value) else "\U{2014}";
    var categoryAndDate :=
      if item.meta.None? then ("Other", today)
      else
        var parts := Split(item.meta.value, '\U{00B7}');
        var datePart := Trim(if |parts| > 1 then parts[1] else "");
        var parsed := if datePart != "" then parseDate(datePart + " " + IntToString(today.year)) else None;
        (Trim(if parts[0] != "" then parts[0] else "Other"), if parsed.Some? then parsed.value else today);
    var amount := if item.amt.Some? then SignedAmount(item.amt.value) else 0.0;
    ClientTx(categoryAndDate.1, description, categoryAndDate.0, amount)
  }

  /** The rows of the items, in order. */
  function ParseItems(items: seq<DomItem>, today: Date, parseDate: string -> Option<Date>): (rows: seq<ClientTx>)
    ensures |rows| == |items|
  {
    if items == [] then []
    else ParseItems(Init(items), today, parseDate) + [ParseDomItem(Last(items), today, parseDate)]
  }

  lemma {:induction false} ParseItemsAt(items: seq<DomItem>, today: Date, parseDate: string -> Option<Date>, i: nat)
    requires i < |items|
    ensures ParseItems(items, today, parseDate)[i] == ParseDomItem(items[i], today, parseDate)
    decreases |items|
  {
    var rest := ParseItems(Init(items), today, parseDate);
    assert ParseItems(items, today, parseDate) == rest + [ParseDomItem(Last(items), today, parseDate)];
    if i < |items| - 1 {
      ParseItemsAt(Init(items), today, parseDate, i);
      assert Init(items)[i] == items[i];
    }
  }

  /** `parseDomTransactions()`: one row per item, in order; no list, no rows. */
  method ParseDomTransactions(list: Option<seq<DomItem>>, today: Date, parseDate: string -> Option<Date>)
    returns (rows: seq<ClientTx>)
    ensures list.None? ==> rows == []
    ensures list.Some? ==> |rows| == |list.value|
    ensures list.Some? ==> forall i :: 0 <= i < |rows| ==> rows[i] == ParseDomItem(list.value[i], today, parseDate)
  {
    if list.None? {
      return [];
    }
    var items := list.value;
    rows := [];
    var i := 0;
    while i < |items|
      invariant 0 <= i <= |items|
      invariant rows == ParseItems(items[..i], today, parseDate)
    {
      assert Init(items[..i + 1]) == items[..i] && Last(items[..i + 1]) == items[i];
      rows := rows + [ParseDomItem(items[i], today, parseDate)];
      i := i + 1;
    }
    assert items[..i] == items;
    forall j | 0 <= j < |rows|
      ensures rows[j] == ParseDomItem(items[j], today, parseDate)
    {
      ParseItemsAt(items, today, parseDate, j);
    }
  }

  // ---------------------------------------------------------------- the month's statistics

  datatype MonthStats = MonthStats(
    monthItems: seq<ClientTx>,
    income: real,
    expenses: real,
    net: real,
    byCat: seq<CatTotal>)

  /** `computeForCurrentMonth(list)` with `now` the current date: the items
      of the current month, their income (non-negative) and expenses
      (non-positive), the net, and the spending per category (an empty
      category read as 'Other') from largest to smallest, one entry per
      category, adding up to the absolute expenses. */
  method ComputeForCurrentMonth(list: seq<ClientTx>, now: Date) returns (m: MonthStats)
    ensures m.monthItems == InMonth(list, MonthKey(now))
    ensures m.income == SumPositive(m.monthItems) && m.income >= 0.0
    ensures m.expenses == SumNegative(m.monthItems) && m.expenses <= 0.0
    ensures m.net == m.income + m.expenses
    ensures SortedBy(m.byCat, TotalDesc)
    ensures multiset(m.byCat) == multiset(CategoryEntries(m.monthItems))
    ensures Categories(m.byCat) == SpendCategories(m.monthItems) && DistinctCategories(m.byCat)
    ensures forall e :: e in m.byCat ==> e.total == CategorySpend(m.monthItems, e.category) && e.total > 0.0
    ensures SumTotals(m.byCat) == -m.expenses
    // the sort is stable: entries with equal totals keep the Map's insertion order
    ensures forall z :: EquivClass(m.byCat, TotalDesc, z) == EquivClass(CategoryEntries(m.monthItems), TotalDesc, z)
  {
    var key := MonthKey(now);
    var monthItems := InMonth(list, key);
    var income := SumPositive(monthItems);
    var expenses := SumNegative(monthItems);
    var net := income + expenses;

    var byCatMap: seq<CatTotal> := [];
    var i := 0;
    while i < |monthItems|
      invariant 0 <= i <= |monthItems|
      invariant byCatMap == CategoryEntries(monthItems[..i])
    {
      var t := monthItems[i];
      CategoryEntriesStep(monthItems, i);
      if t.amount < 0.0 {
        var cat := CategoryOrOther(t.category);
        byCatMap := Bump(byCatMap, cat, Abs(t.amount));
      }
      i := i + 1;
    }
    assert monthItems[..i] == monthItems;

    var byCat := SortBy(byCatMap, TotalDesc);
    RankedSpending(monthItems);
    m := MonthStats(monthItems, income, expenses, net, byCat);
  }

  lemma CategoryEntriesStep(items: seq<ClientTx>, i: nat)
    requires i < |items|
    ensures CategoryEntries(items[..i + 1])
              == if items[i].amount < 0.0
                 then Bump(CategoryEntries(items[..i]), CategoryOrOther(items[i].category), Abs(items[i].amount))
                 else CategoryEntries(items[..i])
  {
    assert Init(items[..i + 1]) == items[..i];
    assert Last(items[..i + 1]) == items[i];
  }

  /** The month's category entries ranked by total: ordered from largest to
      smallest, the same entries, one per spending category, each the
      category's spend, adding up to the absolute expenses; entries with
      equal totals stay in the order their categories were first seen. */
  lemma RankedSpending(items: seq<ClientTx>)
    ensures var byCat := SortBy(CategoryEntries(items), TotalDesc);
      && SortedBy(byCat, TotalDesc)
      && multiset(byCat) == multiset(CategoryEntries(items))
      && Categories(byCat) == SpendCategories(items) && DistinctCategories(byCat)
      && (forall e :: e in byCat ==> e.total == CategorySpend(items, e.category) && e.total > 0.0)
      && SumTotals(byCat) == -SumNegative(items)
      && (forall z :: EquivClass(byCat, TotalDesc, z) == EquivClass(CategoryEntries(items), TotalDesc, z))
  {
    var entries := CategoryEntries(items);
    var byCat := SortBy(entries, TotalDesc);
    TotalDescPreorder();
    SortBySorted(entries, TotalDesc);
    CategoryEntriesFacts(items, "");
    SortKeepsEntries(entries, TotalDesc);
    forall e | e in byCat
      ensures e.total == CategorySpend(items, e.category) && e.total > 0.0
    {
      SortByMembers(entries, TotalDesc, e);
      EntriesAreSpends(items, e);
    }
    forall z ensures EquivClass(byCat, TotalDesc, z) == EquivClass(entries, TotalDesc, z) {
      SortByStable(entries, TotalDesc, z);
    }
  }

  // ---------------------------------------------------------------- the summary card

  const SavingsGoal: real := 2000.0

  /** A category budget: an amount, or `Infinity` for 'Income'. */
  datatype Limit = Capped(amount: real) | Unlimited

  const CategoryBudgets: map<string, Limit> := map[
    "Food" := Capped(500.0), "Transport" := Capped(150.0), "Rent" := Capped(1200.0),
    "Groceries" := Capped(300.0), "Entertainment" := Capped(120.0), "Utilities" := Capped(180.0),
    "Other" := Capped(200.0), "Income" := Unlimited]

  /** `byCat[0]?.category || "—"`. */
  function TopCategory(byCat: seq<CatTotal>): (r: string)
    ensures r != ""
    ensures byCat == [] ==> r == "\U{2014}"
    ensures byCat != [] && byCat[0].category != "" ==> r == byCat[0].category
  {
    if byCat != [] && byCat[0].category != "" then byCat[0].category else "\U{2014}"
  }

  /** `byCat[0]?.total || 0`. */
  function SpentTop(byCat: seq<CatTotal>): (r: real)
    ensures byCat == [] ==> r == 0.0
    ensures byCat != [] ==> r == byCat[0].total
  {
    if byCat != [] then byCat[0].total else 0.0
  }

  /** What the remaining-budget line shows: nothing without a budget for the
      top category, otherwise what is left of it, never below 0. */
  datatype Remaining = NoBudget | Left(amount: real) | LeftUnlimited

  function RemainingForTop(byCat: seq<CatTotal>): (r: Remaining)
    ensures r.NoBudget? <==> TopCategory(byCat) !in CategoryBudgets
    ensures r.LeftUnlimited? <==> TopCategory(byCat) == "Income"
    ensures r.Left? ==>
              && r.amount >= 0.0
              && r.amount >= CategoryBudgets[TopCategory(byCat)].amount - SpentTop(byCat)
              && (r.amount == 0.0 || r.amount == CategoryBudgets[TopCategory(byCat)].amount - SpentTop(byCat))
  {
    var top := TopCategory(byCat);
    if top !in CategoryBudgets then NoBudget
    else match CategoryBudgets[top]
      case Unlimited => LeftUnlimited
      case Capped(b) => Left(Max(b - SpentTop(byCat), 0.0))
  }

  /** The savings progress bar's width in percent. */
  function SavingsPct(net: real): (p: int)
    ensures 0 <= p <= 100
    ensures net <= 0.0 ==> p == 0
    ensures net >= SavingsGoal ==> p == 100
  {
    var n := Round(Max(0.0, net) / SavingsGoal * 100.0);
    if n > 100 then 100 else if n < 0 then 0 else n
  }

  /** More savings never shorten the bar. */
  lemma SavingsPctMonotone(a: real, b: real)
    requires a <= b
    ensures SavingsPct(a) <= SavingsPct(b)
  {
    RoundMonotone(Max(0.0, a) / SavingsGoal * 100.0, Max(0.0, b) / SavingsGoal * 100.0);
  }

  // ---------------------------------------------------------------- the add form

  const InvalidAddToast := "Please enter a valid amount and date."
  const AddedToast := "Transaction added!"
  const AddedElsewhereToast := "Added! (Not in this month\U{2019}s stats)"

  /** `!date || Number.isNaN(amt) || amt <= 0`. */
  predicate AddRejected(date: Option<Date>, amt: JsNumber) {
    date.None? || amt.NaN? || amt.value <= 0.0
  }

  /** The record the form appends: an income keeps the amount and goes under
      'Income'; anything else is an expense of `-|amt|` under the chosen
      category or 'Other'; a blank description becomes 'Income' or 'Expense'. */
  function NewRecord(date: Date, txType: string, catField: string, amt: real, descField: string): (r: ClientTx)
    requires amt > 0.0
    ensures r.date == date
    ensures txType == "income" ==> r.amount == amt && r.category == "Income"
    ensures txType != "income" ==> r.amount == -amt && r.category == CategoryOrOther(catField)
    ensures r.amount > 0.0 <==> txType == "income"
    ensures r.amount != 0.0 && Abs(r.amount) == amt
    ensures Trim(descField) != "" ==> r.description == Trim(descField)
    ensures Trim(descField) == "" ==> r.description == (if txType == "income" then "Income" else "Expense")
  {
    var signedAmount := if txType == "income" then amt else -Abs(amt);
    var desc := Trim(descField);
    ClientTx(date,
             if desc != "" then desc else if txType == "income" then "Income" else "Expense",
             if txType == "income" then "Income" else CategoryOrOther(catField),
             signedAmount)
  }

  /** `nowKey !== txKey ? ... : ...`. */
  function AddToast(now: Date, r: ClientTx): string {
    if MonthKey(now) != MonthKey(r.date) then AddedElsewhereToast else AddedToast
  }

  /** Appending a row changes the month's items exactly when the row is
      dated in that month, so the toast that says the new row is not in this
      month's statistics is telling the truth; when it is in the month, its
      amount reaches the income or the expenses and its category's spend. */
  lemma AppendedRowEffect(list: seq<ClientTx>, r: ClientTx, now: Date, k: string)
    ensures var key := MonthKey(now);
      && (AddToast(now, r) == AddedElsewhereToast ==> InMonth(list + [r], key) == InMonth(list, key))
      && (AddToast(now, r) == AddedToast ==> InMonth(list + [r], key) == InMonth(list, key) + [r])
    ensures var key := MonthKey(now);
      var before, after := InMonth(list, key), InMonth(list + [r], key);
      AddToast(now, r) == AddedToast ==>
        && SumPositive(after) == SumPositive(before) + (if r.amount > 0.0 then r.amount else 0.0)
        && SumNegative(after) == SumNegative(before) + (if r.amount < 0.0 then r.amount else 0.0)
        && CategorySpend(after, k) == CategorySpend(before, k)
             + (if r.amount < 0.0 && CategoryOrOther(r.category) == k then Abs(r.amount) else 0.0)
  {
    var key := MonthKey(now);
    assert Init(list + [r]) == list && Last(list + [r]) == r;
    if AddToast(now, r) == AddedToast {
      var after := InMonth(list + [r], key);
      assert after == InMonth(list, key) + [r];
      assert Init(after) == InMonth(list, key) && Last(after) == r;
    }
  }

  /** The page's state: `ALL_TX`. */
  class DashboardState {
    var allTx: seq<ClientTx>

    /** `init()`: the rows read from the page, or the mock rows when there are none. */
    constructor Start(fromDom: seq<ClientTx>, mock: seq<ClientTx>)
      ensures |fromDom| > 0 ==> allTx == fromDom
      ensures |fromDom| == 0 ==> allTx == mock
    {
      allTx := if |fromDom| > 0 then fromDom else mock;
    }

    /** The add form's submit handler: a missing date or an amount that is
        NaN or not positive leaves `ALL_TX` as it was; otherwise exactly one
        record is appended. Returns the toast text. */
    method SubmitAdd(date: Option<Date>, txType: string, catField: string, amt: JsNumber,
                     descField: string, now: Date)
      returns (toast: string)
      modifies this
      ensures AddRejected(date, amt) ==> allTx == old(allTx) && toast == InvalidAddToast
      ensures !AddRejected(date, amt) ==>
                var r := NewRecord(date.value, txType, catField, amt.value, descField);
                allTx == old(allTx) + [r] && toast == AddToast(now, r)
    {
      if AddRejected(date, amt) {
        return InvalidAddToast;
      }
      var r := NewRecord(date.value, txType, catField, amt.value, descField);
      allTx := allTx + [r];
      toast := AddToast(now, r);
    }
  }
}
