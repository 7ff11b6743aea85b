/** The budget-goal page: this month's spending against the saved goal, and
    the four largest spending categories of this month each compared with
    the same category last month. */
module BudgetGoal {
  import opened JsValues
  import opened Strings
  import opened Calendar
  import opened Sorting
  import opened Ledger

  /** `!goalAmount || goalAmount <= 0`: the page sends the user to set a goal
      unless the stored goal is a positive number. */
  function NeedsGoal(goal: JsNumber): (b: bool)
    ensures b <==> !(goal.Finite? && goal.value > 0.0)
  {
    !Truthy(goal) || goal.value <= 0.0
  }

  /** `mkey(new Date(now.getFullYear(), now.getMonth() - 1, 1))`. */
  function PrevMonthKey(now: Date): string {
    MonthKey(FirstOfMonth(now.year, now.month - 2))
  }

  /** The previous month of January is December of the year before. */
  lemma PrevMonthKeyRolls(now: Date)
    requires 1 <= now.month <= 12
    ensures PrevMonthKey(now) == if now.month == 1 then MonthKeyOf(now.year - 1, 12)
                                 else MonthKeyOf(now.year, now.month - 1)
  {
    var d := FirstOfMonth(now.year, now.month - 2);
    if now.month == 1 {
      FirstOfMonthUnique(now.year, now.month - 2, Date(now.year - 1, 12, 1));
    } else {
      FirstOfMonthUnique(now.year, now.month - 2, Date(now.year, now.month - 1, 1));
    }
  }

  /** `sumByCategory(list)`: the object of per-category spending, its keys
      in the order they were first set. */
  method SumByCategory(list: seq<ClientTx>) returns (totals: seq<CatTotal>)
    ensures totals == CategoryEntries(list)
    ensures Categories(totals) == SpendCategories(list) && DistinctCategories(totals)
    ensures forall e :: e in totals ==> e.total == CategorySpend(list, e.category) && e.total > 0.0
  {
    totals := [];
    var i := 0;
    while i < |list|
      invariant 0 <= i <= |list|
      invariant totals == CategoryEntries(list[..i])
    {
      var t := list[i];
      if t.amount < 0.0 {
        var k := CategoryOrOther(t.category);
        totals := Bump(totals, k, Abs(t.amount));
      }
      assert Init(list[..i + 1]) == list[..i];
      assert Last(list[..i + 1]) == t;
      i := i + 1;
    }
    assert list[..i] == list;
    CategoryEntriesFacts(list, "");
    forall e | e in totals
      ensures e.total == CategorySpend(list, e.category) && e.total > 0.0
    {
      EntriesAreSpends(list, e);
    }
  }

  /** `Math.abs(thisMonth.filter(t => t.amount < 0).reduce(...))`. */
  function TotalSpent(items: seq<ClientTx>): (r: real)
    ensures r >= 0.0 && r == -SumNegative(items)
  {
    Abs(SumNegative(items))
  }

  /** The spending total is the sum of the per-category totals. */
  lemma TotalSpentByCategory(items: seq<ClientTx>)
    ensures TotalSpent(items) == SumTotals(CategoryEntries(items))
  {
    CategoryEntriesFacts(items, "");
  }

  // ---------------------------------------------------------------- top four

  /** `slice(0, 4)` of `n` entries keeps this many. */
  function TopCount(n: nat): nat {
    if n < 4 then n else 4
  }

  /** `Object.entries(byCat)...sort((a, b) => b.total - a.total).slice(0, 4)`. */
  function Top4(byCat: seq<CatTotal>): (top: seq<CatTotal>)
    ensures |top| == TopCount(|byCat|)
  {
    var sorted := SortBy(byCat, TotalDesc);
    sorted[..TopCount(|sorted|)]
  }

  lemma Top4Ordered(byCat: seq<CatTotal>)
    ensures SortedBy(Top4(byCat), TotalDesc)
    ensures multiset(Top4(byCat)) <= multiset(byCat)
  {
    var sorted := SortBy(byCat, TotalDesc);
    var top := Top4(byCat);
    TotalDescPreorder();
    SortBySorted(byCat, TotalDesc);
    assert sorted == top + sorted[|top|..];
    assert multiset(sorted) == multiset(top) + multiset(sorted[|top|..]);
  }

  lemma Top4Distinct(byCat: seq<CatTotal>)
    requires DistinctCategories(byCat)
    ensures forall i, j :: 0 <= i < j < |Top4(byCat)| ==> Top4(byCat)[i].category != Top4(byCat)[j].category
  {
    var sorted := SortBy(byCat, TotalDesc);
    var top := Top4(byCat);
    SortKeepsEntries(byCat, TotalDesc);
    DistinctPairwise(sorted);
    forall i, j | 0 <= i < j < |top| ensures top[i].category != top[j].category {
      assert top[i] == sorted[i] && top[j] == sorted[j];
    }
  }

  lemma Top4LeftOut(byCat: seq<CatTotal>)
    ensures forall e :: e in byCat && e !in Top4(byCat) ==> e.total <= Top4(byCat)[|Top4(byCat)| - 1].total
  {
    var sorted := SortBy(byCat, TotalDesc);
    var top := Top4(byCat);
    TotalDescPreorder();
    SortBySorted(byCat, TotalDesc);
    forall e | e in byCat && e !in top ensures e.total <= top[|top| - 1].total {
      SortByMembers(byCat, TotalDesc, e);
      var j :| 0 <= j < |sorted| && sorted[j] == e;
      assert j >= |top|;
      assert TotalDesc(sorted[|top| - 1], sorted[j]);
    }
  }

  /** The top rows are in order and are some of the entries, each at most as
      often as it occurs (so distinct categories give distinct rows); no
      entry left out has a larger total than the last one kept; and among
      entries with equal totals, those kept come first in the order of
      `byCat`, as the stable sort leaves them. */
  lemma Top4Facts(byCat: seq<CatTotal>)
    ensures SortedBy(Top4(byCat), TotalDesc)
    ensures multiset(Top4(byCat)) <= multiset(byCat)
    ensures forall e :: e in Top4(byCat) ==> e in byCat
    ensures DistinctCategories(byCat) ==>
              forall i, j :: 0 <= i < j < |Top4(byCat)| ==> Top4(byCat)[i].category != Top4(byCat)[j].category
    ensures forall e :: e in byCat && e !in Top4(byCat) ==> e.total <= Top4(byCat)[|Top4(byCat)| - 1].total
    ensures forall z :: EquivClass(Top4(byCat), TotalDesc, z) <= EquivClass(byCat, TotalDesc, z)
  {
    var top := Top4(byCat);
    Top4Ordered(byCat);
    forall e | e in top ensures e in byCat {
      assert e in multiset(top);
    }
    if DistinctCategories(byCat) {
      Top4Distinct(byCat);
    }
    Top4LeftOut(byCat);
    forall z ensures EquivClass(top, TotalDesc, z) <= EquivClass(byCat, TotalDesc, z) {
      EquivClassPrefix(SortBy(byCat, TotalDesc), |top|, TotalDesc, z);
      SortByStable(byCat, TotalDesc, z);
    }
  }

  // ---------------------------------------------------------------- change and bands

  /** A change in percent; `MinusInfinity` is what the division gives for a
      previous total of 0 and a negative current one. */
  datatype Percent = MinusInfinity | Pct(value: real)

  /** `changePct(prev, curr)`. */
  function ChangePct(prev: real, curr: real): (d: Percent)
    ensures prev == 0.0 && curr > 0.0 ==> d == Pct(100.0)
    ensures prev == 0.0 && curr == 0.0 ==> d == Pct(0.0)
    ensures prev == 0.0 && curr < 0.0 ==> d == MinusInfinity
    ensures prev != 0.0 ==> d.Pct?
    ensures prev > 0.0 ==> (d.value > 0.0 <==> curr > prev) && (d.value == 0.0 <==> curr == prev)
    ensures prev > 0.0 && curr >= 0.0 ==> d.value >= -100.0
  {
    if prev == 0.0 && curr > 0.0 then Pct(100.0)
    else if prev == 0.0 && curr == 0.0 then Pct(0.0)
    else if prev == 0.0 then MinusInfinity
    else
      var q := (curr - prev) / prev;
      assert prev > 0.0 ==> (q > 0.0 <==> curr > prev) && (q == 0.0 <==> curr == prev);
      assert prev > 0.0 && curr >= 0.0 ==> q >= -1.0 by {
        if prev > 0.0 && curr >= 0.0 {
          assert q * prev == curr - prev;
        }
      }
      Pct(q * 100.0)
  }

  datatype Band = Good | Ok | Warn | Bad

  function Rank(b: Band): nat {
    match b
    case Good => 0
    case Ok => 1
    case Warn => 2
    case Bad => 3
  }

  predicate PercentLe(p: Percent, q: Percent) {
    p.MinusInfinity? || (q.Pct? && p.value <= q.value)
  }

  /** `deltaBand(p)`. */
  function DeltaBand(p: Percent): (b: Band)
    ensures b == Good <==> p.MinusInfinity? || p.value <= -5.0
    ensures b == Ok <==> p.Pct? && -5.0 < p.value <= 10.0
    ensures b == Warn <==> p.Pct? && 10.0 < p.value <= 40.0
    ensures b == Bad <==> p.Pct? && p.value > 40.0
  {
    if p.MinusInfinity? || p.value <= -5.0 then Good
    else if p.value <= 10.0 then Ok
    else if p.value <= 40.0 then Warn
    else Bad
  }

  /** A larger change never gets a better band. */
  lemma DeltaBandMonotone(p: Percent, q: Percent)
    requires PercentLe(p, q)
    ensures Rank(DeltaBand(p)) <= Rank(DeltaBand(q))
  {
  }

  /** `Math.min(100, Math.abs(r.delta))`: the width of the change bar. */
  function BarFill(d: Percent): (w: real)
    ensures 0.0 <= w <= 100.0
    ensures d.MinusInfinity? ==> w == 100.0
    ensures d.Pct? && Abs(d.value) < 100.0 ==> w == Abs(d.value)
    ensures d.Pct? && Abs(d.value) >= 100.0 ==> w == 100.0
  {
    if d.MinusInfinity? then 100.0 else Min(100.0, Abs(d.value))
  }

  /** `` `${r.delta > 0 ? '+' : ''}${Math.round(r.delta)}%` ``. */
  function DeltaLabel(d: Percent): (s: string)
    ensures |s| >= 2 && s[|s| - 1] == '%'
    ensures s[0] == '+' <==> d.Pct? && d.value > 0.0
  {
    if d.MinusInfinity? then "-Infinity%"
    else (if d.value > 0.0 then "+" else "") + IntToString(Round(d.value)) + "%"
  }

  // ---------------------------------------------------------------- guidance

  datatype Guidance = SpendLess(amount: real) | UnderGoal(amount: real) | OnGoal

  /** The guidance text chosen by the sign of `gap = totalSpentThis - goalAmount`. */
  function GuidanceFor(spent: real, goal: real): (g: Guidance)
    ensures g.SpendLess? <==> spent > goal
    ensures g.UnderGoal? <==> spent < goal
    ensures g.OnGoal? <==> spent == goal
    ensures g.SpendLess? ==> g.amount == spent - goal && g.amount > 0.0
    ensures g.UnderGoal? ==> g.amount == goal - spent && g.amount > 0.0
  {
    var gap := spent - goal;
    if gap > 0.0 then SpendLess(gap)
    else if gap < 0.0 then UnderGoal(Abs(gap))
    else OnGoal
  }

  // ---------------------------------------------------------------- the rows

  datatype Row = Row(category: string, total: real, prev: real, delta: Percent, band: Band)

  /** One row: last month's total under the category or 0, the change and its band. */
  function RowOf(e: CatTotal, last: seq<CatTotal>): (r: Row)
    ensures r.category == e.category && r.total == e.total
    ensures e.category !in Categories(last) ==> r.prev == 0.0
    ensures DistinctCategories(last) ==> forall x :: x in last && x.category == e.category ==> r.prev == x.total
    ensures r.delta == ChangePct(r.prev, r.total) && r.band == DeltaBand(r.delta)
  {
    var prev := TotalOf(last, e.category);
    AbsentCategory(last, e.category);
    assert DistinctCategories(last) ==> forall x :: x in last && x.category == e.category ==> prev == x.total by {
      if DistinctCategories(last) {
        forall x | x in last && x.category == e.category ensures prev == x.total {
          EntryTotal(last, x);
        }
      }
    }
    var delta := ChangePct(prev, e.total);
    Row(e.category, e.total, prev, delta, DeltaBand(delta))
  }

  /** `top4.map(r => ...)`: one row per selected category. */
  function TopRows(byCatThis: seq<CatTotal>, byCatLast: seq<CatTotal>): (rows: seq<Row>)
    ensures |rows| == TopCount(|byCatThis|)
  {
    var top := Top4(byCatThis);
    seq(|top|, i requires 0 <= i < |top| => RowOf(top[i], byCatLast))
  }

  /** Each row holds its category's spending this month and last month. */
  lemma TopRowsTotals(thisMonth: seq<ClientTx>, lastMonth: seq<ClientTx>)
    ensures var rows := TopRows(CategoryEntries(thisMonth), CategoryEntries(lastMonth));
      forall i :: 0 <= i < |rows| ==>
        && rows[i].category in SpendCategories(thisMonth)
        && rows[i].total == CategorySpend(thisMonth, rows[i].category)
        && rows[i].prev == CategorySpend(lastMonth, rows[i].category)
        && rows[i].delta == ChangePct(rows[i].prev, rows[i].total)
        && rows[i].band == DeltaBand(rows[i].delta)
  {
    var byCatThis, byCatLast := CategoryEntries(thisMonth), CategoryEntries(lastMonth);
    var top := Top4(byCatThis);
    var rows := TopRows(byCatThis, byCatLast);
    Top4Facts(byCatThis);
    CategoryEntriesFacts(thisMonth, "");
    forall i | 0 <= i < |rows|
      ensures rows[i].category in SpendCategories(thisMonth)
      ensures rows[i].total == CategorySpend(thisMonth, rows[i].category)
      ensures rows[i].prev == CategorySpend(lastMonth, rows[i].category)
    {
      assert top[i] in top;
      InCategories(byCatThis, top[i]);
      EntriesAreSpends(thisMonth, top[i]);
      CategoryEntriesFacts(lastMonth, top[i].category);
    }
  }

  /** As many rows as categories with spending, up to four, largest first,
      each for a different category: row i is the row of the i-th selected
      entry. */
  lemma TopRowsShape(thisMonth: seq<ClientTx>, lastMonth: seq<ClientTx>)
    ensures var rows := TopRows(CategoryEntries(thisMonth), CategoryEntries(lastMonth));
      && |rows| == TopCount(|SpendCategories(thisMonth)|)
      && (forall i :: 0 <= i < |rows| ==> rows[i] == RowOf(Top4(CategoryEntries(thisMonth))[i], CategoryEntries(lastMonth)))
      && (forall i, j :: 0 <= i < j < |rows| ==> rows[i].total >= rows[j].total)
      && (forall i, j :: 0 <= i < j < |rows| ==> rows[i].category != rows[j].category)
  {
    var byCatThis := CategoryEntries(thisMonth);
    var top := Top4(byCatThis);
    var rows := TopRows(byCatThis, CategoryEntries(lastMonth));
    Top4Facts(byCatThis);
    CategoryEntriesFacts(thisMonth, "");
    DistinctCount(byCatThis);
    forall i, j | 0 <= i < j < |rows|
      ensures rows[i].total >= rows[j].total && rows[i].category != rows[j].category
    {
      assert TotalDesc(top[i], top[j]);
    }
  }

  /** A selected entry has a row carrying its category. */
  lemma RowForSelected(byCatThis: seq<CatTotal>, byCatLast: seq<CatTotal>, e: CatTotal)
    requires e in Top4(byCatThis)
    ensures exists r :: r in TopRows(byCatThis, byCatLast) && r.category == e.category
  {
    var top := Top4(byCatThis);
    var rows := TopRows(byCatThis, byCatLast);
    var i :| 0 <= i < |top| && top[i] == e;
    assert rows[i] in rows && rows[i].category == e.category;
  }

  /** No category left out of the rows spent more than the last row. */
  lemma TopRowsComplete(thisMonth: seq<ClientTx>, lastMonth: seq<ClientTx>, k: string)
    requires k in SpendCategories(thisMonth)
    requires forall r :: r in TopRows(CategoryEntries(thisMonth), CategoryEntries(lastMonth)) ==> r.category != k
    ensures |TopRows(CategoryEntries(thisMonth), CategoryEntries(lastMonth))| >= 1
    ensures var rows := TopRows(CategoryEntries(thisMonth), CategoryEntries(lastMonth));
      CategorySpend(thisMonth, k) <= rows[|rows| - 1].total
  {
    var byCatThis, byCatLast := CategoryEntries(thisMonth), CategoryEntries(lastMonth);
    var top := Top4(byCatThis);
    CategoryEntriesFacts(thisMonth, "");
    var e := CategoryHasEntry(byCatThis, k);
    EntriesAreSpends(thisMonth, e);
    if e in top {
      RowForSelected(byCatThis, byCatLast, e);
      assert false;
    }
    Top4LeftOut(byCatThis);
  }

  datatype GoalReport = GoalReport(spent: real, guidance: Guidance, rows: seq<Row>)

  /** The page's computation for the transactions `all`, the date `now` and
      the stored goal: the spending this month and its guidance, and up to
      four rows, largest first, for the categories with the most spending
      this month, each with last month's spending in that category. */
  method BuildReport(all: seq<ClientTx>, now: Date, goal: real) returns (rep: GoalReport)
    ensures var thisMonth := InMonth(all, MonthKey(now));
      && rep.spent == -SumNegative(thisMonth) && rep.spent >= 0.0
      && rep.guidance == GuidanceFor(rep.spent, goal)
    ensures rep.rows == TopRows(CategoryEntries(InMonth(all, MonthKey(now))),
                                CategoryEntries(InMonth(all, PrevMonthKey(now))))
  {
    var thisKey := MonthKey(now);
    var lastKey := PrevMonthKey(now);
    var thisMonth := InMonth(all, thisKey);
    var lastMonthTx := InMonth(all, lastKey);

    var spent := TotalSpent(thisMonth);
    var byCatThis := SumByCategory(thisMonth);
    var byCatLast := SumByCategory(lastMonthTx);
    var rows := TopRows(byCatThis, byCatLast);
    rep := GoalReport(spent, GuidanceFor(spent, goal), rows);
  }
}
