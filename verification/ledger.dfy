/** The browser's transaction rows and the computations dashboard.js and
    budget-goal.js share: the month filter, the income and expense sums, the
    per-category spending kept in insertion order (a JavaScript `Map`, or a
    plain object with non-numeric keys), and `escapeHtml`. */
module Ledger {
  import opened JsValues
  import opened Calendar
  import opened Sorting

  /** `{ date, description, category, amount }`; a negative amount is spending. */
  datatype ClientTx = ClientTx(date: Date, description: string, category: string, amount: real)

  /** One category with its accumulated total. */
  datatype CatTotal = CatTotal(category: string, total: real)

  /** `t.category || 'Other'`. */
  function CategoryOrOther(c: string): (r: string)
    ensures r != ""
    ensures c != "" ==> r == c
    ensures c == "" ==> r == "Other"
  {
    if c == "" then "Other" else c
  }

  function Init<T>(s: seq<T>): seq<T>
    requires s != []
  {
    s[..|s| - 1]
  }

  function Last<T>(s: seq<T>): T
    requires s != []
  {
    s[|s| - 1]
  }

  // ---------------------------------------------------------------- filters and sums

  /** `list.filter(t => monthKey(new Date(t.date)) === key)`. */
  function InMonth(items: seq<ClientTx>, key: string): (r: seq<ClientTx>)
    ensures forall t :: t in r <==> t in items && MonthKey(t.date) == key
    ensures |r| <= |items|
  {
    if items == [] then []
    else
      assert forall t :: t in items <==> t in Init(items) || t == Last(items) by {
        assert items == Init(items) + [Last(items)];
      }
      InMonth(Init(items), key) + (if MonthKey(Last(items).date) == key then [Last(items)] else [])
  }

  /** `filter(t => t.amount > 0).reduce((s, t) => s + t.amount, 0)`. */
  function SumPositive(items: seq<ClientTx>): (s: real)
    ensures s >= 0.0
  {
    if items == [] then 0.0
    else SumPositive(Init(items)) + (if Last(items).amount > 0.0 then Last(items).amount else 0.0)
  }

  /** `filter(t => t.amount < 0).reduce((s, t) => s + t.amount, 0)`. */
  function SumNegative(items: seq<ClientTx>): (s: real)
    ensures s <= 0.0
  {
    if items == [] then 0.0
    else SumNegative(Init(items)) + (if Last(items).amount < 0.0 then Last(items).amount else 0.0)
  }

  /** The categories (with '' read as 'Other') that have spending. */
  function SpendCategories(items: seq<ClientTx>): set<string> {
    if items == [] then {}
    else SpendCategories(Init(items))
         + (if Last(items).amount < 0.0 then {CategoryOrOther(Last(items).category)} else {})
  }

  /** What a category's total should be: the absolute amounts of its spending. */
  function CategorySpend(items: seq<ClientTx>, k: string): (s: real)
    ensures s >= 0.0
  {
    if items == [] then 0.0
    else CategorySpend(Init(items), k)
         + (if Last(items).amount < 0.0 && CategoryOrOther(Last(items).category) == k
            then Abs(Last(items).amount) else 0.0)
  }

  /** A category has a positive spend exactly when it has spending. */
  lemma {:induction false} CategorySpendPositive(items: seq<ClientTx>, k: string)
    ensures CategorySpend(items, k) > 0.0 <==> k in SpendCategories(items)
    decreases |items|
  {
    if items != [] {
      CategorySpendPositive(Init(items), k);
    }
  }

  // ---------------------------------------------------------------- the category accumulator

  function Categories(es: seq<CatTotal>): set<string> {
    if es == [] then {} else {es[0].category} + Categories(es[1..])
  }

  predicate DistinctCategories(es: seq<CatTotal>) {
    es == [] || (es[0].category !in Categories(es[1..]) && DistinctCategories(es[1..]))
  }

  function SumTotals(es: seq<CatTotal>): real {
    if es == [] then 0.0 else es[0].total + SumTotals(es[1..])
  }

  /** `map.get(k) || 0` / `map[k] || 0`: the total under `k`, or 0. */
  function TotalOf(es: seq<CatTotal>, k: string): real {
    if es == [] then 0.0 else (if es[0].category == k then es[0].total else 0.0) + TotalOf(es[1..], k)
  }

  /** `map.set(k, (map.get(k) || 0) + a)`: an existing entry keeps its place,
      a new key goes to the end. */
  function Bump(es: seq<CatTotal>, k: string, a: real): (r: seq<CatTotal>)
    ensures |r| == |es| || |r| == |es| + 1
    ensures forall i :: 0 <= i < |es| ==> r[i].category == es[i].category
    ensures |r| == |es| + 1 ==> r[|es|] == CatTotal(k, a)
  {
    if es == [] then [CatTotal(k, a)]
    else if es[0].category == k then [CatTotal(k, es[0].total + a)] + es[1..]
    else [es[0]] + Bump(es[1..], k, a)
  }

  /** The accumulator after visiting `items` left to right: the spending
      ones add their absolute amount under their category or 'Other'. */
  function CategoryEntries(items: seq<ClientTx>): seq<CatTotal> {
    if items == [] then []
    else
      var prev := CategoryEntries(Init(items));
      if Last(items).amount < 0.0
      then Bump(prev, CategoryOrOther(Last(items).category), Abs(Last(items).amount))
      else prev
  }

  lemma {:induction false} InCategories(es: seq<CatTotal>, e: CatTotal)
    requires e in es
    ensures e.category in Categories(es)
    decreases |es|
  {
    if es[0] != e {
      InCategories(es[1..], e);
    }
  }

  lemma {:induction false} BumpFacts(es: seq<CatTotal>, k: string, a: real, j: string)
    ensures Categories(Bump(es, k, a)) == Categories(es) + {k}
    ensures DistinctCategories(es) ==> DistinctCategories(Bump(es, k, a))
    ensures SumTotals(Bump(es, k, a)) == SumTotals(es) + a
    ensures TotalOf(Bump(es, k, a), j) == TotalOf(es, j) + (if j == k then a else 0.0)
    decreases |es|
  {
    if es != [] && es[0].category != k {
      BumpFacts(es[1..], k, a, j);
      assert Bump(es, k, a)[1..] == Bump(es[1..], k, a);
    } else if es != [] {
      assert Bump(es, k, a)[1..] == es[1..];
    }
  }

  /** The accumulator holds one entry per spending category, each with the
      category's spend, and the entries add up to the month's absolute
      spending. */
  lemma {:induction false} CategoryEntriesFacts(items: seq<ClientTx>, j: string)
    ensures Categories(CategoryEntries(items)) == SpendCategories(items)
    ensures DistinctCategories(CategoryEntries(items))
    ensures SumTotals(CategoryEntries(items)) == -SumNegative(items)
    ensures TotalOf(CategoryEntries(items), j) == CategorySpend(items, j)
    decreases |items|
  {
    if items != [] {
      CategoryEntriesFacts(Init(items), j);
      var t := Last(items);
      if t.amount < 0.0 {
        BumpFacts(CategoryEntries(Init(items)), CategoryOrOther(t.category), Abs(t.amount), j);
      }
    }
  }

  /** A category among the entries is carried by one of them. */
  lemma {:induction false} CategoryHasEntry(es: seq<CatTotal>, k: string) returns (e: CatTotal)
    requires k in Categories(es)
    ensures e in es && e.category == k
    decreases |es|
  {
    if es[0].category == k {
      e := es[0];
    } else {
      e := CategoryHasEntry(es[1..], k);
    }
  }

  /** Distinct categories: no two entries share one. */
  lemma {:induction false} DistinctPairwise(es: seq<CatTotal>)
    requires DistinctCategories(es)
    ensures forall i, j :: 0 <= i < j < |es| ==> es[i].category != es[j].category
    decreases |es|
  {
    if es != [] {
      DistinctPairwise(es[1..]);
      forall i, j | 0 <= i < j < |es| ensures es[i].category != es[j].category {
        assert es[j] == es[1..][j - 1];
        if i == 0 {
          InCategories(es[1..], es[j]);
        } else {
          assert es[i] == es[1..][i - 1];
        }
      }
    }
  }

  /** Distinct categories: as many categories as entries. */
  lemma {:induction false} DistinctCount(es: seq<CatTotal>)
    requires DistinctCategories(es)
    ensures |Categories(es)| == |es|
    decreases |es|
  {
    if es != [] {
      DistinctCount(es[1..]);
    }
  }

  /** With distinct categories, an entry's total is the total under its category. */
  lemma {:induction false} EntryTotal(es: seq<CatTotal>, e: CatTotal)
    requires DistinctCategories(es) && e in es
    ensures TotalOf(es, e.category) == e.total
    decreases |es|
  {
    if es[0] == e {
      AbsentCategory(es[1..], e.category);
    } else {
      InCategories(es[1..], e);
      EntryTotal(es[1..], e);
    }
  }

  lemma {:induction false} AbsentCategory(es: seq<CatTotal>, k: string)
    ensures k !in Categories(es) ==> TotalOf(es, k) == 0.0
    decreases |es|
  {
    if es != [] {
      AbsentCategory(es[1..], k);
    }
  }

  /** Every entry of the accumulator carries its category's spend, which is positive. */
  lemma EntriesAreSpends(items: seq<ClientTx>, e: CatTotal)
    requires e in CategoryEntries(items)
    ensures e.total == CategorySpend(items, e.category) && e.total > 0.0
  {
    CategoryEntriesFacts(items, e.category);
    EntryTotal(CategoryEntries(items), e);
    InCategories(CategoryEntries(items), e);
    CategorySpendPositive(items, e.category);
  }

  // ---------------------------------------------------------------- ordering

  /** `(a, b) => b.total - a.total`. */
  predicate TotalDesc(a: CatTotal, b: CatTotal) {
    a.total >= b.total
  }

  lemma TotalDescPreorder()
    ensures TotalPreorder(TotalDesc)
  {
  }

  lemma {:induction false} InsertEntries(x: CatTotal, s: seq<CatTotal>, le: (CatTotal, CatTotal) -> bool)
    ensures SumTotals(Insert(x, s, le)) == x.total + SumTotals(s)
    ensures Categories(Insert(x, s, le)) == Categories(s) + {x.category}
    ensures DistinctCategories(s) && x.category !in Categories(s) ==> DistinctCategories(Insert(x, s, le))
    decreases |s|
  {
    if s != [] && !le(x, s[0]) {
      InsertEntries(x, s[1..], le);
      assert Insert(x, s, le)[1..] == Insert(x, s[1..], le);
    } else if s != [] {
      assert Insert(x, s, le)[1..] == s;
    }
  }

  /** Sorting the entries keeps their categories distinct and their sum. */
  lemma {:induction false} SortKeepsEntries(s: seq<CatTotal>, le: (CatTotal, CatTotal) -> bool)
    ensures SumTotals(SortBy(s, le)) == SumTotals(s)
    ensures Categories(SortBy(s, le)) == Categories(s)
    ensures DistinctCategories(s) ==> DistinctCategories(SortBy(s, le))
    decreases |s|
  {
    if s != [] {
      SortKeepsEntries(s[1..], le);
      InsertEntries(s[0], SortBy(s[1..], le), le);
    }
  }

  // ---------------------------------------------------------------- escapeHtml

  /** The entity `escapeHtml` writes for one character. */
  function Escape(c: char): string {
    if c == '&' then "&amp;"
    else if c == '<' then "&lt;"
    else if c == '>' then "&gt;"
    else if c == '"' then "&quot;"
    else if c == '\'' then "&#39;"
    else [c]
  }

  predicate Special(c: char) {
    c == '&' || c == '<' || c == '>' || c == '"' || c == '\''
  }

  /** `escapeHtml(s)`. */
  function EscapeHtml(s: string): (r: string)
    ensures forall i :: 0 <= i < |r| ==> r[i] != '<' && r[i] != '>' && r[i] != '"' && r[i] != '\''
    ensures |r| >= |s|
    ensures (forall i :: 0 <= i < |s| ==> !Special(s[i])) ==> r == s
  {
    if s == [] then [] else Escape(s[0]) + EscapeHtml(s[1..])
  }

  /** Reads the five entities back; every other character stands for itself. */
  function Unescape(s: string): string
    decreases |s|
  {
    if s == [] then []
    else match Entity(s)
      case Some((c, n)) => [c] + Unescape(s[n..])
      case None => [s[0]] + Unescape(s[1..])
  }

  /** Reads back the entity that starts `s`, if any. */
  function Entity(s: string): (r: Option<(char, nat)>)
    ensures r.Some? ==> 0 < r.value.1 <= |s|
  {
    if |s| >= 5 && s[..5] == "&amp;" then Some(('&', 5))
    else if |s| >= 4 && s[..4] == "&lt;" then Some(('<', 4))
    else if |s| >= 4 && s[..4] == "&gt;" then Some(('>', 4))
    else if |s| >= 6 && s[..6] == "&quot;" then Some(('"', 6))
    else if |s| >= 5 && s[..5] == "&#39;" then Some(('\'', 5))
    else None
  }

  /** One escaped character reads back as itself, whatever follows it. */
  lemma UnescapeOne(c: char, rest: string)
    ensures Unescape(Escape(c) + rest) == [c] + Unescape(rest)
  {
    var x := Escape(c) + rest;
    if Special(c) {
      EntityOfEscape(c, rest);
    } else {
      assert x[0] == c && x[1..] == rest;
      NoEntityWithoutAmp(x);
    }
  }

  lemma NoEntityWithoutAmp(s: string)
    requires s != [] && s[0] != '&'
    ensures Entity(s) == None
  {
    if |s| >= 4 {
      assert s[..4][0] == s[0];
    }
    if |s| >= 5 {
      assert s[..5][0] == s[0];
    }
    if |s| >= 6 {
      assert s[..6][0] == s[0];
    }
  }

  lemma EntityOfEscape(c: char, rest: string)
    requires Special(c)
    ensures Entity(Escape(c) + rest) == Some((c, |Escape(c)|))
    ensures (Escape(c) + rest)[|Escape(c)|..] == rest
  {
    var x := Escape(c) + rest;
    assert x[..|Escape(c)|] == Escape(c);
    if c == '<' {
      assert x[1] == 'l';
    } else if c == '>' {
      assert x[1] == 'g';
    } else if c == '"' {
      assert x[1] == 'q';
    } else if c == '\'' {
      assert x[1] == '#';
    }
  }

  /** Escaping loses nothing: the text can be read back from the markup. */
  lemma {:induction false} UnescapeEscape(s: string)
    ensures Unescape(EscapeHtml(s)) == s
    decreases |s|
  {
    if s != [] {
      UnescapeEscape(s[1..]);
      UnescapeOne(s[0], EscapeHtml(s[1..]));
      assert [s[0]] + s[1..] == s;
    }
  }
}
