/** Calendar dates as (year, month, day) triples, the month arithmetic of
    JavaScript's `new Date(year, monthIndex, 1)`, and the `YYYY-MM` /
    `YYYY-MM-DD` keys the browser code builds with `padStart(2, "0")`. */
module Calendar {
  import opened Strings

  /** A local calendar date; `month` is 1-based, as `getMonth() + 1`. */
  datatype Date = Date(year: int, month: int, day: int)

  predicate IsLeapYear(y: int) {
    y % 4 == 0 && (y % 100 != 0 || y % 400 == 0)
  }

  function DaysInMonth(y: int, m: int): (n: int)
    requires 1 <= m <= 12
    ensures 28 <= n <= 31
  {
    if m == 2 then (if IsLeapYear(y) then 29 else 28)
    else if m == 4 || m == 6 || m == 9 || m == 11 then 30
    else 31
  }

  /** A date that `getFullYear`, `getMonth` and `getDate` can return. */
  predicate ValidDate(d: Date) {
    1 <= d.month <= 12 && 1 <= d.day <= DaysInMonth(d.year, d.month)
  }

  /** Chronological order of dates (for valid dates: earlier than). */
  predicate DateLt(a: Date, b: Date) {
    a.year < b.year
    || (a.year == b.year && a.month < b.month)
    || (a.year == b.year && a.month == b.month && a.day < b.day)
  }

  predicate DateLe(a: Date, b: Date) {
    a == b || DateLt(a, b)
  }

  /** `new Date(y, monthIndex, 1)`: JavaScript carries a month index outside
      0..11 into the year, so the first day of month `monthIndex + 1` of `y`
      counted from January. Dafny's `/` and `%` by 12 are the floor division
      and the non-negative remainder that carrying needs. */
  function FirstOfMonth(y: int, monthIndex: int): (d: Date)
    ensures ValidDate(d) && d.day == 1
    ensures d.year * 12 + (d.month - 1) == y * 12 + monthIndex
  {
    Date(y + monthIndex / 12, monthIndex % 12 + 1, 1)
  }

  /** The first day of a month is determined by its running month count. */
  lemma FirstOfMonthUnique(y: int, monthIndex: int, d: Date)
    requires 1 <= d.month <= 12 && d.day == 1
    requires d.year * 12 + (d.month - 1) == y * 12 + monthIndex
    ensures FirstOfMonth(y, monthIndex) == d
  {
    var f := FirstOfMonth(y, monthIndex);
    var n := y * 12 + monthIndex;
    assert f.year * 12 + (f.month - 1) == n;
    assert d.year == n / 12 && d.month - 1 == n % 12 by {
      assert 0 <= d.month - 1 < 12;
    }
    assert f.year == n / 12 && f.month - 1 == n % 12 by {
      assert 0 <= f.month - 1 < 12;
    }
  }

  /** `s.padStart(n, "0")`: zeros in front up to length `n`. */
  function PadStart(s: string, n: nat): (r: string)
    ensures |r| == if |s| >= n then |s| else n
    ensures r[|r| - |s|..] == s
  {
    if |s| >= n then s else seq(n - |s|, _ => '0') + s
  }

  /** `String(n).padStart(2, "0")`, written out for the two short cases. */
  function PadStart2(s: string): (r: string)
    ensures |r| == if |s| >= 2 then |s| else 2
  {
    if |s| >= 2 then s else if |s| == 1 then "0" + s else "00"
  }

  /** The width-2 padding is `padStart` at width 2. */
  lemma PadStart2IsPadStart(s: string)
    ensures PadStart2(s) == PadStart(s, 2)
  {
    if |s| == 1 {
      assert seq(1, _ => '0') == "0";
    } else if |s| == 0 {
      assert seq(2, _ => '0') + s == "00";
    }
  }

  /** `` `${y}-${String(m).padStart(2, "0")}` ``. */
  function MonthKeyOf(y: int, m: int): string {
    IntToString(y) + "-" + PadStart2(IntToString(m))
  }

  /** `monthKey(d)` in dashboard.js and `mkey(d)` in budget-goal.js. */
  function MonthKey(d: Date): string {
    MonthKeyOf(d.year, d.month)
  }

  /** `toISO(d)`: `YYYY-MM-DD` with month and day padded to two digits. */
  function ToISO(d: Date): string {
    IntToString(d.year) + "-" + PadStart2(IntToString(d.month)) + "-" + PadStart2(IntToString(d.day))
  }

  /** The padded month of a `YYYY-MM` key reads back as the month. */
  lemma PaddedMonthValue(m: int)
    requires 1 <= m <= 12
    ensures AllDigits(PadStart2(IntToString(m)))
    ensures ParseDigits(PadStart2(IntToString(m))) == m
    ensures |PadStart2(IntToString(m))| == 2
  {
    ParseNatToString(m);
    if m < 10 {
      ParseLeadingZero(NatToString(m));
    }
  }

  /** A `YYYY-MM` key built from a non-negative year and a month 1..12 splits
      on '-' into the year's digits and the two month digits. */
  lemma MonthKeyParts(y: int, m: int)
    requires y >= 0 && 1 <= m <= 12
    ensures Split(MonthKeyOf(y, m), '-') == [NatToString(y), PadStart2(IntToString(m))]
  {
    var ys, ms := NatToString(y), PadStart2(IntToString(m));
    PaddedMonthValue(m);
    assert '-' !in ys by {
      assert AllDigits(ys);
    }
    assert '-' !in ms by {
      assert AllDigits(ms);
    }
    assert MonthKeyOf(y, m) == ys + ['-'] + ms;
    SplitAtFirst(ys, '-', ms);
  }

  /** Two dates of non-negative years have the same month key exactly when
      they fall in the same month of the same year. */
  lemma MonthKeySameMonth(a: Date, b: Date)
    requires a.year >= 0 && b.year >= 0 && 1 <= a.month <= 12 && 1 <= b.month <= 12
    ensures MonthKey(a) == MonthKey(b) <==> (a.year == b.year && a.month == b.month)
  {
    if MonthKey(a) == MonthKey(b) {
      MonthKeyParts(a.year, a.month);
      MonthKeyParts(b.year, b.month);
      NatToStringInjective(a.year, b.year);
      PaddedMonthValue(a.month);
      PaddedMonthValue(b.month);
    }
  }

  /** For a valid date with a four-digit year, `toISO` gives the ten
      characters `YYYY-MM-DD`. */
  lemma ToISOLength(d: Date)
    requires ValidDate(d) && 1000 <= d.year <= 9999
    ensures |ToISO(d)| == 10
    ensures ToISO(d)[4] == '-' && ToISO(d)[7] == '-'
  {
    FourDigitYear(d.year);
  }

  lemma FourDigitYear(y: int)
    requires 1000 <= y <= 9999
    ensures |NatToString(y)| == 4
  {
    assert NatToString(y) == NatToString(y / 10) + [DigitChar(y % 10)];
    assert NatToString(y / 10) == NatToString(y / 100) + [DigitChar(y / 10 % 10)];
    assert NatToString(y / 100) == NatToString(y / 1000) + [DigitChar(y / 100 % 10)];
  }
}
