/** Server date helpers: the half-open window of a `YYYY-MM` month key and
    the `YYYY-MM-DD` rendering of a date. */
module DateUtil {
  import opened JsValues
  import opened Strings
  import opened Calendar

  /** The instants `[start, end)`; both are first days of months. */
  datatype Window = Window(start: Date, end: Date)

  predicate InWindow(d: Date, w: Window) {
    DateLe(w.start, d) && DateLt(d, w.end)
  }

  /** `Number(part)` on one piece of the key, for the pieces the model reads:
      the empty string is 0, a run of ASCII digits is its decimal value, and
      anything else is NaN (`None`). */
  function PartToNumber(s: string): (r: Option<nat>)
    ensures r.Some? <==> AllDigits(s)
  {
    if AllDigits(s) then Some(ParseDigits(s)) else None
  }

  /** `{ start: new Date(y, m - 1, 1), end: new Date(y, m, 1) }`. */
  function MonthRange(y: int, m: int): (w: Window)
    ensures ValidDate(w.start) && ValidDate(w.end)
    ensures w.start.day == 1 && w.end.day == 1
  {
    Window(FirstOfMonth(y, m - 1), FirstOfMonth(y, m))
  }

  /** `getMonthRange(yyyyMM)`: split on '-', convert the first two pieces.
      A missing or non-numeric piece gives JavaScript's Invalid Date bounds,
      modelled as `None`. */
  function GetMonthRange(key: string): (w: Option<Window>)
    ensures w.Some? ==> |Split(key, '-')| >= 2
  {
    var parts := Split(key, '-');
    if |parts| < 2 then None
    else
      match (PartToNumber(parts[0]), PartToNumber(parts[1]))
      case (Some(y), Some(m)) => Some(MonthRange(y, m))
      case _ => None
  }

  /** The date condition a query gets from an optional `month` parameter:
      none when the parameter is absent or empty, otherwise `start <= date < end`.
      A key that yields Invalid Date bounds is taken to match no date. */
  datatype DateFilter = AnyDate | NoDate | Between(w: Window)

  function MonthFilter(month: Option<string>): (f: DateFilter)
    ensures !PresentString(month) <==> f.AnyDate?
    ensures f.Between? ==> GetMonthRange(month.value) == Some(f.w)
  {
    if !PresentString(month) then AnyDate
    else match GetMonthRange(month.value)
      case Some(w) => Between(w)
      case None => NoDate
  }

  predicate PassesDateFilter(d: Date, f: DateFilter) {
    match f
    case AnyDate => true
    case NoDate => false
    case Between(w) => InWindow(d, w)
  }

  /** For a month 1..12 the window runs from day 1 of that month to day 1 of
      the next, rolling December over into January of the next year. */
  lemma MonthRangeBounds(y: int, m: int)
    requires 1 <= m <= 12
    ensures MonthRange(y, m).start == Date(y, m, 1)
    ensures MonthRange(y, m).end == if m == 12 then Date(y + 1, 1, 1) else Date(y, m + 1, 1)
  {
  }

  /** The window is never empty: `start < end` for every year and month,
      including months outside 1..12 that `new Date` carries into the year. */
  lemma MonthRangeOrdered(y: int, m: int)
    ensures DateLt(MonthRange(y, m).start, MonthRange(y, m).end)
  {
    var w := MonthRange(y, m);
    assert w.start.year * 12 + w.start.month + 1 == w.end.year * 12 + w.end.month;
  }

  /** A valid date lies in the window of month `m` of year `y` exactly when
      it is in that month of that year: `start` is included, `end` is not. */
  lemma InMonthRange(d: Date, y: int, m: int)
    requires ValidDate(d) && 1 <= m <= 12
    ensures InWindow(d, MonthRange(y, m)) <==> d.year == y && d.month == m
  {
    MonthRangeBounds(y, m);
  }

  /** Reading back a key built by `MonthKeyOf` gives the window of that month,
      so the browser's month keys and the server's parser agree. */
  lemma GetMonthRangeOfKey(y: int, m: int)
    requires y >= 0 && 1 <= m <= 12
    ensures GetMonthRange(MonthKeyOf(y, m)) == Some(MonthRange(y, m))
  {
    MonthKeyParts(y, m);
    ParseNatToString(y);
    PaddedMonthValue(m);
  }

  /** `pad(n)`: a '0' in front of numbers below 10. */
  function Pad(n: int): string {
    if n < 10 then "0" + IntToString(n) else IntToString(n)
  }

  /** `toYMD(d)`. */
  function ToYMD(d: Date): string {
    IntToString(d.year) + "-" + Pad(d.month) + "-" + Pad(d.day)
  }

  /** For 0 <= n < 100, `pad(n)` is two digits that read back as n. */
  lemma PadTwoDigits(n: int)
    requires 0 <= n < 100
    ensures |Pad(n)| == 2 && AllDigits(Pad(n)) && ParseDigits(Pad(n)) == n
  {
    ParseNatToString(n);
    if n < 10 {
      ParseLeadingZero(NatToString(n));
    }
  }

  /** For a valid date with a four-digit year, `toYMD` gives the ten
      characters `YYYY-MM-DD`. */
  lemma ToYMDLength(d: Date)
    requires ValidDate(d) && 1000 <= d.year <= 9999
    ensures |ToYMD(d)| == 10 && ToYMD(d)[4] == '-' && ToYMD(d)[7] == '-'
  {
    FourDigitYear(d.year);
    PadTwoDigits(d.month);
    PadTwoDigits(d.day);
  }

  /** The rendering is unambiguous: splitting `toYMD(d)` on '-' gives three
      pieces that read back as the year, month and day. */
  lemma ToYMDRoundTrip(d: Date)
    requires ValidDate(d) && d.year >= 0
    ensures |Split(ToYMD(d), '-')| == 3
    ensures var parts := Split(ToYMD(d), '-');
      && AllDigits(parts[0]) && AllDigits(parts[1]) && AllDigits(parts[2])
      && ParseDigits(parts[0]) == d.year
      && ParseDigits(parts[1]) == d.month
      && ParseDigits(parts[2]) == d.day
  {
    var ys, ms, ds := NatToString(d.year), Pad(d.month), Pad(d.day);
    ParseNatToString(d.year);
    PadTwoDigits(d.month);
    PadTwoDigits(d.day);
    assert '-' !in ys by { assert AllDigits(ys); }
    assert '-' !in ms by { assert AllDigits(ms); }
    assert '-' !in ds by { assert AllDigits(ds); }
    assert ToYMD(d) == ys + ['-'] + (ms + ['-'] + ds);
    SplitAtFirst(ys, '-', ms + ['-'] + ds);
    SplitAtFirst(ms, '-', ds);
  }

  /** The server's `toYMD` and the browser's `toISO` render valid dates alike. */
  lemma ToYMDIsToISO(d: Date)
    requires ValidDate(d)
    ensures ToYMD(d) == ToISO(d)
  {
  }
}
