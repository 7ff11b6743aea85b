/** The seeding script that links imported CSV rows to the demo user. Each
    source document is normalised: an `m/d/yy` date becomes a date and a
    `YYYY-MM` key, the amount keeps its sign and gets its absolute value
    and a large-amount flag, and the text fields default to "". The
    normalised documents are then written in batches, as inserts into a
    target collection ("copy" mode) or as field updates of the source
    documents themselves (any other mode). */
module CsvLink {
  import opened JsValues
  import opened Strings
  import opened Calendar
  import opened DateUtil

  // ---------------------------------------------------------------- parseInt

  /** A piece of `const [m, d, y] = raw.split("/").map(v => parseInt(v))`:
      `undefined` when the split gave fewer pieces, NaN, or an integer. */
  datatype IntPart = Missing | NotANumber | Int(value: int)

  /** The longest prefix of `s` made of decimal digits. */
  function DecimalPrefix(s: string): (r: string)
    ensures AllDigits(r) && |r| <= |s| && r == s[..|r|]
    ensures |r| == |s| || !IsDigit(s[|r|])
  {
    if s != [] && IsDigit(s[0]) then [s[0]] + DecimalPrefix(s[1..]) else []
  }

  /** The longest prefix of `s` made of hexadecimal digits. */
  function HexPrefix(s: string): (r: string)
    ensures AllHexDigits(r) && |r| <= |s| && r == s[..|r|]
    ensures |r| == |s| || !IsHexDigit(s[|r|])
  {
    if s != [] && IsHexDigit(s[0]) then [s[0]] + HexPrefix(s[1..]) else []
  }

  /** `parseInt(s)` without a radix: leading white space is skipped, one
      sign is read, a `0x` or `0X` prefix selects base 16, and the longest
      run of digits of the base that follows is read. No digits gives NaN. */
  function ParseInt(s: string): (r: IntPart)
    ensures r != Missing
  {
    ParseSigned(TrimStart(s))
  }

  function ParseSigned(t: string): (r: IntPart)
    ensures r != Missing
  {
    if |t| > 0 && t[0] == '-' then Negate(ParseUnsigned(t[1..]))
    else if |t| > 0 && t[0] == '+' then ParseUnsigned(t[1..])
    else ParseUnsigned(t)
  }

  function Negate(p: IntPart): IntPart {
    if p.Int? then Int(-p.value) else p
  }

  function ParseUnsigned(u: string): (r: IntPart)
    ensures r != Missing
    ensures r.Int? ==> r.value >= 0
  {
    var hex := |u| >= 2 && u[0] == '0' && (u[1] == 'x' || u[1] == 'X');
    var digits := if hex then HexPrefix(u[2..]) else DecimalPrefix(u);
    if digits == [] then NotANumber
    else Int(if hex then ParseHexDigits(digits) else ParseDigits(digits))
  }

  /** `parseInt(String(n))` gives `n` back for every integer. */
  lemma ParseIntOfInt(n: int)
    ensures ParseInt(IntToString(n)) == Int(n)
  {
    NoLeadingSpace(n);
    ParseSignedOfInt(n);
  }

  lemma NoLeadingSpace(n: int)
    ensures TrimStart(IntToString(n)) == IntToString(n)
  {
    var s := IntToString(n);
    if n >= 0 {
      DigitNotSpace(s[0]);
    }
    TrimStartPlain(s);
  }

  lemma ParseSignedOfInt(n: int)
    ensures ParseSigned(IntToString(n)) == Int(n)
  {
    var m := if n < 0 then -n else n;
    ParseUnsignedOfNat(m);
    if n < 0 {
      var s := IntToString(n);
      assert s[1..] == NatToString(m);
    } else {
      assert IsDigit(NatToString(m)[0]);
    }
  }

  lemma ParseUnsignedOfNat(m: nat)
    ensures ParseUnsigned(NatToString(m)) == Int(m)
  {
    var ds := NatToString(m);
    ParseNatToString(m);
    DecimalPrefixAll(ds);
    if |ds| >= 2 {
      assert IsDigit(ds[1]);
    }
  }

  lemma DigitNotSpace(c: char)
    requires IsDigit(c)
    ensures !IsJsSpace(c)
  {
  }

  lemma {:induction false} DecimalPrefixAll(s: string)
    requires AllDigits(s)
    ensures DecimalPrefix(s) == s
    decreases |s|
  {
    if s != [] {
      DecimalPrefixAll(s[1..]);
    }
  }

  /** `String(v)` for a piece: `"undefined"`, `"NaN"` or the decimal digits. */
  function PartString(p: IntPart): string {
    match p
    case Missing => "undefined"
    case NotANumber => "NaN"
    case Int(n) => IntToString(n)
  }

  // ---------------------------------------------------------------- dates

  /** What the `date` field receives: `null` when there was no raw date,
      Invalid Date when a part is NaN or missing, and otherwise
      `new Date(fullYear, m - 1, d)`: day `day` counted from `monthStart`,
      the first of the month `new Date` reaches by carrying `m - 1` into
      the year. The day is kept as given; a day past the end of the month
      is not carried into the next one here. */
  datatype StoredDate = NullDate | InvalidDate | DayOf(monthStart: Date, day: int)

  datatype ParsedDate = ParsedDate(date: StoredDate, month: Option<string>)

  function Piece(parts: seq<string>, i: nat): IntPart {
    if i < |parts| then ParseInt(parts[i]) else Missing
  }

  /** `y < 100 ? 2000 + y : y`; a NaN or missing year is not below 100. */
  function FullYear(y: IntPart): IntPart {
    if y.Int? && y.value < 100 then Int(2000 + y.value) else y
  }

  /** The date and month key of one source document. */
  function ParseRawDate(raw: Option<string>): (r: ParsedDate)
    ensures !PresentString(raw) <==> r == ParsedDate(NullDate, None)
    ensures PresentString(raw) ==> r.month.Some? && r.date != NullDate
  {
    if !PresentString(raw) then ParsedDate(NullDate, None)
    else
      var parts := Split(raw.value, '/');
      DateOfParts(Piece(parts, 0), Piece(parts, 1), Piece(parts, 2))
  }

  /** `new Date(fullYear, m - 1, d)` and `` `${fullYear}-${String(m).padStart(2, "0")}` ``. */
  function DateOfParts(m: IntPart, d: IntPart, y: IntPart): (r: ParsedDate)
    ensures r.month.Some? && r.date != NullDate
  {
    var fullYear := FullYear(y);
    var date :=
      if m.Int? && d.Int? && fullYear.Int?
      then DayOf(FirstOfMonth(fullYear.value, m.value - 1), d.value)
      else InvalidDate;
    ParsedDate(date, Some(PartString(fullYear) + "-" + PadStart2(PartString(m))))
  }

  /** A raw date written `m/d/y` in decimal: a year below 100 is read as
      2000 + y and a larger one is kept; the month key is that year, a '-'
      and the month padded to two digits; the date is day `d` of that month. */
  lemma ParseDecimalDate(m: nat, d: nat, y: nat)
    requires 1 <= m <= 12
    ensures var fy := if y < 100 then 2000 + y else y;
      ParseRawDate(Some(NatToString(m) + "/" + NatToString(d) + "/" + NatToString(y)))
        == ParsedDate(DayOf(Date(fy, m, 1), d), Some(MonthKeyOf(fy, m)))
  {
    RawDecimalParts(m, d, y);
    DecimalDateOfInts(m, d, y);
  }

  lemma RawDecimalParts(m: nat, d: nat, y: nat)
    ensures ParseRawDate(Some(NatToString(m) + "/" + NatToString(d) + "/" + NatToString(y)))
              == DateOfParts(Int(m), Int(d), Int(y))
  {
    var raw := NatToString(m) + "/" + NatToString(d) + "/" + NatToString(y);
    var parts := Split(raw, '/');
    DecimalPieces(m, d, y);
    assert ParseRawDate(Some(raw)) == DateOfParts(Piece(parts, 0), Piece(parts, 1), Piece(parts, 2));
  }

  lemma DecimalDateOfInts(m: nat, d: nat, y: nat)
    requires 1 <= m <= 12
    ensures var fy := if y < 100 then 2000 + y else y;
      DateOfParts(Int(m), Int(d), Int(y)) == ParsedDate(DayOf(Date(fy, m, 1), d), Some(MonthKeyOf(fy, m)))
  {
    var fy := if y < 100 then 2000 + y else y;
    DateOfInts(m, d, y);
    FirstOfMonthUnique(fy, m - 1, Date(fy, m, 1));
  }

  lemma DateOfInts(m: int, d: int, y: int)
    ensures var fy := if y < 100 then 2000 + y else y;
      DateOfParts(Int(m), Int(d), Int(y))
        == ParsedDate(DayOf(FirstOfMonth(fy, m - 1), d), Some(IntToString(fy) + "-" + PadStart2(IntToString(m))))
  {
  }

  lemma DecimalPieces(m: nat, d: nat, y: nat)
    ensures var parts := Split(NatToString(m) + "/" + NatToString(d) + "/" + NatToString(y), '/');
      Piece(parts, 0) == Int(m) && Piece(parts, 1) == Int(d) && Piece(parts, 2) == Int(y)
  {
    var ms, ds, ys := NatToString(m), NatToString(d), NatToString(y);
    SplitThree(ms, ds, ys);
    var parts := Split(ms + "/" + ds + "/" + ys, '/');
    assert parts[0] == ms && parts[1] == ds && parts[2] == ys;
    ParseIntOfInt(m);
    ParseIntOfInt(d);
    ParseIntOfInt(y);
    assert IntToString(m) == ms && IntToString(d) == ds && IntToString(y) == ys;
  }

  lemma SplitThree(a: string, b: string, c: string)
    requires AllDigits(a) && AllDigits(b) && AllDigits(c)
    ensures Split(a + "/" + b + "/" + c, '/') == [a, b, c]
  {
    assert '/' !in a && '/' !in b && '/' !in c;
    assert a + "/" + b + "/" + c == a + ['/'] + (b + ['/'] + c);
    SplitAtFirst(a, '/', b + ['/'] + c);
    SplitAtFirst(b, '/', c);
  }

  /** The month key of a row with a valid `m/d/y` date is read back by the
      server's month filter as the window that contains the row's date. */
  lemma LinkedMonthMatchesDate(m: nat, d: nat, y: nat)
    requires 1 <= m <= 12
    requires var fy := if y < 100 then 2000 + y else y;
      ValidDate(Date(fy, m, d))
    ensures var fy := if y < 100 then 2000 + y else y;
      var r := ParseRawDate(Some(NatToString(m) + "/" + NatToString(d) + "/" + NatToString(y)));
      && r.month.Some?
      && GetMonthRange(r.month.value) == Some(MonthRange(fy, m))
      && InWindow(Date(fy, m, d), MonthRange(fy, m))
  {
    var fy := if y < 100 then 2000 + y else y;
    ParseDecimalDate(m, d, y);
    GetMonthRangeOfKey(fy, m);
    InMonthRange(Date(fy, m, d), fy, m);
  }

  // ---------------------------------------------------------------- documents

  /** A source document, its fields already looked up under the configured
      CSV column names. */
  datatype CsvDoc = CsvDoc(
    id: string,
    date: Option<string>,
    amount: RawNumber,
    category: Option<string>,
    note: Option<string>,
    payment: Option<string>,
    dayOfWeek: Option<string>)

  /** The normalised document written for a source document. */
  datatype LinkedDoc = LinkedDoc(
    userId: string,
    date: StoredDate,
    month: Option<string>,
    amount: JsNumber,
    absAmount: JsNumber,
    isLarge: bool,
    category: string,
    description: string,
    source: string,
    dayOfWeek: string)

  /** `parseFloat(IS_LARGE_THRESHOLD) || 1000`, given the parsed value. */
  function LargeThreshold(parsed: JsNumber): (t: real)
    ensures Truthy(parsed) ==> t == parsed.value
    ensures !Truthy(parsed) ==> t == 1000.0
  {
    if Truthy(parsed) then parsed.value else 1000.0
  }

  /** `Math.abs`: NaN stays NaN. */
  function AbsNumber(n: JsNumber): JsNumber {
    match n
    case NaN => NaN
    case Finite(v) => Finite(Abs(v))
  }

  /** The normalised document for one source document. */
  function Normalize(doc: CsvDoc, userId: string, threshold: real): LinkedDoc
  {
    var parsed := ParseRawDate(doc.date);
    var amount := ToNumber(doc.amount);
    var absAmount := AbsNumber(amount);
    LinkedDoc(userId, parsed.date, parsed.month, amount, absAmount,
              absAmount.Finite? && absAmount.value >= threshold,
              StringOr(doc.category, ""), StringOr(doc.note, ""),
              StringOr(doc.payment, ""), StringOr(doc.dayOfWeek, ""))
  }

  /** What the normalised document holds: the demo user's id; no date and
      no month key exactly when the raw date is missing or empty; the
      amount as `Number` reads it, sign kept, beside its absolute value
      (both NaN together); the large flag exactly when the absolute value
      is a number at or above the threshold; and the text fields, or "". */
  lemma NormalizeFields(doc: CsvDoc, userId: string, threshold: real)
    ensures var n := Normalize(doc, userId, threshold);
      && n.userId == userId
      && (!PresentString(doc.date) <==> n.date == NullDate)
      && (!PresentString(doc.date) <==> n.month.None?)
      && n.amount == ToNumber(doc.amount)
      && (n.absAmount.NaN? <==> n.amount.NaN?)
      && (n.amount.Finite? ==>
            n.absAmount.value >= 0.0
            && (n.absAmount.value == n.amount.value || n.absAmount.value == -n.amount.value))
      && (n.isLarge <==> n.absAmount.Finite? && n.absAmount.value >= threshold)
      && n.category == (if PresentString(doc.category) then doc.category.value else "")
      && n.description == (if PresentString(doc.note) then doc.note.value else "")
      && n.source == (if PresentString(doc.payment) then doc.payment.value else "")
      && n.dayOfWeek == (if PresentString(doc.dayOfWeek) then doc.dayOfWeek.value else "")
  {
  }

  /** With the default threshold, a row is large exactly when its amount is
      a number of magnitude 1000 or more, whichever its sign. */
  lemma LargeBySize(doc: CsvDoc, userId: string, parsed: JsNumber)
    requires !Truthy(parsed)
    ensures var n := Normalize(doc, userId, LargeThreshold(parsed));
      n.isLarge <==> n.amount.Finite? && (n.amount.value >= 1000.0 || n.amount.value <= -1000.0)
  {
    NormalizeFields(doc, userId, LargeThreshold(parsed));
  }

  // ---------------------------------------------------------------- batches

  /** `MODE === "copy"` inserts into the target collection; any other mode
      updates the source documents in place. */
  datatype Mode = Copy | Patch

  function ModeOf(mode: Option<string>): Mode {
    if mode == Some("copy") then Copy else Patch
  }

  /** One write: an insert of a normalised document, or an `updateOne` that
      sets its fields on the source document with the given id. */
  datatype Op = InsertDoc(doc: LinkedDoc) | SetFields(id: string, fields: LinkedDoc)

  function OpOf(mode: Mode, doc: CsvDoc, userId: string, threshold: real): Op {
    var n := Normalize(doc, userId, threshold);
    if mode == Copy then InsertDoc(n) else SetFields(doc.id, n)
  }

  /** The writes for the documents, in cursor order. */
  function OpsOf(docs: seq<CsvDoc>, mode: Mode, userId: string, threshold: real): (ops: seq<Op>)
    ensures |ops| == |docs|
  {
    if docs == [] then []
    else OpsOf(docs[..|docs| - 1], mode, userId, threshold) + [OpOf(mode, docs[|docs| - 1], userId, threshold)]
  }

  /** Write `i` is the write for document `i`: one per document, in order. */
  lemma {:induction false} OpsOfAt(docs: seq<CsvDoc>, mode: Mode, userId: string, threshold: real, i: nat)
    requires i < |docs|
    ensures OpsOf(docs, mode, userId, threshold)[i] == OpOf(mode, docs[i], userId, threshold)
    decreases |docs|
  {
    if i < |docs| - 1 {
      OpsOfAt(docs[..|docs| - 1], mode, userId, threshold, i);
    }
  }

  lemma OpsPrefixStep(docs: seq<CsvDoc>, mode: Mode, userId: string, threshold: real, i: nat)
    requires i < |docs|
    ensures var ops := OpsOf(docs, mode, userId, threshold);
      i + 1 <= |ops| && ops[..i + 1] == ops[..i] + [OpOf(mode, docs[i], userId, threshold)]
  {
    OpsOfAt(docs, mode, userId, threshold, i);
  }

  lemma OpsOfSnoc(docs: seq<CsvDoc>, i: nat, mode: Mode, userId: string, threshold: real)
    requires i < |docs|
    ensures OpsOf(docs[..i + 1], mode, userId, threshold)
              == OpsOf(docs[..i], mode, userId, threshold) + [OpOf(mode, docs[i], userId, threshold)]
  {
    assert docs[..i + 1][..i] == docs[..i];
  }

  /** `parseInt(BATCH_SIZE) || 1000`; an unset variable reads as NaN. */
  function BatchSize(env: Option<string>): (n: int)
    ensures n != 0
  {
    var p := if env.Some? then ParseInt(env.value) else NotANumber;
    if p.Int? && p.value != 0 then p.value else 1000
  }

  /** The size a batch reaches before `length >= batchSize` flushes it: the
      batch size when it is positive, and 1 when it is negative, since then
      every push flushes. */
  function FlushSize(batchSize: int): (e: nat)
    ensures e >= 1
    ensures batchSize >= 1 ==> e == batchSize
    ensures batchSize < 1 ==> e == 1
  {
    if batchSize >= 1 then batchSize else 1
  }

  function Flatten(bs: seq<seq<Op>>): seq<Op> {
    if bs == [] then [] else bs[0] + Flatten(bs[1..])
  }

  lemma {:induction false} FlattenAppend(bs: seq<seq<Op>>, b: seq<Op>)
    ensures Flatten(bs + [b]) == Flatten(bs) + b
    decreases |bs|
  {
    if bs != [] {
      assert (bs + [b])[1..] == bs[1..] + [b];
      FlattenAppend(bs[1..], b);
    }
  }

  /** `flushes` is `ops` cut into consecutive batches, each non-empty and at
      most `e` long, and every batch but the last exactly `e` long. */
  predicate BatchedAs(flushes: seq<seq<Op>>, ops: seq<Op>, e: nat) {
    && Flatten(flushes) == ops
    && (forall i :: 0 <= i < |flushes| ==> 1 <= |flushes[i]| <= e)
    && (forall i :: 0 <= i < |flushes| - 1 ==> |flushes[i]| == e)
  }

  /** The cut is determined by the writes and the size: two batchings of
      the same writes with the same size are the same. */
  lemma {:induction false} BatchingUnique(a: seq<seq<Op>>, b: seq<seq<Op>>, ops: seq<Op>, e: nat)
    requires BatchedAs(a, ops, e) && BatchedAs(b, ops, e)
    ensures a == b
    decreases |ops|
  {
    if a != [] && b != [] {
      assert ops == a[0] + Flatten(a[1..]) == b[0] + Flatten(b[1..]);
      if |a| == 1 && |b| > 1 {
        assert false;
      } else if |b| == 1 && |a| > 1 {
        assert false;
      }
      assert |a[0]| == |b[0]|;
      assert a[0] == ops[..|a[0]|] && b[0] == ops[..|b[0]|];
      var rest := ops[|a[0]|..];
      assert Flatten(a[1..]) == rest && Flatten(b[1..]) == rest;
      assert BatchedAs(a[1..], rest, e) by {
        forall i | 0 <= i < |a[1..]| ensures 1 <= |a[1..][i]| <= e {
          assert a[1..][i] == a[i + 1];
        }
        forall i | 0 <= i < |a[1..]| - 1 ensures |a[1..][i]| == e {
          assert a[1..][i] == a[i + 1];
        }
      }
      assert BatchedAs(b[1..], rest, e) by {
        forall i | 0 <= i < |b[1..]| ensures 1 <= |b[1..][i]| <= e {
          assert b[1..][i] == b[i + 1];
        }
        forall i | 0 <= i < |b[1..]| - 1 ensures |b[1..][i]| == e {
          assert b[1..][i] == b[i + 1];
        }
      }
      BatchingUnique(a[1..], b[1..], rest, e);
      assert a == [a[0]] + a[1..] && b == [b[0]] + b[1..];
    } else if a != [] {
      assert false;
    } else if b != [] {
      assert false;
    }
  }

  lemma FinalFlush(flushes: seq<seq<Op>>, pending: seq<Op>, ops: seq<Op>, e: nat)
    requires Flatten(flushes) + pending == ops && |pending| < e
    requires forall k :: 0 <= k < |flushes| ==> |flushes[k]| == e
    ensures BatchedAs(if |pending| > 0 then flushes + [pending] else flushes, ops, e)
  {
    if |pending| > 0 {
      FlattenAppend(flushes, pending);
    } else {
      assert pending == [];
      assert Flatten(flushes) == ops;
    }
  }

  /** One pass of the loop body after normalising: push the write, and
      flush the batch when `batch.length >= batchSize`. */
  method Push(flushes: seq<seq<Op>>, pending: seq<Op>, op: Op, batchSize: int)
    returns (flushes': seq<seq<Op>>, pending': seq<Op>)
    requires |pending| < FlushSize(batchSize)
    requires forall k :: 0 <= k < |flushes| ==> |flushes[k]| == FlushSize(batchSize)
    ensures Flatten(flushes') + pending' == Flatten(flushes) + pending + [op]
    ensures |pending'| < FlushSize(batchSize)
    ensures forall k :: 0 <= k < |flushes'| ==> |flushes'[k]| == FlushSize(batchSize)
  {
    pending' := pending + [op];
    flushes' := flushes;
    if |pending'| >= batchSize {
      FlattenAppend(flushes, pending');
      flushes' := flushes + [pending'];
      pending' := [];
    }
  }

  /** The cursor loop with its final flush: every document's write is pushed
      onto the pending batch, and the batch is flushed as soon as its length
      reaches the batch size; what is left is flushed at the end. */
  method LinkBatches(docs: seq<CsvDoc>, mode: Mode, userId: string, threshold: real, batchSize: int)
    returns (flushes: seq<seq<Op>>)
    ensures BatchedAs(flushes, OpsOf(docs, mode, userId, threshold), FlushSize(batchSize))
  {
    var e := FlushSize(batchSize);
    ghost var ops := OpsOf(docs, mode, userId, threshold);
    var pending: seq<Op> := [];
    flushes := [];
    var i := 0;
    while i < |docs|
      invariant 0 <= i <= |docs|
      invariant Flatten(flushes) + pending == ops[..i]
      invariant |pending| < e
      invariant forall k :: 0 <= k < |flushes| ==> |flushes[k]| == e
    {
      var op := OpOf(mode, docs[i], userId, threshold);
      OpsPrefixStep(docs, mode, userId, threshold, i);
      flushes, pending := Push(flushes, pending, op, batchSize);
      i := i + 1;
    }
    assert ops[..i] == ops;
    FinalFlush(flushes, pending, ops, e);
    flushes := if |pending| > 0 then flushes + [pending] else flushes;
  }

  // ---------------------------------------------------------------- the script

  datatype User = User(id: string, email: string)

  /** `User.findOne({ email })`: the first user with that email. */
  function FindUser(users: seq<User>, email: string): (r: Option<User>)
    ensures r.None? <==> forall u :: u in users ==> u.email != email
    ensures r.Some? ==> r.value in users && r.value.email == email
  {
    if users == [] then None
    else if users[0].email == email then Some(users[0])
    else FindUser(users[1..], email)
  }

  datatype Outcome =
    | Failed(message: string)
    | Linked(userId: string, clearedFirst: bool, flushes: seq<seq<Op>>)

  /** The whole run: find the demo user or fail; in copy mode with
      `CLEAR_BEFORE` set to "true", clear the demo user's old target
      documents first; then write the normalised documents in batches. */
  method LinkCsvToDemoUser(users: seq<User>, demoEmail: string, docs: seq<CsvDoc>,
                           mode: Option<string>, clearBefore: Option<string>,
                           thresholdEnv: JsNumber, batchSizeEnv: Option<string>)
    returns (out: Outcome)
    ensures out.Failed? <==> forall u :: u in users ==> u.email != demoEmail
    ensures out.Failed? ==> out.message == "Demo user with email " + demoEmail + " not found."
    ensures out.Linked? ==>
              && FindUser(users, demoEmail) == Some(User(out.userId, demoEmail))
              && (out.clearedFirst <==> ModeOf(mode) == Copy && clearBefore == Some("true"))
              && BatchedAs(out.flushes,
                           OpsOf(docs, ModeOf(mode), out.userId, LargeThreshold(thresholdEnv)),
                           FlushSize(BatchSize(batchSizeEnv)))
  {
    var demo := FindUser(users, demoEmail);
    if demo.None? {
      return Failed("Demo user with email " + demoEmail + " not found.");
    }
    var m := ModeOf(mode);
    var cleared := m == Copy && clearBefore == Some("true");
    var flushes := LinkBatches(docs, m, demo.value.id, LargeThreshold(thresholdEnv), BatchSize(batchSizeEnv));
    out := Linked(demo.value.id, cleared, flushes);
  }
}
