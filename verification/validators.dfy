/** The write-side check of a transaction request body: the field guards run
    in a fixed order and the first failing one names the error; a body that
    passes gets its amount's sign forced by its type. */
module Validators {
  import opened JsValues
  import opened Calendar
  import opened Records

  /** A body's `date`: absent or falsy (`undefined`, `null`, `''`, `0`), or a
      truthy value, held as what `new Date(value)` reads from it: `None` when
      that is an Invalid Date. */
  datatype DateField = NoDateGiven | DateGiven(parsed: Option<Date>)

  /** A transaction request body. */
  datatype Payload = Payload(
    date: DateField,
    amount: RawNumber,
    txType: Option<string>,
    category: Option<string>,
    paymentMethod: Option<string>,
    note: Option<string>)

  /** The fields a valid body yields, with the sign-normalised amount; the
      date is passed on unparsed, seen here as what `new Date` reads from it. */
  datatype TxData = TxData(
    date: Option<Date>,
    amount: real,
    txType: TxType,
    category: string,
    paymentMethod: Option<string>,
    note: Option<string>)

  datatype Validation = Invalid(message: string) | Valid(data: TxData)

  const DateRequired := "date is required"
  const AmountNotNumber := "amount must be a number"
  const TypeInvalid := "type must be expense or income"
  const CategoryRequired := "category is required"

  /** `amount === undefined || amount === null || isNaN(Number(amount))`. */
  predicate AmountRejected(a: RawNumber) {
    a.Undefined? || a.Null? || (a.Given? && a.n.NaN?)
  }

  /** The type names the store accepts. */
  function ParseType(t: Option<string>): (r: Option<TxType>)
    ensures r == Some(Expense) <==> t == Some("expense")
    ensures r == Some(Income) <==> t == Some("income")
  {
    if t == Some("expense") then Some(Expense)
    else if t == Some("income") then Some(Income)
    else None
  }

  /** The two conditional updates of the amount: a positive expense is
      negated, a negative income is replaced by its absolute value. */
  function NormalizeSign(t: TxType, n: real): (r: real)
    ensures t == Expense ==> r <= 0.0
    ensures t == Income ==> r >= 0.0
    ensures Abs(r) == Abs(n)
    ensures (t == Expense && n <= 0.0) || (t == Income && n >= 0.0) ==> r == n
  {
    var afterExpense := if t == Expense && n > 0.0 then -n else n;
    if t == Income && afterExpense < 0.0 then Abs(afterExpense) else afterExpense
  }

  /** `validateTransactionPayload`. */
  function ValidateTransactionPayload(p: Payload): (v: Validation)
    // the guards, in their order; each fires only when the earlier ones passed
    ensures p.date.NoDateGiven? ==> v == Invalid(DateRequired)
    ensures p.date.DateGiven? && AmountRejected(p.amount) ==> v == Invalid(AmountNotNumber)
    ensures (p.date.DateGiven? && !AmountRejected(p.amount) && ParseType(p.txType).None?)
              ==> v == Invalid(TypeInvalid)
    ensures (p.date.DateGiven? && !AmountRejected(p.amount) && ParseType(p.txType).Some?
             && !PresentString(p.category))
              ==> v == Invalid(CategoryRequired)
    ensures v.Valid? <==>
              p.date.DateGiven? && !AmountRejected(p.amount) && ParseType(p.txType).Some?
              && PresentString(p.category)
    // a valid body: the amount's sign follows the type, its magnitude is kept,
    // and every other field passes through unchanged (a truthy date that
    // does not parse included: the guard only asks for a truthy value)
    ensures v.Valid? ==>
              && v.data.date == p.date.parsed
              && Some(v.data.txType) == ParseType(p.txType)
              && v.data.category == p.category.value
              && v.data.paymentMethod == p.paymentMethod
              && v.data.note == p.note
              && Abs(v.data.amount) == Abs(p.amount.n.value)
              && (v.data.txType == Expense ==> v.data.amount <= 0.0)
              && (v.data.txType == Income ==> v.data.amount >= 0.0)
  {
    if p.date.NoDateGiven? then Invalid(DateRequired)
    else if AmountRejected(p.amount) then Invalid(AmountNotNumber)
    else if ParseType(p.txType).None? then Invalid(TypeInvalid)
    else if !PresentString(p.category) then Invalid(CategoryRequired)
    else
      var t := ParseType(p.txType).value;
      Valid(TxData(p.date.parsed, NormalizeSign(t, p.amount.n.value), t,
                   p.category.value, p.paymentMethod, p.note))
  }
}
