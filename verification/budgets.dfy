/** The budgets controller over an in-memory budget collection keyed by
    (user, month): `getByMonth` reads one budget together with the live
    summary of that month, `save` upserts one. */
module BudgetsCtrl {
  import opened JsValues
  import opened Records
  import opened Replies
  import opened Summary
  import opened TransactionsCtrl

  type BudgetKey = (string, string)

  const MonthRequiredForGet := "month (YYYY-MM) is required"
  const MonthRequiredForSave := "month is required"

  /** The body of a `getByMonth` answer. */
  datatype BudgetView = BudgetView(budget: Option<Budget>, summary: MonthlySummary)

  /** The unique index on `{ userId, month }`: each stored budget sits under
      its own user and month, so there is at most one per pair. */
  predicate Keyed(docs: map<BudgetKey, Budget>) {
    forall k :: k in docs ==> docs[k].userId == k.0 && docs[k].month == k.1
  }

  /** `Number(monthlySavingTarget) || 0`. */
  function SavingTarget(x: RawNumber): (r: real)
    ensures !Truthy(ToNumber(x)) ==> r == 0.0
    ensures Truthy(ToNumber(x)) ==> r == ToNumber(x).value
    ensures x.Undefined? || x.Null? || x == Given(NaN) ==> r == 0.0
  {
    var n := ToNumber(x);
    if Truthy(n) then n.value else 0.0
  }

  /** `limits || {}`: an absent or `null` limits object becomes `{}`. */
  function LimitsOrEmpty(limits: Option<map<string, real>>): (r: map<string, real>)
    ensures limits.Some? ==> r == limits.value
    ensures limits.None? ==> r == map[]
  {
    if limits.Some? then limits.value else map[]
  }

  /** `findOneAndUpdate({ userId, month }, { $set: ... }, { upsert: true })`. */
  function Upsert(docs: map<BudgetKey, Budget>, b: Budget): (r: map<BudgetKey, Budget>)
    ensures (b.userId, b.month) in r && r[(b.userId, b.month)] == b
    ensures r.Keys == docs.Keys + {(b.userId, b.month)}
    ensures forall k :: k in docs && k != (b.userId, b.month) ==> r[k] == docs[k]
  {
    docs[(b.userId, b.month) := b]
  }

  /** The upsert keeps one budget per (user, month). */
  lemma UpsertKeyed(docs: map<BudgetKey, Budget>, b: Budget)
    requires Keyed(docs)
    ensures Keyed(Upsert(docs, b))
  {
  }

  /** Saving the same budget twice leaves what saving it once leaves. */
  lemma UpsertIdempotent(docs: map<BudgetKey, Budget>, b: Budget)
    ensures Upsert(Upsert(docs, b), b) == Upsert(docs, b)
  {
  }

  /** Saving budgets for two different (user, month) pairs commutes. */
  lemma UpsertCommutes(docs: map<BudgetKey, Budget>, a: Budget, b: Budget)
    requires (a.userId, a.month) != (b.userId, b.month)
    ensures Upsert(Upsert(docs, a), b) == Upsert(Upsert(docs, b), a)
  {
  }

  /** `Budget.findOne({ userId, month })`, or `null`. */
  function FindBudget(docs: map<BudgetKey, Budget>, userId: string, month: string): (r: Option<Budget>)
    ensures r.None? <==> (userId, month) !in docs
    ensures r.Some? ==> r.value == docs[(userId, month)]
    ensures Keyed(docs) && r.Some? ==> r.value.userId == userId && r.value.month == month
  {
    if (userId, month) in docs then Some(docs[(userId, month)]) else None
  }

  /** The budget collection. */
  class BudgetStore {
    var docs: map<BudgetKey, Budget>

    ghost predicate Valid()
      reads this
    {
      Keyed(docs)
    }

    constructor ()
      ensures Valid() && docs == map[]
    {
      docs := map[];
    }

    /** `getByMonth`: 400 without a month; otherwise the stored budget of
        the requester for that month (`null` when there is none) and the
        requester's summary of that month over the transaction collection. */
    method GetByMonth(requester: string, month: Option<string>, txs: TransactionStore)
      returns (reply: Reply<BudgetView>)
      requires Valid()
      ensures !PresentString(month) ==> reply == BadRequest(MonthRequiredForGet)
      ensures PresentString(month) ==> reply.Ok?
      ensures reply.Ok? ==> reply.body.summary == GetMonthlySummary(txs.rows, requester, month)
      ensures reply.Ok? && reply.body.budget.Some? ==>
                reply.body.budget.value.userId == requester
                && reply.body.budget.value.month == month.value
      ensures reply.Ok? ==> (reply.body.budget.None? <==> (requester, month.value) !in docs)
      ensures reply.Ok? && reply.body.budget.Some? ==> reply.body.budget.value == docs[(requester, month.value)]
    {
      if !PresentString(month) {
        return BadRequest(MonthRequiredForGet);
      }
      var budget := FindBudget(docs, requester, month.value);
      reply := Ok(BudgetView(budget, GetMonthlySummary(txs.rows, requester, month)));
    }

    /** `save`: 400 without a month and nothing changes; otherwise the
        requester's budget for the month is created or replaced with the
        given limits (or `{}`) and target (or 0), and no other budget changes. */
    method Save(requester: string, month: Option<string>, limits: Option<map<string, real>>,
                target: RawNumber)
      returns (reply: Reply<Budget>)
      requires Valid()
      modifies this
      ensures Valid()
      ensures !PresentString(month) ==> reply == BadRequest(MonthRequiredForSave) && docs == old(docs)
      ensures PresentString(month) ==>
                var b := Budget(requester, month.value, LimitsOrEmpty(limits), SavingTarget(target));
                reply == Ok(b) && docs == Upsert(old(docs), b)
    {
      if !PresentString(month) {
        return BadRequest(MonthRequiredForSave);
      }
      var b := Budget(requester, month.value, LimitsOrEmpty(limits), SavingTarget(target));
      UpsertKeyed(docs, b);
      docs := Upsert(docs, b);
      reply := Ok(b);
    }
  }

  /** After a save, looking the budget up again finds exactly what was saved. */
  lemma SaveThenFind(docs: map<BudgetKey, Budget>, requester: string, month: string,
                     limits: Option<map<string, real>>, target: RawNumber)
    ensures var b := Budget(requester, month, LimitsOrEmpty(limits), SavingTarget(target));
      FindBudget(Upsert(docs, b), requester, month) == Some(b)
  {
  }
}
