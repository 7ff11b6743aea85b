/** The stored document shapes of the Transaction and Budget models. */
module Records {
  import opened Calendar

  datatype TxType = Expense | Income

  /** A stored transaction. Amounts are exact reals; by the write-side
      convention an expense is stored non-positive and an income
      non-negative. */
  datatype Transaction = Transaction(
    id: string,
    userId: string,
    date: Date,
    amount: real,
    txType: TxType,
    category: string,
    paymentMethod: string,
    note: string)

  /** The sign convention the validator establishes and the reports rely on. */
  predicate SignConsistent(t: Transaction) {
    (t.txType == Expense ==> t.amount <= 0.0) && (t.txType == Income ==> t.amount >= 0.0)
  }

  /** A stored budget: per-category limits and a monthly saving target for
      one user and one `YYYY-MM` month. */
  datatype Budget = Budget(
    userId: string,
    month: string,
    limits: map<string, real>,
    monthlySavingTarget: real)
}

/** The shapes of a controller's answer: a 400 with a message, a success
    carrying the response body, or none at all when the handler's promise
    rejects before it answers (Express 4 does not catch that rejection, so
    the request is left without a response). */
module Replies {
  datatype Reply<+T> = BadRequest(message: string) | Ok(body: T) | NoReply
}
