/** The transactions controller over an in-memory transaction collection:
    `list` filters one user's rows and orders them newest first, `create`
    validates the body before inserting, and `remove` deletes a row only
    when both its id and its owner match. */
module TransactionsCtrl {
  import opened JsValues
  import opened Strings
  import opened Calendar
  import opened Records
  import opened Replies
  import opened Validators
  import opened DateUtil
  import opened Sorting

  // ---------------------------------------------------------------- ids

  /** `mongoose.isValidObjectId` on a route parameter: twenty-four hex
      digits, or any twelve characters (read as the twelve raw bytes). */
  predicate IsValidObjectId(id: string) {
    (|id| == 24 && AllHexDigits(id)) || |id| == 12
  }

  /** The ids of the rows. */
  function Ids(rows: seq<Transaction>): (r: set<string>)
    ensures forall t :: t in rows ==> t.id in r
    ensures forall x :: x in r ==> exists t :: t in rows && t.id == x
  {
    if rows == [] then {} else {rows[0].id} + Ids(rows[1..])
  }

  /** `_id` is unique in the collection. */
  predicate IdsDistinct(rows: seq<Transaction>) {
    rows == [] || (rows[0].id !in Ids(rows[1..]) && IdsDistinct(rows[1..]))
  }

  // ---------------------------------------------------------------- list

  /** The conditions `list` puts in its filter: the requester's rows, inside
      the month window when `month` is given, of that category when
      `category` is given. */
  predicate Listed(t: Transaction, requester: string, month: Option<string>, category: Option<string>) {
    && t.userId == requester
    && PassesDateFilter(t.date, MonthFilter(month))
    && (PresentString(category) ==> t.category == category.value)
  }

  /** `Transaction.find(filter)`, in collection order. */
  function Select(rows: seq<Transaction>, requester: string, month: Option<string>, category: Option<string>)
    : (r: seq<Transaction>)
    ensures forall t :: t in r <==> t in rows && Listed(t, requester, month, category)
    // each listed row as often as the collection holds it, no other row at all
    ensures forall t :: multiset(r)[t] == if Listed(t, requester, month, category) then multiset(rows)[t] else 0
    ensures |r| <= |rows|
  {
    if rows == [] then []
    else
      assert rows == [rows[0]] + rows[1..];
      (if Listed(rows[0], requester, month, category) then [rows[0]] else [])
         + Select(rows[1..], requester, month, category)
  }

  /** `.sort({ date: -1 })`: a row may precede another when it is not older. */
  predicate NewestFirst(a: Transaction, b: Transaction) {
    DateLe(b.date, a.date)
  }

  lemma NewestFirstPreorder()
    ensures TotalPreorder(NewestFirst)
  {
    forall a: Transaction, b: Transaction ensures NewestFirst(a, b) || NewestFirst(b, a) {
      assert DateLe(b.date, a.date) || DateLe(a.date, b.date);
    }
  }

  // ---------------------------------------------------------------- create

  /** The document `create` inserts for a valid body: the requester as owner,
      the normalised fields, and `''` for a missing payment method or note. */
  function StoredRecord(id: string, requester: string, data: TxData): Transaction
    requires data.date.Some?
  {
    Transaction(id, requester, data.date.value, data.amount, data.txType, data.category,
                StringOr(data.paymentMethod, ""), StringOr(data.note, ""))
  }

  /** What `create` stores for a body the validator accepts: the requester's
      row, the date, type and category of the body, the amount with the
      type's sign and the body's magnitude, and the payment method and note
      or `''`. */
  lemma CreateStoresNormalised(id: string, requester: string, p: Payload)
    requires ValidateTransactionPayload(p).Valid? && p.date.parsed.Some?
    ensures var t := StoredRecord(id, requester, ValidateTransactionPayload(p).data);
      && t.id == id && t.userId == requester
      && t.date == p.date.parsed.value && t.category == p.category.value
      && Some(t.txType) == ParseType(p.txType)
      && SignConsistent(t) && Abs(t.amount) == Abs(p.amount.n.value)
      && (PresentString(p.paymentMethod) ==> t.paymentMethod == p.paymentMethod.value)
      && (!PresentString(p.paymentMethod) ==> t.paymentMethod == "")
      && (PresentString(p.note) ==> t.note == p.note.value)
      && (!PresentString(p.note) ==> t.note == "")
  {
  }

  lemma {:induction false} AppendFreshId(rows: seq<Transaction>, t: Transaction)
    requires IdsDistinct(rows) && t.id !in Ids(rows)
    ensures IdsDistinct(rows + [t])
    decreases |rows|
  {
    if rows != [] {
      assert (rows + [t])[1..] == rows[1..] + [t];
      AppendFreshId(rows[1..], t);
    } else {
      assert rows + [t] == [t];
    }
  }

  // ---------------------------------------------------------------- remove

  /** The filter of `deleteOne({ _id: id, userId })`. */
  predicate Owned(t: Transaction, id: string, owner: string) {
    t.id == id && t.userId == owner
  }

  /** `deleteOne`: the first row matching the filter goes, nothing else. */
  function DeleteOne(rows: seq<Transaction>, id: string, owner: string): (r: seq<Transaction>)
    ensures forall t :: t in r ==> t in rows
    ensures forall t :: !Owned(t, id, owner) ==> multiset(r)[t] == multiset(rows)[t]
    ensures (exists t :: t in rows && Owned(t, id, owner)) ==> |r| == |rows| - 1
    ensures (forall t :: t in rows ==> !Owned(t, id, owner)) ==> r == rows
  {
    if rows == [] then []
    else
      assert rows == [rows[0]] + rows[1..];
      if Owned(rows[0], id, owner) then rows[1..]
      else [rows[0]] + DeleteOne(rows[1..], id, owner)
  }

  /** With unique ids, no row matching the filter is left behind. */
  lemma {:induction false} DeleteOneRemovesMatch(rows: seq<Transaction>, id: string, owner: string)
    requires IdsDistinct(rows)
    ensures forall t :: t in DeleteOne(rows, id, owner) ==> !Owned(t, id, owner)
    ensures IdsDistinct(DeleteOne(rows, id, owner))
    ensures Ids(DeleteOne(rows, id, owner)) <= Ids(rows)
    decreases |rows|
  {
    if rows != [] {
      DeleteOneRemovesMatch(rows[1..], id, owner);
      if !Owned(rows[0], id, owner) {
        assert DeleteOne(rows, id, owner)[1..] == DeleteOne(rows[1..], id, owner);
      }
    }
  }

  /** Another user's row is never deleted, whatever the id. */
  lemma OthersRowsKept(rows: seq<Transaction>, id: string, owner: string, t: Transaction)
    requires t in rows && t.userId != owner
    ensures t in DeleteOne(rows, id, owner)
  {
    assert multiset(DeleteOne(rows, id, owner))[t] == multiset(rows)[t];
  }

  // ---------------------------------------------------------------- the store

  /** The transaction collection. */
  class TransactionStore {
    var rows: seq<Transaction>

    /** Unique ids, and every stored amount signed by its type. */
    ghost predicate Valid()
      reads this
    {
      IdsDistinct(rows) && forall t :: t in rows ==> SignConsistent(t)
    }

    constructor ()
      ensures Valid() && rows == []
    {
      rows := [];
    }

    /** `list`: the requester's rows passing the month and category filters,
        newest first. */
    method List(requester: string, month: Option<string>, category: Option<string>)
      returns (r: seq<Transaction>)
      ensures forall t :: t in r <==> t in rows && Listed(t, requester, month, category)
      ensures forall t :: multiset(r)[t] == if Listed(t, requester, month, category) then multiset(rows)[t] else 0
      ensures SortedBy(r, NewestFirst)
    {
      var found := Select(rows, requester, month, category);
      r := SortBy(found, NewestFirst);
      NewestFirstPreorder();
      SortBySorted(found, NewestFirst);
      forall t ensures t in r <==> t in found {
        SortByMembers(found, NewestFirst, t);
      }
    }

    /** `create`: a body the validator rejects is answered with 400 and its
        message and nothing is stored; a valid body whose date does not parse
        makes `Transaction.create` reject, so nothing is stored and no answer
        is sent; otherwise exactly one row is appended, with the id the store
        assigns. */
    method Create(requester: string, p: Payload, freshId: string) returns (reply: Reply<Transaction>)
      requires Valid() && freshId !in Ids(rows)
      modifies this
      ensures Valid()
      ensures ValidateTransactionPayload(p).Invalid? ==>
                reply == BadRequest(ValidateTransactionPayload(p).message) && rows == old(rows)
      ensures ValidateTransactionPayload(p).Valid? && p.date.parsed.None? ==>
                reply == NoReply && rows == old(rows)
      ensures ValidateTransactionPayload(p).Valid? && p.date.parsed.Some? ==>
                var t := StoredRecord(freshId, requester, ValidateTransactionPayload(p).data);
                reply == Ok(t) && rows == old(rows) + [t]
    {
      var v := ValidateTransactionPayload(p);
      if v.Invalid? {
        return BadRequest(v.message);
      }
      if v.data.date.None? {
        return NoReply;
      }
      var t := StoredRecord(freshId, requester, v.data);
      CreateStoresNormalised(freshId, requester, p);
      AppendFreshId(rows, t);
      rows := rows + [t];
      reply := Ok(t);
    }

    /** `remove`: a malformed id is answered with 400 and nothing changes;
        otherwise the row with that id is deleted if the requester owns it,
        and the answer is `{ ok: true }` either way. */
    method Remove(requester: string, id: string) returns (reply: Reply<bool>)
      requires Valid()
      modifies this
      ensures Valid()
      ensures !IsValidObjectId(id) ==> reply == BadRequest("Invalid id") && rows == old(rows)
      ensures IsValidObjectId(id) ==> reply == Ok(true) && rows == DeleteOne(old(rows), id, requester)
    {
      if !IsValidObjectId(id) {
        return BadRequest("Invalid id");
      }
      DeleteOneRemovesMatch(rows, id, requester);
      rows := DeleteOne(rows, id, requester);
      reply := Ok(true);
    }
  }
}
