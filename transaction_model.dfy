/**
 * The transaction record and the rules its schema enforces when a record
 * is saved: `userId`, `category`, `type` and `amount` are required, `type`
 * is one of "income" and "expense", `amount` is at least 0, `paymentMode`
 * defaults to "Cash", `date` defaults to the current time, `description` is
 * optional and stored trimmed, and `createdAt`/`updatedAt` are stamped.
 */
module TransactionModel {
  import opened Options
  import opened Strings

  /** Identifiers of users and of transactions (database object ids). */
  type UserId = nat
  type TxId = nat

  datatype TxType = Income | Expense

  /** The string a `TxType` is stored and compared as. */
  function TypeName(t: TxType): string {
    match t
    case Income => "income"
    case Expense => "expense"
  }

  /** The `enum: ["income", "expense"]` check: which strings name a transaction type. */
  function ParseType(s: string): (r: Option<TxType>)
    ensures r.Some? <==> s == "income" || s == "expense"
    ensures r.Some? ==> TypeName(r.value) == s
  {
    if s == "income" then Some(Income)
    else if s == "expense" then Some(Expense)
    else None
  }

  lemma ParseTypeName(t: TxType)
    ensures ParseType(TypeName(t)) == Some(t)
  {
  }

  /**
   * A stored transaction. Dates are milliseconds since the epoch; amounts
   * are exact. `txType` is the stored string: saving checks it against the
   * enum, an update does not.
   */
  datatype Transaction = Transaction(
    id: TxId,
    userId: UserId,
    date: int,
    category: string,
    txType: string,
    amount: real,
    paymentMode: string,
    description: Option<string>,
    createdAt: int,
    updatedAt: int)

  /** What the schema guarantees of every record it has validated on save. */
  predicate Conforms(t: Transaction) {
    && t.category != ""
    && ParseType(t.txType).Some?
    && t.amount >= 0.0
    && (t.description.Some? ==> Trim(t.description.value) == t.description.value)
  }

  /** The fields of a request body; `None` is a field the body leaves out. */
  datatype Draft = Draft(
    date: Option<int>,
    category: Option<string>,
    txType: Option<string>,
    amount: Option<real>,
    paymentMode: Option<string>,
    description: Option<string>)

  /** Why the schema refuses to save a draft. */
  datatype SchemaError = RequiredMissing(path: string) | NotInEnum(path: string) | BelowMinimum(path: string)

  /** A required string is present and not empty. */
  predicate Present(s: Option<string>) {
    s.Some? && s.value != ""
  }

  /**
   * `new Transaction({...}).save()`: applies the schema's defaults and
   * setters to a draft and validates it, stamping both timestamps with
   * `now`.
   */
  function Build(id: TxId, userId: UserId, d: Draft, now: int): (r: Result<Transaction, SchemaError>)
    ensures r.Ok? <==>
      Present(d.category) && d.txType.Some? && ParseType(d.txType.value).Some?
      && d.amount.Some? && d.amount.value >= 0.0
    ensures r.Ok? ==> Conforms(r.value)
    ensures r.Ok? ==>
      && r.value.id == id && r.value.userId == userId
      && r.value.category == d.category.value
      && r.value.txType == d.txType.value
      && r.value.amount == d.amount.value
      && r.value.createdAt == now && r.value.updatedAt == now
    ensures r.Ok? ==> r.value.date == (if d.date.Some? then d.date.value else now)
    ensures r.Ok? ==> r.value.paymentMode == (if d.paymentMode.Some? then d.paymentMode.value else "Cash")
    ensures r.Ok? ==> r.value.description == TrimDescription(d.description)
  {
    if !Present(d.category) then Err(RequiredMissing("category"))
    else if d.txType.None? || d.txType.value == "" then Err(RequiredMissing("type"))
    else if ParseType(d.txType.value).None? then Err(NotInEnum("type"))
    else if d.amount.None? then Err(RequiredMissing("amount"))
    else if d.amount.value < 0.0 then Err(BelowMinimum("amount"))
    else
      var t := Transaction(
        id, userId,
        if d.date.Some? then d.date.value else now,
        d.category.value,
        d.txType.value,
        d.amount.value,
        if d.paymentMode.Some? then d.paymentMode.value else "Cash",
        TrimDescription(d.description),
        now, now);
      Ok(t)
  }

  /** The `trim: true` setter on `description`. */
  function TrimDescription(s: Option<string>): (r: Option<string>)
    ensures r.Some? <==> s.Some?
    ensures r.Some? ==> Trim(r.value) == r.value
    ensures r.Some? ==> r.value == Trim(s.value)
  {
    match s
    case None => None
    case Some(text) =>
      var t := Trim(text);
      TrimOfTrimmed(t);
      Some(t)
  }
}
