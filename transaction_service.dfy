/**
 * The transaction service: owner-scoped listing with optional type,
 * category and single-day filters, newest-first ordering and offset
 * pagination, and owner-scoped create, update and delete with their 400,
 * 404 and 500 outcomes. The document store is an in-memory sequence of
 * records held by `TransactionStore`.
 */
module TransactionService {
  import opened Options
  import opened Strings
  import opened Paging
  import opened TransactionModel

  /** The controller's defaults for absent `page` and `limit` query parameters. */
  const DefaultPage: nat := 1
  const DefaultLimit: nat := 10

  /** A `{status, message, data}` service result. */
  datatype Reply<T> = Reply(status: int, message: string, data: Option<T>)

  /**
   * The calendar day named by the `date` filter: `start` is `new Date(date)`,
   * `end` the same instant moved to 23:59:59.999 local time.
   */
  datatype DayWindow = DayWindow(start: int, end: int)

  /** The `type`, `category` and `date` request filters; "" stands for an absent or empty parameter. */
  datatype Filters = Filters(txType: string, category: string, date: Option<DayWindow>)

  const NoFilters := Filters("", "", None)

  /** The database query: `{ userId, type?, category?: {$regex, $options: "i"}, date?: {$gte, $lte} }`. */
  datatype Query = Query(userId: UserId, txType: Option<string>, category: Option<string>, date: Option<DayWindow>)

  /** Whether the store matches record `t` against query `q`. */
  predicate Matches(q: Query, t: Transaction) {
    && t.userId == q.userId
    && (q.txType.Some? ==> t.txType == q.txType.value)
    && (q.category.Some? ==> ContainsIgnoringCase(t.category, q.category.value))
    && (q.date.Some? ==> q.date.value.start <= t.date <= q.date.value.end)
  }

  /** Which records a listing request by `userId` with filters `f` is meant to return. */
  predicate Selected(userId: UserId, f: Filters, t: Transaction) {
    && t.userId == userId
    && (f.txType in {"", "all"} || t.txType == f.txType)
    && (AllSpace(f.category) || ContainsIgnoringCase(t.category, f.category))
    && (f.date.None? || f.date.value.start <= t.date <= f.date.value.end)
  }

  /**
   * The query object, built field by field: the owner always, then `type`
   * unless it is empty or "all", `category` unless it is blank, and the day
   * window when a date is given.
   */
  function QueryFor(userId: UserId, f: Filters): (q: Query)
    ensures q.userId == userId
    ensures q.txType.Some? <==> f.txType != "" && f.txType != "all"
    ensures q.category.Some? <==> !AllSpace(f.category)
    ensures q.date == f.date
    ensures forall t :: Matches(q, t) <==> Selected(userId, f, t)
  {
    var q := Query(userId, None, None, None);
    var q := if f.txType != "" && f.txType != "all" then q.(txType := Some(f.txType)) else q;
    var q := if f.category != "" && Trim(f.category) != "" then q.(category := Some(f.category)) else q;
    var q := if f.date.Some? then q.(date := f.date) else q;
    q
  }

  /** `Transaction.find(query)`: the matching records, in store order. */
  function FindAll(s: seq<Transaction>, q: Query): (r: seq<Transaction>)
    ensures |r| <= |s|
    ensures forall k :: 0 <= k < |r| ==> Matches(q, r[k])
    ensures multiset(r) <= multiset(s)
  {
    if s == [] then []
    else
      assert s == [s[0]] + s[1..];
      (if Matches(q, s[0]) then [s[0]] else []) + FindAll(s[1..], q)
  }

  /** `find` keeps every matching record, as often as the store holds it, and nothing else. */
  lemma {:induction false} FindAllCount(s: seq<Transaction>, q: Query, t: Transaction)
    ensures multiset(FindAll(s, q))[t] == if Matches(q, t) then multiset(s)[t] else 0
  {
    if s != [] {
      var head := if Matches(q, s[0]) then [s[0]] else [];
      FindAllCount(s[1..], q, t);
      CountCons(s[0], s[1..], head, FindAll(s[1..], q), t, Matches(q, s[0]), Matches(q, t));
      HeadTail(s);
    }
  }

  lemma HeadTail(s: seq<Transaction>)
    requires s != []
    ensures s == [s[0]] + s[1..]
  {
  }

  /** One step of the count: the head is kept exactly when it matches, and the rest is already counted. */
  lemma CountCons(x: Transaction, tail: seq<Transaction>, head: seq<Transaction>, rest: seq<Transaction>,
                  t: Transaction, keepX: bool, keepT: bool)
    requires head == if keepX then [x] else []
    requires x == t ==> keepX == keepT
    requires multiset(rest)[t] == if keepT then multiset(tail)[t] else 0
    ensures multiset(head + rest)[t] == if keepT then multiset([x] + tail)[t] else 0
  {
    assert multiset(head + rest) == multiset(head) + multiset(rest);
    assert multiset([x] + tail) == multiset{x} + multiset(tail);
  }

  /** Dates never increase along `s`. */
  predicate NewestFirst(s: seq<Transaction>) {
    forall i, j :: 0 <= i < j < |s| ==> s[i].date >= s[j].date
  }

  /** Inserts `t` into a newest-first sequence. */
  function InsertByDate(t: Transaction, s: seq<Transaction>): (r: seq<Transaction>)
    requires NewestFirst(s)
    ensures NewestFirst(r)
    ensures multiset(r) == multiset(s) + multiset{t}
    ensures r[0] == t || (s != [] && r[0] == s[0])
  {
    if s == [] || t.date >= s[0].date then
      ConsNewestFirst(t, s);
      [t] + s
    else
      var rest := InsertByDate(t, s[1..]);
      assert s == [s[0]] + s[1..];
      ConsNewestFirst(s[0], rest);
      [s[0]] + rest
  }

  /** A record no older than the head of a newest-first sequence can go in front of it. */
  lemma ConsNewestFirst(x: Transaction, s: seq<Transaction>)
    requires NewestFirst(s) && (s == [] || x.date >= s[0].date)
    ensures NewestFirst([x] + s)
  {
    var r := [x] + s;
    forall i, j | 0 <= i < j < |r| ensures r[i].date >= r[j].date {
      if i == 0 && j > 1 {
        assert r[j] == s[j - 1];
      }
    }
  }

  /** `.sort({ date: -1 })`. The order of records with equal dates is not specified by the store. */
  function SortNewestFirst(s: seq<Transaction>): (r: seq<Transaction>)
    ensures NewestFirst(r)
    ensures multiset(r) == multiset(s)
  {
    if s == [] then []
    else
      assert s == [s[0]] + s[1..];
      InsertByDate(s[0], SortNewestFirst(s[1..]))
  }

  /** The records a listing selects, newest first: the sequence the pages are cut from. */
  function Ranked(s: seq<Transaction>, userId: UserId, f: Filters): seq<Transaction> {
    SortNewestFirst(FindAll(s, QueryFor(userId, f)))
  }

  /** The ranked sequence holds each selected record as often as the store does, and nothing else. */
  lemma RankedCount(s: seq<Transaction>, userId: UserId, f: Filters, t: Transaction)
    ensures multiset(Ranked(s, userId, f))[t] == if Selected(userId, f, t) then multiset(s)[t] else 0
  {
    FindAllCount(s, QueryFor(userId, f), t);
  }

  /** Sorting keeps the count of the selection. */
  lemma RankedSize(s: seq<Transaction>, userId: UserId, f: Filters)
    ensures |Ranked(s, userId, f)| == |FindAll(s, QueryFor(userId, f))|
  {
    var m := FindAll(s, QueryFor(userId, f));
    assert |multiset(Ranked(s, userId, f))| == |multiset(m)|;
  }

  /** Every ranked record is a stored record the filters select. */
  lemma RankedMembers(s: seq<Transaction>, userId: UserId, f: Filters)
    ensures forall t :: t in Ranked(s, userId, f) ==> t in s && Selected(userId, f, t)
  {
    var m := FindAll(s, QueryFor(userId, f));
    forall t | t in Ranked(s, userId, f) ensures t in s && Selected(userId, f, t) {
      assert t in multiset(Ranked(s, userId, f));
      assert t in multiset(m);
      var k :| 0 <= k < |m| && m[k] == t;
    }
  }

  /** A page of the ranked sequence is newest first and holds only selected records of the store. */
  lemma PageFacts(s: seq<Transaction>, userId: UserId, f: Filters, page: nat, limit: nat)
    requires page >= 1 && limit >= 1
    ensures NewestFirst(PageOf(Ranked(s, userId, f), page, limit))
    ensures forall t :: t in PageOf(Ranked(s, userId, f), page, limit) ==> t in s && Selected(userId, f, t)
  {
    RankedMembers(s, userId, f);
  }

  /** The `data` of a listing: one page of records, the total and the page count. */
  datatype Listing = Listing(transactions: seq<Transaction>, total: nat, currentPage: nat, totalPages: nat)

  /**
   * The most recent `limit` records of a user, with no filters: the context
   * the AI endpoints fetch as page 1 of size 1000 or 2000.
   */
  function RecentWindow(s: seq<Transaction>, userId: UserId, limit: nat): seq<Transaction>
    requires limit >= 1
  {
    PageOf(Ranked(s, userId, NoFilters), 1, limit)
  }

  /**
   * The window holds the user's `min(N, limit)` newest records: a prefix of
   * the ranked sequence, owned by the user, and no record left out is newer
   * than one kept.
   */
  lemma RecentWindowIsNewest(s: seq<Transaction>, userId: UserId, limit: nat)
    requires limit >= 1
    ensures var all := Ranked(s, userId, NoFilters);
      && RecentWindow(s, userId, limit) == all[..Min(limit, |all|)]
      && |RecentWindow(s, userId, limit)| == Min(limit, |FindAll(s, QueryFor(userId, NoFilters))|)
      && (forall i, j :: 0 <= i < Min(limit, |all|) <= j < |all| ==> all[i].date >= all[j].date)
    ensures forall t :: t in RecentWindow(s, userId, limit) ==> t.userId == userId && t in s
  {
    var all := Ranked(s, userId, NoFilters);
    var m := FindAll(s, QueryFor(userId, NoFilters));
    assert |multiset(all)| == |multiset(m)|;
    forall t | t in RecentWindow(s, userId, limit) ensures t.userId == userId && t in s {
      assert t in multiset(all);
      assert t in multiset(m);
      var k :| 0 <= k < |m| && m[k] == t;
      assert Matches(QueryFor(userId, NoFilters), t);
    }
  }

  /**
   * Replacement values for some fields of a record: the request body
   * `findOneAndUpdate` receives as its update. The body may name any schema
   * path, the owner included, and the type is the string as sent.
   */
  datatype Patch = Patch(
    userId: Option<UserId>,
    date: Option<int>,
    category: Option<string>,
    txType: Option<string>,
    amount: Option<real>,
    paymentMode: Option<string>,
    description: Option<string>)

  const EmptyPatch := Patch(None, None, None, None, None, None, None)

  function Pick<T>(given: Option<T>, current: T): T {
    if given.Some? then given.value else current
  }

  /**
   * The record after an update: each field the patch names is replaced, the
   * description through the trimming setter, and `updatedAt` is stamped.
   * The schema's validators are not run on an update, so the new values are
   * stored as given.
   */
  function ApplyPatch(t: Transaction, p: Patch, now: int): (r: Transaction)
    ensures r.id == t.id && r.createdAt == t.createdAt && r.updatedAt == now
    ensures r.userId == Pick(p.userId, t.userId)
    ensures r.txType == Pick(p.txType, t.txType) && r.amount == Pick(p.amount, t.amount)
    ensures r.category == Pick(p.category, t.category)
    ensures p.description.Some? ==> r.description == TrimDescription(p.description)
    ensures p == EmptyPatch ==> r == t.(updatedAt := now)
  {
    t.(userId := Pick(p.userId, t.userId),
       date := Pick(p.date, t.date),
       category := Pick(p.category, t.category),
       txType := Pick(p.txType, t.txType),
       amount := Pick(p.amount, t.amount),
       paymentMode := Pick(p.paymentMode, t.paymentMode),
       description := if p.description.Some? then TrimDescription(p.description) else t.description,
       updatedAt := now)
  }

  /** An update hands the record to another user exactly when its body names one. */
  lemma PatchReassigns(t: Transaction, p: Patch, now: int)
    ensures ApplyPatch(t, p, now).userId != t.userId <==> p.userId.Some? && p.userId.value != t.userId
  {
  }

  /** A reassigned record is no longer its former owner's: the next lookup by that owner misses it. */
  lemma ReassignedIsLost(s: seq<Transaction>, i: nat, p: Patch, now: int)
    requires i < |s| && DistinctIds(s)
    requires p.userId.Some? && p.userId.value != s[i].userId
    ensures Locate(s[i := ApplyPatch(s[i], p, now)], s[i].id, s[i].userId).None?
  {
    var s' := s[i := ApplyPatch(s[i], p, now)];
    forall k | 0 <= k < |s'| ensures s'[k].id != s[i].id || s'[k].userId != s[i].userId {
      if k != i {
        assert s'[k] == s[k];
      }
    }
  }

  /**
   * The update skips validation: a conforming record given an out-of-enum
   * type or a negative amount is stored without complaint and no longer
   * conforms.
   */
  lemma PatchSkipsSchema(t: Transaction, p: Patch, now: int)
    requires (p.txType.Some? && ParseType(p.txType.value).None?) || (p.amount.Some? && p.amount.value < 0.0)
    ensures !Conforms(ApplyPatch(t, p, now))
  {
  }

  /** The route's `:id`, which either casts to an object id or does not. */
  datatype IdParam = ObjectId(id: TxId) | Malformed(text: string)

  /** The index of the record matching `{ _id: id, userId }`, if any. */
  function Locate(s: seq<Transaction>, id: TxId, userId: UserId): (r: Option<nat>)
    ensures r.Some? ==> r.value < |s| && s[r.value].id == id && s[r.value].userId == userId
    ensures r.None? ==> forall k :: 0 <= k < |s| ==> s[k].id != id || s[k].userId != userId
  {
    if s == [] then None
    else if s[0].id == id && s[0].userId == userId then Some(0)
    else match Locate(s[1..], id, userId)
      case None => None
      case Some(k) => Some(k + 1)
  }

  /** `!category || !type || !amount`: the service's own check before the schema's. */
  predicate MissingRequired(d: Draft) {
    !Present(d.category) || !Present(d.txType) || d.amount.None? || d.amount.value == 0.0
  }

  const NotFound := "Transaction not found"
  /** The head of the cast error's message; the rest of it, naming the value, is not modelled. */
  const CastFailed := "Cast to ObjectId failed"
  const ValidationFailed := "Transaction validation failed"

  /** Every id in `s` is below `n`. */
  ghost predicate IdsBelow(s: seq<Transaction>, n: TxId) {
    forall i :: 0 <= i < |s| ==> s[i].id < n
  }

  /** No two records of `s` share an id. */
  ghost predicate DistinctIds(s: seq<Transaction>) {
    forall i, j :: 0 <= i < j < |s| ==> s[i].id != s[j].id
  }

  /**
   * Removing the record at `i` keeps the ids distinct and below `n`, takes
   * exactly that record out, and leaves no record with its id.
   */
  lemma RemoveAt(s: seq<Transaction>, i: nat, n: TxId)
    requires i < |s| && IdsBelow(s, n) && DistinctIds(s)
    ensures var t := s[..i] + s[i + 1..];
      && IdsBelow(t, n) && DistinctIds(t)
      && multiset(t) + multiset{s[i]} == multiset(s)
      && forall k :: 0 <= k < |t| ==> t[k].id != s[i].id
  {
    var t := s[..i] + s[i + 1..];
    assert s == s[..i] + [s[i]] + s[i + 1..];
    assert forall k :: 0 <= k < |t| ==> t[k] == s[if k < i then k else k + 1];
  }

  /** Appending a record with the id `n` keeps the ids distinct and below the next one. */
  lemma AppendFresh(s: seq<Transaction>, t: Transaction, n: TxId)
    requires IdsBelow(s, n) && DistinctIds(s) && t.id == n
    ensures IdsBelow(s + [t], n + 1) && DistinctIds(s + [t])
  {
  }

  class TransactionStore {
    var records: seq<Transaction>
    var nextId: TxId

    /** Record ids are distinct and below `nextId`, the id the next insert receives. */
    ghost predicate Valid()
      reads this
    {
      IdsBelow(records, nextId) && DistinctIds(records)
    }

    constructor ()
      ensures Valid() && records == []
    {
      records := [];
      nextId := 0;
    }

    /**
     * `getTransactionsService`: one page of the owner's selected records,
     * newest first, with the count of all of them and the page count.
     */
    method Find(userId: UserId, f: Filters, page: nat, limit: nat) returns (r: Reply<Listing>)
      requires page >= 1 && limit >= 1
      ensures r.status == 200 && r.message == "Transactions fetched successfully" && r.data.Some?
      ensures r.data.value.transactions == PageOf(Ranked(records, userId, f), page, limit)
      ensures r.data.value.total == |Ranked(records, userId, f)|
      ensures r.data.value.currentPage == page
      ensures r.data.value.totalPages == CeilDiv(r.data.value.total, limit)
      ensures NewestFirst(r.data.value.transactions)
      ensures forall t :: t in r.data.value.transactions ==> t in records && Selected(userId, f, t)
    {
      var q := QueryFor(userId, f);
      var matching := FindAll(records, q);
      var items := PageOf(SortNewestFirst(matching), page, limit);
      var total := |matching|;
      RankedSize(records, userId, f);
      PageFacts(records, userId, f, page, limit);
      r := Reply(200, "Transactions fetched successfully", Some(Listing(items, total, page, CeilDiv(total, limit))));
    }

    /** `addTransactionService`. */
    method Add(userId: UserId, d: Draft, now: int) returns (r: Reply<Transaction>)
      requires Valid()
      modifies this
      ensures Valid()
      ensures MissingRequired(d) ==>
        r == Reply(400, "Missing required fields", None) && records == old(records)
      ensures !MissingRequired(d) && Build(old(nextId), userId, d, now).Err? ==>
        r == Reply(500, ValidationFailed, None) && records == old(records)
      ensures !MissingRequired(d) && Build(old(nextId), userId, d, now).Ok? ==>
        var t := Build(old(nextId), userId, d, now).value;
        r == Reply(201, "Transaction added successfully", Some(t)) && records == old(records) + [t]
    {
      if MissingRequired(d) {
        return Reply(400, "Missing required fields", None);
      }
      match Build(nextId, userId, d, now)
      case Err(_) =>
        r := Reply(500, ValidationFailed, None);
      case Ok(t) =>
        AppendFresh(records, t, nextId);
        records := records + [t];
        nextId := nextId + 1;
        r := Reply(201, "Transaction added successfully", Some(t));
    }

    /** `updateTransactionService`: only the caller's own record with that id is changed. */
    method Update(userId: UserId, id: IdParam, p: Patch, now: int) returns (r: Reply<Transaction>)
      requires Valid()
      modifies this
      ensures Valid() && nextId == old(nextId)
      ensures id.Malformed? ==> r == Reply(500, CastFailed, None) && records == old(records)
      ensures id.ObjectId? && Locate(old(records), id.id, userId).None? ==>
        r == Reply(404, NotFound, None) && records == old(records)
      ensures id.ObjectId? && Locate(old(records), id.id, userId).Some? ==>
        var i := Locate(old(records), id.id, userId).value;
        && records == old(records)[i := ApplyPatch(old(records)[i], p, now)]
        && r == Reply(200, "Transaction updated successfully", Some(records[i]))
    {
      if id.Malformed? {
        return Reply(500, CastFailed, None);
      }
      match Locate(records, id.id, userId)
      case None =>
        r := Reply(404, NotFound, None);
      case Some(i) =>
        var updated := ApplyPatch(records[i], p, now);
        records := records[i := updated];
        r := Reply(200, "Transaction updated successfully", Some(updated));
    }

    /** `deleteTransactionService`: only the caller's own record with that id is removed. */
    method Delete(userId: UserId, id: IdParam) returns (r: Reply<()>)
      requires Valid()
      modifies this
      ensures Valid() && nextId == old(nextId)
      ensures id.Malformed? ==> r == Reply(500, CastFailed, None) && records == old(records)
      ensures id.ObjectId? && Locate(old(records), id.id, userId).None? ==>
        r == Reply(404, NotFound, None) && records == old(records)
      ensures id.ObjectId? && Locate(old(records), id.id, userId).Some? ==>
        var i := Locate(old(records), id.id, userId).value;
        && records == old(records)[..i] + old(records)[i + 1..]
        && multiset(records) + multiset{old(records)[i]} == multiset(old(records))
        && (forall k :: 0 <= k < |records| ==> records[k].id != id.id)
        && r == Reply(200, "Transaction deleted successfully", None)
    {
      if id.Malformed? {
        return Reply(500, CastFailed, None);
      }
      match Locate(records, id.id, userId)
      case None =>
        r := Reply(404, NotFound, None);
      case Some(i) =>
        RemoveAt(records, i, nextId);
        records := records[..i] + records[i + 1..];
        r := Reply(200, "Transaction deleted successfully", None);
    }
  }
}
