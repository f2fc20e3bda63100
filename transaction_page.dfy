/**
 * The transactions page: the list on screen, the page counter, whether
 * "show more" is offered, the add/edit popup and the filter. A request's
 * outcome is a parameter: `None` when the request failed.
 */
module TransactionPage {
  import opened Options
  import opened Strings
  import opened Paging
  import opened TransactionModel
  import opened TransactionService

  /** The page size the list requests. */
  const PageSize: nat := 10

  /** A transaction as the client holds it, and also the popup's form data. */
  datatype Row = Row(
    id: string,
    date: string,
    category: string,
    txType: string,
    amount: real,
    paymentMode: string,
    description: string)

  /** The empty form the add popup opens with. */
  const BlankForm := Row("", "", "", "expense", 0.0, "", "")

  /** The filter controls; "all" and "" mean no restriction. */
  datatype Filter = Filter(txType: string, category: string, date: string)

  const InitialFilter := Filter("all", "", "")

  /** The query parameters of a list request; `None` is a parameter left out. */
  datatype Params = Params(page: nat, limit: nat, txType: Option<string>, category: Option<string>, date: Option<string>)

  /** The parameters `fetchTransactions` sends for a filter and a page. */
  function RequestParams(f: Filter, nextPage: nat): (p: Params)
    ensures p.page == nextPage && p.limit == PageSize
    ensures p.txType.Some? <==> f.txType != "all"
    ensures p.category.Some? <==> f.category != ""
    ensures p.date.Some? <==> f.date != ""
    ensures p.txType.Some? ==> p.txType.value == f.txType
    ensures p.category.Some? ==> p.category.value == f.category
    ensures p.date.Some? ==> p.date.value == f.date
  {
    var p := Params(nextPage, PageSize, None, None, None);
    var p := if f.txType != "all" then p.(txType := Some(f.txType)) else p;
    var p := if f.category != "" then p.(category := Some(f.category)) else p;
    var p := if f.date != "" then p.(date := Some(f.date)) else p;
    p
  }

  /** The filters the server reads from the parameters; `day` turns a date string into its day window. */
  function Received(p: Params, day: string -> DayWindow): (f: Filters)
    ensures f.txType == (if p.txType.Some? then p.txType.value else "")
    ensures f.category == (if p.category.Some? then p.category.value else "")
    ensures f.date.Some? <==> p.date.Some?
  {
    Filters(
      if p.txType.Some? then p.txType.value else "",
      if p.category.Some? then p.category.value else "",
      if p.date.Some? then Some(day(p.date.value)) else None)
  }

  /**
   * Leaving out "all" and the empty fields loses nothing: the server
   * selects exactly the records the filter as shown describes.
   */
  lemma ParamsKeepSelection(f: Filter, nextPage: nat, day: string -> DayWindow, userId: UserId, t: Transaction)
    ensures var shown := Filters(f.txType, f.category, if f.date != "" then Some(day(f.date)) else None);
      Selected(userId, Received(RequestParams(f, nextPage), day), t) <==> Selected(userId, shown, t)
  {
    var p := RequestParams(f, nextPage);
    if f.category == "" {
      assert AllSpace(f.category);
    }
  }

  /** `transactions.filter((tx) => tx._id !== id)`. */
  function RemoveId(s: seq<Row>, id: string): (r: seq<Row>)
    ensures |r| <= |s|
    ensures forall x :: x in r ==> x in s && x.id != id
  {
    if s == [] then []
    else if s[0].id != id then [s[0]] + RemoveId(s[1..], id)
    else RemoveId(s[1..], id)
  }

  /** Exactly the rows with that id go, every other row keeps its multiplicity. */
  lemma {:induction false} RemoveIdCount(s: seq<Row>, id: string, x: Row)
    ensures multiset(RemoveId(s, id))[x] == if x.id == id then 0 else multiset(s)[x]
  {
    if s != [] {
      RemoveIdCount(s[1..], id, x);
      assert s == [s[0]] + s[1..];
    }
  }

  /** Removal works piecewise, so the kept rows stay in their order. */
  lemma {:induction false} RemoveIdConcat(a: seq<Row>, b: seq<Row>, id: string)
    ensures RemoveId(a + b, id) == RemoveId(a, id) + RemoveId(b, id)
  {
    if a != [] {
      assert (a + b)[1..] == a[1..] + b;
      RemoveIdConcat(a[1..], b, id);
    } else {
      assert a + b == b;
    }
  }

  /** A list without the id is left as it is. */
  lemma {:induction false} RemoveIdAbsent(s: seq<Row>, id: string)
    requires forall x :: x in s ==> x.id != id
    ensures RemoveId(s, id) == s
  {
    if s != [] {
      assert s[0] in s;
      assert forall x :: x in s[1..] ==> x in s;
      RemoveIdAbsent(s[1..], id);
    }
  }

  /** The save request the popup sends. */
  datatype SaveCall = UpdateCall(id: string, form: Row) | AddCall(form: Row)

  class TransactionsView {
    var transactions: seq<Row>
    var page: nat
    var hasMore: bool
    var loading: bool
    var popupOpen: bool
    var editMode: bool
    var formData: Row
    var filter: Filter

    constructor ()
      ensures transactions == [] && page == 1 && hasMore && !loading
      ensures !popupOpen && !editMode && formData == BlankForm && filter == InitialFilter
    {
      transactions := [];
      page := 1;
      hasMore := true;
      loading := false;
      popupOpen := false;
      editMode := false;
      formData := BlankForm;
      filter := InitialFilter;
    }

    /**
     * `fetchTransactions(nextPage, append)`: `response` holds the page's
     * rows and the server's `totalPages`. Appending extends the list,
     * otherwise it is replaced; a failure changes neither the list nor
     * `hasMore`.
     */
    method FetchTransactions(nextPage: nat, append: bool, response: Option<(seq<Row>, nat)>)
      returns (params: Params)
      modifies this
      ensures params == RequestParams(old(filter), nextPage)
      ensures !loading
      ensures response.None? ==> transactions == old(transactions) && hasMore == old(hasMore)
      ensures response.Some? ==>
        && transactions == (if append then old(transactions) + response.value.0 else response.value.0)
        && hasMore == (nextPage < response.value.1)
      ensures page == old(page) && popupOpen == old(popupOpen) && editMode == old(editMode)
      ensures formData == old(formData) && filter == old(filter)
    {
      loading := true;
      params := RequestParams(filter, nextPage);
      if response.Some? {
        var data := response.value.0;
        if append {
          transactions := transactions + data;
        } else {
          transactions := data;
        }
        hasMore := nextPage < response.value.1;
      }
      loading := false;
    }

    /** The filter effect: a new filter restarts at page 1 and replaces the list. */
    method ApplyFilter(f: Filter, response: Option<(seq<Row>, nat)>) returns (params: Params)
      modifies this
      ensures filter == f && page == 1 && !loading
      ensures params == RequestParams(f, 1)
      ensures response.None? ==> transactions == old(transactions) && hasMore == old(hasMore)
      ensures response.Some? ==> transactions == response.value.0 && hasMore == (1 < response.value.1)
      ensures popupOpen == old(popupOpen) && editMode == old(editMode) && formData == old(formData)
    {
      filter := f;
      page := 1;
      params := FetchTransactions(1, false, response);
    }

    /** `openAddPopup`. */
    method OpenAddPopup()
      modifies this
      ensures formData == BlankForm && !editMode && popupOpen
      ensures transactions == old(transactions) && page == old(page) && hasMore == old(hasMore)
      ensures loading == old(loading) && filter == old(filter)
    {
      formData := BlankForm;
      editMode := false;
      popupOpen := true;
    }

    /** `openEditPopup(tx)`. */
    method OpenEditPopup(tx: Row)
      modifies this
      ensures formData == tx && editMode && popupOpen
      ensures transactions == old(transactions) && page == old(page) && hasMore == old(hasMore)
      ensures loading == old(loading) && filter == old(filter)
    {
      formData := tx;
      editMode := true;
      popupOpen := true;
    }

    /**
     * `handleSubmit`: an update when editing a row with an id, an add
     * otherwise; `saved` says whether it succeeded. Success closes the
     * popup and reloads page 1 in replace mode; failure changes nothing.
     */
    method HandleSubmit(saved: bool, response: Option<(seq<Row>, nat)>) returns (call: SaveCall, reload: Option<Params>)
      modifies this
      ensures old(editMode) && old(formData).id != "" ==> call == UpdateCall(old(formData).id, old(formData))
      ensures !(old(editMode) && old(formData).id != "") ==> call == AddCall(old(formData))
      ensures !saved ==>
        && reload == None && transactions == old(transactions) && page == old(page) && hasMore == old(hasMore)
        && popupOpen == old(popupOpen) && editMode == old(editMode) && loading == old(loading)
      ensures saved ==>
        && reload == Some(RequestParams(old(filter), 1))
        && !popupOpen && !editMode && page == 1 && !loading
        && (response.None? ==> transactions == old(transactions) && hasMore == old(hasMore))
        && (response.Some? ==> transactions == response.value.0 && hasMore == (1 < response.value.1))
      ensures formData == old(formData) && filter == old(filter)
    {
      if editMode && formData.id != "" {
        call := UpdateCall(formData.id, formData);
      } else {
        call := AddCall(formData);
      }
      if !saved {
        return call, None;
      }
      popupOpen := false;
      editMode := false;
      page := 1;
      var params := FetchTransactions(1, false, response);
      reload := Some(params);
    }

    /** `handleDelete(id)`: on success every row with that id leaves the list; `deleted` says whether it succeeded. */
    method HandleDelete(id: string, deleted: bool)
      modifies this
      ensures deleted ==> transactions == RemoveId(old(transactions), id)
      ensures !deleted ==> transactions == old(transactions)
      ensures page == old(page) && hasMore == old(hasMore) && loading == old(loading)
      ensures popupOpen == old(popupOpen) && editMode == old(editMode) && formData == old(formData) && filter == old(filter)
    {
      if deleted {
        transactions := RemoveId(transactions, id);
      }
    }

    /** `handleShowMore`: the next page is requested and appended. */
    method HandleShowMore(response: Option<(seq<Row>, nat)>) returns (params: Params)
      modifies this
      ensures page == old(page) + 1
      ensures params == RequestParams(old(filter), old(page) + 1)
      ensures response.None? ==> transactions == old(transactions) && hasMore == old(hasMore)
      ensures response.Some? ==>
        transactions == old(transactions) + response.value.0 && hasMore == (old(page) + 1 < response.value.1)
      ensures !loading && popupOpen == old(popupOpen) && editMode == old(editMode)
      ensures formData == old(formData) && filter == old(filter)
    {
      var nextPage := page + 1;
      page := nextPage;
      params := FetchTransactions(nextPage, true, response);
    }
  }

  /**
   * What "show more" accumulates against a fixed result list: after pages
   * `1..k` the list is its first `k * PageSize` rows, and another page is
   * offered exactly when rows remain unseen.
   */
  lemma ShowMoreAccumulates<T>(all: seq<T>, k: nat)
    requires k >= 1
    ensures Pages(all, k, PageSize) == all[..Min(k * PageSize, |all|)]
    ensures Pages(all, k + 1, PageSize) == Pages(all, k, PageSize) + PageOf(all, k + 1, PageSize)
    ensures (k < CeilDiv(|all|, PageSize)) <==> k * PageSize < |all|
  {
    PagesArePrefix(all, k, PageSize);
    MorePagesIffUnseen(|all|, k, PageSize);
  }
}
