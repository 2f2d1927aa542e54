/**
 * The loan list screen's state updates: the optimistic status toggle and its
 * rollback, the redemption dialog's mark-all and single-item toggles, delete
 * and create, the pager, the filter inputs and the query string they produce.
 */
module LoanList {
  import opened Wrappers
  import opened Text
  import opened Numbers
  import opened Domain
  import opened Store
  import opened Sorting
  import opened LoanFilter
  import opened LoansApi

  /** One row of the list as the screen holds it. */
  datatype ListLoan = ListLoan(
    id: string,
    customerName: string,
    itemsSummary: string,
    itemCount: int,
    redeemedCount: int,
    statusChuoc: Status)

  /** The last listing response; the screen holds `None` until one arrives. */
  datatype ListData = ListData(page: int, pageSize: int, total: int, loans: seq<ListLoan>)

  // ----- Status toggle -----

  /** The status the toggle asks for. */
  function NextStatus(loan: ListLoan): (s: Status)
    ensures s != loan.statusChuoc
  {
    Flip(loan.statusChuoc)
  }

  /** The redeemed count shown with a status: every item when redeemed, none otherwise. */
  function CountFor(l: ListLoan, s: Status): (n: int)
    ensures s == DA_CHUOC ==> n == l.itemCount
    ensures s == CHUA_CHUOC ==> n == 0
  {
    if s == DA_CHUOC then l.itemCount else 0
  }

  /** The optimistic update: every row with the toggled id shows the next status. */
  function Optimistic(loans: seq<ListLoan>, loan: ListLoan): (r: seq<ListLoan>)
    ensures |r| == |loans|
    ensures forall i :: 0 <= i < |r| ==> r[i].id == loans[i].id && r[i].itemCount == loans[i].itemCount
    ensures forall i :: 0 <= i < |r| && loans[i].id == loan.id ==>
      r[i].statusChuoc == NextStatus(loan) && r[i].redeemedCount == CountFor(loans[i], NextStatus(loan))
      && r[i].customerName == loans[i].customerName && r[i].itemsSummary == loans[i].itemsSummary
    ensures forall i :: 0 <= i < |r| && loans[i].id != loan.id ==> r[i] == loans[i]
  {
    var next := NextStatus(loan);
    seq(|loans|, i requires 0 <= i < |loans| =>
      var l := loans[i];
      if l.id == loan.id then l.(statusChuoc := next, redeemedCount := CountFor(l, next)) else l)
  }

  /** The rollback after a failed request: rows with the id get back the snapshot's status and count. */
  function Rollback(loans: seq<ListLoan>, loan: ListLoan): (r: seq<ListLoan>)
    ensures |r| == |loans|
    ensures forall i :: 0 <= i < |r| && loans[i].id == loan.id ==>
      r[i] == loans[i].(statusChuoc := loan.statusChuoc, redeemedCount := loan.redeemedCount)
    ensures forall i :: 0 <= i < |r| && loans[i].id != loan.id ==> r[i] == loans[i]
  {
    seq(|loans|, i requires 0 <= i < |loans| =>
      var l := loans[i];
      if l.id == loan.id then l.(statusChuoc := loan.statusChuoc, redeemedCount := loan.redeemedCount) else l)
  }

  /** A state update applied to the screen's data, which stays `None` while nothing is loaded. */
  function MapLoans(d: Option<ListData>, f: seq<ListLoan> -> seq<ListLoan>): Option<ListData> {
    if d.None? then None else Some(d.value.(loans := f(d.value.loans)))
  }

  /** What a toggle does at once: the new screen data and the status it sends, if any. */
  datatype Toggle = Toggle(data: Option<ListData>, request: Option<Status>)

  /** `toggleStatus`, up to the request. */
  function ToggleStatus(canEdit: bool, loan: ListLoan, d: Option<ListData>): (r: Toggle)
    ensures !canEdit ==> r == Toggle(d, None)
    ensures canEdit ==> r.request == Some(NextStatus(loan))
    ensures r.data.None? <==> d.None?
    ensures canEdit && d.Some? ==> r.data.value.loans == Optimistic(d.value.loans, loan)
  {
    if !canEdit then Toggle(d, None)
    else Toggle(MapLoans(d, ls => Optimistic(ls, loan)), Some(NextStatus(loan)))
  }

  /** The outcome of the request: success keeps the optimistic data, failure rolls it back. */
  function Settle(d: Option<ListData>, loan: ListLoan, ok: bool): Option<ListData> {
    if ok then d else MapLoans(d, ls => Rollback(ls, loan))
  }

  /** The snapshot that was toggled is what the list shows for its id. */
  predicate Current(loans: seq<ListLoan>, loan: ListLoan) {
    forall i :: 0 <= i < |loans| && loans[i].id == loan.id ==> loans[i] == loan
  }

  /** A failed toggle of the row as shown leaves the list exactly as it was. */
  lemma FailedToggleRestores(loans: seq<ListLoan>, loan: ListLoan)
    requires Current(loans, loan)
    ensures Rollback(Optimistic(loans, loan), loan) == loans
  {
    var r := Rollback(Optimistic(loans, loan), loan);
    assert forall i :: 0 <= i < |loans| ==> r[i] == loans[i];
  }

  /** The same, through the screen's data: toggle, fail, and the data is unchanged. */
  lemma FailedToggleIsNoOp(canEdit: bool, loan: ListLoan, d: Option<ListData>)
    requires d.Some? ==> Current(d.value.loans, loan)
    ensures Settle(ToggleStatus(canEdit, loan, d).data, loan, false) == d || !canEdit
  {
    if canEdit && d.Some? {
      FailedToggleRestores(d.value.loans, loan);
    }
  }

  /** Toggling an unchanged row twice, both succeeding, comes back to its status. */
  lemma ToggleTwiceRestoresStatus(loans: seq<ListLoan>, loan: ListLoan, i: int)
    requires 0 <= i < |loans| && loans[i] == loan
    ensures Optimistic(Optimistic(loans, loan), Optimistic(loans, loan)[i])[i].statusChuoc == loan.statusChuoc
  {
  }

  // ----- Redemption dialog -----

  /** An item of the loan shown in the redemption dialog. */
  datatype RedeemItem = RedeemItem(
    id: string,
    qty: int,
    itemName: string,
    note: string,
    isRedeemed: bool,
    redeemedAt: Option<string>)

  /** One entry of the item update request. */
  datatype ItemUpdate = ItemUpdate(id: string, isRedeemed: bool)

  /** The mark-all target: redeem everything when some item is not redeemed yet. */
  predicate ShouldRedeem(items: seq<RedeemItem>) {
    exists i :: 0 <= i < |items| && !items[i].isRedeemed
  }

  /** The mark-all request: every item, each with the same target. */
  function MarkAllUpdates(items: seq<RedeemItem>): (r: seq<ItemUpdate>)
    ensures |r| == |items|
    ensures forall i :: 0 <= i < |r| ==> r[i].id == items[i].id && r[i].isRedeemed == ShouldRedeem(items)
  {
    var target := ShouldRedeem(items);
    seq(|items|, i requires 0 <= i < |items| => ItemUpdate(items[i].id, target))
  }

  /** Marking one item: the time stamp `now` is set exactly when the item becomes redeemed. */
  function Mark(it: RedeemItem, target: bool, now: string): (r: RedeemItem)
    ensures r.isRedeemed == target && (r.redeemedAt.Some? <==> target)
    ensures r.id == it.id && r.qty == it.qty && r.itemName == it.itemName && r.note == it.note
  {
    it.(isRedeemed := target, redeemedAt := if target then Some(now) else None)
  }

  /** The dialog's items after a successful mark-all. */
  function MarkAll(items: seq<RedeemItem>, now: string): (r: seq<RedeemItem>)
    ensures |r| == |items|
    ensures forall i :: 0 <= i < |r| ==>
      r[i].isRedeemed == ShouldRedeem(items) && (r[i].redeemedAt.Some? <==> ShouldRedeem(items))
    ensures forall i :: 0 <= i < |r| ==> r[i].id == items[i].id && r[i].note == items[i].note
  {
    var target := ShouldRedeem(items);
    seq(|items|, i requires 0 <= i < |items| => Mark(items[i], target, now))
  }

  /** Mark-all alternates: after it, the button offers the opposite action. */
  lemma MarkAllAlternates(items: seq<RedeemItem>, now: string)
    requires |items| > 0
    ensures ShouldRedeem(MarkAll(items, now)) == !ShouldRedeem(items)
  {
    var r := MarkAll(items, now);
    if !ShouldRedeem(items) {
      assert !r[0].isRedeemed;
    }
  }

  /** The dialog's items after a successful toggle of item `id` to `next`. */
  function ToggleItem(items: seq<RedeemItem>, id: string, next: bool, now: string): (r: seq<RedeemItem>)
    ensures |r| == |items|
    ensures forall i :: 0 <= i < |r| && items[i].id == id ==>
      r[i].isRedeemed == next && (r[i].redeemedAt.Some? <==> next) && r[i].id == id
    ensures forall i :: 0 <= i < |r| && items[i].id != id ==> r[i] == items[i]
  {
    seq(|items|, i requires 0 <= i < |items| => if items[i].id == id then Mark(items[i], next, now) else items[i])
  }

  /** Redeeming an item and then un-redeeming it restores an item that was not redeemed. */
  lemma ToggleItemBack(items: seq<RedeemItem>, id: string, now: string, later: string)
    requires forall i :: 0 <= i < |items| && items[i].id == id ==> !items[i].isRedeemed && items[i].redeemedAt.None?
    ensures ToggleItem(ToggleItem(items, id, true, now), id, false, later) == items
  {
    var r := ToggleItem(ToggleItem(items, id, true, now), id, false, later);
    assert forall i :: 0 <= i < |items| ==> r[i] == items[i];
  }

  /** The list after the server reports a loan's new status and redeemed count. */
  function ApplyCounts(loans: seq<ListLoan>, loanId: string, s: Status, redeemedCount: int): (r: seq<ListLoan>)
    ensures |r| == |loans|
    ensures forall i :: 0 <= i < |r| && loans[i].id == loanId ==>
      r[i] == loans[i].(statusChuoc := s, redeemedCount := redeemedCount)
    ensures forall i :: 0 <= i < |r| && loans[i].id != loanId ==> r[i] == loans[i]
  {
    seq(|loans|, i requires 0 <= i < |loans| =>
      if loans[i].id == loanId then loans[i].(statusChuoc := s, redeemedCount := redeemedCount) else loans[i])
  }

  // ----- Delete and create -----

  predicate Other(id: string, l: ListLoan) {
    l.id != id
  }

  /** After a successful delete: every row with that id is gone, the rest stay in order. */
  function Delete(d: Option<ListData>, id: string): (r: Option<ListData>)
    ensures r.None? <==> d.None?
    ensures r.Some? ==> r.value.total == d.value.total && r.value.page == d.value.page
    ensures r.Some? ==> forall l :: l in r.value.loans <==> l in d.value.loans && l.id != id
  {
    MapLoans(d, ls => Filter(ls, l => Other(id, l)))
  }

  /** After a loan is created: it comes first and the total grows by one. */
  function Prepend(d: Option<ListData>, loan: ListLoan): (r: Option<ListData>)
    ensures r.None? <==> d.None?
    ensures r.Some? ==> r.value.loans == [loan] + d.value.loans && r.value.total == d.value.total + 1
  {
    if d.None? then None else Some(d.value.(loans := [loan] + d.value.loans, total := d.value.total + 1))
  }

  /** Deleting a loan just created removes it again, leaving the other rows as before. */
  lemma DeleteUndoesPrepend(d: Option<ListData>, loan: ListLoan)
    requires d.Some?
    ensures Delete(Prepend(d, loan), loan.id).value.loans == Delete(d, loan.id).value.loans
  {
    var ls := d.value.loans;
    assert ([loan] + ls)[1..] == ls;
  }

  // ----- Pager and filters -----

  /** "Previous": one page back, never below the first. */
  function Prev(page: int): (r: int)
    ensures r >= 1
    ensures page > 1 ==> r == page - 1
    ensures page <= 1 ==> r == 1
  {
    if page - 1 > 1 then page - 1 else 1
  }

  predicate PrevDisabled(page: int, loading: bool) {
    page <= 1 || loading
  }

  /** "Next" is disabled while loading and once this page reaches the total. */
  predicate NextDisabled(page: int, loading: bool, d: Option<ListData>) {
    loading || (d.Some? && page * d.value.pageSize >= d.value.total)
  }

  /**
   * With the listing's own total, "next" is enabled exactly when the next page
   * of the same filter would hold at least one row.
   */
  lemma NextEnabledIffRowsRemain(w: LoanWhere, db: Db, page: nat, pageSize: nat)
    requires page >= 1 && pageSize >= 1
    ensures
      var d := Some(ListData(page, pageSize, |Select(w, db.loans)|, []));
      !NextDisabled(page, false, d) <==> |PageRows(w, db, page * pageSize, pageSize)| > 0
  {
  }

  /** The filter inputs of the list screen. */
  datatype Filters = Filters(q: string, searchField: string, dateFrom: string, dateTo: string, page: int)

  const InitialFilters: Filters := Filters("", "name", "", "", 1)

  datatype FilterInput = SearchText | SearchField | DateFrom | DateTo

  /** Typing into any filter input sets it and goes back to the first page. */
  function Edit(f: Filters, input: FilterInput, v: string): (r: Filters)
    ensures r.page == 1
    ensures r.q == (if input == SearchText then v else f.q)
    ensures r.searchField == (if input == SearchField then v else f.searchField)
    ensures r.dateFrom == (if input == DateFrom then v else f.dateFrom)
    ensures r.dateTo == (if input == DateTo then v else f.dateTo)
  {
    match input
    case SearchText => f.(q := v, page := 1)
    case SearchField => f.(searchField := v, page := 1)
    case DateFrom => f.(dateFrom := v, page := 1)
    case DateTo => f.(dateTo := v, page := 1)
  }

  /** One `key=value` pair of a query string, before URL encoding. */
  datatype QueryParam = QueryParam(key: string, value: string)

  /** `URLSearchParams.get`: the first value given for `key`. */
  function Get(ps: seq<QueryParam>, key: string): (r: Option<string>)
    ensures r.Some? ==> exists i :: 0 <= i < |ps| && ps[i] == QueryParam(key, r.value)
    ensures r.None? ==> forall i :: 0 <= i < |ps| ==> ps[i].key != key
  {
    if |ps| == 0 then None
    else if ps[0].key == key then Some(ps[0].value)
    else
      var rest := Get(ps[1..], key);
      assert rest.Some? ==> ps[1..][0..] == ps[1..];
      rest
  }

  /** The optional part of the query: present only when set. */
  function OptParam(key: string, v: string, present: bool): seq<QueryParam> {
    if present then [QueryParam(key, v)] else []
  }

  /** The listing query the screen sends for its filters. */
  function QueryString(f: Filters): seq<QueryParam> {
    OptParam("q", Trim(f.q), !IsBlank(f.q))
    + (OptParam("search_field", f.searchField, f.searchField != "")
    + (OptParam("date_from", Trim(f.dateFrom), !IsBlank(f.dateFrom))
    + (OptParam("date_to", Trim(f.dateTo), !IsBlank(f.dateTo))
    + [QueryParam("page", IntToString(f.page)), QueryParam("page_size", "20")])))
  }

  /** The pair for `key`, looked up in the optional part followed by anything else. */
  lemma GetOpt(key: string, v: string, present: bool, rest: seq<QueryParam>, k: string)
    ensures Get(OptParam(key, v, present) + rest, k) ==
      if present && k == key then Some(v) else Get(rest, k)
  {
    if present {
      assert (OptParam(key, v, present) + rest)[1..] == rest;
    } else {
      assert OptParam(key, v, present) + rest == rest;
    }
  }

  /** What the query holds for `key`, key by key. */
  function QueryValue(f: Filters, key: string): Option<string> {
    if key == "q" then (if IsBlank(f.q) then None else Some(Trim(f.q)))
    else if key == "search_field" then (if f.searchField == "" then None else Some(f.searchField))
    else if key == "date_from" then (if IsBlank(f.dateFrom) then None else Some(Trim(f.dateFrom)))
    else if key == "date_to" then (if IsBlank(f.dateTo) then None else Some(Trim(f.dateTo)))
    else if key == "page" then Some(IntToString(f.page))
    else if key == "page_size" then Some("20")
    else None
  }

  /** The two pairs every query ends with. */
  lemma GetTail(a: string, b: string, key: string)
    ensures Get([QueryParam("page", a), QueryParam("page_size", b)], key) ==
      if key == "page" then Some(a) else if key == "page_size" then Some(b) else None
  {
    var tail := [QueryParam("page", a), QueryParam("page_size", b)];
    assert tail[1..] == [QueryParam("page_size", b)];
    assert tail[1..][1..] == [];
  }

  /**
   * The query carries page and `page_size=20` always, and the search text and
   * dates only when non-blank, trimmed; no other key.
   */
  lemma QueryStringMeaning(f: Filters, key: string)
    ensures Get(QueryString(f), key) == QueryValue(f, key)
  {
    var tail := [QueryParam("page", IntToString(f.page)), QueryParam("page_size", "20")];
    var d3 := OptParam("date_to", Trim(f.dateTo), !IsBlank(f.dateTo)) + tail;
    var d2 := OptParam("date_from", Trim(f.dateFrom), !IsBlank(f.dateFrom)) + d3;
    var d1 := OptParam("search_field", f.searchField, f.searchField != "") + d2;
    GetOpt("q", Trim(f.q), !IsBlank(f.q), d1, key);
    GetOpt("search_field", f.searchField, f.searchField != "", d2, key);
    GetOpt("date_from", Trim(f.dateFrom), !IsBlank(f.dateFrom), d3, key);
    GetOpt("date_to", Trim(f.dateTo), !IsBlank(f.dateTo), tail, key);
    GetTail(IntToString(f.page), "20", key);
  }

  /** The parameters the listing endpoint reads from a query string. */
  function ServerParams(ps: seq<QueryParam>): ListParams {
    ListParams(
      Get(ps, "q"), Get(ps, "status"), Get(ps, "amount"),
      Get(ps, "amount_min"), Get(ps, "amount_max"),
      Get(ps, "page_size"), Get(ps, "page"))
  }

  /** The fixed page size the screen asks for is read as 20. */
  lemma TwentyRows(s: string)
    requires s == "20"
    ensures PageSizeOf(Some(s)) == 20.0
  {
    assert IsDigits(s) && |s| == 2;
    assert s[..|s| - 1] == "2" && "2"[..0] == "";
    assert DigitsValue(s) == 20;
    JsNumberOfDigits(s);
  }

  /** A page number from 1 up, written out, is read as itself. */
  lemma PageRead(page: int)
    requires page >= 1
    ensures PageOf(Some(IntToString(page))) == page as real
  {
    JsNumberOfNat(page);
  }

  /** The server reads the screen's query as page `page` of 20 rows. */
  lemma ServerReadsClientPaging(f: Filters)
    requires f.page >= 1
    ensures PageSizeOf(ServerParams(QueryString(f)).pageSize) == 20.0
    ensures PageOf(ServerParams(QueryString(f)).page) == f.page as real
  {
    var ps := QueryString(f);
    assert Get(ps, "page_size") == Some("20") by {
      QueryStringMeaning(f, "page_size");
    }
    assert Get(ps, "page") == Some(IntToString(f.page)) by {
      QueryStringMeaning(f, "page");
    }
    TwentyRows("20");
    PageRead(f.page);
  }

  /** Two screens whose queries agree on `key`. */
  lemma SameValue(f: Filters, g: Filters, key: string)
    requires QueryValue(f, key) == QueryValue(g, key)
    ensures Get(QueryString(f), key) == Get(QueryString(g), key)
  {
    QueryStringMeaning(f, key);
    QueryStringMeaning(g, key);
  }

  /**
   * The listing endpoint reads neither the search field nor the dates: two
   * screens that differ only in those are sent the same rows.
   */
  lemma DatesAndFieldNotRead(f: Filters, searchField: string, dateFrom: string, dateTo: string)
    ensures ServerParams(QueryString(f)) ==
      ServerParams(QueryString(f.(searchField := searchField, dateFrom := dateFrom, dateTo := dateTo)))
  {
    var g := f.(searchField := searchField, dateFrom := dateFrom, dateTo := dateTo);
    SameValue(f, g, "q");
    SameValue(f, g, "status");
    SameValue(f, g, "amount");
    SameValue(f, g, "amount_min");
    SameValue(f, g, "amount_max");
    SameValue(f, g, "page_size");
    SameValue(f, g, "page");
  }
}
