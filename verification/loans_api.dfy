/**
 * `GET /api/loans` (filtered, newest-first, paginated listing) and
 * `POST /api/loans` (create a loan with its lines in one transaction, then
 * record a `LOAN_CREATE` audit entry).
 */
module LoansApi {
  import opened Wrappers
  import opened Text
  import opened Numbers
  import opened Json
  import opened Domain
  import opened DateTime
  import opened Auth
  import opened Validators
  import opened Api
  import opened Store
  import opened Sorting
  import opened LoanFilter

  // ----- GET -----

  /** The query-string parameters the listing reads; `None` when a key is absent. */
  datatype ListParams = ListParams(
    q: Option<string>, status: Option<string>, amount: Option<string>,
    amountMin: Option<string>, amountMax: Option<string>,
    pageSize: Option<string>, page: Option<string>)

  /** `Number(param ?? fallback) || default`: NaN and 0 fall back to the default. */
  function NumberOr(param: Option<string>, fallback: string, default: real): (r: real)
    ensures r != 0.0 || default == 0.0
  {
    match JsNumber(param.GetOr(fallback))
    case Some(v) => if v == 0.0 then default else v
    case None => default
  }

  /** `page_size`: 20 unless a non-zero number is given, then clamped to [1, 100]. */
  function PageSizeOf(param: Option<string>): (r: real)
    ensures 1.0 <= r <= 100.0
    ensures param.Some? && JsNumber(param.value).None? ==> r == 20.0
  {
    var v := NumberOr(param, "20", 20.0);
    var lo := if v < 1.0 then 1.0 else v;
    if lo > 100.0 then 100.0 else lo
  }

  /** `page`: 1 unless a non-zero number is given, and never below 1. */
  function PageOf(param: Option<string>): (r: real)
    ensures r >= 1.0
    ensures param.Some? && JsNumber(param.value).None? ==> r == 1.0
  {
    var v := NumberOr(param, "1", 1.0);
    if v < 1.0 then 1.0 else v
  }

  /** A page size written as a whole number is used as given, clamped to [1, 100]. */
  lemma PageSizeOfNat(n: nat)
    ensures PageSizeOf(Some(NatToString(n))) == if n == 0 then 20.0 else if n > 100 then 100.0 else n as real
  {
    JsNumberOfNat(n);
  }

  /** A missing page size or page gives 20 rows of page 1. */
  lemma DefaultPaging()
    ensures PageSizeOf(None) == 20.0 && PageOf(None) == 1.0
  {
    assert IsDigits("20") && IsDigits("1");
    assert "20"[..1] == "2";
    assert DigitsValue("20") == 20;
    JsNumberOfDigits("20");
    JsNumberOfDigits("1");
  }

  /** A page size or page that is not a number, such as "abc", gives 20 rows of page 1. */
  lemma NonNumericPaging(s: string)
    requires JsNumber(s).None?
    ensures PageSizeOf(Some(s)) == 20.0 && PageOf(Some(s)) == 1.0
  {
  }

  /** A page written as a negative whole number is page 1. */
  lemma NegativePageIsFirst(i: int)
    requires i < 0
    ensures PageOf(Some(IntToString(i))) == 1.0
  {
    JsNumberOfInt(i);
  }

  /** `param ? Number(param) : null`, kept only when finite: an empty string is no constraint. */
  function FiniteParam(param: Option<string>): (r: Option<real>)
    ensures param.None? || param.value == "" ==> r.None?
    ensures r.Some? ==> JsNumber(param.value) == r
    ensures param.Some? && param.value != "" ==> r == JsNumber(param.value)
  {
    if param.Some? && param.value != "" then JsNumber(param.value) else None
  }

  /** The listing's filter. `q` and `status` are trimmed; an exact amount overrides the range. */
  function ListingWhere(p: ListParams): (w: LoanWhere)
    ensures w.anyOf.Some? <==> !IsBlank(p.q.GetOr(""))
    ensures w.anyOf.Some? ==> w.anyOf.value == SearchClause(Trim(p.q.GetOr("")))
    ensures w.status == StatusFromName(Trim(p.status.GetOr("")))
    ensures FiniteParam(p.amount).Some? ==> w.amount == Some(AmountEquals(FiniteParam(p.amount).value))
    ensures FiniteParam(p.amount).None? ==>
      (w.amount.Some? <==> FiniteParam(p.amountMin).Some? || FiniteParam(p.amountMax).Some?)
    ensures FiniteParam(p.amount).None? && w.amount.Some? ==>
      w.amount == Some(AmountRange(FiniteParam(p.amountMin), FiniteParam(p.amountMax)))
  {
    var q := Trim(p.q.GetOr(""));
    var exact := FiniteParam(p.amount);
    var lo := FiniteParam(p.amountMin);
    var hi := FiniteParam(p.amountMax);
    LoanWhere(
      if q != "" then Some(SearchClause(q)) else None,
      StatusFromName(Trim(p.status.GetOr(""))),
      if exact.Some? then Some(AmountEquals(exact.value))
      else if lo.Some? || hi.Some? then Some(AmountRange(lo, hi))
      else None)
  }

  /** A loan line as the listing returns it: the line and the catalog item it points at. */
  datatype LineView = LineView(line: LoanItemRow, item: Option<ItemRow>)

  /** A loan with `include: { items: { include: { item: true } } }`. */
  datatype LoanView = LoanView(loan: LoanRow, lines: seq<LineView>)

  datatype LoanPage = LoanPage(page: real, pageSize: real, total: nat, loans: seq<LoanView>)

  /** The first item row with the given id. */
  function FindItem(items: seq<ItemRow>, id: string): (r: Option<ItemRow>)
    ensures r.Some? <==> exists i :: 0 <= i < |items| && items[i].id == id
    ensures r.Some? ==> r.value in items && r.value.id == id
  {
    if |items| == 0 then None
    else if items[0].id == id then Some(items[0])
    else
      var r := FindItem(items[1..], id);
      assert forall i :: 1 <= i < |items| ==> items[i] == items[1..][i - 1];
      r
  }

  /** The lines of one loan, in table order, each with its item. */
  function LinesOf(db: Db, lines: seq<LoanItemRow>, loanId: string): (r: seq<LineView>)
    ensures forall i :: 0 <= i < |r| ==> r[i].line in lines && r[i].line.loanId == loanId
    ensures forall i :: 0 <= i < |r| ==> r[i].item == (if r[i].line.itemId.Some? then FindItem(db.items, r[i].line.itemId.value) else None)
  {
    if |lines| == 0 then []
    else
      var rest := LinesOf(db, lines[1..], loanId);
      var l := lines[0];
      if l.loanId == loanId then
        [LineView(l, if l.itemId.Some? then FindItem(db.items, l.itemId.value) else None)] + rest
      else rest
  }

  function View(db: Db, loan: LoanRow): (v: LoanView)
    ensures v.loan == loan
  {
    LoanView(loan, LinesOf(db, db.loanItems, loan.id))
  }

  function Views(db: Db, loans: seq<LoanRow>): (r: seq<LoanView>)
    ensures |r| == |loans|
    ensures forall i :: 0 <= i < |r| ==> r[i] == View(db, loans[i])
  {
    if |loans| == 0 then [] else [View(db, loans[0])] + Views(db, loans[1..])
  }

  /**
   * `GET /api/loans`. Without a session: 401. Otherwise the page of matching
   * rows; a fractional `take` or `skip` is refused by the storage (500).
   */
  function ListLoans(user: Option<User>, p: ListParams, db: Db): (r: Result<LoanPage, ApiError>)
    ensures user.None? <==> r == Failure(Unauthorized)
    ensures r.Failure? ==> r == Failure(Unauthorized) || r == Failure(Internal)
    ensures r.Success? ==>
      && r.value.page == PageOf(p.page) && r.value.pageSize == PageSizeOf(p.pageSize)
      && r.value.total == |Select(ListingWhere(p), db.loans)|
      && |r.value.loans| as real <= r.value.pageSize
      && SortedBy(LoansOf(r.value.loans), NewestFirst)
      && (forall i :: 0 <= i < |r.value.loans| ==>
            r.value.loans[i].loan in db.loans && Matches(ListingWhere(p), r.value.loans[i].loan))
    ensures r == Failure(Internal) <==> user.Some? && !WholePaging(p)
    ensures r.Success? ==> LoansOf(r.value.loans) == PageRows(ListingWhere(p), db, Offset(p), PageSizeOf(p.pageSize).Floor)
  {
    if user.None? then Failure(Unauthorized)
    else
      var pageSize := PageSizeOf(p.pageSize);
      var page := PageOf(p.page);
      if !WholePaging(p) then Failure(Internal)
      else
        var w := ListingWhere(p);
        var rows := PageRows(w, db, Offset(p), pageSize.Floor);
        assert |rows| as real <= pageSize;
        var views := Views(db, rows);
        assert LoansOf(views) == rows;
        Success(LoanPage(page, pageSize, |Select(w, db.loans)|, views))
  }

  /** `skip`: the rows on the pages before `page`, `(page - 1) * pageSize`. */
  function SkipOf(page: real, pageSize: real): (r: real)
    requires page >= 1.0 && pageSize >= 1.0
    ensures r >= 0.0
    ensures page == 1.0 ==> r == 0.0
    ensures r == (page - 1.0) * pageSize
  {
    (page - 1.0) * pageSize
  }

  /** The next page starts one page size further on. */
  lemma NextPageSkip(page: real, pageSize: real)
    requires page >= 1.0 && pageSize >= 1.0
    ensures SkipOf(page + 1.0, pageSize) == SkipOf(page, pageSize) + pageSize
  {
  }

  /** The storage accepts the paging only when the page size and the skip are whole numbers. */
  predicate WholePaging(p: ListParams) {
    IsInteger(PageSizeOf(p.pageSize)) && IsInteger(SkipOf(PageOf(p.page), PageSizeOf(p.pageSize)))
  }

  /** The number of rows the listing skips. */
  function Offset(p: ListParams): (k: nat)
    ensures k as real <= SkipOf(PageOf(p.page), PageSizeOf(p.pageSize))
    ensures WholePaging(p) ==> k as real == SkipOf(PageOf(p.page), PageSizeOf(p.pageSize))
  {
    SkipOf(PageOf(p.page), PageSizeOf(p.pageSize)).Floor
  }

  /** A whole skip of whole page sizes stays whole on the next page, one page size further on. */
  lemma NextSkip(page: real, size: real)
    requires page >= 1.0 && size >= 1.0 && IsInteger(size) && IsInteger(SkipOf(page, size))
    ensures IsInteger(SkipOf(page + 1.0, size))
    ensures SkipOf(page + 1.0, size).Floor == SkipOf(page, size).Floor + size.Floor
  {
    var s0 := SkipOf(page, size);
    NextPageSkip(page, size);
    WholeSum(s0, size);
  }

  /** The sum of two whole numbers is whole, and its floor is the sum of the floors. */
  lemma WholeSum(a: real, b: real)
    requires IsInteger(a) && IsInteger(b)
    ensures IsInteger(a + b) && (a + b).Floor == a.Floor + b.Floor
  {
    assert a + b == (a.Floor + b.Floor) as real;
  }

  function LoansOf(vs: seq<LoanView>): (r: seq<LoanRow>)
    ensures |r| == |vs|
    ensures forall i :: 0 <= i < |vs| ==> r[i] == vs[i].loan
  {
    if |vs| == 0 then [] else [vs[0].loan] + LoansOf(vs[1..])
  }

  /** The total counts the whole filtered table: it does not depend on the page asked for. */
  lemma TotalIgnoresPaging(user: User, p: ListParams, page: Option<string>, pageSize: Option<string>, db: Db)
    requires ListLoans(Some(user), p, db).Success?
    requires ListLoans(Some(user), p.(page := page, pageSize := pageSize), db).Success?
    ensures ListLoans(Some(user), p, db).value.total == ListLoans(Some(user), p.(page := page, pageSize := pageSize), db).value.total
  {
  }

  // ----- POST -----

  /** `!itemId && row.name`: a line with no catalog id but with a name gets a new item row. */
  predicate NeedsItem(row: LoanItemInput) {
    !(row.itemId.Present? && row.itemId.value != "") && row.name.Present? && row.name.value != ""
  }

  function NewItemCount(rows: seq<LoanItemInput>): (n: nat)
    ensures n <= |rows|
  {
    if |rows| == 0 then 0 else (if NeedsItem(rows[0]) then 1 else 0) + NewItemCount(rows[1..])
  }

  /** The writes the transaction performs: the loan, a new item per unlinked named line, a line per input row. */
  function WriteCount(rows: seq<LoanItemInput>): nat {
    1 + NewItemCount(rows) + |rows|
  }

  /** A stored line carries its input row's quantity and note, and its catalog link. */
  predicate LineFor(line: LoanItemRow, loanId: string, row: LoanItemInput) {
    && line.loanId == loanId
    && line.quantity == row.quantity.ToOption()
    && line.note == row.note.ToOption()
    && (if NeedsItem(row) then line.itemId.Some? else line.itemId == row.itemId.ToOption())
  }

  /** The item row created for an unlinked named line: the line's catalog columns, or `null`. */
  function NewItem(id: string, row: LoanItemInput, now: Instant): (item: ItemRow)
    ensures item.id == id && item.name == row.name.ToOption() && item.code == row.code.ToOption()
    ensures item.itemName.None? && item.defaultWeightChi.None? && item.note.None?
  {
    ItemRow(id, row.code.ToOption(), row.name.ToOption(), row.unit.ToOption(), row.description.ToOption(),
            row.price.ToOption(), row.barcode.ToOption(), None, None, None, now)
  }

  /** One turn of the loop over `items`. */
  function AddLine(db: Db, loanId: string, row: LoanItemInput, now: Instant): (r: Db)
    ensures r.loans == db.loans && r.audit == db.audit && r.nextId > db.nextId
    ensures |r.loanItems| == |db.loanItems| + 1 && r.loanItems[..|db.loanItems|] == db.loanItems
    ensures LineFor(r.loanItems[|db.loanItems|], loanId, row)
    ensures |r.items| == |db.items| + (if NeedsItem(row) then 1 else 0) && r.items[..|db.items|] == db.items
    ensures NeedsItem(row) ==> r.loanItems[|db.loanItems|].itemId == Some(r.items[|db.items|].id)
    ensures NeedsItem(row) ==> r.items[|db.items|].name == row.name.ToOption()
  {
    if NeedsItem(row) then
      var item := NewItem(MintId(db.nextId), row, now);
      var line := LoanItemRow(MintId(db.nextId + 1), loanId, Some(item.id), row.quantity.ToOption(), row.note.ToOption());
      db.(items := db.items + [item], loanItems := db.loanItems + [line], nextId := db.nextId + 2)
    else
      var line := LoanItemRow(MintId(db.nextId), loanId, row.itemId.ToOption(), row.quantity.ToOption(), row.note.ToOption());
      db.(loanItems := db.loanItems + [line], nextId := db.nextId + 1)
  }

  /** The loop over `items`: one stored line per input row, in order. */
  function AddLines(db: Db, loanId: string, rows: seq<LoanItemInput>, now: Instant): (r: Db)
    ensures r.loans == db.loans && r.audit == db.audit && r.nextId >= db.nextId
    ensures |r.loanItems| == |db.loanItems| + |rows| && r.loanItems[..|db.loanItems|] == db.loanItems
    ensures forall k :: 0 <= k < |rows| ==> LineFor(r.loanItems[|db.loanItems| + k], loanId, rows[k])
    ensures |r.items| == |db.items| + NewItemCount(rows) && r.items[..|db.items|] == db.items
    decreases |rows|
  {
    if |rows| == 0 then db
    else
      var d1 := AddLine(db, loanId, rows[0], now);
      var r := AddLines(d1, loanId, rows[1..], now);
      var n := |db.loanItems|;
      assert r.loanItems[..n] == d1.loanItems[..n + 1][..n];
      assert r.loanItems[n] == d1.loanItems[n];
      forall k | 1 <= k < |rows| ensures LineFor(r.loanItems[n + k], loanId, rows[k]) {
        assert rows[k] == rows[1..][k - 1];
      }
      assert r.items[..|db.items|] == d1.items[..|db.items|];
      r
  }

  /** `parsed.data.dueDate ? new Date(dueDate) : null`; `None` for a string that is not a date. */
  function DueDateOf(due: Field<string>, dateOf: string -> Option<Instant>): Option<Option<Instant>> {
    if due.Present? && due.value != "" then
      match dateOf(due.value)
      case Some(d) => Some(Some(d))
      case None => None
    else Some(None)
  }

  /** The `LOAN_CREATE` audit details. */
  function CreateDetails(loan: LoanRow): Json {
    JObj(map["principalAmount" := JNum(loan.principalAmount), "customerName" := JStr(loan.customerName)])
  }

  /**
   * The request gets past every guard, its due date reads as a date, and
   * no write of the transaction fails.
   */
  predicate Commits(user: Option<User>, body: Option<Json>, fault: Option<nat>, dateOf: string -> Option<Instant>) {
    && user.Some? && CanEdit(user.value) && ValidLoanCreate(body.GetOr(JNull))
    && var data := ParseLoanCreate(body.GetOr(JNull)).value;
    && DueDateOf(data.dueDate, dateOf).Some?
    && (fault.None? || fault.value >= WriteCount(data.items.OrElse([])))
  }

  /**
   * `POST /api/loans`. Guards in order: a session (401), the edit role (403),
   * a body `zLoanCreate` accepts (400). The loan and its lines are written in
   * one transaction: `fault` is the index of the write that fails, if any,
   * and a failure (or a due date that is not a date) leaves storage as it was
   * (500). After the commit one `LOAN_CREATE` entry is appended.
   */
  function PostLoan(user: Option<User>, body: Option<Json>, db: Db, now: Instant, fault: Option<nat>,
                    dateOf: string -> Option<Instant>): (r: Reply<LoanView>)
    ensures user.None? ==> r == Reply(Failure(Unauthorized), db)
    ensures user.Some? && !CanEdit(user.value) ==> r == Reply(Failure(Forbidden), db)
    ensures user.Some? && CanEdit(user.value) && !ValidLoanCreate(body.GetOr(JNull)) ==> r == Reply(Failure(BadRequest), db)
    ensures r.result.Failure? ==> r.db == db
    ensures r.result.Success? <==> Commits(user, body, fault, dateOf)
    ensures user.Some? && CanEdit(user.value) && ValidLoanCreate(body.GetOr(JNull)) && !Commits(user, body, fault, dateOf)
      ==> r == Reply(Failure(Internal), db)
    ensures r.result.Success? ==>
      r.result.value.loan.dueDate == DueDateOf(ParseLoanCreate(body.GetOr(JNull)).value.dueDate, dateOf).value
    ensures r.result.Success? ==>
      && user.Some? && CanEdit(user.value)
      && var data := ParseLoanCreate(body.GetOr(JNull)).value;
      && var loan := r.result.value.loan;
      && r.db.loans == db.loans + [loan]
      && loan.customerName == data.customerName && loan.principalAmount == data.principalAmount
      && loan.notes == data.notes.ToOption() && loan.statusChuoc == CHUA_CHUOC
      && loan.createdById == user.value.id && loan.createdAt == now && loan.deletedAt.None?
      && |r.db.loanItems| == |db.loanItems| + |data.items.OrElse([])|
      && r.db.loanItems[..|db.loanItems|] == db.loanItems
      && (forall k :: 0 <= k < |data.items.OrElse([])| ==>
            LineFor(r.db.loanItems[|db.loanItems| + k], loan.id, data.items.OrElse([])[k]))
      && |r.db.items| == |db.items| + NewItemCount(data.items.OrElse([]))
      && r.db.items[..|db.items|] == db.items
      && |r.db.audit| == |db.audit| + 1 && r.db.audit[..|db.audit|] == db.audit
      && r.db.audit[|db.audit|] == AuditEntry(Some(user.value.id), "LOAN_CREATE", Some("loans"), Some(loan.id), CreateDetails(loan))
  {
    if user.None? then Reply(Failure(Unauthorized), db)
    else if !CanEdit(user.value) then Reply(Failure(Forbidden), db)
    else match ParseLoanCreate(body.GetOr(JNull))
      case None => Reply(Failure(BadRequest), db)
      case Some(data) =>
        var rows := data.items.OrElse([]);
        match DueDateOf(data.dueDate, dateOf)
        case None => Reply(Failure(Internal), db)
        case Some(due) =>
          if fault.Some? && fault.value < WriteCount(rows) then Reply(Failure(Internal), db)
          else
            var (loan, d2, d3) := Commit(db, user.value, data, due, now);
            Reply(Success(View(d2, loan)), d3)
  }

  /** The committed transaction followed by the audit entry: the loan, the storage after the commit, and after the audit. */
  function Commit(db: Db, user: User, data: LoanCreateData, due: Option<Instant>, now: Instant): (r: (LoanRow, Db, Db))
    ensures var (loan, _, after) := r;
      && after.loans == db.loans + [loan]
      && loan.customerName == data.customerName && loan.principalAmount == data.principalAmount
      && loan.dueDate == due && loan.notes == data.notes.ToOption() && loan.statusChuoc == CHUA_CHUOC
      && loan.createdById == user.id && loan.createdAt == now && loan.deletedAt.None?
      && |after.loanItems| == |db.loanItems| + |data.items.OrElse([])|
      && after.loanItems[..|db.loanItems|] == db.loanItems
      && (forall k :: 0 <= k < |data.items.OrElse([])| ==>
            LineFor(after.loanItems[|db.loanItems| + k], loan.id, data.items.OrElse([])[k]))
      && |after.items| == |db.items| + NewItemCount(data.items.OrElse([]))
      && after.items[..|db.items|] == db.items
      && |after.audit| == |db.audit| + 1 && after.audit[..|db.audit|] == db.audit
      && after.audit[|db.audit|] == AuditEntry(Some(user.id), "LOAN_CREATE", Some("loans"), Some(loan.id), CreateDetails(loan))
  {
    var rows := data.items.OrElse([]);
    var loan := LoanRow(MintId(db.nextId), data.customerName, data.principalAmount, due,
                        data.notes.ToOption(), CHUA_CHUOC, user.id, now, None);
    var d1 := db.(loans := db.loans + [loan], nextId := db.nextId + 1);
    var d2 := AddLines(d1, loan.id, rows, now);
    var d3 := WriteAudit(d2, Some(user), "LOAN_CREATE", Some("loans"), Some(loan.id), CreateDetails(loan));
    (loan, d2, d3)
  }

  /** The listing without parameters: no search, status or amount constraint, page 1 of 20. */
  const NoParams := ListParams(None, None, None, None, None, None, None)

  /** A created loan is counted by the unfiltered listing: its total grows by one. */
  lemma CreatedLoanIsListed(user: User, body: Option<Json>, db: Db, now: Instant, fault: Option<nat>,
                            dateOf: string -> Option<Instant>)
    requires PostLoan(Some(user), body, db, now, fault, dateOf).result.Success?
    ensures ListLoans(Some(user), NoParams, PostLoan(Some(user), body, db, now, fault, dateOf).db).Success?
    ensures ListLoans(Some(user), NoParams, PostLoan(Some(user), body, db, now, fault, dateOf).db).value.total
         == ListLoans(Some(user), NoParams, db).value.total + 1
  {
    var r := PostLoan(Some(user), body, db, now, fault, dateOf);
    assert r.db.loans == db.loans + [r.result.value.loan] && r.result.value.loan.deletedAt.None?;
    OneMoreListed(user, db, r.db, r.result.value.loan);
  }

  /** The listing without parameters succeeds and counts every live row. */
  lemma NoParamsListing(user: User, db: Db)
    ensures ListLoans(Some(user), NoParams, db).Success?
    ensures ListLoans(Some(user), NoParams, db).value.total == |Select(LoanWhere(None, None, None), db.loans)|
  {
    DefaultPaging();
    assert ListingWhere(NoParams) == LoanWhere(None, None, None);
  }

  /** A table with one more live row at the end lists one more row without parameters. */
  lemma OneMoreListed(user: User, db: Db, db': Db, x: LoanRow)
    requires db'.loans == db.loans + [x] && x.deletedAt.None?
    ensures ListLoans(Some(user), NoParams, db').Success? && ListLoans(Some(user), NoParams, db).Success?
    ensures ListLoans(Some(user), NoParams, db').value.total == ListLoans(Some(user), NoParams, db).value.total + 1
  {
    NoParamsListing(user, db);
    NoParamsListing(user, db');
    SelectAppend(LoanWhere(None, None, None), db.loans, x);
  }

  /** Selecting from a table with one more row at the end. */
  lemma SelectAppend(w: LoanWhere, rows: seq<LoanRow>, x: LoanRow)
    ensures |Select(w, rows + [x])| == |Select(w, rows)| + (if Matches(w, x) then 1 else 0)
  {
    FilterAppend(rows, x, loan => Matches(w, loan));
  }
}
