/**
 * `POST /api/export`: the loans matching the posted filters, newest first and
 * at most 50,000 of them, as the rows of the "Loans" worksheet, followed by an
 * `EXPORT_LOANS` audit entry.
 */
module ExportApi {
  import opened Wrappers
  import opened Text
  import opened Uuid
  import opened Numbers
  import opened Json
  import opened Domain
  import opened DateTime
  import opened Auth
  import opened Validators
  import opened Api
  import opened Store
  import opened Sorting
  import opened LoanFilter

  /** The `take` of the export query. */
  const EXPORT_CAP: nat := 50000

  /** The worksheet's header row. */
  const SHEET_HEADERS: seq<string> := ["ID", "Khách hàng", "Số tiền", "Trạng thái chuộc", "Ngày hẹn", "Ghi chú", "Tạo lúc"]

  /**
   * The export's filter. Unlike the listing, `q` is used untrimmed; and since
   * a missing bound is `undefined`, which is not `null`, a body without
   * `amount_min` or without `amount_max` still sets a (possibly empty) range.
   */
  function ExportWhere(f: ExportFilters): (w: LoanWhere)
    ensures w.anyOf.Some? <==> f.q.Present? && f.q.value != ""
    ensures w.anyOf.Some? ==> w.anyOf.value == SearchClause(f.q.value)
    ensures w.status == f.status.ToOption()
    ensures f.amount.Present? ==> w.amount == Some(AmountEquals(f.amount.value))
    ensures !f.amount.Present? ==> (w.amount.Some? <==> !(f.amountMin.Null? && f.amountMax.Null?))
    ensures !f.amount.Present? && w.amount.Some? ==> w.amount == Some(AmountRange(f.amountMin.ToOption(), f.amountMax.ToOption()))
  {
    LoanWhere(
      if f.q.Present? && f.q.value != "" then Some(SearchClause(f.q.value)) else None,
      f.status.ToOption(),
      if f.amount.Present? then Some(AmountEquals(f.amount.value))
      else if !f.amountMin.Null? || !f.amountMax.Null? then Some(AmountRange(f.amountMin.ToOption(), f.amountMax.ToOption()))
      else None)
  }

  /** What a row must satisfy to be exported. */
  lemma ExportWhereMeaning(f: ExportFilters, loan: LoanRow)
    ensures Matches(ExportWhere(f), loan) <==>
      && loan.deletedAt.None?
      && (f.q.Present? && f.q.value != "" ==>
            || ContainsInsensitive(loan.customerName, f.q.value)
            || (loan.notes.Some? && ContainsInsensitive(loan.notes.value, f.q.value))
            || (UuidShape(f.q.value) && loan.id == f.q.value))
      && (f.status.Present? ==> loan.statusChuoc == f.status.value)
      && (f.amount.Present? ==> loan.principalAmount == f.amount.value)
      && (!f.amount.Present? && f.amountMin.Present? ==> f.amountMin.value <= loan.principalAmount)
      && (!f.amount.Present? && f.amountMax.Present? ==> loan.principalAmount <= f.amountMax.value)
  {
    if f.q.Present? && f.q.value != "" {
      SearchClauseMeaning(f.q.value, loan);
    }
  }

  /** The cell text of an amount: an integral amount as its decimal numeral, other amounts by `decimalText`. */
  function AmountText(x: real, decimalText: real -> string): string {
    if IsInteger(x) then IntToString(x.Floor) else decimalText(x)
  }

  /** An integral amount's cell reads back as the same number. */
  lemma AmountTextReadsBack(x: real, decimalText: real -> string)
    requires IsInteger(x)
    ensures JsNumber(AmountText(x, decimalText)) == Some(x)
  {
    JsNumberOfInt(x.Floor);
  }

  /** One worksheet row. */
  datatype SheetRow = SheetRow(
    id: string, customerName: string, principalAmount: string, statusChuoc: string,
    dueDate: string, notes: string, createdAt: string)

  function SheetRowOf(loan: LoanRow, decimalText: real -> string): (r: SheetRow)
    ensures r.id == loan.id && r.customerName == loan.customerName
    ensures StatusFromName(r.statusChuoc) == Some(loan.statusChuoc)
    ensures loan.dueDate.None? <==> r.dueDate == ""
    ensures loan.dueDate.Some? ==>
      ParseIsoDate(r.dueDate) == Some((loan.dueDate.value.year as nat, loan.dueDate.value.month as nat, loan.dueDate.value.day as nat))
    ensures loan.notes.Some? ==> r.notes == loan.notes.value
    ensures loan.notes.None? ==> r.notes == ""
  {
    StatusNameRoundTrip(loan.statusChuoc);
    SheetRow(loan.id, loan.customerName, AmountText(loan.principalAmount, decimalText), StatusName(loan.statusChuoc),
             if loan.dueDate.Some? then IsoDateRoundTrip(loan.dueDate.value); IsoDate(loan.dueDate.value) else "",
             loan.notes.GetOr(""), IsoString(loan.createdAt))
  }

  function SheetRows(loans: seq<LoanRow>, decimalText: real -> string): (r: seq<SheetRow>)
    ensures |r| == |loans|
    ensures forall i :: 0 <= i < |r| ==> r[i] == SheetRowOf(loans[i], decimalText)
  {
    seq(|loans|, i requires 0 <= i < |loans| => SheetRowOf(loans[i], decimalText))
  }

  /** The exported loans, newest first, and the worksheet rows written for them. */
  datatype Export = Export(loans: seq<LoanRow>, sheet: seq<SheetRow>)

  /** The `EXPORT_LOANS` audit details. */
  function ExportDetails(f: ExportFilters, count: nat): Json {
    JObj(map["filters" := FiltersJson(f), "count" := JNum(count as real), "format" := JStr("zip_aes256")])
  }

  /**
   * `POST /api/export`. Guards in order: a session (401), the export role
   * (403), a body `zExportBody` accepts (400); an unreadable body (`None`)
   * counts as `{}`. On success the worksheet rows, and one audit entry with
   * the filters and the row count; the loan tables are not changed.
   */
  function ExportLoans(user: Option<User>, body: Option<Json>, db: Db, decimalText: real -> string): (r: Reply<Export>)
    ensures user.None? ==> r == Reply(Failure(Unauthorized), db)
    ensures user.Some? && !CanExport(user.value) ==> r == Reply(Failure(Forbidden), db)
    ensures user.Some? && CanExport(user.value) && !ValidExportBody(body.GetOr(JObj(map[]))) ==> r == Reply(Failure(BadRequest), db)
    ensures r.result.Failure? ==> r.db == db
    ensures r.result.Success? <==> user.Some? && CanExport(user.value) && ValidExportBody(body.GetOr(JObj(map[])))
    ensures r.result.Success? && |r.result.value.loans| > 0 ==>
      var f := ParseExportBody(body.GetOr(JObj(map[]))).value;
      |r.result.value.loans| <= |Ordered(ExportWhere(f), db)| && r.result.value.loans == Ordered(ExportWhere(f), db)[..|r.result.value.loans|]
    ensures r.result.Success? ==>
      && user.Some? && CanExport(user.value)
      && var f := ParseExportBody(body.GetOr(JObj(map[]))).value;
      && var total := |Select(ExportWhere(f), db.loans)|;
      && var out := r.result.value;
      && |out.loans| == Min(EXPORT_CAP, total)
      && SortedBy(out.loans, NewestFirst)
      && (forall i :: 0 <= i < |out.loans| ==> out.loans[i] in db.loans && Matches(ExportWhere(f), out.loans[i]))
      && out.sheet == SheetRows(out.loans, decimalText)
      && r.db.loans == db.loans && r.db.loanItems == db.loanItems && r.db.items == db.items
      && |r.db.audit| == |db.audit| + 1 && r.db.audit[..|db.audit|] == db.audit
      && r.db.audit[|db.audit|] == AuditEntry(Some(user.value.id), "EXPORT_LOANS", Some("loans"), None, ExportDetails(f, |out.loans|))
  {
    if user.None? then Reply(Failure(Unauthorized), db)
    else if !CanExport(user.value) then Reply(Failure(Forbidden), db)
    else match ParseExportBody(body.GetOr(JObj(map[])))
      case None => Reply(Failure(BadRequest), db)
      case Some(f) =>
        var loans := PageRows(ExportWhere(f), db, 0, EXPORT_CAP);
        Reply(Success(Export(loans, SheetRows(loans, decimalText))),
              WriteAudit(db, user, "EXPORT_LOANS", Some("loans"), None, ExportDetails(f, |loans|)))
  }

  /** An unreadable body exports every live loan (up to the cap): `{}` filters nothing. */
  lemma UnreadableBodyExportsAll(user: User, db: Db, decimalText: real -> string, loan: LoanRow)
    requires CanExport(user)
    requires loan.deletedAt.None?
    ensures ExportLoans(Some(user), None, db, decimalText).result.Success?
    ensures Matches(ExportWhere(ParseExportBody(JObj(map[])).value), loan)
  {
    EmptyExportBody();
  }

  /** A body that leaves both bounds out still gets a range, and that range accepts every amount. */
  lemma MissingBoundsConstrainNothing(f: ExportFilters, loan: LoanRow)
    requires f.amount.Absent? && f.amountMin.Absent? && f.amountMax.Absent?
    ensures ExportWhere(f).amount == Some(AmountRange(None, None))
    ensures AmountMatches(ExportWhere(f).amount.value, loan.principalAmount)
  {
  }

  /** When the matches fit under the cap, the export holds every one of them, each once. */
  lemma {:induction false} ExportIsComplete(user: User, body: Option<Json>, db: Db, decimalText: real -> string)
    requires ExportLoans(Some(user), body, db, decimalText).result.Success?
    requires |Select(ExportWhere(ParseExportBody(body.GetOr(JObj(map[]))).value), db.loans)| <= EXPORT_CAP
    ensures multiset(ExportLoans(Some(user), body, db, decimalText).result.value.loans)
         == multiset(Select(ExportWhere(ParseExportBody(body.GetOr(JObj(map[]))).value), db.loans))
  {
    WholePage(ExportWhere(ParseExportBody(body.GetOr(JObj(map[]))).value), db, EXPORT_CAP);
  }
}
