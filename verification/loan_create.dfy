/**
 * The loan-creation dialog: the "ready to save" gate, the item-row filter and
 * check, the request payload built on submit, and the fields the list derives
 * from the created loan (item count, redeemed count, redemption status and the
 * items summary).
 */
module LoanCreate {
  import opened Wrappers
  import opened Text
  import opened Numbers
  import opened Json
  import opened Domain
  import opened Sorting
  import opened Money
  import opened Validators

  /** The five text inputs of the dialog, as typed. */
  datatype Form = Form(
    customerName: string,
    cccd: string,
    totalAmountVnd: string,
    datePawn: string,
    recordNote: string)

  /**
   * One item row. Each field may be unset (`undefined`); `qty` is the number the
   * quantity input produced.
   */
  datatype Row = Row(
    itemName: Option<string>,
    qty: Option<real>,
    weightChi: Option<string>,
    note: Option<string>)

  /** An item as sent in the request. */
  datatype ItemPayload = ItemPayload(qty: real, itemName: string, weightChi: real, note: Option<string>)

  /** The request body sent to the loan-creation endpoint. */
  datatype Payload = Payload(
    customerName: string,
    cccd: string,
    totalAmountVnd: int,
    datePawn: string,
    recordNote: Option<string>,
    items: seq<ItemPayload>)

  /** Why a submit stopped before sending anything. */
  datatype SubmitError =
    | NotReady       // the save gate is closed: nothing happens
    | InvalidAmount  // "Số tiền không hợp lệ"
    | InvalidItem    // "Thông tin hàng cầm chưa hợp lệ"

  /** `canSave`: customer, CCCD, amount and date are all non-blank. */
  predicate CanSave(f: Form) {
    !IsBlank(f.customerName) && !IsBlank(f.cccd) && !IsBlank(f.totalAmountVnd) && !IsBlank(f.datePawn)
  }

  /** A row is saved when its name, weight or note is non-blank. */
  predicate Kept(row: Row) {
    !IsBlank(row.itemName.GetOr("")) || !IsBlank(row.weightChi.GetOr("")) || !IsBlank(row.note.GetOr(""))
  }

  /** The weight of a row: `Number(weightChi ?? "")`, `None` when not finite. */
  function Weight(row: Row): Option<real> {
    JsNumber(row.weightChi.GetOr(""))
  }

  /** A saved row needs a name, a finite non-negative weight and a positive quantity (1 when unset). */
  predicate RowOk(row: Row) {
    && !IsBlank(row.itemName.GetOr(""))
    && Weight(row).Some? && Weight(row).value >= 0.0
    && row.qty.GetOr(1.0) > 0.0
  }

  /** `rowsToSave`. */
  function RowsToSave(rows: seq<Row>): (r: seq<Row>)
    ensures forall x :: x in r <==> x in rows && Kept(x)
  {
    Filter(rows, Kept)
  }

  function ItemOf(row: Row): (p: ItemPayload)
    requires RowOk(row)
    ensures p.qty == row.qty.GetOr(1.0) && p.qty > 0.0
    ensures p.itemName == Trim(row.itemName.GetOr("")) && p.itemName != ""
    ensures Some(p.weightChi) == Weight(row) && p.weightChi >= 0.0
    ensures p.note == row.note
  {
    ItemPayload(row.qty.GetOr(1.0), Trim(row.itemName.GetOr("")), Weight(row).value, row.note)
  }

  /** The amount field parses to a non-negative whole number of đồng. */
  predicate AmountOk(f: Form) {
    ParseMoneyVnd(f.totalAmountVnd).Some? && ParseMoneyVnd(f.totalAmountVnd).value >= 0
  }

  predicate AllRowsOk(saved: seq<Row>) {
    forall x :: x in saved ==> RowOk(x)
  }

  /** The payload: trimmed names and CCCD, the date as typed, a blank note as `null`, one item per saved row. */
  function BuildPayload(f: Form, amount: int, saved: seq<Row>): (p: Payload)
    requires AllRowsOk(saved)
    ensures p.customerName == Trim(f.customerName) && p.cccd == Trim(f.cccd)
    ensures p.totalAmountVnd == amount && p.datePawn == f.datePawn
    ensures p.recordNote == (if IsBlank(f.recordNote) then None else Some(Trim(f.recordNote)))
    ensures |p.items| == |saved|
    ensures forall i :: 0 <= i < |saved| ==> RowOk(saved[i]) && p.items[i] == ItemOf(saved[i])
  {
    Payload(
      Trim(f.customerName),
      Trim(f.cccd),
      amount,
      f.datePawn,
      if IsBlank(f.recordNote) then None else Some(Trim(f.recordNote)),
      seq(|saved|, i requires 0 <= i < |saved| => ItemOf(saved[i])))
  }

  /**
   * `onSubmit` up to the request: the gate, then the amount, then every saved
   * row, and the payload when all pass.
   */
  function Submit(f: Form, rows: seq<Row>): (r: Result<Payload, SubmitError>)
    ensures r == Failure(NotReady) <==> !CanSave(f)
    ensures r == Failure(InvalidAmount) <==> CanSave(f) && !AmountOk(f)
    ensures r == Failure(InvalidItem) <==>
      CanSave(f) && AmountOk(f) && exists x :: x in rows && Kept(x) && !RowOk(x)
    ensures r.Success? ==>
      && AmountOk(f) && Some(r.value.totalAmountVnd) == ParseMoneyVnd(f.totalAmountVnd)
      && r.value.customerName != "" && r.value.cccd != ""
      && AllRowsOk(RowsToSave(rows))
      && r.value == BuildPayload(f, r.value.totalAmountVnd, RowsToSave(rows))
  {
    if !CanSave(f) then Failure(NotReady)
    else if !AmountOk(f) then Failure(InvalidAmount)
    else
      var saved := RowsToSave(rows);
      if !AllRowsOk(saved) then Failure(InvalidItem)
      else Success(BuildPayload(f, ParseMoneyVnd(f.totalAmountVnd).value, saved))
  }

  /** A row left entirely blank changes nothing about the submit. */
  lemma BlankRowIgnored(f: Form, rows: seq<Row>, row: Row)
    requires !Kept(row)
    ensures Submit(f, rows + [row]) == Submit(f, rows)
  {
    assert RowsToSave(rows + [row]) == RowsToSave(rows) by {
      FilterAppend(rows, row, Kept);
    }
  }

  /** A submit with no item rows at all sends an empty item list when it goes through. */
  lemma NoRowsNoItems(f: Form)
    requires CanSave(f) && AmountOk(f)
    ensures Submit(f, []).Success? && Submit(f, []).value.items == []
  {
  }

  /** `JSON.stringify(payload)` as the server receives it. */
  function PayloadJson(p: Payload): (j: Json)
    ensures j.JObj? && "principalAmount" !in j.fields
    ensures j.fields.Keys == {"customerName", "cccd", "totalAmountVnd", "datePawn", "recordNote", "items"}
  {
    JObj(map[
      "customerName" := JStr(p.customerName),
      "cccd" := JStr(p.cccd),
      "totalAmountVnd" := JNum(p.totalAmountVnd as real),
      "datePawn" := JStr(p.datePawn),
      "recordNote" := (if p.recordNote.Some? then JStr(p.recordNote.value) else JNull),
      "items" := JArr(seq(|p.items|, i requires 0 <= i < |p.items| => ItemJson(p.items[i])))])
  }

  function ItemJson(it: ItemPayload): Json {
    JObj(map[
      "qty" := JNum(it.qty),
      "itemName" := JStr(it.itemName),
      "weightChi" := JNum(it.weightChi),
      "note" := (if it.note.Some? then JStr(it.note.value) else JNull)])
  }

  /**
   * The dialog's payload names the amount `totalAmountVnd`, while the server's
   * loan schema requires `principalAmount`: no payload the dialog builds is a
   * valid loan-creation body.
   */
  lemma PayloadIsNotALoanBody(p: Payload)
    ensures !ValidLoanCreate(PayloadJson(p))
  {
  }

  /**
   * The body the dialog evidently means to send: the amount under
   * `principalAmount`, the note under `notes`, and each item's name and
   * quantity under the schema's `name` and `quantity`.
   */
  function LoanBodyJson(p: Payload): (j: Json)
    ensures j.JObj? && j.fields.Keys == {"customerName", "principalAmount", "notes", "items"}
    ensures j.fields["principalAmount"] == JNum(p.totalAmountVnd as real)
    ensures j.fields["customerName"] == JStr(p.customerName)
  {
    JObj(map[
      "customerName" := JStr(p.customerName),
      "principalAmount" := JNum(p.totalAmountVnd as real),
      "notes" := (if p.recordNote.Some? then JStr(p.recordNote.value) else JNull),
      "items" := JArr(seq(|p.items|, i requires 0 <= i < |p.items| => LoanItemJson(p.items[i])))])
  }

  function LoanItemJson(it: ItemPayload): Json {
    JObj(map[
      "name" := JStr(it.itemName),
      "quantity" := JNum(it.qty),
      "note" := (if it.note.Some? then JStr(it.note.value) else JNull)])
  }

  /**
   * The schema's bounds the dialog itself does not check: name lengths, note
   * lengths, and whole quantities.
   */
  predicate WithinSchema(p: Payload) {
    && |p.customerName| <= 200
    && (p.recordNote.Some? ==> |p.recordNote.value| <= 5000)
    && forall i :: 0 <= i < |p.items| ==>
         && |p.items[i].itemName| <= 200 && IsInteger(p.items[i].qty)
         && (p.items[i].note.Some? ==> |Trim(p.items[i].note.value)| <= 2000)
  }

  /** A submitted item row sent under the schema's keys is a valid loan line. */
  lemma {:induction false} LoanItemAccepted(it: ItemPayload)
    requires it.qty > 0.0 && it.itemName != "" && IsTrimmed(it.itemName) && |it.itemName| <= 200 && IsInteger(it.qty)
    requires it.note.Some? ==> |Trim(it.note.value)| <= 2000
    ensures ValidLoanItem(LoanItemJson(it))
  {
    TrimOfTrimmed(it.itemName);
  }

  /** What every submitted payload satisfies: trimmed non-empty names, a non-negative amount, positive quantities. */
  predicate Sendable(p: Payload) {
    && p.customerName != "" && IsTrimmed(p.customerName) && p.totalAmountVnd >= 0
    && (p.recordNote.Some? ==> IsTrimmed(p.recordNote.value))
    && forall i :: 0 <= i < |p.items| ==>
         p.items[i].qty > 0.0 && p.items[i].itemName != "" && IsTrimmed(p.items[i].itemName)
  }

  lemma SubmitIsSendable(f: Form, rows: seq<Row>)
    requires Submit(f, rows).Success?
    ensures Sendable(Submit(f, rows).value)
  {
    var p := Submit(f, rows).value;
    var saved := RowsToSave(rows);
    forall i | 0 <= i < |p.items| ensures p.items[i].qty > 0.0 && p.items[i].itemName != "" && IsTrimmed(p.items[i].itemName) {
      assert p.items[i] == ItemOf(saved[i]);
    }
  }

  /** A sendable payload within the schema's bounds, sent under the schema's keys, passes `zLoanCreate`. */
  lemma {:induction false} SendableAccepted(p: Payload)
    requires Sendable(p) && WithinSchema(p)
    ensures ValidLoanCreate(LoanBodyJson(p))
  {
    var j := LoanBodyJson(p);
    TrimOfTrimmed(p.customerName);
    if p.recordNote.Some? {
      TrimOfTrimmed(p.recordNote.value);
    }
    var elems := j.fields["items"].elems;
    forall i | 0 <= i < |elems| ensures ValidLoanItem(elems[i]) {
      assert elems[i] == LoanItemJson(p.items[i]);
      LoanItemAccepted(p.items[i]);
    }
    assert AllValidLoanItems(elems);
  }

  /**
   * Sent under the schema's keys, every payload a submit builds (within the
   * schema's length bounds) passes `zLoanCreate`, and the server reads back
   * the customer name and the amount the dialog computed.
   */
  lemma {:induction false} LoanBodyAccepted(f: Form, rows: seq<Row>)
    requires Submit(f, rows).Success? && WithinSchema(Submit(f, rows).value)
    ensures ValidLoanCreate(LoanBodyJson(Submit(f, rows).value))
    ensures ParseLoanCreate(LoanBodyJson(Submit(f, rows).value)).value.principalAmount == Submit(f, rows).value.totalAmountVnd as real
    ensures ParseLoanCreate(LoanBodyJson(Submit(f, rows).value)).value.customerName == Submit(f, rows).value.customerName
  {
    var p := Submit(f, rows).value;
    SubmitIsSendable(f, rows);
    SendableAccepted(p);
    TrimOfTrimmed(p.customerName);
  }

  // ---------------------------------------------------------------------------
  // Fields derived from the created loan.

  /** An item of the created loan as the response returns it. */
  datatype CreatedItem = CreatedItem(qty: int, itemName: string, weightChi: string, isRedeemed: bool)

  predicate Redeemed(it: CreatedItem) {
    it.isRedeemed
  }

  /** `items.filter((it) => it.isRedeemed).length`. */
  function RedeemedCount(items: seq<CreatedItem>): (n: nat)
    ensures n <= |items|
    ensures n == |items| <==> forall i :: 0 <= i < |items| ==> items[i].isRedeemed
    ensures n == 0 <==> forall i :: 0 <= i < |items| ==> !items[i].isRedeemed
  {
    FilterKeepsAll(items, Redeemed);
    FilterKeepsNone(items, Redeemed);
    |Filter(items, Redeemed)|
  }

  /** Each item counts once, exactly when it is redeemed. */
  lemma {:induction false} RedeemedCountSnoc(items: seq<CreatedItem>, it: CreatedItem)
    ensures RedeemedCount([]) == 0
    ensures RedeemedCount(items + [it]) == RedeemedCount(items) + (if it.isRedeemed then 1 else 0)
  {
    FilterAppend(items, it, Redeemed);
  }

  /** `DA_CHUOC` when there is at least one item and the redeemed count reaches the item count. */
  function DerivedStatus(items: seq<CreatedItem>): Status {
    if |items| > 0 && RedeemedCount(items) >= |items| then DA_CHUOC else CHUA_CHUOC
  }

  /** The derived status is "redeemed" exactly when there are items and all of them are redeemed. */
  lemma DerivedStatusMeaning(items: seq<CreatedItem>)
    ensures DerivedStatus(items) == DA_CHUOC <==>
      |items| > 0 && forall i :: 0 <= i < |items| ==> items[i].isRedeemed
  {
    FilterKeepsAll(items, Redeemed);
  }

  /** A loan without items is never shown as redeemed. */
  lemma NoItemsNotRedeemed()
    ensures DerivedStatus([]) == CHUA_CHUOC
  {
  }

  /** One summary entry: quantity, `x`, name, then the weight and the unit in parentheses. */
  function SummaryPart(it: CreatedItem): string {
    IntToString(it.qty) + "x" + it.itemName + "(" + it.weightChi + " Chỉ)"
  }

  function ItemsSummary(items: seq<CreatedItem>): string {
    Join(seq(|items|, i requires 0 <= i < |items| => SummaryPart(items[i])), "; ")
  }

  /** The summary of no items is empty, and of one item is that item's entry. */
  lemma SummaryOfFew(it: CreatedItem)
    ensures ItemsSummary([]) == ""
    ensures ItemsSummary([it]) == SummaryPart(it)
  {
  }

  /** Adding an item at the end adds `"; "` and its entry to the summary. */
  lemma SummarySnoc(items: seq<CreatedItem>, it: CreatedItem)
    requires |items| > 0
    ensures ItemsSummary(items + [it]) == ItemsSummary(items) + "; " + SummaryPart(it)
  {
    var parts := seq(|items|, i requires 0 <= i < |items| => SummaryPart(items[i]));
    var all := seq(|items + [it]|, i requires 0 <= i < |items + [it]| => SummaryPart((items + [it])[i]));
    assert all == parts + [SummaryPart(it)];
    JoinSnoc(parts, SummaryPart(it), "; ");
  }

  /** The list entry the dialog hands back: the response plus the derived fields. */
  datatype DerivedLoan = DerivedLoan(
    itemsSummary: string,
    itemCount: nat,
    redeemedCount: nat,
    statusChuoc: Status)

  function Derive(items: seq<CreatedItem>): (d: DerivedLoan)
    ensures d.itemCount == |items| && d.redeemedCount <= d.itemCount
    ensures d.redeemedCount == RedeemedCount(items)
    ensures d.redeemedCount == d.itemCount <==> forall i :: 0 <= i < |items| ==> items[i].isRedeemed
    ensures d.redeemedCount == 0 <==> forall i :: 0 <= i < |items| ==> !items[i].isRedeemed
    ensures d.statusChuoc == DA_CHUOC <==> d.itemCount > 0 && d.redeemedCount == d.itemCount
    ensures d.itemsSummary == ItemsSummary(items)
  {
    DerivedLoan(ItemsSummary(items), |items|, RedeemedCount(items), DerivedStatus(items))
  }
}
