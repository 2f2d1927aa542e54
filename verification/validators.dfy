/**
 * The request schemas of the handlers (zod objects) as validity predicates on
 * JSON values, each paired with the parser that yields zod's output: strings
 * declared with `.trim()` are trimmed before their length bounds are checked
 * and are returned trimmed; keys the schema does not declare are dropped.
 */
module Validators {
  import opened Wrappers
  import opened Text
  import opened Json
  import opened Domain
  import opened Uuid

  // ----- rules for a single value -----

  /** The zod rule a single field value must satisfy. */
  datatype Rule =
    | AnyStr                                  // z.string()
    | Str(trim: bool, lo: nat, hi: nat)       // z.string()[.trim()].min(lo).max(hi)
    | Amount                                  // z.number().finite().nonnegative()
    | Quantity                                // z.number().int().positive()
    | StatusEnum                              // z.enum(["DA_CHUOC", "CHUA_CHUOC"])
    | UuidText                                // z.string().uuid()

  function Normalize(s: string, trim: bool): string {
    if trim then Trim(s) else s
  }

  predicate Holds(r: Rule, v: Json) {
    match r
    case AnyStr => v.JStr?
    case Str(trim, lo, hi) => v.JStr? && lo <= |Normalize(v.s, trim)| <= hi
    case Amount => v.JNum? && v.n >= 0.0
    case Quantity => v.JNum? && IsInteger(v.n) && v.n > 0.0
    case StatusEnum => v.JStr? && StatusFromName(v.s).Some?
    case UuidText => v.JStr? && HyphenatedHex(v.s)
  }

  /** A key declared without modifiers: present and valid. */
  predicate RequiredField(o: map<string, Json>, k: string, r: Rule) {
    k in o && Holds(r, o[k])
  }

  /** `.optional()`: missing, or present and valid. */
  predicate OptionalField(o: map<string, Json>, k: string, r: Rule) {
    k !in o || Holds(r, o[k])
  }

  /** `.optional().nullable()`: missing, `null`, or present and valid. */
  predicate NullableField(o: map<string, Json>, k: string, r: Rule) {
    k !in o || o[k].JNull? || Holds(r, o[k])
  }

  // ----- typed readers for a single field -----

  function ReadString(v: Json, trim: bool, lo: nat, hi: nat): (r: Option<string>)
    ensures r.Some? <==> Holds(Str(trim, lo, hi), v)
    ensures r.Some? ==> r.value == Normalize(v.s, trim) && lo <= |r.value| <= hi
  {
    if v.JStr? && lo <= |Normalize(v.s, trim)| <= hi then Some(Normalize(v.s, trim)) else None
  }

  function NullableString(o: map<string, Json>, k: string, trim: bool, lo: nat, hi: nat): (r: Option<Field<string>>)
    ensures r.Some? <==> NullableField(o, k, Str(trim, lo, hi))
    ensures r == Some(Absent) <==> k !in o
    ensures r == Some(Null) <==> (k in o && o[k].JNull?)
    ensures r.Some? && r.value.Present? ==> k in o && o[k].JStr? && r.value.value == Normalize(o[k].s, trim)
  {
    if k !in o then Some(Absent)
    else if o[k].JNull? then Some(Null)
    else match ReadString(o[k], trim, lo, hi)
      case Some(s) => Some(Present(s))
      case None => None
  }

  function NullableAnyString(o: map<string, Json>, k: string): (r: Option<Field<string>>)
    ensures r.Some? <==> NullableField(o, k, AnyStr)
    ensures r == Some(Absent) <==> k !in o
    ensures r == Some(Null) <==> (k in o && o[k].JNull?)
    ensures r.Some? && r.value.Present? ==> k in o && o[k] == JStr(r.value.value)
  {
    if k !in o then Some(Absent)
    else match o[k]
      case JNull => Some(Null)
      case JStr(s) => Some(Present(s))
      case _ => None
  }

  function NullableAmount(o: map<string, Json>, k: string): (r: Option<Field<real>>)
    ensures r.Some? <==> NullableField(o, k, Amount)
    ensures r == Some(Absent) <==> k !in o
    ensures r == Some(Null) <==> (k in o && o[k].JNull?)
    ensures r.Some? && r.value.Present? ==> k in o && o[k] == JNum(r.value.value) && r.value.value >= 0.0
  {
    if k !in o then Some(Absent)
    else match o[k]
      case JNull => Some(Null)
      case JNum(n) => if n >= 0.0 then Some(Present(n)) else None
      case _ => None
  }

  function NullableQuantity(o: map<string, Json>, k: string): (r: Option<Field<int>>)
    ensures r.Some? <==> NullableField(o, k, Quantity)
    ensures r == Some(Absent) <==> k !in o
    ensures r == Some(Null) <==> (k in o && o[k].JNull?)
    ensures r.Some? && r.value.Present? ==> k in o && o[k] == JNum(r.value.value as real) && r.value.value > 0
  {
    if k !in o then Some(Absent)
    else match o[k]
      case JNull => Some(Null)
      case JNum(n) => if IsInteger(n) && n > 0.0 then Some(Present(n.Floor)) else None
      case _ => None
  }

  function NullableStatus(o: map<string, Json>, k: string): (r: Option<Field<Status>>)
    ensures r.Some? <==> NullableField(o, k, StatusEnum)
    ensures r == Some(Absent) <==> k !in o
    ensures r == Some(Null) <==> (k in o && o[k].JNull?)
    ensures r.Some? && r.value.Present? ==> k in o && o[k] == JStr(StatusName(r.value.value))
  {
    if k !in o then Some(Absent)
    else match o[k]
      case JNull => Some(Null)
      case JStr(s) =>
        (match StatusFromName(s)
         case Some(st) => Some(Present(st))
         case None => None)
      case _ => None
  }

  function NullableUuid(o: map<string, Json>, k: string): (r: Option<Field<string>>)
    ensures r.Some? <==> NullableField(o, k, UuidText)
    ensures r == Some(Absent) <==> k !in o
    ensures r == Some(Null) <==> (k in o && o[k].JNull?)
    ensures r.Some? && r.value.Present? ==> k in o && o[k] == JStr(r.value.value) && HyphenatedHex(r.value.value)
  {
    if k !in o then Some(Absent)
    else match o[k]
      case JNull => Some(Null)
      case JStr(s) => if HyphenatedHex(s) then Some(Present(s)) else None
      case _ => None
  }

  // ----- zLogin -----

  datatype Credentials = Credentials(username: string, password: string)

  /** `zLogin`: username of 1 to 100 and password of 1 to 200 characters, not trimmed. */
  predicate ValidLogin(j: Json) {
    && j.JObj?
    && RequiredField(j.fields, "username", Str(false, 1, 100))
    && RequiredField(j.fields, "password", Str(false, 1, 200))
  }

  function ParseLogin(j: Json): (r: Option<Credentials>)
    ensures r.Some? <==> ValidLogin(j)
    ensures r.Some? ==> 1 <= |r.value.username| <= 100 && 1 <= |r.value.password| <= 200
    ensures r.Some? ==> j.fields["username"] == JStr(r.value.username) && j.fields["password"] == JStr(r.value.password)
  {
    if !j.JObj? || "username" !in j.fields || "password" !in j.fields then None
    else match (ReadString(j.fields["username"], false, 1, 100), ReadString(j.fields["password"], false, 1, 200))
      case (Some(u), Some(p)) => Some(Credentials(u, p))
      case _ => None
  }

  // ----- zItemCreate / zItemUpdate -----

  datatype ItemCreateData = ItemCreateData(
    code: Field<string>, name: string, unit: Field<string>,
    description: Field<string>, price: Field<real>, barcode: Field<string>)

  /** The item fields other than `name`, shared by the create and update schemas. */
  predicate ItemExtrasOk(o: map<string, Json>) {
    && NullableField(o, "code", Str(true, 1, 100))
    && NullableField(o, "unit", Str(true, 0, 50))
    && NullableField(o, "description", Str(true, 0, 2000))
    && NullableField(o, "price", Amount)
    && NullableField(o, "barcode", Str(true, 0, 200))
  }

  /** `zItemCreate`: a name of 1 to 200 characters after trimming, the other fields optional. */
  predicate ValidItemCreate(j: Json) {
    j.JObj? && RequiredField(j.fields, "name", Str(true, 1, 200)) && ItemExtrasOk(j.fields)
  }

  function ParseItemCreate(j: Json): (r: Option<ItemCreateData>)
    ensures r.Some? <==> ValidItemCreate(j)
    ensures r.Some? ==> r.value.name == Trim(j.fields["name"].s) && 1 <= |r.value.name| <= 200
    ensures r.Some? ==>
      && NullableString(j.fields, "code", true, 1, 100) == Some(r.value.code)
      && NullableString(j.fields, "unit", true, 0, 50) == Some(r.value.unit)
      && NullableString(j.fields, "description", true, 0, 2000) == Some(r.value.description)
      && NullableAmount(j.fields, "price") == Some(r.value.price)
      && NullableString(j.fields, "barcode", true, 0, 200) == Some(r.value.barcode)
  {
    if !j.JObj? || "name" !in j.fields then None
    else
      var o := j.fields;
      match (ReadString(o["name"], true, 1, 200), NullableString(o, "code", true, 1, 100),
             NullableString(o, "unit", true, 0, 50), NullableString(o, "description", true, 0, 2000),
             NullableAmount(o, "price"), NullableString(o, "barcode", true, 0, 200))
      case (Some(name), Some(code), Some(unit), Some(desc), Some(price), Some(barcode)) =>
        Some(ItemCreateData(code, name, unit, desc, price, barcode))
      case _ => None
  }

  /** `zItemCreate.partial()`: every key becomes optional; `name` may be missing but not `null`. */
  predicate ValidItemUpdate(j: Json) {
    j.JObj? && OptionalField(j.fields, "name", Str(true, 1, 200)) && ItemExtrasOk(j.fields)
  }

  /** The empty object is a valid update. */
  lemma EmptyUpdateIsValid()
    ensures ValidItemUpdate(JObj(map[]))
  {
  }

  /** Every valid create body is a valid update body. */
  lemma CreateBodyIsUpdateBody(j: Json)
    requires ValidItemCreate(j)
    ensures ValidItemUpdate(j)
  {
  }

  // ----- zLoanCreate -----

  datatype LoanItemInput = LoanItemInput(
    itemId: Field<string>, name: Field<string>, code: Field<string>, unit: Field<string>,
    description: Field<string>, price: Field<real>, barcode: Field<string>,
    quantity: Field<int>, note: Field<string>)

  datatype LoanCreateData = LoanCreateData(
    customerName: string, principalAmount: real, dueDate: Field<string>,
    notes: Field<string>, items: Field<seq<LoanItemInput>>)

  /** One element of `items`. */
  predicate ValidLoanItem(j: Json) {
    && j.JObj?
    && NullableField(j.fields, "itemId", UuidText)
    && NullableField(j.fields, "name", Str(true, 1, 200))
    && ItemExtrasOk(j.fields)
    && NullableField(j.fields, "quantity", Quantity)
    && NullableField(j.fields, "note", Str(true, 0, 2000))
  }

  predicate AllValidLoanItems(elems: seq<Json>) {
    forall i :: 0 <= i < |elems| ==> ValidLoanItem(elems[i])
  }

  /**
   * `zLoanCreate`: a customer name of 1 to 200 characters after trimming, a
   * non-negative amount, notes of at most 5000 characters after trimming, and
   * `items` missing, `null` or an array of valid items.
   */
  predicate ValidLoanCreate(j: Json) {
    && j.JObj?
    && RequiredField(j.fields, "customerName", Str(true, 1, 200))
    && RequiredField(j.fields, "principalAmount", Amount)
    && NullableField(j.fields, "dueDate", AnyStr)
    && NullableField(j.fields, "notes", Str(true, 0, 5000))
    && ("items" !in j.fields || j.fields["items"].JNull?
        || (j.fields["items"].JArr? && AllValidLoanItems(j.fields["items"].elems)))
  }

  function ParseLoanItem(j: Json): (r: Option<LoanItemInput>)
    ensures r.Some? <==> ValidLoanItem(j)
    ensures r.Some? && r.value.name.Present? ==> 1 <= |r.value.name.value| <= 200
    ensures r.Some? && r.value.quantity.Present? ==> r.value.quantity.value > 0
    ensures r.Some? ==>
      && NullableUuid(j.fields, "itemId") == Some(r.value.itemId)
      && NullableString(j.fields, "name", true, 1, 200) == Some(r.value.name)
      && NullableString(j.fields, "code", true, 1, 100) == Some(r.value.code)
      && NullableString(j.fields, "unit", true, 0, 50) == Some(r.value.unit)
      && NullableString(j.fields, "description", true, 0, 2000) == Some(r.value.description)
      && NullableAmount(j.fields, "price") == Some(r.value.price)
      && NullableString(j.fields, "barcode", true, 0, 200) == Some(r.value.barcode)
      && NullableQuantity(j.fields, "quantity") == Some(r.value.quantity)
      && NullableString(j.fields, "note", true, 0, 2000) == Some(r.value.note)
  {
    if !j.JObj? then None
    else
      var o := j.fields;
      match (NullableUuid(o, "itemId"), NullableString(o, "name", true, 1, 200), NullableString(o, "code", true, 1, 100),
             NullableString(o, "unit", true, 0, 50), NullableString(o, "description", true, 0, 2000),
             NullableAmount(o, "price"), NullableString(o, "barcode", true, 0, 200),
             NullableQuantity(o, "quantity"), NullableString(o, "note", true, 0, 2000))
      case (Some(id), Some(name), Some(code), Some(unit), Some(desc), Some(price), Some(barcode), Some(qty), Some(note)) =>
        Some(LoanItemInput(id, name, code, unit, desc, price, barcode, qty, note))
      case _ => None
  }

  /** Parses every element, failing as a whole when any element is invalid. */
  function ParseLoanItems(elems: seq<Json>): (r: Option<seq<LoanItemInput>>)
    ensures r.Some? <==> AllValidLoanItems(elems)
    ensures r.Some? ==> |r.value| == |elems|
    ensures r.Some? ==> forall i :: 0 <= i < |elems| ==> ParseLoanItem(elems[i]) == Some(r.value[i])
    decreases |elems|
  {
    if |elems| == 0 then Some([])
    else
      var head := ParseLoanItem(elems[0]);
      var tail := ParseLoanItems(elems[1..]);
      if head.Some? && tail.Some? then Some([head.value] + tail.value) else None
  }

  function ParseLoanCreate(j: Json): (r: Option<LoanCreateData>)
    ensures r.Some? <==> ValidLoanCreate(j)
    ensures r.Some? ==> r.value.customerName == Trim(j.fields["customerName"].s)
    ensures r.Some? ==> 1 <= |r.value.customerName| <= 200 && r.value.principalAmount >= 0.0
    ensures r.Some? && r.value.notes.Present? ==> |r.value.notes.value| <= 5000
    ensures r.Some? ==> j.fields["principalAmount"] == JNum(r.value.principalAmount)
    ensures r.Some? ==> NullableAnyString(j.fields, "dueDate") == Some(r.value.dueDate)
    ensures r.Some? ==> NullableString(j.fields, "notes", true, 0, 5000) == Some(r.value.notes)
    ensures r.Some? ==> (r.value.items == Absent <==> "items" !in j.fields)
    ensures r.Some? ==> (r.value.items == Null <==> "items" in j.fields && j.fields["items"].JNull?)
    ensures r.Some? && r.value.items.Present? ==>
      "items" in j.fields && j.fields["items"].JArr? && |j.fields["items"].elems| == |r.value.items.value|
    ensures r.Some? && r.value.items.Present? ==>
      forall i :: 0 <= i < |r.value.items.value| ==> ParseLoanItem(j.fields["items"].elems[i]) == Some(r.value.items.value[i])
  {
    if !j.JObj? || "customerName" !in j.fields || "principalAmount" !in j.fields then None
    else
      var o := j.fields;
      var items :=
        if "items" !in o then Some(Absent)
        else match o["items"]
          case JNull => Some(Null)
          case JArr(elems) =>
            (match ParseLoanItems(elems)
             case Some(xs) => Some(Present(xs))
             case None => None)
          case _ => None;
      match (ReadString(o["customerName"], true, 1, 200), o["principalAmount"], NullableAnyString(o, "dueDate"),
             NullableString(o, "notes", true, 0, 5000), items)
      case (Some(name), JNum(amount), Some(due), Some(notes), Some(its)) =>
        if amount >= 0.0 then Some(LoanCreateData(name, amount, due, notes, its)) else None
      case _ => None
  }

  // ----- zLoanStatusPatch -----

  /** `zLoanStatusPatch`: `status` is exactly "DA_CHUOC" or "CHUA_CHUOC". */
  predicate ValidStatusPatch(j: Json) {
    j.JObj? && RequiredField(j.fields, "status", StatusEnum)
  }

  function ParseStatusPatch(j: Json): (r: Option<Status>)
    ensures r.Some? <==> ValidStatusPatch(j)
    ensures r.Some? ==> j.fields["status"] == JStr(StatusName(r.value))
  {
    if j.JObj? && "status" in j.fields && j.fields["status"].JStr? then StatusFromName(j.fields["status"].s) else None
  }

  // ----- zExportBody -----

  datatype ExportFilters = ExportFilters(
    q: Field<string>, amount: Field<real>, amountMin: Field<real>, amountMax: Field<real>, status: Field<Status>)

  /** `zExportBody`: every key optional and nullable; amounts non-negative; status from the enum. */
  predicate ValidExportBody(j: Json) {
    && j.JObj?
    && NullableField(j.fields, "q", AnyStr)
    && NullableField(j.fields, "amount", Amount)
    && NullableField(j.fields, "amount_min", Amount)
    && NullableField(j.fields, "amount_max", Amount)
    && NullableField(j.fields, "status", StatusEnum)
  }

  function ParseExportBody(j: Json): (r: Option<ExportFilters>)
    ensures r.Some? <==> ValidExportBody(j)
    ensures r.Some? && r.value.amount.Present? ==> r.value.amount.value >= 0.0
    ensures r.Some? && r.value.amountMin.Present? ==> r.value.amountMin.value >= 0.0
    ensures r.Some? && r.value.amountMax.Present? ==> r.value.amountMax.value >= 0.0
    ensures r.Some? ==>
      && NullableAnyString(j.fields, "q") == Some(r.value.q)
      && NullableAmount(j.fields, "amount") == Some(r.value.amount)
      && NullableAmount(j.fields, "amount_min") == Some(r.value.amountMin)
      && NullableAmount(j.fields, "amount_max") == Some(r.value.amountMax)
      && NullableStatus(j.fields, "status") == Some(r.value.status)
  {
    if !j.JObj? then None
    else
      var o := j.fields;
      match (NullableAnyString(o, "q"), NullableAmount(o, "amount"), NullableAmount(o, "amount_min"),
             NullableAmount(o, "amount_max"), NullableStatus(o, "status"))
      case (Some(q), Some(a), Some(lo), Some(hi), Some(st)) => Some(ExportFilters(q, a, lo, hi, st))
      case _ => None
  }

  /** The empty object, and so an unreadable export body, is valid and filters nothing. */
  lemma EmptyExportBody()
    ensures ParseExportBody(JObj(map[])) == Some(ExportFilters(Absent, Absent, Absent, Absent, Absent))
  {
  }

  function PutField(m: map<string, Json>, k: string, f: Field<Json>): map<string, Json> {
    match f
    case Absent => m
    case Null => m[k := JNull]
    case Present(v) => m[k := v]
  }

  function StrField(f: Field<string>): Field<Json> {
    match f case Absent => Absent case Null => Null case Present(s) => Present(JStr(s))
  }

  function NumField(f: Field<real>): Field<Json> {
    match f case Absent => Absent case Null => Null case Present(n) => Present(JNum(n))
  }

  function StatusField(f: Field<Status>): Field<Json> {
    match f case Absent => Absent case Null => Null case Present(s) => Present(JStr(StatusName(s)))
  }

  /** The parsed export filters written back as JSON, as the audit entry stores them. */
  function FiltersJson(f: ExportFilters): Json {
    JObj(FiltersMap(f))
  }

  function FiltersMap(f: ExportFilters): map<string, Json> {
    var m1 := PutField(map[], "q", StrField(f.q));
    var m2 := PutField(m1, "amount", NumField(f.amount));
    var m3 := PutField(m2, "amount_min", NumField(f.amountMin));
    var m4 := PutField(m3, "amount_max", NumField(f.amountMax));
    PutField(m4, "status", StatusField(f.status))
  }

  /** Writing one key leaves every other key as it was. */
  lemma PutFieldFrame(m: map<string, Json>, k: string, f: Field<Json>, k': string)
    requires k' != k
    ensures k' in PutField(m, k, f) <==> k' in m
    ensures k' in m ==> PutField(m, k, f)[k'] == m[k']
  {
  }

  lemma PutFieldHere(m: map<string, Json>, k: string, f: Field<Json>)
    ensures k in PutField(m, k, f) <==> (!f.Absent? || k in m)
    ensures f.Null? ==> PutField(m, k, f)[k] == JNull
    ensures f.Present? ==> PutField(m, k, f)[k] == f.value
  {
  }

  /** Where each filter ends up in the recorded JSON object. */
  lemma FiltersMapKeys(f: ExportFilters)
    ensures var o := FiltersMap(f);
      && ("q" in o <==> !f.q.Absent?) && (f.q.Null? ==> o["q"] == JNull) && (f.q.Present? ==> o["q"] == JStr(f.q.value))
      && ("amount" in o <==> !f.amount.Absent?) && (f.amount.Null? ==> o["amount"] == JNull)
      && (f.amount.Present? ==> o["amount"] == JNum(f.amount.value))
      && ("amount_min" in o <==> !f.amountMin.Absent?) && (f.amountMin.Null? ==> o["amount_min"] == JNull)
      && (f.amountMin.Present? ==> o["amount_min"] == JNum(f.amountMin.value))
      && ("amount_max" in o <==> !f.amountMax.Absent?) && (f.amountMax.Null? ==> o["amount_max"] == JNull)
      && (f.amountMax.Present? ==> o["amount_max"] == JNum(f.amountMax.value))
      && ("status" in o <==> !f.status.Absent?) && (f.status.Null? ==> o["status"] == JNull)
      && (f.status.Present? ==> o["status"] == JStr(StatusName(f.status.value)))
  {
    var m1 := PutField(map[], "q", StrField(f.q));
    var m2 := PutField(m1, "amount", NumField(f.amount));
    var m3 := PutField(m2, "amount_min", NumField(f.amountMin));
    var m4 := PutField(m3, "amount_max", NumField(f.amountMax));
    var m5 := PutField(m4, "status", StatusField(f.status));
    PutFieldFrame(map[], "q", StrField(f.q), "amount");
    PutFieldFrame(map[], "q", StrField(f.q), "amount_min");
    PutFieldFrame(m1, "amount", NumField(f.amount), "amount_min");
    PutFieldFrame(map[], "q", StrField(f.q), "amount_max");
    PutFieldFrame(m1, "amount", NumField(f.amount), "amount_max");
    PutFieldFrame(m2, "amount_min", NumField(f.amountMin), "amount_max");
    PutFieldFrame(map[], "q", StrField(f.q), "status");
    PutFieldFrame(m1, "amount", NumField(f.amount), "status");
    PutFieldFrame(m2, "amount_min", NumField(f.amountMin), "status");
    PutFieldFrame(m3, "amount_max", NumField(f.amountMax), "status");
    PutFieldHere(map[], "q", StrField(f.q));
    PutFieldFrame(m1, "amount", NumField(f.amount), "q");
    PutFieldFrame(m2, "amount_min", NumField(f.amountMin), "q");
    PutFieldFrame(m3, "amount_max", NumField(f.amountMax), "q");
    PutFieldFrame(m4, "status", StatusField(f.status), "q");
    PutFieldHere(m1, "amount", NumField(f.amount));
    PutFieldFrame(m2, "amount_min", NumField(f.amountMin), "amount");
    PutFieldFrame(m3, "amount_max", NumField(f.amountMax), "amount");
    PutFieldFrame(m4, "status", StatusField(f.status), "amount");
    PutFieldHere(m2, "amount_min", NumField(f.amountMin));
    PutFieldFrame(m3, "amount_max", NumField(f.amountMax), "amount_min");
    PutFieldFrame(m4, "status", StatusField(f.status), "amount_min");
    PutFieldHere(m3, "amount_max", NumField(f.amountMax));
    PutFieldFrame(m4, "status", StatusField(f.status), "amount_max");
    PutFieldHere(m4, "status", StatusField(f.status));
  }

  /** The filters recorded in the audit entry validate again to the same filters. */
  lemma FiltersJsonRoundTrip(j: Json, f: ExportFilters)
    requires ParseExportBody(j) == Some(f)
    ensures ParseExportBody(FiltersJson(f)) == Some(f)
  {
    var o := FiltersMap(f);
    FiltersMapKeys(f);
    assert NullableAnyString(o, "q") == Some(f.q);
    assert NullableAmount(o, "amount") == Some(f.amount);
    assert NullableAmount(o, "amount_min") == Some(f.amountMin);
    assert NullableAmount(o, "amount_max") == Some(f.amountMax);
    assert NullableStatus(o, "status") == Some(f.status);
  }

  /** `m` and `o` agree at `k`: both lack the key, or both hold the same value there. */
  predicate AgreesAt(m: map<string, Json>, o: map<string, Json>, k: string) {
    (k in m <==> k in o) && (k in o ==> m[k] == o[k])
  }

  /** The filters the audit entry records are the body's five filter keys, with the body's values. */
  lemma FiltersJsonIsBody(j: Json)
    requires ValidExportBody(j)
    ensures var m := FiltersMap(ParseExportBody(j).value);
      && AgreesAt(m, j.fields, "q") && AgreesAt(m, j.fields, "amount")
      && AgreesAt(m, j.fields, "amount_min") && AgreesAt(m, j.fields, "amount_max")
      && AgreesAt(m, j.fields, "status")
  {
    FiltersMapKeys(ParseExportBody(j).value);
  }
}
