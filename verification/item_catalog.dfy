/**
 * The item catalog screen: the save request built from the edit form, and the
 * list updates after a save (upsert by id) and after a delete (filter by id).
 */
module ItemCatalog {
  import opened Wrappers
  import opened Text
  import opened Numbers
  import opened Json
  import opened Sorting
  import opened Validators

  /** A catalog entry as the screen holds it; `price` is the decimal text the server returns. */
  datatype CatalogItem = CatalogItem(
    id: string,
    code: Option<string>,
    name: string,
    unit: Option<string>,
    description: Option<string>,
    price: Option<string>,
    barcode: Option<string>)

  /** The edit form: one text input per field. */
  datatype ItemForm = ItemForm(code: string, name: string, unit: string, description: string, price: string, barcode: string)

  /** The body of the create or update request. */
  datatype CatalogPayload = CatalogPayload(
    code: Option<string>,
    name: string,
    unit: Option<string>,
    description: Option<string>,
    price: Option<real>,
    barcode: Option<string>)

  /** What `save` does. */
  datatype SaveAction =
    | NoOp                                          // nothing being edited, or no edit right
    | NameRequired                                  // "Tên hàng là bắt buộc"
    | Create(payload: CatalogPayload)               // POST to the catalog
    | Update(id: string, payload: CatalogPayload)   // PATCH the item `id`

  /**
   * `toNumberOrNull`: the number, or `None` when `Number(v)` is not finite.
   * Surrounding white space is ignored, a blank field is 0 and a numeral reads as its value.
   */
  function ToNumberOrNull(v: string): (r: Option<real>)
    ensures r == JsNumber(v)
    ensures r == JsNumber(Trim(v))
    ensures IsBlank(v) ==> r == Some(0.0)
    ensures IsDigits(v) && |v| > 0 ==> r == Some(DigitsValue(v) as real)
  {
    TrimIdempotent(v);
    if IsDigits(v) && |v| > 0 then
      JsNumberOfDigits(v);
      JsNumber(v)
    else JsNumber(v)
  }

  /** A text field of the payload: trimmed, and `null` when blank. */
  function OptText(s: string): (r: Option<string>)
    ensures r.None? <==> IsBlank(s)
    ensures r.Some? ==> r.value == Trim(s) && r.value != "" && IsTrimmed(r.value)
  {
    if IsBlank(s) then None else Some(Trim(s))
  }

  /** The payload of a form whose name is filled in. */
  function PayloadOf(form: ItemForm): (p: CatalogPayload)
    ensures p.name == Trim(form.name)
    ensures p.code == OptText(form.code) && p.unit == OptText(form.unit)
    ensures p.description == OptText(form.description) && p.barcode == OptText(form.barcode)
    ensures IsBlank(form.price) ==> p.price.None?
    ensures !IsBlank(form.price) ==> p.price == JsNumber(Trim(form.price))
  {
    CatalogPayload(
      OptText(form.code),
      Trim(form.name),
      OptText(form.unit),
      OptText(form.description),
      if IsBlank(form.price) then None else ToNumberOrNull(Trim(form.price)),
      OptText(form.barcode))
  }

  /** `save`: the guards in order, then create when the edited item has no id yet, else update. */
  function Save(editing: Option<CatalogItem>, canEdit: bool, form: ItemForm): (r: SaveAction)
    ensures editing.None? || !canEdit <==> r == NoOp
    ensures r == NameRequired <==> editing.Some? && canEdit && IsBlank(form.name)
    ensures r.Create? <==> editing.Some? && canEdit && !IsBlank(form.name) && editing.value.id == ""
    ensures r.Update? <==> editing.Some? && canEdit && !IsBlank(form.name) && editing.value.id != ""
    ensures r.Update? ==> r.id == editing.value.id
    ensures (r.Create? || r.Update?) ==> r.payload == PayloadOf(form) && r.payload.name != ""
  {
    if editing.None? || !canEdit then NoOp
    else if IsBlank(form.name) then NameRequired
    else if editing.value.id == "" then Create(PayloadOf(form))
    else Update(editing.value.id, PayloadOf(form))
  }

  /** The form `startEdit` fills in from an item. */
  function FormOf(item: CatalogItem): (f: ItemForm)
    ensures f.name == item.name && f.code == item.code.GetOr("") && f.price == item.price.GetOr("")
  {
    ItemForm(item.code.GetOr(""), item.name, item.unit.GetOr(""), item.description.GetOr(""),
      item.price.GetOr(""), item.barcode.GetOr(""))
  }

  /** A stored text field that saving the form unchanged gives back: missing, or trimmed and non-empty. */
  predicate Clean(s: Option<string>) {
    s.None? || (s.value != "" && IsTrimmed(s.value))
  }

  lemma CleanRoundTrip(s: Option<string>)
    requires Clean(s)
    ensures OptText(s.GetOr("")) == s
  {
    if s.Some? {
      TrimOfTrimmed(s.value);
    } else {
      assert IsBlank("");
    }
  }

  /** Opening an item and saving it unchanged sends back its own text fields. */
  lemma EditUnchangedRoundTrip(item: CatalogItem)
    requires IsTrimmed(item.name) && item.name != ""
    requires Clean(item.code) && Clean(item.unit) && Clean(item.description) && Clean(item.barcode)
    ensures
      var p := PayloadOf(FormOf(item));
      p.name == item.name && p.code == item.code && p.unit == item.unit
      && p.description == item.description && p.barcode == item.barcode
  {
    TrimOfTrimmed(item.name);
    CleanRoundTrip(item.code);
    CleanRoundTrip(item.unit);
    CleanRoundTrip(item.description);
    CleanRoundTrip(item.barcode);
  }

  /** `JSON.stringify(payload)`: every key present, missing values as `null`. */
  function PayloadJson(p: CatalogPayload): (j: Json)
    ensures j.JObj? && j.fields.Keys == {"code", "name", "unit", "description", "price", "barcode"}
  {
    JObj(map[
      "code" := TextJson(p.code),
      "name" := JStr(p.name),
      "unit" := TextJson(p.unit),
      "description" := TextJson(p.description),
      "price" := if p.price.Some? then JNum(p.price.value) else JNull,
      "barcode" := TextJson(p.barcode)])
  }

  /** The value under each key of the request body. */
  lemma PayloadFields(p: CatalogPayload)
    ensures
      var o := PayloadJson(p).fields;
      && o["code"] == TextJson(p.code) && o["name"] == JStr(p.name) && o["unit"] == TextJson(p.unit)
      && o["description"] == TextJson(p.description) && o["barcode"] == TextJson(p.barcode)
      && o["price"] == (if p.price.Some? then JNum(p.price.value) else JNull)
  {
  }

  function TextJson(s: Option<string>): Json {
    if s.Some? then JStr(s.value) else JNull
  }

  /** A clean text field under `k` passes a nullable trimming rule exactly when it fits the upper bound. */
  lemma TextFieldHolds(o: map<string, Json>, k: string, s: Option<string>, lo: nat, hi: nat)
    requires lo <= 1 && Clean(s)
    requires k in o && o[k] == TextJson(s)
    ensures NullableField(o, k, Str(true, lo, hi)) <==> s.None? || |s.value| <= hi
  {
    if s.Some? {
      TrimOfTrimmed(s.value);
    }
  }

  /** The payload of a form with a name: a trimmed non-empty name and clean text fields. */
  predicate WellFormed(p: CatalogPayload) {
    IsTrimmed(p.name) && p.name != "" && Clean(p.code) && Clean(p.unit) && Clean(p.description) && Clean(p.barcode)
  }

  lemma PayloadOfWellFormed(form: ItemForm)
    requires !IsBlank(form.name)
    ensures WellFormed(PayloadOf(form))
  {
  }

  lemma PayloadKeys(p: CatalogPayload)
    ensures
      var o := PayloadJson(p).fields;
      "code" in o && "name" in o && "unit" in o && "description" in o && "price" in o && "barcode" in o
  {
  }

  /** The name passes the schema's trimmed 1..200 rule exactly when it is at most 200 characters. */
  lemma NameAccepted(p: CatalogPayload)
    requires WellFormed(p)
    ensures RequiredField(PayloadJson(p).fields, "name", Str(true, 1, 200)) <==> |p.name| <= 200
  {
    PayloadFields(p);
    TrimOfTrimmed(p.name);
  }

  /** The price passes the schema exactly when it is missing or not negative. */
  lemma PriceAccepted(p: CatalogPayload)
    ensures NullableField(PayloadJson(p).fields, "price", Amount) <==> p.price.None? || p.price.value >= 0.0
  {
    PayloadFields(p);
  }

  /**
   * The server's item schema accepts a payload the screen builds exactly when
   * the fields fit its length bounds and a price, if any, is not negative.
   */
  lemma PayloadAcceptedIff(p: CatalogPayload)
    requires WellFormed(p)
    ensures ValidItemCreate(PayloadJson(p)) <==>
      && |p.name| <= 200
      && (p.code.None? || |p.code.value| <= 100)
      && (p.unit.None? || |p.unit.value| <= 50)
      && (p.description.None? || |p.description.value| <= 2000)
      && (p.price.None? || p.price.value >= 0.0)
      && (p.barcode.None? || |p.barcode.value| <= 200)
  {
    var o := PayloadJson(p).fields;
    PayloadKeys(p);
    NameAccepted(p);
    PriceAccepted(p);
    assert o["code"] == TextJson(p.code) && o["unit"] == TextJson(p.unit) by {
      PayloadFields(p);
    }
    assert o["description"] == TextJson(p.description) && o["barcode"] == TextJson(p.barcode) by {
      PayloadFields(p);
    }
    TextFieldHolds(o, "code", p.code, 1, 100);
    TextFieldHolds(o, "unit", p.unit, 0, 50);
    TextFieldHolds(o, "description", p.description, 0, 2000);
    TextFieldHolds(o, "barcode", p.barcode, 0, 200);
  }

  // ----- List updates -----

  predicate HasId(items: seq<CatalogItem>, id: string) {
    exists i :: 0 <= i < |items| && items[i].id == id
  }

  /** The list after a save: the returned item replaces the entries with its id, or comes first when new. */
  function Upsert(items: seq<CatalogItem>, saved: CatalogItem): (r: seq<CatalogItem>)
    ensures HasId(items, saved.id) ==>
      (|r| == |items| && forall i :: 0 <= i < |r| ==> r[i] == if items[i].id == saved.id then saved else items[i])
    ensures !HasId(items, saved.id) ==> r == [saved] + items
  {
    if !HasId(items, saved.id) then [saved] + items
    else seq(|items|, i requires 0 <= i < |items| => if items[i].id == saved.id then saved else items[i])
  }

  /** Saving the same item twice leaves the list as saving it once. */
  lemma UpsertIdempotent(items: seq<CatalogItem>, saved: CatalogItem)
    ensures Upsert(Upsert(items, saved), saved) == Upsert(items, saved)
  {
    var once := Upsert(items, saved);
    if !HasId(items, saved.id) {
      assert once[0].id == saved.id;
    }
    assert HasId(once, saved.id);
  }

  /** After a save the returned item is in the list, at the place of the old entry or first. */
  lemma UpsertContains(items: seq<CatalogItem>, saved: CatalogItem)
    ensures saved in Upsert(items, saved)
  {
    var r := Upsert(items, saved);
    if HasId(items, saved.id) {
      var i :| 0 <= i < |items| && items[i].id == saved.id;
      assert r[i] == saved;
    } else {
      assert r[0] == saved;
    }
  }

  predicate NotId(id: string, x: CatalogItem) {
    x.id != id
  }

  /** The list after a delete: exactly the entries with another id, in order. */
  function Remove(items: seq<CatalogItem>, id: string): (r: seq<CatalogItem>)
    ensures forall x :: x in r <==> x in items && x.id != id
    ensures !HasId(r, id)
  {
    var r := Filter(items, x => NotId(id, x));
    assert forall i :: 0 <= i < |r| ==> r[i] in r;
    r
  }

  /** Deleting an item just created gives back the list before it. */
  lemma RemoveUndoesCreate(items: seq<CatalogItem>, saved: CatalogItem)
    requires !HasId(items, saved.id)
    ensures Remove(Upsert(items, saved), saved.id) == items
  {
    assert ([saved] + items)[1..] == items;
    FilterKeepsEvery(items, x => NotId(saved.id, x));
  }
}
