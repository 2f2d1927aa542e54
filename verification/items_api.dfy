/**
 * `GET /api/items` (catalog search by `itemName`) and `POST /api/items`
 * (create a catalog row after `zItemCreate`, then a `CATALOG_CREATE` audit
 * entry whose actor is dropped when `AUTH_BYPASS` is "true").
 */
module ItemsApi {
  import opened Wrappers
  import opened Text
  import opened Numbers
  import opened Json
  import opened DateTime
  import opened Auth
  import opened Validators
  import opened Api
  import opened Store
  import opened Sorting
  import opened LoansApi

  // ----- GET -----

  /** `limit`: 20 unless a non-zero number is given, then clamped to [1, 50]. */
  function LimitOf(param: Option<string>): (r: real)
    ensures 1.0 <= r <= 50.0
  {
    var v := NumberOr(param, "20", 20.0);
    var lo := if v < 1.0 then 1.0 else v;
    if lo > 50.0 then 50.0 else lo
  }

  /** A missing limit gives 20 rows. */
  lemma DefaultLimit()
    ensures LimitOf(None) == 20.0
  {
    assert IsDigits("20");
    assert "20"[..1] == "2";
    assert DigitsValue("20") == 20;
    JsNumberOfDigits("20");
  }

  /** A limit that is not a number, such as "abc", gives 20 rows. */
  lemma NonNumericLimit(s: string)
    requires JsNumber(s).None?
    ensures LimitOf(Some(s)) == 20.0
  {
  }

  /** A limit written as a whole number is used as given, clamped to [1, 50]; 0 means the default. */
  lemma LimitOfNat(n: nat)
    ensures LimitOf(Some(NatToString(n))) == if n == 0 then 20.0 else if n > 50 then 50.0 else n as real
  {
    JsNumberOfNat(n);
  }

  /** `where: q ? { itemName: { contains: q, mode: "insensitive" } } : undefined`, with `q` trimmed. */
  predicate ItemMatches(q: string, item: ItemRow) {
    Trim(q) == "" || (item.itemName.Some? && ContainsInsensitive(item.itemName.value, Trim(q)))
  }

  /**
   * `orderBy: [{ itemName: "asc" }, { createdAt: "desc" }]`: names in code-point
   * order with rows lacking a name last, and the newest first among equal names.
   */
  predicate ItemBefore(a: ItemRow, b: ItemRow) {
    match (a.itemName, b.itemName)
    case (Some(x), Some(y)) => if x == y then Ticks(a.createdAt) >= Ticks(b.createdAt) else StrLess(x, y)
    case (Some(_), None) => true
    case (None, Some(_)) => false
    case (None, None) => Ticks(a.createdAt) >= Ticks(b.createdAt)
  }

  lemma ItemBeforeTotal(a: ItemRow, b: ItemRow)
    ensures ItemBefore(a, b) || ItemBefore(b, a)
  {
    if a.itemName.Some? && b.itemName.Some? && a.itemName.value != b.itemName.value {
      StrLessTotal(a.itemName.value, b.itemName.value);
    }
  }

  lemma ItemBeforeTransitive(a: ItemRow, b: ItemRow, c: ItemRow)
    requires ItemBefore(a, b) && ItemBefore(b, c)
    ensures ItemBefore(a, c)
  {
    if a.itemName.Some? && b.itemName.Some? && c.itemName.Some? {
      var x, y, z := a.itemName.value, b.itemName.value, c.itemName.value;
      if x != y && y != z {
        StrLessTransitive(x, y, z);
        if x == z { StrLessIrreflexive(x); }
      } else if x != z {
        if x == y { assert StrLess(y, z); } else { assert StrLess(x, y); }
      }
    }
  }

  lemma ItemBeforeIsTotalOrder()
    ensures Total(ItemBefore) && Transitive(ItemBefore)
  {
    forall a, b ensures ItemBefore(a, b) || ItemBefore(b, a) {
      ItemBeforeTotal(a, b);
    }
    forall a, b, c | ItemBefore(a, b) && ItemBefore(b, c) ensures ItemBefore(a, c) {
      ItemBeforeTransitive(a, b, c);
    }
  }

  /** Every matching row, in catalog order. */
  function CatalogOrder(q: string, items: seq<ItemRow>): (r: seq<ItemRow>)
    ensures SortedBy(r, ItemBefore)
    ensures multiset(r) == multiset(Filter(items, item => ItemMatches(q, item)))
    ensures |r| == |Filter(items, item => ItemMatches(q, item))|
  {
    ItemBeforeIsTotalOrder();
    SortBy(Filter(items, item => ItemMatches(q, item)), ItemBefore)
  }

  /**
   * `GET /api/items`. Without a session: 401. Otherwise at most `limit`
   * matching rows in catalog order; a fractional `take` is refused by the
   * storage (500).
   */
  function ListItems(user: Option<User>, q: Option<string>, limit: Option<string>, db: Db): (r: Result<seq<ItemRow>, ApiError>)
    ensures user.None? <==> r == Failure(Unauthorized)
    ensures r.Failure? ==> r == Failure(Unauthorized) || r == Failure(Internal)
    ensures r.Success? ==>
      && |r.value| == Min(LimitOf(limit).Floor, |Filter(db.items, item => ItemMatches(q.GetOr(""), item))|)
      && SortedBy(r.value, ItemBefore)
      && (forall i :: 0 <= i < |r.value| ==> r.value[i] in db.items && ItemMatches(q.GetOr(""), r.value[i]))
    ensures r == Failure(Internal) <==> user.Some? && !IsInteger(LimitOf(limit))
    ensures r.Success? && |r.value| > 0 ==>
      |r.value| <= |CatalogOrder(q.GetOr(""), db.items)| && r.value == CatalogOrder(q.GetOr(""), db.items)[..|r.value|]
  {
    if user.None? then Failure(Unauthorized)
    else
      var take := LimitOf(limit);
      if !IsInteger(take) then Failure(Internal)
      else
        var hits := Filter(db.items, item => ItemMatches(q.GetOr(""), item));
        var all := CatalogOrder(q.GetOr(""), db.items);
        var rows := Window(all, 0, take.Floor);
        WindowSorted(all, ItemBefore, 0, take.Floor);
        forall i | 0 <= i < |rows| ensures rows[i] in db.items && ItemMatches(q.GetOr(""), rows[i]) {
          assert rows[i] == all[i];
          assert rows[i] in multiset(all);
          assert rows[i] in multiset(hits);
        }
        Success(rows)
  }

  /** The listing holds no row more often than the catalog does, and every match when the limit covers them. */
  lemma {:induction false} ListedItems(user: User, q: Option<string>, limit: Option<string>, db: Db)
    requires ListItems(Some(user), q, limit, db).Success?
    ensures multiset(ListItems(Some(user), q, limit, db).value) <= multiset(Filter(db.items, item => ItemMatches(q.GetOr(""), item)))
    ensures |Filter(db.items, item => ItemMatches(q.GetOr(""), item))| <= LimitOf(limit).Floor ==>
      multiset(ListItems(Some(user), q, limit, db).value) == multiset(Filter(db.items, item => ItemMatches(q.GetOr(""), item)))
  {
    var all := CatalogOrder(q.GetOr(""), db.items);
    WindowMultiset(all, 0, LimitOf(limit).Floor);
    if |all| <= LimitOf(limit).Floor {
      assert Window(all, 0, LimitOf(limit).Floor) == all;
    }
  }

  // ----- POST -----

  /** `(AUTH_BYPASS ?? "").toLowerCase() === "true"`. */
  predicate Bypass(authBypass: Option<string>) {
    ToLower(authBypass.GetOr("")) == "true"
  }

  /** The `CATALOG_CREATE` audit details. */
  function CatalogDetails(item: ItemRow): Json {
    JObj(map["itemName" := OptStrJson(item.itemName), "defaultWeightChi" := OptNumJson(item.defaultWeightChi)])
  }

  /**
   * `POST /api/items` as written: it validates with `zItemCreate` (`name`,
   * `code`, ...) but writes `itemName` and `defaultWeightChi` from keys that
   * schema does not have, so both are left unset, and `note` is always "".
   */
  function PostItem(user: Option<User>, body: Option<Json>, authBypass: Option<string>, db: Db, now: Instant): (r: Reply<ItemRow>)
    ensures user.None? ==> r == Reply(Failure(Unauthorized), db)
    ensures user.Some? && !CanEdit(user.value) ==> r == Reply(Failure(Forbidden), db)
    ensures user.Some? && CanEdit(user.value) && !ValidItemCreate(body.GetOr(JNull)) ==> r == Reply(Failure(BadRequest), db)
    ensures r.result.Failure? ==> r.db == db
    ensures r.result.Success? <==> user.Some? && CanEdit(user.value) && ValidItemCreate(body.GetOr(JNull))
    ensures r.result.Success? ==> r.result.value.id == MintId(db.nextId) && r.result.value.createdAt == now
    ensures r.result.Success? ==>
      && var item := r.result.value;
      && item.itemName.None? && item.defaultWeightChi.None? && item.note == Some("")
      && CreatedItem(db, r.db, item, if Bypass(authBypass) then None else Some(user.value.id))
  {
    if user.None? then Reply(Failure(Unauthorized), db)
    else if !CanEdit(user.value) then Reply(Failure(Forbidden), db)
    else match ParseItemCreate(body.GetOr(JNull))
      case None => Reply(Failure(BadRequest), db)
      case Some(_) =>
        var item := ItemRow(MintId(db.nextId), None, None, None, None, None, None, None, None, Some(""), now);
        StoreItem(db, item, user.value, authBypass)
  }

  /** After a create: the row appended to `item`, one audit entry with the given actor, nothing else changed. */
  predicate CreatedItem(before: Db, after: Db, item: ItemRow, actor: Option<string>) {
    && after.items == before.items + [item]
    && after.loans == before.loans && after.loanItems == before.loanItems
    && |after.audit| == |before.audit| + 1 && after.audit[..|before.audit|] == before.audit
    && after.audit[|before.audit|] == AuditEntry(actor, "CATALOG_CREATE", Some("pawn_catalog"), Some(item.id), CatalogDetails(item))
  }

  /** The write and the audit entry shared by both versions of the handler. */
  function StoreItem(db: Db, item: ItemRow, user: User, authBypass: Option<string>): (r: Reply<ItemRow>)
    ensures r.result == Success(item)
    ensures CreatedItem(db, r.db, item, if Bypass(authBypass) then None else Some(user.id))
  {
    var d1 := db.(items := db.items + [item], nextId := db.nextId + 1);
    var actor := if Bypass(authBypass) then None else Some(user);
    Reply(Success(item), WriteAudit(d1, actor, "CATALOG_CREATE", Some("pawn_catalog"), Some(item.id), CatalogDetails(item)))
  }

  /** The item the written handler creates is never found by a non-blank catalog search. */
  lemma PostItemIsUnsearchable(user: Option<User>, body: Option<Json>, authBypass: Option<string>, db: Db, now: Instant, q: string)
    requires PostItem(user, body, authBypass, db, now).result.Success?
    requires !IsBlank(q)
    ensures !ItemMatches(q, PostItem(user, body, authBypass, db, now).result.value)
  {
  }

  /** A concrete valid body whose name is lost. */
  lemma PostItemDropsName(user: User, db: Db, now: Instant)
    requires CanEdit(user)
    ensures var r := PostItem(Some(user), Some(JObj(map["name" := JStr("Nhan vang")])), None, db, now);
      r.result.Success? && r.result.value.itemName.None?
  {
    var name := "Nhan vang";
    var body := JObj(map["name" := JStr(name)]);
    assert !IsSpace(name[0]) && !IsSpace(name[|name| - 1]);
    TrimOfTrimmed(name);
    assert Holds(Str(true, 1, 200), body.fields["name"]);
    assert ItemExtrasOk(body.fields);
    assert ValidItemCreate(body);
  }

  /**
   * The handler as evidently intended: the row's `itemName` is the validated
   * (trimmed) `name`, so the catalog search finds what was created.
   */
  function PostItemFixed(user: Option<User>, body: Option<Json>, authBypass: Option<string>, db: Db, now: Instant): (r: Reply<ItemRow>)
    ensures user.None? ==> r == Reply(Failure(Unauthorized), db)
    ensures user.Some? && !CanEdit(user.value) ==> r == Reply(Failure(Forbidden), db)
    ensures user.Some? && CanEdit(user.value) && !ValidItemCreate(body.GetOr(JNull)) ==> r == Reply(Failure(BadRequest), db)
    ensures r.result.Failure? ==> r.db == db
    ensures r.result.Success? <==> user.Some? && CanEdit(user.value) && ValidItemCreate(body.GetOr(JNull))
    ensures r.result.Success? ==> r.result.value.id == MintId(db.nextId) && r.result.value.createdAt == now
    ensures r.result.Success? ==>
      && var item := r.result.value;
      && item.itemName == Some(Trim(body.value.fields["name"].s))
      && item.note == Some("")
      && CreatedItem(db, r.db, item, if Bypass(authBypass) then None else Some(user.value.id))
  {
    if user.None? then Reply(Failure(Unauthorized), db)
    else if !CanEdit(user.value) then Reply(Failure(Forbidden), db)
    else match ParseItemCreate(body.GetOr(JNull))
      case None => Reply(Failure(BadRequest), db)
      case Some(data) =>
        var item := ItemRow(MintId(db.nextId), None, None, None, None, None, None, Some(data.name), None, Some(""), now);
        StoreItem(db, item, user.value, authBypass)
  }

  /** The item the corrected handler creates is found by a search for the name it was created with. */
  lemma PostItemFixedIsSearchable(user: Option<User>, body: Option<Json>, authBypass: Option<string>, db: Db, now: Instant)
    requires PostItemFixed(user, body, authBypass, db, now).result.Success?
    ensures ItemMatches(body.value.fields["name"].s, PostItemFixed(user, body, authBypass, db, now).result.value)
  {
    var item := PostItemFixed(user, body, authBypass, db, now).result.value;
    var t := Trim(body.value.fields["name"].s);
    assert item.itemName == Some(t);
    ContainsInsensitiveSelf(t);
  }
}
