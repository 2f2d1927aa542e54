/**
 * Storage as the handlers see it: one snapshot of the `loan`, `loanItem`,
 * `item` and `auditLog` tables, each a sequence in insertion order, and a
 * counter from which new row ids are minted.
 */
module Store {
  import opened Wrappers
  import opened Json
  import opened Domain
  import opened DateTime
  import opened Numbers
  import opened Auth
  import opened Api

  /** A `loan` row, with the columns the listing, creation and export handlers touch. */
  datatype LoanRow = LoanRow(
    id: string, customerName: string, principalAmount: real, dueDate: Option<Instant>,
    notes: Option<string>, statusChuoc: Status, createdById: string,
    createdAt: Instant, deletedAt: Option<Instant>)

  /** A `loanItem` row: one line of a loan, pointing at an optional catalog item. */
  datatype LoanItemRow = LoanItemRow(id: string, loanId: string, itemId: Option<string>, quantity: Option<int>, note: Option<string>)

  /**
   * An `item` row. The loan handler writes the `code`/`name`/`unit`/
   * `description`/`price`/`barcode` columns; the catalog handler reads and
   * writes `itemName`/`defaultWeightChi`/`note`. Every column is nullable here.
   */
  datatype ItemRow = ItemRow(
    id: string, code: Option<string>, name: Option<string>, unit: Option<string>,
    description: Option<string>, price: Option<real>, barcode: Option<string>,
    itemName: Option<string>, defaultWeightChi: Option<real>, note: Option<string>, createdAt: Instant)

  /** An `auditLog` row. */
  datatype AuditEntry = AuditEntry(userId: Option<string>, action: string, targetTable: Option<string>, targetId: Option<string>, details: Json)

  datatype Db = Db(loans: seq<LoanRow>, loanItems: seq<LoanItemRow>, items: seq<ItemRow>, audit: seq<AuditEntry>, nextId: nat)

  /** A handler's answer together with the storage it leaves behind. */
  datatype Reply<+T> = Reply(result: Result<T, ApiError>, db: Db)

  /** The id the storage assigns to the `n`-th created row. */
  function MintId(n: nat): string {
    "id-" + NatToString(n)
  }

  /** Different counters give different ids. */
  lemma MintIdInjective(m: nat, n: nat)
    requires m != n
    ensures MintId(m) != MintId(n)
  {
    var a, b := MintId(m), MintId(n);
    assert a[3..] == NatToString(m);
    assert b[3..] == NatToString(n);
  }

  /**
   * `writeAuditLog`: appends one entry whose `userId` is the actor's id, or
   * `null` without an actor; no other table changes.
   */
  function WriteAudit(db: Db, actor: Option<User>, action: string, table: Option<string>, target: Option<string>, details: Json): (r: Db)
    ensures |r.audit| == |db.audit| + 1 && r.audit[..|db.audit|] == db.audit
    ensures r.audit[|db.audit|].userId == (if actor.Some? then Some(actor.value.id) else None)
    ensures r.audit[|db.audit|].action == action && r.audit[|db.audit|].targetId == target
    ensures r.loans == db.loans && r.loanItems == db.loanItems && r.items == db.items && r.nextId == db.nextId
  {
    var userId := match actor case Some(u) => Some(u.id) case None => None;
    db.(audit := db.audit + [AuditEntry(userId, action, table, target, details)])
  }

  function OptStrJson(s: Option<string>): Json {
    match s case Some(v) => JStr(v) case None => JNull
  }

  function OptNumJson(n: Option<real>): Json {
    match n case Some(v) => JNum(v) case None => JNull
  }
}
