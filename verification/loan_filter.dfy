/**
 * The `where` filter the loan listing and the loan export build, and what it
 * means for one row: soft-deleted rows never match, the free-text search is a
 * disjunction, and the status and amount constraints are conjunctions.
 */
module LoanFilter {
  import opened Wrappers
  import opened Text
  import opened Numbers
  import opened Domain
  import opened Uuid
  import opened DateTime
  import opened Store
  import opened Sorting

  /** One alternative of the `OR` search. `contains` with `mode: "insensitive"`. */
  datatype TextMatch =
    | CustomerNameContains(needle: string)
    | NotesContains(needle: string)
    | IdEquals(id: string)

  /** `principalAmount: n`, or `principalAmount: { gte?, lte? }`. */
  datatype AmountFilter =
    | AmountEquals(v: real)
    | AmountRange(gte: Option<real>, lte: Option<real>)

  /** The filter; `deletedAt: null` is always part of it. */
  datatype LoanWhere = LoanWhere(anyOf: Option<seq<TextMatch>>, status: Option<Status>, amount: Option<AmountFilter>)

  predicate TextMatches(t: TextMatch, loan: LoanRow) {
    match t
    case CustomerNameContains(q) => ContainsInsensitive(loan.customerName, q)
    case NotesContains(q) => loan.notes.Some? && ContainsInsensitive(loan.notes.value, q)
    case IdEquals(id) => loan.id == id
  }

  predicate AmountMatches(a: AmountFilter, x: real) {
    match a
    case AmountEquals(v) => x == v
    case AmountRange(lo, hi) => (lo.None? || lo.value <= x) && (hi.None? || x <= hi.value)
  }

  predicate AnyTextMatches(ts: seq<TextMatch>, loan: LoanRow) {
    exists i :: 0 <= i < |ts| && TextMatches(ts[i], loan)
  }

  predicate Matches(w: LoanWhere, loan: LoanRow) {
    && loan.deletedAt.None?
    && (w.anyOf.None? || AnyTextMatches(w.anyOf.value, loan))
    && (w.status.None? || loan.statusChuoc == w.status.value)
    && (w.amount.None? || AmountMatches(w.amount.value, loan.principalAmount))
  }

  /**
   * The search both handlers build from a non-empty `q`: the customer name or
   * the notes contain it, and, when it looks like a UUID, the id equals it.
   */
  function SearchClause(q: string): (r: seq<TextMatch>)
    ensures 2 <= |r| <= 3
    ensures r[0] == CustomerNameContains(q) && r[1] == NotesContains(q)
    ensures |r| == 3 <==> UuidShape(q)
    ensures |r| == 3 ==> r[2] == IdEquals(q)
  {
    [CustomerNameContains(q), NotesContains(q)] + (if UuidShape(q) then [IdEquals(q)] else [])
  }

  /** What the search clause accepts. */
  lemma SearchClauseMeaning(q: string, loan: LoanRow)
    ensures AnyTextMatches(SearchClause(q), loan) <==>
      || ContainsInsensitive(loan.customerName, q)
      || (loan.notes.Some? && ContainsInsensitive(loan.notes.value, q))
      || (UuidShape(q) && loan.id == q)
  {
    var ts := SearchClause(q);
    if ContainsInsensitive(loan.customerName, q) {
      assert TextMatches(ts[0], loan);
    } else if loan.notes.Some? && ContainsInsensitive(loan.notes.value, q) {
      assert TextMatches(ts[1], loan);
    } else if UuidShape(q) && loan.id == q {
      assert TextMatches(ts[2], loan);
    }
  }

  /** A range with neither bound accepts every amount. */
  lemma EmptyRangeAcceptsAll(x: real)
    ensures AmountMatches(AmountRange(None, None), x)
  {
  }

  /** The rows of `rows` the filter accepts, in table order (`findMany`/`count` before ordering). */
  function Select(w: LoanWhere, rows: seq<LoanRow>): (r: seq<LoanRow>)
    ensures |r| <= |rows|
    ensures forall x :: x in r <==> x in rows && Matches(w, x)
    ensures multiset(r) <= multiset(rows)
  {
    Filter(rows, loan => Matches(w, loan))
  }

  /** `orderBy: [{ createdAt: "desc" }]`. */
  predicate NewestFirst(a: LoanRow, b: LoanRow) {
    Ticks(a.createdAt) >= Ticks(b.createdAt)
  }

  lemma NewestFirstIsTotalOrder()
    ensures Total(NewestFirst) && Transitive(NewestFirst)
  {
  }

  /** All matching rows, newest first. */
  function Ordered(w: LoanWhere, db: Db): (r: seq<LoanRow>)
    ensures SortedBy(r, NewestFirst)
    ensures multiset(r) == multiset(Select(w, db.loans))
    ensures |r| == |Select(w, db.loans)|
  {
    NewestFirstIsTotalOrder();
    SortBy(Select(w, db.loans), NewestFirst)
  }

  /** Every ordered row is a stored row the filter accepts. */
  lemma OrderedRowsMatch(w: LoanWhere, db: Db)
    ensures forall x :: x in Ordered(w, db) ==> x in db.loans && Matches(w, x)
  {
    var all := Ordered(w, db);
    forall x | x in all ensures x in db.loans && Matches(w, x) {
      assert x in multiset(all);
      assert x in Select(w, db.loans);
    }
  }

  /** `skip`/`take` over the ordered matches. */
  function PageRows(w: LoanWhere, db: Db, skip: nat, take: nat): (r: seq<LoanRow>)
    ensures |r| <= take
    ensures |r| == if skip >= |Select(w, db.loans)| then 0 else Min(take, |Select(w, db.loans)| - skip)
    ensures SortedBy(r, NewestFirst)
    ensures forall i :: 0 <= i < |r| ==> r[i] in db.loans && Matches(w, r[i])
    ensures |r| > 0 ==> skip + |r| <= |Ordered(w, db)| && r == Ordered(w, db)[skip .. skip + |r|]
  {
    var all := Ordered(w, db);
    var rows := Window(all, skip, take);
    WindowSorted(all, NewestFirst, skip, take);
    OrderedRowsMatch(w, db);
    assert forall i :: 0 <= i < |rows| ==> rows[i] in all by {
      forall i | 0 <= i < |rows| ensures rows[i] in all {
        assert rows[i] == all[skip + i];
      }
    }
    rows
  }

  /** A page repeats no row more often than the table holds it. */
  lemma {:induction false} PageRowsSubMultiset(w: LoanWhere, db: Db, skip: nat, take: nat)
    ensures multiset(PageRows(w, db, skip, take)) <= multiset(Select(w, db.loans))
  {
    WindowMultiset(Ordered(w, db), skip, take);
  }

  /**
   * Consecutive pages: the rows of one page followed by the rows of the next
   * are the rows of the page twice as long, so paging neither repeats nor skips a row.
   */
  lemma {:induction false} PagesAdjoin(w: LoanWhere, db: Db, skip: nat, n: nat, m: nat)
    ensures PageRows(w, db, skip, n) + PageRows(w, db, skip + n, m) == PageRows(w, db, skip, n + m)
  {
    WindowsAdjoin(Ordered(w, db), skip, n, m);
  }

  /** A page long enough for every match holds each matching row exactly as often as the table. */
  lemma {:induction false} WholePage(w: LoanWhere, db: Db, take: nat)
    requires |Select(w, db.loans)| <= take
    ensures multiset(PageRows(w, db, 0, take)) == multiset(Select(w, db.loans))
  {
    var all := Ordered(w, db);
    assert Window(all, 0, take) == all;
  }
}
