# CamCo pawn-loan core, modelled in Dafny

CamCo is a Next.js and Prisma application for a pawn shop. Staff record pawn loans: a customer, a principal amount, an optional due date and notes, and the pledged items. A loan is later marked redeemed ("đã chuộc", `DA_CHUOC`) or not redeemed ("chưa chuộc", `CHUA_CHUOC`). Staff can also keep a catalog of item kinds and export the loan book.

This project models the pure logic of that application as immutable datatypes and total functions, and proves what the code promises.

- **Request handlers.**
  - `GET`/`POST /api/loans`: paging clamps, the listing filter, the guard order, and the all-or-nothing create followed by the audit entry.
  - `POST /api/export`: the export filter, the 50,000-row cap, the sheet rows and the audit entry.
  - `GET`/`POST /api/items`: the limit clamp, the catalog search and order, and the create.
  - Each handler is a function from the caller, the body and the storage to an answer and the storage it leaves behind.
- **Access rules** (`auth.ts`): role capabilities, session-claim checks, identity resolution that never fails loudly, password login and the cookie options.
- **Request schemas** (`validators.ts`): one validity predicate per zod schema, plus a parser that is exact for it (it succeeds if and only if the predicate holds).
- **Client logic.**
  - The loan-creation dialog: the money parser, the name title-caser, the save gate, row filtering and validation, the payload, and the fields derived from the created loan.
  - The double-tap recogniser.
  - The loan list reducers: optimistic status toggle and rollback, mark-all, single-item toggle, delete, prepend, paging and the query string.
  - The catalog screen: the save payload, the list upsert and the remove filter.

Storage is a record of tables, each a sequence in insertion order, with ids minted from a counter. A storage failure inside the loan-creation transaction is an input:
- `fault` is the index of the write that fails;
- the handler then answers 500 and the storage is unchanged.

Signature checking, password hashing, the clock and the decimal text of non-integral amounts are also inputs: functions or values passed in.

Files:
- Foundations: `wrappers.dfy`, `text.dfy`, `numbers.dfy`, `json.dfy`, `sorting.dfy`, `datetime.dfy`.
- Domain: `domain.dfy`, `uuid.dfy`, `validators.dfy`, `auth.dfy`, `api.dfy`, `store.dfy`, `loan_filter.dfy`.
- Handlers: `loans_api.dfy`, `export_api.dfy`, `items_api.dfy`.
- Client: `money.dfy`, `title_case.dfy`, `loan_create.dfy`, `double_tap.dfy`, `loan_list.dfy`, `item_catalog.dfy`.

Where a file's behaviour is surprising, the model follows the code:
- The export uses `q` untrimmed.
- An absent export bound still produces an (empty) amount range.
- The listing filters the stored `statusChuoc` column, while the dialog derives a status from the items. The two are kept apart.
- The dialog's payload has no `principalAmount`, so the server's loan schema rejects it (`LoanCreate.PayloadIsNotALoanBody`; see "Findings").
- The list screen sends `search_field`, `date_from` and `date_to`, which the listing endpoint never reads (`LoanList.DatesAndFieldNotRead`).

## Model

| member | source | states |
|---|---|---|
| Text.Trim | src/lib/validators.ts:9-14 | `trim()` removes exactly the leading and trailing white space: the result is a trimmed slice of the input with only white space around it |
| Text.TrimIdempotent | src/lib/validators.ts:10 | trimming twice is trimming once |
| Text.BlankIffAllSpace | src/ui/loans/LoanCreateModal.tsx:105-112 | `s.trim().length > 0` fails exactly for strings made only of white space |
| Text.JoinSnoc | src/ui/loans/LoanCreateModal.tsx:176-178 | joining one more part adds exactly one separator and the part |
| Text.StrLessTransitive | src/app/api/items/route.ts:25 | code-point string order is transitive |
| Text.StrLessTotal | src/app/api/items/route.ts:25 | any two different names are ordered one way or the other |
| Numbers.NatToString | src/app/api/export/route.ts:94 | `String(n)` is a digit string with no leading zero that reads back as `n` |
| Numbers.JsNumberOfInt | src/ui/loans/LoanList.tsx:110 | `Number(String(i)) == i` for every integer |
| Numbers.JsNumberNegativeNeedsSign | src/ui/loans/LoanCreateModal.tsx:31-33 | a numeric string denotes a negative value only if it starts with a minus sign |
| Numbers.RoundHalfUp | src/ui/loans/LoanCreateModal.tsx:33 | `Math.round` gives the integer within half a unit, with halves rounded up |
| Sorting.SortBy | src/app/api/items/route.ts:25 | the ordered result is a permutation of the input in which each element may precede the next |
| Sorting.SortedAllPairs | src/app/api/loans/route.ts:71 | in a sorted result every earlier row may precede every later one |
| Sorting.Window | src/app/api/loans/route.ts:72-73 | `skip`/`take` returns the rows from position `skip` on, at most `take` of them, cut short at the end |
| Sorting.WindowMultiset | src/app/api/loans/route.ts:72-73 | a window holds each element at most as often as the whole sequence |
| Sorting.WindowsAdjoin | src/app/api/loans/route.ts:72-73 | two adjacent windows together are the window that spans both |
| Sorting.Filter | src/app/api/loans/route.ts:32-34 | a `where` clause keeps exactly the rows it accepts, in order |
| Sorting.FilterAppend | src/ui/loans/LoanCreateModal.tsx:135-140 | filtering a list with one more element adds that element exactly when it is kept |
| Sorting.FilterKeepsNone | src/ui/loans/LoanCreateModal.tsx:175 | a filter keeps nothing exactly when it accepts no element |
| Sorting.FilterKeepsAll | src/ui/loans/LoanCreateModal.tsx:175 | the filter keeps every element exactly when every element passes |
| Domain.StatusFromName | src/lib/validators.ts:42-44 | `z.enum(["DA_CHUOC","CHUA_CHUOC"])` accepts exactly the two spellings |
| Domain.StatusNameRoundTrip | src/lib/validators.ts:43 | reading back a status name gives the status |
| Domain.Flip | src/ui/loans/LoanList.tsx:208-209 | the toggle target always differs from the current status |
| DateTime.IsoDate | src/app/api/export/route.ts:96 | `toISOString().slice(0, 10)` is ten characters with `-` at positions 4 and 7 |
| DateTime.PadRoundTrip | src/app/api/export/route.ts:96 | a zero-padded numeral reads back as its number |
| DateTime.IsoDateRoundTrip | src/app/api/export/route.ts:96 | the exported due-date cell reads back as the loan's year, month and day |
| Uuid.ShapeAgreesWithRegex | src/app/api/loans/route.ts:41 | the position-by-position reading of the UUID pattern equals its 8-4-4-4-12 group reading, with version 1 to 5 and variant 8, 9, a or b |
| Uuid.ShapeIgnoresCase | src/app/api/loans/route.ts:41 | the `/i` flag: recognition does not depend on letter case |
| Uuid.TestUuid | src/app/api/loans/route.ts:41 | the loop that tests a candidate answers true exactly for the UUID shape |
| Uuid.Examples | src/app/api/loans/route.ts:41 | a version-4 id is recognised in either case; the nil UUID and a wrong variant are not |
| Validators.ReadString | src/lib/validators.ts:9-14 | a string rule reads the value exactly when it holds, after trimming when the rule trims, within the length bounds |
| Validators.NullableString | src/lib/validators.ts:9-14 | `.optional().nullable()`: absent, null or a valid string, each reported as such |
| Validators.NullableAmount | src/lib/validators.ts:13 | `z.number().finite().nonnegative()`: a present amount is never negative |
| Validators.NullableQuantity | src/lib/validators.ts:34 | `z.number().int().positive()`: a present quantity is a positive integer |
| Validators.ParseLogin | src/lib/validators.ts:3-6 | a login body parses exactly when valid, with an untrimmed username of 1 to 100 and password of 1 to 200 characters |
| Validators.ParseItemCreate | src/lib/validators.ts:8-15 | an item body parses exactly when valid; its name is the trimmed input, 1 to 200 characters, and code, unit, description, price and barcode are each what the body holds under that key (absent, null, or the trimmed text or number) |
| Validators.EmptyUpdateIsValid | src/lib/validators.ts:17 | `{}` is a valid partial item update |
| Validators.CreateBodyIsUpdateBody | src/lib/validators.ts:17 | every valid create body is also a valid update body |
| Validators.ParseLoanItem | src/lib/validators.ts:26-36 | a loan line parses exactly when valid; each of itemId, name, code, unit, description, price, barcode, quantity and note is what the element holds under that key (absent, null, or the uuid, trimmed text or number), a present name has 1 to 200 characters and a present quantity is a positive integer |
| Validators.ParseLoanItems | src/lib/validators.ts:24-39 | the items array parses exactly when every element does, element by element |
| Validators.ParseLoanCreate | src/lib/validators.ts:19-40 | a loan body parses exactly when valid: the customer name is the trimmed input of 1 to 200 characters, the principal is the body's `principalAmount` number (non-negative), `dueDate` is the body's string, absent or null, notes are the body's trimmed notes of at most 5000 characters, and items are absent, null or the element-by-element parse of the body's array, each exactly as in the body |
| Validators.ParseStatusPatch | src/lib/validators.ts:42-44 | a status patch parses exactly when `status` is one of the two names |
| Validators.ParseExportBody | src/lib/validators.ts:46-52 | an export body parses exactly when valid; `q`, `amount`, `amount_min`, `amount_max` and `status` are each what the body holds under that key (absent, null, or its string, non-negative number or status) |
| Validators.EmptyExportBody | src/lib/validators.ts:46-52 | the empty object is a valid export body that sets no filter |
| Validators.FiltersJsonRoundTrip | src/app/api/export/route.ts:126 | the filters written into the audit entry validate again to the same filters |
| Validators.FiltersJsonIsBody | src/app/api/export/route.ts:29 | the filters the audit entry records carry exactly the body's five filter keys, each with the body's value |
| Auth.RoleOfClaim | src/lib/auth.ts:56-58 | a role claim is accepted exactly when it is the string ADMIN, EDITOR or VIEWER |
| Auth.CapabilitiesAgree | src/lib/auth.ts:24-34 | edit, export and delete rights always agree and are held exactly by non-viewers |
| Auth.UserOfClaims | src/lib/auth.ts:51-59 | claims give a user exactly when `sub` and `username` are strings and the role is valid, and the user has exactly those three fields |
| Auth.SessionClaimsRoundTrip | src/lib/auth.ts:36-47 | the claims signed for a user pass the checks and give that user back |
| Auth.VerifySessionJwt | src/lib/auth.ts:18-60 | a missing or empty secret fails; a rejected token fails; otherwise the claim checks decide |
| Auth.UserFromCookie | src/lib/auth.ts:66-86 | no cookie or an empty cookie gives no user; any verification failure gives no user instead of an error |
| Auth.SessionResolves | src/lib/auth.ts:36-86 | a token carrying a session payload resolves to the user it was issued for |
| Auth.Authenticate | src/lib/auth.ts:88-103 | an unknown username or a wrong password gives no user; otherwise the stored id, username and role |
| Auth.LoginThenResolve | src/lib/auth.ts:36-103 | a successful login, turned into a session token and read back, resolves to the same identity |
| Auth.SessionCookieOptions | src/lib/auth.ts:105-113 | the cookie is always httpOnly, lax and rooted at `/`, and secure exactly in production |
| Store.MintIdInjective | src/app/api/loans/route.ts:124-132 | ids minted from different counters differ |
| Store.WriteAudit | src/lib/audit.ts:4-20 | one audit row is appended with the caller's id (or null), the action and the target; nothing else changes |
| LoanFilter.SearchClause | src/app/api/loans/route.ts:36-45 | the search is the customer-name `contains` alternative, then the notes `contains` alternative, and a third, id-equals-`q` alternative exactly when `q` has the UUID shape |
| LoanFilter.SearchClauseMeaning | src/app/api/loans/route.ts:36-45 | the search accepts a loan exactly when its name or notes contain `q` case-insensitively, or `q` has the UUID shape and is the loan's id |
| LoanFilter.EmptyRangeAcceptsAll | src/app/api/export/route.ts:61-68 | a range with neither bound accepts every amount |
| LoanFilter.Select | src/app/api/loans/route.ts:67-70 | the selection keeps exactly the matching rows; a soft-deleted row never matches |
| LoanFilter.Ordered | src/app/api/loans/route.ts:69-71 | all matching rows, as a permutation sorted newest first |
| LoanFilter.PageRows | src/app/api/loans/route.ts:69-79 | a page is exactly the run of the newest-first matches that starts at `skip`, as long as `take` and the remaining matches allow; so it is sorted and holds only matching stored rows |
| LoanFilter.OrderedRowsMatch | src/app/api/loans/route.ts:67-80 | every row of the ordered matches is a stored row the filter accepts |
| LoanFilter.PageRowsSubMultiset | src/app/api/loans/route.ts:69-79 | a page repeats no row more often than the table holds it |
| LoanFilter.PagesAdjoin | src/app/api/loans/route.ts:69-79 | the page of `n` rows at `skip` followed by the page of `m` rows at `skip + n` is the page of `n + m` rows at `skip`: paging neither repeats nor skips a row, in the model's order (ties on `createdAt` kept in table order; see Left out) |
| LoanFilter.WholePage | src/app/api/loans/route.ts:69-79 | a page whose `take` covers every match holds each match exactly as often as the table does |
| LoansApi.NumberOr | src/app/api/loans/route.ts:25-28 | `Number(x) \|\| d` never gives 0 unless the default is 0 |
| LoansApi.PageSizeOf | src/app/api/loans/route.ts:24-27 | the page size is always between 1 and 100, and 20 when the parameter is not a number |
| LoansApi.PageSizeOfNat | src/app/api/loans/route.ts:24-27 | a whole-number page size is used as given, with 0 meaning 20 and values over 100 meaning 100 |
| LoansApi.PageOf | src/app/api/loans/route.ts:28 | the page is always at least 1, and 1 when the parameter is not a number |
| LoansApi.DefaultPaging | src/app/api/loans/route.ts:24-28 | without parameters the listing shows page 1 of 20 rows |
| LoansApi.NonNumericPaging | src/app/api/loans/route.ts:24-28 | a page size or page that is not a number gives 20 rows of page 1 |
| LoansApi.NegativePageIsFirst | src/app/api/loans/route.ts:28 | a negative page number means page 1 |
| LoansApi.SkipOf | src/app/api/loans/route.ts:29 | the skip is the rows of the pages before this one, `(page - 1) * pageSize`: never negative, and 0 on page 1 |
| LoansApi.NextPageSkip | src/app/api/loans/route.ts:29 | the next page skips exactly one page size more |
| LoansApi.Offset | src/app/api/loans/route.ts:29 | the row count handed to `skip` equals `(page - 1) * pageSize` whenever that is whole |
| LoansApi.NextSkip | src/app/api/loans/route.ts:28-29 | when a whole page size gives a whole skip, the next page's skip is whole too and one page size further on, so with `LoanFilter.PagesAdjoin` page `p + 1` continues where page `p` stopped |
| LoansApi.FiniteParam | src/app/api/loans/route.ts:51-53 | a missing or empty amount parameter is no constraint; any other parameter gives exactly `Number`'s reading of it, none when that is not a finite number |
| LoansApi.ListingWhere | src/app/api/loans/route.ts:17-65 | a search clause exactly when trimmed `q` is non-blank; a status clause only for an exact status name; an exact finite amount overrides the range; a range only from finite bounds, and none when no bound is finite |
| LoansApi.FindItem | src/app/api/loans/route.ts:74-78 | finds a catalog row with the given id exactly when one exists |
| LoansApi.LinesOf | src/app/api/loans/route.ts:74-78 | the included lines belong to the loan, each with the catalog row it links to |
| LoansApi.Views | src/app/api/loans/route.ts:74-78 | one view per listed loan, in order |
| LoansApi.ListLoans | src/app/api/loans/route.ts:11-94 | 401 exactly without a session; 500 exactly when the page size or the skip is fractional. Otherwise the total counts every match, and the page's loans are exactly the page of newest-first matches at the skip: at most page-size rows, all matching and stored |
| LoansApi.TotalIgnoresPaging | src/app/api/loans/route.ts:67-68 | the total does not depend on the page or page size asked for |
| LoansApi.NewItemCount | src/app/api/loans/route.ts:137 | at most one new catalog row per input line |
| LoansApi.NewItem | src/app/api/loans/route.ts:138-147 | a new catalog row gets the line's catalog columns and leaves the pawn columns unset |
| LoansApi.AddLine | src/app/api/loans/route.ts:135-158 | one loop turn appends one line; it appends a catalog row linked to that line exactly when the line has a name but no id |
| LoansApi.AddLines | src/app/api/loans/route.ts:134-159 | one stored line per input row, in order; earlier rows and the loan table are untouched |
| LoansApi.PostLoan | src/app/api/loans/route.ts:96-179 | 401, then 403, then 400, all with storage unchanged. Past the guards it succeeds exactly when the due date reads as a date and no write of the transaction fails, and otherwise answers 500. Any failure leaves storage as it was. On success the loan (with the parsed due date, not redeemed, live, created by the caller), its lines, the new catalog rows and then one `LOAN_CREATE` audit entry are all written |
| LoansApi.Commit | src/app/api/loans/route.ts:123-173 | the committed writes followed by the audit entry, with every earlier row preserved |
| LoansApi.CreatedLoanIsListed | src/app/api/loans/route.ts:67-68 | after a successful create, the unfiltered listing's total grows by one |
| LoansApi.NoParamsListing | src/app/api/loans/route.ts:11-94 | the listing without parameters succeeds and counts every live row |
| LoansApi.OneMoreListed | src/app/api/loans/route.ts:67-68 | one more live row at the end of the table adds one to the unfiltered total |
| LoansApi.SelectAppend | src/app/api/loans/route.ts:32-34 | one more row adds one match exactly when that row matches |
| ExportApi.ExportWhere | src/app/api/export/route.ts:39-69 | an untrimmed non-empty `q` gives the search; a status gives its clause; an exact amount overrides the bounds; a range unless both bounds are null, built from the present bounds |
| ExportApi.ExportWhereMeaning | src/app/api/export/route.ts:39-69 | which live loans an export body selects, clause by clause |
| ExportApi.AmountTextReadsBack | src/app/api/export/route.ts:94 | an integral amount's cell reads back as the same number |
| ExportApi.SheetRowOf | src/app/api/export/route.ts:90-100 | one row per loan: id and name copied, the status name, the due date as YYYY-MM-DD or "", and null notes as "" |
| ExportApi.SheetRows | src/app/api/export/route.ts:90-100 | exactly one sheet row per exported loan, in order |
| ExportApi.ExportLoans | src/app/api/export/route.ts:19-127 | 401, then 403, then 400 with storage unchanged, and success exactly when all three guards pass. The loans are the newest min(50000, matches) matches, newest first, with their sheet rows, and one `EXPORT_LOANS` entry with the parsed filters and that count. The loan tables are unchanged |
| ExportApi.ExportIsComplete | src/app/api/export/route.ts:71-75 | when the matches fit under the cap, the export holds every match exactly once |
| ExportApi.UnreadableBodyExportsAll | src/app/api/export/route.ts:28 | an unreadable body counts as `{}` and selects every live loan |
| ExportApi.MissingBoundsConstrainNothing | src/app/api/export/route.ts:57-68 | a body without amount and bounds still sets a range, and that range accepts every amount |
| ItemsApi.LimitOf | src/app/api/items/route.ts:18-21 | the catalog limit is always between 1 and 50 (the defaults are ItemsApi.DefaultLimit, ItemsApi.NonNumericLimit and ItemsApi.LimitOfNat) |
| ItemsApi.DefaultLimit | src/app/api/items/route.ts:18-21 | without a `limit` the catalog returns at most 20 rows |
| ItemsApi.NonNumericLimit | src/app/api/items/route.ts:18-21 | a limit that is not a number gives 20 rows |
| ItemsApi.LimitOfNat | src/app/api/items/route.ts:18-21 | a whole-number limit is used as given, with 0 meaning 20 and values over 50 meaning 50 |
| ItemsApi.CatalogOrder | src/app/api/items/route.ts:23-27 | every matching row exactly once, sorted by name with the newest first among equal names |
| ItemsApi.ItemBeforeIsTotalOrder | src/app/api/items/route.ts:25 | name ascending (unnamed rows last), then newest first, is a total transitive order |
| ItemsApi.ListItems | src/app/api/items/route.ts:11-33 | 401 exactly without a session; 500 exactly when the limit is fractional. Otherwise the first min(limit, matches) of the matches in catalog order, all matching the trimmed `q` case-insensitively |
| ItemsApi.ListedItems | src/app/api/items/route.ts:23-27 | the listing repeats no row, and holds every match when the limit covers them |
| ItemsApi.StoreItem | src/app/api/items/route.ts:55-69 | the row is appended and one `CATALOG_CREATE` entry is written, with a null actor under the bypass |
| ItemsApi.PostItem | src/app/api/items/route.ts:35-75 | 401, then 403, then 400 with storage unchanged; it succeeds exactly when an editor sends a valid body. On success the row gets the next id and the request time, is stored with `itemName` and `defaultWeightChi` unset and note "", and the audit actor is null under the bypass |
| ItemsApi.PostItemIsUnsearchable | src/app/api/items/route.ts:55-61 | the row the handler creates is never found by a non-blank catalog search |
| ItemsApi.PostItemDropsName | src/app/api/items/route.ts:57 | a valid body with a name creates a row without a name |
| ItemsApi.PostItemFixed | src/app/api/items/route.ts:35-75 | the same guards, the same success iff (an editor with a valid body always creates a row) and audit entry, with the row's `itemName` set to the validated name |
| ItemsApi.PostItemFixedIsSearchable | src/app/api/items/route.ts:17-27 | the row the corrected handler creates is found by a search for its name |
| Money.DropCommasSpaces | src/ui/loans/LoanCreateModal.tsx:20 | no comma or space remains |
| Money.DropAppend | src/ui/loans/LoanCreateModal.tsx:20 | dropping distributes over concatenation |
| Money.OnlyCommasAndSpaces | src/ui/loans/LoanCreateModal.tsx:20-21 | input made only of commas and spaces parses to null |
| Money.BlankIsNone | src/ui/loans/LoanCreateModal.tsx:20-21 | blank input parses to null |
| Money.CommasAndSpacesIgnored | src/ui/loans/LoanCreateModal.tsx:20 | commas and spaces anywhere in the field do not change the result |
| Money.Suffixes | src/ui/loans/LoanCreateModal.tsx:22-33 | a whole number reads as itself, times 1,000 with `k`, and times 1,000,000 with `m` |
| Money.ThousandsSuffix | src/ui/loans/LoanCreateModal.tsx:24-26 | "5k" reads as 5000 |
| Money.MillionsSuffix | src/ui/loans/LoanCreateModal.tsx:27-29 | "2m" reads as 2000000 |
| Money.BareSuffixIsZero | src/ui/loans/LoanCreateModal.tsx:24-33 | "k" alone reads as 0, since `Number("")` is 0 |
| Money.ThousandsSeparators | src/ui/loans/LoanCreateModal.tsx:20 | "1,500,000" reads as 1500000 |
| TitleCase.SplitJoin | src/ui/loans/LoanCreateModal.tsx:10-16 | splitting words joined by one space gives the words back |
| TitleCase.TitleCaseShape | src/ui/loans/LoanCreateModal.tsx:7-17 | the result is empty exactly for blank input. Otherwise it is trimmed and single-spaced, and every word starts upper case with the rest lower case |
| TitleCase.TitleCaseIdempotent | src/ui/loans/LoanCreateModal.tsx:7-17 | title-casing twice is title-casing once |
| LoanCreate.RowsToSave | src/ui/loans/LoanCreateModal.tsx:135-140 | exactly the rows with a non-blank name, weight or note |
| LoanCreate.ItemOf | src/ui/loans/LoanCreateModal.tsx:157-162 | a valid row's item: quantity defaults to 1 and is positive, the name is trimmed and non-empty, the weight is finite and non-negative |
| LoanCreate.BuildPayload | src/ui/loans/LoanCreateModal.tsx:151-163 | trimmed name and CCCD, the parsed amount, the date as typed, a blank note as null, one item per saved row |
| LoanCreate.Submit | src/ui/loans/LoanCreateModal.tsx:125-163 | nothing happens exactly when the gate is closed; the amount error exactly when it is open and the amount is null or negative; the item error exactly when a saved row is invalid; otherwise the payload |
| LoanCreate.BlankRowIgnored | src/ui/loans/LoanCreateModal.tsx:135-140 | adding an entirely blank row changes nothing about the submit |
| LoanCreate.PayloadJson | src/ui/loans/LoanCreateModal.tsx:151-168 | the request body has exactly the six payload keys, and no `principalAmount` |
| LoanCreate.PayloadIsNotALoanBody | src/ui/loans/LoanCreateModal.tsx:151-168 | no body the dialog sends passes `zLoanCreate`, which requires `principalAmount` |
| LoanCreate.LoanBodyJson | src/ui/loans/LoanCreateModal.tsx:151-163 | the corrected body has exactly the schema's four top-level keys, with the dialog's customer name and amount |
| LoanCreate.LoanItemAccepted | src/lib/validators.ts:26-36 | a submitted item row under the schema's keys is a valid loan line |
| LoanCreate.SubmitIsSendable | src/ui/loans/LoanCreateModal.tsx:130-163 | every payload a submit builds has a trimmed non-empty customer name, a non-negative amount, a trimmed note, and items with trimmed non-empty names and positive quantities |
| LoanCreate.SendableAccepted | src/lib/validators.ts:19-40 | such a payload within the schema's length bounds and with whole quantities passes `zLoanCreate` once sent under the schema's keys |
| LoanCreate.LoanBodyAccepted | src/ui/loans/LoanCreateModal.tsx:151-163 | sent under the schema's keys, a submitted payload within the schema's bounds is accepted, and the server reads back the dialog's customer name and amount |
| LoanCreate.RedeemedCount | src/ui/loans/LoanCreateModal.tsx:175 | the redeemed count never exceeds the item count, equals it exactly when every item is redeemed, and is 0 exactly when none is |
| LoanCreate.RedeemedCountSnoc | src/ui/loans/LoanCreateModal.tsx:175 | no items count 0, and each further item adds 1 exactly when it is redeemed |
| LoanCreate.DerivedStatusMeaning | src/ui/loans/LoanCreateModal.tsx:179-180 | the derived status is DA_CHUOC exactly when there are items and every one is redeemed |
| LoanCreate.SummarySnoc | src/ui/loans/LoanCreateModal.tsx:176-178 | one more item appends `"; "` and its `{qty}x{name}({weight} Chỉ)` entry |
| LoanCreate.Derive | src/ui/loans/LoanCreateModal.tsx:174-187 | item count is the number of items; the redeemed count equals it exactly when every item is redeemed and is 0 exactly when none is; the status is DA_CHUOC exactly when there are items and all are redeemed; the summary is the joined item entries |
| DoubleTap.OnTouchEnd | src/ui/hooks/useDoubleTap.ts:10-18 | fires exactly when a non-zero last tap is within the delay; firing clears the last tap, otherwise the tap records its own time |
| DoubleTap.TwoQuickTapsFireOnce | src/ui/hooks/useDoubleTap.test.tsx:22-29 | two taps within the delay fire the callback once and leave no last tap |
| DoubleTap.ThirdTapDoesNotFire | src/ui/hooks/useDoubleTap.ts:15 | the tap after a double tap starts over |
| DoubleTap.SlowTapsDoNotFire | src/ui/hooks/useDoubleTap.ts:14 | taps further apart than the delay do not fire |
| DoubleTap.SameInstantTaps | src/ui/hooks/useDoubleTap.test.tsx:9 | with a delay of 400, two taps at the same instant fire once |
| DoubleTap.DefaultDelayBoundary | src/ui/hooks/useDoubleTap.ts:5-14 | with the default 280 ms, a gap of 280 fires and 281 does not |
| DoubleTap.FiresAtMostHalf | src/ui/hooks/useDoubleTap.ts:13-16 | over any tap sequence, every firing consumes two taps |
| DoubleTap.NoFireRightAfterFire | src/ui/hooks/useDoubleTap.ts:15 | the tap right after one that fired never fires |
| LoanList.NextStatus | src/ui/loans/LoanList.tsx:208-209 | the requested status is the other one |
| LoanList.CountFor | src/ui/loans/LoanList.tsx:220 | redeemed shows every item, not redeemed shows none |
| LoanList.Optimistic | src/ui/loans/LoanList.tsx:211-225 | only rows with the id change, to the next status and its count |
| LoanList.Rollback | src/ui/loans/LoanList.tsx:238-249 | rows with the id get back the snapshot's status and count; others are untouched |
| LoanList.ToggleStatus | src/ui/loans/LoanList.tsx:206-225 | without the edit right nothing changes and nothing is sent; otherwise the flip is sent and shown |
| LoanList.FailedToggleRestores | src/ui/loans/LoanList.tsx:211-249 | a failed toggle of the row as shown restores the list exactly |
| LoanList.FailedToggleIsNoOp | src/ui/loans/LoanList.tsx:206-249 | through the screen's data: toggle, fail, and the data is as before |
| LoanList.MarkAllUpdates | src/ui/loans/LoanList.tsx:695-699 | one update per item, each to "some item is not redeemed yet" |
| LoanList.Mark | src/ui/loans/LoanList.tsx:706-710 | the item takes the target, with a time stamp exactly when redeemed |
| LoanList.MarkAll | src/ui/loans/LoanList.tsx:702-711 | every item takes the target, with a time stamp exactly when redeemed |
| LoanList.MarkAllAlternates | src/ui/loans/LoanList.tsx:695-734 | after mark-all, the button offers the opposite action |
| LoanList.ToggleItem | src/ui/loans/LoanList.tsx:758-775 | only the item with the id changes, with a time stamp exactly when redeemed |
| LoanList.ToggleItemBack | src/ui/loans/LoanList.tsx:758-775 | redeeming an item and then un-redeeming it restores an unredeemed item |
| LoanList.ApplyCounts | src/ui/loans/LoanList.tsx:713-727 | only the loan with the id takes the server's status and count |
| LoanList.Delete | src/ui/loans/LoanList.tsx:261-264 | exactly the rows with another id remain; total and page are unchanged |
| LoanList.Prepend | src/ui/loans/LoanList.tsx:555-560 | the new loan comes first and the total grows by one |
| LoanList.DeleteUndoesPrepend | src/ui/loans/LoanList.tsx:261-264 | deleting a loan just created leaves the other rows as before |
| LoanList.Prev | src/ui/loans/LoanList.tsx:500 | one page back, never below 1 |
| LoanList.Edit | src/ui/loans/LoanList.tsx:314-357 | editing any filter sets that filter only and goes back to page 1 |
| LoanList.Get | src/ui/loans/LoanList.tsx:104-113 | the first value given for a key, or none when the key is absent |
| LoanList.QueryStringMeaning | src/ui/loans/LoanList.tsx:104-113 | the query always has page and `page_size=20`; it has trimmed `q` and dates only when non-blank, `search_field` only when set, and no other key |
| LoanList.ServerReadsClientPaging | src/ui/loans/LoanList.tsx:110-111 | the listing reads the screen's query as page `page` of 20 rows |
| LoanList.DatesAndFieldNotRead | src/app/api/loans/route.ts:17-28 | the listing endpoint reads neither the search field nor the dates |
| ItemCatalog.ToNumberOrNull | src/ui/items/ItemCatalog.tsx:17-20 | `Number(v)` when finite, otherwise null: surrounding white space does not change it, a blank field reads as 0, and a numeral reads as its value |
| ItemCatalog.OptText | src/ui/items/ItemCatalog.tsx:113-118 | blank becomes null; otherwise the trimmed, non-empty text |
| ItemCatalog.PayloadOf | src/ui/items/ItemCatalog.tsx:112-119 | every text field trimmed with blank as null; the price is null when blank or not a number |
| ItemCatalog.Save | src/ui/items/ItemCatalog.tsx:103-132 | nothing without an edited item or the edit right; a blank name is refused; otherwise create exactly when the id is "" and update otherwise |
| ItemCatalog.EditUnchangedRoundTrip | src/ui/items/ItemCatalog.tsx:91-119 | opening an item and saving it unchanged sends back its own text fields |
| ItemCatalog.PayloadAcceptedIff | src/ui/items/ItemCatalog.tsx:112-119 | the server's item schema accepts a payload the screen builds exactly when the fields fit their length bounds and any price is non-negative |
| ItemCatalog.Upsert | src/ui/items/ItemCatalog.tsx:141-145 | an id already listed is replaced in place, keeping length and positions; otherwise the item is prepended; all other entries are unchanged |
| ItemCatalog.UpsertIdempotent | src/ui/items/ItemCatalog.tsx:141-145 | saving the same item twice leaves the list as saving it once |
| ItemCatalog.UpsertContains | src/ui/items/ItemCatalog.tsx:141-145 | after a save, the returned item is in the list |
| ItemCatalog.Remove | src/ui/items/ItemCatalog.tsx:161 | exactly the entries with another id remain |
| ItemCatalog.RemoveUndoesCreate | src/ui/items/ItemCatalog.tsx:141-161 | removing an item just created gives back the list before it |

## Left out

- Rendering, toasts, dialogs, menus and the layout: presentation only.
- `fetch`, `AbortController`, the debounce timers and `Promise.all`: I/O and concurrency. `count` and `findMany` read one snapshot of the storage.
- `src/lib/db.ts` and Prisma itself: storage is a record of tables; the create transaction commits everything or nothing.
- bcrypt `compare` and `jose` signing, verification and token expiry: the verification outcome and the password check are function parameters. The seven-day lifetime is only a constant.
- The clock (`Date.now()`, `new Date()`): the current instant or time stamp is a parameter.
- ExcelJS workbook bytes, the zip stream and AES encryption: only the sheet rows are modelled.
- The hard-coded export passphrase in `src/app/api/export/route.ts` and `src/ui/loans/LoanList.tsx`: a constant, not a property.
- `Intl.NumberFormat` and `toLocaleString` formatting: locale data.
- `Number()` on hex, exponents, `Infinity` and similar forms: only an optional sign and decimal digits with an optional fraction are read; other forms count as not finite.
- `Number()` values are exact rationals: floating-point rounding is not modelled.
- A fractional page size, page or limit: these reach Prisma as a non-integer `take`/`skip`. The model answers 500, taken as the storage's refusal.
- A `qty` of NaN in the dialog: the row quantity is an optional real.
- Unicode case mapping and database collation: case folding is ASCII; the catalog order is code-point order.
- zod's own UUID pattern for `itemId`: modelled as the 8-4-4-4-12 hex shape with any version and variant.
- The `Decimal` text of a non-integral amount in the export sheet: a parameter (`decimalText`).
- A failing audit insert after a committed create: not modelled; the audit append always succeeds.
- Prisma's order of the included lines: lines are in table order.
- Sorting.SortBy: the sort is stable, so loans with equal `createdAt` (and catalog rows with equal name and `createdAt`) keep their table order. The database promises no order among such ties, and two separate `skip`/`take` queries may break them differently. So LoanFilter.PagesAdjoin's "no row repeated or skipped", the export's prefix of LoanFilter.Ordered and the catalog's prefix of ItemsApi.CatalogOrder hold in the real system only when the sort keys are distinct, or when the database breaks ties the same way every time.
- LoanList.MarkAll: every item gets the same `redeemedAt` instant, where the source reads the clock once per item; the stamps may differ by the time the loop takes.
- The item row's columns beyond those the handlers read or write.
- The catalog screen's own list query, `startCreate` and the search box: fetch plumbing.
- The dialog's item-suggestion search (`searchItems`) and its row-editing handlers: UI state plumbing.
- The list's note-editing dialog and its PATCH, the status and item PATCH handlers, and the export download: other files' handlers and I/O.
- `jsonError` message texts: only the status and the code are modelled.
- Validators.ReadString: a length bound counts code points, while zod's `.min`/`.max` count UTF-16 code units, so a string with characters outside the Basic Multilingual Plane can pass here and fail in zod. The same holds for Validators.ParseLogin, Validators.ParseItemCreate, Validators.ParseLoanCreate and ItemCatalog.PayloadAcceptedIff.
- DateTime.IsoDate: years are limited to 0 to 9999; for other years `toISOString` writes a signed six-digit year, which is not modelled.
- `prisma/schema.prisma` is not part of this model, so three column facts are assumptions, listed next.
- `statusChuoc` is not set by `POST /api/loans`: the model stores `CHUA_CHUOC`, taken as the column's default.
- Item columns the handlers leave unset are taken as nullable: if the schema requires one (`itemName`, say), Prisma refuses the insert and the handler answers 500, which the model does not show.
- LoansApi.CreateDetails: `principalAmount` is written as a JSON number, while a Prisma `Decimal` column would serialise as a string in the audit details.
- LoanCreate.LoanBodyJson: the corrected body sends `qty` as `quantity`, so a fractional quantity is still refused (400); the weight has no column in the loan schema and is not sent.

## Findings

| source | as written | input that shows it | evidently intended | confidence | as-written member | corrected member |
|---|---|---|---|---|---|---|
| src/app/api/items/route.ts:55-61 | the row is written from `parsed.data.itemName` and `parsed.data.defaultWeightChi`. zItemCreate (src/lib/validators.ts:8-15) has no such keys and strips them, so both are stored unset | `{"name": "Nhan vang"}` from an editor: accepted and stored with no `itemName`, so `GET /api/items?q=Nhan` never finds it (if the schema instead requires `itemName`, the insert is refused with 500; either way the name is lost) | store the validated name as the catalog name, so the search at src/app/api/items/route.ts:24 finds it | not executed | ItemsApi.PostItem, ItemsApi.PostItemIsUnsearchable, ItemsApi.PostItemDropsName | ItemsApi.PostItemFixed, ItemsApi.PostItemFixedIsSearchable |
| src/ui/loans/LoanCreateModal.tsx:151-163 | the dialog sends the amount as `totalAmountVnd`, the note as `recordNote` and the item name as `itemName`. zLoanCreate (src/lib/validators.ts:19-40) requires `principalAmount` and reads `notes`, `name` and `quantity` | any form that passes the dialog's checks, such as customer "An", CCCD "012", amount "5k", date "2024-05-01" and no item rows: the body has no `principalAmount`, so `POST /api/loans` answers 400 and no loan is created | send the parsed amount as `principalAmount`, the note as `notes`, and each item's name and quantity as `name` and `quantity` | not executed | LoanCreate.PayloadJson, LoanCreate.PayloadIsNotALoanBody | LoanCreate.LoanBodyJson, LoanCreate.LoanBodyAccepted |
