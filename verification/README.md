# PeFi: a Dafny model of the API and the admin client's form logic

PeFi is a personal-finance application. Its server (`pefi-serverless`) is a Hono application on a
Cloudflare D1 database with four resources:

- **categories**, keyed by name, each of type income or expense;
- **funds**, keyed by name, with an optional description;
- **transactions**, keyed by an autoincrement id, each an income, an expense or a transfer;
- **budgets**, keyed by an autoincrement id.

Every resource has a service class that issues the SQL and a router that validates requests
with `zod` and maps outcomes to HTTP status codes. The admin client (`pefi-admin`) is a React
application. This model covers these parts of it:

- the money helpers;
- the create-budget, create-transaction and edit-transaction dialogs;
- the category options hook;
- the search, date-range and paging logic of the budgets and transactions pages.

The model has one Dafny module per source unit. A service becomes pure functions from a table (a
`map` keyed the way the database keys the rows) to the value the call returns and the table
afterwards (`Store.Step`). A route handler becomes a function from the table, the path parameter,
the query and the JSON body to a `Reply` (status and body) and the table afterwards. A client
component becomes functions over its state: the form, the shown amount, the option lists. These
modules model the source:

- `CategoryService`, `FundService`, `TransactionService`, `BudgetService`;
- `CategoryRoute`, `FundRoute`, `TransactionRoute`, `BudgetRoute`;
- `Money`, `BudgetModal`, `UseCategories`;
- `TransactionForm`, the form shared by the two transaction dialogs;
- `CreateTransactionModal`, `TransactionModal`;
- `BudgetsPage`, `TransactionsPage`.

Shared modules give the JavaScript, SQL and `zod` semantics these rely on:

- `Js`: `parseInt`, `trim`, `split`, `slice`, `||`;
- `Text`: `\d`, `toLowerCase`, `includes`, `toString`;
- `StringOrder`: text comparison and `ORDER BY`;
- `Sorting` and `Store`: sorted listings;
- `Paging`: `LIMIT`/`OFFSET` and `totalPages`;
- `Schema`: `zod` fields;
- `Http`: status codes and the `page`/`pageSize` check;
- `Enums`, `Seqs`, `Wrappers`.

The day's date (`getDateNow()`, `new Date()`) and the fresh id (`crypto.randomUUID()`) are
parameters.

## Model

| member | source | states |
|---|---|---|
| CategoryService.Create | pefi-serverless/src/services/category.service.ts:21-32 | inserting a name already in use is refused by the key and writes nothing; otherwise the category is returned, stored under its name, one key is added and every other row is kept |
| CategoryService.Ordered | pefi-serverless/src/services/category.service.ts:39-43 | the listing holds every row once, each a stored row, in strictly ascending name order |
| CategoryService.OrderedComplete | pefi-serverless/src/services/category.service.ts:39-43 | no stored category is missing from the ordered listing |
| CategoryService.GetAll | pefi-serverless/src/services/category.service.ts:34-56 | the answer is page `page` of the name-ordered rows with total = number of rows, page, pageSize and totalPages = ceil(total / pageSize) |
| CategoryService.GetAllStored | pefi-serverless/src/services/category.service.ts:34-56 | every row of a page is a stored category |
| CategoryService.GetAllSorted | pefi-serverless/src/services/category.service.ts:39-43 | every page is in strictly ascending name order |
| CategoryService.EveryRowListed | pefi-serverless/src/services/category.service.ts:34-56 | every stored category appears on some page between 1 and totalPages |
| CategoryService.GetByType | pefi-serverless/src/services/category.service.ts:58-67 | only stored categories of the requested type are returned |
| CategoryService.GetByTypeSorted | pefi-serverless/src/services/category.service.ts:58-67 | the categories of a type come in strictly ascending name order |
| CategoryService.GetByTypeComplete | pefi-serverless/src/services/category.service.ts:58-67 | every stored category of the type is returned |
| CategoryService.GetByTypeExactly | pefi-serverless/src/services/category.service.ts:58-67 | every stored category of the type is listed, and the listing is in strictly ascending name order |
| CategoryService.GetByName | pefi-serverless/src/services/category.service.ts:69-73 | a row comes back exactly when the name is stored, and it is that row |
| CategoryService.Update | pefi-serverless/src/services/category.service.ts:75-104 | null for an unknown name; the unchanged row, nothing written, for a patch with no defined field; a key violation, nothing written, exactly when the row is renamed to a name in use; otherwise the row with the defined fields written moves to its new name and every other row is kept |
| CategoryService.Delete | pefi-serverless/src/services/category.service.ts:106-110 | true exactly when the name was stored; that key is removed and every other row is kept |
| CategoryService.CreateThenGet | pefi-serverless/src/services/category.service.ts:21-32 | a created category is read back by its name |
| CategoryService.DeleteThenGet | pefi-serverless/src/services/category.service.ts:106-110 | after a delete the name is unknown and any other name reads as before |
| CategoryRoute.ParseCategory | pefi-serverless/src/routes/category.route.ts:8-11 | a body is accepted exactly when it is an object with a non-empty string `name` and a `type` of "income" or "expense", and the category carries those values |
| CategoryRoute.ParsePatch | pefi-serverless/src/routes/category.route.ts:89 | the partial schema accepts an object whose present keys pass their checks; a key is defined in the patch exactly when it is present, with its value |
| CategoryRoute.Post | pefi-serverless/src/routes/category.route.ts:16-32 | 400 exactly for a body the schema refuses and 409 "Category already exists" exactly for a name in use, both writing nothing; otherwise 201 with the category, which is now stored |
| CategoryRoute.List | pefi-serverless/src/routes/category.route.ts:35-53 | 200 with the service page exactly when the page and page size pass the check, otherwise 400 with the check's message |
| CategoryRoute.ListByType | pefi-serverless/src/routes/category.route.ts:56-69 | 400 "Invalid type parameter" exactly for a type other than income or expense; otherwise 200 with every stored category of that type and no other, in strictly ascending name order |
| CategoryRoute.Show | pefi-serverless/src/routes/category.route.ts:72-86 | 404 "Category not found" exactly for an unknown name, otherwise 200 with the stored row |
| CategoryRoute.Put | pefi-serverless/src/routes/category.route.ts:89-114 | 400 for a refused body; 404 exactly for an unknown name; 409 exactly when the body renames the row to a name in use; none of these writes anything; otherwise 200 with the row under its new name and kind, the old key replaced by the new one |
| CategoryRoute.Delete | pefi-serverless/src/routes/category.route.ts:117-131 | 404 exactly for an unknown name, otherwise the confirmation message; the name is gone afterwards |
| CategoryRoute.PostThenShow | pefi-serverless/src/routes/category.route.ts:16-32 | a created category is then served by GET /:name |
| CategoryRoute.PostTwiceConflicts | pefi-serverless/src/routes/category.route.ts:21-25 | the second POST of the same category answers 409 and writes nothing |
| CategoryRoute.PostIgnoresUnknownKeys | pefi-serverless/src/routes/category.route.ts:8-11 | a key outside the schema does not change what a POST does |
| CategoryRoute.ListBounded | pefi-serverless/src/routes/category.route.ts:43-45 | a listing answered with 200 holds at most 100 categories |
| CategoryRoute.ListDefaults | pefi-serverless/src/routes/category.route.ts:37-38 | without query parameters the answer is page 1 of 10 |
| CategoryRoute.PutRenames | pefi-serverless/src/routes/category.route.ts:89-114 | after a rename the old name answers 404 and the new one 200 |
| CategoryRoute.PutSameName | pefi-serverless/src/routes/category.route.ts:101-107 | sending the current name back is not a conflict |
| CategoryRoute.DeleteTwice | pefi-serverless/src/routes/category.route.ts:117-131 | the first delete answers 200; the second delete and a GET then answer 404 |
| FundService.Create | pefi-serverless/src/services/fund.service.ts:21-32 | a fund without a description is refused as an undefined bind and a name in use by the key, both with nothing written; otherwise the fund is stored under its name and every other row is kept |
| FundService.Ordered | pefi-serverless/src/services/fund.service.ts:34-60 | the listing holds every row once, each a stored row, in strictly ascending name order |
| FundService.OrderedComplete | pefi-serverless/src/services/fund.service.ts:34-60 | no stored fund is missing from the ordered listing |
| FundService.GetAll | pefi-serverless/src/services/fund.service.ts:34-60 | the answer is page `page` of the name-ordered rows with the pagination metadata over all rows |
| FundService.GetAllStored | pefi-serverless/src/services/fund.service.ts:34-60 | every row of a page is a stored fund |
| FundService.GetAllSorted | pefi-serverless/src/services/fund.service.ts:34-60 | every page is in strictly ascending name order |
| FundService.EveryRowListed | pefi-serverless/src/services/fund.service.ts:34-60 | every stored fund appears on some page between 1 and totalPages |
| FundService.GetByName | pefi-serverless/src/services/fund.service.ts:62-66 | a row comes back exactly when the name is stored, and it is that row |
| FundService.Update | pefi-serverless/src/services/fund.service.ts:68-98 | null for an unknown name; the unchanged row for an empty patch; a key violation, nothing written, exactly for a rename to a name in use; otherwise the patched row under its new name, every other row kept |
| FundService.Delete | pefi-serverless/src/services/fund.service.ts:100-104 | true exactly when the name was stored; that key is removed and every other row is kept |
| FundService.CreateThenGet | pefi-serverless/src/services/fund.service.ts:21-32 | under a free name, a fund with a description is read back by its name and one without is not stored |
| FundService.DeleteThenGet | pefi-serverless/src/services/fund.service.ts:100-104 | after a delete the name is unknown and any other name reads as before |
| FundRoute.ParseFund | pefi-serverless/src/routes/fund.route.ts:8-11 | a body is accepted exactly when it has a non-empty string `name` and, if present, a string `description`; the description is defined exactly when the key is present |
| FundRoute.ParsePatch | pefi-serverless/src/routes/fund.route.ts:74 | the partial schema accepts an object whose present keys pass their checks, carrying exactly the present keys |
| FundRoute.Post | pefi-serverless/src/routes/fund.route.ts:16-32 | 400 exactly for a refused body, 409 "Fund with this name already exists" exactly for a name in use, and 500 exactly for a free name without a description, none writing; otherwise 201 with the stored fund |
| FundRoute.List | pefi-serverless/src/routes/fund.route.ts:35-54 | 200 with the service page exactly when the paging parameters pass the check, otherwise 400 with its message |
| FundRoute.Show | pefi-serverless/src/routes/fund.route.ts:57-71 | 404 "Fund not found" exactly for an unknown name, otherwise 200 with the row |
| FundRoute.Put | pefi-serverless/src/routes/fund.route.ts:74-99 | 400, 404 and 409 ("Fund with new name already exists") exactly in the refused-body, unknown-name and rename-to-a-used-name cases, none writing; otherwise 200 with the patched row under its new name |
| FundRoute.Delete | pefi-serverless/src/routes/fund.route.ts:102-116 | 404 exactly for an unknown name, otherwise the confirmation; the name is gone afterwards |
| FundRoute.PostThenShow | pefi-serverless/src/routes/fund.route.ts:16-32 | a created fund is then served by GET /:name |
| FundRoute.PostTwiceConflicts | pefi-serverless/src/routes/fund.route.ts:16-32 | a second POST of the same fund writes nothing: 409 for a fund with a description, 500 for one without |
| FundRoute.PostWithoutDescription | pefi-serverless/src/services/fund.service.ts:21-32 | a body with only a free name passes the schema, but binding its undefined description fails: 500, no fund stored |
| FundRoute.PostWithDescription | pefi-serverless/src/routes/fund.route.ts:16-32 | a name and a description under a free name answer 201 with exactly that fund, which is added to the table |
| FundRoute.ListBounded | pefi-serverless/src/routes/fund.route.ts:35-54 | a listing answered with 200 holds at most 100 funds |
| FundRoute.PutRenames | pefi-serverless/src/routes/fund.route.ts:74-99 | after a rename the old name answers 404 and the new one 200 |
| FundRoute.DeleteTwice | pefi-serverless/src/routes/fund.route.ts:102-116 | the second delete of a name answers 404 |
| TransactionService.Create | pefi-serverless/src/services/transaction.service.ts:30-55 | an input without an amount is refused as an undefined bind, with nothing written; otherwise the row gets the next id, which is fresh; a missing or empty value becomes its default: type expense, date today, description "", note "", category "", method "Chuyển khoản", fund ""; the amount is stored as given; nothing else changes |
| TransactionService.Ordered | pefi-serverless/src/services/transaction.service.ts:66-70 | the listing holds every row once, each a stored row, newest date first |
| TransactionService.OrderedComplete | pefi-serverless/src/services/transaction.service.ts:66-70 | no stored transaction is missing from the listing |
| TransactionService.GetAll | pefi-serverless/src/services/transaction.service.ts:57-83 | the answer is page `page` of the date-ordered rows with the pagination metadata over all rows |
| TransactionService.GetAllStored | pefi-serverless/src/services/transaction.service.ts:57-83 | every row of a page is a stored transaction |
| TransactionService.GetAllSorted | pefi-serverless/src/services/transaction.service.ts:66-70 | every page lists its rows newest first |
| TransactionService.EveryRowListed | pefi-serverless/src/services/transaction.service.ts:57-83 | every stored transaction appears on some page between 1 and totalPages |
| TransactionService.GetById | pefi-serverless/src/services/transaction.service.ts:85-89 | a row comes back exactly when the id is stored, and it is that row |
| TransactionService.Patched | pefi-serverless/src/services/transaction.service.ts:98-103 | each column the patch defines replaces the row's value and each column it leaves undefined keeps it, the id (which the loop skips) never changes, and an empty patch gives the row back |
| TransactionService.Update | pefi-serverless/src/services/transaction.service.ts:91-120 | null for an unknown id; the unchanged row, unwritten, when no column is defined; otherwise the patched row, written under the same id, with every other row and the id counter kept |
| TransactionService.Delete | pefi-serverless/src/services/transaction.service.ts:122-126 | true exactly when the id was stored; that row is removed and the others are kept |
| TransactionService.CreateThenGet | pefi-serverless/src/services/transaction.service.ts:30-55 | an input with an amount is created and read back by its id; one without leaves the table as it was; no earlier row changes |
| TransactionService.CreateFresh | pefi-serverless/src/services/transaction.service.ts:30-55 | two creates that both commit never hand out the same id |
| TransactionService.UpdateIdempotent | pefi-serverless/src/services/transaction.service.ts:91-120 | writing a patch twice is writing it once |
| TransactionService.DeleteThenGet | pefi-serverless/src/services/transaction.service.ts:122-126 | after a delete the id is unknown and any other id reads as before |
| TransactionRoute.ParseFields | pefi-serverless/src/routes/transaction.route.ts:8-17 | the partial schema accepts an object exactly when a present type is one of the three, a present date is dddd-dd-dd, a present amount is a number above 0 and the other present keys are strings; each field is defined exactly when its key is present; unknown keys and `id` are dropped |
| TransactionRoute.Post | pefi-serverless/src/routes/transaction.route.ts:21-30 | 400 exactly for a refused body and 500 exactly for an accepted body without an amount, neither writing; otherwise 201 with the row the service creates from the parsed fields, under the next id |
| TransactionRoute.List | pefi-serverless/src/routes/transaction.route.ts:32-51 | 200 with the service page exactly when the paging parameters pass the check, otherwise 400 with its message |
| TransactionRoute.Show | pefi-serverless/src/routes/transaction.route.ts:53-67 | 404 "Transaction not found" exactly for an unknown id, otherwise 200 with the row |
| TransactionRoute.Put | pefi-serverless/src/routes/transaction.route.ts:69-84 | 400 for a refused body, 404 exactly for an unknown id, neither writing; otherwise 200 with the patched row under the same id |
| TransactionRoute.Delete | pefi-serverless/src/routes/transaction.route.ts:86-100 | 404 exactly for an unknown id, otherwise the confirmation; the row is gone afterwards |
| TransactionRoute.PostWithoutAmountFails | pefi-serverless/src/services/transaction.service.ts:37-46 | an empty body passes the partial schema, but binding its undefined amount fails: 500, no transaction stored |
| TransactionRoute.PostDefaults | pefi-serverless/src/services/transaction.service.ts:37-46 | a body holding only a positive amount creates an expense dated today, paid by bank transfer, with that amount and empty texts |
| TransactionRoute.ParseIgnoresUnknownKeys | pefi-serverless/src/routes/transaction.route.ts:8-17 | a key outside the schema does not change the parsed fields |
| TransactionRoute.PostIgnoresUnknownKeys | pefi-serverless/src/routes/transaction.route.ts:21-30 | a key outside the schema, such as the client's `toFund`, does not change what a POST does |
| TransactionRoute.PostThenShow | pefi-serverless/src/routes/transaction.route.ts:21-30 | a created transaction is then served by GET /:id |
| TransactionRoute.ListBounded | pefi-serverless/src/routes/transaction.route.ts:41-43 | a listing answered with 200 holds at most 100 transactions |
| TransactionRoute.PutEmptyBody | pefi-serverless/src/services/transaction.service.ts:105 | a PUT with an empty object answers 200 with the current row and writes nothing |
| TransactionRoute.PutIgnoresId | pefi-serverless/src/services/transaction.service.ts:98-103 | an `id` key in the body cannot change what a PUT does |
| TransactionRoute.DeleteTwice | pefi-serverless/src/routes/transaction.route.ts:86-100 | the first delete answers 200; the second delete and a GET then answer 404 |
| BudgetService.RowOf | pefi-serverless/src/services/budget.service.ts:19-44 | the row built from an input carries the given id and gives back exactly that input |
| BudgetService.Create | pefi-serverless/src/services/budget.service.ts:19-44 | an input without a note, category or fund is refused as an undefined bind, with nothing written; otherwise the row gets the next, fresh id and exactly the nine given columns; nothing else changes |
| BudgetService.GetAll | pefi-serverless/src/services/budget.service.ts:46-50 | every row once, each a stored row, latest start date first |
| BudgetService.GetAllComplete | pefi-serverless/src/services/budget.service.ts:46-50 | no stored budget is missing from the listing |
| BudgetService.GetById | pefi-serverless/src/services/budget.service.ts:52-56 | a row comes back exactly when the id is stored, and it is that row |
| BudgetService.Patched | pefi-serverless/src/services/budget.service.ts:65-70 | every defined column of the patch replaces the row's value, every undefined one keeps it, and the id never changes |
| BudgetService.Update | pefi-serverless/src/services/budget.service.ts:58-87 | null for an unknown id; the unchanged row when no column is defined; otherwise the patched row under the same id, the other rows kept |
| BudgetService.Delete | pefi-serverless/src/services/budget.service.ts:89-93 | true exactly when the id was stored; that row is removed and the others are kept |
| BudgetService.CreateThenGet | pefi-serverless/src/services/budget.service.ts:19-44 | an input with a note, category and fund is created and read back by its id with the fields it was given; any other leaves the table as it was; no earlier row changes |
| BudgetService.UpdateIdempotent | pefi-serverless/src/services/budget.service.ts:58-87 | writing a patch twice is writing it once |
| BudgetService.DeleteThenGet | pefi-serverless/src/services/budget.service.ts:89-93 | after a delete the id is unknown and any other id reads as before |
| BudgetRoute.ParseBudget | pefi-serverless/src/routes/budget.route.ts:8-18 | a body is accepted exactly when it has a string name, an amount above 0, dddd-dd-dd start and end dates, a number spent if present, a valid status if present and strings for the optional texts; spent defaults to 0 and status to Active |
| BudgetRoute.ParsePatch | pefi-serverless/src/routes/budget.route.ts:59 | the partial schema checks only the present keys, and a missing `spent` or `status` stays undefined rather than taking its default |
| BudgetRoute.Post | pefi-serverless/src/routes/budget.route.ts:22-31 | 400 exactly for a refused body and 500 exactly for an accepted body without a note, category or fund, neither writing; otherwise 201 with a new row holding the parsed input under the next id |
| BudgetRoute.List | pefi-serverless/src/routes/budget.route.ts:33-41 | `GET /budgets` takes no page parameters and always answers 200 with every stored budget, latest start first, with no pagination metadata |
| BudgetRoute.Show | pefi-serverless/src/routes/budget.route.ts:43-57 | 404 "Budget not found" exactly for an unknown id, otherwise 200 with the row |
| BudgetRoute.Put | pefi-serverless/src/routes/budget.route.ts:59-74 | 400 for a refused body, 404 exactly for an unknown id, neither writing; otherwise 200 with the patched row under the same id |
| BudgetRoute.Delete | pefi-serverless/src/routes/budget.route.ts:76-90 | 404 exactly for an unknown id, otherwise the confirmation; the row is gone afterwards |
| BudgetRoute.PostDefaults | pefi-serverless/src/routes/budget.route.ts:11-14 | a budget created without `spent` and `status` has spent 0 and is Active |
| BudgetRoute.PostWithoutOptionalFails | pefi-serverless/src/services/budget.service.ts:26-36 | a body the schema accepts without a note, a category or a fund binds `undefined`: 500, no budget stored |
| BudgetRoute.PutKeepsUnsentDefaults | pefi-serverless/src/routes/budget.route.ts:59-74 | a PUT without `spent` and `status` keeps the stored values; the defaults are not applied |
| BudgetRoute.PutEmptyBody | pefi-serverless/src/services/budget.service.ts:72 | a PUT with an empty object answers with the current budget and writes nothing |
| BudgetRoute.PostThenShow | pefi-serverless/src/routes/budget.route.ts:22-31 | a created budget is then served by GET /:id |
| BudgetRoute.DeleteThenNotFound | pefi-serverless/src/routes/budget.route.ts:76-90 | after a delete, GET, PUT and DELETE of that id all answer 404 |
| Enums.ParseTransactionType | pefi-serverless/src/enums/transaction.enum.ts:1-5 | a string is recognised exactly when it names a transaction type, and yields that type |
| Enums.ParseCategoryType | pefi-serverless/src/routes/category.route.ts:10 | only "income" and "expense" are recognised, each as its type |
| Enums.ParseBudgetStatus | pefi-serverless/src/routes/budget.route.ts:14 | a string is recognised exactly when it names a status, and yields that status |
| Http.CheckPaging | pefi-serverless/src/routes/category.route.ts:37-45 | accepted exactly when parseInt of the page (default "1") is at least 1 and parseInt of the page size (default "10") is in 1..100; otherwise the message names the page when the page fails, else the page size |
| Http.CheckPagingDefaults | pefi-serverless/src/routes/category.route.ts:37-38 | missing or empty parameters mean page 1 of 10 |
| Http.CheckPagingDecimal | pefi-serverless/src/routes/transaction.route.ts:34-43 | decimal parameters are accepted exactly when in range, with their values |
| Http.CheckPagingNegative | pefi-serverless/src/routes/fund.route.ts:35-54 | a negative page number is refused with "Invalid page parameter" |
| Paging.TotalPages | pefi-serverless/src/services/category.service.ts:53 | the fewest pages of `pageSize` that hold all rows: ceil(total / pageSize) |
| Paging.LimitOffset | pefi-serverless/src/services/category.service.ts:39-45 | the rows from `offset` on, at most `limit` of them, in order |
| Paging.Paginate | pefi-serverless/src/services/category.service.ts:34-56 | the page and its metadata describe page `page` of the ordered rows: `pageSize` rows, or what is left, from offset (page - 1) * pageSize on |
| Paging.PageNonEmptyIff | pefi-serverless/src/services/category.service.ts:34-56 | a page has rows exactly when its number is at most totalPages |
| Paging.RowOnItsPage | pefi-serverless/src/services/category.service.ts:34-56 | row i of the listing is entry i mod pageSize of page i div pageSize + 1 |
| Paging.ListedAt | pefi-serverless/src/services/category.service.ts:34-56 | every row of the listing is on a page that exists |
| Paging.PageKeeps | pefi-serverless/src/services/category.service.ts:34-56 | a page holds only rows of the listing |
| Paging.PageOrdered | pefi-serverless/src/services/category.service.ts:39-43 | a page of an ordered listing is ordered |
| Store.RowsByName | pefi-serverless/src/services/category.service.ts:39-43 | `ORDER BY name ASC` over a name-keyed table: every row once, each stored under its name, names strictly ascending |
| Store.RowsByNameComplete | pefi-serverless/src/services/category.service.ts:39-43 | every stored row is listed |
| Store.RowsByKeyDesc | pefi-serverless/src/services/transaction.service.ts:66-70 | `ORDER BY date DESC` over an id-keyed table: every row once, each stored under its id, keys non-increasing |
| Store.RowsByKeyDescComplete | pefi-serverless/src/services/transaction.service.ts:66-70 | every stored row is listed |
| StringOrder.LessEqTotalOrder | pefi-admin/src/pages/budgets/index.tsx:42 | text comparison, as used for dates and names, is a total order |
| Js.ParseInt | pefi-admin/src/components/Modals/CreateTransactionModal/index.tsx:107 | `parseInt` of a digit string is its decimal value; of the empty string it is NaN |
| Js.ParseIntNatToString | pefi-admin/src/pages/transactions/components/TransactionModal.tsx:51 | `parseInt` reads back what `toString` writes for a non-negative integer |
| Js.ParseIntNegative | pefi-serverless/src/routes/category.route.ts:37 | `parseInt` of "-" and a number's text is the negative number |
| Js.Or | pefi-serverless/src/services/transaction.service.ts:37-46 | the logical-or default of an optional text is the text when it is defined and non-empty, otherwise the default |
| Js.Trim | pefi-admin/src/components/Modals/CreateBudgetModal/index.tsx:78 | `trim()` is empty exactly for white space only, and otherwise neither starts nor ends with white space |
| Js.Slice | pefi-admin/src/pages/budgets/index.tsx:50-53 | `slice(start, end)` with non-negative bounds is the elements from start, clamped to the length |
| Js.Split | pefi-admin/src/components/Modals/CreateBudgetModal/index.tsx:56 | `split(sep)` gives separator-free pieces that join back to the string |
| Js.SplitUnique | pefi-admin/src/components/Modals/CreateBudgetModal/index.tsx:56 | any separator-free pieces that join to the string are its split |
| Js.SplitSingle | pefi-admin/src/components/Modals/CreateBudgetModal/index.tsx:56 | a split with one piece gives the whole string |
| Js.SplitPair | pefi-admin/src/components/Modals/CreateBudgetModal/index.tsx:56 | a split with two pieces gives the text before and after the one separator |
| Text.Lower | pefi-admin/src/pages/budgets/index.tsx:35-37 | `toLowerCase()` keeps the length and lowers each ASCII letter |
| Text.NatToString | pefi-admin/src/pages/transactions/components/TransactionModal.tsx:51 | `toString()` of a non-negative integer is its digits without leading zeros |
| Text.ContainsEmpty | pefi-admin/src/pages/transactions/index.tsx:39-43 | every string includes the empty string |
| Text.Contains | pefi-admin/src/pages/transactions/index.tsx:39-43 | defines `includes`: the substring occurs at some position; `ContainsAt` and `ContainsEmpty` state when it does |
| Text.Digits | pefi-admin/src/utils/money.ts:19 | `replace(/[^\d]/g, "")` gives only digits, taken in order from the input, and leaves a digit string as it is |
| Schema.StringField | pefi-serverless/src/routes/transaction.route.ts:8-17 | a string key is missing exactly when absent and valid exactly when it holds a string the refinement allows, with that value |
| Schema.EnumField | pefi-serverless/src/routes/transaction.route.ts:9 | an enum key is valid exactly when it holds a recognised string, with the recognised value |
| Schema.NumberField | pefi-serverless/src/routes/transaction.route.ts:12 | a number key is valid exactly when it holds a number the refinement allows, with that value |
| Seqs.Filter | pefi-admin/src/hooks/useCategories.ts:41-43 | `filter` keeps only elements that pass, is no longer than the input, and keeps everything when everything passes |
| Seqs.FilterMembers | pefi-admin/src/pages/budgets/index.tsx:33-45 | a filter keeps exactly the passing elements, as a subsequence of the input |
| Seqs.FilterOrdered | pefi-admin/src/pages/transactions/index.tsx:38-51 | filtering an ordered sequence keeps it ordered |
| Seqs.FilterLength | pefi-admin/src/hooks/useCategories.ts:41-43 | a filter keeps as many elements as pass |
| Money.ParseMoney | pefi-admin/src/utils/money.ts:17-20 | the digits of the input, in order, one for each digit of the input; a digit string is kept as it is |
| Money.ParseMoneyIdempotent | pefi-admin/src/utils/money.ts:17-20 | `parseMoney` of its own output changes nothing |
| Money.ParseMoneyKeepsDigits | pefi-admin/src/utils/money.ts:17-20 | every digit of the input appears in the output |
| Money.SeparatorAt | pefi-admin/src/utils/money.ts:6 | defines where `/\B(?=(\d{3})+(?!\d))/` matches in a digit string: strictly inside it, with a positive multiple of three digits after the position |
| Money.GroupThousands | pefi-admin/src/utils/money.ts:6 | defines the global replacement: a separator before every matching position; `GroupThousandsIsJoin` relates it to the reference groups |
| Money.FormatMoney | pefi-admin/src/utils/money.ts:1-7 | removing the dots from the result, or keeping only its digits, gives `parseMoney(value)`, and the pieces between the dots are the reference groups of those digits |
| Money.Groups | pefi-admin/src/utils/money.ts:6 | the reference grouping: the leftmost group has one to three digits, every other exactly three |
| Money.GroupThousandsIsJoin | pefi-admin/src/utils/money.ts:6 | the regular-expression replacement equals the reference groups joined by the separator |
| Money.FormatMoneyRoundTrip | pefi-admin/src/utils/money.ts:1-7 | removing the dots from `formatMoney(v)` gives `parseMoney(v)` |
| Money.FormatMoneyShape | pefi-admin/src/utils/money.ts:1-7 | the pieces between the dots are the reference groups of the digits, so the text never starts or ends with a dot; with no digits it is empty |
| Money.FormatMoneyIdempotent | pefi-admin/src/utils/money.ts:1-7 | formatting a formatted amount changes nothing |
| Money.FormatMoneyShort | pefi-admin/src/utils/money.ts:1-7 | up to three digits are shown unchanged |
| Money.FormatMoneyEmpty | pefi-admin/src/utils/money.ts:1-7 | `formatMoney("")` is "" |
| BudgetModal.Clean | pefi-admin/src/components/Modals/CreateBudgetModal/index.tsx:55 | the cleaned value holds only digits and dots, taken in order from the input, and exactly as many as the input has, so every digit and dot is kept |
| BudgetModal.FormatDecimal | pefi-admin/src/components/Modals/CreateBudgetModal/index.tsx:54-65 | without a dot the display is the reference groups of the digits joined by commas; with one it is the grouped whole part, one dot and at most two characters; for a value the amount pattern accepts, removing the commas gives the cleaned value back |
| BudgetModal.IsAmountText | pefi-admin/src/components/Modals/CreateBudgetModal/index.tsx:71 | defines `/^\d*\.?\d{0,2}$/`: digits, or digits, one dot and at most two digits |
| BudgetModal.FormatCleanedFacts | pefi-admin/src/components/Modals/CreateBudgetModal/index.tsx:54-65 | for a value of digits and dots, the display facts `FormatDecimal` states |
| BudgetModal.WholeAmountGroups | pefi-admin/src/components/Modals/CreateBudgetModal/index.tsx:59 | for digits only, the pieces of the display between the commas are the reference groups |
| BudgetModal.HandleAmountChange | pefi-admin/src/components/Modals/CreateBudgetModal/index.tsx:67-75 | an accepted amount text (empty, or digits with at most one dot and two decimals) is stored and shown formatted; any other input changes nothing |
| BudgetModal.AcceptedDisplayRoundTrip | pefi-admin/src/components/Modals/CreateBudgetModal/index.tsx:67-75 | for an accepted input, the display with its commas removed is the stored text |
| BudgetModal.WholeAmountRoundTrip | pefi-admin/src/components/Modals/CreateBudgetModal/index.tsx:54-65 | for digits only, removing the commas gives the digits back |
| BudgetModal.DecimalAmountRoundTrip | pefi-admin/src/components/Modals/CreateBudgetModal/index.tsx:54-65 | for digits, a dot and up to two digits, removing the commas gives the text back |
| BudgetModal.NoDotDisplay | pefi-admin/src/components/Modals/CreateBudgetModal/index.tsx:64 | without a dot the display is the grouped digits |
| BudgetModal.DotDisplay | pefi-admin/src/components/Modals/CreateBudgetModal/index.tsx:61-63 | with a dot the display has exactly one dot, followed by at most two characters |
| BudgetModal.Capitalize | pefi-admin/src/components/Modals/CreateBudgetModal/index.tsx:80 | the label keeps the length, upper-cases the first character and keeps the rest |
| BudgetModal.CreateOption | pefi-admin/src/components/Modals/CreateBudgetModal/index.tsx:77-87 | a blank input changes nothing; otherwise the option (lower-cased value, capitalised label) is appended and selected, and the input is cleared and closed |
| BudgetModal.HandleCreateCategory | pefi-admin/src/components/Modals/CreateBudgetModal/index.tsx:77-87 | creates a category option and leaves the fund list untouched |
| BudgetModal.HandleCreateFund | pefi-admin/src/components/Modals/CreateBudgetModal/index.tsx:89-99 | creates a fund option and leaves the category list untouched |
| BudgetModal.CreateOptionAppends | pefi-admin/src/components/Modals/CreateBudgetModal/index.tsx:82-83 | the existing options keep their places; the new one is last and selected |
| BudgetModal.LowerHasNoCapitals | pefi-admin/src/components/Modals/CreateBudgetModal/index.tsx:79 | a created value has no capital letter |
| BudgetModal.CreateOptionTwice | pefi-admin/src/components/Modals/CreateBudgetModal/index.tsx:84-85 | a second press, on the cleared input, adds no second option |
| BudgetModal.InitialDialog | pefi-admin/src/components/Modals/CreateBudgetModal/index.tsx:11-48 | the dialog starts with the empty amount, no category, the everyday fund, the built-in option lists, spent 0 and status Active |
| BudgetModal.Submit | pefi-admin/src/components/Modals/CreateBudgetModal/index.tsx:101-118 | the form as it stands is sent, with the selections as category and fund; afterwards the draft is blank under the fresh id, the amount is cleared, the selections are reset, and the option lists and new-option inputs are kept |
| BudgetModal.SubmitThenSubmit | pefi-admin/src/components/Modals/CreateBudgetModal/index.tsx:101-118 | after a submit, the next submit sends what a freshly opened dialog would |
| BudgetModal.CreatedCategorySubmitted | pefi-admin/src/components/Modals/CreateBudgetModal/index.tsx:77-118 | a created category is sent as the category and stays an option after the submit |
| UseCategories.OptionOf | pefi-admin/src/hooks/useCategories.ts:35-39 | an option has the category's name as value and label, and its type |
| UseCategories.Options | pefi-admin/src/hooks/useCategories.ts:35-39 | one option per category, in the server's order |
| UseCategories.Select | pefi-admin/src/hooks/useCategories.ts:34-46 | without a type, every option; with a type, only options of that type; never more options than categories |
| UseCategories.SelectByKind | pefi-admin/src/hooks/useCategories.ts:41-43 | with a type, the options kept are exactly those of that type, as a subsequence in the server's order |
| UseCategories.SelectCons | pefi-admin/src/hooks/useCategories.ts:41-43 | a page's first category leads the selection exactly when it has the type |
| UseCategories.SelectFirst | pefi-admin/src/hooks/useCategories.ts:41-43 | the selection is non-empty exactly when the page holds a category of the type, and its first value is the name of such a category |
| UseCategories.FetchAccepted | pefi-admin/src/hooks/useCategories.ts:33 | the hook's request for page 1 of 100 is accepted and answered with that service page |
| UseCategories.Loaded | pefi-admin/src/hooks/useCategories.ts:31-47 | the hook holds at most 100 options |
| UseCategories.SelectFrom | pefi-admin/src/hooks/useCategories.ts:34-46 | every selected option is the option of a category on the page |
| UseCategories.LoadedStored | pefi-admin/src/hooks/useCategories.ts:31-47 | every loaded option names a stored category, with that category's type, the type asked for when one is given |
| TransactionForm.DefaultCategory | pefi-admin/src/components/Modals/CreateTransactionModal/index.tsx:84 | "Lương" exactly for income, "Cá nhân" otherwise |
| TransactionForm.CategoryFilter | pefi-admin/src/components/Modals/CreateTransactionModal/index.tsx:49-51 | no type filter exactly for a transfer, otherwise the form's type |
| TransactionForm.FirstCategory | pefi-admin/src/components/Modals/CreateTransactionModal/index.tsx:88 | the first option's value when there is one, else the fallback |
| TransactionForm.MethodFor | pefi-admin/src/components/Modals/CreateTransactionModal/index.tsx:89-94 | no method for a transfer; else the first method, or "Chuyển khoản" when none is loaded |
| TransactionForm.Reset | pefi-admin/src/components/Modals/CreateTransactionModal/index.tsx:85-97 | the type is set, category, method, fund and target fund are reset (target fund only for a transfer), date, amount, note and description are kept |
| TransactionForm.OptionsFor | pefi-admin/src/hooks/useCategories.ts:34-46 | for an income or expense the selected options start with a category of that type when the page holds one and are empty otherwise; for a transfer they are the whole page |
| TransactionForm.ChangeTypeAsWritten | pefi-admin/src/components/Modals/CreateTransactionModal/index.tsx:82-100 | the type, method and funds are reset and the date, amount, note and description kept; the category is one of the OLD type when the page holds one, whatever the new type is, or the new type's default; after a transfer it is the first category of the page |
| TransactionForm.ChangeType | pefi-admin/src/components/Modals/CreateTransactionModal/index.tsx:82-100 | the corrected change: the same resets, with a category of the NEW type when the page holds one, else that type's default; a transfer takes the first category of the page, or "Cá nhân" |
| TransactionForm.ChangeTypeFitsNewType | pefi-admin/src/components/Modals/CreateTransactionModal/index.tsx:82-100 | after the corrected change to income or expense, the category is one of that type when the page holds one, else the type's default |
| TransactionForm.ChangeTypeAsWrittenKeepsOldOptions | pefi-admin/src/pages/transactions/components/TransactionModal.tsx:78-101 | on a page holding "Ăn uống" (expense) before "Lương" (income), switching an expense form to income selects "Ăn uống", which is no income category; the corrected change selects "Lương" |
| TransactionForm.ChangeTypeAsWrittenTwice | pefi-admin/src/components/Modals/CreateTransactionModal/index.tsx:82-100 | choosing the same type a second time gives the corrected result |
| TransactionForm.ChangeTypeIdempotent | pefi-admin/src/components/Modals/CreateTransactionModal/index.tsx:82-100 | the corrected change to a type, applied twice, is applied once |
| TransactionForm.ChangeAmount | pefi-admin/src/components/Modals/CreateTransactionModal/index.tsx:70-80 | the form keeps the input's digits, and the digits of the shown text are exactly those |
| TransactionForm.ChangeAmountStable | pefi-admin/src/components/Modals/CreateTransactionModal/index.tsx:70-80 | typing the shown text back in changes neither form nor display |
| TransactionForm.AmountJson | pefi-admin/src/services/api.ts:22-38 | a number is sent as itself and NaN as null |
| TransactionForm.Body | pefi-admin/src/services/api.ts:22-38 | the body has exactly the eight form keys, plus `toFund` when defined, with the amount and type as given |
| TransactionForm.BodyIsBase | pefi-admin/src/services/api.ts:22-38 | the body is the eight-key body with `toFund` added when defined |
| TransactionForm.BodyAccepted | pefi-serverless/src/routes/transaction.route.ts:8-17 | for a valid date and a positive amount the server's schema accepts the body and reads back every form field; `toFund` is dropped |
| TransactionForm.BaseBodyAccepted | pefi-serverless/src/routes/transaction.route.ts:8-17 | the same, for the body without `toFund` |
| TransactionForm.BodyRefused | pefi-serverless/src/routes/transaction.route.ts:12 | any amount that is not a number above 0 makes the schema refuse the body |
| CreateTransactionModal.InitialForm | pefi-admin/src/components/Modals/CreateTransactionModal/index.tsx:28-38 | the initial form: an expense dated today, no amount, category and fund "Cá nhân", method "Chuyển khoản", target fund "Cá nhân" |
| CreateTransactionModal.Open | pefi-admin/src/components/Modals/CreateTransactionModal/index.tsx:56-68 | opening resets to the initial form with the first loaded category (else the old type's default), the first method and the first fund, and clears the display |
| CreateTransactionModal.SubmitAmount | pefi-admin/src/components/Modals/CreateTransactionModal/index.tsx:105-108 | a digit amount is sent as its value; an empty amount is sent as 0 |
| CreateTransactionModal.SubmitBody | pefi-admin/src/components/Modals/CreateTransactionModal/index.tsx:102-108 | the body carries the amount as a number; the schema reads every form field back from it for a valid date and a positive amount, and refuses it for an amount that is not positive |
| CreateTransactionModal.SubmitWithoutAmountRefused | pefi-admin/src/components/Modals/CreateTransactionModal/index.tsx:102-108 | submitting with no amount sends 0, which the server refuses with 400, storing nothing |
| CreateTransactionModal.SubmitCreates | pefi-admin/src/components/Modals/CreateTransactionModal/index.tsx:102-108 | a form with a valid date and a positive amount creates a row holding the form's values; an empty method is stored as "Chuyển khoản" |
| CreateTransactionModal.ChangeAmountShows | pefi-admin/src/components/Modals/CreateTransactionModal/index.tsx:70-80 | the shown amount's digits are the form's amount, and the submitted number is its value (0 when empty) |
| TransactionModal.Abs | pefi-admin/src/pages/transactions/components/TransactionModal.tsx:51 | `Math.abs`: the number or its negation, never negative |
| TransactionModal.FormOf | pefi-admin/src/pages/transactions/components/TransactionModal.tsx:46-61 | the form copies type, date, category and method; the amount text reads back as the magnitude; missing note and description become "", a missing fund "Cá nhân"; only a transfer keeps its target fund |
| TransactionModal.Load | pefi-admin/src/pages/transactions/components/TransactionModal.tsx:46-61 | a transaction fills the form and shows its amount formatted; without one nothing changes |
| TransactionModal.HandleAmountChange | pefi-admin/src/pages/transactions/components/TransactionModal.tsx:63-76 | nothing before the form exists; otherwise the form keeps the input's digits and the display's digits are those |
| TransactionModal.HandleTypeChange | pefi-admin/src/pages/transactions/components/TransactionModal.tsx:38-101 | nothing before the form exists; otherwise the type change as written, whose category is one of the type before the change when the page holds one |
| TransactionModal.HandleTypeChangeIntended | pefi-admin/src/pages/transactions/components/TransactionModal.tsx:78-101 | nothing before the form exists; otherwise the corrected change, whose category is one of the new type when the page holds one |
| TransactionModal.HandleTypeChangeKeepsOldOptions | pefi-admin/src/pages/transactions/components/TransactionModal.tsx:78-101 | on the page [("Ăn uống", expense), ("Lương", income)] a loaded expense switched to income gets "Ăn uống" as written and "Lương" as intended |
| TransactionModal.Submit | pefi-admin/src/pages/transactions/components/TransactionModal.tsx:103-115 | nothing is sent exactly when the form or the transaction is missing; otherwise the transaction's id and the body with `parseInt` of the amount, NaN as null |
| TransactionModal.LoadThenSubmitAmount | pefi-admin/src/pages/transactions/components/TransactionModal.tsx:46-115 | a loaded, untouched form sends the magnitude of the transaction's amount under its id |
| TransactionModal.ClearedAmountRefused | pefi-admin/src/pages/transactions/components/TransactionModal.tsx:63-115 | clearing the amount sends null, which the server refuses with 400, writing nothing |
| TransactionModal.SaveUntouchedKeepsRow | pefi-admin/src/pages/transactions/components/TransactionModal.tsx:46-115 | opening a stored transaction with a valid date, positive amount and set fund and saving it untouched answers 200 with the row and leaves the table as it was |
| BudgetsPage.Filtered | pefi-admin/src/pages/budgets/index.tsx:33-45 | only budgets matching both the search and the date range are shown, never more than the list |
| BudgetsPage.MatchesSearch | pefi-admin/src/pages/budgets/index.tsx:34-37 | defines the search: name or category contains the term ignoring case, or the id text contains it |
| BudgetsPage.MatchesDate | pefi-admin/src/pages/budgets/index.tsx:39-42 | defines the date test: an unset end matches everything, else the budget starts no earlier than `from` and ends no later than `to` |
| BudgetsPage.FilteredExactly | pefi-admin/src/pages/budgets/index.tsx:33-45 | the shown budgets are exactly the matching ones, as a subsequence of the list |
| BudgetsPage.NoFilterShowsAll | pefi-admin/src/pages/budgets/index.tsx:33-45 | an empty search with an unset range shows every budget |
| BudgetsPage.HalfRangeIgnored | pefi-admin/src/pages/budgets/index.tsx:39-42 | a range with only one end set filters nothing by date |
| BudgetsPage.PageCount | pefi-admin/src/pages/budgets/index.tsx:48 | the fewest pages of ten that hold the filtered budgets |
| BudgetsPage.PageOf | pefi-admin/src/pages/budgets/index.tsx:49-53 | a page shows at most ten budgets |
| BudgetsPage.PageOfIsPaginate | pefi-admin/src/pages/budgets/index.tsx:48-53 | for a page of at least 1 the slice is the paginated page, non-empty exactly up to the page count |
| TransactionsPage.Filtered | pefi-admin/src/pages/transactions/index.tsx:38-51 | the corrected filter: only transactions matching the search (description ignoring case, or the decimal text of the id) and the date range are shown |
| TransactionsPage.DescriptionMatches | pefi-admin/src/pages/transactions/index.tsx:40-42 | defines the description test: the lowered description contains the lowered term |
| TransactionsPage.MatchesSearch | pefi-admin/src/pages/transactions/index.tsx:39-43 | defines the intended search: the description test, or the id's decimal text contains the term |
| TransactionsPage.MatchesDate | pefi-admin/src/pages/transactions/index.tsx:45-48 | defines the date test: an unset end matches everything, else the date lies between `from` and `to` |
| TransactionsPage.FilteredAsWritten | pefi-admin/src/pages/transactions/index.tsx:38-51 | as written the filter throws exactly when some row's description does not contain the term, because the numeric id has no `includes`; when it does not throw it gives the corrected result |
| TransactionsPage.SearchByIdThrows | pefi-admin/src/pages/transactions/index.tsx:43 | for transaction 7 with an empty description, searching "7" throws as written and shows the row as intended |
| TransactionsPage.EmptySearchDoesNotThrow | pefi-admin/src/pages/transactions/index.tsx:38-51 | with an empty search the as-written filter does not throw and gives the corrected result |
| TransactionsPage.FilteredExactly | pefi-admin/src/pages/transactions/index.tsx:38-51 | the shown transactions are exactly the matching ones, as a subsequence of the fetched page |
| TransactionsPage.NoFilterShowsAll | pefi-admin/src/pages/transactions/index.tsx:38-51 | an empty search with an unset range shows the whole fetched page |
| TransactionsPage.ShownStored | pefi-admin/src/pages/transactions/index.tsx:19-24 | the shown rows are stored transactions, at most ten |
| TransactionsPage.ShownNewestFirst | pefi-admin/src/pages/transactions/index.tsx:38-51 | the filter keeps the server's newest-first order |
| TransactionsPage.PageCount | pefi-admin/src/pages/transactions/index.tsx:54 | the server's page count when it is above 0, and exactly 1 when it is missing or 0 |
| TransactionsPage.PageCountOfServer | pefi-admin/src/pages/transactions/index.tsx:54 | with the server's answer the count is ceil(rows / 10), and 1 for an empty table |

## Left out

- SQL execution on D1: each query is modelled by its effect on the table. A failed insert whose `RETURNING` row is missing, and any other exception, becomes the handlers' 500 answer only where the model has a reason for it: the unique-key violation of a category or fund insert or rename, and an `undefined` value bound into an insert. The 500 body is modelled as one fixed error message, not the exception's own text.
- Path ids are taken as natural numbers. D1's conversion of a text id such as "7abc" or "07" into a key is not modelled.
- An `undefined` value bound into an insert (a fund `description`, a budget `note`, `category` or `fund`, a transaction `amount`) is taken to make D1 throw `D1_TYPE_ERROR` before the statement runs, so the handler answers 500 and nothing is stored (`Store.UndefinedBind`). The nullable columns are still `Option`s, for rows written by other means.
- Rows whose `ORDER BY` key ties (two transactions of one date, two budgets of one start date) are listed by ascending id. SQLite leaves that order unspecified.
- JSON and JavaScript numbers are modelled as exact integers of any size. In JavaScript they are IEEE 754 doubles: integers are exact only up to 2^53 (9007199254740992), `parseInt` rounds a longer digit string to the nearest double, and `toString` and `JSON.stringify` write a value of 1e21 or more in exponent form ("1e+21"). The members below are exact only below 2^53, and their digit round trips only below 1e21. Fractional amounts, and `parseFloat` in the create-budget dialog, are not modelled: the dialog's amount stays the accepted text.
- Js.ParseInt: a digit string above 2^53 is read as its exact value, not rounded to a double (`parseInt("9007199254740993")` is 9007199254740992).
- Js.ParseIntNegative: the negative value is exact only down to -2^53, as for `Js.ParseInt`.
- Js.ParseIntNatToString: the round trip holds only below 1e21; from there `toString` writes "1e+21", which `parseInt` reads as 1.
- Text.NatToString: writes the plain digits for every natural number, while JavaScript writes exponent form from 1e21.
- Http.CheckPagingDecimal: the parameters keep their exact values; above 2^53 JavaScript rounds them (this cannot change the verdict, which needs page size at most 100, but it can change a large page number).
- CreateTransactionModal.SubmitAmount: the sent amount equals the typed digits' value; above 2^53 `parseInt` sends the rounded double.
- CreateTransactionModal.SubmitCreates: the stored amount is the typed value; "9007199254740993" would be stored as 9007199254740992.
- CreateTransactionModal.ChangeAmountShows: the submitted number equals the shown digits' value only below 2^53.
- TransactionModal.FormOf: the amount text reads back as the magnitude only below 1e21, where `toString` still writes digits.
- TransactionModal.LoadThenSubmitAmount: an untouched form sends the magnitude only below 1e21; from there it sends 1.
- TransactionModal.SaveUntouchedKeepsRow: an untouched save keeps the row only for amounts below 1e21; from there the amount is rewritten as 1.
- Letter case is ASCII only. `toLowerCase` and `toUpperCase` leave non-ASCII letters as they are.
- `formatVND` (`Intl.NumberFormat`) is not modelled: it is locale formatting, and none of the modelled components calls it.
- Hono middleware, the API key check in `pefi-serverless/src/index.ts` and the client's fetch wrapper are not modelled. The wrapper's error handling is out too; only the request body it sends is modelled.
- React rendering, effects scheduling, the query cache and the toasts are not modelled. The category, method and fund lists are parameters.
- The client's `Transaction.id` is declared a string while the server sends a number. The model uses the number. The transactions page's `id.includes` therefore throws (see Findings); the corrected search uses the id's decimal text (`NatToString`).
- The client `Transaction.status` field is not modelled: the server never stores it, and no modelled code reads it.
- `CreateTransactionModal.Open` reads the options of the form's type before the reset, exactly as the effect does. It is kept as written: the form it produces is of type expense.
- The bot (`pefi-bot`), the landing site (`pefi-landing`) and the other admin pages are not part of this model.
- The list of budgets (`GET /budgets`, `getAll()` in `pefi-serverless/src/routes/budget.route.ts:33-41`) takes no page parameters and returns every budget, with no pagination metadata (`BudgetRoute.List`).
- The transaction schema of POST is `.partial()`, so a body without an amount passes validation; the insert then fails and the answer is 500 (`TransactionRoute.PostWithoutAmountFails`).
- An update of a budget applies no defaults to a missing `spent` or `status`, because `.partial()` leaves both undefined (`BudgetRoute.PutKeepsUnsentDefaults`).

## Findings

| source | as written | input that shows it | evidently intended | confidence | as-written member | corrected member |
|---|---|---|---|---|---|---|
| pefi-admin/src/components/Modals/CreateTransactionModal/index.tsx:82-100 and pefi-admin/src/pages/transactions/components/TransactionModal.tsx:78-101 | `handleTypeChange` takes the category from `categories`, the options `useCategories` selected for the form's type before the change | a category page [("Ăn uống", expense), ("Lương", income)]; an expense form switched to income gets category "Ăn uống" | the category becomes one of the new type, or that type's default | not executed | TransactionForm.ChangeTypeAsWritten, TransactionForm.ChangeTypeAsWrittenKeepsOldOptions, TransactionModal.HandleTypeChange, TransactionModal.HandleTypeChangeKeepsOldOptions | TransactionForm.ChangeType, TransactionForm.ChangeTypeFitsNewType, TransactionModal.HandleTypeChangeIntended |
| pefi-admin/src/pages/transactions/index.tsx:43 | the search calls `transaction.id.includes(searchTerm)`, but the server sends the id as a number, which has no `includes`, so the filter throws a TypeError whenever a row's description lacks the term | a fetched page holding transaction 7 with an empty description, searched for "7" | the id's text is searched, so the row is shown | not executed | TransactionsPage.FilteredAsWritten, TransactionsPage.SearchByIdThrows | TransactionsPage.Filtered, TransactionsPage.FilteredExactly |
