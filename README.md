# Restaurant order management: a Dafny model of the API core

The system is a small restaurant back office: a Next.js application over PostgreSQL with
five tables (categories, menu items, customers, orders, order items) and REST routes over them.
This project models, in Dafny, what those routes do to the tables and what they answer:

- `POST /api/orders` validates the body and opens a transaction. It prices every line from the
  menu's current price; a missing menu item aborts and rolls back. It then inserts one `pending`
  order carrying the total, inserts one order item per line (price snapshot and subtotal), and
  commits. `GET /api/orders` lists the orders, optionally filtered by status and customer,
  newest first, each with its customer's name and phone and its item count.
- `POST /api/customers` registers a customer: name and phone are required, the phone must be
  ten digits, and a registered phone is refused with 409. `GET /api/customers` lists
  customers by name, with an optional search over name, phone and e-mail, and each customer's
  order count and total spent.
- `POST /api/menu` adds a menu item (required fields, a positive numeric price, the
  category foreign key). `GET /api/menu` lists the items with their category name, optionally
  filtered by category id and availability, by category id and then by name.
- `POST /api/categories` adds a category. `GET /api/categories` lists them by name with their
  number of menu items.
- `GET /api/stats` computes the dashboard: totals, orders by status, revenue by order type
  over delivered orders, the five best-selling items and the ten most recent orders.
- The menu page groups the fetched menu rows by category name. The orders page decides which
  statuses an order's dropdown offers.

## How it is modelled

- **Values.** Each record of `src/types/database.ts` is a datatype (`Types`). Money is an
  unbounded integer number of paise. Timestamps are ticks of a clock that only moves
  forward. JSON `undefined`/`null` and SQL `NULL` are `Option`.
- **The database.** It is the class `Db.Database`: five sequence fields, a counter per SERIAL
  column, a clock and a savepoint for `BEGIN`/`COMMIT`/`ROLLBACK`. Each `INSERT ... RETURNING *`
  is a method proved against a pure state transformer (`Db.AppendOrder` and the like). Those
  transformers check the foreign keys and preserve `Db.WellFormed`: keys positive, increasing
  and below their sequence, and foreign keys pointing at existing rows.
- **POST handlers.** Each is a method on a `Database` (`OrdersRoute.CreateOrder` and the like).
  Its `ensures` ties the answer and the new state to a pure function (`OrdersRoute.PlaceOrder`
  and the like), and lemmas state what the source promises about that function.
- **GET handlers.** Each is a pure function of the tables. The `WHERE` clause is built by a
  method that numbers its placeholders as the source does (`$1`, `$2`, ...). It is proved to
  select exactly the rows the filters describe (`Sql` evaluates the conditions).
  - `GROUP BY` is `Groups` (select by key, distinct keys, per-group sums).
  - `ORDER BY` is an insertion sort by the column's order (`Seqs.SortBy`). Text compares by
    code point.
  - `LIMIT` is a prefix (`Seqs.Limit`).
- **Menu page.** Its `reduce` is a loop over an `array` building a `map`.
- **Orders page.** Its dropdown rule is a function of the status text.

Three behaviours of the code that the model keeps as they are:

- An unknown menu item in `POST /api/orders` answers 500 "Failed to create order", with the
  item named in the `message` field.
- The order total is the sum of price × quantity over the lines
  (src/app/api/orders/route.ts:92), written with `toFixed(2)`.
- `POST /api/orders` passes `order_type` to the database unchecked. `Order.orderType` is
  therefore a string, and `Types.ParseType` only describes the two values the type declares.

## Model

| member | source | states |
|---|---|---|
| Common.OrNull | src/app/api/customers/route.ts:90 | `x \|\| null` on an optional string: NULL exactly when the value is absent or empty, otherwise the value itself |
| Types.ParseStatus | src/types/database.ts:29 | a status text that parses names that status |
| Types.StatusesExactlyFive | src/types/database.ts:29 | there are exactly five distinct statuses; each name parses back to its status; exactly the five texts parse |
| Types.ParseType | src/types/database.ts:30 | an order-type text that parses names that type |
| Types.TypesExactlyTwo | src/types/database.ts:30 | exactly two order types; each name parses back; exactly "dine-in" and "takeaway" parse |
| Db.FindMenuItem | src/app/api/orders/route.ts:83-90 | `SELECT ... WHERE menu_item_id = $1`: a row found is in the table with that id; none is found exactly when no row has the id |
| Db.FindCategory | src/app/api/menu/route.ts:24 | the category joined to an item is in the table with that id; none exactly when no category has it |
| Db.FindCustomer | src/app/api/orders/route.ts:18 | the customer joined to an order is in the table with that id; none exactly when no customer has it |
| Db.AppendCategory | src/app/api/categories/route.ts:46-52 | the insert returns the row with the next SERIAL id and the current time, appends it, advances the sequence, and keeps the tables well formed |
| Db.AppendMenuItem | src/app/api/menu/route.ts:92-104 | a row is inserted exactly when the category exists; the id is consumed even when the foreign key refuses; tables stay well formed |
| Db.AppendCustomer | src/app/api/customers/route.ts:84-90 | the new customer row is appended with the next id and the current time; tables stay well formed |
| Db.AppendOrder | src/app/api/orders/route.ts:96-108 | a row is inserted exactly when the customer exists, with order date = created = updated = now; the id is consumed either way; tables stay well formed |
| Db.AppendOrderItem | src/app/api/orders/route.ts:113-135 | a row is inserted exactly when its order and menu item exist; tables stay well formed |
| Db.Database.Begin | src/app/api/orders/route.ts:77 | `BEGIN` records a savepoint equal to the current tables |
| Db.Database.Commit | src/app/api/orders/route.ts:141 | `COMMIT` drops the savepoint and keeps every change |
| Db.Database.Rollback | src/app/api/orders/route.ts:154-157 | `ROLLBACK` restores every table to the savepoint; sequences and clock keep their advance |
| Db.Database.InsertCategory | src/app/api/categories/route.ts:46-52 | the insert changes the database exactly as `AppendCategory` says and keeps it valid |
| Db.Database.InsertMenuItem | src/app/api/menu/route.ts:92-104 | the insert changes the database exactly as `AppendMenuItem` says and keeps it valid |
| Db.Database.InsertCustomer | src/app/api/customers/route.ts:84-90 | the insert changes the database exactly as `AppendCustomer` says and keeps it valid |
| Db.Database.InsertOrder | src/app/api/orders/route.ts:96-108 | the insert changes the database exactly as `AppendOrder` says and keeps it valid |
| Db.Database.InsertOrderItem | src/app/api/orders/route.ts:113-135 | the insert changes the database exactly as `AppendOrderItem` says and keeps it valid |
| Sql.Wrapped | src/app/api/customers/route.ts:24 | `%${search}%` is the term with one `%` on each side |
| Sql.WrappedMatches | src/app/api/customers/route.ts:23-24 | a `%term%` pattern matches exactly the values containing the term (and likewise after lower-casing) |
| Sql.ILikeWrapped | src/app/api/customers/route.ts:23 | `column ILIKE '%term%'` holds exactly when the lower-cased value contains the lower-cased term |
| Sql.LikeWrapped | src/app/api/customers/route.ts:23 | `column LIKE '%term%'` holds exactly when the value contains the term |
| Seqs.SortBy | src/app/api/categories/route.ts:14 | `ORDER BY` returns a permutation of its input holding the same elements |
| Seqs.SortBySorted | src/app/api/categories/route.ts:14 | for a total, transitive order the result is sorted |
| Seqs.SumBySort | src/app/api/categories/route.ts:10-14 | sorting does not change a sum over the rows |
| Seqs.Limit | src/app/api/stats/route.ts:47 | `LIMIT k` keeps exactly min(k, n) of n rows, a prefix of its input, so no row more often than the input holds it |
| Seqs.MapPermutation | src/app/api/orders/route.ts:38-41 | reordering rows (ORDER BY) leaves each value of a column occurring exactly as often as before |
| Seqs.LimitKeepsBest | src/app/api/stats/route.ts:46-47 | after sorting, every kept row ranks at least as high as any dropped row |
| Groups.Select | src/app/api/stats/route.ts:29-31 | the rows of one group are exactly the input rows with that key |
| Groups.Keys | src/app/api/stats/route.ts:72 | `GROUP BY` yields each occurring key exactly once and no other key |
| Groups.GroupTotalCovers | src/app/api/stats/route.ts:65-73 | grouping by distinct keys that cover every row loses and repeats no row: the group sums add up to the sum over all rows |
| OrdersRoute.UnknownSticks | src/app/api/orders/route.ts:88-90 | once pricing fails on a prefix of the lines, it fails the same way on the whole request |
| OrdersRoute.QuoteCorrect | src/app/api/orders/route.ts:80-93 | pricing succeeds exactly when every menu item exists; on failure it names the first missing item in request order; on success the total is the sum of the subtotals of the order lines inserted later |
| OrdersRoute.PriceItems | src/app/api/orders/route.ts:80-93 | the pricing loop computes the quote the specification function defines |
| OrdersRoute.PlaceOrder | src/app/api/orders/route.ts:60-170 | POST answers 201, 400 or 500; 400 exactly when a required field is missing or falsy, with nothing changed; any non-201 leaves the tables unchanged; a well-formed database stays well formed |
| OrdersRoute.MissingFieldsRejected | src/app/api/orders/route.ts:66-74 | a missing customer_id, order_type or empty items list gets 400 with the source's message and no change |
| OrdersRoute.UnknownMenuItemRollsBack | src/app/api/orders/route.ts:79-158 | a request naming a missing menu item gets 500 naming the first missing one, and every table is as before |
| OrdersRoute.UnknownCustomerRollsBack | src/app/api/orders/route.ts:96-158 | a customer id without a customer row is refused by the foreign key: 500, and the tables are as before |
| OrdersRoute.PlacedOrderContents | src/app/api/orders/route.ts:95-153 | on success, exactly one new `pending` order (notes NULL when absent or empty) and one new item per line, in request order, priced at the current menu price, with subtotal = price × quantity and total = sum of subtotals; other tables unchanged |
| OrdersRoute.PlaceOrderKeepsTotals | src/app/api/orders/route.ts:80-138 | creating an order keeps every order's total equal to the sum of its items' subtotals |
| OrdersRoute.LinesWellFormed | src/app/api/orders/route.ts:113-138 | appending the order's items keeps ids increasing and every item pointing at its order and an existing menu item |
| OrdersRoute.InsertNextLine | src/app/api/orders/route.ts:121-137 | one iteration inserts the next line's item, re-priced from the menu, and nothing else |
| OrdersRoute.InsertEachLine | src/app/api/orders/route.ts:119-138 | the second loop appends exactly the order lines, one per request line in order, and changes nothing else |
| OrdersRoute.InsertLines | src/app/api/orders/route.ts:119-138 | the second loop keeps the database and its savepoint valid |
| OrdersRoute.InsertItemsAndCommit | src/app/api/orders/route.ts:112-153 | after the order row is in, inserting the items and committing gives the answer and state `PlaceOrder` defines |
| OrdersRoute.SaveOrder | src/app/api/orders/route.ts:95-158 | inserting the order (rolling back when the foreign key refuses it), then its items, gives what `PlaceOrder` defines |
| OrdersRoute.CreateOrder | src/app/api/orders/route.ts:60-170 | the handler's answer and new state are those of `PlaceOrder`, and no transaction is left open |
| OrdersRoute.BuildOrderFilter | src/app/api/orders/route.ts:23-36 | the placeholders are numbered from `$1` with status first; a non-empty `customer_id` binds parseInt's value (NaN without digits); the conditions hold on an order exactly when it passes the status filter and its customer id is the parsed value |
| OrdersRoute.MatchingOrders | src/app/api/orders/route.ts:17-36 | the orders the inner join and the WHERE clause keep: exactly those that pass the filters and whose customer exists |
| OrdersRoute.JoinOrders | src/app/api/orders/route.ts:11-41 | `GROUP BY o.order_id`: exactly one row per kept order, in table order, with its customer's name and phone and its item count |
| OrdersRoute.ListOrders | src/app/api/orders/route.ts:32-55 | 500 "Failed to fetch orders" exactly when a non-empty `customer_id` has no digits (the database refuses NaN); otherwise a permutation of the joined rows sorted newest first |
| OrdersRoute.ListOrdersRows | src/app/api/orders/route.ts:5-49 | with a readable `customer_id`, GET answers 200 with each kept order exactly as often as the table holds it (`count` is their number), newest first, with name, phone and item count |
| CustomersRoute.RegisterCustomer | src/app/api/customers/route.ts:50-99 | 400 exactly when name or phone is missing, 400 exactly when the phone is not ten digits, 409 exactly when it is registered, 201 otherwise, with the row appended; nothing changes on refusal |
| CustomersRoute.RegisterKeepsPhonesUnique | src/app/api/customers/route.ts:71-82 | registration keeps phone numbers unique |
| CustomersRoute.SecondRegistrationConflicts | src/app/api/customers/route.ts:71-82 | registering the same phone again right after a success gets 409 |
| CustomersRoute.CreateCustomer | src/app/api/customers/route.ts:50-99 | the handler's answer and new state are those of `RegisterCustomer` |
| CustomersRoute.BuildCustomerFilter | src/app/api/customers/route.ts:19-26 | a non-empty search adds one condition with `$1` used three times; it holds exactly when the name or e-mail contains the term ignoring case, or the phone contains it |
| CustomersRoute.SearchMeaning | src/app/api/customers/route.ts:23-24 | the three-way `ILIKE`/`LIKE` condition means "contains the term" |
| CustomersRoute.OrdersOf | src/app/api/customers/route.ts:16 | a customer's join partners are exactly the orders with its id |
| CustomersRoute.MatchingCustomers | src/app/api/customers/route.ts:19-26 | exactly the customers that pass the search filter, in table order |
| CustomersRoute.JoinCustomersRows | src/app/api/customers/route.ts:10-31 | `GROUP BY c.customer_id`: exactly one row per matching customer, in table order, with its order count and total spent |
| CustomersRoute.ListCustomers | src/app/api/customers/route.ts:28-31 | the list is a permutation of the grouped rows sorted by name |
| CustomersRoute.ListCustomersRows | src/app/api/customers/route.ts:5-39 | GET answers each matching customer exactly as often as the table holds it (`count` is their number), by name, with the count and sum of its orders |
| CustomersRoute.OrderCountsAddUp | src/app/api/customers/route.ts:13-16 | with distinct customer ids, the order counts add up to the number of orders that belong to a listed customer |
| JsNumbers.ParseShow | src/app/api/menu/route.ts:33 | `parseInt` reads back any integer written in decimal, whatever non-digit text follows |
| MenuRoute.AddMenuItem | src/app/api/menu/route.ts:66-113 | 400 "Missing required fields" exactly when category_id, name or price is falsy; 400 "Price must be a positive number" exactly when the price is not a positive number; 201 exactly when in addition the category exists; otherwise 500, spending an id; the row carries `description \|\| null` and `is_available` defaulting to true |
| MenuRoute.AddMenuItemKeepsPricesPositive | src/app/api/menu/route.ts:82-90 | every price in the table stays positive |
| MenuRoute.CreateMenuItem | src/app/api/menu/route.ts:66-125 | the handler's answer and new state are those of `AddMenuItem` |
| MenuRoute.BuildMenuFilter | src/app/api/menu/route.ts:28-41 | placeholders numbered from `$1`, category first; the conditions hold exactly when the item passes the category and availability filters |
| MenuRoute.MatchingItems | src/app/api/menu/route.ts:24-41 | the items the inner join and the WHERE clause keep: exactly those that pass the filters and whose category exists |
| MenuRoute.JoinMenu | src/app/api/menu/route.ts:12-26 | exactly one row per kept item, in table order, with its category's name |
| MenuRoute.ListMenu | src/app/api/menu/route.ts:43-51 | a `category_id` that `parseInt` reads as NaN fails with 500; otherwise a permutation of the joined rows sorted by category id and then name |
| MenuRoute.ListMenuRows | src/app/api/menu/route.ts:6-51 | with a readable `category_id`, GET answers 200 with each kept item exactly as often as the table holds it (`count` is their number), with its category name, by category id and then name |
| MenuRoute.CategoryFilterByShownId | src/app/api/menu/route.ts:31-35 | filtering by a category id written in decimal keeps only that category's items |
| CategoriesRoute.AddCategory | src/app/api/categories/route.ts:34-61 | 201 exactly when the name is present and non-empty, with the row appended (`description \|\| null`); 400 with "Category name is required" and no change otherwise; tables stay well formed |
| CategoriesRoute.CreateCategory | src/app/api/categories/route.ts:34-69 | the handler's answer and new state are those of `AddCategory` |
| CategoriesRoute.ItemsOf | src/app/api/categories/route.ts:12 | a category's join partners are exactly the items with its id |
| CategoriesRoute.JoinCategories | src/app/api/categories/route.ts:7-13 | one row per category, in table order, with the number of its items (0 when none) |
| CategoriesRoute.ListCategories | src/app/api/categories/route.ts:14 | the list is a permutation of the grouped rows sorted by name |
| CategoriesRoute.ListCategoriesRows | src/app/api/categories/route.ts:5-23 | GET lists every category once, by name, each with its item count |
| CategoriesRoute.NewCategoryIsEmpty | src/app/api/categories/route.ts:34-61 | a category just created is listed with item count 0 |
| CategoriesRoute.ItemCountsAddUp | src/app/api/categories/route.ts:10-13 | in a well-formed database the item counts add up to the number of menu items |
| StatsRoute.DeliveredOrders | src/app/api/stats/route.ts:15 | exactly the orders whose status is delivered |
| StatsRoute.Summarize | src/app/api/stats/route.ts:7-25 | totals are the number of orders, the number of customers, the number of available items and the delivered orders' summed totals; available items are all items exactly when every item is available; with no delivered order the revenue is 0 |
| StatsRoute.AlphaRankIsTextOrder | src/app/api/stats/route.ts:32 | the rank used for `ORDER BY status` agrees with the order of the status texts |
| StatsRoute.StatusOrderRanks | src/app/api/stats/route.ts:32 | the alphabetical status list holds every status once, in strictly increasing rank |
| StatsRoute.CountsFor | src/app/api/stats/route.ts:28-33 | every row's count is positive and is its status's number of orders; every status with an order has a row |
| StatsRoute.CountsForOrdered | src/app/api/stats/route.ts:32 | the rows come in the listed statuses' order |
| StatsRoute.OrdersByStatusRows | src/app/api/stats/route.ts:28-33 | every status with at least one order appears once with its count, in text order, and the counts add up to the number of orders |
| StatsRoute.TypeRows | src/app/api/stats/route.ts:65-73 | each row has the count and revenue sum of its order type's delivered orders |
| StatsRoute.RevenueByTypeRows | src/app/api/stats/route.ts:65-73 | every row's type is a delivered order's type, with a positive count, and no type is listed twice |
| StatsRoute.RevenueByTypeCovers | src/app/api/stats/route.ts:65-73 | every delivered order's type has a row |
| StatsRoute.RevenueByTypeTotals | src/app/api/stats/route.ts:65-73 | the per-type revenues add up to the delivered revenue, and the counts to the number of delivered orders |
| StatsRoute.SoldItems | src/app/api/stats/route.ts:38-44 | exactly the menu items with at least one order item and an existing category |
| StatsRoute.SalesOf | src/app/api/stats/route.ts:36-45 | exactly one group per sold item, in table order, with its category's name and its summed quantities and subtotals; every sold item has its group |
| StatsRoute.TopSales | src/app/api/stats/route.ts:36-48 | exactly min(5, number of groups) rows, by total sold descending, each group at most once |
| StatsRoute.TopSalesKeepsBest | src/app/api/stats/route.ts:46-47 | every item left out sold no more than any item kept |
| StatsRoute.TopSellingItems | src/app/api/stats/route.ts:36-48 | the answer rows are the top sales' name, category, quantity and revenue, exactly min(5, number of groups) of them, by quantity descending |
| StatsRoute.OrdersWithCustomer | src/app/api/stats/route.ts:59 | exactly the orders whose customer exists |
| StatsRoute.AllOrdersHaveCustomers | src/app/api/stats/route.ts:59 | when every order's customer exists, the inner join drops no order |
| StatsRoute.WithCustomers | src/app/api/stats/route.ts:51-59 | exactly one row per order whose customer exists, in table order, with the customer's name |
| StatsRoute.RecentOrders | src/app/api/stats/route.ts:51-62 | exactly min(10, number of joined orders) rows, newest first, each joined order at most once |
| StatsRoute.RecentOrdersCount | src/app/api/stats/route.ts:51-62 | when every order's customer exists, recentOrders has min(10, number of orders) rows |
| StatsRoute.RecentOrdersKeepsNewest | src/app/api/stats/route.ts:60-61 | every order left out is no newer than any order kept, and with ten or fewer orders none is left out |
| StatsRoute.GetStats | src/app/api/stats/route.ts:5-89 | the status counts add up to the total orders, the per-type revenues to the total revenue; at most five top items and ten recent orders |
| MenuPage.GroupSpecSnoc | src/app/menu/page.tsx:72-78 | adding a row appends it to its own group, creating the group for a first row, and leaves other groups alone |
| MenuPage.GroupMenu | src/app/menu/page.tsx:72-78 | the loop over the rows builds exactly one group per category name, each holding that category's rows in order |
| MenuPage.GroupsPartition | src/app/menu/page.tsx:72-78 | every row is in the group of its own category name and in no other |
| MenuPage.GroupKeys | src/app/menu/page.tsx:72-78 | the group keys are exactly the category names that occur; no rows give no groups |
| MenuPage.GroupsKeepOrder | src/app/menu/page.tsx:72-78 | grouping a prefix of the rows gives a prefix of each group: rows keep their order |
| MenuPage.GroupSizesAddUp | src/app/menu/page.tsx:72-78 | the group sizes add up to the number of rows |
| MenuPage.GroupMenuAsWritten | src/app/menu/page.tsx:72-78 | the reduce into `{}` throws exactly when some category name is a property every object inherits, and otherwise builds the intended groups |
| MenuPage.ConstructorCategory | src/app/menu/page.tsx:72-78 | a category named "constructor" has a well-defined group, yet it is an inherited name |
| OrdersPage.StatusChoicesAreStatuses | src/app/orders/page.tsx:70 | the page's status list is the five status names, once each, in the status type's order |
| OrdersPage.StatusOptions | src/app/orders/page.tsx:167-178 | no dropdown exactly for a delivered or cancelled order; otherwise it offers every listed status except the current one |
| OrdersPage.WithoutOnce | src/app/orders/page.tsx:174 | filtering out a value that occurs once removes that entry and keeps the others in order |
| OrdersPage.OpenStatusOptions | src/app/orders/page.tsx:174 | a pending, preparing or ready order is offered the four other statuses in list order, earlier ones included |
| OrdersPage.UnknownStatusOptions | src/app/orders/page.tsx:174 | a status text outside the list is offered all five |
| OrdersPage.OptionsAreStatuses | src/app/orders/page.tsx:167-178 | only delivered and cancelled have no dropdown; every option offered is a valid status different from the current one |

## Left out

- The connection pool of `src/lib/db.ts`. Each `query` is an operation on the one `Database`.
  `BEGIN`, the statements and `COMMIT`/`ROLLBACK` are taken to run on one connection, as the
  handler intends, although the pool may hand each `query` a different connection.
- Concurrency. Two requests never interleave, so the race between the phone check and the
  insert in `POST /api/customers`, and a menu item changing between the two loops of
  `POST /api/orders`, are not modelled.
- Floating point. Prices and amounts are exact integer paise. `parseFloat`, JavaScript number
  arithmetic and `toFixed(2)` are not modelled, nor is the rounding they cause.
- The precision and range of the money columns. The schema is not part of this model, so a
  price or total the database would refuse as too large (and the 500 and rollback that would
  follow) is not modelled.
- JsNumbers.ParseInt: models `parseInt` on an optional sign and decimal digits only. Leading
  whitespace, other radix prefixes and values beyond the safe-integer range are not
  modelled.
- Collation. Text `ORDER BY` compares by code point, and `ILIKE` folds ASCII letters only. The
  database's locale collation is not modelled.
- `ORDER BY status` in the stats route is modelled as ordering the status text
  alphabetically. A PostgreSQL enum column would order by declaration instead; the schema is
  not part of this model.
- `%` and `_` typed inside a search term are literal characters in the model. In the source
  they are wildcards.
- Body shapes the model does not take:
  - a JSON `null` for `is_available`;
  - a non-numeric `category_id` in `POST /api/menu`;
  - a phone sent as a number rather than a string;
  - quantities that are not integers;
  - a `customer_id` sent as a string in `POST /api/orders` (the database would read it
    as an integer or refuse it);
  - an `order_type` in `POST /api/orders` that is not a string.
  The menu price is a number in paise or any other value with its JavaScript truthiness.
- Order of unordered results. `revenueByType` and the `GROUP BY` rows without `ORDER BY` come in
  one fixed order (each key where it last occurs). Ties in an `ORDER BY` keep a fixed order; the
  source leaves both to the database.
- Key order of the menu page's groups. The model's result is a map, so JavaScript's key
  enumeration order (integer-like keys first, then insertion order) is not modelled.
- The `[id]` routes (GET, PUT/PATCH, DELETE of one row), the other pages, fetching and all
  rendering are not part of this model.
- Db.Database.InsertCategory: the insert methods promise `old(Valid()) ==> Valid()` rather than
  requiring `Valid()`, because a handler may run on any database state; their results are
  stated for every state.

## Findings

| source | as written | input that shows it | evidently intended | confidence | as-written member | corrected member |
|---|---|---|---|---|---|---|
| src/app/menu/page.tsx:72-78 | the reduce starts from a plain object `{}` and tests `!acc[name]` before `acc[name].push(item)`; for a name every object inherits, such as "constructor", the test finds the inherited function, no list is created, and `push` is not a function there, so the page throws | a menu row whose `category_name` is "constructor" (POST /api/categories accepts any non-empty name) | every category name gets its own group, as for any other name | not executed | MenuPage.GroupMenuAsWritten | MenuPage.GroupMenu |
