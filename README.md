# Order placement with stock reservation, in Dafny

This project models the order-management core of a Django/PostgreSQL application. The
core is the handler class `PostgreSQLHandler` (database/PostgreSQLHandler.py, with a
near-identical copy in database/database_handler.py that lacks `create_student`), the
schema in database/models.py, and the `Student` model in database/models/Student.py.

- `wrappers.dfy` (module `Wrappers`): `Option` and `Outcome`.
- `models.dfy` (module `Models`) holds the schema:
  - the customer, product, order and order-line rows, stored in four maps keyed by primary key;
  - the declared defaults and choices;
  - the column widths that bound what a row can hold;
  - the line-total rule of `OrderItem.save` and the one-line-per-(order, product) rule;
  - the PROTECT/CASCADE delete rules;
  - `Consistent`, the guarantees every committed database satisfies.
- `placement.dfy` (module `Placement`) states what `create_order` does without its loop:
  - `CanPlace` gives the requests that succeed;
  - `Placed` gives the tables after a success, built from `Reserved` (the stock), `LineItems` (the new lines) and `Total` (the order total);
  - lemmas prove what the handler promises about these.
- `students.dfy` (module `Students`): `Student.clean`, and the `__str__` that takes effect.
- `handler.dfy` (module `Handler`):
  - the class `Store` holds the tables, the student table and the id counter, and has one method per mutating handler operation;
  - `ReserveLines` is the imperative line loop of `create_order` and `ReserveLine` one pass of it; they are proved equal to `Reserved`, `LineItems` and `Total`;
  - `StoreValid` is the store's invariant on values, with one lemma per mutating operation showing it is kept;
  - the query filters and the statistics are functions, with lemmas on how placements and status updates change them.

Money is kept in integer cents. All money columns are `DecimalField(decimal_places=2)`, so
this is exact. An `IntegerField` holds a signed 32-bit integer. A `DecimalField(max_digits=10)`
holds fewer than 10^10 cents, and `max_digits=12` fewer than 10^12. A value that does not fit
makes the database refuse the write. Inside `create_order`, that refusal rolls the whole
transaction back.

Two consequences of the code as written:
- `OrderItem.quantity` declares `MinValueValidator(1)` (database/models.py:172), but `objects.create` runs no validators. So a quantity below 1 is not refused for that reason. A quantity the stock covers and the columns hold is accepted, and a negative one puts stock back (`Placement.NegativeQuantityRestocks`).
- Failures are a plain `None`/`false`, as the handler returns them; no reason is reported.

## Model

| member | source | states |
|---|---|---|
| Handler.Store.constructor | database/PostgreSQLHandler.py:35-39 | The handler attaches to whatever database exists: any tables, students and counter that satisfy the store invariant become its state, unchanged. |
| Handler.EmptyStoreValid | database/PostgreSQLHandler.py:35-39 | A database with no rows satisfies the store invariant, so the handler can start on one. |
| Handler.Store.CreateCustomer | database/PostgreSQLHandler.py:64-79 | Fails, changing nothing, exactly when the email is already in use. Otherwise it adds the row under a fresh id. The other tables are unchanged, and the invariant is kept. |
| Handler.Store.CreateProduct | database/PostgreSQLHandler.py:109-124 | Succeeds exactly when a price is given, the values fit their columns and the SKU is unused. A used SKU gives `None` with the products unchanged. On success the row with its defaults is stored under a fresh id. |
| Handler.Store.CreateStudent | database/PostgreSQLHandler.py:277-292 | Succeeds exactly when `clean` passes. Invalid data gives `None` and adds no student. No other table changes. |
| Handler.Store.CreateOrder | database/PostgreSQLHandler.py:148-195 | All or nothing. It succeeds exactly on the placeable requests, with a fresh order id, and the tables become `Placed(...)`. On any failure the tables and the counter are exactly as before. The invariant is kept. |
| Handler.ReserveLines | database/PostgreSQLHandler.py:159-179 | The line loop. It reports success exactly when every line names a known product not named before and goes through against the stock earlier lines left. On success the stock, the lines and the running total equal `Reserved`, `LineItems` and `Total`. |
| Handler.ReserveLine | database/PostgreSQLHandler.py:161-179 | One pass of the loop. It succeeds exactly when every line so far is acceptable: a known product, covered by the stock its row shows, fitting its columns, and named only once. The customer check and the order-total width are not part of it. The stock check reads the row earlier lines left. On success the stock, lines and running total grow by exactly that line. |
| Handler.FreshOrder | database/models.py:159-164 | Under the invariant, the counter is an unused order id that no order line refers to, and every product row fits its columns. |
| Handler.PlacementKeepsValid | database/PostgreSQLHandler.py:148-195 | A successful placement under the counter's id, with the counter moved on, keeps the store invariant. |
| Handler.CustomerAddedKeepsValid | database/models.py:21 | Adding a customer whose email is unused keeps emails unique and the store invariant. |
| Handler.ProductAddedKeepsValid | database/models.py:66-77 | Adding a product whose SKU is unused and whose price and stock fit their columns keeps the store invariant. |
| Handler.StudentAddedKeepsValid | database/models/Student.py:42-44 | Storing a student that passed `clean` keeps every stored student valid. |
| Handler.StatusSetKeepsValid | database/PostgreSQLHandler.py:226-228 | Any text as an existing order's status keeps the store invariant. The status choices are not enforced. |
| Handler.Store.UpdateOrderStatus | database/PostgreSQLHandler.py:219-236 | Returns true exactly when the order exists. It then sets that order's status to the given text, unvalidated. Nothing else changes. |
| Handler.ProductsByCategory | database/PostgreSQLHandler.py:126-135 | Exactly the active products whose category is the given one; always a subset of the active products. |
| Handler.ActiveProducts | database/PostgreSQLHandler.py:267 | Exactly the products whose `is_active` flag is set, so a subset of the product table. |
| Handler.CategoryListingsPartition | database/PostgreSQLHandler.py:126-135 | Listings for two different categories are disjoint, and every active product is listed under its own category. |
| Handler.LowStockProducts | database/PostgreSQLHandler.py:137-146 | Exactly the active products whose stock is below the threshold; always a subset of the active products. |
| Handler.LowStockMonotone | database/PostgreSQLHandler.py:137-146 | A higher threshold lists at least the same products. With no threshold given, the threshold is 10. |
| Handler.LowStockEmpty | database/PostgreSQLHandler.py:137-146 | A threshold at or below every active product's stock lists nothing. |
| Handler.OrdersByCustomer | database/PostgreSQLHandler.py:197-206 | Exactly the orders of the given customer, all of them existing orders. |
| Handler.CustomerListingsPartition | database/PostgreSQLHandler.py:197-206 | Two customers' listings are disjoint, and every order is listed for its own customer. |
| Handler.OrdersByStatus | database/PostgreSQLHandler.py:208-217 | Exactly the orders with the given status, all of them existing orders. |
| Handler.StatusListingsPartition | database/PostgreSQLHandler.py:208-217 | Listings for two different statuses are disjoint, and every order is listed under its own status. |
| Handler.GetDatabaseStats | database/PostgreSQLHandler.py:258-274 | Reports the number of customers, products, active products, orders and `pending` orders. Active products are at most the products, and pending orders at most the orders. |
| Handler.PlacementKeepsCatalogue | database/PostgreSQLHandler.py:126-135 | A placement changes no category listing and no product's active flag. |
| Handler.LowStockAfterPlacement | database/database_handler.py:137-146 | A placement of non-negative quantities only adds to the low-stock listing. A requested product is listed afterwards exactly when it is active and its stock less the line's quantity is below the threshold. |
| Handler.PlacedOrderListed | database/PostgreSQLHandler.py:197-217 | The new order appears in its customer's listing and among the `pending` orders. Every other listing is unchanged. |
| Handler.StatsAfterPlacement | database/database_handler.py:258-274 | After a placement, the statistics count exactly one more order and one more pending order. The other counts are unchanged. |
| Handler.StatusUpdateListed | database/PostgreSQLHandler.py:219-228 | A status update moves the order from its old status listing to the new one. Listings by customer are unchanged. |
| Models.Defaults | database/models.py:60-131 | A new order is `pending` with total 0, which is the first declared status. A new product without category, quantity or flag is `other`, 0 and active. No price means no row. |
| Models.NewProduct | database/models.py:60-79 | The row `Product.objects.create` inserts exists exactly when a price is given. It keeps the given name, description, SKU and price, and takes each given category, quantity and flag, otherwise the defaults `other`, 0 and active. |
| Models.NewOrder | database/models.py:120-131 | A new order belongs to the given customer, keeps the notes, has total 0 and the default status `pending`, which is a declared status. |
| Models.ChoicesNotEnforced | database/models.py:50-65 | The defaults `pending` and `other` are declared choices. An undeclared category such as `toys` still yields a product row with that category. Together with `Handler.StatusSetKeepsValid`, an undeclared status such as `refunded` can be stored. |
| Models.Save | database/models.py:191-194 | Every save sets the line total to unit price times quantity, whatever it held, and keeps quantity and unit price. |
| Models.InsertItem | database/models.py:168-194 | Refused when the (order, product) pair already has a line. Otherwise it succeeds exactly when quantity, unit price and line total fit their columns, and stores the line with its computed total. |
| Models.DeleteCustomer | database/models.py:110-115 | Refused exactly when an order refers to the customer. Otherwise it removes only that customer, leaves every other customer row and every other table as it was, and keeps the tables consistent. |
| Models.DeleteProduct | database/models.py:165-169 | Refused exactly when an order line refers to the product. Otherwise it removes only that product, leaves every other product row and every other table as it was, and keeps the tables consistent. |
| Models.DeleteOrder | database/models.py:159-164 | Always removes the order, with exactly its lines. Every other order row and line is kept as it was, customers and products are untouched, and the tables stay consistent. |
| Placement.ReservedDrops | database/PostgreSQLHandler.py:160-177 | Taking the lines off the stock keeps every product and changes only its quantity, by the total the request asks of it. |
| Placement.CanPlace | database/PostgreSQLHandler.py:156-190 | The requests `create_order` accepts: the customer exists, every line is acceptable, and the total fits its column. An accepted request names only existing products, and an empty request is accepted exactly when the customer exists. |
| Placement.Placed | database/PostgreSQLHandler.py:157-183 | The tables after a placement under id `order`. Customers and product ids stay the same. The new order is the customer's pending order with the request's total and the notes. Every other order is unchanged, every line of another order is kept, and every new line belongs to the order and names a requested, existing product. |
| Placement.PlacedStock | database/PostgreSQLHandler.py:160-177 | On success, each requested product's stock drops by exactly its line's quantity. Every other product is unchanged. |
| Placement.PlacedStockNonNegative | database/PostgreSQLHandler.py:164-177 | From non-negative stock, no stock is negative after a placement, whatever the requested quantities. |
| Placement.PlacedLinesAndTotal | database/PostgreSQLHandler.py:159-183 | On success, each requested line is stored with its quantity, the product's current price and its line total. The order total is the sum of those line totals. |
| Placement.PlacedConsistent | database/models.py:110-189 | A placement under a fresh order id keeps foreign keys, line totals, column widths and uniqueness. |
| Placement.LineRejected | database/PostgreSQLHandler.py:161-173 | A line whose product is unknown or already named, or which does not go through against its row, makes the whole request unplaceable. |
| Placement.LineAccepted | database/database_handler.py:161-179 | A line that goes through extends the stock, the lines and the total by one step. The row its stock check reads is the one earlier lines left, which is the original row because no earlier line named the product. |
| Placement.LoopView | database/database_handler.py:161-177 | What the loop finds at line i: the product is known iff it was. Its row is the original unless an earlier line named it. A line for it exists iff an earlier line named it. |
| Placement.Rejected | database/PostgreSQLHandler.py:156-190 | An unknown customer, an unknown product in any line, a line asking for more than the stock, or a product named twice each make the request fail. |
| Placement.EmptyRequest | database/PostgreSQLHandler.py:157-183 | An empty request for a known customer succeeds with one `pending` order of total 0 and no lines. |
| Placement.PlacedKeepsValidators | database/models.py:66-76 | With products that satisfy their validators and quantities of at least one, stock and prices stay non-negative, every line has quantity at least one, and the total is not negative. |
| Placement.NegativeQuantityRestocks | database/PostgreSQLHandler.py:160-177 | A negative quantity is accepted when it is not above the stock, the price is positive, and the stock, line total and order total fit their columns. The line is stored as requested, the stock rises and the total is negative. |
| Placement.NegativeQuantityExample | database/PostgreSQLHandler.py:160-177 | A concrete order returning three units of a 1.00 product with stock 5 is accepted: the stock becomes 8 and the order total is -3.00. |
| Placement.TwoLineOrder | database/PostgreSQLHandler.py:148-183 | Two lines at 50,000.00 and 30,000.00 against stock 10 and 15 give total 190,000.00, stock 8 and 12, and the two stored lines. |
| Students.Clean | database/models/Student.py:30-40 | An empty first name is refused first. A grade that does not parse is refused as not a number, and one that parses outside the range is refused as out of range. Success happens exactly when the name is non-empty and the grade parses into the closed range [0, 100]. |
| Students.NameCheckedFirst | database/models/Student.py:32-33 | With an empty first name the outcome does not depend on the grade's parse. |
| Students.GradeRangeBounds | database/models/Student.py:39-40 | 0 and 100 are accepted; -0.01, 100.01, both infinities and NaN are not. |
| Students.DecimalRoundTrip | database/models/Student.py:46-47 | The decimal text of an id is a non-empty run of digits that reads back as the id. |
| Students.DisplayReadsBack | database/models/Student.py:46-47 | The later `__str__` takes effect. Its text is the first name, ` (`, the id that reads back, and `)`. |
| Students.Display | database/models/Student.py:46-47 | Any display text starts with the first name and ` (` and ends with `)`. An unsaved student shows `None` in parentheses. |

## Left out

- The Django bootstrap, the `DJANGO_SETUP` guards, `check_connection` and `execute_custom_query`: connection I/O and raw SQL run by a library that is not part of this model. The model assumes the ORM is set up.
- `setup_database`, `_ensure_tables`, migrations and `create_test_data`: schema and seeding bootstrap. The worked example in `Placement.TwoLineOrder` uses that data's prices and stock.
- main.py: the GUI, console prompts and start-up wiring.
- Concurrency: the source takes no row locks, so two simultaneous placements can oversell. The model runs one operation at a time.
- The `float` sum at database/PostgreSQLHandler.py:179. Money is exact integer cents instead.
- The `float` parse at database/models/Student.py:36. It is the store's parameter `parseGrade`, a partial function to a Python float value.
- `get_customers_by_name` and `get_customer`. Case-insensitive containment is library-defined text matching, and the lookup is a plain map read.
- The `-order_date` ordering in `get_orders_by_customer` and `get_orders_by_status`: the listings are modelled as sets.
- `Handler.Store.CreateCustomer`, `Handler.Store.CreateProduct`, `Handler.Store.CreateStudent`, `Handler.Store.UpdateOrderStatus`: `max_length` limits on text columns are not modelled, so an over-long name, SKU or status, which PostgreSQL refuses, succeeds in the model. The `EmailField` format is not checked either; like the other validators, it does not run on insert.
- `Handler.Store.constructor`: the handler can attach to any database that satisfies the store invariant. A database holding rows the invariant excludes is not modelled, for example a student stored without `save` and so never cleaned.
- `Handler.Store.CreateOrder`: on failure the model restores the id counter as well. A PostgreSQL sequence keeps the ids a rolled-back insert consumed, so there the next id would differ. Only the id counter is affected; the tables are exactly as before in both.
- `Handler.Store.CreateOrder`: the order row and each line's writes are kept in local variables and committed together at the end. This replaces the real write-then-roll-back; the resulting states are the same.
- `Handler.Store`: one id counter serves every table. The real tables have one sequence each, so the actual id values differ. Nothing in the model depends on them beyond freshness.
- The `__str__` methods of `Customer`, `Product`, `Order` and `OrderItem`, the earlier `Student.__str__` (overridden by the later one), the `auto_now`/`auto_now_add` timestamps, `order_date`, the indexes and the printed messages: no observable logic beyond display.
- The declared validators and choices are predicates (`Models.ProductPassesValidators`, `Models.ItemPassesValidators`, `Models.IsDeclaredStatus`, `Models.IsDeclaredCategory`) but are not enforced: `objects.create` and `save` do not run them.
- database/models/Customer.py, database/models/Teacher.py and database/models/__init__.py are not part of this model. They hold field declarations, imports and display methods, and no logic the core uses.
