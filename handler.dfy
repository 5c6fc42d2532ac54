/**
 * `PostgreSQLHandler` (database/PostgreSQLHandler.py; database/database_handler.py holds
 * the same operations without `create_student`) over an in-memory store.
 *
 * Each mutating operation runs under `@transaction.atomic`: it either commits all of its
 * writes or, when it fails, leaves the store as it found it. Failures are returned as
 * `None` / `false`, as the handler returns them after printing a message.
 */
module Handler {
  import opened Wrappers
  import opened Models
  import opened Placement
  import Students

  type StudentId = nat

  /** The database as the handler sees it: the tables, the student table and the id counter. */
  class Store {
    var customers: map<CustomerId, Customer>
    var products: map<ProductId, Product>
    var orders: map<OrderId, Order>
    var items: map<ItemKey, OrderItem>
    var students: map<StudentId, Students.Student>
    /** The next id to hand out; every id in use is below it. */
    var nextId: nat
    /** Python's `float` applied to a grade text, or `None` where it raises `ValueError`. */
    const parseGrade: string -> Option<Students.Float>

    function Db(): Tables
      reads this
    {
      Tables(customers, products, orders, items)
    }

    /** The store's invariant, on the current state. */
    ghost predicate Valid()
      reads this
    {
      StoreValid(Db(), students, nextId, parseGrade)
    }

    /**
     * The handler attaches to whatever database exists: any tables, students and counter
     * that satisfy the invariant (an empty database does, see `EmptyStoreValid`).
     */
    constructor (t: Tables, students: map<StudentId, Students.Student>, next: nat,
                 parseGrade: string -> Option<Students.Float>)
      requires StoreValid(t, students, next, parseGrade)
      ensures Valid() && this.parseGrade == parseGrade
      ensures Db() == t && this.students == students && nextId == next
    {
      customers, products, orders, items := t.customers, t.products, t.orders, t.items;
      this.students := students;
      nextId := next;
      this.parseGrade := parseGrade;
    }

    /** `create_customer`: refused, changing nothing, when the email is already in use. */
    method CreateCustomer(firstName: string, lastName: string, email: string, phone: string, address: string)
      returns (r: Option<CustomerId>)
      requires Valid()
      modifies this
      ensures Valid()
      ensures r.None? <==> EmailTaken(old(customers), email)
      ensures r.None? ==> customers == old(customers) && nextId == old(nextId)
      ensures r.Some? ==>
        && r.value == old(nextId) && r.value !in old(customers) && nextId == old(nextId) + 1
        && customers == old(customers)[r.value := Customer(firstName, lastName, email, phone, address)]
      ensures products == old(products) && orders == old(orders) && items == old(items) && students == old(students)
    {
      if EmailTaken(customers, email) {
        // the unique index on email rejects the INSERT
        return None;
      }
      CustomerAddedKeepsValid(Db(), students, nextId, parseGrade, Customer(firstName, lastName, email, phone, address));
      r := Some(nextId);
      customers := customers[nextId := Customer(firstName, lastName, email, phone, address)];
      nextId := nextId + 1;
    }

    /**
     * `create_product`: refused, changing nothing, when the price is missing, a value does
     * not fit its column, or the SKU is already in use. The declared validators
     * (non-negative price and quantity, the category choices) are not run.
     */
    method CreateProduct(input: ProductInput) returns (r: Option<ProductId>)
      requires Valid()
      modifies this
      ensures Valid()
      ensures r.Some? <==>
        NewProduct(input).Some? && ProductFits(NewProduct(input).value) && !SkuTaken(old(products), input.sku)
      ensures SkuTaken(old(products), input.sku) ==> r.None?
      ensures r.None? ==> products == old(products) && nextId == old(nextId)
      ensures r.Some? ==>
        && r.value == old(nextId) && r.value !in old(products) && nextId == old(nextId) + 1
        && products == old(products)[r.value := NewProduct(input).value]
      ensures customers == old(customers) && orders == old(orders) && items == old(items) && students == old(students)
    {
      var row := NewProduct(input);
      if row.None? || !ProductFits(row.value) || SkuTaken(products, input.sku) {
        return None;
      }
      ProductAddedKeepsValid(Db(), students, nextId, parseGrade, row.value);
      r := Some(nextId);
      products := products[nextId := row.value];
      nextId := nextId + 1;
    }

    /** `create_student`: the student's `save` runs `clean` first, so an invalid student is never stored. */
    method CreateStudent(firstName: string, grade: string) returns (r: Option<StudentId>)
      requires Valid()
      modifies this
      ensures Valid()
      ensures r.Some? <==> Students.Clean(Students.Student(firstName, grade), parseGrade).Pass?
      ensures r.None? ==> students == old(students) && nextId == old(nextId)
      ensures r.Some? ==>
        && r.value == old(nextId) && r.value !in old(students) && nextId == old(nextId) + 1
        && students == old(students)[r.value := Students.Student(firstName, grade)]
      ensures Db() == old(Db())
    {
      var student := Students.Student(firstName, grade);
      if Students.Clean(student, parseGrade).Fail? {
        return None;
      }
      StudentAddedKeepsValid(Db(), students, nextId, parseGrade, student);
      r := Some(nextId);
      students := students[nextId := student];
      nextId := nextId + 1;
    }

    /**
     * `create_order`: look up the customer, create a pending order, run the request's lines
     * (see `ReserveLines`), then store the total. Any failure rolls back every write made
     * so far.
     */
    method CreateOrder(customer: CustomerId, lines: seq<Line>, notes: string := "") returns (r: Option<OrderId>)
      requires Valid()
      modifies this
      ensures Valid()
      ensures r.Some? <==> CanPlace(old(Db()), customer, lines)
      ensures r.None? ==> Db() == old(Db()) && nextId == old(nextId)
      ensures r.Some? ==>
        && r.value == old(nextId) && r.value !in old(orders) && nextId == old(nextId) + 1
        && Db() == Placed(old(Db()), r.value, customer, lines, notes)
      ensures students == old(students)
    {
      ghost var t := Db();
      if customer !in customers {
        // Customer.objects.get raises before anything is written
        return None;
      }
      // The transaction's writes stay local until it commits; on a failure
      // `set_rollback(True)` discards them, so the store is left as it was.
      var order := nextId;
      FreshOrder(t, students, order, parseGrade);
      var ok, newProducts, newItems, total := ReserveLines(Db(), order, lines);
      if !ok || !FitsDecimal12(total) {
        // a line was refused, or the final order.save() cannot store the total
        return None;
      }
      PlacementKeepsValid(t, students, order, parseGrade, customer, lines, notes);
      orders, products, items, nextId :=
        orders[order := NewOrder(customer, notes).(totalAmount := total)], newProducts, newItems, nextId + 1;
      r := Some(order);
    }

    /** `update_order_status`: sets the status of an existing order to any text; nothing else changes. */
    method UpdateOrderStatus(order: OrderId, status: string) returns (ok: bool)
      requires Valid()
      modifies this
      ensures Valid()
      ensures ok <==> order in old(orders)
      ensures orders == if ok then old(orders)[order := old(orders)[order].(status := status)] else old(orders)
      ensures customers == old(customers) && products == old(products) && items == old(items)
      ensures students == old(students) && nextId == old(nextId)
    {
      if order !in orders {
        // Order.objects.get raises
        return false;
      }
      StatusSetKeepsValid(Db(), students, nextId, parseGrade, order, status);
      orders := orders[order := orders[order].(status := status)];
      ok := true;
    }
  }

  // ---------------------------------------------------------------------------
  // The store's invariant, on values
  // ---------------------------------------------------------------------------

  /** Every id in use is below `next`, so `next` is fresh for every table. */
  ghost predicate IdsBelow(t: Tables, students: map<StudentId, Students.Student>, next: nat)
  {
    && (forall id :: id in t.customers ==> id < next)
    && (forall id :: id in t.products ==> id < next)
    && (forall id :: id in t.orders ==> id < next)
    && (forall id :: id in students ==> id < next)
  }

  /** Every stored student passed `clean`: its `save` runs `clean` first. */
  ghost predicate StudentsClean(students: map<StudentId, Students.Student>, parse: string -> Option<Students.Float>)
  {
    forall id :: id in students ==> Students.Clean(students[id], parse).Pass?
  }

  /** The tables are consistent, every id is below the counter, and every stored student passed `clean`. */
  ghost predicate StoreValid(
    t: Tables, students: map<StudentId, Students.Student>, next: nat, parse: string -> Option<Students.Float>)
  {
    Consistent(t) && IdsBelow(t, students, next) && StudentsClean(students, parse)
  }

  /** A database with no rows satisfies the invariant, whatever the counter. */
  lemma EmptyStoreValid(next: nat, parse: string -> Option<Students.Float>)
    ensures StoreValid(Tables(map[], map[], map[], map[]), map[], next, parse)
  {
  }

  /** A customer with an unused email, stored under the counter's id, keeps the invariant. */
  lemma CustomerAddedKeepsValid(
    t: Tables, students: map<StudentId, Students.Student>, next: nat, parse: string -> Option<Students.Float>,
    c: Customer)
    requires StoreValid(t, students, next, parse) && !EmailTaken(t.customers, c.email)
    ensures StoreValid(t.(customers := t.customers[next := c]), students, next + 1, parse)
  {
  }

  /** A product with an unused SKU whose values fit their columns, stored under the counter's id, keeps the invariant. */
  lemma ProductAddedKeepsValid(
    t: Tables, students: map<StudentId, Students.Student>, next: nat, parse: string -> Option<Students.Float>,
    p: Product)
    requires StoreValid(t, students, next, parse) && ProductFits(p) && !SkuTaken(t.products, p.sku)
    ensures StoreValid(t.(products := t.products[next := p]), students, next + 1, parse)
  {
  }

  /** A student that passes `clean`, stored under the counter's id, keeps the invariant. */
  lemma StudentAddedKeepsValid(
    t: Tables, students: map<StudentId, Students.Student>, next: nat, parse: string -> Option<Students.Float>,
    s: Students.Student)
    requires StoreValid(t, students, next, parse) && Students.Clean(s, parse).Pass?
    ensures StoreValid(t, students[next := s], next + 1, parse)
  {
  }

  /** Setting an existing order's status to any text keeps the invariant. */
  lemma StatusSetKeepsValid(
    t: Tables, students: map<StudentId, Students.Student>, next: nat, parse: string -> Option<Students.Float>,
    order: OrderId, status: string)
    requires StoreValid(t, students, next, parse) && order in t.orders
    ensures StoreValid(t.(orders := t.orders[order := t.orders[order].(status := status)]), students, next, parse)
  {
  }

  /** The counter is a fresh order id: no order and no order line uses it. */
  lemma FreshOrder(
    t: Tables, students: map<StudentId, Students.Student>, next: nat, parse: string -> Option<Students.Float>)
    requires StoreValid(t, students, next, parse)
    ensures next !in t.orders
    ensures forall k :: k in t.items ==> k.0 != next
    ensures forall p :: p in t.products ==> ProductFits(t.products[p])
  {
  }

  /** A placement under the counter's id, with the counter moved on, keeps the invariant. */
  lemma PlacementKeepsValid(
    t: Tables, students: map<StudentId, Students.Student>, next: nat, parse: string -> Option<Students.Float>,
    customer: CustomerId, lines: seq<Line>, notes: string)
    requires StoreValid(t, students, next, parse) && CanPlace(t, customer, lines)
    ensures StoreValid(Placed(t, next, customer, lines, notes), students, next + 1, parse)
  {
    PlacedConsistent(t, next, customer, lines, notes);
    ReservedDrops(t.products, lines);
  }

  /**
   * The line loop of `create_order`, for an order with the fresh id `order`: the lines are
   * run in turn (see `ReserveLine`) and `ok` is false as soon as one fails.
   */
  method ReserveLines(t: Tables, order: OrderId, lines: seq<Line>)
    returns (ok: bool, products: map<ProductId, Product>, items: map<ItemKey, OrderItem>, total: int)
    requires forall k :: k in t.items ==> k.0 != order
    requires forall p :: p in t.products ==> ProductFits(t.products[p])
    ensures ok <==> Acceptable(t.products, lines)
    ensures ok ==>
      && products == Reserved(t.products, lines)
      && items == t.items + LineItems(order, t.products, lines)
      && total == Total(t.products, lines)
  {
    products, items, total := t.products, t.items, 0;
    var i := 0;
    while i < |lines|
      invariant 0 <= i <= |lines|
      invariant products == Reserved(t.products, lines[..i])
      invariant items == t.items + LineItems(order, t.products, lines[..i])
      invariant total == Total(t.products, lines[..i])
      invariant Acceptable(t.products, lines[..i])
    {
      var lineOk;
      lineOk, products, items, total := ReserveLine(t, order, lines, i, products, items, total);
      if !lineOk {
        AcceptablePrefix(t.products, lines, i + 1);
        return false, products, items, total;
      }
      i := i + 1;
    }
    assert lines[..i] == lines;
    ok := true;
  }

  /**
   * One pass of the line loop, the earlier lines having gone through: look up the product,
   * refuse if its stock is below the quantity, create the line with the product's current
   * price, take the quantity off the stock and add the line total to the running total.
   * The stock seen here is what the earlier lines of the same request left.
   */
  method ReserveLine(
    t: Tables, order: OrderId, lines: seq<Line>, i: nat,
    products: map<ProductId, Product>, items: map<ItemKey, OrderItem>, total: int)
    returns (ok: bool, products': map<ProductId, Product>, items': map<ItemKey, OrderItem>, total': int)
    requires forall k :: k in t.items ==> k.0 != order
    requires forall p :: p in t.products ==> ProductFits(t.products[p])
    requires i < |lines| && Acceptable(t.products, lines[..i])
    requires products == Reserved(t.products, lines[..i])
    requires items == t.items + LineItems(order, t.products, lines[..i])
    requires total == Total(t.products, lines[..i])
    ensures ok <==> Acceptable(t.products, lines[..i + 1])
    ensures ok ==>
      && products' == Reserved(t.products, lines[..i + 1])
      && items' == t.items + LineItems(order, t.products, lines[..i + 1])
      && total' == Total(t.products, lines[..i + 1])
  {
    products', items', total' := products, items, total;
    var line := lines[i];
    LoopView(t, order, lines, i);
    AcceptableStep(t.products, lines, i);
    if line.product !in products {
      // Product.objects.get raises
      return false, products', items', total';
    }
    var product := products[line.product];
    if product.quantity < line.quantity {
      // ValueError: not enough stock
      return false, products', items', total';
    }
    var created := InsertItem(items, order, line.product, OrderItem(line.quantity, product.price, 0));
    if created.None? {
      // IntegrityError: a line for this product exists already; or a value does not fit
      return false, products', items', total';
    }
    var remaining := product.quantity - line.quantity;
    if !IsInt32(remaining) {
      // product.save() cannot store the new stock
      return false, products', created.value, total';
    }
    UnionUpdate(t.items, LineItems(order, t.products, lines[..i]), (order, line.product), created.value[(order, line.product)]);
    LineAccepted(t, order, lines, i);
    ok := true;
    items' := created.value;
    products' := products[line.product := product.(quantity := remaining)];
    total' := total + items'[(order, line.product)].totalPrice;
  }

  // ---------------------------------------------------------------------------
  // Queries
  // ---------------------------------------------------------------------------

  const DefaultLowStockThreshold: int := 10

  /** The products `is_active=True` selects. */
  function ActiveProducts(products: map<ProductId, Product>): (r: set<ProductId>)
    ensures forall p :: p in r <==> p in products && products[p].isActive
    ensures r <= products.Keys
  {
    set p | p in products && products[p].isActive
  }

  /** `get_products_by_category`: the active products of one category. */
  function ProductsByCategory(products: map<ProductId, Product>, category: string): (r: set<ProductId>)
    ensures forall p :: p in r <==> p in products && products[p].isActive && products[p].category == category
    ensures r <= ActiveProducts(products)
  {
    set p | p in products && products[p].isActive && products[p].category == category
  }

  /** `get_low_stock_products`: the active products whose stock is below the threshold (10 unless given). */
  function LowStockProducts(products: map<ProductId, Product>, threshold: int := DefaultLowStockThreshold)
    : (r: set<ProductId>)
    ensures forall p :: p in r <==> p in products && products[p].isActive && products[p].quantity < threshold
    ensures r <= ActiveProducts(products)
  {
    set p | p in products && products[p].isActive && products[p].quantity < threshold
  }

  /** `get_orders_by_customer`, without its ordering by date. */
  function OrdersByCustomer(orders: map<OrderId, Order>, customer: CustomerId): (r: set<OrderId>)
    ensures forall o :: o in r <==> o in orders && orders[o].customer == customer
    ensures r <= orders.Keys
  {
    set o | o in orders && orders[o].customer == customer
  }

  /** `get_orders_by_status`, without its ordering by date. */
  function OrdersByStatus(orders: map<OrderId, Order>, status: string): (r: set<OrderId>)
    ensures forall o :: o in r <==> o in orders && orders[o].status == status
    ensures r <= orders.Keys
  {
    set o | o in orders && orders[o].status == status
  }

  /**
   * The category listings split the active products: two different categories list no
   * product in common, and every active product is listed under its own category.
   */
  lemma CategoryListingsPartition(products: map<ProductId, Product>, c1: string, c2: string)
    ensures c1 != c2 ==> ProductsByCategory(products, c1) * ProductsByCategory(products, c2) == {}
    ensures forall p :: p in ActiveProducts(products) ==> p in ProductsByCategory(products, products[p].category)
  {
  }

  /** A higher threshold lists at least the same products; with no threshold given it is 10. */
  lemma LowStockMonotone(products: map<ProductId, Product>, low: int, high: int)
    requires low <= high
    ensures LowStockProducts(products, low) <= LowStockProducts(products, high)
    ensures LowStockProducts(products) == LowStockProducts(products, 10)
  {
  }

  /** A threshold at or below every active product's stock lists nothing. */
  lemma LowStockEmpty(products: map<ProductId, Product>, threshold: int)
    requires forall p :: p in products && products[p].isActive ==> threshold <= products[p].quantity
    ensures LowStockProducts(products, threshold) == {}
  {
  }

  /**
   * The status listings split the orders: two different statuses list no order in
   * common, and every order is listed under its own status.
   */
  lemma StatusListingsPartition(orders: map<OrderId, Order>, s1: string, s2: string)
    ensures s1 != s2 ==> OrdersByStatus(orders, s1) * OrdersByStatus(orders, s2) == {}
    ensures forall o :: o in orders ==> o in OrdersByStatus(orders, orders[o].status)
  {
  }

  /**
   * The customer listings split the orders: two customers share no order, and every
   * order is listed for the customer it belongs to.
   */
  lemma CustomerListingsPartition(orders: map<OrderId, Order>, c1: CustomerId, c2: CustomerId)
    ensures c1 != c2 ==> OrdersByCustomer(orders, c1) * OrdersByCustomer(orders, c2) == {}
    ensures forall o :: o in orders ==> o in OrdersByCustomer(orders, orders[o].customer)
  {
  }

  /** The counts `get_database_stats` reports. */
  datatype DatabaseStats = DatabaseStats(customers: nat, products: nat, activeProducts: nat, orders: nat, pendingOrders: nat)

  /**
   * `get_database_stats`: the number of customers, products, active products, orders and
   * `pending` orders; the active products are among the products, the pending orders
   * among the orders.
   */
  function GetDatabaseStats(t: Tables): (r: DatabaseStats)
    ensures r.customers == |t.customers| && r.products == |t.products| && r.orders == |t.orders|
    ensures r.activeProducts == |ActiveProducts(t.products)|
    ensures r.pendingOrders == |OrdersByStatus(t.orders, DefaultStatus)|
    ensures r.activeProducts <= r.products && r.pendingOrders <= r.orders
  {
    var active := ActiveProducts(t.products);
    var pending := OrdersByStatus(t.orders, DefaultStatus);
    SubsetCardinality(active, t.products.Keys);
    SubsetCardinality(pending, t.orders.Keys);
    assert |t.products| == |t.products.Keys| && |t.orders| == |t.orders.Keys|;
    DatabaseStats(|t.customers|, |t.products|, |active|, |t.orders|, |pending|)
  }

  // ---------------------------------------------------------------------------
  // The queries after a placement or a status update
  // ---------------------------------------------------------------------------

  /** A placement changes only stock: the category listings and the active products stay as they were. */
  lemma PlacementKeepsCatalogue(
    t: Tables, order: OrderId, customer: CustomerId, lines: seq<Line>, notes: string, category: string)
    ensures ProductsByCategory(Placed(t, order, customer, lines, notes).products, category)
         == ProductsByCategory(t.products, category)
    ensures ActiveProducts(Placed(t, order, customer, lines, notes).products) == ActiveProducts(t.products)
  {
    ReservedDrops(t.products, lines);
  }

  /**
   * A placement of non-negative quantities only adds to the low-stock listing, and a
   * requested product is listed afterwards exactly when it is active and its stock less
   * the line's quantity is below the threshold.
   */
  lemma LowStockAfterPlacement(
    t: Tables, order: OrderId, customer: CustomerId, lines: seq<Line>, notes: string, threshold: int)
    requires CanPlace(t, customer, lines)
    requires forall i :: 0 <= i < |lines| ==> lines[i].quantity >= 0
    ensures LowStockProducts(t.products, threshold)
         <= LowStockProducts(Placed(t, order, customer, lines, notes).products, threshold)
    ensures forall i :: 0 <= i < |lines| ==>
      (lines[i].product in LowStockProducts(Placed(t, order, customer, lines, notes).products, threshold)
       <==> t.products[lines[i].product].isActive && t.products[lines[i].product].quantity - lines[i].quantity < threshold)
  {
    PlacedStock(t, order, customer, lines, notes);
    var after := Placed(t, order, customer, lines, notes).products;
    forall p | p in LowStockProducts(t.products, threshold) ensures p in LowStockProducts(after, threshold) {
      if p in ProductIds(lines) {
        var i :| 0 <= i < |lines| && lines[i].product == p;
        assert after[p].quantity == t.products[p].quantity - lines[i].quantity;
      }
    }
  }

  /** The placed order is listed for its customer and among the pending orders; no other listing changes. */
  lemma PlacedOrderListed(
    t: Tables, order: OrderId, customer: CustomerId, lines: seq<Line>, notes: string, c: CustomerId, status: string)
    requires order !in t.orders
    ensures OrdersByCustomer(Placed(t, order, customer, lines, notes).orders, c)
         == OrdersByCustomer(t.orders, c) + (if c == customer then {order} else {})
    ensures OrdersByStatus(Placed(t, order, customer, lines, notes).orders, status)
         == OrdersByStatus(t.orders, status) + (if status == DefaultStatus then {order} else {})
  {
  }

  /** After a placement the statistics count one more order and one more pending order, and nothing else moves. */
  lemma StatsAfterPlacement(t: Tables, order: OrderId, customer: CustomerId, lines: seq<Line>, notes: string)
    requires order !in t.orders
    ensures GetDatabaseStats(Placed(t, order, customer, lines, notes))
         == GetDatabaseStats(t).(orders := GetDatabaseStats(t).orders + 1,
                                 pendingOrders := GetDatabaseStats(t).pendingOrders + 1)
  {
    PlacedCounts(t, order, customer, lines, notes);
  }

  lemma PlacedCounts(t: Tables, order: OrderId, customer: CustomerId, lines: seq<Line>, notes: string)
    requires order !in t.orders
    ensures var after := Placed(t, order, customer, lines, notes);
      && |after.customers| == |t.customers|
      && |after.products| == |t.products|
      && ActiveProducts(after.products) == ActiveProducts(t.products)
      && |after.orders| == |t.orders| + 1
      && |OrdersByStatus(after.orders, DefaultStatus)| == |OrdersByStatus(t.orders, DefaultStatus)| + 1
  {
    var after := Placed(t, order, customer, lines, notes);
    PlacementKeepsCatalogue(t, order, customer, lines, notes, DefaultCategory);
    PendingCount(t.orders, order, NewOrder(customer, notes).(totalAmount := Total(t.products, lines)));
    ReservedDrops(t.products, lines);
    KeysCardinality(after.products, t.products);
    KeysCardinality(after.orders, t.orders[order := after.orders[order]]);
  }

  /** Adding a fresh pending order adds one to the pending count. */
  lemma PendingCount(orders: map<OrderId, Order>, order: OrderId, o: Order)
    requires order !in orders && o.status == DefaultStatus
    ensures |OrdersByStatus(orders[order := o], DefaultStatus)| == |OrdersByStatus(orders, DefaultStatus)| + 1
  {
    assert OrdersByStatus(orders[order := o], DefaultStatus) == OrdersByStatus(orders, DefaultStatus) + {order};
  }

  lemma KeysCardinality<K, V>(a: map<K, V>, b: map<K, V>)
    requires a.Keys == b.Keys
    ensures |a| == |b|
  {
    assert |a| == |a.Keys| && |b| == |b.Keys|;
  }

  /**
   * `update_order_status` moves the order from the listing of its old status to the
   * listing of the new one; the other orders and the listings by customer stay as they were.
   */
  lemma StatusUpdateListed(orders: map<OrderId, Order>, order: OrderId, status: string, s: string, c: CustomerId)
    requires order in orders
    ensures OrdersByStatus(orders[order := orders[order].(status := status)], s)
         == if s == status then OrdersByStatus(orders, s) + {order} else OrdersByStatus(orders, s) - {order}
    ensures OrdersByCustomer(orders[order := orders[order].(status := status)], c) == OrdersByCustomer(orders, c)
  {
  }

  /** Updating a union at a key of its right operand updates that operand. */
  lemma UnionUpdate<K, V>(a: map<K, V>, b: map<K, V>, k: K, v: V)
    ensures (a + b)[k := v] == a + b[k := v]
  {
  }

  lemma {:induction false} SubsetCardinality<T>(a: set<T>, b: set<T>)
    requires a <= b
    ensures |a| <= |b|
  {
    if a != {} {
      var x :| x in a;
      SubsetCardinality(a - {x}, b - {x});
    }
  }
}
