/**
 * The relational schema of `database/models.py`: the customer, product, order and
 * order-line records, their defaults, the column types that bound what a row can
 * hold, the line-total rule of `OrderItem.save`, the one-line-per-(order, product)
 * rule, and the PROTECT / CASCADE rules that govern deletion.
 *
 * Money is kept in integer cents, which is exact for `DecimalField(decimal_places=2)`.
 */
module Models {
  import opened Wrappers

  type CustomerId = nat
  type ProductId = nat
  type OrderId = nat

  /** A customer row; `email` is declared unique. */
  datatype Customer = Customer(firstName: string, lastName: string, email: string, phone: string, address: string)

  /** A product row; `price` is in cents, `sku` is declared unique. */
  datatype Product = Product(
    name: string, description: string, category: string,
    price: int, quantity: int, sku: string, isActive: bool)

  /** An order row; `totalAmount` is in cents. */
  datatype Order = Order(customer: CustomerId, status: string, totalAmount: int, notes: string)

  /** An order line. It is stored under its (order, product) pair, so that pair is its identity. */
  datatype OrderItem = OrderItem(quantity: int, unitPrice: int, totalPrice: int)

  type ItemKey = (OrderId, ProductId)

  /** The four tables, each keyed by its primary key. */
  datatype Tables = Tables(
    customers: map<CustomerId, Customer>,
    products: map<ProductId, Product>,
    orders: map<OrderId, Order>,
    items: map<ItemKey, OrderItem>)

  // ---------------------------------------------------------------------------
  // Choices and defaults
  // ---------------------------------------------------------------------------

  /** `Order.STATUS_CHOICES`, in declaration order; the first one is the default. */
  const StatusChoices: seq<string> := ["pending", "processing", "shipped", "delivered", "cancelled"]

  /** `Product.CATEGORY_CHOICES`, in declaration order. */
  const CategoryChoices: seq<string> := ["electronics", "clothing", "books", "food", "other"]

  const DefaultStatus: string := "pending"
  const DefaultCategory: string := "other"

  /**
   * The keyword arguments `Product.objects.create` is given. A field left out is `None`
   * here; a text field left out is the empty string, as Django fills it in.
   */
  datatype ProductInput = ProductInput(
    name: string, description: string, category: Option<string>,
    price: Option<int>, quantity: Option<int>, sku: string, isActive: Option<bool>)

  /**
   * The row `Product.objects.create` tries to insert, with the declared defaults filled in.
   * `price` has no default and its column is NOT NULL, so leaving it out fails the insert.
   */
  function NewProduct(input: ProductInput): (r: Option<Product>)
    ensures r.Some? <==> input.price.Some?
    ensures r.Some? ==>
      && r.value.name == input.name && r.value.description == input.description
      && r.value.sku == input.sku && r.value.price == input.price.value
    ensures r.Some? ==> r.value.category == (if input.category.Some? then input.category.value else DefaultCategory)
    ensures r.Some? ==> r.value.quantity == (if input.quantity.Some? then input.quantity.value else 0)
    ensures r.Some? ==> r.value.isActive == (input.isActive.None? || input.isActive.value)
  {
    match input.price
    case None => None
    case Some(price) =>
      Some(Product(
        input.name, input.description,
        if input.category.Some? then input.category.value else DefaultCategory,
        price,
        if input.quantity.Some? then input.quantity.value else 0,
        input.sku,
        if input.isActive.Some? then input.isActive.value else true))
  }

  /** The row `Order.objects.create(customer=..., notes=...)` inserts. */
  function NewOrder(customer: CustomerId, notes: string): (r: Order)
    ensures r.customer == customer && r.notes == notes && r.totalAmount == 0
    ensures r.status == DefaultStatus && r.status in StatusChoices
  {
    Order(customer, DefaultStatus, 0, notes)
  }

  lemma Defaults(c: CustomerId, notes: string, name: string, description: string, price: int, sku: string)
    ensures NewOrder(c, notes) == Order(c, "pending", 0, notes)
    ensures NewOrder(c, notes).status == StatusChoices[0]
    ensures NewProduct(ProductInput(name, description, None, Some(price), None, sku, None))
         == Some(Product(name, description, "other", price, 0, sku, true))
    ensures NewProduct(ProductInput(name, description, None, None, None, sku, None)) == None
  {
  }

  // ---------------------------------------------------------------------------
  // Column types
  // ---------------------------------------------------------------------------

  const Int32Min: int := -0x8000_0000
  const Int32Max: int := 0x7fff_ffff

  /** An `IntegerField` column holds a signed 32-bit integer. */
  predicate IsInt32(n: int) { Int32Min <= n <= Int32Max }

  /** `DecimalField(max_digits=10, decimal_places=2)`: at most ten digits, so fewer than 10^10 cents. */
  predicate FitsDecimal10(cents: int) { -10_000_000_000 < cents < 10_000_000_000 }

  /** `DecimalField(max_digits=12, decimal_places=2)`: fewer than 10^12 cents. */
  predicate FitsDecimal12(cents: int) { -1_000_000_000_000 < cents < 1_000_000_000_000 }

  predicate ProductFits(p: Product) { FitsDecimal10(p.price) && IsInt32(p.quantity) }
  predicate ItemFits(i: OrderItem) { IsInt32(i.quantity) && FitsDecimal10(i.unitPrice) && FitsDecimal10(i.totalPrice) }
  predicate OrderFits(o: Order) { FitsDecimal12(o.totalAmount) }

  // ---------------------------------------------------------------------------
  // Declared validators. `objects.create` and `save` do not run them, so the
  // stored rows need not satisfy them; they state what the schema means to allow.
  // ---------------------------------------------------------------------------

  /** `MinValueValidator(0)` on `Product.price` and on `Product.quantity`. */
  predicate ProductPassesValidators(p: Product) { p.price >= 0 && p.quantity >= 0 }

  /** `MinValueValidator(1)` on `OrderItem.quantity`. */
  predicate ItemPassesValidators(i: OrderItem) { i.quantity >= 1 }

  predicate IsDeclaredStatus(s: string) { s in StatusChoices }
  predicate IsDeclaredCategory(c: string) { c in CategoryChoices }

  /**
   * The defaults are declared choices, but nothing stops another text: a product row
   * with an undeclared category is built like any other.
   */
  lemma ChoicesNotEnforced(name: string, description: string, price: int, sku: string)
    ensures IsDeclaredStatus(DefaultStatus) && IsDeclaredCategory(DefaultCategory)
    ensures !IsDeclaredCategory("toys") && !IsDeclaredStatus("refunded")
    ensures NewProduct(ProductInput(name, description, Some("toys"), Some(price), None, sku, None)).Some?
    ensures NewProduct(ProductInput(name, description, Some("toys"), Some(price), None, sku, None)).value.category == "toys"
  {
    assert StatusChoices[0] == DefaultStatus && CategoryChoices[4] == DefaultCategory;
  }

  // ---------------------------------------------------------------------------
  // The line-total rule and the insertion of a line
  // ---------------------------------------------------------------------------

  /** The rule `OrderItem.save` maintains: the line total is unit price times quantity. */
  predicate HasLineTotal(i: OrderItem) { i.totalPrice == i.unitPrice * i.quantity }

  /**
   * `OrderItem.save`: whatever `totalPrice` held before, it is recomputed from the
   * unit price and the quantity; nothing else changes.
   */
  function Save(item: OrderItem): (r: OrderItem)
    ensures HasLineTotal(r)
    ensures r.quantity == item.quantity && r.unitPrice == item.unitPrice
  {
    item.(totalPrice := item.unitPrice * item.quantity)
  }

  /**
   * `OrderItem.objects.create`: `save` fills in the line total, then the row is inserted.
   * The insert is refused when a line for the same (order, product) pair exists
   * (`unique_together`) or when a value does not fit its column.
   */
  function InsertItem(items: map<ItemKey, OrderItem>, order: OrderId, product: ProductId, item: OrderItem)
    : (r: Option<map<ItemKey, OrderItem>>)
    ensures (order, product) in items ==> r.None?
    ensures r.Some? <==>
      (order, product) !in items && IsInt32(item.quantity) && FitsDecimal10(item.unitPrice)
      && FitsDecimal10(item.unitPrice * item.quantity)
    ensures r.Some? ==>
      r.value == items[(order, product) := OrderItem(item.quantity, item.unitPrice, item.unitPrice * item.quantity)]
  {
    var saved := Save(item);
    if (order, product) in items || !ItemFits(saved) then None
    else Some(items[(order, product) := saved])
  }

  // ---------------------------------------------------------------------------
  // What every committed state satisfies
  // ---------------------------------------------------------------------------

  predicate EmailTaken(customers: map<CustomerId, Customer>, email: string)
  {
    exists id :: id in customers && customers[id].email == email
  }

  predicate SkuTaken(products: map<ProductId, Product>, sku: string)
  {
    exists id :: id in products && products[id].sku == sku
  }

  ghost predicate UniqueEmails(customers: map<CustomerId, Customer>)
  {
    forall a, b :: a in customers && b in customers && a != b ==> customers[a].email != customers[b].email
  }

  ghost predicate UniqueSkus(products: map<ProductId, Product>)
  {
    forall a, b :: a in products && b in products && a != b ==> products[a].sku != products[b].sku
  }

  /**
   * The database's own guarantees: foreign keys point at existing rows, every line
   * carries its line total, every value fits its column, and email and SKU are unique.
   */
  ghost predicate Consistent(t: Tables)
  {
    && (forall o :: o in t.orders ==> t.orders[o].customer in t.customers && OrderFits(t.orders[o]))
    && (forall k :: k in t.items ==>
          k.0 in t.orders && k.1 in t.products && HasLineTotal(t.items[k]) && ItemFits(t.items[k]))
    && (forall p :: p in t.products ==> ProductFits(t.products[p]))
    && UniqueEmails(t.customers)
    && UniqueSkus(t.products)
  }

  // ---------------------------------------------------------------------------
  // Deletion: Order.customer and OrderItem.product are PROTECT, OrderItem.order is CASCADE
  // ---------------------------------------------------------------------------

  /** Deleting a customer is refused while any order refers to it. */
  function DeleteCustomer(t: Tables, c: CustomerId): (r: Option<Tables>)
    ensures r.None? <==> exists o :: o in t.orders && t.orders[o].customer == c
    ensures r.Some? ==> r.value.customers == t.customers - {c}
    ensures r.Some? ==> r.value.(customers := t.customers) == t
    ensures r.Some? && Consistent(t) ==> Consistent(r.value)
  {
    if exists o :: o in t.orders && t.orders[o].customer == c then None
    else Some(t.(customers := t.customers - {c}))
  }

  /** Deleting a product is refused while any order line refers to it. */
  function DeleteProduct(t: Tables, p: ProductId): (r: Option<Tables>)
    ensures r.None? <==> exists k :: k in t.items && k.1 == p
    ensures r.Some? ==> r.value.products == t.products - {p}
    ensures r.Some? ==> r.value.(products := t.products) == t
    ensures r.Some? && Consistent(t) ==> Consistent(r.value)
  {
    if exists k :: k in t.items && k.1 == p then None
    else Some(t.(products := t.products - {p}))
  }

  /** Deleting an order always succeeds and removes its lines with it. */
  function DeleteOrder(t: Tables, o: OrderId): (r: Tables)
    ensures r.orders == t.orders - {o}
    ensures forall k :: k in r.items <==> k in t.items && k.0 != o
    ensures forall k :: k in r.items ==> r.items[k] == t.items[k]
    ensures r.customers == t.customers && r.products == t.products
    ensures Consistent(t) ==> Consistent(r)
  {
    t.(orders := t.orders - {o}, items := map k | k in t.items && k.0 != o :: t.items[k])
  }
}
