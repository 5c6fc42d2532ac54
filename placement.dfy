/**
 * What `create_order` does to the tables, stated without the loop: when a request is
 * placeable, which order, lines, stock and total result, and the properties of that result.
 * The handler's imperative `CreateOrder` is proved to produce exactly this.
 */
module Placement {
  import opened Wrappers
  import opened Models

  /** One requested line: a product and a quantity, which may be any integer. */
  datatype Line = Line(product: ProductId, quantity: int)

  /** The products a request names. */
  function ProductIds(lines: seq<Line>): set<ProductId>
  {
    set j | 0 <= j < |lines| :: lines[j].product
  }

  /** No product is named twice. */
  ghost predicate Distinct(lines: seq<Line>)
  {
    forall i, j :: 0 <= i < j < |lines| ==> lines[i].product != lines[j].product
  }

  /**
   * A line for product `p` goes through: the stock covers it, and the line's quantity,
   * its line total and the reduced stock all fit their columns.
   */
  predicate LineFits(p: Product, quantity: int)
  {
    && quantity <= p.quantity
    && IsInt32(quantity)
    && FitsDecimal10(p.price * quantity)
    && IsInt32(p.quantity - quantity)
  }

  /** Every line names a known product and goes through, and no product is named twice. */
  ghost predicate Acceptable(products: map<ProductId, Product>, lines: seq<Line>)
  {
    && (forall i :: 0 <= i < |lines| ==>
          lines[i].product in products && LineFits(products[lines[i].product], lines[i].quantity))
    && Distinct(lines)
  }

  /** The total quantity a request asks of product `p`. */
  ghost function Requested(lines: seq<Line>, p: ProductId): int
    decreases |lines|
  {
    if lines == [] then 0
    else
      var last := lines[|lines| - 1];
      Requested(lines[..|lines| - 1], p) + (if last.product == p then last.quantity else 0)
  }

  /** The product table after each line's quantity is taken off its product's stock, in order. */
  ghost function Reserved(products: map<ProductId, Product>, lines: seq<Line>): map<ProductId, Product>
    decreases |lines|
  {
    if lines == [] then products
    else
      var before := Reserved(products, lines[..|lines| - 1]);
      var last := lines[|lines| - 1];
      if last.product in before
      then before[last.product := before[last.product].(quantity := before[last.product].quantity - last.quantity)]
      else before
  }

  /** The lines of order `order`, each with the unit price its product has in `products`. */
  ghost function LineItems(order: OrderId, products: map<ProductId, Product>, lines: seq<Line>): map<ItemKey, OrderItem>
    decreases |lines|
  {
    if lines == [] then map[]
    else
      var before := LineItems(order, products, lines[..|lines| - 1]);
      var last := lines[|lines| - 1];
      if last.product in products
      then before[(order, last.product) := Save(OrderItem(last.quantity, products[last.product].price, 0))]
      else before
  }

  /** The sum of unit price times quantity over the lines. */
  ghost function Total(products: map<ProductId, Product>, lines: seq<Line>): int
    decreases |lines|
  {
    if lines == [] then 0
    else
      var last := lines[|lines| - 1];
      Total(products, lines[..|lines| - 1])
        + (if last.product in products then products[last.product].price * last.quantity else 0)
  }

  /** The sum of the stored line totals of order `order` over the requested lines. */
  ghost function ItemsTotal(items: map<ItemKey, OrderItem>, order: OrderId, lines: seq<Line>): int
    decreases |lines|
  {
    if lines == [] then 0
    else
      var last := lines[|lines| - 1];
      ItemsTotal(items, order, lines[..|lines| - 1])
        + (if (order, last.product) in items then items[(order, last.product)].totalPrice else 0)
  }

  /** `create_order(customer, lines, notes)` succeeds exactly on these requests. */
  ghost predicate CanPlace(t: Tables, customer: CustomerId, lines: seq<Line>)
    ensures CanPlace(t, customer, lines) ==> customer in t.customers && ProductIds(lines) <= t.products.Keys
    ensures lines == [] ==> (CanPlace(t, customer, lines) <==> customer in t.customers)
  {
    && customer in t.customers
    && Acceptable(t.products, lines)
    && FitsDecimal12(Total(t.products, lines))
  }

  /** The tables after a successful `create_order` that was given the fresh id `order`. */
  ghost function Placed(t: Tables, order: OrderId, customer: CustomerId, lines: seq<Line>, notes: string): (r: Tables)
    ensures r.customers == t.customers && r.products.Keys == t.products.Keys
    ensures r.orders.Keys == t.orders.Keys + {order}
    ensures r.orders[order] == Order(customer, DefaultStatus, Total(t.products, lines), notes)
    ensures forall o :: o in t.orders && o != order ==> r.orders[o] == t.orders[o]
    ensures forall k :: k in t.items && k.0 != order ==> k in r.items && r.items[k] == t.items[k]
    ensures forall k :: k in r.items && k !in t.items ==> k.0 == order && k.1 in ProductIds(lines) && k.1 in t.products
  {
    ReservedDrops(t.products, lines);
    LineItemsKeys(order, t.products, lines);
    t.(orders := t.orders[order := NewOrder(customer, notes).(totalAmount := Total(t.products, lines))],
       products := Reserved(t.products, lines),
       items := t.items + LineItems(order, t.products, lines))
  }

  // ---------------------------------------------------------------------------
  // Requested quantities
  // ---------------------------------------------------------------------------

  lemma {:induction false} ProductIdsPrefix(lines: seq<Line>, k: nat)
    requires k < |lines|
    ensures ProductIds(lines[..k + 1]) == ProductIds(lines[..k]) + {lines[k].product}
  {
    var pre, ext := lines[..k], lines[..k + 1];
    assert ext == pre + [lines[k]];
    forall p | p in ProductIds(ext) ensures p in ProductIds(pre) + {lines[k].product} {
      var j :| 0 <= j < |ext| && ext[j].product == p;
      if j < k { assert pre[j] == ext[j]; }
    }
    forall p | p in ProductIds(pre) ensures p in ProductIds(ext) {
      var j :| 0 <= j < |pre| && pre[j].product == p;
      assert ext[j] == pre[j];
    }
    assert ext[k] == lines[k];
  }

  /** A product the request does not name is asked for nothing. */
  lemma {:induction false} RequestedOfUnnamed(lines: seq<Line>, p: ProductId)
    requires p !in ProductIds(lines)
    ensures Requested(lines, p) == 0
  {
    if lines != [] {
      var pre := lines[..|lines| - 1];
      assert lines[|lines| - 1].product in ProductIds(lines);
      forall q | q in ProductIds(pre) ensures q in ProductIds(lines) {
        var j :| 0 <= j < |pre| && pre[j].product == q;
        assert lines[j] == pre[j];
      }
      RequestedOfUnnamed(pre, p);
    }
  }

  /** In a request naming each product once, a named product is asked for its line's quantity. */
  lemma {:induction false} RequestedOfDistinct(lines: seq<Line>, i: nat)
    requires Distinct(lines) && i < |lines|
    ensures Requested(lines, lines[i].product) == lines[i].quantity
  {
    var n := |lines|;
    var pre := lines[..n - 1];
    assert Distinct(pre) by {
      forall a, b | 0 <= a < b < |pre| ensures pre[a].product != pre[b].product {
        assert pre[a] == lines[a] && pre[b] == lines[b];
      }
    }
    if i == n - 1 {
      forall j | 0 <= j < |pre| ensures pre[j].product != lines[i].product {
        assert pre[j] == lines[j];
      }
      RequestedOfUnnamed(pre, lines[i].product);
    } else {
      assert pre[i] == lines[i];
      RequestedOfDistinct(pre, i);
    }
  }

  // ---------------------------------------------------------------------------
  // Stock
  // ---------------------------------------------------------------------------

  /** Reserving takes each product's requested quantity off its stock and changes nothing else. */
  lemma {:induction false} ReservedDrops(products: map<ProductId, Product>, lines: seq<Line>)
    ensures Reserved(products, lines).Keys == products.Keys
    ensures forall p :: p in products ==>
      Reserved(products, lines)[p] == products[p].(quantity := products[p].quantity - Requested(lines, p))
  {
    if lines != [] {
      ReservedDrops(products, lines[..|lines| - 1]);
    }
  }

  /** On success, the stock of every requested product drops by exactly its line's quantity. */
  lemma PlacedStock(t: Tables, order: OrderId, customer: CustomerId, lines: seq<Line>, notes: string)
    requires CanPlace(t, customer, lines)
    ensures Placed(t, order, customer, lines, notes).products.Keys == t.products.Keys
    ensures forall i :: 0 <= i < |lines| ==>
      Placed(t, order, customer, lines, notes).products[lines[i].product]
        == t.products[lines[i].product].(quantity := t.products[lines[i].product].quantity - lines[i].quantity)
    ensures forall p :: p in t.products && p !in ProductIds(lines) ==>
      Placed(t, order, customer, lines, notes).products[p] == t.products[p]
  {
    ReservedDrops(t.products, lines);
    forall i | 0 <= i < |lines| ensures Requested(lines, lines[i].product) == lines[i].quantity {
      RequestedOfDistinct(lines, i);
    }
    forall p | p in t.products && p !in ProductIds(lines) ensures Requested(lines, p) == 0 {
      RequestedOfUnnamed(lines, p);
    }
  }

  /** Starting from non-negative stock, no product's stock is negative after a placement. */
  lemma PlacedStockNonNegative(t: Tables, order: OrderId, customer: CustomerId, lines: seq<Line>, notes: string)
    requires CanPlace(t, customer, lines)
    requires forall p :: p in t.products ==> t.products[p].quantity >= 0
    ensures forall p :: p in Placed(t, order, customer, lines, notes).products ==>
      Placed(t, order, customer, lines, notes).products[p].quantity >= 0
  {
    PlacedStock(t, order, customer, lines, notes);
    var after := Placed(t, order, customer, lines, notes).products;
    forall p | p in after ensures after[p].quantity >= 0 {
      if p in ProductIds(lines) {
        var i :| 0 <= i < |lines| && lines[i].product == p;
        assert LineFits(t.products[p], lines[i].quantity);
      }
    }
  }

  // ---------------------------------------------------------------------------
  // Lines and the order total
  // ---------------------------------------------------------------------------

  /** The keys of the created lines: one per named known product, all of order `order`. */
  lemma {:induction false} LineItemsKeys(order: OrderId, products: map<ProductId, Product>, lines: seq<Line>)
    ensures forall k :: k in LineItems(order, products, lines) ==>
      k.0 == order && k.1 in ProductIds(lines) && k.1 in products
    ensures forall p :: p in ProductIds(lines) && p in products ==> (order, p) in LineItems(order, products, lines)
  {
    if lines != [] {
      var pre := lines[..|lines| - 1];
      LineItemsKeys(order, products, pre);
      ProductIdsPrefix(lines, |lines| - 1);
      assert lines[..|lines|] == lines;
    }
  }

  /** In a request naming each product once, line i of the order is stored as requested. */
  lemma {:induction false} LineItemsAt(order: OrderId, products: map<ProductId, Product>, lines: seq<Line>, i: nat)
    requires Distinct(lines) && i < |lines| && lines[i].product in products
    ensures (order, lines[i].product) in LineItems(order, products, lines)
    ensures LineItems(order, products, lines)[(order, lines[i].product)]
         == OrderItem(lines[i].quantity, products[lines[i].product].price,
                      products[lines[i].product].price * lines[i].quantity)
  {
    var n := |lines|;
    var pre := lines[..n - 1];
    if i < n - 1 {
      assert pre[i] == lines[i];
      assert Distinct(pre) by {
        forall a, b | 0 <= a < b < |pre| ensures pre[a].product != pre[b].product {
          assert pre[a] == lines[a] && pre[b] == lines[b];
        }
      }
      LineItemsAt(order, products, pre, i);
      assert lines[n - 1].product != lines[i].product;
    }
  }

  /** A sum over lines whose stored totals are unit price times quantity equals `Total`. */
  lemma {:induction false} ItemsTotalIsTotal(
    items: map<ItemKey, OrderItem>, order: OrderId, products: map<ProductId, Product>, lines: seq<Line>)
    requires forall i :: 0 <= i < |lines| ==>
      && lines[i].product in products
      && (order, lines[i].product) in items
      && items[(order, lines[i].product)].totalPrice == products[lines[i].product].price * lines[i].quantity
    ensures ItemsTotal(items, order, lines) == Total(products, lines)
  {
    if lines != [] {
      var pre := lines[..|lines| - 1];
      forall i | 0 <= i < |pre|
        ensures pre[i].product in products && (order, pre[i].product) in items
        ensures items[(order, pre[i].product)].totalPrice == products[pre[i].product].price * pre[i].quantity
      {
        assert pre[i] == lines[i];
      }
      ItemsTotalIsTotal(items, order, products, pre);
    }
  }

  /**
   * On success, order `order` has one line per requested line, with the unit price its
   * product had and the line total the save rule gives, and the order's total is the sum
   * of those line totals.
   */
  lemma PlacedLinesAndTotal(t: Tables, order: OrderId, customer: CustomerId, lines: seq<Line>, notes: string)
    requires CanPlace(t, customer, lines)
    ensures var after := Placed(t, order, customer, lines, notes);
      && (forall i :: 0 <= i < |lines| ==>
            && (order, lines[i].product) in after.items
            && after.items[(order, lines[i].product)].quantity == lines[i].quantity
            && after.items[(order, lines[i].product)].unitPrice == t.products[lines[i].product].price
            && HasLineTotal(after.items[(order, lines[i].product)]))
      && after.orders[order].totalAmount == ItemsTotal(after.items, order, lines)
  {
    var after := Placed(t, order, customer, lines, notes);
    var created := LineItems(order, t.products, lines);
    forall i | 0 <= i < |lines|
      ensures (order, lines[i].product) in after.items
      ensures after.items[(order, lines[i].product)]
           == OrderItem(lines[i].quantity, t.products[lines[i].product].price,
                        t.products[lines[i].product].price * lines[i].quantity)
    {
      LineItemsAt(order, t.products, lines, i);
    }
    ItemsTotalIsTotal(after.items, order, t.products, lines);
  }

  // ---------------------------------------------------------------------------
  // The committed state is consistent
  // ---------------------------------------------------------------------------

  /** After reserving, every product row still fits its columns and SKUs stay unique. */
  lemma ReservedFits(products: map<ProductId, Product>, lines: seq<Line>)
    requires forall p :: p in products ==> ProductFits(products[p])
    requires UniqueSkus(products) && Acceptable(products, lines)
    ensures forall p :: p in Reserved(products, lines) ==> ProductFits(Reserved(products, lines)[p])
    ensures UniqueSkus(Reserved(products, lines))
  {
    var after := Reserved(products, lines);
    ReservedDrops(products, lines);
    forall p | p in after ensures ProductFits(after[p]) {
      if p in ProductIds(lines) {
        var i :| 0 <= i < |lines| && lines[i].product == p;
        RequestedOfDistinct(lines, i);
        assert LineFits(products[p], lines[i].quantity);
      } else {
        RequestedOfUnnamed(lines, p);
      }
    }
    forall a, b | a in after && b in after && a != b ensures after[a].sku != after[b].sku {
      assert after[a].sku == products[a].sku && after[b].sku == products[b].sku;
    }
  }

  /** The created lines refer to the new order and to known products, carry their line totals and fit their columns. */
  lemma LineItemsFit(order: OrderId, products: map<ProductId, Product>, lines: seq<Line>)
    requires forall p :: p in products ==> ProductFits(products[p])
    requires Acceptable(products, lines)
    ensures forall k :: k in LineItems(order, products, lines) ==>
      k.0 == order && k.1 in products
      && HasLineTotal(LineItems(order, products, lines)[k]) && ItemFits(LineItems(order, products, lines)[k])
  {
    var created := LineItems(order, products, lines);
    LineItemsKeys(order, products, lines);
    forall k | k in created ensures HasLineTotal(created[k]) && ItemFits(created[k]) {
      var i :| 0 <= i < |lines| && lines[i].product == k.1;
      LineItemsAt(order, products, lines, i);
      assert LineFits(products[k.1], lines[i].quantity);
    }
  }

  /** A placement with a fresh order id keeps every guarantee of the database. */
  lemma PlacedConsistent(t: Tables, order: OrderId, customer: CustomerId, lines: seq<Line>, notes: string)
    requires Consistent(t) && order !in t.orders
    requires CanPlace(t, customer, lines)
    ensures Consistent(Placed(t, order, customer, lines, notes))
  {
    ReservedFits(t.products, lines);
    PlacedItemsFit(t, order, customer, lines, notes);
  }

  /** After a placement every line, old or new, refers to existing rows, carries its line total and fits its columns. */
  lemma PlacedItemsFit(t: Tables, order: OrderId, customer: CustomerId, lines: seq<Line>, notes: string)
    requires Consistent(t) && order !in t.orders
    requires CanPlace(t, customer, lines)
    ensures var after := Placed(t, order, customer, lines, notes);
      forall k :: k in after.items ==>
        k.0 in after.orders && k.1 in after.products && HasLineTotal(after.items[k]) && ItemFits(after.items[k])
  {
    var after := Placed(t, order, customer, lines, notes);
    var created := LineItems(order, t.products, lines);
    ReservedDrops(t.products, lines);
    LineItemsFit(order, t.products, lines);
    forall k | k in after.items
      ensures k.0 in after.orders && k.1 in after.products && HasLineTotal(after.items[k]) && ItemFits(after.items[k])
    {
      if k in created {
        assert after.items[k] == created[k];
      } else {
        assert after.items[k] == t.items[k];
      }
    }
  }

  // ---------------------------------------------------------------------------
  // One line at a time: what the handler's loop checks
  // ---------------------------------------------------------------------------

  /** A product the earlier lines do not name still has its original row. */
  lemma ReservedUnnamed(products: map<ProductId, Product>, lines: seq<Line>, p: ProductId)
    requires p in products && p !in ProductIds(lines)
    ensures p in Reserved(products, lines) && Reserved(products, lines)[p] == products[p]
  {
    ReservedDrops(products, lines);
    RequestedOfUnnamed(lines, p);
  }

  /**
   * Line i extends an acceptable prefix exactly when its product is known, not named by
   * an earlier line, and the line goes through against the original row.
   */
  lemma {:induction false} AcceptableStep(products: map<ProductId, Product>, lines: seq<Line>, i: nat)
    requires i < |lines| && Acceptable(products, lines[..i])
    ensures Acceptable(products, lines[..i + 1]) <==>
      lines[i].product in products && lines[i].product !in ProductIds(lines[..i])
      && LineFits(products[lines[i].product], lines[i].quantity)
  {
    var pre, ext := lines[..i], lines[..i + 1];
    assert ext == pre + [lines[i]];
    assert ext[i] == lines[i];
  }

  /**
   * What line i of the handler's loop finds, the earlier lines having gone through: the
   * product is there iff it was; unless an earlier line named it, its row is the original
   * one; and a line for it already exists iff an earlier line named it.
   */
  lemma LoopView(t: Tables, order: OrderId, lines: seq<Line>, i: nat)
    requires forall k :: k in t.items ==> k.0 != order
    requires i < |lines|
    ensures var pre, p := lines[..i], lines[i].product;
      && (p in Reserved(t.products, pre) <==> p in t.products)
      && (p in t.products && p !in ProductIds(pre) ==> Reserved(t.products, pre)[p] == t.products[p])
      && ((order, p) in t.items + LineItems(order, t.products, pre) <==> p in t.products && p in ProductIds(pre))
  {
    var pre, p := lines[..i], lines[i].product;
    ReservedDrops(t.products, pre);
    LineItemsKeys(order, t.products, pre);
    if p in t.products && p !in ProductIds(pre) {
      ReservedUnnamed(t.products, pre, p);
    }
  }

  /** A line that does not go through against the original row makes the whole request fail. */
  lemma LineRejected(t: Tables, lines: seq<Line>, i: nat)
    requires i < |lines| && Acceptable(t.products, lines[..i])
    requires !(lines[i].product in t.products && lines[i].product !in ProductIds(lines[..i])
               && LineFits(t.products[lines[i].product], lines[i].quantity))
    ensures !Acceptable(t.products, lines)
  {
    AcceptableStep(t.products, lines, i);
    AcceptablePrefix(t.products, lines, i + 1);
  }

  /** A line that goes through extends the prefix's stock, lines and total by one step. */
  lemma LineAccepted(t: Tables, order: OrderId, lines: seq<Line>, i: nat)
    requires i < |lines| && Acceptable(t.products, lines[..i])
    requires lines[i].product in t.products && lines[i].product !in ProductIds(lines[..i])
    requires LineFits(t.products[lines[i].product], lines[i].quantity)
    ensures var pre, ext, p, q := lines[..i], lines[..i + 1], lines[i].product, lines[i].quantity;
      && Acceptable(t.products, ext)
      && p in Reserved(t.products, pre) && Reserved(t.products, pre)[p] == t.products[p]
      && Reserved(t.products, ext)
           == Reserved(t.products, pre)[p := Reserved(t.products, pre)[p].(quantity := Reserved(t.products, pre)[p].quantity - q)]
      && LineItems(order, t.products, ext)
           == LineItems(order, t.products, pre)[(order, p) := OrderItem(q, t.products[p].price, t.products[p].price * q)]
      && Total(t.products, ext) == Total(t.products, pre) + t.products[p].price * q
  {
    AcceptableStep(t.products, lines, i);
    ReservedDrops(t.products, lines[..i]);
    ReservedUnnamed(t.products, lines[..i], lines[i].product);
    assert lines[..i + 1][..i] == lines[..i];
  }

  /** A request is acceptable only if each of its prefixes is. */
  lemma AcceptablePrefix(products: map<ProductId, Product>, lines: seq<Line>, k: nat)
    requires k <= |lines|
    ensures Acceptable(products, lines) ==> Acceptable(products, lines[..k])
  {
    var pre := lines[..k];
    forall i | 0 <= i < |pre| ensures pre[i] == lines[i] { }
  }

  // ---------------------------------------------------------------------------
  // The declared validators
  // ---------------------------------------------------------------------------

  /** With non-negative prices, a request of non-negative quantities totals at least zero. */
  lemma {:induction false} TotalNonNegative(products: map<ProductId, Product>, lines: seq<Line>)
    requires forall p :: p in products ==> products[p].price >= 0
    requires forall i :: 0 <= i < |lines| ==> lines[i].quantity >= 0
    ensures Total(products, lines) >= 0
  {
    if lines != [] {
      var pre := lines[..|lines| - 1];
      forall i | 0 <= i < |pre| ensures pre[i].quantity >= 0 {
        assert pre[i] == lines[i];
      }
      TotalNonNegative(products, pre);
      var last := lines[|lines| - 1];
      if last.product in products {
        assert products[last.product].price * last.quantity >= 0;
      }
    }
  }

  /**
   * The handler never runs the declared validators, but when the products satisfy them
   * and every line asks for at least one unit, the placement keeps them: stock and prices
   * stay non-negative, every new line has a quantity of at least one, and the order total
   * is not negative.
   */
  lemma PlacedKeepsValidators(t: Tables, order: OrderId, customer: CustomerId, lines: seq<Line>, notes: string)
    requires CanPlace(t, customer, lines)
    requires forall p :: p in t.products ==> ProductPassesValidators(t.products[p])
    requires forall i :: 0 <= i < |lines| ==> lines[i].quantity >= 1
    ensures var after := Placed(t, order, customer, lines, notes);
      && (forall p :: p in after.products ==> ProductPassesValidators(after.products[p]))
      && (forall i :: 0 <= i < |lines| ==>
            (order, lines[i].product) in after.items
            && ItemPassesValidators(after.items[(order, lines[i].product)]))
      && after.orders[order].totalAmount >= 0
  {
    var after := Placed(t, order, customer, lines, notes);
    PlacedStockNonNegative(t, order, customer, lines, notes);
    PlacedStock(t, order, customer, lines, notes);
    PlacedLinesAndTotal(t, order, customer, lines, notes);
    forall p | p in after.products ensures ProductPassesValidators(after.products[p]) {
      assert after.products[p].price == t.products[p].price by {
        ReservedDrops(t.products, lines);
      }
    }
    TotalNonNegative(t.products, lines);
  }

  /**
   * A line with a negative quantity is not refused: it is stored as requested and puts
   * stock back, and it lowers the order's total.
   */
  lemma NegativeQuantityRestocks(t: Tables, order: OrderId, customer: CustomerId, p: ProductId, q: int, notes: string)
    requires customer in t.customers && p in t.products
    requires q < 0 && q <= t.products[p].quantity && t.products[p].price > 0
    requires IsInt32(q) && IsInt32(t.products[p].quantity - q)
    requires FitsDecimal10(t.products[p].price * q) && FitsDecimal12(t.products[p].price * q)
    ensures CanPlace(t, customer, [Line(p, q)])
    ensures p in Placed(t, order, customer, [Line(p, q)], notes).products
    ensures Placed(t, order, customer, [Line(p, q)], notes).products[p].quantity > t.products[p].quantity
    ensures (order, p) in Placed(t, order, customer, [Line(p, q)], notes).items
    ensures Placed(t, order, customer, [Line(p, q)], notes).items[(order, p)].quantity == q
    ensures Placed(t, order, customer, [Line(p, q)], notes).orders[order].totalAmount < 0
  {
    var lines := [Line(p, q)];
    var price := t.products[p].price;
    assert price * q < 0;
    assert LineFits(t.products[p], q);
    assert lines[..0] == [];
    assert Total(t.products, lines) == price * q;
    PlacedStock(t, order, customer, lines, notes);
    PlacedLinesAndTotal(t, order, customer, lines, notes);
  }

  /** Returning three units of a 1.00 product with stock 5: the stock becomes 8 and the total -3.00. */
  lemma NegativeQuantityExample()
    ensures var t := Tables(map[0 := Customer("A", "B", "a@b", "", "")],
                            map[1 := Product("P", "", "other", 100, 5, "S", true)], map[], map[]);
      && CanPlace(t, 0, [Line(1, -3)])
      && Placed(t, 7, 0, [Line(1, -3)], "").products[1].quantity == 8
      && Placed(t, 7, 0, [Line(1, -3)], "").orders[7].totalAmount == -300
  {
    var t := Tables(map[0 := Customer("A", "B", "a@b", "", "")],
                    map[1 := Product("P", "", "other", 100, 5, "S", true)], map[], map[]);
    NegativeQuantityRestocks(t, 7, 0, 1, -3, "");
    PlacedStock(t, 7, 0, [Line(1, -3)], "");
    assert [Line(1, -3)][..0] == [];
  }

  /**
   * Two lines against stock of 10 and 15 at 50,000.00 and 30,000.00: the order totals
   * 190,000.00, the stock drops to 8 and 12, and each line carries its line total.
   */
  lemma TwoLineOrder(t: Tables, order: OrderId, customer: CustomerId, a: ProductId, b: ProductId, notes: string)
    requires customer in t.customers && a in t.products && b in t.products && a != b
    requires t.products[a].price == 5_000_000 && t.products[a].quantity == 10
    requires t.products[b].price == 3_000_000 && t.products[b].quantity == 15
    ensures CanPlace(t, customer, [Line(a, 2), Line(b, 3)])
    ensures var after := Placed(t, order, customer, [Line(a, 2), Line(b, 3)], notes);
      && after.orders[order] == Order(customer, "pending", 19_000_000, notes)
      && a in after.products && after.products[a].quantity == 8
      && b in after.products && after.products[b].quantity == 12
      && (order, a) in after.items && after.items[(order, a)] == OrderItem(2, 5_000_000, 10_000_000)
      && (order, b) in after.items && after.items[(order, b)] == OrderItem(3, 3_000_000, 9_000_000)
  {
    var lines := [Line(a, 2), Line(b, 3)];
    assert lines[..1] == [Line(a, 2)] && lines[..1][..0] == [];
    assert Distinct(lines);
    assert Total(t.products, lines[..1]) == 10_000_000;
    assert Total(t.products, lines) == 19_000_000;
    var after := Placed(t, order, customer, lines, notes);
    PlacedStock(t, order, customer, lines, notes);
    assert lines[0].product == a && lines[1].product == b;
    LineItemsAt(order, t.products, lines, 0);
    LineItemsAt(order, t.products, lines, 1);
  }

  // ---------------------------------------------------------------------------
  // Requests that fail, and the empty request
  // ---------------------------------------------------------------------------

  /**
   * Each of these makes `create_order` fail: an unknown customer, an unknown product in
   * any line, a line asking for more than the stock, a product named twice.
   */
  lemma Rejected(t: Tables, customer: CustomerId, lines: seq<Line>)
    ensures customer !in t.customers ==> !CanPlace(t, customer, lines)
    ensures (exists i :: 0 <= i < |lines| && lines[i].product !in t.products) ==> !CanPlace(t, customer, lines)
    ensures (exists i :: 0 <= i < |lines| && lines[i].product in t.products
              && t.products[lines[i].product].quantity < lines[i].quantity) ==> !CanPlace(t, customer, lines)
    ensures (exists i, j :: 0 <= i < j < |lines| && lines[i].product == lines[j].product)
            ==> !CanPlace(t, customer, lines)
  {
  }

  /** An empty request for a known customer succeeds with a pending, zero-total order and no lines. */
  lemma EmptyRequest(t: Tables, order: OrderId, customer: CustomerId, notes: string)
    requires customer in t.customers
    ensures CanPlace(t, customer, [])
    ensures Placed(t, order, customer, [], notes) == t.(orders := t.orders[order := Order(customer, "pending", 0, notes)])
  {
    assert t.items + map[] == t.items;
  }
}
