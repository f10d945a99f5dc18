/**
 * The order endpoints: `checkout`, which turns a list of (product, quantity)
 * lines into an order inside one transaction, and `index`, the user's order
 * history. Checkout is specified by a ghost function over the tables; the
 * method runs the controller's two loops on a `Database` and is proved to
 * agree with it.
 */
module OrderController {

  import opened Wrappers
  import opened Schema

  /** The requesting user's profile columns that checkout copies onto the order. */
  datatype User = User(id: UserId, address: Option<string>, phone: Option<string>)

  /** One element of the request's `items` list. */
  datatype LineRequest = LineRequest(product: ProductId, quantity: int)

  datatype CheckoutRequest = CheckoutRequest(items: seq<LineRequest>, paymentMethod: string)

  /** An order of the history together with its line items. */
  datatype OrderWithItems = OrderWithItems(order: Order, items: map<OrderItemId, OrderItem>)

  /** PHP's `$value ?? ''`. */
  function OrEmpty(s: Option<string>): (r: string)
    ensures s.Some? ==> r == s.value
    ensures s.None? ==> r == ""
  {
    match s
    case Some(v) => v
    case None => ""
  }

  predicate ProductsExist(products: map<ProductId, Product>, items: seq<LineRequest>) {
    forall k :: 0 <= k < |items| ==> items[k].product in products
  }

  /**
   * The `validate` rules of `checkout`: `items` is a non-empty list (the
   * `required` rule refuses an empty one), every line names an existing
   * product and a quantity of at least 1, and the payment method is one of
   * the three column values.
   */
  predicate RequestValid(products: map<ProductId, Product>, req: CheckoutRequest) {
    && |req.items| > 0
    && ProductsExist(products, req.items)
    && (forall k :: 0 <= k < |req.items| ==> req.items[k].quantity >= 1)
    && ParsePaymentMethod(req.paymentMethod).Some?
  }

  /** Sum of price × quantity over the request lines, with the server's prices, duplicates included. */
  function LinesTotal(products: map<ProductId, Product>, items: seq<LineRequest>): int
    requires ProductsExist(products, items)
  {
    if |items| == 0 then 0
    else
      var last := items[|items| - 1];
      LinesTotal(products, items[..|items| - 1]) + products[last.product].price * last.quantity
  }

  /** Sum of price × quantity over order items. */
  function OrderTotal(lines: seq<OrderItem>): int {
    if |lines| == 0 then 0
    else OrderTotal(lines[..|lines| - 1]) + lines[|lines| - 1].price * lines[|lines| - 1].quantity
  }

  /** The order items checkout writes: one per request line, with the product's current price. */
  function Lines(order: OrderId, products: map<ProductId, Product>, items: seq<LineRequest>): (lines: seq<OrderItem>)
    requires ProductsExist(products, items)
    ensures |lines| == |items|
    ensures forall k :: 0 <= k < |items| ==>
      lines[k] == OrderItem(order, items[k].product, items[k].quantity, products[items[k].product].price)
  {
    seq(|items|, k requires 0 <= k < |items| =>
      OrderItem(order, items[k].product, items[k].quantity, products[items[k].product].price))
  }

  /** Rows with consecutive auto-increment ids from `start`, one per line, in order. */
  function Numbered(start: OrderItemId, lines: seq<OrderItem>): (m: map<OrderItemId, OrderItem>)
    ensures forall k :: k in m <==> start <= k < start + |lines|
    ensures forall k :: k in m ==> m[k] == lines[k - start]
  {
    if |lines| == 0 then map[]
    else Numbered(start, lines[..|lines| - 1])[start + |lines| - 1 := lines[|lines| - 1]]
  }

  function ProductIds(items: seq<LineRequest>): (ids: set<ProductId>)
    ensures forall p :: p in ids <==> exists k :: 0 <= k < |items| && items[k].product == p
  {
    set k | 0 <= k < |items| :: items[k].product
  }

  /** `CartItem::where('cart_id', c)->where('product_id', p)->delete()` for every `p` in `ids`. */
  function ClearLines(items: map<CartItemId, CartItem>, c: CartId, ids: set<ProductId>): (r: map<CartItemId, CartItem>)
    ensures forall i :: i in r <==> i in items && !(items[i].cart == c && items[i].product in ids)
    ensures forall i :: i in r ==> r[i] == items[i]
  {
    map i | i in items && !(items[i].cart == c && items[i].product in ids) :: items[i]
  }

  function NewOrder(user: User, total: int, paymentMethod: PaymentMethod): Order {
    Order(user.id, total, OrEmpty(user.address), OrEmpty(user.phone),
          OrderStatus.Pending, paymentMethod, PaymentStatus.PaymentPending)
  }

  /** The order a valid checkout request writes. */
  function PlacedOrder(t: Tables, user: User, req: CheckoutRequest): Order
    requires RequestValid(t.products, req)
  {
    NewOrder(user, LinesTotal(t.products, req.items), ParsePaymentMethod(req.paymentMethod).value)
  }

  /** The tables after a committed checkout. */
  ghost function Placed(t: Tables, user: User, req: CheckoutRequest): Tables
    requires RequestValid(t.products, req) && HasCart(t, user.id)
  {
    var lines := Lines(t.nextOrder, t.products, req.items);
    t.(orders := t.orders[t.nextOrder := PlacedOrder(t, user, req)],
       nextOrder := t.nextOrder + 1,
       orderItems := t.orderItems + Numbered(t.nextOrderItem, lines),
       nextOrderItem := t.nextOrderItem + |lines|,
       cartItems := ClearLines(t.cartItems, CartOf(t, user.id), ProductIds(req.items)))
  }

  /** OrderController::checkout. Every failure answers 500 and rolls back, so it leaves the tables as they were. */
  ghost function CheckoutSpec(t: Tables, user: User, req: CheckoutRequest): (Tables, Response<Order>)
    requires WellFormed(t)
  {
    if !RequestValid(t.products, req) || !HasCart(t, user.id) then (t, Error(500))
    else (Placed(t, user, req), Ok(201, PlacedOrder(t, user, req)))
  }

  // ---------------------------------------------------------------------------
  // The endpoints.
  // ---------------------------------------------------------------------------

  method Checkout(db: Database, user: User, req: CheckoutRequest) returns (r: Response<Order>)
    requires db.Valid()
    modifies db
    ensures db.Valid()
    ensures (db.State(), r) == CheckoutSpec(old(db.State()), user, req)
  {
    ghost var t := db.State();
    // A ValidationException ends in the generic handler.
    if !RequestValid(db.products, req) {
      return Error(500);
    }
    // DB::beginTransaction(). Nothing is written before the last point that
    // can throw, so the rollback has nothing to undo.
    if !(exists c :: c in db.carts && db.carts[c] == user.id) {
      return Error(500);
    }
    var cart :| cart in db.carts && db.carts[cart] == user.id;
    assert cart == CartOf(t, user.id);
    var paymentMethod := ParsePaymentMethod(req.paymentMethod).value;

    var total := SumLines(db.products, req.items);
    var order := NewOrder(user, total, paymentMethod);
    var orderId := db.nextOrder;
    db.orders := db.orders[orderId := order];
    db.nextOrder := db.nextOrder + 1;
    WriteOrderItems(db, orderId, cart, req.items);
    // DB::commit()
    r := Ok(201, order);
    assert order == PlacedOrder(t, user, req);
    assert db.State() == Placed(t, user, req);
    CheckoutCommits(t, user, req);
  }

  lemma CheckoutCommits(t: Tables, user: User, req: CheckoutRequest)
    requires WellFormed(t) && RequestValid(t.products, req) && HasCart(t, user.id)
    ensures CheckoutSpec(t, user, req) == (Placed(t, user, req), Ok(201, PlacedOrder(t, user, req)))
    ensures WellFormed(Placed(t, user, req))
  {
    CheckoutPreservesWellFormed(t, user, req);
  }

  /** The first loop of checkout: the total from the server's prices. */
  method SumLines(products: map<ProductId, Product>, items: seq<LineRequest>) returns (total: int)
    requires ProductsExist(products, items)
    ensures total == LinesTotal(products, items)
  {
    total := 0;
    var i := 0;
    while i < |items|
      invariant 0 <= i <= |items|
      invariant total == LinesTotal(products, items[..i])
    {
      // Product::find; its "not found" throw cannot fire once validation has passed.
      var line := items[i];
      total := total + products[line.product].price * line.quantity;
      assert items[..i + 1][..i] == items[..i];
      i := i + 1;
    }
    assert items[..i] == items;
  }

  /**
   * The second loop of checkout: for each line, an order item with the
   * product's current price, then the deletion of the cart's rows for that
   * product.
   */
  method WriteOrderItems(db: Database, orderId: OrderId, cart: CartId, items: seq<LineRequest>)
    requires ProductsExist(db.products, items)
    modifies db`orderItems, db`nextOrderItem, db`cartItems
    ensures db.orderItems == old(db.orderItems) + Numbered(old(db.nextOrderItem), Lines(orderId, db.products, items))
    ensures db.nextOrderItem == old(db.nextOrderItem) + |items|
    ensures db.cartItems == ClearLines(old(db.cartItems), cart, ProductIds(items))
  {
    ghost var lines := Lines(orderId, db.products, items);
    ghost var start, before := db.nextOrderItem, db.orderItems;
    var i := 0;
    while i < |items|
      invariant 0 <= i <= |items|
      invariant db.orderItems == before + Numbered(start, lines[..i])
      invariant db.nextOrderItem == start + i
      invariant db.cartItems == ClearLines(old(db.cartItems), cart, ProductIds(items[..i]))
    {
      WriteStep(before, start, orderId, db.products, items, old(db.cartItems), cart, i);
      WriteOrderItem(db, orderId, cart, items[i]);
      i := i + 1;
    }
    assert lines[..i] == lines;
    assert items[..i] == items;
  }

  /** One pass of the second loop: the order item for the line, then the deletion of the cart's rows for its product. */
  method WriteOrderItem(db: Database, orderId: OrderId, cart: CartId, line: LineRequest)
    requires line.product in db.products
    modifies db`orderItems, db`nextOrderItem, db`cartItems
    ensures db.orderItems == old(db.orderItems)[old(db.nextOrderItem) :=
      OrderItem(orderId, line.product, line.quantity, db.products[line.product].price)]
    ensures db.nextOrderItem == old(db.nextOrderItem) + 1
    ensures db.cartItems == ClearLines(old(db.cartItems), cart, {line.product})
  {
    var product := db.products[line.product];
    db.orderItems := db.orderItems[db.nextOrderItem := OrderItem(orderId, line.product, line.quantity, product.price)];
    db.nextOrderItem := db.nextOrderItem + 1;
    db.cartItems := ClearLines(db.cartItems, cart, {line.product});
  }

  /** OrderController::index: exactly the user's orders, each with exactly its items, in no particular order. */
  method Index(db: Database, user: UserId) returns (history: map<OrderId, OrderWithItems>)
    ensures forall o :: o in history <==> o in db.orders && db.orders[o].user == user
    ensures forall o :: o in history ==>
      && history[o].order == db.orders[o]
      && (forall k :: k in history[o].items <==> k in db.orderItems && db.orderItems[k].order == o)
      && (forall k :: k in history[o].items ==> history[o].items[k] == db.orderItems[k])
  {
    history := map o | o in db.orders && db.orders[o].user == user ::
      OrderWithItems(db.orders[o], map k | k in db.orderItems && db.orderItems[k].order == o :: db.orderItems[k]);
  }

  // ---------------------------------------------------------------------------
  // Steps of the loop proofs.
  // ---------------------------------------------------------------------------

  /** One pass of the second loop extends the written items and the cleared products by the next line. */
  lemma WriteStep(before: map<OrderItemId, OrderItem>, start: OrderItemId, orderId: OrderId,
                  products: map<ProductId, Product>, items: seq<LineRequest>,
                  cartItems: map<CartItemId, CartItem>, cart: CartId, i: nat)
    requires i < |items| && ProductsExist(products, items)
    ensures var lines := Lines(orderId, products, items);
      (before + Numbered(start, lines[..i]))[start + i :=
        OrderItem(orderId, items[i].product, items[i].quantity, products[items[i].product].price)]
      == before + Numbered(start, lines[..i + 1])
    ensures ClearLines(ClearLines(cartItems, cart, ProductIds(items[..i])), cart, {items[i].product})
      == ClearLines(cartItems, cart, ProductIds(items[..i + 1]))
  {
    var lines := Lines(orderId, products, items);
    assert lines[i] == OrderItem(orderId, items[i].product, items[i].quantity, products[items[i].product].price);
    OrderItemsStep(before, start, lines, i);
    ProductIdsStep(items, i);
    ClearLinesTwice(cartItems, cart, ProductIds(items[..i]), items[i].product);
  }

  lemma OrderItemsStep(before: map<OrderItemId, OrderItem>, start: OrderItemId, lines: seq<OrderItem>, i: nat)
    requires i < |lines|
    ensures (before + Numbered(start, lines[..i]))[start + i := lines[i]] == before + Numbered(start, lines[..i + 1])
  {
    assert lines[..i + 1][..i] == lines[..i];
  }

  lemma ProductIdsStep(items: seq<LineRequest>, i: nat)
    requires i < |items|
    ensures ProductIds(items[..i + 1]) == ProductIds(items[..i]) + {items[i].product}
  {
    var a, b := ProductIds(items[..i + 1]), ProductIds(items[..i]) + {items[i].product};
    forall p | p in a ensures p in b {
      var k :| 0 <= k < i + 1 && items[..i + 1][k].product == p;
      if k < i {
        assert items[..i][k].product == p;
      }
    }
    forall p | p in b ensures p in a {
      if p != items[i].product {
        var k :| 0 <= k < i && items[..i][k].product == p;
        assert items[..i + 1][k].product == p;
      } else {
        assert items[..i + 1][i].product == p;
      }
    }
  }

  lemma ClearLinesTwice(items: map<CartItemId, CartItem>, c: CartId, ids: set<ProductId>, p: ProductId)
    ensures ClearLines(ClearLines(items, c, ids), c, {p}) == ClearLines(items, c, ids + {p})
  {
    var a, b := ClearLines(ClearLines(items, c, ids), c, {p}), ClearLines(items, c, ids + {p});
    assert forall i :: i in a <==> i in b;
  }

  // ---------------------------------------------------------------------------
  // Properties of checkout.
  // ---------------------------------------------------------------------------

  lemma CheckoutPreservesWellFormed(t: Tables, user: User, req: CheckoutRequest)
    requires WellFormed(t)
    ensures WellFormed(CheckoutSpec(t, user, req).0)
  {
  }

  /**
   * Checkout fails exactly when validation fails or the user has no cart;
   * it then answers 500 and leaves every table as it was (the rollback).
   */
  lemma CheckoutRejected(t: Tables, user: User, req: CheckoutRequest)
    requires WellFormed(t)
    ensures var (t', r) := CheckoutSpec(t, user, req);
      && (r.Error? <==> !RequestValid(t.products, req) || !HasCart(t, user.id))
      && (r.Error? ==> t' == t && r.code == 500)
  {
  }

  /**
   * A committed checkout answers 201 with a new pending, unpaid order
   * carrying the requested payment method, the user's address and phone
   * (or '') and the total from the server's prices; it changes no product
   * (stock included) and no cart.
   */
  lemma CheckoutWritesOrder(t: Tables, user: User, req: CheckoutRequest)
    requires WellFormed(t) && RequestValid(t.products, req) && HasCart(t, user.id)
    ensures CheckoutSpec(t, user, req) == (Placed(t, user, req), Ok(201, PlacedOrder(t, user, req)))
    ensures var t', order := Placed(t, user, req), PlacedOrder(t, user, req);
      && t'.products == t.products
      && t'.carts == t.carts
      && t.nextOrder !in t.orders
      && t'.orders == t.orders[t.nextOrder := order]
      && order.user == user.id
      && order.status == OrderStatus.Pending
      && order.paymentStatus == PaymentStatus.PaymentPending
      && order.paymentMethod.Name() == req.paymentMethod
      && order.shippingAddress == OrEmpty(user.address)
      && order.shippingPhone == OrEmpty(user.phone)
      && order.total == LinesTotal(t.products, req.items)
  {
  }

  /**
   * A committed checkout writes exactly one order item per request line,
   * duplicates included, with fresh consecutive ids, the line's quantity and
   * the product's current price, and leaves the earlier order items alone.
   */
  lemma CheckoutWritesOrderItems(t: Tables, user: User, req: CheckoutRequest)
    requires WellFormed(t) && RequestValid(t.products, req) && HasCart(t, user.id)
    ensures var t' := Placed(t, user, req);
      && (forall k :: k in t'.orderItems <==> k in t.orderItems || t.nextOrderItem <= k < t.nextOrderItem + |req.items|)
      && (forall k :: k in t.orderItems ==> k < t.nextOrderItem && t'.orderItems[k] == t.orderItems[k])
      && (forall k :: 0 <= k < |req.items| ==>
            t'.orderItems[t.nextOrderItem + k]
              == OrderItem(t.nextOrder, req.items[k].product, req.items[k].quantity, t.products[req.items[k].product].price))
  {
    PlacedOrderItems(t, user, req);
  }

  lemma PlacedOrderItems(t: Tables, user: User, req: CheckoutRequest)
    requires WellFormed(t) && RequestValid(t.products, req) && HasCart(t, user.id)
    ensures var m, lines := Placed(t, user, req).orderItems, Lines(t.nextOrder, t.products, req.items);
      && (forall k :: k in m <==> k in t.orderItems || t.nextOrderItem <= k < t.nextOrderItem + |lines|)
      && (forall k :: k in t.orderItems ==> k < t.nextOrderItem && m[k] == t.orderItems[k])
      && (forall k :: 0 <= k < |lines| ==> m[t.nextOrderItem + k] == lines[k])
  {
    AppendNumbered(t.orderItems, t.nextOrderItem, Lines(t.nextOrder, t.products, req.items));
  }

  /** Numbered rows appended above every existing id keep the existing rows and add one row per line. */
  lemma AppendNumbered(before: map<OrderItemId, OrderItem>, start: OrderItemId, lines: seq<OrderItem>)
    requires forall k :: k in before ==> k < start
    ensures var m := before + Numbered(start, lines);
      && (forall k :: k in m <==> k in before || start <= k < start + |lines|)
      && (forall k :: k in before ==> m[k] == before[k])
      && (forall k :: 0 <= k < |lines| ==> m[start + k] == lines[k])
  {
    var added := Numbered(start, lines);
    forall k | 0 <= k < |lines| ensures (before + added)[start + k] == lines[k] {
      assert added[start + k] == lines[start + k - start];
    }
  }

  /**
   * A committed checkout deletes the user's cart rows for every requested
   * product, whatever quantity was ordered, and no other row.
   */
  lemma CheckoutClearsCart(t: Tables, user: User, req: CheckoutRequest)
    requires WellFormed(t) && RequestValid(t.products, req) && HasCart(t, user.id)
    ensures var t', c := Placed(t, user, req), CartOf(t, user.id);
      && (forall i :: i in t'.cartItems <==>
            i in t.cartItems &&
            !(t.cartItems[i].cart == c && exists k :: 0 <= k < |req.items| && req.items[k].product == t.cartItems[i].product))
      && (forall i :: i in t'.cartItems ==> t'.cartItems[i] == t.cartItems[i])
  {
  }

  /** The order's total equals the sum of price × quantity over the order items written with it. */
  lemma {:induction false} LinesTotalIsOrderTotal(order: OrderId, products: map<ProductId, Product>, items: seq<LineRequest>)
    requires ProductsExist(products, items)
    ensures LinesTotal(products, items) == OrderTotal(Lines(order, products, items))
  {
    if |items| > 0 {
      var init := items[..|items| - 1];
      LinesTotalIsOrderTotal(order, products, init);
      assert Lines(order, products, items)[..|items| - 1] == Lines(order, products, init);
    }
  }

  /** A store with three products and a cart holding one row of each. */
  function ExampleTables(user: User): Tables {
    Tables(
      map[1 := Product(100000, 5), 2 := Product(200000, 5), 3 := Product(50000, 5)],
      map[1 := user.id],
      map[1 := CartItem(1, 1, 2), 2 := CartItem(1, 2, 1), 3 := CartItem(1, 3, 4)],
      map[], map[], 2, 4, 1, 1)
  }

  function ExampleRequest(): CheckoutRequest {
    CheckoutRequest([LineRequest(1, 2), LineRequest(2, 1)], "cod")
  }

  lemma ExampleIsValid(user: User)
    ensures WellFormed(ExampleTables(user))
    ensures RequestValid(ExampleTables(user).products, ExampleRequest())
    ensures HasCart(ExampleTables(user), user.id) && CartOf(ExampleTables(user), user.id) == 1
    ensures ProductIds(ExampleRequest().items) == {1, 2}
    ensures LinesTotal(ExampleTables(user).products, ExampleRequest().items) == 400000
  {
    ExampleWellFormed(user);
    ExampleCartIsTheUsers(ExampleTables(user), user.id);
    ExampleProductIds();
    ExampleLinesTotal(user);
  }

  lemma ExampleWellFormed(user: User)
    ensures WellFormed(ExampleTables(user))
  {
    assert OneItemPerProduct(ExampleTables(user).cartItems);
  }

  lemma ExampleCartIsTheUsers(t: Tables, user: UserId)
    requires t.carts == map[1 := user]
    ensures HasCart(t, user) && CartOf(t, user) == 1
  {
    assert t.carts[1] == user;
  }

  lemma ExampleProductIds()
    ensures ProductIds(ExampleRequest().items) == {1, 2}
  {
    var items := ExampleRequest().items;
    assert items[0].product == 1 && items[1].product == 2;
  }

  lemma ExampleLinesTotal(user: User)
    ensures RequestValid(ExampleTables(user).products, ExampleRequest())
    ensures LinesTotal(ExampleTables(user).products, ExampleRequest().items) == 400000
  {
    var items := ExampleRequest().items;
    assert items[..1] == [LineRequest(1, 2)];
    assert items[..1][..0] == [];
  }

  lemma ExampleLines(user: User)
    ensures ProductsExist(ExampleTables(user).products, ExampleRequest().items)
    ensures Lines(1, ExampleTables(user).products, ExampleRequest().items)
      == [OrderItem(1, 1, 2, 100000), OrderItem(1, 2, 1, 200000)]
  {
  }

  lemma NumberedPair(a: OrderItem, b: OrderItem)
    ensures Numbered(1, [a, b]) == map[1 := a, 2 := b]
  {
    assert [a, b][..1] == [a];
    assert [a][..0] == [];
  }

  /** Lines for 2 units at 100000 and 1 unit at 200000 give a pending order of 400000. */
  lemma CheckoutExampleTotal(user: User)
    ensures WellFormed(ExampleTables(user))
    ensures CheckoutSpec(ExampleTables(user), user, ExampleRequest()).1 == Ok(201, NewOrder(user, 400000, Cod))
  {
    ExampleIsValid(user);
    CheckoutWritesOrder(ExampleTables(user), user, ExampleRequest());
  }

  /** The same checkout writes two order items priced as the products were. */
  lemma CheckoutExampleItems(user: User)
    ensures WellFormed(ExampleTables(user))
    ensures CheckoutSpec(ExampleTables(user), user, ExampleRequest()).0.orderItems
      == map[1 := OrderItem(1, 1, 2, 100000), 2 := OrderItem(1, 2, 1, 200000)]
  {
    ExampleIsValid(user);
    CheckoutWritesOrder(ExampleTables(user), user, ExampleRequest());
    ExampleLines(user);
    NumberedPair(OrderItem(1, 1, 2, 100000), OrderItem(1, 2, 1, 200000));
  }

  /**
   * The same checkout takes exactly the two ordered rows out of the cart,
   * leaves the third row alone and changes no product.
   */
  lemma CheckoutExampleCart(user: User)
    ensures WellFormed(ExampleTables(user))
    ensures var t' := CheckoutSpec(ExampleTables(user), user, ExampleRequest()).0;
      t'.cartItems == map[3 := CartItem(1, 3, 4)] && t'.products == ExampleTables(user).products
  {
    ExampleIsValid(user);
    CheckoutWritesOrder(ExampleTables(user), user, ExampleRequest());
    ExampleClearLines(ExampleTables(user).cartItems);
  }

  lemma ExampleClearLines(items: map<CartItemId, CartItem>)
    requires items == map[1 := CartItem(1, 1, 2), 2 := CartItem(1, 2, 1), 3 := CartItem(1, 3, 4)]
    ensures ClearLines(items, 1, {1, 2}) == map[3 := CartItem(1, 3, 4)]
  {
    var r := ClearLines(items, 1, {1, 2});
    assert forall i :: i in r <==> i == 3;
  }
}
