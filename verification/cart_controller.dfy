/**
 * The cart endpoints: `add`, `view`, `removeFromCart` and `updateQuantity`.
 * Each endpoint is specified by a ghost function from the tables before the
 * request to the tables after it and the answer; the methods perform the
 * same reads and writes step by step on a `Database` and are proved to
 * agree with their specification. The lemmas state what the endpoints do
 * to stock and to the cart.
 */
module CartController {

  import opened Wrappers
  import opened Schema

  /** The answer of a successful `add`: the cart's rows and the product with its new stock. */
  datatype AddBody = AddBody(cartItems: map<CartItemId, CartItem>, product: Product)

  /** The answer of a successful `updateQuantity`. */
  datatype UpdateBody = UpdateBody(cartItem: CartItem, product: Product)

  /** `Cart::firstOrCreate(['user_id' => user])`: the tables afterwards and the cart's id. */
  ghost function FirstOrCreateCart(t: Tables, user: UserId): (r: (Tables, CartId))
    ensures r.1 in r.0.carts && r.0.carts[r.1] == user
  {
    if HasCart(t, user) then (t, CartOf(t, user))
    else (t.(carts := t.carts[t.nextCart := user], nextCart := t.nextCart + 1), t.nextCart)
  }

  ghost predicate HasItem(t: Tables, c: CartId, productId: ProductId) {
    exists i :: i in t.cartItems && t.cartItems[i].cart == c && t.cartItems[i].product == productId
  }

  /** The row of cart `c` for the product: `CartItem::where(...)->where(...)->first()`. */
  ghost function ItemOf(t: Tables, c: CartId, productId: ProductId): (i: CartItemId)
    requires HasItem(t, c, productId)
    ensures i in t.cartItems && t.cartItems[i].cart == c && t.cartItems[i].product == productId
  {
    var i :| i in t.cartItems && t.cartItems[i].cart == c && t.cartItems[i].product == productId; i
  }

  /** How many units of the product the user's cart holds (0 without a cart or a row). */
  ghost function QuantityInCart(t: Tables, user: UserId, productId: ProductId): int {
    if HasCart(t, user) && HasItem(t, CartOf(t, user), productId)
    then t.cartItems[ItemOf(t, CartOf(t, user), productId)].quantity
    else 0
  }

  /** `m'` agrees with `m` on every row that is not cart `c`'s row for the product. */
  ghost predicate SameOutsideLine(m: map<CartItemId, CartItem>, m': map<CartItemId, CartItem>, c: CartId, productId: ProductId) {
    && (forall i :: i in m && !(m[i].cart == c && m[i].product == productId) ==> i in m' && m'[i] == m[i])
    && (forall i :: i in m' && !(m'[i].cart == c && m'[i].product == productId) ==> i in m)
  }

  /** CartController::add. */
  ghost function AddSpec(t: Tables, user: UserId, productId: ProductId, quantity: int): (Tables, Response<AddBody>)
    requires WellFormed(t)
  {
    if productId !in t.products || quantity < 1 then (t, Error(500))
    else if t.products[productId].stock < quantity then (t, Error(400))
    else
      var cart := FirstOrCreateCart(t, user);
      var t1, c := cart.0, cart.1;
      var p := t.products[productId];
      if HasItem(t1, c, productId) && p.stock < t1.cartItems[ItemOf(t1, c, productId)].quantity + quantity then
        (t1, Error(400))
      else
        var t2 := PutLine(t1, c, productId, quantity);
        var t3 := t2.(products := t2.products[productId := p.(stock := p.stock - quantity)]);
        (t3, Ok(200, AddBody(ItemsOfCart(t3.cartItems, c), t3.products[productId])))
  }

  /** The cart row write of `add`: the existing row's quantity grows, or a new row is inserted. */
  ghost function PutLine(t: Tables, c: CartId, productId: ProductId, quantity: int): Tables {
    if HasItem(t, c, productId) then
      var i := ItemOf(t, c, productId);
      t.(cartItems := t.cartItems[i := t.cartItems[i].(quantity := t.cartItems[i].quantity + quantity)])
    else
      t.(cartItems := t.cartItems[t.nextCartItem := CartItem(c, productId, quantity)],
         nextCartItem := t.nextCartItem + 1)
  }

  /** The item is in a cart of the user: the `whereHas('cart', ...)` ownership filter. */
  ghost predicate OwnsItem(t: Tables, user: UserId, id: CartItemId) {
    id in t.cartItems && t.cartItems[id].cart in t.carts && t.carts[t.cartItems[id].cart] == user
  }

  /** CartController::removeFromCart: answers with the product, whose stock it leaves alone. */
  ghost function RemoveSpec(t: Tables, user: UserId, id: CartItemId): (Tables, Response<Product>)
    requires WellFormed(t)
  {
    if OwnsItem(t, user, id) then (t.(cartItems := t.cartItems - {id}), Ok(200, t.products[t.cartItems[id].product]))
    else (t, Error(404))
  }

  /** CartController::updateQuantity: no owner check and no lower bound on the new quantity. */
  ghost function UpdateSpec(t: Tables, id: CartItemId, quantity: int): (Tables, Response<UpdateBody>)
    requires WellFormed(t)
  {
    if id !in t.cartItems then (t, Error(500))
    else
      var item := t.cartItems[id];
      var p := t.products[item.product];
      var diff := quantity - item.quantity;
      if diff > 0 && p.stock < diff then (t, Error(400))
      else
        var t' := t.(cartItems := t.cartItems[id := item.(quantity := quantity)],
                     products := t.products[item.product := p.(stock := p.stock - diff)]);
        (t', Ok(200, UpdateBody(t'.cartItems[id], t'.products[item.product])))
  }

  // ---------------------------------------------------------------------------
  // The endpoints, step by step on the store.
  // ---------------------------------------------------------------------------

  method Add(db: Database, user: UserId, productId: ProductId, quantity: int) returns (r: Response<AddBody>)
    requires db.Valid()
    modifies db
    ensures db.Valid()
    ensures (db.State(), r) == AddSpec(old(db.State()), user, productId, quantity)
  {
    ghost var t := db.State();
    // The `validate` rules; a ValidationException ends in the generic handler.
    if productId !in db.products || quantity < 1 {
      return Error(500);
    }
    var product := db.products[productId];
    if product.stock < quantity {
      return Error(400);
    }
    var cart := FindOrCreateCart(db, user);
    var item := FindLine(db, cart, productId);
    if item.Some? && product.stock < db.cartItems[item.value].quantity + quantity {
      AddOutcome(t, user, productId, quantity);
      return Error(400);
    }
    WriteLine(db, cart, productId, quantity, item);
    db.products := db.products[productId := product.(stock := product.stock - quantity)];
    r := Ok(200, AddBody(ItemsOfCart(db.cartItems, cart), db.products[productId]));
    AddOutcome(t, user, productId, quantity);
  }

  /** What `AddSpec` answers once validation and the first stock check have passed. */
  lemma AddOutcome(t: Tables, user: UserId, productId: ProductId, quantity: int)
    requires WellFormed(t) && productId in t.products && quantity >= 1 && t.products[productId].stock >= quantity
    ensures var (t1, c) := FirstOrCreateCart(t, user);
      var p := t.products[productId];
      && WellFormed(t1)
      && WellFormed(AddSpec(t, user, productId, quantity).0)
      && (HasItem(t1, c, productId) && p.stock < t1.cartItems[ItemOf(t1, c, productId)].quantity + quantity ==>
            AddSpec(t, user, productId, quantity) == (t1, Error(400)))
      && (!(HasItem(t1, c, productId) && p.stock < t1.cartItems[ItemOf(t1, c, productId)].quantity + quantity) ==>
            var t2 := PutLine(t1, c, productId, quantity);
            var t3 := t2.(products := t2.products[productId := p.(stock := p.stock - quantity)]);
            AddSpec(t, user, productId, quantity) == (t3, Ok(200, AddBody(ItemsOfCart(t3.cartItems, c), t3.products[productId]))))
  {
    FirstOrCreatePreservesWellFormed(t, user);
    AddPreservesWellFormed(t, user, productId, quantity);
  }

  /** `Cart::firstOrCreate`: the user's cart, created with the next id when there is none. */
  method FindOrCreateCart(db: Database, user: UserId) returns (cart: CartId)
    requires OneCartPerUser(db.carts)
    modifies db`carts, db`nextCart
    ensures (db.State(), cart) == FirstOrCreateCart(old(db.State()), user)
  {
    ghost var t := db.State();
    if exists c :: c in db.carts && db.carts[c] == user {
      cart :| cart in db.carts && db.carts[cart] == user;
      assert cart == CartOf(t, user);
    } else {
      cart := db.nextCart;
      db.carts := db.carts[cart := user];
      db.nextCart := db.nextCart + 1;
    }
  }

  /** The cart's row for the product, if there is one. */
  method FindLine(db: Database, cart: CartId, productId: ProductId) returns (item: Option<CartItemId>)
    requires OneItemPerProduct(db.cartItems)
    ensures item.Some? <==> HasItem(db.State(), cart, productId)
    ensures item.Some? ==> item.value == ItemOf(db.State(), cart, productId)
  {
    if exists i :: i in db.cartItems && db.cartItems[i].cart == cart && db.cartItems[i].product == productId {
      var i :| i in db.cartItems && db.cartItems[i].cart == cart && db.cartItems[i].product == productId;
      assert i == ItemOf(db.State(), cart, productId);
      item := Some(i);
    } else {
      item := None;
    }
  }

  /** The row write of `add`: the found row's quantity grows, or a new row takes the next id. */
  method WriteLine(db: Database, cart: CartId, productId: ProductId, quantity: int, item: Option<CartItemId>)
    requires item.Some? <==> HasItem(db.State(), cart, productId)
    requires item.Some? ==> item.value == ItemOf(db.State(), cart, productId)
    modifies db`cartItems, db`nextCartItem
    ensures db.State() == PutLine(old(db.State()), cart, productId, quantity)
  {
    match item
    case Some(i) =>
      db.cartItems := db.cartItems[i := db.cartItems[i].(quantity := db.cartItems[i].quantity + quantity)];
    case None =>
      db.cartItems := db.cartItems[db.nextCartItem := CartItem(cart, productId, quantity)];
      db.nextCartItem := db.nextCartItem + 1;
  }

  /** CartController::view: an empty list without a cart, else exactly that cart's rows. */
  method View(db: Database, user: UserId) returns (items: map<CartItemId, CartItem>)
    requires db.Valid()
    ensures !HasCart(db.State(), user) ==> items == map[]
    ensures HasCart(db.State(), user) ==>
      forall i :: i in items <==> i in db.cartItems && db.cartItems[i].cart == CartOf(db.State(), user)
    ensures forall i :: i in items ==> i in db.cartItems && items[i] == db.cartItems[i]
  {
    if exists c :: c in db.carts && db.carts[c] == user {
      var cart :| cart in db.carts && db.carts[cart] == user;
      assert cart == CartOf(db.State(), user);
      items := ItemsOfCart(db.cartItems, cart);
    } else {
      items := map[];
    }
  }

  method RemoveFromCart(db: Database, user: UserId, id: CartItemId) returns (r: Response<Product>)
    requires db.Valid()
    modifies db
    ensures db.Valid()
    ensures (db.State(), r) == RemoveSpec(old(db.State()), user, id)
  {
    ghost var t := db.State();
    if !(id in db.cartItems && db.cartItems[id].cart in db.carts && db.carts[db.cartItems[id].cart] == user) {
      return Error(404);
    }
    var product := db.products[db.cartItems[id].product];
    db.cartItems := db.cartItems - {id};
    r := Ok(200, product);
    RemovePreservesWellFormed(t, user, id);
  }

  method UpdateQuantity(db: Database, id: CartItemId, quantity: int) returns (r: Response<UpdateBody>)
    requires db.Valid()
    modifies db
    ensures db.Valid()
    ensures (db.State(), r) == UpdateSpec(old(db.State()), id, quantity)
  {
    ghost var t := db.State();
    // CartItem::findOrFail: a missing row ends in the generic handler.
    if id !in db.cartItems {
      return Error(500);
    }
    var item := db.cartItems[id];
    var product := db.products[item.product];
    var diff := quantity - item.quantity;
    if diff > 0 && product.stock < diff {
      return Error(400);
    }
    db.cartItems := db.cartItems[id := item.(quantity := quantity)];
    db.products := db.products[item.product := product.(stock := product.stock - diff)];
    r := Ok(200, UpdateBody(db.cartItems[id], db.products[item.product]));
    UpdatePreservesWellFormed(t, id, quantity);
  }

  // ---------------------------------------------------------------------------
  // Properties of the endpoints.
  // ---------------------------------------------------------------------------

  /** Within one cart the row for a product is unique, so every lookup of it finds the same row. */
  lemma ItemOfUnique(t: Tables, c: CartId, productId: ProductId, i: CartItemId)
    requires OneItemPerProduct(t.cartItems)
    requires i in t.cartItems && t.cartItems[i].cart == c && t.cartItems[i].product == productId
    ensures HasItem(t, c, productId) && ItemOf(t, c, productId) == i
  {
  }

  /** A cart belongs to one user, so the lookup of a user's cart finds that cart. */
  lemma CartOfUnique(t: Tables, user: UserId, c: CartId)
    requires OneCartPerUser(t.carts)
    requires c in t.carts && t.carts[c] == user
    ensures HasCart(t, user) && CartOf(t, user) == c
  {
  }

  lemma AddPreservesWellFormed(t: Tables, user: UserId, productId: ProductId, quantity: int)
    requires WellFormed(t)
    ensures WellFormed(AddSpec(t, user, productId, quantity).0)
  {
    if productId in t.products && quantity >= 1 && t.products[productId].stock >= quantity {
      var cart := FirstOrCreateCart(t, user);
      var t1, c := cart.0, cart.1;
      FirstOrCreatePreservesWellFormed(t, user);
      PutLinePreservesWellFormed(t1, c, productId, quantity);
      TakeStockPreservesWellFormed(PutLine(t1, c, productId, quantity), productId, t.products[productId].stock - quantity);
    }
  }

  lemma FirstOrCreatePreservesWellFormed(t: Tables, user: UserId)
    requires WellFormed(t)
    ensures WellFormed(FirstOrCreateCart(t, user).0)
    ensures FirstOrCreateCart(t, user).0.products == t.products
  {
  }

  lemma PutLinePreservesWellFormed(t: Tables, c: CartId, productId: ProductId, quantity: int)
    requires WellFormed(t) && c in t.carts && productId in t.products
    ensures WellFormed(PutLine(t, c, productId, quantity))
    ensures PutLine(t, c, productId, quantity).products == t.products
  {
    if !HasItem(t, c, productId) {
      var items := t.cartItems[t.nextCartItem := CartItem(c, productId, quantity)];
      assert OneItemPerProduct(items);
    }
  }

  lemma TakeStockPreservesWellFormed(t: Tables, productId: ProductId, stock: int)
    requires WellFormed(t) && productId in t.products && stock >= 0
    ensures WellFormed(t.(products := t.products[productId := t.products[productId].(stock := stock)]))
  {
  }

  /** `add` creates at most the user's missing cart and touches no order table. */
  lemma AddKeepsOtherTables(t: Tables, user: UserId, productId: ProductId, quantity: int)
    requires WellFormed(t)
    ensures var (t', r) := AddSpec(t, user, productId, quantity);
      r.Ok? ==>
        && t'.carts == (if HasCart(t, user) then t.carts else t.carts[t.nextCart := user])
        && t'.nextCart == (if HasCart(t, user) then t.nextCart else t.nextCart + 1)
        && t'.orders == t.orders && t'.orderItems == t.orderItems
        && t'.nextOrder == t.nextOrder && t'.nextOrderItem == t.nextOrderItem
  {
  }

  /** A merge grows the found row under its own id; otherwise one row is inserted under the next id. */
  lemma AddWritesRow(t: Tables, user: UserId, productId: ProductId, quantity: int)
    requires WellFormed(t)
    ensures var (t', r) := AddSpec(t, user, productId, quantity);
      r.Ok? ==>
        if HasCart(t, user) && HasItem(t, CartOf(t, user), productId) then
          var i := ItemOf(t, CartOf(t, user), productId);
          && i in t'.cartItems
          && t'.cartItems[i] == t.cartItems[i].(quantity := t.cartItems[i].quantity + quantity)
          && t'.nextCartItem == t.nextCartItem
        else
          && t.nextCartItem !in t.cartItems
          && t'.cartItems == t.cartItems[t.nextCartItem := CartItem(CartOf(t', user), productId, quantity)]
          && t'.nextCartItem == t.nextCartItem + 1
  {
    var (t', r) := AddSpec(t, user, productId, quantity);
    if r.Ok? {
      var cart := FirstOrCreateCart(t, user);
      var t1, c := cart.0, cart.1;
      if HasCart(t, user) {
        assert t1 == t && c == CartOf(t, user);
      } else {
        assert !HasItem(t1, c, productId);
        CartOfUnique(t', user, c);
      }
    }
  }

  /**
   * `add` is accepted exactly when the product exists, the quantity is at
   * least 1, the stock covers the requested quantity, and the stock also
   * covers the cart's whole new quantity (old plus requested).
   */
  lemma AddAccepted(t: Tables, user: UserId, productId: ProductId, quantity: int)
    requires WellFormed(t)
    ensures AddSpec(t, user, productId, quantity).1.Ok? <==>
      && productId in t.products && quantity >= 1
      && t.products[productId].stock >= quantity
      && t.products[productId].stock >= QuantityInCart(t, user, productId) + quantity
  {
    if productId in t.products && quantity >= 1 && t.products[productId].stock >= quantity {
      var cart := FirstOrCreateCart(t, user);
      var t1, c := cart.0, cart.1;
      if HasCart(t, user) {
        assert t1 == t && c == CartOf(t, user);
      } else {
        assert !HasItem(t1, c, productId);
      }
    }
  }

  /** A rejected `add`, for whichever reason and with whichever code, changes no table. */
  lemma AddRejectedChangesNothing(t: Tables, user: UserId, productId: ProductId, quantity: int)
    requires WellFormed(t)
    ensures var (t', r) := AddSpec(t, user, productId, quantity);
      r.Error? ==> t' == t && r.code == (if productId !in t.products || quantity < 1 then 500 else 400)
  {
    if productId in t.products && quantity >= 1 && t.products[productId].stock >= quantity {
      var cart := FirstOrCreateCart(t, user);
      if HasItem(cart.0, cart.1, productId) {
        assert HasCart(t, user);
      }
    }
  }

  /**
   * A successful `add` takes exactly `quantity` units from the product's
   * stock, adds exactly `quantity` to the user's row for the product
   * (creating the row with `quantity` if there was none), leaves every other
   * product and every other row alone, and answers with the cart's rows.
   */
  lemma AddReserves(t: Tables, user: UserId, productId: ProductId, quantity: int)
    requires WellFormed(t)
    ensures var (t', r) := AddSpec(t, user, productId, quantity);
      r.Ok? ==>
        && productId in t.products
        && t'.products == t.products[productId := t.products[productId].(stock := t.products[productId].stock - quantity)]
        && t'.products[productId].stock >= 0
        && HasCart(t', user)
        && QuantityInCart(t', user, productId) == QuantityInCart(t, user, productId) + quantity
        && SameOutsideLine(t.cartItems, t'.cartItems, CartOf(t', user), productId)
        && r.body == AddBody(ItemsOfCart(t'.cartItems, CartOf(t', user)), t'.products[productId])
    ensures var (t', r) := AddSpec(t, user, productId, quantity);
      r.Ok? ==>
        if HasCart(t, user) && HasItem(t, CartOf(t, user), productId) then
          var i := ItemOf(t, CartOf(t, user), productId);
          && i in t'.cartItems
          && t'.cartItems[i] == t.cartItems[i].(quantity := t.cartItems[i].quantity + quantity)
          && t'.nextCartItem == t.nextCartItem
        else
          && t.nextCartItem !in t.cartItems
          && t'.cartItems == t.cartItems[t.nextCartItem := CartItem(CartOf(t', user), productId, quantity)]
          && t'.nextCartItem == t.nextCartItem + 1
    ensures var (t', r) := AddSpec(t, user, productId, quantity);
      r.Ok? ==>
        && t'.carts == (if HasCart(t, user) then t.carts else t.carts[t.nextCart := user])
        && t'.nextCart == (if HasCart(t, user) then t.nextCart else t.nextCart + 1)
        && t'.orders == t.orders && t'.orderItems == t.orderItems
        && t'.nextOrder == t.nextOrder && t'.nextOrderItem == t.nextOrderItem
  {
    var (t', r) := AddSpec(t, user, productId, quantity);
    AddWritesRow(t, user, productId, quantity);
    AddKeepsOtherTables(t, user, productId, quantity);
    if r.Ok? {
      AddPreservesWellFormed(t, user, productId, quantity);
      var cart := FirstOrCreateCart(t, user);
      var t1, c := cart.0, cart.1;
      CartOfUnique(t', user, c);
      if HasCart(t, user) {
        assert t1 == t;
      }
      if HasItem(t1, c, productId) {
        var i := ItemOf(t1, c, productId);
        ItemOfUnique(t', c, productId, i);
      } else {
        ItemOfUnique(t', c, productId, t1.nextCartItem);
      }
    }
  }

  /**
   * Adding `a` and then `b` units of a product the cart does not hold yet
   * leaves one row with `a + b` units and takes `a + b` units from stock.
   * The second request passes the merge check only if the stock left after
   * the first, `stock - a`, covers the whole row `a + b`: so the law needs
   * `stock >= 2a + b`, not merely `stock >= a + b`.
   */
  lemma AddTwiceMerges(t: Tables, user: UserId, productId: ProductId, a: int, b: int)
    requires WellFormed(t) && productId in t.products
    requires QuantityInCart(t, user, productId) == 0
    requires a >= 1 && b >= 1 && t.products[productId].stock >= 2 * a + b
    ensures var t1 := AddSpec(t, user, productId, a).0;
      WellFormed(t1) &&
      var (t2, r2) := AddSpec(t1, user, productId, b);
      && r2.Ok?
      && QuantityInCart(t2, user, productId) == a + b
      && t2.products[productId].stock == t.products[productId].stock - (a + b)
  {
    AddAccepted(t, user, productId, a);
    AddReserves(t, user, productId, a);
    AddPreservesWellFormed(t, user, productId, a);
    var t1 := AddSpec(t, user, productId, a).0;
    AddAccepted(t1, user, productId, b);
    AddReserves(t1, user, productId, b);
  }

  /**
   * With 3 units in stock, adding 2 and then 1 is refused on the second
   * request with 400, although 2 + 1 units were available: the merge check
   * compares the remaining stock with the whole row.
   */
  lemma AddAgainCountsReservedUnitsTwice(user: UserId, productId: ProductId)
    ensures var t := Tables(map[productId := Product(100, 3)], map[], map[], map[], map[], 1, 1, 1, 1);
      WellFormed(t) &&
      var t1 := AddSpec(t, user, productId, 2).0;
      WellFormed(t1) && t1.products[productId].stock == 1
      && AddSpec(t1, user, productId, 1) == (t1, Error(400))
  {
    var t := Tables(map[productId := Product(100, 3)], map[], map[], map[], map[], 1, 1, 1, 1);
    AddAccepted(t, user, productId, 2);
    AddReserves(t, user, productId, 2);
    AddPreservesWellFormed(t, user, productId, 2);
    var t1 := AddSpec(t, user, productId, 2).0;
    AddAccepted(t1, user, productId, 1);
    AddRejectedChangesNothing(t1, user, productId, 1);
  }

  lemma RemovePreservesWellFormed(t: Tables, user: UserId, id: CartItemId)
    requires WellFormed(t)
    ensures WellFormed(RemoveSpec(t, user, id).0)
  {
  }

  /**
   * `removeFromCart` finds only rows of the requesting user's cart; any
   * other id answers 404 and changes nothing. A removal deletes exactly that
   * row and gives no stock back: the row's units are afterwards neither in
   * stock nor in the cart.
   */
  lemma RemoveLeaksReservedStock(t: Tables, user: UserId, id: CartItemId)
    requires WellFormed(t)
    ensures var (t', r) := RemoveSpec(t, user, id);
      && (r.Ok? <==> OwnsItem(t, user, id))
      && (r.Error? ==> t' == t && r.code == 404)
      && (r.Ok? ==>
            && t'.products == t.products
            && t'.cartItems == t.cartItems - {id}
            && r.body == t.products[t.cartItems[id].product]
            && QuantityInCart(t, user, t.cartItems[id].product) == t.cartItems[id].quantity
            && QuantityInCart(t', user, t.cartItems[id].product) == 0)
      && t'.carts == t.carts && t'.orders == t.orders && t'.orderItems == t.orderItems
      && t'.nextCart == t.nextCart && t'.nextCartItem == t.nextCartItem
      && t'.nextOrder == t.nextOrder && t'.nextOrderItem == t.nextOrderItem
  {
    var (t', r) := RemoveSpec(t, user, id);
    if r.Ok? {
      var item := t.cartItems[id];
      CartOfUnique(t, user, item.cart);
      ItemOfUnique(t, item.cart, item.product, id);
      RemovePreservesWellFormed(t, user, id);
      CartOfUnique(t', user, item.cart);
    }
  }

  lemma UpdatePreservesWellFormed(t: Tables, id: CartItemId, quantity: int)
    requires WellFormed(t)
    ensures WellFormed(UpdateSpec(t, id, quantity).0)
  {
  }

  /**
   * `updateQuantity` refuses only a missing row (500) and an increase the
   * stock cannot cover (400), changing nothing. Otherwise it sets the row's
   * quantity and moves the difference out of (or back into) stock, so stock
   * plus the row's quantity stays the same and no other row or product
   * changes.
   */
  lemma UpdateConserves(t: Tables, id: CartItemId, quantity: int)
    requires WellFormed(t)
    ensures var (t', r) := UpdateSpec(t, id, quantity);
      && (r.Ok? <==> (id in t.cartItems &&
            var d := quantity - t.cartItems[id].quantity;
            !(d > 0 && t.products[t.cartItems[id].product].stock < d)))
      && (r.Error? ==> t' == t && r.code == (if id in t.cartItems then 400 else 500))
      && (r.Ok? ==>
            var p := t.cartItems[id].product;
            && t'.cartItems == t.cartItems[id := t.cartItems[id].(quantity := quantity)]
            && t'.products.Keys == t.products.Keys
            && (forall q :: q in t.products && q != p ==> t'.products[q] == t.products[q])
            && t'.products[p].price == t.products[p].price
            && t'.products[p].stock + t'.cartItems[id].quantity == t.products[p].stock + t.cartItems[id].quantity
            && t'.products[p].stock >= 0)
      && t'.carts == t.carts && t'.orders == t.orders && t'.orderItems == t.orderItems
      && t'.nextCart == t.nextCart && t'.nextCartItem == t.nextCartItem
      && t'.nextOrder == t.nextOrder && t'.nextOrderItem == t.nextOrderItem
  {
  }

  /**
   * Changing a row's quantity from q to q' and back to q is always accepted
   * the second time and restores every table exactly.
   */
  lemma UpdateRoundTrip(t: Tables, id: CartItemId, quantity: int)
    requires WellFormed(t)
    requires UpdateSpec(t, id, quantity).1.Ok?
    ensures var t1 := UpdateSpec(t, id, quantity).0;
      WellFormed(t1) &&
      var (t2, r2) := UpdateSpec(t1, id, t.cartItems[id].quantity);
      r2.Ok? && t2 == t
  {
    UpdatePreservesWellFormed(t, id, quantity);
    var t1 := UpdateSpec(t, id, quantity).0;
    var item := t.cartItems[id];
    var t2 := UpdateSpec(t1, id, item.quantity).0;
    assert t2.cartItems == t.cartItems;
    assert t2.products == t.products;
  }
}
