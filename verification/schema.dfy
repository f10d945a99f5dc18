/**
 * The tables the cart and order controllers read and write: products, carts,
 * cart items, orders and order items. Money is an integer number of minor
 * currency units; every id is an auto-increment integer.
 */
module Schema {

  import opened Wrappers

  type ProductId = int
  type CartId = int
  type CartItemId = int
  type OrderId = int
  type OrderItemId = int
  type UserId = int

  /** A row of `products`; only the columns the controllers use. */
  datatype Product = Product(price: int, stock: int)

  /** A row of `cart_items`. Nothing in the server keeps `quantity` positive. */
  datatype CartItem = CartItem(cart: CartId, product: ProductId, quantity: int)

  /** The three enumerations of the `orders` table, with their column values. */
  datatype OrderStatus = Pending | Processing | Shipped | Delivered | Cancelled
  {
    function Name(): string {
      match this
      case Pending => "pending"
      case Processing => "processing"
      case Shipped => "shipped"
      case Delivered => "delivered"
      case Cancelled => "cancelled"
    }
  }

  datatype PaymentMethod = Cod | BankTransfer | EWallet
  {
    function Name(): string {
      match this
      case Cod => "cod"
      case BankTransfer => "bank_transfer"
      case EWallet => "e_wallet"
    }
  }

  datatype PaymentStatus = PaymentPending | Paid | Failed
  {
    function Name(): string {
      match this
      case PaymentPending => "pending"
      case Paid => "paid"
      case Failed => "failed"
    }
  }

  /** Reads a `payment_method` request field: the `in:cod,bank_transfer,e_wallet` rule. */
  function ParsePaymentMethod(s: string): (m: Option<PaymentMethod>)
    ensures m.Some? ==> m.value.Name() == s
  {
    if s == "cod" then Some(Cod)
    else if s == "bank_transfer" then Some(BankTransfer)
    else if s == "e_wallet" then Some(EWallet)
    else None
  }

  /** Every payment method is accepted under its own column value, and only under it. */
  lemma ParsePaymentMethodRoundTrip(m: PaymentMethod, s: string)
    ensures ParsePaymentMethod(m.Name()) == Some(m)
    ensures ParsePaymentMethod(s) == Some(m) <==> s == m.Name()
  {
  }

  /** A row of `orders`. */
  datatype Order = Order(
    user: UserId,
    total: int,
    shippingAddress: string,
    shippingPhone: string,
    status: OrderStatus,
    paymentMethod: PaymentMethod,
    paymentStatus: PaymentStatus)

  /** A row of `order_items`; `price` is a copy of the product's price when the order was placed. */
  datatype OrderItem = OrderItem(order: OrderId, product: ProductId, quantity: int, price: int)

  /** The whole database as a value, with the next id each auto-increment column hands out. */
  datatype Tables = Tables(
    products: map<ProductId, Product>,
    carts: map<CartId, UserId>,
    cartItems: map<CartItemId, CartItem>,
    orders: map<OrderId, Order>,
    orderItems: map<OrderItemId, OrderItem>,
    nextCart: CartId,
    nextCartItem: CartItemId,
    nextOrder: OrderId,
    nextOrderItem: OrderItemId)

  ghost predicate StockNonNegative(products: map<ProductId, Product>) {
    forall p :: p in products ==> products[p].stock >= 0
  }

  /** `carts` holds at most one row per user. */
  ghost predicate OneCartPerUser(carts: map<CartId, UserId>) {
    forall c, c' :: c in carts && c' in carts && carts[c] == carts[c'] ==> c == c'
  }

  /** `cart_items` holds at most one row per (cart, product). */
  ghost predicate OneItemPerProduct(items: map<CartItemId, CartItem>) {
    forall i, j :: i in items && j in items && items[i].cart == items[j].cart && items[i].product == items[j].product ==> i == j
  }

  ghost predicate ReferencesResolve(t: Tables) {
    && (forall i :: i in t.cartItems ==> t.cartItems[i].cart in t.carts && t.cartItems[i].product in t.products)
    && (forall k :: k in t.orderItems ==> t.orderItems[k].order in t.orders && t.orderItems[k].product in t.products)
  }

  /** Every id in use is below the next id its column hands out. */
  ghost predicate IdsBelowCounters(t: Tables) {
    && (forall c :: c in t.carts ==> c < t.nextCart)
    && (forall i :: i in t.cartItems ==> i < t.nextCartItem)
    && (forall o :: o in t.orders ==> o < t.nextOrder)
    && (forall k :: k in t.orderItems ==> k < t.nextOrderItem)
  }

  /** The database invariant that every accepted operation preserves. */
  ghost predicate WellFormed(t: Tables) {
    && StockNonNegative(t.products)
    && OneCartPerUser(t.carts)
    && OneItemPerProduct(t.cartItems)
    && ReferencesResolve(t)
    && IdsBelowCounters(t)
  }

  ghost predicate HasCart(t: Tables, user: UserId) {
    exists c :: c in t.carts && t.carts[c] == user
  }

  /** The user's cart: `Cart::where('user_id', ...)->first()`. */
  ghost function CartOf(t: Tables, user: UserId): (c: CartId)
    requires HasCart(t, user)
    ensures c in t.carts && t.carts[c] == user
  {
    var c :| c in t.carts && t.carts[c] == user; c
  }

  /** The rows of `cart_items` that belong to cart `c`. */
  function ItemsOfCart(items: map<CartItemId, CartItem>, c: CartId): (r: map<CartItemId, CartItem>)
    ensures forall i :: i in r <==> i in items && items[i].cart == c
    ensures forall i :: i in r ==> r[i] == items[i]
  {
    map i | i in items && items[i].cart == c :: items[i]
  }

  /** An HTTP answer: a status code, with a body on success. */
  datatype Response<T> = Ok(code: int, body: T) | Error(code: int)

  /**
   * The relational store, one field per table. Controllers change rows in
   * place through these fields.
   */
  class Database {
    var products: map<ProductId, Product>
    var carts: map<CartId, UserId>
    var cartItems: map<CartItemId, CartItem>
    var orders: map<OrderId, Order>
    var orderItems: map<OrderItemId, OrderItem>
    var nextCart: CartId
    var nextCartItem: CartItemId
    var nextOrder: OrderId
    var nextOrderItem: OrderItemId

    ghost function State(): Tables
      reads this
    {
      Tables(products, carts, cartItems, orders, orderItems, nextCart, nextCartItem, nextOrder, nextOrderItem)
    }

    ghost predicate Valid()
      reads this
    {
      WellFormed(State())
    }

    /** A store holding the seeded products and nothing else. */
    constructor (catalogue: map<ProductId, Product>)
      requires StockNonNegative(catalogue)
      ensures Valid()
      ensures State() == Tables(catalogue, map[], map[], map[], map[], 1, 1, 1, 1)
    {
      products := catalogue;
      carts, cartItems, orders, orderItems := map[], map[], map[], map[];
      nextCart, nextCartItem, nextOrder, nextOrderItem := 1, 1, 1, 1;
    }
  }
}
