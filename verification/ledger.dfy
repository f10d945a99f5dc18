/**
 * The inventory seen across any sequence of cart and checkout requests,
 * accepted or refused, processed one after another.
 */
module Ledger {

  import opened Schema
  import CartController
  import OrderController

  datatype Request =
    | AddItem(user: UserId, product: ProductId, quantity: int)
    | RemoveItem(user: UserId, item: CartItemId)
    | UpdateItem(item: CartItemId, quantity: int)
    | PlaceOrder(customer: OrderController.User, order: OrderController.CheckoutRequest)

  /** The tables after one request, whatever it answers. */
  ghost function Step(t: Tables, rq: Request): (t': Tables)
    requires WellFormed(t)
    ensures WellFormed(t')
  {
    match rq
    case AddItem(u, p, q) =>
      CartController.AddPreservesWellFormed(t, u, p, q);
      CartController.AddSpec(t, u, p, q).0
    case RemoveItem(u, i) =>
      CartController.RemovePreservesWellFormed(t, u, i);
      CartController.RemoveSpec(t, u, i).0
    case UpdateItem(i, q) =>
      CartController.UpdatePreservesWellFormed(t, i, q);
      CartController.UpdateSpec(t, i, q).0
    case PlaceOrder(c, o) =>
      OrderController.CheckoutPreservesWellFormed(t, c, o);
      OrderController.CheckoutSpec(t, c, o).0
  }

  /** The tables after a sequence of requests; the invariant, and so non-negative stock, holds throughout. */
  ghost function Run(t: Tables, rqs: seq<Request>): (t': Tables)
    requires WellFormed(t)
    ensures WellFormed(t')
    ensures StockNonNegative(t'.products)
    decreases |rqs|
  {
    if |rqs| == 0 then t else Run(Step(t, rqs[0]), rqs[1..])
  }

  predicate ChangesStock(rq: Request) {
    rq.AddItem? || rq.UpdateItem?
  }

  /** No request adds or drops a product or changes a price; only stock moves. */
  lemma StepKeepsCatalogue(t: Tables, rq: Request)
    requires WellFormed(t)
    ensures var t' := Step(t, rq);
      && t'.products.Keys == t.products.Keys
      && (forall p :: p in t.products ==> t'.products[p].price == t.products[p].price)
      && (!ChangesStock(rq) ==> t'.products == t.products)
  {
    match rq
    case AddItem(u, p, q) =>
      CartController.AddReserves(t, u, p, q);
      CartController.AddRejectedChangesNothing(t, u, p, q);
    case RemoveItem(u, i) =>
      CartController.RemoveLeaksReservedStock(t, u, i);
    case UpdateItem(i, q) =>
      CartController.UpdateConserves(t, i, q);
    case PlaceOrder(c, o) =>
      OrderController.CheckoutRejected(t, c, o);
      if OrderController.RequestValid(t.products, o) && HasCart(t, c.id) {
        OrderController.CheckoutWritesOrder(t, c, o);
      }
  }

  /**
   * Over any run the catalogue and every price stay as they were, so the
   * price an order item copies is the price the product still has; and a
   * run made only of removals and checkouts leaves every product,
   * stock included, exactly as it was.
   */
  lemma {:induction false} RunKeepsCatalogue(t: Tables, rqs: seq<Request>)
    requires WellFormed(t)
    ensures var t' := Run(t, rqs);
      && t'.products.Keys == t.products.Keys
      && (forall p :: p in t.products ==> t'.products[p].price == t.products[p].price)
      && ((forall k :: 0 <= k < |rqs| ==> !ChangesStock(rqs[k])) ==> t'.products == t.products)
    decreases |rqs|
  {
    if |rqs| > 0 {
      StepKeepsCatalogue(t, rqs[0]);
      RunKeepsCatalogue(Step(t, rqs[0]), rqs[1..]);
      if forall k :: 0 <= k < |rqs| ==> !ChangesStock(rqs[k]) {
        assert forall k :: 0 <= k < |rqs| - 1 ==> rqs[1..][k] == rqs[k + 1];
      }
    }
  }
}
