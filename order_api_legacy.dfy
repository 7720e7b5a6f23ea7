/**
 * The older variant of the order endpoint. Lines carry no size; a missing
 * product and too little stock are one check with one message; and the order
 * is built without a payment method, which the Order schema requires.
 */
module OrderApiLegacy {
  import opened Wrappers
  import opened Models
  import Store
  import OrderApi

  type Products = map<ProductId, Product>

  /** `cartItems.map(...)`: productId, name, quantity and price only. */
  function FormatLines(items: seq<OrderApi.CartLine>): (r: seq<OrderLine>)
    ensures |r| == |items|
    ensures forall i :: 0 <= i < |items| ==>
      && r[i].productId == items[i].id && r[i].name == items[i].name
      && r[i].quantity == items[i].quantity && r[i].price == items[i].price
      && r[i].size.None?
  {
    if items == [] then []
    else [OrderLine(items[0].id, items[0].name, items[0].quantity, items[0].price, None)] + FormatLines(items[1..])
  }

  /** `!product || product.quantity < item.quantity` */
  function CheckLine(products: Products, line: OrderLine): Option<OrderApi.Rejection> {
    if line.productId !in products || products[line.productId].quantity < line.quantity then
      Some(OrderApi.NotEnoughStock(line.name))
    else None
  }

  function FirstRejection(products: Products, lines: seq<OrderLine>): Option<OrderApi.Rejection> {
    if lines == [] then None
    else if CheckLine(products, lines[0]).Some? then CheckLine(products, lines[0])
    else FirstRejection(products, lines[1..])
  }

  /** A missing product and too little stock are refused alike; exactly the available stock passes. */
  lemma MergedStockCheck(products: Products, line: OrderLine)
    ensures CheckLine(products, line).Some? ==> CheckLine(products, line) == Some(OrderApi.NotEnoughStock(line.name))
    ensures CheckLine(products, line).None? <==>
      line.productId in products && line.quantity <= products[line.productId].quantity
  {
  }

  /** No rejection exactly when every line's product exists with enough stock. */
  lemma {:induction false} NoRejectionIffAllPass(products: Products, lines: seq<OrderLine>)
    ensures FirstRejection(products, lines).None? <==>
      forall i :: 0 <= i < |lines| ==>
        lines[i].productId in products && lines[i].quantity <= products[lines[i].productId].quantity
  {
    if lines != [] {
      MergedStockCheck(products, lines[0]);
      NoRejectionIffAllPass(products, lines[1..]);
      assert forall i :: 1 <= i < |lines| ==> lines[i] == lines[1..][i - 1];
    }
  }

  method FindRejection(products: Products, lines: seq<OrderLine>) returns (r: Option<OrderApi.Rejection>)
    ensures r == FirstRejection(products, lines)
  {
    for i := 0 to |lines|
      invariant FirstRejection(products, lines) == FirstRejection(products, lines[i..])
    {
      assert lines[i..][1..] == lines[i + 1..];
      var line := lines[i];
      if line.productId !in products || products[line.productId].quantity < line.quantity {
        return Some(OrderApi.NotEnoughStock(line.name));
      }
    }
    return None;
  }

  /** The `new Order({...})` argument: no paymentMethod is passed. */
  function Draft(req: OrderApi.OrderRequest, lines: seq<OrderLine>): OrderDraft {
    OrderDraft(req.fullName, req.email, req.phoneNumber, req.shippingAddress,
               lines, req.totalAmount, None)
  }

  function Placement(products: Products, req: OrderApi.OrderRequest, newId: OrderId): OrderApi.PlaceResult {
    var lines := FormatLines(req.cartItems);
    match FirstRejection(products, lines)
    case Some(reason) => OrderApi.Rejected(reason)
    case None =>
      match BuildOrder(newId, Draft(req, lines))
      case Failure(failing) => OrderApi.ServerError(failing)
      case Success(order) => OrderApi.Created(order)
  }

  /**
   * Against the Order schema this variant never creates an order: a cart that
   * passes the stock check fails to save for want of a payment method (500),
   * so the decrements after the save are never reached.
   */
  lemma NeverCreates(products: Products, req: OrderApi.OrderRequest, newId: OrderId)
    ensures !Placement(products, req, newId).Created?
    ensures FirstRejection(products, FormatLines(req.cartItems)).None? ==>
      Placement(products, req, newId).ServerError? &&
      "paymentMethod" in Placement(products, req, newId).failing
  {
    MissingPaymentMethodFails(newId, Draft(req, FormatLines(req.cartItems)));
  }

  /**
   * POST /api/order, older variant. Its source goes on, after the save, to
   * decrement stock exactly as the newer variant does; with the Order schema
   * the save always fails first, so that step is unreachable (`NeverCreates`).
   */
  method PlaceOrder(db: Store.Db, req: OrderApi.OrderRequest, newId: OrderId) returns (r: OrderApi.PlaceResult)
    requires db.Valid() && newId !in db.orders
    modifies db
    ensures r == Placement(old(db.products), req, newId)
    ensures !r.Created? && unchanged(db)
  {
    var lines := FormatLines(req.cartItems);
    var rejection := FindRejection(db.products, lines);
    if rejection.Some? {
      return OrderApi.Rejected(rejection.value);
    }
    var saved := BuildOrder(newId, Draft(req, lines));
    match saved
    case Failure(failing) =>
      return OrderApi.ServerError(failing);
    case Success(_) =>
      assert false;
  }

  /**
   * PUT /api/order, older variant: the same `findByIdAndUpdate` of the status
   * alone, with the same 404 for an unknown id.
   */
  method SetStatus(db: Store.Db, id: OrderId, newStatus: string) returns (r: OrderApi.StatusResult)
    requires db.Valid()
    modifies db
    ensures db.Valid()
    ensures id !in old(db.orders) ==> r == OrderApi.OrderNotFound && unchanged(db)
    ensures id in old(db.orders) ==>
      && db.orders == OrderApi.UpdateStatus(old(db.orders), id, newStatus).value
      && r == OrderApi.Updated(db.orders[id])
    ensures db.products == old(db.products) && db.types == old(db.types)
  {
    r := OrderApi.SetStatus(db, id, newStatus);
  }
}
