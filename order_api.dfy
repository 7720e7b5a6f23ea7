/**
 * The order endpoint (POST places an order, PUT changes an order's status).
 *
 * Placement formats the posted cart items into order lines, checks every line
 * in cart order against the stock as it was before the order (product exists,
 * chosen size offered, enough stock), stops at the first failing line, and only
 * then saves the Order and decrements each referenced product's quantity by the
 * line's quantity.
 */
module OrderApi {
  import opened Wrappers
  import opened Models
  import Js
  import Store

  /** A cart item as the client posts it. */
  datatype CartLine = CartLine(id: ProductId, name: string, quantity: int, price: int, size: Option<string>)

  /** The POST body; a field missing from the body is `None`. */
  datatype OrderRequest = OrderRequest(
    fullName: Option<string>,
    email: Option<string>,
    phoneNumber: Option<string>,
    shippingAddress: Option<string>,
    cartItems: seq<CartLine>,
    totalAmount: Option<int>,
    paymentMethod: Option<string>)

  /** Why a line was refused (the 400 responses); each names the line's product name. */
  datatype Rejection =
    | ProductNotFound(name: string)
    | SizeUnavailable(size: string, name: string)
    | NotEnoughStock(name: string)
    | InvalidQuantity(name: string)

  /** 201 with the saved order, 400 with the rejection, or 500 after the save failed validation. */
  datatype PlaceResult = Created(order: Order) | Rejected(reason: Rejection) | ServerError(failing: set<string>)

  type Products = map<ProductId, Product>

  // ---------------------------------------------------------------- formatting

  function FormatLine(item: CartLine): OrderLine {
    OrderLine(item.id, item.name, item.quantity, item.price, item.size)
  }

  /** `cartItems.map(...)`: one order line per cart item, in cart order, `_id` renamed `productId`. */
  function FormatLines(items: seq<CartLine>): (r: seq<OrderLine>)
    ensures |r| == |items|
    ensures forall i :: 0 <= i < |items| ==>
      && r[i].productId == items[i].id && r[i].name == items[i].name
      && r[i].quantity == items[i].quantity && r[i].price == items[i].price
      && r[i].size == items[i].size
  {
    if items == [] then [] else [FormatLine(items[0])] + FormatLines(items[1..])
  }

  // ---------------------------------------------------------------- validation

  /** A size was chosen: `item.size` is truthy. */
  predicate SizeSelected(line: OrderLine) {
    Js.Truthy(line.size)
  }

  /** `product.sizes && product.sizes.includes(size)` */
  predicate Offers(p: Product, size: string) {
    p.sizes.Some? && size in p.sizes.value
  }

  /** The three checks one line goes through, in their order. */
  function CheckLine(products: Products, line: OrderLine): Option<Rejection> {
    if line.productId !in products then Some(ProductNotFound(line.name))
    else if SizeSelected(line) && !Offers(products[line.productId], line.size.value) then
      Some(SizeUnavailable(line.size.value, line.name))
    else if products[line.productId].quantity < line.quantity then Some(NotEnoughStock(line.name))
    else None
  }

  /** The rejection of the first failing line, if any. */
  function FirstRejection(products: Products, lines: seq<OrderLine>): Option<Rejection> {
    if lines == [] then None
    else if CheckLine(products, lines[0]).Some? then CheckLine(products, lines[0])
    else FirstRejection(products, lines[1..])
  }

  /** No rejection exactly when every line passes all three checks. */
  lemma {:induction false} NoRejectionIffAllPass(products: Products, lines: seq<OrderLine>)
    ensures FirstRejection(products, lines).None? <==>
      forall i :: 0 <= i < |lines| ==> CheckLine(products, lines[i]).None?
  {
    if lines != [] {
      NoRejectionIffAllPass(products, lines[1..]);
      assert forall i :: 1 <= i < |lines| ==> lines[i] == lines[1..][i - 1];
    }
  }

  /** The first failing line alone decides the rejection; later lines are never looked at. */
  lemma {:induction false} FirstFailingLineDecides(products: Products, lines: seq<OrderLine>, k: nat)
    requires k < |lines| && CheckLine(products, lines[k]).Some?
    requires forall j :: 0 <= j < k ==> CheckLine(products, lines[j]).None?
    ensures FirstRejection(products, lines) == CheckLine(products, lines[k])
  {
    if k > 0 {
      assert forall j :: 0 <= j < k - 1 ==> lines[1..][j] == lines[j + 1];
      FirstFailingLineDecides(products, lines[1..], k - 1);
    }
  }

  /** A missing product is reported before anything else about its line. */
  lemma MissingProductRejected(products: Products, line: OrderLine)
    requires line.productId !in products
    ensures CheckLine(products, line) == Some(ProductNotFound(line.name))
  {
  }

  /**
   * For a line whose product exists and whose size check passes, the stock
   * check refuses exactly when the stock is below the requested quantity:
   * asking for precisely the available stock passes.
   */
  lemma StockCheckIff(products: Products, line: OrderLine)
    requires line.productId in products
    requires !SizeSelected(line) || Offers(products[line.productId], line.size.value)
    ensures CheckLine(products, line) == Some(NotEnoughStock(line.name)) <==>
      products[line.productId].quantity < line.quantity
    ensures CheckLine(products, line).None? <==> line.quantity <= products[line.productId].quantity
  {
  }

  /**
   * The size rule: a line with a chosen size is refused when its product has
   * no sizes or does not offer that exact size; a line without a size never is.
   */
  lemma SizeCheckIff(products: Products, line: OrderLine)
    requires line.productId in products
    ensures CheckLine(products, line).Some? && CheckLine(products, line).value.SizeUnavailable? <==>
      SizeSelected(line) && !Offers(products[line.productId], line.size.value)
  {
  }

  /**
   * The Product schema declares no `sizes` field, so stored products carry none:
   * then every line with a chosen size whose product exists is refused.
   */
  lemma {:induction false} SizelessCatalogueRefusesSizedLines(products: Products, lines: seq<OrderLine>, k: nat)
    requires forall id :: id in products ==> products[id].sizes.None?
    requires k < |lines| && lines[k].productId in products && SizeSelected(lines[k])
    ensures FirstRejection(products, lines).Some?
  {
    NoRejectionIffAllPass(products, lines);
    assert CheckLine(products, lines[k]).Some?;
  }

  method FindRejection(products: Products, lines: seq<OrderLine>) returns (r: Option<Rejection>)
    ensures r == FirstRejection(products, lines)
  {
    for i := 0 to |lines|
      invariant FirstRejection(products, lines) == FirstRejection(products, lines[i..])
    {
      assert lines[i..][1..] == lines[i + 1..];
      var line := lines[i];
      if line.productId !in products {
        return Some(ProductNotFound(line.name));
      }
      var product := products[line.productId];
      if Js.Truthy(line.size) && (product.sizes.None? || line.size.value !in product.sizes.value) {
        return Some(SizeUnavailable(line.size.value, line.name));
      }
      if product.quantity < line.quantity {
        return Some(NotEnoughStock(line.name));
      }
    }
    return None;
  }

  // ---------------------------------------------------------------- commit

  /** The `new Order({...})` argument: the request's customer fields and the formatted lines. */
  function Draft(req: OrderRequest, lines: seq<OrderLine>): OrderDraft {
    OrderDraft(req.fullName, req.email, req.phoneNumber, req.shippingAddress,
               lines, req.totalAmount, req.paymentMethod)
  }

  /** What a POST answers, given the stock before the order. */
  function Placement(products: Products, req: OrderRequest, newId: OrderId): PlaceResult {
    var lines := FormatLines(req.cartItems);
    match FirstRejection(products, lines)
    case Some(reason) => Rejected(reason)
    case None =>
      match BuildOrder(newId, Draft(req, lines))
      case Failure(failing) => ServerError(failing)
      case Success(order) => Created(order)
  }

  /** `$inc: { quantity: -line.quantity }` on the line's product; no product, no change. */
  function DecrementOne(products: Products, line: OrderLine): (r: Products)
    ensures r.Keys == products.Keys
  {
    if line.productId in products then
      products[line.productId := products[line.productId].(quantity := products[line.productId].quantity - line.quantity)]
    else products
  }

  /** The decrements of all lines, applied one after another. */
  function Decrement(products: Products, lines: seq<OrderLine>): (r: Products)
    ensures r.Keys == products.Keys
  {
    if lines == [] then products
    else DecrementOne(Decrement(products, lines[..|lines| - 1]), lines[|lines| - 1])
  }

  /** The total quantity the lines ask of one product. */
  function Demand(lines: seq<OrderLine>, id: ProductId): int {
    if lines == [] then 0
    else Demand(lines[..|lines| - 1], id)
         + (if lines[|lines| - 1].productId == id then lines[|lines| - 1].quantity else 0)
  }

  lemma {:induction false} DemandAppend(a: seq<OrderLine>, b: seq<OrderLine>, id: ProductId)
    ensures Demand(a + b, id) == Demand(a, id) + Demand(b, id)
  {
    if b == [] {
      assert a + b == a;
    } else {
      assert (a + b)[..|a + b| - 1] == a + b[..|b| - 1];
      DemandAppend(a, b[..|b| - 1], id);
    }
  }

  /** Lines that never mention a product ask nothing of it. */
  lemma {:induction false} DemandUnreferenced(lines: seq<OrderLine>, id: ProductId)
    requires forall i :: 0 <= i < |lines| ==> lines[i].productId != id
    ensures Demand(lines, id) == 0
  {
    if lines != [] {
      DemandUnreferenced(lines[..|lines| - 1], id);
    }
  }

  /**
   * After the decrements every product's quantity is its old value minus the
   * sum of the quantities of the lines that reference it; nothing else about
   * any product changes, and no product appears or disappears.
   */
  lemma {:induction false} DecrementSpec(products: Products, lines: seq<OrderLine>)
    ensures Decrement(products, lines).Keys == products.Keys
    ensures forall id :: id in products ==>
      Decrement(products, lines)[id] == products[id].(quantity := products[id].quantity - Demand(lines, id))
  {
    if lines != [] {
      DecrementSpec(products, lines[..|lines| - 1]);
    }
  }

  /** Demand depends only on which lines there are, not on their order. */
  lemma {:induction false} DemandPermutation(a: seq<OrderLine>, b: seq<OrderLine>, id: ProductId)
    requires multiset(a) == multiset(b)
    ensures Demand(a, id) == Demand(b, id)
    decreases |a|
  {
    if a == [] {
      assert |b| == |multiset(b)| == 0;
    } else {
      var x := a[|a| - 1];
      var a' := a[..|a| - 1];
      MultisetRemoveAt(a, |a| - 1);
      assert a[|a| - 1 + 1..] == [];
      assert a' + [] == a';
      assert x in multiset(b);
      var k :| 0 <= k < |b| && b[k] == x;
      MultisetRemoveAt(b, k);
      DemandPermutation(a', b[..k] + b[k + 1..], id);
      DemandRemoveAt(b, k, id);
    }
  }

  /** Taking element k out of a sequence takes one occurrence of it out of the multiset. */
  lemma MultisetRemoveAt<T>(s: seq<T>, k: nat)
    requires k < |s|
    ensures multiset(s[..k] + s[k + 1..]) == multiset(s) - multiset{s[k]}
  {
    assert s == s[..k] + [s[k]] + s[k + 1..];
  }

  /** Taking line k out of the lines takes its quantity out of the demand for its product. */
  lemma DemandRemoveAt(b: seq<OrderLine>, k: nat, id: ProductId)
    requires k < |b|
    ensures Demand(b, id) == Demand(b[..k] + b[k + 1..], id) + (if b[k].productId == id then b[k].quantity else 0)
  {
    var x := b[k];
    assert b == b[..k] + [x] + b[k + 1..];
    DemandAppend(b[..k] + [x], b[k + 1..], id);
    DemandAppend(b[..k], [x], id);
    DemandAppend(b[..k], b[k + 1..], id);
    assert [x][..0] == [];
  }

  /**
   * The source runs the decrements concurrently (`Promise.all`); they are
   * independent additions, so any order of the lines gives the same stock.
   */
  lemma DecrementOrderIrrelevant(products: Products, a: seq<OrderLine>, b: seq<OrderLine>)
    requires multiset(a) == multiset(b)
    ensures Decrement(products, a) == Decrement(products, b)
  {
    DecrementSpec(products, a);
    DecrementSpec(products, b);
    forall id | id in products
      ensures Decrement(products, a)[id] == Decrement(products, b)[id]
    {
      DemandPermutation(a, b, id);
    }
  }

  /** The decrement step, one `updateOne` per line. */
  method ApplyDecrements(db: Store.Db, lines: seq<OrderLine>)
    requires db.Valid()
    modifies db
    ensures db.Valid()
    ensures db.products == Decrement(old(db.products), lines)
    ensures db.types == old(db.types) && db.orders == old(db.orders)
  {
    for i := 0 to |lines|
      invariant db.Valid()
      invariant db.products == Decrement(old(db.products), lines[..i])
      invariant db.types == old(db.types) && db.orders == old(db.orders)
    {
      assert lines[..i + 1][..i] == lines[..i];
      var line := lines[i];
      if line.productId in db.products {
        var p := db.products[line.productId];
        db.products := db.products[line.productId := p.(quantity := p.quantity - line.quantity)];
      }
    }
    assert lines[..|lines|] == lines;
  }

  /** POST /api/order */
  method PlaceOrder(db: Store.Db, req: OrderRequest, newId: OrderId) returns (r: PlaceResult)
    requires db.Valid() && newId !in db.orders
    modifies db
    ensures db.Valid()
    ensures r == Placement(old(db.products), req, newId)
    ensures r.Created? ==>
      && db.orders == old(db.orders)[newId := r.order]
      && db.products == Decrement(old(db.products), r.order.cartItems)
      && db.types == old(db.types)
    ensures !r.Created? ==> unchanged(db)
  {
    var lines := FormatLines(req.cartItems);
    var rejection := FindRejection(db.products, lines);
    if rejection.Some? {
      return Rejected(rejection.value);
    }
    var saved := BuildOrder(newId, Draft(req, lines));
    if saved.Failure? {
      return ServerError(saved.error);
    }
    db.orders := db.orders[newId := saved.value];
    ApplyDecrements(db, lines);
    return Created(saved.value);
  }

  // ---------------------------------------------------------------- what placement promises

  /**
   * An order is created exactly when every line passes its checks and the
   * order saves; it then holds the formatted lines, the request's customer
   * fields, total and payment method, and the default status.
   */
  lemma PlacementCreated(products: Products, req: OrderRequest, newId: OrderId)
    ensures Placement(products, req, newId).Created? <==>
      && (forall i :: 0 <= i < |req.cartItems| ==> CheckLine(products, FormatLines(req.cartItems)[i]).None?)
      && BuildOrder(newId, Draft(req, FormatLines(req.cartItems))).Success?
    ensures Placement(products, req, newId).Created? ==>
      var o := Placement(products, req, newId).order;
      && o.id == newId
      && o.cartItems == FormatLines(req.cartItems)
      && o.fullName == req.fullName.value && o.email == req.email.value
      && o.phoneNumber == req.phoneNumber.value && o.shippingAddress == req.shippingAddress.value
      && o.totalAmount == req.totalAmount.value && o.paymentMethod == req.paymentMethod.value
      && o.status == DefaultStatus
  {
    NoRejectionIffAllPass(products, FormatLines(req.cartItems));
  }

  /**
   * The total is never compared with the lines: changing it changes nothing
   * about the outcome except the total the saved order records.
   */
  lemma TotalAmountNeverChecked(products: Products, req: OrderRequest, newId: OrderId, total: int)
    requires req.totalAmount.Some?
    ensures var r := Placement(products, req, newId);
            var r' := Placement(products, req.(totalAmount := Some(total)), newId);
            && (r'.Created? <==> r.Created?)
            && (r.Created? ==> r'.order == r.order.(totalAmount := total))
            && (r.Rejected? ==> r' == r)
  {
  }

  /** Nothing checks that the cart is non-empty: an empty cart with valid customer fields is accepted. */
  lemma EmptyCartAccepted(products: Products, req: OrderRequest, newId: OrderId)
    requires req.cartItems == []
    requires BuildOrder(newId, Draft(req, [])).Success?
    ensures Placement(products, req, newId).Created?
    ensures Placement(products, req, newId).order.cartItems == []
  {
  }

  /**
   * After a successful placement, lines referencing distinct products that each
   * passed the stock check leave every product with non-negative stock.
   */
  lemma {:induction false} DistinctLinesKeepStock(products: Products, lines: seq<OrderLine>)
    requires FirstRejection(products, lines).None?
    requires forall i, j :: 0 <= i < j < |lines| ==> lines[i].productId != lines[j].productId
    requires forall i :: 0 <= i < |lines| ==> lines[i].quantity >= 0
    requires forall id :: id in products ==> products[id].quantity >= 0
    ensures forall id :: id in products ==> Decrement(products, lines)[id].quantity >= 0
  {
    NoRejectionIffAllPass(products, lines);
    DecrementSpec(products, lines);
    forall id | id in products
      ensures Demand(lines, id) <= products[id].quantity
    {
      if k :| 0 <= k < |lines| && lines[k].productId == id {
        DemandSingle(lines, k, id);
        assert CheckLine(products, lines[k]).None?;
      } else {
        DemandUnreferenced(lines, id);
      }
    }
  }

  /** A product named on one line only is asked exactly that line's quantity. */
  lemma DemandSingle(lines: seq<OrderLine>, k: nat, id: ProductId)
    requires k < |lines| && lines[k].productId == id
    requires forall i :: 0 <= i < |lines| && i != k ==> lines[i].productId != id
    ensures Demand(lines, id) == lines[k].quantity
  {
    var pre, post := lines[..k], lines[k + 1..];
    assert lines == pre + [lines[k]] + post;
    assert forall i :: 0 <= i < |pre| ==> pre[i] == lines[i];
    assert forall i :: 0 <= i < |post| ==> post[i] == lines[k + 1 + i];
    DemandUnreferenced(pre, id);
    DemandUnreferenced(post, id);
    DemandAppend(pre + [lines[k]], post, id);
    DemandAppend(pre, [lines[k]], id);
    assert [lines[k]][..0] == [];
  }

  // ---------------------------------------------------------------- findings: stock can go negative or grow

  /**
   * As written: two lines for the same product are each checked alone against
   * the pre-order stock, so both pass and together overdraw it.
   */
  lemma DuplicateLinesOverdrawStock()
    ensures var p := Product("p1", "Dress", 50, 3, "t1", "https://x.io/d", None, 0);
            var products := map["p1" := p];
            var lines := [OrderLine("p1", "Dress", 2, 50, None), OrderLine("p1", "Dress", 2, 50, None)];
            && FirstRejection(products, lines).None?
            && Decrement(products, lines)["p1"].quantity == -1
  {
    var p := Product("p1", "Dress", 50, 3, "t1", "https://x.io/d", None, 0);
    var products := map["p1" := p];
    var line := OrderLine("p1", "Dress", 2, 50, None);
    var lines := [line, line];
    assert CheckLine(products, line).None?;
    assert lines[1..] == [line] && [line][1..] == [];
    assert FirstRejection(products, lines) == FirstRejection(products, [line]) == FirstRejection(products, []);
    assert lines[..1] == [line] && [line][..0] == [];
    var once := Decrement(products, [line]);
    assert Decrement(products, [line][..0]) == products;
    assert once == DecrementOne(products, line);
    assert once["p1"].quantity == 1;
    assert Decrement(products, lines) == DecrementOne(once, line);
  }

  /** As written: a line with a negative quantity passes the stock check and raises the stock. */
  lemma NegativeLineRaisesStock()
    ensures var p := Product("p1", "Dress", 50, 3, "t1", "https://x.io/d", None, 0);
            var products := map["p1" := p];
            var lines := [OrderLine("p1", "Dress", -5, 50, None)];
            && FirstRejection(products, lines).None?
            && Decrement(products, lines)["p1"].quantity == 8
  {
    var p := Product("p1", "Dress", 50, 3, "t1", "https://x.io/d", None, 0);
    var products := map["p1" := p];
    var lines := [OrderLine("p1", "Dress", -5, 50, None)];
    assert lines[..0] == [] && lines[1..] == [];
    assert Decrement(products, lines) == DecrementOne(products, lines[0]);
  }

  /** The corrected line check: positive quantity, and stock covering the whole order's demand for the product. */
  function CheckLineHardened(products: Products, lines: seq<OrderLine>, line: OrderLine): Option<Rejection> {
    if line.productId !in products then Some(ProductNotFound(line.name))
    else if SizeSelected(line) && !Offers(products[line.productId], line.size.value) then
      Some(SizeUnavailable(line.size.value, line.name))
    else if line.quantity <= 0 then Some(InvalidQuantity(line.name))
    else if products[line.productId].quantity < Demand(lines, line.productId) then Some(NotEnoughStock(line.name))
    else None
  }

  /** The first line, from index `i` on, that the corrected check refuses. */
  function HardenedRejectionFrom(products: Products, lines: seq<OrderLine>, i: nat): Option<Rejection>
    decreases |lines| - i
  {
    if i >= |lines| then None
    else if CheckLineHardened(products, lines, lines[i]).Some? then CheckLineHardened(products, lines, lines[i])
    else HardenedRejectionFrom(products, lines, i + 1)
  }

  function HardenedRejection(products: Products, lines: seq<OrderLine>): Option<Rejection> {
    HardenedRejectionFrom(products, lines, 0)
  }

  lemma {:induction false} HardenedFromNone(products: Products, lines: seq<OrderLine>, i: nat)
    requires HardenedRejectionFrom(products, lines, i).None?
    ensures forall j :: i <= j < |lines| ==> CheckLineHardened(products, lines, lines[j]).None?
    decreases |lines| - i
  {
    if i < |lines| {
      HardenedFromNone(products, lines, i + 1);
    }
  }

  lemma {:induction false} DemandNonNegative(lines: seq<OrderLine>, id: ProductId)
    requires forall i :: 0 <= i < |lines| ==> lines[i].quantity > 0
    ensures Demand(lines, id) >= 0
  {
    if lines != [] {
      DemandNonNegative(lines[..|lines| - 1], id);
    }
  }

  /**
   * Corrected: when the hardened check accepts an order, no product's stock
   * grows, and stock that was non-negative stays non-negative.
   */
  lemma HardenedCheckKeepsStock(products: Products, lines: seq<OrderLine>)
    requires HardenedRejection(products, lines).None?
    ensures forall id :: id in products ==>
      && Decrement(products, lines)[id].quantity <= products[id].quantity
      && (products[id].quantity >= 0 ==> Decrement(products, lines)[id].quantity >= 0)
  {
    HardenedFromNone(products, lines, 0);
    DecrementSpec(products, lines);
    assert forall i :: 0 <= i < |lines| ==> lines[i].quantity > 0 by {
      forall i | 0 <= i < |lines| ensures lines[i].quantity > 0 {
        assert CheckLineHardened(products, lines, lines[i]).None?;
      }
    }
    forall id | id in products
      ensures 0 <= Demand(lines, id)
      ensures products[id].quantity >= 0 ==> Demand(lines, id) <= products[id].quantity
    {
      DemandNonNegative(lines, id);
      if k :| 0 <= k < |lines| && lines[k].productId == id {
        assert CheckLineHardened(products, lines, lines[k]).None?;
      } else {
        DemandUnreferenced(lines, id);
      }
    }
  }

  /** Corrected: the overdrawing cart of DuplicateLinesOverdrawStock is refused. */
  lemma HardenedRefusesOverdraw()
    ensures var p := Product("p1", "Dress", 50, 3, "t1", "https://x.io/d", None, 0);
            var lines := [OrderLine("p1", "Dress", 2, 50, None), OrderLine("p1", "Dress", 2, 50, None)];
            HardenedRejection(map["p1" := p], lines) == Some(NotEnoughStock("Dress"))
  {
    var line := OrderLine("p1", "Dress", 2, 50, None);
    var lines := [line, line];
    assert lines[..1] == [line] && [line][..0] == [];
    assert Demand([line], "p1") == 2;
    assert Demand(lines, "p1") == 4;
  }

  /** The corrected placement: the same steps as `Placement`, with the hardened check. */
  function PlacementHardened(products: Products, req: OrderRequest, newId: OrderId): PlaceResult {
    var lines := FormatLines(req.cartItems);
    match HardenedRejection(products, lines)
    case Some(reason) => Rejected(reason)
    case None =>
      match BuildOrder(newId, Draft(req, lines))
      case Failure(failing) => ServerError(failing)
      case Success(order) => Created(order)
  }

  /** POST /api/order with the corrected check; stock that was non-negative stays so. */
  method PlaceOrderHardened(db: Store.Db, req: OrderRequest, newId: OrderId) returns (r: PlaceResult)
    requires db.Valid() && newId !in db.orders
    modifies db
    ensures db.Valid()
    ensures r == PlacementHardened(old(db.products), req, newId)
    ensures r.Created? ==>
      && db.orders == old(db.orders)[newId := r.order]
      && db.products == Decrement(old(db.products), r.order.cartItems)
    ensures !r.Created? ==> unchanged(db)
    ensures (forall id :: id in old(db.products) ==> old(db.products)[id].quantity >= 0) ==>
      forall id :: id in db.products ==> db.products[id].quantity >= 0
  {
    var lines := FormatLines(req.cartItems);
    var rejection := HardenedRejection(db.products, lines);
    if rejection.Some? {
      return Rejected(rejection.value);
    }
    var saved := BuildOrder(newId, Draft(req, lines));
    if saved.Failure? {
      return ServerError(saved.error);
    }
    HardenedCheckKeepsStock(db.products, lines);
    DecrementSpec(db.products, lines);
    db.orders := db.orders[newId := saved.value];
    ApplyDecrements(db, lines);
    return Created(saved.value);
  }

  // ---------------------------------------------------------------- status update

  datatype StatusResult = Updated(order: Order) | OrderNotFound

  /**
   * `findByIdAndUpdate(id, { status: newStatus })`: the orders with only that
   * order's status overwritten, or None for an unknown id. The new status is
   * not checked against the status enum.
   */
  function UpdateStatus(orders: map<OrderId, Order>, id: OrderId, newStatus: string): (r: Option<map<OrderId, Order>>)
    ensures r.None? <==> id !in orders
    ensures r.Some? ==>
      && r.value.Keys == orders.Keys
      && r.value[id] == orders[id].(status := newStatus)
      && forall k :: k in orders && k != id ==> r.value[k] == orders[k]
  {
    if id in orders then Some(orders[id := orders[id].(status := newStatus)]) else None
  }

  /** Two updates of one order: the later status wins, as if only it had been written. */
  lemma LastStatusWins(orders: map<OrderId, Order>, id: OrderId, s1: string, s2: string)
    requires id in orders
    ensures UpdateStatus(UpdateStatus(orders, id, s1).value, id, s2) == UpdateStatus(orders, id, s2)
  {
    var once := UpdateStatus(orders, id, s1).value;
    assert once[id].(status := s2) == orders[id].(status := s2);
    assert once[id := once[id].(status := s2)] == orders[id := orders[id].(status := s2)];
  }

  /** A status outside the enum (the dashboard offers "Completed") is stored as given. */
  lemma OffEnumStatusStored(orders: map<OrderId, Order>, id: OrderId)
    requires id in orders
    ensures UpdateStatus(orders, id, "Completed").value[id].status !in Statuses
  {
  }

  /** PUT /api/order */
  method SetStatus(db: Store.Db, id: OrderId, newStatus: string) returns (r: StatusResult)
    requires db.Valid()
    modifies db
    ensures db.Valid()
    ensures id !in old(db.orders) ==> r == OrderNotFound && unchanged(db)
    ensures id in old(db.orders) ==>
      && db.orders == UpdateStatus(old(db.orders), id, newStatus).value
      && r == Updated(db.orders[id])
    ensures db.products == old(db.products) && db.types == old(db.types)
  {
    if id !in db.orders {
      return OrderNotFound;
    }
    var updated := db.orders[id].(status := newStatus);
    db.orders := db.orders[id := updated];
    return Updated(updated);
  }
}
